/**
 * Pending `setTimeout` callbacks, in the order the browser's event loop runs
 * them: by due time, and among callbacks due at the same instant, in the order
 * they were scheduled. A queue is a sequence of timers kept sorted by due time,
 * so the next callback to run is always the head.
 */
module Timers {

  /** A callback `action` scheduled to run at time `due` (milliseconds). */
  datatype Timer<A> = Timer(due: nat, action: A)

  /** The queue is ordered by due time. */
  ghost predicate Sorted<A>(ts: seq<Timer<A>>) {
    forall i, j :: 0 <= i < j < |ts| ==> ts[i].due <= ts[j].due
  }

  /** No pending callback is due before `now`. */
  ghost predicate DueFrom<A>(ts: seq<Timer<A>>, now: nat) {
    forall i :: 0 <= i < |ts| ==> now <= ts[i].due
  }

  /** The place a callback due at `due` takes: after every callback due no later. */
  function InsertAt<A>(ts: seq<Timer<A>>, due: nat): (k: nat)
    ensures k <= |ts|
    ensures forall i :: 0 <= i < k ==> ts[i].due <= due
    ensures k < |ts| ==> due < ts[k].due
  {
    if ts == [] || due < ts[0].due then 0 else 1 + InsertAt(ts[1..], due)
  }

  /** `setTimeout`: adds one callback, after every pending callback due no later. */
  function Schedule<A>(ts: seq<Timer<A>>, t: Timer<A>): (r: seq<Timer<A>>)
    ensures |r| == |ts| + 1
  {
    var k := InsertAt(ts, t.due);
    ts[..k] + [t] + ts[k..]
  }

  /** Scheduling adds exactly the new callback. */
  lemma ScheduleAdds<A>(ts: seq<Timer<A>>, t: Timer<A>)
    ensures multiset(Schedule(ts, t)) == multiset(ts) + multiset{t}
    ensures |Schedule(ts, t)| == |ts| + 1
  {
    var k := InsertAt(ts, t.due);
    assert ts == ts[..k] + ts[k..];
  }

  /** The new callback goes after every callback due no later and before every callback
      due later; the others keep their order. */
  lemma SchedulePlaces<A>(ts: seq<Timer<A>>, t: Timer<A>)
    ensures var k := InsertAt(ts, t.due); var r := Schedule(ts, t);
      && |r| == |ts| + 1 && r[k] == t
      && (forall i :: 0 <= i < k ==> r[i] == ts[i] && ts[i].due <= t.due)
      && (forall i :: k < i < |r| ==> r[i] == ts[i - 1])
      && (k < |ts| ==> t.due < ts[k].due)
  {
  }

  /** Scheduling keeps the queue in firing order. */
  lemma ScheduleSorted<A>(ts: seq<Timer<A>>, t: Timer<A>)
    requires Sorted(ts)
    ensures Sorted(Schedule(ts, t))
  {
    var k := InsertAt(ts, t.due);
    var r := Schedule(ts, t);
    SchedulePlaces(ts, t);
    forall i, j | 0 <= i < j < |r| ensures r[i].due <= r[j].due {
      if i == k {
        assert ts[k].due <= ts[j - 1].due;
      }
    }
  }

  /** Scheduling a callback no earlier than `now` keeps every callback due from `now`. */
  lemma {:induction false} ScheduleDueFrom<A>(ts: seq<Timer<A>>, t: Timer<A>, now: nat)
    requires DueFrom(ts, now) && now <= t.due
    ensures DueFrom(Schedule(ts, t), now)
  {
    SchedulePlaces(ts, t);
  }

  /** `clearTimeout` on every pending callback with action `a`. */
  function Cancel<A(==)>(ts: seq<Timer<A>>, a: A): (r: seq<Timer<A>>)
    ensures |r| <= |ts|
    ensures forall i :: 0 <= i < |r| ==> r[i] in ts && r[i].action != a
    ensures forall i :: 0 <= i < |ts| && ts[i].action != a ==> ts[i] in r
    ensures Sorted(ts) ==> Sorted(r)
    ensures forall now: nat {:trigger DueFrom(r, now)} :: DueFrom(ts, now) ==> DueFrom(r, now)
  {
    if ts == [] then []
    else
      var rest := Cancel(ts[1..], a);
      assert forall i :: 0 <= i < |ts| - 1 ==> ts[1..][i] == ts[i + 1];
      if ts[0].action == a then rest else [ts[0]] + rest
  }

  /** `r` is `ts` with some of its callbacks left out and the rest in their original order. */
  ghost predicate Subsequence<A>(r: seq<Timer<A>>, ts: seq<Timer<A>>)
    decreases |ts|
  {
    if r == [] then true
    else if ts == [] then false
    else (r[0] == ts[0] && Subsequence(r[1..], ts[1..])) || Subsequence(r, ts[1..])
  }

  /** `clearTimeout` keeps every other callback as often as it was pending. */
  lemma {:induction false} CancelCounts<A>(ts: seq<Timer<A>>, a: A)
    ensures forall x :: multiset(Cancel(ts, a))[x] == if x.action == a then 0 else multiset(ts)[x]
  {
    if ts != [] {
      CancelCounts(ts[1..], a);
      assert ts == [ts[0]] + ts[1..];
    }
  }

  /** `clearTimeout` keeps the other callbacks in the order they were pending, ties included. */
  lemma {:induction false} CancelKeepsOrder<A>(ts: seq<Timer<A>>, a: A)
    ensures Subsequence(Cancel(ts, a), ts)
  {
    if ts != [] {
      var rest := Cancel(ts[1..], a);
      CancelKeepsOrder(ts[1..], a);
      if ts[0].action != a {
        assert Cancel(ts, a) == [ts[0]] + rest;
        assert ([ts[0]] + rest)[1..] == rest;
      }
    }
  }

  /** A sorted queue whose callbacks are all due from `now` stays so after its head runs. */
  lemma PopKeepsOrder<A>(ts: seq<Timer<A>>, now: nat)
    requires Sorted(ts) && DueFrom(ts, now) && ts != []
    ensures Sorted(ts[1..]) && DueFrom(ts[1..], ts[0].due) && now <= ts[0].due
  {
  }
}
