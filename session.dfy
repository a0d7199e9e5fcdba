/**
 * The top-level component's state (src/App.jsx) as an object whose fields the
 * handlers of the configuration page (src/pages/HomePage.jsx) update in
 * place through the setters App passes down. Each method is proved to move
 * the object exactly as the corresponding function of SessionSpec moves its
 * value.
 */
module Session {
  import opened Wrappers
  import opened Timers
  import SessionSpec

  class App {
    var page: string
    var isConnected: bool
    var isLoading: bool
    var errorMsg: string
    var s3Bucket: string
    var toast: Option<SessionSpec.ToastMsg>
    var now: nat
    var timers: seq<Timer<SessionSpec.Action>>

    ghost function State(): SessionSpec.AppState
      reads this
    {
      SessionSpec.AppState(page, isConnected, isLoading, errorMsg, s3Bucket, toast, now, timers)
    }

    ghost predicate Valid()
      reads this
    {
      SessionSpec.Consistent(State())
    }

    /** The `useState` initial values. */
    constructor ()
      ensures State() == SessionSpec.Initial() && Valid()
    {
      page := SessionSpec.DocsPage;
      isConnected := false;
      isLoading := false;
      errorMsg := "";
      s3Bucket := "";
      toast := None;
      now := 0;
      timers := [];
      new;
      SessionSpec.InitialConsistent();
    }

    /** `setPage`, as the sidebar calls it. */
    method Navigate(target: string)
      requires Valid()
      modifies this
      ensures State() == SessionSpec.Next(old(State()), SessionSpec.Navigate(target)) && Valid()
    {
      page := target;
    }

    /** `showToast(type, message)`. */
    method ShowToast(kind: string, message: string)
      modifies this
      ensures State() == SessionSpec.ShowToast(old(State()), kind, message)
    {
      ghost var before := State();
      toast := Some(SessionSpec.ToastMsg(kind, message));
      timers := Schedule(timers, Timer(now + SessionSpec.ToastDuration, SessionSpec.ClearToast));
      assert State() == before.(toast := toast, timers := timers);
    }

    /** The callback `showToast` schedules. */
    method ClearToast()
      modifies this
      ensures State() == SessionSpec.ClearToastNow(old(State()))
    {
      toast := None;
    }

    /** The form's submit event: `handleConnect`, unless the button is disabled or the page
        is not mounted. Returns whether the handler ran. */
    method Submit(c: SessionSpec.Credentials) returns (handled: bool)
      requires Valid()
      modifies this
      ensures handled == (old(page) != SessionSpec.DocsPage && !old(isConnected) && !old(isLoading))
      ensures State() == SessionSpec.Next(old(State()), SessionSpec.ClickConnect(c)) && Valid()
    {
      ghost var before := State();
      handled := page != SessionSpec.DocsPage && !isConnected && !isLoading;
      if !handled {
        return;
      }
      isLoading := true;
      errorMsg := "";
      timers := Schedule(timers, Timer(now + SessionSpec.ConnectDelay, SessionSpec.ConnectCheck(c)));
      assert State() == SessionSpec.HandleConnect(before, c);
      SessionSpec.NextConsistent(before, SessionSpec.ClickConnect(c));
    }

    /** The delayed callback of `handleConnect`, on the values it captured. */
    method CompleteConnect(c: SessionSpec.Credentials)
      modifies this
      ensures State() == SessionSpec.ConnectOutcome(old(State()), c)
      ensures !isLoading
    {
      if !SessionSpec.Filled(c) {
        errorMsg := SessionSpec.RequiredMsg;
        isLoading := false;
        return;
      }
      if c.bucket == SessionSpec.DemoBucket {
        isConnected := true;
        s3Bucket := c.bucket;
        isLoading := false;
        ShowToast("success", SessionSpec.ConnectedToast);
      } else {
        isConnected := false;
        isLoading := false;
        errorMsg := SessionSpec.NetworkErrorMsg;
        ShowToast("error", SessionSpec.ConnectErrorToast);
      }
    }

    /** The Disconnect button: `handleDisconnect`, which exists only while connected. */
    method Disconnect() returns (handled: bool)
      requires Valid()
      modifies this
      ensures handled == (old(page) != SessionSpec.DocsPage && old(isConnected))
      ensures State() == SessionSpec.Next(old(State()), SessionSpec.ClickDisconnect) && Valid()
    {
      ghost var before := State();
      handled := page != SessionSpec.DocsPage && isConnected;
      if !handled {
        return;
      }
      isConnected := false;
      s3Bucket := "";
      ShowToast("error", SessionSpec.DisconnectedToast);
      SessionSpec.NextConsistent(before, SessionSpec.ClickDisconnect);
    }

    /** Time passes, up to the next pending callback. */
    method Elapse(dt: nat)
      requires Valid()
      modifies this
      ensures State() == SessionSpec.Next(old(State()), SessionSpec.Wait(dt)) && Valid()
    {
      ghost var before := State();
      if timers == [] || now + dt <= timers[0].due {
        now := now + dt;
      }
      SessionSpec.NextConsistent(before, SessionSpec.Wait(dt));
    }

    /** The event loop runs the next pending callback. */
    method FireNextTimer()
      requires Valid()
      modifies this
      ensures State() == SessionSpec.Next(old(State()), SessionSpec.TimerFires) && Valid()
    {
      ghost var before := State();
      if timers == [] {
        return;
      }
      var t := timers[0];
      now := t.due;
      timers := timers[1..];
      match t.action {
        case ClearToast => ClearToast();
        case ConnectCheck(c) => CompleteConnect(c);
      }
      SessionSpec.NextConsistent(before, SessionSpec.TimerFires);
    }
  }
}
