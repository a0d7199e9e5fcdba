/**
 * The `useLocalStorage` hook (src/hooks/useLocalStorage.jsx): a string cell
 * whose initial value is read from `window.localStorage` with a fallback, and
 * whose setter writes memory first and then, best effort, the storage.
 * Storage is a map from key to string plus a flag saying that the medium is
 * unavailable, in which case every `getItem` and `setItem` throws.
 */
module LocalStorage {
  import opened Wrappers

  /** The storage medium, as a value. */
  datatype Medium = Medium(entries: map<string, string>, fails: bool)

  /** What `getItem` does: throw, or return the entry (`null` when absent). */
  datatype Read = Threw | Returned(item: Option<string>)

  function ReadItem(m: Medium, key: string): (r: Read)
    ensures r == Threw <==> m.fails
    ensures r.Returned? ==> (r.item.Some? <==> key in m.entries)
    ensures r.Returned? && r.item.Some? ==> r.item.value == m.entries[key]
  {
    if m.fails then Threw
    else if key in m.entries then Returned(Some(m.entries[key]))
    else Returned(None)
  }

  /** `setItem`: stores the entry, or throws and leaves the medium as it was. */
  function WriteItem(m: Medium, key: string, val: string): (r: Medium)
    ensures r.fails == m.fails
    ensures !m.fails ==> key in r.entries && r.entries[key] == val
    ensures m.fails ==> r == m
    ensures forall k :: k != key ==> (k in r.entries <==> k in m.entries)
    ensures forall k :: k != key && k in m.entries ==> r.entries[k] == m.entries[k]
  {
    if m.fails then m else m.(entries := m.entries[key := val])
  }

  /** The `useState` initializer: `getItem(key) || initialValue`, and `initialValue`
      when `getItem` throws. Absent (`null`) and empty entries are both falsy. */
  function InitialValue(m: Medium, key: string, initialValue: string): (v: string)
    ensures v == initialValue || (!m.fails && key in m.entries && v == m.entries[key] && v != "")
    ensures !m.fails && key in m.entries && m.entries[key] != "" ==> v == m.entries[key]
    ensures m.fails || key !in m.entries || m.entries[key] == "" ==> v == initialValue
  {
    match ReadItem(m, key)
    case Threw => initialValue
    case Returned(None) => initialValue
    case Returned(Some(item)) => if item != "" then item else initialValue
  }

  /** Round trip: once a write of a non-empty value succeeds, a new cell for the same key
      starts with that value, whatever its fallback. */
  lemma WriteThenRead(m: Medium, key: string, val: string, initialValue: string)
    requires !m.fails && val != ""
    ensures InitialValue(WriteItem(m, key, val), key, initialValue) == val
  {
  }

  /** An empty value written to storage reads back as the fallback. */
  lemma EmptyReadsAsFallback(m: Medium, key: string, initialValue: string)
    ensures InitialValue(WriteItem(m, key, ""), key, initialValue) == initialValue
  {
  }

  /** A write under one key leaves what a cell for any other key reads. */
  lemma WriteLeavesOtherKeys(m: Medium, key: string, other: string, val: string, initialValue: string)
    requires other != key
    ensures InitialValue(WriteItem(m, key, val), other, initialValue) == InitialValue(m, other, initialValue)
  {
  }

  /** `window.localStorage`. */
  class Storage {
    var entries: map<string, string>
    var fails: bool

    ghost function State(): Medium
      reads this
    {
      Medium(entries, fails)
    }

    constructor (entries: map<string, string>, fails: bool)
      ensures State() == Medium(entries, fails)
    {
      this.entries := entries;
      this.fails := fails;
    }

    /** `getItem(key)`; changes nothing. */
    method GetItem(key: string) returns (r: Read)
      ensures r == ReadItem(State(), key)
    {
      if fails {
        return Threw;
      }
      if key in entries {
        r := Returned(Some(entries[key]));
      } else {
        r := Returned(None);
      }
    }

    /** `setItem(key, val)`; reports whether it threw. */
    method SetItem(key: string, val: string) returns (threw: bool)
      modifies this
      ensures threw == old(fails)
      ensures State() == WriteItem(old(State()), key, val)
    {
      threw := fails;
      if !threw {
        entries := entries[key := val];
      }
    }
  }

  /** One `useLocalStorage(key, initialValue)` cell: the state and its setter. */
  class StoredString {
    const key: string
    var value: string

    /** The first render: the initializer reads storage and never lets an error out. */
    constructor (storage: Storage, key: string, initialValue: string)
      ensures this.key == key
      ensures value == InitialValue(storage.State(), key, initialValue)
    {
      this.key := key;
      var read := storage.GetItem(key);
      match read
      case Threw => value := initialValue;
      case Returned(None) => value := initialValue;
      case Returned(Some(item)) => value := if item != "" then item else initialValue;
    }

    /** `setStoredValue(val)`: memory first, then storage; a failed write is swallowed
        and the memory value stands. */
    method Set(storage: Storage, val: string)
      modifies this, storage
      ensures value == val
      ensures storage.State() == WriteItem(old(storage.State()), key, val)
    {
      value := val;
      var threw := storage.SetItem(key, val);
      if threw {
        value := val;
      }
    }
  }
}
