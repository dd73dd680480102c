/**
 * The tab's `sessionStorage`: string keys mapped to string values.  Every
 * access may throw (storage disabled, quota exceeded); which ones do is
 * given up front as a script, `faults`, of which each access consumes one
 * entry (`true`: that access throws).  Quantifying over the script covers
 * every pattern of failures.
 */
module Session {
  import opened Wrappers

  datatype Store = Store(items: map<string, string>, faults: seq<bool>) {

    /** Whether the `k`-th access from now throws. */
    predicate FaultAt(k: nat) {
      k < |faults| && faults[k]
    }

    /** Whether the next access throws. */
    predicate Throws() {
      FaultAt(0)
    }

    /** No access from now on throws. */
    predicate Healthy() {
      true !in faults
    }

    /** The store after one access, successful or not, has used up its script entry. */
    function Advanced(): (s: Store)
      ensures s.items == items
      ensures forall k: nat :: s.FaultAt(k) == FaultAt(k + 1)
      ensures Healthy() ==> s.Healthy()
    {
      Store(items, if faults == [] then [] else faults[1..])
    }

    /** What `getItem(key)` returns when it does not throw: the value, or `null`. */
    function Lookup(key: string): Option<string> {
      if key in items then Some(items[key]) else None
    }

    /** The store after `setItem(key, value)`; the item is written only if the access does not throw. */
    function Set(key: string, value: string): Store {
      if Throws() then Advanced() else Advanced().(items := items[key := value])
    }

    /** The store after `removeItem(key)`. */
    function Remove(key: string): Store {
      if Throws() then Advanced() else Advanced().(items := items - {key})
    }
  }

  class SessionStorage {
    var items: map<string, string>
    var faults: seq<bool>

    function Snapshot(): Store
      reads this
    {
      Store(items, faults)
    }

    constructor (items: map<string, string>, faults: seq<bool>)
      ensures Snapshot() == Store(items, faults)
    {
      this.items := items;
      this.faults := faults;
    }

    /** `sessionStorage.setItem(key, value)`; `ok` is false when it throws. */
    method SetItem(key: string, value: string) returns (ok: bool)
      modifies this
      ensures ok == !old(Snapshot()).Throws()
      ensures Snapshot() == old(Snapshot()).Set(key, value)
    {
      ok := !(faults != [] && faults[0]);
      if faults != [] {
        faults := faults[1..];
      }
      if ok {
        items := items[key := value];
      }
    }

    /** `sessionStorage.removeItem(key)`; `ok` is false when it throws. */
    method RemoveItem(key: string) returns (ok: bool)
      modifies this
      ensures ok == !old(Snapshot()).Throws()
      ensures Snapshot() == old(Snapshot()).Remove(key)
    {
      ok := !(faults != [] && faults[0]);
      if faults != [] {
        faults := faults[1..];
      }
      if ok {
        items := items - {key};
      }
    }

    /** `sessionStorage.getItem(key)`; `ok` is false when it throws, and then there is no value. */
    method GetItem(key: string) returns (value: Option<string>, ok: bool)
      modifies this
      ensures ok == !old(Snapshot()).Throws()
      ensures value == if ok then old(Snapshot()).Lookup(key) else None
      ensures Snapshot() == old(Snapshot()).Advanced()
    {
      ok := !(faults != [] && faults[0]);
      value := if ok && key in items then Some(items[key]) else None;
      if faults != [] {
        faults := faults[1..];
      }
    }
  }
}
