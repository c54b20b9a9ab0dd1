/**
 * The external collaborator: a synchronous string-to-string store with the
 * Web Storage interface (getItem, setItem, removeItem, clear and an
 * enumerable key set). The wrapper only delegates to it.
 *
 * What the store holds is a value `Store`; whether a call on it throws is
 * decided by the set `failing` of operations that throw (a missing handle, a
 * security restriction or an exhausted quota). A call that throws changes
 * nothing, as the Web Storage standard requires of a failed setItem.
 */
module WebStorage {
  import opened Wrappers

  datatype StoreOp = GetItemOp | SetItemOp | RemoveItemOp | ClearOp

  /** The error a store call throws; the model keeps only which call threw. */
  datatype StoreError = StoreError(op: StoreOp)

  datatype Store = Store(entries: map<string, string>, failing: set<StoreOp>)

  /** What a state-changing call returns (or throws), and the store after it. */
  datatype Step<+T, +E> = Step(result: Result<T, E>, store: Store)

  /** The value stored under `key`, or `null`. */
  function Lookup(entries: map<string, string>, key: string): Option<string>
  {
    if key in entries then Some(entries[key]) else None
  }

  /** `storage.getItem(key)` */
  function Get(s: Store, key: string): Result<Option<string>, StoreError>
  {
    if GetItemOp in s.failing then Failure(StoreError(GetItemOp))
    else Success(Lookup(s.entries, key))
  }

  /** `storage.setItem(key, value)` */
  function Put(s: Store, key: string, value: string): Step<(), StoreError>
  {
    if SetItemOp in s.failing then Step(Failure(StoreError(SetItemOp)), s)
    else Step(Success(()), s.(entries := s.entries[key := value]))
  }

  /** `storage.removeItem(key)`; removing an absent key is not an error. */
  function Delete(s: Store, key: string): Step<(), StoreError>
  {
    if RemoveItemOp in s.failing then Step(Failure(StoreError(RemoveItemOp)), s)
    else Step(Success(()), s.(entries := s.entries - {key}))
  }

  /** `storage.clear()` */
  function DeleteAll(s: Store): Step<(), StoreError>
  {
    if ClearOp in s.failing then Step(Failure(StoreError(ClearOp)), s)
    else Step(Success(()), s.(entries := map[]))
  }

  /** A store object whose entries change in place, shared by every wrapper built on it. */
  class Storage {
    var entries: map<string, string>
    const failing: set<StoreOp>

    constructor (entries: map<string, string>, failing: set<StoreOp>)
      ensures this.entries == entries && this.failing == failing
    {
      this.entries := entries;
      this.failing := failing;
    }

    function State(): Store
      reads this
    {
      Store(entries, failing)
    }

    /** `Object.keys(storage)`: the keys currently stored, in no particular order. */
    function Keys(): (ks: set<string>)
      reads this
      ensures forall k :: k in ks <==> Lookup(entries, k).Some?
    {
      entries.Keys
    }

    method GetItem(key: string) returns (r: Result<Option<string>, StoreError>)
      ensures r == Get(State(), key)
    {
      if GetItemOp in failing {
        r := Failure(StoreError(GetItemOp));
      } else {
        r := Success(Lookup(entries, key));
      }
    }

    method SetItem(key: string, value: string) returns (r: Result<(), StoreError>)
      modifies this`entries
      ensures Step(r, State()) == Put(old(State()), key, value)
    {
      if SetItemOp in failing {
        r := Failure(StoreError(SetItemOp));
      } else {
        entries := entries[key := value];
        r := Success(());
      }
    }

    method RemoveItem(key: string) returns (r: Result<(), StoreError>)
      modifies this`entries
      ensures Step(r, State()) == Delete(old(State()), key)
    {
      if RemoveItemOp in failing {
        r := Failure(StoreError(RemoveItemOp));
      } else {
        entries := entries - {key};
        r := Success(());
      }
    }

    method Clear() returns (r: Result<(), StoreError>)
      modifies this`entries
      ensures Step(r, State()) == DeleteAll(old(State()))
    {
      if ClearOp in failing {
        r := Failure(StoreError(ClearOp));
      } else {
        entries := map[];
        r := Success(());
      }
    }
  }
}
