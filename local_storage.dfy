/**
 * The wrapper object: a handle on a shared store plus its three settings.
 * Each method does what the function of the same operation in `Operations`
 * says, reading and changing the store in place.
 */
module LocalStorage {
  import opened Wrappers
  import opened WebStorage
  import Namespace
  import opened Operations
  import Json

  class ILocalStorage {
    const storage: Storage
    const namespace: string
    const ignoreExceptions: bool

    function Settings(): Config
    {
      Config(namespace, ignoreExceptions)
    }

    /**
     * `new iLocalStorage({storage, namespace, ignoreExceptions})`: the omitted
     * options default to no namespace and no suppression. The availability
     * probe runs on the store (with its default sentinel) and its answer is
     * not acted on, so construction never fails.
     */
    constructor (storage: Storage, namespace: string := "", ignoreExceptions: bool := false)
      modifies storage`entries
      ensures this.storage == storage
      ensures this.namespace == namespace && this.ignoreExceptions == ignoreExceptions
      ensures storage.State() == Operations.HasLocalStorage(old(storage.State()), "").store
    {
      this.storage := storage;
      this.namespace := namespace;
      this.ignoreExceptions := ignoreExceptions;
      new;
      var available := HasLocalStorage();
    }

    /** `hasLocalStorage(testString)`: write, read back and delete a sentinel; any error means false. */
    method HasLocalStorage(testString: string := "") returns (available: bool)
      modifies storage`entries
      ensures Probe(available, storage.State()) == Operations.HasLocalStorage(old(storage.State()), testString)
    {
      var key := ProbeKey(testString);
      var put := storage.SetItem(key, key);
      if put.Failure? {
        return false;
      }
      var got := storage.GetItem(key);
      if got.Failure? {
        return false;
      }
      var del := storage.RemoveItem(key);
      if del.Failure? {
        return false;
      }
      available := got.value == Some(key);
    }

    /** `namespacedKey(key)` */
    function NamespacedKey(key: string): (r: string)
      ensures r == Namespace.NamespacedKey(namespace, key)
    {
      Namespace.NamespacedKey(namespace, key)
    }

    /** `keys()`: every key in the store, inside the namespace or not. */
    function Keys(): (ks: set<string>)
      reads storage
      ensures forall k :: k in ks <==> k in storage.entries
    {
      storage.Keys()
    }

    /** `getItem(key)` */
    method GetItem(key: string) returns (r: Result<Option<string>, StoreError>)
      ensures r == Operations.GetItem(Settings(), storage.State(), key)
    {
      var k := key;
      if namespace != "" {
        k := NamespacedKey(k);
      }
      var raw := storage.GetItem(k);
      r := Swallow(ignoreExceptions, raw, None);
    }

    /** `setItem(key, value)` */
    method SetItem(key: string, value: string) returns (r: Result<(), StoreError>)
      modifies storage`entries
      ensures Step(r, storage.State()) == Operations.SetItem(Settings(), old(storage.State()), key, value)
    {
      var k := key;
      if namespace != "" {
        k := NamespacedKey(k);
      }
      var res := storage.SetItem(k, value);
      r := Swallow(ignoreExceptions, res, ());
    }

    /** `removeItem(key)` */
    method RemoveItem(key: string) returns (r: Result<(), StoreError>)
      modifies storage`entries
      ensures Step(r, storage.State()) == Operations.RemoveItem(Settings(), old(storage.State()), key)
    {
      var k := key;
      if namespace != "" {
        k := NamespacedKey(k);
      }
      var res := storage.RemoveItem(k);
      r := Swallow(ignoreExceptions, res, ());
    }

    /**
     * `clear()`.
     *
     * The namespaced branch is `keys().filter(prefix test).forEach(this.removeItem)`.
     * Each selected key already carries the namespace ("app.count"), and
     * removeItem prefixes it once more, so the key it deletes is
     * "app.app.count". The entry `namespace + "." + j` of a logical key `j` is
     * deleted only when `j` is itself a stored key that begins with the
     * namespace; ordinary entries such as "app.count" survive. This method
     * keeps that double prefixing, under the reading in which `this` is bound.
     * Two further JavaScript details are not modelled: `this.removeItem` is
     * passed without binding `this`, so in JavaScript the call throws a
     * TypeError at `this.maybeSwallowException` (lib/iLocalStorage.js:99)
     * before any suppression applies, and forEach passes the index and the
     * array as extra arguments, which removeItem ignores.
     */
    method Clear() returns (r: Result<(), StoreError>)
      modifies storage`entries
      ensures Step(r, storage.State()) == Operations.Clear(Settings(), old(storage.State()))
    {
      if namespace != "" {
        var selected := Namespace.Selection(namespace, Keys());
        r := RemoveEach(selected);
      } else {
        var res := storage.Clear();
        r := Swallow(ignoreExceptions, res, ());
      }
    }

    /**
     * `selected.forEach(removeItem)` over a snapshot: removeItem is called on
     * every key of `selected`, in no particular order, until one call throws.
     */
    method RemoveEach(selected: set<string>) returns (r: Result<(), StoreError>)
      modifies storage`entries
      ensures RemoveItemOp !in storage.failing ==>
        r == Success(()) && storage.entries == old(storage.entries) - Retargeted(namespace, selected)
      ensures RemoveItemOp in storage.failing ==> storage.entries == old(storage.entries)
      ensures RemoveItemOp in storage.failing ==>
        r == if ignoreExceptions || selected == {} then Success(()) else Failure(StoreError(RemoveItemOp))
    {
      var todo := selected;
      while todo != {}
        invariant todo <= selected
        invariant RemoveItemOp in storage.failing ==>
          storage.entries == old(storage.entries) && (ignoreExceptions || todo == selected)
        invariant RemoveItemOp !in storage.failing ==>
          storage.entries == old(storage.entries) - Retargeted(namespace, selected - todo)
        decreases todo
      {
        var k :| k in todo;
        ghost var removed := selected - todo;
        var res := RemoveItem(k);
        if res.Failure? {
          return res;
        }
        todo := todo - {k};
        assert selected - todo == removed + {k};
        RetargetedGrows(namespace, removed, k);
      }
      r := Success(());
    }

    /** `set(key, value)`: serialize, then setItem. */
    method Set<V>(json: Json.Codec<V>, key: string, value: V) returns (r: Result<(), Error>)
      modifies storage`entries
      ensures Step(r, storage.State()) == SetJson(json, Settings(), old(storage.State()), key, value)
    {
      var text := json.stringify(value);
      if text.None? {
        return Failure(SerializationError);
      }
      var res := SetItem(key, text.value);
      if res.Failure? {
        r := Failure(StoreFailure(res.error));
      } else {
        r := Success(());
      }
    }

    /** `get(key)`: getItem, then parse what it returned (null included). */
    method Get<V>(json: Json.Codec<V>, key: string) returns (r: Result<V, Error>)
      ensures r == GetJson(json, Settings(), storage.State(), key)
    {
      var raw := GetItem(key);
      if raw.Failure? {
        return Failure(StoreFailure(raw.error));
      }
      var parsed := json.parse(Json.TextOf(raw.value));
      if parsed.None? {
        r := Failure(DeserializationError);
      } else {
        r := Success(parsed.value);
      }
    }

    /** `remove(key)`: exactly removeItem. */
    method Remove(key: string) returns (r: Result<(), StoreError>)
      modifies storage`entries
      ensures Step(r, storage.State()) == Operations.RemoveItem(Settings(), old(storage.State()), key)
    {
      r := RemoveItem(key);
    }
  }
}
