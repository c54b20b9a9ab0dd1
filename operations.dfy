/**
 * What each operation of the wrapper does, as a function of its
 * configuration and of the store it runs on: the result it returns or the
 * error it throws, and the store it leaves. The class in `LocalStorage` is
 * proved to behave exactly like these functions; the lemmas below state what
 * the library promises about them.
 */
module Operations {
  import opened Wrappers
  import opened WebStorage
  import opened Namespace
  import Json

  /** The three construction-time settings besides the store handle. */
  datatype Config = Config(namespace: string, ignoreExceptions: bool)

  /** What the JSON-aware operations can throw. */
  datatype Error = StoreFailure(cause: StoreError) | SerializationError | DeserializationError

  /** The outcome of the availability probe; the probe itself never throws. */
  datatype Probe = Probe(available: bool, store: Store)

  const DefaultProbeKey: string := "iLocalStorage"

  /**
   * `maybeSwallowException(fn, fallback)` applied to a call whose outcome is
   * `r`: with suppression off the call is left as it is, with suppression on a
   * thrown error is replaced by the fallback value.
   */
  function Swallow<T, E>(ignore: bool, r: Result<T, E>, fallback: T): (s: Result<T, E>)
    ensures !ignore ==> s == r
    ensures r.Success? ==> s == r
    ensures ignore && r.Failure? ==> s == Success(fallback)
  {
    if ignore then
      match r
      case Success(_) => r
      case Failure(_) => Success(fallback)
    else r
  }

  /** The suppression policy applied to a state-changing call: the store it left is kept either way. */
  function Guarded<T>(ignore: bool, st: Step<T, StoreError>, fallback: T): Step<T, StoreError>
  {
    Step(Swallow(ignore, st.result, fallback), st.store)
  }

  /** `getItem(key)`: suppressed errors read as `null`. */
  function GetItem(c: Config, s: Store, key: string): (r: Result<Option<string>, StoreError>)
    ensures GetItemOp !in s.failing ==> r == Success(Lookup(s.entries, NamespacedKey(c.namespace, key)))
    ensures GetItemOp in s.failing ==> r == if c.ignoreExceptions then Success(None) else Failure(StoreError(GetItemOp))
  {
    Swallow(c.ignoreExceptions, Get(s, EffectiveKey(c.namespace, key)), None)
  }

  /** `setItem(key, value)` */
  function SetItem(c: Config, s: Store, key: string, value: string): (st: Step<(), StoreError>)
    ensures st.store.failing == s.failing
    ensures st.result.Success? <==> SetItemOp !in s.failing || c.ignoreExceptions
    ensures st.store.entries == if SetItemOp in s.failing then s.entries
                                else s.entries[NamespacedKey(c.namespace, key) := value]
  {
    Guarded(c.ignoreExceptions, Put(s, EffectiveKey(c.namespace, key), value), ())
  }

  /** `removeItem(key)` */
  function RemoveItem(c: Config, s: Store, key: string): (st: Step<(), StoreError>)
    ensures st.store.failing == s.failing
    ensures st.result.Success? <==> RemoveItemOp !in s.failing || c.ignoreExceptions
    ensures st.store.entries == if RemoveItemOp in s.failing then s.entries
                                else s.entries - {NamespacedKey(c.namespace, key)}
  {
    Guarded(c.ignoreExceptions, Delete(s, EffectiveKey(c.namespace, key)), ())
  }

  /**
   * The keys the namespaced `clear()` deletes: it hands each selected key,
   * already carrying the namespace, to removeItem, which prefixes it again.
   */
  function Retargeted(ns: string, selected: set<string>): (ts: set<string>)
    ensures forall k :: k in selected ==> NamespacedKey(ns, k) in ts
    ensures forall t :: t in ts ==> ns <= t
  {
    forall k | k in selected ensures ns <= NamespacedKey(ns, k) {
      NamespacedKeyHasPrefix(ns, k);
    }
    set k | k in selected :: EffectiveKey(ns, k)
  }

  /** Removing one more selected key deletes one more retargeted key. */
  lemma RetargetedGrows(ns: string, removed: set<string>, k: string)
    ensures Retargeted(ns, removed + {k}) == Retargeted(ns, removed) + {EffectiveKey(ns, k)}
  {
  }

  /**
   * `clear()`. Without a namespace: the store's clear, under the suppression
   * policy. With one: a single snapshot of the keys is filtered by the
   * literal prefix, and removeItem is called on every selected key. The first
   * removal that throws ends the loop when suppression is off; in this
   * failure model removeItem either always throws or never does, so a failing
   * store is left as it was. When nothing is selected no call is made and
   * nothing can throw.
   */
  function Clear(c: Config, s: Store): (st: Step<(), StoreError>)
    ensures st.store.failing == s.failing
    ensures st.result.Failure? ==> !c.ignoreExceptions && st.store == s
    ensures c.namespace == "" ==> st.store.entries == if ClearOp in s.failing then s.entries else map[]
    ensures c.namespace != "" ==> forall x :: x in st.store.entries ==> x in s.entries && st.store.entries[x] == s.entries[x]
  {
    if c.namespace != "" then
      var selected := Selection(c.namespace, s.entries.Keys);
      if selected == {} then Step(Success(()), s)
      else if RemoveItemOp in s.failing then Guarded(c.ignoreExceptions, Step(Failure(StoreError(RemoveItemOp)), s), ())
      else Step(Success(()), s.(entries := s.entries - Retargeted(c.namespace, selected)))
    else Guarded(c.ignoreExceptions, DeleteAll(s), ())
  }

  /**
   * `clear()` as its namespaced branch is evidently meant to work: every
   * selected key is deleted as it stands, not prefixed a second time.
   */
  function ClearAsIntended(c: Config, s: Store): (st: Step<(), StoreError>)
    ensures st.store.failing == s.failing
    ensures st.result.Failure? ==> !c.ignoreExceptions && st.store == s
    ensures c.namespace != "" && RemoveItemOp !in s.failing ==>
      forall x :: x in st.store.entries <==> x in s.entries && !(c.namespace <= x)
  {
    if c.namespace != "" then
      var selected := Selection(c.namespace, s.entries.Keys);
      if selected == {} then Step(Success(()), s)
      else if RemoveItemOp in s.failing then Guarded(c.ignoreExceptions, Step(Failure(StoreError(RemoveItemOp)), s), ())
      else Step(Success(()), s.(entries := s.entries - selected))
    else Clear(c, s)
  }

  /** `testString` when it is given (and not empty), else "iLocalStorage". */
  function ProbeKey(testString: string): (key: string)
    ensures key != ""
    ensures testString == "" ==> key == DefaultProbeKey
    ensures testString != "" ==> key == testString
  {
    if testString != "" then testString else DefaultProbeKey
  }

  /**
   * `hasLocalStorage(testString)`: write the sentinel under its own name, read
   * it back and delete it, on the store itself (no namespace, no suppression);
   * any thrown error makes the answer false and ends the sequence.
   */
  function HasLocalStorage(s: Store, testString: string): (p: Probe)
    ensures p.store.failing == s.failing
    ensures p.available ==> p.store.entries == s.entries - {ProbeKey(testString)}
    ensures SetItemOp in s.failing ==> !p.available && p.store == s
  {
    var key := ProbeKey(testString);
    var put := Put(s, key, key);
    if put.result.Failure? then Probe(false, put.store)
    else
      var got := Get(put.store, key);
      if got.Failure? then Probe(false, put.store)
      else
        var del := Delete(put.store, key);
        if del.result.Failure? then Probe(false, del.store)
        else Probe(got.value == Some(key), del.store)
  }

  /** `set(key, value)`: serialized before setItem, so a serialization error is never suppressed. */
  function SetJson<V>(json: Json.Codec<V>, c: Config, s: Store, key: string, value: V): (st: Step<(), Error>)
    ensures st.result.Failure? ==> st.store == s
    ensures st.result == Failure(SerializationError) <==> json.stringify(value).None?
    ensures json.stringify(value).Some? ==> st.store == SetItem(c, s, key, json.stringify(value).value).store
  {
    match json.stringify(value)
    case None => Step(Failure(SerializationError), s)
    case Some(text) =>
      var st := SetItem(c, s, key, text);
      match st.result
      case Success(_) => Step(Success(()), st.store)
      case Failure(e) => Step(Failure(StoreFailure(e)), st.store)
  }

  /** `get(key)`: `JSON.parse(getItem(key))`; the parse is outside the suppression policy. */
  function GetJson<V>(json: Json.Codec<V>, c: Config, s: Store, key: string): (r: Result<V, Error>)
    ensures r.Success? <==> GetItem(c, s, key).Success? && json.parse(Json.TextOf(GetItem(c, s, key).value)).Some?
    ensures r.Success? ==> Some(r.value) == json.parse(Json.TextOf(GetItem(c, s, key).value))
    ensures r != Failure(SerializationError)
  {
    match GetItem(c, s, key)
    case Failure(e) => Failure(StoreFailure(e))
    case Success(raw) =>
      match json.parse(Json.TextOf(raw))
      case None => Failure(DeserializationError)
      case Some(v) => Success(v)
  }

  // ---------------------------------------------------------------------
  // getItem, setItem, removeItem

  /** A successful setItem is seen by the next getItem of the same key. */
  lemma SetItemThenGetItem(c: Config, s: Store, key: string, value: string)
    requires SetItemOp !in s.failing && GetItemOp !in s.failing
    ensures SetItem(c, s, key, value).result == Success(())
    ensures GetItem(c, SetItem(c, s, key, value).store, key) == Success(Some(value))
  {
  }

  /** setItem changes at most the entry of the namespaced key, and nothing when the store throws. */
  lemma SetItemFrame(c: Config, s: Store, key: string, value: string)
    ensures var after := SetItem(c, s, key, value).store;
      && after.failing == s.failing
      && (SetItemOp in s.failing ==> after == s)
      && (SetItemOp !in s.failing ==>
            after.entries.Keys == s.entries.Keys + {NamespacedKey(c.namespace, key)}
            && Lookup(after.entries, NamespacedKey(c.namespace, key)) == Some(value))
      && forall x :: x != NamespacedKey(c.namespace, key) ==> Lookup(after.entries, x) == Lookup(s.entries, x)
  {
  }

  /** setItem of one logical key is invisible to getItem of any other. */
  lemma SetItemIsolation(c: Config, s: Store, k1: string, k2: string, value: string)
    requires k1 != k2
    ensures GetItem(c, SetItem(c, s, k1, value).store, k2) == GetItem(c, s, k2)
  {
    if NamespacedKey(c.namespace, k1) == NamespacedKey(c.namespace, k2) {
      NamespacedKeyInjective(c.namespace, k1, k2);
    }
  }

  /** removeItem deletes at most the entry of the namespaced key, and nothing when the store throws. */
  lemma RemoveItemFrame(c: Config, s: Store, key: string)
    ensures var after := RemoveItem(c, s, key).store;
      && after.failing == s.failing
      && (RemoveItemOp in s.failing ==> after == s)
      && (RemoveItemOp !in s.failing ==> after.entries.Keys == s.entries.Keys - {NamespacedKey(c.namespace, key)})
      && forall x :: x != NamespacedKey(c.namespace, key) ==> Lookup(after.entries, x) == Lookup(s.entries, x)
  {
  }

  /** After a successful removeItem, getItem of that key returns null (also when a failing read is suppressed). */
  lemma RemoveItemThenGetItem(c: Config, s: Store, key: string)
    requires RemoveItemOp !in s.failing
    requires GetItemOp !in s.failing || c.ignoreExceptions
    ensures RemoveItem(c, s, key).result == Success(())
    ensures GetItem(c, RemoveItem(c, s, key).store, key) == Success(None)
  {
  }

  // ---------------------------------------------------------------------
  // The suppression policy

  /** With suppression on, none of the store-touching operations throws, and a call the store refuses changes nothing. */
  lemma SuppressedFailures(c: Config, s: Store, key: string, value: string)
    requires c.ignoreExceptions
    ensures GetItem(c, s, key).Success? && SetItem(c, s, key, value).result.Success?
    ensures RemoveItem(c, s, key).result.Success? && Clear(c, s).result.Success?
    ensures GetItemOp in s.failing ==> GetItem(c, s, key) == Success(None)
    ensures SetItemOp in s.failing ==> SetItem(c, s, key, value) == Step(Success(()), s)
    ensures RemoveItemOp in s.failing ==> RemoveItem(c, s, key) == Step(Success(()), s)
    ensures c.namespace == "" && ClearOp in s.failing ==> Clear(c, s) == Step(Success(()), s)
    ensures c.namespace != "" && RemoveItemOp in s.failing ==> Clear(c, s) == Step(Success(()), s)
  {
  }

  /** With suppression off, the store's error comes out of the operation unchanged, and the store is unchanged. */
  lemma UnsuppressedFailuresPropagate(c: Config, s: Store, key: string, value: string)
    requires !c.ignoreExceptions
    ensures GetItemOp in s.failing ==> GetItem(c, s, key) == Failure(StoreError(GetItemOp))
    ensures SetItemOp in s.failing ==> SetItem(c, s, key, value) == Step(Failure(StoreError(SetItemOp)), s)
    ensures RemoveItemOp in s.failing ==> RemoveItem(c, s, key) == Step(Failure(StoreError(RemoveItemOp)), s)
    ensures c.namespace == "" && ClearOp in s.failing ==> Clear(c, s) == Step(Failure(StoreError(ClearOp)), s)
    ensures c.namespace != "" && RemoveItemOp in s.failing && Selection(c.namespace, s.entries.Keys) != {} ==>
      Clear(c, s) == Step(Failure(StoreError(RemoveItemOp)), s)
  {
  }

  /**
   * The suppression switch changes only what is returned: both settings leave
   * the same store, and the suppressing one returns the other's outcome with
   * errors replaced by the fallback.
   */
  lemma SuppressionOnlyChangesResults(ns: string, s: Store, key: string, value: string)
    ensures var on, off := Config(ns, true), Config(ns, false);
      && GetItem(on, s, key) == Swallow(true, GetItem(off, s, key), None)
      && SetItem(on, s, key, value) == Guarded(true, SetItem(off, s, key, value), ())
      && RemoveItem(on, s, key) == Guarded(true, RemoveItem(off, s, key), ())
      && Clear(on, s) == Guarded(true, Clear(off, s), ())
  {
  }

  /** A store whose setItem throws, with suppression on and no namespace: setItem("x", "y") returns and getItem("x") stays null. */
  lemma FailingPutScenario(s: Store)
    requires s.failing == {SetItemOp} && "x" !in s.entries
    ensures var c := Config("", true);
      && SetItem(c, s, "x", "y") == Step(Success(()), s)
      && GetItem(c, SetItem(c, s, "x", "y").store, "x") == Success(None)
  {
  }

  // ---------------------------------------------------------------------
  // clear

  /** Without a namespace, a successful clear empties the whole store; a failed one changes nothing. */
  lemma ClearWithoutNamespace(c: Config, s: Store)
    requires c.namespace == ""
    ensures ClearOp !in s.failing ==> Clear(c, s).result == Success(()) && Clear(c, s).store.entries == map[]
    ensures ClearOp in s.failing ==> Clear(c, s).store == s
  {
  }

  /**
   * With a namespace, clear deletes, from the snapshot taken before any
   * removal, exactly the keys `namespace + "." + k` for the stored keys `k`
   * that begin with the namespace; every other entry is left as it was.
   */
  lemma ClearWithNamespace(c: Config, s: Store)
    requires c.namespace != ""
    ensures Clear(c, s).store.failing == s.failing
    ensures forall x :: x !in Retargeted(c.namespace, Selection(c.namespace, s.entries.Keys)) ==>
      Lookup(Clear(c, s).store.entries, x) == Lookup(s.entries, x)
    ensures forall x :: !(c.namespace <= x) ==> Lookup(Clear(c, s).store.entries, x) == Lookup(s.entries, x)
    ensures RemoveItemOp !in s.failing ==> Clear(c, s).result == Success(())
    ensures RemoveItemOp !in s.failing ==> forall k :: k in s.entries && c.namespace <= k ==>
      NamespacedKey(c.namespace, k) !in Clear(c, s).store.entries
  {
    var ns := c.namespace;
    var selected := Selection(ns, s.entries.Keys);
    forall k | k in s.entries && ns <= k
      ensures NamespacedKey(ns, k) in Retargeted(ns, selected)
    {
      assert k in selected;
    }
  }

  /**
   * With `this` bound, clear under namespace "app" misses the entry "app.count" of
   * the logical key "count": removeItem is handed "app.count" and deletes
   * "app.app.count".
   */
  lemma ClearMissesNamespacedEntry()
    ensures var c, s := Config("app", false), Store(map["app.count" := "10"], {});
      && Clear(c, s).result == Success(())
      && Clear(c, s).store == s
      && GetItem(c, Clear(c, s).store, "count") == Success(Some("10"))
  {
    var s := Store(map["app.count" := "10"], {});
    assert "app.count"[..3] == "app";
    assert Selection("app", s.entries.Keys) == {"app.count"};
    assert EffectiveKey("app", "app.count") == "app.app.count";
    assert Retargeted("app", {"app.count"}) == {"app.app.count"};
    assert s.entries - {"app.app.count"} == s.entries;
    assert EffectiveKey("app", "count") == "app.count";
  }

  /**
   * The corrected clear leaves no logical key of the namespace behind and
   * deletes exactly the stored keys that begin with the namespace text
   * (so "appfoo" under namespace "app" too); the rest is left as it was.
   */
  lemma ClearAsIntendedEmptiesNamespace(c: Config, s: Store)
    requires c.namespace != "" && RemoveItemOp !in s.failing
    ensures ClearAsIntended(c, s).result == Success(())
    ensures forall x :: x in ClearAsIntended(c, s).store.entries <==> x in s.entries && !(c.namespace <= x)
    ensures forall x :: x in ClearAsIntended(c, s).store.entries ==> ClearAsIntended(c, s).store.entries[x] == s.entries[x]
    ensures GetItemOp !in s.failing || c.ignoreExceptions ==>
      forall key :: GetItem(c, ClearAsIntended(c, s).store, key) == Success(None)
  {
    forall key ensures c.namespace <= NamespacedKey(c.namespace, key) {
      NamespacedKeyHasPrefix(c.namespace, key);
    }
  }

  // ---------------------------------------------------------------------
  // hasLocalStorage

  /** Whatever happens, the probe touches no entry but the sentinel's. */
  lemma ProbeTouchesOnlySentinel(s: Store, testString: string)
    ensures HasLocalStorage(s, testString).store.failing == s.failing
    ensures forall x :: x != ProbeKey(testString) ==>
      Lookup(HasLocalStorage(s, testString).store.entries, x) == Lookup(s.entries, x)
  {
  }

  /** The probe answers true exactly when writing, reading and deleting all work. */
  lemma ProbeAvailability(s: Store, testString: string)
    ensures HasLocalStorage(s, testString).available <==>
      SetItemOp !in s.failing && GetItemOp !in s.failing && RemoveItemOp !in s.failing
  {
  }

  /** On a working store the sentinel is gone afterwards, even if it was stored before the probe. */
  lemma ProbeOnWorkingStore(s: Store, testString: string)
    requires SetItemOp !in s.failing && GetItemOp !in s.failing && RemoveItemOp !in s.failing
    ensures HasLocalStorage(s, testString).available
    ensures HasLocalStorage(s, testString).store.entries == s.entries - {ProbeKey(testString)}
  {
  }

  /** When the write works but the read or the delete throws, the sentinel is left behind. */
  lemma ProbeLeavesSentinelOnLateFailure(s: Store, testString: string)
    requires SetItemOp !in s.failing && (GetItemOp in s.failing || RemoveItemOp in s.failing)
    ensures !HasLocalStorage(s, testString).available
    ensures Lookup(HasLocalStorage(s, testString).store.entries, ProbeKey(testString)) == Some(ProbeKey(testString))
  {
  }

  // ---------------------------------------------------------------------
  // set, get

  /** A value that serializes and is stored without error is read back by get. */
  lemma GetAfterSet<V(!new)>(json: Json.Codec<V>, c: Config, s: Store, key: string, value: V)
    requires Json.Lawful(json) && json.stringify(value).Some?
    requires SetItemOp !in s.failing && GetItemOp !in s.failing
    ensures SetJson(json, c, s, key, value).result == Success(())
    ensures GetJson(json, c, SetJson(json, c, s, key, value).store, key) == Success(value)
  {
    SetItemThenGetItem(c, s, key, json.stringify(value).value);
  }

  /** When getItem gives null (an absent key, or a suppressed failure) get gives the JSON null value. */
  lemma GetOfNullIsNull<V(!new)>(json: Json.Codec<V>, c: Config, s: Store, key: string)
    requires Json.Lawful(json)
    requires GetItem(c, s, key) == Success(None)
    ensures GetJson(json, c, s, key) == Success(json.nullValue)
  {
  }

  /**
   * The JSON step lies outside the suppression policy: a value that cannot be
   * serialized always makes set throw without touching the store, and stored
   * text that does not parse always makes get throw. Store errors in set
   * follow the policy of setItem.
   */
  lemma JsonErrorsAreNotSuppressed<V>(json: Json.Codec<V>, c: Config, s: Store, key: string, value: V)
    ensures json.stringify(value).None? ==> SetJson(json, c, s, key, value) == Step(Failure(SerializationError), s)
    ensures GetItem(c, s, key).Success? && json.parse(Json.TextOf(GetItem(c, s, key).value)).None? ==>
      GetJson(json, c, s, key) == Failure(DeserializationError)
    ensures json.stringify(value).Some? && SetItemOp in s.failing ==>
      SetJson(json, c, s, key, value) ==
        Step(if c.ignoreExceptions then Success(()) else Failure(StoreFailure(StoreError(SetItemOp))), s)
  {
  }
}
