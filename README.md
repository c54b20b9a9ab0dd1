# iLocalStorage in Dafny

A model of `iLocalStorage`, a thin layer over a browser Web Storage object.
On top of the raw store it adds three things:

- optional key namespacing (`namespace + "." + key`);
- a construction-time switch that swallows the store's exceptions;
- JSON-valued `set`/`get`/`remove`.

It also has a namespaced `clear()` and an availability probe, `hasLocalStorage`.

Files and modules:

- `wrappers.dfy` (`Wrappers`): `Option` stands for JavaScript `null` versus a value. `Result` stands for a call that returns or throws.
- `web_storage.dfy` (`WebStorage`): models the external store. A `Store` value is a `map<string, string>` of entries plus the set of operations that throw. The functions `Get`, `Put`, `Delete` and `DeleteAll` define what getItem, setItem, removeItem and clear do on it. A call that throws changes nothing. The class `Storage` is the shared, mutable store object. Its methods are proved equal to those functions.
- `json.dfy` (`Json`): `JSON.stringify` and `JSON.parse` as an abstract `Codec`. The predicate `Lawful` holds exactly when parsing what was serialized gives the value back and the text `"null"` parses to the null value.
- `namespace.dfy` (`Namespace`): the pure key logic. It covers `namespacedKey`, the `if (this.namespace)` guard, and the `substr(0, n)` literal-prefix filter of `clear()`.
- `operations.dfy` (`Operations`): every operation as a function of the configuration and the store. It gives the result returned or error thrown, and the store left behind. Beside them are the lemmas stating what the library promises.
- `local_storage.dfy` (`LocalStorage`): the class `ILocalStorage`. Its fields are `storage`, `namespace` and `ignoreExceptions`, and its methods change the shared store in place. Each method's postcondition equates its result and the new store with the function of the same name in `Operations`. So every lemma there is a statement about the class.

The suppression policy (`maybeSwallowException`) is the pure function `Operations.Swallow`, applied to a call's outcome. Suppression changes only what is returned, never what the call did to the store.

## Model

| member | source | states |
|---|---|---|
| `Namespace.NamespacedKey` | lib/iLocalStorage.js:72-74 | with an empty namespace the key is unchanged; otherwise the result is the namespace, then one `.`, then the key, with lengths adding up |
| `Namespace.EffectiveKey` | lib/iLocalStorage.js:84-103 | the `if (this.namespace)` guard in getItem/setItem/removeItem selects the same key as calling namespacedKey unconditionally |
| `Namespace.NamespacedKeyInjective` | lib/iLocalStorage.js:72-74 | under one namespace, distinct logical keys are stored under distinct raw keys |
| `Namespace.NamespacesCanCollide` | lib/iLocalStorage.js:72-74 | without escaping, namespace "a" key "b.c" and namespace "a.b" key "c" share a raw key |
| `Namespace.Substr0` | lib/iLocalStorage.js:109 | `substr(0, n)` yields a prefix of the string of length min(n, length) |
| `Namespace.HasNamespacePrefix` | lib/iLocalStorage.js:108-110 | the filter accepts a key exactly when the namespace is a literal prefix of it |
| `Namespace.Selection` | lib/iLocalStorage.js:107-110 | the filtered snapshot holds exactly the snapshot keys that begin with the namespace text |
| `Namespace.NamespacedKeyHasPrefix` | lib/iLocalStorage.js:107-110 | every raw key produced by namespacedKey passes that namespace's clear() filter |
| `Namespace.LiteralPrefixOvermatches` | lib/iLocalStorage.js:108-110 | namespace "app" selects "appfoo", which is not the raw key of any logical key of "app" |
| `Operations.Swallow` | lib/iLocalStorage.js:54-66 | with suppression off the outcome is unchanged; with it on a success is unchanged and an error becomes the fallback |
| `Operations.SuppressionOnlyChangesResults` | lib/iLocalStorage.js:54-66 | for getItem, setItem, removeItem and clear, turning suppression on leaves the same store and only swallows the error |
| `Operations.SetItemThenGetItem` | lib/iLocalStorage.js:84-96 | after a working setItem(k, v), getItem(k) returns v |
| `Operations.SetItemFrame` | lib/iLocalStorage.js:91-96 | setItem writes only the namespaced key, adding it to the key set; a failing store is left unchanged; every other entry is unchanged |
| `Operations.SetItemIsolation` | lib/iLocalStorage.js:91-96 | setItem of one logical key never changes what getItem returns for another |
| `Operations.RemoveItemFrame` | lib/iLocalStorage.js:98-103 | removeItem deletes only the namespaced key; a failing store is left unchanged; every other entry is unchanged |
| `Operations.RemoveItemThenGetItem` | lib/iLocalStorage.js:84-103 | after a working removeItem(k), getItem(k) returns null |
| `Operations.SuppressedFailures` | lib/iLocalStorage.js:54-114 | with suppression on, getItem, setItem, removeItem and clear never throw; on failure getItem gives null and the mutators leave the store unchanged |
| `Operations.UnsuppressedFailuresPropagate` | lib/iLocalStorage.js:54-114 | with suppression off, the store's error comes out of the same calls unchanged and the store is untouched |
| `Operations.FailingPutScenario` | lib/iLocalStorage.js:84-96 | no namespace, suppression on, setItem throwing: setItem("x","y") returns, the store is unchanged, and getItem("x") is null |
| `Operations.ClearWithoutNamespace` | lib/iLocalStorage.js:111-114 | without a namespace a working clear empties the whole store; a failing one changes nothing |
| `Operations.ClearWithNamespace` | lib/iLocalStorage.js:105-110 | with a namespace, clear deletes namespace + "." + k for each stored key k with the namespace as literal prefix, taken from one snapshot; every other entry is unchanged, and in particular every key without the namespace prefix |
| `Operations.ClearMissesNamespacedEntry` | lib/iLocalStorage.js:107-110 | as written, clear under "app" on {"app.count": "10"} changes nothing, and getItem("count") still returns "10" |
| `Operations.ClearAsIntendedEmptiesNamespace` | lib/iLocalStorage.js:107-110 | the corrected clear deletes exactly the keys with the namespace as literal prefix; afterwards getItem of every logical key is null |
| `Operations.ProbeTouchesOnlySentinel` | lib/iLocalStorage.js:38-48 | the probe never changes any entry but the sentinel's |
| `Operations.ProbeAvailability` | lib/iLocalStorage.js:38-48 | the probe answers true exactly when setItem, getItem and removeItem all work |
| `Operations.ProbeOnWorkingStore` | lib/iLocalStorage.js:38-48 | on a working store the sentinel is absent afterwards, even if it was stored before, and nothing else changed |
| `Operations.ProbeLeavesSentinelOnLateFailure` | lib/iLocalStorage.js:40-47 | if the write works but the read or the delete throws, the answer is false and the sentinel stays behind |
| `Operations.GetAfterSet` | lib/iLocalStorage.js:118-124 | with a lawful codec, get(k) after a working set(k, v) returns v |
| `Operations.GetOfNullIsNull` | lib/iLocalStorage.js:122-124 | when getItem gives null (absent key or swallowed error), get gives the JSON null value, from parsing "null" |
| `Operations.JsonErrorsAreNotSuppressed` | lib/iLocalStorage.js:118-124 | serialization and parse errors always propagate, whatever the suppression setting; store errors in set follow setItem's policy |
| `Json.TextOf` | lib/iLocalStorage.js:123 | `JSON.parse` hands on getItem's text unchanged, and sees `null` as the text "null" |
| `Operations.GetItem` | lib/iLocalStorage.js:84-89 | a readable store gives the value under the namespaced key, or null when it is absent; a failing read gives null with suppression on and the store's error with it off |
| `Operations.SetItem` | lib/iLocalStorage.js:91-96 | writes the value under the namespaced key unless the store throws, then leaves the entries unchanged; succeeds exactly when the store works or suppression is on |
| `Operations.RemoveItem` | lib/iLocalStorage.js:98-103 | deletes the namespaced key unless the store throws, then leaves the entries unchanged; succeeds exactly when the store works or suppression is on |
| `Operations.Retargeted` | lib/iLocalStorage.js:110 | each selected raw key k is retargeted to namespace + "." + k, and every retargeted key begins with the namespace |
| `Operations.Clear` | lib/iLocalStorage.js:105-116 | an error escapes only with suppression off and leaves the store unchanged; without a namespace the entries become empty, or stay as they were if the store's clear throws; with one, every surviving key was stored before with the same value |
| `Operations.ClearAsIntended` | lib/iLocalStorage.js:107-110 | corrected clear: an error escapes only with suppression off and changes nothing; on a working store exactly the keys without the namespace prefix remain |
| `Operations.ProbeKey` | lib/iLocalStorage.js:39 | the sentinel is never empty; it is the given test string when one is given, else "iLocalStorage" |
| `Operations.HasLocalStorage` | lib/iLocalStorage.js:38-48 | a true answer leaves exactly the old entries minus the sentinel; whenever the write throws, the answer is false and the store is untouched |
| `Operations.SetJson` | lib/iLocalStorage.js:118-120 | a serialization error happens exactly when stringify fails, and changes nothing; otherwise the store ends as setItem of the serialized text leaves it; any error leaves the store unchanged |
| `Operations.GetJson` | lib/iLocalStorage.js:122-124 | succeeds exactly when getItem succeeds and its text (null read as "null") parses, and then returns the parsed value; never a serialization error |
| `LocalStorage.ILocalStorage.NamespacedKey` | lib/iLocalStorage.js:72-74 | the object's namespacedKey is `Namespace.NamespacedKey` under its own namespace |
| `LocalStorage.ILocalStorage.constructor` | lib/iLocalStorage.js:17-27 | stores the handle and settings (defaults: no namespace, no suppression); the probe runs with the default sentinel and its answer is ignored, so construction cannot fail |
| `LocalStorage.ILocalStorage.HasLocalStorage` | lib/iLocalStorage.js:38-48 | returns the probe's answer and leaves the store as `Operations.HasLocalStorage` says |
| `LocalStorage.ILocalStorage.Keys` | lib/iLocalStorage.js:79-82 | returns every stored key, inside the namespace or not |
| `LocalStorage.ILocalStorage.GetItem` | lib/iLocalStorage.js:84-89 | returns exactly what `Operations.GetItem` says for the current store |
| `LocalStorage.ILocalStorage.SetItem` | lib/iLocalStorage.js:91-96 | result and new store are those of `Operations.SetItem` on the old store |
| `LocalStorage.ILocalStorage.RemoveItem` | lib/iLocalStorage.js:98-103 | result and new store are those of `Operations.RemoveItem` on the old store |
| `LocalStorage.ILocalStorage.Clear` | lib/iLocalStorage.js:105-116 | result and new store are those of `Operations.Clear` on the old store |
| `LocalStorage.ILocalStorage.RemoveEach` | lib/iLocalStorage.js:110 | the forEach over the snapshot: if removeItem works, every selected key is re-prefixed and deleted; if it throws, nothing changes, and the error escapes only without suppression and with a non-empty selection |
| `LocalStorage.ILocalStorage.Set` | lib/iLocalStorage.js:118-120 | result and new store are those of `Operations.SetJson` on the old store |
| `LocalStorage.ILocalStorage.Get` | lib/iLocalStorage.js:122-124 | returns exactly what `Operations.GetJson` says for the current store |
| `LocalStorage.ILocalStorage.Remove` | lib/iLocalStorage.js:126-128 | behaves exactly as removeItem |

## Where the code and its description differ

The model follows the code in each of these cases.

- `get` does not skip parsing when getItem returns null. It calls `JSON.parse(null)`, which parses the text `"null"` (lib/iLocalStorage.js:123). The result is the same null, and `Operations.GetOfNullIsNull` states it.
- The probe deletes its sentinel only on the success path. When the read or the delete throws, the sentinel is left in the store (`Operations.ProbeLeavesSentinelOnLateFailure`). The probe also overwrites and deletes an entry the caller had stored under the sentinel's name. Since the constructor runs the probe, constructing a wrapper deletes such an entry.
- With suppression off, the first removal that throws ends the namespaced `clear()`: forEach does not go on after an exception. The remaining keys are not attempted.
- The namespaced `clear()` deletes `namespace + "." + k` for each selected raw key `k`. So the entry `namespace + "." + j` of a logical key `j` is deleted only when `j` is itself a stored key that begins with the namespace. Ordinary entries such as "app.count" survive (see Findings).

## Findings

| source | as written | input that shows it | evidently intended | confidence | as-written member | corrected member |
|---|---|---|---|---|---|---|
| lib/iLocalStorage.js:110 | `forEach(this.removeItem)` passes each selected raw key, which already carries the namespace, to removeItem, and removeItem prefixes it again. `this` is also unbound there. | namespace "app", store {"app.count": "10"}: clear() would target "app.app.count" were `this` bound; as written the call throws a TypeError; either way "app.count" survives | delete each selected raw key itself, under the same suppression policy | not executed | `Operations.ClearMissesNamespacedEntry` | `Operations.ClearAsIntendedEmptiesNamespace` |

The class method `ILocalStorage.Clear` keeps the double prefixing of lib/iLocalStorage.js:110 under the bound-`this` reading, because it models the code. The corrected definition is `Operations.ClearAsIntended`. No other part of the model builds on `clear()`.

## Left out

- The module export wrapper (lib/iLocalStorage.js:1-9, 130-132) is not modelled.
- The `window.localStorage` default (lib/iLocalStorage.js:20) is not modelled: the store handle is a required constructor argument.
- JavaScript truthiness of options is not modelled. `options.namespace || ''`, `options.ignoreExceptions || false` and the probe's `testString` default accept any falsy value. The model takes a string, where `""` stands for every falsy value, and a boolean.
- The JSON grammar is not modelled, because `JSON.stringify` and `JSON.parse` are foreign calls. They are an abstract codec, whose round trip is a precondition (`Json.Lawful`) and not an axiom. `JSON.stringify` returns `undefined` for some values, which setItem would then store as the text "undefined". The model does not capture this.
- JavaScript `this` binding in `forEach(this.removeItem)` is not modelled. The model calls removeItem's logic on the wrapper, as documented at `ILocalStorage.Clear`. The extra arguments forEach passes are not modelled either.
- Operations.SuppressedFailures: its promise that `clear()` never throws under suppression holds only if `this` is bound at lib/iLocalStorage.js:110. As written, `this.maybeSwallowException` at lib/iLocalStorage.js:99 is looked up on the global object or on `undefined`. So the namespaced `clear()` throws a TypeError on the first selected key, before any try/catch. It throws whenever its selection is non-empty, even with `ignoreExceptions` on, and deletes nothing.
- LocalStorage.ILocalStorage.Clear: it follows the bound reading of lib/iLocalStorage.js:110. The TypeError that the unbound call raises on a non-empty selection, whatever the suppression setting, is not modelled.
- Strings are not modelled as UTF-16. JavaScript strings are UTF-16 code units, and `.length` and `substr` count those. A Dafny `string` is a sequence of Unicode scalar values. The two agree on well-formed strings. But keys holding lone surrogates are legal in JavaScript and in Web Storage, and the model cannot represent them.
- The enumeration order of `Object.keys` is not modelled: `keys()` is a set. Nor is `Object.keys` throwing on a missing handle: `keys()` never fails in the model.
- Which error the store throws (quota, security, missing handle) is not modelled. Only which call threw is kept.
- Failure is decided per operation and fixed when the store is created. So a removal that fails for one key and works for another is not modelled.
- A store that returns something other than what was stored (such as the stub in test/iLocalStorage.spec.js:27-36) is not modelled. The probe's final comparison is therefore always true on a working store in the model.
- Other writers sharing the store between calls are not modelled, and neither is concurrency.
- The constructor test at test/iLocalStorage.spec.js:6-10 passes the store as the options object itself. That contradicts lib/iLocalStorage.js:20, so it is not used as evidence.
