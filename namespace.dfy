/**
 * Key namespacing: the key under which a logical key is stored, and the
 * literal-prefix test `clear()` uses to pick the keys of its namespace.
 * An empty namespace means "no namespacing".
 */
module Namespace {

  /** `namespacedKey(key)`: without escaping, so a `.` in either part is not protected. */
  function NamespacedKey(ns: string, key: string): (r: string)
    ensures ns == "" ==> r == key
    ensures ns != "" ==> |r| == |ns| + 1 + |key|
    ensures ns != "" ==> r[..|ns|] == ns && r[|ns|] == '.' && r[|ns| + 1..] == key
  {
    if ns != "" then ns + "." + key else key
  }

  /**
   * The key getItem, setItem and removeItem hand to the store: they call
   * namespacedKey only `if (this.namespace)`, a guard that changes nothing
   * since namespacedKey tests the namespace itself.
   */
  function EffectiveKey(ns: string, key: string): (r: string)
    ensures r == NamespacedKey(ns, key)
  {
    if ns != "" then NamespacedKey(ns, key) else key
  }

  /** `s.substr(0, n)`: the first `n` characters, or all of `s` when it is shorter. */
  function Substr0(s: string, n: nat): (r: string)
    ensures |r| == if n <= |s| then n else |s|
    ensures r <= s
  {
    if n <= |s| then s[..n] else s
  }

  /** The filter of the namespaced `clear()`: the first |ns| characters of `key` are `ns`. */
  function HasNamespacePrefix(ns: string, key: string): (b: bool)
    ensures b <==> ns <= key
  {
    Substr0(key, |ns|) == ns
  }

  /** `keys().filter(...)`: the keys of a snapshot that pass the literal-prefix test. */
  function Selection(ns: string, keys: set<string>): (sel: set<string>)
    ensures forall k :: k in sel <==> k in keys && ns <= k
  {
    set k | k in keys && HasNamespacePrefix(ns, k)
  }

  /** Under one namespace, distinct logical keys are stored under distinct keys. */
  lemma NamespacedKeyInjective(ns: string, k1: string, k2: string)
    requires NamespacedKey(ns, k1) == NamespacedKey(ns, k2)
    ensures k1 == k2
  {
    if ns != "" {
      assert k1 == NamespacedKey(ns, k1)[|ns| + 1..];
    }
  }

  /** Every key stored under a namespace passes that namespace's literal-prefix test. */
  lemma NamespacedKeyHasPrefix(ns: string, key: string)
    ensures HasNamespacePrefix(ns, NamespacedKey(ns, key))
  {
    if ns != "" {
      assert NamespacedKey(ns, key)[..|ns|] == ns;
    }
  }

  /** Without escaping, two namespaces can store two logical keys under the same key. */
  lemma NamespacesCanCollide()
    ensures NamespacedKey("a", "b.c") == NamespacedKey("a.b", "c")
  {
  }

  /**
   * The literal-prefix test has no separator check: namespace "app" selects
   * "appfoo", which no logical key of namespace "app" is stored under.
   */
  lemma LiteralPrefixOvermatches()
    ensures HasNamespacePrefix("app", "appfoo")
    ensures forall key :: NamespacedKey("app", key) != "appfoo"
  {
    forall key ensures NamespacedKey("app", key) != "appfoo" {
      assert NamespacedKey("app", key)[3] == '.' != "appfoo"[3];
    }
  }
}
