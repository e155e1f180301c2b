/// The Web Cache API store `caches.open('miniastro')` that the cached compilers share.
/// A response body is stored as the JSON text of a result and parsed back on a hit;
/// the model stores the result itself. All three wrappers open this one cache, and the
/// Astro wrapper and the generic cached compiler both key under `https://astro.compiler/`;
/// the model still gives each wrapper a `Store` of its own, so an answer one wrapper finds
/// under the other's entry is not modelled.
module ResponseCache {
  import opened Js

  const AstroNamespace: string := "https://astro.compiler/"
  const TsCompilerNamespace: string := "https://ts.compiler/"
  const TsParserNamespace: string := "https://ts.parser/"

  /** The request URL a result is stored under: a namespace followed by a content hash. */
  function Key(namespace: string, hash: string): string {
    namespace + hash
  }

  /** Within one namespace, the key determines the hash. */
  lemma KeyDeterminesHash(namespace: string, h1: string, h2: string)
    requires Key(namespace, h1) == Key(namespace, h2)
    ensures h1 == h2
  {
    assert h1 == Key(namespace, h1)[|namespace|..];
  }

  /** No key of one namespace is a key of another, whatever the hashes. */
  lemma NamespacesDisjoint(h1: string, h2: string)
    ensures Key(AstroNamespace, h1) != Key(TsCompilerNamespace, h2)
    ensures Key(AstroNamespace, h1) != Key(TsParserNamespace, h2)
    ensures Key(TsCompilerNamespace, h1) != Key(TsParserNamespace, h2)
  {
    assert Key(AstroNamespace, h1)[8] == 'a';
    assert Key(TsCompilerNamespace, h1)[8] == 't' && Key(TsParserNamespace, h2)[8] == 't';
    assert Key(TsCompilerNamespace, h1)[11] == 'c' && Key(TsParserNamespace, h2)[11] == 'p';
  }

  class Store<V> {
    var entries: map<string, V>

    constructor ()
      ensures entries == map[]
    {
      entries := map[];
    }

    /** `cache.match(request)`: the stored value, or nothing. */
    method Match(key: string) returns (r: Option<V>)
      ensures key in entries ==> r == Some(entries[key])
      ensures key !in entries ==> r == None
    {
      r := if key in entries then Some(entries[key]) else None;
    }

    /** `cache.put(request, response)`. */
    method Put(key: string, v: V)
      modifies this
      ensures entries == old(entries)[key := v]
    {
      entries := entries[key := v];
    }
  }

  // ---------------------------------------------------------------------------
  // Cache-aside calls

  /** A cache-aside call: the entry stored under `key`, or what the call itself gives on a miss. */
  function Cached<V>(entries: map<string, V>, key: string, miss: Result<V>): Result<V> {
    if key in entries then Ok(entries[key]) else miss
  }

  /** `v` is what `compute` makes of some input whose key is `k`. */
  ghost predicate StoredFrom<V>(keyOf: string -> string, compute: string -> Result<V>, k: string, v: V) {
    exists x :: keyOf(x) == k && compute(x) == Ok(v)
  }

  /** Every entry is what `compute` made of an input with that key. */
  ghost predicate Lawful<V>(entries: map<string, V>, keyOf: string -> string, compute: string -> Result<V>) {
    forall k :: k in entries ==> StoredFrom(keyOf, compute, k, entries[k])
  }

  /** No other input shares the key of `x`. */
  ghost predicate Unshared(keyOf: string -> string, x: string) {
    forall y :: keyOf(y) == keyOf(x) ==> y == x
  }

  /** Storing what `compute` made of `x` under the key of `x` keeps the entries lawful. */
  lemma PutKeepsLawful<V>(entries: map<string, V>, keyOf: string -> string, compute: string -> Result<V>, x: string, v: V)
    requires Lawful(entries, keyOf, compute) && compute(x) == Ok(v)
    ensures Lawful(entries[keyOf(x) := v], keyOf, compute)
  {
    assert StoredFrom(keyOf, compute, keyOf(x), v);
  }

  /** With lawful entries, the cached call answers for an input whose key is its own exactly
    * as the call itself does. */
  lemma CachedTransparent<V>(entries: map<string, V>, keyOf: string -> string, compute: string -> Result<V>, x: string)
    requires Lawful(entries, keyOf, compute) && Unshared(keyOf, x)
    ensures Cached(entries, keyOf(x), compute(x)) == compute(x)
  {
    if keyOf(x) in entries {
      var y :| keyOf(y) == keyOf(x) && compute(y) == Ok(entries[keyOf(x)]);
    }
  }

  /** Entries added to `before`, each what `compute` made of an input with its key, do not
    * change the answer for `x` when no other input shares its key and a miss on `x` would
    * have computed it. */
  lemma CachedStable<V>(before: map<string, V>, later: map<string, V>, keyOf: string -> string, compute: string -> Result<V>, miss: Result<V>, x: string)
    requires forall k :: k in before ==> k in later && later[k] == before[k]
    requires forall k :: k in later && k !in before ==> StoredFrom(keyOf, compute, k, later[k])
    requires keyOf(x) in later && keyOf(x) !in before ==> miss == compute(x)
    requires Unshared(keyOf, x)
    ensures Cached(later, keyOf(x), miss) == Cached(before, keyOf(x), miss)
  {
    if keyOf(x) in later && keyOf(x) !in before {
      var y :| keyOf(y) == keyOf(x) && compute(y) == Ok(later[keyOf(x)]);
    }
  }
}
