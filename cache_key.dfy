/**
 * The cache-key builder of the server cache (lib/cache.ts, `generateCacheKey`): the
 * prefix, then the parameters as "key:value" segments sorted by key and joined by "|".
 */
module CacheKey {
  import opened Wrappers
  import opened Strings
  import opened JsObject

  /** `${key}:${params[key]}` for a key of `params` (the default is never used). */
  function Segment(params: Obj<string>, key: string): string
  {
    key + ":" + Get(params, key).GetOr("")
  }

  function Segments(params: Obj<string>, keys: seq<string>): (segments: seq<string>)
    ensures |segments| == |keys|
  {
    seq(|keys|, i requires 0 <= i < |keys| => Segment(params, keys[i]))
  }

  /** The parameter names in the default sort order. */
  function SortedKeys(params: Obj<string>): seq<string>
  {
    SortStrings(Keys(params))
  }

  /**
   * `generateCacheKey`: without parameters the key is the prefix; otherwise the prefix, ":"
   * and the sorted segments joined by "|". Parameter values are taken as already converted
   * to strings.
   */
  function GenerateCacheKey(prefix: string, params: Option<Obj<string>>): (key: string)
    ensures |key| >= |prefix| && key[..|prefix|] == prefix
    ensures params.None? ==> key == prefix
    ensures params == Some([]) ==> key == prefix + ":"
  {
    match params
    case None => prefix
    case Some(p) => prefix + ":" + Join(Segments(p, SortedKeys(p)), "|")
  }

  lemma SortedKeysSpec(params: Obj<string>)
    requires DistinctKeys(params)
    ensures StrictlySorted(SortedKeys(params))
    ensures forall k :: k in SortedKeys(params) <==> k in Keys(params)
  {
    var keys := Keys(params);
    SortStringsCorrect(keys);
    PermutationKeepsDistinct(keys, SortedKeys(params));
    SortedDistinctIsStrict(SortedKeys(params));
    forall k ensures k in SortedKeys(params) <==> k in keys {
      assert k in SortedKeys(params) <==> k in multiset(SortedKeys(params));
    }
  }

  /**
   * With parameters, the key is the prefix and ":" followed by one "name:value" segment per
   * parameter, the names strictly increasing in the default sort order.
   */
  lemma CacheKeyShape(prefix: string, params: Obj<string>)
    requires DistinctKeys(params)
    ensures var names := SortedKeys(params);
      && StrictlySorted(names)
      && (forall k :: k in names <==> k in Keys(params))
      && (forall i :: 0 <= i < |names| ==>
            Get(params, names[i]).Some? && Segment(params, names[i]) == names[i] + ":" + Get(params, names[i]).value)
      && GenerateCacheKey(prefix, Some(params)) == prefix + ":" + Join(Segments(params, names), "|")
  {
    SortedKeysSpec(params);
    var names := SortedKeys(params);
    forall i | 0 <= i < |names| ensures Get(params, names[i]).Some? {
      GetNone(params, names[i]);
    }
  }

  /**
   * Two parameter objects with the same entries give the same key, whatever the order in
   * which their properties were inserted.
   */
  lemma CacheKeyIgnoresInsertionOrder(prefix: string, p: Obj<string>, q: Obj<string>)
    requires DistinctKeys(p) && DistinctKeys(q)
    requires forall k :: Get(p, k) == Get(q, k)
    ensures GenerateCacheKey(prefix, Some(p)) == GenerateCacheKey(prefix, Some(q))
  {
    SortedKeysSpec(p);
    SortedKeysSpec(q);
    forall k ensures k in SortedKeys(p) <==> k in SortedKeys(q) {
      GetNone(p, k);
      GetNone(q, k);
    }
    StrictlySortedUnique(SortedKeys(p), SortedKeys(q));
    assert Segments(p, SortedKeys(p)) == Segments(q, SortedKeys(q));
  }
}
