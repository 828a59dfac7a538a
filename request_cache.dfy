/** The shape every request cache of the inventory core shares: a first pass
    over the requested SKUs answers the cache hits and collects the misses,
    which are then loaded in one batch. */
module RequestCache {
  import opened Types

  /** The keys of a cache whose entry `isset` accepts: entries holding null
      are not hits. */
  function NonNullKeys<V>(cache: map<Sku, Option<V>>): (r: set<Sku>)
    ensures forall s :: s in r <==> s in cache && cache[s].Some?
  {
    set s | s in cache && cache[s].Some?
  }

  /** The first pass of a cache wrapper. `hitKeys` are the keys whose entry
      counts as a hit; `hits` holds the cached answers of the requested SKUs
      that are hits, `misses` the other requested SKUs in request order. */
  method SplitByCache<V>(cache: map<Sku, V>, hitKeys: set<Sku>, skus: seq<Sku>)
    returns (hits: map<Sku, V>, misses: seq<Sku>)
    requires hitKeys <= cache.Keys
    ensures forall s :: s in hits <==> s in skus && s in hitKeys
    ensures forall s :: s in hits ==> hits[s] == cache[s]
    ensures forall s :: s in misses <==> s in skus && s !in hitKeys
    ensures |misses| == 0 <==> forall s :: s in skus ==> s in hitKeys
  {
    hits := map[];
    misses := [];
    var i := 0;
    while i < |skus|
      invariant 0 <= i <= |skus|
      invariant forall s :: s in hits <==> s in skus[..i] && s in hitKeys
      invariant forall s :: s in hits ==> hits[s] == cache[s]
      invariant forall s :: s in misses <==> s in skus[..i] && s !in hitKeys
    {
      assert skus[..i + 1] == skus[..i] + [skus[i]];
      var s := skus[i];
      if s in hitKeys {
        hits := hits[s := cache[s]];
      } else {
        misses := misses + [s];
      }
      i := i + 1;
    }
    assert skus[..i] == skus;
    if |misses| != 0 {
      assert misses[0] in misses;
    }
  }

  /** The answers a per-stock cache holds for stock `sid`. */
  function Inner<V>(cache: map<StockId, map<Sku, V>>, sid: StockId): map<Sku, V>
  {
    if sid in cache then cache[sid] else map[]
  }

  /** `cache[sid][s]` exists. */
  predicate Cached<V>(cache: map<StockId, map<Sku, V>>, sid: StockId, s: Sku)
  {
    sid in cache && s in cache[sid]
  }

  /** The cache after `cache[sid][s] = loaded[s]` for every loaded SKU. */
  function Merge<V>(cache: map<StockId, map<Sku, V>>, sid: StockId, loaded: map<Sku, V>)
    : (r: map<StockId, map<Sku, V>>)
    ensures forall t, s :: Cached(r, t, s) <==> Cached(cache, t, s) || (t == sid && s in loaded)
    ensures forall t, s :: Cached(r, t, s) ==>
      if t == sid && s in loaded then r[t][s] == loaded[s] else Cached(cache, t, s) && r[t][s] == cache[t][s]
  {
    var inner := Inner(cache, sid);
    cache[sid := map s | s in inner.Keys + loaded.Keys :: if s in loaded then loaded[s] else inner[s]]
  }
}
