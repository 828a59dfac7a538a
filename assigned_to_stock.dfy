/** AreProductsAssignedToStock: whether a SKU has a source item on some
    source linked to a stock, with a request cache per stock and SKU. */
module AssignedToStock {
  import opened Types
  import opened Store
  import opened RequestCache

  /** A source item of SKU `s` sits on a source linked to stock `sid`. */
  predicate IsAssigned(st: Store, s: Sku, sid: StockId)
  {
    exists link, item :: link in st.links && item in st.sourceItems &&
      link.stockId == sid && item.sourceCode == link.sourceCode && item.sku == s
  }

  /** The query: the stock-source links of `sid` joined with the source items
      on their source code, restricted to `skus` and grouped by SKU. */
  function AssignedSkus(st: Store, skus: seq<Sku>, sid: StockId): (r: set<Sku>)
    ensures forall s :: s in r <==> s in skus && IsAssigned(st, s, sid)
  {
    set link, item | link in st.links && item in st.sourceItems && link.stockId == sid &&
      item.sourceCode == link.sourceCode && item.sku in skus :: item.sku
  }

  class AreProductsAssignedToStock {
    const store: Store
    /** resultsByStockAndSku */
    var cache: map<StockId, map<Sku, bool>>
    /** number of queries sent to the database */
    ghost var loads: nat

    ghost predicate Valid()
      reads this
    {
      forall sid, s :: Cached(cache, sid, s) ==> cache[sid][s] == IsAssigned(store, s, sid)
    }

    constructor (store: Store)
      ensures Valid()
      ensures this.store == store && cache == map[] && loads == 0
    {
      this.store := store;
      cache := map[];
      loads := 0;
    }

    /** Every requested SKU already cached for the stock is answered from the
        cache (a cached `false` is a hit); the others are queried together. */
    method Execute(skus: seq<Sku>, stockId: StockId) returns (r: map<Sku, bool>)
      requires Valid()
      modifies this
      ensures Valid()
      ensures forall s :: s in r <==> s in skus
      ensures forall s :: s in r ==> r[s] == IsAssigned(store, s, stockId)
      ensures forall sid, s :: Cached(cache, sid, s) <==> Cached(old(cache), sid, s) || (sid == stockId && s in skus)
      ensures loads == old(loads) + (if forall s :: s in skus ==> Cached(old(cache), stockId, s) then 0 else 1)
    {
      var cached := cache;
      var inner := Inner(cached, stockId);
      var hits, loadSkus := SplitByCache(inner, inner.Keys, skus);
      if |loadSkus| > 0 {
        var loaded := GetAreProductsAssignedToStock(loadSkus, stockId);
        loads := loads + 1;
        var merged := Merge(cached, stockId, loaded);
        forall sid, s | Cached(merged, sid, s)
          ensures merged[sid][s] == IsAssigned(store, s, sid)
        {
        }
        cache := merged;
        r := map s | s in skus :: if s in hits then hits[s] else loaded[s];
      } else {
        r := hits;
      }
    }

    /** getAreProductsAssignedToStock: every SKU starts unassigned and every
        SKU the join returns becomes assigned. */
    method GetAreProductsAssignedToStock(skus: seq<Sku>, stockId: StockId) returns (r: map<Sku, bool>)
      ensures forall s :: s in r <==> s in skus
      ensures forall s :: s in r ==> r[s] == IsAssigned(store, s, stockId)
    {
      r := map s | s in skus :: false;
      var rows := AssignedSkus(store, skus, stockId);
      var todo := rows;
      while todo != {}
        invariant todo <= rows
        invariant forall s :: s in r <==> s in skus
        invariant forall s :: s in r ==> r[s] == (s in rows && s !in todo)
        decreases todo
      {
        var s :| s in todo;
        r := r[s := true];
        todo := todo - {s};
      }
    }
  }
}
