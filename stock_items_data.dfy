/** GetStockItemsData: the quantity and salable flag of every SKU on a stock,
    from the legacy stock status table (default stock) or the stock's index
    table (other stocks), falling back to the legacy stock item table; with a
    request cache per stock and SKU. */
module StockItemsData {
  import opened Types
  import opened Store
  import opened RequestCache
  import opened ProductIds
  import opened LegacyStockItems

  /** What the main query reports for SKU `s` on stock `sid`. */
  function MainStockData(st: Store, s: Sku, sid: StockId): Option<StockData>
  {
    if sid == st.defaultStockId then
      if s in st.productIds then LastStatus(st.statusRows, st.productIds[s]) else None
    else if sid in st.stockIndex then LastIndex(st.stockIndex[sid], s)
    else None
  }

  /** The legacy stock item table is consulted only for the default stock, in
      multi-source mode, for a SKU whose type keeps per-source quantities. */
  predicate FallbackApplies(st: Store, s: Sku, sid: StockId)
  {
    sid == st.defaultStockId && !st.singleSourceMode && SourceItemsManaged(st, s)
  }

  /** What the legacy stock item table reports for SKU `s` (any stock row). */
  function FallbackStockData(st: Store, s: Sku, sid: StockId): Option<StockData>
  {
    if FallbackApplies(st, s, sid) && s in st.productIds then
      match LastItem(st.stockItems, st.productIds[s], None)
      case Some(item) => Some(StockData(item.qty, item.isInStock))
      case None => None
    else None
  }

  /** The stock data of SKU `s` on stock `sid`: the main query's answer, else
      the fallback's. A non-default stock is answered by its index table
      alone, and a SKU the catalog does not have has no data on the default
      stock. */
  function StockDataFor(st: Store, s: Sku, sid: StockId): (r: Option<StockData>)
    ensures sid != st.defaultStockId ==>
      r == (if sid in st.stockIndex then LastIndex(st.stockIndex[sid], s) else None)
    ensures sid == st.defaultStockId && s !in st.productIds ==> r.None?
    ensures r.Some? && MainStockData(st, s, sid).None? ==> FallbackApplies(st, s, sid)
    ensures (sid == st.defaultStockId && s in st.productIds &&
             exists row :: row in st.statusRows && row.productId == st.productIds[s]) ==>
      r.Some? && r == LastStatus(st.statusRows, st.productIds[s])
    ensures (FallbackApplies(st, s, sid) && s in st.productIds &&
             exists row :: row in st.stockItems && ItemMatches(row, st.productIds[s], None)) ==> r.Some?
  {
    var main := MainStockData(st, s, sid);
    if main.Some? then main else FallbackStockData(st, s, sid)
  }

  /** Reading the index table of a stock that has none fails. */
  predicate QueryFails(st: Store, sid: StockId)
  {
    sid != st.defaultStockId && sid !in st.stockIndex
  }

  /** The loop over fetched stock status rows: every row is filed under the
      SKU of its product, and a later row of a product replaces an earlier one. */
  method FileStatusBySku(rows: seq<StatusRow>, found: map<Sku, ProductId>, skuById: map<ProductId, Sku>)
    returns (bySku: map<Sku, StockData>)
    requires forall id :: id in skuById ==> skuById[id] in found && found[skuById[id]] == id
    requires forall s :: s in found ==> found[s] in skuById && skuById[found[s]] == s
    requires forall row :: row in rows ==> row.productId in skuById
    ensures forall s :: s in bySku <==> s in found && LastStatus(rows, found[s]).Some?
    ensures forall s :: s in bySku ==> Some(bySku[s]) == LastStatus(rows, found[s])
  {
    bySku := map[];
    var i := 0;
    while i < |rows|
      invariant 0 <= i <= |rows|
      invariant forall s :: s in bySku <==> s in found && LastStatus(rows[..i], found[s]).Some?
      invariant forall s :: s in bySku ==> Some(bySku[s]) == LastStatus(rows[..i], found[s])
    {
      assert rows[i] in rows;
      var id := rows[i].productId;
      var s := skuById[id];
      assert rows[..i + 1][..i] == rows[..i];
      forall t | t in found && t != s
        ensures LastStatus(rows[..i + 1], found[t]) == LastStatus(rows[..i], found[t])
      {
        assert found[t] != id;
      }
      bySku := bySku[s := StockData(rows[i].qty, rows[i].stockStatus)];
      i := i + 1;
    }
    assert rows[..i] == rows;
  }

  /** The loop over fetched index rows: every row is filed under its SKU, and
      a later row of a SKU replaces an earlier one. */
  method FileIndexBySku(rows: seq<IndexRow>) returns (bySku: map<Sku, StockData>)
    ensures forall s :: s in bySku <==> LastIndex(rows, s).Some?
    ensures forall s :: s in bySku ==> Some(bySku[s]) == LastIndex(rows, s)
  {
    bySku := map[];
    var i := 0;
    while i < |rows|
      invariant 0 <= i <= |rows|
      invariant forall s :: s in bySku <==> LastIndex(rows[..i], s).Some?
      invariant forall s :: s in bySku ==> Some(bySku[s]) == LastIndex(rows[..i], s)
    {
      assert rows[..i + 1][..i] == rows[..i];
      bySku := bySku[rows[i].sku := StockData(rows[i].quantity, rows[i].isSalable)];
      i := i + 1;
    }
    assert rows[..i] == rows;
  }

  /** Every requested SKU has a non-null cached entry for the stock. */
  predicate AllHit(cache: map<StockId, map<Sku, Option<StockData>>>, sid: StockId, skus: seq<Sku>)
  {
    forall s :: s in skus ==> s in NonNullKeys(Inner(cache, sid))
  }

  class GetStockItemsData {
    const store: Store
    /** stockItemDatasByStockAndSku; null is a cached "no data" */
    var cache: map<StockId, map<Sku, Option<StockData>>>
    /** number of batch loads */
    ghost var loads: nat

    ghost predicate Valid()
      reads this
    {
      WellFormed(store) &&
      forall sid, s :: Cached(cache, sid, s) ==> cache[sid][s] == StockDataFor(store, s, sid)
    }

    constructor (store: Store)
      requires WellFormed(store)
      ensures Valid()
      ensures this.store == store && cache == map[] && loads == 0
    {
      this.store := store;
      cache := map[];
      loads := 0;
    }

    /** A hit needs a non-null cached entry for the stock, so a SKU cached as
        "no data" is loaded again. The misses are loaded together; a failing
        load leaves the cache as it was. */
    method Execute(skus: seq<Sku>, stockId: StockId) returns (r: Result<map<Sku, Option<StockData>>, InventoryError>)
      requires Valid()
      modifies this
      ensures Valid()
      ensures r.Success? ==> (forall s :: s in r.value <==> s in skus)
      ensures r.Success? ==> forall s :: s in r.value ==> r.value[s] == StockDataFor(store, s, stockId)
      ensures r.Failure? <==> |skus| > 0 && QueryFails(store, stockId)
      ensures loads == old(loads) + (if AllHit(old(cache), stockId, skus) then 0 else 1)
      ensures r.Failure? ==> cache == old(cache)
      ensures r.Success? ==>
        forall sid, s :: Cached(cache, sid, s) <==> Cached(old(cache), sid, s) || (sid == stockId && s in skus)
    {
      var cached := cache;
      var inner := Inner(cached, stockId);
      var hits, loadSkus := SplitByCache(inner, NonNullKeys(inner), skus);
      if |loadSkus| > 0 {
        var loaded := GetStockItems(loadSkus, stockId);
        loads := loads + 1;
        if loaded.Failure? {
          return Failure(loaded.error);
        }
        assert !QueryFails(store, stockId);
        var merged := Merge(cached, stockId, loaded.value);
        forall sid, s | Cached(merged, sid, s)
          ensures merged[sid][s] == StockDataFor(store, s, sid)
        {
        }
        cache := merged;
        r := Success(map s | s in skus :: if s in hits then hits[s] else loaded.value[s]);
      } else {
        NoHitsWithoutIndexTable(skus, stockId);
        r := Success(hits);
      }
    }

    /** A stock without an index table never caches non-null data, so every
        SKU asked of it is a miss. */
    lemma NoHitsWithoutIndexTable(skus: seq<Sku>, stockId: StockId)
      requires Valid()
      ensures |skus| > 0 && QueryFails(store, stockId) ==> !AllHit(cache, stockId, skus)
    {
      if |skus| > 0 && QueryFails(store, stockId) {
        assert skus[0] !in NonNullKeys(Inner(cache, stockId));
      }
    }

    /** getStockItems: every SKU starts with no data; the main query fills in
        what it finds, and the SKUs still without data go to the fallback. */
    method GetStockItems(skus: seq<Sku>, stockId: StockId) returns (r: Result<map<Sku, Option<StockData>>, InventoryError>)
      requires WellFormed(store)
      ensures r.Failure? <==> QueryFails(store, stockId)
      ensures r.Success? ==> (forall s :: s in r.value <==> s in skus)
      ensures r.Success? ==> forall s :: s in r.value ==> r.value[s] == StockDataFor(store, s, stockId)
    {
      var result: map<Sku, Option<StockData>>;
      if stockId == store.defaultStockId {
        result := QueryStockStatus(skus);
      } else if stockId in store.stockIndex {
        result := QueryStockIndex(skus, stockId);
      } else {
        return Failure(CouldNotReceiveStockItemData);
      }
      var missing := SkusWithoutData(skus, result);
      if |missing| > 0 {
        var fallback := GetStockItemDataFromStockItemTable(missing, stockId);
        result := map s | s in skus :: if s in fallback then fallback[s] else result[s];
      }
      return Success(result);
    }

    /** The default stock's query: `cataloginventory_stock_status` by product id. */
    method QueryStockStatus(skus: seq<Sku>) returns (result: map<Sku, Option<StockData>>)
      requires WellFormed(store)
      ensures forall s :: s in result <==> s in skus
      ensures forall s :: s in result ==> result[s] == MainStockData(store, s, store.defaultStockId)
    {
      var ids := GetProductIdsBySkus(store, skus);
      var found := map s | s in ids && ids[s].Some? :: ids[s].value;
      var skuById := Flip(found);
      var rows := SelectStatus(store.statusRows, skuById.Keys);
      var bySku := FileStatusBySku(rows, found, skuById);
      forall s | s in found
        ensures LastStatus(rows, found[s]) == LastStatus(store.statusRows, found[s])
      {
        LastStatusSelected(store.statusRows, skuById.Keys, found[s]);
      }
      result := map s | s in skus :: if s in bySku then Some(bySku[s]) else None;
    }

    /** A non-default stock's query: its index table by SKU. */
    method QueryStockIndex(skus: seq<Sku>, stockId: StockId) returns (result: map<Sku, Option<StockData>>)
      requires stockId != store.defaultStockId && stockId in store.stockIndex
      ensures forall s :: s in result <==> s in skus
      ensures forall s :: s in result ==> result[s] == MainStockData(store, s, stockId)
    {
      var skuSet := set s | s in skus;
      var rows := SelectIndex(store.stockIndex[stockId], skuSet);
      var bySku := FileIndexBySku(rows);
      forall s | s in skuSet
        ensures LastIndex(rows, s) == LastIndex(store.stockIndex[stockId], s)
      {
        LastIndexSelected(store.stockIndex[stockId], skuSet, s);
      }
      result := map s | s in skus :: if s in bySku then Some(bySku[s]) else None;
    }

    /** getStockItemDataFromStockItemTable: SKUs the fallback does not apply to
        keep no data; the others are looked up by product id in the legacy
        stock item table, rows of any stock, a later row winning. */
    method GetStockItemDataFromStockItemTable(skus: seq<Sku>, stockId: StockId)
      returns (result: map<Sku, Option<StockData>>)
      requires WellFormed(store)
      ensures forall s :: s in result <==> s in skus
      ensures forall s :: s in result ==> result[s] == FallbackStockData(store, s, stockId)
    {
      var toCheck := SkusToCheck(skus, stockId);
      var ids := GetProductIdsBySkus(store, toCheck);
      var found := map s | s in ids && ids[s].Some? :: ids[s].value;
      var skuById := Flip(found);
      var rows := SelectItems(store.stockItems, skuById.Keys, None);
      var bySku := FileItemsBySku(rows, found, skuById, None);
      forall s | s in found
        ensures LastItem(rows, found[s], None) == LastItem(store.stockItems, found[s], None)
      {
        LastItemSelected(store.stockItems, skuById.Keys, found[s], None);
      }
      result := map s | s in skus ::
        if s in bySku then Some(StockData(bySku[s].qty, bySku[s].isInStock)) else None;
      forall s | s in skus
        ensures result[s] == FallbackStockData(store, s, stockId)
      {
        if FallbackApplies(store, s, stockId) && s in store.productIds {
          assert s in found;
        } else {
          assert s !in found;
        }
      }
    }

    /** The flipped SKU list with every SKU the fallback does not apply to unset. */
    method SkusToCheck(skus: seq<Sku>, stockId: StockId) returns (toCheck: seq<Sku>)
      ensures Distinct(toCheck)
      ensures forall s :: s in toCheck <==> s in skus && FallbackApplies(store, s, stockId)
    {
      toCheck := Dedup(skus);
      var i := 0;
      while i < |skus|
        invariant 0 <= i <= |skus|
        invariant Distinct(toCheck)
        invariant forall s :: s in toCheck <==> s in skus && (s in skus[..i] ==> FallbackApplies(store, s, stockId))
      {
        assert skus[..i + 1] == skus[..i] + [skus[i]];
        if !FallbackApplies(store, skus[i], stockId) {
          toCheck := Without(toCheck, {skus[i]});
        }
        i := i + 1;
      }
      assert skus[..i] == skus;
    }
  }

  /** The SKUs the main query left without data, in request order. */
  method SkusWithoutData(skus: seq<Sku>, result: map<Sku, Option<StockData>>) returns (missing: seq<Sku>)
    requires forall s :: s in skus ==> s in result
    ensures forall s :: s in missing <==> s in skus && result[s].None?
  {
    missing := [];
    var i := 0;
    while i < |skus|
      invariant 0 <= i <= |skus|
      invariant forall s :: s in missing <==> s in skus[..i] && result[s].None?
    {
      assert skus[..i + 1] == skus[..i] + [skus[i]];
      if result[skus[i]].None? {
        missing := missing + [skus[i]];
      }
      i := i + 1;
    }
    assert skus[..i] == skus;
  }
}
