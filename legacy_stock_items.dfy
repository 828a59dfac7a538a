/** GetLegacyStockItems: the legacy stock item of every SKU, read from the
    legacy default stock, with a request cache keyed by SKU. */
module LegacyStockItems {
  import opened Types
  import opened Store
  import opened RequestCache
  import opened ProductIds

  /** The legacy stock item a SKU resolves to. An unknown SKU gets a new item
      with stock management switched on; a known SKU gets the last legacy
      item of its product on the legacy default stock, or a new item. */
  function LegacyItemFor(st: Store, s: Sku): (r: StockItem)
    ensures ProductIdOf(st, s).None? ==> r == st.freshItem.(manageStock := true)
    ensures ProductIdOf(st, s).Some? ==>
      r == st.freshItem ||
      (r in st.stockItems && r.productId == ProductIdOf(st, s) && r.stockId == LEGACY_DEFAULT_STOCK_ID)
    ensures (ProductIdOf(st, s).Some? &&
             exists row :: row in st.stockItems && ItemMatches(row, ProductIdOf(st, s).value, Some(LEGACY_DEFAULT_STOCK_ID))) ==>
      r in st.stockItems && ItemMatches(r, ProductIdOf(st, s).value, Some(LEGACY_DEFAULT_STOCK_ID))
  {
    match ProductIdOf(st, s)
    case None => st.freshItem.(manageStock := true)
    case Some(id) =>
      match LastItem(st.stockItems, id, Some(LEGACY_DEFAULT_STOCK_ID))
      case Some(item) => item
      case None => st.freshItem
  }

  /** The loop over fetched stock item rows: every row is filed under the SKU
      of its product, and a later row of a product replaces an earlier one. */
  method FileItemsBySku(rows: seq<StockItem>, found: map<Sku, ProductId>, skuById: map<ProductId, Sku>,
                        stock: Option<StockId>)
    returns (bySku: map<Sku, StockItem>)
    requires forall id :: id in skuById ==> skuById[id] in found && found[skuById[id]] == id
    requires forall s :: s in found ==> found[s] in skuById && skuById[found[s]] == s
    requires forall row :: row in rows ==>
      row.productId.Some? && row.productId.value in skuById && (stock.None? || row.stockId == stock.value)
    ensures forall s :: s in bySku <==> s in found && LastItem(rows, found[s], stock).Some?
    ensures forall s :: s in bySku ==> Some(bySku[s]) == LastItem(rows, found[s], stock)
  {
    bySku := map[];
    var i := 0;
    while i < |rows|
      invariant 0 <= i <= |rows|
      invariant forall s :: s in bySku <==> s in found && LastItem(rows[..i], found[s], stock).Some?
      invariant forall s :: s in bySku ==> Some(bySku[s]) == LastItem(rows[..i], found[s], stock)
    {
      assert rows[i] in rows;
      var id := rows[i].productId.value;
      var s := skuById[id];
      assert s in found && found[s] == id;
      assert rows[..i + 1][..i] == rows[..i];
      assert LastItem(rows[..i + 1], id, stock) == Some(rows[i]);
      forall t | t in found && t != s
        ensures LastItem(rows[..i + 1], found[t], stock) == LastItem(rows[..i], found[t], stock)
      {
        assert found[t] != id;
      }
      bySku := bySku[s := rows[i]];
      i := i + 1;
    }
    assert rows[..i] == rows;
  }

  class LegacyStockItems {
    const store: Store
    /** legacyStockItemsBySku */
    var cache: map<Sku, StockItem>
    /** number of batch loads sent to the repository */
    ghost var loads: nat

    ghost predicate Valid()
      reads this
    {
      WellFormed(store) && forall s :: s in cache ==> cache[s] == LegacyItemFor(store, s)
    }

    constructor (store: Store)
      requires WellFormed(store)
      ensures Valid()
      ensures this.store == store && cache == map[] && loads == 0
    {
      this.store := store;
      cache := map[];
      loads := 0;
    }

    /** Every SKU in the cache is answered from it; the others are loaded in
        one batch and added to it. */
    method Execute(skus: seq<Sku>) returns (items: map<Sku, StockItem>)
      requires Valid()
      modifies this
      ensures Valid()
      ensures forall s :: s in items <==> s in skus
      ensures forall s :: s in items ==> items[s] == LegacyItemFor(store, s)
      ensures forall s :: s in cache <==> s in old(cache) || s in skus
      ensures loads == old(loads) + (if forall s :: s in skus ==> s in old(cache) then 0 else 1)
    {
      var cached := cache;
      var hits, loadSkus := SplitByCache(cached, cached.Keys, skus);
      if |loadSkus| > 0 {
        var loaded := GetLegacyStockItems(loadSkus);
        loads := loads + 1;
        cache := map s | s in cached.Keys + loaded.Keys :: if s in loaded then loaded[s] else cached[s];
        items := map s | s in skus :: if s in hits then hits[s] else loaded[s];
      } else {
        items := hits;
      }
    }

    /** getLegacyStockItems: one product id lookup, one repository query for
        the found products on the legacy default stock, and a new item for
        every SKU the query did not answer. */
    method GetLegacyStockItems(skus: seq<Sku>) returns (items: map<Sku, StockItem>)
      requires WellFormed(store)
      ensures forall s :: s in items <==> s in skus
      ensures forall s :: s in items ==> items[s] == LegacyItemFor(store, s)
    {
      var ids := GetProductIdsBySkus(store, skus);
      var unknown := map s | s in ids && ids[s].None? :: store.freshItem.(manageStock := true);
      var found := map s | s in ids && ids[s].Some? :: ids[s].value;
      var skuById := Flip(found);
      var rows := SelectItems(store.stockItems, skuById.Keys, Some(LEGACY_DEFAULT_STOCK_ID));
      var bySku := FileItemsBySku(rows, found, skuById, Some(LEGACY_DEFAULT_STOCK_ID));
      forall s | s in found
        ensures LastItem(rows, found[s], Some(LEGACY_DEFAULT_STOCK_ID))
             == LastItem(store.stockItems, found[s], Some(LEGACY_DEFAULT_STOCK_ID))
      {
        LastItemSelected(store.stockItems, skuById.Keys, found[s], Some(LEGACY_DEFAULT_STOCK_ID));
      }
      var results := unknown + bySku;
      items := map s | s in skus :: if s in results then results[s] else store.freshItem;
      forall s | s in skus
        ensures items[s] == LegacyItemFor(store, s)
      {
        if s in store.productIds {
          assert s in found && s !in unknown;
        } else {
          assert s in unknown && s !in found && s !in bySku;
        }
      }
    }
  }
}
