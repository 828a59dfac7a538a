/** The `stock_item` field of a product (sale quantity limits): the same
    deferred queue as `stock_status`, answered from the legacy stock items. */
module StockItemField {
  import opened Types
  import opened Store
  import opened LegacyStockItems
  import opened DeferredQueue

  /** The `processQueue` loop: store every loaded item under its SKU. */
  method RecordItems(processed: map<Sku, StockItem>, items: map<Sku, StockItem>) returns (updated: map<Sku, StockItem>)
    ensures forall s :: s in updated <==> s in processed || s in items
    ensures forall s :: s in updated ==> updated[s] == if s in items then items[s] else processed[s]
  {
    updated := processed;
    var todo := items.Keys;
    while todo != {}
      invariant todo <= items.Keys
      invariant forall s :: s in updated <==> s in processed || (s in items && s !in todo)
      invariant forall s :: s in updated ==> updated[s] == if s in items && s !in todo then items[s] else processed[s]
      decreases todo
    {
      var s :| s in todo;
      updated := updated[s := items[s]];
      todo := todo - {s};
    }
  }

  class GetStockItem {
    const legacy: LegacyStockItems
    var unprocessedSkuQueue: seq<Sku>
    var processedResults: map<Sku, StockItem>

    /** Every stored item is the SKU's legacy stock item; a SKU waits at most
        once and never after it has an item. */
    ghost predicate Valid()
      reads this, legacy
    {
      && legacy.Valid()
      && Distinct(unprocessedSkuQueue)
      && (forall s :: s in unprocessedSkuQueue ==> s !in processedResults)
      && (forall s :: s in processedResults ==> processedResults[s] == LegacyItemFor(legacy.store, s))
    }

    constructor (legacy: LegacyStockItems)
      requires legacy.Valid()
      ensures Valid()
      ensures this.legacy == legacy
      ensures unprocessedSkuQueue == [] && processedResults == map[]
    {
      this.legacy := legacy;
      unprocessedSkuQueue := [];
      processedResults := map[];
    }

    method AddSkuToQueue(sku: Sku)
      requires Valid()
      modifies this
      ensures Valid()
      ensures unprocessedSkuQueue == Enqueue(old(unprocessedSkuQueue), old(processedResults).Keys, sku)
      ensures processedResults == old(processedResults)
    {
      unprocessedSkuQueue := Enqueue(unprocessedSkuQueue, processedResults.Keys, sku);
    }

    /** Loads the whole queue through the legacy loader in one call. */
    method ProcessQueue()
      requires Valid()
      modifies this, legacy
      ensures Valid()
      ensures unprocessedSkuQueue == []
      ensures forall s :: s in processedResults <==> s in old(processedResults) || s in old(unprocessedSkuQueue)
      ensures legacy.loads <= old(legacy.loads) + 1
    {
      var skuArray := unprocessedSkuQueue;
      var results := legacy.Execute(skuArray);
      processedResults := RecordItems(processedResults, results);
      unprocessedSkuQueue := [];
    }

    /** The item of each request of the batch, by position; a SKU that was
        never queued reads as `None`. */
    method Execute(criteriaList: seq<Sku>) returns (r: map<nat, Option<StockItem>>)
      requires Valid()
      modifies this, legacy
      ensures Valid()
      ensures unprocessedSkuQueue == []
      ensures forall i: nat :: i in r <==> i < |criteriaList|
      ensures forall i: nat :: i in r ==>
        (r[i].Some? <==> criteriaList[i] in old(processedResults) || criteriaList[i] in old(unprocessedSkuQueue))
      ensures forall i: nat :: i in r && r[i].Some? ==> r[i].value == LegacyItemFor(legacy.store, criteriaList[i])
      ensures legacy.loads <= old(legacy.loads) + 1
    {
      if |unprocessedSkuQueue| > 0 {
        ProcessQueue();
      }
      r := ResultsByIndex(criteriaList, processedResults);
    }
  }

  /** The fields `stock_item` reports. */
  datatype StockItemFields = StockItemFields(minSaleQty: real, maxSaleQty: real, qtyIncrements: real)

  /** The GraphQL resolver of `stock_item`. */
  class StockItemResolver {
    const getStockItem: GetStockItem

    constructor (getStockItem: GetStockItem)
      ensures this.getStockItem == getStockItem
    {
      this.getStockItem := getStockItem;
    }

    /** Queues the product's SKU and makes it the request's criteria. */
    method ConvertToServiceArgument(sku: Sku) returns (criteria: Sku)
      requires getStockItem.Valid()
      modifies getStockItem
      ensures getStockItem.Valid()
      ensures criteria == sku
      ensures sku in getStockItem.unprocessedSkuQueue || sku in getStockItem.processedResults
      ensures getStockItem.processedResults == old(getStockItem.processedResults)
      ensures old(getStockItem.unprocessedSkuQueue) <= getStockItem.unprocessedSkuQueue
    {
      getStockItem.AddSkuToQueue(sku);
      criteria := sku;
    }
  }

  /** `convertFromServiceResult`: the sale limits of the item; an item
      without a quantity increment reports 1. */
  function ConvertFromServiceResult(item: StockItem): (r: StockItemFields)
    ensures r.minSaleQty == item.minSaleQty && r.maxSaleQty == item.maxSaleQty
    ensures item.qtyIncrements.Some? ==> r.qtyIncrements == item.qtyIncrements.value
    ensures item.qtyIncrements.None? ==> r.qtyIncrements == 1.0
  {
    StockItemFields(
      item.minSaleQty,
      item.maxSaleQty,
      match item.qtyIncrements
      case None => 1.0
      case Some(increments) => increments)
  }
}
