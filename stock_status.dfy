/** The `stock_status` field of a product: the resolver queues every SKU
    while GraphQL builds its arguments, and the first batch runs the
    salability chain once over the whole queue. */
module StockStatusField {
  import opened Types
  import opened Store
  import opened ReservationsCondition
  import opened ConditionChain
  import opened DeferredQueue

  /** IsProductSalableResultInterface */
  datatype IsProductSalableResult = IsProductSalableResult(sku: Sku, stockId: StockId, isSalable: bool)

  /** The `processQueue` loop: one result object per SKU the chain answered. */
  method RecordResults(processed: map<Sku, IsProductSalableResult>, salable: map<Sku, bool>, stockId: StockId)
    returns (updated: map<Sku, IsProductSalableResult>)
    ensures forall s :: s in updated <==> s in processed || s in salable
    ensures forall s :: s in updated ==>
      updated[s] == if s in salable then IsProductSalableResult(s, stockId, salable[s]) else processed[s]
  {
    updated := processed;
    var todo := salable.Keys;
    while todo != {}
      invariant todo <= salable.Keys
      invariant forall s :: s in updated <==> s in processed || (s in salable && s !in todo)
      invariant forall s :: s in updated ==>
        updated[s] == if s in salable && s !in todo then IsProductSalableResult(s, stockId, salable[s]) else processed[s]
      decreases todo
    {
      var s :| s in todo;
      updated := updated[s := IsProductSalableResult(s, stockId, salable[s])];
      todo := todo - {s};
    }
  }

  class AreProductsSalable {
    const chain: AreProductsSalableConditionChain
    /** GetStockIdForCurrentWebsite::execute(), fixed for the request. */
    const stockId: StockId
    var unprocessedSkuQueue: seq<Sku>
    var processedResults: map<Sku, IsProductSalableResult>

    /** Every stored result is the chain's verdict; a SKU waits at most once
        and never after it has a result. */
    ghost predicate Valid()
      reads this, chain.conditions.configurations.legacy, chain.conditions.configurations.assignment
      reads chain.conditions.stockData, chain.conditions.reservations
    {
      && chain.conditions.Valid()
      && Distinct(unprocessedSkuQueue)
      && (forall s :: s in unprocessedSkuQueue ==> s !in processedResults)
      && (forall s :: s in processedResults ==> processedResults[s] == Verdict(s))
    }

    /** The result object the chain's answer for `s` yields. */
    ghost function Verdict(s: Sku): IsProductSalableResult
    {
      IsProductSalableResult(s, stockId,
        Salable(chain.requiredConditions, chain.unrequiredConditions, chain.conditions.store, s, stockId))
    }

    /** The reservations condition can be evaluated for every SKU of `skus`
        that reaches it. */
    ghost predicate Evaluable(skus: seq<Sku>)
    {
      RequiredConfigured(chain.requiredConditions, chain.conditions.store, skus, stockId) &&
      OptionalConfigured(chain.requiredConditions, chain.unrequiredConditions, chain.conditions.store, skus, stockId)
    }

    constructor (chain: AreProductsSalableConditionChain, stockId: StockId)
      requires chain.conditions.Valid()
      ensures Valid()
      ensures this.chain == chain && this.stockId == stockId
      ensures unprocessedSkuQueue == [] && processedResults == map[]
    {
      this.chain := chain;
      this.stockId := stockId;
      unprocessedSkuQueue := [];
      processedResults := map[];
    }

    method AddSkuToQueue(sku: Sku)
      requires Valid()
      modifies this
      ensures Valid()
      ensures unprocessedSkuQueue == Enqueue(old(unprocessedSkuQueue), old(processedResults).Keys, sku)
      ensures processedResults == old(processedResults)
    {
      unprocessedSkuQueue := Enqueue(unprocessedSkuQueue, processedResults.Keys, sku);
    }

    /** Runs the chain over the queue; a failing chain leaves the queue and
        the results as they were. */
    method ProcessQueue() returns (failure: Option<InventoryError>)
      requires Valid() && Evaluable(unprocessedSkuQueue)
      modifies this, chain.conditions.configurations.legacy, chain.conditions.configurations.assignment
      modifies chain.conditions.stockData, chain.conditions.reservations
      ensures Valid()
      ensures failure.Some? <==>
        ChainFails(chain.requiredConditions, chain.unrequiredConditions, chain.conditions.store, old(unprocessedSkuQueue), stockId)
      ensures failure.Some? ==>
        unprocessedSkuQueue == old(unprocessedSkuQueue) && processedResults == old(processedResults)
      ensures failure.None? ==> unprocessedSkuQueue == []
      ensures failure.None? ==> forall s :: s in processedResults <==> s in old(processedResults) || s in old(unprocessedSkuQueue)
    {
      var skuArray := unprocessedSkuQueue;
      var salable;
      ghost var batches;
      salable, batches := chain.Execute(skuArray, stockId);
      if salable.Failure? {
        return Some(salable.error);
      }
      processedResults := RecordResults(processedResults, salable.value, stockId);
      unprocessedSkuQueue := [];
      failure := None;
    }

    /** The answer to each request of the batch, by position: the queue is
        processed first; a SKU that was never queued reads as `None`. */
    method Execute(criteriaList: seq<Sku>) returns (r: Result<map<nat, Option<IsProductSalableResult>>, InventoryError>)
      requires Valid() && Evaluable(unprocessedSkuQueue)
      modifies this, chain.conditions.configurations.legacy, chain.conditions.configurations.assignment
      modifies chain.conditions.stockData, chain.conditions.reservations
      ensures Valid()
      ensures r.Failure? <==>
        ChainFails(chain.requiredConditions, chain.unrequiredConditions, chain.conditions.store, old(unprocessedSkuQueue), stockId)
      ensures r.Success? ==> unprocessedSkuQueue == []
      ensures r.Success? ==> forall i: nat :: i in r.value <==> i < |criteriaList|
      ensures r.Success? ==> forall i: nat :: i in r.value ==>
        (r.value[i].Some? <==> criteriaList[i] in old(processedResults) || criteriaList[i] in old(unprocessedSkuQueue))
      ensures r.Success? ==> forall i: nat :: i in r.value && r.value[i].Some? ==> r.value[i].value == Verdict(criteriaList[i])
    {
      if |unprocessedSkuQueue| > 0 {
        var failure := ProcessQueue();
        if failure.Some? {
          return Failure(failure.value);
        }
      }
      var finalResults := ResultsByIndex(criteriaList, processedResults);
      return Success(finalResults);
    }
  }

  /** The GraphQL resolver of `stock_status`. */
  class StockStatusResolver {
    const areProductsSalable: AreProductsSalable

    constructor (areProductsSalable: AreProductsSalable)
      ensures this.areProductsSalable == areProductsSalable
    {
      this.areProductsSalable := areProductsSalable;
    }

    /** Queues the product's SKU and makes it the request's criteria. */
    method ConvertToServiceArgument(sku: Sku) returns (criteria: Sku)
      requires areProductsSalable.Valid()
      modifies areProductsSalable
      ensures areProductsSalable.Valid()
      ensures criteria == sku
      ensures sku in areProductsSalable.unprocessedSkuQueue || sku in areProductsSalable.processedResults
      ensures areProductsSalable.processedResults == old(areProductsSalable.processedResults)
      ensures old(areProductsSalable.unprocessedSkuQueue) <= areProductsSalable.unprocessedSkuQueue
    {
      areProductsSalable.AddSkuToQueue(sku);
      criteria := sku;
    }
  }

  /** `convertFromServiceResult`: the GraphQL enum value of a verdict. */
  function ConvertFromServiceResult(result: IsProductSalableResult): (r: string)
    ensures r == "IN_STOCK" || r == "OUT_OF_STOCK"
    ensures r == "IN_STOCK" <==> result.isSalable
  {
    if result.isSalable then "IN_STOCK" else "OUT_OF_STOCK"
  }
}
