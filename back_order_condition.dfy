/** BackOrderCondition: a SKU that accepts back orders is salable. */
module BackOrderCondition {
  import opened Types
  import opened Store
  import opened StockItemsConfigurations

  /** The rule on one configuration: `false` without one; otherwise back
      orders must be enabled and the minimum quantity not negative. */
  predicate BackOrdersAccepted(config: Option<Config>)
  {
    match config
    case None => false
    case Some(c) => c.item.backorders != BACKORDERS_NO && c.item.minQty >= 0.0
  }

  /** The condition's answer for SKU `s` on stock `sid`. */
  predicate BackOrderRule(st: Store, s: Sku, sid: StockId)
  {
    BackOrdersAccepted(ConfigFor(st, s, sid))
  }

  /** The loop over the configurations: one answer per configuration key. */
  method DecideBackOrders(configs: map<Sku, Option<Config>>) returns (result: map<Sku, bool>)
    ensures forall s :: s in result <==> s in configs
    ensures forall s :: s in result ==> result[s] == BackOrdersAccepted(configs[s])
  {
    result := map[];
    var todo := configs.Keys;
    while todo != {}
      invariant todo <= configs.Keys
      invariant forall s :: s in result <==> s in configs && s !in todo
      invariant forall s :: s in result ==> result[s] == BackOrdersAccepted(configs[s])
      decreases todo
    {
      var s :| s in todo;
      match configs[s] {
        case None =>
          result := result[s := false];
        case Some(c) =>
          if c.item.backorders != BACKORDERS_NO && c.item.minQty >= 0.0 {
            result := result[s := true];
          } else {
            result := result[s := false];
          }
      }
      todo := todo - {s};
    }
  }

  class BackOrderCondition {
    const configurations: GetStockItemsConfigurations

    ghost predicate Valid()
      reads configurations.legacy, configurations.assignment
    {
      configurations.Valid()
    }

    constructor (configurations: GetStockItemsConfigurations)
      requires configurations.Valid()
      ensures Valid() && this.configurations == configurations
    {
      this.configurations := configurations;
    }

    /** One batched configuration lookup for the whole SKU list. */
    method Execute(skus: seq<Sku>, stockId: StockId) returns (result: map<Sku, bool>)
      requires Valid()
      modifies configurations.legacy, configurations.assignment
      ensures Valid()
      ensures forall s :: s in result <==> s in skus
      ensures forall s :: s in result ==> result[s] == BackOrderRule(configurations.store, s, stockId)
    {
      var configs := configurations.Execute(skus, stockId);
      result := DecideBackOrders(configs);
    }
  }
}
