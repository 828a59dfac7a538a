/** ManageStockCondition: a SKU whose stock is not managed is salable. */
module ManageStockCondition {
  import opened Types
  import opened Store
  import opened StockItemsConfigurations

  /** The rule on one configuration: `false` without one; with "use config
      manage stock" the global setting decides (anything but 1 means not
      managed); otherwise the item's own flag. */
  predicate StockNotManaged(st: Store, config: Option<Config>)
  {
    match config
    case None => false
    case Some(c) =>
      if c.item.useConfigManageStock then st.globalManageStock != 1 else !c.item.manageStock
  }

  /** The condition's answer for SKU `s` on stock `sid`. */
  predicate ManageStockRule(st: Store, s: Sku, sid: StockId)
  {
    StockNotManaged(st, ConfigFor(st, s, sid))
  }

  /** The loop over the configurations: one answer per configuration key. */
  method DecideManageStock(st: Store, configs: map<Sku, Option<Config>>) returns (result: map<Sku, bool>)
    ensures forall s :: s in result <==> s in configs
    ensures forall s :: s in result ==> result[s] == StockNotManaged(st, configs[s])
  {
    result := map[];
    var todo := configs.Keys;
    while todo != {}
      invariant todo <= configs.Keys
      invariant forall s :: s in result <==> s in configs && s !in todo
      invariant forall s :: s in result ==> result[s] == StockNotManaged(st, configs[s])
      decreases todo
    {
      var s :| s in todo;
      match configs[s] {
        case None =>
          result := result[s := false];
        case Some(c) =>
          if c.item.useConfigManageStock {
            result := result[s := st.globalManageStock != 1];
          } else {
            result := result[s := !c.item.manageStock];
          }
      }
      todo := todo - {s};
    }
  }

  class ManageStockCondition {
    const configurations: GetStockItemsConfigurations

    ghost predicate Valid()
      reads configurations.legacy, configurations.assignment
    {
      configurations.Valid()
    }

    constructor (configurations: GetStockItemsConfigurations)
      requires configurations.Valid()
      ensures Valid() && this.configurations == configurations
    {
      this.configurations := configurations;
    }

    /** One batched configuration lookup for the whole SKU list. */
    method Execute(skus: seq<Sku>, stockId: StockId) returns (result: map<Sku, bool>)
      requires Valid()
      modifies configurations.legacy, configurations.assignment
      ensures Valid()
      ensures forall s :: s in result <==> s in skus
      ensures forall s :: s in result ==> result[s] == ManageStockRule(configurations.store, s, stockId)
    {
      var configs := configurations.Execute(skus, stockId);
      result := DecideManageStock(configurations.store, configs);
    }
  }
}
