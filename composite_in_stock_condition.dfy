/** IsSetInStockStatusForCompositeProductsCondition: a SKU whose quantities
    are not kept per source (a composite product) is salable when its stock
    item is flagged in stock; the others pass. */
module CompositeInStockCondition {
  import opened Types
  import opened Store
  import opened LegacyStockItems
  import opened StockItemsConfigurations

  /** The condition's answer for SKU `s` on stock `sid`. */
  predicate CompositeRule(st: Store, s: Sku, sid: StockId)
  {
    SourceItemsManaged(st, s) || (ConfigFor(st, s, sid).Some? && ConfigFor(st, s, sid).value.isInStock)
  }

  /** Apart from the per-source SKUs, which pass, the answer is the legacy
      stock item's `is_in_stock` flag, on every stock. */
  lemma CompositeUsesLegacyFlag(st: Store, s: Sku, sid: StockId)
    ensures CompositeRule(st, s, sid) <==> SourceItemsManaged(st, s) || LegacyItemFor(st, s).isInStock != 0
  {
    if !SourceItemsManaged(st, s) {
      UnmanagedAlwaysConfigured(st, s, sid);
    }
  }

  /** The first loop: per-source SKUs get `true` and are unset from the
      flipped SKU list. */
  method SplitManaged(st: Store, skus: seq<Sku>) returns (result: map<Sku, bool>, toCheck: seq<Sku>)
    ensures forall s :: s in result <==> s in skus && SourceItemsManaged(st, s)
    ensures forall s :: s in result ==> result[s]
    ensures forall s :: s in toCheck <==> s in skus && !SourceItemsManaged(st, s)
  {
    result := map[];
    toCheck := Dedup(skus);
    var i := 0;
    while i < |skus|
      invariant 0 <= i <= |skus|
      invariant forall s :: s in result <==> s in skus[..i] && SourceItemsManaged(st, s)
      invariant forall s :: s in result ==> result[s]
      invariant forall s :: s in toCheck <==> s in skus && (s in skus[..i] ==> !SourceItemsManaged(st, s))
    {
      assert skus[..i + 1] == skus[..i] + [skus[i]];
      if SourceItemsManaged(st, skus[i]) {
        result := result[skus[i] := true];
        toCheck := Without(toCheck, {skus[i]});
      }
      i := i + 1;
    }
    assert skus[..i] == skus;
  }

  /** The second loop: a configuration's `is_in_stock` flag, or `false`
      without one. */
  method TakeInStockFlags(configs: map<Sku, Option<Config>>, result: map<Sku, bool>) returns (updated: map<Sku, bool>)
    ensures forall s :: s in updated <==> s in result || s in configs
    ensures forall s :: s in updated ==>
      updated[s] == if s in configs then configs[s].Some? && configs[s].value.isInStock else result[s]
  {
    updated := result;
    var todo := configs.Keys;
    while todo != {}
      invariant todo <= configs.Keys
      invariant forall s :: s in updated <==> s in result || (s in configs && s !in todo)
      invariant forall s :: s in updated ==>
        updated[s] == if s in configs && s !in todo then configs[s].Some? && configs[s].value.isInStock else result[s]
      decreases todo
    {
      var s :| s in todo;
      if configs[s].Some? {
        updated := updated[s := configs[s].value.isInStock];
      } else {
        updated := updated[s := false];
      }
      todo := todo - {s};
    }
  }

  class IsSetInStockStatusForCompositeProductsCondition {
    const configurations: GetStockItemsConfigurations

    ghost predicate Valid()
      reads configurations.legacy, configurations.assignment
    {
      configurations.Valid()
    }

    constructor (configurations: GetStockItemsConfigurations)
      requires configurations.Valid()
      ensures Valid() && this.configurations == configurations
    {
      this.configurations := configurations;
    }

    /** Only the SKUs that are not per-source reach the configuration lookup. */
    method Execute(skus: seq<Sku>, stockId: StockId) returns (result: map<Sku, bool>)
      requires Valid()
      modifies configurations.legacy, configurations.assignment
      ensures Valid()
      ensures forall s :: s in result <==> s in skus
      ensures forall s :: s in result ==> result[s] == CompositeRule(configurations.store, s, stockId)
    {
      var st := configurations.store;
      var toCheck;
      result, toCheck := SplitManaged(st, skus);
      var configs := configurations.Execute(toCheck, stockId);
      result := TakeInStockFlags(configs, result);
    }
  }
}
