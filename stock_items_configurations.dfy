/** GetStockItemsConfigurations: the stock item configuration of every SKU on a
    stock, or `false` for a SKU whose quantities are kept per source but that
    no source of the (non-default) stock carries. */
module StockItemsConfigurations {
  import opened Types
  import opened Store
  import opened LegacyStockItems
  import opened AssignedToStock

  /** A stock item configuration with its `is_in_stock` extension attribute. */
  datatype Config = Config(item: StockItem, isInStock: bool)

  /** The short-circuit of a non-default stock: a source-managed SKU that is
      not assigned to the stock has no configuration. */
  predicate NotAssigned(st: Store, s: Sku, sid: StockId)
  {
    sid != st.defaultStockId && SourceItemsManaged(st, s) && !IsAssigned(st, s, sid)
  }

  /** The configuration of SKU `s` on stock `sid`; `None` stands for `false`. */
  function ConfigFor(st: Store, s: Sku, sid: StockId): Option<Config>
  {
    if NotAssigned(st, s, sid) then None
    else
      var item := LegacyItemFor(st, s);
      Some(Config(item, item.isInStock != 0))
  }

  /** On the default stock every SKU has a configuration. */
  lemma DefaultStockAlwaysConfigured(st: Store, s: Sku)
    ensures ConfigFor(st, s, st.defaultStockId).Some?
  {
  }

  /** A SKU whose quantities are not kept per source always has a
      configuration, and its flag is the legacy item's `is_in_stock`. */
  lemma UnmanagedAlwaysConfigured(st: Store, s: Sku, sid: StockId)
    requires !SourceItemsManaged(st, s)
    ensures ConfigFor(st, s, sid) == Some(Config(LegacyItemFor(st, s), LegacyItemFor(st, s).isInStock != 0))
  {
  }

  /** The first loop: SKUs that are not assigned get `false` and are unset from
      the flipped SKU list. */
  method SplitNotAssigned(st: Store, skus: seq<Sku>, sid: StockId, flags: map<Sku, bool>)
    returns (result: map<Sku, Option<Config>>, toCheck: seq<Sku>)
    requires forall s :: s in skus ==> s in flags && flags[s] == IsAssigned(st, s, sid)
    ensures forall s :: s in result <==> s in skus && NotAssigned(st, s, sid)
    ensures forall s :: s in result ==> result[s] == None
    ensures forall s :: s in toCheck <==> s in skus && !NotAssigned(st, s, sid)
  {
    result := map[];
    toCheck := Dedup(skus);
    var i := 0;
    while i < |skus|
      invariant 0 <= i <= |skus|
      invariant forall s :: s in result <==> s in skus[..i] && NotAssigned(st, s, sid)
      invariant forall s :: s in result ==> result[s] == None
      invariant forall s :: s in toCheck <==> s in skus && (s in skus[..i] ==> !NotAssigned(st, s, sid))
    {
      assert skus[..i + 1] == skus[..i] + [skus[i]];
      var s := skus[i];
      if st.defaultStockId != sid && SourceItemsManaged(st, s) && !flags[s] {
        result := result[s := None];
        toCheck := Without(toCheck, {s});
      }
      i := i + 1;
    }
    assert skus[..i] == skus;
  }

  class GetStockItemsConfigurations {
    const store: Store
    const legacy: LegacyStockItems
    const assignment: AreProductsAssignedToStock

    ghost predicate Valid()
      reads legacy, assignment
    {
      legacy.Valid() && assignment.Valid() && legacy.store == store && assignment.store == store
    }

    constructor (legacy: LegacyStockItems, assignment: AreProductsAssignedToStock)
      requires legacy.Valid() && assignment.Valid() && assignment.store == legacy.store
      ensures Valid()
      ensures this.legacy == legacy && this.assignment == assignment && store == legacy.store
    {
      store := legacy.store;
      this.legacy := legacy;
      this.assignment := assignment;
    }

    /** Assignment is checked for all SKUs in one batch; the legacy stock items
        of the SKUs that pass are loaded in one batch. */
    method Execute(skus: seq<Sku>, stockId: StockId) returns (result: map<Sku, Option<Config>>)
      requires Valid()
      modifies legacy, assignment
      ensures Valid()
      ensures forall s :: s in result <==> s in skus
      ensures forall s :: s in result ==> result[s] == ConfigFor(store, s, stockId)
      ensures legacy.loads <= old(legacy.loads) + 1 && assignment.loads <= old(assignment.loads) + 1
    {
      var st := store;
      var areAssigned := assignment.Execute(skus, stockId);
      var toCheck;
      result, toCheck := SplitNotAssigned(st, skus, stockId, areAssigned);
      var items := legacy.Execute(toCheck);
      result := map s | s in skus ::
        if s in items then Some(Config(items[s], items[s].isInStock != 0)) else result[s];
    }
  }
}
