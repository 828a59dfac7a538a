/** IsAnySourceItemInStockCondition: a SKU is salable when its stock is not
    managed, when its quantities are not kept per source, or when one of the
    stock's enabled sources has it in stock. */
module AnySourceItemInStockCondition {
  import opened Types
  import opened Store
  import ManageStockCondition

  /** The sources assigned to stock `sid`, by priority. */
  function SourcesOf(st: Store, sid: StockId): seq<Source>
  {
    if sid in st.stockSources then st.stockSources[sid] else []
  }

  /** The codes of the enabled sources, in order: a code is listed exactly
      when some enabled source has it. */
  function EnabledCodes(sources: seq<Source>): (r: seq<SourceCode>)
    ensures forall c :: c in r <==> exists i :: 0 <= i < |sources| && sources[i].enabled && sources[i].code == c
    ensures |r| <= |sources|
  {
    if sources == [] then []
    else
      var init := sources[..|sources| - 1];
      var rest := EnabledCodes(init);
      var last := sources[|sources| - 1];
      assert forall i :: 0 <= i < |init| ==> sources[i] == init[i];
      if last.enabled then rest + [last.code] else rest
  }

  /** getSourceCodesAssignedToStock: the enabled sources' codes, in priority order. */
  method SourceCodesAssignedToStock(st: Store, sid: StockId) returns (codes: seq<SourceCode>)
    ensures codes == EnabledCodes(SourcesOf(st, sid))
  {
    var sources := SourcesOf(st, sid);
    codes := [];
    var i := 0;
    while i < |sources|
      invariant 0 <= i <= |sources|
      invariant codes == EnabledCodes(sources[..i])
    {
      assert sources[..i + 1][..i] == sources[..i];
      if sources[i].enabled {
        codes := codes + [sources[i].code];
      }
      i := i + 1;
    }
    assert sources[..i] == sources;
  }

  /** A source item row that puts SKU `s` in stock in one of `codes`. */
  predicate InStockRow(row: SourceItem, s: Sku, codes: seq<SourceCode>)
  {
    row.sku == s && row.sourceCode in codes && row.status == STATUS_IN_STOCK
  }

  /** Some enabled source of stock `sid` has SKU `s` in stock. */
  predicate HasInStockSourceItem(st: Store, s: Sku, sid: StockId)
  {
    exists row :: row in st.sourceItems && InStockRow(row, s, EnabledCodes(SourcesOf(st, sid)))
  }

  /** The condition's answer for SKU `s` on stock `sid`. */
  predicate AnySourceItemInStockRule(st: Store, s: Sku, sid: StockId)
  {
    ManageStockCondition.ManageStockRule(st, s, sid) || !SourceItemsManaged(st, s) || HasInStockSourceItem(st, s, sid)
  }

  /** The source items with `sku IN (skus)`, `source_code IN (codes)` and
      status in stock. */
  function SelectInStock(rows: seq<SourceItem>, skus: set<Sku>, codes: seq<SourceCode>): (r: seq<SourceItem>)
    ensures forall row :: row in r <==> row in rows && row.sku in skus && InStockRow(row, row.sku, codes)
  {
    if rows == [] then []
    else
      var rest := SelectInStock(rows[..|rows| - 1], skus, codes);
      var row := rows[|rows| - 1];
      assert rows == rows[..|rows| - 1] + [row];
      if row.sku in skus && InStockRow(row, row.sku, codes) then rest + [row] else rest
  }

  /** The first loop: the SKUs whose manage-stock answer is `false`. */
  method FalseSkus(skus: seq<Sku>, result: map<Sku, bool>) returns (toCheck: seq<Sku>)
    requires forall s :: s in skus ==> s in result
    ensures Distinct(toCheck)
    ensures forall s :: s in toCheck <==> s in skus && !result[s]
  {
    var keys := Dedup(skus);
    toCheck := [];
    var i := 0;
    while i < |keys|
      invariant 0 <= i <= |keys|
      invariant forall j, k :: 0 <= j < k < |toCheck| ==> toCheck[j] != toCheck[k]
      invariant forall s :: s in toCheck <==> s in keys[..i] && !result[s]
    {
      assert keys[..i + 1] == keys[..i] + [keys[i]];
      if !result[keys[i]] {
        assert keys[i] !in keys[..i];
        toCheck := toCheck + [keys[i]];
      }
      i := i + 1;
    }
    assert keys[..i] == keys;
  }

  /** The second loop: a SKU whose quantities are not kept per source becomes
      `true` and is unset from the SKUs to check. */
  method MarkUnmanaged(st: Store, toCheck: seq<Sku>, result: map<Sku, bool>)
    returns (remaining: seq<Sku>, updated: map<Sku, bool>)
    requires Distinct(toCheck)
    ensures Distinct(remaining)
    ensures forall s :: s in remaining <==> s in toCheck && SourceItemsManaged(st, s)
    ensures forall s :: s in updated <==> s in result || (s in toCheck && !SourceItemsManaged(st, s))
    ensures forall s :: s in updated ==>
      updated[s] == if s in toCheck && !SourceItemsManaged(st, s) then true else result[s]
  {
    remaining := toCheck;
    updated := result;
    var i := 0;
    while i < |toCheck|
      invariant 0 <= i <= |toCheck|
      invariant Distinct(remaining)
      invariant forall s :: s in remaining <==> s in toCheck && (s in toCheck[..i] ==> SourceItemsManaged(st, s))
      invariant forall s :: s in updated <==> s in result || (s in toCheck[..i] && !SourceItemsManaged(st, s))
      invariant forall s :: s in updated ==>
        updated[s] == if s in toCheck[..i] && !SourceItemsManaged(st, s) then true else result[s]
    {
      assert toCheck[..i + 1] == toCheck[..i] + [toCheck[i]];
      var s := toCheck[i];
      if !SourceItemsManaged(st, s) {
        updated := updated[s := true];
        remaining := Without(remaining, {s});
      }
      i := i + 1;
    }
    assert toCheck[..i] == toCheck;
  }

  /** The last loop: every fetched source item row marks its SKU `true`. */
  method MarkInStock(rows: seq<SourceItem>, result: map<Sku, bool>) returns (updated: map<Sku, bool>)
    ensures forall s :: s in updated <==> s in result || exists row :: row in rows && row.sku == s
    ensures forall s :: s in updated ==>
      updated[s] == ((exists row :: row in rows && row.sku == s) || result[s])
  {
    updated := result;
    var i := 0;
    while i < |rows|
      invariant 0 <= i <= |rows|
      invariant forall s :: s in updated <==> s in result || exists row :: row in rows[..i] && row.sku == s
      invariant forall s :: s in updated ==>
        updated[s] == ((exists row :: row in rows[..i] && row.sku == s) || result[s])
    {
      assert rows[..i + 1] == rows[..i] + [rows[i]];
      updated := updated[rows[i].sku := true];
      i := i + 1;
    }
    assert rows[..i] == rows;
  }

  class IsAnySourceItemInStockCondition {
    const manageStock: ManageStockCondition.ManageStockCondition

    ghost predicate Valid()
      reads manageStock.configurations.legacy, manageStock.configurations.assignment
    {
      manageStock.Valid()
    }

    constructor (manageStock: ManageStockCondition.ManageStockCondition)
      requires manageStock.Valid()
      ensures Valid() && this.manageStock == manageStock
    {
      this.manageStock := manageStock;
    }

    /** Starts from the manage-stock answers and only ever turns `false` into
        `true`. */
    method Execute(skus: seq<Sku>, stockId: StockId) returns (result: map<Sku, bool>)
      requires Valid()
      modifies manageStock.configurations.legacy, manageStock.configurations.assignment
      ensures Valid()
      ensures forall s :: s in result <==> s in skus
      ensures forall s :: s in result ==>
        result[s] == AnySourceItemInStockRule(manageStock.configurations.store, s, stockId)
    {
      var st := manageStock.configurations.store;
      var managed := manageStock.Execute(skus, stockId);
      var toCheck := FalseSkus(skus, managed);
      var remaining, marked := MarkUnmanaged(st, toCheck, managed);
      var codes := SourceCodesAssignedToStock(st, stockId);
      var rows := SelectInStock(st.sourceItems, Elems(remaining), codes);
      result := MarkInStock(rows, marked);
      forall s | s in result
        ensures result[s] == AnySourceItemInStockRule(st, s, stockId)
      {
        if s in remaining {
          if HasInStockSourceItem(st, s, stockId) {
            var row :| row in st.sourceItems && InStockRow(row, s, codes);
            assert row in rows;
          }
        } else {
          assert !(exists row :: row in rows && row.sku == s);
        }
      }
    }
  }
}
