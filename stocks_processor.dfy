/** The stock post-processor: for the products of a listing it reads the
    source items of their SKUs once and returns a callback that writes
    `stock_status` and `only_x_left_in_stock` into each product's data. */
module StocksProcessor {
  import opened Types
  import opened Store
  import opened ResolveInfoFields
  import opened ProductData

  /** The threshold as the code holds it: the integer 0 it starts with, or
      the configured value cast to float once `only_x_left_in_stock` is
      requested. */
  datatype Threshold = Unread | Configured(qty: real)

  /** `$thresholdQty !== (float) 0`: the integer 0 is not identical to the
      float 0, so an unread threshold counts as set. */
  predicate ThresholdActive(t: Threshold)
  {
    t.Unread? || t.qty != 0.0
  }

  function ThresholdValue(t: Threshold): real
  {
    if t.Unread? then 0.0 else t.qty
  }

  /** The threshold is read only when `only_x_left_in_stock` is requested. */
  function ThresholdFor(st: Store, fields: seq<Option<string>>): (t: Threshold)
    ensures t.Configured? <==> Some(ONLY_X_LEFT_IN_STOCK) in fields
    ensures t.Configured? ==> t.qty == st.stockThresholdQty
  {
    if Some(ONLY_X_LEFT_IN_STOCK) in fields then Configured(st.stockThresholdQty) else Unread
  }

  /** The stock fields of one source item. */
  function FormatStock(item: SourceItem, t: Threshold): (r: StockEntry)
    ensures r.stockStatus == IN_STOCK || r.stockStatus == OUT_OF_STOCK
    ensures r.stockStatus == IN_STOCK <==> item.status == STATUS_IN_STOCK
    ensures r.onlyXLeftInStock.Some? ==> r.onlyXLeftInStock.value == item.quantity
  {
    var leftInStock := if ThresholdActive(t) && item.quantity <= ThresholdValue(t) then Some(item.quantity) else None;
    StockEntry(if item.status == STATUS_IN_STOCK then IN_STOCK else OUT_OF_STOCK, leftInStock)
  }

  /** A configured threshold of 0 never reports a count; any other
      configured threshold reports the quantity exactly when it is at most
      the threshold. */
  lemma ThresholdRule(item: SourceItem, qty: real)
    ensures qty == 0.0 ==> FormatStock(item, Configured(qty)).onlyXLeftInStock.None?
    ensures qty != 0.0 ==>
      (FormatStock(item, Configured(qty)).onlyXLeftInStock.Some? <==> item.quantity <= qty)
  {
  }

  /** Source items with `sku IN (skus)`, in table order. */
  function SelectSourceItems(rows: seq<SourceItem>, skus: set<Sku>): (r: seq<SourceItem>)
    ensures forall row :: row in r <==> row in rows && row.sku in skus
  {
    if rows == [] then []
    else
      var rest := SelectSourceItems(rows[..|rows| - 1], skus);
      var row := rows[|rows| - 1];
      assert rows == rows[..|rows| - 1] + [row];
      if row.sku in skus then rest + [row] else rest
  }

  /** The last source item of SKU `s`. */
  function LastSourceItem(rows: seq<SourceItem>, s: Sku): (r: Option<SourceItem>)
    ensures r.Some? ==> r.value in rows && r.value.sku == s
    ensures r.None? ==> forall row :: row in rows ==> row.sku != s
  {
    if rows == [] then None
    else if rows[|rows| - 1].sku == s then Some(rows[|rows| - 1])
    else
      var r := LastSourceItem(rows[..|rows| - 1], s);
      assert rows == rows[..|rows| - 1] + [rows[|rows| - 1]];
      r
  }

  /** Selecting on a set that holds `s` keeps the last item of `s`. */
  lemma {:induction false} LastSourceItemSelected(rows: seq<SourceItem>, skus: set<Sku>, s: Sku)
    requires s in skus
    ensures LastSourceItem(SelectSourceItems(rows, skus), s) == LastSourceItem(rows, s)
  {
    if rows != [] {
      var init := rows[..|rows| - 1];
      LastSourceItemSelected(init, skus, s);
      var rest := SelectSourceItems(init, skus);
      if rows[|rows| - 1].sku in skus {
        assert (rest + [rows[|rows| - 1]])[..|rest|] == rest;
      }
    }
  }

  function Skus(products: seq<Product>): set<Sku>
  {
    set p | p in products :: p.sku
  }

  /** `$formattedStocks`: every SKU with an item, formatted from its last item. */
  function FormattedStocks(items: seq<SourceItem>, t: Threshold): map<Sku, StockEntry>
  {
    map s | s in (set row | row in items :: row.sku) :: FormatStock(LastSourceItem(items, s).value, t)
  }

  /** The last product with id `id` whose SKU has formatted stock. */
  function LastStocked(products: seq<Product>, formatted: set<Sku>, id: ProductId): (r: Option<Product>)
    ensures r.Some? ==> r.value in products && r.value.id == id && r.value.sku in formatted
    ensures r.None? ==> forall p :: p in products && p.id == id ==> p.sku !in formatted
  {
    if products == [] then None
    else
      var p := products[|products| - 1];
      assert products == products[..|products| - 1] + [p];
      if p.id == id && p.sku in formatted then Some(p)
      else LastStocked(products[..|products| - 1], formatted, id)
  }

  /** `$productStocks`: the stock fields of every product id whose SKU has
      stock, taken from the last such product. */
  function ProductStocks(products: seq<Product>, formatted: map<Sku, StockEntry>): map<ProductId, StockEntry>
  {
    map id | id in (set p | p in products && p.sku in formatted :: p.id) ::
      formatted[LastStocked(products, formatted.Keys, id).value.sku]
  }

  /** What `process` returns. */
  function StocksCallback(st: Store, products: seq<Product>, path: string, source: ResolveSource): (r: Callback)
    ensures FieldsFromProductInfo(StockFields, source, path) == [] ==> r == Unchanged
    ensures SelectSourceItems(st.sourceItems, Skus(products)) == [] ==> r == Unchanged
    ensures r.Unchanged? || r.WriteStocks?
  {
    var fields := FieldsFromProductInfo(StockFields, source, path);
    if |fields| == 0 then Unchanged
    else
      var items := SelectSourceItems(st.sourceItems, Skus(products));
      if |items| == 0 then Unchanged
      else WriteStocks(ProductStocks(products, FormattedStocks(items, ThresholdFor(st, fields))))
  }

  /** A product whose SKU has source items gets the fields of the SKU's last
      source item in the table; a product whose SKU has none gets nothing. */
  lemma StockOfProduct(st: Store, products: seq<Product>, path: string, source: ResolveSource, p: Product)
    requires p in products
    requires StocksCallback(st, products, path, source).WriteStocks?
    requires LastProduct(products, p.id) == Some(p)
    ensures var stocks := StocksCallback(st, products, path, source).productStocks;
      && (p.id in stocks <==> exists q :: q in products && q.id == p.id && LastSourceItem(st.sourceItems, q.sku).Some?)
      && (LastSourceItem(st.sourceItems, p.sku).Some? ==>
            stocks[p.id] == FormatStock(LastSourceItem(st.sourceItems, p.sku).value,
                                        ThresholdFor(st, FieldsFromProductInfo(StockFields, source, path))))
  {
    var fields := FieldsFromProductInfo(StockFields, source, path);
    var items := SelectSourceItems(st.sourceItems, Skus(products));
    var formatted := FormattedStocks(items, ThresholdFor(st, fields));
    forall q | q in products
      ensures q.sku in formatted <==> LastSourceItem(st.sourceItems, q.sku).Some?
      ensures q.sku in formatted ==> formatted[q.sku] == FormatStock(LastSourceItem(st.sourceItems, q.sku).value, ThresholdFor(st, fields))
    {
      LastSourceItemSelected(st.sourceItems, Skus(products), q.sku);
    }
    if LastSourceItem(st.sourceItems, p.sku).Some? {
      var last := LastStocked(products, formatted.Keys, p.id);
      LastStockedIsLast(products, formatted.Keys, p);
      assert last == Some(p);
    }
  }

  /** When the last product with an id has stock, it is the one used. */
  lemma {:induction false} LastStockedIsLast(products: seq<Product>, formatted: set<Sku>, p: Product)
    requires LastProduct(products, p.id) == Some(p) && p.sku in formatted
    ensures LastStocked(products, formatted, p.id) == Some(p)
  {
    var n := |products|;
    if products[n - 1].id != p.id {
      LastStockedIsLast(products[..n - 1], formatted, p);
    }
  }

  // ---------------------------------------------------------------------------
  // The loops of `process`
  // ---------------------------------------------------------------------------

  /** The `$formattedStocks` loop: a later item of a SKU overwrites an earlier one. */
  method FormatStocks(items: seq<SourceItem>, t: Threshold) returns (formatted: map<Sku, StockEntry>)
    ensures formatted == FormattedStocks(items, t)
  {
    formatted := map[];
    var i := 0;
    while i < |items|
      invariant 0 <= i <= |items|
      invariant forall s :: s in formatted <==> LastSourceItem(items[..i], s).Some?
      invariant forall s :: s in formatted ==> formatted[s] == FormatStock(LastSourceItem(items[..i], s).value, t)
    {
      var item := items[i];
      assert items[..i + 1][..i] == items[..i];
      formatted := formatted[item.sku := FormatStock(item, t)];
      i := i + 1;
    }
    assert items[..i] == items;
    forall s | s in formatted
      ensures s in (set row | row in items :: row.sku)
    {
      assert LastSourceItem(items, s).value in items;
    }
  }

  /** The `$productStocks` loop. */
  method CollectProductStocks(products: seq<Product>, formatted: map<Sku, StockEntry>)
    returns (productStocks: map<ProductId, StockEntry>)
    ensures productStocks == ProductStocks(products, formatted)
  {
    productStocks := map[];
    var i := 0;
    while i < |products|
      invariant 0 <= i <= |products|
      invariant forall id :: id in productStocks <==> LastStocked(products[..i], formatted.Keys, id).Some?
      invariant forall id :: id in productStocks ==>
        productStocks[id] == formatted[LastStocked(products[..i], formatted.Keys, id).value.sku]
    {
      var product := products[i];
      assert products[..i + 1][..i] == products[..i];
      if product.sku in formatted {
        productStocks := productStocks[product.id := formatted[product.sku]];
      }
      i := i + 1;
    }
    assert products[..i] == products;
    forall id | id in productStocks
      ensures id in (set p | p in products && p.sku in formatted :: p.id)
    {
      assert LastStocked(products, formatted.Keys, id).value in products;
    }
  }

  /** Stocks::process */
  method Process(st: Store, products: seq<Product>, path: string, source: ResolveSource) returns (cb: Callback)
    ensures cb == StocksCallback(st, products, path, source)
  {
    var fields := GetFieldsFromProductInfo(StockFields, source, path);
    if |fields| == 0 {
      return Unchanged;
    }
    var productSkus := set p | p in products :: p.sku;
    var threshold := Unread;
    if Some(ONLY_X_LEFT_IN_STOCK) in fields {
      threshold := Configured(st.stockThresholdQty);
    }
    var stockItems := SelectSourceItems(st.sourceItems, productSkus);
    if |stockItems| == 0 {
      return Unchanged;
    }
    var formattedStocks := FormatStocks(stockItems, threshold);
    var productStocks := CollectProductStocks(products, formattedStocks);
    return WriteStocks(productStocks);
  }
}
