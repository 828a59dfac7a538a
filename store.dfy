/** The data the inventory core reads during one request: catalog, legacy
    inventory tables, multi-source inventory tables and configuration.
    The core never writes any of it, so a request sees one immutable `Store`;
    every SQL query of the core is a function over it. Tables whose rows the
    code iterates with "a later row overwrites an earlier one" are kept as
    sequences in fetch order. */
module Store {
  import opened Types

  /** StockItemConfigurationInterface::BACKORDERS_NO */
  const BACKORDERS_NO: int := 0
  /** SourceItemInterface::STATUS_IN_STOCK */
  const STATUS_IN_STOCK: int := 1
  /** Stock::DEFAULT_STOCK_ID of the legacy inventory tables. */
  const LEGACY_DEFAULT_STOCK_ID: StockId := 1

  /** The `quantity` / `is_salable` pair the stock data loader returns. */
  datatype StockData = StockData(quantity: real, isSalable: int)

  /** A row of `cataloginventory_stock_status` (one per product and website). */
  datatype StatusRow = StatusRow(productId: ProductId, qty: real, stockStatus: int)

  /** A row of the stock index table of a non-default stock. */
  datatype IndexRow = IndexRow(sku: Sku, quantity: real, isSalable: int)

  /** A legacy stock item, a row of `cataloginventory_stock_item`.
      `qtyIncrements` is `None` where the item reports `false`. */
  datatype StockItem = StockItem(
    productId: Option<ProductId>,
    stockId: StockId,
    qty: real,
    isInStock: int,
    manageStock: bool,
    useConfigManageStock: bool,
    minQty: real,
    backorders: int,
    minSaleQty: real,
    maxSaleQty: real,
    qtyIncrements: Option<real>)

  /** A row of `inventory_reservation`. */
  datatype Reservation = Reservation(sku: Sku, stockId: StockId, quantity: real)

  /** A row of `inventory_source_item`. */
  datatype SourceItem = SourceItem(sku: Sku, sourceCode: SourceCode, quantity: real, status: int)

  /** A row of `inventory_source_stock_link`. */
  datatype StockSourceLink = StockSourceLink(stockId: StockId, sourceCode: SourceCode)

  /** A source as the stock's source list reports it. */
  datatype Source = Source(code: SourceCode, enabled: bool)

  datatype Store = Store(
    /** DefaultStockProviderInterface::getId() */
    defaultStockId: StockId,
    /** IsSingleSourceModeInterface::execute() */
    singleSourceMode: bool,
    /** the global `cataloginventory/item_options/manage_stock` setting */
    globalManageStock: int,
    /** `cataloginventory/options/stock_threshold_qty` */
    stockThresholdQty: real,
    /** catalog_product_entity: SKU to entity id ... */
    productIds: map<Sku, ProductId>,
    /** ... and entity id back to SKU */
    skuOf: map<ProductId, Sku>,
    /** the product type of every SKU the catalog has */
    productTypes: map<Sku, ProductType>,
    /** the product types whose quantities are kept per source */
    managedTypes: set<ProductType>,
    statusRows: seq<StatusRow>,
    /** the index table of every non-default stock that has one */
    stockIndex: map<StockId, seq<IndexRow>>,
    /** `cataloginventory_stock_item` in fetch order */
    stockItems: seq<StockItem>,
    /** what the stock item factory creates */
    freshItem: StockItem,
    reservations: seq<Reservation>,
    sourceItems: seq<SourceItem>,
    /** `inventory_source_stock_link` as the assignment loader reads it */
    links: seq<StockSourceLink>,
    /** the sources of every stock, by priority, as the source lookup of the
        in-stock condition reads them. This field is the same table as `links`,
        but `WellFormed` does not tie the two: each operation reads only one
        of them. */
    stockSources: map<StockId, seq<Source>>)

  /** What the database guarantees: entity ids are positive and unique per SKU. */
  ghost predicate WellFormed(st: Store)
  {
    && (forall s :: s in st.productIds ==> st.productIds[s] > 0)
    && (forall s :: s in st.productIds ==> st.productIds[s] in st.skuOf && st.skuOf[st.productIds[s]] == s)
  }

  /** The entity id of a SKU, or null when the catalog has no such product. */
  function ProductIdOf(st: Store, s: Sku): (r: Option<ProductId>)
    ensures r.Some? <==> s in st.productIds
  {
    if s in st.productIds then Some(st.productIds[s]) else None
  }

  /** IsSourceItemManagementAllowedForSku: decided by the SKU's product type;
      a SKU without a type keeps no per-source quantities. */
  predicate SourceItemsManaged(st: Store, s: Sku)
  {
    s in st.productTypes && st.productTypes[s] in st.managedTypes
  }

  // ---------------------------------------------------------------------------
  // Last matching row of a table, in fetch order ("a later row overwrites")
  // ---------------------------------------------------------------------------

  /** The data of the last stock-status row of product `id`. */
  function LastStatus(rows: seq<StatusRow>, id: ProductId): (r: Option<StockData>)
    ensures r.Some? ==> r.value in (set row | row in rows && row.productId == id :: StockData(row.qty, row.stockStatus))
    ensures r.None? ==> forall row :: row in rows ==> row.productId != id
  {
    if rows == [] then None
    else
      var row := rows[|rows| - 1];
      if row.productId == id then Some(StockData(row.qty, row.stockStatus))
      else
        LastStatus(rows[..|rows| - 1], id)
  }

  /** The data of the last index row of SKU `s`. */
  function LastIndex(rows: seq<IndexRow>, s: Sku): (r: Option<StockData>)
    ensures r.Some? ==> r.value in (set row | row in rows && row.sku == s :: StockData(row.quantity, row.isSalable))
    ensures r.None? ==> forall row :: row in rows ==> row.sku != s
  {
    if rows == [] then None
    else
      var row := rows[|rows| - 1];
      if row.sku == s then Some(StockData(row.quantity, row.isSalable))
      else
        LastIndex(rows[..|rows| - 1], s)
  }

  /** The stock item row `row` matches product `id` and, when given, stock `stock`. */
  predicate ItemMatches(row: StockItem, id: ProductId, stock: Option<StockId>)
  {
    row.productId == Some(id) && (stock.None? || row.stockId == stock.value)
  }

  /** The last stock item row of product `id` (of stock `stock` when given). */
  function LastItem(rows: seq<StockItem>, id: ProductId, stock: Option<StockId>): (r: Option<StockItem>)
    ensures r.Some? ==> ItemMatches(r.value, id, stock) && r.value in rows
    ensures r.None? ==> forall row :: row in rows ==> !ItemMatches(row, id, stock)
  {
    if rows == [] then None
    else
      var row := rows[|rows| - 1];
      if ItemMatches(row, id, stock) then Some(row)
      else
        LastItem(rows[..|rows| - 1], id, stock)
  }

  // ---------------------------------------------------------------------------
  // The WHERE ... IN (...) selections the loaders issue
  // ---------------------------------------------------------------------------

  /** `cataloginventory_stock_status` rows with `product_id IN (ids)`. */
  function SelectStatus(rows: seq<StatusRow>, ids: set<ProductId>): (r: seq<StatusRow>)
    ensures forall row :: row in r <==> row in rows && row.productId in ids
  {
    if rows == [] then []
    else
      var rest := SelectStatus(rows[..|rows| - 1], ids);
      assert rows == rows[..|rows| - 1] + [rows[|rows| - 1]];
      if rows[|rows| - 1].productId in ids then rest + [rows[|rows| - 1]] else rest
  }

  /** Selecting on a set that contains `id` keeps the last row of `id`. */
  lemma {:induction false} LastStatusSelected(rows: seq<StatusRow>, ids: set<ProductId>, id: ProductId)
    requires id in ids
    ensures LastStatus(SelectStatus(rows, ids), id) == LastStatus(rows, id)
  {
    if rows != [] {
      var init := rows[..|rows| - 1];
      LastStatusSelected(init, ids, id);
      var rest := SelectStatus(init, ids);
      if rows[|rows| - 1].productId in ids {
        assert (rest + [rows[|rows| - 1]])[..|rest|] == rest;
      }
    }
  }

  /** Index rows with `sku IN (skus)`. */
  function SelectIndex(rows: seq<IndexRow>, skus: set<Sku>): (r: seq<IndexRow>)
    ensures forall row :: row in r <==> row in rows && row.sku in skus
  {
    if rows == [] then []
    else
      var rest := SelectIndex(rows[..|rows| - 1], skus);
      assert rows == rows[..|rows| - 1] + [rows[|rows| - 1]];
      if rows[|rows| - 1].sku in skus then rest + [rows[|rows| - 1]] else rest
  }

  /** Selecting on a set that contains `s` keeps the last row of `s`. */
  lemma {:induction false} LastIndexSelected(rows: seq<IndexRow>, skus: set<Sku>, s: Sku)
    requires s in skus
    ensures LastIndex(SelectIndex(rows, skus), s) == LastIndex(rows, s)
  {
    if rows != [] {
      var init := rows[..|rows| - 1];
      LastIndexSelected(init, skus, s);
      var rest := SelectIndex(init, skus);
      if rows[|rows| - 1].sku in skus {
        assert (rest + [rows[|rows| - 1]])[..|rest|] == rest;
      }
    }
  }

  /** Stock item rows with `product_id IN (ids)` and, when given, `stock_id = stock`. */
  function SelectItems(rows: seq<StockItem>, ids: set<ProductId>, stock: Option<StockId>): (r: seq<StockItem>)
    ensures forall row :: row in r <==>
      row in rows && row.productId.Some? && row.productId.value in ids && (stock.None? || row.stockId == stock.value)
  {
    if rows == [] then []
    else
      var rest := SelectItems(rows[..|rows| - 1], ids, stock);
      var row := rows[|rows| - 1];
      assert rows == rows[..|rows| - 1] + [row];
      if row.productId.Some? && row.productId.value in ids && (stock.None? || row.stockId == stock.value)
      then rest + [row] else rest
  }

  /** Selecting on a set that contains `id` keeps the last row of `id`. */
  lemma {:induction false} LastItemSelected(rows: seq<StockItem>, ids: set<ProductId>, id: ProductId, stock: Option<StockId>)
    requires id in ids
    ensures LastItem(SelectItems(rows, ids, stock), id, stock) == LastItem(rows, id, stock)
  {
    if rows != [] {
      var init := rows[..|rows| - 1];
      LastItemSelected(init, ids, id, stock);
      var rest := SelectItems(init, ids, stock);
      var row := rows[|rows| - 1];
      if row.productId.Some? && row.productId.value in ids && (stock.None? || row.stockId == stock.value) {
        assert (rest + [row])[..|rest|] == rest;
      }
    }
  }
}
