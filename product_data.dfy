/** The per-product data arrays the product post-processors build, and the
    callbacks they return: a callback takes a product's data by reference and
    writes the fields it computed for that product. */
module ProductData {
  import opened Types
  import opened ResolveInfoFields

  /** An option of a select attribute. */
  datatype AttributeOption = AttributeOption(value: string, optionLabel: string)

  /** An EAV attribute as a product's attribute set reports it. */
  datatype Attribute = Attribute(
    id: int,
    code: string,
    frontendInput: string,
    storeLabel: string,
    usedInProductListing: bool,
    isVisibleOnFront: bool,
    isComparable: bool,
    isVisible: bool,
    /** `attribute_set_info/<set>/group_id` */
    groupIdBySet: map<int, int>,
    options: seq<AttributeOption>)

  /** An attribute group (`eav_attribute_group`). */
  datatype Group = Group(id: int, setId: int, name: string, code: string)

  /** The description of an attribute the processor writes for a set:
      `attribute_code`, `attribute_type`, `attribute_label`, `attribute_id`,
      `used_in_product_listing` and, once found, the group. */
  datatype AttributeInfo = AttributeInfo(
    code: string,
    frontendInput: string,
    storeLabel: string,
    id: int,
    usedInProductListing: bool,
    group: Option<Group>)

  /** One entry of `s_attributes`. `info` is absent for an entry that only a
      value write created; `options` is absent where the key was never set. */
  datatype AttributeEntry = AttributeEntry(
    info: Option<AttributeInfo>,
    value: Option<string>,
    options: Option<seq<AttributeOption>>)

  /** The `stock_status` / `only_x_left_in_stock` pair of a product. */
  datatype StockEntry = StockEntry(stockStatus: string, onlyXLeftInStock: Option<real>)

  /** A value of a product data array. */
  datatype Value =
    | Null
    | Int(i: int)
    | Text(s: string)
    | Quantity(q: real)
    /** the product object stored under `model` */
    | Model(id: ProductId)
    | AttributeMap(entries: map<string, AttributeEntry>)

  type Data = map<string, Value>

  /** A catalog product as the collection returns it. */
  datatype Product = Product(
    id: ProductId,
    sku: Sku,
    attributeSetId: int,
    typeId: string,
    /** getData() */
    data: Data,
    /** getAttributes() */
    attributes: seq<Attribute>,
    /** the configurable options: attribute id to the `value_index` of each variant */
    configurableOptions: map<int, seq<string>>)

  const CONFIGURABLE_TYPE: string := "configurable"
  const ENTITY_ID: string := "entity_id"
  const MODEL: string := "model"
  const IN_STOCK: string := "IN_STOCK"
  const OUT_OF_STOCK: string := "OUT_OF_STOCK"

  /** The closure a post-processor returns. */
  datatype Callback =
    | Unchanged
    | WriteStocks(productStocks: map<ProductId, StockEntry>)
    | WriteAttributes(productAttributes: map<ProductId, map<string, AttributeEntry>>)

  /** `$productData['entity_id']` when it is set; an id is an integer. */
  function EntityId(data: Data): Option<ProductId>
  {
    if ENTITY_ID in data && data[ENTITY_ID].Int? then Some(data[ENTITY_ID].i) else None
  }

  /** The keys a callback may write. */
  function WrittenKeys(cb: Callback): set<string>
  {
    match cb
    case Unchanged => {}
    case WriteStocks(_) => {STOCK_STATUS, ONLY_X_LEFT_IN_STOCK}
    case WriteAttributes(_) => {ATTRIBUTES}
  }

  /** Whether the callback has something for this data. */
  predicate Targets(cb: Callback, data: Data)
  {
    match cb
    case Unchanged => false
    case WriteStocks(stocks) => EntityId(data).Some? && EntityId(data).value in stocks
    case WriteAttributes(attributes) => EntityId(data).Some? && EntityId(data).value in attributes
  }

  /** Running a callback on a product's data. */
  function Apply(cb: Callback, data: Data): (r: Data)
    ensures !Targets(cb, data) ==> r == data
    ensures forall k :: k in data && k !in WrittenKeys(cb) ==> k in r && r[k] == data[k]
    ensures forall k :: k in r ==> k in data || k in WrittenKeys(cb)
    ensures Targets(cb, data) ==> WrittenKeys(cb) <= r.Keys
  {
    if !Targets(cb, data) then data
    else
      var id := EntityId(data).value;
      match cb
      case WriteStocks(stocks) =>
        var entry := stocks[id];
        data[STOCK_STATUS := Text(entry.stockStatus)]
            [ONLY_X_LEFT_IN_STOCK := if entry.onlyXLeftInStock.Some? then Quantity(entry.onlyXLeftInStock.value) else Null]
      case WriteAttributes(attributes) =>
        data[ATTRIBUTES := AttributeMap(attributes[id])]
  }

  /** Running the callbacks in order. */
  function ApplyAll(cbs: seq<Callback>, data: Data): Data
  {
    if cbs == [] then data else ApplyAll(cbs[1..], Apply(cbs[0], data))
  }

  /** The last product of the list with this id. */
  function LastProduct(products: seq<Product>, id: ProductId): (r: Option<Product>)
    ensures r.Some? ==> r.value in products && r.value.id == id
    ensures r.None? ==> forall p :: p in products ==> p.id != id
  {
    if products == [] then None
    else if products[|products| - 1].id == id then Some(products[|products| - 1])
    else
      var r := LastProduct(products[..|products| - 1], id);
      assert forall p :: p in products[..|products| - 1] ==> p in products;
      assert products == products[..|products| - 1] + [products[|products| - 1]];
      r
  }

  /** A product's entry starts as its data plus the product itself under
      `model`, unless the data already has a `model` key (PHP array union). */
  function InitialData(p: Product): (r: Data)
    ensures forall k :: k in p.data ==> k in r && r[k] == p.data[k]
    ensures r.Keys == p.data.Keys + {MODEL}
    ensures MODEL !in p.data ==> r[MODEL] == Model(p.id)
  {
    map[MODEL := Model(p.id)] + p.data
  }
}
