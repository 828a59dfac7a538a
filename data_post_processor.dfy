/** The product data post-processor: every configured processor is asked
    once for its callback, then every product's data is built and handed to
    the callbacks in processor order. */
module DataPostProcessor {
  import opened Types
  import opened Store
  import opened ResolveInfoFields
  import opened ProductData
  import StocksProcessor
  import AttributesProcessor

  /** A configured post-processor of the model. */
  datatype Processor =
    | StocksPostProcessor
    | AttributesPostProcessor(attributes: AttributesProcessor.Attributes)

  /** Running the callbacks in order, the way each one changes the data in
      place. */
  method RunCallbacks(callbacks: seq<Callback>, data0: Data) returns (data: Data)
    ensures data == ApplyAll(callbacks, data0)
  {
    data := data0;
    var i := 0;
    while i < |callbacks|
      invariant 0 <= i <= |callbacks|
      invariant ApplyAll(callbacks[i..], data) == ApplyAll(callbacks, data0)
    {
      assert callbacks[i..][1..] == callbacks[i + 1..];
      data := Apply(callbacks[i], data);
      i := i + 1;
    }
  }

  /** The loop over the products: each product's data, with the product
      under `model`, handed to the callbacks; a later product with the same
      id replaces the entry. */
  method BuildProductsData(products: seq<Product>, callbacks: seq<Callback>) returns (productsData: map<ProductId, Data>)
    ensures productsData.Keys == AttributesProcessor.ProductIds(products)
    ensures forall id :: id in productsData ==>
      productsData[id] == ApplyAll(callbacks, InitialData(LastProduct(products, id).value))
  {
    productsData := map[];
    var i := 0;
    while i < |products|
      invariant 0 <= i <= |products|
      invariant productsData.Keys == AttributesProcessor.ProductIds(products[..i])
      invariant forall id :: id in productsData ==>
        productsData[id] == ApplyAll(callbacks, InitialData(LastProduct(products[..i], id).value))
    {
      var product := products[i];
      assert products[..i + 1] == products[..i] + [product];
      assert AttributesProcessor.ProductIds(products[..i + 1]) == AttributesProcessor.ProductIds(products[..i]) + {product.id};
      var data := RunCallbacks(callbacks, InitialData(product));
      productsData := productsData[product.id := data];
      i := i + 1;
    }
    assert products[..i] == products;
  }

  /** A key no callback writes keeps its value, and only written keys are
      added. */
  lemma {:induction false} ApplyAllKeeps(callbacks: seq<Callback>, data: Data, k: string)
    requires forall j :: 0 <= j < |callbacks| ==> k !in WrittenKeys(callbacks[j])
    ensures k in ApplyAll(callbacks, data) <==> k in data
    ensures k in data ==> ApplyAll(callbacks, data)[k] == data[k]
  {
    if callbacks != [] {
      ApplyAllKeeps(callbacks[1..], Apply(callbacks[0], data), k);
    }
  }

  /** The stock and the attribute callbacks write different keys and
      neither writes `entity_id`, so their order does not matter. */
  lemma StocksAttributesCommute(stocks: map<ProductId, StockEntry>,
                                attributes: map<ProductId, map<string, AttributeEntry>>, data: Data)
    ensures Apply(WriteStocks(stocks), Apply(WriteAttributes(attributes), data))
         == Apply(WriteAttributes(attributes), Apply(WriteStocks(stocks), data))
  {
    var s := WriteStocks(stocks);
    var a := WriteAttributes(attributes);
    assert EntityId(Apply(a, data)) == EntityId(data);
    assert EntityId(Apply(s, data)) == EntityId(data);
  }

  class DataPostProcessor {
    /** What the stock processor reads. */
    const store: Store
    const processors: seq<Processor>

    constructor (store: Store, processors: seq<Processor>)
      ensures this.store == store && this.processors == processors
    {
      this.store := store;
      this.processors := processors;
    }

    /** The attribute processors, whose fields `process` may set. */
    ghost function Objects(): set<AttributesProcessor.Attributes>
    {
      set k | 0 <= k < |processors| && processors[k].AttributesPostProcessor? :: processors[k].attributes
    }

    ghost predicate Valid()
      reads Objects()
    {
      forall a :: a in Objects() ==> a.Valid()
    }

    /** The callback a processor returns for the request. */
    function CallbackOf(processor: Processor, products: seq<Product>, path: string, source: ResolveSource,
                        options: AttributesProcessor.ProcessorOptions): Callback
    {
      match processor
      case StocksPostProcessor => StocksProcessor.StocksCallback(store, products, path, source)
      case AttributesPostProcessor(a) => AttributesProcessor.AttributesCallback(a.catalog, products, path, source, options)
    }

    /** The callbacks of all processors, in configured order. */
    function Callbacks(products: seq<Product>, path: string, source: ResolveSource,
                       options: AttributesProcessor.ProcessorOptions): (r: seq<Callback>)
      ensures |r| == |processors|
    {
      seq(|processors|, k requires 0 <= k < |processors| => CallbackOf(processors[k], products, path, source, options))
    }

    /** What `process` returns: one entry per product id, built from the last
        product with that id. */
    function ProductsData(products: seq<Product>, path: string, source: ResolveSource,
                          options: AttributesProcessor.ProcessorOptions): map<ProductId, Data>
    {
      map id | id in AttributesProcessor.ProductIds(products) ::
        ApplyAll(Callbacks(products, path, source, options), InitialData(LastProduct(products, id).value))
    }

    /** `$processor->process(...)` for one configured processor. */
    method ProcessorCallback(processor: Processor, products: seq<Product>, path: string, source: ResolveSource,
                             options: AttributesProcessor.ProcessorOptions) returns (callback: Callback)
      requires processor in processors && Valid()
      modifies Objects()
      ensures Valid()
      ensures callback == CallbackOf(processor, products, path, source, options)
    {
      match processor {
        case StocksPostProcessor =>
          callback := StocksProcessor.Process(store, products, path, source);
        case AttributesPostProcessor(a) =>
          assert a in Objects();
          callback := a.Process(products, path, source, options);
      }
    }

    /** Every processor once, in order: the list of callbacks. */
    method CollectCallbacks(products: seq<Product>, path: string, source: ResolveSource,
                            options: AttributesProcessor.ProcessorOptions) returns (callbacks: seq<Callback>)
      requires Valid()
      modifies Objects()
      ensures Valid()
      ensures callbacks == Callbacks(products, path, source, options)
    {
      callbacks := [];
      var i := 0;
      while i < |processors|
        invariant 0 <= i <= |processors|
        invariant Valid()
        invariant |callbacks| == i
        invariant forall k :: 0 <= k < i ==> callbacks[k] == CallbackOf(processors[k], products, path, source, options)
      {
        var callback := ProcessorCallback(processors[i], products, path, source, options);
        callbacks := callbacks + [callback];
        i := i + 1;
      }
      CallbacksPointwise(callbacks, products, path, source, options);
    }

    /** A list holding each processor's callback at its position is the
        list of callbacks. */
    lemma CallbacksPointwise(callbacks: seq<Callback>, products: seq<Product>, path: string, source: ResolveSource,
                             options: AttributesProcessor.ProcessorOptions)
      requires |callbacks| == |processors|
      requires forall k :: 0 <= k < |processors| ==> callbacks[k] == CallbackOf(processors[k], products, path, source, options)
      ensures callbacks == Callbacks(products, path, source, options)
    {
      var all := Callbacks(products, path, source, options);
      forall k | 0 <= k < |processors|
        ensures callbacks[k] == all[k]
      {
      }
    }

    /** `process` */
    method Process(products: seq<Product>, path: string, source: ResolveSource,
                   options: AttributesProcessor.ProcessorOptions) returns (productsData: map<ProductId, Data>)
      requires Valid()
      modifies Objects()
      ensures Valid()
      ensures productsData == ProductsData(products, path, source, options)
    {
      var callbacks := CollectCallbacks(products, path, source, options);
      productsData := BuildProductsData(products, callbacks);
    }

    /** A product's entry keeps every field of its data that no callback
        writes, and holds the product under `model` unless its data has a
        `model` field. */
    lemma ProductEntry(products: seq<Product>, path: string, source: ResolveSource,
                       options: AttributesProcessor.ProcessorOptions, p: Product, k: string)
      requires p in products && LastProduct(products, p.id) == Some(p)
      requires k !in {STOCK_STATUS, ONLY_X_LEFT_IN_STOCK, ATTRIBUTES}
      ensures p.id in ProductsData(products, path, source, options)
      ensures var data := ProductsData(products, path, source, options)[p.id];
        && (k in p.data ==> k in data && data[k] == p.data[k])
        && (k == MODEL && MODEL !in p.data ==> MODEL in data && data[MODEL] == Model(p.id))
        && (k !in p.data && k != MODEL ==> k !in data)
    {
      var callbacks := Callbacks(products, path, source, options);
      forall j | 0 <= j < |callbacks|
        ensures k !in WrittenKeys(callbacks[j])
      {
      }
      ApplyAllKeeps(callbacks, InitialData(p), k);
    }
  }
}
