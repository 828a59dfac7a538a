/** SKU to entity id lookups: the uncached lookup that answers null for an
    unknown SKU, and the request cache in front of it. */
module ProductIds {
  import opened Types
  import opened Store
  import opened RequestCache

  /** The product resource model's batch lookup: the ids of those SKUs the
      catalog has (an unknown SKU has no key). */
  function FoundIds(st: Store, skus: seq<Sku>): (r: map<Sku, ProductId>)
    ensures forall s :: s in r <==> s in skus && s in st.productIds
  {
    map s | s in skus && s in st.productIds :: st.productIds[s]
  }

  /** GetProductIdsBySkus::execute: one lookup, then every SKU that was not
      found is added with a null id. */
  method GetProductIdsBySkus(st: Store, skus: seq<Sku>) returns (ids: map<Sku, Option<ProductId>>)
    ensures forall s :: s in ids <==> s in skus
    ensures forall s :: s in ids ==> ids[s] == ProductIdOf(st, s)
  {
    var found := FoundIds(st, skus);
    ids := map s | s in found :: Some(found[s]);
    var notFound := Without(skus, found.Keys);
    var i := 0;
    while i < |notFound|
      invariant 0 <= i <= |notFound|
      invariant forall s :: s in ids <==> s in found || s in notFound[..i]
      invariant forall s :: s in ids ==> ids[s] == ProductIdOf(st, s)
    {
      assert notFound[..i + 1] == notFound[..i] + [notFound[i]];
      assert notFound[i] in notFound;
      ids := ids[notFound[i] := None];
      i := i + 1;
    }
    assert notFound[..i] == notFound;
  }

  /** What the cache below hands out for a SKU: the `(int)` cast of the
      lookup, which turns a null id into 0. */
  function CachedId(st: Store, s: Sku): (r: int)
    ensures r == 0 <==> s !in st.productIds || st.productIds[s] == 0
  {
    IntCast(ProductIdOf(st, s))
  }

  /** PHP's `(int)` of a nullable id. */
  function IntCast(id: Option<ProductId>): int
  {
    match id
    case Some(v) => v
    case None => 0
  }

  /** The cache as written answers 0, not null, for a SKU the catalog does not
      have; in a well-formed catalog no product has the id 0. */
  lemma UnknownSkuReadsAsZero(st: Store, s: Sku)
    requires WellFormed(st)
    requires s !in st.productIds
    ensures ProductIdOf(st, s) == None
    ensures CachedId(st, s) == 0
    ensures forall t :: t in st.productIds ==> st.productIds[t] != CachedId(st, s)
  {
  }

  /** GetProductIdsBySkusCache, as written: a hit is a non-null stored id;
      the misses are looked up together and every looked-up id is stored and
      returned as `(int)$id`. */
  class ProductIdsBySkusCache {
    const store: Store
    /** ProductIdsBySkusStorage, shared with the rest of the request */
    var storage: map<Sku, int>
    /** number of lookups that went to the database */
    ghost var loads: nat

    ghost predicate Valid()
      reads this
    {
      forall s :: s in storage ==> storage[s] == CachedId(store, s)
    }

    constructor (store: Store, storage: map<Sku, int>)
      requires forall s :: s in storage ==> storage[s] == CachedId(store, s)
      ensures Valid()
      ensures this.store == store && this.storage == storage && loads == 0
    {
      this.store := store;
      this.storage := storage;
      loads := 0;
    }

    method Execute(skus: seq<Sku>) returns (ids: map<Sku, Option<int>>)
      requires Valid()
      modifies this
      ensures Valid()
      ensures forall s :: s in ids <==> s in skus
      ensures forall s :: s in ids ==> ids[s] == Some(CachedId(store, s))
      ensures forall s :: s in storage <==> s in old(storage) || s in skus
      ensures loads == old(loads) + (if forall s :: s in skus ==> s in old(storage) then 0 else 1)
    {
      var stored := storage;
      var hits, loadSkus := SplitByCache(stored, stored.Keys, skus);
      ids := map s | s in skus :: if s in hits then Some(hits[s]) else None;
      if |loadSkus| > 0 {
        var loaded := GetProductIdsBySkus(store, loadSkus);
        loads := loads + 1;
        ids := map s | s in skus :: if s in loaded then Some(IntCast(loaded[s])) else ids[s];
        storage := map s | s in stored.Keys + loaded.Keys :: if s in loaded then IntCast(loaded[s]) else stored[s];
      }
    }
  }

  /** The cache as its own documentation describes it: an unknown SKU is
      answered with null and is not stored, so only real ids are cached. */
  class CorrectedProductIdsBySkusCache {
    const store: Store
    var storage: map<Sku, int>
    ghost var loads: nat

    ghost predicate Valid()
      reads this
    {
      forall s :: s in storage ==> s in store.productIds && storage[s] == store.productIds[s]
    }

    constructor (store: Store, storage: map<Sku, int>)
      requires forall s :: s in storage ==> s in store.productIds && storage[s] == store.productIds[s]
      ensures Valid()
      ensures this.store == store && this.storage == storage && loads == 0
    {
      this.store := store;
      this.storage := storage;
      loads := 0;
    }

    /** Answers exactly what the uncached lookup answers. */
    method Execute(skus: seq<Sku>) returns (ids: map<Sku, Option<ProductId>>)
      requires Valid()
      modifies this
      ensures Valid()
      ensures forall s :: s in ids <==> s in skus
      ensures forall s :: s in ids ==> ids[s] == ProductIdOf(store, s)
      ensures forall s :: s in storage <==> s in old(storage) || (s in skus && s in store.productIds)
      ensures loads == old(loads) + (if forall s :: s in skus ==> s in old(storage) then 0 else 1)
    {
      var stored := storage;
      var hits, loadSkus := SplitByCache(stored, stored.Keys, skus);
      ids := map s | s in skus :: if s in hits then Some(hits[s]) else None;
      if |loadSkus| > 0 {
        var loaded := GetProductIdsBySkus(store, loadSkus);
        loads := loads + 1;
        ids := map s | s in skus :: if s in loaded then loaded[s] else ids[s];
        storage := map s | s in stored.Keys + (loaded.Keys * store.productIds.Keys) ::
          if s in loaded && loaded[s].Some? then loaded[s].value else stored[s];
      }
    }
  }
}
