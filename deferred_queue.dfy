/** The request-wide SKU queue shared by the two batch resolvers (stock
    status and stock item): SKUs are collected while GraphQL arguments are
    built and loaded in one go when the first batch executes; every batch
    then answers its own requests by position. */
module DeferredQueue {
  import opened Types

  /** `addSkuToQueue`: a SKU joins the queue unless it already has a result
      or is already waiting. */
  function Enqueue(queue: seq<Sku>, processed: set<Sku>, s: Sku): (r: seq<Sku>)
    ensures forall x :: x in r <==> x in queue || (x == s && s !in processed)
    ensures |queue| <= |r| <= |queue| + 1 && r[..|queue|] == queue
    ensures Distinct(queue) ==> Distinct(r)
    ensures (forall x :: x in queue ==> x !in processed) ==> forall x :: x in r ==> x !in processed
  {
    if s !in processed && s !in queue then queue + [s] else queue
  }

  /** The value a PHP array read `$processed[$sku]` gives: `null` for a
      missing key. */
  function Lookup<T>(processed: map<Sku, T>, s: Sku): Option<T>
  {
    if s in processed then Some(processed[s]) else None
  }

  /** `$skuIndexes`: every request position of every SKU. */
  method IndexesBySku(skus: seq<Sku>) returns (indexes: map<Sku, seq<nat>>)
    ensures forall s :: s in indexes <==> s in skus
    ensures forall s :: s in indexes ==> forall j :: j in indexes[s] ==> j < |skus| && skus[j] == s
    ensures forall j :: 0 <= j < |skus| ==> j in indexes[skus[j]]
  {
    indexes := map[];
    var i := 0;
    while i < |skus|
      invariant 0 <= i <= |skus|
      invariant forall s :: s in indexes <==> s in skus[..i]
      invariant forall s :: s in indexes ==> forall j :: j in indexes[s] ==> j < i && skus[j] == s
      invariant forall j :: 0 <= j < i ==> skus[j] in indexes && j in indexes[skus[j]]
    {
      var s := skus[i];
      assert skus[..i + 1] == skus[..i] + [s];
      if s in indexes {
        indexes := indexes[s := indexes[s] + [i]];
      } else {
        indexes := indexes[s := [i]];
      }
      i := i + 1;
    }
    assert skus[..i] == skus;
  }

  /** The answer to every request position, `None` where the SKU has no
      result (PHP yields `null` there). */
  method ResultsByIndex<T>(skus: seq<Sku>, processed: map<Sku, T>) returns (results: map<nat, Option<T>>)
    ensures forall i: nat :: i in results <==> i < |skus|
    ensures forall i: nat :: i in results ==> results[i] == Lookup(processed, skus[i])
  {
    var indexes := IndexesBySku(skus);
    results := map[];
    var p := 0;
    while p < |skus|
      invariant 0 <= p <= |skus|
      invariant forall i: nat :: i in results <==> i < |skus| && skus[i] in skus[..p]
      invariant forall i: nat :: i in results ==> i < |skus| && results[i] == Lookup(processed, skus[i])
    {
      var s := skus[p];
      var positions := indexes[s];
      var q := 0;
      while q < |positions|
        invariant 0 <= q <= |positions|
        invariant forall i: nat :: i in results <==> (i < |skus| && skus[i] in skus[..p]) || i in positions[..q]
        invariant forall i: nat :: i in results ==> i < |skus| && results[i] == Lookup(processed, skus[i])
      {
        var i := positions[q];
        assert i in positions && skus[i] == s;
        assert positions[..q + 1] == positions[..q] + [i];
        results := results[i := Lookup(processed, s)];
        q := q + 1;
      }
      assert positions[..q] == positions;
      assert skus[..p + 1] == skus[..p] + [s];
      p := p + 1;
    }
    assert skus[..p] == skus;
  }
}
