/** Shared vocabulary of the inventory core: identifiers, optional values,
    results, and the order-preserving SKU lists that the PHP code builds with
    `array_flip` / `array_keys` / `unset`. */
module Types {

  type Sku = string
  type StockId = int
  type ProductId = int
  type SourceCode = string
  type ProductType = string

  /** PHP `null` versus a value. */
  datatype Option<+T> = None | Some(value: T)

  /** A value, or the exception that aborts the whole batch. */
  datatype Result<+R, +E> = Success(value: R) | Failure(error: E)

  /** The exceptions of the inventory core that the model keeps. */
  datatype InventoryError =
    | CouldNotReceiveStockItemData  // 'Could not receive Stock Item data'

  /** The elements of a sequence, as a set. */
  function Elems<T>(s: seq<T>): set<T>
  {
    set x | x in s
  }

  /** `array_flip` of a map whose values are pairwise different. */
  function Flip<K, V>(m: map<K, V>): (r: map<V, K>)
    requires forall a, b :: a in m && b in m && m[a] == m[b] ==> a == b
    ensures forall v :: v in r ==> r[v] in m && m[r[v]] == v
    ensures forall k :: k in m ==> m[k] in r && r[m[k]] == k
  {
    var r := map v | v in m.Values :: var k :| k in m && m[k] == v; k;
    assert forall k :: k in m ==> r[m[k]] == k by {
      forall k | k in m
        ensures r[m[k]] == k
      {
        assert m[k] in m.Values;
        var k' := r[m[k]];
        assert k' in m && m[k'] == m[k];
      }
    }
    r
  }

  predicate Distinct<T(==)>(s: seq<T>)
  {
    forall i, j :: 0 <= i < j < |s| ==> s[i] != s[j]
  }

  /** The keys of `array_flip(s)`: every element once, at its first position. */
  function Dedup<T(==,!new)>(s: seq<T>): (r: seq<T>)
    ensures Distinct(r)
    ensures forall x :: x in r <==> x in s
    ensures |r| <= |s|
  {
    if s == [] then []
    else
      var d := Dedup(s[..|s| - 1]);
      assert s == s[..|s| - 1] + [s[|s| - 1]];
      if s[|s| - 1] in d then d else d + [s[|s| - 1]]
  }

  /** `s` after `unset` of every element of `xs`; the order of the rest is kept. */
  function Without<T(==,!new)>(s: seq<T>, xs: set<T>): (r: seq<T>)
    ensures forall x :: x in r <==> x in s && x !in xs
    ensures Distinct(s) ==> Distinct(r)
    ensures |r| <= |s|
  {
    if s == [] then []
    else if s[0] in xs then Without(s[1..], xs)
    else
      var rest := Without(s[1..], xs);
      assert s == [s[0]] + s[1..];
      [s[0]] + rest
  }

  /** An element of a non-empty set, for loops that take one at a time. */
  lemma Element<T>(xs: set<T>) returns (x: T)
    requires xs != {}
    ensures x in xs
  {
    x :| x in xs;
  }
}
