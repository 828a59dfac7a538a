/** GetReservationsQuantities: the summed reservation quantity of every SKU on
    a stock, with a request cache per stock and SKU. */
module Reservations {
  import opened Types
  import opened Store
  import opened RequestCache

  /** The reservation `r` counts for SKU `s` on stock `sid`. */
  predicate Counts(r: Reservation, s: Sku, sid: StockId)
  {
    r.sku == s && r.stockId == sid
  }

  /** SUM(quantity) of the reservations of `s` on `sid`. */
  function ReservationSum(rows: seq<Reservation>, s: Sku, sid: StockId): real
  {
    if rows == [] then 0.0
    else
      var last := rows[|rows| - 1];
      ReservationSum(rows[..|rows| - 1], s, sid) + (if Counts(last, s, sid) then last.quantity else 0.0)
  }

  /** The query `GROUP BY sku` yields a row for `s` only if it has a reservation. */
  predicate HasReservation(rows: seq<Reservation>, s: Sku, sid: StockId)
  {
    exists r :: r in rows && Counts(r, s, sid)
  }

  /** A SKU without reservations sums to zero, so the loader's default of
      `(float)0` and the query's SUM agree on every SKU. */
  lemma {:induction false} SumWithoutReservations(rows: seq<Reservation>, s: Sku, sid: StockId)
    requires !HasReservation(rows, s, sid)
    ensures ReservationSum(rows, s, sid) == 0.0
  {
    if rows != [] {
      var init := rows[..|rows| - 1];
      assert forall r :: r in init ==> r in rows;
      assert rows[|rows| - 1] in rows;
      SumWithoutReservations(init, s, sid);
    }
  }

  /** SUM over two batches of rows is the sum of the two sums. */
  lemma {:induction false} SumConcat(a: seq<Reservation>, b: seq<Reservation>, s: Sku, sid: StockId)
    ensures ReservationSum(a + b, s, sid) == ReservationSum(a, s, sid) + ReservationSum(b, s, sid)
  {
    if b == [] {
      assert a + b == a;
    } else {
      var init := b[..|b| - 1];
      SumConcat(a, init, s, sid);
      assert (a + b)[..|a + b| - 1] == a + init;
    }
  }

  /** A reservation of another SKU or another stock, wherever it stands among
      the rows, does not change the sum of `s` on `sid`. */
  lemma SumIgnoresOtherRows(a: seq<Reservation>, r: Reservation, b: seq<Reservation>, s: Sku, sid: StockId)
    requires !Counts(r, s, sid)
    ensures ReservationSum(a + [r] + b, s, sid) == ReservationSum(a + b, s, sid)
  {
    SumConcat(a + [r], b, s, sid);
    SumConcat(a, [r], s, sid);
    SumConcat(a, b, s, sid);
    assert [r][..0] == [];
  }

  /** The query: one `(sku, SUM(quantity))` row per requested SKU that has
      reservations on the stock. */
  function ReservationRows(st: Store, skus: seq<Sku>, sid: StockId): (r: map<Sku, real>)
    ensures forall s :: s in r <==> s in skus && HasReservation(st.reservations, s, sid)
  {
    map s | s in skus && HasReservation(st.reservations, s, sid) :: ReservationSum(st.reservations, s, sid)
  }

  class GetReservationsQuantities {
    const store: Store
    /** reservationQuantitiesByStockAndSku */
    var cache: map<StockId, map<Sku, real>>
    /** number of queries sent to the database */
    ghost var loads: nat

    ghost predicate Valid()
      reads this
    {
      forall sid, s :: Cached(cache, sid, s) ==> cache[sid][s] == ReservationSum(store.reservations, s, sid)
    }

    constructor (store: Store)
      ensures Valid()
      ensures this.store == store && cache == map[] && loads == 0
    {
      this.store := store;
      cache := map[];
      loads := 0;
    }

    /** Every requested SKU already cached for the stock is answered from the
        cache (a cached 0 is a hit); the others are queried together. */
    method Execute(skus: seq<Sku>, stockId: StockId) returns (r: map<Sku, real>)
      requires Valid()
      modifies this
      ensures Valid()
      ensures forall s :: s in r <==> s in skus
      ensures forall s :: s in r ==> r[s] == ReservationSum(store.reservations, s, stockId)
      ensures forall sid, s :: Cached(cache, sid, s) <==> Cached(old(cache), sid, s) || (sid == stockId && s in skus)
      ensures loads == old(loads) + (if forall s :: s in skus ==> Cached(old(cache), stockId, s) then 0 else 1)
    {
      var cached := cache;
      var inner := Inner(cached, stockId);
      var hits, loadSkus := SplitByCache(inner, inner.Keys, skus);
      if |loadSkus| > 0 {
        var loaded := GetReservationsData(loadSkus, stockId);
        loads := loads + 1;
        var merged := Merge(cached, stockId, loaded);
        forall sid, s | Cached(merged, sid, s)
          ensures merged[sid][s] == ReservationSum(store.reservations, s, sid)
        {
        }
        cache := merged;
        r := map s | s in skus :: if s in hits then hits[s] else loaded[s];
      } else {
        r := hits;
      }
    }

    /** getReservationsData: every SKU starts at 0 and takes the sum the
        grouped query returns for it. */
    method GetReservationsData(skus: seq<Sku>, stockId: StockId) returns (r: map<Sku, real>)
      ensures forall s :: s in r <==> s in skus
      ensures forall s :: s in r ==> r[s] == ReservationSum(store.reservations, s, stockId)
    {
      r := map s | s in skus :: 0.0;
      var rows := ReservationRows(store, skus, stockId);
      var todo := rows.Keys;
      while todo != {}
        invariant todo <= rows.Keys
        invariant forall s :: s in r <==> s in skus
        invariant forall s :: s in r ==> r[s] == if s in rows && s !in todo then rows[s] else 0.0
        decreases todo
      {
        var s :| s in todo;
        r := r[s := rows[s]];
        todo := todo - {s};
      }
      forall s | s in r && s !in rows
        ensures r[s] == ReservationSum(store.reservations, s, stockId)
      {
        SumWithoutReservations(store.reservations, s, stockId);
      }
    }
  }
}
