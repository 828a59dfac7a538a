/** AreSalableWithReservationsCondition: a SKU is salable when its quantity,
    corrected by the reservations against it, exceeds its minimum quantity. */
module ReservationsCondition {
  import opened Types
  import opened Store
  import opened StockItemsConfigurations
  import opened StockItemsData
  import opened Reservations

  /** The SKU needs the reservation check: it has stock data and its
      quantities are kept per source. */
  predicate NeedsReservationCheck(st: Store, s: Sku, sid: StockId)
  {
    StockDataFor(st, s, sid).Some? && SourceItemsManaged(st, s)
  }

  /** The reservation check reads the SKU's configuration without testing for
      `false`; a SKU that needs the check must have one. */
  predicate ConfigurationPresent(st: Store, s: Sku, sid: StockId)
  {
    NeedsReservationCheck(st, s, sid) ==> ConfigFor(st, s, sid).Some?
  }

  /** The condition's answer for SKU `s` on stock `sid`. */
  predicate ReservationsRule(st: Store, s: Sku, sid: StockId)
  {
    match StockDataFor(st, s, sid)
    case None => false
    case Some(data) =>
      if !SourceItemsManaged(st, s) then data.isSalable != 0
      else
        match ConfigFor(st, s, sid)
        // not reached when ConfigurationPresent holds
        case None => false
        case Some(c) => data.quantity + ReservationSum(st.reservations, s, sid) > c.item.minQty
  }

  /** For a SKU that needs the check and has its configuration, the answer is
      the comparison of quantity plus reservations with the minimum quantity. */
  lemma ReservationRuleChecked(st: Store, s: Sku, sid: StockId)
    requires NeedsReservationCheck(st, s, sid) && ConfigurationPresent(st, s, sid)
    ensures ReservationsRule(st, s, sid) ==
      (StockDataFor(st, s, sid).value.quantity + ReservationSum(st.reservations, s, sid) > ConfigFor(st, s, sid).value.item.minQty)
  {
  }

  /** The first loop: no data gives `false`; a SKU that is not per-source
      takes the `is_salable` flag; both are unset from the SKUs to check. */
  method DecideWithoutReservations(st: Store, skus: seq<Sku>, data: map<Sku, Option<StockData>>)
    returns (result: map<Sku, bool>, toCheck: seq<Sku>)
    requires forall s :: s in data <==> s in skus
    ensures forall s :: s in result <==> s in skus && (data[s].None? || !SourceItemsManaged(st, s))
    ensures forall s :: s in result ==> result[s] == (data[s].Some? && data[s].value.isSalable != 0)
    ensures forall s :: s in toCheck <==> s in skus && data[s].Some? && SourceItemsManaged(st, s)
  {
    result := map[];
    toCheck := Dedup(skus);
    var todo := data.Keys;
    while todo != {}
      invariant todo <= data.Keys
      invariant forall s :: s in result <==> s in skus && s !in todo && (data[s].None? || !SourceItemsManaged(st, s))
      invariant forall s :: s in result ==> result[s] == (data[s].Some? && data[s].value.isSalable != 0)
      invariant forall s :: s in toCheck <==> s in skus && (s !in todo ==> data[s].Some? && SourceItemsManaged(st, s))
      decreases todo
    {
      var s :| s in todo;
      match data[s] {
        case None =>
          result := result[s := false];
          toCheck := Without(toCheck, {s});
        case Some(d) =>
          if !SourceItemsManaged(st, s) {
            result := result[s := d.isSalable != 0];
            toCheck := Without(toCheck, {s});
          }
      }
      todo := todo - {s};
    }
  }

  /** The last loop: quantity plus reservations against the minimum quantity. */
  method CompareWithReservations(
    configs: map<Sku, Option<Config>>, data: map<Sku, Option<StockData>>,
    reserved: map<Sku, real>, result: map<Sku, bool>)
    returns (updated: map<Sku, bool>)
    requires forall s :: s in configs ==> configs[s].Some? && s in data && data[s].Some? && s in reserved
    ensures forall s :: s in updated <==> s in result || s in configs
    ensures forall s :: s in updated ==>
      updated[s] == if s in configs then data[s].value.quantity + reserved[s] > configs[s].value.item.minQty else result[s]
  {
    updated := result;
    var todo := configs.Keys;
    while todo != {}
      invariant todo <= configs.Keys
      invariant forall s :: s in updated <==> s in result || (s in configs && s !in todo)
      invariant forall s :: s in updated ==>
        updated[s] == if s in configs && s !in todo
          then data[s].value.quantity + reserved[s] > configs[s].value.item.minQty else result[s]
      decreases todo
    {
      var s :| s in todo;
      var qtyWithReservation := data[s].value.quantity + reserved[s];
      updated := updated[s := qtyWithReservation > configs[s].value.item.minQty];
      todo := todo - {s};
    }
  }

  class AreSalableWithReservationsCondition {
    const configurations: GetStockItemsConfigurations
    const stockData: GetStockItemsData
    const reservations: GetReservationsQuantities

    ghost predicate Valid()
      reads configurations.legacy, configurations.assignment, stockData, reservations
    {
      && configurations.Valid() && stockData.Valid() && reservations.Valid()
      && stockData.store == configurations.store && reservations.store == configurations.store
    }

    constructor (configurations: GetStockItemsConfigurations, stockData: GetStockItemsData, reservations: GetReservationsQuantities)
      requires configurations.Valid() && stockData.Valid() && reservations.Valid()
      requires stockData.store == configurations.store && reservations.store == configurations.store
      ensures Valid()
      ensures this.configurations == configurations && this.stockData == stockData && this.reservations == reservations
    {
      this.configurations := configurations;
      this.stockData := stockData;
      this.reservations := reservations;
    }

    /** The reservation check of the SKUs that need it, with their
        configurations and reservation sums each loaded in one batch. */
    method CheckReservations(
      skus: seq<Sku>, stockId: StockId, toCheck: seq<Sku>,
      data: map<Sku, Option<StockData>>, result: map<Sku, bool>)
      returns (updated: map<Sku, bool>)
      requires Valid()
      requires forall s :: s in data <==> s in skus
      requires forall s :: s in data ==> data[s] == StockDataFor(configurations.store, s, stockId)
      requires forall s :: s in toCheck <==> s in skus && NeedsReservationCheck(configurations.store, s, stockId)
      requires forall s :: s in toCheck ==> ConfigurationPresent(configurations.store, s, stockId)
      requires forall s :: s in result <==> s in skus && !NeedsReservationCheck(configurations.store, s, stockId)
      modifies configurations.legacy, configurations.assignment, reservations
      ensures Valid()
      ensures forall s :: s in updated <==> s in skus
      ensures forall s :: s in updated ==>
        updated[s] == if s in toCheck then ReservationsRule(configurations.store, s, stockId) else result[s]
    {
      var st := configurations.store;
      var configs := configurations.Execute(toCheck, stockId);
      var reserved := reservations.Execute(toCheck, stockId);
      forall s | s in configs
        ensures configs[s].Some? && s in data && data[s].Some? && s in reserved
      {
        assert ConfigurationPresent(st, s, stockId);
      }
      updated := CompareWithReservations(configs, data, reserved, result);
      forall s | s in updated
        ensures updated[s] == if s in toCheck then ReservationsRule(st, s, stockId) else result[s]
      {
        if s in toCheck {
          ReservationRuleChecked(st, s, stockId);
        }
      }
    }

    /** Stock data for all SKUs in one batch; configurations and reservation
        sums only for the SKUs that need the reservation check, and only when
        there are any. A failing stock data load fails the condition. */
    method Execute(skus: seq<Sku>, stockId: StockId) returns (r: Result<map<Sku, bool>, InventoryError>)
      requires Valid()
      requires forall s :: s in skus ==> ConfigurationPresent(configurations.store, s, stockId)
      modifies configurations.legacy, configurations.assignment, stockData, reservations
      ensures Valid()
      ensures r.Failure? <==> |skus| > 0 && QueryFails(configurations.store, stockId)
      ensures r.Success? ==> forall s :: s in r.value <==> s in skus
      ensures r.Success? ==> forall s :: s in r.value ==> r.value[s] == ReservationsRule(configurations.store, s, stockId)
      ensures (forall s :: s in skus ==> !NeedsReservationCheck(configurations.store, s, stockId)) ==>
        unchanged(reservations) && unchanged(configurations.legacy, configurations.assignment)
    {
      var st := configurations.store;
      var loaded := stockData.Execute(skus, stockId);
      if loaded.Failure? {
        return Failure(loaded.error);
      }
      var data := loaded.value;
      var result, toCheck := DecideWithoutReservations(st, skus, data);
      if |toCheck| > 0 {
        assert NeedsReservationCheck(st, toCheck[0], stockId);
        result := CheckReservations(skus, stockId, toCheck, data, result);
      } else {
        forall s | s in skus
          ensures !NeedsReservationCheck(st, s, stockId)
        {
          assert s !in toCheck;
        }
      }
      r := Success(result);
    }
  }
}
