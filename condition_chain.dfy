/** AreProductsSalableConditionChain: the salability decision. Required
    conditions veto, optional conditions, cheapest first, grant; a SKU no
    optional condition grants is not salable. */
module ConditionChain {
  import opened Types
  import opened Store
  import opened StockItemsConfigurations
  import opened StockItemsData
  import opened Reservations
  import opened ReservationsCondition
  import ManageStockCondition
  import BackOrderCondition
  import AnySourceItemInStockCondition
  import CompositeInStockCondition

  // ---------------------------------------------------------------------------
  // The conditions and their per-SKU rules
  // ---------------------------------------------------------------------------

  /** The conditions of the chain. */
  datatype ConditionKind =
    | ManageStock
    | BackOrder
    | AnySourceItemInStock
    | CompositeInStock
    | WithReservations

  /** The answer condition `kind` gives for SKU `s` on stock `sid`. */
  predicate Rule(kind: ConditionKind, st: Store, s: Sku, sid: StockId)
  {
    match kind
    case ManageStock => ManageStockCondition.ManageStockRule(st, s, sid)
    case BackOrder => BackOrderCondition.BackOrderRule(st, s, sid)
    case AnySourceItemInStock => AnySourceItemInStockCondition.AnySourceItemInStockRule(st, s, sid)
    case CompositeInStock => CompositeInStockCondition.CompositeRule(st, s, sid)
    case WithReservations => ReservationsRule(st, s, sid)
  }

  // ---------------------------------------------------------------------------
  // Configuration: entries, validation, the two lists
  // ---------------------------------------------------------------------------

  /** The `object` item of an entry: one of the conditions, or an object that
      does not implement the condition interface. */
  datatype ConditionObject = Condition(kind: ConditionKind) | NotACondition

  /** One configured entry: `object` (here `instance`), `required` and `sort_order`, each of
      which may be absent. */
  datatype Entry = Entry(instance: Option<ConditionObject>, required: Option<bool>, sortOrder: Option<int>)

  /** The construction-time errors, in the order they are tested. */
  datatype ConfigError =
    | ObjectMissing       // 'Parameter "object" must be present.'
    | SortOrderMissing    // 'Parameter "sort_order" must be present for unrequired conditions.'
    | NotAnInterface      // 'Condition has to implement AreProductsSalableInterface.'

  /** PHP `empty()` of an optional integer: absent or 0. */
  predicate EmptyInt(x: Option<int>)
  {
    x.None? || x.value == 0
  }

  /** The error an entry raises, if any. */
  function EntryError(e: Entry): Option<ConfigError>
  {
    if e.instance.None? then Some(ObjectMissing)
    else if e.required != Some(true) && EmptyInt(e.sortOrder) then Some(SortOrderMissing)
    else if e.instance.value.NotACondition? then Some(NotAnInterface)
    else None
  }

  /** The error of the first entry that raises one. */
  function FirstError(entries: seq<Entry>): Option<ConfigError>
  {
    if entries == [] then None
    else if EntryError(entries[0]).Some? then EntryError(entries[0])
    else FirstError(entries[1..])
  }

  /** Validation passes exactly when no entry raises an error, and then every
      entry holds a condition. */
  lemma {:induction false} FirstErrorNone(entries: seq<Entry>)
    ensures FirstError(entries).None? <==> forall e :: e in entries ==> EntryError(e).None?
  {
    if entries != [] {
      FirstErrorNone(entries[1..]);
      assert entries == [entries[0]] + entries[1..];
    }
  }

  /** validateConditions: the entries in order, stopping at the first error. */
  method ValidateConditions(entries: seq<Entry>) returns (err: Option<ConfigError>)
    ensures err == FirstError(entries)
  {
    var i := 0;
    while i < |entries|
      invariant 0 <= i <= |entries|
      invariant FirstError(entries) == FirstError(entries[i..])
    {
      assert entries[i..][1..] == entries[i + 1..];
      var e := entries[i];
      if e.instance.None? {
        return Some(ObjectMissing);
      }
      if e.required != Some(true) && EmptyInt(e.sortOrder) {
        return Some(SortOrderMissing);
      }
      if e.instance.value.NotACondition? {
        return Some(NotAnInterface);
      }
      i := i + 1;
    }
    return None;
  }

  /** An entry that passed validation. */
  predicate IsCondition(e: Entry)
  {
    e.instance.Some? && e.instance.value.Condition?
  }

  /** The optional entries: `required` is not set at all. */
  function UnrequiredEntries(entries: seq<Entry>): (r: seq<Entry>)
    ensures forall e :: e in r <==> e in entries && e.required.None?
  {
    if entries == [] then []
    else
      assert entries == [entries[0]] + entries[1..];
      (if entries[0].required.None? then [entries[0]] else []) + UnrequiredEntries(entries[1..])
  }

  /** The required entries: `required` is set and true. An entry whose
      `required` is set to false is in neither list. */
  function RequiredEntries(entries: seq<Entry>): (r: seq<Entry>)
    ensures forall e :: e in r <==> e in entries && e.required == Some(true)
  {
    if entries == [] then []
    else
      assert entries == [entries[0]] + entries[1..];
      (if entries[0].required == Some(true) then [entries[0]] else []) + RequiredEntries(entries[1..])
  }

  /** `array_column($entries, 'object')` of validated entries. */
  function Objects(entries: seq<Entry>): (r: seq<ConditionKind>)
    requires forall i :: 0 <= i < |entries| ==> entries[i].instance.Some? && entries[i].instance.value.Condition?
    ensures |r| == |entries|
    ensures forall i :: 0 <= i < |entries| ==> r[i] == entries[i].instance.value.kind
  {
    if entries == [] then []
    else [entries[0].instance.value.kind] + Objects(entries[1..])
  }

  // ---------------------------------------------------------------------------
  // sortConditions: a stable sort by ascending sort_order
  // ---------------------------------------------------------------------------

  function SortKey(e: Entry): int
  {
    if e.sortOrder.Some? then e.sortOrder.value else 0
  }

  predicate SortedByKey(s: seq<Entry>)
  {
    forall i, j :: 0 <= i < j < |s| ==> SortKey(s[i]) <= SortKey(s[j])
  }

  /** Inserts `e` after every entry whose key is not larger. */
  function Insert(e: Entry, sorted: seq<Entry>): (r: seq<Entry>)
    ensures multiset(r) == multiset(sorted) + multiset{e}
    ensures |r| == |sorted| + 1
  {
    if sorted == [] then [e]
    else
      var last := sorted[|sorted| - 1];
      var init := sorted[..|sorted| - 1];
      assert sorted == init + [last];
      if SortKey(last) <= SortKey(e) then sorted + [e] else Insert(e, init) + [last]
  }

  /** Appending an entry whose key is not smaller than any keeps the order. */
  lemma AppendSorted(s: seq<Entry>, x: Entry)
    requires SortedByKey(s)
    requires forall y :: y in s ==> SortKey(y) <= SortKey(x)
    ensures SortedByKey(s + [x])
  {
    forall i, j | 0 <= i < j < |s| + 1
      ensures SortKey((s + [x])[i]) <= SortKey((s + [x])[j])
    {
      if j == |s| {
        assert (s + [x])[i] == s[i] && s[i] in s;
      }
    }
  }

  lemma {:induction false} InsertSorted(e: Entry, sorted: seq<Entry>)
    requires SortedByKey(sorted)
    ensures SortedByKey(Insert(e, sorted))
    ensures forall x :: x in Insert(e, sorted) <==> x == e || x in sorted
  {
    if sorted == [] {
    } else {
      var last := sorted[|sorted| - 1];
      var init := sorted[..|sorted| - 1];
      assert sorted == init + [last];
      if SortKey(last) <= SortKey(e) {
        forall y | y in sorted
          ensures SortKey(y) <= SortKey(e)
        {
          var k :| 0 <= k < |sorted| && sorted[k] == y;
        }
        AppendSorted(sorted, e);
      } else {
        InsertSorted(e, init);
        var r := Insert(e, init);
        forall y | y in r
          ensures SortKey(y) <= SortKey(last)
        {
          if y != e {
            var k :| 0 <= k < |init| && init[k] == y;
            assert sorted[k] == y;
          }
        }
        AppendSorted(r, last);
      }
    }
  }

  /** usort by ascending `sort_order` (stable, as PHP 8's sort is). */
  function SortConditions(entries: seq<Entry>): (r: seq<Entry>)
    ensures multiset(r) == multiset(entries)
  {
    if entries == [] then []
    else
      var init := entries[..|entries| - 1];
      assert entries == init + [entries[|entries| - 1]];
      Insert(entries[|entries| - 1], SortConditions(init))
  }

  /** The sorted list is in ascending `sort_order` and holds the same entries. */
  lemma {:induction false} SortConditionsSorted(entries: seq<Entry>)
    ensures SortedByKey(SortConditions(entries))
    ensures forall e :: e in SortConditions(entries) <==> e in entries
  {
    if entries != [] {
      var init := entries[..|entries| - 1];
      assert entries == init + [entries[|entries| - 1]];
      SortConditionsSorted(init);
      InsertSorted(entries[|entries| - 1], SortConditions(init));
    }
  }

  /** Entries with equal `sort_order` keep their configured order: the sort
      leaves the sub-sequence of every key as it was. */
  function WithKey(s: seq<Entry>, k: int): (r: seq<Entry>)
    ensures |r| <= |s|
  {
    if s == [] then []
    else WithKey(s[..|s| - 1], k) + (if SortKey(s[|s| - 1]) == k then [s[|s| - 1]] else [])
  }

  lemma {:induction false} WithKeyAppend(a: seq<Entry>, b: seq<Entry>, k: int)
    ensures WithKey(a + b, k) == WithKey(a, k) + WithKey(b, k)
  {
    if b != [] {
      var init := b[..|b| - 1];
      assert (a + b)[..|a + b| - 1] == a + init;
      WithKeyAppend(a, init, k);
    } else {
      assert a + b == a;
    }
  }

  lemma {:induction false} InsertStable(e: Entry, sorted: seq<Entry>, k: int)
    ensures WithKey(Insert(e, sorted), k) == WithKey(sorted, k) + WithKey([e], k)
  {
    if sorted != [] {
      var last := sorted[|sorted| - 1];
      var init := sorted[..|sorted| - 1];
      assert sorted == init + [last];
      if SortKey(last) <= SortKey(e) {
        WithKeyAppend(sorted, [e], k);
      } else {
        InsertStable(e, init, k);
        WithKeyAppend(Insert(e, init), [last], k);
        WithKeyAppend(init, [last], k);
        if SortKey(e) == k {
          assert WithKey([last], k) == [];
        }
      }
    }
  }

  lemma {:induction false} SortConditionsStable(entries: seq<Entry>, k: int)
    ensures WithKey(SortConditions(entries), k) == WithKey(entries, k)
  {
    if entries != [] {
      var init := entries[..|entries| - 1];
      var last := entries[|entries| - 1];
      assert entries == init + [last];
      SortConditionsStable(init, k);
      InsertStable(last, SortConditions(init), k);
      WithKeyAppend(init, [last], k);
    }
  }

  // ---------------------------------------------------------------------------
  // The chain's decision, SKU by SKU
  // ---------------------------------------------------------------------------

  /** Every one of the first `k` conditions answers `true`. */
  predicate AllBefore(conds: seq<ConditionKind>, k: int, st: Store, s: Sku, sid: StockId)
  {
    forall j :: 0 <= j < k && j < |conds| ==> Rule(conds[j], st, s, sid)
  }

  /** Some one of the first `k` conditions answers `true`. */
  predicate AnyBefore(conds: seq<ConditionKind>, k: int, st: Store, s: Sku, sid: StockId)
  {
    exists j :: 0 <= j < k && j < |conds| && Rule(conds[j], st, s, sid)
  }

  /** The chain's verdict: every required condition and some optional one say
      `true`. */
  predicate Salable(required: seq<ConditionKind>, optional: seq<ConditionKind>, st: Store, s: Sku, sid: StockId)
  {
    AllBefore(required, |required|, st, s, sid) && AnyBefore(optional, |optional|, st, s, sid)
  }

  /** The batch the `k`-th required condition receives. */
  predicate ReachesRequired(required: seq<ConditionKind>, k: int, st: Store, s: Sku, sid: StockId)
  {
    AllBefore(required, k, st, s, sid)
  }

  /** The batch the `k`-th optional condition receives. */
  predicate ReachesOptional(required: seq<ConditionKind>, optional: seq<ConditionKind>, k: int, st: Store, s: Sku, sid: StockId)
  {
    AllBefore(required, |required|, st, s, sid) && !AnyBefore(optional, k, st, s, sid)
  }

  /** One of the first `n` required conditions is `WithReservations` and
      receives a non-empty batch. */
  predicate RequiredReservationsBefore(required: seq<ConditionKind>, n: int, st: Store, skus: seq<Sku>, sid: StockId)
  {
    exists k, s :: 0 <= k < n && k < |required| && required[k] == WithReservations && s in skus && ReachesRequired(required, k, st, s, sid)
  }

  /** One of the first `n` optional conditions is `WithReservations` and
      receives a non-empty batch. */
  predicate OptionalReservationsBefore(required: seq<ConditionKind>, optional: seq<ConditionKind>, n: int, st: Store, skus: seq<Sku>, sid: StockId)
  {
    exists k, s :: 0 <= k < n && k < |optional| && optional[k] == WithReservations && s in skus && ReachesOptional(required, optional, k, st, s, sid)
  }

  /** Every SKU that reaches a required `WithReservations` condition has the
      stock configuration that condition reads. */
  predicate RequiredConfigured(required: seq<ConditionKind>, st: Store, skus: seq<Sku>, sid: StockId)
  {
    forall k, s :: 0 <= k < |required| && required[k] == WithReservations && s in skus && ReachesRequired(required, k, st, s, sid) ==>
      ConfigurationPresent(st, s, sid)
  }

  /** Every SKU that reaches an optional `WithReservations` condition has the
      stock configuration that condition reads. */
  predicate OptionalConfigured(required: seq<ConditionKind>, optional: seq<ConditionKind>, st: Store, skus: seq<Sku>, sid: StockId)
  {
    forall k, s :: 0 <= k < |optional| && optional[k] == WithReservations && s in skus && ReachesOptional(required, optional, k, st, s, sid) ==>
      ConfigurationPresent(st, s, sid)
  }

  predicate RequiredReservationsReached(required: seq<ConditionKind>, st: Store, skus: seq<Sku>, sid: StockId)
  {
    RequiredReservationsBefore(required, |required|, st, skus, sid)
  }

  predicate OptionalReservationsReached(required: seq<ConditionKind>, optional: seq<ConditionKind>, st: Store, skus: seq<Sku>, sid: StockId)
  {
    OptionalReservationsBefore(required, optional, |optional|, st, skus, sid)
  }

  /** `batches[k]` is the working set the k-th required condition receives. */
  ghost predicate RequiredLog(batches: seq<seq<Sku>>, required: seq<ConditionKind>, st: Store, skus: seq<Sku>, sid: StockId)
  {
    forall k, s :: 0 <= k < |batches| ==> (s in batches[k] <==> s in skus && ReachesRequired(required, k, st, s, sid))
  }

  /** `batches[k]` is the working set the k-th optional condition receives. */
  ghost predicate OptionalLog(batches: seq<seq<Sku>>, required: seq<ConditionKind>, optional: seq<ConditionKind>, st: Store, skus: seq<Sku>, sid: StockId)
  {
    forall k, s :: 0 <= k < |batches| ==> (s in batches[k] <==> s in skus && ReachesOptional(required, optional, k, st, s, sid))
  }

  predicate ChainFails(required: seq<ConditionKind>, optional: seq<ConditionKind>, st: Store, skus: seq<Sku>, sid: StockId)
  {
    QueryFails(st, sid) &&
    (RequiredReservationsReached(required, st, skus, sid) || OptionalReservationsReached(required, optional, st, skus, sid))
  }

  // ---------------------------------------------------------------------------
  // The condition objects and the chain
  // ---------------------------------------------------------------------------

  /** The five condition objects, wired to one set of request-scoped loaders. */
  class SalableConditions {
    const store: Store
    const configurations: GetStockItemsConfigurations
    const stockData: GetStockItemsData
    const reservations: GetReservationsQuantities
    const manageStock: ManageStockCondition.ManageStockCondition
    const backOrder: BackOrderCondition.BackOrderCondition
    const anySourceItemInStock: AnySourceItemInStockCondition.IsAnySourceItemInStockCondition
    const compositeInStock: CompositeInStockCondition.IsSetInStockStatusForCompositeProductsCondition
    const withReservations: AreSalableWithReservationsCondition

    ghost predicate Valid()
      reads configurations.legacy, configurations.assignment, stockData, reservations
    {
      && configurations.Valid() && stockData.Valid() && reservations.Valid()
      && configurations.store == store && stockData.store == store && reservations.store == store
      && manageStock.configurations == configurations
      && backOrder.configurations == configurations
      && anySourceItemInStock.manageStock == manageStock
      && compositeInStock.configurations == configurations
      && withReservations.configurations == configurations
      && withReservations.stockData == stockData
      && withReservations.reservations == reservations
    }

    constructor (configurations: GetStockItemsConfigurations, stockData: GetStockItemsData, reservations: GetReservationsQuantities)
      requires configurations.Valid() && stockData.Valid() && reservations.Valid()
      requires stockData.store == configurations.store && reservations.store == configurations.store
      ensures Valid()
      ensures store == configurations.store
      ensures this.configurations == configurations && this.stockData == stockData && this.reservations == reservations
    {
      store := configurations.store;
      this.configurations := configurations;
      this.stockData := stockData;
      this.reservations := reservations;
      var manage := new ManageStockCondition.ManageStockCondition(configurations);
      manageStock := manage;
      backOrder := new BackOrderCondition.BackOrderCondition(configurations);
      anySourceItemInStock := new AnySourceItemInStockCondition.IsAnySourceItemInStockCondition(manage);
      compositeInStock := new CompositeInStockCondition.IsSetInStockStatusForCompositeProductsCondition(configurations);
      withReservations := new AreSalableWithReservationsCondition(configurations, stockData, reservations);
    }

    /** Runs condition `kind` on a batch. */
    method Run(kind: ConditionKind, skus: seq<Sku>, stockId: StockId) returns (r: Result<map<Sku, bool>, InventoryError>)
      requires Valid()
      requires kind == WithReservations ==> forall s :: s in skus ==> ConfigurationPresent(store, s, stockId)
      modifies configurations.legacy, configurations.assignment, stockData, reservations
      ensures Valid()
      ensures r.Failure? <==> kind == WithReservations && |skus| > 0 && QueryFails(store, stockId)
      ensures r.Success? ==> forall s :: s in r.value <==> s in skus
      ensures r.Success? ==> forall s :: s in r.value ==> r.value[s] == Rule(kind, store, s, stockId)
    {
      match kind {
        case ManageStock =>
          var m := manageStock.Execute(skus, stockId);
          r := Success(m);
        case BackOrder =>
          var m := backOrder.Execute(skus, stockId);
          r := Success(m);
        case AnySourceItemInStock =>
          var m := anySourceItemInStock.Execute(skus, stockId);
          r := Success(m);
        case CompositeInStock =>
          var m := compositeInStock.Execute(skus, stockId);
          r := Success(m);
        case WithReservations =>
          r := withReservations.Execute(skus, stockId);
      }
    }
  }

  /** Stepping the "all of the first k" predicate. */
  lemma AllBeforeStep(conds: seq<ConditionKind>, k: int, st: Store, s: Sku, sid: StockId)
    requires 0 <= k < |conds|
    ensures AllBefore(conds, k + 1, st, s, sid) <==> AllBefore(conds, k, st, s, sid) && Rule(conds[k], st, s, sid)
  {
  }

  /** Stepping the "some of the first k" predicate. */
  lemma AnyBeforeStep(conds: seq<ConditionKind>, k: int, st: Store, s: Sku, sid: StockId)
    requires 0 <= k < |conds|
    ensures AnyBefore(conds, k + 1, st, s, sid) <==> AnyBefore(conds, k, st, s, sid) || Rule(conds[k], st, s, sid)
  {
  }

  /** The first loop of `execute`: every SKU defaults to `false`. */
  method DefaultResults(skus: seq<Sku>) returns (final: map<Sku, bool>)
    ensures forall s :: s in final <==> s in skus
    ensures forall s :: s in final ==> !final[s]
  {
    final := map[];
    var i := 0;
    while i < |skus|
      invariant 0 <= i <= |skus|
      invariant forall s :: s in final <==> s in skus[..i]
      invariant forall s :: s in final ==> !final[s]
    {
      assert skus[..i + 1] == skus[..i] + [skus[i]];
      final := final[skus[i] := false];
      i := i + 1;
    }
    assert skus[..i] == skus;
  }

  /** After a required condition: every SKU it answers `false` is final
      `false` and leaves the working set. */
  method DropFalse(results: map<Sku, bool>, toCheck: seq<Sku>, final: map<Sku, bool>)
    returns (remaining: seq<Sku>, updated: map<Sku, bool>)
    requires Distinct(toCheck)
    requires forall s :: s in results <==> s in toCheck
    ensures Distinct(remaining)
    ensures forall s :: s in remaining <==> s in toCheck && results[s]
    ensures forall s :: s in updated <==> s in final || (s in results && !results[s])
    ensures forall s :: s in updated ==> updated[s] == if s in results && !results[s] then false else final[s]
  {
    remaining := toCheck;
    updated := final;
    var todo := results.Keys;
    while todo != {}
      invariant todo <= results.Keys
      invariant Distinct(remaining)
      invariant forall s :: s in remaining <==> s in toCheck && (s !in todo ==> results[s])
      invariant forall s :: s in updated <==> s in final || (s in results && s !in todo && !results[s])
      invariant forall s :: s in updated ==>
        updated[s] == if s in results && s !in todo && !results[s] then false else final[s]
      decreases todo
    {
      var s :| s in todo;
      if !results[s] {
        updated := updated[s := false];
        remaining := Without(remaining, {s});
      }
      todo := todo - {s};
    }
  }

  /** After an optional condition: every SKU it answers `true` is final
      `true` and leaves the working set. */
  method KeepTrue(results: map<Sku, bool>, toCheck: seq<Sku>, final: map<Sku, bool>)
    returns (remaining: seq<Sku>, updated: map<Sku, bool>)
    requires Distinct(toCheck)
    requires forall s :: s in results <==> s in toCheck
    ensures Distinct(remaining)
    ensures forall s :: s in remaining <==> s in toCheck && !results[s]
    ensures forall s :: s in updated <==> s in final || (s in results && results[s])
    ensures forall s :: s in updated ==> updated[s] == if s in results && results[s] then true else final[s]
  {
    remaining := toCheck;
    updated := final;
    var todo := results.Keys;
    while todo != {}
      invariant todo <= results.Keys
      invariant Distinct(remaining)
      invariant forall s :: s in remaining <==> s in toCheck && (s !in todo ==> !results[s])
      invariant forall s :: s in updated <==> s in final || (s in results && s !in todo && results[s])
      invariant forall s :: s in updated ==>
        updated[s] == if s in results && s !in todo && results[s] then true else final[s]
      decreases todo
    {
      var s :| s in todo;
      if results[s] {
        updated := updated[s := true];
        remaining := Without(remaining, {s});
      }
      todo := todo - {s};
    }
  }

  /** The conditions of validated entries. */
  function RequiredConditions(entries: seq<Entry>): seq<ConditionKind>
    requires FirstError(entries).None?
  {
    FirstErrorNone(entries);
    var required := RequiredEntries(entries);
    assert forall i :: 0 <= i < |required| ==> required[i] in required;
    Objects(required)
  }

  function UnrequiredConditions(entries: seq<Entry>): seq<ConditionKind>
    requires FirstError(entries).None?
  {
    FirstErrorNone(entries);
    var unrequired := UnrequiredEntries(entries);
    SortConditionsSorted(unrequired);
    var sorted := SortConditions(unrequired);
    assert forall i :: 0 <= i < |sorted| ==> sorted[i] in sorted;
    Objects(sorted)
  }

  class AreProductsSalableConditionChain {
    const unrequiredConditions: seq<ConditionKind>
    const requiredConditions: seq<ConditionKind>
    const conditions: SalableConditions

    /** setConditions of entries that passed validation. */
    constructor (entries: seq<Entry>, conditions: SalableConditions)
      requires FirstError(entries).None?
      ensures unrequiredConditions == UnrequiredConditions(entries)
      ensures requiredConditions == RequiredConditions(entries)
      ensures this.conditions == conditions
    {
      unrequiredConditions := UnrequiredConditions(entries);
      requiredConditions := RequiredConditions(entries);
      this.conditions := conditions;
    }

    /** Construction: a configuration that fails validation raises the first
        entry's error. */
    static method Create(entries: seq<Entry>, conditions: SalableConditions)
      returns (r: Result<AreProductsSalableConditionChain, ConfigError>)
      ensures r.Failure? <==> FirstError(entries).Some?
      ensures r.Failure? ==> r.error == FirstError(entries).value
      ensures r.Success? ==> fresh(r.value)
      ensures r.Success? ==> r.value.conditions == conditions
      ensures r.Success? ==> r.value.requiredConditions == RequiredConditions(entries)
      ensures r.Success? ==> r.value.unrequiredConditions == UnrequiredConditions(entries)
    {
      var err := ValidateConditions(entries);
      if err.Some? {
        return Failure(err.value);
      }
      var chain := new AreProductsSalableConditionChain(entries, conditions);
      return Success(chain);
    }

    /** The loop over the required conditions: a SKU that one of them
        answers `false` for is dropped from the working set. */
    method RunRequired(skus: seq<Sku>, stockId: StockId, final: map<Sku, bool>)
      returns (failure: Option<InventoryError>, toCheck: seq<Sku>, updated: map<Sku, bool>, ghost batches: seq<seq<Sku>>)
      requires conditions.Valid()
      requires RequiredConfigured(requiredConditions, conditions.store, skus, stockId)
      requires forall s :: s in final <==> s in skus
      requires forall s :: s in final ==> !final[s]
      modifies conditions.configurations.legacy, conditions.configurations.assignment
      modifies conditions.stockData, conditions.reservations
      ensures conditions.Valid()
      ensures failure.Some? <==>
        QueryFails(conditions.store, stockId) && RequiredReservationsReached(requiredConditions, conditions.store, skus, stockId)
      ensures failure.None? ==> Distinct(toCheck)
      ensures failure.None? ==> forall s :: s in toCheck <==>
        s in skus && AllBefore(requiredConditions, |requiredConditions|, conditions.store, s, stockId)
      ensures failure.None? ==> (forall s :: s in updated <==> s in skus) && (forall s :: s in updated ==> !updated[s])
      ensures failure.None? ==> |batches| == |requiredConditions|
      ensures failure.None? ==> RequiredLog(batches, requiredConditions, conditions.store, skus, stockId)
    {
      var st := conditions.store;
      var reqs := requiredConditions;
      updated := final;
      toCheck := Dedup(skus);
      batches := [];
      var i := 0;
      while i < |reqs|
        invariant 0 <= i <= |reqs|
        invariant conditions.Valid()
        invariant Distinct(toCheck)
        invariant forall s :: s in toCheck <==> s in skus && ReachesRequired(reqs, i, st, s, stockId)
        invariant forall s :: s in updated <==> s in skus
        invariant forall s :: s in updated ==> !updated[s]
        invariant |batches| == i
        invariant RequiredLog(batches, reqs, st, skus, stockId)
        invariant QueryFails(st, stockId) ==> !RequiredReservationsBefore(reqs, i, st, skus, stockId)
      {
        var res := conditions.Run(reqs[i], toCheck, stockId);
        if res.Failure? {
          assert reqs[i] == WithReservations && toCheck[0] in skus && ReachesRequired(reqs, i, st, toCheck[0], stockId);
          return Some(res.error), toCheck, updated, batches;
        }
        batches := batches + [toCheck];
        forall s | s in toCheck
          ensures ReachesRequired(reqs, i + 1, st, s, stockId) <==> res.value[s]
        {
          AllBeforeStep(reqs, i, st, s, stockId);
        }
        toCheck, updated := DropFalse(res.value, toCheck, updated);
        i := i + 1;
      }
      failure := None;
    }

    /** The loop over the optional conditions: a SKU that one of them answers
        `true` for is final `true` and leaves the working set. */
    method RunOptional(skus: seq<Sku>, stockId: StockId, toCheck: seq<Sku>, final: map<Sku, bool>)
      returns (failure: Option<InventoryError>, updated: map<Sku, bool>, ghost batches: seq<seq<Sku>>)
      requires conditions.Valid()
      requires OptionalConfigured(requiredConditions, unrequiredConditions, conditions.store, skus, stockId)
      requires Distinct(toCheck)
      requires forall s :: s in toCheck <==>
        s in skus && AllBefore(requiredConditions, |requiredConditions|, conditions.store, s, stockId)
      requires forall s :: s in final <==> s in skus
      requires forall s :: s in final ==> !final[s]
      modifies conditions.configurations.legacy, conditions.configurations.assignment
      modifies conditions.stockData, conditions.reservations
      ensures conditions.Valid()
      ensures failure.Some? <==>
        QueryFails(conditions.store, stockId) && OptionalReservationsReached(requiredConditions, unrequiredConditions, conditions.store, skus, stockId)
      ensures failure.None? ==> forall s :: s in updated <==> s in skus
      ensures failure.None? ==> forall s :: s in updated ==>
        updated[s] == Salable(requiredConditions, unrequiredConditions, conditions.store, s, stockId)
      ensures failure.None? ==> |batches| == |unrequiredConditions|
      ensures failure.None? ==> OptionalLog(batches, requiredConditions, unrequiredConditions, conditions.store, skus, stockId)
    {
      var st := conditions.store;
      var reqs := requiredConditions;
      var opts := unrequiredConditions;
      var working := toCheck;
      updated := final;
      batches := [];
      var j := 0;
      while j < |opts|
        invariant 0 <= j <= |opts|
        invariant conditions.Valid()
        invariant Distinct(working)
        invariant forall s :: s in working <==> s in skus && ReachesOptional(reqs, opts, j, st, s, stockId)
        invariant forall s :: s in updated <==> s in skus
        invariant forall s :: s in updated ==>
          updated[s] == (AllBefore(reqs, |reqs|, st, s, stockId) && AnyBefore(opts, j, st, s, stockId))
        invariant |batches| == j
        invariant OptionalLog(batches, reqs, opts, st, skus, stockId)
        invariant QueryFails(st, stockId) ==> !OptionalReservationsBefore(reqs, opts, j, st, skus, stockId)
      {
        var res := conditions.Run(opts[j], working, stockId);
        if res.Failure? {
          assert opts[j] == WithReservations && working[0] in skus && ReachesOptional(reqs, opts, j, st, working[0], stockId);
          return Some(res.error), updated, batches;
        }
        batches := batches + [working];
        forall s | s in skus
          ensures AnyBefore(opts, j + 1, st, s, stockId) <==> AnyBefore(opts, j, st, s, stockId) || Rule(opts[j], st, s, stockId)
        {
          AnyBeforeStep(opts, j, st, s, stockId);
        }
        working, updated := KeepTrue(res.value, working, updated);
        j := j + 1;
      }
      failure := None;
    }

    /** The chain's answer for every SKU. `batches` records the working set each
        condition received: the required conditions' first, then the optional
        conditions'. */
    method Execute(skus: seq<Sku>, stockId: StockId)
      returns (r: Result<map<Sku, bool>, InventoryError>, ghost batches: seq<seq<Sku>>)
      requires conditions.Valid()
      requires RequiredConfigured(requiredConditions, conditions.store, skus, stockId)
      requires OptionalConfigured(requiredConditions, unrequiredConditions, conditions.store, skus, stockId)
      modifies conditions.configurations.legacy, conditions.configurations.assignment
      modifies conditions.stockData, conditions.reservations
      ensures conditions.Valid()
      ensures r.Failure? <==> ChainFails(requiredConditions, unrequiredConditions, conditions.store, skus, stockId)
      ensures r.Success? ==> forall s :: s in r.value <==> s in skus
      ensures r.Success? ==> forall s :: s in r.value ==>
        r.value[s] == Salable(requiredConditions, unrequiredConditions, conditions.store, s, stockId)
      ensures r.Success? ==> |batches| == |requiredConditions| + |unrequiredConditions|
      ensures r.Success? ==> RequiredLog(batches[..|requiredConditions|], requiredConditions, conditions.store, skus, stockId)
      ensures r.Success? ==> OptionalLog(batches[|requiredConditions|..], requiredConditions, unrequiredConditions, conditions.store, skus, stockId)
    {
      var final := DefaultResults(skus);
      var failure, toCheck, afterRequired, requiredBatches := RunRequired(skus, stockId, final);
      if failure.Some? {
        return Failure(failure.value), requiredBatches;
      }
      var failure', salable, optionalBatches := RunOptional(skus, stockId, toCheck, afterRequired);
      batches := requiredBatches + optionalBatches;
      assert batches[..|requiredBatches|] == requiredBatches;
      assert batches[|requiredBatches|..] == optionalBatches;
      if failure'.Some? {
        return Failure(failure'.value), batches;
      }
      return Success(salable), batches;
    }
  }
}
