/** The reset transaction of the E2E finance fixture over its tables. */
module FixtureReset {
  import opened Options
  import opened LiquidationStatus

  datatype Liquidation = Liquidation(tenant: string, building: string, period: string, status: Status)

  datatype Charge = Charge(liquidation: Option<string>, chargedUnit: string)

  datatype Income = Income(tenant: string, description: Option<string>)

  datatype Application = Application(tenant: string, income: string)

  datatype Offset = Offset(liquidation: string, application: string)

  datatype FundTransaction = FundTransaction(
    tenant: string,
    application: Option<string>,
    description: Option<string>,
    idempotencyKey: Option<string>,
    reversalOf: Option<string>)

  datatype Unit = Unit(tenant: string, building: string, code: string)

  /** A payment applied to a charge. */
  datatype PaymentAllocation = PaymentAllocation(charge: string)

  /**
   * A row of the other tables with keys to units: it goes with its units when the keys cascade, and loses them when
   * they are set to null.
   */
  datatype UnitReference = UnitReference(units: set<string>, cascades: bool)

  /** Every table by row id. */
  datatype Tables = Tables(
    liquidations: map<string, Liquidation>,
    charges: map<string, Charge>,
    incomes: map<string, Income>,
    applications: map<string, Application>,
    offsets: map<string, Offset>,
    transactions: map<string, FundTransaction>,
    units: map<string, Unit>,
    paymentAllocations: map<string, PaymentAllocation>,
    unitReferences: map<string, UnitReference>)

  datatype Baseline = Baseline(tenantA: string, buildingA1: string)

  datatype ResetError =
    ForeignTenant | ForeignBuilding | ForeignPeriod | ForbiddenStatus | HasCharges | RetainedOffsets | ForeignKey

  const MUTABLE_MARKER := "[FIN07D:E2E:MUTABLE]"
  const DISPOSABLE_UNIT_PREFIX := "E2E-"
  const NORMAL_V3_PERIOD := "2026-06"
  const ZERO_NET_PERIOD := "2026-07"

  /** The legacy incomes whose applications a reset removes. */
  const RESETTABLE_LEGACY := {
    "seed-legacy-backfill-auto-offset-2025-10",
    "seed-legacy-backfill-reserve-fund-2025-09",
    "seed-legacy-backfill-special-fund-2025-08",
    "seed-legacy-backfill-conflict-2025-12"}

  predicate Tagged(text: Option<string>) {
    text.Some? && MUTABLE_MARKER <= text.value
  }

  // ---- What a reset selects ----

  function OwnershipError(l: Liquidation, b: Baseline): Option<ResetError> {
    if l.tenant != b.tenantA then Some(ForeignTenant)
    else if l.building != b.buildingA1 then Some(ForeignBuilding)
    else if l.period != NORMAL_V3_PERIOD && l.period != ZERO_NET_PERIOD then Some(ForeignPeriod)
    else if !l.status.Draft? && !l.status.Reviewed? then Some(ForbiddenStatus)
    else None
  }

  function DisposableIncomes(t: Tables, b: Baseline): set<string> {
    set id | id in t.incomes && t.incomes[id].tenant == b.tenantA && Tagged(t.incomes[id].description)
  }

  function DoomedApplications(t: Tables, b: Baseline): set<string> {
    set id | id in t.applications && t.applications[id].tenant == b.tenantA
          && t.applications[id].income in DisposableIncomes(t, b) + RESETTABLE_LEGACY
  }

  function DoomedTransactions(t: Tables, b: Baseline): set<string> {
    set id | id in t.transactions && t.transactions[id].tenant == b.tenantA
          && ((t.transactions[id].application.Some? && t.transactions[id].application.value in DoomedApplications(t, b))
              || Tagged(t.transactions[id].description)
              || Tagged(t.transactions[id].idempotencyKey))
  }

  function Reversals(t: Tables, ids: set<string>): set<string> {
    set id | id in t.transactions && t.transactions[id].reversalOf.Some? && t.transactions[id].reversalOf.value in ids
  }

  function DisposableUnits(t: Tables, b: Baseline): set<string> {
    set id | id in t.units && t.units[id].tenant == b.tenantA && t.units[id].building == b.buildingA1
          && DISPOSABLE_UNIT_PREFIX <= t.units[id].code
  }

  /** The charges that go with their units. */
  function ChargesOfUnits(t: Tables, units: set<string>): set<string> {
    set id | id in t.charges && t.charges[id].chargedUnit in units
  }

  // ---- References ----

  predicate ChargeRefersTo(t: Tables, liquidations: set<string>) {
    exists id :: id in t.charges && t.charges[id].liquidation.Some? && t.charges[id].liquidation.value in liquidations
  }

  predicate OffsetRefersTo(t: Tables, applications: set<string>) {
    exists id :: id in t.offsets && t.offsets[id].application in applications
  }

  predicate TransactionRefersTo(t: Tables, applications: set<string>) {
    exists id :: id in t.transactions && t.transactions[id].application.Some?
              && t.transactions[id].application.value in applications
  }

  predicate ApplicationRefersTo(t: Tables, incomes: set<string>) {
    exists id :: id in t.applications && t.applications[id].income in incomes
  }

  predicate AllocationRefersTo(t: Tables, charges: set<string>) {
    exists id :: id in t.paymentAllocations && t.paymentAllocations[id].charge in charges
  }

  // ---- The deleteMany statements ----

  /** Deleting liquidations deletes their offsets with them. */
  function DeleteLiquidations(t: Tables, ids: set<string>): Tables {
    t.(liquidations := t.liquidations - ids,
       offsets := map id | id in t.offsets && t.offsets[id].liquidation !in ids :: t.offsets[id])
  }

  /** A reversal keeps the transaction it reverses from being deleted. */
  function DeleteTransactions(t: Tables, ids: set<string>): Result<Tables, ResetError> {
    if Reversals(t, ids) <= ids then Ok(t.(transactions := t.transactions - ids)) else Err(ForeignKey)
  }

  /** So does a transaction the application that manages it; offsets go with their application. */
  function DeleteApplications(t: Tables, ids: set<string>): Result<Tables, ResetError> {
    if TransactionRefersTo(t, ids) then Err(ForeignKey)
    else Ok(t.(applications := t.applications - ids,
               offsets := map id | id in t.offsets && t.offsets[id].application !in ids :: t.offsets[id]))
  }

  function DeleteIncomes(t: Tables, ids: set<string>): Result<Tables, ResetError> {
    if ApplicationRefersTo(t, ids) then Err(ForeignKey)
    else Ok(t.(incomes := t.incomes - ids))
  }

  /** What the deletion of units makes of the rows that refer to them. */
  function Unreferenced(t: Tables, units: set<string>): map<string, UnitReference> {
    map id | id in t.unitReferences && !(t.unitReferences[id].cascades && t.unitReferences[id].units * units != {}) ::
      t.unitReferences[id].(units := t.unitReferences[id].units - units)
  }

  /** Deleting a unit deletes its charges with it, unless a payment is allocated to one of them. */
  function DeleteUnits(t: Tables, ids: set<string>): Result<Tables, ResetError> {
    if AllocationRefersTo(t, ChargesOfUnits(t, ids)) then Err(ForeignKey)
    else Ok(t.(units := t.units - ids, charges := t.charges - ChargesOfUnits(t, ids),
               unitReferences := Unreferenced(t, ids)))
  }

  // ---- The transaction ----

  /** Everything the transaction leaves, if it commits. */
  function Remaining(t: Tables, ids: set<string>, b: Baseline): Tables {
    var apps, gone := DoomedApplications(t, b), DoomedTransactions(t, b);
    Tables(
      t.liquidations - ids,
      t.charges - ChargesOfUnits(t, DisposableUnits(t, b)),
      t.incomes - DisposableIncomes(t, b),
      t.applications - apps,
      map id | id in t.offsets && t.offsets[id].liquidation !in ids * t.liquidations.Keys :: t.offsets[id],
      t.transactions - (gone + Reversals(t, gone)),
      t.units - DisposableUnits(t, b),
      t.paymentAllocations,
      Unreferenced(t, DisposableUnits(t, b)))
  }

  /** Nothing that stays refers to an application, a transaction, an income or a charge that goes. */
  ghost predicate ManagedRowsFree(t: Tables, b: Baseline) {
    var apps, gone := DoomedApplications(t, b), DoomedTransactions(t, b);
    && !OffsetRefersTo(t, apps)
    && Reversals(t, Reversals(t, gone)) <= Reversals(t, gone)
    && !TransactionRefersTo(t.(transactions := t.transactions - (gone + Reversals(t, gone))), apps)
    && !ApplicationRefersTo(t.(applications := t.applications - apps), DisposableIncomes(t, b))
    && !AllocationRefersTo(t, ChargesOfUnits(t, DisposableUnits(t, b)))
  }

  /** Nothing that stays refers to what a reset would delete. */
  ghost predicate NothingRefers(t: Tables, ids: set<string>, b: Baseline) {
    var found := ids * t.liquidations.Keys;
    !ChargeRefersTo(t, found) && ManagedRowsFree(DeleteLiquidations(t, found), b)
  }

  /** When the transaction commits: it owns what it found, and nothing it keeps refers to what goes. */
  ghost predicate Resettable(t: Tables, ids: set<string>, b: Baseline) {
    && (forall id :: id in ids && id in t.liquidations ==> OwnershipError(t.liquidations[id], b).None?)
    && NothingRefers(t, ids, b)
  }

  /** A liquidation that a reset may delete. */
  predicate MayGo(l: Liquidation, b: Baseline) {
    && l.tenant == b.tenantA && l.building == b.buildingA1
    && (l.period == "2026-06" || l.period == "2026-07")
    && l.status in {Draft, Reviewed}
  }

  /** Which objection is made to a row. */
  lemma OwnershipErrorIs(l: Liquidation, b: Baseline)
    ensures OwnershipError(l, b).None? <==> MayGo(l, b)
    ensures OwnershipError(l, b) == Some(ForeignTenant) <==> l.tenant != b.tenantA
    ensures OwnershipError(l, b) == Some(ForeignBuilding) <==> l.tenant == b.tenantA && l.building != b.buildingA1
    ensures OwnershipError(l, b) == Some(ForbiddenStatus) <==>
              MayGo(l.(status := Draft), b) && (l.status == Published || l.status == Canceled)
  {
  }

  /** The validation loop: what was found, all of it owned, or the first objection. */
  method ValidateRegistered(t: Tables, registered: seq<string>, b: Baseline)
    returns (r: Result<set<string>, ResetError>)
    ensures r.Ok? ==> r.value == (set id | id in registered) * t.liquidations.Keys
    ensures r.Ok? <==> forall id :: id in registered && id in t.liquidations ==>
            OwnershipError(t.liquidations[id], b).None?
    ensures r.Err? ==> exists id :: id in registered && id in t.liquidations
                                    && OwnershipError(t.liquidations[id], b) == Some(r.error)
    // Owned are drafts and reviewed rows of the tenant's building A1 and of the two periods, and no others.
    ensures r.Ok? <==> forall id :: id in registered && id in t.liquidations ==> MayGo(t.liquidations[id], b)
  {
    var found: set<string> := {};
    for i := 0 to |registered|
      invariant found == set id | id in registered[..i] && id in t.liquidations
      invariant forall id :: id in found ==> OwnershipError(t.liquidations[id], b).None?
    {
      var id := registered[i];
      if id in t.liquidations {
        var e := OwnershipError(t.liquidations[id], b);
        if e.Some? {
          return Err(e.value);
        }
        found := found + {id};
      }
    }
    assert registered[..|registered|] == registered;
    return Ok(found);
  }

  /** The statements behind the liquidations, in order. */
  function DeleteManagedRows(t: Tables, b: Baseline): Result<Tables, ResetError> {
    var incomes, apps, gone := DisposableIncomes(t, b), DoomedApplications(t, b), DoomedTransactions(t, b);
    if OffsetRefersTo(t, apps) then Err(RetainedOffsets) else
      var t1 := DeleteTransactions(t, Reversals(t, gone));
      if t1.Err? then t1 else
        var t2 := DeleteTransactions(t1.value, gone);
        if t2.Err? then t2 else DeleteOwners(t2.value, apps, incomes, DisposableUnits(t, b))
  }

  /** The last three statements. */
  function DeleteOwners(t: Tables, apps: set<string>, incomes: set<string>, units: set<string>)
    : Result<Tables, ResetError>
  {
    var t3 := DeleteApplications(t, apps);
    if t3.Err? then t3 else
      var t4 := DeleteIncomes(t3.value, incomes);
      if t4.Err? then t4 else DeleteUnits(t4.value, units)
  }

  lemma TransactionsDeleted(t: Tables, gone: set<string>)
    ensures var t1 := DeleteTransactions(t, Reversals(t, gone)); (
            && (t1.Ok? <==> Reversals(t, Reversals(t, gone)) <= Reversals(t, gone))
            && (t1.Ok? ==>
                  DeleteTransactions(t1.value, gone)
                      == Ok(t.(transactions := t.transactions - (gone + Reversals(t, gone))))))
  {
    var t1 := DeleteTransactions(t, Reversals(t, gone));
    if t1.Ok? {
      assert Reversals(t1.value, gone) == {};
      assert t1.value.transactions - gone == t.transactions - (gone + Reversals(t, gone));
    }
  }

  lemma ApplicationsDeleted(t: Tables, apps: set<string>)
    requires !OffsetRefersTo(t, apps) && !TransactionRefersTo(t, apps)
    ensures DeleteApplications(t, apps) == Ok(t.(applications := t.applications - apps))
  {
    assert DeleteApplications(t, apps).value.offsets == t.offsets;
  }

  lemma OwnersDeleted(t: Tables, apps: set<string>, incomes: set<string>, units: set<string>)
    requires !OffsetRefersTo(t, apps)
    ensures DeleteOwners(t, apps, incomes, units).Ok? <==>
              && !TransactionRefersTo(t, apps)
              && !ApplicationRefersTo(t.(applications := t.applications - apps), incomes)
              && !AllocationRefersTo(t, ChargesOfUnits(t, units))
    ensures DeleteOwners(t, apps, incomes, units).Ok? ==>
              DeleteOwners(t, apps, incomes, units).value
              == t.(applications := t.applications - apps, incomes := t.incomes - incomes, units := t.units - units,
                    charges := t.charges - ChargesOfUnits(t, units), unitReferences := Unreferenced(t, units))
  {
    if !TransactionRefersTo(t, apps) {
      ApplicationsDeleted(t, apps);
      var t4 := t.(applications := t.applications - apps, incomes := t.incomes - incomes);
      SameUnitTables(t, t4, units);
    }
  }

  lemma SameUnitTables(t: Tables, t': Tables, units: set<string>)
    requires t'.charges == t.charges && t'.unitReferences == t.unitReferences
    requires t'.paymentAllocations == t.paymentAllocations
    ensures ChargesOfUnits(t', units) == ChargesOfUnits(t, units) && Unreferenced(t', units) == Unreferenced(t, units)
    ensures AllocationRefersTo(t', ChargesOfUnits(t', units)) == AllocationRefersTo(t, ChargesOfUnits(t, units))
  {
  }

  lemma SameApplications(t: Tables, t': Tables, ids: set<string>)
    requires t'.applications == t.applications
    ensures ApplicationRefersTo(t', ids) == ApplicationRefersTo(t, ids)
  {
    if ApplicationRefersTo(t, ids) {
      var id :| id in t.applications && t.applications[id].income in ids;
      assert t'.applications[id].income in ids;
    }
  }

  lemma DeleteManagedRowsIs(t: Tables, b: Baseline)
    ensures DeleteManagedRows(t, b).Ok? <==> ManagedRowsFree(t, b)
    ensures DeleteManagedRows(t, b).Ok? ==> DeleteManagedRows(t, b).value == Remaining(t, {}, b)
  {
    var apps, gone, units := DoomedApplications(t, b), DoomedTransactions(t, b), DisposableUnits(t, b);
    TransactionsDeleted(t, gone);
    NothingCascades(t, b);
    var t2 := t.(transactions := t.transactions - (gone + Reversals(t, gone)));
    assert OffsetRefersTo(t2, apps) == OffsetRefersTo(t, apps);
    if !OffsetRefersTo(t, apps) {
      OwnersDeleted(t2, apps, DisposableIncomes(t, b), units);
      SameUnitTables(t, t2, units);
      SameApplications(t.(applications := t.applications - apps), t2.(applications := t.applications - apps),
          DisposableIncomes(t, b));
    }
  }

  lemma NothingCascades(t: Tables, b: Baseline)
    ensures Remaining(t, {}, b).offsets == t.offsets && Remaining(t, {}, b).liquidations == t.liquidations
  {
  }

  class Database {
    var tables: Tables

    constructor (tables: Tables)
      ensures this.tables == tables
    {
      this.tables := tables;
    }

    /** Commits exactly when the rows allow it, and then leaves `Remaining`; otherwise changes nothing. */
    method ResetTransaction(registered: seq<string>, b: Baseline) returns (error: Option<ResetError>)
      modifies this
      ensures error.None? <==> Resettable(old(tables), (set id | id in registered), b)
      ensures error.None? <==> (
                && (forall id :: id in registered && id in old(tables).liquidations ==>
                      var l := old(tables).liquidations[id];
                      && l.tenant == b.tenantA && l.building == b.buildingA1
                      && (l.period == "2026-06" || l.period == "2026-07")
                      && (l.status == Draft || l.status == Reviewed))
                && NothingRefers(old(tables), (set id | id in registered), b))
      ensures tables == if error.None? then Remaining(old(tables), (set id | id in registered), b) else old(tables)
    {
      var owned := ValidateRegistered(tables, registered, b);
      if owned.Err? {
        return Some(owned.error);
      }
      var found := owned.value;
      if ChargeRefersTo(tables, found) {
        return Some(HasCharges);
      }
      var t := DeleteLiquidations(tables, found);
      LiquidationsGone(tables, (set id | id in registered), b);
      DeleteManagedRowsIs(t, b);
      var rest := DeleteManagedRows(t, b);
      if rest.Err? {
        return Some(rest.error);
      }
      tables := rest.value;
      return None;
    }
  }

  /** Deleting liquidations does not change what else is selected. */
  lemma SelectionsKept(t: Tables, ids: set<string>, b: Baseline)
    ensures var t' := DeleteLiquidations(t, ids); (
            && DisposableIncomes(t', b) == DisposableIncomes(t, b)
            && DoomedApplications(t', b) == DoomedApplications(t, b)
            && DoomedTransactions(t', b) == DoomedTransactions(t, b)
            && DisposableUnits(t', b) == DisposableUnits(t, b)
            && (forall xs :: Reversals(t', xs) == Reversals(t, xs)))
  {
    var t' := DeleteLiquidations(t, ids);
    assert DisposableIncomes(t', b) == DisposableIncomes(t, b);
    assert DoomedApplications(t', b) == DoomedApplications(t, b);
  }

  lemma LiquidationsGone(t: Tables, ids: set<string>, b: Baseline)
    ensures var found := ids * t.liquidations.Keys;
            var t' := DeleteLiquidations(t, found); (
            Remaining(t', {}, b) == Remaining(t, ids, b))
  {
    var found := ids * t.liquidations.Keys;
    var t' := DeleteLiquidations(t, found);
    SelectionsKept(t, found, b);
    assert Remaining(t', {}, b).liquidations == Remaining(t, ids, b).liquidations;
    assert Remaining(t', {}, b).offsets == Remaining(t, ids, b).offsets;
  }
}
