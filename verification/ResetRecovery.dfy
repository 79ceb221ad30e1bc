/** What a reset guarantees: by itself, repeated, and interrupted and re-run. */
module ResetRecovery {
  import opened Options
  import opened LiquidationStatus
  import opened FixtureReset

  // ---- One transaction ----

  /** A committed reset deletes owned or disposable rows only, and rewrites none of these tables. */
  lemma DeletesOnlyOwnedRows(t: Tables, ids: set<string>, b: Baseline)
    requires Resettable(t, ids, b)
    ensures var r := Remaining(t, ids, b); (
            && (forall id :: id in t.liquidations && id !in r.liquidations ==>
                  var l := t.liquidations[id];
                  && id in ids && l.tenant == b.tenantA && l.building == b.buildingA1
                  && (l.period == "2026-06" || l.period == "2026-07") && (l.status == Draft || l.status == Reviewed)
                  && forall c :: c in t.charges ==> t.charges[c].liquidation != Some(id))
            && (forall id :: id in t.offsets && id !in r.offsets ==> t.offsets[id].liquidation !in r.liquidations)
            && (forall id :: id in t.incomes && id !in r.incomes ==>
                  t.incomes[id].tenant == b.tenantA && Tagged(t.incomes[id].description))
            && (forall id :: id in t.applications && id !in r.applications ==>
                  t.applications[id].tenant == b.tenantA
                  && (t.applications[id].income in RESETTABLE_LEGACY
                      || (t.applications[id].income in t.incomes && t.applications[id].income !in r.incomes)))
            && (forall id :: id in t.units && id !in r.units ==>
                  t.units[id].tenant == b.tenantA && t.units[id].building == b.buildingA1
                  && DISPOSABLE_UNIT_PREFIX <= t.units[id].code)
            && (forall id :: id in t.charges && id !in r.charges ==>
                  t.charges[id].chargedUnit in t.units && t.charges[id].chargedUnit !in r.units))
    ensures var r := Remaining(t, ids, b); (
            && r.liquidations.Items <= t.liquidations.Items && r.charges.Items <= t.charges.Items
            && r.incomes.Items <= t.incomes.Items && r.applications.Items <= t.applications.Items
            && r.offsets.Items <= t.offsets.Items && r.transactions.Items <= t.transactions.Items
            && r.units.Items <= t.units.Items && r.paymentAllocations == t.paymentAllocations)
  {
    var found := ids * t.liquidations.Keys;
    forall id, c | id in found && c in t.charges ensures t.charges[c].liquidation != Some(id) {
      assert !ChargeRefersTo(t, found);
    }
  }

  predicate Marked(text: Option<string>) {
    text.Some? && |text.value| >= 20 && text.value[..20] == "[FIN07D:E2E:MUTABLE]"
  }

  /** An application that goes: of tenant A, to a marked income of tenant A or to one of the four legacy incomes. */
  predicate ManagedApplication(t: Tables, a: Application, b: Baseline) {
    && a.tenant == b.tenantA
    && ((a.income in t.incomes && t.incomes[a.income].tenant == b.tenantA && Marked(t.incomes[a.income].description))
        || a.income == "seed-legacy-backfill-auto-offset-2025-10"
        || a.income == "seed-legacy-backfill-reserve-fund-2025-09"
        || a.income == "seed-legacy-backfill-special-fund-2025-08"
        || a.income == "seed-legacy-backfill-conflict-2025-12")
  }

  /** A transaction that goes by itself: of tenant A, marked or managed by an application that goes. */
  predicate ManagedTransaction(t: Tables, x: FundTransaction, b: Baseline) {
    && x.tenant == b.tenantA
    && (Marked(x.description) || Marked(x.idempotencyKey)
        || (x.application.Some? && x.application.value in t.applications
            && ManagedApplication(t, t.applications[x.application.value], b)))
  }

  /** Exactly the liquidations, incomes and applications that a commit deletes. */
  lemma DeletesExactly(t: Tables, ids: set<string>, b: Baseline)
    ensures var r := Remaining(t, ids, b); (
            && (forall id :: id in t.liquidations ==> (id !in r.liquidations <==> id in ids))
            && (forall id :: id in t.incomes ==> (id !in r.incomes <==>
                  t.incomes[id].tenant == b.tenantA && Marked(t.incomes[id].description)))
            && (forall id :: id in t.applications ==> (id !in r.applications <==>
                  ManagedApplication(t, t.applications[id], b))))
  {
  }

  /** And exactly the ledger transactions: the managed ones, and whatever reverses one of those. */
  lemma DeletesExactTransactions(t: Tables, ids: set<string>, b: Baseline)
    ensures var r := Remaining(t, ids, b);
            forall id :: id in t.transactions ==> (id !in r.transactions <==>
              || ManagedTransaction(t, t.transactions[id], b)
              || (var of := t.transactions[id].reversalOf;
                  of.Some? && of.value in t.transactions && ManagedTransaction(t, t.transactions[of.value], b)))
  {
    forall id | id in t.transactions
      ensures id in DoomedTransactions(t, b) <==> ManagedTransaction(t, t.transactions[id], b)
    {
    }
  }

  /** And exactly the units, with their charges, and the offsets of the liquidations that go. */
  lemma DeletesExactUnits(t: Tables, ids: set<string>, b: Baseline)
    ensures var r := Remaining(t, ids, b); (
            && (forall id :: id in t.units ==> (id !in r.units <==>
                  var u := t.units[id];
                  && u.tenant == b.tenantA && u.building == b.buildingA1
                  && |u.code| >= 4 && u.code[..4] == "E2E-"))
            && (forall id :: id in t.charges ==> (id !in r.charges <==>
                  t.charges[id].chargedUnit in t.units && t.charges[id].chargedUnit !in r.units))
            && (forall id :: id in t.offsets ==> (id !in r.offsets <==>
                  t.offsets[id].liquidation in t.liquidations && t.offsets[id].liquidation !in r.liquidations)))
  {
  }

  /** Every key of the tables refers to a row that is there. */
  ghost predicate KeysRefer(t: Tables) {
    && (forall id :: id in t.charges ==>
          && t.charges[id].chargedUnit in t.units
          && (t.charges[id].liquidation.Some? ==> t.charges[id].liquidation.value in t.liquidations))
    && (forall id :: id in t.applications ==> t.applications[id].income in t.incomes)
    && (forall id :: id in t.offsets ==>
          t.offsets[id].liquidation in t.liquidations && t.offsets[id].application in t.applications)
    && (forall id :: id in t.transactions ==>
          && (t.transactions[id].application.Some? ==> t.transactions[id].application.value in t.applications)
          && (t.transactions[id].reversalOf.Some? ==> t.transactions[id].reversalOf.value in t.transactions))
    && (forall id :: id in t.paymentAllocations ==> t.paymentAllocations[id].charge in t.charges)
    && (forall id :: id in t.unitReferences ==> t.unitReferences[id].units <= t.units.Keys)
  }

  predicate IsManaged(t: Tables, id: string, b: Baseline) {
    id in t.transactions && ManagedTransaction(t, t.transactions[id], b)
  }

  predicate ReversesManaged(t: Tables, id: string, b: Baseline) {
    id in t.transactions && t.transactions[id].reversalOf.Some? && IsManaged(t, t.transactions[id].reversalOf.value, b)
  }

  predicate ReversesReversal(t: Tables, id: string, b: Baseline) {
    && id in t.transactions && t.transactions[id].reversalOf.Some?
    && ReversesManaged(t, t.transactions[id].reversalOf.value, b)
  }

  /** A managed transaction that reverses a reversal of a managed one is itself such a reversal. */
  ghost predicate ReversalsFirst(t: Tables, b: Baseline) {
    forall id :: IsManaged(t, id, b) && ReversesReversal(t, id, b) ==> ReversesManaged(t, id, b)
  }

  lemma DoomedAre(t: Tables, b: Baseline)
    ensures forall id :: id in t.applications ==>
              (id in DoomedApplications(t, b) <==> ManagedApplication(t, t.applications[id], b))
    ensures forall id :: id in t.transactions ==>
              (id in DoomedTransactions(t, b) <==> ManagedTransaction(t, t.transactions[id], b))
  {
  }

  lemma OffsetsRefer(t: Tables, ids: set<string>, b: Baseline)
    requires KeysRefer(t)
    ensures !OffsetRefersTo(DeleteLiquidations(t, ids * t.liquidations.Keys), DoomedApplications(t, b)) <==>
            var r := Remaining(t, ids, b);
            forall id :: id in r.offsets ==>
              r.offsets[id].liquidation in r.liquidations && r.offsets[id].application in r.applications
  {
    var r := Remaining(t, ids, b);
    var t' := DeleteLiquidations(t, ids * t.liquidations.Keys);
    assert t'.offsets == r.offsets;
    forall id | id in r.offsets ensures r.offsets[id].application in r.applications
                                   <==> r.offsets[id].application !in DoomedApplications(t, b) {
      assert id in t.offsets;
    }
  }

  lemma ReversalsAre(t: Tables, b: Baseline)
    ensures forall id :: id in DoomedTransactions(t, b) <==> IsManaged(t, id, b)
    ensures forall id :: id in Reversals(t, DoomedTransactions(t, b)) <==> ReversesManaged(t, id, b)
  {
    DoomedAre(t, b);
  }

  /** Transactions that are deleted after their reversals. */
  predicate ReversedBefore(t: Tables, gone: set<string>) {
    forall id :: id in gone && id in Reversals(t, Reversals(t, gone)) ==> id in Reversals(t, gone)
  }

  predicate KeptRefer(kept: map<string, FundTransaction>) {
    forall id :: id in kept && kept[id].reversalOf.Some? ==> kept[id].reversalOf.value in kept
  }

  lemma TransactionsRefer(t: Tables, gone: set<string>)
    requires forall id :: id in t.transactions && t.transactions[id].reversalOf.Some? ==>
               t.transactions[id].reversalOf.value in t.transactions
    ensures Reversals(t, Reversals(t, gone)) <= Reversals(t, gone) <==>
            ReversedBefore(t, gone) && KeptRefer(t.transactions - (gone + Reversals(t, gone)))
  {
    var reversals := Reversals(t, gone);
    var kept := t.transactions - (gone + reversals);
    if Reversals(t, reversals) <= reversals {
      forall id | id in kept && kept[id].reversalOf.Some? ensures kept[id].reversalOf.value in kept {
        assert id !in reversals && id !in Reversals(t, reversals);
      }
    } else {
      var id :| id in Reversals(t, reversals) && id !in reversals;
      assert id in gone || (id in kept && kept[id].reversalOf.value !in kept);
    }
  }

  lemma ReversedBeforeIs(t: Tables, b: Baseline)
    ensures ReversedBefore(t, DoomedTransactions(t, b)) <==> ReversalsFirst(t, b)
  {
    ReversalsAre(t, b);
    var reversals := Reversals(t, DoomedTransactions(t, b));
    forall id ensures id in Reversals(t, reversals) <==> ReversesReversal(t, id, b) {
    }
  }

  lemma OthersRefer(t: Tables, ids: set<string>, b: Baseline)
    requires KeysRefer(t)
    ensures var r := Remaining(t, ids, b); (
            && (!TransactionRefersTo(t.(transactions := r.transactions), DoomedApplications(t, b)) <==>
                  forall id :: id in r.transactions && r.transactions[id].application.Some? ==>
                    r.transactions[id].application.value in r.applications)
            && (!ApplicationRefersTo(t.(applications := r.applications), DisposableIncomes(t, b)) <==>
                  forall id :: id in r.applications ==> r.applications[id].income in r.incomes)
            && (!AllocationRefersTo(t, ChargesOfUnits(t, DisposableUnits(t, b))) <==>
                  forall id :: id in r.paymentAllocations ==> r.paymentAllocations[id].charge in r.charges))
  {
  }

  /** What is left of charges and of references to units refers as before, if no charge is of a deleted liquidation. */
  lemma UnitsRefer(t: Tables, ids: set<string>, b: Baseline)
    requires KeysRefer(t) && forall id :: id in t.charges && t.charges[id].liquidation.Some? ==>
               t.charges[id].liquidation.value !in ids
    ensures var r := Remaining(t, ids, b); (
            && (forall id :: id in r.charges ==>
                  && r.charges[id].chargedUnit in r.units
                  && (r.charges[id].liquidation.Some? ==> r.charges[id].liquidation.value in r.liquidations))
            && (forall id :: id in r.unitReferences ==> r.unitReferences[id].units <= r.units.Keys))
  {
  }

  /**
   * On tables whose keys all refer, a reset commits exactly when what it found may go, none of it has charges, managed
   * transactions do not reverse reversals of others, and every key of what it would leave still refers.
   */
  lemma CommitsIffKeysRefer(t: Tables, ids: set<string>, b: Baseline)
    requires KeysRefer(t)
    ensures Resettable(t, ids, b) <==>
              && (forall id :: id in ids && id in t.liquidations ==> MayGo(t.liquidations[id], b))
              && (forall id :: id in t.charges && t.charges[id].liquidation.Some? ==>
                    t.charges[id].liquidation.value !in ids)
              && ReversalsFirst(t, b)
              && KeysRefer(Remaining(t, ids, b))
  {
    OwnedMayGo(t, ids, b);
    var found := ids * t.liquidations.Keys;
    assert ChargeRefersTo(t, found) <==>
           exists id :: id in t.charges && t.charges[id].liquidation.Some? && t.charges[id].liquidation.value in ids;
    if !ChargeRefersTo(t, found) {
      FreeIffKeysRefer(t, ids, b);
    }
  }

  lemma OwnedMayGo(t: Tables, ids: set<string>, b: Baseline)
    ensures (forall id :: id in ids && id in t.liquidations ==> OwnershipError(t.liquidations[id], b).None?) <==>
            (forall id :: id in ids && id in t.liquidations ==> MayGo(t.liquidations[id], b))
  {
    forall id | id in t.liquidations
      ensures OwnershipError(t.liquidations[id], b).None? <==> MayGo(t.liquidations[id], b)
    {
      OwnershipErrorIs(t.liquidations[id], b);
    }
  }

  lemma FreeIffKeysRefer(t: Tables, ids: set<string>, b: Baseline)
    requires KeysRefer(t)
    requires forall id :: id in t.charges && t.charges[id].liquidation.Some? ==> t.charges[id].liquidation.value !in ids
    ensures ManagedRowsFree(DeleteLiquidations(t, ids * t.liquidations.Keys), b) <==>
              ReversalsFirst(t, b) && KeysRefer(Remaining(t, ids, b))
  {
    FreeAfterLiquidations(t, ids * t.liquidations.Keys, b);
    OffsetsRefer(t, ids, b);
    FreeRefers(t, ids, b);
    UnitsRefer(t, ids, b);
  }

  /** What is left refers to no transaction, application, income or charge that goes, taken table by table. */
  ghost predicate FreeOf(t: Tables, apps: set<string>, gone: set<string>, incomes: set<string>, units: set<string>) {
    && Reversals(t, Reversals(t, gone)) <= Reversals(t, gone)
    && !TransactionRefersTo(t.(transactions := t.transactions - (gone + Reversals(t, gone))), apps)
    && !ApplicationRefersTo(t.(applications := t.applications - apps), incomes)
    && !AllocationRefersTo(t, ChargesOfUnits(t, units))
  }

  lemma SameTransactions(t: Tables, t': Tables, ids: set<string>)
    requires t'.transactions == t.transactions
    ensures TransactionRefersTo(t', ids) == TransactionRefersTo(t, ids) && Reversals(t', ids) == Reversals(t, ids)
  {
    if TransactionRefersTo(t, ids) {
      var id :| id in t.transactions && t.transactions[id].application.Some?
             && t.transactions[id].application.value in ids;
      assert t'.transactions[id].application.value in ids;
    }
  }

  lemma SameButOffsets(t: Tables, t': Tables, apps: set<string>, gone: set<string>, incomes: set<string>,
          units: set<string>)
    requires t' == t.(liquidations := t'.liquidations, offsets := t'.offsets)
    ensures FreeOf(t', apps, gone, incomes, units) == FreeOf(t, apps, gone, incomes, units)
  {
    SameTransactions(t, t', gone);
    SameTransactions(t, t', Reversals(t, gone));
    var kept := t.transactions - (gone + Reversals(t, gone));
    SameTransactions(t.(transactions := kept), t'.(transactions := kept), apps);
    SameApplications(t.(applications := t.applications - apps), t'.(applications := t.applications - apps), incomes);
    SameUnitTables(t, t', units);
  }

  /** Deleting liquidations changes only the offsets. */
  lemma FreeAfterLiquidations(t: Tables, ids: set<string>, b: Baseline)
    ensures ManagedRowsFree(DeleteLiquidations(t, ids), b) <==>
              && !OffsetRefersTo(DeleteLiquidations(t, ids), DoomedApplications(t, b))
              && FreeOf(t, DoomedApplications(t, b), DoomedTransactions(t, b), DisposableIncomes(t, b),
                        DisposableUnits(t, b))
  {
    SelectionsKept(t, ids, b);
    SameButOffsets(t, DeleteLiquidations(t, ids), DoomedApplications(t, b), DoomedTransactions(t, b),
                   DisposableIncomes(t, b), DisposableUnits(t, b));
  }

  lemma FreeRefers(t: Tables, ids: set<string>, b: Baseline)
    requires KeysRefer(t)
    ensures var r := Remaining(t, ids, b);
            FreeOf(t, DoomedApplications(t, b), DoomedTransactions(t, b), DisposableIncomes(t, b),
                   DisposableUnits(t, b)) <==>
              && ReversalsFirst(t, b) && KeptRefer(r.transactions)
              && (forall id :: id in r.transactions && r.transactions[id].application.Some? ==>
                    r.transactions[id].application.value in r.applications)
              && (forall id :: id in r.applications ==> r.applications[id].income in r.incomes)
              && (forall id :: id in r.paymentAllocations ==> r.paymentAllocations[id].charge in r.charges)
  {
    TransactionsRefer(t, DoomedTransactions(t, b));
    ReversedBeforeIs(t, b);
    OthersRefer(t, ids, b);
  }

  /**
   * In the other tables a row goes or changes only with a deleted unit, and then loses that reference and
   * nothing else.
   */
  lemma RewritesOnlyReferences(t: Tables, ids: set<string>, b: Baseline)
    ensures var r := Remaining(t, ids, b); (
            && (forall id :: id in r.unitReferences ==> id in t.unitReferences)
            && (forall id :: id in t.unitReferences ==>
                  var deleted := t.unitReferences[id].units * (t.units.Keys - r.units.Keys);
                  if t.unitReferences[id].cascades && deleted != {} then id !in r.unitReferences
                  else id in r.unitReferences
                       && r.unitReferences[id] == t.unitReferences[id].(units := t.unitReferences[id].units - deleted)))
  {
    assert t.units.Keys - Remaining(t, ids, b).units.Keys == DisposableUnits(t, b);
  }

  /** A deleted ledger transaction is tagged, or managed by a deleted application, or the reversal of one of those. */
  lemma DeletesOnlyManagedTransactions(t: Tables, ids: set<string>, b: Baseline, id: string)
    requires Resettable(t, ids, b) && id in t.transactions && id !in Remaining(t, ids, b).transactions
    ensures id in DoomedTransactions(t, b)
         || exists x :: x in DoomedTransactions(t, b) && t.transactions[id].reversalOf == Some(x)
    ensures forall x :: x in DoomedTransactions(t, b) ==>
              x in t.transactions && t.transactions[x].tenant == b.tenantA && (
              Tagged(t.transactions[x].description) || Tagged(t.transactions[x].idempotencyKey)
              || exists a :: a in t.applications && a !in Remaining(t, ids, b).applications
                         && t.transactions[x].application == Some(a))
  {
  }

  /** What a reset is to leave: nothing it would select again. */
  ghost predicate Clean(t: Tables, b: Baseline) {
    && DisposableIncomes(t, b) == {}
    && DoomedApplications(t, b) == {}
    && DoomedTransactions(t, b) == {}
    && DisposableUnits(t, b) == {}
  }

  lemma ResetCleans(t: Tables, ids: set<string>, b: Baseline)
    ensures Clean(Remaining(t, ids, b), b)
    ensures Remaining(t, ids, b).liquidations.Keys * ids == {}
  {
    var r := Remaining(t, ids, b);
    assert DisposableIncomes(r, b) == {};
    assert DoomedApplications(r, b) == {};
    assert DisposableUnits(r, b) == {};
  }

  /** The guards of the four legacy fixtures then find no application. */
  lemma LegacyGuardsPass(t: Tables, ids: set<string>, b: Baseline, income: string)
    requires income in RESETTABLE_LEGACY
    ensures |set id | id in Remaining(t, ids, b).applications
                 && Remaining(t, ids, b).applications[id].tenant == b.tenantA
                 && Remaining(t, ids, b).applications[id].income == income| == 0
  {
    var r := Remaining(t, ids, b);
    ResetCleans(t, ids, b);
    forall id | id in r.applications && r.applications[id].tenant == b.tenantA
      ensures r.applications[id].income != income
    {
      assert id !in DoomedApplications(r, b);
    }
    assert (set id | id in r.applications && r.applications[id].tenant == b.tenantA
                     && r.applications[id].income == income) == {};
  }

  lemma NothingUnreferenced(t: Tables)
    ensures Unreferenced(t, {}) == t.unitReferences
  {
    assert forall r: UnitReference :: r.(units := r.units - {}) == r && r.units * {} == {};
  }

  lemma IdleRemaining(t: Tables, ids: set<string>, b: Baseline)
    requires Clean(t, b) && t.liquidations.Keys * ids == {}
    ensures Remaining(t, ids, b) == t
  {
    var r := Remaining(t, ids, b);
    Disjoint(t.liquidations.Keys, ids);
    assert ids * t.liquidations.Keys == {};
    NothingUnreferenced(t);
    assert r.liquidations == t.liquidations;
    assert r.transactions == t.transactions;
  }

  /** A reset of a clean database, with no registered liquidation left, commits and changes nothing. */
  lemma CleanResetIsIdle(t: Tables, ids: set<string>, b: Baseline)
    requires Clean(t, b) && t.liquidations.Keys * ids == {}
    ensures Resettable(t, ids, b) && Remaining(t, ids, b) == t
  {
    IdleRemaining(t, ids, b);
    assert ids * t.liquidations.Keys == {};
    assert DeleteLiquidations(t, {}) == t;
    assert Reversals(t, {}) == {};
  }

  lemma Disjoint<T>(a: set<T>, b: set<T>)
    requires a * b == {}
    ensures forall x :: x in a ==> x !in b
  {
    forall x | x in a ensures x !in b {
      assert x !in a * b;
    }
  }

  /** An immediately following reset deletes nothing. */
  lemma ResetTwice(t: Tables, ids: set<string>, b: Baseline)
    ensures Resettable(Remaining(t, ids, b), ids, b)
    ensures Remaining(Remaining(t, ids, b), ids, b) == Remaining(t, ids, b)
  {
    ResetCleans(t, ids, b);
    CleanResetIsIdle(Remaining(t, ids, b), ids, b);
  }

  // ---- Interrupted and re-run ----

  /**
   * What a reset relies on from seeding, which draws new ids and so may end in many ways: however it ends, it soils
   * nothing, revives no registered id, and finds nothing to do when it is repeated.
   */
  ghost predicate SeedContract(seeds: (Tables, Tables) -> bool, ids: set<string>, b: Baseline) {
    forall t, t' :: Clean(t, b) && t.liquidations.Keys * ids == {} && seeds(t, t') ==>
      && Clean(t', b)
      && t'.liquidations.Keys * ids == {}
      && forall t'' :: seeds(t', t'') <==> t'' == t'
  }

  /** The two stores a reset works on. */
  datatype Stores = Stores(tables: Tables, registry: set<string>)

  /** An uninterrupted reset may end so: transaction, re-seed, unregister. */
  predicate MayEnd(s: Stores, e: Stores, seeds: (Tables, Tables) -> bool, b: Baseline) {
    seeds(Remaining(s.tables, s.registry, b), e.tables) && e.registry == {}
  }

  /** Where a crash can leave the stores: before or after the commit, after the re-seed, or among the unlinks. */
  predicate CrashState(s: Stores, c: Stores, seeds: (Tables, Tables) -> bool, b: Baseline) {
    || c == s
    || c == Stores(Remaining(s.tables, s.registry, b), s.registry)
    || (seeds(Remaining(s.tables, s.registry, b), c.tables) && c.registry <= s.registry)
  }

  /**
   * Re-running after a crash anywhere commits, and can end exactly as an uninterrupted reset that had got as far:
   * in any of its ways when it had not seeded yet, and with the seed already drawn when it had.
   */
  lemma CrashedResetRecovers(s: Stores, c: Stores, e: Stores, seeds: (Tables, Tables) -> bool, b: Baseline)
    requires Resettable(s.tables, s.registry, b) && SeedContract(seeds, s.registry, b)
    requires CrashState(s, c, seeds, b)
    ensures Resettable(c.tables, c.registry, b)
    ensures MayEnd(c, e, seeds, b) ==> MayEnd(s, e, seeds, b)
    ensures c.tables in {s.tables, Remaining(s.tables, s.registry, b)} && c.registry == s.registry ==>
              (MayEnd(c, e, seeds, b) <==> MayEnd(s, e, seeds, b))
    ensures seeds(Remaining(s.tables, s.registry, b), c.tables) && c.registry <= s.registry ==>
              (MayEnd(c, e, seeds, b) <==> e == Stores(c.tables, {}))
  {
    var r := Remaining(s.tables, s.registry, b);
    ResetCleans(s.tables, s.registry, b);
    CleanResetIsIdle(r, s.registry, b);
    if seeds(r, c.tables) && c.registry <= s.registry {
      assert c.tables.liquidations.Keys * c.registry == {};
      CleanResetIsIdle(c.tables, c.registry, b);
    }
  }
}
