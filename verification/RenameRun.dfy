/** Carrying the plan out, update by update, under the unique key of units. */
module RenameRun {
  import opened Options
  import opened Pigeonhole
  import opened UnitRenaming
  import opened RenamePlan
  import RenamedCodes

  function Rewrite(u: Unit, id: string, code: string, caption: Option<string>): Unit {
    if u.id == id then u.(code := code, caption := caption) else u
  }

  function Rewritten(units: seq<Unit>, id: string, code: string, caption: Option<string>): (r: seq<Unit>)
    ensures |r| == |units| && forall i :: 0 <= i < |r| ==> r[i] == Rewrite(units[i], id, code, caption)
  {
    seq(|units|, i requires 0 <= i < |units| => Rewrite(units[i], id, code, caption))
  }

  class UnitTable {
    var units: seq<Unit>

    constructor (units: seq<Unit>)
      requires IdsUnique(units) && CodesUnique(units)
      ensures Valid() && this.units == units
    {
      this.units := units;
    }

    ghost predicate Valid()
      reads this
    {
      IdsUnique(units) && CodesUnique(units)
    }

    /** tx.unit.update: it fails on an unknown id and on a code that the building already has. */
    method Update(id: string, code: string, caption: Option<string>) returns (ok: bool)
      requires Valid()
      modifies this
      ensures Valid()
      ensures ok <==> FindUnit(old(units), id).Some? && CodesUnique(Rewritten(old(units), id, code, caption))
      ensures units == if ok then Rewritten(old(units), id, code, caption) else old(units)
    {
      var rewritten := Rewritten(units, id, code, caption);
      ok := FindUnit(units, id).Some? && CodesUnique(rewritten);
      if ok {
        units := rewritten;
      }
    }

    /** One of the two loops of the transaction. */
    method Apply(loaded: Loaded, changes: seq<Change>, ghost applied: set<string>) returns (ok: bool)
      requires Valid() && CanApply(loaded, changes) && units == Partial(loaded, applied)
      modifies this
      ensures Valid() && ok
      ensures units == Partial(loaded, applied + IdsOf(changes))
    {
      assert applied + IdsOf(changes[..0]) == applied;
      for i := 0 to |changes|
        invariant Valid() && units == Partial(loaded, applied + IdsOf(changes[..i]))
      {
        var c := changes[i];
        ghost var before := applied + IdsOf(changes[..i]);
        assert IsUpdate(loaded, c);
        UpdateIsStep(loaded, before, c);
        EveryPartialStateIsLegal(loaded, before + {c.unitId});
        ok := Update(c.unitId, c.newCode, c.caption);
        if !ok {
          return;
        }
        assert IdsOf(changes[..i + 1]) == IdsOf(changes[..i]) + {c.unitId};
        assert applied + IdsOf(changes[..i + 1]) == before + {c.unitId};
      }
      assert changes[..|changes|] == changes;
      ok := true;
    }
  }

  function IdsOf(changes: seq<Change>): set<string> {
    set c | c in changes :: c.unitId
  }

  ghost predicate IsUpdate(loaded: Loaded, c: Change) {
    exists u :: u in loaded.units && ChangeOf(loaded, u, c) && c.newCode != c.oldCode
  }

  ghost predicate CanApply(loaded: Loaded, changes: seq<Change>) {
    && IdsUnique(loaded.units) && CodesUnique(loaded.units) && CollisionFree(loaded)
    && forall c :: c in changes ==> IsUpdate(loaded, c)
  }

  lemma UpdateIsStep(loaded: Loaded, applied: set<string>, c: Change)
    requires IdsUnique(loaded.units) && IsUpdate(loaded, c)
    ensures Rewritten(Partial(loaded, applied), c.unitId, c.newCode, c.caption) == Partial(loaded, applied + {c.unitId})
    ensures FindUnit(Partial(loaded, applied), c.unitId).Some?
  {
    var u :| u in loaded.units && ChangeOf(loaded, u, c) && c.newCode != c.oldCode;
    PartialHas(loaded, applied, u);
    var now, next := Partial(loaded, applied), Partial(loaded, applied + {c.unitId});
    forall i | 0 <= i < |now| ensures Rewrite(now[i], c.unitId, c.newCode, c.caption) == next[i] {
      UpdateIsStepAt(loaded, applied, c, u, i);
    }
    assert Rewritten(now, c.unitId, c.newCode, c.caption) == next;
  }

  lemma UpdateIsStepAt(loaded: Loaded, applied: set<string>, c: Change, u: Unit, i: nat)
    requires IdsUnique(loaded.units) && u in loaded.units && ChangeOf(loaded, u, c) && c.newCode != c.oldCode
    requires i < |loaded.units|
    ensures Rewrite(Partial(loaded, applied)[i], c.unitId, c.newCode, c.caption)
            == Partial(loaded, applied + {c.unitId})[i]
  {
    if loaded.units[i].id == u.id {
      assert loaded.units[i] == u;
    }
  }

  /** In a plan without conflicts every unit that is to get another code is among the changes. */
  lemma ChangesAreAll(loaded: Loaded, p: Plan, u: Unit)
    requires IdsUnique(loaded.units) && PlanFor(loaded, p) && p.conflicts == []
    requires u in loaded.units && Renamed(loaded, u) != u
    ensures u.id in IdsOf(p.apartmentChanges) + IdsOf(p.parkingChanges)
  {
    UnitIsListed(loaded, p, u);
    NotSkipped(loaded, p.skippedApartments, u, Apartamento);
    NotSkipped(loaded, p.skippedParkings, u, Estacionamiento);
    NotOrphan(loaded, p, u);
    assert multiset(ConflictIds(p.conflicts))[u.id] == 0;
    InChangeIds(p.apartmentChanges, u.id);
    InChangeIds(p.parkingChanges, u.id);
  }

  lemma UnitIsListed(loaded: Loaded, p: Plan, u: Unit)
    requires ListsOnce(p, InOrder(loaded.units)) && u in loaded.units && Target(loaded, u).Some?
    ensures Count(p, u.id) > 0
  {
    var done := InOrder(loaded.units);
    assert u in done;
    var i :| 0 <= i < |done| && done[i] == u;
    assert Ids(done)[i] == u.id;
  }

  lemma InChangeIds(changes: seq<Change>, id: string)
    ensures multiset(ChangeIds(changes))[id] > 0 ==> id in IdsOf(changes)
  {
    if id in multiset(ChangeIds(changes)) {
      var i :| 0 <= i < |changes| && ChangeIds(changes)[i] == id;
      assert changes[i] in changes;
    }
  }

  lemma NotSkipped(loaded: Loaded, skipped: seq<Change>, u: Unit, unitType: UnitType)
    requires IdsUnique(loaded.units) && u in loaded.units && Renamed(loaded, u) != u
    requires forall c :: c in skipped ==> IsChange(loaded, loaded.units, unitType, c) && c.newCode == c.oldCode
    ensures multiset(ChangeIds(skipped))[u.id] == 0
  {
    assert forall c :: c in skipped ==> c.unitId != u.id;
    InChangeIds(skipped, u.id);
  }

  lemma NotOrphan(loaded: Loaded, p: Plan, u: Unit)
    requires IdsUnique(loaded.units) && ChangesOk(loaded, loaded.units, p) && u in loaded.units
    requires Renamed(loaded, u) != u
    ensures multiset(OrphanIds(p.orphanParkings))[u.id] == 0
  {
    assert forall o :: o in p.orphanParkings ==> o.parkingId != u.id;
  }

  /** So applying the changes renames every unit. */
  lemma AppliedIsAll(loaded: Loaded, p: Plan)
    requires IdsUnique(loaded.units) && PlanFor(loaded, p) && p.conflicts == []
    ensures Partial(loaded, IdsOf(p.apartmentChanges) + IdsOf(p.parkingChanges)) == Again(loaded).units
  {
    var applied := IdsOf(p.apartmentChanges) + IdsOf(p.parkingChanges);
    forall i | 0 <= i < |loaded.units| ensures Partial(loaded, applied)[i] == Again(loaded).units[i] {
      AgainUnit(loaded, i);
      if Renamed(loaded, loaded.units[i]) != loaded.units[i] {
        ChangesAreAll(loaded, p, loaded.units[i]);
      }
    }
  }

  lemma AllBecome(loaded: Loaded)
    requires CollisionFree(loaded)
    ensures forall i :: 0 <= i < |loaded.units| ==>
              RenamedCodes.Becomes(loaded, loaded.units[i], Again(loaded).units[i])
  {
    forall i | 0 <= i < |loaded.units|
      ensures RenamedCodes.Becomes(loaded, loaded.units[i], Again(loaded).units[i])
    {
      AgainUnit(loaded, i);
      assert loaded.units[i] in loaded.units;
      RenamedCodes.RenamedBecomes(loaded, loaded.units[i]);
    }
  }

  method RunMigration(table: UnitTable, towers: map<string, Tower>, associations: seq<Association>, dryRun: bool)
    returns (p: Plan, committed: bool)
    requires table.Valid()
    modifies table
    ensures table.Valid()
    ensures PlanFor(Loaded(towers, old(table.units), associations), p)
    ensures var loaded := Loaded(towers, old(table.units), associations); (
            && (committed <==>
                  !dryRun && CollisionFree(loaded) && forall u :: u in loaded.units ==> !Crosses(loaded, u))
            && table.units == if committed then Again(loaded).units else old(table.units))
    // What a committed run leaves, letter by letter.
    ensures |table.units| == |old(table.units)|
    ensures committed ==>
              forall i :: 0 <= i < |table.units| ==>
                RenamedCodes.Becomes(Loaded(towers, old(table.units), associations), old(table.units)[i],
                                     table.units[i])
  {
    var loaded := Loaded(towers, table.units, associations);
    p := PlanMigration(loaded);
    committed := false;
    if !dryRun {
      if p.conflicts != [] || p.crossBuildingIssues != [] {
        return;
      }
      assert Partial(loaded, {}) == loaded.units;
      var ok := table.Apply(loaded, p.apartmentChanges, {});
      assert {} + IdsOf(p.apartmentChanges) == IdsOf(p.apartmentChanges);
      ok := table.Apply(loaded, p.parkingChanges, IdsOf(p.apartmentChanges));
      AppliedIsAll(loaded, p);
      AllBecome(loaded);
      committed := true;
    }
  }

  /** After a committed run, another run plans no change and no conflict exactly when the bases were stable. */
  lemma SecondPlanIdleIff(loaded: Loaded, p: Plan)
    requires IdsUnique(loaded.units) && CollisionFree(loaded) && PlanFor(Again(loaded), p)
    ensures p.conflicts == [] && p.apartmentChanges == [] && p.parkingChanges == [] <==> BasesStable(loaded)
  {
    SecondRunIdleIff(loaded);
    var again := Again(loaded);
    AgainIdsUnique(loaded);
    if BasesStable(loaded) {
      assert forall c :: c in p.apartmentChanges || c in p.parkingChanges ==> false;
      HasMember(p.apartmentChanges);
      HasMember(p.parkingChanges);
    }
    if p.conflicts == [] && p.apartmentChanges == [] && p.parkingChanges == [] {
      forall u | u in again.units && Target(again, u).Some? ensures Target(again, u).value == u.code {
        if Renamed(again, u) != u {
          ChangesAreAll(again, p, u);
        }
      }
    }
  }

  lemma AgainIdsUnique(loaded: Loaded)
    requires IdsUnique(loaded.units)
    ensures IdsUnique(Again(loaded).units)
  {
  }
}
