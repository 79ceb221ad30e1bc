/** runMigration: the plan it prints, and the transaction that carries it out. */
module RenamePlan {
  import opened Options
  import opened Pigeonhole
  import opened UnitRenaming

  datatype Change = Change(unitId: string, oldCode: string, newCode: string, caption: Option<string>)

  datatype Conflict = Conflict(unitId: string, oldCode: string, attemptedNewCode: string)

  datatype Orphan = Orphan(parkingId: string, oldCode: string)

  datatype CrossBuildingIssue = CrossBuildingIssue(associationId: string, apartmentId: string, parkingId: string)

  datatype Plan = Plan(
    apartmentChanges: seq<Change>,
    parkingChanges: seq<Change>,
    orphanParkings: seq<Orphan>,
    conflicts: seq<Conflict>,
    crossBuildingIssues: seq<CrossBuildingIssue>,
    skippedApartments: seq<Change>,
    skippedParkings: seq<Change>)

  const EMPTY := Plan([], [], [], [], [], [], [])

  /** newCodesInBuilding. */
  type Planned = map<string, set<string>>

  predicate IsPlanned(planned: Planned, buildingId: string, code: string) {
    buildingId in planned && code in planned[buildingId]
  }

  function AddPlanned(planned: Planned, buildingId: string, code: string): (r: Planned)
    ensures forall b, c :: IsPlanned(r, b, c) <==> IsPlanned(planned, b, c) || (b == buildingId && c == code)
  {
    planned[buildingId := (if buildingId in planned then planned[buildingId] else {}) + {code}]
  }

  predicate Crosses(loaded: Loaded, u: Unit) {
    && u.unitType.Estacionamiento? && Target(loaded, u).Some?
    && ApartmentFor(loaded, u.id).value.buildingId != u.buildingId
  }

  // ---- What a plan says about the units it has dealt with ----

  function ChangeIds(changes: seq<Change>): seq<string> {
    Map((c: Change) => c.unitId, changes)
  }

  /** How many entries of a plan are about the unit id, over all its lists. */
  function Count(p: Plan, id: string): nat {
    multiset(ChangeIds(p.apartmentChanges))[id] + multiset(ChangeIds(p.parkingChanges))[id]
    + multiset(ChangeIds(p.skippedApartments))[id] + multiset(ChangeIds(p.skippedParkings))[id]
    + multiset(OrphanIds(p.orphanParkings))[id] + multiset(ConflictIds(p.conflicts))[id]
  }

  function OrphanIds(orphans: seq<Orphan>): seq<string> {
    Map((o: Orphan) => o.parkingId, orphans)
  }

  function ConflictIds(conflicts: seq<Conflict>): seq<string> {
    Map((c: Conflict) => c.unitId, conflicts)
  }

  /** Every unit of done is in exactly one list, once, and nothing else is. */
  ghost predicate ListsOnce(p: Plan, done: seq<Unit>) {
    forall id :: Count(p, id) == multiset(Ids(done))[id]
  }

  function Ids(units: seq<Unit>): seq<string> {
    Map((u: Unit) => u.id, units)
  }

  /** c is what the migration does to some unit of done, of the given type. */
  ghost predicate IsChange(loaded: Loaded, done: seq<Unit>, unitType: UnitType, c: Change) {
    exists u :: u in done && u.unitType == unitType && ChangeOf(loaded, u, c)
  }

  predicate ChangeOf(loaded: Loaded, u: Unit, c: Change) {
    && c.unitId == u.id && c.oldCode == u.code && Target(loaded, u) == Some(c.newCode)
    && c.caption == NewLabel(u, c.newCode)
  }

  ghost predicate ChangesOk(loaded: Loaded, done: seq<Unit>, p: Plan) {
    && (forall c :: c in p.apartmentChanges ==> IsChange(loaded, done, Apartamento, c) && c.newCode != c.oldCode)
    && (forall c :: c in p.parkingChanges ==> IsChange(loaded, done, Estacionamiento, c) && c.newCode != c.oldCode)
    && (forall c :: c in p.skippedApartments ==> IsChange(loaded, done, Apartamento, c) && c.newCode == c.oldCode)
    && (forall c :: c in p.skippedParkings ==> IsChange(loaded, done, Estacionamiento, c) && c.newCode == c.oldCode)
    && (forall o :: o in p.orphanParkings ==>
          exists u :: u in done && u.id == o.parkingId && u.unitType.Estacionamiento? && Target(loaded, u).None?)
  }

  /** The code wanted for u is no other unit's code. */
  predicate Free(loaded: Loaded, u: Unit) {
    Target(loaded, u).Some? ==>
      forall v :: v in loaded.units && v.id != u.id && v.buildingId == u.buildingId ==>
          v.code != Target(loaded, u).value
  }

  /** u is no reason for a conflict after the units of done. */
  predicate Fits(loaded: Loaded, done: seq<Unit>, u: Unit) {
    && (u.unitType.Apartamento? ==> u.buildingId in loaded.towers)
    && Free(loaded, u)
    && (Target(loaded, u).Some? ==> forall v :: v in done ==> !Wants(loaded, v, u.buildingId, Target(loaded, u).value))
  }

  predicate Settles(loaded: Loaded, done: seq<Unit>) {
    done == [] || (Settles(loaded, done[..|done| - 1]) && Fits(loaded, done[..|done| - 1], done[|done| - 1]))
  }

  /** planned holds codes wanted by units of done; all of them as long as there was no conflict. */
  ghost predicate PlannedOk(loaded: Loaded, done: seq<Unit>, p: Plan, planned: Planned) {
    && (forall b, c :: IsPlanned(planned, b, c) ==> exists u :: u in done && Wants(loaded, u, b, c))
    && (p.conflicts == [] ==> forall u :: u in done && Target(loaded, u).Some? ==>
          IsPlanned(planned, u.buildingId, Target(loaded, u).value))
  }

  ghost predicate PlanOk(loaded: Loaded, done: seq<Unit>, p: Plan, planned: Planned) {
    && ListsOnce(p, done)
    && ChangesOk(loaded, done, p)
    && PlannedOk(loaded, done, p, planned)
    && (p.conflicts == [] <==> Settles(loaded, done))
    && (p.crossBuildingIssues == [] <==> forall u :: u in done ==> !Crosses(loaded, u))
  }

  // ---- One unit more ----

  lemma IdsAfter(done: seq<Unit>, u: Unit)
    ensures multiset(Ids(done + [u])) == multiset(Ids(done)) + multiset{u.id}
  {
    assert Ids(done + [u]) == Ids(done) + [u.id];
  }

  lemma ChangeIdsAfter(changes: seq<Change>, c: Change)
    ensures multiset(ChangeIds(changes + [c])) == multiset(ChangeIds(changes)) + multiset{c.unitId}
  {
    assert ChangeIds(changes + [c]) == ChangeIds(changes) + [c.unitId];
  }

  lemma OrphanIdsAfter(orphans: seq<Orphan>, o: Orphan)
    ensures multiset(OrphanIds(orphans + [o])) == multiset(OrphanIds(orphans)) + multiset{o.parkingId}
  {
    assert OrphanIds(orphans + [o]) == OrphanIds(orphans) + [o.parkingId];
  }

  lemma ConflictIdsAfter(conflicts: seq<Conflict>, c: Conflict)
    ensures multiset(ConflictIds(conflicts + [c])) == multiset(ConflictIds(conflicts)) + multiset{c.unitId}
  {
    assert ConflictIds(conflicts + [c]) == ConflictIds(conflicts) + [c.unitId];
  }

  lemma OldChangesOk(loaded: Loaded, done: seq<Unit>, u: Unit, p: Plan)
    requires ChangesOk(loaded, done, p)
    ensures ChangesOk(loaded, done + [u], p)
  {
    forall unitType, c | IsChange(loaded, done, unitType, c) ensures IsChange(loaded, done + [u], unitType, c) {
      var v :| v in done && v.unitType == unitType && ChangeOf(loaded, v, c);
      assert v in done + [u];
    }
    forall v | v in done ensures v in done + [u] {
    }
  }

  lemma {:induction false} SettlesAfter(loaded: Loaded, done: seq<Unit>, u: Unit)
    ensures Settles(loaded, done + [u]) <==> Settles(loaded, done) && Fits(loaded, done, u)
  {
    var more := done + [u];
    assert more[..|more| - 1] == done && more[|more| - 1] == u;
  }

  lemma PlannedAfter(loaded: Loaded, done: seq<Unit>, u: Unit, p: Plan, q: Plan, planned: Planned)
    requires PlannedOk(loaded, done, p, planned) && (q.conflicts == [] ==> p.conflicts == [])
    ensures Target(loaded, u).Some? ==>
              PlannedOk(loaded, done + [u], q, AddPlanned(planned, u.buildingId, Target(loaded, u).value))
    ensures Target(loaded, u).None? || q.conflicts != [] ==> PlannedOk(loaded, done + [u], q, planned)
  {
    var more := done + [u];
    assert u in more;
    forall b, c | IsPlanned(planned, b, c) ensures exists v :: v in more && Wants(loaded, v, b, c) {
      var v :| v in done && Wants(loaded, v, b, c);
      assert v in more;
    }
    if Target(loaded, u).Some? {
      assert Wants(loaded, u, u.buildingId, Target(loaded, u).value);
    }
  }

  // ---- The loops ----

  predicate TakenByOther(loaded: Loaded, u: Unit, code: string) {
    exists v :: v in loaded.units && v.buildingId == u.buildingId && v.code == code && v.id != u.id
  }

  /** The body of the loop over apartments. */
  method PlanApartment(loaded: Loaded, u: Unit, p: Plan, planned: Planned, ghost done: seq<Unit>)
    returns (q: Plan, nextPlanned: Planned)
    requires u.unitType.Apartamento? && PlanOk(loaded, done, p, planned)
    ensures PlanOk(loaded, done + [u], q, nextPlanned)
    // Which list takes the unit.
    ensures q == if u.buildingId !in loaded.towers then p.(conflicts := p.conflicts + [Conflict(u.id, u.code, "N/A")])
                 else PlacedUnit(loaded, u, p, planned)
  {
    q, nextPlanned := p, planned;
    if u.buildingId !in loaded.towers {
      q := p.(conflicts := p.conflicts + [Conflict(u.id, u.code, "N/A")]);
      ConflictStep(loaded, u, p, q, planned, done, Conflict(u.id, u.code, "N/A"));
      return;
    }
    var newCode := loaded.towers[u.buildingId].Prefix() + "-" + ExtractBaseCode(u.code);
    if TakenByOther(loaded, u, newCode) || IsPlanned(planned, u.buildingId, newCode) {
      q := p.(conflicts := p.conflicts + [Conflict(u.id, u.code, newCode)]);
      ConflictStep(loaded, u, p, q, planned, done, Conflict(u.id, u.code, newCode));
      return;
    }
    nextPlanned := AddPlanned(planned, u.buildingId, newCode);
    var change := Change(u.id, u.code, newCode, u.caption);
    if newCode == u.code {
      q := p.(skippedApartments := p.skippedApartments + [change]);
    } else {
      q := p.(apartmentChanges := p.apartmentChanges + [change]);
    }
    AcceptStep(loaded, u, p, q, planned, done, change);
  }

  /** A unit with a target goes to the conflicts when its code is taken or planned, and to its changes otherwise. */
  function PlacedUnit(loaded: Loaded, u: Unit, p: Plan, planned: Planned): Plan
    requires Target(loaded, u).Some?
  {
    var newCode := Target(loaded, u).value;
    if Refused(loaded, u, planned) then p.(conflicts := p.conflicts + [Conflict(u.id, u.code, newCode)])
    else Accepted(p, u, Change(u.id, u.code, newCode, NewLabel(u, newCode)))
  }

  /** An association that crosses buildings is flagged, and the parking still planned. */
  function Flagged(loaded: Loaded, u: Unit, p: Plan): Plan {
    if !Crosses(loaded, u) then p
    else
      var association := AssociationOf(loaded.associations, u.id).value;
      var issue := CrossBuildingIssue(association.id, association.apartmentId, u.id);
      p.(crossBuildingIssues := p.crossBuildingIssues + [issue])
  }

  predicate FlagsOnly(loaded: Loaded, u: Unit, p: Plan, q: Plan) {
    if Crosses(loaded, u) then |q.crossBuildingIssues| == |p.crossBuildingIssues| + 1
    else q.crossBuildingIssues == p.crossBuildingIssues
  }

  lemma ConflictLists(done: seq<Unit>, u: Unit, p: Plan, q: Plan, c: Conflict)
    requires ListsOnce(p, done) && c.unitId == u.id
    requires q == p.(conflicts := p.conflicts + [c], crossBuildingIssues := q.crossBuildingIssues)
    ensures ListsOnce(q, done + [u])
  {
    IdsAfter(done, u);
    ConflictIdsAfter(p.conflicts, c);
  }

  lemma {:induction false} ConflictUnsettles(loaded: Loaded, done: seq<Unit>, u: Unit, p: Plan, planned: Planned)
    requires PlannedOk(loaded, done, p, planned)
    requires (u.unitType.Apartamento? && u.buildingId !in loaded.towers) || Refused(loaded, u, planned)
    ensures !Settles(loaded, done + [u])
  {
    SettlesAfter(loaded, done, u);
  }

  lemma ConflictStep(loaded: Loaded, u: Unit, p: Plan, q: Plan, planned: Planned, done: seq<Unit>, c: Conflict)
    requires PlanOk(loaded, done, p, planned) && FlagsOnly(loaded, u, p, q)
    requires q == p.(conflicts := p.conflicts + [c], crossBuildingIssues := q.crossBuildingIssues) && c.unitId == u.id
    requires (u.unitType.Apartamento? && u.buildingId !in loaded.towers) || Refused(loaded, u, planned)
    ensures PlanOk(loaded, done + [u], q, planned)
  {
    ConflictLists(done, u, p, q, c);
    OldChangesOk(loaded, done, u, p);
    PlannedAfter(loaded, done, u, p, q, planned);
    ConflictUnsettles(loaded, done, u, p, planned);
  }

  /** The two tests on the code wanted for u. */
  predicate Refused(loaded: Loaded, u: Unit, planned: Planned) {
    && Target(loaded, u).Some?
    && (TakenByOther(loaded, u, Target(loaded, u).value) || IsPlanned(planned, u.buildingId, Target(loaded, u).value))
  }

  lemma AcceptLists(done: seq<Unit>, u: Unit, p: Plan, q: Plan, c: Change)
    requires ListsOnce(p, done) && c.unitId == u.id
    requires q == Accepted(p, u, c).(crossBuildingIssues := q.crossBuildingIssues)
    ensures ListsOnce(q, done + [u])
  {
    IdsAfter(done, u);
    forall id ensures Count(q, id) == Count(p, id) + multiset{u.id}[id] {
      AcceptedLists(p, u, c, id);
    }
  }

  lemma {:induction false} AcceptSettles(loaded: Loaded, done: seq<Unit>, u: Unit, p: Plan, q: Plan, planned: Planned,
          c: Change)
    requires PlannedOk(loaded, done, p, planned) && (p.conflicts == [] <==> Settles(loaded, done))
    requires q == Accepted(p, u, c).(crossBuildingIssues := q.crossBuildingIssues)
    requires ChangeOf(loaded, u, c) && !Refused(loaded, u, planned)
    requires u.unitType.Apartamento? ==> u.buildingId in loaded.towers
    ensures q.conflicts == [] <==> Settles(loaded, done + [u])
  {
    SettlesAfter(loaded, done, u);
    assert !TakenByOther(loaded, u, c.newCode);
    assert Free(loaded, u);
  }

  lemma AcceptStep(loaded: Loaded, u: Unit, p: Plan, q: Plan, planned: Planned, done: seq<Unit>, c: Change)
    requires PlanOk(loaded, done, p, planned) && FlagsOnly(loaded, u, p, q)
    requires q == Accepted(p, u, c).(crossBuildingIssues := q.crossBuildingIssues)
    requires ChangeOf(loaded, u, c) && !Refused(loaded, u, planned)
    requires !u.unitType.OtherType? && (u.unitType.Apartamento? ==> u.buildingId in loaded.towers)
    ensures PlanOk(loaded, done + [u], q, AddPlanned(planned, u.buildingId, c.newCode))
  {
    AcceptLists(done, u, p, q, c);
    AcceptChanges(loaded, done, u, p, q, c);
    AcceptPlanned(loaded, done, u, p, q, planned, c);
    AcceptSettles(loaded, done, u, p, q, planned, c);
  }

  lemma AcceptPlanned(loaded: Loaded, done: seq<Unit>, u: Unit, p: Plan, q: Plan, planned: Planned, c: Change)
    requires PlannedOk(loaded, done, p, planned) && ChangeOf(loaded, u, c)
    requires q == Accepted(p, u, c).(crossBuildingIssues := q.crossBuildingIssues)
    ensures PlannedOk(loaded, done + [u], q, AddPlanned(planned, u.buildingId, c.newCode))
  {
    PlannedAfter(loaded, done, u, p, q, planned);
  }

  lemma AcceptChanges(loaded: Loaded, done: seq<Unit>, u: Unit, p: Plan, q: Plan, c: Change)
    requires ChangesOk(loaded, done, p) && ChangeOf(loaded, u, c) && !u.unitType.OtherType?
    requires q == Accepted(p, u, c).(crossBuildingIssues := q.crossBuildingIssues)
    ensures ChangesOk(loaded, done + [u], q)
  {
    OldChangesOk(loaded, done, u, p);
    AcceptedChangesOk(loaded, done, u, p, c);
  }

  /** The list that takes the change of u. */
  function Accepted(p: Plan, u: Unit, c: Change): Plan {
    if u.unitType.Apartamento? then
      if c.newCode == c.oldCode then p.(skippedApartments := p.skippedApartments + [c])
      else p.(apartmentChanges := p.apartmentChanges + [c])
    else
      if c.newCode == c.oldCode then p.(skippedParkings := p.skippedParkings + [c])
      else p.(parkingChanges := p.parkingChanges + [c])
  }

  lemma AcceptedLists(p: Plan, u: Unit, c: Change, id: string)
    ensures Count(Accepted(p, u, c), id) == Count(p, id) + multiset{c.unitId}[id]
  {
    if u.unitType.Apartamento? && c.newCode == c.oldCode {
      ChangeIdsAfter(p.skippedApartments, c);
    } else if u.unitType.Apartamento? {
      ChangeIdsAfter(p.apartmentChanges, c);
    } else if c.newCode == c.oldCode {
      ChangeIdsAfter(p.skippedParkings, c);
    } else {
      ChangeIdsAfter(p.parkingChanges, c);
    }
  }

  lemma AcceptedChangesOk(loaded: Loaded, done: seq<Unit>, u: Unit, p: Plan, c: Change)
    requires ChangesOk(loaded, done + [u], p) && ChangeOf(loaded, u, c) && !u.unitType.OtherType?
    ensures ChangesOk(loaded, done + [u], Accepted(p, u, c))
  {
    assert u in done + [u];
    assert IsChange(loaded, done + [u], u.unitType, c);
  }

  lemma OrphanLists(done: seq<Unit>, u: Unit, p: Plan, q: Plan, o: Orphan)
    requires ListsOnce(p, done) && q == p.(orphanParkings := p.orphanParkings + [o]) && o.parkingId == u.id
    ensures ListsOnce(q, done + [u])
  {
    IdsAfter(done, u);
    OrphanIdsAfter(p.orphanParkings, o);
  }

  lemma OrphanChangesOk(loaded: Loaded, done: seq<Unit>, u: Unit, p: Plan, q: Plan, o: Orphan)
    requires ChangesOk(loaded, done, p) && u.unitType.Estacionamiento? && Target(loaded, u).None?
    requires q == p.(orphanParkings := p.orphanParkings + [o]) && o.parkingId == u.id
    ensures ChangesOk(loaded, done + [u], q)
  {
    OldChangesOk(loaded, done, u, p);
    assert u in done + [u];
  }

  lemma OrphanStep(loaded: Loaded, u: Unit, p: Plan, q: Plan, planned: Planned, done: seq<Unit>, o: Orphan)
    requires PlanOk(loaded, done, p, planned) && u.unitType.Estacionamiento? && Target(loaded, u).None?
    requires q == p.(orphanParkings := p.orphanParkings + [o]) && o.parkingId == u.id
    ensures PlanOk(loaded, done + [u], q, planned)
  {
    OrphanLists(done, u, p, q, o);
    OrphanChangesOk(loaded, done, u, p, q, o);
    PlannedAfter(loaded, done, u, p, q, planned);
    SettlesAfter(loaded, done, u);
  }

  // ---- The lookups ----

  function Lists(lookup: map<string, seq<Association>>, id: string): seq<Association> {
    if id in lookup then lookup[id] else []
  }

  /** The reverse lookups, filled association by association. */
  method BuildLookups(associations: seq<Association>)
    returns (byParking: map<string, Association>, byApartment: map<string, seq<Association>>)
    ensures forall id :: AssociationOf(associations, id) == if id in byParking then Some(byParking[id]) else None
    ensures forall id :: ParkingsOf(associations, id) == Lists(byApartment, id)
  {
    byParking, byApartment := map[], map[];
    for i := 0 to |associations|
      invariant forall id ::
                  AssociationOf(associations[..i], id) == if id in byParking then Some(byParking[id]) else None
      invariant forall id :: ParkingsOf(associations[..i], id) == Lists(byApartment, id)
    {
      var a := associations[i];
      byParking := byParking[a.parkingId := a];
      byApartment := byApartment[a.apartmentId := Lists(byApartment, a.apartmentId) + [a]];
      assert associations[..i + 1][..i] == associations[..i];
    }
    assert associations[..|associations|] == associations;
  }

  /** The lookups answer as they should. */
  ghost predicate LookupsOk(loaded: Loaded, byParking: map<string, Association>,
                            byApartment: map<string, seq<Association>>,
                            byId: map<string, Unit>) {
    && (forall id :: AssociationOf(loaded.associations, id) == if id in byParking then Some(byParking[id]) else None)
    && (forall id :: ParkingsOf(loaded.associations, id) == Lists(byApartment, id))
    && (forall id :: FindUnit(loaded.units, id) == if id in byId then Some(byId[id]) else None)
  }

  /** unitMap. */
  method BuildUnitMap(units: seq<Unit>) returns (byId: map<string, Unit>)
    ensures forall id :: FindUnit(units, id) == if id in byId then Some(byId[id]) else None
  {
    byId := map[];
    for i := 0 to |units|
      invariant forall id :: FindUnit(units[..i], id) == if id in byId then Some(byId[id]) else None
    {
      byId := byId[units[i].id := units[i]];
      assert units[..i + 1][..i] == units[..i];
    }
    assert units[..|units|] == units;
  }

  /** The body of the loop over parkings. */
  method PlanParking(loaded: Loaded, byParking: map<string, Association>, byApartment: map<string, seq<Association>>,
                     byId: map<string, Unit>, u: Unit, p: Plan, planned: Planned, ghost done: seq<Unit>)
    returns (q: Plan, nextPlanned: Planned)
    requires u.unitType.Estacionamiento? && PlanOk(loaded, done, p, planned)
    requires LookupsOk(loaded, byParking, byApartment, byId)
    ensures PlanOk(loaded, done + [u], q, nextPlanned)
    // Which list takes the unit.
    ensures q == if Target(loaded, u).None? then p.(orphanParkings := p.orphanParkings + [Orphan(u.id, u.code)])
                 else PlacedUnit(loaded, u, Flagged(loaded, u, p), planned)
  {
    q, nextPlanned := p, planned;
    if u.buildingId !in loaded.towers || u.id !in byParking || byParking[u.id].apartmentId !in byId {
      q := p.(orphanParkings := p.orphanParkings + [Orphan(u.id, u.code)]);
      OrphanStep(loaded, u, p, q, planned, done, Orphan(u.id, u.code));
      return;
    }
    var association := byParking[u.id];
    var apartment := byId[association.apartmentId];
    assert ApartmentFor(loaded, u.id) == Some(apartment);
    if apartment.buildingId != u.buildingId {
      q := q.(crossBuildingIssues := q.crossBuildingIssues + [CrossBuildingIssue(association.id, apartment.id, u.id)]);
    }
    var newCode := loaded.towers[u.buildingId].ParkingPrefix() + "-" + ExtractBaseCode(apartment.code)
                   + Suffix(IndexOf(Lists(byApartment, apartment.id), u.id));
    assert Target(loaded, u) == Some(newCode);
    if TakenByOther(loaded, u, newCode) || IsPlanned(planned, u.buildingId, newCode) {
      q := q.(conflicts := q.conflicts + [Conflict(u.id, u.code, newCode)]);
      ConflictStep(loaded, u, p, q, planned, done, Conflict(u.id, u.code, newCode));
      return;
    }
    nextPlanned := AddPlanned(planned, u.buildingId, newCode);
    var change := Change(u.id, u.code, newCode, NewLabel(u, newCode));
    if newCode == u.code {
      q := q.(skippedParkings := q.skippedParkings + [change]);
    } else {
      q := q.(parkingChanges := q.parkingChanges + [change]);
    }
    AcceptStep(loaded, u, p, q, planned, done, change);
  }

  // ---- The whole plan ----

  function OfType(units: seq<Unit>, unitType: UnitType): (r: seq<Unit>)
    ensures forall u :: u in r <==> u in units && u.unitType == unitType
  {
    if units == [] then []
    else if units[0].unitType == unitType then [units[0]] + OfType(units[1..], unitType)
    else OfType(units[1..], unitType)
  }

  function InOrder(units: seq<Unit>): seq<Unit> {
    OfType(units, Apartamento) + OfType(units, Estacionamiento)
  }

  /** What the plan of a run says: its conflicts are empty exactly when the renaming collides with nothing. */
  ghost predicate PlanFor(loaded: Loaded, p: Plan) {
    && ListsOnce(p, InOrder(loaded.units))
    && ChangesOk(loaded, loaded.units, p)
    && (p.conflicts == [] <==> CollisionFree(loaded))
    && (p.crossBuildingIssues == [] <==> forall u :: u in loaded.units ==> !Crosses(loaded, u))
  }

  method PlanApartments(loaded: Loaded, apartments: seq<Unit>) returns (p: Plan, planned: Planned)
    requires forall u :: u in apartments ==> u.unitType.Apartamento?
    ensures PlanOk(loaded, apartments, p, planned)
  {
    p, planned := EMPTY, map[];
    ghost var done: seq<Unit> := [];
    for i := 0 to |apartments|
      invariant done == apartments[..i] && PlanOk(loaded, done, p, planned)
    {
      p, planned := PlanApartment(loaded, apartments[i], p, planned, done);
      done := done + [apartments[i]];
    }
    assert apartments[..|apartments|] == apartments;
  }

  lemma OneMore(done: seq<Unit>, parkings: seq<Unit>, i: nat)
    requires i < |parkings|
    ensures (done + parkings[..i]) + [parkings[i]] == done + parkings[..i + 1]
  {
  }

  method PlanParkings(loaded: Loaded, parkings: seq<Unit>, p: Plan, planned: Planned, ghost done: seq<Unit>)
    returns (q: Plan, nextPlanned: Planned, ghost all: seq<Unit>)
    requires forall u :: u in parkings ==> u.unitType.Estacionamiento?
    requires PlanOk(loaded, done, p, planned)
    ensures PlanOk(loaded, all, q, nextPlanned) && all == done + parkings
  {
    var byParking, byApartment := BuildLookups(loaded.associations);
    var byId := BuildUnitMap(loaded.units);
    q, nextPlanned, all := p, planned, done;
    for i := 0 to |parkings|
      invariant LookupsOk(loaded, byParking, byApartment, byId) && PlanOk(loaded, all, q, nextPlanned)
      invariant all == done + parkings[..i]
    {
      q, nextPlanned := PlanParking(loaded, byParking, byApartment, byId, parkings[i], q, nextPlanned, all);
      OneMore(done, parkings, i);
      all := all + [parkings[i]];
    }
  }

  method PlanMigration(loaded: Loaded) returns (p: Plan)
    requires IdsUnique(loaded.units)
    ensures PlanFor(loaded, p)
  {
    var apartments, parkings := OfType(loaded.units, Apartamento), OfType(loaded.units, Estacionamiento);
    var planned: Planned;
    p, planned := PlanApartments(loaded, apartments);
    ghost var all: seq<Unit>;
    p, planned, all := PlanParkings(loaded, parkings, p, planned, apartments);
    assert all == InOrder(loaded.units);
    PlanComplete(loaded, p, planned);
  }

  lemma {:induction false} SettlesEachFits(loaded: Loaded, done: seq<Unit>)
    ensures Settles(loaded, done) <==> forall k :: 0 <= k < |done| ==> Fits(loaded, done[..k], done[k])
  {
    if done == [] {
    } else {
      var front := done[..|done| - 1];
      SettlesEachFits(loaded, front);
      assert forall k :: 0 <= k < |front| ==> front[..k] == done[..k] && front[k] == done[k];
    }
  }

  lemma {:induction false} OfTypeIdsUnique(units: seq<Unit>, unitType: UnitType)
    requires IdsUnique(units)
    ensures IdsUnique(OfType(units, unitType))
  {
    if units == [] {
    } else {
      OfTypeIdsUnique(units[1..], unitType);
      assert forall u :: u in OfType(units[1..], unitType) ==> u in units[1..];
    }
  }

  lemma InOrderIdsUnique(units: seq<Unit>)
    requires IdsUnique(units)
    ensures IdsUnique(InOrder(units))
  {
    OfTypeIdsUnique(units, Apartamento);
    OfTypeIdsUnique(units, Estacionamiento);
    forall u, v | u in units && v in units && u.unitType != v.unitType ensures u.id != v.id {
    }
  }

  lemma {:induction false} CollisionFreeSettles(loaded: Loaded)
    requires IdsUnique(loaded.units) && CollisionFree(loaded)
    ensures Settles(loaded, InOrder(loaded.units))
  {
    var done := InOrder(loaded.units);
    InOrderIdsUnique(loaded.units);
    SettlesEachFits(loaded, done);
    forall k | 0 <= k < |done| ensures Fits(loaded, done[..k], done[k]) {
      assert done[k] in done && Clear(loaded, done[k]);
    }
  }

  lemma SettledFits(loaded: Loaded, u: Unit) returns (i: nat)
    requires Settles(loaded, InOrder(loaded.units)) && u in loaded.units && !u.unitType.OtherType?
    ensures i < |InOrder(loaded.units)| && InOrder(loaded.units)[i] == u && Fits(loaded, InOrder(loaded.units)[..i], u)
  {
    var done := InOrder(loaded.units);
    SettlesEachFits(loaded, done);
    assert u in done;
    i :| 0 <= i < |done| && done[i] == u;
  }

  lemma {:induction false} SettledIsClear(loaded: Loaded, u: Unit, v: Unit)
    requires Settles(loaded, InOrder(loaded.units))
    requires u in loaded.units && v in loaded.units && v.id != u.id && v.buildingId == u.buildingId
    requires Target(loaded, u).Some?
    ensures v.code != Target(loaded, u).value && Target(loaded, v) != Target(loaded, u)
  {
    var done := InOrder(loaded.units);
    var i := SettledFits(loaded, u);
    assert Free(loaded, u);
    if Target(loaded, v) == Target(loaded, u) {
      var j := SettledFits(loaded, v);
      assert i < j ==> u in done[..j];
      assert j < i ==> v in done[..i];
      assert Wants(loaded, u, v.buildingId, Target(loaded, v).value);
      assert Wants(loaded, v, u.buildingId, Target(loaded, u).value);
    }
  }

  lemma {:induction false} SettledTowers(loaded: Loaded, u: Unit)
    requires Settles(loaded, InOrder(loaded.units)) && u in loaded.units && u.unitType.Apartamento?
    ensures u.buildingId in loaded.towers
  {
    var i := SettledFits(loaded, u);
  }

  lemma {:induction false} SettlesIff(loaded: Loaded)
    requires IdsUnique(loaded.units)
    ensures Settles(loaded, InOrder(loaded.units)) <==> CollisionFree(loaded)
  {
    if CollisionFree(loaded) {
      CollisionFreeSettles(loaded);
    } else if Settles(loaded, InOrder(loaded.units)) {
      forall u | u in loaded.units
        ensures Clear(loaded, u) && (u.unitType.Apartamento? ==> u.buildingId in loaded.towers)
      {
        if u.unitType.Apartamento? {
          SettledTowers(loaded, u);
        }
        forall v | v in loaded.units && v.id != u.id && v.buildingId == u.buildingId && Target(loaded, u).Some?
          ensures v.code != Target(loaded, u).value && Target(loaded, v) != Target(loaded, u)
        {
          SettledIsClear(loaded, u, v);
        }
      }
    }
  }

  lemma PlanComplete(loaded: Loaded, p: Plan, planned: Planned)
    requires IdsUnique(loaded.units) && PlanOk(loaded, InOrder(loaded.units), p, planned)
    ensures PlanFor(loaded, p)
  {
    SettlesIff(loaded);
    InOrderHasAll(loaded, p);
  }

  lemma InOrderHasAll(loaded: Loaded, p: Plan)
    ensures ChangesOk(loaded, InOrder(loaded.units), p) ==> ChangesOk(loaded, loaded.units, p)
    ensures (forall u :: u in InOrder(loaded.units) ==> !Crosses(loaded, u)) <==>
            forall u :: u in loaded.units ==> !Crosses(loaded, u)
  {
    var done := InOrder(loaded.units);
    assert forall u :: u in done <==> u in loaded.units && !u.unitType.OtherType?;
    forall unitType, c | IsChange(loaded, done, unitType, c) ensures IsChange(loaded, loaded.units, unitType, c) {
    }
  }
}
