/** The codes that the migration of Torre A and Torre B gives to units. */
module UnitRenaming {
  import opened Options

  datatype Tower = TorreA | TorreB {
    function Prefix(): string {
      match this
      case TorreA => "A"
      case TorreB => "B"
    }

    function ParkingPrefix(): string {
      match this
      case TorreA => "AP"
      case TorreB => "BP"
    }
  }

  datatype UnitType = Apartamento | Estacionamiento | OtherType

  /** The label of a unit is called caption here. */
  datatype Unit = Unit(id: string, code: string, caption: Option<string>, unitType: UnitType, buildingId: string)

  datatype Association = Association(id: string, apartmentId: string, parkingId: string)

  /** What runMigration loads: the towers by building id, their units and the associations, in query order. */
  datatype Loaded = Loaded(towers: map<string, Tower>, units: seq<Unit>, associations: seq<Association>)

  /** What the pattern ^(A|B|AP|BP)- leaves of a code. */
  function ExtractBaseCode(code: string): string {
    if "A-" <= code || "B-" <= code then code[2..]
    else if "AP-" <= code || "BP-" <= code then code[3..]
    else code
  }

  /** Extracting undoes both prefixes, whatever stands behind them. */
  lemma ExtractUndoesPrefix(tower: Tower, base: string)
    ensures ExtractBaseCode(tower.Prefix() + "-" + base) == base
    ensures ExtractBaseCode(tower.ParkingPrefix() + "-" + base) == base
  {
    var apartment, parking := tower.Prefix() + "-" + base, tower.ParkingPrefix() + "-" + base;
    assert apartment[2..] == base && parking[3..] == base;
    assert apartment[..2] == tower.Prefix() + "-" && parking[..3] == tower.ParkingPrefix() + "-";
    assert parking[1] == 'P' && "A-"[1] == '-' && "B-"[1] == '-';
  }

  function Decimal(n: nat): string {
    var digit := ['0' + (n % 10) as char];
    if n < 10 then digit else Decimal(n / 10) + digit
  }

  /** unitMap.get: a Map keeps the last entry of a key. */
  function FindUnit(units: seq<Unit>, id: string): (r: Option<Unit>)
    ensures r.Some? ==> r.value in units && r.value.id == id
    ensures r.None? ==> forall u :: u in units ==> u.id != id
  {
    if units == [] then None else
      var last := units[|units| - 1];
      if last.id == id then Some(last) else FindUnit(units[..|units| - 1], id)
  }

  /** parkingToAssociation.get: again the last one. */
  function AssociationOf(associations: seq<Association>, parkingId: string): (r: Option<Association>)
    ensures r.Some? ==> r.value in associations && r.value.parkingId == parkingId
    ensures r.None? ==> forall a :: a in associations ==> a.parkingId != parkingId
  {
    if associations == [] then None else
      var last := associations[|associations| - 1];
      if last.parkingId == parkingId then Some(last) else AssociationOf(associations[..|associations| - 1], parkingId)
  }

  lemma {:induction false} LastAssociationWins(associations: seq<Association>, parkingId: string, i: nat)
    requires i < |associations| && associations[i].parkingId == parkingId
    requires forall j :: i < j < |associations| ==> associations[j].parkingId != parkingId
    ensures AssociationOf(associations, parkingId) == Some(associations[i])
  {
    if i == |associations| - 1 {
    } else {
      LastAssociationWins(associations[..|associations| - 1], parkingId, i);
    }
  }

  /** apartmentToParkings.get, empty when undefined. */
  function ParkingsOf(associations: seq<Association>, apartmentId: string): (r: seq<Association>)
    ensures forall a :: a in r <==> a in associations && a.apartmentId == apartmentId
  {
    if associations == [] then [] else
      var last := associations[|associations| - 1];
      var before := ParkingsOf(associations[..|associations| - 1], apartmentId);
      if last.apartmentId == apartmentId then before + [last] else before
  }

  /** findIndex by parking id, -1 when there is none. */
  function IndexOf(list: seq<Association>, parkingId: string): (r: int)
    ensures -1 <= r < |list|
    ensures 0 <= r ==> list[r].parkingId == parkingId && forall k :: 0 <= k < r ==> list[k].parkingId != parkingId
    ensures r == -1 ==> forall k :: 0 <= k < |list| ==> list[k].parkingId != parkingId
  {
    if list == [] then -1
    else if list[0].parkingId == parkingId then 0
    else
      var r := IndexOf(list[1..], parkingId);
      if r == -1 then -1 else r + 1
  }

  function Suffix(index: int): string {
    if index > 0 then "-" + Decimal(index) else ""
  }

  /** The unit a parking takes its base code from, if the migration can find one. */
  function ApartmentFor(loaded: Loaded, parkingId: string): (r: Option<Unit>)
    ensures r.Some? ==> r.value in loaded.units
  {
    var association := AssociationOf(loaded.associations, parkingId);
    if association.None? then None else FindUnit(loaded.units, association.value.apartmentId)
  }

  function ParkingCode(tower: Tower, loaded: Loaded, parkingId: string, apartment: Unit): string {
    tower.ParkingPrefix() + "-" + ExtractBaseCode(apartment.code)
    + Suffix(IndexOf(ParkingsOf(loaded.associations, apartment.id), parkingId))
  }

  /** The code the migration wants for a unit; None for units it leaves alone. */
  function Target(loaded: Loaded, u: Unit): Option<string> {
    if u.buildingId !in loaded.towers then None
    else
      match u.unitType
      case Apartamento => Some(loaded.towers[u.buildingId].Prefix() + "-" + ExtractBaseCode(u.code))
      case Estacionamiento =>
        var apartment := ApartmentFor(loaded, u.id);
        if apartment.None? then None
        else Some(ParkingCode(loaded.towers[u.buildingId], loaded, u.id, apartment.value))
      case OtherType => None
  }

  predicate Contains(s: string, part: string) {
    exists i :: 0 <= i <= |s| && part <= s[i..]
  }

  predicate AlreadyMigrated(caption: Option<string>) {
    caption.Some? && Contains(caption.value, "(antes")
  }

  function NewLabel(u: Unit, newCode: string): Option<string> {
    if u.unitType != Estacionamiento || AlreadyMigrated(u.caption) then u.caption
    else Some("Puesto " + newCode + " (antes " + u.code + ")")
  }

  /** The new label of a parking keeps naming an old code, so a later migration does not overwrite it. */
  lemma NewLabelIsMigrated(u: Unit, newCode: string)
    requires u.unitType.Estacionamiento?
    ensures AlreadyMigrated(NewLabel(u, newCode))
    ensures forall v: Unit, other :: v.caption == NewLabel(u, newCode) ==> NewLabel(v, other) == v.caption
  {
    if !AlreadyMigrated(u.caption) {
      var caption := NewLabel(u, newCode).value;
      var i := |"Puesto " + newCode + " "|;
      assert caption[i..] == "(antes " + u.code + ")";
      assert "(antes" <= caption[i..];
    }
  }

  // ---- The units a rename touches, and every state on the way ----

  predicate IdsUnique(units: seq<Unit>) {
    forall i, j :: 0 <= i < j < |units| ==> units[i].id != units[j].id
  }

  predicate Clash(u: Unit, v: Unit) {
    u.id != v.id && u.buildingId == v.buildingId && u.code == v.code
  }

  /** The unique key (buildingId, code) of units. */
  predicate CodesUnique(units: seq<Unit>) {
    forall u, v :: u in units && v in units ==> !Clash(u, v)
  }

  function Renamed(loaded: Loaded, u: Unit): (r: Unit)
    ensures r.id == u.id && r.buildingId == u.buildingId && r.unitType == u.unitType
    ensures r.code == Target(loaded, u).GetOr(u.code)
  {
    var target := Target(loaded, u);
    if target.None? || target.value == u.code then u
    else u.(code := target.value, caption := NewLabel(u, target.value))
  }

  function After(loaded: Loaded, applied: set<string>, u: Unit): Unit {
    if u.id in applied then Renamed(loaded, u) else u
  }

  /** The units when those with ids in applied have been updated and the others not yet. */
  function Partial(loaded: Loaded, applied: set<string>): (r: seq<Unit>)
    ensures |r| == |loaded.units|
    ensures forall i :: 0 <= i < |r| ==> r[i] == After(loaded, applied, loaded.units[i])
  {
    seq(|loaded.units|, i requires 0 <= i < |loaded.units| => After(loaded, applied, loaded.units[i]))
  }

  predicate Wants(loaded: Loaded, u: Unit, buildingId: string, code: string) {
    u.buildingId == buildingId && Target(loaded, u) == Some(code)
  }

  /** No other unit has, or is to get, the code wanted for u. */
  predicate Clear(loaded: Loaded, u: Unit) {
    Target(loaded, u).Some? ==>
      forall v :: v in loaded.units && v.id != u.id && v.buildingId == u.buildingId ==>
        v.code != Target(loaded, u).value && Target(loaded, v) != Target(loaded, u)
  }

  /** When the migration may go ahead: known towers, and codes that collide with nothing old or new. */
  predicate CollisionFree(loaded: Loaded) {
    && (forall u :: u in loaded.units && u.unitType.Apartamento? ==> u.buildingId in loaded.towers)
    && (forall u :: u in loaded.units ==> Clear(loaded, u))
  }

  lemma EveryPartialStateIsLegal(loaded: Loaded, applied: set<string>)
    requires IdsUnique(loaded.units) && CodesUnique(loaded.units)
    requires forall u :: u in loaded.units ==> Clear(loaded, u)
    ensures CodesUnique(Partial(loaded, applied))
  {
    var now := Partial(loaded, applied);
    forall i, j | 0 <= i < |now| && 0 <= j < |now| ensures !Clash(now[i], now[j]) {
      var u, v := loaded.units[i], loaded.units[j];
      assert !Clash(u, v) && Clear(loaded, u) && Clear(loaded, v);
    }
  }

  lemma PartialHas(loaded: Loaded, applied: set<string>, u: Unit)
    requires u in loaded.units
    ensures After(loaded, applied, u) in Partial(loaded, applied)
  {
    var i :| 0 <= i < |loaded.units| && loaded.units[i] == u;
    assert Partial(loaded, applied)[i] == After(loaded, applied, u);
  }

  lemma ClashIsIllegal(loaded: Loaded, applied: set<string>, u: Unit, v: Unit)
    requires u in loaded.units && v in loaded.units && Clash(After(loaded, applied, u), After(loaded, applied, v))
    ensures !CodesUnique(Partial(loaded, applied))
  {
    PartialHas(loaded, applied, u);
    PartialHas(loaded, applied, v);
  }

  lemma CollidingStateIsIllegal(loaded: Loaded, u: Unit, v: Unit) returns (applied: set<string>)
    requires u in loaded.units && v in loaded.units && u.id != v.id && u.buildingId == v.buildingId
    requires Target(loaded, u).Some? && (v.code == Target(loaded, u).value || Target(loaded, v) == Target(loaded, u))
    ensures !CodesUnique(Partial(loaded, applied))
  {
    applied := if v.code == Target(loaded, u).value then {u.id} else {u.id, v.id};
    ClashIsIllegal(loaded, applied, u, v);
  }

  /** Whichever updates have been applied, in whatever order, the key holds: exactly when every target is clear. */
  lemma PartialStatesLegalIff(loaded: Loaded)
    requires IdsUnique(loaded.units) && CodesUnique(loaded.units)
    ensures (forall applied :: CodesUnique(Partial(loaded, applied))) <==>
            forall u :: u in loaded.units ==> Clear(loaded, u)
  {
    if forall u :: u in loaded.units ==> Clear(loaded, u) {
      forall applied ensures CodesUnique(Partial(loaded, applied)) {
        EveryPartialStateIsLegal(loaded, applied);
      }
    } else {
      var u :| u in loaded.units && !Clear(loaded, u);
      var v :| v in loaded.units && v.id != u.id && v.buildingId == u.buildingId
            && (v.code == Target(loaded, u).value || Target(loaded, v) == Target(loaded, u));
      var applied := CollidingStateIsIllegal(loaded, u, v);
    }
  }

  // ---- Running it again ----

  function AllIds(loaded: Loaded): set<string> {
    set u | u in loaded.units :: u.id
  }

  /** What a second run loads. */
  function Again(loaded: Loaded): Loaded {
    loaded.(units := Partial(loaded, AllIds(loaded)))
  }

  /** If u is a parking to be renamed, the unit it takes its base from keeps its own base. */
  predicate BaseStable(loaded: Loaded, u: Unit) {
    u.unitType.Estacionamiento? && Target(loaded, u).Some? ==>
      var apartment := ApartmentFor(loaded, u.id).value;
      ExtractBaseCode(Renamed(loaded, apartment).code) == ExtractBaseCode(apartment.code)
  }

  predicate BasesStable(loaded: Loaded) {
    forall u :: u in loaded.units ==> BaseStable(loaded, u)
  }

  /** The second run wants exactly the codes the first gave. */
  predicate Settled(loaded: Loaded) {
    forall u :: u in loaded.units && Target(loaded, u).Some? ==> Target(loaded, u).value == u.code
  }

  lemma {:induction false} FindUnitMapped(before: seq<Unit>, after: seq<Unit>, id: string)
    requires |before| == |after| && forall i :: 0 <= i < |before| ==> after[i].id == before[i].id
    ensures FindUnit(after, id).Some? == FindUnit(before, id).Some?
    ensures FindUnit(before, id).Some? ==>
              exists i :: 0 <= i < |before| && before[i] == FindUnit(before, id).value
                          && after[i] == FindUnit(after, id).value
  {
    if before != [] && before[|before| - 1].id != id {
      FindUnitMapped(before[..|before| - 1], after[..|after| - 1], id);
    } else if before != [] {
      assert before[|before| - 1] == FindUnit(before, id).value && after[|before| - 1] == FindUnit(after, id).value;
    }
  }

  /** The second run finds the same unit for a parking, renamed. */
  lemma AgainApartment(loaded: Loaded, parkingId: string)
    ensures ApartmentFor(loaded, parkingId).None? ==> ApartmentFor(Again(loaded), parkingId).None?
    ensures ApartmentFor(loaded, parkingId).Some? ==>
              ApartmentFor(Again(loaded), parkingId) == Some(Renamed(loaded, ApartmentFor(loaded, parkingId).value))
  {
    var association := AssociationOf(loaded.associations, parkingId);
    if association.Some? {
      FindUnitMapped(loaded.units, Again(loaded).units, association.value.apartmentId);
    }
  }

  lemma SameMiddle(prefix: string, a: string, b: string, suffix: string)
    requires prefix + "-" + a + suffix == prefix + "-" + b + suffix
    ensures a == b
  {
    var whole := prefix + "-" + a + suffix;
    assert |a| == |b|;
    assert a == whole[|prefix| + 1..|prefix| + 1 + |a|] == b;
  }

  /** A second run wants for a unit what the first did, unless it is a parking whose base has changed. */
  lemma AgainTargetIff(loaded: Loaded, u: Unit)
    requires u in loaded.units
    ensures Target(Again(loaded), Renamed(loaded, u)).Some? == Target(loaded, u).Some?
    ensures Target(Again(loaded), Renamed(loaded, u)) == Target(loaded, u) <==> BaseStable(loaded, u)
  {
    if u.buildingId in loaded.towers {
      var tower := loaded.towers[u.buildingId];
      match u.unitType
      case Apartamento => ExtractUndoesPrefix(tower, ExtractBaseCode(u.code));
      case Estacionamiento =>
        AgainApartment(loaded, u.id);
        var apartment := ApartmentFor(loaded, u.id);
        if apartment.Some? {
          AgainParkingCode(tower, loaded, u.id, apartment.value);
        }
      case OtherType =>
    }
  }

  lemma AgainParkingCode(tower: Tower, loaded: Loaded, parkingId: string, apartment: Unit)
    ensures ParkingCode(tower, Again(loaded), parkingId, Renamed(loaded, apartment))
         == ParkingCode(tower, loaded, parkingId, apartment)
       <==> ExtractBaseCode(Renamed(loaded, apartment).code) == ExtractBaseCode(apartment.code)
  {
    var a, b := ExtractBaseCode(Renamed(loaded, apartment).code), ExtractBaseCode(apartment.code);
    var suffix := Suffix(IndexOf(ParkingsOf(loaded.associations, apartment.id), parkingId));
    if tower.ParkingPrefix() + "-" + a + suffix == tower.ParkingPrefix() + "-" + b + suffix {
      SameMiddle(tower.ParkingPrefix(), a, b, suffix);
    }
  }

  lemma AgainUnit(loaded: Loaded, i: nat)
    requires i < |loaded.units|
    ensures Again(loaded).units[i] == Renamed(loaded, loaded.units[i])
  {
    assert loaded.units[i].id in AllIds(loaded);
  }

  lemma SettledIff(loaded: Loaded)
    ensures Settled(Again(loaded)) <==> BasesStable(loaded)
  {
    var again := Again(loaded);
    forall i | 0 <= i < |loaded.units|
      ensures again.units[i] == Renamed(loaded, loaded.units[i])
      ensures (Target(again, again.units[i]).Some? ==> Target(again, again.units[i]).value == again.units[i].code)
         <==> BaseStable(loaded, loaded.units[i])
    {
      AgainUnit(loaded, i);
      AgainTargetIff(loaded, loaded.units[i]);
    }
    if BasesStable(loaded) {
      forall u | u in again.units && Target(again, u).Some? ensures Target(again, u).value == u.code {
        var i :| 0 <= i < |loaded.units| && again.units[i] == u;
        assert loaded.units[i] in loaded.units;
      }
    }
    if Settled(again) {
      forall u | u in loaded.units ensures BaseStable(loaded, u) {
        var i :| 0 <= i < |loaded.units| && loaded.units[i] == u;
        assert again.units[i] in again.units;
      }
    }
  }

  lemma AgainClear(loaded: Loaded, i: nat)
    requires CollisionFree(loaded) && BasesStable(loaded) && i < |loaded.units|
    ensures Clear(Again(loaded), Again(loaded).units[i])
  {
    var again, u := Again(loaded), loaded.units[i];
    AgainUnit(loaded, i);
    AgainTargetIff(loaded, u);
    assert Clear(loaded, u) && BaseStable(loaded, u);
    if Target(loaded, u).Some? {
      forall v' | v' in again.units && v'.id != u.id && v'.buildingId == u.buildingId
        ensures v'.code != Target(loaded, u).value && Target(again, v') != Target(loaded, u)
      {
        var j :| 0 <= j < |loaded.units| && again.units[j] == v';
        AgainUnit(loaded, j);
        AgainTargetIff(loaded, loaded.units[j]);
        assert loaded.units[j] in loaded.units && BaseStable(loaded, loaded.units[j]);
      }
    }
  }

  /**
   * After a run without collisions, a second run has nothing to rename and nothing that collides exactly when
   * the bases are stable.
   */
  lemma SecondRunIdleIff(loaded: Loaded)
    requires CollisionFree(loaded)
    ensures CollisionFree(Again(loaded)) && Settled(Again(loaded)) <==> BasesStable(loaded)
  {
    SettledIff(loaded);
    if BasesStable(loaded) {
      var again := Again(loaded);
      forall u | u in again.units
        ensures Clear(again, u) && (u.unitType.Apartamento? ==> u.buildingId in again.towers)
      {
        var i :| 0 <= i < |loaded.units| && again.units[i] == u;
        AgainUnit(loaded, i);
        AgainClear(loaded, i);
        assert loaded.units[i] in loaded.units;
      }
    }
  }

  /** Associations that point at no parking keep every base. */
  lemma ApartmentsKeepBases(loaded: Loaded)
    requires forall u :: u in loaded.units && ApartmentFor(loaded, u.id).Some? ==>
               !ApartmentFor(loaded, u.id).value.unitType.Estacionamiento?
    ensures BasesStable(loaded)
  {
    forall u | u in loaded.units ensures BaseStable(loaded, u) {
      if u.unitType.Estacionamiento? && Target(loaded, u).Some? {
        var apartment := ApartmentFor(loaded, u.id).value;
        if apartment.buildingId in loaded.towers && apartment.unitType.Apartamento? {
          ExtractUndoesPrefix(loaded.towers[apartment.buildingId], ExtractBaseCode(apartment.code));
        }
      }
    }
  }

  // ---- A renaming that is not stable ----

  /** An apartment, a parking associated with it, and a parking associated with that parking. */
  const APARTMENT := Unit("a", "101", None, Apartamento, "t")
  const NEAR := Unit("x", "X", None, Estacionamiento, "t")
  const FAR := Unit("y", "Y", None, Estacionamiento, "t")
  const CHAIN := Loaded(map["t" := TorreA], [APARTMENT, NEAR, FAR],
      [Association("1", "a", "x"), Association("2", "x", "y")])

  lemma {:induction false} LastUnitWins(units: seq<Unit>, id: string, i: nat)
    requires i < |units| && units[i].id == id
    requires forall j :: i < j < |units| ==> units[j].id != id
    ensures FindUnit(units, id) == Some(units[i])
  {
    if i == |units| - 1 {
    } else {
      LastUnitWins(units[..|units| - 1], id, i);
    }
  }

  lemma ChainApartments()
    ensures ApartmentFor(CHAIN, "x") == Some(APARTMENT) && ApartmentFor(CHAIN, "y") == Some(NEAR)
  {
    LastAssociationWins(CHAIN.associations, "x", 0);
    LastAssociationWins(CHAIN.associations, "y", 1);
    LastUnitWins(CHAIN.units, "a", 0);
    LastUnitWins(CHAIN.units, "x", 1);
  }

  lemma NoPrefixToDrop(code: string)
    requires |code| < 2 || (code[1] != '-' && (|code| < 3 || code[2] != '-'))
    ensures ExtractBaseCode(code) == code
  {
    if |code| >= 3 {
      assert "AP-"[2] == '-' && "BP-"[2] == '-' && "A-"[1] == '-' && "B-"[1] == '-';
    }
  }

  lemma ChainCodes()
    ensures ParkingCode(TorreA, CHAIN, "x", APARTMENT) == "AP-101"
    ensures ParkingCode(TorreA, CHAIN, "y", NEAR) == "AP-X"
  {
    NoPrefixToDrop("101");
    NoPrefixToDrop("X");
  }

  lemma ChainTargets()
    ensures Target(CHAIN, APARTMENT) == Some("A-101") && Target(CHAIN, NEAR) == Some("AP-101")
    ensures Target(CHAIN, FAR) == Some("AP-X")
  {
    ChainApartments();
    ChainCodes();
    NoPrefixToDrop("101");
    assert "A" + "-" + "101" == "A-101";
  }

  /** A unit is clear among three when neither of the others has or wants its code. */
  lemma ClearAmongThree(loaded: Loaded, u: Unit, v: Unit, w: Unit)
    requires forall x :: x in loaded.units ==> x in {u, v, w}
    requires Target(loaded, u).Some? && Target(loaded, u).value !in {v.code, w.code}
    requires Target(loaded, u) != Target(loaded, v) && Target(loaded, u) != Target(loaded, w)
    ensures Clear(loaded, u)
  {
  }

  lemma ChainIsClear()
    ensures Clear(CHAIN, APARTMENT) && Clear(CHAIN, NEAR) && Clear(CHAIN, FAR)
  {
    ChainTargets();
    ClearAmongThree(CHAIN, APARTMENT, NEAR, FAR);
    ClearAmongThree(CHAIN, NEAR, APARTMENT, FAR);
    ClearAmongThree(CHAIN, FAR, APARTMENT, NEAR);
  }

  lemma ChainKeysUnique()
    ensures IdsUnique(CHAIN.units) && CodesUnique(CHAIN.units)
  {
  }

  lemma FreeAmongThree(loaded: Loaded, u: Unit, v: Unit, w: Unit)
    requires forall x :: x in loaded.units ==> x in {u, v, w}
    requires Clear(loaded, u) && Clear(loaded, v) && Clear(loaded, w)
    requires u.buildingId in loaded.towers && !v.unitType.Apartamento? && !w.unitType.Apartamento?
    ensures CollisionFree(loaded)
  {
  }

  lemma ChainIsFree()
    ensures CollisionFree(CHAIN)
  {
    ChainIsClear();
    FreeAmongThree(CHAIN, APARTMENT, NEAR, FAR);
  }

  /**
   * The chain keeps its keys, goes ahead without collision, and yet a second run would want other codes:
   * the parking in the middle changed its base.
   */
  lemma UnstableRenaming() returns (loaded: Loaded)
    ensures IdsUnique(loaded.units) && CodesUnique(loaded.units)
    ensures CollisionFree(loaded)
    ensures !BasesStable(loaded)
  {
    loaded := CHAIN;
    ChainKeysUnique();
    ChainIsFree();
    ChainMovesBase();
  }

  lemma ChainMovesBase()
    ensures FAR in CHAIN.units && !BaseStable(CHAIN, FAR)
  {
    ChainTargets();
    ChainApartments();
    ExtractUndoesPrefix(TorreA, "101");
    assert "AP" + "-" + "101" == "AP-101";
    NoPrefixToDrop("X");
    assert Renamed(CHAIN, NEAR).code == "AP-101";
  }
}
