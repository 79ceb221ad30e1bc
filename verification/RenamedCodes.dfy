/** The codes and labels that a run of the rename migration leaves, letter by letter. */
module RenamedCodes {
  import opened Options
  import opened UnitRenaming

  // ---- Base codes ----

  predicate Prefixed(code: string) {
    || (|code| >= 2 && (code[..2] == "A-" || code[..2] == "B-"))
    || (|code| >= 3 && (code[..3] == "AP-" || code[..3] == "BP-"))
  }

  /** Extraction drops one of the four prefixes and nothing else, and leaves codes without one alone. */
  lemma BaseCodeIs(code: string)
    ensures |code| >= 2 && (code[..2] == "A-" || code[..2] == "B-") ==> ExtractBaseCode(code) == code[2..]
    ensures |code| >= 3 && (code[..3] == "AP-" || code[..3] == "BP-") ==> ExtractBaseCode(code) == code[3..]
    ensures !Prefixed(code) ==> ExtractBaseCode(code) == code
  {
    assert "A-" <= code <==> |code| >= 2 && code[..2] == "A-";
    assert "B-" <= code <==> |code| >= 2 && code[..2] == "B-";
    assert "AP-" <= code <==> |code| >= 3 && code[..3] == "AP-";
    assert "BP-" <= code <==> |code| >= 3 && code[..3] == "BP-";
    assert |code| >= 3 && code[..3] in {"AP-", "BP-"} ==> code[..2] != "A-" && code[..2] != "B-" by {
      if |code| >= 3 && code[..3] in {"AP-", "BP-"} {
        assert code[1] == code[..3][1] == 'P' && code[..2][1] == 'P';
      }
    }
  }

  // ---- Decimal suffixes ----

  predicate IsDigits(s: string) {
    forall i :: 0 <= i < |s| ==> '0' <= s[i] <= '9'
  }

  /** The number that digits stand for. */
  function ValueOf(s: string): int {
    if s == [] then 0 else 10 * ValueOf(s[..|s| - 1]) + (s[|s| - 1] as int - '0' as int)
  }

  lemma {:induction false} DecimalReads(n: nat)
    ensures IsDigits(Decimal(n)) && ValueOf(Decimal(n)) == n
    ensures |Decimal(n)| >= 1 && (|Decimal(n)| > 1 ==> Decimal(n)[0] != '0')
  {
    var digit := ['0' + (n % 10) as char];
    if n < 10 {
      assert digit[..0] == [];
    } else {
      DecimalReads(n / 10);
      var front := Decimal(n / 10);
      assert (front + digit)[..|front + digit| - 1] == front;
      assert n / 10 < 10 ==> ValueOf(front) == n / 10;
      NotZero(n / 10);
    }
  }

  lemma {:induction false} NotZero(n: nat)
    requires n > 0
    ensures Decimal(n)[0] != '0'
  {
    if n < 10 {
    } else {
      NotZero(n / 10);
    }
  }

  lemma {:induction false} DecimalInjective(m: nat, n: nat)
    requires Decimal(m) == Decimal(n)
    ensures m == n
  {
    DecimalReads(m);
    DecimalReads(n);
  }

  // ---- Codes and labels ----

  predicate SaysBeforeAt(caption: string, i: nat) {
    i + 6 <= |caption| && caption[i..i + 6] == "(antes"
  }

  predicate SaysBefore(caption: string) {
    exists i: nat :: i <= |caption| && SaysBeforeAt(caption, i)
  }

  /** The unit a parking is associated to, by its last association. */
  lemma ApartmentIs(loaded: Loaded, parkingId: string)
    ensures ApartmentFor(loaded, parkingId).Some? ==>
              exists a, u :: a in loaded.associations && u in loaded.units && ApartmentFor(loaded, parkingId) == Some(u)
                             && a.parkingId == parkingId && u.id == a.apartmentId
    ensures ApartmentFor(loaded, parkingId).None? ==>
              forall i, u :: 0 <= i < |loaded.associations| && u in loaded.units
                             && IsLastOf(loaded.associations, parkingId, i) ==>
                               loaded.associations[i].apartmentId != u.id
  {
    if ApartmentFor(loaded, parkingId).None? {
      forall i, u | 0 <= i < |loaded.associations| && u in loaded.units && IsLastOf(loaded.associations, parkingId, i)
        ensures loaded.associations[i].apartmentId != u.id
      {
        LastAssociationWins(loaded.associations, parkingId, i);
      }
    }
  }

  predicate IsLastOf(associations: seq<Association>, parkingId: string, i: nat)
    requires i < |associations|
  {
    && associations[i].parkingId == parkingId
    && forall j :: i < j < |associations| ==> associations[j].parkingId != parkingId
  }

  /** The parking is given a code: its tower is known, and so is the unit it is associated to. */
  predicate HasApartment(loaded: Loaded, u: Unit) {
    u.unitType.Estacionamiento? && u.buildingId in loaded.towers && ApartmentFor(loaded, u.id).Some?
  }

  /** Where a parking comes among the associations of its apartment. */
  function PlaceOf(loaded: Loaded, u: Unit): int
    requires HasApartment(loaded, u)
  {
    IndexOf(ParkingsOf(loaded.associations, ApartmentFor(loaded, u.id).value.id), u.id)
  }

  /** The first parking has no suffix, the others have a dash and their place. */
  function ParkingCodeOf(loaded: Loaded, u: Unit): string
    requires HasApartment(loaded, u)
  {
    (if loaded.towers[u.buildingId] == TorreA then "AP-" else "BP-")
    + ExtractBaseCode(ApartmentFor(loaded, u.id).value.code)
    + (if PlaceOf(loaded, u) <= 0 then "" else "-" + Decimal(PlaceOf(loaded, u)))
  }

  /** What a run makes of a unit. */
  predicate Becomes(loaded: Loaded, u: Unit, v: Unit) {
    && (u.unitType.Apartamento? ==>
          && u.buildingId in loaded.towers
          && v == u.(code := (if loaded.towers[u.buildingId] == TorreA then "A-" else "B-") + ExtractBaseCode(u.code)))
    && (HasApartment(loaded, u) ==>
          var code := ParkingCodeOf(loaded, u);
          v == if code == u.code || (u.caption.Some? && SaysBefore(u.caption.value)) then u.(code := code)
               else u.(code := code, caption := Some("Puesto " + code + " (antes " + u.code + ")")))
    && (!u.unitType.Apartamento? && !HasApartment(loaded, u) ==> v == u)
  }

  lemma SaysBeforeIs(caption: Option<string>)
    ensures AlreadyMigrated(caption) <==> caption.Some? && SaysBefore(caption.value)
  {
    if caption.Some? {
      var c := caption.value;
      if Contains(c, "(antes") {
        var i :| 0 <= i <= |c| && "(antes" <= c[i..];
        assert c[i..][..6] == c[i..i + 6];
        assert SaysBeforeAt(c, i);
      }
      if SaysBefore(c) {
        var i: nat :| i <= |c| && SaysBeforeAt(c, i);
        assert c[i..][..6] == c[i..i + 6];
      }
    }
  }

  lemma PrefixesAre(tower: Tower)
    ensures tower.Prefix() + "-" == if tower == TorreA then "A-" else "B-"
    ensures tower.ParkingPrefix() + "-" == if tower == TorreA then "AP-" else "BP-"
  {
  }

  lemma TargetIs(loaded: Loaded, u: Unit)
    requires u.unitType.Apartamento? ==> u.buildingId in loaded.towers
    ensures u.unitType.Apartamento? ==>
              Target(loaded, u) == Some((if loaded.towers[u.buildingId] == TorreA then "A-" else "B-")
                                        + ExtractBaseCode(u.code))
    ensures HasApartment(loaded, u) ==> Target(loaded, u) == Some(ParkingCodeOf(loaded, u))
    ensures !u.unitType.Apartamento? && !HasApartment(loaded, u) ==> Target(loaded, u) == None
  {
    if u.buildingId in loaded.towers {
      PrefixesAre(loaded.towers[u.buildingId]);
    }
  }

  /** Apartments get the letter of their tower and their base, parkings the letters and the base of their apartment. */
  lemma RenamedBecomes(loaded: Loaded, u: Unit)
    requires u.unitType.Apartamento? ==> u.buildingId in loaded.towers
    ensures Becomes(loaded, u, Renamed(loaded, u))
  {
    TargetIs(loaded, u);
    SaysBeforeIs(u.caption);
    if HasApartment(loaded, u) {
      var code := ParkingCodeOf(loaded, u);
      assert "Puesto " + code + " (antes " + u.code + ")" == NewLabel(u.(caption := None), code).value;
    }
  }

  // ---- Which codes differ ----

  predicate GetsCode(loaded: Loaded, u: Unit) {
    (u.unitType.Apartamento? && u.buildingId in loaded.towers) || HasApartment(loaded, u)
  }

  /** Units of different towers, and apartments and parkings, never get the same code. */
  lemma TowersAndTypesDiffer(loaded: Loaded, u: Unit, u': Unit, v: Unit, v': Unit)
    requires GetsCode(loaded, u) && GetsCode(loaded, v) && Becomes(loaded, u, u') && Becomes(loaded, v, v')
    requires u.unitType != v.unitType || loaded.towers[u.buildingId] != loaded.towers[v.buildingId]
    ensures u'.code != v'.code
  {
    FirstLetters(loaded, u, u');
    FirstLetters(loaded, v, v');
  }

  lemma FirstLetters(loaded: Loaded, u: Unit, v: Unit)
    requires GetsCode(loaded, u) && Becomes(loaded, u, v)
    ensures |v.code| >= 2
    ensures v.code[0] == if loaded.towers[u.buildingId] == TorreA then 'A' else 'B'
    ensures v.code[1] == if u.unitType.Apartamento? then '-' else 'P'
  {
  }

  /** Different parkings of one apartment in one tower get different codes. */
  lemma ParkingsDiffer(loaded: Loaded, u: Unit, u': Unit, v: Unit, v': Unit)
    requires HasApartment(loaded, u) && HasApartment(loaded, v) && u.id != v.id
    requires Becomes(loaded, u, u') && Becomes(loaded, v, v')
    requires ApartmentFor(loaded, u.id) == ApartmentFor(loaded, v.id)
    requires loaded.towers[u.buildingId] == loaded.towers[v.buildingId]
    ensures u'.code != v'.code
  {
    IsListed(loaded, u);
    IsListed(loaded, v);
    var i, j := PlaceOf(loaded, u), PlaceOf(loaded, v);
    var head := (if loaded.towers[u.buildingId] == TorreA then "AP-" else "BP-")
                + ExtractBaseCode(ApartmentFor(loaded, u.id).value.code);
    SuffixesDiffer(head, i, j);
  }

  /** A parking is among the associations of the unit it is associated to. */
  lemma IsListed(loaded: Loaded, u: Unit)
    requires HasApartment(loaded, u)
    ensures var list := ParkingsOf(loaded.associations, ApartmentFor(loaded, u.id).value.id);
            0 <= PlaceOf(loaded, u) < |list| && list[PlaceOf(loaded, u)].parkingId == u.id
  {
    var a := AssociationOf(loaded.associations, u.id).value;
    assert a in ParkingsOf(loaded.associations, ApartmentFor(loaded, u.id).value.id);
  }

  lemma {:induction false} SuffixesDiffer(head: string, i: nat, j: nat)
    requires i != j
    ensures head + (if i <= 0 then "" else "-" + Decimal(i)) != head + (if j <= 0 then "" else "-" + Decimal(j))
  {
    var a, b := if i <= 0 then "" else "-" + Decimal(i), if j <= 0 then "" else "-" + Decimal(j);
    if head + a == head + b {
      assert (head + a)[|head|..] == a && (head + b)[|head|..] == b;
      assert i > 0 && j > 0;
      assert a[1..] == Decimal(i) && b[1..] == Decimal(j);
      DecimalInjective(i, j);
    }
  }
}
