/** normalizeJson and sameJson: values compared by the texts of their normal forms. */
module CanonicalJson {
  import opened Text
  import opened Options
  import opened JsonText

  /** The name whose assignment sets the prototype of an object instead of adding a member. */
  const PROTO: Text := [95, 95, 112, 114, 111, 116, 111, 95, 95]

  // ---- Key orders ----

  /** The default order of Array.prototype.sort on strings: by code units. */
  predicate UnitsBefore(a: Text, b: Text) {
    b != [] && (a == [] || a[0] < b[0] || (a[0] == b[0] && UnitsBefore(a[1..], b[1..])))
  }

  /** An array index of section 6.1.7 of ECMA-262; such keys are enumerated first, in numeric order. */
  predicate IsArrayIndex(key: Text) {
    IsNumeral(key) && DigitsValue(key) < 0xFFFF_FFFF
  }

  lemma ProtoIs()
    ensures PROTO == Ascii("__proto__")
  {
  }

  /** The array indexes are the numerals of the numbers below 2^32 - 1. */
  lemma ArrayIndexIff(key: Text)
    ensures IsArrayIndex(key) <==> exists n: nat :: n < 4294967295 && key == NatText(n)
  {
    if IsArrayIndex(key) {
      NatTextValue(DigitsValue(key));
      NumeralInjective(key, NatText(DigitsValue(key)));
    }
    if n: nat :| n < 4294967295 && key == NatText(n) {
      NatTextValue(n);
    }
  }

  /** OrdinaryOwnPropertyKeys order among the members of a normal form. */
  predicate Before(a: Text, b: Text) {
    if IsArrayIndex(a) then !IsArrayIndex(b) || DigitsValue(a) < DigitsValue(b)
    else !IsArrayIndex(b) && UnitsBefore(a, b)
  }

  predicate SortedByUnits(ms: seq<Member>) {
    forall i, j :: 0 <= i < j < |ms| ==> UnitsBefore(ms[i].key, ms[j].key)
  }

  predicate InPropertyOrder(ms: seq<Member>) {
    forall i, j :: 0 <= i < j < |ms| ==> Before(ms[i].key, ms[j].key)
  }

  lemma {:induction false} UnitsTotal(a: Text, b: Text)
    ensures UnitsBefore(a, b) || UnitsBefore(b, a) || a == b
    ensures !(UnitsBefore(a, b) && UnitsBefore(b, a))
    ensures !UnitsBefore(a, a)
  {
    if a != [] && b != [] {
      UnitsTotal(a[1..], b[1..]);
      assert a == [a[0]] + a[1..] && b == [b[0]] + b[1..];
    }
    if a != [] {
      UnitsTotal(a[1..], a[1..]);
    }
  }

  lemma {:induction false} UnitsTransitive(a: Text, b: Text, c: Text)
    requires UnitsBefore(a, b) && UnitsBefore(b, c)
    ensures UnitsBefore(a, c)
  {
    if a == [] || a[0] != b[0] || b[0] != c[0] {
    } else {
      UnitsTransitive(a[1..], b[1..], c[1..]);
    }
  }

  lemma BeforeStrict(a: Text, b: Text)
    ensures !(Before(a, b) && Before(b, a)) && !Before(a, a)
  {
    UnitsTotal(a, b);
    UnitsTotal(a, a);
  }

  // ---- Normal forms ----

  /** Object.keys(value).sort(): the members in the order of their keys. */
  function InsertMember(m: Member, sorted: seq<Member>): (r: seq<Member>)
    ensures multiset(r) == multiset(sorted) + multiset{m}
  {
    if sorted == [] || UnitsBefore(m.key, sorted[0].key) then [m] + sorted else
      assert sorted == [sorted[0]] + sorted[1..];
      [sorted[0]] + InsertMember(m, sorted[1..])
  }

  function SortMembers(ms: seq<Member>): (r: seq<Member>)
    ensures multiset(r) == multiset(ms)
  {
    if ms == [] then [] else
      assert ms == [ms[0]] + ms[1..];
      InsertMember(ms[0], SortMembers(ms[1..]))
  }

  /** Where a new array index goes among the members of an object. */
  function PlaceIndex(ms: seq<Member>, m: Member): seq<Member>
    requires IsArrayIndex(m.key)
  {
    if ms == [] || Before(m.key, ms[0].key) then [m] + ms
    else [ms[0]] + PlaceIndex(ms[1..], m)
  }

  /** accumulator[key] = value, for a key the accumulator does not have yet. */
  function Assign(ms: seq<Member>, m: Member): seq<Member> {
    if m.key == PROTO then ms
    else if IsArrayIndex(m.key) then PlaceIndex(ms, m)
    else ms + [m]
  }

  function AssignAll(ms: seq<Member>): seq<Member> {
    if ms == [] then [] else Assign(AssignAll(ms[..|ms| - 1]), ms[|ms| - 1])
  }

  function Normalize(v: Json): Json
    decreases v
  {
    match v
    case Arr(items) => Arr(seq(|items|, i requires 0 <= i < |items| => Normalize(items[i])))
    case Obj(ms) => Obj(AssignAll(SortMembers(NormalizeMembers(ms))))
    case _ => v
  }

  function NormalizeMembers(ms: seq<Member>): (r: seq<Member>)
    ensures |r| == |ms|
    ensures forall i :: 0 <= i < |ms| ==> r[i] == Member(ms[i].key, Normalize(ms[i].value))
    decreases ms
  {
    if ms == [] then []
    else [Member(ms[0].key, Normalize(ms[0].value))] + NormalizeMembers(ms[1..])
  }

  predicate SameJson(left: Json, right: Json) {
    Stringify(Normalize(left)) == Stringify(Normalize(right))
  }

  // ---- What a rebuilt object holds ----

  predicate HasKey(ms: seq<Member>, key: Text) {
    exists i :: 0 <= i < |ms| && ms[i].key == key
  }

  lemma {:induction false} InsertSorted(m: Member, sorted: seq<Member>)
    requires SortedByUnits(sorted) && !HasKey(sorted, m.key)
    ensures SortedByUnits(InsertMember(m, sorted))
  {
    if sorted == [] {
    } else {
      UnitsTotal(m.key, sorted[0].key);
      if UnitsBefore(m.key, sorted[0].key) {
        forall j | 0 < j < |sorted| ensures UnitsBefore(m.key, sorted[j].key) {
          UnitsTransitive(m.key, sorted[0].key, sorted[j].key);
        }
      } else {
        var r := InsertMember(m, sorted[1..]);
        InsertSorted(m, sorted[1..]);
        forall j | 0 <= j < |r| ensures UnitsBefore(sorted[0].key, r[j].key) {
          assert r[j] in multiset(r);
          assert r[j] == m || r[j] in sorted[1..];
        }
      }
    }
  }

  lemma {:induction false} SortSorts(ms: seq<Member>)
    requires DistinctKeys(ms)
    ensures SortedByUnits(SortMembers(ms))
  {
    if ms == [] {
    } else {
      var rest := SortMembers(ms[1..]);
      SortSorts(ms[1..]);
      forall i | 0 <= i < |rest| ensures rest[i].key != ms[0].key {
        assert rest[i] in multiset(rest) && rest[i] in ms[1..];
      }
      InsertSorted(ms[0], rest);
    }
  }

  lemma {:induction false} PlaceInOrder(ms: seq<Member>, m: Member)
    requires InPropertyOrder(ms) && IsArrayIndex(m.key) && !HasKey(ms, m.key)
    ensures InPropertyOrder(PlaceIndex(ms, m))
    ensures forall x :: x in PlaceIndex(ms, m) <==> x == m || x in ms
  {
    if ms != [] && !Before(m.key, ms[0].key) {
      var r := PlaceIndex(ms[1..], m);
      PlaceInOrder(ms[1..], m);
      if DigitsValue(ms[0].key) == DigitsValue(m.key) {
        NumeralInjective(ms[0].key, m.key);
      }
      assert Before(ms[0].key, m.key);
      forall j | 0 <= j < |r| ensures Before(ms[0].key, r[j].key) {
        assert r[j] in r;
        assert r[j] == m || r[j] in ms[1..];
      }
      assert forall x :: x in ms <==> x == ms[0] || x in ms[1..];
    } else if ms != [] {
      forall j | 0 <= j < |ms| ensures Before(m.key, ms[j].key) {
        if j > 0 { assert Before(ms[0].key, ms[j].key); }
      }
    }
  }

  lemma {:induction false} AssignAllInOrder(ms: seq<Member>)
    requires SortedByUnits(ms)
    ensures InPropertyOrder(AssignAll(ms))
    ensures forall x: Member :: x in AssignAll(ms) <==> x in ms && x.key != PROTO
  {
    if ms == [] {
    } else {
      var init, m := ms[..|ms| - 1], ms[|ms| - 1];
      var acc := AssignAll(init);
      AssignAllInOrder(init);
      forall i | 0 <= i < |acc| ensures UnitsBefore(acc[i].key, m.key) && acc[i].key != m.key {
        assert acc[i] in acc;
        UnitsTotal(m.key, m.key);
      }
      if m.key != PROTO && IsArrayIndex(m.key) {
        PlaceInOrder(acc, m);
      }
      assert forall x :: x in ms <==> x == m || x in init;
    }
  }

  /** The members of the object that normalizeJson builds from ms. */
  function Rebuilt(ms: seq<Member>): seq<Member> {
    AssignAll(SortMembers(NormalizeMembers(ms)))
  }

  lemma {:induction false} RebuiltMembers(ms: seq<Member>)
    requires DistinctKeys(ms)
    ensures InPropertyOrder(Rebuilt(ms))
    ensures forall x: Member :: x in Rebuilt(ms) <==> x in NormalizeMembers(ms) && x.key != PROTO
  {
    var n := NormalizeMembers(ms);
    SortSorts(n);
    AssignAllInOrder(SortMembers(n));
    forall x ensures x in SortMembers(n) <==> x in n {
      assert x in multiset(SortMembers(n)) <==> x in multiset(n);
    }
  }

  /** Members in property order are determined by which members they are. */
  lemma {:induction false} OrderDetermines(a: seq<Member>, b: seq<Member>)
    requires InPropertyOrder(a) && InPropertyOrder(b)
    requires forall x :: x in a <==> x in b
    ensures a == b
  {
    assert forall i :: 0 <= i < |a| ==> a[i] in b;
    assert forall i :: 0 <= i < |b| ==> b[i] in a;
    if a == [] || b == [] {
    } else {
      assert a[0] in b && b[0] in a;
      BeforeStrict(a[0].key, b[0].key);
      assert a[0] == b[0];
      forall x ensures x in a[1..] <==> x in b[1..] {
        BeforeStrict(a[0].key, a[0].key);
        assert x in a <==> x == a[0] || x in a[1..];
        assert x in b <==> x == b[0] || x in b[1..];
        assert a[0] !in a[1..] && b[0] !in b[1..];
      }
      OrderDetermines(a[1..], b[1..]);
    }
  }

  // ---- What sameJson decides ----

  /** Equality up to the order of object members, at every depth, members named in `ignored` left aside. */
  ghost predicate SameUpToOrder(a: Json, b: Json, ignored: set<Text>)
    decreases a
  {
    match (a, b)
    case (Arr(xs), Arr(ys)) =>
      |xs| == |ys| && forall i :: 0 <= i < |xs| ==> SameUpToOrder(xs[i], ys[i], ignored)
    case (Obj(ms), Obj(ns)) =>
      && (forall k :: k !in ignored ==> (HasKey(ms, k) <==> HasKey(ns, k)))
      && forall i, j :: 0 <= i < |ms| && 0 <= j < |ns| && ms[i].key == ns[j].key && ms[i].key !in ignored
                        ==> SameUpToOrder(ms[i].value, ns[j].value, ignored)
    case (_, _) => a == b
  }

  lemma {:induction false} NormalizeWellFormed(v: Json)
    requires WellFormed(v)
    ensures WellFormed(Normalize(v))
    decreases v
  {
    match v
    case Arr(items) =>
      forall i | 0 <= i < |items| ensures WellFormed(Normalize(items[i])) { NormalizeWellFormed(items[i]); }
    case Obj(ms) =>
      forall i | 0 <= i < |ms| ensures WellFormed(Normalize(ms[i].value)) { NormalizeWellFormed(ms[i].value); }
      RebuiltMembers(ms);
      RebuiltWellFormed(ms);
    case _ =>
  }

  lemma RebuiltWellFormed(ms: seq<Member>)
    requires DistinctKeys(ms) && forall i :: 0 <= i < |ms| ==> WellFormed(Normalize(ms[i].value))
    ensures WellFormed(Obj(Rebuilt(ms)))
  {
    var r, n := Rebuilt(ms), NormalizeMembers(ms);
    RebuiltMembers(ms);
    forall i, j | 0 <= i < j < |r| ensures r[i].key != r[j].key {
      BeforeStrict(r[i].key, r[j].key);
    }
    forall i | 0 <= i < |r| ensures WellFormed(r[i].value) {
      assert r[i] in n;
    }
  }

  lemma {:induction false} NormalFormsAgree(a: Json, b: Json)
    requires WellFormed(a) && WellFormed(b)
    ensures Normalize(a) == Normalize(b) <==> SameUpToOrder(a, b, {PROTO})
    decreases a
  {
    match (a, b)
    case (Arr(xs), Arr(ys)) =>
      forall i | 0 <= i < |xs| && i < |ys|
        ensures Normalize(xs[i]) == Normalize(ys[i]) <==> SameUpToOrder(xs[i], ys[i], {PROTO})
      {
        NormalFormsAgree(xs[i], ys[i]);
      }
      ArraysAgree(xs, ys);
    case (Obj(ms), Obj(ns)) =>
      forall i, j | 0 <= i < |ms| && 0 <= j < |ns|
        ensures Normalize(ms[i].value) == Normalize(ns[j].value) <==> SameUpToOrder(ms[i].value, ns[j].value, {PROTO})
      {
        NormalFormsAgree(ms[i].value, ns[j].value);
      }
      ObjectsAgree(ms, ns);
    case (_, _) =>
  }

  lemma ArraysAgree(xs: seq<Json>, ys: seq<Json>)
    ensures Normalize(Arr(xs)) == Normalize(Arr(ys))
       <==> |xs| == |ys| && forall i :: 0 <= i < |xs| ==> Normalize(xs[i]) == Normalize(ys[i])
  {
    var nx, ny := Normalize(Arr(xs)).items, Normalize(Arr(ys)).items;
    assert |nx| == |xs| && |ny| == |ys|;
    if nx == ny {
      forall i | 0 <= i < |xs| ensures Normalize(xs[i]) == Normalize(ys[i]) { assert nx[i] == ny[i]; }
    }
  }

  /** Objects whose visible members correspond are rebuilt alike. */
  lemma SameMembersSameRebuilt(ms: seq<Member>, ns: seq<Member>)
    requires DistinctKeys(ms) && DistinctKeys(ns)
    requires forall k :: k != PROTO ==> (HasKey(ms, k) <==> HasKey(ns, k))
    requires forall i, j :: 0 <= i < |ms| && 0 <= j < |ns| && ms[i].key == ns[j].key && ms[i].key != PROTO
                            ==> Normalize(ms[i].value) == Normalize(ns[j].value)
    ensures Rebuilt(ms) == Rebuilt(ns)
  {
    RebuiltMembers(ms);
    RebuiltMembers(ns);
    forall x: Member | x.key != PROTO ensures x in NormalizeMembers(ms) <==> x in NormalizeMembers(ns) {
      if x in NormalizeMembers(ms) {
        NormalMemberIn(ms, ns, x);
      }
      if x in NormalizeMembers(ns) {
        NormalMemberIn(ns, ms, x);
      }
    }
    OrderDetermines(Rebuilt(ms), Rebuilt(ns));
  }

  lemma {:induction false} NormalMemberIn(ms: seq<Member>, ns: seq<Member>, x: Member)
    requires forall k :: k != PROTO && HasKey(ms, k) ==> HasKey(ns, k)
    requires forall i, j :: 0 <= i < |ms| && 0 <= j < |ns| && ms[i].key == ns[j].key && ms[i].key != PROTO
                            ==> Normalize(ms[i].value) == Normalize(ns[j].value)
    requires x in NormalizeMembers(ms) && x.key != PROTO
    ensures x in NormalizeMembers(ns)
  {
    var i :| 0 <= i < |ms| && NormalizeMembers(ms)[i] == x;
    assert HasKey(ms, ms[i].key);
    var j :| 0 <= j < |ns| && ns[j].key == ms[i].key;
    assert NormalizeMembers(ns)[j] == x;
  }

  lemma SameRebuiltSameMembers(ms: seq<Member>, ns: seq<Member>)
    requires DistinctKeys(ms) && DistinctKeys(ns) && Rebuilt(ms) == Rebuilt(ns)
    ensures forall k :: k != PROTO ==> (HasKey(ms, k) <==> HasKey(ns, k))
    ensures forall i, j :: 0 <= i < |ms| && 0 <= j < |ns| && ms[i].key == ns[j].key && ms[i].key != PROTO
                           ==> Normalize(ms[i].value) == Normalize(ns[j].value)
  {
    var nm, nn := NormalizeMembers(ms), NormalizeMembers(ns);
    RebuiltMembers(ms);
    RebuiltMembers(ns);
    forall i | 0 <= i < |ms| && ms[i].key != PROTO
      ensures exists j :: 0 <= j < |ns| && ns[j].key == ms[i].key && nn[j] == nm[i]
    {
      assert nm[i] in nm && nm[i] in Rebuilt(ms) && nm[i] in nn;
      var j :| 0 <= j < |nn| && nn[j] == nm[i];
    }
    forall j | 0 <= j < |ns| && ns[j].key != PROTO
      ensures exists i :: 0 <= i < |ms| && ms[i].key == ns[j].key && nm[i] == nn[j]
    {
      assert nn[j] in nn && nn[j] in Rebuilt(ns) && nn[j] in nm;
      var i :| 0 <= i < |nm| && nm[i] == nn[j];
    }
  }

  /** What the visible members of two objects have to satisfy to be equal up to order. */
  ghost predicate MembersAgree(ms: seq<Member>, ns: seq<Member>) {
    && (forall k :: k !in {PROTO} ==> (HasKey(ms, k) <==> HasKey(ns, k)))
    && forall i, j :: 0 <= i < |ms| && 0 <= j < |ns| && ms[i].key == ns[j].key && ms[i].key !in {PROTO}
                      ==> SameUpToOrder(ms[i].value, ns[j].value, {PROTO})
  }

  lemma SameObjects(ms: seq<Member>, ns: seq<Member>)
    ensures SameUpToOrder(Obj(ms), Obj(ns), {PROTO}) <==> MembersAgree(ms, ns)
  {
  }

  lemma RebuiltAgree(ms: seq<Member>, ns: seq<Member>)
    requires DistinctKeys(ms) && DistinctKeys(ns)
    requires forall i, j :: 0 <= i < |ms| && 0 <= j < |ns| ==>
               (Normalize(ms[i].value) == Normalize(ns[j].value) <==> SameUpToOrder(ms[i].value, ns[j].value, {PROTO}))
    ensures Rebuilt(ms) == Rebuilt(ns) <==> MembersAgree(ms, ns)
  {
    if MembersAgree(ms, ns) {
      SameMembersSameRebuilt(ms, ns);
    } else if Rebuilt(ms) == Rebuilt(ns) {
      SameRebuiltSameMembers(ms, ns);
    }
  }

  lemma ObjectsAgree(ms: seq<Member>, ns: seq<Member>)
    requires DistinctKeys(ms) && DistinctKeys(ns)
    requires forall i, j :: 0 <= i < |ms| && 0 <= j < |ns| ==>
               (Normalize(ms[i].value) == Normalize(ns[j].value) <==> SameUpToOrder(ms[i].value, ns[j].value, {PROTO}))
    ensures Normalize(Obj(ms)) == Normalize(Obj(ns)) <==> SameUpToOrder(Obj(ms), Obj(ns), {PROTO})
  {
    RebuiltAgree(ms, ns);
    SameObjects(ms, ns);
  }

  /** sameJson decides equality up to member order, except that it does not see members named __proto__. */
  lemma {:induction false} SameJsonDecides(a: Json, b: Json)
    requires WellFormed(a) && WellFormed(b)
    ensures SameJson(a, b) <==> SameUpToOrder(a, b, {PROTO})
  {
    NormalizeWellFormed(a);
    NormalizeWellFormed(b);
    NormalFormsAgree(a, b);
    if SameJson(a, b) {
      StringifyInjective(Normalize(a), Normalize(b));
    }
  }

  // ---- Where that is not the comparison asked for ----

  /** Some object inside v has a member named __proto__. */
  predicate HasProto(v: Json)
    decreases v
  {
    match v
    case Arr(items) => exists i :: 0 <= i < |items| && HasProto(items[i])
    case Obj(ms) => exists i :: 0 <= i < |ms| && (ms[i].key == PROTO || HasProto(ms[i].value))
    case _ => false
  }

  lemma {:induction false} NormalizeHasNoProto(v: Json)
    requires WellFormed(v)
    ensures !HasProto(Normalize(v))
    decreases v
  {
    match v
    case Arr(items) =>
      forall i | 0 <= i < |items| ensures !HasProto(Normalize(items[i])) { NormalizeHasNoProto(items[i]); }
    case Obj(ms) =>
      var r, n := Rebuilt(ms), NormalizeMembers(ms);
      RebuiltMembers(ms);
      forall i | 0 <= i < |ms| ensures !HasProto(n[i].value) { NormalizeHasNoProto(ms[i].value); }
      forall i | 0 <= i < |r| ensures r[i].key != PROTO && !HasProto(r[i].value) {
        assert r[i] in r && r[i] in n;
      }
    case _ =>
  }

  /** Where no member is named __proto__, leaving such members aside changes nothing. */
  lemma {:induction false} NothingIgnored(a: Json, b: Json)
    requires !HasProto(a) && !HasProto(b)
    ensures SameUpToOrder(a, b, {PROTO}) <==> SameUpToOrder(a, b, {})
    decreases a
  {
    match (a, b)
    case (Arr(xs), Arr(ys)) =>
      forall i | 0 <= i < |xs| && i < |ys|
        ensures SameUpToOrder(xs[i], ys[i], {PROTO}) <==> SameUpToOrder(xs[i], ys[i], {})
      {
        NothingIgnored(xs[i], ys[i]);
      }
    case (Obj(ms), Obj(ns)) =>
      assert !HasKey(ms, PROTO) && !HasKey(ns, PROTO);
      forall i, j | 0 <= i < |ms| && 0 <= j < |ns|
        ensures SameUpToOrder(ms[i].value, ns[j].value, {PROTO}) <==> SameUpToOrder(ms[i].value, ns[j].value, {})
      {
        NothingIgnored(ms[i].value, ns[j].value);
      }
    case (_, _) =>
  }

  lemma {:induction false} SameHasProto(a: Json, b: Json)
    requires SameUpToOrder(a, b, {}) && HasProto(a)
    ensures HasProto(b)
    decreases a
  {
    match (a, b)
    case (Arr(xs), Arr(ys)) =>
      var i :| 0 <= i < |xs| && HasProto(xs[i]);
      SameHasProto(xs[i], ys[i]);
    case (Obj(ms), Obj(ns)) =>
      var i :| 0 <= i < |ms| && (ms[i].key == PROTO || HasProto(ms[i].value));
      assert HasKey(ms, ms[i].key);
      var j :| 0 <= j < |ns| && ns[j].key == ms[i].key;
      if ms[i].key != PROTO {
        SameHasProto(ms[i].value, ns[j].value);
      }
  }

  /** Normalizing twice is normalizing once, and never changes what a comparison sees. */
  lemma {:induction false} NormalizeIdempotent(v: Json)
    requires WellFormed(v)
    ensures Normalize(Normalize(v)) == Normalize(v)
    decreases v
  {
    NormalizeWellFormed(v);
    NormalizedIsSame(v);
    NormalFormsAgree(Normalize(v), v);
  }

  lemma {:induction false} NormalizedIsSame(v: Json)
    requires WellFormed(v)
    ensures SameUpToOrder(Normalize(v), v, {PROTO})
    decreases v
  {
    match v
    case Arr(items) =>
      forall i | 0 <= i < |items| ensures SameUpToOrder(Normalize(items[i]), items[i], {PROTO}) {
        NormalizedIsSame(items[i]);
      }
    case Obj(ms) =>
      forall i | 0 <= i < |ms| ensures SameUpToOrder(Normalize(ms[i].value), ms[i].value, {PROTO}) {
        NormalizedIsSame(ms[i].value);
      }
      RebuiltIsSame(ms);
    case _ =>
  }

  lemma RebuiltFrom(ms: seq<Member>, i: nat) returns (j: nat)
    requires DistinctKeys(ms) && i < |Rebuilt(ms)|
    ensures j < |ms| && Rebuilt(ms)[i] == Member(ms[j].key, Normalize(ms[j].value)) && ms[j].key != PROTO
  {
    var r, n := Rebuilt(ms), NormalizeMembers(ms);
    RebuiltMembers(ms);
    assert r[i] in r && r[i] in n;
    j :| 0 <= j < |n| && n[j] == r[i];
  }

  lemma RebuiltKeys(ms: seq<Member>, k: Text)
    requires DistinctKeys(ms) && k != PROTO
    ensures HasKey(Rebuilt(ms), k) <==> HasKey(ms, k)
  {
    var r, n := Rebuilt(ms), NormalizeMembers(ms);
    RebuiltMembers(ms);
    if HasKey(ms, k) {
      var i :| 0 <= i < |ms| && ms[i].key == k;
      assert n[i] in n && n[i] in r;
    }
    if HasKey(r, k) {
      var i :| 0 <= i < |r| && r[i].key == k;
      var j := RebuiltFrom(ms, i);
    }
  }

  lemma RebuiltIsSame(ms: seq<Member>)
    requires DistinctKeys(ms)
    requires forall i :: 0 <= i < |ms| ==> SameUpToOrder(Normalize(ms[i].value), ms[i].value, {PROTO})
    ensures SameUpToOrder(Obj(Rebuilt(ms)), Obj(ms), {PROTO})
  {
    var r := Rebuilt(ms);
    forall k | k != PROTO ensures HasKey(r, k) <==> HasKey(ms, k) { RebuiltKeys(ms, k); }
    forall i, j | 0 <= i < |r| && 0 <= j < |ms| && r[i].key == ms[j].key && r[i].key != PROTO
      ensures SameUpToOrder(r[i].value, ms[j].value, {PROTO})
    {
      var l := RebuiltFrom(ms, i);
      assert l == j;
    }
  }

  /**
   * sameJson compares a as meant with every value free of __proto__ members
   * exactly when a is free of them itself.
   */
  lemma {:induction false} SameJsonMeansEqualIff(a: Json)
    requires WellFormed(a)
    ensures !HasProto(a) <==>
            forall b :: WellFormed(b) && !HasProto(b) ==> (SameJson(a, b) <==> SameUpToOrder(a, b, {}))
  {
    if HasProto(a) {
      var b := Normalize(a);
      NormalizeWellFormed(a);
      NormalizeHasNoProto(a);
      NormalizeIdempotent(a);
      assert SameJson(a, b);
      if SameUpToOrder(a, b, {}) {
        SameHasProto(a, b);
      }
    } else {
      forall b | WellFormed(b) && !HasProto(b) ensures SameJson(a, b) <==> SameUpToOrder(a, b, {}) {
        SameJsonDecides(a, b);
        NothingIgnored(a, b);
      }
    }
  }

  /** {"__proto__": false} and {} pass for the same. */
  lemma ProtoMemberUnseen()
    ensures var a, b := Obj([Member(Ascii("__proto__"), Bool(false))]), Obj([]); (
            WellFormed(a) && WellFormed(b) && SameJson(a, b) && !SameUpToOrder(a, b, {}))
  {
    ProtoIs();
    var a, b := Obj([Member(PROTO, Bool(false))]), Obj([]);
    assert a.members[0].key == PROTO && HasKey(a.members, PROTO);
    SameJsonDecides(a, b);
  }
}
