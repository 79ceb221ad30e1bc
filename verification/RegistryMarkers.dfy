/**
 * The files of the liquidation registry: directory keys, file names and marker contents, unit by unit as they are
 * written and read.
 */
module RegistryMarkers {
  import opened Text
  import opened Options
  import opened JsonNumbers
  import opened JsonStrings
  import opened JsonText

  /** A database target; a URL host name never contains NUL. */
  datatype Target = Target(host: Text, port: nat, database: Text) {
    predicate Valid() {
      0 !in host
    }
  }

  datatype RegistryError = Malformed | Mismatch | UnexpectedEntry | MissingFile | InvalidId

  /** The text that is hashed into the directory name. */
  function KeyText(t: Target): Text {
    t.host + ([0] + (NatText(t.port) + ([0] + t.database)))
  }

  lemma NulAt(a: Text, x: Text)
    requires 0 !in a
    ensures var s := a + ([0] + x); (
            && (forall i :: 0 <= i < |a| ==> s[i] != 0)
            && s[|a|] == 0 && s[..|a|] == a && s[|a| + 1..] == x)
  {
  }

  lemma FirstNul(a: Text, x: Text, b: Text, y: Text)
    requires 0 !in a && 0 !in b && a + ([0] + x) == b + ([0] + y)
    ensures a == b && x == y
  {
    NulAt(a, x);
    NulAt(b, y);
  }

  /** Distinct targets never share a directory. */
  lemma KeyTextInjective(s: Target, t: Target)
    requires s.Valid() && t.Valid() && KeyText(s) == KeyText(t)
    ensures s == t
  {
    FirstNul(s.host, NatText(s.port) + ([0] + s.database), t.host, NatText(t.port) + ([0] + t.database));
    FirstNul(NatText(s.port), s.database, NatText(t.port), t.database);
    NatTextValue(s.port);
    NatTextValue(t.port);
  }

  // ---- Liquidation ids ----

  predicate IsIdUnit(c: CodeUnit) {
    97 <= c <= 122 || IsDigit(c)
  }

  predicate ValidId(id: Text) {
    1 <= |id| <= 128 && forall i :: 0 <= i < |id| ==> IsIdUnit(id[i])
  }

  /** The pattern of the registry: one to 128 lower-case letters or digits. */
  lemma ValidIdIs(id: Text)
    ensures ValidId(id) <==>
            1 <= |id| <= 128 && forall i :: 0 <= i < |id| ==> 97 <= id[i] <= 122 || 48 <= id[i] <= 57
  {
  }

  /** White space and line terminators of sections 12.2 and 12.3 of ECMA-262. */
  predicate IsSpace(c: CodeUnit) {
    9 <= c <= 13 || c == 32 || c == 160 || c == 0x1680 || 0x2000 <= c <= 0x200A ||
    c == 0x2028 || c == 0x2029 || c == 0x202F || c == 0x205F || c == 0x3000 || c == 0xFEFF
  }

  function Trim(s: Text): (r: Text)
    ensures r != [] ==> !IsSpace(r[0]) && !IsSpace(r[|r| - 1])
  {
    if s == [] then []
    else if IsSpace(s[0]) then Trim(s[1..])
    else if IsSpace(s[|s| - 1]) then Trim(s[..|s| - 1])
    else s
  }

  lemma SpacesAre(c: CodeUnit)
    ensures IsSpace(c) <==> c in {9, 10, 11, 12, 13, 32, 160, 5760, 8192, 8193, 8194, 8195, 8196, 8197, 8198, 8199,
                                  8200, 8201, 8202, 8232, 8233, 8239, 8287, 12288, 65279}
  {
  }

  function ValidateLiquidationId(raw: Text): Result<Text, RegistryError> {
    if ValidId(Trim(raw)) then Ok(Trim(raw)) else Err(InvalidId)
  }

  /** Padding an id with white space does not change which file is meant. */
  lemma {:induction false} TrimUnpads(before: Text, id: Text, after: Text)
    requires ValidId(id)
    requires forall i :: 0 <= i < |before| ==> IsSpace(before[i])
    requires forall i :: 0 <= i < |after| ==> IsSpace(after[i])
    ensures ValidateLiquidationId(before + id + after) == Ok(id)
    decreases |before| + |after|
  {
    var s := before + id + after;
    if before != [] {
      TrimUnpads(before[1..], id, after);
      assert s[0] == before[0] && s[1..] == before[1..] + id + after;
    } else if after != [] {
      TrimUnpads(before, id, after[..|after| - 1]);
      assert s[0] == id[0] && s[|s| - 1] == after[|after| - 1];
      assert s[..|s| - 1] == before + id + after[..|after| - 1];
    } else {
      assert s == id;
    }
  }

  lemma BlankBefore(raw: Text, i: nat, j: nat)
    requires raw != [] && IsSpace(raw[0]) && i <= j <= |raw| - 1 && PaddedAt(raw[1..], i, j)
    ensures PaddedAt(raw, i + 1, j + 1) && raw[1..][i..j] == raw[i + 1..j + 1]
  {
    assert forall k :: 1 <= k < |raw| ==> raw[k] == raw[1..][k - 1];
  }

  lemma BlankBehind(raw: Text, i: nat, j: nat)
    requires raw != [] && IsSpace(raw[|raw| - 1]) && i <= j <= |raw| - 1 && PaddedAt(raw[..|raw| - 1], i, j)
    ensures PaddedAt(raw, i, j) && raw[..|raw| - 1][i..j] == raw[i..j]
  {
    assert forall k :: 0 <= k < |raw| - 1 ==> raw[k] == raw[..|raw| - 1][k];
  }

  lemma {:induction false} TrimmedFrom(raw: Text) returns (i: nat, j: nat)
    ensures i <= j <= |raw| && Trim(raw) == raw[i..j]
    ensures PaddedAt(raw, i, j)
  {
    if raw != [] && IsSpace(raw[0]) {
      i, j := TrimmedFrom(raw[1..]);
      BlankBefore(raw, i, j);
      i, j := i + 1, j + 1;
    } else if raw != [] && IsSpace(raw[|raw| - 1]) {
      i, j := TrimmedFrom(raw[..|raw| - 1]);
      BlankBehind(raw, i, j);
    } else {
      i, j := 0, |raw|;
    }
  }

  /** Exactly the texts of valid ids in white space are accepted, as those ids. */
  lemma {:induction false} ValidatedIff(raw: Text, id: Text)
    ensures ValidateLiquidationId(raw) == Ok(id) <==>
            exists i, j :: 0 <= i <= j <= |raw| && PaddedAt(raw, i, j) && raw[i..j] == id && ValidId(id)
  {
    var i, j := TrimmedFrom(raw);
    if i', j' :| 0 <= i' <= j' <= |raw| && PaddedAt(raw, i', j') && raw[i'..j'] == id && ValidId(id) {
      TrimUnpads(raw[..i'], id, raw[j'..]);
      assert raw == raw[..i'] + id + raw[j'..];
    }
  }

  predicate PaddedAt(raw: Text, i: nat, j: nat)
    requires i <= j <= |raw|
  {
    (forall k :: 0 <= k < i ==> IsSpace(raw[k])) && (forall k :: j <= k < |raw| ==> IsSpace(raw[k]))
  }

  // ---- Markers ----

  const VERSION := Ascii("version")
  const TARGET := Ascii("target")
  const LIQUIDATION_ID := Ascii("liquidationId")
  const HOST := Ascii("host")
  const PORT := Ascii("port")
  const DATABASE := Ascii("database")

  function TargetJson(t: Target): Json {
    Obj([Member(HOST, Str(t.host)), Member(PORT, Num(IntNumber(t.port))), Member(DATABASE, Str(t.database))])
  }

  function MarkerJson(t: Target, id: Text): Json {
    Obj([Member(VERSION, Num(IntNumber(1))), Member(TARGET, TargetJson(t)), Member(LIQUIDATION_ID, Str(id))])
  }

  /** What registering writes: the marker and a line feed. */
  function RawMarker(t: Target, id: Text): Text {
    Stringify(MarkerJson(t, id)) + [10]
  }

  /** A member whose name needs no escape, as it is printed. */
  function Entry(name: Text, value: Text): Text {
    [34] + name + [34, 58] + value
  }

  predicate IsLetters(name: Text) {
    forall i :: 0 <= i < |name| ==> 65 <= name[i] <= 122 && name[i] != 92
  }

  lemma {:induction false} LettersAreClean(name: Text)
    requires IsLetters(name)
    ensures IsClean(name)
  {
    if name != [] {
      LettersAreClean(name[1..]);
    }
  }

  lemma {:induction false} MemberText(m: Member, tail: Text)
    requires IsLetters(m.key)
    ensures StringText(m.key, [COLON] + Print(m.value, tail)) == Entry(m.key, Stringify(m.value)) + tail
  {
    NameText(m.key, [COLON] + Print(m.value, tail));
    StringifyThen(m.value, tail);
    EntryThen(m.key, Stringify(m.value), tail);
  }

  lemma NameText(name: Text, rest: Text)
    requires IsLetters(name)
    ensures StringText(name, rest) == [34] + (name + ([34] + rest))
  {
    LettersAreClean(name);
    PlainBody(name, [QUOTE] + rest);
  }

  lemma EntryThen(name: Text, value: Text, tail: Text)
    ensures [34] + (name + ([34] + ([58] + (value + tail)))) == Entry(name, value) + tail
  {
  }

  lemma {:induction false} MembersText(m: Member, more: seq<Member>, end: Text)
    requires IsLetters(m.key)
    ensures PrintMembers([m] + more, end) == Entry(m.key, Stringify(m.value))
            + if more == [] then end else [44] + PrintMembers(more, end)
  {
    var ms := [m] + more;
    assert ms[1..] == more;
    MemberText(m, if more == [] then end else [COMMA] + PrintMembers(more, end));
  }

  lemma ThreeMembers(a: Member, b: Member, c: Member)
    requires IsLetters(a.key) && IsLetters(b.key) && IsLetters(c.key)
    ensures Stringify(Obj([a, b, c])) ==
            [123] + (Entry(a.key, Stringify(a.value)) + ([44] + (Entry(b.key, Stringify(b.value))
            + ([44] + (Entry(c.key, Stringify(c.value)) + [125])))))
  {
    var end := [CLOSE_BRACE] + [];
    MembersText(c, [], end);
    MembersText(b, [c], end);
    MembersText(a, [b, c], end);
    assert [a] + [b, c] == [a, b, c] && [b] + [c] == [b, c] && [c] + [] == [c];
  }

  /** The text of a target. */
  lemma TargetTextIs(t: Target)
    requires |NatText(t.port)| <= 21
    ensures Stringify(TargetJson(t)) ==
            [123] + (Entry(Ascii("host"), StringText(t.host, [])) + ([44]
            + (Entry(Ascii("port"), NatText(t.port)) + ([44]
            + (Entry(Ascii("database"), StringText(t.database, [])) + [125])))))
  {
    IntText(t.port, []);
    ThreeMembers(Member(HOST, Str(t.host)), Member(PORT, Num(IntNumber(t.port))), Member(DATABASE, Str(t.database)));
  }

  /** The text of a marker file: the members in this order, and a line feed. */
  lemma RawMarkerIs(t: Target, id: Text)
    ensures RawMarker(t, id) ==
            [123] + (Entry(Ascii("version"), [49]) + ([44] + (Entry(Ascii("target"), Stringify(TargetJson(t))) + ([44]
            + (Entry(Ascii("liquidationId"), StringText(id, [])) + [125]))))) + [10]
  {
    IntText(1, []);
    ThreeMembers(Member(VERSION, Num(IntNumber(1))), Member(TARGET, TargetJson(t)), Member(LIQUIDATION_ID, Str(id)));
  }

  /** The value of a property; of several members of one name, JSON.parse keeps the last. */
  function Lookup(ms: seq<Member>, key: Text): Option<Json> {
    if ms == [] then None
    else if ms[|ms| - 1].key == key then Some(ms[|ms| - 1].value)
    else Lookup(ms[..|ms| - 1], key)
  }

  /** A property read of a value that is neither null nor undefined. */
  function Property(v: Json, key: Text): Option<Json> {
    if v.Obj? then Lookup(v.members, key) else None
  }

  predicate MatchesTarget(v: Option<Json>, expected: Target) {
    && v.Some?
    && Property(v.value, HOST) == Some(Str(expected.host))
    && Property(v.value, PORT) == Some(Num(IntNumber(expected.port)))
    && Property(v.value, DATABASE) == Some(Str(expected.database))
  }

  function ParseMarker(raw: Text, expected: Target, filename: Text): Result<Text, RegistryError> {
    match Parse(raw)
    case None => Err(Malformed)
    case Some(v) =>
      if !v.Obj? && !v.Arr? then Err(Malformed)
      else if Property(v, VERSION) != Some(Num(IntNumber(1)))
           || Property(v, LIQUIDATION_ID) != Some(Str(filename))
           || !MatchesTarget(Property(v, TARGET), expected) then Err(Mismatch)
      else Ok(filename)
  }

  lemma MarkerWellFormed(t: Target, id: Text)
    ensures WellFormed(MarkerJson(t, id))
  {
    assert HOST[0] != PORT[0];
    assert WellFormed(TargetJson(t));
  }

  lemma {:induction false} LookupMember(ms: seq<Member>, i: nat)
    requires DistinctKeys(ms) && i < |ms|
    ensures Lookup(ms, ms[i].key) == Some(ms[i].value)
  {
    if i == |ms| - 1 {
    } else {
      LookupMember(ms[..|ms| - 1], i);
    }
  }

  lemma MarkerProperties(t: Target, id: Text)
    ensures Property(MarkerJson(t, id), VERSION) == Some(Num(IntNumber(1)))
    ensures Property(MarkerJson(t, id), TARGET) == Some(TargetJson(t))
    ensures Property(MarkerJson(t, id), LIQUIDATION_ID) == Some(Str(id))
  {
    var ms := MarkerJson(t, id).members;
    LookupMember(ms, 0);
    LookupMember(ms, 1);
    LookupMember(ms, 2);
  }

  lemma TargetProperties(t: Target)
    ensures Property(TargetJson(t), HOST) == Some(Str(t.host))
    ensures Property(TargetJson(t), PORT) == Some(Num(IntNumber(t.port)))
    ensures Property(TargetJson(t), DATABASE) == Some(Str(t.database))
  {
    var ms := TargetJson(t).members;
    assert HOST[0] != PORT[0];
    LookupMember(ms, 0);
    LookupMember(ms, 1);
    LookupMember(ms, 2);
  }

  /** A written marker is accepted for its own target and file name, and for no other. */
  lemma MarkerAccepted(t: Target, id: Text, expected: Target, filename: Text)
    ensures ParseMarker(RawMarker(t, id), expected, filename)
         == if t == expected && id == filename then Ok(filename) else Err(Mismatch)
  {
    MarkerWellFormed(t, id);
    ParsePrint(MarkerJson(t, id), [10]);
    MarkerProperties(t, id);
    TargetProperties(t);
    if IntNumber(t.port) == IntNumber(expected.port) {
      IntNumberInjective(t.port, expected.port);
    }
  }
}
