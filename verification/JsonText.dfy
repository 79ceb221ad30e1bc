/**
 * JSON values, JSON.stringify without indentation, and a parser that undoes it. An object lists its members in property
 * order, and printing goes ahead of a rest, so that the reader can be shown to stop where the value ends.
 */
module JsonText {
  import opened Text
  import opened Options
  import opened JsonNumbers
  import opened JsonStrings

  /** A JSON value; an object lists its members in property order. */
  datatype Json =
    | Null
    | Bool(truth: bool)
    | Num(number: Number)
    | Str(text: Text)
    | Arr(items: seq<Json>)
    | Obj(members: seq<Member>)

  datatype Member = Member(key: Text, value: Json)

  predicate DistinctKeys(ms: seq<Member>) {
    forall i, j :: 0 <= i < j < |ms| ==> ms[i].key != ms[j].key
  }

  /** Numbers are canonical and no object has two members of one name, at every depth. */
  predicate WellFormed(v: Json)
    decreases v
  {
    match v
    case Num(x) => x.Canonical()
    case Arr(items) => forall i :: 0 <= i < |items| ==> WellFormed(items[i])
    case Obj(ms) => DistinctKeys(ms) && forall i :: 0 <= i < |ms| ==> WellFormed(ms[i].value)
    case _ => true
  }

  const NULL_TEXT: Text := [110, 117, 108, 108]
  const TRUE_TEXT: Text := [116, 114, 117, 101]
  const FALSE_TEXT: Text := [102, 97, 108, 115, 101]

  /** The text of v without white space, followed by rest. */
  function Print(v: Json, rest: Text): Text
    decreases v
  {
    match v
    case Null => NULL_TEXT + rest
    case Bool(b) => (if b then TRUE_TEXT else FALSE_TEXT) + rest
    case Num(x) => NumberText(x, rest)
    case Str(s) => StringText(s, rest)
    case Arr(items) => [OPEN_BRACKET] + PrintItems(items, [CLOSE_BRACKET] + rest)
    case Obj(ms) => [OPEN_BRACE] + PrintMembers(ms, [CLOSE_BRACE] + rest)
  }

  function PrintItems(items: seq<Json>, rest: Text): Text
    decreases items
  {
    if items == [] then rest
    else Print(items[0], if |items| == 1 then rest else [COMMA] + PrintItems(items[1..], rest))
  }

  function PrintMembers(ms: seq<Member>, rest: Text): Text
    decreases ms
  {
    if ms == [] then rest
    else StringText(ms[0].key, [COLON] + Print(ms[0].value,
           if |ms| == 1 then rest else [COMMA] + PrintMembers(ms[1..], rest)))
  }

  /** JSON.stringify(v). */
  function Stringify(v: Json): Text {
    Print(v, [])
  }

  function ReadLiteral(t: Text, literal: Text, v: Json): (r: Option<(Json, Text)>)
    requires literal != []
    ensures r.Some? ==> |r.value.1| < |t|
  {
    if literal <= t then Some((v, t[|literal|..])) else None
  }

  function ReadNumeric(t: Text): (r: Option<(Json, Text)>)
    ensures r.Some? ==> |r.value.1| < |t|
  {
    var x := ReadNumber(t);
    if x.None? then None else Some((Num(x.value.0), x.value.1))
  }

  /** The value at the head of t, with what follows it. */
  function ReadValue(t: Text): (r: Option<(Json, Text)>)
    ensures r.Some? ==> |r.value.1| < |t|
    decreases |t|, 0
  {
    if t == [] then None
    else if IsDigit(t[0]) || t[0] == DASH then ReadNumeric(t)
    else if t[0] == QUOTE then
      var s := ReadBody(t[1..]);
      if s.None? then None else Some((Str(s.value.0), s.value.1))
    else if t[0] == OPEN_BRACKET then
      if |t| > 1 && t[1] == CLOSE_BRACKET then Some((Arr([]), t[2..])) else
        var r := ReadItems(t[1..]);
        if r.None? then None else Some((Arr(r.value.0), r.value.1))
    else if t[0] == OPEN_BRACE then
      if |t| > 1 && t[1] == CLOSE_BRACE then Some((Obj([]), t[2..])) else
        var r := ReadMembers(t[1..]);
        if r.None? then None else Some((Obj(r.value.0), r.value.1))
    else if t[0] == 110 then ReadLiteral(t, NULL_TEXT, Null)
    else if t[0] == 116 then ReadLiteral(t, TRUE_TEXT, Bool(true))
    else if t[0] == 102 then ReadLiteral(t, FALSE_TEXT, Bool(false))
    else None
  }

  /** One or more values separated by commas and closed by a bracket. */
  function ReadItems(t: Text): (r: Option<(seq<Json>, Text)>)
    ensures r.Some? ==> |r.value.1| < |t|
    decreases |t|, 1
  {
    var v := ReadValue(t);
    if v.None? || v.value.1 == [] then None
    else if v.value.1[0] == CLOSE_BRACKET then Some(([v.value.0], v.value.1[1..]))
    else if v.value.1[0] == COMMA then
      var r := ReadItems(v.value.1[1..]);
      if r.None? then None else Some(([v.value.0] + r.value.0, r.value.1))
    else None
  }

  /** One or more members separated by commas and closed by a brace. */
  function ReadMembers(t: Text): (r: Option<(seq<Member>, Text)>)
    ensures r.Some? ==> |r.value.1| < |t|
    decreases |t|, 1
  {
    if t == [] || t[0] != QUOTE then None else
      var k := ReadBody(t[1..]);
      if k.None? || k.value.1 == [] || k.value.1[0] != COLON then None else
        var v := ReadValue(k.value.1[1..]);
        if v.None? || v.value.1 == [] then None
        else if v.value.1[0] == CLOSE_BRACE then Some(([Member(k.value.0, v.value.0)], v.value.1[1..]))
        else if v.value.1[0] == COMMA then
          var r := ReadMembers(v.value.1[1..]);
          if r.None? then None else Some(([Member(k.value.0, v.value.0)] + r.value.0, r.value.1))
        else None
  }

  predicate IsBlank(c: CodeUnit) {
    c == 9 || c == 10 || c == 13 || c == 32
  }

  /** A whole document: one value, then white space only. */
  function Parse(t: Text): Option<Json> {
    var r := ReadValue(t);
    if r.Some? && forall i :: 0 <= i < |r.value.1| ==> IsBlank(r.value.1[i]) then Some(r.value.0) else None
  }

  // ---- Reading what was printed ----

  lemma NumericRoundTrip(x: Number, rest: Text)
    requires x.Canonical() && EndsNumber(rest)
    ensures ReadValue(NumberText(x, rest)) == Some((Num(x), rest))
  {
    NumberRoundTrip(x, rest);
    assert ReadNumeric(NumberText(x, rest)) == Some((Num(x), rest));
  }

  lemma {:induction false} LiteralRoundTrip(v: Json, rest: Text)
    requires v.Null? || v.Bool?
    ensures ReadValue(Print(v, rest)) == Some((v, rest))
  {
  }

  lemma {:induction false} ReadObjectStep(body: Text, ms: seq<Member>, rest: Text)
    requires body != [] && body[0] != CLOSE_BRACE && ReadMembers(body) == Some((ms, rest))
    ensures ReadValue([OPEN_BRACE] + body) == Some((Obj(ms), rest))
  {
    Cons(OPEN_BRACE, body);
  }

  lemma {:induction false} EmptyRoundTrip(rest: Text)
    ensures ReadValue([OPEN_BRACKET] + ([CLOSE_BRACKET] + rest)) == Some((Arr([]), rest))
    ensures ReadValue([OPEN_BRACE] + ([CLOSE_BRACE] + rest)) == Some((Obj([]), rest))
  {
    assert ([OPEN_BRACKET] + ([CLOSE_BRACKET] + rest))[2..] == rest;
    assert ([OPEN_BRACE] + ([CLOSE_BRACE] + rest))[2..] == rest;
  }

  /** No value starts with a closing bracket. */
  lemma {:induction false} FirstUnit(v: Json, rest: Text)
    requires WellFormed(v) && EndsNumber(rest)
    ensures Print(v, rest) != [] && Print(v, rest)[0] != CLOSE_BRACKET
  {
    match v
    case Num(x) => NumberRoundTrip(x, rest);
    case Str(s) => StringRoundTrip(s, rest);
    case _ =>
  }

  lemma {:induction false} ValueRoundTrip(v: Json, rest: Text)
    requires WellFormed(v) && EndsNumber(rest)
    ensures ReadValue(Print(v, rest)) == Some((v, rest))
    decreases v
  {
    match v
    case Num(x) =>
      NumericRoundTrip(x, rest);
    case Str(s) =>
      StringRoundTrip(s, rest);
    case Arr(items) =>
      if items == [] {
        EmptyRoundTrip(rest);
      } else {
        ItemsRoundTrip(items, rest);
      }
    case Obj(ms) =>
      if ms == [] {
        EmptyRoundTrip(rest);
      } else {
        MembersRoundTrip(ms, rest);
        ReadObjectStep(PrintMembers(ms, [CLOSE_BRACE] + rest), ms, rest);
      }
    case _ => LiteralRoundTrip(v, rest);
  }

  lemma {:induction false} ItemsRoundTrip(items: seq<Json>, rest: Text)
    requires items != [] && forall i :: 0 <= i < |items| ==> WellFormed(items[i])
    ensures ReadItems(PrintItems(items, [CLOSE_BRACKET] + rest)) == Some((items, rest))
    ensures PrintItems(items, [CLOSE_BRACKET] + rest) != []
    ensures PrintItems(items, [CLOSE_BRACKET] + rest)[0] != CLOSE_BRACKET
    decreases items
  {
    var end := [CLOSE_BRACKET] + rest;
    var v := items[0];
    if |items| == 1 {
      FirstUnit(v, end);
      ValueRoundTrip(v, end);
      assert items == [v];
    } else {
      var more := PrintItems(items[1..], end);
      FirstUnit(v, [COMMA] + more);
      ItemsRoundTrip(items[1..], rest);
      ValueRoundTrip(v, [COMMA] + more);
      assert [v] + items[1..] == items;
    }
  }

  lemma {:induction false} ReadMembersStep(t: Text, key: Text, v: Json, after: Text, more: Text, ms: seq<Member>,
          rest: Text)
    requires t != [] && t[0] == QUOTE && ReadBody(t[1..]) == Some((key, [COLON] + after))
    requires ReadValue(after) == Some((v, [COMMA] + more)) && ReadMembers(more) == Some((ms, rest))
    ensures ReadMembers(t) == Some(([Member(key, v)] + ms, rest))
  {
    Cons(COLON, after);
    Cons(COMMA, more);
  }

  lemma {:induction false} MembersRoundTrip(ms: seq<Member>, rest: Text)
    requires ms != [] && forall i :: 0 <= i < |ms| ==> WellFormed(ms[i].value)
    ensures ReadMembers(PrintMembers(ms, [CLOSE_BRACE] + rest)) == Some((ms, rest))
    ensures PrintMembers(ms, [CLOSE_BRACE] + rest) != []
    ensures PrintMembers(ms, [CLOSE_BRACE] + rest)[0] == QUOTE
    decreases ms
  {
    var end := [CLOSE_BRACE] + rest;
    var key, v := ms[0].key, ms[0].value;
    if |ms| == 1 {
      var after := Print(v, end);
      StringRoundTrip(key, [COLON] + after);
      ValueRoundTrip(v, end);
      assert ms == [Member(key, v)];
    } else {
      var more := PrintMembers(ms[1..], end);
      var after := Print(v, [COMMA] + more);
      StringRoundTrip(key, [COLON] + after);
      MembersRoundTrip(ms[1..], rest);
      ValueRoundTrip(v, [COMMA] + more);
      ReadMembersStep(StringText(key, [COLON] + after), key, v, after, more, ms[1..], rest);
      assert [Member(key, v)] + ms[1..] == ms;
    }
  }

  // ---- Printing ahead of a text is printing, then appending ----

  lemma {:induction false} BodyAppends(s: Text, a: Text, b: Text)
    ensures BodyText(s, a + b) == BodyText(s, a) + b
    decreases |s|
  {
    if s == [] {
    } else {
      if |s| >= 2 && IsHighSurrogate(s[0]) && IsLowSurrogate(s[1]) {
        BodyAppends(s[2..], a, b);
      } else {
        BodyAppends(s[1..], a, b);
      }
    }
  }

  lemma StringAppends(s: Text, a: Text, b: Text)
    ensures StringText(s, a + b) == StringText(s, a) + b
  {
    assert [QUOTE] + (a + b) == ([QUOTE] + a) + b;
    BodyAppends(s, [QUOTE] + a, b);
  }

  lemma LayoutAppends(l: Layout, a: Text, b: Text)
    ensures LayoutText(l, a + b) == LayoutText(l, a) + b
  {
    var e := ExponentText(l.exponent, a);
    assert ExponentText(l.exponent, a + b) == e + b;
  }

  lemma NumberAppends(x: Number, a: Text, b: Text)
    ensures NumberText(x, a + b) == NumberText(x, a) + b
  {
    if x.Finite? {
      LayoutAppends(LayoutOf(NatText(x.digits), x.exponent), a, b);
    }
  }

  lemma {:induction false} PrintAppends(v: Json, a: Text, b: Text)
    ensures Print(v, a + b) == Print(v, a) + b
    decreases v
  {
    match v
    case Num(x) => NumberAppends(x, a, b);
    case Str(s) => StringAppends(s, a, b);
    case Arr(items) =>
      assert [CLOSE_BRACKET] + (a + b) == ([CLOSE_BRACKET] + a) + b;
      ItemsAppend(items, [CLOSE_BRACKET] + a, b);
    case Obj(ms) =>
      assert [CLOSE_BRACE] + (a + b) == ([CLOSE_BRACE] + a) + b;
      MembersAppend(ms, [CLOSE_BRACE] + a, b);
    case _ =>
  }

  lemma {:induction false} ItemsAppend(items: seq<Json>, a: Text, b: Text)
    ensures PrintItems(items, a + b) == PrintItems(items, a) + b
    decreases items
  {
    if |items| == 1 {
      PrintAppends(items[0], a, b);
    } else if |items| > 1 {
      ItemsAppend(items[1..], a, b);
      assert [COMMA] + (PrintItems(items[1..], a) + b) == ([COMMA] + PrintItems(items[1..], a)) + b;
      PrintAppends(items[0], [COMMA] + PrintItems(items[1..], a), b);
    }
  }

  lemma {:induction false} MembersAppend(ms: seq<Member>, a: Text, b: Text)
    ensures PrintMembers(ms, a + b) == PrintMembers(ms, a) + b
    decreases ms
  {
    if ms == [] {
    } else {
      var tail := if |ms| == 1 then a else [COMMA] + PrintMembers(ms[1..], a);
      if |ms| > 1 {
        MembersAppend(ms[1..], a, b);
        assert [COMMA] + (PrintMembers(ms[1..], a) + b) == tail + b;
      }
      PrintAppends(ms[0].value, tail, b);
      var value := Print(ms[0].value, tail);
      assert [COLON] + (value + b) == ([COLON] + value) + b;
      StringAppends(ms[0].key, [COLON] + value, b);
    }
  }

  lemma {:induction false} StringifyThen(v: Json, rest: Text)
    ensures Print(v, rest) == Stringify(v) + rest
  {
    PrintAppends(v, [], rest);
    assert [] + rest == rest;
  }

  /** Parsing the text of a value gives the value back, also with white space behind it. */
  lemma {:induction false} ParsePrint(v: Json, blanks: Text)
    requires WellFormed(v) && forall i :: 0 <= i < |blanks| ==> IsBlank(blanks[i])
    ensures Parse(Stringify(v) + blanks) == Some(v)
  {
    StringifyThen(v, blanks);
    ValueRoundTrip(v, blanks);
  }

  /** The texts of literals and empty values, and the punctuation of the others. */
  lemma StringifyIs(k: Text, v: Json, l: Text, w: Json)
    ensures Stringify(Null) == Ascii("null")
    ensures Stringify(Bool(true)) == Ascii("true") && Stringify(Bool(false)) == Ascii("false")
    ensures Stringify(Arr([])) == Ascii("[]") && Stringify(Obj([])) == Ascii("{}")
    ensures Stringify(Str([])) == Ascii("\"\"")
    ensures Stringify(Arr([v, w])) == [91] + (Stringify(v) + ([44] + (Stringify(w) + [93])))
    ensures Stringify(Obj([Member(k, v), Member(l, w)])) ==
            [123] + (Stringify(Str(k)) + ([58] + (Stringify(v) + ([44] + (Stringify(Str(l)) + ([58]
            + (Stringify(w) + [125])))))))
  {
    ItemsAre(v, w);
    MembersAre(k, v, l, w);
  }

  lemma ItemsAre(v: Json, w: Json)
    ensures Stringify(Arr([v, w])) == [91] + (Stringify(v) + ([44] + (Stringify(w) + [93])))
  {
    var end := [CLOSE_BRACKET] + [];
    var last := PrintItems([w], end);
    assert last == Print(w, end);
    assert [v, w][1..] == [w] && PrintItems([v, w], end) == Print(v, [COMMA] + last);
    StringifyThen(w, end);
    StringifyThen(v, [COMMA] + Print(w, end));
  }

  lemma MembersAre(k: Text, v: Json, l: Text, w: Json)
    ensures Stringify(Obj([Member(k, v), Member(l, w)])) ==
            [123] + (Stringify(Str(k)) + ([58] + (Stringify(v) + ([44] + (Stringify(Str(l)) + ([58]
            + (Stringify(w) + [125])))))))
  {
    var end := [CLOSE_BRACE] + [];
    var first, last := Member(k, v), Member(l, w);
    var more := PrintMembers([last], end);
    assert more == StringText(l, [COLON] + Print(w, end));
    assert [first, last][1..] == [last];
    assert PrintMembers([first, last], end) == StringText(k, [COLON] + Print(v, [COMMA] + more));
    StringifyThen(w, end);
    StringifyThen(Str(l), [COLON] + Print(w, end));
    StringifyThen(v, [COMMA] + more);
    StringifyThen(Str(k), [COLON] + Print(v, [COMMA] + more));
  }

  /** Two values with the same text are the same value. */
  lemma {:induction false} StringifyInjective(v: Json, w: Json)
    requires WellFormed(v) && WellFormed(w) && Stringify(v) == Stringify(w)
    ensures v == w
  {
    ValueRoundTrip(v, []);
    ValueRoundTrip(w, []);
  }
}
