/**
 * JSON strings: QuoteJSONString of section 25.5.2.3 of ECMA-262, with its escapes of control characters and of
 * surrogates without a partner, and a reader that undoes it.
 */
module JsonStrings {
  import opened Text
  import opened Options

  predicate IsHighSurrogate(c: CodeUnit) { 0xD800 <= c < 0xDC00 }

  predicate IsLowSurrogate(c: CodeUnit) { 0xDC00 <= c < 0xE000 }

  predicate IsSurrogate(c: CodeUnit) { IsHighSurrogate(c) || IsLowSurrogate(c) }

  /** The letter of a two-character escape: \b \t \n \f \r \" \\. */
  function ShortEscape(c: CodeUnit): Option<CodeUnit> {
    if c == 8 then Some(98) else if c == 9 then Some(116) else if c == 10 then Some(110)
    else if c == 12 then Some(102) else if c == 13 then Some(114)
    else if c == QUOTE then Some(QUOTE) else if c == BACKSLASH then Some(BACKSLASH) else None
  }

  function ShortEscaped(letter: CodeUnit): Option<CodeUnit> {
    if letter == 98 then Some(8) else if letter == 116 then Some(9) else if letter == 110 then Some(10)
    else if letter == 102 then Some(12) else if letter == 114 then Some(13)
    else if letter == QUOTE then Some(QUOTE) else if letter == BACKSLASH then Some(BACKSLASH) else None
  }

  function HexDigit(d: int): CodeUnit
    requires 0 <= d < 16
  {
    if d < 10 then ZERO + d else 87 + d
  }

  function HexValue(c: CodeUnit): (d: Option<int>)
    ensures d.Some? ==> 0 <= d.value < 16
  {
    if ZERO <= c <= 57 then Some(c - ZERO) else if 97 <= c <= 102 then Some(c - 87) else None
  }

  function UnicodeEscape(c: CodeUnit): Text {
    [BACKSLASH, 117, HexDigit(c / 16 / 16 / 16), HexDigit(c / 16 / 16 % 16), HexDigit(c / 16 % 16), HexDigit(c % 16)]
  }

  function UnitText(c: CodeUnit): Text {
    if ShortEscape(c).Some? then [BACKSLASH, ShortEscape(c).value]
    else if c < 32 || IsSurrogate(c) then UnicodeEscape(c)
    else [c]
  }

  /** The body of the quoted form of s, followed by rest. */
  function BodyText(s: Text, rest: Text): Text {
    if s == [] then rest
    else if |s| >= 2 && IsHighSurrogate(s[0]) && IsLowSurrogate(s[1]) then [s[0]] + ([s[1]] + BodyText(s[2..], rest))
    else UnitText(s[0]) + BodyText(s[1..], rest)
  }

  function StringText(s: Text, rest: Text): Text {
    [QUOTE] + BodyText(s, [QUOTE] + rest)
  }

  /** The first unit of a string body, with what follows it. */
  function ReadUnit(t: Text): (r: Option<(CodeUnit, Text)>)
    requires t != []
    ensures r.Some? ==> |r.value.1| < |t|
  {
    if t[0] < 32 then None
    else if t[0] != BACKSLASH then Some((t[0], t[1..]))
    else if |t| < 2 then None
    else if t[1] != 117 then
      if ShortEscaped(t[1]).Some? then Some((ShortEscaped(t[1]).value, t[2..])) else None
    else if |t| < 6 then None
    else
      var a, b, c, d := HexValue(t[2]), HexValue(t[3]), HexValue(t[4]), HexValue(t[5]);
      if a.None? || b.None? || c.None? || d.None? then None
      else Some((((a.value * 16 + b.value) * 16 + c.value) * 16 + d.value, t[6..]))
  }

  /** The string whose body and closing quote start t, with what follows it. */
  function ReadBody(t: Text): (r: Option<(Text, Text)>)
    ensures r.Some? ==> |r.value.1| < |t|
    decreases |t|
  {
    if t == [] then None
    else if t[0] == QUOTE then Some(([], t[1..]))
    else
      var u := ReadUnit(t);
      if u.None? then None else
        var r := ReadBody(u.value.1);
        if r.None? then None else Some(([u.value.0] + r.value.0, r.value.1))
  }

  lemma UnitUndone(c: CodeUnit, rest: Text)
    ensures UnitText(c) != [] && UnitText(c)[0] != QUOTE
    ensures ReadUnit(UnitText(c) + rest) == Some((c, rest))
  {
    var t := UnitText(c) + rest;
    if ShortEscape(c).Some? {
      assert t[2..] == rest;
    } else if c < 32 || IsSurrogate(c) {
      assert t[6..] == rest;
    } else {
      assert t[1..] == rest;
    }
  }

  /** A surrogate is read as it stands; so a raw pair is read as its two halves. */
  lemma {:induction false} ReadSurrogate(c: CodeUnit, more: Text, s: Text, rest: Text)
    requires IsSurrogate(c) && ReadBody(more) == Some((s, rest))
    ensures ReadBody([c] + more) == Some(([c] + s, rest))
  {
    Cons(c, more);
  }

  lemma {:induction false} ReadUnitThen(c: CodeUnit, more: Text, s: Text, rest: Text)
    requires ReadBody(more) == Some((s, rest))
    ensures ReadBody(UnitText(c) + more) == Some(([c] + s, rest))
  {
    UnitUndone(c, more);
  }

  lemma {:induction false} BodyRoundTrip(s: Text, rest: Text)
    ensures ReadBody(BodyText(s, [QUOTE] + rest)) == Some((s, rest))
    decreases |s|
  {
    if s == [] {
      Cons(QUOTE, rest);
    } else if |s| >= 2 && IsHighSurrogate(s[0]) && IsLowSurrogate(s[1]) {
      var more := BodyText(s[2..], [QUOTE] + rest);
      BodyRoundTrip(s[2..], rest);
      ReadSurrogate(s[1], more, s[2..], rest);
      ReadSurrogate(s[0], [s[1]] + more, [s[1]] + s[2..], rest);
      assert [s[0]] + ([s[1]] + s[2..]) == s;
    } else {
      var more := BodyText(s[1..], [QUOTE] + rest);
      BodyRoundTrip(s[1..], rest);
      ReadUnitThen(s[0], more, s[1..], rest);
      assert [s[0]] + s[1..] == s;
    }
  }

  /** No control characters, and surrogates only in pairs. */
  predicate IsClean(t: Text) {
    || t == []
    || (0xD800 <= t[0] <= 0xDBFF && |t| >= 2 && 0xDC00 <= t[1] <= 0xDFFF && IsClean(t[2..]))
    || (32 <= t[0] && !(0xD800 <= t[0] <= 0xDFFF) && IsClean(t[1..]))
  }

  lemma {:induction false} PlainFront(a: Text, t: Text)
    requires forall i :: 0 <= i < |a| ==> 32 <= a[i] < 0xD800
    ensures IsClean(a + t) <==> IsClean(t)
  {
    if a == [] {
      assert a + t == t;
    } else {
      PlainFront(a[1..], t);
      assert (a + t)[1..] == a[1..] + t;
    }
  }

  lemma {:induction false} UnitIsClean(c: CodeUnit, t: Text)
    requires IsClean(t)
    ensures IsClean(UnitText(c) + t)
  {
    if ShortEscape(c).Some? || c < 32 || IsSurrogate(c) {
      PlainFront(UnitText(c), t);
    } else {
      Cons(c, t);
    }
  }

  /** Quoting escapes what section 25.5.2.3 wants escaped: control characters, and surrogates without a partner. */
  lemma {:induction false} BodyIsClean(s: Text, rest: Text)
    requires IsClean(rest)
    ensures IsClean(BodyText(s, rest))
    decreases |s|
  {
    if s == [] {
    } else if |s| >= 2 && IsHighSurrogate(s[0]) && IsLowSurrogate(s[1]) {
      var more := BodyText(s[2..], rest);
      BodyIsClean(s[2..], rest);
      assert ([s[0]] + ([s[1]] + more))[2..] == more;
    } else {
      BodyIsClean(s[1..], rest);
      UnitIsClean(s[0], BodyText(s[1..], rest));
    }
  }

  /** What is clean and holds neither a quote nor a backslash is written as it is. */
  lemma {:induction false} PlainBody(s: Text, rest: Text)
    requires IsClean(s) && 34 !in s && 92 !in s
    ensures BodyText(s, rest) == s + rest
    decreases |s|
  {
    if s == [] {
    } else if 0xD800 <= s[0] <= 0xDBFF {
      PlainBody(s[2..], rest);
      PairThen(s, rest);
    } else {
      PlainBody(s[1..], rest);
      UnitThen(s, rest);
    }
  }

  lemma PairThen(s: Text, rest: Text)
    requires |s| >= 2
    ensures [s[0]] + ([s[1]] + (s[2..] + rest)) == s + rest
  {
  }

  lemma UnitThen(s: Text, rest: Text)
    requires |s| >= 1
    ensures [s[0]] + (s[1..] + rest) == s + rest
  {
  }

  /** Reading a quoted string gives it back, whatever follows it. */
  lemma StringRoundTrip(s: Text, rest: Text)
    ensures StringText(s, rest)[0] == QUOTE
    ensures ReadBody(StringText(s, rest)[1..]) == Some((s, rest))
  {
    BodyRoundTrip(s, rest);
    Cons(QUOTE, BodyText(s, [QUOTE] + rest));
  }
}
