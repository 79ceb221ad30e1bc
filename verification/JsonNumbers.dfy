/**
 * JSON numbers as section 6.1.6.1.20 of ECMA-262 prints them: a decimal without trailing zeros is laid out as an
 * integer, with a point inside, with leading zeros or with an exponent, by the place of its point. The reader takes
 * such a text apart again and gives back the digits and the exponent.
 */
module JsonNumbers {
  import opened Text
  import opened Options

  /** A finite number, digits * 10^exponent with a sign; both zeros are one value, as === has it. */
  datatype Number = NumZero | Finite(negative: bool, digits: nat, exponent: int) {
    /** The digit string of section 6.1.6.1.20 is as short as possible. */
    predicate Canonical() {
      Finite? ==> digits % 10 != 0
    }
  }

  datatype Layout = Layout(whole: Text, fraction: Text, exponent: Option<int>)

  /** How the digit string d, scaled by 10^exponent, is laid out. */
  function LayoutOf(d: Text, exponent: int): (l: Layout)
    requires |d| >= 1 && AllDigits(d)
    ensures |l.whole| >= 1 && AllDigits(l.whole) && AllDigits(l.fraction)
  {
    var n := |d| + exponent;
    if |d| <= n <= 21 then Layout(d + Zeros(exponent), [], None)
    else if 0 < n <= 21 then Layout(d[..n], d[n..], None)
    else if -6 < n <= 0 then Layout([ZERO], Zeros(-n) + d, None)
    else Layout(d[..1], d[1..], Some(n - 1))
  }

  /** Where the standard puts the point, and which numbers it writes with an exponent. */
  lemma LayoutPlaces(d: Text, exponent: int)
    requires |d| >= 1 && AllDigits(d)
    ensures var l, n := LayoutOf(d, exponent), |d| + exponent; (
            && (l.exponent.None? <==> -6 < n <= 21)
            && (l.exponent.None? ==> if n > 0 then |l.whole| == n else l.whole == [48])
            && (l.exponent.Some? ==> |l.whole| == 1 && l.exponent.value == n - 1))
  {
  }

  function FractionText(fraction: Text, rest: Text): Text {
    if fraction == [] then rest else [DOT] + (fraction + rest)
  }

  function ExponentText(exponent: Option<int>, rest: Text): Text {
    match exponent
    case None => rest
    case Some(e) => [LOWER_E] + ([if e < 0 then DASH else PLUS] + (NatText(if e < 0 then -e else e) + rest))
  }

  function LayoutText(l: Layout, rest: Text): Text {
    l.whole + FractionText(l.fraction, ExponentText(l.exponent, rest))
  }

  /** The text of x, followed by rest. */
  function NumberText(x: Number, rest: Text): Text {
    match x
    case NumZero => [ZERO] + rest
    case Finite(negative, digits, exponent) =>
      var text := LayoutText(LayoutOf(NatText(digits), exponent), rest);
      if negative then [DASH] + text else text
  }

  /** The canonical number with value m * 10^e. */
  function Scientific(negative: bool, m: nat, e: int): (x: Number)
    ensures x.Canonical()
  {
    if m == 0 then NumZero
    else if m % 10 == 0 then Scientific(negative, m / 10, e + 1)
    else Finite(negative, m, e)
  }

  /** The fraction at the head of t, with what follows it. */
  function ReadFraction(t: Text): (r: Option<(Text, Text)>)
    ensures r.Some? ==> AllDigits(r.value.0) && |r.value.1| <= |t|
  {
    if t == [] || t[0] != DOT then Some(([], t)) else
      var t, n := t[1..], DigitRun(t[1..]);
      if n == 0 then None else Some((t[..n], t[n..]))
  }

  function ReadSignedDigits(t: Text): (r: Option<(Option<int>, Text)>)
    ensures r.Some? ==> |r.value.1| <= |t|
  {
    if t == [] || (t[0] != PLUS && t[0] != DASH) then None else
      var negative, t, n := t[0] == DASH, t[1..], DigitRun(t[1..]);
      if n == 0 then None else
        var e: int := DigitsValue(t[..n]);
        Some((Some(if negative then -e else e), t[n..]))
  }

  function ReadExponent(t: Text): (r: Option<(Option<int>, Text)>)
    ensures r.Some? ==> |r.value.1| <= |t|
  {
    if t == [] || t[0] != LOWER_E then Some((None, t)) else ReadSignedDigits(t[1..])
  }

  function ReadLayout(t: Text): (r: Option<(Layout, Text)>)
    ensures r.Some? ==> |r.value.1| < |t|
    ensures r.Some? ==> AllDigits(r.value.0.whole) && AllDigits(r.value.0.fraction)
  {
    var n := DigitRun(t);
    if n == 0 then None else
      var f := ReadFraction(t[n..]);
      if f.None? then None else
        var e := ReadExponent(f.value.1);
        if e.None? then None else Some((Layout(t[..n], f.value.0, e.value.0), e.value.1))
  }

  function LayoutNumber(negative: bool, l: Layout): (x: Number)
    requires AllDigits(l.whole) && AllDigits(l.fraction)
    ensures x.Canonical()
  {
    assert AllDigits(l.whole + l.fraction);
    Scientific(negative, DigitsValue(l.whole + l.fraction), l.exponent.GetOr(0) - |l.fraction|)
  }

  function ReadMagnitude(negative: bool, t: Text): (r: Option<(Number, Text)>)
    ensures r.Some? ==> |r.value.1| < |t|
  {
    var l := ReadLayout(t);
    if l.None? then None else Some((LayoutNumber(negative, l.value.0), l.value.1))
  }

  function ReadNumber(t: Text): (r: Option<(Number, Text)>)
    ensures r.Some? ==> |r.value.1| < |t|
  {
    if t != [] && t[0] == DASH then ReadMagnitude(true, t[1..]) else ReadMagnitude(false, t)
  }

  /** What may follow a number: nothing that could extend it. */
  predicate EndsNumber(rest: Text) {
    rest != [] ==> !IsDigit(rest[0]) && rest[0] != DOT && rest[0] != LOWER_E
  }

  lemma {:induction false} ScientificShift(negative: bool, s: nat, j: nat, e: int)
    requires s % 10 != 0
    ensures Scientific(negative, s * Pow10(j), e) == Finite(negative, s, e + j)
  {
    if j == 0 {
    } else {
      ScientificShift(negative, s, j - 1, e + 1);
      ScaleSum(s, Pow10(j - 1), 0);
      var m := s * Pow10(j - 1);
      assert s * Pow10(j) == 10 * m;
      assert m > 0;
    }
  }

  lemma {:induction false} SignedDigitsUndone(e: int, rest: Text)
    requires EndsNumber(rest)
    ensures ReadSignedDigits([if e < 0 then DASH else PLUS] + (NatText(if e < 0 then -e else e) + rest))
         == Some((Some(e), rest))
  {
    var a := if e < 0 then -e else e;
    Cons(if e < 0 then DASH else PLUS, NatText(a) + rest);
    DigitRunOf(NatText(a), rest);
    NatTextValue(a);
  }

  lemma ExponentUndone(exponent: Option<int>, rest: Text)
    requires EndsNumber(rest)
    ensures ReadExponent(ExponentText(exponent, rest)) == Some((exponent, rest))
    ensures ExponentText(exponent, rest) != [] ==>
              !IsDigit(ExponentText(exponent, rest)[0]) && ExponentText(exponent, rest)[0] != DOT
  {
    match exponent
    case None =>
    case Some(e) =>
      Cons(LOWER_E, [if e < 0 then DASH else PLUS] + (NatText(if e < 0 then -e else e) + rest));
      SignedDigitsUndone(e, rest);
  }

  lemma FractionUndone(fraction: Text, tail: Text)
    requires AllDigits(fraction)
    requires tail != [] ==> !IsDigit(tail[0]) && tail[0] != DOT
    ensures ReadFraction(FractionText(fraction, tail)) == Some((fraction, tail))
    ensures FractionText(fraction, tail) != [] ==> !IsDigit(FractionText(fraction, tail)[0])
  {
    if fraction != [] {
      Cons(DOT, fraction + tail);
      DigitRunOf(fraction, tail);
    }
  }

  lemma LayoutUndone(l: Layout, rest: Text)
    requires |l.whole| >= 1 && AllDigits(l.whole) && AllDigits(l.fraction)
    requires EndsNumber(rest)
    ensures ReadLayout(LayoutText(l, rest)) == Some((l, rest))
  {
    var tail := ExponentText(l.exponent, rest);
    ExponentUndone(l.exponent, rest);
    FractionUndone(l.fraction, tail);
    DigitRunOf(l.whole, FractionText(l.fraction, tail));
  }

  lemma {:induction false} PaddedValue(d: Text, n: nat)
    requires AllDigits(d)
    ensures DigitsValue(d + Zeros(n)) == DigitsValue(d) * Pow10(n)
  {
    DigitsValueConcat(d, Zeros(n));
    ZerosValue(n);
  }

  lemma {:induction false} LeadingZeros(n: nat, d: Text)
    requires AllDigits(d)
    ensures AllDigits(Zeros(n) + d) && DigitsValue(Zeros(n) + d) == DigitsValue(d)
  {
    DigitsValueConcat(Zeros(n), d);
    ZerosValue(n);
  }

  lemma {:induction false} LayoutDigits(d: Text, exponent: int)
    requires |d| >= 1 && AllDigits(d)
    ensures var l := LayoutOf(d, exponent); (
            if |d| <= |d| + exponent <= 21
            then l.whole + l.fraction == d + Zeros(exponent) && l.exponent.GetOr(0) - |l.fraction| == 0
            else DigitsValue(l.whole + l.fraction) == DigitsValue(d) && l.exponent.GetOr(0) - |l.fraction| == exponent)
  {
    var l := LayoutOf(d, exponent);
    var n := |d| + exponent;
    if |d| <= n <= 21 {
      assert l.whole + l.fraction == d + Zeros(exponent);
    } else if -6 < n <= 0 {
      LeadingZeros(1 - n, d);
      assert l.whole + l.fraction == Zeros(1 - n) + d;
    } else {
      assert l.whole + l.fraction == d;
    }
  }

  lemma {:induction false} LayoutValue(negative: bool, digits: nat, exponent: int)
    requires digits % 10 != 0
    ensures LayoutNumber(negative, LayoutOf(NatText(digits), exponent)) == Finite(negative, digits, exponent)
  {
    var d := NatText(digits);
    LayoutDigits(d, exponent);
    NatTextValue(digits);
    if |d| <= |d| + exponent <= 21 {
      PaddedValue(d, exponent);
      ScientificShift(negative, digits, exponent, 0);
    }
  }

  lemma LayoutZero()
    ensures LayoutNumber(false, Layout([ZERO], [], None)) == NumZero
  {
    ZerosValue(1);
    assert [ZERO] + [] == Zeros(1);
  }

  lemma MagnitudeUndone(negative: bool, l: Layout, rest: Text)
    requires |l.whole| >= 1 && AllDigits(l.whole) && AllDigits(l.fraction)
    requires EndsNumber(rest)
    ensures ReadMagnitude(negative, LayoutText(l, rest)) == Some((LayoutNumber(negative, l), rest))
    ensures LayoutText(l, rest) != [] && IsDigit(LayoutText(l, rest)[0])
  {
    LayoutUndone(l, rest);
  }

  /** Reading a printed number gives it back, whatever follows it. */
  lemma NumberRoundTrip(x: Number, rest: Text)
    requires x.Canonical() && EndsNumber(rest)
    ensures ReadNumber(NumberText(x, rest)) == Some((x, rest))
    ensures NumberText(x, rest) != [] && (IsDigit(NumberText(x, rest)[0]) || NumberText(x, rest)[0] == DASH)
  {
    match x
    case NumZero =>
      MagnitudeUndone(false, Layout([ZERO], [], None), rest);
      LayoutZero();
    case Finite(negative, digits, exponent) =>
      var l := LayoutOf(NatText(digits), exponent);
      MagnitudeUndone(negative, l, rest);
      LayoutValue(negative, digits, exponent);
      Cons(DASH, LayoutText(l, rest));
  }

  /** The integers among the numbers. */
  function IntNumber(n: int): (x: Number)
    ensures x.Canonical()
  {
    Scientific(n < 0, if n < 0 then -n else n, 0)
  }

  /** 0, -1.5, 1e+21 and 1e-7. */
  lemma SomeNumbers()
    ensures NumberText(NumZero, []) == [48]
    ensures NumberText(Finite(true, 15, -1), []) == [45, 49, 46, 53]
    ensures NumberText(Finite(false, 1, 21), []) == [49, 101, 43, 50, 49]
    ensures NumberText(Finite(false, 1, -7), []) == [49, 101, 45, 55]
  {
    assert NatText(15) == [49, 53] && NatText(21) == [50, 49];
    assert LayoutOf(NatText(15), -1) == Layout([49], [53], None);
    assert LayoutOf(NatText(1), 21) == Layout([49], [], Some(21));
    assert LayoutOf(NatText(1), -7) == Layout([49], [], Some(-7));
  }

  lemma {:induction false} ScientificDigits(negative: bool, m: nat, e: nat)
    requires m > 0
    ensures var x := Scientific(negative, m, e);
            x.Finite? && x.negative == negative && x.exponent >= 0
            && NatText(x.digits) + Zeros(x.exponent) == NatText(m) + Zeros(e)
  {
    if m % 10 == 0 {
      ScientificDigits(negative, m / 10, e + 1);
      assert NatText(m) == NatText(m / 10) + [48] && [48] + Zeros(e) == Zeros(e + 1);
    }
  }

  /** Up to 21 digits, an integer is printed as its decimal numeral. */
  lemma {:induction false} IntText(n: nat, rest: Text)
    requires |NatText(n)| <= 21
    ensures NumberText(IntNumber(n), rest) == NatText(n) + rest
  {
    if n > 0 {
      var x := IntNumber(n);
      ScientificDigits(false, n, 0);
      assert NatText(n) + Zeros(0) == NatText(n);
      var l := LayoutOf(NatText(x.digits), x.exponent);
      assert l == Layout(NatText(n), [], None);
    }
  }

  lemma {:induction false} ScientificValue(negative: bool, m: nat, e: int)
    requires m > 0
    ensures var x := Scientific(negative, m, e);
            x.Finite? && x.negative == negative && x.exponent >= e && m == x.digits * Pow10(x.exponent - e)
  {
    if m % 10 == 0 {
      var x := Scientific(negative, m / 10, e + 1);
      ScientificValue(negative, m / 10, e + 1);
      ScaleSum(x.digits, Pow10(x.exponent - e - 1), 0);
    }
  }

  lemma IntNumberInjective(a: int, b: int)
    requires IntNumber(a) == IntNumber(b)
    ensures a == b
  {
    if a != 0 { ScientificValue(a < 0, if a < 0 then -a else a, 0); }
    if b != 0 { ScientificValue(b < 0, if b < 0 then -b else b, 0); }
  }
}
