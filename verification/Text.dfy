/**
 * JavaScript strings as sequences of UTF-16 code units, and decimal numerals over them: how a natural number is
 * written, how its digits are read back, and where a run of digits ends. The readers and writers of JSON are built on
 * these, and so are the keys that the registry hashes, in which a port is written as its decimal numeral.
 */
module Text {

  type CodeUnit = n: int | 0 <= n < 0x1_0000

  type Text = seq<CodeUnit>

  const QUOTE: CodeUnit := 34
  const PLUS: CodeUnit := 43
  const COMMA: CodeUnit := 44
  const DASH: CodeUnit := 45
  const DOT: CodeUnit := 46
  const ZERO: CodeUnit := 48
  const COLON: CodeUnit := 58
  const OPEN_BRACKET: CodeUnit := 91
  const BACKSLASH: CodeUnit := 92
  const CLOSE_BRACKET: CodeUnit := 93
  const LOWER_E: CodeUnit := 101
  const OPEN_BRACE: CodeUnit := 123
  const CLOSE_BRACE: CodeUnit := 125

  /** An ASCII literal as code units. */
  function Ascii(s: string): (t: Text)
    requires forall i :: 0 <= i < |s| ==> s[i] as int < 0x80
    ensures |t| == |s|
    ensures forall i :: 0 <= i < |s| ==> t[i] == s[i] as int
  {
    seq(|s|, i requires 0 <= i < |s| => s[i] as int)
  }

  lemma Cons(c: CodeUnit, t: Text)
    ensures ([c] + t)[0] == c && ([c] + t)[1..] == t
  {
  }

  predicate IsDigit(c: int) {
    ZERO <= c <= 57
  }

  predicate AllDigits(t: Text) {
    forall i :: 0 <= i < |t| ==> IsDigit(t[i])
  }

  function Zeros(n: nat): (t: Text)
    ensures |t| == n && AllDigits(t)
    ensures forall i :: 0 <= i < n ==> t[i] == ZERO
  {
    seq(n, i => ZERO)
  }

  function Pow10(n: nat): (p: nat)
    ensures p >= 1
  {
    if n == 0 then 1 else 10 * Pow10(n - 1)
  }

  /** The decimal numeral of n, without leading zeros. */
  function NatText(n: nat): (t: Text)
    ensures |t| >= 1 && AllDigits(t)
    ensures IsNumeral(t)
  {
    if n < 10 then [ZERO + n] else NatText(n / 10) + [ZERO + n % 10]
  }

  /** Non-empty, all digits, and no superfluous leading zero. */
  predicate IsNumeral(t: Text) {
    |t| >= 1 && AllDigits(t) && (|t| > 1 ==> t[0] != ZERO)
  }

  function DigitsValue(t: Text): (n: nat)
    requires AllDigits(t)
  {
    if t == [] then 0 else 10 * DigitsValue(t[..|t| - 1]) + (t[|t| - 1] - ZERO)
  }

  lemma {:induction false} NatTextValue(n: nat)
    ensures DigitsValue(NatText(n)) == n
  {
    if n >= 10 {
      NatTextValue(n / 10);
      assert NatText(n)[..|NatText(n)| - 1] == NatText(n / 10);
    } else {
      assert NatText(n)[..0] == [];
    }
  }

  lemma {:induction false} DigitsValueConcat(a: Text, b: Text)
    requires AllDigits(a) && AllDigits(b)
    ensures AllDigits(a + b)
    ensures DigitsValue(a + b) == DigitsValue(a) * Pow10(|b|) + DigitsValue(b)
  {
    if b == [] {
      assert a + b == a;
    } else {
      var b' := b[..|b| - 1];
      DigitsValueConcat(a, b');
      assert (a + b)[..|a + b| - 1] == a + b';
      ScaleSum(DigitsValue(a), Pow10(|b'|), DigitsValue(b'));
    }
  }

  lemma ScaleSum(x: nat, p: nat, y: nat)
    ensures 10 * (x * p + y) == x * (10 * p) + 10 * y
  {
  }

  lemma {:induction false} ZerosValue(n: nat)
    ensures DigitsValue(Zeros(n)) == 0
  {
    if n == 0 {
    } else {
      ZerosValue(n - 1);
      assert Zeros(n)[..n - 1] == Zeros(n - 1);
    }
  }

  lemma {:induction false} NumeralValuePositive(t: Text)
    requires IsNumeral(t) && t != [ZERO]
    ensures DigitsValue(t) > 0
  {
    if |t| > 1 {
      var t' := t[..|t| - 1];
      assert t'[0] == t[0];
      NumeralValuePositive(t');
    } else {
      assert t[..0] == [];
    }
  }

  /** Distinct numerals denote distinct numbers. */
  lemma {:induction false} NumeralInjective(a: Text, b: Text)
    requires IsNumeral(a) && IsNumeral(b) && DigitsValue(a) == DigitsValue(b)
    ensures a == b
  {
    var a', b' := a[..|a| - 1], b[..|b| - 1];
    assert a == a' + [a[|a| - 1]] && b == b' + [b[|b| - 1]];
    if a' != [] && b' != [] {
      assert a'[0] == a[0] && b'[0] == b[0];
      NumeralInjective(a', b');
    } else if a' != [] {
      assert a'[0] == a[0];
      NumeralValuePositive(a');
    } else if b' != [] {
      assert b'[0] == b[0];
      NumeralValuePositive(b');
    }
  }

  /** The length of the longest all-digit prefix. */
  function DigitRun(t: Text): (n: nat)
    ensures n <= |t|
    ensures forall i :: 0 <= i < n ==> IsDigit(t[i])
    ensures n < |t| ==> !IsDigit(t[n])
  {
    if t == [] || !IsDigit(t[0]) then 0 else
      var n := 1 + DigitRun(t[1..]);
      assert forall i :: 0 < i < n ==> t[i] == t[1..][i - 1];
      n
  }

  lemma {:induction false} DigitRunOf(digits: Text, rest: Text)
    requires AllDigits(digits)
    requires rest != [] ==> !IsDigit(rest[0])
    ensures DigitRun(digits + rest) == |digits|
    ensures (digits + rest)[..|digits|] == digits && (digits + rest)[|digits|..] == rest
  {
    if digits != [] {
      DigitRunOf(digits[1..], rest);
      assert (digits + rest)[1..] == digits[1..] + rest;
    } else {
      assert digits + rest == rest;
    }
  }
}
