/**
 * Period keys such as 2026-05: their texts, their windows in time, and the three places of the code that step from one
 * key to another.
 */
module PeriodKeys {
  import opened Options
  import opened Text
  import opened Calendar
  import opened Spans

  /** The year and month of a key; its text is only written and split at the dash. */
  datatype Key = Key(year: nat, month: nat)

  // ---- The text of a key ----

  function Pad2(n: nat): Text {
    var digits := NatText(n);
    if |digits| < 2 then Zeros(2 - |digits|) + digits else digits
  }

  function TextOf(key: Key): Text {
    NatText(key.year) + ([DASH] + Pad2(key.month))
  }

  /** Splitting at the dash and Number; None stands for NaN. */
  function ParseKey(text: Text): Option<Key> {
    var n := DigitRun(text);
    if n == 0 || n + 1 >= |text| || text[n] != DASH || !AllDigits(text[n + 1..]) then None
    else Some(Key(DigitsValue(text[..n]), DigitsValue(text[n + 1..])))
  }

  lemma Pad2Value(n: nat)
    ensures |Pad2(n)| >= 2 && AllDigits(Pad2(n)) && DigitsValue(Pad2(n)) == n
  {
    var digits := NatText(n);
    NatTextValue(n);
    if |digits| < 2 {
      DigitsValueConcat(Zeros(2 - |digits|), digits);
      ZerosValue(2 - |digits|);
    }
  }

  /** A key reads back from its text, so different keys have different texts. */
  lemma KeyRoundTrip(key: Key)
    ensures ParseKey(TextOf(key)) == Some(key)
  {
    var rest := [DASH] + Pad2(key.month);
    Pad2Value(key.month);
    NatTextValue(key.year);
    DigitRunOf(NatText(key.year), rest);
    assert TextOf(key)[|NatText(key.year)| + 1..] == Pad2(key.month);
  }

  /** The year, a dash, and the month in two digits. */
  lemma KeyTextIs(key: Key)
    requires key.month < 100
    ensures TextOf(key) == NatText(key.year) + [45, 48 + key.month / 10, 48 + key.month % 10]
  {
    if key.month < 10 {
      assert Pad2(key.month) == [48, 48 + key.month];
    } else {
      assert NatText(key.month / 10) == [48 + key.month / 10];
      assert Pad2(key.month) == [48 + key.month / 10, 48 + key.month % 10];
    }
    assert TextOf(key) == NatText(key.year) + ([45] + Pad2(key.month));
  }

  // ---- Month indexes ----

  function ToMonthIndex(year: int, month: int): int {
    year * 12 + (month - 1)
  }

  /** fromMonthIndex. */
  function KeyOf(index: nat): Key {
    Key(index / 12, index % 12 + 1)
  }

  /** Indexes and keys of real months correspond one to one. */
  lemma IndexRoundTrip(index: nat, key: Key)
    ensures ToMonthIndex(KeyOf(index).year, KeyOf(index).month) == index && 1 <= KeyOf(index).month <= 12
    ensures 1 <= key.month <= 12 ==> (KeyOf(index) == key <==> ToMonthIndex(key.year, key.month) == index)
  {
  }

  lemma IndexIsWhole(index: int)
    ensures 12 * (index / 12) + index % 12 == index
  {
  }

  // ---- The window of a month ----

  function MonthStartDate(key: Key): int {
    NewDate(key.year, key.month - 1, 1, 0)
  }

  /** Day 0 of the next month, at the last millisecond. */
  function MonthEndDate(key: Key): int {
    NewDate(key.year, key.month, 0, LAST_MS)
  }

  lemma EndDate(year: int, month: int)
    requires !(0 <= year <= 99)
    ensures NewDate(year, month, 0, LAST_MS) == MonthStart(12 * year + month) - 1
  {
  }

  /** From year 100 on a key's window runs from the first instant of its month to the last before the next. */
  lemma WindowOf(index: nat)
    requires 1200 <= index
    ensures MonthStartDate(KeyOf(index)) == MonthStart(index)
    ensures MonthEndDate(KeyOf(index)) == MonthStart(index + 1) - 1
  {
    FirstDate(index / 12, index % 12);
    EndDate(index / 12, index % 12 + 1);
    IndexIsWhole(index);
  }

  function SpanOf(key: Key): Span {
    Span(MonthStartDate(key), MonthEndDate(key))
  }

  /** The months' instants are exactly those whose getFullYear and getMonth are that month. */
  lemma WindowIsMonth(index: int, t: int)
    ensures MonthStart(index) <= t <= MonthStart(index + 1) - 1 <==> MonthOf(t) == index
  {
    if InMonth(index, Day(t)) {
      MonthUnique(index, MonthOf(t), Day(t));
    }
  }

  // ---- Stepping from month to month ----

  /** The key of a time: getFullYear and getMonth written out. */
  function KeyOfTime(t: int): Key
    requires MonthOf(t) >= 0
  {
    Key(FullYear(t), Month(t) + 1)
  }

  lemma KeyOfMonth(t: int, index: nat)
    requires MonthOf(t) == index
    ensures KeyOfTime(t) == KeyOf(index)
  {
  }

  /** addMonths of the liquidation backfill. */
  function AddMonths(key: Key, months: int): Option<Key> {
    var date := NewDate(key.year, key.month - 1 + months, 1, 0);
    if MonthOf(date) < 0 then None else Some(KeyOfTime(date))
  }

  /** getPreviousMonth of the nudges. */
  function GetPreviousMonth(key: Key): Option<Key> {
    var date := NewDate(key.year, key.month - 1, 1, 0);
    var previous := SetMonth(date, Month(date) - 1);
    if MonthOf(previous) < 0 then None else Some(KeyOfTime(previous))
  }

  /** previousMonth of the resolver. */
  function PreviousMonth(referenceDate: int): Key
    requires MonthOf(referenceDate) >= 1
  {
    KeyOf(ToMonthIndex(FullYear(referenceDate), Month(referenceDate) + 1) - 1)
  }

  /** Where the Date constructor puts month index, given the year it is handed. */
  function ConstructorIndex(index: nat): nat {
    if index / 12 <= 99 then index + 12 * 1900 else index
  }

  lemma ConstructedMonth(index: nat, months: int)
    ensures MonthOf(NewDate(index / 12, index % 12 + months, 1, 0)) == ConstructorIndex(index) + months
    ensures NewDate(index / 12, index % 12 + months, 1, 0) == MonthStart(ConstructorIndex(index) + months)
  {
    var year := MakeFullYear(index / 12);
    assert NewDate(index / 12, index % 12 + months, 1, 0) == NewDate(year, index % 12 + months, 1, 0);
    FirstDate(year, index % 12 + months);
    MonthOfFirst(year, index % 12 + months);
    assert 12 * year + index % 12 == ConstructorIndex(index);
  }

  /** addMonths adds to the month index, exactly from year 100 on; a year before comes out 1900 years later. */
  lemma AddMonthsIsIndexAddition(index: nat, months: int)
    requires index + months >= 0
    ensures AddMonths(KeyOf(index), months) == Some(KeyOf(ConstructorIndex(index) + months))
    ensures AddMonths(KeyOf(index), months) == Some(KeyOf(index + months)) <==> index / 12 >= 100
  {
    var date := NewDate(index / 12, index % 12 + 1 - 1 + months, 1, 0);
    assert MonthOf(date) == ConstructorIndex(index) + months by {
      ConstructedMonth(index, months);
    }
    KeyOfMonth(date, ConstructorIndex(index) + months);
    IndexRoundTrip(ConstructorIndex(index) + months, KeyOf(index + months));
    IndexRoundTrip(index + months, KeyOf(index + months));
  }

  /** setMonth one back from the first of a month. */
  lemma BackFromFirst(date: int, index: int)
    requires date == MonthStart(index)
    ensures MonthOf(SetMonth(date, Month(date) - 1)) == index - 1
  {
    MonthOfMidnight(date, index);
    SetMonthOfStart(date, index, index % 12 - 1);
    MonthOfMidnight(SetMonth(date, index % 12 - 1), index - 1);
  }

  lemma GetPreviousIsIndexStep(index: nat)
    requires 1200 <= index
    ensures GetPreviousMonth(KeyOf(index)) == Some(KeyOf(index - 1))
  {
    var date := NewDate(index / 12, index % 12 + 1 - 1, 1, 0);
    var previous := SetMonth(date, Month(date) - 1);
    assert MonthOf(previous) == index - 1 by {
      ConstructedMonth(index, 0);
      BackFromFirst(date, index);
    }
    KeyOfMonth(previous, index - 1);
  }

  lemma PreviousIsIndexStep(t: int)
    requires 1200 <= MonthOf(t)
    ensures PreviousMonth(t) == KeyOf(MonthOf(t) - 1)
  {
  }

  /** All three ways to the month before agree, for every time from year 100 on. */
  lemma PreviousMonthsAgree(t: int)
    requires 1200 <= MonthOf(t)
    ensures PreviousMonth(t) == KeyOf(MonthOf(t) - 1)
    ensures GetPreviousMonth(KeyOfTime(t)) == Some(PreviousMonth(t))
    ensures AddMonths(KeyOfTime(t), -1) == Some(PreviousMonth(t))
  {
    KeyOfMonth(t, MonthOf(t));
    PreviousIsIndexStep(t);
    GetPreviousIsIndexStep(MonthOf(t));
    AddMonthsIsIndexAddition(MonthOf(t), -1);
  }
}
