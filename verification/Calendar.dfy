/**
 * Dates as section 21.4.1 of ECMA-262 defines them, with local time free of offset changes. Months are counted from
 * year 0 on, and laid end to end they give every month its first day; that the standard's DayFromYear and its day
 * within the year put it at the same place is proved here, as is that the getters undo the constructor.
 */
module Calendar {
  import opened Spans

  const MS_PER_DAY := 86400000

  const LAST_MS := ((23 * 60 + 59) * 60 + 59) * 1000 + 999

  predicate IsLeap(y: int) {
    y % 4 == 0 && (y % 100 != 0 || y % 400 == 0)
  }

  // ---- Months, counted from the start of year 0 ----

  /** The index of January 1970, whose first day is day 0. */
  const EPOCH := 12 * 1970

  function LengthOf(index: int): (days: int)
    ensures 28 <= days <= 31
  {
    match index % 12
    case 1 => if IsLeap(index / 12) then 29 else 28
    case 3 => 30
    case 5 => 30
    case 8 => 30
    case 10 => 30
    case _ => 31
  }

  /** Day number of the first of a month: the months between it and the epoch, laid end to end. */
  function MonthDay(index: int): int
    decreases if index < EPOCH then EPOCH - index else index - EPOCH
  {
    if index == EPOCH then 0
    else if index > EPOCH then MonthDay(index - 1) + LengthOf(index - 1)
    else MonthDay(index + 1) - LengthOf(index)
  }

  lemma NextMonth(index: int)
    ensures MonthDay(index + 1) == MonthDay(index) + LengthOf(index)
  {
  }

  /** f grows by the length of a month at k. */
  predicate StepsByMonth(f: int -> int, k: int) {
    28 <= f(k + 1) - f(k) <= 31
  }

  lemma {:induction false} Climbs(f: int -> int, i: int, j: int)
    requires i <= j && forall k :: StepsByMonth(f, k)
    ensures 28 * (j - i) <= f(j) - f(i) <= 31 * (j - i)
    decreases j - i
  {
    if i == j {
    } else {
      Climbs(f, i, j - 1);
      assert StepsByMonth(f, j - 1);
    }
  }

  lemma OnlyOne(f: int -> int, i: int, j: int, day: int)
    requires forall k :: StepsByMonth(f, k)
    requires f(i) <= day < f(i + 1) && f(j) <= day < f(j + 1)
    ensures i == j
  {
    if i < j {
      Climbs(f, i + 1, j);
    } else if j < i {
      Climbs(f, j + 1, i);
    }
  }

  lemma MonthDaySteps()
    ensures forall k :: StepsByMonth(MonthDay, k)
  {
    forall k ensures StepsByMonth(MonthDay, k) {
      NextMonth(k);
    }
  }

  lemma {:induction false} MonthDayIncreases(i: int, j: int)
    requires i <= j
    ensures 28 * (j - i) <= MonthDay(j) - MonthDay(i) <= 31 * (j - i)
  {
    MonthDaySteps();
    Climbs(MonthDay, i, j);
  }

  // ---- The formulas of the standard ----

  /** Section 21.4.1.3: the day number of the first of January. */
  function DayFromYear(y: int): int {
    365 * (y - 1970) + (y - 1969) / 4 - (y - 1901) / 100 + (y - 1601) / 400
  }

  /** Days of the year before month m, counted from 0. */
  function DaysBefore(m: int, leap: bool): int
    requires 0 <= m <= 12
  {
    var extra := if leap then 1 else 0;
    match m
    case 0 => 0
    case 1 => 31
    case 2 => 59 + extra
    case 3 => 90 + extra
    case 4 => 120 + extra
    case 5 => 151 + extra
    case 6 => 181 + extra
    case 7 => 212 + extra
    case 8 => 243 + extra
    case 9 => 273 + extra
    case 10 => 304 + extra
    case 11 => 334 + extra
    case _ => 365 + extra
  }

  /** The quotient grows by one exactly when the next number is divisible. */
  lemma Quotient(n: int, d: int)
    requires d == 4 || d == 100 || d == 400
    ensures (n + 1) / d == n / d + (if (n + 1) % d == 0 then 1 else 0)
  {
  }

  lemma YearLength(y: int)
    ensures DayFromYear(y + 1) == DayFromYear(y) + DaysBefore(12, IsLeap(y))
  {
    Quotient(y - 1969, 4);
    Quotient(y - 1901, 100);
    Quotient(y - 1601, 400);
  }

  lemma IndexParts(year: int, month: int)
    ensures (12 * year + month) / 12 == year + month / 12 && (12 * year + month) % 12 == month % 12
  {
  }

  lemma LengthInYear(start: int, y: int, m: int)
    requires start == 12 * y && 0 <= m < 12
    ensures LengthOf(start + m) == DaysBefore(m + 1, IsLeap(y)) - DaysBefore(m, IsLeap(y))
  {
    IndexParts(y, m);
  }

  lemma {:induction false} MonthInYear(start: int, y: int, m: int)
    requires start == 12 * y && 0 <= m <= 12
    ensures MonthDay(start + m) == MonthDay(start) + DaysBefore(m, IsLeap(y))
  {
    if m == 0 {
    } else {
      MonthInYear(start, y, m - 1);
      LengthInYear(start, y, m - 1);
    }
  }

  lemma {:induction false} NextYear(y: int)
    ensures MonthDay(12 * (y + 1)) - MonthDay(12 * y) == DayFromYear(y + 1) - DayFromYear(y)
  {
    MonthInYear(12 * y, y, 12);
    YearLength(y);
  }

  lemma {:induction false} FirstOfYear(y: int)
    ensures MonthDay(12 * y) == DayFromYear(y)
    decreases if y < 1970 then 1970 - y else y - 1970
  {
    if y > 1970 {
      FirstOfYear(y - 1);
      NextYear(y - 1);
    } else if y < 1970 {
      FirstOfYear(y + 1);
      NextYear(y);
    }
  }

  /** The months laid end to end fall where the closed formula of the standard puts them. */
  lemma {:induction false} MonthDayFormula(y: int, m: int)
    requires 0 <= m < 12
    ensures MonthDay(12 * y + m) == DayFromYear(y) + DaysBefore(m, IsLeap(y))
  {
    FirstOfYear(y);
    MonthInYear(12 * y, y, m);
  }

  /** MakeDay: a month below 0 or above 11 carries into the year. */
  function MakeDay(year: int, month: int, date: int): int {
    MonthDay(12 * year + month) + date - 1
  }

  /** MakeDay in the steps of section 21.4.1.28. */
  lemma MakeDaySteps(year: int, month: int, date: int)
    ensures var ym, mn := year + month / 12, month % 12;
            MakeDay(year, month, date) == DayFromYear(ym) + DaysBefore(mn, IsLeap(ym)) + date - 1
  {
    MonthDayFormula(year + month / 12, month % 12);
    assert 12 * (year + month / 12) + month % 12 == 12 * year + month;
  }

  /** The first instant of a month. */
  function MonthStart(index: int): int {
    MonthDay(index) * MS_PER_DAY
  }

  lemma MonthStartRises()
    ensures forall k :: Rises(MonthStart, k)
  {
    forall k ensures Rises(MonthStart, k) {
      NextMonth(k);
    }
  }

  /** MakeFullYear: the Date constructor reads 0 to 99 as 1900 to 1999. */
  function MakeFullYear(year: int): int {
    if 0 <= year <= 99 then 1900 + year else year
  }

  /** new Date(year, month, date, ...): ms is the time within the day. */
  function NewDate(year: int, month: int, date: int, ms: int): int {
    MakeDay(MakeFullYear(year), month, date) * MS_PER_DAY + ms
  }

  // ---- From a time back to its year and month ----

  function Day(t: int): int {
    t / MS_PER_DAY
  }

  predicate InMonth(index: int, day: int) {
    MonthDay(index) <= day < MonthDay(index + 1)
  }

  /** Walks month by month to the one that holds the day. */
  function MonthNear(index: int, day: int): (r: int)
    ensures InMonth(r, day)
    decreases
      if InMonth(index, day) then 0
      else if day < MonthDay(index) then 1 + MonthDay(index) - day
      else 1 + day - MonthDay(index)
  {
    NextMonth(index - 1);
    NextMonth(index);
    if day < MonthDay(index) then MonthNear(index - 1, day)
    else if day < MonthDay(index + 1) then index
    else MonthNear(index + 1, day)
  }

  /** The month index of a time: twelve times getFullYear plus getMonth. */
  function MonthOf(t: int): (index: int)
    ensures InMonth(index, Day(t))
  {
    MonthNear(EPOCH, Day(t))
  }

  function FullYear(t: int): int {
    MonthOf(t) / 12
  }

  function Month(t: int): int {
    MonthOf(t) % 12
  }

  function DateOf(t: int): int {
    Day(t) - MonthDay(MonthOf(t)) + 1
  }

  /** setMonth keeps the day of the month and the time of day. */
  function SetMonth(t: int, month: int): int {
    MakeDay(FullYear(t), month, DateOf(t)) * MS_PER_DAY + t % MS_PER_DAY
  }

  /** A day is in one month only. */
  lemma MonthUnique(i: int, j: int, day: int)
    requires InMonth(i, day) && InMonth(j, day)
    ensures i == j
  {
    MonthDaySteps();
    OnlyOne(MonthDay, i, j, day);
  }

  lemma WithinYear(f: int -> int, index: int, y: int, day: int)
    requires forall k :: StepsByMonth(f, k)
    requires f(index) <= day < f(index + 1) && 12 * y <= index < 12 * (y + 1)
    ensures f(12 * y) <= day < f(12 * (y + 1))
  {
    Climbs(f, 12 * y, index);
    Climbs(f, index + 1, 12 * (y + 1));
  }

  /** FullYear is the year of section 21.4.1.3: the largest whose first day is not after the day. */
  lemma FullYearIsYearFromTime(t: int)
    ensures DayFromYear(FullYear(t)) <= Day(t) < DayFromYear(FullYear(t) + 1)
  {
    YearOfMonth(MonthOf(t), FullYear(t), Day(t));
  }

  lemma YearOfMonth(index: int, y: int, day: int)
    requires InMonth(index, day) && 12 * y <= index < 12 * (y + 1)
    ensures DayFromYear(y) <= day < DayFromYear(y + 1)
  {
    FirstOfYear(y);
    FirstOfYear(y + 1);
    MonthDaySteps();
    WithinYear(MonthDay, index, y, day);
  }

  lemma {:induction false} MonthOfStart(t: int, index: int)
    requires Day(t) == MonthDay(index)
    ensures MonthOf(t) == index
  {
    NextMonth(index);
    MonthUnique(MonthOf(t), index, Day(t));
  }

  lemma FirstDate(year: int, month: int)
    requires !(0 <= year <= 99)
    ensures NewDate(year, month, 1, 0) == MonthStart(12 * year + month)
  {
  }

  lemma MonthOfMidnight(t: int, index: int)
    requires t == MonthStart(index)
    ensures MonthOf(t) == index
  {
    MonthOfStart(t, index);
  }

  /** getFullYear and getMonth undo the constructor for the first of a month, except in the years 0 to 99. */
  lemma MonthOfFirst(year: int, month: int)
    requires !(0 <= year <= 99)
    ensures MonthOf(NewDate(year, month, 1, 0)) == 12 * year + month
  {
    FirstDate(year, month);
    MonthOfMidnight(NewDate(year, month, 1, 0), 12 * year + month);
  }

  /** At midnight of the first, setMonth moves to the first of another month. */
  lemma SetMonthOfStart(t: int, index: int, month: int)
    requires t == MonthStart(index)
    ensures SetMonth(t, month) == MonthStart(12 * (index / 12) + month)
  {
    MonthOfStart(t, index);
  }
}
