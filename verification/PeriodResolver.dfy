/** PeriodResolverService and the gate before it. */
module PeriodResolver {
  import opened Options
  import opened Calendar
  import opened PeriodKeys
  import opened Spans

  datatype Mode = IncludingCurrent | ClosedMonths | UnknownMode

  datatype Kind =
    | CurrentMonth | PreviousMonthOf | NamedMonth | RelativeRange | MonthRange | YearToDate | Accumulated | UnknownKind

  datatype Period = Period(
    kind: Kind, amount: Option<int>, hasUnit: bool, mode: Option<Mode>,
    month: Option<nat>, year: Option<nat>,
    startMonth: Option<nat>, startYear: Option<nat>, endMonth: Option<nat>, endYear: Option<nat>)

  datatype ResolvedKind = SinglePeriod | PeriodRange | AccumulatedPeriods | UnknownPeriods

  datatype Resolved = Resolved(
    kind: ResolvedKind, periods: seq<Key>, startPeriod: Option<Key>, endPeriod: Option<Key>,
    startDate: Option<int>, endDate: Option<int>)

  const UNKNOWN := Resolved(UnknownPeriods, [], None, None, None, None)

  predicate HoldsNothing(r: Resolved) {
    r.periods == [] && r.startPeriod.None? && r.endPeriod.None? && r.startDate.None? && r.endDate.None?
  }

  // ---- The gate ----

  /** parseRangeAmount, after Number and the number words: truncate towards zero, clamp to 1..12; None is NaN. */
  function ClampAmount(value: Option<real>): (r: Option<int>)
    ensures r.Some? <==> value.Some?
    ensures value.Some? && value.value < 1.0 ==> r == Some(1)
    ensures value.Some? && 1.0 <= value.value < 13.0 ==> r.value as real <= value.value < r.value as real + 1.0
    ensures value.Some? && 13.0 <= value.value ==> r == Some(12)
  {
    match value
    case None => None
    case Some(v) =>
      var whole := if v >= 0.0 then v.Floor else -(-v).Floor;
      Some(if whole < 1 then 1 else if whole > 12 then 12 else whole)
  }

  predicate IsFilledMonth(month: Option<nat>) {
    month.Some? && 1 <= month.value <= 12
  }

  predicate IsFilledYear(year: Option<nat>) {
    year.Some? && year.value >= 1900
  }

  /** What the semantic validator lets through. */
  predicate Accepts(p: Period) {
    match p.kind
    case UnknownKind => false
    case RelativeRange => p.mode == Some(IncludingCurrent) || p.mode == Some(ClosedMonths)
    case MonthRange =>
      IsFilledMonth(p.startMonth) && IsFilledYear(p.startYear) && IsFilledMonth(p.endMonth) && IsFilledYear(p.endYear)
    case _ => true
  }

  // ---- The resolver ----

  /** The keys of the months from one index to another. */
  function Keys(first: nat, last: int): (keys: seq<Key>)
    ensures |keys| == if last < first then 0 else last - first + 1
    ensures forall k :: 0 <= k < |keys| ==> keys[k] == KeyOf(first + k)
  {
    if last < first then [] else seq(last - first + 1, k requires 0 <= k => KeyOf(first + k))
  }

  method BuildPeriodsFromIndexes(startIndex: nat, endIndex: int) returns (periods: seq<Key>)
    ensures periods == Keys(startIndex, endIndex)
  {
    periods := [];
    if endIndex < startIndex {
      return;
    }
    var index := startIndex;
    while index <= endIndex
      invariant startIndex <= index <= endIndex + 1
      invariant periods == Keys(startIndex, index - 1)
    {
      periods := periods + [KeyOf(index)];
      index := index + 1;
    }
  }

  function SpansOf(periods: seq<Key>): (spans: seq<Span>)
    ensures |spans| == |periods| && forall k :: 0 <= k < |spans| ==> spans[k] == SpanOf(periods[k])
  {
    seq(|periods|, k requires 0 <= k < |periods| => SpanOf(periods[k]))
  }

  /** The windows of the periods follow each other without gap or overlap, from startDate to endDate. */
  predicate Tiles(r: Resolved) {
    && r.startPeriod == FirstOf(r.periods) && r.endPeriod == LastOf(r.periods)
    && r.startDate.Some? && r.endDate.Some?
    && Tile(SpansOf(r.periods), r.startDate.value, r.endDate.value)
  }

  function FirstOf(periods: seq<Key>): Option<Key> {
    if periods == [] then None else Some(periods[0])
  }

  function LastOf(periods: seq<Key>): Option<Key> {
    if periods == [] then None else Some(periods[|periods| - 1])
  }

  /** Every time from startDate to endDate lies in the window of exactly one period, and no other time in any. */
  lemma WindowsPartition(r: Resolved, t: int)
    requires Tiles(r)
    ensures r.startDate.value <= t <= r.endDate.value <==>
            exists i :: 0 <= i < |r.periods| && SpanOf(r.periods[i]).Holds(t)
    ensures forall i, j :: 0 <= i < j < |r.periods| && SpanOf(r.periods[i]).Holds(t) ==> !SpanOf(r.periods[j]).Holds(t)
  {
    var spans := SpansOf(r.periods);
    Partition(spans, r.startDate.value, r.endDate.value, t);
    forall i | 0 <= i < |spans| ensures spans[i] == SpanOf(r.periods[i]) {
    }
  }

  lemma SpanOfKeyAt(first: nat, last: int, k: nat)
    requires 1200 <= first <= last && k < last - first + 1
    ensures SpanOf(Keys(first, last)[k]) == Between(MonthStart, first, last - first + 1)[k]
  {
    WindowOf(first + k);
  }

  lemma SpansOfKeys(first: nat, last: int)
    requires 1200 <= first <= last
    ensures SpansOf(Keys(first, last)) == Between(MonthStart, first, last - first + 1)
  {
    var spans := Between(MonthStart, first, last - first + 1);
    forall k: nat | k < |spans| ensures SpanOf(Keys(first, last)[k]) == spans[k] {
      SpanOfKeyAt(first, last, k);
    }
  }

  lemma TilesBetween(mark: int -> int, periods: seq<Key>, first: int, last: int)
    requires first <= last && SpansOf(periods) == Between(mark, first, last - first + 1) && forall k :: Rises(mark, k)
    ensures Tile(SpansOf(periods), mark(first), mark(last + 1) - 1)
  {
    BetweenTiles(mark, first, last - first + 1);
    assert first + (last - first + 1) == last + 1;
  }

  /** Consecutive months tile the time from the start of the first to the end of the last. */
  lemma KeysTile(first: nat, last: int)
    requires 1200 <= first <= last
    ensures Tile(SpansOf(Keys(first, last)), MonthStart(first), MonthStart(last + 1) - 1)
  {
    SpansOfKeys(first, last);
    MonthStartRises();
    TilesBetween(MonthStart, Keys(first, last), first, last);
  }

  /** The months from one index to another, with the keys and the instants where they start and end. */
  predicate Covers(r: Resolved, first: nat, last: nat) {
    && first <= last && r.periods == Keys(first, last)
    && r.startPeriod == Some(KeyOf(first)) && r.endPeriod == Some(KeyOf(last))
    && r.startDate == Some(MonthStart(first)) && r.endDate == Some(MonthStart(last + 1) - 1)
  }

  /** Their windows then follow each other without gap or overlap. */
  lemma CoversTiles(r: Resolved, first: nat, last: nat)
    requires 1200 <= first && Covers(r, first, last)
    ensures Tiles(r)
  {
    KeysTile(first, last);
  }

  function SingleMonth(key: Key): Resolved {
    Resolved(SinglePeriod, [key], Some(key), Some(key), Some(MonthStartDate(key)), Some(MonthEndDate(key)))
  }

  lemma RangeCovers(r: Resolved, first: nat, last: nat)
    requires first <= last && r.periods == Keys(first, last)
    requires r.startPeriod == FirstOf(r.periods) && r.endPeriod == LastOf(r.periods)
    requires r.startDate == Some(MonthStart(first)) && r.endDate == Some(MonthStart(last + 1) - 1)
    ensures Covers(r, first, last)
  {
  }

  lemma OneKey(index: nat)
    ensures Keys(index, index) == [KeyOf(index)]
  {
  }

  lemma SingleMonthCovers(index: nat)
    requires 1200 <= index
    ensures Covers(SingleMonth(KeyOf(index)), index, index)
  {
    WindowOf(index);
    OneKey(index);
    RangeCovers(SingleMonth(KeyOf(index)), index, index);
  }

  /** The result of a range, with dates computed from the given years and months rather than from the keys. */
  function RangeResult(periods: seq<Key>, startYear: int, startMonth: int, endYear: int, endMonth: int): Resolved {
    Resolved(PeriodRange, periods, FirstOf(periods), LastOf(periods),
             Some(NewDate(startYear, startMonth - 1, 1, 0)), Some(NewDate(endYear, endMonth, 0, LAST_MS)))
  }

  lemma RangeResultDates(year: int, month: int, year': int, month': int)
    requires 100 <= year && 100 <= year' && 1 <= month <= 12 && 1 <= month' <= 12
    ensures NewDate(year, month - 1, 1, 0) == MonthStart(ToMonthIndex(year, month))
    ensures NewDate(year', month', 0, LAST_MS) == MonthStart(ToMonthIndex(year', month') + 1) - 1
  {
    FirstDate(year, month - 1);
    EndDate(year', month');
    assert 12 * year + (month - 1) == ToMonthIndex(year, month);
    assert 12 * year' + month' == ToMonthIndex(year', month') + 1;
  }

  lemma RangeResultCovers(year: int, month: int, year': int, month': int)
    requires 100 <= year && 100 <= year' && 1 <= month <= 12 && 1 <= month' <= 12
    requires ToMonthIndex(year, month) <= ToMonthIndex(year', month')
    ensures var first, last := ToMonthIndex(year, month), ToMonthIndex(year', month');
            Covers(RangeResult(Keys(first, last), year, month, year', month'), first, last)
  {
    RangeResultDates(year, month, year', month');
    var first, last := ToMonthIndex(year, month), ToMonthIndex(year', month');
    RangeCovers(RangeResult(Keys(first, last), year, month, year', month'), first, last);
  }

  /** It holds no period, and ends before it starts. */
  predicate IsReversed(r: Resolved, first: nat, last: nat) {
    && last < first && r.periods == [] && r.startPeriod.None? && r.endPeriod.None?
    && r.startDate == Some(MonthStart(first)) && r.endDate == Some(MonthStart(last + 1) - 1)
    && r.endDate.value < r.startDate.value
  }

  lemma ReversedRange(year: int, month: int, year': int, month': int)
    requires 100 <= year && 100 <= year' && 1 <= month <= 12 && 1 <= month' <= 12
    requires ToMonthIndex(year', month') < ToMonthIndex(year, month)
    ensures var first, last := ToMonthIndex(year, month), ToMonthIndex(year', month');
            IsReversed(RangeResult(Keys(first, last), year, month, year', month'), first, last)
  {
    RangeResultDates(year, month, year', month');
    MonthDayIncreases(ToMonthIndex(year', month') + 1, ToMonthIndex(year, month));
  }

  /** The months a relative range ends with. */
  function LastRelative(p: Period, referenceDate: int): int {
    if p.mode == Some(IncludingCurrent) then MonthOf(referenceDate) else MonthOf(referenceDate) - 1
  }

  method CurrentMonthIndex(referenceDate: int) returns (index: int)
    ensures index == MonthOf(referenceDate)
  {
    index := ToMonthIndex(FullYear(referenceDate), Month(referenceDate) + 1);
  }

  /** An amount of whole months, ending with the current month or the one before; keys hold no negative year. */
  method ResolveRelativeRange(p: Period, referenceDate: int) returns (r: Resolved)
    requires p.amount.Some? ==> 0 <= LastRelative(p, referenceDate) - p.amount.value + 1
    ensures p.amount.None? || p.amount.value < 1 || !p.hasUnit ==> r.kind.UnknownPeriods? && HoldsNothing(r)
    ensures p.amount.Some? && p.amount.value >= 1 && p.hasUnit ==> (
              && r.kind.PeriodRange? && |r.periods| == p.amount.value
              && var last := MonthOf(referenceDate) - (if p.mode == Some(IncludingCurrent) then 0 else 1);
                 && r.periods == Keys(last - p.amount.value + 1, last)
                 && (1200 <= last - p.amount.value + 1 ==> Covers(r, last - p.amount.value + 1, last)))
  {
    if p.amount.None? || p.amount.value < 1 || !p.hasUnit {
      return UNKNOWN;
    }
    var current := CurrentMonthIndex(referenceDate);
    var endIndex := if p.mode == Some(IncludingCurrent) then current else current - 1;
    var startIndex := endIndex - p.amount.value + 1;
    var periods := BuildPeriodsFromIndexes(startIndex, endIndex);
    r := RelativeResult(periods);
    if 1200 <= startIndex {
      RelativeCovers(startIndex, endIndex);
    }
  }

  /** The result of a relative range, with dates computed from its first and last key. */
  function RelativeResult(periods: seq<Key>): Resolved
    requires periods != []
  {
    Resolved(PeriodRange, periods, FirstOf(periods), LastOf(periods),
             Some(MonthStartDate(periods[0])), Some(MonthEndDate(periods[|periods| - 1])))
  }

  lemma EndWindows(first: nat, last: nat) returns (start: int, end: int)
    requires 1200 <= first <= last
    ensures start == MonthStart(first) && end == MonthStart(last + 1) - 1
    ensures MonthStartDate(Keys(first, last)[0]) == start && MonthEndDate(Keys(first, last)[last - first]) == end
  {
    WindowOf(first);
    WindowOf(last);
    start, end := MonthStart(first), MonthStart(last + 1) - 1;
  }

  lemma RelativeIs(periods: seq<Key>, start: int, end: int)
    requires periods != []
    requires MonthStartDate(periods[0]) == start && MonthEndDate(periods[|periods| - 1]) == end
    ensures RelativeResult(periods)
         == Resolved(PeriodRange, periods, FirstOf(periods), LastOf(periods), Some(start), Some(end))
  {
  }

  lemma RelativeCovers(first: nat, last: nat)
    requires 1200 <= first <= last
    ensures Covers(RelativeResult(Keys(first, last)), first, last)
  {
    var start, end := EndWindows(first, last);
    RelativeIs(Keys(first, last), start, end);
    RangeCovers(RelativeResult(Keys(first, last)), first, last);
  }

  /** The last of them is what currentMonth or previousMonth would answer. */
  lemma LastKey(p: Period, referenceDate: int)
    requires 1200 <= LastRelative(p, referenceDate)
    ensures KeyOf(LastRelative(p, referenceDate)) ==
            if p.mode == Some(IncludingCurrent) then KeyOfTime(referenceDate) else PreviousMonth(referenceDate)
  {
    KeyOfMonth(referenceDate, MonthOf(referenceDate));
    PreviousIsIndexStep(referenceDate);
  }

  /** Present and not zero. */
  predicate Given(n: Option<nat>) {
    n.Some? && n.value > 0
  }

  /** A year and month from year 100 on. */
  predicate Modern(year: Option<nat>, month: Option<nat>) {
    year.Some? && month.Some? && 100 <= year.value && 1 <= month.value <= 12
  }

  /** What the validator accepts is a pair of modern months; it does not compare them. */
  lemma AcceptedIsModern(p: Period)
    requires p.kind.MonthRange?
    ensures Accepts(p) <==> (
              && p.startMonth.Some? && 1 <= p.startMonth.value <= 12 && p.startYear.Some? && 1900 <= p.startYear.value
              && p.endMonth.Some? && 1 <= p.endMonth.value <= 12 && p.endYear.Some? && 1900 <= p.endYear.value)
    ensures Accepts(p) ==> Modern(p.startYear, p.startMonth) && Modern(p.endYear, p.endMonth)
    ensures Accepts(p) <==>
            Accepts(p.(startMonth := p.endMonth, startYear := p.endYear,
                       endMonth := p.startMonth, endYear := p.startYear))
  {
  }

  /** Exactly the months from start to end; none, and no error, exactly when the range is reversed. */
  method ResolveExplicitRange(p: Period) returns (r: Resolved)
    ensures r.kind.PeriodRange? <==>
              && p.startYear.GetOr(0) != 0 && p.startMonth.GetOr(0) != 0
              && p.endYear.GetOr(0) != 0 && p.endMonth.GetOr(0) != 0
    ensures !r.kind.PeriodRange? ==> r.kind.UnknownPeriods? && HoldsNothing(r)
    ensures Modern(p.startYear, p.startMonth) && Modern(p.endYear, p.endMonth) ==>
              var first := ToMonthIndex(p.startYear.value, p.startMonth.value);
              var last := ToMonthIndex(p.endYear.value, p.endMonth.value);
              ExplicitResult(r, first, last)
  {
    if !Given(p.startYear) || !Given(p.startMonth) || !Given(p.endYear) || !Given(p.endMonth) {
      return UNKNOWN;
    }
    var startYear, startMonth := p.startYear.value, p.startMonth.value;
    var endYear, endMonth := p.endYear.value, p.endMonth.value;
    var first, last := ToMonthIndex(startYear, startMonth), ToMonthIndex(endYear, endMonth);
    var periods := BuildPeriodsFromIndexes(first, last);
    r := RangeResult(periods, startYear, startMonth, endYear, endMonth);
    if Modern(p.startYear, p.startMonth) && Modern(p.endYear, p.endMonth) {
      if last < first {
        ReversedRange(startYear, startMonth, endYear, endMonth);
      } else {
        RangeResultCovers(startYear, startMonth, endYear, endMonth);
      }
    }
  }

  predicate ExplicitResult(r: Resolved, first: nat, last: nat) {
    r.kind.PeriodRange? && (Covers(r, first, last) || IsReversed(r, first, last))
  }

  method ResolveSingleMonth(key: Key) returns (r: Resolved)
    ensures r.kind.SinglePeriod? && r.periods == [key]
    ensures 100 <= key.year && 1 <= key.month <= 12 ==>
              Covers(r, ToMonthIndex(key.year, key.month), ToMonthIndex(key.year, key.month))
  {
    r := SingleMonth(key);
    if 100 <= key.year && 1 <= key.month <= 12 {
      KeyOfItsIndex(key);
      SingleMonthCovers(ToMonthIndex(key.year, key.month));
    }
  }

  lemma KeyOfItsIndex(key: Key)
    requires 1 <= key.month <= 12
    ensures KeyOf(ToMonthIndex(key.year, key.month)) == key
  {
    IndexRoundTrip(ToMonthIndex(key.year, key.month), key);
  }

  method ResolveNamedMonth(year: Option<nat>, month: Option<nat>) returns (r: Resolved)
    ensures r.kind.SinglePeriod? <==> year.GetOr(0) != 0 && month.GetOr(0) != 0
    ensures !r.kind.SinglePeriod? ==> r.kind.UnknownPeriods? && HoldsNothing(r)
    ensures Modern(year, month) ==> Covers(r, 12 * year.value + month.value - 1, 12 * year.value + month.value - 1)
    ensures Modern(year, month) ==> r.periods == [Key(year.value, month.value)]
  {
    if !Given(year) || !Given(month) {
      return UNKNOWN;
    }
    r := ResolveSingleMonth(Key(year.value, month.value));
  }

  /** January to the current month of the current year. */
  method ResolveYearToDate(referenceDate: int) returns (r: Resolved)
    requires 1200 <= MonthOf(referenceDate)
    ensures r.kind.PeriodRange? && Covers(r, 12 * FullYear(referenceDate), MonthOf(referenceDate))
    ensures r.startDate.value <= referenceDate <= r.endDate.value
  {
    var year, month := FullYear(referenceDate), Month(referenceDate) + 1;
    var periods := BuildPeriodsFromIndexes(ToMonthIndex(year, 1), ToMonthIndex(year, month));
    r := RangeResult(periods, year, 1, year, month);
    YearToDateCovers(MonthOf(referenceDate), year, month);
    YearToDateHolds(referenceDate, MonthOf(referenceDate), year, month);
  }

  lemma YearToDateCovers(index: int, year: int, month: int)
    requires 1200 <= index && year == index / 12 && month == index % 12 + 1
    ensures ToMonthIndex(year, 1) == 12 * year && ToMonthIndex(year, month) == index
    ensures Covers(RangeResult(Keys(12 * year, index), year, 1, year, month), 12 * year, index)
  {
    IndexIsWhole(index);
    RangeResultCovers(year, 1, year, month);
  }

  lemma YearToDateHolds(t: int, index: int, year: int, month: int)
    requires 1200 <= index == MonthOf(t) && year == index / 12 && month == index % 12 + 1
    ensures NewDate(year, 0, 1, 0) <= t <= NewDate(year, month, 0, LAST_MS)
  {
    RangeResultDates(year, 1, year, month);
    IndexIsWhole(index);
    WindowIsMonth(index, t);
    StartsRise(ToMonthIndex(year, 1), index);
  }

  lemma StartsRise(i: int, j: int)
    requires i <= j
    ensures MonthStart(i) <= MonthStart(j)
  {
    MonthDayIncreases(i, j);
  }

  /** The months a kind of period stands for, at a reference date; what is left out resolves to no period. */
  method Resolve(p: Period, referenceDate: int) returns (r: Resolved)
    requires 1200 < MonthOf(referenceDate)
    requires p.amount.Some? ==> p.amount.value <= MonthOf(referenceDate)
    ensures p.kind.CurrentMonth? ==>
              r.kind.SinglePeriod? && Covers(r, MonthOf(referenceDate), MonthOf(referenceDate))
    ensures p.kind.PreviousMonthOf? ==>
              r.kind.SinglePeriod? && Covers(r, MonthOf(referenceDate) - 1, MonthOf(referenceDate) - 1)
    ensures p.kind.YearToDate? ==>
              r.kind.PeriodRange? && Covers(r, 12 * FullYear(referenceDate), MonthOf(referenceDate))
    ensures p.kind.NamedMonth? && Modern(p.year, p.month) ==> (
              && r.kind.SinglePeriod? && r.periods == [Key(p.year.value, p.month.value)]
              && Covers(r, 12 * p.year.value + p.month.value - 1, 12 * p.year.value + p.month.value - 1))
    ensures p.kind.RelativeRange? && p.hasUnit && p.amount.Some? && p.amount.value >= 1 ==> (
              && r.kind.PeriodRange?
              && var last := MonthOf(referenceDate) - (if p.mode == Some(IncludingCurrent) then 0 else 1);
                 && r.periods == Keys(last - p.amount.value + 1, last)
                 && (1200 <= last - p.amount.value + 1 ==> Covers(r, last - p.amount.value + 1, last)))
    ensures p.kind.MonthRange? && Modern(p.startYear, p.startMonth) && Modern(p.endYear, p.endMonth) ==>
              ExplicitResult(r, 12 * p.startYear.value + p.startMonth.value - 1,
                             12 * p.endYear.value + p.endMonth.value - 1)
    ensures (|| (p.kind.NamedMonth? && (p.year.GetOr(0) == 0 || p.month.GetOr(0) == 0))
             || (p.kind.RelativeRange? && (p.amount.GetOr(0) < 1 || !p.hasUnit))
             || (p.kind.MonthRange? && (p.startYear.GetOr(0) == 0 || p.startMonth.GetOr(0) == 0
                                        || p.endYear.GetOr(0) == 0 || p.endMonth.GetOr(0) == 0))) ==>
              r.kind.UnknownPeriods? && HoldsNothing(r)
    ensures p.kind.Accumulated? ==> r.kind.AccumulatedPeriods? && HoldsNothing(r)
    ensures p.kind.UnknownKind? ==> r.kind.UnknownPeriods? && HoldsNothing(r)
  {
    match p.kind
    case CurrentMonth =>
      r := SingleMonth(KeyOfTime(referenceDate));
      KeyOfMonth(referenceDate, MonthOf(referenceDate));
      SingleMonthCovers(MonthOf(referenceDate));
    case PreviousMonthOf =>
      r := SingleMonth(PreviousMonth(referenceDate));
      PreviousIsIndexStep(referenceDate);
      SingleMonthCovers(MonthOf(referenceDate) - 1);
    case NamedMonth => r := ResolveNamedMonth(p.year, p.month);
    case YearToDate => r := ResolveYearToDate(referenceDate);
    case RelativeRange => r := ResolveRelativeRange(p, referenceDate);
    case MonthRange => r := ResolveExplicitRange(p);
    case Accumulated => r := UNKNOWN.(kind := AccumulatedPeriods);
    case UnknownKind => r := UNKNOWN;
  }
}
