/** rulesMatch: policy rules are compared by the texts of their sorted lists. */
module PolicyRules {
  import opened Text
  import opened Options
  import opened JsonNumbers
  import opened JsonText
  import opened Pigeonhole

  /** In the order of localeCompare on the enum names. */
  datatype Destination = CarryForward | Fund | OffsetExpenses

  datatype Rule = Rule(destination: Destination, fundId: Option<Text>, basisPoints: int)

  function Rank(d: Destination): int {
    match d
    case CarryForward => 0
    case Fund => 1
    case OffsetExpenses => 2
  }

  /** The comparator of the sort is not positive; it does not look at the fund. */
  predicate NotAfter(a: Rule, b: Rule) {
    if a.destination == b.destination then a.basisPoints <= b.basisPoints else Rank(a.destination) < Rank(b.destination)
  }

  predicate SameKey(a: Rule, b: Rule) {
    a.destination == b.destination && a.basisPoints == b.basisPoints
  }

  function Insert(r: Rule, sorted: seq<Rule>): (s: seq<Rule>)
    ensures |s| == |sorted| + 1 && multiset(s) == multiset(sorted) + multiset{r}
  {
    if sorted == [] || NotAfter(r, sorted[0]) then [r] + sorted else
      assert sorted == [sorted[0]] + sorted[1..];
      [sorted[0]] + Insert(r, sorted[1..])
  }

  /** Array.prototype.sort, which is stable. */
  function Sort(rules: seq<Rule>): (s: seq<Rule>)
    ensures |s| == |rules| && multiset(s) == multiset(rules)
  {
    if rules == [] then [] else
      assert rules == [rules[0]] + rules[1..];
      Insert(rules[0], Sort(rules[1..]))
  }

  function DestinationName(d: Destination): Text {
    match d
    case CarryForward => Ascii("CARRY_FORWARD")
    case Fund => Ascii("FUND")
    case OffsetExpenses => Ascii("OFFSET_EXPENSES")
  }

  const DESTINATION_TYPE := Ascii("destinationType")
  const FUND_ID := Ascii("fundId")
  const BASIS_POINTS := Ascii("percentageBasisPoints")

  function RuleJson(r: Rule): Json {
    Obj([
      Member(DESTINATION_TYPE, Str(DestinationName(r.destination))),
      Member(FUND_ID, if r.fundId.None? then Null else Str(r.fundId.value)),
      Member(BASIS_POINTS, Num(IntNumber(r.basisPoints)))])
  }

  function RulesJson(rules: seq<Rule>): Json {
    Arr(seq(|rules|, i requires 0 <= i < |rules| => RuleJson(rules[i])))
  }

  predicate RulesMatch(actual: seq<Rule>, expected: seq<Rule>) {
    |actual| == |expected| && Stringify(RulesJson(Sort(actual))) == Stringify(RulesJson(Sort(expected)))
  }

  // ---- The text tells the list ----

  lemma RuleJsonInjective(a: Rule, b: Rule)
    requires RuleJson(a) == RuleJson(b)
    ensures a == b
  {
    assert RuleJson(a).members[0] == RuleJson(b).members[0];
    assert |DestinationName(a.destination)| == |DestinationName(b.destination)|;
    assert RuleJson(a).members[1] == RuleJson(b).members[1];
    assert RuleJson(a).members[2] == RuleJson(b).members[2];
    IntNumberInjective(a.basisPoints, b.basisPoints);
  }

  lemma RulesTextInjective(a: seq<Rule>, b: seq<Rule>)
    ensures Stringify(RulesJson(a)) == Stringify(RulesJson(b)) ==> a == b
  {
    if Stringify(RulesJson(a)) == Stringify(RulesJson(b)) {
      forall r: Rule ensures WellFormed(RuleJson(r)) {
        assert |DESTINATION_TYPE| == 15 && |FUND_ID| == 6 && |BASIS_POINTS| == 21;
      }
      StringifyInjective(RulesJson(a), RulesJson(b));
      assert |RulesJson(a).items| == |RulesJson(b).items|;
      forall i | 0 <= i < |a| ensures a[i] == b[i] {
        assert RulesJson(a).items[i] == RulesJson(b).items[i];
        RuleJsonInjective(a[i], b[i]);
      }
    }
  }

  /** A match means the same rules, each as often. */
  lemma MatchIsPermutation(actual: seq<Rule>, expected: seq<Rule>)
    requires RulesMatch(actual, expected)
    ensures multiset(actual) == multiset(expected)
  {
    RulesTextInjective(Sort(actual), Sort(expected));
  }

  // ---- When every permutation matches ----

  predicate Sorted(s: seq<Rule>) {
    forall i, j :: 0 <= i < j < |s| ==> NotAfter(s[i], s[j])
  }

  /** Rules that the comparator ties are the same rule. */
  predicate KeysDetermine(rules: seq<Rule>) {
    forall i, j :: 0 <= i < |rules| && 0 <= j < |rules| && SameKey(rules[i], rules[j]) ==> rules[i] == rules[j]
  }

  lemma {:induction false} InsertSorted(r: Rule, sorted: seq<Rule>)
    requires Sorted(sorted)
    ensures Sorted(Insert(r, sorted))
  {
    if sorted == [] || NotAfter(r, sorted[0]) {
    } else {
      var rest := Insert(r, sorted[1..]);
      InsertSorted(r, sorted[1..]);
      forall j | 0 <= j < |rest| ensures NotAfter(sorted[0], rest[j]) {
        assert rest[j] in multiset(rest);
        assert rest[j] == r || rest[j] in sorted[1..];
      }
    }
  }

  lemma {:induction false} SortSorts(rules: seq<Rule>)
    ensures Sorted(Sort(rules)) && multiset(Sort(rules)) == multiset(rules)
  {
    if rules == [] {
    } else {
      SortSorts(rules[1..]);
      InsertSorted(rules[0], Sort(rules[1..]));
    }
  }

  lemma SortedHeads(a: seq<Rule>, b: seq<Rule>)
    requires Sorted(a) && Sorted(b) && KeysDetermine(b) && a != [] && multiset(a) == multiset(b)
    ensures b != [] && a[0] == b[0]
  {
    assert a[0] in multiset(b);
    assert b[0] in multiset(a);
  }

  lemma {:induction false} SortedUnique(a: seq<Rule>, b: seq<Rule>)
    requires Sorted(a) && Sorted(b) && KeysDetermine(b) && multiset(a) == multiset(b)
    ensures a == b
  {
    if a == [] {
      assert |multiset(b)| == 0;
    } else {
      SortedHeads(a, b);
      RemoveAt(a, 0);
      RemoveAt(b, 0);
      assert Without(a, 0) == a[1..] && Without(b, 0) == b[1..];
      Cancel(multiset(a[1..]), multiset(b[1..]), a[0]);
      SortedUnique(a[1..], b[1..]);
    }
  }

  /** The rules tied with k, in list order. */
  function Tied(rules: seq<Rule>, k: Rule): seq<Rule> {
    if rules == [] then []
    else if SameKey(rules[0], k) then [rules[0]] + Tied(rules[1..], k)
    else Tied(rules[1..], k)
  }

  lemma {:induction false} InsertTied(r: Rule, sorted: seq<Rule>, k: Rule)
    ensures Tied(Insert(r, sorted), k) == if SameKey(r, k) then [r] + Tied(sorted, k) else Tied(sorted, k)
  {
    if sorted == [] || NotAfter(r, sorted[0]) {
      assert ([r] + sorted)[1..] == sorted;
    } else {
      InsertTied(r, sorted[1..], k);
      assert Insert(r, sorted)[1..] == Insert(r, sorted[1..]);
    }
  }

  /** Sorting keeps the order of tied rules. */
  lemma {:induction false} SortIsStable(rules: seq<Rule>, k: Rule)
    ensures Tied(Sort(rules), k) == Tied(rules, k)
  {
    if rules == [] {
    } else {
      SortIsStable(rules[1..], k);
      InsertTied(rules[0], Sort(rules[1..]), k);
    }
  }

  /** Two tied but different rules can be put in an order that does not match. */
  lemma TieBreaksMatch(expected: seq<Rule>, i: nat, j: nat) returns (actual: seq<Rule>)
    requires i < |expected| && j < |expected| && SameKey(expected[i], expected[j]) && expected[i] != expected[j]
    ensures multiset(actual) == multiset(expected) && !RulesMatch(actual, expected)
  {
    var k := expected[i];
    var m := if Tied(expected, k) != [] && Tied(expected, k)[0] == expected[i] then j else i;
    actual := [expected[m]] + Without(expected, m);
    RemoveAt(expected, m);
    assert actual[1..] == Without(expected, m);
    assert Tied(actual, k)[0] == expected[m];
    SortIsStable(expected, k);
    SortIsStable(actual, k);
    RulesTextInjective(Sort(actual), Sort(expected));
  }

  /** Every permutation of the expected rules matches exactly when no two different rules tie. */
  lemma PermutationsMatchIff(expected: seq<Rule>)
    ensures KeysDetermine(expected) <==>
            forall actual :: multiset(actual) == multiset(expected) ==> RulesMatch(actual, expected)
  {
    if KeysDetermine(expected) {
      forall actual | multiset(actual) == multiset(expected) ensures RulesMatch(actual, expected) {
        SortSorts(actual);
        SortSorts(expected);
        KeysDetermineSorted(expected);
        SortedUnique(Sort(actual), Sort(expected));
        assert |multiset(actual)| == |multiset(expected)|;
      }
    } else {
      var i, j :| 0 <= i < |expected| && 0 <= j < |expected| && SameKey(expected[i], expected[j])
                  && expected[i] != expected[j];
      var actual := TieBreaksMatch(expected, i, j);
    }
  }

  lemma {:induction false} KeysDetermineSorted(rules: seq<Rule>)
    requires KeysDetermine(rules)
    ensures KeysDetermine(Sort(rules))
  {
    var s := Sort(rules);
    forall i | 0 <= i < |s| ensures s[i] in rules {
      assert s[i] in multiset(s);
    }
  }

  /** POLICY_RULES_SPEC for the two funds. */
  function PolicyRulesSpec(reserveFundId: Text, specialFundId: Text): seq<Rule> {
    [Rule(OffsetExpenses, None, 6000), Rule(Fund, Some(reserveFundId), 2500), Rule(Fund, Some(specialFundId), 1500)]
  }

  /** The expected rules share out the whole, and their funds get less than the expenses. */
  lemma SpecAddsUp(reserveFundId: Text, specialFundId: Text)
    ensures var points := Map((r: Rule) => r.basisPoints, PolicyRulesSpec(reserveFundId, specialFundId));
            Sum(points) == 10000 && points[0] > points[1] + points[2] && points[1] > points[2]
  {
    var points := Map((r: Rule) => r.basisPoints, PolicyRulesSpec(reserveFundId, specialFundId));
    assert points == [6000, 2500, 1500];
    assert points[1..] == [2500, 1500] && points[1..][1..] == [1500];
    assert Sum([1500]) == 1500 && Sum([2500, 1500]) == 4000;
  }

  lemma SpecKeysDetermine(reserveFundId: Text, specialFundId: Text)
    ensures KeysDetermine(PolicyRulesSpec(reserveFundId, specialFundId))
  {
  }

  /** On the rules the fixture expects, rulesMatch decides equality as multisets, whatever the funds. */
  lemma SpecMatchesIffPermutation(reserveFundId: Text, specialFundId: Text, actual: seq<Rule>)
    ensures RulesMatch(actual, PolicyRulesSpec(reserveFundId, specialFundId))
       <==> multiset(actual) == multiset(PolicyRulesSpec(reserveFundId, specialFundId))
  {
    var expected := PolicyRulesSpec(reserveFundId, specialFundId);
    SpecKeysDetermine(reserveFundId, specialFundId);
    PermutationsMatchIff(expected);
    if RulesMatch(actual, expected) {
      MatchIsPermutation(actual, expected);
    }
  }
}
