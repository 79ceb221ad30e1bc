/** The deterministic charges of the historical fixtures. */
module ChargeFixture {
  import opened Options
  import opened Pigeonhole

  // ---- Splitting a total ----

  /** deterministicChargeAmount: equal shares, the remainder on the last. */
  function ChargeAmount(total: int, unitCount: nat, index: nat): int
    requires unitCount > 0
  {
    var base := total / unitCount;
    if index < unitCount - 1 then base else total - base * (unitCount - 1)
  }

  function Shares(total: int, unitCount: nat): (r: seq<int>)
    requires unitCount > 0
  {
    seq(unitCount, i requires 0 <= i < unitCount => ChargeAmount(total, unitCount, i))
  }

  lemma {:induction false} SumConstant(s: seq<int>, c: int)
    requires forall i :: 0 <= i < |s| ==> s[i] == c
    ensures Sum(s) == c * |s|
  {
    if s == [] {
    } else {
      SumConstant(s[1..], c);
    }
  }

  lemma {:induction false} SumAppend(s: seq<int>, x: int)
    ensures Sum(s + [x]) == Sum(s) + x
  {
    if s == [] {
      assert s + [x] == [x];
    } else {
      SumAppend(s[1..], x);
      assert (s + [x])[1..] == s[1..] + [x];
    }
  }

  /** The split conserves the total; the shares before the last are rounded down, and it is ahead by what is left. */
  lemma SplitConserves(total: int, unitCount: nat)
    requires unitCount > 0
    ensures Sum(Shares(total, unitCount)) == total
    ensures forall i :: 0 <= i < unitCount - 1 ==>
              Shares(total, unitCount)[i] * unitCount <= total < (Shares(total, unitCount)[i] + 1) * unitCount
    ensures forall i, j :: 0 <= i < j < unitCount - 1 ==> Shares(total, unitCount)[i] == Shares(total, unitCount)[j]
    ensures forall i :: 0 <= i < unitCount ==>
              0 <= Shares(total, unitCount)[unitCount - 1] - Shares(total, unitCount)[i] < unitCount
  {
    var base := total / unitCount;
    var s := Shares(total, unitCount);
    assert s == s[..unitCount - 1] + [s[unitCount - 1]];
    SumConstant(s[..unitCount - 1], base);
    SumAppend(s[..unitCount - 1], s[unitCount - 1]);
    assert total == base * unitCount + total % unitCount;
    assert base * unitCount == base * (unitCount - 1) + base;
  }

  // ---- Validating existing charges ----

  datatype Charge = Charge(
    tenantId: string, buildingId: string, unitId: string, period: string, amount: int, currency: string,
    liquidationId: string)

  /** What every charge of the liquidation must carry besides its unit and amount. */
  datatype Expected = Expected(
    tenantId: string, buildingId: string, period: string, currency: string, liquidationId: string)

  datatype FixtureError = WrongCount | WrongSum | MissingCharge | FieldMismatch | UnexpectedUnit

  predicate FieldsMatch(c: Charge, e: Expected) {
    && c.tenantId == e.tenantId && c.buildingId == e.buildingId && c.period == e.period
    && c.currency == e.currency && c.liquidationId == e.liquidationId
  }

  /** charges.find((c) => c.unitId === unitId) */
  function FindCharge(charges: seq<Charge>, unitId: string): (r: Option<Charge>)
    ensures r.Some? ==> r.value in charges && r.value.unitId == unitId
    ensures r.None? <==> forall c :: c in charges ==> c.unitId != unitId
  {
    if charges == [] then None
    else if charges[0].unitId == unitId then Some(charges[0])
    else FindCharge(charges[1..], unitId)
  }

  function SumAmounts(charges: seq<Charge>): int {
    Sum(Map((c: Charge) => c.amount, charges))
  }

  /** The charge that the unit at index i should have. */
  function ExpectedCharge(units: seq<string>, total: int, e: Expected, i: nat): Charge
    requires i < |units|
  {
    Charge(e.tenantId, e.buildingId, units[i], e.period, ChargeAmount(total, |units|, i), e.currency, e.liquidationId)
  }

  function ExpectedCharges(units: seq<string>, total: int, e: Expected): seq<Charge> {
    seq(|units|, i requires 0 <= i < |units| => ExpectedCharge(units, total, e, i))
  }

  /** The validation of ensureHistoricalV1V2Liquidations: count, sum, unit by unit, unexpected units. */
  method ValidateCharges(charges: seq<Charge>, units: seq<string>, total: int, e: Expected)
    returns (error: Option<FixtureError>)
    requires units != [] && Distinct(units)
    ensures error.None? <==> multiset(charges) == multiset(ExpectedCharges(units, total, e))
    ensures error != Some(UnexpectedUnit)
  {
    var sum := 0;
    for i := 0 to |charges|
      invariant sum == SumAmounts(charges[..i])
    {
      SumAmountsStep(charges, i);
      sum := sum + charges[i].amount;
    }
    assert charges[..|charges|] == charges;
    if |charges| != |units| {
      assert |multiset(charges)| != |multiset(ExpectedCharges(units, total, e))|;
      return Some(WrongCount);
    }
    if sum != total {
      if multiset(charges) == multiset(ExpectedCharges(units, total, e)) {
        ExpectedSum(charges, units, total, e);
      }
      return Some(WrongSum);
    }
    for i := 0 to |units|
      invariant forall k :: 0 <= k < i ==> ExpectedCharge(units, total, e, k) in charges
    {
      var charge := FindCharge(charges, units[i]);
      OnlyExpectedFound(charges, units, total, e, i);
      if charge.None? {
        return Some(MissingCharge);
      }
      if !FieldsMatch(charge.value, e) || charge.value.amount != ChargeAmount(total, |units|, i) {
        return Some(FieldMismatch);
      }
      assert charge.value == ExpectedCharge(units, total, e, i);
    }
    ChargesAreExpected(charges, units, total, e);
    for i := 0 to |charges|
    {
      assert charges[i] in multiset(charges) && charges[i] in ExpectedCharges(units, total, e);
      if charges[i].unitId !in units {
        return Some(UnexpectedUnit);
      }
    }
    return None;
  }

  lemma SumAmountsStep(charges: seq<Charge>, i: nat)
    requires i < |charges|
    ensures SumAmounts(charges[..i + 1]) == SumAmounts(charges[..i]) + charges[i].amount
  {
    var f := (c: Charge) => c.amount;
    assert Map(f, charges[..i + 1]) == Map(f, charges[..i]) + [charges[i].amount];
    SumAppend(Map(f, charges[..i]), charges[i].amount);
  }

  /** If every unit finds its charge and there are no more charges than units, the charges are the expected ones. */
  lemma ChargesAreExpected(charges: seq<Charge>, units: seq<string>, total: int, e: Expected)
    requires Distinct(units) && |charges| == |units|
    requires forall k :: 0 <= k < |units| ==> ExpectedCharge(units, total, e, k) in charges
    ensures multiset(charges) == multiset(ExpectedCharges(units, total, e))
  {
    DistinctFill(ExpectedCharges(units, total, e), charges);
  }

  /** Their amounts then add up to the total: the sum check follows from the others. */
  lemma ExpectedSum(charges: seq<Charge>, units: seq<string>, total: int, e: Expected)
    requires units != [] && multiset(charges) == multiset(ExpectedCharges(units, total, e))
    ensures SumAmounts(charges) == total
  {
    var f, expected := (c: Charge) => c.amount, ExpectedCharges(units, total, e);
    MapPermuted(f, charges, expected);
    SumPermuted(Map(f, charges), Map(f, expected));
    assert Map(f, expected) == Shares(total, |units|);
    SplitConserves(total, |units|);
  }

  /** Among the expected charges a unit finds no other than its own. */
  lemma {:induction false} OnlyExpectedFound(charges: seq<Charge>, units: seq<string>, total: int, e: Expected, i: nat)
    requires Distinct(units) && i < |units|
    ensures multiset(charges) == multiset(ExpectedCharges(units, total, e)) ==>
              FindCharge(charges, units[i]) == Some(ExpectedCharge(units, total, e, i))
  {
    var expected := ExpectedCharges(units, total, e);
    if multiset(charges) == multiset(expected) {
      assert expected[i] in multiset(charges);
      var c := FindCharge(charges, units[i]);
      assert c.value in multiset(expected);
      var k :| 0 <= k < |expected| && expected[k] == c.value;
      assert k == i;
    }
  }
}
