/** ensureSeedPublishedLiquidation and its validator, over the liquidation and charge tables. */
module SeedWorkflow {
  import opened Options
  import opened LiquidationStatus
  import opened JsonText
  import opened CanonicalJson
  import opened Pigeonhole

  /** An allocation of a publication snapshot, as the validator reads it: either field may be undefined. */
  datatype Allocation = Allocation(unitId: Option<string>, amountMinor: Option<int>)

  /** A publication snapshot, without publishedAt; a field that is absent is None. */
  datatype Snapshot = Snapshot(
    tenantId: Option<string>,
    buildingId: Option<string>,
    period: Option<string>,
    baseCurrency: Option<string>,
    totalAmountMinor: Option<int>,
    totalsByCurrency: Option<Json>,
    expenses: Option<Json>,
    dueDate: Option<string>,
    allocations: Option<seq<Allocation>>)

  datatype Liquidation = Liquidation(
    id: string,
    tenantId: string,
    buildingId: string,
    period: string,
    chargePeriod: Option<string>,
    status: Status,
    baseCurrency: string,
    totalAmountMinor: int,
    totalsByCurrency: Json,
    expenseSnapshot: Json,
    unitCount: nat,
    publicationSnapshot: Option<Snapshot>)

  datatype Charge = Charge(
    tenantId: string,
    buildingId: string,
    unitId: string,
    period: string,
    concept: string,
    amount: int,
    currency: string,
    dueDate: string,
    liquidationId: Option<string>)

  datatype Input = Input(
    tenantId: string,
    buildingId: string,
    period: string,
    chargePeriod: Option<string>,
    baseCurrency: string,
    totalAmountMinor: int,
    totalsByCurrency: Json,
    expenseSnapshot: Json,
    units: seq<string>,
    dueDate: string)

  datatype SeedError =
    | Incompatible | WrongChargeCount | MissingSnapshot | SnapshotMismatch | AllocationsMismatch | ChargeMismatch
    | UniqueViolation | NotFound | Conflict | NotReviewed | PublicationRefused

  datatype SeedResult = SeedResult(id: string, created: bool)

  // ---- The validator ----

  predicate MatchesInput(l: Liquidation, input: Input) {
    && l.baseCurrency == input.baseCurrency
    && l.totalAmountMinor == input.totalAmountMinor
    && l.unitCount == |input.units|
    && l.chargePeriod == input.chargePeriod
    && SameJson(l.totalsByCurrency, input.totalsByCurrency)
    && SameJson(l.expenseSnapshot, input.expenseSnapshot)
  }

  /** sameJson of a value that may be undefined with one that is not. */
  predicate SameDefined(left: Option<Json>, right: Json) {
    left.Some? && SameJson(left.value, right)
  }

  predicate SnapshotMatches(s: Snapshot, input: Input) {
    && s.tenantId == Some(input.tenantId)
    && s.buildingId == Some(input.buildingId)
    && s.period == Some(input.period)
    && s.baseCurrency == Some(input.baseCurrency)
    && s.totalAmountMinor == Some(input.totalAmountMinor)
    && SameDefined(s.totalsByCurrency, input.totalsByCurrency)
    && SameDefined(s.expenses, input.expenseSnapshot)
    && s.dueDate == Some(input.dueDate)
  }

  predicate IsChargeOf(c: Charge, id: string, input: Input) {
    && c.tenantId == input.tenantId && c.liquidationId == Some(id) && c.buildingId == input.buildingId
    && c.period == input.period
  }

  /** The charge query of the validator. */
  function ChargesOf(charges: seq<Charge>, id: string, input: Input): (r: seq<Charge>)
    ensures forall c :: c in r <==> c in charges && IsChargeOf(c, id, input)
  {
    if charges == [] then []
    else if IsChargeOf(charges[0], id, input) then [charges[0]] + ChargesOf(charges[1..], id, input)
    else ChargesOf(charges[1..], id, input)
  }

  /** The query finds each charge of the liquidation, building and period as often as it is there, and no other. */
  lemma {:induction false} ChargesOfCounts(charges: seq<Charge>, id: string, input: Input, c: Charge)
    ensures multiset(ChargesOf(charges, id, input))[c] ==
            if c.tenantId == input.tenantId && c.liquidationId == Some(id) && c.buildingId == input.buildingId
               && c.period == input.period
            then multiset(charges)[c] else 0
  {
    if charges == [] {
    } else {
      var rest := ChargesOf(charges[1..], id, input);
      ChargesOfCounts(charges[1..], id, input, c);
      assert charges == [charges[0]] + charges[1..];
      assert multiset(charges) == multiset{charges[0]} + multiset(charges[1..]);
      assert IsChargeOf(charges[0], id, input) ==>
             multiset(ChargesOf(charges, id, input)) == multiset{charges[0]} + multiset(rest);
    }
  }

  /** expectedByUnit.get(unitId): a Map keeps the last entry of a key. */
  function AmountFor(allocations: seq<Allocation>, unitId: string): (r: Option<int>)
    ensures r.Some? ==> Allocation(Some(unitId), r) in allocations
  {
    if allocations == [] then None else
      var last := allocations[|allocations| - 1];
      if last.unitId == Some(unitId) then last.amountMinor else AmountFor(allocations[..|allocations| - 1], unitId)
  }

  lemma {:induction false} LastAllocationWins(allocations: seq<Allocation>, unitId: string, i: nat)
    requires i < |allocations| && allocations[i].unitId == Some(unitId)
    requires forall j :: i < j < |allocations| ==> allocations[j].unitId != Some(unitId)
    ensures AmountFor(allocations, unitId) == allocations[i].amountMinor
  {
    if i == |allocations| - 1 {
    } else {
      LastAllocationWins(allocations[..|allocations| - 1], unitId, i);
    }
  }

  /** A unit without an allocation is looked up to undefined. */
  lemma {:induction false} NoAllocationNoAmount(allocations: seq<Allocation>, unitId: string)
    requires forall a :: a in allocations ==> a.unitId != Some(unitId)
    ensures AmountFor(allocations, unitId).None?
  {
    if allocations == [] {
    } else {
      NoAllocationNoAmount(allocations[..|allocations| - 1], unitId);
    }
  }

  predicate ChargeMatches(c: Charge, allocations: seq<Allocation>, input: Input) {
    && c.currency == input.baseCurrency
    && c.concept == "Expensas comunes " + input.period
    && c.dueDate == input.dueDate
    && AmountFor(allocations, c.unitId) == Some(c.amount)
  }

  predicate ChargesMatchSnapshot(l: Liquidation, cs: seq<Charge>, input: Input) {
    && |cs| == |input.units|
    && l.publicationSnapshot.Some?
    && SnapshotMatches(l.publicationSnapshot.value, input)
    && l.publicationSnapshot.value.allocations.Some?
    && |l.publicationSnapshot.value.allocations.value| == |cs|
    && forall c :: c in cs ==> ChargeMatches(c, l.publicationSnapshot.value.allocations.value, input)
  }

  /** What validateCompatible accepts. */
  predicate Compatible(l: Liquidation, charges: seq<Charge>, input: Input) {
    && MatchesInput(l, input)
    && (l.status.Published? ==> ChargesMatchSnapshot(l, ChargesOf(charges, l.id, input), input))
  }

  predicate IsSeeded(l: Liquidation, charges: seq<Charge>, input: Input) {
    l.status.Published? && Compatible(l, charges, input)
  }

  /** What the publisher makes sure of before it stores a snapshot. */
  predicate AllocationsSum(s: Snapshot, total: int) {
    s.allocations.Some? && Sum(AllocatedAmounts(s.allocations.value)) == total
  }

  /** So of a published row with allocations, which the database keeps from changing. */
  predicate SnapshotConserves(l: Liquidation) {
    l.status.Published? && l.publicationSnapshot.Some? && l.publicationSnapshot.value.allocations.Some? ==>
      AllocationsSum(l.publicationSnapshot.value, l.totalAmountMinor)
  }

  /** The unique key (tenantId, liquidationId, unitId, period) of charges that belong to a liquidation. */
  predicate ChargeKeysUnique(charges: seq<Charge>) {
    forall i, j :: 0 <= i < j < |charges| && charges[i].liquidationId.Some? ==>
      (charges[i].tenantId, charges[i].liquidationId, charges[i].unitId, charges[i].period)
      != (charges[j].tenantId, charges[j].liquidationId, charges[j].unitId, charges[j].period)
  }

  lemma {:induction false} ChargesOfDistinctUnits(charges: seq<Charge>, id: string, input: Input)
    requires ChargeKeysUnique(charges)
    ensures forall i, j :: 0 <= i < j < |ChargesOf(charges, id, input)| ==>
              ChargesOf(charges, id, input)[i].unitId != ChargesOf(charges, id, input)[j].unitId
  {
    if charges == [] {
    } else {
      var rest := ChargesOf(charges[1..], id, input);
      ChargesOfDistinctUnits(charges[1..], id, input);
      if IsChargeOf(charges[0], id, input) {
        forall j | 0 <= j < |rest| ensures rest[j].unitId != charges[0].unitId {
          assert rest[j] in charges[1..];
        }
      }
    }
  }

  // ---- What an accepted publication says ----

  function AsAllocation(c: Charge): Allocation {
    Allocation(Some(c.unitId), Some(c.amount))
  }

  function ChargedAmounts(cs: seq<Charge>): seq<int> {
    Map((c: Charge) => c.amount, cs)
  }

  function AllocatedAmounts(allocations: seq<Allocation>): seq<int> {
    Map((a: Allocation) => a.amountMinor.GetOr(0), allocations)
  }

  /**
   * As many charges of distinct units as allocations, each with the amount its unit is looked up to, are the
   * allocations.
   */
  lemma {:induction false} LookedUpChargesFill(cs: seq<Charge>, allocations: seq<Allocation>)
    requires forall i, j :: 0 <= i < j < |cs| ==> cs[i].unitId != cs[j].unitId
    requires |allocations| == |cs|
    requires forall c :: c in cs ==> AmountFor(allocations, c.unitId) == Some(c.amount)
    ensures multiset(Map(AsAllocation, cs)) == multiset(allocations)
  {
    var images := Map(AsAllocation, cs);
    forall i | 0 <= i < |images| ensures images[i] in allocations {
      assert cs[i] in cs;
    }
    DistinctFill(images, allocations);
  }

  lemma {:induction false} AllocationFacts(cs: seq<Charge>, allocations: seq<Allocation>)
    requires forall i, j :: 0 <= i < j < |cs| ==> cs[i].unitId != cs[j].unitId
    requires multiset(Map(AsAllocation, cs)) == multiset(allocations)
    ensures Sum(ChargedAmounts(cs)) == Sum(AllocatedAmounts(allocations))
    ensures Distinct(Map((a: Allocation) => a.unitId, allocations))
  {
    var images := Map(AsAllocation, cs);
    MapPermuted((a: Allocation) => a.amountMinor.GetOr(0), images, allocations);
    assert AllocatedAmounts(images) == ChargedAmounts(cs);
    SumPermuted(AllocatedAmounts(images), AllocatedAmounts(allocations));
    MapPermuted((a: Allocation) => a.unitId, images, allocations);
    DistinctPermuted(Map((a: Allocation) => a.unitId, images), Map((a: Allocation) => a.unitId, allocations));
  }

  /**
   * The charges of an accepted published liquidation are its allocations: same units, same
   * amounts, each exactly once, so also the same sum; and no two allocations share a unit.
   */
  lemma {:induction false} AcceptedChargesAreAllocations(l: Liquidation, charges: seq<Charge>, input: Input)
    requires ChargeKeysUnique(charges) && l.status.Published? && Compatible(l, charges, input)
    ensures var cs, allocations := ChargesOf(charges, l.id, input), l.publicationSnapshot.value.allocations.value; (
            && multiset(Map(AsAllocation, cs)) == multiset(allocations)
            && Sum(ChargedAmounts(cs)) == Sum(AllocatedAmounts(allocations))
            && Distinct(Map((a: Allocation) => a.unitId, allocations)))
  {
    var cs, allocations := ChargesOf(charges, l.id, input), l.publicationSnapshot.value.allocations.value;
    ChargesOfDistinctUnits(charges, l.id, input);
    assert forall c :: c in cs ==> ChargeMatches(c, allocations, input);
    LookedUpChargesFill(cs, allocations);
    AllocationFacts(cs, allocations);
  }

  function UnitsOf(cs: seq<Charge>): seq<string> {
    Map((c: Charge) => c.unitId, cs)
  }

  /** The allocations name only some units exactly when the charges do. */
  lemma {:induction false} AllocatedUnitsAreCharged(cs: seq<Charge>, allocations: seq<Allocation>, units: seq<string>)
    requires multiset(Map(AsAllocation, cs)) == multiset(allocations)
    ensures (forall u :: u in UnitsOf(cs) ==> u in units)
       <==> forall a :: a in allocations ==> a.unitId.Some? && a.unitId.value in units
  {
    var images := Map(AsAllocation, cs);
    SameMembers(images, allocations);
    forall i | 0 <= i < |cs| ensures images[i].unitId == Some(UnitsOf(cs)[i]) && images[i] in allocations {
    }
    forall a | a in allocations ensures exists i :: 0 <= i < |cs| && images[i] == a {
      assert a in images;
    }
  }

  /** The charged units are the input's units exactly when no allocation names another unit. */
  lemma {:induction false} AcceptedUnitsAreInputIff(l: Liquidation, charges: seq<Charge>, input: Input)
    requires ChargeKeysUnique(charges) && l.status.Published? && Compatible(l, charges, input)
    requires Distinct(input.units)
    ensures multiset(UnitsOf(ChargesOf(charges, l.id, input))) == multiset(input.units)
       <==> forall a :: a in l.publicationSnapshot.value.allocations.value ==>
              a.unitId.Some? && a.unitId.value in input.units
  {
    var cs := ChargesOf(charges, l.id, input);
    ChargesOfDistinctUnits(charges, l.id, input);
    AcceptedChargesAreAllocations(l, charges, input);
    assert Distinct(UnitsOf(cs));
    DistinctFillIff(UnitsOf(cs), input.units);
    AllocatedUnitsAreCharged(cs, l.publicationSnapshot.value.allocations.value, input.units);
  }

  /** The charged sum of an accepted publication is the total exactly when its allocations add up to the total. */
  lemma {:induction false} AcceptedSumIsTotalIff(l: Liquidation, charges: seq<Charge>, input: Input)
    requires ChargeKeysUnique(charges) && l.status.Published? && Compatible(l, charges, input)
    ensures Sum(ChargedAmounts(ChargesOf(charges, l.id, input))) == input.totalAmountMinor
       <==> Sum(AllocatedAmounts(l.publicationSnapshot.value.allocations.value)) == l.totalAmountMinor
  {
    AcceptedChargesAreAllocations(l, charges, input);
  }

  /**
   * The validator does not compare the charged units with the input's units: an accepted publication may charge
   * another one.
   */
  lemma UnitsNotCompared() returns (l: Liquidation, charges: seq<Charge>, input: Input)
    ensures ChargeKeysUnique(charges) && Distinct(input.units) && l.status.Published? && Compatible(l, charges, input)
    ensures SnapshotConserves(l)
    ensures UnitsOf(ChargesOf(charges, l.id, input)) == ["other"] && input.units == ["u1"]
  {
    input := Input("t", "b", "2026-05", None, "ARS", 100, Obj([]), Arr([]), ["u1"], "2026-06-10");
    var allocations := [Allocation(Some("other"), Some(100))];
    var snapshot := Snapshot(Some("t"), Some("b"), Some("2026-05"), Some("ARS"), Some(100), Some(Obj([])),
                             Some(Arr([])), Some("2026-06-10"), Some(allocations));
    l := Liquidation("l", "t", "b", "2026-05", None, Published, "ARS", 100, Obj([]), Arr([]), 1, Some(snapshot));
    charges := [Charge("t", "b", "other", "2026-05", "Expensas comunes " + "2026-05", 100, "ARS", "2026-06-10",
                       Some("l"))];
    assert ChargesOf(charges, l.id, input) == charges;
    assert AmountFor(allocations, "other") == Some(100);
    assert AllocatedAmounts(allocations) == [100];
  }

  /**
   * What an accepted row shares with the input; if it is published, its snapshot does too, and each of its charges is
   * for the amount that the snapshot allocates to its unit.
   */
  lemma AcceptedShares(l: Liquidation, charges: seq<Charge>, input: Input)
    requires Compatible(l, charges, input)
    ensures l.baseCurrency == input.baseCurrency && l.totalAmountMinor == input.totalAmountMinor
    ensures l.unitCount == |input.units| && l.chargePeriod == input.chargePeriod
    ensures SameJson(l.totalsByCurrency, input.totalsByCurrency) && SameJson(l.expenseSnapshot, input.expenseSnapshot)
    ensures l.status.Published? ==> (
              && l.publicationSnapshot.Some?
              && var s := l.publicationSnapshot.value;
                 && s.tenantId == Some(input.tenantId) && s.buildingId == Some(input.buildingId)
                 && s.period == Some(input.period) && s.baseCurrency == Some(input.baseCurrency)
                 && s.totalAmountMinor == Some(input.totalAmountMinor) && s.dueDate == Some(input.dueDate)
                 && s.totalsByCurrency.Some? && SameJson(s.totalsByCurrency.value, input.totalsByCurrency)
                 && s.expenses.Some? && SameJson(s.expenses.value, input.expenseSnapshot)
                 && s.allocations.Some? && |s.allocations.value| == |input.units|)
    ensures l.status.Published? ==>
              forall c | (&& c in charges && c.tenantId == input.tenantId && c.buildingId == input.buildingId
                          && c.period == input.period && c.liquidationId == Some(l.id)) ::
                && c.currency == input.baseCurrency && c.dueDate == input.dueDate
                && c.concept == "Expensas comunes " + input.period
                && Allocation(Some(c.unitId), Some(c.amount)) in l.publicationSnapshot.value.allocations.value
  {
    if l.status.Published? {
      forall c | c in charges && IsChargeOf(c, l.id, input)
        ensures ChargeMatches(c, l.publicationSnapshot.value.allocations.value, input)
      {
        assert c in ChargesOf(charges, l.id, input);
      }
    }
  }

  // ---- The workflow ----

  /** The row that findActive looks for. */
  predicate IsActive(l: Liquidation, input: Input) {
    l.tenantId == input.tenantId && l.buildingId == input.buildingId && l.period == input.period && !l.status.Canceled?
  }

  /** What the unique index over rows that are not canceled forbids of two rows. */
  predicate SameActiveKey(a: Liquidation, b: Liquidation) {
    && !a.status.Canceled? && !b.status.Canceled?
    && (a.tenantId, a.buildingId, a.period) == (b.tenantId, b.buildingId, b.period)
  }

  type Rows = map<string, Liquidation>

  /** Rows sit under their ids; at most one row of a tenant, building and period is not canceled. */
  ghost predicate KeysHold(rows: Rows) {
    && (forall id :: id in rows ==> rows[id].id == id)
    && (forall i, j :: i in rows && j in rows && i != j ==> !SameActiveKey(rows[i], rows[j]))
  }

  ghost predicate Conserving(rows: Rows) {
    forall id :: id in rows ==> SnapshotConserves(rows[id])
  }

  ghost predicate ActiveIn(rows: Rows, input: Input, id: string) {
    id in rows && IsActive(rows[id], input)
  }

  lemma InsertKeepsKeys(rows: Rows, row: Liquidation, input: Input)
    requires KeysHold(rows) && row.id !in rows && IsActive(row, input)
    requires forall id :: !ActiveIn(rows, input, id)
    ensures KeysHold(rows[row.id := row]) && ActiveIn(rows[row.id := row], input, row.id)
  {
    forall j | j in rows ensures !SameActiveKey(row, rows[j]) && !SameActiveKey(rows[j], row) {
      assert !ActiveIn(rows, input, j);
    }
  }

  /** Rewriting a row under its own key, or canceling it, keeps the keys. */
  lemma UpdateKeepsKeys(rows: Rows, row: Liquidation)
    requires KeysHold(rows) && row.id in rows
    requires row.status.Canceled? || !rows[row.id].status.Canceled?
    requires (row.tenantId, row.buildingId, row.period)
             == (rows[row.id].tenantId, rows[row.id].buildingId, rows[row.id].period)
    ensures KeysHold(rows[row.id := row])
  {
    forall j | j in rows && j != row.id ensures !SameActiveKey(row, rows[j]) && !SameActiveKey(rows[j], row) {
      assert !SameActiveKey(rows[row.id], rows[j]) && !SameActiveKey(rows[j], rows[row.id]);
    }
  }

  lemma ActiveIsUnique(rows: Rows, input: Input, i: string, j: string)
    requires KeysHold(rows) && ActiveIn(rows, input, i) && ActiveIn(rows, input, j)
    ensures i == j
  {
    assert SameActiveKey(rows[i], rows[j]);
  }

  function DraftOf(input: Input, id: string): Liquidation {
    Liquidation(id, input.tenantId, input.buildingId, input.period, input.chargePeriod, Draft, input.baseCurrency,
                input.totalAmountMinor, input.totalsByCurrency, input.expenseSnapshot, |input.units|, None)
  }

  /** What publishing would write, or None when it refuses; the use case itself is not modelled. */
  type Publication = Option<(Snapshot, seq<Charge>)>

  /** The publisher's snapshot allocates the total, and the charges it writes belong to the liquidation. */
  predicate Publishes(l: Liquidation, publication: Publication) {
    && publication.Some? && AllocationsSum(publication.value.0, l.totalAmountMinor)
    && forall c :: c in publication.value.1 ==> c.liquidationId == Some(l.id)
  }

  predicate CanPublish(l: Liquidation, charges: seq<Charge>, publication: Publication) {
    || l.status.Published?
    || (l.status.Reviewed? && Publishes(l, publication) && ChargeKeysUnique(charges + publication.value.1))
  }

  function ReviewedRow(l: Liquidation): Liquidation {
    if l.status.Draft? then l.(status := Reviewed) else l
  }

  function PublishedRow(l: Liquidation, publication: Publication): Liquidation {
    if l.status.Published? || publication.None? then l
    else l.(status := Published, publicationSnapshot := Some(publication.value.0))
  }

  function ChargesAfter(l: Liquidation, charges: seq<Charge>, publication: Publication): seq<Charge> {
    if l.status.Published? || publication.None? then charges else charges + publication.value.1
  }

  /** Whether the workflow can take an active row to a published one that its validator accepts. */
  predicate Seedable(l: Liquidation, charges: seq<Charge>, publication: Publication, input: Input) {
    && MatchesInput(l, input)
    && CanPublish(ReviewedRow(l), charges, publication)
    && Compatible(PublishedRow(l, publication), ChargesAfter(l, charges, publication), input)
  }

  /** What other seeders commit between the first findActive and the one after a P2002. */
  datatype Rival = NoRival | Inserts(row: Liquidation) | InsertsAndCancels(row: Liquidation)

  /** Where the workflow leaves the row it adopted, and the charges, however it ends. */
  function FinalRow(l: Liquidation, charges: seq<Charge>, publication: Publication, input: Input): (r: Liquidation)
    ensures r.id == l.id && (r.tenantId, r.buildingId, r.period) == (l.tenantId, l.buildingId, l.period)
    ensures l.status.Rank() <= r.status.Rank() && (!l.status.Canceled? ==> !r.status.Canceled?)
    ensures l.status.Published? ==> r == l
    ensures Seedable(l, charges, publication, input) ==> r == PublishedRow(l, publication)
  {
    if !Compatible(l, charges, input) then l else
      var reviewed := ReviewedRow(l);
      if CanPublish(reviewed, charges, publication) then PublishedRow(reviewed, publication) else reviewed
  }

  function FinalCharges(l: Liquidation, charges: seq<Charge>, publication: Publication, input: Input): (r: seq<Charge>)
    ensures charges <= r
    ensures l.status.Published? ==> r == charges
    ensures Seedable(l, charges, publication, input) ==> r == ChargesAfter(l, charges, publication)
  {
    if !Compatible(l, charges, input) then charges else
      var reviewed := ReviewedRow(l);
      if CanPublish(reviewed, charges, publication) then ChargesAfter(reviewed, charges, publication) else charges
  }

  /** The active row, if there is one; the keys make it the only one. */
  ghost function ActiveId(rows: Rows, input: Input): (r: Option<string>)
    ensures r.Some? ==> ActiveIn(rows, input, r.value)
    ensures r.None? ==> forall id :: !ActiveIn(rows, input, id)
  {
    if id :| ActiveIn(rows, input, id) then Some(id) else None
  }

  /**
   * The row the workflow goes on with, and whether it created it; None when another seeder's row came and was
   * canceled.
   */
  ghost function Adopted(rows: Rows, input: Input, newId: string, rival: Rival): Option<(Liquidation, bool)> {
    match ActiveId(rows, input)
    case Some(id) => Some((rows[id], false))
    case None =>
      match rival
      case NoRival => Some((DraftOf(input, newId), true))
      case Inserts(row) => Some((row, false))
      case InsertsAndCancels(_) => None
  }

  /** The rows when the workflow goes on. */
  ghost function RowsThen(rows: Rows, input: Input, newId: string, rival: Rival): Rows {
    if ActiveId(rows, input).Some? then rows
    else
      match rival
      case NoRival => rows[newId := DraftOf(input, newId)]
      case Inserts(row) => rows[row.id := row]
      case InsertsAndCancels(row) => rows[row.id := row.(status := Canceled)]
  }

  /** A rival's row is new, active and as the publisher leaves it; only an unpublished one can be canceled. */
  ghost predicate RivalOk(rows: Rows, input: Input, newId: string, rival: Rival) {
    rival.NoRival? || (
      && rival.row.id !in rows && rival.row.id != newId && IsActive(rival.row, input) && SnapshotConserves(rival.row)
      && (rival.InsertsAndCancels? ==> rival.row.status.MayBecome(Canceled)))
  }

  lemma SeedableEndsPublished(l: Liquidation, charges: seq<Charge>, publication: Publication, input: Input)
    requires IsActive(l, input) && Seedable(l, charges, publication, input)
    ensures var row := FinalRow(l, charges, publication, input);
            IsActive(row, input) && IsSeeded(row, FinalCharges(l, charges, publication, input), input)
  {
  }

  // ---- The first seeding of a key ----

  /** The row has every field that it takes from the input. */
  predicate IsRowOf(l: Liquidation, id: string, input: Input) {
    && l.id == id && l.tenantId == input.tenantId && l.buildingId == input.buildingId && l.period == input.period
    && l.chargePeriod == input.chargePeriod && l.baseCurrency == input.baseCurrency
    && l.totalAmountMinor == input.totalAmountMinor && l.totalsByCurrency == input.totalsByCurrency
    && l.expenseSnapshot == input.expenseSnapshot && l.unitCount == |input.units|
  }

  /** A snapshot of the input, with the allocation and the charge of each unit, which add up to the total. */
  predicate PublishesInput(input: Input, id: string, s: Snapshot, written: seq<Charge>) {
    && s.tenantId == Some(input.tenantId) && s.buildingId == Some(input.buildingId) && s.period == Some(input.period)
    && s.baseCurrency == Some(input.baseCurrency) && s.totalAmountMinor == Some(input.totalAmountMinor)
    && s.totalsByCurrency == Some(input.totalsByCurrency) && s.expenses == Some(input.expenseSnapshot)
    && s.dueDate == Some(input.dueDate) && s.allocations.Some?
    && |written| == |input.units| == |s.allocations.value|
    && (forall i :: 0 <= i < |written| ==> IsChargeFor(written[i], input, id, input.units[i]))
    && (forall i :: 0 <= i < |written| ==>
          s.allocations.value[i] == Allocation(Some(input.units[i]), Some(written[i].amount)))
    && Sum(ChargedAmounts(written)) == input.totalAmountMinor
  }

  predicate IsChargeFor(c: Charge, input: Input, id: string, unitId: string) {
    && c.tenantId == input.tenantId && c.buildingId == input.buildingId && c.unitId == unitId
    && c.period == input.period && c.concept == "Expensas comunes " + input.period
    && c.currency == input.baseCurrency && c.dueDate == input.dueDate && c.liquidationId == Some(id)
  }

  /** No row of the key is active, no charge refers to the new id yet, and the publication is that of the input. */
  ghost predicate FirstSeeding(rows: Rows, charges: seq<Charge>, input: Input, newId: string, publication: Publication)
  {
    && (forall id | (&& id in rows && rows[id].tenantId == input.tenantId && rows[id].buildingId == input.buildingId
                     && rows[id].period == input.period) :: rows[id].status.Canceled?)
    && (forall c :: c in charges ==> c.liquidationId != Some(newId))
    && publication.Some? && PublishesInput(input, newId, publication.value.0, publication.value.1)
    && ChargeKeysUnique(charges + publication.value.1)
  }

  lemma {:induction false} WrittenAreOf(charges: seq<Charge>, written: seq<Charge>, id: string, input: Input)
    requires forall c :: c in charges ==> c.liquidationId != Some(id)
    requires forall c :: c in written ==> IsChargeOf(c, id, input)
    ensures ChargesOf(charges + written, id, input) == written
  {
    if charges != [] {
      assert (charges + written)[1..] == charges[1..] + written;
      WrittenAreOf(charges[1..], written, id, input);
    } else if written != [] {
      assert charges + written == written;
      assert written == [written[0]] + written[1..] && written[1..] == [] + written[1..];
      WrittenAreOf([], written[1..], id, input);
    }
  }

  lemma WrittenMatch(charges: seq<Charge>, input: Input, id: string, s: Snapshot, written: seq<Charge>)
    requires PublishesInput(input, id, s, written) && ChargeKeysUnique(charges + written)
    ensures forall c :: c in written ==> ChargeMatches(c, s.allocations.value, input)
  {
    var allocations := s.allocations.value;
    forall i | 0 <= i < |written| ensures AmountFor(allocations, written[i].unitId) == Some(written[i].amount) {
      forall j | i < j < |allocations| ensures allocations[j].unitId != Some(written[i].unitId) {
        assert (charges + written)[|charges| + i] == written[i] && (charges + written)[|charges| + j] == written[j];
      }
      LastAllocationWins(allocations, written[i].unitId, i);
    }
  }

  lemma WrittenAddUp(input: Input, id: string, s: Snapshot, written: seq<Charge>)
    requires PublishesInput(input, id, s, written)
    ensures AllocationsSum(s, input.totalAmountMinor)
  {
    assert AllocatedAmounts(s.allocations.value) == ChargedAmounts(written);
  }

  /** A draft of the input can be taken to a published row that the validator accepts. */
  lemma FirstIsSeedable(rows: Rows, charges: seq<Charge>, input: Input, newId: string, publication: Publication)
    requires FirstSeeding(rows, charges, input, newId, publication)
    ensures Seedable(DraftOf(input, newId), charges, publication, input)
    ensures forall id :: !ActiveIn(rows, input, id)
  {
    var draft, s, written := DraftOf(input, newId), publication.value.0, publication.value.1;
    WrittenAddUp(input, newId, s, written);
    WrittenAreOf(charges, written, newId, input);
    WrittenMatch(charges, input, newId, s, written);
    assert MatchesInput(draft, input) && SnapshotMatches(s, input);
    assert ChargesMatchSnapshot(PublishedRow(draft, publication), written, input);
  }

  /** For distinct units and amounts that add up to the total there is such a publication, whatever else is charged. */
  lemma FirstSeedingExists(rows: Rows, charges: seq<Charge>, input: Input, newId: string, amounts: seq<int>)
    returns (publication: Publication)
    requires forall id :: id in rows ==> !IsActive(rows[id], input)
    requires ChargeKeysUnique(charges) && forall c :: c in charges ==> c.liquidationId != Some(newId)
    requires Distinct(input.units) && |amounts| == |input.units| && Sum(amounts) == input.totalAmountMinor
    ensures FirstSeeding(rows, charges, input, newId, publication)
    ensures forall i :: 0 <= i < |amounts| ==> publication.value.1[i].amount == amounts[i]
  {
    var written := seq(|amounts|, i requires 0 <= i < |amounts| =>
      Charge(input.tenantId, input.buildingId, input.units[i], input.period, "Expensas comunes " + input.period,
             amounts[i], input.baseCurrency, input.dueDate, Some(newId)));
    var allocations := seq(|amounts|, i requires 0 <= i < |amounts| =>
      Allocation(Some(input.units[i]), Some(amounts[i])));
    var s := Snapshot(Some(input.tenantId), Some(input.buildingId), Some(input.period), Some(input.baseCurrency),
                      Some(input.totalAmountMinor), Some(input.totalsByCurrency), Some(input.expenseSnapshot),
                      Some(input.dueDate), Some(allocations));
    assert ChargedAmounts(written) == amounts;
    publication := Some((s, written));
    WrittenKeepKeys(charges, written, input, newId);
  }

  lemma WrittenKeepKeys(charges: seq<Charge>, written: seq<Charge>, input: Input, newId: string)
    requires ChargeKeysUnique(charges) && forall c :: c in charges ==> c.liquidationId != Some(newId)
    requires Distinct(input.units) && |written| == |input.units|
    requires forall i :: 0 <= i < |written| ==> IsChargeFor(written[i], input, newId, input.units[i])
    ensures ChargeKeysUnique(charges + written)
  {
    var all := charges + written;
    forall i, j | 0 <= i < j < |all| && all[i].liquidationId.Some?
      ensures all[i].liquidationId != all[j].liquidationId || all[i].unitId != all[j].unitId
           || all[i].tenantId != all[j].tenantId || all[i].period != all[j].period
    {
      if j < |charges| {
        assert charges[i] == all[i] && charges[j] == all[j];
      } else if i < |charges| {
        assert all[i] in charges && all[j] == written[j - |charges|];
      } else {
        assert all[i] == written[i - |charges|] && all[j] == written[j - |charges|];
      }
    }
  }

  class LiquidationStore {
    var liquidations: map<string, Liquidation>
    var charges: seq<Charge>

    constructor ()
      ensures Valid() && liquidations == map[] && charges == []
    {
      liquidations := map[];
      charges := [];
    }

    ghost predicate Valid()
      reads this
    {
      KeysHold(liquidations) && Conserving(liquidations) && ChargeKeysUnique(charges)
    }

    method FindActive(input: Input) returns (r: Option<Liquidation>)
      requires Valid()
      ensures r.Some? ==> ActiveIn(liquidations, input, r.value.id) && liquidations[r.value.id] == r.value
      ensures r.None? ==> forall id :: !ActiveIn(liquidations, input, id)
    {
      if exists id :: id in liquidations && IsActive(liquidations[id], input) {
        var id :| id in liquidations && IsActive(liquidations[id], input);
        return Some(liquidations[id]);
      }
      return None;
    }

    /** createLiquidationDraftRecord under the unique index over rows that are not canceled. */
    method CreateDraft(input: Input, id: string) returns (r: Option<Liquidation>)
      requires Valid() && id !in liquidations
      modifies this`liquidations
      ensures Valid()
      ensures r.None? <==> exists other :: old(ActiveIn(liquidations, input, other))
      ensures r.None? ==> liquidations == old(liquidations)
      ensures r.Some? ==> (
                && IsRowOf(r.value, id, input) && r.value.status.Draft? && r.value.publicationSnapshot.None?
                && r.value == DraftOf(input, id) && liquidations == old(liquidations)[id := r.value])
    {
      if exists other :: other in liquidations && IsActive(liquidations[other], input) {
        ghost var other :| other in liquidations && IsActive(liquidations[other], input);
        assert ActiveIn(liquidations, input, other);
        return None;
      }
      InsertKeepsKeys(liquidations, DraftOf(input, id), input);
      liquidations := liquidations[id := DraftOf(input, id)];
      return Some(liquidations[id]);
    }

    /** reviewLiquidationRecord. */
    method Review(id: string) returns (r: Result<Liquidation, SeedError>)
      requires Valid()
      modifies this`liquidations
      ensures Valid()
      ensures r.Ok? <==> id in old(liquidations) && old(liquidations)[id].status.Draft?
      ensures r.Ok? ==>
              r.value == old(liquidations)[id].(status := Reviewed) && liquidations == old(liquidations)[id := r.value]
      ensures r.Err? ==> liquidations == old(liquidations)
    {
      if id !in liquidations {
        return Err(NotFound);
      }
      if !liquidations[id].status.Draft? {
        return Err(Conflict);
      }
      UpdateKeepsKeys(liquidations, liquidations[id].(status := Reviewed));
      liquidations := liquidations[id := liquidations[id].(status := Reviewed)];
      return Ok(liquidations[id]);
    }

    /** The publication use case by its contract: idle on a published row, otherwise all or nothing. */
    method Publish(id: string, publication: Publication) returns (error: Option<SeedError>)
      requires Valid()
      modifies this
      ensures Valid()
      ensures error.None? <==> id in old(liquidations) && CanPublish(old(liquidations)[id], old(charges), publication)
      ensures error.None? ==> (
                && id in old(liquidations)
                && liquidations == old(liquidations)[id := PublishedRow(old(liquidations)[id], publication)]
                && charges == ChargesAfter(old(liquidations)[id], old(charges), publication))
      ensures error.Some? ==> liquidations == old(liquidations) && charges == old(charges)
    {
      if id !in liquidations {
        return Some(NotFound);
      }
      var row := liquidations[id];
      if row.status.Published? {
        assert liquidations == liquidations[id := row];
        return None;
      }
      if !row.status.Reviewed? {
        return Some(NotReviewed);
      }
      if !Publishes(row, publication) {
        return Some(PublicationRefused);
      }
      if !ChargeKeysUnique(charges + publication.value.1) {
        return Some(UniqueViolation);
      }
      UpdateKeepsKeys(liquidations, PublishedRow(row, publication));
      liquidations := liquidations[id := row.(status := Published, publicationSnapshot := Some(publication.value.0))];
      charges := charges + publication.value.1;
      return None;
    }

    /** The loop of validateCompatible over the charges. */
    static method AllMatch(cs: seq<Charge>, allocations: seq<Allocation>, input: Input) returns (matching: bool)
      ensures matching <==> forall c :: c in cs ==> ChargeMatches(c, allocations, input)
    {
      for i := 0 to |cs|
        invariant forall k :: 0 <= k < i ==> ChargeMatches(cs[k], allocations, input)
      {
        if !ChargeMatches(cs[i], allocations, input) {
          assert cs[i] in cs;
          return false;
        }
      }
      return true;
    }

    /** validateCompatible, check by check. */
    method ValidateCompatible(l: Liquidation, input: Input) returns (error: Option<SeedError>)
      ensures error.None? <==> Compatible(l, charges, input)
    {
      if !MatchesInput(l, input) {
        return Some(Incompatible);
      }
      if !l.status.Published? {
        return None;
      }
      var cs := ChargesOf(charges, l.id, input);
      if |cs| != |input.units| {
        return Some(WrongChargeCount);
      }
      if l.publicationSnapshot.None? {
        return Some(MissingSnapshot);
      }
      var snapshot := l.publicationSnapshot.value;
      if !SnapshotMatches(snapshot, input) {
        return Some(SnapshotMismatch);
      }
      if snapshot.allocations.None? || |snapshot.allocations.value| != |cs| {
        return Some(AllocationsMismatch);
      }
      var matching := AllMatch(cs, snapshot.allocations.value, input);
      return if matching then None else Some(ChargeMismatch);
    }

    /** Between the two calls of validateCompatible: review a draft, publish a reviewed row, and find it again. */
    method AdvanceToPublished(l: Liquidation, input: Input, publication: Publication)
      returns (error: Option<SeedError>, current: Liquidation)
      requires Valid() && ActiveIn(liquidations, input, l.id) && liquidations[l.id] == l
      modifies this
      ensures Valid()
      ensures error.None? <==> CanPublish(ReviewedRow(l), old(charges), publication)
      ensures error.None? ==> (
                && current == PublishedRow(l, publication)
                && liquidations == old(liquidations)[l.id := current]
                && charges == ChargesAfter(l, old(charges), publication))
      ensures error.Some? ==> liquidations == old(liquidations)[l.id := ReviewedRow(l)] && charges == old(charges)
    {
      current, error := l, None;
      assert liquidations == liquidations[l.id := l];
      if current.status.Draft? {
        var reviewed := Review(current.id);
        current := reviewed.value;
      }
      if current.status.Reviewed? {
        error := Publish(current.id, publication);
        if error.Some? {
          return;
        }
        assert ActiveIn(liquidations, input, l.id);
        var found := FindActive(input);
        assert found.Some?; // it cannot have disappeared after publish
        ActiveIsUnique(liquidations, input, found.value.id, l.id);
        current := found.value;
      }
    }

    /** The second half of the workflow, from the first validateCompatible on. */
    method PublishAdopted(adopted: Liquidation, created: bool, input: Input, publication: Publication)
      returns (r: Result<SeedResult, SeedError>)
      requires Valid() && ActiveIn(liquidations, input, adopted.id) && liquidations[adopted.id] == adopted
      modifies this
      ensures Valid()
      ensures liquidations == old(liquidations)[adopted.id := FinalRow(adopted, old(charges), publication, input)]
      ensures charges == FinalCharges(adopted, old(charges), publication, input)
      ensures r.Ok? <==> Seedable(adopted, old(charges), publication, input)
      ensures r.Ok? ==> r.value == SeedResult(adopted.id, created)
    {
      var current := adopted;
      var error := ValidateCompatible(current, input);
      if error.Some? {
        return Err(error.value);
      }
      error, current := AdvanceToPublished(current, input, publication);
      if error.Some? {
        return Err(error.value);
      }
      error := ValidateCompatible(current, input);
      if error.Some? {
        return Err(error.value);
      }
      assert current.status.Published?; // so no unsupported status is left to report
      return Ok(SeedResult(current.id, created));
    }

    /** The first half: find the active row, or create one; a rival that commits in between makes the insert fail. */
    method Adopt(input: Input, newId: string, rival: Rival) returns (r: Result<(Liquidation, bool), SeedError>)
      requires Valid() && newId !in liquidations && RivalOk(liquidations, input, newId, rival)
      modifies this`liquidations
      ensures Valid()
      ensures liquidations == RowsThen(old(liquidations), input, newId, rival)
      ensures match Adopted(old(liquidations), input, newId, rival)
              case None => r == Err(UniqueViolation)
              case Some(adopted) =>
                && r == Ok(adopted) && ActiveIn(liquidations, input, adopted.0.id)
                && liquidations[adopted.0.id] == adopted.0
    {
      var found := FindActive(input);
      if found.Some? {
        ActiveIsUnique(liquidations, input, found.value.id, ActiveId(liquidations, input).value);
        return Ok((found.value, false));
      }
      if !rival.NoRival? {
        InsertKeepsKeys(liquidations, rival.row, input);
        liquidations := liquidations[rival.row.id := rival.row];
      }
      found := CreateDraft(input, newId);
      if found.Some? {
        return Ok((found.value, true));
      }
      if rival.InsertsAndCancels? {
        liquidations := liquidations[rival.row.id := rival.row.(status := Canceled)];
        CanceledLeavesNone(old(liquidations), rival.row, input, liquidations);
      }
      found := FindActive(input);
      if found.None? {
        return Err(UniqueViolation);
      }
      ActiveIsUnique(liquidations, input, found.value.id, rival.row.id);
      return Ok((found.value, false));
    }

    method EnsureSeedPublished(input: Input, newId: string, rival: Rival, publication: Publication)
      returns (r: Result<SeedResult, SeedError>)
      requires Valid() && newId !in liquidations && RivalOk(liquidations, input, newId, rival)
      modifies this
      ensures Valid()
      // A normal return names a published active row that the validator accepts.
      ensures r.Ok? ==> ActiveIn(liquidations, input, r.value.id) && IsSeeded(liquidations[r.value.id], charges, input)
      // Its charges add up to the total of the input.
      ensures r.Ok? ==> Sum(ChargedAmounts(ChargesOf(charges, r.value.id, input))) == input.totalAmountMinor
      // The first seeding of a key succeeds, and leaves the row and the charges of the input.
      ensures rival.NoRival? && FirstSeeding(old(liquidations), old(charges), input, newId, publication) ==> (
                && r == Ok(SeedResult(newId, true))
                && liquidations == old(liquidations)[newId := liquidations[newId]]
                && IsRowOf(liquidations[newId], newId, input) && liquidations[newId].status.Published?
                && liquidations[newId].publicationSnapshot == Some(publication.value.0)
                && charges == old(charges) + publication.value.1)
      // Exactly when it returns normally and with what, and what every return leaves.
      ensures match Adopted(old(liquidations), input, newId, rival)
              case None =>
                && r == Err(UniqueViolation)
                && liquidations == RowsThen(old(liquidations), input, newId, rival) && charges == old(charges)
              case Some(adopted) =>
                && (r.Ok? <==> Seedable(adopted.0, old(charges), publication, input))
                && (r.Ok? ==> r.value == SeedResult(adopted.0.id, adopted.1))
                && liquidations == RowsThen(old(liquidations), input, newId, rival)
                                     [adopted.0.id := FinalRow(adopted.0, old(charges), publication, input)]
                && charges == FinalCharges(adopted.0, old(charges), publication, input)
    {
      if rival.NoRival? && FirstSeeding(liquidations, charges, input, newId, publication) {
        FirstIsSeedable(liquidations, charges, input, newId, publication);
      }
      var adopted := Adopt(input, newId, rival);
      if adopted.Err? {
        return Err(adopted.error);
      }
      r := PublishAdopted(adopted.value.0, adopted.value.1, input, publication);
      if r.Ok? {
        SeedableEndsPublished(adopted.value.0, old(charges), publication, input);
        SeededChargesTotal(liquidations, charges, input, r.value.id);
      }
    }
  }

  lemma CanceledLeavesNone(rows: Rows, row: Liquidation, input: Input, after: Rows)
    requires KeysHold(rows) && row.id !in rows && IsActive(row, input)
    requires forall id :: !ActiveIn(rows, input, id)
    requires after == rows[row.id := row][row.id := row.(status := Canceled)]
    ensures after == rows[row.id := row.(status := Canceled)]
    ensures KeysHold(after) && forall id :: !ActiveIn(after, input, id)
  {
    InsertKeepsKeys(rows, row, input);
    UpdateKeepsKeys(rows[row.id := row], row.(status := Canceled));
    forall id ensures !ActiveIn(after, input, id) {
      assert !ActiveIn(rows, input, id);
    }
  }

  // ---- What the workflow promises over its whole effect ----

  /** What EnsureSeedPublished leaves behind, given the state it starts from. */
  ghost function RowsAfter(rows: Rows, charges: seq<Charge>, input: Input, newId: string, rival: Rival,
          publication: Publication): Rows
  {
    match Adopted(rows, input, newId, rival)
    case None => RowsThen(rows, input, newId, rival)
    case Some(adopted) =>
      RowsThen(rows, input, newId, rival)[adopted.0.id := FinalRow(adopted.0, charges, publication, input)]
  }

  /** Rows that were not active for the key stay as they were; the active one only moves forward. */
  lemma OtherRowsStay(rows: Rows, charges: seq<Charge>, input: Input, newId: string, rival: Rival,
          publication: Publication, id: string)
    requires KeysHold(rows) && newId !in rows && RivalOk(rows, input, newId, rival) && id in rows
    ensures var after := RowsAfter(rows, charges, input, newId, rival, publication); (
            && id in after && rows[id].status.Rank() <= after[id].status.Rank()
            && (!ActiveIn(rows, input, id) ==> after[id] == rows[id]))
  {
  }

  /** Calling it again on a published active row changes nothing, and returns its id when the validator accepts it. */
  lemma RepeatIsIdle(rows: Rows, charges: seq<Charge>, input: Input, newId: string, rival: Rival,
          publication: Publication, id: string)
    requires KeysHold(rows) && ActiveIn(rows, input, id) && rows[id].status.Published?
    ensures Adopted(rows, input, newId, rival) == Some((rows[id], false))
    ensures RowsAfter(rows, charges, input, newId, rival, publication) == rows
    ensures FinalCharges(rows[id], charges, publication, input) == charges
    ensures Seedable(rows[id], charges, publication, input) <==> IsSeeded(rows[id], charges, input)
  {
    ActiveIsUnique(rows, input, id, ActiveId(rows, input).value);
    assert rows[id := rows[id]] == rows;
  }

  /** An accepted published row of a valid store charges exactly the total of the input. */
  lemma {:induction false} SeededChargesTotal(rows: Rows, charges: seq<Charge>, input: Input, id: string)
    requires KeysHold(rows) && Conserving(rows) && ChargeKeysUnique(charges) && id in rows
    requires IsSeeded(rows[id], charges, input)
    ensures Sum(ChargedAmounts(ChargesOf(charges, id, input))) == input.totalAmountMinor
  {
    AcceptedSumIsTotalIff(rows[id], charges, input);
  }
}
