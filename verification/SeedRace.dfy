/** Any number of concurrent seeders, among other users of both tables. */
module SeedRace {
  import opened Options
  import opened LiquidationStatus
  import opened Pigeonhole
  import opened SeedWorkflow

  /** Where a seeder stands, between two accesses to the database. */
  datatype Place =
    | Start       // before the first findActive
    | Missing     // it found nothing, before the insert
    | Requery     // the insert failed with P2002, before the second findActive
    | Held        // it holds a row, before the first validateCompatible
    | Checked     // that passed, before whatever the status it saw calls for
    | Refinding   // it published, before the last findActive
    | Last        // before the second validateCompatible
    | Returned
    | Threw

  /** current is the row it holds, as it last saw it; own is the row it created. */
  datatype Seeder = Seeder(input: Input, place: Place, current: Option<Liquidation>, own: Option<string>) {
    /** The flag it will report. */
    predicate Created() {
      own.Some?
    }

    predicate Holds() {
      place.Held? || place.Checked? || place.Refinding? || place.Last? || place.Returned?
    }
  }

  /** creators tells which seeder inserted a row, of those that seeders inserted. */
  datatype State = State(rows: Rows, creators: map<string, nat>, charges: seq<Charge>, seeders: seq<Seeder>)

  ghost predicate NoneActive(s: State, input: Input) {
    forall id :: !ActiveIn(s.rows, input, id)
  }

  /** One access to the database, or a throw for a reason of its own; the last three are other users. */
  datatype Step =
    | Find(k: nat, found: Option<string>)
    | Create(k: nat, id: string)
    | Validate(k: nat)
    | Review(k: nat)
    | Publish(k: nat, publication: Publication)
    | Fail(k: nat)
    | OtherInsert(row: Liquidation)
    | OtherUpdate(row: Liquidation)
    | OtherCharges(charges: seq<Charge>)

  predicate AtPlace(s: State, k: nat, places: set<Place>) {
    k < |s.seeders| && s.seeders[k].place in places
  }

  /** findActive returns some row that is not canceled, and nothing only when there is none. */
  ghost predicate FindsActive(s: State, input: Input, found: Option<string>) {
    match found
    case Some(id) => ActiveIn(s.rows, input, id)
    case None => NoneActive(s, input)
  }

  /** The seeder holds a row that is still there. */
  predicate HoldsRow(s: State, seeder: Seeder) {
    seeder.current.Some? && seeder.current.value.id in s.rows
  }

  /** What the trigger on liquidations lets other users make of a row; only the publisher's snapshot gets published. */
  predicate MayRewrite(before: Liquidation, row: Liquidation) {
    && !before.status.Published? && !before.status.Canceled?
    && (row.status == before.status || before.status.MayBecome(row.status))
    && (row.tenantId, row.buildingId, row.period) == (before.tenantId, before.buildingId, before.period)
    && SnapshotConserves(row)
  }

  ghost predicate Enabled(s: State, step: Step) {
    match step
    case Find(k, found) => AtPlace(s, k, {Start, Requery, Refinding}) && FindsActive(s, s.seeders[k].input, found)
    case Create(k, id) => AtPlace(s, k, {Missing}) && id !in s.rows
    case Validate(k) => AtPlace(s, k, {Held, Last}) && HoldsRow(s, s.seeders[k])
    case Review(k) => AtPlace(s, k, {Checked}) && HoldsRow(s, s.seeders[k]) && s.seeders[k].current.value.status.Draft?
    case Publish(k, _) =>
      AtPlace(s, k, {Checked}) && HoldsRow(s, s.seeders[k]) && !s.seeders[k].current.value.status.Draft?
    case Fail(k) => k < |s.seeders| && !s.seeders[k].place.Returned?
    case OtherInsert(row) =>
      row.id !in s.rows && row.status.Draft? && forall id :: id in s.rows ==> !SameActiveKey(row, s.rows[id])
    case OtherUpdate(row) => row.id in s.rows && MayRewrite(s.rows[row.id], row)
    case OtherCharges(charges) => ChargeKeysUnique(charges)
  }

  function Found(s: State, seeder: Seeder, found: Option<string>): Seeder
    requires found.Some? ==> found.value in s.rows
  {
    match found
    case Some(id) => seeder.(place := if seeder.place.Refinding? then Last else Held, current := Some(s.rows[id]))
    case None => seeder.(place := if seeder.place.Start? then Missing else Threw)
  }

  /** validateCompatible of the row as the seeder saw it, with the charges as they are now. */
  function Validated(s: State, seeder: Seeder): Seeder
    requires seeder.current.Some?
  {
    var l := seeder.current.value;
    if !Compatible(l, s.charges, seeder.input) then seeder.(place := Threw)
    else seeder.(place := if seeder.place.Held? then Checked else if l.status.Published? then Returned else Threw)
  }

  function With(s: State, k: nat, seeder: Seeder): State
    requires k < |s.seeders|
  {
    s.(seeders := s.seeders[k := seeder])
  }

  ghost function Apply(s: State, step: Step): State
    requires Enabled(s, step)
  {
    match step
    case Find(k, found) => With(s, k, Found(s, s.seeders[k], found))
    case Create(k, id) =>
      var seeder := s.seeders[k];
      if NoneActive(s, seeder.input) then
        var row := DraftOf(seeder.input, id);
        With(s.(rows := s.rows[id := row], creators := s.creators[id := k]), k,
             seeder.(place := Held, current := Some(row), own := Some(id)))
      else With(s, k, seeder.(place := Requery))
    case Validate(k) => With(s, k, Validated(s, s.seeders[k]))
    case Review(k) =>
      var row := s.rows[s.seeders[k].current.value.id];
      if row.status.Draft? then
        With(s.(rows := s.rows[row.id := ReviewedRow(row)]), k, s.seeders[k].(current := Some(ReviewedRow(row))))
      else With(s, k, s.seeders[k].(place := Threw))
    case Publish(k, publication) =>
      var row := s.rows[s.seeders[k].current.value.id];
      if s.seeders[k].current.value.status.Published? then With(s, k, s.seeders[k].(place := Last))
      else if CanPublish(row, s.charges, publication) then
        With(s.(rows := s.rows[row.id := PublishedRow(row, publication)],
                charges := ChargesAfter(row, s.charges, publication)),
             k, s.seeders[k].(place := Refinding))
      else With(s, k, s.seeders[k].(place := Threw))
    case Fail(k) => With(s, k, s.seeders[k].(place := Threw))
    case OtherInsert(row) => s.(rows := s.rows[row.id := row])
    case OtherUpdate(row) => s.(rows := s.rows[row.id := row])
    case OtherCharges(charges) => s.(charges := charges)
  }

  ghost predicate Next(s: State, s': State, step: Step) {
    Enabled(s, step) && s' == Apply(s, step)
  }

  /** No seeder has begun; rows and charges may already be there. */
  ghost predicate Init(s: State) {
    && KeysHold(s.rows) && Conserving(s.rows) && ChargeKeysUnique(s.charges) && s.creators == map[]
    && (forall k :: 0 <= k < |s.seeders| ==>
          s.seeders[k].place.Start? && s.seeders[k].own.None? && s.seeders[k].current.None?)
  }

  ghost predicate Run(states: seq<State>, steps: seq<Step>) {
    && |states| == |steps| + 1
    && Init(states[0])
    && forall i :: 0 <= i < |steps| ==> Next(states[i], states[i + 1], steps[i])
  }

  // ---- The invariant ----

  /** Every row a seeder created is recorded as its own, and conversely. */
  ghost predicate OwnRows(s: State) {
    && (forall k :: 0 <= k < |s.seeders| && s.seeders[k].own.Some? ==>
          && s.seeders[k].own.value in s.rows
          && s.seeders[k].own.value in s.creators && s.creators[s.seeders[k].own.value] == k)
    && (forall id :: id in s.creators ==>
          id in s.rows && s.creators[id] < |s.seeders| && s.seeders[s.creators[id]].own == Some(id))
  }

  predicate SameKey(l: Liquidation, input: Input) {
    (l.tenantId, l.buildingId, l.period) == (input.tenantId, input.buildingId, input.period)
  }

  /** The row a seeder holds is one of its key and no further than it was seen; seen published, it is as it was seen. */
  ghost predicate HeldOk(rows: Rows, seeder: Seeder) {
    && seeder.current.Some? && seeder.current.value.id in rows
    && var l := seeder.current.value;
       && SameKey(rows[l.id], seeder.input) && !l.status.Canceled? && l.status.Rank() <= rows[l.id].status.Rank()
       && (l.status.Published? ==> rows[l.id] == l)
       && (seeder.place.Refinding? ==> rows[l.id].status.Published?)
       && (seeder.own.Some? ==> l.id == seeder.own.value)
  }

  /** What is known of a seeder. */
  ghost predicate SeederOk(rows: Rows, seeder: Seeder) {
    && (seeder.place in {Start, Missing, Requery} ==> seeder.own.None?)
    && (seeder.Holds() ==> HeldOk(rows, seeder))
    && (seeder.place.Returned? ==> seeder.current.value.status.Published?)
  }

  ghost predicate RowsOk(s: State) {
    KeysHold(s.rows) && Conserving(s.rows) && ChargeKeysUnique(s.charges)
  }

  ghost predicate Inv(s: State) {
    && RowsOk(s)
    && OwnRows(s)
    && forall k :: 0 <= k < |s.seeders| ==> SeederOk(s.rows, s.seeders[k])
  }

  /** The rows stay there under their keys; no status goes back, and published rows stay as they are. */
  ghost predicate RowsForward(rows: Rows, rows': Rows) {
    forall id :: id in rows ==>
      && id in rows' && rows'[id].id == rows[id].id
      && (rows'[id].tenantId, rows'[id].buildingId, rows'[id].period)
          == (rows[id].tenantId, rows[id].buildingId, rows[id].period)
      && rows[id].status.Rank() <= rows'[id].status.Rank()
      && (rows[id].status.Published? ==> rows'[id] == rows[id])
  }

  /** And they stay their creators', and seeders their inputs'. */
  ghost predicate Forward(s: State, s': State) {
    && |s.seeders| == |s'.seeders| && RowsForward(s.rows, s'.rows)
    && (forall id :: id in s.creators ==> id in s'.creators && s'.creators[id] == s.creators[id])
    && (forall k :: 0 <= k < |s.seeders| ==> s'.seeders[k].input == s.seeders[k].input)
  }

  lemma InsertForward(rows: Rows, row: Liquidation)
    requires row.id !in rows
    ensures RowsForward(rows, rows[row.id := row])
  {
  }

  lemma UpdateForward(rows: Rows, row: Liquidation)
    requires KeysHold(rows) && row.id in rows
    requires (row.tenantId, row.buildingId, row.period)
             == (rows[row.id].tenantId, rows[row.id].buildingId, rows[row.id].period)
    requires rows[row.id].status.Rank() <= row.status.Rank() && (rows[row.id].status.Published? ==> row == rows[row.id])
    ensures RowsForward(rows, rows[row.id := row])
  {
  }

  lemma PublishKeepsRows(s: State, row: Liquidation, publication: Publication)
    requires RowsOk(s) && row.id in s.rows && s.rows[row.id] == row && CanPublish(row, s.charges, publication)
    ensures var rows := s.rows[row.id := PublishedRow(row, publication)];
            KeysHold(rows) && Conserving(rows) && RowsForward(s.rows, rows)
    ensures ChargeKeysUnique(ChargesAfter(row, s.charges, publication))
  {
    UpdateKeepsKeys(s.rows, PublishedRow(row, publication));
    UpdateForward(s.rows, PublishedRow(row, publication));
  }

  lemma RewriteKeepsRows(s: State, row: Liquidation)
    requires RowsOk(s) && row.id in s.rows && MayRewrite(s.rows[row.id], row)
    ensures var rows := s.rows[row.id := row]; KeysHold(rows) && Conserving(rows) && RowsForward(s.rows, rows)
  {
    UpdateKeepsKeys(s.rows, row);
    UpdateForward(s.rows, row);
  }

  lemma InsertKeepsRows(s: State, row: Liquidation)
    requires RowsOk(s) && row.id !in s.rows && SnapshotConserves(row)
    requires forall id :: id in s.rows ==> !SameActiveKey(row, s.rows[id])
    ensures var rows := s.rows[row.id := row]; KeysHold(rows) && Conserving(rows) && RowsForward(s.rows, rows)
  {
    InsertForward(s.rows, row);
  }

  lemma ReviewKeepsRows(s: State, row: Liquidation)
    requires RowsOk(s) && row.id in s.rows && s.rows[row.id] == row && row.status.Draft?
    ensures var rows := s.rows[row.id := ReviewedRow(row)];
            KeysHold(rows) && Conserving(rows) && RowsForward(s.rows, rows)
  {
    UpdateKeepsKeys(s.rows, ReviewedRow(row));
    UpdateForward(s.rows, ReviewedRow(row));
  }

  lemma CreateKeepsRows(s: State, input: Input, id: string)
    requires RowsOk(s) && id !in s.rows && NoneActive(s, input)
    ensures var rows := s.rows[id := DraftOf(input, id)];
            KeysHold(rows) && Conserving(rows) && RowsForward(s.rows, rows)
  {
    var row := DraftOf(input, id);
    forall j | j in s.rows ensures !SameActiveKey(row, s.rows[j]) {
      assert !ActiveIn(s.rows, input, j);
    }
    InsertKeepsRows(s, row);
  }

  lemma StepRows(s: State, s': State, step: Step)
    requires RowsOk(s) && Next(s, s', step)
    ensures RowsOk(s') && RowsForward(s.rows, s'.rows)
  {
    match step
    case Create(k, id) =>
      if NoneActive(s, s.seeders[k].input) {
        CreateKeepsRows(s, s.seeders[k].input, id);
      }
    case Review(k) =>
      var row := s.rows[s.seeders[k].current.value.id];
      if row.status.Draft? {
        ReviewKeepsRows(s, row);
      }
    case Publish(k, publication) =>
      var row := s.rows[s.seeders[k].current.value.id];
      if CanPublish(row, s.charges, publication) {
        PublishKeepsRows(s, row, publication);
      }
    case OtherInsert(row) => InsertKeepsRows(s, row);
    case OtherUpdate(row) => RewriteKeepsRows(s, row);
    case _ =>
  }

  lemma CreatorsStay(s: State, s': State, step: Step)
    requires OwnRows(s) && Next(s, s', step)
    ensures forall id :: id in s.creators ==> id in s'.creators && s'.creators[id] == s.creators[id]
  {
    assert s'.creators == s.creators || (step.Create? && s'.creators == s.creators[step.id := step.k]);
  }

  lemma InputsStay(s: State, s': State, step: Step)
    requires Next(s, s', step)
    ensures |s.seeders| == |s'.seeders|
    ensures forall k :: 0 <= k < |s.seeders| ==> s'.seeders[k].input == s.seeders[k].input
  {
  }

  /** Only a successful insert changes who created what. */
  lemma OnlyCreateOwns(s: State, s': State, step: Step)
    requires Next(s, s', step) && !(step.Create? && NoneActive(s, s.seeders[step.k].input))
    ensures s'.creators == s.creators && |s'.seeders| == |s.seeders|
    ensures forall k :: 0 <= k < |s.seeders| ==> s'.seeders[k].own == s.seeders[k].own
  {
  }

  lemma CreateOwns(s: State, s': State, step: Step)
    requires Inv(s) && Next(s, s', step) && step.Create? && NoneActive(s, s.seeders[step.k].input)
    ensures OwnRows(s')
  {
    assert SeederOk(s.rows, s.seeders[step.k]);
  }

  lemma StepOwnRows(s: State, s': State, step: Step)
    requires Inv(s) && Next(s, s', step) && RowsForward(s.rows, s'.rows)
    ensures OwnRows(s')
  {
    if step.Create? && NoneActive(s, s.seeders[step.k].input) {
      CreateOwns(s, s', step);
    } else {
      OnlyCreateOwns(s, s', step);
    }
  }

  /** A seeder that did not move is still as it should be. */
  lemma SeederStays(rows: Rows, rows': Rows, seeder: Seeder)
    requires SeederOk(rows, seeder) && RowsForward(rows, rows')
    ensures SeederOk(rows', seeder)
  {
  }

  lemma FinderOk(s: State, s': State, step: Step)
    requires Inv(s) && Next(s, s', step) && step.Find?
    ensures SeederOk(s'.rows, s'.seeders[step.k])
  {
    var seeder := s.seeders[step.k];
    assert SeederOk(s.rows, seeder);
    if step.found.Some? && seeder.place.Refinding? {
      ActiveIsUnique(s.rows, seeder.input, step.found.value, seeder.current.value.id);
    }
  }

  lemma WriterOk(s: State, s': State, step: Step)
    requires Inv(s) && Next(s, s', step) && (step.Create? || step.Review?)
    ensures SeederOk(s'.rows, s'.seeders[step.k])
  {
    assert SeederOk(s.rows, s.seeders[step.k]);
  }

  lemma PublisherOk(s: State, s': State, step: Step)
    requires Inv(s) && Next(s, s', step) && step.Publish?
    ensures SeederOk(s'.rows, s'.seeders[step.k])
  {
    assert SeederOk(s.rows, s.seeders[step.k]);
  }

  lemma QuietOk(s: State, s': State, step: Step)
    requires Inv(s) && Next(s, s', step) && (step.Validate? || step.Fail?)
    ensures SeederOk(s'.rows, s'.seeders[step.k])
  {
    assert SeederOk(s.rows, s.seeders[step.k]);
  }

  lemma OthersUnmoved(s: State, s': State, step: Step, k: nat)
    requires Next(s, s', step) && k < |s.seeders| && k < |s'.seeders| && s'.seeders[k] != s.seeders[k]
    ensures !step.OtherInsert? && !step.OtherUpdate? && !step.OtherCharges? && step.k == k
  {
  }

  lemma StepSeederOk(s: State, s': State, step: Step, k: nat)
    requires Inv(s) && Next(s, s', step) && RowsForward(s.rows, s'.rows) && k < |s.seeders| == |s'.seeders|
    ensures SeederOk(s'.rows, s'.seeders[k])
  {
    if s'.seeders[k] == s.seeders[k] {
      SeederStays(s.rows, s'.rows, s.seeders[k]);
    } else {
      OthersUnmoved(s, s', step, k);
      if step.Find? {
        FinderOk(s, s', step);
      } else if step.Validate? || step.Fail? {
        QuietOk(s, s', step);
      } else if step.Publish? {
        PublisherOk(s, s', step);
      } else {
        WriterOk(s, s', step);
      }
    }
  }

  lemma StepKeepsInv(s: State, s': State, step: Step)
    requires Inv(s) && Next(s, s', step)
    ensures Inv(s') && Forward(s, s')
  {
    StepRows(s, s', step);
    CreatorsStay(s, s', step);
    InputsStay(s, s', step);
    StepOwnRows(s, s', step);
    forall k | 0 <= k < |s'.seeders| ensures SeederOk(s'.rows, s'.seeders[k]) {
      StepSeederOk(s, s', step, k);
    }
  }

  lemma RunStep(states: seq<State>, steps: seq<Step>, i: nat)
    requires Run(states, steps) && i < |steps|
    ensures Next(states[i], states[i + 1], steps[i])
  {
  }

  lemma {:induction false} RunInv(states: seq<State>, steps: seq<Step>, i: nat)
    requires Run(states, steps) && i < |states|
    ensures Inv(states[i])
  {
    if i == 0 {
    } else {
      RunInv(states, steps, i - 1);
      RunStep(states, steps, i - 1);
      StepKeepsInv(states[i - 1], states[i], steps[i - 1]);
    }
  }

  /** Over a whole run: the invariant everywhere, and rows that only move forward between any two states. */
  lemma {:induction false} RunKeepsInv(states: seq<State>, steps: seq<Step>, i: nat, j: nat)
    requires Run(states, steps) && i <= j < |states|
    ensures Inv(states[i]) && Inv(states[j]) && Forward(states[i], states[j])
    decreases j
  {
    RunInv(states, steps, j);
    if i == j {
    } else {
      RunKeepsInv(states, steps, i, j - 1);
      RunStep(states, steps, j - 1);
      StepKeepsInv(states[j - 1], states[j], steps[j - 1]);
      ForwardChain(states[i], states[j - 1], states[j]);
    }
  }

  lemma ForwardChain(s: State, s': State, s'': State)
    requires Forward(s, s') && Forward(s', s'')
    ensures Forward(s, s'')
  {
  }

  // ---- What the seeders report ----

  /** At every moment of every run at most one row of a key is not canceled, and no two seeders created the same row. */
  lemma AtMostOneActive(states: seq<State>, steps: seq<Step>, i: nat, input: Input, x: string, y: string, a: nat,
          b: nat)
    requires Run(states, steps) && i < |states|
    ensures ActiveIn(states[i].rows, input, x) && ActiveIn(states[i].rows, input, y) ==> x == y
    ensures (&& a < |states[i].seeders| && b < |states[i].seeders|
             && states[i].seeders[a].own.Some? && states[i].seeders[a].own == states[i].seeders[b].own) ==> a == b
  {
    RunKeepsInv(states, steps, i, i);
    if ActiveIn(states[i].rows, input, x) && ActiveIn(states[i].rows, input, y) {
      ActiveIsUnique(states[i].rows, input, x, y);
    }
  }

  /** A seeder that returned names a published row of its key, and its own if it reports created. */
  lemma ReturnedIsPublished(states: seq<State>, steps: seq<Step>, i: nat, k: nat)
    requires Run(states, steps) && i < |states| && k < |states[i].seeders| && states[i].seeders[k].place.Returned?
    ensures var s, seeder := states[i], states[i].seeders[k]; (
            && HoldsRow(s, seeder) && s.rows[seeder.current.value.id] == seeder.current.value
            && seeder.current.value.status.Published? && ActiveIn(s.rows, seeder.input, seeder.current.value.id)
            && (seeder.Created() ==>
                  && seeder.current.value.id == seeder.own.value
                  && seeder.own.value in s.creators && s.creators[seeder.own.value] == k))
  {
    RunKeepsInv(states, steps, i, i);
    assert SeederOk(states[i].rows, states[i].seeders[k]);
  }

  /**
   * All seeders of one key that returned, at whatever moments of a run, name the same published row, and at most one
   * reports created.
   */
  lemma ReturnedAgree(states: seq<State>, steps: seq<Step>, i: nat, k: nat, j: nat, l: nat)
    requires Run(states, steps) && i <= j < |states|
    requires k < |states[i].seeders| && states[i].seeders[k].place.Returned?
    requires l < |states[j].seeders| && states[j].seeders[l].place.Returned?
    requires var a, b := states[i].seeders[k].input, states[j].seeders[l].input;
             (a.tenantId, a.buildingId, a.period) == (b.tenantId, b.buildingId, b.period)
    ensures states[i].seeders[k].current == states[j].seeders[l].current
    ensures states[j].seeders[l].current.Some? && states[j].seeders[l].current.value.status.Published?
    ensures states[i].seeders[k].Created() && states[j].seeders[l].Created() ==> k == l
  {
    RunKeepsInv(states, steps, i, j);
    ReturnedIsPublished(states, steps, i, k);
    ReturnedIsPublished(states, steps, j, l);
    ActiveIsUnique(states[j].rows, states[j].seeders[l].input, states[i].seeders[k].current.value.id,
                   states[j].seeders[l].current.value.id);
  }

  /**
   * The findActive after publishing finds the row that the seeder published, as published: neither the throw for a
   * row that disappeared nor the one for an unsupported status can follow.
   */
  lemma RefindsOwnRow(states: seq<State>, steps: seq<Step>, i: nat)
    requires Run(states, steps) && i < |steps| && steps[i].Find? && AtPlace(states[i], steps[i].k, {Refinding})
    ensures var before, after := states[i].seeders[steps[i].k], states[i + 1].seeders[steps[i].k]; (
            && before.current.Some? && after.place.Last? && after.current.Some?
            && after.current.value.id == before.current.value.id && after.current.value.status.Published?)
  {
    var seeder := states[i].seeders[steps[i].k];
    RunKeepsInv(states, steps, i, i);
    assert Next(states[i], states[i + 1], steps[i]);
    assert SeederOk(states[i].rows, seeder);
    assert ActiveIn(states[i].rows, seeder.input, seeder.current.value.id);
    if steps[i].found.Some? {
      ActiveIsUnique(states[i].rows, seeder.input, steps[i].found.value, seeder.current.value.id);
    }
  }

  /** The seeder's own insert made a row in this step. */
  ghost predicate Inserts(s: State, s': State, step: Step, k: nat) {
    step.Create? && step.k == k && step.id !in s.rows && step.id in s'.rows
  }

  /** A successful insert makes a draft with the fields of the input, and from then on the row is the seeder's own. */
  lemma StepCreated(s: State, s': State, step: Step, k: nat)
    requires Next(s, s', step) && k < |s.seeders| && k < |s'.seeders|
    ensures Inserts(s, s', step, k) ==> (
              && s'.rows == s.rows[step.id := s'.rows[step.id]] && s'.seeders[k].own == Some(step.id)
              && IsRowOf(s'.rows[step.id], step.id, s.seeders[k].input) && s'.rows[step.id].status.Draft?)
    ensures !Inserts(s, s', step, k) ==> s'.seeders[k].own == s.seeders[k].own
  {
    if !(step.Create? && NoneActive(s, s.seeders[step.k].input)) {
      OnlyCreateOwns(s, s', step);
    }
  }

  ghost predicate InsertsAt(states: seq<State>, steps: seq<Step>, j: nat, k: nat)
    requires j < |steps| && j + 1 < |states|
  {
    Inserts(states[j], states[j + 1], steps[j], k)
  }

  ghost predicate InsertedBefore(states: seq<State>, steps: seq<Step>, i: nat, k: nat)
    requires i <= |steps| < |states|
  {
    exists j :: 0 <= j < i && InsertsAt(states, steps, j, k)
  }

  lemma InsertedGrows(states: seq<State>, steps: seq<Step>, i: nat, k: nat)
    requires i < |steps| < |states|
    ensures InsertedBefore(states, steps, i + 1, k)
       <==> InsertedBefore(states, steps, i, k) || InsertsAt(states, steps, i, k)
  {
  }

  /** The seeder is still there, and owns a row after the step if it did before or if its insert has just made one. */
  ghost predicate OwnsMore(states: seq<State>, steps: seq<Step>, i: nat, k: nat)
    requires i < |steps| && i + 1 < |states|
  {
    k < |states[i].seeders| == |states[i + 1].seeders| && (
      states[i + 1].seeders[k].own.Some? <==> states[i].seeders[k].own.Some? || InsertsAt(states, steps, i, k))
  }

  lemma CreatedStep(states: seq<State>, steps: seq<Step>, i: nat, k: nat)
    requires Run(states, steps) && i < |steps| && k < |states[i].seeders|
    ensures OwnsMore(states, steps, i, k)
  {
    RunStep(states, steps, i);
    InputsStay(states[i], states[i + 1], steps[i]);
    StepCreated(states[i], states[i + 1], steps[i], k);
  }

  lemma {:induction false} OwnedByInsert(states: seq<State>, steps: seq<Step>, i: nat, k: nat)
    requires i <= |steps| < |states| && k < |states[0].seeders| && states[0].seeders[k].own.None?
    requires forall j :: 0 <= j < i ==> OwnsMore(states, steps, j, k)
    ensures k < |states[i].seeders| && (states[i].seeders[k].own.Some? <==> InsertedBefore(states, steps, i, k))
  {
    if i > 0 {
      OwnedByInsert(states, steps, i - 1, k);
      InsertedGrows(states, steps, i - 1, k);
      assert OwnsMore(states, steps, i - 1, k);
    }
  }

  lemma SeedersStay(states: seq<State>, steps: seq<Step>, i: nat)
    requires Run(states, steps) && i < |states|
    ensures |states[i].seeders| == |states[0].seeders|
  {
    RunKeepsInv(states, steps, 0, i);
  }

  /** In every state of every run, a seeder reports created exactly when an insert of its own made a row. */
  lemma CreatedIff(states: seq<State>, steps: seq<Step>, i: nat, k: nat)
    requires Run(states, steps) && i < |states| && k < |states[i].seeders|
    ensures states[i].seeders[k].Created() <==> InsertedBefore(states, steps, i, k)
  {
    SeedersStay(states, steps, i);
    forall j | 0 <= j < i ensures OwnsMore(states, steps, j, k) {
      SeedersStay(states, steps, j);
      CreatedStep(states, steps, j, k);
    }
    OwnedByInsert(states, steps, i, k);
  }

  // ---- A seeder that nobody disturbs ----

  /** A run that has come to this state. */
  ghost predicate Reaches(states: seq<State>, steps: seq<Step>, s: State) {
    Run(states, steps) && states[|steps|] == s
  }

  /** A run goes on with one more step. */
  lemma Continue(states: seq<State>, steps: seq<Step>, s: State, step: Step)
    requires Run(states, steps) && Next(states[|steps|], s, step)
    ensures Reaches(states + [s], steps + [step], s)
  {
    var longer, taken := states + [s], steps + [step];
    forall i | 0 <= i < |taken| ensures Next(longer[i], longer[i + 1], taken[i]) {
      if i < |steps| {
        assert Next(states[i], states[i + 1], steps[i]);
      }
    }
  }

  /** What the first three steps of such a seeder leave: its draft, checked. */
  ghost predicate HasDraft(s: State, s': State, k: nat, id: string) {
    && k < |s.seeders| == |s'.seeders| && s'.charges == s.charges
    && s'.rows == s.rows[id := DraftOf(s.seeders[k].input, id)]
    && s'.seeders[k] == Seeder(s.seeders[k].input, Checked, Some(DraftOf(s.seeders[k].input, id)), Some(id))
  }

  lemma LoneCreates(s: State, k: nat, id: string) returns (s1: State, s2: State, s3: State)
    requires k < |s.seeders| && s.seeders[k].place.Start? && id !in s.rows && NoneActive(s, s.seeders[k].input)
    ensures Next(s, s1, Find(k, None)) && Next(s1, s2, Create(k, id)) && Next(s2, s3, Validate(k))
    ensures HasDraft(s, s3, k, id)
  {
    s1 := Apply(s, Find(k, None));
    assert NoneActive(s1, s.seeders[k].input);
    s2 := Apply(s1, Create(k, id));
    s3 := Apply(s2, Validate(k));
  }

  /** The next two: the row is published, and the seeder still holds it as it was reviewed. */
  ghost predicate HasPublished(s: State, s': State, k: nat, id: string, publication: Publication)
    requires publication.Some?
  {
    && k < |s.seeders| == |s'.seeders| && s'.charges == s.charges + publication.value.1
    && s'.rows == s.rows[id := PublishedRow(DraftOf(s.seeders[k].input, id), publication)]
    && s'.seeders[k].input == s.seeders[k].input && s'.seeders[k].place.Refinding? && s'.seeders[k].own == Some(id)
  }

  lemma LonePublishes(s: State, s3: State, k: nat, id: string, publication: Publication)
    returns (s4: State, s5: State)
    requires HasDraft(s, s3, k, id) && publication.Some?
    requires CanPublish(ReviewedRow(DraftOf(s.seeders[k].input, id)), s.charges, publication)
    ensures Next(s3, s4, Review(k)) && Next(s4, s5, Publish(k, publication))
    ensures HasPublished(s, s5, k, id, publication)
  {
    s4 := Apply(s3, Review(k));
    s5 := Apply(s4, Publish(k, publication));
  }

  /** The last two: it returned the row, published, and reports created. */
  ghost predicate HasSeeded(s: State, s': State, k: nat, id: string, publication: Publication)
    requires publication.Some?
  {
    && k < |s.seeders| == |s'.seeders| && s'.charges == s.charges + publication.value.1
    && id in s'.rows && s'.rows == s.rows[id := s'.rows[id]]
    && IsRowOf(s'.rows[id], id, s.seeders[k].input) && s'.rows[id].status.Published?
    && s'.rows[id].publicationSnapshot == Some(publication.value.0)
    && s'.seeders[k] == Seeder(s.seeders[k].input, Returned, Some(s'.rows[id]), Some(id)) && s'.seeders[k].Created()
  }

  lemma LoneReturns(s: State, s5: State, k: nat, id: string, publication: Publication)
    returns (s6: State, s7: State)
    requires publication.Some? && HasPublished(s, s5, k, id, publication)
    requires var input := s.seeders[k].input;
             Compatible(PublishedRow(DraftOf(input, id), publication), s.charges + publication.value.1, input)
    ensures Next(s5, s6, Find(k, Some(id))) && Next(s6, s7, Validate(k))
    ensures HasSeeded(s, s7, k, id, publication)
  {
    var row := PublishedRow(DraftOf(s.seeders[k].input, id), publication);
    assert s5.rows[id] == row;
    s6 := Apply(s5, Find(k, Some(id)));
    s7 := Apply(s6, Validate(k));
  }

  lemma ThreeMore(states: seq<State>, steps: seq<Step>, a: Step, s1: State, b: Step, s2: State, c: Step, s3: State)
    requires Run(states, steps) && Next(states[|steps|], s1, a) && Next(s1, s2, b) && Next(s2, s3, c)
    ensures Reaches(states + [s1, s2, s3], steps + [a, b, c], s3)
  {
    TwoMore(states, steps, a, s1, b, s2);
    Continue(states + [s1, s2], steps + [a, b], s3, c);
    assert states + [s1, s2] + [s3] == states + [s1, s2, s3] && steps + [a, b] + [c] == steps + [a, b, c];
  }

  lemma TwoMore(states: seq<State>, steps: seq<Step>, a: Step, s1: State, b: Step, s2: State)
    requires Run(states, steps) && Next(states[|steps|], s1, a) && Next(s1, s2, b)
    ensures Reaches(states + [s1, s2], steps + [a, b], s2)
  {
    Continue(states, steps, s1, a);
    Continue(states + [s1], steps + [a], s2, b);
    assert states + [s1] + [s2] == states + [s1, s2] && steps + [a] + [b] == steps + [a, b];
  }

  /**
   * From any state of any run, on a key without an active row and with the publication of its input, a seeder that
   * takes its seven steps undisturbed creates the row, publishes it and returns created.
   */
  lemma LoneSeederSeeds(states: seq<State>, steps: seq<Step>, s: State, k: nat, id: string, publication: Publication)
    returns (longer: seq<State>, s': State)
    requires Reaches(states, steps, s) && k < |s.seeders| && s.seeders[k].place.Start? && id !in s.rows
    requires FirstSeeding(s.rows, s.charges, s.seeders[k].input, id, publication)
    ensures Reaches(longer, steps + [Find(k, None), Create(k, id), Validate(k)] + [Review(k), Publish(k, publication)]
                            + [Find(k, Some(id)), Validate(k)], s')
    ensures HasSeeded(s, s', k, id, publication)
  {
    FirstIsSeedable(s.rows, s.charges, s.seeders[k].input, id, publication);
    var s1, s2, s3 := LoneCreates(s, k, id);
    ThreeMore(states, steps, Find(k, None), s1, Create(k, id), s2, Validate(k), s3);
    var s4, s5 := LonePublishes(s, s3, k, id, publication);
    var states3, steps3 := states + [s1, s2, s3], steps + [Find(k, None), Create(k, id), Validate(k)];
    TwoMore(states3, steps3, Review(k), s4, Publish(k, publication), s5);
    var s6, s7 := LoneReturns(s, s5, k, id, publication);
    TwoMore(states3 + [s4, s5], steps3 + [Review(k), Publish(k, publication)], Find(k, Some(id)), s6, Validate(k), s7);
    longer, s' := states3 + [s4, s5] + [s6, s7], s7;
  }

  // ---- What the returned row charges ----

  /** The charges of the row add up to the total of the seeder's input. */
  ghost predicate ChargesTotal(s: State, seeder: Seeder) {
    seeder.current.Some? &&
    Sum(ChargedAmounts(ChargesOf(s.charges, seeder.current.value.id, seeder.input))) == seeder.input.totalAmountMinor
  }

  /** A seeder returns only when the row, as it is in the table, is accepted, and its charges add up to the total. */
  lemma ReturnsSeeded(states: seq<State>, steps: seq<Step>, i: nat, k: nat)
    requires Run(states, steps) && i < |steps| && k < |states[i].seeders| && k < |states[i + 1].seeders|
    requires !states[i].seeders[k].place.Returned? && states[i + 1].seeders[k].place.Returned?
    ensures HoldsRow(states[i + 1], states[i + 1].seeders[k])
    ensures var s, seeder := states[i + 1], states[i + 1].seeders[k]; (
            IsSeeded(s.rows[seeder.current.value.id], s.charges, seeder.input) && ChargesTotal(s, seeder))
  {
    var s, seeder := states[i + 1], states[i + 1].seeders[k];
    RunKeepsInv(states, steps, i, i + 1);
    ReturnedIsPublished(states, steps, i + 1, k);
    assert Next(states[i], states[i + 1], steps[i]);
    JustValidated(states[i], s, steps[i], k);
    SeededChargesTotal(s.rows, s.charges, seeder.input, seeder.current.value.id);
  }

  /** Only a validator that accepts the row makes a seeder return. */
  lemma JustValidated(s: State, s': State, step: Step, k: nat)
    requires Next(s, s', step) && k < |s.seeders| && k < |s'.seeders|
    requires !s.seeders[k].place.Returned? && s'.seeders[k].place.Returned?
    ensures s'.charges == s.charges && s'.seeders[k].current.Some?
    ensures Compatible(s'.seeders[k].current.value, s.charges, s'.seeders[k].input)
  {
    OthersUnmoved(s, s', step, k);
  }

  /** Other users leave the charges of the row alone, if the step is theirs. */
  predicate LeavesCharges(s: State, step: Step, id: string, input: Input) {
    step.OtherCharges? ==> ChargesOf(step.charges, id, input) == ChargesOf(s.charges, id, input)
  }

  lemma {:induction false} NoChargesOf(charges: seq<Charge>, id: string, input: Input)
    requires forall c :: c in charges ==> c.liquidationId != Some(id)
    ensures ChargesOf(charges, id, input) == []
  {
    if charges == [] {
    } else {
      NoChargesOf(charges[1..], id, input);
    }
  }

  lemma {:induction false} ForeignCharges(charges: seq<Charge>, more: seq<Charge>, id: string, input: Input)
    requires forall c :: c in more ==> c.liquidationId != Some(id)
    ensures ChargesOf(charges + more, id, input) == ChargesOf(charges, id, input)
  {
    if charges == [] {
      assert charges + more == more;
      NoChargesOf(more, id, input);
    } else {
      ForeignCharges(charges[1..], more, id, input);
      assert (charges + more)[1..] == charges[1..] + more;
    }
  }

  /** Once a row is published, no publication writes charges of it. */
  lemma {:induction false} StepKeepsCharges(s: State, s': State, step: Step, id: string, input: Input)
    requires KeysHold(s.rows) && Next(s, s', step) && id in s.rows && s.rows[id].status.Published?
    requires LeavesCharges(s, step, id, input)
    ensures ChargesOf(s'.charges, id, input) == ChargesOf(s.charges, id, input)
  {
    if step.Publish? && s'.charges != s.charges {
      ForeignCharges(s.charges, step.publication.value.1, id, input);
    }
  }

  /**
   * In every state of every run, the row that a returned seeder names charges exactly the total of its input, unless
   * other users changed the charges of that row.
   */
  lemma {:induction false} ReturnedChargesTotal(states: seq<State>, steps: seq<Step>, i: nat, k: nat)
    requires Run(states, steps) && i < |states| && k < |states[i].seeders| && states[i].seeders[k].place.Returned?
    requires states[i].seeders[k].current.Some?
    requires forall j :: 0 <= j < i ==>
               LeavesCharges(states[j], steps[j], states[i].seeders[k].current.value.id, states[i].seeders[k].input)
    ensures ChargesTotal(states[i], states[i].seeders[k])
  {
    if i == 0 {
    } else {
      var s, s' := states[i - 1], states[i];
      RunKeepsInv(states, steps, i - 1, i);
      assert Next(s, s', steps[i - 1]);
      if s.seeders[k].place.Returned? {
        ReturnedIsPublished(states, steps, i - 1, k);
        ReturnedStays(s, s', steps[i - 1], k);
        ReturnedChargesTotal(states, steps, i - 1, k);
        StepKeepsCharges(s, s', steps[i - 1], s.seeders[k].current.value.id, s.seeders[k].input);
      } else {
        ReturnsSeeded(states, steps, i - 1, k);
      }
    }
  }

  lemma ReturnedStays(s: State, s': State, step: Step, k: nat)
    requires Next(s, s', step) && k < |s.seeders| && k < |s'.seeders| && s.seeders[k].place.Returned?
    ensures s'.seeders[k] == s.seeders[k]
  {
    if s'.seeders[k] != s.seeders[k] {
      OthersUnmoved(s, s', step, k);
    }
  }
}
