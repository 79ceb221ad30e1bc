/** How far a month can overshoot when checks read, decide and write in steps of their own. */
module BudgetRace {
  import opened Options
  import opened Pricing
  import opened Budget

  datatype Place = Idle | Asked | Admitted | Over

  /** What a check knows before it reads the row. */
  datatype Sight = Sight(limits: Limits, month: nat)

  /**
   * What a check under way has seen, the months for which the request passed the calls check and the budget check,
   * and what its last check has decided to write into the row of markMonth but not written yet.
   */
  datatype Request = Request(
    place: Place, seen: Option<Sight>, callsMonth: nat, costMonth: nat, mark: Mark, markMonth: nat)

  /** weight is the exact weight of what was tracked in a month. */
  datatype State = State(
    limits: Limits, month: nat, rows: map<nat, Usage>, weight: map<nat, nat>, requests: seq<Request>)

  /**
   * What does not change: the configuration, the most requests in flight, the most of them past the first look of
   * their budget check, the dearest request, and the largest budget ever set.
   */
  datatype World = World(config: Config, inFlight: nat, spending: nat, maxCost: nat, maxBudget: int, callsLimit: int)

  datatype Step =
    | SeeLimits(r: nat)
    | ReadCalls(r: nat)
    | ReadCost(r: nat)
    | WriteMark(r: nat, now: int)
    | Track(r: nat, month: nat, model: string, inputTokens: nat, outputTokens: nat)
    | Drop(r: nat)
    | NextMonth
    | SetBudget(budgetCents: int)

  function Row(s: State, month: nat): Usage {
    if month in s.rows then s.rows[month] else FRESH
  }

  function WeightOf(s: State, month: nat): nat {
    if month in s.weight then s.weight[month] else 0
  }

  /** The request has passed the calls check and may still be tracked. */
  predicate Passed(request: Request) {
    request.place.Asked? || request.place.Admitted?
  }

  /** The two things that are counted and limited; each has its check. */
  datatype Meter = CallsMeter | CostMeter

  /** The request has at least begun the meter's check, and may still be tracked. */
  predicate Busy(meter: Meter, request: Request) {
    match meter
    case CallsMeter => Passed(request) || (request.place.Idle? && request.seen.Some?)
    case CostMeter => request.place.Admitted? || (request.place.Asked? && request.seen.Some?)
  }

  function Total(meter: Meter, requests: seq<Request>): nat {
    if requests == [] then 0 else One(Busy(meter, requests[0])) + Total(meter, requests[1..])
  }

  function One(b: bool): nat {
    if b then 1 else 0
  }

  function Most(w: World, meter: Meter): nat {
    match meter
    case CallsMeter => w.inFlight
    case CostMeter => w.spending
  }

  predicate AtPlace(s: State, r: nat, place: Place) {
    r < |s.requests| && s.requests[r].place == place
  }

  predicate Enabled(w: World, s: State, step: Step) {
    match step
    case SeeLimits(r) =>
      && r < |s.requests| && s.requests[r].seen.None? && s.requests[r].mark.NoMark?
      && ((AtPlace(s, r, Idle) && Total(CallsMeter, s.requests) < w.inFlight)
          || (AtPlace(s, r, Asked) && Total(CostMeter, s.requests) < w.spending))
    case ReadCalls(r) => AtPlace(s, r, Idle) && s.requests[r].seen.Some?
    case ReadCost(r) => AtPlace(s, r, Asked) && s.requests[r].seen.Some?
    case WriteMark(r, _) => r < |s.requests| && !s.requests[r].mark.NoMark?
    case Track(r, month, model, inputTokens, outputTokens) =>
      && AtPlace(s, r, Admitted) && s.requests[r].mark.NoMark? && s.requests[r].costMonth <= month <= s.month
      && TokenCost(model, inputTokens, outputTokens) <= w.maxCost
    case Drop(r) => r < |s.requests| && (Busy(CallsMeter, s.requests[r]) || !s.requests[r].mark.NoMark?)
    case NextMonth => true
    case SetBudget(budgetCents) => budgetCents <= w.maxBudget
  }

  function Moved(s: State, r: nat, request: Request): State
    requires r < |s.requests|
  {
    s.(requests := s.requests[r := request])
  }

  function Apply(w: World, s: State, step: Step): State
    requires Enabled(w, s, step)
  {
    match step
    case SeeLimits(r) => Moved(s, r, s.requests[r].(seen := Some(Sight(s.limits, s.month))))
    case ReadCalls(r) =>
      var sight := s.requests[r].seen.value;
      var u := Row(s, sight.month);
      Moved(s, r, Request(if CallsAllow(w.config, sight.limits, u) then Asked else Over, None, sight.month, sight.month,
                          CallsMark(sight.limits, u), sight.month))
    case ReadCost(r) =>
      var sight := s.requests[r].seen.value;
      var u := Row(s, sight.month);
      Moved(s, r, Request(if BudgetAllows(w.config, sight.limits, u) then Admitted else Over, None,
                          s.requests[r].callsMonth, sight.month, BudgetMark(w.config, sight.limits, u), sight.month))
    case WriteMark(r, now) =>
      var request := s.requests[r];
      Moved(s.(rows := s.rows[request.markMonth := WithMark(Row(s, request.markMonth), request.mark, now)]),
            r, request.(mark := NoMark))
    case Track(r, month, model, inputTokens, outputTokens) =>
      Moved(s.(rows := s.rows[month := AfterTrack(Row(s, month), model, inputTokens, outputTokens)],
               weight := s.weight[month := WeightOf(s, month) + Weight(model, inputTokens, outputTokens)]),
            r, s.requests[r].(place := Over))
    case Drop(r) => Moved(s, r, s.requests[r].(place := Over, seen := None, mark := NoMark))
    case NextMonth => s.(month := s.month + 1)
    case SetBudget(budgetCents) => s.(limits := s.limits.(budgetCents := budgetCents))
  }

  predicate Next(w: World, s: State, s': State, step: Step) {
    Enabled(w, s, step) && s' == Apply(w, s, step)
  }

  predicate Init(w: World, s: State) {
    && s.rows == map[] && s.weight == map[]
    && LimitsOk(w, s.limits)
    && forall r :: 0 <= r < |s.requests| ==>
        s.requests[r].place.Idle? && s.requests[r].mark.NoMark? && s.requests[r].seen.None?
  }

  predicate StepAt(w: World, states: seq<State>, steps: seq<Step>, i: nat)
    requires |states| == |steps| + 1 && i < |steps|
  {
    Next(w, states[i], states[i + 1], steps[i])
  }

  predicate Run(w: World, states: seq<State>, steps: seq<Step>) {
    && |states| == |steps| + 1
    && Init(w, states[0])
    && forall i: nat :: i < |steps| ==> StepAt(w, states, steps, i)
  }

  // ---- Counting ----

  predicate MovesRequest(step: Step) {
    !step.NextMonth? && !step.SetBudget?
  }

  /** The meter's check is under way and looks at an earlier month. */
  predicate Overlooks(request: Request, month: nat) {
    request.seen.Some? && request.seen.value.month < month
  }

  /** The request may be tracked in the month without another look of the meter's check at it. */
  predicate Threatens(meter: Meter, request: Request, month: nat) {
    match meter
    case CallsMeter =>
      (Passed(request) && request.callsMonth <= month) || (request.place.Idle? && Overlooks(request, month))
    case CostMeter =>
      (request.place.Admitted? && request.costMonth <= month) || (request.place.Asked? && Overlooks(request, month))
  }

  function Count(meter: Meter, requests: seq<Request>, month: nat): nat {
    if requests == [] then 0 else One(Threatens(meter, requests[0], month)) + Count(meter, requests[1..], month)
  }

  lemma {:induction false} CountUpdate(meter: Meter, requests: seq<Request>, month: nat, r: nat, request: Request)
    requires r < |requests|
    ensures Count(meter, requests[r := request], month) + One(Threatens(meter, requests[r], month))
         == Count(meter, requests, month) + One(Threatens(meter, request, month))
  {
    if r == 0 {
      assert requests[0 := request][1..] == requests[1..];
    } else {
      CountUpdate(meter, requests[1..], month, r - 1, request);
      assert requests[r := request][1..] == requests[1..][r - 1 := request];
    }
  }

  lemma {:induction false} TotalUpdate(meter: Meter, requests: seq<Request>, r: nat, request: Request)
    requires r < |requests|
    ensures Total(meter, requests[r := request]) + One(Busy(meter, requests[r]))
         == Total(meter, requests) + One(Busy(meter, request))
  {
    if r == 0 {
      assert requests[0 := request][1..] == requests[1..];
    } else {
      TotalUpdate(meter, requests[1..], r - 1, request);
      assert requests[r := request][1..] == requests[1..][r - 1 := request];
    }
  }

  lemma {:induction false} CountAtMostTotal(meter: Meter, requests: seq<Request>, month: nat)
    ensures Count(meter, requests, month) <= Total(meter, requests)
  {
    if requests == [] {
    } else {
      CountAtMostTotal(meter, requests[1..], month);
    }
  }

  lemma {:induction false} NoneBusy(meter: Meter, requests: seq<Request>)
    requires forall r :: 0 <= r < |requests| ==> requests[r].place.Idle? && requests[r].seen.None?
    ensures Total(meter, requests) == 0
  {
    if requests == [] {
    } else {
      NoneBusy(meter, requests[1..]);
    }
  }

  // ---- The invariant ----

  function Below(cap: int): nat {
    if cap > 0 then cap - 1 else 0
  }

  /** The room a month has left is enough for every request that may still be tracked in it. */
  predicate CostRoom(w: World, s: State, month: nat) {
    Row(s, month).costCents + Count(CostMeter, s.requests, month) * w.maxCost
    <= Below(w.maxBudget) + w.spending * w.maxCost
  }

  predicate CallsRoom(w: World, s: State, month: nat) {
    Limited(w.callsLimit) ==>
      Row(s, month).calls + Count(CallsMeter, s.requests, month) <= Below(w.callsLimit) + w.inFlight
  }

  /** The tracked cents are within half a cent a call of the exact cost. */
  predicate CostNear(s: State, month: nat) {
    -5000 * Row(s, month).calls <= WeightOf(s, month) - 10000 * Row(s, month).costCents <= 5000 * Row(s, month).calls
  }

  predicate LimitsOk(w: World, limits: Limits) {
    limits.budgetCents <= w.maxBudget && limits.callsLimit == w.callsLimit
  }

  /** What a request remembers is of limits that were set, and of months in order that have begun. */
  predicate RequestOk(w: World, request: Request, month: nat) {
    && (request.seen.Some? ==> LimitsOk(w, request.seen.value.limits) && request.seen.value.month <= month)
    && (Passed(request) ==> request.callsMonth <= request.costMonth <= month)
    && (request.place.Asked? && request.seen.Some? ==> request.callsMonth <= request.seen.value.month)
    && (!request.mark.NoMark? ==> request.markMonth <= month)
  }

  ghost predicate Inv(w: World, s: State) {
    && (forall meter :: Total(meter, s.requests) <= Most(w, meter))
    && LimitsOk(w, s.limits)
    && (forall r :: 0 <= r < |s.requests| ==> RequestOk(w, s.requests[r], s.month))
    && (forall month :: month in s.rows || month in s.weight ==> month <= s.month)
    && (forall month :: CostRoom(w, s, month))
    && (forall month :: CallsRoom(w, s, month))
  }

  lemma Times(a: nat, b: nat, m: nat)
    requires a <= b
    ensures a * m <= b * m && (a + 1) * m == a * m + m
  {
  }

  lemma InitInv(w: World, s: State)
    requires Init(w, s)
    ensures Inv(w, s)
  {
    NoneBusy(CallsMeter, s.requests);
    NoneBusy(CostMeter, s.requests);
    forall month ensures CostRoom(w, s, month) && CallsRoom(w, s, month) {
      CountAtMostTotal(CostMeter, s.requests, month);
      CountAtMostTotal(CallsMeter, s.requests, month);
      Times(Count(CostMeter, s.requests, month), w.spending, w.maxCost);
    }
  }

  lemma ReadCostRoom(w: World, s: State, s': State, step: Step, month: nat)
    requires !w.config.softDegrade && Inv(w, s) && Next(w, s, s', step) && step.ReadCost?
    ensures CostRoom(w, s', month)
  {
    assert CostRoom(w, s, month);
    CountUpdate(CostMeter, s.requests, month, step.r, s'.requests[step.r]);
    TotalUpdate(CostMeter, s.requests, step.r, s'.requests[step.r]);
    CountAtMostTotal(CostMeter, s'.requests, month);
    var before, after := Count(CostMeter, s.requests, month), Count(CostMeter, s'.requests, month);
    if before < after {
      Times(after, w.spending, w.maxCost);
    } else {
      Times(after, before, w.maxCost);
    }
  }

  /** A month that has not begun has room for everyone. */
  lemma SeeCostRoom(w: World, s: State, s': State, step: Step, month: nat)
    requires Inv(w, s) && Next(w, s, s', step) && step.SeeLimits?
    ensures CostRoom(w, s', month)
  {
    assert CostRoom(w, s, month);
    CountUpdate(CostMeter, s.requests, month, step.r, s'.requests[step.r]);
    TotalUpdate(CostMeter, s.requests, step.r, s'.requests[step.r]);
    CountAtMostTotal(CostMeter, s'.requests, month);
    Times(Count(CostMeter, s'.requests, month), w.spending, w.maxCost);
  }

  lemma TrackCostRoom(w: World, s: State, s': State, step: Step, month: nat)
    requires Inv(w, s) && Next(w, s, s', step) && step.Track?
    ensures CostRoom(w, s', month)
  {
    assert CostRoom(w, s, month);
    CountUpdate(CostMeter, s.requests, month, step.r, s'.requests[step.r]);
    Times(Count(CostMeter, s'.requests, month), Count(CostMeter, s.requests, month), w.maxCost);
  }

  lemma OtherCostRoom(w: World, s: State, s': State, step: Step, month: nat)
    requires Inv(w, s) && Next(w, s, s', step) && !step.SeeLimits? && !step.ReadCost? && !step.Track?
    ensures CostRoom(w, s', month)
  {
    assert CostRoom(w, s, month);
    if MovesRequest(step) {
      CountUpdate(CostMeter, s.requests, month, step.r, s'.requests[step.r]);
      Times(Count(CostMeter, s'.requests, month), Count(CostMeter, s.requests, month), w.maxCost);
    }
  }

  lemma StepCostRoom(w: World, s: State, s': State, step: Step, month: nat)
    requires !w.config.softDegrade && Inv(w, s) && Next(w, s, s', step)
    ensures CostRoom(w, s', month)
  {
    if step.SeeLimits? {
      SeeCostRoom(w, s, s', step, month);
    } else if step.ReadCost? {
      ReadCostRoom(w, s, s', step, month);
    } else if step.Track? {
      TrackCostRoom(w, s, s', step, month);
    } else {
      OtherCostRoom(w, s, s', step, month);
    }
  }

  lemma ReadCallsRoom(w: World, s: State, s': State, step: Step, month: nat)
    requires !w.config.softDegrade && Inv(w, s) && Next(w, s, s', step) && step.ReadCalls?
    ensures CallsRoom(w, s', month)
  {
    assert CallsRoom(w, s, month);
    CountUpdate(CallsMeter, s.requests, month, step.r, s'.requests[step.r]);
    TotalUpdate(CallsMeter, s.requests, step.r, s'.requests[step.r]);
    CountAtMostTotal(CallsMeter, s'.requests, month);
  }

  lemma SeeCallsRoom(w: World, s: State, s': State, step: Step, month: nat)
    requires Inv(w, s) && Next(w, s, s', step) && step.SeeLimits?
    ensures CallsRoom(w, s', month)
  {
    assert CallsRoom(w, s, month);
    CountUpdate(CallsMeter, s.requests, month, step.r, s'.requests[step.r]);
    TotalUpdate(CallsMeter, s.requests, step.r, s'.requests[step.r]);
    CountAtMostTotal(CallsMeter, s'.requests, month);
  }

  lemma OtherCallsRoom(w: World, s: State, s': State, step: Step, month: nat)
    requires Inv(w, s) && Next(w, s, s', step) && !step.SeeLimits? && !step.ReadCalls?
    ensures CallsRoom(w, s', month)
  {
    assert CallsRoom(w, s, month);
    if MovesRequest(step) {
      CountUpdate(CallsMeter, s.requests, month, step.r, s'.requests[step.r]);
    }
  }

  lemma StepCallsRoom(w: World, s: State, s': State, step: Step, month: nat)
    requires !w.config.softDegrade && Inv(w, s) && Next(w, s, s', step)
    ensures CallsRoom(w, s', month)
  {
    if step.SeeLimits? {
      SeeCallsRoom(w, s, s', step, month);
    } else if step.ReadCalls? {
      ReadCallsRoom(w, s, s', step, month);
    } else {
      OtherCallsRoom(w, s, s', step, month);
    }
  }

  lemma StepCostNear(w: World, s: State, s': State, step: Step, month: nat)
    requires CostNear(s, month) && Next(w, s, s', step)
    ensures CostNear(s', month)
  {
    if step.Track? {
      TokenCostNear(step.model, step.inputTokens, step.outputTokens);
    }
  }

  lemma {:induction false} StepTotal(w: World, s: State, s': State, step: Step, meter: Meter)
    requires Inv(w, s) && Next(w, s, s', step)
    ensures Total(meter, s'.requests) <= Most(w, meter)
  {
    assert Total(meter, s.requests) <= Most(w, meter);
    if MovesRequest(step) {
      TotalUpdate(meter, s.requests, step.r, s'.requests[step.r]);
    }
  }

  lemma StepMonths(w: World, s: State, s': State, step: Step)
    requires Inv(w, s) && Next(w, s, s', step)
    ensures LimitsOk(w, s'.limits)
    ensures forall r :: 0 <= r < |s'.requests| ==> RequestOk(w, s'.requests[r], s'.month)
    ensures forall month :: month in s'.rows || month in s'.weight ==> month <= s'.month
  {
  }

  lemma StepKeepsInv(w: World, s: State, s': State, step: Step)
    requires !w.config.softDegrade && Inv(w, s) && Next(w, s, s', step)
    ensures Inv(w, s')
  {
    StepTotal(w, s, s', step, CallsMeter);
    StepTotal(w, s, s', step, CostMeter);
    StepMonths(w, s, s', step);
    forall month ensures CostRoom(w, s', month) && CallsRoom(w, s', month) {
      StepCostRoom(w, s, s', step, month);
      StepCallsRoom(w, s, s', step, month);
    }
  }

  lemma {:induction false} RunKeepsInv(w: World, states: seq<State>, steps: seq<Step>, i: nat)
    requires !w.config.softDegrade && Run(w, states, steps) && i < |states|
    ensures Inv(w, states[i])
  {
    if i == 0 {
      InitInv(w, states[0]);
    } else {
      RunKeepsInv(w, states, steps, i - 1);
      RunStep(w, states, steps, i - 1);
      StepKeepsInv(w, states[i - 1], states[i], steps[i - 1]);
    }
  }

  // ---- What holds over every run ----

  /**
   * With the hard stop, no month ever costs more than the budget less a cent plus what the requests past the first
   * look of their budget check may add; nor does it count more calls than the limit less one plus those in flight.
   */
  lemma OvershootBound(w: World, states: seq<State>, steps: seq<Step>, i: nat, month: nat)
    requires !w.config.softDegrade && Run(w, states, steps) && i < |states|
    ensures Row(states[i], month).costCents <= Below(w.maxBudget) + w.spending * w.maxCost
    ensures Limited(w.callsLimit) ==> Row(states[i], month).calls <= Below(w.callsLimit) + w.inFlight
    // In numbers.
    ensures 1 <= w.maxBudget ==> Row(states[i], month).costCents <= w.maxBudget - 1 + w.spending * w.maxCost
    ensures 1 <= w.callsLimit < 9999 ==> Row(states[i], month).calls <= w.callsLimit - 1 + w.inFlight
  {
    RunKeepsInv(w, states, steps, i);
    assert CostRoom(w, states[i], month) && CallsRoom(w, states[i], month);
    Times(0, Count(CostMeter, states[i].requests, month), w.maxCost);
  }

  /**
   * However many requests were rounded one by one, the tracked cents stay within half a cent a call of the
   * exact cost.
   */
  lemma {:induction false} CostDrift(w: World, states: seq<State>, steps: seq<Step>, i: nat, month: nat)
    requires Run(w, states, steps) && i < |states|
    ensures var u, exact := Row(states[i], month), WeightOf(states[i], month);
            -5000 * u.calls <= exact - 10000 * u.costCents <= 5000 * u.calls
  {
    if i == 0 {
    } else {
      CostDrift(w, states, steps, i - 1, month);
      RunStep(w, states, steps, i - 1);
      StepCostNear(w, states[i - 1], states[i], steps[i - 1], month);
    }
  }

  lemma StepGrows(w: World, s: State, s': State, step: Step, month: nat)
    requires Next(w, s, s', step)
    ensures Grows(Row(s, month), Row(s', month))
  {
  }

  lemma GrowsChain(u: Usage, v: Usage, x: Usage)
    requires Grows(u, v) && Grows(v, x)
    ensures Grows(u, x)
  {
  }

  lemma RunStep(w: World, states: seq<State>, steps: seq<Step>, i: nat)
    requires Run(w, states, steps) && i < |steps|
    ensures Next(w, states[i], states[i + 1], steps[i])
  {
    assert StepAt(w, states, steps, i);
  }

  /**
   * Between any two states of a run the counters of a month do not fall and no mark is cleared, whatever
   * budgets are set.
   */
  lemma {:induction false} RowsGrow(w: World, states: seq<State>, steps: seq<Step>, i: nat, j: nat, month: nat)
    requires Run(w, states, steps) && i <= j < |states|
    ensures Grows(Row(states[i], month), Row(states[j], month))
    decreases j
  {
    if i == j {
    } else {
      RowsGrow(w, states, steps, i, j - 1, month);
      RunStep(w, states, steps, j - 1);
      StepGrows(w, states[j - 1], states[j], steps[j - 1], month);
      GrowsChain(Row(states[i], month), Row(states[j - 1], month), Row(states[j], month));
    }
  }

  /** Under these limits the month has reached one of its caps, and is not blocked yet. */
  predicate Reached(limits: Limits, s: State, month: nat) {
    Row(s, month).blockedAt.None? && (BudgetSpent(limits, Row(s, month)) || CallsSpent(limits, Row(s, month)))
  }

  /**
   * A check that saw the limits in state j, while the month was current, and the row in state k, found a cap
   * reached.
   */
  predicate SawCap(states: seq<State>, j: nat, k: nat, month: nat)
    requires j < |states| && k < |states|
  {
    states[j].month == month && Reached(states[j].limits, states[k], month)
  }

  ghost predicate Caused(states: seq<State>, i: nat, month: nat)
    requires i <= |states|
  {
    exists j, k :: 0 <= j < k < i && SawCap(states, j, k, month)
  }

  /** What a check has seen is what was so in some state before. */
  ghost predicate SeenBefore(states: seq<State>, i: nat, sight: Sight)
    requires i <= |states|
  {
    exists j :: 0 <= j < i && Sight(states[j].limits, states[j].month) == sight
  }

  /** Every block, and every block about to be written, has its cause among the states before. */
  ghost predicate BlocksCaused(states: seq<State>, i: nat)
    requires i < |states|
  {
    && (forall month: nat :: Row(states[i], month).blockedAt.Some? ==> Caused(states, i, month))
    && (forall r :: 0 <= r < |states[i].requests| && states[i].requests[r].mark.BlockedMark? ==>
          Caused(states, i, states[i].requests[r].markMonth))
    && (forall r :: 0 <= r < |states[i].requests| && states[i].requests[r].seen.Some? ==>
          SeenBefore(states, i, states[i].requests[r].seen.value))
  }

  /** A request has a block to write only after a read that found a cap reached. */
  predicate BlockKept(s: State, request: Request, request': Request) {
    request'.mark.BlockedMark? ==>
      || (request.mark.BlockedMark? && request'.markMonth == request.markMonth)
      || (request.seen.Some? && request'.markMonth == request.seen.value.month
          && Reached(request.seen.value.limits, s, request'.markMonth))
  }

  lemma StepBlocks(w: World, s: State, s': State, step: Step)
    requires Next(w, s, s', step)
    ensures |s'.requests| == |s.requests|
    ensures forall month: nat :: Row(s', month).blockedAt != Row(s, month).blockedAt ==> WritesBlock(s, step, month)
    ensures forall r :: 0 <= r < |s.requests| ==> BlockKept(s, s.requests[r], s'.requests[r])
    ensures forall r :: 0 <= r < |s.requests| && s'.requests[r].seen.Some? ==>
              s'.requests[r].seen == s.requests[r].seen || s'.requests[r].seen.value == Sight(s.limits, s.month)
  {
  }

  lemma CausedLater(states: seq<State>, i: nat, month: nat)
    requires i < |states| && Caused(states, i, month)
    ensures Caused(states, i + 1, month)
  {
    var j, k :| 0 <= j < k < i && SawCap(states, j, k, month);
    assert SawCap(states, j, k, month);
  }

  lemma CausedNow(states: seq<State>, i: nat, sight: Sight)
    requires i < |states| && SeenBefore(states, i, sight) && Reached(sight.limits, states[i], sight.month)
    ensures Caused(states, i + 1, sight.month)
  {
    var j :| 0 <= j < i && Sight(states[j].limits, states[j].month) == sight;
    assert SawCap(states, j, i, sight.month);
  }

  lemma SeenLater(states: seq<State>, i: nat, sight: Sight)
    requires i < |states| && (SeenBefore(states, i, sight) || sight == Sight(states[i].limits, states[i].month))
    ensures SeenBefore(states, i + 1, sight)
  {
  }

  lemma StepBlocksCaused(w: World, states: seq<State>, i: nat, step: Step)
    requires i + 1 < |states| && BlocksCaused(states, i) && Next(w, states[i], states[i + 1], step)
    ensures BlocksCaused(states, i + 1)
  {
    var s, s' := states[i], states[i + 1];
    StepBlocks(w, s, s', step);
    forall month: nat | Row(s', month).blockedAt.Some? ensures Caused(states, i + 1, month) {
      CausedLater(states, i, month);
    }
    forall r | 0 <= r < |s'.requests| && s'.requests[r].mark.BlockedMark?
      ensures Caused(states, i + 1, s'.requests[r].markMonth)
    {
      assert BlockKept(s, s.requests[r], s'.requests[r]);
      if s.requests[r].mark.BlockedMark? && s'.requests[r].markMonth == s.requests[r].markMonth {
        CausedLater(states, i, s'.requests[r].markMonth);
      } else {
        CausedNow(states, i, s.requests[r].seen.value);
      }
    }
    forall r | 0 <= r < |s'.requests| && s'.requests[r].seen.Some?
      ensures SeenBefore(states, i + 1, s'.requests[r].seen.value)
    {
      SeenLater(states, i, s'.requests[r].seen.value);
    }
  }

  lemma {:induction false} RunBlocksCaused(w: World, states: seq<State>, steps: seq<Step>, i: nat)
    requires Run(w, states, steps) && i < |states|
    ensures BlocksCaused(states, i)
  {
    if i == 0 {
    } else {
      RunBlocksCaused(w, states, steps, i - 1);
      RunStep(w, states, steps, i - 1);
      StepBlocksCaused(w, states, i - 1, steps[i - 1]);
    }
  }

  /** A month is blocked only after some check could find that it had reached a cap under the limits it had seen. */
  lemma BlockedHasCause(w: World, states: seq<State>, steps: seq<Step>, i: nat, month: nat)
    requires Run(w, states, steps) && i < |states| && Row(states[i], month).blockedAt.Some?
    ensures exists j, k :: 0 <= j < k < i && SawCap(states, j, k, month) && states[j].month == month && (
              var limits, u := states[j].limits, Row(states[k], month);
              && u.blockedAt.None?
              && (|| limits.budgetCents <= u.costCents
                  || (limits.callsLimit != 0 && limits.callsLimit < 9999 && limits.callsLimit <= u.calls)))
  {
    RunBlocksCaused(w, states, steps, i);
    assert Caused(states, i, month);
  }

  /** The step writes the block of the month. */
  predicate WritesBlock(s: State, step: Step, month: nat) {
    && step.WriteMark? && step.r < |s.requests|
    && s.requests[step.r].mark.BlockedMark? && s.requests[step.r].markMonth == month
  }

  /**
   * A block that is there is moved exactly by the write of another check, one that could read the row before it
   * was blocked.
   */
  lemma BlockMovesIff(w: World, states: seq<State>, steps: seq<Step>, i: nat, month: nat)
    requires Run(w, states, steps) && i < |steps| && Row(states[i], month).blockedAt.Some?
    ensures Row(states[i + 1], month).blockedAt != Row(states[i], month).blockedAt <==>
            WritesBlock(states[i], steps[i], month) && Row(states[i], month).blockedAt != Some(steps[i].now)
    ensures WritesBlock(states[i], steps[i], month) ==> exists j, k :: 0 <= j < k < i && SawCap(states, j, k, month)
  {
    RunStep(w, states, steps, i);
    StepBlocks(w, states[i], states[i + 1], steps[i]);
    RunBlocksCaused(w, states, steps, i);
    assert WritesBlock(states[i], steps[i], month) ==> Caused(states, i, month);
  }

  /** Once blocked, a month admits nobody any more, even when the budget has been raised since. */
  lemma BlockedMonthAdmitsNone(w: World, states: seq<State>, steps: seq<Step>, i: nat, j: nat)
    requires !w.config.softDegrade && Run(w, states, steps) && i <= j < |steps|
    requires steps[j].ReadCost? && Enabled(w, states[j], steps[j])
    requires Row(states[i], states[j].requests[steps[j].r].seen.value.month).blockedAt.Some?
    ensures AtPlace(states[j + 1], steps[j].r, Over)
  {
    RowsGrow(w, states, steps, i, j, states[j].requests[steps[j].r].seen.value.month);
    RunStep(w, states, steps, j);
  }
}
