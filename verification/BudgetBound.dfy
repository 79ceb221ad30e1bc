/** Runs that reach the overshoot bounds, and a run that moves a block. */
module BudgetBound {
  import opened Options
  import opened Pricing
  import opened Budget
  import opened BudgetRace

  ghost predicate Reaches(w: World, states: seq<State>, steps: seq<Step>, s: State) {
    Run(w, states, steps) && states[|states| - 1] == s
  }

  /** A run goes on by any enabled step. */
  lemma Extend(w: World, states: seq<State>, steps: seq<Step>, s: State, step: Step)
    returns (states': seq<State>, steps': seq<Step>)
    requires Reaches(w, states, steps, s) && Enabled(w, s, step)
    ensures Reaches(w, states', steps', Apply(w, s, step))
    ensures states' == states + [Apply(w, s, step)] && steps' == steps + [step]
  {
    states', steps' := states + [Apply(w, s, step)], steps + [step];
    forall i: nat | i < |steps'| ensures StepAt(w, states', steps', i) {
      if i < |steps| {
        assert StepAt(w, states, steps, i);
      }
    }
  }

  /** Output tokens of gpt-4.1-nano that cost exactly some cents. */
  lemma ExactCost(cents: nat)
    ensures TokenCost("gpt-4.1-nano", 0, 250 * cents) == cents
  {
    assert Weight("gpt-4.1-nano", 0, 250 * cents) == 10000 * cents;
  }

  function Standing(place: Place): Request {
    Request(place, None, 0, 0, NoMark, 0)
  }

  function PlaceAt(over: nat, admitted: nat, asked: nat, r: nat): Place {
    if r < over then Over
    else if r < over + admitted then Admitted
    else if r < over + admitted + asked then Asked
    else Idle
  }

  /** Some requests over, then some admitted, then some past the calls check, the others idle. */
  function Requests(over: nat, admitted: nat, asked: nat, idle: nat): (requests: seq<Request>)
    ensures |requests| == over + admitted + asked + idle
    ensures forall r :: 0 <= r < |requests| ==> requests[r] == Standing(PlaceAt(over, admitted, asked, r))
  {
    seq(over + admitted + asked + idle, r requires 0 <= r => Standing(PlaceAt(over, admitted, asked, r)))
  }

  lemma {:induction false} TotalCounts(meter: Meter, requests: seq<Request>, over: nat, admitted: nat, asked: nat)
    requires forall r :: 0 <= r < |requests| ==> requests[r] == Standing(PlaceAt(over, admitted, asked, r))
    requires over + admitted + asked <= |requests|
    ensures Total(meter, requests) == if meter.CallsMeter? then admitted + asked else admitted
  {
    if requests == [] {
    } else if over > 0 {
      TotalCounts(meter, requests[1..], over - 1, admitted, asked);
    } else if admitted > 0 {
      TotalCounts(meter, requests[1..], 0, admitted - 1, asked);
    } else {
      TotalCounts(meter, requests[1..], 0, 0, if asked > 0 then asked - 1 else 0);
    }
  }

  /** How many requests stand where, and what the month has cost and counted. */
  datatype Shape = Shape(over: nat, admitted: nat, asked: nat, idle: nat, used: nat, calls: nat)

  predicate HasShape(w: World, s: State, x: Shape) {
    && s.limits == Limits(w.maxBudget, w.callsLimit) && s.month == 0
    && s.requests == Requests(x.over, x.admitted, x.asked, x.idle)
    && Row(s, 0).costCents == x.used && Row(s, 0).calls == x.calls && Row(s, 0).blockedAt.None?
  }

  /** Writing a warning, if one is to be written, changes nothing that matters. */
  lemma Settle(w: World, states: seq<State>, steps: seq<Step>, s: State, r: nat)
    returns (states': seq<State>, steps': seq<Step>, s': State)
    requires Reaches(w, states, steps, s) && r < |s.requests| && s.requests[r].markMonth == 0
    requires !s.requests[r].mark.BlockedMark?
    ensures Reaches(w, states', steps', s')
    ensures s'.requests == s.requests[r := s.requests[r].(mark := NoMark)] && s'.limits == s.limits
    ensures s'.month == s.month
    ensures Row(s', 0).costCents == Row(s, 0).costCents && Row(s', 0).calls == Row(s, 0).calls
    ensures Row(s', 0).blockedAt == Row(s, 0).blockedAt
  {
    states', steps', s' := states, steps, s;
    if s.requests[r].mark.NoMark? {
      assert s.requests[r := s.requests[r].(mark := NoMark)] == s.requests;
    } else {
      states', steps' := Extend(w, states, steps, s, WriteMark(r, 0));
      s' := Apply(w, s, WriteMark(r, 0));
    }
  }

  /** The month lets a request through the check. */
  predicate HasRoom(w: World, s: State, meter: Meter) {
    && s.limits == Limits(w.maxBudget, w.callsLimit) && s.month == 0 && Row(s, 0).blockedAt.None?
    && match meter
       case CallsMeter => Limited(w.callsLimit) ==> Row(s, 0).calls < w.callsLimit
       case CostMeter => Row(s, 0).costCents < w.maxBudget
  }

  /** A request goes through one of its checks. */
  lemma PassCheck(w: World, states: seq<State>, steps: seq<Step>, s: State, r: nat, meter: Meter)
    returns (states': seq<State>, steps': seq<Step>, s': State)
    requires Reaches(w, states, steps, s) && HasRoom(w, s, meter) && r < |s.requests|
    requires Total(meter, s.requests) < Most(w, meter)
    requires s.requests[r] == Standing(if meter.CallsMeter? then Idle else Asked)
    ensures Reaches(w, states', steps', s') && s'.limits == s.limits && s'.month == s.month
    ensures s'.requests == s.requests[r := Standing(if meter.CallsMeter? then Asked else Admitted)]
    ensures Row(s', 0).costCents == Row(s, 0).costCents && Row(s', 0).calls == Row(s, 0).calls
    ensures Row(s', 0).blockedAt.None?
  {
    states', steps' := Extend(w, states, steps, s, SeeLimits(r));
    s' := Apply(w, s, SeeLimits(r));
    var step := if meter.CallsMeter? then ReadCalls(r) else ReadCost(r);
    states', steps' := Extend(w, states', steps', s', step);
    s' := Apply(w, s', step);
    states', steps', s' := Settle(w, states', steps', s', r);
  }

  /** The next idle request passes the calls check. */
  lemma AskOne(w: World, states: seq<State>, steps: seq<Step>, s: State, x: Shape)
    returns (states': seq<State>, steps': seq<Step>, s': State)
    requires Reaches(w, states, steps, s) && HasShape(w, s, x) && HasRoom(w, s, CallsMeter)
    requires x.idle > 0 && x.admitted + x.asked < w.inFlight
    ensures Reaches(w, states', steps', s') && HasShape(w, s', x.(asked := x.asked + 1, idle := x.idle - 1))
  {
    TotalCounts(CallsMeter, s.requests, x.over, x.admitted, x.asked);
    states', steps', s' := PassCheck(w, states, steps, s, x.over + x.admitted + x.asked, CallsMeter);
    assert s'.requests == Requests(x.over, x.admitted, x.asked + 1, x.idle - 1);
  }

  /** The next request past the calls check passes the budget check. */
  lemma AdmitOne(w: World, states: seq<State>, steps: seq<Step>, s: State, x: Shape)
    returns (states': seq<State>, steps': seq<Step>, s': State)
    requires Reaches(w, states, steps, s) && HasShape(w, s, x) && HasRoom(w, s, CostMeter)
    requires x.asked > 0 && x.admitted < w.spending
    ensures Reaches(w, states', steps', s') && HasShape(w, s', x.(admitted := x.admitted + 1, asked := x.asked - 1))
  {
    TotalCounts(CostMeter, s.requests, x.over, x.admitted, x.asked);
    states', steps', s' := PassCheck(w, states, steps, s, x.over + x.admitted, CostMeter);
    assert s'.requests == Requests(x.over, x.admitted + 1, x.asked - 1, x.idle);
  }

  /** The first admitted request is tracked. */
  lemma TrackOne(w: World, states: seq<State>, steps: seq<Step>, s: State, x: Shape, cents: nat)
    returns (states': seq<State>, steps': seq<Step>, s': State)
    requires Reaches(w, states, steps, s) && HasShape(w, s, x) && x.admitted > 0 && cents <= w.maxCost
    ensures Reaches(w, states', steps', s')
    ensures HasShape(w, s',
            x.(over := x.over + 1, admitted := x.admitted - 1, used := x.used + cents, calls := x.calls + 1))
  {
    var step := Track(x.over, 0, "gpt-4.1-nano", 0, 250 * cents);
    ExactCost(cents);
    states', steps' := Extend(w, states, steps, s, step);
    s' := Apply(w, s, step);
    assert s'.requests == Requests(x.over + 1, x.admitted - 1, x.asked, x.idle);
  }

  lemma {:induction false} AskMany(w: World, states: seq<State>, steps: seq<Step>, s: State, x: Shape)
    returns (states': seq<State>, steps': seq<Step>, s': State)
    requires Reaches(w, states, steps, s) && HasShape(w, s, x) && HasRoom(w, s, CallsMeter)
    requires x.admitted + x.asked + x.idle <= w.inFlight
    ensures Reaches(w, states', steps', s') && HasShape(w, s', x.(asked := x.asked + x.idle, idle := 0))
    decreases x.idle
  {
    if x.idle == 0 {
      states', steps', s' := states, steps, s;
    } else {
      states', steps', s' := AskOne(w, states, steps, s, x);
      states', steps', s' := AskMany(w, states', steps', s', x.(asked := x.asked + 1, idle := x.idle - 1));
    }
  }

  lemma {:induction false} AdmitMany(w: World, states: seq<State>, steps: seq<Step>, s: State, x: Shape)
    returns (states': seq<State>, steps': seq<Step>, s': State)
    requires Reaches(w, states, steps, s) && HasShape(w, s, x) && HasRoom(w, s, CostMeter)
    requires x.admitted + x.asked <= w.spending
    ensures Reaches(w, states', steps', s') && HasShape(w, s', x.(admitted := x.admitted + x.asked, asked := 0))
    decreases x.asked
  {
    if x.asked == 0 {
      states', steps', s' := states, steps, s;
    } else {
      states', steps', s' := AdmitOne(w, states, steps, s, x);
      states', steps', s' := AdmitMany(w, states', steps', s', x.(admitted := x.admitted + 1, asked := x.asked - 1));
    }
  }

  lemma {:induction false} TrackMany(w: World, states: seq<State>, steps: seq<Step>, s: State, x: Shape)
    returns (states': seq<State>, steps': seq<Step>, s': State)
    requires Reaches(w, states, steps, s) && HasShape(w, s, x)
    ensures Reaches(w, states', steps', s')
    ensures Row(s', 0).costCents == x.used + x.admitted * w.maxCost && Row(s', 0).calls == x.calls + x.admitted
    decreases x.admitted
  {
    if x.admitted == 0 {
      states', steps', s' := states, steps, s;
    } else {
      states', steps', s' := TrackOne(w, states, steps, s, x, w.maxCost);
      states', steps', s' := TrackMany(w, states', steps', s',
        x.(over := x.over + 1, admitted := x.admitted - 1, used := x.used + w.maxCost, calls := x.calls + 1));
      Times(x.admitted - 1, x.admitted, w.maxCost);
    }
  }

  /** Requests past the calls check spend one after the other, as the costs say. */
  lemma {:induction false} SpendAsked(w: World, states: seq<State>, steps: seq<Step>, s: State, x: Shape,
          costs: seq<nat>)
    returns (states': seq<State>, steps': seq<Step>, s': State)
    requires Reaches(w, states, steps, s) && HasShape(w, s, x) && x.admitted == 0 && |costs| <= x.asked
    requires w.spending >= 1 && (forall i :: 0 <= i < |costs| ==> costs[i] <= w.maxCost)
    requires x.used + Spent(costs) < w.maxBudget
    ensures Reaches(w, states', steps', s')
    ensures HasShape(w, s', x.(over := x.over + |costs|, asked := x.asked - |costs|, used := x.used + Spent(costs),
                               calls := x.calls + |costs|))
    decreases |costs|
  {
    if costs == [] {
      states', steps', s' := states, steps, s;
    } else {
      states', steps', s' := AdmitOne(w, states, steps, s, x);
      states', steps', s' := TrackOne(w, states', steps', s', x.(admitted := 1, asked := x.asked - 1), costs[0]);
      states', steps', s' := SpendAsked(w, states', steps', s',
        x.(over := x.over + 1, asked := x.asked - 1, used := x.used + costs[0], calls := x.calls + 1), costs[1..]);
    }
  }

  /** Requests one after the other through both checks, that spend as the costs say. */
  lemma {:induction false} SpendInTurn(w: World, states: seq<State>, steps: seq<Step>, s: State, x: Shape,
          costs: seq<nat>)
    returns (states': seq<State>, steps': seq<Step>, s': State)
    requires Reaches(w, states, steps, s) && HasShape(w, s, x) && x.admitted == 0 && x.asked == 0 && |costs| <= x.idle
    requires w.inFlight >= 1 && w.spending >= 1 && (forall i :: 0 <= i < |costs| ==> costs[i] <= w.maxCost)
    requires x.used + Spent(costs) < w.maxBudget && (Limited(w.callsLimit) ==> x.calls + |costs| <= w.callsLimit)
    ensures Reaches(w, states', steps', s')
    ensures HasShape(w, s', x.(over := x.over + |costs|, idle := x.idle - |costs|, used := x.used + Spent(costs),
                               calls := x.calls + |costs|))
    decreases |costs|
  {
    if costs == [] {
      states', steps', s' := states, steps, s;
    } else {
      states', steps', s' := AskOne(w, states, steps, s, x);
      states', steps', s' := SpendAsked(w, states', steps', s', x.(asked := 1, idle := x.idle - 1), [costs[0]]);
      states', steps', s' := SpendInTurn(w, states', steps', s',
        x.(over := x.over + 1, idle := x.idle - 1, used := x.used + costs[0], calls := x.calls + 1), costs[1..]);
    }
  }

  function Spent(costs: seq<nat>): nat {
    if costs == [] then 0 else costs[0] + Spent(costs[1..])
  }

  /** An amount in payments of at most some size. */
  function Payments(amount: nat, size: nat): (costs: seq<nat>)
    requires amount > 0 ==> size > 0
    ensures Spent(costs) == amount && forall i :: 0 <= i < |costs| ==> costs[i] <= size
  {
    if amount == 0 then []
    else if amount <= size then [amount]
    else [size] + Payments(amount - size, size)
  }

  lemma {:induction false} SpentConcat(a: seq<nat>, b: seq<nat>)
    ensures Spent(a + b) == Spent(a) + Spent(b)
  {
    if a == [] {
      assert a + b == b;
    } else {
      SpentConcat(a[1..], b);
      assert (a + b)[1..] == a[1..] + b;
    }
  }

  /**
   * A run in three parts: the first requests pass both checks and are tracked in turn; then as many as there may be
   * in flight pass the calls check, of which the next are tracked in turn, and the last all pass the budget check
   * before any of them is tracked, with the dearest cost.
   */
  lemma SpendThenOvershoot(w: World, first: seq<nat>, next: seq<nat>, last: nat)
    returns (states: seq<State>, steps: seq<Step>)
    requires w.inFlight >= 1 && w.spending >= 1 && |next| + last <= w.inFlight && last <= w.spending
    requires forall i :: 0 <= i < |first| ==> first[i] <= w.maxCost
    requires forall i :: 0 <= i < |next| ==> next[i] <= w.maxCost
    requires Spent(first) + Spent(next) < w.maxBudget && (Limited(w.callsLimit) ==> |first| < w.callsLimit)
    ensures Run(w, states, steps)
    ensures Row(states[|states| - 1], 0).costCents == Spent(first) + Spent(next) + last * w.maxCost
    ensures Row(states[|states| - 1], 0).calls == |first| + |next| + last
  {
    var all := |first| + |next| + last;
    var s := State(Limits(w.maxBudget, w.callsLimit), 0, map[], map[], Requests(0, 0, 0, all));
    states, steps := [s], [];
    states, steps, s := SpendInTurn(w, states, steps, s, Shape(0, 0, 0, all, 0, 0), first);
    var x := Shape(|first|, 0, 0, |next| + last, Spent(first), |first|);
    states, steps, s := AskMany(w, states, steps, s, x);
    x := x.(asked := |next| + last, idle := 0);
    states, steps, s := SpendAsked(w, states, steps, s, x, next);
    x := Shape(|first| + |next|, 0, last, 0, Spent(first) + Spent(next), |first| + |next|);
    states, steps, s := AdmitMany(w, states, steps, s, x);
    states, steps, s := TrackMany(w, states, steps, s, x.(admitted := last, asked := 0));
  }

  /**
   * The bound on the cost cannot be lowered: for every budget that requests can spend at all, some run ends
   * exactly there.
   */
  lemma BoundIsReached(w: World) returns (states: seq<State>, steps: seq<Step>)
    requires 1 <= w.spending <= w.inFlight && w.maxBudget >= 1 && 0 <= w.callsLimit
    requires CanExhaust(w)
    ensures Run(w, states, steps)
    ensures Row(states[|states| - 1], 0).costCents == w.maxBudget - 1 + w.spending * w.maxCost
  {
    var costs := Payments(w.maxBudget - 1, w.maxCost);
    var n := if Limited(w.callsLimit) && |costs| >= w.callsLimit then w.callsLimit - 1 else |costs|;
    assert costs[..n] + costs[n..] == costs;
    SpentConcat(costs[..n], costs[n..]);
    states, steps := SpendThenOvershoot(w, costs[..n], costs[n..], w.spending);
  }

  lemma {:induction false} CostPerCall(w: World, states: seq<State>, steps: seq<Step>, i: nat, month: nat)
    requires Run(w, states, steps) && i < |states|
    ensures Row(states[i], month).costCents <= Row(states[i], month).calls * w.maxCost
  {
    if i == 0 {
    } else {
      CostPerCall(w, states, steps, i - 1, month);
      RunStep(w, states, steps, i - 1);
      StepCostPerCall(w, states[i - 1], states[i], steps[i - 1], month);
    }
  }

  lemma StepCostPerCall(w: World, s: State, s': State, step: Step, month: nat)
    requires Next(w, s, s', step) && Row(s, month).costCents <= Row(s, month).calls * w.maxCost
    ensures Row(s', month).costCents <= Row(s', month).calls * w.maxCost
  {
    Times(Row(s, month).calls, Row(s, month).calls, w.maxCost);
  }

  lemma {:induction false} PaymentsAreFew(amount: nat, size: nat)
    requires amount > 0 && size > 0
    ensures |Payments(amount, size)| >= 1 && (|Payments(amount, size)| - 1) * size < amount
  {
    if amount <= size {
    } else {
      PaymentsAreFew(amount - size, size);
      Times(|Payments(amount - size, size)| - 1, |Payments(amount - size, size)|, size);
    }
  }

  /** Requests can spend the budget up to its last cent, within the calls limit and what may exceed it. */
  predicate CanExhaust(w: World)
    requires w.maxBudget >= 1
  {
    && (w.maxBudget > 1 ==> w.maxCost >= 1)
    && (1 <= w.callsLimit < 9999 ==>
          |Payments(w.maxBudget - 1, w.maxCost)| + w.spending <= w.callsLimit - 1 + w.inFlight)
  }

  ghost predicate EndsAtBound(w: World, states: seq<State>, steps: seq<Step>, month: nat)
    requires w.maxBudget >= 1
  {
    Run(w, states, steps) && Row(states[|states| - 1], month).costCents == w.maxBudget - 1 + w.spending * w.maxCost
  }

  /** If they cannot, no run reaches the bound. */
  lemma BoundNeedsExhaustion(w: World, states: seq<State>, steps: seq<Step>, month: nat)
    requires !w.config.softDegrade && w.maxBudget >= 1 && w.spending <= w.inFlight
    requires 0 <= w.callsLimit
    requires EndsAtBound(w, states, steps, month)
    ensures CanExhaust(w)
  {
    var calls := Row(states[|states| - 1], month).calls;
    CostPerCall(w, states, steps, |states| - 1, month);
    OvershootBound(w, states, steps, |states| - 1, month);
    if w.maxBudget > 1 && w.maxCost >= 1 {
      FewEnough(w.maxBudget - 1, w.maxCost, w.spending, calls);
    }
  }

  lemma {:induction false} FewEnough(amount: nat, size: nat, spending: nat, calls: nat)
    requires amount > 0 && size > 0 && amount + spending * size <= calls * size
    ensures |Payments(amount, size)| + spending <= calls
  {
    PaymentsAreFew(amount, size);
    var n := |Payments(amount, size)| - 1;
    assert (n + spending) * size == n * size + spending * size;
    Ordered(calls, n + spending, size);
  }

  lemma Ordered(a: nat, b: nat, size: nat)
    ensures a <= b ==> a * size <= b * size
  {
    if a <= b {
      Times(a, b, size);
    }
  }

  /** Exactly when requests can exhaust the budget does some run reach the bound on the cost. */
  lemma BoundReachedIff(w: World)
    requires !w.config.softDegrade && 1 <= w.spending <= w.inFlight && w.maxBudget >= 1
    requires 0 <= w.callsLimit
    ensures (exists states, steps, month :: EndsAtBound(w, states, steps, month)) <==> CanExhaust(w)
  {
    if CanExhaust(w) {
      var states, steps := BoundIsReached(w);
      assert EndsAtBound(w, states, steps, 0);
    }
    forall states, steps, month | EndsAtBound(w, states, steps, month) ensures CanExhaust(w) {
      BoundNeedsExhaustion(w, states, steps, month);
    }
  }

  lemma {:induction false} FreeOfCharge(n: nat)
    ensures Spent(seq(n, _ => 0)) == 0
  {
    if n == 0 {
    } else {
      FreeOfCharge(n - 1);
      assert seq<nat>(n, _ => 0)[1..] == seq<nat>(n - 1, _ => 0);
    }
  }

  /**
   * Nor can the bound on the calls, for any finite limit: with requests that round to nothing, some run ends
   * exactly there.
   */
  lemma CallsBoundIsReached(w: World) returns (states: seq<State>, steps: seq<Step>)
    requires w.inFlight >= 1 && w.spending >= 1 && w.maxBudget >= 1 && 1 <= w.callsLimit < 9999
    ensures Run(w, states, steps)
    ensures Row(states[|states| - 1], 0).calls == w.callsLimit - 1 + w.inFlight
  {
    var first, next := seq(w.callsLimit - 1, _ => 0), seq(w.inFlight, _ => 0);
    FreeOfCharge(w.callsLimit - 1);
    FreeOfCharge(w.inFlight);
    states, steps := SpendThenOvershoot(w, first, next, 0);
  }

  /** A request goes through the calls check, there being no limit, and reads that the budget is spent. */
  lemma ReadSpent(w: World, states: seq<State>, steps: seq<Step>, s: State, r: nat)
    returns (states': seq<State>, steps': seq<Step>, s': State)
    requires Reaches(w, states, steps, s) && r < |s.requests| && s.requests[r] == Standing(Idle)
    requires s.limits == Limits(0, 0) && s.month == 0 && Row(s, 0) == FRESH
    requires Total(CallsMeter, s.requests) < w.inFlight && Total(CostMeter, s.requests) < w.spending
    ensures Reaches(w, states', steps', s') && s'.limits == s.limits && s'.month == s.month && s'.rows == s.rows
    ensures |s'.requests| == |s.requests| && s'.requests[r].mark.BlockedMark? && s'.requests[r].markMonth == 0
    ensures forall q :: 0 <= q < |s.requests| && q != r ==> s'.requests[q] == s.requests[q]
    ensures Total(CallsMeter, s'.requests) <= Total(CallsMeter, s.requests) + 1
    ensures Total(CostMeter, s'.requests) <= Total(CostMeter, s.requests) + 1
  {
    states', steps' := Extend(w, states, steps, s, SeeLimits(r));
    s' := Apply(w, s, SeeLimits(r));
    states', steps' := Extend(w, states', steps', s', ReadCalls(r));
    s' := Apply(w, s', ReadCalls(r));
    assert s'.requests == s.requests[r := s'.requests[r]];
    TotalUpdate(CostMeter, s.requests, r, s'.requests[r]);
    states', steps' := Extend(w, states', steps', s', SeeLimits(r));
    s' := Apply(w, s', SeeLimits(r));
    states', steps' := Extend(w, states', steps', s', ReadCost(r));
    s' := Apply(w, s', ReadCost(r));
    assert s'.requests == s.requests[r := s'.requests[r]];
    TotalUpdate(CallsMeter, s.requests, r, s'.requests[r]);
    TotalUpdate(CostMeter, s.requests, r, s'.requests[r]);
  }

  /** Two checks that read the row before either has blocked it both write, and the second write moves the block. */
  lemma BlockMoves(w: World) returns (states: seq<State>, steps: seq<Step>)
    requires w.maxBudget >= 0 && w.inFlight >= 2 && w.spending >= 2 && w.callsLimit == 0
    ensures Run(w, states, steps) && |states| >= 2
    ensures Row(states[|states| - 2], 0).blockedAt == Some(10) && Row(states[|states| - 1], 0).blockedAt == Some(20)
  {
    var s := State(Limits(0, 0), 0, map[], map[], Requests(0, 0, 0, 2));
    TotalCounts(CallsMeter, s.requests, 0, 0, 0);
    TotalCounts(CostMeter, s.requests, 0, 0, 0);
    states, steps := [s], [];
    states, steps, s := ReadSpent(w, states, steps, s, 0);
    states, steps, s := ReadSpent(w, states, steps, s, 1);
    states, steps := Extend(w, states, steps, s, WriteMark(0, 10));
    s := Apply(w, s, WriteMark(0, 10));
    states, steps := Extend(w, states, steps, s, WriteMark(1, 20));
  }
}
