/** AiBudgetService: the usage rows of one tenant and the checks on them. */
module Budget {
  import opened Options
  import opened Pricing

  /** One row per month; a timestamp is the clock when it was set. */
  datatype Usage = Usage(
    calls: nat, inputTokens: nat, outputTokens: nat, costCents: nat,
    warnedAt: Option<int>, blockedAt: Option<int>, callsWarnedAt: Option<int>)

  const FRESH := Usage(0, 0, 0, 0, None, None, None)

  datatype Limits = Limits(budgetCents: int, callsLimit: int)

  datatype Config = Config(warnThreshold: real, softDegrade: bool, defaultBudgetCents: int)

  /** The tenant's budget row; both fields may be null. */
  datatype BudgetRow = BudgetRow(monthlyBudgetCents: Option<int>, monthlyCallsLimit: Option<int>)

  datatype Plan = Plan(aiBudgetCents: Option<int>, aiCallsMonthlyLimit: Option<int>)

  datatype BudgetCheck = BudgetCheck(
    allowed: bool, budgetCents: int, usedCents: int, remainingCents: int, percentUsed: int,
    warnedNow: bool, blockedNow: bool)

  datatype CallsCheck = CallsCheck(
    allowed: bool, callsUsed: int, callsLimit: int, percentUsed: real, warnedNow: bool, blockedNow: bool)

  /** Zero and everything from 9999 on mean no limit. */
  predicate Limited(callsLimit: int) {
    callsLimit != 0 && callsLimit < 9999
  }

  predicate BudgetSpent(limits: Limits, u: Usage) {
    IsExceeded(u.costCents, limits.budgetCents)
  }

  predicate CallsSpent(limits: Limits, u: Usage) {
    Limited(limits.callsLimit) && u.calls >= limits.callsLimit
  }

  predicate BudgetAllows(config: Config, limits: Limits, u: Usage) {
    config.softDegrade || (u.blockedAt.None? && !BudgetSpent(limits, u))
  }

  predicate CallsAllow(config: Config, limits: Limits, u: Usage) {
    config.softDegrade || !Limited(limits.callsLimit) || (u.blockedAt.None? && !CallsSpent(limits, u))
  }

  /** What a check decides to write into the row it read. */
  datatype Mark = NoMark | WarnedMark | BlockedMark | CallsWarnedMark

  function BudgetMark(config: Config, limits: Limits, u: Usage): Mark {
    if u.blockedAt.Some? then NoMark
    else if BudgetSpent(limits, u) then BlockedMark
    else if IsWarning(u.costCents, limits.budgetCents, config.warnThreshold) && u.warnedAt.None? then WarnedMark
    else NoMark
  }

  function CallsMark(limits: Limits, u: Usage): Mark {
    if u.blockedAt.Some? || !Limited(limits.callsLimit) then NoMark
    else if CallsSpent(limits, u) then BlockedMark
    else if 100 * u.calls >= 80 * limits.callsLimit && u.callsWarnedAt.None? then CallsWarnedMark
    else NoMark
  }

  /** The write itself looks at nothing: it sets the mark, or sets it again. */
  function WithMark(u: Usage, mark: Mark, now: int): Usage {
    match mark
    case NoMark => u
    case WarnedMark => u.(warnedAt := Some(now))
    case BlockedMark => u.(blockedAt := Some(now))
    case CallsWarnedMark => u.(callsWarnedAt := Some(now))
  }

  function AfterBudgetCheck(config: Config, limits: Limits, u: Usage, now: int): Usage {
    WithMark(u, BudgetMark(config, limits, u), now)
  }

  function AfterCallsCheck(limits: Limits, u: Usage, now: int): Usage {
    WithMark(u, CallsMark(limits, u), now)
  }

  function AfterTrack(u: Usage, model: string, inputTokens: nat, outputTokens: nat): Usage {
    u.(calls := u.calls + 1, inputTokens := u.inputTokens + inputTokens, outputTokens := u.outputTokens + outputTokens,
       costCents := u.costCents + TokenCost(model, inputTokens, outputTokens))
  }

  function CallsPercent(calls: nat, callsLimit: int): (r: real)
    requires callsLimit != 0
    ensures r * callsLimit as real == 100.0 * calls as real
  {
    calls as real / callsLimit as real * 100.0
  }

  /** The check of the budget in numbers: the hard stop admits below the budget and before a block only. */
  lemma BudgetCheckIs(config: Config, limits: Limits, u: Usage, now: int)
    ensures BudgetAllows(config, limits, u) <==>
              config.softDegrade || (u.blockedAt.None? && u.costCents < limits.budgetCents)
    ensures AfterBudgetCheck(config, limits, u, now) ==
              if u.blockedAt.Some? then u
              else if limits.budgetCents <= u.costCents then u.(blockedAt := Some(now))
              else if limits.budgetCents as real * config.warnThreshold <= u.costCents as real && u.warnedAt.None?
              then u.(warnedAt := Some(now))
              else u
  {
  }

  /** The check of the calls in numbers: from 1 to 9998, and below 0, is a limit; it warns from four fifths of it on. */
  lemma CallsCheckIs(config: Config, limits: Limits, u: Usage, now: int)
    ensures limits.callsLimit == 0 || 9999 <= limits.callsLimit ==>
              CallsAllow(config, limits, u) && AfterCallsCheck(limits, u, now) == u
    ensures limits.callsLimit != 0 && limits.callsLimit < 9999 ==> (
              && (CallsAllow(config, limits, u) <==>
                    config.softDegrade || (u.blockedAt.None? && u.calls < limits.callsLimit))
              && AfterCallsCheck(limits, u, now) ==
                   if u.blockedAt.Some? then u
                   else if limits.callsLimit <= u.calls then u.(blockedAt := Some(now))
                   else if 4 * limits.callsLimit <= 5 * u.calls && u.callsWarnedAt.None?
                   then u.(callsWarnedAt := Some(now))
                   else u)
  {
  }

  /** Counters never fall and no mark is cleared. */
  predicate Grows(u: Usage, v: Usage) {
    && u.calls <= v.calls && u.inputTokens <= v.inputTokens && u.outputTokens <= v.outputTokens
    && u.costCents <= v.costCents
    && (u.warnedAt.Some? ==> v.warnedAt.Some?)
    && (u.blockedAt.Some? ==> v.blockedAt.Some?)
    && (u.callsWarnedAt.Some? ==> v.callsWarnedAt.Some?)
  }

  class AiBudgetService {
    var budget: Option<BudgetRow>
    var plan: Option<Plan>
    var rows: map<string, Usage>
    const config: Config

    constructor (config: Config, plan: Option<Plan>)
      ensures budget.None? && rows == map[] && this.config == config && this.plan == plan
    {
      this.config, this.plan, budget, rows := config, plan, None, map[];
    }

    /** The row of a month, as the upsert would find it. */
    ghost function Row(month: string): Usage
      reads this
    {
      if month in rows then rows[month] else FRESH
    }

    /** The budget row, as the upsert would find it. */
    ghost function CurrentBudget(): BudgetRow
      reads this
    {
      budget.GetOr(BudgetRow(Some(config.defaultBudgetCents), None))
    }

    ghost function CurrentLimits(): Limits
      reads this
    {
      var planBudget := if plan.Some? then plan.value.aiBudgetCents else None;
      var planCalls := if plan.Some? then plan.value.aiCallsMonthlyLimit else None;
      Limits(CurrentBudget().monthlyBudgetCents.GetOr(planBudget.GetOr(config.defaultBudgetCents)),
             CurrentBudget().monthlyCallsLimit.GetOr(planCalls.GetOr(100)))
    }

    method GetOrCreateBudget() returns (row: BudgetRow)
      modifies this`budget
      ensures row == old(CurrentBudget()) && budget == Some(row) && CurrentLimits() == old(CurrentLimits())
    {
      if budget.None? {
        budget := Some(BudgetRow(Some(config.defaultBudgetCents), None));
      }
      row := budget.value;
    }

    method GetOrCreateMonthlyUsage(month: string) returns (u: Usage)
      modifies this`rows
      ensures u == old(Row(month)) && rows == old(rows)[month := u]
      ensures month !in old(rows) ==> (
                && u.calls == 0 && u.inputTokens == 0 && u.outputTokens == 0 && u.costCents == 0
                && u.warnedAt.None? && u.blockedAt.None? && u.callsWarnedAt.None?)
    {
      if month !in rows {
        rows := rows[month := FRESH];
      }
      u := rows[month];
      assert rows == rows[month := u];
    }

    /**
     * override, else plan, else default; but the upsert creates the row with the default as its override, so a
     * new tenant's plan budget is not looked at.
     */
    method GetEffectiveLimits() returns (limits: Limits)
      modifies this`budget
      ensures limits == old(CurrentLimits()) == CurrentLimits() && budget == Some(old(CurrentBudget()))
      ensures old(budget).None? ==> limits.budgetCents == config.defaultBudgetCents
      ensures old(budget).Some? ==> (
                limits.budgetCents ==
                if old(budget).value.monthlyBudgetCents.Some? then old(budget).value.monthlyBudgetCents.value
                else if plan.Some? && plan.value.aiBudgetCents.Some? then plan.value.aiBudgetCents.value
                else config.defaultBudgetCents)
      ensures limits.callsLimit ==
                if old(budget).Some? && old(budget).value.monthlyCallsLimit.Some?
                then old(budget).value.monthlyCallsLimit.value
                else if plan.Some? && plan.value.aiCallsMonthlyLimit.Some? then plan.value.aiCallsMonthlyLimit.value
                else 100
    {
      var row := GetOrCreateBudget();
      var budgetCents, callsLimit := config.defaultBudgetCents, 100;
      if row.monthlyBudgetCents.Some? {
        budgetCents := row.monthlyBudgetCents.value;
      } else if plan.Some? && plan.value.aiBudgetCents.Some? {
        budgetCents := plan.value.aiBudgetCents.value;
      }
      if row.monthlyCallsLimit.Some? {
        callsLimit := row.monthlyCallsLimit.value;
      } else if plan.Some? && plan.value.aiCallsMonthlyLimit.Some? {
        callsLimit := plan.value.aiCallsMonthlyLimit.value;
      }
      limits := Limits(budgetCents, callsLimit);
    }

    method CheckBudget(month: string, now: int) returns (r: BudgetCheck)
      modifies this
      ensures plan == old(plan) && CurrentLimits() == old(CurrentLimits())
      ensures rows == old(rows)[month := AfterBudgetCheck(config, old(CurrentLimits()), old(Row(month)), now)]
      ensures r.allowed <==> BudgetAllows(config, old(CurrentLimits()), old(Row(month)))
      ensures r.budgetCents == old(CurrentLimits()).budgetCents && r.usedCents == old(Row(month)).costCents
      // The hard stop admits below the budget and before a block only, and blocks the month from the budget on.
      ensures r.allowed <==> config.softDegrade || (old(Row(month)).blockedAt.None? && r.usedCents < r.budgetCents)
      ensures r.blockedNow <==> old(Row(month)).blockedAt.None? && r.budgetCents <= r.usedCents
      ensures r.remainingCents == if r.usedCents < r.budgetCents then r.budgetCents - r.usedCents else 0
      ensures r.allowed && !config.softDegrade ==> 0 <= r.percentUsed <= 100
      // The percentage is rounded, 100 when the month is blocked now or has no budget.
      ensures var u, cap := old(Row(month)), old(CurrentLimits()).budgetCents;
              if cap <= 0 || (u.blockedAt.None? && cap <= u.costCents) then r.percentUsed == 100
              else cap * (2 * r.percentUsed - 1) <= 200 * u.costCents < cap * (2 * r.percentUsed + 1)
      ensures r.blockedNow <==> old(Row(month)).blockedAt.None? && Row(month).blockedAt.Some?
      ensures r.warnedNow <==> old(Row(month)).warnedAt.None? && Row(month).warnedAt.Some?
      ensures Grows(old(Row(month)), Row(month))
    {
      var _ := GetOrCreateBudget();
      var limits := GetEffectiveLimits();
      var u := GetOrCreateMonthlyUsage(month);
      var used, cap := u.costCents, limits.budgetCents;
      ThresholdsAgree(used, cap, config.warnThreshold);
      if u.blockedAt.Some? {
        var remaining := if cap - used > 0 then cap - used else 0;
        return BudgetCheck(config.softDegrade, cap, used, remaining, PercentUsed(used, cap), false, false);
      }
      if IsExceeded(used, cap) {
        rows := rows[month := u.(blockedAt := Some(now))];
        return BudgetCheck(config.softDegrade, cap, used, 0, 100, false, true);
      }
      var warnedNow := false;
      if IsWarning(used, cap, config.warnThreshold) && u.warnedAt.None? {
        rows := rows[month := u.(warnedAt := Some(now))];
        warnedNow := true;
      }
      return BudgetCheck(true, cap, used, cap - used, PercentUsed(used, cap), warnedNow, false);
    }

    /** The check of the calls against a limit, once that is known. */
    method CheckCalls(month: string, callsLimit: int, now: int) returns (r: CallsCheck)
      requires callsLimit != 0 && callsLimit < 9999
      modifies this`rows
      ensures var u, limits := old(Row(month)), Limits(0, callsLimit); (
                && rows == old(rows)[month := AfterCallsCheck(limits, u, now)]
                && (r.allowed <==> CallsAllow(config, limits, u))
                && r.callsLimit == callsLimit && r.callsUsed == u.calls
                && (r.blockedNow <==> u.blockedAt.None? && rows[month].blockedAt.Some?)
                && (r.warnedNow <==> u.callsWarnedAt.None? && rows[month].callsWarnedAt.Some?)
                // The percentage is that of the calls used, and 100 from the limit on or when blocked.
                && r.percentUsed ==
                     if u.blockedAt.Some? || callsLimit <= u.calls then 100.0 else CallsPercent(u.calls, callsLimit))
    {
      var u := GetOrCreateMonthlyUsage(month);
      if u.blockedAt.Some? {
        return CallsCheck(config.softDegrade, u.calls, callsLimit, 100.0, false, false);
      }
      if u.calls >= callsLimit {
        rows := rows[month := u.(blockedAt := Some(now))];
        return CallsCheck(config.softDegrade, u.calls, callsLimit, 100.0, false, true);
      }
      var warnedNow := false;
      if 100 * u.calls >= 80 * callsLimit && u.callsWarnedAt.None? {
        rows := rows[month := u.(callsWarnedAt := Some(now))];
        warnedNow := true;
      }
      return CallsCheck(true, u.calls, callsLimit, CallsPercent(u.calls, callsLimit), warnedNow, false);
    }

    method CheckCallsLimit(month: string, now: int) returns (r: CallsCheck)
      modifies this
      ensures plan == old(plan) && CurrentLimits() == old(CurrentLimits())
      ensures r.callsLimit == old(CurrentLimits()).callsLimit
      ensures r.allowed <==> CallsAllow(config, old(CurrentLimits()), old(Row(month)))
      // Zero, and everything from 9999 on, is no limit: everything is allowed and no row is touched.
      ensures r.callsLimit == 0 || 9999 <= r.callsLimit ==>
                rows == old(rows) && r == CallsCheck(true, 0, r.callsLimit, 0.0, false, false)
      // Else the hard stop admits below the limit and before a block only, and blocks the month from the limit on.
      ensures r.callsLimit != 0 && r.callsLimit < 9999 ==> (
                var u := old(Row(month));
                && rows == old(rows)[month := AfterCallsCheck(old(CurrentLimits()), u, now)]
                && r.callsUsed == u.calls
                && (r.allowed <==> config.softDegrade || (u.blockedAt.None? && u.calls < r.callsLimit))
                && (r.blockedNow <==> u.blockedAt.None? && Row(month).blockedAt.Some?)
                && (r.blockedNow <==> u.blockedAt.None? && r.callsLimit <= u.calls)
                && (r.warnedNow <==> u.callsWarnedAt.None? && Row(month).callsWarnedAt.Some?)
                && r.percentUsed ==
                     if u.blockedAt.Some? || r.callsLimit <= u.calls then 100.0
                     else CallsPercent(u.calls, r.callsLimit))
      ensures Grows(old(Row(month)), Row(month))
    {
      var limits := GetEffectiveLimits();
      if !Limited(limits.callsLimit) {
        return CallsCheck(true, 0, limits.callsLimit, 0.0, false, false);
      }
      var _ := GetOrCreateBudget();
      r := CheckCalls(month, limits.callsLimit, now);
      CallsCheckIs(config, limits, old(Row(month)), now);
      CallsCheckIs(config, Limits(0, limits.callsLimit), old(Row(month)), now);
    }

    method TrackUsage(month: string, model: string, inputTokens: nat, outputTokens: nat)
      modifies this
      ensures plan == old(plan) && CurrentLimits() == old(CurrentLimits())
      ensures rows == old(rows)[month := AfterTrack(old(Row(month)), model, inputTokens, outputTokens)]
      ensures Grows(old(Row(month)), Row(month)) && Row(month).blockedAt == old(Row(month)).blockedAt
      ensures Row(month).calls == old(Row(month)).calls + 1
      ensures Row(month).costCents == old(Row(month)).costCents + TokenCost(model, inputTokens, outputTokens)
      ensures Row(month).inputTokens == old(Row(month)).inputTokens + inputTokens
      ensures Row(month).outputTokens == old(Row(month)).outputTokens + outputTokens
    {
      var _ := GetOrCreateBudget();
      var u := GetOrCreateMonthlyUsage(month);
      var cost := TokenCost(model, inputTokens, outputTokens);
      rows := rows[month := u.(calls := u.calls + 1, inputTokens := u.inputTokens + inputTokens,
                               outputTokens := u.outputTokens + outputTokens, costCents := u.costCents + cost)];
    }

    /** Changes the limit and nothing else: a month that is blocked stays blocked. */
    method UpdateBudget(newBudgetCents: int) returns (ok: bool)
      modifies this`budget
      ensures ok <==> 0 <= newBudgetCents <= 500000
      ensures ok ==> CurrentLimits() == old(CurrentLimits()).(budgetCents := newBudgetCents)
      ensures !ok ==> budget == old(budget)
    {
      if newBudgetCents < 0 || newBudgetCents > 500000 {
        return false;
      }
      var row := GetOrCreateBudget();
      budget := Some(row.(monthlyBudgetCents := Some(newBudgetCents)));
      return true;
    }
  }
}
