/**
 * What a request costs: its tokens by the table of prices, the sum times a hundred rounded as Math.round does, with
 * halves upwards; and the thresholds of a budget in percent of it.
 */
module Pricing {

  /** Math.round of n / d: halves go up. */
  function RoundRatio(n: int, d: int): (r: int)
    requires d > 0
    ensures 2 * d * r - d <= 2 * n < 2 * d * r + d
  {
    (2 * n + d) / (2 * d)
  }

  /** Input and output price of a model; unknown models are priced as gpt-4o-mini. */
  function Prices(model: string): (nat, nat) {
    if model == "gpt-4.1-nano" then (10, 40) else (15, 60)
  }

  /** What a request weighs: ten thousand make one tracked cent. */
  function Weight(model: string, inputTokens: nat, outputTokens: nat): nat {
    inputTokens * Prices(model).0 + outputTokens * Prices(model).1
  }

  /** calculateTokenCost: the weighted sum over a million, times a hundred, rounded. */
  function TokenCost(model: string, inputTokens: nat, outputTokens: nat): nat {
    RoundRatio(100 * Weight(model, inputTokens, outputTokens), 1000000)
  }

  /** In cents per million tokens times a hundred: 10 and 40 for gpt-4.1-nano, 15 and 60 for all others. */
  lemma TokenCostNear(model: string, inputTokens: nat, outputTokens: nat)
    ensures var exact := if model == "gpt-4.1-nano" then 10 * inputTokens + 40 * outputTokens
                         else 15 * inputTokens + 60 * outputTokens;
            exact == Weight(model, inputTokens, outputTokens)
            && -5000 <= exact - 10000 * TokenCost(model, inputTokens, outputTokens) < 5000
    ensures var drift := Weight(model, inputTokens, outputTokens) - 10000 * TokenCost(model, inputTokens, outputTokens);
            -5000 <= drift < 5000
  {
  }

  /** A larger request never costs less. */
  lemma TokenCostMonotone(model: string, i: nat, o: nat, i': nat, o': nat)
    requires i <= i' && o <= o'
    ensures TokenCost(model, i, o) <= TokenCost(model, i', o')
  {
    var (input, output) := Prices(model);
    assert i * input <= i' * input && o * output <= o' * output;
  }

  function PercentUsed(used: int, budget: int): (r: int)
    ensures budget <= 0 ==> r == 100
    ensures budget > 0 ==> budget * (2 * r - 1) <= 200 * used < budget * (2 * r + 1)
  {
    if budget <= 0 then 100 else RoundRatio(100 * used, budget)
  }

  predicate IsWarning(used: int, budget: int, threshold: real) {
    used as real >= budget as real * threshold
  }

  predicate IsExceeded(used: int, budget: int) {
    used >= budget
  }

  lemma Scale(d: int, a: int, b: int)
    requires d > 0 && a <= b
    ensures d * a <= d * b
  {
  }

  /** Rounding keeps the order, compared with whole multiples of the denominator. */
  lemma RoundBounds(n: int, d: int, k: int)
    requires d > 0
    ensures n >= d * k ==> RoundRatio(n, d) >= k
    ensures n <= d * k ==> RoundRatio(n, d) <= k
  {
    var r := RoundRatio(n, d);
    assert 2 * (d * r) - d <= 2 * n < 2 * (d * r) + d;
    if r < k {
      Scale(d, r, k - 1);
    } else {
      Scale(d, k, r);
      if r > k {
        Scale(d, k + 1, r);
      }
    }
  }

  /**
   * Spending up to the budget shows as at most 100 percent, and a threshold of at most one warns before the
   * budget is exceeded.
   */
  lemma ThresholdsAgree(used: int, budget: int, threshold: real)
    ensures 0 <= used < budget ==> 0 <= PercentUsed(used, budget) <= 100
    ensures used >= budget ==> PercentUsed(used, budget) >= 100
    ensures threshold <= 1.0 && budget >= 0 && IsExceeded(used, budget) ==> IsWarning(used, budget, threshold)
  {
    if threshold <= 1.0 && budget >= 0 {
      ScaleReal(budget as real, threshold);
    }
    if 0 < budget {
      RoundBounds(100 * used, budget, 100);
      RoundBounds(100 * used, budget, 0);
    }
  }

  lemma ScaleReal(budget: real, threshold: real)
    requires budget >= 0.0 && threshold <= 1.0
    ensures budget * threshold <= budget
  {
  }
}
