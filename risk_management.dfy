/** Average True Range over daily bars, and ATR-based stop-loss / take-profit
    levels with position sizing. Fetching the bars is outside the model: the
    bars are a parameter, empty when the history call fails. Python's
    `round(x, n)` is the parameter `round`. */
module RiskManagement {
  import opened Wrappers
  import opened Numeric

  /** One daily OHLC bar (the open is not used). */
  datatype Bar = Bar(high: real, low: real, close: real)

  /** The true range of bar i: the largest of its own range and its distance
      from the previous close. The first bar has no previous close, and
      pandas' row maximum skips the missing values, leaving high − low. */
  function TrueRange(bars: seq<Bar>, i: nat): (tr: real)
    requires i < |bars|
    ensures tr >= bars[i].high - bars[i].low
    ensures i > 0 ==> tr >= 0.0
    ensures i > 0 ==> tr >= Abs(bars[i].high - bars[i - 1].close) && tr >= Abs(bars[i].low - bars[i - 1].close)
    ensures i > 0 ==> tr == bars[i].high - bars[i].low || tr == Abs(bars[i].high - bars[i - 1].close)
                      || tr == Abs(bars[i].low - bars[i - 1].close)
  {
    var range := bars[i].high - bars[i].low;
    if i == 0 then range
    else Max(range, Max(Abs(bars[i].high - bars[i - 1].close), Abs(bars[i].low - bars[i - 1].close)))
  }

  /** The sum of the true ranges of bars lo..hi-1. */
  function SumTrueRange(bars: seq<Bar>, lo: nat, hi: nat): real
    requires lo <= hi <= |bars|
    decreases hi - lo
  {
    if lo == hi then 0.0 else TrueRange(bars, lo) + SumTrueRange(bars, lo + 1, hi)
  }

  /** `calculate_atr`: None with fewer than period + 1 bars, otherwise the
      mean of the last `period` true ranges (the last value of the rolling
      mean). */
  function Atr(bars: seq<Bar>, period: nat): (r: Option<real>)
    requires period >= 1
    ensures r.None? <==> |bars| < period + 1
    ensures r.Some? ==> r.value * (period as real) == SumTrueRange(bars, |bars| - period, |bars|)
  {
    if |bars| < period + 1 then None
    else Some(SumTrueRange(bars, |bars| - period, |bars|) / (period as real))
  }

  lemma {:induction false} SumTrueRangeNonNegative(bars: seq<Bar>, lo: nat, hi: nat)
    requires 1 <= lo <= hi <= |bars|
    ensures SumTrueRange(bars, lo, hi) >= 0.0
    decreases hi - lo
  {
    if lo < hi {
      SumTrueRangeNonNegative(bars, lo + 1, hi);
    }
  }

  /** The window never reaches the first bar, so the ATR is never negative,
      even for bars whose high is below their low. */
  lemma AtrNonNegative(bars: seq<Bar>, period: nat)
    requires period >= 1 && |bars| >= period + 1
    ensures Atr(bars, period).value >= 0.0
  {
    SumTrueRangeNonNegative(bars, |bars| - period, |bars|);
  }

  lemma {:induction false} SumTrueRangeOfSuffix(bars: seq<Bar>, d: nat, lo: nat, hi: nat)
    requires d < lo <= hi <= |bars|
    ensures SumTrueRange(bars[d..], lo - d, hi - d) == SumTrueRange(bars, lo, hi)
    decreases hi - lo
  {
    if lo < hi {
      SumTrueRangeOfSuffix(bars, d, lo + 1, hi);
      assert TrueRange(bars[d..], lo - d) == TrueRange(bars, lo);
    }
  }

  /** Only the last period + 1 bars matter: older history does not change
      the ATR. */
  lemma AtrUsesOnlyRecentBars(bars: seq<Bar>, period: nat)
    requires period >= 1 && |bars| >= period + 1
    ensures Atr(bars[|bars| - period - 1..], period) == Atr(bars, period)
  {
    var d := |bars| - period - 1;
    SumTrueRangeOfSuffix(bars, d, |bars| - period, |bars|);
    assert |bars[d..]| == period + 1;
  }

  /** `k` copies of `b` added up, the bound a window of `k` true ranges
      is compared with. */
  function Repeated(b: real, k: nat): real
  {
    if k == 0 then 0.0 else b + Repeated(b, k - 1)
  }

  lemma {:induction false} RepeatedIsProduct(b: real, k: nat)
    ensures Repeated(b, k) == b * (k as real)
  {
    if k > 0 {
      RepeatedIsProduct(b, k - 1);
      assert b * (k as real) == b * ((k - 1) as real) + b;
    }
  }

  lemma {:induction false} SumTrueRangeBelow(bars: seq<Bar>, lo: nat, hi: nat, b: real)
    requires lo < hi <= |bars|
    requires forall i :: lo <= i < hi ==> TrueRange(bars, i) < b
    ensures SumTrueRange(bars, lo, hi) < Repeated(b, hi - lo)
    decreases hi - lo
  {
    if lo + 1 < hi {
      SumTrueRangeBelow(bars, lo + 1, hi, b);
    }
  }

  lemma {:induction false} SumTrueRangeAbove(bars: seq<Bar>, lo: nat, hi: nat, b: real)
    requires lo < hi <= |bars|
    requires forall i :: lo <= i < hi ==> TrueRange(bars, i) > b
    ensures SumTrueRange(bars, lo, hi) > Repeated(b, hi - lo)
    decreases hi - lo
  {
    if lo + 1 < hi {
      SumTrueRangeAbove(bars, lo + 1, hi, b);
    }
  }

  /** A value whose multiple by the window's length is the window's total
      lies between some true range of the window and some other. */
  lemma MeanWithinWindow(bars: seq<Bar>, lo: nat, hi: nat, mean: real)
    requires lo < hi <= |bars|
    requires mean * ((hi - lo) as real) == SumTrueRange(bars, lo, hi)
    ensures exists i :: lo <= i < hi && TrueRange(bars, i) <= mean
    ensures exists j :: lo <= j < hi && mean <= TrueRange(bars, j)
  {
    var k: nat := hi - lo;
    assert mean * (k as real) == SumTrueRange(bars, lo, hi);
    RepeatedIsProduct(mean, k);
    SomeTrueRangeAtMost(bars, lo, hi, mean);
    SomeTrueRangeAtLeast(bars, lo, hi, mean);
  }

  lemma SomeTrueRangeAtMost(bars: seq<Bar>, lo: nat, hi: nat, mean: real)
    requires lo < hi <= |bars|
    requires SumTrueRange(bars, lo, hi) <= Repeated(mean, hi - lo)
    ensures exists i :: lo <= i < hi && TrueRange(bars, i) <= mean
  {
    if forall i :: lo <= i < hi ==> TrueRange(bars, i) > mean {
      SumTrueRangeAbove(bars, lo, hi, mean);
      assert false;
    }
  }

  lemma SomeTrueRangeAtLeast(bars: seq<Bar>, lo: nat, hi: nat, mean: real)
    requires lo < hi <= |bars|
    requires SumTrueRange(bars, lo, hi) >= Repeated(mean, hi - lo)
    ensures exists j :: lo <= j < hi && mean <= TrueRange(bars, j)
  {
    if forall j :: lo <= j < hi ==> TrueRange(bars, j) < mean {
      SumTrueRangeBelow(bars, lo, hi, mean);
      assert false;
    }
  }

  /** The ATR is an average: it lies between the smallest and the largest
      true range of its window. */
  lemma AtrWithinWindow(bars: seq<Bar>, period: nat)
    requires period >= 1 && |bars| >= period + 1
    ensures exists i :: |bars| - period <= i < |bars| && TrueRange(bars, i) <= Atr(bars, period).value
    ensures exists j :: |bars| - period <= j < |bars| && Atr(bars, period).value <= TrueRange(bars, j)
  {
    var w := |bars| - period;
    assert |bars| - w == period;
    MeanWithinWindow(bars, w, |bars|, Atr(bars, period).value);
  }



  // ---------------------------------------------------------------------
  // Entry sizing
  // ---------------------------------------------------------------------

  /** The result of `suggest_sl_tp_for_entry`. */
  datatype EntryPlan = EntryPlan(sl: real, tp: real, maxQty: real, oneR: real, risk: real, reward: real)

  /** The entry levels before rounding: the stop one R below entry, the
      target `rRatio` R above it, and as many shares as `maxLoss` covers at
      one R each. */
  function EntryLevels(entry: real, atr: real, maxLoss: real, atrMultiplier: real, rRatio: real): (p: EntryPlan)
    ensures p.oneR > 0.0 ==> p.sl < entry
    ensures p.oneR > 0.0 && rRatio > 0.0 ==> entry < p.tp
    ensures p.oneR > 0.0 && maxLoss >= 0.0 ==> p.maxQty >= 0.0
  {
    var oneR := atr * atrMultiplier;
    var maxQty := if oneR > 0.0 then maxLoss / oneR else 0.0;
    EntryPlan(entry - oneR, entry + oneR * rRatio, maxQty, oneR, maxQty * oneR, maxQty * (oneR * rRatio))
  }

  /** `suggest_sl_tp_for_entry`: the levels rounded to cents, the R distance
      to four places. */
  function SuggestForEntry(entry: real, atr: real, maxLoss: real, atrMultiplier: real, rRatio: real,
                           round: (real, nat) -> real): (r: EntryPlan)
    ensures var p := EntryLevels(entry, atr, maxLoss, atrMultiplier, rRatio);
      && r.sl == round(p.sl, 2) && r.tp == round(p.tp, 2) && r.maxQty == round(p.maxQty, 2)
      && r.oneR == round(p.oneR, 4) && r.risk == round(p.risk, 2) && r.reward == round(p.reward, 2)
    ensures (forall x, n :: round(x, n) == x) ==> r == EntryLevels(entry, atr, maxLoss, atrMultiplier, rRatio)
  {
    var p := EntryLevels(entry, atr, maxLoss, atrMultiplier, rRatio);
    EntryPlan(round(p.sl, 2), round(p.tp, 2), round(p.maxQty, 2), round(p.oneR, 4),
              round(p.risk, 2), round(p.reward, 2))
  }

  /** Sizing spends exactly the loss budget when the stop distance is
      positive, and the reward is the risk scaled by the R ratio; with no
      stop distance nothing is bought. */
  lemma EntryRiskMatchesBudget(entry: real, atr: real, maxLoss: real, atrMultiplier: real, rRatio: real)
    ensures var p := EntryLevels(entry, atr, maxLoss, atrMultiplier, rRatio);
      && p.oneR == atr * atrMultiplier
      && entry - p.sl == p.oneR
      && p.tp - entry == (entry - p.sl) * rRatio
      && (p.oneR > 0.0 ==> p.risk == maxLoss && p.maxQty * p.oneR == maxLoss)
      && (p.oneR <= 0.0 ==> p.maxQty == 0.0 && p.risk == 0.0 && p.reward == 0.0)
      && p.reward == p.risk * rRatio
  {
    var p := EntryLevels(entry, atr, maxLoss, atrMultiplier, rRatio);
    assert p.maxQty * (p.oneR * rRatio) == (p.maxQty * p.oneR) * rRatio;
  }

  // ---------------------------------------------------------------------
  // Holding levels
  // ---------------------------------------------------------------------

  /** The result of `suggest_sl_tp_for_holding`. */
  datatype HoldingPlan = HoldingPlan(sl: real, tp: real, atr: real, oneR: real,
                                     currentRisk: real, currentReward: real, plPct: real)

  /** The holding levels before rounding, measured from the average cost. */
  function HoldingLevels(atr: real, avgCost: real, currentPrice: real,
                         atrMultiplier: real, rRatio: real): (p: HoldingPlan)
    ensures p.oneR > 0.0 ==> p.sl < avgCost
    ensures p.oneR > 0.0 && rRatio > 0.0 ==> avgCost < p.tp
    ensures avgCost > 0.0 ==> (p.plPct > 0.0 <==> currentPrice > avgCost)
    ensures avgCost > 0.0 ==> (p.plPct < 0.0 <==> currentPrice < avgCost)
  {
    var oneR := atr * atrMultiplier;
    var sl := avgCost - oneR;
    var tp := avgCost + oneR * rRatio;
    HoldingPlan(sl, tp, atr, oneR, avgCost - sl, tp - avgCost,
                if avgCost > 0.0 then (currentPrice - avgCost) / avgCost * 100.0 else 0.0)
  }

  /** `suggest_sl_tp_for_holding`: None when the ATR is unavailable,
      otherwise the holding levels rounded to cents, with the ATR and the R
      distance to four places. */
  function SuggestForHolding(bars: seq<Bar>, avgCost: real, currentPrice: real,
                             atrMultiplier: real, rRatio: real, atrPeriod: nat,
                             round: (real, nat) -> real): (r: Option<HoldingPlan>)
    requires atrPeriod >= 1
    ensures r.None? <==> |bars| < atrPeriod + 1
    ensures r.Some? ==>
      var p := HoldingLevels(Atr(bars, atrPeriod).value, avgCost, currentPrice, atrMultiplier, rRatio);
      && r.value == HoldingPlan(round(p.sl, 2), round(p.tp, 2), round(p.atr, 4), round(p.oneR, 4),
                                round(p.currentRisk, 2), round(p.currentReward, 2), round(p.plPct, 2))
      && ((forall x, k :: round(x, k) == x) ==> r.value == p)
  {
    match Atr(bars, atrPeriod)
    case None => None
    case Some(atr) =>
      var p := HoldingLevels(atr, avgCost, currentPrice, atrMultiplier, rRatio);
      Some(HoldingPlan(round(p.sl, 2), round(p.tp, 2), round(p.atr, 4), round(p.oneR, 4),
                       round(p.currentRisk, 2), round(p.currentReward, 2), round(p.plPct, 2)))
  }

  /** From the average cost, the risk is one R and the reward `rRatio` R; the
      P/L percentage recovers the current price from the cost. */
  lemma HoldingRiskIsOneR(atr: real, avgCost: real, currentPrice: real, atrMultiplier: real, rRatio: real)
    ensures var p := HoldingLevels(atr, avgCost, currentPrice, atrMultiplier, rRatio);
      && p.currentRisk == p.oneR == atr * atrMultiplier
      && p.currentReward == p.currentRisk * rRatio
      && (avgCost > 0.0 ==> avgCost * (1.0 + p.plPct / 100.0) == currentPrice)
      && (avgCost <= 0.0 ==> p.plPct == 0.0)
  {
  }

  /** Holding levels are entry levels placed at the average cost. */
  lemma HoldingLevelsAreEntryLevelsAtCost(atr: real, avgCost: real, currentPrice: real,
                                          atrMultiplier: real, rRatio: real, maxLoss: real)
    ensures var h := HoldingLevels(atr, avgCost, currentPrice, atrMultiplier, rRatio);
      var e := EntryLevels(avgCost, atr, maxLoss, atrMultiplier, rRatio);
      h.sl == e.sl && h.tp == e.tp && h.oneR == e.oneR
  {
  }
}
