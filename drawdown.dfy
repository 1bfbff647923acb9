// Maximum drawdown with its peak, trough and recovery
// (analysis/calculations/drawdown.py). The source's `abs(x - y) < 1e-10`
// comparisons are exact equalities here.
module Drawdown {
  import opened Wrappers
  import opened Numerics

  /** The dictionary drawdown_stats returns. */
  datatype DrawdownStats<D> = DrawdownStats(
    maxDrawdownPct: real,
    peakDate: D,
    troughDate: D,
    recoveryDate: Option<D>,
    drawdownDays: int,
    recoveryDays: Option<int>)

  /** np.maximum.accumulate(prices)[i]. */
  function RunMax(p: seq<real>, i: nat): (m: real)
    requires i < |p|
    ensures m >= p[i]
  {
    if i == 0 then p[0] else Max(RunMax(p, i - 1), p[i])
  }

  /** The running maximum bounds every price seen so far. */
  lemma {:induction false} RunMaxBound(p: seq<real>, i: nat)
    requires i < |p|
    ensures forall j :: 0 <= j <= i ==> p[j] <= RunMax(p, i)
  {
    if i > 0 { RunMaxBound(p, i - 1); }
  }

  /** The running maximum is one of the prices seen so far. */
  lemma {:induction false} RunMaxAttained(p: seq<real>, i: nat) returns (j: nat)
    requires i < |p|
    ensures j <= i && p[j] == RunMax(p, i)
  {
    if i == 0 {
      j := 0;
    } else if p[i] >= RunMax(p, i - 1) {
      j := i;
    } else {
      j := RunMaxAttained(p, i - 1);
    }
  }

  /** prices / running_max - 1. */
  function Drawdowns(p: seq<real>): (d: seq<real>)
    requires AllPositive(p)
    ensures |d| == |p|
  {
    seq(|p|, i requires 0 <= i < |p| => p[i] / RunMax(p, i) - 1.0)
  }

  lemma RatioBounds(a: real, m: real)
    requires 0.0 < a <= m
    ensures 0.0 < a / m <= 1.0
    ensures a / m == 1.0 <==> a == m
  {
    var q := a / m;
    assert q * m == a;
  }

  /** Every drawdown lies in (-1, 0], and is 0 exactly at a new running high. */
  lemma DrawdownBounds(p: seq<real>, i: nat)
    requires AllPositive(p) && i < |p|
    ensures -1.0 < Drawdowns(p)[i] <= 0.0
    ensures Drawdowns(p)[i] == 0.0 <==> p[i] == RunMax(p, i)
  {
    var d := Drawdowns(p);
    assert d[i] == p[i] / RunMax(p, i) - 1.0;
    RatioBounds(p[i], RunMax(p, i));
  }

  /** np.argmin over s[..n]: the earliest index of the smallest value. */
  function FirstArgMin(s: seq<real>, n: nat): (t: nat)
    requires 1 <= n <= |s|
    ensures t < n
    ensures forall j :: 0 <= j < n ==> s[t] <= s[j]
    ensures forall j :: 0 <= j < t ==> s[j] > s[t]
  {
    if n == 1 then 0
    else
      var k := FirstArgMin(s, n - 1);
      if s[n - 1] < s[k] then n - 1 else k
  }

  /** The first index below n holding the value v, or n when there is none. */
  function FirstEqual(p: seq<real>, v: real, n: nat): (k: nat)
    requires n <= |p|
    ensures k <= n
    ensures k < n ==> p[k] == v
    ensures forall j :: 0 <= j < k ==> p[j] != v
  {
    if n == 0 then 0
    else
      var k := FirstEqual(p, v, n - 1);
      if k < n - 1 then k else if p[n - 1] == v then n - 1 else n
  }

  /** The first index at or after `from` whose price exceeds v. */
  function FirstAbove(p: seq<real>, v: real, from: nat): (r: Option<nat>)
    requires from <= |p|
    ensures r.Some? ==> from <= r.value < |p| && p[r.value] > v
    ensures r.Some? ==> forall j :: from <= j < r.value ==> p[j] <= v
    ensures r.None? ==> forall j :: from <= j < |p| ==> p[j] <= v
    decreases |p| - from
  {
    if from == |p| then None
    else if p[from] > v then Some(from)
    else FirstAbove(p, v, from + 1)
  }

  function Trough(p: seq<real>): nat
    requires AllPositive(p) && |p| >= 1
  {
    FirstArgMin(Drawdowns(p), |p|)
  }

  function Peak(p: seq<real>): nat
    requires AllPositive(p) && |p| >= 1
  {
    var t := Trough(p);
    var k := FirstEqual(p, RunMax(p, t), t + 1);
    if k <= t then k else t
  }

  function Recovery(p: seq<real>): Option<nat>
    requires AllPositive(p) && |p| >= 1
  {
    var t := Trough(p);
    if Drawdowns(p)[t] == 0.0 then Some(Peak(p))
    else FirstAbove(p, RunMax(p, t), t + 1)
  }

  /** The statistics drawdown_stats reports for valid input. */
  function Stats<D>(p: seq<real>, dates: seq<D>): DrawdownStats<D>
    requires AllPositive(p) && |p| >= 1 && |dates| == |p|
  {
    StatsAt(dates, Drawdowns(p)[Trough(p)], Trough(p), Peak(p), Recovery(p))
  }

  /** The dictionary for a given drawdown, trough, peak and recovery index. */
  function StatsAt<D>(dates: seq<D>, maxDd: real, t: nat, pk: nat, rec: Option<nat>): DrawdownStats<D>
    requires t < |dates| && pk < |dates| && (rec.Some? ==> rec.value < |dates|)
  {
    DrawdownStats(
      maxDd,
      dates[pk],
      dates[t],
      if rec.Some? then Some(dates[rec.value]) else None,
      t - pk,
      if rec.Some? then Some(rec.value - t) else None)
  }

  /** The reported drawdown is the smallest one, lies in (-1, 0], and the trough
      is the earliest index reaching it. */
  lemma MaxDrawdownIsMinimum(p: seq<real>)
    requires AllPositive(p) && |p| >= 1
    ensures -1.0 < Drawdowns(p)[Trough(p)] <= 0.0
    ensures forall j :: 0 <= j < |p| ==> Drawdowns(p)[Trough(p)] <= Drawdowns(p)[j]
    ensures forall j :: 0 <= j < Trough(p) ==> Drawdowns(p)[j] > Drawdowns(p)[Trough(p)]
  {
    DrawdownBounds(p, Trough(p));
  }

  /** The peak is the first index up to the trough that holds the running maximum,
      so it comes no later than the trough and no earlier price beats it. */
  lemma PeakPrecedesTrough(p: seq<real>)
    requires AllPositive(p) && |p| >= 1
    ensures Peak(p) <= Trough(p)
    ensures p[Peak(p)] == RunMax(p, Trough(p))
    ensures forall j :: 0 <= j <= Trough(p) ==> p[j] <= p[Peak(p)]
    ensures forall j :: 0 <= j < Peak(p) ==> p[j] < p[Peak(p)]
  {
    var t := Trough(p);
    var m := RunMax(p, t);
    RunMaxBound(p, t);
    var j := RunMaxAttained(p, t);
    var k := FirstEqual(p, m, t + 1);
    assert k <= j;
  }

  /** Recovery: with a real drawdown, the first later price strictly above the
      peak; with none, the peak itself. */
  lemma RecoveryIsFirstAbovePeak(p: seq<real>)
    requires AllPositive(p) && |p| >= 1
    ensures Drawdowns(p)[Trough(p)] == 0.0 ==> Recovery(p) == Some(Peak(p))
    ensures Drawdowns(p)[Trough(p)] != 0.0 && Recovery(p).Some? ==>
      Trough(p) < Recovery(p).value < |p| && p[Recovery(p).value] > p[Peak(p)] &&
      forall j :: Trough(p) < j < Recovery(p).value ==> p[j] <= p[Peak(p)]
    ensures Drawdowns(p)[Trough(p)] != 0.0 && Recovery(p).None? ==>
      forall j :: Trough(p) < j < |p| ==> p[j] <= p[Peak(p)]
  {
    PeakPrecedesTrough(p);
  }

  predicate NonDecreasing(p: seq<real>) { forall i, j :: 0 <= i <= j < |p| ==> p[i] <= p[j] }

  lemma {:induction false} RunMaxOfNonDecreasing(p: seq<real>, i: nat)
    requires NonDecreasing(p) && i < |p|
    ensures RunMax(p, i) == p[i]
  {
    if i > 0 { RunMaxOfNonDecreasing(p, i - 1); }
  }

  /** The maximum drawdown is zero exactly when the prices never fall. */
  lemma ZeroDrawdownIffNonDecreasing(p: seq<real>)
    requires AllPositive(p) && |p| >= 1
    ensures Drawdowns(p)[Trough(p)] == 0.0 <==> NonDecreasing(p)
  {
    var t := Trough(p);
    DrawdownBounds(p, t);
    if NonDecreasing(p) {
      RunMaxOfNonDecreasing(p, t);
    } else {
      var a, b :| 0 <= a <= b < |p| && p[a] > p[b];
      RunMaxBound(p, b);
      DrawdownBounds(p, b);
      MaxDrawdownIsMinimum(p);
    }
  }

  /** np.maximum.accumulate, one price at a time. */
  method RunningMax(prices: seq<real>) returns (runningMax: seq<real>)
    ensures |runningMax| == |prices|
    ensures forall j :: 0 <= j < |prices| ==> runningMax[j] == RunMax(prices, j)
  {
    runningMax := [];
    var i := 0;
    while i < |prices|
      invariant 0 <= i <= |prices| && |runningMax| == i
      invariant forall j :: 0 <= j < i ==> runningMax[j] == RunMax(prices, j)
    {
      var m := if i == 0 then prices[0] else Max(runningMax[i - 1], prices[i]);
      assert m == RunMax(prices, i);
      runningMax := runningMax + [m];
      i := i + 1;
    }
  }

  /** The running maximum and `prices / running_max - 1`. */
  method RunningDrawdowns(prices: seq<real>) returns (runningMax: seq<real>, drawdowns: seq<real>)
    requires AllPositive(prices)
    ensures |runningMax| == |prices|
    ensures forall j :: 0 <= j < |prices| ==> runningMax[j] == RunMax(prices, j)
    ensures drawdowns == Drawdowns(prices)
  {
    runningMax := RunningMax(prices);
    drawdowns := seq(|prices|, i requires 0 <= i < |prices| => prices[i] / runningMax[i] - 1.0);
    assert forall i :: 0 <= i < |prices| ==> drawdowns[i] == Drawdowns(prices)[i];
  }

  /** np.argmin. */
  method ArgMin(s: seq<real>) returns (t: nat)
    requires |s| >= 1
    ensures t == FirstArgMin(s, |s|)
  {
    t := 0;
    var i := 1;
    while i < |s|
      invariant 1 <= i <= |s|
      invariant t == FirstArgMin(s, i)
    {
      if s[i] < s[t] {
        t := i;
      }
      i := i + 1;
    }
  }

  /** The peak scan: the first i < n with prices[i] == v, else `otherwise`. */
  method FindFirstEqual(prices: seq<real>, v: real, n: nat, otherwise: nat) returns (k: nat)
    requires n <= |prices|
    ensures k == if FirstEqual(prices, v, n) < n then FirstEqual(prices, v, n) else otherwise
  {
    k := otherwise;
    var i := 0;
    while i < n
      invariant 0 <= i <= n
      invariant forall j :: 0 <= j < i ==> prices[j] != v
    {
      if prices[i] == v {
        assert FirstEqual(prices, v, n) == i;
        return i;
      }
      i := i + 1;
    }
  }

  /** The recovery scan: the first i >= from with prices[i] > v. */
  method FindFirstAbove(prices: seq<real>, v: real, from: nat) returns (r: Option<nat>)
    requires from <= |prices|
    ensures r == FirstAbove(prices, v, from)
  {
    var i := from;
    while i < |prices|
      invariant from <= i <= |prices|
      invariant FirstAbove(prices, v, from) == FirstAbove(prices, v, i)
    {
      if prices[i] > v {
        return Some(i);
      }
      i := i + 1;
    }
    return None;
  }

  /** drawdown_stats. */
  method DrawdownStatsOf<D>(prices: seq<real>, dates: seq<D>) returns (r: Result<DrawdownStats<D>>)
    ensures r.Err? <==> |prices| < 2 || |prices| != |dates| || !AllPositive(prices)
    ensures r.Ok? ==> r.value == Stats(prices, dates)
  {
    if |prices| < 2 {
      return Err("Insufficient data: need at least 2 prices");
    }
    if |prices| != |dates| {
      return Err("Prices and dates must have same length");
    }
    if !AllPositive(prices) {
      return Err("Zero or negative prices not allowed");
    }
    var stats := StatsOfValid(prices, dates);
    return Ok(stats);
  }

  /** The body of drawdown_stats once its input checks have passed. */
  method StatsOfValid<D>(prices: seq<real>, dates: seq<D>) returns (stats: DrawdownStats<D>)
    requires |prices| >= 2 && |prices| == |dates| && AllPositive(prices)
    ensures stats == Stats(prices, dates)
  {
    var runningMax, drawdowns := RunningDrawdowns(prices);
    var maxDdIdx := ArgMin(drawdowns);
    var maxDrawdownPct := drawdowns[maxDdIdx];
    var troughIdx := maxDdIdx;
    var peakValue := runningMax[maxDdIdx];
    assert troughIdx == Trough(prices);
    var peakIdx := FindFirstEqual(prices, peakValue, maxDdIdx + 1, maxDdIdx);
    assert peakIdx == Peak(prices);
    var recoveryIdx: Option<nat>;
    if maxDrawdownPct == 0.0 {
      recoveryIdx := Some(peakIdx);
    } else {
      recoveryIdx := FindFirstAbove(prices, peakValue, troughIdx + 1);
    }
    assert recoveryIdx == Recovery(prices);
    // drawdown_days = trough - peak, recovery_days = recovery - trough
    stats := StatsAt(dates, maxDrawdownPct, troughIdx, peakIdx, recoveryIdx);
  }

  /** The window of `window` prices starting at j is valid input to drawdown_stats. */
  predicate WindowOk(prices: seq<real>, window: nat, j: nat)
  {
    window >= 2 && j + window <= |prices| && AllPositive(prices[j..j + window])
  }

  /** drawdown_stats of the window of `window` prices and dates starting at j. */
  function WindowStats<D>(prices: seq<real>, dates: seq<D>, window: nat, j: nat): DrawdownStats<D>
    requires WindowOk(prices, window, j) && |dates| == |prices|
  {
    Stats(prices[j..j + window], dates[j..j + window])
  }

  /** Positive windows that cover every index leave no non-positive price. */
  lemma WindowsCover(prices: seq<real>, window: nat)
    requires 1 <= window <= |prices|
    requires forall j :: 0 <= j <= |prices| - window ==> WindowOk(prices, window, j)
    ensures AllPositive(prices)
  {
    forall k | 0 <= k < |prices| ensures prices[k] > 0.0 {
      var j := if k <= |prices| - window then k else |prices| - window;
      assert WindowOk(prices, window, j);
      assert prices[k] == prices[j..j + window][k - j];
    }
  }

  /** rolling_drawdown: the statistics of every window of `window` prices, oldest first. */
  method RollingDrawdown<D>(prices: seq<real>, dates: seq<D>, window: nat)
    returns (r: Result<seq<DrawdownStats<D>>>)
    ensures r.Err? <==> |prices| < window || |prices| != |dates| || window < 2 || !AllPositive(prices)
    ensures r.Ok? ==> |r.value| == |prices| - window + 1
    ensures r.Ok? ==> forall j :: 0 <= j < |r.value| ==>
      WindowOk(prices, window, j) && r.value[j] == WindowStats(prices, dates, window, j)
  {
    if |prices| < window {
      return Err("Insufficient data for window");
    }
    if |prices| != |dates| {
      return Err("Prices and dates must have same length");
    }
    r := CollectWindows(prices, dates, window);
  }

  /** Appending the statistics of window `lo` extends the windows computed so far by one. */
  lemma AppendWindow<D>(done: seq<DrawdownStats<D>>, prices: seq<real>, dates: seq<D>, window: nat, lo: nat,
                        s: DrawdownStats<D>)
    requires |done| == lo && WindowOk(prices, window, lo) && |dates| == |prices|
    requires s == WindowStats(prices, dates, window, lo)
    requires forall j :: 0 <= j < lo ==> WindowOk(prices, window, j) && done[j] == WindowStats(prices, dates, window, j)
    ensures forall j :: 0 <= j < lo + 1 ==>
      WindowOk(prices, window, j) && (done + [s])[j] == WindowStats(prices, dates, window, j)
  {
  }

  /** The loop of rolling_drawdown, once the lengths have been checked. */
  method CollectWindows<D>(prices: seq<real>, dates: seq<D>, window: nat)
    returns (r: Result<seq<DrawdownStats<D>>>)
    requires window <= |prices| && |prices| == |dates|
    ensures r.Err? <==> window < 2 || !AllPositive(prices)
    ensures r.Ok? ==> |r.value| == |prices| - window + 1
    ensures r.Ok? ==> forall j :: 0 <= j < |r.value| ==>
      WindowOk(prices, window, j) && r.value[j] == WindowStats(prices, dates, window, j)
  {
    var rollingStats: seq<DrawdownStats<D>> := [];
    // the window ending at index i = lo + window - 1
    var lo := 0;
    while lo + window <= |prices|
      invariant 0 <= lo <= |prices| - window + 1
      invariant |rollingStats| == lo
      invariant forall j :: 0 <= j < lo ==>
        WindowOk(prices, window, j) && rollingStats[j] == WindowStats(prices, dates, window, j)
    {
      var stats := DrawdownStatsOf(prices[lo..lo + window], dates[lo..lo + window]);
      assert AllPositive(prices) ==> AllPositive(prices[lo..lo + window]);
      if stats.Err? {
        return Err(stats.msg);
      }
      AppendWindow(rollingStats, prices, dates, window, lo, stats.value);
      rollingStats := rollingStats + [stats.value];
      lo := lo + 1;
    }
    assert WindowOk(prices, window, 0);
    WindowsCover(prices, window);
    return Ok(rollingStats);
  }

  /** calculate_drawdown_metrics: `None` is the all-None dictionary. */
  method CalculateDrawdownMetrics<D>(prices: seq<real>, dates: seq<D>, minPeriods: int)
    returns (r: Option<DrawdownStats<D>>)
    ensures r.Some? <==> |prices| >= minPeriods && |prices| >= 2 && |prices| == |dates| && AllPositive(prices)
    ensures r.Some? ==> r.value == Stats(prices, dates)
  {
    if |prices| < minPeriods {
      return None;
    }
    var stats := DrawdownStatsOf(prices, dates);
    if stats.Err? {
      return None;
    }
    return Some(stats.value);
  }
}
