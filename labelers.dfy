// Threshold labels of the v2 metrics document (reports/labelers.py): volatility
// level, ownership concentration level, drawdown severity and return performance.
// A `LabelerError` is `Err`; a `None` argument is `None`.
module Labelers {
  import opened Wrappers
  import Concentration
  import Drawdown
  import Numerics

  /** Orders the three-step scales low < moderate < high and minor < moderate < severe. */
  function LevelRank(level: string): nat
  {
    if level == "low" || level == "minor" then 0
    else if level == "moderate" then 1
    else 2
  }

  // ---------------------------------------------------------------------------
  // classify_vol_level
  // ---------------------------------------------------------------------------

  /** Annualised volatility: below 20% low, up to and including 35% moderate, else high. */
  function ClassifyVolLevel(annVol: Option<real>): (r: Result<string>)
    ensures r.Err? <==> annVol.None? || annVol.value < 0.0 || annVol.value > 5.0
    ensures r.Ok? ==> r.value in {"low", "moderate", "high"}
    ensures r.Ok? ==> (r.value == "low" <==> annVol.value < 0.20)
    ensures r.Ok? ==> (r.value == "high" <==> annVol.value > 0.35)
  {
    if annVol.None? then Err("Volatility cannot be None")
    else if annVol.value < 0.0 then Err("Volatility must be non-negative")
    else if annVol.value > 5.0 then Err("Unrealistic volatility")
    else if annVol.value < 0.20 then Ok("low")
    else if annVol.value <= 0.35 then Ok("moderate")
    else Ok("high")
  }

  /** Higher volatility never gets a lower level; both band edges are moderate. */
  lemma VolLevelMonotone(a: real, b: real)
    requires 0.0 <= a <= b <= 5.0
    ensures LevelRank(ClassifyVolLevel(Some(a)).value) <= LevelRank(ClassifyVolLevel(Some(b)).value)
    ensures ClassifyVolLevel(Some(0.20)) == Ok("moderate") && ClassifyVolLevel(Some(0.35)) == Ok("moderate")
  {
  }

  // ---------------------------------------------------------------------------
  // classify_concentration
  // ---------------------------------------------------------------------------

  datatype ConcentrationLabel = ConcentrationLabel(level: string, basis: string)

  /** The level of a ratio in [0, 1] against its two band edges. */
  function Band(x: real, lowBelow: real, moderateUpTo: real): (level: string)
    requires lowBelow <= moderateUpTo
    ensures level in {"low", "moderate", "high"}
    ensures level == "low" <==> x < lowBelow
    ensures level == "high" <==> x > moderateUpTo
  {
    if x < lowBelow then "low" else if x <= moderateUpTo then "moderate" else "high"
  }

  /** CR5 when present (bands 25% and 40%), else HHI (bands 0.10 and 0.18), else
      unknown; the measure used must lie in [0, 1]. */
  function ClassifyConcentration(cr5: Option<real>, hhi: Option<real>): (r: Result<ConcentrationLabel>)
    ensures r.Err? <==>
      (cr5.Some? && (cr5.value < 0.0 || cr5.value > 1.0)) ||
      (cr5.None? && hhi.Some? && (hhi.value < 0.0 || hhi.value > 1.0))
    ensures r.Ok? ==> (r.value.basis == "CR5" <==> cr5.Some?)
    ensures r.Ok? ==> (r.value.basis == "HHI" <==> cr5.None? && hhi.Some?)
    ensures r.Ok? ==> (r.value.level == "unknown" <==> cr5.None? && hhi.None?)
    ensures r.Ok? && cr5.None? && hhi.None? ==> r.value.basis == "insufficient_data"
    ensures r.Ok? && cr5.Some? ==> r.value.level == Band(cr5.value, 0.25, 0.40)
    ensures r.Ok? && cr5.None? && hhi.Some? ==> r.value.level == Band(hhi.value, 0.10, 0.18)
  {
    if cr5.Some? then
      if cr5.value < 0.0 || cr5.value > 1.0 then Err("CR5 must be between 0 and 1")
      else Ok(ConcentrationLabel(Band(cr5.value, 0.25, 0.40), "CR5"))
    else if hhi.Some? then
      if hhi.value < 0.0 || hhi.value > 1.0 then Err("HHI must be between 0 and 1")
      else Ok(ConcentrationLabel(Band(hhi.value, 0.10, 0.18), "HHI"))
    else Ok(ConcentrationLabel("unknown", "insufficient_data"))
  }

  /** Ratios the concentration calculator produces are always accepted, and the
      label is then based on CR5. */
  lemma ComputedConcentrationClassifies(d: seq<(string, real)>)
    requires Concentration.ConcentrationRatios(d).Ok?
    ensures var cr5 := Concentration.ConcentrationRatios(d).value.cr5;
      var hhi := Concentration.ShareSquares(Concentration.Values(d), Concentration.Total(d));
      ClassifyConcentration(Some(cr5), Some(hhi)) == Ok(ConcentrationLabel(Band(cr5, 0.25, 0.40), "CR5"))
  {
    Concentration.RatiosOrdered(d);
  }

  /** Without CR5 a computed HHI is accepted too: it lies within [CR1², CR1]. */
  lemma ComputedHerfindahlClassifies(d: seq<(string, real)>)
    requires |d| > 0 && Numerics.AllPositive(Concentration.Values(d))
    ensures var hhi := Concentration.ShareSquares(Concentration.Values(d), Concentration.Total(d));
      ClassifyConcentration(None, Some(hhi)) == Ok(ConcentrationLabel(Band(hhi, 0.10, 0.18), "HHI"))
  {
    Concentration.HerfindahlBounds(d);
    var cr1 := Concentration.ConcentrationRatios(d).value.cr1;
    assert cr1 * cr1 >= 0.0;
  }

  // ---------------------------------------------------------------------------
  // classify_drawdown_severity
  // ---------------------------------------------------------------------------

  /** Drawdown depth: under 10% minor, up to and including 25% moderate, else
      severe; a positive drawdown is an error and a missing one is unknown. */
  function ClassifyDrawdownSeverity(maxDrawdownPct: Option<real>): (r: Result<string>)
    ensures r.Err? <==> maxDrawdownPct.Some? && maxDrawdownPct.value > 0.0
    ensures r.Ok? ==> (r.value == "unknown" <==> maxDrawdownPct.None?)
    ensures r.Ok? && maxDrawdownPct.Some? ==> r.value in {"minor", "moderate", "severe"}
    ensures r.Ok? && maxDrawdownPct.Some? ==> (r.value == "minor" <==> maxDrawdownPct.value > -0.10)
    ensures r.Ok? && maxDrawdownPct.Some? ==> (r.value == "severe" <==> maxDrawdownPct.value < -0.25)
  {
    if maxDrawdownPct.None? then Ok("unknown")
    else if maxDrawdownPct.value > 0.0 then Err("Drawdown should be negative or zero")
    else
      var depth := Numerics.Abs(maxDrawdownPct.value);
      if depth < 0.10 then Ok("minor") else if depth <= 0.25 then Ok("moderate") else Ok("severe")
  }

  /** A deeper drawdown is never labelled less severe. */
  lemma DrawdownSeverityMonotone(a: real, b: real)
    requires b <= a <= 0.0
    ensures LevelRank(ClassifyDrawdownSeverity(Some(a)).value) <= LevelRank(ClassifyDrawdownSeverity(Some(b)).value)
  {
  }

  /** The drawdown calculator's result is always accepted and gets a real label. */
  lemma ComputedDrawdownClassifies(p: seq<real>)
    requires Numerics.AllPositive(p) && |p| >= 1
    ensures var r := ClassifyDrawdownSeverity(Some(Drawdown.Drawdowns(p)[Drawdown.Trough(p)]));
      r.Ok? && r.value in {"minor", "moderate", "severe"}
  {
    Drawdown.MaxDrawdownIsMinimum(p);
  }

  // ---------------------------------------------------------------------------
  // classify_return_performance
  // ---------------------------------------------------------------------------

  /** The dictionary classify_return_performance returns; the unknown result has
      no best period or return. */
  datatype Performance = Performance(
    overall: string, trend: string, bestPeriod: Option<string>, bestReturn: Option<real>)

  const UnknownPerformance := Performance("unknown", "unknown", None, None)

  /** Longest period first. */
  const PeriodsOrder: seq<string> := ["1Y", "6M", "3M", "1M", "1W", "1D"]

  predicate Available(rets: map<string, Option<real>>, period: string)
  {
    period in rets && rets[period].Some?
  }

  /** The loop with `break`: the first period of `order[from..]` that has a value. */
  function FirstAvailable(rets: map<string, Option<real>>, order: seq<string>, from: nat): (i: Option<nat>)
    requires from <= |order|
    ensures i.Some? ==> from <= i.value < |order| && Available(rets, order[i.value])
    ensures i.Some? ==> forall j :: from <= j < i.value ==> !Available(rets, order[j])
    ensures i.None? <==> forall j :: from <= j < |order| ==> !Available(rets, order[j])
    decreases |order| - from
  {
    if from == |order| then None
    else if Available(rets, order[from]) then Some(from)
    else FirstAvailable(rets, order, from + 1)
  }

  /** Return bands at +-5% and +-20%, all strict. */
  function PerformanceBand(x: real): string
  {
    if x > 0.20 then "strong"
    else if x > 0.05 then "positive"
    else if x > -0.05 then "flat"
    else if x > -0.20 then "negative"
    else "poor"
  }

  function PerformanceRank(band: string): nat
  {
    if band == "poor" then 0 else if band == "negative" then 1 else if band == "flat" then 2
    else if band == "positive" then 3 else 4
  }

  /** A higher return never gets a lower band. */
  lemma PerformanceBandMonotone(a: real, b: real)
    requires a <= b
    ensures PerformanceRank(PerformanceBand(a)) <= PerformanceRank(PerformanceBand(b))
  {
  }

  /** The one-month return against the one-year return. */
  function Trend(rets: map<string, Option<real>>): (t: string)
    ensures t == "unknown" <==> !(Available(rets, "1M") && Available(rets, "1Y"))
  {
    if Available(rets, "1M") && Available(rets, "1Y") then
      var monthly, yearly := rets["1M"].value, rets["1Y"].value;
      if monthly > yearly * 0.5 then "accelerating"
      else if monthly < yearly * 0.1 then "decelerating"
      else "consistent"
    else "unknown"
  }

  function ClassifyReturnPerformance(rets: map<string, Option<real>>): (p: Performance)
    ensures p == UnknownPerformance <==> forall j :: 0 <= j < |PeriodsOrder| ==> !Available(rets, PeriodsOrder[j])
    ensures p.bestPeriod.Some? ==>
      (p.bestPeriod.value in PeriodsOrder && Available(rets, p.bestPeriod.value) &&
       p.bestReturn == rets[p.bestPeriod.value] && p.overall == PerformanceBand(p.bestReturn.value))
    ensures p.trend == Trend(rets)
  {
    match FirstAvailable(rets, PeriodsOrder, 0)
      case None => UnknownPerformance
      case Some(i) =>
        var period := PeriodsOrder[i];
        var best := rets[period].value;
        Performance(PerformanceBand(best), Trend(rets), Some(period), Some(best))
  }

  /** The longest available period is the one classified: a one-year return, when
      present, always decides the overall label, and no longer period was skipped. */
  lemma LongestPeriodWins(rets: map<string, Option<real>>, i: nat)
    requires i < |PeriodsOrder| && Available(rets, PeriodsOrder[i])
    ensures ClassifyReturnPerformance(rets).bestPeriod.Some?
    ensures var best := ClassifyReturnPerformance(rets).bestPeriod.value;
      exists k :: 0 <= k <= i && PeriodsOrder[k] == best &&
        forall j :: 0 <= j < k ==> !Available(rets, PeriodsOrder[j])
  {
    var k := FirstAvailable(rets, PeriodsOrder, 0);
    assert k.Some?;
  }

  /** A trend is reported only alongside an overall label: with one-year and
      one-month values present the result is never unknown. */
  lemma TrendNeedsBothPeriods(rets: map<string, Option<real>>)
    requires Available(rets, "1M") && Available(rets, "1Y")
    ensures ClassifyReturnPerformance(rets).bestPeriod == Some("1Y")
    ensures ClassifyReturnPerformance(rets).trend != "unknown"
  {
    assert PeriodsOrder[0] == "1Y";
  }
}
