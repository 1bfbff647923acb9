// Search-interest signals (sentiment/google_trends.py): the baseline size check, the
// abnormality of the current search volume against the baseline, the volume trend
// of a recent period against a baseline period, the record validator and the
// ticker-to-company lookup. Fetching from Google Trends is not part of this model;
// numpy/scipy are the uninterpreted `MathOps`, and UUID parsing is a parameter.
module GoogleTrends {
  import opened Wrappers
  import opened Text
  import opened Dates
  import opened Numerics
  import opened Abnormality

  // ---------------------------------------------------------------------------
  // calculate_search_baseline

  const MinBaselinePoints := 7

  /** The percentile ranks the baseline reports. */
  const PercentileRanks: seq<nat> := [10, 25, 50, 75, 90, 95, 99]

  /** The baseline statistics; `InsufficientBaseline` is the `insufficient_data` status. */
  datatype SearchBaseline =
    | InsufficientBaseline(dataPoints: nat)
    | SearchBaseline(dataPoints: nat, meanValue: real, stdValue: real, medianValue: real,
                     minValue: real, maxValue: real, percentiles: seq<(nat, real)>)

  function AsReals(vs: seq<int>): (rs: seq<real>)
    ensures |rs| == |vs| && forall i :: 0 <= i < |vs| ==> rs[i] == vs[i] as real
  {
    seq(|vs|, i requires 0 <= i < |vs| => vs[i] as real)
  }

  /** `calculate_search_baseline` over the records' search volumes: fewer than seven volumes are
      not enough; otherwise the mean, sample deviation, median and range. */
  function CalculateSearchBaseline(volumes: seq<int>, ops: MathOps): (b: SearchBaseline)
    ensures b.dataPoints == |volumes|
    ensures b.SearchBaseline? <==> |volumes| >= MinBaselinePoints
    ensures b.SearchBaseline? ==> b.minValue <= b.meanValue <= b.maxValue
    ensures b.SearchBaseline? ==> |b.percentiles| == |PercentileRanks|
                                  && forall i :: 0 <= i < |b.percentiles| ==> b.percentiles[i].0 == PercentileRanks[i]
  {
    if |volumes| < MinBaselinePoints then InsufficientBaseline(|volumes|)
    else
      var rs := AsReals(volumes);
      var mean := Sum(rs) / |rs| as real;
      MeanWithinRange(rs, SeqMin(rs), SeqMax(rs));
      SearchBaseline(|volumes|, mean, ops.sampleStd(rs), ops.percentile(rs, 50.0), SeqMin(rs), SeqMax(rs),
                     seq(|PercentileRanks|, i requires 0 <= i < |PercentileRanks| =>
                       (PercentileRanks[i], ops.percentile(rs, PercentileRanks[i] as real))))
  }

  /** The mean of values within bounds is within the same bounds. */
  lemma MeanWithinRange(xs: seq<real>, lo: real, hi: real)
    requires xs != []
    requires forall i :: 0 <= i < |xs| ==> lo <= xs[i] <= hi
    ensures lo <= Sum(xs) / |xs| as real <= hi
  {
    SumBetween(xs, lo, hi);
    QuotientBetween(Sum(xs), |xs| as real, lo, hi);
  }

  lemma QuotientBetween(s: real, n: real, lo: real, hi: real)
    requires n > 0.0 && n * lo <= s <= n * hi
    ensures lo <= s / n <= hi
  {
    var m := s / n;
    assert m * n == s;
  }

  lemma {:induction false} SumBetween(xs: seq<real>, lo: real, hi: real)
    requires forall i :: 0 <= i < |xs| ==> lo <= xs[i] <= hi
    ensures |xs| as real * lo <= Sum(xs) <= |xs| as real * hi
    decreases |xs|
  {
    if xs != [] {
      SumBetween(xs[..|xs| - 1], lo, hi);
    }
  }

  // ---------------------------------------------------------------------------
  // detect_search_abnormality

  const AboveNormal := "above_normal"
  const BelowNormal := "below_normal"

  datatype SearchAbnormality =
    | NoBaseline(currentVolume: int)
    | SearchAbnormality(currentVolume: int, baselineMean: real, baselineStd: real, zScore: real,
                        percentile: real, classification: string, direction: string,
                        confidence: real, baselineDataPoints: nat)

  /** Above 0.1 is above normal, below -0.1 below normal. */
  function VolumeDirection(z: real): string
  {
    if z > 0.1 then AboveNormal else if z < -0.1 then BelowNormal else Normal
  }

  /** `detect_search_abnormality`: no baseline without enough data; otherwise the capped z-score,
      its class and direction, and a confidence that is full from 30 baseline points on. */
  function DetectSearchAbnormality(currentVolume: int, baseline: SearchBaseline, cap: real, ops: MathOps): (r: SearchAbnormality)
    ensures r.NoBaseline? <==> baseline.InsufficientBaseline?
    ensures r.currentVolume == currentVolume
    ensures r.SearchAbnormality? ==>
      && r.baselineMean == baseline.meanValue && r.baselineStd == baseline.stdValue
      && r.zScore == CappedZScore(currentVolume as real, baseline.meanValue, baseline.stdValue, cap)
      && r.percentile == ops.normCdf(r.zScore)
      && r.direction == VolumeDirection(r.zScore)
      && r.baselineDataPoints == baseline.dataPoints
      && Abs(r.zScore) <= Abs(cap)
      && (baseline.stdValue <= 0.0 ==> r.zScore == 0.0 && r.direction == Normal && r.classification == Normal)
      && r.classification == ZClass(Abs(r.zScore))
      && r.confidence == Confidence(baseline.dataPoints, 30.0)
      && (cap > 0.0 && r.direction == AboveNormal ==> currentVolume as real > baseline.meanValue)
      && (cap > 0.0 && r.direction == BelowNormal ==> (currentVolume as real) < baseline.meanValue)
  {
    if baseline.InsufficientBaseline? then NoBaseline(currentVolume)
    else
      var z := CappedZScore(currentVolume as real, baseline.meanValue, baseline.stdValue, cap);
      SearchAbnormality(currentVolume, baseline.meanValue, baseline.stdValue, z, ops.normCdf(z),
                        ZClass(Abs(z)), VolumeDirection(z), Confidence(baseline.dataPoints, 30.0),
                        baseline.dataPoints)
  }

  /** A higher volume against the same baseline never reads as less abnormal upwards: its
      z-score is at least as large. */
  lemma HigherVolumeHigherScore(v1: int, v2: int, baseline: SearchBaseline, cap: real, ops: MathOps)
    requires baseline.SearchBaseline? && v1 <= v2
    ensures DetectSearchAbnormality(v1, baseline, cap, ops).zScore <= DetectSearchAbnormality(v2, baseline, cap, ops).zScore
  {
    if baseline.stdValue > 0.0 {
      CappedZScoreMonotone(v1 as real, v2 as real, baseline.meanValue, baseline.stdValue, cap);
    }
  }

  // ---------------------------------------------------------------------------
  // calculate_search_volume_trend

  const Minimal := "minimal"
  const ModerateTrend := "moderate"
  const Significant := "significant"
  const ExtremeTrend := "extreme"
  const Increasing := "increasing"
  const Decreasing := "decreasing"
  const Stable := "stable"

  datatype VolumeTrend =
    | InsufficientData(currentDataPoints: nat, baselineDataPoints: nat)
    | VolumeTrend(currentAvgVolume: real, baselineAvgVolume: real, trendPercent: real,
                  trendMagnitude: string, trendDirection: string,
                  currentDataPoints: nat, baselineDataPoints: nat)

  /** `np.mean`: the value whose multiple by the count is the total. */
  function Average(vs: seq<int>): (a: real)
    requires vs != []
    ensures a * |vs| as real == Sum(AsReals(vs))
  {
    Sum(AsReals(vs)) / |vs| as real
  }

  /** `(c - b) / b * 100`, or 0 for a baseline average that is not positive. */
  function TrendPercent(current: real, baseline: real): (p: real)
    ensures baseline <= 0.0 ==> p == 0.0
    ensures baseline > 0.0 ==> (p > 0.0 <==> current > baseline) && (p < 0.0 <==> current < baseline)
    ensures baseline > 0.0 && current >= 0.0 ==> p >= -100.0
  {
    if baseline > 0.0 then
      var q := (current - baseline) / baseline;
      RelativeChange(current, baseline);
      q * 100.0
    else 0.0
  }

  lemma RelativeChange(current: real, baseline: real)
    requires baseline > 0.0
    ensures var q := (current - baseline) / baseline;
      && (q > 0.0 <==> current > baseline) && (q < 0.0 <==> current < baseline)
      && (current >= 0.0 ==> q >= -1.0)
  {
    var q := (current - baseline) / baseline;
    assert q * baseline == current - baseline;
    SignOfQuotient(current - baseline, baseline);
  }

  /** At most 20 minimal, 50 moderate, 100 significant, beyond that extreme. */
  function TrendMagnitude(pct: real): string
  {
    var a := Abs(pct);
    if a <= 20.0 then Minimal else if a <= 50.0 then ModerateTrend else if a <= 100.0 then Significant else ExtremeTrend
  }

  /** Above 5 increasing, below -5 decreasing, else stable. */
  function TrendDirection(pct: real): string
  {
    if pct > 5.0 then Increasing else if pct < -5.0 then Decreasing else Stable
  }

  /** `calculate_search_volume_trend` over the two periods' search volumes. */
  function CalculateSearchVolumeTrend(current: seq<int>, baseline: seq<int>): (r: VolumeTrend)
    ensures r.InsufficientData? <==> current == [] || baseline == []
    ensures r.currentDataPoints == |current| && r.baselineDataPoints == |baseline|
    ensures r.VolumeTrend? ==>
      && r.currentAvgVolume == Average(current)
      && r.baselineAvgVolume == Average(baseline)
      && r.trendPercent == TrendPercent(r.currentAvgVolume, r.baselineAvgVolume)
      && r.trendMagnitude == TrendMagnitude(r.trendPercent)
      && r.trendDirection == TrendDirection(r.trendPercent)
  {
    if current == [] || baseline == [] then InsufficientData(|current|, |baseline|)
    else
      var c := Average(current);
      var b := Average(baseline);
      var pct := TrendPercent(c, b);
      VolumeTrend(c, b, pct, TrendMagnitude(pct), TrendDirection(pct), |current|, |baseline|)
  }

  predicate NonNegativeVolumes(vs: seq<int>)
  {
    forall i :: 0 <= i < |vs| ==> vs[i] >= 0
  }

  /** Search volumes are never negative, so an increase means a higher current average, a
      decrease a lower one, and a decrease is never extreme (it cannot exceed 100%). */
  lemma TrendMeaning(current: seq<int>, baseline: seq<int>)
    requires current != [] && baseline != []
    requires NonNegativeVolumes(current) && NonNegativeVolumes(baseline)
    ensures var r := CalculateSearchVolumeTrend(current, baseline);
      && (r.trendDirection == Increasing ==> r.currentAvgVolume > r.baselineAvgVolume)
      && (r.trendDirection == Decreasing ==> r.currentAvgVolume < r.baselineAvgVolume)
      && (r.trendDirection == Decreasing ==> r.trendMagnitude != ExtremeTrend)
  {
    AverageNonNegative(current);
  }

  lemma AverageNonNegative(vs: seq<int>)
    requires vs != [] && NonNegativeVolumes(vs)
    ensures Average(vs) >= 0.0
  {
    var rs := AsReals(vs);
    assert AllNonNegative(rs);
    SumNonNegative(rs);
  }

  // ---------------------------------------------------------------------------
  // validate_trends_record

  /** The fields the validator reads; `None` stands for a missing key or a `None` value. */
  datatype TrendsRecord = TrendsRecord(id: Option<string>, ticker: Option<string>, searchTerm: Option<string>,
                                       date: Option<CalendarDate>, searchVolume: Option<int>,
                                       geo: Option<string>, timeframe: Option<string>, fetchedAt: Option<DateTime>)

  predicate Complete(r: TrendsRecord)
  {
    r.id.Some? && r.ticker.Some? && r.searchTerm.Some? && r.date.Some? && r.searchVolume.Some?
    && r.geo.Some? && r.timeframe.Some? && r.fetchedAt.Some?
  }

  /** A ticker of one to five letters. */
  predicate WellFormedTicker(t: string)
  {
    1 <= |t| <= 5 && AllAlpha(t)
  }

  /** `validate_trends_record`; `isUuid` stands for `uuid.UUID(...)` accepting the id. */
  function ValidateTrendsRecord(r: TrendsRecord, isUuid: string -> bool): (ok: bool)
    ensures ok <==> Complete(r) && 0 <= r.searchVolume.value <= 100 && WellFormedTicker(r.ticker.value)
                    && isUuid(r.id.value)
  {
    if !Complete(r) then false
    else if !(0 <= r.searchVolume.value <= 100) then false
    else if !(1 <= |r.ticker.value| <= 5) || !AllAlpha(r.ticker.value) then false
    else isUuid(r.id.value)
  }

  // ---------------------------------------------------------------------------
  // get_company_name_for_ticker

  const TickerCompanies: map<string, string> := map[
    "AAPL" := "Apple", "MSFT" := "Microsoft", "GOOGL" := "Google", "AMZN" := "Amazon",
    "TSLA" := "Tesla", "META" := "Meta", "NVDA" := "Nvidia", "NFLX" := "Netflix",
    "CRM" := "Salesforce", "ORCL" := "Oracle"]

  /** `get_company_name_for_ticker`: the upper-cased ticker looked up in the fixed table. */
  function GetCompanyNameForTicker(ticker: string): (r: Option<string>)
    ensures r.Some? <==> Upper(ticker) in TickerCompanies
    ensures r.Some? ==> r.value == TickerCompanies[Upper(ticker)]
  {
    var key := Upper(ticker);
    if key in TickerCompanies then Some(TickerCompanies[key]) else None
  }

  /** The lookup ignores case. */
  lemma CompanyLookupIgnoresCase(ticker: string)
    ensures GetCompanyNameForTicker(Lower(ticker)) == GetCompanyNameForTicker(ticker)
    ensures GetCompanyNameForTicker(Upper(ticker)) == GetCompanyNameForTicker(ticker)
  {
    UpperOfLower(ticker);
    UpperOfUpper(ticker);
  }

  lemma UpperOfLower(s: string)
    ensures Upper(Lower(s)) == Upper(s)
  {
    var a, b := Upper(Lower(s)), Upper(s);
    forall i | 0 <= i < |s| ensures a[i] == b[i] {
      CaseChar(s[i]);
    }
  }

  lemma UpperOfUpper(s: string)
    ensures Upper(Upper(s)) == Upper(s)
  {
    var a, b := Upper(Upper(s)), Upper(s);
    forall i | 0 <= i < |s| ensures a[i] == b[i] {
      CaseChar(s[i]);
    }
  }

  lemma CaseChar(c: char)
    ensures ToUpper(ToLower(c)) == ToUpper(c) && ToUpper(ToUpper(c)) == ToUpper(c)
  {
  }

  /** Every ticker in the table passes the record validator's ticker check. */
  lemma TableTickersAreWellFormed()
    ensures forall t :: t in TickerCompanies ==> WellFormedTicker(t)
  {
    forall t | t in TickerCompanies
      ensures WellFormedTicker(t)
    {
      assert t in {"AAPL", "MSFT", "GOOGL", "AMZN", "TSLA", "META", "NVDA", "NFLX", "CRM", "ORCL"};
    }
  }
}
