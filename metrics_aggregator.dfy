// The metrics document for one ticker (analysis/metrics_aggregator.py): the price
// series is filtered and ordered by date, passed through the returns, volatility
// and drawdown calculators, the 13F holdings through the concentration calculator,
// and coverage figures are derived from the dates. The clock (`date.today`,
// `datetime.now`) is a parameter.
module MetricsAggregator {
  import opened Wrappers
  import opened Numerics
  import opened Dates
  import Returns
  import Volatility
  import Drawdown
  import Concentration
  import Guardrails
  import Text

  /** A row of the price frame. `source` is None when the frame has no such column. */
  datatype PriceRow = PriceRow(ticker: string, date: CalendarDate, close: real, source: Option<string>)

  /** A record of the holdings frame, as `to_dict('records')` yields it. */
  datatype HoldingRecord = HoldingRecord(
    ticker: string, filer: string, valueUsd: real, shares: real, asOf: CalendarDate, source: Option<string>)

  datatype DataPeriod = DataPeriod(startDate: string, endDate: string, tradingDays: nat)

  datatype DrawdownSummary = DrawdownSummary(
    maxDrawdownPct: Option<real>,
    peakDate: Option<string>,
    troughDate: Option<string>,
    recoveryDate: Option<string>,
    drawdownDays: Option<int>,
    recoveryDays: Option<int>)

  const NullDrawdown := DrawdownSummary(None, None, None, None, None, None)

  datatype CurrentPrice = CurrentPrice(close: real, date: string)

  datatype PriceMetrics = PriceMetrics(
    periodReturns: map<string, Option<real>>,
    volatility: map<string, Option<real>>,
    drawdown: DrawdownSummary,
    currentPrice: CurrentPrice)

  datatype TopHolder = TopHolder(rank: nat, filer: string, valueUsd: real, shares: real, pctOf13FTotal: real)

  datatype InstitutionalMetrics = InstitutionalMetrics(
    total13FValueUsd: real,
    total13FHolders: nat,
    cr1: Option<real>,
    cr5: Option<real>,
    cr10: Option<real>,
    hhi: Option<real>,
    topHolders: seq<TopHolder>,
    quarterEnd: string,
    filingLagDays: int)

  datatype DataQuality = DataQuality(
    priceCoveragePct: real,
    missingPriceDays: nat,
    latest13FQuarter: Option<string>,
    ageDays13F: Option<int>)

  datatype Metadata = Metadata(calculatedAt: string, calculationVersion: string, dataSources: set<string>)

  datatype MetricsDoc = MetricsDoc(
    ticker: string,
    asOfDate: string,
    dataPeriod: DataPeriod,
    priceMetrics: PriceMetrics,
    institutionalMetrics: Option<InstitutionalMetrics>,
    dataQuality: DataQuality,
    metadata: Metadata)

  // ---------------------------------------------------------------------------
  // Filtering and ordering rows
  // ---------------------------------------------------------------------------

  function PriceRowsOf(rows: seq<PriceRow>, ticker: string): (r: seq<PriceRow>)
    ensures forall i :: 0 <= i < |r| ==> r[i].ticker == ticker
    ensures r == [] <==> forall i :: 0 <= i < |rows| ==> rows[i].ticker != ticker
  {
    if rows == [] then []
    else
      var init := PriceRowsOf(rows[..|rows| - 1], ticker);
      assert forall i :: 0 <= i < |rows| - 1 ==> rows[..|rows| - 1][i] == rows[i];
      init + (if rows[|rows| - 1].ticker == ticker then [rows[|rows| - 1]] else [])
  }

  function HoldingsOf(rows: seq<HoldingRecord>, ticker: string): (r: seq<HoldingRecord>)
    ensures forall i :: 0 <= i < |r| ==> r[i].ticker == ticker
  {
    if rows == [] then []
    else HoldingsOf(rows[..|rows| - 1], ticker) + (if rows[|rows| - 1].ticker == ticker then [rows[|rows| - 1]] else [])
  }

  predicate DateOrdered(rows: seq<PriceRow>)
  {
    forall i :: 0 <= i < |rows| - 1 ==> NotAfter(rows[i].date, rows[i + 1].date)
  }

  function InsertByDate(x: PriceRow, rows: seq<PriceRow>): (r: seq<PriceRow>)
    requires DateOrdered(rows)
    ensures |r| == |rows| + 1 && multiset(r) == multiset(rows) + multiset{x}
    ensures r[0] == x || (rows != [] && r[0] == rows[0])
    ensures DateOrdered(r)
  {
    if rows == [] then [x]
    else if NotAfter(rows[0].date, x.date) then
      var tail := InsertByDate(x, rows[1..]);
      assert rows == [rows[0]] + rows[1..];
      [rows[0]] + tail
    else [x] + rows
  }

  /** `sort_values('date')`: the same rows, by non-decreasing date. */
  function SortByDate(rows: seq<PriceRow>): (r: seq<PriceRow>)
    ensures |r| == |rows| && multiset(r) == multiset(rows) && DateOrdered(r)
  {
    if rows == [] then []
    else
      var init := rows[..|rows| - 1];
      assert rows == init + [rows[|rows| - 1]];
      InsertByDate(rows[|rows| - 1], SortByDate(init))
  }

  function Closes(rows: seq<PriceRow>): (r: seq<real>)
    ensures |r| == |rows| && forall i :: 0 <= i < |rows| ==> r[i] == rows[i].close
  {
    seq(|rows|, i requires 0 <= i < |rows| => rows[i].close)
  }

  function RowDates(rows: seq<PriceRow>): (r: seq<CalendarDate>)
    ensures |r| == |rows| && forall i :: 0 <= i < |rows| ==> r[i] == rows[i].date
  {
    seq(|rows|, i requires 0 <= i < |rows| => rows[i].date)
  }

  // ---------------------------------------------------------------------------
  // _calculate_price_metrics
  // ---------------------------------------------------------------------------

  /** The period names of the document and the return windows they are renamed from. */
  const ReturnRenames: seq<(string, int)> :=
    [("1D", 1), ("1W", 5), ("1M", 21), ("3M", 63), ("6M", 126), ("1Y", 252)]

  const ReturnWindows: seq<int> := [1, 5, 21, 63, 126, 252]
  const VolatilityWindows: seq<int> := [21, 63, 252]

  function DrawdownSummaryOf(d: Option<Drawdown.DrawdownStats<CalendarDate>>): (s: DrawdownSummary)
    ensures d.None? ==> s == NullDrawdown
  {
    match d
      case None => NullDrawdown
      case Some(st) =>
        DrawdownSummary(
          Some(st.maxDrawdownPct),
          Some(IsoFormat(st.peakDate)),
          Some(IsoFormat(st.troughDate)),
          if st.recoveryDate.Some? then Some(IsoFormat(st.recoveryDate.value)) else None,
          Some(st.drawdownDays),
          st.recoveryDays)
  }

  lemma RenamedKeys()
    ensures Returns.WindowKey(1) == "1D" && Returns.WindowKey(5) == "5D" && Returns.WindowKey(21) == "21D"
    ensures Returns.WindowKey(63) == "63D" && Returns.WindowKey(126) == "126D" && Returns.WindowKey(252) == "252D"
  {
    assert Text.NatToString(2) == "2" && Text.NatToString(6) == "6" && Text.NatToString(1) == "1";
    assert Text.NatToString(12) == "12" && Text.NatToString(25) == "25";
    assert Text.NatToString(21) == "21" && Text.NatToString(63) == "63";
    assert Text.NatToString(126) == "126" && Text.NatToString(252) == "252";
  }

  /** The six return windows under their period names. */
  method FormatReturns(ps: seq<real>, ds: seq<CalendarDate>) returns (formatted: map<string, Option<real>>)
    requires |ps| == |ds|
    ensures formatted.Keys == {"1D", "1W", "1M", "3M", "6M", "1Y"}
    ensures forall i :: 0 <= i < |ReturnRenames| ==>
      formatted[ReturnRenames[i].0] == Returns.PeriodReturn(ps, ReturnRenames[i].1)
  {
    var rets := Returns.CalculatePeriodReturns(ps, ds, ReturnWindows);
    var r := rets.value;
    WindowEntries(ps, r);
    formatted := map[
      "1D" := r["1D"], "1W" := r["5D"], "1M" := r["21D"],
      "3M" := r["63D"], "6M" := r["126D"], "1Y" := r["252D"]];
    RenamedDisplay(ps, r["1D"], r["5D"], r["21D"], r["63D"], r["126D"], r["252D"]);
  }

  /** The window map holds each of the six returns under its "{w}D" key. */
  lemma WindowEntries(ps: seq<real>, r: map<string, Option<real>>)
    requires r.Keys == Returns.KeysOf(ReturnWindows)
    requires forall w :: w in ReturnWindows ==> r[Returns.WindowKey(w)] == Returns.PeriodReturn(ps, w)
    ensures "1D" in r && r["1D"] == Returns.PeriodReturn(ps, 1)
    ensures "5D" in r && r["5D"] == Returns.PeriodReturn(ps, 5)
    ensures "21D" in r && r["21D"] == Returns.PeriodReturn(ps, 21)
    ensures "63D" in r && r["63D"] == Returns.PeriodReturn(ps, 63)
    ensures "126D" in r && r["126D"] == Returns.PeriodReturn(ps, 126)
    ensures "252D" in r && r["252D"] == Returns.PeriodReturn(ps, 252)
  {
    RenamedKeys();
    assert ReturnWindows[0] == 1 && ReturnWindows[1] == 5 && ReturnWindows[2] == 21;
    assert ReturnWindows[3] == 63 && ReturnWindows[4] == 126 && ReturnWindows[5] == 252;
  }

  /** The six returns under their period names satisfy the rename table. */
  lemma RenamedDisplay(ps: seq<real>, d1: Option<real>, w1: Option<real>, m1: Option<real>,
                       m3: Option<real>, m6: Option<real>, y1: Option<real>)
    requires d1 == Returns.PeriodReturn(ps, 1) && w1 == Returns.PeriodReturn(ps, 5)
    requires m1 == Returns.PeriodReturn(ps, 21) && m3 == Returns.PeriodReturn(ps, 63)
    requires m6 == Returns.PeriodReturn(ps, 126) && y1 == Returns.PeriodReturn(ps, 252)
    ensures var m := map["1D" := d1, "1W" := w1, "1M" := m1, "3M" := m3, "6M" := m6, "1Y" := y1];
      forall i :: 0 <= i < |ReturnRenames| ==>
        ReturnRenames[i].0 in m && m[ReturnRenames[i].0] == Returns.PeriodReturn(ps, ReturnRenames[i].1)
  {
    var m := map["1D" := d1, "1W" := w1, "1M" := m1, "3M" := m3, "6M" := m6, "1Y" := y1];
    forall i | 0 <= i < |ReturnRenames|
      ensures ReturnRenames[i].0 in m && m[ReturnRenames[i].0] == Returns.PeriodReturn(ps, ReturnRenames[i].1)
    {
      assert i == 0 || i == 1 || i == 2 || i == 3 || i == 4 || i == 5;
    }
  }

  /** `ps` is non-empty because the ticker has at least one row. */
  method CalculatePriceMetrics(ops: MathOps, ps: seq<real>, ds: seq<CalendarDate>) returns (pm: PriceMetrics)
    requires |ps| == |ds| && ps != []
    ensures pm.periodReturns.Keys == {"1D", "1W", "1M", "3M", "6M", "1Y"}
    ensures forall i :: 0 <= i < |ReturnRenames| ==>
      pm.periodReturns[ReturnRenames[i].0] == Returns.PeriodReturn(ps, ReturnRenames[i].1)
    ensures pm.volatility.Keys == Volatility.VolKeysOf(VolatilityWindows)
    ensures forall w :: w in VolatilityWindows ==> pm.volatility[Volatility.VolKey(w)] == Volatility.VolatilityFor(ops, ps, w)
    ensures pm.drawdown.maxDrawdownPct.Some? <==> |ps| >= 10 && AllPositive(ps)
    ensures pm.drawdown.maxDrawdownPct.Some? ==>
      pm.drawdown == DrawdownSummaryOf(Some(Drawdown.Stats(ps, ds)))
    ensures pm.currentPrice == CurrentPrice(ps[|ps| - 1], IsoFormat(ds[|ds| - 1]))
  {
    var formatted := FormatReturns(ps, ds);
    var vol := Volatility.CalculateVolatilityMetrics(ops, ps, VolatilityWindows);
    var dd := Drawdown.CalculateDrawdownMetrics(ps, ds, 10);
    pm := PriceMetrics(formatted, vol, DrawdownSummaryOf(dd), CurrentPrice(ps[|ps| - 1], IsoFormat(ds[|ds| - 1])));
  }

  /** The guardrail table and the renamed return windows agree: a period has a
      value exactly when the prices are positive and the guardrail calls the period
      sufficiently covered. */
  lemma ReturnAvailabilityMatchesGuardrail(ps: seq<real>, i: nat)
    requires i < |ReturnRenames|
    ensures Returns.PeriodReturn(ps, ReturnRenames[i].1).Some? <==>
      AllPositive(ps) && Guardrails.Enough(|ps|, ReturnRenames[i].0)
  {
    Returns.PeriodReturnAvailable(ps, ReturnRenames[i].1);
  }

  // ---------------------------------------------------------------------------
  // _calculate_institutional_metrics
  // ---------------------------------------------------------------------------

  predicate ValueDescending(hs: seq<HoldingRecord>)
  {
    forall i :: 0 <= i < |hs| - 1 ==> hs[i].valueUsd >= hs[i + 1].valueUsd
  }

  /** Places `x` after every record of at least its value, so ties keep their order. */
  function InsertByValue(x: HoldingRecord, hs: seq<HoldingRecord>): (r: seq<HoldingRecord>)
    requires ValueDescending(hs)
    ensures |r| == |hs| + 1 && multiset(r) == multiset(hs) + multiset{x}
    ensures r[0] == x || (hs != [] && r[0] == hs[0])
    ensures ValueDescending(r)
  {
    if hs == [] then [x]
    else if hs[0].valueUsd >= x.valueUsd then
      var tail := InsertByValue(x, hs[1..]);
      assert hs == [hs[0]] + hs[1..];
      [hs[0]] + tail
    else [x] + hs
  }

  /** `sorted(holdings, key=value_usd, reverse=True)`. */
  function SortByValue(hs: seq<HoldingRecord>): (r: seq<HoldingRecord>)
    ensures |r| == |hs| && multiset(r) == multiset(hs) && ValueDescending(r)
  {
    if hs == [] then []
    else
      var init := hs[..|hs| - 1];
      assert hs == init + [hs[|hs| - 1]];
      InsertByValue(hs[|hs| - 1], SortByValue(init))
  }

  /** In a value-descending list every later record is worth at most an earlier one. */
  lemma {:induction false} DescendingDominates(hs: seq<HoldingRecord>, i: nat, j: nat)
    requires ValueDescending(hs) && i <= j < |hs|
    ensures hs[j].valueUsd <= hs[i].valueUsd
    decreases j - i
  {
    if i < j {
      DescendingDominates(hs, i + 1, j);
    }
  }

  function HoldingValues(hs: seq<HoldingRecord>): (vs: seq<real>)
    ensures |vs| == |hs| && forall i :: 0 <= i < |hs| ==> vs[i] == hs[i].valueUsd
  {
    seq(|hs|, i requires 0 <= i < |hs| => hs[i].valueUsd)
  }

  /** The entry for the record at rank `i + 1`. */
  function TopHolderAt(sorted: seq<HoldingRecord>, i: nat, total: real): TopHolder
    requires i < |sorted|
  {
    var h := sorted[i];
    TopHolder(i + 1, h.filer, h.valueUsd, h.shares, if total > 0.0 then h.valueUsd / total else 0.0)
  }

  function AsConcentrationHolding(h: HoldingRecord): Concentration.Holding
  {
    Concentration.Holding(Some(h.filer), Some(h.valueUsd))
  }

  function AsConcentrationHoldings(hs: seq<HoldingRecord>): (r: seq<Concentration.Holding>)
    ensures |r| == |hs|
  {
    seq(|hs|, i requires 0 <= i < |hs| => AsConcentrationHolding(hs[i]))
  }

  /** The ten largest holdings, ranked from 1. */
  method TopHolders(holdings: seq<HoldingRecord>) returns (top: seq<TopHolder>)
    ensures |top| == Concentration.MinNat(10, |holdings|)
    ensures forall i :: 0 <= i < |top| ==> top[i] == TopHolderAt(SortByValue(holdings), i, Sum(HoldingValues(holdings)))
  {
    var sorted := SortByValue(holdings);
    var total := Sum(HoldingValues(holdings));
    var n := if |sorted| < 10 then |sorted| else 10;
    top := [];
    var i := 0;
    while i < n
      invariant 0 <= i <= n
      invariant |top| == i
      invariant forall j :: 0 <= j < i ==> top[j] == TopHolderAt(sorted, j, total)
    {
      var h := sorted[i];
      var pct := if total > 0.0 then h.valueUsd / total else 0.0;
      top := top + [TopHolder(i + 1, h.filer, h.valueUsd, h.shares, pct)];
      i := i + 1;
    }
  }

  /** The top holders are ranked 1, 2, ... by value, each is one of the holdings, and
      no holding left out is worth more than any that was listed. */
  lemma TopHoldersRanked(holdings: seq<HoldingRecord>, k: nat)
    requires k <= |holdings|
    ensures forall i :: 0 <= i < k ==> TopHolderAt(SortByValue(holdings), i, Sum(HoldingValues(holdings))).rank == i + 1
    ensures forall i :: 0 <= i < k ==> SortByValue(holdings)[i] in holdings
    ensures forall i, j :: 0 <= i < k <= j < |holdings| ==>
      SortByValue(holdings)[j].valueUsd <= SortByValue(holdings)[i].valueUsd
  {
    var s := SortByValue(holdings);
    forall i | 0 <= i < k ensures s[i] in holdings {
      assert s[i] in multiset(s);
    }
    forall i, j | 0 <= i < k <= j < |holdings| ensures s[j].valueUsd <= s[i].valueUsd {
      DescendingDominates(s, i, j);
    }
  }

  /** With positive values, each listed share of the 13F total lies in (0, 1]. */
  lemma TopHolderShare(holdings: seq<HoldingRecord>, i: nat)
    requires i < |holdings| && AllPositive(HoldingValues(holdings))
    ensures 0.0 < TopHolderAt(SortByValue(holdings), i, Sum(HoldingValues(holdings))).pctOf13FTotal <= 1.0
  {
    var s := SortByValue(holdings);
    var vs := HoldingValues(holdings);
    var total := Sum(vs);
    assert s[i] in multiset(holdings) by {
      assert s[i] in multiset(s);
    }
    var j :| 0 <= j < |holdings| && holdings[j] == s[i];
    var v := vs[j];
    assert v == s[i].valueUsd;
    assert v <= total by {
      assert AllNonNegative(vs);
      SumElementLe(vs, j);
    }
    ShareBounds(v, total);
  }

  lemma ShareBounds(v: real, total: real)
    requires 0.0 < v <= total
    ensures 0.0 < v / total <= 1.0
  {
  }

  method CalculateInstitutionalMetrics(holdings: seq<HoldingRecord>, today: CalendarDate)
    returns (im: InstitutionalMetrics)
    requires holdings != []
    ensures |im.topHolders| == Concentration.MinNat(10, |holdings|)
    ensures forall i :: 0 <= i < |im.topHolders| ==>
      im.topHolders[i] == TopHolderAt(SortByValue(holdings), i, Sum(HoldingValues(holdings)))
    ensures var agg := Concentration.Aggregate(AsConcentrationHoldings(holdings));
      var vs := Concentration.Values(agg);
      (im.cr1.None? <==> !AllPositive(vs)) &&
      (im.cr1.Some? ==>
        im.total13FValueUsd == Sum(vs) && im.total13FHolders == |agg| &&
        im.cr1 == Some(Concentration.ConcentrationRatios(agg).value.cr1) &&
        im.cr5 == Some(Concentration.ConcentrationRatios(agg).value.cr5) &&
        im.cr10 == Some(Concentration.ConcentrationRatios(agg).value.cr10) &&
        im.hhi == Some(Concentration.ShareSquares(vs, Concentration.Total(agg))))
    ensures im.cr1.None? ==>
      im.total13FValueUsd == 0.0 && im.total13FHolders == 0 &&
      im.cr5.None? && im.cr10.None? && im.hhi.None?
    ensures im.quarterEnd == IsoFormat(holdings[0].asOf)
    ensures im.filingLagDays == DaysBetween(today, holdings[0].asOf)
  {
    var list := AsConcentrationHoldings(holdings);
    var m := Concentration.Analyze13FHoldings(list);
    var top := TopHolders(holdings);
    var quarterEnd := holdings[0].asOf;
    im := InstitutionalMetrics(m.totalValue, m.numHolders, m.cr1, m.cr5, m.cr10, m.hhi, top,
      IsoFormat(quarterEnd), DaysBetween(today, quarterEnd));
  }

  // ---------------------------------------------------------------------------
  // _calculate_data_quality_metrics
  // ---------------------------------------------------------------------------

  /** `max(1, int(date_range * 5 / 7))` for a non-negative range. */
  function ExpectedTradingDays(rangeDays: nat): (n: nat)
    ensures n >= 1
  {
    if rangeDays * 5 / 7 >= 1 then rangeDays * 5 / 7 else 1
  }

  function Coverage(actual: nat, expected: nat): (pct: real)
    requires expected >= 1
  {
    Min(100.0, (actual as real) / (expected as real) * 100.0)
  }

  function MissingDays(actual: nat, expected: nat): nat
  {
    if expected > actual then expected - actual else 0
  }

  /** Coverage lies in (0, 100] for a non-empty series; it is 100 exactly when no
      day is missing, and the missing days are the shortfall against the estimate. */
  lemma CoverageBounds(actual: nat, expected: nat)
    requires expected >= 1 && actual >= 1
    ensures 0.0 < Coverage(actual, expected) <= 100.0
    ensures Coverage(actual, expected) == 100.0 <==> MissingDays(actual, expected) == 0
    ensures MissingDays(actual, expected) + actual >= expected
  {
    var ratio := (actual as real) / (expected as real);
    if actual >= expected {
      assert ratio >= 1.0;
    } else {
      assert ratio * (expected as real) == actual as real;
      assert ratio < 1.0;
    }
  }

  function PriceSpanDays(rows: seq<PriceRow>): nat
    requires rows != []
  {
    var ds := RowDates(rows);
    var hi, lo := Latest(ds), Earliest(ds);
    OrdinalOrder(lo, hi);
    DaysBetween(hi, lo)
  }

  /** `pd.to_datetime(ticker_holdings['as_of']).max()`. */
  function LatestAsOf(hs: seq<HoldingRecord>): (d: CalendarDate)
    requires hs != []
    ensures exists i :: 0 <= i < |hs| && hs[i].asOf == d
    ensures forall i :: 0 <= i < |hs| ==> NotAfter(hs[i].asOf, d)
  {
    var ds := seq(|hs|, i requires 0 <= i < |hs| => hs[i].asOf);
    var m := Latest(ds);
    var k :| 0 <= k < |ds| && ds[k] == m;
    assert Valid(ds[k]);
    assert forall i :: 0 <= i < |hs| ==> ds[i] == hs[i].asOf && NotAfter(ds[i], m);
    m
  }

  function DataQualityOf(tickerRows: seq<PriceRow>, tickerHoldings: seq<HoldingRecord>, today: CalendarDate): DataQuality
    requires tickerRows != []
  {
    var expected := ExpectedTradingDays(PriceSpanDays(tickerRows));
    var actual := |tickerRows|;
    var latest: Option<CalendarDate> := if tickerHoldings == [] then None else Some(LatestAsOf(tickerHoldings));
    DataQuality(
      Coverage(actual, expected),
      MissingDays(actual, expected),
      if latest.Some? then Some(IsoFormat(latest.value)) else None,
      if latest.Some? then Some(DaysBetween(today, latest.value)) else None)
  }

  /** For ordered rows the span is last date minus first date. */
  lemma SpanOfOrderedRows(rows: seq<PriceRow>)
    requires rows != [] && DateOrdered(rows)
    ensures PriceSpanDays(rows) == DaysBetween(rows[|rows| - 1].date, rows[0].date)
  {
    var ds := RowDates(rows);
    forall i | 0 <= i < |rows| ensures NotAfter(rows[0].date, rows[i].date) && NotAfter(rows[i].date, rows[|rows| - 1].date) {
      OrderedEnds(rows, i);
    }
    var hi, lo := Latest(ds), Earliest(ds);
    OrdinalOrder(lo, rows[0].date);
    OrdinalOrder(hi, rows[|rows| - 1].date);
  }

  lemma {:induction false} OrderedEnds(rows: seq<PriceRow>, i: nat)
    requires DateOrdered(rows) && i < |rows|
    ensures NotAfter(rows[0].date, rows[i].date) && NotAfter(rows[i].date, rows[|rows| - 1].date)
  {
    if i > 0 {
      OrderedEnds(rows, i - 1);
      BeforeOrEqualTransitive(rows[0].date, rows[i - 1].date, rows[i].date);
    }
    OrderedToEnd(rows, i);
  }

  lemma {:induction false} OrderedToEnd(rows: seq<PriceRow>, i: nat)
    requires DateOrdered(rows) && i < |rows|
    ensures NotAfter(rows[i].date, rows[|rows| - 1].date)
    decreases |rows| - i
  {
    if i < |rows| - 1 {
      OrderedToEnd(rows, i + 1);
      BeforeOrEqualTransitive(rows[i].date, rows[i + 1].date, rows[|rows| - 1].date);
    }
  }

  lemma BeforeOrEqualTransitive(a: Date, b: Date, c: Date)
    requires NotAfter(a, b) && NotAfter(b, c)
    ensures NotAfter(a, c)
  {
  }

  // ---------------------------------------------------------------------------
  // _determine_data_sources and compose_metrics
  // ---------------------------------------------------------------------------

  function PriceSources(rows: seq<PriceRow>): set<string>
  {
    set i | 0 <= i < |rows| && rows[i].source.Some? :: rows[i].source.value
  }

  function HoldingSources(rows: seq<HoldingRecord>): set<string>
  {
    set i | 0 <= i < |rows| && rows[i].source.Some? :: rows[i].source.value
  }

  /** Some price row of the ticker names the source. */
  predicate PriceSourced(rows: seq<PriceRow>, ticker: string, s: string)
  {
    exists i :: 0 <= i < |rows| && rows[i].ticker == ticker && rows[i].source == Some(s)
  }

  /** Some holding row, of any ticker, names the source. */
  predicate HoldingSourced(rows: seq<HoldingRecord>, s: string)
  {
    exists i :: 0 <= i < |rows| && rows[i].source == Some(s)
  }

  lemma {:induction false} PriceRowsMembers(rows: seq<PriceRow>, ticker: string)
    ensures forall x :: x in PriceRowsOf(rows, ticker) <==> x in rows && x.ticker == ticker
    decreases |rows|
  {
    if rows != [] {
      var init := rows[..|rows| - 1];
      PriceRowsMembers(init, ticker);
      assert rows == init + [rows[|rows| - 1]];
    }
  }

  lemma PriceSourcesMembers(rows: seq<PriceRow>)
    ensures forall s :: s in PriceSources(rows) <==> exists i :: 0 <= i < |rows| && rows[i].source == Some(s)
  {
  }

  /** The price sources are those named by the ticker's rows, however they are ordered. */
  lemma SourcesOfTickerRows(rows: seq<PriceRow>, ticker: string)
    ensures forall s :: s in PriceSources(SortByDate(PriceRowsOf(rows, ticker))) <==> PriceSourced(rows, ticker, s)
  {
    var selected := PriceRowsOf(rows, ticker);
    var sorted := SortByDate(selected);
    PriceRowsMembers(rows, ticker);
    SameMembers(sorted, selected);
    SourcesOfMembers(rows, ticker, sorted);
  }

  lemma SameMembers(a: seq<PriceRow>, b: seq<PriceRow>)
    requires multiset(a) == multiset(b)
    ensures forall x :: x in a <==> x in b
  {
    assert forall x :: x in a <==> x in multiset(a);
    assert forall x :: x in b <==> x in multiset(b);
  }

  lemma SourcesOfMembers(rows: seq<PriceRow>, ticker: string, sorted: seq<PriceRow>)
    requires forall x :: x in sorted <==> x in rows && x.ticker == ticker
    ensures forall s :: s in PriceSources(sorted) <==> PriceSourced(rows, ticker, s)
  {
    PriceSourcesMembers(sorted);
    forall s | PriceSourced(rows, ticker, s) ensures s in PriceSources(sorted) {
      var j :| 0 <= j < |rows| && rows[j].ticker == ticker && rows[j].source == Some(s);
      assert rows[j] in sorted;
    }
  }

  /** `_determine_data_sources`: the distinct sources of the ticker's price rows and of
      every holding row. */
  function DataSources(rows: seq<PriceRow>, holdings: Option<seq<HoldingRecord>>): (r: set<string>)
    requires DateOrdered(rows)
    ensures forall s :: s in r <==> ((exists i :: 0 <= i < |rows| && rows[i].source == Some(s)) ||
      (holdings.Some? && HoldingSourced(holdings.value, s)))
  {
    PriceSourcesMembers(rows);
    PriceSources(rows) + (if holdings.None? then {} else HoldingSources(holdings.value))
  }

  /** `_calculate_institutional_metrics` over the ticker's holdings, when there are any. */
  method InstitutionalOf(holdings: Option<seq<HoldingRecord>>, ticker: string, today: CalendarDate)
    returns (im: Option<InstitutionalMetrics>)
    ensures im.None? <==> holdings.None? || HoldingsOf(holdings.value, ticker) == []
    ensures im.Some? ==> InstitutionalFit(HoldingsOf(holdings.value, ticker), today, im.value)
  {
    im := None;
    if holdings.Some? && HoldingsOf(holdings.value, ticker) != [] {
      var m := CalculateInstitutionalMetrics(HoldingsOf(holdings.value, ticker), today);
      im := Some(m);
    }
  }

  /** What CalculatePriceMetrics promises about the metrics of a price series. */
  predicate PriceMetricsFit(ops: MathOps, ps: seq<real>, ds: seq<CalendarDate>, pm: PriceMetrics)
    requires |ps| == |ds| && ps != []
  {
    pm.periodReturns.Keys == {"1D", "1W", "1M", "3M", "6M", "1Y"} &&
    (forall i :: 0 <= i < |ReturnRenames| ==>
      pm.periodReturns[ReturnRenames[i].0] == Returns.PeriodReturn(ps, ReturnRenames[i].1)) &&
    pm.volatility.Keys == Volatility.VolKeysOf(VolatilityWindows) &&
    (forall w :: w in VolatilityWindows ==> pm.volatility[Volatility.VolKey(w)] == Volatility.VolatilityFor(ops, ps, w)) &&
    (pm.drawdown.maxDrawdownPct.Some? <==> |ps| >= 10 && AllPositive(ps)) &&
    (pm.drawdown.maxDrawdownPct.Some? ==> pm.drawdown == DrawdownSummaryOf(Some(Drawdown.Stats(ps, ds)))) &&
    pm.currentPrice == CurrentPrice(ps[|ps| - 1], IsoFormat(ds[|ds| - 1]))
  }

  /** What CalculateInstitutionalMetrics promises about the metrics of a ticker's holdings. */
  predicate InstitutionalFit(holdings: seq<HoldingRecord>, today: CalendarDate, im: InstitutionalMetrics)
    requires holdings != []
  {
    |im.topHolders| == Concentration.MinNat(10, |holdings|) &&
    (forall i :: 0 <= i < |im.topHolders| ==>
      im.topHolders[i] == TopHolderAt(SortByValue(holdings), i, Sum(HoldingValues(holdings)))) &&
    (var agg := Concentration.Aggregate(AsConcentrationHoldings(holdings));
      var vs := Concentration.Values(agg);
      (im.cr1.None? <==> !AllPositive(vs)) &&
      (im.cr1.Some? ==>
        im.total13FValueUsd == Sum(vs) && im.total13FHolders == |agg| &&
        im.cr1 == Some(Concentration.ConcentrationRatios(agg).value.cr1) &&
        im.cr5 == Some(Concentration.ConcentrationRatios(agg).value.cr5) &&
        im.cr10 == Some(Concentration.ConcentrationRatios(agg).value.cr10) &&
        im.hhi == Some(Concentration.ShareSquares(vs, Concentration.Total(agg))))) &&
    im.quarterEnd == IsoFormat(holdings[0].asOf) &&
    im.filingLagDays == DaysBetween(today, holdings[0].asOf)
  }

  method ComposeMetrics(
    ops: MathOps, priceRows: seq<PriceRow>, holdings: Option<seq<HoldingRecord>>,
    ticker: string, asOfDate: CalendarDate, today: CalendarDate, calculatedAt: string)
    returns (r: Result<MetricsDoc>)
    ensures r.Err? <==> forall i :: 0 <= i < |priceRows| ==> priceRows[i].ticker != ticker
    ensures r.Ok? ==>
      var rows := SortByDate(PriceRowsOf(priceRows, ticker));
      var doc := r.value;
      doc.ticker == ticker && doc.asOfDate == IsoFormat(asOfDate) &&
      doc.dataPeriod == DataPeriod(IsoFormat(rows[0].date), IsoFormat(rows[|rows| - 1].date), |rows|) &&
      |rows| == |PriceRowsOf(priceRows, ticker)| &&
      doc.priceMetrics.currentPrice == CurrentPrice(rows[|rows| - 1].close, IsoFormat(rows[|rows| - 1].date))
    ensures r.Ok? ==>
      (r.value.institutionalMetrics.None? <==> holdings.None? || HoldingsOf(holdings.value, ticker) == [])
    ensures r.Ok? ==>
      r.value.dataQuality == DataQualityOf(SortByDate(PriceRowsOf(priceRows, ticker)),
        if holdings.None? then [] else HoldingsOf(holdings.value, ticker), today)
    ensures r.Ok? ==> r.value.metadata.calculationVersion == "1.0.0"
    ensures r.Ok? ==> var rows := SortByDate(PriceRowsOf(priceRows, ticker));
      PriceMetricsFit(ops, Closes(rows), RowDates(rows), r.value.priceMetrics)
    ensures r.Ok? && holdings.Some? && HoldingsOf(holdings.value, ticker) != [] ==>
      r.value.institutionalMetrics.Some? &&
      InstitutionalFit(HoldingsOf(holdings.value, ticker), today, r.value.institutionalMetrics.value)
    ensures r.Ok? ==> forall s :: s in r.value.metadata.dataSources <==>
      PriceSourced(priceRows, ticker, s) || (holdings.Some? && HoldingSourced(holdings.value, s))
  {
    var selected := PriceRowsOf(priceRows, ticker);
    if selected == [] {
      // Covers both the empty frame and a ticker that never occurs.
      return Err("Ticker not found in price data");
    }
    var rows := SortByDate(selected);
    var ps := Closes(rows);
    var ds := RowDates(rows);
    var first, last := rows[0], rows[|rows| - 1];
    var period := DataPeriod(IsoFormat(first.date), IsoFormat(last.date), |rows|);
    var pm := CalculatePriceMetrics(ops, ps, ds);
    assert ds[|ds| - 1] == last.date && ps[|ps| - 1] == last.close;
    var tickerHoldings: seq<HoldingRecord> := if holdings.None? then [] else HoldingsOf(holdings.value, ticker);
    var im := InstitutionalOf(holdings, ticker, today);
    var quality := DataQualityOf(rows, tickerHoldings, today);
    SourcesOfTickerRows(priceRows, ticker);
    PriceSourcesMembers(rows);
    var meta := Metadata(calculatedAt, "1.0.0", DataSources(rows, holdings));
    return Ok(MetricsDoc(ticker, IsoFormat(asOfDate), period, pm, im, quality, meta));
  }
}
