// The daily prices pipeline (pipeline/daily_prices_dag.py): the configuration a
// run starts from, with its default one-year window, and the summary metrics
// computed over the validated price rows. `date.today()` is a parameter; the run
// itself (fetch, store, run registry, clock) is not part of this model.
module DailyPricesDag {
  import opened Wrappers
  import opened Dates
  import opened Numerics
  import Normalizers

  type PriceRow = Normalizers.CanonicalPrice

  datatype Config = Config(ticker: string, startDate: Date, endDate: Date)

  const EmptyTicker := "ticker must be non-empty string"
  const StartAfterEnd := "start_date must be <= end_date"
  const DateOutOfRange := "date value out of range"
  const DefaultWindowDays := 365

  /** `DailyPricesConfig(...)` and its `__post_init__`: the end defaults to today, the start to
      365 days before the end (which raises before 0001-01-01), and the start may not follow the end. */
  function MakeConfig(ticker: string, startDate: Option<Date>, endDate: Option<Date>, today: Date): (r: Result<Config>)
    requires Valid(today)
    requires endDate.Some? ==> Valid(endDate.value)
    requires startDate.Some? ==> Valid(startDate.value)
    ensures ticker == "" ==> r == Err(EmptyTicker)
    ensures r.Ok? ==> r.value.ticker == ticker && NotAfter(r.value.startDate, r.value.endDate)
    ensures r.Ok? ==> Valid(r.value.startDate) && Valid(r.value.endDate)
    ensures r.Ok? ==> r.value.endDate == (if endDate.Some? then endDate.value else today)
    ensures r.Ok? && startDate.Some? ==> r.value.startDate == startDate.value
    ensures r.Ok? && startDate.None? ==> Ordinal(r.value.startDate) == Ordinal(r.value.endDate) - DefaultWindowDays
    ensures startDate.Some? && endDate.Some? ==>
      (r.Ok? <==> ticker != "" && NotAfter(startDate.value, endDate.value))
  {
    if ticker == "" then Err(EmptyTicker)
    else
      var end := if endDate.Some? then endDate.value else today;
      if startDate.None? && Ordinal(end) <= DefaultWindowDays then Err(DateOutOfRange)
      else
        var start := if startDate.Some? then startDate.value else SubtractDays(end, DefaultWindowDays);
        if Before(end, start) then Err(StartAfterEnd)
        else
          NotAfterIff(start, end);
          Ok(Config(ticker, start, end))
  }

  lemma NotAfterIff(a: Date, b: Date)
    ensures NotAfter(a, b) <==> !Before(b, a)
  {
  }

  /** `days_range`. */
  function DaysRange(c: Config): int
    requires Valid(c.startDate) && Valid(c.endDate)
  {
    DaysBetween(c.endDate, c.startDate)
  }

  /** A configuration given only a ticker covers exactly the 365 days up to today. */
  lemma DefaultWindowIsAYear(ticker: string, today: Date)
    requires Valid(today) && Ordinal(today) > DefaultWindowDays && ticker != ""
    ensures MakeConfig(ticker, None, None, today).Ok?
    ensures var c := MakeConfig(ticker, None, None, today).value;
      c.endDate == today && DaysRange(c) == DefaultWindowDays
  {
    OrdinalOrder(today, SubtractDays(today, DefaultWindowDays));
  }

  /** Every accepted configuration has a non-negative range. */
  lemma AcceptedRangeIsNonNegative(ticker: string, startDate: Option<Date>, endDate: Option<Date>, today: Date)
    requires Valid(today)
    requires endDate.Some? ==> Valid(endDate.value)
    requires startDate.Some? ==> Valid(startDate.value)
    requires MakeConfig(ticker, startDate, endDate, today).Ok?
    ensures DaysRange(MakeConfig(ticker, startDate, endDate, today).value) >= 0
  {
    var c := MakeConfig(ticker, startDate, endDate, today).value;
    OrdinalOrder(c.startDate, c.endDate);
  }

  // ---------------------------------------------------------------------------
  // Summary metrics

  /** `_calculate_price_metrics`: `NoPriceMetrics` is the empty dictionary returned for no rows;
      `totalReturnPct` is absent unless there are at least two rows. */
  datatype PriceMetrics =
    | NoPriceMetrics
    | PriceMetrics(minClose: real, maxClose: real, firstClose: real, lastClose: real,
                   totalVolume: int, avgVolume: real, firstDate: Date, lastDate: Date,
                   tradingDays: nat, totalReturnPct: Option<real>)

  const DivisionByZero := "float division by zero"

  function Closes(rows: seq<PriceRow>): (cs: seq<real>)
    ensures |cs| == |rows| && forall i :: 0 <= i < |rows| ==> cs[i] == rows[i].close
  {
    seq(|rows|, i requires 0 <= i < |rows| => rows[i].close)
  }

  function Volumes(rows: seq<PriceRow>): (vs: seq<int>)
    ensures |vs| == |rows| && forall i :: 0 <= i < |rows| ==> vs[i] == rows[i].volume
  {
    seq(|rows|, i requires 0 <= i < |rows| => rows[i].volume)
  }

  /** `sum(volumes)`. */
  function IntSum(xs: seq<int>): int
  {
    if xs == [] then 0 else IntSum(xs[..|xs| - 1]) + xs[|xs| - 1]
  }

  /** The percentage change from `first` to `last`. */
  function ChangePct(first: real, last: real): real
    requires first != 0.0
  {
    (last - first) / first * 100.0
  }

  /** `round((last - first) / first * 100, 2)`, which raises when the first close is 0. */
  function TotalReturnPct(first: real, last: real, ops: MathOps): Result<real>
  {
    if first == 0.0 then Err(DivisionByZero) else Ok(ops.roundTo(ChangePct(first, last), 2))
  }

  /** `_calculate_price_metrics`, with Python's rounding passed in `ops`: the close range
      brackets every close, the first and last entries are the ends of the list, the volume
      total is the sum, and the return is present exactly when there are two or more rows. */
  function CalculatePriceMetrics(rows: seq<PriceRow>, ops: MathOps): (r: Result<PriceMetrics>)
    ensures rows == [] ==> r == Ok(NoPriceMetrics)
    ensures r.Err? <==> |rows| > 1 && rows[0].close == 0.0
    ensures r.Ok? && rows != [] ==> r.value.PriceMetrics?
    ensures r.Ok? && rows != [] ==>
      var m := r.value;
      && m.minClose in Closes(rows) && m.maxClose in Closes(rows)
      && (forall i :: 0 <= i < |rows| ==> m.minClose <= rows[i].close <= m.maxClose)
      && m.firstClose == rows[0].close && m.lastClose == rows[|rows| - 1].close
      && m.firstDate == rows[0].date && m.lastDate == rows[|rows| - 1].date
      && m.tradingDays == |rows| && m.totalVolume == IntSum(Volumes(rows))
      && m.avgVolume == Mean(m.totalVolume, |rows|)
      && (m.totalReturnPct.Some? <==> |rows| > 1)
      && (m.totalReturnPct.Some? ==>
            m.totalReturnPct.value == ops.roundTo(ChangePct(rows[0].close, rows[|rows| - 1].close), 2))
  {
    if rows == [] then Ok(NoPriceMetrics)
    else
      var closes := Closes(rows);
      var volumes := Volumes(rows);
      var first := rows[0].close;
      var last := rows[|rows| - 1].close;
      var ret := if |closes| > 1 then TotalReturnPct(first, last, ops) else Ok(0.0);
      if ret.Err? then Err(ret.msg)
      else
        CloseRange(rows);
        Ok(PriceMetrics(SeqMin(closes), SeqMax(closes), first, last,
                        IntSum(volumes), Mean(IntSum(volumes), |volumes|),
                        rows[0].date, rows[|rows| - 1].date, |rows|,
                        if |closes| > 1 then Some(ret.value) else None))
  }

  /** The smallest and largest close bracket every row's close. */
  lemma CloseRange(rows: seq<PriceRow>)
    requires rows != []
    ensures forall i :: 0 <= i < |rows| ==> SeqMin(Closes(rows)) <= rows[i].close <= SeqMax(Closes(rows))
  {
    var cs := Closes(rows);
    assert forall i :: 0 <= i < |rows| ==> cs[i] == rows[i].close;
  }

  /** `total / n` as a float: the mean, which times the count is the total. */
  function Mean(total: int, n: nat): (m: real)
    requires n > 0
    ensures m * n as real == total as real
  {
    total as real / n as real
  }

  /** Validated rows have positive closes, so their metrics always exist and the whole close
      range is positive. */
  lemma PositiveClosesGiveMetrics(rows: seq<PriceRow>, ops: MathOps)
    requires rows != [] && forall i :: 0 <= i < |rows| ==> rows[i].close > 0.0
    ensures CalculatePriceMetrics(rows, ops).Ok?
    ensures 0.0 < CalculatePriceMetrics(rows, ops).value.minClose <= CalculatePriceMetrics(rows, ops).value.maxClose
  {
    var m := CalculatePriceMetrics(rows, ops).value;
    assert m.minClose <= rows[0].close <= m.maxClose;
    var i :| 0 <= i < |rows| && Closes(rows)[i] == m.minClose;
  }

  /** Volumes are never negative, so neither is their total. */
  lemma {:induction false} VolumeTotalNonNegative(xs: seq<int>)
    requires forall i :: 0 <= i < |xs| ==> xs[i] >= 0
    ensures IntSum(xs) >= 0
    decreases |xs|
  {
    if xs != [] {
      VolumeTotalNonNegative(xs[..|xs| - 1]);
    }
  }
}
