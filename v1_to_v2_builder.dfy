// The v1 -> v2 metrics document conversion (reports/v1_to_v2_builder.py): display
// strings and labels are added next to the raw values, and an audit index gathers
// every display string a narrative may quote. Both documents are `Json` values, so
// the dynamic checks of the source (a missing key, a value of the wrong type) are
// modelled; an exception of any kind is `Err`.
module V1ToV2Builder {
  import opened Wrappers
  import opened Json
  import opened Text
  import opened Dates
  import Numerics
  import Formatters
  import Labelers
  import StringSets

  /** What the builder reads from outside: Python's float formatting,
      `datetime.fromisoformat`, the UTC clock and the REPORTS_TZ setting. */
  datatype Env = Env(
    fmt: Numerics.FormatOps,
    parseDateTime: string -> Option<DateTime>,
    nowUtc: string,
    timezoneName: string)

  const NA := Formatters.NotAvailable

  const Footnotes: seq<string> := [
    "Volatility annualized with √252.",
    "No back-adjustment of OHLCV; adj_close reported if available.",
    "13F data has 45-day regulatory filing lag."]

  const Disclaimer := "13F reflects reported long U.S. positions with reporting lag; not total float."

  const Limitations: seq<string> := ["quarterly_13f_lag", "weekend_gaps_normal"]

  // ---------------------------------------------------------------------------
  // Formatter calls on JSON values
  // ---------------------------------------------------------------------------

  function DateInputOf(j: Json): (r: Result<Formatters.DateInput>)
    ensures r.Ok? <==> j.JNull? || j.JStr?
  {
    match j
      case JNull => Ok(Formatters.NoDate)
      case JStr(s) => Ok(Formatters.DateText(s))
      case _ => Err("Date must be string, date, or datetime")
  }

  function DateDisplay(env: Env, j: Json): Result<string>
  {
    var d :- DateInputOf(j);
    Formatters.FormatDateDisplay(env.parseDateTime, d)
  }

  function PercentDisplay(env: Env, j: Json): (r: Result<string>)
    ensures r.Ok? <==> Num(j).Ok?
    ensures r.Ok? ==> (r.value == NA <==> j.JNull?)
    ensures r.Ok? && !j.JNull? ==> '%' in r.value
  {
    var x :- Num(j);
    var s := Formatters.FormatPercentage(env.fmt, x, 1);
    assert x.Some? ==> s[|s| - 1] == '%';
    Ok(s)
  }

  function CurrencyDisplay(env: Env, j: Json): (r: Result<string>)
    ensures r.Ok? <==> Num(j).Ok?
  {
    var x :- Num(j);
    Ok(Formatters.FormatCurrency(env.fmt, x, ""))
  }

  // ---------------------------------------------------------------------------
  // What the price section promises about its own fields
  // ---------------------------------------------------------------------------

  /** returns: `display` has the keys of `raw`, in order; a display is "Not
      available" exactly where the raw value is null, and is a percentage otherwise. */
  predicate ReturnsShape(sec: Json)
  {
    sec.JObj? && |sec.fields| >= 3 &&
    sec.fields[0].0 == "windows" && sec.fields[1].0 == "raw" && sec.fields[2].0 == "display" &&
    sec.fields[1].1.JObj? && sec.fields[2].1.JObj? &&
    var raw := sec.fields[1].1.fields;
    var ds := sec.fields[2].1.fields;
    Keys(ds) == Keys(raw) &&
    forall i :: 0 <= i < |raw| ==>
      ds[i].1.JStr? && (ds[i].1.s == NA <==> raw[i].1.JNull?) && (ds[i].1.s != NA ==> '%' in ds[i].1.s)
  }

  /** volatility: the level is "unknown" exactly when the raw value is null. */
  predicate VolatilityShape(sec: Json)
  {
    sec.JObj? && |sec.fields| == 5 && sec.fields[0].0 == "window_days" &&
    sec.fields[1].0 == "raw" && sec.fields[2].0 == "display" && sec.fields[3].0 == "level" &&
    sec.fields[2].1.JStr? && sec.fields[3].1.JStr? &&
    (sec.fields[2].1.s == NA <==> sec.fields[1].1.JNull?) &&
    (sec.fields[2].1.s != NA ==> '%' in sec.fields[2].1.s) &&
    (sec.fields[3].1.s == "unknown" <==> sec.fields[1].1.JNull?) &&
    sec.fields[3].1.s in {"unknown", "low", "moderate", "high"}
  }

  /** drawdown: `recovered` is false exactly when the status reads "unrecovered as of". */
  predicate DrawdownShape(sec: Json)
  {
    sec.JObj? && |sec.fields| == 11 &&
    sec.fields[0].0 == "max_dd_raw" && sec.fields[1].0 == "max_dd_display" && sec.fields[1].1.JStr? &&
    (sec.fields[1].1.s == NA <==> sec.fields[0].1.JNull?) &&
    (sec.fields[1].1.s != NA ==> '%' in sec.fields[1].1.s) &&
    sec.fields[6].0 == "recovery_date" && sec.fields[8].0 == "recovered" && sec.fields[10].0 == "recovery_status" &&
    sec.fields[8].1.JBool? && sec.fields[10].1.JStr? &&
    (sec.fields[8].1.b <==> !sec.fields[6].1.JNull?) &&
    (!sec.fields[8].1.b <==> StartsWith(sec.fields[10].1.s, Formatters.UnrecoveredPrefix))
  }

  predicate PriceShape(p: Json)
  {
    p.JObj? && |p.fields| == 4 &&
    p.fields[0].0 == "current" && p.fields[1].0 == "returns" && p.fields[2].0 == "volatility" && p.fields[3].0 == "drawdown" &&
    ReturnsShape(p.fields[1].1) && VolatilityShape(p.fields[2].1) && DrawdownShape(p.fields[3].1)
  }

  // ---------------------------------------------------------------------------
  // _build_price_section
  // ---------------------------------------------------------------------------

  function BuildCurrent(env: Env, pm: Json): Result<Json>
  {
    var cp :- GetOr(pm, "current_price", EmptyObj);
    var close :- Get(cp, "close");
    var display :- if Truthy(close) then CurrencyDisplay(env, close) else Ok(NA);
    var date := Get(cp, "date").value;
    var dateDisplay :- if Truthy(date) then DateDisplay(env, date) else Ok(NA);
    Ok(JObj([("value", close), ("display", JStr(display)), ("date", date), ("date_display", JStr(dateDisplay))]))
  }

  /** The display of every return, in the order of the v1 dictionary. */
  function ReturnDisplays(env: Env, items: seq<(string, Json)>): (r: Result<seq<(string, Json)>>)
    ensures r.Ok? <==> forall i :: 0 <= i < |items| ==> Num(items[i].1).Ok?
    ensures r.Ok? ==> |r.value| == |items|
    ensures r.Ok? ==> forall i :: 0 <= i < |items| ==>
      r.value[i].0 == items[i].0 && r.value[i].1.JStr? &&
      (r.value[i].1.s == NA <==> items[i].1.JNull?) &&
      (!items[i].1.JNull? ==> '%' in r.value[i].1.s)
  {
    if items == [] then Ok([])
    else
      var d := PercentDisplay(env, items[0].1);
      var rest := ReturnDisplays(env, items[1..]);
      if d.Err? then
        Err(d.msg)
      else if rest.Err? then
        assert !forall i :: 0 <= i < |items[1..]| ==> Num(items[1..][i].1).Ok?;
        Err(rest.msg)
      else
        var r := [(items[0].0, JStr(d.value))] + rest.value;
        assert forall i :: 1 <= i < |items| ==> r[i] == rest.value[i - 1] && items[i] == items[1..][i - 1];
        Ok(r)
  }

  /** The dictionary classify_return_performance sees: numbers as values, a later
      duplicate key overriding an earlier one. */
  function ReturnsMap(items: seq<(string, Json)>): (m: map<string, Option<real>>)
    ensures m.Keys == set i | 0 <= i < |items| :: items[i].0
  {
    if items == [] then map[]
    else
      var init := items[..|items| - 1];
      var last := items[|items| - 1];
      var n := Num(last.1);
      var m := ReturnsMap(init)[last.0 := if n.Ok? then n.value else None];
      assert forall i :: 0 <= i < |init| ==> init[i] == items[i];
      m
  }

  function PerformanceFields(p: Labelers.Performance): (fs: seq<(string, Json)>)
    ensures Flat(fs)
  {
    [("overall", JStr(p.overall)), ("trend", JStr(p.trend))] +
    (if p.bestPeriod.Some? then [("best_period", JStr(p.bestPeriod.value)), ("best_return", OptNum(p.bestReturn))] else [])
  }

  function BuildReturns(env: Env, pm: Json): (r: Result<Json>)
    ensures r.Ok? ==> ReturnsShape(r.value)
  {
    var rv :- GetOr(pm, "returns", EmptyObj);
    if !rv.JObj? then Err("returns must be a dictionary")
    else
      var displays :- ReturnDisplays(env, rv.fields);
      var perf := Labelers.ClassifyReturnPerformance(ReturnsMap(rv.fields));
      var sec := JObj([("windows", JArr(Strs(Keys(rv.fields)))), ("raw", rv), ("display", JObj(displays))] + PerformanceFields(perf));
      assert Keys(displays) == Keys(rv.fields);
      Ok(sec)
  }

  function BuildVolatility(env: Env, pm: Json): (r: Result<Json>)
    ensures r.Ok? ==> VolatilityShape(r.value)
  {
    var vv :- GetOr(pm, "volatility", EmptyObj);
    var vol :- Get(vv, "21D_annualized");
    var x :- Num(vol);
    var level :- if x.None? then Ok("unknown") else Labelers.ClassifyVolLevel(x);
    Ok(JObj([
      ("window_days", JNum(21.0)), ("raw", vol), ("display", JStr(Formatters.FormatPercentage(env.fmt, x, 1))),
      ("level", JStr(level)), ("window_display", JStr("(21-day)"))]))
  }

  /** `f"-{abs(max_dd * 100):.1f}%"`. */
  function MaxDrawdownDisplay(env: Env, x: Option<real>): (s: string)
    ensures x.Some? ==> '%' in s && s != NA
    ensures x.None? ==> s == NA
  {
    if x.None? then NA
    else
      var s := "-" + env.fmt.fixed(Numerics.Abs(x.value * 100.0), 1) + "%";
      assert s[|s| - 1] == '%' && s[0] == '-';
      s
  }

  /** format_recovery_status(recovery_date, as_of_date) on JSON values. */
  function RecoveryStatus(env: Env, rec: Json, asOf: Json): (r: Result<string>)
    ensures r.Ok? ==> (StartsWith(r.value, Formatters.UnrecoveredPrefix) <==> rec.JNull?)
  {
    if rec.JNull? then
      var a :- DateInputOf(asOf);
      Formatters.FormatRecoveryStatus(env.parseDateTime, Formatters.NoDate, a)
    else
      var r :- DateInputOf(rec);
      Formatters.FormatRecoveryStatus(env.parseDateTime, r, Formatters.NoDate)
  }

  function RecoveryDateDisplay(env: Env, rec: Json): Result<Json>
  {
    if Truthy(rec) then
      var s :- DateDisplay(env, rec);
      Ok(JStr(s))
    else Ok(JNull)
  }

  /** max_dd_raw and max_dd_display, then the peak and trough dates with their displays. */
  function DrawdownExtent(env: Env, dv: Json): (r: Result<seq<(string, Json)>>)
    ensures r.Ok? ==> (|r.value| == 6 && r.value[0].0 == "max_dd_raw" && r.value[1].0 == "max_dd_display" &&
      r.value[1].1.JStr? && (r.value[1].1.s == NA <==> r.value[0].1.JNull?) &&
      (r.value[1].1.s != NA ==> '%' in r.value[1].1.s))
  {
    var maxDd :- MaxDrawdownFields(env, dv);
    var dates :- DrawdownDates(env, dv);
    Ok(maxDd + dates)
  }

  function MaxDrawdownFields(env: Env, dv: Json): (r: Result<seq<(string, Json)>>)
    ensures r.Ok? ==> dv.JObj?
    ensures r.Ok? ==> (|r.value| == 2 && r.value[0].0 == "max_dd_raw" && r.value[1].0 == "max_dd_display" &&
      r.value[1].1.JStr? && (r.value[1].1.s == NA <==> r.value[0].1.JNull?) &&
      (r.value[1].1.s != NA ==> '%' in r.value[1].1.s))
  {
    var maxDd :- Get(dv, "max_drawdown_pct");
    var x :- Num(maxDd);
    Ok([("max_dd_raw", maxDd), ("max_dd_display", JStr(MaxDrawdownDisplay(env, x)))])
  }

  function DrawdownDates(env: Env, dv: Json): (r: Result<seq<(string, Json)>>)
    requires dv.JObj?
    ensures r.Ok? ==> |r.value| == 4
  {
    var peak := Get(dv, "peak_date").value;
    var peakDisplay :- DateDisplay(env, peak);
    var trough := Get(dv, "trough_date").value;
    var troughDisplay :- DateDisplay(env, trough);
    Ok([("peak_date", peak), ("peak_date_display", JStr(peakDisplay)),
      ("trough_date", trough), ("trough_date_display", JStr(troughDisplay))])
  }

  /** recovery_date and its display, recovered, duration_days and recovery_status. */
  function DrawdownRecovery(env: Env, dv: Json, asOf: Json): (r: Result<seq<(string, Json)>>)
    ensures r.Ok? ==> (|r.value| == 5 && r.value[0].0 == "recovery_date" && r.value[2].0 == "recovered" &&
      r.value[4].0 == "recovery_status" && r.value[2].1.JBool? && r.value[4].1.JStr? &&
      (r.value[2].1.b <==> !r.value[0].1.JNull?) &&
      (!r.value[2].1.b <==> StartsWith(r.value[4].1.s, Formatters.UnrecoveredPrefix)))
  {
    var rec :- Get(dv, "recovery_date");
    var recDisplay :- RecoveryDateDisplay(env, rec);
    var days := Get(dv, "drawdown_days").value;
    var status :- RecoveryStatus(env, rec, asOf);
    Ok([("recovery_date", rec), ("recovery_date_display", recDisplay),
      ("recovered", JBool(!rec.JNull?)), ("duration_days", days), ("recovery_status", JStr(status))])
  }

  function BuildDrawdown(env: Env, pm: Json, asOf: Json): (r: Result<Json>)
    ensures r.Ok? ==> DrawdownShape(r.value)
  {
    var dv :- GetOr(pm, "drawdown", EmptyObj);
    var extent :- DrawdownExtent(env, dv);
    var recovery :- DrawdownRecovery(env, dv, asOf);
    Ok(JObj(extent + recovery))
  }

  function BuildPrice(env: Env, pm: Json, asOf: Json): (r: Result<Json>)
    ensures r.Ok? ==> PriceShape(r.value)
  {
    var current :- BuildCurrent(env, pm);
    var rets :- BuildReturns(env, pm);
    var vol :- BuildVolatility(env, pm);
    var dd :- BuildDrawdown(env, pm, asOf);
    Ok(JObj([("current", current), ("returns", rets), ("volatility", vol), ("drawdown", dd)]))
  }

  // ---------------------------------------------------------------------------
  // _build_ownership_section
  // ---------------------------------------------------------------------------

  const ConcentrationMetricNames: seq<string> := ["cr1", "cr5", "cr10", "hhi"]

  /** The `{raw, display}` entries of the concentration measures that are present;
      HHI is shown with three decimals, the ratios as percentages. */
  function MetricEntries(env: Env, conc: Json, names: seq<string>): (r: Result<seq<(string, Json)>>)
  {
    if names == [] then Ok([])
    else
      var v :- Get(conc, names[0]);
      var x :- Num(v);
      var rest :- MetricEntries(env, conc, names[1..]);
      if x.None? then Ok(rest)
      else
        var display := if names[0] != "hhi" then Formatters.FormatPercentage(env.fmt, x, 1) else env.fmt.fixed(x.value, 3);
        Ok([(names[0], JObj([("raw", v), ("display", JStr(display))]))] + rest)
  }

  function HolderEntry(env: Env, h: Json): Result<Json>
  {
    var rank :- Get(h, "rank");
    var filer := Get(h, "filer").value;
    var value := Get(h, "value_usd").value;
    var valueDisplay :- CurrencyDisplay(env, value);
    var share := Get(h, "pct_of_13f_total").value;
    var shareDisplay :- PercentDisplay(env, share);
    Ok(JObj([
      ("rank", rank), ("filer", filer), ("value_raw", value), ("value_display", JStr(valueDisplay)),
      ("share_of_total_raw", share), ("share_of_total_display", JStr(shareDisplay))]))
  }

  function HolderEntries(env: Env, hs: seq<Json>): (r: Result<seq<Json>>)
    ensures r.Ok? ==> |r.value| == |hs|
  {
    if hs == [] then Ok([])
    else
      var h :- HolderEntry(env, hs[0]);
      var rest :- HolderEntries(env, hs[1..]);
      Ok([h] + rest)
  }

  /** `for holder in top_holders`: a list yields its items; an empty dictionary or
      string yields nothing; any other value fails (its items have no `.get`). */
  function Iterated(j: Json): Result<seq<Json>>
  {
    if j.JArr? then Ok(j.items)
    else if j == EmptyObj || j == JStr("") then Ok([])
    else Err("top_holders must be a list of dictionaries")
  }

  function BuildOwnership(env: Env, im: Json): Result<Json>
  {
    var conc :- GetOr(im, "concentration", EmptyObj);
    var cr5 :- Get(conc, "cr5");
    var c5 :- Num(cr5);
    var hhi := Get(conc, "hhi").value;
    var h :- Num(hhi);
    var conLabel :- Labelers.ClassifyConcentration(c5, h);
    var measures :- MetricEntries(env, conc, ConcentrationMetricNames);
    var th := GetOr(im, "top_holders", JArr([])).value;
    var holders :- Iterated(th);
    var entries :- HolderEntries(env, holders);
    var asOf := Get(im, "quarter_end").value;
    var asOfDisplay :- DateDisplay(env, asOf);
    var total := Get(im, "total_13f_value_usd").value;
    var totalDisplay :- CurrencyDisplay(env, total);
    var count := Get(im, "total_13f_holders").value;
    Ok(JObj([
      ("as_of", asOf), ("as_of_display", JStr(asOfDisplay)),
      ("total_value", JObj([("raw", total), ("display", JStr(totalDisplay))])),
      ("total_holders", count),
      ("concentration", JObj([("basis", JStr(conLabel.basis)), ("level", JStr(conLabel.level))] + measures)),
      ("top_holders", JArr(entries)),
      ("disclaimer", JStr(Disclaimer))]))
  }

  // ---------------------------------------------------------------------------
  // _build_data_quality_section and _build_meta_section
  // ---------------------------------------------------------------------------

  function BuildDataQuality(env: Env, dq: Json): Result<Json>
  {
    var cov :- Get(dq, "price_coverage_pct");
    var c :- Num(cov);
    var missing := GetOr(dq, "missing_price_days", JNum(0.0)).value;
    var age := Get(dq, "13f_data_age_days").value;
    Ok(JObj([
      ("price_coverage", JObj([
        ("raw", if c.Some? then JNum(c.value / 100.0) else JNull),
        ("display", JStr(if c.Some? then env.fmt.fixed(c.value, 1) + "%" else NA))])),
      ("missing_days", missing), ("13f_age_days", age), ("limitations", JArr(Strs(Limitations)))]))
  }

  /** `datetime.fromisoformat(f"{as_of_date}T15:00:00").isoformat()`. */
  function LocalTimestamp(asOf: Json): (r: Result<string>)
    ensures r.Ok? ==> (asOf.JStr? && ParseIsoDate(asOf.s).Some? &&
      r.value == IsoFormat(ParseIsoDate(asOf.s).value) + "T15:00:00")
  {
    if asOf.JStr? && ParseIsoDate(asOf.s).Some? then Ok(IsoFormat(ParseIsoDate(asOf.s).value) + "T15:00:00")
    else Err("Invalid isoformat string")
  }

  function BuildMeta(env: Env, v1: Json): Result<Json>
  {
    var metadata :- Get(v1, "metadata");
    var ticker := Get(v1, "ticker").value;
    var asOf := Get(v1, "as_of_date").value;
    var local :- LocalTimestamp(asOf);
    var runId :- Get(metadata, "run_id");
    var sources := GetOr(metadata, "data_sources", JArr([])).value;
    Ok(JObj([
      ("ticker", ticker), ("company", JStr(Shown(ticker) + " Inc.")),
      ("exchange", JStr("NASDAQ")), ("currency", JStr("USD")),
      ("as_of_local", JStr(local + "-07:00")), ("as_of_utc", JStr(env.nowUtc)),
      ("timezone", JStr(env.timezoneName)), ("run_id", runId), ("sources", sources),
      ("schema_version", JStr("2.0.0"))]))
  }

  // ---------------------------------------------------------------------------
  // _build_audit_index
  // ---------------------------------------------------------------------------

  /** The six audit categories, in collection order before deduplication. */
  datatype AuditLists = AuditLists(
    percentStrings: seq<string>, currencyStrings: seq<string>, dates: seq<string>,
    labels: seq<string>, numbers: seq<string>, windows: seq<string>)

  const NoAudit := AuditLists([], [], [], [], [], [])

  function Concat(a: AuditLists, b: AuditLists): AuditLists
  {
    AuditLists(a.percentStrings + b.percentStrings, a.currencyStrings + b.currencyStrings, a.dates + b.dates,
      a.labels + b.labels, a.numbers + b.numbers, a.windows + b.windows)
  }

  /** Every string of `a` is in the same category of `b`. */
  predicate Within(a: AuditLists, b: AuditLists)
  {
    (forall s :: s in a.percentStrings ==> s in b.percentStrings) &&
    (forall s :: s in a.currencyStrings ==> s in b.currencyStrings) &&
    (forall s :: s in a.dates ==> s in b.dates) &&
    (forall s :: s in a.labels ==> s in b.labels) &&
    (forall s :: s in a.numbers ==> s in b.numbers) &&
    (forall s :: s in a.windows ==> s in b.windows)
  }

  /** A display string: a percentage if it has '%', else currency if it has '$'. */
  function RouteDisplay(s: string): AuditLists
  {
    if s == NA then NoAudit
    else if '%' in s then NoAudit.(percentStrings := [s])
    else if '$' in s then NoAudit.(currencyStrings := [s])
    else NoAudit
  }

  /** The keys whose string values are routed as display strings. As written only
      `display` is; the correction adds the other `*_display` keys. */
  predicate DisplayKey(corrected: bool, key: string)
  {
    key == "display" || (corrected && EndsWith(key, "_display"))
  }

  /** Where a string value under `key` goes. Window and label keys are checked
      first; as written no key satisfies two of the tests, so the order does not
      change the routing. */
  function Route(corrected: bool, key: string, s: string): AuditLists
  {
    if key == "window_display" || key == "recovery_status" then
      if '(' in s && ')' in s then NoAudit.(windows := [s]) else NoAudit.(labels := [s])
    else if key == "level" || key == "basis" then NoAudit.(labels := [s])
    else if Contains(key, "date_display") then (if s != NA then NoAudit.(dates := [s]) else NoAudit)
    else if DisplayKey(corrected, key) then RouteDisplay(s)
    else NoAudit
  }

  /** extract_values: what a value contributes, in document order. */
  function Collect(corrected: bool, j: Json): AuditLists
    decreases j, 3
  {
    match j
      case JObj(fields) => CollectFields(corrected, fields)
      case JArr(items) => CollectItems(corrected, items)
      case _ => NoAudit
  }

  function CollectFields(corrected: bool, fields: seq<(string, Json)>): AuditLists
    decreases fields, 2
  {
    if fields == [] then NoAudit
    else Concat(CollectField(corrected, fields[0]), CollectFields(corrected, fields[1..]))
  }

  function CollectField(corrected: bool, f: (string, Json)): AuditLists
    decreases f, 1
  {
    if f.1.JStr? then Route(corrected, f.0, f.1.s)
    else if corrected && f.0 == "display" && f.1.JObj? then CollectDisplays(corrected, f.1.fields)
    else Collect(corrected, f.1)
  }

  /** The correction: a `display` dictionary's string values are display strings. */
  function CollectDisplays(corrected: bool, fields: seq<(string, Json)>): AuditLists
    decreases fields, 2
  {
    if fields == [] then NoAudit
    else Concat(CollectDisplay(corrected, fields[0]), CollectDisplays(corrected, fields[1..]))
  }

  function CollectDisplay(corrected: bool, f: (string, Json)): AuditLists
    decreases f, 1
  {
    if f.1.JStr? then RouteDisplay(f.1.s) else Collect(corrected, f.1)
  }

  function CollectItems(corrected: bool, items: seq<Json>): AuditLists
    decreases items, 2
  {
    if items == [] then NoAudit
    else Concat(Collect(corrected, items[0]), CollectItems(corrected, items[1..]))
  }

  /** build_audit_index_entry on one category: its distinct non-"Not available"
      strings, ascending. */
  function Entry(xs: seq<string>): (r: seq<string>)
    ensures StringSets.StrictlySorted(r)
    ensures forall s :: s in r <==> s in xs && s != NA
  {
    var r := Formatters.AuditEntry(Formatters.Lift(xs));
    assert forall s :: Some(s) in Formatters.Lift(xs) <==> s in xs by {
      forall s ensures Some(s) in Formatters.Lift(xs) <==> s in xs {
        if s in xs {
          var i :| 0 <= i < |xs| && xs[i] == s;
          assert Formatters.Lift(xs)[i] == Some(s);
        }
      }
    }
    r
  }

  function Entries(raw: AuditLists): AuditLists
  {
    AuditLists(Entry(raw.percentStrings), Entry(raw.currencyStrings), Entry(raw.dates),
      Entry(raw.labels), Entry(raw.numbers), Entry(raw.windows))
  }

  /** The audit index with the source's routing. */
  function AuditIndexAsWritten(doc: Json): AuditLists
  {
    Entries(Collect(false, doc))
  }

  /** The audit index the document carries: every display string is indexed. */
  function AuditIndex(doc: Json): AuditLists
  {
    Entries(Collect(true, doc))
  }

  function AuditIndexJson(a: AuditLists): Json
  {
    JObj([
      ("percent_strings", JArr(Strs(a.percentStrings))), ("currency_strings", JArr(Strs(a.currencyStrings))),
      ("dates", JArr(Strs(a.dates))), ("labels", JArr(Strs(a.labels))),
      ("numbers", JArr(Strs(a.numbers))), ("windows", JArr(Strs(a.windows)))])
  }

  // ---------------------------------------------------------------------------
  // build_enhanced_metrics_v2
  // ---------------------------------------------------------------------------

  const RequiredFields: seq<string> := ["ticker", "as_of_date", "price_metrics", "metadata"]

  /** The first required v1 field that is missing. */
  function MissingField(v1: Json, names: seq<string>): (r: Option<string>)
    ensures r.None? <==> forall i :: 0 <= i < |names| ==> Has(v1, names[i])
    ensures r.Some? ==> r.value in names && !Has(v1, r.value)
  {
    if names == [] then None
    else if !Has(v1, names[0]) then Some(names[0])
    else MissingField(v1, names[1..])
  }

  const BaseSectionNames: seq<string> := ["meta", "price", "data_quality", "footnotes"]

  function PriceSection(env: Env, v1: Json): (r: Result<Json>)
    ensures r.Ok? ==> PriceShape(r.value)
  {
    var pm :- Get(v1, "price_metrics");
    var asOf := Get(v1, "as_of_date").value;
    BuildPrice(env, pm, asOf)
  }

  function DataQualitySection(env: Env, v1: Json): Result<Json>
  {
    var dqV1 :- GetOr(v1, "data_quality", EmptyObj);
    BuildDataQuality(env, dqV1)
  }

  /** meta, price, data_quality and footnotes. */
  function BaseSections(env: Env, v1: Json): (r: Result<seq<(string, Json)>>)
    ensures r.Ok? ==> v1.JObj? && Keys(r.value) == BaseSectionNames
    ensures r.Ok? ==> |r.value| >= 4 && r.value[0].0 == "meta" && PriceSection(env, v1).Ok? && r.value[1] == ("price", PriceSection(env, v1).value)
  {
    var meta :- BuildMeta(env, v1);
    var price :- PriceSection(env, v1);
    var dq :- DataQualitySection(env, v1);
    Ok(Assemble(meta, price, dq))
  }

  /** The four base sections in their fixed order. */
  function Assemble(meta: Json, price: Json, dq: Json): (sections: seq<(string, Json)>)
    ensures Keys(sections) == BaseSectionNames
    ensures |sections| == 4 && sections[0] == ("meta", meta) && sections[1] == ("price", price)
  {
    var sections := [("meta", meta), ("price", price), ("data_quality", dq), ("footnotes", JArr(Strs(Footnotes)))];
    SectionKeys(sections);
    sections
  }

  lemma SectionKeys(sections: seq<(string, Json)>)
    requires |sections| == 4 && sections[0].0 == "meta" && sections[1].0 == "price"
    requires sections[2].0 == "data_quality" && sections[3].0 == "footnotes"
    ensures Keys(sections) == BaseSectionNames
  {
  }

  /** The sections, then ownership_13f when the v1 document has institutional metrics. */
  function Sections(env: Env, v1: Json): (r: Result<seq<(string, Json)>>)
    ensures r.Ok? ==> |r.value| >= 4 && r.value[0].0 == "meta" && PriceSection(env, v1).Ok? && r.value[1] == ("price", PriceSection(env, v1).value)
    ensures r.Ok? ==> BaseSections(env, v1).Ok? && r.value[..4] == BaseSections(env, v1).value
    ensures r.Ok? ==> v1.JObj? && (|r.value| == 5 <==> Truthy(Get(v1, "institutional_metrics").value))
    ensures r.Ok? ==> |r.value| <= 5 && (|r.value| == 5 ==> r.value[4].0 == "ownership_13f")
  {
    var base :- BaseSections(env, v1);
    WithOwnership(env, base, Get(v1, "institutional_metrics").value)
  }

  /** ownership_13f appended to the four base sections when the institutional metrics are truthy. */
  function WithOwnership(env: Env, base: seq<(string, Json)>, im: Json): (r: Result<seq<(string, Json)>>)
    requires |base| == 4
    ensures r.Ok? ==> |r.value| <= 5 && |r.value| >= 4 && r.value[..4] == base
    ensures r.Ok? ==> r.value[0] == base[0] && r.value[1] == base[1]
    ensures r.Ok? ==> (|r.value| == 5 <==> Truthy(im)) && (|r.value| == 5 ==> r.value[4].0 == "ownership_13f")
  {
    if Truthy(im) then
      var own :- BuildOwnership(env, im);
      AppendSection(base, ("ownership_13f", own));
      Ok(base + [("ownership_13f", own)])
    else Ok(base)
  }

  lemma AppendSection(base: seq<(string, Json)>, sec: (string, Json))
    requires |base| == 4
    ensures var all := base + [sec];
      |all| == 5 && all[0] == base[0] && all[1] == base[1] && all[..4] == base && all[4] == sec
  {
  }

  /** The v2 document: the sections, then the audit index built from them. */
  function WithAuditIndex(sections: seq<(string, Json)>, index: AuditLists): (doc: Json)
    ensures doc.JObj? && |doc.fields| == |sections| + 1 && doc.fields[..|sections|] == sections
    ensures Keys(doc.fields) == Keys(sections) + ["audit_index"]
    ensures doc.fields[|sections|] == ("audit_index", AuditIndexJson(index))
  {
    var fields := sections + [("audit_index", AuditIndexJson(index))];
    KeysConcat(sections, [("audit_index", AuditIndexJson(index))]);
    assert fields[..|sections|] == sections;
    JObj(fields)
  }

  /** The input checks: an empty document, then the first missing required field. */
  function V1Problem(v1: Json): (r: Option<string>)
    ensures r.None? <==> v1.JObj? && v1.fields != [] && forall i :: 0 <= i < |RequiredFields| ==> Has(v1, RequiredFields[i])
  {
    if !v1.JObj? || v1.fields == [] then Some("Empty v1 metrics provided")
    else
      var missing := MissingField(v1, RequiredFields);
      if missing.Some? then Some("Missing required v1 field: " + missing.value) else None
  }

  /** `build_enhanced_metrics_v2`: the checks, the sections, then the audit index with the
      routing as written. */
  function BuildEnhancedMetricsV2(env: Env, v1: Json): (r: Result<Json>)
    ensures V1Problem(v1).Some? ==> r.Err?
    ensures r.Ok? ==> (Sections(env, v1).Ok? &&
      r.value == WithAuditIndex(Sections(env, v1).value, AuditIndexAsWritten(JObj(Sections(env, v1).value))))
  {
    if V1Problem(v1).Some? then Err(V1Problem(v1).value)
    else
      var sections :- Sections(env, v1);
      Ok(WithAuditIndex(sections, AuditIndexAsWritten(JObj(sections))))
  }

  /** The same document with the corrected routing, under which every display string of the
      price section reaches the index. */
  function BuildCorrectedMetricsV2(env: Env, v1: Json): (r: Result<Json>)
    ensures V1Problem(v1).Some? ==> r.Err?
    ensures r.Ok? ==> (Sections(env, v1).Ok? &&
      r.value == WithAuditIndex(Sections(env, v1).value, AuditIndex(JObj(Sections(env, v1).value))))
    ensures r.Ok? <==> BuildEnhancedMetricsV2(env, v1).Ok?
  {
    if V1Problem(v1).Some? then Err(V1Problem(v1).value)
    else
      var sections :- Sections(env, v1);
      Ok(WithAuditIndex(sections, AuditIndex(JObj(sections))))
  }

  // ---------------------------------------------------------------------------
  // What the audit index holds
  // ---------------------------------------------------------------------------

  /** The routing's promise: percentages carry '%', currency carries '$' and no
      '%', windows are parenthesised, nothing is "Not available" except possibly a
      label, and no number is ever collected. */
  predicate Sound(a: AuditLists)
  {
    (forall s :: s in a.percentStrings ==> '%' in s && s != NA) &&
    (forall s :: s in a.currencyStrings ==> '$' in s && '%' !in s && s != NA) &&
    (forall s :: s in a.dates ==> s != NA) &&
    (forall s :: s in a.windows ==> '(' in s && ')' in s) &&
    a.numbers == []
  }

  lemma ConcatSound(a: AuditLists, b: AuditLists)
    requires Sound(a) && Sound(b)
    ensures Sound(Concat(a, b))
  {
  }

  lemma {:induction false} CollectSound(c: bool, j: Json)
    ensures Sound(Collect(c, j))
    decreases j, 3
  {
    match j
      case JObj(fields) => CollectFieldsSound(c, fields);
      case JArr(items) => CollectItemsSound(c, items);
      case _ =>
  }

  lemma {:induction false} CollectFieldsSound(c: bool, fields: seq<(string, Json)>)
    ensures Sound(CollectFields(c, fields))
    decreases fields, 2
  {
    if fields != [] {
      CollectFieldSound(c, fields[0]);
      CollectFieldsSound(c, fields[1..]);
      ConcatSound(CollectField(c, fields[0]), CollectFields(c, fields[1..]));
    }
  }

  lemma {:induction false} CollectFieldSound(c: bool, f: (string, Json))
    ensures Sound(CollectField(c, f))
    decreases f, 1
  {
    if f.1.JStr? {
    } else if c && f.0 == "display" && f.1.JObj? {
      CollectDisplaysSound(c, f.1.fields);
    } else {
      CollectSound(c, f.1);
    }
  }

  lemma {:induction false} CollectDisplaysSound(c: bool, fields: seq<(string, Json)>)
    ensures Sound(CollectDisplays(c, fields))
    decreases fields, 2
  {
    if fields != [] {
      CollectDisplaySound(c, fields[0]);
      CollectDisplaysSound(c, fields[1..]);
      ConcatSound(CollectDisplay(c, fields[0]), CollectDisplays(c, fields[1..]));
    }
  }

  lemma {:induction false} CollectDisplaySound(c: bool, f: (string, Json))
    ensures Sound(CollectDisplay(c, f))
    decreases f, 1
  {
    if !f.1.JStr? {
      CollectSound(c, f.1);
    }
  }

  lemma {:induction false} CollectItemsSound(c: bool, items: seq<Json>)
    ensures Sound(CollectItems(c, items))
    decreases items, 2
  {
    if items != [] {
      CollectSound(c, items[0]);
      CollectItemsSound(c, items[1..]);
      ConcatSound(Collect(c, items[0]), CollectItems(c, items[1..]));
    }
  }

  /** Every category of the index is strictly ascending (so free of duplicates),
      holds no "Not available", and is routed soundly; `numbers` stays empty. */
  lemma AuditIndexSound(c: bool, doc: Json)
    ensures var a := Entries(Collect(c, doc));
      Sound(a) &&
      StringSets.StrictlySorted(a.percentStrings) && StringSets.StrictlySorted(a.currencyStrings) &&
      StringSets.StrictlySorted(a.dates) && StringSets.StrictlySorted(a.labels) &&
      StringSets.StrictlySorted(a.windows) &&
      (forall s :: s in a.labels ==> s != NA)
  {
    CollectSound(c, doc);
  }

  lemma WithinConcat(a: AuditLists, b: AuditLists)
    ensures Within(a, Concat(a, b)) && Within(b, Concat(a, b))
  {
  }

  lemma WithinTrans(a: AuditLists, b: AuditLists, d: AuditLists)
    requires Within(a, b) && Within(b, d)
    ensures Within(a, d)
  {
  }

  /** What one entry of a dictionary contributes is part of what the dictionary does. */
  lemma {:induction false} FieldWithin(c: bool, fields: seq<(string, Json)>, i: nat)
    requires i < |fields|
    ensures Within(CollectField(c, fields[i]), CollectFields(c, fields))
    decreases i
  {
    WithinConcat(CollectField(c, fields[0]), CollectFields(c, fields[1..]));
    if i > 0 {
      FieldWithin(c, fields[1..], i - 1);
      WithinTrans(CollectField(c, fields[i]), CollectFields(c, fields[1..]), CollectFields(c, fields));
    }
  }

  lemma {:induction false} DisplayWithin(c: bool, fields: seq<(string, Json)>, i: nat)
    requires i < |fields|
    ensures Within(CollectDisplay(c, fields[i]), CollectDisplays(c, fields))
    decreases i
  {
    WithinConcat(CollectDisplay(c, fields[0]), CollectDisplays(c, fields[1..]));
    if i > 0 {
      DisplayWithin(c, fields[1..], i - 1);
      WithinTrans(CollectDisplay(c, fields[i]), CollectDisplays(c, fields[1..]), CollectDisplays(c, fields));
    }
  }

  /** `j[a][b][c]`, when each step is a dictionary holding the key. */
  function Nested(j: Json, a: string, b: string, c: string): Option<Json>
  {
    var u := Member(j, a);
    if u.None? then None
    else
      var w := Member(u.value, b);
      if w.None? then None else Member(w.value, c)
  }

  /** A string that one entry of a section routes to the percentages reaches the
      audit index of the sections. */
  lemma PercentReachesIndex(sections: seq<(string, Json)>, price: Json, k: nat, d: string)
    requires |sections| >= 2 && sections[1] == ("price", price) && PriceShape(price)
    requires 1 <= k < 4 && d in Collect(true, price.fields[k].1).percentStrings
    ensures d in Collect(true, JObj(sections)).percentStrings
  {
    assert CollectField(true, price.fields[k]) == Collect(true, price.fields[k].1);
    FieldWithin(true, price.fields, k);
    assert CollectField(true, sections[1]) == Collect(true, price);
    FieldWithin(true, sections, 1);
  }

  /** Neither display key names a date display. */
  lemma DisplayKeysAreNotDates()
    ensures !Contains("display", "date_display") && !Contains("max_dd_display", "date_display")
  {
    assert 't' in "date_display";
    if Contains("display", "date_display") {
      ContainsChars("display", "date_display", 't');
    }
    if Contains("max_dd_display", "date_display") {
      ContainsChars("max_dd_display", "date_display", 't');
    }
  }

  /** A percentage under a display key of a section reaches that section's
      percentages. */
  lemma DisplayInSection(sec: Json, k: nat, key: string, d: string)
    requires key == "display" || key == "max_dd_display"
    requires sec.JObj? && k < |sec.fields| && sec.fields[k] == (key, JStr(d)) && '%' in d && d != NA
    ensures d in Collect(true, sec).percentStrings
  {
    RouteDisplayKey(key, d);
    FieldWithin(true, sec.fields, k);
  }

  lemma RouteDisplayKey(key: string, s: string)
    requires key == "display" || key == "max_dd_display"
    ensures Route(true, key, s) == RouteDisplay(s)
  {
    DisplayKeysAreNotDates();
    assert key != "window_display" && key != "recovery_status" && key != "level" && key != "basis" by {
      assert key[0] != "window_display"[0];
    }
    assert DisplayKey(true, key) by {
      if key == "max_dd_display" {
        assert key[6..] == "_display";
      }
    }
    RouteOfDisplay(key, s);
  }

  lemma RouteOfDisplay(key: string, s: string)
    requires key != "window_display" && key != "recovery_status" && key != "level" && key != "basis"
    requires !Contains(key, "date_display") && DisplayKey(true, key)
    ensures Route(true, key, s) == RouteDisplay(s)
  {
  }



  lemma VolatilityDisplayIndexed(sections: seq<(string, Json)>, price: Json, d: string)
    requires |sections| >= 2 && sections[1] == ("price", price) && PriceShape(price)
    requires price.fields[2].1.fields[2].1 == JStr(d) && d != NA
    ensures d in Collect(true, JObj(sections)).percentStrings
  {
    DisplayInSection(price.fields[2].1, 2, "display", d);
    PercentReachesIndex(sections, price, 2, d);
  }

  lemma MaxDrawdownDisplayIndexed(sections: seq<(string, Json)>, price: Json, d: string)
    requires |sections| >= 2 && sections[1] == ("price", price) && PriceShape(price)
    requires price.fields[3].1.fields[1].1 == JStr(d) && d != NA
    ensures d in Collect(true, JObj(sections)).percentStrings
  {
    DisplayInSection(price.fields[3].1, 1, "max_dd_display", d);
    PercentReachesIndex(sections, price, 3, d);
  }

  lemma ReturnDisplayIndexed(sections: seq<(string, Json)>, price: Json, m: nat, d: string)
    requires |sections| >= 2 && sections[1] == ("price", price) && PriceShape(price)
    requires m < |price.fields[1].1.fields[2].1.fields| && price.fields[1].1.fields[2].1.fields[m].1 == JStr(d) && d != NA
    ensures d in Collect(true, JObj(sections)).percentStrings
  {
    var rets := price.fields[1].1;
    assert '%' in d;
    assert CollectDisplay(true, rets.fields[2].1.fields[m]) == RouteDisplay(d);
    DisplayWithin(true, rets.fields[2].1.fields, m);
    assert CollectField(true, rets.fields[2]) == CollectDisplays(true, rets.fields[2].1.fields);
    FieldWithin(true, rets.fields, 2);
    PercentReachesIndex(sections, price, 1, d);
  }

  /** The price section's percentages reach the audit index: the volatility display,
      the maximum drawdown display and every return display that is not "Not
      available". BuildCorrectedMetricsV2 indexes sections whose second entry is
      PriceSection's result, which has PriceShape. */
  lemma PriceDisplaysIndexed(sections: seq<(string, Json)>, price: Json, d: string)
    requires |sections| >= 2 && sections[0].0 == "meta" && sections[1] == ("price", price) && PriceShape(price)
    requires d != NA
    requires var doc := JObj(sections);
      Nested(doc, "price", "volatility", "display") == Some(JStr(d)) ||
      Nested(doc, "price", "drawdown", "max_dd_display") == Some(JStr(d)) ||
      exists ds :: Nested(doc, "price", "returns", "display") == Some(JObj(ds)) && JStr(d) in Values(ds)
    ensures d in AuditIndex(JObj(sections)).percentStrings
  {
    PriceAt(sections, price, d);
  }

  lemma KeysDiffer()
    ensures "meta" != "price"
    ensures "current" != "returns" && "current" != "volatility" && "current" != "drawdown"
    ensures "returns" != "volatility" && "returns" != "drawdown" && "volatility" != "drawdown"
    ensures "windows" != "display" && "raw" != "display" && "window_days" != "display"
    ensures "max_dd_raw" != "max_dd_display"
  {
    assert "meta"[0] != "price"[0];
    assert "current"[0] != "returns"[0] && "current"[0] != "volatility"[0] && "current"[0] != "drawdown"[0];
    assert "returns"[0] != "volatility"[0] && "returns"[0] != "drawdown"[0] && "volatility"[0] != "drawdown"[0];
    assert "windows"[0] != "display"[0] && "raw"[0] != "display"[0] && "window_days"[0] != "display"[0];
    assert |"max_dd_raw"| != |"max_dd_display"|;
  }

  /** The same, before deduplication. */
  lemma PriceAt(sections: seq<(string, Json)>, price: Json, d: string)
    requires |sections| >= 2 && sections[0].0 == "meta" && sections[1] == ("price", price) && PriceShape(price)
    requires d != NA
    requires var doc := JObj(sections);
      Nested(doc, "price", "volatility", "display") == Some(JStr(d)) ||
      Nested(doc, "price", "drawdown", "max_dd_display") == Some(JStr(d)) ||
      exists ds :: Nested(doc, "price", "returns", "display") == Some(JObj(ds)) && JStr(d) in Values(ds)
    ensures d in Collect(true, JObj(sections)).percentStrings
  {
    var doc := JObj(sections);
    if Nested(doc, "price", "volatility", "display") == Some(JStr(d)) {
      VolatilityAt(sections, price, d);
    } else if Nested(doc, "price", "drawdown", "max_dd_display") == Some(JStr(d)) {
      DrawdownAt(sections, price, d);
    } else {
      var ds: seq<(string, Json)> :| Nested(doc, "price", "returns", "display") == Some(JObj(ds)) && JStr(d) in Values(ds);
      ReturnsAt(sections, price, ds, d);
    }
  }

  lemma VolatilityAt(sections: seq<(string, Json)>, price: Json, d: string)
    requires |sections| >= 2 && sections[0].0 == "meta" && sections[1] == ("price", price) && PriceShape(price)
    requires d != NA
    requires Nested(JObj(sections), "price", "volatility", "display") == Some(JStr(d))
    ensures d in Collect(true, JObj(sections)).percentStrings
  {
    KeysDiffer();
    LookupSecond(sections, "price");
    LookupThird(price.fields, "volatility");
    LookupThird(price.fields[2].1.fields, "display");
    VolatilityDisplayIndexed(sections, price, d);
  }

  lemma DrawdownAt(sections: seq<(string, Json)>, price: Json, d: string)
    requires |sections| >= 2 && sections[0].0 == "meta" && sections[1] == ("price", price) && PriceShape(price)
    requires d != NA
    requires Nested(JObj(sections), "price", "drawdown", "max_dd_display") == Some(JStr(d))
    ensures d in Collect(true, JObj(sections)).percentStrings
  {
    KeysDiffer();
    LookupSecond(sections, "price");
    LookupFourth(price.fields, "drawdown");
    LookupSecond(price.fields[3].1.fields, "max_dd_display");
    MaxDrawdownDisplayIndexed(sections, price, d);
  }

  lemma ReturnsAt(sections: seq<(string, Json)>, price: Json, ds: seq<(string, Json)>, d: string)
    requires |sections| >= 2 && sections[0].0 == "meta" && sections[1] == ("price", price) && PriceShape(price)
    requires d != NA
    requires Nested(JObj(sections), "price", "returns", "display") == Some(JObj(ds)) && JStr(d) in Values(ds)
    ensures d in Collect(true, JObj(sections)).percentStrings
  {
    KeysDiffer();
    LookupSecond(sections, "price");
    LookupSecond(price.fields, "returns");
    LookupThird(price.fields[1].1.fields, "display");
    var m :| 0 <= m < |ds| && Values(ds)[m] == JStr(d);
    ReturnDisplayIndexed(sections, price, m, d);
  }

  // ---------------------------------------------------------------------------
  // The routing as written leaves the returns out of percent_strings
  // ---------------------------------------------------------------------------

  /** As written only a value under the key `display` can be a percentage. */
  lemma RoutePercentAsWritten(key: string, s: string)
    requires key != "display"
    ensures Route(false, key, s).percentStrings == []
  {
  }

  lemma {:induction false} CollectFieldsAppend(c: bool, a: seq<(string, Json)>, b: seq<(string, Json)>)
    ensures CollectFields(c, a + b).percentStrings == CollectFields(c, a).percentStrings + CollectFields(c, b).percentStrings
    decreases |a|
  {
    if a == [] {
      assert a + b == b;
    } else {
      assert (a + b)[0] == a[0] && (a + b)[1..] == a[1..] + b;
      CollectFieldsAppend(c, a[1..], b);
    }
  }

  /** Entries holding strings or scalars under keys other than `display` give no
      percentage as written. */
  lemma {:induction false} FlatFieldsNoPercent(fields: seq<(string, Json)>)
    requires forall i :: 0 <= i < |fields| ==> fields[i].0 != "display" && !fields[i].1.JObj? && !fields[i].1.JArr?
    ensures CollectFields(false, fields).percentStrings == []
    decreases |fields|
  {
    if fields != [] {
      if fields[0].1.JStr? {
        RoutePercentAsWritten(fields[0].0, fields[0].1.s);
      } else {
        assert Collect(false, fields[0].1) == NoAudit;
      }
      assert CollectField(false, fields[0]).percentStrings == [];
      FlatFieldsNoPercent(fields[1..]);
    }
  }

  lemma {:induction false} StringItemsNoPercent(items: seq<Json>)
    requires forall i :: 0 <= i < |items| ==> items[i].JStr?
    ensures CollectItems(false, items).percentStrings == []
    decreases |items|
  {
    if items != [] {
      StringItemsNoPercent(items[1..]);
    }
  }

  /** Items that are strings or scalars, under keys other than `display`. */
  predicate Flat(fields: seq<(string, Json)>)
  {
    forall i :: 0 <= i < |fields| ==> fields[i].0 != "display" && !fields[i].1.JObj? && !fields[i].1.JArr?
  }

  /** The layout of a returns section: windows, raw, display, then the flat
      performance labels. */
  lemma ReturnsLayoutNoPercent(raw: seq<(string, Json)>, displays: seq<(string, Json)>, perf: seq<(string, Json)>)
    requires Flat(raw) && Flat(displays) && Flat(perf)
    ensures var head := [("windows", JArr(Strs(Keys(raw)))), ("raw", JObj(raw)), ("display", JObj(displays))];
      CollectFields(false, head + perf).percentStrings == []
  {
    var h0, h1, h2 := ("windows", JArr(Strs(Keys(raw)))), ("raw", JObj(raw)), ("display", JObj(displays));
    assert [h0, h1, h2] + perf == [h0] + ([h1] + ([h2] + perf));
    FlatFieldsNoPercent(perf);
    FlatFieldsNoPercent(displays);
    FieldsConsPercent(h2, perf);
    FlatFieldsNoPercent(raw);
    FieldsConsPercent(h1, [h2] + perf);
    StringItemsNoPercent(Strs(Keys(raw)));
    FieldsConsPercent(h0, [h1] + ([h2] + perf));
  }

  lemma FieldsConsPercent(f: (string, Json), rest: seq<(string, Json)>)
    ensures CollectFields(false, [f] + rest).percentStrings ==
      CollectField(false, f).percentStrings + CollectFields(false, rest).percentStrings
  {
    assert ([f] + rest)[0] == f && ([f] + rest)[1..] == rest;
  }

  lemma DisplaysFlat(env: Env, items: seq<(string, Json)>)
    requires ReturnDisplays(env, items).Ok? && "display" !in Keys(items)
    ensures Flat(items) && Flat(ReturnDisplays(env, items).value)
  {
    assert forall i :: 0 <= i < |items| ==> items[i].0 in Keys(items);
  }

  /** The returns section contributes no percentage to the index as written, though
      each of its non-null returns has a percentage display (unless a return is
      itself named `display`). */
  lemma ReturnsNotIndexedAsWritten(env: Env, pm: Json)
    requires BuildReturns(env, pm).Ok?
    requires var raw := BuildReturns(env, pm).value.fields[1].1;
      "display" !in Keys(raw.fields)
    ensures Collect(false, BuildReturns(env, pm).value).percentStrings == []
  {
    var rv := GetOr(pm, "returns", EmptyObj).value;
    var displays := ReturnDisplays(env, rv.fields).value;
    var perf := PerformanceFields(Labelers.ClassifyReturnPerformance(ReturnsMap(rv.fields)));
    assert BuildReturns(env, pm).value.fields ==
      [("windows", JArr(Strs(Keys(rv.fields)))), ("raw", rv), ("display", JObj(displays))] + perf;
    DisplaysFlat(env, rv.fields);
    ReturnsLayoutNoPercent(rv.fields, displays, perf);
  }

  /** As written, a string under a `*_display` key other than `display`, `window_display` and
      the date displays is dropped: only a key named `display` routes a display string. The
      corrected routing indexes it when it is a percentage. */
  lemma SuffixedDisplayDroppedAsWritten(key: string, s: string)
    requires EndsWith(key, "_display") && 't' !in key && key != "window_display"
    ensures Route(false, key, s) == NoAudit
    ensures s != NA && '%' in s ==> Route(true, key, s).percentStrings == [s]
  {
    assert key != "recovery_status" by {
      assert 't' in "recovery_status";
    }
    assert key != "level" && key != "basis" by {
      assert |key| >= |"_display"|;
    }
    if Contains(key, "date_display") {
      ContainsChars(key, "date_display", 't');
    }
  }

  /** `max_dd_display` is such a key: as written the maximum-drawdown percentage
      (reports/v1_to_v2_builder.py:156) never reaches the index. */
  lemma DrawdownDisplayDroppedAsWritten(key: string, s: string)
    requires key == "max_dd_display"
    ensures Route(false, key, s) == NoAudit
    ensures s != NA && '%' in s ==> Route(true, key, s).percentStrings == [s]
  {
    assert key == "max_dd" + "_display";
    assert 't' !in key;
    SuffixedDisplayDroppedAsWritten(key, s);
  }

  /** The smallest case: returns {"1D": 0.01}. Its display is a percentage that the
      index as written leaves out and the corrected routing includes. */
  lemma ReturnsDisplayMissedAsWritten(env: Env)
    ensures var pm := JObj([("returns", JObj([("1D", JNum(0.01))]))]);
      BuildReturns(env, pm).Ok? &&
      var sec := BuildReturns(env, pm).value;
      var d := sec.fields[2].1.fields[0].1.s;
      d != NA && '%' in d &&
      d !in Collect(false, sec).percentStrings &&
      d in Collect(true, sec).percentStrings
  {
    var pm := JObj([("returns", JObj([("1D", JNum(0.01))]))]);
    var rv := JObj([("1D", JNum(0.01))]);
    assert GetOr(pm, "returns", EmptyObj) == Ok(rv);
    assert ReturnDisplays(env, rv.fields).Ok?;
    var sec := BuildReturns(env, pm).value;
    var d := sec.fields[2].1.fields[0].1.s;
    assert "1D" != "display";
    assert Keys(rv.fields) == ["1D"];
    ReturnsNotIndexedAsWritten(env, pm);
    assert CollectDisplay(true, sec.fields[2].1.fields[0]) == RouteDisplay(d);
    DisplayWithin(true, sec.fields[2].1.fields, 0);
    assert CollectField(true, sec.fields[2]) == CollectDisplays(true, sec.fields[2].1.fields);
    FieldWithin(true, sec.fields, 2);
  }
}
