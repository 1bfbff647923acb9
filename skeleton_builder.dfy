// The executive-summary skeleton: one paragraph whose every number and date is a
// display string taken from the Enhanced MetricsJSON v2 document. Every statement
// builder is an f-string, modelled as a sequence of pieces, literal template text or
// an interpolated value, so that the values a statement reads can be traced into
// the text. `str()` of a value that is not a string is the parameter `show`.
module SkeletonBuilder {
  import opened Wrappers
  import opened Text
  import opened Json

  const NotAvailable := "Not available"
  const InvalidMetrics := "Invalid v2 metrics provided"
  const MinWords := 120
  const MaxWords := 180

  // ---------------------------------------------------------------------------
  // f-strings as pieces

  /** One part of an f-string: literal template text, or an interpolated value. */
  datatype Piece = Lit(text: string) | Val(text: string)

  function Render(ps: seq<Piece>): string
  {
    if ps == [] then [] else ps[0].text + Render(ps[1..])
  }

  /** `f"{value}"`: a string as it is, anything else through `str()`. */
  function Fmt(show: Json -> string, j: Json): string
  {
    if j.JStr? then j.s else show(j)
  }

  /** `sep.join(...)` over f-strings. */
  function JoinPieces(ms: seq<seq<Piece>>, sep: string): seq<Piece>
  {
    if |ms| == 0 then []
    else if |ms| == 1 then ms[0]
    else ms[0] + [Lit(sep)] + JoinPieces(ms[1..], sep)
  }

  lemma {:induction false} RenderConcat(a: seq<Piece>, b: seq<Piece>)
    ensures Render(a + b) == Render(a) + Render(b)
  {
    if a == [] {
      assert a + b == b;
    } else {
      assert (a + b)[0] == a[0] && (a + b)[1..] == a[1..] + b;
      RenderConcat(a[1..], b);
    }
  }

  /** Joining keeps every piece of every part. */
  lemma {:induction false} JoinPiecesKeeps(ms: seq<seq<Piece>>, sep: string, k: nat, x: Piece)
    requires k < |ms| && x in ms[k]
    ensures x in JoinPieces(ms, sep)
  {
    if |ms| > 1 && k > 0 {
      JoinPiecesKeeps(ms[1..], sep, k - 1, x);
    }
  }

  /** A string that holds `sub` at position `i` contains it. */
  lemma {:induction false} ContainsAt(s: string, sub: string, i: nat)
    requires i + |sub| <= |s| && s[i..i + |sub|] == sub
    ensures Contains(s, sub)
    decreases i
  {
    if i > 0 {
      assert s[1..][i - 1..i - 1 + |sub|] == s[i..i + |sub|];
      ContainsAt(s[1..], sub, i - 1);
    } else {
      assert s[..|sub|] == sub;
    }
  }

  /** Every interpolated value appears verbatim in the rendered text. */
  lemma {:induction false} ValueShown(ps: seq<Piece>, v: string)
    requires Val(v) in ps
    ensures Contains(Render(ps), v)
  {
    var k :| 0 <= k < |ps| && ps[k] == Val(v);
    assert ps == ps[..k] + [Val(v)] + ps[k + 1..];
    RenderConcat(ps[..k] + [Val(v)], ps[k + 1..]);
    RenderConcat(ps[..k], [Val(v)]);
    assert Render([Val(v)]) == v + Render([]);
    var s := Render(ps);
    var a := Render(ps[..k]);
    assert s == a + v + Render(ps[k + 1..]);
    assert s[|a|..|a| + |v|] == v;
    ContainsAt(s, v, |a|);
  }

  // ---------------------------------------------------------------------------
  // The statement builders

  /** `d.get(key, "Not available")` gives the placeholder: the key is missing or
      holds the string "Not available". */
  predicate NotShown(j: Json, key: string)
  {
    GetOr(j, key, JStr(NotAvailable)) == Ok(JStr(NotAvailable))
  }

  /** `value > 0` in Python: numbers and booleans compare, anything else raises. */
  function Positive(j: Json): (r: Result<bool>)
    ensures r.Ok? <==> j.JNum? || j.JBool?
    ensures j.JNum? ==> r == Ok(j.n > 0.0)
  {
    match j
      case JNum(n) => Ok(n > 0.0)
      case JBool(b) => Ok(b)
      case _ => Err("'>' not supported between the value and 'int'")
  }

  /** `meta.get('company', f"{ticker} Inc.")`, as the pieces it contributes. */
  function Company(show: Json -> string, meta: Json, ticker: Json): (r: Result<seq<Piece>>)
    ensures r.Ok? <==> meta.JObj?
    ensures r.Ok? && !Has(meta, "company") ==> r.value == [Val(Fmt(show, ticker)), Lit(" Inc.")]
    ensures r.Ok? && Has(meta, "company") ==> r.value == [Val(Fmt(show, Member(meta, "company").value))]
  {
    if !meta.JObj? then Err("'company' looked up in a value that is not a dictionary")
    else if Has(meta, "company") then Ok([Val(Fmt(show, Member(meta, "company").value))])
    else Ok([Val(Fmt(show, ticker)), Lit(" Inc.")])
  }

  /** `_build_opening_statement`: the company, the ticker, the current price and its
      date, each "Not available" when missing. */
  function OpeningStatement(show: Json -> string, ticker: Json, company: seq<Piece>, price: Json): (r: Result<seq<Piece>>)
    ensures r.Ok? <==> price.JObj? && GetOr(price, "current", EmptyObj).value.JObj?
    ensures r.Ok? ==> Val(Fmt(show, ticker)) in r.value
    ensures r.Ok? ==> var current := GetOr(price, "current", EmptyObj).value;
      Val(Fmt(show, GetOr(current, "display", JStr(NotAvailable)).value)) in r.value &&
      Val(Fmt(show, GetOr(current, "date_display", JStr(NotAvailable)).value)) in r.value
  {
    var current :- GetOr(price, "current", EmptyObj);
    var display :- GetOr(current, "display", JStr(NotAvailable));
    var date := GetOr(current, "date_display", JStr(NotAvailable)).value;
    Ok(company + [Lit(" ("), Val(Fmt(show, ticker)), Lit(") closed at "), Val(Fmt(show, display)),
      Lit(" as of "), Val(Fmt(show, date)), Lit(".")])
  }

  /** `_build_volatility_statement`: a fixed sentence when the display is missing,
      else the level, the display and the window. */
  function VolatilityStatement(show: Json -> string, volatility: Json): (r: Result<seq<Piece>>)
    ensures r.Ok? <==> volatility.JObj?
    ensures r.Ok? && NotShown(volatility, "display") ==> r.value == [Lit("Volatility data not available.")]
    ensures r.Ok? && !NotShown(volatility, "display") ==>
      Val(Fmt(show, GetOr(volatility, "display", JStr(NotAvailable)).value)) in r.value &&
      Val(Fmt(show, GetOr(volatility, "level", JStr("unknown")).value)) in r.value &&
      Val(Fmt(show, GetOr(volatility, "window_display", JStr("(21-day)")).value)) in r.value
  {
    var display :- GetOr(volatility, "display", JStr(NotAvailable));
    var level := GetOr(volatility, "level", JStr("unknown")).value;
    var window := GetOr(volatility, "window_display", JStr("(21-day)")).value;
    if display == JStr(NotAvailable) then Ok([Lit("Volatility data not available.")])
    else Ok([Lit("The stock exhibited "), Val(Fmt(show, level)), Lit(" volatility of "), Val(Fmt(show, display)),
      Lit(" "), Val(Fmt(show, window)), Lit(".")])
  }

  /** `_build_drawdown_statement`: a fixed sentence when the maximum drawdown is
      missing; the peak-to-trough span and the recovery status when both dates are
      present, else the maximum drawdown alone. */
  function DrawdownStatement(show: Json -> string, drawdown: Json): (r: Result<seq<Piece>>)
    ensures r.Ok? <==> drawdown.JObj?
    ensures r.Ok? && NotShown(drawdown, "max_dd_display") ==> r.value == [Lit("Drawdown analysis not available.")]
    ensures r.Ok? && !NotShown(drawdown, "max_dd_display") ==>
      Val(Fmt(show, GetOr(drawdown, "max_dd_display", JStr(NotAvailable)).value)) in r.value
    ensures r.Ok? && !NotShown(drawdown, "max_dd_display") ==>
      var peak := Get(drawdown, "peak_date_display").value;
      var trough := Get(drawdown, "trough_date_display").value;
      if Truthy(peak) && Truthy(trough) then
        Val(Fmt(show, peak)) in r.value && Val(Fmt(show, trough)) in r.value &&
        Val(Fmt(show, GetOr(drawdown, "recovery_status", JStr("recovery status unknown")).value)) in r.value
      else |r.value| == 3
  {
    var maxDrawdown :- GetOr(drawdown, "max_dd_display", JStr(NotAvailable));
    if maxDrawdown == JStr(NotAvailable) then Ok([Lit("Drawdown analysis not available.")])
    else
      var peak := Get(drawdown, "peak_date_display").value;
      var trough := Get(drawdown, "trough_date_display").value;
      var recovery := GetOr(drawdown, "recovery_status", JStr("recovery status unknown")).value;
      if Truthy(peak) && Truthy(trough) then
        Ok([Lit("The stock experienced a maximum drawdown of "), Val(Fmt(show, maxDrawdown)), Lit(" from "),
          Val(Fmt(show, peak)), Lit(" to "), Val(Fmt(show, trough)), Lit(", "), Val(Fmt(show, recovery)), Lit(".")])
      else Ok([Lit("The stock experienced a maximum drawdown of "), Val(Fmt(show, maxDrawdown)), Lit(".")])
  }

  /** `_build_ownership_statement`, the concentration clause: the level with its basis
      and the CR5 or HHI display when the basis names one the dictionary holds. */
  function ConcentrationClause(show: Json -> string, concentration: Json, level: Json, basis: Json): (r: Result<seq<Piece>>)
    requires concentration.JObj?
    ensures r.Ok? ==> (|r.value| >= 1 &&
      r.value[0] in {Lit("Institutional ownership shows "), Lit("Institutional ownership concentration not available")})
    ensures level == JStr("unknown") || basis == JStr("unknown") ==>
      r == Ok([Lit("Institutional ownership concentration not available")])
    ensures r.Ok? && level != JStr("unknown") && basis != JStr("unknown") ==> Val(Fmt(show, level)) in r.value
    ensures basis == JStr("CR5") && Has(concentration, "cr5") && level != JStr("unknown") ==>
      (r.Ok? <==> Member(concentration, "cr5").value.JObj?)
    ensures basis == JStr("HHI") && Has(concentration, "hhi") && level != JStr("unknown") ==>
      (r.Ok? <==> Member(concentration, "hhi").value.JObj?)
  {
    if level != JStr("unknown") && basis != JStr("unknown") then
      if basis == JStr("CR5") && Has(concentration, "cr5") then
        var cr5 :- GetOr(Member(concentration, "cr5").value, "display", JStr(NotAvailable));
        Ok([Lit("Institutional ownership shows "), Val(Fmt(show, level)), Lit(" concentration based on "),
          Val(Fmt(show, basis)), Lit(" with top 5 holders controlling "), Val(Fmt(show, cr5))])
      else if basis == JStr("HHI") && Has(concentration, "hhi") then
        var hhi :- GetOr(Member(concentration, "hhi").value, "display", JStr(NotAvailable));
        Ok([Lit("Institutional ownership shows "), Val(Fmt(show, level)), Lit(" concentration based on "),
          Val(Fmt(show, basis)), Lit(" ("), Val(Fmt(show, hhi)), Lit(")")])
      else Ok([Lit("Institutional ownership shows "), Val(Fmt(show, level)), Lit(" concentration")])
    else Ok([Lit("Institutional ownership concentration not available")])
  }

  /** What `j.get(key, default)` reads, for use in contracts: the default when `j`
      is not a dictionary (where the lookup itself raises). */
  function Peek(j: Json, key: string, default: Json): Json
  {
    if j.JObj? then GetOr(j, key, default).value else default
  }

  /** The tail of the ownership statement: the holder count and the total value when
      the total's display is present and the count is positive, then a full stop. */
  function OwnershipTail(show: Json -> string, totalDisplay: Json, holders: Json): (r: Result<seq<Piece>>)
    ensures totalDisplay == JStr(NotAvailable) ==> r == Ok([Lit(".")])
    ensures totalDisplay != JStr(NotAvailable) ==> (r.Ok? <==> holders.JNum? || holders.JBool?)
    ensures r.Ok? && totalDisplay != JStr(NotAvailable) && Positive(holders) == Ok(true) ==>
      Val(Fmt(show, holders)) in r.value && Val(Fmt(show, totalDisplay)) in r.value
    ensures r.Ok? && Positive(holders) == Ok(false) ==> r.value == [Lit(".")]
  {
    if totalDisplay != JStr(NotAvailable) then
      var positive :- Positive(holders);
      if positive then
        Ok([Lit(" across "), Val(Fmt(show, holders)), Lit(" institutions totaling "), Val(Fmt(show, totalDisplay)), Lit(".")])
      else Ok([Lit(".")])
    else Ok([Lit(".")])
  }

  /** `_build_ownership_statement`: a fixed sentence without ownership data, else the
      concentration clause followed by the tail. */
  function OwnershipStatement(show: Json -> string, ownership: Json): (r: Result<seq<Piece>>)
    ensures !Truthy(ownership) ==> r == Ok([Lit("Institutional ownership data not available.")])
    ensures Truthy(ownership) && !ownership.JObj? ==> r.Err?
    ensures r.Ok? && Truthy(ownership) ==> r.value != [Lit("Institutional ownership data not available.")]
  {
    if !Truthy(ownership) then Ok([Lit("Institutional ownership data not available.")])
    else
      var concentration :- GetOr(ownership, "concentration", EmptyObj);
      var level :- GetOr(concentration, "level", JStr("unknown"));
      var basis := GetOr(concentration, "basis", JStr("unknown")).value;
      var totalValue := GetOr(ownership, "total_value", EmptyObj).value;
      var totalDisplay :- GetOr(totalValue, "display", JStr(NotAvailable));
      var holders := GetOr(ownership, "total_holders", JNum(0.0)).value;
      var clause :- ConcentrationClause(show, concentration, level, basis);
      var tail :- OwnershipTail(show, totalDisplay, holders);
      Ok(clause + tail)
  }

  /** `_build_data_quality_note`: a note only when the coverage display is present;
      it names the missing days when there are some. */
  function DataQualityNote(show: Json -> string, dataQuality: Json): (r: Result<Option<seq<Piece>>>)
    ensures r.Ok? ==> var display := Peek(Peek(dataQuality, "price_coverage", EmptyObj), "display", JNull);
      (r.value.Some? <==> Truthy(display) && display != JStr(NotAvailable)) &&
      (r.value.Some? ==> Val(Fmt(show, display)) in r.value.value)
  {
    var coverage :- GetOr(dataQuality, "price_coverage", EmptyObj);
    var display :- Get(coverage, "display");
    var missing := GetOr(dataQuality, "missing_days", JNum(0.0)).value;
    if Truthy(display) && display != JStr(NotAvailable) then
      var some :- Positive(missing);
      if some then
        Ok(Some([Lit("Analysis covers "), Val(Fmt(show, display)), Lit(" of expected trading days with "),
          Val(Fmt(show, missing)), Lit(" missing days.")]))
      else Ok(Some([Lit("Price data coverage is "), Val(Fmt(show, display)), Lit(".")]))
    else Ok(None)
  }

  // ---------------------------------------------------------------------------
  // The returns statement

  /** The return periods in the order the statement considers them. */
  const PeriodsPriority: seq<string> := ["1M", "3M", "6M", "1Y", "1W", "1D"]

  /** At most this many periods are mentioned. */
  const MaxPeriods := 3

  /** `_format_period_name`: the readable name of a period key; any other key is its
      own name. */
  function PeriodName(key: string): (name: string)
  {
    if key == "1D" then "1-day"
    else if key == "1W" then "1-week"
    else if key == "1M" then "1-month"
    else if key == "3M" then "3-month"
    else if key == "6M" then "6-month"
    else if key == "1Y" then "1-year"
    else key
  }

  /** `period in display and display[period] != "Not available"`, on a dictionary. */
  predicate Available(display: Json, period: string)
  {
    Has(display, period) && Member(display, period).value != JStr(NotAvailable)
  }

  /** `Available` as a test on period keys. */
  function IsAvailable(display: Json): string -> bool
  {
    period => Available(display, period)
  }

  /** The keys among the first `n` of `ps` that pass `keep`, in order. */
  function KeptIn(keep: string -> bool, ps: seq<string>, n: nat): (r: seq<string>)
    requires n <= |ps|
    ensures |r| <= n
  {
    if n == 0 then []
    else KeptIn(keep, ps, n - 1) + (if keep(ps[n - 1]) then [ps[n - 1]] else [])
  }

  /** The filter keeps exactly the keys that pass. */
  lemma {:induction false} KeptMembers(keep: string -> bool, ps: seq<string>, n: nat)
    requires n <= |ps|
    ensures forall p :: p in KeptIn(keep, ps, n) <==> p in ps[..n] && keep(p)
  {
    if n > 0 {
      KeptMembers(keep, ps, n - 1);
      assert ps[..n] == ps[..n - 1] + [ps[n - 1]];
    }
  }

  /** Filtering a longer prefix extends the filtered shorter one with keys from
      past the shorter prefix. */
  lemma {:induction false} KeptGrows(keep: string -> bool, ps: seq<string>, n: nat, m: nat)
    requires n <= m <= |ps|
    ensures var a, b := KeptIn(keep, ps, n), KeptIn(keep, ps, m);
      |a| <= |b| && b[..|a|] == a && forall j :: |a| <= j < |b| ==> b[j] in ps[n..m]
    decreases m
  {
    if m > n {
      KeptGrows(keep, ps, n, m - 1);
      var a, b := KeptIn(keep, ps, n), KeptIn(keep, ps, m - 1);
      var c := KeptIn(keep, ps, m);
      assert c[..|b|] == b;
      forall j | |a| <= j < |c| ensures c[j] in ps[n..m] {
        if j < |b| {
          assert c[j] == b[j] && b[j] in ps[n..m - 1];
        } else {
          assert c[j] == ps[m - 1];
          assert ps[n..m][m - 1 - n] == ps[m - 1];
        }
      }
    }
  }

  /** The first three keys of `ps` that pass `keep`. */
  function FirstKept(keep: string -> bool, ps: seq<string>): (r: seq<string>)
    ensures |r| <= MaxPeriods
  {
    var a := KeptIn(keep, ps, |ps|);
    if |a| <= MaxPeriods then a else a[..MaxPeriods]
  }

  /** The periods the statement mentions. */
  function Chosen(display: Json): (r: seq<string>)
    ensures |r| <= MaxPeriods
  {
    FirstKept(IsAvailable(display), PeriodsPriority)
  }

  /** `f"{display[period]} ({period_name})"`. */
  function Mention(show: Json -> string, display: Json, period: string): seq<Piece>
  {
    [Val(Fmt(show, Peek(display, period, JNull))), Lit(" (" + PeriodName(period) + ")")]
  }

  function Mentions(show: Json -> string, display: Json, ps: seq<string>): (ms: seq<seq<Piece>>)
    ensures |ms| == |ps|
  {
    if ps == [] then []
    else Mentions(show, display, ps[..|ps| - 1]) + [Mention(show, display, ps[|ps| - 1])]
  }

  lemma {:induction false} MentionsAt(show: Json -> string, display: Json, ps: seq<string>, k: nat)
    requires k < |ps|
    ensures Mentions(show, display, ps)[k] == Mention(show, display, ps[k])
  {
    if k < |ps| - 1 {
      MentionsAt(show, display, ps[..|ps| - 1], k);
    }
  }

  lemma MentionsSnoc(show: Json -> string, display: Json, ps: seq<string>, p: string)
    ensures Mentions(show, display, ps + [p]) == Mentions(show, display, ps) + [Mention(show, display, p)]
  {
    assert (ps + [p])[..|ps|] == ps;
  }

  /** Once a prefix holds three kept keys, they are the first three. */
  lemma FirstKeptPrefix(keep: string -> bool, ps: seq<string>, n: nat)
    requires n <= |ps| && |KeptIn(keep, ps, n)| == MaxPeriods
    ensures FirstKept(keep, ps) == KeptIn(keep, ps, n)
  {
    KeptGrows(keep, ps, n, |ps|);
  }

  /** The loop of `_build_returns_statement` over the priority list `periods`
      (`PeriodsPriority` in the source): each available period is mentioned in turn,
      and the loop breaks once three are. */
  method MentionedPeriods(show: Json -> string, display: Json, periods: seq<string>) returns (mentioned: seq<seq<Piece>>)
    requires display.JObj?
    ensures mentioned == Mentions(show, display, FirstKept(IsAvailable(display), periods))
  {
    mentioned := [];
    ghost var chosen: seq<string> := [];
    var i := 0;
    while i < |periods|
      invariant 0 <= i <= |periods|
      invariant chosen == KeptIn(IsAvailable(display), periods, i) && |chosen| < MaxPeriods
      invariant mentioned == Mentions(show, display, chosen)
    {
      var period := periods[i];
      if Has(display, period) && Member(display, period).value != JStr(NotAvailable) {
        MentionsSnoc(show, display, chosen, period);
        mentioned := mentioned + [Mention(show, display, period)];
        chosen := chosen + [period];
        if |mentioned| >= MaxPeriods {
          FirstKeptPrefix(IsAvailable(display), periods, i + 1);
          break;
        }
      }
      i := i + 1;
    }
  }

  /** The sentence of `_build_returns_statement` over the mentions: none, one, or a
      list closed by ", and". */
  function ReturnsSentence(ms: seq<seq<Piece>>): (r: seq<Piece>)
    ensures r != []
    ensures r == [Lit("Return data not available.")] <==> ms == []
    ensures |ms| == 1 ==> r[0] == Lit("The stock returned ")
    ensures |ms| > 1 ==> r[0] == Lit("Returns were ")
    ensures forall k, x :: 0 <= k < |ms| && x in ms[k] ==> x in r
  {
    if ms == [] then [Lit("Return data not available.")]
    else if |ms| == 1 then
      var r := [Lit("The stock returned ")] + ms[0] + [Lit(".")];
      assert forall x :: x in ms[0] ==> x in r;
      r
    else
      var init := ms[..|ms| - 1];
      var r := [Lit("Returns were ")] + JoinPieces(init, ", ") + [Lit(", and ")] + ms[|ms| - 1] + [Lit(".")];
      forall k, x | 0 <= k < |ms| && x in ms[k] ensures x in r {
        if k < |ms| - 1 {
          JoinPiecesKeeps(init, ", ", k, x);
        }
      }
      r
  }

  /** `key in value` for a value that is not a dictionary: a substring of a string,
      an item of a list. */
  predicate InValue(value: Json, key: string)
  {
    (value.JStr? && Contains(value.s, key)) || (value.JArr? && JStr(key) in value.items)
  }

  /** `_build_returns_statement`. A `display` that is a string or a list makes the first
      period found in it raise on indexing; one that is not iterable raises at once. */
  function ReturnsStatement(show: Json -> string, returnsData: Json): (r: Result<seq<Piece>>)
    ensures r.Ok? ==> returnsData.JObj?
    ensures returnsData.JObj? && Peek(returnsData, "display", EmptyObj).JObj? ==>
      var display := Peek(returnsData, "display", EmptyObj);
      r == Ok(ReturnsSentence(Mentions(show, display, Chosen(display))))
  {
    var display :- GetOr(returnsData, "display", EmptyObj);
    if display.JObj? then Ok(ReturnsSentence(Mentions(show, display, Chosen(display))))
    else if display.JStr? || display.JArr? then
      if exists k :: 0 <= k < |PeriodsPriority| && InValue(display, PeriodsPriority[k]) then
        Err("indices must be integers")
      else Ok([Lit("Return data not available.")])
    else Err("argument is not iterable")
  }

  /** In a list without repeats a key is not among those filtered before it. */
  lemma NotBefore(keep: string -> bool, ps: seq<string>, i: nat)
    requires i < |ps| && forall a, b :: 0 <= a < b < |ps| ==> ps[a] != ps[b]
    ensures ps[i] !in KeptIn(keep, ps, i)
  {
    KeptMembers(keep, ps, i);
    forall a | 0 <= a < i ensures ps[..i][a] != ps[i] { assert ps[..i][a] == ps[a]; }
  }

  /** ... nor among those filtered after it. */
  lemma NotAfter(keep: string -> bool, ps: seq<string>, i: nat)
    requires i < |ps| && forall a, b :: 0 <= a < b < |ps| ==> ps[a] != ps[b]
    ensures var next, all := KeptIn(keep, ps, i + 1), KeptIn(keep, ps, |ps|);
      forall j :: |next| <= j < |all| ==> all[j] != ps[i]
  {
    var next, all := KeptIn(keep, ps, i + 1), KeptIn(keep, ps, |ps|);
    KeptGrows(keep, ps, i + 1, |ps|);
    forall j | |next| <= j < |all| ensures all[j] != ps[i] {
      var q := all[j];
      var b :| 0 <= b < |ps[i + 1..]| && ps[i + 1..][b] == q;
      assert ps[i + 1 + b] == q;
    }
  }

  /** A kept key sits in the full filter right after those kept before it. */
  lemma KeptPosition(keep: string -> bool, ps: seq<string>, i: nat)
    requires i < |ps| && keep(ps[i])
    ensures var before, all := KeptIn(keep, ps, i), KeptIn(keep, ps, |ps|);
      |before| < |all| && all[|before|] == ps[i]
  {
    var before, next, all := KeptIn(keep, ps, i), KeptIn(keep, ps, i + 1), KeptIn(keep, ps, |ps|);
    assert next == before + [ps[i]];
    KeptGrows(keep, ps, i + 1, |ps|);
    assert all[..|next|][|before|] == next[|before|];
  }

  /** A kept key with fewer than three kept before it is among the first three. */
  lemma FirstKeptTakes(keep: string -> bool, ps: seq<string>, i: nat)
    requires i < |ps| && keep(ps[i]) && |KeptIn(keep, ps, i)| < MaxPeriods
    ensures ps[i] in FirstKept(keep, ps)
  {
    KeptPosition(keep, ps, i);
    var k := |KeptIn(keep, ps, i)|;
    assert FirstKept(keep, ps)[k] == ps[i];
  }

  /** In a list without repeats, any other key is not. */
  lemma FirstKeptSkips(keep: string -> bool, ps: seq<string>, i: nat)
    requires i < |ps| && forall a, b :: 0 <= a < b < |ps| ==> ps[a] != ps[b]
    requires !keep(ps[i]) || |KeptIn(keep, ps, i)| >= MaxPeriods
    ensures ps[i] !in FirstKept(keep, ps)
  {
    var p := ps[i];
    var before, all := KeptIn(keep, ps, i), KeptIn(keep, ps, |ps|);
    NotBefore(keep, ps, i);
    NotAfter(keep, ps, i);
    KeptGrows(keep, ps, i, |ps|);
    forall j | 0 <= j < |all| && j < MaxPeriods ensures all[j] != p {
      if j < |before| {
        assert all[j] == before[j];
      }
    }
  }

  /** In a list without repeats, a key is among the first three kept ones exactly
      when it passes and fewer than three before it do. */
  lemma FirstKeptExactly(keep: string -> bool, ps: seq<string>, i: nat)
    requires i < |ps| && forall a, b :: 0 <= a < b < |ps| ==> ps[a] != ps[b]
    ensures ps[i] in FirstKept(keep, ps) <==> keep(ps[i]) && |KeptIn(keep, ps, i)| < MaxPeriods
  {
    if keep(ps[i]) && |KeptIn(keep, ps, i)| < MaxPeriods {
      FirstKeptTakes(keep, ps, i);
    } else {
      FirstKeptSkips(keep, ps, i);
    }
  }

  lemma PrioritiesDistinct()
    ensures forall a, b :: 0 <= a < b < |PeriodsPriority| ==> PeriodsPriority[a] != PeriodsPriority[b]
  {
    var ps := PeriodsPriority;
    assert ps[0] == "1M" && ps[1] == "3M" && ps[2] == "6M" && ps[3] == "1Y" && ps[4] == "1W" && ps[5] == "1D";
  }

  /** A period is mentioned exactly when its return is available and fewer than three
      periods before it in the priority order are. */
  lemma ChosenExactly(display: Json, i: nat)
    requires i < |PeriodsPriority|
    ensures PeriodsPriority[i] in Chosen(display) <==>
      Available(display, PeriodsPriority[i]) && |KeptIn(IsAvailable(display), PeriodsPriority, i)| < MaxPeriods
  {
    PrioritiesDistinct();
    FirstKeptExactly(IsAvailable(display), PeriodsPriority, i);
  }

  /** The returns statement mentions as many periods as are available, up to three,
      and names each one's display. */
  lemma MentionsAvailable(show: Json -> string, display: Json)
    requires display.JObj?
    ensures var n := |KeptIn(IsAvailable(display), PeriodsPriority, |PeriodsPriority|)|;
      |Chosen(display)| == if n < MaxPeriods then n else MaxPeriods
    ensures forall p :: p in Chosen(display) ==> (Has(display, p) &&
      Val(Fmt(show, Member(display, p).value)) in ReturnsSentence(Mentions(show, display, Chosen(display))))
  {
    var c := Chosen(display);
    var ms := Mentions(show, display, c);
    var all := KeptIn(IsAvailable(display), PeriodsPriority, |PeriodsPriority|);
    KeptMembers(IsAvailable(display), PeriodsPriority, |PeriodsPriority|);
    forall p | p in c
      ensures Has(display, p) && Val(Fmt(show, Member(display, p).value)) in ReturnsSentence(ms)
    {
      var k :| 0 <= k < |c| && c[k] == p;
      assert p in all;
      MentionsAt(show, display, c, k);
      assert ms[k][0] == Val(Fmt(show, Member(display, p).value));
    }
  }

  // ---------------------------------------------------------------------------
  // Bounding the length

  /** The first `n` words of `text`, joined by single spaces. */
  function FirstWords(text: string, n: nat): string
    requires n <= WordCount(text)
  {
    Join(Words(text)[..n], " ")
  }

  /** A period somewhere past the first character. */
  predicate PeriodPastStart(t: string)
  {
    exists q :: 0 < q < |t| && t[q] == '.'
  }

  /** The cut of the first words `t` (lines 215-220): up to and including the last
      period when one lies past the first character, else `t` marked with "...". */
  function CutAtLastPeriod(t: string): (r: string)
    ensures PeriodPastStart(t) ==> 2 <= |r| <= |t| && r == t[..|r|] && EndsWith(r, ".") && '.' !in t[|r|..]
    ensures !PeriodPastStart(t) ==> r == t + "..."
  {
    var p := RFind(t, '.');
    if p > 0 then
      assert t[..p + 1][p..] == ".";
      t[..p + 1]
    else
      assert !PeriodPastStart(t) by {
        forall q | 0 < q < |t| ensures t[q] != '.' {
          if p >= 0 { assert t[q] == t[p + 1..][q - p - 1]; }
        }
      }
      t + "..."
  }

  /** `_truncate_at_sentence`: a text within the limit is returned as it is; a longer
      one is cut to its first `maxWords` words and then at its last period. */
  function TruncateAtSentence(text: string, maxWords: nat): (r: string)
    ensures WordCount(text) <= maxWords ==> r == text
    ensures WordCount(text) > maxWords ==> r == CutAtLastPeriod(FirstWords(text, maxWords))
  {
    if WordCount(text) <= maxWords then text
    else CutAtLastPeriod(FirstWords(text, maxWords))
  }

  /** A truncated text holds at most `maxWords` words. */
  lemma TruncateAtSentenceBound(text: string, maxWords: nat)
    requires maxWords >= 1
    ensures WordCount(TruncateAtSentence(text, maxWords)) <= maxWords
  {
    if WordCount(text) > maxWords {
      var ws := Words(text)[..maxWords];
      var t := Join(ws, " ");
      FirstWordsAreWords(text, maxWords);
      WordCountOfJoin(ws);
      if PeriodPastStart(t) {
        WordCountPrefix(t, |CutAtLastPeriod(t)|);
      } else {
        DotsAreNoSpace();
        WordCountJoinExtended(ws, "...");
      }
    }
  }

  /** `', '.join(sources)`: every item must be a string. */
  function SourceNames(items: seq<Json>): (r: Result<seq<string>>)
    ensures r.Ok? <==> forall k :: 0 <= k < |items| ==> items[k].JStr?
    ensures r.Ok? ==> |r.value| == |items| && forall k :: 0 <= k < |items| ==> r.value[k] == items[k].s
  {
    if items == [] then Ok([])
    else if !items[0].JStr? then Err("sequence item: expected str instance")
    else
      var rest :- SourceNames(items[1..]);
      Ok([items[0].s] + rest)
  }

  /** The first additional sentence: the trading-day span, when it is set. */
  function SpanSentence(show: Json -> string, v2: Json): (r: Result<seq<seq<Piece>>>)
    requires v2.JObj?
    ensures r.Ok? ==> var days := Peek(Peek(v2, "data_period", EmptyObj), "trading_days", JNull);
      if Truthy(days) then r.value == [[Lit("The analysis spans "), Val(Fmt(show, days)), Lit(" trading days of data.")]]
      else r.value == []
  {
    var dataPeriod := GetOr(v2, "data_period", EmptyObj).value;
    var days :- Get(dataPeriod, "trading_days");
    if Truthy(days) then Ok([[Lit("The analysis spans "), Val(Fmt(show, days)), Lit(" trading days of data.")]])
    else Ok([])
  }

  /** The second additional sentence: the sources, when `meta.sources` is set. */
  function SourcesSentence(v2: Json): (r: Result<seq<seq<Piece>>>)
    requires v2.JObj?
    ensures r.Ok? ==> |r.value| <= 1
  {
    var meta :- At(v2, "meta");
    var sources :- GetOr(meta, "sources", JArr([]));
    if Truthy(sources) then
      var items :- Iterate(sources);
      var names :- SourceNames(items);
      var listed := JoinPieces(seq(|names|, k requires 0 <= k < |names| => [Val(names[k])]), ", ");
      Ok([[Lit("Data sourced from ")] + listed + [Lit(".")]])
    else Ok([])
  }

  /** The additional sentences of `_expand_with_context` (lines 230-242). */
  function Context(show: Json -> string, v2: Json): (r: Result<seq<seq<Piece>>>)
    requires v2.JObj?
    ensures r.Ok? ==> |r.value| <= 2
  {
    var span :- SpanSentence(show, v2);
    var sources :- SourcesSentence(v2);
    Ok(span + sources)
  }

  /** `_expand_with_context`: a skeleton short of the minimum gets the additional
      sentences appended after a space; one that is not short is kept. */
  function ExpandWithContext(show: Json -> string, skeleton: string, v2: Json): (r: Result<string>)
    requires v2.JObj?
    ensures WordCount(skeleton) >= MinWords ==> r == Ok(skeleton)
    ensures r.Ok? ==> r.value == skeleton || StartsWith(r.value, skeleton + " ")
  {
    if WordCount(skeleton) >= MinWords then Ok(skeleton)
    else
      var context :- Context(show, v2);
      if context == [] then Ok(skeleton)
      else
        var r := skeleton + " " + Render(JoinPieces(context, " "));
        assert r[..|skeleton + " "|] == skeleton + " ";
        Ok(r)
  }

  // ---------------------------------------------------------------------------
  // The skeleton

  /** `metrics_v2["meta"]["ticker"]`, as a total term for contracts. */
  function TickerOf(v2: Json): Json
  {
    Peek(Peek(v2, "meta", EmptyObj), "ticker", JNull)
  }

  /** `price["current"].get("display", "Not available")`, as a total term for contracts. */
  function CurrentDisplay(v2: Json): Json
  {
    Peek(Peek(Peek(v2, "price", EmptyObj), "current", EmptyObj), "display", JStr(NotAvailable))
  }

  /** `price["volatility"].get("display", "Not available")`, as a total term for contracts. */
  function VolatilityDisplay(v2: Json): Json
  {
    Peek(Peek(Peek(v2, "price", EmptyObj), "volatility", EmptyObj), "display", JStr(NotAvailable))
  }

  /** `price["drawdown"].get("max_dd_display", "Not available")`, as a total term for contracts. */
  function MaxDrawdownDisplay(v2: Json): Json
  {
    Peek(Peek(Peek(v2, "price", EmptyObj), "drawdown", EmptyObj), "max_dd_display", JStr(NotAvailable))
  }

  predicate Shown(display: Json)
  {
    display != JStr(NotAvailable)
  }

  /** The statements about the price section (lines 37-50): opening, returns,
      volatility and drawdown. */
  function PriceStatements(show: Json -> string, ticker: Json, company: seq<Piece>, price: Json): (r: Result<seq<seq<Piece>>>)
    ensures r.Ok? ==> |r.value| == 4
    ensures r.Ok? ==> Val(Fmt(show, ticker)) in r.value[0]
    ensures r.Ok? ==> Val(Fmt(show, Peek(Peek(price, "current", EmptyObj), "display", JStr(NotAvailable)))) in r.value[0]
    ensures r.Ok? ==> var vol := Peek(price, "volatility", EmptyObj);
      !NotShown(vol, "display") ==> Val(Fmt(show, Peek(vol, "display", JStr(NotAvailable)))) in r.value[2]
    ensures r.Ok? ==> var dd := Peek(price, "drawdown", EmptyObj);
      !NotShown(dd, "max_dd_display") ==> Val(Fmt(show, Peek(dd, "max_dd_display", JStr(NotAvailable)))) in r.value[3]
  {
    var opening :- OpeningStatement(show, ticker, company, price);
    var returnsData :- At(price, "returns");
    var rets :- ReturnsStatement(show, returnsData);
    var volatilityData :- At(price, "volatility");
    var volatility :- VolatilityStatement(show, volatilityData);
    var drawdownData :- At(price, "drawdown");
    var drawdown :- DrawdownStatement(show, drawdownData);
    Ok([opening, rets, volatility, drawdown])
  }

  /** The statements of `build_exec_summary_skeleton` (lines 27-59), in order:
      opening, returns, volatility, drawdown, ownership, and the data-quality note
      when there is one. */
  function Components(show: Json -> string, v2: Json): (r: Result<seq<seq<Piece>>>)
    ensures !Truthy(v2) || InOp(v2, "meta") == Ok(false) ==> r == Err(InvalidMetrics)
    ensures r.Ok? ==> Has(v2, "meta") && ObjectComponents(show, v2) == r
  {
    if !Truthy(v2) then Err(InvalidMetrics)
    else
      var hasMeta :- InOp(v2, "meta");
      if !hasMeta then Err(InvalidMetrics)
      else if !v2.JObj? then Err("indices must be integers or slices, not str")
      else ObjectComponents(show, v2)
  }

  /** The statements for a dictionary holding `meta`: the ticker and the current
      price open the paragraph, and the volatility and the maximum drawdown are
      quoted by the third and fourth statements whenever they are shown. */
  function ObjectComponents(show: Json -> string, v2: Json): (r: Result<seq<seq<Piece>>>)
    requires Has(v2, "meta")
    ensures r.Ok? ==> 5 <= |r.value| <= 6
    ensures r.Ok? ==> Val(Fmt(show, TickerOf(v2))) in r.value[0]
    ensures r.Ok? ==> Val(Fmt(show, CurrentDisplay(v2))) in r.value[0]
  {
    var meta := Member(v2, "meta").value;
    var ticker :- At(meta, "ticker");
    var company := Company(show, meta, ticker).value;
    var price :- At(v2, "price");
    var statements :- PriceStatements(show, ticker, company, price);
    var closing :- ClosingStatements(show, v2);
    Ok(statements + closing)
  }

  /** The price statements of a dictionary holding `meta` open its components. */
  lemma PriceStatementsOpen(show: Json -> string, v2: Json)
    requires Has(v2, "meta") && ObjectComponents(show, v2).Ok?
    ensures var meta := Member(v2, "meta").value;
      var ticker := At(meta, "ticker").value;
      var price := Peek(v2, "price", EmptyObj);
      var statements := PriceStatements(show, ticker, Company(show, meta, ticker).value, price);
      statements.Ok? && ObjectComponents(show, v2).value[..4] == statements.value
  {
  }

  /** A volatility display that is shown is quoted by the third statement. */
  lemma VolatilityQuoted(show: Json -> string, v2: Json)
    requires Has(v2, "meta") && ObjectComponents(show, v2).Ok? && Shown(VolatilityDisplay(v2))
    ensures Val(Fmt(show, VolatilityDisplay(v2))) in ObjectComponents(show, v2).value[2]
  {
    PriceStatementsOpen(show, v2);
  }

  /** A maximum drawdown display that is shown is quoted by the fourth statement. */
  lemma MaxDrawdownQuoted(show: Json -> string, v2: Json)
    requires Has(v2, "meta") && ObjectComponents(show, v2).Ok? && Shown(MaxDrawdownDisplay(v2))
    ensures Val(Fmt(show, MaxDrawdownDisplay(v2))) in ObjectComponents(show, v2).value[3]
  {
    PriceStatementsOpen(show, v2);
  }

  /** The ownership statement, then the data-quality note when there is one. */
  function ClosingStatements(show: Json -> string, v2: Json): (r: Result<seq<seq<Piece>>>)
    requires v2.JObj?
    ensures r.Ok? ==> 1 <= |r.value| <= 2
  {
    var ownership :- OwnershipStatement(show, Get(v2, "ownership_13f").value);
    var note :- DataQualityNote(show, GetOr(v2, "data_quality", EmptyObj).value);
    Ok([ownership] + (if note.Some? then [note.value] else []))
  }

  /** The joined paragraph (line 62); every statement holds template text, so the
      `if comp` filter drops none. */
  function Paragraph(show: Json -> string, v2: Json): (r: Result<string>)
    ensures !Truthy(v2) || InOp(v2, "meta") == Ok(false) ==> r == Err(InvalidMetrics)
    ensures r.Ok? <==> Components(show, v2).Ok?
  {
    var components :- Components(show, v2);
    Ok(Render(JoinPieces(components, " ")))
  }

  /** `build_exec_summary_skeleton`: the paragraph, cut at a sentence when it runs
      over 180 words, expanded with context when it falls short of 120. */
  function BuildSkeleton(show: Json -> string, v2: Json): (r: Result<string>)
    ensures !Truthy(v2) || InOp(v2, "meta") == Ok(false) ==> r == Err(InvalidMetrics)
    ensures r.Ok? ==> Paragraph(show, v2).Ok? && Has(v2, "meta")
  {
    var text :- Paragraph(show, v2);
    var n := WordCount(text);
    if n > MaxWords then Ok(TruncateAtSentence(text, MaxWords))
    else if n < MinWords then ExpandWithContext(show, text, v2)
    else Ok(text)
  }

  /** A paragraph over the maximum comes out with at most 180 words, one within the
      bounds comes out unchanged, and a short one comes out with context appended. */
  lemma SkeletonBounds(show: Json -> string, v2: Json)
    requires BuildSkeleton(show, v2).Ok?
    ensures var text, r := Paragraph(show, v2).value, BuildSkeleton(show, v2).value;
      (WordCount(text) > MaxWords ==> WordCount(r) <= MaxWords) &&
      (MinWords <= WordCount(text) <= MaxWords ==> r == text) &&
      (WordCount(text) < MinWords ==> r == text || StartsWith(r, text + " "))
  {
    var text := Paragraph(show, v2).value;
    if WordCount(text) > MaxWords {
      TruncateAtSentenceBound(text, MaxWords);
    }
  }

  /** The paragraph names the ticker and shows the current price display verbatim:
      the values the skeleton is grounded on reach the text. */
  lemma ParagraphShowsTicker(show: Json -> string, v2: Json)
    requires Paragraph(show, v2).Ok?
    ensures Contains(Paragraph(show, v2).value, Fmt(show, TickerOf(v2)))
    ensures Contains(Paragraph(show, v2).value, Fmt(show, CurrentDisplay(v2)))
  {
    var components := Components(show, v2).value;
    JoinPiecesKeeps(components, " ", 0, Val(Fmt(show, TickerOf(v2))));
    JoinPiecesKeeps(components, " ", 0, Val(Fmt(show, CurrentDisplay(v2))));
    ValueShown(JoinPieces(components, " "), Fmt(show, TickerOf(v2)));
    ValueShown(JoinPieces(components, " "), Fmt(show, CurrentDisplay(v2)));
  }

  /** Text that extends a string keeps whatever that string contains. */
  lemma {:induction false} ContainsExtended(s: string, t: string, sub: string)
    requires Contains(s, sub) && StartsWith(t, s)
    ensures Contains(t, sub)
    decreases |s|
  {
    if StartsWith(s, sub) {
      assert t[..|sub|] == s[..|s|][..|sub|];
    } else {
      assert t[1..][..|s| - 1] == s[1..];
      ContainsExtended(s[1..], t[1..], sub);
    }
  }

  /** The text or its extension by a space and more keeps what the text contains. */
  lemma ContainsWhenExpanded(text: string, r: string, sub: string)
    requires Contains(text, sub) && (r == text || StartsWith(r, text + " "))
    ensures Contains(r, sub)
  {
    if r != text {
      assert r[..|text|] == r[..|text + " "|][..|text|];
      ContainsExtended(text, r, sub);
    }
  }

  /** A skeleton that was not cut names the ticker and shows the current price. */
  lemma SkeletonShowsTicker(show: Json -> string, v2: Json)
    requires BuildSkeleton(show, v2).Ok?
    requires WordCount(Paragraph(show, v2).value) <= MaxWords
    ensures Contains(BuildSkeleton(show, v2).value, Fmt(show, TickerOf(v2)))
    ensures Contains(BuildSkeleton(show, v2).value, Fmt(show, CurrentDisplay(v2)))
  {
    var text, r := Paragraph(show, v2).value, BuildSkeleton(show, v2).value;
    ParagraphShowsTicker(show, v2);
    SkeletonBounds(show, v2);
    ContainsWhenExpanded(text, r, Fmt(show, TickerOf(v2)));
    ContainsWhenExpanded(text, r, Fmt(show, CurrentDisplay(v2)));
  }
}
