// Data-quality guardrails run before metrics are computed (analysis/guardrails.py):
// whether there is enough history for each requested window, conflicting duplicate
// 13F rows, implausible metric values, suspicious price bars, and the
// recommendations that follow from them. A price frame is represented by its rows,
// or by its row count where only `len(price_df)` is used.
module Guardrails {
  import opened Wrappers
  import opened Text
  import opened Numerics

  // ---------------------------------------------------------------------------
  // validate_sufficient_data_for_metrics
  // ---------------------------------------------------------------------------

  /** `min_days_required.get(window, 0)`: the window length plus one day. */
  function MinDaysRequired(window: string): nat
  {
    if window == "1D" then 2
    else if window == "1W" then 6
    else if window == "1M" then 22
    else if window == "3M" then 64
    else if window == "6M" then 127
    else if window == "1Y" then 253
    else 0
  }

  predicate Enough(days: nat, window: string) { days >= MinDaysRequired(window) }

  /** The requested windows with enough history, in request order. */
  function AvailableOf(days: nat, ws: seq<string>): seq<string>
  {
    if ws == [] then []
    else AvailableOf(days, ws[..|ws| - 1]) + (if Enough(days, ws[|ws| - 1]) then [ws[|ws| - 1]] else [])
  }

  /** The requested windows without enough history, in request order. */
  function InsufficientOf(days: nat, ws: seq<string>): seq<string>
  {
    if ws == [] then []
    else InsufficientOf(days, ws[..|ws| - 1]) + (if Enough(days, ws[|ws| - 1]) then [] else [ws[|ws| - 1]])
  }

  datatype WindowSplit = WindowSplit(available: seq<string>, insufficient: seq<string>)

  /** An empty frame raises first; the 1Y check raises after the split is computed. */
  method ValidateSufficientData(tradingDays: nat, requested: seq<string>) returns (r: Result<WindowSplit>)
    ensures r.Err? <==> tradingDays == 0 || ("1Y" in requested && tradingDays < 150)
    ensures r.Ok? ==> r.value.available == AvailableOf(tradingDays, requested)
    ensures r.Ok? ==> r.value.insufficient == InsufficientOf(tradingDays, requested)
  {
    if tradingDays == 0 {
      return Err("No price data available for analysis");
    }
    var available: seq<string> := [];
    var insufficient: seq<string> := [];
    var i := 0;
    while i < |requested|
      invariant 0 <= i <= |requested|
      invariant available == AvailableOf(tradingDays, requested[..i])
      invariant insufficient == InsufficientOf(tradingDays, requested[..i])
    {
      var window := requested[i];
      var required := MinDaysRequired(window);
      assert requested[..i + 1][..i] == requested[..i];
      if tradingDays >= required {
        available := available + [window];
      } else {
        insufficient := insufficient + [window];
      }
      i := i + 1;
    }
    assert requested[..i] == requested;
    if "1Y" in requested && tradingDays < 150 {
      return Err("Insufficient data for 1Y analysis");
    }
    return Ok(WindowSplit(available, insufficient));
  }

  /** The two lists partition the request: every window lands in exactly one of
      them, according to the table, and nothing else appears. */
  lemma {:induction false} SplitPartitions(days: nat, ws: seq<string>)
    ensures |AvailableOf(days, ws)| + |InsufficientOf(days, ws)| == |ws|
    ensures multiset(AvailableOf(days, ws)) + multiset(InsufficientOf(days, ws)) == multiset(ws)
    ensures forall w :: w in AvailableOf(days, ws) <==> w in ws && Enough(days, w)
    ensures forall w :: w in InsufficientOf(days, ws) <==> w in ws && !Enough(days, w)
  {
    SplitCounts(days, ws);
    SplitMembers(days, ws);
  }

  lemma {:induction false} SplitCounts(days: nat, ws: seq<string>)
    ensures multiset(AvailableOf(days, ws)) + multiset(InsufficientOf(days, ws)) == multiset(ws)
    ensures |AvailableOf(days, ws)| + |InsufficientOf(days, ws)| == |ws|
  {
    if ws != [] {
      var init := ws[..|ws| - 1];
      var w := ws[|ws| - 1];
      SplitCounts(days, init);
      assert ws == init + [w];
      assert multiset(ws) == multiset(init) + multiset{w};
    }
  }

  lemma {:induction false} SplitMembers(days: nat, ws: seq<string>)
    ensures forall w :: w in AvailableOf(days, ws) <==> w in ws && Enough(days, w)
    ensures forall w :: w in InsufficientOf(days, ws) <==> w in ws && !Enough(days, w)
  {
    if ws != [] {
      var init := ws[..|ws| - 1];
      var w := ws[|ws| - 1];
      SplitMembers(days, init);
      assert ws == init + [w];
      assert forall x :: x in ws <==> x in init || x == w;
    }
  }

  /** Order is preserved: splitting a concatenation splits each part in turn. */
  lemma {:induction false} SplitPreservesOrder(days: nat, xs: seq<string>, ys: seq<string>)
    ensures AvailableOf(days, xs + ys) == AvailableOf(days, xs) + AvailableOf(days, ys)
    ensures InsufficientOf(days, xs + ys) == InsufficientOf(days, xs) + InsufficientOf(days, ys)
    decreases |ys|
  {
    if ys == [] {
      assert xs + ys == xs;
    } else {
      var init := ys[..|ys| - 1];
      assert (xs + ys)[..|xs + ys| - 1] == xs + init;
      SplitPreservesOrder(days, xs, init);
    }
  }

  /** More history never makes a window unavailable. */
  lemma {:induction false} AvailableMonotone(d1: nat, d2: nat, ws: seq<string>, w: string)
    requires d1 <= d2 && w in AvailableOf(d1, ws)
    ensures w in AvailableOf(d2, ws)
  {
    SplitPartitions(d1, ws);
    SplitPartitions(d2, ws);
  }

  // ---------------------------------------------------------------------------
  // detect_conflicting_13f_rows
  // ---------------------------------------------------------------------------

  datatype HoldingRow = HoldingRow(cik: string, cusip: string, asOf: string, valueUsd: real, shares: real)

  /** The primary key (cik, cusip, as_of). */
  type Key = (string, string, string)

  function KeyOf(row: HoldingRow): Key { (row.cik, row.cusip, row.asOf) }

  /** Python's order on key tuples: by CIK, then CUSIP, then date, each compared as a string. */
  predicate KeyLess(a: Key, b: Key)
  {
    LexLess(a.0, b.0) || (a.0 == b.0 && (LexLess(a.1, b.1) || (a.1 == b.1 && LexLess(a.2, b.2))))
  }

  lemma KeyLessTotal(a: Key, b: Key)
    requires a != b
    ensures KeyLess(a, b) || KeyLess(b, a)
  {
    if a.0 != b.0 {
      LexLessTotal(a.0, b.0);
    } else if a.1 != b.1 {
      LexLessTotal(a.1, b.1);
    } else {
      LexLessTotal(a.2, b.2);
    }
  }

  predicate KeysAscending(ks: seq<Key>)
  {
    forall i :: 0 <= i < |ks| - 1 ==> KeyLess(ks[i], ks[i + 1])
  }

  /** Adds `k` to an ascending list of keys unless it is already there. */
  function InsertKey(k: Key, ks: seq<Key>): (r: seq<Key>)
    requires KeysAscending(ks)
    ensures KeysAscending(r)
    ensures forall x :: x in r <==> x == k || x in ks
    ensures r != [] && (r[0] == k || (ks != [] && r[0] == ks[0]))
  {
    if ks == [] then [k]
    else if k == ks[0] then ks
    else if KeyLess(k, ks[0]) then [k] + ks
    else
      KeyLessTotal(k, ks[0]);
      assert ks == [ks[0]] + ks[1..];
      [ks[0]] + InsertKey(k, ks[1..])
  }

  /** The groups of `groupby(['cik', 'cusip', 'as_of'])`: the distinct primary keys, in
      ascending order (pandas sorts the group keys). */
  function GroupKeys(rows: seq<HoldingRow>): (ks: seq<Key>)
    ensures KeysAscending(ks)
    ensures forall k :: k in ks <==> exists i :: 0 <= i < |rows| && KeyOf(rows[i]) == k
  {
    if rows == [] then []
    else
      var init := GroupKeys(rows[..|rows| - 1]);
      assert forall i :: 0 <= i < |rows| - 1 ==> rows[..|rows| - 1][i] == rows[i];
      InsertKey(KeyOf(rows[|rows| - 1]), init)
  }

  /** Ascending keys are distinct: each group is checked once. */
  lemma {:induction false} AscendingKeysDistinct(ks: seq<Key>, i: nat, j: nat)
    requires KeysAscending(ks) && i < j < |ks|
    ensures KeyLess(ks[i], ks[j]) && ks[i] != ks[j]
    decreases j - i
  {
    if j == i + 1 {
      KeyLessIrreflexive(ks[i]);
    } else {
      AscendingKeysDistinct(ks, i, j - 1);
      KeyLessTransitive(ks[i], ks[j - 1], ks[j]);
      KeyLessIrreflexive(ks[i]);
    }
  }

  lemma KeyLessIrreflexive(a: Key)
    ensures !KeyLess(a, a)
  {
    LexLessIrreflexive(a.0);
    LexLessIrreflexive(a.1);
    LexLessIrreflexive(a.2);
  }

  lemma KeyLessTransitive(a: Key, b: Key, c: Key)
    requires KeyLess(a, b) && KeyLess(b, c)
    ensures KeyLess(a, c)
  {
    if LexLess(a.0, b.0) && LexLess(b.0, c.0) {
      LexLessTransitive(a.0, b.0, c.0);
    } else if a.0 == b.0 && b.0 == c.0 {
      if LexLess(a.1, b.1) && LexLess(b.1, c.1) {
        LexLessTransitive(a.1, b.1, c.1);
      } else if a.1 == b.1 && b.1 == c.1 {
        LexLessTransitive(a.2, b.2, c.2);
      }
    }
  }

  /** `group['value_usd'].tolist()` for the group with key `k`, in row order. */
  function GroupValues(rows: seq<HoldingRow>, k: Key): (vs: seq<real>)
    ensures |vs| <= |rows|
  {
    if rows == [] then []
    else GroupValues(rows[..|rows| - 1], k) + (if KeyOf(rows[|rows| - 1]) == k then [rows[|rows| - 1].valueUsd] else [])
  }

  /** `len(set(values)) > 1`. */
  predicate Differ(vs: seq<real>) { exists i :: 0 <= i < |vs| && vs[i] != vs[0] }

  datatype Conflict = Conflict(cik: string, cusip: string, asOf: string, values: seq<real>, variancePct: real)

  /** The test applied to one group: `Err` is the division by a zero average. */
  function GroupCheck(k: Key, vs: seq<real>): Result<Option<Conflict>>
  {
    if |vs| <= 1 || !Differ(vs) then Ok(None)
    else
      var range := SeqMax(vs) - SeqMin(vs);
      var avg := Average(vs);
      if avg == 0.0 then Err("division by zero")
      else if range / avg > 0.1 then Ok(Some(Conflict(k.0, k.1, k.2, vs, (range / avg) * 100.0)))
      else Ok(None)
  }

  /** The conflicts of the groups `keys`, in that order. */
  function ConflictsOver(rows: seq<HoldingRow>, keys: seq<Key>): Result<seq<Conflict>>
  {
    if keys == [] then Ok([])
    else match ConflictsOver(rows, keys[..|keys| - 1])
      case Err(e) => Err(e)
      case Ok(cs) =>
        match GroupCheck(keys[|keys| - 1], GroupValues(rows, keys[|keys| - 1]))
          case Err(e) => Err(e)
          case Ok(None) => Ok(cs)
          case Ok(Some(c)) => Ok(cs + [c])
  }

  /** `conflict_rate > 0.05`. */
  predicate HighConflictRate(conflicts: nat, rows: nat) { rows > 0 && (conflicts as real) / (rows as real) > 0.05 }

  /** `detect_conflicting_13f_rows`: the groups in key order; a spread of the values above 10%
      of their average is a conflict; more conflicts than 5% of the rows is an error. */
  method DetectConflicting13FRows(rows: seq<HoldingRow>) returns (r: Result<seq<Conflict>>)
    ensures rows == [] ==> r == Ok([])
    ensures r.Ok? ==> ConflictsOver(rows, GroupKeys(rows)) == Ok(r.value)
    ensures r.Ok? ==> !HighConflictRate(|r.value|, |rows|)
    ensures r.Err? <==> (rows != [] &&
      (ConflictsOver(rows, GroupKeys(rows)).Err? ||
       HighConflictRate(|ConflictsOver(rows, GroupKeys(rows)).value|, |rows|)))
  {
    if rows == [] {
      return Ok([]);
    }
    var keys := GroupKeys(rows);
    var all := CheckGroups(rows, keys);
    if all.Err? {
      return all;
    }
    if HighConflictRate(|all.value|, |rows|) {
      return Err("High conflict rate in 13F data");
    }
    return all;
  }

  /** The loop over the groups `keys`. */
  method CheckGroups(rows: seq<HoldingRow>, keys: seq<Key>) returns (r: Result<seq<Conflict>>)
    ensures r == ConflictsOver(rows, keys)
  {
    var conflicts: seq<Conflict> := [];
    var i := 0;
    while i < |keys|
      invariant 0 <= i <= |keys|
      invariant ConflictsOver(rows, keys[..i]) == Ok(conflicts)
    {
      var k := keys[i];
      var values := GroupValues(rows, k);
      ConflictsStep(rows, keys, i);
      var found := CheckGroup(k, values);
      if found.Err? {
        ConflictsErrSticky(rows, keys, i + 1);
        return Err(found.msg);
      }
      if found.value.Some? {
        conflicts := conflicts + [found.value.value];
      }
      i := i + 1;
    }
    assert keys[..i] == keys;
    return Ok(conflicts);
  }

  /** The test of one group with more than one distinct value. */
  method CheckGroup(k: Key, values: seq<real>) returns (r: Result<Option<Conflict>>)
    ensures r == GroupCheck(k, values)
  {
    if |values| > 1 && Differ(values) {
      var valueRange := SeqMax(values) - SeqMin(values);
      var avgValue := Sum(values) / (|values| as real);
      assert avgValue == Average(values);
      if avgValue == 0.0 {
        return Err("division by zero");
      }
      if valueRange / avgValue > 0.1 {
        return Ok(Some(Conflict(k.0, k.1, k.2, values, (valueRange / avgValue) * 100.0)));
      }
    }
    return Ok(None);
  }

  /** One more group: the conflicts so far, then that group's check. */
  lemma ConflictsStep(rows: seq<HoldingRow>, keys: seq<Key>, i: nat)
    requires i < |keys|
    ensures ConflictsOver(rows, keys[..i + 1]) ==
      match ConflictsOver(rows, keys[..i])
        case Err(e) => Err(e)
        case Ok(cs) =>
          match GroupCheck(keys[i], GroupValues(rows, keys[i]))
            case Err(e) => Err(e)
            case Ok(None) => Ok(cs)
            case Ok(Some(c)) => Ok(cs + [c])
  {
    assert keys[..i + 1][..i] == keys[..i];
  }

  /** Once a group fails, every longer list of groups fails. */
  lemma {:induction false} ConflictsErrSticky(rows: seq<HoldingRow>, keys: seq<Key>, n: nat)
    requires n <= |keys| && ConflictsOver(rows, keys[..n]).Err?
    ensures ConflictsOver(rows, keys) == ConflictsOver(rows, keys[..n])
    decreases |keys| - n
  {
    if n < |keys| {
      assert keys[..n + 1][..n] == keys[..n];
      ConflictsErrSticky(rows, keys, n + 1);
    } else {
      assert keys[..n] == keys;
    }
  }

  /** The range over the average, i.e. `variance_pct / 100`. */
  function Spread(vs: seq<real>): real
    requires vs != [] && Sum(vs) != 0.0
  {
    AverageZero(vs);
    (SeqMax(vs) - SeqMin(vs)) / Average(vs)
  }

  /** `sum(values) / len(values)`. */
  function Average(vs: seq<real>): real
    requires vs != []
  {
    Sum(vs) / (|vs| as real)
  }

  lemma AverageZero(vs: seq<real>)
    requires vs != []
    ensures Average(vs) == 0.0 <==> Sum(vs) == 0.0
  {
  }

  /** Every reported conflict is a group of its key with more than one row and a
      spread above 10%, reported with that spread as a percentage. */
  lemma ConflictsSound(rows: seq<HoldingRow>, keys: seq<Key>)
    requires ConflictsOver(rows, keys).Ok?
    ensures forall c :: c in ConflictsOver(rows, keys).value ==>
      var vs := GroupValues(rows, (c.cik, c.cusip, c.asOf));
      (c.cik, c.cusip, c.asOf) in keys && c.values == vs && |vs| > 1 &&
      Sum(vs) != 0.0 && Spread(vs) > 0.1 && c.variancePct == Spread(vs) * 100.0
  {
    forall c | c in ConflictsOver(rows, keys).value
      ensures var vs := GroupValues(rows, (c.cik, c.cusip, c.asOf));
        (c.cik, c.cusip, c.asOf) in keys && c.values == vs && |vs| > 1 &&
        Sum(vs) != 0.0 && Spread(vs) > 0.1 && c.variancePct == Spread(vs) * 100.0
    {
      ConflictSound(rows, keys, c);
    }
  }

  lemma {:induction false} ConflictSound(rows: seq<HoldingRow>, keys: seq<Key>, c: Conflict)
    requires ConflictsOver(rows, keys).Ok? && c in ConflictsOver(rows, keys).value
    ensures var vs := GroupValues(rows, (c.cik, c.cusip, c.asOf));
      (c.cik, c.cusip, c.asOf) in keys && c.values == vs && |vs| > 1 &&
      Sum(vs) != 0.0 && Spread(vs) > 0.1 && c.variancePct == Spread(vs) * 100.0
  {
    var init := keys[..|keys| - 1];
    var k := keys[|keys| - 1];
    var cs := ConflictsOver(rows, init).value;
    var vs := GroupValues(rows, k);
    if c in cs {
      ConflictSound(rows, init, c);
    } else {
      assert GroupCheck(k, vs) == Ok(Some(c));
      ReportedGroup(k, vs, c);
    }
  }

  /** What one reported group is: its key, its values and their spread. */
  lemma ReportedGroup(k: Key, vs: seq<real>, c: Conflict)
    requires GroupCheck(k, vs) == Ok(Some(c))
    ensures (c.cik, c.cusip, c.asOf) == k && c.values == vs && |vs| > 1
    ensures Sum(vs) != 0.0 && Spread(vs) > 0.1 && c.variancePct == Spread(vs) * 100.0
  {
    assert |vs| > 1 && Differ(vs) && Average(vs) != 0.0;
    AverageZero(vs);
    var spread := Spread(vs);
  }

  /** Every group with more than one row and a spread above 10% is reported. */
  lemma {:induction false} ConflictsComplete(rows: seq<HoldingRow>, keys: seq<Key>, k: Key)
    requires ConflictsOver(rows, keys).Ok? && k in keys
    requires var vs := GroupValues(rows, k); |vs| > 1 && Sum(vs) != 0.0 && Spread(vs) > 0.1
    ensures exists c :: c in ConflictsOver(rows, keys).value && (c.cik, c.cusip, c.asOf) == k
  {
    var init := keys[..|keys| - 1];
    var last := keys[|keys| - 1];
    assert ConflictsOver(rows, init).Ok?;
    if k == last {
      var vs := GroupValues(rows, k);
      var c := GroupCheckReports(k, vs);
      assert ConflictsOver(rows, keys).value == ConflictsOver(rows, init).value + [c];
    } else {
      assert k in init;
      ConflictsComplete(rows, init, k);
    }
  }

  lemma GroupCheckReports(k: Key, vs: seq<real>) returns (c: Conflict)
    requires |vs| > 1 && Sum(vs) != 0.0 && Spread(vs) > 0.1
    ensures GroupCheck(k, vs) == Ok(Some(c)) && (c.cik, c.cusip, c.asOf) == k
  {
    SpreadImpliesDiffer(vs);
    c := Conflict(k.0, k.1, k.2, vs, Spread(vs) * 100.0);
  }

  /** A group whose values all agree has zero spread, so the `len(set(values)) > 1`
      test only spares the division when every value is zero. */
  lemma SpreadImpliesDiffer(vs: seq<real>)
    requires vs != [] && Sum(vs) != 0.0 && Spread(vs) > 0.1
    ensures Differ(vs)
  {
  }

  // ---------------------------------------------------------------------------
  // validate_numeric_inputs
  // ---------------------------------------------------------------------------

  /** The numeric leaves of a metrics document that the check visits. An absent or
      empty `institutional_metrics` is an empty `concentration`. */
  datatype NumericInputs = NumericInputs(
    periodReturns: seq<(string, Option<real>)>,
    volatility: seq<(string, Option<real>)>,
    maxDrawdownPct: Option<real>,
    concentration: seq<(string, Option<real>)>)

  /** `path.endswith('_pct') or 'return' in path.lower()`. */
  predicate BoundedPath(path: string) { EndsWith(path, "_pct") || Contains(Lower(path), "return") }

  /** `check_value`: None passes; on a bounded path the magnitude must be at most 10. */
  predicate ValueOk(v: Option<real>, path: string) { v.None? || !BoundedPath(path) || Abs(v.value) <= 10.0 }

  predicate RatioOk(v: Option<real>) { v.None? || (0.0 <= v.value <= 1.0) }

  predicate SectionOk(items: seq<(string, Option<real>)>, prefix: string)
  {
    forall i :: 0 <= i < |items| ==> ValueOk(items[i].1, prefix + items[i].0)
  }

  predicate InputsOk(m: NumericInputs)
  {
    SectionOk(m.periodReturns, "returns.") && SectionOk(m.volatility, "volatility.") &&
    ValueOk(m.maxDrawdownPct, "drawdown.max_drawdown_pct") &&
    SectionOk(m.concentration, "concentration.") &&
    forall i :: 0 <= i < |m.concentration| ==> RatioOk(m.concentration[i].1)
  }

  method CheckSection(items: seq<(string, Option<real>)>, prefix: string, ratios: bool) returns (ok: bool)
    ensures ok <==> SectionOk(items, prefix) && (ratios ==> forall i :: 0 <= i < |items| ==> RatioOk(items[i].1))
  {
    var i := 0;
    while i < |items|
      invariant 0 <= i <= |items|
      invariant forall j :: 0 <= j < i ==> ValueOk(items[j].1, prefix + items[j].0)
      invariant ratios ==> forall j :: 0 <= j < i ==> RatioOk(items[j].1)
    {
      var (name, value) := items[i];
      if !ValueOk(value, prefix + name) {
        return false;
      }
      if ratios && !RatioOk(value) {
        return false;
      }
      i := i + 1;
    }
    return true;
  }

  method ValidateNumericInputs(m: NumericInputs) returns (r: Result<()>)
    ensures r.Ok? <==> InputsOk(m)
  {
    var ok := CheckSection(m.periodReturns, "returns.", false);
    if !ok { return Err("Unrealistic percentage in returns"); }
    ok := CheckSection(m.volatility, "volatility.", false);
    if !ok { return Err("Unrealistic percentage in volatility"); }
    if !ValueOk(m.maxDrawdownPct, "drawdown.max_drawdown_pct") {
      return Err("Unrealistic percentage in drawdown.max_drawdown_pct");
    }
    ok := CheckSection(m.concentration, "concentration.", true);
    if !ok { return Err("Concentration ratio out of bounds"); }
    return Ok(());
  }

  /** Every `returns.*` path contains "return", so every return value is bounded. */
  lemma ReturnPathsBounded(w: string)
    ensures BoundedPath("returns." + w)
  {
    var p := Lower("returns." + w);
    assert p[..6] == "return";
  }

  /** Accepted inputs have every return and the maximum drawdown within ±10, and
      every concentration value in [0, 1]. */
  lemma AcceptedInputsBounded(m: NumericInputs)
    requires InputsOk(m)
    ensures forall i :: 0 <= i < |m.periodReturns| && m.periodReturns[i].1.Some? ==> Abs(m.periodReturns[i].1.value) <= 10.0
    ensures m.maxDrawdownPct.Some? ==> Abs(m.maxDrawdownPct.value) <= 10.0
    ensures forall i :: 0 <= i < |m.concentration| && m.concentration[i].1.Some? ==>
      0.0 <= m.concentration[i].1.value <= 1.0
  {
    forall i | 0 <= i < |m.periodReturns| && m.periodReturns[i].1.Some?
      ensures Abs(m.periodReturns[i].1.value) <= 10.0
    {
      ReturnPathsBounded(m.periodReturns[i].0);
      assert ValueOk(m.periodReturns[i].1, "returns." + m.periodReturns[i].0);
    }
    var dd := "drawdown.max_drawdown_pct";
    assert dd[|dd| - 4..] == "_pct";
  }

  /** A document whose values are all missing passes. */
  lemma MissingValuesAccepted(m: NumericInputs)
    requires forall i :: 0 <= i < |m.periodReturns| ==> m.periodReturns[i].1.None?
    requires forall i :: 0 <= i < |m.volatility| ==> m.volatility[i].1.None?
    requires forall i :: 0 <= i < |m.concentration| ==> m.concentration[i].1.None?
    requires m.maxDrawdownPct.None?
    ensures InputsOk(m)
  {
  }

  // ---------------------------------------------------------------------------
  // validate_price_data_integrity
  // ---------------------------------------------------------------------------

  datatype PriceBar = PriceBar(date: string, open: real, high: real, low: real, close: real, volume: int)

  datatype IntegrityWarning =
    | LargeMove(date: string, change: real, previous: real, current: real)
    | ZeroVolume(dates: seq<string>)
    | PriceLogic(days: nat)

  /** Every close that is divided by is non-zero (otherwise Python raises
      ZeroDivisionError). */
  predicate DivisorsNonZero(bars: seq<PriceBar>)
  {
    forall i :: 0 <= i < |bars| - 1 ==> bars[i].close != 0.0
  }

  /** `abs(closes[i] / closes[i-1] - 1)`. */
  function DailyChange(bars: seq<PriceBar>, i: nat): real
    requires 1 <= i < |bars| && bars[i - 1].close != 0.0
  {
    Abs(bars[i].close / bars[i - 1].close - 1.0)
  }

  /** The large-move warnings for days 1 .. n-1, in day order. */
  function LargeMoves(bars: seq<PriceBar>, n: nat): (ws: seq<IntegrityWarning>)
    requires n <= |bars| && DivisorsNonZero(bars)
    ensures |ws| <= n
  {
    if n <= 1 then []
    else
      var i := n - 1;
      LargeMoves(bars, i) +
        (if DailyChange(bars, i) > 0.20
         then [LargeMove(bars[i].date, DailyChange(bars, i), bars[i - 1].close, bars[i].close)]
         else [])
  }

  /** The dates of zero-volume days, in order. */
  function ZeroVolumeDates(bars: seq<PriceBar>): seq<string>
  {
    if bars == [] then []
    else ZeroVolumeDates(bars[..|bars| - 1]) + (if bars[|bars| - 1].volume == 0 then [bars[|bars| - 1].date] else [])
  }

  /** A bar breaks the OHLC ordering. */
  predicate PriceLogicViolation(b: PriceBar)
  {
    b.high < b.low || b.high < b.open || b.high < b.close || b.low > b.open || b.low > b.close
  }

  function ViolationCount(bars: seq<PriceBar>): nat
  {
    if bars == [] then 0
    else ViolationCount(bars[..|bars| - 1]) + (if PriceLogicViolation(bars[|bars| - 1]) then 1 else 0)
  }

  /** The warnings of a frame whose divisions succeed: large moves, then one
      zero-volume warning, then one OHLC warning. */
  function IntegrityWarnings(bars: seq<PriceBar>): seq<IntegrityWarning>
    requires DivisorsNonZero(bars)
  {
    LargeMoves(bars, |bars|) +
    (if ZeroVolumeDates(bars) != [] then [ZeroVolume(ZeroVolumeDates(bars))] else []) +
    (if ViolationCount(bars) > 0 then [PriceLogic(ViolationCount(bars))] else [])
  }

  method ValidatePriceDataIntegrity(bars: seq<PriceBar>) returns (r: Result<seq<IntegrityWarning>>)
    ensures r.Err? <==> !DivisorsNonZero(bars)
    ensures r.Ok? ==> r.value == IntegrityWarnings(bars)
  {
    if bars == [] {
      return Ok([]);
    }
    var warnings: seq<IntegrityWarning> := [];
    if |bars| > 1 {
      var i := 1;
      while i < |bars|
        invariant 1 <= i <= |bars|
        invariant forall j :: 0 <= j < i - 1 ==> bars[j].close != 0.0
        invariant DivisorsNonZero(bars) ==> warnings == LargeMoves(bars, i)
      {
        if bars[i - 1].close == 0.0 {
          return Err("division by zero");
        }
        var dailyChange := Abs(bars[i].close / bars[i - 1].close - 1.0);
        if dailyChange > 0.20 {
          warnings := warnings + [LargeMove(bars[i].date, dailyChange, bars[i - 1].close, bars[i].close)];
        }
        i := i + 1;
      }
    }
    assert DivisorsNonZero(bars);
    var zeroDates := ZeroVolumeDates(bars);
    if zeroDates != [] {
      warnings := warnings + [ZeroVolume(zeroDates)];
    }
    var invalid := ViolationCount(bars);
    if invalid > 0 {
      warnings := warnings + [PriceLogic(invalid)];
    }
    return Ok(warnings);
  }

  /** One warning per day whose close moved by more than 20%, naming that day. */
  lemma {:induction false} LargeMovesPerDay(bars: seq<PriceBar>, n: nat)
    requires n <= |bars| && DivisorsNonZero(bars)
    ensures forall i :: 1 <= i < n && DailyChange(bars, i) > 0.20 ==>
      LargeMove(bars[i].date, DailyChange(bars, i), bars[i - 1].close, bars[i].close) in LargeMoves(bars, n)
    ensures forall w :: w in LargeMoves(bars, n) ==>
      exists i :: 1 <= i < n && DailyChange(bars, i) > 0.20 && w == LargeMove(bars[i].date, DailyChange(bars, i), bars[i - 1].close, bars[i].close)
  {
    forall i | 1 <= i < n && DailyChange(bars, i) > 0.20
      ensures LargeMove(bars[i].date, DailyChange(bars, i), bars[i - 1].close, bars[i].close) in LargeMoves(bars, n)
    {
      LargeMoveReported(bars, n, i);
    }
    forall w | w in LargeMoves(bars, n)
      ensures exists i :: 1 <= i < n && DailyChange(bars, i) > 0.20 && w == LargeMove(bars[i].date, DailyChange(bars, i), bars[i - 1].close, bars[i].close)
    {
      var i := LargeMoveDay(bars, n, w);
    }
  }

  lemma {:induction false} LargeMoveReported(bars: seq<PriceBar>, n: nat, i: nat)
    requires n <= |bars| && DivisorsNonZero(bars)
    requires 1 <= i < n && DailyChange(bars, i) > 0.20
    ensures LargeMove(bars[i].date, DailyChange(bars, i), bars[i - 1].close, bars[i].close) in LargeMoves(bars, n)
  {
    var w := LargeMove(bars[i].date, DailyChange(bars, i), bars[i - 1].close, bars[i].close);
    if i < n - 1 {
      LargeMoveReported(bars, n - 1, i);
      assert LargeMoves(bars, n) == LargeMoves(bars, n - 1) + (if DailyChange(bars, n - 1) > 0.20
         then [LargeMove(bars[n - 1].date, DailyChange(bars, n - 1), bars[n - 2].close, bars[n - 1].close)]
         else []);
    } else {
      assert LargeMoves(bars, n) == LargeMoves(bars, i) + [w];
    }
  }

  lemma {:induction false} LargeMoveDay(bars: seq<PriceBar>, n: nat, w: IntegrityWarning) returns (i: nat)
    requires n <= |bars| && DivisorsNonZero(bars) && w in LargeMoves(bars, n)
    ensures 1 <= i < n && DailyChange(bars, i) > 0.20
    ensures w == LargeMove(bars[i].date, DailyChange(bars, i), bars[i - 1].close, bars[i].close)
  {
    var j := n - 1;
    if DailyChange(bars, j) > 0.20 && w == LargeMove(bars[j].date, DailyChange(bars, j), bars[j - 1].close, bars[j].close) {
      i := j;
    } else {
      assert w in LargeMoves(bars, j);
      i := LargeMoveDay(bars, j, w);
    }
  }

  lemma {:induction false} NoLargeMoves(bars: seq<PriceBar>, n: nat)
    requires n <= |bars| && DivisorsNonZero(bars)
    ensures LargeMoves(bars, n) == [] <==> forall i :: 1 <= i < n ==> DailyChange(bars, i) <= 0.20
  {
    LargeMovesPerDay(bars, n);
    if LargeMoves(bars, n) != [] {
      assert LargeMoves(bars, n)[0] in LargeMoves(bars, n);
    }
  }

  lemma {:induction false} ZeroVolumeDatesEmpty(bars: seq<PriceBar>)
    ensures ZeroVolumeDates(bars) == [] <==> forall i :: 0 <= i < |bars| ==> bars[i].volume != 0
  {
    if bars != [] {
      ZeroVolumeDatesEmpty(bars[..|bars| - 1]);
    }
  }

  lemma {:induction false} ViolationCountZero(bars: seq<PriceBar>)
    ensures ViolationCount(bars) == 0 <==> forall i :: 0 <= i < |bars| ==> !PriceLogicViolation(bars[i])
  {
    if bars != [] {
      ViolationCountZero(bars[..|bars| - 1]);
    }
  }

  /** A frame yields no warning exactly when no daily move exceeds 20%, every day
      traded, and every bar respects the OHLC ordering. */
  lemma CleanFrameHasNoWarnings(bars: seq<PriceBar>)
    requires DivisorsNonZero(bars)
    ensures IntegrityWarnings(bars) == [] <==>
      (forall i :: 1 <= i < |bars| ==> DailyChange(bars, i) <= 0.20) &&
      (forall i :: 0 <= i < |bars| ==> bars[i].volume != 0) &&
      (forall i :: 0 <= i < |bars| ==> !PriceLogicViolation(bars[i]))
  {
    NoLargeMoves(bars, |bars|);
    ZeroVolumeDatesEmpty(bars);
    ViolationCountZero(bars);
  }

  // ---------------------------------------------------------------------------
  // _generate_recommendations
  // ---------------------------------------------------------------------------

  /** The six recommendations, declared in the order the source appends them. */
  datatype Advice = QuarterHistory | YearHistory | Collect13F | Limited13F | ShortTerm | SufficientHistory

  /** The text of each recommendation. */
  function Message(a: Advice): string
  {
    match a
    case QuarterHistory => "Collect more historical price data (target: 3+ months) for better volatility analysis"
    case YearHistory => "Collect more historical price data (target: 1+ year) for annual metrics"
    case Collect13F => "Collect 13F holdings data to analyze institutional ownership patterns"
    case Limited13F => "Limited institutional data found. Consider checking if ticker has significant institutional ownership"
    case ShortTerm => "Focus on shorter-term metrics (1D, 1W, 1M) until more data is available"
    case SufficientHistory => "Sufficient data for comprehensive analysis including annual volatility and drawdown metrics"
  }

  /** The position of a recommendation in the order the source appends them. */
  function Rank(a: Advice): nat
  {
    match a
    case QuarterHistory => 0
    case YearHistory => 1
    case Collect13F => 2
    case Limited13F => 3
    case ShortTerm => 4
    case SufficientHistory => 5
  }

  /** The advice is in the source's order and every piece of it ranks in [lo, hi). */
  predicate RanksWithin(recs: seq<Advice>, lo: nat, hi: nat)
  {
    && (forall i, j :: 0 <= i < j < |recs| ==> Rank(recs[i]) < Rank(recs[j]))
    && (forall k :: 0 <= k < |recs| ==> lo <= Rank(recs[k]) < hi)
  }

  /** Two runs in order, the first ranking below the second, make one run in order. */
  lemma RanksJoin(a: seq<Advice>, b: seq<Advice>, lo: nat, mid: nat, hi: nat)
    requires lo <= mid <= hi && RanksWithin(a, lo, mid) && RanksWithin(b, mid, hi)
    ensures RanksWithin(a + b, lo, hi)
  {
    var ab := a + b;
    forall k | 0 <= k < |ab|
      ensures lo <= Rank(ab[k]) < hi
    {
      if k >= |a| {
        assert ab[k] == b[k - |a|];
      }
    }
    forall i, j | 0 <= i < j < |ab|
      ensures Rank(ab[i]) < Rank(ab[j])
    {
      if j < |a| {
      } else if i < |a| {
        assert ab[j] == b[j - |a|];
      } else {
        assert ab[i] == b[i - |a|] && ab[j] == b[j - |a|];
      }
    }
  }

  /** The price-history part of `_generate_recommendations`. */
  method HistoryAdvice(tradingDays: nat) returns (recs: seq<Advice>)
    ensures QuarterHistory in recs <==> tradingDays < 63
    ensures YearHistory in recs <==> tradingDays < 252
    ensures RanksWithin(recs, 0, 2) && |recs| <= 2
  {
    recs := [];
    if tradingDays < 63 {
      recs := recs + [QuarterHistory];
    }
    if tradingDays < 252 {
      recs := recs + [YearHistory];
    }
  }

  /** The 13F part of `_generate_recommendations`. */
  method HoldingsAdvice(holdingsRows: Option<nat>) returns (recs: seq<Advice>)
    ensures Collect13F in recs <==> holdingsRows.None? || holdingsRows == Some(0)
    ensures Limited13F in recs <==> holdingsRows.Some? && 0 < holdingsRows.value < 5
    ensures RanksWithin(recs, 2, 4) && |recs| <= 1
  {
    recs := [];
    if holdingsRows.None? || holdingsRows.value == 0 {
      recs := recs + [Collect13F];
    } else if holdingsRows.value < 5 {
      recs := recs + [Limited13F];
    }
  }

  /** The window part of `_generate_recommendations`. */
  method WindowAdvice(tradingDays: nat, available: seq<string>) returns (recs: seq<Advice>)
    ensures ShortTerm in recs <==> "1Y" !in available
    ensures SufficientHistory in recs <==> tradingDays >= 252 && "1Y" in available
    ensures RanksWithin(recs, 4, 6) && |recs| <= 2
  {
    recs := [];
    if "1Y" !in available {
      recs := recs + [ShortTerm];
    }
    if tradingDays >= 252 && "1Y" in available {
      recs := recs + [SufficientHistory];
    }
  }

  /** `_generate_recommendations`: `holdingsRows` is None when there is no holdings frame, else
      its row count; the recommendations are returned as `Advice` whose `Message` is the
      source's text. Each appears exactly under its condition, in the source's order. */
  method GenerateRecommendations(tradingDays: nat, holdingsRows: Option<nat>, available: seq<string>)
    returns (recs: seq<Advice>)
    ensures QuarterHistory in recs <==> tradingDays < 63
    ensures YearHistory in recs <==> tradingDays < 252
    ensures Collect13F in recs <==> holdingsRows.None? || holdingsRows == Some(0)
    ensures Limited13F in recs <==> holdingsRows.Some? && 0 < holdingsRows.value < 5
    ensures ShortTerm in recs <==> "1Y" !in available
    ensures SufficientHistory in recs <==> tradingDays >= 252 && "1Y" in available
    ensures |recs| <= 5
    ensures forall i, j :: 0 <= i < j < |recs| ==> Rank(recs[i]) < Rank(recs[j])
  {
    var history := HistoryAdvice(tradingDays);
    var holdings := HoldingsAdvice(holdingsRows);
    var window := WindowAdvice(tradingDays, available);
    RanksJoin(history, holdings, 0, 2, 4);
    RanksJoin(history + holdings, window, 0, 4, 6);
    recs := history + holdings + window;
  }

  /** With the windows of `ValidateSufficientData`, the "sufficient data" advice
      needs 253 days (the 1Y table entry), not the 252 of its own test, and it never
      appears beside the advice to focus on short windows. */
  lemma OneYearAvailability(days: nat, requested: seq<string>)
    ensures "1Y" in AvailableOf(days, requested) <==> "1Y" in requested && days >= 253
    ensures (days >= 252 && "1Y" in AvailableOf(days, requested)) <==> "1Y" in requested && days >= 253
  {
    SplitPartitions(days, requested);
  }
}
