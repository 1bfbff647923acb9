// Row validators for canonical ingestion rows (ingestion/transforms/validators.py).
// A row is a dictionary from column name to a dynamically typed value; each
// validator runs its checks in the source's order and stops at the first
// failure, which becomes `Err`. The monotonicity check groups dates by ticker.
module Validators {
  import opened Wrappers
  import opened Dates
  import Guardrails

  /** A dynamically typed cell of a row. `VBool` is numeric and integral, as Python's
      `bool` is a subclass of `int`; `VDateTime` is a date, as `datetime` subclasses `date`. */
  datatype Value =
    | VNone
    | VBool(b: bool)
    | VInt(i: int)
    | VFloat(f: real)
    | VNaN
    | VInf(positive: bool)
    | VStr(s: string)
    | VDate(d: Date)
    | VDateTime(t: DateTime)
    | VOther

  type Row = map<string, Value>

  /** `isinstance(v, (int, float))`. */
  predicate IsNumeric(v: Value) { v.VBool? || v.VInt? || v.VFloat? || v.VNaN? || v.VInf? }

  /** `math.isfinite(v)` for a numeric `v`. */
  predicate IsFinite(v: Value) { v.VBool? || v.VInt? || v.VFloat? }

  /** `isinstance(v, int)`. */
  predicate IsInteger(v: Value) { v.VBool? || v.VInt? }

  /** `isinstance(v, date)`. */
  predicate IsDate(v: Value) { v.VDate? || v.VDateTime? }

  /** The real number held by a finite numeric value. */
  function Num(v: Value): real
    requires IsFinite(v)
  {
    match v
    case VBool(b) => if b then 1.0 else 0.0
    case VInt(i) => i as real
    case VFloat(f) => f
  }

  const PriceKeys: set<string> := {"ticker", "date", "open", "high", "low", "close", "volume", "source", "as_of", "ingested_at"}
  const HoldingKeys: set<string> := {"cik", "filer", "ticker", "name", "cusip", "value_usd", "shares", "as_of", "source", "ingested_at"}

  const MissingKeys := "missing required keys"

  // ---------------------------------------------------------------------------
  // validate_prices_row

  /** The numeric checks shared by the price fields: numeric, finite, positive. */
  function CheckPositive(field: string, v: Value): (r: Result<()>)
    ensures r.Ok? <==> IsFinite(v) && Num(v) > 0.0
  {
    if !IsNumeric(v) then Err(field + " must be numeric")
    else if !IsFinite(v) then Err(field + " must be finite")
    else if Num(v) <= 0.0 then Err(field + " must be positive")
    else Ok(())
  }

  /** The price fields, checked in this order. */
  function CheckPrices(row: Row, fields: seq<string>): (r: Result<()>)
    requires forall i :: 0 <= i < |fields| ==> fields[i] in row
    ensures r.Ok? <==> forall i :: 0 <= i < |fields| ==> IsFinite(row[fields[i]]) && Num(row[fields[i]]) > 0.0
  {
    if fields == [] then Ok(())
    else
      var head := CheckPositive(fields[0], row[fields[0]]);
      if head.Err? then head else CheckPrices(row, fields[1..])
  }

  /** The five orderings of a bar, in the source's order. */
  function CheckOhlc(open: real, high: real, low: real, close: real): (r: Result<()>)
    ensures r.Ok? <==> low <= high && open <= high && close <= high && low <= open && low <= close
  {
    if high < low then Err("high must be >= low")
    else if high < open then Err("high must be >= open")
    else if high < close then Err("high must be >= close")
    else if low > open then Err("low must be <= open")
    else if low > close then Err("low must be <= close")
    else Ok(())
  }

  /** Every condition a canonical price row must meet, in no particular order. */
  predicate ValidPriceRow(row: Row)
  {
    && PriceKeys <= row.Keys
    && row["ticker"].VStr? && row["source"].VStr?
    && IsDate(row["date"]) && IsDate(row["as_of"]) && row["ingested_at"].VDateTime?
    && IsFinite(row["open"]) && IsFinite(row["high"]) && IsFinite(row["low"]) && IsFinite(row["close"])
    && Num(row["open"]) > 0.0 && Num(row["high"]) > 0.0 && Num(row["low"]) > 0.0 && Num(row["close"]) > 0.0
    && ("adj_close" in row && row["adj_close"] != VNone ==> IsFinite(row["adj_close"]) && Num(row["adj_close"]) > 0.0)
    && IsInteger(row["volume"]) && Num(row["volume"]) >= 0.0
    && Num(row["low"]) <= Num(row["high"])
    && Num(row["open"]) <= Num(row["high"]) && Num(row["close"]) <= Num(row["high"])
    && Num(row["low"]) <= Num(row["open"]) && Num(row["low"]) <= Num(row["close"])
  }

  /** Checking the four price fields in order accepts exactly when each is finite and
      positive. */
  lemma PricesChecked(row: Row)
    requires "open" in row && "high" in row && "low" in row && "close" in row
    ensures CheckPrices(row, ["open", "high", "low", "close"]).Ok? <==>
      IsFinite(row["open"]) && IsFinite(row["high"]) && IsFinite(row["low"]) && IsFinite(row["close"]) &&
      Num(row["open"]) > 0.0 && Num(row["high"]) > 0.0 && Num(row["low"]) > 0.0 && Num(row["close"]) > 0.0
  {
    var fs := ["open", "high", "low", "close"];
    assert fs[0] == "open" && fs[1] == "high" && fs[2] == "low" && fs[3] == "close";
  }

  function ValidatePricesRow(row: Row): (r: Result<()>)
    ensures r.Ok? <==> ValidPriceRow(row)
    ensures !(PriceKeys <= row.Keys) ==> r == Err(MissingKeys)
  {
    if !(PriceKeys <= row.Keys) then Err(MissingKeys)
    else if !row["ticker"].VStr? then Err("ticker must be string")
    else if !IsDate(row["date"]) then Err("date must be date")
    else if !IsDate(row["as_of"]) then Err("as_of must be date")
    else if !row["ingested_at"].VDateTime? then Err("ingested_at must be datetime")
    else if !row["source"].VStr? then Err("source must be string")
    else
      var prices := CheckPrices(row, ["open", "high", "low", "close"]);
      PricesChecked(row);
      if prices.Err? then prices
      else if "adj_close" in row && row["adj_close"] != VNone && CheckPositive("adj_close", row["adj_close"]).Err? then
        CheckPositive("adj_close", row["adj_close"])
      else if !IsInteger(row["volume"]) then Err("volume must be integer")
      else if Num(row["volume"]) < 0.0 then Err("volume must be non-negative")
      else
        CheckOhlc(Num(row["open"]), Num(row["high"]), Num(row["low"]), Num(row["close"]))
  }

  /** A row the validator accepts is a bar the integrity guardrail never flags. */
  lemma ValidRowIsConsistentBar(row: Row, day: string)
    requires ValidatePricesRow(row).Ok?
    ensures ValidPriceRow(row)
    ensures !Guardrails.PriceLogicViolation(Guardrails.PriceBar(day, Num(row["open"]), Num(row["high"]),
                                                             Num(row["low"]), Num(row["close"]), 0))
  {
  }

  // ---------------------------------------------------------------------------
  // validate_13f_row

  /** `field` holds a string, for each field in order. */
  function CheckStrings(row: Row, fields: seq<string>): (r: Result<()>)
    requires forall i :: 0 <= i < |fields| ==> fields[i] in row
    ensures r.Ok? <==> forall i :: 0 <= i < |fields| ==> row[fields[i]].VStr?
  {
    if fields == [] then Ok(())
    else if !row[fields[0]].VStr? then Err(fields[0] + " must be string")
    else CheckStrings(row, fields[1..])
  }

  /** The numeric checks of a holding: numeric, finite, non-negative. */
  function CheckNonNegative(field: string, v: Value): (r: Result<()>)
    ensures r.Ok? <==> IsFinite(v) && Num(v) >= 0.0
  {
    if !IsNumeric(v) then Err(field + " must be numeric")
    else if !IsFinite(v) then Err(field + " must be finite")
    else if Num(v) < 0.0 then Err(field + " must be non-negative")
    else Ok(())
  }

  predicate ValidHoldingRow(row: Row)
  {
    && HoldingKeys <= row.Keys
    && row["cik"].VStr? && row["filer"].VStr? && row["ticker"].VStr?
    && row["name"].VStr? && row["cusip"].VStr? && row["source"].VStr?
    && |row["cusip"].s| == 9
    && IsDate(row["as_of"]) && row["ingested_at"].VDateTime?
    && IsFinite(row["value_usd"]) && Num(row["value_usd"]) >= 0.0
    && IsFinite(row["shares"]) && Num(row["shares"]) >= 0.0
  }

  function Validate13FRow(row: Row): (r: Result<()>)
    ensures r.Ok? <==> ValidHoldingRow(row)
    ensures !(HoldingKeys <= row.Keys) ==> r == Err(MissingKeys)
  {
    if !(HoldingKeys <= row.Keys) then Err(MissingKeys)
    else
      var fields := ["cik", "filer", "ticker", "name", "cusip", "source"];
      var strings := CheckStrings(row, fields);
      if strings.Err? then strings
      else
        assert row["cik"].VStr? && row["filer"].VStr? && row["ticker"].VStr? && row["name"].VStr?
            && row["cusip"].VStr? && row["source"].VStr? by {
          assert fields[0] == "cik" && fields[1] == "filer" && fields[2] == "ticker";
          assert fields[3] == "name" && fields[4] == "cusip" && fields[5] == "source";
        }
        if |row["cusip"].s| != 9 then Err("cusip must be 9 characters")
        else if !IsDate(row["as_of"]) then Err("as_of must be date")
        else if !row["ingested_at"].VDateTime? then Err("ingested_at must be datetime")
        else
          var value := CheckNonNegative("value_usd", row["value_usd"]);
          if value.Err? then value else CheckNonNegative("shares", row["shares"])
  }

  // ---------------------------------------------------------------------------
  // check_price_date_monotonicity

  /** The two fields the check reads: `row.get('ticker')` and the row's date. */
  datatype DatedRow = DatedRow(ticker: Option<string>, date: Date)

  const DuplicateDate := "duplicate date"
  const NotMonotonic := "dates not monotonic"

  /** The dates of one ticker, in row order. */
  function Group(rows: seq<DatedRow>, t: Option<string>): (g: seq<Date>)
    ensures |g| <= |rows|
  {
    if rows == [] then []
    else if rows[|rows| - 1].ticker == t then Group(rows[..|rows| - 1], t) + [rows[|rows| - 1].date]
    else Group(rows[..|rows| - 1], t)
  }

  predicate Increasing(ds: seq<Date>)
  {
    forall k :: 0 < k < |ds| ==> Before(ds[k - 1], ds[k])
  }

  predicate HasDuplicate(ds: seq<Date>)
  {
    exists a, b :: 0 <= a < b < |ds| && ds[a] == ds[b]
  }

  /** Every ticker's dates are strictly increasing. */
  ghost predicate AllIncreasing(rows: seq<DatedRow>)
  {
    forall t :: Increasing(Group(rows, t))
  }

  /** The reading of the check over the rows themselves: any two rows of one ticker are in date order. */
  predicate PairwiseOrdered(rows: seq<DatedRow>)
  {
    forall i, j :: 0 <= i < j < |rows| && rows[i].ticker == rows[j].ticker ==> Before(rows[i].date, rows[j].date)
  }

  method CheckPriceDateMonotonicity(rows: seq<DatedRow>) returns (r: Result<()>)
    ensures r.Ok? <==> AllIncreasing(rows)
    ensures r == Err(DuplicateDate) ==> exists t :: HasDuplicate(Group(rows, t))
    ensures r.Err? ==> r == Err(DuplicateDate) || r == Err(NotMonotonic)
  {
    if rows == [] {
      return Ok(());
    }
    var groups: map<Option<string>, seq<Date>> := map[];
    var order: seq<Option<string>> := [];
    var n := 0;
    while n < |rows|
      invariant n <= |rows|
      invariant forall t :: t in groups <==> t in order
      invariant forall t :: t in groups ==> groups[t] == Group(rows[..n], t)
      invariant forall t :: t !in groups ==> Group(rows[..n], t) == []
    {
      var t := rows[n].ticker;
      assert rows[..n + 1][..n] == rows[..n];
      if t !in groups {
        order := order + [t];
        groups := groups[t := []];
      }
      groups := groups[t := groups[t] + [rows[n].date]];
      n := n + 1;
    }
    assert rows[..n] == rows;
    var k := 0;
    while k < |order|
      invariant k <= |order|
      invariant forall j :: 0 <= j < k ==> Increasing(Group(rows, order[j]))
    {
      var ds := groups[order[k]];
      if |ds| > 1 {
        if exists a, b | 0 <= a < b < |ds| :: ds[a] == ds[b] {
          if Increasing(ds) {
            IncreasingHasNoDuplicate(ds);
          }
          return Err(DuplicateDate);
        }
        var i := 1;
        while i < |ds|
          invariant 1 <= i <= |ds|
          invariant forall m :: 0 < m < i ==> Before(ds[m - 1], ds[m])
        {
          if !Before(ds[i - 1], ds[i]) {
            assert !Increasing(Group(rows, order[k]));
            return Err(NotMonotonic);
          }
          i := i + 1;
        }
      }
      k := k + 1;
    }
    forall t ensures Increasing(Group(rows, t)) {
      if t in groups {
        var j :| 0 <= j < |order| && order[j] == t;
      }
    }
    return Ok(());
  }

  /** In a strictly increasing sequence every earlier date is before every later one. */
  lemma {:induction false} IncreasingPairs(ds: seq<Date>, a: nat, b: nat)
    requires Increasing(ds) && a < b < |ds|
    ensures Before(ds[a], ds[b])
    decreases b - a
  {
    if a + 1 < b {
      IncreasingPairs(ds, a + 1, b);
      BeforeTransitive(ds[a], ds[a + 1], ds[b]);
    }
  }

  lemma IncreasingHasNoDuplicate(ds: seq<Date>)
    requires Increasing(ds)
    ensures !HasDuplicate(ds)
  {
    forall a, b | 0 <= a < b < |ds| ensures ds[a] != ds[b] {
      IncreasingPairs(ds, a, b);
    }
  }

  lemma IncreasingSnoc(g0: seq<Date>, d: Date)
    ensures Increasing(g0 + [d]) <==> Increasing(g0) && (g0 != [] ==> Before(g0[|g0| - 1], d))
  {
    var g := g0 + [d];
    if Increasing(g) {
      forall k | 0 < k < |g0| ensures Before(g0[k - 1], g0[k]) {
        assert g[k - 1] == g0[k - 1] && g[k] == g0[k];
      }
      if g0 != [] {
        assert g[|g0| - 1] == g0[|g0| - 1] && g[|g0|] == d;
      }
    }
    if Increasing(g0) && (g0 != [] ==> Before(g0[|g0| - 1], d)) {
      forall k | 0 < k < |g| ensures Before(g[k - 1], g[k]) {
        if k < |g0| {
          assert g[k - 1] == g0[k - 1] && g[k] == g0[k];
        } else {
          assert g[k - 1] == g0[|g0| - 1] && g[k] == d;
        }
      }
    }
  }

  /** Row `i` of ticker `t` contributes its date to the group, at or before the group's end. */
  lemma {:induction false} RowInGroup(rows: seq<DatedRow>, i: nat)
    requires i < |rows|
    ensures var g := Group(rows, rows[i].ticker);
      g != [] && (rows[i].date == g[|g| - 1] || (Increasing(g) ==> Before(rows[i].date, g[|g| - 1])))
    decreases |rows|
  {
    var t := rows[i].ticker;
    var init := rows[..|rows| - 1];
    if i < |rows| - 1 {
      assert init[i] == rows[i];
      RowInGroup(init, i);
      var g0 := Group(init, t);
      var g := Group(rows, t);
      if rows[|rows| - 1].ticker == t {
        IncreasingSnoc(g0, rows[|rows| - 1].date);
        if Increasing(g) && rows[i].date != g0[|g0| - 1] {
          BeforeTransitive(rows[i].date, g0[|g0| - 1], g[|g| - 1]);
        }
      }
    }
  }

  /** The group's last date comes from a row of that ticker. */
  lemma {:induction false} GroupLastFromRow(rows: seq<DatedRow>, t: Option<string>) returns (j: nat)
    requires Group(rows, t) != []
    ensures j < |rows| && rows[j].ticker == t && rows[j].date == Group(rows, t)[|Group(rows, t)| - 1]
    decreases |rows|
  {
    if rows[|rows| - 1].ticker == t {
      j := |rows| - 1;
    } else {
      j := GroupLastFromRow(rows[..|rows| - 1], t);
    }
  }

  /** Every earlier row of `x`'s ticker is dated before `x`. */
  predicate BeforeAll(rows: seq<DatedRow>, x: DatedRow)
  {
    forall i :: 0 <= i < |rows| && rows[i].ticker == x.ticker ==> Before(rows[i].date, x.date)
  }

  lemma AllIncreasingStep(init: seq<DatedRow>, x: DatedRow)
    ensures AllIncreasing(init + [x]) <==> AllIncreasing(init) && BeforeAll(init, x)
  {
    var rows := init + [x];
    assert rows[..|rows| - 1] == init;
    assert forall t :: t != x.ticker ==> Group(rows, t) == Group(init, t);
    var g0 := Group(init, x.ticker);
    IncreasingSnoc(g0, x.date);
    if AllIncreasing(rows) {
      assert Increasing(Group(rows, x.ticker));
      forall i | 0 <= i < |init| && init[i].ticker == x.ticker
        ensures Before(init[i].date, x.date)
      {
        RowInGroup(init, i);
        if init[i].date != g0[|g0| - 1] {
          BeforeTransitive(init[i].date, g0[|g0| - 1], x.date);
        }
      }
    }
    if AllIncreasing(init) && BeforeAll(init, x) && g0 != [] {
      var j := GroupLastFromRow(init, x.ticker);
    }
  }

  lemma PairwiseStep(init: seq<DatedRow>, x: DatedRow)
    ensures PairwiseOrdered(init + [x]) <==> PairwiseOrdered(init) && BeforeAll(init, x)
  {
    var rows := init + [x];
    if PairwiseOrdered(rows) {
      forall i | 0 <= i < |init| && init[i].ticker == x.ticker ensures Before(init[i].date, x.date) {
        assert rows[i] == init[i] && rows[|init|] == x;
      }
      forall i, j | 0 <= i < j < |init| && init[i].ticker == init[j].ticker ensures Before(init[i].date, init[j].date) {
        assert rows[i] == init[i] && rows[j] == init[j];
      }
    }
    if PairwiseOrdered(init) && BeforeAll(init, x) {
      forall i, j | 0 <= i < j < |rows| && rows[i].ticker == rows[j].ticker ensures Before(rows[i].date, rows[j].date) {
        assert rows[i] == init[i];
        if j < |init| {
          assert rows[j] == init[j];
        }
      }
    }
  }

  /** The per-ticker check and the pairwise reading agree on every input. */
  lemma {:induction false} AllIncreasingIffPairwise(rows: seq<DatedRow>)
    ensures AllIncreasing(rows) <==> PairwiseOrdered(rows)
    decreases |rows|
  {
    if rows != [] {
      var init := rows[..|rows| - 1];
      AllIncreasingIffPairwise(init);
      assert rows == init + [rows[|rows| - 1]];
      AllIncreasingStep(init, rows[|rows| - 1]);
      PairwiseStep(init, rows[|rows| - 1]);
    }
  }
}
