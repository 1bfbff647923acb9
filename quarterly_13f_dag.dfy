// The quarterly 13F pipeline (pipeline/quarterly_13f_dag.py): the configuration
// checks made when a run is set up, and the summary metrics computed over the
// validated holdings. The run itself (fetch, store, run registry, clock) talks to
// SQLite and the SEC and is not part of this model.
module Quarterly13FDag {
  import opened Wrappers
  import opened Dates
  import opened Numerics
  import Normalizers
  import Sec13FAdapter

  type Holding = Normalizers.CanonicalHolding

  datatype Config = Config(quarterEnd: Date, entityName: Option<string>, cik: Option<string>)

  const NeitherGiven := "Must provide either entity_name or cik"
  const BothGiven := "Provide either entity_name or cik, not both"
  const InvalidQuarterEnd := "Invalid quarter end date"

  /** `Quarterly13FConfig(...)` and its `__post_init__`: exactly one of the entity name and the
      CIK (an empty string counts as absent), and a quarter-end day. */
  function MakeConfig(quarterEnd: Date, entityName: Option<string>, cik: Option<string>): (r: Result<Config>)
    ensures r.Ok? <==> Sec13FAdapter.Given(entityName) != Sec13FAdapter.Given(cik) && Sec13FAdapter.IsQuarterEnd(quarterEnd)
    ensures r.Ok? ==> r.value == Config(quarterEnd, entityName, cik)
    ensures !Sec13FAdapter.Given(entityName) && !Sec13FAdapter.Given(cik) ==> r == Err(NeitherGiven)
    ensures Sec13FAdapter.Given(entityName) && Sec13FAdapter.Given(cik) ==> r == Err(BothGiven)
  {
    if !Sec13FAdapter.Given(entityName) && !Sec13FAdapter.Given(cik) then Err(NeitherGiven)
    else if Sec13FAdapter.Given(entityName) && Sec13FAdapter.Given(cik) then Err(BothGiven)
    else if !Sec13FAdapter.IsQuarterEnd(quarterEnd) then Err(InvalidQuarterEnd)
    else Ok(Config(quarterEnd, entityName, cik))
  }

  /** Every argument set the provider accepts also makes a valid configuration. */
  lemma FetchableInputsConfigure(q: Date, entityName: Option<string>, cik: Option<string>, today: Date)
    requires Sec13FAdapter.CheckFetchInputs(q, entityName, cik, today).Ok?
    ensures MakeConfig(q, entityName, cik) == Ok(Config(q, entityName, cik))
  {
    assert Sec13FAdapter.ValidateQuarterEnd(q, today).Ok?;
  }

  // ---------------------------------------------------------------------------
  // Summary metrics

  datatype Position = Position(ticker: string, name: string, valueUsd: real, shares: real, pctOfPortfolio: real)
  datatype TickerShare = TickerShare(ticker: string, valueUsd: real, pctOfPortfolio: real)

  /** `_calculate_13f_metrics`: `NoMetrics` is the empty dictionary returned for no rows. */
  datatype Metrics =
    | NoMetrics
    | Metrics(totalPositions: nat, totalValueUsd: real, avgPositionValueUsd: real, largest: Position,
              top5Tickers: seq<TickerShare>, top10ConcentrationPct: real)

  /** `value / total * 100 if total > 0 else 0`. */
  function Pct(value: real, total: real): (p: real)
    ensures total <= 0.0 ==> p == 0.0
    ensures total > 0.0 && 0.0 <= value <= total ==> 0.0 <= p <= 100.0
  {
    if total > 0.0 then
      RatioAtMostOne(value, total);
      value / total * 100.0
    else 0.0
  }

  lemma RatioAtMostOne(value: real, total: real)
    requires total > 0.0
    ensures 0.0 <= value <= total ==> 0.0 <= value / total <= 1.0
  {
  }

  function ValuesOf(rows: seq<Holding>): (vs: seq<real>)
    ensures |vs| == |rows| && forall i :: 0 <= i < |rows| ==> vs[i] == rows[i].valueUsd
  {
    seq(|rows|, i requires 0 <= i < |rows| => rows[i].valueUsd)
  }

  /** `sum(row['value_usd'] for row in rows)`. */
  function TotalValue(rows: seq<Holding>): real { Sum(ValuesOf(rows)) }

  /** The index `max(rows, key=value_usd)` picks: the first of the largest values. */
  function FirstMaxIndex(vs: seq<real>): (k: nat)
    requires vs != []
    ensures k < |vs|
    ensures forall j :: 0 <= j < |vs| ==> vs[j] <= vs[k]
    ensures forall j :: 0 <= j < k ==> vs[j] < vs[k]
    decreases |vs|
  {
    if |vs| == 1 then 0
    else
      var k := FirstMaxIndex(vs[..|vs| - 1]);
      if vs[|vs| - 1] > vs[k] then |vs| - 1 else k
  }

  // Grouping by ticker: the dictionary `ticker_values`, keys in first-seen order.

  /** The distinct tickers of `rows`, in the order they first appear. */
  function Tickers(rows: seq<Holding>): (ts: seq<string>)
    ensures forall t :: t in ts <==> exists i :: 0 <= i < |rows| && rows[i].ticker == t
    decreases |rows|
  {
    if rows == [] then []
    else
      var ts := Tickers(rows[..|rows| - 1]);
      var t := rows[|rows| - 1].ticker;
      if t in ts then ts else ts + [t]
  }

  predicate Distinct(ts: seq<string>)
  {
    forall i, j :: 0 <= i < j < |ts| ==> ts[i] != ts[j]
  }

  lemma {:induction false} TickersDistinct(rows: seq<Holding>)
    ensures Distinct(Tickers(rows))
    decreases |rows|
  {
    if rows != [] {
      TickersDistinct(rows[..|rows| - 1]);
    }
  }

  /** The value summed for ticker `t`. */
  function TickerTotal(rows: seq<Holding>, t: string): real
    decreases |rows|
  {
    if rows == [] then 0.0
    else TickerTotal(rows[..|rows| - 1], t) + (if rows[|rows| - 1].ticker == t then rows[|rows| - 1].valueUsd else 0.0)
  }

  /** `ticker_values.items()`. */
  function Grouped(rows: seq<Holding>): (ps: seq<(string, real)>)
    ensures |ps| == |Tickers(rows)|
  {
    var ts := Tickers(rows);
    seq(|ts|, i requires 0 <= i < |ts| => (ts[i], TickerTotal(rows, ts[i])))
  }

  lemma {:induction false} TickerTotalAbsent(rows: seq<Holding>, t: string)
    requires t !in Tickers(rows)
    ensures TickerTotal(rows, t) == 0.0
    decreases |rows|
  {
    if rows != [] {
      TickerTotalAbsent(rows[..|rows| - 1], t);
    }
  }

  lemma {:induction false} TickerTotalNonNegative(rows: seq<Holding>, t: string)
    requires AllNonNegative(ValuesOf(rows))
    ensures TickerTotal(rows, t) >= 0.0
    decreases |rows|
  {
    if rows != [] {
      var init := rows[..|rows| - 1];
      assert ValuesOf(init) == ValuesOf(rows)[..|rows| - 1];
      TickerTotalNonNegative(init, t);
    }
  }

  /** The grouping loop of `_calculate_13f_metrics`. */
  method GroupByTicker(rows: seq<Holding>) returns (items: seq<(string, real)>)
    ensures items == Grouped(rows)
  {
    var order: seq<string> := [];
    var tickerValues: map<string, real> := map[];
    var i := 0;
    while i < |rows|
      invariant i <= |rows|
      invariant order == Tickers(rows[..i])
      invariant forall t :: t in tickerValues <==> t in order
      invariant forall t :: t in tickerValues ==> tickerValues[t] == TickerTotal(rows[..i], t)
    {
      assert rows[..i + 1][..i] == rows[..i];
      var row := rows[i];
      if row.ticker in tickerValues {
        tickerValues := tickerValues[row.ticker := tickerValues[row.ticker] + row.valueUsd];
      } else {
        TickerTotalAbsent(rows[..i], row.ticker);
        tickerValues := tickerValues[row.ticker := row.valueUsd];
        order := order + [row.ticker];
      }
      i := i + 1;
    }
    assert rows[..i] == rows;
    items := seq(|order|, k requires 0 <= k < |order| => (order[k], tickerValues[order[k]]));
  }

  // Sum of a list of (ticker, value) pairs, and the descending sort.

  function PairSum(ps: seq<(string, real)>): real
    decreases |ps|
  {
    if ps == [] then 0.0 else ps[0].1 + PairSum(ps[1..])
  }

  lemma {:induction false} PairSumAppend(a: seq<(string, real)>, b: seq<(string, real)>)
    ensures PairSum(a + b) == PairSum(a) + PairSum(b)
    decreases |a|
  {
    if a == [] {
      assert a + b == b;
    } else {
      assert (a + b)[1..] == a[1..] + b;
      PairSumAppend(a[1..], b);
    }
  }

  predicate Descending(ps: seq<(string, real)>)
  {
    forall i :: 0 <= i < |ps| - 1 ==> ps[i].1 >= ps[i + 1].1
  }

  /** Places `x` after every pair of at least its value, so ties keep their order. */
  function InsertDescending(x: (string, real), ps: seq<(string, real)>): (r: seq<(string, real)>)
    requires Descending(ps)
    ensures |r| == |ps| + 1 && multiset(r) == multiset(ps) + multiset{x}
    ensures r[0] == x || (ps != [] && r[0] == ps[0])
    ensures Descending(r)
  {
    if ps == [] then [x]
    else if ps[0].1 >= x.1 then
      var tail := InsertDescending(x, ps[1..]);
      assert ps == [ps[0]] + ps[1..];
      [ps[0]] + tail
    else [x] + ps
  }

  lemma {:induction false} InsertDescendingSum(x: (string, real), ps: seq<(string, real)>)
    requires Descending(ps)
    ensures PairSum(InsertDescending(x, ps)) == PairSum(ps) + x.1
    decreases |ps|
  {
    if ps != [] && ps[0].1 >= x.1 {
      var tail := InsertDescending(x, ps[1..]);
      assert ([ps[0]] + tail)[1..] == tail;
      InsertDescendingSum(x, ps[1..]);
    } else {
      assert ([x] + ps)[1..] == ps;
    }
  }

  /** `sorted(items, key=lambda x: x[1], reverse=True)`. */
  function SortDescending(ps: seq<(string, real)>): (r: seq<(string, real)>)
    ensures |r| == |ps| && multiset(r) == multiset(ps) && Descending(r)
    ensures PairSum(r) == PairSum(ps)
  {
    if ps == [] then []
    else
      var init := ps[..|ps| - 1];
      assert ps == init + [ps[|ps| - 1]];
      PairSumAppend(init, [ps[|ps| - 1]]);
      InsertDescendingSum(ps[|ps| - 1], SortDescending(init));
      InsertDescending(ps[|ps| - 1], SortDescending(init))
  }

  lemma {:induction false} DescendingDominates(ps: seq<(string, real)>, i: nat, j: nat)
    requires Descending(ps) && i <= j < |ps|
    ensures ps[j].1 <= ps[i].1
    decreases j - i
  {
    if i < j {
      DescendingDominates(ps, i + 1, j);
    }
  }

  /** `top_tickers`. */
  function TopTickers(rows: seq<Holding>): seq<(string, real)>
  {
    SortDescending(Grouped(rows))
  }

  function Prefix<T>(s: seq<T>, n: nat): (p: seq<T>)
    ensures |p| == if |s| < n then |s| else n
    ensures forall i :: 0 <= i < |p| ==> p[i] == s[i]
  {
    if |s| < n then s else s[..n]
  }

  function ShareOf(p: (string, real), total: real): TickerShare
  {
    TickerShare(p.0, p.1, Pct(p.1, total))
  }

  /** The per-ticker totals add up to the portfolio total. */
  lemma {:induction false} GroupingPreservesTotal(rows: seq<Holding>)
    ensures PairSum(Grouped(rows)) == TotalValue(rows)
    decreases |rows|
  {
    if rows != [] {
      var init := rows[..|rows| - 1];
      var r := rows[|rows| - 1];
      assert rows == init + [r];
      TotalValueSnoc(rows);
      GroupingPreservesTotal(init);
      TickersDistinct(init);
      if r.ticker in Tickers(init) {
        GroupedSnocKnown(init, r);
      } else {
        TickerTotalAbsent(init, r.ticker);
        GroupedSnocNew(init, r);
      }
    }
  }

  lemma TotalValueSnoc(rows: seq<Holding>)
    requires rows != []
    ensures TotalValue(rows) == TotalValue(rows[..|rows| - 1]) + rows[|rows| - 1].valueUsd
  {
    assert ValuesOf(rows[..|rows| - 1]) == ValuesOf(rows)[..|rows| - 1];
  }

  /** Grouping `rows` per ticker, with a ticker's total evaluated over `other`. */
  function GroupedWith(ts: seq<string>, other: seq<Holding>): (ps: seq<(string, real)>)
    ensures |ps| == |ts|
  {
    seq(|ts|, i requires 0 <= i < |ts| => (ts[i], TickerTotal(other, ts[i])))
  }

  /** Adding a row to the totals of distinct tickers adds its value once, when its ticker is listed. */
  lemma {:induction false} GroupedWithSnoc(ts: seq<string>, rows: seq<Holding>, r: Holding)
    requires Distinct(ts)
    ensures PairSum(GroupedWith(ts, rows + [r])) == PairSum(GroupedWith(ts, rows)) + (if r.ticker in ts then r.valueUsd else 0.0)
    decreases |ts|
  {
    var rows' := rows + [r];
    assert rows'[..|rows'| - 1] == rows;
    if ts != [] {
      var rest := ts[1..];
      assert GroupedWith(ts, rows') == [GroupedWith(ts, rows')[0]] + GroupedWith(rest, rows');
      assert GroupedWith(ts, rows) == [GroupedWith(ts, rows)[0]] + GroupedWith(rest, rows);
      PairSumAppend([GroupedWith(ts, rows')[0]], GroupedWith(rest, rows'));
      PairSumAppend([GroupedWith(ts, rows)[0]], GroupedWith(rest, rows));
      GroupedWithSnoc(rest, rows, r);
      assert r.ticker in ts <==> r.ticker == ts[0] || r.ticker in rest;
    }
  }

  lemma GroupedSnocKnown(rows: seq<Holding>, r: Holding)
    requires Distinct(Tickers(rows)) && r.ticker in Tickers(rows)
    ensures PairSum(Grouped(rows + [r])) == PairSum(Grouped(rows)) + r.valueUsd
  {
    var rows' := rows + [r];
    assert rows'[..|rows'| - 1] == rows;
    assert Grouped(rows') == GroupedWith(Tickers(rows), rows');
    assert Grouped(rows) == GroupedWith(Tickers(rows), rows);
    GroupedWithSnoc(Tickers(rows), rows, r);
  }

  lemma GroupedSnocNew(rows: seq<Holding>, r: Holding)
    requires Distinct(Tickers(rows)) && r.ticker !in Tickers(rows) && TickerTotal(rows, r.ticker) == 0.0
    ensures PairSum(Grouped(rows + [r])) == PairSum(Grouped(rows)) + r.valueUsd
  {
    var rows' := rows + [r];
    var ts := Tickers(rows);
    assert rows'[..|rows'| - 1] == rows;
    assert Grouped(rows') == GroupedWith(ts, rows') + [(r.ticker, TickerTotal(rows', r.ticker))];
    assert Grouped(rows) == GroupedWith(ts, rows);
    PairSumAppend(GroupedWith(ts, rows'), [(r.ticker, TickerTotal(rows', r.ticker))]);
    GroupedWithSnoc(ts, rows, r);
  }

  // The metrics themselves.

  function PositionOf(h: Holding, total: real): Position
  {
    Position(h.ticker, h.name, h.valueUsd, h.shares, Pct(h.valueUsd, total))
  }

  function Shares(ps: seq<(string, real)>, total: real): (ss: seq<TickerShare>)
    ensures |ss| == |ps| && forall i :: 0 <= i < |ps| ==> ss[i] == TickerShare(ps[i].0, ps[i].1, Pct(ps[i].1, total))
  {
    seq(|ps|, i requires 0 <= i < |ps| => TickerShare(ps[i].0, ps[i].1, Pct(ps[i].1, total)))
  }

  /** What `_calculate_13f_metrics` returns for `rows`. */
  function Metrics13F(rows: seq<Holding>): Metrics
  {
    if rows == [] then NoMetrics
    else
      var total := TotalValue(rows);
      var top := TopTickers(rows);
      Metrics(|rows|, total, total / |rows| as real, PositionOf(rows[FirstMaxIndex(ValuesOf(rows))], total),
              Shares(Prefix(top, 5), total), Pct(PairSum(Prefix(top, 10)), total))
  }

  /** `_calculate_13f_metrics`. */
  method Calculate13FMetrics(rows: seq<Holding>) returns (m: Metrics)
    ensures m == Metrics13F(rows)
  {
    if rows == [] {
      return NoMetrics;
    }
    var totalValue := TotalValue(rows);
    var totalPositions := |rows|;
    var largest := rows[FirstMaxIndex(ValuesOf(rows))];
    var items := GroupByTicker(rows);
    var topTickers := SortDescending(items);
    m := Metrics(totalPositions, totalValue, totalValue / totalPositions as real, PositionOf(largest, totalValue),
                 Shares(Prefix(topTickers, 5), totalValue), Pct(PairSum(Prefix(topTickers, 10)), totalValue));
  }

  /** The largest position is a holding no other holding exceeds, and the first such. */
  lemma LargestIsFirstMaximum(rows: seq<Holding>)
    requires rows != []
    ensures var p := Metrics13F(rows).largest;
      exists i :: 0 <= i < |rows| && p == PositionOf(rows[i], TotalValue(rows))
        && (forall j :: 0 <= j < |rows| ==> rows[j].valueUsd <= rows[i].valueUsd)
        && (forall j :: 0 <= j < i ==> rows[j].valueUsd < rows[i].valueUsd)
  {
    var i := FirstMaxIndex(ValuesOf(rows));
    assert Metrics13F(rows).largest == PositionOf(rows[i], TotalValue(rows));
  }

  /** The ranked ticker totals are the grouped totals, in non-increasing order, and add up to
      the portfolio total. */
  lemma {:induction false} TopTickersRankGroups(rows: seq<Holding>)
    ensures multiset(TopTickers(rows)) == multiset(Grouped(rows))
    ensures forall i, j :: 0 <= i <= j < |TopTickers(rows)| ==> TopTickers(rows)[j].1 <= TopTickers(rows)[i].1
    ensures PairSum(TopTickers(rows)) == TotalValue(rows)
  {
    GroupingPreservesTotal(rows);
    forall i, j | 0 <= i <= j < |TopTickers(rows)|
      ensures TopTickers(rows)[j].1 <= TopTickers(rows)[i].1
    {
      DescendingDominates(TopTickers(rows), i, j);
    }
  }

  predicate PairsNonNegative(ps: seq<(string, real)>)
  {
    forall i :: 0 <= i < |ps| ==> ps[i].1 >= 0.0
  }

  lemma {:induction false} PairSumPrefixBounds(ps: seq<(string, real)>, n: nat)
    requires PairsNonNegative(ps)
    ensures 0.0 <= PairSum(Prefix(ps, n)) <= PairSum(ps)
    decreases |ps|
  {
    if ps != [] && n > 0 {
      assert Prefix(ps, n) == [ps[0]] + Prefix(ps[1..], n - 1);
      assert ([ps[0]] + Prefix(ps[1..], n - 1))[1..] == Prefix(ps[1..], n - 1);
      PairSumPrefixBounds(ps[1..], n - 1);
    } else if ps != [] {
      PairSumPrefixBounds(ps[1..], 0);
    }
  }

  lemma GroupedNonNegative(rows: seq<Holding>)
    requires AllNonNegative(ValuesOf(rows))
    ensures PairsNonNegative(Grouped(rows)) && PairsNonNegative(TopTickers(rows))
  {
    forall i | 0 <= i < |Grouped(rows)| ensures Grouped(rows)[i].1 >= 0.0 {
      TickerTotalNonNegative(rows, Tickers(rows)[i]);
    }
    forall i | 0 <= i < |TopTickers(rows)| ensures TopTickers(rows)[i].1 >= 0.0 {
      assert TopTickers(rows)[i] in multiset(Grouped(rows));
    }
  }

  lemma {:induction false} PairElementLe(ps: seq<(string, real)>, k: nat)
    requires PairsNonNegative(ps) && k < |ps|
    ensures 0.0 <= ps[k].1 <= PairSum(ps)
    decreases k
  {
    PairSumPrefixBounds(ps[1..], 0);
    if k > 0 {
      PairElementLe(ps[1..], k - 1);
    }
  }

  /** With no negative holding, every percentage reported lies between 0 and 100. */
  lemma ConcentrationIsAPercentage(rows: seq<Holding>)
    requires rows != [] && AllNonNegative(ValuesOf(rows))
    ensures var m := Metrics13F(rows);
      0.0 <= m.largest.pctOfPortfolio <= 100.0
      && 0.0 <= m.top10ConcentrationPct <= 100.0
      && forall s :: s in m.top5Tickers ==> 0.0 <= s.pctOfPortfolio <= 100.0
  {
    var total := TotalValue(rows);
    var top := TopTickers(rows);
    var k := FirstMaxIndex(ValuesOf(rows));
    SumElementLe(ValuesOf(rows), k);
    TopTickersRankGroups(rows);
    GroupedNonNegative(rows);
    PairSumPrefixBounds(top, 10);
    var five := Prefix(top, 5);
    forall i | 0 <= i < |five| ensures 0.0 <= five[i].1 <= total {
      PairElementLe(top, i);
    }
    assert Metrics13F(rows) == Metrics(|rows|, total, total / |rows| as real, PositionOf(rows[k], total),
                                       Shares(five, total), Pct(PairSum(Prefix(top, 10)), total));
  }
}
