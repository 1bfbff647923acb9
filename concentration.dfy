// Ownership concentration of a ticker's 13F holders
// (analysis/calculations/concentration.py). A `{holder: value}` dictionary is the
// sequence of its items in insertion order.
module Concentration {
  import opened Wrappers
  import opened Numerics

  /** The concentration ratios CR1, CR5 and CR10 as fractions of the total. */
  datatype Ratios = Ratios(cr1: real, cr5: real, cr10: real)

  /** The dictionary calculate_concentration_metrics returns. */
  datatype Metrics = Metrics(
    cr1: Option<real>,
    cr5: Option<real>,
    cr10: Option<real>,
    hhi: Option<real>,
    totalValue: real,
    numHolders: nat,
    topHolderName: Option<string>,
    topHolderPct: Option<real>)

  /** The record returned when there is nothing to measure. */
  const NullMetrics := Metrics(None, None, None, None, 0.0, 0, None, None)

  function Values(d: seq<(string, real)>): (vs: seq<real>)
    ensures |vs| == |d|
    ensures forall i :: 0 <= i < |d| ==> vs[i] == d[i].1
  {
    seq(|d|, i requires 0 <= i < |d| => d[i].1)
  }

  /** Each value is at least the next one. */
  predicate Descending(s: seq<real>)
  {
    forall i :: 0 < i < |s| ==> s[i - 1] >= s[i]
  }

  function Insert(x: real, s: seq<real>): (r: seq<real>)
    requires Descending(s)
    ensures |r| == |s| + 1
    ensures r[0] == if s == [] || x >= s[0] then x else s[0]
    ensures Descending(r)
    ensures multiset(r) == multiset(s) + multiset{x}
  {
    if s == [] || x >= s[0] then [x] + s
    else
      assert s == [s[0]] + s[1..];
      [s[0]] + Insert(x, s[1..])
  }

  /** `sorted(values, reverse=True)`. */
  function SortDescending(xs: seq<real>): (r: seq<real>)
    ensures |r| == |xs|
    ensures Descending(r)
    ensures multiset(r) == multiset(xs)
  {
    if xs == [] then []
    else
      assert xs == xs[..|xs| - 1] + [xs[|xs| - 1]];
      Insert(xs[|xs| - 1], SortDescending(xs[..|xs| - 1]))
  }

  /** The head of a descending sequence is its largest value. */
  lemma {:induction false} DescendingHeadIsMax(s: seq<real>)
    requires Descending(s)
    ensures forall j :: 0 <= j < |s| ==> s[j] <= s[0]
  {
    if |s| > 1 {
      DescendingHeadIsMax(s[1..]);
      forall j | 0 < j < |s| ensures s[j] <= s[0] {
        assert s[j] == s[1..][j - 1];
      }
    }
  }

  lemma SumCons(x: real, s: seq<real>)
    ensures Sum([x] + s) == x + Sum(s)
  {
    SumAppend([x], s);
    assert [x][..0] == [];
  }

  lemma {:induction false} SumInsert(x: real, s: seq<real>)
    requires Descending(s)
    ensures Sum(Insert(x, s)) == x + Sum(s)
    decreases |s|
  {
    if s == [] || x >= s[0] {
      SumCons(x, s);
    } else {
      SumInsert(x, s[1..]);
      SumCons(s[0], Insert(x, s[1..]));
      SumCons(s[0], s[1..]);
      assert s == [s[0]] + s[1..];
    }
  }

  /** Sorting does not change the total. */
  lemma {:induction false} SumSortDescending(xs: seq<real>)
    ensures Sum(SortDescending(xs)) == Sum(xs)
  {
    if xs != [] {
      SumSortDescending(xs[..|xs| - 1]);
      SumInsert(xs[|xs| - 1], SortDescending(xs[..|xs| - 1]));
    }
  }

  lemma SortedPositive(xs: seq<real>)
    requires AllPositive(xs)
    ensures AllPositive(SortDescending(xs))
  {
    var s := SortDescending(xs);
    forall k | 0 <= k < |s| ensures s[k] > 0.0 {
      assert s[k] in multiset(xs);
    }
  }

  function MinNat(a: nat, b: nat): nat { if a <= b then a else b }

  /** The sum of the n largest values: `sum(value for _, value in sorted_holders[:n])`. */
  function TopSum(xs: seq<real>, n: nat): real
  {
    Sum(SortDescending(xs)[..MinNat(n, |xs|)])
  }

  /** `sum(value_by_holder.values())`, positive for valid input. */
  function Total(d: seq<(string, real)>): (t: real)
    ensures t == Sum(Values(d))
    ensures |d| > 0 && AllPositive(Values(d)) ==> t > 0.0
  {
    var vs := Values(d);
    if |d| > 0 && AllPositive(vs) then SumPositive(vs); Sum(vs) else Sum(vs)
  }

  lemma TopSumOne(xs: seq<real>)
    requires |xs| >= 1
    ensures TopSum(xs, 1) == SortDescending(xs)[0]
  {
    var s := SortDescending(xs);
    assert MinNat(1, |xs|) == 1;
    assert s[..1] == [s[0]];
    assert [s[0]][..0] == [];
    assert Sum([s[0]]) == Sum([s[0]][..0]) + s[0];
  }

  /** With at most n values, the n largest are all of them. */
  lemma TopSumAll(xs: seq<real>, n: nat)
    requires |xs| <= n
    ensures TopSum(xs, n) == Sum(xs)
  {
    assert MinNat(n, |xs|) == |xs|;
    SumWhole(SortDescending(xs));
    SumSortDescending(xs);
  }

  lemma SumWhole(s: seq<real>)
    ensures Sum(s[..|s|]) == Sum(s)
  {
    assert s[..|s|] == s;
  }

  /** concentration_ratios. */
  function ConcentrationRatios(d: seq<(string, real)>): (r: Result<Ratios>)
    ensures r.Ok? <==> |d| > 0 && AllPositive(Values(d))
  {
    if |d| == 0 then Err("No holders provided")
    else if !AllPositive(Values(d)) then Err("Non-positive values not allowed")
    else
      var vs := Values(d);
      var total := Total(d);
      Ok(Ratios(TopSum(vs, 1) / total, TopSum(vs, 5) / total, TopSum(vs, 10) / total))
  }

  lemma DivMono(a: real, b: real, t: real)
    requires a <= b && t > 0.0
    ensures a / t <= b / t
  {
  }

  lemma DivPositive(a: real, t: real)
    requires a > 0.0 && t > 0.0
    ensures a / t > 0.0
  {
  }

  lemma DivSelf(t: real)
    requires t != 0.0
    ensures t / t == 1.0
  {
  }

  lemma TopSumMono(xs: seq<real>, n: nat, m: nat)
    requires AllPositive(xs) && n <= m
    ensures 0.0 <= TopSum(xs, n) <= TopSum(xs, m) <= Sum(xs)
  {
    SortedPositive(xs);
    PrefixSumsMono(SortDescending(xs), MinNat(n, |xs|), MinNat(m, |xs|));
    SumSortDescending(xs);
  }

  lemma PrefixSumsMono(s: seq<real>, a: nat, b: nat)
    requires AllPositive(s) && a <= b <= |s|
    ensures 0.0 <= Sum(s[..a]) <= Sum(s[..b]) <= Sum(s)
  {
    assert s[..b][..a] == s[..a];
    SumPrefixLe(s[..b], a);
    SumPrefixLe(s, b);
    SumNonNegative(s[..a]);
  }

  /** 0 < CR1 <= CR5 <= CR10 <= 1. */
  lemma RatiosOrdered(d: seq<(string, real)>)
    requires ConcentrationRatios(d).Ok?
    ensures var r := ConcentrationRatios(d).value;
      0.0 < r.cr1 <= r.cr5 <= r.cr10 <= 1.0
  {
    var vs, t := Values(d), Total(d);
    var a, b, c := TopSum(vs, 1), TopSum(vs, 5), TopSum(vs, 10);
    assert ConcentrationRatios(d).value == Ratios(a / t, b / t, c / t);
    TopSumMono(vs, 1, 5);
    TopSumMono(vs, 5, 10);
    DivMono(a, b, t);
    DivMono(b, c, t);
    DivMono(c, t, t);
    DivSelf(t);
    TopSumOne(vs);
    SortedPositive(vs);
    DivPositive(a, t);
  }

  /** With at most n holders, CRn covers everything. */
  lemma RatioIsOneWhenFewHolders(d: seq<(string, real)>)
    requires ConcentrationRatios(d).Ok?
    ensures |d| <= 1 ==> ConcentrationRatios(d).value.cr1 == 1.0
    ensures |d| <= 5 ==> ConcentrationRatios(d).value.cr5 == 1.0
    ensures |d| <= 10 ==> ConcentrationRatios(d).value.cr10 == 1.0
  {
    var vs, t := Values(d), Total(d);
    assert ConcentrationRatios(d).value == Ratios(TopSum(vs, 1) / t, TopSum(vs, 5) / t, TopSum(vs, 10) / t);
    DivSelf(t);
    if |d| <= 1 { TopSumAll(vs, 1); }
    if |d| <= 5 { TopSumAll(vs, 5); }
    if |d| <= 10 { TopSumAll(vs, 10); }
  }

  /** `max(items, key=value)`: the first holder with the largest value. */
  function FirstMax(xs: seq<real>, n: nat): (k: nat)
    requires 1 <= n <= |xs|
    ensures k < n
    ensures forall j :: 0 <= j < n ==> xs[j] <= xs[k]
    ensures forall j :: 0 <= j < k ==> xs[j] < xs[k]
  {
    if n == 1 then 0
    else
      var k := FirstMax(xs, n - 1);
      if xs[n - 1] > xs[k] then n - 1 else k
  }

  /** The largest value comes first after sorting. */
  lemma SortedHeadIsMax(xs: seq<real>)
    requires |xs| >= 1
    ensures |SortDescending(xs)| == |xs|
    ensures SortDescending(xs)[0] == xs[FirstMax(xs, |xs|)]
  {
    var s := SortDescending(xs);
    var k := FirstMax(xs, |xs|);
    DescendingHeadIsMax(s);
    assert xs[k] in multiset(s);
    assert s[0] in multiset(xs);
  }

  /** `(value / total) ** 2` summed over the holders. */
  function ShareSquares(xs: seq<real>, total: real): (h: real)
    requires total != 0.0
    ensures h >= 0.0
  {
    if xs == [] then 0.0
    else
      var s := xs[|xs| - 1] / total;
      ShareSquares(xs[..|xs| - 1], total) + s * s
  }

  /** herfindahl_index: the loop over the holders' values. */
  method HerfindahlIndex(d: seq<(string, real)>) returns (r: Result<real>)
    ensures r.Ok? <==> |d| > 0 && AllPositive(Values(d))
    ensures r.Ok? ==> r.value == ShareSquares(Values(d), Total(d))
  {
    if |d| == 0 {
      return Err("No holders provided");
    }
    var vs := Values(d);
    if !AllPositive(vs) {
      return Err("Non-positive values not allowed");
    }
    var total := Total(d);
    SumPositive(vs);
    var hhi := 0.0;
    var i := 0;
    while i < |vs|
      invariant 0 <= i <= |vs|
      invariant hhi == ShareSquares(vs[..i], total)
    {
      var share := vs[i] / total;
      assert vs[..i + 1][..i] == vs[..i];
      hhi := hhi + share * share;
      i := i + 1;
    }
    assert vs[..i] == vs;
    return Ok(hhi);
  }

  lemma DivAdd(a: real, b: real, t: real)
    requires t != 0.0
    ensures (a + b) / t == a / t + b / t
  {
  }

  lemma SquareBelowProduct(s: real, m: real)
    requires 0.0 <= s <= m
    ensures s * s <= m * s
  {
  }

  /** Each share is at most m, so the squares sum to at most m times the shares' sum. */
  lemma {:induction false} SquaresBelowMax(xs: seq<real>, t: real, m: real)
    requires t > 0.0 && AllNonNegative(xs)
    requires forall i :: 0 <= i < |xs| ==> xs[i] / t <= m
    ensures ShareSquares(xs, t) <= m * (Sum(xs) / t)
  {
    if xs != [] {
      var init, v := xs[..|xs| - 1], xs[|xs| - 1];
      var h, a, s, total := ShareSquares(init, t), Sum(init) / t, v / t, Sum(xs) / t;
      assert h <= m * a by {
        SquaresBelowMax(init, t, m);
      }
      assert 0.0 <= s <= m by {
        assert xs[|xs| - 1] == v;
      }
      assert total == a + s by {
        DivAdd(Sum(init), v, t);
      }
      SquareStep(h, a, s, m, total, ShareSquares(xs, t));
    }
  }

  lemma SquareStep(h: real, a: real, s: real, m: real, total: real, next: real)
    requires h <= m * a && 0.0 <= s <= m && total == a + s && next == h + s * s
    ensures next <= m * total
  {
    SquareBelowProduct(s, m);
  }

  /** Every single square is part of the sum. */
  lemma {:induction false} SquaresAboveTerm(xs: seq<real>, t: real, k: nat)
    requires t > 0.0 && k < |xs|
    ensures ShareSquares(xs, t) >= (xs[k] / t) * (xs[k] / t)
  {
    var s := xs[|xs| - 1] / t;
    assert s * s >= 0.0;
    if k < |xs| - 1 {
      SquaresAboveTerm(xs[..|xs| - 1], t, k);
    }
  }

  /** The squared shares lie between the largest share squared and the largest share. */
  lemma ShareSquaresBetween(xs: seq<real>, t: real, k: nat, m: real)
    requires t == Sum(xs) && t > 0.0 && AllNonNegative(xs) && k < |xs|
    requires forall i :: 0 <= i < |xs| ==> xs[i] <= xs[k]
    requires m == xs[k] / t
    ensures m * m <= ShareSquares(xs, t) <= m
  {
    ShareSquaresAtMostTop(xs, t, k, m);
    ShareSquaresAtLeastTopSquared(xs, t, k, m);
  }

  lemma ShareSquaresAtMostTop(xs: seq<real>, t: real, k: nat, m: real)
    requires t == Sum(xs) && t > 0.0 && AllNonNegative(xs) && k < |xs|
    requires forall i :: 0 <= i < |xs| ==> xs[i] <= xs[k]
    requires m == xs[k] / t
    ensures ShareSquares(xs, t) <= m
  {
    SharesBelowTop(xs, t, k, m);
    SquaresBelowMax(xs, t, m);
    assert Sum(xs) / t == 1.0 by {
      DivSelf(t);
    }
  }

  lemma ShareSquaresAtLeastTopSquared(xs: seq<real>, t: real, k: nat, m: real)
    requires t > 0.0 && k < |xs| && m == xs[k] / t
    ensures m * m <= ShareSquares(xs, t)
  {
    SquaresAboveTerm(xs, t, k);
  }

  lemma SharesBelowTop(xs: seq<real>, t: real, k: nat, m: real)
    requires t > 0.0 && k < |xs| && m == xs[k] / t
    requires forall i :: 0 <= i < |xs| ==> xs[i] <= xs[k]
    ensures forall i :: 0 <= i < |xs| ==> xs[i] / t <= m
  {
    forall i | 0 <= i < |xs| ensures xs[i] / t <= m {
      DivMono(xs[i], xs[k], t);
    }
  }

  /** The largest holder's share is CR1. */
  lemma TopHolderShareIsCr1(d: seq<(string, real)>)
    requires |d| > 0 && AllPositive(Values(d))
    ensures d[FirstMax(Values(d), |d|)].1 / Total(d) == ConcentrationRatios(d).value.cr1
  {
    var vs := Values(d);
    SortedHeadIsMax(vs);
    TopSumOne(vs);
  }

  /** CR1² <= HHI <= CR1 <= 1. */
  predicate HhiWithinCr1(hhi: real, cr1: real)
  {
    cr1 * cr1 <= hhi <= cr1 <= 1.0
  }

  /** The Herfindahl index lies between CR1 squared and CR1. */
  lemma HerfindahlBounds(d: seq<(string, real)>)
    requires |d| > 0 && AllPositive(Values(d))
    ensures HhiWithinCr1(ShareSquares(Values(d), Total(d)), ConcentrationRatios(d).value.cr1)
  {
    var vs, t := Values(d), Total(d);
    var k := FirstMax(vs, |vs|);
    var hhi, cr1 := ShareSquares(vs, t), ConcentrationRatios(d).value.cr1;
    assert cr1 * cr1 <= hhi <= cr1 by {
      TopHolderShareIsCr1(d);
      assert AllNonNegative(vs);
      ShareSquaresBetween(vs, t, k, cr1);
    }
    assert cr1 <= 1.0 by {
      RatiosOrdered(d);
    }
    assert HhiWithinCr1(hhi, cr1);
  }

  /** A single holder is a monopoly: HHI = 1. */
  lemma HerfindahlSingleHolder(d: seq<(string, real)>)
    requires |d| == 1 && AllPositive(Values(d))
    ensures ShareSquares(Values(d), Total(d)) == 1.0
  {
    var vs, t := Values(d), Total(d);
    assert t == vs[0] by {
      assert vs[..0] == [];
      assert Sum(vs) == Sum(vs[..0]) + vs[0];
    }
    DivSelf(t);
    assert ShareSquares(vs, t) == ShareSquares(vs[..0], t) + (vs[0] / t) * (vs[0] / t);
  }

  /** calculate_concentration_metrics. */
  method CalculateConcentrationMetrics(d: seq<(string, real)>) returns (m: Metrics)
    ensures m == NullMetrics <==> |d| == 0 || !AllPositive(Values(d))
    ensures m != NullMetrics ==>
      var vs := Values(d);
      var top := FirstMax(vs, |d|);
      m.cr1 == Some(ConcentrationRatios(d).value.cr1) &&
      m.cr5 == Some(ConcentrationRatios(d).value.cr5) &&
      m.cr10 == Some(ConcentrationRatios(d).value.cr10) &&
      m.hhi == Some(ShareSquares(vs, Total(d))) &&
      m.totalValue == Sum(vs) && m.numHolders == |d| &&
      m.topHolderName == Some(d[top].0) && m.topHolderPct == Some(d[top].1 / Total(d))
  {
    var vs := Values(d);
    if |d| == 0 || forall i :: 0 <= i < |vs| ==> vs[i] <= 0.0 {
      assert |d| > 0 ==> vs[0] <= 0.0;
      return NullMetrics;
    }
    var ratios := ConcentrationRatios(d);
    var hhi := HerfindahlIndex(d);
    if ratios.Err? || hhi.Err? {
      // the ConcentrationError handler
      return NullMetrics;
    }
    var total := Total(d);
    SumPositive(vs);
    var top := FirstMax(vs, |d|);
    m := Metrics(
      Some(ratios.value.cr1), Some(ratios.value.cr5), Some(ratios.value.cr10), Some(hhi.value),
      total, |d|, Some(d[top].0), Some(d[top].1 / total));
  }

  /** One 13F holding row; a missing key is `None`. */
  datatype Holding = Holding(filer: Option<string>, valueUsd: Option<real>)

  /** `holding.get('filer', 'Unknown')`. */
  function FilerOf(h: Holding): string { if h.filer.Some? then h.filer.value else "Unknown" }

  /** `holding.get('value_usd', 0.0)`. */
  function ValueOf(h: Holding): real { if h.valueUsd.Some? then h.valueUsd.value else 0.0 }

  /** The position of key k among the dictionary's items, or -1. */
  function KeyIndex(d: seq<(string, real)>, k: string): (i: int)
    ensures -1 <= i < |d|
    ensures i >= 0 ==> d[i].0 == k
    ensures i < 0 ==> forall j :: 0 <= j < |d| ==> d[j].0 != k
  {
    if d == [] then -1
    else if d[0].0 == k then 0
    else
      var j := KeyIndex(d[1..], k);
      if j < 0 then -1 else j + 1
  }

  /** `d[k] += v` when k is present, else `d[k] = v`. */
  function AddTo(d: seq<(string, real)>, k: string, v: real): seq<(string, real)>
  {
    var i := KeyIndex(d, k);
    if i >= 0 then d[i := (k, d[i].1 + v)] else d + [(k, v)]
  }

  /** value_by_filer after the holdings have been added in order. */
  function Aggregate(hs: seq<Holding>): seq<(string, real)>
  {
    if hs == [] then []
    else AddTo(Aggregate(hs[..|hs| - 1]), FilerOf(hs[|hs| - 1]), ValueOf(hs[|hs| - 1]))
  }

  /** The value_usd of every holding whose filer is k, summed in order. */
  function FilerTotal(hs: seq<Holding>, k: string): real
  {
    if hs == [] then 0.0
    else FilerTotal(hs[..|hs| - 1], k) + (if FilerOf(hs[|hs| - 1]) == k then ValueOf(hs[|hs| - 1]) else 0.0)
  }

  predicate DistinctKeys(d: seq<(string, real)>)
  {
    forall i, j :: 0 <= i < j < |d| ==> d[i].0 != d[j].0
  }

  lemma {:induction false} FilerTotalAbsent(hs: seq<Holding>, k: string)
    requires forall j :: 0 <= j < |hs| ==> FilerOf(hs[j]) != k
    ensures FilerTotal(hs, k) == 0.0
  {
    if hs != [] { FilerTotalAbsent(hs[..|hs| - 1], k); }
  }

  /** Adding to a dictionary keeps its keys distinct, keeps every key, and adds only k. */
  lemma AddToKeys(d: seq<(string, real)>, k: string, v: real)
    ensures KeyIndex(AddTo(d, k, v), k) >= 0
    ensures forall i :: 0 <= i < |d| ==> KeyIndex(AddTo(d, k, v), d[i].0) >= 0
    ensures forall i :: 0 <= i < |AddTo(d, k, v)| ==>
      AddTo(d, k, v)[i].0 == k || (i < |d| && AddTo(d, k, v)[i].0 == d[i].0)
    ensures DistinctKeys(d) ==> DistinctKeys(AddTo(d, k, v))
  {
    var d' := AddTo(d, k, v);
    var p := KeyIndex(d, k);
    assert p >= 0 ==> d'[p].0 == k;
    assert p < 0 ==> d'[|d|].0 == k;
    forall i | 0 <= i < |d| ensures KeyIndex(d', d[i].0) >= 0 {
      assert d'[i].0 == d[i].0;
    }
  }

  /** The aggregated dictionary has one entry per filer. */
  lemma {:induction false} AggregateDistinct(hs: seq<Holding>)
    ensures DistinctKeys(Aggregate(hs))
  {
    if hs != [] {
      AggregateDistinct(hs[..|hs| - 1]);
      AddToKeys(Aggregate(hs[..|hs| - 1]), FilerOf(hs[|hs| - 1]), ValueOf(hs[|hs| - 1]));
    }
  }

  /** Every filer is a key of the aggregated dictionary. */
  lemma {:induction false} AggregateHasFilers(hs: seq<Holding>)
    ensures forall j :: 0 <= j < |hs| ==> KeyIndex(Aggregate(hs), FilerOf(hs[j])) >= 0
  {
    if hs != [] {
      var init := hs[..|hs| - 1];
      AggregateHasFilers(init);
      var a := Aggregate(init);
      AddToKeys(a, FilerOf(hs[|hs| - 1]), ValueOf(hs[|hs| - 1]));
      forall j | 0 <= j < |init| ensures KeyIndex(Aggregate(hs), FilerOf(hs[j])) >= 0 {
        assert hs[j] == init[j];
        var p := KeyIndex(a, FilerOf(init[j]));
        assert a[p].0 == FilerOf(hs[j]);
      }
    }
  }

  /** Every key of the aggregated dictionary is some holding's filer. */
  lemma {:induction false} AggregateKeysAreFilers(hs: seq<Holding>)
    ensures forall i :: 0 <= i < |Aggregate(hs)| ==>
      exists j :: 0 <= j < |hs| && FilerOf(hs[j]) == Aggregate(hs)[i].0
  {
    if hs != [] {
      var init := hs[..|hs| - 1];
      AggregateKeysAreFilers(init);
      var a, d := Aggregate(init), Aggregate(hs);
      assert d == AddTo(a, FilerOf(hs[|hs| - 1]), ValueOf(hs[|hs| - 1]));
      AddToKeys(a, FilerOf(hs[|hs| - 1]), ValueOf(hs[|hs| - 1]));
      forall i | 0 <= i < |d| ensures exists j :: 0 <= j < |hs| && FilerOf(hs[j]) == d[i].0 {
        if d[i].0 != FilerOf(hs[|hs| - 1]) {
          var j :| 0 <= j < |init| && FilerOf(init[j]) == a[i].0;
          assert hs[j] == init[j];
        } else {
          assert FilerOf(hs[|hs| - 1]) == d[i].0;
        }
      }
    } else {
      assert Aggregate(hs) == [];
    }
  }

  /** Each filer's entry holds the sum of that filer's values. */
  lemma {:induction false} AggregateSums(hs: seq<Holding>)
    ensures forall i :: 0 <= i < |Aggregate(hs)| ==> Aggregate(hs)[i].1 == FilerTotal(hs, Aggregate(hs)[i].0)
  {
    if hs != [] {
      var init := hs[..|hs| - 1];
      AggregateSums(init);
      AggregateDistinct(init);
      AggregateHasFilers(init);
      var a, k, v := Aggregate(init), FilerOf(hs[|hs| - 1]), ValueOf(hs[|hs| - 1]);
      var d := Aggregate(hs);
      var p := KeyIndex(a, k);
      forall i | 0 <= i < |d| ensures d[i].1 == FilerTotal(hs, d[i].0) {
        if p >= 0 && i != p {
          assert a[i].0 != k;
        } else if p < 0 && i == |a| {
          forall j | 0 <= j < |init| ensures FilerOf(init[j]) != k {
            assert KeyIndex(a, FilerOf(init[j])) >= 0;
          }
          FilerTotalAbsent(init, k);
        }
      }
    }
  }

  lemma {:induction false} SumUpdate(xs: seq<real>, i: nat, y: real)
    requires i < |xs|
    ensures Sum(xs[i := y]) == Sum(xs) - xs[i] + y
  {
    var ys := xs[i := y];
    if i < |xs| - 1 {
      assert ys[..|ys| - 1] == xs[..|xs| - 1][i := y];
      SumUpdate(xs[..|xs| - 1], i, y);
    } else {
      assert ys[..|ys| - 1] == xs[..|xs| - 1];
    }
  }

  /** The value_usd of each holding, in order. */
  function HoldingValues(hs: seq<Holding>): (vs: seq<real>)
    ensures |vs| == |hs|
    ensures forall j :: 0 <= j < |hs| ==> vs[j] == ValueOf(hs[j])
  {
    seq(|hs|, j requires 0 <= j < |hs| => ValueOf(hs[j]))
  }

  lemma AddToTotal(d: seq<(string, real)>, k: string, v: real)
    ensures Sum(Values(AddTo(d, k, v))) == Sum(Values(d)) + v
  {
    var p := KeyIndex(d, k);
    if p >= 0 {
      assert Values(AddTo(d, k, v)) == Values(d)[p := d[p].1 + v];
      SumUpdate(Values(d), p, d[p].1 + v);
    } else {
      var vs := Values(AddTo(d, k, v));
      assert vs[..|d|] == Values(d);
    }
  }

  /** Aggregation keeps the grand total. */
  lemma {:induction false} AggregateTotal(hs: seq<Holding>)
    ensures Sum(Values(Aggregate(hs))) == Sum(HoldingValues(hs))
  {
    if hs != [] {
      var init := hs[..|hs| - 1];
      AggregateTotal(init);
      AddToTotal(Aggregate(init), FilerOf(hs[|hs| - 1]), ValueOf(hs[|hs| - 1]));
      assert HoldingValues(hs)[..|hs| - 1] == HoldingValues(init);
    }
  }

  /** The loop of analyze_13f_holdings: value_usd summed per filer, filers in order of
      first appearance. */
  method SumByFiler(holdings: seq<Holding>) returns (valueByFiler: seq<(string, real)>)
    ensures valueByFiler == Aggregate(holdings)
  {
    valueByFiler := [];
    var i := 0;
    while i < |holdings|
      invariant 0 <= i <= |holdings|
      invariant valueByFiler == Aggregate(holdings[..i])
    {
      var filer := FilerOf(holdings[i]);
      var value := ValueOf(holdings[i]);
      var p := KeyIndex(valueByFiler, filer);
      assert holdings[..i + 1][..i] == holdings[..i];
      if p >= 0 {
        valueByFiler := valueByFiler[p := (filer, valueByFiler[p].1 + value)];
      } else {
        valueByFiler := valueByFiler + [(filer, value)];
      }
      i := i + 1;
    }
    assert holdings[..i] == holdings;
  }

  /** analyze_13f_holdings: value_by_filer is built in a loop, then measured. */
  method Analyze13FHoldings(holdings: seq<Holding>) returns (m: Metrics)
    ensures m == NullMetrics <==> |holdings| == 0 || !AllPositive(Values(Aggregate(holdings)))
    ensures m != NullMetrics ==>
      var vs := Values(Aggregate(holdings));
      m.totalValue == Sum(vs) && m.numHolders == |Aggregate(holdings)| &&
      m.hhi == Some(ShareSquares(vs, Total(Aggregate(holdings)))) &&
      m.cr1 == Some(ConcentrationRatios(Aggregate(holdings)).value.cr1) &&
      m.cr5 == Some(ConcentrationRatios(Aggregate(holdings)).value.cr5) &&
      m.cr10 == Some(ConcentrationRatios(Aggregate(holdings)).value.cr10) &&
      var top := FirstMax(vs, |Aggregate(holdings)|);
      m.topHolderName == Some(Aggregate(holdings)[top].0) &&
      m.topHolderPct == Some(Aggregate(holdings)[top].1 / Total(Aggregate(holdings)))
  {
    if |holdings| == 0 {
      m := CalculateConcentrationMetrics([]);
      return;
    }
    var valueByFiler := SumByFiler(holdings);
    assert |valueByFiler| > 0 by {
      AggregateHasFilers(holdings);
      assert KeyIndex(valueByFiler, FilerOf(holdings[0])) >= 0;
    }
    m := CalculateConcentrationMetrics(valueByFiler);
  }

  /** concentration_interpretation: the HHI read against the bands 0.15 and 0.25. */
  function ConcentrationInterpretation(hhi: Option<real>): (r: string)
    ensures r == "No data" <==> hhi.None?
    ensures hhi.Some? ==> (r == "Low concentration (competitive)" <==> hhi.value < 0.15)
    ensures hhi.Some? ==> (r == "High concentration" <==> hhi.value >= 0.25)
    ensures hhi.Some? ==> (r == "Moderate concentration" <==> 0.15 <= hhi.value < 0.25)
  {
    if hhi.None? then "No data"
    else if hhi.value < 0.15 then "Low concentration (competitive)"
    else if hhi.value < 0.25 then "Moderate concentration"
    else "High concentration"
  }

  /** A single holder reads as high concentration. */
  lemma SingleHolderIsHigh(d: seq<(string, real)>)
    requires |d| == 1 && AllPositive(Values(d))
    ensures ConcentrationInterpretation(Some(ShareSquares(Values(d), Total(d)))) == "High concentration"
  {
    HerfindahlSingleHolder(d);
  }
}
