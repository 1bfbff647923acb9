// Simple returns over trading-day windows (analysis/calculations/returns.py).
module Returns {
  import opened Wrappers
  import opened Text
  import opened Numerics

  /** The dictionary key `f"{w}D"`. */
  function WindowKey(w: int): string { IntToString(w) + "D" }

  lemma WindowKeyInjective(a: int, b: int)
    requires WindowKey(a) == WindowKey(b)
    ensures a == b
  {
    SuffixedIntInjective(a, b, "D");
  }

  /** How many `w`-day returns a series of `total` trading days supports. */
  function WindowCount(total: nat, w: int): int
  {
    if total == 0 then 0 else if total >= w + 1 then total - w else 0
  }

  /** The keys `{f"{w}D" for w in windows}`. */
  function KeysOf(windows: seq<int>): (ks: set<string>)
    ensures forall w :: w in windows ==> WindowKey(w) in ks
  {
    if windows == [] then {} else KeysOf(windows[..|windows| - 1]) + {WindowKey(windows[|windows| - 1])}
  }

  /** Storing `f(w)` for window `i` keeps every earlier window's value and extends the keys. */
  lemma StoreWindow<V>(results: map<string, V>, windows: seq<int>, i: nat, f: int -> V, value: V)
    requires i < |windows| && value == f(windows[i])
    requires results.Keys == KeysOf(windows[..i])
    requires forall j :: 0 <= j < i ==> results[WindowKey(windows[j])] == f(windows[j])
    ensures results[WindowKey(windows[i]) := value].Keys == KeysOf(windows[..i + 1])
    ensures forall j :: 0 <= j < i + 1 ==> results[WindowKey(windows[i]) := value][WindowKey(windows[j])] == f(windows[j])
  {
    assert windows[..i + 1][..i] == windows[..i];
    var updated := results[WindowKey(windows[i]) := value];
    forall j | 0 <= j < i + 1 ensures updated[WindowKey(windows[j])] == f(windows[j]) {
      if WindowKey(windows[j]) == WindowKey(windows[i]) { WindowKeyInjective(windows[j], windows[i]); }
    }
  }

  /** The map giving every window the same value `v` agrees with an `f` that is `v` everywhere. */
  lemma UniformMap<V>(windows: seq<int>, v: V, f: int -> V)
    requires forall w :: f(w) == v
    ensures forall w :: w in windows ==> (map k | k in KeysOf(windows) :: v)[WindowKey(w)] == f(w)
  {
  }

  /** window_ends: one count per requested window, under the key "{w}D". */
  method WindowEnds<D>(tradingDates: seq<D>, windows: seq<int>) returns (result: map<string, int>)
    ensures result.Keys == KeysOf(windows)
    ensures forall w :: w in windows ==> result[WindowKey(w)] == WindowCount(|tradingDates|, w)
  {
    if |tradingDates| == 0 {
      result := map k | k in KeysOf(windows) :: 0;
      UniformMap(windows, 0, w => WindowCount(0, w));
      return;
    }
    var total := |tradingDates|;
    ghost var count := w => WindowCount(total, w);
    result := map[];
    var i := 0;
    while i < |windows|
      invariant 0 <= i <= |windows|
      invariant result.Keys == KeysOf(windows[..i])
      invariant forall j :: 0 <= j < i ==> result[WindowKey(windows[j])] == count(windows[j])
    {
      var window := windows[i];
      var possible := if total >= window + 1 then total - window else 0;
      StoreWindow(result, windows, i, count, possible);
      result := result[WindowKey(window) := possible];
      i := i + 1;
    }
    assert windows[..i] == windows;
  }

  /** simple_returns: the return over the last `k` periods, P[t] / P[t-k] - 1. */
  function SimpleReturn(prices: seq<real>, k: int): (r: Result<real>)
    ensures r.Ok? <==> |prices| >= 2 && 0 < k < |prices| && AllPositive(prices)
  {
    if |prices| < 2 then Err("Insufficient data: need at least 2 prices")
    else if k >= |prices| then Err("Window size larger than available data")
    else if k <= 0 then Err("Window size must be positive")
    else if !AllPositive(prices) then Err("Zero or negative prices not allowed")
    else Ok(prices[|prices| - 1] / prices[|prices| - 1 - k] - 1.0)
  }

  /** A simple return is a growth factor minus one: above -1, and it carries the
      price k periods back onto the latest price. */
  lemma SimpleReturnGrowth(prices: seq<real>, k: int)
    requires SimpleReturn(prices, k).Ok?
    ensures SimpleReturn(prices, k).value > -1.0
    ensures (1.0 + SimpleReturn(prices, k).value) * prices[|prices| - 1 - k] == prices[|prices| - 1]
  {
    var past, now := prices[|prices| - 1 - k], prices[|prices| - 1];
    assert past > 0.0 && now > 0.0;
    assert now / past > 0.0;
  }

  /** The k-period returns ending at each index k, k+1, ..., |prices|-1. */
  function ReturnSeries(prices: seq<real>, k: nat): (r: seq<real>)
    requires AllPositive(prices)
    ensures |r| == if |prices| < k + 1 then 0 else |prices| - k
  {
    if |prices| < k + 1 then []
    else seq(|prices| - k, i requires 0 <= i < |prices| - k => prices[i + k] / prices[i] - 1.0)
  }

  /** simple_returns_vectorized. */
  method SimpleReturnsVectorized(prices: seq<real>, k: nat) returns (r: Result<seq<real>>)
    ensures r.Err? <==> |prices| >= k + 1 && !AllPositive(prices)
    ensures r.Ok? ==> |r.value| == (if |prices| < k + 1 then 0 else |prices| - k)
    ensures r.Ok? ==> forall i :: 0 <= i < |r.value| ==> r.value[i] == prices[i + k] / prices[i] - 1.0
  {
    if |prices| < k + 1 {
      return Ok([]);
    }
    if !AllPositive(prices) {
      return Err("Zero or negative prices not allowed");
    }
    var series: seq<real> := [];
    var i := k;
    while i < |prices|
      invariant k <= i <= |prices|
      invariant |series| == i - k
      invariant forall j :: 0 <= j < |series| ==> series[j] == prices[j + k] / prices[j] - 1.0
    {
      series := series + [prices[i] / prices[i - k] - 1.0];
      i := i + 1;
    }
    return Ok(series);
  }

  /** The vectorised series has exactly as many entries as window_ends counts. */
  lemma SeriesLengthIsWindowCount(prices: seq<real>, k: nat)
    requires AllPositive(prices)
    ensures |ReturnSeries(prices, k)| == WindowCount(|prices|, k)
  {
  }

  /** The last entry of the vectorised series is the most recent simple return. */
  lemma SeriesLastIsSimpleReturn(prices: seq<real>, k: nat)
    requires AllPositive(prices) && 0 < k < |prices|
    ensures ReturnSeries(prices, k)[|prices| - k - 1] == SimpleReturn(prices, k).value
  {
  }

  /** The value calculate_period_returns stores for window `w`. */
  function PeriodReturn(prices: seq<real>, w: int): Option<real>
  {
    if |prices| < 2 then None
    else if WindowCount(|prices|, w) > 0 then
      (match SimpleReturn(prices, w) case Ok(v) => Some(v) case Err(_) => None)
    else None
  }

  /** A window has a value exactly when the prices are positive and number at least w+1. */
  lemma PeriodReturnAvailable(prices: seq<real>, w: int)
    ensures PeriodReturn(prices, w).Some? <==> w >= 1 && |prices| >= w + 1 && AllPositive(prices)
    ensures PeriodReturn(prices, w).Some? ==>
      PeriodReturn(prices, w).value == prices[|prices| - 1] / prices[|prices| - 1 - w] - 1.0
  {
  }

  /** calculate_period_returns. */
  method CalculatePeriodReturns<D>(prices: seq<real>, tradingDates: seq<D>, windows: seq<int>)
    returns (r: Result<map<string, Option<real>>>)
    ensures r.Err? <==> |prices| != |tradingDates|
    ensures r.Ok? ==> r.value.Keys == KeysOf(windows)
    ensures r.Ok? ==> forall w :: w in windows ==> r.value[WindowKey(w)] == PeriodReturn(prices, w)
  {
    if |prices| != |tradingDates| {
      return Err("Prices and dates must have same length");
    }
    if |prices| < 2 {
      UniformMap(windows, None, w => PeriodReturn(prices, w));
      return Ok(map k | k in KeysOf(windows) :: None);
    }
    var availability := WindowEnds(tradingDates, windows);
    ghost var ret := w => PeriodReturn(prices, w);
    var results: map<string, Option<real>> := map[];
    var i := 0;
    while i < |windows|
      invariant 0 <= i <= |windows|
      invariant results.Keys == KeysOf(windows[..i])
      invariant forall j :: 0 <= j < i ==> results[WindowKey(windows[j])] == ret(windows[j])
    {
      var window := windows[i];
      var name := WindowKey(window);
      assert availability[name] == WindowCount(|prices|, window);
      var value: Option<real>;
      if availability[name] > 0 {
        var ret := SimpleReturn(prices, window);
        value := if ret.Ok? then Some(ret.value) else None;
        assert value == PeriodReturn(prices, window);
      } else {
        value := None;
      }
      StoreWindow(results, windows, i, ret, value);
      results := results[name := value];
      i := i + 1;
    }
    assert windows[..i] == windows;
    return Ok(results);
  }
}
