// Log returns and annualised realised volatility
// (analysis/calculations/volatility.py). `ln`, `sqrt` and the sample standard
// deviation are the uninterpreted operations of `Numerics.MathOps`.
module Volatility {
  import opened Wrappers
  import opened Text
  import opened Numerics

  /** The dictionary key `f"{w}D_annualized"`. */
  function VolKey(w: int): string { IntToString(w) + "D_annualized" }

  lemma VolKeyInjective(a: int, b: int)
    requires VolKey(a) == VolKey(b)
    ensures a == b
  {
    SuffixedIntInjective(a, b, "D_annualized");
  }

  function VolKeysOf(windows: seq<int>): (ks: set<string>)
    ensures forall w :: w in windows ==> VolKey(w) in ks
  {
    if windows == [] then {} else VolKeysOf(windows[..|windows| - 1]) + {VolKey(windows[|windows| - 1])}
  }

  /** log_returns: np.diff(np.log(prices)). */
  function LogReturns(ops: MathOps, prices: seq<real>): (r: Result<seq<real>>)
    ensures r.Ok? <==> |prices| >= 2 && AllPositive(prices)
    ensures r.Ok? ==> |r.value| == |prices| - 1
    ensures r.Ok? ==> forall i :: 0 <= i < |r.value| ==>
      r.value[i] == ops.ln(prices[i + 1]) - ops.ln(prices[i])
  {
    if |prices| < 2 then Err("Insufficient data: need at least 2 prices")
    else if !AllPositive(prices) then Err("Zero or negative prices not allowed")
    else Ok(seq(|prices| - 1, i requires 0 <= i < |prices| - 1 => ops.ln(prices[i + 1]) - ops.ln(prices[i])))
  }

  /** realized_vol: std(last `window` returns, ddof=1) * sqrt(annualize). */
  function RealizedVol(ops: MathOps, logRet: seq<real>, window: int, annualize: int): (r: Result<real>)
    ensures r.Ok? <==> 2 <= window <= |logRet|
    ensures r.Ok? ==> r.value == ops.sampleStd(logRet[|logRet| - window..]) * ops.sqrt(annualize as real)
  {
    if |logRet| < window then Err("Insufficient data for window")
    else if window <= 1 then Err("Window must be > 1 for standard deviation")
    else Ok(ops.sampleStd(logRet[|logRet| - window..]) * ops.sqrt(annualize as real))
  }

  /** Only the most recent `window` returns matter. */
  lemma RealizedVolUsesLastWindow(ops: MathOps, a: seq<real>, b: seq<real>, window: int, annualize: int)
    requires 2 <= window <= |a| && window <= |b|
    requires a[|a| - window..] == b[|b| - window..]
    ensures RealizedVol(ops, a, window, annualize) == RealizedVol(ops, b, window, annualize)
  {
    var ra, rb := RealizedVol(ops, a, window, annualize), RealizedVol(ops, b, window, annualize);
    assert ra.Ok? && rb.Ok?;
    assert ra.value == rb.value;
  }

  /** The annualised sample deviation of each run of `window` consecutive returns. */
  function RollingSeries(ops: MathOps, logRet: seq<real>, window: nat, annualize: int): (r: seq<real>)
    requires window <= |logRet|
    ensures |r| == |logRet| - window + 1
  {
    seq(|logRet| - window + 1, j requires 0 <= j <= |logRet| - window => RollAt(ops, logRet, window, annualize, j))
  }

  /** The annualised sample deviation of the run of `window` returns starting at `j`. */
  function RollAt(ops: MathOps, logRet: seq<real>, window: nat, annualize: int, j: nat): real
    requires j + window <= |logRet|
  {
    ops.sampleStd(logRet[j..j + window]) * ops.sqrt(annualize as real)
  }

  /** rolling_volatility: one value per window ending at i = window-1 .. |logRet|-1. */
  method RollingVolatility(ops: MathOps, logRet: seq<real>, window: nat, annualize: int)
    returns (r: Result<seq<real>>)
    ensures r.Err? <==> |logRet| < window
    ensures r.Ok? ==> r.value == RollingSeries(ops, logRet, window, annualize)
  {
    if |logRet| < window {
      return Err("Insufficient data for window");
    }
    var vols: seq<real> := [];
    var i := window - 1;
    while i < |logRet|
      invariant window - 1 <= i <= |logRet|
      invariant |vols| == i - window + 1
      invariant forall j :: 0 <= j < |vols| ==> vols[j] == RollAt(ops, logRet, window, annualize, j)
    {
      var windowReturns := logRet[i - window + 1..i + 1];
      vols := vols + [ops.sampleStd(windowReturns) * ops.sqrt(annualize as real)];
      i := i + 1;
    }
    return Ok(vols);
  }

  /** The last rolling value is realized_vol over the same window. */
  lemma RollingLastIsRealized(ops: MathOps, logRet: seq<real>, window: nat, annualize: int)
    requires 2 <= window <= |logRet|
    ensures RollingSeries(ops, logRet, window, annualize)[|logRet| - window] ==
      RealizedVol(ops, logRet, window, annualize).value
  {
    assert logRet[|logRet| - window..|logRet| - window + window] == logRet[|logRet| - window..];
  }

  /** The value calculate_volatility_metrics stores for window `w`. */
  function VolatilityFor(ops: MathOps, prices: seq<real>, w: int): Option<real>
  {
    if |prices| < 2 then None
    else match LogReturns(ops, prices)
      case Err(_) => None
      case Ok(lr) => WindowVol(ops, lr, w)
  }

  /** One window's entry, given the log returns: absent when the window is longer than them
      or the realised volatility raises. */
  function WindowVol(ops: MathOps, lr: seq<real>, w: int): Option<real>
  {
    if |lr| >= w then
      (match RealizedVol(ops, lr, w, 252) case Ok(v) => Some(v) case Err(_) => None)
    else None
  }

  /** Window w has a value exactly when the prices are positive and give at least
      max(w, 2) log returns; the value is then the annualised std of the last w returns. */
  lemma VolatilityAvailable(ops: MathOps, prices: seq<real>, w: int)
    ensures VolatilityFor(ops, prices, w).Some? <==>
      AllPositive(prices) && 2 <= w && w <= |prices| - 1
    ensures VolatilityFor(ops, prices, w).Some? ==>
      VolatilityFor(ops, prices, w).value ==
        ops.sampleStd(LogReturns(ops, prices).value[|prices| - 1 - w..]) * ops.sqrt(252.0)
  {
  }

  /** calculate_volatility_metrics. */
  method CalculateVolatilityMetrics(ops: MathOps, prices: seq<real>, windows: seq<int>)
    returns (results: map<string, Option<real>>)
    ensures results.Keys == VolKeysOf(windows)
    ensures forall w :: w in windows ==> results[VolKey(w)] == VolatilityFor(ops, prices, w)
  {
    if |prices| < 2 {
      NoneEverywhere(ops, prices, windows);
      return map k | k in VolKeysOf(windows) :: None;
    }
    var lr := LogReturns(ops, prices);
    if lr.Err? {
      NoneEverywhere(ops, prices, windows);
      return map k | k in VolKeysOf(windows) :: None;
    }
    var logRet := lr.value;
    ghost var vol := w => WindowVol(ops, logRet, w);
    results := map[];
    var i := 0;
    while i < |windows|
      invariant 0 <= i <= |windows|
      invariant results.Keys == VolKeysOf(windows[..i])
      invariant forall j :: 0 <= j < i ==> results[VolKey(windows[j])] == vol(windows[j])
    {
      var window := windows[i];
      var name := VolKey(window);
      var value: Option<real>;
      if |logRet| >= window {
        var v := RealizedVol(ops, logRet, window, 252);
        value := if v.Ok? then Some(v.value) else None;
      } else {
        value := None;
      }
      StoreVol(results, windows, i, vol, value);
      results := results[name := value];
      i := i + 1;
    }
    assert windows[..i] == windows;
    VolatilityFromReturns(ops, prices, logRet, windows, vol);
  }

  /** Without two prices or with a price that is not positive every window is absent. */
  lemma NoneEverywhere(ops: MathOps, prices: seq<real>, windows: seq<int>)
    requires |prices| < 2 || LogReturns(ops, prices).Err?
    ensures forall w :: w in windows ==> (map k | k in VolKeysOf(windows) :: None)[VolKey(w)] == VolatilityFor(ops, prices, w)
  {
  }

  /** Storing `f(w)` for window `i` keeps every earlier window's value and extends the keys. */
  lemma StoreVol(results: map<string, Option<real>>, windows: seq<int>, i: nat, f: int -> Option<real>, value: Option<real>)
    requires i < |windows| && value == f(windows[i])
    requires results.Keys == VolKeysOf(windows[..i])
    requires forall j :: 0 <= j < i ==> results[VolKey(windows[j])] == f(windows[j])
    ensures results[VolKey(windows[i]) := value].Keys == VolKeysOf(windows[..i + 1])
    ensures forall j :: 0 <= j < i + 1 ==> results[VolKey(windows[i]) := value][VolKey(windows[j])] == f(windows[j])
  {
    assert windows[..i + 1][..i] == windows[..i];
    var updated := results[VolKey(windows[i]) := value];
    forall j | 0 <= j < i + 1 ensures updated[VolKey(windows[j])] == f(windows[j]) {
      if VolKey(windows[j]) == VolKey(windows[i]) { VolKeyInjective(windows[j], windows[i]); }
    }
  }

  /** With the log returns at hand each window's entry is the one VolatilityFor gives. */
  lemma VolatilityFromReturns(ops: MathOps, prices: seq<real>, logRet: seq<real>, windows: seq<int>, f: int -> Option<real>)
    requires |prices| >= 2 && LogReturns(ops, prices) == Ok(logRet)
    requires forall w :: f(w) == WindowVol(ops, logRet, w)
    ensures forall w :: VolatilityFor(ops, prices, w) == f(w)
  {
  }
}
