// Floating-point operations the model leaves uninterpreted. Prices and ratios are
// reals; what the source delegates to `math`, `numpy`, `scipy` or to Python's float
// formatting is passed in as a function, so every statement about it holds for
// whatever those libraries compute.
module Numerics {

  /** `math.log`, `math.sqrt`, `np.std(ddof=1)`, `np.percentile`, `scipy.stats.norm.cdf`, `round`. */
  datatype MathOps = MathOps(
    ln: real -> real,
    sqrt: real -> real,
    sampleStd: seq<real> -> real,
    percentile: (seq<real>, real) -> real,
    normCdf: real -> real,
    roundTo: (real, nat) -> real)

  /** `f"{x:.{d}f}"` (`fixed`) and `f"{x:,.0f}"` (`grouped`). */
  datatype FormatOps = FormatOps(fixed: (real, nat) -> string, grouped: real -> string)

  function Abs(x: real): (r: real)
    ensures r >= 0.0 && (r == x || r == -x)
  {
    if x < 0.0 then -x else x
  }

  function Min(a: real, b: real): (r: real)
    ensures r <= a && r <= b && (r == a || r == b)
  {
    if a <= b then a else b
  }

  function Max(a: real, b: real): (r: real)
    ensures r >= a && r >= b && (r == a || r == b)
  {
    if a >= b then a else b
  }

  /** Python's `sum(xs)`. */
  function Sum(xs: seq<real>): real
  {
    if xs == [] then 0.0 else Sum(xs[..|xs| - 1]) + xs[|xs| - 1]
  }

  predicate AllPositive(xs: seq<real>) { forall i :: 0 <= i < |xs| ==> xs[i] > 0.0 }
  predicate AllNonNegative(xs: seq<real>) { forall i :: 0 <= i < |xs| ==> xs[i] >= 0.0 }

  lemma {:induction false} SumNonNegative(xs: seq<real>)
    requires AllNonNegative(xs)
    ensures Sum(xs) >= 0.0
  {
    if xs != [] { SumNonNegative(xs[..|xs| - 1]); }
  }

  lemma {:induction false} SumPositive(xs: seq<real>)
    requires AllPositive(xs) && xs != []
    ensures Sum(xs) > 0.0
  {
    if |xs| > 1 { SumPositive(xs[..|xs| - 1]); }
  }

  lemma {:induction false} SumAppend(xs: seq<real>, ys: seq<real>)
    ensures Sum(xs + ys) == Sum(xs) + Sum(ys)
    decreases |ys|
  {
    if ys == [] {
      assert xs + ys == xs;
    } else {
      assert (xs + ys)[..|xs + ys| - 1] == xs + ys[..|ys| - 1];
      SumAppend(xs, ys[..|ys| - 1]);
    }
  }

  /** A non-negative term is at most the sum. */
  lemma {:induction false} SumElementLe(xs: seq<real>, j: nat)
    requires AllNonNegative(xs) && j < |xs|
    ensures xs[j] <= Sum(xs)
  {
    var init := xs[..|xs| - 1];
    assert AllNonNegative(init);
    if j == |xs| - 1 {
      SumNonNegative(init);
    } else {
      SumElementLe(init, j);
    }
  }

  /** A prefix of non-negative values sums to no more than the whole. */
  lemma SumPrefixLe(xs: seq<real>, n: nat)
    requires AllNonNegative(xs) && n <= |xs|
    ensures Sum(xs[..n]) <= Sum(xs)
  {
    assert xs == xs[..n] + xs[n..];
    SumAppend(xs[..n], xs[n..]);
    SumNonNegative(xs[n..]);
  }

  /** `min(xs)`. */
  function SeqMin(xs: seq<real>): (m: real)
    requires xs != []
    ensures m in xs && forall i :: 0 <= i < |xs| ==> m <= xs[i]
    decreases |xs|
  {
    if |xs| == 1 then xs[0] else Min(SeqMin(xs[..|xs| - 1]), xs[|xs| - 1])
  }

  /** `max(xs)`. */
  function SeqMax(xs: seq<real>): (m: real)
    requires xs != []
    ensures m in xs && forall i :: 0 <= i < |xs| ==> xs[i] <= m
    decreases |xs|
  {
    if |xs| == 1 then xs[0] else Max(SeqMax(xs[..|xs| - 1]), xs[|xs| - 1])
  }
}
