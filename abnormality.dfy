// The z-score conventions shared by the insider-trading and search-interest
// abnormality detectors (sentiment/insider_trading.py, sentiment/google_trends.py):
// a z-score clamped to a cap and zero without spread, and the three-way
// classification of its magnitude.
module Abnormality {
  import opened Numerics

  /** `max(-cap, min(cap, (value - mean) / std))` when `std > 0`, else `0.0`. */
  function CappedZScore(value: real, mean: real, std: real, cap: real): (z: real)
    ensures Abs(z) <= Abs(cap)
    ensures std <= 0.0 ==> z == 0.0
    ensures std > 0.0 && cap >= 0.0 && -cap <= (value - mean) / std <= cap ==> z == (value - mean) / std
    ensures std > 0.0 && cap > 0.0 ==> (z > 0.0 <==> value > mean) && (z < 0.0 <==> value < mean)
  {
    if std > 0.0 then
      var raw := (value - mean) / std;
      SignOfQuotient(value - mean, std);
      Max(-cap, Min(cap, raw))
    else 0.0
  }

  lemma SignOfQuotient(a: real, b: real)
    requires b > 0.0
    ensures (a / b > 0.0 <==> a > 0.0) && (a / b < 0.0 <==> a < 0.0)
  {
    if a > 0.0 {
      assert a / b * b == a;
    } else if a < 0.0 {
      assert a / b * b == a;
    }
  }

  /** A larger observation never gets a smaller capped z-score. */
  lemma CappedZScoreMonotone(v1: real, v2: real, mean: real, std: real, cap: real)
    requires v1 <= v2 && std > 0.0
    ensures CappedZScore(v1, mean, std, cap) <= CappedZScore(v2, mean, std, cap)
  {
    assert (v2 - mean) / std - (v1 - mean) / std == (v2 - v1) / std;
    SignOfQuotient(v2 - v1, std);
  }

  const Normal := "normal"
  const Unusual := "unusual"
  const Extreme := "extreme"

  /** At most 1 is normal, at most 2 unusual, beyond that extreme. */
  function ZClass(absZ: real): (c: string)
    ensures c == Normal || c == Unusual || c == Extreme
  {
    if absZ <= 1.0 then Normal else if absZ <= 2.0 then Unusual else Extreme
  }

  /** The classes are ordered like the magnitudes they classify. */
  lemma ZClassMonotone(a: real, b: real)
    requires a <= b
    ensures ZClass(a) == Extreme ==> ZClass(b) == Extreme
    ensures ZClass(b) == Normal ==> ZClass(a) == Normal
  {
  }

  /** `min(1.0, n / full)`: full confidence from `full` observations on. */
  function Confidence(n: nat, full: real): (c: real)
    requires full > 0.0
    ensures 0.0 <= c <= 1.0
    ensures c == 1.0 <==> n as real >= full
  {
    Min(1.0, n as real / full)
  }
}
