/** JavaScript's Math.round, applied to exact non-floating quotients.
    Math.round(x) is the integer closest to x, halves rounding toward +infinity,
    that is floor(x + 1/2). Every metric of the tracker rounds a quotient n / d
    of integers with d > 0, which this module computes exactly in integers. */
module Rounding {

  /** Math.round on an exact real: floor(x + 1/2). */
  function Round(x: real): int {
    (x + 0.5).Floor
  }

  /** Math.round(n / d) in integer arithmetic: r is the integer whose
      half-open window [r - 1/2, r + 1/2) holds n / d. */
  function RoundDiv(n: int, d: int): (r: int)
    requires d > 0
    ensures d * (2 * r - 1) <= 2 * n < d * (2 * r + 1)
  {
    var q, m := (2 * n + d) / (2 * d), (2 * n + d) % (2 * d);
    assert 2 * n + d == (2 * d) * q + m && 0 <= m < 2 * d;
    assert d * (2 * q - 1) == (2 * d) * q - d;
    assert d * (2 * q + 1) == (2 * d) * q + d;
    q
  }

  /** The window of RoundDiv fixes its value: no other integer satisfies it. */
  lemma RoundDivUnique(n: int, d: int, r: int)
    requires d > 0
    requires d * (2 * r - 1) <= 2 * n < d * (2 * r + 1)
    ensures RoundDiv(n, d) == r
  {
    var q := RoundDiv(n, d);
    MulCancel(d, 2 * q - 1, 2 * r + 1);
    MulCancel(d, 2 * r - 1, 2 * q + 1);
  }

  /** A non-negative quotient rounds to 0 exactly when it is below 1/2. */
  lemma RoundDivZero(n: int, d: int)
    requires d > 0 && n >= 0
    ensures RoundDiv(n, d) == 0 <==> 2 * n < d
  {
    if 2 * n < d {
      RoundDivUnique(n, d, 0);
    } else {
      MulCancel(d, 1, 2 * RoundDiv(n, d) + 1);
    }
  }

  /** The integer computation agrees with Math.round of the exact quotient. */
  lemma RoundDivIsRound(n: int, d: int)
    requires d > 0
    ensures RoundDiv(n, d) == Round(n as real / d as real)
  {
    var r := RoundDiv(n, d);
    CastMul(d, 2 * r - 1);
    CastMul(d, 2 * r + 1);
    RoundOfWindow(n as real, d as real, r);
  }

  /** Real-valued form of the window: Math.round(n / d) is r. */
  lemma RoundOfWindow(n: real, d: real, r: int)
    requires d > 0.0
    requires d * ((2 * r - 1) as real) <= 2.0 * n < d * ((2 * r + 1) as real)
    ensures Round(n / d) == r
  {
    var x := n / d;
    assert n == d * x;
    RealCancel(d, (2 * r - 1) as real, 2.0 * x);
    RealCancelStrict(d, 2.0 * x, (2 * r + 1) as real);
    assert r as real <= x + 0.5 < r as real + 1.0;
  }

  /** An exact quotient rounds to itself. */
  lemma RoundDivExact(k: int, d: int)
    requires d > 0
    ensures RoundDiv(k * d, d) == k
  {
    assert d * (2 * k - 1) == 2 * (k * d) - d;
    assert d * (2 * k + 1) == 2 * (k * d) + d;
    RoundDivUnique(k * d, d, k);
  }

  /** Rounding a larger numerator over the same denominator never gives less. */
  lemma RoundDivMonotone(n1: int, n2: int, d: int)
    requires d > 0 && n1 <= n2
    ensures RoundDiv(n1, d) <= RoundDiv(n2, d)
  {
    var r1, r2 := RoundDiv(n1, d), RoundDiv(n2, d);
    MulCancel(d, 2 * r1 - 1, 2 * r2 + 1);
  }

  /** A quotient in [0, k] rounds into [0, k]. */
  lemma RoundDivBetween(n: int, d: int, k: int)
    requires d > 0 && 0 <= n <= k * d
    ensures 0 <= RoundDiv(n, d) <= k
  {
    var r := RoundDiv(n, d);
    MulCancel(d, -1, 2 * r + 1);
    MulCancel(d, 2 * r - 1, 2 * k + 1);
  }

  lemma MulCancel(d: int, a: int, b: int)
    requires d > 0 && d * a < d * b
    ensures a < b
  {
  }

  lemma RealCancel(d: real, a: real, b: real)
    requires d > 0.0 && d * a <= d * b
    ensures a <= b
  {
  }

  lemma RealCancelStrict(d: real, a: real, b: real)
    requires d > 0.0 && d * a < d * b
    ensures a < b
  {
  }

  lemma CastMul(a: int, b: int)
    ensures (a * b) as real == (a as real) * (b as real)
  {
  }
}
