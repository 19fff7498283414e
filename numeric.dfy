/** Exact arithmetic standing in for the engine's floating-point values: a
    non-negative ratio of naturals, and rounding to the nearest integer with
    halves rounded away from zero. */
module Numeric {

  type Pos = n: nat | n > 0 witness 1

  /** The non-negative rational `num / den`. */
  datatype Ratio = Ratio(num: nat, den: Pos)

  const Zero := Ratio(0, 1)

  /** `x <= y` as rationals. */
  predicate AtMost(x: Ratio, y: Ratio) {
    x.num * y.den <= y.num * x.den
  }

  /** `x == y` as rationals. */
  predicate SameValue(x: Ratio, y: Ratio) {
    x.num * y.den == y.num * x.den
  }

  /** `x <= c` for a natural `c`. */
  predicate AtMostNat(x: Ratio, c: nat) {
    x.num <= c * x.den
  }

  /** The nearest integer to `n / d`, a half rounding up: the unique `r` with
      `r - 1/2 <= n/d < r + 1/2`. */
  function Round(n: nat, d: Pos): (r: nat)
    ensures 2 * r * d <= 2 * n + d < 2 * (r + 1) * d
  {
    var q := (2 * n + d) / (2 * d);
    DivBounds(2 * n + d, 2 * d);
    q
  }

  /** n/d rounds to 0 exactly when it is below one half. */
  lemma RoundZero(n: nat, d: Pos)
    ensures Round(n, d) == 0 <==> 2 * n < d
  {
    var r := Round(n, d);
    if r > 0 {
      assert r * d >= d by {
        var k := r - 1;
        assert r * d == k * d + d;
      }
    }
  }

  function RoundRatio(x: Ratio): (r: nat)
    ensures 2 * r * x.den <= 2 * x.num + x.den < 2 * (r + 1) * x.den
  {
    Round(x.num, x.den)
  }

  lemma DivBounds(a: nat, b: Pos)
    ensures (a / b) * b <= a < (a / b + 1) * b
  {
  }

  lemma MulMono(a: int, b: int, d: nat)
    ensures a <= b ==> a * d <= b * d
  {
  }

  lemma CancelLt(a: int, b: int, d: nat)
    requires a * d < b * d
    ensures a < b
  {
    MulMono(b, a, d);
  }

  /** Rounding an exact integer gives that integer. */
  lemma RoundExact(k: nat, d: Pos)
    ensures Round(k * d, d) == k
  {
    var r := Round(k * d, d);
    var d2 := 2 * d;
    assert r * d2 < (k + 1) * d2;
    CancelLt(r, k + 1, d2);
    assert k * d2 < (r + 1) * d2;
    CancelLt(k, r + 1, d2);
  }

  /** A ratio at most `c` rounds to at most `c`. */
  lemma RoundAtMost(x: Ratio, c: nat)
    requires AtMostNat(x, c)
    ensures RoundRatio(x) <= c
  {
    var r := RoundRatio(x);
    var d2 := 2 * x.den;
    assert r * d2 < (c + 1) * d2;
    CancelLt(r, c + 1, d2);
  }

  /** Rounding is monotone. */
  lemma RoundMonotone(x: Ratio, y: Ratio)
    requires AtMost(x, y)
    ensures RoundRatio(x) <= RoundRatio(y)
  {
    var rx, ry := RoundRatio(x), RoundRatio(y);
    var dd := 2 * x.den * y.den;
    calc {
      rx * dd;
    ==
      (2 * rx * x.den) * y.den;
    <= { MulMono(2 * rx * x.den, 2 * x.num + x.den, y.den); }
      (2 * x.num + x.den) * y.den;
    ==
      2 * (x.num * y.den) + x.den * y.den;
    <=
      2 * (y.num * x.den) + x.den * y.den;
    ==
      (2 * y.num + y.den) * x.den;
    < { MulMono(2 * y.num + y.den + 1, 2 * (ry + 1) * y.den, x.den); }
      (2 * (ry + 1) * y.den) * x.den;
    ==
      (ry + 1) * dd;
    }
    CancelLt(rx, ry + 1, dd);
  }
}
