/**
 * The scalar operations the lane detector borrows from Python: absolute value,
 * integer powers of the fall-off factor, the built-in `round` (round half to even)
 * and `int()` on a float (truncation toward zero). Floats are modelled as `real`.
 */
module Numeric {

  function Abs(x: real): (r: real)
    ensures r >= 0.0 && (r == x || r == -x)
  {
    if x < 0.0 then -x else x
  }

  function Pow(x: real, n: nat): real
  {
    if n == 0 then 1.0 else x * Pow(x, n - 1)
  }

  lemma MulNonNeg(a: real, b: real)
    requires a >= 0.0 && b >= 0.0
    ensures a * b >= 0.0
  {
  }

  lemma MulPos(a: real, b: real)
    requires a > 0.0 && b > 0.0
    ensures a * b > 0.0
  {
  }

  /** Scaling by a non-negative factor scales the absolute value. */
  lemma AbsScale(p: real, g: real)
    requires p >= 0.0
    ensures Abs(p * g) == p * Abs(g)
  {
    if g < 0.0 {
      MulNonNeg(p, -g);
      assert p * g == -(p * -g);
    } else {
      MulNonNeg(p, g);
    }
  }

  /** A factor in [0, 1] raised to any power stays in [0, 1]; it stays positive when the
      factor is, and drops below 1 from the first power on when the factor is below 1. */
  lemma {:induction false} PowInUnit(x: real, n: nat)
    requires 0.0 <= x <= 1.0
    ensures 0.0 <= Pow(x, n) <= 1.0
    ensures x > 0.0 ==> Pow(x, n) > 0.0
    ensures x < 1.0 && n > 0 ==> Pow(x, n) < 1.0
  {
    if n > 0 {
      PowInUnit(x, n - 1);
      var p := Pow(x, n - 1);
      MulNonNeg(x, p);
      MulNonNeg(1.0 - x, p);
      if x > 0.0 { MulPos(x, p); }
      if x < 1.0 {
        MulNonNeg(x, 1.0 - p);
        assert x * p <= x;
      }
    }
  }

  /** Bernoulli's inequality in the form (1 - r)^n * (1 + n * r) <= 1 for r in [0, 1]. */
  lemma {:induction false} PowBernoulli(r: real, n: nat)
    requires 0.0 <= r <= 1.0
    ensures Pow(1.0 - r, n) * (1.0 + n as real * r) <= 1.0
  {
    if n > 0 {
      PowBernoulli(r, n - 1);
      PowInUnit(1.0 - r, n - 1);
      BernoulliStep(Pow(1.0 - r, n - 1), (n - 1) as real, r);
      assert (n - 1) as real + 1.0 == n as real;
    }
  }

  /** One step of Bernoulli's inequality: p * (1 + k * r) <= 1 gives (1 - r) * p * (1 + (k + 1) * r) <= 1. */
  lemma BernoulliStep(p: real, k: real, r: real)
    requires p >= 0.0 && k >= 0.0 && 0.0 <= r <= 1.0 && p * (1.0 + k * r) <= 1.0
    ensures ((1.0 - r) * p) * (1.0 + (k + 1.0) * r) <= 1.0
  {
    MulNonNeg(k + 1.0, r * r);
    MulNonNeg(p, (k + 1.0) * (r * r));
    assert ((1.0 - r) * p) * (1.0 + (k + 1.0) * r) == p * (1.0 + k * r) - p * ((k + 1.0) * (r * r));
  }

  /** Python's `round` on a float: the nearest integer, ties going to the even one. */
  function Round(x: real): (r: int)
    ensures Abs(r as real - x) <= 0.5
    ensures Abs(r as real - x) == 0.5 ==> r % 2 == 0
  {
    var f := x.Floor;
    var d := x - f as real;
    if d < 0.5 then f
    else if d > 0.5 then f + 1
    else if f % 2 == 0 then f
    else f + 1
  }

  /** Rounding never reverses the order of its arguments. */
  lemma RoundMonotone(x: real, y: real)
    requires x <= y
    ensures Round(x) <= Round(y)
  {
    var fx, fy := x.Floor, y.Floor;
    assert fx <= fy;
    if fx < fy {
      assert Round(x) <= fx + 1 <= fy <= Round(y);
    } else {
      assert x - fx as real <= y - fy as real;
    }
  }

  /** Rounding an integer-valued float gives that integer back. */
  lemma RoundOfInt(n: int)
    ensures Round(n as real) == n
  {
    assert (n as real).Floor == n;
  }

  /** Python's `int()` on a float: drop the fraction, rounding toward zero. */
  function Trunc(x: real): (r: int)
    ensures Abs(r as real - x) < 1.0
    ensures Abs(r as real) <= Abs(x)
    ensures (x >= 0.0 ==> r >= 0) && (x <= 0.0 ==> r <= 0)
  {
    if x >= 0.0 then x.Floor else -((-x).Floor)
  }
}
