/**
 * Line segments with float coordinates and the exponential moving average
 * (EMA) `new = rate * measurement + (1 - rate) * old` that both the band
 * tracker and the two-pipeline fuser apply to them, element by element.
 */
module Smoothing {
  import opened Numeric

  /** A lane line as numpy's `[x1, y1, x2, y2]`: (x1, y1) the near end, (x2, y2) the far end. */
  datatype Seg = Seg(x1: real, y1: real, x2: real, y2: real)

  function Ema(rate: real, measurement: real, prev: real): real
  {
    rate * measurement + (1.0 - rate) * prev
  }

  /** The element-wise combination `a * p + b * q` of two segments. */
  function Blend(a: real, p: Seg, b: real, q: Seg): Seg
  {
    Seg(a * p.x1 + b * q.x1, a * p.y1 + b * q.y1, a * p.x2 + b * q.x2, a * p.y2 + b * q.y2)
  }

  /** `v` lies between `a` and `b`, in either order. */
  predicate Between(v: real, a: real, b: real)
  {
    (a <= v <= b) || (b <= v <= a)
  }

  /** Every coordinate of `r` lies between the matching coordinates of `a` and `b`. */
  predicate SegBetween(r: Seg, a: Seg, b: Seg)
  {
    Between(r.x1, a.x1, b.x1) && Between(r.y1, a.y1, b.y1) &&
    Between(r.x2, a.x2, b.x2) && Between(r.y2, a.y2, b.y2)
  }

  /** A convex combination lies between its two ends. */
  lemma ConvexIsBetween(a: real, x: real, y: real)
    requires 0.0 <= a <= 1.0
    ensures Between(a * x + (1.0 - a) * y, x, y)
  {
    if x <= y { ConvexBetween(a, x, y, x, y); } else { ConvexBetween(a, x, y, y, x); }
  }

  lemma BlendIsBetween(rate: real, m: Seg, p: Seg)
    ensures 0.0 <= rate <= 1.0 ==> SegBetween(Blend(rate, m, 1.0 - rate, p), m, p)
  {
    if 0.0 <= rate <= 1.0 {
      ConvexIsBetween(rate, m.x1, p.x1);
      ConvexIsBetween(rate, m.y1, p.y1);
      ConvexIsBetween(rate, m.x2, p.x2);
      ConvexIsBetween(rate, m.y2, p.y2);
    }
  }

  /** The EMA step; with a rate in [0, 1] every coordinate lands between measurement and previous value. */
  function EmaSeg(rate: real, measurement: Seg, prev: Seg): (r: Seg)
    ensures 0.0 <= rate <= 1.0 ==> SegBetween(r, measurement, prev)
  {
    BlendIsBetween(rate, measurement, prev);
    Blend(rate, measurement, 1.0 - rate, prev)
  }

  /** The segment EMA is the scalar EMA applied to each coordinate, so the results about
      `Ema` and `Repeated` hold for every stored lane coordinate. */
  lemma EmaSegIsEma(rate: real, measurement: Seg, prev: Seg)
    ensures EmaSeg(rate, measurement, prev) ==
            Seg(Ema(rate, measurement.x1, prev.x1), Ema(rate, measurement.y1, prev.y1),
                Ema(rate, measurement.x2, prev.x2), Ema(rate, measurement.y2, prev.y2))
  {
  }

  /** All four coordinates of `s` lie in [lo, hi]. */
  predicate SegWithin(s: Seg, lo: real, hi: real)
  {
    lo <= s.x1 <= hi && lo <= s.y1 <= hi && lo <= s.x2 <= hi && lo <= s.y2 <= hi
  }

  /** A convex combination of two values in [lo, hi] stays in [lo, hi]. */
  lemma ConvexBetween(a: real, x: real, y: real, lo: real, hi: real)
    requires 0.0 <= a <= 1.0 && lo <= x <= hi && lo <= y <= hi
    ensures lo <= a * x + (1.0 - a) * y <= hi
  {
    MulNonNeg(a, x - lo);
    MulNonNeg(1.0 - a, y - lo);
    MulNonNeg(a, hi - x);
    MulNonNeg(1.0 - a, hi - y);
  }

  /** The smoothed value lies between the measurement and the previous value. */
  lemma EmaBetween(rate: real, measurement: real, prev: real, lo: real, hi: real)
    requires 0.0 <= rate <= 1.0
    requires lo <= measurement <= hi && lo <= prev <= hi
    ensures lo <= Ema(rate, measurement, prev) <= hi
  {
    ConvexBetween(rate, measurement, prev, lo, hi);
  }

  /** Smoothing a segment keeps every coordinate inside a range both inputs respect. */
  lemma EmaSegWithin(rate: real, measurement: Seg, prev: Seg, lo: real, hi: real)
    requires 0.0 <= rate <= 1.0
    requires SegWithin(measurement, lo, hi) && SegWithin(prev, lo, hi)
    ensures SegWithin(EmaSeg(rate, measurement, prev), lo, hi)
  {
    var r := EmaSeg(rate, measurement, prev);
    assert lo <= r.x1 <= hi by { ConvexBetween(rate, measurement.x1, prev.x1, lo, hi); }
    assert lo <= r.y1 <= hi by { ConvexBetween(rate, measurement.y1, prev.y1, lo, hi); }
    assert lo <= r.x2 <= hi by { ConvexBetween(rate, measurement.x2, prev.x2, lo, hi); }
    assert lo <= r.y2 <= hi by { ConvexBetween(rate, measurement.y2, prev.y2, lo, hi); }
  }

  /** The state after feeding the same measurement `n` frames in a row. */
  function Repeated(rate: real, measurement: real, start: real, n: nat): real
  {
    if n == 0 then start else Ema(rate, measurement, Repeated(rate, measurement, start, n - 1))
  }

  /** Closed form of a constant-input EMA: the gap to the measurement shrinks by (1 - rate) per frame. */
  lemma {:induction false} RepeatedClosedForm(rate: real, measurement: real, start: real, n: nat)
    ensures Repeated(rate, measurement, start, n)
         == measurement - Pow(1.0 - rate, n) * (measurement - start)
  {
    if n > 0 {
      RepeatedClosedForm(rate, measurement, start, n - 1);
      var p := Pow(1.0 - rate, n - 1);
      calc {
        Repeated(rate, measurement, start, n);
        rate * measurement + (1.0 - rate) * (measurement - p * (measurement - start));
        measurement - ((1.0 - rate) * p) * (measurement - start);
      }
    }
  }

  /** A value whose gap to `m` is the gap from `s` scaled by a factor in [0, 1] is no farther
      from `m` than `s`, and strictly nearer when the factor is below 1 and `s` differs from `m`. */
  lemma ScaledGapCloser(v: real, m: real, s: real, p: real)
    requires 0.0 <= p <= 1.0 && v - m == -(p * (m - s))
    ensures Abs(v - m) <= Abs(s - m)
    ensures p < 1.0 && s != m ==> Abs(v - m) < Abs(s - m)
  {
    var g := m - s;
    AbsScale(p, g);
    assert Abs(v - m) == p * Abs(g);
    assert Abs(s - m) == Abs(g);
    assert (1.0 - p) * Abs(g) == Abs(g) - p * Abs(g);
    MulNonNeg(1.0 - p, Abs(g));
    if p < 1.0 && s != m {
      MulPos(1.0 - p, Abs(g));
    }
  }

  /** With a rate in (0, 1], a constant measurement is approached and never overshot. */
  lemma RepeatedConverges(rate: real, measurement: real, start: real, n: nat)
    requires 0.0 < rate <= 1.0
    ensures Abs(Repeated(rate, measurement, start, n) - measurement) <= Abs(start - measurement)
    ensures n > 0 && start != measurement && rate < 1.0 ==>
              Abs(Repeated(rate, measurement, start, n) - measurement) < Abs(start - measurement)
  {
    RepeatedClosedForm(rate, measurement, start, n);
    PowInUnit(1.0 - rate, n);
    ScaledGapCloser(Repeated(rate, measurement, start, n), measurement, start, Pow(1.0 - rate, n));
  }

  lemma SmallAfterScaling(p: real, g: real, c: real, eps: real)
    requires p >= 0.0 && g >= 0.0 && c > 0.0 && p * c <= 1.0 && g < eps * c
    ensures p * g < eps
  {
    MulNonNeg(1.0 - p * c, g);
    assert (p * g) * c == (p * c) * g;
    if p * g >= eps {
      MulNonNeg(p * g - eps, c);
    }
  }

  lemma EnoughFrames(g: real, rate: real, eps: real) returns (n: nat)
    requires g >= 0.0 && rate > 0.0 && eps > 0.0
    ensures g < eps * (1.0 + n as real * rate)
  {
    var q := g / (rate * eps);
    MulPos(rate, eps);
    assert q * (rate * eps) == g;
    n := q.Floor + 1;
    assert n as real > q;
    MulPos(n as real - q, rate * eps);
    assert eps * (1.0 + n as real * rate) == eps + n as real * (rate * eps);
  }

  /** Convergence: with a rate in (0, 1], a constant measurement is approached to within any
      tolerance after finitely many frames. */
  lemma RepeatedWithin(rate: real, measurement: real, start: real, eps: real)
    requires 0.0 < rate <= 1.0 && eps > 0.0
    ensures exists n: nat :: Abs(Repeated(rate, measurement, start, n) - measurement) < eps
  {
    var n := EnoughFrames(Abs(start - measurement), rate, eps);
    RepeatedWithinAfter(rate, measurement, start, eps, n);
  }

  /** `n` frames suffice once the starting gap is below eps * (1 + n * rate). */
  lemma RepeatedWithinAfter(rate: real, measurement: real, start: real, eps: real, n: nat)
    requires 0.0 < rate <= 1.0 && Abs(start - measurement) < eps * (1.0 + n as real * rate)
    ensures Abs(Repeated(rate, measurement, start, n) - measurement) < eps
  {
    RepeatedGap(rate, measurement, start, n);
    ShrunkGapBelow(rate, measurement, start, eps, n);
  }

  /** After `n` frames the gap to the measurement is the starting gap scaled by (1 - rate)^n. */
  lemma RepeatedGap(rate: real, measurement: real, start: real, n: nat)
    requires 0.0 < rate <= 1.0
    ensures Abs(Repeated(rate, measurement, start, n) - measurement) == Pow(1.0 - rate, n) * Abs(start - measurement)
  {
    RepeatedClosedForm(rate, measurement, start, n);
    PowInUnit(1.0 - rate, n);
    ScaledGapValue(Repeated(rate, measurement, start, n), measurement, start, Pow(1.0 - rate, n));
  }

  /** By Bernoulli's inequality the factor (1 - rate)^n is at most 1 / (1 + n * rate), which takes
      a starting gap below eps * (1 + n * rate) below eps. */
  lemma ShrunkGapBelow(rate: real, measurement: real, start: real, eps: real, n: nat)
    requires 0.0 < rate <= 1.0 && Abs(start - measurement) < eps * (1.0 + n as real * rate)
    ensures Pow(1.0 - rate, n) * Abs(start - measurement) < eps
  {
    MulNonNeg(n as real, rate);
    PowInUnit(1.0 - rate, n);
    PowBernoulli(rate, n);
    SmallAfterScaling(Pow(1.0 - rate, n), Abs(start - measurement), 1.0 + n as real * rate, eps);
  }

  lemma ScaledGapValue(v: real, m: real, s: real, p: real)
    requires p >= 0.0 && v - m == -(p * (m - s))
    ensures Abs(v - m) == p * Abs(s - m)
  {
    AbsScale(p, m - s);
    assert Abs(s - m) == Abs(m - s);
  }
}
