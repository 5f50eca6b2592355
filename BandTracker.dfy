/**
 * The multi-band lane tracker (LaneAnnotationV2.py). The region below row 0.7 of
 * the frame is searched in 18 stacked bands, from the nearest upward. For each
 * band a left and a right tapered window is masked, the line extractor is asked
 * for a line in each, and a found line is blended into the stored line of that
 * band and side with an exponential moving average (rate 0.8). A miss leaves the
 * stored line as it was. The next band sits directly above, is shorter and
 * narrower by the fall-off factor, and its windows are centred on the stored near
 * x-coordinate of the band just processed. Steering is the mean line centre over
 * bands 2..7, as a fraction of the frame width.
 *
 * The extractor (`FindLaneLineFit`, which is not part of this model) is a
 * parameter: given a window and the stored line it returns `Some(line)` or `None`
 * (the source's `IndexError`).
 */
module BandTracker {
  import opened Wrappers
  import opened Numeric
  import opened Smoothing
  import opened Helpers

  const MeasurementBands: nat := 18
  /** Bands whose lines enter the steering value, inclusive at both ends. */
  const TestBandMin: nat := 2
  const TestBandMax: nat := 7
  const BottomPointMultiplier: real := 0.7
  const BandHeight: real := 0.04
  const BandWidth: real := 0.16
  const ScaleFalloff: real := 0.9
  const TaperOuter: real := 0.01
  const TaperInner: real := -0.005
  const LaneUpdateRate: real := 0.8
  /** Every stored coordinate starts at 640 (`np.ones(...) * 640`). */
  const InitialCoord: real := 640.0

  /** The loop variables currentTop, currentBottom, currentLL, currentLR, currentRL, currentRR. */
  datatype Cursor = Cursor(top: real, bottom: real, ll: real, lr: real, rl: real, rr: real)

  /** The extractor: a window and the stored line in, a measured line or a miss out. */
  type Detector = (MaskParams, Seg) -> Option<Seg>

  /** Band 0's placement: rows [0.66, 0.7], windows [0, 0.48] and [0.52, 1.0]. */
  function InitialCursor(): (c: Cursor)
    ensures c.top < c.bottom && c.ll < c.lr < c.rl < c.rr
  {
    Cursor(BottomPointMultiplier - BandHeight, BottomPointMultiplier, 0.0, 0.48, 0.52, 1.0)
  }

  /** The left window of band `b`: outer taper on its left edge, inner taper on its right. */
  function LeftMask(c: Cursor, b: nat): (m: MaskParams)
    ensures m.top == c.top && m.bottom == c.bottom && m.left == c.ll && m.right == c.lr
    ensures 0.0 < m.leftTaper <= TaperOuter && TaperInner <= m.rightTaper < 0.0
  {
    PowInUnit(ScaleFalloff, b);
    MaskParams(c.top, c.bottom, c.ll, c.lr, TaperOuter * Pow(ScaleFalloff, b), TaperInner * Pow(ScaleFalloff, b))
  }

  /** The right window of band `b`: the mirrored taper assignment. */
  function RightMask(c: Cursor, b: nat): (m: MaskParams)
    ensures m.top == c.top && m.bottom == c.bottom && m.left == c.rl && m.right == c.rr
    ensures TaperInner <= m.leftTaper < 0.0 && 0.0 < m.rightTaper <= TaperOuter
  {
    PowInUnit(ScaleFalloff, b);
    MaskParams(c.top, c.bottom, c.rl, c.rr, TaperInner * Pow(ScaleFalloff, b), TaperOuter * Pow(ScaleFalloff, b))
  }

  /** The tapers fall off geometrically: band 0 uses the configured tapers, and each band's
      tapers are 0.9 times those of the band below it, for both windows. */
  lemma MaskTapersFallOff(c: Cursor, d: Cursor, b: nat)
    ensures LeftMask(c, 0).leftTaper == TaperOuter && LeftMask(c, 0).rightTaper == TaperInner
    ensures RightMask(c, 0).leftTaper == TaperInner && RightMask(c, 0).rightTaper == TaperOuter
    ensures LeftMask(d, b + 1).leftTaper == ScaleFalloff * LeftMask(c, b).leftTaper
    ensures LeftMask(d, b + 1).rightTaper == ScaleFalloff * LeftMask(c, b).rightTaper
    ensures RightMask(d, b + 1).leftTaper == ScaleFalloff * RightMask(c, b).leftTaper
    ensures RightMask(d, b + 1).rightTaper == ScaleFalloff * RightMask(c, b).rightTaper
  {
    assert Pow(ScaleFalloff, b + 1) == ScaleFalloff * Pow(ScaleFalloff, b);
  }

  /** The window of side `s` (0 left, 1 right). */
  function SideMask(c: Cursor, b: nat, s: nat): MaskParams
  {
    if s == 0 then LeftMask(c, b) else RightMask(c, b)
  }

  /** The placement of band `b + 1`, computed after band `b` from its stored lines. */
  function NextCursor(c: Cursor, b: nat, left: Seg, right: Seg, width: real): (n: Cursor)
    requires width > 0.0
    ensures n.bottom == c.top && n.top < n.bottom
    ensures n.ll < n.lr && n.rl < n.rr
  {
    PowInUnit(ScaleFalloff, b);
    var half := BandWidth * Pow(ScaleFalloff, b);
    Cursor(c.top - BandHeight * Pow(ScaleFalloff, b), c.top,
           left.x1 / width - half, left.x1 / width + half,
           right.x1 / width - half, right.x1 / width + half)
  }

  /** One stored line after one extraction: smoothed toward a found line, kept on a miss. */
  function Track(prev: Seg, measured: Option<Seg>): (r: Seg)
    ensures measured.None? ==> r == prev
    ensures measured.Some? ==> SegBetween(r, measured.value, prev)
  {
    match measured
    case None => prev
    case Some(m) => EmaSeg(LaneUpdateRate, m, prev)
  }

  /** `cursors` is the placement sequence of one sweep whose stored lines are `lefts`/`rights`. */
  predicate Chained(cursors: seq<Cursor>, lefts: seq<Seg>, rights: seq<Seg>, width: real)
    requires width > 0.0
  {
    |cursors| > 0 && cursors[0] == InitialCursor() &&
    |lefts| >= |cursors| - 1 && |rights| >= |cursors| - 1 &&
    forall b :: 0 <= b < |cursors| - 1 ==>
      cursors[b + 1] == NextCursor(cursors[b], b, lefts[b], rights[b], width)
  }

  class LaneTracker {
    /** laneCoords[band, side] with side 0 left and 1 right. */
    var laneCoords: array2<Seg>

    ghost predicate Valid()
      reads this
    {
      laneCoords.Length0 == MeasurementBands && laneCoords.Length1 == 2
    }

    /** The stored lines of one side, nearest band first. */
    function Side(s: nat): (r: seq<Seg>)
      requires Valid() && s < 2
      reads this, laneCoords
      ensures |r| == MeasurementBands
      ensures forall b :: 0 <= b < MeasurementBands ==> r[b] == laneCoords[b, s]
    {
      seq(MeasurementBands, b requires 0 <= b < laneCoords.Length0 && s < laneCoords.Length1 reads this, laneCoords => laneCoords[b, s])
    }

    constructor ()
      ensures Valid() && fresh(laneCoords)
      ensures forall b, s :: 0 <= b < MeasurementBands && 0 <= s < 2 ==>
                laneCoords[b, s] == Seg(InitialCoord, InitialCoord, InitialCoord, InitialCoord)
    {
      laneCoords := new Seg[MeasurementBands, 2]((b, s) => Seg(InitialCoord, InitialCoord, InitialCoord, InitialCoord));
    }

    /** The body of the band loop: extract and track both sides of band `b`; no other band changes. */
    method ProcessBand(b: nat, c: Cursor, detect: Detector)
      requires Valid() && b < MeasurementBands
      modifies laneCoords
      ensures forall s :: 0 <= s < 2 ==>
                laneCoords[b, s] == Track(old(laneCoords[b, s]), detect(SideMask(c, b, s), old(laneCoords[b, s])))
      ensures forall k, s :: 0 <= k < MeasurementBands && 0 <= s < 2 && k != b ==>
                laneCoords[k, s] == old(laneCoords[k, s])
    {
      var measuredL := detect(LeftMask(c, b), laneCoords[b, 0]);
      if measuredL.Some? {
        laneCoords[b, 0] := EmaSeg(LaneUpdateRate, measuredL.value, laneCoords[b, 0]);
      }
      var measuredR := detect(RightMask(c, b), laneCoords[b, 1]);
      if measuredR.Some? {
        laneCoords[b, 1] := EmaSeg(LaneUpdateRate, measuredR.value, laneCoords[b, 1]);
      }
    }

    /** One pass of the frame loop: sweep all bands, nearest first, then compute the steering value. */
    method ProcessFrame(width: nat, detect: Detector) returns (cursors: seq<Cursor>, steering: real)
      requires Valid() && width > 0
      modifies laneCoords
      ensures Valid()
      ensures |cursors| == MeasurementBands
      ensures Chained(cursors, Side(0), Side(1), width as real)
      ensures forall b, s :: 0 <= b < MeasurementBands && 0 <= s < 2 ==>
                laneCoords[b, s] == Track(old(laneCoords[b, s]), detect(SideMask(cursors[b], b, s), old(laneCoords[b, s])))
      ensures steering == SteeringOf(Side(0), Side(1), width as real)
    {
      var w := width as real;
      var c := InitialCursor();
      cursors := [];
      for b := 0 to MeasurementBands
        invariant |cursors| == b
        invariant b == 0 ==> c == InitialCursor()
        invariant b > 0 ==> cursors[0] == InitialCursor()
        invariant b > 0 ==> c == NextCursor(cursors[b - 1], b - 1, laneCoords[b - 1, 0], laneCoords[b - 1, 1], w)
        invariant forall k :: 0 <= k < b - 1 ==>
                    cursors[k + 1] == NextCursor(cursors[k], k, laneCoords[k, 0], laneCoords[k, 1], w)
        invariant forall k, s :: 0 <= k < b && 0 <= s < 2 ==>
                    laneCoords[k, s] == Track(old(laneCoords[k, s]), detect(SideMask(cursors[k], k, s), old(laneCoords[k, s])))
        invariant forall k, s :: b <= k < MeasurementBands && 0 <= s < 2 ==> laneCoords[k, s] == old(laneCoords[k, s])
      {
        cursors := cursors + [c];
        ProcessBand(b, c, detect);
        c := NextCursor(c, b, laneCoords[b, 0], laneCoords[b, 1], w);
      }
      steering := SteeringOf(Side(0), Side(1), w);
    }
  }

  /** Retain-on-miss and convexity: a missed band keeps its line exactly; a found one moves
      80% of the way to the measurement, so a range holding both holds the result. */
  lemma TrackKeepsRange(prev: Seg, measured: Option<Seg>, lo: real, hi: real)
    requires SegWithin(prev, lo, hi)
    requires measured.Some? ==> SegWithin(measured.value, lo, hi)
    ensures measured.None? ==> Track(prev, measured) == prev
    ensures measured.Some? ==>
              Track(prev, measured) == Blend(LaneUpdateRate, measured.value, 1.0 - LaneUpdateRate, prev)
    ensures SegWithin(Track(prev, measured), lo, hi)
  {
    if measured.Some? {
      EmaSegWithin(LaneUpdateRate, measured.value, prev, lo, hi);
    }
  }

  /** The top row of band `b` in closed form: 0.26 + 0.4 * 0.9^b. */
  function BandTop(b: nat): real
  {
    0.26 + 0.4 * Pow(ScaleFalloff, b)
  }

  lemma {:induction false} ChainedTops(cursors: seq<Cursor>, lefts: seq<Seg>, rights: seq<Seg>, width: real, b: nat)
    requires width > 0.0 && Chained(cursors, lefts, rights, width) && b < |cursors|
    ensures cursors[b].top == BandTop(b)
    ensures cursors[b].bottom == if b == 0 then BottomPointMultiplier else BandTop(b - 1)
  {
    if b > 0 {
      ChainedTops(cursors, lefts, rights, width, b - 1);
      assert cursors[b] == NextCursor(cursors[b - 1], b - 1, lefts[b - 1], rights[b - 1], width);
      assert Pow(ScaleFalloff, b) == ScaleFalloff * Pow(ScaleFalloff, b - 1);
    }
  }

  /** Bands are contiguous and climb: each band starts where the previous one ended, band
      b + 1 is BandHeight * 0.9^b tall, and every band lies within rows (0.26, 0.7]. */
  lemma BandsContiguous(cursors: seq<Cursor>, lefts: seq<Seg>, rights: seq<Seg>, width: real)
    requires width > 0.0 && Chained(cursors, lefts, rights, width)
    ensures cursors[0].top == BottomPointMultiplier - BandHeight && cursors[0].bottom == BottomPointMultiplier
    ensures forall b :: 0 < b < |cursors| ==>
              cursors[b].bottom == cursors[b - 1].top &&
              cursors[b].top == cursors[b - 1].top - BandHeight * Pow(ScaleFalloff, b - 1)
    ensures forall b :: 0 <= b < |cursors| ==>
              0.26 < cursors[b].top < cursors[b].bottom <= BottomPointMultiplier
  {
    forall b | 0 <= b < |cursors|
      ensures 0.26 < cursors[b].top < cursors[b].bottom <= BottomPointMultiplier
      ensures b > 0 ==> cursors[b].bottom == cursors[b - 1].top &&
                        cursors[b].top == cursors[b - 1].top - BandHeight * Pow(ScaleFalloff, b - 1)
    {
      ChainedTops(cursors, lefts, rights, width, b);
      PowInUnit(ScaleFalloff, b);
      if b > 0 {
        ChainedTops(cursors, lefts, rights, width, b - 1);
        PowInUnit(ScaleFalloff, b - 1);
        assert Pow(ScaleFalloff, b) == ScaleFalloff * Pow(ScaleFalloff, b - 1);
      }
    }
  }

  lemma DivideAbove(a: real, c: real, w: real)
    requires w > 0.0
    ensures a / w > c <==> a > c * w
  {
    assert (a / w) * w == a;
    if a / w > c { MulPos(a / w - c, w); }
    if a > c * w {
      if a / w <= c { MulNonNeg(c - a / w, w); }
    }
  }

  /** The next band's windows are centred on the stored near x-coordinate (as a fraction of the
      width), are 2 * BandWidth * 0.9^b wide, and stay disjoint exactly when the stored right
      line lies more than a full window width (in pixels) right of the stored left line. */
  lemma NextWindowsCentred(c: Cursor, b: nat, left: Seg, right: Seg, width: real)
    requires width > 0.0
    ensures var n := NextCursor(c, b, left, right, width);
      (n.ll + n.lr) / 2.0 == left.x1 / width && (n.rl + n.rr) / 2.0 == right.x1 / width &&
      n.lr - n.ll == n.rr - n.rl == 2.0 * BandWidth * Pow(ScaleFalloff, b) &&
      (n.lr < n.rl <==> right.x1 - left.x1 > 2.0 * BandWidth * Pow(ScaleFalloff, b) * width)
  {
    var h := BandWidth * Pow(ScaleFalloff, b);
    var n := NextCursor(c, b, left, right, width);
    assert n.lr < n.rl <==> right.x1 / width - left.x1 / width > 2.0 * h;
    assert right.x1 / width - left.x1 / width == (right.x1 - left.x1) / width;
    DivideAbove(right.x1 - left.x1, 2.0 * h, width);
    assert (2.0 * h) * width == 2.0 * BandWidth * Pow(ScaleFalloff, b) * width;
  }

  /** Perspective taper: with the configured tapers both top corners of the left window sit
      at or right of its bottom corners, and those of the right window at or left of them. */
  lemma WindowsLeanInward(width: nat, height: nat, c: Cursor, b: nat)
    ensures var p := RectangularMask(width, height, LeftMask(c, b)).polygon;
      p[0].x >= p[3].x && p[1].x >= p[2].x
    ensures var p := RectangularMask(width, height, RightMask(c, b)).polygon;
      p[0].x <= p[3].x && p[1].x <= p[2].x
  {
    PowInUnit(ScaleFalloff, b);
    TaperMovesTopCorners(width, height, LeftMask(c, b));
    TaperMovesTopCorners(width, height, RightMask(c, b));
  }

  // ---- Steering: the mean line centre over the test bands ----

  function Sum(xs: seq<real>): real
  {
    if xs == [] then 0.0 else Sum(xs[..|xs| - 1]) + xs[|xs| - 1]
  }

  /** `np.average` of a non-empty sequence. */
  function Mean(xs: seq<real>): real
    requires |xs| > 0
  {
    Sum(xs) / |xs| as real
  }

  function NearXs(segs: seq<Seg>): seq<real>
  {
    seq(|segs|, i requires 0 <= i < |segs| => segs[i].x1)
  }

  function FarXs(segs: seq<Seg>): seq<real>
  {
    seq(|segs|, i requires 0 <= i < |segs| => segs[i].x2)
  }

  /** The mean centre of one side's lines over the test bands, as a fraction of the width. */
  function LineCenter(segs: seq<Seg>, width: real): real
    requires |segs| > TestBandMax && width > 0.0
  {
    var test := segs[TestBandMin..TestBandMax + 1];
    (Mean(NearXs(test)) + Mean(FarXs(test))) / (2.0 * width)
  }

  /** The steering value: the midpoint of the two line centres; 0.5 is the frame's centre. */
  function SteeringOf(lefts: seq<Seg>, rights: seq<Seg>, width: real): real
    requires |lefts| > TestBandMax && |rights| > TestBandMax && width > 0.0
  {
    (LineCenter(lefts, width) + LineCenter(rights, width)) / 2.0
  }

  lemma {:induction false} SumAffine(xs: seq<real>, ys: seq<real>, d: real)
    requires |xs| == |ys|
    requires forall i :: 0 <= i < |xs| ==> ys[i] == xs[i] + d
    ensures Sum(ys) == Sum(xs) + |xs| as real * d
  {
    if xs != [] {
      SumAffine(xs[..|xs| - 1], ys[..|ys| - 1], d);
      assert (|xs| - 1) as real * d + d == |xs| as real * d;
    }
  }

  lemma {:induction false} SumBounds(xs: seq<real>, lo: real, hi: real)
    requires forall i :: 0 <= i < |xs| ==> lo <= xs[i] <= hi
    ensures |xs| as real * lo <= Sum(xs) <= |xs| as real * hi
  {
    if xs != [] {
      SumBounds(xs[..|xs| - 1], lo, hi);
      assert (|xs| - 1) as real * lo + lo == |xs| as real * lo;
      assert (|xs| - 1) as real * hi + hi == |xs| as real * hi;
    }
  }

  /** Shifting every value by `d` shifts the mean by `d`. */
  lemma MeanShift(xs: seq<real>, ys: seq<real>, d: real)
    requires |xs| == |ys| > 0
    requires forall i :: 0 <= i < |xs| ==> ys[i] == xs[i] + d
    ensures Mean(ys) == Mean(xs) + d
  {
    SumAffine(xs, ys, d);
    var n := |xs| as real;
    assert (Sum(xs) + n * d) / n == Sum(xs) / n + d;
  }

  /** The mean of values in [lo, hi] is in [lo, hi]; in particular a constant has itself as mean. */
  lemma MeanBounds(xs: seq<real>, lo: real, hi: real)
    requires |xs| > 0
    requires forall i :: 0 <= i < |xs| ==> lo <= xs[i] <= hi
    ensures lo <= Mean(xs) <= hi
  {
    SumBounds(xs, lo, hi);
    var n := |xs| as real;
    var m := Mean(xs);
    assert m * n == Sum(xs);
    if m < lo { MulPos(lo - m, n); }
    if m > hi { MulPos(m - hi, n); }
  }

  /** Lines drawn at constant columns `l` and `r` across the test bands steer to (l + r) / (2 * width). */
  lemma SteeringOfVerticalLines(lefts: seq<Seg>, rights: seq<Seg>, width: real, l: real, r: real)
    requires |lefts| > TestBandMax && |rights| > TestBandMax && width > 0.0
    requires forall b :: TestBandMin <= b <= TestBandMax ==> lefts[b].x1 == l && lefts[b].x2 == l
    requires forall b :: TestBandMin <= b <= TestBandMax ==> rights[b].x1 == r && rights[b].x2 == r
    ensures SteeringOf(lefts, rights, width) == (l + r) / (2.0 * width)
  {
    var tl := lefts[TestBandMin..TestBandMax + 1];
    var tr := rights[TestBandMin..TestBandMax + 1];
    MeanBounds(NearXs(tl), l, l);
    MeanBounds(FarXs(tl), l, l);
    MeanBounds(NearXs(tr), r, r);
    MeanBounds(FarXs(tr), r, r);
    assert LineCenter(lefts, width) == (l + l) / (2.0 * width);
    assert LineCenter(rights, width) == (r + r) / (2.0 * width);
  }

  /** The reference case: lines at x = 200 and x = 600 in an 800-pixel frame steer to 0.5, the
      position of the fixed reference pointer. */
  lemma CentredLanePointsAtReference(lefts: seq<Seg>, rights: seq<Seg>)
    requires |lefts| > TestBandMax && |rights| > TestBandMax
    requires forall b :: TestBandMin <= b <= TestBandMax ==> lefts[b].x1 == 200.0 && lefts[b].x2 == 200.0
    requires forall b :: TestBandMin <= b <= TestBandMax ==> rights[b].x1 == 600.0 && rights[b].x2 == 600.0
    ensures SteeringOf(lefts, rights, 800.0) == 0.5
  {
    SteeringOfVerticalLines(lefts, rights, 800.0, 200.0, 600.0);
  }

  /** Every line moved `d` pixels sideways. */
  function Shifted(segs: seq<Seg>, d: real): (r: seq<Seg>)
    ensures |r| == |segs|
  {
    seq(|segs|, i requires 0 <= i < |segs| => segs[i].(x1 := segs[i].x1 + d, x2 := segs[i].x2 + d))
  }

  /** Moving both lanes `d` pixels sideways moves the steering value by `d / width`. */
  lemma SteeringFollowsShift(lefts: seq<Seg>, rights: seq<Seg>, width: real, d: real)
    requires |lefts| > TestBandMax && |rights| > TestBandMax && width > 0.0
    ensures SteeringOf(Shifted(lefts, d), Shifted(rights, d), width) == SteeringOf(lefts, rights, width) + d / width
  {
    var tl, tr := lefts[TestBandMin..TestBandMax + 1], rights[TestBandMin..TestBandMax + 1];
    var sl, sr := Shifted(lefts, d)[TestBandMin..TestBandMax + 1], Shifted(rights, d)[TestBandMin..TestBandMax + 1];
    MeanShift(NearXs(tl), NearXs(sl), d);
    MeanShift(FarXs(tl), FarXs(sl), d);
    MeanShift(NearXs(tr), NearXs(sr), d);
    MeanShift(FarXs(tr), FarXs(sr), d);
    var w2 := 2.0 * width;
    assert LineCenter(Shifted(lefts, d), width) == LineCenter(lefts, width) + d / width by {
      assert (Mean(NearXs(tl)) + d + Mean(FarXs(tl)) + d) / w2 == (Mean(NearXs(tl)) + Mean(FarXs(tl))) / w2 + d / width;
    }
    assert LineCenter(Shifted(rights, d), width) == LineCenter(rights, width) + d / width by {
      assert (Mean(NearXs(tr)) + d + Mean(FarXs(tr)) + d) / w2 == (Mean(NearXs(tr)) + Mean(FarXs(tr))) / w2 + d / width;
    }
  }

  /** Lines inside the frame over the test bands give a steering value in [0, 1]. */
  lemma SteeringWithinFrame(lefts: seq<Seg>, rights: seq<Seg>, width: real)
    requires |lefts| > TestBandMax && |rights| > TestBandMax && width > 0.0
    requires forall b :: TestBandMin <= b <= TestBandMax ==>
               0.0 <= lefts[b].x1 <= width && 0.0 <= lefts[b].x2 <= width &&
               0.0 <= rights[b].x1 <= width && 0.0 <= rights[b].x2 <= width
    ensures 0.0 <= SteeringOf(lefts, rights, width) <= 1.0
  {
    var tl, tr := lefts[TestBandMin..TestBandMax + 1], rights[TestBandMin..TestBandMax + 1];
    MeanBounds(NearXs(tl), 0.0, width);
    MeanBounds(FarXs(tl), 0.0, width);
    MeanBounds(NearXs(tr), 0.0, width);
    MeanBounds(FarXs(tr), 0.0, width);
    CenterInUnit(Mean(NearXs(tl)) + Mean(FarXs(tl)), width);
    CenterInUnit(Mean(NearXs(tr)) + Mean(FarXs(tr)), width);
  }

  lemma CenterInUnit(s: real, width: real)
    requires width > 0.0 && 0.0 <= s <= 2.0 * width
    ensures 0.0 <= s / (2.0 * width) <= 1.0
  {
    var q := s / (2.0 * width);
    assert q * (2.0 * width) == s;
    if q < 0.0 { MulPos(-q, 2.0 * width); }
    if q > 1.0 { MulPos(q - 1.0, 2.0 * width); }
  }

  /** The end columns x1 + x2 of every line in `segs`, summed line by line. */
  function EndColumns(segs: seq<Seg>): real
  {
    if segs == [] then 0.0 else EndColumns(segs[..|segs| - 1]) + segs[|segs| - 1].x1 + segs[|segs| - 1].x2
  }

  lemma {:induction false} EndColumnsSplit(segs: seq<Seg>)
    ensures Sum(NearXs(segs)) + Sum(FarXs(segs)) == EndColumns(segs)
  {
    if segs != [] {
      var init := segs[..|segs| - 1];
      EndColumnsSplit(init);
      assert NearXs(segs)[..|segs| - 1] == NearXs(init);
      assert FarXs(segs)[..|segs| - 1] == FarXs(init);
    }
  }

  /** The steering value is the plain mean of the 24 end columns x1 and x2 of both sides over
      bands 2..7 inclusive, as a fraction of the width. */
  lemma SteeringFlat(lefts: seq<Seg>, rights: seq<Seg>, width: real)
    requires |lefts| > TestBandMax && |rights| > TestBandMax && width > 0.0
    ensures SteeringOf(lefts, rights, width) == (EndColumns(lefts[2..8]) + EndColumns(rights[2..8])) / (24.0 * width)
  {
    LineCenterFlat(lefts, width);
    LineCenterFlat(rights, width);
    MeanOfQuotients(EndColumns(lefts[2..8]), EndColumns(rights[2..8]), width);
  }

  lemma LineCenterFlat(segs: seq<Seg>, width: real)
    requires |segs| > TestBandMax && width > 0.0
    ensures LineCenter(segs, width) == EndColumns(segs[2..8]) / (12.0 * width)
  {
    var test := segs[TestBandMin..TestBandMax + 1];
    assert test == segs[2..8];
    var near, far := NearXs(test), FarXs(test);
    MeanOfSix(near);
    MeanOfSix(far);
    EndColumnsSplit(test);
    MeansOverWidth(LineCenter(segs, width), Sum(near), Sum(far), EndColumns(test), width);
  }

  lemma MeanOfSix(xs: seq<real>)
    requires |xs| == 6
    ensures Mean(xs) == Sum(xs) / 6.0
  {
  }

  lemma MeansOverWidth(c: real, a: real, b: real, e: real, width: real)
    requires width > 0.0 && c == (a / 6.0 + b / 6.0) / (2.0 * width) && a + b == e
    ensures c == e / (12.0 * width)
  {
    var q := c;
    assert q * (2.0 * width) == e / 6.0;
    assert q * (12.0 * width) == e;
  }

  lemma MeanOfQuotients(l: real, r: real, width: real)
    requires width > 0.0
    ensures (l / (12.0 * width) + r / (12.0 * width)) / 2.0 == (l + r) / (24.0 * width)
  {
    var w := 12.0 * width;
    var q := (l / w + r / w) / 2.0;
    assert (l / w) * w == l && (r / w) * w == r;
    assert q * (24.0 * width) == l + r;
  }
}
