/**
 * The arithmetic of the shared helper library (HelperFunctions.py): the corner
 * and edge coordinates of the rectangular/tapered and triangular search masks,
 * the projection of a fitted line to integer end points, and the selection,
 * left/right partition and averaging of the Hough segments' line fits.
 *
 * The image operations (Canny, HoughLinesP, fillPoly, bitwise_and) are not part
 * of this model: a mask is described by its polygon and edges, and the Hough
 * transform followed by `np.polyfit` is given as `None` (HoughLinesP found
 * nothing) or the sequence of (slope, intercept) fits of its segments.
 */
module Helpers {
  import opened Wrappers
  import opened Numeric

  /** The slope acceptance band, about 10 to 80 degrees from horizontal. */
  const MinSlope: real := 0.36
  const MaxSlope: real := 5.67

  datatype Point = Point(x: int, y: int)

  /** An integer line `[x1, y1, x2, y2]` in pixels. */
  datatype PixelLine = PixelLine(x1: int, y1: int, x2: int, y2: int)

  /** The placeholder returned for a side on which nothing was found. */
  const ZeroLine := PixelLine(0, 0, 0, 0)

  /** The fractional arguments of RectangularMask: rows `top`/`bottom`, columns `left`/`right`,
      and how far the top corners are pulled in from `left` and `right`. */
  datatype MaskParams = MaskParams(top: real, bottom: real, left: real, right: real,
                                   leftTaper: real, rightTaper: real)

  /** A mask's polygon and the segments that trace its boundary. */
  datatype Region = Region(polygon: seq<Point>, edges: seq<PixelLine>)

  /** A line fit `y = slope * x + intercept`. */
  datatype Fit = Fit(slope: real, intercept: real)

  datatype LanePair = LanePair(left: PixelLine, right: PixelLine)

  datatype LineError = NoLinesInFrame | NoLinesInSlopeRange

  /** The pixel at a fraction of a frame extent, `round(extent * fraction)`. */
  function Px(extent: nat, fraction: real): int
  {
    Round(extent as real * fraction)
  }

  function Edge(p: Point, q: Point): PixelLine
  {
    PixelLine(p.x, p.y, q.x, q.y)
  }

  /** Segment `i` starts at vertex `i`, and each segment ends where the next one
      begins, the last one at the first vertex: the edges trace the polygon. */
  predicate TracesPolygon(edges: seq<PixelLine>, polygon: seq<Point>)
  {
    |edges| == |polygon| > 0 &&
    (forall i :: 0 <= i < |edges| ==> edges[i].x1 == polygon[i].x && edges[i].y1 == polygon[i].y) &&
    (forall i :: 0 <= i < |edges| ==>
       edges[i].x2 == edges[(i + 1) % |edges|].x1 && edges[i].y2 == edges[(i + 1) % |edges|].y1)
  }

  lemma FourEdgesTrace(p: seq<Point>, edges: seq<PixelLine>)
    requires |p| == 4
    requires edges == [Edge(p[0], p[1]), Edge(p[1], p[2]), Edge(p[2], p[3]), Edge(p[3], p[0])]
    ensures TracesPolygon(edges, p)
  {
    forall i | 0 <= i < 4
      ensures edges[i].x2 == edges[(i + 1) % 4].x1 && edges[i].y2 == edges[(i + 1) % 4].y1
    {
      if i == 3 { assert (i + 1) % 4 == 0; } else { assert (i + 1) % 4 == i + 1; }
    }
  }

  lemma FiveEdgesTrace(p: seq<Point>, edges: seq<PixelLine>)
    requires |p| == 5
    requires edges == [Edge(p[0], p[1]), Edge(p[1], p[2]), Edge(p[2], p[3]), Edge(p[3], p[4]), Edge(p[4], p[0])]
    ensures TracesPolygon(edges, p)
  {
    forall i | 0 <= i < 5
      ensures edges[i].x2 == edges[(i + 1) % 5].x1 && edges[i].y2 == edges[(i + 1) % 5].y1
    {
      if i == 4 { assert (i + 1) % 5 == 0; } else { assert (i + 1) % 5 == i + 1; }
    }
  }

  function RectangularMask(width: nat, height: nat, m: MaskParams): (r: Region)
    ensures |r.polygon| == 4 && TracesPolygon(r.edges, r.polygon)
  {
    var polygon := [
      Point(Px(width, m.left + m.leftTaper), Px(height, m.top)),
      Point(Px(width, m.right - m.rightTaper), Px(height, m.top)),
      Point(Px(width, m.right), Px(height, m.bottom)),
      Point(Px(width, m.left), Px(height, m.bottom))
    ];
    var edges := [Edge(polygon[0], polygon[1]), Edge(polygon[1], polygon[2]),
                  Edge(polygon[2], polygon[3]), Edge(polygon[3], polygon[0])];
    FourEdgesTrace(polygon, edges);
    Region(polygon, edges)
  }

  /** Without taper the mask is an axis-aligned rectangle spanning the given rows and columns. */
  lemma UntaperedMaskIsRectangle(width: nat, height: nat, m: MaskParams)
    requires m.leftTaper == 0.0 && m.rightTaper == 0.0
    ensures var p := RectangularMask(width, height, m).polygon;
      p[0].x == p[3].x == Px(width, m.left) &&
      p[1].x == p[2].x == Px(width, m.right) &&
      p[0].y == p[1].y == Px(height, m.top) &&
      p[2].y == p[3].y == Px(height, m.bottom)
  {
    assert m.left + m.leftTaper == m.left && m.right - m.rightTaper == m.right;
  }

  /** Exposes the definition of `Px` in a context too large for the solver to unfold it unaided. */
  lemma PxUnfold(extent: nat, fraction: real)
    ensures Px(extent, fraction) == Round(extent as real * fraction)
  {
  }

  lemma ScaledRoundOrder(e: real, a: real, b: real)
    requires e >= 0.0 && a <= b
    ensures Round(e * a) <= Round(e * b)
  {
    ScaledOrder(e, a, b);
    RoundMonotone(e * a, e * b);
  }

  lemma ScaledOrder(e: real, a: real, b: real)
    requires e >= 0.0 && a <= b
    ensures e * a <= e * b
  {
    MulNonNeg(e, b - a);
    assert e * (b - a) == e * b - e * a;
  }

  /** Rounding a larger fraction of the same extent never gives a smaller pixel. */
  lemma PxMonotone(extent: nat, a: real, b: real)
    requires a <= b
    ensures Px(extent, a) <= Px(extent, b)
  {
    ScaledRoundOrder(extent as real, a, b);
    PxUnfold(extent, a);
    PxUnfold(extent, b);
  }

  /** The bottom corners sit at `left`/`right`; a non-negative taper moves the top corner on
      its side inward (toward the other side), a non-positive one moves it outward, and a
      top row above the bottom row keeps the top edge above the bottom edge. */
  lemma TaperMovesTopCorners(width: nat, height: nat, m: MaskParams)
    ensures var p := RectangularMask(width, height, m).polygon;
      p[3].x == Px(width, m.left) && p[2].x == Px(width, m.right) &&
      (m.leftTaper >= 0.0 ==> p[0].x >= p[3].x) && (m.leftTaper <= 0.0 ==> p[0].x <= p[3].x) &&
      (m.rightTaper >= 0.0 ==> p[1].x <= p[2].x) && (m.rightTaper <= 0.0 ==> p[1].x >= p[2].x) &&
      (m.top <= m.bottom ==> p[0].y == p[1].y <= p[2].y == p[3].y)
  {
    var p := RectangularMask(width, height, m).polygon;
    assert p[0] == Point(Px(width, m.left + m.leftTaper), Px(height, m.top));
    assert p[1] == Point(Px(width, m.right - m.rightTaper), Px(height, m.top));
    assert p[2] == Point(Px(width, m.right), Px(height, m.bottom));
    assert p[3] == Point(Px(width, m.left), Px(height, m.bottom));
    if m.leftTaper >= 0.0 { PxMonotone(width, m.left, m.left + m.leftTaper); }
    if m.leftTaper <= 0.0 { PxMonotone(width, m.left + m.leftTaper, m.left); }
    if m.rightTaper >= 0.0 { PxMonotone(width, m.right - m.rightTaper, m.right); }
    if m.rightTaper <= 0.0 { PxMonotone(width, m.right, m.right - m.rightTaper); }
    if m.top <= m.bottom { PxMonotone(height, m.top, m.bottom); }
  }

  /** The five-sided region: the frame's bottom row, up both sides to `bottomPointPos`,
      and in to an apex at mid-width on row `topPointPos`. The edge list is written out
      coordinate by coordinate, independently of the polygon. */
  function TriangularMask(width: nat, height: nat, topPointPos: real, bottomPointPos: real): (r: Region)
    ensures |r.polygon| == 5 && TracesPolygon(r.edges, r.polygon)
  {
    var polygon := [
      Point(0, height),
      Point(width, height),
      Point(width, Px(height, bottomPointPos)),
      Point(Px(width, 0.5), Px(height, topPointPos)),
      Point(0, Px(height, bottomPointPos))
    ];
    var edges := [
      PixelLine(0, height, width, height),
      PixelLine(width, height, width, Px(height, bottomPointPos)),
      PixelLine(width, Px(height, bottomPointPos), Px(width, 0.5), Px(height, topPointPos)),
      PixelLine(Px(width, 0.5), Px(height, topPointPos), 0, Px(height, bottomPointPos)),
      PixelLine(0, Px(height, bottomPointPos), 0, height)
    ];
    FiveEdgesTrace(polygon, edges);
    Region(polygon, edges)
  }

  /** The end point (x, y) lies within one pixel, horizontally, of the line `fit`. */
  predicate NearLine(fit: Fit, x: int, y: int)
  {
    Abs(fit.slope * x as real + fit.intercept - y as real) < Abs(fit.slope)
  }

  lemma AbsProduct(a: real, b: real)
    ensures Abs(a * b) == Abs(a) * Abs(b)
  {
    if a < 0.0 {
      AbsScale(-a, b);
      assert a * b == -((-a) * b);
    } else {
      AbsScale(a, b);
    }
  }

  lemma ScaledBelow(m: real, d: real)
    requires m != 0.0 && Abs(d) < 1.0
    ensures Abs(m * d) < Abs(m)
  {
    AbsProduct(m, d);
    MulPos(Abs(m), 1.0 - Abs(d));
    assert Abs(m) * (1.0 - Abs(d)) == Abs(m) - Abs(m) * Abs(d);
  }

  lemma Residual(m: real, b: real, x: real, y: real)
    requires m != 0.0
    ensures m * x + b - y == m * (x - (y - b) / m)
  {
    assert m * ((y - b) / m) == y - b;
  }

  /** A point within one column of the exact crossing of row `y` is near the line. */
  lemma WithinOneColumnIsNear(fit: Fit, x: int, y: int)
    requires fit.slope != 0.0
    requires Abs(x as real - (y as real - fit.intercept) / fit.slope) < 1.0
    ensures NearLine(fit, x, y)
  {
    var d := x as real - (y as real - fit.intercept) / fit.slope;
    Residual(fit.slope, fit.intercept, x as real, y as real);
    ScaledBelow(fit.slope, d);
  }

  /** Truncating the exact column of row `y` keeps the point within one pixel of the line. */
  lemma TruncatedColumnNearLine(fit: Fit, y: int)
    requires fit.slope != 0.0
    ensures NearLine(fit, Trunc((y as real - fit.intercept) / fit.slope), y)
  {
    WithinOneColumnIsNear(fit, Trunc((y as real - fit.intercept) / fit.slope), y);
  }

  /** The line's end points on rows `bottomPointPos` and `topPointPos` of the frame. */
  function CalculateEndCoordinates(height: nat, fit: Fit, topPointPos: real, bottomPointPos: real): (r: PixelLine)
    requires fit.slope != 0.0
    ensures r.y1 == Px(height, bottomPointPos) && r.y2 == Px(height, topPointPos)
    ensures NearLine(fit, r.x1, r.y1) && NearLine(fit, r.x2, r.y2)
    ensures Abs(r.x1 as real) <= Abs((r.y1 as real - fit.intercept) / fit.slope)
    ensures Abs(r.x2 as real) <= Abs((r.y2 as real - fit.intercept) / fit.slope)
  {
    var y1 := Px(height, bottomPointPos);
    var y2 := Px(height, topPointPos);
    TruncatedColumnNearLine(fit, y1);
    TruncatedColumnNearLine(fit, y2);
    PixelLine(Trunc((y1 as real - fit.intercept) / fit.slope), y1,
              Trunc((y2 as real - fit.intercept) / fit.slope), y2)
  }

  predicate Accepted(slope: real)
  {
    MinSlope < Abs(slope) && Abs(slope) < MaxSlope
  }

  predicate LeftSlope(slope: real)
  {
    -MaxSlope < slope < -MinSlope
  }

  predicate RightSlope(slope: real)
  {
    MinSlope < slope < MaxSlope
  }

  /** The accepted fits with negative slope, in input order. */
  function LeftFits(fits: seq<Fit>): (r: seq<Fit>)
    ensures forall i :: 0 <= i < |r| ==> LeftSlope(r[i].slope)
    ensures forall f :: f in r <==> f in fits && Accepted(f.slope) && f.slope < 0.0
  {
    if fits == [] then []
    else
      var f := fits[|fits| - 1];
      assert fits == fits[..|fits| - 1] + [f];
      if Accepted(f.slope) && f.slope < 0.0 then LeftFits(fits[..|fits| - 1]) + [f]
      else LeftFits(fits[..|fits| - 1])
  }

  /** The accepted fits with non-negative slope, in input order. */
  function RightFits(fits: seq<Fit>): (r: seq<Fit>)
    ensures forall i :: 0 <= i < |r| ==> RightSlope(r[i].slope)
    ensures forall f :: f in r <==> f in fits && Accepted(f.slope) && f.slope >= 0.0
  {
    if fits == [] then []
    else
      var f := fits[|fits| - 1];
      assert fits == fits[..|fits| - 1] + [f];
      if Accepted(f.slope) && f.slope >= 0.0 then RightFits(fits[..|fits| - 1]) + [f]
      else RightFits(fits[..|fits| - 1])
  }

  /** The fits that pass the slope filter, in input order. */
  function Kept(fits: seq<Fit>): seq<Fit>
  {
    if fits == [] then []
    else if Accepted(fits[|fits| - 1].slope) then Kept(fits[..|fits| - 1]) + [fits[|fits| - 1]]
    else Kept(fits[..|fits| - 1])
  }

  /** Every kept fit lands in exactly one of the two sides, and nothing else does. */
  lemma {:induction false} SidesPartitionKept(fits: seq<Fit>)
    ensures multiset(LeftFits(fits)) + multiset(RightFits(fits)) == multiset(Kept(fits))
    ensures |LeftFits(fits)| + |RightFits(fits)| == |Kept(fits)|
  {
    if fits != [] {
      SidesPartitionKept(fits[..|fits| - 1]);
    }
  }

  function SumSlopes(fits: seq<Fit>): real
  {
    if fits == [] then 0.0 else SumSlopes(fits[..|fits| - 1]) + fits[|fits| - 1].slope
  }

  function SumIntercepts(fits: seq<Fit>): real
  {
    if fits == [] then 0.0 else SumIntercepts(fits[..|fits| - 1]) + fits[|fits| - 1].intercept
  }

  /** `np.average(fits, axis = 0)`: the mean slope and the mean intercept. */
  function Average(fits: seq<Fit>): Fit
    requires |fits| > 0
  {
    Fit(SumSlopes(fits) / |fits| as real, SumIntercepts(fits) / |fits| as real)
  }

  lemma {:induction false} SumSlopesWithin(fits: seq<Fit>, lo: real, hi: real)
    requires forall i :: 0 <= i < |fits| ==> lo < fits[i].slope < hi
    ensures |fits| > 0 ==> |fits| as real * lo < SumSlopes(fits) < |fits| as real * hi
  {
    if |fits| > 1 {
      SumSlopesWithin(fits[..|fits| - 1], lo, hi);
      var k := (|fits| - 1) as real;
      assert k * lo + lo == |fits| as real * lo;
      assert k * hi + hi == |fits| as real * hi;
    }
  }

  /** The mean slope of fits whose slopes all lie in (lo, hi) lies in (lo, hi) too. */
  lemma AverageSlopeWithin(fits: seq<Fit>, lo: real, hi: real)
    requires |fits| > 0
    requires forall i :: 0 <= i < |fits| ==> lo < fits[i].slope < hi
    ensures lo < Average(fits).slope < hi
  {
    SumSlopesWithin(fits, lo, hi);
    var n := |fits| as real;
    var a := Average(fits).slope;
    assert a * n == SumSlopes(fits);
    if a <= lo { MulNonNeg(lo - a, n); }
    if a >= hi { MulNonNeg(a - hi, n); }
  }

  lemma {:induction false} SumInterceptsWithin(fits: seq<Fit>, lo: real, hi: real)
    requires forall i :: 0 <= i < |fits| ==> lo <= fits[i].intercept <= hi
    ensures |fits| as real * lo <= SumIntercepts(fits) <= |fits| as real * hi
  {
    if fits != [] {
      SumInterceptsWithin(fits[..|fits| - 1], lo, hi);
      var k := (|fits| - 1) as real;
      assert k * lo + lo == |fits| as real * lo;
      assert k * hi + hi == |fits| as real * hi;
    }
  }

  /** The mean intercept of fits whose intercepts all lie in [lo, hi] lies in [lo, hi] too. */
  lemma AverageInterceptWithin(fits: seq<Fit>, lo: real, hi: real)
    requires |fits| > 0
    requires forall i :: 0 <= i < |fits| ==> lo <= fits[i].intercept <= hi
    ensures lo <= Average(fits).intercept <= hi
  {
    SumInterceptsWithin(fits, lo, hi);
    var n := |fits| as real;
    var a := Average(fits).intercept;
    assert a * n == SumIntercepts(fits);
    if a < lo { MulPos(lo - a, n); }
    if a > hi { MulPos(a - hi, n); }
  }

  /** Averaging one side keeps that side's slope sign and acceptance band, so projecting
      the average never divides by zero. */
  lemma AverageKeepsSide(fits: seq<Fit>)
    requires |fits| > 0
    requires (forall i :: 0 <= i < |fits| ==> LeftSlope(fits[i].slope)) ||
             (forall i :: 0 <= i < |fits| ==> RightSlope(fits[i].slope))
    ensures Accepted(Average(fits).slope) && Average(fits).slope != 0.0
    ensures (forall i :: 0 <= i < |fits| ==> LeftSlope(fits[i].slope)) ==> LeftSlope(Average(fits).slope)
    ensures (forall i :: 0 <= i < |fits| ==> RightSlope(fits[i].slope)) ==> RightSlope(Average(fits).slope)
  {
    if forall i :: 0 <= i < |fits| ==> LeftSlope(fits[i].slope) {
      AverageSlopeWithin(fits, -MaxSlope, -MinSlope);
    }
    if forall i :: 0 <= i < |fits| ==> RightSlope(fits[i].slope) {
      AverageSlopeWithin(fits, MinSlope, MaxSlope);
    }
  }

  /** The line reported for one side: the projected average, or the zero line if empty. */
  function SideLine(fits: seq<Fit>, height: nat, topPointPos: real, bottomPointPos: real): (r: PixelLine)
    requires (forall i :: 0 <= i < |fits| ==> LeftSlope(fits[i].slope)) ||
             (forall i :: 0 <= i < |fits| ==> RightSlope(fits[i].slope))
    ensures |fits| == 0 ==> r == ZeroLine
    ensures |fits| > 0 ==>
              Accepted(Average(fits).slope) &&
              r.y1 == Px(height, bottomPointPos) && r.y2 == Px(height, topPointPos) &&
              NearLine(Average(fits), r.x1, r.y1) && NearLine(Average(fits), r.x2, r.y2) &&
              Abs(r.x1 as real) <= Abs((r.y1 as real - Average(fits).intercept) / Average(fits).slope) &&
              Abs(r.x2 as real) <= Abs((r.y2 as real - Average(fits).intercept) / Average(fits).slope)
  {
    if |fits| == 0 then ZeroLine
    else
      AverageKeepsSide(fits);
      CalculateEndCoordinates(height, Average(fits), topPointPos, bottomPointPos)
  }

  /** FindLaneLines: filter the fits by slope, split them by sign, and project each side's average. */
  method FindLaneLines(hough: Option<seq<Fit>>, height: nat, topPointPos: real, bottomPointPos: real)
    returns (r: Result<LanePair, LineError>)
    ensures hough.None? ==> r == Failure(NoLinesInFrame)
    ensures hough.Some? ==> r != Failure(NoLinesInFrame)
    ensures hough.Some? ==>
              (r == Failure(NoLinesInSlopeRange) <==>
               forall i :: 0 <= i < |hough.value| ==> !Accepted(hough.value[i].slope))
    ensures r.Success? ==>
              hough.Some? &&
              r.value == LanePair(SideLine(LeftFits(hough.value), height, topPointPos, bottomPointPos),
                                  SideLine(RightFits(hough.value), height, topPointPos, bottomPointPos))
  {
    if hough.None? {
      return Failure(NoLinesInFrame);
    }
    var fits := hough.value;
    var left, right := [], [];
    for i := 0 to |fits|
      invariant left == LeftFits(fits[..i])
      invariant right == RightFits(fits[..i])
    {
      var f := fits[i];
      assert fits[..i + 1][..i] == fits[..i];
      if Abs(f.slope) > MinSlope && Abs(f.slope) < MaxSlope {
        if f.slope < 0.0 {
          left := left + [f];
        } else {
          right := right + [f];
        }
      }
    }
    assert fits[..|fits|] == fits;
    if |left| == 0 && |right| == 0 {
      forall i | 0 <= i < |fits|
        ensures !Accepted(fits[i].slope)
      {
        assert fits[i] in fits;
        assert fits[i] !in left && fits[i] !in right;
      }
      return Failure(NoLinesInSlopeRange);
    }
    var leftLine := ZeroLine;
    if |left| > 0 {
      AverageKeepsSide(left);
      leftLine := CalculateEndCoordinates(height, Average(left), topPointPos, bottomPointPos);
    }
    var rightLine := ZeroLine;
    if |right| > 0 {
      AverageKeepsSide(right);
      rightLine := CalculateEndCoordinates(height, Average(right), topPointPos, bottomPointPos);
    }
    r := Success(LanePair(leftLine, rightLine));
    assert left != [] ==> left[0] in left;
    assert right != [] ==> right[0] in right;
  }
}
