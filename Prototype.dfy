/**
 * The single-pipeline prototype (lane-annotation.py). The region of interest is a
 * triangle with its base on the bottom row and its apex at the frame's centre
 * column, half-way down. Every detected segment is assigned to the left line when
 * its slope is negative and to the right line otherwise (there is no slope filter),
 * and each side's average fit is projected from the bottom row to the apex row.
 *
 * An empty side makes `np.average` return NaN, which cannot be unpacked into a
 * slope and an intercept; a right side whose mean slope is zero makes the
 * projection `int(inf)` or `int(nan)`. Both raise inside the caller's `try`, so
 * they are the outcome `Raised` here.
 */
module Prototype {
  import opened Wrappers
  import opened Numeric
  import opened Helpers

  const TopPointMultiplier: real := 0.5

  /** What one frame yields: no Hough segments at all, two projected lines, or an exception. */
  datatype Outcome = NoSegments | Lines(pair: LanePair) | Raised

  /** `polygonMask`: the triangle (0, h), (w, h), apex; the two drawn edges run from each base
      corner to the apex, and the apex is the nearest pixel to the centre column, half-way down. */
  function PolygonMask(width: nat, height: nat): (r: Region)
    ensures |r.polygon| == 3 && |r.edges| == 2
    ensures r.polygon[0] == Point(0, height) && r.polygon[1] == Point(width, height)
    ensures r.edges[0] == Edge(r.polygon[0], r.polygon[2]) && r.edges[1] == Edge(r.polygon[1], r.polygon[2])
    ensures Abs(r.polygon[2].x as real - width as real / 2.0) <= 0.5
    ensures Abs(r.polygon[2].y as real - height as real * TopPointMultiplier) <= 0.5
    ensures Abs(r.polygon[2].x as real - width as real / 2.0) == 0.5 ==> r.polygon[2].x % 2 == 0
    ensures Abs(r.polygon[2].y as real - height as real * TopPointMultiplier) == 0.5 ==> r.polygon[2].y % 2 == 0
  {
    var apex := Point(Px(width, 0.5), Px(height, TopPointMultiplier));
    PxUnfold(width, 0.5);
    PxUnfold(height, TopPointMultiplier);
    Region([Point(0, height), Point(width, height), apex],
           [PixelLine(0, height, apex.x, apex.y), PixelLine(width, height, apex.x, apex.y)])
  }

  /** `calculateEndCoordinates`: project a fit from the bottom row `height` to the apex row. This is the general
      projection with the bottom at 1.0 and the top at 0.5 of the height, so it inherits its
      guarantees (rows, truncation toward the line). */
  function EndCoordinates(height: nat, fit: Fit): (r: PixelLine)
    requires fit.slope != 0.0
    ensures r == CalculateEndCoordinates(height, fit, TopPointMultiplier, 1.0)
    ensures r.y1 == height && NearLine(fit, r.x1, r.y1) && NearLine(fit, r.x2, r.y2)
  {
    var y2 := Px(height, TopPointMultiplier);
    PxUnfold(height, 1.0);
    assert height as real * 1.0 == height as real;
    RoundOfInt(height);
    PixelLine(Trunc((height as real - fit.intercept) / fit.slope), height,
              Trunc((y2 as real - fit.intercept) / fit.slope), y2)
  }

  /** The fits with negative slope, in input order. */
  function Negatives(fits: seq<Fit>): (r: seq<Fit>)
    ensures forall i :: 0 <= i < |r| ==> r[i].slope < 0.0
    ensures forall f :: f in r <==> f in fits && f.slope < 0.0
  {
    if fits == [] then []
    else
      var f := fits[|fits| - 1];
      assert fits == fits[..|fits| - 1] + [f];
      if f.slope < 0.0 then Negatives(fits[..|fits| - 1]) + [f] else Negatives(fits[..|fits| - 1])
  }

  /** The fits with non-negative slope, in input order; a slope of exactly 0 goes right. */
  function NonNegatives(fits: seq<Fit>): (r: seq<Fit>)
    ensures forall i :: 0 <= i < |r| ==> r[i].slope >= 0.0
    ensures forall f :: f in r <==> f in fits && f.slope >= 0.0
  {
    if fits == [] then []
    else
      var f := fits[|fits| - 1];
      assert fits == fits[..|fits| - 1] + [f];
      if f.slope < 0.0 then NonNegatives(fits[..|fits| - 1]) else NonNegatives(fits[..|fits| - 1]) + [f]
  }

  /** Without a slope filter every fit lands on exactly one side. */
  lemma {:induction false} SignSplitIsPartition(fits: seq<Fit>)
    ensures multiset(Negatives(fits)) + multiset(NonNegatives(fits)) == multiset(fits)
    ensures |Negatives(fits)| + |NonNegatives(fits)| == |fits|
  {
    if fits != [] {
      var init, f := fits[..|fits| - 1], fits[|fits| - 1];
      SignSplitIsPartition(init);
      assert fits == init + [f];
      assert multiset(fits) == multiset(init) + multiset{f};
      if f.slope < 0.0 {
        assert Negatives(fits) == Negatives(init) + [f];
        assert NonNegatives(fits) == NonNegatives(init);
      } else {
        assert Negatives(fits) == Negatives(init);
        assert NonNegatives(fits) == NonNegatives(init) + [f];
      }
    }
  }

  /** A sum of negative slopes is negative; a sum of non-negative slopes is non-negative and
      is zero only when every slope is zero. */
  lemma {:induction false} SumSlopesSign(fits: seq<Fit>)
    ensures |fits| > 0 && (forall i :: 0 <= i < |fits| ==> fits[i].slope < 0.0) ==> SumSlopes(fits) < 0.0
    ensures (forall i :: 0 <= i < |fits| ==> fits[i].slope >= 0.0) ==>
              SumSlopes(fits) >= 0.0 &&
              (SumSlopes(fits) == 0.0 ==> forall i :: 0 <= i < |fits| ==> fits[i].slope == 0.0)
  {
    if fits != [] {
      var init := fits[..|fits| - 1];
      SumSlopesSign(init);
      if forall i :: 0 <= i < |fits| ==> fits[i].slope >= 0.0 {
        assert forall i :: 0 <= i < |init| ==> init[i].slope == fits[i].slope;
      }
      if |fits| > 0 && forall i :: 0 <= i < |fits| ==> fits[i].slope < 0.0 {
        assert forall i :: 0 <= i < |init| ==> init[i].slope == fits[i].slope;
      }
    }
  }

  /** The mean slope has the sign of the sum it is taken from. */
  lemma MeanSlopeSign(fits: seq<Fit>)
    requires |fits| > 0
    ensures SumSlopes(fits) < 0.0 ==> Average(fits).slope < 0.0
    ensures SumSlopes(fits) >= 0.0 ==> Average(fits).slope >= 0.0
    ensures Average(fits).slope == 0.0 <==> SumSlopes(fits) == 0.0
  {
    var n := |fits| as real;
    var a := Average(fits).slope;
    assert a * n == SumSlopes(fits);
    if a >= 0.0 { MulNonNeg(a, n); }
    if a < 0.0 { MulPos(-a, n); }
  }

  /** The specification of `findLaneLines` on the Hough fits (None when HoughLinesP found nothing). */
  function PrototypeOutcome(hough: Option<seq<Fit>>, height: nat): (r: Outcome)
    ensures r.Lines? ==> r.pair.left.y1 == height && r.pair.right.y1 == height
  {
    match hough
    case None => NoSegments
    case Some(fits) =>
      var left, right := Negatives(fits), NonNegatives(fits);
      if |left| == 0 || |right| == 0 then Raised
      else
        SumSlopesSign(left);
        MeanSlopeSign(left);
        if Average(right).slope == 0.0 then Raised
        else Lines(LanePair(EndCoordinates(height, Average(left)), EndCoordinates(height, Average(right))))
  }

  /** A frame with segments raises exactly when the segments do not include both a strictly
      falling and a strictly rising one; otherwise it yields two lines. */
  lemma PrototypeRaisesIff(hough: Option<seq<Fit>>, height: nat)
    ensures PrototypeOutcome(hough, height) == NoSegments <==> hough.None?
    ensures PrototypeOutcome(hough, height) == Raised <==>
              hough.Some? &&
              ((forall i :: 0 <= i < |hough.value| ==> hough.value[i].slope >= 0.0) ||
               (forall i :: 0 <= i < |hough.value| ==> hough.value[i].slope <= 0.0))
  {
    if hough.Some? {
      var fits := hough.value;
      var left, right := Negatives(fits), NonNegatives(fits);
      var allNonNeg := forall i :: 0 <= i < |fits| ==> fits[i].slope >= 0.0;
      var allNonPos := forall i :: 0 <= i < |fits| ==> fits[i].slope <= 0.0;
      assert |left| == 0 <==> allNonNeg by {
        if |left| > 0 { assert left[0] in left; }
        if !allNonNeg {
          var i :| 0 <= i < |fits| && fits[i].slope < 0.0;
          assert fits[i] in fits;
          assert fits[i] in left;
        }
      }
      if |right| == 0 {
        assert allNonPos by {
          forall i | 0 <= i < |fits| ensures fits[i].slope <= 0.0 {
            assert fits[i] in fits;
            if fits[i].slope >= 0.0 { assert fits[i] in right; }
          }
        }
      }
      if |left| > 0 && |right| > 0 {
        SumSlopesSign(right);
        MeanSlopeSign(right);
        assert right[0] in right;
        assert Average(right).slope == 0.0 <==> allNonPos by {
          if Average(right).slope == 0.0 {
            forall i | 0 <= i < |fits| ensures fits[i].slope <= 0.0 {
              assert fits[i] in fits;
              if fits[i].slope >= 0.0 {
                assert fits[i] in right;
                var j :| 0 <= j < |right| && right[j] == fits[i];
              }
            }
          }
          if allNonPos {
            forall j | 0 <= j < |right| ensures right[j].slope == 0.0 {
              assert right[j] in right;
              var i :| 0 <= i < |fits| && fits[i] == right[j];
            }
            SumSlopesZero(right);
          }
        }
      }
    }
  }

  lemma {:induction false} SumSlopesZero(fits: seq<Fit>)
    requires forall i :: 0 <= i < |fits| ==> fits[i].slope == 0.0
    ensures SumSlopes(fits) == 0.0
  {
    if fits != [] {
      SumSlopesZero(fits[..|fits| - 1]);
    }
  }

  /** `findLaneLines` as written: one pass sorting fits by slope sign, then average and project. */
  method FindLaneLines(hough: Option<seq<Fit>>, height: nat) returns (r: Outcome)
    ensures r == PrototypeOutcome(hough, height)
  {
    if hough.None? {
      return NoSegments;
    }
    var fits := hough.value;
    var left, right := [], [];
    for i := 0 to |fits|
      invariant left == Negatives(fits[..i])
      invariant right == NonNegatives(fits[..i])
    {
      assert fits[..i + 1][..i] == fits[..i];
      if fits[i].slope < 0.0 {
        left := left + [fits[i]];
      } else {
        right := right + [fits[i]];
      }
    }
    assert fits[..|fits|] == fits;
    if |left| == 0 || |right| == 0 {
      return Raised;
    }
    SumSlopesSign(left);
    MeanSlopeSign(left);
    var rightAvg := Average(right);
    if rightAvg.slope == 0.0 {
      return Raised;
    }
    r := Lines(LanePair(EndCoordinates(height, Average(left)), EndCoordinates(height, rightAvg)));
  }
}
