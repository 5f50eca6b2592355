/**
 * The two-pipeline fuser (LaneAnnotation.py). Each frame is searched twice: on the
 * edges of the raw image (pipeline G, geometry only) and on the edges of its
 * yellow/white recolouring (pipeline GC, geometry and colour). A pipeline that
 * raises keeps its previous lane lines and steering value. The combined estimate
 * moves toward a weighted mix of the two with an exponential moving average of
 * rate 0.1; the mix favours GC whenever GC found lines, and a frame where neither
 * pipeline found lines leaves the combined estimate as it was.
 *
 * Each pipeline's extractor (`findLaneLines`, which is not part of this model) is an
 * input: `Some(estimate)` when it returned, `None` when it raised.
 */
module Fusion {
  import opened Numeric
  import opened Smoothing
  import opened Wrappers

  const FusionRate: real := 0.1

  /** The lane lines `[[left], [right]]` and the steering value one pipeline reports. */
  datatype Estimate = Estimate(left: Seg, right: Seg, steering: real)

  /** The start-up state of every stored estimate (`np.array([[0,0,0,0], [0,0,0,0]])`, 0). */
  const ZeroEstimate := Estimate(Seg(0.0, 0.0, 0.0, 0.0), Seg(0.0, 0.0, 0.0, 0.0), 0.0)

  /** The mixing weights (G, GC) for the frame's detection flags, or None when neither found lines. */
  function Weights(gFound: bool, gcFound: bool): (r: Option<(real, real)>)
    ensures r.Some? <==> gFound || gcFound
    ensures r.Some? ==> r.value.0 + r.value.1 == 1.0 && 0.0 <= r.value.0 <= 1.0 && 0.0 <= r.value.1 <= 1.0
    ensures gcFound ==> r.value.0 < r.value.1
    ensures gFound && !gcFound ==> r.value.1 < r.value.0
    ensures !gFound && gcFound ==> r.value.0 == 0.0
  {
    if gFound && gcFound then Some((0.3, 0.7))
    else if gFound then Some((0.8, 0.2))
    else if gcFound then Some((0.0, 1.0))
    else None
  }

  /** `a * x + b * y`, element-wise over lines and steering value. */
  function Mix(a: real, x: Estimate, b: real, y: Estimate): Estimate
  {
    Estimate(Blend(a, x.left, b, y.left), Blend(a, x.right, b, y.right), a * x.steering + b * y.steering)
  }

  /** The combined estimate after one frame, from the pipelines' current stored estimates. */
  function Combine(prev: Estimate, g: Estimate, gc: Estimate, gFound: bool, gcFound: bool): (r: Estimate)
    ensures !gFound && !gcFound ==> r == prev
  {
    match Weights(gFound, gcFound)
    case None => prev
    case Some((wg, wgc)) => Mix(FusionRate, Mix(wg, g, wgc, gc), 1.0 - FusionRate, prev)
  }

  /** All coordinates of both lines, and the steering value, lie in [lo, hi]. */
  predicate EstimateWithin(e: Estimate, lo: real, hi: real)
  {
    SegWithin(e.left, lo, hi) && SegWithin(e.right, lo, hi) && lo <= e.steering <= hi
  }

  lemma MixWithin(a: real, x: Estimate, y: Estimate, lo: real, hi: real)
    requires 0.0 <= a <= 1.0 && EstimateWithin(x, lo, hi) && EstimateWithin(y, lo, hi)
    ensures EstimateWithin(Mix(a, x, 1.0 - a, y), lo, hi)
  {
    var r := Mix(a, x, 1.0 - a, y);
    EmaSegWithin(a, x.left, y.left, lo, hi);
    EmaSegWithin(a, x.right, y.right, lo, hi);
    assert r.left == EmaSeg(a, x.left, y.left) && r.right == EmaSeg(a, x.right, y.right);
    ConvexBetween(a, x.steering, y.steering, lo, hi);
  }

  /** The fused estimate never leaves a range that both pipelines' estimates and the previous
      fused estimate respect: fusion cannot invent a line outside what was reported. */
  lemma CombineKeepsRange(prev: Estimate, g: Estimate, gc: Estimate, gFound: bool, gcFound: bool, lo: real, hi: real)
    requires EstimateWithin(prev, lo, hi) && EstimateWithin(g, lo, hi) && EstimateWithin(gc, lo, hi)
    ensures EstimateWithin(Combine(prev, g, gc, gFound, gcFound), lo, hi)
  {
    var w := Weights(gFound, gcFound);
    if w.Some? {
      var (wg, wgc) := w.value;
      assert wgc == 1.0 - wg;
      MixWithin(wg, g, gc, lo, hi);
      MixWithin(FusionRate, Mix(wg, g, wgc, gc), prev, lo, hi);
    }
  }

  /** In every updating case the fused steering lies between the smallest and the largest of
      G's steering, GC's steering and the previous fused steering. */
  lemma CombineSteeringBetween(prev: Estimate, g: Estimate, gc: Estimate, gFound: bool, gcFound: bool, lo: real, hi: real)
    requires lo <= g.steering <= hi && lo <= gc.steering <= hi && lo <= prev.steering <= hi
    ensures lo <= Combine(prev, g, gc, gFound, gcFound).steering <= hi
  {
    var w := Weights(gFound, gcFound);
    if w.Some? {
      var (wg, wgc) := w.value;
      assert wgc == 1.0 - wg;
      ConvexBetween(wg, g.steering, gc.steering, lo, hi);
      ConvexBetween(FusionRate, wg * g.steering + wgc * gc.steering, prev.steering, lo, hi);
    }
  }

  /** When only GC found lines, G's stored estimate has no influence on the result. */
  lemma GcOnlyIgnoresG(prev: Estimate, g: Estimate, g': Estimate, gc: Estimate)
    ensures Combine(prev, g, gc, false, true) == Combine(prev, g', gc, false, true)
  {
    var m, m' := Mix(0.0, g, 1.0, gc), Mix(0.0, g', 1.0, gc);
    assert m == m' by {
      assert m.left == gc.left && m'.left == gc.left;
      assert m.right == gc.right && m'.right == gc.right;
    }
  }

  /** When only G found lines, GC's stored (stale) estimate still enters with weight 0.2, so the
      fused steering moves by 0.02 per unit of difference in GC's stored steering. */
  lemma GOnlyWeighsStaleGc(prev: Estimate, g: Estimate, gc: Estimate, gc': Estimate)
    ensures Combine(prev, g, gc, true, false).steering - Combine(prev, g, gc', true, false).steering
            == 0.02 * (gc.steering - gc'.steering)
  {
  }

  /** One fused step toward a fixed pair of reports moves the fused steering a tenth of the way
      from its previous value to the weighted mix of the two reports. */
  lemma CombineApproachesTarget(prev: Estimate, g: Estimate, gc: Estimate, gFound: bool, gcFound: bool)
    requires gFound || gcFound
    ensures var t := Weights(gFound, gcFound).value.0 * g.steering + Weights(gFound, gcFound).value.1 * gc.steering;
            var r := Combine(prev, g, gc, gFound, gcFound).steering;
            Abs(r - t) == 0.9 * Abs(prev.steering - t) &&
            (prev.steering <= t ==> prev.steering <= r <= t) &&
            (t <= prev.steering ==> t <= r <= prev.steering)
  {
    var t := Weights(gFound, gcFound).value.0 * g.steering + Weights(gFound, gcFound).value.1 * gc.steering;
    var r := Combine(prev, g, gc, gFound, gcFound).steering;
    assert r - t == 0.9 * (prev.steering - t);
    AbsScale(0.9, prev.steering - t);
  }

  /** `r` is `prev` moved a tenth of the way toward `t`: the gap to `t` shrinks to 0.9 of itself. */
  predicate ClosesTenth(r: real, prev: real, t: real)
  {
    r - t == (1.0 - FusionRate) * (prev - t)
  }

  /** Every coordinate of `r` closes a tenth of its gap to the weighted mix `wg * g + wgc * gc`. */
  predicate SegClosesTenth(r: Seg, prev: Seg, wg: real, g: Seg, wgc: real, gc: Seg)
  {
    ClosesTenth(r.x1, prev.x1, wg * g.x1 + wgc * gc.x1) &&
    ClosesTenth(r.y1, prev.y1, wg * g.y1 + wgc * gc.y1) &&
    ClosesTenth(r.x2, prev.x2, wg * g.x2 + wgc * gc.x2) &&
    ClosesTenth(r.y2, prev.y2, wg * g.y2 + wgc * gc.y2)
  }

  /** In a frame where a pipeline found lines, all eight fused lane coordinates move with the
      same rate-0.1 step as the steering: each closes a tenth of its gap to the weighted mix. */
  lemma CombineLinesApproachTarget(prev: Estimate, g: Estimate, gc: Estimate, gFound: bool, gcFound: bool)
    requires gFound || gcFound
    ensures var w := Weights(gFound, gcFound).value;
            var r := Combine(prev, g, gc, gFound, gcFound);
            SegClosesTenth(r.left, prev.left, w.0, g.left, w.1, gc.left) &&
            SegClosesTenth(r.right, prev.right, w.0, g.right, w.1, gc.right) &&
            ClosesTenth(r.steering, prev.steering, w.0 * g.steering + w.1 * gc.steering)
  {
  }

  class Fuser {
    var g: Estimate
    var gc: Estimate
    var combined: Estimate
    var gFound: bool
    var gcFound: bool

    constructor ()
      ensures g == ZeroEstimate && gc == ZeroEstimate && combined == ZeroEstimate
      ensures !gFound && !gcFound
    {
      g, gc, combined := ZeroEstimate, ZeroEstimate, ZeroEstimate;
      gFound, gcFound := false, false;
    }

    /** One pass of the frame loop: store each pipeline's report (or keep its last one), then fuse. */
    method Step(reportG: Option<Estimate>, reportGC: Option<Estimate>)
      modifies this
      ensures gFound == reportG.Some? && gcFound == reportGC.Some?
      ensures g == (if gFound then reportG.value else old(g))
      ensures gc == (if gcFound then reportGC.value else old(gc))
      ensures combined == Combine(old(combined), g, gc, gFound, gcFound)
    {
      gFound := reportG.Some?;
      if gFound {
        g := reportG.value;
      }
      gcFound := reportGC.Some?;
      if gcFound {
        gc := reportGC.value;
      }
      if gFound && gcFound {
        combined := Mix(FusionRate, Mix(0.3, g, 0.7, gc), 1.0 - FusionRate, combined);
      } else if gFound {
        combined := Mix(FusionRate, Mix(0.8, g, 0.2, gc), 1.0 - FusionRate, combined);
      } else if gcFound {
        combined := Mix(FusionRate, Mix(0.0, g, 1.0, gc), 1.0 - FusionRate, combined);
      }
    }
  }
}
