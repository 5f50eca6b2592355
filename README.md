# Lane detection arithmetic, modelled in Dafny

This project models the arithmetic and bookkeeping of a camera lane detector
(cdbrauer/Lane-Detection-EGR530). The edge detection, Hough extraction and drawing
calls are left to OpenCV. The model covers:

- **Helpers** (`HelperFunctions.py`). Builds the tapered rectangular and the
  five-sided triangular regions of interest, with their closed edge loops. Keeps
  the fitted segments whose slope lies in the band 0.36 < |m| < 5.67 and splits
  them by sign into left and right. Averages each side and projects the average
  to integer end points with `x = int((y - b) / m)`. Reports "no lines in frame"
  and "no lines in slope range" as errors, and substitutes the zero line for an
  empty side.
- **BandTracker** (`LaneAnnotationV2.py`). An 18-band tracker over an 18 x 2 array
  of stored lines, modelled as a class over an `array2`. Each band's left and right
  windows are masked, and a found line is blended in with rate 0.8. A miss keeps
  the stored line. The next band sits on top of the current one, shrinks by 0.9,
  and is recentred on the stored near x-coordinate. Steering is the mean line
  centre over bands 2..7 as a fraction of the width.
- **Fusion** (`LaneAnnotation.py`). Fuses a geometry-only pipeline (G) and a
  geometry-plus-colour pipeline (GC). A pipeline that raises keeps its last report.
  The combined estimate moves at rate 0.1 toward a mix weighted 0.3/0.7 (both
  found), 0.8/0.2 (G only) or 0.0/1.0 (GC only), and stays put when neither found
  lines.
- **Prototype** (`lane-annotation.py`). The earlier single-pipeline version: a
  triangle mask, an unfiltered sign split, and projection from the bottom row to
  mid-height. An empty side or a zero mean right slope raises inside the caller's
  `try`, which the model reports as the outcome `Raised`.

Shared modules: `Numeric` holds Python's `round` (half to even), `int()` on a
float (truncation toward zero), `abs` and powers. `Smoothing` holds the
exponential moving average on four-coordinate segments. `Wrappers` holds
`Option`/`Result`. Python floats are modelled as `real`.

Inputs the model does not compute:
- **Hough output.** The fitted `(slope, intercept)` pairs are an input of type
  `Option<seq<Fit>>`, where `None` means `HoughLinesP` found nothing.
- **Band extractor.** The extractor for each band window is a function parameter
  `(MaskParams, Seg) -> Option<Seg>`, where `None` is its `IndexError`.
- **Fusion pipelines.** Each pipeline's per-frame report is an `Option<Estimate>`.

The code behaves as follows, and the model follows it:
- The next band's window is recentred on the *stored, already smoothed* x1 of the
  band just processed (`LaneAnnotationV2.py:101-104` reads `laneCoords[b]` after
  the update).
- Stored band lines start at 640 in every coordinate (`LaneAnnotationV2.py:31`).
- An empty side in `FindLaneLines` yields the zero line `[0, 0, 0, 0]`.
- Band 0 is 0.04 high, and band b + 1 is 0.04 * 0.9^b high. Because the fall-off
  exponent is the index of the band just processed, bands 0 and 1 have the same
  height.

## Model

| member | source | states |
|---|---|---|
| Numeric.Round | HelperFunctions.py:98-99 | Python `round`: within half a unit of the argument, and an exact tie goes to the even integer |
| Numeric.RoundMonotone | HelperFunctions.py:27-30 | rounding preserves order, so larger fractions never give smaller pixel coordinates |
| Numeric.Trunc | HelperFunctions.py:102-103 | `int()` on a float: less than 1 from the argument, never larger in magnitude, same sign |
| Helpers.PxMonotone | HelperFunctions.py:27-30 | `round(extent * f)` is monotone in the fraction f |
| Helpers.RectangularMask | HelperFunctions.py:20-51 | four corners (top-left, top-right, bottom-right, bottom-left) and four edges that trace the polygon as a closed loop |
| Helpers.UntaperedMaskIsRectangle | HelperFunctions.py:20-31 | with zero tapers the top corners sit straight above the bottom corners at `left` and `right` |
| Helpers.TaperMovesTopCorners | HelperFunctions.py:26-31 | a non-negative left taper moves the top-left corner inward (right), and a non-positive one outward; the mirrored holds for the right taper; with top <= bottom the top corners sit at or above the bottom ones |
| Helpers.TriangularMask | HelperFunctions.py:54-87 | five vertices and five edges that trace them as a closed loop, each edge starting where the previous ends |
| Helpers.TruncatedColumnNearLine | HelperFunctions.py:101-103 | the truncated column of a row lies within one column of the fitted line, measured along the row |
| Helpers.CalculateEndCoordinates | HelperFunctions.py:90-107 | rows are `round(height * bottom)` and `round(height * top)`; each end point lies near the fitted line and its column never exceeds the exact column in magnitude |
| Helpers.LeftFits | HelperFunctions.py:127-133 | exactly the fits that pass the slope band and have negative slope |
| Helpers.RightFits | HelperFunctions.py:127-133 | exactly the fits that pass the slope band and have non-negative slope |
| Helpers.SidesPartitionKept | HelperFunctions.py:127-133 | every fit that passes the slope band lands on exactly one side: the two sides together are a permutation of the kept fits |
| Helpers.AverageSlopeWithin | HelperFunctions.py:140 | the mean slope of fits whose slopes lie in an open interval lies in that interval |
| Helpers.AverageInterceptWithin | HelperFunctions.py:140 | the mean intercept of fits whose intercepts lie in [lo, hi] lies in [lo, hi] |
| Helpers.AverageKeepsSide | HelperFunctions.py:128-150 | averaging one side keeps its sign and its slope band, so the projection never divides by zero |
| Helpers.Average | HelperFunctions.py:140 | `np.average(..., axis = 0)` of one side; has no contract of its own: Helpers.AverageSlopeWithin, Helpers.AverageKeepsSide and Helpers.AverageInterceptWithin state its properties |
| Helpers.SideLine | HelperFunctions.py:138-150 | an empty side gives the zero line; otherwise the averaged fit passes the slope band, the line runs from row `round(height * bottom)` to row `round(height * top)`, and each end point lies near the averaged fit with a column no larger in magnitude than the exact one |
| Helpers.FindLaneLines | HelperFunctions.py:110-155 | no Hough output gives "no lines in frame", and Hough output never does; "no lines in slope range" exactly when no fit passes the band; otherwise each side's projected average, or the zero line for an empty side |
| Smoothing.EmaSeg | LaneAnnotationV2.py:83 | with a rate in [0, 1] every coordinate of the smoothed segment lies between the measurement's and the previous value's |
| Smoothing.EmaSegIsEma | LaneAnnotationV2.py:83 | the segment EMA is the scalar EMA on each coordinate, so the convergence lemmas apply to every stored coordinate |
| Smoothing.EmaSegWithin | LaneAnnotationV2.py:83 | the smoothed segment stays inside any range that contains both the measurement and the previous value |
| Smoothing.RepeatedClosedForm | LaneAnnotationV2.py:83 | after n identical measurements the gap to the measurement is (1 - rate)^n times the starting gap |
| Smoothing.RepeatedConverges | LaneAnnotationV2.py:83 | with a rate in (0, 1] repeated smoothing never moves away from a constant measurement, and strictly approaches it when the rate is below 1 |
| Smoothing.RepeatedWithin | LaneAnnotationV2.py:83 | with a rate in (0, 1] repeated smoothing toward a constant measurement comes within any tolerance eps > 0 after finitely many frames |
| Smoothing.RepeatedWithinAfter | LaneAnnotationV2.py:83 | n frames suffice whenever the starting gap is below eps * (1 + n * rate) (Bernoulli's bound on (1 - rate)^n) |
| BandTracker.InitialCursor | LaneAnnotationV2.py:61-67 | band 0 has a positive height, and its left window ends before its right window starts (ll < lr < rl < rr) |
| BandTracker.LeftMask | LaneAnnotationV2.py:72 | the left window spans the cursor's rows and [ll, lr]; its left taper is positive and at most 0.01, its right taper negative and at least -0.005 |
| BandTracker.RightMask | LaneAnnotationV2.py:73 | the right window spans the cursor's rows and [rl, rr]; the taper signs and bounds are mirrored from the left window |
| BandTracker.MaskTapersFallOff | LaneAnnotationV2.py:72-73 | band 0's windows use the configured tapers (outer 0.01, inner -0.005, mirrored between the windows), and each band's four tapers are 0.9 times those of the band below |
| BandTracker.Track | LaneAnnotationV2.py:81-94 | a miss (`IndexError`) keeps the stored line; a hit puts every coordinate between the measurement's and the stored line's |
| BandTracker.NextCursor | LaneAnnotationV2.py:99-104 | the next band's bottom is the current top and its top lies strictly above it; both windows have positive width |
| BandTracker.TrackKeepsRange | LaneAnnotationV2.py:81-94 | a miss keeps the stored line exactly; a hit blends 0.8 of the measurement with 0.2 of the stored line and stays inside any range both respect |
| BandTracker.LaneTracker.constructor | LaneAnnotationV2.py:31 | 18 x 2 stored lines, every coordinate 640 |
| BandTracker.LaneTracker.ProcessBand | LaneAnnotationV2.py:80-94 | both sides of band b are tracked from their window's extraction, and every other band is unchanged |
| BandTracker.LaneTracker.ProcessFrame | LaneAnnotationV2.py:61-110 | the 18 window placements are chained from the initial one through the stored lines, every stored line is tracked from its own band's window, and the steering value is computed from the new stored lines |
| BandTracker.ChainedTops | LaneAnnotationV2.py:62-63 | the top of band b is 0.26 + 0.4 * 0.9^b, and its bottom is 0.7 for band 0 and the previous band's top otherwise |
| BandTracker.BandsContiguous | LaneAnnotationV2.py:99-100 | each band starts where the previous one ended, band b is 0.04 * 0.9^(b-1) high, and every band lies within rows (0.26, 0.7] |
| BandTracker.NextWindowsCentred | LaneAnnotationV2.py:101-104 | the next windows are centred on the stored x1 over the width and are 2 * 0.16 * 0.9^b wide; they are disjoint exactly when the right line lies more than one window width (in pixels) right of the left line |
| BandTracker.WindowsLeanInward | LaneAnnotationV2.py:72-73 | with the configured tapers the left window's top corners lean right and the right window's lean left |
| BandTracker.LineCenter | LaneAnnotationV2.py:108-109 | the mean of x1 and x2 over bands 2..7 as a fraction of twice the width; has no contract of its own: BandTracker.LineCenterFlat gives it as the sum of the 12 end columns of bands 2..7 over 12 * width |
| BandTracker.SteeringOf | LaneAnnotationV2.py:108-110 | the midpoint of the two line centres; has no contract of its own: BandTracker.SteeringFlat pins it, and BandTracker.SteeringOfVerticalLines, BandTracker.SteeringFollowsShift and BandTracker.SteeringWithinFrame state its consequences |
| BandTracker.LineCenterFlat | LaneAnnotationV2.py:108-109 | one side's line centre is the sum of x1 + x2 over bands 2..7 inclusive, divided by 12 * width |
| BandTracker.SteeringFlat | LaneAnnotationV2.py:108-110 | the steering value is the sum of the 24 end columns x1 and x2 of both sides over bands 2..7 inclusive, divided by 24 * width |
| BandTracker.EndColumnsSplit | LaneAnnotationV2.py:108-109 | summing the x1 column and the x2 column separately gives the line-by-line sum of x1 + x2 |
| BandTracker.MeanShift | LaneAnnotationV2.py:108-109 | shifting all values by d shifts `np.average` by d |
| BandTracker.MeanBounds | LaneAnnotationV2.py:108-109 | the average of values in [lo, hi] lies in [lo, hi] |
| BandTracker.SteeringOfVerticalLines | LaneAnnotationV2.py:108-110 | vertical lines at columns l and r over the test bands steer to (l + r) / (2 * width) |
| BandTracker.CentredLanePointsAtReference | LaneAnnotationV2.py:108-115 | lines at x = 200 and x = 600 on an 800-pixel frame steer to 0.5, the reference pointer position |
| BandTracker.SteeringFollowsShift | LaneAnnotationV2.py:108-110 | shifting both lanes d pixels sideways shifts the steering value by d / width |
| BandTracker.SteeringWithinFrame | LaneAnnotationV2.py:108-110 | lines inside the frame over bands 2..7 give a steering value in [0, 1] |
| Fusion.Weights | LaneAnnotation.py:78-86 | weights exist exactly when a pipeline found lines; they lie in [0, 1] and sum to 1; GC outweighs G whenever GC found lines, G outweighs GC when only G did, and G has weight 0 when only GC did |
| Fusion.Combine | LaneAnnotation.py:78-86 | when neither pipeline found lines the combined estimate is unchanged; Fusion.CombineLinesApproachTarget and Fusion.CombineApproachesTarget state the update in the other frames |
| Fusion.CombineKeepsRange | LaneAnnotation.py:79-86 | the fused lines and steering stay in any range that both pipelines' estimates and the previous fused estimate respect |
| Fusion.CombineSteeringBetween | LaneAnnotation.py:79-86 | the fused steering lies between the smallest and the largest of G's, GC's and the previous fused steering |
| Fusion.CombineApproachesTarget | LaneAnnotation.py:79-86 | an updating frame closes exactly 10% of the gap between the fused steering and the weighted mix, and never overshoots it |
| Fusion.CombineLinesApproachTarget | LaneAnnotation.py:79-86 | in a frame where a pipeline found lines, each of the eight fused lane coordinates and the steering value closes exactly a tenth of its gap to wG * G + wGC * GC |
| Fusion.GcOnlyIgnoresG | LaneAnnotation.py:84-86 | when only GC found lines, G's stored estimate has no influence |
| Fusion.GOnlyWeighsStaleGc | LaneAnnotation.py:81-83 | when only G found lines, GC's last stored steering still moves the result by 0.02 per unit |
| Fusion.Fuser.constructor | LaneAnnotation.py:14-19 | all stored estimates start at zero, with no pipeline found |
| Fusion.Fuser.Step | LaneAnnotation.py:53-86 | the flags record which pipelines reported; a pipeline that raised keeps its last estimate; the combined estimate is the fusion of the previous one with the current estimates |
| Prototype.PolygonMask | lane-annotation.py:20-35 | base corners (0, h) and (w, h); both returned edges run from a base corner to the apex, which is within half a pixel of the centre column and of mid-height, with an exact tie going to the even pixel |
| Prototype.EndCoordinates | lane-annotation.py:38-53 | equals the general projection with bottom 1.0 and top 0.5, so y1 is the frame height and both ends lie near the fitted line |
| Prototype.Negatives | lane-annotation.py:71-75 | exactly the fits with negative slope |
| Prototype.NonNegatives | lane-annotation.py:71-75 | exactly the fits with non-negative slope (zero goes right) |
| Prototype.SignSplitIsPartition | lane-annotation.py:64-75 | without a slope filter the two sides together are a permutation of all fits |
| Prototype.SumSlopesSign | lane-annotation.py:72-78 | a sum of negative slopes is negative; a sum of non-negative slopes is non-negative and zero only when every slope is zero |
| Prototype.MeanSlopeSign | lane-annotation.py:77-78 | the mean slope has the sign of the slope sum and is zero exactly when the sum is |
| Prototype.PrototypeOutcome | lane-annotation.py:56-86 | two projected lines, when produced, both start on the bottom row |
| Prototype.PrototypeRaisesIff | lane-annotation.py:63-86 | no segments exactly when Hough found none; the frame raises exactly when its fits lack a strictly falling or a strictly rising one |
| Prototype.FindLaneLines | lane-annotation.py:56-86 | the single pass that sorts fits by sign and then averages and projects computes the specified outcome |

## Left out

- Image processing is not modelled: grey conversion, blur, Canny, HSV thresholds, `fillPoly`/`bitwise_and` cropping, `HoughLinesP` and `np.polyfit`. Fits enter as given `(slope, intercept)` pairs.
- Rendering, text, pointers, overlays, resizing, the capture loop and the quit key are I/O only: `DrawLines`, `DrawText`, `DrawPointer`, `InitOverlay`, `AddOverlay`, `ResizeFrame`, `DetectEdges`, `imshow`, `waitKey`, `release`.
- Floating point is `real`: there is no IEEE rounding, overflow, infinity or NaN. Where NaN or infinity would reach `int()` in the prototype, the model reports `Raised`, because the caller's bare `except` swallows that error.
- `FindLaneLineFit`, called by the band tracker, is not part of this model. It is a deterministic function parameter of the window and the stored line. BandTracker.LaneTracker.ProcessFrame therefore passes the extractor the window's mask parameters rather than the cropped image.
- The lowercase `polygonMask` and `findLaneLines` called from `LaneAnnotation.py` are not part of this model. Their results are the per-pipeline `Option<Estimate>` inputs of Fusion.Fuser.Step, and the crop midpoints they return (used only for drawing) are left out.
- Fusion.Fuser.Step: the overlay text `int(steering)` is not modelled.
- Prototype.FindLaneLines: the `[[], []]` result for an empty Hough output is the outcome `NoSegments`. The later failure when that empty pair is drawn is not modelled.
