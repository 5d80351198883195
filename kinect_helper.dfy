/** The calibration state that `KinectHelper` keeps in static members, and the
    operations that update it: the once-only tilt and vanishing-point
    calibrations, the set-up of the projective transform, and the projection
    of a point through it. */
module Kinect {
  import opened Geometry
  import opened Corners
  import opened PointOrder
  import opened Homography
  import opened Projection

  /** `GetKinectHeight`: the sensor's mounting height above the floor, in cm. */
  const KinectHeightCm: real := 38.0

  /** What the trigonometric body of `CalibrateAnglesAndViewport` gets from the
      device and from <cmath>: the sine and cotangent of the tilt, the tangent
      of half the 62.7 degree field of view, and the direct distance in cm
      derived from the depth sample that `cvGet2D(depthData, 320, 240)` reads:
      row 320, column 240, which is the image point (240, 320) and not the
      frame centre (320, 240). */
  datatype TiltReading = TiltReading(sinPitch: real, cotPitch: real, tanHalfFov: real, centreDistanceCm: real)

  class KinectHelper {
    /** `pointsUsedForCalibration`, filled by the caller (TL, TR, BL, BR). */
    var calibrationPoints: seq<Point>
    /** `VanishingPoint`; (-1, -1) until calibrated. */
    var vanishingPoint: Point
    /** `projectiveTransformationVector`; empty until set up. */
    var transform: seq<real>
    var viewPlaneDistanceCm: real
    var addDepthCm: real
    var addDepthPx: real
    var vPxPerCm: real
    var hPxPerCm: real
    /** `bAandVCalibrated` */
    var anglesCalibrated: bool
    /** `bVPCalibrated` */
    var vpCalibrated: bool

    /** The static initialisers. */
    constructor ()
      ensures calibrationPoints == [] && vanishingPoint == Point(-1, -1) && transform == []
      ensures viewPlaneDistanceCm == 0.0 && addDepthCm == 0.0 && addDepthPx == 0.0
      ensures vPxPerCm == 0.0 && hPxPerCm == 0.0
      ensures !anglesCalibrated && !vpCalibrated
    {
      calibrationPoints := [];
      vanishingPoint := Point(-1, -1);
      transform := [];
      viewPlaneDistanceCm, addDepthCm, addDepthPx := 0.0, 0.0, 0.0;
      vPxPerCm, hPxPerCm := 0.0, 0.0;
      anglesCalibrated, vpCalibrated := false, false;
    }

    /** Runs once: afterwards every call leaves all state unchanged. The first
        call estimates the view-plane distance from the tilt and height and
        derives the extra depth from it, then replaces the distance by the
        measured one and derives the pixel-per-cm scales, whose ratio is that
        of the frame's half-width to half-height, 4:3. */
    method CalibrateAnglesAndViewport(t: TiltReading)
      requires !anglesCalibrated ==> t.centreDistanceCm * t.tanHalfFov != 0.0
      modifies this
      ensures anglesCalibrated
      ensures old(anglesCalibrated) ==> unchanged(this)
      ensures !old(anglesCalibrated) ==>
        && addDepthCm == t.sinPitch * KinectHeightCm * (t.cotPitch - t.tanHalfFov)
        && viewPlaneDistanceCm == t.centreDistanceCm
        && vPxPerCm == AbsReal(CenterY as real / (t.centreDistanceCm * t.tanHalfFov))
        && hPxPerCm == AbsReal(CenterX as real / (t.centreDistanceCm * t.tanHalfFov))
        && 3.0 * hPxPerCm == 4.0 * vPxPerCm && vPxPerCm > 0.0
        && addDepthPx == addDepthCm * vPxPerCm
        && calibrationPoints == old(calibrationPoints) && vanishingPoint == old(vanishingPoint)
        && transform == old(transform) && vpCalibrated == old(vpCalibrated)
    {
      if anglesCalibrated {
        return;
      }
      viewPlaneDistanceCm := t.sinPitch * KinectHeightCm;
      addDepthCm := viewPlaneDistanceCm * (t.cotPitch - t.tanHalfFov);

      viewPlaneDistanceCm := t.centreDistanceCm;
      var scale := viewPlaneDistanceCm * t.tanHalfFov;
      vPxPerCm := AbsReal(CenterY as real / scale);
      hPxPerCm := AbsReal(CenterX as real / scale);
      assert CenterX as real / scale == (4.0 / 3.0) * (CenterY as real / scale);

      addDepthPx := addDepthCm * vPxPerCm;
      anglesCalibrated := true;
    }

    /** Runs once, and only with exactly four calibration points: it
        classifies them into corners, extrapolates the right edge to the
        centre column and stores the crossing as the vanishing point. Until
        then, and on every later call, nothing changes. */
    method CalibrateVanishingPoint()
      requires !vpCalibrated && |calibrationPoints| == 4 ==> RightEdgeSlanted(Classify(calibrationPoints))
      modifies this
      ensures old(vpCalibrated) || |old(calibrationPoints)| != 4 ==> unchanged(this)
      ensures !old(vpCalibrated) && |old(calibrationPoints)| == 4 ==>
        && vpCalibrated
        && calibrationPoints == old(calibrationPoints) && transform == old(transform)
        && vanishingPoint == VanishingPointOf(calibrationPoints) && vanishingPoint.x == CenterX
        && anglesCalibrated == old(anglesCalibrated)
        && viewPlaneDistanceCm == old(viewPlaneDistanceCm) && addDepthCm == old(addDepthCm)
        && addDepthPx == old(addDepthPx) && vPxPerCm == old(vPxPerCm) && hPxPerCm == old(hPxPerCm)
    {
      if vpCalibrated {
        return;
      }
      if |calibrationPoints| == 4 {
        var corners := ClassifyCorners(calibrationPoints);
        var topRight, bottomRight := CornerOr(corners, TopRight), CornerOr(corners, BottomRight);
        vanishingPoint := Point(CenterX, Trunc(VanishingY(topRight, bottomRight)));
        vpCalibrated := true;
      }
    }

    /** With exactly four calibration points: sorts a copy of them with
        `pointSort`, builds the target rectangle and the 8x8 system, and
        stores what the solver returns for it, here `solution`. When that
        vector does solve the system, the stored transform takes each sorted
        calibration point onto its rectangle corner. The calibration points
        themselves are not reordered. */
    method SetupProjectionVector(solution: seq<real>)
      requires |solution| == 8
      modifies this
      ensures |old(calibrationPoints)| != 4 ==> unchanged(this)
      ensures |old(calibrationPoints)| == 4 ==>
        && transform == solution
        && calibrationPoints == old(calibrationPoints) && vanishingPoint == old(vanishingPoint)
        && anglesCalibrated == old(anglesCalibrated) && vpCalibrated == old(vpCalibrated)
        && viewPlaneDistanceCm == old(viewPlaneDistanceCm) && addDepthCm == old(addDepthCm)
        && addDepthPx == old(addDepthPx) && vPxPerCm == old(vPxPerCm) && hPxPerCm == old(hPxPerCm)
      ensures |old(calibrationPoints)| == 4 ==>
        var sorted := SortByKey(calibrationPoints);
        SolvesSystem(sorted, TargetRect(sorted), solution) ==>
          forall m :: 0 <= m < 4 && Denom(transform, sorted[m]) != 0.0 ==>
            ProjectReal(transform, sorted[m]) == (TargetRect(sorted)[m].x as real, TargetRect(sorted)[m].y as real)
    {
      if |calibrationPoints| == 4 {
        var points := SortByKey(calibrationPoints);
        var straightRect := TargetRect(points);
        var inMatrix, inVect := BuildSystem(points, straightRect);
        transform := solution;
        forall m | 0 <= m < 4 && SolvesSystem(points, straightRect, solution) && Denom(transform, points[m]) != 0.0
          ensures ProjectReal(transform, points[m]) == (straightRect[m].x as real, straightRect[m].y as real)
        {
          SolutionMapsCorner(points, straightRect, solution, m);
        }
      }
    }

    /** `ProjectPoint(point)` over the current transform and calibration
        points: the exact projective image, converted to int, snapped toward
        zero onto the raster grid, so less than a cell (plus the truncation)
        from the exact image. */
    function ProjectPoint(p: Point): (r: Point)
      reads this
      requires CanProject(transform, calibrationPoints, p)
      ensures var c := CellSizes(calibrationPoints);
        && r.x == TruncDiv(Trunc(ProjectReal(transform, p).0), c.x) * c.x
        && r.y == TruncDiv(Trunc(ProjectReal(transform, p).1), c.y) * c.y
      ensures r.x % CellSizes(calibrationPoints).x == 0 && r.y % CellSizes(calibrationPoints).y == 0
      ensures AbsReal(r.x as real - ProjectReal(transform, p).0) < (CellSizes(calibrationPoints).x + 1) as real
      ensures AbsReal(r.y as real - ProjectReal(transform, p).1) < (CellSizes(calibrationPoints).y + 1) as real
    {
      Project(transform, calibrationPoints, p)
    }
  }
}
