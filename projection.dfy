/** `ProjectPoint` and `Raster`: the projective map of an image point,
    converted to int, then snapped toward zero onto a grid whose cells are a
    quarter of the calibration quadrilateral's width and height. */
module Projection {
  import opened Geometry
  import opened PointOrder
  import opened Homography

  /** Raster cell width and height, in pixels. */
  datatype CellSize = CellSize(x: nat, y: nat)

  /** The cells of `ProjectPoint`: a quarter of the distance between the left
      and right edge midpoints (columns) and between the upper and lower edge
      midpoints (rows), each a truncated average of two calibration points
      taken in the order given (TL, TR, BL, BR), the quarter truncated toward
      zero and made non-negative. */
  function CellSizes(pts: seq<Point>): (c: CellSize)
    requires |pts| >= 4
    ensures 4 * c.x <= Abs(Mid(pts[1].x, pts[3].x) - Mid(pts[0].x, pts[2].x)) < 4 * c.x + 4
    ensures 4 * c.y <= Abs(Mid(pts[2].y, pts[3].y) - Mid(pts[0].y, pts[1].y)) < 4 * c.y + 4
  {
    var upper := Mid(pts[0].y, pts[1].y);
    var lower := Mid(pts[2].y, pts[3].y);
    var left := Mid(pts[0].x, pts[2].x);
    var right := Mid(pts[1].x, pts[3].x);
    QuarterBounds(right - left);
    QuarterBounds(lower - upper);
    CellSize(Abs(TruncDiv(right - left, 4)), Abs(TruncDiv(lower - upper, 4)))
  }

  /** A quarter, truncated toward zero, takes at most 3 off four times its magnitude. */
  lemma QuarterBounds(d: int)
    ensures 4 * Abs(TruncDiv(d, 4)) <= Abs(d) < 4 * Abs(TruncDiv(d, 4)) + 4
  {
    var q := TruncDiv(d, 4);
    if d >= 0 {
      assert q * 4 >= 0 && q >= 0;
    } else {
      assert q * 4 <= 0 && q <= 0;
    }
  }

  /** `Raster(point, x, y)`: each coordinate divided by its (floating-point)
      cell, truncated to int, and multiplied by the cell truncated to int.
      A zero cell would divide by zero, so the cells must be nonzero. */
  function Raster(p: Point, cellX: real, cellY: real): (r: Point)
    requires cellX != 0.0 && cellY != 0.0
    ensures Trunc(cellX) == 0 ==> r.x == 0
    ensures Trunc(cellY) == 0 ==> r.y == 0
    ensures Trunc(cellX) != 0 ==> r.x % Trunc(cellX) == 0
    ensures Trunc(cellY) != 0 ==> r.y % Trunc(cellY) == 0
  {
    var qx, qy := Trunc(p.x as real / cellX), Trunc(p.y as real / cellY);
    assert Trunc(cellX) != 0 ==> (qx * Trunc(cellX)) % Trunc(cellX) == 0 by {
      if Trunc(cellX) != 0 { MultipleMod(qx, Trunc(cellX)); }
    }
    assert Trunc(cellY) != 0 ==> (qy * Trunc(cellY)) % Trunc(cellY) == 0 by {
      if Trunc(cellY) != 0 { MultipleMod(qy, Trunc(cellY)); }
    }
    Point(qx * Trunc(cellX), qy * Trunc(cellY))
  }

  /** On one axis with an integral cell `c`, snapping gives the multiple of
      `c` next to `v` on the side of zero: the truncating quotient times `c`,
      of the sign of `v` and no greater in magnitude, less than one cell away. */
  lemma SnapToward0(v: int, c: int)
    requires c != 0
    ensures var s := Trunc(v as real / c as real) * Trunc(c as real);
      && s == TruncDiv(v, c) * c
      && s % c == 0
      && Abs(s) <= Abs(v) && Abs(v - s) < Abs(c)
      && (s == 0 || (s < 0 <==> v < 0))
  {
    TruncOfQuotient(v, c);
    TruncOfInt(c);
    var q := TruncDiv(v, c);
    var s := q * c;
    assert s % c == 0 by {
      assert s == q * c;
      MultipleMod(q, c);
    }
  }

  lemma MultipleMod(q: int, c: int)
    requires c != 0
    ensures (q * c) % c == 0
  {
    var r := (q * c) % c;
    var k := (q * c) / c;
    assert q * c == k * c + r && 0 <= r < Abs(c);
    assert r == (q - k) * c;
    if q - k != 0 {
      AbsMul(q - k, c);
      MulAtLeast(Abs(q - k), Abs(c));
    }
  }

  /** With integral nonzero cells, `Raster` puts the point on the grid: each
      coordinate becomes a multiple of its cell, of the same sign as before
      and no greater in magnitude, less than a cell from where it was. */
  lemma RasterSnapsToGrid(p: Point, cx: int, cy: int)
    requires cx != 0 && cy != 0
    ensures var r := Raster(p, cx as real, cy as real);
      && r == Point(TruncDiv(p.x, cx) * cx, TruncDiv(p.y, cy) * cy)
      && r.x % cx == 0 && r.y % cy == 0
      && Abs(r.x) <= Abs(p.x) && Abs(p.x - r.x) < Abs(cx)
      && Abs(r.y) <= Abs(p.y) && Abs(p.y - r.y) < Abs(cy)
      && (r.x == 0 || (r.x < 0 <==> p.x < 0)) && (r.y == 0 || (r.y < 0 <==> p.y < 0))
  {
    SnapToward0(p.x, cx);
    SnapToward0(p.y, cy);
  }

  /** Rastering a rastered point changes nothing. */
  lemma RasterIdempotent(p: Point, cx: int, cy: int)
    requires cx != 0 && cy != 0
    ensures Raster(Raster(p, cx as real, cy as real), cx as real, cy as real) == Raster(p, cx as real, cy as real)
  {
    var r := Raster(p, cx as real, cy as real);
    RasterSnapsToGrid(p, cx, cy);
    RasterSnapsToGrid(r, cx, cy);
    TruncDivOfMultiple(TruncDiv(p.x, cx), cx);
    TruncDivOfMultiple(TruncDiv(p.y, cy), cy);
  }

  /** `ProjectPoint` is defined: the transform has its 8 entries, there are
      4 calibration points, the map's denominator at `p` is not zero and
      neither raster cell is empty. */
  predicate CanProject(v: seq<real>, pts: seq<Point>, p: Point)
  {
    |v| == 8 && |pts| >= 4 && Denom(v, p) != 0.0 && CellSizes(pts).x != 0 && CellSizes(pts).y != 0
  }

  /** `ProjectPoint(point)` with transform `v` and calibration points `pts`:
      the exact projective image, converted to int, then rastered. The result
      is the grid point next to the converted image on the side of zero: the
      truncating quotient by the cell times the cell, no greater in magnitude
      and of the same sign, less than a cell (plus the truncation) from the
      exact image. */
  function Project(v: seq<real>, pts: seq<Point>, p: Point): (r: Point)
    requires CanProject(v, pts, p)
    ensures var img := Point(Trunc(ProjectReal(v, p).0), Trunc(ProjectReal(v, p).1));
      var c := CellSizes(pts);
      && r == Point(TruncDiv(img.x, c.x) * c.x, TruncDiv(img.y, c.y) * c.y)
      && Abs(r.x) <= Abs(img.x) && (r.x == 0 || (r.x < 0 <==> img.x < 0))
      && Abs(r.y) <= Abs(img.y) && (r.y == 0 || (r.y < 0 <==> img.y < 0))
    ensures r.x % CellSizes(pts).x == 0 && r.y % CellSizes(pts).y == 0
    ensures AbsReal(r.x as real - ProjectReal(v, p).0) < (CellSizes(pts).x + 1) as real
    ensures AbsReal(r.y as real - ProjectReal(v, p).1) < (CellSizes(pts).y + 1) as real
  {
    var exact := ProjectReal(v, p);
    var ret := Point(Trunc(exact.0), Trunc(exact.1));
    var c := CellSizes(pts);
    RasterSnapsToGrid(ret, c.x, c.y);
    Raster(ret, c.x as real, c.y as real)
  }

  /** A point whose exact image is the pixel `t` projects onto `t`, rastered. */
  lemma ProjectPointOfPixel(v: seq<real>, pts: seq<Point>, p: Point, t: Point)
    requires CanProject(v, pts, p)
    requires ProjectReal(v, p) == (t.x as real, t.y as real)
    ensures Project(v, pts, p) == Raster(t, CellSizes(pts).x as real, CellSizes(pts).y as real)
  {
    TruncOfInt(t.x);
    TruncOfInt(t.y);
  }

  /** Projecting a calibration point again, through a transform that solves
      the system built for it, lands on its target rectangle corner, rastered. */
  lemma ProjectCalibrationPoint(v: seq<real>, pts: seq<Point>, m: int)
    requires |pts| == 4 && |v| == 8 && 0 <= m < 4
    requires SolvesSystem(SortByKey(pts), TargetRect(SortByKey(pts)), v)
    requires CanProject(v, pts, SortByKey(pts)[m])
    ensures var c := CellSizes(pts);
      Project(v, pts, SortByKey(pts)[m]) == Raster(TargetRect(SortByKey(pts))[m], c.x as real, c.y as real)
  {
    var s := SortByKey(pts);
    var rect := TargetRect(s);
    SolutionMapsCorner(s, rect, v, m);
    ProjectPointOfPixel(v, pts, s[m], rect[m]);
  }
}
