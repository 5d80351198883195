/** The axis-aligned target rectangle and the 8x8 linear system whose
    solution is the projective transform taking the sorted calibration points
    onto that rectangle. All entries of the system are integers; solving it is
    left to LAPACK's `gesv`, which is not part of this model. */
module Homography {
  import opened Geometry

  /** The target rectangle, from the four calibration points in `pointSort`
      order: left and right columns are the truncated midpoints of points 0,2
      and 1,3, the top row that of points 0,1, and the bottom row lies
      `width * 480 / 640` below the top (computed in floating point, here in
      exact arithmetic, and truncated on conversion to int). */
  function TargetRect(pts: seq<Point>): (rect: seq<Point>)
    requires |pts| == 4
    ensures |rect| == 4
    ensures rect[0].x == rect[2].x && rect[1].x == rect[3].x
    ensures rect[0].y == rect[1].y && rect[2].y == rect[3].y
    ensures rect[0].x == Mid(pts[0].x, pts[2].x) && rect[1].x == Mid(pts[1].x, pts[3].x)
    ensures rect[0].y == Mid(pts[0].y, pts[1].y)
    ensures rect[2].y == Trunc(rect[0].y as real + (rect[1].x - rect[0].x) as real * 0.75)
  {
    var left := Mid(pts[0].x, pts[2].x);
    var right := Mid(pts[1].x, pts[3].x);
    var top := Mid(pts[0].y, pts[1].y);
    var width := (right - left) as real;
    var height := (width / FrameWidth as real) * FrameHeight as real;
    var bottom := Trunc(top as real + height);
    [Point(left, top), Point(right, top), Point(left, bottom), Point(right, bottom)]
  }

  /** When the top row and the width are not negative, the rectangle is
      exactly `3 * width / 4` rows high, in integer division. The width is
      not negative when each horizontal edge's left corner sorts first. */
  lemma TargetRectHeight(pts: seq<Point>)
    requires |pts| == 4
    requires TargetRect(pts)[0].y >= 0 && TargetRect(pts)[1].x >= TargetRect(pts)[0].x
    ensures var r := TargetRect(pts); r[2].y - r[0].y == (3 * (r[1].x - r[0].x)) / 4
  {
    var r := TargetRect(pts);
    var top, w := r[0].y, r[1].x - r[0].x;
    var q, rem := (3 * w) / 4, (3 * w) % 4;
    var x := top as real + (w as real / FrameWidth as real) * FrameHeight as real;
    assert x == (top + q) as real + rem as real / 4.0;
    assert r[2].y == Trunc(x);
  }

  /** Row `2m` of the system for source point `p` and target corner `t`. */
  function XRow(p: Point, t: Point): seq<int>
  {
    [p.x, p.y, 1, 0, 0, 0, -t.x * p.x, -t.x * p.y]
  }

  /** Row `2m + 1` of the system for source point `p` and target corner `t`. */
  function YRow(p: Point, t: Point): seq<int>
  {
    [0, 0, 0, p.x, p.y, 1, -t.y * p.x, -t.y * p.y]
  }

  /** Row `n` of the coefficient matrix: two rows per point pair. */
  function SystemRow(pts: seq<Point>, rect: seq<Point>, n: int): seq<int>
    requires |pts| == 4 && |rect| == 4 && 0 <= n < 8
  {
    if n % 2 == 0 then XRow(pts[n / 2], rect[n / 2]) else YRow(pts[n / 2], rect[n / 2])
  }

  /** Entry `n` of the right-hand side: the target corner's column, then its row. */
  function SystemRhs(rect: seq<Point>, n: int): int
    requires |rect| == 4 && 0 <= n < 8
  {
    if n % 2 == 0 then rect[n / 2].x else rect[n / 2].y
  }

  /** The loop of `SetupProjectionVector` that fills `inMatrix` and `inVect`. */
  method BuildSystem(pts: seq<Point>, rect: seq<Point>) returns (a: array2<int>, b: array<int>)
    requires |pts| == 4 && |rect| == 4
    ensures a.Length0 == 8 && a.Length1 == 8 && b.Length == 8
    ensures forall n, j :: 0 <= n < 8 && 0 <= j < 8 ==> a[n, j] == SystemRow(pts, rect, n)[j]
    ensures forall n :: 0 <= n < 8 ==> b[n] == SystemRhs(rect, n)
  {
    a := new int[8, 8];
    b := new int[8];
    for m := 0 to 4
      invariant forall n, j :: 0 <= n < 2 * m && 0 <= j < 8 ==> a[n, j] == SystemRow(pts, rect, n)[j]
      invariant forall n :: 0 <= n < 2 * m ==> b[n] == SystemRhs(rect, n)
    {
      var n := m * 2;
      FillPair(a, b, pts[m], rect[m], n);
      assert n / 2 == m && (n + 1) / 2 == m && n % 2 == 0 && (n + 1) % 2 == 1;
    }
  }

  /** One turn of that loop: rows `n` and `n + 1` and their right-hand sides. */
  method FillPair(a: array2<int>, b: array<int>, p: Point, t: Point, n: int)
    requires a.Length0 == 8 && a.Length1 == 8 && b.Length == 8 && 0 <= n < 7
    modifies a, b
    ensures forall j :: 0 <= j < 8 ==> a[n, j] == XRow(p, t)[j] && a[n + 1, j] == YRow(p, t)[j]
    ensures b[n] == t.x && b[n + 1] == t.y
    ensures forall i, j :: 0 <= i < 8 && 0 <= j < 8 && i != n && i != n + 1 ==> a[i, j] == old(a[i, j])
    ensures forall i :: 0 <= i < 8 && i != n && i != n + 1 ==> b[i] == old(b[i])
  {
    FillRow(a, b, n, XRow(p, t), t.x);
    FillRow(a, b, n + 1, YRow(p, t), t.y);
  }

  /** Row `n` of the matrix and entry `n` of the right-hand side, entry by
      entry as the source writes them. */
  method FillRow(a: array2<int>, b: array<int>, n: int, row: seq<int>, rhs: int)
    requires a.Length0 == 8 && a.Length1 == 8 && b.Length == 8 && 0 <= n < 8 && |row| == 8
    modifies a, b
    ensures forall j :: 0 <= j < 8 ==> a[n, j] == row[j]
    ensures b[n] == rhs
    ensures forall i, j :: 0 <= i < 8 && 0 <= j < 8 && i != n ==> a[i, j] == old(a[i, j])
    ensures forall i :: 0 <= i < 8 && i != n ==> b[i] == old(b[i])
  {
    a[n, 0] := row[0];
    a[n, 1] := row[1];
    a[n, 2] := row[2];
    a[n, 3] := row[3];
    a[n, 4] := row[4];
    a[n, 5] := row[5];
    a[n, 6] := row[6];
    a[n, 7] := row[7];
    b[n] := rhs;
  }

  /** A row of integer coefficients applied to a real vector of 8 unknowns. */
  function Dot(row: seq<int>, v: seq<real>): real
    requires |row| == 8 && |v| == 8
  {
    row[0] as real * v[0] + row[1] as real * v[1] + row[2] as real * v[2] + row[3] as real * v[3]
    + row[4] as real * v[4] + row[5] as real * v[5] + row[6] as real * v[6] + row[7] as real * v[7]
  }

  /** The common denominator `v6 * x + v7 * y + 1` of the projective map at `p`. */
  function Denom(v: seq<real>, p: Point): real
    requires |v| == 8
  {
    v[6] * p.x as real + v[7] * p.y as real + 1.0
  }

  /** The projective map of `ProjectPoint`, in exact arithmetic:
      `((v0 x + v1 y + v2) / d, (v3 x + v4 y + v5) / d)` with `d = Denom(v, p)`. */
  function ProjectReal(v: seq<real>, p: Point): (r: (real, real))
    requires |v| == 8 && Denom(v, p) != 0.0
    ensures r.0 * Denom(v, p) == v[0] * p.x as real + v[1] * p.y as real + v[2]
    ensures r.1 * Denom(v, p) == v[3] * p.x as real + v[4] * p.y as real + v[5]
  {
    var d := Denom(v, p);
    ((v[0] * p.x as real + v[1] * p.y as real + v[2]) / d,
     (v[3] * p.x as real + v[4] * p.y as real + v[5]) / d)
  }

  /** `v` solves the whole system built from `pts` and `rect`. */
  predicate SolvesSystem(pts: seq<Point>, rect: seq<Point>, v: seq<real>)
    requires |pts| == 4 && |rect| == 4 && |v| == 8
  {
    forall n :: 0 <= n < 8 ==> Dot(SystemRow(pts, rect, n), v) == SystemRhs(rect, n) as real
  }

  /** The two rows of a point pair say, after multiplying out the denominator,
      that the projective map takes `p` to `t`. */
  lemma RowsAreProjection(p: Point, t: Point, v: seq<real>)
    requires |v| == 8
    ensures Dot(XRow(p, t), v) == t.x as real
            <==> v[0] * p.x as real + v[1] * p.y as real + v[2] == t.x as real * Denom(v, p)
    ensures Dot(YRow(p, t), v) == t.y as real
            <==> v[3] * p.x as real + v[4] * p.y as real + v[5] == t.y as real * Denom(v, p)
  {
    var x, y, X, Y := p.x as real, p.y as real, t.x as real, t.y as real;
    assert (-t.x * p.x) as real == -(X * x) && (-t.x * p.y) as real == -(X * y);
    assert (-t.y * p.x) as real == -(Y * x) && (-t.y * p.y) as real == -(Y * y);
    assert Dot(XRow(p, t), v) == v[0] * x + v[1] * y + v[2] - X * x * v[6] - X * y * v[7];
    assert Dot(YRow(p, t), v) == v[3] * x + v[4] * y + v[5] - Y * x * v[6] - Y * y * v[7];
    assert X * Denom(v, p) == X * x * v[6] + X * y * v[7] + X;
    assert Y * Denom(v, p) == Y * x * v[6] + Y * y * v[7] + Y;
  }

  /** The two rows of point pair `m` hold exactly when the map takes
      `pts[m]` onto `rect[m]`. */
  lemma PairIffMapsOntoCorner(pts: seq<Point>, rect: seq<Point>, v: seq<real>, m: int)
    requires |pts| == 4 && |rect| == 4 && |v| == 8 && 0 <= m < 4
    requires Denom(v, pts[m]) != 0.0
    ensures (Dot(SystemRow(pts, rect, 2 * m), v) == SystemRhs(rect, 2 * m) as real
             && Dot(SystemRow(pts, rect, 2 * m + 1), v) == SystemRhs(rect, 2 * m + 1) as real)
            <==> ProjectReal(v, pts[m]) == (rect[m].x as real, rect[m].y as real)
  {
    assert (2 * m) / 2 == m && (2 * m + 1) / 2 == m && (2 * m) % 2 == 0 && (2 * m + 1) % 2 == 1;
    assert SystemRow(pts, rect, 2 * m) == XRow(pts[m], rect[m]);
    assert SystemRow(pts, rect, 2 * m + 1) == YRow(pts[m], rect[m]);
    RowsAreProjection(pts[m], rect[m], v);
    var d := Denom(v, pts[m]);
    var r := ProjectReal(v, pts[m]);
    DivideOut(r.0, rect[m].x as real, d);
    DivideOut(r.1, rect[m].y as real, d);
  }

  /** Where the projective map is defined at all four calibration points, a
      vector solves the system exactly when the map takes each point onto its
      rectangle corner: the solver's output reproduces the rectangle. */
  lemma SolvesSystemIffMapsOntoRect(pts: seq<Point>, rect: seq<Point>, v: seq<real>)
    requires |pts| == 4 && |rect| == 4 && |v| == 8
    requires forall m :: 0 <= m < 4 ==> Denom(v, pts[m]) != 0.0
    ensures SolvesSystem(pts, rect, v)
            <==> forall m :: 0 <= m < 4 ==> ProjectReal(v, pts[m]) == (rect[m].x as real, rect[m].y as real)
  {
    PairIffMapsOntoCorner(pts, rect, v, 0);
    PairIffMapsOntoCorner(pts, rect, v, 1);
    PairIffMapsOntoCorner(pts, rect, v, 2);
    PairIffMapsOntoCorner(pts, rect, v, 3);
  }

  /** A solution of the whole system takes calibration point `m` onto its
      rectangle corner wherever the map is defined there. */
  lemma SolutionMapsCorner(pts: seq<Point>, rect: seq<Point>, v: seq<real>, m: int)
    requires |pts| == 4 && |rect| == 4 && |v| == 8 && 0 <= m < 4
    requires SolvesSystem(pts, rect, v) && Denom(v, pts[m]) != 0.0
    ensures ProjectReal(v, pts[m]) == (rect[m].x as real, rect[m].y as real)
  {
    assert Dot(SystemRow(pts, rect, 2 * m), v) == SystemRhs(rect, 2 * m) as real;
    assert Dot(SystemRow(pts, rect, 2 * m + 1), v) == SystemRhs(rect, 2 * m + 1) as real;
    PairIffMapsOntoCorner(pts, rect, v, m);
  }

  /** With a nonzero denominator, `r * d == c * d` exactly when `r == c`. */
  lemma DivideOut(r: real, c: real, d: real)
    requires d != 0.0
    ensures r * d == c * d <==> r == c
  {
    if r * d == c * d {
      assert (r - c) * d == 0.0;
    }
  }
}
