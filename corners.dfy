/** Sorting the four calibration points into the corners of the floor
    quadrilateral, and extrapolating its right edge to the vanishing point.
    The only test used is a point's column against the centre column. */
module Corners {
  import opened Geometry

  /** The `CornerPosition` keys of the classification map. */
  datatype Corner = TopLeft | TopRight | BottomLeft | BottomRight

  type CornerMap = map<Corner, Point>

  /** One turn of the classification loop. A point right of the centre column
      takes TopRight if it is free, else BottomRight if that is free; a point
      left of it does the same with TopLeft and BottomLeft. A point on the
      centre column, or one whose side is full, is dropped. */
  function Place(c: CornerMap, p: Point): (r: CornerMap)
    ensures forall k :: k in c ==> k in r && r[k] == c[k]
    ensures forall k :: k in r && k !in c ==> r[k] == p
    ensures p.x == CenterX ==> r == c
  {
    if p.x > CenterX then
      if TopRight !in c then c[TopRight := p]
      else if BottomRight !in c then c[BottomRight := p]
      else c
    else if p.x < CenterX then
      if TopLeft !in c then c[TopLeft := p]
      else if BottomLeft !in c then c[BottomLeft := p]
      else c
    else
      c
  }

  /** The corner map after the loop has seen the points of `ps` in order. */
  function Classify(ps: seq<Point>): CornerMap
  {
    if ps == [] then map[] else Place(Classify(ps[..|ps| - 1]), ps[|ps| - 1])
  }

  /** The points right of the centre column, in the order given. */
  function RightOfCenter(ps: seq<Point>): seq<Point>
  {
    if ps == [] then []
    else RightOfCenter(ps[..|ps| - 1]) + (if ps[|ps| - 1].x > CenterX then [ps[|ps| - 1]] else [])
  }

  /** The points left of the centre column, in the order given. */
  function LeftOfCenter(ps: seq<Point>): seq<Point>
  {
    if ps == [] then []
    else LeftOfCenter(ps[..|ps| - 1]) + (if ps[|ps| - 1].x < CenterX then [ps[|ps| - 1]] else [])
  }

  /** Corner `k` is filled exactly when `side` has an `i`-th point, and then holds it. */
  predicate Slot(c: CornerMap, k: Corner, side: seq<Point>, i: nat)
  {
    (k in c <==> i < |side|) && (k in c ==> c[k] == side[i])
  }

  /** What the loop computes, independently of how: TopRight and BottomRight
      are the first and second points right of the centre column, TopLeft and
      BottomLeft the first and second left of it; a corner with no such point
      stays empty, and points on the centre column or beyond the second on a
      side play no part. */
  lemma {:induction false} ClassifyBySide(ps: seq<Point>)
    ensures Slot(Classify(ps), TopRight, RightOfCenter(ps), 0)
    ensures Slot(Classify(ps), BottomRight, RightOfCenter(ps), 1)
    ensures Slot(Classify(ps), TopLeft, LeftOfCenter(ps), 0)
    ensures Slot(Classify(ps), BottomLeft, LeftOfCenter(ps), 1)
  {
    if ps != [] {
      var init, p := ps[..|ps| - 1], ps[|ps| - 1];
      ClassifyBySide(init);
      var c, R, L := Classify(init), RightOfCenter(init), LeftOfCenter(init);
      if p.x > CenterX {
        assert RightOfCenter(ps) == R + [p] && LeftOfCenter(ps) == L;
      } else if p.x < CenterX {
        assert RightOfCenter(ps) == R && LeftOfCenter(ps) == L + [p];
      } else {
        assert RightOfCenter(ps) == R && LeftOfCenter(ps) == L;
      }
    }
  }

  /** No corner is ever overwritten: whatever the loop has placed after the
      first `n` points is still there, unchanged, at the end. */
  lemma {:induction false} ClassifyKeepsCorners(ps: seq<Point>, n: nat)
    requires n <= |ps|
    ensures forall k :: k in Classify(ps[..n]) ==> k in Classify(ps) && Classify(ps)[k] == Classify(ps[..n])[k]
    decreases |ps| - n
  {
    if n == |ps| {
      assert ps[..n] == ps;
    } else {
      ClassifyKeepsCorners(ps, n + 1);
      assert ps[..n + 1][..n] == ps[..n];
    }
  }

  /** The classification loop of `CalibrateVanishingPoint`, over a local map. */
  method ClassifyCorners(ps: seq<Point>) returns (corners: CornerMap)
    ensures corners == Classify(ps)
  {
    corners := map[];
    for i := 0 to |ps|
      invariant corners == Classify(ps[..i])
    {
      var pnt := ps[i];
      assert ps[..i + 1][..i] == ps[..i];
      if pnt.x > CenterX {
        if TopRight !in corners {
          corners := corners[TopRight := pnt];
        } else if BottomRight !in corners {
          corners := corners[BottomRight := pnt];
        }
      } else if pnt.x < CenterX {
        if TopLeft !in corners {
          corners := corners[TopLeft := pnt];
        } else if BottomLeft !in corners {
          corners := corners[BottomLeft := pnt];
        }
      }
    }
    assert ps[..|ps|] == ps;
  }

  /** A corner as the source reads it back: `std::map::operator[]` yields a
      value-initialised (0, 0) point for a corner that was never filled. */
  function CornerOr(c: CornerMap, k: Corner): (p: Point)
    ensures k in c ==> p == c[k]
    ensures k !in c ==> p == Point(0, 0)
  {
    if k in c then c[k] else Point(0, 0)
  }

  /** The right edge TopRight-BottomRight is not vertical; the extrapolation
      divides by its horizontal extent and the source does not guard it. */
  predicate RightEdgeSlanted(c: CornerMap)
  {
    CornerOr(c, BottomRight).x != CornerOr(c, TopRight).x
  }

  /** The row, in exact arithmetic, where the line through `tr` and `br`
      crosses the centre column. */
  function VanishingY(tr: Point, br: Point): (vy: real)
    requires br.x != tr.x
    ensures (vy - tr.y as real) * (br.x - tr.x) as real == (CenterX - tr.x) as real * (br.y - tr.y) as real
  {
    var deltaX := (br.x - tr.x) as real;
    var deltaY := (br.y - tr.y) as real;
    var deltaVX := (tr.x - CenterX) as real;
    var factX := deltaVX / deltaX;
    var deltaVY := deltaY * factX;
    tr.y as real - deltaVY
  }

  /** VanishingY is the one and only row on the centre column that is
      collinear with the right edge. */
  lemma VanishingYIsTheCrossing(tr: Point, br: Point, y: real)
    requires br.x != tr.x
    ensures (y - tr.y as real) * (br.x - tr.x) as real == (CenterX - tr.x) as real * (br.y - tr.y) as real
            <==> y == VanishingY(tr, br)
  {
    var vy := VanishingY(tr, br);
    var dx := (br.x - tr.x) as real;
    if (y - tr.y as real) * dx == (CenterX - tr.x) as real * (br.y - tr.y) as real {
      assert (y - vy) * dx == 0.0;
    }
  }

  /** The vanishing point stored by `CalibrateVanishingPoint`: on the centre
      column, at the crossing row converted to int (truncated toward zero). */
  function VanishingPointOf(ps: seq<Point>): (vp: Point)
    requires RightEdgeSlanted(Classify(ps))
    ensures vp.x == CenterX
    ensures var vy := VanishingY(CornerOr(Classify(ps), TopRight), CornerOr(Classify(ps), BottomRight));
      AbsReal(vp.y as real - vy) < 1.0 && AbsReal(vp.y as real) <= AbsReal(vy)
  {
    var c := Classify(ps);
    Point(CenterX, Trunc(VanishingY(CornerOr(c, TopRight), CornerOr(c, BottomRight))))
  }

  /** The worked example: a quadrilateral straddling the centre column 2-and-2,
      given in the order TL, TR, BL, BR. */
  lemma ClassifyExample()
    ensures Classify([Point(100, 100), Point(500, 100), Point(100, 400), Point(500, 400)])
      == map[TopLeft := Point(100, 100), TopRight := Point(500, 100),
             BottomLeft := Point(100, 400), BottomRight := Point(500, 400)]
  {
    var ps := [Point(100, 100), Point(500, 100), Point(100, 400), Point(500, 400)];
    assert ps[..1][..0] == [];
    assert Classify(ps[..1]) == map[TopLeft := Point(100, 100)];
    assert ps[..2][..1] == ps[..1];
    assert Classify(ps[..2]) == map[TopLeft := Point(100, 100), TopRight := Point(500, 100)];
    assert ps[..3][..2] == ps[..2];
    assert Classify(ps[..3]) == map[TopLeft := Point(100, 100), TopRight := Point(500, 100),
                                    BottomLeft := Point(100, 400)];
    assert ps[..3] == ps[..|ps| - 1];
  }
}
