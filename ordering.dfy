/** The comparator `pointSort` and the canonical order it gives the four
    calibration points before the homography system is built. */
module PointOrder {
  import opened Geometry

  /** The sort key `x + 1000 * y`: row-major as long as columns stay below 1000. */
  function Key(p: Point): int
  {
    p.x + p.y * 1000
  }

  /** `pointSort(a, b)`: `a` goes before `b`. */
  predicate PointLess(a: Point, b: Point)
    ensures a.y == b.y ==> (PointLess(a, b) <==> a.x < b.x)
    ensures a.x == b.x ==> (PointLess(a, b) <==> a.y < b.y)
  {
    Key(a) < Key(b)
  }

  /** `pointSort` is a strict weak ordering, as `std::sort` demands of its
      comparator: irreflexive, transitive, and with transitive incomparability
      (two points are incomparable exactly when their keys are equal). */
  lemma PointLessIsStrictWeakOrder(a: Point, b: Point, c: Point)
    ensures !PointLess(a, a)
    ensures PointLess(a, b) && PointLess(b, c) ==> PointLess(a, c)
    ensures !PointLess(a, b) && !PointLess(b, a) && !PointLess(b, c) && !PointLess(c, b)
            ==> !PointLess(a, c) && !PointLess(c, a)
  {
  }

  /** For columns in 0..999 the key orders by row first and by column within
      a row. */
  lemma {:induction false} PointLessIsRowMajor(a: Point, b: Point)
    requires 0 <= a.x < 1000 && 0 <= b.x < 1000
    ensures PointLess(a, b) <==> a.y < b.y || (a.y == b.y && a.x < b.x)
  {
    if a.y < b.y {
      assert b.y * 1000 >= a.y * 1000 + 1000;
    } else if a.y > b.y {
      assert a.y * 1000 >= b.y * 1000 + 1000;
    }
  }

  /** Keys never decrease along `s`. */
  predicate SortedByKey(s: seq<Point>)
  {
    forall i, j :: 0 <= i < j < |s| ==> Key(s[i]) <= Key(s[j])
  }

  /** Inserting `p` into a key-sorted sequence, before the first point not less than it. */
  function Insert(p: Point, s: seq<Point>): (r: seq<Point>)
    ensures multiset(r) == multiset(s) + multiset{p}
    ensures forall x :: x in r <==> x == p || x in s
  {
    if s == [] || !PointLess(s[0], p) then
      [p] + s
    else
      assert s == [s[0]] + s[1..];
      [s[0]] + Insert(p, s[1..])
  }

  /** Insertion keeps a sequence sorted. */
  lemma {:induction false} InsertKeepsSorted(p: Point, s: seq<Point>)
    requires SortedByKey(s)
    ensures SortedByKey(Insert(p, s))
  {
    var r := Insert(p, s);
    if s == [] || !PointLess(s[0], p) {
      forall i, j | 0 <= i < j < |r| ensures Key(r[i]) <= Key(r[j]) {
        assert r[j] == s[j - 1];
        if i > 0 { assert r[i] == s[i - 1]; }
      }
    } else {
      var rest := Insert(p, s[1..]);
      InsertKeepsSorted(p, s[1..]);
      assert r == [s[0]] + rest;
      forall i, j | 0 <= i < j < |r| ensures Key(r[i]) <= Key(r[j]) {
        if i == 0 {
          assert r[j] == rest[j - 1] && r[j] in rest;
          if r[j] != p {
            var k :| 0 <= k < |s[1..]| && s[1..][k] == r[j];
            assert s[k + 1] == r[j];
          }
        } else {
          assert r[i] == rest[i - 1] && r[j] == rest[j - 1];
        }
      }
    }
  }

  /** The copy of the calibration points that `std::sort` orders with
      `pointSort`: a permutation of the input with keys non-decreasing.
      Points with equal keys keep their input order here; `std::sort` leaves
      that order unspecified. */
  function SortByKey(s: seq<Point>): (r: seq<Point>)
    ensures multiset(r) == multiset(s)
    ensures SortedByKey(r)
    ensures |r| == |s|
  {
    if s == [] then []
    else
      assert s == [s[0]] + s[1..];
      InsertKeepsSorted(s[0], SortByKey(s[1..]));
      Insert(s[0], SortByKey(s[1..]))
  }
}
