/** Pixel points, the fixed 640x480 frame, and the two ways C++ turns a quotient
    into an int: integer division and the (int) cast of a double, both of which
    round toward zero. Dafny's own `/` on int is Euclidean, so neither is `/`. */
module Geometry {

  /** An OpenCV `CvPoint`: integer pixel coordinates. */
  datatype Point = Point(x: int, y: int)

  /** The frame is 640x480; its centre column and row are used as fixed constants. */
  const FrameWidth: int := 640
  const FrameHeight: int := 480
  const CenterX: int := 320
  const CenterY: int := 240

  function Abs(a: int): (r: nat)
    ensures r == a || r == -a
  {
    if a < 0 then -a else a
  }

  function AbsReal(a: real): (r: real)
    ensures r >= 0.0 && (r == a || r == -a)
  {
    if a < 0.0 then -a else a
  }

  /** C++ `a / b` on int: the quotient rounded toward zero. The remainder it
      leaves is smaller than the divisor in magnitude and has the sign of `a`,
      which determines the quotient uniquely. */
  function TruncDiv(a: int, b: int): (q: int)
    requires b != 0
    ensures Abs(a - q * b) < Abs(b)
    ensures a - q * b == 0 || (a - q * b < 0 <==> a < 0)
  {
    var n := Abs(a) / Abs(b);
    TruncDivFacts(a, b, n);
    if (a < 0) == (b < 0) then n else -n
  }

  /** The remainder left by `n` (the Euclidean quotient of the magnitudes) is
      the magnitudes' remainder, carrying the sign of `a`. */
  lemma TruncDivFacts(a: int, b: int, n: int)
    requires b != 0 && n == Abs(a) / Abs(b)
    ensures var q := if (a < 0) == (b < 0) then n else -n;
      Abs(a - q * b) < Abs(b) && (a - q * b == 0 || (a - q * b < 0 <==> a < 0))
  {
    var A, B := Abs(a), Abs(b);
    var r := A % B;
    assert A == n * B + r && 0 <= r < B;
    var q := if (a < 0) == (b < 0) then n else -n;
    if b > 0 {
      assert B == b;
      if a >= 0 {
        assert q * b == n * B;
      } else {
        MulNegLeft(n, b);
        assert q * b == -(n * B);
      }
    } else {
      assert B == -b;
      MulNegRight(n, B);
      assert n * b == -(n * B);
      if a >= 0 {
        MulNegLeft(n, b);
        assert q * b == n * B;
      } else {
        assert q * b == -(n * B);
      }
    }
  }

  lemma MulNegLeft(n: int, b: int)
    ensures (-n) * b == -(n * b)
  {
  }

  lemma MulNegRight(n: int, b: int)
    ensures n * (-b) == -(n * b)
  {
  }

  /** The C++ conversion of a double to int: drop the fraction, toward zero. */
  function Trunc(r: real): (i: int)
    ensures r >= 0.0 ==> 0 <= i && i as real <= r < i as real + 1.0
    ensures r < 0.0 ==> i <= 0 && i as real - 1.0 < r <= i as real
  {
    if r >= 0.0 then r.Floor else -((-r).Floor)
  }

  /** The truncated midpoint `(a + b) / 2` the source takes of two coordinates. */
  function Mid(a: int, b: int): (m: int)
    ensures Abs(a + b - 2 * m) <= 1
    ensures a + b >= 0 ==> 2 * m <= a + b
    ensures a + b < 0 ==> a + b <= 2 * m
  {
    TruncDiv(a + b, 2)
  }

  /** Truncating an integer-valued real gives that integer back. */
  lemma TruncOfInt(n: int)
    ensures Trunc(n as real) == n
  {
  }

  /** Converting the real quotient of two ints to int is the same as dividing
      them as ints: both truncate toward zero. */
  lemma TruncOfQuotient(a: int, b: int)
    requires b != 0
    ensures Trunc(a as real / b as real) == TruncDiv(a, b)
  {
    var A, B := Abs(a), Abs(b);
    var x := A as real / B as real;
    FloorOfQuotient(A, B);
    assert x >= 0.0;
    var f := a as real / b as real;
    assert f == x || f == -x by {
      if a < 0 { assert a as real == -(A as real); }
      if b < 0 { assert b as real == -(B as real); }
      NegQuotient(A as real, B as real);
    }
    if (a < 0) == (b < 0) {
      assert f == x by {
        if a < 0 { assert f == (-(A as real)) / (-(B as real)); NegQuotient(A as real, B as real); }
      }
    } else {
      assert f == -x by {
        NegQuotient(A as real, B as real);
        if a < 0 { assert f == (-(A as real)) / (B as real); } else { assert f == (A as real) / (-(B as real)); }
      }
      if x == 0.0 { assert A == 0; }
    }
  }

  lemma NegQuotient(x: real, y: real)
    requires y != 0.0
    ensures (-x) / y == -(x / y) && x / (-y) == -(x / y) && (-x) / (-y) == x / y
  {
  }

  /** For naturals, the floor of the real quotient is the Euclidean quotient. */
  lemma FloorOfQuotient(a: nat, b: nat)
    requires b > 0
    ensures (a as real / b as real).Floor == a / b
  {
    var n, r := a / b, a % b;
    var x := a as real / b as real;
    var g := r as real / b as real;
    assert a == n * b + r;
    assert a as real == n as real * b as real + r as real;
    assert x * b as real == a as real;
    assert (n as real + g) * b as real == n as real * b as real + g * b as real;
    assert g * b as real == r as real;
    assert x == n as real + g by {
      assert (x - (n as real + g)) * b as real == 0.0;
    }
    assert 0.0 <= g < 1.0;
  }

  /** Dividing an exact multiple truncates nothing. */
  lemma TruncDivOfMultiple(q: int, c: int)
    requires c != 0
    ensures TruncDiv(q * c, c) == q
  {
    var r := TruncDiv(q * c, c);
    var d := q - r;
    assert q * c - r * c == d * c;
    assert Abs(d * c) < Abs(c);
    if d != 0 {
      AbsMul(d, c);
      MulAtLeast(Abs(d), Abs(c));
    }
  }

  lemma AbsMul(d: int, c: int)
    ensures Abs(d * c) == Abs(d) * Abs(c)
  {
    if d < 0 { MulNegLeft(d, c); }
    if c < 0 { MulNegRight(Abs(d), c); }
  }

  lemma MulAtLeast(d: int, c: int)
    requires d >= 1 && c >= 0
    ensures d * c >= c
  {
  }
}
