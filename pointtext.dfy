/** The text form of a point: `operator<<` writes `[x:y]` in decimal, and
    `operator>>` reads a whitespace-free token back by matching it against
    `\[(.*?):(.*?)\]` and applying `atoi` to both groups. */
module PointText {
  import opened Geometry

  datatype Option<T> = None | Some(value: T)

  predicate IsDigit(c: char)
  {
    '0' <= c <= '9'
  }

  predicate AllDigits(s: string)
  {
    forall i :: 0 <= i < |s| ==> IsDigit(s[i])
  }

  function DigitChar(d: int): (c: char)
    requires 0 <= d < 10
    ensures IsDigit(c) && c as int - '0' as int == d
  {
    ('0' as int + d) as char
  }

  /** The decimal digits of `n`, most significant first, without leading zeros. */
  function Digits(n: nat): (s: string)
    ensures |s| >= 1 && AllDigits(s)
  {
    if n < 10 then [DigitChar(n)] else Digits(n / 10) + [DigitChar(n % 10)]
  }

  /** `ostream << int`: the decimal digits, after a `-` when negative. */
  function Decimal(n: int): (s: string)
    ensures |s| >= 1 && (IsDigit(s[0]) || s[0] == '-')
    ensures s[0] == '-' <==> n < 0
    ensures n < 0 ==> |s| >= 2 && AllDigits(s[1..])
    ensures n >= 0 ==> AllDigits(s)
    ensures forall i :: 0 <= i < |s| ==> s[i] != ':'
  {
    if n < 0 then "-" + Digits(-n) else Digits(n)
  }

  /** `operator<<(ostream&, const CvPoint&)`. */
  function FormatPoint(p: Point): (s: string)
    ensures |s| == |Decimal(p.x)| + |Decimal(p.y)| + 3 && s[0] == '[' && s[|s| - 1] == ']'
    ensures s[|Decimal(p.x)| + 1] == ':'
    ensures forall i :: 0 <= i < |s| && s[i] == ':' ==> i == |Decimal(p.x)| + 1
  {
    "[" + Decimal(p.x) + ":" + Decimal(p.y) + "]"
  }

  /** The number a run of digits denotes, most significant first. */
  function DigitsValue(s: string): nat
    requires AllDigits(s)
  {
    if s == [] then 0 else DigitsValue(s[..|s| - 1]) * 10 + (s[|s| - 1] as int - '0' as int)
  }

  /** The longest prefix of `s` made of digits. */
  function LeadingDigits(s: string): (d: string)
    ensures AllDigits(d) && |d| <= |s| && d == s[..|d|]
    ensures |d| < |s| ==> !IsDigit(s[|d|])
  {
    if s == [] || !IsDigit(s[0]) then [] else [s[0]] + LeadingDigits(s[1..])
  }

  /** C `isspace` in the "C" locale: space, tab, newline, vertical tab, form feed, carriage return. */
  predicate IsSpace(c: char)
  {
    c == ' ' || 9 <= c as int <= 13
  }

  function SkipSpace(s: string): (t: string)
    ensures |t| <= |s| && t == s[|s| - |t|..]
    ensures t == [] || !IsSpace(t[0])
  {
    if s != [] && IsSpace(s[0]) then SkipSpace(s[1..]) else s
  }

  /** C `atoi`: white space is skipped, then an optional sign and the longest
      run of digits are read; with no digits the result is 0. */
  function Atoi(s: string): (n: int)
    ensures n < 0 ==> SkipSpace(s) != [] && SkipSpace(s)[0] == '-'
    ensures AllDigits(s) ==> n == DigitsValue(s)
  {
    var t := SkipSpace(s);
    assert AllDigits(s) ==> LeadingDigits(s) == s by {
      if AllDigits(s) { LeadingDigitsOfDigits(s); }
    }
    if t != [] && t[0] == '-' then -(DigitsValue(LeadingDigits(t[1..])) as int)
    else if t != [] && t[0] == '+' then DigitsValue(LeadingDigits(t[1..]))
    else DigitsValue(LeadingDigits(t))
  }

  /** The index of the first `:` in `s`, or `|s|` when there is none. */
  function FirstColon(s: string): (i: nat)
    ensures i <= |s| && (i < |s| ==> s[i] == ':')
    ensures forall k :: 0 <= k < i ==> s[k] != ':'
  {
    if s == [] || s[0] == ':' then 0 else 1 + FirstColon(s[1..])
  }

  /** `operator>>(istream&, CvPoint&)` on one token. The pattern must match
      the whole token: a `[` first, a `]` last, and a `:` in between. Group 1
      is lazy, so it ends at the first `:`; group 2 then runs to the final `]`.
      A token that does not match gives None. */
  function ParsePoint(token: string): (r: Option<Point>)
    ensures r.Some? <==> |token| >= 2 && token[0] == '[' && token[|token| - 1] == ']'
                         && exists k :: 1 <= k < |token| - 1 && token[k] == ':'
  {
    if |token| >= 2 && token[0] == '[' && token[|token| - 1] == ']' then
      var inner := token[1..|token| - 1];
      var i := FirstColon(inner);
      if i < |inner| then Some(Point(Atoi(inner[..i]), Atoi(inner[i + 1..]))) else None
    else
      None
  }

  /** Reading back the digits of a number gives the number. */
  lemma {:induction false} DigitsValueOfDigits(n: nat)
    ensures DigitsValue(Digits(n)) == n
  {
    if n >= 10 {
      DigitsValueOfDigits(n / 10);
      var s := Digits(n);
      assert s[..|s| - 1] == Digits(n / 10);
    }
  }

  /** A run of digits is its own longest digit prefix. */
  lemma {:induction false} LeadingDigitsOfDigits(s: string)
    requires AllDigits(s)
    ensures LeadingDigits(s) == s
  {
    if s != [] {
      LeadingDigitsOfDigits(s[1..]);
    }
  }

  /** `atoi` reads back what `ostream << int` writes. */
  lemma AtoiOfDecimal(n: int)
    ensures Atoi(Decimal(n)) == n
  {
    var s := Decimal(n);
    assert !IsSpace(s[0]);
    assert SkipSpace(s) == s;
    if n < 0 {
      var d := Digits(-n);
      assert s == "-" + d && s[1..] == d;
      LeadingDigitsOfDigits(d);
      DigitsValueOfDigits(-n);
    } else {
      var d := Digits(n);
      assert s == d && s[0] != '-' && s[0] != '+';
      LeadingDigitsOfDigits(d);
      DigitsValueOfDigits(n);
    }
  }

  /** Any token `[g1:g2]` whose first group holds no `:` parses to the pair
      of `atoi` values of its groups; the second group may hold anything,
      `:` and `]` included. */
  lemma ParseGroups(g1: string, g2: string)
    requires forall k :: 0 <= k < |g1| ==> g1[k] != ':'
    ensures ParsePoint("[" + g1 + ":" + g2 + "]") == Some(Point(Atoi(g1), Atoi(g2)))
  {
    var token := "[" + g1 + ":" + g2 + "]";
    var inner := token[1..|token| - 1];
    assert inner == g1 + ":" + g2;
    var i := FirstColon(inner);
    assert inner[|g1|] == ':';
    assert i == |g1|;
    assert inner[..i] == g1 && inner[i + 1..] == g2;
  }

  /** Writing a point and reading the text back gives the same point. */
  lemma ParseFormatRoundTrip(p: Point)
    ensures ParsePoint(FormatPoint(p)) == Some(p)
  {
    ParseGroups(Decimal(p.x), Decimal(p.y));
    AtoiOfDecimal(p.x);
    AtoiOfDecimal(p.y);
  }
}
