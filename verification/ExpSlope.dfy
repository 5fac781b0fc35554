/** How fast the exact Taylor polynomial of `ExpAccuracy` falls.

    The polynomial alternates in sign, so its slope is read off term by term: for x <= y the gap
    between the two terms of power n+1 is at most the gap at power n.
    */
module ExpSlope {
  import opened RealBounds
  import opened ExpAccuracy

  const R: real := 0.6932

  /** A term of the series is at most the one before it. */
  lemma TermShrinks(y: real, v: real, a: real, v1: real)
    requires 0.0 <= y <= 1.0 && a >= 1.0 && 0.0 <= v && v1 * a == v * y
    ensures 0.0 <= v1 <= v
  {
    calc <= {
      v1 * a;
      v * y;
      { MulLe(y, 1.0, v); }
      v;
      { MulLe(1.0, a, v); }
      v * a;
    }
    Cancel(v1, v, a);
    MulLe(0.0, y, v);
    Cancel(0.0, v1, a);
  }

  /** The gap between two powers shrinks from one power to the next. `u` and `v` are the terms at
      x and y, `u1` and `v1` the next ones. */
  lemma GapStep(x: real, y: real, u: real, v: real, a: real, u1: real, v1: real)
    requires 0.0 <= x <= y <= 1.0 && a >= 2.0
    requires 0.0 <= u <= v && (y - x) * u <= y * (v - u)
    requires u1 * a == u * x && v1 * a == v * y
    ensures 0.0 <= u1 <= v1
    ensures v1 - u1 <= v - u
    ensures (y - x) * u1 <= y * (v1 - u1)
  {
    TermShrinks(x, u, a, u1);
    var g := (v1 - u1) * a;
    GapSplit(x, y, u, v, a, u1, v1);
    MulLe(0.0, y - x, u);
    MulLe(0.0, y, v - u);
    Cancel(u1, v1, a);
    GapRatio(x, y, u, v, a, u1, v1);
    calc <= {
      (v1 - u1) * a;
      y * (v - u) + (y - x) * u;
      2.0 * (y * (v - u));
      { MulLe(y, 1.0, v - u); }
      2.0 * (v - u);
      { MulLe(2.0, a, v - u); }
      (v - u) * a;
    }
    Cancel(v1 - u1, v - u, a);
  }

  lemma GapSplit(x: real, y: real, u: real, v: real, a: real, u1: real, v1: real)
    requires u1 * a == u * x && v1 * a == v * y
    ensures (v1 - u1) * a == y * (v - u) + (y - x) * u
    ensures v1 * a - u1 * a == y * (v - u) + (y - x) * u
  {
    Distribute(y, v, u);
    Distribute(u, y, x);
    Distribute(a, v1, u1);
  }

  lemma GapRatio(x: real, y: real, u: real, v: real, a: real, u1: real, v1: real)
    requires 0.0 <= x <= y <= 1.0 && a >= 2.0
    requires 0.0 <= u <= v && (y - x) * u <= y * (v - u)
    requires u1 * a == u * x && (v1 - u1) * a >= y * (v - u)
    ensures (y - x) * u1 <= y * (v1 - u1)
  {
    var p, s := (y - x) * u, y * (v - u);
    MulLe(0.0, y, v - u);
    Regroup(y - x, u1, a, u, x);
    GapRatioCore(p, s, v1 - u1, x, y, a, (y - x) * u1);
  }

  lemma Regroup(d: real, u1: real, a: real, u: real, x: real)
    requires u1 * a == u * x
    ensures (d * u1) * a == (d * u) * x
  {
    assert (d * u1) * a == d * (u1 * a);
    assert d * (u * x) == (d * u) * x;
  }

  lemma GapRatioCore(p: real, s: real, w: real, x: real, y: real, a: real, q: real)
    requires 0.0 <= x <= y && a > 0.0 && 0.0 <= s && p <= s <= w * a && q * a == p * x
    ensures q <= y * w
  {
    calc <= {
      q * a;
      p * x;
      { MulLe(p, s, x); }
      s * x;
      { MulLe(x, y, s); }
      s * y;
      { MulLe(s, w * a, y); }
      (w * a) * y;
      (y * w) * a;
    }
    Cancel(q, y * w, a);
  }

  /** Two steps of the gap, on plain numbers. */
  lemma PairGapCore(x: real, y: real, u: real, v: real, a: real, b: real, u1: real, v1: real, u2: real, v2: real)
    requires 0.0 <= x <= y <= 1.0 && a >= 2.0 && b >= 2.0
    requires 0.0 <= u <= v && (y - x) * u <= y * (v - u)
    requires u1 * a == u * x && v1 * a == v * y
    requires u2 * b == u1 * x && v2 * b == v1 * y
    ensures 0.0 <= v2 - u2 <= v1 - u1 <= v - u
    ensures 0.0 <= u2 <= u1 <= u
    ensures (y - x) * u2 <= y * (v2 - u2)
  {
    GapStep(x, y, u, v, a, u1, v1);
    GapStep(x, y, u1, v1, b, u2, v2);
    TermShrinks(x, u, a, u1);
    TermShrinks(x, u1, b, u2);
  }

  /** The four next terms at once. */
  lemma PairGap(x: real, y: real, u: real, v: real, j: nat)
    returns (u1: real, v1: real, u2: real, v2: real)
    requires 0.0 <= x <= y <= 1.0 && j >= 1
    requires 0.0 <= u <= v && (y - x) * u <= y * (v - u)
    ensures u1 == OddTerm(x, u, j) && v1 == OddTerm(y, v, j)
    ensures u2 == EvenTerm(x, u, j) && v2 == EvenTerm(y, v, j)
    ensures 0.0 <= v2 - u2 <= v1 - u1 <= v - u
    ensures 0.0 <= u2 <= u1 <= u
    ensures (y - x) * u2 <= y * (v2 - u2)
  {
    var a, b := Divisors(j);
    var u1', u2' := ExactTerms(x, u, j, a, b);
    var v1', v2' := ExactTerms(y, v, j, a, b);
    u1, u2, v1, v2 := u1', u2', v1', v2';
    PairGapCore(x, y, u, v, a, b, u1, v1, u2, v2);
  }

  /** From the second pair on, the tail at the larger argument is larger, by no more than the
      gap of its first term. */
  lemma {:induction false} TailGap(x: real, y: real, u: real, v: real, j: nat, left: nat)
    requires 0.0 <= x <= y <= 1.0 && j >= 1
    requires 0.0 <= u <= v && (y - x) * u <= y * (v - u)
    ensures 0.0 <= TaylorTail(x, u, j, left)
    ensures u - v <= TaylorTail(x, u, j, left) - TaylorTail(y, v, j, left) <= 0.0
    decreases left
  {
    if left > 0 {
      var u1, v1, u2, v2 := PairGap(x, y, u, v, j);
      TailGap(x, y, u2, v2, j + 1, left - 1);
    }
  }

  // -------------------------------------------------- the whole polynomial

  /** The first four terms written out, and what is left. */
  lemma Head(x: real, u: real) returns (w2: real, w3: real, w4: real, rest: real)
    requires u == U
    ensures w2 * 2.0 == (u * x) * x && w3 * 3.0 == w2 * x && w4 * 4.0 == w3 * x
    ensures rest == TaylorTail(x, w4, 2, PAIRS - 2)
    ensures TaylorTail(x, w2, 1, PAIRS - 1) == w2 - w3 + rest
    ensures Taylor(x) == u - u * x + (w2 - w3 + rest)
  {
    var w1, w2' := ExactTerms(x, u, 0, 1.0, 2.0);
    var w3', w4' := ExactTerms(x, w2', 1, 3.0, 4.0);
    w2, w3, w4 := w2', w3', w4';
    rest := TaylorTail(x, w4, 2, PAIRS - 2);
    assert w1 == u * x;
  }

  /** The second-power terms satisfy the gap condition the tail lemma asks for. */
  lemma SquareGap(x: real, y: real, u: real, u2: real, v2: real)
    requires 0.0 <= x <= y <= 1.0 && u > 0.0
    requires u2 * 2.0 == (u * x) * x && v2 * 2.0 == (u * y) * y
    ensures 0.0 <= u2 <= v2 && (y - x) * u2 <= y * (v2 - u2)
    ensures v2 - u2 == u * (y - x) * (x + y) / 2.0
  {
    MulLe(x, y, u);
    MulLe(0.0, x, u);
    calc <= {
      (y - x) * (u * x);
      { MulLe(x, y, u * (y - x)); }
      (u * (y - x)) * y;
      y * (u * y - u * x);
    }
    GapStep(x, y, u * x, u * y, 2.0, u2, v2);
    assert (v2 - u2) * 2.0 == u * (y - x) * (x + y);
  }

  lemma TaylorDropsBy(x: real, y: real)
    requires 0.0 <= x <= y <= R
    ensures Taylor(x) - Taylor(y) >= 0.3 * (U * (y - x))
  {
    TaylorDropsByUnits(x, y, U, Taylor(x), Taylor(y));
  }

  lemma TaylorDropsByUnits(x: real, y: real, u: real, tx: real, ty: real)
    requires 0.0 <= x <= y <= R && u == U && tx == Taylor(x) && ty == Taylor(y)
    ensures tx - ty >= 0.3 * (u * (y - x))
  {
    var u2, ru := HeadSquare(x, u);
    var v2, rv := HeadSquare(y, u);
    SquareGap(x, y, u, u2, v2);
    assert ru - rv >= u2 - v2 by { TailGap(x, y, u2, v2, 1, PAIRS - 1); }
    LowerSlope(x, y, u, v2 - u2);
  }

  /** The first two terms written out. */
  lemma HeadSquare(x: real, u: real) returns (w2: real, rest: real)
    requires u == U
    ensures w2 * 2.0 == (u * x) * x
    ensures rest == TaylorTail(x, w2, 1, PAIRS - 1)
    ensures Taylor(x) == u - u * x + rest
  {
    var w2', w3, w4, r := Head(x, u);
    w2 := w2';
    rest := TaylorTail(x, w2, 1, PAIRS - 1);
  }

  lemma LowerSlope(x: real, y: real, u: real, gap: real)
    requires 0.0 <= x <= y <= R && u > 0.0 && gap == u * (y - x) * (x + y) / 2.0
    ensures u * y - u * x - gap >= 0.3 * (u * (y - x))
  {
    var h := u * (y - x);
    assert h >= 0.0 by { MulLe(0.0, y - x, u); }
    assert gap <= h * R by { MulLe((x + y) / 2.0, R, h); }
  }

  /** The cubic bound that turns the slope into a relative one: `s` is the slope of the first
      four terms, `c` their value, both without the factor 2^64. */
  lemma UpperSlope(x: real, y: real) returns (s: real, c: real)
    requires 0.0 <= x <= y <= R
    ensures s == 1.0 - (x + y) / 2.0 + (x * x + x * y + y * y) / 6.0
    ensures c == 1.0 - x + x * x / 2.0 - x * x * x / 6.0
    ensures s <= 1.2 * c && c >= 0.0
  {
    s := 1.0 - (x + y) / 2.0 + (x * x + x * y + y * y) / 6.0;
    c := 1.0 - x + x * x / 2.0 - x * x * x / 6.0;
    SlopeBelowSquare(x, y);
    var a := 1.0 - x + x * x / 2.0;
    assert a >= 0.5 by { assert (1.0 - x) * (1.0 - x) >= 0.0; }
    MulBox(x, x, R, R);
    MulBox(x * x, x, R * R, R);
    assert x * x * x <= 0.34;
  }

  lemma SlopeBelowSquare(x: real, y: real)
    requires 0.0 <= x <= y <= R
    ensures 1.0 - (x + y) / 2.0 + (x * x + x * y + y * y) / 6.0 <= 1.0 - x + x * x / 2.0
  {
    MulLe(y + 2.0 * x - 3.0, 0.0, y - x);
    assert (y - x) * (y + 2.0 * x - 3.0) == y * y + x * y - 2.0 * (x * x) - 3.0 * y + 3.0 * x;
  }

  lemma LeadingDrop(x: real, y: real, u: real, u2: real, v2: real, u3: real, v3: real, t: real)
    returns (drop: real)
    requires 0.0 <= x <= y <= R && u > 0.0
    requires u2 * 2.0 == (u * x) * x && v2 * 2.0 == (u * y) * y
    requires u3 * 3.0 == u2 * x && v3 * 3.0 == v2 * y
    requires u - u * x + u2 - u3 <= t
    ensures drop == u * y - u * x - (v2 - u2) + (v3 - u3)
    ensures drop <= 1.2 * ((y - x) * t) && t >= 0.0
  {
    drop := u * y - u * x - (v2 - u2) + (v3 - u3);
    var s, c := Leading(x, y, u, u2, v2, u3, v3);
    RelativeSlope(y - x, u, s, c, t);
  }

  lemma CubeGap(x: real, y: real, u2: real, v2: real, u3: real, v3: real, u4: real, v4: real)
    requires 0.0 <= x <= y <= 1.0
    requires 0.0 <= u2 <= v2 && (y - x) * u2 <= y * (v2 - u2)
    requires u3 * 3.0 == u2 * x && v3 * 3.0 == v2 * y && u4 * 4.0 == u3 * x && v4 * 4.0 == v3 * y
    ensures 0.0 <= u4 <= v4 && (y - x) * u4 <= y * (v4 - u4)
  {
    GapStep(x, y, u2, v2, 3.0, u3, v3);
    GapStep(x, y, u3, v3, 4.0, u4, v4);
  }

  lemma AtMostOne(x: real)
    requires 0.0 <= x <= R
    ensures Taylor(x) <= U
  {
    TaylorDropsBy(0.0, x);
    MulLe(0.0, x, U);
    AtZero();
  }

  lemma AtZero()
    ensures Taylor(0.0) == U
  {
    var w2, w3, w4, rest := Head(0.0, U);
    TailAtZero(2, PAIRS - 2);
  }

  lemma {:induction false} TailAtZero(j: nat, left: nat)
    ensures TaylorTail(0.0, 0.0, j, left) == 0.0
    decreases left
  {
    if left > 0 {
      var a, b := Divisors(j);
      var w1, w2 := ExactTerms(0.0, 0.0, j, a, b);
      Cancel(w1, 0.0, a);
      Cancel(0.0, w1, a);
      Cancel(w2, 0.0, b);
      Cancel(0.0, w2, b);
      TailAtZero(j + 1, left - 1);
    }
  }

  /** The four leading terms as polynomials. */
  lemma LeadingTerms(x: real, u: real, u2: real, u3: real)
    requires u2 * 2.0 == (u * x) * x && u3 * 3.0 == u2 * x
    ensures u2 == u * (x * x / 2.0) && u3 == u * (x * x * x / 6.0)
  {
  }

  /** The slope of the four leading terms, with the factor `u` taken out. */
  lemma LeadingSlope(x: real, y: real, u: real, u2: real, v2: real, u3: real, v3: real, s: real)
    requires u2 * 2.0 == (u * x) * x && v2 * 2.0 == (u * y) * y
    requires u3 * 3.0 == u2 * x && v3 * 3.0 == v2 * y
    requires s == 1.0 - (x + y) / 2.0 + (x * x + x * y + y * y) / 6.0
    ensures u * y - u * x - (v2 - u2) + (v3 - u3) == u * (y - x) * s
  {
    LeadingTerms(x, u, u2, u3);
    LeadingTerms(y, u, v2, v3);
    assert (y - x) * (x * x + x * y + y * y) == y * y * y - x * x * x;
    assert (y - x) * (x + y) == y * y - x * x;
    assert (y - x) * s == (y - x) - (y * y - x * x) / 2.0 + (y * y * y - x * x * x) / 6.0;
  }

  lemma LeadingValue(x: real, u: real, u2: real, u3: real, c: real)
    requires u2 * 2.0 == (u * x) * x && u3 * 3.0 == u2 * x
    requires c == 1.0 - x + x * x / 2.0 - x * x * x / 6.0
    ensures u * c == u - u * x + u2 - u3
  {
    LeadingTerms(x, u, u2, u3);
  }

  /** Slope and value of the four leading terms, with `u` taken out and compared. */
  lemma Leading(x: real, y: real, u: real, u2: real, v2: real, u3: real, v3: real) returns (s: real, c: real)
    requires 0.0 <= x <= y <= R
    requires u2 * 2.0 == (u * x) * x && v2 * 2.0 == (u * y) * y
    requires u3 * 3.0 == u2 * x && v3 * 3.0 == v2 * y
    ensures u * y - u * x - (v2 - u2) + (v3 - u3) == u * (y - x) * s
    ensures u * c == u - u * x + u2 - u3
    ensures s <= 1.2 * c && c >= 0.0
  {
    s, c := UpperSlope(x, y);
    LeadingSlope(x, y, u, u2, v2, u3, v3, s);
    LeadingValue(x, u, u2, u3, c);
  }

  lemma RelativeSlope(h: real, u: real, s: real, c: real, t: real)
    requires 0.0 <= h && 0.0 < u && s <= 1.2 * c && 0.0 <= c && u * c <= t
    ensures u * h * s <= 1.2 * (h * t) && t >= 0.0
  {
    MulLe(0.0, c, u);
    MulLe(0.0, h, u);
    calc <= {
      u * h * s;
      { MulLe(s, 1.2 * c, u * h); }
      u * h * (1.2 * c);
      1.2 * (h * (u * c));
      { MulLe(u * c, t, h); }
      1.2 * (h * t);
    }
  }

  /** The polynomial falls by at most 1.2 times its own value per unit of argument. */
  lemma TaylorDropsAtMost(x: real, y: real)
    requires 0.0 <= x <= y <= R
    ensures Taylor(x) - Taylor(y) <= 1.2 * ((y - x) * Taylor(x))
    ensures 0.0 <= Taylor(x)
  {
    TaylorDropUnits(x, y, U, Taylor(x), Taylor(y));
  }

  lemma TaylorDropUnits(x: real, y: real, u: real, tx: real, ty: real)
    requires 0.0 <= x <= y <= R && u == U && tx == Taylor(x) && ty == Taylor(y)
    ensures tx - ty <= 1.2 * ((y - x) * tx)
    ensures 0.0 <= tx
  {
    var u2, u3, u4, ru := Head(x, u);
    var v2, v3, v4, rv := Head(y, u);
    SquareGap(x, y, u, u2, v2);
    CubeGap(x, y, u2, v2, u3, v3, u4, v4);
    assert ru <= rv && 0.0 <= ru by { TailGap(x, y, u4, v4, 2, PAIRS - 2); }
    var drop := LeadingDrop(x, y, u, u2, v2, u3, v3, tx);
  }
}
