/** How fast ln can grow: `ln_q64` never gains more over a step than the step divided by its lower
    end, but for 400 units of rounding. */
module LnGrowth {
  import opened Machine
  import opened Q64
  import opened RealBounds
  import opened LnMonotone
  import opened LnAccuracy

  // --------------------------------------------------- the exact partial sum

  /** The tails at two arguments grow apart by at most a geometric series. `h` is the distance of
      the arguments, `g` is h * q^(2n-2) in units. */
  lemma {:induction false} TailGrowth(q: real, q': real, q2: real, r2: real, p: real, p': real,
                                      g: real, h: real, n: nat, left: nat)
    requires 0.0 <= q' <= q && q2 == q * q <= 1.0 && r2 == q' * q' && n >= 1 && h == q - q'
    requires 0.0 <= p' <= p && 0.0 <= g && h * p == g * q
    requires p - p' <= (2 * n - 1) as real * g
    ensures (1.0 - q2) * (AtanhTail(q2, p, n, left) - AtanhTail(r2, p', n, left)) <= g * q2
    decreases left
  {
    SquareScale(q, q2, g);
    if left > 0 {
      var a, x, x', d, d' := TurnGrowth(q, q', q2, r2, p, p', g, h, n);
      TailGrowth(q, q', q2, r2, x, x', g * q2, h, n + 1, left - 1);
      var rest, rest' := AtanhTail(q2, x, n + 1, left - 1), AtanhTail(r2, x', n + 1, left - 1);
      GeometricStep(q2, g * q2, d - d', rest - rest');
      TailUnfolds(q2, p, n, left, a, x, d);
      TailUnfolds(r2, p', n, left, a, x', d');
      assert d - d' + (rest - rest') == (d + rest) - (d' + rest');
    }
  }

  lemma SquareScale(q: real, q2: real, g: real)
    requires 0.0 <= q && q2 == q * q && 0.0 <= g
    ensures 0.0 <= q2 && 0.0 <= g * q2
  {
    MulLe(0.0, q, q);
    MulLe(0.0, q2, g);
  }

  lemma TailUnfolds(q2: real, p: real, n: nat, left: nat, a: real, x: real, d: real)
    requires left > 0 && a == (2 * n + 1) as real && x == p * q2 && d == x / a
    ensures AtanhTail(q2, p, n, left) == d + AtanhTail(q2, x, n + 1, left - 1)
  {
  }

  lemma TurnGrowth(q: real, q': real, q2: real, r2: real, p: real, p': real, g: real, h: real, n: nat)
    returns (a: real, x: real, x': real, d: real, d': real)
    requires 0.0 <= q' <= q && q2 == q * q && r2 == q' * q' && n >= 1 && h == q - q'
    requires 0.0 <= p' <= p && 0.0 <= g && h * p == g * q
    requires p - p' <= (2 * n - 1) as real * g
    ensures a == (2 * n + 1) as real && x == p * q2 && x' == p' * r2 && d == x / a && d' == x' / a
    ensures 0.0 <= x' <= x && h * x == (g * q2) * q
    ensures x - x' <= a * (g * q2)
    ensures d - d' <= g * q2
  {
    var c := (2 * n - 1) as real;
    a, x, x' := (2 * n + 1) as real, p * q2, p' * r2;
    assert a == c + 2.0;
    d, d' := TurnGrowthOver(q, q', q2, r2, p, p', g, h, c, a, x, x');
  }

  lemma TurnGrowthOver(q: real, q': real, q2: real, r2: real, p: real, p': real, g: real, h: real,
                       c: real, a: real, x: real, x': real) returns (d: real, d': real)
    requires 0.0 <= q' <= q && q2 == q * q && r2 == q' * q' && h == q - q'
    requires 0.0 <= p' <= p && 0.0 <= g && h * p == g * q && p - p' <= c * g && a == c + 2.0 > 0.0
    requires x == p * q2 && x' == p' * r2
    ensures d == x / a && d' == x' / a && 0.0 <= x' <= x && h * x == (g * q2) * q
    ensures x - x' <= a * (g * q2) && d - d' <= g * q2
  {
    PowersOrdered(q, q', q2, r2, p, p', g, h, x, x');
    PowerGrowth(q, q', q2, r2, p, p', g, h, c, x, x');
    d, d' := TermGrowth(x, x', a, g * q2);
  }

  lemma TermGrowth(x: real, x': real, a: real, g: real) returns (d: real, d': real)
    requires a > 0.0 && x - x' <= a * g
    ensures d == x / a && d' == x' / a && d - d' <= g
  {
    d, d' := x / a, x' / a;
    DivCancel(x, a);
    DivCancel(x', a);
    Distribute(a, d, d');
    Cancel(d - d', g, a);
  }

  /** With ratio q2, a first term up to g and a rest bounded by g*q2/(1 - q2). */
  lemma GeometricStep(q2: real, g: real, d: real, rest: real)
    requires 0.0 <= q2 <= 1.0 && d <= g
    requires (1.0 - q2) * rest <= g * q2
    ensures (1.0 - q2) * (d + rest) <= g
  {
    MulLe(d, g, 1.0 - q2);
    assert g * (1.0 - q2) == g - g * q2;
    assert (1.0 - q2) * (d + rest) == d * (1.0 - q2) + (1.0 - q2) * rest;
  }

  lemma PowersOrdered(q: real, q': real, q2: real, r2: real, p: real, p': real, g: real, h: real, x: real, x': real)
    requires 0.0 <= q' <= q && q2 == q * q && r2 == q' * q' && 0.0 <= p' <= p && h * p == g * q
    requires x == p * q2 && x' == p' * r2
    ensures 0.0 <= x' <= x && h * x == (g * q2) * q
  {
    MulBox(q', q', q, q);
    MulBox(p', r2, p, q2);
    assert h * x == (h * p) * q2;
    assert (g * q) * q2 == (g * q2) * q;
  }

  lemma PowerGrowth(q: real, q': real, q2: real, r2: real, p: real, p': real, g: real, h: real, c: real,
                    x: real, x': real)
    requires 0.0 <= q' <= q && q2 == q * q && r2 == q' * q' && h == q - q'
    requires 0.0 <= p' <= p && h * p == g * q && p - p' <= c * g
    requires x == p * q2 && x' == p' * r2
    ensures x - x' <= (c + 2.0) * (g * q2)
  {
    SquareDifference(q, q', p, p', g, h);
    calc <= {
      x - x';
      { Distribute(q2, p, p'); Distribute(p', q2, r2); }
      (p - p') * q2 + p' * (q2 - r2);
      { MulLe(0.0, q, q); MulLe(p - p', c * g, q2); }
      (c * g) * q2 + 2.0 * (g * q2);
      (c + 2.0) * (g * q2);
    }
  }

  lemma SquareDifference(q: real, q': real, p: real, p': real, g: real, h: real)
    requires 0.0 <= q' <= q && h == q - q' && 0.0 <= p' <= p && h * p == g * q
    ensures p' * (q * q - q' * q') <= 2.0 * (g * (q * q))
  {
    assert q * q - q' * q' == h * (q + q');
    calc <= {
      p' * (h * (q + q'));
      (h * p') * (q + q');
      { MulLe(p', p, h); MulLe(h * p', h * p, q + q'); }
      (h * p) * (q + q');
      { MulLe(q + q', 2.0 * q, h * p); }
      (h * p) * (2.0 * q);
      (g * q) * (2.0 * q);
      2.0 * (g * (q * q));
    }
  }

  /** The exact sum grows no faster than atanh: its slope is at most 1/(1 - q^2). */
  lemma AtanhGrowth(q: real, q': real, u: real)
    requires 0.0 <= q' <= q && 3.0 * q <= 1.0 && u == U
    ensures (1.0 - q * q) * (Atanh(q) - Atanh(q')) <= u * (q - q')
  {
    hide AtanhTail;
    var h := q - q';
    var g, q2, r2 := u * h, q * q, q' * q';
    MulBox(3.0 * q, 3.0 * q, 1.0, 1.0);
    MulLe(0.0, h, u);
    MulLe(0.0, q', u);
    MulLe(q', q, u);
    assert h * (u * q) == g * q;
    Distribute(u, q, q');
    TailGrowth(q, q', q2, r2, u * q, u * q', g, h, 1, LN_MAX_TERMS);
    var tail := AtanhTail(q2, u * q, 1, LN_MAX_TERMS) - AtanhTail(r2, u * q', 1, LN_MAX_TERMS);
    assert Atanh(q) - Atanh(q') == g + tail;
    GeometricStep(q2, g, g, tail);
  }

  /** The bound above turned from the atanh arguments to the mantissas they came from. */
  lemma SlopeAtMantissa(m: real, m': real, q: real, q': real, d: real, u: real)
    requires 0.0 < u <= m' <= m && 0.0 <= d
    requires q * (m + u) == m - u && q' * (m' + u) == m' - u
    requires (1.0 - q * q) * d <= u * (q - q')
    ensures 2.0 * (d * m') <= u * (m - m')
  {
    var a, b := m + u, m' + u;
    var k := a * (a * b);
    assert k >= 0.0 by { MulLe(0.0, a, b); MulLe(0.0, a * b, a); }
    var left, right := (1.0 - q * q) * d, u * (q - q');
    MulLe(left, right, k);
    LeftSide(m, q, d, a, b, u);
    RightSide(m, m', q, q', a, b, u);
    // left * k is 4 u (m b d), right * k is 2 u (u a (m - m'))
    var mbd, uad := (m * b) * d, (u * a) * (m - m');
    Cancel(2.0 * mbd, uad, 2.0 * u);
    SlopeCleared(m, m', d, a, b, u);
  }

  lemma LeftSide(m: real, q: real, d: real, a: real, b: real, u: real)
    requires a == m + u && q * a == m - u
    ensures ((1.0 - q * q) * d) * (a * (a * b)) == (2.0 * ((m * b) * d)) * (2.0 * u)
  {
    assert (1.0 - q * q) * (a * a) == 4.0 * (m * u) by {
      assert (q * q) * (a * a) == (q * a) * (q * a);
    }
    var w := (1.0 - q * q) * (a * a);
    assert ((1.0 - q * q) * d) * (a * (a * b)) == w * (b * d);
    assert (4.0 * (m * u)) * (b * d) == (2.0 * ((m * b) * d)) * (2.0 * u);
  }

  lemma RightSide(m: real, m': real, q: real, q': real, a: real, b: real, u: real)
    requires a == m + u && b == m' + u && q * a == m - u && q' * b == m' - u
    ensures (u * (q - q')) * (a * (a * b)) == ((u * a) * (m - m')) * (2.0 * u)
  {
    assert (q - q') * (a * b) == (q * a) * b - (q' * b) * a;
    assert (m - u) * b - (m' - u) * a == 2.0 * (u * (m - m'));
    var w := (q - q') * (a * b);
    assert (u * (q - q')) * (a * (a * b)) == (u * a) * w;
    assert (u * a) * (2.0 * (u * (m - m'))) == ((u * a) * (m - m')) * (2.0 * u);
  }

  lemma SlopeCleared(m: real, m': real, d: real, a: real, b: real, u: real)
    requires 0.0 < u <= m' <= m && a == m + u && b == m' + u
    requires 2.0 * ((m * b) * d) <= (u * a) * (m - m')
    ensures 2.0 * (d * m') <= u * (m - m')
  {
    var mb, um := m * b, u * (m - m');
    assert a * m' <= mb by { MulLe(m', m, u); assert a * m' == m * m' + u * m'; assert mb == m * m' + m * u; }
    assert 0.0 < mb by { MulLe(u, m, b); assert u * b > 0.0; }
    MulLe(0.0, m - m', u);
    MulLe(2.0 * (mb * d), (u * a) * (m - m'), m');
    MulLe(a * m', mb, um);
    assert (2.0 * (mb * d)) * m' == (2.0 * (d * m')) * mb;
    assert ((u * a) * (m - m')) * m' == (a * m') * um;
    Cancel(2.0 * (d * m'), um, mb);
  }

  // --------------------------------------------------------- the integer ln

  /** The two atanh arguments, and the growth of the exact sum between them. */
  lemma ArgumentGap(m: real, m': real, u: real) returns (q: real, q': real, d: real)
    requires u == U && u <= m' <= m <= 2.0 * u
    ensures q * (m + u) == m - u && q' * (m' + u) == m' - u && d == Atanh(q) - Atanh(q')
    ensures 0.0 <= d ==> 2.0 * (d * m') <= u * (m - m')
  {
    hide Atanh;
    q, q' := (m - u) / (m + u), (m' - u) / (m' + u);
    DivCancel(m - u, m + u);
    DivCancel(m' - u, m' + u);
    ArgumentsOrdered(m, m', q, q', u);
    AtanhGrowth(q, q', u);
    d := Atanh(q) - Atanh(q');
    if 0.0 <= d {
      SlopeAtMantissa(m, m', q, q', d, u);
    }
  }

  lemma MantissaSum(m: nat, mr: real, q: real, u: real) returns (a: real, l: nat)
    requires ONE <= m <= 2 * ONE && mr == m as real && u == U && q * (mr + u) == mr - u
    ensures a == Atanh(q) && l == LnMantissaPart(m) && 0.0 <= 2.0 * a - l as real <= 162.0
  {
    MantissaAccuracy(m, q, u);
    a, l := Atanh(q), LnMantissaPart(m);
  }

  /** Both mantissas' accuracy, and the growth of the exact sum between them. */
  lemma MantissaGap(m: nat, m': nat, u: real) returns (gap: int, d: real, mr: real, mr': real)
    requires ONE <= m' <= m <= 2 * ONE && u == U
    ensures gap == LnMantissaPart(m) - LnMantissaPart(m') && mr == m as real && mr' == m' as real
    ensures gap as real <= 2.0 * d + 162.0
    ensures 0.0 <= d ==> 2.0 * (d * mr') <= u * (mr - mr')
  {
    hide LnMantissaPart, Atanh;
    mr, mr' := m as real, m' as real;
    var q, q';
    q, q', d := ArgumentGap(mr, mr', u);
    var a, l := MantissaSum(m, mr, q, u);
    var a', l' := MantissaSum(m', mr', q', u);
    var top: int, bottom: int := l, l';
    gap := top - bottom;
  }

  lemma GapTimesMantissa(gap: real, d: real, m: real, m': real, u: real)
    requires 0.0 < u <= m' <= m && gap <= 2.0 * d + 162.0
    requires 0.0 <= d ==> 2.0 * (d * m') <= u * (m - m')
    ensures gap * m' <= u * (m - m') + 162.0 * m'
  {
    if d < 0.0 {
      MulLe(d, 0.0, m');
      MulLe(0.0, m - m', u);
    }
    MulLe(gap, 2.0 * d + 162.0, m');
    assert (2.0 * d + 162.0) * m' == 2.0 * (d * m') + 162.0 * m';
  }

  lemma AtMostThird(q: real, a: real, n: real)
    requires a > 0.0 && q * a == n && 3.0 * n <= a
    ensures 3.0 * q <= 1.0
  {
    var t := 3.0 * q;
    assert t * a == 3.0 * n;
    assert 1.0 * a == a;
    Cancel(t, 1.0, a);
  }

  lemma ArgumentsOrdered(m: real, m': real, q: real, q': real, u: real)
    requires 0.0 < u <= m' <= m <= 2.0 * u && q * (m + u) == m - u && q' * (m' + u) == m' - u
    ensures 0.0 <= q' <= q && 3.0 * q <= 1.0
  {
    var a, b := m + u, m' + u;
    Cancel(0.0, q', b);
    AtMostThird(q, a, m - u);
    assert (q * a) * b - (q' * b) * a == 2.0 * (u * (m - m'));
    MulLe(0.0, m - m', u);
    assert q' * (a * b) == (q' * b) * a && q * (a * b) == (q * a) * b;
    MulLe(u, a, b);
    assert u * b > 0.0;
    Cancel(q', q, a * b);
  }

  lemma MantissaGrowth(m: nat, m': nat) returns (gap: int)
    requires ONE <= m' <= m <= 2 * ONE
    ensures gap == LnMantissaPart(m) - LnMantissaPart(m')
    ensures 0 <= gap && gap * m' <= ONE * (m - m') + 162 * m'
  {
    MantissaMonotone(m', m);
    gap := MantissaGrowthAt(m, m', U);
  }

  lemma MantissaGrowthAt(m: nat, m': nat, u: real) returns (gap: int)
    requires ONE <= m' <= m <= 2 * ONE && u == U
    ensures gap == LnMantissaPart(m) - LnMantissaPart(m')
    ensures gap * m' <= ONE * (m - m') + 162 * m'
  {
    hide LnMantissaPart;
    var d, mr, mr';
    gap, d, mr, mr' := MantissaGap(m, m', u);
    GapTimesMantissa(gap as real, d, mr, mr', u);
    BackToIntegers(gap, m, m', gap as real, mr, mr', u);
  }

  lemma BackToIntegers(gap: int, m: nat, m': nat, g: real, mr: real, mr': real, u: real)
    requires u == U && g == gap as real && mr == m as real && mr' == m' as real
    requires g * mr' <= u * (mr - mr') + 162.0 * mr'
    ensures gap * m' <= ONE * (m - m') + 162 * m'
  {
    assert (gap * m') as real == g * mr';
    assert (ONE * (m - m') + 162 * m') as real == u * (mr - mr') + 162.0 * mr';
  }

  lemma LnBelowTwo(y: nat)
    requires ONE <= y < 2 * ONE
    ensures Ln(y) == LnMantissaPart(y)
  {
  }

  /** Over a step from y' up to y the gain of ln, times y', is at most the step plus 400 y'. */
  lemma LnGrowsSlowly(y: nat, y': nat) returns (gain: int)
    requires ONE <= y' <= y <= 3 * ONE
    ensures gain == Ln(y) - Ln(y') && 0 <= gain
    ensures gain * y' <= ONE * (y - y') + 400 * y'
  {
    hide Ln, LnMantissaPart, AtanhArg;
    LnIsMonotone(y', y);
    gain := Ln(y) - Ln(y');
    if y < 2 * ONE {
      LnBelowTwo(y);
      LnBelowTwo(y');
      var g := MantissaGrowth(y, y');
    } else if y' < 2 * ONE {
      LnHalves(y);
      LnBelowTwo(y / 2);
      LnBelowTwo(y');
      var two, one := 2 * ONE, ONE;
      MantissaAtTwo(two);
      LnOfOne(one);
      var g := MantissaGrowth(two, y');
      var g' := MantissaGrowth(y / 2, one);
      AcrossTwo(y, y', y / 2, g, g');
    } else {
      LnHalves(y);
      LnHalves(y');
      LnBelowTwo(y / 2);
      LnBelowTwo(y' / 2);
      var g := MantissaGrowth(y / 2, y' / 2);
      MantissaBelowLn2(y / 2);
      MantissaBelowLn2(y' / 2);
      AboveTwo(y, y', y / 2, y' / 2, g);
    }
  }

  lemma AboveTwo(y: nat, y': nat, m: nat, m': nat, gap: nat)
    requires 2 * ONE <= y' <= y && m == y / 2 && m' == y' / 2 && gap <= LN2
    requires gap * m' <= ONE * (m - m') + 162 * m'
    ensures gap * y' <= ONE * (y - y') + 400 * y'
  {
    MulMono(y', 2 * m' + 1, gap);
    assert gap * (2 * m' + 1) == 2 * (gap * m') + gap;
  }

  /** The step crosses two: from y' up to two, then from one up to half of y. */
  lemma AcrossTwo(y: nat, y': nat, m: nat, g: nat, g': nat)
    requires ONE <= y' < 2 * ONE <= y && m == y / 2
    requires g * y' <= ONE * (2 * ONE - y') + 162 * y'
    requires g' * ONE <= ONE * (m - ONE) + 162 * ONE
    ensures (13 + g + g') * y' <= ONE * (y - y') + 400 * y'
  {
    MulMono(g', m - ONE + 162, y');
    MulMono(y', 2 * ONE, m - ONE);
    assert (m - ONE + 162) * y' == (m - ONE) * y' + 162 * y';
    assert (13 + g + g') * y' == 13 * y' + g * y' + g' * y';
  }

  lemma LnOfOne(m: nat)
    requires m == ONE
    ensures LnMantissaPart(m) == 0
  {
    var z: nat := 0;
    assert AtanhArg(m) == z;
    assert Mul(z, z) == 0;
    LnTailZero(z, 1, LN_MAX_TERMS);
  }
}
