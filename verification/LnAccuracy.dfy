/** How close the integer atanh loop is to the exact partial sum, and how fast that sum grows.

    As for exp, the exact side runs in step with the loop, in units of 2^-64: `p` is the exact
    2^64 * q^(2n-1) where the loop holds the integer power `t`.
    */
module LnAccuracy {
  import opened Machine
  import opened Q64
  import opened RealBounds
  import opened LnMonotone

  /** `left` more terms of 2^64 * atanh(q), after the power `p`; `q2` is q squared. */
  function AtanhTail(q2: real, p: real, n: nat, left: nat): real
    decreases left, q2
  {
    if left == 0 then 0.0
    else p * q2 / (2 * n + 1) as real + AtanhTail(q2, p * q2, n + 1, left - 1)
  }

  /** 2^64 times the first 41 terms of atanh(q). */
  function Atanh(q: real): real {
    U * q + AtanhTail(q * q, U * q, 1, LN_MAX_TERMS)
  }

  // -------------------------------------------------------------- accuracy

  lemma PowerError(p: real, t: real, q2: real, e: real, p': real, t': real, u: real)
    requires u > 0.0 && 0.0 <= p - t <= 2.0 && 0.0 <= t && 3.0 * t <= u
    requires 0.0 <= e <= q2 && 9.0 * q2 <= 1.0 && (q2 - e) * u <= 2.0
    requires t' <= t * e < t' + 1.0 && p' == p * q2
    ensures 0.0 <= p' - t' <= 2.0
  {
    calc <= {
      t';
      t * e;
      { MulLe(e, q2, t); }
      t * q2;
      { MulLe(t, p, q2); }
      p';
    }
    calc <= {
      3.0 * p';
      3.0 * (p * q2);
      { Distribute(q2, p, t); }
      3.0 * ((p - t) * q2) + 3.0 * (t * q2);
      { MulBox(p - t, q2, 2.0, 1.0 / 9.0); }
      0.7 + 3.0 * (t * q2);
      { Distribute(t, q2, e); }
      0.7 + (3.0 * t) * (q2 - e) + 3.0 * (t * e);
      { MulLe(3.0 * t, u, q2 - e); }
      2.7 + 3.0 * (t * e);
      5.7 + 3.0 * t';
    }
  }

  /** A floored term against the exact one. */
  lemma FlooredTerm(p: real, t: real, a: real, d: real, x: real)
    requires a >= 3.0 && 0.0 <= p - t <= 2.0 && d * a <= t < d * a + a && x * a == p
    ensures 0.0 <= x - d <= 2.0
  {
    Cancel(d, x, a);
    assert (d + 2.0) * a == d * a + 2.0 * a;
    Cancel(x, d + 2.0, a);
  }

  /** The integer side of a step as reals: the next power and the term it adds. */
  lemma LoopTurn(t: nat, s: nat, n: nat, e: real, u: real)
    returns (tr: real, t': real, a: real, d: real)
    requires u == U && s as real == e * u && n >= 1
    ensures tr == t as real && t' == Mul(t, s) as real && a == (2 * n + 1) as real >= 3.0
    ensures d == (Mul(t, s) / (2 * n + 1)) as real
    ensures t' <= tr * e < t' + 1.0
    ensures d * a <= t' < d * a + a
  {
    MulMono(0, t, s);
    var ts, one, q := FloorReal(t * s, ONE);
    var q', a', d' := FloorReal(Mul(t, s), 2 * n + 1);
    tr, t', a, d := t as real, q, a', d';
    ProductInUnits(tr, s as real, e, t', ts, u);
  }

  lemma {:induction false} TailAccuracy(s: nat, t: nat, q2: real, e: real, p: real, n: nat, left: nat)
    requires s as real == e * U && 0.0 <= e <= q2 && 9.0 * q2 <= 1.0 && (q2 - e) * U <= 2.0
    requires 0.0 <= p - t as real <= 2.0 && 3 * t <= ONE && n >= 1
    ensures 0.0 <= AtanhTail(q2, p, n, left) - LnTail(s, t, n, left) as real <= 2.0 * left as real
    decreases left
  {
    if left > 0 {
      var t', p' := Mul(t, s), p * q2;
      TurnAccuracy(s, t, q2, e, p, n, U);
      PowerStaysSmall(s, t, e);
      TailAccuracy(s, t', q2, e, p', n + 1, left - 1);
    }
  }

  lemma PowerStaysSmall(s: nat, t: nat, e: real)
    requires s as real == e * U && 0.0 <= e <= 1.0 && 3 * t <= ONE
    ensures 0 <= 3 * Mul(t, s) <= ONE
  {
    MulAtMost(t, s, t);
    MulMono(0, t, s);
    DivAtLeast(t * s, ONE, 0);
  }

  lemma TurnAccuracy(s: nat, t: nat, q2: real, e: real, p: real, n: nat, u: real)
    requires u == U && s as real == e * u && 0.0 <= e <= q2 && 9.0 * q2 <= 1.0 && (q2 - e) * u <= 2.0
    requires 0.0 <= p - t as real <= 2.0 && 3 * t <= ONE && n >= 1
    ensures 0.0 <= p * q2 - Mul(t, s) as real <= 2.0
    ensures 0.0 <= p * q2 / (2 * n + 1) as real - (Mul(t, s) / (2 * n + 1)) as real <= 2.0
  {
    var tr, t', a, d := LoopTurn(t, s, n, e, u);
    var p' := p * q2;
    PowerError(p, tr, q2, e, p', t', u);
    DivCancel(p', a);
    FlooredTerm(p', t', a, d, p' / a);
  }

  /** The argument of the series: a floored quotient, and its floored square. */
  lemma ArgumentAccuracy(m: nat, q: real, u: real) returns (z: real, s: real, e: real)
    requires ONE <= m <= 2 * ONE && u == U && q * (m as real + u) == m as real - u
    ensures z == AtanhArg(m) as real && 3 * AtanhArg(m) <= ONE
    ensures 0.0 <= z <= u * q <= z + 1.0 && 0.0 <= q && 3.0 * q <= 1.0
    ensures s == Mul(AtanhArg(m), AtanhArg(m)) as real == e * u
    ensures 0.0 <= e <= q * q && (q * q - e) * u <= 2.0
  {
    var num, den, z' := FloorReal((m - ONE) * ONE, m + ONE);
    z := z';
    assert num == (m as real - u) * u;
    ArgumentFloor(m as real, den, q, z, num, u);
    ArgumentSquare(AtanhArg(m), z, q, u);
    AtanhArgThird(m);
    var zz, one, s' := FloorReal(AtanhArg(m) * AtanhArg(m), ONE);
    s := s';
    e := s / u;
    DivCancel(s, u);
    assert zz == z * z;
    SquareFloor(z, q, s, e, u);
  }

  lemma AtanhArgThird(m: nat)
    requires ONE <= m <= 2 * ONE
    ensures 0 <= 3 * AtanhArg(m) <= ONE
  {
    var two := 2 * ONE;
    AtanhArgMonotone(m, two);
  }

  lemma ArgumentSquare(z: nat, zr: real, q: real, u: real)
    requires zr == z as real
    ensures (z * z) as real == zr * zr
  {
  }

  lemma ArgumentFloor(m: real, d: real, q: real, z: real, num: real, u: real)
    requires u > 0.0 && u <= m <= 2.0 * u && d == m + u && q * d == m - u
    requires num == (m - u) * u && z * d <= num < z * d + d
    ensures z <= u * q <= z + 1.0 && 0.0 <= q && 3.0 * q <= 1.0
  {
    FloorWindow(u * q, z, d, num) by { assert (u * q) * d == (q * d) * u; }
    Cancel(0.0, q, d);
    assert (3.0 * q) * d == 3.0 * (m - u) <= 1.0 * d;
    Cancel(3.0 * q, 1.0, d);
  }

  lemma FloorWindow(y: real, z: real, d: real, num: real)
    requires d > 0.0 && y * d == num && z * d <= num < z * d + d
    ensures z <= y <= z + 1.0
  {
    Cancel(z, y, d);
    assert (z + 1.0) * d == z * d + d;
    Cancel(y, z + 1.0, d);
  }

  /** Squares of numbers one apart. */
  lemma SquareGapOfOne(z: real, y: real)
    requires 0.0 <= z <= y <= z + 1.0
    ensures z * z <= y * y <= z * z + 2.0 * y
  {
    SquareOfSum(z, y - z, y);
  }

  lemma SquareOfSum(z: real, f: real, y: real)
    requires 0.0 <= z && 0.0 <= f <= 1.0 && y == z + f
    ensures z * z <= y * y <= z * z + 2.0 * y
  {
    var fz := Shrinks(f, z);
    var fy := Shrinks(f, y);
    SquareParts(z, f, y, fz, fy);
  }

  lemma SquareParts(z: real, f: real, y: real, fz: real, fy: real)
    requires y == z + f && fz == f * z && fy == f * y
    ensures y * y == z * z + fz + fy
  {
  }

  lemma Shrinks(f: real, w: real) returns (p: real)
    requires 0.0 <= f <= 1.0 && 0.0 <= w
    ensures p == f * w && 0.0 <= p <= w
  {
    MulLe(0.0, f, w);
    MulLe(f, 1.0, w);
    p := f * w;
  }

  lemma SquareFloor(z: real, q: real, s: real, e: real, u: real)
    requires u > 0.0 && 0.0 <= z <= u * q <= z + 1.0 && 0.0 <= q && 3.0 * q <= 1.0
    requires s * u <= z * z < s * u + u && s == e * u && 0.0 <= s
    ensures 0.0 <= e <= q * q && (q * q - e) * u <= 2.0
  {
    var y, q2 := u * q, q * q;
    SquareGapOfOne(z, y);
    var w := q2 * u;
    assert w * u == y * y;
    assert 3.0 * y <= u by { MulLe(3.0 * q, 1.0, u); }
    SquareUnits(s, w, y * y, z * z, y, u);
    Cancel(e, q2, u);
    Cancel(0.0, e, u);
    Distribute(u, q2, e);
  }

  lemma SquareUnits(s: real, w: real, y2: real, z2: real, y: real, u: real)
    requires u > 0.0 && w * u == y2 && z2 <= y2 <= z2 + 2.0 * y && 3.0 * y <= u
    requires s * u <= z2 < s * u + u
    ensures s <= w <= s + 2.0
  {
    var s2, su, wu := s + 2.0, s * u, w * u;
    TwoMore(s, s2, u);
    CancelNamed(s, w, u, su, wu);
    CancelNamed(w, s2, u, wu, su + 2.0 * u);
  }

  lemma TwoMore(s: real, s2: real, u: real)
    requires s2 == s + 2.0
    ensures s2 * u == s * u + 2.0 * u
  {
  }

  /** `ln_q64` of a mantissa lies between twice the exact 41-term atanh sum and 162 units below. */
  lemma MantissaAccuracy(m: nat, q: real, u: real)
    requires ONE <= m <= 2 * ONE && u == U && q * (m as real + u) == m as real - u
    ensures 0.0 <= 2.0 * Atanh(q) - LnMantissaPart(m) as real <= 162.0
  {
    hide AtanhTail, LnTail;
    var z, s, e := ArgumentAccuracy(m, q, u);
    assert 9.0 * (q * q) <= 1.0 by { MulBox(3.0 * q, 3.0 * q, 1.0, 1.0); }
    TailAccuracy(Mul(AtanhArg(m), AtanhArg(m)), AtanhArg(m), q * q, e, u * q, 1, LN_MAX_TERMS);
  }

  /** The whole `ln_q64`: the exponent times ln 2 plus the exact sum at the mantissa it keeps, less
      at most 162 units. */
  lemma LnAccuracyAt(y: nat, q: real, u: real)
    requires y >= ONE && u == U && q * (LnMantissa(y) as real + u) == LnMantissa(y) as real - u
    ensures 0.0 <= (LnExponent(y) * LN2) as real + 2.0 * Atanh(q) - Ln(y) as real <= 162.0
  {
    MantissaAccuracy(LnMantissa(y), q, u);
  }
}
