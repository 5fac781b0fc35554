/** How close the integer exp loop is to the exact Taylor polynomial it truncates.

    The exact side runs in step with the loop and in the loop's own unit, 2^-64: `w` is the exact
    2^64 * x^(2j)/(2j)! where the loop holds the integer `t`.
    */
module ExpAccuracy {
  import opened Machine
  import opened Q64
  import opened RealBounds

  /** x^(2j+1)/(2j+1)! and x^(2j+2)/(2j+2)! from w = x^(2j)/(2j)!. */
  function OddTerm(x: real, w: real, j: nat): real {
    w * x / (2 * j + 1) as real
  }

  function EvenTerm(x: real, w: real, j: nat): real {
    OddTerm(x, w, j) * x / (2 * j + 2) as real
  }

  /** `left` more pairs of the Taylor series of e^(-x), from pair `j` on. */
  function TaylorTail(x: real, w: real, j: nat, left: nat): real
    decreases left
  {
    if left == 0 then 0.0
    else w - OddTerm(x, w, j) + TaylorTail(x, EvenTerm(x, w, j), j + 1, left - 1)
  }

  const PAIRS: nat := EXP_MAX_PAIRS + 1

  /** 2^64 times the first 42 terms of the Taylor series of e^(-x). */
  function Taylor(x: real): real {
    TaylorTail(x, U, 0, PAIRS)
  }

  function Q64ToReal(r: nat): real {
    r as real / U
  }

  lemma Divisors(j: nat) returns (a: real, b: real)
    ensures a == (2 * j + 1) as real && b == (2 * j + 2) as real
    ensures a >= 1.0 && b >= 2.0 && (j >= 1 ==> a >= 2.0)
    ensures a * b == ExpDen(j) as real
  {
    a, b := (2 * j + 1) as real, (2 * j + 2) as real;
  }

  lemma ExactTerms(x: real, w: real, j: nat, a: real, b: real) returns (w1: real, w2: real)
    requires a == (2 * j + 1) as real && b == (2 * j + 2) as real
    ensures w1 == OddTerm(x, w, j) && w2 == EvenTerm(x, w, j)
    ensures w1 * a == w * x && w2 * b == w1 * x
  {
    w1, w2 := OddTerm(x, w, j), EvenTerm(x, w, j);
    DivCancel(w * x, a);
    DivCancel(w1 * x, b);
  }

  // ------------------------------------------------------------ the term

  /** The integer side of a step, read as reals in units of one: `e` for the square, `m` for the
      product before the division by `d`. */
  lemma LoopTerm(t: nat, s: nat, j: nat) returns (u: real, tr: real, sr: real, m: real, d: real, t': real)
    requires t <= ONE
    ensures u == U
    ensures tr == t as real && 0.0 <= tr <= u && sr == s as real && d == ExpDen(j) as real >= 2.0
    ensures t' == (Mul(t, s) / ExpDen(j)) as real
    ensures m * u <= tr * sr < m * u + u
    ensures t' * d <= m < t' * d + d
  {
    tr, sr := t as real, s as real;
    MulMono(0, t, s);
    var ts, one, mr := FloorReal(t * s, ONE);
    var m', d', q := FloorReal(Mul(t, s), ExpDen(j));
    u, m, d, t' := one, mr, d', q;
    assert ts == tr * sr;
  }

  /** The loop's next term is not above the exact one. */
  lemma TermBelow(w: real, t: real, x2: real, e: real, m: real, d: real, w': real, t': real)
    requires 0.0 <= t <= w && 0.0 <= e <= x2
    requires m <= t * e && d > 0.0 && t' * d <= m && w' * d == w * x2
    ensures t' <= w'
  {
    calc <= {
      t' * d;
      m;
      t * e;
      { MulLe(e, x2, t); }
      t * x2;
      { MulLe(t, w, x2); }
      w * x2;
      w' * d;
    }
    Cancel(t', w', d);
  }

  /** ... and less than three units below it. */
  lemma TermAbove(w: real, t: real, x2: real, e: real, m: real, d: real, w': real, t': real)
    requires 0.0 <= w - t <= 3.0 && 0.0 <= x2 <= 0.5
    requires t * (x2 - e) <= 1.0
    requires t * e < m + 1.0 && d >= 2.0 && m < t' * d + d && w' * d == w * x2
    ensures w' <= t' + 3.0
  {
    calc <= {
      w' * d;
      w * x2;
      (w - t) * x2 + t * x2;
      { MulBox(w - t, x2, 3.0, 0.5); }
      1.5 + t * x2;
      { Distribute(t, x2, e); }
      1.5 + t * (x2 - e) + t * e;
      2.5 + t * e;
      3.5 + m;
      3.5 + t' * d + d;
      t' * d + 3.0 * d;
      (t' + 3.0) * d;
    }
    Cancel(w', t' + 3.0, d);
  }

  lemma TermStep(t: nat, rSq: nat, x: real, x2: real, e: real, w: real, j: nat) returns (w': real, t': real)
    requires 0.0 <= w - t as real <= 3.0 && t <= ONE && x2 == x * x
    requires rSq as real == e * U && 0.0 <= e <= x2 <= 0.5 && (x2 - e) * U <= 1.0
    ensures w' == EvenTerm(x, w, j) && t' == (Mul(t, rSq) / ExpDen(j)) as real
    ensures 0.0 <= w' - t' <= 3.0
  {
    var u, tr, sr, m, d, t'' := LoopTerm(t, rSq, j);
    t' := t'';
    w' := ExactStep(x, x2, w, j, d);
    TermErrors(w, tr, x2, e, sr, m, d, w', t', u);
  }

  lemma TermErrors(w: real, t: real, x2: real, e: real, s: real, m: real, d: real, w': real, t': real, u: real)
    requires u > 0.0 && 0.0 <= w - t <= 3.0 && 0.0 <= t <= u
    requires s == e * u && 0.0 <= e <= x2 <= 0.5 && (x2 - e) * u <= 1.0
    requires m * u <= t * s < m * u + u
    requires d >= 2.0 && t' * d <= m < t' * d + d && w' * d == w * x2
    ensures 0.0 <= w' - t' <= 3.0
  {
    ProductInUnits(t, s, e, m, t * s, u);
    TermBelow(w, t, x2, e, m, d, w', t');
    MulLe(t, u, x2 - e);
    TermAbove(w, t, x2, e, m, d, w', t');
  }

  lemma ExactStep(x: real, x2: real, w: real, j: nat, d: real) returns (w': real)
    requires x2 == x * x && d == ExpDen(j) as real
    ensures w' == EvenTerm(x, w, j)
    ensures w' * d == w * x2
  {
    var a, b := Divisors(j);
    var w1, w2 := ExactTerms(x, w, j, a, b);
    w' := w2;
    TwoSteps(w, w1, w2, a, b, x);
  }

  lemma TwoSteps(w: real, w1: real, w2: real, a: real, b: real, x: real)
    requires w1 * a == w * x && w2 * b == w1 * x
    ensures w2 * (a * b) == w * (x * x)
  {
    calc {
      w2 * (a * b);
      (w2 * b) * a;
      (w1 * x) * a;
      (w1 * a) * x;
      (w * x) * x;
    }
  }

  // ------------------------------------------------------------ the pair

  /** The fraction r/(2j+1) in units, and its floor. */
  lemma LoopFraction(r: nat, x: real, n: nat) returns (nr: real, y: real, f: real)
    requires r <= ONE && x * U == r as real && 0.0 <= x <= 1.0 && n >= 1
    ensures nr == n as real >= 1.0 && y * nr == x && f == (r / n) as real
    ensures 0.0 <= y <= 1.0
    ensures f <= y * U < f + 1.0
  {
    var ar, dr, q := FloorReal(r, n);
    nr, y, f := dr, x / dr, q;
    DivCancel(x, dr);
    FractionFloor(x, y, dr, ar, q, U);
    Cancel(0.0, y, dr);
    Cancel(y, 1.0, dr);
  }

  lemma FractionFloor(x: real, y: real, n: real, r: real, f: real, u: real)
    requires u > 0.0 && n > 0.0 && y * n == x && x * u == r && f * n <= r < f * n + n
    ensures f <= y * u < f + 1.0
  {
    assert (y * u) * n == (y * n) * u;
    assert (f + 1.0) * n == f * n + n;
    Cancel(f, y * u, n);
    CancelStrict(y * u, f + 1.0, n);
  }

  lemma LoopPair(t: nat, f: nat, fr: real) returns (u: real, tr: real, p: real)
    requires f <= ONE && fr == f as real && t <= ONE
    ensures u == U && tr == t as real && 0.0 <= tr <= u && p == Mul(t, ONE - f) as real
    ensures p * u <= tr * (u - fr) < p * u + u
  {
    MulMono(0, t, ONE - f);
    var ar, dr, q := FloorReal(t * (ONE - f), ONE);
    u, tr, p := dr, t as real, q;
    assert (ONE - f) as real == u - fr;
    assert ar == tr * (u - fr);
  }

  /** A floored product with a floored factor: at most one unit too large, one too small. */
  lemma PairWindow(t: real, f: real, y: real, p: real, u: real)
    requires u > 0.0 && 0.0 <= t <= u && f <= y * u < f + 1.0
    requires p * u <= t * (u - f) < p * u + u
    ensures t - t * y - 1.0 <= p <= t - t * y + 1.0
  {
    Distribute(t, u, f);
    Distribute(u, t, t * y);
    calc <= {
      p * u;
      t * u - t * f;
      { MulLe(y * u - 1.0, f, t); Distribute(t, y * u, 1.0); }
      t * u - t * (y * u) + t;
      t * u - (t * y) * u + u;
      (t - t * y + 1.0) * u;
    }
    Cancel(p, t - t * y + 1.0, u);
    calc <= {
      (t - t * y - 1.0) * u;
      t * u - (t * y) * u - u;
      t * u - t * (y * u) - u;
      { MulLe(f, y * u, t); }
      t * u - t * f - u;
      p * u;
    }
    Cancel(t - t * y - 1.0, p, u);
  }

  lemma PairStep(r: nat, t: nat, x: real, w: real, j: nat)
    requires r <= ONE && x * U == r as real && 0.0 <= x <= 1.0
    requires 0.0 <= w - t as real <= 3.0 && t <= ONE
    ensures 0 <= r / (2 * j + 1) <= ONE
    ensures w - OddTerm(x, w, j) - 4.0
         <= Mul(t, ONE - r / (2 * j + 1)) as real
         <= w - OddTerm(x, w, j) + 1.0
  {
    FracBound(r, j);
    var y, f, w1 := OddRatio(r, x, w, j);
    var u, tr, p := LoopPair(t, r / (2 * j + 1), f);
    PairErrors(w, tr, f, y, p, u);
  }

  /** The exact odd term is `w` times the exact fraction `y`. */
  lemma OddRatio(r: nat, x: real, w: real, j: nat) returns (y: real, f: real, w1: real)
    requires r <= ONE && x * U == r as real && 0.0 <= x <= 1.0
    ensures 0.0 <= y <= 1.0 && f == (r / (2 * j + 1)) as real && f <= y * U < f + 1.0
    ensures w1 == OddTerm(x, w, j) == w * y
  {
    var a, b := Divisors(j);
    var w1', w2 := ExactTerms(x, w, j, a, b);
    var nr, y', f' := LoopFraction(r, x, 2 * j + 1);
    y, f, w1 := y', f', w1';
    SameRatio(w, w1, a, x, y);
  }

  lemma PairErrors(w: real, t: real, f: real, y: real, p: real, u: real)
    requires u > 0.0 && 0.0 <= w - t <= 3.0 && 0.0 <= t <= u
    requires 0.0 <= y <= 1.0 && f <= y * u < f + 1.0
    requires p * u <= t * (u - f) < p * u + u
    ensures w - w * y - 4.0 <= p <= w - w * y + 1.0
  {
    PairWindow(t, f, y, p, u);
    MulBox(w - t, 1.0 - y, 3.0, 1.0);
    Distribute(w - t, 1.0, y);
    Distribute(y, w, t);
  }

  lemma SameRatio(w: real, w1: real, n: real, x: real, y: real)
    requires n > 0.0 && w1 * n == w * x && y * n == x
    ensures w1 == w * y
  {
    assert (w * y) * n == w * (y * n);
    Cancel(w1, w * y, n);
    Cancel(w * y, w1, n);
  }

  // ------------------------------------------------------------- the sum

  lemma {:induction false} TailAccuracy(r: nat, rSq: nat, x: real, x2: real, e: real, t: nat, w: real,
                                        j: nat, left: nat)
    requires r <= ONE && x * U == r as real && 0.0 <= x <= 1.0 && x2 == x * x
    requires rSq as real == e * U && 0.0 <= e <= x2 <= 0.5 && (x2 - e) * U <= 1.0
    requires 0.0 <= w - t as real <= 3.0 && t <= ONE
    ensures TaylorTail(x, w, j, left) - 4.0 * left as real
         <= ExpTail(r, rSq, t, j, left) as real
         <= TaylorTail(x, w, j, left) + left as real
    decreases left
  {
    if left > 0 {
      PairStep(r, t, x, w, j);
      var w', tr' := TermStep(t, rSq, x, x2, e, w, j);
      var t' := Mul(t, rSq) / ExpDen(j);
      assert rSq <= ONE;
      ExpStep(r, rSq, t, j);
      TailAccuracy(r, rSq, x, x2, e, t', w', j + 1, left - 1);
      ExpTailStep(r, rSq, t, j, left, r / (2 * j + 1), t');
    }
  }

  /** A reduced argument as a real: below ln 2, and its integer square within a unit. */
  lemma Reduced(r: nat) returns (x: real, x2: real, e: real)
    requires r <= LN2
    ensures x == Q64ToReal(r) && x * U == r as real && 0.0 <= x <= 0.6932 && x2 == x * x
    ensures Mul(r, r) as real == e * U && 0.0 <= e <= x2 <= 0.5 && (x2 - e) * U <= 1.0
  {
    x := ReducedArgument(r);
    x2 := x * x;
    assert x2 <= 0.5 by { MulBox(x, x, 0.6932, 0.6932); }
    e := ReducedSquare(r, x, x2, U);
  }

  lemma ReducedSquare(r: nat, x: real, x2: real, u: real) returns (e: real)
    requires u == U && x * u == r as real && x2 == x * x
    ensures Mul(r, r) as real == e * u && 0.0 <= e <= x2 && (x2 - e) * u <= 1.0
  {
    var r', s := LoopSquare(r, u);
    e := s / u;
    DivCancel(s, u);
    SquareInUnits(x, r', e, s, u);
  }

  lemma ReducedArgument(r: nat) returns (x: real)
    requires r <= LN2
    ensures x == Q64ToReal(r) && x * U == r as real && 0.0 <= x <= 0.6932
  {
    x := r as real / U;
    DivCancel(r as real, U);
    assert LN2 as real <= 0.6932 * U;
    Cancel(x, 0.6932, U);
    Cancel(0.0, x, U);
  }

  lemma LoopSquare(r: nat, u: real) returns (r': real, s: real)
    requires u == U
    ensures r' == r as real && s == Mul(r, r) as real >= 0.0
    ensures s * u <= r' * r' < s * u + u
  {
    var rr, one, q := FloorReal(r * r, ONE);
    r', s := r as real, q;
    assert rr == r' * r';
  }

  lemma SquareInUnits(x: real, r: real, e: real, s: real, u: real)
    requires u > 0.0 && s == e * u && 0.0 <= s && x * u == r && s * u <= r * r < s * u + u
    ensures 0.0 <= e <= x * x && (x * x - e) * u <= 1.0
  {
    assert r * r == ((x * x) * u) * u;
    assert (s + 1.0) * u == s * u + u;
    Cancel(s, (x * x) * u, u);
    CancelStrict((x * x) * u, s + 1.0, u);
    Cancel(e, x * x, u);
    Cancel(0.0, e, u);
    Distribute(u, x * x, e);
  }

  /** The loop's sum is the exact 42-term Taylor sum of e^(-r): at most 84 units below it and 21
      above, inside the 2^-57 the module's header promises. */
  lemma SeriesAccuracy(r: nat)
    requires r <= LN2
    ensures Taylor(Q64ToReal(r)) - 84.0 <= ExpSeries(r) as real <= Taylor(Q64ToReal(r)) + 21.0
  {
    var x, x2, e := Reduced(r);
    TailAccuracy(r, Mul(r, r), x, x2, e, ONE, U, 0, PAIRS);
  }
}
