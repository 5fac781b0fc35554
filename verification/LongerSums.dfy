/** The loops against every longer exact sum: what the cap cuts off the two real series is less than a unit of
    2^-64, however many more terms are taken, and so the bounds hold for the functions the series stand for.
    */
module LongerSums {
  import opened Machine
  import opened Q64
  import opened RealBounds
  import opened LnMonotone
  import ExpAccuracy
  import LnAccuracy

  // ---------------------------------------------------------------------- exp

  /** x^(2j)/(2j)! in units. */
  function EvenPower(x: real, j: nat): real {
    if j == 0 then U else ExpAccuracy.EvenTerm(x, EvenPower(x, j - 1), j - 1)
  }

  /** One pair and what follows it lie between nothing and the pair's first term. */
  lemma {:induction false} TailWithinTerm(x: real, w: real, j: nat, left: nat)
    requires 0.0 <= x <= 1.0 && 0.0 <= w
    ensures 0.0 <= ExpAccuracy.TaylorTail(x, w, j, left) <= w
    decreases left
  {
    if left > 0 {
      var w1, w2 := TermsFall(x, w, j);
      TailWithinTerm(x, w2, j + 1, left - 1);
    }
  }

  lemma TermsFall(x: real, w: real, j: nat) returns (w1: real, w2: real)
    requires 0.0 <= x <= 1.0 && 0.0 <= w
    ensures w1 == ExpAccuracy.OddTerm(x, w, j) && w2 == ExpAccuracy.EvenTerm(x, w, j)
    ensures 0.0 <= w2 <= w1 <= w
  {
    var a, b := ExpAccuracy.Divisors(j);
    w1, w2 := ExpAccuracy.ExactTerms(x, w, j, a, b);
    Shrunk(w, x, a, w1);
    Shrunk(w1, x, b, w2);
  }

  lemma Shrunk(w: real, x: real, a: real, w1: real)
    requires 0.0 <= x <= 1.0 && 0.0 <= w && a >= 1.0 && w1 * a == w * x
    ensures 0.0 <= w1 <= w
  {
    MulLe(0.0, x, w);
    MulLe(x, 1.0, w);
    MulLe(1.0, a, w);
    Cancel(0.0, w1, a);
    Cancel(w1, w, a);
  }

  /** The sum of `n` more pairs goes on where the first ones stop. */
  lemma {:induction false} TaylorSplits(x: real, j: nat, left: nat, more: nat)
    ensures ExpAccuracy.TaylorTail(x, EvenPower(x, j), j, left + more)
         == ExpAccuracy.TaylorTail(x, EvenPower(x, j), j, left) + ExpAccuracy.TaylorTail(x, EvenPower(x, j + left), j + left, more)
    decreases left
  {
    if left > 0 {
      assert EvenPower(x, j + 1) == ExpAccuracy.EvenTerm(x, EvenPower(x, j), j);
      TaylorSplits(x, j + 1, left - 1, more);
    }
  }

  function Power16(k: nat): (p: real)
    ensures p >= 1.0
  {
    if k == 0 then 1.0 else 16.0 * Power16(k - 1)
  }

  /** From the third pair on each term is at most a sixteenth of the one before. */
  lemma {:induction false} EvenPowerFalls(x: real, j: nat)
    requires 0.0 <= x <= 0.6932
    ensures 0.0 <= EvenPower(x, j) <= U
    ensures j >= 2 ==> EvenPower(x, j) * Power16(j - 2) <= U
    decreases j
  {
    hide ExpAccuracy.OddTerm, ExpAccuracy.EvenTerm;
    if j > 0 {
      EvenPowerFalls(x, j - 1);
      var w, w' := EvenPower(x, j - 1), EvenPower(x, j);
      var w1, w2 := TermsFall(x, w, j - 1);
      if j > 2 {
        TermIsSixteenth(x, w, j - 1, w');
        var p, p' := Power16(j - 3), Power16(j - 2);
        assert p' == 16.0 * p;
        StepDown(w, w', p, p');
      } else if j == 2 {
        assert Power16(0) == 1.0;
      }
    }
  }

  lemma StepDown(w: real, w': real, p: real, p': real)
    requires 16.0 * w' <= w && p >= 1.0 && p' == 16.0 * p && w * p <= U
    ensures w' * p' <= U
  {
    MulLe(16.0 * w', w, p);
    assert w' * p' == (16.0 * w') * p;
  }

  lemma TermIsSixteenth(x: real, w: real, j: nat, w': real)
    requires 0.0 <= x <= 1.0 && 0.0 <= w && j >= 2 && w' == ExpAccuracy.EvenTerm(x, w, j)
    ensures 16.0 * w' <= w
  {
    hide ExpAccuracy.OddTerm, ExpAccuracy.EvenTerm;
    DenGrows(j);
    var d := ExpDen(j) as real;
    var w'' := ExpAccuracy.ExactStep(x, x * x, w, j, d);
    MulBox(x, x, 1.0, 1.0);
    Sixteenth(w, x * x, d, w');
  }

  lemma DenGrows(j: nat)
    requires j >= 2
    ensures ExpDen(j) >= 16
  {
    MulMono(5, 2 * j + 1, 2 * j + 2);
  }

  lemma Sixteenth(w: real, x2: real, d: real, w': real)
    requires 0.0 <= w && 0.0 <= x2 <= 1.0 && d >= 16.0 && w' * d == w * x2
    ensures 16.0 * w' <= w
  {
    var v, wd := 16.0 * w', w' * d;
    assert wd == x2 * w && v * d == 16.0 * wd;
    MulLe(x2, 1.0, w);
    assert wd <= w;
    MulLe(16.0, d, w);
    assert d * w == w * d;
    Cancel(v, w, d);
  }

  lemma PowerOfNineteen(k: nat)
    requires k == 16
    ensures Power16(k) >= U && Power16(k + 3) >= 4096.0 * U
  {
    assert Power16(4) == 65536.0 by { SmallPowers(); }
    PowersMultiply(4, 4);
    PowersMultiply(8, 8);
    assert Power16(8) == 65536.0 * 65536.0;
    assert Power16(16) == (65536.0 * 65536.0) * (65536.0 * 65536.0) == U;
    assert Power16(19) == 16.0 * Power16(18) == 256.0 * Power16(17) == 4096.0 * Power16(16);
  }

  lemma SmallPowers()
    ensures Power16(4) == 65536.0
  {
    assert Power16(0) == 1.0 && Power16(1) == 16.0 && Power16(2) == 256.0 && Power16(3) == 4096.0;
  }

  lemma {:induction false} PowersMultiply(a: nat, b: nat)
    ensures Power16(a + b) == Power16(a) * Power16(b)
    decreases a
  {
    if a > 0 {
      PowersMultiply(a - 1, b);
      assert 16.0 * (Power16(a - 1) * Power16(b)) == (16.0 * Power16(a - 1)) * Power16(b);
    }
  }

  /** What the cap of 21 pairs cuts off is less than a unit, however many pairs follow. */
  lemma ExpCutIsSmall(x: real, more: nat)
    requires 0.0 <= x <= 0.6932
    ensures 0.0 <= ExpAccuracy.TaylorTail(x, U, 0, ExpAccuracy.PAIRS + more) - ExpAccuracy.Taylor(x) <= 1.0
  {
    var n := ExpAccuracy.PAIRS;
    TaylorSplits(x, 0, n, more);
    assert EvenPower(x, 0) == U;
    EvenPowerFalls(x, n);
    PowerOfNineteen(16);
    var w := EvenPower(x, n);
    TailWithinTerm(x, w, n, more);
    MulLe(U, Power16(n - 2), w);
    Cancel(w, 1.0, U);
  }

  /** The exp loop lies within 85 units below and 21 above every exact Taylor sum of 42 terms or more, and so of
      e^(-r) itself. */
  lemma ExpAgainstLongerSums(r: nat, x: real, more: nat)
    requires r <= LN2 && x == ExpAccuracy.Q64ToReal(r)
    ensures ExpAccuracy.TaylorTail(x, U, 0, ExpAccuracy.PAIRS + more) - 85.0 <= ExpSeries(r) as real
         <= ExpAccuracy.TaylorTail(x, U, 0, ExpAccuracy.PAIRS + more) + 21.0
  {
    hide ExpSeries;
    var x', x2, e := ExpAccuracy.Reduced(r);
    ExpAccuracy.SeriesAccuracy(r);
    ExpCutIsSmall(x, more);
  }

  // ----------------------------------------------------------------------- ln

  /** What follows a power is less than that power. */
  lemma {:induction false} TailWithinPower(q2: real, p: real, n: nat, left: nat)
    requires 0.0 <= q2 && 9.0 * q2 <= 1.0 && 0.0 <= p && n >= 1
    ensures 0.0 <= LnAccuracy.AtanhTail(q2, p, n, left) <= p
    decreases left
  {
    if left > 0 {
      var next, d := NextTerm(q2, p, n);
      TailWithinPower(q2, next, n + 1, left - 1);
    }
  }

  lemma NextTerm(q2: real, p: real, n: nat) returns (next: real, d: real)
    requires 0.0 <= q2 && 9.0 * q2 <= 1.0 && 0.0 <= p
    ensures next == p * q2 && d == p * q2 / (2 * n + 1) as real
    ensures 0.0 <= d <= next && 9.0 * next <= p
  {
    var a := (2 * n + 1) as real;
    next := p * q2;
    d := next / a;
    assert p * q2 == q2 * p && (9.0 * q2) * p == 9.0 * next;
    MulLe(0.0, q2, p);
    MulLe(9.0 * q2, 1.0, p);
    DivCancel(next, a);
    Shrunk(next, 1.0, a, d);
  }

  /** 2^64 q^(2n-1). */
  function OddPower(q: real, n: nat): real
    requires n >= 1
  {
    if n == 1 then U * q else OddPower(q, n - 1) * (q * q)
  }

  lemma {:induction false} AtanhSplits(q: real, n: nat, left: nat, more: nat)
    requires n >= 1
    ensures LnAccuracy.AtanhTail(q * q, OddPower(q, n), n, left + more)
         == LnAccuracy.AtanhTail(q * q, OddPower(q, n), n, left)
          + LnAccuracy.AtanhTail(q * q, OddPower(q, n + left), n + left, more)
    decreases left
  {
    if left > 0 {
      assert OddPower(q, n + 1) == OddPower(q, n) * (q * q);
      AtanhSplits(q, n + 1, left - 1, more);
    }
  }

  function Power9(k: nat): (p: real)
    ensures p >= 1.0
  {
    if k == 0 then 1.0 else 9.0 * Power9(k - 1)
  }

  lemma {:induction false} OddPowerFalls(q: real, n: nat)
    requires n >= 1 && 0.0 <= q && 3.0 * q <= 1.0
    ensures 0.0 <= OddPower(q, n) && OddPower(q, n) * Power9(n - 1) <= U
    decreases n
  {
    if n == 1 {
      MulLe(0.0, q, U);
      MulLe(q, 1.0, U);
    } else {
      OddPowerFalls(q, n - 1);
      var p, k := OddPower(q, n - 1), Power9(n - 2);
      assert 9.0 * (q * q) <= 1.0 by { MulBox(3.0 * q, 3.0 * q, 1.0, 1.0); }
      MulBox(q, q, 1.0, 1.0);
      MulBox(p, q * q, p, 1.0);
      NinthOf(p, q * q, k);
      assert OddPower(q, n) == p * (q * q) && Power9(n - 1) == 9.0 * k;
      assert p * (q * q) >= 0.0;
    }
  }

  lemma NinthOf(p: real, q2: real, k: real)
    requires 0.0 <= p && 0.0 <= q2 && 9.0 * q2 <= 1.0 && p * k <= U && k >= 0.0
    ensures (p * q2) * (9.0 * k) <= U
  {
    var pk := p * k;
    assert (p * q2) * (9.0 * k) == pk * (9.0 * q2);
    MulLe(0.0, p, k);
    MulLe(9.0 * q2, 1.0, pk);
  }

  lemma {:induction false} NinesGrow(k: nat)
    ensures Power9(2 * k) >= Power16(k) >= 0.0
    decreases k
  {
    if k > 0 {
      NinesGrow(k - 1);
      assert Power9(2 * k) == 9.0 * Power9(2 * k - 1) == 81.0 * Power9(2 * (k - 1));
    }
  }

  /** What the cap of 41 terms cuts off is less than a unit, however many terms follow. */
  lemma LnCutIsSmall(q: real, more: nat)
    requires 0.0 <= q && 3.0 * q <= 1.0
    ensures 0.0 <= U * q + LnAccuracy.AtanhTail(q * q, U * q, 1, LN_MAX_TERMS + more) - LnAccuracy.Atanh(q) <= 1.0
  {
    var n := LN_MAX_TERMS + 1;
    AtanhSplits(q, 1, LN_MAX_TERMS, more);
    assert OddPower(q, 1) == U * q;
    OddPowerFalls(q, n);
    var p := OddPower(q, n);
    assert 9.0 * (q * q) <= 1.0 by { MulBox(3.0 * q, 3.0 * q, 1.0, 1.0); }
    MulBox(q, q, 1.0, 1.0);
    TailWithinPower(q * q, p, n, more);
    FortyNines();
    MulLe(U, Power9(n - 1), p);
    Cancel(p, 1.0, U);
  }

  lemma FortyNines()
    ensures Power9(LN_MAX_TERMS) >= U
  {
    NinesGrow(20);
    PowerOfNineteen(16);
    assert Power16(20) == 16.0 * Power16(19);
  }

  /** The logarithm of a mantissa lies between twice every exact atanh sum of 41 terms or more and 164 units
      below it, and so of ln m itself. */
  lemma LnAgainstLongerSums(m: nat, q: real, more: nat)
    requires ONE <= m <= 2 * ONE && q * (m as real + U) == m as real - U
    ensures var sum := U * q + LnAccuracy.AtanhTail(q * q, U * q, 1, LN_MAX_TERMS + more);
      2.0 * sum - 164.0 <= LnMantissaPart(m) as real <= 2.0 * sum
  {
    hide LnMantissaPart, LnAccuracy.AtanhTail;
    LnAccuracy.MantissaAccuracy(m, q, U);
    var z, s, e := LnAccuracy.ArgumentAccuracy(m, q, U);
    LnCutIsSmall(q, more);
  }
}
