/** The iteration caps of both series are slack: no input has a term left when they are reached. */
module LoopCaps {
  import opened Machine
  import opened Q64

  ghost function Power(base: nat, n: nat): (p: nat)
    requires base >= 1
    ensures p >= 1
  {
    if n == 0 then 1
    else
      MulMono(1, base, Power(base, n - 1));
      base * Power(base, n - 1)
  }

  lemma {:induction false} PowerMonotone(base: nat, n: nat, m: nat)
    requires base >= 1 && n <= m
    ensures Power(base, n) <= Power(base, m)
    decreases m
  {
    if n < m {
      PowerMonotone(base, n, m - 1);
      MulMono(1, base, Power(base, m - 1));
    }
  }

  /** A term that loses a factor `base` a turn is zero once the powers have passed its bound. */
  lemma TermDies(base: nat, n: nat, t: nat, bound: nat, enough: nat)
    requires base >= 1 && t * Power(base, n) <= bound < Power(base, enough) && enough <= n
    ensures t == 0
  {
    PowerMonotone(base, enough, n);
    if t > 0 { MulMono(1, t, Power(base, n)); }
  }

  lemma TermKeepsDying(base: nat, n: nat, t: nat, t': nat, bound: nat)
    requires base >= 1 && t * Power(base, n) <= bound && base * t' <= t
    ensures t' * Power(base, n + 1) <= bound
  {
    var p := Power(base, n);
    MulMono(base * t', t, p);
    assert t' * (base * p) == base * t' * p;
  }

  lemma TwelvePowers()
    ensures Power(12, 19) > 6 * ONE
  {
    assert Power(12, 5) == 248832;
    assert Power(12, 10) == 61917364224;
    assert Power(12, 15) == 15407021574586368;
    assert Power(12, 19) == 319479999370622926848;
  }

  lemma NinePowers()
    ensures Power(9, 22) > 9 * ONE
  {
    assert Power(9, 7) == 4782969;
    assert Power(9, 14) == 22876792454961;
    assert Power(9, 22) == 984770902183611232881;
  }

  // --------------------------------------------------------------------- exp

  /** From the second pair on, every term is at most a twelfth of the one before. */
  lemma TermShrinks(rSq: nat, t: nat, j: nat)
    requires rSq <= ONE && j >= 1
    ensures 0 <= 12 * (Mul(t, rSq) / ExpDen(j)) <= t
  {
    var d, m := ExpDen(j), Mul(t, rSq);
    MulAtMost(t, rSq, t);
    MulMono(0, t, rSq);
    DivAtLeast(t * rSq, ONE, 0);
    DivAtLeast(m, d, 0);
    MulMono(3, 2 * j + 1, 2 * j + 2);
    DivBounds(m, d);
    MulMono(12, d, m / d);
  }

  lemma FirstTerm(rSq: nat)
    requires rSq <= ONE
    ensures 0 <= 2 * (Mul(ONE, rSq) / ExpDen(0)) <= ONE
  {
    assert ExpDen(0) == 2;
    assert Mul(ONE, rSq) == rSq;
  }

  /** Once the exp loop has room for nineteen pairs, any more change nothing. */
  lemma {:induction false} ExpCapFrom(r: nat, rSq: nat, t: nat, j: nat, left: nat, extra: nat)
    requires r <= ONE && rSq <= ONE && j >= 1 && t * Power(12, j) <= 6 * ONE && j + left >= 19
    ensures ExpTail(r, rSq, t, j, left + extra) == ExpTail(r, rSq, t, j, left)
    decreases left
  {
    if left == 0 {
      TwelvePowers();
      TermDies(12, j, t, 6 * ONE, 19);
      ExpTailZero(r, rSq, j, extra);
    } else {
      TermShrinks(rSq, t, j);
      FracBound(r, j);
      var t', frac := Mul(t, rSq) / ExpDen(j), r / (2 * j + 1);
      TermKeepsDying(12, j, t, t', 6 * ONE);
      ExpTailStep(r, rSq, t, j, left + extra, frac, t');
      ExpTailStep(r, rSq, t, j, left, frac, t');
      ExpCapFrom(r, rSq, t', j + 1, left - 1, extra);
    }
  }

  /** The cap of 20 pairs cuts off no nonzero term of exp: any number of further pairs adds nothing. */
  lemma ExpCapIsSlack(r: nat, extra: nat)
    requires r <= LN2
    ensures ExpTail(r, Mul(r, r), ONE, 0, EXP_MAX_PAIRS + 1 + extra) == ExpSeries(r)
  {
    MulAtMost(r, r, ONE);
    MulMono(0, r, r);
    DivAtLeast(r * r, ONE, 0);
    ExpCapFromFirst(r, Mul(r, r), EXP_MAX_PAIRS + 1, extra);
  }

  lemma ExpCapFromFirst(r: nat, rSq: nat, left: nat, extra: nat)
    requires r <= LN2 && rSq <= ONE && left >= 20
    ensures ExpTail(r, rSq, ONE, 0, left + extra) == ExpTail(r, rSq, ONE, 0, left)
  {
    hide ExpTail;
    FirstTerm(rSq);
    FracBound(r, 0);
    var t', frac := Mul(ONE, rSq) / ExpDen(0), r / (2 * 0 + 1);
    ExpTailStep(r, rSq, ONE, 0, left + extra, frac, t');
    ExpTailStep(r, rSq, ONE, 0, left, frac, t');
    assert Power(12, 1) == 12 * Power(12, 0);
    ExpCapFrom(r, rSq, t', 1, left - 1, extra);
  }

  // ---------------------------------------------------------------------- ln

  lemma {:induction false} LnCapFrom(zSq: nat, term: nat, n: nat, left: nat, extra: nat)
    requires 9 * zSq <= ONE && term <= ONE && term * Power(9, n) <= 9 * ONE && n + left >= 22
    ensures LnTail(zSq, term, n, left + extra) == LnTail(zSq, term, n, left)
    decreases left
  {
    if left == 0 {
      NinePowers();
      TermDies(9, n, term, 9 * ONE, 22);
      LnTailZero(zSq, n, extra);
    } else {
      LnStep(zSq, term, n);
      TermKeepsDying(9, n, term, Mul(term, zSq), 9 * ONE);
      LnCapFrom(zSq, Mul(term, zSq), n + 1, left - 1, extra);
    }
  }

  /** The cap of 40 terms cuts off no nonzero term of ln: any number of further terms adds nothing. */
  lemma LnCapIsSlack(m: nat, extra: nat)
    requires ONE <= m < 2 * ONE
    ensures var z := AtanhArg(m);
      z + LnTail(Mul(z, z), z, 1, LN_MAX_TERMS + extra) == LnSeries(z)
  {
    var z := AtanhArg(m);
    AtanhArgBound(m);
    SquareOfThird(z);
    assert Power(9, 1) == 9 * Power(9, 0);
    LnCapFrom(Mul(z, z), z, 1, LN_MAX_TERMS, extra);
  }
}
