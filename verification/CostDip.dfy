/** Above the liquidity the monotonicity proof reaches, the cost is not monotone: at the largest liquidity
    allowed buying one token of a trailing outcome can lower C(q), and little above 2^59 one of the
    leading outcome.
    */
module CostDip {
  import opened Machine
  import opened Q64
  import opened ExpRun
  import opened LnMonotone
  import LnGrowth
  import opened Lmsr

  const R: int := LN2 - 11
  const R_SQUARED: int := 8862793787191474833

  // The exp loop run by hand just below ln 2.

  lemma FirstTurns(h: nat)
    ensures TermAfter(h, R_SQUARED, 5) == 130140149131
    ensures SumAfter(h, R, R_SQUARED, 5) == 9223371914465575081
  {
    Turn(h, R, R_SQUARED, 0, 18446744073709551616, 0, 4431396893595737416, 5660435428506895968);
    Turn(h, R, R_SQUARED, 1, 4431396893595737416, 5660435428506895968, 177423166116318948, 3407526806016408965);
    Turn(h, R, R_SQUARED, 2, 177423166116318948, 9067962234523304933, 2841449829983171, 152827092644409887);
    Turn(h, R, R_SQUARED, 3, 2841449829983171, 9220789327167714820, 24378270262728, 2560086553075260);
    Turn(h, R, R_SQUARED, 4, 24378270262728, 9223349413720790080, 130140149131, 22500744785001);
  }

  lemma LastTurns(h: nat)
    requires TermAfter(h, R_SQUARED, 5) == 130140149131
    requires SumAfter(h, R, R_SQUARED, 5) == 9223371914465575081
    ensures TermAfter(h, R_SQUARED, 10) == 0
    ensures SumAfter(h, R, R_SQUARED, 10) == 9223372036854775802
  {
    Turn(h, R, R_SQUARED, 5, 130140149131, 9223371914465575081, 473683536, 121939578453);
    Turn(h, R, R_SQUARED, 6, 473683536, 9223372036405153534, 1250454, 448427196);
    Turn(h, R, R_SQUARED, 7, 1250454, 9223372036853580730, 2503, 1192670);
    Turn(h, R, R_SQUARED, 8, 2503, 9223372036854773400, 3, 2400);
    Turn(h, R, R_SQUARED, 9, 3, 9223372036854775800, 0, 2);
  }

  lemma SeriesJustBelow(h: nat)
    ensures ExpSeries(R) == ONE / 2 - 6
  {
    FirstTurns(h);
    LastTurns(h);
    assert Mul(R, R) == R_SQUARED;
    RunEnds(h, R, R_SQUARED, 10, 11);
  }

  /** Below 2^32 the square vanishes and the loop ends after one pair. */
  lemma SmallSeries(r: nat, left: nat)
    requires r < 0x1_0000 && left > 0
    ensures ExpTail(r, Mul(r, r), ONE, 0, left) == ONE - r
  {
    MulMono(r, 0x1_0000, r);
    DivUnique(r * r, ONE, 0);
    DivUnique(0, ExpDen(0), 0);
    ExpTailStep(r, 0, ONE, 0, left, r, 0);
    ExpTailZero(r, 0, 1, left - 1);
  }

  /** Just above ln 2 the value is halved from one; just below it is the end of the series. */
  lemma ExpAcrossLn2(x: nat, y: nat)
    requires x == LN2 + 5 && y == LN2 - 11
    ensures ExpNeg(x) == ONE / 2 - 3 && ExpNeg(y) == ONE / 2 - 6
  {
    var r: nat := x % LN2;
    SmallSeries(r, EXP_MAX_PAIRS + 1);
    assert Pow2(x / LN2) == 2;
    SeriesJustBelow(0);
    assert Pow2(y / LN2) == 1;
  }

  lemma ExpOfSixtyFour(x: nat)
    requires x == 64
    ensures ExpNeg(x) == ONE - 64
  {
    var r: nat := x % LN2;
    SmallSeries(r, EXP_MAX_PAIRS + 1);
    assert Pow2(x / LN2) == 1;
  }

  /** A larger atanh argument gives a strictly larger series. */
  lemma SeriesIsStrict(z: nat, z': nat)
    requires z < z'
    ensures LnSeries(z) < LnSeries(z')
  {
    MulMonoBoth(z, z, z', z');
    LnTailMonotone(Mul(z, z), z, Mul(z', z'), z', 1, LN_MAX_TERMS);
  }

  /** Three units less in the sum, and the logarithm is strictly less. */
  lemma LnDrops(s: nat, s': nat)
    requires s == 5 * (ONE / 2) - 67 && s' == s - 3
    ensures Ln(s') < Ln(s)
  {
    hide Ln, LnSeries;
    var m, m' := s / 2, s' / 2;
    LnHalves(s);
    LnHalves(s');
    LnGrowth.LnBelowTwo(m);
    LnGrowth.LnBelowTwo(m');
    ArgumentIs(m, 2049638230412172388);
    ArgumentIs(m', 2049638230412172387);
    SeriesIsStrict(AtanhArg(m'), AtanhArg(m));
  }

  lemma ArgumentIs(m: nat, z: nat)
    requires m >= ONE && z * (m + ONE) <= (m - ONE) * ONE < z * (m + ONE) + (m + ONE)
    ensures AtanhArg(m) == z
  {
    DivUnique((m - ONE) * ONE, m + ONE, z);
  }

  /** A valid input where one more token makes the cost smaller. */
  lemma CostCanDip(q: Quantities, q': Quantities, b: u64)
    requires q == [Q_MAX, 353777214281680997, Q_MAX - 4] && b == B_MAX
    requires q' == q[1 := q[1] + 1]
    ensures InRange(q, b) && InRange(q', b) && Cost(q', b) < Cost(q, b)
  {
    hide Ln, ExpNeg;
    LeaderIsOne(q, b, 0);
    LeaderIsOne(q', b, 0);
    assert Shift(q, b, 1) == LN2 + 5 && Shift(q', b, 1) == LN2 - 11;
    assert Shift(q, b, 2) == 64 && Shift(q', b, 2) == 64;
    ExpAcrossLn2(LN2 + 5, LN2 - 11);
    ExpOfSixtyFour(64);
    assert ExpSum(q, b) == 5 * (ONE / 2) - 67 && ExpSum(q', b) == ExpSum(q, b) - 3;
    LnDrops(ExpSum(q, b), ExpSum(q', b));
    MulMono(Ln(ExpSum(q', b)) + 1, Ln(ExpSum(q, b)), b);
  }

  // ------------------------------------------------------ at the leading outcome

  // Where the sum of the terms passes two, ln falls by thirteen units more than its slope: twice the
  // series at one third is that much short of ln 2.

  /** Just past ln 2 the value is half of one less the excess. */
  lemma ExpPastLn2(x: nat, over: nat)
    requires x == LN2 + over && over < 0x1_0000
    ensures ExpNeg(x) == (ONE - over) / 2
  {
    var r: nat := x % LN2;
    SmallSeries(r, EXP_MAX_PAIRS + 1);
    assert Pow2(x / LN2) == 2;
  }

  /** What a smaller atanh argument takes off the series, counting its first two terms. */
  lemma SeriesGap(z: nat, z': nat, next: nat, next': nat)
    requires z' <= z && next == Mul(z, Mul(z, z)) && next' == Mul(z', Mul(z', z'))
    ensures LnSeries(z) - LnSeries(z') >= (z - z') + (next / 3 - next' / 3)
  {
    hide LnTail;
    MulMonoBoth(z', z', z, z);
    MulMonoBoth(z', Mul(z', z'), z, Mul(z, z));
    SecondTerm(Mul(z, z), z, LN_MAX_TERMS);
    SecondTerm(Mul(z', z'), z', LN_MAX_TERMS);
    LnTailMonotone(Mul(z', z'), next', Mul(z, z), next, 2, LN_MAX_TERMS - 1);
  }

  lemma SecondTerm(zSq: nat, z: nat, left: nat)
    requires left > 0
    ensures LnTail(zSq, z, 1, left) == Mul(z, zSq) / 3 + LnTail(zSq, Mul(z, zSq), 2, left - 1)
  {
  }

  /** From two down by thirty units the logarithm falls by at least twenty-nine. */
  lemma LnJumps(s: nat, s': nat)
    requires s == 2 * ONE && s' == s - 30
    ensures Ln(s') + 29 <= Ln(s)
  {
    hide Ln, LnSeries;
    LnHalves(s);
    LnGrowth.LnBelowTwo(s / 2);
    LnGrowth.LnOfOne(s / 2);
    LnGrowth.LnBelowTwo(s');
    var z, z': nat := THIRD, 6148914691236517198;
    ArgumentIs(s', z');
    LnSeriesAtThird(z);
    assert Mul(z, z) == THIRD_SQUARED && Mul(z', z') == 2049638230412172396;
    SeriesGap(z, z', 683212743470724133, 683212743470724131);
  }

  /** A smaller liquidity, and the other case of a purchase: at b just above 2^59 one more token of the leading
      outcome, with the other two at half its weight, makes the cost smaller. */
  lemma LeaderStepDips(q: Quantities, q': Quantities, b: u64)
    requires q == [440907194662160572, 0, 0] && b == 636094623231363895
    requires q' == q[0 := q[0] + 1]
    ensures InRange(q, b) && InRange(q', b) && Cost(q', b) < Cost(q, b)
  {
    hide Ln, ExpNeg;
    LeaderIsOne(q, b, 0);
    LeaderIsOne(q', b, 0);
    assert Shift(q, b, 1) == LN2 == Shift(q, b, 2);
    assert Shift(q', b, 1) == LN2 + 29 == Shift(q', b, 2);
    ExpPastLn2(LN2, 0);
    ExpPastLn2(LN2 + 29, 29);
    assert ExpSum(q, b) == 2 * ONE && ExpSum(q', b) == 2 * ONE - 30;
    LnJumps(ExpSum(q, b), ExpSum(q', b));
    MulMono(Ln(ExpSum(q', b)) + 29, Ln(ExpSum(q, b)), b);
  }
}
