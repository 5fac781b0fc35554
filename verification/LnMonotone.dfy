/** `ln_q64` is exactly monotone on its whole domain.

    Inside a power of two every step is a floor of a monotone expression. Across powers of two it
    is enough that twice the series at its largest argument, one third, does not pass ln 2; that
    one value is found by running the loop by hand.
    */
module LnMonotone {
  import opened Machine
  import opened Q64

  const THIRD: int := ONE / 3
  const THIRD_SQUARED: int := 2049638230412172401

  // ------------------------------------------------------ the value at a third

  /** The loop's power and sum when it stands at term `n`. */
  ghost function PowerAfter(z: nat, n: nat): int
    decreases n, z
  {
    if n <= 1 then z else PowerAfter(z, n - 1) * THIRD_SQUARED / ONE
  }

  ghost function LnAfter(z: nat, n: nat): int
    decreases n, z
  {
    if n <= 1 then z else LnAfter(z, n - 1) + PowerAfter(z, n) / (2 * n - 1)
  }

  lemma {:induction false} LnAfterIsTail(z: nat, n: nat, left: nat)
    requires n >= 1
    ensures PowerAfter(z, n) >= 0
    ensures z + LnTail(THIRD_SQUARED, z, 1, n - 1 + left)
         == LnAfter(z, n) + LnTail(THIRD_SQUARED, PowerAfter(z, n), n, left)
  {
    if n > 1 {
      LnAfterIsTail(z, n - 1, left + 1);
      MulMono(0, PowerAfter(z, n - 1), THIRD_SQUARED);
      DivAtLeast(PowerAfter(z, n - 1) * THIRD_SQUARED, ONE, 0);
    }
  }

  lemma LnTurn(z: nat, n: nat, t: int, sum: int, t': int, d: int)
    requires n >= 1 && PowerAfter(z, n) == t && LnAfter(z, n) == sum
    requires t' == t * THIRD_SQUARED / ONE && d == t' / (2 * n + 1)
    ensures PowerAfter(z, n + 1) == t' && LnAfter(z, n + 1) == sum + d
  {
  }

  // The loop run by hand at one third; the power is zero after twenty turns.

  lemma LnRun1(z: nat)
    requires z == THIRD && PowerAfter(z, 1) == 6148914691236517205 && LnAfter(z, 1) == 6148914691236517205
    ensures PowerAfter(z, 8) == 1285585311390 && LnAfter(z, 8) == 6393154313270005500
  {
    LnTurn(z, 1, 6148914691236517205, 6148914691236517205, 683212743470724133, 227737581156908044);
    LnTurn(z, 2, 683212743470724133, 6376652272393425249, 75912527052302681, 15182505410460536);
    LnTurn(z, 3, 75912527052302681, 6391834777803885785, 8434725228033631, 1204960746861947);
    LnTurn(z, 4, 8434725228033631, 6393039738550747732, 937191692003736, 104132410222637);
    LnTurn(z, 5, 937191692003736, 6393143870960970369, 104132410222637, 9466582747512);
    LnTurn(z, 6, 104132410222637, 6393153337543717881, 11570267802515, 890020600193);
    LnTurn(z, 7, 11570267802515, 6393154227564318074, 1285585311390, 85705687426);
  }

  lemma LnRun8(z: nat)
    requires z == THIRD && PowerAfter(z, 8) == 1285585311390 && LnAfter(z, 8) == 6393154313270005500
    ensures PowerAfter(z, 15) == 268783 && LnAfter(z, 15) == 6393154322601326749
  {
    LnTurn(z, 8, 1285585311390, 6393154313270005500, 142842812376, 8402518375);
    LnTurn(z, 9, 142842812376, 6393154321672523875, 15871423597, 835338084);
    LnTurn(z, 10, 15871423597, 6393154322507861959, 1763491510, 83975786);
    LnTurn(z, 11, 1763491510, 6393154322591837745, 195943501, 8519282);
    LnTurn(z, 12, 195943501, 6393154322600357027, 21771500, 870860);
    LnTurn(z, 13, 21771500, 6393154322601227887, 2419055, 89594);
    LnTurn(z, 14, 2419055, 6393154322601317481, 268783, 9268);
  }

  lemma LnRun15(z: nat)
    requires z == THIRD && PowerAfter(z, 15) == 268783 && LnAfter(z, 15) == 6393154322601326749
    ensures PowerAfter(z, 21) == 0 && LnAfter(z, 21) == 6393154322601327823
  {
    LnTurn(z, 15, 268783, 6393154322601326749, 29864, 963);
    LnTurn(z, 16, 29864, 6393154322601327712, 3318, 100);
    LnTurn(z, 17, 3318, 6393154322601327812, 368, 10);
    LnTurn(z, 18, 368, 6393154322601327822, 40, 1);
    LnTurn(z, 19, 40, 6393154322601327823, 4, 0);
    LnTurn(z, 20, 4, 6393154322601327823, 0, 0);
  }

  lemma LnRunAtThird(z: nat)
    requires z == THIRD
    ensures PowerAfter(z, 21) == 0 && 2 * LnAfter(z, 21) == LN2 - 13
  {
    assert PowerAfter(z, 1) == z && LnAfter(z, 1) == z;
    LnRun1(z);
    LnRun8(z);
    LnRun15(z);
  }

  lemma LnTailAtThird(z: nat, n: nat, left: nat)
    requires z == THIRD && n == 21
    ensures 2 * (z + LnTail(THIRD_SQUARED, z, 1, n - 1 + left)) == LN2 - 13
  {
    LnRunAtThird(z);
    LnAfterIsTail(z, n, left);
    LnTailZero(THIRD_SQUARED, n, left);
  }

  /** Twice the series at one third: ln 2 less thirteen units. */
  lemma LnSeriesAtThird(z: nat)
    requires z == THIRD
    ensures 2 * LnSeries(z) == LN2 - 13
  {
    SquareAtThird(z);
    LnTailAtThird(z, 21, LN_MAX_TERMS - 20);
  }

  lemma SquareAtThird(z: nat)
    requires z == THIRD
    ensures Mul(z, z) == THIRD_SQUARED
  {
  }

  // ------------------------------------------------------------- monotone

  lemma MulMonoBoth(a: nat, b: nat, c: nat, d: nat)
    requires a <= c && b <= d
    ensures 0 <= Mul(a, b) <= Mul(c, d)
  {
    MulMono(a, c, b);
    MulMono(b, d, c);
    DivMono(a * b, c * d, ONE);
    MulMono(0, a, b);
    DivAtLeast(a * b, ONE, 0);
  }

  lemma {:induction false} LnTailMonotone(s: nat, t: nat, s': nat, t': nat, n: nat, left: nat)
    requires s <= s' && t <= t'
    ensures LnTail(s, t, n, left) <= LnTail(s', t', n, left)
    decreases left
  {
    if left > 0 {
      MulMonoBoth(t, s, t', s');
      DivMono(Mul(t, s), Mul(t', s'), 2 * n + 1);
      LnTailMonotone(s, Mul(t, s), s', Mul(t', s'), n + 1, left - 1);
    }
  }

  lemma LnSeriesMonotone(z: nat, z': nat)
    requires z <= z'
    ensures LnSeries(z) <= LnSeries(z')
  {
    MulMonoBoth(z, z, z', z');
    LnTailMonotone(Mul(z, z), z, Mul(z', z'), z', 1, LN_MAX_TERMS);
  }

  lemma AtanhArgMonotone(m: nat, m': nat)
    requires ONE <= m <= m'
    ensures 0 <= AtanhArg(m) <= AtanhArg(m') <= ONE
  {
    var z := AtanhArg(m);
    DivBounds((m - ONE) * ONE, m + ONE);
    DivAtLeast((m - ONE) * ONE, m + ONE, 0);
    DivAtMost((m - ONE) * ONE, m + ONE, ONE);
    DivAtMost((m' - ONE) * ONE, m' + ONE, ONE);
    assert z * (m' + ONE) <= (m' - ONE) * ONE by {
      assert z * (m' + ONE) == z * (m + ONE) + z * (m' - m);
      MulMono(z, ONE, m' - m);
    }
    DivAtLeast((m' - ONE) * ONE, m' + ONE, z);
  }

  /** ln of a mantissa: zero at one, within thirteen units of ln 2 at two. */
  function LnMantissaPart(m: nat): nat
    requires m >= ONE
  {
    2 * LnSeries(AtanhArg(m))
  }

  lemma MantissaMonotone(m: nat, m': nat)
    requires ONE <= m <= m'
    ensures LnMantissaPart(m) <= LnMantissaPart(m')
  {
    AtanhArgMonotone(m, m');
    LnSeriesMonotone(AtanhArg(m), AtanhArg(m'));
  }

  lemma MantissaAtTwo(m: nat)
    requires m == 2 * ONE
    ensures AtanhArg(m) == THIRD && LnMantissaPart(m) == LN2 - 13
  {
    LnSeriesAtThird(AtanhArg(m));
  }

  lemma MantissaBelowLn2(m: nat)
    requires ONE <= m <= 2 * ONE
    ensures 0 <= LnMantissaPart(m) <= LN2 - 13
  {
    var two := 2 * ONE;
    MantissaMonotone(m, two);
    MantissaAtTwo(two);
  }

  lemma LnHalves(y: nat)
    requires y >= 2 * ONE
    ensures Ln(y) == LN2 + Ln(y / 2)
  {
  }

  /** The whole logarithm is monotone, for every pair of arguments in its domain. */
  lemma {:induction false} LnIsMonotone(y: nat, y': nat)
    requires ONE <= y <= y'
    ensures Ln(y) <= Ln(y')
  {
    if y' < 2 * ONE {
      MantissaMonotone(y, y');
    } else if y < 2 * ONE {
      MantissaBelowLn2(y);
      LnHalves(y');
    } else {
      LnHalves(y);
      LnHalves(y');
      LnIsMonotone(y / 2, y' / 2);
    }
  }

  /** ln of a sum of three exponentials: between zero and twice ln 2. */
  lemma LnRange(y: nat)
    requires ONE <= y <= 3 * ONE
    ensures 0 <= Ln(y) <= 2 * LN2
  {
    if y < 2 * ONE {
      MantissaBelowLn2(y);
    } else {
      LnHalves(y);
      MantissaBelowLn2(y / 2);
    }
  }
}
