/** The kernel in one piece: exp, ln, cost and price by the exact quantities they round. */
module KernelMeaning {
  import opened Machine
  import opened Q64
  import opened RealBounds
  import opened Lmsr
  import ExpAccuracy
  import ExpShape
  import LnAccuracy

  /** The whole of exp: of x = k ln 2 + r it is the exact Taylor sum at r over 2^k, from 84 units above 2^k parts
      below to 21 units above; past 64 halvings it is nothing. */
  lemma ExpIs(x: nat, k: nat, r: nat)
    requires x == k * LN2 + r && r < LN2
    ensures k >= 64 ==> ExpNeg(x) == 0
    ensures k < 64 ==>
      (ExpNeg(x) * Pow2(k)) as real <= ExpAccuracy.Taylor(ExpAccuracy.Q64ToReal(r)) + 21.0
      && ExpAccuracy.Taylor(ExpAccuracy.Q64ToReal(r)) - 84.0 < (ExpNeg(x) * Pow2(k) + Pow2(k)) as real
  {
    hide ExpSeries, Pow2;
    DivUnique(x, LN2, k);
    assert x % LN2 == r;
    if k < 64 {
      var m := ExpShape.ClampedAccuracy(r, ExpAccuracy.Taylor(ExpAccuracy.Q64ToReal(r)));
      DivBounds(ExpShape.Clamped(r), Pow2(k));
    }
  }

  /** The whole of ln: y is its mantissa times a power of two, rounded down, and ln y is the power times ln 2 and
      twice the exact atanh sum at the mantissa, less at most 162 units. */
  lemma LnIs(y: nat, q: real, e: nat, m: nat)
    requires y >= ONE && e == LnExponent(y) && m == LnMantissa(y) && q * (m as real + U) == m as real - U
    ensures ONE <= m < 2 * ONE && IsFloor(m, y, Pow2(e))
    ensures 0.0 <= (e * LN2) as real + 2.0 * LnAccuracy.Atanh(q) - Ln(y) as real <= 162.0
  {
    hide Ln, LnAccuracy.Atanh;
    MantissaIs(y);
    LnAccuracy.LnAccuracyAt(y, q, U);
  }

  lemma {:induction false} MantissaIs(y: nat)
    requires y >= ONE
    ensures IsFloor(LnMantissa(y), y, Pow2(LnExponent(y)))
    decreases y
  {
    if y >= 2 * ONE {
      MantissaIs(y / 2);
      var m, p := LnMantissa(y / 2), Pow2(LnExponent(y / 2));
      assert Pow2(LnExponent(y)) == 2 * p;
      assert m * (2 * p) == 2 * (m * p) && (m + 1) * (2 * p) == 2 * ((m + 1) * p);
    } else {
      assert Pow2(0) == 1;
    }
  }

  /** The cost: the largest quantity, and b times ln of the sum of exp at each outcome's distance below it over b. */
  lemma CostIs(q: Quantities, b: u64, top: nat, x: nat, y: nat, z: nat)
    requires InRange(q, b) && top in q && forall i :: 0 <= i < N_OUTCOMES ==> q[i] <= top
    requires IsFloor(x, (top - q[0]) * ONE, b) && IsFloor(y, (top - q[1]) * ONE, b) && IsFloor(z, (top - q[2]) * ONE, b)
    ensures var s := ExpNeg(x) + ExpNeg(y) + ExpNeg(z);
      && ONE <= s <= 3 * ONE && Cost(q, b) == top * ONE + b * Ln(s)
      && IsFloor(PriceOf(q, b, 0), ExpNeg(x) * 10_000, s)
      && IsFloor(PriceOf(q, b, 1), ExpNeg(y) * 10_000, s)
      && IsFloor(PriceOf(q, b, 2), ExpNeg(z) * 10_000, s)
  {
    hide ExpNeg, Ln, IsFloor;
    assert MaxOf(q) == top;
    ShiftIs(q, b, 0, top, x);
    ShiftIs(q, b, 1, top, y);
    ShiftIs(q, b, 2, top, z);
    ExpSumRange(q, b);
    var s := ExpSum(q, b);
    FloorIs(ExpNeg(x) * BPS_DENOM, s);
    FloorIs(ExpNeg(y) * BPS_DENOM, s);
    FloorIs(ExpNeg(z) * BPS_DENOM, s);
  }

  lemma ShiftIs(q: Quantities, b: nat, i: nat, top: nat, x: nat)
    requires i < N_OUTCOMES && b > 0 && MaxOf(q) == top && IsFloor(x, (top - q[i]) * ONE, b)
    ensures Shift(q, b, i) == x
  {
    assert (x + 1) * b == x * b + b;
    DivUnique((top - q[i]) * ONE, b, x);
  }
}
