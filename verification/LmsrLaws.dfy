/** Laws of the curve: complete sets do not move it, and prices are a distribution. */
module LmsrLaws {
  import opened Machine
  import opened Q64
  import opened Lmsr
  import ExpShape

  /** All three quantities moved up by the same amount. */
  predicate IsShifted(q: Quantities, q': Quantities, s: nat) {
    forall i :: 0 <= i < N_OUTCOMES ==> q'[i] == q[i] + s
  }

  /** A complete set leaves every price bit-identical and raises the cost by exactly its size. */
  lemma SetsAreNeutral(q: Quantities, q': Quantities, b: u64, s: nat)
    requires InRange(q, b) && InRange(q', b) && IsShifted(q, q', s)
    ensures Cost(q', b) == Cost(q, b) + s * ONE
    ensures forall i :: 0 <= i < N_OUTCOMES ==> PriceOf(q', b, i) == PriceOf(q, b, i)
  {
    hide ExpNeg, Ln;
    assert MaxOf(q') == MaxOf(q) + s;
    assert forall i :: 0 <= i < N_OUTCOMES ==> MaxOf(q') - q'[i] == MaxOf(q) - q[i];
    assert forall i :: 0 <= i < N_OUTCOMES ==> ExpOf(q', b, i) == ExpOf(q, b, i);
  }

  /** The three floored prices miss at most two basis points in all, and never exceed one. */
  lemma PricesSumToOne(q: Quantities, b: u64)
    requires InRange(q, b)
    ensures BPS_DENOM - 2 <= PriceOf(q, b, 0) + PriceOf(q, b, 1) + PriceOf(q, b, 2) <= BPS_DENOM
  {
    ExpSumRange(q, b);
    FloorsOfShares(ExpOf(q, b, 0), ExpOf(q, b, 1), ExpOf(q, b, 2), ExpSum(q, b), BPS_DENOM);
  }

  lemma FloorsOfShares(x: nat, y: nat, z: nat, sum: nat, n: nat)
    requires sum == x + y + z > 0
    ensures n - 2 <= x * n / sum + y * n / sum + z * n / sum <= n
  {
    DivBounds(x * n, sum);
    DivBounds(y * n, sum);
    DivBounds(z * n, sum);
    assert x * n + y * n + z * n == sum * n;
    SumOfFloors(x * n / sum, y * n / sum, z * n / sum, sum, n, sum * n);
  }

  lemma SumOfFloors(f: int, g: int, h: int, sum: nat, n: nat, total: int)
    requires sum > 0 && total == sum * n
    requires f * sum + g * sum + h * sum <= total < f * sum + g * sum + h * sum + 3 * sum
    ensures n - 2 <= f + g + h <= n
  {
    var p := f + g + h;
    assert p * sum == f * sum + g * sum + h * sum;
    if p > n { MulMono(n + 1, p, sum); }
    if p < n - 2 { MulMono(p, n - 3, sum); }
  }

  /** The outcome with the largest quantity has the largest price, and at least a third. */
  lemma LeaderHasTheBestPrice(q: Quantities, b: u64, lead: nat, i: nat)
    requires InRange(q, b) && lead < N_OUTCOMES && i < N_OUTCOMES && q[lead] == MaxOf(q)
    ensures PriceOf(q, b, i) <= PriceOf(q, b, lead) && PriceOf(q, b, lead) >= 3333
  {
    hide ExpOf;
    ExpSumRange(q, b);
    LeaderIsOne(q, b, lead);
    var sum := ExpSum(q, b);
    MulMono(ExpOf(q, b, i), ONE, BPS_DENOM);
    DivMono(ExpOf(q, b, i) * BPS_DENOM, ONE * BPS_DENOM, sum);
    MulMono(sum, 3 * ONE, 3333);
    DivAtLeast(ONE * BPS_DENOM, sum, 3333);
  }

  /** More of an outcome never ranks it below one with less: prices order as quantities do, up to
      the exp's flat spots of 2^10 units. */
  lemma PriceFollowsQuantity(q: Quantities, b: u64, i: nat, j: nat)
    requires InRange(q, b) && i < N_OUTCOMES && j < N_OUTCOMES
    requires (q[i] - q[j]) * ONE >= (ExpShape.GAP + 1) * b
    ensures PriceOf(q, b, j) <= PriceOf(q, b, i)
  {
    hide ExpNeg;
    var m := MaxOf(q);
    ShiftGap((m - q[i]) * ONE, (m - q[j]) * ONE, b);
    ExpShape.ExpFalls(Shift(q, b, i), Shift(q, b, j));
    PriceOrder(q, b, i, j);
  }

  lemma ShiftGap(x: int, y: int, b: nat)
    requires b > 0 && x + (ExpShape.GAP + 1) * b <= y
    ensures x / b + ExpShape.GAP <= y / b
  {
    DivBounds(x, b);
    var f := x / b;
    assert (f + ExpShape.GAP) * b == f * b + ExpShape.GAP * b;
    DivAtLeast(y, b, f + ExpShape.GAP);
  }

  lemma PriceOrder(q: Quantities, b: u64, i: nat, j: nat)
    requires b > 0 && i < N_OUTCOMES && j < N_OUTCOMES && ExpOf(q, b, j) <= ExpOf(q, b, i)
    ensures PriceOf(q, b, j) <= PriceOf(q, b, i)
  {
    hide ExpOf;
    ExpSumRange(q, b);
    MulMono(ExpOf(q, b, j), ExpOf(q, b, i), BPS_DENOM);
    DivMono(ExpOf(q, b, j) * BPS_DENOM, ExpOf(q, b, i) * BPS_DENOM, ExpSum(q, b));
  }
}
