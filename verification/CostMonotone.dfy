/** The cost never falls when an outcome's quantity grows, for every liquidity up to 2^52.

    One token at a time. Below the leader, the outcome's exponent drops by more than the exp's flat
    spots, and ln is monotone. At the leader, the maximum gains a whole unit and the other two
    terms shrink; the slope bounds of exp and ln keep b times the loss of ln within that unit.
    */
module CostMonotone {
  import opened Machine
  import opened Q64
  import opened ExpShape
  import opened LnMonotone
  import opened LnGrowth
  import opened Lmsr
  import opened BudgetSearch

  /** The largest liquidity the proof reaches. A market with 100 USDT of liquidity has b = 10^8. */
  const B_SMOOTH: int := 0x10_0000_0000_0000

  function Raised(q: Quantities, outcome: nat, delta: nat): (q': Quantities)
    requires outcome < N_OUTCOMES && q[outcome] + delta <= Q_MAX
    ensures q'[outcome] == q[outcome] + delta
    ensures forall i :: 0 <= i < N_OUTCOMES && i != outcome ==> q'[i] == q[i]
  {
    q[outcome := q[outcome] + delta]
  }

  // ------------------------------------------------- below the leading outcome

  lemma StepBelowLeader(q: Quantities, b: u64, outcome: nat)
    requires InRange(q, b) && b <= B_SMOOTH && outcome < N_OUTCOMES && q[outcome] < MaxOf(q)
    ensures Cost(Raised(q, outcome, 1), b) >= Cost(q, b)
  {
    hide Ln, ExpNeg;
    var q' := Raised(q, outcome, 1);
    assert MaxOf(q') == MaxOf(q);
    var d := MaxOf(q) - q[outcome];
    OneTokenShift(d - 1, b);
    ExpFalls(Shift(q', b, outcome), Shift(q, b, outcome));
    assert forall i :: 0 <= i < N_OUTCOMES && i != outcome ==> ExpOf(q', b, i) == ExpOf(q, b, i);
    ExpSumRange(q, b);
    ExpSumRange(q', b);
    LnIsMonotone(ExpSum(q, b), ExpSum(q', b));
    MulMono(Ln(ExpSum(q, b)), Ln(ExpSum(q', b)), b);
  }

  /** One token moves the Q64.64 argument of exp by 1/b, up to the floors. */
  lemma OneTokenShift(d: nat, b: nat)
    requires B_MIN <= b <= B_SMOOTH
    ensures 0 <= d * ONE / b && d * ONE / b + GAP <= (d + 1) * ONE / b
    ensures (d + 1) * ONE / b - d * ONE / b <= ONE / b + 1
  {
    var x, w := d * ONE, ONE / b;
    DivBounds(x, b);
    DivBounds(ONE, b);
    DivAtLeast(x, b, 0);
    DivAtLeast(ONE, b, GAP);
    var f := x / b;
    assert (f + w) * b == f * b + w * b;
    DivAtLeast(x + ONE, b, f + w);
    assert (f + w + 2) * b == f * b + w * b + 2 * b;
    DivAtMost(x + ONE, b, f + w + 1);
  }

  // ------------------------------------------------------ at the leading outcome

  /** Another outcome's term when the maximum moves up by one. */
  lemma OtherTermFalls(q: Quantities, b: u64, outcome: nat, i: nat) returns (e: nat, e': nat, h: nat)
    requires InRange(q, b) && b <= B_SMOOTH && outcome < N_OUTCOMES && q[outcome] == MaxOf(q) < Q_MAX
    requires i < N_OUTCOMES && i != outcome
    ensures e == ExpOf(q, b, i) && e' == ExpOf(Raised(q, outcome, 1), b, i) && h == ONE / b + 1
    ensures 5 * ONE * (e - e') <= 6 * (h * e) + 5 * ONE * FALL_NOISE
  {
    hide ExpNeg;
    var q' := Raised(q, outcome, 1);
    var d := MaxOf(q) - q[i];
    var x, x' := Shift(q, b, i), Shift(q', b, i);
    OneTokenShift(d, b);
    e, e', h := ExpNeg(x), ExpNeg(x'), ONE / b + 1;
    assert h < LN2 by { DivAtMost(ONE, b, ONE / 1000); }
    ExpFallsSlowly(x, x' - x);
    MulMono(x' - x, h, e);
  }

  /** The three terms before and after, with the leader's equal to one. */
  lemma SumFalls(q: Quantities, b: u64, outcome: nat) returns (s: nat, s': nat, h: nat)
    requires InRange(q, b) && b <= B_SMOOTH && outcome < N_OUTCOMES && q[outcome] == MaxOf(q) < Q_MAX
    ensures s == ExpSum(q, b) && s' == ExpSum(Raised(q, outcome, 1), b) && h == ONE / b + 1
    ensures ONE <= s <= 3 * ONE && ONE <= s' <= 3 * ONE
    ensures 5 * ONE * (s - s') <= 6 * (h * (s - ONE)) + 10 * ONE * FALL_NOISE
  {
    hide ExpOf;
    var q' := Raised(q, outcome, 1);
    LeaderIsOne(q, b, outcome);
    LeaderIsOne(q', b, outcome);
    ExpSumRange(q, b);
    ExpSumRange(q', b);
    s, s' := ExpSum(q, b), ExpSum(q', b);
    var i, j := (if outcome == 0 then 1 else 0), if outcome == 2 then 1 else 2;
    var e, e', h' := OtherTermFalls(q, b, outcome, i);
    var f, f', h'' := OtherTermFalls(q, b, outcome, j);
    h := h';
    assert s == ONE + e + f && s' == ONE + e' + f';
    AddFalls(h, e, f, e', f');
  }

  lemma AddFalls(h: nat, e: nat, f: nat, e': nat, f': nat)
    requires 5 * ONE * (e - e') <= 6 * (h * e) + 5 * ONE * FALL_NOISE
    requires 5 * ONE * (f - f') <= 6 * (h * f) + 5 * ONE * FALL_NOISE
    ensures 5 * ONE * ((e + f) - (e' + f')) <= 6 * (h * (e + f)) + 10 * ONE * FALL_NOISE
  {
    assert h * (e + f) == h * e + h * f;
  }

  /** b times the loss of ln is at most one whole unit. */
  lemma LossWithinOne(s: nat, s': nat, h: nat, b: nat, gain: nat)
    requires B_MIN <= b <= B_SMOOTH && h == ONE / b + 1
    requires ONE <= s' <= s <= 3 * ONE
    requires 5 * ONE * (s - s') <= 6 * (h * (s - ONE)) + 10 * ONE * FALL_NOISE
    requires gain * s' <= ONE * (s - s') + 400 * s'
    ensures b * gain <= ONE
  {
    SmallDrop(s, s', h, b);
    var bd, bw := ScaledDrop(s - s', s - ONE, h, b);
    var loss, bs := ScaledGain(gain, s', s - s', b, bd);
    WithinOne(loss, bd, bw, bs, s, s', s - ONE, b);
    CancelInt(b * gain, ONE, s', loss);
  }

  lemma CancelInt(x: int, y: int, d: int, xd: int)
    requires d > 0 && xd == x * d && xd <= y * d
    ensures x <= y
  {
    if x > y { MulMono(y + 1, x, d); }
  }

  /** The slope bound of the sum, multiplied by b. */
  lemma ScaledDrop(d: int, w: nat, h: nat, b: nat) returns (bd: int, bw: nat)
    requires b > 0 && h == ONE / b + 1 && w <= 2 * ONE
    requires 5 * ONE * d <= 6 * (h * w) + 10 * ONE * FALL_NOISE
    ensures bd == b * d && 0 <= bw <= 2 * ONE * b
    ensures 5 * ONE * bd <= 6 * (ONE * w + bw) + 10 * ONE * FALL_NOISE * b
  {
    bd, bw := b * d, b * w;
    MulMono(w, 2 * ONE, b);
    MulMono(5 * ONE * d, 6 * (h * w) + 10 * ONE * FALL_NOISE, b);
    ScaledWidth(h, w, b);
  }

  lemma ScaledWidth(h: nat, w: nat, b: nat)
    requires b > 0 && h == ONE / b + 1
    ensures h * w * b <= ONE * w + b * w
  {
    DivBounds(ONE, b);
    Regroup(h, w, b);
    MulMono(h * b, ONE + b, w);
    assert (ONE + b) * w == ONE * w + b * w;
  }

  lemma Regroup(h: int, w: int, b: int)
    ensures h * w * b == h * b * w
  {
  }

  lemma ScaledGain(gain: nat, s': nat, d: int, b: nat, bd: int) returns (loss: nat, bs: nat)
    requires gain * s' <= ONE * d + 400 * s' && bd == b * d && s' <= 3 * ONE
    ensures loss == b * gain * s' && loss <= ONE * bd + 400 * bs && bs <= 3 * ONE * b
  {
    bs := b * s';
    MulMono(s', 3 * ONE, b);
    MulMono(gain * s', ONE * d + 400 * s', b);
    Regroup(gain, s', b);
    loss := b * gain * s';
  }

  /** The linear part of the argument, with every product named. */
  lemma WithinOne(loss: int, bd: int, bw: int, bs: int, s: nat, s': nat, w: nat, b: nat)
    requires b <= B_SMOOTH && ONE <= s' <= s <= 3 * ONE && w == s - ONE
    requires 5 * ONE * bd <= 6 * (ONE * w + bw) + 10 * ONE * FALL_NOISE * b
    requires loss <= ONE * bd + 400 * bs && bw <= 2 * ONE * b && bs <= 3 * ONE * b
    requires 5 * (s - s') <= ONE / 80 + 6000
    ensures loss <= ONE * s'
  {
  }

  lemma SmallDrop(s: nat, s': nat, h: nat, b: nat)
    requires B_MIN <= b && h == ONE / b + 1 && s' <= s && ONE <= s <= 3 * ONE
    requires 5 * ONE * (s - s') <= 6 * (h * (s - ONE)) + 10 * ONE * FALL_NOISE
    ensures 5 * (s - s') <= ONE / 80 + 6000
  {
    DivAtMost(ONE, b, ONE / 1000) by {
      DivBounds(ONE, 1000);
      MulMono(1000, b, ONE / 1000 + 1);
    }
    MulMono(s - ONE, 2 * ONE, h);
  }

  lemma StepAtLeader(q: Quantities, b: u64, outcome: nat)
    requires InRange(q, b) && b <= B_SMOOTH && outcome < N_OUTCOMES && q[outcome] == MaxOf(q) < Q_MAX
    ensures Cost(Raised(q, outcome, 1), b) >= Cost(q, b)
  {
    hide Ln, ExpSum;
    var q' := Raised(q, outcome, 1);
    var s, s', h := SumFalls(q, b, outcome);
    assert MaxOf(q') == MaxOf(q) + 1;
    if s <= s' {
      LnIsMonotone(s, s');
      MulMono(Ln(s), Ln(s'), b);
    } else {
      var gain := LnGrowsSlowly(s, s');
      LossWithinOne(s, s', h, b, gain);
      assert b * gain == b * Ln(s) - b * Ln(s');
    }
  }

  // ------------------------------------------------------------ any purchase

  /** The cost is monotone: for every input in range, every outcome and every delta. */
  lemma {:induction false} CostIsMonotone(q: Quantities, b: u64, outcome: nat, delta: nat)
    requires InRange(q, b) && b <= B_SMOOTH && outcome < N_OUTCOMES && q[outcome] + delta <= Q_MAX
    ensures Cost(Raised(q, outcome, delta), b) >= Cost(q, b)
    decreases delta
  {
    hide Cost;
    if delta == 0 {
      assert Raised(q, outcome, 0) == q;
    } else {
      CostIsMonotone(q, b, outcome, delta - 1);
      var q1 := Raised(q, outcome, delta - 1);
      assert Raised(q1, outcome, 1) == Raised(q, outcome, delta);
      if q1[outcome] < MaxOf(q1) {
        StepBelowLeader(q1, b, outcome);
      } else {
        StepAtLeader(q1, b, outcome);
      }
    }
  }

  /** Both saturating subtractions are inert: every quote is the rounded exact difference. */
  lemma BeltsAreInert(q: Quantities, b: u64, outcome: nat, delta: u64)
    requires InRange(q, b) && b <= B_SMOOTH && outcome < N_OUTCOMES && delta > 0
    ensures q[outcome] + delta <= Q_MAX ==>
      && Cost(Raised(q, outcome, delta), b) >= Cost(q, b)
      && BuyCost(q, b, outcome, delta).Ok?
      && BuyCost(q, b, outcome, delta).value
         == Max(CeilDiv(Cost(Raised(q, outcome, delta), b) - Cost(q, b), ONE), 1)
    ensures delta <= q[outcome] ==>
      && Cost(q[outcome := q[outcome] - delta], b) <= Cost(q, b)
      && SellRefund(q, b, outcome, delta).Ok?
      && SellRefund(q, b, outcome, delta).value
         == (Cost(q, b) - Cost(q[outcome := q[outcome] - delta], b)) / ONE
  {
    hide Cost;
    QuotesAreTotal(q, b, outcome, delta);
    if q[outcome] + delta <= Q_MAX {
      CostIsMonotone(q, b, outcome, delta);
    }
    if delta <= q[outcome] {
      var down: Quantities := q[outcome := q[outcome] - delta];
      assert Raised(down, outcome, delta) == q;
      CostIsMonotone(down, b, outcome, delta);
    }
  }

  /** A bigger purchase costs at least as much. */
  lemma CostOfIsMonotone(q: Quantities, b: u64, outcome: nat, d: nat, d': nat)
    requires InRange(q, b) && b <= B_SMOOTH && outcome < N_OUTCOMES && d <= d' && q[outcome] + d' <= Q_MAX
    ensures CostOf(q, b, outcome, d) <= CostOf(q, b, outcome, d')
  {
    hide Cost;
    var q1 := Raised(q, outcome, d);
    assert Raised(q1, outcome, d' - d) == Raised(q, outcome, d');
    CostIsMonotone(q1, b, outcome, d' - d);
    var lo, hi := SatSub(Cost(q1, b), Cost(q, b)), SatSub(Cost(Raised(q, outcome, d'), b), Cost(q, b));
    DivMono(lo + (ONE - 1), hi + (ONE - 1), ONE);
  }

  /** With a monotone cost the search returns the largest affordable purchase of all. */
  lemma BuyDeltaIsTheMaximum(q: Quantities, b: u64, outcome: nat, budget: u64, d: nat)
    requires InRange(q, b) && b <= B_SMOOTH && outcome < N_OUTCOMES
    requires d > 0 && q[outcome] + d <= Q_MAX && CostOf(q, b, outcome, d) <= budget
    ensures d <= BuyDelta(q, b, outcome, budget).value
  {
    hide CostOf, BuyDelta;
    BuyDeltaIsLocalMaximum(q, b, outcome, budget);
    var found := BuyDelta(q, b, outcome, budget).value;
    if found < d {
      CostOfIsMonotone(q, b, outcome, found + 1, d);
    }
  }
}
