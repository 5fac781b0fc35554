/** Running the exp loop by hand on a given argument, one turn at a time.

    The parameter `h` has no part in any value: it keeps the verifier from unrolling a whole run
    at once.
    */
module ExpRun {
  import opened Machine
  import opened Q64

  /** The loop's running term and sum after `j` turns. */
  ghost function TermAfter(h: nat, rSq: nat, j: nat): int
    decreases j, h
  {
    if j == 0 then ONE else TermAfter(h, rSq, j - 1) * rSq / ONE / ExpDen(j - 1)
  }

  ghost function SumAfter(h: nat, r: nat, rSq: nat, j: nat): int
    decreases j, h
  {
    if j == 0 then 0
    else SumAfter(h, r, rSq, j - 1) + TermAfter(h, rSq, j - 1) * (ONE - r / (2 * (j - 1) + 1)) / ONE
  }

  lemma Turn(h: nat, r: nat, rSq: nat, j: nat, t: int, sum: int, t': int, pair: int)
    requires TermAfter(h, rSq, j) == t && SumAfter(h, r, rSq, j) == sum
    requires t' == t * rSq / ONE / ((2 * j + 1) * (2 * j + 2))
    requires pair == t * (ONE - r / (2 * j + 1)) / ONE
    ensures TermAfter(h, rSq, j + 1) == t' && SumAfter(h, r, rSq, j + 1) == sum + pair
  {
  }

  lemma TailStep(r: nat, rSq: nat, t: nat, j: nat, left: nat) returns (t': nat)
    requires r <= ONE && left > 0
    ensures t' == t * rSq / ONE / ExpDen(j)
    ensures ExpTail(r, rSq, t, j, left)
         == t * (ONE - r / (2 * j + 1)) / ONE + ExpTail(r, rSq, t', j + 1, left - 1)
  {
    FracBound(r, j);
    MulMono(0, t, rSq);
    DivAtLeast(t * rSq, ONE, 0);
    DivAtLeast(Mul(t, rSq), ExpDen(j), 0);
    t' := t * rSq / ONE / ExpDen(j);
    ExpTailStep(r, rSq, t, j, left, r / (2 * j + 1), t');
  }

  lemma AfterStep(h: nat, r: nat, rSq: nat, j: nat, t: int, sum: int, t': int)
    requires j > 0 && t == TermAfter(h, rSq, j - 1) && sum == SumAfter(h, r, rSq, j - 1)
    requires t' == t * rSq / ONE / ExpDen(j - 1)
    ensures t' == TermAfter(h, rSq, j)
    ensures SumAfter(h, r, rSq, j) == sum + t * (ONE - r / (2 * (j - 1) + 1)) / ONE
  {
  }

  lemma {:induction false} AfterIsTail(h: nat, r: nat, rSq: nat, j: nat, left: nat, total: nat)
    requires r <= ONE && total == ExpTail(r, rSq, ONE, 0, j + left)
    ensures TermAfter(h, rSq, j) >= 0
    ensures total == SumAfter(h, r, rSq, j) + ExpTail(r, rSq, TermAfter(h, rSq, j), j, left)
  {
    hide TermAfter, SumAfter, ExpTail, ExpDen;
    if j == 0 {
      AfterNone(h, r, rSq);
    } else {
      AfterIsTail(h, r, rSq, j - 1, left + 1, total);
      var t, sum := TermAfter(h, rSq, j - 1), SumAfter(h, r, rSq, j - 1);
      var t' := TailStep(r, rSq, t, j - 1, left + 1);
      AfterStep(h, r, rSq, j, t, sum, t');
    }
  }

  lemma AfterNone(h: nat, r: nat, rSq: nat)
    ensures TermAfter(h, rSq, 0) == ONE && SumAfter(h, r, rSq, 0) == 0
  {
  }

  /** Once the term is zero the sum is the whole series. */
  lemma RunEnds(h: nat, r: nat, rSq: nat, j: nat, left: nat)
    requires r <= ONE && rSq == Mul(r, r) && j + left == EXP_MAX_PAIRS + 1
    requires TermAfter(h, rSq, j) == 0
    ensures ExpSeries(r) == SumAfter(h, r, rSq, j)
  {
    AfterIsTail(h, r, rSq, j, left, ExpSeries(r));
    ExpTailZero(r, rSq, j, left);
  }
}
