/** `buy_delta_for_cost`: the bracketed binary search of programs/amm/src/lmsr.rs, correct without
    assuming that the cost is monotone.
    */
module BudgetSearch {
  import opened Machine
  import opened Q64
  import opened Lmsr
  import ExpShape

  /** What `delta` more tokens of `outcome` cost: the source's `cost_of`, and `buy_cost`. */
  function CostOf(q: Quantities, b: u64, outcome: nat, delta: nat): nat
    requires InRange(q, b) && outcome < N_OUTCOMES && q[outcome] + delta <= Q_MAX
  {
    Charge(Cost(q, b), Cost(q[outcome := q[outcome] + delta], b))
  }

  /** The cap of the bracket: what the budget could buy at best, or what the range still allows. */
  function UpperBracket(q: Quantities, b: u64, outcome: nat, budget: u64): nat
    requires InRange(q, b) && outcome < N_OUTCOMES
  {
    SlackFits(q, b, outcome, Cost(q, b));
    var slack := Cost(q, b) / ONE - q[outcome] + 1;
    Min(Min(budget + slack, TWO64 - 1), Q_MAX - q[outcome])
  }

  function Halve(q: Quantities, b: u64, outcome: nat, budget: u64, lo: nat, hi: nat): (d: nat)
    requires InRange(q, b) && outcome < N_OUTCOMES && lo < hi && q[outcome] + hi <= Q_MAX
    ensures lo <= d < hi
    decreases hi - lo
  {
    if hi - lo <= 1 then lo
    else
      var mid := lo + (hi - lo) / 2;
      if CostOf(q, b, outcome, mid) <= budget then Halve(q, b, outcome, budget, mid, hi)
      else Halve(q, b, outcome, budget, lo, mid)
  }

  function BuyDelta(q: Quantities, b: u64, outcome: nat, budget: u64): (r: Result<u64>)
    ensures r.Ok? ==> outcome < N_OUTCOMES && InRange(q, b) && q[outcome] + r.value <= Q_MAX
  {
    if outcome >= N_OUTCOMES then Err(LmsrInvalidOutcomeIndex)
    else
      var _ :- ValidateInputs(q, b);
      if budget == 0 then Ok(0)
      else
        var hi := UpperBracket(q, b, outcome, budget);
        if hi == 0 then Ok(0)
        else if CostOf(q, b, outcome, hi) <= budget then Ok(hi)
        else Ok(Halve(q, b, outcome, budget, 0, hi))
  }

  lemma UpdateInRange(q: Quantities, b: u64, outcome: nat, delta: nat)
    requires InRange(q, b) && outcome < N_OUTCOMES && q[outcome] + delta <= Q_MAX
    ensures InRange(q[outcome := q[outcome] + delta], b)
  {
  }

  /** The closure `cost_of`, against a cached C(q). */
  method CostOfCached(q: Quantities, b: u64, outcome: nat, delta: u64, c0: u128) returns (r: Result<u64>)
    requires InRange(q, b) && outcome < N_OUTCOMES && c0 == Cost(q, b)
    ensures q[outcome] + delta <= Q_MAX ==> r == Ok(CostOf(q, b, outcome, delta))
    ensures q[outcome] + delta > Q_MAX ==> r == Err(LmsrQuantityTooLarge)
  {
    hide Cost;
    if q[outcome] + delta >= TWO64 {
      return Err(LmsrQuantityTooLarge);
    }
    var qNew: Quantities := q[outcome := q[outcome] + delta];
    assert qNew[outcome] == q[outcome] + delta;
    var c1 :- CostQ64(qNew, b);
    ChargeFits(c0, c1);
    var raw := SatSub(c1, c0);
    var units: u64 := Max((raw + (ONE - 1)) / ONE, 1);
    return Ok(units);
  }

  /** The source's search, statement by statement. `halvings` counts the loop's turns. */
  method BuyDeltaForCost(q: Quantities, b: u64, outcome: nat, budget: u64)
    returns (r: Result<u64>, ghost halvings: nat)
    ensures r == BuyDelta(q, b, outcome, budget)
    ensures halvings <= 60
  {
    hide Cost, Charge, CostOf, Pow2, Halve;
    halvings := 0;
    if outcome >= N_OUTCOMES {
      return Err(LmsrInvalidOutcomeIndex), 0;
    }
    var valid := ValidateInputs(q, b);
    if valid.Err? {
      return Err(valid.error), 0;
    }
    if budget == 0 {
      return Ok(0), 0;
    }
    var cost := CostQ64(q, b);
    var c0 := cost.value;
    SlackFits(q, b, outcome, c0);
    var floorC0: u64 := c0 / ONE;
    var slack: u64 := floorC0 - q[outcome] + 1;
    var hiCap: u64 := Q_MAX - q[outcome];
    var hi: u64 := Min(Min(budget + slack, TWO64 - 1), hiCap);
    if hi == 0 {
      return Ok(0), 0;
    }
    var top := CostOfCached(q, b, outcome, hi, c0);
    if top.value <= budget {
      return Ok(hi), 0;
    }
    var lo: u64 := 0;
    ghost var answer: nat := Halve(q, b, outcome, budget, lo, hi);
    Pow60(60);
    while hi - lo > 1
      invariant lo < hi && q[outcome] + hi <= Q_MAX
      invariant Halve(q, b, outcome, budget, lo, hi) == answer
      invariant halvings <= 60 && hi - lo <= Pow2(60 - halvings)
      decreases hi - lo
    {
      HalvingStep(hi - lo, halvings);
      HalveUnfolds(q, b, outcome, budget, lo, hi);
      var mid := lo + (hi - lo) / 2;
      var price := CostOfCached(q, b, outcome, mid, c0);
      if price.value <= budget {
        lo := mid;
      } else {
        hi := mid;
      }
      halvings := halvings + 1;
    }
    HalveUnfolds(q, b, outcome, budget, lo, hi);
    r := Ok(lo);
  }

  lemma HalveUnfolds(q: Quantities, b: u64, outcome: nat, budget: u64, lo: nat, hi: nat)
    requires InRange(q, b) && outcome < N_OUTCOMES && lo < hi && q[outcome] + hi <= Q_MAX
    ensures var mid := lo + (hi - lo) / 2;
      Halve(q, b, outcome, budget, lo, hi)
      == if hi - lo <= 1 then lo
         else if CostOf(q, b, outcome, mid) <= budget then Halve(q, b, outcome, budget, mid, hi)
         else Halve(q, b, outcome, budget, lo, mid)
  {
    hide CostOf;
  }

  lemma HalvingStep(width: nat, halvings: nat)
    requires halvings <= 60 && 1 < width <= Pow2(60 - halvings)
    ensures halvings < 60 && width - width / 2 <= Pow2(60 - (halvings + 1))
  {
    assert Pow2(0) == 1;
    assert halvings < 60 ==> Pow2(60 - halvings) == 2 * Pow2(60 - (halvings + 1));
  }

  lemma Pow60(k: nat)
    requires k == 60
    ensures Pow2(k) == Q_MAX
  {
    ExpShape.Pow63(k + 3);
    assert Pow2(k + 3) == 2 * Pow2(k + 2) == 4 * Pow2(k + 1);
  }

  lemma SlackFits(q: Quantities, b: u64, outcome: nat, c0: nat)
    requires InRange(q, b) && outcome < N_OUTCOMES && c0 == Cost(q, b)
    ensures q[outcome] <= c0 / ONE < 4 * Q_MAX
  {
    hide Cost;
    CostRange(q, b);
    CostFits(q, b);
    DivAtLeast(c0, ONE, q[outcome]);
    DivAtMost(c0, ONE, 4 * Q_MAX - 1);
  }

  // ------------------------------------------------------------- correctness

  /** The search keeps an affordable (or zero) lower end and an unaffordable upper end. */
  lemma {:induction false} HalveFinds(q: Quantities, b: u64, outcome: nat, budget: u64, lo: nat, hi: nat)
    requires InRange(q, b) && outcome < N_OUTCOMES && lo < hi && q[outcome] + hi <= Q_MAX
    requires lo == 0 || CostOf(q, b, outcome, lo) <= budget
    requires CostOf(q, b, outcome, hi) > budget
    ensures var d := Halve(q, b, outcome, budget, lo, hi);
      (d == 0 || CostOf(q, b, outcome, d) <= budget) && CostOf(q, b, outcome, d + 1) > budget
    decreases hi - lo
  {
    hide CostOf, Halve;
    HalveUnfolds(q, b, outcome, budget, lo, hi);
    if hi - lo > 1 {
      var mid := lo + (hi - lo) / 2;
      assert lo < mid < hi;
      if CostOf(q, b, outcome, mid) <= budget {
        HalveFinds(q, b, outcome, budget, mid, hi);
      } else {
        HalveFinds(q, b, outcome, budget, lo, mid);
      }
    }
  }

  /** The structural bound behind the bracket: what a purchase costs covers its size less the slack. */
  lemma CostCoversSize(q: Quantities, b: u64, outcome: nat, delta: nat)
    requires InRange(q, b) && outcome < N_OUTCOMES && q[outcome] + delta <= Q_MAX
    ensures delta <= CostOf(q, b, outcome, delta) + (Cost(q, b) / ONE - q[outcome] + 1)
  {
    hide Cost;
    var qNew: Quantities := q[outcome := q[outcome] + delta];
    UpdateInRange(q, b, outcome, delta);
    CostRange(qNew, b);
    CostFits(qNew, b);
    ChargeFits(Cost(q, b), Cost(qNew, b));
    DivBounds(Cost(q, b), ONE);
    var units := CostOf(q, b, outcome, delta);
    MulMono(q[outcome] + delta, MaxOf(qNew), ONE);
  }

  /** No affordable purchase lies outside the bracket. */
  lemma BracketIsComplete(q: Quantities, b: u64, outcome: nat, budget: u64, delta: nat)
    requires InRange(q, b) && outcome < N_OUTCOMES && q[outcome] + delta <= Q_MAX
    requires CostOf(q, b, outcome, delta) <= budget
    ensures delta <= UpperBracket(q, b, outcome, budget)
  {
    hide Cost;
    CostCoversSize(q, b, outcome, delta);
    SlackFits(q, b, outcome, Cost(q, b));
  }

  /** The answer is affordable (or nothing), and one token more is not (or not allowed). */
  lemma BuyDeltaIsLocalMaximum(q: Quantities, b: u64, outcome: nat, budget: u64)
    requires InRange(q, b) && outcome < N_OUTCOMES
    ensures BuyDelta(q, b, outcome, budget).Ok?
    ensures var d := BuyDelta(q, b, outcome, budget).value;
      && (d == 0 || CostOf(q, b, outcome, d) <= budget)
      && (q[outcome] + d == Q_MAX || CostOf(q, b, outcome, d + 1) > budget)
  {
    hide Cost;
    var hi := UpperBracket(q, b, outcome, budget);
    SlackFits(q, b, outcome, Cost(q, b));
    if budget == 0 {
    } else if hi == 0 {
    } else if CostOf(q, b, outcome, hi) <= budget {
      if q[outcome] + hi < Q_MAX && CostOf(q, b, outcome, hi + 1) <= budget {
        BracketIsComplete(q, b, outcome, budget, hi + 1);
      }
    } else {
      HalveFinds(q, b, outcome, budget, 0, hi);
    }
  }

  /** What the search solved for is what `buy_cost` charges, so the buyer never pays over budget. */
  lemma ChargedWhatWasSolved(q: Quantities, b: u64, outcome: nat, budget: u64)
    requires BuyDelta(q, b, outcome, budget).Ok? && BuyDelta(q, b, outcome, budget).value > 0
    ensures var d := BuyDelta(q, b, outcome, budget).value;
      BuyCost(q, b, outcome, d).Ok? && BuyCost(q, b, outcome, d).value <= budget
  {
    hide Cost;
    var d := BuyDelta(q, b, outcome, budget).value;
    BuyDeltaIsLocalMaximum(q, b, outcome, budget);
    QuotesAreTotal(q, b, outcome, d);
  }
}
