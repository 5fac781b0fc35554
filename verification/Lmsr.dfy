/** The LMSR cost function, prices and trade quotes of programs/amm/src/lmsr.rs.

    Each operation has a specification function over the inputs, and, where the source runs loops
    or steps over mutable locals, a method in that form proved equal to it. The methods show that
    no arithmetic error branch is reachable once the inputs are in range.
    */
module Lmsr {
  import opened Machine
  import opened Q64
  import opened LnMonotone

  const N_OUTCOMES: int := 3
  const Q_MAX: int := 0x1000_0000_0000_0000
  const B_MIN: int := 1_000
  const B_MAX: int := 0x1000_0000_0000_0000

  type Quantities = q: seq<u64> | |q| == N_OUTCOMES witness [0, 0, 0]

  // ------------------------------------------------------------ specification

  predicate InRange(q: Quantities, b: u64) {
    B_MIN <= b <= B_MAX && forall i :: 0 <= i < N_OUTCOMES ==> q[i] <= Q_MAX
  }

  function ValidateInputs(q: Quantities, b: u64): (r: Result<()>)
    ensures r.Ok? <==> InRange(q, b)
  {
    if b < B_MIN || b > B_MAX then Err(LmsrLiquidityOutOfRange)
    else if exists i :: 0 <= i < N_OUTCOMES && q[i] > Q_MAX then Err(LmsrQuantityTooLarge)
    else Ok(())
  }

  function MaxOf(q: Quantities): (m: nat)
    ensures m == q[0] || m == q[1] || m == q[2]
    ensures q[0] <= m && q[1] <= m && q[2] <= m
  {
    Max(Max(q[0], q[1]), q[2])
  }

  /** (max - q_i)/b in Q64.64. */
  function Shift(q: Quantities, b: nat, i: nat): (x: nat)
    requires i < N_OUTCOMES && b > 0
  {
    DivAtLeast((MaxOf(q) - q[i]) * ONE, b, 0);
    (MaxOf(q) - q[i]) * ONE / b
  }

  function ExpOf(q: Quantities, b: nat, i: nat): nat
    requires i < N_OUTCOMES && b > 0
  {
    ExpNeg(Shift(q, b, i))
  }

  function ExpSum(q: Quantities, b: nat): nat
    requires b > 0
  {
    ExpOf(q, b, 0) + ExpOf(q, b, 1) + ExpOf(q, b, 2)
  }

  /** C(q) in Q64.64. */
  function Cost(q: Quantities, b: nat): nat
    requires b > 0
  {
    ExpSumRange(q, b);
    LnRange(ExpSum(q, b));
    MulMono(0, Ln(ExpSum(q, b)), b);
    MaxOf(q) * ONE + b * Ln(ExpSum(q, b))
  }

  function PriceOf(q: Quantities, b: nat, i: nat): nat
    requires i < N_OUTCOMES && b > 0
  {
    ExpSumRange(q, b);
    DivAtLeast(ExpOf(q, b, i) * BPS_DENOM, ExpSum(q, b), 0);
    ExpOf(q, b, i) * BPS_DENOM / ExpSum(q, b)
  }

  // ------------------------------------------------------------- the exp sum

  lemma ExpNegZero(x: nat)
    requires x == 0
    ensures ExpNeg(x) == ONE
  {
    var r: nat := x % LN2;
    SeriesAtZero(r, EXP_MAX_PAIRS + 1);
    assert Pow2(x / LN2) == 1;
  }

  /** At zero the first pair is one, and the next term is zero. */
  lemma SeriesAtZero(r: nat, left: nat)
    requires r == 0 && left > 0
    ensures ExpTail(r, Mul(r, r), ONE, 0, left) == ONE
  {
    hide ExpTail;
    var next := Mul(ONE, Mul(r, r)) / ExpDen(0);
    ExpTailStep(r, Mul(r, r), ONE, 0, left, 0, next);
    ExpTailZero(r, Mul(r, r), 1, left - 1);
  }

  lemma ExpNegAtMostOne(x: nat)
    ensures ExpNeg(x) <= ONE
  {
    if x / LN2 < 64 {
      ShiftBound(Min(ExpSeries(x % LN2), ONE), x / LN2);
    }
  }

  /** The leading outcome's term is exactly one. */
  lemma LeaderIsOne(q: Quantities, b: nat, i: nat)
    requires i < N_OUTCOMES && b > 0 && q[i] == MaxOf(q)
    ensures ExpOf(q, b, i) == ONE
  {
    DivUnique(0, b, 0);
    ExpNegZero(Shift(q, b, i));
  }

  /** The sum is between one and three, so `ln_q64` has no domain error. */
  lemma ExpSumRange(q: Quantities, b: nat)
    requires b > 0
    ensures ONE <= ExpSum(q, b) <= 3 * ONE
    ensures forall i :: 0 <= i < N_OUTCOMES ==> ExpOf(q, b, i) <= ONE
  {
    hide ExpNeg, ExpOf;
    var lead := if q[0] == MaxOf(q) then 0 else if q[1] == MaxOf(q) then 1 else 2;
    LeaderIsOne(q, b, lead);
    forall i | 0 <= i < N_OUTCOMES ensures ExpOf(q, b, i) <= ONE {
      ExpOfAtMostOne(q, b, i, Shift(q, b, i));
    }
  }

  lemma ExpOfAtMostOne(q: Quantities, b: nat, i: nat, x: nat)
    requires i < N_OUTCOMES && b > 0 && x == (MaxOf(q) - q[i]) * ONE / b
    ensures ExpNeg(x) == ExpOf(q, b, i) <= ONE
  {
    ExpNegAtMostOne(x);
  }

  /** C(q) covers the largest quantity exactly, and stays within 2 ln 2 of it. */
  lemma CostRange(q: Quantities, b: nat)
    requires b > 0
    ensures MaxOf(q) * ONE <= Cost(q, b) <= MaxOf(q) * ONE + 2 * LN2 * b
  {
    hide ExpSum, Ln;
    ExpSumRange(q, b);
    var l := Ln(ExpSum(q, b));
    LnRange(ExpSum(q, b));
    MulMono(0, l, b);
    MulMono(l, 2 * LN2, b);
  }

  // --------------------------------------------------------- the source's steps

  ghost function FirstExps(q: Quantities, b: nat, n: nat): nat
    requires n <= N_OUTCOMES && b > 0
  {
    if n == 0 then 0 else FirstExps(q, b, n - 1) + ExpOf(q, b, n - 1)
  }

  lemma AllExps(q: Quantities, b: nat)
    requires b > 0
    ensures FirstExps(q, b, N_OUTCOMES) == ExpSum(q, b)
  {
    hide ExpOf;
    assert FirstExps(q, b, 1) == ExpOf(q, b, 0);
    assert FirstExps(q, b, 2) == ExpOf(q, b, 0) + ExpOf(q, b, 1);
  }

  /** The loop over outcomes. No step of it can fail on inputs in range. */
  method ShiftedExpSum(q: Quantities, b: u64) returns (sum: u128, exps: seq<u128>)
    requires InRange(q, b)
    ensures sum == ExpSum(q, b) && |exps| == N_OUTCOMES
    ensures forall i :: 0 <= i < N_OUTCOMES ==> exps[i] == ExpOf(q, b, i)
  {
    hide ExpNeg, ExpOf;
    AllExps(q, b);
    var m := Max(Max(q[0], q[1]), q[2]);
    exps := [0, 0, 0];
    sum := 0;
    for i := 0 to N_OUTCOMES
      invariant |exps| == N_OUTCOMES
      invariant forall k :: 0 <= k < i ==> exps[k] == ExpOf(q, b, k)
      invariant sum == FirstExps(q, b, i)
      invariant sum <= i * ONE
    {
      ShiftFits(m - q[i], b);
      var x: u128 := (m - q[i]) * ONE / b;
      ExpOfAtMostOne(q, b, i, x);
      var e := ExpNegQ64(x);
      exps := exps[i := e.value];
      sum := sum + e.value;
    }
  }

  lemma ShiftFits(d: nat, b: nat)
    requires d <= Q_MAX && b >= 1
    ensures 0 <= d * ONE / b < TWO128
  {
    MulMono(1, b, d * ONE);
    DivAtLeast(d * ONE, b, 0);
    DivAtMost(d * ONE, b, d * ONE);
  }

  /** `cost_q64`: the documented errors outside the range, and C(q) inside it. */
  method CostQ64(q: Quantities, b: u64) returns (r: Result<u128>)
    ensures r == CostChecked(q, b)
  {
    hide ExpSum, Ln, ExpOf;
    var valid := ValidateInputs(q, b);
    if valid.Err? {
      return Err(valid.error);
    }
    var sum, _ := ShiftedExpSum(q, b);
    ExpSumRange(q, b);
    var lnSum := LnQ64(sum);
    LnRange(sum);
    CostFits(q, b);
    MulMono(0, lnSum.value, b);
    var scaled: u128 := b * lnSum.value;
    return Ok(Max(Max(q[0], q[1]), q[2]) * ONE + scaled);
  }

  function CostChecked(q: Quantities, b: u64): (r: Result<u128>)
    ensures r.Ok? <==> InRange(q, b)
    ensures r.Ok? ==> r.value == Cost(q, b) < 4 * Q_MAX * ONE
  {
    var valid := ValidateInputs(q, b);
    if valid.Err? then Err(valid.error)
    else
      CostFits(q, b);
      Ok(Cost(q, b))
  }

  lemma CostFits(q: Quantities, b: u64)
    requires InRange(q, b)
    ensures 0 <= Cost(q, b) < 4 * Q_MAX * ONE < TWO128
  {
    hide Cost;
    CostRange(q, b);
  }

  /** `cost`: C(q) in whole units. */
  function CostUnits(q: Quantities, b: u64): (r: Result<u64>)
    ensures r.Ok? <==> InRange(q, b)
    ensures r.Ok? ==> r.value * ONE - ONE < Cost(q, b) <= r.value * ONE
  {
    var valid := ValidateInputs(q, b);
    if valid.Err? then Err(valid.error)
    else
      CostFits(q, b);
      CeilBounds(Cost(q, b), ONE);
      Ok(CeilDiv(Cost(q, b), ONE))
  }

  /** `price_bps`. */
  function PriceChecked(q: Quantities, b: u64, outcome: nat): (r: Result<u16>)
    ensures r.Ok? <==> outcome < N_OUTCOMES && InRange(q, b)
    ensures r.Ok? ==> r.value == PriceOf(q, b, outcome) <= BPS_DENOM
  {
    if outcome >= N_OUTCOMES then Err(LmsrInvalidOutcomeIndex)
    else
      var valid := ValidateInputs(q, b);
      if valid.Err? then Err(valid.error)
      else
        PriceAtMost(q, b, outcome);
        Ok(PriceOf(q, b, outcome))
  }

  /** `prices_bps`: the error branches past validation are never taken. */
  method PricesBps(q: Quantities, b: u64) returns (r: Result<seq<u16>>)
    ensures r.Err? ==> ValidateInputs(q, b) == Err(r.error)
    ensures r.Ok? ==> InRange(q, b) && |r.value| == N_OUTCOMES
    ensures r.Ok? ==> forall i :: 0 <= i < N_OUTCOMES ==> r.value[i] == PriceOf(q, b, i)
  {
    hide ExpOf;
    var valid := ValidateInputs(q, b);
    if valid.Err? {
      return Err(valid.error);
    }
    var sum, exps := ShiftedExpSum(q, b);
    ExpSumRange(q, b);
    var out: seq<u16> := [0, 0, 0];
    for i := 0 to N_OUTCOMES
      invariant |out| == N_OUTCOMES
      invariant forall k :: 0 <= k < i ==> out[k] == PriceOf(q, b, k)
    {
      PriceAtMost(q, b, i);
      var p := exps[i] * BPS_DENOM / sum;
      out := out[i := p];
    }
    return Ok(out);
  }

  lemma PriceAtMost(q: Quantities, b: nat, i: nat)
    requires i < N_OUTCOMES && b > 0
    ensures 0 <= PriceOf(q, b, i) <= BPS_DENOM
  {
    hide ExpOf;
    ExpSumRange(q, b);
    DivAtMost(ExpOf(q, b, i) * BPS_DENOM, ExpSum(q, b), BPS_DENOM);
  }

  method PriceBps(q: Quantities, b: u64, outcome: nat) returns (r: Result<u16>)
    ensures r == PriceChecked(q, b, outcome)
  {
    if outcome >= N_OUTCOMES {
      return Err(LmsrInvalidOutcomeIndex);
    }
    var prices :- PricesBps(q, b);
    return Ok(prices[outcome]);
  }

  // ------------------------------------------------------------------- quotes

  /** The charge for moving from cost c0 to c1: rounded up, never free. */
  function Charge(c0: nat, c1: nat): (units: nat) {
    Max(CeilDiv(SatSub(c1, c0), ONE), 1)
  }

  function BuyCost(q: Quantities, b: u64, outcome: nat, delta: u64): (r: Result<u64>) {
    if outcome >= N_OUTCOMES then Err(LmsrInvalidOutcomeIndex)
    else if delta == 0 then Err(ZeroAmount)
    else
      var c0 :- CostChecked(q, b);
      if q[outcome] + delta >= TWO64 then Err(LmsrQuantityTooLarge)
      else
        var c1 :- CostChecked(q[outcome := q[outcome] + delta], b);
        ChargeFits(c0, c1);
        Ok(Charge(c0, c1))
  }

  lemma ChargeFits(c0: nat, c1: nat)
    requires c1 < 4 * Q_MAX * ONE
    ensures 1 <= Charge(c0, c1) <= 4 * Q_MAX
    ensures Charge(c0, c1) * ONE >= c1 - c0
  {
    CeilBounds(SatSub(c1, c0), ONE);
  }

  function SellRefund(q: Quantities, b: u64, outcome: nat, delta: u64): (r: Result<u64>) {
    if outcome >= N_OUTCOMES then Err(LmsrInvalidOutcomeIndex)
    else if delta == 0 then Err(ZeroAmount)
    else if delta > q[outcome] then Err(LmsrInsufficientOutcomeSupply)
    else
      var c0 :- CostChecked(q, b);
      var c1 :- CostChecked(q[outcome := q[outcome] - delta], b);
      Ok(SatSub(c0, c1) / ONE)
  }

  function MaxSupply(supplies: seq<u64>): u64 {
    if supplies == [] then 0 else Max(supplies[0], MaxSupply(supplies[1..]))
  }

  function AssertSolventMulti(vault: u64, supplies: seq<u64>): (r: Result<()>) {
    if vault < MaxSupply(supplies) then Err(SolvencyViolation) else Ok(())
  }

  /** The check passes exactly when the vault covers every outcome. */
  lemma {:induction false} SolventMeans(vault: u64, supplies: seq<u64>)
    ensures AssertSolventMulti(vault, supplies).Ok? <==> forall i :: 0 <= i < |supplies| ==> supplies[i] <= vault
  {
    if supplies != [] {
      SolventMeans(vault, supplies[1..]);
      assert forall i :: 1 <= i < |supplies| ==> supplies[i] == supplies[1..][i - 1];
    }
  }

  /** Outside the listed errors a quote is always given: inputs in range, a nonzero amount, and the
      quantity after the trade in range too. */
  lemma QuotesAreTotal(q: Quantities, b: u64, outcome: nat, delta: u64)
    ensures BuyCost(q, b, outcome, delta).Ok? <==>
            outcome < N_OUTCOMES && delta > 0 && InRange(q, b) && q[outcome] + delta <= Q_MAX
    ensures SellRefund(q, b, outcome, delta).Ok? <==>
            outcome < N_OUTCOMES && 0 < delta <= q[outcome] && InRange(q, b)
  {
    hide Cost, Charge;
    if outcome < N_OUTCOMES && q[outcome] + delta < TWO64 {
      var up := q[outcome := q[outcome] + delta];
      assert up[outcome] == q[outcome] + delta;
      assert forall i :: 0 <= i < N_OUTCOMES && i != outcome ==> up[i] == q[i];
    }
    if outcome < N_OUTCOMES && delta <= q[outcome] {
      var down := q[outcome := q[outcome] - delta];
      assert forall i :: 0 <= i < N_OUTCOMES && i != outcome ==> down[i] == q[i];
    }
  }

  /** Selling back what was just bought never pays more than it cost, whatever the curve does. */
  lemma RoundTripNeverProfits(q: Quantities, b: u64, outcome: nat, delta: u64)
    requires BuyCost(q, b, outcome, delta).Ok?
    ensures var bought := q[outcome := q[outcome] + delta];
      SellRefund(bought, b, outcome, delta).Ok?
      && SellRefund(bought, b, outcome, delta).value <= BuyCost(q, b, outcome, delta).value
  {
    hide Cost;
    QuotesAreTotal(q, b, outcome, delta);
    var bought := q[outcome := q[outcome] + delta];
    QuotesAreTotal(bought, b, outcome, delta);
    assert bought[outcome := bought[outcome] - delta] == q;
    var gap := SatSub(Cost(bought, b), Cost(q, b));
    CeilBounds(gap, ONE);
    DivBounds(gap, ONE);
  }
}
