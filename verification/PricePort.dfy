/** The indexer's price module, apps/indexer/src/chain/lmsr-price.ts: unbounded integers, no error
    branches, and a fallback split. It returns the program's prices.
    */
module PricePort {
  import opened Machine
  import opened Q64
  import opened Lmsr

  method ExpNegQ64(x: nat) returns (e: nat)
    ensures e == ExpNeg(x)
  {
    hide ExpSeries;
    var k := x / LN2;
    if k >= 64 {
      return 0;
    }
    var r: nat := x - k * LN2;
    assert r == x % LN2;
    var sum := SeriesLoop(r, EXP_MAX_PAIRS + 1);
    var clamped: nat := if sum < ONE then sum else ONE;
    ShiftBound(clamped, k);
    e := clamped / Pow2(k);
  }

  /** The loop body of the port, with its early exit. */
  method SeriesLoop(r: nat, ghost pairs: nat) returns (sum: nat)
    requires r < LN2 && pairs == EXP_MAX_PAIRS + 1
    ensures sum == ExpSeries(r)
  {
    var rSq: nat := Square(r);
    var t: nat := ONE;
    sum := 0;
    var j := 0;
    ghost var left: nat, rest: nat := pairs, ExpTail(r, rSq, ONE, 0, pairs);
    ghost var total: nat := rest;
    while true
      invariant 0 <= j <= EXP_MAX_PAIRS && left == pairs - j
      invariant rest == ExpTail(r, rSq, t, j, left) && sum + rest == total
      decreases EXP_MAX_PAIRS - j
    {
      var pair;
      pair, t := Pair(r, rSq, t, j, left);
      sum := sum + pair;
      left, rest := left - 1, rest - pair;
      if t == 0 || j >= EXP_MAX_PAIRS {
        ExpTailZero(r, rSq, j + 1, left);
        break;
      }
      j := j + 1;
    }
  }

  function Square(r: nat): (s: nat)
    ensures s == Mul(r, r)
  {
    MulMono(0, r, r);
    DivAtLeast(r * r, ONE, 0);
    r * r / ONE
  }

  method Pair(r: nat, rSq: nat, t: nat, j: nat, ghost left: nat) returns (pair: nat, t': nat)
    requires r <= ONE && left > 0
    ensures ExpTail(r, rSq, t, j, left) == pair + ExpTail(r, rSq, t', j + 1, left - 1)
  {
    FracBound(r, j);
    var frac := r / (2 * j + 1);
    MulMono(0, t, ONE - frac);
    DivAtLeast(t * (ONE - frac), ONE, 0);
    MulMono(0, t, rSq);
    DivAtLeast(t * rSq, ONE, 0);
    DivAtLeast(t * rSq / ONE, ExpDen(j), 0);
    pair := t * (ONE - frac) / ONE;
    t' := t * rSq / ONE / ((2 * j + 1) * (2 * j + 2));
    ExpTailStep(r, rSq, t, j, left, frac, t');
  }

  method ShiftedExpSum(q: Quantities, b: int) returns (r: Option<(nat, seq<nat>)>)
    ensures r.None? <==> b <= 0
    ensures r.Some? ==> r.value.0 == ExpSum(q, b) && |r.value.1| == N_OUTCOMES
    ensures r.Some? ==> forall i :: 0 <= i < N_OUTCOMES ==> r.value.1[i] == ExpOf(q, b, i)
  {
    if b <= 0 {
      return None;
    }
    hide ExpNeg, ExpOf;
    var m :=
      if q[0] > q[1] then if q[0] > q[2] then q[0] else q[2]
      else if q[1] > q[2] then q[1] else q[2];
    var exps: seq<nat> := [0, 0, 0];
    var sum: nat := 0;
    AllExps(q, b);
    for i := 0 to N_OUTCOMES
      invariant |exps| == N_OUTCOMES
      invariant forall k :: 0 <= k < i ==> exps[k] == ExpOf(q, b, k)
      invariant sum == FirstExps(q, b, i)
    {
      DivAtLeast((m - q[i]) * ONE, b, 0);
      var x := (m - q[i]) * ONE / b;
      ExpOfAtMostOne(q, b, i, x);
      var e := ExpNegQ64(x);
      exps := exps[i := e];
      sum := sum + e;
    }
    return Some((sum, exps));
  }

  /** For every quantity triple and every b > 0 the program's prices; an even split otherwise. */
  method Prices1x2Bps(q: Quantities, b: int) returns (out: seq<nat>)
    ensures |out| == N_OUTCOMES
    ensures b <= 0 ==> out == [3333, 3333, 3333]
    ensures b > 0 ==> forall i :: 0 <= i < N_OUTCOMES ==> out[i] == PriceOf(q, b, i)
  {
    hide ExpOf;
    var shifted := ShiftedExpSum(q, b);
    if shifted.None? || shifted.value.0 <= 0 {
      if shifted.Some? {
        ExpSumRange(q, b);
        assert false;
      }
      var third := BPS_DENOM / N_OUTCOMES;
      return [third, third, third];
    }
    var sum, exps := shifted.value.0, shifted.value.1;
    out := [0, 0, 0];
    for i := 0 to N_OUTCOMES
      invariant |out| == N_OUTCOMES
      invariant forall k :: 0 <= k < i ==> out[k] == PriceOf(q, b, k)
    {
      PriceAtMost(q, b, i);
      out := out[i := exps[i] * BPS_DENOM / sum];
    }
  }

  /** Whenever the program quotes prices at all, the port shows the same three numbers. */
  method PortAgrees(q: Quantities, b: u64) returns (onChain: Result<seq<u16>>, shown: seq<nat>)
    ensures onChain.Ok? <==> InRange(q, b)
    ensures onChain.Ok? ==> |onChain.value| == |shown| && forall i :: 0 <= i < |shown| ==> onChain.value[i] == shown[i]
  {
    onChain := PricesBps(q, b);
    shown := Prices1x2Bps(q, b);
  }
}
