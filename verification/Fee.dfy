/** The dynamic volatility fee of programs/amm/src/fee.rs, over single trades and whole runs. */
module Fee {
  import opened Machine

  const SCALE: int := 10_000
  const REDUCTION_DENOM: int := 10_000
  const CONTROL_DENOM: int := 100_000
  const MAX_FEE_BPS_CAP: int := 9_900

  datatype FeeParams = FeeParams(
    baseFeeBps: u16, maxFeeBps: u16, vfcNum: u32, filterPeriod: u32, decayPeriod: u32,
    reductionBps: u16, maxVAcc: u64)

  datatype FeeState = FeeState(lastPriceBps: u16, lastTs: i64, vAcc: u64)

  /** The fee checks of `create_market_config`. */
  predicate ValidParams(p: FeeParams) {
    && p.baseFeeBps <= p.maxFeeBps <= MAX_FEE_BPS_CAP
    && p.reductionBps <= REDUCTION_DENOM
    && p.filterPeriod <= p.decayPeriod
    && p.maxVAcc > 0 && p.vfcNum > 0
  }

  // ------------------------------------------------------------- operations

  function DecayVRef(p: FeeParams, s: FeeState, now: i64): (r: Result<u64>) {
    if now < s.lastTs then Err(MonotonicClock)
    else if now - s.lastTs >= TWO63 then Err(MathOverflow)
    else
      var elapsed := now - s.lastTs;
      if elapsed < p.filterPeriod then Ok(s.vAcc)
      else if elapsed < p.decayPeriod then Ok(Reduced(s.vAcc, p.reductionBps))
      else Ok(0)
  }

  /** `(v_acc * reduction / 10_000) as u64`: the cast truncates. */
  function Reduced(v: u64, reduction: u16): u64 {
    MulMono(0, v, reduction);
    v * reduction / REDUCTION_DENOM % TWO64
  }

  /** denom = CONTROL_DENOM * SCALE^2. */
  const FEE_DENOM: int := CONTROL_DENOM * SCALE * SCALE

  function FeeNum(p: FeeParams, v: u64): (n: nat)
  {
    MulMono(0, v, v);
    MulMono(0, v * v, p.vfcNum);
    p.vfcNum * (v * v)
  }

  function FeeFromVRef(p: FeeParams, v: u64): (r: Result<u16>) {
    var feeNum := FeeNum(p, v);
    if feeNum >= TWO128 then Err(MathOverflow)
    else if feeNum != 0 && feeNum + (FEE_DENOM - 1) >= TWO128 then Err(MathOverflow)
    else
      var variable := if feeNum == 0 then 0 else (feeNum + (FEE_DENOM - 1)) / FEE_DENOM;
      var fee := p.baseFeeBps + variable;
      DivAtLeast(feeNum + (FEE_DENOM - 1), FEE_DENOM, 0);
      Ok(Min(fee, p.maxFeeBps))
  }

  function NextVAcc(p: FeeParams, vRef: u64, oldPrice: u16, newPrice: u16): (r: Result<u64>) {
    var delta := if oldPrice >= newPrice then oldPrice - newPrice else newPrice - oldPrice;
    var contribution := delta * SCALE;
    if vRef + contribution >= TWO64 then Err(MathOverflow)
    else Ok(Min(vRef + contribution, p.maxVAcc))
  }

  function ComputeFee(p: FeeParams, s: FeeState, now: i64): (r: Result<(u16, u64)>) {
    var vRef :- DecayVRef(p, s, now);
    var fee :- FeeFromVRef(p, vRef);
    Ok((fee, vRef))
  }

  // ------------------------------------------------------------- one trade

  /** The numerator leaves room for the rounding. */
  predicate FitsAt(p: FeeParams, v: u64) {
    FeeNum(p, v) + (FEE_DENOM - 1) < TWO128
  }

  lemma FeeNumMonotone(p: FeeParams, v: u64, w: u64)
    requires v <= w
    ensures FeeNum(p, v) <= FeeNum(p, w)
  {
    MulMono(v, w, v);
    MulMono(v, w, w);
    MulMono(v * v, w * w, p.vfcNum);
  }

  /** Exactly when the fee is computed at all, and the band it lies in. */
  lemma FeeSucceedsExactlyWhen(p: FeeParams, v: u64)
    requires ValidParams(p)
    ensures FeeFromVRef(p, v).Ok? <==> FitsAt(p, v)
    ensures FeeFromVRef(p, v).Ok? ==> p.baseFeeBps <= FeeFromVRef(p, v).value <= p.maxFeeBps
  {
    hide FeeNum;
    DivAtLeast(FeeNum(p, v) + (FEE_DENOM - 1), FEE_DENOM, 0);
  }

  /** What the program's documentation calls the fee: the base and the quadratic part
      vfc * v^2 / 10^13 rounded up, no more than the maximum. */
  predicate IsFeeFor(p: FeeParams, v: nat, fee: nat) {
    && p.baseFeeBps <= fee <= p.maxFeeBps
    && (fee < p.maxFeeBps ==> p.vfcNum * (v * v) <= (fee - p.baseFeeBps) * 10_000_000_000_000)
    && (fee > p.baseFeeBps ==> (fee - p.baseFeeBps - 1) * 10_000_000_000_000 < p.vfcNum * (v * v))
  }

  /** The fee computed is that fee. */
  lemma FeeIsQuadratic(p: FeeParams, v: u64)
    requires ValidParams(p) && FeeFromVRef(p, v).Ok?
    ensures IsFeeFor(p, v, FeeFromVRef(p, v).value)
  {
    var load := p.vfcNum * (v * v);
    assert FeeNum(p, v) == load;
    MulMono(0, v, v);
    MulMono(0, v * v, p.vfcNum);
    CeilBounds(load, FEE_DENOM);
    if load == 0 { DivUnique(FEE_DENOM - 1, FEE_DENOM, 0); }
    var variable := CeilDiv(load, FEE_DENOM);
    var fee := FeeFromVRef(p, v).value;
    assert fee == Min(p.baseFeeBps + variable, p.maxFeeBps);
    if fee > p.baseFeeBps { MulMono(fee - p.baseFeeBps, variable, FEE_DENOM); }
  }

  /** There is only one such fee. */
  lemma FeeForIsUnique(p: FeeParams, v: nat, f: nat, f': nat)
    requires IsFeeFor(p, v, f) && IsFeeFor(p, v, f')
    ensures f == f'
  {
  }

  /** The reference volatility by the time since the last trade: kept inside the filter period, reduced up to
      the decay period, nothing after it. */
  predicate IsVolatility(p: FeeParams, s: FeeState, now: i64, v: nat) {
    && s.lastTs <= now
    && (now < s.lastTs + p.filterPeriod ==> v == s.vAcc)
    && (s.lastTs + p.filterPeriod <= now < s.lastTs + p.decayPeriod ==>
          v * 10_000 <= s.vAcc * p.reductionBps < (v + 1) * 10_000)
    && (s.lastTs + p.filterPeriod <= now && s.lastTs + p.decayPeriod <= now ==> v == 0)
  }

  lemma DecayIsByZones(p: FeeParams, s: FeeState, now: i64)
    requires ValidParams(p)
    ensures DecayVRef(p, s, now).Ok? <==> s.lastTs <= now < s.lastTs + TWO63
    ensures DecayVRef(p, s, now).Ok? ==> IsVolatility(p, s, now, DecayVRef(p, s, now).value)
  {
    ReducedAtMost(s.vAcc, p.reductionBps);
    DivBounds(s.vAcc * p.reductionBps, REDUCTION_DENOM);
  }

  /** The accumulator after a trade: the volatility charged under and the price move in ten-thousandths of a
      basis point, capped. */
  predicate IsAccumulator(p: FeeParams, v: nat, oldPrice: u16, newPrice: u16, vAcc: nat) {
    var sum := v + (if oldPrice <= newPrice then newPrice - oldPrice else oldPrice - newPrice) * 10_000;
    vAcc == if sum <= p.maxVAcc then sum else p.maxVAcc
  }

  lemma AccumulatorIs(p: FeeParams, v: u64, oldPrice: u16, newPrice: u16)
    requires NextVAcc(p, v, oldPrice, newPrice).Ok?
    ensures IsAccumulator(p, v, oldPrice, newPrice, NextVAcc(p, v, oldPrice, newPrice).value)
  {
  }

  /** Under any volatility the fee is above its base, or at its cap: it never rounds away. */
  lemma FeeNeverRoundsAway(p: FeeParams, v: u64)
    requires ValidParams(p) && v > 0 && FeeFromVRef(p, v).Ok?
    ensures FeeFromVRef(p, v).value > p.baseFeeBps || FeeFromVRef(p, v).value == p.maxFeeBps
  {
    MulMono(1, v, v);
    MulMono(1, v * v, p.vfcNum);
    DivAtLeast(FeeNum(p, v) + (FEE_DENOM - 1), FEE_DENOM, 1);
  }

  lemma FeeIsMonotone(p: FeeParams, v: u64, w: u64)
    requires ValidParams(p) && v <= w && FeeFromVRef(p, w).Ok?
    ensures FeeFromVRef(p, v).Ok? && FeeFromVRef(p, v).value <= FeeFromVRef(p, w).value
  {
    hide FeeNum;
    FeeNumMonotone(p, v, w);
    FeeSucceedsExactlyWhen(p, v);
    FeeSucceedsExactlyWhen(p, w);
    DivMono(FeeNum(p, v) + (FEE_DENOM - 1), FeeNum(p, w) + (FEE_DENOM - 1), FEE_DENOM);
    DivAtLeast(FeeNum(p, w) + (FEE_DENOM - 1), FEE_DENOM, 0);
  }

  lemma ReducedAtMost(v: u64, reduction: u16)
    requires reduction <= REDUCTION_DENOM
    ensures Reduced(v, reduction) == v * reduction / REDUCTION_DENOM <= v
  {
    MulMono(reduction, REDUCTION_DENOM, v);
    MulMono(0, v, reduction);
    DivAtMost(v * reduction, REDUCTION_DENOM, v);
    DivAtLeast(v * reduction, REDUCTION_DENOM, 0);
  }

  /** Waiting longer never raises the reference volatility. */
  lemma DecayFallsWithTime(p: FeeParams, s: FeeState, now: i64, later: i64)
    requires ValidParams(p) && now <= later && DecayVRef(p, s, now).Ok? && DecayVRef(p, s, later).Ok?
    ensures DecayVRef(p, s, later).value <= DecayVRef(p, s, now).value <= s.vAcc
  {
    hide Reduced;
    ReducedAtMost(s.vAcc, p.reductionBps);
  }

  /** Waiting longer never raises the fee, and never turns a fee into an error but for the clock's
      own overflow. */
  lemma WaitingNeverCostsMore(p: FeeParams, s: FeeState, now: i64, later: i64)
    requires ValidParams(p) && now <= later && later - s.lastTs < TWO63 && ComputeFee(p, s, now).Ok?
    ensures ComputeFee(p, s, later).Ok? && ComputeFee(p, s, later).value.0 <= ComputeFee(p, s, now).value.0
  {
    hide FeeFromVRef;
    assert DecayVRef(p, s, later).Ok?;
    DecayFallsWithTime(p, s, now, later);
    FeeIsMonotone(p, DecayVRef(p, s, later).value, DecayVRef(p, s, now).value);
  }

  // ---------------------------------------------------------------- whole runs

  datatype Trade = Trade(now: i64, newPriceBps: u16)

  /** What a trade does to the fee state: charge, then arm the accumulator. */
  function TradeStep(p: FeeParams, s: FeeState, t: Trade): (r: Result<(u16, FeeState)>) {
    var fee :- ComputeFee(p, s, t.now);
    var v :- NextVAcc(p, fee.1, s.lastPriceBps, t.newPriceBps);
    Ok((fee.0, FeeState(t.newPriceBps, t.now, v)))
  }

  /** A run of trades: the fees charged and the last state, or the first error. */
  function Run(p: FeeParams, s: FeeState, ts: seq<Trade>): (r: Result<(seq<u16>, FeeState)>)
    decreases ts
  {
    if ts == [] then Ok(([], s))
    else
      var first :- TradeStep(p, s, ts[0]);
      var rest :- Run(p, first.1, ts[1..]);
      Ok(([first.0] + rest.0, rest.1))
  }

  lemma TradeStepKeeps(p: FeeParams, s: FeeState, t: Trade)
    requires ValidParams(p) && TradeStep(p, s, t).Ok?
    ensures TradeStep(p, s, t).value.1.vAcc <= p.maxVAcc
    ensures p.baseFeeBps <= TradeStep(p, s, t).value.0 <= p.maxFeeBps
  {
    hide FeeFromVRef;
    FeeSucceedsExactlyWhen(p, DecayVRef(p, s, t.now).value);
  }

  /** Every fee a run charges is inside the configured band, and the accumulator keeps its cap. */
  lemma {:induction false} RunStaysInBand(p: FeeParams, s: FeeState, ts: seq<Trade>)
    requires ValidParams(p) && s.vAcc <= p.maxVAcc && Run(p, s, ts).Ok?
    ensures Run(p, s, ts).value.1.vAcc <= p.maxVAcc && |Run(p, s, ts).value.0| == |ts|
    ensures forall i :: 0 <= i < |ts| ==> p.baseFeeBps <= Run(p, s, ts).value.0[i] <= p.maxFeeBps
    decreases ts
  {
    hide TradeStep;
    if ts != [] {
      TradeStepKeeps(p, s, ts[0]);
      RunStaysInBand(p, TradeStep(p, s, ts[0]).value.1, ts[1..]);
    }
  }

  /** The clock never goes back and never jumps by 2^63 seconds. */
  predicate Ordered(from: i64, ts: seq<Trade>)
    decreases ts
  {
    ts == [] || (from <= ts[0].now < from + TWO63 && Ordered(ts[0].now, ts[1..]))
  }

  /** Prices are parts of ten thousand. */
  predicate Priced(ts: seq<Trade>) {
    forall i :: 0 <= i < |ts| ==> ts[i].newPriceBps <= BPS_DENOM
  }

  /** The most one trade's price move adds to the accumulator. */
  const MAX_CONTRIBUTION: int := BPS_DENOM * SCALE

  /** How much of the accumulator a trade right after the last one is charged under. */
  function KeptBps(p: FeeParams): (r: nat)
    requires ValidParams(p)
    ensures r <= REDUCTION_DENOM
  {
    if p.filterPeriod > 0 then REDUCTION_DENOM else if p.decayPeriod > 0 then p.reductionBps else 0
  }

  function KeptOf(p: FeeParams, v: nat): (r: nat)
    requires ValidParams(p)
    ensures r <= v
  {
    MulMono(KeptBps(p), REDUCTION_DENOM, v);
    MulMono(0, KeptBps(p), v);
    DivAtMost(v * KeptBps(p), REDUCTION_DENOM, v);
    DivAtLeast(v * KeptBps(p), REDUCTION_DENOM, 0);
    v * KeptBps(p) / REDUCTION_DENOM
  }

  /** Where growth and decay meet: the accumulator never passes it, whatever the trades. */
  function PeakAcc(p: FeeParams): (v: u64)
    requires ValidParams(p)
    ensures v <= p.maxVAcc
  {
    if KeptBps(p) == REDUCTION_DENOM then p.maxVAcc
    else
      DivAtLeast((MAX_CONTRIBUTION - 1) * REDUCTION_DENOM, REDUCTION_DENOM - KeptBps(p), 0);
      Min(p.maxVAcc, (MAX_CONTRIBUTION - 1) * REDUCTION_DENOM / (REDUCTION_DENOM - KeptBps(p)) + 1)
  }

  /** What an administrator can check before creating the configuration: at the peak the fee's numerator
      fits 128 bits, and one more price move fits 64. */
  predicate RunsFit(p: FeeParams)
    requires ValidParams(p)
  {
    FitsAt(p, KeptOf(p, PeakAcc(p))) && KeptOf(p, PeakAcc(p)) + MAX_CONTRIBUTION < TWO64
  }

  lemma KeptMonotone(p: FeeParams, v: nat, w: nat)
    requires ValidParams(p) && v <= w
    ensures KeptOf(p, v) <= KeptOf(p, w)
  {
    MulMono(v, w, KeptBps(p));
    DivMono(v * KeptBps(p), w * KeptBps(p), REDUCTION_DENOM);
  }

  /** Below the peak a largest price move always raises the accumulator; at the peak it adds nothing. */
  lemma PeakIsWhereGrowthEnds(p: FeeParams, v: nat)
    requires ValidParams(p) && v <= PeakAcc(p)
    ensures v < PeakAcc(p) ==> v < Min(KeptOf(p, v) + MAX_CONTRIBUTION, p.maxVAcc)
    ensures Min(KeptOf(p, v) + MAX_CONTRIBUTION, p.maxVAcc) <= PeakAcc(p)
  {
    if KeptBps(p) < REDUCTION_DENOM {
      var lost := REDUCTION_DENOM - KeptBps(p);
      GrowthEndsAt(v, lost, (MAX_CONTRIBUTION - 1) * REDUCTION_DENOM / lost + 1);
    }
  }

  lemma GrowthEndsAt(v: nat, lost: nat, end: nat)
    requires 0 < lost <= REDUCTION_DENOM && end == (MAX_CONTRIBUTION - 1) * REDUCTION_DENOM / lost + 1 && v <= end
    ensures v < end ==> v < v * (REDUCTION_DENOM - lost) / REDUCTION_DENOM + MAX_CONTRIBUTION
    ensures v * (REDUCTION_DENOM - lost) / REDUCTION_DENOM + MAX_CONTRIBUTION <= end
  {
    var kept := REDUCTION_DENOM - lost;
    DivBounds((MAX_CONTRIBUTION - 1) * REDUCTION_DENOM, lost);
    assert forall x: int :: x * kept == x * REDUCTION_DENOM - x * lost;
    if v < end {
      MulMono(v, end - 1, lost);
      DivAtLeast(v * kept, REDUCTION_DENOM, v - MAX_CONTRIBUTION + 1);
    }
    MulMono(v, end, kept);
    DivAtMost(v * kept, REDUCTION_DENOM, end - MAX_CONTRIBUTION);
  }

  /** A trade at the same second as the last one. */
  lemma ImmediateTrade(p: FeeParams, s: FeeState, t: Trade)
    requires ValidParams(p) && t.now == s.lastTs
    ensures var v := KeptOf(p, s.vAcc); var move := Distance(s.lastPriceBps, t.newPriceBps) * SCALE;
      && DecayVRef(p, s, t.now) == Ok(v)
      && (TradeStep(p, s, t).Ok? <==> FitsAt(p, v) && v + move < TWO64)
      && (TradeStep(p, s, t).Ok? ==> TradeStep(p, s, t).value.1 == FeeState(t.newPriceBps, t.now, Min(v + move, p.maxVAcc)))
  {
    hide FeeNum, FeeFromVRef, Reduced;
    ReducedAtMost(s.vAcc, p.reductionBps);
    FeeSucceedsExactlyWhen(p, KeptOf(p, s.vAcc));
  }

  function Distance(a: u16, b: u16): u16 {
    if a >= b then a - b else b - a
  }

  /** A trade at any time, from an accumulator not above the peak. */
  lemma TradeSucceeds(p: FeeParams, s: FeeState, t: Trade)
    requires ValidParams(p) && RunsFit(p) && s.vAcc <= PeakAcc(p) && s.lastPriceBps <= BPS_DENOM
    requires s.lastTs <= t.now < s.lastTs + TWO63 && t.newPriceBps <= BPS_DENOM
    ensures TradeStep(p, s, t).Ok?
  {
    hide FeeNum, FeeFromVRef, KeptOf, PeakAcc;
    var v := DecayVRef(p, s, t.now).value;
    ChargedAtMostKept(p, s, t.now);
    KeptMonotone(p, s.vAcc, PeakAcc(p));
    FeeNumMonotone(p, v, KeptOf(p, PeakAcc(p)));
    FeeSucceedsExactlyWhen(p, v);
  }

  lemma ChargedAtMostKept(p: FeeParams, s: FeeState, now: i64)
    requires ValidParams(p) && DecayVRef(p, s, now).Ok?
    ensures DecayVRef(p, s, now).value <= KeptOf(p, s.vAcc)
  {
    hide DecayVRef;
    ImmediateTrade(p, s, Trade(s.lastTs, 0));
    assert s.lastTs <= now by { ClockIsOrdered(p, s, now); }
    DecayFallsWithTime(p, s, s.lastTs, now);
  }

  lemma ClockIsOrdered(p: FeeParams, s: FeeState, now: i64)
    requires DecayVRef(p, s, now).Ok?
    ensures s.lastTs <= now
  {
  }

  /** No trade takes the accumulator past its peak. */
  lemma TradeKeepsPeak(p: FeeParams, s: FeeState, t: Trade)
    requires ValidParams(p) && s.vAcc <= PeakAcc(p) && s.lastPriceBps <= BPS_DENOM
    requires t.newPriceBps <= BPS_DENOM && TradeStep(p, s, t).Ok?
    ensures var s' := TradeStep(p, s, t).value.1;
      s'.lastTs == t.now && s'.vAcc <= PeakAcc(p) && s'.lastPriceBps <= BPS_DENOM
  {
    hide DecayVRef, FeeFromVRef, KeptOf, PeakAcc;
    ChargedAtMostKept(p, s, t.now);
    PeakIsWhereGrowthEnds(p, s.vAcc);
  }

  lemma {:induction false} RunNeverFails(p: FeeParams, s: FeeState, ts: seq<Trade>)
    requires ValidParams(p) && RunsFit(p) && s.vAcc <= PeakAcc(p) && s.lastPriceBps <= BPS_DENOM
    requires Ordered(s.lastTs, ts) && Priced(ts)
    ensures Run(p, s, ts).Ok? && Run(p, s, ts).value.1.vAcc <= PeakAcc(p)
    decreases ts
  {
    hide TradeStep, RunsFit, PeakAcc;
    if ts != [] {
      TradeSucceeds(p, s, ts[0]);
      TradeKeepsPeak(p, s, ts[0]);
      RunNeverFails(p, TradeStep(p, s, ts[0]).value.1, ts[1..]);
    }
  }

  /** Swinging the price from end to end drives the accumulator to its peak, and past what fits. */
  lemma {:induction false} SwingsFail(p: FeeParams, s: FeeState) returns (ts: seq<Trade>)
    requires ValidParams(p) && !RunsFit(p) && s.vAcc <= PeakAcc(p) && (s.lastPriceBps == 0 || s.lastPriceBps == BPS_DENOM)
    ensures Ordered(s.lastTs, ts) && Priced(ts) && Run(p, s, ts).Err?
    decreases PeakAcc(p) - s.vAcc
  {
    hide TradeStep, KeptOf, PeakAcc, FitsAt;
    var swing := Trade(s.lastTs, BPS_DENOM - s.lastPriceBps);
    ImmediateTrade(p, s, swing);
    PeakIsWhereGrowthEnds(p, s.vAcc);
    ts := [swing];
    if TradeStep(p, s, swing).Ok? {
      var rest := SwingsFail(p, TradeStep(p, s, swing).value.1);
      ts := [swing] + rest;
      assert ts[1..] == rest;
    }
  }

  /** Whatever the opening price, over every run of trades in clock order: no trade ever fails exactly when
      the peak fits. */
  lemma RunsNeverFailExactlyWhen(p: FeeParams, s: FeeState)
    requires ValidParams(p) && s.vAcc == 0 && s.lastPriceBps <= BPS_DENOM
    ensures RunsFit(p) <==> forall ts :: Ordered(s.lastTs, ts) && Priced(ts) ==> Run(p, s, ts).Ok?
  {
    hide RunsFit, PeakAcc, TradeStep;
    if RunsFit(p) {
      forall ts | Ordered(s.lastTs, ts) && Priced(ts) ensures Run(p, s, ts).Ok? {
        RunNeverFails(p, s, ts);
      }
    } else {
      var ts := FailingRun(p, s);
    }
  }

  /** From the fee state a market opens with: a run that fails, whenever the peak does not fit. */
  lemma FailingRun(p: FeeParams, s: FeeState) returns (ts: seq<Trade>)
    requires ValidParams(p) && !RunsFit(p) && s.vAcc == 0 && s.lastPriceBps <= BPS_DENOM
    ensures Ordered(s.lastTs, ts) && Priced(ts) && Run(p, s, ts).Err?
  {
    hide RunsFit, TradeStep, PeakAcc, KeptOf;
    var first := Trade(s.lastTs, 0);
    ts := [first];
    if TradeStep(p, s, first).Ok? {
      ImmediateTrade(p, s, first);
      PeakIsWhereGrowthEnds(p, 0);
      var rest := SwingsFail(p, TradeStep(p, s, first).value.1);
      ts := [first] + rest;
      assert ts[1..] == rest;
    }
  }

  /** The checks of `create_market_config` are not enough: under this valid configuration a run of trades
      from the opening state fails. */
  lemma ValidParamsCanOverflow(p: FeeParams, s: FeeState) returns (ts: seq<Trade>)
    requires p == FeeParams(30, 500, 0xFFFF_FFFF, 10, 60, 5_000, 0x8000_0000_0000_0000)
    requires s.vAcc == 0 && s.lastPriceBps <= BPS_DENOM
    ensures ValidParams(p) && Ordered(s.lastTs, ts) && Priced(ts) && Run(p, s, ts).Err?
  {
    assert !FitsAt(p, p.maxVAcc);
    ts := FailingRun(p, s);
  }

  /** The failure heals by itself: after the decay period the fee is the base fee. */
  lemma StaleFeeIsBase(p: FeeParams, s: FeeState, now: i64)
    requires ValidParams(p) && s.lastTs + p.decayPeriod <= now < s.lastTs + TWO63
    ensures ComputeFee(p, s, now) == Ok((p.baseFeeBps, 0))
  {
    assert FeeNum(p, 0) == 0;
  }
}
