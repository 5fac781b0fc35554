/** The arithmetic of the leverage layer, programs/amm/src/funding.rs: sizing, profit, funding, settlement,
    coverage and LP shares, with every rounding and every overflow of the source.
    */
module Funding {
  import opened Machine

  const INDEX_SCALE: int := 1_000_000_000_000
  const MIN_T_REMAINING_SECS: int := 60
  const TAPER_FULL_EDGE_BPS: int := 2_000
  const VALVE_MAX_MULTIPLIER_BPS: int := 50_000
  const VALVE_MAX_DURATION_SECS: int := 600
  const LP_WITHDRAW_DELAY_SECS: int := 3_600

  datatype Computed<+T> = Done(value: T) | Overflow | Domain {
    predicate IsFailure() {
      !Done?
    }

    function PropagateFailure<U>(): Computed<U>
      requires !Done?
    {
      if Overflow? then Overflow else Domain
    }

    function Extract(): T
      requires Done?
    {
      value
    }
  }

  function ToU64(x: nat): Computed<u64> {
    if x < TWO64 then Done(x) else Overflow
  }

  function ToU128(x: nat): Computed<u128> {
    if x < TWO128 then Done(x) else Overflow
  }

  predicate IsEntryMark(p: u16) {
    1 <= p < BPS_DENOM
  }

  // ------------------------------------------------------------- operations

  /** Rust's `/` on i128, toward zero. */
  function TruncDiv(num: int, den: int): int
    requires den > 0
  {
    if num >= 0 then num / den else -((-num) / den)
  }

  /** The source's floor division, built from the truncating one. */
  function DivFloor(num: int, den: int): (q: int)
    requires den > 0
    ensures q * den <= num < q * den + den
  {
    DivBounds(num, den);
    DivBounds(-num, den);
    var q := TruncDiv(num, den);
    if num - q * den != 0 && num < 0 then q - 1 else q
  }

  function UnitsFor(collateral: u64, leverage: u16, entry: u16): (r: Computed<u64>) {
    if !IsEntryMark(entry) then Domain
    else
      MulMono(0, collateral, leverage);
      var notional :- ToU64(collateral * leverage);
      DivAtLeast(notional * BPS_DENOM, entry, 0);
      ToU64(notional * BPS_DENOM / entry)
  }

  function MaxGain(units: u64, entry: u16): (r: Computed<u64>)
    ensures r.Done? <==> IsEntryMark(entry)
    ensures r.Done? ==> r.value <= units
  {
    if !IsEntryMark(entry) then Domain
    else
      MulMono(BPS_DENOM - entry, BPS_DENOM, units);
      MulMono(0, BPS_DENOM - entry, units);
      DivAtMost(units * (BPS_DENOM - entry), BPS_DENOM, units);
      DivAtLeast(units * (BPS_DENOM - entry), BPS_DENOM, 0);
      Done(units * (BPS_DENOM - entry) / BPS_DENOM)
  }

  /** The exact profit before the cast to i64. */
  function RawPnl(units: u64, entry: u16, mark: u16): int {
    DivFloor(units * (mark - entry), BPS_DENOM)
  }

  function Pnl(units: u64, entry: u16, mark: u16): (r: Computed<i64>) {
    if !IsEntryMark(entry) then Domain
    else if mark > BPS_DENOM then Domain
    else
      var q := RawPnl(units, entry, mark);
      if -TWO63 <= q < TWO63 then Done(q) else Overflow
  }

  function FundingAccrued(notional: u64, idxNow: u128, idxSnap: u128): (r: Computed<u64>) {
    if idxNow < idxSnap then Domain
    else
      MulMono(0, idxNow - idxSnap, notional);
      var product :- ToU128(notional * (idxNow - idxSnap));
      DivAtLeast(product, INDEX_SCALE, 0);
      ToU64(product / INDEX_SCALE)
  }

  /** The numerator of the index advance. */
  function RateNum(timeFeeNum: u32, p: u16, elapsed: nat): (n: nat)
    requires p <= BPS_DENOM
  {
    MulMono(0, timeFeeNum, p);
    MulMono(0, timeFeeNum * p, BPS_DENOM - p);
    MulMono(0, timeFeeNum * p * (BPS_DENOM - p) * INDEX_SCALE, elapsed);
    timeFeeNum * p * (BPS_DENOM - p) * INDEX_SCALE * elapsed
  }

  function RateDen(tRemaining: i64): (d: nat)
    ensures d >= BPS_DENOM * BPS_DENOM * MIN_T_REMAINING_SECS
  {
    BPS_DENOM * BPS_DENOM * Max(tRemaining, MIN_T_REMAINING_SECS)
  }

  function CeilChecked(num: nat, den: nat): (r: Computed<u128>)
    requires den > 0
    ensures r.Done? <==> num + (den - 1) < TWO128
    ensures r.Done? ==> r.value == CeilDiv(num, den)
  {
    if num + (den - 1) >= TWO128 then Overflow
    else
      DivAtLeast(num + (den - 1), den, 0);
      MulMono(1, den, num + den);
      DivAtMost(num + (den - 1), den, num + (den - 1));
      Done((num + (den - 1)) / den)
  }

  function IdxDelta(timeFeeNum: u32, p: u16, elapsed: i64, tRemaining: i64, multiplier: u16): (r: Computed<u128>) {
    if elapsed <= 0 then Done(0)
    else if p > BPS_DENOM then Domain
    else
      var num :- ToU128(RateNum(timeFeeNum, p, elapsed));
      var delta :- CeilChecked(num, RateDen(tRemaining));
      if multiplier > BPS_DENOM then
        MulMono(0, delta, multiplier);
        var scaled :- ToU128(delta * multiplier);
        CeilChecked(scaled, BPS_DENOM)
      else Done(delta)
  }

  function SettlePayout(collateral: u64, pnl: i64, funding: u64): (payout: u64) {
    var equity := collateral + pnl - funding;
    if equity <= 0 then 0 else if equity >= TWO64 then TWO64 - 1 else equity
  }

  function MaxLeverageForP(p: u16, maxLeverage: u16): (cap: u16)
    ensures cap <= Max(maxLeverage, 1)
  {
    var edge := Min(p, SatSub(BPS_DENOM, p));
    if edge >= TAPER_FULL_EDGE_BPS then maxLeverage
    else
      var span := SatSub(maxLeverage, 1);
      MulMono(0, edge, span);
      MulMono(edge, TAPER_FULL_EDGE_BPS, span);
      DivAtMost(span * edge, TAPER_FULL_EDGE_BPS, span);
      DivAtLeast(span * edge, TAPER_FULL_EDGE_BPS, 0);
      1 + span * edge / TAPER_FULL_EDGE_BPS
  }

  /** The widths always hold, so the source's `Result` is always `Ok`. */
  predicate CoverageOk(vault: u64, minCoverageBps: u16, totalMaxPayout: u64, newMaxPayout: u64) {
    vault * BPS_DENOM >= minCoverageBps * (totalMaxPayout + newMaxPayout)
  }

  function SharesForDeposit(amount: u64, totalShares: u64, vault: u64): (r: Computed<u64>) {
    if totalShares == 0 || vault == 0 then Done(amount)
    else
      MulMono(0, totalShares, amount);
      DivAtLeast(amount * totalShares, vault, 0);
      ToU64(amount * totalShares / vault)
  }

  function ValueForShares(shares: u64, totalShares: u64, vault: u64): (r: Computed<u64>) {
    if totalShares == 0 then Domain
    else
      MulMono(0, vault, shares);
      DivAtLeast(shares * vault, totalShares, 0);
      ToU64(shares * vault / totalShares)
  }
}
