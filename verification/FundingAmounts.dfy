/** What each figure of the leverage layer is, in whole units and by its own inequality: which exact quotient it
    rounds, and which way.
    */
module FundingAmounts {
  import opened Machine
  import opened Funding

  // ---------------------------------------------------------------- positions

  /** Units are notional over the entry price, rounded down. */
  lemma UnitsAre(collateral: u64, leverage: u16, entry: u16)
    ensures UnitsFor(collateral, leverage, entry).Done? ==>
      && 0 < entry < 10_000 && collateral * leverage < TWO64
      && IsFloor(UnitsFor(collateral, leverage, entry).value, collateral * leverage * 10_000, entry)
    ensures UnitsFor(collateral, leverage, entry).Done? <==>
      0 < entry < 10_000 && collateral * leverage < TWO64 && collateral * leverage * 10_000 < TWO64 * entry
  {
    MulMono(0, collateral, leverage);
    var num := collateral * leverage * 10_000;
    if 0 < entry < 10_000 {
      FloorIs(num, entry);
      if num < TWO64 * entry { DivAtMost(num, entry, TWO64 - 1); } else { DivAtLeast(num, entry, TWO64); }
    }
  }

  /** The booked gain is what each unit wins from the entry price up to one, rounded down. */
  lemma GainIs(units: u64, entry: u16)
    requires MaxGain(units, entry).Done?
    ensures IsFloor(MaxGain(units, entry).value, units * (10_000 - entry), 10_000)
  {
    FloorIs(units * (BPS_DENOM - entry), BPS_DENOM);
  }

  /** Profit is what the units win or lose on the price move, rounded down, toward the pool. */
  lemma PnlIs(units: u64, entry: u16, mark: u16)
    requires Pnl(units, entry, mark).Done?
    ensures IsFloor(Pnl(units, entry, mark).value, units * (mark - entry), 10_000)
  {
    var q := RawPnl(units, entry, mark);
    assert (q + 1) * BPS_DENOM == q * BPS_DENOM + BPS_DENOM;
  }

  /** Funding is the notional times the index's advance, in units of 10^12, rounded down. */
  lemma FundingIs(notional: u64, idxNow: u128, idxSnap: u128)
    requires FundingAccrued(notional, idxNow, idxSnap).Done?
    ensures idxSnap <= idxNow
    ensures IsFloor(FundingAccrued(notional, idxNow, idxSnap).value, notional * (idxNow - idxSnap), 1_000_000_000_000)
  {
    FloorIs(notional * (idxNow - idxSnap), INDEX_SCALE);
  }

  /** A settlement pays collateral and profit less funding: all of it when that fits, nothing when it is
      negative. */
  predicate IsPayout(payout: int, collateral: int, pnl: int, funding: int) {
    var equity := collateral + pnl - funding;
    && (0 <= equity < TWO64 ==> payout + funding == collateral + pnl)
    && (equity < 0 ==> payout == 0)
    && (equity >= TWO64 ==> payout == TWO64 - 1)
  }

  lemma PayoutIs(collateral: u64, pnl: i64, funding: u64)
    ensures IsPayout(SettlePayout(collateral, pnl, funding), collateral, pnl, funding)
  {
  }

  // ------------------------------------------------------------------ funding

  /** The time a post divides by: what is left to the freeze, a minute at least. */
  function TimeLeft(freezeTs: i64, now: i64): (t: int)
    ensures t >= 60
  {
    var left := if freezeTs - now >= TWO63 then TWO63 - 1 else freezeTs - now;
    if left < 60 then 60 else left
  }

  /** One post's advance of an outcome's index: the rate times p(1 - p) times the time elapsed over the time
      left, rounded up; then times the valve, rounded up again. */
  predicate IsAdvance(rate: u32, p: u16, elapsed: nat, left: nat, valve: u16, neutral: nat, delta: nat) {
    && IsCeil(neutral, rate * p * (10_000 - p) * 1_000_000_000_000 * elapsed, 100_000_000 * left)
    && IsCeil(delta, neutral * valve, 10_000)
  }

  lemma AdvanceIs(rate: u32, p: u16, elapsed: i64, tRem: i64, valve: u16, left: nat) returns (neutral: nat)
    requires p <= BPS_DENOM && elapsed >= 0 && valve >= BPS_DENOM && left == Max(tRem, MIN_T_REMAINING_SECS)
    requires IdxDelta(rate, p, elapsed, tRem, valve).Done?
    ensures IsAdvance(rate, p, elapsed, left, valve, neutral, IdxDelta(rate, p, elapsed, tRem, valve).value)
  {
    var num, den := RateNum(rate, p, elapsed), RateDen(tRem);
    CeilIs(num, den);
    neutral := CeilDiv(num, den);
    assert num == rate * p * (10_000 - p) * 1_000_000_000_000 * elapsed;
    if elapsed == 0 {
      DivUnique(den - 1, den, 0);
      DivUnique(BPS_DENOM - 1, BPS_DENOM, 0);
    }
    MulMono(0, neutral, valve);
    CeilIs(neutral * valve, BPS_DENOM);
    if valve == BPS_DENOM {
      DivUnique(neutral * BPS_DENOM + (BPS_DENOM - 1), BPS_DENOM, neutral);
    }
  }

  // ----------------------------------------------------------------- openings

  /** The taper: the full leverage in the middle, and towards the edges a straight line down to one. */
  lemma LeverageCapIs(p: u16, maxLeverage: u16, leverage: u16)
    requires 2 <= leverage && maxLeverage > 0
    ensures leverage <= MaxLeverageForP(p, maxLeverage) <==>
      var edge: int := if p <= 5_000 then p else 10_000 - p as int;
      if edge >= 2_000 then leverage <= maxLeverage else (leverage - 1) * 2_000 <= (maxLeverage - 1) * edge
  {
    var edge: int := if p <= 5_000 then p else 10_000 - p as int;
    var num := (maxLeverage - 1) * edge;
    if edge < 0 {
      MulMono(edge, 0, maxLeverage - 1);
    } else if edge < TAPER_FULL_EDGE_BPS {
      assert edge == Min(p, SatSub(BPS_DENOM, p));
      MulMono(0, edge, maxLeverage - 1);
      if (leverage - 1) * 2_000 <= num { DivAtLeast(num, 2_000, leverage - 1); }
      else { DivAtMost(num, 2_000, leverage - 2); }
    }
  }

  // ----------------------------------------------------------------------- LP

  /** A deposit is priced on the vault before it: shares are its part of that vault, rounded down; the first
      unit of an empty pool buys one share. */
  predicate AreSharesFor(shares: nat, amount: nat, totalShares: nat, vaultBefore: nat) {
    if totalShares > 0 && vaultBefore > 0 then IsFloor(shares, amount * totalShares, vaultBefore) else shares == amount
  }

  lemma SharesAre(amount: u64, totalShares: u64, vault: u64)
    requires SharesForDeposit(amount, totalShares, vault).Done?
    ensures AreSharesFor(SharesForDeposit(amount, totalShares, vault).value, amount, totalShares, vault)
  {
    if totalShares > 0 && vault > 0 {
      FloorIs(amount * totalShares, vault);
    }
  }

  /** Shares are worth their part of the vault, rounded down. */
  lemma ValueIs(shares: u64, totalShares: u64, vault: u64)
    requires ValueForShares(shares, totalShares, vault).Done?
    ensures totalShares > 0 && IsFloor(ValueForShares(shares, totalShares, vault).value, shares * vault, totalShares)
  {
    FloorIs(shares * vault, totalShares);
  }
}
