/** The leverage handlers in the program's own form: they write the pool, the position and the LP account in
    place, stop at the first failed check, and are proved equal to the steps of `Pool`.
    */
module PoolProgram {
  import opened Machine
  import opened Funding
  import opened Sums
  import opened Pool
  import Spot

  class LeverageAccounts {
    // LeveragePool
    var totalShares: u64
    var pendingWithdrawShares: u64
    var openInterest: u64
    var totalMaxPayout: u64
    var markBps: Marks
    var markTs: i64
    var lastFundingTs: i64
    var cumFundingIndex: Indexes
    var valvePausedUntil: i64
    var valveMultiplierBps: u16
    var valveUntilTs: i64
    // lev vault, traders' token accounts, positions, LP accounts
    var vault: u64
    var wallets: map<Owner, u64>
    var positions: map<Owner, LevPosition>
    var lps: map<Owner, LpAccount>
    // market and config accounts
    var market: MarketView
    var params: LeverageParams

    function Record(): PoolRecord
      reads this
    {
      PoolRecord(totalShares, pendingWithdrawShares, openInterest, totalMaxPayout, markBps, markTs, lastFundingTs,
        cumFundingIndex, valvePausedUntil, valveMultiplierBps, valveUntilTs)
    }

    function Accounts(): LevWorld
      reads this
    {
      LevWorld(Record(), vault, wallets, positions, lps, params, market)
    }

    /** `init_leverage_pool`. */
    constructor (p: LeverageParams, m: MarketView, traders: map<Owner, u64>)
      requires p.maxLeverage > 0
      ensures InitPool(p, m, traders) == Ok(Accounts())
    {
      totalShares, pendingWithdrawShares, openInterest, totalMaxPayout := 0, 0, 0, 0;
      markBps, markTs, lastFundingTs, cumFundingIndex := [0, 0, 0], 0, 0, [0, 0, 0];
      valvePausedUntil, valveMultiplierBps, valveUntilTs := 0, BPS_DENOM, 0;
      vault, wallets, positions, lps := 0, traders, map[], map[];
      market, params := m, p;
    }

    // ------------------------------------------------------------- transfers

    method TransferIn(owner: Owner, amount: u64) returns (r: Result<()>)
      requires owner in wallets
      modifies this`wallets, this`vault
      ensures r.Ok? ==> Deposit(old(Accounts()), owner, amount) == Ok(Accounts())
      ensures r.Err? ==> Deposit(old(Accounts()), owner, amount) == Err(r.error)
    {
      if wallets[owner] < amount || vault + amount >= TWO64 {
        return Err(TransferFailed);
      }
      wallets := wallets[owner := wallets[owner] - amount];
      vault := vault + amount;
      return Ok(());
    }

    method TransferOut(owner: Owner, amount: u64) returns (r: Result<()>)
      requires owner in wallets
      modifies this`wallets, this`vault
      ensures r.Ok? ==> PayOut(old(Accounts()), owner, amount) == Ok(Accounts())
      ensures r.Err? ==> PayOut(old(Accounts()), owner, amount) == Err(r.error)
    {
      if vault < amount || wallets[owner] + amount >= TWO64 {
        return Err(TransferFailed);
      }
      wallets := wallets[owner := wallets[owner] + amount];
      vault := vault - amount;
      return Ok(());
    }

    // ------------------------------------------------------------- positions

    method OpenLeverage(owner: Owner, outcome: u8, collateral: u64, leverage: u16, now: i64) returns (r: Result<()>)
      modifies this`wallets, this`vault, this`positions, this`openInterest, this`totalMaxPayout
      ensures r.Ok? ==> DoOpen(old(Accounts()), owner, outcome, collateral, leverage, now) == Ok(Accounts())
      ensures r.Err? ==> DoOpen(old(Accounts()), owner, outcome, collateral, leverage, now) == Err(r.error)
    {
      hide UnitsFor, MaxGain, MaxLeverageForP, CoverageOk, OpenGuards;
      if owner in positions {
        return Err(AccountExists);
      }
      if owner !in wallets {
        return Err(AccountMissing);
      }
      var _ :- OpenGuards(Accounts(), outcome, collateral, leverage, now);
      var entry := markBps[outcome];
      var units :- Mapped(UnitsFor(collateral, leverage, entry));
      MulMono(0, collateral, leverage);
      if collateral * leverage >= TWO64 {
        return Err(MathOverflow);
      }
      var notional: u64 := collateral * leverage;
      var maxGain :- Mapped(MaxGain(units, entry));
      if openInterest + notional >= TWO64 {
        return Err(MathOverflow);
      }
      var newOpenInterest: u64 := openInterest + notional;
      if newOpenInterest > params.maxOpenInterest {
        return Err(OpenInterestExceeded);
      }
      var covered := CoverageOk(vault, params.minCoverageBps, totalMaxPayout, maxGain);
      if !covered {
        return Err(CoverageBreached);
      }
      var _ :- TransferIn(owner, collateral);
      positions := positions[owner :=
        LevPosition(outcome, leverage, collateral, notional, units, entry, cumFundingIndex[outcome], now, false)];
      openInterest := newOpenInterest;
      if totalMaxPayout + maxGain >= TWO64 {
        return Err(MathOverflow);
      }
      totalMaxPayout := totalMaxPayout + maxGain;
      return Ok(());
    }

    /** The tail both settlements share: flag, shrink the books, pay, close the account. */
    method Settle(owner: Owner, payout: u64) returns (r: Result<()>)
      requires owner in positions && owner in wallets
      modifies this`wallets, this`vault, this`positions, this`openInterest, this`totalMaxPayout
      ensures r.Ok? ==> Release(old(Accounts()), owner, payout) == Ok(Accounts())
      ensures r.Err? ==> Release(old(Accounts()), owner, payout) == Err(r.error)
    {
      hide MaxGain;
      var position := positions[owner].(settled := true);
      positions := positions[owner := position];
      var maxGain :- Mapped(MaxGain(position.units, position.entryMarkBps));
      openInterest := SatSub(openInterest, position.notional);
      totalMaxPayout := SatSub(totalMaxPayout, maxGain);
      if payout > 0 {
        var _ :- TransferOut(owner, payout);
      }
      positions := positions - {owner};
      assert positions == old(positions) - {owner};
      return Ok(());
    }

    method CloseLeverage(owner: Owner, now: i64) returns (r: Result<()>)
      modifies this`wallets, this`vault, this`positions, this`openInterest, this`totalMaxPayout
      ensures r.Ok? ==> DoClose(old(Accounts()), owner, now) == Ok(Accounts())
      ensures r.Err? ==> DoClose(old(Accounts()), owner, now) == Err(r.error)
    {
      hide ComputeSettlement, Release;
      if owner !in positions || owner !in wallets || positions[owner].outcomeIdx >= 3 {
        return Err(AccountMissing);
      }
      var settlement :- ComputeSettlement(Accounts(), positions[owner], now, false);
      r := Settle(owner, settlement.payout);
    }

    method ExpirePosition(owner: Owner, now: i64) returns (r: Result<()>)
      modifies this`wallets, this`vault, this`positions, this`openInterest, this`totalMaxPayout
      ensures r.Ok? ==> DoExpire(old(Accounts()), owner, now) == Ok(Accounts())
      ensures r.Err? ==> DoExpire(old(Accounts()), owner, now) == Err(r.error)
    {
      hide ComputeSettlement, Release;
      if owner !in positions || owner !in wallets || positions[owner].outcomeIdx >= 3 {
        return Err(AccountMissing);
      }
      var settlement :- ComputeSettlement(Accounts(), positions[owner], now, true);
      if settlement.funding < positions[owner].collateral {
        return Err(PositionNotExpired);
      }
      r := Settle(owner, settlement.payout);
    }

    // ----------------------------------------------------------------- marks

    method PostMark(marks: Marks, now: i64) returns (r: Result<()>)
      modifies this`cumFundingIndex, this`markBps, this`markTs, this`lastFundingTs
      ensures r.Ok? ==> DoPostMark(old(Accounts()), marks, now) == Ok(Accounts())
      ensures r.Err? ==> DoPostMark(old(Accounts()), marks, now) == Err(r.error)
    {
      hide Accrued;
      for i := 0 to 3
        invariant forall k :: 0 <= k < i ==> 1 <= marks[k] < BPS_DENOM
      {
        if !(marks[i] >= 1 && marks[i] < BPS_DENOM) {
          return Err(MarkOutOfRange);
        }
      }
      if markTs > 0 {
        if now < lastFundingTs {
          return Err(MonotonicClock);
        }
        var _ :- Accrue(now);
        assert cumFundingIndex == [cumFundingIndex[0], cumFundingIndex[1], cumFundingIndex[2]];
      }
      markBps := marks;
      markTs := now;
      lastFundingTs := now;
      return Ok(());
    }

    /** The loop over outcomes, at the previous marks. */
    method Accrue(now: i64) returns (r: Result<()>)
      requires now >= lastFundingTs
      modifies this`cumFundingIndex
      ensures r.Ok? ==> forall i :: 0 <= i < 3 ==> Accrued(old(Accounts()), i, now) == Ok(cumFundingIndex[i])
      ensures r.Err? ==> exists i :: 0 <= i < 3 && Accrued(old(Accounts()), i, now) == Err(r.error)
                                     && forall k :: 0 <= k < i ==> Accrued(old(Accounts()), k, now).Ok?
    {
      hide IdxDelta;
      for i := 0 to 3
        invariant forall k :: 0 <= k < i ==> Accrued(old(Accounts()), k, now) == Ok(cumFundingIndex[k])
        invariant forall k :: i <= k < 3 ==> cumFundingIndex[k] == old(cumFundingIndex)[k]
      {
        ghost var step := Accrued(old(Accounts()), i, now);
        if now - lastFundingTs >= TWO63 {
          return Err(MathOverflow);
        }
        var elapsed: i64 := now - lastFundingTs;
        var tRemaining := SaturatingSub(market.freezeTs, now);
        var multiplier: u16 := if now < valveUntilTs then valveMultiplierBps else BPS_DENOM;
        var delta :- Mapped(IdxDelta(params.timeFeeNum, markBps[i], elapsed, tRemaining, multiplier));
        if cumFundingIndex[i] + delta >= TWO128 {
          return Err(MathOverflow);
        }
        cumFundingIndex := cumFundingIndex[i := cumFundingIndex[i] + delta];
      }
      return Ok(());
    }

    method SetRiskValve(pauseSecs: i64, multiplierBps: u16, windowSecs: i64, now: i64) returns (r: Result<()>)
      modifies this`valvePausedUntil, this`valveMultiplierBps, this`valveUntilTs
      ensures r.Ok? ==> DoSetValve(old(Accounts()), pauseSecs, multiplierBps, windowSecs, now) == Ok(Accounts())
      ensures r.Err? ==> DoSetValve(old(Accounts()), pauseSecs, multiplierBps, windowSecs, now) == Err(r.error)
    {
      if !(multiplierBps <= VALVE_MAX_MULTIPLIER_BPS && multiplierBps >= BPS_DENOM
           && 0 <= pauseSecs <= VALVE_MAX_DURATION_SECS && 0 <= windowSecs <= VALVE_MAX_DURATION_SECS) {
        return Err(ValveOutOfBounds);
      }
      if now + pauseSecs >= TWO63 || now + windowSecs >= TWO63 {
        return Err(MathOverflow);
      }
      valvePausedUntil := now + pauseSecs;
      valveMultiplierBps := multiplierBps;
      valveUntilTs := now + windowSecs;
      return Ok(());
    }

    // -------------------------------------------------------------------- LP

    method OpenLpAccount(owner: Owner) returns (r: Result<()>)
      modifies this`lps
      ensures r.Ok? ==> DoOpenLp(old(Accounts()), owner) == Ok(Accounts())
      ensures r.Err? ==> DoOpenLp(old(Accounts()), owner) == Err(r.error)
    {
      if owner in lps {
        return Err(AccountExists);
      }
      lps := lps[owner := LpAccount(0, 0, 0)];
      return Ok(());
    }

    method DepositLp(owner: Owner, amount: u64) returns (r: Result<()>)
      modifies this`wallets, this`vault, this`totalShares, this`lps
      ensures r.Ok? ==> DoDeposit(old(Accounts()), owner, amount) == Ok(Accounts())
      ensures r.Err? ==> DoDeposit(old(Accounts()), owner, amount) == Err(r.error)
    {
      hide SharesForDeposit;
      if owner !in lps || owner !in wallets {
        return Err(AccountMissing);
      }
      if amount == 0 {
        return Err(ZeroAmount);
      }
      var shares :- Mapped(SharesForDeposit(amount, totalShares, vault));
      if shares == 0 {
        return Err(InsufficientShares);
      }
      var _ :- TransferIn(owner, amount);
      if totalShares + shares >= TWO64 {
        return Err(MathOverflow);
      }
      totalShares := totalShares + shares;
      var lp := lps[owner];
      if lp.shares + shares >= TWO64 {
        return Err(MathOverflow);
      }
      lps := lps[owner := lp.(shares := lp.shares + shares)];
      return Ok(());
    }

    method RequestWithdraw(owner: Owner, shares: u64, now: i64) returns (r: Result<()>)
      modifies this`lps, this`pendingWithdrawShares
      ensures r.Ok? ==> DoRequest(old(Accounts()), owner, shares, now) == Ok(Accounts())
      ensures r.Err? ==> DoRequest(old(Accounts()), owner, shares, now) == Err(r.error)
    {
      hide ValueForShares, CoverageOk;
      if owner !in lps {
        return Err(AccountMissing);
      }
      if shares == 0 {
        return Err(ZeroAmount);
      }
      var lp := lps[owner];
      if lp.shares < lp.pendingShares {
        return Err(MathOverflow);
      }
      var free := lp.shares - lp.pendingShares;
      if shares > free {
        return Err(InsufficientShares);
      }
      var value :- Mapped(ValueForShares(shares, totalShares, vault));
      if vault < value {
        return Err(MathOverflow);
      }
      var remaining: u64 := vault - value;
      var covered := CoverageOk(remaining, params.minCoverageBps, totalMaxPayout, 0);
      if !covered {
        return Err(CoverageBreached);
      }
      if now + LP_WITHDRAW_DELAY_SECS >= TWO63 {
        return Err(MathOverflow);
      }
      if lp.pendingShares + shares >= TWO64 {
        return Err(MathOverflow);
      }
      lp := lp.(pendingShares := lp.pendingShares + shares);
      lp := lp.(unlockTs := now + LP_WITHDRAW_DELAY_SECS);
      lps := lps[owner := lp];
      if pendingWithdrawShares + shares >= TWO64 {
        return Err(MathOverflow);
      }
      pendingWithdrawShares := pendingWithdrawShares + shares;
      return Ok(());
    }

    method WithdrawLp(owner: Owner, now: i64) returns (r: Result<()>)
      modifies this`wallets, this`vault, this`totalShares, this`pendingWithdrawShares, this`lps
      ensures r.Ok? ==> DoWithdraw(old(Accounts()), owner, now) == Ok(Accounts())
      ensures r.Err? ==> DoWithdraw(old(Accounts()), owner, now) == Err(r.error)
    {
      hide ValueForShares;
      if owner !in lps || owner !in wallets {
        return Err(AccountMissing);
      }
      var pending := lps[owner].pendingShares;
      if pending == 0 {
        return Err(NothingPending);
      }
      if now < lps[owner].unlockTs {
        return Err(WithdrawLocked);
      }
      var value :- Mapped(ValueForShares(pending, totalShares, vault));
      if totalShares < pending {
        return Err(MathOverflow);
      }
      totalShares := totalShares - pending;
      if pendingWithdrawShares < pending {
        return Err(MathOverflow);
      }
      pendingWithdrawShares := pendingWithdrawShares - pending;
      var lp := lps[owner];
      if lp.shares < pending {
        return Err(MathOverflow);
      }
      lps := lps[owner := lp.(shares := lp.shares - pending, pendingShares := 0)];
      if value > 0 {
        r := TransferOut(owner, value);
      } else {
        r := Ok(());
      }
    }

    method UpdateLeverageParams(p: LeverageParams) returns (r: Result<()>)
      modifies this`params
      ensures r.Ok? ==> DoUpdateParams(old(Accounts()), p) == Ok(Accounts())
      ensures r.Err? ==> DoUpdateParams(old(Accounts()), p) == Err(r.error)
    {
      if !ValidLeverageParams(p) {
        return Err(InvalidFeeParams);
      }
      params := p;
      return Ok(());
    }

    // --------------------------------------------------------------- runtime

    method RestoreLp(p: PoolRecord)
      modifies this`totalShares, this`pendingWithdrawShares, this`openInterest, this`totalMaxPayout
      ensures totalShares == p.totalShares && pendingWithdrawShares == p.pendingWithdrawShares
      ensures openInterest == p.openInterest && totalMaxPayout == p.totalMaxPayout
    {
      totalShares, pendingWithdrawShares := p.totalShares, p.pendingWithdrawShares;
      openInterest, totalMaxPayout := p.openInterest, p.totalMaxPayout;
    }

    method RestoreMarks(p: PoolRecord)
      modifies this`markBps, this`markTs, this`lastFundingTs, this`cumFundingIndex
      modifies this`valvePausedUntil, this`valveMultiplierBps, this`valveUntilTs
      ensures markBps == p.markBps && markTs == p.markTs && lastFundingTs == p.lastFundingTs
      ensures cumFundingIndex == p.cumFundingIndex && valvePausedUntil == p.valvePausedUntil
      ensures valveMultiplierBps == p.valveMultiplierBps && valveUntilTs == p.valveUntilTs
    {
      markBps, markTs, lastFundingTs := p.markBps, p.markTs, p.lastFundingTs;
      cumFundingIndex, valvePausedUntil := p.cumFundingIndex, p.valvePausedUntil;
      valveMultiplierBps, valveUntilTs := p.valveMultiplierBps, p.valveUntilTs;
    }

    /** Writes a world back. */
    method Restore(w: LevWorld)
      modifies this
      ensures Accounts() == w
    {
      RestoreLp(w.pool);
      RestoreMarks(w.pool);
      vault, wallets, positions, lps := w.vault, w.wallets, w.positions, w.lps;
      market, params := w.market, w.params;
    }

    method Dispatch(a: LevAction) returns (r: Result<()>)
      modifies this
      ensures r.Ok? ==> Step(old(Accounts()), a) == Ok(Accounts())
      ensures r.Err? ==> Step(old(Accounts()), a) == Err(r.error)
    {
      hide DoOpen, DoClose, DoExpire, DoPostMark, DoSetValve, DoOpenLp, DoDeposit, DoRequest, DoWithdraw, DoUpdateParams;
      match a
      case OpenLeverage(owner, outcome, collateral, leverage, now) => r := OpenLeverage(owner, outcome, collateral, leverage, now);
      case CloseLeverage(owner, now) => r := CloseLeverage(owner, now);
      case ExpirePosition(owner, now) => r := ExpirePosition(owner, now);
      case PostMark(marks, now) => r := PostMark(marks, now);
      case SetRiskValve(pause, multiplier, window, now) => r := SetRiskValve(pause, multiplier, window, now);
      case OpenLpAccount(owner) => r := OpenLpAccount(owner);
      case DepositLp(owner, amount) => r := DepositLp(owner, amount);
      case RequestWithdraw(owner, shares, now) => r := RequestWithdraw(owner, shares, now);
      case WithdrawLp(owner, now) => r := WithdrawLp(owner, now);
      case UpdateLeverageParams(p) => r := UpdateLeverageParams(p);
      case MarketMoves(m) =>
        market := m;
        r := Ok(());
    }

    /** One transaction: the handler runs in place, and a failure leaves every account as it was. */
    method Process(a: LevAction) returns (r: Result<()>)
      modifies this
      ensures Accounts() == Apply(old(Accounts()), a)
      ensures r.Ok? <==> Step(old(Accounts()), a).Ok?
    {
      hide Step;
      var before := Accounts();
      r := Dispatch(a);
      if r.Err? {
        Restore(before);
      }
    }
  }
}
