/** The leverage pool as a state machine: one step per instruction, with the checks of its handler in
    their order.
    */
module Pool {
  import opened Machine
  import opened Funding
  import opened Sums
  import opened Resolution
  import Spot

  type MarketState = Spot.MarketState

  /** One entry per outcome. */
  type Marks = m: seq<u16> | |m| == 3 witness [0, 0, 0]
  type Indexes = m: seq<u128> | |m| == 3 witness [0, 0, 0]

  datatype LevPosition = LevPosition(
    outcomeIdx: u8, leverage: u16, collateral: u64, notional: u64, units: u64, entryMarkBps: u16,
    fundingIndexSnap: u128, openTs: i64, settled: bool)

  datatype LpAccount = LpAccount(shares: u64, pendingShares: u64, unlockTs: i64)

  datatype PoolRecord = PoolRecord(
    totalShares: u64, pendingWithdrawShares: u64, openInterest: u64, totalMaxPayout: u64,
    markBps: Marks, markTs: i64, lastFundingTs: i64, cumFundingIndex: Indexes,
    valvePausedUntil: i64, valveMultiplierBps: u16, valveUntilTs: i64)

  /** The leverage fields of `MarketConfig`, and what the handlers read of the market. */
  datatype LeverageParams = LeverageParams(
    maxOpenInterest: u64, timeFeeNum: u32, fundingEpochSecs: u32, maxMarkAgeSecs: u32,
    leverageCutoffSecs: u32, maxLeverage: u16, minCoverageBps: u16)

  datatype MarketView = MarketView(state: MarketState, outcome: Outcome, freezeTs: i64)

  datatype LevWorld = LevWorld(
    pool: PoolRecord, vault: u64, wallets: map<Owner, u64>,
    positions: map<Owner, LevPosition>, lps: map<Owner, LpAccount>,
    params: LeverageParams, market: MarketView)

  datatype LevAction =
    | OpenLeverage(owner: Owner, outcome: u8, collateral: u64, leverage: u16, now: i64)
    | CloseLeverage(owner: Owner, now: i64)
    | ExpirePosition(owner: Owner, now: i64)
    | PostMark(marks: Marks, now: i64)
    | SetRiskValve(pauseSecs: i64, multiplierBps: u16, windowSecs: i64, now: i64)
    | OpenLpAccount(owner: Owner)
    | DepositLp(owner: Owner, amount: u64)
    | RequestWithdraw(owner: Owner, shares: u64, now: i64)
    | WithdrawLp(owner: Owner, now: i64)
    | UpdateLeverageParams(params: LeverageParams)
    | MarketMoves(market: MarketView)   // the spot market's own instructions

  /** The handlers map every funding error to `FundingMath`. */
  function Mapped<T>(r: Computed<T>): Result<T> {
    if r.Done? then Ok(r.value) else Err(FundingMath)
  }

  /** `a.saturating_sub(b)` on i64. */
  function SaturatingSub(a: i64, b: i64): i64 {
    if a - b >= TWO63 then TWO63 - 1 else if a - b < -TWO63 then -TWO63 else a - b
  }

  function Deposit(w: LevWorld, owner: Owner, amount: u64): (r: Result<LevWorld>)
    requires owner in w.wallets
  {
    if w.wallets[owner] < amount || w.vault + amount >= TWO64 then Err(TransferFailed)
    else Ok(w.(wallets := w.wallets[owner := w.wallets[owner] - amount], vault := w.vault + amount))
  }

  function PayOut(w: LevWorld, owner: Owner, amount: u64): (r: Result<LevWorld>)
    requires owner in w.wallets
  {
    if w.vault < amount || w.wallets[owner] + amount >= TWO64 then Err(TransferFailed)
    else Ok(w.(wallets := w.wallets[owner := w.wallets[owner] + amount], vault := w.vault - amount))
  }

  function InitPool(params: LeverageParams, market: MarketView, wallets: map<Owner, u64>): (r: Result<LevWorld>) {
    if params.maxLeverage == 0 then Err(LeverageDisabled)
    else
      Ok(LevWorld(
        PoolRecord(0, 0, 0, 0, [0, 0, 0], 0, 0, [0, 0, 0], 0, BPS_DENOM, 0),
        0, wallets, map[], map[], params, market))
  }

  // ---------------------------------------------------------------- positions

  /** Guards (1) to (7) of `open_leverage`. */
  function OpenGuards(w: LevWorld, outcome: u8, collateral: u64, leverage: u16, now: i64): (r: Result<()>)
    ensures r.Ok? ==> outcome < 3
  {
    var p := w.pool;
    if !(w.params.maxLeverage > 0 && w.params.fundingEpochSecs > 0) then Err(LeverageDisabled)
    else if w.market.state != Spot.Trading then Err(InvalidMarketState)
    else if w.market.freezeTs - w.params.leverageCutoffSecs < -TWO63 then Err(MathOverflow)
    else if now >= w.market.freezeTs - w.params.leverageCutoffSecs then Err(LeverageCutoff)
    else if p.markTs <= 0 then Err(MarkNotPosted)
    else if SaturatingSub(now, p.markTs) > w.params.maxMarkAgeSecs then Err(MarkStale)
    else if now < p.valvePausedUntil then Err(RiskValvePaused)
    else if outcome >= 3 then Err(LmsrInvalidOutcomeIndex)
    else if leverage < 2 then Err(LeverageTooLow)
    else if leverage > MaxLeverageForP(p.markBps[outcome], w.params.maxLeverage) then Err(LeverageTooHigh)
    else if collateral == 0 then Err(ZeroAmount)
    else Ok(())
  }

  function DoOpen(w: LevWorld, owner: Owner, outcome: u8, collateral: u64, leverage: u16, now: i64): (r: Result<LevWorld>) {
    var p := w.pool;
    if owner in w.positions then Err(AccountExists)
    else if owner !in w.wallets then Err(AccountMissing)
    else
      var _ :- OpenGuards(w, outcome, collateral, leverage, now);
      var entry := p.markBps[outcome];
      var units :- Mapped(UnitsFor(collateral, leverage, entry));
      MulMono(0, collateral, leverage);
      if collateral * leverage >= TWO64 then Err(MathOverflow)
      else
        var notional := collateral * leverage;
        var maxGain :- Mapped(MaxGain(units, entry));
        if p.openInterest + notional >= TWO64 then Err(MathOverflow)
        else if p.openInterest + notional > w.params.maxOpenInterest then Err(OpenInterestExceeded)
        else if !CoverageOk(w.vault, w.params.minCoverageBps, p.totalMaxPayout, maxGain) then Err(CoverageBreached)
        else
          var paid :- Deposit(w, owner, collateral);
          if p.totalMaxPayout + maxGain >= TWO64 then Err(MathOverflow)
          else
            Ok(paid.(
              positions := w.positions[owner := LevPosition(outcome, leverage, collateral, notional, units, entry,
                p.cumFundingIndex[outcome], now, false)],
              pool := p.(openInterest := p.openInterest + notional, totalMaxPayout := p.totalMaxPayout + maxGain)))
  }

  datatype Settlement = Settlement(payout: u64, funding: u64, reason: u8)

  /** The price a live position is settled at, if the mark is usable. */
  function LiveMark(w: LevWorld, idx: nat, now: i64): (r: Result<u16>)
    requires idx < 3
  {
    if w.pool.markTs <= 0 then Err(MarkNotPosted)
    else if SaturatingSub(now, w.pool.markTs) > w.params.maxMarkAgeSecs then Err(MarkStale)
    else Ok(w.pool.markBps[idx])
  }

  function SettleAt(position: LevPosition, p: u16, funding: u64, reason: u8): (r: Result<Settlement>) {
    var pnl :- Mapped(Pnl(position.units, position.entryMarkBps, p));
    Ok(Settlement(SettlePayout(position.collateral, pnl, funding), funding, reason))
  }

  function ComputeSettlement(w: LevWorld, position: LevPosition, now: i64, isExpire: bool): (r: Result<Settlement>)
    requires position.outcomeIdx < 3
  {
    if position.settled then Err(PositionSettled)
    else
      var idx := position.outcomeIdx;
      var funding :- Mapped(FundingAccrued(position.notional, w.pool.cumFundingIndex[idx], position.fundingIndexSnap));
      match w.market.state
      case Trading =>
        var p :- LiveMark(w, idx, now);
        SettleAt(position, p, funding, if isExpire then 1 else 0)
      case Locked =>
        var p :- LiveMark(w, idx, now);
        SettleAt(position, p, funding, if isExpire then 1 else 0)
      case Resolved =>
        (match w.market.outcome
         case Void => Ok(Settlement(SettlePayout(position.collateral, 0, funding), funding, 3))
         case Unset => Err(InvalidMarketState)
         case winner =>
           var win := if winner == Team1 then 0 else if winner == Draw then 1 else 2;
           SettleAt(position, if idx == win then BPS_DENOM else 0, funding, 2))
      case Open => Err(InvalidMarketState)
      case Closed => Err(InvalidMarketState)
  }

  /** What closing and expiring share: the books shrink, the account goes, the vault pays. */
  function Release(w: LevWorld, owner: Owner, payout: u64): (r: Result<LevWorld>)
    requires owner in w.positions && owner in w.wallets
  {
    var position, p := w.positions[owner], w.pool;
    var maxGain :- Mapped(MaxGain(position.units, position.entryMarkBps));
    var paid :- if payout > 0 then PayOut(w, owner, payout) else Ok(w);
    Ok(paid.(
      positions := w.positions - {owner},
      pool := p.(openInterest := SatSub(p.openInterest, position.notional),
                 totalMaxPayout := SatSub(p.totalMaxPayout, maxGain))))
  }

  function DoClose(w: LevWorld, owner: Owner, now: i64): (r: Result<LevWorld>) {
    if owner !in w.positions || owner !in w.wallets || w.positions[owner].outcomeIdx >= 3 then Err(AccountMissing)
    else
      var settlement :- ComputeSettlement(w, w.positions[owner], now, false);
      Release(w, owner, settlement.payout)
  }

  function DoExpire(w: LevWorld, owner: Owner, now: i64): (r: Result<LevWorld>) {
    if owner !in w.positions || owner !in w.wallets || w.positions[owner].outcomeIdx >= 3 then Err(AccountMissing)
    else
      var settlement :- ComputeSettlement(w, w.positions[owner], now, true);
      if settlement.funding < w.positions[owner].collateral then Err(PositionNotExpired)
      else Release(w, owner, settlement.payout)
  }

  // -------------------------------------------------------------------- marks

  function Multiplier(p: PoolRecord, now: i64): u16 {
    if now < p.valveUntilTs then p.valveMultiplierBps else BPS_DENOM
  }

  /** One outcome's index after the elapsed segment, at its previous mark. */
  function Accrued(w: LevWorld, i: nat, now: i64): (r: Result<u128>)
    requires i < 3 && now >= w.pool.lastFundingTs
  {
    var p := w.pool;
    if now - p.lastFundingTs >= TWO63 then Err(MathOverflow)
    else
      var delta :- Mapped(IdxDelta(w.params.timeFeeNum, p.markBps[i], now - p.lastFundingTs,
        SaturatingSub(w.market.freezeTs, now), Multiplier(p, now)));
      if p.cumFundingIndex[i] + delta >= TWO128 then Err(MathOverflow) else Ok(p.cumFundingIndex[i] + delta)
  }

  function DoPostMark(w: LevWorld, marks: Marks, now: i64): (r: Result<LevWorld>) {
    var p := w.pool;
    if exists i :: 0 <= i < 3 && !(1 <= marks[i] < BPS_DENOM) then Err(MarkOutOfRange)
    else if p.markTs > 0 then
      if now < p.lastFundingTs then Err(MonotonicClock)
      else
        var a :- Accrued(w, 0, now);
        var b :- Accrued(w, 1, now);
        var c :- Accrued(w, 2, now);
        Ok(w.(pool := p.(cumFundingIndex := [a, b, c], markBps := marks, markTs := now, lastFundingTs := now)))
    else Ok(w.(pool := p.(markBps := marks, markTs := now, lastFundingTs := now)))
  }

  function DoSetValve(w: LevWorld, pauseSecs: i64, multiplierBps: u16, windowSecs: i64, now: i64): (r: Result<LevWorld>) {
    if !(multiplierBps <= VALVE_MAX_MULTIPLIER_BPS && multiplierBps >= BPS_DENOM
         && 0 <= pauseSecs <= VALVE_MAX_DURATION_SECS && 0 <= windowSecs <= VALVE_MAX_DURATION_SECS) then
      Err(ValveOutOfBounds)
    else if now + pauseSecs >= TWO63 || now + windowSecs >= TWO63 then Err(MathOverflow)
    else Ok(w.(pool := w.pool.(
      valvePausedUntil := now + pauseSecs, valveMultiplierBps := multiplierBps, valveUntilTs := now + windowSecs)))
  }

  // ----------------------------------------------------------------------- LP

  function DoOpenLp(w: LevWorld, owner: Owner): (r: Result<LevWorld>) {
    if owner in w.lps then Err(AccountExists)
    else Ok(w.(lps := w.lps[owner := LpAccount(0, 0, 0)]))
  }

  function DoDeposit(w: LevWorld, owner: Owner, amount: u64): (r: Result<LevWorld>) {
    if owner !in w.lps || owner !in w.wallets then Err(AccountMissing)
    else if amount == 0 then Err(ZeroAmount)
    else
      var shares :- Mapped(SharesForDeposit(amount, w.pool.totalShares, w.vault));
      if shares == 0 then Err(InsufficientShares)
      else
        var paid :- Deposit(w, owner, amount);
        var lp := w.lps[owner];
        if w.pool.totalShares + shares >= TWO64 || lp.shares + shares >= TWO64 then Err(MathOverflow)
        else Ok(paid.(
          pool := w.pool.(totalShares := w.pool.totalShares + shares),
          lps := w.lps[owner := lp.(shares := lp.shares + shares)]))
  }

  function DoRequest(w: LevWorld, owner: Owner, shares: u64, now: i64): (r: Result<LevWorld>) {
    if owner !in w.lps then Err(AccountMissing)
    else
      var lp := w.lps[owner];
      if shares == 0 then Err(ZeroAmount)
      else if lp.shares < lp.pendingShares then Err(MathOverflow)
      else if shares > lp.shares - lp.pendingShares then Err(InsufficientShares)
      else
        var value :- Mapped(ValueForShares(shares, w.pool.totalShares, w.vault));
        if w.vault < value then Err(MathOverflow)
        else if !CoverageOk(w.vault - value, w.params.minCoverageBps, w.pool.totalMaxPayout, 0) then Err(CoverageBreached)
        else if now + LP_WITHDRAW_DELAY_SECS >= TWO63 then Err(MathOverflow)
        else if lp.pendingShares + shares >= TWO64 || w.pool.pendingWithdrawShares + shares >= TWO64 then Err(MathOverflow)
        else Ok(w.(
          lps := w.lps[owner := lp.(pendingShares := lp.pendingShares + shares, unlockTs := now + LP_WITHDRAW_DELAY_SECS)],
          pool := w.pool.(pendingWithdrawShares := w.pool.pendingWithdrawShares + shares)))
  }

  function DoWithdraw(w: LevWorld, owner: Owner, now: i64): (r: Result<LevWorld>) {
    if owner !in w.lps || owner !in w.wallets then Err(AccountMissing)
    else
      var lp := w.lps[owner];
      var pending := lp.pendingShares;
      if pending == 0 then Err(NothingPending)
      else if now < lp.unlockTs then Err(WithdrawLocked)
      else
        var value :- Mapped(ValueForShares(pending, w.pool.totalShares, w.vault));
        if w.pool.totalShares < pending || w.pool.pendingWithdrawShares < pending || lp.shares < pending then
          Err(MathOverflow)
        else
          var paid :- if value > 0 then PayOut(w, owner, value) else Ok(w);
          Ok(paid.(
            pool := w.pool.(totalShares := w.pool.totalShares - pending,
                            pendingWithdrawShares := w.pool.pendingWithdrawShares - pending),
            lps := w.lps[owner := lp.(shares := lp.shares - pending, pendingShares := 0)]))
  }

  /** `validate_leverage_params`: checked only when leverage is on. */
  predicate ValidLeverageParams(p: LeverageParams) {
    p.maxLeverage > 0 ==>
      p.fundingEpochSecs > 0 && p.maxMarkAgeSecs > 0 && p.minCoverageBps >= BPS_DENOM && p.timeFeeNum > 0
  }

  function DoUpdateParams(w: LevWorld, params: LeverageParams): (r: Result<LevWorld>) {
    if !ValidLeverageParams(params) then Err(InvalidFeeParams) else Ok(w.(params := params))
  }

  function Step(w: LevWorld, a: LevAction): (r: Result<LevWorld>) {
    match a
    case OpenLeverage(owner, outcome, collateral, leverage, now) => DoOpen(w, owner, outcome, collateral, leverage, now)
    case CloseLeverage(owner, now) => DoClose(w, owner, now)
    case ExpirePosition(owner, now) => DoExpire(w, owner, now)
    case PostMark(marks, now) => DoPostMark(w, marks, now)
    case SetRiskValve(pause, multiplier, window, now) => DoSetValve(w, pause, multiplier, window, now)
    case OpenLpAccount(owner) => DoOpenLp(w, owner)
    case DepositLp(owner, amount) => DoDeposit(w, owner, amount)
    case RequestWithdraw(owner, shares, now) => DoRequest(w, owner, shares, now)
    case WithdrawLp(owner, now) => DoWithdraw(w, owner, now)
    case UpdateLeverageParams(params) => DoUpdateParams(w, params)
    case MarketMoves(market) => Ok(w.(market := market))
  }

  function Apply(w: LevWorld, a: LevAction): LevWorld {
    var r := Step(w, a);
    if r.Ok? then r.value else w
  }

  function Run(w: LevWorld, actions: seq<LevAction>): LevWorld
    decreases |actions|
  {
    if actions == [] then w else Run(Apply(w, actions[0]), actions[1..])
  }
}
