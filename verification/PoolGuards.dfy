/** What the leverage pool refuses and what it pays: each instruction's guards as an if-and-only-if on the state
    before it, and each settlement by its own arithmetic.
    */
module PoolGuards {
  import opened Machine
  import opened Funding
  import opened FundingLaws
  import opened FundingAmounts
  import opened Sums
  import opened Resolution
  import opened Pool
  import opened PoolLaws
  import opened PoolRuns
  import Spot

  // -------------------------------------------------------------- settlements

  /** The price an outcome is settled at: the posted mark while the market lives, everything or nothing once the
      score is proven. */
  ghost predicate IsSettlementPrice(w: LevWorld, idx: nat, now: i64, price: int)
    requires idx < 3
  {
    match w.market.state
    case Open => false
    case Trading => w.pool.markTs > 0 && now - w.pool.markTs <= w.params.maxMarkAgeSecs && price == w.pool.markBps[idx]
    case Locked => w.pool.markTs > 0 && now - w.pool.markTs <= w.params.maxMarkAgeSecs && price == w.pool.markBps[idx]
    case Closed => false
    case Resolved =>
      match w.market.outcome
      case Team1 => price == if idx == 0 then 10_000 else 0
      case Draw => price == if idx == 1 then 10_000 else 0
      case Team2 => price == if idx == 2 then 10_000 else 0
      case Void => false
      case Unset => false
  }

  /** The settlement identity: funding is the notional times the index's advance since the opening, profit is the
      units times the move to the settlement price (nothing if the match is void), both rounded down, and the
      payout is collateral and profit less funding. */
  ghost predicate IsSettlement(w: LevWorld, position: LevPosition, now: i64, pnl: int, funding: int, payout: int)
    requires position.outcomeIdx < 3
  {
    var idx := position.outcomeIdx;
    && IsFloor(funding, position.notional * (w.pool.cumFundingIndex[idx] - position.fundingIndexSnap), 1_000_000_000_000)
    && (if w.market.state == Spot.Resolved && w.market.outcome == Void then pnl == 0
        else exists price :: IsSettlementPrice(w, idx, now, price)
               && IsFloor(pnl, position.units * (price - position.entryMarkBps), 10_000))
    && IsPayout(payout, position.collateral, pnl, funding)
  }

  lemma PricedSettlement(w: LevWorld, position: LevPosition, now: i64, p: u16, funding: u64, reason: u8) returns (pnl: int)
    requires position.outcomeIdx < 3 && SettleAt(position, p, funding, reason).Ok?
    requires !(w.market.state == Spot.Resolved && w.market.outcome == Void)
    requires IsSettlementPrice(w, position.outcomeIdx, now, p)
    requires FundingAccrued(position.notional, w.pool.cumFundingIndex[position.outcomeIdx], position.fundingIndexSnap) == Done(funding)
    ensures IsSettlement(w, position, now, pnl, funding, SettleAt(position, p, funding, reason).value.payout)
  {
    hide Pnl, FundingAccrued, SettlePayout, IsSettlementPrice, IsFloor, IsPayout;
    pnl := Pnl(position.units, position.entryMarkBps, p).value;
    PnlIs(position.units, position.entryMarkBps, p);
    FundingIs(position.notional, w.pool.cumFundingIndex[position.outcomeIdx], position.fundingIndexSnap);
    PayoutIs(position.collateral, pnl, funding);
    var price: int := p;
    assert IsFloor(pnl, position.units * (price - position.entryMarkBps), 10_000);
  }

  /** Every computed settlement satisfies the identity. */
  lemma SettlementIs(w: LevWorld, position: LevPosition, now: i64, isExpire: bool) returns (pnl: int)
    requires position.outcomeIdx < 3 && ComputeSettlement(w, position, now, isExpire).Ok?
    ensures !position.settled
    ensures var s := ComputeSettlement(w, position, now, isExpire).value;
      IsSettlement(w, position, now, pnl, s.funding, s.payout)
  {
    hide Pnl, FundingAccrued, SettlePayout, SettleAt, IsFloor, IsPayout, IsSettlement;
    var idx, s := position.outcomeIdx, ComputeSettlement(w, position, now, isExpire).value;
    SettlementKeepsFunding(w, position, now, isExpire);
    match w.market.state
    case Trading => pnl := PricedSettlement(w, position, now, w.pool.markBps[idx], s.funding, if isExpire then 1 else 0);
    case Locked => pnl := PricedSettlement(w, position, now, w.pool.markBps[idx], s.funding, if isExpire then 1 else 0);
    case Resolved =>
      if w.market.outcome == Void {
        pnl := 0;
        VoidSettlement(w, position, now, s.funding);
      } else {
        var win := if w.market.outcome == Team1 then 0 else if w.market.outcome == Draw then 1 else 2;
        pnl := PricedSettlement(w, position, now, if idx == win then BPS_DENOM else 0, s.funding, 2);
      }
    case _ => assert false;
  }

  /** The reason a settlement is reported under: closed or expired alive, won or lost, void. */
  lemma ReasonIs(w: LevWorld, position: LevPosition, now: i64, isExpire: bool)
    requires position.outcomeIdx < 3 && ComputeSettlement(w, position, now, isExpire).Ok?
    ensures ComputeSettlement(w, position, now, isExpire).value.reason as int
         == if w.market.state != Spot.Resolved then (if isExpire then 1 else 0) else if w.market.outcome == Void then 3 else 2
  {
    hide Pnl, FundingAccrued, SettlePayout;
  }

  lemma SettlementKeepsFunding(w: LevWorld, position: LevPosition, now: i64, isExpire: bool)
    requires position.outcomeIdx < 3 && ComputeSettlement(w, position, now, isExpire).Ok?
    ensures FundingAccrued(position.notional, w.pool.cumFundingIndex[position.outcomeIdx], position.fundingIndexSnap)
         == Done(ComputeSettlement(w, position, now, isExpire).value.funding)
  {
    hide Pnl, FundingAccrued, SettlePayout;
  }

  lemma VoidSettlement(w: LevWorld, position: LevPosition, now: i64, funding: u64)
    requires position.outcomeIdx < 3 && w.market.state == Spot.Resolved && w.market.outcome == Void
    requires FundingAccrued(position.notional, w.pool.cumFundingIndex[position.outcomeIdx], position.fundingIndexSnap) == Done(funding)
    ensures IsSettlement(w, position, now, 0, funding, SettlePayout(position.collateral, 0, funding))
  {
    hide FundingAccrued, SettlePayout, IsFloor, IsPayout;
    FundingIs(position.notional, w.pool.cumFundingIndex[position.outcomeIdx], position.fundingIndexSnap);
    PayoutIs(position.collateral, 0, funding);
  }

  /** The position is gone and its owner has `payout` more, all of it out of the vault. */
  ghost predicate Paid(w: LevWorld, w': LevWorld, owner: Owner, payout: int) {
    && owner in w.positions && owner in w.wallets && owner in w'.wallets
    && w'.positions == w.positions - {owner}
    && w'.vault == w.vault - payout && w'.wallets[owner] == w.wallets[owner] + payout
    && forall o :: o in w.wallets && o != owner ==> o in w'.wallets && w'.wallets[o] == w.wallets[o]
  }

  lemma ReleasePays(w: LevWorld, owner: Owner, payout: u64)
    requires owner in w.positions && owner in w.wallets && Release(w, owner, payout).Ok?
    ensures Paid(w, Release(w, owner, payout).value, owner, payout)
  {
    hide MaxGain;
  }

  /** An accepted close pays its owner exactly the settlement, out of the vault. */
  lemma ClosePays(w: LevWorld, owner: Owner, now: i64) returns (pnl: int, funding: int, payout: int)
    requires Step(w, CloseLeverage(owner, now)).Ok?
    ensures owner in w.positions && w.positions[owner].outcomeIdx < 3
    ensures IsSettlement(w, w.positions[owner], now, pnl, funding, payout)
    ensures Paid(w, Step(w, CloseLeverage(owner, now)).value, owner, payout)
  {
    hide ComputeSettlement, Release, IsSettlement, Paid;
    var s := ComputeSettlement(w, w.positions[owner], now, false).value;
    pnl := SettlementIs(w, w.positions[owner], now, false);
    funding, payout := s.funding, s.payout;
    ReleasePays(w, owner, s.payout);
  }

  /** An accepted expiry does the same, and only at fee death: the funding has reached the collateral. */
  lemma ExpiryPays(w: LevWorld, owner: Owner, now: i64) returns (pnl: int, funding: int, payout: int)
    requires Step(w, ExpirePosition(owner, now)).Ok?
    ensures owner in w.positions && w.positions[owner].outcomeIdx < 3
    ensures IsSettlement(w, w.positions[owner], now, pnl, funding, payout)
    ensures funding >= w.positions[owner].collateral
    ensures Paid(w, Step(w, ExpirePosition(owner, now)).value, owner, payout)
  {
    hide ComputeSettlement, Release, IsSettlement, Paid;
    var s := ComputeSettlement(w, w.positions[owner], now, true).value;
    pnl := SettlementIs(w, w.positions[owner], now, true);
    funding, payout := s.funding, s.payout;
    ReleasePays(w, owner, s.payout);
  }

  /** With nonnegative backing a position expires exactly when its settlement can be computed and its funding has
      reached its collateral. */
  lemma ExpiresExactlyWhen(w: LevWorld, owner: Owner, now: i64)
    requires Books(w) && AllUsdt(w) < TWO64 && Backing(w) >= 0 && owner in w.positions && owner in w.wallets
    ensures w.positions[owner].outcomeIdx < 3
    ensures Step(w, ExpirePosition(owner, now)).Ok? <==>
      var s := ComputeSettlement(w, w.positions[owner], now, true);
      s.Ok? && s.value.funding >= w.positions[owner].collateral
  {
    hide ComputeSettlement, WellBooked, GainOf, MaxGain;
    var position := w.positions[owner];
    BookedIndex(w, owner);
    if ComputeSettlement(w, position, now, true).Ok? {
      PositionIsBooked(w, owner);
      SettlementIsClaimed(w, position, now, true);
      BookedGain(w, owner);
      PositionRemoved(w.positions, owner);
      TotalAtLeast(w.wallets, owner);
    }
  }

  // ----------------------------------------------------------------- openings

  /** The market trades and is not near its freeze, the pool is on, its marks are posted and fresh, the valve is
      not paused, and the leverage is at least two and inside the taper. */
  predicate MayOpen(w: LevWorld, outcome: u8, collateral: u64, leverage: u16, now: i64) {
    && w.params.maxLeverage > 0 && w.params.fundingEpochSecs > 0
    && w.market.state == Spot.Trading
    && -TWO63 <= w.market.freezeTs - w.params.leverageCutoffSecs && now < w.market.freezeTs - w.params.leverageCutoffSecs
    && w.pool.markTs > 0 && now - w.pool.markTs <= w.params.maxMarkAgeSecs
    && now >= w.pool.valvePausedUntil
    && outcome < 3 && collateral > 0 && 2 <= leverage
    && (var p := w.pool.markBps[outcome];
        var edge: int := if p <= 5_000 then p else 10_000 - p as int;
        if edge >= 2_000 then leverage <= w.params.maxLeverage
        else (leverage - 1) * 2_000 <= (w.params.maxLeverage - 1) * edge)
  }

  lemma GuardsAre(w: LevWorld, outcome: u8, collateral: u64, leverage: u16, now: i64)
    ensures OpenGuards(w, outcome, collateral, leverage, now).Ok? <==> MayOpen(w, outcome, collateral, leverage, now)
  {
    hide MaxLeverageForP;
    if outcome < 3 && leverage >= 2 && w.params.maxLeverage > 0 {
      LeverageCapIs(w.pool.markBps[outcome], w.params.maxLeverage, leverage);
    }
  }

  /** The sizes of an opening: units and gain as they would be booked, the open-interest cap, coverage of every
      booked gain and this one, and the funds. */
  predicate Sized(w: LevWorld, owner: Owner, outcome: u8, collateral: u64, leverage: u16)
    requires outcome < 3
  {
    var entry, notional := w.pool.markBps[outcome], collateral * leverage;
    && 0 < entry < 10_000 && 0 <= notional < TWO64 && notional * 10_000 / entry < TWO64
    && (var gain := notional * 10_000 / entry * (10_000 - entry) / 10_000;
        && w.pool.openInterest + notional <= w.params.maxOpenInterest
        && w.vault * 10_000 >= w.params.minCoverageBps * (w.pool.totalMaxPayout + gain)
        && w.pool.totalMaxPayout + gain < TWO64)
    && owner in w.wallets && collateral <= w.wallets[owner] && w.vault + collateral < TWO64
  }

  lemma SizesAre(w: LevWorld, owner: Owner, outcome: u8, collateral: u64, leverage: u16, units: u64, gain: u64)
    requires outcome < 3
    requires UnitsFor(collateral, leverage, w.pool.markBps[outcome]) == Done(units)
    requires MaxGain(units, w.pool.markBps[outcome]) == Done(gain)
    ensures var entry := w.pool.markBps[outcome];
      0 < entry < 10_000 && units == collateral * leverage * 10_000 / entry && gain == units * (10_000 - entry) / 10_000
  {
  }

  /** An opening is accepted exactly when the owner has no position, the guards hold and the sizes fit. */
  lemma OpensExactlyWhen(w: LevWorld, owner: Owner, outcome: u8, collateral: u64, leverage: u16, now: i64)
    ensures Step(w, OpenLeverage(owner, outcome, collateral, leverage, now)).Ok? <==>
      && owner !in w.positions && MayOpen(w, outcome, collateral, leverage, now)
      && Sized(w, owner, outcome, collateral, leverage)
  {
    hide OpenGuards, MayOpen, UnitsFor, MaxGain;
    GuardsAre(w, outcome, collateral, leverage, now);
    GuardedIndex(w, outcome, collateral, leverage, now);
    if outcome < 3 {
      var entry := w.pool.markBps[outcome];
      UnitsAre(collateral, leverage, entry);
      MulMono(0, collateral, leverage);
      SizedUnits(collateral, leverage, entry);
      if UnitsFor(collateral, leverage, entry).Done? {
        var units := UnitsFor(collateral, leverage, entry).value;
        SizesAre(w, owner, outcome, collateral, leverage, units, MaxGain(units, entry).value);
      }
    }
  }

  lemma GuardedIndex(w: LevWorld, outcome: u8, collateral: u64, leverage: u16, now: i64)
    ensures MayOpen(w, outcome, collateral, leverage, now) ==> outcome < 3
  {
  }

  lemma SizedUnits(collateral: u64, leverage: u16, entry: u16)
    requires collateral * leverage >= 0
    ensures UnitsFor(collateral, leverage, entry).Done? <==>
      0 < entry < 10_000 && collateral * leverage < TWO64 && collateral * leverage * 10_000 / entry < TWO64
  {
  }

  // -------------------------------------------------------------- marks, valve

  /** A post needs interior marks, and after the first one a clock in order. */
  lemma PostsOnlyWhen(w: LevWorld, marks: Marks, now: i64)
    ensures Step(w, PostMark(marks, now)).Ok? ==>
      (forall i :: 0 <= i < 3 ==> 0 < marks[i] < 10_000) && (w.pool.markTs > 0 ==> now >= w.pool.lastFundingTs)
    ensures w.pool.markTs <= 0 && (forall i :: 0 <= i < 3 ==> 0 < marks[i] < 10_000) ==> Step(w, PostMark(marks, now)).Ok?
  {
    hide Accrued;
  }

  /** The valve takes a multiplier between one and five and times of at most ten minutes, and what it writes. */
  lemma ValveSetsExactlyWhen(w: LevWorld, pauseSecs: i64, multiplierBps: u16, windowSecs: i64, now: i64)
    ensures Step(w, SetRiskValve(pauseSecs, multiplierBps, windowSecs, now)).Ok? <==>
      && 10_000 <= multiplierBps <= 50_000 && 0 <= pauseSecs <= 600 && 0 <= windowSecs <= 600
      && now + pauseSecs < TWO63 && now + windowSecs < TWO63
    ensures Step(w, SetRiskValve(pauseSecs, multiplierBps, windowSecs, now)).Ok? ==>
      var p := Step(w, SetRiskValve(pauseSecs, multiplierBps, windowSecs, now)).value.pool;
      && p.valvePausedUntil as int == now + pauseSecs && p.valveUntilTs as int == now + windowSecs
      && p.valveMultiplierBps == multiplierBps
  {
  }

  // ----------------------------------------------------------------------- LP

  /** A pool opens exactly with leverage on, empty and with a neutral valve. */
  lemma PoolOpensExactlyWhen(params: LeverageParams, market: MarketView, wallets: map<Owner, u64>)
    ensures InitPool(params, market, wallets).Ok? <==> params.maxLeverage > 0
    ensures InitPool(params, market, wallets).Ok? ==> InitPool(params, market, wallets).value == LevWorld(
      PoolRecord(0, 0, 0, 0, [0, 0, 0], 0, 0, [0, 0, 0], 0, 10_000, 0), 0, wallets, map[], map[], params, market)
  {
  }

  lemma LpOpensExactlyWhen(w: LevWorld, owner: Owner)
    ensures Step(w, OpenLpAccount(owner)).Ok? <==> owner !in w.lps
    ensures Step(w, OpenLpAccount(owner)).Ok? ==>
      Step(w, OpenLpAccount(owner)).value == w.(lps := w.lps[owner := LpAccount(0, 0, 0)])
  {
  }

  /** A deposit needs an LP account, the money, and to buy at least one share. */
  lemma DepositsExactlyWhen(w: LevWorld, owner: Owner, amount: u64)
    ensures Step(w, DepositLp(owner, amount)).Ok? <==>
      var shares := if w.pool.totalShares > 0 && w.vault > 0 then amount * w.pool.totalShares / w.vault else amount;
      && owner in w.lps && owner in w.wallets && 0 < amount <= w.wallets[owner] && w.vault + amount < TWO64
      && 0 < shares && w.pool.totalShares + shares < TWO64 && w.lps[owner].shares + shares < TWO64
  {
    if w.pool.totalShares > 0 && w.vault > 0 {
      MulMono(0, w.pool.totalShares, amount);
      DivAtLeast(amount * w.pool.totalShares, w.vault, 0);
    }
  }

  /** A withdrawal request needs free shares, and coverage of every booked gain by what it leaves. */
  lemma RequestsExactlyWhen(w: LevWorld, owner: Owner, shares: u64, now: i64)
    requires Books(w)
    ensures Step(w, RequestWithdraw(owner, shares, now)).Ok? <==>
      && owner in w.lps && 0 < shares && shares + w.lps[owner].pendingShares <= w.lps[owner].shares
      && w.pool.totalShares > 0
      && (w.vault - shares * w.vault / w.pool.totalShares) * 10_000 >= w.params.minCoverageBps * w.pool.totalMaxPayout
      && now + 3_600 < TWO63
  {
    hide WellBooked, ValueForShares;
    if owner in w.lps {
      TotalAtLeast(SharesOf(w.lps), owner);
      TotalAtLeast(PendingOf(w.lps), owner);
      PendingWithinShares(w.lps);
      if 0 < shares && shares + w.lps[owner].pendingShares <= w.lps[owner].shares {
        ValueFits(shares, w.pool.totalShares, w.vault);
        assert ValueForShares(shares, w.pool.totalShares, w.vault).value == shares * w.vault / w.pool.totalShares by { ValueMeans(shares, w.pool.totalShares, w.vault); }
        PendingHasRoom(w, owner, shares);
      }
    }
  }

  lemma ValueMeans(shares: u64, totalShares: u64, vault: u64)
    requires ValueForShares(shares, totalShares, vault).Done?
    ensures totalShares > 0 && ValueForShares(shares, totalShares, vault).value == shares * vault / totalShares
  {
  }

  /** The pool's pending shares and one more request stay within its shares. */
  lemma PendingHasRoom(w: LevWorld, owner: Owner, shares: u64)
    requires Books(w) && owner in w.lps && shares + w.lps[owner].pendingShares <= w.lps[owner].shares
    ensures w.pool.pendingWithdrawShares + shares <= w.pool.totalShares
  {
    hide WellBooked;
    var lp := w.lps[owner];
    var more := w.lps[owner := lp.(pendingShares := lp.pendingShares + shares)];
    LpUpdated(w.lps, owner, lp.(pendingShares := lp.pendingShares + shares));
    PendingWithinShares(more);
  }

  lemma {:induction false} PendingWithinShares(lps: map<Owner, LpAccount>)
    requires forall o :: o in lps ==> lps[o].pendingShares <= lps[o].shares
    ensures Total(PendingOf(lps)) <= Total(SharesOf(lps))
    decreases |lps|
  {
    if lps == map[] {
      assert PendingOf(lps) == map[] && SharesOf(lps) == map[];
    } else {
      var o :| o in lps;
      assert PendingOf(lps - {o}) == PendingOf(lps) - {o} && SharesOf(lps - {o}) == SharesOf(lps) - {o};
      TotalSplit(PendingOf(lps), o);
      TotalSplit(SharesOf(lps), o);
      PendingWithinShares(lps - {o});
    }
  }

  /** A withdrawal goes through exactly when shares are pending and their hour has passed. */
  lemma WithdrawsExactlyWhen(w: LevWorld, owner: Owner, now: i64)
    requires Books(w) && AllUsdt(w) < TWO64
    ensures Step(w, WithdrawLp(owner, now)).Ok? <==>
      owner in w.lps && owner in w.wallets && w.lps[owner].pendingShares > 0 && now >= w.lps[owner].unlockTs
  {
    hide Books, AllUsdt, ValueForShares;
    if owner in w.lps && owner in w.wallets && w.lps[owner].pendingShares > 0 && now >= w.lps[owner].unlockTs {
      WithdrawSucceeds(w, owner, now);
    }
  }

  /** New parameters are taken exactly when leverage is off in them, or they are complete and coverage is full. */
  lemma UpdatesExactlyWhen(w: LevWorld, params: LeverageParams)
    ensures Step(w, UpdateLeverageParams(params)).Ok? <==>
      params.maxLeverage == 0
      || (params.fundingEpochSecs > 0 && params.maxMarkAgeSecs > 0 && params.minCoverageBps >= 10_000 && params.timeFeeNum > 0)
    ensures Step(w, UpdateLeverageParams(params)).Ok? ==> Step(w, UpdateLeverageParams(params)).value == w.(params := params)
  {
  }

  // ------------------------------------------------------------ valve over runs

  /** Until it is set again the valve stays as it was set, whatever else happens. */
  lemma {:induction false} ValveStays(w: LevWorld, actions: seq<LevAction>)
    requires forall k :: 0 <= k < |actions| ==> !actions[k].SetRiskValve?
    ensures var p, p' := w.pool, Run(w, actions).pool;
      && p'.valvePausedUntil == p.valvePausedUntil && p'.valveMultiplierBps == p.valveMultiplierBps
      && p'.valveUntilTs == p.valveUntilTs
    decreases |actions|
  {
    hide Step, Apply;
    if actions != [] {
      StepKeepsValve(w, actions[0]);
      ValveStays(Apply(w, actions[0]), actions[1..]);
    }
  }

  lemma StepKeepsValve(w: LevWorld, a: LevAction)
    requires !a.SetRiskValve?
    ensures var p, p' := w.pool, Apply(w, a).pool;
      && p'.valvePausedUntil == p.valvePausedUntil && p'.valveMultiplierBps == p.valveMultiplierBps
      && p'.valveUntilTs == p.valveUntilTs
  {
    hide OpenGuards, UnitsFor, MaxGain, CoverageOk, ComputeSettlement, SharesForDeposit, ValueForShares, Accrued;
  }

  /** A pause refuses every opening until it is over, whatever happens meanwhile but another valve action. */
  lemma PauseRefuses(w: LevWorld, pause: i64, multiplier: u16, window: i64, t: i64, actions: seq<LevAction>,
                     owner: Owner, outcome: u8, collateral: u64, leverage: u16, now: i64)
    requires Step(w, SetRiskValve(pause, multiplier, window, t)).Ok? && now < t + pause
    requires forall k :: 0 <= k < |actions| ==> !actions[k].SetRiskValve?
    ensures Step(Run(Step(w, SetRiskValve(pause, multiplier, window, t)).value, actions), OpenLeverage(owner, outcome, collateral, leverage, now)).Err?
  {
    hide Run, UnitsFor, MaxGain, MaxLeverageForP;
    ValveSetsExactlyWhen(w, pause, multiplier, window, t);
    ValveStays(Step(w, SetRiskValve(pause, multiplier, window, t)).value, actions);
  }
}
