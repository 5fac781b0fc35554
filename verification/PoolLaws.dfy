/** What every step of the leverage pool keeps: the books are exact sums, settlements never eat into
    the backing of the others, funding only grows, and LP actions never lower the share price.
    */
module PoolLaws {
  import opened Machine
  import opened Funding
  import opened FundingLaws
  import opened FundingAmounts
  import opened Sums
  import opened Pool
  import Spot

  // ------------------------------------------------------------------- books

  ghost function NotionalOf(ps: map<Owner, LevPosition>): map<Owner, int> {
    map o | o in ps :: ps[o].notional
  }

  function GainOf(p: LevPosition): nat {
    if IsEntryMark(p.entryMarkBps) then MaxGain(p.units, p.entryMarkBps).value else 0
  }

  ghost function GainsOf(ps: map<Owner, LevPosition>): map<Owner, int> {
    map o | o in ps :: GainOf(ps[o])
  }

  /** What the vault may have to pay a position: its collateral back and its booked gain. */
  ghost function ClaimsOf(ps: map<Owner, LevPosition>): map<Owner, int> {
    map o | o in ps :: ps[o].collateral + GainOf(ps[o])
  }

  ghost function SharesOf(lps: map<Owner, LpAccount>): map<Owner, int> {
    map o | o in lps :: lps[o].shares
  }

  ghost function PendingOf(lps: map<Owner, LpAccount>): map<Owner, int> {
    map o | o in lps :: lps[o].pendingShares
  }

  predicate WellBooked(p: LevPosition, indexes: Indexes) {
    && p.outcomeIdx < 3 && !p.settled && IsEntryMark(p.entryMarkBps)
    && UnitsFor(p.collateral, p.leverage, p.entryMarkBps) == Done(p.units)
    && p.notional as int == p.collateral * p.leverage
    && p.fundingIndexSnap <= indexes[p.outcomeIdx]
  }

  /** The pool's totals are the sums over its live accounts, its marks are usable once posted, and the valve
      is inside its bounds. */
  ghost predicate Books(w: LevWorld) {
    && w.pool.openInterest == Total(NotionalOf(w.positions))
    && w.pool.totalMaxPayout == Total(GainsOf(w.positions))
    && w.pool.totalShares == Total(SharesOf(w.lps))
    && w.pool.pendingWithdrawShares == Total(PendingOf(w.lps))
    && (forall o :: o in w.positions ==> WellBooked(w.positions[o], w.pool.cumFundingIndex))
    && (forall o :: o in w.lps ==> w.lps[o].pendingShares <= w.lps[o].shares)
    && (w.pool.markTs > 0 ==> forall i :: 0 <= i < 3 ==> IsEntryMark(w.pool.markBps[i]))
    && w.pool.markTs == w.pool.lastFundingTs
    && BPS_DENOM <= w.pool.valveMultiplierBps <= VALVE_MAX_MULTIPLIER_BPS
  }

  /** The vault above every live claim. */
  ghost function Backing(w: LevWorld): int {
    w.vault - Total(ClaimsOf(w.positions))
  }

  ghost function AllUsdt(w: LevWorld): int {
    Total(w.wallets) + w.vault
  }

  // ----------------------------------------------------------- sums and moves

  lemma PositionAdded(ps: map<Owner, LevPosition>, o: Owner, p: LevPosition)
    requires o !in ps
    ensures Total(NotionalOf(ps[o := p])) == Total(NotionalOf(ps)) + p.notional
    ensures Total(GainsOf(ps[o := p])) == Total(GainsOf(ps)) + GainOf(p)
    ensures Total(ClaimsOf(ps[o := p])) == Total(ClaimsOf(ps)) + p.collateral + GainOf(p)
  {
    hide GainOf;
    assert NotionalOf(ps[o := p]) == NotionalOf(ps)[o := p.notional];
    TotalUpdate(NotionalOf(ps), o, p.notional);
    GainAdded(ps, o, p);
  }

  lemma GainAdded(ps: map<Owner, LevPosition>, o: Owner, p: LevPosition)
    requires o !in ps
    ensures Total(GainsOf(ps[o := p])) == Total(GainsOf(ps)) + GainOf(p)
    ensures Total(ClaimsOf(ps[o := p])) == Total(ClaimsOf(ps)) + p.collateral + GainOf(p)
  {
    hide GainOf;
    assert GainsOf(ps[o := p]) == GainsOf(ps)[o := GainOf(p)];
    assert ClaimsOf(ps[o := p]) == ClaimsOf(ps)[o := p.collateral + GainOf(p)];
    TotalUpdate(GainsOf(ps), o, GainOf(p));
    TotalUpdate(ClaimsOf(ps), o, p.collateral + GainOf(p));
  }

  lemma PositionRemoved(ps: map<Owner, LevPosition>, o: Owner)
    requires o in ps
    ensures Total(NotionalOf(ps - {o})) == Total(NotionalOf(ps)) - ps[o].notional >= 0
    ensures Total(GainsOf(ps - {o})) == Total(GainsOf(ps)) - GainOf(ps[o]) >= 0
    ensures Total(ClaimsOf(ps - {o})) == Total(ClaimsOf(ps)) - ps[o].collateral - GainOf(ps[o]) >= 0
  {
    hide GainOf;
    assert NotionalOf(ps - {o}) == NotionalOf(ps) - {o};
    assert GainsOf(ps - {o}) == GainsOf(ps) - {o};
    assert ClaimsOf(ps - {o}) == ClaimsOf(ps) - {o};
    TotalSplit(NotionalOf(ps), o);
    TotalSplit(GainsOf(ps), o);
    TotalSplit(ClaimsOf(ps), o);
    TotalNonNegative(NotionalOf(ps - {o}));
    TotalNonNegative(GainsOf(ps - {o}));
    TotalNonNegative(ClaimsOf(ps - {o}));
  }

  lemma LpUpdated(lps: map<Owner, LpAccount>, o: Owner, lp: LpAccount)
    ensures Total(SharesOf(lps[o := lp])) == Total(SharesOf(lps)) - (if o in lps then lps[o].shares else 0) + lp.shares
    ensures Total(PendingOf(lps[o := lp])) == Total(PendingOf(lps)) - (if o in lps then lps[o].pendingShares else 0) + lp.pendingShares
  {
    assert SharesOf(lps[o := lp]) == SharesOf(lps)[o := lp.shares];
    assert PendingOf(lps[o := lp]) == PendingOf(lps)[o := lp.pendingShares];
    TotalUpdate(SharesOf(lps), o, lp.shares);
    TotalUpdate(PendingOf(lps), o, lp.pendingShares);
  }

  lemma WalletsMove(w: LevWorld, w': LevWorld, owner: Owner)
    requires owner in w.wallets && owner in w'.wallets && w'.wallets == w.wallets[owner := w'.wallets[owner]]
    requires w'.wallets[owner] + w'.vault == w.wallets[owner] + w.vault
    ensures AllUsdt(w') == AllUsdt(w)
  {
    TotalUpdate(w.wallets, owner, w'.wallets[owner]);
  }

  // -------------------------------------------------------------------- opens

  /** What an accepted opening writes, and the guards it passed. */
  lemma OpenWrites(w: LevWorld, owner: Owner, outcome: u8, collateral: u64, leverage: u16, now: i64)
    returns (position: LevPosition, maxGain: u64)
    requires DoOpen(w, owner, outcome, collateral, leverage, now).Ok?
    ensures owner !in w.positions && owner in w.wallets && outcome < 3 && w.pool.markTs > 0
    ensures position.outcomeIdx == outcome && !position.settled && position.collateral == collateral > 0
    ensures position.entryMarkBps == w.pool.markBps[outcome]
    ensures position.fundingIndexSnap == w.pool.cumFundingIndex[outcome] && position.leverage == leverage
    ensures position.openTs == now
    ensures UnitsFor(collateral, leverage, position.entryMarkBps) == Done(position.units)
    ensures MaxGain(position.units, position.entryMarkBps) == Done(maxGain)
    ensures IsFloor(position.units, position.notional * 10_000, position.entryMarkBps)
    ensures IsFloor(maxGain, position.units * (10_000 - position.entryMarkBps), 10_000)
    ensures position.notional as int == collateral * leverage
    ensures CoverageOk(w.vault, w.params.minCoverageBps, w.pool.totalMaxPayout, maxGain)
    ensures w.pool.openInterest + position.notional <= w.params.maxOpenInterest
    ensures DoOpen(w, owner, outcome, collateral, leverage, now).value == w.(
      vault := w.vault + collateral, wallets := w.wallets[owner := w.wallets[owner] - collateral],
      positions := w.positions[owner := position],
      pool := w.pool.(openInterest := w.pool.openInterest + position.notional,
                      totalMaxPayout := w.pool.totalMaxPayout + maxGain))
  {
    hide UnitsFor, MaxGain, MaxLeverageForP, IsFloor;
    position := DoOpen(w, owner, outcome, collateral, leverage, now).value.positions[owner];
    maxGain := MaxGain(position.units, position.entryMarkBps).value;
    UnitsAre(collateral, leverage, position.entryMarkBps);
    GainIs(position.units, position.entryMarkBps);
  }

  /** An opening keeps the books exact, and uses up backing to the amount of its booked gain. */
  lemma OpenEffect(w: LevWorld, owner: Owner, outcome: u8, collateral: u64, leverage: u16, now: i64)
    requires Books(w) && DoOpen(w, owner, outcome, collateral, leverage, now).Ok?
    ensures var w' := DoOpen(w, owner, outcome, collateral, leverage, now).value;
      && owner in w'.positions && Books(w') && AllUsdt(w') == AllUsdt(w)
      && Backing(w') == Backing(w) - GainOf(w'.positions[owner])
      && w'.pool.openInterest <= w.params.maxOpenInterest
      && CoverageOk(w.vault, w.params.minCoverageBps, w.pool.totalMaxPayout, GainOf(w'.positions[owner]))
      && w'.lps == w.lps && w'.pool.totalShares == w.pool.totalShares
  {
    hide DoOpen, UnitsFor, MaxGain, CoverageOk, IsFloor;
    var position, maxGain := OpenWrites(w, owner, outcome, collateral, leverage, now);
    var w' := DoOpen(w, owner, outcome, collateral, leverage, now).value;
    PositionAdded(w.positions, owner, position);
    WalletsMove(w, w', owner);
  }

  // -------------------------------------------------------------- settlements

  /** Any settlement pays at most the position's claim. */
  lemma SettlementIsClaimed(w: LevWorld, position: LevPosition, now: i64, isExpire: bool)
    requires WellBooked(position, w.pool.cumFundingIndex) && ComputeSettlement(w, position, now, isExpire).Ok?
    requires w.pool.markTs > 0 ==> forall i :: 0 <= i < 3 ==> IsEntryMark(w.pool.markBps[i])
    ensures ComputeSettlement(w, position, now, isExpire).value.payout <= position.collateral + GainOf(position)
  {
    hide Pnl, FundingAccrued, MaxGain, SettlePayout, UnitsFor;
    var idx := position.outcomeIdx;
    var funding := FundingAccrued(position.notional, w.pool.cumFundingIndex[idx], position.fundingIndexSnap).value;
    var zero: u16, one: u16 := 0, BPS_DENOM;
    PaysAtMostClaim(position, zero, funding);
    PaysAtMostClaim(position, one, funding);
    PaysAtMostClaim(position, w.pool.markBps[idx], funding);
    VoidPaysAtMostCollateral(position.collateral, funding);
  }

  lemma PaysAtMostClaim(position: LevPosition, p: u16, funding: u64)
    requires IsEntryMark(position.entryMarkBps)
    ensures SettleAt(position, p, funding, 0).Ok? ==>
      SettleAt(position, p, funding, 0).value.payout <= position.collateral + GainOf(position)
  {
    if Pnl(position.units, position.entryMarkBps, p).Done? {
      PayoutIsBooked(position.units, position.entryMarkBps, p, position.collateral, funding);
    }
  }

  lemma VoidPaysAtMostCollateral(collateral: u64, funding: u64)
    ensures SettlePayout(collateral, 0, funding) <= collateral
  {
  }

  lemma BookedGain(w: LevWorld, owner: Owner)
    requires Books(w) && owner in w.positions
    ensures MaxGain(w.positions[owner].units, w.positions[owner].entryMarkBps) == Done(GainOf(w.positions[owner]))
  {
    assert WellBooked(w.positions[owner], w.pool.cumFundingIndex);
  }

  /** Releasing a position at no more than its claim keeps the books exact (no subtraction saturates) and
      never lowers the backing of the others. */
  lemma ReleaseEffect(w: LevWorld, owner: Owner, payout: u64)
    requires Books(w) && owner in w.positions && owner in w.wallets && Release(w, owner, payout).Ok?
    requires payout <= w.positions[owner].collateral + GainOf(w.positions[owner])
    ensures var w' := Release(w, owner, payout).value;
      && Books(w') && AllUsdt(w') == AllUsdt(w) && Backing(w') >= Backing(w)
      && w'.positions == w.positions - {owner} && w'.lps == w.lps && w'.market == w.market
      && w'.pool.openInterest as int == w.pool.openInterest - w.positions[owner].notional
      && w'.pool.totalMaxPayout as int == w.pool.totalMaxPayout - GainOf(w.positions[owner])
      && w'.pool.totalShares == w.pool.totalShares && w'.pool.cumFundingIndex == w.pool.cumFundingIndex
      && w'.wallets.Keys == w.wallets.Keys
  {
    hide MaxGain, WellBooked, GainOf;
    BookedGain(w, owner);
    var w' := Release(w, owner, payout).value;
    PositionRemoved(w.positions, owner);
    if payout > 0 {
      WalletsMove(w, w', owner);
    }
  }

  // -------------------------------------------------------------------- marks

  lemma AccruedGrows(w: LevWorld, i: nat, now: i64)
    requires i < 3 && now >= w.pool.lastFundingTs
    ensures Accrued(w, i, now).Ok? ==> Accrued(w, i, now).value >= w.pool.cumFundingIndex[i]
  {
    hide IdxDelta;
  }

  /** The funding index of every outcome only grows. */
  lemma PostMarkEffect(w: LevWorld, marks: Marks, now: i64)
    requires Books(w) && DoPostMark(w, marks, now).Ok?
    ensures var w' := DoPostMark(w, marks, now).value;
      && Books(w') && AllUsdt(w') == AllUsdt(w) && Backing(w') == Backing(w)
      && (forall i :: 0 <= i < 3 ==> w.pool.cumFundingIndex[i] <= w'.pool.cumFundingIndex[i])
      && w'.lps == w.lps && w'.positions == w.positions && w'.vault == w.vault
  {
    hide Accrued, UnitsFor;
    var w' := DoPostMark(w, marks, now).value;
    if w.pool.markTs > 0 && now >= w.pool.lastFundingTs {
      AccruedGrows(w, 0, now);
      AccruedGrows(w, 1, now);
      AccruedGrows(w, 2, now);
    }
    forall o | o in w'.positions ensures WellBooked(w'.positions[o], w'.pool.cumFundingIndex) {
      assert WellBooked(w.positions[o], w.pool.cumFundingIndex);
    }
  }

  // ----------------------------------------------------------------------- LP

  lemma DepositWrites(w: LevWorld, owner: Owner, amount: u64) returns (shares: u64)
    requires DoDeposit(w, owner, amount).Ok?
    ensures owner in w.lps && owner in w.wallets && amount > 0 && shares > 0
    ensures SharesForDeposit(amount, w.pool.totalShares, w.vault) == Done(shares)
    ensures AreSharesFor(shares, amount, w.pool.totalShares, w.vault)
    ensures amount <= w.wallets[owner] && w.vault + amount < TWO64
    ensures w.pool.totalShares + shares < TWO64 && w.lps[owner].shares + shares < TWO64
    ensures DoDeposit(w, owner, amount).value == w.(
      vault := w.vault + amount, wallets := w.wallets[owner := w.wallets[owner] - amount],
      pool := w.pool.(totalShares := w.pool.totalShares + shares),
      lps := w.lps[owner := w.lps[owner].(shares := w.lps[owner].shares + shares)])
  {
    hide SharesForDeposit, AreSharesFor;
    shares := SharesForDeposit(amount, w.pool.totalShares, w.vault).value;
    SharesAre(amount, w.pool.totalShares, w.vault);
  }

  /** A deposit mints its part of the vault as it was before it, and never lowers the price of a share. */
  lemma DepositEffect(w: LevWorld, owner: Owner, amount: u64)
    requires Books(w) && DoDeposit(w, owner, amount).Ok?
    ensures var w' := DoDeposit(w, owner, amount).value;
      && owner in w.lps && owner in w'.lps
      && AreSharesFor(w'.lps[owner].shares - w.lps[owner].shares, amount, w.pool.totalShares, w.vault)
      && w'.pool.totalShares - w.pool.totalShares == w'.lps[owner].shares - w.lps[owner].shares
      && Books(w') && AllUsdt(w') == AllUsdt(w) && Backing(w') == Backing(w) + amount
      && w'.vault == w.vault + amount
      && (w.pool.totalShares > 0 ==> w'.vault * w.pool.totalShares >= w.vault * w'.pool.totalShares)
      && w'.pool.totalShares > w.pool.totalShares && w'.positions == w.positions
      && w'.pool.cumFundingIndex == w.pool.cumFundingIndex
  {
    hide DoDeposit, SharesForDeposit, WellBooked, AreSharesFor;
    var shares := DepositWrites(w, owner, amount);
    var w' := DoDeposit(w, owner, amount).value;
    LpUpdated(w.lps, owner, w'.lps[owner]);
    WalletsMove(w, w', owner);
    if w.pool.totalShares > 0 {
      DepositKeepsPrice(amount, shares, w.pool.totalShares, w.vault);
    }
  }

  lemma RequestEffect(w: LevWorld, owner: Owner, shares: u64, now: i64)
    requires Books(w) && DoRequest(w, owner, shares, now).Ok?
    ensures var w' := DoRequest(w, owner, shares, now).value;
      && owner in w.lps && w'.lps == w.lps[owner := w.lps[owner].(
           pendingShares := w.lps[owner].pendingShares + shares, unlockTs := now + 3_600)]
      && Books(w') && w'.vault == w.vault && w'.wallets == w.wallets && w'.positions == w.positions
      && w'.pool.totalShares == w.pool.totalShares && w'.pool.cumFundingIndex == w.pool.cumFundingIndex
  {
    hide ValueForShares, CoverageOk, WellBooked;
    var w' := DoRequest(w, owner, shares, now).value;
    LpUpdated(w.lps, owner, w'.lps[owner]);
    assert w'.lps == w.lps[owner := w'.lps[owner]];
  }

  lemma WithdrawWrites(w: LevWorld, owner: Owner, now: i64) returns (pending: u64, value: u64)
    requires DoWithdraw(w, owner, now).Ok?
    ensures owner in w.lps && owner in w.wallets && pending == w.lps[owner].pendingShares > 0
    ensures ValueForShares(pending, w.pool.totalShares, w.vault) == Done(value)
    ensures IsFloor(value, pending * w.vault, w.pool.totalShares)
    ensures pending <= w.pool.totalShares && pending <= w.lps[owner].shares && pending <= w.pool.pendingWithdrawShares
    ensures value <= w.vault && w.wallets[owner] + value < TWO64
    ensures DoWithdraw(w, owner, now).value == w.(
      vault := w.vault - value, wallets := w.wallets[owner := w.wallets[owner] + value],
      pool := w.pool.(totalShares := w.pool.totalShares - pending,
                      pendingWithdrawShares := w.pool.pendingWithdrawShares - pending),
      lps := w.lps[owner := w.lps[owner].(shares := w.lps[owner].shares - pending, pendingShares := 0)])
  {
    hide ValueForShares, IsFloor;
    ValueIs(w.lps[owner].pendingShares, w.pool.totalShares, w.vault);
    pending := w.lps[owner].pendingShares;
    value := ValueForShares(pending, w.pool.totalShares, w.vault).value;
    assert w.wallets == w.wallets[owner := w.wallets[owner]];
  }

  /** A withdrawal burns the pending shares for their part of the vault, and leaves the price of the remaining
      shares at least where it was. */
  lemma WithdrawEffect(w: LevWorld, owner: Owner, now: i64)
    requires Books(w) && DoWithdraw(w, owner, now).Ok?
    ensures var w' := DoWithdraw(w, owner, now).value;
      && owner in w.lps && owner in w'.lps
      && IsFloor(w.vault - w'.vault, w.lps[owner].pendingShares * w.vault, w.pool.totalShares)
      && w'.lps[owner].shares as int == w.lps[owner].shares - w.lps[owner].pendingShares
      && w'.lps[owner].pendingShares == 0
      && Books(w') && AllUsdt(w') == AllUsdt(w) && w'.vault <= w.vault
      && Backing(w') == Backing(w) - (w.vault - w'.vault)
      && w'.vault * w.pool.totalShares >= w.vault * w'.pool.totalShares
      && w'.positions == w.positions && w'.pool.cumFundingIndex == w.pool.cumFundingIndex
  {
    hide DoWithdraw, ValueForShares, WellBooked, IsFloor;
    var pending, value := WithdrawWrites(w, owner, now);
    var w' := DoWithdraw(w, owner, now).value;
    LpUpdated(w.lps, owner, w'.lps[owner]);
    WithdrawKeepsPrice(pending, value, w.pool.totalShares, w.vault);
    WalletsMove(w, w', owner);
  }

  /** A pending withdrawal past its delay always goes through: the shares and the money are there. */
  lemma WithdrawSucceeds(w: LevWorld, owner: Owner, now: i64)
    requires Books(w) && AllUsdt(w) < TWO64 && owner in w.lps && owner in w.wallets
    requires w.lps[owner].pendingShares > 0 && now >= w.lps[owner].unlockTs
    ensures DoWithdraw(w, owner, now).Ok?
  {
    hide ValueForShares, WellBooked;
    TotalAtLeast(SharesOf(w.lps), owner);
    TotalAtLeast(PendingOf(w.lps), owner);
    TotalAtLeast(w.wallets, owner);
    ValueFits(w.lps[owner].pendingShares, w.pool.totalShares, w.vault);
  }

  lemma ValueFits(shares: u64, totalShares: u64, vault: u64)
    requires shares <= totalShares && totalShares > 0
    ensures ValueForShares(shares, totalShares, vault).Done?
    ensures ValueForShares(shares, totalShares, vault).value <= vault
  {
    MulMono(shares, totalShares, vault);
    DivAtMost(shares * vault, totalShares, vault);
  }
}
