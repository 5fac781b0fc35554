/** The leverage pool over whole runs: every position can be settled in any order out of the vault, dead
    positions stay dead, and LPs never dilute each other.
    */
module PoolRuns {
  import opened Machine
  import opened Funding
  import opened FundingLaws
  import opened Sums
  import opened Resolution
  import opened Pool
  import opened PoolLaws
  import Spot

  // ------------------------------------------------------------ books, backing

  /** A settlement, by its owner or by a crank: how the world changes. */
  lemma SettleEffect(w: LevWorld, a: LevAction)
    requires Books(w) && (a.CloseLeverage? || a.ExpirePosition?) && Step(w, a).Ok?
    ensures var w' := Step(w, a).value;
      && Books(w') && AllUsdt(w') == AllUsdt(w) && Backing(w') >= Backing(w)
      && w'.pool.cumFundingIndex == w.pool.cumFundingIndex
  {
    hide ComputeSettlement, Release, Books, Backing, AllUsdt, WellBooked;
    PositionIsBooked(w, a.owner);
    SettlementIsClaimed(w, w.positions[a.owner], a.now, a.ExpirePosition?);
    ReleaseEffect(w, a.owner, ComputeSettlement(w, w.positions[a.owner], a.now, a.ExpirePosition?).value.payout);
  }

  lemma PositionIsBooked(w: LevWorld, owner: Owner)
    requires Books(w)
    ensures owner in w.positions ==> WellBooked(w.positions[owner], w.pool.cumFundingIndex)
    ensures w.pool.markTs > 0 ==> forall i :: 0 <= i < 3 ==> IsEntryMark(w.pool.markBps[i])
  {
  }

  lemma OpenLpEffect(w: LevWorld, owner: Owner)
    requires Books(w) && DoOpenLp(w, owner).Ok?
    ensures Books(DoOpenLp(w, owner).value)
  {
    LpUpdated(w.lps, owner, LpAccount(0, 0, 0));
  }

  /** Every step keeps the books and the money, and only an opening or a withdrawal lowers the backing. */
  lemma StepKeepsBooks(w: LevWorld, a: LevAction)
    requires Books(w)
    ensures var w' := Apply(w, a);
      && Books(w') && AllUsdt(w') == AllUsdt(w)
      && (!a.OpenLeverage? && !a.WithdrawLp? ==> Backing(w') >= Backing(w))
      && forall i :: 0 <= i < 3 ==> w.pool.cumFundingIndex[i] <= w'.pool.cumFundingIndex[i]
  {
    hide DoOpen, DoClose, DoExpire, DoPostMark, DoDeposit, DoRequest, DoWithdraw, WellBooked;
    if Step(w, a).Ok? {
      match a
      case OpenLeverage(owner, outcome, collateral, leverage, now) =>
        OpenEffect(w, owner, outcome, collateral, leverage, now);
        OpenKeepsIndexes(w, owner, outcome, collateral, leverage, now);
      case CloseLeverage(owner, now) => SettleEffect(w, a);
      case ExpirePosition(owner, now) => SettleEffect(w, a);
      case PostMark(marks, now) => PostMarkEffect(w, marks, now);
      case SetRiskValve(pause, multiplier, window, now) =>
      case OpenLpAccount(owner) => OpenLpEffect(w, owner);
      case DepositLp(owner, amount) => DepositEffect(w, owner, amount);
      case RequestWithdraw(owner, shares, now) => RequestEffect(w, owner, shares, now);
      case WithdrawLp(owner, now) => WithdrawEffect(w, owner, now);
      case UpdateLeverageParams(params) =>
      case MarketMoves(market) =>
    }
  }

  lemma OpenKeepsIndexes(w: LevWorld, owner: Owner, outcome: u8, collateral: u64, leverage: u16, now: i64)
    requires DoOpen(w, owner, outcome, collateral, leverage, now).Ok?
    ensures DoOpen(w, owner, outcome, collateral, leverage, now).value.pool.cumFundingIndex == w.pool.cumFundingIndex
  {
    hide UnitsFor, MaxGain, MaxLeverageForP;
  }

  /** Over every run: open interest, booked payouts, shares and pending shares are the exact sums over the
      live accounts (so no saturating subtraction ever saturates), and no USDT appears or vanishes. */
  lemma {:induction false} RunKeepsBooks(w: LevWorld, actions: seq<LevAction>)
    requires Books(w)
    ensures Books(Run(w, actions)) && AllUsdt(Run(w, actions)) == AllUsdt(w)
    ensures forall i :: 0 <= i < 3 ==> w.pool.cumFundingIndex[i] <= Run(w, actions).pool.cumFundingIndex[i]
    decreases |actions|
  {
    hide Apply, Books, AllUsdt;
    if actions != [] {
      StepKeepsBooks(w, actions[0]);
      RunKeepsBooks(Apply(w, actions[0]), actions[1..]);
    }
  }

  /** Without openings and withdrawals the backing never falls. */
  lemma {:induction false} RunKeepsBacking(w: LevWorld, actions: seq<LevAction>)
    requires Books(w) && forall i :: 0 <= i < |actions| ==> !actions[i].OpenLeverage? && !actions[i].WithdrawLp?
    ensures Backing(Run(w, actions)) >= Backing(w)
    decreases |actions|
  {
    hide Apply, Books, Backing;
    if actions != [] {
      StepKeepsBooks(w, actions[0]);
      RunKeepsBacking(Apply(w, actions[0]), actions[1..]);
    }
  }

  lemma InitIsBooked(params: LeverageParams, market: MarketView, wallets: map<Owner, u64>)
    requires InitPool(params, market, wallets).Ok?
    ensures Books(InitPool(params, market, wallets).value) && Backing(InitPool(params, market, wallets).value) == 0
  {
    var ps: map<Owner, LevPosition>, lps: map<Owner, LpAccount> := map[], map[];
    assert NotionalOf(ps) == map[] && GainsOf(ps) == map[] && ClaimsOf(ps) == map[];
    assert SharesOf(lps) == map[] && PendingOf(lps) == map[];
  }

  // -------------------------------------------------------------- settlement

  /** With a nonnegative backing a position closes exactly when its settlement can be computed: the vault
      is never short. */
  lemma ClosesExactlyWhen(w: LevWorld, owner: Owner, now: i64)
    requires Books(w) && AllUsdt(w) < TWO64 && Backing(w) >= 0 && owner in w.positions && owner in w.wallets
    ensures w.positions[owner].outcomeIdx < 3
    ensures DoClose(w, owner, now).Ok? <==> ComputeSettlement(w, w.positions[owner], now, false).Ok?
  {
    hide ComputeSettlement, WellBooked, GainOf, MaxGain;
    var position := w.positions[owner];
    assert position.outcomeIdx < 3 by { BookedIndex(w, owner); }
    if ComputeSettlement(w, position, now, false).Ok? {
      PositionIsBooked(w, owner);
      SettlementIsClaimed(w, position, now, false);
      BookedGain(w, owner);
      PositionRemoved(w.positions, owner);
      TotalAtLeast(w.wallets, owner);
    }
  }

  lemma BookedIndex(w: LevWorld, owner: Owner)
    requires Books(w) && owner in w.positions
    ensures w.positions[owner].outcomeIdx < 3
  {
    assert WellBooked(w.positions[owner], w.pool.cumFundingIndex);
  }

  /** After resolution to a real outcome the only obstacle is size: the funding must fit, and so must the gain
      booked at the opening if the position won, or its notional if it lost. */
  lemma ResolvedSettlesExactlyWhen(w: LevWorld, position: LevPosition, now: i64)
    requires WellBooked(position, w.pool.cumFundingIndex) && w.market.state == Spot.Resolved
    requires w.market.outcome in {Team1, Draw, Team2}
    ensures var win := if w.market.outcome == Team1 then 0 else if w.market.outcome == Draw then 1 else 2;
      ComputeSettlement(w, position, now, false).Ok? <==>
        && FundingAccrued(position.notional, w.pool.cumFundingIndex[position.outcomeIdx], position.fundingIndexSnap).Done?
        && (if position.outcomeIdx == win then GainOf(position) < TWO63
            else position.units * position.entryMarkBps <= TWO63 * BPS_DENOM)
  {
    hide Pnl, FundingAccrued, UnitsFor;
    var one: u16, zero: u16 := BPS_DENOM, 0;
    SettlesExactlyWhen(position.units, position.entryMarkBps, one, zero);
  }

  function Closes(owners: seq<Owner>, now: i64): (actions: seq<LevAction>)
    ensures |actions| == |owners|
  {
    if owners == [] then [] else [CloseLeverage(owners[0], now)] + Closes(owners[1..], now)
  }

  ghost predicate Settleable(w: LevWorld, o: Owner, now: i64) {
    && o in w.positions && o in w.wallets && w.positions[o].outcomeIdx < 3
    && ComputeSettlement(w, w.positions[o], now, false).Ok?
  }

  function PayoutTo(w: LevWorld, o: Owner, now: i64): int {
    if o in w.positions && w.positions[o].outcomeIdx < 3 then
      var s := ComputeSettlement(w, w.positions[o], now, false);
      if s.Ok? then s.value.payout else 0
    else 0
  }

  /** `o` was settled and paid, and has no position any more. */
  ghost predicate PaidOut(w: LevWorld, w': LevWorld, o: Owner, now: i64) {
    && o !in w'.positions && o in w.wallets && o in w'.wallets
    && w'.wallets[o] as int == w.wallets[o] + PayoutTo(w, o, now)
  }

  ghost predicate Untouched(w: LevWorld, w': LevWorld, o: Owner) {
    && (o in w.positions ==> o in w'.positions && w'.positions[o] == w.positions[o])
    && (o !in w.positions ==> o !in w'.positions)
    && (o in w.wallets ==> o in w'.wallets && w'.wallets[o] == w.wallets[o])
  }

  /** Closing pays exactly the settlement, removes the position, and changes nothing a later settlement
      looks at. */
  lemma CloseEffect(w: LevWorld, owner: Owner, now: i64)
    requires Settleable(w, owner, now) && DoClose(w, owner, now).Ok?
    ensures var w' := DoClose(w, owner, now).value;
      && w'.positions == w.positions - {owner} && w'.wallets.Keys == w.wallets.Keys
      && w'.wallets[owner] as int == w.wallets[owner] + PayoutTo(w, owner, now)
      && (forall o :: o in w.wallets && o != owner ==> w'.wallets[o] == w.wallets[o])
      && SameView(w, w')
  {
    hide ComputeSettlement, MaxGain;
  }

  /** The fields a settlement reads. */
  ghost predicate SameView(w: LevWorld, w': LevWorld) {
    && w'.market == w.market && w'.params == w.params && w'.pool.cumFundingIndex == w.pool.cumFundingIndex
    && w'.pool.markTs == w.pool.markTs && w'.pool.markBps == w.pool.markBps
  }

  lemma SettlesAlike(w: LevWorld, w': LevWorld, o: Owner, now: i64)
    requires SameView(w, w') && Settleable(w, o, now) && o in w'.wallets
    requires o in w'.positions && w'.positions[o] == w.positions[o]
    ensures Settleable(w', o, now) && PayoutTo(w', o, now) == PayoutTo(w, o, now)
  {
    hide Pnl, FundingAccrued, SettlePayout;
  }

  /** Any set of positions that can settle do so in any order: no transfer fails, and each owner is paid the
      settlement computed at the start. */
  lemma {:induction false} CloseInAnyOrder(w: LevWorld, owners: seq<Owner>, now: i64)
    requires Books(w) && AllUsdt(w) < TWO64 && Backing(w) >= 0 && Distinct(owners)
    requires forall o :: o in owners ==> Settleable(w, o, now)
    ensures var w' := Run(w, Closes(owners, now));
      && (forall o :: o in owners ==> PaidOut(w, w', o, now))
      && (forall o :: o !in owners ==> Untouched(w, w', o))
      && Backing(w') >= Backing(w)
    decreases |owners|
  {
    hide Apply, Books, Backing, AllUsdt, Settleable, PayoutTo, SameView;
    if owners != [] {
      var first, rest := owners[0], owners[1..];
      assert first in owners && first !in rest && forall o :: o in rest ==> o in owners;
      var w1 := FirstClose(w, first, now);
      assert Closes(owners, now)[0] == CloseLeverage(first, now) && Closes(owners, now)[1..] == Closes(rest, now);
      forall o | o in rest ensures Settleable(w1, o, now) && PayoutTo(w1, o, now) == PayoutTo(w, o, now) {
        StillSettleable(w, w1, first, o, now);
      }
      CloseInAnyOrder(w1, rest, now);
      var w' := Run(w1, Closes(rest, now));
      forall o | o in owners ensures PaidOut(w, w', o, now) {
        if o != first { assert o in rest && PaidOut(w1, w', o, now); }
        else { assert Untouched(w1, w', o); }
      }
      forall o | o !in owners ensures Untouched(w, w', o) {
        assert Untouched(w1, w', o);
      }
    }
  }

  lemma FirstClose(w: LevWorld, owner: Owner, now: i64) returns (w': LevWorld)
    requires Books(w) && AllUsdt(w) < TWO64 && Backing(w) >= 0 && Settleable(w, owner, now)
    ensures w' == Apply(w, CloseLeverage(owner, now))
    ensures Books(w') && AllUsdt(w') < TWO64 && Backing(w') >= Backing(w) && SameView(w, w')
    ensures w'.positions == w.positions - {owner} && w'.wallets.Keys == w.wallets.Keys && owner in w.wallets
    ensures w'.wallets[owner] as int == w.wallets[owner] + PayoutTo(w, owner, now)
    ensures forall o :: o in w.wallets && o != owner ==> w'.wallets[o] == w.wallets[o]
  {
    hide DoClose, Books, Backing, AllUsdt, SameView, PayoutTo, ComputeSettlement;
    ClosesExactlyWhen(w, owner, now);
    CloseEffect(w, owner, now);
    SettleEffect(w, CloseLeverage(owner, now));
    w' := Apply(w, CloseLeverage(owner, now));
  }

  lemma StillSettleable(w: LevWorld, w1: LevWorld, first: Owner, o: Owner, now: i64)
    requires SameView(w, w1) && Settleable(w, o, now) && o != first
    requires w1.positions == w.positions - {first} && w1.wallets.Keys == w.wallets.Keys
    ensures Settleable(w1, o, now) && PayoutTo(w1, o, now) == PayoutTo(w, o, now)
  {
    hide ComputeSettlement;
    SettlesAlike(w, w1, o, now);
  }

  // ---------------------------------------------------------------- fee death

  function FundingOf(w: LevWorld, position: LevPosition): Computed<u64>
    requires position.outcomeIdx < 3
  {
    FundingAccrued(position.notional, w.pool.cumFundingIndex[position.outcomeIdx], position.fundingIndexSnap)
  }

  /** A position whose funding has eaten its collateral stays so for as long as it lives, until the amount no
      longer fits 64 bits. */
  lemma FeeDeathIsPermanent(w: LevWorld, actions: seq<LevAction>, owner: Owner)
    requires Books(w) && owner in w.positions && w.positions[owner].outcomeIdx < 3
    requires owner in Run(w, actions).positions && Run(w, actions).positions[owner] == w.positions[owner]
    requires var f := FundingOf(w, w.positions[owner]); f.Done? ==> f.value >= w.positions[owner].collateral
    ensures var f := FundingOf(Run(w, actions), w.positions[owner]);
      !f.Domain? && (f.Done? ==> FundingOf(w, w.positions[owner]).Done? && f.value >= w.positions[owner].collateral)
  {
    hide Run;
    RunKeepsBooks(w, actions);
    BookedIndex(w, owner);
    var p := w.positions[owner];
    var snap, before, after := p.fundingIndexSnap, w.pool.cumFundingIndex[p.outcomeIdx], Run(w, actions).pool.cumFundingIndex[p.outcomeIdx];
    assert snap <= before by { PositionIsBooked(w, owner); }
    if FundingAccrued(p.notional, after, snap).Done? {
      FundingAddsUp(p.notional, snap, before, after);
      FundingMonotone(p.notional, snap, before, after);
    }
  }

  /** A position whose funding does not fit 64 bits any more can be neither closed nor expired, whatever the
      mark or the outcome. */
  lemma OversizedFundingBlocks(w: LevWorld, owner: Owner, now: i64)
    requires owner in w.positions && w.positions[owner].outcomeIdx < 3 && !FundingOf(w, w.positions[owner]).Done?
    ensures DoClose(w, owner, now).Err? && DoExpire(w, owner, now).Err?
  {
    hide FundingAccrued;
  }

  lemma OtherStepsKeepPosition(w: LevWorld, a: LevAction, owner: Owner)
    requires owner in w.positions && (Step(w, a).Ok? ==> a != CloseLeverage(owner, Clock(a)) && a != ExpirePosition(owner, Clock(a)))
    ensures owner in Apply(w, a).positions && Apply(w, a).positions[owner] == w.positions[owner]
  {
    hide OpenGuards, UnitsFor, MaxGain, CoverageOk, ComputeSettlement, SharesForDeposit, ValueForShares, Accrued;
  }

  function Clock(a: LevAction): i64 {
    if a.CloseLeverage? || a.ExpirePosition? then a.now else 0
  }

  /** And it stays so for good: over every run the position is still there, as it was, and still blocked. */
  lemma {:induction false} OversizedFundingIsForGood(w: LevWorld, actions: seq<LevAction>, owner: Owner, now: i64)
    requires Books(w) && owner in w.positions && w.positions[owner].outcomeIdx < 3
    requires !FundingOf(w, w.positions[owner]).Done?
    ensures var w' := Run(w, actions);
      && owner in w'.positions && w'.positions[owner] == w.positions[owner]
      && DoClose(w', owner, now).Err? && DoExpire(w', owner, now).Err?
    decreases |actions|
  {
    hide Apply, Books, FundingAccrued;
    if actions == [] {
      OversizedFundingBlocks(w, owner, now);
    } else {
      var a := actions[0];
      OversizedFundingBlocks(w, owner, Clock(a));
      OtherStepsKeepPosition(w, a, owner);
      StepKeepsBooks(w, a);
      OversizedStays(w, Apply(w, a), owner);
      OversizedFundingIsForGood(Apply(w, a), actions[1..], owner, now);
    }
  }

  lemma OversizedStays(w: LevWorld, w': LevWorld, owner: Owner)
    requires Books(w) && owner in w.positions && w.positions[owner].outcomeIdx < 3
    requires owner in w'.positions && w'.positions[owner] == w.positions[owner]
    requires forall i :: 0 <= i < 3 ==> w.pool.cumFundingIndex[i] <= w'.pool.cumFundingIndex[i]
    requires !FundingOf(w, w.positions[owner]).Done?
    ensures !FundingOf(w', w.positions[owner]).Done?
  {
    hide FundingAccrued;
    var p := w.positions[owner];
    PositionIsBooked(w, owner);
    var before, after := w.pool.cumFundingIndex[p.outcomeIdx], w'.pool.cumFundingIndex[p.outcomeIdx];
    if FundingAccrued(p.notional, after, p.fundingIndexSnap).Done? {
      FundingAddsUp(p.notional, p.fundingIndexSnap, before, after);
      assert false;
    }
  }

  // --------------------------------------------------------------- share price

  predicate IsLpAction(a: LevAction) {
    a.OpenLpAccount? || a.DepositLp? || a.RequestWithdraw? || a.WithdrawLp?
  }

  /** The pool never runs out of shares along the run. */
  ghost predicate StaysOpen(w: LevWorld, actions: seq<LevAction>)
    decreases |actions|
  {
    w.pool.totalShares > 0 && (actions == [] || StaysOpen(Apply(w, actions[0]), actions[1..]))
  }

  lemma LpStepKeepsPrice(w: LevWorld, a: LevAction)
    requires Books(w) && IsLpAction(a) && w.pool.totalShares > 0
    ensures Apply(w, a).vault * w.pool.totalShares >= w.vault * Apply(w, a).pool.totalShares
  {
    hide DoDeposit, DoRequest, DoWithdraw, Books;
    if Step(w, a).Ok? {
      match a
      case OpenLpAccount(owner) =>
      case DepositLp(owner, amount) => DepositEffect(w, owner, amount);
      case RequestWithdraw(owner, shares, now) => RequestEffect(w, owner, shares, now);
      case WithdrawLp(owner, now) => WithdrawEffect(w, owner, now);
    }
  }

  /** Over any interleaving of deposits, requests and withdrawals by any LPs the value of a share never
      falls (cross-multiplied). */
  lemma {:induction false} RunKeepsSharePrice(w: LevWorld, actions: seq<LevAction>)
    requires Books(w) && StaysOpen(w, actions) && forall i :: 0 <= i < |actions| ==> IsLpAction(actions[i])
    ensures Run(w, actions).vault * w.pool.totalShares >= w.vault * Run(w, actions).pool.totalShares
    decreases |actions|
  {
    hide Apply, Books;
    if actions != [] {
      var w1 := Apply(w, actions[0]);
      LpStepKeepsPrice(w, actions[0]);
      StepKeepsBooks(w, actions[0]);
      RunKeepsSharePrice(w1, actions[1..]);
      var w2 := Run(w1, actions[1..]);
      Chain(w.vault, w.pool.totalShares, w1.vault, w1.pool.totalShares, w2.vault, w2.pool.totalShares);
    }
  }

  lemma Chain(v: nat, t: nat, v1: nat, t1: nat, v2: nat, t2: nat)
    requires t > 0 && t1 > 0 && v1 * t >= v * t1 && v2 * t1 >= v1 * t2
    ensures v2 * t >= v * t2
  {
    MulMono(v * t1, v1 * t, t2);
    MulMono(v1 * t2, v2 * t1, t);
    assert v * t2 * t1 <= v2 * t * t1;
    if v2 * t < v * t2 { MulMono(v2 * t + 1, v * t2, t1); }
  }

  // ------------------------------------------------------- coverage and backing

  ghost function CollateralOf(ps: map<Owner, LevPosition>): map<Owner, int> {
    map o | o in ps :: ps[o].collateral
  }

  /** The gain an opening at the posted mark would book. */
  function GainAtOpen(w: LevWorld, outcome: u8, collateral: u64, leverage: u16): (gain: nat) {
    if outcome >= 3 then 0
    else
      var entry := w.pool.markBps[outcome];
      var units := UnitsFor(collateral, leverage, entry);
      if units.Done? then MaxGain(units.value, entry).value else 0
  }

  /** What an opening needs to keep every claim payable, all known before it: the vault without the traders'
      collateral must cover the gains booked and the one to book. The coverage guard weighs the gains
      against the whole vault instead. */
  lemma OpenKeepsBackingExactlyWhen(w: LevWorld, owner: Owner, outcome: u8, collateral: u64, leverage: u16, now: i64)
    requires Books(w) && DoOpen(w, owner, outcome, collateral, leverage, now).Ok?
    ensures Backing(DoOpen(w, owner, outcome, collateral, leverage, now).value) >= 0 <==>
      w.vault - Total(CollateralOf(w.positions)) >= w.pool.totalMaxPayout + GainAtOpen(w, outcome, collateral, leverage)
  {
    hide DoOpen, Books, MaxGain, UnitsFor;
    var w' := DoOpen(w, owner, outcome, collateral, leverage, now).value;
    OpenEffect(w, owner, outcome, collateral, leverage, now);
    var position, maxGain := OpenWrites(w, owner, outcome, collateral, leverage, now);
    BooksGains(w);
    ClaimsSplit(w.positions);
  }

  lemma BooksGains(w: LevWorld)
    requires Books(w)
    ensures w.pool.totalMaxPayout == Total(GainsOf(w.positions))
  {
  }

  lemma {:induction false} ClaimsSplit(ps: map<Owner, LevPosition>)
    ensures Total(ClaimsOf(ps)) == Total(CollateralOf(ps)) + Total(GainsOf(ps))
    decreases |ps|
  {
    if ps == map[] {
      assert ClaimsOf(ps) == map[] && CollateralOf(ps) == map[] && GainsOf(ps) == map[];
    } else {
      var o :| o in ps;
      PositionRemoved(ps, o);
      assert CollateralOf(ps - {o}) == CollateralOf(ps) - {o};
      TotalSplit(CollateralOf(ps), o);
      ClaimsSplit(ps - {o});
    }
  }
}
