/** Two runs of the leverage pool, from its creation, that end where nobody wants to be: a vault short of its
    claims, and a winning position that can never be settled.
    */
module PoolExamples {
  import opened Machine
  import opened Funding
  import opened FundingLaws
  import opened Sums
  import opened Resolution
  import opened Pool
  import opened PoolLaws
  import opened PoolRuns
  import Spot

  lemma {:induction false} RunAppends(w: LevWorld, front: seq<LevAction>, back: seq<LevAction>)
    ensures Run(w, front + back) == Run(Run(w, front), back)
    decreases |front|
  {
    if front == [] {
      assert front + back == back;
    } else {
      assert (front + back)[1..] == front[1..] + back;
      RunAppends(Apply(w, front[0]), front[1..], back);
    }
  }

  /** One LP funds the pool, and marks are posted at second 1. */
  function Seeding(lp: Owner, amount: u64, marks: Marks): seq<LevAction> {
    [OpenLpAccount(lp), DepositLp(lp, amount), PostMark(marks, 1)]
  }

  function Funded(params: LeverageParams, market: MarketView, wallets: map<Owner, u64>, lp: Owner, amount: u64, marks: Marks): LevWorld
    requires lp in wallets && amount <= wallets[lp]
  {
    LevWorld(
      PoolRecord(amount, 0, 0, 0, marks, 1, 1, [0, 0, 0], 0, BPS_DENOM, 0),
      amount, wallets[lp := wallets[lp] - amount], map[], map[lp := LpAccount(amount, 0, 0)], params, market)
  }

  lemma SeedingRuns(params: LeverageParams, market: MarketView, wallets: map<Owner, u64>, lp: Owner, amount: u64, marks: Marks)
    requires params.maxLeverage > 0 && lp in wallets && 0 < amount <= wallets[lp]
    requires forall i :: 0 <= i < 3 ==> IsEntryMark(marks[i])
    ensures InitPool(params, market, wallets).Ok?
    ensures Run(InitPool(params, market, wallets).value, Seeding(lp, amount, marks)) == Funded(params, market, wallets, lp, amount, marks)
  {
    var w0 := InitPool(params, market, wallets).value;
    var w1 := w0.(lps := map[lp := LpAccount(0, 0, 0)]);
    assert Step(w0, OpenLpAccount(lp)) == Ok(w1);
    var w2 := w1.(vault := amount, wallets := wallets[lp := wallets[lp] - amount],
                  lps := map[lp := LpAccount(amount, 0, 0)], pool := w1.pool.(totalShares := amount));
    assert Step(w1, DepositLp(lp, amount)) == Ok(w2) by {
      assert w1.lps[lp := LpAccount(amount, 0, 0)] == w2.lps;
    }
    assert Step(w2, PostMark(marks, 1)) == Ok(Funded(params, market, wallets, lp, amount, marks));
    var actions := Seeding(lp, amount, marks);
    assert actions[1..] == [DepositLp(lp, amount), PostMark(marks, 1)] && actions[1..][1..] == [PostMark(marks, 1)];
    assert Run(w2, [PostMark(marks, 1)]) == Run(Apply(w2, PostMark(marks, 1)), []);
  }

  /** An opening whose guards hold, and what it writes. */
  lemma OpenRuns(w: LevWorld, owner: Owner, outcome: u8, collateral: u64, leverage: u16, now: i64, units: u64, gain: u64)
    requires owner in w.wallets && owner !in w.positions && OpenGuards(w, outcome, collateral, leverage, now).Ok?
    requires UnitsFor(collateral, leverage, w.pool.markBps[outcome]) == Done(units)
    requires MaxGain(units, w.pool.markBps[outcome]) == Done(gain)
    requires collateral * leverage < TWO64 && w.pool.openInterest + collateral * leverage <= w.params.maxOpenInterest
    requires CoverageOk(w.vault, w.params.minCoverageBps, w.pool.totalMaxPayout, gain)
    requires collateral <= w.wallets[owner] && w.vault + collateral < TWO64 && w.pool.totalMaxPayout + gain < TWO64
    requires collateral * leverage >= 0
    ensures Run(w, [OpenLeverage(owner, outcome, collateral, leverage, now)]) == w.(
      vault := w.vault + collateral, wallets := w.wallets[owner := w.wallets[owner] - collateral],
      positions := w.positions[owner := LevPosition(outcome, leverage, collateral, collateral * leverage, units,
        w.pool.markBps[outcome], w.pool.cumFundingIndex[outcome], now, false)],
      pool := w.pool.(openInterest := w.pool.openInterest + collateral * leverage,
                      totalMaxPayout := w.pool.totalMaxPayout + gain))
  {
    hide UnitsFor, MaxGain, OpenGuards, CoverageOk;
    var actions := [OpenLeverage(owner, outcome, collateral, leverage, now)];
    assert DoOpen(w, owner, outcome, collateral, leverage, now).Ok?;
    assert Run(w, actions) == Run(Apply(w, actions[0]), []);
  }

  // ------------------------------------------------- coverage without backing

  const SMALL: LeverageParams := LeverageParams(1_000_000, 1_000, 60, 600, 0, 10, 12_000)
  const PLAYING: MarketView := MarketView(Spot.Trading, Unset, 1_000_000)

  function ThreeWallets(): map<Owner, u64> {
    map[7 := 1_000, 8 := 1_000, 9 := 2_400]
  }

  lemma SmallSizes()
    ensures UnitsFor(1_000, 2, 5_000) == Done(4_000) && MaxGain(4_000, 5_000) == Done(2_000)
    ensures UnitsFor(400, 2, 5_000) == Done(1_600) && MaxGain(1_600, 5_000) == Done(800)
  {
  }

  /** The pool of 2400 shares after a first position: 1000 of collateral, 2000 of booked gain. */
  lemma FirstOpening() returns (w: LevWorld)
    ensures Run(InitPool(SMALL, PLAYING, ThreeWallets()).value,
                Seeding(9, 2_400, [5_000, 2_500, 2_500]) + [OpenLeverage(7, 0, 1_000, 2, 1)]) == w
    ensures InitPool(SMALL, PLAYING, ThreeWallets()).Ok?
    ensures w == LevWorld(
      PoolRecord(2_400, 0, 2_000, 2_000, [5_000, 2_500, 2_500], 1, 1, [0, 0, 0], 0, BPS_DENOM, 0),
      3_400, map[7 := 0, 8 := 1_000, 9 := 0],
      map[7 := LevPosition(0, 2, 1_000, 2_000, 4_000, 5_000, 0, 1, false)], map[9 := LpAccount(2_400, 0, 0)],
      SMALL, PLAYING)
  {
    hide UnitsFor, MaxGain, Run;
    SmallSizes();
    var marks: Marks := [5_000, 2_500, 2_500];
    SeedingRuns(SMALL, PLAYING, ThreeWallets(), 9, 2_400, marks);
    var w1 := Funded(SMALL, PLAYING, ThreeWallets(), 9, 2_400, marks);
    assert OpenGuards(w1, 0, 1_000, 2, 1).Ok?;
    OpenRuns(w1, 7, 0, 1_000, 2, 1, 4_000, 2_000);
    w := Run(w1, [OpenLeverage(7, 0, 1_000, 2, 1)]);
    assert w.wallets == map[7 := 0, 8 := 1_000, 9 := 0];
    RunAppends(InitPool(SMALL, PLAYING, ThreeWallets()).value, Seeding(9, 2_400, marks), [OpenLeverage(7, 0, 1_000, 2, 1)]);
  }

  /** The whole run: fund, post, open, open again. */
  function ShortRun(): seq<LevAction> {
    Seeding(9, 2_400, [5_000, 2_500, 2_500]) + [OpenLeverage(7, 0, 1_000, 2, 1)] + [OpenLeverage(8, 0, 400, 2, 2)]
  }

  /** The state the run ends in. */
  lemma AfterShortRun() returns (w: LevWorld)
    ensures InitPool(SMALL, PLAYING, ThreeWallets()).Ok?
    ensures w == Run(InitPool(SMALL, PLAYING, ThreeWallets()).value, ShortRun())
    ensures w == LevWorld(
      PoolRecord(2_400, 0, 2_800, 2_800, [5_000, 2_500, 2_500], 1, 1, [0, 0, 0], 0, BPS_DENOM, 0),
      3_800, map[7 := 0, 8 := 600, 9 := 0],
      map[7 := LevPosition(0, 2, 1_000, 2_000, 4_000, 5_000, 0, 1, false),
          8 := LevPosition(0, 2, 400, 800, 1_600, 5_000, 0, 2, false)], map[9 := LpAccount(2_400, 0, 0)],
      SMALL, PLAYING)
  {
    hide UnitsFor, MaxGain, Run;
    SmallSizes();
    var w0 := InitPool(SMALL, PLAYING, ThreeWallets()).value;
    var w1 := FirstOpening();
    assert OpenGuards(w1, 0, 400, 2, 2).Ok?;
    OpenRuns(w1, 8, 0, 400, 2, 2, 1_600, 800);
    w := Run(w1, [OpenLeverage(8, 0, 400, 2, 2)]);
    assert w.wallets == map[7 := 0, 8 := 600, 9 := 0];
    RunAppends(w0, Seeding(9, 2_400, [5_000, 2_500, 2_500]) + [OpenLeverage(7, 0, 1_000, 2, 1)], [OpenLeverage(8, 0, 400, 2, 2)]);
  }

  /** The coverage guard does not imply that claims stay payable: this run, of accepted transactions from the
      creation of the pool, leaves the vault 400 short of them. The vault the guard weighs already holds
      collateral that is owed back. */
  lemma CoverageIsNotBacking()
    ensures InitPool(SMALL, PLAYING, ThreeWallets()).Ok?
    ensures var w := Run(InitPool(SMALL, PLAYING, ThreeWallets()).value, ShortRun());
      Books(w) && 7 in w.positions && 8 in w.positions && Backing(w) == -400
  {
    hide Run, Books, Backing, InitPool;
    var w := AfterShortRun();
    InitIsBooked(SMALL, PLAYING, ThreeWallets());
    RunKeepsBooks(InitPool(SMALL, PLAYING, ThreeWallets()).value, ShortRun());
    TwoClaims(w, w.positions[7], w.positions[8]);
  }

  /** And it fails: team 1 wins, the first of the two closes, and the vault cannot pay the second; nor the other
      way round. */
  lemma SecondCloseFails(now: i64)
    ensures InitPool(SMALL, PLAYING, ThreeWallets()).Ok?
    ensures var w := Run(InitPool(SMALL, PLAYING, ThreeWallets()).value, ShortRun());
      var won := Apply(w, MarketMoves(MarketView(Spot.Resolved, Team1, PLAYING.freezeTs)));
      && DoClose(won, 7, now).Ok? && DoClose(DoClose(won, 7, now).value, 8, now) == Err(TransferFailed)
      && DoClose(won, 8, now).Ok? && DoClose(DoClose(won, 8, now).value, 7, now) == Err(TransferFailed)
  {
    hide Run;
    var w := AfterShortRun();
    var won := Apply(w, MarketMoves(MarketView(Spot.Resolved, Team1, PLAYING.freezeTs)));
    hide UnitsFor, MaxGain, Pnl, FundingAccrued;
    SmallSizes();
    WonSettlement(won, won.positions[7], 3_000, now);
    WonSettlement(won, won.positions[8], 1_200, now);
    var after7, after8 := DoClose(won, 7, now).value, DoClose(won, 8, now).value;
    WonSettlement(after7, won.positions[8], 1_200, now);
    WonSettlement(after8, won.positions[7], 3_000, now);
  }

  lemma WonSettlement(w: LevWorld, p: LevPosition, payout: u64, now: i64)
    requires w.market == MarketView(Spot.Resolved, Team1, PLAYING.freezeTs) && !p.settled && p.outcomeIdx == 0
    requires w.pool.cumFundingIndex[0] == 0 && p.fundingIndexSnap == 0 && p.entryMarkBps == 5_000
    requires payout as int == p.collateral + p.units / 2 && p.units % 2 == 0 && p.units < 10_000
    ensures ComputeSettlement(w, p, now, false) == Ok(Settlement(payout, 0, 2))
  {
    assert FundingAccrued(p.notional, 0, 0) == Done(0);
    var win: u16 := BPS_DENOM;
    FloorUnique(p.units * (win - 5_000), BPS_DENOM, p.units / 2);
  }

  lemma TwoClaims(w: LevWorld, p: LevPosition, p': LevPosition)
    requires w.positions == map[7 := p, 8 := p'] && w.vault == 3_800
    requires p.collateral == 1_000 && p.units == 4_000 && p.entryMarkBps == 5_000
    requires p'.collateral == 400 && p'.units == 1_600 && p'.entryMarkBps == 5_000
    ensures Backing(w) == -400
  {
    hide MaxGain;
    SmallSizes();
    assert GainOf(p) == 2_000 && GainOf(p') == 800;
    ClaimsOfTwo(p, p');
    assert w.positions == map[7 := p][8 := p'];
  }

  lemma ClaimsOfTwo(p: LevPosition, p': LevPosition)
    ensures Total(ClaimsOf(map[7 := p][8 := p'])) == p.collateral + GainOf(p) + p'.collateral + GainOf(p')
  {
    hide GainOf;
    var none: map<Owner, LevPosition> := map[];
    assert ClaimsOf(none) == map[];
    PositionAdded(none, 7, p);
    assert none[7 := p] == map[7 := p];
    PositionAdded(map[7 := p], 8, p');
  }

  // -------------------------------------------------- a win that cannot settle

  const LARGE: LeverageParams := LeverageParams(0xFFFF_FFFF_FFFF_FFFF, 1_000, 60, 600, 0, 10, 10_000)

  function TwoWallets(): map<Owner, u64> {
    map[8 := 576_460_752_303_423_488, 9 := 12_000_000_000_000_000_000]
  }

  lemma LargeSizes(units: u64, gain: u64)
    requires units == 11_529_215_046_068_469_760 && gain == 10_376_293_541_461_622_784
    ensures UnitsFor(576_460_752_303_423_488, 2, 1_000) == Done(units) && MaxGain(units, 1_000) == Done(gain)
    ensures gain >= TWO63
  {
  }

  /** Fund, post, open. */
  function LargeRun(): seq<LevAction> {
    Seeding(9, 12_000_000_000_000_000_000, [1_000, 4_500, 4_500]) + [OpenLeverage(8, 0, 576_460_752_303_423_488, 2, 2)]
  }

  /** A position the program opens and can never settle once it has won: past the taper, the open-interest cap
      and the coverage guard, its profit does not fit 64 bits. */
  lemma SomeOpeningsCannotSettle(now: i64)
    ensures InitPool(LARGE, PLAYING, TwoWallets()).Ok?
    ensures var w := Run(InitPool(LARGE, PLAYING, TwoWallets()).value, LargeRun());
      var resolved := Apply(w, MarketMoves(MarketView(Spot.Resolved, Team1, PLAYING.freezeTs)));
      && 8 in w.positions && w.positions[8].outcomeIdx == 0 && w.positions == resolved.positions
      && ComputeSettlement(resolved, w.positions[8], now, false).Err?
      && DoClose(resolved, 8, now).Err? && DoExpire(resolved, 8, now).Err?
  {
    hide UnitsFor, MaxGain, Run, ComputeSettlement;
    var units: u64, gain: u64, amount: u64 := 11_529_215_046_068_469_760, 10_376_293_541_461_622_784, 12_000_000_000_000_000_000;
    var collateral: u64 := 576_460_752_303_423_488;
    LargeSizes(units, gain);
    var marks: Marks := [1_000, 4_500, 4_500];
    SeedingRuns(LARGE, PLAYING, TwoWallets(), 9, amount, marks);
    var w1 := Funded(LARGE, PLAYING, TwoWallets(), 9, amount, marks);
    assert OpenGuards(w1, 0, collateral, 2, 2).Ok?;
    OpenRuns(w1, 8, 0, collateral, 2, 2, units, gain);
    RunAppends(InitPool(LARGE, PLAYING, TwoWallets()).value, Seeding(9, amount, marks), [OpenLeverage(8, 0, collateral, 2, 2)]);
    var w := Run(w1, [OpenLeverage(8, 0, collateral, 2, 2)]);
    var resolved := Apply(w, MarketMoves(MarketView(Spot.Resolved, Team1, PLAYING.freezeTs)));
    TooMuchToSettle(resolved, w.positions[8], now, false);
    TooMuchToSettle(resolved, w.positions[8], now, true);
  }

  /** Exactly when a win settles is known at the opening: a booked gain of 2^63 or more never does. */
  lemma TooMuchToSettle(w: LevWorld, position: LevPosition, now: i64, isExpire: bool)
    requires position.outcomeIdx == 0 && w.market.state == Spot.Resolved && w.market.outcome == Team1
    requires IsEntryMark(position.entryMarkBps) && GainOf(position) >= TWO63
    ensures ComputeSettlement(w, position, now, isExpire).Err?
  {
    hide Pnl, FundingAccrued, MaxGain;
    var win: u16, lose: u16 := BPS_DENOM, 0;
    SettlesExactlyWhen(position.units, position.entryMarkBps, win, lose);
  }

  // --------------------------------------------- funding that fits no longer

  const COSTLY: LeverageParams := LeverageParams(0xFFFF_FFFF_FFFF_FFFF, 0xFFFF_FFFF, 60, 600, 0, 10, 10_000)
  const ENDING: MarketView := MarketView(Spot.Trading, Unset, 100)

  function RichWallets(): map<Owner, u64> {
    map[8 := 1_000_000_000_000, 9 := 2_000_000_000_000]
  }

  /** Fund, post, open, and post again two seconds later. */
  function CostlyRun(): seq<LevAction> {
    Seeding(9, 2_000_000_000_000, [5_000, 2_500, 2_500]) + [OpenLeverage(8, 0, 1_000_000_000_000, 2, 1)]
    + [PostMark([5_000, 2_500, 2_500], 3)]
  }

  lemma CostlySizes(delta: u128)
    requires delta == 22_139_006_675_257_731_959
    ensures UnitsFor(1_000_000_000_000, 2, 5_000) == Done(4_000_000_000_000)
    ensures MaxGain(4_000_000_000_000, 5_000) == Done(2_000_000_000_000)
    ensures IdxDelta(0xFFFF_FFFF, 5_000, 2, 97, 10_000) == Done(delta)
    ensures FundingAccrued(2_000_000_000_000, delta, 0) == Overflow
  {
    var num := RateNum(0xFFFF_FFFF, 5_000, 2);
    assert num == 214_748_364_750_000_000_000_000_000_000;
    assert RateDen(97) == 9_700_000_000;
    DivUnique(num + (9_700_000_000 - 1), 9_700_000_000, delta);
  }

  /** The state after the opening. */
  lemma AfterCostlyOpening() returns (w: LevWorld)
    ensures InitPool(COSTLY, ENDING, RichWallets()).Ok?
    ensures w == Run(InitPool(COSTLY, ENDING, RichWallets()).value,
                     Seeding(9, 2_000_000_000_000, [5_000, 2_500, 2_500]) + [OpenLeverage(8, 0, 1_000_000_000_000, 2, 1)])
    ensures w.params == COSTLY && w.market == ENDING && w.pool.markBps == [5_000, 2_500, 2_500]
    ensures w.pool.markTs == 1 && w.pool.lastFundingTs == 1 && w.pool.cumFundingIndex == [0, 0, 0] && w.pool.valveUntilTs == 0
    ensures 8 in w.positions && w.positions[8].outcomeIdx == 0
    ensures w.positions[8].notional == 2_000_000_000_000 && w.positions[8].fundingIndexSnap == 0
  {
    hide UnitsFor, MaxGain, Run;
    var marks: Marks := [5_000, 2_500, 2_500];
    CostlySizes(22_139_006_675_257_731_959);
    SeedingRuns(COSTLY, ENDING, RichWallets(), 9, 2_000_000_000_000, marks);
    var w1 := Funded(COSTLY, ENDING, RichWallets(), 9, 2_000_000_000_000, marks);
    assert OpenGuards(w1, 0, 1_000_000_000_000, 2, 1).Ok?;
    OpenRuns(w1, 8, 0, 1_000_000_000_000, 2, 1, 4_000_000_000_000, 2_000_000_000_000);
    w := Run(w1, [OpenLeverage(8, 0, 1_000_000_000_000, 2, 1)]);
    RunAppends(InitPool(COSTLY, ENDING, RichWallets()).value, Seeding(9, 2_000_000_000_000, marks),
      [OpenLeverage(8, 0, 1_000_000_000_000, 2, 1)]);
  }

  /** A position whose funding outgrew 64 bits between two posts: from then on, whatever happens and whenever, it
      can be neither closed nor expired, although one post earlier it was alive. */
  lemma SomeFundingNeverFits(later: seq<LevAction>, now: i64)
    ensures ValidLeverageParams(COSTLY) && InitPool(COSTLY, ENDING, RichWallets()).Ok?
    ensures var w := Run(Run(InitPool(COSTLY, ENDING, RichWallets()).value, CostlyRun()), later);
      8 in w.positions && DoClose(w, 8, now).Err? && DoExpire(w, 8, now).Err?
  {
    hide Run, IdxDelta, FundingAccrued, Books, DoClose, DoExpire, InitPool;
    var delta: u128, marks: Marks := 22_139_006_675_257_731_959, [5_000, 2_500, 2_500];
    CostlySizes(delta);
    var w2 := AfterCostlyOpening();
    var w0 := InitPool(COSTLY, ENDING, RichWallets()).value;
    RunAppends(w0, Seeding(9, 2_000_000_000_000, marks) + [OpenLeverage(8, 0, 1_000_000_000_000, 2, 1)], [PostMark(marks, 3)]);
    var w3 := OnePost(w2, marks, delta);
    InitIsBooked(COSTLY, ENDING, RichWallets());
    RunKeepsBooks(w0, CostlyRun());
    OversizedFundingIsForGood(w3, later, 8, now);
  }

  /** The second post, two seconds after the first. */
  lemma OnePost(w: LevWorld, marks: Marks, delta: u128) returns (w': LevWorld)
    requires w.params == COSTLY && w.market == ENDING && marks == w.pool.markBps == [5_000, 2_500, 2_500]
    requires w.pool.markTs == 1 && w.pool.lastFundingTs == 1 && w.pool.cumFundingIndex == [0, 0, 0] && w.pool.valveUntilTs == 0
    requires IdxDelta(0xFFFF_FFFF, 5_000, 2, 97, 10_000) == Done(delta)
    ensures w' == Run(w, [PostMark(marks, 3)])
    ensures w'.positions == w.positions && w'.pool.cumFundingIndex[0] == delta
  {
    hide IdxDelta;
    assert Multiplier(w.pool, 3) == BPS_DENOM && SaturatingSub(w.market.freezeTs, 3) == 97;
    QuarterFits();
    var actions := [PostMark(marks, 3)];
    assert Accrued(w, 0, 3) == Ok(delta);
    assert Accrued(w, 1, 3).Ok? && Accrued(w, 2, 3).Ok?;
    assert DoPostMark(w, marks, 3).Ok?;
    w' := Apply(w, actions[0]);
    assert Run(w, actions) == Run(w', []);
  }

  lemma QuarterFits()
    ensures IdxDelta(0xFFFF_FFFF, 2_500, 2, 97, 10_000).Done?
    ensures IdxDelta(0xFFFF_FFFF, 2_500, 2, 97, 10_000).value < TWO128 - TWO64
  {
    var num := RateNum(0xFFFF_FFFF, 2_500, 2);
    assert num < TWO128 - TWO64 - TWO64 && RateDen(97) == 9_700_000_000;
    DivAtMost(num + (9_700_000_000 - 1), 9_700_000_000, num + 9_700_000_000);
  }
}
