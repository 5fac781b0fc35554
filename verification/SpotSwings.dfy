/** How a market's own trades drive the fee to where it overflows: a dominated market, complete sets, and
    one-token sales that alternate between the outcome priced at everything and one priced at nothing.
    */
module SpotSwings {
  import opened Machine
  import opened Q64
  import opened Lmsr
  import opened Sums
  import opened Spot
  import opened SpotLoss
  import opened CostMonotone
  import opened SpotExits
  import LnGrowth
  import TradeLaws
  import Fee

  const THIN: int := 1_000                 // the smallest liquidity
  const LEAD: int := 100_000               // a lead of a hundred b leaves the others no weight
  const SETS: int := 0x200_0000_0000       // complete sets the trader mints
  const SEED: int := 0x800_0000_0000       // the leader's seeded quantity

  // -------------------------------------------------------- a dominated market

  predicate Dominated(q: Quantities, lead: nat) {
    q[0] <= Q_MAX && q[1] + LEAD + lead <= q[0] && q[2] + LEAD + lead <= q[0]
  }

  lemma FarTermIsZero(q: Quantities, b: u64, i: nat, lead: nat)
    requires Dominated(q, lead) && b == THIN && 1 <= i < N_OUTCOMES
    ensures ExpOf(q, b, i) == 0
  {
    hide ExpSeries;
    var x := Shift(q, b, i);
    DivAtLeast((MaxOf(q) - q[i]) * ONE, b, 64 * LN2);
    DivAtLeast(x, LN2, 64);
  }

  lemma DominatedTerms(q: Quantities, b: u64, lead: nat)
    requires Dominated(q, lead) && b == THIN
    ensures MaxOf(q) == q[0] && ExpOf(q, b, 0) == ONE == ExpSum(q, b) && ExpOf(q, b, 1) == 0
  {
    hide ExpOf;
    LeaderIsOne(q, b, 0);
    FarTermIsZero(q, b, 1, lead);
    FarTermIsZero(q, b, 2, lead);
  }

  lemma LnOfOneIsZero(s: nat)
    requires s == ONE
    ensures Ln(s) == 0
  {
    LnGrowth.LnBelowTwo(s);
    LnGrowth.LnOfOne(s);
  }

  /** The leader has the whole price, and the cost is its quantity. */
  lemma DominatedPrices(q: Quantities, b: u64, lead: nat)
    requires Dominated(q, lead) && b == THIN
    ensures InRange(q, b) && Cost(q, b) == q[0] * ONE
    ensures PriceOf(q, b, 0) == BPS_DENOM && PriceOf(q, b, 1) == 0
  {
    hide Ln, ExpOf, ExpSum;
    DominatedTerms(q, b, lead);
    var s := ExpSum(q, b);
    LnOfOneIsZero(s);
    DivUnique(ONE * BPS_DENOM, s, BPS_DENOM);
    DivUnique(0, s, 0);
  }

  function OneLess(q: Quantities, i: nat): Quantities
    requires i < N_OUTCOMES && q[i] > 0
  {
    q[i := q[i] - 1]
  }

  /** Selling one token pays one unit for the leader, nothing for another outcome. */
  lemma DominatedRefund(q: Quantities, b: u64, i: nat, lead: nat)
    requires Dominated(q, lead + 1) && b == THIN && i < 2 && q[i] > 0
    ensures Dominated(OneLess(q, i), lead)
    ensures SellRefund(q, b, i, 1) == Ok(if i == 0 then 1 else 0)
  {
    hide Cost;
    DominatedPrices(q, b, lead + 1);
    DominatedPrices(OneLess(q, i), b, lead);
    CostFits(q, b);
    CostFits(OneLess(q, i), b);
    QuotesAreTotal(q, b, i, 1);
    DivUnique(ONE, ONE, 1);
    DivUnique(0, ONE, 0);
  }

  // ------------------------------------------------------------------ a swing

  /** The trader can make `n` more such sales. */
  ghost predicate Swinging(w: World, n: nat) {
    var m := w.market;
    && m.state == Trading && m.b == THIN && Dominated(m.q, n)
    && 0 in w.positions && 0 in w.wallets && w.wallets[0] + n < TWO64
    && (forall i :: 0 <= i < 2 ==> n <= w.positions[0].tokens[i] && n <= m.supply[i] && n <= m.q[i])
    && (forall i :: 0 <= i < N_OUTCOMES ==> m.supply[i] + n <= w.vault)
    && m.usdtCollateral == w.vault
  }

  ghost predicate CanSwing(w: World) {
    exists n: nat :: n > 0 && Swinging(w, n)
  }

  function SwingOf(outcome: u8, now: i64): Fee.Trade {
    Fee.Trade(now, if outcome == 0 then BPS_DENOM else 0)
  }

  function OneSale(outcome: u8, now: i64): Action {
    Sell(0, outcome, 1, 0, now)
  }

  /** The sale does to the fee what the trade does, and fails exactly when the trade does. */
  lemma SaleSwings(cfg: Config, w: World, outcome: u8, n: nat)
    requires Fee.ValidParams(cfg.fees) && Swinging(w, n + 1) && outcome < 2
    ensures var now := w.market.fee.lastTs;
      var trade := Fee.TradeStep(cfg.fees, w.market.fee, SwingOf(outcome, now));
      var sale := Step(cfg, w, OneSale(outcome, now));
      && (trade.Err? ==> trade.error == MathOverflow && sale == Err(MathOverflow))
      && (trade.Ok? ==> sale.Ok? && sale.value.market.fee == trade.value.1 && Swinging(sale.value, n))
  {
    hide Swinging, Fee.TradeStep, Step;
    if Fee.TradeStep(cfg.fees, w.market.fee, SwingOf(outcome, w.market.fee.lastTs)).Ok? {
      SaleAccepted(cfg, w, outcome, n);
    } else {
      SaleRefused(cfg, w, outcome, n);
    }
  }

  lemma SaleRefused(cfg: Config, w: World, outcome: u8, n: nat)
    requires Fee.ValidParams(cfg.fees) && Swinging(w, n + 1) && outcome < 2
    requires Fee.TradeStep(cfg.fees, w.market.fee, SwingOf(outcome, w.market.fee.lastTs)).Err?
    ensures Fee.TradeStep(cfg.fees, w.market.fee, SwingOf(outcome, w.market.fee.lastTs)).error == MathOverflow
    ensures Step(cfg, w, OneSale(outcome, w.market.fee.lastTs)) == Err(MathOverflow)
  {
    hide Swinging, Fee.TradeStep, FeeCharged, FeeAfter, DoSell, SellRefund, PriceOf, Dominated, Cost;
    var m := w.market;
    SwingParts(w, n);
    DominatedRefund(m.q, m.b, outcome, n);
    DominatedPrices(OneLess(m.q, outcome), m.b, n);
    SaleFee(cfg, m.fee, OneLess(m.q, outcome), m.b, outcome, m.fee.lastTs);
    SaleFails(cfg, w, outcome, n);
  }

  lemma SaleAccepted(cfg: Config, w: World, outcome: u8, n: nat)
    requires Fee.ValidParams(cfg.fees) && Swinging(w, n + 1) && outcome < 2
    requires Fee.TradeStep(cfg.fees, w.market.fee, SwingOf(outcome, w.market.fee.lastTs)).Ok?
    ensures var sale := Step(cfg, w, OneSale(outcome, w.market.fee.lastTs));
      && sale.Ok? && Swinging(sale.value, n)
      && sale.value.market.fee == Fee.TradeStep(cfg.fees, w.market.fee, SwingOf(outcome, w.market.fee.lastTs)).value.1
  {
    hide Swinging, Fee.TradeStep, FeeCharged, FeeAfter, DoSell, SellRefund, PriceOf, Dominated, Cost;
    var m := w.market;
    SwingParts(w, n);
    DominatedRefund(m.q, m.b, outcome, n);
    DominatedPrices(OneLess(m.q, outcome), m.b, n);
    SaleFee(cfg, m.fee, OneLess(m.q, outcome), m.b, outcome, m.fee.lastTs);
    var out := SaleWrites(cfg, w, outcome, n);
    SwingsOn(w, DoSell(cfg, w, 0, outcome, 1, 0, m.fee.lastTs).value, outcome, out, n);
  }

  lemma SwingParts(w: World, n: nat)
    requires Swinging(w, n + 1)
    ensures Dominated(w.market.q, n + 1) && w.market.b == THIN && w.market.q[0] > 0 && w.market.q[1] > 0
    ensures w.market.state == Trading
  {
    hide Dominated;
  }

  lemma SaleFails(cfg: Config, w: World, outcome: u8, n: nat)
    requires Fee.ValidParams(cfg.fees) && Swinging(w, n + 1) && outcome < 2
    requires SellRefund(w.market.q, w.market.b, outcome, 1).Ok?
    ensures var m := w.market; var now := m.fee.lastTs; var sale := DoSell(cfg, w, 0, outcome, 1, 0, now);
      && (FeeCharged(cfg, m.fee, now).Err? ==> sale == Err(FeeCharged(cfg, m.fee, now).error))
      && (FeeCharged(cfg, m.fee, now).Ok? ==>
            var after := FeeAfter(cfg, m.b, m.fee, OneLess(m.q, outcome), outcome, FeeCharged(cfg, m.fee, now).value.1, now);
            after.Err? ==> sale == Err(after.error))
  {
    hide SellRefund, Dominated, FeeCharged, FeeAfter, NetOf, AssertSolventMulti;
  }

  /** What the sale writes when its fee can be computed. */
  lemma SaleWrites(cfg: Config, w: World, outcome: u8, n: nat) returns (out: u64)
    requires Fee.ValidParams(cfg.fees) && Swinging(w, n + 1) && outcome < 2
    requires SellRefund(w.market.q, w.market.b, outcome, 1) == Ok(if outcome == 0 then 1 else 0)
    requires var m := w.market; var now := m.fee.lastTs;
      && FeeCharged(cfg, m.fee, now).Ok?
      && FeeAfter(cfg, m.b, m.fee, OneLess(m.q, outcome), outcome, FeeCharged(cfg, m.fee, now).value.1, now).Ok?
    ensures out <= 1
    ensures var m := w.market; var now := m.fee.lastTs; var p := w.positions[0];
      var fee := FeeAfter(cfg, m.b, m.fee, OneLess(m.q, outcome), outcome, FeeCharged(cfg, m.fee, now).value.1, now).value;
      m.supply[outcome] > 0 && p.tokens[outcome] > 0 && out <= w.vault && w.wallets[0] + out < TWO64
      && DoSell(cfg, w, 0, outcome, 1, 0, now) == Ok(w.(
        vault := w.vault - out, wallets := w.wallets[0 := w.wallets[0] + out],
        market := m.(q := OneLess(m.q, outcome), supply := OneLess(m.supply, outcome), fee := fee,
                     usdtCollateral := m.usdtCollateral - out),
        positions := w.positions[0 := p.(tokens := OneLess(p.tokens, outcome), collateral := SatSub(p.collateral, out))]))
  {
    hide SellRefund, Dominated, FeeCharged, FeeAfter, NetOf, AssertSolventMulti;
    out := NetOf(if outcome == 0 then 1 else 0, FeeCharged(cfg, w.market.fee, w.market.fee.lastTs).value.0);
    SolventMeans(w.vault - out, OneLess(w.market.supply, outcome));
  }

  lemma SwingsOn(w: World, w': World, outcome: u8, out: u64, n: nat)
    requires Swinging(w, n + 1) && outcome < 2 && out <= 1 && Dominated(OneLess(w.market.q, outcome), n)
    requires w'.vault as int == w.vault - out && w'.market.usdtCollateral as int == w.market.usdtCollateral - out
    requires 0 in w'.wallets && w'.wallets[0] as int == w.wallets[0] + out && w'.market.state == Trading && w'.market.b == THIN
    requires w'.market.q == OneLess(w.market.q, outcome) && w'.market.supply == OneLess(w.market.supply, outcome)
    requires 0 in w'.positions && w'.positions[0].tokens == OneLess(w.positions[0].tokens, outcome)
    ensures Swinging(w', n)
  {
    hide Dominated;
  }

  /** The fee's two halves in a sale are the two halves of a trade at the sold outcome's new price. */
  lemma SaleFee(cfg: Config, fee: Fee.FeeState, q: Quantities, b: u64, outcome: u8, now: i64)
    requires Fee.ValidParams(cfg.fees) && InRange(q, b) && outcome < 2 && now == fee.lastTs
    requires PriceOf(q, b, outcome) == SwingOf(outcome, now).newPriceBps
    ensures var trade := Fee.TradeStep(cfg.fees, fee, SwingOf(outcome, now));
      && (trade.Err? ==> trade.error == MathOverflow)
      && (FeeCharged(cfg, fee, now).Err? ==> trade.Err? && FeeCharged(cfg, fee, now).error == MathOverflow)
      && (FeeCharged(cfg, fee, now).Ok? ==>
            var after := FeeAfter(cfg, b, fee, q, outcome, FeeCharged(cfg, fee, now).value.1, now);
            (trade.Err? ==> after == Err(MathOverflow)) && (trade.Ok? ==> after == Ok(trade.value.1)))
  {
    hide PriceOf, Fee.FeeNum, Fee.Reduced;
  }

  // --------------------------------------------------------------- to the peak

  /** Enough sales to take the accumulator from `v` past its peak. */
  predicate Enough(p: Fee.FeeParams, v: nat, n: nat)
    requires Fee.ValidParams(p)
  {
    && n > 0 && v <= Fee.PeakAcc(p)
    && Fee.PeakAcc(p) - v <= (n - 1) * (if Fee.KeptBps(p) == Fee.REDUCTION_DENOM then Fee.MAX_CONTRIBUTION else 1)
  }

  /** One swing from end to end: it fails, or brings the accumulator nearer its peak. */
  lemma SwingClimbs(p: Fee.FeeParams, s: Fee.FeeState, t: Fee.Trade, n: nat)
    requires Fee.ValidParams(p) && !Fee.RunsFit(p) && Enough(p, s.vAcc, n) && t.now == s.lastTs
    requires Fee.Distance(s.lastPriceBps, t.newPriceBps) == BPS_DENOM && Fee.TradeStep(p, s, t).Ok?
    ensures n > 1 && Enough(p, Fee.TradeStep(p, s, t).value.1.vAcc, n - 1)
    ensures Fee.TradeStep(p, s, t).value.1.lastPriceBps == t.newPriceBps && Fee.TradeStep(p, s, t).value.1.lastTs == s.lastTs
  {
    hide Fee.TradeStep, Fee.FitsAt;
    Fee.ImmediateTrade(p, s, t);
    Fee.PeakIsWhereGrowthEnds(p, s.vAcc);
    assert s.vAcc < Fee.PeakAcc(p);
    if Fee.KeptBps(p) == Fee.REDUCTION_DENOM {
      DivUnique(s.vAcc * Fee.REDUCTION_DENOM, Fee.REDUCTION_DENOM, s.vAcc);
    }
  }

  /** Sales that end in one that overflows. */
  lemma {:induction false} SalesFail(cfg: Config, w: World, n: nat) returns (actions: seq<Action>, last: Action)
    requires Fee.ValidParams(cfg.fees) && !Fee.RunsFit(cfg.fees) && Swinging(w, n) && Enough(cfg.fees, w.market.fee.vAcc, n)
    requires w.market.fee.lastPriceBps == 0 || w.market.fee.lastPriceBps == BPS_DENOM
    ensures var w' := Run(cfg, w, actions);
      && CanSwing(w') && w'.market.fee.lastTs == w.market.fee.lastTs
    ensures (last == OneSale(0, w.market.fee.lastTs) || last == OneSale(1, w.market.fee.lastTs))
    ensures Step(cfg, Run(cfg, w, actions), last) == Err(MathOverflow)
    decreases n
  {
    hide Step, Enough, Swinging, Fee.TradeStep, Fee.RunsFit;
    var now := w.market.fee.lastTs;
    var outcome: u8 := if w.market.fee.lastPriceBps == 0 then 0 else 1;
    assert n > 0 by { EnoughIsSome(cfg.fees, w.market.fee.vAcc, n); }
    SaleSwings(cfg, w, outcome, n - 1);
    last := OneSale(outcome, now);
    actions := [];
    if Step(cfg, w, last).Err? {
      assert CanSwing(w);
    } else {
      SwingClimbs(cfg.fees, w.market.fee, SwingOf(outcome, now), n);
      var rest, end := SalesFail(cfg, Step(cfg, w, last).value, n - 1);
      actions := [last] + rest;
      assert actions[1..] == rest;
      last := end;
    }
  }

  lemma EnoughIsSome(p: Fee.FeeParams, v: nat, n: nat)
    requires Fee.ValidParams(p) && Enough(p, v, n)
    ensures n > 0
  {
  }

  // --------------------------------------------------------------- the market

  function ThinOpening(): Opening {
    Opening(SEED, map[0 := SETS], 1, 0, 1, 2, THIN, [SEED, 0, 0], SEED)
  }

  function Warmup(): seq<Action> {
    [OpenPosition(0), Activate(1), MintSet(0, SETS)]
  }

  /** The market opens, and after three transactions the trader holds the sets. */
  lemma ThinMarketOpens(cfg: Config) returns (w0: World)
    requires Fee.ValidParams(cfg.fees)
    ensures Opened(cfg, ThinOpening()) == Ok(w0)
    ensures var w := Run(cfg, w0, Warmup());
      Swinging(w, SETS) && w.market.fee == Fee.FeeState(BPS_DENOM, 1, 0)
  {
    hide Cost, PriceOf, Step;
    var q: Quantities := [SEED, 0, 0];
    DominatedPrices(q, THIN, 0);
    TradeLaws.OpensExactlyWhen(cfg, SEED, map[0 := SETS], 1, 0, 1, 2, THIN, q, SEED);
    w0 := Opened(cfg, ThinOpening()).value;
    OpenedThin(cfg, w0);
    var p := Position([0, 0, 0], 0, false);
    var w1 := w0.(positions := map[0 := p]);
    var w2 := w1.(market := w1.market.(state := Trading, fee := Fee.FeeState(BPS_DENOM, 1, 0)));
    WarmupSteps(cfg, w0, w1, w2);
    var w3 := Step(cfg, w2, MintSet(0, SETS)).value;
    var actions := Warmup();
    assert actions[1..] == [Activate(1), MintSet(0, SETS)] && actions[1..][1..] == [MintSet(0, SETS)];
    assert Run(cfg, w2, [MintSet(0, SETS)]) == Run(cfg, w3, []);
  }

  lemma OpenedThin(cfg: Config, w0: World)
    requires Opened(cfg, ThinOpening()) == Ok(w0)
    ensures w0 == World(
      Market([SEED, 0, 0], THIN, SEED, [0, 0, 0], Open, Resolution.Unset, 1, 1, 2, Fee.FeeState(BPS_DENOM, 0, 0)),
      SEED, 0, map[0 := SETS], map[])
  {
    hide Cost, CostUnits, PriceOf;
    DominatedPrices([SEED, 0, 0], THIN, 0);
  }

  lemma WarmupSteps(cfg: Config, w0: World, w1: World, w2: World)
    requires Fee.ValidParams(cfg.fees) && Opened(cfg, ThinOpening()) == Ok(w0)
    requires w1 == w0.(positions := map[0 := Position([0, 0, 0], 0, false)])
    requires w2 == w1.(market := w1.market.(state := Trading, fee := Fee.FeeState(BPS_DENOM, 1, 0)))
    ensures Step(cfg, w0, OpenPosition(0)) == Ok(w1) && Step(cfg, w1, Activate(1)) == Ok(w2)
    ensures Step(cfg, w2, MintSet(0, SETS)).Ok?
    ensures var w3 := Step(cfg, w2, MintSet(0, SETS)).value; Swinging(w3, SETS) && w3.market.fee == w2.market.fee
  {
    OpenedThin(cfg, w0);
    SolventMeans(SEED + SETS, [SETS, SETS, SETS]);
  }

  /** Under every configuration whose peak does not fit some market, opened and traded by the rules, comes to
      a sale the holder is refused with an overflow. */
  lemma SomeSaleOverflows(cfg: Config) returns (w0: World, actions: seq<Action>, outcome: u8)
    requires Fee.ValidParams(cfg.fees) && !Fee.RunsFit(cfg.fees)
    ensures Opened(cfg, ThinOpening()) == Ok(w0) && outcome < 2
    ensures CanSwing(Run(cfg, w0, actions))
    ensures Run(cfg, w0, actions).market.fee.lastTs == 1
    ensures Step(cfg, Run(cfg, w0, actions), OneSale(outcome, 1)) == Err(MathOverflow)
  {
    hide Swinging, Step, Run, Opened;
    w0 := ThinMarketOpens(cfg);
    var w := Run(cfg, w0, Warmup());
    SetsAreEnough(cfg.fees, 0);
    var sales, last := SalesFail(cfg, w, SETS);
    RunSplits(cfg, w0, Warmup(), sales);
    actions := Warmup() + sales;
    outcome := if last == OneSale(0, 1) then 0 else 1;
  }

  lemma SetsAreEnough(p: Fee.FeeParams, v: nat)
    requires Fee.ValidParams(p) && v == 0
    ensures Enough(p, v, SETS)
  {
    if Fee.KeptBps(p) < Fee.REDUCTION_DENOM {
      var num, lost := (Fee.MAX_CONTRIBUTION - 1) * Fee.REDUCTION_DENOM, Fee.REDUCTION_DENOM - Fee.KeptBps(p);
      MulMono(1, lost, num + 1);
      DivAtMost(num, lost, num);
    }
  }

  lemma {:induction false} RunSplits(cfg: Config, w: World, front: seq<Action>, back: seq<Action>)
    requires Fee.ValidParams(cfg.fees)
    ensures Run(cfg, w, front + back) == Run(cfg, Run(cfg, w, front), back)
    decreases |front|
  {
    if front == [] {
      assert front + back == back;
    } else {
      assert (front + back)[1..] == front[1..] + back;
      RunSplits(cfg, Apply(cfg, w, front[0]), front[1..], back);
    }
  }

  /** In a market opened by the rules with b up to 2^52: a holder's sale, with the clock in order, goes through. */
  ghost predicate ExitIsOpen(cfg: Config, o: Opening, actions: seq<Action>, owner: Owner, outcome: u8, tokensIn: u64, now: i64)
    requires Fee.ValidParams(cfg.fees)
  {
    Opened(cfg, o).Ok? && Total(o.wallets) + o.admin < TWO64 && o.b <= B_SMOOTH ==>
      var w := Run(cfg, Opened(cfg, o).value, actions);
      w.market.state == Trading && w.market.fee.lastTs <= now < w.market.fee.lastTs + TWO63
      && owner in w.positions && owner in w.wallets && outcome < N_OUTCOMES
      && 0 < tokensIn <= w.positions[owner].tokens[outcome] ==>
        Step(cfg, w, Sell(owner, outcome, tokensIn, 0, now)).Ok?
  }

  /** Holders can always sell, in every market, after every run, exactly when the peak of the fee parameters
      fits. */
  lemma ExitsAreOpenExactlyWhen(cfg: Config)
    requires Fee.ValidParams(cfg.fees)
    ensures Fee.RunsFit(cfg.fees) <==>
      forall o, actions, owner, outcome, tokensIn, now :: ExitIsOpen(cfg, o, actions, owner, outcome, tokensIn, now)
  {
    hide Fee.RunsFit, ExitIsOpen, Step, Run, Opened, Swinging;
    if Fee.RunsFit(cfg.fees) {
      forall o, actions, owner, outcome, tokensIn, now ensures ExitIsOpen(cfg, o, actions, owner, outcome, tokensIn, now) {
        FitsMeansOpen(cfg, o, actions, owner, outcome, tokensIn, now);
      }
    } else {
      var w0, actions, outcome := SomeSaleOverflows(cfg);
      ClosedExit(cfg, w0, actions, outcome);
    }
  }

  lemma FitsMeansOpen(cfg: Config, o: Opening, actions: seq<Action>, owner: Owner, outcome: u8, tokensIn: u64, now: i64)
    requires Fee.ValidParams(cfg.fees) && Fee.RunsFit(cfg.fees)
    ensures ExitIsOpen(cfg, o, actions, owner, outcome, tokensIn, now)
  {
    hide Fee.RunsFit, Step, Run, Opened;
    if Opened(cfg, o).Ok? && Total(o.wallets) + o.admin < TWO64 && o.b <= B_SMOOTH {
      var w0 := Opened(cfg, o).value;
      var w := Run(cfg, w0, actions);
      if w.market.state == Trading && w.market.fee.lastTs <= now < w.market.fee.lastTs + TWO63
         && owner in w.positions && owner in w.wallets && outcome < N_OUTCOMES
         && 0 < tokensIn <= w.positions[owner].tokens[outcome] {
        HoldersCanSell(cfg, o, w0, actions, owner, outcome, tokensIn, now);
      }
    }
  }

  lemma ClosedExit(cfg: Config, w0: World, actions: seq<Action>, outcome: u8)
    requires Fee.ValidParams(cfg.fees) && Opened(cfg, ThinOpening()) == Ok(w0) && outcome < 2
    requires CanSwing(Run(cfg, w0, actions))
    requires Run(cfg, w0, actions).market.fee.lastTs == 1
    requires Step(cfg, Run(cfg, w0, actions), OneSale(outcome, 1)).Err?
    ensures !ExitIsOpen(cfg, ThinOpening(), actions, 0, outcome, 1, 1)
  {
    hide Step, Run, Opened, Dominated;
    TotalUpdate(map[], 0, SETS);
    var none: map<Owner, int> := map[];
    assert Total(none) == 0 && none[0 := SETS] == map[0 := SETS];
  }
}
