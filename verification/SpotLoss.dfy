/** What a market costs whoever seeds it, from opening to close: over every run, for every liquidity. */
module SpotLoss {
  import opened Machine
  import opened Q64
  import opened Lmsr
  import opened Sums
  import opened Spot
  import opened SpotLedger
  import opened SpotSolvency
  import opened SpotGuarantees
  import opened Resolution
  import opened CostMonotone
  import Fee

  /** The arguments `init_market` is called with. */
  datatype Opening = Opening(
    admin: u64, wallets: map<Owner, u64>, fixtureId: i64, now: i64, kickoffTs: i64, freezeTs: i64, b: u64,
    seedQ: Quantities, seedLiquidity: u64)

  function Opened(cfg: Config, o: Opening): Result<World> {
    InitMarket(cfg, o.admin, o.wallets, o.fixtureId, o.now, o.kickoffTs, o.freezeTs, o.b, o.seedQ, o.seedLiquidity)
  }

  /** The most the seeder can lose where sells hide nothing: the opening cost above the smallest seed. */
  function Subsidy(o: Opening): int {
    if InRange(o.seedQ, o.b) then CostUnits(o.seedQ, o.b).value - MinOf(o.seedQ) else 0
  }

  /** Only closing moves the admin's account. */
  lemma {:induction false} AdminStaysTillClose(cfg: Config, w: World, actions: seq<Action>)
    requires Fee.ValidParams(cfg.fees) && Run(cfg, w, actions).market.state != Closed
    ensures Run(cfg, w, actions).admin == w.admin
    decreases |actions|
  {
    hide Apply;
    if actions != [] {
      StepKeepsAdmin(cfg, w, actions[0]);
      OutcomeIsFinal(cfg, Apply(cfg, w, actions[0]), actions[1..]);
      AdminStaysTillClose(cfg, Apply(cfg, w, actions[0]), actions[1..]);
    }
  }

  lemma StepKeepsAdmin(cfg: Config, w: World, a: Action)
    requires Fee.ValidParams(cfg.fees)
    ensures Apply(cfg, w, a).admin == w.admin || Apply(cfg, w, a).market.state == Closed
  {
    hide DoBuy, DoSell, DoMintSet, DoRedeemSet;
    if Step(cfg, w, a).Ok? && (a.Buy? || a.Sell? || a.MintSet? || a.RedeemSet?) {
      var owner, d, usdt := TradeMoves(cfg, w, a);
    }
  }

  lemma {:induction false} RedeemsHideNothing(cfg: Config, w: World, owners: seq<Owner>)
    requires Fee.ValidParams(cfg.fees)
    ensures HiddenTotal(cfg, w, Redeems(owners)) == 0
    decreases |owners|
  {
    hide Apply;
    if owners != [] {
      assert Redeems(owners)[0] == Redeem(owners[0]) && Redeems(owners)[1..] == Redeems(owners[1..]);
      RedeemsHideNothing(cfg, Apply(cfg, w, Redeem(owners[0])), owners[1..]);
    }
  }

  /** What a run from an accepted opening carries to its end. */
  lemma RunFromOpening(cfg: Config, o: Opening, w0: World, actions: seq<Action>) returns (g: Genesis)
    requires Fee.ValidParams(cfg.fees) && Total(o.wallets) + o.admin < TWO64 && Opened(cfg, o) == Ok(w0)
    ensures g.seedQ == o.seedQ && g.b == o.b && g.credited == o.seedLiquidity && SeedCovers(g) && g.b > 0
    ensures var w := Run(cfg, w0, actions);
      Ledger(w, g) && Curve(w, g) && Backed(w, g, HiddenTotal(cfg, w0, actions))
    ensures o.b <= B_SMOOTH ==> HiddenTotal(cfg, w0, actions) == 0
    ensures w0.admin as int == o.admin - o.seedLiquidity
  {
    hide Run, HiddenTotal, Ledger, Curve, Backed, CostUnits, PriceChecked;
    g := InitIsBacked(cfg, o.admin, o.wallets, o.fixtureId, o.now, o.kickoffTs, o.freezeTs, o.b, o.seedQ, o.seedLiquidity, w0);
    SeedIsInRange(g);
    RunKeepsLedger(cfg, w0, actions, g);
    RunKeepsBacked(cfg, w0, actions, g, 0);
    if o.b <= B_SMOOTH {
      RunHidesNothing(cfg, w0, actions, g);
    }
  }

  /** From every accepted opening, over every run to a resolved market, however many winners redeemed before:
      closing leaves the admin with at least what was there before the opening and what winners did not
      claim, less the subsidy and what sells hid. Up to b = 2^52 they hide nothing; from zero seeds the
      subsidy is b times the computed ln 3, rounded up. */
  lemma ClosingLossIsBounded(cfg: Config, o: Opening, w0: World, actions: seq<Action>, now: i64)
    requires Fee.ValidParams(cfg.fees) && Total(o.wallets) + o.admin < TWO64 && Opened(cfg, o) == Ok(w0)
    requires DoClose(cfg, Run(cfg, w0, actions), now).Ok?
    ensures var w := Run(cfg, w0, actions); var hidden := HiddenTotal(cfg, w0, actions);
      && w.market.outcome in {Team1, Draw, Team2}
      && DoClose(cfg, w, now).value.admin
         >= o.admin + w.market.supply[Winner(w.market.outcome)] - Subsidy(o) - CeilDiv(hidden, ONE)
      && (o.b <= B_SMOOTH ==> hidden == 0)
    ensures InRange(o.seedQ, o.b) && (o.seedQ == [0, 0, 0] ==> Subsidy(o) == Ln3Subsidy(o.b))
  {
    hide Run, HiddenTotal, CostUnits, Opened, Backed, CeilDiv, Ln3Subsidy;
    var g := RunFromOpening(cfg, o, w0, actions);
    AdminStaysTillClose(cfg, w0, actions);
    LossIsBounded(Run(cfg, w0, actions), g, HiddenTotal(cfg, w0, actions));
    if o.seedQ == [0, 0, 0] {
      ZeroSeedsCostLn3(o.seedQ, o.b);
    }
  }

  /** The whole life of a market: open, trade, resolve, let any holders redeem in any order, close. Every one
      of these redemptions and the closing go through, each holder gets exactly the winning tokens held,
      and the admin's loss is bounded as above. */
  lemma EveryoneIsPaid(cfg: Config, o: Opening, w0: World, actions: seq<Action>, owners: seq<Owner>, now: i64)
    requires Fee.ValidParams(cfg.fees) && Total(o.wallets) + o.admin < TWO64 && Opened(cfg, o) == Ok(w0)
    requires Run(cfg, w0, actions).market.state == Resolved && Distinct(owners)
    requires var w := Run(cfg, w0, actions);
      && (forall h :: h in owners ==> h in w.positions && h in w.wallets && !w.positions[h].redeemed)
      && -TWO63 <= w.market.freezeTs + cfg.graceSecs <= now
    ensures var w := Run(cfg, w0, actions); var w1 := Run(cfg, w, Redeems(owners));
      && w.market.outcome in {Team1, Draw, Team2}
      && (forall h :: h in owners ==> PaidOut(w, w1, h)) && (forall h :: h !in owners ==> Untouched(w, w1, h))
      && DoClose(cfg, w1, now).Ok?
      && DoClose(cfg, w1, now).value.vault == 0
      && DoClose(cfg, w1, now).value.admin >= o.admin - Subsidy(o) - CeilDiv(HiddenTotal(cfg, w0, actions), ONE)
      && (o.b <= B_SMOOTH ==> HiddenTotal(cfg, w0, actions) == 0)
  {
    hide Run, HiddenTotal, CostUnits, Opened, Backed, Ledger, CeilDiv, DoClose;
    var w, hidden := Run(cfg, w0, actions), HiddenTotal(cfg, w0, actions);
    var g := RunFromOpening(cfg, o, w0, actions);
    AdminStaysTillClose(cfg, w0, actions);
    RedeemInAnyOrder(cfg, w, g, owners);
    var w1 := Run(cfg, w, Redeems(owners));
    RunKeepsLedger(cfg, w, Redeems(owners), g);
    RunKeepsBacked(cfg, w, Redeems(owners), g, hidden);
    RedeemsHideNothing(cfg, w, owners);
    AdminStaysTillClose(cfg, w, Redeems(owners));
    CloseSucceeds(cfg, w1, g, now);
    LossIsBounded(w1, g, hidden);
  }
}
