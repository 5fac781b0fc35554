/** From the opening, over every run: no trade is ever refused as insolvent, and a holder can always sell. */
module SpotExits {
  import opened Machine
  import opened Lmsr
  import opened Sums
  import opened Spot
  import opened SpotLedger
  import opened SpotSolvency
  import opened SpotGuarantees
  import opened SpotLoss
  import opened CostMonotone
  import Fee

  /** What a run from an accepted opening ends in, where the cost is monotone. */
  lemma OpeningRunsSoundly(cfg: Config, o: Opening, w0: World, actions: seq<Action>) returns (g: Genesis)
    requires Fee.ValidParams(cfg.fees) && Total(o.wallets) + o.admin < TWO64 && Opened(cfg, o) == Ok(w0)
    requires o.b <= B_SMOOTH
    ensures Sound(Run(cfg, w0, actions), g) && FeeIsReached(cfg, Run(cfg, w0, actions).market)
  {
    hide Run, HiddenTotal, Ledger, Curve, Backed, FeeIsReached, InitMarket;
    g := RunFromOpening(cfg, o, w0, actions);
    OpeningFeeIsReached(cfg, o.admin, o.wallets, o.fixtureId, o.now, o.kickoffTs, o.freezeTs, o.b, o.seedQ, o.seedLiquidity, w0);
    RunKeepsFeePeak(cfg, w0, actions);
  }

  /** The solvency check at the tail of every trade never rejects: from every accepted opening with b up to
      2^52, after every run, whatever comes next. */
  lemma NeverInsolvent(cfg: Config, o: Opening, w0: World, actions: seq<Action>, a: Action)
    requires Fee.ValidParams(cfg.fees) && Total(o.wallets) + o.admin < TWO64 && Opened(cfg, o) == Ok(w0)
    requires o.b <= B_SMOOTH
    ensures Step(cfg, Run(cfg, w0, actions), a) != Err(SolvencyViolation)
  {
    hide Run, Sound, FeeIsReached, Step, Opened;
    var g := OpeningRunsSoundly(cfg, o, w0, actions);
    TailCheckIsInert(cfg, Run(cfg, w0, actions), a, g);
  }

  /** A holder can always sell: from every such opening, after every run, while the market trades and the clock
      is in order, under fee parameters whose peak fits. */
  lemma HoldersCanSell(cfg: Config, o: Opening, w0: World, actions: seq<Action>, owner: Owner, outcome: u8, tokensIn: u64, now: i64)
    requires Fee.ValidParams(cfg.fees) && Fee.RunsFit(cfg.fees)
    requires Total(o.wallets) + o.admin < TWO64 && Opened(cfg, o) == Ok(w0) && o.b <= B_SMOOTH
    requires var w := Run(cfg, w0, actions);
      && w.market.state == Trading && w.market.fee.lastTs <= now < w.market.fee.lastTs + TWO63
      && owner in w.positions && owner in w.wallets && outcome < N_OUTCOMES
      && 0 < tokensIn <= w.positions[owner].tokens[outcome]
    ensures Step(cfg, Run(cfg, w0, actions), Sell(owner, outcome, tokensIn, 0, now)).Ok?
  {
    hide Run, Sound, FeeIsReached, DoSell, Opened, Fee.RunsFit;
    var g := OpeningRunsSoundly(cfg, o, w0, actions);
    SellSucceeds(cfg, Run(cfg, w0, actions), g, owner, outcome, tokensIn, now);
  }
}
