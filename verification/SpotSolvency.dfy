/** Solvency of the spot market over whole runs: the telescoping proof sketched in the header of
    programs/amm/src/instructions/init_market.rs, with the sells' saturation made explicit.
    */
module SpotSolvency {
  import opened Machine
  import opened Q64
  import opened Lmsr
  import opened LmsrLaws
  import opened Sums
  import opened Spot
  import opened SpotLedger
  import opened Resolution
  import opened BudgetSearch
  import Fee

  function MinOf(q: Quantities): (m: nat)
    ensures m <= q[0] && m <= q[1] && m <= q[2]
  {
    Min(Min(q[0], q[1]), q[2])
  }

  function CostOfMarket(m: Market): nat {
    if m.b == 0 then 0 else Cost(m.q, m.b)
  }

  function SeedCost(g: Genesis): nat {
    if g.b == 0 then 0 else Cost(g.seedQ, g.b)
  }

  /** What a successful sell's saturating subtraction hides: by how much the cost rose on a sell. */
  function Hidden(cfg: Config, w: World, a: Action): nat
    requires Fee.ValidParams(cfg.fees)
  {
    if a.Sell? && Step(cfg, w, a).Ok? then
      SatSub(CostOfMarket(Step(cfg, w, a).value.market), CostOfMarket(w.market))
    else 0
  }

  function HiddenTotal(cfg: Config, w: World, actions: seq<Action>): nat
    requires Fee.ValidParams(cfg.fees)
    decreases |actions|
  {
    if actions == [] then 0
    else Hidden(cfg, w, actions[0]) + HiddenTotal(cfg, Apply(cfg, w, actions[0]), actions[1..])
  }

  // ------------------------------------------------------------ the potential

  /** Collateral above the curve's cost, in Q64.64. */
  function Potential(w: World): int {
    w.vault * ONE - CostOfMarket(w.market)
  }

  lemma BuyRaisesPotential(cfg: Config, w: World, a: Action, g: Genesis)
    requires Fee.ValidParams(cfg.fees) && Curve(w, g) && g.b > 0 && a.Buy? && Step(cfg, w, a).Ok?
    ensures Potential(Step(cfg, w, a).value) >= Potential(w)
  {
    hide DoBuy, Cost;
    var w' := Step(cfg, w, a).value;
    var delta := BuyMoves(cfg, w, a.owner, a.outcome, a.usdtIn, a.minTokensOut, a.now);
    assert w'.market.q == w.market.q[a.outcome := w.market.q[a.outcome] + delta];
    UpdateInRange(w.market.q, w.market.b, a.outcome, delta);
    CostFits(w'.market.q, w.market.b);
    ChargeFits(Cost(w.market.q, w.market.b), Cost(w'.market.q, w.market.b));
  }

  lemma SellNearlyKeepsPotential(cfg: Config, w: World, a: Action, g: Genesis)
    requires Fee.ValidParams(cfg.fees) && Curve(w, g) && g.b > 0 && a.Sell? && Step(cfg, w, a).Ok?
    ensures Potential(Step(cfg, w, a).value) + Hidden(cfg, w, a) >= Potential(w)
  {
    hide DoSell, Cost, InRange;
    var w' := Step(cfg, w, a).value;
    var gross, out := SellMoves(cfg, w, a.owner, a.outcome, a.tokensIn, a.minUsdtOut, a.now);
    assert w'.market.q == w.market.q[a.outcome := w.market.q[a.outcome] - a.tokensIn];
    var c0, c1 := Cost(w.market.q, w.market.b), Cost(w'.market.q, w.market.b);
    assert gross == SatSub(c0, c1) / ONE;
    DivBounds(SatSub(c0, c1), ONE);
  }

  lemma SetsKeepPotential(cfg: Config, w: World, a: Action, g: Genesis)
    requires Fee.ValidParams(cfg.fees) && Ledger(w, g) && Curve(w, g) && g.b > 0
    requires (a.MintSet? || a.RedeemSet?) && Step(cfg, w, a).Ok?
    ensures Potential(Step(cfg, w, a).value) == Potential(w)
  {
    hide DoMintSet, DoRedeemSet, Cost, InRange;
    var w' := Step(cfg, w, a).value;
    TradeKeeps(cfg, w, a, g);
    if a.MintSet? {
      MintSetMoves(w, a.owner, a.amount);
      SetsAreNeutral(w.market.q, w'.market.q, w.market.b, a.amount);
    } else {
      RedeemSetMoves(w, a.owner, a.amount);
      SetsAreNeutral(w'.market.q, w.market.q, w.market.b, a.amount);
    }
  }

  /** No step before resolution lowers the potential by more than a sell hides. */
  lemma StepPotential(cfg: Config, w: World, a: Action, g: Genesis)
    requires Fee.ValidParams(cfg.fees) && Ledger(w, g) && Curve(w, g) && g.b > 0 && Live(w)
    ensures Potential(Apply(cfg, w, a)) + Hidden(cfg, w, a) >= Potential(w)
  {
    hide DoBuy, DoSell, DoMintSet, DoRedeemSet, Cost, Ledger, Curve;
    if Step(cfg, w, a).Ok? {
      match a
      case Buy(_, _, _, _, _) => BuyRaisesPotential(cfg, w, a, g);
      case Sell(_, _, _, _, _) => SellNearlyKeepsPotential(cfg, w, a, g);
      case MintSet(_, _) => SetsKeepPotential(cfg, w, a, g);
      case RedeemSet(_, _) => SetsKeepPotential(cfg, w, a, g);
      case _ =>
    }
  }

  // --------------------------------------------------------------- the bound

  /** The seed condition of `init_market`, and the bound it starts: the vault covers the cost of the
      curve, up to the smallest seed and what sells hid. After resolution the same with the winners'
      claim in place of the cost. */
  ghost predicate SeedCovers(g: Genesis) {
    InRange(g.seedQ, g.b) && (g.credited + MinOf(g.seedQ)) * ONE >= Cost(g.seedQ, g.b)
  }

  /** The part of the seed that losses cannot reach, in Q64.64. */
  ghost function Floor(g: Genesis): int {
    g.credited * ONE - SeedCost(g)
  }

  ghost predicate Backed(w: World, g: Genesis, hidden: nat) {
    && (Live(w) ==> Potential(w) + hidden >= Floor(g))
    && (w.market.state == Resolved && w.market.outcome in {Team1, Draw, Team2} ==>
          (w.vault - w.market.supply[Winner(w.market.outcome)] - MinOf(g.seedQ)) * ONE + hidden >= Floor(g))
  }

  /** At resolution the cost covers the winner's whole quantity, seed included. */
  lemma ResolveKeepsBacked(cfg: Config, w: World, hint: u8, proof: ScoreProof, g: Genesis, hidden: nat)
    requires Ledger(w, g) && Curve(w, g) && g.b > 0 && Backed(w, g, hidden) && DoResolve(cfg, w, hint, proof).Ok?
    ensures Backed(DoResolve(cfg, w, hint, proof).value, g, hidden)
  {
    hide Cost;
    AcceptedMeansProven(cfg.resolve, w.market.fixtureId, hint, proof);
    var w' := DoResolve(cfg, w, hint, proof).value;
    var i := Winner(w'.market.outcome);
    CostRange(w.market.q, w.market.b);
    assert w.market.q[i] as int == g.seedQ[i] as int + w.market.supply[i];
  }

  lemma RedeemKeepsBacked(w: World, owner: Owner, g: Genesis, hidden: nat)
    requires Curve(w, g) && g.b > 0 && Backed(w, g, hidden) && DoRedeem(w, owner).Ok?
    ensures Backed(DoRedeem(w, owner).value, g, hidden)
  {
    hide Cost;
    RedeemPays(w, owner, g);
  }

  lemma PositionKeepsPotential(w: World, owner: Owner)
    requires DoOpenPosition(w, owner).Ok?
    ensures var w' := DoOpenPosition(w, owner).value;
      Potential(w') == Potential(w) && w'.market == w.market && w'.vault == w.vault
  {
  }

  lemma StepKeepsBacked(cfg: Config, w: World, a: Action, g: Genesis, hidden: nat)
    requires Fee.ValidParams(cfg.fees) && Ledger(w, g) && Curve(w, g) && g.b > 0 && Backed(w, g, hidden)
    ensures Backed(Apply(cfg, w, a), g, hidden + Hidden(cfg, w, a))
  {
    hide DoBuy, DoSell, DoMintSet, DoRedeemSet, DoRedeem, DoResolve, Ledger, Curve, Potential, Cost, Hidden;
    StepKeeps(cfg, w, a, g);
    LifecycleStep(cfg, w, a);
    if Live(w) {
      StepPotential(cfg, w, a, g);
    }
    if Step(cfg, w, a).Ok? {
      match a
      case Resolve(hint, proof) => ResolveKeepsBacked(cfg, w, hint, proof, g, hidden);
      case Redeem(owner) => RedeemKeepsBacked(w, owner, g, hidden);
      case OpenPosition(owner) => PositionKeepsPotential(w, owner);
      case Activate(now) =>
      case Freeze(now) =>
      case Close(now) =>
      case _ => var owner, d, usdt := TradeMoves(cfg, w, a);
    }
  }

  /** Over every run the vault covers the cost of the curve, less the smallest seed and the total of what
      sells hid. */
  lemma {:induction false} RunKeepsBacked(cfg: Config, w: World, actions: seq<Action>, g: Genesis, hidden: nat)
    requires Fee.ValidParams(cfg.fees) && Ledger(w, g) && Curve(w, g) && g.b > 0 && Backed(w, g, hidden)
    ensures Backed(Run(cfg, w, actions), g, hidden + HiddenTotal(cfg, w, actions))
    decreases |actions|
  {
    hide Apply, Ledger, Curve, Backed, Hidden;
    if actions != [] {
      StepKeepsBacked(cfg, w, actions[0], g, hidden);
      StepKeeps(cfg, w, actions[0], g);
      RunKeepsBacked(cfg, Apply(cfg, w, actions[0]), actions[1..], g, hidden + Hidden(cfg, w, actions[0]));
    }
  }
}
