/** What the invariants buy: a bounded loss for whoever seeds a market, exits that cannot fail, full
    redemption in any order, and no profit from a closed tour of the curve.
    */
module SpotGuarantees {
  import opened Machine
  import opened Q64
  import opened Lmsr
  import opened Sums
  import opened Spot
  import opened SpotLedger
  import opened SpotSolvency
  import opened Resolution
  import opened BudgetSearch
  import opened CostMonotone
  import Fee
  import LnMonotone

  /** A state of a market whose curve is in the range where the cost is monotone. */
  ghost predicate Sound(w: World, g: Genesis) {
    && g.b <= B_SMOOTH && SeedCovers(g)
    && Ledger(w, g) && Curve(w, g) && Backed(w, g, 0)
  }

  // ------------------------------------------------------------- reachability

  /** The seed bound `init_market` enforces, in Q64.64. */
  lemma SeedBound(g: Genesis)
    requires CostUnits(g.seedQ, g.b).Ok?
    requires g.credited >= CostUnits(g.seedQ, g.b).value - MinOf(g.seedQ)
    ensures SeedCovers(g)
  {
    hide Cost;
    MulMono(CostUnits(g.seedQ, g.b).value, g.credited + MinOf(g.seedQ), ONE);
  }

  /** `init_market` opens a sound market, for every accepted seed. */
  lemma InitIsBacked(cfg: Config, admin: u64, wallets: map<Owner, u64>, fixtureId: i64, now: i64, kickoffTs: i64,
                     freezeTs: i64, b: u64, seedQ: Quantities, seedLiquidity: u64, w: World) returns (g: Genesis)
    requires InitMarket(cfg, admin, wallets, fixtureId, now, kickoffTs, freezeTs, b, seedQ, seedLiquidity) == Ok(w)
    requires Total(wallets) + admin < TWO64
    ensures g.seedQ == seedQ && g.b == b && g.credited == seedLiquidity && g.totalUsdt == Total(wallets) + admin
    ensures SeedCovers(g) && Ledger(w, g) && Curve(w, g) && Backed(w, g, 0)
  {
    hide Cost, CostUnits, PriceChecked, Ledger, Curve, SeedCovers;
    g := InitKeeps(cfg, admin, wallets, fixtureId, now, kickoffTs, freezeTs, b, seedQ, seedLiquidity);
    SeedBound(g);
    OpensBacked(w, g);
  }

  lemma OpensBacked(w: World, g: Genesis)
    requires SeedCovers(g) && w.market.state == Open
    requires w.vault == g.credited && w.market.q == g.seedQ && w.market.b == g.b
    ensures Backed(w, g, 0)
  {
  }

  /** With a monotone cost a sell hides nothing. */
  lemma SmoothHidesNothing(cfg: Config, w: World, a: Action, g: Genesis)
    requires Fee.ValidParams(cfg.fees) && Curve(w, g) && B_MIN <= g.b <= B_SMOOTH
    ensures Hidden(cfg, w, a) == 0
  {
    hide DoSell, Cost;
    if a.Sell? && Step(cfg, w, a).Ok? {
      var w' := Step(cfg, w, a).value;
      var gross, out := SellMoves(cfg, w, a.owner, a.outcome, a.tokensIn, a.minUsdtOut, a.now);
      assert Raised(w'.market.q, a.outcome, a.tokensIn) == w.market.q;
      CostIsMonotone(w'.market.q, w.market.b, a.outcome, a.tokensIn);
    }
  }

  lemma StepKeepsSound(cfg: Config, w: World, a: Action, g: Genesis)
    requires Fee.ValidParams(cfg.fees) && Sound(w, g)
    ensures Sound(Apply(cfg, w, a), g)
  {
    hide Ledger, Curve, Backed, Apply, Hidden;
    StepKeeps(cfg, w, a, g);
    StepKeepsBacked(cfg, w, a, g, 0);
    SmoothHidesNothing(cfg, w, a, g);
  }

  /** Soundness over every run. */
  lemma {:induction false} RunKeepsSound(cfg: Config, w: World, actions: seq<Action>, g: Genesis)
    requires Fee.ValidParams(cfg.fees) && Sound(w, g)
    ensures Sound(Run(cfg, w, actions), g)
    decreases |actions|
  {
    hide Sound, Apply;
    if actions != [] {
      StepKeepsSound(cfg, w, actions[0], g);
      RunKeepsSound(cfg, Apply(cfg, w, actions[0]), actions[1..], g);
    }
  }

  // --------------------------------------------------- the tail check is inert

  /** A state that would be backed covers every outcome's supply. */
  lemma BackedCoversSupply(g: Genesis, q: Quantities, supply: Quantities, vault: nat)
    requires SeedCovers(g) && vault * ONE - Cost(q, g.b) >= Floor(g)
    requires forall i :: 0 <= i < N_OUTCOMES ==> q[i] as int == g.seedQ[i] as int + supply[i]
    ensures forall i :: 0 <= i < N_OUTCOMES ==> supply[i] <= vault
  {
    hide Cost;
    CostRange(q, g.b);
    forall i | 0 <= i < N_OUTCOMES ensures supply[i] <= vault {
      MulMono(q[i], MaxOf(q), ONE);
    }
  }

  lemma CoveredPasses(vault: u64, supply: Quantities)
    requires forall i :: 0 <= i < N_OUTCOMES ==> supply[i] <= vault
    ensures AssertSolventMulti(vault, supply) == Ok(())
  {
    SolventMeans(vault, supply);
  }

  /** A buy is refused for solvency only at its tail, after an affordable delta was solved. */
  lemma BuyRefusal(cfg: Config, w: World, owner: Owner, outcome: u8, usdtIn: u64, min: u64, now: i64)
    returns (delta: nat, supply: Quantities)
    requires Fee.ValidParams(cfg.fees) && DoBuy(cfg, w, owner, outcome, usdtIn, min, now) == Err(SolvencyViolation)
    ensures w.market.state == Trading && outcome < N_OUTCOMES && InRange(w.market.q, w.market.b)
    ensures w.market.q[outcome] + delta <= Q_MAX && CostOf(w.market.q, w.market.b, outcome, delta) <= usdtIn
    ensures w.market.supply[outcome] + delta < TWO64 && w.vault + usdtIn < TWO64
    ensures supply == w.market.supply[outcome := w.market.supply[outcome] + delta]
    ensures AssertSolventMulti(w.vault + usdtIn, supply).Err?
  {
    hide CostOf, PriceOf, BuyDelta, Fee.FeeNum, Fee.Reduced;
    var m := w.market;
    var net := NetOf(usdtIn, FeeCharged(cfg, m.fee, now).value.0);
    DeltaErrors(m.q, m.b, outcome, net);
    delta := BuyDelta(m.q, m.b, outcome, net).value;
    BuyDeltaIsLocalMaximum(m.q, m.b, outcome, net);
    supply := m.supply[outcome := m.supply[outcome] + delta];
  }

  lemma DeltaErrors(q: Quantities, b: u64, outcome: nat, budget: u64)
    ensures BuyDelta(q, b, outcome, budget) != Err(SolvencyViolation)
  {
    hide CostOf, Halve, UpperBracket;
  }

  lemma BuyIsNeverInsolvent(cfg: Config, w: World, g: Genesis, owner: Owner, outcome: u8, usdtIn: u64, min: u64, now: i64)
    requires Fee.ValidParams(cfg.fees) && Sound(w, g)
    ensures DoBuy(cfg, w, owner, outcome, usdtIn, min, now) != Err(SolvencyViolation)
  {
    hide DoBuy, CostOf, Sound;
    if DoBuy(cfg, w, owner, outcome, usdtIn, min, now) == Err(SolvencyViolation) {
      var delta, supply := BuyRefusal(cfg, w, owner, outcome, usdtIn, min, now);
      BoughtIsCovered(w, g, outcome, delta, usdtIn, supply);
      CoveredPasses(w.vault + usdtIn, supply);
    }
  }

  lemma BoughtIsCovered(w: World, g: Genesis, outcome: nat, delta: nat, usdtIn: nat, supply: Quantities)
    requires Sound(w, g) && Live(w) && outcome < N_OUTCOMES && w.market.q[outcome] + delta <= Q_MAX
    requires CostOf(w.market.q, w.market.b, outcome, delta) <= usdtIn && w.market.supply[outcome] + delta < TWO64
    requires supply == w.market.supply[outcome := w.market.supply[outcome] + delta]
    ensures forall i :: 0 <= i < N_OUTCOMES ==> supply[i] <= w.vault + usdtIn
  {
    hide Cost, Ledger;
    var q := Raised(w.market.q, outcome, delta);
    UpdateInRange(w.market.q, w.market.b, outcome, delta);
    CostFits(q, w.market.b);
    ChargeFits(Cost(w.market.q, w.market.b), Cost(q, w.market.b));
    BackedCoversSupply(g, q, supply, w.vault + usdtIn);
  }

  lemma HoldingIsSupplied(w: World, g: Genesis, owner: Owner, outcome: nat)
    requires Ledger(w, g) && owner in w.positions && outcome < N_OUTCOMES
    ensures w.positions[owner].tokens[outcome] <= w.market.supply[outcome]
  {
    TotalAtLeast(TokensOf(w.positions, outcome), owner);
  }

  /** A refund leaves the vault backed by what the curve costs afterwards. */
  lemma RefundIsBacked(w: World, g: Genesis, outcome: nat, tokensIn: u64) returns (gross: u64, q: Quantities)
    requires Sound(w, g) && Live(w) && outcome < N_OUTCOMES && 0 < tokensIn <= w.market.q[outcome]
    ensures q == w.market.q[outcome := w.market.q[outcome] - tokensIn]
    ensures SellRefund(w.market.q, w.market.b, outcome, tokensIn).Ok?
    ensures gross == SellRefund(w.market.q, w.market.b, outcome, tokensIn).value
    ensures (w.vault - gross) * ONE - Cost(q, g.b) >= Floor(g)
  {
    hide Cost, Ledger, SellRefund;
    var m := w.market;
    BeltsAreInert(m.q, m.b, outcome, tokensIn);
    gross := SellRefund(m.q, m.b, outcome, tokensIn).value;
    q := m.q[outcome := m.q[outcome] - tokensIn];
    DivBounds(Cost(m.q, m.b) - Cost(q, m.b), ONE);
  }

  /** What a sell can rely on in a sound market: quantities and collateral cover it. */
  lemma SoldIsCovered(w: World, g: Genesis, owner: Owner, outcome: nat, tokensIn: u64)
    returns (gross: u64, supply: Quantities)
    requires Sound(w, g) && Live(w) && outcome < N_OUTCOMES && owner in w.positions
    requires 0 < tokensIn <= w.positions[owner].tokens[outcome]
    ensures tokensIn <= w.market.supply[outcome] <= w.market.q[outcome]
    ensures SellRefund(w.market.q, w.market.b, outcome, tokensIn).Ok?
    ensures gross == SellRefund(w.market.q, w.market.b, outcome, tokensIn).value <= w.vault
    ensures supply == w.market.supply[outcome := w.market.supply[outcome] - tokensIn]
    ensures forall i :: 0 <= i < N_OUTCOMES ==> supply[i] <= w.vault - gross
  {
    hide Cost, SellRefund;
    HoldingIsSupplied(w, g, owner, outcome);
    var q;
    gross, q := RefundIsBacked(w, g, outcome, tokensIn);
    supply := w.market.supply[outcome := w.market.supply[outcome] - tokensIn];
    var left := w.vault - gross;
    CostRange(q, g.b);
    MulMono(MinOf(g.seedQ), MaxOf(q), ONE);
    BackedCoversSupply(g, q, supply, left);
  }

  lemma SellIsNeverInsolvent(cfg: Config, w: World, g: Genesis, owner: Owner, outcome: u8, tokensIn: u64, min: u64, now: i64)
    requires Fee.ValidParams(cfg.fees) && Sound(w, g)
    ensures DoSell(cfg, w, owner, outcome, tokensIn, min, now) != Err(SolvencyViolation)
  {
    hide SellRefund, PriceOf, Fee.FeeNum, Fee.Reduced, Sound;
    if owner in w.positions && outcome < N_OUTCOMES && w.market.state == Trading && 0 < tokensIn <= w.positions[owner].tokens[outcome]
      && FeeCharged(cfg, w.market.fee, now).Ok? {
      var gross, supply := SoldIsCovered(w, g, owner, outcome, tokensIn);
      CoveredPasses(w.vault - NetOf(gross, FeeCharged(cfg, w.market.fee, now).value.0), supply);
    }
  }

  /** A complete set moves the vault and every supply alike. */
  lemma SetsAreNeverInsolvent(w: World, g: Genesis, owner: Owner, amount: u64)
    requires Curve(w, g)
    ensures DoMintSet(w, owner, amount) != Err(SolvencyViolation)
    ensures DoRedeemSet(w, owner, amount) != Err(SolvencyViolation)
  {
    var m := w.market;
    if m.state == Trading && w.vault + amount < TWO64 && GrownBySet(m.q, m.supply, amount).Ok? {
      CoveredPasses(w.vault + amount, GrownBySet(m.q, m.supply, amount).value.1);
    }
    var whole: Quantities := [amount, amount, amount];
    if m.state == Trading && amount <= w.vault && SubFromAll(m.supply, whole).Ok? {
      CoveredPasses(w.vault - amount, SubFromAll(m.supply, whole).value);
    }
  }

  /** The solvency check at the tail of every trade never rejects a reachable trade. */
  lemma TailCheckIsInert(cfg: Config, w: World, a: Action, g: Genesis)
    requires Fee.ValidParams(cfg.fees) && Sound(w, g)
    ensures Step(cfg, w, a) != Err(SolvencyViolation)
  {
    hide DoBuy, DoSell, DoMintSet, DoRedeemSet, Sound, Ledger, Curve;
    SoundParts(w, g);
    match a
    case Buy(owner, outcome, usdtIn, min, now) => BuyIsNeverInsolvent(cfg, w, g, owner, outcome, usdtIn, min, now);
    case Sell(owner, outcome, tokensIn, min, now) => SellIsNeverInsolvent(cfg, w, g, owner, outcome, tokensIn, min, now);
    case MintSet(owner, amount) => SetsAreNeverInsolvent(w, g, owner, amount);
    case RedeemSet(owner, amount) => SetsAreNeverInsolvent(w, g, owner, amount);
    case _ =>
  }

  // ----------------------------------------------------------- exits succeed

  /** The fee state of a run: not above its peak, at a price. */
  predicate FeeIsReached(cfg: Config, m: Market)
    requires Fee.ValidParams(cfg.fees)
  {
    m.fee.vAcc <= Fee.PeakAcc(cfg.fees) && m.fee.lastPriceBps <= BPS_DENOM
  }

  /** When the peak fits, both halves of the fee computation succeed. */
  lemma FeeWorks(cfg: Config, m: Market, q: Quantities, outcome: nat, now: i64)
    requires Fee.ValidParams(cfg.fees) && Fee.RunsFit(cfg.fees) && FeeIsReached(cfg, m)
    requires m.fee.lastTs <= now < m.fee.lastTs + TWO63 && outcome < N_OUTCOMES && InRange(q, m.b)
    ensures FeeCharged(cfg, m.fee, now).Ok?
    ensures FeeAfter(cfg, m.b, m.fee, q, outcome, FeeCharged(cfg, m.fee, now).value.1, now).Ok?
  {
    hide PriceOf, Fee.DecayVRef, Fee.FeeFromVRef, Fee.RunsFit, Fee.PeakAcc;
    var price := PriceChecked(q, m.b, outcome).value;
    Fee.TradeSucceeds(cfg.fees, m.fee, Fee.Trade(now, price));
  }

  /** No account can overflow: all USDT together fits 64 bits. */
  lemma RoomToPay(w: World, g: Genesis, owner: Owner)
    requires Ledger(w, g) && owner in w.wallets
    ensures w.wallets[owner] + w.vault + w.admin < TWO64
  {
    TotalAtLeast(w.wallets, owner);
  }

  /** A holder can always sell: whatever the run before, a sale of tokens held goes through, for the
      floored refund less the fee. */
  lemma SellSucceeds(cfg: Config, w: World, g: Genesis, owner: Owner, outcome: u8, tokensIn: u64, now: i64)
    requires Fee.ValidParams(cfg.fees) && Fee.RunsFit(cfg.fees) && FeeIsReached(cfg, w.market)
    requires Sound(w, g) && w.market.state == Trading && w.market.fee.lastTs <= now < w.market.fee.lastTs + TWO63
    requires owner in w.positions && owner in w.wallets && outcome < N_OUTCOMES
    requires 0 < tokensIn <= w.positions[owner].tokens[outcome]
    ensures DoSell(cfg, w, owner, outcome, tokensIn, 0, now).Ok?
  {
    hide SellRefund, PriceOf, Sound, Ledger, Fee.ComputeFee, FeeAfter, Fee.RunsFit, FeeIsReached;
    var m := w.market;
    var gross, supply := SoldIsCovered(w, g, owner, outcome, tokensIn);
    var q: Quantities := m.q[outcome := m.q[outcome] - tokensIn];
    SoundParts(w, g);
    FeeWorks(cfg, m, q, outcome, now);
    RoomToPay(w, g, owner);
    CoveredPasses(w.vault - NetOf(gross, FeeCharged(cfg, m.fee, now).value.0), supply);
  }

  lemma SoundParts(w: World, g: Genesis)
    requires Sound(w, g)
    ensures Ledger(w, g) && Curve(w, g) && w.market.usdtCollateral == w.vault && (Live(w) ==> InRange(w.market.q, w.market.b))
  {
  }

  // -------------------------------------------------------------- redemption

  /** A holder of a resolved market can always redeem, for exactly the winning tokens held. */
  lemma RedeemSucceeds(w: World, g: Genesis, owner: Owner)
    requires Ledger(w, g) && Curve(w, g) && w.market.state == Resolved
    requires owner in w.positions && owner in w.wallets && !w.positions[owner].redeemed
    ensures DoRedeem(w, owner).Ok?
  {
    forall i | 0 <= i < N_OUTCOMES ensures w.positions[owner].tokens[i] <= w.market.supply[i] {
      TotalAtLeast(TokensOf(w.positions, i), owner);
    }
    RoomToPay(w, g, owner);
  }

  function Redeems(owners: seq<Owner>): (actions: seq<Action>)
    ensures |actions| == |owners|
  {
    if owners == [] then [] else [Redeem(owners[0])] + Redeems(owners[1..])
  }

  /** The account of `o` after its own redemption alone. */
  ghost predicate PaidOut(w: World, w': World, o: Owner)
    requires o in w.positions && o in w.wallets && w.market.outcome in {Team1, Draw, Team2}
  {
    && o in w'.positions && w'.positions[o].redeemed && o in w'.wallets
    && w'.wallets[o] as int == w.wallets[o] as int + w.positions[o].tokens[Winner(w.market.outcome)]
  }

  ghost predicate Untouched(w: World, w': World, o: Owner) {
    && (o in w.positions ==> o in w'.positions && w'.positions[o] == w.positions[o])
    && (o in w.wallets ==> o in w'.wallets && w'.wallets[o] == w.wallets[o])
  }

  /** Any number of holders redeem in any order: every redemption succeeds, each holder is paid exactly
      the winning tokens held, and nobody else's account moves. */
  lemma {:induction false} RedeemInAnyOrder(cfg: Config, w: World, g: Genesis, owners: seq<Owner>)
    requires Fee.ValidParams(cfg.fees) && Ledger(w, g) && Curve(w, g) && w.market.state == Resolved
    requires Distinct(owners)
    requires forall o :: o in owners ==> o in w.positions && o in w.wallets && !w.positions[o].redeemed
    ensures var w' := Run(cfg, w, Redeems(owners));
      && w'.market.state == Resolved && w'.market.outcome == w.market.outcome && w'.market.freezeTs == w.market.freezeTs
      && (forall o :: o in owners ==> PaidOut(w, w', o))
      && (forall o :: o !in owners ==> Untouched(w, w', o))
    decreases |owners|
  {
    hide DoRedeem, Ledger;
    if owners != [] {
      var first, rest := owners[0], owners[1..];
      assert first in owners && first !in rest && forall o :: o in rest ==> o in owners;
      RedeemSucceeds(w, g, first);
      RedeemPays(w, first, g);
      RedeemKeeps(w, first, g);
      var w1 := DoRedeem(w, first).value;
      assert Redeems(owners)[0] == Redeem(first) && Redeems(owners)[1..] == Redeems(rest);
      assert Apply(cfg, w, Redeem(first)) == w1;
      RedeemInAnyOrder(cfg, w1, g, rest);
      var w' := Run(cfg, w1, Redeems(rest));
      forall o | o in owners ensures PaidOut(w, w', o) {
        if o != first { assert o in rest && PaidOut(w1, w', o); }
        else { assert Untouched(w1, w', o); }
      }
      forall o | o !in owners ensures Untouched(w, w', o) {
        assert Untouched(w1, w', o);
      }
    }
  }

  /** Closing hands the admin the whole vault, and cannot fail once the grace period is over. */
  lemma CloseSucceeds(cfg: Config, w: World, g: Genesis, now: i64)
    requires Ledger(w, g) && w.market.state == Resolved
    requires -TWO63 <= w.market.freezeTs + cfg.graceSecs <= now
    ensures DoClose(cfg, w, now).Ok?
    ensures DoClose(cfg, w, now).value.admin == w.admin + w.vault && DoClose(cfg, w, now).value.vault == 0
  {
    TotalNonNegative(w.wallets);
  }

  /** Bounded loss, for every liquidity: in a resolved market the vault holds what the winners may still
      redeem and the seed, less the opening cost above the smallest seeded quantity and what sells hid. */
  lemma LossIsBounded(w: World, g: Genesis, hidden: nat)
    requires SeedCovers(g) && Backed(w, g, hidden)
    requires w.market.state == Resolved && w.market.outcome in {Team1, Draw, Team2}
    ensures CostUnits(g.seedQ, g.b).Ok?
    ensures w.vault >= w.market.supply[Winner(w.market.outcome)] + g.credited
                       - (CostUnits(g.seedQ, g.b).value - MinOf(g.seedQ)) - CeilDiv(hidden, ONE)
  {
    hide Cost;
    CostRange(g.seedQ, g.b);
    CeilBounds(hidden, ONE);
  }

  /** b times the computed ln 3, in whole units. */
  function Ln3Subsidy(b: nat): (units: nat) {
    LnMonotone.LnRange(3 * ONE);
    MulMono(0, Ln(3 * ONE), b);
    CeilDiv(b * Ln(3 * ONE), ONE)
  }

  /** From zero seeds the opening cost is b times the computed ln 3, rounded up. */
  lemma ZeroSeedsCostLn3(seedQ: Quantities, b: u64)
    requires seedQ == [0, 0, 0] && InRange(seedQ, b)
    ensures CostUnits(seedQ, b).Ok? && CostUnits(seedQ, b).value == Ln3Subsidy(b) && MinOf(seedQ) == 0
  {
    hide Ln, ExpNeg;
    LeaderIsOne(seedQ, b, 0);
    LeaderIsOne(seedQ, b, 1);
    LeaderIsOne(seedQ, b, 2);
    assert ExpSum(seedQ, b) == 3 * ONE;
  }

  // -------------------------------------------------------------- whole runs

  /** With a monotone cost no run hides anything. */
  lemma {:induction false} RunHidesNothing(cfg: Config, w: World, actions: seq<Action>, g: Genesis)
    requires Fee.ValidParams(cfg.fees) && Ledger(w, g) && Curve(w, g) && B_MIN <= g.b <= B_SMOOTH
    ensures HiddenTotal(cfg, w, actions) == 0
    decreases |actions|
  {
    hide Apply, Hidden, Ledger, Curve;
    if actions != [] {
      SmoothHidesNothing(cfg, w, actions[0], g);
      StepKeeps(cfg, w, actions[0], g);
      RunHidesNothing(cfg, Apply(cfg, w, actions[0]), actions[1..], g);
    }
  }

  /** The statement the header of `init_market.rs` sketches, over every run from every accepted opening
      and for every liquidity: the vault covers the cost of the curve less the smallest seed, up to
      what sells hid. Where the cost is monotone they hide nothing, and the vault covers every
      outcome. */
  lemma SolventOverEveryRun(cfg: Config, admin: u64, wallets: map<Owner, u64>, fixtureId: i64, now: i64, kickoffTs: i64,
                            freezeTs: i64, b: u64, seedQ: Quantities, seedLiquidity: u64, w0: World, actions: seq<Action>)
    requires Fee.ValidParams(cfg.fees) && Total(wallets) + admin < TWO64
    requires InitMarket(cfg, admin, wallets, fixtureId, now, kickoffTs, freezeTs, b, seedQ, seedLiquidity) == Ok(w0)
    ensures var w := Run(cfg, w0, actions); var hidden := HiddenTotal(cfg, w0, actions);
      && w.market.usdtCollateral == w.vault
      && (Live(w) ==> (w.vault + MinOf(seedQ)) * ONE + hidden >= CostOfMarket(w.market))
      && (b <= B_SMOOTH ==> hidden == 0)
      && (Live(w) ==> forall i :: 0 <= i < N_OUTCOMES ==> w.market.supply[i] <= w.vault)
  {
    hide InitMarket, Cost, InRange, Run, HiddenTotal, CostOfMarket;
    var g := InitIsBacked(cfg, admin, wallets, fixtureId, now, kickoffTs, freezeTs, b, seedQ, seedLiquidity, w0);
    SeedIsInRange(g);
    RunKeepsBacked(cfg, w0, actions, g, 0);
    RunKeepsLedger(cfg, w0, actions, g);
    SeedSlack(g);
    if b <= B_SMOOTH {
      RunHidesNothing(cfg, w0, actions, g);
    }
  }

  lemma SeedSlack(g: Genesis)
    requires SeedCovers(g)
    ensures Floor(g) >= -(MinOf(g.seedQ) * ONE)
  {
  }

  lemma SeedIsInRange(g: Genesis)
    requires SeedCovers(g)
    ensures B_MIN <= g.b <= B_MAX
  {
  }

  /** Between two states before resolution the potential drops by at most what sells hid. */
  lemma {:induction false} RunPotential(cfg: Config, w: World, actions: seq<Action>, g: Genesis)
    requires Fee.ValidParams(cfg.fees) && Ledger(w, g) && Curve(w, g) && g.b > 0
    requires Live(Run(cfg, w, actions))
    ensures Potential(Run(cfg, w, actions)) + HiddenTotal(cfg, w, actions) >= Potential(w)
    ensures Run(cfg, w, actions).admin == w.admin
    decreases |actions|
  {
    hide Step, Hidden, Ledger, Curve, Potential;
    if actions != [] {
      OutcomeIsFinal(cfg, w, actions);
      StepPotential(cfg, w, actions[0], g);
      AdminStays(cfg, w, actions[0]);
      StepKeeps(cfg, w, actions[0], g);
      RunPotential(cfg, Apply(cfg, w, actions[0]), actions[1..], g);
    }
  }

  lemma AdminStays(cfg: Config, w: World, a: Action)
    requires Fee.ValidParams(cfg.fees) && Live(w)
    ensures Apply(cfg, w, a).admin == w.admin
  {
    hide DoBuy, DoSell, DoMintSet, DoRedeemSet;
    if Step(cfg, w, a).Ok? && (a.Buy? || a.Sell? || a.MintSet? || a.RedeemSet?) {
      var owner, d, usdt := TradeMoves(cfg, w, a);
    }
  }

  /** No free tour: any mix of trades and complete sets that brings the curve back to where it was leaves
      all traders together with at most what the sells hid, and with nothing where the cost is monotone. */
  lemma NoFreeTour(cfg: Config, w: World, actions: seq<Action>, g: Genesis)
    requires Fee.ValidParams(cfg.fees) && Ledger(w, g) && Curve(w, g) && g.b >= B_MIN
    requires Live(w) && Live(Run(cfg, w, actions)) && Run(cfg, w, actions).market.q == w.market.q
    ensures Total(Run(cfg, w, actions).wallets) * ONE <= Total(w.wallets) * ONE + HiddenTotal(cfg, w, actions)
    ensures g.b <= B_SMOOTH ==> Total(Run(cfg, w, actions).wallets) <= Total(w.wallets)
  {
    hide Run, HiddenTotal, Cost;
    RunKeepsLedger(cfg, w, actions, g);
    RunPotential(cfg, w, actions, g);
    if g.b <= B_SMOOTH {
      RunHidesNothing(cfg, w, actions, g);
    }
  }

  /** Over every run of the market the accumulator stays at or below its peak. */
  lemma {:induction false} RunKeepsFeePeak(cfg: Config, w: World, actions: seq<Action>)
    requires Fee.ValidParams(cfg.fees) && FeeIsReached(cfg, w.market)
    ensures FeeIsReached(cfg, Run(cfg, w, actions).market)
    decreases |actions|
  {
    hide Apply, FeeIsReached;
    if actions != [] {
      StepKeepsFeePeak(cfg, w, actions[0]);
      RunKeepsFeePeak(cfg, Apply(cfg, w, actions[0]), actions[1..]);
    }
  }

  lemma StepKeepsFeePeak(cfg: Config, w: World, a: Action)
    requires Fee.ValidParams(cfg.fees) && FeeIsReached(cfg, w.market)
    ensures FeeIsReached(cfg, Apply(cfg, w, a).market)
  {
    hide DoBuy, DoSell, FeeIsReached;
    if Step(cfg, w, a).Ok? {
      match a
      case Buy(owner, outcome, usdtIn, min, now) => BuyKeepsFeePeak(cfg, w, owner, outcome, usdtIn, min, now);
      case Sell(owner, outcome, tokensIn, min, now) => SellKeepsFeePeak(cfg, w, owner, outcome, tokensIn, min, now);
      case _ => assert FeeIsReached(cfg, Apply(cfg, w, a).market) by { OthersKeepFee(cfg, w, a); }
    }
  }

  lemma OthersKeepFee(cfg: Config, w: World, a: Action)
    requires Fee.ValidParams(cfg.fees) && FeeIsReached(cfg, w.market) && !a.Buy? && !a.Sell?
    ensures FeeIsReached(cfg, Apply(cfg, w, a).market)
  {
    hide Fee.PeakAcc;
  }

  lemma BuyKeepsFeePeak(cfg: Config, w: World, owner: Owner, outcome: u8, usdtIn: u64, min: u64, now: i64)
    requires Fee.ValidParams(cfg.fees) && FeeIsReached(cfg, w.market)
    requires DoBuy(cfg, w, owner, outcome, usdtIn, min, now).Ok?
    ensures FeeIsReached(cfg, DoBuy(cfg, w, owner, outcome, usdtIn, min, now).value.market)
  {
    hide BuyDelta, FeeCharged, FeeAfter, NetOf, AssertSolventMulti, FeeIsReached;
    var m, charged := w.market, FeeCharged(cfg, w.market.fee, now).value;
    var q: Quantities := m.q[outcome := m.q[outcome] + BuyDelta(m.q, m.b, outcome, NetOf(usdtIn, charged.0)).value];
    ArmedKeepsPeak(cfg, m, q, outcome, now);
    var w' := DoBuy(cfg, w, owner, outcome, usdtIn, min, now).value;
    assert w'.market.fee == FeeAfter(cfg, m.b, m.fee, q, outcome, charged.1, now).value;
    SameFee(cfg, m.(fee := w'.market.fee), w'.market);
  }

  lemma SellKeepsFeePeak(cfg: Config, w: World, owner: Owner, outcome: u8, tokensIn: u64, min: u64, now: i64)
    requires Fee.ValidParams(cfg.fees) && FeeIsReached(cfg, w.market)
    requires DoSell(cfg, w, owner, outcome, tokensIn, min, now).Ok?
    ensures FeeIsReached(cfg, DoSell(cfg, w, owner, outcome, tokensIn, min, now).value.market)
  {
    hide SellRefund, FeeCharged, FeeAfter, NetOf, AssertSolventMulti, FeeIsReached;
    var m, charged := w.market, FeeCharged(cfg, w.market.fee, now).value;
    var q: Quantities := m.q[outcome := m.q[outcome] - tokensIn];
    ArmedKeepsPeak(cfg, m, q, outcome, now);
    var w' := DoSell(cfg, w, owner, outcome, tokensIn, min, now).value;
    assert w'.market.fee == FeeAfter(cfg, m.b, m.fee, q, outcome, charged.1, now).value;
    SameFee(cfg, m.(fee := w'.market.fee), w'.market);
  }

  lemma SameFee(cfg: Config, m: Market, m': Market)
    requires Fee.ValidParams(cfg.fees) && FeeIsReached(cfg, m) && m.fee == m'.fee
    ensures FeeIsReached(cfg, m')
  {
    hide Fee.PeakAcc;
  }

  lemma ArmedKeepsPeak(cfg: Config, m: Market, q: Quantities, outcome: nat, now: i64)
    requires Fee.ValidParams(cfg.fees) && FeeIsReached(cfg, m) && FeeCharged(cfg, m.fee, now).Ok?
    requires FeeAfter(cfg, m.b, m.fee, q, outcome, FeeCharged(cfg, m.fee, now).value.1, now).Ok?
    ensures FeeIsReached(cfg, m.(fee := FeeAfter(cfg, m.b, m.fee, q, outcome, FeeCharged(cfg, m.fee, now).value.1, now).value))
  {
    hide PriceOf, Fee.DecayVRef, Fee.FeeFromVRef, Fee.PeakAcc;
    Fee.TradeKeepsPeak(cfg.fees, m.fee, Fee.Trade(now, PriceChecked(q, m.b, outcome).value));
  }

  /** A market opens with a fee state of that kind. */
  lemma OpeningFeeIsReached(cfg: Config, admin: u64, wallets: map<Owner, u64>, fixtureId: i64, now: i64, kickoffTs: i64,
                            freezeTs: i64, b: u64, seedQ: Quantities, seedLiquidity: u64, w: World)
    requires Fee.ValidParams(cfg.fees)
    requires InitMarket(cfg, admin, wallets, fixtureId, now, kickoffTs, freezeTs, b, seedQ, seedLiquidity) == Ok(w)
    ensures FeeIsReached(cfg, w.market)
  {
    hide Cost, CostUnits, PriceOf, Fee.PeakAcc;
  }
}
