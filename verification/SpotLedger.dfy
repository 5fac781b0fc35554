/** What every step of the spot market keeps: the token ledger, the books against the vault, the total
    of all USDT, and the lifecycle.
    */
module SpotLedger {
  import opened Machine
  import opened Lmsr
  import opened Sums
  import opened Spot
  import opened Resolution
  import opened BudgetSearch
  import Fee

  /** What the market was opened with. `totalUsdt` is every unit of USDT in the accounts modelled. */
  datatype Genesis = Genesis(seedQ: Quantities, b: u64, credited: u64, totalUsdt: nat)

  ghost function TokensOf(positions: map<Owner, Position>, i: nat): map<Owner, int>
    requires i < N_OUTCOMES
  {
    map o | o in positions :: positions[o].tokens[i]
  }

  ghost function AllUsdt(w: World): int {
    Total(w.wallets) + w.vault + w.admin
  }

  ghost predicate Live(w: World) {
    w.market.state in {Open, Trading, Locked}
  }

  /** Supplies are the sums of the positions, the books equal the vault, USDT is conserved, and a
      redeemed position is empty. */
  ghost predicate Ledger(w: World, g: Genesis) {
    && (forall i :: 0 <= i < N_OUTCOMES ==> Total(TokensOf(w.positions, i)) == w.market.supply[i])
    && w.market.usdtCollateral == w.vault
    && AllUsdt(w) == g.totalUsdt < TWO64
    && (forall o :: o in w.positions && w.positions[o].redeemed ==> w.positions[o].tokens == [0, 0, 0])
  }

  /** Until resolution: quantities are the seed plus the users' supply, no outcome is set, nothing
      was redeemed, and the vault covers every outcome. Afterwards it covers the winner. */
  ghost predicate Curve(w: World, g: Genesis) {
    && w.market.b == g.b
    && (Live(w) ==>
      && w.market.outcome == Unset && InRange(w.market.q, w.market.b)
      && (forall i :: 0 <= i < N_OUTCOMES ==> w.market.q[i] as int == g.seedQ[i] as int + w.market.supply[i])
      && (forall i :: 0 <= i < N_OUTCOMES ==> w.market.supply[i] <= w.vault)
      && (forall o :: o in w.positions ==> !w.positions[o].redeemed))
    && (w.market.state == Resolved ==>
      && w.market.outcome in {Team1, Draw, Team2}
      && w.market.supply[Winner(w.market.outcome)] <= w.vault)
    && (w.market.state == Closed ==> w.market.outcome in {Team1, Draw, Team2})
  }

  function Winner(o: Outcome): (i: nat)
    requires o in {Team1, Draw, Team2}
    ensures i < N_OUTCOMES
  {
    match o
    case Team1 => 0
    case Draw => 1
    case Team2 => 2
  }

  // ------------------------------------------------------- the trading moves

  /** The three signed changes of a trade. */
  type Delta = d: seq<int> | |d| == N_OUTCOMES witness [0, 0, 0]

  function OneSided(outcome: nat, amount: int): Delta
    requires outcome < N_OUTCOMES
  {
    var none: seq<int> := [0, 0, 0];
    none[outcome := amount]
  }

  function AllSides(amount: int): Delta {
    [amount, amount, amount]
  }

  /** A trade as a move: quantities, supplies and the trader's tokens by `d`; `usdt` from the trader's
      account into the vault and the books. */
  ghost predicate Moves(w: World, w': World, owner: Owner, d: Delta, usdt: int) {
    && owner in w.positions && owner in w.wallets
    && w'.positions.Keys == w.positions.Keys && w'.wallets.Keys == w.wallets.Keys
    && w'.market.b == w.market.b && w'.market.outcome == w.market.outcome
    && w.market.state == w'.market.state == Trading && w'.admin == w.admin
    && w'.market.kickoffTs == w.market.kickoffTs && w'.market.freezeTs == w.market.freezeTs
    && w'.market.fixtureId == w.market.fixtureId
    && (forall i :: 0 <= i < N_OUTCOMES ==>
      && w'.market.q[i] == w.market.q[i] + d[i]
      && w'.market.supply[i] == w.market.supply[i] + d[i]
      && w'.positions[owner].tokens[i] == w.positions[owner].tokens[i] + d[i])
    && (forall o :: o in w.positions && o != owner ==> w'.positions[o] == w.positions[o])
    && w'.positions[owner].redeemed == w.positions[owner].redeemed
    && (forall o :: o in w.wallets && o != owner ==> w'.wallets[o] == w.wallets[o])
    && w'.wallets[owner] == w.wallets[owner] - usdt
    && w'.vault == w.vault + usdt
    && w'.market.usdtCollateral == w.market.usdtCollateral + usdt
    && (forall i :: 0 <= i < N_OUTCOMES ==> w'.market.supply[i] <= w'.vault)
  }

  lemma SolventAll(vault: u64, supply: Quantities)
    requires AssertSolventMulti(vault, supply).Ok?
    ensures forall i :: 0 <= i < N_OUTCOMES ==> supply[i] <= vault
  {
    SolventMeans(vault, supply);
  }

  /** A buy moves the solved delta one way and the whole payment the other; what it bought was
      affordable after the fee. */
  lemma BuyMoves(cfg: Config, w: World, owner: Owner, outcome: u8, usdtIn: u64, min: u64, now: i64)
    returns (delta: nat)
    requires Fee.ValidParams(cfg.fees) && DoBuy(cfg, w, owner, outcome, usdtIn, min, now).Ok?
    ensures outcome < N_OUTCOMES && delta > 0 && delta >= min
    ensures Moves(w, DoBuy(cfg, w, owner, outcome, usdtIn, min, now).value, owner, OneSided(outcome, delta), usdtIn)
    ensures InRange(w.market.q, w.market.b) && w.market.q[outcome] + delta <= Q_MAX
    ensures CostOf(w.market.q, w.market.b, outcome, delta) <= usdtIn
  {
    hide CostOf, BuyDelta, PriceOf;
    var m := w.market;
    var charged := FeeCharged(cfg, m.fee, now).value;
    var net := NetOf(usdtIn, charged.0);
    delta := BuyDelta(m.q, m.b, outcome, net).value;
    BuyDeltaIsLocalMaximum(m.q, m.b, outcome, net);
    SolventAll(w.vault + usdtIn, m.supply[outcome := m.supply[outcome] + delta]);
  }

  /** A sell moves the sold tokens back and pays out at most the floored refund. */
  lemma SellMoves(cfg: Config, w: World, owner: Owner, outcome: u8, tokensIn: u64, min: u64, now: i64)
    returns (gross: u64, out: u64)
    requires Fee.ValidParams(cfg.fees) && DoSell(cfg, w, owner, outcome, tokensIn, min, now).Ok?
    ensures outcome < N_OUTCOMES && 0 < tokensIn <= w.market.q[outcome]
    ensures Moves(w, DoSell(cfg, w, owner, outcome, tokensIn, min, now).value, owner, OneSided(outcome, -(tokensIn as int)), -(out as int))
    ensures SellRefund(w.market.q, w.market.b, outcome, tokensIn).Ok?
    ensures gross == SellRefund(w.market.q, w.market.b, outcome, tokensIn).value && min <= out <= gross
  {
    hide SellRefund, PriceOf;
    var m := w.market;
    var charged := FeeCharged(cfg, m.fee, now).value;
    gross := SellRefund(m.q, m.b, outcome, tokensIn).value;
    out := NetOf(gross, charged.0);
    SolventAll(w.vault - out, m.supply[outcome := m.supply[outcome] - tokensIn]);
  }

  lemma MintSetMoves(w: World, owner: Owner, amount: u64)
    requires DoMintSet(w, owner, amount).Ok?
    ensures Moves(w, DoMintSet(w, owner, amount).value, owner, AllSides(amount), amount)
    ensures forall i :: 0 <= i < N_OUTCOMES ==> w.market.q[i] + amount <= Q_MAX
  {
    var w' := DoMintSet(w, owner, amount).value;
    SolventAll(w'.vault, w'.market.supply);
  }

  lemma RedeemSetMoves(w: World, owner: Owner, amount: u64)
    requires DoRedeemSet(w, owner, amount).Ok?
    ensures Moves(w, DoRedeemSet(w, owner, amount).value, owner, AllSides(-(amount as int)), -(amount as int))
  {
    var w' := DoRedeemSet(w, owner, amount).value;
    SolventAll(w'.vault, w'.market.supply);
  }

  // --------------------------------------------------------- moves keep it all

  lemma TokensUpdate(positions: map<Owner, Position>, owner: Owner, p: Position, i: nat)
    requires i < N_OUTCOMES
    ensures Total(TokensOf(positions[owner := p], i))
         == Total(TokensOf(positions, i)) - (if owner in positions then positions[owner].tokens[i] else 0) + p.tokens[i]
  {
    assert TokensOf(positions[owner := p], i) == TokensOf(positions, i)[owner := p.tokens[i]];
    TotalUpdate(TokensOf(positions, i), owner, p.tokens[i]);
  }

  lemma WalletsMove(w: World, w': World, owner: Owner, usdt: int)
    requires owner in w.wallets && w'.wallets.Keys == w.wallets.Keys
    requires forall o :: o in w.wallets && o != owner ==> w'.wallets[o] == w.wallets[o]
    requires w'.wallets[owner] == w.wallets[owner] - usdt && w'.vault == w.vault + usdt && w'.admin == w.admin
    ensures AllUsdt(w') == AllUsdt(w)
  {
    assert w'.wallets == w.wallets[owner := w'.wallets[owner]];
    TotalUpdate(w.wallets, owner, w'.wallets[owner]);
  }

  lemma MovesKeepLedger(w: World, w': World, g: Genesis, owner: Owner, d: Delta, usdt: int)
    requires Ledger(w, g) && Curve(w, g) && Moves(w, w', owner, d, usdt)
    ensures Ledger(w', g)
  {
    assert w'.positions == w.positions[owner := w'.positions[owner]];
    forall i | 0 <= i < N_OUTCOMES ensures Total(TokensOf(w'.positions, i)) == w'.market.supply[i] {
      TokensUpdate(w.positions, owner, w'.positions[owner], i);
    }
    WalletsMove(w, w', owner, usdt);
  }

  lemma MovesKeepCurve(w: World, w': World, g: Genesis, owner: Owner, d: Delta, usdt: int)
    requires Curve(w, g) && Moves(w, w', owner, d, usdt) && InRange(w'.market.q, g.b)
    ensures Curve(w', g)
  {
  }

  lemma MovesKeep(w: World, w': World, g: Genesis, owner: Owner, d: Delta, usdt: int)
    requires Ledger(w, g) && Curve(w, g) && Moves(w, w', owner, d, usdt) && InRange(w'.market.q, g.b)
    ensures Ledger(w', g) && Curve(w', g)
  {
    MovesKeepLedger(w, w', g, owner, d, usdt);
    MovesKeepCurve(w, w', g, owner, d, usdt);
  }

  /** Quantities that fall, or rise to the cap at most, stay in range. */
  lemma MovesInRange(w: World, w': World, g: Genesis, owner: Owner, d: Delta, usdt: int)
    requires Curve(w, g) && Moves(w, w', owner, d, usdt)
    requires forall i :: 0 <= i < N_OUTCOMES ==> d[i] <= 0 || w.market.q[i] + d[i] <= Q_MAX
    ensures InRange(w'.market.q, g.b)
  {
  }

  /** Every trade keeps the ledger and the curve. */
  lemma TradeKeeps(cfg: Config, w: World, a: Action, g: Genesis)
    requires Fee.ValidParams(cfg.fees) && Ledger(w, g) && Curve(w, g)
    requires a.Buy? || a.Sell? || a.MintSet? || a.RedeemSet?
    requires Step(cfg, w, a).Ok?
    ensures Ledger(Step(cfg, w, a).value, g) && Curve(Step(cfg, w, a).value, g)
  {
    hide DoBuy, DoSell, DoMintSet, DoRedeemSet, CostOf, Ledger, Curve, Moves, InRange;
    var owner, d, usdt := TradeMoves(cfg, w, a);
    MovesInRange(w, Step(cfg, w, a).value, g, owner, d, usdt);
    MovesKeep(w, Step(cfg, w, a).value, g, owner, d, usdt);
  }

  /** The four trades, each as its move. */
  lemma TradeMoves(cfg: Config, w: World, a: Action) returns (owner: Owner, d: Delta, usdt: int)
    requires Fee.ValidParams(cfg.fees) && Step(cfg, w, a).Ok?
    requires a.Buy? || a.Sell? || a.MintSet? || a.RedeemSet?
    ensures Moves(w, Step(cfg, w, a).value, owner, d, usdt)
    ensures forall i :: 0 <= i < N_OUTCOMES ==> d[i] <= 0 || w.market.q[i] + d[i] <= Q_MAX
  {
    hide DoBuy, DoSell, DoMintSet, DoRedeemSet, CostOf, Moves, SellRefund;
    match a
    case Buy(o, outcome, usdtIn, min, now) =>
      var delta := BuyMoves(cfg, w, o, outcome, usdtIn, min, now);
      owner, d, usdt := o, OneSided(outcome, delta), usdtIn;
    case Sell(o, outcome, tokensIn, min, now) =>
      var gross, out := SellMoves(cfg, w, o, outcome, tokensIn, min, now);
      owner, d, usdt := o, OneSided(outcome, -(tokensIn as int)), -(out as int);
    case MintSet(o, amount) =>
      MintSetMoves(w, o, amount);
      owner, d, usdt := o, AllSides(amount), amount;
    case RedeemSet(o, amount) =>
      RedeemSetMoves(w, o, amount);
      owner, d, usdt := o, AllSides(-(amount as int)), -(amount as int);
  }

  // ------------------------------------------------------ the rest of the life

  /** Redemption pays the position's winning tokens and nothing else. */
  lemma RedeemPays(w: World, owner: Owner, g: Genesis)
    requires Curve(w, g) && DoRedeem(w, owner).Ok?
    ensures w.market.state == Resolved && owner in w.positions && owner in w.wallets
    ensures var w' := DoRedeem(w, owner).value; var p := w.positions[owner];
      var payout := p.tokens[Winner(w.market.outcome)];
      && w'.positions == w.positions[owner := Position([0, 0, 0], 0, true)]
      && w'.wallets == w.wallets[owner := w.wallets[owner] + payout]
      && w'.vault == w.vault - payout && w'.admin == w.admin
      && w'.market == w.market.(supply := w'.market.supply, usdtCollateral := w.market.usdtCollateral - payout)
      && forall i :: 0 <= i < N_OUTCOMES ==> w'.market.supply[i] == w.market.supply[i] - p.tokens[i]
  {
    assert w.wallets == w.wallets[owner := w.wallets[owner]];
  }

  lemma RedeemKeeps(w: World, owner: Owner, g: Genesis)
    requires Ledger(w, g) && Curve(w, g) && DoRedeem(w, owner).Ok?
    ensures Ledger(DoRedeem(w, owner).value, g) && Curve(DoRedeem(w, owner).value, g)
  {
    RedeemPays(w, owner, g);
    var w' := DoRedeem(w, owner).value;
    forall i | 0 <= i < N_OUTCOMES ensures Total(TokensOf(w'.positions, i)) == w'.market.supply[i] {
      TokensUpdate(w.positions, owner, Position([0, 0, 0], 0, true), i);
    }
    WalletsMove(w, w', owner, w'.vault - w.vault);
  }

  lemma OpenPositionKeeps(w: World, owner: Owner, g: Genesis)
    requires Ledger(w, g) && Curve(w, g) && DoOpenPosition(w, owner).Ok?
    ensures Ledger(DoOpenPosition(w, owner).value, g) && Curve(DoOpenPosition(w, owner).value, g)
  {
    var w' := DoOpenPosition(w, owner).value;
    forall i | 0 <= i < N_OUTCOMES ensures Total(TokensOf(w'.positions, i)) == w'.market.supply[i] {
      TokensUpdate(w.positions, owner, Position([0, 0, 0], 0, false), i);
    }
  }

  lemma ResolveKeeps(cfg: Config, w: World, hint: u8, proof: ScoreProof, g: Genesis)
    requires Ledger(w, g) && Curve(w, g) && DoResolve(cfg, w, hint, proof).Ok?
    ensures Ledger(DoResolve(cfg, w, hint, proof).value, g) && Curve(DoResolve(cfg, w, hint, proof).value, g)
  {
    AcceptedMeansProven(cfg.resolve, w.market.fixtureId, hint, proof);
  }

  lemma StepKeeps(cfg: Config, w: World, a: Action, g: Genesis)
    requires Fee.ValidParams(cfg.fees) && Ledger(w, g) && Curve(w, g)
    ensures Ledger(Apply(cfg, w, a), g) && Curve(Apply(cfg, w, a), g)
  {
    hide DoBuy, DoSell, DoMintSet, DoRedeemSet, DoRedeem, DoResolve, DoOpenPosition;
    if Step(cfg, w, a).Ok? {
      match a
      case OpenPosition(owner) => OpenPositionKeeps(w, owner, g);
      case Resolve(hint, proof) => ResolveKeeps(cfg, w, hint, proof, g);
      case Redeem(owner) => RedeemKeeps(w, owner, g);
      case Activate(now) =>
      case Freeze(now) =>
      case Close(now) =>
      case _ => TradeKeeps(cfg, w, a, g);
    }
  }

  /** The opening state satisfies everything. */
  lemma InitKeeps(cfg: Config, admin: u64, wallets: map<Owner, u64>, fixtureId: i64, now: i64, kickoffTs: i64,
                  freezeTs: i64, b: u64, seedQ: Quantities, seedLiquidity: u64) returns (g: Genesis)
    requires InitMarket(cfg, admin, wallets, fixtureId, now, kickoffTs, freezeTs, b, seedQ, seedLiquidity).Ok?
    requires Total(wallets) + admin < TWO64
    ensures g.seedQ == seedQ && g.b == b && g.credited == seedLiquidity && g.totalUsdt == Total(wallets) + admin
    ensures var w := InitMarket(cfg, admin, wallets, fixtureId, now, kickoffTs, freezeTs, b, seedQ, seedLiquidity).value;
      Ledger(w, g) && Curve(w, g)
  {
    hide CostUnits, PriceChecked;
    TotalNonNegative(wallets);
    g := Genesis(seedQ, b, seedLiquidity, Total(wallets) + admin);
    var none: map<Owner, Position> := map[];
    forall i | 0 <= i < N_OUTCOMES ensures Total(TokensOf(none, i)) == 0 {
      assert TokensOf(none, i) == map[];
    }
  }

  // -------------------------------------------------------------- whole runs

  /** Over every run: supplies are the positions' sums, the books are the vault, USDT is conserved, and
      before resolution every quantity is its seed plus what users hold. */
  lemma {:induction false} RunKeepsLedger(cfg: Config, w: World, actions: seq<Action>, g: Genesis)
    requires Fee.ValidParams(cfg.fees) && Ledger(w, g) && Curve(w, g)
    ensures Ledger(Run(cfg, w, actions), g) && Curve(Run(cfg, w, actions), g)
    decreases |actions|
  {
    hide Ledger, Curve, Apply;
    if actions != [] {
      StepKeeps(cfg, w, actions[0], g);
      RunKeepsLedger(cfg, Apply(cfg, w, actions[0]), actions[1..], g);
    }
  }

  function Rank(s: MarketState): nat {
    match s
    case Open => 0
    case Trading => 1
    case Locked => 2
    case Resolved => 3
    case Closed => 4
  }

  /** The lifecycle only moves forward, one state at a time, and the outcome is written exactly when the
      market goes from Locked to Resolved. */
  lemma LifecycleStep(cfg: Config, w: World, a: Action)
    requires Fee.ValidParams(cfg.fees)
    ensures var w' := Apply(cfg, w, a);
      && Rank(w.market.state) <= Rank(w'.market.state) <= Rank(w.market.state) + 1
      && (w'.market.outcome != w.market.outcome ==> w.market.state == Locked && w'.market.state == Resolved && a.Resolve?)
  {
    hide DoBuy, DoSell, DoMintSet, DoRedeemSet;
    if Step(cfg, w, a).Ok? && (a.Buy? || a.Sell? || a.MintSet? || a.RedeemSet?) {
      var owner, d, usdt := TradeMoves(cfg, w, a);
    }
  }

  /** Over every run from any state: the state never goes back, and once the market is past Locked its
      outcome never changes again. */
  lemma {:induction false} OutcomeIsFinal(cfg: Config, w: World, actions: seq<Action>)
    requires Fee.ValidParams(cfg.fees)
    ensures Rank(w.market.state) <= Rank(Run(cfg, w, actions).market.state)
    ensures Rank(w.market.state) >= 3 ==> Run(cfg, w, actions).market.outcome == w.market.outcome
    decreases |actions|
  {
    hide Apply;
    if actions != [] {
      LifecycleStep(cfg, w, actions[0]);
      OutcomeIsFinal(cfg, Apply(cfg, w, actions[0]), actions[1..]);
    }
  }
}
