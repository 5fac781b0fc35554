/** Exactly when each instruction of the spot market goes through: on any market its runs can reach, as a condition
    on the state before it.
    */
module SpotGuards {
  import opened Machine
  import opened Lmsr
  import opened BudgetSearch
  import opened CostMonotone
  import opened Sums
  import opened Spot
  import opened SpotLedger
  import opened SpotSolvency
  import opened SpotGuarantees
  import opened TradeLaws
  import opened Resolution
  import Fee

  ghost predicate IsHolder(w: World, owner: Owner) {
    owner in w.positions && owner in w.wallets
  }

  // ---------------------------------------------------------------- lifecycle

  /** Trading starts from Open, at kickoff or later, with the fee's clock armed. */
  lemma ActivatesExactlyWhen(cfg: Config, w: World, now: i64)
    requires Fee.ValidParams(cfg.fees)
    ensures Step(cfg, w, Activate(now)).Ok? <==> w.market.state == Open && now >= w.market.kickoffTs
    ensures Step(cfg, w, Activate(now)).Ok? ==>
      Step(cfg, w, Activate(now)).value == w.(market := w.market.(state := Trading, fee := w.market.fee.(lastTs := now)))
  {
  }

  /** Trading stops at the freeze time or later. */
  lemma FreezesExactlyWhen(cfg: Config, w: World, now: i64)
    requires Fee.ValidParams(cfg.fees)
    ensures Step(cfg, w, Freeze(now)).Ok? <==> w.market.state == Trading && now >= w.market.freezeTs
    ensures Step(cfg, w, Freeze(now)).Ok? ==> Step(cfg, w, Freeze(now)).value == w.(market := w.market.(state := Locked))
  {
  }

  /** A locked market resolves exactly on an admissible proof with the hint for what it proves, and to that
      outcome; nothing else changes. */
  lemma ResolvesExactlyWhen(cfg: Config, w: World, hint: u8, proof: ScoreProof)
    requires Fee.ValidParams(cfg.fees)
    ensures Step(cfg, w, Resolve(hint, proof)).Ok? <==>
      && w.market.state == Locked && Admissible(cfg.resolve, w.market.fixtureId, proof)
      && (var d := proof.statA.value - proof.statB.value.value;
          || (hint == 0 && d > cfg.resolve.stored.threshold)
          || (hint == 1 && d == cfg.resolve.stored.threshold)
          || (hint == 2 && d < cfg.resolve.stored.threshold))
    ensures Step(cfg, w, Resolve(hint, proof)).Ok? ==>
      var w' := Step(cfg, w, Resolve(hint, proof)).value;
      && IsOutcomeOf(cfg.resolve, proof, w'.market.outcome)
      && w' == w.(market := w.market.(state := Resolved, outcome := w'.market.outcome))
  {
    hide Admissible, IsOutcomeOf;
    if Step(cfg, w, Resolve(hint, proof)).Ok? {
      ResolvesByTheScore(cfg.resolve, w.market.fixtureId, hint, proof);
      HintMatches(cfg.resolve, w.market.fixtureId, hint, proof);
    }
    if Admissible(cfg.resolve, w.market.fixtureId, proof) {
      HintProves(cfg.resolve, w.market.fixtureId, hint, proof);
    }
  }

  lemma HintMatches(cfg: ResolveConfig, fixtureId: i64, hint: u8, proof: ScoreProof)
    requires Resolution.Resolve(cfg, fixtureId, hint, proof).Ok?
    ensures proof.statB.Some? && var d := proof.statA.value - proof.statB.value.value;
      || (hint == 0 && d > cfg.stored.threshold)
      || (hint == 1 && d == cfg.stored.threshold)
      || (hint == 2 && d < cfg.stored.threshold)
  {
  }

  lemma HintProves(cfg: ResolveConfig, fixtureId: i64, hint: u8, proof: ScoreProof)
    requires Admissible(cfg, fixtureId, proof)
    ensures var d := proof.statA.value - proof.statB.value.value;
      (hint == 0 && d > cfg.stored.threshold) || (hint == 1 && d == cfg.stored.threshold) || (hint == 2 && d < cfg.stored.threshold)
      ==> Resolution.Resolve(cfg, fixtureId, hint, proof).Ok?
  {
  }

  /** Closing waits for the grace period after the freeze time; then the admin gets the whole vault. */
  lemma ClosesExactlyWhen(cfg: Config, w: World, g: Genesis, now: i64)
    requires Fee.ValidParams(cfg.fees) && Ledger(w, g)
    ensures Step(cfg, w, Close(now)).Ok? <==>
      && w.market.state == Resolved && -TWO63 <= w.market.freezeTs + cfg.graceSecs < TWO63
      && now >= w.market.freezeTs + cfg.graceSecs
    ensures Step(cfg, w, Close(now)).Ok? ==>
      Step(cfg, w, Close(now)).value == w.(market := w.market.(state := Closed, usdtCollateral := 0), vault := 0, admin := w.admin + w.vault)
  {
    TotalNonNegative(w.wallets);
  }

  lemma PositionOpensExactlyWhen(cfg: Config, w: World, owner: Owner)
    requires Fee.ValidParams(cfg.fees)
    ensures Step(cfg, w, OpenPosition(owner)).Ok? <==> w.market.state != Closed && owner !in w.positions
    ensures Step(cfg, w, OpenPosition(owner)).Ok? ==>
      Step(cfg, w, OpenPosition(owner)).value == w.(positions := w.positions[owner := Position([0, 0, 0], 0, false)])
  {
  }

  // ------------------------------------------------------------ complete sets

  lemma HoldingsFit(w: World, g: Genesis, owner: Owner)
    requires Ledger(w, g) && Curve(w, g) && Live(w) && IsHolder(w, owner)
    ensures forall i :: 0 <= i < N_OUTCOMES ==>
      w.positions[owner].tokens[i] <= w.market.supply[i] <= w.market.q[i] <= Q_MAX && w.market.supply[i] <= w.vault
    ensures w.wallets[owner] + w.vault < TWO64 && w.market.usdtCollateral == w.vault
  {
    HoldingIsSupplied(w, g, owner, 0);
    HoldingIsSupplied(w, g, owner, 1);
    HoldingIsSupplied(w, g, owner, 2);
    RoomToPay(w, g, owner);
  }

  /** Complete sets are minted while the market trades, for money the holder has, within the quantity range. */
  lemma MintsExactlyWhen(cfg: Config, w: World, g: Genesis, owner: Owner, amount: u64)
    requires Fee.ValidParams(cfg.fees) && Ledger(w, g) && Curve(w, g)
    ensures Step(cfg, w, MintSet(owner, amount)).Ok? <==>
      && IsHolder(w, owner) && w.market.state == Trading && 0 < amount <= w.wallets[owner]
      && (forall i :: 0 <= i < N_OUTCOMES ==> w.market.q[i] + amount <= Q_MAX)
      && w.positions[owner].collateral + amount < TWO64
  {
    hide Ledger, Curve, AssertSolventMulti;
    if IsHolder(w, owner) && w.market.state == Trading {
      HoldingsFit(w, g, owner);
      var tokens := w.positions[owner].tokens;
      if amount <= w.wallets[owner] && forall i :: 0 <= i < N_OUTCOMES ==> w.market.q[i] + amount <= Q_MAX {
        var grown := GrownBySet(w.market.q, w.market.supply, amount);
        assert AddToAll(tokens, amount).Ok?;
        assert grown.Ok?;
        SolventMeans(w.vault + amount, grown.value.1);
      }
    }
  }

  /** And redeemed, for sets the holder has. */
  lemma SetsRedeemExactlyWhen(cfg: Config, w: World, g: Genesis, owner: Owner, amount: u64)
    requires Fee.ValidParams(cfg.fees) && Ledger(w, g) && Curve(w, g)
    ensures Step(cfg, w, RedeemSet(owner, amount)).Ok? <==>
      && IsHolder(w, owner) && w.market.state == Trading && amount > 0
      && forall i :: 0 <= i < N_OUTCOMES ==> amount <= w.positions[owner].tokens[i]
  {
    hide Ledger, Curve, AssertSolventMulti;
    if IsHolder(w, owner) && w.market.state == Trading {
      HoldingsFit(w, g, owner);
      if forall i :: 0 <= i < N_OUTCOMES ==> amount <= w.positions[owner].tokens[i] {
        var whole: Quantities := [amount, amount, amount];
        var supply := SubFromAll(w.market.supply, whole);
        SolventMeans(w.vault - amount, supply.value);
      }
    }
  }

  // --------------------------------------------------------------- redemption

  /** After resolution every holder redeems, once. */
  lemma RedeemsExactlyWhen(cfg: Config, w: World, g: Genesis, owner: Owner)
    requires Fee.ValidParams(cfg.fees) && Ledger(w, g) && Curve(w, g)
    ensures Step(cfg, w, Redeem(owner)).Ok? <==>
      IsHolder(w, owner) && w.market.state == Resolved && !w.positions[owner].redeemed
  {
    hide Ledger, Curve;
    if IsHolder(w, owner) && w.market.state == Resolved && !w.positions[owner].redeemed {
      RedeemSucceeds(w, g, owner);
    }
  }

  /** A void match, which no instruction declares, would refund what the position has put in, as far as the books
      reach. */
  lemma VoidRefunds(cfg: Config, w: World, owner: Owner)
    requires Fee.ValidParams(cfg.fees) && w.market.outcome == Void && Step(cfg, w, Redeem(owner)).Ok?
    ensures owner in w.positions && owner in w.wallets
    ensures var w' := Step(cfg, w, Redeem(owner)).value; var paid := w.vault - w'.vault;
      && paid <= w.positions[owner].collateral && paid <= w.market.usdtCollateral
      && (paid == w.positions[owner].collateral || paid == w.market.usdtCollateral)
      && owner in w'.wallets && w'.wallets[owner] as int == w.wallets[owner] + paid
      && w'.positions[owner] == Position([0, 0, 0], 0, true)
  {
  }

  // ------------------------------------------------------------------- trades

  /** The trading conditions both sides share. */
  ghost predicate MayTrade(w: World, owner: Owner, outcome: u8, amount: u64, now: i64) {
    && IsHolder(w, owner) && w.market.state == Trading && outcome < N_OUTCOMES && amount > 0
    && w.market.fee.lastTs <= now < w.market.fee.lastTs + TWO63
  }

  /** A sale goes through exactly when the holder has the tokens and the refund less the fee reaches the minimum
      asked. */
  lemma SellsExactlyWhen(cfg: Config, w: World, g: Genesis, owner: Owner, outcome: u8, tokensIn: u64, min: u64, now: i64)
    requires Fee.ValidParams(cfg.fees) && Fee.RunsFit(cfg.fees) && FeeIsReached(cfg, w.market) && Sound(w, g)
    ensures MayTrade(w, owner, outcome, tokensIn, now) && tokensIn <= w.positions[owner].tokens[outcome] ==>
      SellRefund(w.market.q, w.market.b, outcome, tokensIn).Ok? && FeeCharged(cfg, w.market.fee, now).Ok?
    ensures Step(cfg, w, Sell(owner, outcome, tokensIn, min, now)).Ok? <==>
      && MayTrade(w, owner, outcome, tokensIn, now) && tokensIn <= w.positions[owner].tokens[outcome]
      && min <= NetOf(SellRefund(w.market.q, w.market.b, outcome, tokensIn).value, FeeCharged(cfg, w.market.fee, now).value.0)
  {
    hide SellRefund, Sound, FeeIsReached, Fee.RunsFit, FeeAfter, NetOf, AssertSolventMulti, Fee.ComputeFee;
    if MayTrade(w, owner, outcome, tokensIn, now) && tokensIn <= w.positions[owner].tokens[outcome] {
      SellSucceeds(cfg, w, g, owner, outcome, tokensIn, now);
    } else if Step(cfg, w, Sell(owner, outcome, tokensIn, min, now)).Ok? {
      SellNeeds(cfg, w, owner, outcome, tokensIn, min, now);
    }
  }

  lemma SellNeeds(cfg: Config, w: World, owner: Owner, outcome: u8, tokensIn: u64, min: u64, now: i64)
    requires Fee.ValidParams(cfg.fees) && Step(cfg, w, Sell(owner, outcome, tokensIn, min, now)).Ok?
    ensures MayTrade(w, owner, outcome, tokensIn, now) && tokensIn <= w.positions[owner].tokens[outcome]
  {
    hide SellRefund, FeeAfter, NetOf, AssertSolventMulti, Fee.FeeFromVRef;
    Fee.DecayIsByZones(cfg.fees, w.market.fee, now);
  }

  /** A purchase goes through exactly when the holder has the money and what is left of it after the fee affords the
      minimum asked (one token at least) within the quantity range. */
  lemma BuysExactlyWhen(cfg: Config, w: World, g: Genesis, owner: Owner, outcome: u8, usdtIn: u64, min: u64, now: i64, k: nat)
    requires Fee.ValidParams(cfg.fees) && Fee.RunsFit(cfg.fees) && FeeIsReached(cfg, w.market) && Sound(w, g)
    requires k == if min == 0 then 1 else min
    ensures MayTrade(w, owner, outcome, usdtIn, now) ==>
      InRange(w.market.q, w.market.b) && FeeCharged(cfg, w.market.fee, now).Ok?
    ensures Step(cfg, w, Buy(owner, outcome, usdtIn, min, now)).Ok? <==>
      && MayTrade(w, owner, outcome, usdtIn, now) && usdtIn <= w.wallets[owner]
      && w.positions[owner].collateral + usdtIn < TWO64 && w.market.q[outcome] + k <= Q_MAX
      && CostOf(w.market.q, w.market.b, outcome, k) <= NetOf(usdtIn, FeeCharged(cfg, w.market.fee, now).value.0)
  {
    hide CostOf, DoBuy, Sound, FeeIsReached, Fee.RunsFit, NetOf, FeeCharged, InRange;
    if MayTrade(w, owner, outcome, usdtIn, now) {
      SoundParts(w, g);
      var m := w.market;
      FeeWorks(cfg, m, m.q, outcome, now);
      var net := NetOf(usdtIn, FeeCharged(cfg, m.fee, now).value.0);
      SmoothAndInRange(w, g);
      AffordsExactlyWhen(m.q, m.b, outcome, net, k);
      BuyStepExactlyWhen(cfg, w, g, owner, outcome, usdtIn, min, now, k);
    } else if Step(cfg, w, Buy(owner, outcome, usdtIn, min, now)).Ok? {
      BuyNeeds(cfg, w, owner, outcome, usdtIn, min, now);
    }
  }

  lemma SmoothAndInRange(w: World, g: Genesis)
    requires Sound(w, g)
    ensures w.market.b == g.b <= B_SMOOTH && (Live(w) ==> InRange(w.market.q, w.market.b))
  {
    hide Ledger, Backed;
  }

  lemma BuyNeeds(cfg: Config, w: World, owner: Owner, outcome: u8, usdtIn: u64, min: u64, now: i64)
    requires Fee.ValidParams(cfg.fees) && Step(cfg, w, Buy(owner, outcome, usdtIn, min, now)).Ok?
    ensures MayTrade(w, owner, outcome, usdtIn, now)
  {
    hide BuyDelta, FeeAfter, NetOf, AssertSolventMulti, Fee.FeeFromVRef;
    Fee.DecayIsByZones(cfg.fees, w.market.fee, now);
  }

  /** The search returns `k` tokens or more exactly when `k` are affordable. */
  lemma AffordsExactlyWhen(q: Quantities, b: u64, outcome: nat, net: u64, k: nat)
    requires InRange(q, b) && b <= B_SMOOTH && outcome < N_OUTCOMES && k > 0
    ensures BuyDelta(q, b, outcome, net).Ok?
    ensures BuyDelta(q, b, outcome, net).value >= k <==> q[outcome] + k <= Q_MAX && CostOf(q, b, outcome, k) <= net
    ensures BuyDelta(q, b, outcome, net).value >= k ==> net > 0
  {
    hide CostOf, BuyDelta;
    BuyDeltaIsLocalMaximum(q, b, outcome, net);
    var d := BuyDelta(q, b, outcome, net).value;
    if d >= k {
      CostOfIsMonotone(q, b, outcome, k, d);
      CostIsPositive(q, b, outcome, d);
    } else if q[outcome] + k <= Q_MAX && CostOf(q, b, outcome, k) <= net {
      BuyDeltaIsTheMaximum(q, b, outcome, net, k);
    }
  }

  lemma CostIsPositive(q: Quantities, b: u64, outcome: nat, d: nat)
    requires InRange(q, b) && outcome < N_OUTCOMES && q[outcome] + d <= Q_MAX
    ensures CostOf(q, b, outcome, d) > 0
  {
    hide Cost;
  }

  /** The rest of the handler, once the search has its answer. */
  lemma BuyStepExactlyWhen(cfg: Config, w: World, g: Genesis, owner: Owner, outcome: u8, usdtIn: u64, min: u64, now: i64, k: nat)
    requires Fee.ValidParams(cfg.fees) && Fee.RunsFit(cfg.fees) && FeeIsReached(cfg, w.market) && Sound(w, g)
    requires k == (if min == 0 then 1 else min) && MayTrade(w, owner, outcome, usdtIn, now)
    requires FeeCharged(cfg, w.market.fee, now).Ok?
    requires var net := NetOf(usdtIn, FeeCharged(cfg, w.market.fee, now).value.0);
      BuyDelta(w.market.q, w.market.b, outcome, net).Ok?
      && (BuyDelta(w.market.q, w.market.b, outcome, net).value >= k ==> net > 0)
    ensures Step(cfg, w, Buy(owner, outcome, usdtIn, min, now)).Ok? <==>
      && usdtIn <= w.wallets[owner] && w.positions[owner].collateral + usdtIn < TWO64
      && BuyDelta(w.market.q, w.market.b, outcome, NetOf(usdtIn, FeeCharged(cfg, w.market.fee, now).value.0)).value >= k
  {
    hide BuyDelta, Sound, FeeIsReached, Fee.RunsFit, NetOf, FeeCharged, FeeAfter, AssertSolventMulti, InRange;
    var m := w.market;
    var charged := FeeCharged(cfg, m.fee, now).value;
    var net := NetOf(usdtIn, charged.0);
    var d := BuyDelta(m.q, m.b, outcome, net).value;
    if d >= k {
      var supply := BoughtFits(cfg, w, g, owner, outcome, usdtIn, net, d);
      var q := Raised(m.q, outcome, d);
      RaisedInRange(m.q, m.b, outcome, d);
      FeeWorks(cfg, m, q, outcome, now);
      if usdtIn <= w.wallets[owner] { CoveredPasses(w.vault + usdtIn, supply); }
    }
  }

  lemma RaisedInRange(q: Quantities, b: u64, outcome: nat, d: nat)
    requires InRange(q, b) && outcome < N_OUTCOMES && q[outcome] + d <= Q_MAX
    ensures InRange(Raised(q, outcome, d), b)
  {
  }

  /** What was bought fits every counter, and the vault covers it. */
  lemma BoughtFits(cfg: Config, w: World, g: Genesis, owner: Owner, outcome: nat, usdtIn: u64, net: u64, d: nat)
    returns (supply: Quantities)
    requires Sound(w, g) && IsHolder(w, owner) && w.market.state == Trading && outcome < N_OUTCOMES && net <= usdtIn && d > 0
    requires BuyDelta(w.market.q, w.market.b, outcome, net) == Ok(d)
    ensures InRange(w.market.q, w.market.b) && w.market.q[outcome] + d <= Q_MAX
    ensures w.market.supply[outcome] + d < TWO64 && w.positions[owner].tokens[outcome] + d < TWO64
    ensures w.wallets[owner] + w.vault < TWO64 && w.market.usdtCollateral == w.vault
    ensures supply == w.market.supply[outcome := w.market.supply[outcome] + d]
    ensures forall i :: 0 <= i < N_OUTCOMES ==> supply[i] <= w.vault + usdtIn
  {
    hide BuyDelta, CostOf;
    var m := w.market;
    SmoothAndInRange(w, g);
    SoundParts(w, g);
    HoldingsFit(w, g, owner);
    BuyDeltaIsLocalMaximum(m.q, m.b, outcome, net);
    supply := m.supply[outcome := m.supply[outcome] + d];
    BoughtIsCovered(w, g, outcome, d, usdtIn, supply);
  }
}
