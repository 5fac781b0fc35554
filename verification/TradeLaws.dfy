/** What one trade gives and costs, and what traders cannot gain by cutting a trade in two.
    */
module TradeLaws {
  import opened Machine
  import opened Q64
  import opened Lmsr
  import opened BudgetSearch
  import opened CostMonotone
  import opened Sums
  import opened Spot
  import opened SpotLedger
  import opened SpotSolvency
  import Fee

  // ------------------------------------------------------------- cut in two

  /** Rounding up twice is no cheaper than rounding up once. */
  lemma ChargeSubadditive(c0: nat, c1: nat, c2: nat)
    ensures Charge(c0, c2) <= Charge(c0, c1) + Charge(c1, c2)
  {
    var x, y, z := SatSub(c0 + (c1 - c0), c0), SatSub(c2, c1), SatSub(c2, c0);
    CeilBounds(x, ONE);
    CeilBounds(y, ONE);
    var whole := CeilDiv(x, ONE) + CeilDiv(y, ONE);
    assert z <= whole * ONE;
    DivAtMost(z + (ONE - 1), ONE, whole);
  }

  /** Two purchases never cost less than one of their sum, for every liquidity. */
  lemma SplitPurchaseCostsMore(q: Quantities, b: u64, outcome: nat, d1: nat, d2: nat)
    requires InRange(q, b) && outcome < N_OUTCOMES && q[outcome] + d1 + d2 <= Q_MAX
    ensures InRange(Raised(q, outcome, d1), b)
    ensures CostOf(q, b, outcome, d1 + d2) <= CostOf(q, b, outcome, d1) + CostOf(Raised(q, outcome, d1), b, outcome, d2)
  {
    hide Cost, Charge;
    var q1 := Raised(q, outcome, d1);
    assert q1[outcome := q1[outcome] + d2] == Raised(q, outcome, d1 + d2);
    ChargeSubadditive(Cost(q, b), Cost(q1, b), Cost(Raised(q, outcome, d1 + d2), b));
  }

  /** A budget spent in two parts never buys more tokens than spent at once. */
  lemma SplitBudgetBuysLess(q: Quantities, b: u64, outcome: nat, budget1: u64, budget2: u64)
    returns (d1: u64, d2: u64, whole: u64)
    requires InRange(q, b) && b <= B_SMOOTH && outcome < N_OUTCOMES && budget1 + budget2 < TWO64
    ensures BuyDelta(q, b, outcome, budget1) == Ok(d1) && q[outcome] + d1 <= Q_MAX
    ensures BuyDelta(Raised(q, outcome, d1), b, outcome, budget2) == Ok(d2)
    ensures BuyDelta(q, b, outcome, budget1 + budget2) == Ok(whole)
    ensures d1 + d2 <= whole
  {
    hide CostOf, BuyDelta;
    BuyDeltaIsLocalMaximum(q, b, outcome, budget1);
    d1 := BuyDelta(q, b, outcome, budget1).value;
    var q1 := Raised(q, outcome, d1);
    BuyDeltaIsLocalMaximum(q1, b, outcome, budget2);
    d2 := BuyDelta(q1, b, outcome, budget2).value;
    BuyDeltaIsLocalMaximum(q, b, outcome, budget1 + budget2);
    whole := BuyDelta(q, b, outcome, budget1 + budget2).value;
    if d1 == 0 {
      assert q1 == q;
      if d2 > 0 { BuyDeltaIsTheMaximum(q, b, outcome, budget1 + budget2, d2); }
    } else if d2 == 0 {
      BuyDeltaIsTheMaximum(q, b, outcome, budget1 + budget2, d1);
    } else {
      SplitPurchaseCostsMore(q, b, outcome, d1, d2);
      BuyDeltaIsTheMaximum(q, b, outcome, budget1 + budget2, d1 + d2);
    }
  }

  function Lowered(q: Quantities, outcome: nat, delta: nat): Quantities
    requires outcome < N_OUTCOMES && delta <= q[outcome]
  {
    q[outcome := q[outcome] - delta]
  }

  /** Two sales never pay more than one of their sum. */
  lemma SplitSalePaysLess(q: Quantities, b: u64, outcome: nat, d1: u64, d2: u64)
    requires InRange(q, b) && b <= B_SMOOTH && outcome < N_OUTCOMES
    requires 0 < d1 && 0 < d2 && d1 + d2 <= q[outcome]
    ensures SellRefund(q, b, outcome, d1).Ok? && SellRefund(q, b, outcome, d1 + d2).Ok?
    ensures SellRefund(Lowered(q, outcome, d1), b, outcome, d2).Ok?
    ensures SellRefund(q, b, outcome, d1).value + SellRefund(Lowered(q, outcome, d1), b, outcome, d2).value
         <= SellRefund(q, b, outcome, d1 + d2).value
  {
    hide Cost, SellRefund;
    var q1 := Lowered(q, outcome, d1);
    var q2 := Lowered(q, outcome, d1 + d2);
    assert q1[outcome := q1[outcome] - d2] == q2;
    BeltsAreInert(q, b, outcome, d1);
    BeltsAreInert(q1, b, outcome, d2);
    BeltsAreInert(q, b, outcome, d1 + d2);
    FloorsOfParts(Cost(q, b) - Cost(q1, b), Cost(q1, b) - Cost(q2, b));
  }

  lemma FloorsOfParts(x: nat, y: nat)
    ensures x / ONE + y / ONE <= (x + y) / ONE
  {
    DivBounds(x, ONE);
    DivBounds(y, ONE);
    DivAtLeast(x + y, ONE, x / ONE + y / ONE);
  }

  // ------------------------------------------------------ one trade's terms

  /** `net` is the amount left of `gross` by a fee, rounded down. */
  predicate IsNetOf(gross: nat, fee: nat, net: nat) {
    net * 10_000 <= gross * (10_000 - fee) < (net + 1) * 10_000
  }

  /** `fee` is the one the market charges at that time, under the reference volatility `v`. */
  predicate IsCharged(p: Fee.FeeParams, s: Fee.FeeState, now: i64, v: nat, fee: nat) {
    Fee.IsVolatility(p, s, now, v) && Fee.IsFeeFor(p, v, fee)
  }

  lemma NetBounds(amount: u64, feeBps: u16)
    requires feeBps <= BPS_DENOM
    ensures NetOf(amount, feeBps) * BPS_DENOM <= amount * (BPS_DENOM - feeBps) < (NetOf(amount, feeBps) + 1) * BPS_DENOM
  {
    DivBounds(amount * (BPS_DENOM - feeBps), BPS_DENOM);
  }

  /** The fee record after a trade: the traded outcome's new price, the trade's time, and the accumulator armed
      with the price move. */
  ghost predicate FeeArmed(p: Fee.FeeParams, was: Fee.FeeState, v: nat, m: Market, outcome: nat, now: i64) {
    && outcome < N_OUTCOMES && InRange(m.q, m.b)
    && m.fee.lastPriceBps == PriceOf(m.q, m.b, outcome)
    && m.fee.lastTs == now && Fee.IsAccumulator(p, v, was.lastPriceBps, m.fee.lastPriceBps, m.fee.vAcc)
  }

  lemma ChargedIs(cfg: Config, fee: Fee.FeeState, now: i64)
    requires Fee.ValidParams(cfg.fees) && FeeCharged(cfg, fee, now).Ok?
    ensures IsCharged(cfg.fees, fee, now, FeeCharged(cfg, fee, now).value.1, FeeCharged(cfg, fee, now).value.0)
  {
    hide Fee.FeeFromVRef, Fee.DecayVRef, Fee.IsVolatility, Fee.IsFeeFor;
    Fee.DecayIsByZones(cfg.fees, fee, now);
    Fee.FeeIsQuadratic(cfg.fees, FeeCharged(cfg, fee, now).value.1);
  }

  lemma ArmedAfter(cfg: Config, b: u64, fee: Fee.FeeState, q: Quantities, outcome: nat, vRef: u64, now: i64)
    requires FeeAfter(cfg, b, fee, q, outcome, vRef, now).Ok?
    ensures InRange(q, b) && outcome < N_OUTCOMES
    ensures var after := FeeAfter(cfg, b, fee, q, outcome, vRef, now).value;
      && after.lastPriceBps == PriceOf(q, b, outcome) && after.lastTs == now
      && Fee.IsAccumulator(cfg.fees, vRef, fee.lastPriceBps, after.lastPriceBps, after.vAcc)
  {
    hide PriceOf, Fee.IsAccumulator;
    Fee.AccumulatorIs(cfg.fees, vRef, fee.lastPriceBps, FeeAfter(cfg, b, fee, q, outcome, vRef, now).value.lastPriceBps);
  }

  /** A buyer gets the most tokens the payment affords after the fee: affordable, and not one more. */
  lemma BuyGivesTheMost(cfg: Config, w: World, owner: Owner, outcome: u8, usdtIn: u64, min: u64, now: i64)
    returns (v: u64, fee: nat, net: u64, delta: nat)
    requires Fee.ValidParams(cfg.fees) && DoBuy(cfg, w, owner, outcome, usdtIn, min, now).Ok?
    ensures IsCharged(cfg.fees, w.market.fee, now, v, fee) && IsNetOf(usdtIn, fee, net)
    ensures delta > 0 && delta >= min && outcome < N_OUTCOMES
    ensures InRange(w.market.q, w.market.b) && w.market.q[outcome] + delta <= Q_MAX
    ensures CostOf(w.market.q, w.market.b, outcome, delta) <= net
    ensures w.market.q[outcome] + delta < Q_MAX ==> CostOf(w.market.q, w.market.b, outcome, delta + 1) > net
    ensures var w' := DoBuy(cfg, w, owner, outcome, usdtIn, min, now).value;
      && w'.market.q == Raised(w.market.q, outcome, delta) && FeeArmed(cfg.fees, w.market.fee, v, w'.market, outcome, now)
      && owner in w.positions && owner in w'.positions
      && w'.positions[owner].collateral == w.positions[owner].collateral + usdtIn
  {
    hide DoBuy, CostOf, BuyDelta, FeeArmed, IsNetOf, IsCharged;
    v, fee, net, delta := BuyWrites(cfg, w, owner, outcome, usdtIn, min, now);
    BuyDeltaIsLocalMaximum(w.market.q, w.market.b, outcome, net);
  }

  lemma BuyWrites(cfg: Config, w: World, owner: Owner, outcome: u8, usdtIn: u64, min: u64, now: i64)
    returns (v: u64, fee: nat, net: u64, delta: nat)
    requires Fee.ValidParams(cfg.fees) && DoBuy(cfg, w, owner, outcome, usdtIn, min, now).Ok?
    ensures IsCharged(cfg.fees, w.market.fee, now, v, fee) && IsNetOf(usdtIn, fee, net)
    ensures delta > 0 && delta >= min
    ensures outcome < N_OUTCOMES && owner in w.positions
    ensures BuyDelta(w.market.q, w.market.b, outcome, net).Ok?
    ensures delta == BuyDelta(w.market.q, w.market.b, outcome, net).value
    ensures var w' := DoBuy(cfg, w, owner, outcome, usdtIn, min, now).value;
      && w'.market.q == Raised(w.market.q, outcome, delta) && FeeArmed(cfg.fees, w.market.fee, v, w'.market, outcome, now)
      && owner in w'.positions
      && w'.positions[owner].collateral == w.positions[owner].collateral + usdtIn
  {
    hide BuyDelta, FeeCharged, FeeAfter, NetOf, PriceOf, AssertSolventMulti, IsCharged, Fee.IsAccumulator;
    var m := w.market;
    var charged := FeeCharged(cfg, m.fee, now).value;
    fee, v := charged.0, charged.1;
    ChargedIs(cfg, m.fee, now);
    net := NetOf(usdtIn, charged.0);
    NetBounds(usdtIn, charged.0);
    delta := BuyDelta(m.q, m.b, outcome, net).value;
    ArmedAfter(cfg, m.b, m.fee, Raised(m.q, outcome, delta), outcome, v, now);
  }

  /** A seller gets the refund less the fee. */
  lemma SellPaysTheNet(cfg: Config, w: World, owner: Owner, outcome: u8, tokensIn: u64, min: u64, now: i64)
    returns (v: u64, fee: nat, gross: u64, out: nat, w': World)
    requires Fee.ValidParams(cfg.fees) && DoSell(cfg, w, owner, outcome, tokensIn, min, now).Ok?
    ensures DoSell(cfg, w, owner, outcome, tokensIn, min, now) == Ok(w')
    ensures SellRefund(w.market.q, w.market.b, outcome, tokensIn) == Ok(gross)
    ensures IsCharged(cfg.fees, w.market.fee, now, v, fee) && IsNetOf(gross, fee, out) && out >= min
    ensures outcome < N_OUTCOMES && tokensIn <= w.market.q[outcome]
    ensures w'.market.q == Lowered(w.market.q, outcome, tokensIn)
    ensures FeeArmed(cfg.fees, w.market.fee, v, w'.market, outcome, now)
    ensures owner in w.wallets && owner in w'.wallets && w'.wallets[owner] == w.wallets[owner] + out
    ensures owner in w.positions && owner in w'.positions
      && w'.positions[owner].collateral == SatSub(w.positions[owner].collateral, out)
  {
    hide SellRefund, FeeCharged, FeeAfter, NetOf, PriceOf, AssertSolventMulti, IsCharged, Fee.IsAccumulator;
    var m := w.market;
    var charged := FeeCharged(cfg, m.fee, now).value;
    v, fee := charged.1, charged.0;
    ChargedIs(cfg, m.fee, now);
    gross := SellRefund(m.q, m.b, outcome, tokensIn).value;
    NetBounds(gross, charged.0);
    out := NetOf(gross, charged.0);
    ArmedAfter(cfg, m.b, m.fee, Lowered(m.q, outcome, tokensIn), outcome, charged.1, now);
    w' := DoSell(cfg, w, owner, outcome, tokensIn, min, now).value;
  }

  // -------------------------------------------------------- sets undo each other

  /** Redeeming a set just minted restores every account. */
  lemma RedeemUndoesMint(w: World, owner: Owner, amount: u64)
    requires DoMintSet(w, owner, amount).Ok?
    ensures DoRedeemSet(DoMintSet(w, owner, amount).value, owner, amount) == Ok(w)
  {
    var m := w.market;
    var w1 := DoMintSet(w, owner, amount).value;
    var whole: Quantities := [amount, amount, amount];
    Undone(m.q, w1.market.q, amount);
    Undone(m.supply, w1.market.supply, amount);
    Undone(w.positions[owner].tokens, w1.positions[owner].tokens, amount);
    SolventMeans(w1.vault, w1.market.supply);
    SolventMeans(w.vault, m.supply);
    assert w.wallets == w1.wallets[owner := w.wallets[owner]];
    assert w.positions == w1.positions[owner := w.positions[owner]];
  }

  lemma Undone(q: Quantities, grown: Quantities, amount: u64)
    requires forall i :: 0 <= i < N_OUTCOMES ==> grown[i] == q[i] + amount
    ensures SubFromAll(grown, [amount, amount, amount]) == Ok(q)
  {
    assert grown[0] == q[0] + amount && grown[1] == q[1] + amount && grown[2] == q[2] + amount;
    assert q == [q[0], q[1], q[2]];
  }

  lemma Redone(q: Quantities, shrunk: Quantities, amount: u64)
    requires SubFromAll(q, [amount, amount, amount]) == Ok(shrunk)
    ensures AddToAll(shrunk, amount) == Ok(q)
    ensures forall i :: 0 <= i < N_OUTCOMES ==> shrunk[i] + amount == q[i]
  {
    assert q == [q[0], q[1], q[2]];
  }

  /** Minting a set just redeemed restores every account exactly when the position's recorded
      collateral covered the set. */
  lemma MintUndoesRedeemExactlyWhen(w: World, g: Genesis, owner: Owner, amount: u64)
    requires Ledger(w, g) && Curve(w, g) && DoRedeemSet(w, owner, amount).Ok?
    ensures DoMintSet(DoRedeemSet(w, owner, amount).value, owner, amount).Ok?
    ensures DoMintSet(DoRedeemSet(w, owner, amount).value, owner, amount) == Ok(w)
      <==> amount <= w.positions[owner].collateral
  {
    hide DoRedeemSet, GrownBySet, AddToAll, Ledger, Curve;
    var m := w.market;
    var w1 := RedeemedSet(w, owner, amount);
    SetCovered(w, g);
    var p := w.positions[owner];
    var w2 := w.(positions := w.positions[owner := p.(collateral := SatSub(p.collateral, amount) + amount)]);
    SolventMeans(w.vault, m.supply);
    assert w.wallets == w1.wallets[owner := w.wallets[owner]];
    assert w2.positions == w1.positions[owner := w2.positions[owner]];
    assert DoMintSet(w1, owner, amount) == Ok(w2);
    assert w.positions == w.positions[owner := p];
  }

  lemma SetCovered(w: World, g: Genesis)
    requires Ledger(w, g) && Curve(w, g) && w.market.state == Trading
    ensures w.market.usdtCollateral == w.vault
    ensures forall i :: 0 <= i < N_OUTCOMES ==> w.market.q[i] <= Q_MAX && w.market.supply[i] <= w.vault
  {
  }

  lemma RedeemedSet(w: World, owner: Owner, amount: u64) returns (w1: World)
    requires DoRedeemSet(w, owner, amount).Ok?
    ensures owner in w.positions && owner in w.wallets && w.market.state == Trading && amount > 0
    ensures DoRedeemSet(w, owner, amount) == Ok(w1)
    ensures w1.market == w.market.(q := w1.market.q, supply := w1.market.supply, usdtCollateral := w1.market.usdtCollateral)
    ensures w1.market.usdtCollateral + amount == w.market.usdtCollateral && w1.vault + amount == w.vault
    ensures w1.admin == w.admin && w1.wallets == w.wallets[owner := w.wallets[owner] + amount]
    ensures GrownBySet(w1.market.q, w1.market.supply, amount) == Ok((w.market.q, w.market.supply))
      || exists i :: 0 <= i < N_OUTCOMES && w.market.q[i] > Q_MAX
    ensures AddToAll(w1.positions[owner].tokens, amount) == Ok(w.positions[owner].tokens)
    ensures w1.positions == w.positions[owner := w1.positions[owner]]
    ensures w1.positions[owner] == w.positions[owner].(
      tokens := w1.positions[owner].tokens, collateral := SatSub(w.positions[owner].collateral, amount))
  {
    w1 := DoRedeemSet(w, owner, amount).value;
    Redone(w.market.q, w1.market.q, amount);
    Redone(w.market.supply, w1.market.supply, amount);
    Redone(w.positions[owner].tokens, w1.positions[owner].tokens, amount);
  }

  // ------------------------------------------------------------- the opening

  /** Which markets open: ordered times, inputs in range, and a seed that with the smallest seeded
      quantity covers the opening cost. */
  lemma OpensExactlyWhen(cfg: Config, admin: u64, wallets: map<Owner, u64>, fixtureId: i64, now: i64, kickoffTs: i64,
                         freezeTs: i64, b: u64, seedQ: Quantities, seed: u64)
    ensures InitMarket(cfg, admin, wallets, fixtureId, now, kickoffTs, freezeTs, b, seedQ, seed).Ok? <==>
      && now < kickoffTs < freezeTs && InRange(seedQ, b) && 0 < seed <= admin
      && seed * ONE + MinOf(seedQ) * ONE >= Cost(seedQ, b)
    ensures InitMarket(cfg, admin, wallets, fixtureId, now, kickoffTs, freezeTs, b, seedQ, seed).Ok? ==>
      InitMarket(cfg, admin, wallets, fixtureId, now, kickoffTs, freezeTs, b, seedQ, seed).value == World(
        Market(seedQ, b, seed, [0, 0, 0], MarketState.Open, Resolution.Unset, fixtureId, kickoffTs, freezeTs,
          Fee.FeeState(PriceOf(seedQ, b, 0), now, 0)),
        seed, admin - seed, wallets, map[])
  {
    hide Cost, CostUnits, PriceChecked, PriceOf;
    if InRange(seedQ, b) {
      SeedIsEnough(seedQ, b, CostUnits(seedQ, b).value, seed);
    }
  }

  lemma SeedIsEnough(seedQ: Quantities, b: u64, cost: u64, seed: u64)
    requires InRange(seedQ, b) && cost * ONE - ONE < Cost(seedQ, b) <= cost * ONE
    ensures MinOf(seedQ) <= cost
    ensures seed >= cost - MinOf(seedQ) <==> seed * ONE + MinOf(seedQ) * ONE >= Cost(seedQ, b)
  {
    hide Cost;
    CostRange(seedQ, b);
  }
}
