/** The spot market as a state machine: one step per instruction, each with the checks of its handler
    in their order. A transaction that fails changes nothing.
    */
module Spot {
  import opened Machine
  import opened Lmsr
  import opened BudgetSearch
  import opened Sums
  import Fee
  import opened Resolution

  datatype MarketState = Open | Trading | Locked | Resolved | Closed

  datatype Position = Position(tokens: Quantities, collateral: u64, redeemed: bool)

  datatype Market = Market(
    q: Quantities, b: u64, usdtCollateral: u64, supply: Quantities,
    state: MarketState, outcome: Outcome, fixtureId: i64, kickoffTs: i64, freezeTs: i64,
    fee: Fee.FeeState)

  /** The `MarketConfig` the market is bound to. */
  datatype Config = Config(fees: Fee.FeeParams, graceSecs: i64, resolve: ResolveConfig)

  /** The accounts of one market: its record, the vault's balance, the admin's and the traders'
      token accounts, and the traders' positions. */
  datatype World = World(
    market: Market, vault: u64, admin: u64, wallets: map<Owner, u64>, positions: map<Owner, Position>)

  datatype Action =
    | OpenPosition(owner: Owner)
    | Activate(now: i64)
    | Buy(owner: Owner, outcome: u8, usdtIn: u64, minTokensOut: u64, now: i64)
    | Sell(owner: Owner, outcome: u8, tokensIn: u64, minUsdtOut: u64, now: i64)
    | MintSet(owner: Owner, amount: u64)
    | RedeemSet(owner: Owner, amount: u64)
    | Freeze(now: i64)
    | Resolve(hint: u8, proof: ScoreProof)
    | Redeem(owner: Owner)
    | Close(now: i64)

  // ------------------------------------------------------------------ tokens

  /** `transfer_checked` from a trader to the vault. */
  function Deposit(w: World, owner: Owner, amount: u64): (r: Result<World>)
    requires owner in w.wallets
  {
    if w.wallets[owner] < amount || w.vault + amount >= TWO64 then Err(TransferFailed)
    else Ok(w.(wallets := w.wallets[owner := w.wallets[owner] - amount], vault := w.vault + amount))
  }

  /** `transfer_checked` from the vault to a trader. */
  function PayOut(w: World, owner: Owner, amount: u64): (r: Result<World>)
    requires owner in w.wallets
  {
    if w.vault < amount || w.wallets[owner] + amount >= TWO64 then Err(TransferFailed)
    else Ok(w.(wallets := w.wallets[owner := w.wallets[owner] + amount], vault := w.vault - amount))
  }

  /** The fee taken out of an amount: `amount * (10_000 - fee) / 10_000`. */
  function NetOf(amount: u64, feeBps: u16): (net: u64)
    requires feeBps <= BPS_DENOM
    ensures net <= amount
  {
    MulMono(BPS_DENOM - feeBps, BPS_DENOM, amount);
    MulMono(0, BPS_DENOM - feeBps, amount);
    DivAtMost(amount * (BPS_DENOM - feeBps), BPS_DENOM, amount);
    DivAtLeast(amount * (BPS_DENOM - feeBps), BPS_DENOM, 0);
    amount * (BPS_DENOM - feeBps) / BPS_DENOM
  }

  /** `checked_add` on every outcome; the first overflow is the error. */
  function AddToAll(q: Quantities, amount: u64): (r: Result<Quantities>)
    ensures r.Ok? <==> forall i :: 0 <= i < N_OUTCOMES ==> q[i] + amount < TWO64
    ensures r.Err? ==> r.error == MathOverflow
    ensures r.Ok? ==> forall i :: 0 <= i < N_OUTCOMES ==> r.value[i] == q[i] + amount
  {
    if q[0] + amount >= TWO64 || q[1] + amount >= TWO64 || q[2] + amount >= TWO64 then Err(MathOverflow)
    else Ok([q[0] + amount, q[1] + amount, q[2] + amount])
  }

  function SubFromAll(q: Quantities, p: Quantities): (r: Result<Quantities>)
    ensures r.Ok? <==> forall i :: 0 <= i < N_OUTCOMES ==> p[i] <= q[i]
    ensures r.Err? ==> r.error == MathOverflow
    ensures r.Ok? ==> forall i :: 0 <= i < N_OUTCOMES ==> r.value[i] == q[i] - p[i]
  {
    if q[0] < p[0] || q[1] < p[1] || q[2] < p[2] then Err(MathOverflow)
    else Ok([q[0] - p[0], q[1] - p[1], q[2] - p[2]])
  }

  // ------------------------------------------------------------ instructions

  /** `init_market`: the opening record, with the seed moved from the admin into the vault. */
  function InitMarket(cfg: Config, admin: u64, wallets: map<Owner, u64>, fixtureId: i64, now: i64,
                      kickoffTs: i64, freezeTs: i64, b: u64, seedQ: Quantities, seedLiquidity: u64): (r: Result<World>)
  {
    if kickoffTs >= freezeTs then Err(InvalidTiming)
    else if kickoffTs <= now then Err(InvalidTiming)
    else
      var seedCost :- CostUnits(seedQ, b);
      var minQ := Min(Min(seedQ[0], seedQ[1]), seedQ[2]);
      if seedCost < minQ then Err(MathOverflow)
      else if seedLiquidity < seedCost - minQ then Err(InvalidSeedLiquidity)
      else if seedLiquidity == 0 then Err(InvalidSeedLiquidity)
      else
        var price :- PriceChecked(seedQ, b, 0);
        if admin < seedLiquidity then Err(TransferFailed)
        else
          Ok(World(
            Market(seedQ, b, seedLiquidity, [0, 0, 0], Open, Unset, fixtureId, kickoffTs, freezeTs,
              Fee.FeeState(price, now, 0)),
            seedLiquidity, admin - seedLiquidity, wallets, map[]))
  }

  function DoOpenPosition(w: World, owner: Owner): (r: Result<World>) {
    if owner in w.positions then Err(AccountExists)
    else Ok(w.(positions := w.positions[owner := Position([0, 0, 0], 0, false)]))
  }

  function DoActivate(w: World, now: i64): (r: Result<World>) {
    if w.market.state != Open then Err(InvalidMarketState)
    else if now < w.market.kickoffTs then Err(KickoffNotReached)
    else Ok(w.(market := w.market.(state := Trading, fee := w.market.fee.(lastTs := now))))
  }

  function DoFreeze(w: World, now: i64): (r: Result<World>) {
    if w.market.state != Trading then Err(InvalidMarketState)
    else if now < w.market.freezeTs then Err(FreezeNotReached)
    else Ok(w.(market := w.market.(state := Locked)))
  }

  function DoBuy(cfg: Config, w: World, owner: Owner, outcome: u8, usdtIn: u64, minTokensOut: u64, now: i64): (r: Result<World>)
    requires Fee.ValidParams(cfg.fees)
  {
    var m := w.market;
    if owner !in w.positions || owner !in w.wallets then Err(AccountMissing)
    else if m.state != Trading then Err(InvalidMarketState)
    else if usdtIn == 0 then Err(ZeroAmount)
    else if now < m.fee.lastTs then Err(MonotonicClock)
    else if outcome >= N_OUTCOMES then Err(LmsrInvalidOutcomeIndex)
    else
      var charged :- FeeCharged(cfg, m.fee, now);
      var net := NetOf(usdtIn, charged.0);
      if net == 0 then Err(ZeroAmount)
      else
        var delta :- BuyDelta(m.q, m.b, outcome, net);
        if delta == 0 || delta < minTokensOut then Err(SlippageExceeded)
        else if m.supply[outcome] + delta >= TWO64 then Err(MathOverflow)
        else
          var q := m.q[outcome := m.q[outcome] + delta];
          var fee :- FeeAfter(cfg, m.b, m.fee, q, outcome, charged.1, now);
          var p := w.positions[owner];
          if p.tokens[outcome] + delta >= TWO64 || p.collateral + usdtIn >= TWO64 then Err(MathOverflow)
          else
            var paid :- Deposit(w, owner, usdtIn);
            if m.usdtCollateral + usdtIn >= TWO64 then Err(MathOverflow)
            else
              var supply := m.supply[outcome := m.supply[outcome] + delta];
              var _ :- AssertSolventMulti(paid.vault, supply);
              Ok(paid.(
                market := m.(q := q, supply := supply, fee := fee, usdtCollateral := m.usdtCollateral + usdtIn),
                positions := w.positions[owner := p.(
                  tokens := p.tokens[outcome := p.tokens[outcome] + delta],
                  collateral := p.collateral + usdtIn)]))
  }

  /** The fee and the reference volatility a trade is charged under. */
  function FeeCharged(cfg: Config, fee: Fee.FeeState, now: i64): (r: Result<(u16, u64)>)
    requires Fee.ValidParams(cfg.fees)
    ensures r.Ok? ==> r.value.0 <= Fee.MAX_FEE_BPS_CAP
  {
    var charged :- Fee.ComputeFee(cfg.fees, fee, now);
    Fee.FeeSucceedsExactlyWhen(cfg.fees, charged.1);
    Ok(charged)
  }

  /** The fee state after a trade, at the traded outcome's new price. */
  function FeeAfter(cfg: Config, b: u64, fee: Fee.FeeState, q: Quantities, outcome: nat, vRef: u64, now: i64): (r: Result<Fee.FeeState>) {
    var price :- PriceChecked(q, b, outcome);
    var vAcc :- Fee.NextVAcc(cfg.fees, vRef, fee.lastPriceBps, price);
    Ok(Fee.FeeState(price, now, vAcc))
  }

  function DoSell(cfg: Config, w: World, owner: Owner, outcome: u8, tokensIn: u64, minUsdtOut: u64, now: i64): (r: Result<World>)
    requires Fee.ValidParams(cfg.fees)
  {
    var m := w.market;
    if owner !in w.positions || owner !in w.wallets then Err(AccountMissing)
    else if outcome >= N_OUTCOMES then Err(LmsrInvalidOutcomeIndex)
    else if m.state != Trading then Err(InvalidMarketState)
    else if tokensIn == 0 then Err(ZeroAmount)
    else if now < m.fee.lastTs then Err(MonotonicClock)
    else if w.positions[owner].tokens[outcome] < tokensIn then Err(InsufficientPositionBalance)
    else
      var charged :- FeeCharged(cfg, m.fee, now);
      var gross :- SellRefund(m.q, m.b, outcome, tokensIn);
      var usdtOut := NetOf(gross, charged.0);
      if usdtOut < minUsdtOut then Err(SlippageExceeded)
      else if m.q[outcome] < tokensIn || m.supply[outcome] < tokensIn then Err(MathOverflow)
      else
        var q := m.q[outcome := m.q[outcome] - tokensIn];
        var supply := m.supply[outcome := m.supply[outcome] - tokensIn];
        var fee :- FeeAfter(cfg, m.b, m.fee, q, outcome, charged.1, now);
        if m.usdtCollateral < usdtOut then Err(MathOverflow)
        else
          var p := w.positions[owner];
          var paid :- PayOut(w, owner, usdtOut);
          var _ :- AssertSolventMulti(paid.vault, supply);
          Ok(paid.(
            market := m.(q := q, supply := supply, fee := fee, usdtCollateral := m.usdtCollateral - usdtOut),
            positions := w.positions[owner := p.(
              tokens := p.tokens[outcome := p.tokens[outcome] - tokensIn],
              collateral := SatSub(p.collateral, usdtOut))]))
  }

  function DoMintSet(w: World, owner: Owner, amount: u64): (r: Result<World>) {
    var m := w.market;
    if owner !in w.positions || owner !in w.wallets then Err(AccountMissing)
    else if m.state != Trading then Err(InvalidMarketState)
    else if amount == 0 then Err(ZeroAmount)
    else
      var grown :- GrownBySet(m.q, m.supply, amount);
      var p := w.positions[owner];
      var tokens :- AddToAll(p.tokens, amount);
      if p.collateral + amount >= TWO64 then Err(MathOverflow)
      else
        var paid :- Deposit(w, owner, amount);
        if m.usdtCollateral + amount >= TWO64 then Err(MathOverflow)
        else
          var _ :- AssertSolventMulti(paid.vault, grown.1);
          Ok(paid.(
            market := m.(q := grown.0, supply := grown.1, usdtCollateral := m.usdtCollateral + amount),
            positions := w.positions[owner := p.(tokens := tokens, collateral := p.collateral + amount)]))
  }

  /** The loop of `mint_set` over outcomes: quantity (capped), then supply; the first failure wins. */
  function GrownBySet(q: Quantities, supply: Quantities, amount: u64): (r: Result<(Quantities, Quantities)>)
    ensures r.Ok? <==> forall i :: 0 <= i < N_OUTCOMES ==> q[i] + amount <= Q_MAX && supply[i] + amount < TWO64
    ensures r.Ok? ==> forall i :: 0 <= i < N_OUTCOMES ==>
      r.value.0[i] == q[i] + amount && r.value.1[i] == supply[i] + amount
  {
    var _ :- GrowOne(q[0], supply[0], amount);
    var _ :- GrowOne(q[1], supply[1], amount);
    var _ :- GrowOne(q[2], supply[2], amount);
    Ok(([q[0] + amount, q[1] + amount, q[2] + amount],
        [supply[0] + amount, supply[1] + amount, supply[2] + amount]))
  }

  function GrowOne(q: u64, supply: u64, amount: u64): (r: Result<()>)
    ensures r.Ok? <==> q + amount <= Q_MAX && supply + amount < TWO64
  {
    if q + amount >= TWO64 then Err(MathOverflow)
    else if q + amount > Q_MAX then Err(LmsrQuantityTooLarge)
    else if supply + amount >= TWO64 then Err(MathOverflow)
    else Ok(())
  }

  function DoRedeemSet(w: World, owner: Owner, amount: u64): (r: Result<World>) {
    var m := w.market;
    if owner !in w.positions || owner !in w.wallets then Err(AccountMissing)
    else if m.state != Trading then Err(InvalidMarketState)
    else if amount == 0 then Err(ZeroAmount)
    else
      var p := w.positions[owner];
      if exists i :: 0 <= i < N_OUTCOMES && p.tokens[i] < amount then Err(InsufficientPositionBalance)
      else
        var whole: Quantities := [amount, amount, amount];
        var q :- SubFromAll(m.q, whole);
        var supply :- SubFromAll(m.supply, whole);
        if m.usdtCollateral < amount then Err(MathOverflow)
        else
          var tokens :- SubFromAll(p.tokens, whole);
          var paid :- PayOut(w, owner, amount);
          var _ :- AssertSolventMulti(paid.vault, supply);
          Ok(paid.(
            market := m.(q := q, supply := supply, usdtCollateral := m.usdtCollateral - amount),
            positions := w.positions[owner := p.(tokens := tokens, collateral := SatSub(p.collateral, amount))]))
  }

  function DoResolve(cfg: Config, w: World, hint: u8, proof: ScoreProof): (r: Result<World>) {
    if w.market.state != Locked then Err(InvalidMarketState)
    else
      var outcome :- Resolution.Resolve(cfg.resolve, w.market.fixtureId, hint, proof);
      Ok(w.(market := w.market.(outcome := outcome, state := Resolved)))
  }

  /** What a position is paid, by the resolved outcome. */
  function PayoutOf(m: Market, p: Position): (r: Result<u64>) {
    match m.outcome
    case Team1 => Ok(p.tokens[0])
    case Draw => Ok(p.tokens[1])
    case Team2 => Ok(p.tokens[2])
    case Void => Ok(Min(p.collateral, m.usdtCollateral))
    case Unset => Err(InvalidMarketState)
  }

  function DoRedeem(w: World, owner: Owner): (r: Result<World>) {
    var m := w.market;
    if owner !in w.positions || owner !in w.wallets then Err(AccountMissing)
    else if m.state != Resolved then Err(InvalidMarketState)
    else if w.positions[owner].redeemed then Err(AlreadyRedeemed)
    else
      var p := w.positions[owner];
      var payout :- PayoutOf(m, p);
      var supply :- SubFromAll(m.supply, p.tokens);
      if m.usdtCollateral < payout then Err(MathOverflow)
      else
        var paid :- if payout > 0 then PayOut(w, owner, payout) else Ok(w);
        Ok(paid.(
          market := m.(supply := supply, usdtCollateral := m.usdtCollateral - payout),
          positions := w.positions[owner := Position([0, 0, 0], 0, true)]))
  }

  function DoClose(cfg: Config, w: World, now: i64): (r: Result<World>) {
    var m := w.market;
    if m.state != Resolved then Err(InvalidMarketState)
    else if !(-TWO63 <= m.freezeTs + cfg.graceSecs < TWO63) then Err(MathOverflow)
    else if now < m.freezeTs + cfg.graceSecs then Err(GraceNotElapsed)
    else if w.admin + w.vault >= TWO64 then Err(TransferFailed)
    else Ok(w.(market := m.(state := Closed, usdtCollateral := 0), vault := 0, admin := w.admin + w.vault))
  }

  /** One transaction. A closed market's account is gone, and so is every instruction on it. */
  function Step(cfg: Config, w: World, a: Action): (r: Result<World>)
    requires Fee.ValidParams(cfg.fees)
  {
    if w.market.state == Closed then Err(AccountMissing)
    else
      match a
      case OpenPosition(owner) => DoOpenPosition(w, owner)
      case Activate(now) => DoActivate(w, now)
      case Buy(owner, outcome, usdtIn, min, now) => DoBuy(cfg, w, owner, outcome, usdtIn, min, now)
      case Sell(owner, outcome, tokensIn, min, now) => DoSell(cfg, w, owner, outcome, tokensIn, min, now)
      case MintSet(owner, amount) => DoMintSet(w, owner, amount)
      case RedeemSet(owner, amount) => DoRedeemSet(w, owner, amount)
      case Freeze(now) => DoFreeze(w, now)
      case Resolve(hint, proof) => DoResolve(cfg, w, hint, proof)
      case Redeem(owner) => DoRedeem(w, owner)
      case Close(now) => DoClose(cfg, w, now)
  }

  function Apply(cfg: Config, w: World, a: Action): World
    requires Fee.ValidParams(cfg.fees)
  {
    var r := Step(cfg, w, a);
    if r.Ok? then r.value else w
  }

  function Run(cfg: Config, w: World, actions: seq<Action>): World
    requires Fee.ValidParams(cfg.fees)
    decreases |actions|
  {
    if actions == [] then w else Run(cfg, Apply(cfg, w, actions[0]), actions[1..])
  }
}
