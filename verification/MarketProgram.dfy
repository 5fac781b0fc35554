/** The handlers of the spot market in the program's own form: they read and write the accounts in
    place, and stop at the first failed check. Each is proved equal to its step in `Spot`; the runtime
    discards what a failed transaction wrote.
    */
module MarketProgram {
  import opened Machine
  import opened Lmsr
  import opened BudgetSearch
  import opened Sums
  import opened Spot
  import opened Resolution
  import Fee

  /** The loop that credits every outcome of a position. */
  method AddTokens(tokens: Quantities, amount: u64) returns (r: Result<Quantities>)
    ensures r == AddToAll(tokens, amount)
  {
    var out := tokens;
    for i := 0 to N_OUTCOMES
      invariant forall k :: 0 <= k < i ==> tokens[k] + amount < TWO64 && out[k] == tokens[k] + amount
      invariant forall k :: i <= k < N_OUTCOMES ==> out[k] == tokens[k]
    {
      if out[i] + amount >= TWO64 {
        return Err(MathOverflow);
      }
      out := out[i := out[i] + amount];
    }
    assert AddToAll(tokens, amount).value == out;
    return Ok(out);
  }

  /** The loop that takes `amounts` off every outcome. */
  method SubTokens(tokens: Quantities, amounts: Quantities) returns (r: Result<Quantities>)
    ensures r == SubFromAll(tokens, amounts)
  {
    var out := tokens;
    for i := 0 to N_OUTCOMES
      invariant forall k :: 0 <= k < i ==> amounts[k] <= tokens[k] && out[k] == tokens[k] - amounts[k]
      invariant forall k :: i <= k < N_OUTCOMES ==> out[k] == tokens[k]
    {
      if out[i] < amounts[i] {
        return Err(MathOverflow);
      }
      out := out[i := out[i] - amounts[i]];
    }
    assert SubFromAll(tokens, amounts).value == out;
    return Ok(out);
  }

  class MarketAccounts {
    const cfg: Config
    // written once, by `init_market`
    const b: u64
    const fixtureId: i64
    const kickoffTs: i64
    const freezeTs: i64
    // market record
    var q: Quantities
    var usdtCollateral: u64
    var supply: Quantities
    var state: MarketState
    var outcome: Outcome
    var lastPriceBps: u16
    var lastTs: i64
    var vAcc: u64
    // token accounts and positions
    var vault: u64
    var admin: u64
    var wallets: map<Owner, u64>
    var positions: map<Owner, Position>

    function FeeRecord(): Fee.FeeState
      reads this
    {
      Fee.FeeState(lastPriceBps, lastTs, vAcc)
    }

    function Record(): Market
      reads this
    {
      Market(q, b, usdtCollateral, supply, state, outcome, fixtureId, kickoffTs, freezeTs, FeeRecord())
    }

    function Accounts(): World
      reads this
    {
      World(Record(), vault, admin, wallets, positions)
    }

    /** A working copy of the accounts of a world. */
    constructor (config: Config, w: World)
      ensures cfg == config && Accounts() == w
    {
      cfg, b, fixtureId := config, w.market.b, w.market.fixtureId;
      kickoffTs, freezeTs := w.market.kickoffTs, w.market.freezeTs;
      q, usdtCollateral, supply := w.market.q, w.market.usdtCollateral, w.market.supply;
      state, outcome := w.market.state, w.market.outcome;
      lastPriceBps, lastTs, vAcc := w.market.fee.lastPriceBps, w.market.fee.lastTs, w.market.fee.vAcc;
      vault, admin, wallets, positions := w.vault, w.admin, w.wallets, w.positions;
    }

    // ------------------------------------------------------------- transfers

    /** trader -> vault */
    method TransferIn(owner: Owner, amount: u64) returns (r: Result<()>)
      requires owner in wallets
      modifies this`wallets, this`vault
      ensures r.Ok? ==> Deposit(old(Accounts()), owner, amount) == Ok(Accounts())
      ensures r.Err? ==> Deposit(old(Accounts()), owner, amount) == Err(r.error)
    {
      if wallets[owner] < amount || vault + amount >= TWO64 {
        return Err(TransferFailed);
      }
      wallets := wallets[owner := wallets[owner] - amount];
      vault := vault + amount;
      return Ok(());
    }

    /** vault -> trader */
    method TransferOut(owner: Owner, amount: u64) returns (r: Result<()>)
      requires owner in wallets
      modifies this`wallets, this`vault
      ensures r.Ok? ==> PayOut(old(Accounts()), owner, amount) == Ok(Accounts())
      ensures r.Err? ==> PayOut(old(Accounts()), owner, amount) == Err(r.error)
    {
      if vault < amount || wallets[owner] + amount >= TWO64 {
        return Err(TransferFailed);
      }
      wallets := wallets[owner := wallets[owner] + amount];
      vault := vault - amount;
      return Ok(());
    }

    /** New price of the traded outcome, accumulator, clock. */
    method ArmFee(idx: nat, vRef: u64, now: i64) returns (r: Result<()>)
      modifies this`lastPriceBps, this`lastTs, this`vAcc
      ensures r.Ok? ==> FeeAfter(cfg, b, old(FeeRecord()), q, idx, vRef, now) == Ok(FeeRecord())
      ensures r.Err? ==> FeeAfter(cfg, b, old(FeeRecord()), q, idx, vRef, now) == Err(r.error)
    {
      hide PriceOf;
      var price :- PriceBps(q, b, idx);
      vAcc :- Fee.NextVAcc(cfg.fees, vRef, lastPriceBps, price);
      lastPriceBps := price;
      lastTs := now;
      return Ok(());
    }

    // -------------------------------------------------------------- handlers

    method Buy(owner: Owner, outcomeIdx: u8, usdtIn: u64, minTokensOut: u64, now: i64) returns (r: Result<()>)
      requires Fee.ValidParams(cfg.fees)
      modifies this
      ensures r.Ok? ==> DoBuy(cfg, old(Accounts()), owner, outcomeIdx, usdtIn, minTokensOut, now) == Ok(Accounts())
      ensures r.Err? ==> DoBuy(cfg, old(Accounts()), owner, outcomeIdx, usdtIn, minTokensOut, now) == Err(r.error)
    {
      hide PriceOf, BuyDelta, FeeCharged, FeeAfter, NetOf, AssertSolventMulti, InRange;
      if owner !in positions || owner !in wallets {
        return Err(AccountMissing);
      }
      if state != Trading {
        return Err(InvalidMarketState);
      }
      if usdtIn == 0 {
        return Err(ZeroAmount);
      }
      if now < lastTs {
        return Err(MonotonicClock);
      }
      var idx: nat := outcomeIdx;
      if idx >= N_OUTCOMES {
        return Err(LmsrInvalidOutcomeIndex);
      }
      var charged :- FeeCharged(cfg, FeeRecord(), now);
      var amountInNet := NetOf(usdtIn, charged.0);
      if amountInNet == 0 {
        return Err(ZeroAmount);
      }
      var solved, _ := BuyDeltaForCost(q, b, idx, amountInNet);
      var delta :- solved;
      if delta == 0 {
        return Err(SlippageExceeded);
      }
      if delta < minTokensOut {
        return Err(SlippageExceeded);
      }
      q := q[idx := q[idx] + delta];
      if supply[idx] + delta >= TWO64 {
        return Err(MathOverflow);
      }
      supply := supply[idx := supply[idx] + delta];
      var _ :- ArmFee(idx, charged.1, now);
      var p := positions[owner];
      if p.tokens[idx] + delta >= TWO64 {
        return Err(MathOverflow);
      }
      p := p.(tokens := p.tokens[idx := p.tokens[idx] + delta]);
      if p.collateral + usdtIn >= TWO64 {
        return Err(MathOverflow);
      }
      p := p.(collateral := p.collateral + usdtIn);
      positions := positions[owner := p];
      var _ :- TransferIn(owner, usdtIn);
      if usdtCollateral + usdtIn >= TWO64 {
        return Err(MathOverflow);
      }
      usdtCollateral := usdtCollateral + usdtIn;
      return AssertSolventMulti(vault, supply);
    }

    method Sell(owner: Owner, outcomeIdx: u8, tokensIn: u64, minUsdtOut: u64, now: i64) returns (r: Result<()>)
      requires Fee.ValidParams(cfg.fees)
      modifies this
      ensures r.Ok? ==> DoSell(cfg, old(Accounts()), owner, outcomeIdx, tokensIn, minUsdtOut, now) == Ok(Accounts())
      ensures r.Err? ==> DoSell(cfg, old(Accounts()), owner, outcomeIdx, tokensIn, minUsdtOut, now) == Err(r.error)
    {
      hide PriceOf, SellRefund, FeeCharged, FeeAfter, NetOf, AssertSolventMulti, InRange;
      if owner !in positions || owner !in wallets {
        return Err(AccountMissing);
      }
      var idx: nat := outcomeIdx;
      if idx >= N_OUTCOMES {
        return Err(LmsrInvalidOutcomeIndex);
      }
      if state != Trading {
        return Err(InvalidMarketState);
      }
      if tokensIn == 0 {
        return Err(ZeroAmount);
      }
      if now < lastTs {
        return Err(MonotonicClock);
      }
      if positions[owner].tokens[idx] < tokensIn {
        return Err(InsufficientPositionBalance);
      }
      var charged :- FeeCharged(cfg, FeeRecord(), now);
      var gross :- SellRefund(q, b, idx, tokensIn);
      var usdtOut := NetOf(gross, charged.0);
      if usdtOut < minUsdtOut {
        return Err(SlippageExceeded);
      }
      if q[idx] < tokensIn {
        return Err(MathOverflow);
      }
      q := q[idx := q[idx] - tokensIn];
      if supply[idx] < tokensIn {
        return Err(MathOverflow);
      }
      supply := supply[idx := supply[idx] - tokensIn];
      var _ :- ArmFee(idx, charged.1, now);
      if usdtCollateral < usdtOut {
        return Err(MathOverflow);
      }
      usdtCollateral := usdtCollateral - usdtOut;
      var p := positions[owner];
      p := p.(tokens := p.tokens[idx := p.tokens[idx] - tokensIn]);
      p := p.(collateral := SatSub(p.collateral, usdtOut));
      positions := positions[owner := p];
      var _ :- TransferOut(owner, usdtOut);
      return AssertSolventMulti(vault, supply);
    }

    method MintSet(owner: Owner, amount: u64) returns (r: Result<()>)
      modifies this
      ensures r.Ok? ==> DoMintSet(old(Accounts()), owner, amount) == Ok(Accounts())
      ensures r.Err? ==> DoMintSet(old(Accounts()), owner, amount) == Err(r.error)
    {
      hide GrownBySet, AddToAll, SubFromAll, AssertSolventMulti;
      if owner !in positions || owner !in wallets {
        return Err(AccountMissing);
      }
      if state != Trading {
        return Err(InvalidMarketState);
      }
      if amount == 0 {
        return Err(ZeroAmount);
      }
      var _ :- GrowCurve(amount);
      var p := positions[owner];
      var grown := AddTokens(p.tokens, amount);
      var tokens :- grown;
      p := p.(tokens := tokens);
      if p.collateral + amount >= TWO64 {
        return Err(MathOverflow);
      }
      p := p.(collateral := p.collateral + amount);
      positions := positions[owner := p];
      var _ :- TransferIn(owner, amount);
      if usdtCollateral + amount >= TWO64 {
        return Err(MathOverflow);
      }
      usdtCollateral := usdtCollateral + amount;
      return AssertSolventMulti(vault, supply);
    }

    /** The loop of `mint_set` over the curve. */
    method GrowCurve(amount: u64) returns (r: Result<()>)
      modifies this`q, this`supply
      ensures r.Ok? ==> GrownBySet(old(q), old(supply), amount) == Ok((q, supply))
      ensures r.Err? ==> GrownBySet(old(q), old(supply), amount) == Err(r.error)
    {
      for i := 0 to N_OUTCOMES
        invariant forall k :: 0 <= k < i ==> GrowOne(old(q)[k], old(supply)[k], amount).Ok?
        invariant forall k :: 0 <= k < i ==> q[k] == old(q)[k] + amount && supply[k] == old(supply)[k] + amount
        invariant forall k :: i <= k < N_OUTCOMES ==> q[k] == old(q)[k] && supply[k] == old(supply)[k]
      {
        ghost var step := GrowOne(old(q)[i], old(supply)[i], amount);
        if q[i] + amount >= TWO64 {
          return Err(MathOverflow);
        }
        var newQ := q[i] + amount;
        if newQ > Q_MAX {
          return Err(LmsrQuantityTooLarge);
        }
        q := q[i := newQ];
        if supply[i] + amount >= TWO64 {
          return Err(MathOverflow);
        }
        supply := supply[i := supply[i] + amount];
      }
      assert GrownBySet(old(q), old(supply), amount).value.0 == q;
      assert GrownBySet(old(q), old(supply), amount).value.1 == supply;
      return Ok(());
    }

    /** Subtracts a whole set, or a redeemed position, outcome by outcome. */
    method ShrinkCurve(amount: u64) returns (r: Result<()>)
      modifies this`q, this`supply
      ensures r.Ok? ==> SubFromAll(old(q), [amount, amount, amount]) == Ok(q)
      ensures r.Ok? ==> SubFromAll(old(supply), [amount, amount, amount]) == Ok(supply)
      ensures r.Err? ==> r == Err(MathOverflow) && (SubFromAll(old(q), [amount, amount, amount]).Err? || SubFromAll(old(supply), [amount, amount, amount]).Err?)
    {
      for i := 0 to N_OUTCOMES
        invariant forall k :: 0 <= k < i ==> amount <= old(q)[k] && amount <= old(supply)[k]
        invariant forall k :: 0 <= k < i ==> q[k] == old(q)[k] - amount && supply[k] == old(supply)[k] - amount
        invariant forall k :: i <= k < N_OUTCOMES ==> q[k] == old(q)[k] && supply[k] == old(supply)[k]
      {
        if q[i] < amount {
          return Err(MathOverflow);
        }
        q := q[i := q[i] - amount];
        if supply[i] < amount {
          return Err(MathOverflow);
        }
        supply := supply[i := supply[i] - amount];
      }
      assert SubFromAll(old(q), [amount, amount, amount]).value == q;
      assert SubFromAll(old(supply), [amount, amount, amount]).value == supply;
      return Ok(());
    }

    method RedeemSet(owner: Owner, amount: u64) returns (r: Result<()>)
      modifies this
      ensures r.Ok? ==> DoRedeemSet(old(Accounts()), owner, amount) == Ok(Accounts())
      ensures r.Err? ==> DoRedeemSet(old(Accounts()), owner, amount) == Err(r.error)
    {
      hide GrownBySet, AddToAll, SubFromAll, AssertSolventMulti;
      if owner !in positions || owner !in wallets {
        return Err(AccountMissing);
      }
      if state != Trading {
        return Err(InvalidMarketState);
      }
      if amount == 0 {
        return Err(ZeroAmount);
      }
      for i := 0 to N_OUTCOMES
        invariant forall k :: 0 <= k < i ==> positions[owner].tokens[k] >= amount
      {
        if positions[owner].tokens[i] < amount {
          return Err(InsufficientPositionBalance);
        }
      }
      var _ :- ShrinkCurve(amount);
      if usdtCollateral < amount {
        return Err(MathOverflow);
      }
      usdtCollateral := usdtCollateral - amount;
      var p := positions[owner];
      var shrunk := SubTokens(p.tokens, [amount, amount, amount]);
      p := p.(tokens := shrunk.value);
      p := p.(collateral := SatSub(p.collateral, amount));
      positions := positions[owner := p];
      var _ :- TransferOut(owner, amount);
      return AssertSolventMulti(vault, supply);
    }

    method Redeem(owner: Owner) returns (r: Result<()>)
      modifies this
      ensures r.Ok? ==> DoRedeem(old(Accounts()), owner) == Ok(Accounts())
      ensures r.Err? ==> DoRedeem(old(Accounts()), owner) == Err(r.error)
    {
      if owner !in positions || owner !in wallets {
        return Err(AccountMissing);
      }
      if state != Resolved {
        return Err(InvalidMarketState);
      }
      if positions[owner].redeemed {
        return Err(AlreadyRedeemed);
      }
      var payout :- PayoutOf(Record(), positions[owner]);
      var balances := positions[owner].tokens;
      positions := positions[owner := Position([0, 0, 0], 0, true)];
      var left := SubTokens(supply, balances);
      supply :- left;
      if usdtCollateral < payout {
        return Err(MathOverflow);
      }
      usdtCollateral := usdtCollateral - payout;
      if payout > 0 {
        r := TransferOut(owner, payout);
      } else {
        r := Ok(());
      }
    }

    method OpenPosition(owner: Owner) returns (r: Result<()>)
      modifies this`positions
      ensures r.Ok? ==> DoOpenPosition(old(Accounts()), owner) == Ok(Accounts())
      ensures r.Err? ==> DoOpenPosition(old(Accounts()), owner) == Err(r.error)
    {
      if owner in positions {
        return Err(AccountExists);
      }
      positions := positions[owner := Position([0, 0, 0], 0, false)];
      return Ok(());
    }

    method Activate(now: i64) returns (r: Result<()>)
      modifies this`state, this`lastTs
      ensures r.Ok? ==> DoActivate(old(Accounts()), now) == Ok(Accounts())
      ensures r.Err? ==> DoActivate(old(Accounts()), now) == Err(r.error)
    {
      if state != Open {
        return Err(InvalidMarketState);
      }
      if now < kickoffTs {
        return Err(KickoffNotReached);
      }
      state := Trading;
      lastTs := now;
      return Ok(());
    }

    method Freeze(now: i64) returns (r: Result<()>)
      modifies this`state
      ensures r.Ok? ==> DoFreeze(old(Accounts()), now) == Ok(Accounts())
      ensures r.Err? ==> DoFreeze(old(Accounts()), now) == Err(r.error)
    {
      if state != Trading {
        return Err(InvalidMarketState);
      }
      if now < freezeTs {
        return Err(FreezeNotReached);
      }
      state := Locked;
      return Ok(());
    }

    method Resolve(hint: u8, proof: ScoreProof) returns (r: Result<()>)
      modifies this`state, this`outcome
      ensures r.Ok? ==> DoResolve(cfg, old(Accounts()), hint, proof) == Ok(Accounts())
      ensures r.Err? ==> DoResolve(cfg, old(Accounts()), hint, proof) == Err(r.error)
    {
      hide Resolution.Resolve;
      if state != Locked {
        return Err(InvalidMarketState);
      }
      outcome :- Resolution.Resolve(cfg.resolve, fixtureId, hint, proof);
      state := Resolved;
      return Ok(());
    }

    method Close(now: i64) returns (r: Result<()>)
      modifies this
      ensures r.Ok? ==> DoClose(cfg, old(Accounts()), now) == Ok(Accounts())
      ensures r.Err? ==> DoClose(cfg, old(Accounts()), now) == Err(r.error)
    {
      if state != Resolved {
        return Err(InvalidMarketState);
      }
      if !(-TWO63 <= freezeTs + cfg.graceSecs < TWO63) {
        return Err(MathOverflow);
      }
      if now < freezeTs + cfg.graceSecs {
        return Err(GraceNotElapsed);
      }
      var swept := vault;
      if swept > 0 {
        if admin + swept >= TWO64 {
          return Err(TransferFailed);
        }
        vault, admin := 0, admin + swept;
      }
      state := Closed;
      usdtCollateral := 0;
      return Ok(());
    }

    // --------------------------------------------------------------- runtime

    /** Writes a world back; what `init_market` wrote once is the same in it. */
    method Restore(w: World)
      requires w.market.b == b && w.market.fixtureId == fixtureId
      requires w.market.kickoffTs == kickoffTs && w.market.freezeTs == freezeTs
      modifies this
      ensures Accounts() == w
    {
      q, usdtCollateral, supply := w.market.q, w.market.usdtCollateral, w.market.supply;
      state, outcome := w.market.state, w.market.outcome;
      lastPriceBps, lastTs, vAcc := w.market.fee.lastPriceBps, w.market.fee.lastTs, w.market.fee.vAcc;
      vault, admin, wallets, positions := w.vault, w.admin, w.wallets, w.positions;
    }

    method Dispatch(a: Action) returns (r: Result<()>)
      requires Fee.ValidParams(cfg.fees)
      modifies this
      ensures r.Ok? ==> Step(cfg, old(Accounts()), a) == Ok(Accounts())
      ensures r.Err? ==> Step(cfg, old(Accounts()), a) == Err(r.error)
    {
      hide DoBuy, DoSell, DoMintSet, DoRedeemSet, DoRedeem, DoResolve, DoOpenPosition, DoActivate, DoFreeze, DoClose;
      if state == Closed {
        return Err(AccountMissing);
      }
      match a
      case OpenPosition(owner) => r := OpenPosition(owner);
      case Activate(now) => r := Activate(now);
      case Buy(owner, idx, usdtIn, min, now) => r := Buy(owner, idx, usdtIn, min, now);
      case Sell(owner, idx, tokensIn, min, now) => r := Sell(owner, idx, tokensIn, min, now);
      case MintSet(owner, amount) => r := MintSet(owner, amount);
      case RedeemSet(owner, amount) => r := RedeemSet(owner, amount);
      case Freeze(now) => r := Freeze(now);
      case Resolve(hint, proof) => r := Resolve(hint, proof);
      case Redeem(owner) => r := Redeem(owner);
      case Close(now) => r := Close(now);
    }

    /** One transaction: the handler runs in place, and a failure leaves every account as it was. */
    method Process(a: Action) returns (r: Result<()>)
      requires Fee.ValidParams(cfg.fees)
      modifies this
      ensures Accounts() == Apply(cfg, old(Accounts()), a)
      ensures r.Ok? <==> Step(cfg, old(Accounts()), a).Ok?
    {
      hide Step;
      var before := Accounts();
      r := Dispatch(a);
      if r.Err? {
        Restore(before);
      }
    }
  }
}
