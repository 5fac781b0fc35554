# A 1X2 prediction market, verified in Dafny

This project models an on-chain market for football results (Team1 / Draw / Team2) and the off-chain
programs around it, and proves what they promise. It covers

- the **fixed-point kernel** of the LMSR market maker: Q64.64 multiply, `exp(-x)`, `ln(y)`, cost, prices,
  quotes and the budget search;
- the **spot market**: opening, trading, complete sets, freezing, resolution, redemption, closing;
- the **dynamic fee** every trade pays;
- the **leverage pool**: positions, funding, settlement, LP shares;
- **resolution by hint and proof**, with the keeper's three-hint ladder;
- the **indexer**: its price port, its signature walk, and its replay after crashes;
- the **SSE parser** the keeper reads scores with.

`dafny verify dfyconfig.toml` checks everything. Machine integers are subset types, so every assignment to
one is an overflow obligation; checked arithmetic that can fail returns the program's error.

## Main results

1. **The cost is monotone.** For every quantity triple, outcome and delta in range and every liquidity up to
   2^52, C(q) never falls when an outcome is bought (`CostMonotone.CostIsMonotone`). Both
   `saturating_sub` belts are inert there, and the budget search returns the largest affordable amount. It
   rests on accuracy and slope bounds of the integer series: the exp loop stays within 84 units below and
   21 above the exact paired Taylor sum, ln within 162 units below twice the exact atanh sum, and the
   slopes of both sums are bounded; what the caps cut off is less than a unit, however many more terms are
   taken (`LongerSums`). At a liquidity little above 2^59 (`CostDip.LeaderStepDips`) and at the largest the program
   accepts (`CostDip.CostCanDip`) it is false: these give the inputs.
2. **Solvency over every run.** From every accepted opening, after any sequence of transactions, the vault
   covers the curve's cost less the smallest seed, up to the total that sells' saturation hid; with a monotone
   cost that total is zero, so from every such opening, after every run, the solvency check at the tail of a
   trade never rejects (`SpotGuarantees.SolventOverEveryRun`, `SpotExits.NeverInsolvent`). And a holder can always
   sell, in every market with b up to 2^52 and after every run, exactly when the fee parameters fit
   (`SpotSwings.ExitsAreOpenExactlyWhen`).
3. **Bounded loss, full redemption.** From every accepted opening, over every run to a resolved market and for
   every liquidity: holders redeem in any order, each for exactly the tokens held, closing goes through, and the
   admin ends with at least what there was before the opening, less the opening cost above the smallest seed and
   what sells hid (`SpotLoss.EveryoneIsPaid`, `SpotLoss.ClosingLossIsBounded`); up to b = 2^52 they hide nothing.
4. **The leverage pool pays in any order.** Its books are exact sums over live accounts, no settlement eats
   into the backing of the others, and from a nonnegative backing every computable settlement is paid in any
   order. A close pays exactly collateral and profit less the funding accrued (`PoolGuards.ClosePays`), each index
   advances at the marks in force (`PoolFunding.AccruesAtPreviousMarks`), and openings, expiries, the valve and LP
   actions go through exactly under conditions on the state before them (`PoolGuards`). The coverage guard alone
   does not give that backing (`PoolExamples.CoverageIsNotBacking`); the exact condition, known before the opening,
   is `PoolRuns.OpenKeepsBackingExactlyWhen`. Over any run of the pool an
   index grows by exactly the sum of its posts' advances, between one and five times the neutral amount, and n
   posts add at most n - 1 to what one would have added (`PoolFunding.FundingOverRuns`).
5. **Crash-safe replay.** Over any interleaving of chain growth (also while a walk is under way), unanswered
   queries and crashes between database writes, every trade and redemption takes effect at most once and totals
   are the sums of rows. With every query answered the tables are at a point of one clean pass, and equal that
   pass when a process finishes (`Indexer.Interleave`). A run throws exactly when what it walks holds a
   redemption of a market nothing before it created (`Indexer.Process.TailOnce`).
6. **Streaming is batch, up to where exactly a cut shows.** Text without carriage returns may be cut anywhere into
   any pieces; other text anywhere but in some line ends of empty lines, and there exactly where it is harmless
   (`SseCuts.ParseStream`, `SseCuts.CutExactlyWhen`, `SseCuts.CutsExactlyWhen`).
7. **Cutting a trade in two never pays.** A purchase split in two costs no less, a budget split in two buys no
   more, a sale split in two pays no more (`TradeLaws.SplitBudgetBuysLess`, `TradeLaws.SplitSalePaysLess`).
8. **Resolution is decided by the proof.** Exactly one hint is accepted for an admissible proof, and what is
   written is Team1, Draw or Team2 as the proven goals say (`Resolution.ResolvesByTheScore`); the ladder ends at
   the same outcome whatever the keeper believes.
9. **What a trade is charged.** The fee of every purchase and sale is the quadratic one at the market's own reference
   volatility (`TradeLaws.BuyGivesTheMost`, `TradeLaws.SellPaysTheNet`), and each instruction of the spot market
   goes through exactly under a condition on the state before it (`SpotGuards`).

## Findings

Where the code does not do what its comments say, the model follows the code.

- `cost_q64` is not monotone at the top of its range: the comment at programs/amm/src/lmsr.rs:313 calls the
  saturation a belt; at b = 2^60 it is used (`CostDip.CostCanDip`), and already at b = 636094623231363895, because
  ln falls by thirteen units more than its slope where its argument passes two (`CostDip.LeaderStepDips`).
- The search needs at most 60 halvings, not 61 (`BudgetSearch.BuyDeltaForCost`).
- Some fee parameters that `create_market_config` accepts let a run of trades from the opening drive the
  accumulator to where every further trade in the burst window overflows (`Fee.ValidParamsCanOverflow`). Which
  parameters never fail a run is known exactly, and can be checked when the configuration is created
  (`Fee.RunsNeverFailExactlyWhen`); under any others a market opened by the rules comes to a sale its holder is
  refused (`SpotSwings.SomeSaleOverflows`).
- A leveraged position can be opened, past every guard, that can never be settled once it wins, because its
  profit does not fit 64 bits (`PoolExamples.SomeOpeningsCannotSettle`). After a real outcome exactly those
  positions settle whose funding fits and whose booked gain is below 2^63 if they won, or whose notional fits if
  they lost (`PoolRuns.ResolvedSettlesExactlyWhen`).
- A position whose funding has outgrown 64 bits can be neither closed nor expired, at any mark or outcome and for
  good (`PoolRuns.OversizedFundingIsForGood`); two posts two seconds apart can take it there
  (`PoolExamples.SomeFundingNeverFits`).
- The coverage guard weighs booked gains against a vault that holds collateral owed back: a run from the
  creation of a pool ends 400 short of its claims (`PoolExamples.CoverageIsNotBacking`), and of two winners the
  second to close is not paid (`PoolExamples.SecondCloseFails`).
- A deposit into a pool without shares but with money in its vault buys that money
  (`FundingLaws.RoundTripExactlyWhen`).
- The keeper treats the oracle's own "predicate failed" error as terminal, so if the oracle raises it instead of
  returning false, a wrong belief is never corrected by the ladder (`Keeper.ResolveMarket`).
- A carriage return and line feed split between two chunks can merge two frames
  (`SseCuts.SplitLineEndMergesFrames`). It takes a cut inside the line end of the empty line that ends a frame;
  the frames then differ exactly when that frame and the next one cannot be read as one
  (`SseCuts.CutExactlyWhen`).
- If the node once leaves the creation of a market unanswered, the first redemption of that market stops the
  indexer's tail for good, although every query is answered from then on (`Indexer.LostCreationStops`,
  `Indexer.RefusedForGood`).

## How it is put together

`Machine` holds integer widths, errors and rounding. `Q64` holds the primitives; `ExpAccuracy`, `ExpSlope`,
`ExpRun`, `ExpShape`, `LoopCaps`, `LnAccuracy`, `LnMonotone`, `LnGrowth`, `LongerSums`, `KernelMeaning` prove what their
loops compute.
`Lmsr`, `LmsrLaws`, `BudgetSearch`, `CostMonotone`, `CostDip` are the market maker, `PricePort` the
TypeScript port. `Fee`, `Resolution`, `Spot` are the spot market's steps, `MarketProgram` its handlers in place,
`SpotLedger`, `SpotSolvency`, `SpotGuarantees`, `SpotLoss`, `SpotExits`, `SpotSwings` its invariants and exits,
`TradeLaws` the terms of single trades, `SpotGuards` when each goes through.
`Funding`, `FundingLaws`, `FundingAmounts`, `Pool`, `PoolProgram`, `PoolLaws`, `PoolRuns`, `PoolGuards`,
`PoolFunding`, `PoolExamples` are the leverage pool. `Keeper`, `Replay`, `Refusals`, `Indexer`, `Sse`, `SseFields`,
`SseFrames`, `SseCuts` are the off-chain parts.

Code that loops or writes in place is a method proved equal to a specification function; the properties are
lemmas about those functions. A failed transaction writes nothing: `Process` runs a handler in place and
restores the accounts on an error, as the runtime does. The real-number proofs keep products of unknowns
apart and pass 2^64 as a variable `u`.

## Model

| member | source | states |
|---|---|---|
| Q64.MulQ64 | programs/amm/src/lmsr.rs:110-128 | the limb multiply succeeds exactly when the floored product fits 128 bits, and equals it |
| Q64.ExpLoop | programs/amm/src/lmsr.rs:144-158 | the loop with its early exit returns the whole series; no checked step fails |
| Q64.ExpNegQ64 | programs/amm/src/lmsr.rs:136-162 | total on all of u128, and equal to range reduction, series, clamp and shift |
| Q64.LnLoop | programs/amm/src/lmsr.rs:184-194 | the atanh loop with its early exit returns the whole series; no checked step fails |
| Q64.LnQ64 | programs/amm/src/lmsr.rs:168-201 | errs exactly below one; otherwise exponent times ln 2 plus twice the series |
| LoopCaps.ExpCapIsSlack | programs/amm/src/lmsr.rs:99-101 | no further pairs after the cap of 20 would change exp of any reduced argument |
| LoopCaps.LnCapIsSlack | programs/amm/src/lmsr.rs:102 | no further terms after the cap of 40 would change ln of any mantissa |
| ExpAccuracy.SeriesAccuracy | programs/amm/src/lmsr.rs:144-158 | the integer sum is within 84 units below and 21 above the exact rational paired Taylor sum |
| ExpSlope.TaylorDropsBy | programs/amm/src/lmsr.rs:144-158 | the exact sum falls at least 0.3 units per unit of argument up to ln 2 |
| ExpSlope.TaylorDropsAtMost | programs/amm/src/lmsr.rs:144-158 | the exact sum falls at most 1.2 times its own value per unit of argument |
| ExpShape.SeriesAtLn2 | programs/amm/src/lmsr.rs:136-162 | at ln 2 the integer series is one half less exactly eleven units |
| ExpShape.ExpFalls | programs/amm/src/lmsr.rs:136-162 | exp never rises once its argument has grown by 2^10 units, over all arguments and octaves |
| ExpShape.ExpFallsSlowly | programs/amm/src/lmsr.rs:136-162 | exp never falls faster than 1.2 times its value, up to a constant number of units |
| LnMonotone.LnSeriesAtThird | programs/amm/src/lmsr.rs:179-201 | twice the series at one third is ln 2 less exactly thirteen units |
| LnMonotone.LnIsMonotone | programs/amm/src/lmsr.rs:168-201 | ln is exactly monotone on its whole domain |
| LnMonotone.LnRange | programs/amm/src/lmsr.rs:25-29 | the logarithm of a sum between one and three is between zero and twice ln 2 |
| LnAccuracy.MantissaAccuracy | programs/amm/src/lmsr.rs:179-201 | ln of a mantissa lies between twice the exact 41-term atanh sum and 162 units below it |
| LnAccuracy.LnAccuracyAt | programs/amm/src/lmsr.rs:168-201 | the same for every argument: exponent times ln 2 plus twice the exact sum at the mantissa kept, less at most 162 units |
| LongerSums.ExpAgainstLongerSums | programs/amm/src/lmsr.rs:42-43 | the exp loop is within 85 units below and 21 above every exact Taylor sum of 42 terms or more |
| LongerSums.LnAgainstLongerSums | programs/amm/src/lmsr.rs:46-48 | ln of a mantissa is within 164 units below twice every exact atanh sum of 41 terms or more |
| LnGrowth.LnGrowsSlowly | programs/amm/src/lmsr.rs:168-201 | over any step in [1, 3] ln gains at most the step over its lower end, plus 400 units |
| Lmsr.ValidateInputs | programs/amm/src/lmsr.rs:209-217 | accepts exactly b in [10^3, 2^60] and quantities up to 2^60 |
| Lmsr.ExpNegZero | programs/amm/src/lmsr.rs:25-27 | exp of zero is exactly one |
| Lmsr.ExpSumRange | programs/amm/src/lmsr.rs:219-236 | the shifted sum is between one and three and each term at most one |
| Lmsr.LeaderIsOne | programs/amm/src/lmsr.rs:219-220 | the leading outcome's term is exactly one |
| Lmsr.ShiftedExpSum | programs/amm/src/lmsr.rs:221-236 | the loop fills the three terms and their sum, and no step of it can fail |
| Lmsr.CostQ64 | programs/amm/src/lmsr.rs:243-251 | outside the range the documented error, inside it C(q), never another error |
| Lmsr.CostRange | programs/amm/src/lmsr.rs:67-74 | C(q) is at least the largest quantity exactly, and at most 2 ln 2 times b above it |
| Lmsr.CostUnits | programs/amm/src/lmsr.rs:255-262 | the smallest whole number of units covering C(q) |
| Lmsr.PricesBps | programs/amm/src/lmsr.rs:268-282 | after validation always the three floored shares of the sum |
| Lmsr.PriceBps | programs/amm/src/lmsr.rs:285-290 | one outcome's price, or the index or range error |
| Lmsr.SolventMeans | programs/amm/src/lmsr.rs:446-452 | the solvency check passes exactly when the vault covers every supply |
| Lmsr.QuotesAreTotal | programs/amm/src/lmsr.rs:295-348 | exactly when a buy or sell quote is given at all |
| Lmsr.ChargeFits | programs/amm/src/lmsr.rs:313-320 | a charge is at least one unit, fits, and covers the rise of the cost |
| Lmsr.RoundTripNeverProfits | programs/amm/src/lmsr.rs:62-65 | selling back what was bought never pays more than it cost, for every b |
| LmsrLaws.SetsAreNeutral | programs/amm/src/instructions/mint_set.rs:5-22 | moving all quantities by s leaves every price bit-identical and raises the cost by exactly s |
| LmsrLaws.PricesSumToOne | programs/amm/src/lmsr.rs:264-267 | the three prices sum to between 9998 and 10000 |
| LmsrLaws.LeaderHasTheBestPrice | programs/amm/src/lmsr.rs:268-282 | the largest quantity has the largest price, at least 3333 |
| LmsrLaws.PriceFollowsQuantity | programs/amm/src/lmsr.rs:268-282 | a quantity larger by (2^10 + 1) b / 2^64 or more is priced no lower |
| BudgetSearch.BuyDeltaForCost | programs/amm/src/lmsr.rs:376-436 | the search method returns the specified delta in at most 60 halvings |
| BudgetSearch.CostCoversSize | programs/amm/src/lmsr.rs:361-366 | a purchase costs at least its size less the slack |
| BudgetSearch.BracketIsComplete | programs/amm/src/lmsr.rs:361-366 | no affordable purchase lies outside the bracket |
| BudgetSearch.HalveFinds | programs/amm/src/lmsr.rs:425-435 | the halving keeps an affordable lower and an unaffordable upper end down to neighbours |
| BudgetSearch.BuyDeltaIsLocalMaximum | programs/amm/src/lmsr.rs:350-359 | without assuming monotone cost: the result is affordable or zero, and one more is unaffordable or out of range |
| BudgetSearch.ChargedWhatWasSolved | programs/amm/src/lmsr.rs:392-393 | what `buy_cost` charges for the result is within the budget |
| CostMonotone.StepBelowLeader | programs/amm/src/lmsr.rs:243-251 | one more token below the leader never lowers the cost |
| CostMonotone.StepAtLeader | programs/amm/src/lmsr.rs:243-251 | one more token at the leader never lowers the cost |
| CostMonotone.CostIsMonotone | programs/amm/src/lmsr.rs:313 | for every input in range with b up to 2^52, every outcome and delta, the cost never falls |
| CostMonotone.BeltsAreInert | programs/amm/src/lmsr.rs:313-314 | buy and sell quotes are the rounded exact difference of the costs |
| CostMonotone.CostOfIsMonotone | programs/amm/src/lmsr.rs:394-407 | a bigger purchase costs at least as much |
| CostMonotone.BuyDeltaIsTheMaximum | programs/amm/src/lmsr.rs:350-352 | the search returns the largest affordable purchase of all |
| CostDip.CostCanDip | programs/amm/src/lmsr.rs:345-346 | a valid input at b = 2^60 where one more token of a trailing outcome lowers the cost |
| CostDip.LeaderStepDips | programs/amm/src/lmsr.rs:313 | a valid input at b just above 2^59 where one more token of the leading outcome lowers the cost |
| KernelMeaning.ExpIs | programs/amm/src/lmsr.rs:136-162 | exp of x = k ln 2 + r is the exact Taylor sum at r over 2^k within 84 and 21 units before the shift, and zero past 64 halvings |
| KernelMeaning.LnIs | programs/amm/src/lmsr.rs:168-201 | y is its mantissa times a power of two, and ln y that power times ln 2 and twice the exact atanh sum, less at most 162 units |
| KernelMeaning.CostIs | programs/amm/src/lmsr.rs:219-282 | the cost and the three prices from the floored distances to the leader: top + b ln of the sum of exps, and floored shares of that sum |
| PricePort.ExpNegQ64 | apps/indexer/src/chain/lmsr-price.ts:46-63 | the port's exp over unbounded integers equals the program's |
| PricePort.ShiftedExpSum | apps/indexer/src/chain/lmsr-price.ts:70-86 | null exactly for b <= 0; otherwise the program's terms and sum |
| PricePort.Prices1x2Bps | apps/indexer/src/chain/lmsr-price.ts:94-110 | 3333 each for b <= 0; otherwise the specified prices for every b > 0 |
| PricePort.PortAgrees | apps/indexer/src/chain/lmsr-price.ts:9-15 | whenever the program quotes prices, the port shows the same three |
| Fee.FeeSucceedsExactlyWhen | programs/amm/src/fee.rs:62-93 | exactly when a fee is computed at all |
| Fee.FeeIsQuadratic | programs/amm/src/fee.rs:60-93 | the fee is the base and vfc v^2 / 10^13 rounded up, or the maximum where that is more |
| Fee.DecayIsByZones | programs/amm/src/fee.rs:33-58 | the reference volatility: all of the accumulator inside the filter period, the floored reduced part up to the decay period, nothing after |
| Fee.AccumulatorIs | programs/amm/src/fee.rs:95-107 | the accumulator after a trade: that volatility and the price move times 10^4, capped |
| Fee.FeeNeverRoundsAway | programs/amm/src/fee.rs:76-85 | under any volatility the fee is above its base, or at its cap |
| Fee.FeeIsMonotone | programs/amm/src/fee.rs:60-93 | less reference volatility never costs more |
| Fee.DecayFallsWithTime | programs/amm/src/fee.rs:33-58 | the reference volatility falls with the time waited |
| Fee.WaitingNeverCostsMore | programs/amm/src/fee.rs:110-118 | a trade made later pays at most the same fee |
| Fee.RunStaysInBand | programs/amm/src/fee.rs:95-107 | over every run the accumulator keeps its cap and every fee its band |
| Fee.RunNeverFails | programs/amm/src/fee.rs:35-107 | when the peak fits, no run of trades in clock order fails, and the accumulator never passes its peak |
| Fee.RunsNeverFailExactlyWhen | programs/amm/src/fee.rs:35-107 | from the opening state: no run of trades fails if and only if the peak fits, a condition on the parameters alone |
| Fee.PeakIsWhereGrowthEnds | programs/amm/src/fee.rs:95-107 | below the peak a largest price move always raises the accumulator, at the peak it adds nothing |
| Fee.SwingsFail | programs/amm/src/fee.rs:62-107 | when the peak does not fit, swinging the price reaches a trade that fails |
| Fee.ValidParamsCanOverflow | programs/amm/src/instructions/create_market_config.rs:101-116 | a configuration the checks accept and a run of trades from the opening state that fails under it |
| Fee.StaleFeeIsBase | programs/amm/src/fee.rs:53-56 | after the decay period the fee is the base fee, whatever the accumulator |
| Resolution.ExactlyOneHintProves | programs/amm/src/instructions/resolve.rs:8-14 | for an admissible proof exactly the hint the numbers stand for is accepted |
| Resolution.AcceptedMeansProven | programs/amm/src/instructions/resolve.rs:87-200 | nothing but an admissible proof of that very outcome is accepted |
| Resolution.InadmissibleFailsAlike | programs/amm/src/instructions/resolve.rs:92-151 | an inadmissible proof fails for all hints with one error |
| Resolution.ResolvesByTheScore | programs/amm/src/instructions/resolve.rs:192-200 | whatever the hint, Team1, Draw or Team2 is written exactly as the proven goals' difference is above, at or below the threshold |
| Resolution.TheRightHintResolves | programs/amm/src/instructions/resolve.rs:8-14 | and for every admissible proof the hint for that outcome is accepted |
| TradeLaws.OpensExactlyWhen | programs/amm/src/instructions/init_market.rs:94-135 | which markets open: ordered times, inputs in range, and a seed that with the smallest seeded quantity covers the opening cost; and the record opened |
| Spot.GrownBySet | programs/amm/src/instructions/mint_set.rs:89-98 | the loop succeeds exactly when every quantity and supply has room |
| Spot.SubFromAll | programs/amm/src/instructions/redeem.rs:94-96 | the loop succeeds exactly when no balance exceeds its supply |
| MarketProgram.MarketAccounts.Buy | programs/amm/src/instructions/buy.rs:66-171 | the handler in place equals its step, error for error |
| MarketProgram.MarketAccounts.Sell | programs/amm/src/instructions/sell.rs:58-182 | the handler in place equals its step, error for error |
| MarketProgram.MarketAccounts.MintSet | programs/amm/src/instructions/mint_set.rs:80-145 | the handler in place equals its step, error for error |
| MarketProgram.MarketAccounts.GrowCurve | programs/amm/src/instructions/mint_set.rs:89-98 | the loop over quantities and supplies, with the first failure's error |
| MarketProgram.MarketAccounts.RedeemSet | programs/amm/src/instructions/redeem_set.rs:75-150 | the handler in place equals its step, error for error |
| MarketProgram.MarketAccounts.Redeem | programs/amm/src/instructions/redeem.rs:57-130 | the handler in place equals its step, error for error |
| MarketProgram.MarketAccounts.Activate | programs/amm/src/instructions/activate_market.rs:30-43 | Open to Trading after kickoff, with the fee clock armed |
| MarketProgram.MarketAccounts.Freeze | programs/amm/src/instructions/freeze_market.rs:30-41 | Trading to Locked after the freeze time |
| MarketProgram.MarketAccounts.Resolve | programs/amm/src/instructions/resolve.rs:76-204 | Locked to Resolved with the proven outcome |
| MarketProgram.MarketAccounts.Close | programs/amm/src/instructions/close_market.rs:64-124 | after the grace period the vault goes to the admin and the books to zero |
| MarketProgram.MarketAccounts.OpenPosition | programs/amm/src/instructions/open_position.rs:33-43 | an empty position, once per owner |
| MarketProgram.MarketAccounts.Process | programs/amm/src/instructions/buy.rs:66-171 | a transaction has its step's effect, or none |
| MarketProgram.AddTokens | programs/amm/src/instructions/mint_set.rs:102-106 | the loop that credits a position |
| MarketProgram.SubTokens | programs/amm/src/instructions/redeem_set.rs:112-116 | the loop that debits a position |
| SpotLedger.BuyMoves | programs/amm/src/instructions/buy.rs:108-158 | a buy moves one affordable delta one way and the whole payment the other |
| SpotLedger.SellMoves | programs/amm/src/instructions/sell.rs:98-146 | a sell moves the tokens back for at most the floored refund |
| SpotLedger.MintSetMoves | programs/amm/src/instructions/mint_set.rs:86-137 | a set moves all three outcomes and the vault alike |
| SpotLedger.RedeemSetMoves | programs/amm/src/instructions/redeem_set.rs:93-142 | burning a set is the inverse move |
| SpotLedger.RedeemPays | programs/amm/src/instructions/redeem.rs:65-101 | a redemption pays the winning tokens, empties the position and touches nothing else |
| SpotLedger.StepKeeps | programs/amm/src/instructions/mint_set.rs:20-25 | every transaction keeps q = seed + supply, supply = sum of positions, books = vault, and all USDT |
| SpotLedger.RunKeepsLedger | programs/amm/src/instructions/mint_set.rs:20-25 | the same over every run |
| SpotLedger.InitKeeps | programs/amm/src/instructions/init_market.rs:121-171 | the opening state satisfies all of it |
| SpotLedger.LifecycleStep | programs/amm/src/state.rs:12-32 | states only move forward one at a time; the outcome is written only from Locked to Resolved |
| SpotLedger.OutcomeIsFinal | programs/amm/src/state.rs:12-32 | over every run the outcome is written once |
| SpotSolvency.BuyRaisesPotential | programs/amm/src/instructions/init_market.rs:18-20 | a buy never lowers collateral above cost |
| SpotSolvency.SellNearlyKeepsPotential | programs/amm/src/lmsr.rs:345-346 | a sell lowers it by at most what its saturation hides |
| SpotSolvency.SetsKeepPotential | programs/amm/src/instructions/mint_set.rs:20-26 | complete sets leave it exactly where it was |
| SpotSolvency.StepPotential | programs/amm/src/instructions/init_market.rs:18-22 | no step before resolution lowers it by more than a sell hides |
| SpotSolvency.RunKeepsBacked | programs/amm/src/instructions/init_market.rs:18-22 | the vault's lower bound over every run, through resolution and redemption |
| TradeLaws.SplitPurchaseCostsMore | programs/amm/src/lmsr.rs:295-320 | two purchases never cost less than one of their sum, for every b |
| TradeLaws.SplitBudgetBuysLess | programs/amm/src/lmsr.rs:350-359 | a budget spent in two parts never buys more than spent at once |
| TradeLaws.SplitSalePaysLess | programs/amm/src/lmsr.rs:323-348 | two sales never pay more than one of their sum |
| TradeLaws.BuyGivesTheMost | programs/amm/src/instructions/buy.rs:83-171 | the payment less the very fee due at the market's reference volatility affords the tokens given and not one more; the fee record is armed at the new price |
| TradeLaws.SellPaysTheNet | programs/amm/src/instructions/sell.rs:83-182 | the seller gets the refund less the very fee due at the market's reference volatility, rounded down, and at least the minimum asked |
| TradeLaws.RedeemUndoesMint | programs/amm/src/instructions/redeem_set.rs:93-119 | redeeming a set just minted succeeds and restores every account |
| TradeLaws.MintUndoesRedeemExactlyWhen | programs/amm/src/instructions/mint_set.rs:89-110 | minting a set just redeemed restores every account exactly when the recorded collateral covered the set |
| SpotGuarantees.InitIsBacked | programs/amm/src/instructions/init_market.rs:109-117 | the seed bound starts the potential at minus the smallest seed or better |
| SpotGuarantees.SmoothHidesNothing | programs/amm/src/lmsr.rs:345-346 | with b up to 2^52 a sell hides nothing |
| SpotGuarantees.RunKeepsSound | programs/amm/src/instructions/init_market.rs:13-24 | a market that starts sound stays sound over every run |
| SpotGuarantees.TailCheckIsInert | programs/amm/src/instructions/sell.rs:166-169 | the tail solvency check never rejects a reachable trade |
| SpotGuarantees.SolventOverEveryRun | programs/amm/src/instructions/init_market.rs:13-24 | the header's claim, from every accepted opening over every run, with the hidden amounts explicit |
| SpotGuarantees.SellSucceeds | programs/amm/src/instructions/sell.rs:58-169 | in a sound trading market whose fee parameters fit, a holder can sell |
| SpotExits.NeverInsolvent | programs/amm/src/instructions/sell.rs:166-169 | from every accepted opening with b up to 2^52, after every run, no transaction is refused as insolvent |
| SpotExits.HoldersCanSell | programs/amm/src/instructions/sell.rs:58-169 | from every such opening, after every run, a holder can sell when the fee parameters fit |
| SpotGuards.ActivatesExactlyWhen | programs/amm/src/instructions/activate_market.rs:30-43 | exactly from Open at kickoff or later, arming the fee clock and changing nothing else |
| SpotGuards.FreezesExactlyWhen | programs/amm/src/instructions/freeze_market.rs:30-41 | exactly from Trading at the freeze time or later |
| SpotGuards.ResolvesExactlyWhen | programs/amm/src/instructions/resolve.rs:87-200 | exactly from Locked on an admissible proof with the hint for its goals' difference, writing that outcome and nothing else |
| SpotGuards.ClosesExactlyWhen | programs/amm/src/instructions/close_market.rs:64-102 | exactly from Resolved once the grace period is over, the vault going to the admin |
| SpotGuards.MintsExactlyWhen | programs/amm/src/instructions/mint_set.rs:80-145 | exactly while trading, for money held, within the quantity range |
| SpotGuards.SetsRedeemExactlyWhen | programs/amm/src/instructions/redeem_set.rs:75-150 | exactly while trading, for sets held |
| SpotGuards.RedeemsExactlyWhen | programs/amm/src/instructions/redeem.rs:57-121 | exactly after resolution, once per holder |
| SpotGuards.BuysExactlyWhen | programs/amm/src/instructions/buy.rs:66-171 | exactly when the holder has the money and what is left of it after the fee affords the minimum asked within the range |
| SpotGuards.SellsExactlyWhen | programs/amm/src/instructions/sell.rs:58-182 | exactly when the holder has the tokens and the refund less the fee reaches the minimum asked |
| SpotSwings.ExitsAreOpenExactlyWhen | programs/amm/src/fee.rs:62-107 | over all openings and runs every holder's sale goes through if and only if the fee parameters fit |
| SpotSwings.SomeSaleOverflows | programs/amm/src/instructions/sell.rs:80-182 | under parameters that do not fit: an opening, a run and a holder's sale refused with an overflow |
| SpotGuarantees.RedeemSucceeds | programs/amm/src/instructions/redeem.rs:57-121 | after resolution a holder can always redeem |
| SpotGuarantees.RedeemInAnyOrder | programs/amm/src/instructions/redeem.rs:57-121 | any holders redeem in any order, each paid exactly the winning tokens, others untouched |
| SpotGuarantees.CloseSucceeds | programs/amm/src/instructions/close_market.rs:64-102 | closing after the grace period succeeds and sweeps the whole vault |
| SpotGuarantees.LossIsBounded | programs/amm/src/lmsr.rs:67-74 | for every b, a resolved market's vault holds the winners' claims and the seed, less the opening cost above the smallest seed and what sells hid |
| SpotGuarantees.ZeroSeedsCostLn3 | programs/amm/src/lmsr.rs:70-74 | from zero seeds the opening cost is b times the computed ln 3, rounded up |
| SpotLoss.ClosingLossIsBounded | programs/amm/src/instructions/close_market.rs:85-102 | from every accepted opening over every run, what closing sweeps leaves the admin within the subsidy and the hidden total of where the opening found it |
| SpotLoss.EveryoneIsPaid | programs/amm/src/instructions/redeem.rs:57-121 | open, run, resolve, redeem in any order, close: every exit goes through, each holder gets exactly the winning tokens, the loss is bounded |
| SpotGuarantees.NoFreeTour | programs/amm/src/lmsr.rs:62-65 | trades and sets that return the curve to its start leave the traders no gain beyond what sells hid |
| SpotGuarantees.RunKeepsFeePeak | programs/amm/src/fee.rs:95-107 | over every run of the market the accumulator stays at or below its peak, so below its cap |
| Funding.DivFloor | programs/amm/src/funding.rs:93-103 | the corrected truncating division is the floor |
| Funding.MaxGain | programs/amm/src/funding.rs:134-149 | defined exactly for entry marks, and at most the units |
| Funding.MaxLeverageForP | programs/amm/src/funding.rs:282-291 | the cast is lossless and the cap never exceeds the configured maximum, or one |
| FundingAmounts.UnitsAre | programs/amm/src/funding.rs:112-132 | units are notional over entry price rounded down, exactly for entry marks and sizes that fit |
| FundingAmounts.GainIs | programs/amm/src/funding.rs:134-149 | the booked gain is units times the way up to one, rounded down |
| FundingAmounts.PnlIs | programs/amm/src/funding.rs:151-171 | profit is units times the price move, rounded down |
| FundingAmounts.FundingIs | programs/amm/src/funding.rs:173-189 | funding is notional times the index's advance over 10^12, rounded down |
| FundingAmounts.PayoutIs | programs/amm/src/funding.rs:253-267 | payout and funding together are collateral and profit where that is not negative and fits; nothing where it is negative |
| FundingAmounts.AdvanceIs | programs/amm/src/funding.rs:191-251 | an advance is rate times p(1 - p) times time over time left rounded up, then times the valve rounded up |
| FundingAmounts.LeverageCapIs | programs/amm/src/funding.rs:269-291 | a leverage is inside the taper exactly on or below the line from one at the edges to the maximum at 20 percent |
| FundingAmounts.SharesAre | programs/amm/src/funding.rs:316-337 | a deposit mints its part of the vault before it, rounded down; into an empty pool one share a unit |
| FundingAmounts.ValueIs | programs/amm/src/funding.rs:339-357 | shares are worth their part of the vault, rounded down |
| FundingLaws.PnlMonotone | programs/amm/src/funding.rs:151-171 | profit grows with the mark |
| FundingLaws.PnlAtEnds | programs/amm/src/funding.rs:134-136 | zero at the entry mark; at a win exactly the booked gain |
| FundingLaws.PnlRange | programs/amm/src/funding.rs:10-16 | no mark wins more than the booked gain or loses more than the notional |
| FundingLaws.PayoutIsBooked | programs/amm/src/funding.rs:253-267 | a settlement pays between zero and collateral plus booked gain |
| FundingLaws.SettlesExactlyWhen | programs/amm/src/funding.rs:151-171 | which wins and losses fit the 64-bit profit |
| PoolExamples.SomeOpeningsCannotSettle | programs/amm/src/instructions/open_leverage.rs:118-176 | a run from the creation of the pool opens a position that, once it has won, can be neither closed nor expired |
| FundingLaws.FundingMonotone | programs/amm/src/funding.rs:173-189 | funding grows with the index |
| FundingLaws.FundingAddsUp | programs/amm/src/funding.rs:178-189 | adjacent spans add up to the joined span within one unit |
| FundingLaws.TimeIsNeverFree | programs/amm/src/funding.rs:208-210 | a nonzero segment always advances the index |
| FundingLaws.ValveIsBounded | programs/amm/src/funding.rs:244-249 | the valve multiplies an advance by one to five |
| FundingLaws.NeutralDelta | programs/amm/src/funding.rs:213-251 | with the valve off an advance is the ceiling of the rate |
| FundingLaws.SplittingIsCheap | programs/amm/src/instructions/post_mark.rs:59-83 | the advances of n posts at one mark add up to at most one post's and n - 1 |
| FundingLaws.ValvedSumIsBounded | programs/amm/src/funding.rs:244-249 | the advances of n posts under any valves in bounds are one to five times the neutral ones |
| PoolFunding.AccruesAtPreviousMarks | programs/amm/src/instructions/post_mark.rs:1-10 | every accepted post advances each index over the elapsed time at the mark stored before it, then stores the new marks; the first only stores |
| PoolFunding.IndexGrowsByPosts | programs/amm/src/instructions/post_mark.rs:59-87 | over every run, whatever is posted or changed, an index grows by exactly the sum of its segments, each at the mark, rate and valve in force |
| PoolFunding.SteadyIndexGrows | programs/amm/src/instructions/post_mark.rs:59-87 | the same at a steady mark, with the times adding up |
| PoolFunding.MarksAreTheLastPosted | programs/amm/src/instructions/post_mark.rs:85-87 | over every run the marks in force are those of the last accepted post |
| PoolFunding.ValveAppliesAsSet | programs/amm/src/instructions/set_risk_valve.rs:50-65 | over every run a post is charged the multiplier last set while its window lasts, and nothing more after it |
| PoolFunding.FundingOverRuns | programs/amm/src/instructions/set_risk_valve.rs:50-65 | over any such run the growth is one to five times the neutral amount, and n posts exceed one by at most n - 1 |
| PoolFunding.ManyPostsOrOne | programs/amm/src/instructions/post_mark.rs:59-83 | n neutral posts leave the index at most n - 1 above where the program's one post would have left it |
| PoolFunding.FundingWithoutValve | programs/amm/src/instructions/post_mark.rs:59-83 | a run that leaves a neutral valve alone adds exactly the neutral amount, and at most n - 1 more than one post |
| FundingLaws.DepositKeepsPrice | programs/amm/src/funding.rs:316-337 | a deposit never lowers the value of a share |
| FundingLaws.WithdrawKeepsPrice | programs/amm/src/funding.rs:339-357 | a withdrawal pays at most the vault and never lowers the value of the shares left |
| FundingLaws.RoundTripExactlyWhen | programs/amm/src/funding.rs:341-342 | deposit then withdraw returns at most the deposit exactly when there were shares or an empty vault |
| FundingLaws.TaperIsMonotone | programs/amm/src/funding.rs:269-291 | the leverage cap grows from one to the maximum towards the middle, symmetrically |
| PoolProgram.LeverageAccounts.OpenLeverage | programs/amm/src/instructions/open_leverage.rs:72-188 | the handler in place equals its step, guard for guard |
| PoolProgram.LeverageAccounts.CloseLeverage | programs/amm/src/instructions/close_leverage.rs:155-215 | the handler in place equals its step |
| PoolProgram.LeverageAccounts.ExpirePosition | programs/amm/src/instructions/expire_position.rs:75-139 | the handler in place equals its step |
| PoolProgram.LeverageAccounts.Settle | programs/amm/src/instructions/close_leverage.rs:167-205 | flag, shrink the books, pay, close the account |
| PoolProgram.LeverageAccounts.PostMark | programs/amm/src/instructions/post_mark.rs:47-95 | accrual at the previous marks, then the new marks |
| PoolProgram.LeverageAccounts.Accrue | programs/amm/src/instructions/post_mark.rs:70-82 | the loop over the three indexes, with the first failure's error |
| PoolProgram.LeverageAccounts.SetRiskValve | programs/amm/src/instructions/set_risk_valve.rs:43-74 | bounded multiplier and windows |
| PoolProgram.LeverageAccounts.DepositLp | programs/amm/src/instructions/deposit_lp.rs:64-103 | the handler in place equals its step |
| PoolProgram.LeverageAccounts.RequestWithdraw | programs/amm/src/instructions/request_withdraw.rs:57-115 | the handler in place equals its step |
| PoolProgram.LeverageAccounts.WithdrawLp | programs/amm/src/instructions/withdraw_lp.rs:61-129 | the handler in place equals its step |
| PoolProgram.LeverageAccounts.UpdateLeverageParams | programs/amm/src/instructions/update_leverage_params.rs:60-88 | the parameters change only to validated ones |
| PoolProgram.LeverageAccounts.constructor | programs/amm/src/instructions/init_leverage_pool.rs:69-101 | an empty pool with a neutral valve |
| PoolProgram.LeverageAccounts.Process | programs/amm/src/instructions/open_leverage.rs:72-188 | a transaction has its step's effect, or none |
| PoolLaws.OpenWrites | programs/amm/src/instructions/open_leverage.rs:118-176 | what an accepted opening writes, and the guards it passed |
| PoolLaws.OpenEffect | programs/amm/src/instructions/open_leverage.rs:118-176 | books stay exact; backing falls by exactly the booked gain |
| PoolLaws.SettlementIsClaimed | programs/amm/src/instructions/close_leverage.rs:43-105 | every settlement, at any mark and outcome, pays at most collateral and booked gain |
| PoolLaws.ReleaseEffect | programs/amm/src/instructions/close_leverage.rs:167-181 | the saturating subtractions never saturate and backing never falls |
| PoolLaws.PostMarkEffect | programs/amm/src/instructions/post_mark.rs:59-87 | no funding index ever falls |
| PoolLaws.DepositEffect | programs/amm/src/instructions/deposit_lp.rs:64-94 | a deposit mints its part of the vault as it was before it; shares add up; the share price never falls |
| PoolLaws.RequestEffect | programs/amm/src/instructions/request_withdraw.rs:60-106 | the shares asked become pending for an hour; pending adds up; no money moves |
| PoolLaws.WithdrawEffect | programs/amm/src/instructions/withdraw_lp.rs:64-120 | a withdrawal burns the pending shares for their floored part of the vault; sums stay; the share price never falls |
| PoolLaws.WithdrawSucceeds | programs/amm/src/instructions/withdraw_lp.rs:64-120 | a pending withdrawal past its delay always goes through |
| PoolGuards.ClosePays | programs/amm/src/instructions/close_leverage.rs:43-205 | an accepted close pays collateral and profit at the settlement price less the funding accrued, out of the vault |
| PoolGuards.ExpiryPays | programs/amm/src/instructions/expire_position.rs:75-139 | an accepted expiry does the same, and only once funding has reached the collateral |
| PoolGuards.ExpiresExactlyWhen | programs/amm/src/instructions/expire_position.rs:86-90 | with nonnegative backing, exactly when the settlement can be computed and funding has reached the collateral |
| PoolGuards.OpensExactlyWhen | programs/amm/src/instructions/open_leverage.rs:84-142 | every guard of an opening: state, cutoff, fresh marks, pause, taper, open interest, coverage, funds |
| PoolGuards.PauseRefuses | programs/amm/src/instructions/open_leverage.rs:106 | over every run a pause refuses openings until it is over or the valve is set again |
| PoolGuards.ValveSetsExactlyWhen | programs/amm/src/instructions/set_risk_valve.rs:43-74 | exactly multipliers of one to five and times of ten minutes at most, and what is written |
| PoolGuards.DepositsExactlyWhen | programs/amm/src/instructions/deposit_lp.rs:64-94 | exactly for an account, money held, and one share at least |
| PoolGuards.RequestsExactlyWhen | programs/amm/src/instructions/request_withdraw.rs:57-106 | exactly for free shares, when what they leave covers every booked gain |
| PoolGuards.WithdrawsExactlyWhen | programs/amm/src/instructions/withdraw_lp.rs:61-98 | exactly when shares are pending and their hour has passed |
| PoolGuards.UpdatesExactlyWhen | programs/amm/src/instructions/update_leverage_params.rs:60-88 | exactly for parameters that are off or complete with full coverage |
| PoolRuns.StepKeepsBooks | programs/amm/src/state.rs:335-342 | every transaction keeps the totals as sums; only opens and withdrawals lower the backing |
| PoolRuns.RunKeepsBooks | programs/amm/src/state.rs:335-350 | the same over every run, with all USDT conserved and every index nondecreasing |
| PoolRuns.RunKeepsBacking | programs/amm/src/instructions/close_leverage.rs:183-186 | without openings and withdrawals the backing never falls |
| PoolRuns.InitIsBooked | programs/amm/src/instructions/init_leverage_pool.rs:76-94 | the empty pool satisfies the books with zero backing |
| PoolRuns.ClosesExactlyWhen | programs/amm/src/instructions/close_leverage.rs:155-205 | with nonnegative backing a position closes exactly when its settlement can be computed |
| PoolRuns.ResolvedSettlesExactlyWhen | programs/amm/src/instructions/close_leverage.rs:78-96 | after a real outcome a settlement can be computed exactly when the funding fits and the booked gain, or the lost notional, does |
| PoolRuns.CloseInAnyOrder | programs/amm/src/instructions/close_leverage.rs:183-205 | any settleable positions close in any order, each paid the settlement computed at the start |
| PoolRuns.FeeDeathIsPermanent | programs/amm/src/instructions/expire_position.rs:86-90 | funding that has reached the collateral stays there for the position's life, or no longer fits |
| PoolRuns.OversizedFundingIsForGood | programs/amm/src/instructions/close_leverage.rs:52-60 | a position whose funding does not fit stays as it is over every run, and can be neither closed nor expired |
| PoolExamples.SomeFundingNeverFits | programs/amm/src/instructions/post_mark.rs:59-87 | a run from the creation of the pool that leaves a position so, whatever follows |
| PoolRuns.RunKeepsSharePrice | programs/amm/src/funding.rs:49-50 | over any LP actions by anyone a share never loses value |
| PoolRuns.OpenKeepsBackingExactlyWhen | programs/amm/src/instructions/open_leverage.rs:134-142 | what the state before an opening must satisfy for all claims to stay payable after it |
| PoolExamples.CoverageIsNotBacking | programs/amm/src/funding.rs:293-314 | a run of accepted transactions from the creation of the pool after which the vault is short of the claims |
| PoolExamples.SecondCloseFails | programs/amm/src/instructions/close_leverage.rs:183-205 | after that run team 1 wins, and whichever position closes second is refused for want of funds |
| Keeper.LadderIsPermutation | apps/keeper/src/actions/resolve.ts:279-283 | the ladder is a permutation of the hints with the preferred one first |
| Keeper.Chain.Execute | programs/amm/src/instructions/resolve.rs:87-200 | the program's answer as the keeper sees it |
| Keeper.Chain.Submit | apps/keeper/src/actions/resolve.ts:286-318 | a submission moves the market only on an admissible proof |
| Keeper.Try | apps/keeper/src/actions/resolve.ts:188-191 | one rung's possible answers |
| Keeper.ResolveMarket | apps/keeper/src/actions/resolve.ts:135-277 | the outcome can only be the one the proofs mean, whatever the belief; passing failures and refused proofs cost attempts and refetches and then a good proof lands; a raising oracle stops a wrong belief |
| Keeper.CorrectScoreResolvesAtOnce | apps/keeper/src/actions/resolve.ts:59-78 | the hint for a score is the one a proof of that score resolves with |
| Keeper.TryLadder | apps/keeper/src/actions/resolve.ts:188-247 | one attempt at the three hints: how it can end, in calm and in gentle weather |
| Replay.EventKeepsConsistent | apps/indexer/src/ingest/persister.service.ts:256-333 | total volume stays the sum of trade rows and of volume points |
| Replay.EventsKeepConsistent | apps/indexer/src/ingest/persister.service.ts:174-194 | the same for any part of a transaction |
| Replay.RecordedIsNoOp | apps/indexer/src/ingest/persister.service.ts:267 | an event already recorded writes nothing |
| Replay.PrefixThenAll | apps/indexer/src/ingest/persister.service.ts:25-31 | replaying a transaction after any prefix of it gives what one pass gives |
| Indexer.FetchSignaturesSince | apps/indexer/src/ingest/backfill.service.ts:147-173 | the pages cover every signature newer than the cursor with no gap or repeat, while the chain grows |
| Indexer.Process.PersistCreated | apps/indexer/src/ingest/persister.service.ts:211-227 | the market row, once |
| Indexer.Process.PersistTrade | apps/indexer/src/ingest/persister.service.ts:256-333 | all of a trade's rows in one write, or none |
| Indexer.Process.PersistRedeem | apps/indexer/src/ingest/persister.service.ts:363-388 | the redemption row, once; refused for an unknown market |
| Indexer.Process.Persist | apps/indexer/src/ingest/persister.service.ts:174-194 | a prefix of the events is written, all of them if it ends |
| Indexer.Process.ReplayTransaction | apps/indexer/src/ingest/backfill.service.ts:176-196 | failed and unanswered transactions count as empty |
| Indexer.Process.Advance | apps/indexer/src/ingest/backfill.service.ts:131-142 | one turn of the tail, dying anywhere, keeps progress |
| Indexer.Process.TailOnce | apps/indexer/src/ingest/backfill.service.ts:124-144 | rows faithful and totals exact whatever happens; a finished clean run is one clean pass; unless it dies a run throws exactly when its walk holds an orphan redemption |
| Refusals.RefusedExactlyWhen | apps/indexer/src/ingest/persister.service.ts:363-388 | the database refuses a row exactly when the events hold a redemption without a row, of a market neither the tables nor an earlier event knows |
| Refusals.WalkRefusedExactlyWhen | apps/indexer/src/ingest/backfill.service.ts:124-144 | the same along a whole walk, unanswered queries included |
| Indexer.RefusedForGood | apps/indexer/src/ingest/backfill.service.ts:124-144 | no later history and no later answer frees a tail stopped that way |
| Indexer.LostCreationStops | apps/indexer/src/ingest/backfill.service.ts:176-196 | an orderly history and one unanswered query that stop the tail |
| Indexer.CleanPassIsComplete | apps/indexer/src/ingest/backfill.service.ts:38-49 | a clean pass has a row for every trade and redemption |
| Indexer.Interleave | apps/indexer/src/ingest/backfill.service.ts:107-113 | growth, losses and crashes in any interleaving: each event takes effect at most once; with every query answered exactly as in one clean pass |
| Sse.ParseSseFrame | apps/keeper/src/txline/sse.ts:18-30 | the last event and id, all data lines joined; null without data and event |
| Sse.SseFrameParser.Push | apps/keeper/src/txline/sse.ts:36-47 | the complete frames of buffer and chunk; the rest stays |
| Sse.SseFrameParser.Flush | apps/keeper/src/txline/sse.ts:50-56 | the trailing partial frame, and an empty buffer |
| Sse.ParseSseText | apps/keeper/src/txline/sse.ts:60-63 | a whole body at once |
| Sse.ReadOn | apps/keeper/src/txline/sse.ts:36-47 | reading on after a front part is reading the whole |
| SseCuts.ParseStream | apps/keeper/src/txline/sse.ts:33-57 | pushing pieces and flushing gives the frames of the joined pieces; of the whole text when it has no carriage return, or every cut is quiet; exactly when every cut is harmless if at most one is not |
| SseCuts.CutExactlyWhen | apps/keeper/src/txline/sse.ts:36-47 | whatever follows, a cut leaves the frames as they were if and only if it is harmless, by the text around it |
| SseCuts.CutsExactlyWhen | apps/keeper/src/txline/sse.ts:36-57 | for any number of pieces whose cuts include at most one harmful one: the frames are those of the whole if and only if none is |
| SseCuts.QuietCutsJoin | apps/keeper/src/txline/sse.ts:36-47 | any number of cuts outside line ends, or inside those of lines that are not empty or begin a frame, change nothing |
| SseCuts.CrIsSilent | apps/keeper/src/txline/sse.ts:21-27 | a carriage return left before the line feed of such a line changes no frame |
| SseFrames.FlushIsAFrame | apps/keeper/src/txline/sse.ts:50-56 | the flush delivers what the rest carries as a frame; its check for blanks is redundant |
| SseFields.LinesAre | apps/keeper/src/txline/sse.ts:22 | lines hold no line feed and joined by line feeds are the text |
| SseFields.JoinedLines | apps/keeper/src/txline/sse.ts:29 | cutting joined lines gives the lines back |
| SseFields.TrimIs | apps/keeper/src/txline/sse.ts:23-25 | a value is the text without the blanks at both ends, and neither begins nor ends in one |
| SseFields.FieldIs | apps/keeper/src/txline/sse.ts:23-25 | a line carries a field exactly when it begins with its name, and the value is the trimmed rest |
| SseFields.DataIsOneValuePerLine | apps/keeper/src/txline/sse.ts:29 | the lines of a frame's data are its data values in order |
| SseCuts.NormalizeSplitsExactlyWhen | apps/keeper/src/txline/sse.ts:37 | normalizing in parts is normalizing the whole exactly when the cut splits no line end |
| SseCuts.LfTextCutsQuietly | apps/keeper/src/txline/sse.ts:36-57 | text without carriage returns may be cut anywhere into any pieces: the frames are those of the whole |
| SseCuts.SplitLineEndMergesFrames | apps/keeper/src/txline/sse.ts:37-40 | a text whose frames change when a line end is cut |

## Left out

- CostMonotone.CostIsMonotone: proved for b up to 2^52; between 2^52 and 636094623231363895, little above 2^59, it is open where it starts to fail. At a leader's step the proved slope of exp (1.2 where the true one is 1) and the proved noise (769 units of 2^-64) use up the whole unit at b = 2^52; CostDip shows where it fails. TradeLaws, SpotGuarantees.Sound and the lemmas about it inherit this bound.
- SpotGuarantees.TailCheckIsInert: for b above 2^52 only the bound with the hidden amounts is proved (SpotGuarantees.SolventOverEveryRun).
- Keeper.ResolveMarket: waiting between attempts is not modelled; other keepers and lost messages are a script.
- Indexer.Interleave: with unanswered queries the rows of those transactions, and of trades on markets whose creation was among them, are missing; which ones is not stated beyond Indexer.Process.TailOnce.
- SseCuts.ParseStream: with two harmful cuts or more no exact condition is stated; a harmful cut can be undone by a later one (a frame's id overwritten, then restored), so none on each cut by itself is exact.
- Account validation, program-derived addresses, signers and the token program: a transfer is a move of balances that fails when short or overflowing; gates on who signs are assumed passed.
- The oracle's Merkle verification: a function from the proven numbers to its answer, or an error of its own.
- Direct token transfers into either vault: the books would lag the vault in the pool's favour.
- `Outcome::Void`: no instruction sets it; its redemption and settlement branches are kept.
- Opening a second market on the same fixture after closing the first.
- `init_market`'s place in a class: it is a function that builds the first state, since it writes a new account.
- Arithmetic that would trap in `post_mark` when two clock readings are 2^63 seconds apart is modelled as a failing transaction, as the build has overflow checks on.
- Complete-set volume points, price points, lifecycle rows, account refresh and enrichment in the indexer.
- The concurrent-run guard `inFlight` of the indexer and the interval timer: one run at a time is assumed.
- Web client, odds and mark sources, transaction sending, scheduling and logging.
