# Verified models of the trade SDK's offline quotes and protocols

The SDK quotes trades offline, in pure integer arithmetic, for several Solana exchanges, keeps a
blockhash warm in the background, serialises its subscriptions, and validates multi-hop routes.
This project models those parts in Dafny and proves what they promise. `dafny verify dfyconfig.toml`
checks everything.

**Concentrated liquidity** (`Ladder`, `TickMap`, `ClmmTable`, `ClmmPrice`, `WhirlpoolTable`,
`WhirlpoolPrice`, `ClmmStep`, `ClmmOrder`, `Traversal`, `ClmmSwap`, `ClmmSafety`, `ClmmProgress`,
`ClmmEngine`, `WhirlpoolSwap`, `WhirlpoolSafety`, `WhirlpoolEngine`, `StepMonotone`, `ClmmMonotone`,
`WhirlpoolMonotone`, `Payout`, `ClmmPayout`, `WhirlpoolPayout`, `ClmmFills`, `Groups`, `ClmmGroups`,
`WhirlpoolGroups`, `ClmmFailures`, `WhirlpoolFailures`, `ClmmBudget`, `WhirlpoolBudget`). A
square-root price is a product of table factors picked by the bits of a tick, truncated after each
multiplication. Both price maps are proved strictly increasing over all 887273 ticks: the product of
the low factors exceeds the next factor by a gap, and the gap survives every later truncation. The
binary searches are then exact floor inverses. A swap step is proved to stay between its two prices,
to fit its input and to pay no more than its prices allow. The traversal loops are methods over
mutable state (for CLMM with the orders updated in place in an array), each equal to a specification
function `Run`, and the safety, progress and monotonicity theorems are proved about `Run` over all
states and all runs. What a run pays and takes is told by its ledger, one entry for each stretch at
constant liquidity: the amounts are those of the stretches, computed from their two end prices
alone, with the least fees that carry the rates. For a pool with one range this is the closed
formula on the fields of the request and the result. Limit orders are proved to be filled exactly as
far as the price goes. With dynamic fees the ledger also says which volatility group each stretch is
charged for, and every failure is traced to a cause in the state where the run stopped. In every fee
mode the iterations suffice when the ticks or the volatility groups ahead are fewer.

**DLMM** (`DlmmBin`, `Dlmm`, `DlmmEngine`, `DlmmPayout`). The reference is a walk that visits every
bin id one by one. The optimised walk bisects sorted live ids and stops at array boundaries; it is
proved to give the same answer, error included, on every input. The reference is monotone in its
input and conserves. A bin gives the most that the input covers at the bin's own price, for the
least input when it is emptied, and a quote is the sum of such trades.

**Curves with inverses** (`TransferFees`, `LaunchLab`, `PumpV3`, `PumpSwap`, `ReserveQuotes`).
Transfer fees, fee estimates and constant-product quotes are tied to their inverses by
if-and-only-if lemmas, and the exact-in and exact-out quotes to one another. Each amount is pinned
from both sides as the greatest or the least that an inequality on the state fields allows, and each
LaunchLab and Pump quote is shown to be given exactly when the checks of the source pass.

**Protocols** (`HotPath`, `Subscriptions`). The source runs on one thread, so each stretch between
two awaits is atomic. A state holds the object's fields and everything still pending (fetches,
starts, timers, queued actions, transports), an event resumes one pending piece, and the invariants
hold after every sequence of events. Classes with the source's fields have one method per stretch,
each proved to move the object exactly as its step does. Beside safety, a subscribe is proved to end
with exactly one new active handle, and a start and a timer tick with fresh data in the cache.

**Routes** (`Routes`, `QuoteCreation`, `RouteSelection`). Public keys are opaque values and derived
addresses are uninterpreted functions of their seeds. The validation loops are proved to accept
exactly what a declarative predicate describes.

## What the proofs found

- A CLMM quote with a static input fee can fail for want of iterations: the budget of 8192 suffices
  for pools of `n` ticks exactly when `n < 8192`, up to the 887273 ticks that exist (`ClmmEngine.BudgetIff`).
- A CLMM quote that runs on to the outermost price without a tick there reports the old tick with
  the new price; a reported tick is reliable exactly for limits short of the outermost price
  (`ClmmEngine.ReportsFitIff`).
- A CLMM quote with fees on the output never spends a rest that is too small to move the price, and
  then it fails (`ClmmMonotone.StuckFails`, `ClmmMonotone.DustFails`). One unit into a pool with
  liquidity 2^65 is such a quote (`ClmmMonotone.DustRequestFails`). On consistent pools the quotes
  that succeed are monotone in every fee mode.
- An adaptive Whirlpool quote charges every stretch the fee of the volatility groups that the stretch
  enters exactly when the group size divides the tick spacing, which the quote never checks: for every
  other pair of sizes there is a quote that charges a stretch for the wrong group
  (`WhirlpoolGroups.GroupSizeIff`, `WhirlpoolGroups.DriftFails`).
- A CLMM quote with dynamic fees keeps charging a saturated fee on its way through groups whose own fee
  is lower; apart from that it charges each stretch for the groups it enters (`ClmmGroups.QuoteGroups`).
- A LaunchLab buy that lands exactly on the cap is charged its whole offer, while a larger offer that
  overshoots the cap is charged less for the same tokens (`LaunchLab.CapCharge`, `LaunchLab.CapOvercharge`).
- PumpSwap's `buyQuoteInput` is not monotone: a payment gets less onto the pool than a smaller one
  exactly when its correction overshoots, a test on the payment and the fee rates
  (`PumpSwap.BuyMonotoneIff`). With three fees of one basis point, paying 10005 buys less than paying
  10004 (`PumpSwap.BuyNotMonotone`). Pump v3 has two fees and is monotone.
- Selling what `sellQuoteInput` asks for yields the quote less at most one for each charged fee after
  the first, and `PumpSwap.SellInverse` says exactly when it fails. A quote of 2 can sell for nothing
  (`PumpSwap.SellBackTight`), a quote of 1 can be impossible to sell (`PumpSwap.SellBackFails`), and
  with an offset the vault can be unable to pay (`PumpSwap.SellBackUnpaid`).
- The cycle check of `selectPumpRoute` compares mints as given, so a route may leave SOL and return
  to it under another name. A selected route does so exactly when its currency end is an alias of SOL
  and some hop has wrapped SOL as its base (`RouteSelection.CycleFreeIff`, `RouteSelection.AliasCycle`).

## Model

| member | source | states |
|---|---|---|
| `Ladder.Superadditive` | src/calc/clmm.ts:41-43 | a chain of truncated multiplications of a sum is at least the sum of the chains: truncation never loses a gap |
| `Ladder.GapSurvives` | src/calc/clmm.ts:41-43 | a difference listed in the gap table survives every later truncated multiplication, whatever bits follow |
| `Ladder.FallingStep` | src/calc/clmm.ts:41-44 | adding one to the exponent, with any run of carries, lowers a product of factors below one |
| `Ladder.RisingStep` | src/calc/whirlpool.ts:69-72 | adding one to the exponent, with any run of carries, raises a product of factors above one |
| `Ladder.Accumulate` | src/calc/clmm.ts:41-43 | the loop over table entries and bits computes the recursive bit product |
| `ClmmPrice.PriceRises` | src/calc/clmm.ts:38-45 | the price of the next tick is strictly higher for every tick below the maximum, on both sides of zero and across it |
| `ClmmPrice.PriceMapValid` | src/calc/clmm.ts:2-5 | strictly increasing over the whole range, and the declared price limits are exactly the prices of the two outermost ticks |
| `ClmmPrice.SqrtPriceAtTick` | src/calc/clmm.ts:38-45 | the loop gives the bit-product price, and refuses exactly the ticks out of range |
| `ClmmPrice.Tick` | src/calc/clmm.ts:46-58 | every price accepted has a tick with price(t) <= p < price(t+1) |
| `ClmmPrice.TickAtSqrtPrice` | src/calc/clmm.ts:46-58 | the binary search returns that tick, and refuses exactly the prices out of range |
| `ClmmPrice.TickOfTickPrice` | src/calc/clmm.ts:38-58 | the tick of a tick's price is the tick, below the maximum tick |
| `TickMap.Bisect` | src/calc/clmm.ts:50-57 | bisection over the tick range equals the downward linear scan for any increasing map |
| `TickMap.TickAtUnique` | src/calc/clmm.ts:50-57 | the tick at a price is the only one whose price and successor's price enclose it |
| `TickMap.TickBetween` | src/calc/clmm.ts:348-348 | a tick recomputed from a price between the standing and the next price lies between their ticks |
| `WhirlpoolPrice.PriceRises` | src/calc/whirlpool.ts:63-73 | strictly increasing prices from two separate tables, across zero and after the final shift by 32 |
| `WhirlpoolPrice.PriceMapValid` | src/calc/whirlpool.ts:63-73 | strictly increasing over the whole range with the declared limits at its two ends |
| `WhirlpoolPrice.SqrtPriceAtTick` | src/calc/whirlpool.ts:63-73 | the loop gives the bit-product price, and refuses exactly the ticks out of range |
| `WhirlpoolPrice.TickAtSqrtPrice` | src/calc/whirlpool.ts:74-86 | the binary search is the floor inverse, and refuses exactly the prices out of range |
| `WhirlpoolPrice.TickOfTickPrice` | src/calc/whirlpool.ts:63-86 | the tick of a tick's price is the tick, over the whole range |
| `ClmmStep.StepEnvelope` | src/calc/clmm.ts:73-118 | on valid input the only error is an output above 64 bits, the zero-liquidity error cannot occur, the price stays between current and target, input plus fee fit what remains, and a step stops short exactly when the net input does not cover it and then takes everything |
| `ClmmStep.StopEnvelope` | src/calc/clmm.ts:98-104 | the rounded next price never passes the target and never needs more than the net input |
| `ClmmStep.StepFair` | src/calc/clmm.ts:105-107 | amountOut times 2^128 is at most amountIn times both end prices going down, and the mirror going up |
| `ClmmStep.StepFeeFloor` | src/calc/clmm.ts:108-111 | a step charges at least its rate on everything it takes |
| `ClmmStep.GrossFits` | src/calc/clmm.ts:96-111 | the net input is the greatest amount that fits what remains together with its ceiled fee |
| `ClmmStep.NetIff` | src/calc/clmm.ts:96-96 | the net input is the greatest amount within the input less its rate |
| `ClmmStep.StopFurthest` | src/calc/clmm.ts:97-104 | the next price is the furthest one, up to the target, whose rounded cost the net input pays for |
| `ClmmStep.StepFeeLeast` | src/calc/clmm.ts:108-111 | a step that reaches its target charges the least fee that carries the rate on everything it takes |
| `ClmmOrder.FillEnvelope` | src/calc/clmm.ts:311-338 | a limit-order fill never overdraws, so its unsigned checks never fire; it fills at most the order, at no better than the order price, and leaves part of an order only when the input is used up exactly |
| `ClmmOrder.WholeOrderCost` | src/calc/clmm.ts:323-326 | taking a whole order costs no more than the input that would have matched beyond it |
| `ClmmOrder.OrderPriceIff` | src/calc/clmm.ts:312-314 | the price at which an order fills is the square of the root price in Q64, rounded down going down and up going up |
| `ClmmOrder.ReserveIff` | src/calc/clmm.ts:316-316 | what is set aside for the fee before matching is the least that carries the rate, or nothing when fees are taken from the output |
| `ClmmOrder.FillExact` | src/calc/clmm.ts:316-331 | a fill is the most of the order that the input less its fee covers at the order price; short of more than the order it takes everything, and otherwise the least cost of the whole order with the least fee on it |
| `ClmmSwap.Nearest` | src/calc/clmm.ts:242-252 | the scan finds a live tick ahead than which no live tick is nearer, or none when none is ahead |
| `ClmmSwap.FeeRises` | src/calc/clmm.ts:264-276 | the dynamic fee never falls with distance from the reference group and lies between the pool's rate, below the cap, and the cap |
| `ClmmSwap.FeeIff` | src/calc/clmm.ts:264-276 | the dynamic fee is the least one that covers the pool rate and the squared volatility of the group at the control factor over 10^13, capped at a tenth |
| `ClmmSwap.OutputFeeIff` | src/calc/clmm.ts:301-305 | a fee on the output is the least that carries the rate on it, and nothing when fees are taken from the input |
| `ClmmSafety.IterateSafe` | src/calc/clmm.ts:240-357 | one iteration, in any fee mode, keeps the tick/price bracket, direction, limit, widths, order bounds and the liquidity sum |
| `ClmmSafety.BreakSafe` | src/calc/clmm.ts:308-309 | leaving the loop at an outermost price without a tick leaves the price at the limit and the tick untouched |
| `ClmmSafety.RunSafe` | src/calc/clmm.ts:240-361 | every successful run, in every fee mode: direction, limit, no overdraw, final liquidity equal to the start plus the signed sum over exactly the crossed ticks |
| `ClmmSafety.RunDirected` | src/calc/clmm.ts:240-361 | every successful run from any pool, consistent or not: direction, limit, orders and output never taken back |
| `ClmmProgress.OrdersProgress` | src/calc/clmm.ts:311-347 | in every fee mode the order checks never fire and an order tick is left unfilled only when the remaining input is exactly zero |
| `ClmmProgress.RunFillsOrders` | src/calc/clmm.ts:308-338 | no run from a legal state, in any fee mode, fails on an order |
| `ClmmProgress.IterateProgress` | src/calc/clmm.ts:240-357 | with a static input fee an iteration ends the run or leaves one tick fewer ahead, so no tick is visited twice and no step is invalid |
| `ClmmProgress.RunCompletes` | src/calc/clmm.ts:240-361 | with a budget above the ticks ahead the only failures are outputs or liquidity leaving their widths |
| `ClmmProgress.BudgetIrrelevant` | src/calc/clmm.ts:240-240 | beyond that budget the size of the budget does not change the result |
| `ClmmProgress.BudgetExceeded` | src/calc/clmm.ts:240-240 | as many free ticks ahead as iterations exhaust the budget |
| `ClmmEngine.FindNearest` | src/calc/clmm.ts:242-252 | the loop over all ticks equals the specified nearest tick |
| `ClmmEngine.Arrive` | src/calc/clmm.ts:308-347 | the in-place order update, the crossing and the new tick equal the specified fill and crossing, errors included |
| `ClmmSwap.GroupAhead` | src/calc/clmm.ts:349-356 | the next volatility group is the adjacent one in the swap direction, or after skipped groups the first that lies wholly beyond the boundary tick |
| `ClmmEngine.Traverse` | src/calc/clmm.ts:228-360 | the loop over mutable state and the order array equals the specified run, whose amounts `ClmmPayout.RunPays` states |
| `ClmmEngine.SwapExactIn` | src/calc/clmm.ts:140-361 | validation and traversal together equal the specified quote, whose amounts `ClmmPayout.QuotePays` states |
| `ClmmEngine.ReferenceIff` | src/calc/clmm.ts:181-211 | the reference group and volatility: as stored within the filter period, and after it the standing group with the floored reduction of the volatility, or none past the decay period |
| `Payout.StepLeg` | src/calc/clmm.ts:95-117 | a step takes exactly the ceiled cost and gives exactly the floored worth of its stretch, and the fee is the least that carries the rate unless everything is spent |
| `ClmmPayout.LedgerPays` | src/calc/clmm.ts:228-361 | where any run stops, successful or not and in every fee mode, it has paid the floored worth of every stretch at constant liquidity and what the orders lost, less the ceiled fees on the output, and taken what its entries spend; the stretches lead without a gap from the first price to the last |
| `ClmmPayout.RunPays` | src/calc/clmm.ts:228-361 | the same for the final state of a successful run from any legal state |
| `ClmmPayout.LedgerPlaces` | src/calc/clmm.ts:240-357 | on a consistent pool every stretch is made at the liquidity of the start plus the signed sum over exactly the ticks crossed before it |
| `ClmmPayout.QuotePays` | src/calc/clmm.ts:140-361 | the amounts of every successful quote: amountOut is the worths of its stretches between the pool price and the reported one plus what the orders lost, less the ceiled output fees, and consumed is what the entries spend |
| `ClmmPayout.QuotePlaces` | src/calc/clmm.ts:140-361 | the liquidity and place of every stretch of a quote on a consistent pool follow from the pool and its ticks |
| `ClmmPayout.OneRange` | src/calc/clmm.ts:228-361 | the whole quote of a pool without ticks at a static fee: the literal worth between the pool price and the reported price, less its ceiled fee if taken from the output, for the literal cost with its least fee if taken from the input, and the whole input short of the limit |
| `ClmmPayout.OneRangeFurthest` | src/calc/clmm.ts:228-361 | that reported price is the furthest one, up to the limit, whose cost the input net of the fee pays for |
| `ClmmFills.RunFills` | src/calc/clmm.ts:242-347 | every successful run on a consistent pool clears the orders it passes, touches none that was not ahead or is not reached, and leaves one in part only with its last input |
| `ClmmFills.QuoteFills` | src/calc/clmm.ts:140-361 | the same for every successful quote, on the orders of the request and the reported price |
| `ClmmGroups.GroupAfter` | src/calc/clmm.ts:264-289 | after an iteration the price stands in the volatility group that is charged next, unless the run is over or stuck |
| `ClmmGroups.LedgerGroups` | src/calc/clmm.ts:264-356 | every stretch of a run with dynamic fees is charged the fee of a group that it never leaves, unless it has no liquidity or the fee is saturated |
| `ClmmGroups.QuoteGroups` | src/calc/clmm.ts:264-356 | a stretch of a quote with dynamic fees on a consistent pool pays at least the fee of every group it enters, and enters a group other than its own only when its volatility is saturated |
| `ClmmFailures.QuoteFails` | src/calc/clmm.ts:140-361 | every quote that passes validation and fails has a cause where it stops: no budget, an output or order that does not fit 64 bits, liquidity that does not fit 128 bits, or a bound behind the price |
| `ClmmBudget.GroupPasses` | src/calc/clmm.ts:264-356 | every iteration with dynamic fees leaves a volatility group behind for good and keeps the far end of the next one ahead, unless the run is over or stuck |
| `ClmmBudget.StuckIsFatal` | src/calc/clmm.ts:240-359 | a run that comes to a rest too small to move the price, short of the next tick and the limit, fails; with fees on the input it never comes to one |
| `ClmmBudget.StaticCompletes` | src/calc/clmm.ts:228-361 | with a static fee on either side and fewer ticks than iterations a quote fails only on a width or by getting stuck |
| `ClmmBudget.DynamicCompletes` | src/calc/clmm.ts:228-361 | with dynamic fees on either side and fewer groups than iterations up to the limit a quote fails only on a width or by getting stuck |
| `ClmmEngine.QuoteDirected` | src/calc/clmm.ts:140-361 | every successful quote on any pool in every fee mode: price direction and limit, and the whole input consumed unless at the limit |
| `ClmmEngine.QuoteSafe` | src/calc/clmm.ts:140-361 | every successful quote on a consistent pool: price direction and limit, whole input consumed unless at the limit, liquidity accounted for by exactly the ticks crossed |
| `ClmmEngine.QuoteFillsOrders` | src/calc/clmm.ts:308-338 | no quote, in any fee mode, fails on a limit order |
| `ClmmEngine.QuoteCompletes` | src/calc/clmm.ts:228-361 | with a static input fee and fewer ticks than iterations a quote fails only on a width |
| `ClmmEngine.BudgetIff` | src/calc/clmm.ts:240-359 | the budget suffices for all consistent static input-fee pools of n ticks if and only if n is below 8192 or above the 887273 ticks that exist |
| `ClmmEngine.ReportsFitIff` | src/calc/clmm.ts:308-309 | the reported tick always fits the reported price if and only if the limit is not the outermost price |
| `ClmmEngine.StaleTick` | src/calc/clmm.ts:308-309 | the exact quote of an empty pool to the outermost price, whose tick does not fit its price |
| `StepMonotone.StepPair` | src/calc/clmm.ts:73-118 | of two inputs to one step, when the smaller reaches the target both pay and get the same, and otherwise it is used up and the larger gets at least as much |
| `StepMonotone.ShortIsPinned` | src/calc/clmm.ts:95-107 | a step without fee that stops short leaves a rest that cannot pay for the smallest price movement |
| `StepMonotone.PinnedStays` | src/calc/clmm.ts:95-117 | from such a price a step without fee goes nowhere and exchanges nothing, whatever other price it aims at |
| `ClmmMonotone.FillPair` | src/calc/clmm.ts:311-338 | of two inputs to one order, in any fee mode, both take it whole for the same cost, or the smaller is used up and the larger gets at least as much |
| `ClmmMonotone.StuckFails` | src/calc/clmm.ts:240-359 | with fees on the output, a run left with a rest too small to move the price, short of the next tick and of the limit, never succeeds, whatever its budget |
| `ClmmMonotone.RunMonotone` | src/calc/clmm.ts:240-361 | over whole runs the larger input gets at least as much, with fees on the input from any state, and with fees on the output from any consistent one |
| `ClmmMonotone.QuoteMonotone` | src/calc/clmm.ts:140-361 | two successful quotes never give the larger input less, with fees on the input on any pool, and with fees on the output on any consistent one |
| `ClmmMonotone.DustFails` | src/calc/clmm.ts:240-359 | a quote with fees on the output whose first price movement stops short and leaves a rest fails |
| `ClmmMonotone.DustRequestFails` | src/calc/clmm.ts:240-359 | a concrete consistent pool with liquidity for which the quote of one unit fails |
| `WhirlpoolSwap.Nearest` | src/calc/whirlpool.ts:266-273 | the linear scan finds the nearest tick ahead, or none |
| `WhirlpoolSwap.FeeRises` | src/calc/whirlpool.ts:283-298 | the adaptive fee never falls with distance from the reference group and lies between the pool's rate and a tenth |
| `WhirlpoolSwap.FeeIff` | src/calc/whirlpool.ts:283-298 | the adaptive fee is the least one that covers the pool rate and the squared volatility of the group at the control factor over 10^13, capped at a tenth |
| `WhirlpoolSwap.GroupAhead` | src/calc/whirlpool.ts:336-349 | the next volatility group is the adjacent one in the swap direction, or after skipped groups the first that lies wholly beyond the price reached, unless the counter is further along |
| `WhirlpoolSafety.IterateSafe` | src/calc/whirlpool.ts:252-350 | one iteration, adaptive or not, keeps direction, limit and the fee accounting |
| `WhirlpoolSafety.IterateLoaded` | src/calc/whirlpool.ts:264-335 | one iteration on any legal state ends with price and tick inside the loaded arrays |
| `WhirlpoolSafety.RunSafe` | src/calc/whirlpool.ts:252-352 | every successful run, adaptive or not, on any pool: price moves in the swap direction, never past the limit, fees cover the least rate charged on everything consumed, and a run that moved ends inside the loaded arrays |
| `WhirlpoolSafety.RunPosition` | src/calc/whirlpool.ts:252-352 | on a consistent pool every successful run stays consistent, with liquidity accounted for by exactly the ticks crossed |
| `WhirlpoolSafety.RunCompletes` | src/calc/whirlpool.ts:252-352 | with a static fee and two iterations more than ticks ahead, no invalid step, price or tick and no exhausted budget |
| `WhirlpoolEngine.FindNext` | src/calc/whirlpool.ts:266-273 | the bisection over sorted ticks equals the linear scan for the nearest tick |
| `WhirlpoolEngine.Traverse` | src/calc/whirlpool.ts:243-352 | the loop with its remembered price equals the specified run, whose amounts `WhirlpoolPayout.RunPays` states |
| `WhirlpoolEngine.SwapExactIn` | src/calc/whirlpool.ts:110-352 | validation and traversal together equal the specified quote, whose amounts `WhirlpoolPayout.QuotePays` states |
| `WhirlpoolEngine.ReferenceIff` | src/calc/whirlpool.ts:214-234 | the reference group and volatility: reset when expired, the standing group with the floored reduction of the volatility after the filter period, and as stored within it |
| `WhirlpoolGroups.OuterGroupsIff` | src/calc/whirlpool.ts:237-241 | the outermost groups are the nearest ones with saturated volatility on either side of the reference, kept exactly when their far ends lie inside the tick range |
| `WhirlpoolPayout.LedgerPays` | src/calc/whirlpool.ts:252-352 | where any run stops, adaptive or not, it has paid the floored worth of every stretch at constant liquidity, taken what its stretches spend, and reports as fees all that exceeds their ceiled costs; the reported rates are the least and the greatest of the stretches |
| `WhirlpoolPayout.RunPays` | src/calc/whirlpool.ts:252-352 | the same for the final state of a successful run from any legal state |
| `WhirlpoolPayout.LedgerPlaces` | src/calc/whirlpool.ts:264-335 | on a consistent pool every stretch is made at the liquidity of the start plus the signed sum over exactly the ticks crossed before it |
| `WhirlpoolPayout.QuotePays` | src/calc/whirlpool.ts:110-352 | the amounts, the fee and the two rates of every successful quote, from its stretches between the pool price and the reported one |
| `WhirlpoolPayout.QuotePlaces` | src/calc/whirlpool.ts:264-335 | the liquidity and place of every stretch of a quote on a consistent pool follow from the pool and its ticks |
| `WhirlpoolPayout.OneRange` | src/calc/whirlpool.ts:243-352 | the whole quote of a pool without initialised ticks and without an adaptive fee: the literal worth between the pool price and the reported price for the literal cost and the fee, which is the least that carries the rate at the limit and all that is left short of it |
| `WhirlpoolPayout.OneRangeFurthest` | src/calc/whirlpool.ts:243-352 | that reported price is the furthest one, up to the limit and inside the loaded arrays, whose cost the input net of the fee pays for |
| `WhirlpoolGroups.GroupAfter` | src/calc/whirlpool.ts:283-350 | after an iteration the price stands in the volatility group that is charged next, unless the run is over, when every tick lies on a group boundary |
| `WhirlpoolGroups.QuoteGroups` | src/calc/whirlpool.ts:283-350 | when the group size divides the tick spacing every stretch of an adaptive quote on a consistent pool is charged the fee of every group that it enters |
| `WhirlpoolGroups.GroupSizeIff` | src/calc/whirlpool.ts:187-350 | for every tick spacing and group size, all adaptive quotes on consistent pools charge the groups they enter if and only if the group size divides the spacing, which the quote does not check |
| `WhirlpoolGroups.DriftFails` | src/calc/whirlpool.ts:283-350 | for every other pair of sizes, a concrete quote whose second stretch is charged the fee of another group |
| `WhirlpoolFailures.QuoteFails` | src/calc/whirlpool.ts:252-352 | every quote that passes validation and fails has a cause where it stops: no budget, a missing array, an output that does not fit 64 bits, liquidity that does not fit 128 bits, or a bound behind the price |
| `WhirlpoolBudget.GroupPasses` | src/calc/whirlpool.ts:336-349 | every adaptive iteration leaves a volatility group behind for good |
| `WhirlpoolBudget.QuoteCompletes` | src/calc/whirlpool.ts:252-352 | for group sizes that divide the tick spacing, with fewer groups than iterations up to the limit or the end of the arrays, an adaptive quote on a consistent pool fails only on a width or for want of arrays |
| `WhirlpoolBudget.ArraysSuffice` | src/calc/whirlpool.ts:140-352 | that holds for every quote from a tick inside its arrays when the tick spacing is at most fifteen groups |
| `WhirlpoolEngine.TickCount` | src/calc/whirlpool.ts:140-174 | valid input has at most 528 ticks |
| `WhirlpoolEngine.ArraysCover` | src/calc/whirlpool.ts:140-150 | a tick is within reach exactly when one of the given arrays of 88 spacings holds it, in whatever order the arrays come |
| `WhirlpoolEngine.ZeroLimit` | src/calc/whirlpool.ts:151-158 | a quote with a zero limit is the quote to the price of the outermost tick ahead |
| `WhirlpoolEngine.QuoteSafe` | src/calc/whirlpool.ts:253-335 | every successful quote, adaptive or not, on any pool: direction, limit, fee times a million at least the least reported rate times the input consumed, final price and tick inside the loaded arrays |
| `WhirlpoolEngine.QuotePosition` | src/calc/whirlpool.ts:264-335 | on a consistent pool the final tick fits the final price and the liquidity is the signed sum over the crossed ticks |
| `WhirlpoolEngine.QuoteCompletes` | src/calc/whirlpool.ts:252-352 | without an adaptive fee the iteration budget is never the reason for failure |
| `WhirlpoolMonotone.RunMonotone` | src/calc/whirlpool.ts:252-352 | adaptive or not, the larger input gets at least as much over whole runs from any state |
| `WhirlpoolMonotone.QuoteMonotone` | src/calc/whirlpool.ts:110-352 | two successful quotes never give the larger input less |
| `DlmmBin.RateRises` | src/calc/dlmm.ts:194-205 | the fee rate never falls with distance from the reference index and lies between the base rate, below the cap, and a tenth |
| `DlmmBin.RateIff` | src/calc/dlmm.ts:194-205 | the fee rate is the least one that covers the base rate and the squared volatility of the bin at the control factor over 10^11, capped at a tenth |
| `DlmmBin.TakeTiersFair` | src/calc/dlmm.ts:212-221 | no tier gives more than it holds, output times numerator is at most input times denominator, and a left-over means every tier was emptied |
| `DlmmBin.TakeTiersMonotone` | src/calc/dlmm.ts:212-221 | more input takes at least as much out, and past clearing every tier it uses the same |
| `DlmmBin.AfterFeeMonotone` | src/calc/dlmm.ts:206-222 | an amount after its ceiled fee never falls when the amount grows |
| `DlmmBin.CrossingLeaves` | src/calc/dlmm.ts:224-227 | a crossed bin is charged strictly less than what remained, in both fee modes |
| `DlmmBin.VisitBin` | src/calc/dlmm.ts:206-234 | trading at a bin never lowers the total and leaves a strictly positive remainder when the bin is crossed; `DlmmPayout.VisitPays` states its amounts |
| `DlmmBin.VisitMonotone` | src/calc/dlmm.ts:206-234 | a larger input crosses whenever a smaller one does, with the same output and charge, and otherwise takes at least as much out |
| `DlmmBin.VisitConserves` | src/calc/dlmm.ts:206-222 | a bin credits at most what its tiers hold |
| `DlmmPayout.TakeTiersIff` | src/calc/dlmm.ts:211-221 | the tiers give the most whose least input, tier by tier at the bin price, the input covers, and leave exactly what exceeds the least input of all of them |
| `DlmmPayout.AfterFeeIff` | src/calc/dlmm.ts:206-208 | what is left after the fee is the most that the rate leaves |
| `DlmmPayout.GrossUpIff` | src/calc/dlmm.ts:225-225 | a charge with its fee is the least that the rate leaves enough of |
| `DlmmPayout.VisitExchanges` | src/calc/dlmm.ts:206-221 | at the literal price of a bin, selling for Y gives out with out * 2^64 <= used * price and buying X gives out with out * price <= used * 2^64; one unit more is not covered by what is used, and an emptied bin is charged the least input |
| `DlmmPayout.VisitFees` | src/calc/dlmm.ts:206-228 | the fee is taken on the right side, as the least that the rate asks |
| `DlmmPayout.VisitPays` | src/calc/dlmm.ts:206-234 | trading at a bin credits and charges exactly that exchange with those fees |
| `Dlmm.AdvanceEmpty` | src/calc/dlmm.ts:141-152 | the bisected jump moves on in the walk's direction and passes over no live id and out of no unchecked array |
| `Dlmm.Jump` | src/calc/dlmm.ts:176-192 | stepping over ids that change nothing leaves the reference walk's result unchanged |
| `Dlmm.BoundarySkips` | src/calc/dlmm.ts:160-165 | an unloaded array between loaded ones can be stepped over whole |
| `Dlmm.WalkBins` | src/calc/dlmm.ts:153-241 | the optimised walk equals the walk over every id: output, remainder, bins crossed, completeness, missing bin and errors; `DlmmPayout.NaivePays` states its amounts |
| `Dlmm.NaiveMonotone` | src/calc/dlmm.ts:159-241 | a larger input never yields a smaller output, across tiers, fee modes, crossings and partial results |
| `Dlmm.NaiveConserves` | src/calc/dlmm.ts:159-241 | the output is at most the liquidity of the bins visited, the remainder at most the input and zero if and only if the walk itself ended inside a bin or began empty, and a partial result names an unloaded bin with input left |
| `Dlmm.NaiveExhausts` | src/calc/dlmm.ts:159-241 | a walk is left with nothing exactly when it began with nothing or came, following its own steps, to a live bin whose visit uses up its input |
| `DlmmPayout.NaivePays` | src/calc/dlmm.ts:159-241 | a walk pays out what its trades credit, takes what they charge, and counts them as crossed bins, with one more when it ends in order; each trade is the exchange at its own bin out of what the earlier ones left |
| `DlmmPayout.NaiveMissesNothing` | src/calc/dlmm.ts:159-193 | a walk trades at every loaded bin on its way that offers something, and with input left it stops only at the end of the range, at an unloaded id outside all arrays, or at the id that it reports missing |
| `DlmmPayout.TradesFair` | src/calc/dlmm.ts:159-241 | all that is paid out is worth no more than all that is charged at the best price of the pool |
| `DlmmPayout.NaiveOverflows` | src/calc/dlmm.ts:223-223 | a walk overflows exactly when all that its trades credit does not fit 64 bits |
| `DlmmPayout.NaiveStrict` | src/calc/dlmm.ts:166-174 | a strict walk fails for want of an array exactly where the same walk, not strict, stops with a partial answer, and reports that answer |
| `DlmmEngine.CheckArrays` | src/calc/dlmm.ts:97-103 | the loop accepts exactly distinct array indices in range |
| `DlmmEngine.CollectBins` | src/calc/dlmm.ts:104-125 | the loop accepts exactly valid bins, collects exactly the priced ones and lists exactly those with something to take |
| `DlmmEngine.PricedExactly` | src/calc/dlmm.ts:116-124 | the collected map holds exactly the given bins with a price, each under its own id |
| `DlmmEngine.RelevantIsLive` | src/calc/dlmm.ts:121-123 | the test for the list of live ids is the test for a tier that is not empty |
| `DlmmEngine.SwapExactIn` | src/calc/dlmm.ts:58-242 | validation, bookkeeping and optimised walk equal the quote by visiting every id, whose amounts `DlmmPayout.SwapPays` states |
| `DlmmPayout.SwapPays` | src/calc/dlmm.ts:58-242 | the output and the remainder of every successful quote, from its trades, each at the price of a listed bin |
| `DlmmPayout.SwapMissesNothing` | src/calc/dlmm.ts:116-241 | the same for every successful quote, on the given bins with a price |
| `DlmmEngine.ReferenceIff` | src/calc/dlmm.ts:127-136 | the reference index and volatility: as stored within the filter period, and after it the active bin with the floored reduction of the volatility, or none past the decay period |
| `DlmmEngine.RateInTerms` | src/calc/dlmm.ts:139-205 | the fee rate of a bin, on the fields of the request: base factor, bin step, power of ten, control factor and volatility |
| `DlmmEngine.FeeSide` | src/calc/dlmm.ts:137-137 | the fee is taken from the input except in fee mode one when selling for Y |
| `DlmmEngine.SwapMonotone` | src/calc/dlmm.ts:58-242 | the whole quote is monotone in its input |
| `DlmmEngine.SwapConserves` | src/calc/dlmm.ts:58-242 | the whole quote pays at most what the visited bins hold, leaves nothing if and only if its walk ended inside a bin or nothing was given, and a strict quote is never partial |
| `TransferFees.Withheld` | src/instruction/stonkfun.ts:46-53 | the fee withheld never exceeds the amount |
| `TransferFees.WithheldIff` | src/instruction/stonkfun.ts:46-53 | the fee withheld is the least that carries the basis points, up to the maximum fee |
| `TransferFees.GrossedArrives` | src/instruction/stonkfun.ts:48-53 | an amount grossed up by the inverse fee arrives as exactly the net amount |
| `TransferFees.GrossedIff` | src/instruction/stonkfun.ts:48-53 | the inverse fee gives the least gross amount that covers a net amount |
| `TransferFees.ArrivesMonotone` | src/instruction/stonkfun.ts:52-53 | a larger gross amount never arrives as less |
| `LaunchLab.ChargeIff` | src/instruction/stonkfun.ts:111-132 | an offer buys at least what remains exactly when it is at least the graduation charge |
| `LaunchLab.GraduationFits` | src/instruction/stonkfun.ts:121-135 | in the graduation branch no check fails and the charge is within the offer before the clamp |
| `LaunchLab.NeverExhausts` | src/instruction/stonkfun.ts:123-124 | the error for a graduation that exhausts the reserves is never raised |
| `LaunchLab.GraduatingCharge` | src/instruction/stonkfun.ts:121-134 | a graduating buy is charged exactly the unclamped charge |
| `LaunchLab.Requote` | src/instruction/stonkfun.ts:96-150 | quoting again with a positive charge returns the same amount in and minimum out |
| `LaunchLab.CapCharge` | src/instruction/stonkfun.ts:117-135 | a buy of everything left pays the least sufficient amount if and only if its output overshot the cap or it offered that amount |
| `LaunchLab.CapOvercharge` | src/instruction/stonkfun.ts:117-135 | concrete quotes of 101 and 105 for the same 50 tokens, charged 101 and 100 |
| `LaunchLab.BuyMonotone` | src/instruction/stonkfun.ts:110-150 | a larger offer never buys less, graduation and transfer fees included |
| `LaunchLab.PaidFairly` | src/instruction/stonkfun.ts:110-138 | what a buy puts on the curve covers what it takes at the constant product |
| `LaunchLab.NoFreeRoundTrip` | src/instruction/stonkfun.ts:96-150 | selling any of the bought tokens straight back never returns more than was charged |
| `LaunchLab.SellYields` | src/instruction/stonkfun.ts:139-150 | exactly what a sale yields: the greatest curve output for what arrives, less the four fees, less the transfer fee, less the slippage, each rounded as stated |
| `LaunchLab.BuyYields` | src/instruction/stonkfun.ts:110-150 | exactly what a purchase yields and is charged, from the state fields: the greatest curve output for the net input, or all that remains with the graduation charge |
| `LaunchLab.QuotableIff` | src/instruction/stonkfun.ts:72-95 | the reserves are accepted exactly for a constant product with fields in range and fees and slippage within bounds, and are then the literal sums |
| `LaunchLab.SellAccepts` | src/instruction/stonkfun.ts:96-150 | a sale is quoted exactly when the amount, the state, the transfer fees and the widths allow it |
| `LaunchLab.BuyAccepts` | src/instruction/stonkfun.ts:96-150 | a purchase is quoted exactly when the amount, the state, the transfer fees and the widths allow it |
| `LaunchLab.ProtectedIff` | src/instruction/stonkfun.ts:147-150 | the minimum output is the least amount that is not below what is received less the slippage |
| `PumpV3.EstimateClose` | src/calc/pump_v3.ts:51-55 | the fee estimate overshoots the budget by at most one, and one more always overshoots |
| `PumpV3.NetIff` | src/calc/pump_v3.ts:51-55 | the net amount is the greatest whose two ceiled fees still fit the budget |
| `PumpV3.FeeIff` | src/calc/pump_v3.ts:50-50 | a fee is the least that carries its basis points |
| `PumpV3.CurveCostIff` | src/calc/pump_v3.ts:56-57 | the cost on the curve is the least payment strictly above the exact price, and nothing for nothing |
| `PumpV3.PoolToBeIs` | src/calc/pump_v3.ts:58-64 | the pool to be holds what the curve has beyond its sale and the quote raised less the migration fee, and is refused exactly when either is empty |
| `PumpV3.QuoteSplits` | src/calc/pump_v3.ts:65-87 | the two fees are the sums over both legs of the fee of each leg, the base is the sum of both legs, and the quote in is both legs and both fees |
| `PumpV3.ExactInFits` | src/calc/pump_v3.ts:106-123 | never spends more than its budget over both legs, keeps both constant products from falling, and after validation fails only on an empty pool |
| `PumpV3.ExactInMonotone` | src/calc/pump_v3.ts:106-123 | a larger budget never buys less over both legs |
| `PumpV3.ExactInYields` | src/calc/pump_v3.ts:106-123 | exactly what a budget buys on each leg: the greatest base that the net budget less one covers, first on the curve and then, on what is left, on the pool to be |
| `PumpV3.ExactInAccepts` | src/calc/pump_v3.ts:88-123 | a budget is refused exactly when validation fails or it reaches an empty pool |
| `PumpV3.ExactOutCheaper` | src/calc/pump_v3.ts:88-123 | buying exactly the base of an exact-in quote succeeds and costs at most its quoteIn |
| `PumpV3.ExactOutKept` | src/calc/pump_v3.ts:88-105 | an exact-out quote buys what was asked, or the whole curve on a partial fill, and keeps both constant products |
| `PumpV3.ExactOutYields` | src/calc/pump_v3.ts:88-105 | exactly what an exact-out quote costs on each leg: the curve cost, and on the pool to be the least payment that covers the base |
| `PumpV3.ExactOutAccepts` | src/calc/pump_v3.ts:88-105 | an exact-out amount is quoted exactly when the curve, the pool to be and the widths allow it |
| `PumpSwap.ReachingFits` | src/calc/index.ts:368-379 | the corrected quote fits the payment with all three fees and is within two of the greatest that does |
| `PumpSwap.BuyInverse` | src/calc/index.ts:279-397 | buying the base of buyQuoteInput through buyBaseInput succeeds and costs less than the payment |
| `PumpSwap.SellInverse` | src/calc/index.ts:427-560 | selling the base of sellQuoteInput fails if and only if the fees exceed the output, which needs a quote of one and three fees, or the vault cannot pay, which needs a positive offset; otherwise it yields the quote less at most one for each fee after the first |
| `PumpSwap.SellBackUnpaid` | src/calc/index.ts:427-560 | a concrete pool with an offset whose vault cannot pay for selling what a quote of 400 asks |
| `PumpSwap.AskedLeft` | src/calc/index.ts:447-460 | what the ceiled fees leave of a raw quote is the asked quote less at most one for each charged fee after the first |
| `PumpSwap.ReachingIff` | src/calc/index.ts:368-379 | a payment reaches the pool with at least as much as every smaller one if and only if its correction does not overshoot |
| `PumpSwap.BuyMonotoneIff` | src/calc/index.ts:343-397 | for a successful buy, no smaller successful payment gets more onto the pool if and only if the payment does not overshoot, a test on the payment and the fee rates |
| `PumpSwap.BuyMonotone` | src/calc/index.ts:343-397 | a larger payment that does not overshoot never buys less base |
| `PumpSwap.FeeIff` | src/calc/index.ts:306-310 | a fee is the least that carries its basis points |
| `PumpSwap.SlippedIff` | src/calc/index.ts:100-109 | the slipped amount is the greatest within the slippage, clamped to 9999 points and to 64 bits |
| `PumpSwap.MinimumOutputIff` | src/calc/index.ts:400-403 | the minimum output is the greatest within the slippage, clamped to 9999 points |
| `PumpSwap.BuyBaseYields` | src/calc/index.ts:279-320 | the cost of a base amount is the least quote that covers it at the constant product, plus the three fees on it, and the maximum is that with the slippage |
| `PumpSwap.BuyQuoteYields` | src/calc/index.ts:343-397 | the base for a payment is the most that what gets onto the pool, less one, covers |
| `PumpSwap.SellBaseYields` | src/calc/index.ts:427-468 | the quote for a base amount is the most that the constant product gives, less the three fees, and the minimum is that less the slippage |
| `PumpSwap.SellQuoteYields` | src/calc/index.ts:491-560 | the base for a quote is the least that covers the least raw quote whose fees leave it |
| `PumpSwap.CheckedIff` | src/calc/index.ts:219-256 | the inputs are accepted exactly when amounts, fees, offset and effective reserves are in range and no reserve is empty |
| `PumpSwap.BuyBaseAccepts` | src/calc/index.ts:279-320 | a base amount is quoted exactly when the inputs are accepted, the pool is not emptied and the cost with its fees fits 64 bits |
| `PumpSwap.BuyQuoteAccepts` | src/calc/index.ts:343-397 | a payment is answered exactly when the inputs are accepted, the sum of the fee rates fits and something reaches the pool; the fees on the estimate always fit |
| `PumpSwap.SellBaseAccepts` | src/calc/index.ts:427-468 | a sale is quoted exactly when the inputs are accepted, the fees do not exceed the output and the vault can pay |
| `PumpSwap.SellQuoteAccepts` | src/calc/index.ts:491-560 | a wanted quote is answered exactly when the inputs are accepted, the fees are below one, and vault, reserve and widths allow it |
| `ReserveQuotes.MeteoraGalois` | src/calc/index.ts:695-710 | a non-zero inverse is the least input that yields the output, and a zero inverse means that no u64 input reaches it |
| `ReserveQuotes.RaydiumGalois` | src/calc/index.ts:616-649 | whenever the inverse answers, enough comes out exactly from its answer on, and it answers exactly when its products are u64 |
| `ReserveQuotes.MeteoraYields` | src/calc/index.ts:695-700 | the output is the most that the input less its fee, rounded down, covers at the constant product |
| `ReserveQuotes.MeteoraNothing` | src/calc/index.ts:695-704 | with an empty reserve or a full fee both directions answer zero |
| `ReserveQuotes.RaydiumYields` | src/calc/index.ts:616-631 | the output is the most that 9975 of 10000 parts of the input cover at the constant product |
| `ReserveQuotes.RaydiumNothing` | src/calc/index.ts:616-649 | with an empty reserve both directions answer zero |
| `ReserveQuotes.TooMuch` | src/calc/index.ts:636-710 | asking for the whole reserve or more is answered with zero |
| `ReserveQuotes.MeteoraLiquidity` | src/calc/index.ts:688-694 | r*r <= a*b < (r+1)*(r+1) for all u64 reserves, and refuses all others |
| `ReserveQuotes.FloorRoot` | src/calc/index.ts:693-694 | the Newton loop from a power of two terminates at the exact floor root |
| `ReserveQuotes.NewtonAbove` | src/calc/index.ts:694-694 | a Newton step from anywhere stays at or above the root |
| `HotPath.StepInv` | src/hotpath/state.ts:108-184 | every atomic step keeps the slot, one-fetch, timer and start invariants |
| `HotPath.RunInv` | src/hotpath/state.ts:108-184 | the invariants hold after every sequence of events |
| `HotPath.Reachable` | src/hotpath/state.ts:108-184 | in every interleaving the slot belongs to the current generation, each generation has at most one fetch outstanding, and one live timer exists exactly while running |
| `HotPath.OnlySlotLands` | src/hotpath/state.ts:167-179 | only the response to the fetch in the slot, of the current generation, changes the cache or the metrics |
| `HotPath.StoppedFetchNeverLands` | src/hotpath/state.ts:128-184 | a fetch begun before a stop never lands, however late and even after a new start |
| `HotPath.StoppedIsQuiet` | src/hotpath/state.ts:128-137 | after a stop and until the next start nothing changes and nothing new begins, in any order of the pending work |
| `HotPath.StoppedCacheExpires` | src/hotpath/state.ts:128-210 | after a stop the cache hands out only what it held, and nothing once that is past its lifetime |
| `HotPath.FreshStart` | src/hotpath/state.ts:108-125 | an accepted start takes a new fetch of its own generation, never an older one |
| `HotPath.StartWorks` | src/hotpath/state.ts:108-184 | a start whose response arrives in time ends running with the data cached and one timer |
| `HotPath.TickWorks` | src/hotpath/state.ts:116-155 | a tick of the live timer with an empty slot begins a fetch of the current generation, and any other tick changes nothing |
| `HotPath.RefreshWorks` | src/hotpath/state.ts:116-179 | a tick while running whose response arrives replaces the cached data, counts once and frees the slot |
| `HotPath.FailureCounts` | src/hotpath/state.ts:167-181 | a failed fetch keeps the cache and counts one error; a throwing callback keeps the new data and counts both |
| `HotPath.CacheIff` | src/hotpath/state.ts:189-210 | the cache hands out what it holds exactly when its age is neither negative nor above the lifetime |
| `HotPath.HotPathState.Start` | src/hotpath/state.ts:108-125 | the method moves the object exactly as the step and keeps the invariant |
| `HotPath.HotPathState.PrefetchBlockhash` | src/hotpath/state.ts:149-156 | returns the fetch in the slot, putting a new one there only when it was empty |
| `HotPath.HotPathState.Stop` | src/hotpath/state.ts:128-137 | the method moves the object exactly as the step, cancelling the timer, and keeps the invariant |
| `HotPath.HotPathState.Settle` | src/hotpath/state.ts:158-184 | the method changes cache and metrics exactly as the step, by generation, outcome and callback |
| `HotPath.HotPathState.ContinueStart` | src/hotpath/state.ts:113-119 | the method installs the timer exactly when the step does |
| `Subscriptions.StepInv` | src/common/subscription-handle.ts:199-482 | every atomic step keeps the queue, transport, waiting and handle invariants |
| `Subscriptions.RunInv` | src/common/subscription-handle.ts:199-482 | the invariants hold after every sequence of events |
| `Subscriptions.Reachable` | src/common/subscription-handle.ts:199-482 | in every interleaving actions of a key run one at a time in call order, none is dropped, at most one handle of a key is active and it is the newest one registered, and transports never overlap on a handle |
| `Subscriptions.CleanQueue` | src/common/subscription-handle.ts:235-239 | removing a settled tail never drops a queued action |
| `Subscriptions.NeverStuck` | src/common/subscription-handle.ts:227-240 | the first unfinished action of a key can always start or is under way |
| `Subscriptions.StartMakes` | src/common/subscription-handle.ts:261-287 | starting an action of an unregistered key makes exactly one active handle, of that key, by that action and registered, when the transport opens, and otherwise no handle and no change of registration |
| `Subscriptions.StartCloses` | src/common/subscription-handle.ts:263-264 | starting an action of a registered key unsubscribes the registered handle and waits for that transport |
| `Subscriptions.ContinueMakes` | src/common/subscription-handle.ts:264-287 | continuing after the unsubscribe makes exactly one active registered handle when it succeeded and the transport opens, and otherwise none, with the registration unchanged |
| `Subscriptions.SubscribeWorks` | src/common/subscription-handle.ts:256-287 | from any reachable state, a subscribe to an idle unregistered key ends with one active registered handle |
| `Subscriptions.ResubscribeWorks` | src/common/subscription-handle.ts:261-287 | a subscribe to a settled key ends with the old handle closed and a new active one registered, or with the old one failed and still registered |
| `Subscriptions.UnsubscribeWorks` | src/common/subscription-handle.ts:475-482 | an unsubscribe of a settled key closes its handle and removes it, or leaves it failed and registered |
| `Subscriptions.StaysActiveIff` | src/common/subscription-handle.ts:199-369 | a handle stays active exactly until its own listener closes it or its own unsubscribe settles, which leaves it closed or failed by its outcome, and nothing else changes its status, key or maker |
| `Subscriptions.NeverRevived` | src/common/subscription-handle.ts:199-287 | a handle that is not active is never active again, after any events |
| `Subscriptions.RunTails` | src/common/subscription-handle.ts:235-239 | once every action of a key has run to its end the queue holds nothing for that key |
| `Subscriptions.UnsubInv` | src/common/subscription-handle.ts:199-214 | unsubscribing starts a transport only when none is pending and changes nobody's status |
| `Subscriptions.FinishRemovalInv` | src/common/subscription-handle.ts:475-482 | only the handle that was closed is removed, so an active one never loses its registration |
| `Subscriptions.SubscriptionManager.Subscribe` | src/common/subscription-handle.ts:227-234 | the method chains the new action on the key's tail exactly as the step |
| `Subscriptions.SubscriptionManager.StartJob` | src/common/subscription-handle.ts:261-287 | the method starts an action exactly as the step, whose effect `Subscriptions.StartMakes` and `Subscriptions.StartCloses` state, and keeps the invariant |
| `Subscriptions.SubscriptionManager.ContinueJob` | src/common/subscription-handle.ts:264-287 | the method replaces the closed handle, or fails with its unsubscribe, exactly as the step, whose effect `Subscriptions.ContinueMakes` states |
| `Subscriptions.SubscriptionManager.CleanJob` | src/common/subscription-handle.ts:235-239 | the method removes the tail only when it is still the action's own |
| `Subscriptions.SubscriptionManager.FinishRemoval` | src/common/subscription-handle.ts:475-482 | the method removes the registration only when it is still the closed handle's |
| `Subscriptions.SubscriptionManager.FinishTransport` | src/common/subscription-handle.ts:202-212 | the method closes or fails the handle and frees its promise exactly as the step |
| `Routes.DeriveMultiHop` | src/instruction/pump_compact_accounts.ts:138-240 | accepts exactly one continuous all-buy or all-sell chain of canonical venues with cashback only at the currency end, and derives its accounts |
| `Routes.WalkHops` | src/instruction/pump_compact_accounts.ts:156-203 | the loop fails only when the hops form no chain in either direction, and otherwise leaves the direction, last mint and metas of the chain |
| `Routes.AcceptedReversed` | src/instruction/pump_compact_accounts.ts:138-240 | acceptance is invariant under reversing the hops and swapping the endpoints |
| `Routes.MetasPass` | src/instruction/pump_upgrade.ts:292-311 | the derived metas of any hops pass the swap builder's count and flag checks |
| `Routes.MetasOrder` | src/instruction/pump_compact_accounts.ts:198-201 | hop i gives the keys 5i to 5i+4: base mint, quote mint, address, base vault, quote vault |
| `Routes.RouteEnds` | src/instruction/pump_compact_accounts.ts:204-223 | the user accounts are derived from the mints and token programs at the two ends, and the buyback account from the currency end |
| `Routes.VenueIff` | src/instruction/pump_compact_accounts.ts:160-197 | a venue is accepted exactly with its canonical addresses, after every alias of SOL has become wrapped SOL |
| `QuoteCreation.SingleHop` | src/instruction/pump_compact_accounts.ts:272-272 | a link validated as a one-hop route is accepted exactly when its venue is canonical and its base is no alias of SOL |
| `QuoteCreation.DeriveQuoteAccounts` | src/instruction/pump_compact_accounts.ts:244-283 | accepts exactly the joined canonical chains of distinct mints down to a supported quote, and lists their accounts |
| `QuoteCreation.CheckLinks` | src/instruction/pump_compact_accounts.ts:263-273 | the loop with its set of seen mints accepts exactly the declared chains |
| `QuoteCreation.CollectKeys` | src/instruction/pump_compact_accounts.ts:274-281 | the loop appends exactly the keys of each link in order |
| `QuoteCreation.LinkIff` | src/instruction/pump_compact_accounts.ts:271-272 | a link is accepted exactly when its venue is canonical, only the first may be in mayhem, and its base is no alias of SOL |
| `QuoteCreation.KeysOrder` | src/instruction/pump_compact_accounts.ts:278-281 | the keys of a link stand after one key for each earlier link and three more for each earlier pool: the curve of its base, then for a pool the address and both vaults |
| `QuoteCreation.AccountsOrder` | src/instruction/pump_compact_accounts.ts:274-282 | the accounts are the quote mint, its account on the new curve, its token program, the control and then the keys of the links, with only the second writable |
| `QuoteCreation.AccountsPass` | src/instruction/pump_create_v2.ts:23-29 | the accounts of every accepted chain pass the creation builder's count and flag checks |
| `RouteSelection.CheckHops` | src/instruction/pump_route.ts:32-46 | the loop accepts exactly connected hops that never return to a mint as given, keep each intermediate token program and name complete venues |
| `RouteSelection.SelectRoute` | src/instruction/pump_route.ts:17-53 | the selection equals its specification for every policy |
| `RouteSelection.BuildSwap` | src/instruction/pump_route.ts:47-48 | the builder refuses nothing that the derivation accepts |
| `RouteSelection.AutoIsOfficialOrSequential` | src/instruction/pump_route.ts:23-51 | automatic selection takes the official instruction exactly when the official policy would succeed, and otherwise falls back without failing |
| `RouteSelection.SelectedIsOfficial` | src/instruction/pump_route.ts:28-48 | a selected instruction is a two- or three-hop accepted route over distinct mints that passes its builder's checks and carries the given amount and minimum |
| `RouteSelection.SelectedVenues` | src/instruction/pump_route.ts:34-46 | every hop of a selected route has complete distinct accounts and known token programs, and takes its input under the token program that the hop before paid out |
| `RouteSelection.PolicyRefuses` | src/instruction/pump_route.ts:19-51 | which requests are refused before any hop is read, and what each policy then does: sequential selects nothing, automatic never fails, official never falls back |
| `RouteSelection.BasesNormal` | src/instruction/pump_compact_accounts.ts:156-204 | no accepted chain has an alias of SOL as a base mint |
| `RouteSelection.TrailFollows` | src/instruction/pump_route.ts:32-46 | the mints visited as given are each hop's own mints on the two sides of an accepted chain |
| `RouteSelection.CycleFreeIff` | src/instruction/pump_route.ts:32-48 | a selected route visits no mint twice under any name if and only if not both its currency end is an alias of SOL and some hop has wrapped SOL as its base |
| `RouteSelection.AliasCycle` | src/instruction/pump_route.ts:32-43 | a concrete selected route from SOL back to SOL under another alias |

## Left out

- Network and submission: RPC, confirmation polling, signing, deadlines and the trading client.
- Byte layouts: instruction data, account metas of the per-exchange builders, program addresses (uninterpreted functions here), and the decoding of the 80 dynamic-fee bytes, which the CLMM model takes as fields.
- JavaScript number checks: wrong run-time types and non-integer numbers are excluded by the types, and so are negative amounts in the CLMM, Whirlpool and DLMM-bin inputs, which the source refuses, and in the Raydium AMM v4 inputs, where the source checks nothing.
- Error texts: a thrown error is a constructor of an error type, and the route modules have a single one.
- Floating-point price helpers, caches, gas tables, decoders and the other constant-product quotes: no exact property, or one that repeats those proved here.
- ClmmBudget.DynamicCompletes: says nothing about quotes that have more volatility groups than iterations before their limit, whose budget can run out.
- WhirlpoolBudget.QuoteCompletes: the same for adaptive quotes, and stated for group sizes that divide the tick spacing and reference groups that touch the tick range.
- ClmmGroups.QuoteGroups: stated for pools whose tick fits their price, since the first group is taken from the tick.
- WhirlpoolGroups.QuoteGroups: stated for pools whose tick fits their price and group sizes that divide the tick spacing; by `WhirlpoolGroups.GroupSizeIff` it fails for every other size.
- ClmmMonotone.QuoteMonotone: with fees on the output it is stated for pools whose tick fits their price, as only there the next tick is known to lie strictly ahead of a price that stopped short.
- LaunchLab.NoFreeRoundTrip: the curve state after a buy is the model's own transition (the pools move by what the quote charges and gives), since the source only quotes.
- ClmmEngine.QuoteSafe: the liquidity sum and the final tick are stated for pools whose tick fits their price; without that, QuoteDirected is what holds.
- `pumpCoinInitialQuoteReserves`, the seed of a child coin's quote reserves: one checked division.
- HotPath.HotPathState.Settle: the update callback may throw but is not modelled as calling back into the object.
- Subscriptions.Reachable: `setState` called from outside, unsubscribe functions that throw before returning a promise, and several managers sharing a handle are not modelled; `unsubscribeAll` is a sequence of `Unsubscribe` events, and any handle, not only a signature's, may fire.
- Routes.DeriveMultiHop: the fixed accounts that do not depend on the hops are not listed; the two user accounts, the buyback account and the remaining metas are.
