# Verified model of the live trading core

Dafny 4.11 model of the parts of the bot where a mistake costs money: the constant-product
arithmetic and the searches over it, the live submission lane with its nonce ledger, and three
bookkeeping components. `dafny verify dfyconfig.toml` checks everything.

## What is modelled

**Pricing and sizing** (`Chain`, `Arithmetic`, `Quotes`, `Pools`, `Search`, `NearOptimal`,
`TwoLeg`, `Sandwich`, `SandwichOptimum`, `SandwichCurve`, `Words`). Amounts are unbounded naturals;
`Words` proves separately that the wrapping 256-bit computation agrees in the ranges the chain
allows. A V2 fee above 10000 bps, on which the source's `u32` subtraction panics, is excluded
(`Priceable`). `Found` is what the search promises of its answer; the two sizers are methods proved
against it, and everything about their results is proved of any answer that meets it.
`OptimalSandwichIn` and `OptimalTwoLegArb` also say what they deliver in swaps through the pools
alone (`Delivers`, with the caller's tokens, limit and cap), and the shadow scorer, the bundle
builder and the lane say what they do in the fields they read and write.

**The submission lane** (`Bundles`, `Inventory`, `Store`, `LaneMachine`, `LaneSafety`,
`LaneClaims`, `LaneSettles`, `LaneCover`, `LaneRuns`, `LaneFloor`, `LaneReads`, `Engine`).
`LaneMachine` is a step machine: every await of the source is a boundary between steps, an event
names a step and carries what the relays, the chain, the database or the operator answered, and
`Run` folds any list of events, so every interleaving, crash and restart is a run. `Engine` is the
object the source has, with its control flow and early exits, over an `Inventory` and a `Store` it
changes in place. It logs each change as an event; its `Valid()` says that the object is where its
history takes the machine, so what holds over every run holds of every engine.

**Bookkeeping** (`Attribution`, `Alerts`, `CowAuction`): the WETH delta of a receipt, the alert
lifecycle, the shadow auction score.

## Assumptions

- A bundle can only be mined in its target block, and the observed head never goes back (relay
  submission; a raw transaction can land later).
- A cancellation acknowledged by the relays is final.
- Bundle ids are UUIDs: a new bundle's id is in no row of the table.
- Other tasks do not hold the lane: they advance the head, refresh the nonce, raise the broadcast
  block (also after a failed bundle record) and retire rows whose target block has passed.
- Status writes may fail everywhere; `LaneCover` and `LaneFloor` need those of cancellations to
  succeed and show what a failed one costs. A read of the active reservations may return any part of
  them, as the source drops rows that do not decode and takes a failed read for an empty one;
  `LaneReads` shows exactly when that is harmless, and an `Engine` remembers in `readEnough` whether
  it has been so far.
- The exclusive lane is a phase of the machine; `try_consume_smoke_budget` is atomic.
- Relay, chain, database, clock and operator answers are parameters (`Answers`, events); balances are
  refreshed under the lane before a candidate is checked against them.

## Where the source says something else

- `dex.rs:437-439` promises about 120 iterations. That is right exactly for spans below
  `Threshold(120)`, about 2193 ETH in wei (`AtMostExactlyWhen`, `ThresholdAt120`); wider spans can
  take more, at most 191 over 112-bit reserves, so the guard of 256 is wide enough.
- `dex.rs:437-439` and `dex.rs:477` call the profit curves unimodal. Rounded down they are not, for
  either sizer (`TwoLeg.ProfitIsNotUnimodal`, `SandwichCurve.ProfitIsNotUnimodal`): they fall to
  nothing and rise again with every unit of a coarse token, and on the same pools the search reports
  nothing where there is a profit (`SearchCanMissAProfit` in both modules). They are unimodal up to
  rounding (`ProfitDipsAreShallow`), the search misses the best profit by less than 383 slacks, and so
  it reports something whenever that much is to be earned somewhere in reach (`BigProfitsAreReported`,
  from reserves and fees alone `ClearedSlackIsReported`, and `BigSandwichesAreReported`). Below that no
  condition short of evaluating the profit at the probes decides it: which way a narrowing goes then
  hangs on the remainders of single floor divisions.
- A sweep that reads only part of the table can expose a bundle it does not read
  (`SweepIsSafeExactlyWhenNothingIsExposed`); one that reads nothing cannot (`FullReadIsEnough`).
- That live bundles end at or below the nonce counter is not an invariant across processes
  (`CounterFallsBelowALiveBundle`); `CounterHoldsExactlyWhen` says from which tables one process
  keeps it. Where it fails the broadcast block is what keeps nonces apart.
- Splitting a trade can pay on Aerodrome pools (`SplittingBeatsOneSwapOnAerodrome`). From a
  funded in-side it can do so only through the floors of the fee: it is fair when the parts pay the
  fee of the sum (`AeroSplittingIsFairWhenFeesAddUp`); for other inputs it depends on the remainders
  of both floors. On V2 it can pay only from an empty in-side (`SplittingIsFairExactlyWhen`).
- The auction scorer's answer to a faulty batch can depend on the order of its fills
  (`OrderDecidesTheRefusal`), exactly as `AlikeExactlyWhen` says.

## Model

| member | source | states |
|---|---|---|
| Quotes.V2OutIsLargestAccepted | bot/crates/mev-bot/src/dex.rs:410-422 | the exact-in quote is the largest output that passes the fee-adjusted product check of Uniswap v2 Core section 3.2.1 (an output passes if and only if it is at most the quote), and it never empties the pool |
| Quotes.V2OutMonotone | bot/crates/mev-bot/src/dex.rs:410-422 | the quote never falls when the input grows, the in-side gets shallower or the out-side deeper |
| Quotes.V2ProductKept | bot/crates/mev-bot/src/dex.rs:410-422 | one V2 swap never lowers the reserve product, for every input, fee and reserve including zero |
| Quotes.AeroProductKept | bot/crates/mev-bot/src/dex.rs:286-305 | one Aerodrome volatile swap never lowers the reserve product, for any fee |
| Quotes.AeroIsFreeV2OfNet | bot/crates/mev-bot/src/dex.rs:277-305 | Aerodrome prices its input after the floored fee exactly as a fee-free V2 pool prices that net input |
| Quotes.AmountInIsTight | bot/crates/mev-bot/src/dex.rs:425-435 | the exact-out quote buys what was asked; two units less never do; one unit less does exactly when the unfloored price is a whole number |
| Quotes.AmountInAfterOut | bot/crates/mev-bot/src/dex.rs:410-435 | asking for what an input pays costs at most one unit more than that input |
| Quotes.NotForSale | bot/crates/mev-bot/src/dex.rs:425-435 | asking for nothing, for the whole out-side or more, or at a fee of 100% answers the largest 256-bit word |
| Quotes.NetIsRoundedUp | bot/crates/mev-bot/src/dex.rs:295-296 | what Aerodrome prices is the input less its fee, rounded up to a whole unit |
| Quotes.AeroBetweenV2Quotes | bot/crates/mev-bot/src/dex.rs:277-305 | the Aerodrome quote lies between the V2 quotes of `x` and of `x + k` for any top-up `k` worth 9999 fee-weighted units |
| Quotes.AeroWithinTwoUnits | bot/crates/mev-bot/src/dex.rs:277-305 | with a fee of at most 5000 bps two units of top-up are enough |
| Pools.SwapMovesReserves | bot/crates/mev-bot/src/dex.rs:259-274 | a swap through either pool adds exactly the input, removes exactly the quote (its saturating subtraction never saturates), changes no other field and keeps the product |
| Pools.PoolAnswers | bot/crates/mev-bot/src/dex.rs:231-275 | a V2 pool answers for its own two tokens and no other, an Aerodrome pool only if it is volatile and has something to pay; the token put in grows by the input and the other falls by what is paid |
| Pools.TradesConserveAndKeepProduct | bot/crates/mev-bot/src/dex.rs:386-397 | over any list of trades in both directions the trader's balances and the reserves are conserved together and the product never falls |
| Pools.NoRoundTripProfits | bot/crates/mev-bot/src/dex.rs:386-397 | from a funded pool, whoever is not behind in one token after any list of trades is not ahead in the other, and strictly ahead in one means strictly behind in the other |
| Pools.SplittingNeverBeatsOneSwap | bot/crates/mev-bot/src/dex.rs:384-422 | on a funded V2 pool no splitting of an input into any list of swaps pays more than one swap of the sum, floors included |
| Pools.SplittingIsFairExactlyWhen | bot/crates/mev-bot/src/dex.rs:384-422 | that law holds of a V2 pool for all input lists if and only if its in-side is funded, or its out-side holds at most one unit, or its fee is 100% |
| Pools.SplittingBeatsOneSwapOnAerodrome | bot/crates/mev-bot/src/dex.rs:277-305 | a pool and two inputs on which the law fails for Aerodrome's floored fee |
| Pools.AeroSplittingPaysForNets | bot/crates/mev-bot/src/dex.rs:277-305 | on an Aerodrome pool with a funded in-side, whatever the splitting, the proceeds stay at or below one fee-free swap of the summed net inputs |
| Pools.AeroSplittingIsFairWhenFeesAddUp | bot/crates/mev-bot/src/dex.rs:277-305 | so the splitting law holds on Aerodrome, from a funded in-side, whenever the parts together pay the floored fee of the sum |
| Pools.WholeFeesAddUp | bot/crates/mev-bot/src/dex.rs:295-296 | which they do when every part but the last times the fee is a multiple of 10000, in particular at fee 0 |
| Pools.SplittingAtBestAvoidsTheFee | bot/crates/mev-bot/src/dex.rs:259-274 | for either venue, whatever the splitting, the proceeds stay at or below the fee-free quote of the sum |
| Search.TernarySearchMax | bot/crates/mev-bot/src/dex.rs:440-471 | the search returns the first maximum of the range its narrowing steps leave, inside the range it was given |
| Search.SearchReturnsThePeak | bot/crates/mev-bot/src/dex.rs:440-471 | for any function that strictly rises to a peak and never rises after it, the answer is exactly that peak |
| Search.UnimodalExactlyWhenNoDip | bot/crates/mev-bot/src/dex.rs:437-438 | a function is unimodal over a range, never falling before some point and never rising after it, if and only if no point of the range lies below one before it and one after it |
| Search.NarrowingShrinks | bot/crates/mev-bot/src/dex.rs:448-458 | after `k` narrowing steps `3^k * (span - 2)` is at most `2^k` times what it was |
| Search.GuardNeverCuts | bot/crates/mev-bot/src/dex.rs:437-471 | over any range below 2^112 and for any function narrowing takes at most 191 steps, so the guard of 256 never cuts it short and the final scan sees at most three points |
| Search.AtMostExactlyWhen | bot/crates/mev-bot/src/dex.rs:437-459 | no function takes more than `k` narrowing steps over a range if and only if its span is below `Threshold(k)`, for every `k` under the guard |
| Search.ThresholdAt120 | bot/crates/mev-bot/src/dex.rs:437-439 | `Threshold(120)` is 2193180411619173533389: the promised 120 steps hold exactly for spans below that |
| Search.WidestFlatSearchTakes191 | bot/crates/mev-bot/src/dex.rs:437-459 | a constant function over the widest 112-bit range takes exactly 191 steps |
| Search.SearchIsDetermined | bot/crates/mev-bot/src/dex.rs:440-471 | two functions that agree on the range get the same answer |
| NearOptimal.NarrowLoses | bot/crates/mev-bot/src/dex.rs:453-457 | on a concave profit cut off at zero and past a last feasible size, and then floored, one narrowing step loses less than twice the rounding from the best value |
| NearOptimal.SearchIsNearOptimal | bot/crates/mev-bot/src/dex.rs:440-471 | so after `k` steps the answer is below every value of the range by less than `2k + 1` roundings |
| NearOptimal.DipsAreShallow | bot/crates/mev-bot/src/dex.rs:437-438 | a concave profit cut off at zero and past a last feasible size, and then floored, is unimodal up to rounding: no point lies a whole rounding below one before it and one after it |
| TwoLeg.OptimalTwoLegArb | bot/crates/mev-bot/src/dex.rs:559-591 | a reported trade stays within the cap, goes from the in-token to a token both pools trade and back, and its profit is exactly what the pools lose of the in-token when the two swaps are made, with the middle token conserved; it is what the search finds |
| TwoLeg.ProfitIsWhatThePoolsLose | bot/crates/mev-bot/src/dex.rs:559-591 | a reported profit is exactly what the two pools jointly lose in the in-token when the two swaps are applied, with the middle token unchanged in total |
| TwoLeg.TwoLegArbIsNearOptimal | bot/crates/mev-bot/src/dex.rs:559-591 | every admissible size earns less than the reported profit (zero for `None`) plus `(2k + 1) * (1 + bOut/bIn)`, floors and saturation included, with `k` the narrowing steps made |
| TwoLeg.Uint112ArbIsNearOptimal | bot/crates/mev-bot/src/dex.rs:559-591 | with 112-bit reserves that gap is below `383 * (1 + bOut/bIn)` |
| TwoLeg.IdealProfitIsConcave | bot/crates/mev-bot/src/dex.rs:575-582 | the unfloored two-leg profit is concave and zero at zero |
| TwoLeg.NoArbitrageBelowThreshold | bot/crates/mev-bot/src/dex.rs:575-590 | when the product of the two prices does not pay for both fees, no size at all is profitable and `None` is reported |
| TwoLeg.BigProfitsAreReported | bot/crates/mev-bot/src/dex.rs:559-591 | with 112-bit reserves, some admissible size earning at least `383 * (1 + bOut/bIn)` makes the search report something |
| TwoLeg.NoRoundTripBeatsTheSizer | bot/crates/mev-bot/src/dex.rs:559-591 | told through the pools: on two funded pools of the same two tokens, no two swaps in reach return the input and 383 roundings more than what is reported, so a gain that large is never answered with `None` |
| TwoLeg.ClearedSlackIsReported | bot/crates/mev-bot/src/dex.rs:559-591 | the same from reserves and fees alone: it is enough that the unfloored exchange returns some admissible size and 384 of those units more |
| TwoLeg.ProfitIsNotUnimodal | bot/crates/mev-bot/src/dex.rs:437-438 | two pools on which the floored profit is not unimodal: sizes 40121, 100300 and 100301 earn 18529, 0 and 14750 |
| TwoLeg.ProfitDipsAreShallow | bot/crates/mev-bot/src/dex.rs:575-582 | on any two pools the floored profit dips by less than `1 + bOut/bIn` |
| TwoLeg.SearchCanMissAProfit | bot/crates/mev-bot/src/dex.rs:559-591 | on those two pools the search over the whole depth reports nothing, though 40121 units earn 18529 |
| Sandwich.OptimalSandwichIn | bot/crates/mev-bot/src/dex.rs:480-541 | a returned sizing stays within the cap, is what three swaps through the pool itself do, leaves the victim at least the limit the caller named, and returns exactly the reported profit more than it spends; it is what the search finds |
| Sandwich.VictimOutFalls | bot/crates/mev-bot/src/dex.rs:495-514 | through the floored first leg, a larger front-run never leaves the victim more |
| Sandwich.FeasibleSizesAreDownwardClosed | bot/crates/mev-bot/src/dex.rs:506-514 | a size that respects the victim's limit makes every smaller size do so, and the victim never gets more than undisturbed |
| Sandwich.ProfitCases | bot/crates/mev-bot/src/dex.rs:495-521 | the searched profit is positive exactly when the front-run buys something, the victim is served and the back-run returns more than went in; it is then the difference |
| Sandwich.LegsKeepProduct | bot/crates/mev-bot/src/dex.rs:495-521 | a profitable sandwich leaves the pool with at least its old product once the profit is taken from the victim's input, so the profit is below that input |
| Sandwich.SizingIsSound | bot/crates/mev-bot/src/dex.rs:523-541 | every returned sizing agrees with the searched profit, respects cap and limit, never underflows and is conserved |
| Sandwich.SizingIsThreeSwaps | bot/crates/mev-bot/src/dex.rs:480-541 | the recomputed legs are what three swaps through the pool itself pay, ending in the conserved reserves |
| SandwichOptimum.ConcaveUpTo | bot/crates/mev-bot/src/dex.rs:495-521 | the unfloored three-leg profit is concave over all sizes up to any size at which it is positive |
| SandwichOptimum.BackRoundsDown | bot/crates/mev-bot/src/dex.rs:495-521 | the three floored legs return at most what the unfloored ones do, and less than `1 + 2 * (2 * rIn + victim)^2 / (rIn * rOut)` less |
| SandwichOptimum.SandwichIsNearOptimal | bot/crates/mev-bot/src/dex.rs:474-541 | every admissible size earns less than the reported gross profit (zero for `None`) plus `2k + 1` times that slack: floors, saturation, early zeros and the victim's limit included |
| SandwichOptimum.Uint112SandwichIsNearOptimal | bot/crates/mev-bot/src/dex.rs:474-541 | with 112-bit reserves that gap is below 383 slacks |
| SandwichCurve.ProfitIsNotUnimodal | bot/crates/mev-bot/src/dex.rs:477-477 | a pool and victim for which the floored sandwich profit is not unimodal: sizes 14590, 32096 and 32097 earn 4502, 0 and 9273 |
| SandwichCurve.ProfitDipsAreShallow | bot/crates/mev-bot/src/dex.rs:495-521 | on any pool it dips by less than the slack over the sizes the search may use |
| SandwichCurve.SearchCanMissAProfit | bot/crates/mev-bot/src/dex.rs:523-527 | for that pool and victim the search over the whole depth finds no profit, though 32097 units earn 9273 |
| SandwichCurve.BigSandwichesAreReported | bot/crates/mev-bot/src/dex.rs:523-541 | with 112-bit reserves, some admissible size earning at least 383 slacks makes the sizer return a sizing |
| SandwichCurve.NoSandwichBeatsTheSizer | bot/crates/mev-bot/src/dex.rs:480-541 | told through the pool: no three swaps in reach that keep the victim at the caller's limit return 383 roundings more than what is reported, so a gain that large is never answered with `None` |
| Words.V2QuoteDoesNotWrap | bot/crates/mev-bot/src/dex.rs:410-422 | below 2^114 the wrapping 256-bit quote equals the unbounded one |
| Words.V2AmountInDoesNotWrap | bot/crates/mev-bot/src/dex.rs:425-435 | the same for the exact-out quote, for any amount asked |
| Words.AeroQuoteDoesNotWrap | bot/crates/mev-bot/src/dex.rs:286-305 | the same for Aerodrome, for any 32-bit fee |
| Words.SandwichProbeDoesNotWrap | bot/crates/mev-bot/src/dex.rs:495-521 | with 112-bit reserves and victim every probe of the sandwich search equals the unbounded one |
| Words.SandwichLegsDoNotWrap | bot/crates/mev-bot/src/dex.rs:528-532 | and so do the three recomputed legs |
| Words.TernarySearchMaxWord | bot/crates/mev-bot/src/dex.rs:440-471 | the search with its own additions and subtractions on words answers what the search on integers answers, for bounds up to 2^256 - 3 |
| Words.SandwichSearchDoesNotWrap | bot/crates/mev-bot/src/dex.rs:523-526 | so the search over wrapped probes, whose loop on words answers the same `Found`, lands on the same size, profit and legs |
| Words.TwoLegSearchDoesNotWrap | bot/crates/mev-bot/src/dex.rs:575-585 | the same for the two-leg search |
| Bundles.BuildBundle | bot/crates/mev-bot/src/bundle.rs:72-233 | the front calls if there are any, the victims in order, the back calls if there are any, each own transaction with its tag, nonce, profit token, base-fee cap, deadline and phase; floor, bribe and flash funding on the last of them alone |
| Bundles.BundleUsesExactlyItsReservation | bot/crates/mev-bot/src/bundle.rs:174-233 | its own transactions use exactly the nonces `start .. start + legs`, in order, once each |
| Bundles.LayoutPositions | bot/crates/mev-bot/src/bundle.rs:174-233 | every victim sits between front and back, and every position carries the leg meant for it |
| Bundles.LastLegSettles | bot/crates/mev-bot/src/bundle.rs:73-124 | when any own leg exists exactly one, the last, carries profit floor, bribe and flash funding |
| LaneSafety.NoncesAreNeverShared | bot/crates/mev-bot/src/engine.rs:2178-2390 | over every run, across crashes, restarts, refreshes, refusals and failed status writes, no two bundles that can still be mined share a nonce, provided every boot could read the rows of the live bundles and no sweep read only rows whose release exposes a live bundle it left out |
| LaneSafety.StepKeeps | bot/crates/mev-bot/src/engine.rs:1239-1260 | the invariant behind it is kept by every single step of the lane, the boot recovery and the sweeps |
| LaneSafety.FullReadIsEnough | bot/crates/mev-bot/src/store.rs:1640-1657 | a read that returns every active row is enough for any step, and a failed one is enough for a sweep |
| LaneReads.BootIsSafeExactlyWhenItReadsTheLive | bot/crates/mev-bot/src/engine.rs:1003-1025 | whatever rows a boot reads (rows that do not decode are dropped, a failed read is empty), it is harmless over every continuation if and only if the row of every live bundle is among them |
| LaneReads.SweepIsSafeExactlyWhenNothingIsExposed | bot/crates/mev-bot/src/engine.rs:1239-1260 | whatever rows a sweep of an armed broadcasting process reads, taken newest first, it is harmless over every continuation if and only if every live bundle left out is blocked through its target or ends below a height, at or below the counter, that no range read reaches across |
| LaneReads.UnreadRowsAreOver | bot/crates/mev-bot/src/engine.rs:1003-1025 | a boot reads the row of every live bundle when every active row it does not read targets a block the head has reached, which an operator can check |
| LaneRuns.CleanSend | bot/crates/mev-bot/src/engine.rs:2178-2376 | any bundle built at the counter for a coming block is sent by a live, unblocked, qualified process, with the exact state it leaves |
| LaneRuns.CounterFallsBelowALiveBundle | bot/crates/mev-bot/src/engine.rs:1239-1260 | a full run from the start, every read complete, in which a stale reservation of an earlier process, cancelled last, takes the counter below the nonce of a bundle still live; broadcasting is then blocked through its target |
| LaneFloor.CounterHoldsExactlyWhen | bot/crates/mev-bot/src/engine.rs:1239-1260 | an armed broadcasting process whose cancellations reach the table keeps every bundle that can still be mined at or below its counter, whatever happens, if and only if the table it starts from has a floor: a height at or below the counter that no active range reaches from below, above which active ranges are disjoint and end at or below the counter |
| LaneFloor.RangeAboveBreaks | bot/crates/mev-bot/src/engine.rs:1239-1260 | from any state of such a process, any active range ending above the counter, whatever process it comes from, gives a run that ends with a live bundle above the counter |
| LaneFloor.FailedCancelBreaks | bot/crates/mev-bot/src/engine.rs:2292-2297 | one cancellation the database does not take breaks it too: that is what failed status writes cost |
| LaneCover.OneProcessStaysCovered | bot/crates/mev-bot/src/engine.rs:1239-1260 | from a table with a floor, over every continuation of a process whose cancellations reach the table, other writes and any part of any read failing: outstanding ranges stay clear of the floor, disjoint and at or below the counter, live bundles end at or below it and share no nonce |
| LaneCover.StepCovers | bot/crates/mev-bot/src/inventory.rs:66-79 | kept by every step of such a process, in particular by every release of a range |
| LaneSettles.EveryReservationSettles | bot/crates/mev-bot/src/engine.rs:2204-2390 | on every path through the lane, with any off-lane events in between and whether or not status writes succeed, a reservation ends accepted; or withdrawn or cancelled with the nonces back (when no refresh went past them); or recovery-blocked with broadcasting blocked through the target; a failed write leaves the row as it read before |
| LaneSettles.StepStage | bot/crates/mev-bot/src/engine.rs:2211-2389 | every step, with its status write taken or not, moves a reservation one stage on or settles it |
| LaneClaims.SendsAreLiveAndReserved | bot/crates/mev-bot/src/engine.rs:2178-2373 | in every run whose reads were enough, whatever is sent is sent in live mode of a process armed at boot, with broadcasting enabled, at the exact nonces of a durable row under its own id |
| LaneClaims.RunKeepsMode | bot/crates/mev-bot/src/engine.rs:47-89 | in every run the runtime switch is on only in an armed process, and from the gate to the send it stays on |
| LaneClaims.NothingIsSentWhilePaused | bot/crates/mev-bot/src/engine.rs:1202-1212 | after a switch to simulation nothing is sent, whatever happens, until a switch back or a restart |
| LaneClaims.SmokeIsNeverRefilled | bot/crates/mev-bot/src/engine.rs:2305-2371 | over all restarts together unqualified sends never exceed the largest slot limit configured, nor their gas the largest raw cap (below the largest word, where the counter saturates) |
| LaneClaims.NewestFirstSorts | bot/crates/mev-bot/src/engine.rs:1240-1241 | sweeping order: a permutation of the active rows by falling start nonce |
| LaneClaims.FullSweepReturnsTheCounter | bot/crates/mev-bot/src/engine.rs:1239-1250 | a sweep over ranges stacked under the counter, all acknowledged, brings the counter back to the oldest start |
| Inventories.Inventory.AdvanceChainNonce | bot/crates/mev-bot/src/inventory.rs:57-61 | a chain refresh never lowers the counter |
| Inventories.Inventory.ReserveNonces | bot/crates/mev-bot/src/inventory.rs:63-65 | returns the old counter and moves it past the range |
| Inventories.Inventory.ReleaseNonces | bot/crates/mev-bot/src/inventory.rs:67-79 | gives a range back if and only if it is the newest one |
| Inventories.Inventory.BlockBroadcastUntil | bot/crates/mev-bot/src/inventory.rs:81-83 | the block only rises, to at least the given height |
| Inventories.Inventory.Refresh | bot/crates/mev-bot/src/inventory.rs:144-178 | each missing answer leaves its value; no refresh lowers the counter or the block |
| Inventories.ReserveThenRelease | bot/crates/mev-bot/src/inventory.rs:57-79 | reserving and releasing undo each other exactly when no refresh in between went past the range |
| Stores.Store.TryConsumeSmoke | bot/crates/mev-bot/src/store.rs:1973-2010 | a slot is taken if and only if the database answers, a slot is left and in raw mode the gas, added with saturation, fits; otherwise nothing changes; an unanswering database is an error |
| Stores.Store.SetStatus | bot/crates/mev-bot/src/store.rs:1631-1638 | touches one row's status and only when the write is taken |
| Stores.Store.ReserveBundleNonces | bot/crates/mev-bot/src/store.rs:1606-1629 | writes a reserved row, or reports the failed write and leaves the table |
| Engines.Engine.ValidIsSafe | bot/crates/mev-bot/src/engine.rs:1239-1260 | an engine object in any reachable state keeps the mode invariant, and shares no live nonce as long as every read of the table returned enough |
| Engines.Engine.constructor | bot/crates/mev-bot/src/engine.rs:1003-1025 | a new process on any store left behind, whatever part of its table could be read, ends recovery with its history a run of the machine and every row read expired, cancelled or blocked as its target and the relays had it, every other untouched and the block no higher than needed; balances are the refreshed ones; its reads are enough exactly when they were before and list every live bundle |
| Engines.Engine.SubmitLiveCandidate | bot/crates/mev-bot/src/engine.rs:2122-2390 | a range is reserved only when, and (nothing happening while the lane is waited for) exactly when, every control is met; the bundle is handed to the relays exactly when the payload is exact, the strategy qualified or with a slot left at both looks, risk accepted, the refreshed balances fund it, the row written, the pin live and the slot taken; it is the exact bundle at the reserved nonces; slots and gas are spent exactly by what is handed out unqualified; the lane is free again, the history extends to a run of the machine and the reservation is settled |
| Engines.Engine.Enlist | bot/crates/mev-bot/src/engine.rs:2131-2208 | before a range is taken nothing is sent or written; it is taken only when, and with a quiet lane exactly when, every control of the gate is met; balances are then refreshed |
| Engines.Engine.Commit | bot/crates/mev-bot/src/engine.rs:2252-2371 | recheck, durable row, last pin check and smoke slot: passes exactly in live mode with every check met |
| Engines.Engine.Broadcast | bot/crates/mev-bot/src/engine.rs:2373-2389 | send, then on refusal recall: accepted row, acknowledged cancellation, or block through the target |
| Engines.Engine.TakeSmokeSlot | bot/crates/mev-bot/src/engine.rs:2305-2371 | one step of the machine: a slot is taken or the row cancelled |
| Engines.Engine.CancelActiveSubmissionsLocked | bot/crates/mev-bot/src/engine.rs:1239-1260 | after the sweep every reservation read is acknowledged dead or blocks through its target, with other tasks running in between |
| Engines.Engine.SetRuntimeMode | bot/crates/mev-bot/src/engine.rs:1202-1212 | an unarmed process refuses to go live and changes nothing; a switch to simulation leaves the lane paused and every reservation read swept; reads stay enough exactly when the sweep leaves out no bundle in danger |
| Engines.Engine.ApplyRuntimeRisk | bot/crates/mev-bot/src/engine.rs:1216-1226 | a refused patch changes nothing; an accepted one leaves every reservation read swept |
| Attribution.WethDelta | bot/crates/mev-bot/src/attribution.rs:635-680 | the saturating fold of the logs; what the entity received less what it paid whenever the WETH contract's logs move less than 2^127 in all, what it sends itself counting for nothing |
| Attribution.LargeAmountsAreCapped | bot/crates/mev-bot/src/attribution.rs:647-648 | an amount of 2^127 or more counts as 2^127 - 1 |
| Attribution.LedgerIsAdditive | bot/crates/mev-bot/src/attribution.rs:635-680 | over disjoint address sets the ledger of the union is the sum of the ledgers, for every list of logs |
| Attribution.DeltaIsAdditive | bot/crates/mev-bot/src/attribution.rs:635-680 | and so is the reported delta while nothing saturates |
| Attribution.EveryoneTogetherGainsWhatIsMinted | bot/crates/mev-bot/src/attribution.rs:650-677 | over all addresses mentioned transfers cancel and only wrapping less unwrapping is left |
| Attribution.ReceiptsAreOneLedger | bot/crates/mev-bot/src/attribution.rs:354-356 | summing receipt by receipt equals the ledger over all their logs in a row |
| Attribution.ExactAllTheWayExactlyWhen | bot/crates/mev-bot/src/attribution.rs:635-680 | read log by log the reported delta is exact all the way if and only if the exact ledger of every prefix fits a signed 128-bit value |
| Attribution.SaturationLosesAWei | bot/crates/mev-bot/src/attribution.rs:635-680 | three logs on which saturation makes the reported delta wrong by one; their amounts exceed any supply of WETH, so no receipt of the chain holds them |
| AlertLifecycle.Alerts.Evaluate | bot/crates/mev-bot/src/alerts.rs:200-255 | one evaluation extends the run by one pass and returns its transitions, each announcing what the first condition of its rule said or withdrawing what was active, at the time of the pass |
| AlertLifecycle.EventsRebuildTheActiveSet | bot/crates/mev-bot/src/alerts.rs:200-255 | after any run, replaying every event ever emitted gives the active rules, in order; they are the rules of the last conditions, once each, even when a rule occurs twice |
| AlertLifecycle.EachRuleAlternates | bot/crates/mev-bot/src/alerts.rs:200-255 | over any run each rule's events alternate fired and resolved, and it is active exactly after an odd number |
| AlertLifecycle.HistoryIsTheTail | bot/crates/mev-bot/src/alerts.rs:243-251 | the history is exactly the last 200 events of the run |
| AlertLifecycle.HistoryHolds200 | bot/crates/mev-bot/src/alerts.rs:243-251 | and as long as 200 allow |
| AlertLifecycle.AlertsTellTheirBeginning | bot/crates/mev-bot/src/alerts.rs:206-236 | over any run an active alert carries the time of the pass in which its rule last began to be wanted, and the severity of the first condition of the rule in that pass |
| AlertLifecycle.WordingIsFreshest | bot/crates/mev-bot/src/alerts.rs:222-236 | after any run every active alert carries the wording its rule last had in the last conditions |
| CowAuction.ScoreShadowSolution | bot/crates/mev-bot/src/cow_auction.rs:76-161 | accepted if and only if there is a fill and a non-blank id, orders are new, no pair is self, risks are shares, directed references are met and some fill earns more than its gas and risk; an error names the first rule broken and a score reports the sums up to where it stopped, with each loss the risk's share of the surplus rounded down |
| CowAuction.AcceptedExactlyWhen | bot/crates/mev-bot/src/cow_auction.rs:85-161 | accepted if and only if there is a fill and a non-blank auction id, orders are distinct, no pair is self, risks are at most 10000 bps, references are met and some fill beats gas plus expected loss |
| CowAuction.PaysExactlyWhen | bot/crates/mev-bot/src/cow_auction.rs:76-135 | rounding the expected loss down never decides whether a fill earns anything |
| CowAuction.OrderDoesNotMatter | bot/crates/mev-bot/src/cow_auction.rs:85-161 | reordering the fills changes neither acceptance nor any sum |
| CowAuction.AlikeExactlyWhen | bot/crates/mev-bot/src/cow_auction.rs:85-161 | every order of a batch gets the same answer if and only if the batch is empty, the auction id blank, no fill faulty by itself, or all that are share one fault, no clean fill shares a uid with another and no clean fill with surplus or gas goes with one below its reference |
| CowAuction.OrderDecidesTheRefusal | bot/crates/mev-bot/src/cow_auction.rs:97-125 | two orders of one batch whose answers differ: the one an error, the other a refusing score |
| CowAuction.NothingOverflows | bot/crates/mev-bot/src/cow_auction.rs:76-135 | when surplus times 10000 and gas fit 256 bits in total, so does every intermediate value |

## Left out

- RPC, HTTP, websocket, SQLite, Axum, anvil and relay code: their answers are parameters or events.
- ABI bytes, hashing and signing: a bundle is its id, first nonce, target block and legs.
- Raw transport landing after the target block, and reorganisations that rewind the head.
- 64-bit wrap-around of the nonce counter and the saturating end of a range: counters are unbounded.
- The flows before the lane (strategies, initial simulation, risk scoring) and `risk.begin`/`risk.end`.
- Concurrent writers of one process memory cell: atomics change in one step, and the head is read once.
- Stable Aerodrome pools are refused as in the source; V3 quotes and multi-hop routing are not modelled.
- Gas cost and confidence scoring around the WETH delta; floating-point rules that produce alert conditions.
- Webhook delivery, alert clocks, the auction's deadline, orders and textual pair keys (keys are pairs).
- `cow_trade.rs`, `detect_reorg`, config parsing and the frontend.
- Engines.Engine.CancelActiveSubmissionsLocked: says nothing of reservations the read does not return, because the source then does not sweep them.
- LaneCover.OneProcessStaysCovered: needs the process's cancellations to reach the table; no two live bundles share a nonce without that, but the counter can fall below one, as FailedCancelBreaks shows.
- LaneCover.StepCovers: the same, step by step.
- Pools.AeroSplittingIsFairWhenFeesAddUp: one direction, because whether floored fees that differ still change the floored proceeds is a matter of remainders.
- TwoLeg.BigProfitsAreReported: one direction, because whether a smaller profit is found depends on single floors at the probes.
