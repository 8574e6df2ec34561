# Pochtecatl, modelled and proved in Dafny

Pochtecatl backtests and runs a trading strategy on Uniswap pairs. Chunks of blocks arrive in any
order, are put back in order, become five-minute price bars with cached indicators, and the bars
drive open and close requests on a ledger of positions. This project models that pipeline and proves
what it keeps. `dafny verify dfyconfig.toml` checks all of it.

## The models

**Bars** (`OrderedMaps`, `TickData`, `TradeTicks`, `FixedPoint`, `TimePriceBar`, `Indicators`,
`BarSeries`, `TimePriceBars`). The classes `TradeTick`, `PendingTimePriceBar` and `TimePriceBars`
update their fields as the source does, loop by loop; each method is proved to compute a function of
`BarSeries`, `TickData` or `TradeTicks`. Everything else about bars is proved about those functions:

- `SeriesInvariants`, `InsertOutcome`, `ReorgPrune`: the structural invariant, exactly when an insert
  or a rollback fails, and exactly what a rollback removes;
- `CachedIndicators`, `ExactIndicators`, `IndicatorBounds`: the cached values are those of a computation
  from scratch, what that is in plain arithmetic, and up to which price no intermediate overflows;
- `SeriesRuns`: runs of inserts and rollbacks, and finalized bars never changing;
- `ReorgErasure`: a reorg leaves no trace, and exactly when a rollback without the reorged block does;
- `RollbackRuns`: the same for whole runs of inserts and rollbacks that may miss any blocks;
- `Retention`: dropping old bars is invisible, across reorgs too;
- `RollbackRetention`, `RetentionLimits`: exactly when a rollback lets it show, and runs that get there;
- `Frontier`: the finalization frontier, and exactly when an insert leaves a gap;
- `FinalizedErasure`: a reorg leaves no trace under finalization either;
- `FinalizedPadding`: what is padded after a finalized bar.

**Store, executor, backtest** (`TimePriceBarStore`, `StoreRuns`, `StrategyExecutor`, `Backtest`). The
store of all pairs' bars, what whole runs of blocks leave of each pair, the dispatch of requests, and a
whole backtest driven by the block indexer.

**Block range indexer** (`BlockRangeIndexer`). Fifty workers, a bounded channel and a reorder buffer as
a transition system with every interleaving; the consumer is a class proved against the function the
transition system uses.

**Trade controller** (`Trades`, `TradeController`). The shared ledger as a class with one method per
critical section, and any number of concurrent requests as a transition system over the same steps.

**Pair lookup** (`PairCache`, `Multicall`). Concurrent `get_pairs` calls over the single-flight cache,
the loops of `get_pairs` and `resolve_map`, and the scatter and gather of chunked calls.

**Prices and swaps** (`UniswapV2`). The v2 quote, simulated trades and Q32.96 prices.

## Main results

- A reorg leaves no trace: `ReorgErasure.ReorgsLeaveNoTrace`, under finalization
  `FinalizedErasure.FinalizedReorgsLeaveNoTrace`, and exactly when one does for runs that miss blocks,
  `RollbackRuns.RollbacksLeaveNoTraceIff`, up to the store of all pairs, `StoreRuns.StoreLeavesNoTraceIff`.
- Dropping old bars is invisible: `Retention.RetentionIsInvisibleAcrossReorgs`, and exactly when one
  rollback shows it, `RollbackRetention.RollbackIsInvisibleIff`.
- Cached indicators are those from scratch, `SeriesRuns.EveryRunIsSound`, and mean what they should: the
  average moves a fifth of the way to each close, and the bands are two standard deviations of twenty
  closes around their mean, `IndicatorBounds.EveryCachedValueIsMeaningful`.
- Inserts and rollbacks fail in exactly these cases: `InsertOutcome.InsertKeepsInvariant`,
  `ReorgPrune.PruneIsExact`, `Frontier.SeeFailsIff`; and leave a gap in exactly these,
  `Frontier.InsertLeavesGapIff`.
- What the store holds of a pair is a run on that pair alone: `StoreRuns.EveryPairIsARun`.
- Blocks are processed in order and once, and every run that cannot go on has processed all:
  `BlockRangeIndexer.ProcessedInOrder`, `BlockRangeIndexer.EveryMaximalRunDelivers`; a backtest never
  fails on one, `Backtest.EveryIndexedBlockSucceeds`, and holds exactly the latest sixty bars of each
  pair's run without retention, `Backtest.BacktestHolds`.
- A block dispatches exactly the requests decided on the bars it leaves, each once:
  `StrategyExecutor.ExecuteStrategyForBlock`.
- Positions are conserved under any interleaving: `TradeController.PositionsAreConserved`,
  `TradeController.FailedRequestLeavesNoTrace`.
- Concurrent lookups agree, fetch once and all return: `PairCache.AllCallersAgree`,
  `PairCache.FetchedOnce`, `PairCache.EveryCallReturns`.
- A bar is that of its trades exactly when no block starts outside their range:
  `TradeTicks.BarOfBlocksIsBarOfTradesIff`.
- A simulated trade pays the most the pool allows, a round trip loses, and the price after it is that of
  what it left exactly below 2^32: `UniswapV2.SimulationPaysMost`, `UniswapV2.OpenThenCloseLoses`,
  `UniswapV2.PriceAfterSimulationIff`.

## Reading the statements

- *Uniform clock.* Block `b` has timestamp `t0 + 2 * b`, the assumption behind
  `AVERAGE_BLOCK_TIME_SECONDS`; it is also how the range indexer estimates timestamps within a chunk.
  `Clock(t0)` asks for timestamps of at least twenty windows, so that stepping back twenty windows
  stays above zero, as on any real chain.
- *Rounding.* The source does not fix how the `fixed` crate rounds a product, so every statement about
  indicators holds for rounding down, up and towards zero.
- *Prices* are raw Q32.96 bits. `IndicatorBounds.IntermediatesFit` gives the price range in which no
  128-bit intermediate overflows, sharp to the whole unit; outside it the model computes with unbounded
  integers.
- *What a run is.* `Insert` and `Prune` in any order, an insert only above every block held, which is
  how the store calls `insert_data`.

## Where the code and its documentation or intent differ

- The padding loop computes the same timestamp in every iteration and never remembers a window to pad,
  so its flush branch is dead and all padding of one insert goes to one bar
  (`crates/primitives/src/time_price_bars/time_price_bars.rs:211-242`). On the uniform clock that is the
  window of the latest block held. `TimePriceBars.TimePriceBars.Pad` keeps the branch and proves it dead.
- `test_ema` expects a smoothing factor of 2 / 21; the code's period is 9, so the factor is 2 / 10. The
  code is followed.
- `TickData::reduce` keeps the first tick's volume. OHLC is claimed at bar level, the volume of a bar is
  claimed to be that of its first block (`TickData.IsOhlc`).
- A rollback that is not followed by an insert at the rolled-back block is not always invisible: the
  padding it leaves can send later padding to another window. `ReorgErasure.LateReinsertLeavesNoTraceIff`
  says exactly when it is, and `ReorgErasure.LateReinsertLeavesATrace` gives blocks for which it is not.
  `RollbackRuns.RollbacksLeaveNoTraceIff` is the exact condition for a whole run of such rollbacks, and
  `StoreRuns.StoreLeavesNoTraceIff` for the store, where a pair misses the reorged blocks it is not in.
- Being past the frontier is not enough for a rollback to succeed: when padding filled a window that was
  then finalized, a rollback into that padding is refused. `Frontier.SeeFailsIff` gives the exact
  condition, `Frontier.RollbackIntoFinalizedPaddingIsRefused` the failing family, and
  `Frontier.RollbackPastTheFrontierIsRefused` a run that gets there with a block past the frontier.
- `insert_data` can fail on a new block: when it keeps no bar, or one bar while padding another window,
  a bar it must recompute is gone. `InsertOutcome.InsertKeepsInvariant` has the exact condition, and
  `SeriesRuns.OneBarIsTooFew` is a run of two blocks whose second one fails.
- When the latest block's window is finalized already, padding is dropped without an error and a gap
  stays between two bars. `Frontier.InsertLeavesGapIff` says that this is the only way to a gap, and
  `Frontier.GapAfterFinalizedWindow` is a run that leaves one.
- Padding does not always repeat the latest tick: after a rollback to the end of a finalized bar, a late
  insert pads with that whole bar, its high and low included, and opens a later window with them.
  `FinalizedPadding.PadsWithWholeBar` is the case, and `FinalizedPadding.LateInsertPadsWithWholeBar` a
  run that gets there, with the ticks for which it shows.
- A bar can be wider than the trades in it: when reserves change between two of its blocks without a
  trade, the price the second one starts at counts although no trade of the bar ended there.
  `TradeTicks.BarOfBlocksIsBarOfTradesIff` says exactly when, for any number of blocks and any padding,
  and `TradeTicks.BarCanBeWiderThanItsTrades` gives two blocks.
- A rollback in a series that drops old bars can look at a bar that was dropped: the finalized one that
  would refuse it, the bars before the rolled-back block, or those the cut bar's indicators are computed
  from. `RollbackRetention.RollbackIsInvisibleIff` says exactly when it does not show.
  `RetentionLimits.RollbackToDroppedWindow` is a run, for every retention of 21 bars or more, after which
  a rollback empties the bounded series only, and `RetentionLimits.RollbackIntoFirstKeptWindow` one whose
  rollback leaves a bar with another average. `Retention.RetentionIsInvisibleAcrossReorgs` needs 21 bars
  below each rollback, and `RetentionLimits.TwentyAreNotEnough` shows that no fewer will do even without a rollback.

## Model

| member | source | states |
|---|---|---|
| TickData.ReduceIsOhlc | crates/primitives/src/tick_data.rs:35-50 | the fold over a bar's blocks has the first block's open and volume, the last one's close, and the attained highest high and lowest low |
| TickData.RepeatingLastKeepsReduce | crates/primitives/src/tick_data.rs:35-50 | repeating the last tick over any further blocks leaves the folded bar as it was |
| TradeTicks.BlockTickIsOhlc | crates/primitives/src/tick_data.rs:56-98 | a block's tick opens at the price before its first trade, closes at the price after its last, spans exactly the prices seen, and sums all volumes |
| TradeTicks.PaddedBarFoldsTicks | crates/primitives/src/tick_data.rs:35-50 | folding a bar's blocks, padding included, is folding the ticks of the blocks that were seen |
| TradeTicks.FoldedRange | crates/primitives/src/tick_data.rs:35-98 | a bar of any number of blocks opens and closes with them and spans exactly the prices its trades saw and those its blocks start at |
| TradeTicks.BarOfBlocksIsBarOfTradesIff | crates/primitives/src/tick_data.rs:35-98 | a bar of any number of blocks, padded or not, is the OHLC of all their trades if and only if every block's first price lies in the range of those trades |
| TradeTicks.QuietGapsKeepBar | crates/primitives/src/tick_data.rs:35-98 | so it is when every block starts at the price the one before ended at |
| TradeTicks.BarCanBeWiderThanItsTrades | crates/primitives/src/tick_data.rs:35-98 | two blocks whose bar reaches a price their trades do not |
| TradeTicks.TradeTick.AddIndexedTrade | crates/primitives/src/tick_data.rs:78-98 | the in-place update of high or low, close and volume is one step of the block's fold |
| TradeTicks.BuildTick | crates/primitives/src/block/block.rs:33-43 | creating a tick from the first trade and adding the others yields the block's tick |
| ResolutionTimestamp.Window | crates/primitives/src/time_price_bars/resolution_timestamp.rs:21-23 | the one window start in whose five minutes the timestamp lies |
| FixedPoint.ProductShrinks | crates/primitives/src/time_price_bars/indicators.rs:83-85 | under every rounding, a difference times a factor of at most one lies between zero and the difference |
| ExactIndicators.ProductIsClose | crates/primitives/src/time_price_bars/indicators.rs:51-86 | a rounded product is less than one unit from the exact one, on the side it is rounded to |
| FixedPoint.SquareRoot | crates/primitives/src/time_price_bars/indicators.rs:60-60 | the integer root under the standard deviation is the largest whose square fits |
| TimePriceBar.PendingTimePriceBar.PruneToReorgedBlockNumber | crates/primitives/src/time_price_bars/time_price_bar.rs:74-85 | exactly the blocks below the reorged one are left, folded again, without indicators |
| TimePriceBar.PendingTimePriceBar.SetIndicators | crates/primitives/src/time_price_bars/time_price_bar.rs:87-89 | only the indicators change |
| TimePriceBar.PendingTimePriceBar.InsertBlockPriceBarRange | crates/primitives/src/time_price_bars/time_price_bar.rs:91-102 | every block of the range gets the tick, the fold is taken again and the indicators are dropped |
| TimePriceBar.PendingTimePriceBar.InsertBlockPriceBar | crates/primitives/src/time_price_bars/time_price_bar.rs:104-108 | one block gets its tick, the fold is taken again and the indicators are dropped |
| TimePriceBars.TimePriceBars.PruneToRetentionCount | crates/primitives/src/time_price_bars/time_price_bars.rs:72-78 | popping first entries in place leaves what `BarSeries.PopTo` says |
| TimePriceBars.TimePriceBars.UpdateIndicators | crates/primitives/src/time_price_bars/time_price_bars.rs:84-113 | recomputes one pending bar from the whole map, and fails for a missing or finalized one |
| TimePriceBars.TimePriceBars.PruneToReorgedBlockNumber | crates/primitives/src/time_price_bars/time_price_bars.rs:115-169 | the in-place loop terminates, with bars and errors as `BarSeries.PruneToReorgedBlockNumber` |
| TimePriceBars.TimePriceBars.Pad | crates/primitives/src/time_price_bars/time_price_bars.rs:182-266 | the padding loop fills one window with all missing blocks, and its flush branch is dead |
| TimePriceBars.TimePriceBars.Place | crates/primitives/src/time_price_bars/time_price_bars.rs:268-297 | the block goes to its window, or the call fails on a gap or a finalized bar and changes nothing |
| TimePriceBars.TimePriceBars.FinalizeRange | crates/primitives/src/time_price_bars/time_price_bars.rs:328-358 | the loop finalizes the range in order and stops at the first bar it cannot finalize |
| TimePriceBars.TimePriceBars.Finalize | crates/primitives/src/time_price_bars/time_price_bars.rs:307-323 | the frontier moves when the range was finalized without error |
| TimePriceBars.TimePriceBars.InsertData | crates/primitives/src/time_price_bars/time_price_bars.rs:171-326 | the whole insert computes `BarSeries.InsertData`, also what it leaves behind when it fails |
| TimePriceBars.TimePriceBars.IsStale | crates/primitives/src/time_price_bars/time_price_bars.rs:360-368 | stale if and only if every bar is more windows old than are retained, counted from the window after it |
| SeriesInvariants.PadShape | crates/primitives/src/time_price_bars/time_price_bars.rs:182-266 | padding adds exactly the missing blocks with the latest tick to the latest block's own window, or changes nothing when none is missing or that window is finalized |
| SeriesInvariants.PlaceStep | crates/primitives/src/time_price_bars/time_price_bars.rs:268-297 | after padding, placing fails only in a finalized window |
| SeriesInvariants.UpdateAllKeeps | crates/primitives/src/time_price_bars/time_price_bars.rs:301-305 | recomputing changes nothing but indicators, and succeeds if and only if every window to recompute is a pending bar |
| SeriesInvariants.PopToKeepsLatest | crates/primitives/src/time_price_bars/time_price_bars.rs:72-78 | retention keeps exactly the latest bars, unchanged, and as many as fit |
| SeriesInvariants.FinalizeIs | crates/primitives/src/time_price_bars/time_price_bars.rs:307-358 | under the invariant finalizing never fails and finalizes exactly the windows between the old and the new frontier |
| InsertOutcome.InsertKeepsInvariant | crates/primitives/src/time_price_bars/time_price_bars.rs:171-326 | an insert of a new latest block fails if and only if its window is finalized or retention drops a bar to recompute, each with its own error and no other; otherwise the invariant holds and the latest bar is the block's own and ends in it |
| InsertOutcome.PlacedChanges | crates/primitives/src/time_price_bars/time_price_bars.rs:182-297 | before retention nothing changes but the windows to be recomputed |
| InsertOutcome.UpdatesSurvive | crates/primitives/src/time_price_bars/time_price_bars.rs:299-305 | retention keeps every window to recompute if and only if it keeps two bars, or one when only one was touched |
| ReorgPrune.PruneLoopIs | crates/primitives/src/time_price_bars/time_price_bars.rs:115-156 | the loop fails, with the error for finalized bars, if and only if one reaches the block; otherwise it leaves exactly the blocks below it and reports the window it cut |
| ReorgPrune.PruneIsExact | crates/primitives/src/time_price_bars/time_price_bars.rs:115-169 | the same for the whole operation, which keeps the invariant and the frontier and changes no bar but the one it cut |
| Indicators.ComputeIsBatch | crates/primitives/src/time_price_bars/indicators.rs:70-120 | computing from the previous bar's cached average equals the recursive computation over all closes |
| ExactIndicators.StepIsFifth | crates/primitives/src/time_price_bars/indicators.rs:12-86 | five times the move of the average is the close's distance from it, up to five units of 2^-96 and one more for every 1.0 of distance |
| ExactIndicators.BandsFromPrices | crates/primitives/src/time_price_bars/indicators.rs:35-68 | the middle band is the twenty closes' sum over twenty, and the others are twice the root of a twentieth of their squared distances from it, to the last bit and cut at zero |
| Indicators.BatchAgree | crates/primitives/src/time_price_bars/indicators.rs:35-97 | the indicators of a window depend on no later window |
| CachedIndicators.UpdateAllMakesRight | crates/primitives/src/time_price_bars/time_price_bars.rs:301-305 | recomputing only the touched windows, in order, makes every bar's cached indicators right |
| CachedIndicators.InsertKeepsRight | crates/primitives/src/time_price_bars/time_price_bars.rs:171-326 | a successful insert without retention keeps every cached indicator equal to one computed from scratch |
| CachedIndicators.PruneKeepsRight | crates/primitives/src/time_price_bars/time_price_bars.rs:115-169 | so does a successful rollback |
| SeriesRuns.EveryRunIsSound | crates/primitives/src/time_price_bars/time_price_bars.rs:115-326 | every run of inserts and rollbacks keeps bars non-empty, gap-free, ordered and never late, and without retention every cached indicator right |
| SeriesRuns.PendingBarIsOhlcOfItsBlocks | crates/primitives/src/time_price_bars/time_price_bar.rs:104-108 | in any such state a pending bar is the OHLC of exactly its blocks |
| SeriesRuns.PaddingKeepsOhlc | crates/primitives/src/time_price_bars/time_price_bars.rs:182-266 | all padding of one insert lands in one bar, and leaves the OHLC of a bar that was there |
| SeriesRuns.PruneNeverChangesFinalized | crates/primitives/src/time_price_bars/time_price_bars.rs:115-169 | no rollback, failed or not, from any state, drops or changes a finalized bar |
| SeriesRuns.InsertNeverChangesFinalized | crates/primitives/src/time_price_bars/time_price_bars.rs:171-326 | no insert, failed or not, from any state, changes a finalized bar, and only retention drops one |
| SeriesRuns.OneBarIsTooFew | crates/primitives/src/time_price_bars/time_price_bars.rs:72-113 | with one bar retained, block 0 succeeds and block 1000 after it fails |
| ReorgErasure.BlocksDetermineState | crates/primitives/src/time_price_bars/time_price_bars.rs:17-29 | two sound states without finalized bars that hold the same blocks are equal, indicators included |
| ReorgErasure.InsertExtends | crates/primitives/src/time_price_bars/time_price_bars.rs:171-326 | an insert adds to the blocks held exactly the padding and the new block |
| ReorgErasure.PruneCuts | crates/primitives/src/time_price_bars/time_price_bars.rs:115-169 | a rollback removes from the blocks held exactly those at or above its block |
| ReorgErasure.ReorgsLeaveNoTrace | crates/primitives/src/time_price_bars/time_price_bars.rs:115-326 | any run with reorgs never fails and ends in exactly the state of a run over the surviving observations only: windows, blocks, OHLC and indicators, padding included |
| ReorgErasure.LateReinsertLeavesNoTraceIff | crates/primitives/src/time_price_bars/time_price_bars.rs:115-326 | after any run, when the block inserted after a rollback is a later one, the rollback is invisible if and only if it removes all observations or none, the insert is at its block, or the block before it is in the window of the last observation kept |
| ReorgErasure.LateReinsertLeavesATrace | crates/primitives/src/time_price_bars/time_price_bars.rs:115-326 | blocks 0 and 1000, a rollback to 500 and an insert at 600 end in another state than blocks 0 and 600 |
| RollbackRuns.RunHoldsTrail | crates/primitives/src/time_price_bars/time_price_bars.rs:115-326 | after any run of inserts and rollbacks, whatever blocks are missed after a rollback, the series holds exactly the surviving observations and, after each, the padding left from runs rolled back |
| RollbackRuns.RollbacksLeaveNoTraceIff | crates/primitives/src/time_price_bars/time_price_bars.rs:115-326 | any such run that ends in an insert ends in exactly the state of the run over its survivors if and only if every rollback that left padding behind a survivor kept to that survivor's window, or the next survivor was at its block |
| FinalizedErasure.FinalizedReorgsLeaveNoTrace | crates/primitives/src/time_price_bars/time_price_bars.rs:115-358 | a run that finalizes as it goes, with reorgs no finalized bar reaches, ends in exactly the bars of the surviving observations, those up to the highest finalized window being finalized |
| FinalizedErasure.SameSurvivorsSameSeries | crates/primitives/src/time_price_bars/time_price_bars.rs:115-358 | two such runs with the same survivors and the same frontier end in the same series |
| Retention.TailSees | crates/primitives/src/time_price_bars/indicators.rs:40-46 | with 21 bars kept, all the bars the bands of either of the latest two windows look at are there |
| Retention.InsertFollows | crates/primitives/src/time_price_bars/time_price_bars.rs:171-326 | an insert fails in the bounded series if and only if it fails in the unbounded one, and the bounded one stays its latest part |
| Retention.PruneFollows | crates/primitives/src/time_price_bars/time_price_bars.rs:115-169 | a rollback to a block below which at least 21 bars start, or before any was dropped, fails in both series or in neither and keeps the bounded one the latest part |
| Retention.NeverFullDropsNothing | crates/primitives/src/time_price_bars/time_price_bars.rs:72-78 | a run that never fills the retention is the run without it, rollbacks included |
| Retention.RetentionIsInvisibleAcrossReorgs | crates/primitives/src/time_price_bars/time_price_bars.rs:115-326 | after any run in which at least 21 of the bars held start below each rollback's block, or the retention was never filled before it, the bounded series is exactly the latest bars, indicators and frontier of the unbounded one, and fails exactly when that one does |
| Retention.RetentionIsInvisible | crates/primitives/src/time_price_bars/time_price_bars.rs:171-326 | after any run without rollbacks these are exactly as many bars as are retained |
| Retention.RollbackPastRetentionShows | crates/primitives/src/time_price_bars/time_price_bars.rs:115-169 | a rollback before every bar kept empties the bounded series while the unbounded one keeps the bars dropped |
| RollbackRetention.ComputeAgreesIff | crates/primitives/src/time_price_bars/indicators.rs:35-97 | recomputing a window from part of the bars gives the value from all of them if and only if no window of its bands is missing that is there, nor the bar before it unless that one's average is the window's close |
| RollbackRetention.RollbackIsInvisibleIff | crates/primitives/src/time_price_bars/time_price_bars.rs:115-169 | a rollback of any bounded series and of the unbounded one it is the tail of fails in both or in neither and leaves one the tail of the other if and only if the finalized bar that refuses it was not dropped, some bar kept starts below its block if any does, and recomputing the cut bar misses no dropped one |
| RetentionLimits.RollbackToDroppedWindow | crates/primitives/src/time_price_bars/time_price_bars.rs:72-169 | for every retention of at least 21 bars, a run of one block more than bars retained, one a window, and a rollback to the second leaves nothing of the bounded series and the first window of the unbounded one |
| RetentionLimits.RollbackIntoFirstKeptWindow | crates/primitives/src/time_price_bars/time_price_bars.rs:115-169 | after that run a rollback into the first window kept shows whenever the first two windows close at different prices |
| RetentionLimits.TwentyAreNotEnough | crates/primitives/src/time_price_bars/time_price_bars.rs:72-113 | with twenty bars retained and no rollback, a run over twenty-one windows ends with a bar without the bands that it has without retention |
| Frontier.SeeFailsIff | bin/strategy/src/indexer/time_price_bar_store.rs:86-156 | a block past the frontier, new or reorged, is refused if and only if a finalized bar reaches it; otherwise exactly the bars up to the frontier are final again, which has not moved back |
| Frontier.EveryRunSplitsAtTheFrontier | crates/primitives/src/time_price_bars/time_price_bars.rs:268-358 | after any run of such blocks, bars at or before the frontier are final, later ones pending, and no block between two bars is missing |
| Frontier.ForwardRunNeverFails | crates/primitives/src/time_price_bars/time_price_bars.rs:268-358 | new blocks in order, each finalizing only earlier windows, never fail |
| Frontier.RollbackIntoFinalizedPaddingIsRefused | crates/primitives/src/time_price_bars/time_price_bars.rs:141-150 | after a gap was padded into a window that was then finalized, every rollback into the gap fails |
| Frontier.RollbackPastTheFrontierIsRefused | crates/primitives/src/time_price_bars/time_price_bars.rs:141-150 | a run of blocks 0 and 1000, the second finalizing the first window, refuses a rollback to block 500, three windows past the frontier |
| Frontier.InsertLeavesGapIff | crates/primitives/src/time_price_bars/time_price_bars.rs:182-266 | from bars without a gap, a successful insert leaves one if and only if blocks are missing and the latest block's window is finalized |
| Frontier.GapAfterFinalizedWindow | crates/primitives/src/time_price_bars/time_price_bars.rs:182-266 | block 0 finalizing its own window and then block 1000 leave a gap between two bars |
| FinalizedPadding.PadsWithWholeBar | crates/primitives/src/time_price_bars/time_price_bars.rs:184-266 | when the latest bar is finalized and its padding reaches into a later window, missing blocks open that window with the bar's own open, high, low, close and volume |
| FinalizedPadding.LateInsertPadsWithWholeBar | crates/primitives/src/time_price_bars/time_price_bars.rs:115-358 | blocks 0 and 1, block 1000 finalizing their window and rolled back, then block 1500: blocks 1000 to 1499 get the fold of the first two ticks, which is the latest tick if and only if that one has the first one's open and volume and its range within its own |
| IndicatorBounds.EmaWithinRun | crates/primitives/src/time_price_bars/indicators.rs:70-97 | the average lies between any bounds on the closes of the unbroken run of windows feeding it, under every rounding |
| IndicatorBounds.SlopeSign | crates/primitives/src/time_price_bars/indicators.rs:79-86 | the slope never points away from the close and never overshoots it |
| IndicatorBounds.BandsBounds | crates/primitives/src/time_price_bars/indicators.rs:35-68 | there are bands if and only if all twenty windows have a close; the mean lies within the closes and the bands around it, symmetric unless cut at zero |
| IndicatorBounds.TwentyPrices | crates/primitives/src/time_price_bars/indicators.rs:40-42 | the prices of the bands are the closes of the window and the nineteen before it, in window order |
| IndicatorBounds.BandsOfTwoPrices | crates/primitives/src/time_price_bars/indicators.rs:47-67 | for ten closes at one price and ten a whole number 2w above it the bands are at w, 3w and -w from it, the last one cut at zero |
| IndicatorBounds.IntermediatesFit | crates/primitives/src/time_price_bars/indicators.rs:35-97 | for prices up to 29308 no sum, deviation, square, band or average leaves its 128-bit type, nor does any band computed |
| IndicatorBounds.SumOfSquaresOverflowsAbove | crates/primitives/src/time_price_bars/indicators.rs:49-57 | at 29309 it can: ten closes there and ten at zero sum their squared deviations to 2^32 |
| IndicatorBounds.EveryCachedValueIsMeaningful | crates/primitives/src/time_price_bars/time_price_bars.rs:84-326 | in any state a run without retention reaches, every cached average lies within its run of closes, starts at the first and moves a fifth of the way to each later one, every slope is that move, and bands exist exactly over twenty windows: the mean of their closes and twice the root of a twentieth of their squared distances from it, cut at zero |
| IndicatorBounds.CachedAverageMovesAFifth | crates/primitives/src/time_price_bars/time_price_bars.rs:84-326 | from one cached average to the next a fifth of the way to the close, and the cached slope is that move |
| IndicatorBounds.BoundedCachedValuesAreMeaningful | crates/primitives/src/time_price_bars/time_price_bars.rs:72-326 | the same with retention, over the closes of the whole run, dropped windows included, when at least 21 bars are retained and as many start below each block rolled back to |
| TimePriceBarStore.InsertBlockKeepsValid | bin/strategy/src/indexer/time_price_bar_store.rs:86-195 | after any successful block all pairs are sound, no staleness subtraction underflows, and every pair of the block survives with a bar at the block's window that ends in the block |
| TimePriceBarStore.StalePairsAreDropped | bin/strategy/src/indexer/time_price_bar_store.rs:154-186 | pairs are dropped when more than 150 blocks have passed since the last pruning, and only then: exactly those with no bar later than one more window ago than are retained; the first block only starts the count, and no other pair is changed |
| TimePriceBarStore.StaleIff | crates/primitives/src/time_price_bars/time_price_bars.rs:360-368 | a series is stale if and only if every bar of it is more windows old than are retained |
| TimePriceBarStore.FinalizesWindowBefore | bin/strategy/src/indexer/time_price_bar_store.rs:65-83 | bars are finalized up to the last window before that of the finalized header, or of the block in a backtest, and not at all without a header |
| TimePriceBarStore.BacktestBlockSucceeds | bin/strategy/src/indexer/time_price_bar_store.rs:65-195 | in a backtest a block after the last one is no reorg, always succeeds, and keeps every frontier before its window |
| TimePriceBarStore.ValidFits | bin/strategy/src/indexer/time_price_bar_store.rs:53-196 | on sound pairs and the uniform clock no subtraction of the whole insert underflows |
| TimePriceBarStore.TimePriceBarStore.PruneAll | bin/strategy/src/indexer/time_price_bar_store.rs:97-112 | succeeds if and only if every pair can be rolled back; then exactly the pairs left empty are gone, and otherwise exactly the pairs up to the failing one are changed |
| TimePriceBarStore.TimePriceBarStore.InsertPairs | bin/strategy/src/indexer/time_price_bar_store.rs:125-152 | succeeds if and only if every pair's insert does; then every pair of the block has been inserted and no other has changed, and otherwise exactly the pairs up to the failing one have |
| TimePriceBarStore.TimePriceBarStore.PruneStale | bin/strategy/src/indexer/time_price_bar_store.rs:163-181 | exactly the stale pairs are dropped |
| TimePriceBarStore.TimePriceBarStore.InsertBlock | bin/strategy/src/indexer/time_price_bar_store.rs:53-196 | from any state in which no subtraction underflows: succeeds if and only if the rollback and every insert do, with the state as `AfterBlock`; otherwise the pairs up to the failing one are changed, in hash map order, and nothing else |
| StoreRuns.EveryPairIsARun | bin/strategy/src/indexer/time_price_bar_store.rs:53-196 | after any blocks, reorgs and stale pairs included, the store is sound and holds of each pair exactly what the pair's own inserts and rollbacks leave |
| StoreRuns.StoreLeavesNoTraceIff | bin/strategy/src/indexer/time_price_bar_store.rs:86-152 | after any blocks, reorged ones and ones without the pair included, a pair of the last block has the bars of its surviving ticks alone if and only if every rollback that left padding behind a survivor kept to that survivor's window, or the next survivor was at its block |
| StoreRuns.StoreRetentionIsInvisible | bin/strategy/src/indexer/time_price_bar_store.rs:86-152 | what the store holds of a pair is the latest part of the pair's run without retention, when at least 21 bars start below each block rolled back to, or it never filled its retention |
| StoreRuns.StoreIsBounded | bin/strategy/src/indexer/time_price_bar_store.rs:53-196 | after any blocks no pair has more bars than are retained |
| StoreRuns.StoredValuesAreMeaningful | bin/strategy/src/indexer/time_price_bar_store.rs:86-152 | what the store has cached for a pair means what it should over the closes of the pair's whole run, under the same condition on rollbacks |
| StrategyExecutor.RequestsMatchTrades | bin/strategy/src/strategies/strategy_executor.rs:75-139 | every request opens a token without an active trade or closes the very trade that is open, and would acquire its token on this ledger |
| StrategyExecutor.RequestedIffDecided | bin/strategy/src/strategies/strategy_executor.rs:62-142 | a pair is opened if and only if its token has no active trade and the strategy opens, and a trade is closed if and only if it is the open one and the strategy closes; a pending token gets no request |
| StrategyExecutor.RequestsInOrder | bin/strategy/src/strategies/strategy_executor.rs:62-146 | at most one request for each pair of the message, in the order of the pairs |
| StrategyExecutor.OnIndexedBlockMessage | bin/strategy/src/strategies/strategy_executor.rs:46-190 | the loop over the block's pairs dispatches exactly the requests decided, in order |
| StrategyExecutor.ToMessage | crates/primitives/src/block_message.rs:21-33 | the message has exactly the block's pairs |
| StrategyExecutor.ExecuteStrategyForBlock | bin/strategy/src/indexer/block_range_indexer/block_range_indexer.rs:128-147 | once a block is in, the executor finds bars for every pair of its message, so the missing-bars panic is unreachable, and dispatches exactly the opens and closes decided on the bars just stored and the ledger, each once |
| Backtest.ExecuteInOrder | bin/strategy/src/indexer/block_range_indexer/block_range_indexer.rs:128-147 | executing consecutive blocks from an empty store never fails and never takes the reorg branch |
| Backtest.EveryIndexedBlockSucceeds | bin/strategy/src/indexer/block_range_indexer/block_range_indexer.rs:82-246 | under every interleaving, executing what the indexer has processed so far succeeds for every block |
| Backtest.BacktestHolds | bin/strategy/src/indexer/block_range_indexer/block_range_indexer.rs:56-63 | at every point of a backtest a pair has exactly the latest sixty bars of its run without retention, and their cached indicators mean what they should over all of that run |
| BlockChunk.FetchIsWholeRange | bin/strategy/src/indexer/block_range_indexer/block_chunk.rs:128-147 | a query result that passes the count check is the whole range in order, so either source yields every block once |
| ReorderBuffer.BlockConsumer.HandleChunk | bin/strategy/src/indexer/block_range_indexer/block_range_indexer.rs:178-242 | the imperative loop processes a chunk and all buffered ones that follow, or buffers it, as `Handle` |
| BlockRangeIndexer.DrainKeeps | bin/strategy/src/indexer/block_range_indexer/block_range_indexer.rs:204-233 | draining processes exactly the buffered chunks up to the next missing one, in order, and leaves only later ones |
| BlockRangeIndexer.StepKeepsInvariant | bin/strategy/src/indexer/block_range_indexer/block_range_indexer.rs:82-243 | in every step each chunk pulled and not processed is in exactly one of a worker, the channel and the buffer |
| BlockRangeIndexer.ProcessedInOrder | bin/strategy/src/indexer/block_range_indexer/block_range_indexer.rs:82-243 | in every run the processed blocks are exactly start to next - 1, in order and once each, and the buffer holds only later chunks |
| BlockRangeIndexer.EverythingIsProcessed | bin/strategy/src/indexer/block_range_indexer/block_range_indexer.rs:82-246 | when everything is delivered the whole range was processed once and the buffer is empty |
| BlockRangeIndexer.NeverStuck | bin/strategy/src/indexer/block_range_indexer/block_range_indexer.rs:93-119 | before that some step is always possible, unless a worker failed |
| BlockRangeIndexer.EveryMaximalRunDelivers | bin/strategy/src/indexer/block_range_indexer/block_range_indexer.rs:82-246 | every step uses up a bounded measure, and a run that cannot go on and in which no worker failed has processed the whole range, once and in order |
| BlockRangeIndexer.InFlightIsBounded | bin/strategy/src/indexer/block_range_indexer/block_range_indexer.rs:67-119 | in every run at most fifty chunks are being fetched and at most 360 wait in the channel |
| Trades.SharedTrades.SetActive | bin/strategy/src/trade_controller/trades.rs:66-73 | replaces the active trade, or reports a missing entry and changes nothing |
| Trades.SharedTrades.Close | bin/strategy/src/trade_controller/trades.rs:75-87 | clears the active trade and appends the pair, or reports a missing entry and changes nothing |
| Trades.SharedTrades.BeginOpen | bin/strategy/src/trade_controller/trade_controller.rs:236-253 | marks a free token pending, and refuses one with an active trade without changing it |
| Trades.SharedTrades.BeginClose | bin/strategy/src/trade_controller/trade_controller.rs:135-152 | hands out the open trade and marks it pending, and otherwise puts back what was there |
| TradeController.StepKeepsInvariant | bin/strategy/src/trade_controller/trade_controller.rs:87-327 | every step of any request keeps each token owned by at most one request in flight and its confirmations accounted for |
| TradeController.PositionsAreConserved | bin/strategy/src/trade_controller/trade_controller.rs:87-327 | in every run a token's closed trades pair its confirmed opens and closes in order, and at most one further confirmed open exists, open or held by the closing request |
| TradeController.PendingIffOneInFlight | bin/strategy/src/trade_controller/trade_controller.rs:129-327 | a token is pending if and only if a request about it is in flight, and then only one is |
| TradeController.FailedRequestLeavesNoTrace | bin/strategy/src/trade_controller/trade_controller.rs:154-326 | whichever step of a request fails, under any interleaving, its token's trades are then what they were when it took the token |
| TradeController.SuccessTakesEveryStep | bin/strategy/src/trade_controller/trade_controller.rs:154-326 | a request succeeds only by being acquired, traced, sent and confirmed, each successfully and in this order |
| TradeController.RefusedRequestLeavesNoTrace | bin/strategy/src/trade_controller/trade_controller.rs:135-253 | a request is refused its token if and only if an open finds an active trade or a close finds none open, and changes nothing |
| TradeController.MissingTradeIsUnreachable | bin/strategy/src/trade_controller/trades.rs:66-87 | a request in flight always finds its token's entry |
| PairCache.StepKeepsInvariant | crates/primitives/src/rpc_provider/dex_provider.rs:37-121 | every step of any call keeps each unset entry owned by one running call and every call's view that of the cache |
| PairCache.WaitsOnlyForEarlierRunning | crates/primitives/src/rpc_provider/dex_provider.rs:45-78 | a call waits only for calls that took the lock earlier and are still running: no cycle, and no wake-up lost |
| PairCache.NoDeadlock | crates/primitives/src/rpc_provider/dex_provider.rs:37-121 | while a call is running some running call can go on |
| PairCache.EveryStepCounts | crates/primitives/src/rpc_provider/dex_provider.rs:37-121 | a call adds three steps to those left, and every other step of any call takes one |
| PairCache.EveryCallReturns | crates/primitives/src/rpc_provider/dex_provider.rs:37-121 | no run has more than four steps for each call, and when no call can go on every call has returned |
| PairCache.FetchedOnce | crates/primitives/src/rpc_provider/dex_provider.rs:57-66 | over a whole run each address is fetched by at most one call |
| PairCache.AllCallersAgree | crates/primitives/src/rpc_provider/dex_provider.rs:88-120 | any two calls, whenever they return, return the same pair or the same absence for an address both asked for |
| PairCache.FetcherReturnsWhatItDecoded | crates/primitives/src/rpc_provider/dex_provider.rs:88-120 | the fetching call returns exactly the pairs it decoded, and only inputs |
| PairCache.AsyncValue.GetReceiverOrValue | crates/primitives/src/rpc_provider/async_value.rs:66-72 | the value if set, otherwise a new receiver |
| PairCache.AsyncValue.Set | crates/primitives/src/rpc_provider/async_value.rs:74-79 | stores the value and sends it to every receiver subscribed so far |
| GetPairs.Classify | crates/primitives/src/rpc_provider/dex_provider.rs:42-68 | the loop under the lock sorts each distinct address into known, waited for or claimed, and collects the calls of the claimed ones once |
| GetPairs.ResolveMap | crates/primitives/src/rpc_provider/async_value.rs:16-57 | fails if and only if a sender is gone; otherwise yields exactly the pairs among known and received values, whatever the order |
| GetPairs.FinishCall | crates/primitives/src/rpc_provider/dex_provider.rs:88-120 | the result assembled from decoded and resolved pairs is the one the transition system returns |
| Multicall.FlattenChunks | crates/primitives/src/rpc_provider/multicall.rs:26-27 | flattening the chunks of a list gives the list back |
| Multicall.ChunksFit | crates/primitives/src/rpc_provider/multicall.rs:26-27 | no chunk is empty, none is over fifty calls, and all but the last are full |
| Multicall.Gather | crates/primitives/src/rpc_provider/multicall.rs:48-68 | fails if and only if a chunk does; otherwise the output is all answers in call order, whatever order the chunks finish in |
| Regrouping.Regroup | crates/primitives/src/rpc_provider/dex_provider.rs:80-86 | each target collects the results of its calls, in call order |
| Regrouping.EachPairGetsItsOwn | crates/primitives/src/rpc_provider/dex_provider.rs:49-86 | picking results by target gives each pair exactly the slice of results of its own calls |
| Regrouping.GatherByPair | crates/primitives/src/rpc_provider/dex_provider.rs:70-86 | from chunk tasks finished in any order, each pair gets exactly its own answers, also when its calls straddle a chunk boundary |
| FixedPrice.DirectLosslessIff | crates/primitives/src/fixed.rs:46-67 | the direct square-root price keeps every bit if and only if the root is below 2^112 |
| FixedPrice.InverseLosslessIff | crates/primitives/src/fixed.rs:46-55 | the inverse price keeps every bit if and only if the root is above 2^80 |
| FixedPrice.SqrtPricesAreMonotone | crates/primitives/src/fixed.rs:46-67 | the direct price is monotone in the root and the inverse one antitone |
| FixedPrice.PricesAreInverse | crates/primitives/src/fixed.rs:46-67 | their product is at most 2^192, and with one unit added to each it exceeds 2^192 |
| FixedPrice.FractionKeepsLowBits | crates/primitives/src/fixed.rs:29-44 | a fraction's price is the low 128 bits of its scaled quotient |
| FixedPrice.SqrtKeepsLowBits | crates/primitives/src/fixed.rs:56-66 | a root's price is the low 128 bits of the square of its own low 128 bits |
| FixedPrice.InverseKeepsLowBits | crates/primitives/src/fixed.rs:46-55 | an inverse price is the low 128 bits of the quotient |
| UniswapV2.OutputIsLargest | crates/primitives/src/dex/uniswap_v2/abi/uniswap_v2_router.rs:30-36 | an output keeps the fee-adjusted product if and only if it is at most the quoted one (section 3.2.1 of the Uniswap v2 Core whitepaper) |
| UniswapV2.PaysLessThanReserve | crates/primitives/src/dex/uniswap_v2/abi/uniswap_v2_router.rs:30-36 | the quote is below the output reserve |
| UniswapV2.NeverOverflows | crates/primitives/src/dex/uniswap_v2/abi/uniswap_v2_router.rs:30-36 | for 112-bit reserves and inputs no intermediate reaches 2^256 |
| UniswapV2.RoundTripLoses | crates/primitives/src/dex/uniswap_v2/pair.rs:198-263 | selling what was bought on the reserves the purchase left pays back strictly less |
| UniswapV2.OpenThenCloseLoses | crates/primitives/src/dex/uniswap_v2/pair.rs:185-279 | a simulated open followed by its close sells exactly the tokens bought and returns strictly less ether, for either token order |
| UniswapV2.SimulationKeepsProduct | crates/primitives/src/dex/uniswap_v2/pair.rs:198-263 | no simulated trade lowers the product of the reserves |
| UniswapV2.SimulationBalances | crates/primitives/src/dex/uniswap_v2/pair.rs:198-278 | the reported reserves differ from the fetched ones by exactly the reported amounts |
| UniswapV2.SimulationPaysMost | crates/primitives/src/dex/uniswap_v2/pair.rs:185-279 | for either token order an open puts in the most ether its two limits allow and takes the most tokens the pool can pay, a close sells what its open took for the most ether, nothing else moves, and only a v3 close is refused |
| UniswapV2.EthAmountInIsLargest | crates/primitives/src/dex/uniswap_v2/pair.rs:110-120 | the amount put in is the largest of at most half a percent of the reserve and at most one ether |
| UniswapV2.SimulationRecoversReserves | crates/primitives/src/dex/uniswap_v2/indexed_trade.rs:65-84 | the price before a simulated trade is the price at the fetched reserves, for either token order, and the volume is the ether put in or paid out |
| UniswapV2.BeforeUndoesTrade | crates/primitives/src/dex/uniswap_v2/indexed_trade.rs:75-78 | the reserve before a trade is read back from the one after it, wrap-around included |
| UniswapV2.PriceAfterIsNextPriceBefore | crates/primitives/src/dex/uniswap_v2/indexed_trade.rs:75-92 | the price after a trade is the price before any trade that starts from the reserves it left |
| UniswapV2.PriceAfterSimulationIff | crates/primitives/src/dex/uniswap_v2/indexed_trade.rs:86-92 | the price after a simulated trade is that of the ether and tokens it left, rounded down to 2^-96, if and only if that is below 2^32; for either token order |
| UniswapV2.OpenHasBoundedPriceImpact | crates/primitives/src/dex/uniswap_v2/indexed_trade.rs:75-92 | with prices below 2^32 a simulated open never lowers the price and raises it by less than the factor 1.005 * 1.004985, up to one unit of rounding |

## Left out

- IndicatorBounds.IntermediatesFit: says nothing about prices above 29308, where the sum of the twenty squared deviations can leave the unsigned type and the source would wrap or panic.
- Retention.RetentionIsInvisibleAcrossReorgs: over a whole run the condition on rollbacks is sufficient only; `RollbackRetention.RollbackIsInvisibleIff` is exact for one rollback, but later inserts can drop or recompute the bars in which it shows.
- RollbackRuns.RollbacksLeaveNoTraceIff: nothing is finalized in the run, and no retention limit.
- StoreRuns.StoreLeavesNoTraceIff: nothing is finalized, and the pair never filled its retention.
- ReorgErasure.ReorgsLeaveNoTrace: no finalization and no retention limit; `FinalizedErasure` and `Retention` lift each of the two.
- PairCache.WaitsOnlyForEarlierRunning: multicalls succeed and no entry is evicted; otherwise an entry can stay unset for good.
- UniswapV2.NeverOverflows: amounts and reserves of 112 bits, the range of the pool's own reserves; wider values a caller could pass wrap around in the source.
- Bars are values that a pending bar object is made from and written back to, not objects shared with the map; aliasing between the map and a bar is not modelled.
- Locks are modelled as atomic steps; lock poisoning, fairness and the scheduling of tasks are not.
- Database rows are taken to arrive in number order, which the query does not ask for.
- RPC, SQL, HTTP routes, ABI encoding, logging, configuration and wallet code.
- The chain's own truth against the ledger, such as a transaction confirmed after its receipt timed out.
- The decoding of a pair's results, and which pairs it rejects.
- Uniswap v3 quoting and pricing: quoting is remote, and the price before a trade is an approximation without a clean specification.
- The momentum strategy: any pair of decisions on a series stands in for it. The `local` build feature that restricts the executor to one pair is off.
- `TTLCache`, the block provider's cache, identifier parsing and type conversions.
- The accessors of bars and the chart range query, which only read.
