/** A whole backtest: the range indexer drives the store, block by block. */
module Backtest {
  import opened Wrappers
  import opened FixedPoint
  import opened SeriesInvariants
  import opened InsertOutcome
  import opened Indicators
  import opened SeriesRuns
  import opened IndicatorBounds
  import opened BlockChunk
  import S = BarSeries
  import Store = TimePriceBarStore
  import StoreRuns
  import Retention
  import Indexer = BlockRangeIndexer

  /** The number of bars `BlockRangeIndexer::new` retains per pair. */
  const RETENTION: nat := 60

  /** The blocks of the chain, by number, on the uniform clock. */
  ghost function BlockAt(t0: nat, ticks: nat -> map<Store.Address, Store.PairTick>, n: nat): Store.Block {
    Store.Block(n, BlockTime(t0, n), ticks(n))
  }

  /** The store after executing the given block numbers in order; `None` when one fails. */
  ghost function Execute(config: S.Config, t0: nat, ticks: nat -> map<Store.Address, Store.PairTick>, numbers: seq<nat>): Option<Store.State>
    decreases |numbers|
  {
    if !Clock(t0) then None
    else if numbers == [] then Some(Store.EmptyState)
    else
      var before := Execute(config, t0, ticks, numbers[..|numbers| - 1]);
      if before.None? then None
      else
        var block := BlockAt(t0, ticks, numbers[|numbers| - 1]);
        var finalized := Store.FinalizedWindow(true, block.timestamp, None);
        if Store.InsertBlockOk(config, before.value, block, finalized) then
          Some(Store.AfterBlock(config, before.value, block, finalized))
        else None
  }

  lemma {:induction false} ExecuteNext(config: S.Config, t0: nat, ticks: nat -> map<Store.Address, Store.PairTick>, lo: nat, hi: nat)
    requires Clock(t0) && lo < hi && Execute(config, t0, ticks, Numbers(lo, hi - 1)).Some?
    requires var st := Execute(config, t0, ticks, Numbers(lo, hi - 1)).value;
             Store.InsertBlockOk(config, st, BlockAt(t0, ticks, hi - 1), Store.FinalizedWindow(true, BlockTime(t0, hi - 1), None))
    ensures var st := Execute(config, t0, ticks, Numbers(lo, hi - 1)).value;
            Execute(config, t0, ticks, Numbers(lo, hi)) ==
              Some(Store.AfterBlock(config, st, BlockAt(t0, ticks, hi - 1), Store.FinalizedWindow(true, BlockTime(t0, hi - 1), None)))
  {
    hide Store.InsertBlockOk;
    hide Store.AfterBlock;
    hide Store.FinalizedWindow;
    var numbers := Numbers(lo, hi);
    assert numbers[..|numbers| - 1] == Numbers(lo, hi - 1);
  }

  /** A store the backtest is in takes the next block, without a reorg. */
  lemma NextBlockSucceeds(t0: nat, rounding: Rounding, ticks: nat -> map<Store.Address, Store.PairTick>, st: Store.State, n: nat)
    requires Clock(t0) && Store.BacktestValid(t0, st) && !Store.IsReorg(st, n)
    ensures var config := Store.PairConfig(RETENTION, rounding);
            var block := BlockAt(t0, ticks, n);
            var finalized := Store.FinalizedWindow(true, block.timestamp, None);
            && Store.InsertBlockOk(config, st, block, finalized)
            && var r := Store.AfterBlock(config, st, block, finalized);
               && Store.BacktestValid(t0, r) && r.lastInserted == Some(n)
               && forall a :: a in ticks(n) ==> a in r.bars && EndsIn(t0, r.bars[a].data, n)
  {
    hide EndsIn;
    hide Store.InsertBlockOk;
    hide Store.BacktestValid;
    hide Store.AfterBlock;
    hide Store.FinalizedWindow;
    var config := Store.PairConfig(RETENTION, rounding);
    var block := BlockAt(t0, ticks, n);
    Store.BacktestBlockSucceeds(config, t0, st, block);
    BacktestIsValid(t0, st);
    Store.InsertBlockKeepsValid(config, t0, st, block, Store.FinalizedWindow(true, block.timestamp, None));
  }

  lemma ExecuteNone(config: S.Config, t0: nat, ticks: nat -> map<Store.Address, Store.PairTick>, numbers: seq<nat>)
    requires Clock(t0) && numbers == []
    ensures Execute(config, t0, ticks, numbers) == Some(Store.EmptyState)
  {
  }

  /** Executing consecutive blocks never fails and never sees a reorg. */
  lemma {:induction false} ExecuteInOrder(t0: nat, rounding: Rounding, ticks: nat -> map<Store.Address, Store.PairTick>, lo: nat, hi: nat)
    requires Clock(t0) && lo <= hi
    ensures var r := Execute(Store.PairConfig(RETENTION, rounding), t0, ticks, Numbers(lo, hi));
            && r.Some?
            && Store.BacktestValid(t0, r.value)
            && (if lo == hi then r.value == Store.EmptyState else r.value.lastInserted == Some(hi - 1))
            && !Store.IsReorg(r.value, hi)
            && (lo < hi ==> forall a :: a in ticks(hi - 1) ==> a in r.value.bars && EndsIn(t0, r.value.bars[a].data, hi - 1))
    decreases hi - lo
  {
    hide EndsIn;
    hide Store.InsertBlockOk;
    hide Store.BacktestValid;
    hide Store.AfterBlock;
    hide Store.FinalizedWindow;
    hide Execute;
    hide Numbers;
    if lo < hi {
      ExecuteInOrder(t0, rounding, ticks, lo, hi - 1);
      var config := Store.PairConfig(RETENTION, rounding);
      var st := Execute(config, t0, ticks, Numbers(lo, hi - 1)).value;
      NextBlockSucceeds(t0, rounding, ticks, st, hi - 1);
      ExecuteNext(config, t0, ticks, lo, hi);
    } else {
      ExecuteNone(Store.PairConfig(RETENTION, rounding), t0, ticks, Numbers(lo, hi));
      EmptyBacktest(t0);
    }
  }

  lemma BacktestIsValid(t0: nat, st: Store.State)
    requires Store.BacktestValid(t0, st)
    ensures Store.Valid(t0, st)
  {
  }

  lemma EmptyBacktest(t0: nat)
    requires Clock(t0)
    ensures Store.BacktestValid(t0, Store.EmptyState)
  {
  }

  /**
    However the fifty workers and the channel interleave, executing what the indexer has processed
    so far succeeds for every block, none is a reorg, and the latest block's pairs all have bars
    that end in it.
   */
  lemma EveryIndexedBlockSucceeds(range: Indexer.Range, states: seq<Indexer.State>, events: seq<Indexer.Event>, i: nat,
                                  t0: nat, rounding: Rounding, ticks: nat -> map<Store.Address, Store.PairTick>)
    requires range.start <= range.end && Indexer.IsRun(range, states, events) && i < |states| && Clock(t0)
    ensures var c := states[i].consumer;
            var r := Execute(Store.PairConfig(RETENTION, rounding), t0, ticks, c.processed);
            && r.Some?
            && Store.BacktestValid(t0, r.value)
            && (c.processed != [] ==>
                  var last := c.processed[|c.processed| - 1];
                  && r.value.lastInserted == Some(last)
                  && forall a :: a in ticks(last) ==> a in r.value.bars && EndsIn(t0, r.value.bars[a].data, last))
  {
    hide EndsIn;
    hide Store.BacktestValid;
    hide Execute;
    Indexer.ProcessedInOrder(range, states, events, i);
    ExecuteInOrder(t0, rounding, ticks, range.start, states[i].consumer.next);
  }

  // ---- what it holds ----------------------------------------------------------------------

  /** The blocks of a backtest as the store takes them. */
  ghost function FeedsOf(t0: nat, ticks: nat -> map<Store.Address, Store.PairTick>, numbers: seq<nat>): (r: seq<StoreRuns.Feed>)
    requires Clock(t0)
    ensures |r| == |numbers|
    ensures forall i :: 0 <= i < |r| ==>
              r[i] == StoreRuns.Feed(BlockAt(t0, ticks, numbers[i]), Store.FinalizedWindow(true, BlockTime(t0, numbers[i]), None))
  {
    seq(|numbers|, i requires 0 <= i < |numbers| =>
      StoreRuns.Feed(BlockAt(t0, ticks, numbers[i]), Store.FinalizedWindow(true, BlockTime(t0, numbers[i]), None)))
  }

  lemma {:induction false} ExecuteIsStoreRun(config: S.Config, t0: nat, ticks: nat -> map<Store.Address, Store.PairTick>, numbers: seq<nat>)
    requires Clock(t0)
    ensures Execute(config, t0, ticks, numbers) == StoreRuns.StoreRun(config, FeedsOf(t0, ticks, numbers))
    decreases |numbers|
  {
    hide Store.InsertBlockOk, Store.AfterBlock, Store.FinalizedWindow;
    if numbers != [] {
      var front := numbers[..|numbers| - 1];
      ExecuteIsStoreRun(config, t0, ticks, front);
      var feeds := FeedsOf(t0, ticks, numbers);
      assert feeds[..|feeds| - 1] == FeedsOf(t0, ticks, front);
    }
  }

  /** Without reorgs a pair's run is inserts only. */
  lemma {:induction false} OnlyInserts(t0: nat, rounding: Rounding, ticks: nat -> map<Store.Address, Store.PairTick>, lo: nat, hi: nat, a: Store.Address)
    requires Clock(t0) && lo <= hi
    ensures var config := Store.PairConfig(RETENTION, rounding);
            var feeds := FeedsOf(t0, ticks, Numbers(lo, hi));
            StoreRuns.StoreRun(config, feeds).Some? && Retention.NoReorgs(StoreRuns.OpsOf(config, feeds, a))
    decreases hi - lo
  {
    hide Store.FinalizedWindow, Store.BacktestValid, Store.IsReorg, Execute, FeedsOf, Numbers, StoreRuns.StoreRun, StoreRuns.OpsOf, Retention.NoReorgs;
    var config := Store.PairConfig(RETENTION, rounding);
    ExecuteInOrder(t0, rounding, ticks, lo, hi);
    ExecuteIsStoreRun(config, t0, ticks, Numbers(lo, hi));
    var feeds := FeedsOf(t0, ticks, Numbers(lo, hi));
    if lo < hi {
      OnlyInserts(t0, rounding, ticks, lo, hi - 1, a);
      ExecuteInOrder(t0, rounding, ticks, lo, hi - 1);
      ExecuteIsStoreRun(config, t0, ticks, Numbers(lo, hi - 1));
      NumbersFront(lo, hi);
      assert feeds[..|feeds| - 1] == FeedsOf(t0, ticks, Numbers(lo, hi - 1));
      assert feeds[|feeds| - 1].block.number == hi - 1;
      StoreRuns.NoReorgAddsNoPrune(config, feeds, a);
    } else {
      StoreRuns.NoFeedsNoOps(config, feeds, a);
    }
  }

  lemma NumbersFront(lo: nat, hi: nat)
    requires lo < hi
    ensures Numbers(lo, hi) != [] && Numbers(lo, hi)[..|Numbers(lo, hi)| - 1] == Numbers(lo, hi - 1)
    ensures Numbers(lo, hi)[|Numbers(lo, hi)| - 1] == hi - 1
  {
  }

  /**
    At every point of a backtest a pair has exactly the latest sixty bars of its run without
    retention, since the store last held nothing of it, and the indicators cached in them mean what
    they should over all closes of that run.
   */
  lemma BacktestHolds(t0: nat, rounding: Rounding, ticks: nat -> map<Store.Address, Store.PairTick>, lo: nat, hi: nat, a: Store.Address)
    requires Clock(t0) && lo <= hi
    ensures var config := Store.PairConfig(RETENTION, rounding);
            var r := Execute(config, t0, ticks, Numbers(lo, hi));
            && r.Some? && StoreRuns.StoreRun(config, FeedsOf(t0, ticks, Numbers(lo, hi))).Some?
            && (a in r.value.bars ==>
                  && |r.value.bars[a].data| <= 60
                  && var ops := StoreRuns.OpsOf(config, FeedsOf(t0, ticks, Numbers(lo, hi)), a);
                     var unbounded := Run(S.Config(None, true, rounding), t0, ops);
                     && unbounded.Some?
                     && r.value.bars[a] == Retention.Latest(unbounded.value, 60)
                     && forall k :: k in r.value.bars[a].data ==>
                          && r.value.bars[a].data[k].Indicators().Some?
                          && Meaningful(rounding, Closes(unbounded.value.data), k, r.value.bars[a].data[k].Indicators().value))
  {
    hide Store.FinalizedWindow, Store.BacktestValid, Execute, FeedsOf, Numbers, StoreRuns.StoreRun, StoreRuns.OpsOf, Meaningful, Run;
    var config := Store.PairConfig(RETENTION, rounding);
    var numbers := Numbers(lo, hi);
    ExecuteInOrder(t0, rounding, ticks, lo, hi);
    ExecuteIsStoreRun(config, t0, ticks, numbers);
    OnlyInserts(t0, rounding, ticks, lo, hi, a);
    var feeds := FeedsOf(t0, ticks, numbers);
    assert StoreRuns.Timed(t0, feeds) by { FeedsTimed(t0, ticks, numbers); }
    if a in StoreRuns.StoreRun(config, feeds).value.bars {
      StoreRuns.StoreIsBounded(config, t0, feeds, a);
      Retention.NoReorgsKeepsEnough(config, t0, RETENTION, StoreRuns.OpsOf(config, feeds, a));
      StoreRuns.StoredValuesAreMeaningful(config, t0, RETENTION, feeds, a);
      StoreRuns.EveryPairIsARun(config, t0, feeds, a);
      Retention.RetentionIsInvisible(config, t0, StoreRuns.OpsOf(config, feeds, a));
    }
  }

  lemma FeedsTimed(t0: nat, ticks: nat -> map<Store.Address, Store.PairTick>, numbers: seq<nat>)
    requires Clock(t0)
    ensures StoreRuns.Timed(t0, FeedsOf(t0, ticks, numbers))
  {
    hide Store.FinalizedWindow;
  }
}
