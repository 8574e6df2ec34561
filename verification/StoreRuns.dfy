/** Whole runs of blocks: what the store holds of each pair is a run of inserts and rollbacks on that pair alone. */
module StoreRuns {
  import opened Wrappers
  import opened OrderedMaps
  import opened TickData
  import opened TimePriceBar
  import opened ResolutionTimestamp
  import opened Indicators
  import opened BarSeries
  import opened SeriesInvariants
  import opened SeriesRuns
  import opened ReorgErasure
  import opened RollbackRuns
  import opened Store = TimePriceBarStore
  import IndicatorBounds
  import InsertOutcome
  import ReorgPrune
  import Retention

  /** A block, and the window up to which its insert may finalize. */
  datatype Feed = Feed(block: Block, finalized: Option<nat>)

  /** The blocks from the first to the last, in whatever order of numbers; `None` once one fails. */
  ghost function StoreRun(config: Config, feeds: seq<Feed>): Option<State>
    decreases |feeds|
  {
    if feeds == [] then Some(EmptyState)
    else
      var before, f := StoreRun(config, feeds[..|feeds| - 1]), feeds[|feeds| - 1];
      if before.Some? && InsertBlockOk(config, before.value, f.block, f.finalized) then
        Some(AfterBlock(config, before.value, f.block, f.finalized))
      else None
  }

  /** Every block comes at its time. */
  ghost predicate Timed(t0: nat, feeds: seq<Feed>) {
    forall i :: 0 <= i < |feeds| ==> feeds[i].block.timestamp == BlockTime(t0, feeds[i].block.number)
  }

  /** What a block does to a pair, after `ops`. */
  ghost function StepOps(config: Config, st: State, f: Feed, a: Address, ops: seq<Op>): seq<Op>
    requires InsertBlockOk(config, st, f.block, f.finalized)
  {
    var n := f.block.number;
    var rolledBack := if IsReorg(st, n) && a in st.bars then ops + [Prune(n)] else ops;
    var kept := if a in RolledBack(config, st, n) then rolledBack else [];
    var inserted := if a in f.block.pairTicks then kept + [Insert(n, f.block.pairTicks[a].tick, f.finalized)] else kept;
    if a in AfterBlock(config, st, f.block, f.finalized).bars then inserted else []
  }

  /** The inserts and rollbacks of a pair since the store last held nothing of it. */
  ghost function OpsOf(config: Config, feeds: seq<Feed>, a: Address): seq<Op>
    requires StoreRun(config, feeds).Some?
    decreases |feeds|
  {
    if feeds == [] then []
    else
      var front, f := feeds[..|feeds| - 1], feeds[|feeds| - 1];
      StepOps(config, StoreRun(config, front).value, f, a, OpsOf(config, front, a))
  }

  /** The rollback of the block, on one pair. */
  lemma RolledBackIsRun(config: Config, t0: nat, st: State, n: nat, a: Address, ops: seq<Op>)
    requires RollbackOk(config, st, n) && Run(config, t0, ops) == Some(Held(st.bars, a))
    ensures a in RolledBack(config, st, n) ==>
              Run(config, t0, if IsReorg(st, n) && a in st.bars then ops + [Prune(n)] else ops) == Some(Held(RolledBack(config, st, n), a))
  {
    hide Run, PruneToReorgedBlockNumber;
    if IsReorg(st, n) && a in st.bars {
      RunSnoc(config, t0, ops, Prune(n));
    }
  }

  /** The insert of the block, on one pair. */
  lemma InsertedIsRun(config: Config, t0: nat, bars: AllBars, f: Feed, a: Address, ops: seq<Op>)
    requires Clock(t0) && Ready(t0, bars, f.block.number) && f.block.timestamp == BlockTime(t0, f.block.number)
    requires a in f.block.pairTicks && InsertOk(config, bars, f.block, f.finalized, a)
    requires Run(config, t0, ops) == Some(Held(bars, a))
    ensures Run(config, t0, ops + [Insert(f.block.number, f.block.pairTicks[a].tick, f.finalized)])
              == Some(Inserted(config, bars, f.block, f.finalized, a).series)
  {
    hide Run, InsertData, PadFits, Structural, BlockTime;
    RunSnoc(config, t0, ops, Insert(f.block.number, f.block.pairTicks[a].tick, f.finalized));
  }

  /** One block takes each pair's run on by that pair's part of it. */
  lemma StepIsRun(config: Config, t0: nat, st: State, f: Feed, a: Address, ops: seq<Op>)
    requires Valid(t0, st) && f.block.timestamp == BlockTime(t0, f.block.number)
    requires InsertBlockOk(config, st, f.block, f.finalized) && Run(config, t0, ops) == Some(Held(st.bars, a))
    ensures Run(config, t0, StepOps(config, st, f, a, ops)) == Some(Held(AfterBlock(config, st, f.block, f.finalized).bars, a))
  {
    hide Run, Inserted, InsertOk, Store.IsStale, BlockTime, Valid, Ready, RolledBack;
    var n := f.block.number;
    var bars := RolledBack(config, st, n);
    RunNothing(config, t0);
    RolledBackIsRun(config, t0, st, n, a, ops);
    RolledBackReady(config, t0, st, n);
    ValidClock(t0, st);
    if a in f.block.pairTicks {
      var kept := if a in bars then if IsReorg(st, n) && a in st.bars then ops + [Prune(n)] else ops else [];
      InsertedIsRun(config, t0, bars, f, a, kept);
    }
  }

  /** A block that is no reorg rolls no pair back. */
  lemma NoReorgAddsNoPrune(config: Config, feeds: seq<Feed>, a: Address)
    requires feeds != [] && StoreRun(config, feeds).Some?
    requires var front := feeds[..|feeds| - 1];
             && Retention.NoReorgs(OpsOf(config, front, a))
             && !IsReorg(StoreRun(config, front).value, feeds[|feeds| - 1].block.number)
    ensures Retention.NoReorgs(OpsOf(config, feeds, a))
  {
    hide AfterBlock, InsertBlockOk, RolledBack;
  }

  lemma NoFeedsNoOps(config: Config, feeds: seq<Feed>, a: Address)
    requires feeds == []
    ensures StoreRun(config, feeds).Some? && Retention.NoReorgs(OpsOf(config, feeds, a))
  {
  }

  /**
    After any blocks, reorgs and stale pairs included, the store holds of each pair exactly what the
    pair's own inserts and rollbacks leave, so every result on one pair's runs is one on the store's.
   */
  lemma {:induction false} EveryPairIsARun(config: Config, t0: nat, feeds: seq<Feed>, a: Address)
    requires Clock(t0) && config.computeIndicators && Timed(t0, feeds) && StoreRun(config, feeds).Some?
    ensures Valid(t0, StoreRun(config, feeds).value)
    ensures Run(config, t0, OpsOf(config, feeds, a)) == Some(Held(StoreRun(config, feeds).value.bars, a))
    decreases |feeds|
  {
    hide Valid, Run, StepOps, AfterBlock, InsertBlockOk, BlockTime, InsertOutcome.EndsIn, BarSeries.IsStaleFits;
    if feeds == [] {
      RunNothing(config, t0);
      EmptyIsValid(t0);
    } else {
      var front, f := feeds[..|feeds| - 1], feeds[|feeds| - 1];
      EveryPairIsARun(config, t0, front, a);
      var st := StoreRun(config, front).value;
      StepIsRun(config, t0, st, f, a, OpsOf(config, front, a));
      InsertBlockKeepsValid(config, t0, st, f.block, f.finalized);
    }
  }

  lemma EmptyIsValid(t0: nat)
    requires Clock(t0)
    ensures Valid(t0, EmptyState)
  {
  }

  // ---- how much is held -------------------------------------------------------------------

  lemma InsertIsBounded(config: Config, t0: nat, s: Series, n: nat, tick: Tick, finalized: Option<nat>)
    requires Clock(t0) && Invariant(t0, s) && AllBelow(s.data, n) && PadFits(s.data, n, BlockTime(t0, n))
    requires config.retentionCount.Some?
    ensures var r := InsertData(config, s, n, tick, BlockTime(t0, n), finalized);
            r.error.None? ==> |r.series.data| <= config.retentionCount.value
  {
    hide Structural, Pad, Place, UpdateAll, Finalize, PopTo, InsertData, BarSeries.PadFits, OwnWindow;
    InsertOutcome.InsertUnfolds(config, t0, s, n, tick, finalized);
    InsertOutcome.PadThenPlace(t0, s, n, tick);
    var padded := Pad(s.data, n, BlockTime(t0, n));
    var placed := Place(padded.data, n, tick, OwnWindow(t0, n));
    if placed.Ok? {
      var kept := PopTo(placed.value, config.retentionCount.value);
      PopToKeepsLatest(placed.value, config.retentionCount.value);
      var updated := padded.updated + [OwnWindow(t0, n)];
      UpdateAllKeeps(config, kept, updated);
      var after := UpdateAll(config, kept, updated);
      Retention.SameSizes(kept, after.data);
      if after.error.None? {
        FinalizeKeepsKeys(s.(data := after.data), finalized);
        Retention.SameSizes(after.data, Finalize(s.(data := after.data), finalized).series.data);
      }
    }
  }

  lemma {:induction false} FinalizeRangeKeepsKeys(data: Bars, lo: nat, hi: nat)
    ensures FinalizeRange(data, lo, hi).data.Keys == data.Keys
    decreases hi - lo + 1
  {
    var range := set k | k in data.Keys && lo <= k <= hi;
    if range != {} {
      var k := Min(range);
      if data[k].PendingBar? && AsFinalized(data[k].pending).Some? {
        var after := data[k := FinalizedBar(AsFinalized(data[k].pending).value)];
        assert after.Keys == data.Keys;
        FinalizeRangeKeepsKeys(after, k + 1, hi);
      }
    }
  }

  lemma FinalizeKeepsKeys(s: Series, finalized: Option<nat>)
    ensures Finalize(s, finalized).series.data.Keys == s.data.Keys
  {
    hide FinalizeRange;
    if finalized.Some? {
      FinalizeRangeKeepsKeys(s.data, if s.lastFinalized.Some? then s.lastFinalized.value + OFFSET else 0, finalized.value);
    }
  }

  /** After any run, rollbacks included, no more bars are held than are retained. */
  lemma {:induction false} RunIsBounded(config: Config, t0: nat, ops: seq<Op>)
    requires Clock(t0) && config.retentionCount.Some? && Run(config, t0, ops).Some?
    ensures |Run(config, t0, ops).value.data| <= config.retentionCount.value
    decreases |ops|
  {
    hide InsertData, PruneToReorgedBlockNumber, Structural, BarSeries.PadFits;
    if ops != [] {
      var front, op := ops[..|ops| - 1], ops[|ops| - 1];
      RunIsBounded(config, t0, front);
      EveryRunIsSound(config, t0, front);
      var s := Run(config, t0, front).value;
      match op
      case Insert(n, tick, finalized) => InsertIsBounded(config, t0, s, n, tick, finalized);
      case Prune(n) => RollbackIsSmaller(config, t0, s, n);
    }
  }

  lemma RollbackIsSmaller(config: Config, t0: nat, s: Series, n: nat)
    requires Invariant(t0, s) && PruneToReorgedBlockNumber(config, s, n).error.None?
    ensures |PruneToReorgedBlockNumber(config, s, n).series.data| <= |s.data|
  {
    hide Structural, PruneToReorgedBlockNumber, ReorgPrune.FinalizedReaches;
    ReorgPrune.PruneIsExact(config, t0, s, n);
    var r := PruneToReorgedBlockNumber(config, s, n).series.data;
    InsertOutcome.SubsetSize(r.Keys, s.data.Keys);
    assert |r| == |r.Keys| && |s.data| == |s.data.Keys|;
  }

  /** The store holds at most as many bars of a pair as it was told to retain. */
  lemma StoreIsBounded(config: Config, t0: nat, feeds: seq<Feed>, a: Address)
    requires Clock(t0) && config.computeIndicators && Timed(t0, feeds) && StoreRun(config, feeds).Some?
    requires config.retentionCount.Some? && a in StoreRun(config, feeds).value.bars
    ensures |StoreRun(config, feeds).value.bars[a].data| <= config.retentionCount.value
  {
    hide Run, Valid, OpsOf, BlockTime;
    EveryPairIsARun(config, t0, feeds, a);
    RunIsBounded(config, t0, OpsOf(config, feeds, a));
  }

  // ---- no trace ---------------------------------------------------------------------------

  /** The chain has finalized nothing yet. */
  ghost predicate NothingFinal(feeds: seq<Feed>) {
    forall i :: 0 <= i < |feeds| ==> feeds[i].finalized == None
  }

  lemma {:induction false} OpsUnfinalized(config: Config, feeds: seq<Feed>, a: Address)
    requires NothingFinal(feeds) && StoreRun(config, feeds).Some?
    ensures Unfinalized(OpsOf(config, feeds, a))
    decreases |feeds|
  {
    hide AfterBlock, InsertBlockOk, RolledBack;
    if feeds != [] {
      OpsUnfinalized(config, feeds[..|feeds| - 1], a);
    }
  }

  /** A pair of the last block has just been inserted. */
  lemma LastOpIsInsert(config: Config, t0: nat, feeds: seq<Feed>, a: Address)
    requires Clock(t0) && config.computeIndicators && Timed(t0, feeds) && StoreRun(config, feeds).Some?
    requires feeds != [] && a in feeds[|feeds| - 1].block.pairTicks
    ensures a in StoreRun(config, feeds).value.bars
    ensures var ops := OpsOf(config, feeds, a);
            ops != [] && ops[|ops| - 1].Insert?
  {
    hide Valid, Run, AfterBlock, InsertBlockOk, BlockTime, InsertOutcome.EndsIn, BarSeries.IsStaleFits, RolledBack;
    var front, f := feeds[..|feeds| - 1], feeds[|feeds| - 1];
    EveryPairIsARun(config, t0, front, a);
    InsertBlockKeepsValid(config, t0, StoreRun(config, front).value, f.block, f.finalized);
  }

  /**
    After any blocks, reorged ones and ones that miss pairs included, a pair of the last block has
    the bars of a store that only ever saw the pair's surviving ticks exactly when each rollback that
    left padding behind the pair's last survivor kept to that survivor's window, or the next survivor
    was at its block. The pair's bars never filled the retention, and nothing was finalized.
   */
  lemma StoreLeavesNoTraceIff(config: Config, t0: nat, feeds: seq<Feed>, a: Address)
    requires Clock(t0) && config.computeIndicators && Timed(t0, feeds) && NothingFinal(feeds) && StoreRun(config, feeds).Some?
    requires feeds != [] && a in feeds[|feeds| - 1].block.pairTicks
    requires config.retentionCount.Some? && config.retentionCount.value >= Retention.ENOUGH
    requires Retention.NeverFull(config, t0, OpsOf(config, feeds, a))
    ensures a in StoreRun(config, feeds).value.bars
    ensures var trail := TrailOf(OpsOf(config, feeds, a));
            Some(StoreRun(config, feeds).value.bars[a]) == ObserveAll(Retention.Unbounded(config), t0, Seen(trail)) <==> SeamsOk(t0, trail)
  {
    hide Run, Valid, StepOps, AfterBlock, InsertBlockOk, BlockTime, OpsOf, ObserveAll, SeamsOk, TrailOf;
    var ops := OpsOf(config, feeds, a);
    EveryPairIsARun(config, t0, feeds, a);
    OpsUnfinalized(config, feeds, a);
    LastOpIsInsert(config, t0, feeds, a);
    Retention.NeverFullDropsNothing(config, t0, ops);
    RollbacksLeaveNoTraceIff(Retention.Unbounded(config), t0, ops);
  }

  /** The same for a store that drops bars: what it has of the pair is the latest of the pair's bars without retention. */
  lemma StoreRetentionIsInvisible(config: Config, t0: nat, count: nat, feeds: seq<Feed>, a: Address)
    requires Clock(t0) && config.computeIndicators && Timed(t0, feeds) && StoreRun(config, feeds).Some?
    requires Retention.Retains(config, count) && a in StoreRun(config, feeds).value.bars
    requires Retention.KeepsEnough(config, t0, count, OpsOf(config, feeds, a))
    ensures var bars := StoreRun(config, feeds).value.bars[a];
            var unbounded := Run(Retention.Unbounded(config), t0, OpsOf(config, feeds, a));
            && unbounded.Some? && bars == Retention.Latest(unbounded.value, |bars.data|)
            && (|bars.data| >= count || |bars.data| == |unbounded.value.data|)
  {
    hide Run, Valid, OpsOf, BlockTime;
    EveryPairIsARun(config, t0, feeds, a);
    Retention.RetentionIsInvisibleAcrossReorgs(config, t0, count, OpsOf(config, feeds, a));
  }

  /** What the store has cached for a pair means what it should, over the closes of the pair's whole run. */
  lemma StoredValuesAreMeaningful(config: Config, t0: nat, count: nat, feeds: seq<Feed>, a: Address)
    requires Clock(t0) && config.computeIndicators && Timed(t0, feeds) && StoreRun(config, feeds).Some?
    requires Retention.Retains(config, count) && a in StoreRun(config, feeds).value.bars
    requires Retention.KeepsEnough(config, t0, count, OpsOf(config, feeds, a))
    ensures var data := StoreRun(config, feeds).value.bars[a].data;
            var unbounded := Run(Retention.Unbounded(config), t0, OpsOf(config, feeds, a));
            && unbounded.Some?
            && forall k :: k in data ==>
                 && data[k].Indicators().Some?
                 && IndicatorBounds.Meaningful(config.rounding, Closes(unbounded.value.data), k, data[k].Indicators().value)
  {
    hide Run, Valid, OpsOf, BlockTime, IndicatorBounds.Meaningful, Retention.KeepsEnough;
    EveryPairIsARun(config, t0, feeds, a);
    IndicatorBounds.BoundedCachedValuesAreMeaningful(config, t0, count, OpsOf(config, feeds, a));
  }
}
