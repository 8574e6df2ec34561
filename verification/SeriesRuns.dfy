/** Runs of inserts and reorg prunes on one pair's bars. */
module SeriesRuns {
  import opened Wrappers
  import opened OrderedMaps
  import opened TickData
  import opened TimePriceBar
  import opened ResolutionTimestamp
  import opened Indicators
  import opened BarSeries
  import opened SeriesInvariants
  import opened InsertOutcome
  import opened ReorgPrune
  import opened CachedIndicators

  datatype Op = Insert(block: nat, tick: Tick, finalized: Option<nat>) | Prune(block: nat)

  /**
    One operation; `None` when it fails. A block is inserted only above every block still held:
    the store prunes first when it is not.
   */
  ghost function Apply(config: Config, t0: nat, s: Series, op: Op): Option<Series> {
    match op
    case Insert(n, tick, finalized) =>
      if AllBelow(s.data, n) && PadFits(s.data, n, BlockTime(t0, n)) then
        var r := InsertData(config, s, n, tick, BlockTime(t0, n), finalized);
        if r.error.None? then Some(r.series) else None
      else None
    case Prune(n) =>
      var r := PruneToReorgedBlockNumber(config, s, n);
      if r.error.None? then Some(r.series) else None
  }

  ghost function Run(config: Config, t0: nat, ops: seq<Op>): Option<Series>
    decreases |ops|
  {
    if ops == [] then Some(EmptySeries)
    else
      var before := Run(config, t0, ops[..|ops| - 1]);
      if before.None? then None else Apply(config, t0, before.value, ops[|ops| - 1])
  }

  lemma RunNothing(config: Config, t0: nat)
    ensures Run(config, t0, []) == Some(EmptySeries)
  {
  }

  lemma RunSnoc(config: Config, t0: nat, ops: seq<Op>, op: Op)
    requires Run(config, t0, ops).Some?
    ensures Run(config, t0, ops + [op]) == Apply(config, t0, Run(config, t0, ops).value, op)
  {
    hide Apply;
    assert (ops + [op])[..|ops|] == ops;
  }

  lemma ApplyKeeps(config: Config, t0: nat, s: Series, op: Op)
    requires Clock(t0) && Invariant(t0, s) && Apply(config, t0, s, op).Some?
    ensures Invariant(t0, Apply(config, t0, s, op).value)
    ensures config.retentionCount.None? && IndicatorsRight(config, s.data) ==>
              IndicatorsRight(config, Apply(config, t0, s, op).value.data)
  {
    hide Invariant;
    hide IndicatorsRight;
    hide InsertData;
    hide PruneToReorgedBlockNumber;
    hide PadFits;
    match op
    case Insert(n, tick, finalized) =>
      InsertKeepsInvariant(config, t0, s, n, tick, finalized);
      if config.retentionCount.None? && IndicatorsRight(config, s.data) {
        InsertKeepsRight(config, t0, s, n, tick, finalized);
      }
    case Prune(n) =>
      PruneIsExact(config, t0, s, n);
      if config.retentionCount.None? && IndicatorsRight(config, s.data) {
        PruneKeepsRight(config, t0, s, n);
      }
  }

  /**
    Every run, reorgs included, keeps the structural invariant; and without a retention limit
    every cached indicator is the one a computation from scratch over all closes gives.
   */
  lemma {:induction false} EveryRunIsSound(config: Config, t0: nat, ops: seq<Op>)
    requires Clock(t0) && Run(config, t0, ops).Some?
    ensures Invariant(t0, Run(config, t0, ops).value)
    ensures config.retentionCount.None? ==> IndicatorsRight(config, Run(config, t0, ops).value.data)
    decreases |ops|
  {
    if ops != [] {
      EveryRunIsSound(config, t0, ops[..|ops| - 1]);
      ApplyKeeps(config, t0, Run(config, t0, ops[..|ops| - 1]).value, ops[|ops| - 1]);
    }
  }

  /** What the structural invariant means for a pending bar a reader looks at. */
  lemma PendingBarIsOhlcOfItsBlocks(t0: nat, s: Series, k: nat)
    requires Invariant(t0, s) && k in s.data && s.data[k].PendingBar?
    ensures s.data[k].HasBlocks() && s.data[k].Data().Some?
    ensures IsOhlc(s.data[k].Data().value, s.data[k].pending.blocks)
  {
    assert BarOk(t0, k, s.data[k]);
    ReduceIsOhlc(s.data[k].pending.blocks);
  }

  /** Padding an existing bar leaves its OHLC as it was. */
  lemma PaddingKeepsOhlc(t0: nat, s: Series, n: nat)
    requires Clock(t0) && Invariant(t0, s) && AllBelow(s.data, n)
    ensures PadFits(s.data, n, BlockTime(t0, n))
    ensures var r := Pad(s.data, n, BlockTime(t0, n));
            && |r.updated| <= 1
            && forall k :: k in s.data ==> k in r.data && r.data[k].Data() == s.data[k].Data()
  {
    hide OwnWindow;
    hide Structural;
    hide Pad, AllBelow, Reduce, Filled;
    PadShape(t0, s.data, n);
    var r := Pad(s.data, n, BlockTime(t0, n));
    if r.updated != [] {
      var w := r.updated[0];
      if w in s.data {
        assert w == MaxKey(s.data);
        SoundBarData(t0, s.data, w);
        RepeatingLastKeepsReduce(s.data[w].pending.blocks, s.data[w].End() + 1, n);
      }
    }
  }

  lemma SoundBarData(t0: nat, data: Bars, k: nat)
    requires Structural(t0, data) && k in data && data[k].PendingBar?
    ensures data[k].HasBlocks() && data[k].Data() == Reduce(data[k].pending.blocks)
  {
    hide OwnWindow;
    assert BarOk(t0, k, data[k]);
  }

  // ---- finalized bars ---------------------------------------------------------------------

  /** Every finalized bar of `a` is in `b` unchanged. */
  ghost predicate KeepsFinalized(a: Bars, b: Bars) {
    forall k :: k in a && a[k].FinalizedBar? ==> k in b && b[k] == a[k]
  }

  /** Every finalized bar of `a` is unchanged in `b` if it is still there. */
  ghost predicate NeverChangesFinalized(a: Bars, b: Bars) {
    forall k :: k in a && a[k].FinalizedBar? && k in b ==> b[k] == a[k]
  }

  lemma {:induction false} FinalizeRangeKeeps(data: Bars, lo: nat, hi: nat)
    ensures KeepsFinalized(data, FinalizeRange(data, lo, hi).data)
    ensures FinalizeRange(data, lo, hi).data.Keys == data.Keys
    decreases hi - lo + 1
  {
    var range := set k | k in data.Keys && lo <= k <= hi;
    if range != {} {
      var k := Min(range);
      if data[k].PendingBar? && AsFinalized(data[k].pending).Some? {
        var next := data[k := FinalizedBar(AsFinalized(data[k].pending).value)];
        assert next.Keys == data.Keys;
        FinalizeRangeKeeps(next, k + 1, hi);
      }
    }
  }

  lemma {:induction false} UpdateAllKeepsFinalized(config: Config, data: Bars, updated: seq<nat>)
    ensures KeepsFinalized(data, UpdateAll(config, data, updated).data)
    decreases |updated|
  {
    if updated != [] && config.computeIndicators {
      var first := UpdateIndicators(config, data, updated[0]);
      if first.error.None? {
        UpdateAllKeepsFinalized(config, first.data, updated[1..]);
      }
    }
  }

  lemma {:induction false} PruneLoopKeepsFinalized(data: Bars, n: nat, pruned: Option<nat>)
    ensures KeepsFinalized(data, PruneLoop(data, n, pruned).data)
    decreases |data|, Overhang(data, n)
  {
    if data.Keys != {} {
      var k := MaxKey(data);
      if data[k].PendingBar? && data[k].pending.blocks.Keys != {} {
        if MinKey(data[k].pending.blocks) >= n {
          assert (data - {k}).Keys == data.Keys - {k};
          PruneLoopKeepsFinalized(data - {k}, n, pruned);
        } else if MaxKey(data[k].pending.blocks) >= n {
          var cut := data[k := PendingBar(WithBlocks(Below(data[k].pending.blocks, n)))];
          assert cut.Keys == data.Keys;
          PruneLoopKeepsFinalized(cut, n, Some(k));
        }
      }
    }
  }

  /** No prune, failed or not, on any state, removes or changes a finalized bar. */
  lemma PruneNeverChangesFinalized(config: Config, s: Series, n: nat)
    ensures KeepsFinalized(s.data, PruneToReorgedBlockNumber(config, s, n).series.data)
  {
    PruneLoopKeepsFinalized(s.data, n, None);
  }

  lemma PadAndPlaceKeepFinalized(s: Series, n: nat, tick: Tick, timestamp: nat, w: nat)
    requires PadFits(s.data, n, timestamp)
    ensures var padded := Pad(s.data, n, timestamp).data;
            && KeepsFinalized(s.data, padded)
            && (Place(padded, n, tick, w).Ok? ==> KeepsFinalized(s.data, Place(padded, n, tick, w).value))
  {
    hide Window;
    hide WithBlocks;
  }

  lemma FinalizeKeepsFinalized(s: Series, finalized: Option<nat>)
    ensures KeepsFinalized(s.data, Finalize(s, finalized).series.data)
    ensures Finalize(s, finalized).series.data.Keys == s.data.Keys
  {
    hide FinalizeRange;
    if finalized.Some? {
      FinalizeRangeKeeps(s.data, if s.lastFinalized.Some? then s.lastFinalized.value + OFFSET else 0, finalized.value);
    }
  }

  /** No insert, failed or not, on any state, changes a finalized bar; only retention drops one. */
  lemma InsertNeverChangesFinalized(config: Config, s: Series, n: nat, tick: Tick, timestamp: nat, finalized: Option<nat>)
    requires PadFits(s.data, n, timestamp)
    ensures var r := InsertData(config, s, n, tick, timestamp, finalized).series.data;
            && NeverChangesFinalized(s.data, r)
            && (config.retentionCount.None? ==> KeepsFinalized(s.data, r))
  {
    hide Pad;
    hide Place;
    hide UpdateAll;
    hide Finalize;
    var w := Window(timestamp);
    PadAndPlaceKeepFinalized(s, n, tick, timestamp, w);
    var padded := Pad(s.data, n, timestamp);
    var placed := Place(padded.data, n, tick, w);
    if placed.Ok? {
      var kept := PruneToRetentionCount(placed.value, config.retentionCount);
      if config.retentionCount.Some? { PopToKeepsLatest(placed.value, config.retentionCount.value); }
      UpdateAllKeepsFinalized(config, kept, padded.updated + [w]);
      UpdateAllKeeps(config, kept, padded.updated + [w]);
      var u := UpdateAll(config, kept, padded.updated + [w]).data;
      FinalizeKeepsFinalized(s.(data := u), finalized);
    }
  }

  // ---- an insert that fails ---------------------------------------------------------------

  lemma {:induction false} RunOfTwo(config: Config, t0: nat, first: Op, second: Op)
    ensures Run(config, t0, [first]) == Apply(config, t0, EmptySeries, first)
    ensures Run(config, t0, [first, second]) ==
              if Run(config, t0, [first]).None? then None else Apply(config, t0, Run(config, t0, [first]).value, second)
  {
    hide Apply;
    assert [first][..0] == [];
    assert Run(config, t0, [first][..0]) == Some(EmptySeries);
    assert [first, second][..1] == [first];
  }

  lemma StartsSound(t0: nat)
    ensures Invariant(t0, EmptySeries) && AllBelow(EmptySeries.data, 0)
  {
    hide OwnWindow;
  }

  /** The first block of a series is placed, whatever is retained of it. */
  lemma FirstBlockSucceeds(config: Config, t0: nat, first: Op)
    requires Clock(t0) && first.Insert? && first.block == 0 && config.retentionCount != Some(0)
    ensures Apply(config, t0, EmptySeries, first).Some?
    ensures var r := Apply(config, t0, EmptySeries, first).value; Invariant(t0, r) && EndsIn(t0, r.data, 0)
  {
    hide OwnWindow, Structural, InsertData, PadFits, EndsIn;
    StartsSound(t0);
    InsertKeepsInvariant(config, t0, EmptySeries, 0, first.tick, first.finalized);
    assert !InsertFails(config, t0, EmptySeries, 0);
  }

  /**
    One bar is too few: block 1000 pads the window of block 0, which retention then drops before it
    is recomputed, and the insert fails.
   */
  lemma OneBarIsTooFew(config: Config, t0: nat, first: Op, second: Op)
    requires Clock(t0) && config.retentionCount == Some(1) && config.computeIndicators
    requires first.Insert? && first.block == 0 && first.finalized == None && second.Insert? && second.block == 1000
    ensures Run(config, t0, [first]).Some? && Run(config, t0, [first, second]).None?
  {
    hide OwnWindow, Structural, InsertData, PadFits;
    RunOfTwo(config, t0, first, second);
    FirstBlockSucceeds(config, t0, first);
    FirstBlockFinalizesNothing(config, t0, first);
    var s := Apply(config, t0, EmptySeries, first).value;
    EndIsLatest(t0, s, 0, 1000);
    FarApart(t0, 0, 1000);
    InsertKeepsInvariant(config, t0, s, 1000, second.tick, second.finalized);
    assert InsertFails(config, t0, s, 1000);
  }

  lemma FirstBlockFinalizesNothing(config: Config, t0: nat, first: Op)
    requires Clock(t0) && first.Insert? && first.block == 0 && first.finalized == None
    requires Apply(config, t0, EmptySeries, first).Some?
    ensures Apply(config, t0, EmptySeries, first).value.lastFinalized == None
  {
    hide OwnWindow, Pad, Place, UpdateAll, PruneToRetentionCount, InsertData;
    InsertUnfolds(config, t0, EmptySeries, 0, first.tick, None);
  }

  lemma FarApart(t0: nat, a: nat, b: nat)
    requires a + 150 <= b
    ensures OwnWindow(t0, a) < OwnWindow(t0, b)
  {
  }

  /** The block an insert ends in is the latest one. */
  lemma EndIsLatest(t0: nat, s: Series, last: nat, n: nat)
    requires Invariant(t0, s) && EndsIn(t0, s.data, last) && last < n
    ensures s.data.Keys != {} && MaxKey(s.data) == OwnWindow(t0, last)
    ensures s.data[MaxKey(s.data)].HasBlocks() && s.data[MaxKey(s.data)].End() == last
    ensures AllBelow(s.data, n)
  {
    hide OwnWindow, Structural;
    assert OwnWindow(t0, last) in s.data.Keys;
    assert MaxKey(s.data) == OwnWindow(t0, last);
    StructuralHasBlocks(t0, s.data);
    forall k | k in s.data ensures s.data[k].End() < n {
      LatestBarIsLatest(t0, s.data, k);
    }
  }
}
