/** Exactly when a rollback lets the bars that retention dropped show. */
module RollbackRetention {
  import opened Wrappers
  import opened OrderedMaps
  import opened TickData
  import opened TimePriceBar
  import opened FixedPoint
  import opened ResolutionTimestamp
  import opened Indicators
  import opened BarSeries
  import opened SeriesInvariants
  import opened ReorgPrune
  import opened CachedIndicators
  import opened Retention
  import opened IndicatorBounds

  /**
    Both fail, or both succeed and the bounded series is the later part of the unbounded one, with at
    least one bar if there is any.
   */
  ghost predicate Alike(b: Outcome, u: Outcome) {
    && (b.error.None? <==> u.error.None?)
    && (u.error.None? ==> Tail(1, b.series.data, u.series.data) && b.series.lastFinalized == u.series.lastFinalized)
  }

  /** The average the next window's is computed from. */
  function Average(bar: Bar): int {
    if bar.Indicators().Some? then bar.Indicators().value.ema else bar.Close()
  }

  /** All twenty windows up to `k` have bars. */
  ghost predicate HasTwenty(data: Bars, k: nat) {
    forall i: nat :: i < BB_PERIOD ==> k - OFFSET * i in data
  }

  /**
    Recomputing window `k` with this close misses no bar that was dropped: not one of the twenty of
    its bands, and not the one before it, unless that one's average is the close itself.
   */
  ghost predicate MissesNothing(b: Bars, u: Bars, k: nat, close: nat) {
    && (HasTwenty(u, k) ==> HasTwenty(b, k))
    && (k - OFFSET in u && k - OFFSET !in b ==> Average(u[k - OFFSET]) == close)
  }

  /** The close of the bar `n` cuts, once it is cut. */
  function CloseBefore(bar: Bar, n: nat): nat {
    if n > 0 && bar.PendingBar? && n - 1 in bar.pending.blocks then bar.pending.blocks[n - 1].close else 0
  }

  /**
    What a rollback to `n` needs: a finalized bar that refuses it was not dropped; a bar that starts
    below `n` is kept if there is one; and recomputing the bar that is cut misses nothing.
   */
  ghost predicate HidesRollback(config: Config, b: Bars, u: Bars, n: nat) {
    if FinalizedReaches(u, n) then FinalizedReaches(b, n)
    else
      && (StartedBelow(u, n) > 0 ==> StartedBelow(b, n) > 0)
      && (config.computeIndicators ==> forall k :: CutAt(b, n, k) ==> MissesNothing(b, u, k, CloseBefore(b[k], n)))
  }

  // ---- one recomputation ------------------------------------------------------------------

  ghost predicate AllAligned(data: Bars) {
    forall k :: k in data ==> Aligned(k) && data[k].Data().Some?
  }

  lemma ClosesKeys(data: Bars)
    requires AllAligned(data)
    ensures Closes(data).Keys == data.Keys && forall k :: k in Closes(data) ==> Aligned(k)
  {
  }

  lemma TwentyIffCloses(data: Bars, k: nat)
    requires AllAligned(data)
    ensures HasTwenty(data, k) <==> TwentyWindows(Closes(data), k)
  {
    ClosesKeys(data);
  }

  lemma SameTwenty(b: Bars, u: Bars, k: nat)
    requires AllAligned(u) && AllAligned(b) && SubBars(b, u) && Aligned(k) && HasTwenty(b, k)
    ensures Prices(Closes(b), k) == Prices(Closes(u), k)
  {
    var lo := k - OFFSET * (BB_PERIOD - 1);
    forall j: nat | lo <= j <= k ensures (j in Closes(b) <==> j in Closes(u)) && (j in Closes(b) ==> Closes(b)[j] == Closes(u)[j]) {
      if j in u {
        InTwenty(b, k, j);
      }
    }
    RangeClosesAgree(Closes(b), Closes(u), lo, k);
  }

  lemma InTwenty(b: Bars, k: nat, j: nat)
    requires Aligned(k) && Aligned(j) && HasTwenty(b, k) && k - OFFSET * (BB_PERIOD - 1) <= j <= k
    ensures j in b
  {
    var i := (k - j) / 300;
    assert k - OFFSET * i == j;
  }

  /** The bands agree exactly when the bounded series has all twenty windows if there are twenty. */
  lemma BandsAgreeIff(rounding: Rounding, b: Bars, u: Bars, k: nat)
    requires AllAligned(u) && AllAligned(b) && SubBars(b, u) && Aligned(k)
    ensures BollingerBand(rounding, k, Closes(b)) == BollingerBand(rounding, k, Closes(u)) <==> (HasTwenty(u, k) ==> HasTwenty(b, k))
  {
    TwentyIffCloses(b, k);
    TwentyIffCloses(u, k);
    ClosesKeys(b);
    ClosesKeys(u);
    BandsBounds(rounding, k, Closes(b));
    BandsBounds(rounding, k, Closes(u));
    if HasTwenty(b, k) {
      SameTwenty(b, u, k);
    }
  }

  /** A step from an average equals a first value exactly when the average was that value. */
  lemma StepIsFirstIff(rounding: Rounding, close: nat, previous: int)
    ensures EmaStep(rounding, close, previous) == close && close - previous == 0 <==> previous == close
  {
    EmaStepBetween(rounding, close, previous);
  }

  lemma AverageAgreesIff(rounding: Rounding, b: Bars, u: Bars, k: nat)
    requires SubBars(b, u) && k in b
    ensures Ema(rounding, k, b) == Ema(rounding, k, u) <==>
              (k - OFFSET in u && k - OFFSET !in b ==> Average(u[k - OFFSET]) == b[k].Close())
  {
    if k - OFFSET in u && k - OFFSET !in b {
      var previous := Average(u[k - OFFSET]);
      StepIsFirstIff(rounding, b[k].Close(), previous);
      assert Ema(rounding, k, b) == (b[k].Close(), 0);
    }
  }

  /** Recomputing a window from part of the bars gives the value from all exactly when it misses nothing. */
  lemma ComputeAgreesIff(rounding: Rounding, b: Bars, u: Bars, k: nat)
    requires AllAligned(u) && AllAligned(b) && SubBars(b, u) && k in b
    ensures Compute(rounding, k, b) == Compute(rounding, k, u) <==> MissesNothing(b, u, k, b[k].Close())
  {
    hide BollingerBand, Ema, HasTwenty, Closes;
    BandsAgreeIff(rounding, b, u, k);
    AverageAgreesIff(rounding, b, u, k);
  }

  // ---- one rollback -----------------------------------------------------------------------

  lemma StructuralAligned(t0: nat, data: Bars)
    requires Structural(t0, data)
    ensures AllAligned(data)
  {
    hide OwnWindow;
    StructuralHasData(t0, data);
    forall k | k in data ensures Aligned(k) {
      assert BarOk(t0, k, data[k]);
    }
  }

  /** Up to the cut window the same windows have bars before and after the rollback, with the same indicators before it. */
  lemma CutSeesAsBefore(t0: nat, data: Bars, n: nat, k: nat)
    requires Structural(t0, data) && !FinalizedReaches(data, n) && CutAt(data, n, k)
    requires forall j :: j in data ==> data[j].HasBlocks()
    ensures k in data
    ensures var r := Truncated(data, n);
            && k in r && r[k].PendingBar? && (forall j :: j in r ==> j <= k)
            && (HasTwenty(r, k) <==> HasTwenty(data, k))
            && (k - OFFSET in r <==> k - OFFSET in data)
            && (k - OFFSET in r ==> r[k - OFFSET] == data[k - OFFSET])
            && r[k].Close() == CloseBefore(data[k], n)
  {
    hide OwnWindow, Truncated, HasTwenty;
    CutIsLatest(t0, data, n, k);
    CutClose(t0, data, n, k);
    TwentyUpTo(Truncated(data, n), data, k);
  }

  lemma TwentyUpTo(a: Bars, b: Bars, k: nat)
    requires k in a && k in b && forall j: nat :: j < k ==> (j in a <==> j in b)
    ensures HasTwenty(a, k) <==> HasTwenty(b, k)
  {
    forall i: nat | i < BB_PERIOD ensures k - OFFSET * i in a <==> k - OFFSET * i in b {
      if k - OFFSET * i >= 0 && i > 0 {
        var j: nat := k - OFFSET * i;
        assert j in a <==> j in b;
      }
    }
  }

  lemma CutClose(t0: nat, data: Bars, n: nat, k: nat)
    requires Structural(t0, data) && !FinalizedReaches(data, n) && CutAt(data, n, k)
    requires forall j :: j in data ==> data[j].HasBlocks()
    ensures k in Truncated(data, n) && Truncated(data, n)[k].Close() == CloseBefore(data[k], n)
  {
    hide OwnWindow, Reduce;
    assert BarOk(t0, k, data[k]);
    LastCloseBelow(data[k].pending.blocks, n);
  }

  lemma LastCloseBelow(blocks: map<nat, Tick>, n: nat)
    requires blocks.Keys != {} && GapFree(blocks) && MinKey(blocks) < n <= MaxKey(blocks)
    ensures n - 1 in blocks
    ensures var r := Reduce(Below(blocks, n)); r.Some? && r.value.close == blocks[n - 1].close
  {
    hide Reduce;
    BelowRange(blocks, n);
    ReduceIsOhlc(Below(blocks, n));
  }

  /** Replacing the latest bar by recomputed ones keeps one series part of the other exactly when they agree. */
  lemma TailOfUpdatedIff(config: Config, b: Bars, u: Bars, k: nat)
    requires Tail(1, b, u) && k in b && b[k].PendingBar? && AllAligned(u) && AllAligned(b)
    ensures k in u && u[k].PendingBar?
    ensures Tail(1, UpdateIndicators(config, b, k).data, UpdateIndicators(config, u, k).data) <==>
              MissesNothing(b, u, k, b[k].Close())
  {
    hide Compute, MissesNothing, AllAligned;
    ComputeAgreesIff(config.rounding, b, u, k);
    var rb, ru := UpdateIndicators(config, b, k).data, UpdateIndicators(config, u, k).data;
    assert rb.Keys == b.Keys && ru.Keys == u.Keys;
    assert |rb| == |b| && |ru| == |u| by {
      SameSizes(rb, b);
      SameSizes(ru, u);
    }
    assert rb[k] == ru[k] <==> Compute(config.rounding, k, b) == Compute(config.rounding, k, u);
  }

  /** With a bar kept below `n`, only the recomputation of the cut bar can show. */
  lemma KeptRollbackIff(config: Config, t0: nat, b: Series, u: Series, n: nat)
    requires Invariant(t0, b) && Invariant(t0, u) && Tail(1, b.data, u.data)
    requires !FinalizedReaches(b.data, n) && !FinalizedReaches(u.data, n) && StartedBelow(b.data, n) > 0
    ensures Tail(1, PruneToReorgedBlockNumber(config, b, n).series.data, PruneToReorgedBlockNumber(config, u, n).series.data) <==>
              (config.computeIndicators ==> forall k :: CutAt(b.data, n, k) ==> MissesNothing(b.data, u.data, k, CloseBefore(b.data[k], n)))
  {
    hide Structural, PruneLoop, Truncated, Tail, CutAt, UpdateIndicators, FinalizedReaches, MissesNothing, AllAligned, StartedBelow;
    TailTruncated(t0, 1, b.data, u.data, n);
    TruncatedSize(b.data, n);
    var first := KeptBelow(b.data, n);
    SameReach(t0, 1, b.data, u.data, n, first);
    SameCut(t0, b.data, u.data, n);
    PruneLoopIs(t0, b.data, n);
    PruneLoopIs(t0, u.data, n);
    var cut := PruneLoop(b.data, n, None).pruned;
    if cut.Some? && config.computeIndicators {
      var k := cut.value;
      CutSeesAsBefore(t0, b.data, n, k);
      CutSeesAsBefore(t0, u.data, n, k);
      TruncatedStructural(t0, b.data, n);
      TruncatedStructural(t0, u.data, n);
      StructuralAligned(t0, Truncated(b.data, n));
      StructuralAligned(t0, Truncated(u.data, n));
      TailOfUpdatedIff(config, Truncated(b.data, n), Truncated(u.data, n), k);
      SameMisses(b.data, u.data, Truncated(b.data, n), Truncated(u.data, n), k, CloseBefore(b.data[k], n));
      OneCut(t0, b.data, n, k);
    }
  }

  lemma SameMisses(b: Bars, u: Bars, rb: Bars, ru: Bars, k: nat, close: nat)
    requires (HasTwenty(rb, k) <==> HasTwenty(b, k)) && (HasTwenty(ru, k) <==> HasTwenty(u, k))
    requires (k - OFFSET in rb <==> k - OFFSET in b) && (k - OFFSET in ru <==> k - OFFSET in u)
    requires k - OFFSET in ru ==> ru[k - OFFSET] == u[k - OFFSET]
    ensures MissesNothing(b, u, k, close) <==> MissesNothing(rb, ru, k, close)
  {
    hide HasTwenty;
  }

  /** At most one bar is cut. */
  lemma OneCut(t0: nat, data: Bars, n: nat, k: nat)
    requires Structural(t0, data) && !FinalizedReaches(data, n) && CutAt(data, n, k)
    ensures forall j :: CutAt(data, n, j) ==> j == k
  {
    hide Structural, FinalizedReaches, CutAt, Truncated;
    StructuralHasBlocks(t0, data);
    forall j | CutAt(data, n, j) ensures j == k {
      CutIsLatest(t0, data, n, j);
      CutIsLatest(t0, data, n, k);
    }
  }

  /**
    A rollback of a bounded series and of the unbounded one it is part of are alike exactly when no
    bar the rollback looks at was dropped: the finalized one that refuses it, the one before its
    block, and those the cut bar's bands and average are computed from, which that average may make
    up for by being the close itself.
   */
  lemma RollbackIsInvisibleIff(config: Config, t0: nat, b: Series, u: Series, n: nat)
    requires Follows(t0, 1, b, u)
    ensures Alike(PruneToReorgedBlockNumber(config, b, n), PruneToReorgedBlockNumber(Unbounded(config), u, n)) <==>
              HidesRollback(config, b.data, u.data, n)
  {
    hide Structural, PruneToReorgedBlockNumber, FinalizedReaches, StartedBelow, CutAt, MissesNothing, Truncated;
    PruneIgnoresRetention(config, u, n);
    PruneIsExact(config, t0, b, n);
    PruneIsExact(config, t0, u, n);
    if FinalizedReaches(b.data, n) {
      ReachCarries(1, b.data, u.data, n);
    } else if !FinalizedReaches(u.data, n) {
      StructuralHasBlocks(t0, b.data);
      StructuralHasBlocks(t0, u.data);
      if StartedBelow(b.data, n) > 0 {
        KeptRollbackIff(config, t0, b, u, n);
      } else {
        EmptiedRollback(config, t0, b, u, n);
      }
    }
  }

  /** When every bar is rolled back no bar is cut, and the series is empty. */
  lemma EmptiedRollback(config: Config, t0: nat, b: Series, u: Series, n: nat)
    requires Invariant(t0, b) && Invariant(t0, u) && StartedBelow(b.data, n) == 0
    requires !FinalizedReaches(b.data, n) && !FinalizedReaches(u.data, n)
    requires forall k :: k in b.data ==> b.data[k].HasBlocks()
    requires forall k :: k in u.data ==> u.data[k].HasBlocks()
    ensures forall k :: !CutAt(b.data, n, k)
    ensures Tail(1, PruneToReorgedBlockNumber(config, b, n).series.data, PruneToReorgedBlockNumber(config, u, n).series.data) <==>
              StartedBelow(u.data, n) == 0
  {
    hide Structural, PruneToReorgedBlockNumber, FinalizedReaches, Truncated;
    PruneIsExact(config, t0, b, n);
    PruneIsExact(config, t0, u, n);
    TruncatedSize(b.data, n);
    TruncatedSize(u.data, n);
    var rb := PruneToReorgedBlockNumber(config, b, n).series.data;
    var ru := PruneToReorgedBlockNumber(config, u, n).series.data;
    SameSizes(rb, Truncated(b.data, n));
    SameSizes(ru, Truncated(u.data, n));
    assert rb.Keys == {};
    NoneCut(b.data, n);
  }

  lemma NoneCut(data: Bars, n: nat)
    requires StartedBelow(data, n) == 0
    ensures forall k :: !CutAt(data, n, k)
  {
    hide Bar.HasBlocks, Bar.Start, Bar.End;
    var below := set j | j in data && data[j].HasBlocks() && data[j].Start() < n;
    assert below == {};
    forall k: nat ensures CutAt(data, n, k) ==> k in below {
    }
  }
}
