/** The indicators cached in the bars are those of a computation from scratch. */
module CachedIndicators {
  import opened Wrappers
  import opened TickData
  import opened TimePriceBar
  import opened Indicators
  import opened BarSeries
  import opened SeriesInvariants
  import opened InsertOutcome
  import opened ReorgPrune

  ghost function Expected(config: Config, data: Bars, k: nat): Option<TimePriceBar.Indicators> {
    if config.computeIndicators then Some(Batch(config.rounding, Closes(data), k)) else None
  }

  ghost predicate IndicatorsRight(config: Config, data: Bars) {
    forall k :: k in data ==> data[k].Indicators() == Expected(config, data, k)
  }

  /** The same for the windows before `bound`. */
  ghost predicate RightBefore(config: Config, data: Bars, bound: nat) {
    forall k :: k in data && k < bound ==> data[k].Indicators() == Expected(config, data, k)
  }

  ghost predicate AllHaveData(data: Bars) {
    forall k :: k in data ==> data[k].Data().Some?
  }

  lemma StructuralHasData(t0: nat, data: Bars)
    requires Structural(t0, data)
    ensures AllHaveData(data)
  {
    hide OwnWindow;
    forall k | k in data ensures data[k].Data().Some? {
      assert BarOk(t0, k, data[k]);
      if data[k].PendingBar? { ReduceIsOhlc(data[k].pending.blocks); }
    }
  }

  lemma RightTransfers(config: Config, a: Bars, b: Bars, bound: nat)
    requires RightBefore(config, a, bound)
    requires forall k: nat :: k < bound ==> (k in a <==> k in b) && (k in a ==> a[k].Data() == b[k].Data() && a[k].Indicators() == b[k].Indicators())
    ensures RightBefore(config, b, bound)
  {
    forall k | k in b && k < bound ensures b[k].Indicators() == Expected(config, b, k) {
      assert AgreeUpTo(Closes(a), Closes(b), k);
      BatchAgree(config.rounding, Closes(a), Closes(b), k);
    }
  }

  /** Recomputing one window, all earlier ones being right, makes it right too. */
  lemma UpdateMakesRight(config: Config, data: Bars, timestamp: nat)
    requires config.computeIndicators && AllHaveData(data)
    requires RightBefore(config, data, timestamp) && timestamp in data && data[timestamp].PendingBar?
    ensures var r := UpdateIndicators(config, data, timestamp).data;
            && AllHaveData(r) && SameBars(data, r)
            && RightBefore(config, r, timestamp + 1)
            && forall k :: k in data && k != timestamp ==> r[k] == data[k]
  {
    hide Compute, Batch;
    var r := UpdateIndicators(config, data, timestamp).data;
    assert Closes(r) == Closes(data);
    ComputeIsBatch(config.rounding, timestamp, data);
  }

  /** Recomputing the windows an insert touched, in order, makes every window right. */
  lemma UpdateAllMakesRight(config: Config, t0: nat, n: nat, updated: seq<nat>, placed: Bars)
    requires Placed(t0, n, updated, placed) && AllHaveData(placed)
    requires RightBefore(config, placed, updated[0])
    requires forall k :: k in updated && k in placed ==> placed[k].Indicators() == None
    requires !config.computeIndicators ==> forall k :: k in placed ==> placed[k].Indicators() == None
    ensures IndicatorsRight(config, UpdateAll(config, placed, updated).data)
  {
    hide OwnWindow;
    hide Structural;
    hide UpdateIndicators;
    hide AllBelow, Batch;
    if config.computeIndicators {
      var w := updated[|updated| - 1];
      UpdateMakesRight(config, placed, updated[0]);
      var first := UpdateIndicators(config, placed, updated[0]);
      UpdateSucceeds(config, placed, updated[0]);
      if |updated| == 1 {
        assert updated == [w];
        UpdateAllOfOne(config, placed, w);
      } else {
        assert updated[1..] == [w];
        assert Strip(placed[w]) == Strip(first.data[w]);
        assert RightBefore(config, first.data, w);
        UpdateMakesRight(config, first.data, w);
        UpdateSucceeds(config, first.data, w);
        UpdateAllOfOne(config, first.data, w);
      }
    }
  }

  lemma UpdateAllOfOne(config: Config, data: Bars, timestamp: nat)
    requires config.computeIndicators && timestamp in data && data[timestamp].PendingBar?
    ensures UpdateAll(config, data, [timestamp]) == UpdateIndicators(config, data, timestamp)
  {
    var first := UpdateIndicators(config, data, timestamp);
    assert UpdateAll(config, first.data, [timestamp][1..]) == BarsOutcome(first.data, None);
  }

  lemma UpdateSucceeds(config: Config, data: Bars, timestamp: nat)
    requires timestamp in data && data[timestamp].PendingBar?
    ensures UpdateIndicators(config, data, timestamp).error.None?
  {
  }

  lemma FinalizeKeepsRight(config: Config, t0: nat, s: Series, finalized: Option<nat>)
    requires Invariant(t0, s) && IndicatorsRight(config, s.data)
    ensures IndicatorsRight(config, Finalize(s, finalized).series.data)
  {
    hide Structural;
    hide Finalize;
    FinalizeIs(t0, s, finalized);
    var r := Finalize(s, finalized).series.data;
    forall k | k in s.data ensures s.data[k].Data() == r[k].Data() && s.data[k].Indicators() == r[k].Indicators() {
      if Covers(s, finalized, k) { StructuralBarsFinalize(t0, s.data, k); }
    }
    forall k | k in r ensures r[k].Indicators() == Expected(config, r, k) {
      RightTransfers(config, s.data, r, k + 1);
    }
  }

  /** A successful insert into a series without retention keeps every cached value right. */
  lemma InsertKeepsRight(config: Config, t0: nat, s: Series, n: nat, tick: Tick, finalized: Option<nat>)
    requires Clock(t0) && Invariant(t0, s) && AllBelow(s.data, n)
    requires config.retentionCount.None? && IndicatorsRight(config, s.data)
    requires PadFits(s.data, n, BlockTime(t0, n))
    ensures var r := InsertData(config, s, n, tick, BlockTime(t0, n), finalized);
            r.error.None? ==> IndicatorsRight(config, r.series.data)
  {
    hide OwnWindow;
    hide Structural;
    hide Pad;
    hide Place;
    hide PadsEarlierWindow;
    hide UpdateAll;
    hide Finalize;
    hide InsertData;
    PadThenPlace(t0, s, n, tick);
    InsertUnfolds(config, t0, s, n, tick, finalized);
    var w := OwnWindow(t0, n);
    if !(w in s.data && s.data[w].FinalizedBar?) {
      var padded := Pad(s.data, n, BlockTime(t0, n));
      var placed := Place(padded.data, n, tick, w).value;
      var updated := padded.updated + [w];
      UpdatesSurvive(config, t0, n, updated, placed);
      StructuralHasData(t0, placed);
      PlacedChanges(t0, s, n, tick);
      assert forall k :: k in placed && k < updated[0] ==> k !in updated;
      assert updated[0] in updated && w in updated;
      RightTransfers(config, s.data, placed, updated[0]);
      UpdateAllMakesRight(config, t0, n, updated, placed);
      UpdateAllKeeps(config, placed, updated);
      var u := UpdateAll(config, placed, updated);
      if u.error.None? {
        AfterUpdate(t0, s, n, placed, placed, u.data);
        FinalizeKeepsRight(config, t0, s.(data := u.data), finalized);
      }
    }
  }

  /** So does a reorg prune that succeeds, with or without retention. */
  lemma PruneKeepsRight(config: Config, t0: nat, s: Series, n: nat)
    requires Invariant(t0, s) && IndicatorsRight(config, s.data)
    ensures var r := PruneToReorgedBlockNumber(config, s, n);
            r.error.None? ==> IndicatorsRight(config, r.series.data)
  {
    hide Structural;
    hide PruneLoop;
    hide UpdateIndicators;
    PruneLoopIs(t0, s.data, n);
    StructuralHasBlocks(t0, s.data);
    if !FinalizedReaches(s.data, n) {
      var cut := PruneLoop(s.data, n, None);
      TruncatedStructural(t0, s.data, n);
      StructuralHasData(t0, cut.data);
      if cut.pruned.Some? {
        var k := cut.pruned.value;
        CutIsLatest(t0, s.data, n, k);
        RightTransfers(config, s.data, cut.data, k);
        if config.computeIndicators {
          UpdateMakesRight(config, cut.data, k);
          UpdateSucceeds(config, cut.data, k);
        }
      } else {
        UncutIsBefore(t0, s.data, n);
        forall k | k in cut.data ensures cut.data[k].Indicators() == Expected(config, cut.data, k) {
          RightTransfers(config, s.data, cut.data, k + 1);
        }
      }
    }
  }

  /** Before a cut window nothing is removed or changed, and nothing is left after it. */
  lemma CutIsLatest(t0: nat, data: Bars, n: nat, k: nat)
    requires Structural(t0, data) && !FinalizedReaches(data, n) && CutAt(data, n, k)
    requires forall j :: j in data ==> data[j].HasBlocks()
    ensures var r := Truncated(data, n);
            && k in r && r[k].PendingBar? && r[k].Indicators() == None
            && (forall j :: j in r ==> j <= k)
            && forall j: nat :: j < k ==> (j in r <==> j in data) && (j in data ==> r[j] == data[j])
  {
    hide OwnWindow;
    forall j | j in data
      ensures j < k ==> data[j].End() < n && data[j].Start() < n
      ensures j > k ==> data[j].Start() >= n
    {
      assert BarOk(t0, j, data[j]);
    }
  }

  lemma UncutIsBefore(t0: nat, data: Bars, n: nat)
    requires Structural(t0, data)
    requires forall k :: !CutAt(data, n, k)
    requires forall j :: j in data ==> data[j].HasBlocks()
    ensures var r := Truncated(data, n);
            forall k, j: nat :: k in r && j <= k ==> (j in r <==> j in data) && (j in data ==> r[j] == data[j])
  {
    hide OwnWindow;
    forall j | j in data ensures data[j].Start() <= data[j].End() && (data[j].Start() < n ==> data[j].End() < n) {
      assert BarOk(t0, j, data[j]);
      assert !CutAt(data, n, j);
    }
  }
}
