/** Exactly what `prune_to_reorged_block_number` removes, and when it refuses. */
module ReorgPrune {
  import opened Wrappers
  import opened OrderedMaps
  import opened TickData
  import opened TimePriceBar
  import opened Indicators
  import opened BarSeries
  import opened SeriesInvariants

  ghost predicate FinalizedReaches(data: Bars, n: nat) {
    exists k :: k in data && data[k].FinalizedBar? && data[k].finalized.endBlock >= n
  }

  /** The bars without their blocks at or above `n`; only the bar `n` cuts through changes. */
  ghost function Truncated(data: Bars, n: nat): Bars
    requires forall k :: k in data ==> data[k].HasBlocks()
  {
    map k | k in data && data[k].Start() < n ::
      if data[k].PendingBar? && data[k].End() >= n then PendingBar(WithBlocks(Below(data[k].pending.blocks, n)))
      else data[k]
  }

  lemma TruncatedKeys(data: Bars, n: nat)
    requires forall j :: j in data ==> data[j].HasBlocks()
    ensures Truncated(data, n).Keys <= data.Keys
  {
  }

  /** The window `n` cuts through, if it does not fall between two bars. */
  ghost predicate CutAt(data: Bars, n: nat, k: nat) {
    k in data && data[k].HasBlocks() && data[k].Start() < n <= data[k].End()
  }

  lemma BelowRange(blocks: map<nat, Tick>, n: nat)
    requires blocks.Keys != {} && GapFree(blocks) && MinKey(blocks) < n <= MaxKey(blocks)
    ensures var r := Below(blocks, n);
            r.Keys != {} && GapFree(r) && MinKey(r) == MinKey(blocks) && MaxKey(r) == n - 1
  {
    var r := Below(blocks, n);
    assert MinKey(blocks) in r && n - 1 in r;
  }

  lemma TruncatedStructural(t0: nat, data: Bars, n: nat)
    requires Structural(t0, data) && !FinalizedReaches(data, n)
    ensures Structural(t0, Truncated(data, n)) && AllBelow(Truncated(data, n), n)
  {
    hide OwnWindow, Truncated, BarOk;
    StructuralHasBlocks(t0, data);
    TruncatedKeys(data, n);
    var r := Truncated(data, n);
    forall k | k in r
      ensures BarOk(t0, k, r[k]) && r[k].HasBlocks() && data[k].HasBlocks()
      ensures r[k].Start() == data[k].Start() && r[k].End() <= data[k].End() && r[k].End() < n
    {
      TruncatedBar(t0, data, n, k);
    }
    hide Bar.HasBlocks, Bar.Start, Bar.End;
  }

  lemma TruncatedBar(t0: nat, data: Bars, n: nat, k: nat)
    requires Structural(t0, data) && !FinalizedReaches(data, n) && forall j :: j in data ==> data[j].HasBlocks()
    requires k in data && k in Truncated(data, n)
    ensures var r := Truncated(data, n)[k];
            && BarOk(t0, k, r) && r.Start() == data[k].Start() && r.End() <= data[k].End() && r.End() < n
  {
    hide OwnWindow, Reduce;
    assert BarOk(t0, k, data[k]);
    if data[k].PendingBar? && data[k].End() >= n {
      BelowRange(data[k].pending.blocks, n);
    }
  }

  lemma LatestStarts(t0: nat, data: Bars, k: nat, n: nat)
    requires Structural(t0, data) && data.Keys != {} && k == MaxKey(data)
    ensures data[k].HasBlocks()
    ensures data[k].Start() < n ==> forall j :: j in data && j != k ==> data[j].End() < n && data[j].Start() < n
  {
    assert BarOk(t0, k, data[k]);
    forall j | j in data && j != k ensures data[k].Start() < n ==> data[j].End() < n && data[j].Start() < n {
      assert BarOk(t0, j, data[j]);
    }
  }

  /** Dropping a latest bar that starts at or above `n` changes nothing below. */
  lemma DropLatest(t0: nat, data: Bars, k: nat, n: nat)
    requires Structural(t0, data) && k in data && data[k].PendingBar? && data[k].Start() >= n
    ensures Structural(t0, data - {k})
    ensures Truncated(data, n) == Truncated(data - {k}, n)
    ensures FinalizedReaches(data, n) <==> FinalizedReaches(data - {k}, n)
    ensures forall j :: CutAt(data, n, j) <==> CutAt(data - {k}, n, j)
  {
    hide Structural, WithBlocks, Bar.Start, Bar.End;
    StructuralHasBlocks(t0, data);
    SubBarsStructural(t0, data - {k}, data);
    assert Truncated(data, n) == Truncated(data - {k}, n);
    if FinalizedReaches(data, n) {
      var j :| j in data && data[j].FinalizedBar? && data[j].finalized.endBlock >= n;
      assert j in data - {k};
    }
  }

  /** The loop stops at a latest bar that starts below `n`. */
  lemma StopsBelow(data: Bars, n: nat, pruned: Option<nat>)
    requires data.Keys != {} && data[MaxKey(data)].PendingBar? && data[MaxKey(data)].HasBlocks()
    requires data[MaxKey(data)].Start() < n
    ensures data[MaxKey(data)].End() < n ==> PruneLoop(data, n, pruned) == Pruning(data, pruned, None)
  {
  }

  lemma StructuralBarOk(t0: nat, data: Bars, k: nat)
    requires Structural(t0, data) && k in data
    ensures BarOk(t0, k, data[k])
  {
  }

  lemma CutLatest(t0: nat, data: Bars, k: nat, n: nat)
    requires Structural(t0, data) && data.Keys != {} && k == MaxKey(data)
    requires data[k].PendingBar? && data[k].HasBlocks() && data[k].Start() < n
    ensures !FinalizedReaches(data, n)
    ensures forall j :: CutAt(data, n, j) ==> j == k
    ensures data[k].End() < n ==> Truncated(data, n) == data
    ensures data[k].End() >= n ==>
              var cut := data[k := PendingBar(WithBlocks(Below(data[k].pending.blocks, n)))];
              cut == Truncated(data, n) && PruneLoop(cut, n, Some(k)) == Pruning(cut, Some(k), None)
  {
    hide OwnWindow, Structural, Reduce;
    LatestStarts(t0, data, k, n);
    StructuralBarOk(t0, data, k);
    if data[k].End() >= n {
      var cut := data[k := PendingBar(WithBlocks(Below(data[k].pending.blocks, n)))];
      BelowRange(data[k].pending.blocks, n);
      assert cut.Keys == data.Keys;
      StopsBelow(cut, n, Some(k));
      assert cut == Truncated(data, n);
    } else {
      assert Truncated(data, n) == data;
    }
  }

  lemma FinalizedLatest(t0: nat, data: Bars, k: nat, n: nat)
    requires Structural(t0, data) && data.Keys != {} && k == MaxKey(data) && data[k].FinalizedBar?
    ensures FinalizedReaches(data, n) <==> data[k].finalized.endBlock >= n
    ensures !FinalizedReaches(data, n) ==> Truncated(data, n) == data && forall j :: !CutAt(data, n, j)
  {
    hide OwnWindow;
    if data[k].finalized.endBlock < n {
      assert BarOk(t0, k, data[k]);
      LatestStarts(t0, data, k, n);
      assert Truncated(data, n) == data;
    }
  }

  /**
    The loop refuses exactly when a finalized bar ends at or after `n`. Otherwise it removes all
    and only the blocks at or above `n`, and reports the window it cut through.
   */
  lemma {:induction false} PruneLoopIs(t0: nat, data: Bars, n: nat)
    requires Structural(t0, data)
    ensures var r := PruneLoop(data, n, None);
            && r.error == (if FinalizedReaches(data, n) then Some(PruneIntoFinalizedBar) else None)
            && (r.error.None? ==>
                  && r.data == Truncated(data, n)
                  && (r.pruned.None? ==> forall k :: !CutAt(data, n, k))
                  && (r.pruned.Some? ==> CutAt(data, n, r.pruned.value)))
    decreases |data|
  {
    hide OwnWindow;
    hide Truncated;
    if data.Keys != {} {
      var k := MaxKey(data);
      assert BarOk(t0, k, data[k]);
      if data[k].PendingBar? {
        if MinKey(data[k].pending.blocks) >= n {
          DropLatest(t0, data, k, n);
          assert (data - {k}).Keys == data.Keys - {k};
          PruneLoopIs(t0, data - {k}, n);
        } else {
          CutLatest(t0, data, k, n);
        }
      } else {
        FinalizedLatest(t0, data, k, n);
      }
    } else {
      assert Truncated(data, n) == data by { TruncatedEmpty(data, n); }
    }
  }

  lemma TruncatedEmpty(data: Bars, n: nat)
    requires data.Keys == {}
    ensures Truncated(data, n) == data
  {
  }

  lemma SameBarsBelow(a: Bars, b: Bars, n: nat)
    requires SameBars(a, b) && AllBelow(a, n)
    ensures AllBelow(b, n)
  {
    forall k | k in b ensures b[k].HasBlocks() && b[k].End() < n {
      assert Strip(a[k]) == Strip(b[k]);
    }
  }

  /** The same for the whole operation: indicators of the cut bar aside, the bars are cut at `n`. */
  lemma PruneIsExact(config: Config, t0: nat, s: Series, n: nat)
    requires Invariant(t0, s)
    ensures var r := PruneToReorgedBlockNumber(config, s, n);
            && r.error == (if FinalizedReaches(s.data, n) then Some(PruneIntoFinalizedBar) else None)
            && (r.error.None? ==>
                  && Invariant(t0, r.series)
                  && AllBelow(r.series.data, n)
                  && r.series.lastFinalized == s.lastFinalized
                  && SameBars(Truncated(s.data, n), r.series.data)
                  && forall k :: k in r.series.data && !CutAt(s.data, n, k) ==> k in s.data && r.series.data[k] == s.data[k])
  {
    hide Structural, FinalizedReaches, CutAt, AllBelow, Truncated, SameBars;
    hide PruneLoop, PruneToReorgedBlockNumber, Bar.HasBlocks, Bar.Start, Bar.End;
    StructuralHasBlocks(t0, s.data);
    if FinalizedReaches(s.data, n) {
      PruneRefuses(config, t0, s, n);
    } else {
      PrunedBars(config, t0, s, n);
      TruncatedStructural(t0, s.data, n);
      var r := PruneToReorgedBlockNumber(config, s, n).series;
      SameBarsStructural(t0, Truncated(s.data, n), r.data);
      SameBarsBelow(Truncated(s.data, n), r.data, n);
      TruncatedFinals(s.data, n, r.data);
    }
  }

  lemma PruneRefuses(config: Config, t0: nat, s: Series, n: nat)
    requires Structural(t0, s.data) && FinalizedReaches(s.data, n)
    ensures PruneToReorgedBlockNumber(config, s, n).error == Some(PruneIntoFinalizedBar)
  {
    hide Structural, PruneLoop, FinalizedReaches;
    PruneLoopIs(t0, s.data, n);
  }

  lemma PrunedBars(config: Config, t0: nat, s: Series, n: nat)
    requires Structural(t0, s.data) && !FinalizedReaches(s.data, n) && forall k :: k in s.data ==> s.data[k].HasBlocks()
    ensures var r := PruneToReorgedBlockNumber(config, s, n);
            && r.error.None?
            && r.series.lastFinalized == s.lastFinalized
            && SameBars(Truncated(s.data, n), r.series.data)
            && forall k :: k in r.series.data && !CutAt(s.data, n, k) ==> k in s.data && r.series.data[k] == s.data[k]
  {
    hide Structural, PruneLoop, Compute, WithBlocks;
    PruneLoopIs(t0, s.data, n);
  }

  /** No finalized bar is new. */
  lemma TruncatedFinals(data: Bars, n: nat, r: Bars)
    requires (forall k :: k in data ==> data[k].HasBlocks()) && SameBars(Truncated(data, n), r)
    ensures forall k :: k in r && r[k].FinalizedBar? ==> k in data && data[k].FinalizedBar?
  {
    hide WithBlocks, Bar.HasBlocks, Bar.Start, Bar.End;
    forall k | k in r && r[k].FinalizedBar? ensures k in data && data[k].FinalizedBar? {
      assert Strip(Truncated(data, n)[k]) == Strip(r[k]);
    }
  }

  lemma StructuralHasBlocks(t0: nat, data: Bars)
    requires Structural(t0, data)
    ensures forall k :: k in data ==> data[k].HasBlocks()
  {
    hide OwnWindow;
  }
}
