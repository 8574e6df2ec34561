/** When `insert_data` fails, and what it leaves when it does not. */
module InsertOutcome {
  import opened Wrappers
  import opened OrderedMaps
  import opened TickData
  import opened TimePriceBar
  import opened Indicators
  import opened BarSeries
  import opened SeriesInvariants

  /** Blocks are missing before `n`, and the window they are padded into is not that of `n`. */
  predicate PadsEarlierWindow(t0: nat, data: Bars, n: nat) {
    data.Keys != {} && data[MaxKey(data)].HasBlocks() &&
    var last := data[MaxKey(data)].End();
    var w := OwnWindow(t0, last);
    last + 1 < n && w != OwnWindow(t0, n) && !(w in data && data[w].FinalizedBar?)
  }

  /** The block's window is finalized already, or a bar to recompute does not survive retention. */
  predicate InsertFails(config: Config, t0: nat, s: Series, n: nat) {
    var w := OwnWindow(t0, n);
    || (w in s.data && s.data[w].FinalizedBar?)
    || (config.computeIndicators && config.retentionCount == Some(0))
    || (config.computeIndicators && config.retentionCount == Some(1) && PadsEarlierWindow(t0, s.data, n))
  }

  /** The error of an insert that fails; no other error of the source can come of one. */
  function InsertError(config: Config, t0: nat, s: Series, n: nat): Option<Error> {
    var w := OwnWindow(t0, n);
    if w in s.data && s.data[w].FinalizedBar? then Some(BarIsFinalized)
    else if InsertFails(config, t0, s, n) then Some(MissingBar)
    else None
  }

  /**
    The bars after padding and placing, with the windows to recompute: the window of block `n`,
    which is the latest, after at most one other, which is then the latest but one.
   */
  ghost predicate Placed(t0: nat, n: nat, updated: seq<nat>, placed: Bars) {
    var w := OwnWindow(t0, n);
    && Structural(t0, placed) && AllBelow(placed, n + 1)
    && w in placed && placed[w].PendingBar? && placed[w].End() == n
    && (forall k :: k in placed ==> k <= w)
    && 1 <= |updated| <= 2
    && updated[|updated| - 1] == w
    && updated[0] in placed && placed[updated[0]].PendingBar?
    && forall k :: k in placed && k > updated[0] ==> k == w
  }

  /** Apart from the windows to recompute, whose indicators are gone, every bar is as before. */
  ghost predicate OnlyUpdatedChanged(before: Bars, updated: seq<nat>, placed: Bars) {
    && (forall k :: k in before ==> k in placed)
    && (forall k :: k in placed ==>
          if k in updated then placed[k].Indicators() == None else k in before && placed[k] == before[k])
  }

  /** What padding changed: at most one window, which is then the latest. */
  lemma PadLatest(t0: nat, s: Series, n: nat)
    requires Clock(t0) && Invariant(t0, s) && AllBelow(s.data, n)
    ensures PadFits(s.data, n, BlockTime(t0, n))
    ensures var w := OwnWindow(t0, n);
            var r := Pad(s.data, n, BlockTime(t0, n));
            && (r.updated == [] ==> r.data == s.data && !PadsEarlierWindow(t0, s.data, n))
            && (r.updated != [] ==>
                  && |r.updated| == 1
                  && var p := r.updated[0];
                  && p in r.data && r.data[p].PendingBar? && p <= w && r.data[p].Indicators() == None
                  && (forall k :: k in r.data ==> k <= p)
                  && (forall k :: k in s.data ==> k in r.data)
                  && (forall k :: k in r.data && k != p ==> k in s.data && r.data[k] == s.data[k])
                  && (w in s.data ==> w == p && s.data[w].PendingBar?)
                  && (PadsEarlierWindow(t0, s.data, n) <==> p != w))
  {
    hide OwnWindow;
    hide Structural;
    hide Pad, AllBelow, Filled, Reduce;
    PadShape(t0, s.data, n);
    if s.data.Keys != {} {
      LatestBounds(t0, s.data, n);
    }
  }

  lemma PadThenPlace(t0: nat, s: Series, n: nat, tick: Tick)
    requires Clock(t0) && Invariant(t0, s) && AllBelow(s.data, n)
    ensures PadFits(s.data, n, BlockTime(t0, n))
    ensures var w := OwnWindow(t0, n);
            var padded := Pad(s.data, n, BlockTime(t0, n));
            var placed := Place(padded.data, n, tick, w);
            if w in s.data && s.data[w].FinalizedBar? then placed == Err(BarIsFinalized)
            else
              && placed.Ok?
              && Placed(t0, n, padded.updated + [w], placed.value)
              && (PadsEarlierWindow(t0, s.data, n) <==> (padded.updated + [w])[0] != w)
              && (forall k :: k in placed.value && placed.value[k].FinalizedBar? ==> k in s.data && s.data[k].FinalizedBar?)
  {
    hide OwnWindow;
    hide Structural;
    hide Pad;
    hide PadsEarlierWindow;
    hide AllBelow, WithBlocks, Bar.Start, Place;
    PadLatest(t0, s, n);
    PadStep(t0, s.data, n);
    var w := OwnWindow(t0, n);
    var padded := Pad(s.data, n, BlockTime(t0, n));
    PlaceStep(t0, padded.data, n, tick);
    if !(w in padded.data && padded.data[w].FinalizedBar?) {
      UpsertStructural(t0, padded.data, w, n, n + 1, tick);
    }
  }

  /** Nothing else changes before retention. */
  lemma PlacedChanges(t0: nat, s: Series, n: nat, tick: Tick)
    requires Clock(t0) && Invariant(t0, s) && AllBelow(s.data, n)
    requires PadFits(s.data, n, BlockTime(t0, n))
    requires var w := OwnWindow(t0, n); !(w in s.data && s.data[w].FinalizedBar?)
    ensures var w := OwnWindow(t0, n);
            var padded := Pad(s.data, n, BlockTime(t0, n));
            var placed := Place(padded.data, n, tick, w);
            placed.Ok? && OnlyUpdatedChanged(s.data, padded.updated + [w], placed.value)
  {
    hide OwnWindow;
    hide Structural;
    hide Pad;
    hide PadsEarlierWindow;
    hide Place, AllBelow, CanAppend, ReadyFor, Reduce, Filled;
    PadLatest(t0, s, n);
    PadStep(t0, s.data, n);
    PlaceStep(t0, Pad(s.data, n, BlockTime(t0, n)).data, n, tick);
  }

  /** After popping to `count` bars, which of the windows to recompute are left. */
  lemma RetainedUpdates(placed: Bars, count: nat, p: nat, w: nat)
    requires p in placed && w in placed && p <= w
    requires forall k :: k in placed ==> k <= w
    requires forall k :: k in placed && k > p ==> k == w
    ensures w in PopTo(placed, count) <==> count > 0
    ensures p in PopTo(placed, count) <==> count > 1 || (count == 1 && p == w)
  {
    var kept := PopTo(placed, count);
    PopToKeepsLatest(placed, count);
    assert w in placed.Keys && p in placed.Keys;
    if p != w {
      SubsetSize({p, w}, placed.Keys);
    } else {
      SubsetSize({w}, placed.Keys);
    }
    if p !in kept {
      assert kept.Keys <= {w};
      SubsetSize(kept.Keys, {w});
    } else if p != w {
      assert w in kept;
      SubsetSize({p, w}, kept.Keys);
    }
    if w !in kept {
      assert kept.Keys == {};
    } else {
      SubsetSize({w}, kept.Keys);
    }
  }

  lemma {:induction false} SubsetSize(a: set<nat>, b: set<nat>)
    requires a <= b
    ensures |a| <= |b|
  {
    if a != {} {
      var x :| x in a;
      SubsetSize(a - {x}, b - {x});
    }
  }

  lemma KeptStructural(t0: nat, placed: Bars, retention: Option<nat>)
    requires Structural(t0, placed)
    ensures Structural(t0, PruneToRetentionCount(placed, retention))
    ensures SubBars(PruneToRetentionCount(placed, retention), placed)
  {
    if retention.Some? {
      PopToKeepsLatest(placed, retention.value);
    }
    SubBarsStructural(t0, PruneToRetentionCount(placed, retention), placed);
  }

  /** Retention keeps every window to recompute unless it keeps too few bars. */
  lemma UpdatesSurvive(config: Config, t0: nat, n: nat, updated: seq<nat>, placed: Bars)
    requires Placed(t0, n, updated, placed)
    ensures var kept := PruneToRetentionCount(placed, config.retentionCount);
            && Structural(t0, kept)
            && SubBars(kept, placed)
            && ((forall i :: 0 <= i < |updated| ==> updated[i] in kept && kept[updated[i]].PendingBar?) <==>
                  !(config.retentionCount == Some(0) || (config.retentionCount == Some(1) && updated[0] != OwnWindow(t0, n))))
            && (config.retentionCount != Some(0) ==> OwnWindow(t0, n) in kept)
  {
    hide OwnWindow;
    hide Structural;
    var w := OwnWindow(t0, n);
    var kept := PruneToRetentionCount(placed, config.retentionCount);
    if config.retentionCount.Some? {
      PopToKeepsLatest(placed, config.retentionCount.value);
      RetainedUpdates(placed, config.retentionCount.value, updated[0], w);
    }
    SubBarsStructural(t0, kept, placed);
  }

  /** When every window to recompute that is there is pending, the one error is that of a missing one. */
  lemma {:induction false} MissingIsTheError(config: Config, kept: Bars, updated: seq<nat>)
    requires forall i :: 0 <= i < |updated| && updated[i] in kept ==> kept[updated[i]].PendingBar?
    ensures UpdateAll(config, kept, updated).error.Some? ==> UpdateAll(config, kept, updated).error.value == MissingBar
    decreases |updated|
  {
    hide Compute;
    if updated != [] && config.computeIndicators && updated[0] in kept {
      var first := UpdateIndicators(config, kept, updated[0]).data;
      forall i | 0 <= i < |updated[1..]| && updated[1..][i] in first ensures first[updated[1..][i]].PendingBar? {
        assert updated[1..][i] == updated[i + 1];
      }
      MissingIsTheError(config, first, updated[1..]);
    }
  }

  /** `insert_data` on the uniform clock, step by step. */
  lemma InsertUnfolds(config: Config, t0: nat, s: Series, n: nat, tick: Tick, finalized: Option<nat>)
    requires PadFits(s.data, n, BlockTime(t0, n))
    ensures var padded := Pad(s.data, n, BlockTime(t0, n));
            var placed := Place(padded.data, n, tick, OwnWindow(t0, n));
            InsertData(config, s, n, tick, BlockTime(t0, n), finalized) ==
              if placed.Err? then Outcome(s.(data := padded.data), Some(placed.error))
              else
                var kept := PruneToRetentionCount(placed.value, config.retentionCount);
                var updated := UpdateAll(config, kept, padded.updated + [OwnWindow(t0, n)]);
                if updated.error.Some? then Outcome(s.(data := updated.data), updated.error)
                else Finalize(s.(data := updated.data), finalized)
  {
  }

  /** After an insert the latest bar is that of the block's own window, and ends in the block. */
  ghost predicate EndsIn(t0: nat, data: Bars, n: nat) {
    var w := OwnWindow(t0, n);
    && w in data && data[w].HasBlocks() && data[w].End() == n
    && forall k :: k in data ==> k <= w
  }

  /**
    `insert_data` of a new latest block fails in exactly the cases of `InsertFails`; otherwise it
    keeps the invariant and the block ends the latest bar, unless no bar is retained at all.
   */
  lemma InsertKeepsInvariant(config: Config, t0: nat, s: Series, n: nat, tick: Tick, finalized: Option<nat>)
    requires Clock(t0) && Invariant(t0, s) && AllBelow(s.data, n)
    ensures PadFits(s.data, n, BlockTime(t0, n))
    ensures var r := InsertData(config, s, n, tick, BlockTime(t0, n), finalized);
            && r.error == InsertError(config, t0, s, n)
            && (r.error.None? ==>
                  && Invariant(t0, r.series)
                  && AllBelow(r.series.data, n + 1)
                  && (config.retentionCount != Some(0) ==> EndsIn(t0, r.series.data, n)))
  {
    hide OwnWindow;
    hide Structural;
    hide Pad;
    hide Place;
    hide PadsEarlierWindow;
    hide PruneToRetentionCount;
    hide UpdateAll;
    hide Finalize;
    hide InsertData, PadFits, Bar.HasBlocks;
    PadThenPlace(t0, s, n, tick);
    InsertUnfolds(config, t0, s, n, tick, finalized);
    var w := OwnWindow(t0, n);
    if !(w in s.data && s.data[w].FinalizedBar?) {
      var padded := Pad(s.data, n, BlockTime(t0, n));
      var placed := Place(padded.data, n, tick, w).value;
      var updated := padded.updated + [w];
      UpdatesSurvive(config, t0, n, updated, placed);
      var kept := PruneToRetentionCount(placed, config.retentionCount);
      UpdateAllKeeps(config, kept, updated);
      MissingIsTheError(config, kept, updated);
      var u := UpdateAll(config, kept, updated);
      if u.error.None? {
        AfterUpdate(t0, s, n, placed, kept, u.data);
        FinalizeIs(t0, s.(data := u.data), finalized);
        FinalizeStep(t0, s.(data := u.data), finalized);
      }
    }
  }

  lemma AfterUpdate(t0: nat, s: Series, n: nat, placed: Bars, kept: Bars, after: Bars)
    requires Structural(t0, kept) && SubBars(kept, placed) && SameBars(kept, after)
    requires AllBelow(placed, n + 1)
    requires Behind(s) && forall k :: k in placed && placed[k].FinalizedBar? ==> k in s.data && s.data[k].FinalizedBar?
    ensures Invariant(t0, s.(data := after))
    ensures AllBelow(after, n + 1)
  {
    hide OwnWindow, Structural, Bar.HasBlocks, Bar.End, Strip;
    SameBarsStructural(t0, kept, after);
    forall k | k in after
      ensures after[k].HasBlocks() && after[k].End() < n + 1
      ensures after[k].FinalizedBar? <==> kept[k].FinalizedBar?
    {
      assert Strip(kept[k]) == Strip(after[k]) && placed[k].HasBlocks();
      SameStrip(kept[k], after[k]);
    }
  }

  lemma SameStrip(a: Bar, b: Bar)
    requires Strip(a) == Strip(b)
    ensures (a.FinalizedBar? <==> b.FinalizedBar?) && (a.HasBlocks() <==> b.HasBlocks())
    ensures a.HasBlocks() ==> a.End() == b.End()
  {
  }
}
