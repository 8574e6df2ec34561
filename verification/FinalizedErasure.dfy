/**
  A reorg leaves no trace under finalization either: the series a run with reorgs ends in is that of
  the surviving observations, with the windows up to the frontier finalized.
 */
module FinalizedErasure {
  import opened Wrappers
  import opened OrderedMaps
  import opened TickData
  import opened TimePriceBar
  import opened Indicators
  import opened BarSeries
  import opened SeriesInvariants
  import opened InsertOutcome
  import opened ReorgPrune
  import opened CachedIndicators
  import opened SeriesRuns
  import opened ReorgErasure
  import opened Frontier

  /** The same bar, but finalized or not; cached indicators aside. */
  ghost predicate SameButFinal(a: Bar, b: Bar) {
    && b.PendingBar? && a.HasBlocks() && b.HasBlocks()
    && a.Start() == b.Start() && a.End() == b.End() && a.Data() == b.Data()
    && (a.PendingBar? ==> a.pending.blocks == b.pending.blocks)
  }

  /** `u` is the series `f` would be if nothing had been finalized. */
  ghost predicate Mirrors(f: Bars, u: Bars) {
    f.Keys == u.Keys && forall k :: k in f ==> SameButFinal(f[k], u[k])
  }

  lemma StripKeepsSame(a: Bar, c: Bar, b: Bar, d: Bar)
    requires SameButFinal(a, b) && Strip(a) == Strip(c) && Strip(b) == Strip(d)
    ensures SameButFinal(c, d)
  {
  }

  lemma SameBarsMirror(f: Bars, u: Bars, g: Bars, v: Bars)
    requires Mirrors(f, u) && SameBars(f, g) && SameBars(u, v)
    ensures Mirrors(g, v)
  {
    hide SameButFinal, Strip;
    forall k | k in g ensures SameButFinal(g[k], v[k]) {
      StripKeepsSame(f[k], g[k], u[k], v[k]);
    }
  }

  lemma MirrorBelow(f: Bars, u: Bars, n: nat)
    requires Mirrors(f, u)
    ensures AllBelow(f, n) <==> AllBelow(u, n)
    ensures !FinalizedReaches(u, n)
  {
  }

  // ---- inserts ----------------------------------------------------------------------------

  lemma UpsertMirrors(t0: nat, f: Bars, u: Bars, k: nat, lo: nat, hi: nat, tick: Tick)
    requires Mirrors(f, u) && Structural(t0, f) && Structural(t0, u)
    requires CanAppend(t0, f, k, lo, hi) && CanAppend(t0, u, k, lo, hi)
    ensures Mirrors(Upsert(f, k, lo, hi, tick), Upsert(u, k, lo, hi, tick))
  {
    hide Structural, OwnWindow, Bar.Start, Bar.End, Reduce;
    SameBar(t0, f, u, k, lo, hi, tick);
    var g, v := Upsert(f, k, lo, hi, tick), Upsert(u, k, lo, hi, tick);
    forall j | j in g ensures SameButFinal(g[j], v[j]) {
      if j != k { assert g[j] == f[j] && v[j] == u[j]; }
    }
  }

  /** The window that gains the blocks is pending in both, so it gains the same bar. */
  lemma SameBar(t0: nat, f: Bars, u: Bars, k: nat, lo: nat, hi: nat, tick: Tick)
    requires Mirrors(f, u) && Structural(t0, u) && CanAppend(t0, f, k, lo, hi) && CanAppend(t0, u, k, lo, hi)
    ensures Upsert(f, k, lo, hi, tick)[k] == Upsert(u, k, lo, hi, tick)[k]
    ensures SameButFinal(Upsert(f, k, lo, hi, tick)[k], Upsert(u, k, lo, hi, tick)[k])
  {
    hide OwnWindow;
    UpsertBar(t0, u, k, lo, hi, tick);
  }

  /** When blocks are missing, the latest bar is pending. */
  ghost predicate PadsPending(data: Bars, n: nat) {
    data.Keys != {} ==>
      var top := data[MaxKey(data)];
      top.HasBlocks() && (top.End() + 1 == n || top.PendingBar?)
  }

  lemma SamePadFrom(f: Bars, u: Bars, n: nat)
    requires Mirrors(f, u) && PadsPending(f, n)
    ensures PadFrom(f, n) == PadFrom(u, n)
  {
  }

  lemma PadMirrors(t0: nat, f: Series, u: Series, n: nat)
    requires Clock(t0) && Invariant(t0, f) && Split(f) && Structural(t0, u.data) && Mirrors(f.data, u.data)
    requires AllBelow(f.data, n) && PadsAhead(t0, f, n) && PadsPending(f.data, n)
    ensures PadFits(f.data, n, BlockTime(t0, n)) && PadFits(u.data, n, BlockTime(t0, n))
    ensures var pf := Pad(f.data, n, BlockTime(t0, n));
            var pu := Pad(u.data, n, BlockTime(t0, n));
            Mirrors(pf.data, pu.data) && pf.updated == pu.updated
  {
    hide OwnWindow, Structural, Pad, SameButFinal, CanAppend, Reduce;
    MirrorBelow(f.data, u.data, n);
    PadShape(t0, f.data, n);
    PadShape(t0, u.data, n);
    SamePadFrom(f.data, u.data, n);
    if f.data.Keys != {} {
      var top := MaxKey(f.data);
      assert SameButFinal(f.data[top], u.data[top]);
      SameEnds(f.data[top], u.data[top]);
      var last := f.data[top].End();
      var pf := Pad(f.data, n, BlockTime(t0, n));
      var pu := Pad(u.data, n, BlockTime(t0, n));
      NeitherBlocked(t0, f, u.data, n);
      if pf.updated != [] {
        UpsertMirrors(t0, f.data, u.data, pf.updated[0], last + 1, n, PadFrom(f.data, n).value.1);
      }
    }
  }

  lemma SameEnds(a: Bar, b: Bar)
    requires SameButFinal(a, b)
    ensures a.HasBlocks() && b.HasBlocks() && a.End() == b.End()
  {
  }

  /** Padding is needed in both or in neither, and goes ahead in both. */
  lemma NeitherBlocked(t0: nat, f: Series, u: Bars, n: nat)
    requires Split(f) && Mirrors(f.data, u) && PadsAhead(t0, f, n) && f.data.Keys != {}
    ensures f.data[MaxKey(f.data)].HasBlocks() && u[MaxKey(u)].HasBlocks()
    ensures var last := f.data[MaxKey(f.data)].End();
            && last == u[MaxKey(u)].End()
            && (NotPadded(t0, f.data, n) <==> last + 1 == n)
            && (NotPadded(t0, u, n) <==> last + 1 == n)
  {
    hide OwnWindow, Reduce;
    assert SameButFinal(f.data[MaxKey(f.data)], u[MaxKey(u)]);
  }

  lemma PlaceMirrors(t0: nat, f: Bars, u: Bars, n: nat, tick: Tick)
    requires Clock(t0) && ReadyFor(t0, f, n) && ReadyFor(t0, u, n) && Mirrors(f, u)
    requires Place(f, n, tick, OwnWindow(t0, n)).Ok?
    ensures var w := OwnWindow(t0, n);
            && Place(u, n, tick, w).Ok?
            && Mirrors(Place(f, n, tick, w).value, Place(u, n, tick, w).value)
  {
    hide OwnWindow, Structural, Place, Mirrors, CanAppend, Upsert;
    PlaceStep(t0, f, n, tick);
    PlaceStep(t0, u, n, tick);
    NoneFinal(f, u);
    UpsertMirrors(t0, f, u, OwnWindow(t0, n), n, n + 1, tick);
  }

  lemma NoneFinal(f: Bars, u: Bars)
    requires Mirrors(f, u)
    ensures forall k :: k in u ==> u[k].PendingBar?
  {
  }

  lemma UpdatesMirror(config: Config, f: Bars, u: Bars, updated: seq<nat>)
    requires Mirrors(f, u)
    ensures Mirrors(UpdateAll(config, f, updated).data, UpdateAll(config, u, updated).data)
  {
    hide SameButFinal, UpdateAll;
    UpdateAllKeeps(config, f, updated);
    UpdateAllKeeps(config, u, updated);
    SameBarsMirror(f, u, UpdateAll(config, f, updated).data, UpdateAll(config, u, updated).data);
  }

  lemma FinalizeMirrors(t0: nat, f: Series, u: Bars, finalized: Option<nat>)
    requires Invariant(t0, f) && Mirrors(f.data, u)
    ensures Mirrors(Finalize(f, finalized).series.data, u)
  {
    hide Structural, Finalize, Reduce;
    FinalizeIs(t0, f, finalized);
    var g := Finalize(f, finalized).series.data;
    forall k | k in g ensures SameButFinal(g[k], u[k]) {
      assert SameButFinal(f.data[k], u[k]);
      if Covers(f, finalized, k) { StructuralBarsFinalize(t0, f.data, k); }
    }
  }

  /** What an insert may rely on: no padding behind the frontier, and none after a finalized bar. */
  ghost predicate ReadyToInsert(t0: nat, f: Series, o: Sighting) {
    && Invariant(t0, f) && Split(f) && Contiguous(f.data) && AllBelow(f.data, o.block)
    && PastFrontier(t0, f, o) && PadsAhead(t0, f, o.block) && PadsPending(f.data, o.block)
  }

  lemma InsertMirrors(config: Config, t0: nat, f: Series, u: Series, o: Sighting)
    requires Clock(t0) && config.retentionCount.None? && ReadyToInsert(t0, f, o)
    requires Structural(t0, u.data) && Mirrors(f.data, u.data)
    requires Apply(config, t0, f, Insert(o.block, o.tick, o.finalized)).Some?
    requires Apply(config, t0, u, Insert(o.block, o.tick, None)).Some?
    ensures Mirrors(Apply(config, t0, f, Insert(o.block, o.tick, o.finalized)).value.data,
                    Apply(config, t0, u, Insert(o.block, o.tick, None)).value.data)
  {
    hide OwnWindow, Structural, Pad, Place, UpdateAll, InsertData, Finalize, PadFits, PastFrontier, Split, Contiguous, PadsAhead, PadsPending, Mirrors;
    var n := o.block;
    InsertUnfolds(config, t0, f, n, o.tick, o.finalized);
    InsertUnfolds(config, t0, u, n, o.tick, None);
    PadMirrors(t0, f, u, n);
    PadStep(t0, f.data, n);
    PadStep(t0, u.data, n);
    var pf := Pad(f.data, n, BlockTime(t0, n));
    var pu := Pad(u.data, n, BlockTime(t0, n));
    PlaceMirrors(t0, pf.data, pu.data, n, o.tick);
    var placed := Place(pf.data, n, o.tick, OwnWindow(t0, n)).value;
    var updated := pf.updated + [OwnWindow(t0, n)];
    UpdatesMirror(config, placed, Place(pu.data, n, o.tick, OwnWindow(t0, n)).value, updated);
    var after := UpdateAll(config, placed, updated).data;
    PlacedInvariant(config, t0, f, o);
    FinalizeMirrors(t0, f.(data := after), UpdateAll(config, Place(pu.data, n, o.tick, OwnWindow(t0, n)).value, updated).data, o.finalized);
    FinalizeNothing(u.(data := UpdateAll(config, Place(pu.data, n, o.tick, OwnWindow(t0, n)).value, updated).data));
  }

  lemma FinalizeNothing(s: Series)
    ensures Finalize(s, None) == Outcome(s, None)
  {
  }

  /** The invariant before the frontier moves. */
  lemma PlacedInvariant(config: Config, t0: nat, f: Series, o: Sighting)
    requires Clock(t0) && Invariant(t0, f) && AllBelow(f.data, o.block)
    requires PadFits(f.data, o.block, BlockTime(t0, o.block))
    requires Place(Pad(f.data, o.block, BlockTime(t0, o.block)).data, o.block, o.tick, OwnWindow(t0, o.block)).Ok?
    ensures var pf := Pad(f.data, o.block, BlockTime(t0, o.block));
            var placed := Place(pf.data, o.block, o.tick, OwnWindow(t0, o.block)).value;
            Invariant(t0, f.(data := UpdateAll(config, placed, pf.updated + [OwnWindow(t0, o.block)]).data))
  {
    hide OwnWindow, Structural, Pad, Place, UpdateAll;
    PadThenPlace(t0, f, o.block, o.tick);
    var pf := Pad(f.data, o.block, BlockTime(t0, o.block));
    var placed := Place(pf.data, o.block, o.tick, OwnWindow(t0, o.block)).value;
    var updated := pf.updated + [OwnWindow(t0, o.block)];
    UpdateAllKeeps(config, placed, updated);
    AfterUpdate(t0, f, o.block, placed, placed, UpdateAll(config, placed, updated).data);
  }

  // ---- rollbacks --------------------------------------------------------------------------

  lemma BothHaveBlocks(f: Bars, u: Bars)
    requires Mirrors(f, u)
    ensures (forall k :: k in f ==> f[k].HasBlocks()) && forall k :: k in u ==> u[k].HasBlocks()
  {
  }

  lemma CutMirrors(a: Bar, b: Bar, n: nat)
    requires SameButFinal(a, b) && a.PendingBar? && a.Start() < n
    ensures var blocks := Below(a.pending.blocks, n);
            && a.pending.blocks == b.pending.blocks
            && SameButFinal(PendingBar(WithBlocks(blocks)), PendingBar(WithBlocks(Below(b.pending.blocks, n))))
  {
    hide Reduce;
    assert MinKey(a.pending.blocks) in Below(a.pending.blocks, n).Keys;
  }

  lemma TruncatedMirrors(f: Bars, u: Bars, n: nat)
    requires Mirrors(f, u) && !FinalizedReaches(f, n)
    requires (forall k :: k in f ==> f[k].HasBlocks()) && forall k :: k in u ==> u[k].HasBlocks()
    ensures Mirrors(Truncated(f, n), Truncated(u, n))
  {
    hide WithBlocks;
    var g, v := Truncated(f, n), Truncated(u, n);
    assert forall k :: k in f ==> SameButFinal(f[k], u[k]);
    forall k | k in g ensures SameButFinal(g[k], v[k]) {
      if f[k].PendingBar? && f[k].End() >= n { CutMirrors(f[k], u[k], n); }
    }
  }

  lemma PruneMirrors(config: Config, t0: nat, f: Series, u: Series, n: nat)
    requires Invariant(t0, f) && Invariant(t0, u) && Mirrors(f.data, u.data) && !FinalizedReaches(f.data, n)
    ensures var rf := PruneToReorgedBlockNumber(config, f, n);
            var ru := PruneToReorgedBlockNumber(config, u, n);
            && rf.error.None? && ru.error.None?
            && Mirrors(rf.series.data, ru.series.data) && Invariant(t0, ru.series)
  {
    hide Structural, PruneToReorgedBlockNumber, SameButFinal, Truncated, Mirrors, FinalizedReaches;
    BothHaveBlocks(f.data, u.data);
    MirrorBelow(f.data, u.data, n);
    PruneIsExact(config, t0, f, n);
    PruneIsExact(config, t0, u, n);
    TruncatedMirrors(f.data, u.data, n);
    SameBarsMirror(Truncated(f.data, n), Truncated(u.data, n),
                   PruneToReorgedBlockNumber(config, f, n).series.data, PruneToReorgedBlockNumber(config, u, n).series.data);
  }

  // ---- runs -------------------------------------------------------------------------------

  lemma TipIsReady(t0: nat, f: Series, o: Sighting)
    requires FrontierOk(t0, f) && PastFrontier(t0, f, o) && AllBelow(f.data, o.block)
    ensures ReadyToInsert(t0, f, o)
  {
    hide Structural, PastFrontier, OwnWindow;
    TipPadsAhead(t0, f, o.block);
  }

  lemma PrunedIsReady(config: Config, t0: nat, f: Series, o: Sighting)
    requires FrontierOk(t0, f) && PastFrontier(t0, f, o) && !FinalizedReaches(f.data, o.block) && !AllBelow(f.data, o.block)
    ensures ReadyToInsert(t0, PruneToReorgedBlockNumber(config, f, o.block).series, o)
  {
    hide Structural, FrontierOk, OwnWindow, PruneToReorgedBlockNumber, Contiguous, Split, AllBelow, FinalizedReaches, PadsAhead;
    PrunePastFrontier(config, t0, f, o.block);
  }

  /** Seeing a block in a series and in the one without finalization. */
  lemma SeeMirrors(config: Config, t0: nat, f: Series, u: Series, o: Sighting)
    requires Clock(t0) && config.retentionCount.None? && FrontierOk(t0, f) && PastFrontier(t0, f, o)
    requires Invariant(t0, u) && Mirrors(f.data, u.data)
    requires See(config, t0, f, o).Some? && Observe(config, t0, u, Observation(o.block, o.tick)).Some?
    ensures Mirrors(See(config, t0, f, o).value.data, Observe(config, t0, u, Observation(o.block, o.tick)).value.data)
  {
    hide Structural, OwnWindow, InsertData, PruneToReorgedBlockNumber, PastFrontier, Mirrors, PadFits, AllBelow, ReadyToInsert, Split, Contiguous, Tip, FinalizedReaches;
    MirrorBelow(f.data, u.data, o.block);
    if AllBelow(f.data, o.block) {
      TipIsReady(t0, f, o);
      InsertMirrors(config, t0, f, u, o);
    } else {
      PruneIsExact(config, t0, f, o.block);
      PrunedIsReady(config, t0, f, o);
      PruneMirrors(config, t0, f, u, o.block);
      InsertMirrors(config, t0, PruneToReorgedBlockNumber(config, f, o.block).series, PruneToReorgedBlockNumber(config, u, o.block).series, o);
    }
  }

  lemma SeeKeepsRight(config: Config, t0: nat, s: Series, o: Sighting)
    requires Clock(t0) && config.retentionCount.None? && Invariant(t0, s) && IndicatorsRight(config, s.data)
    requires See(config, t0, s, o).Some?
    ensures IndicatorsRight(config, See(config, t0, s, o).value.data)
  {
    hide Apply, Invariant, IndicatorsRight, AllBelow;
    var insert := Insert(o.block, o.tick, o.finalized);
    if AllBelow(s.data, o.block) {
      ApplyKeeps(config, t0, s, insert);
    } else {
      ApplyKeeps(config, t0, s, Prune(o.block));
      ApplyKeeps(config, t0, Apply(config, t0, s, Prune(o.block)).value, insert);
    }
  }

  /** The observations of a run, without what each finalizes. */
  function Observed(os: seq<Sighting>): (r: seq<Observation>)
    ensures |r| == |os| && forall i :: 0 <= i < |r| ==> r[i] == Observation(os[i].block, os[i].tick)
  {
    seq(|os|, i requires 0 <= i < |os| => Observation(os[i].block, os[i].tick))
  }

  /** The latest window any of the blocks seen has finalized, rolled back since or not. */
  function Highest(os: seq<Sighting>): Option<nat> {
    if os == [] then None
    else
      var before, last := Highest(os[..|os| - 1]), os[|os| - 1].finalized;
      if last.Some? && (before.None? || last.value > before.value) then last else before
  }

  lemma {:induction false} RunMirrors(config: Config, t0: nat, os: seq<Sighting>)
    requires Clock(t0) && config.retentionCount.None? && SeeAll(config, t0, os).Some?
    ensures ObserveAll(config, t0, Observed(os)).Some?
    ensures var f, u := SeeAll(config, t0, os).value, ObserveAll(config, t0, Observed(os)).value;
            && FrontierOk(t0, f) && IndicatorsRight(config, f.data) && f.lastFinalized == Highest(os)
            && Invariant(t0, u) && IndicatorsRight(config, u.data)
            && Mirrors(f.data, u.data)
    decreases |os|
  {
    hide See, Observe, FrontierOk, PastFrontier, Mirrors, Structural, History, Surviving;
    RunHoldsSurviving(config, t0, Observed(os));
    EveryRunSplitsAtTheFrontier(config, t0, os);
    if os == [] {
      EmptyMirrors(config);
    } else {
      var front, o := os[..|os| - 1], os[|os| - 1];
      RunMirrors(config, t0, front);
      assert Observed(os)[..|os| - 1] == Observed(front);
      var f, u := SeeAll(config, t0, front).value, ObserveAll(config, t0, Observed(front)).value;
      SeeFailsIff(config, t0, f, o);
      FrontierIsInvariant(t0, f);
      SeeKeepsRight(config, t0, f, o);
      SeeMirrors(config, t0, f, u, o);
    }
  }

  lemma FrontierIsInvariant(t0: nat, s: Series)
    requires FrontierOk(t0, s)
    ensures Invariant(t0, s) && Split(s)
  {
    hide Structural;
  }

  lemma EmptyMirrors(config: Config)
    ensures Mirrors(EmptySeries.data, EmptySeries.data) && IndicatorsRight(config, EmptySeries.data)
  {
  }

  /** The bars with those at or before the frontier finalized. */
  function FinalizedUpTo(data: Bars, frontier: Option<nat>): Bars
    requires forall k :: k in data ==> data[k].PendingBar? && AsFinalized(data[k].pending).Some?
  {
    if frontier.None? then data else FinalizedIn(data, 0, frontier.value)
  }

  /** Mirrored bars with right indicators are the same bar, finalized or not. */
  lemma MirroredBar(config: Config, t0: nat, f: Series, u: Bars, k: nat)
    requires Structural(t0, u) && Split(f) && Mirrors(f.data, u) && k in u
    requires IndicatorsRight(config, f.data) && IndicatorsRight(config, u)
    ensures u[k].PendingBar? && AsFinalized(u[k].pending).Some?
    ensures f.data[k] == if BeforeFrontier(f.lastFinalized, k) then FinalizedBar(AsFinalized(u[k].pending).value) else u[k]
  {
    hide OwnWindow, Batch, Reduce;
    assert SameButFinal(f.data[k], u[k]);
    StructuralBarsFinalize(t0, u, k);
    assert Closes(f.data) == Closes(u) by { SameCloses(f.data, u); }
  }

  lemma SameCloses(f: Bars, u: Bars)
    requires Mirrors(f, u)
    ensures Closes(f) == Closes(u)
  {
    forall k | k in f ensures f[k].Data() == u[k].Data() {
      assert SameButFinal(f[k], u[k]);
    }
    assert Closes(f).Keys == Closes(u).Keys;
  }

  /**
    A run that finalizes as it goes, with reorgs to blocks no finalized bar reaches, ends in the bars
    of the run that only ever saw the observations that survived, exactly those up to the highest
    window ever finalized being finalized.
   */
  lemma FinalizedReorgsLeaveNoTrace(config: Config, t0: nat, os: seq<Sighting>)
    requires Clock(t0) && config.retentionCount.None? && SeeAll(config, t0, os).Some?
    ensures var u := ObserveAll(config, t0, Surviving(Observed(os)));
            && u.Some?
            && (forall k :: k in u.value.data ==> u.value.data[k].PendingBar? && AsFinalized(u.value.data[k].pending).Some?)
            && SeeAll(config, t0, os).value == Series(FinalizedUpTo(u.value.data, Highest(os)), Highest(os))
  {
    hide SeeAll, ObserveAll, Structural, Split, Mirrors, IndicatorsRight, FrontierOk, AsFinalized, Surviving, Tip, Contiguous;
    RunMirrors(config, t0, os);
    ReorgsLeaveNoTrace(config, t0, Observed(os));
    var f, u := SeeAll(config, t0, os).value, ObserveAll(config, t0, Observed(os)).value;
    FrontierIsInvariant(t0, f);
    forall k | k in u.data
      ensures u.data[k].PendingBar? && AsFinalized(u.data[k].pending).Some? && k in f.data
      ensures f.data[k] == if BeforeFrontier(f.lastFinalized, k) then FinalizedBar(AsFinalized(u.data[k].pending).value) else u.data[k]
    {
      assert f.data.Keys == u.data.Keys by { MirrorKeys(f.data, u.data); }
      MirroredBar(config, t0, f, u.data, k);
    }
    MirrorKeys(f.data, u.data);
    assert f.data == FinalizedUpTo(u.data, Highest(os));
  }

  lemma MirrorKeys(f: Bars, u: Bars)
    requires Mirrors(f, u)
    ensures f.Keys == u.Keys
  {
  }

  /** So two runs with the same surviving observations and the same frontier end in the same series. */
  lemma SameSurvivorsSameSeries(config: Config, t0: nat, os: seq<Sighting>, ps: seq<Sighting>)
    requires Clock(t0) && config.retentionCount.None? && SeeAll(config, t0, os).Some? && SeeAll(config, t0, ps).Some?
    requires Surviving(Observed(os)) == Surviving(Observed(ps)) && Highest(os) == Highest(ps)
    ensures SeeAll(config, t0, os) == SeeAll(config, t0, ps)
  {
    hide SeeAll, ObserveAll, Surviving, FinalizedUpTo;
    FinalizedReorgsLeaveNoTrace(config, t0, os);
    FinalizedReorgsLeaveNoTrace(config, t0, ps);
  }
}
