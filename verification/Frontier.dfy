/** The finalization frontier: which bars are final, when it moves, and when a reorg is refused. */
module Frontier {
  import opened Wrappers
  import opened OrderedMaps
  import opened TickData
  import opened TimePriceBar
  import opened ResolutionTimestamp
  import opened Indicators
  import opened BarSeries
  import opened SeriesInvariants
  import opened InsertOutcome
  import opened ReorgPrune
  import opened SeriesRuns

  predicate BeforeFrontier(lastFinalized: Option<nat>, k: nat) {
    lastFinalized.Some? && k <= lastFinalized.value
  }

  /** Exactly the bars at or before the frontier are finalized. */
  ghost predicate Split(s: Series) {
    && (s.lastFinalized.Some? ==> Aligned(s.lastFinalized.value))
    && forall k :: k in s.data ==> (s.data[k].FinalizedBar? <==> BeforeFrontier(s.lastFinalized, k))
  }

  /** Two windows with bars and none between them. */
  ghost predicate Adjacent(data: Bars, j: nat, k: nat) {
    j in data && k in data && j < k && forall m: nat :: j < m < k ==> m !in data
  }

  /** Every bar but the first starts right after the one before it ends. */
  ghost predicate Contiguous(data: Bars) {
    && (forall k :: k in data ==> data[k].HasBlocks())
    && forall j, k :: Adjacent(data, j, k) ==> data[j].End() + 1 == data[k].Start()
  }

  /** The latest bar is pending and is the own window of the latest block. */
  ghost predicate Tip(t0: nat, s: Series) {
    s.data.Keys != {} ==>
      var top := MaxKey(s.data);
      s.data[top].PendingBar? && s.data[top].HasBlocks() && top == OwnWindow(t0, s.data[top].End())
  }

  ghost predicate FrontierOk(t0: nat, s: Series) {
    Invariant(t0, s) && Split(s) && Contiguous(s.data) && Tip(t0, s)
  }

  // ---- contiguity -------------------------------------------------------------------------

  lemma UpsertContiguous(t0: nat, data: Bars, k: nat, lo: nat, hi: nat, tick: Tick)
    requires Structural(t0, data) && Contiguous(data) && CanAppend(t0, data, k, lo, hi)
    requires data.Keys != {} ==> data[MaxKey(data)].End() + 1 == lo
    ensures Contiguous(Upsert(data, k, lo, hi, tick))
  {
    hide Structural;
    hide OwnWindow;
    UpsertBar(t0, data, k, lo, hi, tick);
    AddedBarContiguous(data, k, lo, Upsert(data, k, lo, hi, tick)[k]);
  }

  lemma AddedBarContiguous(data: Bars, k: nat, lo: nat, bar: Bar)
    requires Contiguous(data) && forall j :: j in data ==> j <= k
    requires data.Keys != {} ==> data[MaxKey(data)].End() + 1 == lo
    requires bar.HasBlocks() && bar.Start() == if k in data then data[k].Start() else lo
    ensures Contiguous(data[k := bar])
  {
    hide Bar.HasBlocks, Bar.Start, Bar.End;
    var after := data[k := bar];
    forall i, j | Adjacent(after, i, j) ensures after[i].End() + 1 == after[j].Start() {
      AdjacentAfterAdding(data, k, bar, i, j);
    }
  }

  lemma AdjacentAfterAdding(data: Bars, k: nat, bar: Bar, i: nat, j: nat)
    requires forall m :: m in data ==> m <= k
    requires Adjacent(data[k := bar], i, j)
    ensures i in data && i != k
    ensures j in data ==> Adjacent(data, i, j)
    ensures j !in data ==> j == k && data.Keys != {} && MaxKey(data) == i
  {
    if j in data {
      forall m: nat | i < m < j ensures m !in data {
        assert m !in data[k := bar];
      }
    } else {
      assert i in data.Keys;
      var top := MaxKey(data);
      assert top in data[k := bar];
    }
  }

  lemma LaterPartContiguous(a: Bars, b: Bars)
    requires Contiguous(b) && SubBars(a, b)
    requires forall j, k :: k in a && j in b && j > k ==> j in a
    ensures Contiguous(a)
  {
    forall i, j | Adjacent(a, i, j) ensures a[i].End() + 1 == a[j].Start() {
      assert Adjacent(b, i, j);
    }
  }

  lemma SameSpansContiguous(a: Bars, b: Bars)
    requires SameSpans(a, b) && Contiguous(a)
    ensures Contiguous(b)
  {
    forall i, j | Adjacent(b, i, j) ensures b[i].End() + 1 == b[j].Start() {
      assert Adjacent(a, i, j);
    }
  }

  lemma SameBarsSpans(t0: nat, a: Bars, b: Bars)
    requires SameBars(a, b) && Structural(t0, a)
    ensures SameSpans(a, b) && forall k :: k in a ==> (a[k].PendingBar? <==> b[k].PendingBar?)
  {
    hide OwnWindow;
    forall k | k in a
      ensures a[k].HasBlocks() && b[k].HasBlocks() && a[k].Start() == b[k].Start() && a[k].End() == b[k].End()
      ensures a[k].PendingBar? <==> b[k].PendingBar?
    {
      assert BarOk(t0, k, a[k]) && Strip(a[k]) == Strip(b[k]);
    }
  }

  lemma TruncatedSpans(t0: nat, data: Bars, n: nat, k: nat)
    requires Structural(t0, data) && !FinalizedReaches(data, n) && k in data
    requires forall j :: j in data ==> data[j].HasBlocks()
    ensures var r := Truncated(data, n);
            && (k in r <==> data[k].Start() < n)
            && (k in r ==>
                  && r[k].HasBlocks() && r[k].Start() == data[k].Start()
                  && r[k].End() == (if data[k].End() < n then data[k].End() else n - 1)
                  && (r[k].PendingBar? <==> data[k].PendingBar?))
  {
    hide OwnWindow;
    assert BarOk(t0, k, data[k]);
    if data[k].PendingBar? && data[k].Start() < n <= data[k].End() {
      BelowRange(data[k].pending.blocks, n);
    }
  }

  lemma TruncatedContiguous(t0: nat, data: Bars, n: nat)
    requires Structural(t0, data) && Contiguous(data) && !FinalizedReaches(data, n)
    ensures Contiguous(Truncated(data, n))
  {
    hide OwnWindow, Structural, Truncated;
    hide Bar.HasBlocks, Bar.Start, Bar.End;
    var r := Truncated(data, n);
    TruncatedKeys(data, n);
    TruncatedIsEarlier(t0, data, n);
    forall k | k in r ensures r[k].HasBlocks() {
      TruncatedSpans(t0, data, n, k);
    }
    forall i, j | Adjacent(r, i, j) ensures r[i].End() + 1 == r[j].Start() {
      assert Adjacent(data, i, j);
      TruncatedSpans(t0, data, n, i);
      TruncatedSpans(t0, data, n, j);
      LaterIsLater(t0, data, i, j);
    }
  }

  lemma TruncatedIsEarlier(t0: nat, data: Bars, n: nat)
    requires Structural(t0, data) && forall j :: j in data ==> data[j].HasBlocks()
    ensures forall j, k :: j in data && k in Truncated(data, n) && j < k ==> j in Truncated(data, n)
  {
    hide OwnWindow;
    forall j, k | j in data && k in Truncated(data, n) && j < k ensures j in Truncated(data, n) {
      assert BarOk(t0, j, data[j]);
      assert data[j].End() < data[k].Start();
    }
  }

  lemma NextRemoved(data: Bars, kept: set<nat>, top: nat) returns (k: nat)
    requires kept < data.Keys && top in kept && forall m :: m in kept ==> m <= top
    requires forall j, m :: j in data && m in kept && j < m ==> j in kept
    ensures Adjacent(data, top, k) && k !in kept
  {
    var removed := data.Keys - kept;
    var x :| x in data.Keys && x !in kept;
    assert x in removed;
    k := Min(removed);
    forall m: nat | top < m < k ensures m !in data {
      assert m !in removed;
    }
  }

  /** What a rollback into a contiguous series leaves ends right before `n`. */
  lemma TruncatedEndsBefore(t0: nat, data: Bars, n: nat)
    requires Structural(t0, data) && Contiguous(data) && !FinalizedReaches(data, n) && !AllBelow(data, n)
    requires Truncated(data, n).Keys != {}
    ensures var r := Truncated(data, n); r[MaxKey(r)].HasBlocks() && r[MaxKey(r)].End() + 1 == n
  {
    hide OwnWindow;
    hide Structural;
    hide Truncated;
    hide Bar.HasBlocks, Bar.Start, Bar.End;
    var r := Truncated(data, n);
    TruncatedIsEarlier(t0, data, n);
    TruncatedKeys(data, n);
    var top := MaxKey(r);
    TruncatedSpans(t0, data, n, top);
    if r.Keys == data.Keys {
      var k :| k in data && data[k].End() >= n;
      TruncatedSpans(t0, data, n, k);
      if k != top {
        LaterIsLater(t0, data, k, top);
      }
    } else {
      var k := NextRemoved(data, r.Keys, top);
      TruncatedSpans(t0, data, n, k);
    }
  }

  lemma LaterIsLater(t0: nat, data: Bars, j: nat, k: nat)
    requires Structural(t0, data) && j in data && k in data && j < k
    ensures data[j].HasBlocks() && data[k].HasBlocks() && data[j].End() < data[k].Start()
  {
    hide OwnWindow;
    assert BarOk(t0, j, data[j]) && BarOk(t0, k, data[k]);
  }

  // ---- inserts ----------------------------------------------------------------------------

  /** No padding is sent to a window at or before the frontier. */
  ghost predicate PadsAhead(t0: nat, s: Series, n: nat) {
    s.data.Keys != {} && s.data[MaxKey(s.data)].HasBlocks() ==>
      var last := s.data[MaxKey(s.data)].End();
      last + 1 == n || !BeforeFrontier(s.lastFinalized, OwnWindow(t0, last))
  }

  lemma PaddedSplit(t0: nat, s: Series, n: nat)
    requires Clock(t0) && Invariant(t0, s) && Split(s) && Contiguous(s.data) && AllBelow(s.data, n)
    requires PadsAhead(t0, s, n)
    ensures PadFits(s.data, n, BlockTime(t0, n))
    ensures var padded := Pad(s.data, n, BlockTime(t0, n)).data;
            && ReadyFor(t0, padded, n)
            && Contiguous(padded)
            && Split(s.(data := padded))
            && (padded.Keys != {} ==> padded[MaxKey(padded)].End() + 1 == n)
  {
    hide OwnWindow;
    hide Structural;
    hide Pad;
    hide WithBlocks;
    PadShape(t0, s.data, n);
    PadStep(t0, s.data, n);
    var padded := Pad(s.data, n, BlockTime(t0, n));
    if s.data.Keys != {} {
      LatestBounds(t0, s.data, n);
      var last := s.data[MaxKey(s.data)].End();
      if padded.updated != [] {
        var p := padded.updated[0];
        var padTick := PadFrom(s.data, n).value.1;
        UpsertContiguous(t0, s.data, p, last + 1, n, padTick);
        UpsertStructural(t0, s.data, p, last + 1, n, padTick);
      } else {
        assert last + 1 == n;
      }
    }
  }

  /** Both kinds of bar are where they belong and no block is missing, before retention. */
  lemma PlacedSplit(t0: nat, s: Series, n: nat, tick: Tick)
    requires Clock(t0) && Invariant(t0, s) && Split(s) && Contiguous(s.data) && AllBelow(s.data, n)
    requires !BeforeFrontier(s.lastFinalized, OwnWindow(t0, n)) && PadsAhead(t0, s, n)
    requires PadFits(s.data, n, BlockTime(t0, n))
    ensures var padded := Pad(s.data, n, BlockTime(t0, n));
            var placed := Place(padded.data, n, tick, OwnWindow(t0, n));
            && placed.Ok?
            && Contiguous(placed.value)
            && Split(s.(data := placed.value))
  {
    hide OwnWindow;
    hide Structural;
    hide Pad;
    hide Place;
    hide WithBlocks;
    PaddedSplit(t0, s, n);
    var w := OwnWindow(t0, n);
    var padded := Pad(s.data, n, BlockTime(t0, n));
    PlaceStep(t0, padded.data, n, tick);
    UpsertContiguous(t0, padded.data, w, n, n + 1, tick);
  }

  // ---- one sighting of a block ------------------------------------------------------------

  datatype Sighting = Sighting(block: nat, tick: Tick, finalized: Option<nat>)

  /** The store's treatment of a block, with the finalized window it passes along. */
  ghost function See(config: Config, t0: nat, s: Series, o: Sighting): Option<Series> {
    var insert := Insert(o.block, o.tick, o.finalized);
    if AllBelow(s.data, o.block) then Apply(config, t0, s, insert)
    else
      var pruned := Apply(config, t0, s, Prune(o.block));
      if pruned.None? then None else Apply(config, t0, pruned.value, insert)
  }

  /** The block is past the frontier, and so is its window past the window it finalizes. */
  ghost predicate PastFrontier(t0: nat, s: Series, o: Sighting) {
    var w := OwnWindow(t0, o.block);
    && !BeforeFrontier(s.lastFinalized, w)
    && !BeforeFrontier(o.finalized, w)
    && (o.finalized.Some? ==> Aligned(o.finalized.value))
  }

  predicate KeepsTwo(config: Config) {
    config.retentionCount.None? || config.retentionCount.value >= 2
  }

  lemma NotBlocked(config: Config, t0: nat, s: Series, n: nat)
    requires KeepsTwo(config) && Split(s) && !BeforeFrontier(s.lastFinalized, OwnWindow(t0, n))
    ensures !InsertFails(config, t0, s, n)
  {
    hide OwnWindow;
  }

  lemma KeptSplit(config: Config, t0: nat, s: Series, placed: Bars)
    requires Contiguous(placed) && Split(s.(data := placed))
    ensures Contiguous(PruneToRetentionCount(placed, config.retentionCount))
    ensures Split(s.(data := PruneToRetentionCount(placed, config.retentionCount)))
  {
    hide Contiguous;
    if config.retentionCount.Some? {
      PopToKeepsLatest(placed, config.retentionCount.value);
      LaterPartContiguous(PopTo(placed, config.retentionCount.value), placed);
    }
  }

  lemma SplitCarries(s: Series, a: Bars, b: Bars)
    requires Split(s.(data := a)) && a.Keys == b.Keys
    requires forall k :: k in a ==> (a[k].PendingBar? <==> b[k].PendingBar?)
    ensures Split(s.(data := b))
  {
  }

  lemma UpdatedSplit(config: Config, t0: nat, s: Series, placed: Bars, updated: seq<nat>)
    requires Structural(t0, placed) && Contiguous(placed) && Split(s.(data := placed))
    ensures var after := UpdateAll(config, PruneToRetentionCount(placed, config.retentionCount), updated).data;
            Contiguous(after) && Split(s.(data := after))
  {
    hide Structural, PruneToRetentionCount, UpdateAll, Contiguous, Split;
    var kept := PruneToRetentionCount(placed, config.retentionCount);
    KeptSplit(config, t0, s, placed);
    KeptStructural(t0, placed, config.retentionCount);
    UpdateAllKeeps(config, kept, updated);
    var after := UpdateAll(config, kept, updated).data;
    SameBarsSpans(t0, kept, after);
    SameSpansContiguous(kept, after);
    SplitCarries(s, kept, after);
  }

  /** Moving the frontier to a window start finalizes exactly what is then behind it. */
  lemma FinalizedSplit(t0: nat, s: Series, finalized: Option<nat>)
    requires Invariant(t0, s) && Split(s) && Contiguous(s.data)
    requires finalized.Some? ==> Aligned(finalized.value)
    ensures var r := Finalize(s, finalized).series;
            Invariant(t0, r) && Split(r) && Contiguous(r.data)
  {
    hide OwnWindow;
    hide Structural;
    hide Finalize;
    hide Contiguous;
    FinalizeIs(t0, s, finalized);
    FinalizeStep(t0, s, finalized);
    var r := Finalize(s, finalized).series;
    SameSpansContiguous(s.data, r.data);
    forall k | k in r.data ensures r.data[k].FinalizedBar? <==> BeforeFrontier(r.lastFinalized, k) {
      KeyAligned(t0, s.data, k);
    }
  }

  lemma KeyAligned(t0: nat, data: Bars, k: nat)
    requires Structural(t0, data) && k in data
    ensures Aligned(k)
  {
    hide OwnWindow;
    assert BarOk(t0, k, data[k]);
  }

  lemma TipAfter(t0: nat, s: Series, n: nat)
    requires Split(s) && EndsIn(t0, s.data, n) && !BeforeFrontier(s.lastFinalized, OwnWindow(t0, n))
    ensures Tip(t0, s)
  {
    hide OwnWindow;
    assert OwnWindow(t0, n) in s.data.Keys;
    assert MaxKey(s.data) == OwnWindow(t0, n);
  }

  /** An insert past the frontier with nothing to pad before it never fails and moves the frontier soundly. */
  lemma InsertPastFrontier(config: Config, t0: nat, s: Series, o: Sighting)
    requires Clock(t0) && KeepsTwo(config)
    requires Invariant(t0, s) && Split(s) && Contiguous(s.data) && AllBelow(s.data, o.block)
    requires PastFrontier(t0, s, o) && PadsAhead(t0, s, o.block)
    ensures var r := Apply(config, t0, s, Insert(o.block, o.tick, o.finalized));
            && r.Some?
            && FrontierOk(t0, r.value)
            && EndsIn(t0, r.value.data, o.block)
            && AllBelow(r.value.data, o.block + 1)
            && r.value.lastFinalized == if Advances(s, o.finalized) then o.finalized else s.lastFinalized
  {
    hide OwnWindow;
    hide Structural;
    hide Pad;
    hide Place;
    hide PadFits;
    hide PruneToRetentionCount;
    hide UpdateAll;
    hide Finalize;
    hide InsertData;
    hide Contiguous;
    hide Split;
    var n := o.block;
    InsertKeepsInvariant(config, t0, s, n, o.tick, o.finalized);
    NotBlocked(config, t0, s, n);
    InsertUnfolds(config, t0, s, n, o.tick, o.finalized);
    PlacedSplit(t0, s, n, o.tick);
    PadThenPlace(t0, s, n, o.tick);
    var padded := Pad(s.data, n, BlockTime(t0, n));
    var updated := padded.updated + [OwnWindow(t0, n)];
    var placed := Place(padded.data, n, o.tick, OwnWindow(t0, n)).value;
    var kept := PruneToRetentionCount(placed, config.retentionCount);
    KeptStructural(t0, placed, config.retentionCount);
    UpdateAllKeeps(config, kept, updated);
    UpdatedSplit(config, t0, s, placed, updated);
    var after := UpdateAll(config, kept, updated).data;
    AfterUpdate(t0, s, n, placed, kept, after);
    FinalizedSplit(t0, s.(data := after), o.finalized);
    FinalizeIs(t0, s.(data := after), o.finalized);
    TipAfter(t0, Finalize(s.(data := after), o.finalized).series, n);
  }

  lemma TipPadsAhead(t0: nat, s: Series, n: nat)
    requires FrontierOk(t0, s)
    ensures PadsAhead(t0, s, n)
  {
    hide OwnWindow;
    hide Structural;
  }

  /** A rollback keeps everything the next insert needs, and leaves nothing to pad. */
  lemma PrunePastFrontier(config: Config, t0: nat, s: Series, n: nat)
    requires FrontierOk(t0, s) && !FinalizedReaches(s.data, n) && !AllBelow(s.data, n)
    ensures var r := PruneToReorgedBlockNumber(config, s, n);
            && r.error.None?
            && Invariant(t0, r.series) && Split(r.series) && Contiguous(r.series.data) && AllBelow(r.series.data, n)
            && PadsAhead(t0, r.series, n)
            && (r.series.data.Keys != {} ==>
                  var top := r.series.data[MaxKey(r.series.data)];
                  top.HasBlocks() && top.End() + 1 == n)
            && r.series.lastFinalized == s.lastFinalized
  {
    hide OwnWindow;
    hide Structural;
    hide Truncated;
    hide PruneToReorgedBlockNumber;
    hide Contiguous;
    hide AllBelow;
    PruneIsExact(config, t0, s, n);
    ContiguousHasBlocks(s.data);
    var cut := Truncated(s.data, n);
    var r := PruneToReorgedBlockNumber(config, s, n).series;
    TruncatedStructural(t0, s.data, n);
    TruncatedContiguous(t0, s.data, n);
    SameBarsSpans(t0, cut, r.data);
    SameSpansContiguous(cut, r.data);
    forall k | k in cut ensures k in s.data && (cut[k].PendingBar? <==> s.data[k].PendingBar?) {
      TruncatedKeys(s.data, n);
      TruncatedSpans(t0, s.data, n, k);
    }
    if r.data.Keys != {} {
      TruncatedEndsBefore(t0, s.data, n);
    }
  }

  lemma ContiguousHasBlocks(data: Bars)
    requires Contiguous(data)
    ensures forall k :: k in data ==> data[k].HasBlocks()
  {
  }

  /**
    Seeing a block past the frontier, new or reorged, fails exactly when the block is not new and a
    finalized bar reaches it. Otherwise exactly the windows up to the frontier are finalized again,
    and the frontier has not moved back.
   */
  lemma SeeFailsIff(config: Config, t0: nat, s: Series, o: Sighting)
    requires Clock(t0) && KeepsTwo(config) && FrontierOk(t0, s) && PastFrontier(t0, s, o)
    ensures var r := See(config, t0, s, o);
            && (r.None? <==> !AllBelow(s.data, o.block) && FinalizedReaches(s.data, o.block))
            && (r.Some? ==>
                  && FrontierOk(t0, r.value)
                  && EndsIn(t0, r.value.data, o.block) && AllBelow(r.value.data, o.block + 1)
                  && r.value.lastFinalized == if Advances(s, o.finalized) then o.finalized else s.lastFinalized)
  {
    hide OwnWindow;
    hide Structural;
    hide PruneToReorgedBlockNumber;
    hide InsertData;
    hide Contiguous;
    hide Split;
    hide PadsAhead;
    if AllBelow(s.data, o.block) {
      TipPadsAhead(t0, s, o.block);
      InsertPastFrontier(config, t0, s, o);
    } else {
      PruneIsExact(config, t0, s, o.block);
      if !FinalizedReaches(s.data, o.block) {
        PrunePastFrontier(config, t0, s, o.block);
        InsertPastFrontier(config, t0, PruneToReorgedBlockNumber(config, s, o.block).series, o);
      }
    }
  }

  // ---- runs -------------------------------------------------------------------------------

  /** A run of sightings, each past the frontier at its time; `None` when one is not, or fails. */
  ghost function SeeAll(config: Config, t0: nat, os: seq<Sighting>): Option<Series>
    decreases |os|
  {
    if os == [] then Some(EmptySeries)
    else
      var before := SeeAll(config, t0, os[..|os| - 1]);
      if before.None? || !PastFrontier(t0, before.value, os[|os| - 1]) then None
      else See(config, t0, before.value, os[|os| - 1])
  }

  lemma EmptyIsOk(t0: nat)
    ensures FrontierOk(t0, EmptySeries) && AllBelow(EmptySeries.data, 0)
  {
  }

  lemma {:induction false} EveryRunSplitsAtTheFrontier(config: Config, t0: nat, os: seq<Sighting>)
    requires Clock(t0) && KeepsTwo(config) && SeeAll(config, t0, os).Some?
    ensures FrontierOk(t0, SeeAll(config, t0, os).value)
    decreases |os|
  {
    hide FrontierOk;
    hide PastFrontier;
    hide See;
    EmptyIsOk(t0);
    if os != [] {
      EveryRunSplitsAtTheFrontier(config, t0, os[..|os| - 1]);
      SeeFailsIff(config, t0, SeeAll(config, t0, os[..|os| - 1]).value, os[|os| - 1]);
    }
  }

  /** New blocks in order, each finalizing only windows before its own. */
  ghost predicate ForwardSightings(t0: nat, os: seq<Sighting>) {
    && (forall i :: 0 <= i < |os| ==>
          && !BeforeFrontier(os[i].finalized, OwnWindow(t0, os[i].block))
          && (os[i].finalized.Some? ==> Aligned(os[i].finalized.value)))
    && forall i, j :: 0 <= i < j < |os| ==> os[i].block < os[j].block
  }

  /** A forward run never fails. */
  lemma {:induction false} ForwardRunNeverFails(config: Config, t0: nat, os: seq<Sighting>)
    requires Clock(t0) && KeepsTwo(config) && ForwardSightings(t0, os)
    ensures var r := SeeAll(config, t0, os);
            && r.Some?
            && FrontierOk(t0, r.value)
            && (if os == [] then r.value == EmptySeries else
                  && AllBelow(r.value.data, os[|os| - 1].block + 1)
                  && EndsIn(t0, r.value.data, os[|os| - 1].block)
                  && !BeforeFrontier(r.value.lastFinalized, OwnWindow(t0, os[|os| - 1].block)))
    decreases |os|
  {
    hide OwnWindow;
    hide FrontierOk;
    hide See;
    EmptyIsOk(t0);
    if os != [] {
      var front := os[..|os| - 1];
      var o := os[|os| - 1];
      assert forall i :: 0 <= i < |front| ==> front[i] == os[i];
      ForwardRunNeverFails(config, t0, front);
      var s := SeeAll(config, t0, front).value;
      if front != [] {
        WindowMonotone(t0, front[|front| - 1].block, o.block);
      }
      assert PastFrontier(t0, s, o);
      SeeFailsIff(config, t0, s, o);
    }
  }

  // ---- a reorg that is refused ------------------------------------------------------------

  /** Blocks are missing before `n`, and go to a window of their own. */
  ghost predicate PadsOwnWindow(t0: nat, s: Series, n: nat, p: nat) {
    && s.data.Keys != {} && s.data[MaxKey(s.data)].HasBlocks()
    && s.data[MaxKey(s.data)].End() + 1 < n
    && p == OwnWindow(t0, s.data[MaxKey(s.data)].End()) && p != OwnWindow(t0, n)
    && !(p in s.data && s.data[p].FinalizedBar?)
  }

  lemma PaddedEnds(t0: nat, s: Series, n: nat, p: nat)
    requires Clock(t0) && Invariant(t0, s) && AllBelow(s.data, n) && PadsOwnWindow(t0, s, n, p)
    ensures PadFits(s.data, n, BlockTime(t0, n)) && p != OwnWindow(t0, n)
    ensures var padded := Pad(s.data, n, BlockTime(t0, n));
            && padded.updated == [p] && ReadyFor(t0, padded.data, n)
            && p in padded.data && padded.data[p].PendingBar? && padded.data[p].HasBlocks() && padded.data[p].End() == n - 1
  {
    hide OwnWindow;
    hide Structural;
    hide Pad;
    PadShape(t0, s.data, n);
    PadStep(t0, s.data, n);
    UpsertStructural(t0, s.data, p, s.data[MaxKey(s.data)].End() + 1, n, PadFrom(s.data, n).value.1);
  }

  /** A window padded before the block's own is still there after the insert, and ends right before the block. */
  lemma PaddedWindowRemains(config: Config, t0: nat, s: Series, o: Sighting, p: nat)
    requires Clock(t0) && KeepsTwo(config) && Invariant(t0, s) && AllBelow(s.data, o.block)
    requires PadsOwnWindow(t0, s, o.block, p)
    requires Apply(config, t0, s, Insert(o.block, o.tick, o.finalized)).Some?
    ensures var r := Apply(config, t0, s, Insert(o.block, o.tick, o.finalized)).value;
            p in r.data && r.data[p].HasBlocks() && r.data[p].End() == o.block - 1
  {
    hide OwnWindow;
    hide Structural;
    hide Pad;
    hide Place;
    hide PadFits;
    hide PruneToRetentionCount;
    hide UpdateAll;
    hide Finalize;
    hide InsertData;
    hide PadsOwnWindow;
    var n := o.block;
    PaddedEnds(t0, s, n, p);
    PadThenPlace(t0, s, n, o.tick);
    InsertUnfolds(config, t0, s, n, o.tick, o.finalized);
    var padded := Pad(s.data, n, BlockTime(t0, n));
    PlaceStep(t0, padded.data, n, o.tick);
    var updated := padded.updated + [OwnWindow(t0, n)];
    var placed := Place(padded.data, n, o.tick, OwnWindow(t0, n)).value;
    assert placed[p] == padded.data[p];
    RemainsAfterPlacing(config, t0, s, o, updated, placed, p);
  }

  lemma RemainsAfterPlacing(config: Config, t0: nat, s: Series, o: Sighting, updated: seq<nat>, placed: Bars, p: nat)
    requires Clock(t0) && KeepsTwo(config) && Invariant(t0, s)
    requires Placed(t0, o.block, updated, placed) && updated[0] == p
    requires forall k :: k in placed && placed[k].FinalizedBar? ==> k in s.data && s.data[k].FinalizedBar?
    ensures var kept := PruneToRetentionCount(placed, config.retentionCount);
            var after := UpdateAll(config, kept, updated).data;
            var r := Finalize(s.(data := after), o.finalized).series.data;
            p in r && placed[p].HasBlocks() && r[p].HasBlocks() && r[p].End() == placed[p].End()
  {
    hide OwnWindow;
    hide Structural;
    hide PruneToRetentionCount;
    hide UpdateAll;
    hide Finalize;
    UpdatesSurvive(config, t0, o.block, updated, placed);
    var kept := PruneToRetentionCount(placed, config.retentionCount);
    UpdateAllKeeps(config, kept, updated);
    var after := UpdateAll(config, kept, updated).data;
    SameBarsSpans(t0, kept, after);
    AfterUpdate(t0, s, o.block, placed, kept, after);
    FinalizeIs(t0, s.(data := after), o.finalized);
  }

  /**
    Being past the frontier is not enough for a rollback to succeed: when a block closes a gap and
    finalizes the window the gap was padded into, every rollback into the gap is refused, in
    whatever window its block is.
   */
  lemma RollbackIntoFinalizedPaddingIsRefused(config: Config, t0: nat, s: Series, o: Sighting, n: nat)
    requires Clock(t0) && KeepsTwo(config) && FrontierOk(t0, s) && PastFrontier(t0, s, o)
    requires s.data.Keys != {} && s.data[MaxKey(s.data)].HasBlocks()
    requires s.data[MaxKey(s.data)].End() < n < o.block
    requires BeforeFrontier(o.finalized, MaxKey(s.data))
    ensures var r := See(config, t0, s, o);
            && r.Some?
            && PruneToReorgedBlockNumber(config, r.value, n).error.Some?
  {
    hide OwnWindow;
    hide Structural;
    hide PruneToReorgedBlockNumber;
    hide InsertData;
    hide Contiguous;
    hide PadFits;
    var top := MaxKey(s.data);
    TipIsLatest(t0, s, o.block);
    SeeFailsIff(config, t0, s, o);
    PaddedWindowRemains(config, t0, s, o, top);
    var r := See(config, t0, s, o).value;
    assert r.data[top].FinalizedBar?;
    PruneIsExact(config, t0, r, n);
  }

  /**
    A run that gets there: block 0 opens the first window, block 1000 pads up to itself and finalizes
    that window. Block 500 is three windows past the frontier, and a rollback to it is refused.
   */
  lemma {:induction false} RollbackPastTheFrontierIsRefused(config: Config, t0: nat, first: Sighting, second: Sighting, n: nat)
    requires Clock(t0) && Aligned(t0) && KeepsTwo(config)
    requires first.block == 0 && first.finalized == None
    requires second.block == 1000 && second.finalized == Some(t0) && n == 500
    ensures var r := SeeAll(config, t0, [first, second]);
            && r.Some?
            && r.value.lastFinalized == Some(t0)
            && !BeforeFrontier(r.value.lastFinalized, OwnWindow(t0, n))
            && PruneToReorgedBlockNumber(config, r.value, n).error.Some?
  {
    hide See;
    hide FrontierOk;
    hide PruneToReorgedBlockNumber;
    ForwardRunNeverFails(config, t0, [first]);
    ForwardRunNeverFails(config, t0, [first, second]);
    var s := SeeAll(config, t0, [first]).value;
    assert [first, second][..1] == [first];
    FirstWindowIsTip(t0, s);
    FirstFinalizesNothing(config, t0, first);
    SeeFailsIff(config, t0, s, second);
    RollbackIntoFinalizedPaddingIsRefused(config, t0, s, second, n);
  }

  lemma FirstWindowIsTip(t0: nat, s: Series)
    requires Aligned(t0) && EndsIn(t0, s.data, 0)
    ensures s.data.Keys != {} && MaxKey(s.data) == t0 && s.data[t0].HasBlocks() && s.data[t0].End() == 0
  {
    assert t0 in s.data.Keys;
  }

  lemma {:induction false} FirstFinalizesNothing(config: Config, t0: nat, first: Sighting)
    requires Clock(t0) && KeepsTwo(config) && first.finalized == None
    requires SeeAll(config, t0, [first]).Some?
    ensures SeeAll(config, t0, [first]).value.lastFinalized == None
  {
    hide See;
    hide FrontierOk;
    EmptyIsOk(t0);
    assert [first][..0] == [];
    assert SeeAll(config, t0, [first][..0]) == Some(EmptySeries);
    SeeFailsIff(config, t0, EmptySeries, first);
  }

  lemma TipIsLatest(t0: nat, s: Series, n: nat)
    requires FrontierOk(t0, s) && s.data.Keys != {} && s.data[MaxKey(s.data)].HasBlocks() && s.data[MaxKey(s.data)].End() < n
    ensures AllBelow(s.data, n)
  {
    hide OwnWindow;
    StructuralHasBlocks(t0, s.data);
    forall k | k in s.data ensures s.data[k].End() < n {
      LatestBarIsLatest(t0, s.data, k);
    }
  }

  // ---- a gap ------------------------------------------------------------------------------

  /** Blocks are missing before `n`, and the window they belong to is finalized: they are not padded. */
  ghost predicate PadBlocked(t0: nat, data: Bars, n: nat) {
    data.Keys != {} && data[MaxKey(data)].HasBlocks() &&
    var last := data[MaxKey(data)].End();
    last + 1 < n && OwnWindow(t0, last) in data && data[OwnWindow(t0, last)].FinalizedBar?
  }

  lemma PadLeavesGapIff(t0: nat, data: Bars, n: nat)
    requires Clock(t0) && Structural(t0, data) && Contiguous(data) && AllBelow(data, n)
    ensures PadFits(data, n, BlockTime(t0, n))
    ensures var padded := Pad(data, n, BlockTime(t0, n)).data;
            && Contiguous(padded) && ReadyFor(t0, padded, n)
            && (padded.Keys != {} ==> padded[MaxKey(padded)].HasBlocks() && (padded[MaxKey(padded)].End() + 1 == n <==> !PadBlocked(t0, data, n)))
            && (padded.Keys == {} ==> !PadBlocked(t0, data, n))
  {
    hide OwnWindow, Structural, Pad, CanAppend, Contiguous, Upsert, Bar.HasBlocks, Bar.Start, Bar.End, ReadyFor;
    PadShape(t0, data, n);
    PadStep(t0, data, n);
    if data.Keys != {} {
      LatestHasBlocks(t0, data);
      LatestBounds(t0, data, n);
      var r := Pad(data, n, BlockTime(t0, n));
      if r.updated != [] {
        PaddedUp(t0, data, n, r.updated[0], r.data);
      }
    }
  }

  lemma PaddedUp(t0: nat, data: Bars, n: nat, w: nat, r: Bars)
    requires Structural(t0, data) && Contiguous(data) && data.Keys != {} && data[MaxKey(data)].HasBlocks()
    requires Padded(t0, data, n, w, r)
    ensures Contiguous(r) && r.Keys != {} && r[MaxKey(r)].HasBlocks() && r[MaxKey(r)].End() + 1 == n
    ensures !PadBlocked(t0, data, n)
  {
    hide OwnWindow, Structural, Contiguous, Upsert, PadFrom, Bar.HasBlocks, Bar.Start, Bar.End;
    var lo, tick := data[MaxKey(data)].End() + 1, PadFrom(data, n).value.1;
    UpsertContiguous(t0, data, w, lo, n, tick);
    UpsertStructural(t0, data, w, lo, n, tick);
    StructuralHasBlocks(t0, r);
  }

  /** Placing a block after a gap leaves the gap. */
  lemma PlaceLeavesGapIff(t0: nat, padded: Bars, n: nat, tick: Tick)
    requires Clock(t0) && ReadyFor(t0, padded, n) && Contiguous(padded)
    requires padded.Keys != {} ==> padded[MaxKey(padded)].HasBlocks()
    requires Place(padded, n, tick, OwnWindow(t0, n)).Ok?
    ensures Contiguous(Place(padded, n, tick, OwnWindow(t0, n)).value) <==>
              (padded.Keys != {} ==> padded[MaxKey(padded)].End() + 1 == n)
  {
    hide OwnWindow, Structural, Place, Upsert, Bar.HasBlocks, Bar.Start, Bar.End;
    var w := OwnWindow(t0, n);
    PlaceStep(t0, padded, n, tick);
    UpsertBar(t0, padded, w, n, n + 1, tick);
    var placed := Place(padded, n, tick, w).value;
    if padded.Keys == {} || padded[MaxKey(padded)].End() + 1 == n {
      hide Contiguous;
      UpsertContiguous(t0, padded, w, n, n + 1, tick);
    } else {
      var top := MaxKey(padded);
      NewBarIsApart(padded, placed, top, w, n, tick);
    }
  }

  lemma NewBarIsApart(padded: Bars, placed: Bars, top: nat, w: nat, n: nat, tick: Tick)
    requires padded.Keys != {} && top == MaxKey(padded) && padded[top].HasBlocks() && padded[top].End() + 1 != n
    requires (forall k :: k in padded ==> k <= w) && (w in padded ==> padded[w].PendingBar? && padded[w].HasBlocks() && padded[w].End() + 1 == n)
    requires placed == Upsert(padded, w, n, n + 1, tick)
    requires placed[w].HasBlocks() && placed[w].Start() == if w in padded then padded[w].Start() else n
    ensures w !in padded && Adjacent(placed, top, w) && placed[top].HasBlocks() && placed[top].End() + 1 != placed[w].Start()
  {
    hide WithBlocks, Bar.HasBlocks, Bar.Start, Bar.End;
    assert w !in padded;
    forall m: nat | top < m < w ensures m !in placed {
      assert m !in padded.Keys;
    }
  }

  /**
    From a series without a gap, a successful insert leaves one exactly when the padding is blocked:
    blocks are missing and the window of the latest one is finalized already.
   */
  lemma InsertLeavesGapIff(config: Config, t0: nat, s: Series, o: Sighting)
    requires Clock(t0) && config.retentionCount.None? && Invariant(t0, s) && Contiguous(s.data) && AllBelow(s.data, o.block)
    requires Apply(config, t0, s, Insert(o.block, o.tick, o.finalized)).Some?
    ensures Contiguous(Apply(config, t0, s, Insert(o.block, o.tick, o.finalized)).value.data) <==> !PadBlocked(t0, s.data, o.block)
  {
    hide OwnWindow, Structural, Pad, Place, UpdateAll, InsertData, Finalize, PadFits, Contiguous, PadBlocked, ReadyFor, AllBelow;
    var n := o.block;
    InsertUnfolds(config, t0, s, n, o.tick, o.finalized);
    PadLeavesGapIff(t0, s.data, n);
    var padded := Pad(s.data, n, BlockTime(t0, n));
    PlaceLeavesGapIff(t0, padded.data, n, o.tick);
    PadThenPlace(t0, s, n, o.tick);
    var placed := Place(padded.data, n, o.tick, OwnWindow(t0, n)).value;
    var updated := padded.updated + [OwnWindow(t0, n)];
    UpdateAllKeeps(config, placed, updated);
    var after := UpdateAll(config, placed, updated).data;
    SameBarsSpans(t0, placed, after);
    AfterUpdate(t0, s, n, placed, placed, after);
    FinalizeIs(t0, s.(data := after), o.finalized);
    var r := Finalize(s.(data := after), o.finalized).series.data;
    SpansContiguousIff(placed, after);
    SpansContiguousIff(after, r);
  }

  lemma SpansContiguousIff(a: Bars, b: Bars)
    requires SameSpans(a, b)
    ensures Contiguous(a) <==> Contiguous(b)
  {
    if Contiguous(a) { SameSpansContiguous(a, b); }
    if Contiguous(b) { SameSpansContiguous(b, a); }
  }

  /**
    A run that leaves one: block 0 finalizes its own window, as a header finalized long ago does, and
    block 1000 comes next. No bar then holds the blocks between.
   */
  lemma GapAfterFinalizedWindow(config: Config, t0: nat, first: Sighting, second: Sighting)
    requires Clock(t0) && Aligned(t0) && config.retentionCount.None?
    requires first.block == 0 && first.finalized == Some(t0) && second.block == 1000
    ensures var ops := [Insert(first.block, first.tick, first.finalized), Insert(second.block, second.tick, second.finalized)];
            Run(config, t0, ops).Some? && !Contiguous(Run(config, t0, ops).value.data)
  {
    hide OwnWindow, Structural, InsertData, PadFits, Contiguous, PadBlocked, InsertFails;
    var insert, next := Insert(first.block, first.tick, first.finalized), Insert(second.block, second.tick, second.finalized);
    RunOfTwo(config, t0, insert, next);
    FirstBlockSucceeds(config, t0, insert);
    var s := Apply(config, t0, EmptySeries, insert).value;
    EndIsLatest(t0, s, 0, second.block);
    FirstBlockIsFinal(config, t0, first);
    FarApart(t0, 0, second.block);
    SecondSucceeds(config, t0, s, second.block);
    InsertKeepsInvariant(config, t0, s, second.block, second.tick, second.finalized);
    InsertLeavesGapIff(config, t0, s, second);
    BlockedByFirst(t0, s, second.block);
  }

  lemma BlockedByFirst(t0: nat, s: Series, n: nat)
    requires s.data.Keys != {} && MaxKey(s.data) == OwnWindow(t0, 0) && s.data[MaxKey(s.data)].HasBlocks()
    requires s.data[MaxKey(s.data)].End() == 0 && s.data[MaxKey(s.data)].FinalizedBar? && n > 1
    ensures PadBlocked(t0, s.data, n)
  {
    hide OwnWindow;
  }

  lemma SecondSucceeds(config: Config, t0: nat, s: Series, n: nat)
    requires config.retentionCount.None? && s.data.Keys != {} && MaxKey(s.data) < OwnWindow(t0, n)
    ensures !InsertFails(config, t0, s, n)
  {
    hide OwnWindow;
    assert OwnWindow(t0, n) !in s.data.Keys;
  }

  lemma FirstBlockIsFinal(config: Config, t0: nat, first: Sighting)
    requires Clock(t0) && Aligned(t0) && config.retentionCount.None? && first.block == 0 && first.finalized == Some(t0)
    ensures var r := Apply(config, t0, EmptySeries, Insert(first.block, first.tick, first.finalized));
            r.Some? && Contiguous(r.value.data) && OwnWindow(t0, 0) in r.value.data && r.value.data[OwnWindow(t0, 0)].FinalizedBar?
  {
    hide Structural, Pad, Place, UpdateAll, InsertData, Finalize, PadFits;
    StartsSound(t0);
    FirstBlockSucceeds(config, t0, Insert(first.block, first.tick, first.finalized));
    InsertLeavesGapIff(config, t0, EmptySeries, first);
    InsertUnfolds(config, t0, EmptySeries, 0, first.tick, first.finalized);
    PadThenPlace(t0, EmptySeries, 0, first.tick);
    var padded := Pad(map[], 0, BlockTime(t0, 0));
    var placed := Place(padded.data, 0, first.tick, OwnWindow(t0, 0)).value;
    var updated := padded.updated + [OwnWindow(t0, 0)];
    UpdateAllKeeps(config, placed, updated);
    var after := UpdateAll(config, placed, updated).data;
    AfterUpdate(t0, EmptySeries, 0, placed, placed, after);
    FinalizeIs(t0, EmptySeries.(data := after), first.finalized);
  }
}
