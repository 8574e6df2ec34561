/**
  Retention is invisible: a series that keeps only its latest bars holds exactly the latest bars of a
  series that keeps everything, as long as no rollback leaves too few of them.
 */
module Retention {
  import opened Wrappers
  import opened OrderedMaps
  import opened TickData
  import opened TimePriceBar
  import opened ResolutionTimestamp
  import opened Indicators
  import opened BarSeries
  import opened SeriesInvariants
  import opened InsertOutcome
  import opened ReorgPrune
  import opened CachedIndicators
  import opened SeriesRuns

  /** The bands of the latest bar but one look back twenty windows, itself included. */
  const ENOUGH: nat := BB_PERIOD + 1

  /** `b` is the later part of `u`, and at least `count` bars of it if there are as many. */
  ghost predicate Tail(count: nat, b: Bars, u: Bars) {
    && SubBars(b, u)
    && (forall j, k :: j in b && k in u && k > j ==> k in b)
    && (|b| >= count || |b| >= |u|)
  }

  lemma TailSize(count: nat, b: Bars, u: Bars, k: nat)
    requires Tail(count, b, u) && k in u && k !in b
    ensures |b| >= count
  {
    SubsetSize(b.Keys + {k}, u.Keys);
  }

  lemma TailHasLatest(count: nat, b: Bars, u: Bars)
    requires Tail(count, b, u) && count > 0 && u.Keys != {}
    ensures b.Keys != {} && MaxKey(b) == MaxKey(u) && b[MaxKey(u)] == u[MaxKey(u)]
  {
    var top := MaxKey(u);
    if top !in b {
      TailSize(count, b, u, top);
    }
  }

  lemma TailSet(count: nat, b: Bars, u: Bars, k: nat, bar: Bar)
    requires Tail(count, b, u) && count > 0
    requires k in u ==> k in b
    requires k in u || forall j :: j in u ==> j <= k
    ensures Tail(count, b[k := bar], u[k := bar])
  {
    if exists x :: x in u && x !in b {
      var x :| x in u && x !in b;
      TailSize(count, b, u, x);
      SubsetSize(b.Keys, b[k := bar].Keys);
    } else {
      assert b.Keys == u.Keys;
      assert b[k := bar].Keys == u[k := bar].Keys;
    }
  }

  lemma TailPop(count: nat, retained: nat, b: Bars, u: Bars)
    requires Tail(count, b, u) && count <= retained
    ensures Tail(count, PopTo(b, retained), u) && |PopTo(b, retained)| <= retained
  {
    PopToKeepsLatest(b, retained);
  }

  /** A tail of at most `count` bars is what popping to `count` leaves. */
  lemma {:induction false} TailIsPop(count: nat, b: Bars, u: Bars)
    requires Tail(count, b, u) && |b| <= count
    ensures b == PopTo(u, count)
    decreases u.Keys
  {
    SubsetSize(b.Keys, u.Keys);
    if |u| > count {
      assert u.Keys != {};
      var k := MinKey(u);
      if k in b {
        assert forall j :: j in u ==> j in b;
        SubsetSize(u.Keys, b.Keys);
      }
      assert (u - {k}).Keys == u.Keys - {k};
      TailIsPop(count, b, u - {k});
    } else {
      if exists x :: x in u && x !in b {
        var x :| x in u && x !in b;
        SubsetSize(b.Keys + {x}, u.Keys);
      }
      assert b.Keys == u.Keys;
    }
  }

  // ---- what the bands can see -------------------------------------------------------------

  /** At most `m` window starts lie in the `m` windows up to `hi`. */
  lemma {:induction false} WindowsIn(s: set<nat>, hi: int, m: nat)
    requires hi % 300 == 0
    requires forall k :: k in s ==> Aligned(k) && hi - 300 * m < k <= hi
    ensures |s| <= m
    decreases m
  {
    if m == 0 {
      assert s == {};
    } else if hi < 0 {
      assert s == {};
    } else {
      var rest := s - {hi};
      forall k | k in rest ensures k <= hi - 300 {
        assert Aligned(k) && k < hi;
      }
      WindowsIn(rest, hi - 300, m - 1);
      SubsetSize(s, rest + {hi as nat});
    }
  }

  /** A long enough tail has every bar the indicators of one of the latest two windows look at. */
  lemma TailSees(count: nat, b: Bars, u: Bars, timestamp: nat, w: nat, k: nat)
    requires Tail(count, b, u) && count >= ENOUGH
    requires forall j :: j in u ==> Aligned(j) && (j > timestamp ==> j == w)
    requires Aligned(timestamp)
    requires k in u && k >= timestamp - OFFSET * (BB_PERIOD - 1)
    ensures k in b
  {
    if k !in b {
      TailSize(count, b, u, k);
      assert forall j :: j in b ==> j > k;
      WindowsIn(b.Keys - {w}, timestamp, BB_PERIOD - 1);
      SubsetSize(b.Keys, (b.Keys - {w}) + {w});
    }
  }

  lemma TailComputes(config: Config, count: nat, b: Bars, u: Bars, timestamp: nat, w: nat)
    requires Tail(count, b, u) && count >= ENOUGH
    requires forall j :: j in u ==> Aligned(j) && (j > timestamp ==> j == w)
    requires timestamp in u
    ensures timestamp in b
    ensures Compute(config.rounding, timestamp, b) == Compute(config.rounding, timestamp, u)
  {
    hide RangeCloses, Sum, SquaredDeviations, EmaStep;
    var lo := timestamp - OFFSET * (BB_PERIOD - 1);
    forall k: nat | lo <= k && k in u ensures k in b {
      TailSees(count, b, u, timestamp, w, k);
    }
    RangeClosesAgree(Closes(b), Closes(u), lo, timestamp);
    if timestamp - OFFSET in u {
      assert timestamp - OFFSET in b;
    }
  }

  ghost predicate LatestTwo(u: Bars, timestamp: nat, w: nat) {
    forall j :: j in u ==> Aligned(j) && (j > timestamp ==> j == w)
  }

  lemma TailUpdate(config: Config, count: nat, b: Bars, u: Bars, timestamp: nat, w: nat)
    requires Tail(count, b, u) && count >= ENOUGH
    requires LatestTwo(u, timestamp, w) && timestamp in u && u[timestamp].PendingBar?
    ensures var rb := UpdateIndicators(config, b, timestamp);
            var ru := UpdateIndicators(config, u, timestamp);
            && rb.error.None? && ru.error.None?
            && Tail(count, rb.data, ru.data)
            && rb.data.Keys == b.Keys && ru.data.Keys == u.Keys
            && SameBars(u, ru.data)
  {
    TailComputes(config, count, b, u, timestamp, w);
    TailSet(count, b, u, timestamp, UpdateIndicators(config, u, timestamp).data[timestamp]);
  }

  lemma {:induction false} TailUpdateAll(config: Config, count: nat, b: Bars, u: Bars, updated: seq<nat>, w: nat)
    requires Tail(count, b, u) && count >= ENOUGH
    requires forall i :: 0 <= i < |updated| ==> LatestTwo(u, updated[i], w) && updated[i] in u && u[updated[i]].PendingBar?
    ensures var rb := UpdateAll(config, b, updated);
            var ru := UpdateAll(config, u, updated);
            && rb.error.None? && ru.error.None?
            && Tail(count, rb.data, ru.data)
            && rb.data.Keys == b.Keys
    decreases |updated|
  {
    if updated != [] && config.computeIndicators {
      TailUpdate(config, count, b, u, updated[0], w);
      var fb := UpdateIndicators(config, b, updated[0]).data;
      var fu := UpdateIndicators(config, u, updated[0]).data;
      forall i | 0 <= i < |updated[1..]|
        ensures LatestTwo(fu, updated[1..][i], w) && updated[1..][i] in fu && fu[updated[1..][i]].PendingBar?
      {
        assert updated[1..][i] == updated[i + 1];
        assert Strip(u[updated[i + 1]]) == Strip(fu[updated[i + 1]]);
      }
      TailUpdateAll(config, count, fb, fu, updated[1..], w);
    }
  }

  lemma TailFinalize(t0: nat, count: nat, b: Series, u: Series, finalized: Option<nat>)
    requires Tail(count, b.data, u.data) && b.lastFinalized == u.lastFinalized
    requires Invariant(t0, b) && Invariant(t0, u)
    ensures var rb := Finalize(b, finalized);
            var ru := Finalize(u, finalized);
            && rb.error.None? && ru.error.None?
            && Tail(count, rb.series.data, ru.series.data)
            && rb.series.data.Keys == b.data.Keys
            && rb.series.lastFinalized == ru.series.lastFinalized
  {
    hide Finalize;
    hide Structural;
    hide AsFinalized, Behind, Bar.HasBlocks, Bar.Start, Bar.End;
    FinalizeIs(t0, b, finalized);
    FinalizeIs(t0, u, finalized);
    var rb := Finalize(b, finalized).series.data;
    var ru := Finalize(u, finalized).series.data;
    forall k | k in b.data ensures rb[k] == ru[k] {
      assert Covers(b, finalized, k) <==> Covers(u, finalized, k);
    }
    SameSizes(rb, b.data);
    SameSizes(ru, u.data);
  }

  lemma SameSizes(a: Bars, b: Bars)
    requires a.Keys == b.Keys
    ensures |a| == |b|
  {
    assert |a| == |a.Keys| && |b| == |b.Keys|;
  }

  // ---- one insert -------------------------------------------------------------------------

  lemma TailPad(t0: nat, count: nat, b: Bars, u: Bars, n: nat)
    requires Clock(t0) && Structural(t0, u) && Structural(t0, b) && AllBelow(u, n) && Tail(count, b, u) && count > 0
    ensures AllBelow(b, n) && PadFits(u, n, BlockTime(t0, n)) && PadFits(b, n, BlockTime(t0, n))
    ensures var pb := Pad(b, n, BlockTime(t0, n));
            var pu := Pad(u, n, BlockTime(t0, n));
            pb.updated == pu.updated && Tail(count, pb.data, pu.data)
  {
    hide OwnWindow, Structural, Pad, AllBelow, Tail, Padded, NotPadded;
    TailBelow(count, b, u, n);
    PadShape(t0, u, n);
    PadShape(t0, b, n);
    if u.Keys == {} {
      NoTail(count, b, u);
    } else {
      TailHasLatest(count, b, u);
      LatestHasBlocks(t0, u);
      SamePadding(t0, count, b, u, n);
      var pu := Pad(u, n, BlockTime(t0, n));
      var pb := Pad(b, n, BlockTime(t0, n));
      if pu.updated != [] {
        PaddedNeedsIt(t0, u, n, pu.updated[0], pu.data);
        PaddedNeedsIt(t0, b, n, pb.updated[0], pb.data);
        TailPadded(t0, count, b, u, n, pu.updated[0], pb.data, pu.data);
      } else if pb.updated != [] {
        PaddedNeedsIt(t0, b, n, pb.updated[0], pb.data);
      }
    }
  }

  lemma TailBelow(count: nat, b: Bars, u: Bars, n: nat)
    requires Tail(count, b, u) && AllBelow(u, n)
    ensures AllBelow(b, n)
  {
  }

  lemma NoTail(count: nat, b: Bars, u: Bars)
    requires Tail(count, b, u) && u.Keys == {}
    ensures b.Keys == {} && b == u
  {
  }

  lemma PaddedNeedsIt(t0: nat, data: Bars, n: nat, w: nat, r: Bars)
    requires data.Keys != {} && data[MaxKey(data)].HasBlocks() && Padded(t0, data, n, w, r)
    ensures !NotPadded(t0, data, n) && w == OwnWindow(t0, data[MaxKey(data)].End())
  {
    hide OwnWindow, Upsert;
  }

  /** Both look at the same latest bar, and at the same window to pad. */
  lemma SamePadding(t0: nat, count: nat, b: Bars, u: Bars, n: nat)
    requires Structural(t0, u) && Tail(count, b, u) && u.Keys != {} && b.Keys != {}
    requires MaxKey(b) == MaxKey(u) && b[MaxKey(u)] == u[MaxKey(u)] && u[MaxKey(u)].HasBlocks()
    ensures PadFrom(b, n) == PadFrom(u, n)
    ensures NotPadded(t0, b, n) <==> NotPadded(t0, u, n)
  {
    hide OwnWindow, Structural;
    LatestBarIsLatest(t0, u, MaxKey(u));
    var w := OwnWindow(t0, u[MaxKey(u)].End());
    assert w in u ==> w == MaxKey(u);
  }

  lemma TailPadded(t0: nat, count: nat, b: Bars, u: Bars, n: nat, w: nat, pb: Bars, pu: Bars)
    requires Structural(t0, u) && Tail(count, b, u) && count > 0 && u.Keys != {} && b.Keys != {}
    requires MaxKey(b) == MaxKey(u) && b[MaxKey(u)] == u[MaxKey(u)] && u[MaxKey(u)].HasBlocks()
    requires PadFrom(b, n) == PadFrom(u, n)
    requires Padded(t0, u, n, w, pu) && Padded(t0, b, n, w, pb)
    ensures Tail(count, pb, pu)
  {
    hide OwnWindow, Structural, WithBlocks, Filled, PadFrom, Tail;
    assert w in u ==> w == MaxKey(u);
    TailSet(count, b, u, w, pu[w]);
  }

  /** The padded stores agree on whether and how block `n` is placed. */
  lemma TailPlace(t0: nat, count: nat, b: Bars, u: Bars, n: nat, tick: Tick)
    requires Clock(t0) && ReadyFor(t0, u, n) && ReadyFor(t0, b, n) && Tail(count, b, u) && count > 0
    ensures var w := OwnWindow(t0, n);
            var rb := Place(b, n, tick, w);
            var ru := Place(u, n, tick, w);
            if ru.Err? then rb == Err(ru.error) else rb.Ok? && Tail(count, rb.value, ru.value)
  {
    hide OwnWindow;
    hide Structural;
    hide Place;
    var w := OwnWindow(t0, n);
    PlaceStep(t0, b, n, tick);
    PlaceStep(t0, u, n, tick);
    if w in u {
      assert u.Keys != {};
      TailHasLatest(count, b, u);
      assert MaxKey(u) == w;
    }
    if !(w in u && u[w].FinalizedBar?) {
      TailSet(count, b, u, w, Upsert(u, w, n, n + 1, tick)[w]);
    }
  }

  ghost predicate Follows(t0: nat, count: nat, b: Series, u: Series) {
    && Invariant(t0, b) && Invariant(t0, u)
    && Tail(count, b.data, u.data)
    && b.lastFinalized == u.lastFinalized
  }

  /** At least `count` bars, enough for the indicators, are retained. */
  predicate Retains(config: Config, count: nat) {
    config.retentionCount.Some? && ENOUGH <= count <= config.retentionCount.value
  }

  function Unbounded(config: Config): Config {
    config.(retentionCount := None)
  }

  /** Padding, placing and retention. */
  lemma InsertFollowsToRetention(config: Config, t0: nat, count: nat, b: Series, u: Series, n: nat, tick: Tick)
    requires Clock(t0) && Follows(t0, count, b, u) && AllBelow(u.data, n)
    requires Retains(config, count)
    ensures AllBelow(b.data, n) && PadFits(u.data, n, BlockTime(t0, n)) && PadFits(b.data, n, BlockTime(t0, n))
    ensures var w := OwnWindow(t0, n);
            var pb := Pad(b.data, n, BlockTime(t0, n));
            var pu := Pad(u.data, n, BlockTime(t0, n));
            var rb := Place(pb.data, n, tick, w);
            var ru := Place(pu.data, n, tick, w);
            && pb.updated == pu.updated
            && (ru.Err? <==> w in u.data && u.data[w].FinalizedBar?)
            && if ru.Err? then rb.Err? else
                 && rb.Ok?
                 && Placed(t0, n, pu.updated + [w], ru.value)
                 && Placed(t0, n, pb.updated + [w], rb.value)
                 && Tail(count, PopTo(rb.value, config.retentionCount.value), ru.value)
                 && |PopTo(rb.value, config.retentionCount.value)| <= config.retentionCount.value
  {
    hide OwnWindow;
    hide Structural;
    hide Pad;
    hide Place;
    hide Placed;
    TailPad(t0, count, b.data, u.data, n);
    PadStep(t0, u.data, n);
    PadStep(t0, b.data, n);
    PadThenPlace(t0, u, n, tick);
    PadThenPlace(t0, b, n, tick);
    var pb := Pad(b.data, n, BlockTime(t0, n)).data;
    var pu := Pad(u.data, n, BlockTime(t0, n)).data;
    TailPlace(t0, count, pb, pu, n, tick);
    var w := OwnWindow(t0, n);
    if Place(pu, n, tick, w).Ok? {
      TailPop(count, config.retentionCount.value, Place(pb, n, tick, w).value, Place(pu, n, tick, w).value);
    }
  }

  lemma PlacedLatestTwo(t0: nat, n: nat, updated: seq<nat>, placed: Bars)
    requires Placed(t0, n, updated, placed)
    ensures forall i :: 0 <= i < |updated| ==>
              LatestTwo(placed, updated[i], OwnWindow(t0, n)) && updated[i] in placed && placed[updated[i]].PendingBar?
  {
    hide OwnWindow;
    forall k | k in placed ensures Aligned(k) {
      assert BarOk(t0, k, placed[k]);
    }
  }

  /** One insert fails in both series or in neither, and the bounded one keeps following. */
  lemma InsertFollows(config: Config, t0: nat, count: nat, b: Series, u: Series, n: nat, tick: Tick, finalized: Option<nat>)
    requires Clock(t0) && Follows(t0, count, b, u) && AllBelow(u.data, n)
    requires Retains(config, count)
    ensures AllBelow(b.data, n) && PadFits(u.data, n, BlockTime(t0, n)) && PadFits(b.data, n, BlockTime(t0, n))
    ensures var rb := InsertData(config, b, n, tick, BlockTime(t0, n), finalized);
            var ru := InsertData(Unbounded(config), u, n, tick, BlockTime(t0, n), finalized);
            && (rb.error.None? <==> ru.error.None?)
            && (ru.error.None? ==> Follows(t0, count, rb.series, ru.series) && |rb.series.data| <= config.retentionCount.value)
  {
    hide OwnWindow;
    hide Structural;
    hide Pad;
    hide Place;
    hide Placed;
    hide InsertData;
    hide UpdateAll;
    hide Finalize;
    hide Tail;
    InsertFollowsToRetention(config, t0, count, b, u, n, tick);
    InsertUnfolds(config, t0, b, n, tick, finalized);
    InsertUnfolds(Unbounded(config), t0, u, n, tick, finalized);
    var w := OwnWindow(t0, n);
    var pu := Pad(u.data, n, BlockTime(t0, n));
    var pb := Pad(b.data, n, BlockTime(t0, n));
    if Place(pu.data, n, tick, w).Ok? {
      var ub := Place(pu.data, n, tick, w).value;
      var bb := PopTo(Place(pb.data, n, tick, w).value, config.retentionCount.value);
      var updated := pu.updated + [w];
      PlacedLatestTwo(t0, n, updated, ub);
      TailUpdateAll(config, count, bb, ub, updated, w);
      UpdateAllUnbounded(config, ub, updated);
      var ua := UpdateAll(config, ub, updated).data;
      var ba := UpdateAll(config, bb, updated).data;
      UpdatedInvariant(config, t0, u, n, tick);
      UpdatedInvariant(config, t0, b, n, tick);
      TailFinalize(t0, count, b.(data := ba), u.(data := ua), finalized);
      FinalizeStep(t0, b.(data := ba), finalized);
      FinalizeStep(t0, u.(data := ua), finalized);
      SameSizes(ba, bb);
      SameSizes(Finalize(b.(data := ba), finalized).series.data, ba);
    }
  }

  lemma {:induction false} UpdateAllUnbounded(config: Config, data: Bars, updated: seq<nat>)
    ensures UpdateAll(Unbounded(config), data, updated) == UpdateAll(config, data, updated)
    decreases |updated|
  {
    if updated != [] && config.computeIndicators {
      assert UpdateIndicators(Unbounded(config), data, updated[0]) == UpdateIndicators(config, data, updated[0]);
      UpdateAllUnbounded(config, UpdateIndicators(config, data, updated[0]).data, updated[1..]);
    }
  }

  /** Retention and recomputation keep the invariant. */
  lemma UpdatedInvariant(config: Config, t0: nat, s: Series, n: nat, tick: Tick)
    requires Clock(t0) && Invariant(t0, s) && AllBelow(s.data, n) && PadFits(s.data, n, BlockTime(t0, n))
    ensures var padded := Pad(s.data, n, BlockTime(t0, n));
            var placed := Place(padded.data, n, tick, OwnWindow(t0, n));
            placed.Ok? ==>
              forall r | r in {config.retentionCount, None} ::
                Invariant(t0, s.(data := UpdateAll(config, PruneToRetentionCount(placed.value, r), padded.updated + [OwnWindow(t0, n)]).data))
  {
    hide OwnWindow;
    hide Structural;
    hide Pad;
    hide Place;
    hide UpdateAll;
    PadThenPlace(t0, s, n, tick);
    var padded := Pad(s.data, n, BlockTime(t0, n));
    var placed := Place(padded.data, n, tick, OwnWindow(t0, n));
    if placed.Ok? {
      var updated := padded.updated + [OwnWindow(t0, n)];
      forall r | r in {config.retentionCount, None}
        ensures Invariant(t0, s.(data := UpdateAll(config, PruneToRetentionCount(placed.value, r), updated).data))
      {
        KeptStructural(t0, placed.value, r);
        var kept := PruneToRetentionCount(placed.value, r);
        UpdateAllKeeps(config, kept, updated);
        AfterUpdate(t0, s, n, placed.value, kept, UpdateAll(config, kept, updated).data);
      }
    }
  }

  // ---- one rollback -----------------------------------------------------------------------

  lemma PruneIgnoresRetention(config: Config, s: Series, n: nat)
    ensures PruneToReorgedBlockNumber(config, s, n) == PruneToReorgedBlockNumber(Unbounded(config), s, n)
  {
    hide PruneLoop;
  }

  /** A bar that was dropped ends before the first one that was kept starts. */
  lemma DroppedIsEarlier(t0: nat, count: nat, b: Bars, u: Bars, j: nat, k: nat)
    requires Structural(t0, u) && Tail(count, b, u) && j in u && j !in b && k in b
    ensures u[j].HasBlocks() && b[k].HasBlocks() && u[j].End() < b[k].Start()
  {
    hide OwnWindow;
    assert j < k;
    assert BarOk(t0, j, u[j]) && BarOk(t0, k, u[k]);
  }

  /** Where one bar kept starts below `n`, both series hold the same bars that reach `n`. */
  lemma SameReach(t0: nat, count: nat, b: Bars, u: Bars, n: nat, k: nat)
    requires Structural(t0, u) && Tail(count, b, u) && k in b && b[k].HasBlocks() && b[k].Start() < n
    ensures FinalizedReaches(u, n) <==> FinalizedReaches(b, n)
    ensures forall j :: CutAt(u, n, j) <==> CutAt(b, n, j)
  {
    hide Structural, Bar.HasBlocks, Bar.Start;
    if j :| j in u && u[j].FinalizedBar? && u[j].finalized.endBlock >= n {
      if j !in b { DroppedIsEarlier(t0, count, b, u, j, k); }
      assert j in b;
    }
    forall j | CutAt(u, n, j) ensures CutAt(b, n, j) {
      if j !in b { DroppedIsEarlier(t0, count, b, u, j, k); }
    }
  }

  lemma TailTruncated(t0: nat, count: nat, b: Bars, u: Bars, n: nat)
    requires Structural(t0, u) && Structural(t0, b) && Tail(count, b, u)
    ensures (forall k :: k in b ==> b[k].HasBlocks()) && forall k :: k in u ==> u[k].HasBlocks()
    ensures |Truncated(b, n)| >= count ==> Tail(count, Truncated(b, n), Truncated(u, n))
  {
    hide Structural, Bar.HasBlocks, Bar.Start, Bar.End, WithBlocks;
    StructuralHasBlocks(t0, b);
    StructuralHasBlocks(t0, u);
  }

  /** The window both rollbacks cut, if they cut one. */
  lemma SameCut(t0: nat, b: Bars, u: Bars, n: nat)
    requires Structural(t0, b) && Structural(t0, u) && !FinalizedReaches(b, n) && !FinalizedReaches(u, n)
    requires forall j :: CutAt(u, n, j) <==> CutAt(b, n, j)
    ensures PruneLoop(b, n, None).pruned == PruneLoop(u, n, None).pruned
  {
    hide Structural, PruneLoop, Truncated, CutAt;
    PruneLoopIs(t0, b, n);
    PruneLoopIs(t0, u, n);
    StructuralHasBlocks(t0, u);
    var cut := PruneLoop(u, n, None).pruned;
    if cut.Some? {
      CutIsLatest(t0, u, n, cut.value);
      var other := PruneLoop(b, n, None).pruned.value;
      CutIsLatest(t0, u, n, other);
    }
  }

  /** The recomputation after both rollbacks. */
  lemma CutFollows(config: Config, t0: nat, count: nat, b: Series, u: Series, n: nat)
    requires Structural(t0, b.data) && Structural(t0, u.data) && Tail(count, b.data, u.data) && count >= ENOUGH
    requires !FinalizedReaches(b.data, n) && !FinalizedReaches(u.data, n)
    requires forall j :: CutAt(u.data, n, j) <==> CutAt(b.data, n, j)
    requires forall k :: k in b.data ==> b.data[k].HasBlocks()
    requires |Truncated(b.data, n)| >= count
    ensures Tail(count, PruneToReorgedBlockNumber(config, b, n).series.data, PruneToReorgedBlockNumber(config, u, n).series.data)
  {
    hide Structural, PruneLoop, Truncated, Tail, CutAt, UpdateIndicators;
    SameCut(t0, b.data, u.data, n);
    PruneLoopIs(t0, b.data, n);
    PruneLoopIs(t0, u.data, n);
    TailTruncated(t0, count, b.data, u.data, n);
    var cut := PruneLoop(u.data, n, None).pruned;
    if cut.Some? && config.computeIndicators {
      CutIsLatest(t0, u.data, n, cut.value);
      TruncatedStructural(t0, u.data, n);
      LatestIsLatestTwo(t0, Truncated(u.data, n), cut.value);
      TailUpdate(config, count, Truncated(b.data, n), Truncated(u.data, n), cut.value, cut.value);
    }
  }

  lemma LatestIsLatestTwo(t0: nat, u: Bars, k: nat)
    requires Structural(t0, u) && forall j :: j in u ==> j <= k
    ensures LatestTwo(u, k, k)
  {
    hide OwnWindow;
    forall j | j in u ensures Aligned(j) {
      assert BarOk(t0, j, u[j]);
    }
  }

  /** How many bars a rollback to `n` leaves. */
  ghost function StartedBelow(data: Bars, n: nat): nat {
    |set k | k in data && data[k].HasBlocks() && data[k].Start() < n|
  }

  lemma TruncatedSize(data: Bars, n: nat)
    requires forall k :: k in data ==> data[k].HasBlocks()
    ensures |Truncated(data, n)| == StartedBelow(data, n)
  {
    hide WithBlocks, Bar.HasBlocks, Bar.Start, Bar.End;
    var r := Truncated(data, n);
    assert r.Keys == set k | k in data && data[k].HasBlocks() && data[k].Start() < n;
    assert |r| == |r.Keys|;
  }

  /**
    One rollback fails in both series or in neither, and the bounded one keeps following, when it
    leaves enough bars or nothing was dropped before.
   */
  lemma PruneFollows(config: Config, t0: nat, count: nat, b: Series, u: Series, n: nat)
    requires Follows(t0, count, b, u) && count >= ENOUGH
    requires PruneToReorgedBlockNumber(config, b, n).error.None? ==> StartedBelow(b.data, n) >= count || b == u
    ensures var rb := PruneToReorgedBlockNumber(config, b, n);
            var ru := PruneToReorgedBlockNumber(Unbounded(config), u, n);
            && (rb.error.None? <==> ru.error.None?)
            && (ru.error.None? ==> Follows(t0, count, rb.series, ru.series) && |rb.series.data| <= |b.data|)
  {
    hide Structural, PruneToReorgedBlockNumber, Tail, FinalizedReaches, CutAt, Truncated;
    PruneIgnoresRetention(config, u, n);
    PruneIsExact(config, t0, b, n);
    PruneIsExact(config, t0, u, n);
    var rb := PruneToReorgedBlockNumber(config, b, n);
    var ru := PruneToReorgedBlockNumber(config, u, n);
    if rb.error.None? {
      StructuralHasBlocks(t0, b.data);
      PruneShrinks(config, t0, b, n);
      if b == u {
        TailOfItself(count, ru.series.data);
      } else {
        TruncatedSize(b.data, n);
        var k := KeptBelow(b.data, n);
        SameReach(t0, count, b.data, u.data, n, k);
        CutFollows(config, t0, count, b, u, n);
      }
    } else {
      ReachCarries(count, b.data, u.data, n);
    }
  }

  /**
    Why rollbacks must leave enough: one that goes back before every bar kept empties the bounded
    series, while the unbounded one still holds the bars that were dropped.
   */
  lemma RollbackPastRetentionShows(config: Config, t0: nat, count: nat, b: Series, u: Series, n: nat, dropped: nat)
    requires Follows(t0, count, b, u) && !FinalizedReaches(u.data, n)
    requires dropped in u.data && u.data[dropped].HasBlocks() && u.data[dropped].Start() < n
    requires forall k :: k in b.data ==> b.data[k].HasBlocks() && b.data[k].Start() >= n
    ensures var rb := PruneToReorgedBlockNumber(config, b, n);
            var ru := PruneToReorgedBlockNumber(Unbounded(config), u, n);
            && rb.error.None? && rb.series.data.Keys == {}
            && ru.error.None? && dropped in ru.series.data
  {
    hide Structural, PruneToReorgedBlockNumber, FinalizedReaches, Bar.HasBlocks, Bar.Start, Bar.End;
    PruneIgnoresRetention(config, u, n);
    StructuralHasBlocks(t0, u.data);
    if FinalizedReaches(b.data, n) {
      ReachCarries(count, b.data, u.data, n);
    }
    PruneIsExact(config, t0, b, n);
    PruneIsExact(config, t0, u, n);
    assert dropped in Truncated(u.data, n);
    assert Truncated(b.data, n).Keys == {};
  }

  lemma TailOfItself(count: nat, u: Bars)
    ensures Tail(count, u, u)
  {
  }

  lemma ReachCarries(count: nat, b: Bars, u: Bars, n: nat)
    requires Tail(count, b, u) && FinalizedReaches(b, n)
    ensures FinalizedReaches(u, n)
  {
  }

  lemma KeptBelow(data: Bars, n: nat) returns (k: nat)
    requires forall j :: j in data ==> data[j].HasBlocks()
    requires |Truncated(data, n)| > 0
    ensures k in data && data[k].Start() < n
  {
    assert Truncated(data, n).Keys != {};
    k := MaxKey(Truncated(data, n));
  }

  lemma PruneShrinks(config: Config, t0: nat, s: Series, n: nat)
    requires Invariant(t0, s) && PruneToReorgedBlockNumber(config, s, n).error.None?
    ensures |PruneToReorgedBlockNumber(config, s, n).series.data| <= |s.data|
  {
    hide Structural, PruneToReorgedBlockNumber, Truncated;
    PruneIsExact(config, t0, s, n);
    StructuralHasBlocks(t0, s.data);
    TruncatedKeys(s.data, n);
    SubsetSize(PruneToReorgedBlockNumber(config, s, n).series.data.Keys, s.data.Keys);
  }

  // ---- whole runs -------------------------------------------------------------------------

  /** At no point so far were as many bars held as are retained, so none was dropped. */
  ghost predicate NeverFull(config: Config, t0: nat, ops: seq<Op>)
    requires config.retentionCount.Some?
    decreases |ops|
  {
    && (ops != [] ==> NeverFull(config, t0, ops[..|ops| - 1]))
    && (Run(config, t0, ops).Some? ==> |Run(config, t0, ops).value.data| < config.retentionCount.value)
  }

  /** Each rollback finds at least `count` bars that start below its block, or comes before the series was ever full. */
  ghost predicate KeepsEnough(config: Config, t0: nat, count: nat, ops: seq<Op>)
    requires config.retentionCount.Some?
    decreases |ops|
  {
    ops == [] ||
    var front := ops[..|ops| - 1];
    && KeepsEnough(config, t0, count, front)
    && (ops[|ops| - 1].Prune? && Run(config, t0, ops).Some? ==>
          || StartedBelow(Run(config, t0, front).value.data, ops[|ops| - 1].block) >= count
          || NeverFull(config, t0, front))
  }

  /** The latest `count` bars of a series. */
  ghost function Latest(s: Series, count: nat): Series {
    s.(data := PopTo(s.data, count))
  }

  /** Nothing that is left reaches a block exactly when nothing does. */
  lemma TailAllBelow(t0: nat, count: nat, b: Bars, u: Bars, n: nat)
    requires Structural(t0, u) && Tail(count, b, u) && count > 0
    ensures AllBelow(b, n) <==> AllBelow(u, n)
  {
    hide Structural, Bar.HasBlocks, Bar.Start, Bar.End;
    StructuralHasBlocks(t0, u);
    if u.Keys != {} {
      TailHasLatest(count, b, u);
      forall k | k in u ensures u[k].End() <= u[MaxKey(u)].End() {
        LatestBarIsLatest(t0, u, k);
      }
    }
  }

  lemma ApplyFollows(config: Config, t0: nat, count: nat, b: Series, u: Series, op: Op)
    requires Clock(t0) && Follows(t0, count, b, u) && Retains(config, count) && |b.data| <= config.retentionCount.value
    requires op.Prune? && Apply(config, t0, b, op).Some? ==> StartedBelow(b.data, op.block) >= count || b == u
    ensures var rb := Apply(config, t0, b, op);
            var ru := Apply(Unbounded(config), t0, u, op);
            && (rb.Some? <==> ru.Some?)
            && (ru.Some? ==> Follows(t0, count, rb.value, ru.value) && |rb.value.data| <= config.retentionCount.value)
  {
    hide Structural, InsertData, PruneToReorgedBlockNumber, PadFits, Tail, AllBelow;
    match op
    case Insert(n, tick, finalized) =>
      TailAllBelow(t0, count, b.data, u.data, n);
      if AllBelow(u.data, n) {
        InsertFollows(config, t0, count, b, u, n, tick, finalized);
      }
    case Prune(n) =>
      PruneFollows(config, t0, count, b, u, n);
  }

  /** A series that was never full is the one without retention. */
  lemma {:induction false} NeverFullDropsNothing(config: Config, t0: nat, ops: seq<Op>)
    requires Clock(t0) && config.retentionCount.Some? && config.retentionCount.value >= ENOUGH && NeverFull(config, t0, ops)
    ensures Run(config, t0, ops) == Run(Unbounded(config), t0, ops)
    decreases |ops|
  {
    hide Apply, Follows;
    if ops != [] {
      var front := ops[..|ops| - 1];
      NeverFullDropsNothing(config, t0, front);
      if Run(config, t0, front).Some? {
        EveryRunIsSound(config, t0, front);
        var s := Run(config, t0, front).value;
        FollowsItself(t0, config.retentionCount.value, s);
        ApplyFollows(config, t0, config.retentionCount.value, s, s, ops[|ops| - 1]);
        if Run(config, t0, ops).Some? {
          FollowsFully(t0, config.retentionCount.value, Run(config, t0, ops).value, Run(Unbounded(config), t0, ops).value);
        }
      }
    }
  }

  lemma FollowsItself(t0: nat, count: nat, s: Series)
    requires Invariant(t0, s)
    ensures Follows(t0, count, s, s)
  {
    hide Structural;
  }

  lemma FollowsFully(t0: nat, count: nat, b: Series, u: Series)
    requires Follows(t0, count, b, u) && |b.data| < count
    ensures b == u
  {
    hide Structural;
    if x :| x in u.data && x !in b.data {
      TailSize(count, b.data, u.data, x);
    }
    assert b.data.Keys == u.data.Keys;
  }

  lemma {:induction false} RunFollows(config: Config, t0: nat, count: nat, ops: seq<Op>)
    requires Clock(t0) && Retains(config, count) && KeepsEnough(config, t0, count, ops)
    ensures var rb := Run(config, t0, ops);
            var ru := Run(Unbounded(config), t0, ops);
            && (rb.Some? <==> ru.Some?)
            && (ru.Some? ==> Follows(t0, count, rb.value, ru.value) && |rb.value.data| <= config.retentionCount.value)
    decreases |ops|
  {
    hide Apply, Follows;
    if ops != [] {
      var front := ops[..|ops| - 1];
      RunFollows(config, t0, count, front);
      if Run(Unbounded(config), t0, front).Some? {
        if ops[|ops| - 1].Prune? && NeverFull(config, t0, front) {
          NeverFullDropsNothing(config, t0, front);
        }
        ApplyFollows(config, t0, count, Run(config, t0, front).value, Run(Unbounded(config), t0, front).value, ops[|ops| - 1]);
      }
    } else {
      EmptyFollows(t0, count);
    }
  }

  lemma EmptyFollows(t0: nat, count: nat)
    ensures Follows(t0, count, EmptySeries, EmptySeries)
  {
  }

  /**
    With at least 21 bars retained, and at least 21 that start below the block of every rollback made
    once the series has been full, a run fails exactly when it fails without retention, and otherwise leaves exactly
    the latest bars, indicators and frontier of that run: as many as a rollback must leave, or all.
   */
  lemma RetentionIsInvisibleAcrossReorgs(config: Config, t0: nat, count: nat, ops: seq<Op>)
    requires Clock(t0) && Retains(config, count) && KeepsEnough(config, t0, count, ops)
    ensures var bounded := Run(config, t0, ops);
            var unbounded := Run(Unbounded(config), t0, ops);
            if unbounded.None? then bounded.None?
            else
              && bounded.Some?
              && var kept := |bounded.value.data|;
                 && bounded.value == Latest(unbounded.value, kept)
                 && (kept >= count || kept == |unbounded.value.data|)
  {
    hide Run, Structural;
    RunFollows(config, t0, count, ops);
    var u := Run(Unbounded(config), t0, ops);
    if u.Some? {
      var b := Run(config, t0, ops).value;
      SubsetSize(b.data.Keys, u.value.data.Keys);
      TailIsPop(|b.data|, b.data, u.value.data);
    }
  }

  ghost predicate NoReorgs(ops: seq<Op>) {
    forall i :: 0 <= i < |ops| ==> ops[i].Insert?
  }

  lemma {:induction false} NoReorgsKeepsEnough(config: Config, t0: nat, count: nat, ops: seq<Op>)
    requires NoReorgs(ops) && config.retentionCount.Some?
    ensures KeepsEnough(config, t0, count, ops)
    decreases |ops|
  {
    if ops != [] {
      NoReorgsKeepsEnough(config, t0, count, ops[..|ops| - 1]);
    }
  }

  /** Without rollbacks these are exactly as many bars as are retained. */
  lemma RetentionIsInvisible(config: Config, t0: nat, ops: seq<Op>)
    requires Clock(t0) && NoReorgs(ops) && config.retentionCount.Some? && config.retentionCount.value >= ENOUGH
    ensures var bounded := Run(config, t0, ops);
            var unbounded := Run(Unbounded(config), t0, ops);
            bounded == if unbounded.None? then None else Some(Latest(unbounded.value, config.retentionCount.value))
  {
    hide Run, Structural, KeepsEnough;
    var count := config.retentionCount.value;
    NoReorgsKeepsEnough(config, t0, count, ops);
    RunFollows(config, t0, count, ops);
    var u := Run(Unbounded(config), t0, ops);
    if u.Some? {
      TailIsPop(count, Run(config, t0, ops).value.data, u.value.data);
    }
  }
}
