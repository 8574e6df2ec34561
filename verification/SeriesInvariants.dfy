/**
  What every run of inserts and reorg prunes keeps, for blocks on the uniform clock the source
  assumes through `AVERAGE_BLOCK_TIME_SECONDS`.
 */
module SeriesInvariants {
  import opened Wrappers
  import opened OrderedMaps
  import opened TickData
  import opened TimePriceBar
  import opened ResolutionTimestamp
  import opened Indicators
  import opened BarSeries

  /** The timestamp of a block. */
  function BlockTime(t0: nat, b: nat): nat {
    t0 + 2 * b
  }

  /** The window a block belongs to by its own time. */
  function OwnWindow(t0: nat, b: nat): nat {
    Window(BlockTime(t0, b))
  }

  /** Early enough timestamps never occur, so no window arithmetic underflows. */
  predicate Clock(t0: nat) {
    t0 >= FIRST_WINDOW
  }

  ghost predicate GapFree(blocks: map<nat, Tick>)
    requires blocks.Keys != {}
  {
    forall b: nat :: MinKey(blocks) <= b <= MaxKey(blocks) ==> b in blocks
  }

  ghost predicate BarOk(t0: nat, k: nat, bar: Bar) {
    && bar.HasBlocks()
    && Aligned(k)
    && FIRST_WINDOW <= k <= OwnWindow(t0, bar.Start())
    && bar.Start() <= bar.End()
    && (bar.PendingBar? ==> GapFree(bar.pending.blocks) && bar.pending.data == Reduce(bar.pending.blocks))
  }

  /**
    Bars are not empty and hold gap-free blocks under their own OHLC, later windows hold strictly
    later blocks, and no block sits in a window later than its own.
   */
  ghost predicate Structural(t0: nat, data: Bars) {
    && (forall k :: k in data ==> BarOk(t0, k, data[k]))
    && (forall j, k :: j in data && k in data && j < k ==> data[j].End() < data[k].Start())
  }

  ghost predicate AllBelow(data: Bars, n: nat) {
    forall k :: k in data ==> data[k].HasBlocks() && data[k].End() < n
  }

  /** Only windows at or before the frontier are finalized. */
  ghost predicate Behind(s: Series) {
    forall k :: k in s.data && s.data[k].FinalizedBar? ==> s.lastFinalized.Some? && k <= s.lastFinalized.value
  }

  ghost predicate Invariant(t0: nat, s: Series) {
    Structural(t0, s.data) && Behind(s)
  }

  // ---- one window gains blocks ------------------------------------------------------------

  /** Blocks `lo..hi` may go to the bar at `k`: the latest bar, or a new one after all others. */
  ghost predicate CanAppend(t0: nat, data: Bars, k: nat, lo: nat, hi: nat) {
    && lo < hi
    && Aligned(k) && FIRST_WINDOW <= k <= OwnWindow(t0, lo)
    && AllBelow(data, lo)
    && (forall j :: j in data ==> j <= k)
    && (k in data ==> data[k].PendingBar? && data[k].End() + 1 == lo)
  }

  lemma FilledRange(before: map<nat, Tick>, lo: nat, hi: nat, tick: Tick)
    requires lo < hi
    requires before.Keys != {} ==> GapFree(before) && MaxKey(before) + 1 == lo
    ensures var blocks := Filled(before, lo, hi, tick);
            && blocks.Keys != {}
            && GapFree(blocks)
            && MaxKey(blocks) == hi - 1
            && MinKey(blocks) == if before.Keys != {} then MinKey(before) else lo
  {
    var blocks := Filled(before, lo, hi, tick);
    assert lo in blocks.Keys && hi - 1 in blocks;
    if before.Keys != {} {
      assert MinKey(before) in blocks && MinKey(blocks) in before;
    } else {
      assert MinKey(blocks) == lo;
    }
  }

  /** The bar that gained the blocks is sound, and begins and ends where it should. */
  lemma UpsertBar(t0: nat, data: Bars, k: nat, lo: nat, hi: nat, tick: Tick)
    requires Structural(t0, data) && CanAppend(t0, data, k, lo, hi)
    ensures var bar := Upsert(data, k, lo, hi, tick)[k];
            && BarOk(t0, k, bar)
            && bar.End() == hi - 1
            && bar.Start() == if k in data then data[k].Start() else lo
  {
    hide OwnWindow;
    var before: map<nat, Tick> := if k in data then data[k].pending.blocks else map[];
    if k in data {
      assert BarOk(t0, k, data[k]);
    }
    FilledRange(before, lo, hi, tick);
  }

  lemma UpsertStructural(t0: nat, data: Bars, k: nat, lo: nat, hi: nat, tick: Tick)
    requires Structural(t0, data) && CanAppend(t0, data, k, lo, hi)
    ensures var after := Upsert(data, k, lo, hi, tick);
            && Structural(t0, after)
            && AllBelow(after, hi)
            && after[k].PendingBar? && after[k].End() == hi - 1
            && after.Keys != {} && MaxKey(after) == k
  {
    hide OwnWindow;
    var after := Upsert(data, k, lo, hi, tick);
    UpsertBar(t0, data, k, lo, hi, tick);
    assert k in after.Keys;
    forall j | j in after
      ensures BarOk(t0, j, after[j]) && after[j].End() < hi
      ensures j < k ==> after[j].End() < after[k].Start()
    {
      if j != k {
        assert after[j] == data[j] && BarOk(t0, j, data[j]);
      }
    }
  }

  lemma WindowMonotone(t0: nat, a: nat, b: nat)
    requires a <= b
    ensures OwnWindow(t0, a) <= OwnWindow(t0, b)
  {
  }

  /** The latest block of all is the last block of the latest bar. */
  lemma LatestBarIsLatest(t0: nat, data: Bars, k: nat)
    requires Structural(t0, data) && k in data
    ensures data[k].End() <= data[MaxKey(data)].End()
    ensures k <= OwnWindow(t0, data[k].End())
  {
    WindowMonotone(t0, data[k].Start(), data[k].End());
  }

  /** On the uniform clock the padded timestamp is that of the latest block. */
  lemma PadWindowIsLatestOwn(t0: nat, last: nat, n: nat)
    requires last <= n
    ensures BlockTime(t0, n) >= (n - last) * AVERAGE_BLOCK_TIME_SECONDS
    ensures PadWindow(last, n, BlockTime(t0, n)) == OwnWindow(t0, last)
  {
  }

  /** The windows block `n` may be placed into after padding. */
  ghost predicate ReadyFor(t0: nat, data: Bars, n: nat) {
    && Structural(t0, data)
    && AllBelow(data, n)
    && forall k :: k in data ==>
         && k <= OwnWindow(t0, n)
         && (k == OwnWindow(t0, n) && data[k].PendingBar? ==> data[k].End() + 1 == n)
  }

  lemma LatestBounds(t0: nat, data: Bars, n: nat)
    requires Structural(t0, data) && AllBelow(data, n) && data.Keys != {}
    ensures var last := data[MaxKey(data)].End();
            && last < n
            && forall k :: k in data ==> data[k].End() <= last && k <= OwnWindow(t0, last) <= OwnWindow(t0, n)
  {
    hide OwnWindow;
    var last := data[MaxKey(data)].End();
    WindowMonotone(t0, last, n);
    forall k | k in data ensures data[k].End() <= last && k <= OwnWindow(t0, last) {
      LatestBarIsLatest(t0, data, k);
      WindowMonotone(t0, data[k].End(), last);
    }
  }

  /** What padding before block `n` adds: the run of missing blocks, in one window. */
  ghost predicate Padded(t0: nat, data: Bars, n: nat, w: nat, r: Bars)
    requires data.Keys != {} && data[MaxKey(data)].HasBlocks()
  {
    var last := data[MaxKey(data)].End();
    && w == OwnWindow(t0, last)
    && CanAppend(t0, data, w, last + 1, n)
    && PadFrom(data, n).Some?
    && r == Upsert(data, w, last + 1, n, PadFrom(data, n).value.1)
  }

  /** Nothing is padded when nothing is missing, or when the window to pad is finalized. */
  ghost predicate NotPadded(t0: nat, data: Bars, n: nat) {
    data.Keys != {} && data[MaxKey(data)].HasBlocks() ==>
      var last := data[MaxKey(data)].End();
      last + 1 == n || (OwnWindow(t0, last) in data && data[OwnWindow(t0, last)].FinalizedBar?)
  }

  lemma LatestIsOk(t0: nat, data: Bars)
    requires Structural(t0, data) && data.Keys != {}
    ensures BarOk(t0, MaxKey(data), data[MaxKey(data)])
  {
    hide OwnWindow;
  }

  lemma PadShape(t0: nat, data: Bars, n: nat)
    requires Clock(t0) && Structural(t0, data) && AllBelow(data, n)
    ensures PadFits(data, n, BlockTime(t0, n))
    ensures var r := Pad(data, n, BlockTime(t0, n));
            || (r.updated == [] && r.data == data && NotPadded(t0, data, n))
            || (data.Keys != {} && |r.updated| == 1 && Padded(t0, data, n, r.updated[0], r.data))
  {
    hide OwnWindow, Structural, Upsert, BlockTime;
    if data.Keys != {} {
      var top := MaxKey(data);
      LatestIsOk(t0, data);
      var last := data[top].End();
      LatestBounds(t0, data, n);
      PadWindowIsLatestOwn(t0, last, n);
      WindowMonotone(t0, last, last + 1);
    }
  }

  lemma PadStep(t0: nat, data: Bars, n: nat)
    requires Clock(t0) && Structural(t0, data) && AllBelow(data, n)
    requires PadFits(data, n, BlockTime(t0, n))
    ensures ReadyFor(t0, Pad(data, n, BlockTime(t0, n)).data, n)
  {
    hide OwnWindow, Structural, Pad, Padded, NotPadded, AllBelow;
    PadShape(t0, data, n);
    var r := Pad(data, n, BlockTime(t0, n));
    if data.Keys == {} {
      EmptyIsReady(t0, data, n);
    } else if r.updated == [] {
      UnpaddedIsReady(t0, data, n);
    } else {
      LatestHasBlocks(t0, data);
      PaddedIsReady(t0, data, n, r.updated[0], r.data);
    }
  }

  lemma LatestHasBlocks(t0: nat, data: Bars)
    requires Structural(t0, data) && data.Keys != {}
    ensures data[MaxKey(data)].HasBlocks()
  {
    hide OwnWindow;
    assert BarOk(t0, MaxKey(data), data[MaxKey(data)]);
  }

  lemma EmptyIsReady(t0: nat, data: Bars, n: nat)
    requires data.Keys == {} && Structural(t0, data)
    ensures ReadyFor(t0, data, n)
  {
    hide OwnWindow, BarOk;
  }

  lemma UnpaddedIsReady(t0: nat, data: Bars, n: nat)
    requires Structural(t0, data) && AllBelow(data, n) && data.Keys != {}
    requires data[MaxKey(data)].HasBlocks() ==> NotPadded(t0, data, n)
    ensures ReadyFor(t0, data, n)
  {
    hide OwnWindow, Structural, Bar.Start, Bar.End, Bar.HasBlocks;
    LatestBounds(t0, data, n);
    forall k | k in data && k == OwnWindow(t0, n) && data[k].PendingBar? ensures data[k].End() + 1 == n {
      assert k == MaxKey(data);
    }
  }

  lemma PaddedIsReady(t0: nat, data: Bars, n: nat, w: nat, r: Bars)
    requires Structural(t0, data) && AllBelow(data, n) && data.Keys != {} && data[MaxKey(data)].HasBlocks()
    requires Padded(t0, data, n, w, r)
    ensures ReadyFor(t0, r, n)
  {
    hide OwnWindow, Structural, CanAppend, AllBelow, Bar.Start, Bar.End, Bar.HasBlocks, Upsert, PadFrom;
    LatestBounds(t0, data, n);
    UpsertStructural(t0, data, w, data[MaxKey(data)].End() + 1, n, PadFrom(data, n).value.1);
  }

  /** Placing block `n` after padding fails only in a finalized window. */
  lemma PlaceStep(t0: nat, data: Bars, n: nat, tick: Tick)
    requires Clock(t0) && ReadyFor(t0, data, n)
    ensures var w := OwnWindow(t0, n);
            var r := Place(data, n, tick, w);
            if w in data && data[w].FinalizedBar? then r == Err(BarIsFinalized)
            else
              && CanAppend(t0, data, w, n, n + 1)
              && r == Ok(Upsert(data, w, n, n + 1, tick))
  {
    var w := OwnWindow(t0, n);
    if w in data {
      assert BarOk(t0, w, data[w]);
    }
  }

  // ---- the later steps of an insert -------------------------------------------------------

  function Strip(bar: Bar): Bar {
    match bar
    case PendingBar(p) => PendingBar(p.(indicators := None))
    case FinalizedBar(f) => FinalizedBar(f.(indicators := None))
  }

  /** The same bars, whatever their indicators. */
  ghost predicate SameBars(a: Bars, b: Bars) {
    a.Keys == b.Keys && forall k :: k in a ==> Strip(a[k]) == Strip(b[k])
  }

  lemma SameBarsStructural(t0: nat, a: Bars, b: Bars)
    requires SameBars(a, b) && Structural(t0, a)
    ensures Structural(t0, b)
  {
    hide OwnWindow;
    forall k | k in b
      ensures BarOk(t0, k, b[k]) && b[k].Start() == a[k].Start() && b[k].End() == a[k].End()
    {
      assert BarOk(t0, k, a[k]) && Strip(a[k]) == Strip(b[k]);
    }
  }

  lemma {:induction false} UpdateAllKeeps(config: Config, data: Bars, updated: seq<nat>)
    ensures var r := UpdateAll(config, data, updated);
            && SameBars(data, r.data)
            && (r.error.None? <==>
                  config.computeIndicators ==> forall i :: 0 <= i < |updated| ==> updated[i] in data && data[updated[i]].PendingBar?)
    decreases |updated|
  {
    if updated != [] && config.computeIndicators {
      var first := UpdateIndicators(config, data, updated[0]);
      if first.error.None? {
        assert SameBars(data, first.data);
        UpdateAllKeeps(config, first.data, updated[1..]);
        assert forall i :: 0 < i < |updated| ==> updated[i] == updated[1..][i - 1];
        assert forall k :: k in data ==> (data[k].PendingBar? <==> first.data[k].PendingBar?);
        var r := UpdateAll(config, data, updated);
        if r.error.None? {
          forall i | 0 <= i < |updated| ensures updated[i] in data && data[updated[i]].PendingBar? {
            if i > 0 { assert updated[1..][i - 1] in first.data; }
          }
        }
      }
    }
  }

  /** Popping from the front keeps the latest bars and exactly as many as fit. */
  lemma {:induction false} PopToKeepsLatest(data: Bars, count: nat)
    ensures var r := PopTo(data, count);
            && |r| == (if |data| <= count then |data| else count)
            && (forall k :: k in r ==> k in data && r[k] == data[k])
            && (forall j, k :: k in r && j in data && j > k ==> j in r)
    decreases data.Keys
  {
    if |data| > count {
      assert data.Keys != {};
      var k := MinKey(data);
      assert (data - {k}).Keys == data.Keys - {k};
      PopToKeepsLatest(data - {k}, count);
    }
  }

  ghost predicate SubBars(a: Bars, b: Bars) {
    forall k :: k in a ==> k in b && a[k] == b[k]
  }

  lemma SubBarsStructural(t0: nat, a: Bars, b: Bars)
    requires SubBars(a, b) && Structural(t0, b)
    ensures Structural(t0, a)
  {
    hide OwnWindow;
  }

  function FinalizedIn(data: Bars, lo: nat, hi: nat): Bars
    requires forall k :: k in data && lo <= k <= hi ==> data[k].PendingBar? && AsFinalized(data[k].pending).Some?
  {
    map k | k in data :: if lo <= k <= hi then FinalizedBar(AsFinalized(data[k].pending).value) else data[k]
  }

  lemma FirstFinalized(data: Bars, lo: nat, hi: nat, k: nat)
    requires forall j :: j in data && lo <= j <= hi ==> data[j].PendingBar? && AsFinalized(data[j].pending).Some? && k <= j
    requires k in data && lo <= k <= hi
    ensures FinalizedIn(data[k := FinalizedBar(AsFinalized(data[k].pending).value)], k + 1, hi) == FinalizedIn(data, lo, hi)
  {
    hide AsFinalized;
  }

  /** Over pending bars with blocks the finalizing loop succeeds and finalizes exactly its range. */
  lemma {:induction false} FinalizeRangeIs(data: Bars, lo: nat, hi: nat)
    requires forall k :: k in data && lo <= k <= hi ==> data[k].PendingBar? && AsFinalized(data[k].pending).Some?
    ensures FinalizeRange(data, lo, hi) == BarsOutcome(FinalizedIn(data, lo, hi), None)
    decreases hi - lo + 1
  {
    hide AsFinalized;
    var range := set k | k in data.Keys && lo <= k <= hi;
    assert forall k :: k in data && lo <= k <= hi ==> k in range;
    if range == {} {
      assert FinalizedIn(data, lo, hi) == data;
    } else {
      hide FinalizedIn;
      var k := Min(range);
      var next := data[k := FinalizedBar(AsFinalized(data[k].pending).value)];
      FinalizeRangeIs(next, k + 1, hi);
      FirstFinalized(data, lo, hi, k);
    }
  }

  lemma StructuralBarsFinalize(t0: nat, data: Bars, k: nat)
    requires Structural(t0, data) && k in data && data[k].PendingBar?
    ensures AsFinalized(data[k].pending).Some?
    ensures var f := FinalizedBar(AsFinalized(data[k].pending).value);
            && f.Start() == data[k].Start() && f.End() == data[k].End() && BarOk(t0, k, f)
            && f.Data() == data[k].Data() && f.Indicators() == data[k].Indicators()
  {
    assert BarOk(t0, k, data[k]);
    ReduceIsOhlc(data[k].pending.blocks);
  }

  /** The same windows holding the same stretches of blocks. */
  ghost predicate SameSpans(a: Bars, b: Bars) {
    && a.Keys == b.Keys
    && forall k :: k in a ==>
         && a[k].HasBlocks() && b[k].HasBlocks()
         && a[k].Start() == b[k].Start() && a[k].End() == b[k].End()
  }

  lemma SameSpansStructural(t0: nat, a: Bars, b: Bars)
    requires Structural(t0, a) && SameSpans(a, b)
    requires forall k :: k in b ==> BarOk(t0, k, b[k])
    ensures Structural(t0, b)
  {
    hide BarOk;
  }

  lemma FinalizedInStructural(t0: nat, data: Bars, lo: nat, hi: nat)
    requires Structural(t0, data)
    requires forall k :: k in data && lo <= k <= hi ==> data[k].PendingBar? && AsFinalized(data[k].pending).Some?
    ensures Structural(t0, FinalizedIn(data, lo, hi))
    ensures SameSpans(data, FinalizedIn(data, lo, hi))
  {
    hide OwnWindow;
    var r := FinalizedIn(data, lo, hi);
    forall k | k in data
      ensures data[k].HasBlocks() && BarOk(t0, k, r[k]) && r[k].Start() == data[k].Start() && r[k].End() == data[k].End()
    {
      assert BarOk(t0, k, data[k]);
      if lo <= k <= hi { StructuralBarsFinalize(t0, data, k); }
    }
    SameSpansStructural(t0, data, r);
  }

  predicate Advances(s: Series, finalized: Option<nat>) {
    finalized.Some? && (s.lastFinalized.None? || finalized.value > s.lastFinalized.value)
  }

  /** The windows the next move of the frontier covers. */
  predicate Covers(s: Series, finalized: Option<nat>, k: nat) {
    && Advances(s, finalized)
    && k <= finalized.value
    && (s.lastFinalized.Some? ==> s.lastFinalized.value + OFFSET <= k)
  }

  /** `finalize_range` does not fail, and finalizes exactly the windows it covers. */
  lemma FinalizeIs(t0: nat, s: Series, finalized: Option<nat>)
    requires Invariant(t0, s)
    ensures var r := Finalize(s, finalized);
            && r.error.None?
            && Structural(t0, r.series.data)
            && SameSpans(s.data, r.series.data)
            && r.series.lastFinalized == (if Advances(s, finalized) then finalized else s.lastFinalized)
            && forall k :: k in s.data ==>
                 if Covers(s, finalized, k)
                 then s.data[k].PendingBar? && AsFinalized(s.data[k].pending).Some?
                      && r.series.data[k] == FinalizedBar(AsFinalized(s.data[k].pending).value)
                 else r.series.data[k] == s.data[k]
  {
    hide Structural;
    hide FinalizeRange;
    if Advances(s, finalized) {
      var lo := if s.lastFinalized.Some? then s.lastFinalized.value + OFFSET else 0;
      forall k | k in s.data && lo <= k <= finalized.value
        ensures s.data[k].PendingBar? && AsFinalized(s.data[k].pending).Some?
      {
        StructuralBarsFinalize(t0, s.data, k);
      }
      FinalizeRangeIs(s.data, lo, finalized.value);
      FinalizedInStructural(t0, s.data, lo, finalized.value);
    } else {
      FinalizedInStructural(t0, s.data, 1, 0);
      assert FinalizedIn(s.data, 1, 0) == s.data;
    }
  }

  lemma FinalizeStep(t0: nat, s: Series, finalized: Option<nat>)
    requires Invariant(t0, s)
    ensures Invariant(t0, Finalize(s, finalized).series)
  {
    hide Structural;
    hide Finalize;
    FinalizeIs(t0, s, finalized);
  }
}
