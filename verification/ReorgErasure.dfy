/**
  A reorg leaves no trace: rolling back to a block and inserting the block again gives the state
  of a run that never saw the rolled-back blocks.
 */
module ReorgErasure {
  import opened Wrappers
  import opened OrderedMaps
  import opened TickData
  import opened Indicators
  import opened BarSeries
  import opened SeriesInvariants
  import opened InsertOutcome
  import opened ReorgPrune
  import opened CachedIndicators
  import opened SeriesRuns

  /** Where a block's tick sits: its bar and its tick. */
  datatype Spot = Spot(window: nat, tick: Tick)

  /** The bars hold exactly the blocks of `h`, and none is finalized. */
  ghost predicate Holds(data: Bars, h: map<nat, Spot>) {
    && (forall k :: k in data ==> data[k].PendingBar?)
    && (forall k, b :: k in data && b in data[k].pending.blocks ==> b in h && h[b] == Spot(k, data[k].pending.blocks[b]))
    && (forall b :: b in h ==> h[b].window in data && b in data[h[b].window].pending.blocks)
  }

  // ---- the state is a function of its blocks ----------------------------------------------

  lemma BlocksCarryOver(a: Bars, b: Bars, h: map<nat, Spot>, k: nat)
    requires Holds(a, h) && Holds(b, h) && k in a && k in b
    ensures forall x :: x in a[k].pending.blocks ==>
              x in b[k].pending.blocks && a[k].pending.blocks[x] == b[k].pending.blocks[x]
  {
    forall x | x in a[k].pending.blocks
      ensures x in b[k].pending.blocks && a[k].pending.blocks[x] == b[k].pending.blocks[x]
    {
      assert h[x] == Spot(k, a[k].pending.blocks[x]);
      assert x in b[h[x].window].pending.blocks;
    }
  }

  lemma SameBlocks(a: Bars, b: Bars, h: map<nat, Spot>, k: nat)
    requires Holds(a, h) && Holds(b, h) && k in a && k in b
    ensures a[k].pending.blocks == b[k].pending.blocks
  {
    BlocksCarryOver(a, b, h, k);
    BlocksCarryOver(b, a, h, k);
  }

  lemma SameWindows(t0: nat, a: Bars, b: Bars, h: map<nat, Spot>)
    requires Structural(t0, a) && Holds(a, h) && Holds(b, h)
    ensures forall k :: k in a ==> k in b
  {
    hide OwnWindow;
    forall k | k in a ensures k in b {
      assert BarOk(t0, k, a[k]);
      var x := MinKey(a[k].pending.blocks);
      assert h[x].window == k;
    }
  }

  /** Two sound states without finalized bars that hold the same blocks are equal. */
  lemma BlocksDetermineState(config: Config, t0: nat, a: Bars, b: Bars, h: map<nat, Spot>)
    requires Structural(t0, a) && Structural(t0, b) && Holds(a, h) && Holds(b, h)
    requires IndicatorsRight(config, a) && IndicatorsRight(config, b)
    ensures a == b
  {
    hide OwnWindow, Structural, Batch, Holds, GapFree;
    SameWindows(t0, a, b, h);
    SameWindows(t0, b, a, h);
    AllPending(a, h);
    AllPending(b, h);
    forall k | k in a ensures a[k].pending.blocks == b[k].pending.blocks && a[k].pending.data == b[k].pending.data {
      SameBlocks(a, b, h, k);
      StructuralBarOk(t0, a, k);
      StructuralBarOk(t0, b, k);
    }
    assert a.Keys == b.Keys;
    assert Closes(a) == Closes(b);
  }

  // ---- inserts and prunes as operations on the blocks -------------------------------------

  /** A new latest block, after the padding that repeats the block before the gap in its own window. */
  ghost function Extended(t0: nat, h: map<nat, Spot>, n: nat, tick: Tick): map<nat, Spot> {
    PaddedSpots(t0, h, n)[n := Spot(OwnWindow(t0, n), tick)]
  }

  lemma UpsertHolds(data: Bars, h: map<nat, Spot>, k: nat, lo: nat, hi: nat, tick: Tick)
    requires Holds(data, h)
    requires forall b :: b in h ==> b < lo
    ensures Holds(Upsert(data, k, lo, hi, tick), Filled(h, lo, hi, Spot(k, tick)))
  {
    hide Reduce, Filled;
    var before: map<nat, Tick> := if k in data then data[k].pending.blocks else map[];
    var blocks := Filled(before, lo, hi, tick);
    var after, g := Upsert(data, k, lo, hi, tick), Filled(h, lo, hi, Spot(k, tick));
    assert after[k].pending.blocks == blocks;
    forall j, b | j in after && b in after[j].pending.blocks
      ensures b in g && g[b] == Spot(j, after[j].pending.blocks[b])
    {
      if j != k {
        assert b in data[j].pending.blocks && b in h;
      } else if !(lo <= b < hi) {
        assert b in before && h[b] == Spot(k, before[b]);
      }
    }
    forall b | b in g ensures g[b].window in after && b in after[g[b].window].pending.blocks {
      if !(lo <= b < hi) { assert b in h; }
    }
  }

  /** The latest block of the bars is the latest block held. */
  lemma LatestHeld(t0: nat, data: Bars, h: map<nat, Spot>)
    requires Structural(t0, data) && Holds(data, h) && data.Keys != {}
    ensures h.Keys != {}
    ensures data[MaxKey(data)].HasBlocks() && data[MaxKey(data)].End() == MaxKey(h)
    ensures data[MaxKey(data)].pending.blocks[MaxKey(h)] == h[MaxKey(h)].tick
  {
    hide OwnWindow;
    var top := MaxKey(data);
    assert BarOk(t0, top, data[top]);
    var last := data[top].End();
    assert last in h.Keys;
    var m := MaxKey(h);
    var k := h[m].window;
    assert BarOk(t0, k, data[k]);
    assert m <= data[k].End();
    LatestBarIsLatest(t0, data, k);
  }

  lemma EmptyHolds(data: Bars, h: map<nat, Spot>)
    requires Holds(data, h) && data.Keys == {}
    ensures h.Keys == {}
  {
  }

  lemma AllPending(data: Bars, h: map<nat, Spot>)
    requires Holds(data, h)
    ensures forall k :: k in data ==> data[k].PendingBar?
  {
  }

  /** An insert that does not finalize extends the blocks held. */
  lemma InsertExtends(config: Config, t0: nat, s: Series, h: map<nat, Spot>, n: nat, tick: Tick)
    requires Clock(t0) && Invariant(t0, s) && AllBelow(s.data, n) && Holds(s.data, h)
    requires config.retentionCount.None?
    requires PadFits(s.data, n, BlockTime(t0, n))
    ensures var r := InsertData(config, s, n, tick, BlockTime(t0, n), None);
            && r.error.None?
            && r.series.lastFinalized == s.lastFinalized
            && Holds(r.series.data, Extended(t0, h, n, tick))
            && forall b :: b in Extended(t0, h, n, tick) ==> b <= n
  {
    hide OwnWindow;
    hide Structural;
    hide Pad;
    hide Place;
    hide UpdateAll;
    hide InsertData;
    hide Holds, PadFits, Upsert, Filled, PaddedSpots, AllBelow, ReadyFor;
    var w := OwnWindow(t0, n);
    AllPending(s.data, h);
    PadHolds(t0, s, h, n);
    PadStep(t0, s.data, n);
    InsertKeepsInvariant(config, t0, s, n, tick, None);
    InsertUnfolds(config, t0, s, n, tick, None);
    var padded := Pad(s.data, n, BlockTime(t0, n));
    PlaceStep(t0, padded.data, n, tick);
    var g := PaddedSpots(t0, h, n);
    AllPending(padded.data, g);
    UpsertHolds(padded.data, g, w, n, n + 1, tick);
    assert Filled(g, n, n + 1, Spot(w, tick)) == Extended(t0, h, n, tick) by {
      assert Filled(g, n, n, Spot(w, tick)) == g;
    }
    var placed := Upsert(padded.data, w, n, n + 1, tick);
    UpdateAllKeeps(config, placed, padded.updated + [w]);
    SameBarsHold(placed, UpdateAll(config, placed, padded.updated + [w]).data, Extended(t0, h, n, tick));
  }

  ghost function PaddedSpots(t0: nat, h: map<nat, Spot>, n: nat): map<nat, Spot> {
    if h.Keys == {} then h
    else
      var last := MaxKey(h);
      Filled(h, last + 1, n, Spot(OwnWindow(t0, last), h[last].tick))
  }

  lemma PadHolds(t0: nat, s: Series, h: map<nat, Spot>, n: nat)
    requires Clock(t0) && Invariant(t0, s) && AllBelow(s.data, n) && Holds(s.data, h)
    ensures PadFits(s.data, n, BlockTime(t0, n))
    ensures var g := PaddedSpots(t0, h, n);
            Holds(Pad(s.data, n, BlockTime(t0, n)).data, g) && forall b :: b in g ==> b < n
  {
    hide OwnWindow, Structural, Pad, Padded, NotPadded, Holds, PaddedSpots, AllBelow;
    PadShape(t0, s.data, n);
    var r := Pad(s.data, n, BlockTime(t0, n));
    if s.data.Keys == {} {
      EmptyHolds(s.data, h);
      NoPaddedSpots(t0, h, n);
    } else {
      SpotsBelow(t0, s.data, h, n);
      if r.updated != [] {
        PaddedHolds(t0, s.data, h, n, r.updated[0], r.data);
      } else {
        UnpaddedHolds(t0, s.data, h, n);
      }
    }
  }

  lemma NoPaddedSpots(t0: nat, h: map<nat, Spot>, n: nat)
    requires h.Keys == {}
    ensures PaddedSpots(t0, h, n) == h
  {
  }

  lemma SpotsBelow(t0: nat, data: Bars, h: map<nat, Spot>, n: nat)
    requires Structural(t0, data) && AllBelow(data, n) && Holds(data, h) && data.Keys != {}
    ensures data[MaxKey(data)].HasBlocks() && h.Keys != {} && MaxKey(h) == data[MaxKey(data)].End() < n
    ensures h[MaxKey(h)].tick == data[MaxKey(data)].pending.blocks[MaxKey(h)]
    ensures forall b :: b in PaddedSpots(t0, h, n) ==> b < n
  {
    hide OwnWindow, Structural, Holds, Filled;
    LatestHeld(t0, data, h);
    LatestBounds(t0, data, n);
  }

  lemma PaddedHolds(t0: nat, data: Bars, h: map<nat, Spot>, n: nat, w: nat, r: Bars)
    requires data.Keys != {} && data[MaxKey(data)].HasBlocks() && Padded(t0, data, n, w, r) && Holds(data, h)
    requires h.Keys != {} && MaxKey(h) == data[MaxKey(data)].End()
    requires data[MaxKey(data)].PendingBar? ==> h[MaxKey(h)].tick == data[MaxKey(data)].pending.blocks[MaxKey(h)]
    ensures Holds(r, PaddedSpots(t0, h, n))
  {
    hide OwnWindow, Upsert, Filled, Holds, PadFrom;
    var last := MaxKey(h);
    AllPending(data, h);
    PadTick(data, h, n);
    AllSpotsUpTo(h, last);
    UpsertHolds(data, h, w, last + 1, n, h[last].tick);
  }

  lemma AllSpotsUpTo(h: map<nat, Spot>, last: nat)
    requires h.Keys != {} && MaxKey(h) == last
    ensures forall b :: b in h ==> b < last + 1
  {
  }

  lemma PadTick(data: Bars, h: map<nat, Spot>, n: nat)
    requires data.Keys != {} && data[MaxKey(data)].PendingBar? && data[MaxKey(data)].HasBlocks()
    requires h.Keys != {} && MaxKey(h) == data[MaxKey(data)].End() && PadFrom(data, n).Some?
    requires h[MaxKey(h)].tick == data[MaxKey(data)].pending.blocks[MaxKey(h)]
    ensures PadFrom(data, n).value.1 == h[MaxKey(h)].tick
  {
  }

  lemma UnpaddedHolds(t0: nat, data: Bars, h: map<nat, Spot>, n: nat)
    requires data.Keys != {} && data[MaxKey(data)].HasBlocks() && NotPadded(t0, data, n) && Holds(data, h)
    requires h.Keys != {} && MaxKey(h) == data[MaxKey(data)].End()
    ensures Holds(data, PaddedSpots(t0, h, n))
  {
    hide OwnWindow, Filled;
    var last := MaxKey(h);
    assert last + 1 == n;
    assert Filled(h, n, n, Spot(OwnWindow(t0, last), h[last].tick)) == h;
  }

  lemma SameBarsHold(a: Bars, b: Bars, h: map<nat, Spot>)
    requires SameBars(a, b) && Holds(a, h)
    ensures Holds(b, h)
  {
    forall k | k in b ensures b[k].PendingBar? && b[k].pending.blocks == a[k].pending.blocks {
      assert Strip(a[k]) == Strip(b[k]);
    }
  }

  /** A reorg prune removes the blocks at or above `n` and no other. */
  lemma PruneCuts(config: Config, t0: nat, s: Series, h: map<nat, Spot>, n: nat)
    requires Invariant(t0, s) && Holds(s.data, h)
    ensures var r := PruneToReorgedBlockNumber(config, s, n);
            && r.error.None?
            && r.series.lastFinalized == s.lastFinalized
            && Holds(r.series.data, Below(h, n))
  {
    hide PruneToReorgedBlockNumber;
    PruneIsExact(config, t0, s, n);
    TruncatedHolds(t0, s.data, h, n);
    SameBarsHold(Truncated(s.data, n), PruneToReorgedBlockNumber(config, s, n).series.data, Below(h, n));
  }

  lemma TruncatedBlocks(data: Bars, n: nat, k: nat)
    requires forall j :: j in data ==> data[j].HasBlocks()
    requires k in data && data[k].PendingBar?
    ensures var r := Truncated(data, n);
            var left := Below(data[k].pending.blocks, n);
            if left.Keys != {} then k in r && r[k].PendingBar? && r[k].pending.blocks == left else k !in r
  {
    hide Reduce;
    var blocks := data[k].pending.blocks;
    if data[k].Start() < n {
      assert MinKey(blocks) in Below(blocks, n).Keys;
      if data[k].End() < n { assert Below(blocks, n) == blocks; }
    } else {
      assert Below(blocks, n).Keys == {};
    }
  }

  lemma TruncatedHolds(t0: nat, data: Bars, h: map<nat, Spot>, n: nat)
    requires Structural(t0, data) && Holds(data, h)
    ensures forall k :: k in data ==> data[k].HasBlocks()
    ensures Holds(Truncated(data, n), Below(h, n))
  {
    hide OwnWindow, Structural, Truncated;
    StructuralHasBlocks(t0, data);
    TruncatedKeys(data, n);
    var r := Truncated(data, n);
    forall k, b | k in data && b in data[k].pending.blocks && b < n
      ensures k in r && r[k].PendingBar? && b in r[k].pending.blocks
    {
      TruncatedBlocks(data, n, k);
    }
    forall k | k in r
      ensures r[k].PendingBar? && r[k].pending.blocks == Below(data[k].pending.blocks, n)
    {
      TruncatedBlocks(data, n, k);
    }
  }

  // ---- runs of observations ---------------------------------------------------------------

  datatype Observation = Observation(block: nat, tick: Tick)

  /** The store's treatment of one block of a pair: roll back if it is not new, then insert it. */
  ghost function Observe(config: Config, t0: nat, s: Series, o: Observation): Option<Series> {
    var insert := Insert(o.block, o.tick, None);
    if AllBelow(s.data, o.block) then Apply(config, t0, s, insert)
    else
      var pruned := Apply(config, t0, s, Prune(o.block));
      if pruned.None? then None else Apply(config, t0, pruned.value, insert)
  }

  ghost function ObserveAll(config: Config, t0: nat, obs: seq<Observation>): Option<Series>
    decreases |obs|
  {
    if obs == [] then Some(EmptySeries)
    else
      var before := ObserveAll(config, t0, obs[..|obs| - 1]);
      if before.None? then None else Observe(config, t0, before.value, obs[|obs| - 1])
  }

  /** The observations before the first one at or above `n`, for an increasing sequence. */
  function Kept(obs: seq<Observation>, n: nat): seq<Observation>
    decreases |obs|
  {
    if obs == [] || obs[|obs| - 1].block < n then obs else Kept(obs[..|obs| - 1], n)
  }

  /** The observations that no later reorg rolled back. */
  function Surviving(obs: seq<Observation>): seq<Observation>
    decreases |obs|
  {
    if obs == [] then []
    else
      var o := obs[|obs| - 1];
      Kept(Surviving(obs[..|obs| - 1]), o.block) + [o]
  }

  ghost predicate Increasing(obs: seq<Observation>) {
    forall i, j :: 0 <= i < j < |obs| ==> obs[i].block < obs[j].block
  }

  lemma {:induction false} KeptIncreasing(obs: seq<Observation>, n: nat)
    requires Increasing(obs)
    ensures Increasing(Kept(obs, n)) && forall i :: 0 <= i < |Kept(obs, n)| ==> Kept(obs, n)[i].block < n
    decreases |obs|
  {
    if obs != [] && obs[|obs| - 1].block >= n {
      KeptIncreasing(obs[..|obs| - 1], n);
    }
  }

  lemma {:induction false} SurvivingIncreasing(obs: seq<Observation>)
    ensures Increasing(Surviving(obs))
    decreases |obs|
  {
    if obs != [] {
      SurvivingIncreasing(obs[..|obs| - 1]);
      KeptIncreasing(Surviving(obs[..|obs| - 1]), obs[|obs| - 1].block);
    }
  }

  lemma LastIsLatest(obs: seq<Observation>)
    requires Increasing(obs) && obs != []
    ensures var front := obs[..|obs| - 1]; Increasing(front) && Kept(front, obs[|obs| - 1].block) == front
  {
  }

  /** Observations that never go back all survive. */
  lemma {:induction false} ForwardAllSurvive(obs: seq<Observation>)
    requires Increasing(obs)
    ensures Surviving(obs) == obs
    decreases |obs|
  {
    if obs != [] {
      var front := obs[..|obs| - 1];
      ForwardAllSurvive(front);
      hide Surviving;
      LastIsLatest(obs);
    }
  }

  /** The blocks held after a run that never went back. */
  ghost function History(t0: nat, obs: seq<Observation>): map<nat, Spot>
    decreases |obs|
  {
    if obs == [] then map[]
    else Extended(t0, History(t0, obs[..|obs| - 1]), obs[|obs| - 1].block, obs[|obs| - 1].tick)
  }

  lemma {:induction false} HistoryEnds(t0: nat, obs: seq<Observation>)
    requires Increasing(obs) && obs != []
    ensures var h := History(t0, obs);
            var o := obs[|obs| - 1];
            && h.Keys != {} && MaxKey(h) == o.block
            && h[o.block] == Spot(OwnWindow(t0, o.block), o.tick)
    decreases |obs|
  {
    hide OwnWindow;
    if |obs| > 1 {
      HistoryEnds(t0, obs[..|obs| - 1]);
    }
    assert obs[|obs| - 1].block in History(t0, obs).Keys;
  }

  /** Rolling back into the gap before the latest observation leaves the padding below `n`. */
  lemma RollbackOne(t0: nat, obs: seq<Observation>, n: nat)
    requires Increasing(obs) && |obs| > 1 && obs[|obs| - 2].block < n <= obs[|obs| - 1].block
    ensures Below(History(t0, obs), n) == PaddedSpots(t0, History(t0, obs[..|obs| - 1]), n)
  {
    hide OwnWindow;
    var front := obs[..|obs| - 1];
    HistoryEnds(t0, front);
    var m := front[|front| - 1].block;
    var cut := Below(History(t0, obs), n);
    assert forall b :: b in History(t0, front) ==> b <= m;
    assert cut == PaddedSpots(t0, History(t0, front), n);
  }

  lemma RollbackMore(t0: nat, obs: seq<Observation>, n: nat)
    requires Increasing(obs) && |obs| > 1 && n <= obs[|obs| - 2].block
    ensures Below(History(t0, obs), n) == Below(History(t0, obs[..|obs| - 1]), n)
  {
    hide OwnWindow;
    HistoryEnds(t0, obs[..|obs| - 1]);
  }

  /** What is left of a history below `n` is the kept observations, padded up to `n`. */
  lemma {:induction false} RollbackIsPadded(t0: nat, obs: seq<Observation>, n: nat)
    requires Increasing(obs) && obs != [] && obs[|obs| - 1].block >= n
    ensures Below(History(t0, obs), n) == PaddedSpots(t0, History(t0, Kept(obs, n)), n)
    decreases |obs|
  {
    hide OwnWindow;
    hide PaddedSpots;
    var front := obs[..|obs| - 1];
    if front == [] {
      FirstRollsBackToNothing(t0, obs, n);
    } else if front[|front| - 1].block < n {
      RollbackOne(t0, obs, n);
    } else {
      RollbackMore(t0, obs, n);
      RollbackIsPadded(t0, front, n);
    }
  }

  lemma FirstRollsBackToNothing(t0: nat, obs: seq<Observation>, n: nat)
    requires |obs| == 1 && obs[0].block >= n
    ensures Below(History(t0, obs), n) == map[]
    ensures PaddedSpots(t0, History(t0, Kept(obs, n)), n) == map[]
  {
    hide OwnWindow;
  }

  /** Rolling a history back to `n` and extending it with `n` forgets what was at or above `n`. */
  lemma RollbackForgets(t0: nat, obs: seq<Observation>, o: Observation)
    requires Increasing(obs) && obs != [] && obs[|obs| - 1].block >= o.block
    ensures Extended(t0, Below(History(t0, obs), o.block), o.block, o.tick) == History(t0, Kept(obs, o.block) + [o])
  {
    hide OwnWindow;
    hide PaddedSpots;
    var kept := Kept(obs, o.block);
    assert (kept + [o])[..|kept|] == kept;
    RollbackIsPadded(t0, obs, o.block);
    KeptIncreasing(obs, o.block);
    GapNeedsNoPadding(t0, kept, o.block);
  }

  /** What is padded up to `n` needs no padding when `n` comes next. */
  lemma GapNeedsNoPadding(t0: nat, obs: seq<Observation>, n: nat)
    requires Increasing(obs) && forall i :: 0 <= i < |obs| ==> obs[i].block < n
    ensures var cut := PaddedSpots(t0, History(t0, obs), n);
            && PaddedSpots(t0, cut, n) == cut
            && (obs != [] ==>
                  && cut.Keys != {} && MaxKey(cut) == n - 1
                  && cut[n - 1].tick == obs[|obs| - 1].tick)
  {
    hide OwnWindow;
    if obs != [] {
      HistoryEnds(t0, obs);
      var cut := PaddedSpots(t0, History(t0, obs), n);
      assert n - 1 in cut.Keys;
      assert MaxKey(cut) == n - 1;
    }
  }

  ghost predicate Faithful(config: Config, t0: nat, s: Series, h: map<nat, Spot>) {
    && Invariant(t0, s) && IndicatorsRight(config, s.data) && Holds(s.data, h) && s.lastFinalized == None
  }

  lemma ObserveHolds(config: Config, t0: nat, s: Series, obs: seq<Observation>, o: Observation)
    requires Clock(t0) && config.retentionCount.None?
    requires Increasing(obs) && Faithful(config, t0, s, History(t0, obs))
    ensures var r := Observe(config, t0, s, o);
            r.Some? && Faithful(config, t0, r.value, History(t0, Kept(obs, o.block) + [o]))
  {
    hide OwnWindow;
    hide Structural;
    hide InsertData;
    hide PruneToReorgedBlockNumber;
    hide IndicatorsRight;
    hide Extended;
    hide PadFits;
    var h := History(t0, obs);
    if AllBelow(s.data, o.block) {
      InsertFaithful(config, t0, s, h, o);
      AllBelowMeansNew(t0, s, obs, o);
      assert (obs + [o])[..|obs|] == obs;
    } else {
      PruneCuts(config, t0, s, h, o.block);
      PruneIsExact(config, t0, s, o.block);
      ApplyKeeps(config, t0, s, Prune(o.block));
      var pruned := Apply(config, t0, s, Prune(o.block)).value;
      InsertFaithful(config, t0, pruned, Below(h, o.block), o);
      NotBelowMeansOld(t0, s, obs, o);
      RollbackForgets(t0, obs, o);
    }
  }

  lemma InsertFaithful(config: Config, t0: nat, s: Series, h: map<nat, Spot>, o: Observation)
    requires Clock(t0) && config.retentionCount.None?
    requires Faithful(config, t0, s, h) && AllBelow(s.data, o.block)
    ensures var r := Apply(config, t0, s, Insert(o.block, o.tick, None));
            r.Some? && Faithful(config, t0, r.value, Extended(t0, h, o.block, o.tick))
  {
    hide OwnWindow;
    hide Structural;
    hide InsertData;
    hide IndicatorsRight;
    hide PadFits;
    hide Extended;
    InsertKeepsInvariant(config, t0, s, o.block, o.tick, None);
    InsertExtends(config, t0, s, h, o.block, o.tick);
    ApplyKeeps(config, t0, s, Insert(o.block, o.tick, None));
  }

  lemma AllBelowMeansNew(t0: nat, s: Series, obs: seq<Observation>, o: Observation)
    requires Increasing(obs) && Holds(s.data, History(t0, obs)) && AllBelow(s.data, o.block)
    ensures Kept(obs, o.block) == obs
  {
    hide OwnWindow;
    if obs != [] {
      HistoryEnds(t0, obs);
      var last := obs[|obs| - 1].block;
      var k := History(t0, obs)[last].window;
      assert last in s.data[k].pending.blocks && last <= s.data[k].End();
    }
  }

  lemma NotBelowMeansOld(t0: nat, s: Series, obs: seq<Observation>, o: Observation)
    requires Increasing(obs) && Invariant(t0, s) && Holds(s.data, History(t0, obs)) && !AllBelow(s.data, o.block)
    ensures obs != [] && obs[|obs| - 1].block >= o.block
  {
    hide OwnWindow;
    StructuralHasBlocks(t0, s.data);
    var k :| k in s.data && s.data[k].End() >= o.block;
    assert s.data[k].End() in s.data[k].pending.blocks && s.data[k].End() in History(t0, obs);
    HistoryEnds(t0, obs);
  }

  /** After any observations, reorgs included, the state holds exactly the surviving ones, padded. */
  lemma {:induction false} RunHoldsSurviving(config: Config, t0: nat, obs: seq<Observation>)
    requires Clock(t0) && config.retentionCount.None?
    ensures var r := ObserveAll(config, t0, obs);
            r.Some? && Faithful(config, t0, r.value, History(t0, Surviving(obs)))
    decreases |obs|
  {
    hide OwnWindow;
    hide Observe;
    if obs != [] {
      var front := obs[..|obs| - 1];
      RunHoldsSurviving(config, t0, front);
      SurvivingIncreasing(front);
      ObserveHolds(config, t0, ObserveAll(config, t0, front).value, Surviving(front), obs[|obs| - 1]);
    }
  }

  /**
    Any run with reorgs never fails and ends in the state of the run that only ever saw the
    observations that survived: bars, block maps, OHLC and indicators.
   */
  lemma ReorgsLeaveNoTrace(config: Config, t0: nat, obs: seq<Observation>)
    requires Clock(t0) && config.retentionCount.None?
    ensures Increasing(Surviving(obs))
    ensures ObserveAll(config, t0, obs).Some?
    ensures ObserveAll(config, t0, obs) == ObserveAll(config, t0, Surviving(obs))
  {
    hide OwnWindow;
    SurvivingIncreasing(obs);
    ForwardAllSurvive(Surviving(obs));
    RunHoldsSurviving(config, t0, obs);
    RunHoldsSurviving(config, t0, Surviving(obs));
    BlocksDetermineState(config, t0, ObserveAll(config, t0, obs).value.data,
                         ObserveAll(config, t0, Surviving(obs)).value.data, History(t0, Surviving(obs)));
  }

  // ---- a pair that misses the reorged block -----------------------------------------------

  lemma StateDeterminesBlocks(data: Bars, g: map<nat, Spot>, h: map<nat, Spot>)
    requires Holds(data, g) && Holds(data, h)
    ensures g == h
  {
    HeldInBoth(data, g, h);
    HeldInBoth(data, h, g);
  }

  lemma HeldInBoth(data: Bars, g: map<nat, Spot>, h: map<nat, Spot>)
    requires Holds(data, g) && Holds(data, h)
    ensures forall b :: b in g ==> b in h && g[b] == h[b]
  {
    forall b | b in g ensures b in h && g[b] == h[b] {
      assert b in data[g[b].window].pending.blocks;
    }
  }

  /** Extending what a rollback to `n` left, later than `n`, against extending what it kept. */
  lemma LateExtension(t0: nat, obs: seq<Observation>, n: nat, o: Observation)
    requires Increasing(obs) && obs != [] && forall i :: 0 <= i < |obs| ==> obs[i].block < n
    requires o.block >= n
    ensures Extended(t0, PaddedSpots(t0, History(t0, obs), n), o.block, o.tick) == Extended(t0, History(t0, obs), o.block, o.tick)
       <==> o.block == n || OwnWindow(t0, n - 1) == OwnWindow(t0, obs[|obs| - 1].block)
  {
    hide OwnWindow;
    HistoryEnds(t0, obs);
    GapNeedsNoPadding(t0, obs, n);
    var h := History(t0, obs);
    var cut := PaddedSpots(t0, h, n);
    var a := Extended(t0, cut, o.block, o.tick);
    var b := Extended(t0, h, o.block, o.tick);
    if o.block > n {
      assert a[n] == Spot(OwnWindow(t0, n - 1), obs[|obs| - 1].tick);
      assert b[n] == Spot(OwnWindow(t0, obs[|obs| - 1].block), obs[|obs| - 1].tick);
    }
    if o.block == n || OwnWindow(t0, n - 1) == OwnWindow(t0, obs[|obs| - 1].block) {
      assert a == b;
    }
  }

  /** Rolling back to `n` and inserting a later block, without `n` itself. */
  ghost function LateReinsert(config: Config, t0: nat, s: Series, n: nat, o: Observation): Option<Series> {
    var pruned := Apply(config, t0, s, Prune(n));
    if pruned.None? then None else Apply(config, t0, pruned.value, Insert(o.block, o.tick, None))
  }

  lemma LateReinsertHolds(config: Config, t0: nat, s: Series, h: map<nat, Spot>, n: nat, o: Observation)
    requires Clock(t0) && config.retentionCount.None? && Faithful(config, t0, s, h) && o.block >= n
    ensures var r := LateReinsert(config, t0, s, n, o);
            r.Some? && Faithful(config, t0, r.value, Extended(t0, Below(h, n), o.block, o.tick))
  {
    hide OwnWindow;
    hide Structural;
    hide InsertData;
    hide PruneToReorgedBlockNumber;
    hide IndicatorsRight;
    hide Extended;
    hide PadFits;
    PruneCuts(config, t0, s, h, n);
    PruneIsExact(config, t0, s, n);
    ApplyKeeps(config, t0, s, Prune(n));
    var pruned := Apply(config, t0, s, Prune(n)).value;
    WeakenAllBelow(pruned.data, n, o.block);
    InsertFaithful(config, t0, pruned, Below(h, n), o);
  }

  lemma WeakenAllBelow(data: Bars, n: nat, m: nat)
    requires AllBelow(data, n) && n <= m
    ensures AllBelow(data, m)
  {
  }

  /** Two faithful states are equal exactly when they hold the same blocks. */
  lemma EqualIffSameBlocks(config: Config, t0: nat, a: Series, g: map<nat, Spot>, b: Series, h: map<nat, Spot>)
    requires Faithful(config, t0, a, g) && Faithful(config, t0, b, h)
    ensures a == b <==> g == h
  {
    hide OwnWindow;
    hide Structural;
    hide IndicatorsRight;
    if a == b { StateDeterminesBlocks(a.data, g, h); }
    if g == h { BlocksDetermineState(config, t0, a.data, b.data, g); }
  }

  lemma HistorySnoc(t0: nat, obs: seq<Observation>, o: Observation)
    ensures History(t0, obs + [o]) == Extended(t0, History(t0, obs), o.block, o.tick)
  {
    hide Extended;
    assert (obs + [o])[..|obs|] == obs;
  }

  /** What a rollback to `n` and a later insert hold is what the run over the kept observations holds, or not. */
  lemma LateBlocks(t0: nat, obs: seq<Observation>, n: nat, o: Observation)
    requires Increasing(obs) && o.block >= n
    ensures var kept := Kept(obs, n);
            Extended(t0, Below(History(t0, obs), n), o.block, o.tick) == History(t0, kept + [o]) <==>
              || kept == obs || kept == [] || o.block == n
              || (n > 0 && OwnWindow(t0, n - 1) == OwnWindow(t0, kept[|kept| - 1].block))
  {
    hide OwnWindow;
    hide Extended;
    var kept := Kept(obs, n);
    KeptIncreasing(obs, n);
    HistorySnoc(t0, kept, o);
    if kept == obs {
      NothingToCut(t0, obs, n);
    } else {
      RollbackIsPadded(t0, obs, n);
      if kept != [] {
        LateExtension(t0, kept, n, o);
      }
    }
  }

  lemma NothingToCut(t0: nat, obs: seq<Observation>, n: nat)
    requires Increasing(obs) && Kept(obs, n) == obs
    ensures Below(History(t0, obs), n) == History(t0, obs)
  {
    hide OwnWindow;
    hide Extended;
    KeptIncreasing(obs, n);
    if obs != [] {
      HistoryEnds(t0, obs);
    }
    assert Below(History(t0, obs), n) == History(t0, obs);
  }

  /**
    After any run, a pair without a trade in the reorged block itself is rolled back to `n` but next
    inserted later. The rollback is then invisible exactly when it removes every observation or none,
    the insert is at `n` after all, or the block before `n` is in the window of the last observation
    kept: otherwise the padding left by the rolled-back run sends the new padding to another window.
   */
  lemma LateReinsertLeavesNoTraceIff(config: Config, t0: nat, obs: seq<Observation>, n: nat, o: Observation)
    requires Clock(t0) && config.retentionCount.None? && o.block >= n
    ensures var surviving := Surviving(obs);
            var kept := Kept(surviving, n);
            && ObserveAll(config, t0, obs).Some?
            && (LateReinsert(config, t0, ObserveAll(config, t0, obs).value, n, o) == ObserveAll(config, t0, kept + [o]) <==>
                  || kept == surviving || kept == [] || o.block == n
                  || (n > 0 && OwnWindow(t0, n - 1) == OwnWindow(t0, kept[|kept| - 1].block)))
  {
    hide OwnWindow;
    hide Faithful;
    hide Extended;
    hide PaddedSpots;
    hide ObserveAll;
    hide LateReinsert;
    hide History;
    hide Kept;
    hide Surviving;
    var surviving := Surviving(obs);
    var kept := Kept(surviving, n);
    var direct := kept + [o];
    RunHoldsSurviving(config, t0, obs);
    SurvivingIncreasing(obs);
    var before := ObserveAll(config, t0, obs).value;
    LateReinsertHolds(config, t0, before, History(t0, surviving), n, o);
    LateBlocks(t0, surviving, n, o);
    KeptIncreasing(surviving, n);
    ForwardAllSurvive(direct);
    RunHoldsSurviving(config, t0, direct);
    EqualIffSameBlocks(config, t0,
                       LateReinsert(config, t0, before, n, o).value,
                       Extended(t0, Below(History(t0, surviving), n), o.block, o.tick),
                       ObserveAll(config, t0, direct).value, History(t0, direct));
  }

  /**
    A rollback that leaves a trace: blocks 0 and 1000 are seen, a reorg goes back to 500, and the next
    block with a trade is 600. The padding kept up to 499 sends that of 500 to 599 to a later window.
   */
  lemma LateReinsertLeavesATrace(config: Config, t0: nat, first: Observation, second: Observation, n: nat, o: Observation)
    requires Clock(t0) && config.retentionCount.None?
    requires first.block == 0 && second.block == 1000 && n == 500 && o.block == 600
    ensures ObserveAll(config, t0, [first, second]).Some?
    ensures LateReinsert(config, t0, ObserveAll(config, t0, [first, second]).value, n, o) != ObserveAll(config, t0, [first, o])
  {
    hide ObserveAll;
    hide LateReinsert;
    var obs := [first, second];
    ForwardAllSurvive(obs);
    assert obs[..1] == [first];
    assert Kept(obs, n) == [first];
    LateReinsertLeavesNoTraceIff(config, t0, obs, n, o);
    assert [first] + [o] == [first, o];
  }
}
