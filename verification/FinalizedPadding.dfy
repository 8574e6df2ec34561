/** Padding after a finalized bar: the one case in which it does not repeat the latest tick. */
module FinalizedPadding {
  import opened Wrappers
  import opened OrderedMaps
  import opened TickData
  import opened TimePriceBar
  import opened ResolutionTimestamp
  import opened Indicators
  import opened BarSeries
  import opened SeriesInvariants
  import opened InsertOutcome
  import opened ReorgPrune
  import opened SeriesRuns
  import opened ReorgErasure
  import opened Frontier
  import opened FinalizedErasure
  import TradeTicks

  /** Every block strictly between the two is in the bar, with this tick. */
  ghost predicate RepeatsOver(bar: Bar, after: nat, before: nat, tick: Tick) {
    bar.PendingBar? && forall b: nat :: after < b < before ==> b in bar.pending.blocks && bar.pending.blocks[b] == tick
  }

  /**
    When the latest bar is finalized and its padding reaches into a later window, blocks missing after
    it are padded with that bar's own fold: its open, high, low, close and volume, not those of its
    latest tick.
   */
  lemma PadsWithWholeBar(config: Config, t0: nat, s: Series, n: nat, tick: Tick)
    requires Clock(t0) && config.retentionCount.None? && Invariant(t0, s) && AllBelow(s.data, n)
    requires s.data.Keys != {} && s.data[MaxKey(s.data)].FinalizedBar?
    requires var last := s.data[MaxKey(s.data)].finalized.endBlock;
             last + 1 < n && OwnWindow(t0, last) != MaxKey(s.data)
    ensures Apply(config, t0, s, Insert(n, tick, None)).Some?
    ensures var r := Apply(config, t0, s, Insert(n, tick, None)).value;
            var bar := s.data[MaxKey(s.data)].finalized;
            var w := OwnWindow(t0, bar.endBlock);
            w in r.data && RepeatsOver(r.data[w], bar.endBlock, n, bar.data)
  {
    hide OwnWindow, Structural, Pad, Place, UpdateAll, InsertData, PadFits, AllBelow, ReadyFor, InsertFails;
    var bar := s.data[MaxKey(s.data)].finalized;
    var w := OwnWindow(t0, bar.endBlock);
    LaterWindowIsNew(t0, s.data, w);
    WindowMonotone(t0, bar.endBlock, n);
    NewWindowNeverFails(config, t0, s, n);
    InsertKeepsInvariant(config, t0, s, n, tick, None);
    InsertUnfolds(config, t0, s, n, tick, None);
    PadShape(t0, s.data, n);
    PadStep(t0, s.data, n);
    var padded := Pad(s.data, n, BlockTime(t0, n));
    assert RepeatsOver(padded.data[w], bar.endBlock, n, bar.data);
    PlaceStep(t0, padded.data, n, tick);
    var placed := Place(padded.data, n, tick, OwnWindow(t0, n)).value;
    PlacingRepeats(padded.data, OwnWindow(t0, n), n, tick, w, bar.endBlock, bar.data);
    var updated := padded.updated + [OwnWindow(t0, n)];
    UpdateAllKeeps(config, placed, updated);
    var after := UpdateAll(config, placed, updated).data;
    assert Strip(placed[w]) == Strip(after[w]);
  }

  /** The windows from that of the latest block on are new. */
  lemma LaterWindowIsNew(t0: nat, data: Bars, w: nat)
    requires Structural(t0, data) && data.Keys != {} && data[MaxKey(data)].FinalizedBar?
    requires w == OwnWindow(t0, data[MaxKey(data)].finalized.endBlock) && w != MaxKey(data)
    ensures w > MaxKey(data) && w !in data
  {
    hide OwnWindow;
    var k := MaxKey(data);
    assert BarOk(t0, k, data[k]);
    WindowMonotone(t0, data[k].Start(), data[k].End());
  }

  lemma NewWindowNeverFails(config: Config, t0: nat, s: Series, n: nat)
    requires config.retentionCount.None? && s.data.Keys != {} && MaxKey(s.data) < OwnWindow(t0, n)
    ensures !InsertFails(config, t0, s, n)
  {
    hide OwnWindow;
  }

  lemma PlacingRepeats(data: Bars, k: nat, n: nat, tick: Tick, w: nat, last: nat, repeated: Tick)
    requires w in data && RepeatsOver(data[w], last, n, repeated) && (k in data ==> data[k].PendingBar?)
    ensures var r := Upsert(data, k, n, n + 1, tick);
            w in r && RepeatsOver(r[w], last, n, repeated)
  {
    hide Reduce;
  }

  // ---- a run that gets there --------------------------------------------------------------

  /** Two ticks of one bar, folded. */
  function Folded(a: Tick, b: Tick): Tick {
    Tick(a.open, if b.high > a.high then b.high else a.high, if b.low < a.low then b.low else a.low, b.close, a.wethVolume)
  }

  /** Blocks 0 and 1 in the first window, padded up to block 1000, which is in another. */
  ghost predicate TwoThenFar(t0: nat, data: Bars, a: Tick, b: Tick, c: Tick) {
    var w := t0 + 1800;
    && data.Keys == {t0, w}
    && data[t0].HasBlocks() && data[t0].Start() == 0 && data[t0].End() == 999 && data[t0].Data() == Some(Folded(a, b))
    && data[w].HasBlocks() && data[w].Start() == 1000
  }

  lemma FarWindows(t0: nat, b: nat)
    requires Aligned(t0)
    ensures 0 <= b <= 149 ==> OwnWindow(t0, b) == t0
    ensures 900 <= b <= 1049 ==> OwnWindow(t0, b) == t0 + 1800
  {
    assert (t0 + 1800) % 300 == 0;
  }

  lemma FoldOfTwo(a: Tick, b: Tick, blocks: map<nat, Tick>, n: nat)
    requires n > 1 && blocks == Filled(map[0 := a], 1, n, b)
    ensures Reduce(blocks) == Some(Folded(a, b))
  {
    hide Reduce, Filled;
    var one: map<nat, Tick> := map[0 := a];
    OneBlock(a);
    TradeTicks.RunOfOneTick(one, 1, n, b);
  }

  lemma OneBlock(a: Tick)
    ensures Reduce(map[0 := a]) == Some(a)
  {
    var none: map<nat, Tick> := map[];
    ReduceSnoc(none, 0, a);
    assert none[0 := a] == map[0 := a];
  }

  /** The spots of blocks 0, 1 and 1000, padded. */
  ghost predicate FarSpots(t0: nat, h: map<nat, Spot>, a: Tick, b: Tick, c: Tick) {
    && (forall x: nat :: x in h <==> x <= 1000)
    && forall x :: x in h ==> h[x] == if x == 0 then Spot(t0, a) else if x < 1000 then Spot(t0, b) else Spot(t0 + 1800, c)
  }

  lemma FarHistory(t0: nat, a: Observation, b: Observation, c: Observation)
    requires Aligned(t0) && a.block == 0 && b.block == 1 && c.block == 1000
    ensures FarSpots(t0, History(t0, [a, b, c]), a.tick, b.tick, c.tick)
  {
    hide OwnWindow, Filled, Extended;
    FarWindows(t0, 0);
    FarWindows(t0, 1);
    FarWindows(t0, 1000);
    var h1 := Extended(t0, map[], 0, a.tick);
    ExtendedIs(t0, map[], 0, 0, a.tick);
    var h2 := Extended(t0, h1, 1, b.tick);
    ExtendedIs(t0, h1, 0, 1, b.tick);
    ExtendedIs(t0, h2, 1, 1000, c.tick);
    HistoryOfThree(t0, a, b, c);
  }

  lemma ExtendedIs(t0: nat, h: map<nat, Spot>, last: nat, n: nat, tick: Tick)
    requires h == map[] || (last in h && forall x :: x in h ==> x <= last)
    requires last < n || h == map[]
    ensures var r := Extended(t0, h, n, tick);
            && (forall x: nat :: x in r <==> x in h || (h != map[] && last < x < n) || x == n)
            && (forall x :: x in r ==>
                  r[x] == if x == n then Spot(OwnWindow(t0, n), tick) else if x in h then h[x] else Spot(OwnWindow(t0, last), h[last].tick))
  {
    hide OwnWindow;
    if h != map[] {
      assert last in h.Keys;
      assert MaxKey(h) == last;
    }
  }

  lemma HistoryOfThree(t0: nat, a: Observation, b: Observation, c: Observation)
    ensures History(t0, [a, b, c]) == Extended(t0, Extended(t0, Extended(t0, map[], a.block, a.tick), b.block, b.tick), c.block, c.tick)
  {
    HistorySnoc(t0, [], a);
    HistorySnoc(t0, [a], b);
    HistorySnoc(t0, [a, b], c);
    assert [] + [a] == [a] && [a] + [b] == [a, b] && [a, b] + [c] == [a, b, c];
  }

  lemma HistorySnoc(t0: nat, obs: seq<Observation>, o: Observation)
    ensures History(t0, obs + [o]) == Extended(t0, History(t0, obs), o.block, o.tick)
    ensures History(t0, []) == map[]
  {
    hide Extended;
    assert (obs + [o])[..|obs|] == obs;
  }

  lemma BarOfSpots(data: Bars, h: map<nat, Spot>, k: nat)
    requires Holds(data, h) && k in data
    ensures data[k].PendingBar?
    ensures forall x: nat :: x in data[k].pending.blocks <==> x in h && h[x].window == k
    ensures forall x :: x in data[k].pending.blocks ==> data[k].pending.blocks[x] == h[x].tick
  {
  }

  lemma FarKeys(t0: nat, data: Bars, h: map<nat, Spot>, a: Tick, b: Tick, c: Tick)
    requires Structural(t0, data) && Holds(data, h) && FarSpots(t0, h, a, b, c)
    ensures data.Keys == {t0, t0 + 1800}
  {
    hide OwnWindow, Structural, Holds;
    SpotIsHeld(data, h, 0);
    SpotIsHeld(data, h, 1000);
    forall k | k in data ensures k == t0 || k == t0 + 1800 {
      StructuralBarOk(t0, data, k);
      BarOfSpots(data, h, k);
      HasABlock(t0, k, data[k]);
      var x: nat :| x in data[k].pending.blocks;
      assert h[x].window == k;
    }
  }

  lemma HasABlock(t0: nat, k: nat, bar: Bar)
    requires BarOk(t0, k, bar) && bar.PendingBar?
    ensures exists x: nat :: x in bar.pending.blocks
  {
    hide OwnWindow;
    assert MinKey(bar.pending.blocks) in bar.pending.blocks;
  }

  lemma SpotIsHeld(data: Bars, h: map<nat, Spot>, x: nat)
    requires Holds(data, h) && x in h
    ensures h[x].window in data
  {
  }

  lemma FirstBarIs(t0: nat, data: Bars, h: map<nat, Spot>, a: Tick, b: Tick, c: Tick, n: nat)
    requires Structural(t0, data) && Holds(data, h) && FarSpots(t0, h, a, b, c) && t0 in data && n == 1000
    ensures data[t0].HasBlocks() && data[t0].Start() == 0 && data[t0].End() == n - 1 && data[t0].Data() == Some(Folded(a, b))
  {
    hide OwnWindow, Reduce, Structural, Filled, Holds;
    StructuralBarOk(t0, data, t0);
    BarOfSpots(data, h, t0);
    var blocks := data[t0].pending.blocks;
    var expected := Filled(map[0 := a], 1, n, b);
    assert blocks.Keys == expected.Keys;
    assert blocks == expected;
    FoldOfTwo(a, b, blocks, n);
    assert 0 in blocks.Keys && n - 1 in blocks.Keys;
  }

  /** A series without finalized bars that holds those blocks. */
  lemma HoldsFar(t0: nat, data: Bars, h: map<nat, Spot>, a: Tick, b: Tick, c: Tick)
    requires Structural(t0, data) && Holds(data, h) && FarSpots(t0, h, a, b, c)
    ensures TwoThenFar(t0, data, a, b, c)
  {
    hide OwnWindow, Reduce, Structural, Holds;
    var w := t0 + 1800;
    FarKeys(t0, data, h, a, b, c);
    FirstBarIs(t0, data, h, a, b, c, 1000);
    BarOfSpots(data, h, w);
    var blocks := data[w].pending.blocks;
    assert 1000 in blocks.Keys;
    assert forall x :: x in blocks ==> x == 1000;
  }

  /** Those bars with the first one finalized. */
  ghost predicate FirstIsFinal(t0: nat, s: Series, whole: Tick) {
    var w := t0 + 1800;
    && s.data.Keys == {t0, w}
    && s.data[t0].FinalizedBar? && s.data[t0].finalized.startBlock == 0 && s.data[t0].finalized.endBlock == 999 && s.data[t0].finalized.data == whole
    && s.data[w].PendingBar? && s.data[w].HasBlocks() && s.data[w].Start() == 1000
  }

  lemma FinalizedFar(t0: nat, u: Bars, a: Tick, b: Tick, c: Tick)
    requires TwoThenFar(t0, u, a, b, c) && forall k :: k in u ==> u[k].PendingBar? && AsFinalized(u[k].pending).Some?
    ensures FirstIsFinal(t0, Series(FinalizedUpTo(u, Some(t0)), Some(t0)), Folded(a, b))
  {
  }

  lemma CutFar(t0: nat, s: Series, whole: Tick, n: nat)
    requires FirstIsFinal(t0, s, whole) && n == 1000
    ensures !FinalizedReaches(s.data, n) && !CutAt(s.data, n, t0)
    ensures (forall k :: k in s.data ==> s.data[k].HasBlocks()) && Truncated(s.data, n).Keys == {t0}
  {
  }

  /** Rolling block 1000 back leaves the finalized bar alone. */
  lemma RolledBackFar(config: Config, t0: nat, s: Series, whole: Tick, n: nat)
    requires Invariant(t0, s) && FirstIsFinal(t0, s, whole) && n == 1000
    ensures Apply(config, t0, s, Prune(n)).Some?
    ensures var r := Apply(config, t0, s, Prune(n)).value;
            r.data.Keys == {t0} && r.data[t0] == s.data[t0] && Invariant(t0, r)
  {
    hide Structural, PruneToReorgedBlockNumber, FinalizedReaches, CutAt, Truncated, FirstIsFinal;
    CutFar(t0, s, whole, n);
    PruneIsExact(config, t0, s, n);
  }

  lemma {:induction false} SeenFar(config: Config, t0: nat, first: Sighting, second: Sighting, third: Sighting)
    requires Clock(t0) && Aligned(t0) && config.retentionCount.None?
    requires first.block == 0 && second.block == 1 && third.block == 1000
    requires first.finalized == None && second.finalized == None && third.finalized == Some(t0)
    ensures var r := SeeAll(config, t0, [first, second, third]);
            r.Some? && Invariant(t0, r.value) && FirstIsFinal(t0, r.value, Folded(first.tick, second.tick))
  {
    hide OwnWindow, SeeAll, ObserveAll, History, Surviving, FrontierOk, Structural, Holds, FinalizedUpTo, FirstIsFinal, TwoThenFar, FarSpots;
    var os := [first, second, third];
    var obs := [Observation(0, first.tick), Observation(1, second.tick), Observation(1000, third.tick)];
    assert Observed(os) == obs;
    FarWindows(t0, 1000);
    ForwardRunNeverFails(config, t0, os);
    FrontierIsInvariant(t0, SeeAll(config, t0, os).value);
    FinalizedReorgsLeaveNoTrace(config, t0, os);
    HighestOfThree(first, second, third);
    ForwardAllSurvive(obs);
    RunHoldsSurviving(config, t0, obs);
    FarHistory(t0, obs[0], obs[1], obs[2]);
    var u := ObserveAll(config, t0, obs).value;
    HoldsFar(t0, u.data, History(t0, obs), first.tick, second.tick, third.tick);
    FinalizedFar(t0, u.data, first.tick, second.tick, third.tick);
  }

  lemma HighestOfThree(first: Sighting, second: Sighting, third: Sighting)
    requires first.finalized == None && second.finalized == None
    ensures Highest([first, second, third]) == third.finalized
  {
    assert [first, second, third][..2] == [first, second] && [first, second][..1] == [first] && [first][..0] == [];
    assert Highest([first][..0]) == None;
    assert Highest([first]) == None;
    assert Highest([first, second]) == None;
  }

  /**
    Blocks 0 and 1, then block 1000, which finalizes the first window; block 1000 is rolled back, and
    the pair is next seen in block 1500. Blocks 1000 to 1499 then open a later window with the whole
    first bar, high and low of block 0 included, though block 1 was the latest one seen.
   */
  lemma LateInsertPadsWithWholeBar(config: Config, t0: nat, first: Sighting, second: Sighting, third: Sighting, tick: Tick)
    requires Clock(t0) && Aligned(t0) && config.retentionCount.None?
    requires first.block == 0 && second.block == 1 && third.block == 1000
    requires first.finalized == None && second.finalized == None && third.finalized == Some(t0)
    ensures var seen := SeeAll(config, t0, [first, second, third]);
            && seen.Some?
            && var back := Apply(config, t0, seen.value, Prune(1000));
               && back.Some?
               && var r := Apply(config, t0, back.value, Insert(1500, tick, None));
                  && r.Some?
                  && t0 + 1800 in r.value.data
                  && RepeatsOver(r.value.data[t0 + 1800], 999, 1500, Folded(first.tick, second.tick))
    ensures Folded(first.tick, second.tick) == second.tick <==>
              && first.tick.open == second.tick.open && first.tick.wethVolume == second.tick.wethVolume
              && first.tick.high <= second.tick.high && second.tick.low <= first.tick.low
  {
    hide OwnWindow, SeeAll, Structural, PruneToReorgedBlockNumber, InsertData, Apply, RepeatsOver;
    SeenFar(config, t0, first, second, third);
    var s := SeeAll(config, t0, [first, second, third]).value;
    RolledBackFar(config, t0, s, Folded(first.tick, second.tick), 1000);
    var back := Apply(config, t0, s, Prune(1000)).value;
    FarWindows(t0, 999);
    assert MaxKey(back.data) == t0;
    PadsWithWholeBar(config, t0, back, 1500, tick);
  }
}
