/** Runs in which retention shows: after a rollback past the bars kept, and with one bar fewer than is enough. */
module RetentionLimits {
  import opened Wrappers
  import opened OrderedMaps
  import opened TickData
  import opened TimePriceBar
  import opened FixedPoint
  import opened ResolutionTimestamp
  import opened Indicators
  import opened BarSeries
  import opened SeriesInvariants
  import opened InsertOutcome
  import opened ReorgPrune
  import opened CachedIndicators
  import opened SeriesRuns
  import opened Retention
  import opened IndicatorBounds
  import opened RollbackRetention

  // ---- a run that gets there --------------------------------------------------------------

  /** One block per window: the block each window begins with, from window 0 to window `m`. */
  function Stair(ticks: nat -> Tick, m: nat): (r: seq<Op>)
    ensures |r| == m + 1 && forall i :: 0 <= i < |r| ==> r[i] == Insert(150 * i, ticks(i), None)
  {
    if m == 0 then [Insert(0, ticks(0), None)] else Stair(ticks, m - 1) + [Insert(150 * m, ticks(m), None)]
  }

  /** Window `i` of the stair. */
  function Step(t0: nat, i: nat): nat {
    t0 + 300 * i
  }

  /** The first `m + 1` windows. */
  function Windows(t0: nat, m: nat): (r: set<nat>)
    ensures forall k :: k in r ==> t0 <= k <= Step(t0, m)
    ensures |r| == m + 1
  {
    if m == 0 then {t0} else Windows(t0, m - 1) + {Step(t0, m)}
  }

  lemma {:induction false} WindowsHas(t0: nat, m: nat, i: nat)
    requires i <= m
    ensures Step(t0, i) in Windows(t0, m)
    decreases m
  {
    if i < m {
      WindowsHas(t0, m - 1, i);
    }
  }

  lemma {:induction false} WindowsOnly(t0: nat, m: nat, k: nat)
    requires k in Windows(t0, m)
    ensures exists i: nat :: i <= m && k == Step(t0, i)
    decreases m
  {
    if k == Step(t0, m) {
    } else {
      WindowsOnly(t0, m - 1, k);
    }
  }

  /** A window of the stair: it begins with its block, and holds its tick throughout. */
  ghost predicate Stepped(t0: nat, ticks: nat -> Tick, data: Bars, i: nat) {
    SteppedBar(data, Step(t0, i), i, ticks(i))
  }

  ghost predicate SteppedBar(data: Bars, k: nat, i: nat, tick: Tick) {
    && k in data && data[k].PendingBar? && data[k].HasBlocks()
    && data[k].Start() == 150 * i
    && forall x :: x in data[k].pending.blocks ==> data[k].pending.blocks[x] == tick
  }

  /** And it ends right before the next one's. */
  ghost predicate Ended(t0: nat, data: Bars, i: nat) {
    Step(t0, i) in data && data[Step(t0, i)].HasBlocks() && data[Step(t0, i)].End() == 150 * i + 149
  }

  ghost predicate StairBars(t0: nat, ticks: nat -> Tick, data: Bars, m: nat) {
    && data.Keys == Windows(t0, m)
    && (forall i: nat :: i <= m ==> Stepped(t0, ticks, data, i))
    && (forall i: nat :: i < m ==> Ended(t0, data, i))
    && Stepped(t0, ticks, data, m) && data[Step(t0, m)].End() == 150 * m
  }

  ghost predicate OnStair(t0: nat, ticks: nat -> Tick, s: Series, m: nat) {
    Invariant(t0, s) && s.lastFinalized == None && StairBars(t0, ticks, s.data, m)
  }

  lemma StairWindow(t0: nat, i: nat)
    requires Aligned(t0)
    ensures OwnWindow(t0, 150 * i) == Step(t0, i)
  {
    assert BlockTime(t0, 150 * i) == Step(t0, i);
    assert (Step(t0, i)) % 300 == 0;
  }

  lemma StairTop(t0: nat, ticks: nat -> Tick, s: Series, m: nat)
    requires OnStair(t0, ticks, s, m)
    ensures s.data.Keys != {} && MaxKey(s.data) == Step(t0, m)
    ensures s.data[Step(t0, m)].PendingBar? && s.data[Step(t0, m)].HasBlocks() && s.data[Step(t0, m)].End() == 150 * m
    ensures AllBelow(s.data, 150 * (m + 1))
  {
    hide Structural, Bar.HasBlocks, Bar.Start, Bar.End;
    assert Stepped(t0, ticks, s.data, m);
    StructuralHasBlocks(t0, s.data);
    assert MaxKey(s.data) == Step(t0, m);
    forall k | k in s.data ensures s.data[k].End() < 150 * (m + 1) {
      LatestBarIsLatest(t0, s.data, k);
    }
  }

  /** Before the next block of the stair its predecessor's tick fills up the window. */
  lemma StairPads(t0: nat, ticks: nat -> Tick, s: Series, m: nat)
    requires Clock(t0) && Aligned(t0) && OnStair(t0, ticks, s, m)
    ensures var n := 150 * (m + 1);
            && PadFits(s.data, n, BlockTime(t0, n))
            && var r := Pad(s.data, n, BlockTime(t0, n));
               r.updated == [Step(t0, m)] && ReadyFor(t0, r.data, n)
               && CanAppend(t0, s.data, Step(t0, m), 150 * m + 1, n)
               && r.data == Upsert(s.data, Step(t0, m), 150 * m + 1, n, ticks(m))
  {
    hide OwnWindow, Structural, Pad, Upsert, CanAppend, AllBelow, ReadyFor;
    var n := 150 * (m + 1);
    StairTop(t0, ticks, s, m);
    StairWindow(t0, m);
    assert Stepped(t0, ticks, s.data, m);
    PadShape(t0, s.data, n);
    PadStep(t0, s.data, n);
  }

  /** The bars of one more step, given those the padding left. */
  lemma NextStairBars(t0: nat, ticks: nat -> Tick, data: Bars, padded: Bars, placed: Bars, m: nat)
    requires StairBars(t0, ticks, data, m)
    requires padded.Keys == data.Keys + {Step(t0, m)} && Stepped(t0, ticks, padded, m) && Ended(t0, padded, m)
    requires forall j :: j in data && j != Step(t0, m) ==> padded[j] == data[j]
    requires placed.Keys == padded.Keys + {Step(t0, m + 1)} && Stepped(t0, ticks, placed, m + 1)
    requires forall j :: j in padded && j != Step(t0, m + 1) ==> placed[j] == padded[j]
    requires placed[Step(t0, m + 1)].End() == 150 * (m + 1)
    ensures StairBars(t0, ticks, placed, m + 1)
  {
    hide Stepped, Ended, Windows, Bar.HasBlocks, Bar.Start, Bar.End;
    NewWindow(t0, data, padded, m);
    forall i: nat | i <= m + 1 ensures Stepped(t0, ticks, placed, i) {
      if i <= m {
        WindowsHas(t0, m, i);
        assert Stepped(t0, ticks, data, i);
        SteppedCarries(t0, ticks, data, padded, i, i == m);
        SteppedCarries(t0, ticks, padded, placed, i, false);
      }
    }
    forall i: nat | i <= m ensures Ended(t0, placed, i) {
      WindowsHas(t0, m, i);
      if i < m {
        assert Ended(t0, data, i);
        EndedCarries(t0, data, padded, i);
      }
      EndedCarries(t0, padded, placed, i);
    }
  }

  lemma EndedCarries(t0: nat, a: Bars, b: Bars, i: nat)
    requires Ended(t0, a, i) && Step(t0, i) in b && b[Step(t0, i)] == a[Step(t0, i)]
    ensures Ended(t0, b, i)
  {
    hide Step;
  }

  /** The padding ends the latest window, and changes no other. */
  lemma StairPadded(t0: nat, ticks: nat -> Tick, s: Series, m: nat) returns (padded: Bars)
    requires Clock(t0) && Aligned(t0) && OnStair(t0, ticks, s, m)
    ensures PadFits(s.data, 150 * (m + 1), BlockTime(t0, 150 * (m + 1)))
    ensures padded == Pad(s.data, 150 * (m + 1), BlockTime(t0, 150 * (m + 1))).data
    ensures ReadyFor(t0, padded, 150 * (m + 1)) && padded.Keys == s.data.Keys + {Step(t0, m)}
    ensures Stepped(t0, ticks, padded, m) && Ended(t0, padded, m)
    ensures forall j :: j in s.data && j != Step(t0, m) ==> padded[j] == s.data[j]
  {
    hide OwnWindow, Structural, Pad, PadFits, AllBelow, ReadyFor, Reduce, Stepped, Ended, CanAppend, Upsert, BlockTime, Step;
    hide Bar.HasBlocks, Bar.Start, Bar.End, Windows;
    StairPads(t0, ticks, s, m);
    assert Stepped(t0, ticks, s.data, m);
    LatestMayAppend(t0, s.data, Step(t0, m), 150 * m + 1, 150 * (m + 1));
    AppendStepped(t0, ticks, s.data, 150 * m + 1, 150 * (m + 1), m);
    UpsertElsewhere(s.data, Step(t0, m), 150 * m + 1, 150 * (m + 1), ticks(m));
    padded := Pad(s.data, 150 * (m + 1), BlockTime(t0, 150 * (m + 1))).data;
  }

  lemma LatestMayAppend(t0: nat, data: Bars, k: nat, lo: nat, hi: nat)
    requires CanAppend(t0, data, k, lo, hi)
    ensures k in data ==> data[k].PendingBar?
  {
    hide OwnWindow;
  }

  /** The new windows' bars, before indicators. */
  lemma StairPlaces(t0: nat, ticks: nat -> Tick, s: Series, m: nat) returns (placed: Bars)
    requires Clock(t0) && Aligned(t0) && OnStair(t0, ticks, s, m)
    ensures PadFits(s.data, 150 * (m + 1), BlockTime(t0, 150 * (m + 1)))
    ensures Place(Pad(s.data, 150 * (m + 1), BlockTime(t0, 150 * (m + 1))).data, 150 * (m + 1), ticks(m + 1), OwnWindow(t0, 150 * (m + 1))) == Ok(placed)
    ensures StairBars(t0, ticks, placed, m + 1)
  {
    hide OwnWindow, Structural, Pad, PadFits, Place, AllBelow, ReadyFor, Reduce, Stepped, Ended, CanAppend, Upsert, BlockTime;
    hide Bar.HasBlocks, Bar.Start, Bar.End, Windows, StairBars;
    var padded := StairPadded(t0, ticks, s, m);
    StairHasWindows(t0, ticks, s.data, m);
    placed := StairPlaced(t0, ticks, padded, m, s.data);
    NextStairBars(t0, ticks, s.data, padded, placed, m);
  }

  lemma StairHasWindows(t0: nat, ticks: nat -> Tick, data: Bars, m: nat)
    requires StairBars(t0, ticks, data, m)
    ensures data.Keys == Windows(t0, m)
  {
  }

  lemma StairPlaced(t0: nat, ticks: nat -> Tick, padded: Bars, m: nat, data: Bars) returns (placed: Bars)
    requires Clock(t0) && Aligned(t0) && ReadyFor(t0, padded, 150 * (m + 1))
    requires data.Keys == Windows(t0, m) && padded.Keys == data.Keys + {Step(t0, m)}
    ensures Place(padded, 150 * (m + 1), ticks(m + 1), OwnWindow(t0, 150 * (m + 1))) == Ok(placed)
    ensures placed.Keys == padded.Keys + {Step(t0, m + 1)} && Stepped(t0, ticks, placed, m + 1)
    ensures forall j :: j in padded && j != Step(t0, m + 1) ==> placed[j] == padded[j]
    ensures placed[Step(t0, m + 1)].HasBlocks() && placed[Step(t0, m + 1)].End() == 150 * (m + 1)
  {
    hide OwnWindow, Structural, Place, ReadyFor, Reduce, Stepped, Ended, CanAppend, Upsert, BlockTime;
    hide Bar.HasBlocks, Bar.Start, Bar.End, Windows, SteppedBar;
    var n := 150 * (m + 1);
    StairWindow(t0, m + 1);
    PlaceStep(t0, padded, n, ticks(m + 1));
    NewWindow(t0, data, padded, m);
    ReadyIsStructural(t0, padded, n);
    placed := Place(padded, n, ticks(m + 1), OwnWindow(t0, n)).value;
    UpsertElsewhere(padded, Step(t0, m + 1), n, n + 1, ticks(m + 1));
    NewStepped(t0, ticks, padded, n, m + 1);
    SteppedHasBlocks(t0, ticks, placed, m + 1);
  }

  lemma SteppedHasBlocks(t0: nat, ticks: nat -> Tick, data: Bars, i: nat)
    requires Stepped(t0, ticks, data, i)
    ensures Step(t0, i) in data && data[Step(t0, i)].HasBlocks()
  {
  }

  lemma ReadyIsStructural(t0: nat, data: Bars, n: nat)
    requires ReadyFor(t0, data, n)
    ensures Structural(t0, data)
  {
  }

  lemma SteppedCarries(t0: nat, ticks: nat -> Tick, a: Bars, b: Bars, i: nat, known: bool)
    requires Stepped(t0, ticks, a, i)
    requires if known then Stepped(t0, ticks, b, i) else Step(t0, i) in a && Step(t0, i) in b && b[Step(t0, i)] == a[Step(t0, i)]
    ensures Stepped(t0, ticks, b, i)
  {
    hide Step;
  }

  lemma UpsertElsewhere(data: Bars, k: nat, lo: nat, hi: nat, tick: Tick)
    requires k in data ==> data[k].PendingBar?
    ensures var r := Upsert(data, k, lo, hi, tick);
            r.Keys == data.Keys + {k} && forall j :: j in data && j != k ==> r[j] == data[j]
  {
  }

  lemma NewWindow(t0: nat, data: Bars, padded: Bars, m: nat)
    requires data.Keys == Windows(t0, m) && padded.Keys == data.Keys + {Step(t0, m)}
    ensures Step(t0, m + 1) !in padded && padded.Keys == Windows(t0, m)
    ensures padded.Keys + {Step(t0, m + 1)} == Windows(t0, m + 1)
  {
    WindowsHas(t0, m, m);
  }

  lemma AppendStepped(t0: nat, ticks: nat -> Tick, data: Bars, lo: nat, hi: nat, i: nat)
    requires Structural(t0, data) && CanAppend(t0, data, Step(t0, i), lo, hi) && Stepped(t0, ticks, data, i)
    ensures Stepped(t0, ticks, Upsert(data, Step(t0, i), lo, hi, ticks(i)), i)
    ensures hi == 150 * (i + 1) ==> Ended(t0, Upsert(data, Step(t0, i), lo, hi, ticks(i)), i)
  {
    hide OwnWindow, Structural, Reduce, Step;
    UpsertBar(t0, data, Step(t0, i), lo, hi, ticks(i));
  }

  lemma NewStepped(t0: nat, ticks: nat -> Tick, data: Bars, n: nat, i: nat)
    requires Structural(t0, data) && CanAppend(t0, data, Step(t0, i), n, n + 1) && Step(t0, i) !in data && n == 150 * i
    ensures var r := Upsert(data, Step(t0, i), n, n + 1, ticks(i));
            Stepped(t0, ticks, r, i) && r[Step(t0, i)].HasBlocks() && r[Step(t0, i)].End() == n
  {
    hide OwnWindow, Structural, Reduce, Step;
    UpsertBar(t0, data, Step(t0, i), n, n + 1, ticks(i));
  }

  // ---- the run ----------------------------------------------------------------------------

  /** A series takes the next step, and finalizes nothing. */
  lemma StairStep(config: Config, t0: nat, ticks: nat -> Tick, s: Series, m: nat) returns (r: Series)
    requires Clock(t0) && Aligned(t0) && config.retentionCount.None? && OnStair(t0, ticks, s, m)
    ensures Apply(config, t0, s, Insert(150 * (m + 1), ticks(m + 1), None)) == Some(r)
    ensures OnStair(t0, ticks, r, m + 1)
  {
    hide OwnWindow, Structural, Pad, PadFits, Place, UpdateAll, InsertData, BlockTime, StairBars, InsertFails, AllBelow;
    var n := 150 * (m + 1);
    StairTop(t0, ticks, s, m);
    var placed := StairPlaces(t0, ticks, s, m);
    InsertKeepsInvariant(config, t0, s, n, ticks(m + 1), None);
    StairNeverFails(config, t0, ticks, s, m);
    InsertUnfolds(config, t0, s, n, ticks(m + 1), None);
    var updated := Pad(s.data, n, BlockTime(t0, n)).updated + [OwnWindow(t0, n)];
    UpdateAllKeeps(config, placed, updated);
    r := InsertData(config, s, n, ticks(m + 1), BlockTime(t0, n), None).series;
    StairIgnoresIndicators(t0, ticks, placed, UpdateAll(config, placed, updated).data, m + 1);
  }

  lemma StairNeverFails(config: Config, t0: nat, ticks: nat -> Tick, s: Series, m: nat)
    requires config.retentionCount.None? && OnStair(t0, ticks, s, m)
    ensures !InsertFails(config, t0, s, 150 * (m + 1))
  {
    hide OwnWindow, Structural;
  }

  lemma StairIgnoresIndicators(t0: nat, ticks: nat -> Tick, a: Bars, b: Bars, m: nat)
    requires StairBars(t0, ticks, a, m) && SameBars(a, b)
    ensures StairBars(t0, ticks, b, m)
  {
    hide Windows, Step;
    forall i: nat | i <= m ensures Stepped(t0, ticks, b, i) {
      assert Stepped(t0, ticks, a, i);
      assert Strip(a[Step(t0, i)]) == Strip(b[Step(t0, i)]);
    }
    forall i: nat | i < m ensures Ended(t0, b, i) {
      assert Ended(t0, a, i);
      SameStrip(a[Step(t0, i)], b[Step(t0, i)]);
    }
    SameStrip(a[Step(t0, m)], b[Step(t0, m)]);
  }

  lemma FirstStair(config: Config, t0: nat, ticks: nat -> Tick) returns (r: Series)
    requires Clock(t0) && Aligned(t0) && config.retentionCount.None?
    ensures Apply(config, t0, EmptySeries, Insert(0, ticks(0), None)) == Some(r)
    ensures OnStair(t0, ticks, r, 0)
  {
    hide OwnWindow, Structural, UpdateAll, InsertData, Pad, Place, Upsert, StairBars, BlockTime, InsertFails, PadsEarlierWindow, PadFits;
    EmptyNeverFails(config, t0);
    InsertKeepsInvariant(config, t0, EmptySeries, 0, ticks(0), None);
    InsertUnfolds(config, t0, EmptySeries, 0, ticks(0), None);
    StairWindow(t0, 0);
    var placed := FirstPlaced(t0, ticks);
    FirstBars(t0, ticks, placed);
    assert [] + [OwnWindow(t0, 0)] == [t0];
    UpdateAllKeeps(config, placed, [t0]);
    r := InsertData(config, EmptySeries, 0, ticks(0), BlockTime(t0, 0), None).series;
    StairIgnoresIndicators(t0, ticks, placed, UpdateAll(config, placed, [t0]).data, 0);
  }

  lemma EmptyNeverFails(config: Config, t0: nat)
    requires config.retentionCount.None?
    ensures Invariant(t0, EmptySeries) && AllBelow(EmptySeries.data, 0) && !InsertFails(config, t0, EmptySeries, 0)
  {
    hide OwnWindow;
  }

  lemma FirstPlaced(t0: nat, ticks: nat -> Tick) returns (placed: Bars)
    ensures PadFits(EmptySeries.data, 0, BlockTime(t0, 0))
    ensures Pad(EmptySeries.data, 0, BlockTime(t0, 0)) == Padding(map[], [])
    ensures placed == Upsert(map[], t0, 0, 1, ticks(0)) && Place(map[], 0, ticks(0), t0) == Ok(placed)
  {
    hide WithBlocks;
    placed := Upsert(map[], t0, 0, 1, ticks(0));
  }

  lemma FirstBars(t0: nat, ticks: nat -> Tick, placed: Bars)
    requires placed == Upsert(map[], t0, 0, 1, ticks(0))
    ensures StairBars(t0, ticks, placed, 0)
  {
    hide SteppedBar, Upsert, Ended;
    FirstBar(t0, ticks(0), placed);
  }

  lemma FirstBar(t0: nat, tick: Tick, placed: Bars)
    requires placed == Upsert(map[], t0, 0, 1, tick)
    ensures placed.Keys == {t0} && SteppedBar(placed, t0, 0, tick) && placed[t0].End() == 0
  {
    hide Reduce;
    var blocks := Filled(map[], 0, 1, tick);
    assert 0 in blocks.Keys;
    assert placed[t0] == PendingBar(WithBlocks(blocks));
    assert forall x :: x in blocks <==> x == 0;
  }

  /** Without retention the stair has every window. */
  lemma {:induction false} StairRuns(config: Config, t0: nat, ticks: nat -> Tick, m: nat) returns (r: Series)
    requires Clock(t0) && Aligned(t0) && config.retentionCount.None?
    ensures Run(config, t0, Stair(ticks, m)) == Some(r)
    ensures OnStair(t0, ticks, r, m)
    decreases m
  {
    hide OnStair, Apply, Run;
    if m == 0 {
      r := FirstStair(config, t0, ticks);
      RunNothing(config, t0);
      RunSnoc(config, t0, [], Insert(0, ticks(0), None));
      assert [] + [Insert(0, ticks(0), None)] == Stair(ticks, m);
    } else {
      var before := StairRuns(config, t0, ticks, m - 1);
      r := StairStep(config, t0, ticks, before, m - 1);
      RunSnoc(config, t0, Stair(ticks, m - 1), Insert(150 * m, ticks(m), None));
    }
  }

  lemma StairHasNoReorgs(ticks: nat -> Tick, m: nat)
    ensures NoReorgs(Stair(ticks, m))
  {
  }

  /** With `retained` windows retained, one more step drops the first window and no other. */
  lemma StairDropsTheFirst(config: Config, t0: nat, ticks: nat -> Tick) returns (b: Series, u: Series)
    requires Clock(t0) && Aligned(t0) && config.retentionCount.Some? && config.retentionCount.value >= ENOUGH
    ensures var ops := Stair(ticks, config.retentionCount.value);
            Run(config, t0, ops) == Some(b) && Run(Unbounded(config), t0, ops) == Some(u)
    ensures OnStair(t0, ticks, u, config.retentionCount.value) && Follows(t0, 1, b, u)
    ensures b.data.Keys == u.data.Keys - {t0}
  {
    hide OnStair, Run, Structural, KeepsEnough, Windows;
    var retained := config.retentionCount.value;
    var ops := Stair(ticks, retained);
    u := StairRuns(Unbounded(config), t0, ticks, retained);
    StairHasNoReorgs(ticks, retained);
    RetentionIsInvisible(config, t0, ops);
    b := Run(config, t0, ops).value;
    NoReorgsKeepsEnough(config, t0, retained, ops);
    RunFollows(config, t0, retained, ops);
    StairKeys(t0, ticks, u, retained);
    PoppedFirst(t0, u.data, retained);
  }

  lemma StairKeys(t0: nat, ticks: nat -> Tick, s: Series, m: nat)
    requires OnStair(t0, ticks, s, m)
    ensures t0 in s.data && |s.data| == m + 1 && forall k :: k in s.data ==> t0 <= k
  {
    hide Structural;
    WindowsHas(t0, m, 0);
    assert |s.data| == |s.data.Keys|;
  }

  lemma PoppedFirst(t0: nat, data: Bars, count: nat)
    requires t0 in data && |data| == count + 1 && count > 0 && forall k :: k in data ==> t0 <= k
    ensures PopTo(data, count).Keys == data.Keys - {t0}
  {
    assert data.Keys != {};
    assert MinKey(data) == t0;
    var rest := data - {t0};
    assert rest.Keys == data.Keys - {t0};
    assert |rest| == |rest.Keys| == count;
    assert PopTo(rest, count) == rest;
  }

  /**
    Retention of any size shows: after one step more than windows are retained, a rollback to block
    150 leaves nothing of the bounded series, and the first window of the unbounded one.
   */
  lemma RollbackToDroppedWindow(config: Config, t0: nat, ticks: nat -> Tick)
    requires Clock(t0) && Aligned(t0) && config.retentionCount.Some? && config.retentionCount.value >= ENOUGH
    ensures var ops := Stair(ticks, config.retentionCount.value) + [Prune(150)];
            && Run(config, t0, ops).Some? && Run(config, t0, ops).value.data == map[]
            && Run(Unbounded(config), t0, ops).Some? && t0 in Run(Unbounded(config), t0, ops).value.data
  {
    hide OnStair, Run, Structural, PruneToReorgedBlockNumber, FinalizedReaches, Follows;
    var retained := config.retentionCount.value;
    var b, u := StairDropsTheFirst(config, t0, ticks);
    StairStarts(t0, ticks, b, u, retained);
    StairUnfinalized(t0, ticks, u, retained, 150);
    RollbackPastRetentionShows(config, t0, 1, b, u, 150, t0);
    RunSnoc(config, t0, Stair(ticks, retained), Prune(150));
    RunSnoc(Unbounded(config), t0, Stair(ticks, retained), Prune(150));
  }

  /** Every window but the first starts at block 150 or later. */
  lemma StairStarts(t0: nat, ticks: nat -> Tick, b: Series, u: Series, m: nat)
    requires OnStair(t0, ticks, u, m) && Follows(t0, 1, b, u) && b.data.Keys == u.data.Keys - {t0}
    ensures t0 in u.data && u.data[t0].HasBlocks() && u.data[t0].Start() == 0
    ensures forall k :: k in b.data ==> b.data[k].HasBlocks() && b.data[k].Start() >= 150
  {
    hide Structural, Bar.HasBlocks, Bar.Start, Bar.End, Windows, Ended;
    assert Stepped(t0, ticks, u.data, 0);
    forall k | k in b.data ensures b.data[k].HasBlocks() && b.data[k].Start() >= 150 {
      LaterStarts(t0, ticks, u, m, k);
      KeptBar(t0, b, u, k);
    }
  }

  lemma LaterStarts(t0: nat, ticks: nat -> Tick, u: Series, m: nat, k: nat)
    requires OnStair(t0, ticks, u, m) && k in u.data && k != t0
    ensures u.data[k].PendingBar? && u.data[k].HasBlocks() && u.data[k].Start() >= 150
  {
    hide Structural, Bar.HasBlocks, Bar.Start, Bar.End, Windows, Ended;
    WindowsOnly(t0, m, k);
    var i: nat :| i <= m && k == Step(t0, i);
    assert Stepped(t0, ticks, u.data, i);
  }

  lemma KeptBar(t0: nat, b: Series, u: Series, k: nat)
    requires Follows(t0, 1, b, u) && k in b.data && k in u.data && u.data[k].PendingBar? && u.data[k].HasBlocks()
    ensures b.data[k].HasBlocks() && b.data[k].Start() == u.data[k].Start()
  {
    hide Structural;
  }

  lemma StairUnfinalized(t0: nat, ticks: nat -> Tick, u: Series, m: nat, n: nat)
    requires OnStair(t0, ticks, u, m)
    ensures !FinalizedReaches(u.data, n)
  {
    hide Structural;
  }

  /** The average cached in the first window is its close. */
  lemma FirstAverage(config: Config, t0: nat, ticks: nat -> Tick, u: Series, m: nat)
    requires OnStair(t0, ticks, u, m) && IndicatorsRight(config, u.data) && config.computeIndicators
    requires Clock(t0)
    ensures t0 in u.data && Average(u.data[t0]) == ticks(0).close
  {
    hide OwnWindow, Structural, Reduce, BollingerBand, Windows;
    assert Stepped(t0, ticks, u.data, 0);
    StructuralBarOk(t0, u.data, t0);
    ReduceIsOhlc(u.data[t0].pending.blocks);
    StairKeys(t0, ticks, u, m);
    assert t0 - OFFSET !in Closes(u.data);
  }

  lemma SecondIsCut(t0: nat, ticks: nat -> Tick, b: Series, u: Series, m: nat)
    requires OnStair(t0, ticks, u, m) && Follows(t0, 1, b, u) && m >= 2 && t0 + 300 in b.data
    ensures CutAt(b.data, 200, t0 + 300) && CloseBefore(b.data[t0 + 300], 200) == ticks(1).close
  {
    hide OwnWindow, Structural, Reduce, Windows;
    assert Stepped(t0, ticks, u.data, 1) && Ended(t0, u.data, 1);
    StructuralBarOk(t0, u.data, t0 + 300);
  }

  /**
    So does one that leaves a bar: a rollback to block 200 cuts the second window, and recomputes its
    average without the first, which shows when the two windows close at different prices.
   */
  lemma RollbackIntoFirstKeptWindow(config: Config, t0: nat, ticks: nat -> Tick)
    requires Clock(t0) && Aligned(t0) && config.retentionCount.Some? && config.retentionCount.value >= ENOUGH
    requires config.computeIndicators && ticks(0).close != ticks(1).close
    ensures var ops := Stair(ticks, config.retentionCount.value);
            && Run(config, t0, ops).Some? && Run(Unbounded(config), t0, ops).Some?
            && !Alike(PruneToReorgedBlockNumber(config, Run(config, t0, ops).value, 200),
                      PruneToReorgedBlockNumber(Unbounded(config), Run(Unbounded(config), t0, ops).value, 200))
  {
    hide OnStair, Run, Structural, PruneToReorgedBlockNumber, FinalizedReaches, Follows, Alike, CutAt, StartedBelow, HasTwenty, IndicatorsRight;
    var retained := config.retentionCount.value;
    var b, u := StairDropsTheFirst(config, t0, ticks);
    EveryRunIsSound(Unbounded(config), t0, Stair(ticks, retained));
    SameRight(config, u.data);
    FirstAverage(config, t0, ticks, u, retained);
    SecondIsKept(t0, ticks, b, u, retained);
    SecondIsCut(t0, ticks, b, u, retained);
    StairUnfinalized(t0, ticks, u, retained, 200);
    RollbackIsInvisibleIff(config, t0, b, u, 200);
    assert !MissesNothing(b.data, u.data, t0 + 300, CloseBefore(b.data[t0 + 300], 200));
  }

  lemma SameRight(config: Config, data: Bars)
    requires IndicatorsRight(Unbounded(config), data)
    ensures IndicatorsRight(config, data)
  {
    hide Batch;
    assert forall k :: Expected(config, data, k) == Expected(Unbounded(config), data, k);
  }

  lemma SecondIsKept(t0: nat, ticks: nat -> Tick, b: Series, u: Series, m: nat)
    requires OnStair(t0, ticks, u, m) && m >= 1 && b.data.Keys == u.data.Keys - {t0}
    ensures t0 + 300 in b.data && t0 !in b.data
  {
    hide Structural, Stepped, Ended, Windows, Bar.HasBlocks, Bar.End;
    WindowsHas(t0, m, 1);
  }

  // ---- twenty are not enough --------------------------------------------------------------

  /** As long as the unbounded series fits, an insert drops nothing. */
  lemma InsertFits(config: Config, t0: nat, s: Series, n: nat, tick: Tick)
    requires config.retentionCount.Some?
    requires Apply(Unbounded(config), t0, s, Insert(n, tick, None)).Some?
    requires |Apply(Unbounded(config), t0, s, Insert(n, tick, None)).value.data| <= config.retentionCount.value
    ensures Apply(config, t0, s, Insert(n, tick, None)) == Apply(Unbounded(config), t0, s, Insert(n, tick, None))
  {
    hide OwnWindow, Pad, Place, UpdateAll, InsertData, PadFits, AllBelow, BlockTime;
    InsertUnfolds(config, t0, s, n, tick, None);
    InsertUnfolds(Unbounded(config), t0, s, n, tick, None);
    var padded := Pad(s.data, n, BlockTime(t0, n));
    var placed := Place(padded.data, n, tick, OwnWindow(t0, n));
    var updated := padded.updated + [OwnWindow(t0, n)];
    UpdateAllUnbounded(config, placed.value, updated);
    UpdateAllKeeps(config, placed.value, updated);
    SameSizes(UpdateAll(config, placed.value, updated).data, placed.value);
  }

  lemma {:induction false} StairFits(config: Config, t0: nat, ticks: nat -> Tick, m: nat)
    requires Clock(t0) && Aligned(t0) && config.retentionCount.Some? && m < config.retentionCount.value
    ensures Run(config, t0, Stair(ticks, m)) == Run(Unbounded(config), t0, Stair(ticks, m))
    decreases m
  {
    hide OnStair, Apply, Run;
    var u := StairRuns(Unbounded(config), t0, ticks, m);
    StairKeys(t0, ticks, u, m);
    RunNothing(config, t0);
    RunNothing(Unbounded(config), t0);
    if m == 0 {
      var op := Insert(0, ticks(0), None);
      RunSnoc(config, t0, [], op);
      RunSnoc(Unbounded(config), t0, [], op);
      assert [] + [op] == Stair(ticks, m);
      InsertFits(config, t0, EmptySeries, 0, ticks(0));
    } else {
      StairFits(config, t0, ticks, m - 1);
      var before := StairRuns(Unbounded(config), t0, ticks, m - 1);
      var op := Insert(150 * m, ticks(m), None);
      RunSnoc(config, t0, Stair(ticks, m - 1), op);
      RunSnoc(Unbounded(config), t0, Stair(ticks, m - 1), op);
      InsertFits(config, t0, before, 150 * m, ticks(m));
    }
  }

  /** The last step with twenty bars retained recomputes the window before the last without the first. */
  lemma LastStepOfTwenty(config: Config, t0: nat, ticks: nat -> Tick, s: Series, m: nat) returns (b: Series)
    requires Clock(t0) && Aligned(t0) && m == 19 && config.retentionCount == Some(m + 1) && config.computeIndicators
    requires OnStair(t0, ticks, s, m)
    ensures Apply(config, t0, s, Insert(150 * (m + 1), ticks(m + 1), None)) == Some(b)
    ensures var k := Step(t0, m); k in b.data && b.data[k].Indicators().Some? && b.data[k].Indicators().value.bollingerBands == None
  {
    hide OwnWindow, Structural, Pad, PadFits, Place, UpdateAll, InsertData, BlockTime, InsertFails, StairBars, AllBelow, Finalize;
    hide PopTo, OnStair, Step, ReadyFor, CanAppend, AllAligned, Compute;
    var n := 150 * (m + 1);
    StairTop(t0, ticks, s, m);
    StairIsInvariant(t0, ticks, s, m);
    StairWindow(t0, m + 1);
    StairPads(t0, ticks, s, m);
    var placed := StairPlaces(t0, ticks, s, m);
    InsertUnfolds(config, t0, s, n, ticks(m + 1), None);
    var kept := PopTo(placed, m + 1);
    PlacedKeys(t0, ticks, placed, m + 1);
    PoppedFirst(t0, placed, m + 1);
    KeptOfTwenty(t0, ticks, placed, kept, m);
    StructuralKept(config, t0, s, n, ticks(m + 1), placed, kept, m + 1);
    var p, w := Step(t0, m), Step(t0, m + 1);
    TwoUpdates(config, kept, p, w);
    assert [p] + [w] == [p, w];
    NoBandsWithout(config.rounding, t0, kept, m);
    b := InsertData(config, s, n, ticks(m + 1), BlockTime(t0, n), None).series;
    FinalizeNone(s.(data := UpdateAll(config, kept, [p, w]).data));
  }

  lemma StairIsInvariant(t0: nat, ticks: nat -> Tick, s: Series, m: nat)
    requires OnStair(t0, ticks, s, m)
    ensures Invariant(t0, s)
  {
    hide Structural;
  }

  lemma FinalizeNone(s: Series)
    ensures Finalize(s, None) == Outcome(s, None)
  {
  }

  lemma PlacedKeys(t0: nat, ticks: nat -> Tick, placed: Bars, m: nat)
    requires StairBars(t0, ticks, placed, m)
    ensures t0 in placed && |placed| == m + 1 && forall k :: k in placed ==> t0 <= k
  {
    WindowsHas(t0, m, 0);
    assert |placed| == |placed.Keys|;
  }

  lemma KeptOfTwenty(t0: nat, ticks: nat -> Tick, placed: Bars, kept: Bars, m: nat)
    requires StairBars(t0, ticks, placed, m + 1) && kept == PopTo(placed, m + 1) && kept.Keys == placed.Keys - {t0} && m > 0
    ensures var p, w := Step(t0, m), Step(t0, m + 1);
            p != w && p in kept && kept[p].PendingBar? && w in kept && kept[w].PendingBar?
  {
    hide PopTo, Windows;
    WindowsHas(t0, m + 1, m);
    WindowsHas(t0, m + 1, m + 1);
    PopToKeepsLatest(placed, m + 1);
    assert Stepped(t0, ticks, placed, m) && Stepped(t0, ticks, placed, m + 1);
  }

  lemma StructuralKept(config: Config, t0: nat, s: Series, n: nat, tick: Tick, placed: Bars, kept: Bars, count: nat)
    requires Clock(t0) && Invariant(t0, s) && AllBelow(s.data, n) && kept == PopTo(placed, count)
    requires PadFits(s.data, n, BlockTime(t0, n))
    requires Place(Pad(s.data, n, BlockTime(t0, n)).data, n, tick, OwnWindow(t0, n)) == Ok(placed)
    ensures AllAligned(kept)
  {
    hide OwnWindow, Structural, Pad, Place, PopTo;
    PadThenPlace(t0, s, n, tick);
    PopToKeepsLatest(placed, count);
    SubBarsStructural(t0, kept, placed);
    StructuralAligned(t0, kept);
  }

  lemma TwoUpdates(config: Config, data: Bars, p: nat, w: nat)
    requires config.computeIndicators && p != w && p in data && data[p].PendingBar? && w in data && data[w].PendingBar?
    ensures var r := UpdateAll(config, data, [p, w]);
            r.error.None? && p in r.data && r.data[p].Indicators() == Some(Compute(config.rounding, p, data))
  {
    hide Compute;
    var first := UpdateIndicators(config, data, p);
    assert [p, w][1..] == [w];
    UpdateAllOfOne(config, first.data, w);
  }

  lemma NoBandsWithout(rounding: Rounding, t0: nat, data: Bars, m: nat)
    requires AllAligned(data) && Aligned(t0) && m == 19 && t0 !in data
    ensures Compute(rounding, Step(t0, m), data).bollingerBands == None
  {
    hide BollingerBand, Ema;
    ClosesKeys(data);
    var k := Step(t0, m);
    BandsBounds(rounding, k, Closes(data));
    assert k - OFFSET * m == t0;
  }

  /**
    Twenty bars are not enough: one block in each of twenty-one windows, and the last but one has
    bands without retention and none with twenty bars retained.
   */
  lemma TwentyAreNotEnough(config: Config, t0: nat, ticks: nat -> Tick, m: nat)
    requires Clock(t0) && Aligned(t0) && m == 19 && config.retentionCount == Some(m + 1) && config.computeIndicators
    ensures var ops := Stair(ticks, m + 1);
            var k := Step(t0, m);
            && Run(config, t0, ops).Some? && Run(Unbounded(config), t0, ops).Some?
            && var b, u := Run(config, t0, ops).value.data, Run(Unbounded(config), t0, ops).value.data;
               && k in b && b[k].Indicators().Some? && b[k].Indicators().value.bollingerBands.None?
               && k in u && u[k].Indicators().Some? && u[k].Indicators().value.bollingerBands.Some?
  {
    hide OnStair, Apply, Run, Meaningful, Step;
    StairFits(config, t0, ticks, m);
    var s := StairRuns(Unbounded(config), t0, ticks, m);
    var b := LastStepOfTwenty(config, t0, ticks, s, m);
    RunSnoc(config, t0, Stair(ticks, m), Insert(150 * (m + 1), ticks(m + 1), None));
    var u := StairRuns(Unbounded(config), t0, ticks, m + 1);
    EveryCachedValueIsMeaningful(Unbounded(config), t0, Stair(ticks, m + 1));
    StairHasTwenty(t0, ticks, u, config.rounding, m);
  }

  lemma StairHasTwenty(t0: nat, ticks: nat -> Tick, u: Series, rounding: Rounding, m: nat)
    requires OnStair(t0, ticks, u, m + 1) && m == 19
    requires forall k :: k in u.data ==> u.data[k].Indicators().Some? && Meaningful(rounding, Closes(u.data), k, u.data[k].Indicators().value)
    ensures var k := Step(t0, m); k in u.data && u.data[k].Indicators().value.bollingerBands.Some?
  {
    hide Structural, Windows, Meaningful;
    var k := Step(t0, m);
    WindowsHas(t0, m + 1, m);
    StructuralAligned(t0, u.data);
    ClosesKeys(u.data);
    forall i: nat | i < BB_PERIOD ensures k - OFFSET * i in Closes(u.data) {
      WindowsHas(t0, m + 1, m - i);
      assert t0 + 300 * (m - i) == k - OFFSET * i;
    }
    BandsAreThere(rounding, Closes(u.data), k, u.data[k].Indicators().value);
  }

  lemma BandsAreThere(rounding: Rounding, closes: map<nat, nat>, k: nat, i: TimePriceBar.Indicators)
    requires Meaningful(rounding, closes, k, i) && TwentyWindows(closes, k)
    ensures i.bollingerBands.Some?
  {
  }
}
