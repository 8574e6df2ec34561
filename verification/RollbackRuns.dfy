/**
  Whole runs of a pair that may miss the blocks it is rolled back to: exactly when such a run is
  that of the surviving observations.
 */
module RollbackRuns {
  import opened Wrappers
  import opened OrderedMaps
  import opened TickData
  import opened Indicators
  import opened BarSeries
  import opened SeriesInvariants
  import opened ReorgPrune
  import opened CachedIndicators
  import opened SeriesRuns
  import opened ReorgErasure

  /**
    A surviving observation, and the blocks rollbacks went back to after it while nothing was seen
    since: up to each of them, the padding after the observation is left from a run rolled back.
   */
  datatype Mark = Mark(seen: Observation, cuts: seq<nat>)

  type Trail = seq<Mark>

  /** A rollback to `n` of padding that goes on to `n` at least. */
  function Trim(cuts: seq<nat>, n: nat): seq<nat> {
    if cuts == [] || cuts[|cuts| - 1] < n then cuts + [n] else Trim(cuts[..|cuts| - 1], n)
  }

  /** A rollback to `n` of a trail that is padded up to `n` at least. */
  function CutTo(trail: Trail, n: nat): Trail {
    if trail == [] then []
    else
      var front, m := trail[..|trail| - 1], trail[|trail| - 1];
      if m.seen.block >= n then CutTo(front, n) else front + [Mark(m.seen, Trim(m.cuts, n))]
  }

  /** The latest block a trail holds. */
  function Latest(trail: Trail): int {
    if trail == [] then -1
    else
      var m := trail[|trail| - 1];
      LastOf(m.seen.block, m.cuts)
  }

  function After(trail: Trail, op: Op): Trail {
    match op
    case Insert(n, tick, _) => trail + [Mark(Observation(n, tick), [])]
    case Prune(n) => if n > Latest(trail) then trail else CutTo(trail, n)
  }

  /** What a run leaves of its observations. */
  function TrailOf(ops: seq<Op>): Trail {
    if ops == [] then [] else After(TrailOf(ops[..|ops| - 1]), ops[|ops| - 1])
  }

  function Seen(trail: Trail): (r: seq<Observation>)
    ensures |r| == |trail| && forall i :: 0 <= i < |r| ==> r[i] == trail[i].seen
  {
    seq(|trail|, i requires 0 <= i < |trail| => trail[i].seen)
  }

  // ---- the blocks a trail holds -----------------------------------------------------------

  /** Padding up to each cut in turn, each time into the window of the block before. */
  ghost function Pads(t0: nat, h: map<nat, Spot>, cuts: seq<nat>): map<nat, Spot> {
    if cuts == [] then h else PaddedSpots(t0, Pads(t0, h, cuts[..|cuts| - 1]), cuts[|cuts| - 1])
  }

  ghost function Blocks(t0: nat, trail: Trail): map<nat, Spot> {
    if trail == [] then map[]
    else
      var m := trail[|trail| - 1];
      Pads(t0, Extended(t0, Blocks(t0, trail[..|trail| - 1]), m.seen.block, m.seen.tick), m.cuts)
  }

  ghost predicate AscendingFrom(block: nat, cuts: seq<nat>) {
    && (forall i :: 0 <= i < |cuts| ==> block < cuts[i])
    && forall i, j :: 0 <= i < j < |cuts| ==> cuts[i] < cuts[j]
  }

  /** Observations ascend, and the cuts after each ascend up to the next. */
  ghost predicate WellFormed(trail: Trail) {
    && (forall i :: 0 <= i < |trail| ==> AscendingFrom(trail[i].seen.block, trail[i].cuts))
    && (forall i, c :: 0 <= i < |trail| - 1 && c in trail[i].cuts ==> c <= trail[i + 1].seen.block)
    && forall i :: 0 <= i < |trail| - 1 ==> trail[i].seen.block < trail[i + 1].seen.block
  }

  /** The latest block held, and its tick. */
  ghost predicate Ends(h: map<nat, Spot>, last: nat, tick: Tick) {
    last in h && (forall b :: b in h ==> b <= last) && h[last].tick == tick
  }

  lemma EndsIsMax(h: map<nat, Spot>, last: nat, tick: Tick)
    requires Ends(h, last, tick)
    ensures h.Keys != {} && MaxKey(h) == last
  {
    assert last in h.Keys;
  }

  lemma PaddedEnds(t0: nat, h: map<nat, Spot>, last: nat, tick: Tick, n: nat)
    requires Ends(h, last, tick) && last < n
    ensures Ends(PaddedSpots(t0, h, n), n - 1, tick)
    ensures forall b :: b in PaddedSpots(t0, h, n) <==> b in h || last < b < n
    ensures forall b :: b in PaddedSpots(t0, h, n) ==> PaddedSpots(t0, h, n)[b] == if b in h then h[b] else Spot(OwnWindow(t0, last), tick)
  {
    hide OwnWindow;
    EndsIsMax(h, last, tick);
  }

  /** The latest block after some cuts. */
  function LastOf(block: nat, cuts: seq<nat>): int {
    if cuts == [] then block as int else cuts[|cuts| - 1] as int - 1
  }

  lemma {:induction false} PadsEnd(t0: nat, h: map<nat, Spot>, last: nat, tick: Tick, cuts: seq<nat>)
    requires Ends(h, last, tick) && AscendingFrom(last, cuts)
    ensures LastOf(last, cuts) >= last && Ends(Pads(t0, h, cuts), LastOf(last, cuts), tick)
    ensures forall b :: b in h ==> b in Pads(t0, h, cuts) && Pads(t0, h, cuts)[b] == h[b]
    ensures forall b :: b in Pads(t0, h, cuts) && b <= last ==> b in h
    decreases |cuts|
  {
    hide PaddedSpots, OwnWindow;
    if cuts != [] {
      var front, c := cuts[..|cuts| - 1], cuts[|cuts| - 1];
      PadsEnd(t0, h, last, tick, front);
      PaddedEnds(t0, Pads(t0, h, front), LastOf(last, front), tick, c);
    }
  }

  lemma ExtendedEnds(t0: nat, h: map<nat, Spot>, n: nat, tick: Tick)
    requires forall b :: b in h ==> b < n
    ensures Ends(Extended(t0, h, n, tick), n, tick)
    ensures forall b :: b in Extended(t0, h, n, tick) ==> b <= n
  {
    hide OwnWindow;
  }

  lemma {:induction false} BlocksEnd(t0: nat, trail: Trail)
    requires WellFormed(trail)
    ensures trail == [] ==> Blocks(t0, trail) == map[]
    ensures trail != [] ==>
              var m := trail[|trail| - 1];
              && Latest(trail) >= m.seen.block
              && Ends(Blocks(t0, trail), Latest(trail), m.seen.tick)
              && Ends(Extended(t0, Blocks(t0, trail[..|trail| - 1]), m.seen.block, m.seen.tick), m.seen.block, m.seen.tick)
    decreases |trail|
  {
    hide Extended, OwnWindow;
    if trail != [] {
      var front, m := trail[..|trail| - 1], trail[|trail| - 1];
      assert WellFormed(front);
      BlocksEnd(t0, front);
      FrontIsBelow(trail);
      ExtendedEnds(t0, Blocks(t0, front), m.seen.block, m.seen.tick);
      PadsEnd(t0, Extended(t0, Blocks(t0, front), m.seen.block, m.seen.tick), m.seen.block, m.seen.tick, m.cuts);
    }
  }

  lemma FrontIsBelow(trail: Trail)
    requires WellFormed(trail) && trail != []
    ensures Latest(trail[..|trail| - 1]) < trail[|trail| - 1].seen.block
  {
    if |trail| > 1 {
      var before := trail[|trail| - 2];
      if before.cuts != [] { assert before.cuts[|before.cuts| - 1] in before.cuts; }
    }
  }

  // ---- a rollback -------------------------------------------------------------------------

  lemma BelowPadded(t0: nat, h: map<nat, Spot>, last: nat, tick: Tick, big: nat, n: nat)
    requires Ends(h, last, tick) && n <= big
    ensures last >= n ==> Below(PaddedSpots(t0, h, big), n) == Below(h, n)
    ensures last < n ==> Below(PaddedSpots(t0, h, big), n) == PaddedSpots(t0, h, n)
  {
    hide OwnWindow, Below, PaddedSpots;
    if last < big {
      PaddedEnds(t0, h, last, tick, big);
      if last < n { PaddedEnds(t0, h, last, tick, n); }
    } else {
      NoPadding(t0, h, last, tick, big);
    }
    var p := PaddedSpots(t0, h, big);
    if last >= n {
      assert Below(p, n) == Below(h, n);
    } else {
      assert Below(p, n) == PaddedSpots(t0, h, n);
    }
  }

  lemma NoPadding(t0: nat, h: map<nat, Spot>, last: nat, tick: Tick, n: nat)
    requires Ends(h, last, tick) && n <= last + 1
    ensures PaddedSpots(t0, h, n) == h
  {
    hide OwnWindow;
    EndsIsMax(h, last, tick);
    assert PaddedSpots(t0, h, n) == h;
  }

  /** Cutting padding that was itself cut. */
  lemma {:induction false} TrimIs(t0: nat, h: map<nat, Spot>, last: nat, tick: Tick, cuts: seq<nat>, big: nat, n: nat)
    requires Ends(h, last, tick) && AscendingFrom(last, cuts) && last < n <= big
    ensures Below(PaddedSpots(t0, Pads(t0, h, cuts), big), n) == Pads(t0, h, Trim(cuts, n))
    decreases |cuts|
  {
    hide PaddedSpots, OwnWindow, Below;
    PadsEnd(t0, h, last, tick, cuts);
    BelowPadded(t0, Pads(t0, h, cuts), LastOf(last, cuts), tick, big, n);
    if cuts == [] || cuts[|cuts| - 1] < n {
      assert (cuts + [n])[..|cuts|] == cuts;
    } else {
      var front, c := cuts[..|cuts| - 1], cuts[|cuts| - 1];
      TrimIs(t0, h, last, tick, front, c, n);
      if c == n {
        hide Ends;
        BelowAll(Pads(t0, h, cuts), n);
        NoPadding(t0, Pads(t0, h, cuts), c - 1, tick, n);
      }
    }
  }

  lemma BelowAll(h: map<nat, Spot>, n: nat)
    requires forall b :: b in h ==> b < n
    ensures Below(h, n) == h
  {
    hide Below;
    assert Below(h, n).Keys == h.Keys;
  }

  /** What is left below `n` of a trail padded past it is the trail cut to it. */
  lemma {:induction false} CutToIs(t0: nat, trail: Trail, big: nat, n: nat)
    requires WellFormed(trail) && n <= big
    ensures Below(PaddedSpots(t0, Blocks(t0, trail), big), n) == Blocks(t0, CutTo(trail, n))
    decreases |trail|
  {
    hide PaddedSpots, OwnWindow, Below, Extended;
    BlocksEnd(t0, trail);
    if trail == [] {
      NothingBelow(t0, big, n);
    } else {
      var front, m := trail[..|trail| - 1], trail[|trail| - 1];
      assert WellFormed(front);
      var base := Extended(t0, Blocks(t0, front), m.seen.block, m.seen.tick);
      if m.seen.block >= n {
        PadsEnd(t0, base, m.seen.block, m.seen.tick, m.cuts);
        BelowPadded(t0, Blocks(t0, trail), Latest(trail), m.seen.tick, big, n);
        BelowExtended(t0, Blocks(t0, front), base, Blocks(t0, trail), m.seen, n);
        CutToIs(t0, front, m.seen.block, n);
      } else {
        TrimIs(t0, base, m.seen.block, m.seen.tick, m.cuts, big, n);
        assert CutTo(trail, n)[..|trail| - 1] == front;
      }
    }
  }

  lemma NothingBelow(t0: nat, big: nat, n: nat)
    ensures Below(PaddedSpots(t0, map[], big), n) == map[]
  {
    hide OwnWindow;
  }

  /** Below an observation a trail is what was padded up to it. */
  lemma BelowExtended(t0: nat, h: map<nat, Spot>, base: map<nat, Spot>, all: map<nat, Spot>, o: Observation, n: nat)
    requires base == Extended(t0, h, o.block, o.tick) && n <= o.block
    requires forall b :: b in base ==> b in all && all[b] == base[b]
    requires forall b :: b in all && b <= o.block ==> b in base
    ensures Below(all, n) == Below(PaddedSpots(t0, h, o.block), n)
  {
    hide PaddedSpots, Below;
    var p := PaddedSpots(t0, h, o.block);
    assert forall b :: b < n ==> (b in all <==> b in p) && (b in all ==> all[b] == p[b]);
    assert Below(all, n).Keys == Below(p, n).Keys;
  }

  lemma {:induction false} TrimAscends(block: nat, cuts: seq<nat>, n: nat)
    requires AscendingFrom(block, cuts) && block < n
    ensures AscendingFrom(block, Trim(cuts, n))
    decreases |cuts|
  {
    if cuts != [] && cuts[|cuts| - 1] >= n {
      TrimAscends(block, cuts[..|cuts| - 1], n);
    }
  }

  lemma {:induction false} CutToWellFormed(trail: Trail, n: nat)
    requires WellFormed(trail)
    ensures WellFormed(CutTo(trail, n))
    decreases |trail|
  {
    hide AscendingFrom;
    if trail != [] {
      var front, m := trail[..|trail| - 1], trail[|trail| - 1];
      assert WellFormed(front);
      if m.seen.block >= n {
        CutToWellFormed(front, n);
      } else {
        TrimAscends(m.seen.block, m.cuts, n);
      }
    }
  }

  // ---- runs -------------------------------------------------------------------------------

  /** No operation finalizes anything. */
  ghost predicate Unfinalized(ops: seq<Op>) {
    forall i :: 0 <= i < |ops| && ops[i].Insert? ==> ops[i].finalized == None
  }

  lemma InsertTrail(t0: nat, trail: Trail, o: Observation)
    requires WellFormed(trail) && o.block > Latest(trail)
    ensures WellFormed(trail + [Mark(o, [])])
    ensures Blocks(t0, trail + [Mark(o, [])]) == Extended(t0, Blocks(t0, trail), o.block, o.tick)
  {
    hide Extended;
    var longer := trail + [Mark(o, [])];
    assert longer[..|trail|] == trail;
    if trail != [] {
      var m := trail[|trail| - 1];
      forall c | c in m.cuts ensures c <= o.block {
        var i :| 0 <= i < |m.cuts| && m.cuts[i] == c;
      }
    }
  }

  lemma HeldBelow(t0: nat, s: Series, trail: Trail, n: nat)
    requires Invariant(t0, s) && Holds(s.data, Blocks(t0, trail)) && WellFormed(trail) && AllBelow(s.data, n)
    ensures n > Latest(trail)
  {
    hide OwnWindow, Structural, Blocks;
    BlocksEnd(t0, trail);
    if trail != [] {
      var b: nat := Latest(trail);
      var k := Blocks(t0, trail)[b].window;
      assert b in s.data[k].pending.blocks && b <= s.data[k].End();
    }
  }

  /** After any run the series holds the blocks of its trail. */
  lemma {:induction false} RunHoldsTrail(config: Config, t0: nat, ops: seq<Op>)
    requires Clock(t0) && config.retentionCount.None? && Unfinalized(ops) && Run(config, t0, ops).Some?
    ensures WellFormed(TrailOf(ops))
    ensures Faithful(config, t0, Run(config, t0, ops).value, Blocks(t0, TrailOf(ops)))
    decreases |ops|
  {
    hide Faithful, Blocks, WellFormed, Apply, After;
    if ops == [] {
      EmptyTrail(config, t0);
    } else {
      var front, op := ops[..|ops| - 1], ops[|ops| - 1];
      RunHoldsTrail(config, t0, front);
      ApplyHoldsTrail(config, t0, Run(config, t0, front).value, TrailOf(front), op);
    }
  }

  lemma EmptyTrail(config: Config, t0: nat)
    ensures WellFormed([]) && Faithful(config, t0, EmptySeries, Blocks(t0, []))
  {
    hide OwnWindow, Batch;
  }

  lemma ApplyHoldsTrail(config: Config, t0: nat, s: Series, trail: Trail, op: Op)
    requires Clock(t0) && config.retentionCount.None? && (op.Insert? ==> op.finalized == None)
    requires WellFormed(trail) && Faithful(config, t0, s, Blocks(t0, trail)) && Apply(config, t0, s, op).Some?
    ensures WellFormed(After(trail, op)) && Faithful(config, t0, Apply(config, t0, s, op).value, Blocks(t0, After(trail, op)))
  {
    hide OwnWindow, Structural, InsertData, PruneToReorgedBlockNumber, IndicatorsRight, PadFits, Blocks, WellFormed, Holds, AllBelow, Extended;
    match op
    case Insert(n, tick, _) =>
      HeldBelow(t0, s, trail, n);
      InsertTrail(t0, trail, Observation(n, tick));
      InsertFaithful(config, t0, s, Blocks(t0, trail), Observation(n, tick));
    case Prune(n) =>
      PruneCuts(config, t0, s, Blocks(t0, trail), n);
      PruneIsExact(config, t0, s, n);
      ApplyKeeps(config, t0, s, op);
      PruneTrail(t0, trail, n);
  }

  lemma PruneTrail(t0: nat, trail: Trail, n: nat)
    requires WellFormed(trail)
    ensures WellFormed(After(trail, Prune(n))) && Blocks(t0, After(trail, Prune(n))) == Below(Blocks(t0, trail), n)
  {
    hide OwnWindow, PaddedSpots, Blocks, Below, WellFormed, CutTo;
    BlocksEnd(t0, trail);
    if n > Latest(trail) {
      BelowAll(Blocks(t0, trail), n);
    } else {
      CutToWellFormed(trail, n);
      CutToIs(t0, trail, n, n);
      NoPadding(t0, Blocks(t0, trail), Latest(trail), trail[|trail| - 1].seen.tick, n);
    }
  }

  // ---- when it is the run of the survivors ------------------------------------------------

  /** The padding left from rolled-back runs went where padding from the observation itself goes. */
  ghost predicate SeamOk(t0: nat, m: Mark, next: nat) {
    forall c :: c in m.cuts && 0 < c < next ==> OwnWindow(t0, c - 1) == OwnWindow(t0, m.seen.block)
  }

  ghost predicate SeamsOk(t0: nat, trail: Trail) {
    forall i :: 0 <= i < |trail| - 1 ==> SeamOk(t0, trail[i], trail[i + 1].seen.block)
  }

  ghost predicate CutsOk(t0: nat, last: nat, cuts: seq<nat>, n: nat) {
    forall i :: 0 <= i < |cuts| && 0 < cuts[i] < n ==> OwnWindow(t0, cuts[i] - 1) == OwnWindow(t0, last)
  }

  /** Padding in several goes is padding in one exactly when every go starts from the same window. */
  lemma {:induction false} PadsAgreeIff(t0: nat, h: map<nat, Spot>, last: nat, tick: Tick, cuts: seq<nat>, n: nat)
    requires Ends(h, last, tick) && AscendingFrom(last, cuts) && last < n && LastOf(last, cuts) < n
    ensures PaddedSpots(t0, Pads(t0, h, cuts), n) == PaddedSpots(t0, h, n) <==> CutsOk(t0, last, cuts, n)
    decreases |cuts|
  {
    hide PaddedSpots, OwnWindow;
    if cuts != [] {
      var front, c := cuts[..|cuts| - 1], cuts[|cuts| - 1];
      PadsEnd(t0, h, last, tick, front);
      PadsEnd(t0, h, last, tick, cuts);
      var x := Pads(t0, h, front);
      PadsAgreeIff(t0, h, last, tick, front, c);
      if c == n {
        NoPadding(t0, Pads(t0, h, cuts), c - 1, tick, n);
      } else {
        PaddedTwice(t0, h, last, tick, PaddedSpots(t0, x, c), c, n);
      }
      assert front + [c] == cuts;
      CutsOkSnoc(t0, last, front, c, n);
    }
  }

  lemma CutsOkSnoc(t0: nat, last: nat, front: seq<nat>, c: nat, n: nat)
    requires AscendingFrom(last, front + [c]) && 0 < c <= n
    ensures CutsOk(t0, last, front + [c], n) <==>
              CutsOk(t0, last, front, c) && (c < n ==> OwnWindow(t0, c - 1) == OwnWindow(t0, last))
  {
    hide OwnWindow;
    var cuts := front + [c];
    assert cuts[|front|] == c;
    forall i | 0 <= i < |front| ensures cuts[i] == front[i] && 0 < front[i] < c {
    }
  }

  /** Padding on from `c` agrees with padding from `last` exactly when it did up to `c` and the windows agree. */
  lemma PaddedTwice(t0: nat, h: map<nat, Spot>, last: nat, tick: Tick, y: map<nat, Spot>, c: nat, n: nat)
    requires Ends(h, last, tick) && last < c < n && Ends(y, c - 1, tick)
    ensures PaddedSpots(t0, y, n) == PaddedSpots(t0, h, n) <==>
              y == PaddedSpots(t0, h, c) && OwnWindow(t0, c - 1) == OwnWindow(t0, last)
  {
    hide PaddedSpots, OwnWindow;
    PaddedEnds(t0, y, c - 1, tick, n);
    PaddedEnds(t0, h, last, tick, n);
    PaddedEnds(t0, h, last, tick, c);
    var a, b := PaddedSpots(t0, y, n), PaddedSpots(t0, h, n);
    if a == b {
      assert a[c] == Spot(OwnWindow(t0, c - 1), tick) && b[c] == Spot(OwnWindow(t0, last), tick);
      assert y == PaddedSpots(t0, h, c);
    }
    if y == PaddedSpots(t0, h, c) && OwnWindow(t0, c - 1) == OwnWindow(t0, last) {
      assert a == b;
    }
  }

  lemma ExtendedAgreeIff(t0: nat, h: map<nat, Spot>, g: map<nat, Spot>, n: nat, tick: Tick)
    requires (forall b :: b in PaddedSpots(t0, h, n) ==> b < n) && forall b :: b in PaddedSpots(t0, g, n) ==> b < n
    ensures Extended(t0, h, n, tick) == Extended(t0, g, n, tick) <==> PaddedSpots(t0, h, n) == PaddedSpots(t0, g, n)
  {
    hide PaddedSpots, OwnWindow;
    var p, q := PaddedSpots(t0, h, n), PaddedSpots(t0, g, n);
    if Extended(t0, h, n, tick) == Extended(t0, g, n, tick) {
      assert Below(Extended(t0, h, n, tick), n) == p;
      assert Below(Extended(t0, g, n, tick), n) == q;
    }
  }

  /** Up to the latest observation itself, padding from it changes nothing. */
  lemma PaddedFromIff(t0: nat, h: map<nat, Spot>, g: map<nat, Spot>, last: nat, tick: Tick, cuts: seq<nat>, n: nat)
    requires Ends(h, last, tick) && Ends(g, last, tick) && AscendingFrom(last, cuts) && last < n && LastOf(last, cuts) < n
    ensures PaddedSpots(t0, Pads(t0, h, cuts), n) == PaddedSpots(t0, g, n) <==> h == g && CutsOk(t0, last, cuts, n)
  {
    hide PaddedSpots, OwnWindow, Below, CutsOk;
    PadsEnd(t0, h, last, tick, cuts);
    PadsAgreeIff(t0, h, last, tick, cuts, n);
    PaddedEnds(t0, Pads(t0, h, cuts), LastOf(last, cuts), tick, n);
    PaddedEnds(t0, g, last, tick, n);
    if PaddedSpots(t0, Pads(t0, h, cuts), n) == PaddedSpots(t0, g, n) {
      SamePart(h, g, PaddedSpots(t0, g, n), last);
    }
  }

  lemma SamePart(h: map<nat, Spot>, g: map<nat, Spot>, all: map<nat, Spot>, last: nat)
    requires (forall b :: b in h ==> b <= last && b in all && all[b] == h[b]) && forall b :: b in g ==> b <= last && b in all && all[b] == g[b]
    requires forall b :: b in all && b <= last ==> b in h && b in g
    ensures h == g
  {
    assert h.Keys == g.Keys;
  }

  /** Without its last cuts a trail holds the blocks of its observations exactly when every seam is as it should be. */
  lemma {:induction false} TrailIsHistoryIff(t0: nat, trail: Trail)
    requires WellFormed(trail)
    ensures Increasing(Seen(trail))
    ensures trail != [] ==>
              var m := trail[|trail| - 1];
              Extended(t0, Blocks(t0, trail[..|trail| - 1]), m.seen.block, m.seen.tick) == History(t0, Seen(trail)) <==> SeamsOk(t0, trail)
    decreases |trail|
  {
    hide Extended, PaddedSpots, OwnWindow, SeamOk;
    SeenIncreases(trail);
    if trail != [] {
      var front, m := trail[..|trail| - 1], trail[|trail| - 1];
      assert Seen(trail)[..|front|] == Seen(front);
      if front != [] {
        assert WellFormed(front);
        TrailIsHistoryIff(t0, front);
        OneMoreSeam(t0, trail);
        SeamsSnoc(t0, trail);
      }
    }
  }

  lemma {:induction false} SeenIncreases(trail: Trail)
    requires WellFormed(trail)
    ensures Increasing(Seen(trail))
    decreases |trail|
  {
    if trail != [] {
      var front := trail[..|trail| - 1];
      assert WellFormed(front);
      SeenIncreases(front);
      var obs := Seen(trail);
      forall i, j | 0 <= i < j < |obs| ensures obs[i].block < obs[j].block {
        if j < |front| {
          assert Seen(front)[i].block < Seen(front)[j].block;
        } else if i < |front| - 1 {
          assert Seen(front)[i].block < Seen(front)[|front| - 1].block;
        }
      }
    }
  }

  lemma SeamsSnoc(t0: nat, trail: Trail)
    requires |trail| > 1
    ensures SeamsOk(t0, trail) <==>
              SeamsOk(t0, trail[..|trail| - 1]) && SeamOk(t0, trail[|trail| - 2], trail[|trail| - 1].seen.block)
  {
    hide SeamOk;
    var front := trail[..|trail| - 1];
    forall i | 0 <= i < |front| - 1 ensures SeamOk(t0, front[i], front[i + 1].seen.block) == SeamOk(t0, trail[i], trail[i + 1].seen.block) {
      assert front[i] == trail[i] && front[i + 1] == trail[i + 1];
    }
  }

  /** The last seam, given the observations before it. */
  lemma OneMoreSeam(t0: nat, trail: Trail)
    requires WellFormed(trail) && |trail| > 1 && Increasing(Seen(trail))
    ensures var front, m := trail[..|trail| - 1], trail[|trail| - 1];
            var p := front[|front| - 1];
            Extended(t0, Blocks(t0, front), m.seen.block, m.seen.tick) == History(t0, Seen(trail)) <==>
              && Extended(t0, Blocks(t0, front[..|front| - 1]), p.seen.block, p.seen.tick) == History(t0, Seen(front))
              && SeamOk(t0, p, m.seen.block)
  {
    hide Extended, PaddedSpots, OwnWindow, SeamOk;
    var front, m := trail[..|trail| - 1], trail[|trail| - 1];
    var p := front[|front| - 1];
    var n := m.seen.block;
    assert WellFormed(front);
    assert Seen(trail)[..|front|] == Seen(front);
    BlocksEnd(t0, front);
    FrontIsBelow(trail);
    HistoryEnds(t0, Seen(front));
    var h, g := Extended(t0, Blocks(t0, front[..|front| - 1]), p.seen.block, p.seen.tick), History(t0, Seen(front));
    HistoryIsEnds(t0, Seen(front));
    PaddedFromIff(t0, h, g, p.seen.block, p.seen.tick, p.cuts, n);
    PaddedEnds(t0, Blocks(t0, front), Latest(front), p.seen.tick, n);
    PaddedEnds(t0, g, p.seen.block, p.seen.tick, n);
    ExtendedAgreeIff(t0, Blocks(t0, front), g, n, m.seen.tick);
    SeamIsCuts(t0, p, n);
  }

  lemma HistoryIsEnds(t0: nat, obs: seq<Observation>)
    requires Increasing(obs) && obs != []
    ensures Ends(History(t0, obs), obs[|obs| - 1].block, obs[|obs| - 1].tick)
  {
    hide OwnWindow, Extended;
    HistoryEnds(t0, obs);
  }

  lemma SeamIsCuts(t0: nat, m: Mark, n: nat)
    ensures SeamOk(t0, m, n) <==> CutsOk(t0, m.seen.block, m.cuts, n)
  {
    hide OwnWindow;
    if CutsOk(t0, m.seen.block, m.cuts, n) {
      forall c | c in m.cuts && 0 < c < n ensures OwnWindow(t0, c - 1) == OwnWindow(t0, m.seen.block) {
        var i :| 0 <= i < |m.cuts| && m.cuts[i] == c;
      }
    }
    if SeamOk(t0, m, n) {
      forall i | 0 <= i < |m.cuts| && 0 < m.cuts[i] < n ensures OwnWindow(t0, m.cuts[i] - 1) == OwnWindow(t0, m.seen.block) {
        assert m.cuts[i] in m.cuts;
      }
    }
  }

  /**
    A whole run of inserts and rollbacks, in any order and with any blocks missed after a rollback,
    ends in the state of the run that only ever saw the surviving observations exactly when every
    rollback that left padding behind its last survivor went back to a block whose predecessor is in
    that survivor's window, or the next survivor was at that block.
   */
  lemma RollbacksLeaveNoTraceIff(config: Config, t0: nat, ops: seq<Op>)
    requires Clock(t0) && config.retentionCount.None? && Unfinalized(ops)
    requires ops != [] && ops[|ops| - 1].Insert? && Run(config, t0, ops).Some?
    ensures var trail := TrailOf(ops);
            Run(config, t0, ops) == ObserveAll(config, t0, Seen(trail)) <==> SeamsOk(t0, trail)
  {
    hide Run, ObserveAll, Faithful, History, Extended, SeamsOk, WellFormed, OwnWindow, Pads;
    var trail := TrailOf(ops);
    RunHoldsTrail(config, t0, ops);
    TrailIsHistoryIff(t0, trail);
    ForwardAllSurvive(Seen(trail));
    RunHoldsSurviving(config, t0, Seen(trail));
    LastIsUncut(t0, ops);
    EqualIffSameBlocks(config, t0, Run(config, t0, ops).value, Blocks(t0, trail),
                       ObserveAll(config, t0, Seen(trail)).value, History(t0, Seen(trail)));
  }

  lemma LastIsUncut(t0: nat, ops: seq<Op>)
    requires ops != [] && ops[|ops| - 1].Insert?
    ensures var trail := TrailOf(ops);
            && trail != []
            && var m := trail[|trail| - 1];
               Blocks(t0, trail) == Extended(t0, Blocks(t0, trail[..|trail| - 1]), m.seen.block, m.seen.tick)
  {
    hide Extended;
    var trail := TrailOf(ops);
    assert trail[|trail| - 1].cuts == [];
  }
}
