/** All pairs' bars: `time_price_bar_store.rs`. */
module TimePriceBarStore {
  import opened Wrappers
  import opened OrderedMaps
  import opened TickData
  import opened FixedPoint
  import opened ResolutionTimestamp
  import opened Indicators
  import opened SeriesInvariants
  import opened InsertOutcome
  import opened ReorgPrune
  import opened Frontier
  import S = BarSeries
  import TimePriceBars

  type Address = nat

  /** One pair's trades in one block: the pair's non-WETH token and its tick. */
  datatype PairTick = PairTick(tokenAddress: Address, tick: Tick)

  datatype Block = Block(number: nat, timestamp: nat, pairTicks: map<Address, PairTick>)

  type AllBars = map<Address, S.Series>

  datatype State = State(bars: AllBars, lastInserted: Option<nat>, lastPrunedAt: Option<nat>)

  const EmptyState := State(map[], None, None)

  function PairConfig(retentionCount: nat, rounding: Rounding): S.Config {
    S.Config(Some(retentionCount), true, rounding)
  }

  // ---- one block, as a function on the state ----------------------------------------------

  predicate IsReorg(st: State, n: nat) {
    st.lastInserted.Some? && n <= st.lastInserted.value
  }

  function Pruned(config: S.Config, bars: AllBars, a: Address, n: nat): S.Outcome
    requires a in bars
  {
    S.PruneToReorgedBlockNumber(config, bars[a], n)
  }

  /** Every pair rolled back, and the pairs with nothing left dropped. */
  function RolledBack(config: S.Config, st: State, n: nat): AllBars {
    if IsReorg(st, n) then
      map a | a in st.bars && Pruned(config, st.bars, a, n).series.data.Keys != {} :: Pruned(config, st.bars, a, n).series
    else st.bars
  }

  predicate RollbackOk(config: S.Config, st: State, n: nat) {
    IsReorg(st, n) ==> forall a :: a in st.bars ==> Pruned(config, st.bars, a, n).error.None?
  }

  function Held(bars: AllBars, a: Address): S.Series {
    if a in bars then bars[a] else S.EmptySeries
  }

  predicate Fits(bars: AllBars, block: Block, a: Address) {
    S.PadFits(Held(bars, a).data, block.number, block.timestamp)
  }

  function Inserted(config: S.Config, bars: AllBars, block: Block, finalized: Option<nat>, a: Address): S.Outcome
    requires a in block.pairTicks && Fits(bars, block, a)
  {
    S.InsertData(config, Held(bars, a), block.number, block.pairTicks[a].tick, block.timestamp, finalized)
  }

  predicate InsertOk(config: S.Config, bars: AllBars, block: Block, finalized: Option<nat>, a: Address)
    requires a in block.pairTicks
  {
    Fits(bars, block, a) && Inserted(config, bars, block, finalized, a).error.None?
  }

  /** The pairs of the block in `done` have been inserted. */
  function WithInserted(config: S.Config, bars: AllBars, block: Block, finalized: Option<nat>, done: set<Address>): AllBars
    requires done <= block.pairTicks.Keys && forall a :: a in done ==> Fits(bars, block, a)
  {
    bars + map a | a in done :: Inserted(config, bars, block, finalized, a).series
  }

  lemma NoneInserted(config: S.Config, bars: AllBars, block: Block, finalized: Option<nat>)
    ensures WithInserted(config, bars, block, finalized, {}) == bars
  {
  }

  /** Inserting one more pair looks at no pair inserted before it. */
  lemma OneMoreInserted(config: S.Config, bars: AllBars, block: Block, finalized: Option<nat>, done: set<Address>, a: Address)
    requires done <= block.pairTicks.Keys && a in block.pairTicks && a !in done
    requires forall x :: x in done + {a} ==> Fits(bars, block, x)
    ensures var so := WithInserted(config, bars, block, finalized, done);
            && Held(so, a) == Held(bars, a)
            && so[a := Inserted(config, bars, block, finalized, a).series] == WithInserted(config, bars, block, finalized, done + {a})
  {
    hide Inserted, Fits;
  }

  predicate IsStale(config: S.Config, bars: AllBars, a: Address, w: nat)
    requires a in bars
  {
    S.IsStaleFits(bars[a].data, w) && S.IsStale(config, bars[a].data, w)
  }

  /** A window's worth of blocks has passed since the last pruning of stale pairs. */
  predicate PruningDue(st: State, n: nat) {
    st.lastPrunedAt.Some? && n > st.lastPrunedAt.value + OFFSET / AVERAGE_BLOCK_TIME_SECONDS
  }

  function WithoutStale(config: S.Config, bars: AllBars, w: nat): AllBars {
    map a | a in bars && !IsStale(config, bars, a, w) :: bars[a]
  }

  predicate InsertBlockOk(config: S.Config, st: State, block: Block, finalized: Option<nat>) {
    && RollbackOk(config, st, block.number)
    && forall a :: a in block.pairTicks ==> InsertOk(config, RolledBack(config, st, block.number), block, finalized, a)
  }

  function AfterBlock(config: S.Config, st: State, block: Block, finalized: Option<nat>): State
    requires InsertBlockOk(config, st, block, finalized)
  {
    var inserted := WithInserted(config, RolledBack(config, st, block.number), block, finalized, block.pairTicks.Keys);
    var due := PruningDue(st, block.number);
    State(if due then WithoutStale(config, inserted, Window(block.timestamp)) else inserted,
          Some(block.number),
          if due || st.lastPrunedAt.None? then Some(block.number) else st.lastPrunedAt)
  }

  /** Stepping one window back does not underflow. */
  predicate FinalizedFits(isBacktest: bool, timestamp: nat, header: Option<nat>) {
    if isBacktest then timestamp >= OFFSET else header.Some? ==> header.value >= OFFSET
  }

  /** The window up to which bars may be finalized: before the block in a backtest, else as the chain says. */
  function FinalizedWindow(isBacktest: bool, timestamp: nat, header: Option<nat>): Option<nat>
    requires FinalizedFits(isBacktest, timestamp, header)
  {
    if isBacktest then Some(Window(timestamp) - OFFSET)
    else if header.Some? then Some(Window(header.value) - OFFSET)
    else None
  }

  /** No `u64` subtraction on the way underflows: in padding, and in the ages of stale pairs. */
  predicate BlockFits(config: S.Config, st: State, block: Block, finalized: Option<nat>) {
    && (RollbackOk(config, st, block.number) ==>
          forall a :: a in block.pairTicks ==> Fits(RolledBack(config, st, block.number), block, a))
    && (InsertBlockOk(config, st, block, finalized) && PruningDue(st, block.number) ==>
          var inserted := WithInserted(config, RolledBack(config, st, block.number), block, finalized, block.pairTicks.Keys);
          forall a :: a in inserted ==> S.IsStaleFits(inserted[a].data, Window(block.timestamp)))
  }

  // ---- a block that fails -----------------------------------------------------------------

  /** Some pairs rolled back, none dropped yet. */
  function PartlyRolledBack(config: S.Config, bars: AllBars, n: nat, done: set<Address>): AllBars {
    map a | a in bars :: if a in done then Pruned(config, bars, a, n).series else bars[a]
  }

  /** The rollback of `failing` stopped the rest; which pairs came before it is up to the hash map. */
  ghost predicate RollbackStopsAt(config: S.Config, before: AllBars, n: nat, after: AllBars, error: S.Error,
                                  done: set<Address>, failing: Address) {
    && done <= before.Keys && failing in before && failing !in done
    && (forall a :: a in done ==> Pruned(config, before, a, n).error.None?)
    && Pruned(config, before, failing, n).error == Some(error)
    && after == PartlyRolledBack(config, before, n, done + {failing})
  }

  /** The insert for `failing` stopped the rest. */
  ghost predicate InsertStopsAt(config: S.Config, before: AllBars, block: Block, finalized: Option<nat>, after: AllBars, error: S.Error,
                                done: set<Address>, failing: Address) {
    && done <= block.pairTicks.Keys && failing in block.pairTicks && failing !in done
    && (forall a :: a in done ==> InsertOk(config, before, block, finalized, a))
    && Fits(before, block, failing) && Inserted(config, before, block, finalized, failing).error == Some(error)
    && after == WithInserted(config, before, block, finalized, done + {failing})
  }

  /** What a failed block leaves: the pairs up to the failing one changed, and nothing recorded. */
  ghost predicate Stopped(config: S.Config, before: State, block: Block, finalized: Option<nat>, after: State, error: S.Error) {
    && after.lastInserted == before.lastInserted && after.lastPrunedAt == before.lastPrunedAt
    && if RollbackOk(config, before, block.number) then
         exists done, failing ::
           InsertStopsAt(config, RolledBack(config, before, block.number), block, finalized, after.bars, error, done, failing)
       else
         exists done, failing :: RollbackStopsAt(config, before.bars, block.number, after.bars, error, done, failing)
  }

  // ---- what every insert keeps ------------------------------------------------------------

  /** Every pair's bars are sound and hold no block after the last inserted one. */
  ghost predicate Valid(t0: nat, st: State) {
    && Clock(t0)
    && (st.lastInserted.None? ==> st.bars == map[])
    && forall a :: a in st.bars ==>
         Invariant(t0, st.bars[a]) && AllBelow(st.bars[a].data, st.lastInserted.value + 1)
  }

  /** The pairs are ready for block `n`. */
  ghost predicate Ready(t0: nat, bars: AllBars, n: nat) {
    forall a :: a in bars ==> Invariant(t0, bars[a]) && AllBelow(bars[a].data, n)
  }

  lemma RolledBackReady(config: S.Config, t0: nat, st: State, n: nat)
    requires Valid(t0, st) && RollbackOk(config, st, n)
    ensures Ready(t0, RolledBack(config, st, n), n)
  {
    hide Invariant;
    hide S.PruneToReorgedBlockNumber;
    var bars := RolledBack(config, st, n);
    forall a | a in bars ensures Invariant(t0, bars[a]) && AllBelow(bars[a].data, n) {
      if IsReorg(st, n) {
        PruneIsExact(config, t0, st.bars[a], n);
      }
    }
  }

  lemma EmptyReady(t0: nat, n: nat)
    ensures Invariant(t0, S.EmptySeries) && AllBelow(S.EmptySeries.data, n)
  {
  }

  /** A pair that could be inserted has a latest bar in the block's window, ending in the block. */
  lemma InsertedPair(config: S.Config, t0: nat, bars: AllBars, block: Block, finalized: Option<nat>, a: Address)
    requires Clock(t0) && Ready(t0, bars, block.number) && a in block.pairTicks
    requires config.computeIndicators && block.timestamp == BlockTime(t0, block.number)
    ensures Fits(bars, block, a)
    ensures var r := Inserted(config, bars, block, finalized, a);
            r.error.None? ==>
              && Invariant(t0, r.series)
              && AllBelow(r.series.data, block.number + 1)
              && EndsIn(t0, r.series.data, block.number)
  {
    hide Invariant;
    hide S.InsertData;
    hide S.PadFits;
    EmptyReady(t0, block.number);
    InsertKeepsInvariant(config, t0, Held(bars, a), block.number, block.pairTicks[a].tick, finalized);
  }

  lemma LatestNotAfter(t0: nat, data: Bars, n: nat)
    requires Structural(t0, data) && AllBelow(data, n + 1)
    ensures S.IsStaleFits(data, OwnWindow(t0, n))
  {
    hide OwnWindow;
    if data.Keys != {} {
      LatestBarIsLatest(t0, data, MaxKey(data));
      WindowMonotone(t0, data[MaxKey(data)].End(), n);
    }
  }

  /**
    After any block goes in, every pair's bars are sound, staleness does not underflow, and each
    pair of the block survives with a latest bar in the block's own window that ends in the block.
   */
  lemma InsertBlockKeepsValid(config: S.Config, t0: nat, st: State, block: Block, finalized: Option<nat>)
    requires Valid(t0, st) && config.computeIndicators && block.timestamp == BlockTime(t0, block.number)
    requires InsertBlockOk(config, st, block, finalized)
    ensures var r := AfterBlock(config, st, block, finalized);
            && Valid(t0, r)
            && r.lastInserted == Some(block.number)
            && forall a :: a in block.pairTicks ==> a in r.bars && EndsIn(t0, r.bars[a].data, block.number)
    ensures var inserted := WithInserted(config, RolledBack(config, st, block.number), block, finalized, block.pairTicks.Keys);
            forall a :: a in inserted ==> S.IsStaleFits(inserted[a].data, Window(block.timestamp))
  {
    hide Structural;
    hide Inserted;
    hide RolledBack;
    hide S.IsStale;
    hide EndsIn;
    var n := block.number;
    var bars := RolledBack(config, st, n);
    var inserted := WithInserted(config, bars, block, finalized, block.pairTicks.Keys);
    RolledBackReady(config, t0, st, n);
    forall a | a in inserted
      ensures Invariant(t0, inserted[a]) && AllBelow(inserted[a].data, n + 1)
      ensures S.IsStaleFits(inserted[a].data, OwnWindow(t0, n))
      ensures a in block.pairTicks ==> EndsIn(t0, inserted[a].data, n)
    {
      if a in block.pairTicks {
        assert InsertOk(config, bars, block, finalized, a);
        InsertedPair(config, t0, bars, block, finalized, a);
      }
      LatestNotAfter(t0, inserted[a].data, n);
    }
    forall a | a in block.pairTicks ensures a in inserted && !IsStale(config, inserted, a, OwnWindow(t0, n)) {
      FreshIsNotStale(config, t0, inserted[a].data, n);
    }
  }

  /** On sound pairs and the uniform clock nothing underflows. */
  lemma ValidFits(config: S.Config, t0: nat, st: State, block: Block, finalized: Option<nat>)
    requires Valid(t0, st) && config.computeIndicators && block.timestamp == BlockTime(t0, block.number)
    ensures BlockFits(config, st, block, finalized)
  {
    hide Valid, Ready, Inserted, RolledBack, Fits, S.IsStaleFits;
    if RollbackOk(config, st, block.number) {
      RolledBackReady(config, t0, st, block.number);
      ValidClock(t0, st);
      forall a | a in block.pairTicks ensures Fits(RolledBack(config, st, block.number), block, a) {
        InsertedPair(config, t0, RolledBack(config, st, block.number), block, finalized, a);
      }
    }
    if InsertBlockOk(config, st, block, finalized) {
      InsertBlockKeepsValid(config, t0, st, block, finalized);
    }
  }

  lemma ValidClock(t0: nat, st: State)
    requires Valid(t0, st)
    ensures Clock(t0)
  {
  }

  lemma FreshIsNotStale(config: S.Config, t0: nat, data: Bars, n: nat)
    requires EndsIn(t0, data, n) && S.IsStaleFits(data, OwnWindow(t0, n))
    ensures !S.IsStale(config, data, OwnWindow(t0, n))
  {
    hide OwnWindow;
    assert OwnWindow(t0, n) in data.Keys;
    assert MaxKey(data) == OwnWindow(t0, n);
  }

  /** No bar later than `count + 1` windows before `w`. */
  predicate OnlyOldBars(data: Bars, count: nat, w: nat) {
    forall k :: k in data ==> k + 300 * (count + 1) <= w
  }

  /** A series is stale exactly when its last bar is more windows old than are retained, or it has none. */
  lemma StaleIff(config: S.Config, data: Bars, w: nat)
    requires S.IsStaleFits(data, w)
    ensures S.IsStale(config, data, w) <==> config.retentionCount.Some? && OnlyOldBars(data, config.retentionCount.value, w)
  {
    if config.retentionCount.Some? && data.Keys != {} {
      var age: nat := w - MaxKey(data);
      assert MaxKey(data) in data;
      assert age / OFFSET > config.retentionCount.value <==> age >= 300 * (config.retentionCount.value + 1);
    }
  }

  /** A window's worth of blocks, 150, has passed since the last pruning of stale pairs. */
  predicate WindowPassed(st: State, n: nat) {
    st.lastPrunedAt.Some? && n > st.lastPrunedAt.value + 150
  }

  /**
    Once per window of blocks, and only then, pairs are dropped: exactly those whose bars are all
    more windows old than are retained. A first block only starts the count.
   */
  lemma StalePairsAreDropped(config: S.Config, st: State, block: Block, finalized: Option<nat>)
    requires BlockFits(config, st, block, finalized) && InsertBlockOk(config, st, block, finalized)
    ensures var r := AfterBlock(config, st, block, finalized);
            var inserted := WithInserted(config, RolledBack(config, st, block.number), block, finalized, block.pairTicks.Keys);
            && r.lastPrunedAt == (if WindowPassed(st, block.number) || st.lastPrunedAt.None? then Some(block.number) else st.lastPrunedAt)
            && (forall a :: a in r.bars ==> a in inserted && r.bars[a] == inserted[a])
            && (forall a :: a in inserted ==>
                  (a !in r.bars <==>
                     && WindowPassed(st, block.number) && config.retentionCount.Some?
                     && OnlyOldBars(inserted[a].data, config.retentionCount.value, Window(block.timestamp))))
  {
    hide S.IsStale, WithInserted, RolledBack, Inserted, Fits, S.IsStaleFits, OnlyOldBars;
    var inserted := WithInserted(config, RolledBack(config, st, block.number), block, finalized, block.pairTicks.Keys);
    forall a | a in inserted && PruningDue(st, block.number)
      ensures IsStale(config, inserted, a, Window(block.timestamp)) <==>
                config.retentionCount.Some? && OnlyOldBars(inserted[a].data, config.retentionCount.value, Window(block.timestamp))
    {
      StaleIff(config, inserted[a].data, Window(block.timestamp));
    }
  }

  /** The window up to which bars are finalized is the last one before the header's, or before the block's in a backtest. */
  lemma FinalizesWindowBefore(isBacktest: bool, timestamp: nat, header: Option<nat>)
    requires FinalizedFits(isBacktest, timestamp, header)
    ensures var f := FinalizedWindow(isBacktest, timestamp, header);
            && (f.Some? <==> isBacktest || header.Some?)
            && (f.Some? ==>
                  var latest := if isBacktest then timestamp else header.value;
                  Aligned(f.value) && forall time: nat :: Window(time) <= f.value <==> time < Window(latest))
  {
    var f := FinalizedWindow(isBacktest, timestamp, header);
    if f.Some? {
      var latest := if isBacktest then timestamp else header.value;
      forall time: nat ensures Window(time) <= f.value <==> time < Window(latest) {
        WindowsApart(time, latest);
      }
    }
  }

  lemma WindowsApart(x: nat, y: nat)
    ensures Window(x) <= Window(y) - OFFSET <==> x < Window(y)
  {
    var a, b := x / 300, y / 300;
    assert Window(x) == 300 * a && Window(y) == 300 * b;
  }

  // ---- a backtest never fails -------------------------------------------------------------

  /** Every pair's frontier lies before the window of the last inserted block. */
  ghost predicate BacktestValid(t0: nat, st: State) {
    && Valid(t0, st)
    && forall a :: a in st.bars ==>
         FrontierOk(t0, st.bars[a]) && !BeforeFrontier(st.bars[a].lastFinalized, OwnWindow(t0, st.lastInserted.value))
  }

  lemma BacktestPairSucceeds(config: S.Config, t0: nat, st: State, block: Block, a: Address)
    requires BacktestValid(t0, st) && KeepsTwo(config) && a in block.pairTicks
    requires !IsReorg(st, block.number) && block.timestamp == BlockTime(t0, block.number)
    ensures var finalized := FinalizedWindow(true, block.timestamp, None);
            && InsertOk(config, st.bars, block, finalized, a)
            && var r := Inserted(config, st.bars, block, finalized, a).series;
               FrontierOk(t0, r) && !BeforeFrontier(r.lastFinalized, OwnWindow(t0, block.number))
  {
    hide FrontierOk;
    hide S.InsertData;
    hide S.PadFits;
    hide PastFrontier;
    hide AllBelow;
    var n := block.number;
    var s := Held(st.bars, a);
    var finalized := FinalizedWindow(true, block.timestamp, None);
    PairIsAhead(t0, st, n, a);
    var o := Sighting(n, block.pairTicks[a].tick, finalized);
    assert PastFrontier(t0, s, o) by { StepsBack(t0, s, n, o.tick); }
    SeeFailsIff(config, t0, s, o);
    InsertFits(t0, s, n);
  }

  lemma InsertFits(t0: nat, s: S.Series, n: nat)
    requires Clock(t0) && FrontierOk(t0, s) && AllBelow(s.data, n)
    ensures S.PadFits(s.data, n, BlockTime(t0, n))
  {
    hide Structural;
    PadShape(t0, s.data, n);
  }

  lemma StepsBack(t0: nat, s: S.Series, n: nat, tick: Tick)
    requires Clock(t0) && !BeforeFrontier(s.lastFinalized, OwnWindow(t0, n))
    ensures PastFrontier(t0, s, Sighting(n, tick, FinalizedWindow(true, BlockTime(t0, n), None)))
  {
  }

  lemma PairIsAhead(t0: nat, st: State, n: nat, a: Address)
    requires BacktestValid(t0, st) && !IsReorg(st, n)
    ensures var s := Held(st.bars, a);
            FrontierOk(t0, s) && AllBelow(s.data, n) && !BeforeFrontier(s.lastFinalized, OwnWindow(t0, n))
  {
    hide OwnWindow;
    EmptyIsOk(t0);
    if a in st.bars {
      WindowMonotone(t0, st.lastInserted.value, n);
    }
  }

  /** In a backtest a block after the last inserted one is never a reorg and always succeeds. */
  lemma BacktestBlockSucceeds(config: S.Config, t0: nat, st: State, block: Block)
    requires BacktestValid(t0, st) && KeepsTwo(config) && config.computeIndicators
    requires (st.lastInserted.Some? ==> st.lastInserted.value < block.number)
    requires block.timestamp == BlockTime(t0, block.number)
    ensures !IsReorg(st, block.number)
    ensures var finalized := FinalizedWindow(true, block.timestamp, None);
            && InsertBlockOk(config, st, block, finalized)
            && BacktestValid(t0, AfterBlock(config, st, block, finalized))
  {
    hide FrontierOk;
    hide Inserted;
    hide InsertOk;
    hide IsStale;
    hide OwnWindow;
    hide BeforeFrontier;
    hide FinalizedWindow, EndsIn, Invariant, AllBelow, S.IsStaleFits;
    var n := block.number;
    var finalized := FinalizedWindow(true, block.timestamp, None);
    forall a | a in block.pairTicks
      ensures InsertOk(config, st.bars, block, finalized, a)
    {
      BacktestPairSucceeds(config, t0, st, block, a);
    }
    InsertBlockKeepsValid(config, t0, st, block, finalized);
    forall a | a in AfterBlock(config, st, block, finalized).bars
      ensures var r := AfterBlock(config, st, block, finalized).bars[a];
              FrontierOk(t0, r) && !BeforeFrontier(r.lastFinalized, OwnWindow(t0, n))
    {
      if a in block.pairTicks {
        BacktestPairSucceeds(config, t0, st, block, a);
      } else {
        PairIsAhead(t0, st, n, a);
      }
    }
  }

  // ---- the struct -------------------------------------------------------------------------

  class TimePriceBarStore {
    const config: S.Config
    const isBacktest: bool
    var timePriceBars: AllBars
    var lastInsertedBlockNumber: Option<nat>
    var lastPrunedAtBlockNumber: Option<nat>

    constructor (retentionCount: nat, rounding: Rounding, isBacktest: bool)
      ensures View() == EmptyState && config == PairConfig(retentionCount, rounding) && this.isBacktest == isBacktest
    {
      config, this.isBacktest := PairConfig(retentionCount, rounding), isBacktest;
      timePriceBars, lastInsertedBlockNumber, lastPrunedAtBlockNumber := map[], None, None;
    }

    function View(): State
      reads this
    {
      State(timePriceBars, lastInsertedBlockNumber, lastPrunedAtBlockNumber)
    }

    /** Rolls every pair back, in whatever order; stops at the first failure. */
    method PruneAll(n: nat) returns (error: Option<S.Error>)
      modifies this`timePriceBars
      ensures error.None? <==> forall a :: a in old(timePriceBars) ==> Pruned(config, old(timePriceBars), a, n).error.None?
      ensures error.None? ==>
                timePriceBars == map a | a in old(timePriceBars) && Pruned(config, old(timePriceBars), a, n).series.data.Keys != {}
                                     :: Pruned(config, old(timePriceBars), a, n).series
      ensures error.Some? ==> exists done, failing ::
                RollbackStopsAt(config, old(timePriceBars), n, timePriceBars, error.value, done, failing)
    {
      hide S.PruneToReorgedBlockNumber;
      ghost var before := timePriceBars;
      var rest := timePriceBars.Keys;
      var toRemove: set<Address> := {};
      while rest != {}
        invariant timePriceBars.Keys == old(timePriceBars).Keys
        invariant rest <= timePriceBars.Keys && toRemove <= timePriceBars.Keys - rest
        invariant forall a :: a in timePriceBars ==>
                    if a in rest then timePriceBars[a] == old(timePriceBars)[a]
                    else
                      && Pruned(config, old(timePriceBars), a, n).error.None?
                      && timePriceBars[a] == Pruned(config, old(timePriceBars), a, n).series
                      && (a in toRemove <==> timePriceBars[a].data.Keys == {})
        decreases rest
      {
        var a :| a in rest;
        var bars := new TimePriceBars.TimePriceBars(config, timePriceBars[a]);
        error := bars.PruneToReorgedBlockNumber(n);
        timePriceBars := timePriceBars[a := bars.View()];
        if error.Some? {
          assert RollbackStopsAt(config, before, n, timePriceBars, error.value, before.Keys - rest, a);
          return;
        }
        if bars.data.Keys == {} {
          toRemove := toRemove + {a};
        }
        rest := rest - {a};
      }
      timePriceBars := timePriceBars - toRemove;
      error := None;
    }

    /** Inserts the block's pairs, in whatever order; stops at the first failure. */
    method InsertPairs(block: Block, finalized: Option<nat>) returns (error: Option<S.Error>)
      requires forall a :: a in block.pairTicks ==> Fits(timePriceBars, block, a)
      modifies this`timePriceBars
      ensures error.None? <==> forall a :: a in block.pairTicks ==> InsertOk(config, old(timePriceBars), block, finalized, a)
      ensures error.None? ==>
                timePriceBars == WithInserted(config, old(timePriceBars), block, finalized, block.pairTicks.Keys)
      ensures error.Some? ==> exists done, failing ::
                InsertStopsAt(config, old(timePriceBars), block, finalized, timePriceBars, error.value, done, failing)
    {
      hide S.InsertData, S.PadFits, WithInserted;
      ghost var before := timePriceBars;
      var done: set<Address> := {};
      NoneInserted(config, before, block, finalized);
      while done != block.pairTicks.Keys
        invariant done <= block.pairTicks.Keys
        invariant forall a :: a in done ==> InsertOk(config, before, block, finalized, a)
        invariant timePriceBars == WithInserted(config, before, block, finalized, done)
        decreases block.pairTicks.Keys - done
      {
        var a :| a in block.pairTicks && a !in done;
        OneMoreInserted(config, before, block, finalized, done, a);
        var bars := new TimePriceBars.TimePriceBars(config, Held(timePriceBars, a));
        error := bars.InsertData(block.number, block.pairTicks[a].tick, block.timestamp, finalized);
        timePriceBars := timePriceBars[a := bars.View()];
        if error.Some? {
          assert !InsertOk(config, before, block, finalized, a);
          assert InsertStopsAt(config, before, block, finalized, timePriceBars, error.value, done, a);
          return;
        }
        done := done + {a};
      }
      error := None;
    }

    /** Drops the pairs whose latest bar is too old. */
    method PruneStale(w: nat)
      requires forall a :: a in timePriceBars ==> S.IsStaleFits(timePriceBars[a].data, w)
      modifies this`timePriceBars
      ensures timePriceBars == WithoutStale(config, old(timePriceBars), w)
    {
      var rest := timePriceBars.Keys;
      var stale: set<Address> := {};
      while rest != {}
        invariant timePriceBars == old(timePriceBars) && rest <= timePriceBars.Keys
        invariant forall a :: a in stale <==> a in timePriceBars && a !in rest && IsStale(config, timePriceBars, a, w)
        decreases rest
      {
        var a :| a in rest;
        var bars := new TimePriceBars.TimePriceBars(config, timePriceBars[a]);
        var isStale := bars.IsStale(w);
        if isStale {
          stale := stale + {a};
        }
        rest := rest - {a};
      }
      timePriceBars := timePriceBars - stale;
    }

    /**
      `insert_block`. A rollback or an insert that fails for any pair fails the block, and leaves the
      pairs up to it changed.
     */
    method InsertBlock(block: Block, header: Option<nat>) returns (error: Option<S.Error>)
      requires FinalizedFits(isBacktest, block.timestamp, header)
      requires BlockFits(config, View(), block, FinalizedWindow(isBacktest, block.timestamp, header))
      modifies this
      ensures var finalized := FinalizedWindow(isBacktest, block.timestamp, header);
              && (error.None? <==> InsertBlockOk(config, old(View()), block, finalized))
              && (error.None? ==> View() == AfterBlock(config, old(View()), block, finalized))
              && (error.Some? ==> Stopped(config, old(View()), block, finalized, View(), error.value))
    {
      hide S.InsertData, S.PadFits, S.PruneToReorgedBlockNumber, S.IsStale, S.IsStaleFits;
      var w := Window(block.timestamp);
      var finalized := FinalizedWindow(isBacktest, block.timestamp, header);
      ghost var st := View();
      if lastInsertedBlockNumber.Some? && block.number <= lastInsertedBlockNumber.value {
        error := PruneAll(block.number);
        if error.Some? { return; }
      }
      assert timePriceBars == RolledBack(config, st, block.number);
      error := InsertPairs(block, finalized);
      if error.Some? { return; }
      if lastPrunedAtBlockNumber.None? {
        lastPrunedAtBlockNumber := Some(block.number);
      } else if block.number > lastPrunedAtBlockNumber.value + OFFSET / AVERAGE_BLOCK_TIME_SECONDS {
        PruneStale(w);
        lastPrunedAtBlockNumber := Some(block.number);
      }
      lastInsertedBlockNumber := Some(block.number);
    }
  }
}
