/**
  The operations of `time_price_bars.rs` as functions on the state of one pair's bars. The class
  `TimePriceBars.TimePriceBars` is proved to compute exactly these; everything else in this
  project about bars is proved about them.
 */
module BarSeries {
  import opened Wrappers
  import opened OrderedMaps
  import opened TickData
  import opened TimePriceBar
  import opened FixedPoint
  import opened ResolutionTimestamp
  import opened Indicators

  /** The settings a `TimePriceBars` is built with, and the rounding of its products. */
  datatype Config = Config(retentionCount: Option<nat>, computeIndicators: bool, rounding: Rounding)

  datatype Error =
    | MissingBar
    | ExpectedPending
    | NonContiguousBlock
    | BarIsFinalized
    | FailedToFinalize
    | PruneIntoEmptyBar
    | PruneIntoFinalizedBar

  datatype Series = Series(data: Bars, lastFinalized: Option<nat>)

  const EmptySeries := Series(map[], None)

  /** A failed operation leaves behind whatever it had changed before it failed. */
  datatype Outcome = Outcome(series: Series, error: Option<Error>)

  datatype BarsOutcome = BarsOutcome(data: Bars, error: Option<Error>)

  // ---- indicators -------------------------------------------------------------------------

  function UpdateIndicators(config: Config, data: Bars, timestamp: nat): BarsOutcome {
    if timestamp !in data then BarsOutcome(data, Some(MissingBar))
    else match data[timestamp]
      case FinalizedBar(_) => BarsOutcome(data, Some(ExpectedPending))
      case PendingBar(p) =>
        var indicators := Compute(config.rounding, timestamp, data);
        BarsOutcome(data[timestamp := PendingBar(p.(indicators := Some(indicators)))], None)
  }

  /** The loop over the updated windows, stopping at the first failure. */
  function UpdateAll(config: Config, data: Bars, updated: seq<nat>): BarsOutcome
    decreases |updated|
  {
    if updated == [] || !config.computeIndicators then BarsOutcome(data, None)
    else
      var first := UpdateIndicators(config, data, updated[0]);
      if first.error.Some? then first else UpdateAll(config, first.data, updated[1..])
  }

  // ---- insertion --------------------------------------------------------------------------

  /** The latest block and the tick to repeat, when blocks before `n` are missing. */
  function PadFrom(data: Bars, n: nat): Option<(nat, Tick)> {
    if data.Keys == {} then None
    else match data[MaxKey(data)]
      case PendingBar(p) =>
        if p.blocks.Keys == {} || MaxKey(p.blocks) + 1 == n then None
        else Some((MaxKey(p.blocks), p.blocks[MaxKey(p.blocks)]))
      case FinalizedBar(f) =>
        if f.endBlock + 1 == n then None else Some((f.endBlock, f.data))
  }

  /** The same tick at blocks `lo..hi` of the bar at `k`, which is created when missing. */
  function Upsert(data: Bars, k: nat, lo: nat, hi: nat, tick: Tick): Bars
    requires k in data ==> data[k].PendingBar?
  {
    var before := if k in data then data[k].pending.blocks else map[];
    data[k := PendingBar(WithBlocks(Filled(before, lo, hi, tick)))]
  }

  /** The window all padding goes to: every iteration computes the same timestamp. */
  function PadWindow(last: nat, n: nat, timestamp: nat): nat
    requires timestamp >= (n - last) * AVERAGE_BLOCK_TIME_SECONDS
  {
    Window(timestamp - (n - last) * AVERAGE_BLOCK_TIME_SECONDS)
  }

  /** The timestamp subtraction of the padding loop does not underflow. */
  predicate PadFits(data: Bars, n: nat, timestamp: nat) {
    match PadFrom(data, n)
    case None => true
    case Some((last, _)) => timestamp >= (n - last) * AVERAGE_BLOCK_TIME_SECONDS
  }

  datatype Padding = Padding(data: Bars, updated: seq<nat>)

  function Pad(data: Bars, n: nat, timestamp: nat): Padding
    requires PadFits(data, n, timestamp)
  {
    match PadFrom(data, n)
    case None => Padding(data, [])
    case Some((last, tick)) =>
      if last + 1 >= n then Padding(data, [])
      else
        var w := PadWindow(last, n, timestamp);
        if w in data && data[w].FinalizedBar? then Padding(data, [])
        else Padding(Upsert(data, w, last + 1, n, tick), [w])
  }

  function Place(data: Bars, n: nat, tick: Tick, w: nat): Result<Bars, Error> {
    if w !in data then Ok(Upsert(data, w, n, n + 1, tick))
    else match data[w]
      case FinalizedBar(_) => Err(BarIsFinalized)
      case PendingBar(p) =>
        if p.blocks.Keys == {} || MaxKey(p.blocks) + 1 == n then Ok(Upsert(data, w, n, n + 1, tick))
        else Err(NonContiguousBlock)
  }

  /** `pop_first` until at most `count` bars are left. */
  function PopTo(data: Bars, count: nat): Bars
    decreases data.Keys
  {
    if |data| <= count then data else
      assert data.Keys != {};
      PopTo(data - {MinKey(data)}, count)
  }

  function PruneToRetentionCount(data: Bars, retention: Option<nat>): Bars {
    match retention
    case None => data
    case Some(count) => PopTo(data, count)
  }

  // ---- finalization -----------------------------------------------------------------------

  /** The loop of `finalize_range` over the windows in `lo..=hi`, in order. */
  function FinalizeRange(data: Bars, lo: nat, hi: nat): BarsOutcome
    decreases hi - lo + 1
  {
    var range := set k | k in data.Keys && lo <= k <= hi;
    if range == {} then BarsOutcome(data, None)
    else
      var k := Min(range);
      match data[k]
      case FinalizedBar(_) => BarsOutcome(data, Some(ExpectedPending))
      case PendingBar(p) =>
        match AsFinalized(p)
        case None => BarsOutcome(data, Some(FailedToFinalize))
        case Some(f) => FinalizeRange(data[k := FinalizedBar(f)], k + 1, hi)
  }

  /** Moves the finalization frontier when `finalized` is ahead of it. */
  function Finalize(s: Series, finalized: Option<nat>): Outcome {
    if finalized.None? || (s.lastFinalized.Some? && finalized.value <= s.lastFinalized.value) then
      Outcome(s, None)
    else
      var lo := if s.lastFinalized.Some? then s.lastFinalized.value + OFFSET else 0;
      var r := FinalizeRange(s.data, lo, finalized.value);
      if r.error.Some? then Outcome(s.(data := r.data), r.error)
      else Outcome(Series(r.data, finalized), None)
  }

  /** `insert_data`. */
  function InsertData(config: Config, s: Series, n: nat, tick: Tick, timestamp: nat, finalized: Option<nat>): Outcome
    requires PadFits(s.data, n, timestamp)
  {
    var padded := Pad(s.data, n, timestamp);
    match Place(padded.data, n, tick, Window(timestamp))
    case Err(e) => Outcome(s.(data := padded.data), Some(e))
    case Ok(placed) =>
      var kept := PruneToRetentionCount(placed, config.retentionCount);
      var updated := UpdateAll(config, kept, padded.updated + [Window(timestamp)]);
      if updated.error.Some? then Outcome(s.(data := updated.data), updated.error)
      else Finalize(s.(data := updated.data), finalized)
  }

  // ---- reorg ------------------------------------------------------------------------------

  datatype Pruning = Pruning(data: Bars, pruned: Option<nat>, error: Option<Error>)

  /** One if the latest bar still holds a block at or above `n`. */
  function Overhang(data: Bars, n: nat): nat {
    if data.Keys == {} || !data[MaxKey(data)].HasBlocks() || data[MaxKey(data)].End() < n then 0 else 1
  }

  /** The loop of `prune_to_reorged_block_number`, from the latest bar down. */
  function PruneLoop(data: Bars, n: nat, pruned: Option<nat>): Pruning
    decreases |data|, Overhang(data, n)
  {
    if data.Keys == {} then Pruning(data, pruned, None)
    else
      var k := MaxKey(data);
      match data[k]
      case FinalizedBar(f) =>
        Pruning(data, pruned, if f.endBlock >= n then Some(PruneIntoFinalizedBar) else None)
      case PendingBar(p) =>
        if p.blocks.Keys == {} then Pruning(data, pruned, Some(PruneIntoEmptyBar))
        else if MinKey(p.blocks) >= n then
          assert (data - {k}).Keys == data.Keys - {k};
          PruneLoop(data - {k}, n, pruned)
        else if MaxKey(p.blocks) >= n then
          var cut := data[k := PendingBar(WithBlocks(Below(p.blocks, n)))];
          assert cut.Keys == data.Keys;
          PruneLoop(cut, n, Some(k))
        else Pruning(data, pruned, None)
  }

  function PruneToReorgedBlockNumber(config: Config, s: Series, n: nat): Outcome {
    var r := PruneLoop(s.data, n, None);
    if r.error.Some? then Outcome(s.(data := r.data), r.error)
    else if r.pruned.Some? && config.computeIndicators then
      var u := UpdateIndicators(config, r.data, r.pruned.value);
      Outcome(s.(data := u.data), u.error)
    else Outcome(s.(data := r.data), None)
  }

  // ---- staleness --------------------------------------------------------------------------

  /** `is_stale` subtracts in `u64`: the latest bar must not be later than `timestamp`. */
  predicate IsStaleFits(data: Bars, timestamp: nat) {
    data.Keys != {} ==> MaxKey(data) <= timestamp
  }

  predicate IsStale(config: Config, data: Bars, timestamp: nat)
    requires IsStaleFits(data, timestamp)
  {
    && config.retentionCount.Some?
    && (data.Keys == {} || (timestamp - MaxKey(data)) / OFFSET > config.retentionCount.value)
  }
}
