/** One window's bar, pending or finalized: `time_price_bar.rs`. */
module TimePriceBar {
  import opened Wrappers
  import opened OrderedMaps
  import opened TickData

  /** Simple moving average with the two bands around it. */
  datatype Bands = Bands(sma: nat, upper: nat, lower: nat)

  datatype Indicators = IndicatorValues(bollingerBands: Option<Bands>, ema: int, slope: int)

  datatype Pending = Pending(data: Option<Tick>, indicators: Option<Indicators>, blocks: map<nat, Tick>)

  datatype Finalized = Finalized(data: Tick, indicators: Option<Indicators>, startBlock: nat, endBlock: nat)

  datatype Bar = PendingBar(pending: Pending) | FinalizedBar(finalized: Finalized) {

    function Data(): Option<Tick> {
      match this
      case PendingBar(p) => p.data
      case FinalizedBar(f) => Some(f.data)
    }

    function Indicators(): Option<Indicators> {
      match this
      case PendingBar(p) => p.indicators
      case FinalizedBar(f) => f.indicators
    }

    function Close(): nat {
      if Data().Some? then Data().value.close else 0
    }

    predicate HasBlocks() {
      PendingBar? ==> pending.blocks.Keys != {}
    }

    function Start(): nat
      requires HasBlocks()
    {
      if PendingBar? then MinKey(pending.blocks) else finalized.startBlock
    }

    function End(): nat
      requires HasBlocks()
    {
      if PendingBar? then MaxKey(pending.blocks) else finalized.endBlock
    }
  }

  const EmptyPending := Pending(None, None, map[])

  /** The bar after its block map became `blocks`: OHLC folded again, indicators dropped. */
  function WithBlocks(blocks: map<nat, Tick>): Pending {
    Pending(Reduce(blocks), None, blocks)
  }

  function AsFinalized(p: Pending): Option<Finalized> {
    if p.blocks.Keys != {} && p.data.Some? then
      Some(Finalized(p.data.value, p.indicators, MinKey(p.blocks), MaxKey(p.blocks)))
    else
      None
  }

  /** The struct the source updates in place; `View` is the value the bar map owns. */
  class PendingTimePriceBar {
    var data: Option<Tick>
    var indicators: Option<Indicators>
    var blockPriceBars: map<nat, Tick>

    constructor (p: Pending)
      ensures View() == p
    {
      data, indicators, blockPriceBars := p.data, p.indicators, p.blocks;
    }

    function View(): Pending
      reads this
    {
      Pending(data, indicators, blockPriceBars)
    }

    method PruneToReorgedBlockNumber(n: nat)
      modifies this
      ensures View() == WithBlocks(Below(old(blockPriceBars), n))
    {
      while blockPriceBars.Keys != {}
        invariant forall b :: b in blockPriceBars ==> b in old(blockPriceBars) && blockPriceBars[b] == old(blockPriceBars)[b]
        invariant forall b :: b in old(blockPriceBars) && b < n ==> b in blockPriceBars
        decreases blockPriceBars.Keys
      {
        var last := MaxKey(blockPriceBars);
        if last < n { break; }
        blockPriceBars := blockPriceBars - {last};
      }
      assert blockPriceBars == Below(old(blockPriceBars), n);
      data := Reduce(blockPriceBars);
      indicators := None;
    }

    method SetIndicators(i: Indicators)
      modifies this
      ensures View() == old(View()).(indicators := Some(i))
    {
      indicators := Some(i);
    }

    /** `numbers` is the drained vector of block numbers to pad. */
    method InsertBlockPriceBarRange(numbers: seq<nat>, tick: Tick, ghost lo: nat, ghost hi: nat)
      requires lo <= hi && |numbers| == hi - lo
      requires forall i :: 0 <= i < |numbers| ==> numbers[i] == lo + i
      modifies this
      ensures View() == WithBlocks(Filled(old(blockPriceBars), lo, hi, tick))
    {
      hide Reduce;
      for i := 0 to |numbers|
        invariant blockPriceBars == Filled(old(blockPriceBars), lo, lo + i, tick)
      {
        blockPriceBars := blockPriceBars[numbers[i] := tick];
      }
      data := Reduce(blockPriceBars);
      indicators := None;
    }

    method InsertBlockPriceBar(n: nat, tick: Tick)
      modifies this
      ensures View() == WithBlocks(old(blockPriceBars)[n := tick])
    {
      blockPriceBars := blockPriceBars[n := tick];
      data := Reduce(blockPriceBars);
      indicators := None;
    }
  }
}
