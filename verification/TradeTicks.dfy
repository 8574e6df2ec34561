/** The tick of one pair in one block, built trade by trade: the other half of `tick_data.rs`. */
module TradeTicks {
  import opened Wrappers
  import opened OrderedMaps
  import opened TickData

  /** What a trade reports for the token: its price before and after, and the ether moved. */
  datatype Trade = Trade(before: nat, after: nat, wethVolume: nat)

  function FromTrade(t: Trade): Tick {
    if t.before < t.after then Tick(t.before, t.after, t.before, t.after, t.wethVolume)
    else Tick(t.before, t.before, t.after, t.after, t.wethVolume)
  }

  /** Only one of the extremes is looked at. */
  function Added(tick: Tick, t: Trade): Tick {
    Tick(tick.open,
         if t.after > tick.high then t.after else tick.high,
         if t.after <= tick.high && t.after < tick.low then t.after else tick.low,
         t.after,
         tick.wethVolume + t.wethVolume)
  }

  /** The tick of a block with these trades. */
  function BlockTick(trades: seq<Trade>): Tick
    requires trades != []
    decreases |trades|
  {
    var n := |trades| - 1;
    if n == 0 then FromTrade(trades[0]) else Added(BlockTick(trades[..n]), trades[n])
  }

  /** The prices a block's tick has seen: that before its first trade, and that after each. */
  function Seen(trades: seq<Trade>): (r: seq<nat>)
    requires trades != []
    ensures |r| == |trades| + 1
  {
    [trades[0].before] + seq(|trades|, i requires 0 <= i < |trades| => trades[i].after)
  }

  function Volume(trades: seq<Trade>): nat {
    if trades == [] then 0 else Volume(trades[..|trades| - 1]) + trades[|trades| - 1].wethVolume
  }

  ghost predicate IsRange(low: nat, high: nat, prices: seq<nat>) {
    && (forall i :: 0 <= i < |prices| ==> low <= prices[i] <= high)
    && low in prices && high in prices
  }

  /** From the first price to the last, over the whole range of prices seen, with all the ether moved. */
  lemma {:induction false} BlockTickIsOhlc(trades: seq<Trade>)
    requires trades != []
    ensures var r := BlockTick(trades);
            && r.open == trades[0].before
            && r.close == trades[|trades| - 1].after
            && IsRange(r.low, r.high, Seen(trades))
            && r.wethVolume == Volume(trades)
    decreases |trades|
  {
    var n := |trades| - 1;
    if n == 0 {
      assert Seen(trades) == [trades[0].before, trades[0].after];
      assert Volume(trades[..n]) == 0;
    } else {
      BlockTickIsOhlc(trades[..n]);
      assert Seen(trades) == Seen(trades[..n]) + [trades[n].after];
    }
  }

  /** The same open, high, low and close. */
  predicate SameOhlc(a: Tick, b: Tick) {
    a.open == b.open && a.high == b.high && a.low == b.low && a.close == b.close
  }

  lemma SameRange(lowA: nat, highA: nat, lowB: nat, highB: nat, prices: seq<nat>)
    requires IsRange(lowA, highA, prices) && IsRange(lowB, highB, prices)
    ensures lowA == lowB && highA == highB
  {
  }

  // ---- a bar of many blocks ---------------------------------------------------------------

  /** The ticks of a bar's blocks, folded in order. */
  function FoldTicks(ticks: seq<Tick>): Option<Tick> {
    if ticks == [] then None else Some(Merge(FoldTicks(ticks[..|ticks| - 1]), ticks[|ticks| - 1]))
  }

  /**
    The block map of a bar that saw these ticks at these blocks: each tick is repeated over the
    blocks up to the next one, the last one up to `end`.
   */
  function BarBlocks(numbers: seq<nat>, ticks: seq<Tick>, end: nat): map<nat, Tick>
    requires |numbers| == |ticks|
  {
    if numbers == [] then map[]
    else
      var n := |numbers| - 1;
      Filled(BarBlocks(numbers[..n], ticks[..n], numbers[n]), numbers[n], end, ticks[n])
  }

  ghost predicate Ascending(numbers: seq<nat>, end: nat) {
    && (forall i, j :: 0 <= i < j < |numbers| ==> numbers[i] < numbers[j])
    && forall i :: 0 <= i < |numbers| ==> numbers[i] < end
  }

  lemma {:induction false} BarBlocksBelow(numbers: seq<nat>, ticks: seq<Tick>, end: nat)
    requires |numbers| == |ticks| && Ascending(numbers, end)
    ensures forall b :: b in BarBlocks(numbers, ticks, end) ==> b < end
    decreases |numbers|
  {
    if numbers != [] {
      var n := |numbers| - 1;
      BarBlocksBelow(numbers[..n], ticks[..n], numbers[n]);
    }
  }

  lemma RunOfOneTick(blocks: map<nat, Tick>, lo: nat, hi: nat, t: Tick)
    requires lo < hi && forall b :: b in blocks ==> b < lo
    ensures Reduce(Filled(blocks, lo, hi, t)) == Some(Merge(Reduce(blocks), t))
  {
    hide Reduce, Merge, Filled;
    var first := blocks[lo := t];
    assert lo in first.Keys;
    assert MaxKey(first) == lo;
    ReduceSnoc(blocks, lo, t);
    RepeatingLastKeepsReduce(first, lo + 1, hi);
    FilledFromFirst(blocks, lo, hi, t);
  }

  lemma FilledFromFirst(blocks: map<nat, Tick>, lo: nat, hi: nat, t: Tick)
    requires lo < hi
    ensures Filled(blocks[lo := t], lo + 1, hi, t) == Filled(blocks, lo, hi, t)
  {
    hide Filled;
    assert Filled(blocks[lo := t], lo + 1, hi, t).Keys == Filled(blocks, lo, hi, t).Keys;
  }

  /** Padding does not show: a bar's fold is that of the ticks of the blocks that were seen. */
  lemma {:induction false} PaddedBarFoldsTicks(numbers: seq<nat>, ticks: seq<Tick>, end: nat)
    requires |numbers| == |ticks| && Ascending(numbers, end)
    ensures Reduce(BarBlocks(numbers, ticks, end)) == FoldTicks(ticks)
    decreases |numbers|
  {
    hide Merge;
    if numbers != [] {
      var n := |numbers| - 1;
      BarBlocksBelow(numbers[..n], ticks[..n], numbers[n]);
      PaddedBarFoldsTicks(numbers[..n], ticks[..n], numbers[n]);
      RunOfOneTick(BarBlocks(numbers[..n], ticks[..n], numbers[n]), numbers[n], end, ticks[n]);
    }
  }

  /** Blocks that each hold at least one trade of the pair. */
  ghost predicate AllTraded(blocks: seq<seq<Trade>>) {
    blocks != [] && forall i :: 0 <= i < |blocks| ==> blocks[i] != []
  }

  function Ticks(blocks: seq<seq<Trade>>): (r: seq<Tick>)
    requires forall i :: 0 <= i < |blocks| ==> blocks[i] != []
    ensures |r| == |blocks| && forall i :: 0 <= i < |r| ==> r[i] == BlockTick(blocks[i])
  {
    seq(|blocks|, i requires 0 <= i < |blocks| => BlockTick(blocks[i]))
  }

  /** The price each block starts trading at. */
  function Firsts(blocks: seq<seq<Trade>>): (r: seq<nat>)
    requires forall i :: 0 <= i < |blocks| ==> blocks[i] != []
    ensures |r| == |blocks| && forall i :: 0 <= i < |r| ==> r[i] == blocks[i][0].before
  {
    seq(|blocks|, i requires 0 <= i < |blocks| => blocks[i][0].before)
  }

  /** The trades of all the blocks, in order. */
  function AllTrades(blocks: seq<seq<Trade>>): (r: seq<Trade>)
    ensures AllTraded(blocks) ==> r != []
  {
    if blocks == [] then [] else AllTrades(blocks[..|blocks| - 1]) + blocks[|blocks| - 1]
  }

  lemma {:induction false} AllTradesEnds(blocks: seq<seq<Trade>>)
    requires AllTraded(blocks)
    ensures AllTrades(blocks)[0] == blocks[0][0]
    ensures var last := blocks[|blocks| - 1];
            AllTrades(blocks)[|AllTrades(blocks)| - 1] == last[|last| - 1]
    decreases |blocks|
  {
    var n := |blocks| - 1;
    if n == 0 {
      assert AllTrades(blocks[..n]) == [];
    } else {
      AllTradesEnds(blocks[..n]);
    }
  }

  /** The same prices, however often and in whatever order. */
  ghost predicate SamePrices(a: seq<nat>, b: seq<nat>) {
    forall x: nat :: x in a <==> x in b
  }

  lemma {:induction false} SameElements(low: nat, high: nat, a: seq<nat>, b: seq<nat>)
    requires IsRange(low, high, a) && SamePrices(a, b)
    ensures IsRange(low, high, b)
  {
    forall i | 0 <= i < |b| ensures low <= b[i] <= high {
      assert b[i] in a;
    }
  }

  /** The range of two ranges merged. */
  lemma {:induction false} MergedRange(a: Tick, b: Tick, p: seq<nat>, q: seq<nat>)
    requires IsRange(a.low, a.high, p) && IsRange(b.low, b.high, q)
    ensures var r := Merge(Some(a), b); IsRange(r.low, r.high, p + q)
  {
    var i :| 0 <= i < |p| && p[i] == a.low;
    var j :| 0 <= j < |p| && p[j] == a.high;
    var k :| 0 <= k < |q| && q[k] == b.low;
    var l :| 0 <= l < |q| && q[l] == b.high;
    assert (p + q)[i] == a.low && (p + q)[j] == a.high;
    assert (p + q)[|p| + k] == b.low && (p + q)[|p| + l] == b.high;
  }

  lemma SeenJoined(a: seq<Trade>, b: seq<Trade>)
    requires a != [] && b != []
    ensures Seen(a + b) == Seen(a) + Seen(b)[1..]
  {
  }

  lemma {:induction false} BlockAddsItsPrices(blocks: seq<seq<Trade>>)
    requires AllTraded(blocks) && |blocks| > 1
    ensures var n := |blocks| - 1;
            SamePrices(Seen(AllTrades(blocks[..n])) + Firsts(blocks[..n]) + Seen(blocks[n]), Seen(AllTrades(blocks)) + Firsts(blocks))
  {
    var n := |blocks| - 1;
    SeenJoined(AllTrades(blocks[..n]), blocks[n]);
    assert Firsts(blocks) == Firsts(blocks[..n]) + [Seen(blocks[n])[0]];
    assert Seen(blocks[n]) == [Seen(blocks[n])[0]] + Seen(blocks[n])[1..];
  }

  lemma {:induction false} SingleBlock(blocks: seq<seq<Trade>>)
    requires AllTraded(blocks) && |blocks| == 1
    ensures FoldTicks(Ticks(blocks)) == Some(BlockTick(blocks[0]))
    ensures AllTrades(blocks) == blocks[0] && SamePrices(Seen(blocks[0]), Seen(blocks[0]) + Firsts(blocks))
  {
    hide BlockTick;
    assert FoldTicks(Ticks(blocks)[..0]) == None;
    assert AllTrades(blocks[..0]) == [];
    assert Firsts(blocks) == [Seen(blocks[0])[0]];
  }

  /** A bar spans the prices its trades saw, and the price each of its blocks starts at. */
  lemma {:induction false} FoldedRange(blocks: seq<seq<Trade>>)
    requires AllTraded(blocks)
    ensures var r := FoldTicks(Ticks(blocks));
            var last := blocks[|blocks| - 1];
            && r.Some?
            && r.value.open == blocks[0][0].before && r.value.close == last[|last| - 1].after
            && IsRange(r.value.low, r.value.high, Seen(AllTrades(blocks)) + Firsts(blocks))
    decreases |blocks|
  {
    hide BlockTick, Seen, Firsts, AllTrades, IsRange, SamePrices;
    var n := |blocks| - 1;
    var last := BlockTick(blocks[n]);
    BlockTickIsOhlc(blocks[n]);
    if n == 0 {
      SingleBlock(blocks);
      SameElements(last.low, last.high, Seen(blocks[n]), Seen(blocks[n]) + Firsts(blocks));
    } else {
      FoldedRange(blocks[..n]);
      assert Ticks(blocks)[..n] == Ticks(blocks[..n]);
      var before := FoldTicks(Ticks(blocks[..n])).value;
      var r := Merge(Some(before), last);
      var p := Seen(AllTrades(blocks[..n])) + Firsts(blocks[..n]);
      MergedRange(before, last, p, Seen(blocks[n]));
      BlockAddsItsPrices(blocks);
      SameElements(r.low, r.high, p + Seen(blocks[n]), Seen(AllTrades(blocks)) + Firsts(blocks));
    }
  }

  /**
    A bar, padded or not, is the OHLC of all the trades in it exactly when the price at which each of
    its blocks starts trading lies in the range those trades span.
   */
  lemma {:induction false} BarOfBlocksIsBarOfTradesIff(numbers: seq<nat>, blocks: seq<seq<Trade>>, end: nat)
    requires AllTraded(blocks) && |numbers| == |blocks| && Ascending(numbers, end)
    ensures var bar := Reduce(BarBlocks(numbers, Ticks(blocks), end));
            var all := BlockTick(AllTrades(blocks));
            && bar.Some?
            && (SameOhlc(bar.value, all) <==> forall i :: 0 <= i < |blocks| ==> all.low <= blocks[i][0].before <= all.high)
  {
    hide Reduce, BlockTick, Merge;
    var trades := AllTrades(blocks);
    var all := BlockTick(trades);
    PaddedBarFoldsTicks(numbers, Ticks(blocks), end);
    var bar := FoldTicks(Ticks(blocks)).value;
    FoldedRange(blocks);
    BlockTickIsOhlc(trades);
    AllTradesEnds(blocks);
    var both := Seen(trades) + Firsts(blocks);
    forall i | 0 <= i < |blocks| ensures bar.low <= blocks[i][0].before <= bar.high {
      assert both[|Seen(trades)| + i] == blocks[i][0].before;
    }
    if forall i :: 0 <= i < |blocks| ==> all.low <= blocks[i][0].before <= all.high {
      assert IsRange(all.low, all.high, both);
      SameRange(bar.low, bar.high, all.low, all.high, both);
    }
  }

  /** In particular when the reserves did not change between the blocks. */
  lemma {:induction false} QuietGapsKeepBar(numbers: seq<nat>, blocks: seq<seq<Trade>>, end: nat)
    requires AllTraded(blocks) && |numbers| == |blocks| && Ascending(numbers, end)
    requires forall i :: 0 < i < |blocks| ==> blocks[i][0].before == blocks[i - 1][|blocks[i - 1]| - 1].after
    ensures var bar := Reduce(BarBlocks(numbers, Ticks(blocks), end));
            bar.Some? && SameOhlc(bar.value, BlockTick(AllTrades(blocks)))
  {
    hide Reduce, BlockTick, BarBlocks;
    var trades := AllTrades(blocks);
    BlockTickIsOhlc(trades);
    AllTradesEnds(blocks);
    assert Seen(trades)[0] == blocks[0][0].before;
    forall i | 0 < i < |blocks| ensures blocks[i][0].before in Seen(trades) {
      LastPriceIsSeen(blocks, i - 1);
    }
    BarOfBlocksIsBarOfTradesIff(numbers, blocks, end);
  }

  /** The price a block ends at is among those its bar's trades saw. */
  lemma {:induction false} LastPriceIsSeen(blocks: seq<seq<Trade>>, i: nat)
    requires AllTraded(blocks) && i < |blocks|
    ensures blocks[i][|blocks[i]| - 1].after in Seen(AllTrades(blocks))
    decreases |blocks|
  {
    var n := |blocks| - 1;
    if i == n {
      AllTradesEnds(blocks);
      var trades := AllTrades(blocks);
      assert Seen(trades)[|trades|] == trades[|trades| - 1].after;
    } else {
      LastPriceIsSeen(blocks[..n], i);
      SeenJoined(AllTrades(blocks[..n]), blocks[n]);
    }
  }

  /** A bar widens when reserves change between its blocks without a trade, and the price comes back. */
  lemma {:induction false} BarCanBeWiderThanItsTrades(blocks: seq<seq<Trade>>, number: nat)
    requires blocks == [[Trade(5, 5, 0)], [Trade(9, 5, 0)]]
    ensures var bar := Reduce(BarBlocks([number, number + 1], Ticks(blocks), number + 2));
            bar.Some? && bar.value.high == 9 && BlockTick(AllTrades(blocks)).high == 5
  {
    hide Reduce, BarBlocks;
    var numbers := [number, number + 1];
    var ticks := Ticks(blocks);
    PaddedBarFoldsTicks(numbers, ticks, number + 2);
    assert ticks[..1] == [BlockTick(blocks[0])];
    assert FoldTicks(ticks[..1]) == Some(BlockTick(blocks[0])) by { assert FoldTicks(ticks[..1][..0]) == None; }
    assert FoldTicks(ticks) == Some(Merge(Some(BlockTick(blocks[0])), BlockTick(blocks[1])));
    assert blocks[..1][..0] == [];
    assert AllTrades(blocks[..1]) == [Trade(5, 5, 0)];
    var trades := AllTrades(blocks);
    assert trades == [Trade(5, 5, 0), Trade(9, 5, 0)];
    assert trades[..1] == [Trade(5, 5, 0)];
  }

  /** The struct the block builder updates in place. */
  class TradeTick {
    var open: nat
    var high: nat
    var low: nat
    var close: nat
    var wethVolume: nat

    function View(): Tick
      reads this
    {
      Tick(open, high, low, close, wethVolume)
    }

    constructor FromIndexedTrade(t: Trade)
      ensures View() == FromTrade(t)
    {
      var lowest, highest;
      if t.before < t.after {
        lowest, highest := t.before, t.after;
      } else {
        lowest, highest := t.after, t.before;
      }
      open, close := t.before, t.after;
      low, high := lowest, highest;
      wethVolume := t.wethVolume;
    }

    method AddIndexedTrade(t: Trade)
      modifies this
      ensures View() == Added(old(View()), t)
    {
      if t.after > high {
        high := t.after;
      } else if t.after < low {
        low := t.after;
      }
      close := t.after;
      wethVolume := wethVolume + t.wethVolume;
    }
  }

  /** Building a block's tick: the first trade creates it, the others update it. */
  method BuildTick(trades: seq<Trade>) returns (tick: TradeTick)
    requires trades != []
    ensures fresh(tick) && tick.View() == BlockTick(trades)
  {
    tick := new TradeTick.FromIndexedTrade(trades[0]);
    assert trades[..1] == [trades[0]];
    for i := 1 to |trades|
      invariant fresh(tick) && tick.View() == BlockTick(trades[..i])
    {
      tick.AddIndexedTrade(trades[i]);
      assert trades[..i + 1][..i] == trades[..i];
    }
    assert trades[..|trades|] == trades;
  }
}
