/** Price ticks and their fold into one bar: `tick_data.rs`. Prices are raw Q32.96 bits. */
module TickData {
  import opened Wrappers
  import opened OrderedMaps

  datatype Tick = Tick(open: nat, high: nat, low: nat, close: nat, wethVolume: nat)

  /** One step of the fold in `TickData::reduce`: the volume of the first tick is kept. */
  function Merge(acc: Option<Tick>, t: Tick): Tick {
    match acc
    case None => t
    case Some(a) =>
      a.(high := if t.high > a.high then t.high else a.high,
         low := if t.low < a.low then t.low else a.low,
         close := t.close)
  }

  /** `TickData::reduce` over the values of a block map in block order. */
  function Reduce(blocks: map<nat, Tick>): Option<Tick>
    decreases blocks.Keys
  {
    if blocks.Keys == {} then None
    else
      var k := MaxKey(blocks);
      Some(Merge(Reduce(blocks - {k}), blocks[k]))
  }

  /** Folding in a block later than all the others is one more step of the fold. */
  lemma ReduceSnoc(blocks: map<nat, Tick>, b: nat, t: Tick)
    requires forall j :: j in blocks ==> j < b
    ensures Reduce(blocks[b := t]) == Some(Merge(Reduce(blocks), t))
  {
    var m := blocks[b := t];
    assert b in m.Keys;
    assert MaxKey(m) == b;
    assert m - {b} == blocks;
  }

  /** The reading of a bar a chart makes: first open, highest high, lowest low, last close. */
  ghost predicate IsOhlc(r: Tick, blocks: map<nat, Tick>)
    requires blocks.Keys != {}
  {
    && r.open == blocks[MinKey(blocks)].open
    && r.wethVolume == blocks[MinKey(blocks)].wethVolume
    && r.close == blocks[MaxKey(blocks)].close
    && (forall b :: b in blocks ==> r.low <= blocks[b].low && blocks[b].high <= r.high)
    && (exists b :: b in blocks && blocks[b].high == r.high)
    && (exists b :: b in blocks && blocks[b].low == r.low)
  }

  lemma {:induction false} ReduceIsOhlc(blocks: map<nat, Tick>)
    requires blocks.Keys != {}
    ensures Reduce(blocks).Some? && IsOhlc(Reduce(blocks).value, blocks)
    decreases blocks.Keys
  {
    var k := MaxKey(blocks);
    var rest := blocks - {k};
    var r := Reduce(blocks).value;
    if rest.Keys == {} {
      assert Reduce(rest) == None;
      assert forall b :: b in blocks ==> b == k || b in rest.Keys;
      assert MinKey(blocks) == k;
      assert blocks[k].high == r.high && blocks[k].low == r.low;
    } else {
      ReduceIsOhlc(rest);
      var q := Reduce(rest).value;
      assert r == Merge(Some(q), blocks[k]);
      assert MinKey(rest) in blocks && MinKey(blocks) in rest;
      assert forall b :: b in blocks ==> b == k || b in rest;
      var h :| h in rest && rest[h].high == q.high;
      var l :| l in rest && rest[l].low == q.low;
      assert blocks[if r.high == q.high then h else k].high == r.high;
      assert blocks[if r.low == q.low then l else k].low == r.low;
    }
  }

  lemma LastTickIsAbsorbed(blocks: map<nat, Tick>)
    requires blocks.Keys != {}
    ensures Some(Merge(Reduce(blocks), blocks[MaxKey(blocks)])) == Reduce(blocks)
  {
    ReduceIsOhlc(blocks);
  }

  /** Repeating the last tick over further blocks changes nothing in the fold. */
  lemma {:induction false} RepeatingLastKeepsReduce(blocks: map<nat, Tick>, lo: nat, hi: nat)
    requires blocks.Keys != {} && MaxKey(blocks) < lo <= hi
    ensures Reduce(Filled(blocks, lo, hi, blocks[MaxKey(blocks)])) == Reduce(blocks)
    decreases hi - lo
  {
    hide Reduce, Merge;
    var t := blocks[MaxKey(blocks)];
    if lo == hi {
      assert Filled(blocks, lo, hi, t) == blocks;
    } else {
      RepeatingLastKeepsReduce(blocks, lo, hi - 1);
      var shorter := Filled(blocks, lo, hi - 1, t);
      ReduceSnoc(shorter, hi - 1, t);
      LastTickIsAbsorbed(blocks);
      assert shorter[hi - 1 := t] == Filled(blocks, lo, hi, t);
    }
  }
}
