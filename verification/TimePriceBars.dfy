/** The struct `TimePriceBars`: each method computes the function of `BarSeries` it is named after. */
module TimePriceBars {
  import opened Wrappers
  import opened OrderedMaps
  import opened TickData
  import opened TimePriceBar
  import opened ResolutionTimestamp
  import opened Indicators
  import S = BarSeries

  class TimePriceBars {
    const config: S.Config
    var data: Bars
    var lastFinalizedTimestamp: Option<nat>

    constructor (config: S.Config, s: S.Series)
      ensures this.config == config && View() == s
    {
      this.config := config;
      data, lastFinalizedTimestamp := s.data, s.lastFinalized;
    }

    function View(): S.Series
      reads this
    {
      S.Series(data, lastFinalizedTimestamp)
    }

    method PruneToRetentionCount()
      modifies this`data
      ensures data == S.PruneToRetentionCount(old(data), config.retentionCount)
    {
      if config.retentionCount.Some? {
        while |data| > config.retentionCount.value
          invariant S.PopTo(data, config.retentionCount.value) == S.PopTo(old(data), config.retentionCount.value)
          decreases data.Keys
        {
          assert data.Keys != {};
          data := data - {MinKey(data)};
        }
      }
    }

    method UpdateIndicators(timestamp: nat) returns (error: Option<S.Error>)
      modifies this`data
      ensures S.BarsOutcome(data, error) == S.UpdateIndicators(config, old(data), timestamp)
    {
      var indicators := Compute(config.rounding, timestamp, data);
      if timestamp !in data { return Some(S.MissingBar); }
      match data[timestamp]
      case FinalizedBar(_) => return Some(S.ExpectedPending);
      case PendingBar(p) =>
        var bar := new PendingTimePriceBar(p);
        bar.SetIndicators(indicators);
        data := data[timestamp := PendingBar(bar.View())];
        return None;
    }

    method PruneToReorgedBlockNumber(n: nat) returns (error: Option<S.Error>)
      modifies this`data
      ensures S.Outcome(View(), error) == S.PruneToReorgedBlockNumber(config, old(View()), n)
    {
      var prunedTimestamp: Option<nat> := None;
      while data.Keys != {}
        invariant S.PruneLoop(data, n, prunedTimestamp) == S.PruneLoop(old(data), n, None)
        decreases |data|, S.Overhang(data, n)
      {
        var k := MaxKey(data);
        match data[k]
        case FinalizedBar(f) =>
          if f.endBlock >= n { return Some(S.PruneIntoFinalizedBar); }
          break;
        case PendingBar(p) =>
          if p.blocks.Keys == {} {
            return Some(S.PruneIntoEmptyBar);
          } else if MinKey(p.blocks) >= n {
            assert (data - {k}).Keys == data.Keys - {k};
            data := data - {k};
          } else if MaxKey(p.blocks) >= n {
            var bar := new PendingTimePriceBar(p);
            bar.PruneToReorgedBlockNumber(n);
            assert data[k := PendingBar(bar.View())].Keys == data.Keys;
            data := data[k := PendingBar(bar.View())];
            prunedTimestamp := Some(k);
          } else {
            break;
          }
      }
      if prunedTimestamp.Some? && config.computeIndicators {
        error := UpdateIndicators(prunedTimestamp.value);
      } else {
        error := None;
      }
    }

    /**
      The padding block of `insert_data`. The window to pad is never remembered, so the branch
      that would flush the blocks of an earlier window is dead code.
     */
    method Pad(n: nat, timestamp: nat) returns (updated: seq<nat>)
      requires S.PadFits(data, n, timestamp)
      modifies this`data
      ensures S.Padding(data, updated) == S.Pad(old(data), n, timestamp)
    {
      updated := [];
      var padFrom := S.PadFrom(data, n);
      if padFrom.Some? {
        var (last, tick) := padFrom.value;
        var numbers: seq<nat> := [];
        var toPad: Option<nat> := None;
        var b := last + 1;
        while b < n
          invariant last + 1 <= b
          invariant b <= n || n <= last
          invariant toPad.None?
          invariant b < n || n <= last + 1 ==> data == old(data) && updated == []
          invariant b < n ==> |numbers| == b - last - 1 && forall i :: 0 <= i < |numbers| ==> numbers[i] == last + 1 + i
          invariant b == n > last + 1 ==> S.Padding(data, updated) == S.Pad(old(data), n, timestamp)
        {
          var w := S.PadWindow(last, n, timestamp);
          if toPad != None && toPad != Some(w) {
            assert false;
          }
          numbers := numbers + [b];
          if b == n - 1 {
            if w !in data {
              data := data[w := PendingBar(EmptyPending)];
            }
            match data[w]
            case PendingBar(p) =>
              var bar := new PendingTimePriceBar(p);
              bar.InsertBlockPriceBarRange(numbers, tick, last + 1, n);
              data := data[w := PendingBar(bar.View())];
              updated := updated + [w];
              assert data == S.Upsert(old(data), w, last + 1, n, tick);
            case FinalizedBar(_) =>
          }
          b := b + 1;
        }
      }
    }

    method FinalizeRange(lo: nat, hi: nat) returns (error: Option<S.Error>)
      modifies this`data
      ensures S.BarsOutcome(data, error) == S.FinalizeRange(old(data), lo, hi)
    {
      var from := lo;
      while true
        invariant S.FinalizeRange(data, from, hi) == S.FinalizeRange(old(data), lo, hi)
        decreases hi - from + 1
      {
        var range := set k | k in data.Keys && from <= k <= hi;
        if range == {} { return None; }
        var k := Min(range);
        match data[k]
        case FinalizedBar(_) => return Some(S.ExpectedPending);
        case PendingBar(p) =>
          var finalized := AsFinalized(p);
          if finalized.None? { return Some(S.FailedToFinalize); }
          data := data[k := FinalizedBar(finalized.value)];
          from := k + 1;
      }
    }

    /** The step of `insert_data` that adds the new block to its window. */
    method Place(n: nat, tick: Tick, w: nat) returns (error: Option<S.Error>)
      modifies this`data
      ensures match S.Place(old(data), n, tick, w)
              case Ok(placed) => error == None && data == placed
              case Err(e) => error == Some(e) && data == old(data)
    {
      if w !in data {
        data := data[w := PendingBar(EmptyPending)];
      }
      match data[w] {
        case FinalizedBar(_) => error := Some(S.BarIsFinalized);
        case PendingBar(p) =>
          if p.blocks.Keys == {} || MaxKey(p.blocks) + 1 == n {
            var bar := new PendingTimePriceBar(p);
            bar.InsertBlockPriceBar(n, tick);
            data := data[w := PendingBar(bar.View())];
            assert Filled(p.blocks, n, n, tick) == p.blocks;
            assert data == S.Upsert(old(data), w, n, n + 1, tick);
            error := None;
          } else {
            error := Some(S.NonContiguousBlock);
          }
      }
    }

    method UpdateAll(updated: seq<nat>) returns (error: Option<S.Error>)
      modifies this`data
      ensures S.BarsOutcome(data, error) == S.UpdateAll(config, old(data), updated)
    {
      if config.computeIndicators {
        for i := 0 to |updated|
          invariant S.UpdateAll(config, data, updated[i..]) == S.UpdateAll(config, old(data), updated)
        {
          assert updated[i..][0] == updated[i] && updated[i..][1..] == updated[i + 1..];
          error := UpdateIndicators(updated[i]);
          if error.Some? { return; }
        }
      }
      error := None;
    }

    method Finalize(finalized: Option<nat>) returns (error: Option<S.Error>)
      modifies this
      ensures S.Outcome(View(), error) == S.Finalize(old(View()), finalized)
    {
      error := None;
      if finalized.Some? && (lastFinalizedTimestamp.None? || finalized.value > lastFinalizedTimestamp.value) {
        var lo := if lastFinalizedTimestamp.Some? then lastFinalizedTimestamp.value + OFFSET else 0;
        error := FinalizeRange(lo, finalized.value);
        if error.None? {
          lastFinalizedTimestamp := finalized;
        }
      }
    }

    method InsertData(n: nat, tick: Tick, timestamp: nat, finalized: Option<nat>) returns (error: Option<S.Error>)
      requires S.PadFits(data, n, timestamp)
      modifies this
      ensures S.Outcome(View(), error) == S.InsertData(config, old(View()), n, tick, timestamp, finalized)
    {
      var w := Window(timestamp);
      var updated := Pad(n, timestamp);
      error := Place(n, tick, w);
      if error.Some? { return; }
      PruneToRetentionCount();
      error := UpdateAll(updated + [w]);
      if error.Some? { return; }
      error := Finalize(finalized);
    }

    method IsStale(timestamp: nat) returns (stale: bool)
      requires S.IsStaleFits(data, timestamp)
      ensures stale == S.IsStale(config, data, timestamp)
      ensures stale <==> config.retentionCount.Some? && forall k :: k in data ==> k + 300 * (config.retentionCount.value + 1) <= timestamp
    {
      if config.retentionCount.None? { return false; }
      if data.Keys == {} { return true; }
      assert MaxKey(data) in data;
      stale := (timestamp - MaxKey(data)) / OFFSET > config.retentionCount.value;
    }
  }
}
