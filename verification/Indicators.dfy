/** The arithmetic of `resolution_timestamp.rs`; the only resolution is five minutes. */
module ResolutionTimestamp {
  const OFFSET: nat := 300
  const AVERAGE_BLOCK_TIME_SECONDS: nat := 2

  /** `from_timestamp`: the start of the window a timestamp falls in. */
  function Window(timestamp: nat): (w: nat)
    ensures Aligned(w) && w <= timestamp < w + OFFSET
  {
    timestamp - timestamp % 300
  }

  predicate Aligned(w: nat) {
    w % 300 == 0
  }

  /** The smallest window in which stepping twenty windows back stays above zero. */
  const FIRST_WINDOW: nat := 20 * OFFSET
}

/** Bollinger bands and the exponential moving average: `indicators.rs`. */
module Indicators {
  import opened Wrappers
  import opened TimePriceBar
  import opened FixedPoint
  import opened ResolutionTimestamp

  type Bars = map<nat, Bar>

  const BB_PERIOD: nat := 20
  const EMA_PERIOD: nat := 9

  /** 2 / (9 + 1) in fixed point; `test_ema` in the source expects 2 / 21. */
  const EMA_FACTOR: nat := 2 * ONE / (EMA_PERIOD + 1)

  /** The closes of all bars that have data. */
  function Closes(data: Bars): map<nat, nat> {
    map k | k in data && data[k].Data().Some? :: data[k].Data().value.close
  }

  /** The closes of the windows in `lo..=hi`, in window order. */
  function RangeCloses(closes: map<nat, nat>, lo: int, hi: int): seq<nat>
    decreases hi - lo
  {
    if hi < lo then []
    else RangeCloses(closes, lo, hi - 1) + if hi in closes then [closes[hi]] else []
  }

  function Sum(s: seq<nat>): nat {
    if s == [] then 0 else Sum(s[..|s| - 1]) + s[|s| - 1]
  }

  function SquaredDeviations(rounding: Rounding, s: seq<nat>, mean: nat): (r: seq<nat>)
    ensures |r| == |s|
  {
    if s == [] then []
    else
      SquaredDeviations(rounding, s[..|s| - 1], mean) + [Square(rounding, s[|s| - 1] - mean)]
  }

  /** The closes in the window and the nineteen before it. */
  function Prices(closes: map<nat, nat>, timestamp: nat): seq<nat> {
    RangeCloses(closes, timestamp - OFFSET * (BB_PERIOD - 1), timestamp)
  }

  function BollingerBand(rounding: Rounding, timestamp: nat, closes: map<nat, nat>): Option<Bands> {
    var prices := Prices(closes, timestamp);
    if |prices| != BB_PERIOD then None
    else
      var sma := Sum(prices) / BB_PERIOD;
      var variance := Sum(SquaredDeviations(rounding, prices, sma)) / BB_PERIOD;
      var width := 2 * Sqrt(variance);
      Some(Bands(sma, sma + width, if sma >= width then sma - width else 0))
  }

  function EmaStep(rounding: Rounding, close: nat, previous: int): int {
    Product(rounding, close - previous, EMA_FACTOR) + previous
  }

  /** The average and its slope, from the value cached in the previous window's bar. */
  function Ema(rounding: Rounding, timestamp: nat, data: Bars): (int, int) {
    if timestamp !in data then (0, 0)
    else if timestamp - OFFSET in data then
      var before := data[timestamp - OFFSET];
      var previous := if before.Indicators().Some? then before.Indicators().value.ema else before.Close();
      var ema := EmaStep(rounding, data[timestamp].Close(), previous);
      (ema, ema - previous)
    else (data[timestamp].Close(), 0)
  }

  function Compute(rounding: Rounding, timestamp: nat, data: Bars): Indicators {
    var ema := Ema(rounding, timestamp, data);
    IndicatorValues(BollingerBand(rounding, timestamp, Closes(data)), ema.0, ema.1)
  }

  // ---- from-scratch reference -------------------------------------------------------------

  /** The average recomputed from the closes alone, over the unbroken run of windows. */
  function BatchEma(rounding: Rounding, closes: map<nat, nat>, timestamp: nat): int
    decreases timestamp
  {
    if timestamp !in closes then 0
    else if timestamp - OFFSET in closes then
      EmaStep(rounding, closes[timestamp], BatchEma(rounding, closes, timestamp - OFFSET))
    else closes[timestamp]
  }

  function Batch(rounding: Rounding, closes: map<nat, nat>, timestamp: nat): Indicators {
    var ema := BatchEma(rounding, closes, timestamp);
    var slope := if timestamp in closes && timestamp - OFFSET in closes
      then ema - BatchEma(rounding, closes, timestamp - OFFSET) else 0;
    IndicatorValues(BollingerBand(rounding, timestamp, closes), ema, slope)
  }

  /** Two tables of closes that agree on every window up to `timestamp`. */
  ghost predicate AgreeUpTo(a: map<nat, nat>, b: map<nat, nat>, timestamp: int) {
    forall k: nat :: k <= timestamp ==> (k in a <==> k in b) && (k in a ==> a[k] == b[k])
  }

  lemma {:induction false} RangeClosesAgree(a: map<nat, nat>, b: map<nat, nat>, lo: int, hi: int)
    requires forall k: nat :: lo <= k <= hi ==> (k in a <==> k in b) && (k in a ==> a[k] == b[k])
    ensures RangeCloses(a, lo, hi) == RangeCloses(b, lo, hi)
    decreases hi - lo
  {
    if lo <= hi {
      RangeClosesAgree(a, b, lo, hi - 1);
    }
  }

  lemma {:induction false} BatchEmaAgree(rounding: Rounding, a: map<nat, nat>, b: map<nat, nat>, timestamp: nat)
    requires AgreeUpTo(a, b, timestamp)
    ensures BatchEma(rounding, a, timestamp) == BatchEma(rounding, b, timestamp)
    decreases timestamp
  {
    if timestamp >= OFFSET {
      BatchEmaAgree(rounding, a, b, timestamp - OFFSET);
    }
  }

  /** The indicators of a window depend on no later window. */
  lemma BatchAgree(rounding: Rounding, a: map<nat, nat>, b: map<nat, nat>, timestamp: nat)
    requires AgreeUpTo(a, b, timestamp)
    ensures Batch(rounding, a, timestamp) == Batch(rounding, b, timestamp)
  {
    hide RangeCloses, BatchEma, Sum, SquaredDeviations, Sqrt;
    RangeClosesAgree(a, b, timestamp - OFFSET * (BB_PERIOD - 1), timestamp);
    BatchEmaAgree(rounding, a, b, timestamp);
    if timestamp >= OFFSET {
      BatchEmaAgree(rounding, a, b, timestamp - OFFSET);
    }
  }

  /** Computing from the previous bar's cached value is computing from scratch. */
  lemma ComputeIsBatch(rounding: Rounding, timestamp: nat, data: Bars)
    requires timestamp in data && data[timestamp].Data().Some?
    requires timestamp - OFFSET in data ==>
               var before := data[timestamp - OFFSET];
               && before.Data().Some?
               && before.Indicators() == Some(Batch(rounding, Closes(data), timestamp - OFFSET))
    ensures Compute(rounding, timestamp, data) == Batch(rounding, Closes(data), timestamp)
  {
  }
}
