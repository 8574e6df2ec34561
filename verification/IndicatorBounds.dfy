/** What the cached indicators of any reachable series mean, whatever the rounding of products. */
module IndicatorBounds {
  import opened Wrappers
  import opened TimePriceBar
  import opened FixedPoint
  import opened ResolutionTimestamp
  import opened Indicators
  import opened ExactIndicators
  import opened BarSeries
  import opened SeriesInvariants
  import opened CachedIndicators
  import opened SeriesRuns
  import opened Retention

  /** The closes of the unbroken run of windows that ends at `timestamp`. */
  function RunCloses(closes: map<nat, nat>, timestamp: nat): seq<nat>
    decreases timestamp
  {
    if timestamp !in closes then []
    else (if timestamp - OFFSET in closes then RunCloses(closes, timestamp - OFFSET) else []) + [closes[timestamp]]
  }

  ghost predicate Between(lo: int, s: seq<nat>, hi: int) {
    forall i :: 0 <= i < |s| ==> lo <= s[i] <= hi
  }

  /** A step moves the average towards the close, and not past it. */
  lemma EmaStepBetween(rounding: Rounding, close: nat, previous: int)
    ensures var ema := EmaStep(rounding, close, previous);
            && (previous <= close ==> previous <= ema <= close)
            && (close <= previous ==> close <= ema <= previous)
  {
    ProductShrinks(rounding, close - previous, EMA_FACTOR);
  }

  /** The average lies between the lowest and highest close of the run of windows feeding it. */
  lemma {:induction false} EmaWithinRun(rounding: Rounding, closes: map<nat, nat>, timestamp: nat, lo: int, hi: int)
    requires timestamp in closes && Between(lo, RunCloses(closes, timestamp), hi)
    ensures lo <= BatchEma(rounding, closes, timestamp) <= hi
    decreases timestamp
  {
    var run := RunCloses(closes, timestamp);
    assert run[|run| - 1] == closes[timestamp];
    if timestamp - OFFSET in closes {
      var before := RunCloses(closes, timestamp - OFFSET);
      assert forall i :: 0 <= i < |before| ==> before[i] == run[i];
      EmaWithinRun(rounding, closes, timestamp - OFFSET, lo, hi);
      EmaStepBetween(rounding, closes[timestamp], BatchEma(rounding, closes, timestamp - OFFSET));
    }
  }

  /** The slope has the sign of the close's distance from the previous average, and is no larger. */
  lemma SlopeSign(rounding: Rounding, closes: map<nat, nat>, timestamp: nat)
    requires timestamp in closes && timestamp - OFFSET in closes
    ensures var move := closes[timestamp] - BatchEma(rounding, closes, timestamp - OFFSET);
            var slope := Batch(rounding, closes, timestamp).slope;
            (move >= 0 ==> 0 <= slope <= move) && (move <= 0 ==> move <= slope <= 0)
  {
    EmaStepBetween(rounding, closes[timestamp], BatchEma(rounding, closes, timestamp - OFFSET));
  }

  // ---- bands ------------------------------------------------------------------------------

  lemma {:induction false} SumBetween(s: seq<nat>, lo: int, hi: int)
    requires Between(lo, s, hi)
    ensures lo * |s| <= Sum(s) <= hi * |s|
    decreases |s|
  {
    if s != [] {
      var front := s[..|s| - 1];
      SumBetween(front, lo, hi);
      assert lo * |s| == lo * |front| + lo && hi * |s| == hi * |front| + hi;
    }
  }

  /** The twenty windows up to and including `timestamp`. */
  ghost predicate TwentyWindows(closes: map<nat, nat>, timestamp: nat) {
    forall i: nat :: i < BB_PERIOD ==> timestamp - OFFSET * i in closes
  }

  /** The closes in `m` windows up to `hi`, when keys are window starts. */
  lemma {:induction false} RangeClosesCount(closes: map<nat, nat>, hi: int, m: nat)
    requires forall k :: k in closes ==> Aligned(k)
    requires hi % 300 == 0
    ensures |RangeCloses(closes, hi - 300 * m, hi)| <= m + 1
    ensures |RangeCloses(closes, hi - 300 * m, hi)| == m + 1 <==> forall i: nat :: i <= m ==> hi - 300 * i in closes
    decreases m
  {
    RangeClosesSkip(closes, hi - 300 * m, hi);
    if m == 0 {
      assert RangeCloses(closes, hi, hi - 1) == [];
      assert RangeCloses(closes, hi, hi) == if hi in closes then [closes[hi]] else [];
      if hi in closes {
        forall i: nat | i <= m ensures hi - 300 * i in closes { assert i == 0; }
      } else {
        assert hi - 300 * 0 !in closes;
      }
    } else {
      RangeClosesCount(closes, hi - 300, m - 1);
      var rest := RangeCloses(closes, hi - 300 * m, hi - 300);
      assert hi - 300 - 300 * (m - 1) == hi - 300 * m;
      assert |RangeCloses(closes, hi - 300 * m, hi)| == |rest| + if hi in closes then 1 else 0;
      if |RangeCloses(closes, hi - 300 * m, hi)| == m + 1 {
        forall i: nat | i <= m ensures hi - 300 * i in closes {
          if i > 0 { assert hi - 300 - 300 * (i - 1) == hi - 300 * i; }
        }
      } else if forall i: nat :: i <= m ==> hi - 300 * i in closes {
        assert hi - 300 * 0 in closes;
        forall i: nat | i <= m - 1 ensures hi - 300 - 300 * i in closes {
          assert hi - 300 * (i + 1) in closes;
        }
        assert false;
      }
    }
  }

  /** No key lies strictly between two window starts. */
  lemma RangeClosesSkip(closes: map<nat, nat>, lo: int, hi: int)
    requires forall k :: k in closes ==> Aligned(k)
    requires hi % 300 == 0 && lo <= hi
    ensures lo <= hi - 300 ==>
              RangeCloses(closes, lo, hi) == RangeCloses(closes, lo, hi - 300) + if hi in closes then [closes[hi]] else []
  {
    if lo <= hi - 300 {
      SkipTo(closes, lo, hi - 300, hi - 1);
    }
  }

  lemma {:induction false} SkipTo(closes: map<nat, nat>, lo: int, base: int, x: int)
    requires forall k :: k in closes ==> Aligned(k)
    requires base % 300 == 0 && lo <= base <= x < base + 300
    ensures RangeCloses(closes, lo, x) == RangeCloses(closes, lo, base)
    decreases x - base
  {
    if x > base {
      SkipTo(closes, lo, base, x - 1);
      assert x % 300 != 0;
    }
  }

  /** The bands lie around the average, at equal distances unless the lower one is cut off at zero. */
  predicate AroundAverage(b: Bands) {
    && b.lower <= b.sma <= b.upper
    && (b.sma - b.lower == b.upper - b.sma || (b.lower == 0 && b.sma < b.upper - b.sma))
  }

  /**
    There are bands exactly when all twenty windows have a close. The average then lies between the
    lowest and highest of the twenty, and the bands lie around it, at equal distances unless the
    lower one is cut off at zero.
   */
  lemma BandsBounds(rounding: Rounding, timestamp: nat, closes: map<nat, nat>)
    requires Aligned(timestamp) && forall k :: k in closes ==> Aligned(k)
    ensures var bands := BollingerBand(rounding, timestamp, closes);
            var prices := Prices(closes, timestamp);
            && (bands.Some? <==> TwentyWindows(closes, timestamp))
            && (bands.Some? ==>
                  var b := bands.value;
                  && |prices| == BB_PERIOD
                  && (forall lo, hi :: Between(lo, prices, hi) ==> lo <= b.sma <= hi)
                  && AroundAverage(b))
  {
    RangeClosesCount(closes, timestamp, BB_PERIOD - 1);
    assert timestamp - OFFSET * (BB_PERIOD - 1) == timestamp - 300 * (BB_PERIOD - 1);
    var prices := Prices(closes, timestamp);
    forall lo, hi | Between(lo, prices, hi) ensures |prices| == BB_PERIOD ==> lo <= Sum(prices) / BB_PERIOD <= hi {
      SumBetween(prices, lo, hi);
    }
  }

  // ---- no intermediate overflows ----------------------------------------------------------

  /** The largest whole price for which no intermediate overflows, and the ranges of `U32F96` and `I32F96`. */
  const WHOLE_LIMIT: nat := 29308
  const PRICE_LIMIT: nat := WHOLE_LIMIT * ONE
  const U_LIMIT: nat := 0x1_0000_0000_0000_0000_0000_0000_0000_0000
  const I_LIMIT: nat := 0x8000_0000_0000_0000_0000_0000_0000_0000

  lemma SquareMonotone(a: nat, b: nat)
    requires a <= b
    ensures a * a <= b * b
    ensures a < b ==> a * a < b * b
  {
    assert a * a <= a * b <= b * b;
    if a < b && b > 0 { assert a * b < b * b; }
  }

  /** A rounded square is less than one unit away from the exact one. */
  lemma SquareIsClose(rounding: Rounding, p: int)
    ensures p * p - ONE < Square(rounding, p) * ONE < p * p + ONE
  {
    ProductIsClose(rounding, p, p);
  }

  lemma SquareBound(rounding: Rounding, p: int)
    requires p <= PRICE_LIMIT && -p <= PRICE_LIMIT
    ensures Square(rounding, p) < I_LIMIT
  {
    var a: nat := if p >= 0 then p else -p;
    SquareMonotone(a, PRICE_LIMIT);
    assert p * p == a * a;
    SquareIsClose(rounding, p);
    assert Square(rounding, p) * ONE < PRICE_LIMIT * PRICE_LIMIT + ONE;
  }

  lemma {:induction false} SquaresBound(rounding: Rounding, s: seq<nat>, mean: nat)
    requires Between(0, s, PRICE_LIMIT) && mean <= PRICE_LIMIT
    ensures forall i :: 0 <= i < |s| ==> SquaredDeviations(rounding, s, mean)[i] < I_LIMIT
    decreases |s|
  {
    if s != [] {
      var front := s[..|s| - 1];
      SquaresBound(rounding, front, mean);
      SquareBound(rounding, s[|s| - 1] - mean);
    }
  }

  lemma DeviationBound(x: nat, mean: nat, limit: nat)
    requires x <= limit
    ensures (x - mean) * (x - mean) <= limit * x - 2 * mean * x + mean * mean
  {
    assert x * x <= limit * x;
    assert (x - mean) * (x - mean) == x * x - 2 * mean * x + mean * mean;
  }

  /** The squared deviations from any value, summed, of prices up to a limit. */
  lemma {:induction false} SumOfSquaresBound(rounding: Rounding, s: seq<nat>, mean: nat, limit: nat)
    requires Between(0, s, limit)
    ensures Sum(SquaredDeviations(rounding, s, mean)) * ONE <= limit * Sum(s) - 2 * mean * Sum(s) + |s| * (mean * mean) + |s| * ONE
    decreases |s|
  {
    if s != [] {
      var front, x := s[..|s| - 1], s[|s| - 1];
      SumOfSquaresBound(rounding, front, mean, limit);
      DeviationBound(x, mean, limit);
      SquareIsClose(rounding, x - mean);
      var squares := SquaredDeviations(rounding, s, mean);
      assert squares[..|s| - 1] == SquaredDeviations(rounding, front, mean);
      SumStep(limit, mean, Sum(front), x, |front|);
    }
  }

  lemma SumStep(limit: nat, mean: nat, sum: nat, x: nat, n: nat)
    ensures limit * (sum + x) - 2 * mean * (sum + x) + (n + 1) * (mean * mean) + (n + 1) * ONE ==
            (limit * sum - 2 * mean * sum + n * (mean * mean) + n * ONE) + (limit * x - 2 * mean * x + mean * mean) + ONE
  {
    assert limit * (sum + x) == limit * sum + limit * x;
    assert 2 * mean * (sum + x) == 2 * mean * sum + 2 * mean * x;
    assert (n + 1) * (mean * mean) == n * (mean * mean) + mean * mean;
  }

  lemma HalfwayIsMost(limit: nat, mean: nat)
    ensures 20 * (limit * mean) - 20 * (mean * mean) <= 5 * (limit * limit)
  {
    var d := limit - 2 * mean;
    assert d * d == limit * limit - 4 * (limit * mean) + 4 * (mean * mean);
    assert d * d >= 0;
  }

  lemma Expand(limit: nat, mean: nat, rest: nat)
    requires rest < 20
    ensures limit * (20 * mean + rest) <= 20 * (limit * mean) + 19 * limit
    ensures 2 * mean * (20 * mean + rest) >= 40 * (mean * mean)
  {
    assert limit * (20 * mean + rest) == 20 * (limit * mean) + limit * rest;
    assert limit * rest <= limit * 19;
    assert 2 * mean * (20 * mean + rest) == 40 * (mean * mean) + 2 * (mean * rest);
    assert mean * rest >= 0;
  }

  /** Around their own mean, twenty prices deviate the most when half of them are zero and half at the limit. */
  lemma SpreadBound(limit: nat, sum: nat)
    ensures var mean := sum / BB_PERIOD;
            limit * sum - 2 * mean * sum + BB_PERIOD * (mean * mean) <= 5 * (limit * limit) + 19 * limit
  {
    var mean, rest := sum / BB_PERIOD, sum % BB_PERIOD;
    assert sum == 20 * mean + rest;
    Expand(limit, mean, rest);
    HalfwayIsMost(limit, mean);
  }

  lemma ScaledSquare(q: nat)
    ensures (q * q * ONE) * ONE == (q * ONE) * (q * ONE)
  {
  }

  lemma RootBound(v: nat, q: nat)
    requires v <= q * q * ONE
    ensures Sqrt(v) <= q * ONE
  {
    var r := Sqrt(v);
    ScaledSquare(q);
    if r > q * ONE {
      SquareMonotone(q * ONE, r);
    }
  }

  lemma {:induction false} RangeClosesBetween(closes: map<nat, nat>, lo: int, hi: int, limit: nat)
    requires forall k :: k in closes ==> closes[k] <= limit
    ensures Between(0, RangeCloses(closes, lo, hi), limit)
    decreases hi - lo
  {
    if lo <= hi { RangeClosesBetween(closes, lo, hi - 1, limit); }
  }

  lemma {:induction false} RunClosesBetween(closes: map<nat, nat>, timestamp: nat, limit: nat)
    requires forall k :: k in closes ==> closes[k] <= limit
    ensures Between(0, RunCloses(closes, timestamp), limit)
    decreases timestamp
  {
    if timestamp in closes && timestamp - OFFSET in closes { RunClosesBetween(closes, timestamp - OFFSET, limit); }
  }

  /** Twenty squared deviations of prices up to the limit add up to less than 2^32. */
  lemma SumOfSquaresFits(rounding: Rounding, prices: seq<nat>)
    requires |prices| == BB_PERIOD && Between(0, prices, PRICE_LIMIT)
    ensures Sum(SquaredDeviations(rounding, prices, Sum(prices) / BB_PERIOD)) < U_LIMIT
  {
    var mean := Sum(prices) / BB_PERIOD;
    SumBetween(prices, 0, PRICE_LIMIT);
    SumOfSquaresBound(rounding, prices, mean, PRICE_LIMIT);
    SpreadBound(PRICE_LIMIT, Sum(prices));
    var squares := Sum(SquaredDeviations(rounding, prices, mean));
    assert squares * ONE <= 5 * (PRICE_LIMIT * PRICE_LIMIT) + 19 * PRICE_LIMIT + 20 * ONE;
  }

  /**
    While prices stay at or below 29308, every value the indicators compute on the way fits its
    128-bit type: sums and bands the unsigned one, deviations, squares and averages the signed one.
   */
  lemma IntermediatesFit(rounding: Rounding, timestamp: nat, closes: map<nat, nat>)
    requires timestamp in closes && forall k :: k in closes ==> closes[k] <= PRICE_LIMIT
    ensures 0 <= BatchEma(rounding, closes, timestamp) < I_LIMIT
    ensures var prices := Prices(closes, timestamp);
            |prices| == BB_PERIOD ==>
              var sma := Sum(prices) / BB_PERIOD;
              var squares := SquaredDeviations(rounding, prices, sma);
              && Sum(prices) < U_LIMIT
              && (forall i :: 0 <= i < BB_PERIOD ==> prices[i] - sma < I_LIMIT && sma - prices[i] < I_LIMIT && squares[i] < I_LIMIT)
              && Sum(squares) < U_LIMIT
              && sma + 2 * Sqrt(Sum(squares) / BB_PERIOD) < U_LIMIT
    ensures var bands := BollingerBand(rounding, timestamp, closes);
            bands.Some? ==> bands.value.lower <= bands.value.sma <= bands.value.upper < U_LIMIT
  {
    hide BatchEma, SquaredDeviations;
    RunClosesBetween(closes, timestamp, PRICE_LIMIT);
    EmaWithinRun(rounding, closes, timestamp, 0, PRICE_LIMIT);
    var prices := Prices(closes, timestamp);
    if |prices| == BB_PERIOD {
      RangeClosesBetween(closes, timestamp - OFFSET * (BB_PERIOD - 1), timestamp, PRICE_LIMIT);
      SumBetween(prices, 0, PRICE_LIMIT);
      var sma := Sum(prices) / BB_PERIOD;
      SquaresBound(rounding, prices, sma);
      SumOfSquaresFits(rounding, prices);
      RootBound(Sum(SquaredDeviations(rounding, prices, sma)) / BB_PERIOD, 14655);
    }
  }

  // ---- and the limit is sharp -------------------------------------------------------------

  /** The closes of consecutive windows, in window order. */
  lemma {:induction false} RangeClosesAt(closes: map<nat, nat>, hi: int, m: nat)
    requires forall k :: k in closes ==> Aligned(k)
    requires hi % 300 == 0 && forall i: nat :: i <= m ==> hi - 300 * i in closes
    ensures var r := RangeCloses(closes, hi - 300 * m, hi);
            |r| == m + 1 && forall i: nat :: i <= m ==> r[m - i] == closes[hi - 300 * i]
    decreases m
  {
    RangeClosesSkip(closes, hi - 300 * m, hi);
    assert hi - 300 * 0 in closes;
    if m == 0 {
      assert RangeCloses(closes, hi, hi - 1) == [];
    } else {
      forall i: nat | i <= m - 1 ensures hi - 300 - 300 * i in closes {
        assert hi - 300 * (i + 1) in closes;
      }
      RangeClosesAt(closes, hi - 300, m - 1);
      var rest := RangeCloses(closes, hi - 300 - 300 * (m - 1), hi - 300);
      var r := RangeCloses(closes, hi - 300 * m, hi);
      assert hi - 300 - 300 * (m - 1) == hi - 300 * m;
      assert r == rest + [closes[hi]];
      forall i: nat | i <= m ensures r[m - i] == closes[hi - 300 * i] {
        if i > 0 {
          assert rest[m - 1 - (i - 1)] == closes[hi - 300 - 300 * (i - 1)];
          assert hi - 300 - 300 * (i - 1) == hi - 300 * i;
        }
      }
    }
  }

  lemma {:induction false} SumJoin(a: seq<nat>, b: seq<nat>)
    ensures Sum(a + b) == Sum(a) + Sum(b)
    decreases |b|
  {
    if b == [] {
      assert a + b == a;
    } else {
      SumJoin(a, b[..|b| - 1]);
      assert (a + b)[..|a + b| - 1] == a + b[..|b| - 1];
    }
  }

  lemma {:induction false} SquaresAt(rounding: Rounding, s: seq<nat>, mean: nat, i: nat)
    requires i < |s|
    ensures SquaredDeviations(rounding, s, mean)[i] == Square(rounding, s[i] - mean)
    decreases |s|
  {
    if i < |s| - 1 {
      SquaresAt(rounding, s[..|s| - 1], mean, i);
    }
  }

  lemma HalvesOverflow(rounding: Rounding, prices: seq<nat>, mean: nat)
    requires |prices| == BB_PERIOD && 2 * mean == (WHOLE_LIMIT + 1) * ONE
    requires forall j :: 0 <= j < BB_PERIOD ==> prices[j] == 0 || prices[j] == 2 * mean
    ensures Sum(SquaredDeviations(rounding, prices, mean)) >= U_LIMIT
  {
    var squares := SquaredDeviations(rounding, prices, mean);
    var square := Square(rounding, mean);
    SquareIsClose(rounding, mean);
    SquareIsClose(rounding, 0 - mean);
    assert (0 - mean) * (0 - mean) == mean * mean;
    forall j | 0 <= j < |squares| ensures square <= squares[j] <= square {
      SquaresAt(rounding, prices, mean, j);
    }
    SumBetween(squares, square, square);
  }

  lemma {:induction false} HalvesSum(prices: seq<nat>, low: nat, top: nat)
    requires |prices| == BB_PERIOD && forall j :: 0 <= j < BB_PERIOD ==> prices[j] == if j < 10 then low else top
    ensures Sum(prices) == 10 * low + 10 * top
  {
    assert prices == prices[..10] + prices[10..];
    SumJoin(prices[..10], prices[10..]);
    SumBetween(prices[..10], low, low);
    SumBetween(prices[10..], top, top);
  }

  /** The prices of the bands are the closes of the twenty windows, the latest one last. */
  ghost predicate ArePrices(closes: map<nat, nat>, timestamp: nat, s: seq<nat>) {
    |s| == 20 && forall i: nat :: i < 20 ==> timestamp - 300 * i in closes && s[19 - i] == closes[timestamp - 300 * i]
  }

  lemma TwentyPrices(closes: map<nat, nat>, timestamp: nat)
    requires Aligned(timestamp) && (forall k :: k in closes ==> Aligned(k)) && TwentyWindows(closes, timestamp)
    ensures ArePrices(closes, timestamp, Prices(closes, timestamp))
  {
    RangeClosesAt(closes, timestamp, BB_PERIOD - 1);
    assert timestamp - OFFSET * (BB_PERIOD - 1) == timestamp - 300 * (BB_PERIOD - 1);
    forall i: nat | i < 20 ensures timestamp - 300 * i in closes {
      assert timestamp - OFFSET * i in closes;
    }
  }

  /**
    With ten closes at zero and ten at 29309 the sum of the squared deviations reaches 2^32: one
    whole unit above the limit, an unsigned sum no longer fits.
   */
  lemma SumOfSquaresOverflowsAbove(rounding: Rounding, timestamp: nat, closes: map<nat, nat>)
    requires Aligned(timestamp) && (forall k :: k in closes ==> Aligned(k)) && TwentyWindows(closes, timestamp)
    requires forall i: nat :: i < BB_PERIOD ==> closes[timestamp - OFFSET * i] == if i < 10 then (WHOLE_LIMIT + 1) * ONE else 0
    ensures var prices := Prices(closes, timestamp);
            && |prices| == BB_PERIOD
            && Sum(SquaredDeviations(rounding, prices, Sum(prices) / BB_PERIOD)) >= U_LIMIT
  {
    hide SquaredDeviations, Sum;
    var top: nat := (WHOLE_LIMIT + 1) * ONE;
    TwentyPrices(closes, timestamp);
    var prices := Prices(closes, timestamp);
    forall j | 0 <= j < BB_PERIOD ensures prices[j] == if j < 10 then 0 else top {
      var i: nat := BB_PERIOD - 1 - j;
      assert prices[19 - i] == closes[timestamp - OFFSET * i];
    }
    HalvesSum(prices, 0, top);
    HalvesOverflow(rounding, prices, top / 2);
  }

  // ---- bands by hand ----------------------------------------------------------------------

  lemma EqualSquares(rounding: Rounding, s: seq<nat>, mean: nat, d: nat, q: nat)
    requires forall j :: 0 <= j < |s| ==> s[j] == mean + d || s[j] + d == mean
    requires d * d == q * ONE
    ensures Sum(SquaredDeviations(rounding, s, mean)) == q * |s|
  {
    hide Square, Sum, SquaredDeviations;
    var squares := SquaredDeviations(rounding, s, mean);
    forall j | 0 <= j < |squares| ensures q <= squares[j] <= q {
      SquaresAt(rounding, s, mean, j);
      WholeSquare(rounding, s[j] - mean, d, q);
    }
    SumBetween(squares, q, q);
  }

  /** A square that needs no rounding. */
  lemma WholeSquare(rounding: Rounding, x: int, d: nat, q: nat)
    requires (x == d || x + d == 0) && d * d == q * ONE
    ensures Square(rounding, x) == q
  {
    hide Product;
    assert x * x == d * d;
    ProductIsClose(rounding, x, x);
  }

  lemma RootOfSquare(h: nat, q: nat)
    requires h * h == q * ONE
    ensures Sqrt(q) == h
  {
    hide SquareRoot;
    var r := Sqrt(q);
    if r < h { SquareMonotone(r + 1, h); }
    if r > h { SquareMonotone(h + 1, r); }
  }

  /**
    Ten closes at one price and ten a whole number `2 * w` above it: the middle is halfway, the bands
    are twice as far from it as the prices, and the lower one stops at zero.
   */
  lemma BandsOfTwoPrices(rounding: Rounding, timestamp: nat, closes: map<nat, nat>, low: nat, w: nat)
    requires Aligned(timestamp) && (forall k :: k in closes ==> Aligned(k)) && TwentyWindows(closes, timestamp)
    requires forall i: nat :: i < BB_PERIOD ==> closes[timestamp - OFFSET * i] == if i < 10 then low + 2 * (w * ONE) else low
    ensures var h := w * ONE;
            BollingerBand(rounding, timestamp, closes) == Some(Bands(low + h, low + 3 * h, if low >= h then low - h else 0))
  {
    hide SquaredDeviations, Sum, RangeCloses, SquareRoot;
    var h: nat := w * ONE;
    TwentyPrices(closes, timestamp);
    var prices := Prices(closes, timestamp);
    forall j | 0 <= j < BB_PERIOD ensures prices[j] == if j < 10 then low else low + 2 * h {
      var i: nat := BB_PERIOD - 1 - j;
      assert prices[19 - i] == closes[timestamp - OFFSET * i];
    }
    HalvesSum(prices, low, low + 2 * h);
    var q := w * w * ONE;
    assert h * h == q * ONE;
    EqualSquares(rounding, prices, low + h, h, q);
    RootOfSquare(h, q);
  }

  // ---- reachable states -------------------------------------------------------------------

  /**
    The average starts at the first close of an unbroken run. From then on the slope is its change
    since the window before: a fifth of the close's distance from it, towards the close and not past it.
   */
  ghost predicate SlopeFollows(rounding: Rounding, closes: map<nat, nat>, timestamp: nat, i: TimePriceBar.Indicators)
    requires timestamp in closes
  {
    if timestamp - 300 !in closes then i.slope == 0 && i.ema == closes[timestamp]
    else
      var previous := BatchEma(rounding, closes, timestamp - 300);
      var move := closes[timestamp] - previous;
      && i.slope == i.ema - previous
      && IsFifth(move, i.slope)
      && (move >= 0 ==> 0 <= i.slope <= move)
      && (move <= 0 ==> move <= i.slope <= 0)
  }

  /** A cached value read as the run of closes behind it says it should be. */
  ghost predicate Meaningful(rounding: Rounding, closes: map<nat, nat>, timestamp: nat, i: TimePriceBar.Indicators) {
    && timestamp in closes
    && i.ema == BatchEma(rounding, closes, timestamp)
    && (forall lo, hi :: Between(lo, RunCloses(closes, timestamp), hi) ==> lo <= i.ema <= hi)
    && SlopeFollows(rounding, closes, timestamp, i)
    && (i.bollingerBands.Some? <==> TwentyWindows(closes, timestamp))
    && (i.bollingerBands.Some? ==>
          && AroundAverage(i.bollingerBands.value)
          && ArePrices(closes, timestamp, Prices(closes, timestamp))
          && AreBandsOf(Prices(closes, timestamp), i.bollingerBands.value)
          && forall lo, hi :: Between(lo, Prices(closes, timestamp), hi) ==> lo <= i.bollingerBands.value.sma <= hi)
  }

  lemma BatchMeaningful(rounding: Rounding, closes: map<nat, nat>, timestamp: nat)
    requires timestamp in closes && forall k :: k in closes ==> Aligned(k)
    ensures Meaningful(rounding, closes, timestamp, Batch(rounding, closes, timestamp))
  {
    hide BollingerBand, RangeCloses, EmaStep, RunCloses, AreBandsOf, IsFifth, ArePrices, AroundAverage;
    BandsBounds(rounding, timestamp, closes);
    if BollingerBand(rounding, timestamp, closes).Some? {
      TwentyPrices(closes, timestamp);
      BandsFromPrices(rounding, timestamp, closes);
    }
    if timestamp - OFFSET in closes {
      SlopeSign(rounding, closes, timestamp);
      StepIsFifth(rounding, closes[timestamp], BatchEma(rounding, closes, timestamp - OFFSET));
    }
    forall lo, hi | Between(lo, RunCloses(closes, timestamp), hi)
      ensures lo <= BatchEma(rounding, closes, timestamp) <= hi
    {
      EmaWithinRun(rounding, closes, timestamp, lo, hi);
    }
  }

  lemma ClosesAligned(t0: nat, data: Bars)
    requires Structural(t0, data)
    ensures forall k :: k in Closes(data) ==> Aligned(k)
    ensures forall k :: k in data ==> k in Closes(data)
  {
    hide OwnWindow;
    StructuralHasData(t0, data);
    forall k | k in data ensures Aligned(k) { assert BarOk(t0, k, data[k]); }
  }

  /** In every state a run without retention reaches, every cached value is meaningful. */
  lemma EveryCachedValueIsMeaningful(config: Config, t0: nat, ops: seq<Op>)
    requires Clock(t0) && config.computeIndicators && config.retentionCount.None? && Run(config, t0, ops).Some?
    ensures var data := Run(config, t0, ops).value.data;
            forall k :: k in data ==> data[k].Indicators().Some? && Meaningful(config.rounding, Closes(data), k, data[k].Indicators().value)
  {
    hide Structural;
    hide Run;
    hide Meaningful;
    EveryRunIsSound(config, t0, ops);
    var data := Run(config, t0, ops).value.data;
    ClosesAligned(t0, data);
    forall k | k in data
      ensures data[k].Indicators().Some? && Meaningful(config.rounding, Closes(data), k, data[k].Indicators().value)
    {
      BatchMeaningful(config.rounding, Closes(data), k);
    }
  }

  /**
    From one cached average to the next: a fifth of the way to the close, and the cached slope is
    that move.
   */
  lemma CachedAverageMovesAFifth(config: Config, t0: nat, ops: seq<Op>, k: nat)
    requires Clock(t0) && config.computeIndicators && config.retentionCount.None? && Run(config, t0, ops).Some?
    requires var data := Run(config, t0, ops).value.data; k in data && k - 300 in data
    ensures var data := Run(config, t0, ops).value.data;
            && data[k - 300].Indicators().Some? && data[k].Indicators().Some?
            && var before, now := data[k - 300].Indicators().value, data[k].Indicators().value;
               now.slope == now.ema - before.ema && IsFifth(data[k].Close() - before.ema, now.slope)
  {
    hide Run, Structural, Meaningful, IsFifth;
    EveryCachedValueIsMeaningful(config, t0, ops);
    EveryRunIsSound(config, t0, ops);
    var data := Run(config, t0, ops).value.data;
    ClosesAligned(t0, data);
    MeaningfulMoves(config.rounding, Closes(data), k, data[k - 300].Indicators().value, data[k].Indicators().value);
  }

  lemma MeaningfulMoves(rounding: Rounding, closes: map<nat, nat>, k: nat, before: TimePriceBar.Indicators, now: TimePriceBar.Indicators)
    requires k - 300 in closes && Meaningful(rounding, closes, k - 300, before) && Meaningful(rounding, closes, k, now)
    ensures now.slope == now.ema - before.ema && IsFifth(closes[k] - before.ema, now.slope)
  {
    hide IsFifth, AreBandsOf, ArePrices, RunCloses, BatchEma, RangeCloses;
  }

  /**
    With retention the values a run caches are still meaningful, over the closes of every window of
    the run, dropped ones included, as long as at least 21 bars are retained and left by rollbacks.
   */
  lemma BoundedCachedValuesAreMeaningful(config: Config, t0: nat, count: nat, ops: seq<Op>)
    requires Clock(t0) && config.computeIndicators && Retains(config, count) && KeepsEnough(config, t0, count, ops)
    requires Run(config, t0, ops).Some?
    ensures var data := Run(config, t0, ops).value.data;
            && Run(Unbounded(config), t0, ops).Some?
            && var closes := Closes(Run(Unbounded(config), t0, ops).value.data);
               forall k :: k in data ==> data[k].Indicators().Some? && Meaningful(config.rounding, closes, k, data[k].Indicators().value)
  {
    hide Run;
    hide KeepsEnough;
    hide Meaningful;
    RetentionIsInvisibleAcrossReorgs(config, t0, count, ops);
    EveryCachedValueIsMeaningful(Unbounded(config), t0, ops);
    PopToKeepsLatest(Run(Unbounded(config), t0, ops).value.data, |Run(config, t0, ops).value.data|);
  }
}
