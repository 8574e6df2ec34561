/** What the average and the bands are, in plain arithmetic: how far one moves and how wide the others are. */
module ExactIndicators {
  import opened TimePriceBar
  import opened FixedPoint
  import opened Indicators

  /** A rounded product is less than one unit away from the exact one, and on the side it is rounded to. */
  lemma ProductIsClose(rounding: Rounding, a: int, b: int)
    ensures a * b - ONE < Product(rounding, a, b) * ONE < a * b + ONE
    ensures match rounding
            case Down => Product(rounding, a, b) * ONE <= a * b
            case Up => a * b <= Product(rounding, a, b) * ONE
            case TowardZero => if a * b >= 0 then 0 <= Product(rounding, a, b) * ONE <= a * b else a * b <= Product(rounding, a, b) * ONE <= 0
  {
    RoundedIsClose(rounding, a * b);
  }

  lemma RoundedIsClose(rounding: Rounding, exact: int)
    ensures exact - ONE < (exact / ONE) * ONE <= exact <= -((-exact) / ONE) * ONE < exact + ONE
    ensures exact >= 0 ==> exact / ONE >= 0
    ensures exact <= 0 ==> (-exact) / ONE >= 0
  {
  }

  // ---- the average ------------------------------------------------------------------------

  /**
    `slope` is a fifth of `move`: five times it differs from `move` by less than five units of 2^-96,
    and one more for every 1.0 of `move`, a fifth having no exact binary form.
   */
  ghost predicate IsFifth(move: int, slope: int) {
    -5 * ONE < 5 * slope * ONE - move * (ONE - 1) < 5 * ONE
  }

  /** The average moves a fifth of the way to the close. */
  lemma StepIsFifth(rounding: Rounding, close: nat, previous: int)
    ensures IsFifth(close - previous, EmaStep(rounding, close, previous) - previous)
  {
    var move := close - previous;
    ProductIsClose(rounding, move, EMA_FACTOR);
    assert 5 * EMA_FACTOR == ONE - 1;
    assert 5 * (move * EMA_FACTOR) == move * (ONE - 1);
  }

  // ---- the bands --------------------------------------------------------------------------

  /** The squared distances of the prices from a value, summed exactly. */
  function SquaredDistances(s: seq<nat>, mean: nat): nat {
    if s == [] then 0
    else
      var d := s[|s| - 1] - mean;
      assert d * d >= 0;
      SquaredDistances(s[..|s| - 1], mean) + d * d
  }

  /** The sum the source takes differs from the exact one by less than one unit for each price. */
  lemma {:induction false} SquaresAreClose(rounding: Rounding, s: seq<nat>, mean: nat)
    ensures SquaredDistances(s, mean) - |s| * ONE <= Sum(SquaredDeviations(rounding, s, mean)) * ONE <= SquaredDistances(s, mean) + |s| * ONE
    ensures s != [] ==> SquaredDistances(s, mean) - |s| * ONE < Sum(SquaredDeviations(rounding, s, mean)) * ONE < SquaredDistances(s, mean) + |s| * ONE
    decreases |s|
  {
    if s != [] {
      var front, d := s[..|s| - 1], s[|s| - 1] - mean;
      SquaresAreClose(rounding, front, mean);
      ProductIsClose(rounding, d, d);
      var squares := SquaredDeviations(rounding, s, mean);
      assert squares[..|s| - 1] == SquaredDeviations(rounding, front, mean);
      assert |s| * ONE == |front| * ONE + ONE;
    }
  }

  /** A twentieth of a sum of squares, rounded square by square and then down. */
  ghost predicate IsTwentieth(v: nat, squares: nat) {
    squares - 40 * ONE < 20 * v * ONE < squares + 20 * ONE
  }

  /** The bands are twice the root of `v` away, rounded down, and the lower one stops at zero. */
  ghost predicate AtTwiceTheRoot(v: nat, b: Bands) {
    var r := (b.upper - b.sma) / 2;
    && r >= 0
    && b.upper == b.sma + 2 * r
    && r * r <= v * ONE < (r + 1) * (r + 1)
    && b.lower == if b.sma >= 2 * r then b.sma - 2 * r else 0
  }

  /** The middle band is the mean of the prices, and the others are two standard deviations away. */
  ghost predicate AreBandsOf(s: seq<nat>, b: Bands) {
    && 20 * b.sma <= Sum(s) < 20 * (b.sma + 1)
    && exists v: nat :: IsTwentieth(v, SquaredDistances(s, b.sma)) && AtTwiceTheRoot(v, b)
  }

  lemma BandsFromPrices(rounding: Rounding, timestamp: nat, closes: map<nat, nat>)
    requires BollingerBand(rounding, timestamp, closes).Some?
    ensures AreBandsOf(Prices(closes, timestamp), BollingerBand(rounding, timestamp, closes).value)
  {
    hide SquaredDistances, SquaredDeviations, Sum, RangeCloses, SquareRoot;
    var s := Prices(closes, timestamp);
    var b := BollingerBand(rounding, timestamp, closes).value;
    SquaresAreClose(rounding, s, b.sma);
    var v := Sum(SquaredDeviations(rounding, s, b.sma)) / 20;
    assert b.upper == b.sma + 2 * Sqrt(v);
    assert IsTwentieth(v, SquaredDistances(s, b.sma));
    assert AtTwiceTheRoot(v, b);
  }
}
