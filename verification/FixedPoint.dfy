/**
  The fixed-point arithmetic of the `fixed` crate that the indicators use. A number with 96
  fractional bits is the integer of its raw bits. Integers are unbounded here;
  `IndicatorBounds` gives a price range in which every 128-bit intermediate fits.
 */
module FixedPoint {
  /** 2^96, the raw bits of one. */
  const ONE: nat := 0x1_0000_0000_0000_0000_0000_0000

  /** How a product whose exact value has more than 96 fractional bits is rounded. */
  datatype Rounding = Down | Up | TowardZero

  function Product(rounding: Rounding, a: int, b: int): int {
    var exact := a * b;
    match rounding
    case Down => exact / ONE
    case Up => -((-exact) / ONE)
    case TowardZero => if exact >= 0 then exact / ONE else -((-exact) / ONE)
  }

  /** A product with a factor between zero and one lies between zero and the other operand. */
  lemma ProductShrinks(rounding: Rounding, d: int, factor: nat)
    requires factor <= ONE
    ensures d >= 0 ==> 0 <= Product(rounding, d, factor) <= d
    ensures d <= 0 ==> d <= Product(rounding, d, factor) <= 0
  {
    if d >= 0 {
      assert 0 <= d * factor <= d * ONE;
    } else {
      assert d * ONE <= d * factor <= 0;
    }
  }

  /** The square of a signed number, kept in an unsigned one. */
  function Square(rounding: Rounding, a: int): nat {
    assert a * a >= 0;
    Product(rounding, a, a)
  }

  /** The integer square root, rounded down. */
  function SquareRoot(n: nat): (r: nat)
    ensures r * r <= n < (r + 1) * (r + 1)
  {
    if n == 0 then 0
    else
      var r := SquareRoot(n - 1);
      if (r + 1) * (r + 1) <= n then r + 1 else r
  }

  /** `U32F96::sqrt`: the root of a number of raw bits `v` has raw bits `sqrt(v * 2^96)`. */
  function Sqrt(v: nat): nat {
    SquareRoot(v * ONE)
  }
}
