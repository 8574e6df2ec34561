/** Nonlinear facts the price code needs, one small step each. */
module Products {
  lemma Monotone(a: nat, b: nat, c: nat, d: nat)
    requires a <= b && c <= d
    ensures a * c <= b * d
  {
    assert a * c <= b * c <= b * d;
  }

  lemma CancelStrict(a: nat, b: nat, c: nat)
    requires a * c < b * c
    ensures a < b
  {
    if a >= b { Monotone(b, a, c, c); }
  }

  lemma Cancel(a: nat, b: nat, c: nat)
    requires c > 0 && a * c <= b * c
    ensures a <= b
  {
    assert (b + 1) * c == b * c + c;
    if a > b { Monotone(b + 1, a, c, c); }
  }

  /** The quotient is the largest multiple that fits. */
  lemma Quotient(n: nat, d: nat)
    requires d > 0
    ensures (n / d) * d <= n < (n / d + 1) * d
  {
    assert n == (n / d) * d + n % d;
    assert (n / d + 1) * d == (n / d) * d + d;
  }

  lemma QuotientIff(n: nat, d: nat, q: nat)
    requires d > 0
    ensures q <= n / d <==> q * d <= n
  {
    Quotient(n, d);
    if q <= n / d {
      Monotone(q, n / d, d, d);
    } else {
      Monotone(n / d + 1, q, d, d);
    }
  }
}

/** Q32.96 prices: `fixed.rs`. */
module FixedPrice {
  import opened Products

  const TWO_80: nat := 0x1_0000_0000_0000_0000_0000
  const TWO_96: nat := 0x1_0000_0000_0000_0000_0000_0000
  const TWO_112: nat := TWO_96 * 0x1_0000
  const TWO_128: nat := TWO_96 * 0x1_0000_0000
  const TWO_160: nat := TWO_80 * TWO_80
  const TWO_192: nat := TWO_96 * TWO_96
  const TWO_256: nat := TWO_128 * TWO_128
  const TWO_288: nat := TWO_160 * TWO_128

  /** `u32f96_from_u256_frac`: the low sixteen bytes of the scaled quotient. */
  function FromFraction(numerator: nat, denominator: nat): nat
    requires denominator > 0
  {
    (numerator * TWO_96 / denominator) % TWO_128
  }

  /** `u32f96_from_sqrt_x96`, in both directions keeping the low sixteen bytes. */
  function FromSqrt(s: nat, inverse: bool): nat
    requires inverse ==> s > 0
  {
    if inverse then
      assert s * s > 0;
      (TWO_288 / (s * s)) % TWO_128
    else
      var root := s % TWO_128;
      (root * root / TWO_96) % TWO_128
  }

  /** The price without truncation, and its inverse. */
  function Direct(s: nat): nat {
    s * s / TWO_96
  }

  function Inverse(s: nat): nat
    requires s > 0
  {
    assert s * s > 0;
    TWO_288 / (s * s)
  }

  /** The direct price keeps every bit exactly when the root is below 2^112. */
  lemma DirectLosslessIff(s: nat)
    ensures FromSqrt(s, false) == Direct(s) <==> s < TWO_112
  {
    assert TWO_112 * TWO_112 == TWO_128 * TWO_96;
    if s < TWO_112 {
      Monotone(s, TWO_112 - 1, s, TWO_112 - 1);
      assert (TWO_112 - 1) * (TWO_112 - 1) < TWO_112 * TWO_112;
      assert s % TWO_128 == s;
      QuotientIff(s * s, TWO_96, TWO_128);
    } else {
      Monotone(TWO_112, s, TWO_112, s);
      QuotientIff(s * s, TWO_96, TWO_128);
    }
  }

  /** The inverse price keeps every bit exactly when the root is above 2^80. */
  lemma InverseLosslessIff(s: nat)
    requires s > 0
    ensures FromSqrt(s, true) == Inverse(s) <==> s > TWO_80
  {
    assert s * s > 0;
    QuotientIff(TWO_288, s * s, TWO_128);
    assert TWO_288 == TWO_128 * TWO_160;
    if s > TWO_80 {
      Monotone(TWO_80 + 1, s, TWO_80 + 1, s);
      assert (TWO_80 + 1) * (TWO_80 + 1) > TWO_160;
      assert TWO_128 * (s * s) > TWO_128 * TWO_160;
    } else {
      Monotone(s, TWO_80, s, TWO_80);
      Monotone(TWO_128, TWO_128, s * s, TWO_160);
    }
  }

  /** A larger root never gives a smaller price, nor a larger inverse price. */
  lemma SqrtPricesAreMonotone(s: nat, t: nat)
    requires 0 < s <= t
    ensures Direct(s) <= Direct(t) && Inverse(t) <= Inverse(s)
  {
    Monotone(s, t, s, t);
    assert s * s > 0;
    Quotient(s * s, TWO_96);
    QuotientIff(t * t, TWO_96, Direct(s));
    Quotient(TWO_288, t * t);
    Monotone(Inverse(t), Inverse(t), s * s, t * t);
    QuotientIff(TWO_288, s * s, Inverse(t));
  }

  /** The two prices are inverse to each other up to the rounding of each. */
  lemma PricesAreInverse(s: nat)
    requires s > 0
    ensures Direct(s) * Inverse(s) <= TWO_192 < (Direct(s) + 1) * (Inverse(s) + 1)
  {
    var r := s * s;
    assert r > 0;
    var p, q := Direct(s), Inverse(s);
    Quotient(r, TWO_96);
    Quotient(TWO_288, r);
    assert TWO_288 == TWO_192 * TWO_96;
    // p * 2^96 <= r and q * r <= 2^288
    Monotone(p * TWO_96, r, q, q);
    assert (p * q) * TWO_96 == (p * TWO_96) * q;
    assert r * q == q * r;
    Cancel(p * q, TWO_192, TWO_96);
    // r < (p + 1) * 2^96 and 2^288 < (q + 1) * r
    Monotone(r, (p + 1) * TWO_96, q + 1, q + 1);
    assert ((p + 1) * (q + 1)) * TWO_96 == ((p + 1) * TWO_96) * (q + 1);
    assert (q + 1) * r == r * (q + 1);
    CancelStrict(TWO_192, (p + 1) * (q + 1), TWO_96);
  }

  /** Numbers with the same low 128 bits. */
  ghost predicate SameLowBits(a: nat, b: nat) {
    (a - b) % 0x1_0000_0000_0000_0000_0000_0000_0000_0000 == 0
  }

  /** A fraction's price fits 128 bits, and has the low bits of the quotient it stands for. */
  lemma FractionKeepsLowBits(n: nat, d: nat)
    requires d > 0
    ensures FromFraction(n, d) < 0x1_0000_0000_0000_0000_0000_0000_0000_0000
    ensures SameLowBits(FromFraction(n, d), n * TWO_96 / d)
  {
    hide SameLowBits;
    RemainderIsSame(n * TWO_96 / d);
  }

  /** So does a root's, of which only the low 128 bits count. */
  lemma SqrtKeepsLowBits(s: nat)
    ensures FromSqrt(s, false) < 0x1_0000_0000_0000_0000_0000_0000_0000_0000
    ensures SameLowBits(FromSqrt(s, false), Direct(s % TWO_128))
  {
    hide SameLowBits, Direct;
    RootIsDirect(s);
    RemainderIsSame(Direct(s % TWO_128));
  }

  lemma RootIsDirect(s: nat)
    ensures FromSqrt(s, false) == Direct(s % TWO_128) % TWO_128
  {
  }

  lemma InverseKeepsLowBits(s: nat)
    requires s > 0
    ensures FromSqrt(s, true) < 0x1_0000_0000_0000_0000_0000_0000_0000_0000
    ensures SameLowBits(FromSqrt(s, true), Inverse(s))
  {
    hide SameLowBits;
    RemainderIsSame(Inverse(s));
  }

  lemma RemainderIsSame(x: nat)
    ensures x % TWO_128 < 0x1_0000_0000_0000_0000_0000_0000_0000_0000 && SameLowBits(x % TWO_128, x)
  {
    assert x % TWO_128 - x == -(x / TWO_128) * TWO_128;
  }

  /** A fraction below 2^32 keeps every bit, and is then the floor of the exact quotient. */
  lemma FractionLosslessIff(n: nat, d: nat)
    requires d > 0
    ensures FromFraction(n, d) == n * TWO_96 / d <==> n * TWO_96 / d < TWO_128
  {
  }
}

/** Quoting and simulating v2 trades: `pair.rs`, `uniswap_v2_router.rs` and `indexed_trade.rs`. */
module UniswapV2 {
  import opened Wrappers
  import opened Products
  import opened FixedPrice

  type Address = nat

  const WETH_ADDRESS: Address := 0x4200000000000000000000000000000000000006
  const MAX_TRADE_SIZE_WEI: nat := 1000000000000000000
  const MAX_TRADE_SIZE_PRICE_IMPACT_BP: nat := 50
  const BP_FACTOR: nat := 10000

  /** `get_amount_out`: what a constant-product pool pays for `amountIn` less the 0.3% fee. */
  function GetAmountOut(amountIn: nat, reserveIn: nat, reserveOut: nat): nat
    requires reserveIn > 0 || amountIn > 0
  {
    var amountInWithFee := amountIn * 997;
    Monotone(0, amountInWithFee, 0, reserveOut);
    var denominator := reserveIn * 1000 + amountInWithFee;
    QuotientIff(amountInWithFee * reserveOut, denominator, 0);
    amountInWithFee * reserveOut / denominator
  }

  /** `get_eth_amount_in`: half a percent of the reserve, at most one ether. */
  function GetEthAmountIn(wethReserve: nat): nat {
    var maxForPriceImpact := MAX_TRADE_SIZE_PRICE_IMPACT_BP * wethReserve / BP_FACTOR;
    if maxForPriceImpact < MAX_TRADE_SIZE_WEI then maxForPriceImpact else MAX_TRADE_SIZE_WEI
  }

  datatype IndexedTrade = IndexedTrade(amount0In: nat, amount1In: nat, amount0Out: nat, amount1Out: nat, reserve0: nat, reserve1: nat)

  datatype TradeRequestOp = Open | CloseV2(openTrade: IndexedTrade) | CloseV3

  datatype Error = InvalidTradeRequestOp

  datatype Pair = Pair(token0: Address, token1: Address) {
    function TokenAddress(): Address {
      if token0 == WETH_ADDRESS then token1 else token0
    }

    /** The pool sorts its tokens, and one of them is WETH. */
    predicate IsWethPair() {
      token0 < token1 && (token0 == WETH_ADDRESS || token1 == WETH_ADDRESS)
    }

    /** (token, weth) of a pool's (reserve0, reserve1). */
    function Reserves(reserve0: nat, reserve1: nat): (nat, nat) {
      if token0 == WETH_ADDRESS then (reserve1, reserve0) else (reserve0, reserve1)
    }

    /** What the operation puts into the pool. */
    function AmountIn(op: TradeRequestOp, wethReserve: nat): nat {
      match op
      case Open => GetEthAmountIn(wethReserve)
      case CloseV2(trade) => if token0 == WETH_ADDRESS then trade.amount1Out else trade.amount0Out
      case CloseV3 => 0
    }

    /** The quote does not divide by zero: something is, or goes, into the side that is paid in. */
    predicate Quotes(op: TradeRequestOp, reserve0: nat, reserve1: nat) {
      var (tokenReserve, wethReserve) := Reserves(reserve0, reserve1);
      AmountIn(op, wethReserve) > 0 || (if op.Open? then wethReserve > 0 else tokenReserve > 0)
    }

    /** `simulate_trade_request` on the reserves it fetched. */
    function Simulate(op: TradeRequestOp, reserve0: nat, reserve1: nat): Result<IndexedTrade, Error>
      requires !op.CloseV3? ==> Quotes(op, reserve0, reserve1)
    {
      var (tokenReserve, wethReserve) := Reserves(reserve0, reserve1);
      match op
      case Open =>
        var ethIn := GetEthAmountIn(wethReserve);
        var out := GetAmountOut(ethIn, wethReserve, tokenReserve);
        PaysAtMostReserve(ethIn, wethReserve, tokenReserve);
        if token0 == WETH_ADDRESS then
          Ok(IndexedTrade(ethIn, 0, 0, out, wethReserve + ethIn, tokenReserve - out))
        else
          Ok(IndexedTrade(0, ethIn, out, 0, tokenReserve - out, wethReserve + ethIn))
      case CloseV2(trade) =>
        if token0 == WETH_ADDRESS then
          var tokens := trade.amount1Out;
          var out := GetAmountOut(tokens, tokenReserve, wethReserve);
          PaysAtMostReserve(tokens, tokenReserve, wethReserve);
          Ok(IndexedTrade(0, tokens, out, 0, wethReserve - out, tokenReserve + tokens))
        else
          var tokens := trade.amount0Out;
          var out := GetAmountOut(tokens, tokenReserve, wethReserve);
          PaysAtMostReserve(tokens, tokenReserve, wethReserve);
          Ok(IndexedTrade(tokens, 0, 0, out, tokenReserve + tokens, wethReserve - out))
      case CloseV3 => Err(InvalidTradeRequestOp)
    }
  }

  // ---- the swap formula -------------------------------------------------------------------

  /** Paying `out` for `amountIn` leaves the product of the reserves no smaller, less the 0.3% fee. */
  predicate KeepsProduct(amountIn: nat, reserveIn: nat, reserveOut: nat, out: nat) {
    (1000 * reserveIn + 997 * amountIn) * (reserveOut - out) >= 1000 * reserveIn * reserveOut
  }

  /**
    The output is the largest integer that keeps the fee-adjusted product from falling
    (section 3.2.1 of the Uniswap v2 Core whitepaper).
   */
  lemma OutputIsLargest(amountIn: nat, reserveIn: nat, reserveOut: nat, out: nat)
    requires (reserveIn > 0 || amountIn > 0) && out <= reserveOut
    ensures KeepsProduct(amountIn, reserveIn, reserveOut, out) <==> out <= GetAmountOut(amountIn, reserveIn, reserveOut)
  {
    var d := reserveIn * 1000 + amountIn * 997;
    QuotientIff(amountIn * 997 * reserveOut, d, out);
    assert d * (reserveOut - out) == d * reserveOut - out * d;
    assert d * reserveOut == 1000 * reserveIn * reserveOut + amountIn * 997 * reserveOut;
  }

  lemma PaysAtMostReserve(amountIn: nat, reserveIn: nat, reserveOut: nat)
    requires reserveIn > 0 || amountIn > 0
    ensures GetAmountOut(amountIn, reserveIn, reserveOut) <= reserveOut
  {
    var d := reserveIn * 1000 + amountIn * 997;
    QuotientIff(amountIn * 997 * reserveOut, d, reserveOut + 1);
    assert (reserveOut + 1) * d == 1000 * (reserveIn * reserveOut) + amountIn * 997 * reserveOut + d;
    Monotone(0, reserveIn, 0, reserveOut);
  }

  lemma PaysLessThanReserve(amountIn: nat, reserveIn: nat, reserveOut: nat)
    requires reserveIn > 0 && reserveOut > 0
    ensures GetAmountOut(amountIn, reserveIn, reserveOut) < reserveOut
  {
    var d := reserveIn * 1000 + amountIn * 997;
    QuotientIff(amountIn * 997 * reserveOut, d, reserveOut);
    assert reserveOut * d == 1000 * (reserveIn * reserveOut) + amountIn * 997 * reserveOut;
    assert reserveIn * reserveOut > 0;
  }

  /** Amounts and reserves of 112 bits overflow no intermediate of 256 bits. */
  lemma NeverOverflows(amountIn: nat, reserveIn: nat, reserveOut: nat)
    requires amountIn < TWO_112 && reserveIn < TWO_112 && reserveOut < TWO_112
    ensures amountIn * 997 * reserveOut < TWO_256
    ensures reserveIn * 1000 + amountIn * 997 < TWO_256
    ensures MAX_TRADE_SIZE_PRICE_IMPACT_BP * reserveIn < TWO_256
    ensures reserveIn + amountIn < TWO_256
  {
    Monotone(amountIn * 997, TWO_112 * 997, reserveOut, TWO_112);
    assert TWO_112 * 997 * TWO_112 < TWO_256;
  }

  // ---- opening and closing ----------------------------------------------------------------

  /** What was bought costs at least its share of the pool, fee included. */
  lemma BoughtAtAFee(amountIn: nat, reserveIn: nat, reserveOut: nat)
    requires reserveIn > 0 && reserveOut > 0
    ensures var out := GetAmountOut(amountIn, reserveIn, reserveOut);
            out < reserveOut && 1000 * (out * reserveIn) <= 997 * (amountIn * (reserveOut - out))
  {
    var x, y, a := reserveIn, reserveOut, amountIn;
    var t := GetAmountOut(a, x, y);
    PaysLessThanReserve(a, x, y);
    Quotient(a * 997 * y, x * 1000 + a * 997);
    assert t * (x * 1000 + a * 997) == 1000 * (t * x) + 997 * (a * t);
    assert a * 997 * y == 997 * (a * y);
    assert a * y == a * (y - t) + a * t;
  }

  /** A pool that would have to pay more than its fee allows pays less than `amount`. */
  lemma SellsForLess(sold: nat, tokenReserve: nat, wethBefore: nat, amount: nat)
    requires tokenReserve > 0 && 997 * (sold * wethBefore) < 1000 * (amount * tokenReserve)
    ensures GetAmountOut(sold, tokenReserve, wethBefore + amount) < amount
  {
    QuotientIff(sold * 997 * (wethBefore + amount), tokenReserve * 1000 + sold * 997, amount);
    assert sold * 997 * (wethBefore + amount) == 997 * (sold * wethBefore) + 997 * (amount * sold);
    assert amount * (tokenReserve * 1000 + sold * 997) == 1000 * (amount * tokenReserve) + 997 * (amount * sold);
  }

  /** Selling what was bought, on the reserves the purchase left, pays back strictly less. */
  lemma RoundTripLoses(amountIn: nat, wethReserve: nat, tokenReserve: nat)
    requires amountIn > 0 && wethReserve > 0 && tokenReserve > 0
    ensures var out := GetAmountOut(amountIn, wethReserve, tokenReserve);
            && out < tokenReserve
            && GetAmountOut(out, tokenReserve - out, wethReserve + amountIn) < amountIn
  {
    hide GetAmountOut;
    var x, y, a := wethReserve, tokenReserve, amountIn;
    var t := GetAmountOut(a, x, y);
    BoughtAtAFee(a, x, y);
    assert a * (y - t) > 0;
    SellsForLess(t, y - t, x, a);
  }

  lemma ProductNeverFalls(amountIn: nat, reserveIn: nat, reserveOut: nat)
    requires reserveIn > 0 || amountIn > 0
    ensures var out := GetAmountOut(amountIn, reserveIn, reserveOut);
            out <= reserveOut && (reserveIn + amountIn) * (reserveOut - out) >= reserveIn * reserveOut
  {
    hide GetAmountOut;
    var out := GetAmountOut(amountIn, reserveIn, reserveOut);
    PaysAtMostReserve(amountIn, reserveIn, reserveOut);
    var left := reserveOut - out;
    if reserveIn > 0 {
      OutputIsLargest(amountIn, reserveIn, reserveOut, out);
      Monotone(1000 * reserveIn + 997 * amountIn, 1000 * (reserveIn + amountIn), left, left);
      assert 1000 * (reserveIn + amountIn) * left == 1000 * ((reserveIn + amountIn) * left);
      assert 1000 * reserveIn * reserveOut == 1000 * (reserveIn * reserveOut);
    } else {
      Monotone(0, amountIn, 0, left);
    }
  }

  /** No simulated trade lowers the product of the pool's reserves. */
  lemma SimulationKeepsProduct(pair: Pair, op: TradeRequestOp, reserve0: nat, reserve1: nat)
    requires !op.CloseV3? && pair.Quotes(op, reserve0, reserve1)
    ensures var trade := pair.Simulate(op, reserve0, reserve1).value;
            trade.reserve0 * trade.reserve1 >= reserve0 * reserve1
  {
    hide GetAmountOut, GetEthAmountIn;
    var (tokenReserve, wethReserve) := pair.Reserves(reserve0, reserve1);
    var amountIn := pair.AmountIn(op, wethReserve);
    if op.Open? {
      ProductNeverFalls(amountIn, wethReserve, tokenReserve);
    } else {
      ProductNeverFalls(amountIn, tokenReserve, wethReserve);
    }
  }

  /** A simulated open then close through the same pool loses ether, whichever token comes first. */
  lemma OpenThenCloseLoses(pair: Pair, reserve0: nat, reserve1: nat)
    requires reserve0 > 0 && reserve1 > 0 && GetEthAmountIn(pair.Reserves(reserve0, reserve1).1) > 0
    ensures var open := pair.Simulate(Open, reserve0, reserve1);
            && open.Ok? && open.value.reserve0 > 0 && open.value.reserve1 > 0
            && var close := pair.Simulate(CloseV2(open.value), open.value.reserve0, open.value.reserve1);
               && close.Ok?
               && close.value.amount0In == open.value.amount0Out && close.value.amount1In == open.value.amount1Out
               && close.value.amount0Out + close.value.amount1Out < open.value.amount0In + open.value.amount1In
  {
    var (tokenReserve, wethReserve) := pair.Reserves(reserve0, reserve1);
    RoundTripLoses(GetEthAmountIn(wethReserve), wethReserve, tokenReserve);
  }

  // ---- prices -----------------------------------------------------------------------------

  /** Subtraction and addition wrap around at 256 bits. */
  function Before(reserve: nat, amountIn: nat, amountOut: nat): nat {
    (reserve - amountIn + amountOut) % TWO_256
  }

  function WethVolume(trade: IndexedTrade, tokenAddress: Address): nat {
    if tokenAddress < WETH_ADDRESS then trade.amount1In + trade.amount1Out else trade.amount0In + trade.amount0Out
  }

  function TokenPriceBefore(trade: IndexedTrade, tokenAddress: Address): nat
    requires if tokenAddress < WETH_ADDRESS then Before(trade.reserve0, trade.amount0In, trade.amount0Out) > 0
             else Before(trade.reserve1, trade.amount1In, trade.amount1Out) > 0
  {
    var reserve0 := Before(trade.reserve0, trade.amount0In, trade.amount0Out);
    var reserve1 := Before(trade.reserve1, trade.amount1In, trade.amount1Out);
    if tokenAddress < WETH_ADDRESS then FromFraction(reserve1, reserve0) else FromFraction(reserve0, reserve1)
  }

  function TokenPriceAfter(trade: IndexedTrade, tokenAddress: Address): nat
    requires if tokenAddress < WETH_ADDRESS then trade.reserve0 > 0 else trade.reserve1 > 0
  {
    if tokenAddress < WETH_ADDRESS then FromFraction(trade.reserve1, trade.reserve0)
    else FromFraction(trade.reserve0, trade.reserve1)
  }

  lemma NoWrap(reserve: nat)
    requires reserve < TWO_256
    ensures reserve % TWO_256 == reserve
  {
  }

  /** The reserve before a trade is read back from the one after it, also where 256 bits wrap around. */
  lemma BeforeUndoesTrade(reserve: nat, amountIn: nat, amountOut: nat)
    requires reserve < TWO_256
    ensures Before((reserve + amountIn - amountOut) % TWO_256, amountIn, amountOut) == reserve
  {
    var exact := reserve + amountIn - amountOut;
    var wrapped := exact % TWO_256;
    assert wrapped - exact == -(exact / TWO_256) * TWO_256;
    WrapsTo(reserve, -(exact / TWO_256));
  }

  lemma WrapsTo(x: nat, turns: int)
    requires x < TWO_256
    ensures (x + turns * TWO_256) % TWO_256 == x
  {
  }

  /** A simulated trade moves between the pool and the trader just what it reports. */
  lemma SimulationBalances(pair: Pair, op: TradeRequestOp, reserve0: nat, reserve1: nat)
    requires !op.CloseV3? && pair.Quotes(op, reserve0, reserve1)
    ensures pair.Simulate(op, reserve0, reserve1).Ok?
    ensures var trade := pair.Simulate(op, reserve0, reserve1).value;
            && trade.reserve0 + trade.amount0Out == reserve0 + trade.amount0In
            && trade.reserve1 + trade.amount1Out == reserve1 + trade.amount1In
  {
    hide GetAmountOut, GetEthAmountIn;
  }

  /** `out` is the most a pool can pay for `amountIn`. */
  ghost predicate PaysMost(amountIn: nat, reserveIn: nat, reserveOut: nat, out: nat) {
    && out <= reserveOut
    && forall x: nat :: x <= reserveOut ==> (KeepsProduct(amountIn, reserveIn, reserveOut, x) <==> x <= out)
  }

  lemma QuotePaysMost(amountIn: nat, reserveIn: nat, reserveOut: nat)
    requires reserveIn > 0 || amountIn > 0
    ensures PaysMost(amountIn, reserveIn, reserveOut, GetAmountOut(amountIn, reserveIn, reserveOut))
  {
    hide GetAmountOut;
    PaysAtMostReserve(amountIn, reserveIn, reserveOut);
    forall x: nat | x <= reserveOut
      ensures KeepsProduct(amountIn, reserveIn, reserveOut, x) <==> x <= GetAmountOut(amountIn, reserveIn, reserveOut)
    {
      OutputIsLargest(amountIn, reserveIn, reserveOut, x);
    }
  }

  /**
    Who pays what in a simulated trade, for either token order: an open puts in the most ether the
    limits allow and takes the most tokens the pool can pay, a close sells what its open took and
    takes the most ether; nothing else moves, and only a v3 close is refused.
   */
  lemma SimulationPaysMost(pair: Pair, op: TradeRequestOp, reserve0: nat, reserve1: nat)
    requires !op.CloseV3? ==> pair.Quotes(op, reserve0, reserve1)
    ensures var r := pair.Simulate(op, reserve0, reserve1);
            && (r.Err? <==> op.CloseV3?)
            && (r.Ok? ==>
                  var t := r.value;
                  var wethFirst := pair.token0 == WETH_ADDRESS;
                  var (tokenReserve, wethReserve) := if wethFirst then (reserve1, reserve0) else (reserve0, reserve1);
                  var (tokenIn, tokenOut) := if wethFirst then (t.amount1In, t.amount1Out) else (t.amount0In, t.amount0Out);
                  var (wethIn, wethOut) := if wethFirst then (t.amount0In, t.amount0Out) else (t.amount1In, t.amount1Out);
                  if op.Open? then
                    && tokenIn == 0 && wethOut == 0
                    && (forall a: nat :: a <= wethIn <==> 200 * a <= wethReserve && a <= 1000000000000000000)
                    && PaysMost(wethIn, wethReserve, tokenReserve, tokenOut)
                  else
                    && tokenOut == 0 && wethIn == 0
                    && tokenIn == (if wethFirst then op.openTrade.amount1Out else op.openTrade.amount0Out)
                    && PaysMost(tokenIn, tokenReserve, wethReserve, wethOut))
  {
    hide GetAmountOut, GetEthAmountIn, PaysMost;
    if !op.CloseV3? {
      var (tokenReserve, wethReserve) := pair.Reserves(reserve0, reserve1);
      var amountIn := pair.AmountIn(op, wethReserve);
      if op.Open? {
        QuotePaysMost(amountIn, wethReserve, tokenReserve);
        forall a: nat ensures a <= amountIn <==> 200 * a <= wethReserve && a <= 1000000000000000000 {
          EthAmountInIsLargest(wethReserve, a);
        }
      } else {
        QuotePaysMost(amountIn, tokenReserve, wethReserve);
      }
    }
  }

  /** The price after a trade is the price before the next one, whatever that one trades. */
  lemma PriceAfterIsNextPriceBefore(trade: IndexedTrade, next: IndexedTrade, tokenAddress: Address)
    requires if tokenAddress < WETH_ADDRESS then trade.reserve0 > 0 else trade.reserve1 > 0
    requires Before(next.reserve0, next.amount0In, next.amount0Out) == trade.reserve0
    requires Before(next.reserve1, next.amount1In, next.amount1Out) == trade.reserve1
    ensures TokenPriceAfter(trade, tokenAddress) == TokenPriceBefore(next, tokenAddress)
  {
  }

  /** `p` is the fraction in units of 2^-96, rounded down. */
  predicate IsFloor(p: nat, numerator: nat, denominator: nat) {
    p * denominator <= numerator * 0x1_0000_0000_0000_0000_0000_0000 < (p + 1) * denominator
  }

  lemma FractionIsFloorIff(numerator: nat, denominator: nat)
    requires denominator > 0
    ensures IsFloor(FromFraction(numerator, denominator), numerator, denominator) <==> numerator < denominator * 0x1_0000_0000
  {
    var q := numerator * TWO_96 / denominator;
    Quotient(numerator * TWO_96, denominator);
    QuotientIff(numerator * TWO_96, denominator, TWO_128);
    assert TWO_128 * denominator == (denominator * 0x1_0000_0000) * TWO_96;
    if numerator < denominator * 0x1_0000_0000 {
      assert q < TWO_128;
    } else {
      var p := FromFraction(numerator, denominator);
      assert p < TWO_128;
      Monotone(p + 1, TWO_128, denominator, denominator);
    }
  }

  /**
    The price after a simulated trade is that of the ether and the tokens it left in the pool, to the
    last bit, exactly when they are worth less than 2^32 to one; for either token order.
   */
  lemma PriceAfterSimulationIff(pair: Pair, op: TradeRequestOp, reserve0: nat, reserve1: nat)
    requires pair.IsWethPair() && !op.CloseV3? && pair.Quotes(op, reserve0, reserve1)
    requires var t := pair.Simulate(op, reserve0, reserve1).value;
             (if pair.token0 == WETH_ADDRESS then t.reserve1 else t.reserve0) > 0
    ensures var t := pair.Simulate(op, reserve0, reserve1).value;
            var left0, left1 := reserve0 + t.amount0In - t.amount0Out, reserve1 + t.amount1In - t.amount1Out;
            && left0 >= 0 && left1 >= 0
            && var (tokenLeft, wethLeft) := if pair.token0 == WETH_ADDRESS then (left1, left0) else (left0, left1);
               IsFloor(TokenPriceAfter(t, pair.TokenAddress()), wethLeft, tokenLeft) <==> wethLeft < tokenLeft * 0x1_0000_0000
  {
    hide FromFraction, IsFloor, GetAmountOut, GetEthAmountIn;
    var t := pair.Simulate(op, reserve0, reserve1).value;
    SimulationBalances(pair, op, reserve0, reserve1);
    if pair.token0 == WETH_ADDRESS {
      FractionIsFloorIff(t.reserve0, t.reserve1);
    } else {
      FractionIsFloorIff(t.reserve1, t.reserve0);
    }
  }

  /** The reserves before a simulated trade are read back from it exactly, for either token order. */
  lemma SimulationRecoversReserves(pair: Pair, op: TradeRequestOp, reserve0: nat, reserve1: nat)
    requires pair.IsWethPair() && reserve0 < TWO_256 && reserve1 < TWO_256
    requires pair.Reserves(reserve0, reserve1).0 > 0
    requires !op.CloseV3? && pair.Quotes(op, reserve0, reserve1)
    ensures pair.Simulate(op, reserve0, reserve1).Ok?
    ensures var trade := pair.Simulate(op, reserve0, reserve1).value;
            var (tokenReserve, wethReserve) := pair.Reserves(reserve0, reserve1);
            && Before(trade.reserve0, trade.amount0In, trade.amount0Out) == reserve0
            && Before(trade.reserve1, trade.amount1In, trade.amount1Out) == reserve1
            && TokenPriceBefore(trade, pair.TokenAddress()) == FromFraction(wethReserve, tokenReserve)
            && WethVolume(trade, pair.TokenAddress()) ==
                 if op.Open? then GetEthAmountIn(wethReserve)
                 else GetAmountOut(pair.AmountIn(op, wethReserve), tokenReserve, wethReserve)
  {
    hide GetAmountOut, GetEthAmountIn, FromFraction;
    var trade := pair.Simulate(op, reserve0, reserve1).value;
    SimulationBalances(pair, op, reserve0, reserve1);
    NoWrap(reserve0);
    NoWrap(reserve1);
  }

  lemma FractionMonotone(n: nat, d: nat, m: nat, e: nat)
    requires n <= m && 0 < e <= d
    ensures n * TWO_96 / d <= m * TWO_96 / e
  {
    var q := n * TWO_96 / d;
    Quotient(n * TWO_96, d);
    Monotone(q, q, e, d);
    QuotientIff(m * TWO_96, e, q);
  }

  /** The ether put in is the most that is neither over half a percent of the reserve nor over one ether. */
  lemma EthAmountInIsLargest(wethReserve: nat, a: nat)
    ensures a <= GetEthAmountIn(wethReserve) <==> 200 * a <= wethReserve && a <= MAX_TRADE_SIZE_WEI
  {
  }

  lemma ShareLeft(a: nat, x: nat, y: nat, r: nat)
    requires x > 0 && 200 * a <= x && (1000 * x + 997 * a) * r >= 1000 * x * y
    ensures 200000 * y <= 200997 * r
  {
    Monotone(200000 * x + 997 * (200 * a), 200997 * x, r, r);
    assert 200 * ((1000 * x + 997 * a) * r) == (200000 * x + 997 * (200 * a)) * r;
    assert 200 * (1000 * x * y) == (200000 * y) * x && (200997 * x) * r == (200997 * r) * x;
    Cancel(200000 * y, 200997 * r, x);
  }

  /** A purchase of at most half a percent leaves at least 200000/200997 of the tokens. */
  lemma ReserveShrinksLittle(amountIn: nat, wethReserve: nat, tokenReserve: nat)
    requires wethReserve > 0 && tokenReserve > 0 && 200 * amountIn <= wethReserve
    ensures var out := GetAmountOut(amountIn, wethReserve, tokenReserve);
            out < tokenReserve && 200000 * tokenReserve <= 200997 * (tokenReserve - out)
  {
    var x, y, a := wethReserve, tokenReserve, amountIn;
    var t := GetAmountOut(a, x, y);
    hide GetAmountOut;
    PaysLessThanReserve(a, x, y);
    OutputIsLargest(a, x, y, t);
    ShareLeft(a, x, y, y - t);
  }

  /** Two floors of fractions whose exact values differ by at most the factor. */
  lemma PriceRise(x: nat, y: nat, a: nat, r: nat)
    requires y > 0 && r > 0 && x > 0 && 200 * a <= x && 200000 * y <= 200997 * r
    ensures ((x + a) * TWO_96 / r) * (200 * 200000) < (201 * 200997) * (x * TWO_96 / y + 1)
  {
    var q := (x + a) * TWO_96 / r;
    var p := x * TWO_96 / y;
    Quotient((x + a) * TWO_96, r);
    Quotient(x * TWO_96, y);
    Monotone(q, q, 200000 * y, 200997 * r);
    assert q * (200997 * r) == 200997 * (q * r);
    assert 200 * (200997 * ((x + a) * TWO_96)) == 200997 * ((200 * x + 200 * a) * TWO_96);
    Monotone(200 * x + 200 * a, 201 * x, TWO_96, TWO_96);
    assert (201 * x) * TWO_96 == 201 * (x * TWO_96);
    assert 200 * (q * (200000 * y)) == (q * (200 * 200000)) * y;
    assert 201 * 200997 * ((p + 1) * y) == ((201 * 200997) * (p + 1)) * y;
    CancelStrict(q * (200 * 200000), (201 * 200997) * (p + 1), y);
  }

  /**
    While the price after it stays below 2^32, a simulated open never lowers the token price, and
    raises it by less than the factor 1.005 * 1.004985, up to one unit of rounding.
   */
  lemma OpenHasBoundedPriceImpact(pair: Pair, reserve0: nat, reserve1: nat)
    requires pair.IsWethPair() && 0 < reserve0 < TWO_112 && 0 < reserve1 < TWO_112
    requires var (tokenReserve, wethReserve) := pair.Reserves(reserve0, reserve1);
             var ethIn := GetEthAmountIn(wethReserve);
             var out := GetAmountOut(ethIn, wethReserve, tokenReserve);
             out < tokenReserve ==> (wethReserve + ethIn) * TWO_96 / (tokenReserve - out) < TWO_128
    ensures var trade := pair.Simulate(Open, reserve0, reserve1).value;
            && trade.reserve0 > 0 && trade.reserve1 > 0
            && Before(trade.reserve0, trade.amount0In, trade.amount0Out) > 0
            && Before(trade.reserve1, trade.amount1In, trade.amount1Out) > 0
            && var before := TokenPriceBefore(trade, pair.TokenAddress());
               var after := TokenPriceAfter(trade, pair.TokenAddress());
               before <= after && after * (200 * 200000) < (201 * 200997) * (before + 1)
  {
    var (tokenReserve, wethReserve) := pair.Reserves(reserve0, reserve1);
    var ethIn := GetEthAmountIn(wethReserve);
    var out := GetAmountOut(ethIn, wethReserve, tokenReserve);
    SimulationRecoversReserves(pair, Open, reserve0, reserve1);
    EthAmountInIsLargest(wethReserve, ethIn);
    ReserveShrinksLittle(ethIn, wethReserve, tokenReserve);
    FractionMonotone(wethReserve, tokenReserve, wethReserve + ethIn, tokenReserve - out);
    PriceRise(wethReserve, tokenReserve, ethIn, tokenReserve - out);
    FractionLosslessIff(wethReserve, tokenReserve);
    FractionLosslessIff(wethReserve + ethIn, tokenReserve - out);
  }
}
