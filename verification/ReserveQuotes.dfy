/** Reserve-based quotes and their inverses: Meteora DAMM v2 and Raydium AMM v4, and the Newton
    square root behind Meteora's liquidity. */
module ReserveQuotes {
  import opened Arith
  import opened Outcomes

  const BPS: nat := 10_000

  datatype Fault = OutsideU64 | DivisionByZero

  /** The remainder form of a ceiled division. */
  function CeilRem(n: nat, d: nat): nat
    requires d > 0
  {
    n / d + if n % d == 0 then 0 else 1
  }

  lemma CeilRemIff(n: nat, d: nat, q: nat)
    requires d > 0
    ensures CeilRem(n, d) <= q <==> n <= q * d
  {
    FloorIff(n, d, q + 1);
    FloorIff(n, d, q);
    assert n == n / d * d + n % d;
    assert (q + 1) * d == q * d + d;
    if n % d == 0 && n <= q * d { MulCancel(n / d, q, d); }
    if n % d != 0 && n <= q * d && n / d >= q { MulMono(q, n / d, d); }
  }

  /** What of an input reaches the pool. */
  function AfterFee(amountIn: nat, fee: nat): nat
    requires fee < BPS
  {
    MulDiv(amountIn, BPS - fee, BPS)
  }

  function MeteoraAmountOut(amountIn: int, inputReserve: int, outputReserve: int, fee: int): Result<nat, Fault> {
    if !Word(amountIn) || !Word(inputReserve) || !Word(outputReserve) || !Word(fee) then Err(OutsideU64)
    else if fee >= BPS || inputReserve == 0 || outputReserve == 0 || amountIn == 0 then Ok(0)
    else Ok(MulDiv(AfterFee(amountIn, fee), outputReserve, inputReserve + AfterFee(amountIn, fee)))
  }

  /** The net amount that an output needs, and the input that leaves it after the fee. */
  function NetFor(amountOut: nat, inputReserve: nat, outputReserve: nat): nat
    requires amountOut < outputReserve
  {
    CeilRem(inputReserve * amountOut, outputReserve - amountOut)
  }

  function InputFor(net: nat, fee: nat): nat
    requires fee < BPS
  {
    CeilRem(net * BPS, BPS - fee)
  }

  function MeteoraAmountIn(amountOut: int, inputReserve: int, outputReserve: int, fee: int): Result<nat, Fault> {
    if !Word(amountOut) || !Word(inputReserve) || !Word(outputReserve) || !Word(fee) then Err(OutsideU64)
    else if fee >= BPS || inputReserve == 0 || outputReserve == 0 || amountOut >= outputReserve then Ok(0)
    else
      var result := InputFor(NetFor(amountOut, inputReserve, outputReserve), fee);
      Ok(if result > U64 then 0 else result)
  }

  /** Output of a net amount from the constant product. */
  lemma ProductOutIff(net: nat, inputReserve: nat, outputReserve: nat, y: nat)
    requires inputReserve > 0
    ensures y <= MulDiv(net, outputReserve, inputReserve + net) <==> inputReserve * y <= net * (outputReserve - y)
  {
    FloorIff(net * outputReserve, inputReserve + net, y);
    TakenOut(y, inputReserve, net, outputReserve);
  }

  /** Enough comes out exactly when the input covers the inverse's unrounded-to-u64 answer. */
  lemma MeteoraIff(x: nat, y: nat, inputReserve: nat, outputReserve: nat, fee: nat)
    requires 0 < inputReserve && 0 < y < outputReserve && fee < BPS
    ensures y <= MulDiv(AfterFee(x, fee), outputReserve, inputReserve + AfterFee(x, fee))
       <==> InputFor(NetFor(y, inputReserve, outputReserve), fee) <= x
    ensures 0 < InputFor(NetFor(y, inputReserve, outputReserve), fee)
  {
    hide CeilRem, MulDiv;
    var net, needed := AfterFee(x, fee), NetFor(y, inputReserve, outputReserve);
    ProductOutIff(net, inputReserve, outputReserve, y);
    CeilRemIff(inputReserve * y, outputReserve - y, net);
    CeilRemIff(inputReserve * y, outputReserve - y, 0);
    AfterFeeIff(x, fee, needed);
    CeilRemIff(needed * BPS, BPS - fee, x);
    CeilRemIff(needed * BPS, BPS - fee, 0);
    assert inputReserve * y > 0;
  }

  lemma AfterFeeIff(x: nat, fee: nat, n: nat)
    requires fee < BPS
    ensures n <= AfterFee(x, fee) <==> n * BPS <= x * (BPS - fee)
  {
    FloorIff(x * (BPS - fee), BPS, n);
  }

  /** The Meteora pair is a Galois connection over every u64 input; a zero inverse means that no
      u64 input reaches the output. */
  lemma MeteoraGalois(x: int, y: int, inputReserve: int, outputReserve: int, fee: int)
    requires Word(x) && Word(outputReserve) && 0 < inputReserve <= U64 && 0 < y < outputReserve && 0 <= fee < BPS
    ensures MeteoraAmountOut(x, inputReserve, outputReserve, fee).Ok?
    ensures MeteoraAmountIn(y, inputReserve, outputReserve, fee).Ok?
    ensures var out, least := MeteoraAmountOut(x, inputReserve, outputReserve, fee).value,
        MeteoraAmountIn(y, inputReserve, outputReserve, fee).value;
      if least == 0 then out < y else (out >= y <==> x >= least)
  {
    hide NetFor, InputFor, AfterFee, MulDiv;
    MeteoraIff(x, y, inputReserve, outputReserve, fee);
  }

  /** Exactly what a Meteora input yields: the most that keeps the constant product with what the fee
      leaves of it. */
  lemma MeteoraYields(x: int, inputReserve: int, outputReserve: int, fee: int, net: nat, y: nat)
    requires Word(x) && 0 < inputReserve <= U64 && 0 < outputReserve <= U64 && 0 <= fee < BPS
    requires net * BPS <= x * (BPS - fee) < (net + 1) * BPS
    ensures MeteoraAmountOut(x, inputReserve, outputReserve, fee).Ok?
    ensures y <= MeteoraAmountOut(x, inputReserve, outputReserve, fee).value
       <==> inputReserve * y <= net * (outputReserve - y)
  {
    hide MulDiv, AfterFee;
    AfterFeeIff(x, fee, net);
    AfterFeeIff(x, fee, net + 1);
    ProductOutIff(net, inputReserve, outputReserve, y);
    if x == 0 { ProductOutIff(0, inputReserve, outputReserve, 1); }
  }

  /** Without reserves, with the whole input taken as a fee, or for an output that the pool does not
      hold, both directions answer zero. */
  lemma MeteoraNothing(amount: int, inputReserve: int, outputReserve: int, fee: int)
    requires Word(amount) && Word(inputReserve) && Word(outputReserve) && Word(fee)
    requires inputReserve == 0 || outputReserve == 0 || fee >= BPS
    ensures MeteoraAmountOut(amount, inputReserve, outputReserve, fee) == Ok(0)
    ensures MeteoraAmountIn(amount, inputReserve, outputReserve, fee) == Ok(0)
  {
  }

  /** The inverse of an output that the pool does not hold is zero. */
  lemma TooMuch(amount: int, inputReserve: int, outputReserve: int, fee: int)
    requires Word(amount) && Word(inputReserve) && Word(outputReserve) && Word(fee) && outputReserve <= amount
    ensures MeteoraAmountIn(amount, inputReserve, outputReserve, fee) == Ok(0)
    ensures RaydiumAmountIn(amount, inputReserve, outputReserve) == Ok(0)
  {
  }

  function RaydiumAmountOut(amountIn: nat, inputReserve: nat, outputReserve: nat): nat {
    if inputReserve == 0 || outputReserve == 0 then 0
    else MulDiv(amountIn * 9975, outputReserve, inputReserve * BPS + amountIn * 9975)
  }

  function CeilDiv(a: int, b: int): Result<nat, Fault> {
    if b == 0 then Err(DivisionByZero)
    else if !Word(a) || !Word(b) then Err(OutsideU64)
    else Ok(CeilRem(a, b))
  }

  function RaydiumAmountIn(amountOut: nat, inputReserve: nat, outputReserve: nat): Result<nat, Fault> {
    if inputReserve == 0 || outputReserve == 0 || amountOut >= outputReserve then Ok(0)
    else CeilDiv(inputReserve * amountOut * BPS, (outputReserve - amountOut) * 9975)
  }

  /** The Raydium AMM v4 pair: whenever the inverse answers, enough comes out exactly from its
      answer on; and it answers exactly when both of its products are u64. */
  lemma RaydiumGalois(x: nat, y: nat, inputReserve: nat, outputReserve: nat)
    requires 0 < inputReserve && y < outputReserve
    ensures RaydiumAmountIn(y, inputReserve, outputReserve).Ok?
       <==> inputReserve * y * BPS <= U64 && (outputReserve - y) * 9975 <= U64
    ensures var least := RaydiumAmountIn(y, inputReserve, outputReserve);
      least.Ok? ==> (RaydiumAmountOut(x, inputReserve, outputReserve) >= y <==> x >= least.value)
  {
    hide CeilRem, MulDiv;
    var needed, left := inputReserve * y * BPS, (outputReserve - y) * 9975;
    ProductOutIff(x * 9975, inputReserve * BPS, outputReserve, y);
    CeilRemIff(needed, left, x);
    assert needed == inputReserve * BPS * y;
    assert x * 9975 * (outputReserve - y) == x * left;
  }

  /** Exactly what a Raydium input yields: the most that keeps the constant product with 9975 parts in
      10000 of it. */
  lemma RaydiumYields(x: nat, inputReserve: nat, outputReserve: nat, y: nat)
    requires 0 < inputReserve && 0 < outputReserve
    ensures y <= RaydiumAmountOut(x, inputReserve, outputReserve)
       <==> inputReserve * BPS * y <= x * 9975 * (outputReserve - y)
  {
    hide MulDiv;
    ProductOutIff(x * 9975, inputReserve * BPS, outputReserve, y);
  }

  lemma RaydiumNothing(amount: nat, inputReserve: nat, outputReserve: nat)
    requires inputReserve == 0 || outputReserve == 0
    ensures RaydiumAmountOut(amount, inputReserve, outputReserve) == 0
    ensures RaydiumAmountIn(amount, inputReserve, outputReserve) == Ok(0)
  {
  }

  /** The number of binary digits. */
  function BitLength(n: nat): (length: nat)
    requires n > 0
    ensures n < Pow2(length)
  {
    if n == 1 then 1 else BitLength(n / 2) + 1
  }

  lemma {:induction false} Pow2Adds(j: nat, k: nat)
    ensures Pow2(j + k) == Pow2(j) * Pow2(k)
  {
    if j == 0 {
    } else {
      Pow2Adds(j - 1, k);
      assert j + k - 1 == j - 1 + k;
    }
  }

  lemma {:induction false} Pow2Grows(j: nat, k: nat)
    requires j <= k
    ensures Pow2(j) <= Pow2(k)
  {
    if j == k {
    } else {
      Pow2Grows(j, k - 1);
    }
  }

  /** At or above the root. */
  predicate Above(n: nat, x: nat) { n < (x + 1) * (x + 1) }

  predicate IsRoot(n: nat, r: nat) { r * r <= n && Above(n, r) }

  function NewtonStep(n: nat, x: nat): nat
    requires x > 0
  {
    (x + n / x) / 2
  }

  /** A power of two with half the digits is above the root. */
  lemma StartsAbove(n: nat, half: nat)
    requires n > 0 && BitLength(n) <= 2 * half
    ensures Above(n, Pow2(half))
  {
    hide Pow2, BitLength;
    Pow2Adds(half, half);
    Pow2Grows(BitLength(n), half + half);
    NextSquare(Pow2(half));
  }

  lemma NextSquare(p: nat)
    ensures p * p < (p + 1) * (p + 1)
  {
  }

  /** The square of half a sum, rounded up, is at least the product. */
  lemma HalvedAbove(a: nat, b: nat, half: nat)
    requires a + b <= 2 * half
    ensures b * a <= half * half
  {
    var p, s, t := a * b, (a + b) * (a + b), half * half;
    SquareOfSum(a, b);
    SquareMono(a + b, 2 * half);
    Doubled(half);
    assert 4 * p <= s <= 4 * t;
  }

  lemma Doubled(a: nat)
    ensures (2 * a) * (2 * a) == 4 * (a * a)
  {
  }

  /** A Newton step from anywhere stays at or above the root. */
  lemma NewtonAbove(n: nat, x: nat)
    requires x > 0 && n > 0
    ensures Above(n, NewtonStep(n, x)) && NewtonStep(n, x) > 0
  {
    var q, y := n / x, NewtonStep(n, x);
    FloorIff(n, x, q);
    FloorIff(n, x, 1);
    HalvedAbove(x, q + 1, y + 1);
  }

  /** A step that does not descend has arrived at the root. */
  lemma NewtonStops(n: nat, x: nat)
    requires x > 0 && Above(n, x) && NewtonStep(n, x) >= x
    ensures IsRoot(n, x)
  {
    FloorIff(n, x, x);
  }

  lemma SquareOfSum(a: int, b: int)
    ensures 4 * (a * b) <= (a + b) * (a + b)
  {
    assert (a + b) * (a + b) == 4 * (a * b) + (a - b) * (a - b);
    assert (a - b) * (a - b) >= 0;
  }

  /** The liquidity of two reserves: the exact floor of the root of their product. */
  method MeteoraLiquidity(reserveA: int, reserveB: int) returns (r: Result<nat, Fault>)
    ensures r.Ok? <==> Word(reserveA) && Word(reserveB)
    ensures r.Ok? ==> r.value * r.value <= reserveA * reserveB < (r.value + 1) * (r.value + 1)
  {
    if !Word(reserveA) || !Word(reserveB) { return Err(OutsideU64); }
    var n: nat := MulDiv(reserveA, reserveB, 1);
    if n < 2 { return Ok(n); }
    var root := FloorRoot(n);
    return Ok(root);
  }

  method FloorRoot(n: nat) returns (x: nat)
    requires n >= 2
    ensures IsRoot(n, x)
  {
    hide NewtonStep, Above, IsRoot, Pow2;
    var half := (BitLength(n) + 1) / 2;
    StartsAbove(n, half);
    x := Pow2(half);
    while true
      invariant x > 0 && Above(n, x)
      decreases x
    {
      var y := NewtonStep(n, x);
      if y >= x {
        NewtonStops(n, x);
        return;
      }
      NewtonAbove(n, x);
      x := y;
    }
  }
}
