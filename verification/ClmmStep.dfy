/** One constant-liquidity swap step, shared by the CLMM and Whirlpool engines. */
module ClmmStep {
  import opened Arith
  import opened Outcomes

  const MILLION: nat := 1_000_000

  /** Token amount between two prices: `token0` divides by the price product, the other token
      by one in Q64. */
  function Delta(a: nat, b: nat, liquidity: nat, token0: bool, up: bool): nat
    requires a > 0 && b > 0
  {
    var low, high := Min(a, b), Max(a, b);
    var n: nat := liquidity * (high - low) * (if token0 then Q64 else 1);
    var d: nat := if token0 then high * low else Q64;
    if up then Ceil(n, d) else n / d
  }

  datatype Step = Step(sqrtPrice: nat, amountIn: nat, amountOut: nat, fee: nat)

  datatype StepError = InvalidStep | ZeroLiquidity | OutsideRange

  predicate ValidStep(current: nat, target: nat, liquidity: nat, remaining: nat, feeRate: nat, down: bool) {
    && current <= U128 && target <= U128 && liquidity <= U128 && remaining <= U64
    && feeRate < MILLION && 0 < current && 0 < target
    && (if down then target <= current else current <= target)
  }

  /** The input net of the fee. */
  function Net(remaining: nat, feeRate: nat): nat
    requires feeRate < MILLION
  {
    remaining * (MILLION - feeRate) / MILLION
  }

  lemma NetIff(remaining: nat, rate: nat, n: nat)
    requires rate < MILLION
    ensures n <= Net(remaining, rate) <==> n * MILLION <= remaining * (MILLION - rate)
  {
    FloorIff(remaining * (MILLION - rate), MILLION, n);
  }

  /** Where a step that cannot reach its target stops. */
  function Reached(current: nat, liquidity: nat, net: nat, down: bool): nat
    requires current > 0 && liquidity > 0
  {
    if down then Ceil(liquidity * Q64 * current, liquidity * Q64 + net * current)
    else current + net * Q64 / liquidity
  }

  /** The price at which a step ends. */
  function Stop(current: nat, target: nat, liquidity: nat, net: nat, down: bool): nat
    requires current > 0 && target > 0
  {
    if liquidity == 0 || Delta(current, target, liquidity, down, true) <= net then target
    else Reached(current, liquidity, net, down)
  }

  /** The fee on a step: everything left when the step stops short, else the rate grossed up. */
  function StepFee(remaining: int, amountIn: nat, feeRate: nat, full: bool): int
    requires feeRate < MILLION
  {
    if full then Ceil(amountIn * feeRate, MILLION - feeRate) else remaining - amountIn
  }

  function SwapStep(current: nat, target: nat, liquidity: nat, remaining: nat, feeRate: nat, down: bool)
    : (r: Result<Step, StepError>)
  {
    if !ValidStep(current, target, liquidity, remaining, feeRate, down) then Err(InvalidStep)
    else
      var net := Net(remaining, feeRate);
      var needed := Delta(current, target, liquidity, down, true);
      if needed > net && liquidity == 0 then Err(ZeroLiquidity)
      else
        var next := Stop(current, target, liquidity, net, down);
        if next == 0 then Err(OutsideRange)
        else
          var amountIn := if next == target then needed else Delta(current, next, liquidity, down, true);
          var amountOut := Delta(current, next, liquidity, !down, false);
          var fee := StepFee(remaining, amountIn, feeRate, next == target);
          if next > U128 || amountIn > U64 || amountOut > U64 || fee < 0 || fee > U64 then Err(OutsideRange)
          else Ok(Step(next, amountIn, amountOut, fee))
  }

  /** The net input is the greatest amount that fits the input together with its ceiled fee. */
  lemma GrossFits(remaining: nat, amount: nat, feeRate: nat)
    requires feeRate < MILLION
    ensures amount <= Net(remaining, feeRate) <==> amount + Ceil(amount * feeRate, MILLION - feeRate) <= remaining
  {
    var keep := MILLION - feeRate;
    FloorIff(remaining * keep, MILLION, amount);
    CeilIff(amount * feeRate, keep, remaining - amount);
    hide Ceil;
    Distribute(amount, feeRate, keep);
    Distribute(keep, remaining, amount);
  }

  lemma NetFits(remaining: nat, feeRate: nat)
    requires feeRate < MILLION
    ensures Net(remaining, feeRate) <= remaining
  {
    GrossFits(remaining, Net(remaining, feeRate), feeRate);
  }

  lemma DeltaDown(current: nat, next: nat, liquidity: nat)
    requires 0 < next <= current
    ensures Delta(current, next, liquidity, true, true) == Ceil(liquidity * Q64 * (current - next), current * next)
  {
    assert liquidity * (current - next) * Q64 == liquidity * Q64 * (current - next);
  }

  lemma DeltaUp(current: nat, next: nat, liquidity: nat)
    requires 0 < current <= next
    ensures Delta(current, next, liquidity, false, true) == Ceil(liquidity * (next - current), Q64)
  {
  }

  /** Going down, a price is paid for exactly when it covers the product with what was paid in. */
  lemma PaidDown(s: nat, current: nat, net: nat, p: nat)
    ensures s * (current - p) <= net * (current * p) <==> s * current <= p * (s + net * current)
  {
    Distribute(s, current, p);
    Distribute(p, s, net * current);
    assert p * (net * current) == net * (current * p) && p * s == s * p;
  }

  /** The price reached is the furthest that the net input pays for. */
  lemma ReachedIff(current: nat, liquidity: nat, net: nat, down: bool, p: nat)
    requires 0 < current && 0 < liquidity && (if down then 0 < p <= current else current <= p)
    ensures Delta(current, p, liquidity, down, true) <= net
       <==> if down then Reached(current, liquidity, net, down) <= p else p <= Reached(current, liquidity, net, down)
  {
    hide Delta, Ceil;
    if down {
      var s := liquidity * Q64;
      DeltaDown(current, p, liquidity);
      CeilIff(s * (current - p), current * p, net);
      CeilIff(s * current, s + net * current, p);
      PaidDown(s, current, net, p);
    } else {
      var move := p - current;
      DeltaUp(current, p, liquidity);
      CeilIff(liquidity * move, Q64, net);
      FloorIff(net * Q64, liquidity, move);
      assert move * liquidity == liquidity * move;
    }
  }

  lemma StandingStill(current: nat, liquidity: nat, net: nat, down: bool)
    requires 0 < current && 0 < liquidity
    ensures if down then 0 < Reached(current, liquidity, net, down) <= current
      else current <= Reached(current, liquidity, net, down)
  {
    if down {
      var s := liquidity * Q64;
      MulStrict(0, s, current);
      CeilIff(s * current, s + net * current, 0);
      CeilIff(s * current, s + net * current, current);
      Distribute(current, s, net * current);
    }
  }

  /** Without liquidity every target is reached for nothing. */
  lemma FreeMove(current: nat, target: nat, down: bool)
    requires current > 0 && target > 0
    ensures Delta(current, target, 0, down, true) == 0
  {
    CeilIff(0, if down then Max(current, target) * Min(current, target) else Q64, 0);
  }

  lemma StopEnvelope(current: nat, target: nat, liquidity: nat, net: nat, down: bool)
    requires 0 < current && 0 < target && (if down then target <= current else current <= target)
    ensures var next := Stop(current, target, liquidity, net, down);
      && Min(current, target) <= next <= Max(current, target)
      && Delta(current, next, liquidity, down, true) <= net
      && (next == target <==> Delta(current, target, liquidity, down, true) <= net)
  {
    hide Delta, Reached;
    if liquidity == 0 {
      FreeMove(current, target, down);
    } else if Delta(current, target, liquidity, down, true) > net {
      StandingStill(current, liquidity, net, down);
      ReachedIff(current, liquidity, net, down, target);
      ReachedIff(current, liquidity, net, down, Reached(current, liquidity, net, down));
    }
  }

  /** A step stops at the furthest price, up to its target, that its net input pays for. */
  lemma StopFurthest(current: nat, target: nat, liquidity: nat, net: nat, down: bool, p: nat)
    requires 0 < current && 0 < target && (if down then target <= p <= current else current <= p <= target)
    ensures Delta(current, p, liquidity, down, true) <= net
       <==> if down then Stop(current, target, liquidity, net, down) <= p
            else p <= Stop(current, target, liquidity, net, down)
  {
    hide Delta, Reached;
    if liquidity == 0 {
      FreeMove(current, p, down);
    } else {
      ReachedIff(current, liquidity, net, down, p);
      ReachedIff(current, liquidity, net, down, target);
    }
  }

  /** The whole envelope of a step on valid input.  The zero-liquidity error cannot occur, and
      the only failure left is an output above 64 bits.  The price ends between the two given
      ones, the charge fits the input, and a step that falls short of its target, which happens
      exactly when the net input does not cover it, takes all of the input. */
  lemma StepEnvelope(current: nat, target: nat, liquidity: nat, remaining: nat, feeRate: nat, down: bool)
    requires ValidStep(current, target, liquidity, remaining, feeRate, down)
    ensures var r := SwapStep(current, target, liquidity, remaining, feeRate, down);
      var next := Stop(current, target, liquidity, Net(remaining, feeRate), down);
      && Min(current, target) <= next <= Max(current, target)
      && (next == target <==> Delta(current, target, liquidity, down, true) <= Net(remaining, feeRate))
      && (r.Err? <==> Delta(current, next, liquidity, !down, false) > U64)
      && (r.Err? ==> r.error == OutsideRange)
      && (r.Ok? ==>
        && r.value.sqrtPrice == next
        && r.value.amountIn == Delta(current, next, liquidity, down, true)
        && r.value.amountOut == Delta(current, next, liquidity, !down, false)
        && r.value.amountIn + r.value.fee <= remaining
        && (next != target ==> r.value.amountIn + r.value.fee == remaining))
  {
    var net := Net(remaining, feeRate);
    NetFits(remaining, feeRate);
    StopEnvelope(current, target, liquidity, net, down);
    if liquidity == 0 {
      FreeMove(current, target, down);
    }
    if Delta(current, target, liquidity, down, true) <= net {
      GrossFits(remaining, Delta(current, target, liquidity, down, true), feeRate);
    }
  }

  /** A step never pays out more than the price allows: the output is bounded by the input
      exchanged at the product of the two end prices. */
  lemma StepFair(current: nat, target: nat, liquidity: nat, remaining: nat, feeRate: nat, down: bool)
    requires SwapStep(current, target, liquidity, remaining, feeRate, down).Ok?
    ensures var s := SwapStep(current, target, liquidity, remaining, feeRate, down).value;
      if down then s.amountOut * (Q64 * Q64) <= s.amountIn * (current * s.sqrtPrice)
      else s.amountOut * (current * s.sqrtPrice) <= s.amountIn * (Q64 * Q64)
  {
    StepEnvelope(current, target, liquidity, remaining, feeRate, down);
    var s := SwapStep(current, target, liquidity, remaining, feeRate, down).value;
    DeltaFair(current, s.sqrtPrice, liquidity, down);
  }

  lemma DeltaFair(current: nat, next: nat, liquidity: nat, down: bool)
    requires 0 < current && 0 < next && (if down then next <= current else current <= next)
    ensures var amountIn, amountOut := Delta(current, next, liquidity, down, true),
        Delta(current, next, liquidity, !down, false);
      if down then amountOut * (Q64 * Q64) <= amountIn * (current * next)
      else amountOut * (current * next) <= amountIn * (Q64 * Q64)
  {
    var p := current * next;
    var gap: nat := Max(current, next) - Min(current, next);
    var lg := liquidity * gap;
    assert Max(current, next) * Min(current, next) == p;
    if down {
      var o, i := lg / Q64, Ceil(lg * Q64, p);
      FloorIff(lg, Q64, o);
      CeilIff(lg * Q64, p, i);
      MulMono(o * Q64, lg, Q64);
    } else {
      var o, i := lg * Q64 / p, Ceil(lg, Q64);
      FloorIff(lg * Q64, p, o);
      CeilIff(lg, Q64, i);
      MulMono(lg, i * Q64, Q64);
    }
  }

  /** A step that reaches its target is charged the least fee that carries the rate. */
  lemma StepFeeLeast(current: nat, target: nat, liquidity: nat, remaining: nat, feeRate: nat, down: bool, fee: nat)
    requires SwapStep(current, target, liquidity, remaining, feeRate, down).Ok?
    requires SwapStep(current, target, liquidity, remaining, feeRate, down).value.sqrtPrice == target
    ensures var s := SwapStep(current, target, liquidity, remaining, feeRate, down).value;
      s.fee <= fee <==> feeRate * (s.amountIn + fee) <= fee * MILLION
  {
    hide Stop, Delta, Ceil;
    FeeLeast(SwapStep(current, target, liquidity, remaining, feeRate, down).value.amountIn, feeRate, fee);
  }

  lemma FeeLeast(amountIn: nat, feeRate: nat, fee: nat)
    requires feeRate < MILLION
    ensures Ceil(amountIn * feeRate, MILLION - feeRate) <= fee <==> feeRate * (amountIn + fee) <= fee * MILLION
  {
    hide Ceil;
    CeilIff(amountIn * feeRate, MILLION - feeRate, fee);
    Distribute(feeRate, amountIn, fee);
    Distribute(fee, MILLION, feeRate);
  }

  /** A step charges at least its rate on everything it takes from the input. */
  lemma StepFeeFloor(current: nat, target: nat, liquidity: nat, remaining: nat, feeRate: nat, down: bool)
    requires SwapStep(current, target, liquidity, remaining, feeRate, down).Ok?
    ensures var s := SwapStep(current, target, liquidity, remaining, feeRate, down).value;
      feeRate * (s.amountIn + s.fee) <= s.fee * MILLION
  {
    StepEnvelope(current, target, liquidity, remaining, feeRate, down);
    StopEnvelope(current, target, liquidity, Net(remaining, feeRate), down);
    var s := SwapStep(current, target, liquidity, remaining, feeRate, down).value;
    FeeFloor(remaining, s.amountIn, feeRate, s.sqrtPrice == target);
  }

  lemma FeeFloor(remaining: nat, amountIn: nat, feeRate: nat, full: bool)
    requires feeRate < MILLION && amountIn <= Net(remaining, feeRate)
    ensures var fee := StepFee(remaining, amountIn, feeRate, full); feeRate * (amountIn + fee) <= fee * MILLION
  {
    var keep := MILLION - feeRate;
    if full {
      var fee := Ceil(amountIn * feeRate, keep);
      CeilIff(amountIn * feeRate, keep, fee);
      assert fee * MILLION == fee * keep + fee * feeRate;
    } else {
      FloorIff(remaining * keep, MILLION, amountIn);
      assert remaining * MILLION == remaining * keep + remaining * feeRate;
    }
  }
}
