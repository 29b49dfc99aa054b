/** A swap step given more input: it goes at least as far and pays at least as much. */
module StepMonotone {
  import opened Arith
  import opened Outcomes
  import opened ClmmStep

  lemma NetMonotone(a: nat, b: nat, feeRate: nat)
    requires feeRate < MILLION && a <= b
    ensures Net(a, feeRate) <= Net(b, feeRate)
  {
    MulMono(a, b, MILLION - feeRate);
    FloorMono(a * (MILLION - feeRate), b * (MILLION - feeRate), MILLION);
  }

  /** A larger divisor never gives a larger ceiled quotient. */
  lemma CeilAnti(n: nat, small: nat, large: nat)
    requires 0 < small <= large
    ensures Ceil(n, large) <= Ceil(n, small)
  {
    var q := Ceil(n, small);
    CeilIff(n, small, q);
    MulMono(small, large, q);
    CeilIff(n, large, q);
  }

  /** More net input takes the price at least as far in the swap direction. */
  lemma ReachedMonotone(current: nat, liquidity: nat, m: nat, n: nat, down: bool)
    requires 0 < current && 0 < liquidity && m <= n
    ensures if down then Reached(current, liquidity, n, down) <= Reached(current, liquidity, m, down)
      else Reached(current, liquidity, m, down) <= Reached(current, liquidity, n, down)
  {
    if down {
      MulMono(m, n, current);
      CeilAnti(liquidity * Q64 * current, liquidity * Q64 + m * current, liquidity * Q64 + n * current);
    } else {
      FloorMono(m * Q64, n * Q64, liquidity);
    }
  }

  /** From p * near <= s * (near - current) the same follows for a farther end. */
  lemma Scaled(p: nat, s: nat, current: nat, near: nat, far: nat)
    requires 0 < current <= near <= far && p * near <= s * (near - current)
    ensures p * far <= s * (far - current)
  {
    Distribute(near, s, p);
    Distribute(far, s, p);
    Distribute(s, near, current);
    Distribute(s, far, current);
    assert s * current >= 0;
    if s < p { MulStrict(s, p, near); } else { MulMono(near, far, s - p); }
  }

  lemma Regroup(out: nat, current: nat, end: nat)
    ensures out * (end * current) == out * current * end
  {
  }

  /** The output of a move in the first token grows with the distance moved. */
  lemma RisingOutput(current: nat, near: nat, far: nat, s: nat)
    requires 0 < current <= near <= far
    ensures MulDiv(s, near - current, near * current) <= MulDiv(s, far - current, far * current)
  {
    var out := MulDiv(s, near - current, near * current);
    FloorIff(s * (near - current), near * current, out);
    FloorIff(s * (far - current), far * current, out);
    hide MulDiv;
    Regroup(out, current, near);
    Regroup(out, current, far);
    Scaled(out * current, s, current, near, far);
  }

  lemma OutputUp(current: nat, next: nat, liquidity: nat)
    requires 0 < current <= next
    ensures Delta(current, next, liquidity, true, false) == MulDiv(liquidity * Q64, next - current, next * current)
  {
    assert liquidity * (next - current) * Q64 == liquidity * Q64 * (next - current);
  }

  lemma OutputDown(current: nat, next: nat, liquidity: nat)
    requires 0 < next <= current
    ensures Delta(current, next, liquidity, false, false) == MulDiv(liquidity, current - next, Q64)
  {
  }

  lemma OutputMonotone(current: nat, near: nat, far: nat, liquidity: nat, down: bool)
    requires 0 < near && 0 < far && (if down then far <= near <= current else 0 < current <= near <= far)
    ensures 0 < current && Delta(current, near, liquidity, !down, false) <= Delta(current, far, liquidity, !down, false)
  {
    hide Delta;
    if down {
      OutputDown(current, near, liquidity);
      OutputDown(current, far, liquidity);
      MulMono(current - near, current - far, liquidity);
      FloorMono(liquidity * (current - near), liquidity * (current - far), Q64);
    } else {
      hide MulDiv;
      OutputUp(current, near, liquidity);
      OutputUp(current, far, liquidity);
      RisingOutput(current, near, far, liquidity * Q64);
    }
  }

  lemma StopMonotone(current: nat, target: nat, liquidity: nat, m: nat, n: nat, down: bool)
    requires 0 < current && 0 < target && (if down then target <= current else current <= target) && m <= n
    ensures var near, far := Stop(current, target, liquidity, m, down), Stop(current, target, liquidity, n, down);
      && (if down then far <= near <= current else current <= near <= far)
      && (near == target ==> far == target)
  {
    StopEnvelope(current, target, liquidity, m, down);
    StopEnvelope(current, target, liquidity, n, down);
    hide Delta;
    if liquidity > 0 { ReachedMonotone(current, liquidity, m, n, down); }
    hide Reached;
  }

  /** Two inputs to the same step: when the smaller one reaches the target both pay and get the
      same, and otherwise the smaller one is used up and the larger one gets at least as much. */
  lemma StepPair(current: nat, target: nat, liquidity: nat, a: nat, b: nat, feeRate: nat, down: bool)
    requires a <= b && SwapStep(current, target, liquidity, a, feeRate, down).Ok?
    requires SwapStep(current, target, liquidity, b, feeRate, down).Ok?
    ensures var r, s := SwapStep(current, target, liquidity, a, feeRate, down).value,
        SwapStep(current, target, liquidity, b, feeRate, down).value;
      && (r.sqrtPrice == target ==> s == r)
      && (r.sqrtPrice != target ==> r.amountIn + r.fee == a)
      && r.amountOut <= s.amountOut
  {
    StepEnvelope(current, target, liquidity, a, feeRate, down);
    StepEnvelope(current, target, liquidity, b, feeRate, down);
    NetMonotone(a, b, feeRate);
    StopMonotone(current, target, liquidity, Net(a, feeRate), Net(b, feeRate), down);
    var near, far := Stop(current, target, liquidity, Net(a, feeRate), down),
      Stop(current, target, liquidity, Net(b, feeRate), down);
    hide Stop, Net, Delta, StepFee;
    OutputMonotone(current, near, far, liquidity, down);
  }

  /** Not even the smallest price movement is affordable, with no fee on the input. */
  predicate Pinned(current: nat, liquidity: nat, net: nat, down: bool) {
    if down then net * current * (current - 1) < liquidity * Q64 else net * Q64 < liquidity
  }

  /** Going down, what the ceiled price leaves of the input does not pay for one unit more. */
  lemma DustDown(s: nat, current: nat, net: nat, next: nat, paid: nat)
    requires 0 < s && 0 < current && next == Ceil(s * current, s + net * current) && 0 < next
    requires s * (current - next) <= paid * (current * next)
    ensures (net - paid) * next * (next - 1) < s
  {
    var k, d := next - 1, s + net * current;
    CeilIff(s * current, d, k);
    hide Ceil;
    assert k * d == k * s + net * current * k by { Distribute(k, s, net * current); }
    var a, b := net * current * k, paid * (current * next);
    MulStrict(a, s * current - k * s, next);
    MulMono(s * (current - next), b, k);
    DustProduct(s, current, net, paid, k);
    MulCancelStrict((net - paid) * next * k, s, current);
  }

  lemma DustProduct(s: nat, current: nat, net: nat, paid: nat, k: nat)
    ensures (net - paid) * (k + 1) * k * current == net * current * k * (k + 1) - paid * (current * (k + 1)) * k
    ensures (s * current - k * s) * (k + 1) - s * (current - (k + 1)) * k == s * current
  {
    RestProduct(net, paid, (k + 1) * k * current);
    Shuffle(net, k + 1, k, current);
    Shuffle(paid, k + 1, k, current);
    Shuffle(net - paid, k + 1, k, current);
    GapProduct(s, current, k);
  }

  lemma RestProduct(net: nat, paid: nat, p: int)
    ensures (net - paid) * p == net * p - paid * p
  {
  }

  lemma Shuffle(x: int, n: int, k: int, c: int)
    ensures x * (n * k * c) == x * n * k * c == x * c * k * n == x * (c * n) * k
  {
  }

  lemma GapProduct(s: nat, current: nat, k: nat)
    ensures (s * current - k * s) * (k + 1) - s * (current - (k + 1)) * k == s * current
  {
    var p := s * current;
    assert (p - k * s) * (k + 1) == p * k + p - k * s * k - k * s;
    assert s * (current - (k + 1)) == p - s * k - s;
    assert (p - s * k - s) * k == p * k - s * k * k - s * k;
    assert k * s * k == s * k * k && k * s == s * k;
  }

  /** A step without fee that stops short leaves a rest that cannot move the price any more. */
  lemma ShortIsPinned(current: nat, target: nat, liquidity: nat, a: nat, down: bool)
    requires SwapStep(current, target, liquidity, a, 0, down).Ok?
    requires SwapStep(current, target, liquidity, a, 0, down).value.sqrtPrice != target
    ensures var r := SwapStep(current, target, liquidity, a, 0, down).value;
      r.amountIn <= a && 0 < liquidity && Pinned(r.sqrtPrice, liquidity, a - r.amountIn, down)
  {
    StepEnvelope(current, target, liquidity, a, 0, down);
    NoFee(a);
    var r := SwapStep(current, target, liquidity, a, 0, down).value;
    hide SwapStep;
    if down {
      DownPinned(current, r.sqrtPrice, liquidity, a, r.amountIn);
    } else {
      UpPinned(current, r.sqrtPrice, liquidity, a, r.amountIn);
    }
  }

  lemma NoFee(a: nat)
    ensures Net(a, 0) == a
  {
    FloorIff(a * MILLION, MILLION, a);
    FloorIff(a * MILLION, MILLION, a + 1);
  }

  lemma DownPinned(current: nat, next: nat, liquidity: nat, net: nat, paid: nat)
    requires 0 < next <= current && 0 < liquidity && next == Reached(current, liquidity, net, true)
    requires paid == Delta(current, next, liquidity, true, true) <= net
    ensures Pinned(next, liquidity, net - paid, true)
  {
    DeltaDown(current, next, liquidity);
    hide Delta;
    var s := liquidity * Q64;
    CeilIff(s * (current - next), current * next, paid);
    DustDown(s, current, net, next, paid);
  }

  lemma UpPinned(current: nat, next: nat, liquidity: nat, net: nat, paid: nat)
    requires 0 < current <= next && 0 < liquidity && next == Reached(current, liquidity, net, false)
    requires paid == Delta(current, next, liquidity, false, true) <= net
    ensures Pinned(next, liquidity, net - paid, false)
  {
    var move := next - current;
    FloorIff(net * Q64, liquidity, move + 1);
    CeilIff(liquidity * move, Q64, paid);
    Distribute(liquidity, move, 1);
    Distribute(Q64, net, paid);
  }

  /** From a pinned price a step without fee goes nowhere and exchanges nothing. */
  lemma PinnedStays(current: nat, bound: nat, liquidity: nat, net: nat, down: bool)
    requires Pinned(current, liquidity, net, down) && ValidStep(current, bound, liquidity, net, 0, down)
    requires bound != current
    ensures SwapStep(current, bound, liquidity, net, 0, down) == Ok(Step(current, 0, 0, net))
  {
    NoFee(net);
    StepEnvelope(current, bound, liquidity, net, 0, down);
    StopEnvelope(current, bound, liquidity, net, down);
    var next := Stop(current, bound, liquidity, net, down);
    hide Stop;
    UnitCost(current, bound, liquidity, net, down);
    if next != current { UnitCost(current, next, liquidity, net, down); }
    NoMove(current, liquidity, down);
  }

  /** Every movement from a pinned price costs more than there is. */
  lemma UnitCost(current: nat, next: nat, liquidity: nat, net: nat, down: bool)
    requires Pinned(current, liquidity, net, down) && 0 < next && (if down then next < current else 0 < current < next)
    ensures net < Delta(current, next, liquidity, down, true)
  {
    if down {
      var s := liquidity * Q64;
      DeltaDown(current, next, liquidity);
      hide Delta;
      CeilIff(s * (current - next), current * next, net);
      hide Ceil;
      UnitDown(s, current, next, net);
    } else {
      CeilIff(liquidity * (next - current), Q64, net);
      MulMono(1, next - current, liquidity);
    }
  }

  lemma UnitDown(s: nat, current: nat, next: nat, net: nat)
    requires net * current * (current - 1) < s && 0 < next < current
    ensures net * (current * next) < s * (current - next)
  {
    MulMono(next, current - 1, net * current);
    MulMono(1, current - next, s);
    Shuffle(net, current, next, 1);
  }

  lemma NoMove(current: nat, liquidity: nat, down: bool)
    requires current > 0
    ensures Delta(current, current, liquidity, down, true) == 0 && Delta(current, current, liquidity, !down, false) == 0
  {
    var d := if down then current * current else Q64;
    var e := if down then Q64 else current * current;
    assert liquidity * 0 == 0;
    CeilIff(0, d, 0);
    FloorIff(0, e, 1);
    hide Ceil;
  }
}
