/** The Raydium CLMM exact-in swap: one iteration and the bounded run, as functions of an
    explicit state, for any price map. */
module ClmmSwap {
  import opened Arith
  import opened Outcomes
  import opened TickMap
  import opened ClmmStep
  import opened ClmmOrder
  import opened Traversal

  datatype ClmmTick = ClmmTick(tick: int, liquidityNet: int, liquidityGross: nat, orders: nat, partialOrders: nat) {
    /** The liquidity crossed at this tick; a tick without gross liquidity crosses none. */
    function NodeOf(): Node { Node(tick, if liquidityGross > 0 then liquidityNet else 0) }
  }

  datatype ClmmPool = ClmmPool(sqrtPrice: nat, liquidity: nat, tickCurrent: int, tickSpacing: int, feeRate: int)

  /** The decoded dynamic-fee bytes; `enabled` says that some byte is not zero. */
  datatype DynamicFee = DynamicFee(
    enabled: bool, filterPeriod: nat, decayPeriod: nat, reductionFactor: nat, control: nat, maximum: nat,
    reference: int, volatilityReference: nat, volatility: nat, last: nat)

  datatype SwapResult = SwapResult(consumed: int, amountOut: nat, sqrtPrice: nat, tickCurrent: int, liquidity: nat)

  datatype SwapError =
    | InvalidInput
    | StepFailed(step: StepError)
    | OrderFailed(order: OrderError)
    | AmountOutsideRange
    | LiquidityOutsideRange
    | PriceOutsideRange
    | BudgetExhausted

  const BUDGET: nat := 8192

  /** What does not change during a run. */
  datatype Context = Context(
    price: PriceMap, floor: nat, ceiling: nat, ticks: seq<ClmmTick>, limit: nat, down: bool, feeRate: nat,
    tickSpacing: nat, inputFee: bool, enabled: bool, control: nat, maximum: nat, reference: int,
      volatilityReference: nat)
  {
    predicate Valid() {
      && IsPriceMap(price, floor, ceiling) && 0 < floor && ceiling <= U128
      && feeRate < MILLION && tickSpacing > 0
      && (forall i | 0 <= i < |ticks| :: TickInRange(ticks[i].tick))
      && (forall i, j | 0 <= i < j < |ticks| :: ticks[i].tick != ticks[j].tick)
    }

    function Nodes(): (ns: seq<Node>)
      ensures |ns| == |ticks|
      ensures forall i | 0 <= i < |ns| :: ns[i] == ticks[i].NodeOf()
    {
      seq(|ticks|, i requires 0 <= i < |ticks| => ticks[i].NodeOf())
    }
  }

  datatype State = State(
    current: nat, tick: int, liquidity: nat, remaining: nat, output: nat, orders: seq<nat>, group: int)

  datatype Outcome = Continue(next: State) | Return(last: State) | Break(last: State) | Fail(error: SwapError)

  /** A tick that the search considers: it carries liquidity or orders and lies ahead. */
  predicate Live(c: Context, s: State, i: nat)
    requires i < |c.ticks| == |s.orders|
  {
    (c.ticks[i].liquidityGross > 0 || s.orders[i] > 0) && IsAhead(c.down, s.tick, c.ticks[i].tick)
  }

  predicate Nearer(c: Context, i: nat, j: nat)
    requires i < |c.ticks| && j < |c.ticks|
  {
    if c.down then c.ticks[i].tick > c.ticks[j].tick else c.ticks[i].tick < c.ticks[j].tick
  }

  /** The linear scan over the first `n` ticks for the nearest live one. */
  function Nearest(c: Context, s: State, n: nat): (r: Option<nat>)
    requires n <= |c.ticks| == |s.orders|
    ensures r.None? ==> forall j | 0 <= j < n :: !Live(c, s, j)
    ensures r.Some? ==> r.value < n && Live(c, s, r.value) && forall j | 0 <= j < n && Live(c, s, j) ::
        !Nearer(c, j, r.value)
  {
    if n == 0 then None
    else
      var r := Nearest(c, s, n - 1);
      if Live(c, s, n - 1) && (r.None? || Nearer(c, n - 1, r.value)) then Some(n - 1) else r
  }

  function NextTick(c: Context, index: Option<nat>): int
    requires index.Some? ==> index.value < |c.ticks|
  {
    if index.Some? then c.ticks[index.value].tick else if c.down then MIN_TICK else MAX_TICK
  }

  function Target(c: Context, nextPrice: nat): nat {
    if c.down then Max(nextPrice, c.limit) else Min(nextPrice, c.limit)
  }

  function Volatility(c: Context, group: int): nat {
    Min(c.volatilityReference + Abs(c.reference - group) * 10000, c.maximum)
  }

  function FeeAt(c: Context, group: int): (f: nat)
    requires c.feeRate < MILLION
    ensures f < MILLION
  {
    if !c.enabled then c.feeRate
    else
      Min(c.feeRate + SquareCharge(c.control, Volatility(c, group), c.tickSpacing, 10_000_000_000_000), 100_000)
  }

  /** The dynamic fee never falls with the distance from the reference group, is at least the
      pool's own rate below the cap of a tenth, and never above the cap. */
  lemma FeeRises(c: Context, near: int, far: int)
    requires c.enabled && c.feeRate < MILLION && c.tickSpacing > 0
    requires Abs(c.reference - near) <= Abs(c.reference - far)
    ensures Min(c.feeRate, 100_000) <= FeeAt(c, near) <= FeeAt(c, far) <= 100_000
  {
    SquareChargeMono(c.control, Volatility(c, near), Volatility(c, far), c.tickSpacing, 10_000_000_000_000);
  }

  /** The dynamic fee is the least, up to the cap of a tenth, whose part above the pool's own rate
      carries the control times the squared, scaled volatility. */
  lemma FeeIff(c: Context, group: int, fee: nat)
    requires c.enabled && c.feeRate < MILLION
    ensures var scaled := Min(c.volatilityReference + Abs(c.reference - group) * 10000, c.maximum) * c.tickSpacing;
      FeeAt(c, group) <= fee <==>
        100_000 <= fee || (c.feeRate <= fee && c.control * scaled * scaled <= (fee - c.feeRate) * 10_000_000_000_000)
  {
    SquareChargeIff(c.control, Volatility(c, group), c.tickSpacing, 10_000_000_000_000, fee - c.feeRate);
  }

  /** Whether the iteration may run to its target without stopping at a volatility group. */
  predicate Skips(c: Context, s: State) {
    !c.enabled || s.liquidity == 0 || Volatility(c, s.group) == c.maximum
  }

  function Bound(c: Context, s: State, target: nat): nat {
    if Skips(c, s) then target
    else
      var boundary := Max(MIN_TICK, Min(MAX_TICK, (if c.down then s.group else s.group + 1) * c.tickSpacing));
      if c.down then Max(target, c.price(boundary)) else Min(target, c.price(boundary))
  }

  /** The fee kept back from an output when fees are charged there. */
  function OutputFee(gross: nat, fee: nat, inputFee: bool): nat {
    if inputFee then 0 else Ceil(gross * fee, MILLION)
  }

  lemma OutputFeeIff(gross: nat, fee: nat, inputFee: bool, n: nat)
    ensures OutputFee(gross, fee, inputFee) <= n <==> inputFee || gross * fee <= n * MILLION
  {
    CeilIff(gross * fee, MILLION, n);
  }

  /** The step towards the bound, with the fee taken from the input or from the output. */
  function Move(c: Context, s: State, bound: nat, fee: nat): Result<State, SwapError>
    requires fee < MILLION
  {
    if s.current == bound then Ok(s)
    else
      var r := SwapStep(s.current, bound, s.liquidity, s.remaining, if c.inputFee then fee else 0, c.down);
      if r.Err? then Err(StepFailed(r.error))
      else
        var step := r.value;
        var remaining := s.remaining - step.amountIn - (if c.inputFee then step.fee else 0);
        var output := s.output + step.amountOut - OutputFee(step.amountOut, fee, c.inputFee);
        if remaining < 0 || output < 0 || output > U64 then Err(AmountOutsideRange)
        else Ok(s.(current := step.sqrtPrice, remaining := remaining, output := output))
  }

  /** Filling the orders resting on tick `i`. */
  function TakeOrders(c: Context, s: State, i: nat, fee: nat): Result<State, SwapError>
    requires i < |c.ticks| == |s.orders| && fee < MILLION
  {
    if s.orders[i] == 0 || s.remaining == 0 then Ok(s)
    else
      var r := FillOrder(s.remaining, s.orders[i], OrderPrice(s.current, c.down), fee, c.inputFee, c.down);
      if r.Err? then Err(OrderFailed(r.error))
      else
        var fill := r.value;
        var remaining := s.remaining - (fill.consumed + fill.fee);
        var left := s.orders[i] - fill.gross;
        var output := s.output + fill.gross - OutputFee(fill.gross, fee, c.inputFee);
        if remaining < 0 || left < 0 || output < 0 || output > U64 then Err(AmountOutsideRange)
        else Ok(s.(remaining := remaining, orders := s.orders[i := left], output := output))
  }

  /** Crossing tick `i` once nothing is left on it; a tick with orders left is not crossed. */
  function CrossTick(c: Context, s: State, i: nat): Result<State, SwapError>
    requires i < |c.ticks| == |s.orders|
  {
    var t := c.ticks[i];
    var done := s.orders[i] == 0;
    var crossing := t.liquidityGross > 0 && done;
    var liquidity := if crossing then s.liquidity + (if c.down then -t.liquidityNet else t.liquidityNet)
      else s.liquidity;
    if crossing && !(0 <= liquidity <= U128) then Err(LiquidityOutsideRange)
    else Ok(s.(liquidity := liquidity, tick := if c.down == done then t.tick - 1 else t.tick))
  }

  /** The volatility group after an iteration. */
  function NextGroup(c: Context, group: int, skipped: bool, boundaryTick: int): int
    requires c.tickSpacing > 0
  {
    if !c.enabled then group
    else
      var base :=
        if !skipped then group
        else boundaryTick / c.tickSpacing - (if !c.down && boundaryTick % c.tickSpacing == 0 then 1 else 0);
      base + (if c.down then -1 else 1)
  }

  /** The group after an iteration: the adjacent one in the swap direction, or after skipped groups
      the first group that lies wholly beyond the boundary tick. */
  lemma GroupAhead(c: Context, group: int, skipped: bool, boundaryTick: int)
    requires c.enabled && c.tickSpacing > 0
    ensures var next := NextGroup(c, group, skipped, boundaryTick);
      && (!skipped ==> next == if c.down then group - 1 else group + 1)
      && (skipped && c.down ==> next * c.tickSpacing + c.tickSpacing <= boundaryTick < (next + 2) * c.tickSpacing)
      && (skipped && !c.down ==> (next - 1) * c.tickSpacing < boundaryTick <= next * c.tickSpacing)
  {
    var q := boundaryTick / c.tickSpacing;
    assert boundaryTick == q * c.tickSpacing + boundaryTick % c.tickSpacing;
    Distribute(c.tickSpacing, q, 1);
  }

  /** One iteration of the loop. */
  function Iterate(c: Context, s: State): Outcome
    requires c.Valid() && |s.orders| == |c.ticks|
  {
    if s.remaining == 0 || s.current == c.limit then Return(s)
    else
      var index := Nearest(c, s, |c.ticks|);
      var nextTick := NextTick(c, index);
      var nextPrice := c.price(nextTick);
      var fee := FeeAt(c, s.group);
      var skipped := Skips(c, s);
      var moved := Move(c, s, Bound(c, s, Target(c, nextPrice)), fee);
      if moved.Err? then Fail(moved.error)
      else if moved.value.current == nextPrice then
        if index.None? then Break(moved.value)
        else
          var filled := TakeOrders(c, moved.value, index.value, fee);
          if filled.Err? then Fail(filled.error)
          else
            var crossed := CrossTick(c, filled.value, index.value);
            if crossed.Err? then Fail(crossed.error)
            else Continue(crossed.value.(group := NextGroup(c, s.group, skipped, nextTick)))
      else if moved.value.current == s.current then
        Continue(moved.value.(group := NextGroup(c, s.group, skipped, s.tick)))
      else if !(c.floor <= moved.value.current < c.ceiling) then Fail(PriceOutsideRange)
      else
        var tick := TickAt(c.price, moved.value.current);
        Continue(moved.value.(tick := tick, group := NextGroup(c, s.group, skipped, tick)))
  }

  predicate Done(c: Context, s: State) { s.remaining == 0 || s.current == c.limit }

  /** After the loop: a swap that still has input and room is out of budget. */
  function Finish(c: Context, s: State): Result<State, SwapError> {
    if Done(c, s) then Ok(s) else Err(BudgetExhausted)
  }

  function Run(c: Context, s: State, budget: nat): Result<State, SwapError>
    requires c.Valid() && |s.orders| == |c.ticks|
    decreases budget
  {
    if budget == 0 then Finish(c, s)
    else
      match Iterate(c, s)
      case Return(last) => Ok(last)
      case Break(last) => Finish(c, last)
      case Fail(error) => Err(error)
      case Continue(next) => Run(c, next, budget - 1)
  }
}
