/** The Orca Whirlpool exact-in swap: one iteration and the bounded run, as functions of an
    explicit state, for any price map. */
module WhirlpoolSwap {
  import opened Arith
  import opened Outcomes
  import opened TickMap
  import opened ClmmStep
  import opened Traversal

  datatype SwapError =
    | InvalidInput
    | StepFailed(step: StepError)
    | AmountOutsideRange
    | LiquidityOutsideRange
    | PriceOutsideRange
    | TickOutsideRange
    | MoreArraysRequired
    | BudgetExhausted

  const BUDGET: nat := 8192

  /** Resolved adaptive-fee parameters. */
  datatype Adaptive = Adaptive(
    groupSize: nat, reference: int, volatilityReference: nat, maximum: nat, control: nat,
    lowerGroup: Option<int>, upperGroup: Option<int>)

  datatype Context = Context(
    price: PriceMap, floor: nat, ceiling: nat, nodes: seq<Node>, lower: int, upper: int, limit: nat, down: bool,
    feeRate: nat, adaptive: Option<Adaptive>)
  {
    predicate Valid() {
      && IsPriceMap(price, floor, ceiling) && 0 < floor && ceiling <= U128
      && floor <= limit <= ceiling
      && feeRate <= 65535 && (adaptive.Some? ==> adaptive.value.groupSize > 0)
      && MIN_TICK <= lower <= upper <= MAX_TICK
      && (forall i | 0 <= i < |nodes| :: lower <= nodes[i].tick <= upper)
      && (forall i, j | 0 <= i < j < |nodes| :: nodes[i].tick < nodes[j].tick)
    }
  }

  datatype State = State(
    current: nat, tick: int, liquidity: nat, remaining: nat, output: nat, fees: nat, minimumFee: nat,
    maximumFee: nat, first: bool, group: int)

  datatype Outcome = Continue(next: State) | Return | Fail(error: SwapError)

  /** Reference definition of the next initialised tick: a linear scan for the nearest one. */
  function Nearest(nodes: seq<Node>, down: bool, tick: int, n: nat): (r: Option<nat>)
    requires n <= |nodes|
    ensures r.None? ==> forall j | 0 <= j < n :: !IsAhead(down, tick, nodes[j].tick)
    ensures r.Some? ==> r.value < n && IsAhead(down, tick, nodes[r.value].tick)
    ensures r.Some? ==> forall j | 0 <= j < n && IsAhead(down, tick, nodes[j].tick) ::
        if down then nodes[j].tick <= nodes[r.value].tick else nodes[r.value].tick <= nodes[j].tick
  {
    if n == 0 then None
    else
      var r := Nearest(nodes, down, tick, n - 1);
      var t := nodes[n - 1].tick;
      if IsAhead(down, tick, t) && (r.None? || if down then nodes[r.value].tick < t else t < nodes[r.value].tick)
        then Some(n - 1)
      else r
  }

  function NextTick(c: Context, index: Option<nat>): int
    requires index.Some? ==> index.value < |c.nodes|
  {
    if index.Some? then c.nodes[index.value].tick else if c.down then c.lower else c.upper
  }

  function Target(c: Context, nextPrice: nat): nat {
    if c.down then Max(nextPrice, c.limit) else Min(nextPrice, c.limit)
  }

  function FeeAt(c: Context, group: int): (f: nat)
    requires c.feeRate <= 65535
    ensures f < MILLION
  {
    if c.adaptive.None? then c.feeRate
    else
      var a := c.adaptive.value;
      var volatility: nat := Min(a.volatilityReference + Abs(a.reference - group) * 10000, a.maximum);
      Min(c.feeRate + Min(SquareCharge(a.control, volatility, a.groupSize, 10_000_000_000_000), 100_000), 100_000)
  }

  /** The adaptive fee never falls with the distance from the reference group, is at least the
      pool's own rate and at most a tenth. */
  lemma FeeRises(c: Context, near: int, far: int)
    requires c.adaptive.Some? && c.feeRate <= 65535
    requires Abs(c.adaptive.value.reference - near) <= Abs(c.adaptive.value.reference - far)
    ensures c.feeRate <= FeeAt(c, near) <= FeeAt(c, far) <= 100_000
  {
    var a := c.adaptive.value;
    var low: nat := Min(a.volatilityReference + Abs(a.reference - near) * 10000, a.maximum);
    var high: nat := Min(a.volatilityReference + Abs(a.reference - far) * 10000, a.maximum);
    SquareChargeMono(a.control, low, high, a.groupSize, 10_000_000_000_000);
  }

  /** The adaptive fee is the least, up to a tenth, whose part above the pool's own rate carries the
      control times the squared, scaled volatility. */
  lemma FeeIff(c: Context, group: int, fee: nat)
    requires c.adaptive.Some? && c.feeRate <= 65535
    ensures var a := c.adaptive.value;
      var scaled := Min(a.volatilityReference + Abs(a.reference - group) * 10000, a.maximum) * a.groupSize;
      FeeAt(c, group) <= fee <==>
        100_000 <= fee || (c.feeRate <= fee && a.control * scaled * scaled <= (fee - c.feeRate) * 10_000_000_000_000)
  {
    var a := c.adaptive.value;
    var volatility: nat := Min(a.volatilityReference + Abs(a.reference - group) * 10000, a.maximum);
    SquareChargeIff(a.control, volatility, a.groupSize, 10_000_000_000_000, fee - c.feeRate);
  }

  /** The price bound of an iteration and whether volatility groups are skipped within it. */
  datatype Span = Span(bound: nat, skipped: bool)

  function SpanOf(c: Context, s: State, target: nat): Result<Span, SwapError> {
    if c.adaptive.None? then Ok(Span(target, false))
    else
      var a := c.adaptive.value;
      if a.control == 0 || s.liquidity == 0 then Ok(Span(target, true))
      else if a.lowerGroup.Some? && s.group < a.lowerGroup.value then
        if c.down then Ok(Span(target, true))
        else
          var edge := a.lowerGroup.value * a.groupSize;
          if TickInRange(edge) then Ok(Span(Min(target, c.price(edge)), true)) else Err(TickOutsideRange)
      else if a.upperGroup.Some? && a.upperGroup.value < s.group then
        if !c.down then Ok(Span(target, true))
        else
          var edge := (a.upperGroup.value + 1) * a.groupSize;
          if TickInRange(edge) then Ok(Span(Max(target, c.price(edge)), true)) else Err(TickOutsideRange)
      else
        var boundary := Max(MIN_TICK, Min(MAX_TICK, (if c.down then s.group else s.group + 1) * a.groupSize));
        Ok(Span(if c.down then Max(target, c.price(boundary)) else Min(target, c.price(boundary)), false))
  }

  /** The step and its accounting: all fees come off the input. */
  function Move(c: Context, s: State, bound: nat, fee: nat): Result<State, SwapError>
    requires fee < MILLION
  {
    var r := SwapStep(s.current, bound, s.liquidity, s.remaining, fee, c.down);
    if r.Err? then Err(StepFailed(r.error))
    else
      var step := r.value;
      var remaining := s.remaining - step.amountIn - step.fee;
      var output := s.output + step.amountOut;
      var fees := s.fees + step.fee;
      if remaining < 0 || output > U64 || fees > U64 then Err(AmountOutsideRange)
      else
        Ok(s.(current := step.sqrtPrice, remaining := remaining, output := output, fees := fees,
              minimumFee := if s.first then fee else Min(s.minimumFee, fee),
              maximumFee := if s.first then fee else Max(s.maximumFee, fee), first := false))
  }

  /** Position bookkeeping after a step: crossing the next tick, or looking the tick up. */
  function Settle(c: Context, before: nat, s: State, index: Option<nat>, nextTick: int): Result<State, SwapError>
    requires c.Valid() && (index.Some? ==> index.value < |c.nodes|)
  {
    if s.current == c.price(nextTick) then
      var liquidity :=
        if index.None? then s.liquidity
        else s.liquidity + (if c.down then -c.nodes[index.value].net else c.nodes[index.value].net);
      if index.Some? && !(0 <= liquidity <= U128) then Err(LiquidityOutsideRange)
      else Ok(s.(liquidity := liquidity, tick := if c.down then nextTick - 1 else nextTick))
    else if s.current == before then Ok(s)
    else if !(c.floor <= s.current <= c.ceiling) then Err(PriceOutsideRange)
    else Ok(s.(tick := TickAt(c.price, s.current)))
  }

  /** The volatility group after an iteration. */
  function NextGroup(c: Context, s: State, group: int, skipped: bool, nextTick: int): Result<int, SwapError>
    requires c.Valid()
  {
    if c.adaptive.None? then Ok(group)
    else
      var step := if c.down then -1 else 1;
      if !skipped then Ok(group + step)
      else if s.current != c.price(nextTick) && !(c.floor <= s.current <= c.ceiling) then Err(PriceOutsideRange)
      else
        var t := if s.current == c.price(nextTick) then nextTick else TickAt(c.price, s.current);
        var onBoundary := t % c.adaptive.value.groupSize == 0 && s.current == c.price(t);
        var last := t / c.adaptive.value.groupSize - (if !c.down && onBoundary then 1 else 0);
        Ok((if (if c.down then last < group else group < last) then last else group) + step)
  }

  /** The group of a tick, or the one before when the tick is its first and belongs to the latter. */
  lemma LastGroup(t: int, z: nat, before: bool, k: int)
    requires z > 0 && k == t / z - (if before && t % z == 0 then 1 else 0)
    ensures if before then k * z < t <= (k + 1) * z else k * z <= t < (k + 1) * z
  {
    var q := t / z;
    GroupIff(t, z);
    assert t == q * z + t % z;
    Distribute(z, q, 1);
    Distribute(z, k, 1);
  }

  /** The group after an iteration: the adjacent one in the swap direction, or after skipped groups the first
      that lies wholly beyond the price reached, unless the counter is further along already. */
  lemma GroupAhead(c: Context, s: State, group: int, skipped: bool, nextTick: int)
    requires c.Valid() && c.adaptive.Some? && c.adaptive.value.groupSize > 0 && c.floor <= s.current
    requires NextGroup(c, s, group, skipped, nextTick).Ok?
    ensures var next, z := NextGroup(c, s, group, skipped, nextTick).value, c.adaptive.value.groupSize;
      var t := if s.current == c.price(nextTick) then nextTick else TickAt(c.price, s.current);
      && (!skipped ==> next == if c.down then group - 1 else group + 1)
      && (skipped && c.down ==>
          && next < group && (next + 1) * z <= t && (next == group - 1 || t < (next + 2) * z))
      && (skipped && !c.down ==>
          && group < next && (if s.current == c.price(t) then t <= next * z else t < next * z)
          && (next == group + 1 || if s.current == c.price(t) then (next - 1) * z < t else (next - 1) * z <= t))
  {
    var next, z := NextGroup(c, s, group, skipped, nextTick).value, c.adaptive.value.groupSize;
    var t := if s.current == c.price(nextTick) then nextTick else TickAt(c.price, s.current);
    hide IsPriceMap, TickAt;
    if skipped {
      var before := !c.down && s.current == c.price(t);
      var k := t / z - (if before && t % z == 0 then 1 else 0);
      LastGroup(t, z, before, k);
      if c.down { MulMono(next + 1, k, z); } else { MulMono(k + 1, next, z); }
    }
  }

  predicate Done(c: Context, s: State) { s.remaining == 0 || s.current == c.limit }

  predicate OutOfArrays(c: Context, s: State) { if c.down then s.tick < c.lower else c.upper <= s.tick }

  /** One iteration of the loop. */
  function Iterate(c: Context, s: State): Outcome
    requires c.Valid()
  {
    if Done(c, s) then Return
    else if OutOfArrays(c, s) then Fail(MoreArraysRequired)
    else
      var index := Nearest(c.nodes, c.down, s.tick, |c.nodes|);
      var nextTick := NextTick(c, index);
      var span := SpanOf(c, s, Target(c, c.price(nextTick)));
      if span.Err? then Fail(span.error)
      else
        var moved := Move(c, s, span.value.bound, FeeAt(c, s.group));
        if moved.Err? then Fail(moved.error)
        else
          var settled := Settle(c, s.current, moved.value, index, nextTick);
          if settled.Err? then Fail(settled.error)
          else
            var group := NextGroup(c, settled.value, s.group, span.value.skipped, nextTick);
            if group.Err? then Fail(group.error)
            else Continue(settled.value.(group := group.value))
  }

  function Run(c: Context, s: State, budget: nat): Result<State, SwapError>
    requires c.Valid()
    decreases budget
  {
    if budget == 0 then Err(BudgetExhausted)
    else
      match Iterate(c, s)
      case Return => Ok(s)
      case Fail(error) => Err(error)
      case Continue(next) => Run(c, next, budget - 1)
  }
}
