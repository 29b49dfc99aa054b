/** The Raydium CLMM quote: validation, the imperative traversal, and its guarantees. */
module ClmmEngine {
  import opened Arith
  import opened Outcomes
  import opened TickMap
  import opened ClmmStep
  import opened ClmmOrder
  import opened Traversal
  import opened ClmmSwap
  import opened ClmmSafety
  import opened ClmmProgress
  import opened Sorting
  import ClmmPrice

  datatype Request = Request(
    pool: ClmmPool, ticks: seq<ClmmTick>, amount: nat, limit: nat, feeOn: int, dynamic: DynamicFee,
    timestamp: nat, down: bool)
  {
    predicate ValidPool() {
      && ClmmPrice.MIN_SQRT_PRICE <= pool.sqrtPrice <= ClmmPrice.MAX_SQRT_PRICE
      && pool.liquidity <= U128 && TickInRange(pool.tickCurrent)
      && 1 <= pool.tickSpacing <= 65535 && 0 <= pool.feeRate < MILLION && 0 <= feeOn <= 2
    }

    predicate ValidLimit() {
      && ClmmPrice.MIN_SQRT_PRICE <= limit <= ClmmPrice.MAX_SQRT_PRICE
      && if down then limit < pool.sqrtPrice else pool.sqrtPrice < limit
    }

    predicate ValidDynamic() {
      dynamic.enabled ==>
        && 0 < dynamic.filterPeriod < dynamic.decayPeriod && 1 <= dynamic.reductionFactor < 10000
        && 1 <= dynamic.control < 100_000 && dynamic.maximum * pool.tickSpacing <= 0xffff_ffff
    }

    predicate ValidTick(t: ClmmTick)
      requires ValidPool()
    {
      && TickInRange(t.tick) && t.tick % pool.tickSpacing == 0
      && -0x8000_0000_0000_0000_0000_0000_0000_0000 <= t.liquidityNet < 0x8000_0000_0000_0000_0000_0000_0000_0000
      && t.liquidityGross <= U128 && t.orders <= U64 && t.partialOrders <= U64 && t.orders + t.partialOrders <= U64
    }

    predicate Valid() {
      && amount <= U64 && timestamp <= U64 && ValidPool() && ValidLimit() && ValidDynamic()
      && (forall i | 0 <= i < |ticks| :: ValidTick(ticks[i]))
      && (forall i, j | 0 <= i < j < |ticks| :: ticks[i].tick != ticks[j].tick)
    }

    /** Whether the elapsed time renews the volatility reference. */
    predicate Renews() {
      dynamic.enabled && dynamic.filterPeriod <= Max(timestamp - dynamic.last, 0)
    }

    function StartGroup(): int
      requires ValidPool()
    {
      pool.tickCurrent / pool.tickSpacing
    }

    function ContextOf(): Context
      requires ValidPool()
    {
      Context(
        ClmmPrice.PriceAt, ClmmPrice.MIN_SQRT_PRICE, ClmmPrice.MAX_SQRT_PRICE, ticks, limit, down, pool.feeRate,
        pool.tickSpacing, feeOn == 0 || (feeOn == 1 && down) || (feeOn == 2 && !down), dynamic.enabled, dynamic.control,
        dynamic.maximum, if Renews() then StartGroup() else dynamic.reference,
        if !Renews() then dynamic.volatilityReference
        else if timestamp - dynamic.last < dynamic.decayPeriod then dynamic.volatility * dynamic.reductionFactor / 10000
        else 0)
    }

    function StartOf(): (s: State)
      requires ValidPool()
      ensures |s.orders| == |ticks|
    {
      State(pool.sqrtPrice, pool.tickCurrent, pool.liquidity, amount, 0,
        seq(|ticks|, i requires 0 <= i < |ticks| => ticks[i].orders + ticks[i].partialOrders), StartGroup())
    }
  }

  lemma ContextValid(q: Request)
    requires q.Valid()
    ensures q.ContextOf().Valid()
  {
    ClmmPrice.PriceMapValid(MIN_TICK, MAX_TICK);
  }

  /** The references of the dynamic fee: kept within the filter period, then renewed from the standing tick,
      with the greatest volatility that the reduction leaves until it has decayed. */
  lemma ReferenceIff(q: Request, n: nat)
    requires q.ValidPool() && q.Valid() && q.dynamic.enabled
    ensures var c, d, elapsed := q.ContextOf(), q.dynamic, Max(q.timestamp - q.dynamic.last, 0);
      && (elapsed < d.filterPeriod ==>
          c.reference == d.reference && c.volatilityReference == d.volatilityReference)
      && (d.filterPeriod <= elapsed ==>
          c.reference * q.pool.tickSpacing <= q.pool.tickCurrent < (c.reference + 1) * q.pool.tickSpacing)
      && (d.filterPeriod <= elapsed < d.decayPeriod ==>
          (n <= c.volatilityReference <==> n * 10000 <= d.volatility * d.reductionFactor))
      && (d.decayPeriod <= elapsed ==> c.volatilityReference == 0)
  {
    hide ClmmPrice.PriceAt, Request.ValidTick;
    FloorIff(q.dynamic.volatility * q.dynamic.reductionFactor, 10000, n);
    GroupIff(q.pool.tickCurrent, q.pool.tickSpacing);
  }

  function ResultOf(amount: nat, s: State): SwapResult {
    SwapResult(amount - s.remaining, s.output, s.current, s.tick, s.liquidity)
  }

  /** The quote as a function: validation, then the bounded run. */
  function Quote(q: Request): Result<SwapResult, SwapError> {
    if !q.Valid() then Err(InvalidInput)
    else
      ContextValid(q);
      var r := Run(q.ContextOf(), q.StartOf(), BUDGET);
      if r.Err? then Err(r.error) else Ok(ResultOf(q.amount, r.value))
  }

  /** The scan over all ticks for the nearest live one. */
  method FindNearest(c: Context, s: State) returns (index: Option<nat>)
    requires |s.orders| == |c.ticks|
    ensures index == Nearest(c, s, |c.ticks|)
  {
    index := None;
    for i := 0 to |c.ticks|
      invariant index == Nearest(c, s, i)
    {
      if (c.ticks[i].liquidityGross > 0 || s.orders[i] > 0)
        && (if c.down then c.ticks[i].tick <= s.tick else c.ticks[i].tick > s.tick)
        && (index.None?
            || if c.down then c.ticks[i].tick > c.ticks[index.value].tick
               else c.ticks[i].tick < c.ticks[index.value].tick)
      {
        index := Some(i);
      }
    }
  }

  /** Reaching a tick: fill its orders in place, cross it if nothing is left, move on. */
  method Arrive(c: Context, ghost s: State, orders: array<nat>, i: nat, current: nat, liquidity: nat, remaining: nat,
        output: nat, fee: nat)
    returns (error: Option<SwapError>, liquidity': nat, remaining': nat, output': nat, tick': int)
    requires c.Valid() && orders.Length == |c.ticks| && i < |c.ticks| && fee < MILLION
    requires s == State(current, s.tick, liquidity, remaining, output, orders[..], s.group)
    modifies orders
    ensures var filled := TakeOrders(c, s, i, fee);
      if filled.Err? then error == Some(filled.error)
      else
        var crossed := CrossTick(c, filled.value, i);
        if crossed.Err? then error == Some(crossed.error)
        else
          && error == None
          && crossed.value == State(current, tick', liquidity', remaining', output', orders[..], s.group)
  {
    hide FillOrder, OrderPrice, OutputFee;
    error, liquidity', remaining', output', tick' := None, liquidity, remaining, output, 0;
    if orders[i] > 0 && remaining > 0 {
      var price := OrderPrice(current, c.down);
      var r := FillOrder(remaining, orders[i], price, fee, c.inputFee, c.down);
      if r.Err? { error := Some(OrderFailed(r.error)); return; }
      var left := remaining - (r.value.consumed + r.value.fee);
      var out := output + r.value.gross - OutputFee(r.value.gross, fee, c.inputFee);
      if left < 0 || orders[i] < r.value.gross || out < 0 || out > U64 { error := Some(AmountOutsideRange); return; }
      remaining', output' := left, out;
      orders[i] := orders[i] - r.value.gross;
    }
    assert TakeOrders(c, s, i, fee) == Ok(s.(remaining := remaining', orders := orders[..], output := output'));
    var t := c.ticks[i];
    if t.liquidityGross > 0 && orders[i] == 0 {
      var sum := liquidity + (if c.down then -t.liquidityNet else t.liquidityNet);
      if sum < 0 || sum > U128 { error := Some(LiquidityOutsideRange); return; }
      liquidity' := sum;
    }
    tick' := if (c.down && orders[i] == 0) || (!c.down && orders[i] > 0) then t.tick - 1 else t.tick;
  }

  /** The traversal loop over mutable state, with the orders updated in place. */
  method SwapExactIn(q: Request) returns (r: Result<SwapResult, SwapError>)
    ensures r == Quote(q)
  {
    if !q.Valid() { return Err(InvalidInput); }
    ContextValid(q);
    var c := q.ContextOf();
    ghost var start := q.StartOf();
    r := Traverse(c, q.StartOf(), q.amount);
  }

  method Traverse(c: Context, start: State, amount: nat) returns (r: Result<SwapResult, SwapError>)
    requires c.Valid() && |start.orders| == |c.ticks|
    ensures var run := Run(c, start, BUDGET);
      r == if run.Err? then Err(run.error) else Ok(ResultOf(amount, run.value))
  {
    hide Nearest, TakeOrders, CrossTick, Bound, FeeAt, Skips, Move, Context.Valid, NextGroup, Run;
    var current: nat, tick: int, liquidity: nat, remaining: nat := start.current, start.tick, start.liquidity,
      start.remaining;
    var output: nat, group: int := start.output, start.group;
    ContextFacts(c);
    var orders := new nat[|c.ticks|](i requires 0 <= i < |start.orders| => start.orders[i]);
    assert orders[..] == start.orders;
    var iter := 0;
    ghost var s := start;
    while iter < BUDGET
      invariant iter <= BUDGET && orders.Length == |c.ticks|
      invariant s == State(current, tick, liquidity, remaining, output, orders[..], group)
      invariant Run(c, s, BUDGET - iter) == Run(c, start, BUDGET)
    {
      var before := State(current, tick, liquidity, remaining, output, orders[..], group);
      RunStep(c, before, BUDGET - iter);
      if remaining == 0 || current == c.limit {
        return Ok(ResultOf(amount, before));
      }
      var index := FindNearest(c, before);
      var nextTick := if index.Some? then c.ticks[index.value].tick else if c.down then MIN_TICK else MAX_TICK;
      var nextPrice := c.price(nextTick);
      var target := if c.down then Max(nextPrice, c.limit) else Min(nextPrice, c.limit);
      var fee := FeeAt(c, group);
      var skipped := Skips(c, before);
      var moved := Move(c, before, Bound(c, before, target), fee);
      if moved.Err? { return Err(moved.error); }
      current, remaining, output := moved.value.current, moved.value.remaining, moved.value.output;
      MoveFields(c, before, Bound(c, before, target), fee);
      var boundaryTick := nextTick;
      if current == nextPrice {
        if index.None? {
          s := moved.value;
          break;
        }
        var error;
        error, liquidity, remaining, output, tick := Arrive(c, moved.value, orders, index.value, current, liquidity,
          remaining, output, fee);
        if error.Some? { return Err(error.value); }
      } else {
        if current != before.current {
          if !(c.floor <= current < c.ceiling) { return Err(PriceOutsideRange); }
          tick := Bisect(c.price, current, c.floor, c.ceiling);
        }
        boundaryTick := tick;
      }
      group := AdvanceGroup(c, group, skipped, boundaryTick);
      s := State(current, tick, liquidity, remaining, output, orders[..], group);
      iter := iter + 1;
    }
    RunEnds(c, s);
    if remaining > 0 && current != c.limit { return Err(BudgetExhausted); }
    r := Ok(ResultOf(amount, State(current, tick, liquidity, remaining, output, orders[..], group)));
  }

  lemma RunStep(c: Context, s: State, budget: nat)
    requires c.Valid() && |s.orders| == |c.ticks| && budget > 0
    ensures Run(c, s, budget) ==
      match Iterate(c, s)
      case Return(last) => Ok(last)
      case Break(last) => Finish(c, last)
      case Fail(error) => Err(error)
      case Continue(next) => Run(c, next, budget - 1)
  {
    hide Iterate;
  }

  lemma RunEnds(c: Context, s: State)
    requires c.Valid() && |s.orders| == |c.ticks|
    ensures Run(c, s, 0) == Finish(c, s)
  {
  }

  /** The volatility group moves on from the boundary tick when the iteration skipped groups. */
  method AdvanceGroup(c: Context, group: int, skipped: bool, boundaryTick: int) returns (next: int)
    requires c.tickSpacing > 0
    ensures next == NextGroup(c, group, skipped, boundaryTick)
  {
    next := group;
    if c.enabled {
      if skipped {
        next := boundaryTick / c.tickSpacing;
        if !c.down && boundaryTick % c.tickSpacing == 0 { next := next - 1; }
      }
      next := next + if c.down then -1 else 1;
    }
  }

  lemma ContextFacts(c: Context)
    requires c.Valid()
    ensures IsPriceMap(c.price, c.floor, c.ceiling) && c.feeRate < MILLION && c.tickSpacing > 0
  {
  }

  lemma MoveFields(c: Context, s: State, bound: nat, fee: nat)
    requires fee < MILLION && Move(c, s, bound, fee).Ok?
    ensures var m := Move(c, s, bound, fee).value;
      m == s.(current := m.current, remaining := m.remaining, output := m.output)
  {
    hide SwapStep;
  }

  /** The pool's tick and its successor enclose the pool's price. */
  predicate Consistent(tick: int, sqrtPrice: nat) { Brackets(ClmmPrice.PriceAt, tick, sqrtPrice) }

  lemma StartLegal(q: Request)
    requires q.Valid() && Consistent(q.pool.tickCurrent, q.pool.sqrtPrice)
    ensures Legal(q.ContextOf(), q.StartOf()) && Bracketed(q.ContextOf(), q.StartOf())
    ensures Follows(q.ContextOf(), q.StartOf(), q.StartOf()) && LiquidityOf(q.ContextOf(), q.StartOf(), q.StartOf())
  {
    ContextValid(q);
    hide IsPriceMap, ClmmPrice.PriceAt, Context.Nodes, Request.ValidTick;
    SumNetStart(q.ContextOf().Nodes(), q.down, q.pool.tickCurrent);
  }

  lemma QuoteRuns(q: Request)
    requires q.Valid() && Quote(q).Ok?
    ensures q.ValidPool() && q.ContextOf().Valid()
    ensures var run := Run(q.ContextOf(), q.StartOf(), BUDGET);
      run.Ok? && Quote(q).value == ResultOf(q.amount, run.value)
  {
    ContextValid(q);
    hide Run, Context.Valid;
  }

  /** Every successful quote on any pool, even one whose tick does not fit its price: the price moves
      in the swap direction and not past the limit, and the whole input is consumed unless the
      limit is reached. */
  lemma QuoteDirected(q: Request)
    requires q.Valid() && Quote(q).Ok?
    ensures var r := Quote(q).value;
      && 0 <= r.consumed <= q.amount && (r.consumed < q.amount ==> r.sqrtPrice == q.limit)
      && (if q.down then q.limit <= r.sqrtPrice <= q.pool.sqrtPrice else q.pool.sqrtPrice <= r.sqrtPrice <= q.limit)
  {
    QuoteRuns(q);
    hide Run, IsPriceMap, ClmmPrice.PriceAt, Request.ValidTick;
    RunDirected(q.ContextOf(), q.StartOf(), q.StartOf(), BUDGET);
  }

  /** Every successful quote on a consistent pool, in every fee mode and with dynamic fees: the
      price moves in the swap direction up to the limit and no further, the whole input is
      consumed unless the limit is reached, and the reported liquidity is the pool's plus the
      signed sum over exactly the ticks between the old and the new position. */
  lemma QuoteSafe(q: Request)
    requires q.Valid() && Consistent(q.pool.tickCurrent, q.pool.sqrtPrice) && Quote(q).Ok?
    ensures var r := Quote(q).value;
      && 0 <= r.consumed <= q.amount
      && (r.consumed < q.amount ==> r.sqrtPrice == q.limit)
      && (if q.down then q.limit <= r.sqrtPrice <= q.pool.sqrtPrice && r.tickCurrent <= q.pool.tickCurrent
          else q.pool.sqrtPrice <= r.sqrtPrice <= q.limit && q.pool.tickCurrent <= r.tickCurrent)
      && r.liquidity == q.pool.liquidity + SumNet(q.ContextOf().Nodes(), q.down, q.pool.tickCurrent, r.tickCurrent)
      && (Consistent(r.tickCurrent, r.sqrtPrice)
          || r.sqrtPrice == if q.down then ClmmPrice.MIN_SQRT_PRICE else ClmmPrice.MAX_SQRT_PRICE)
  {
    hide Run, Context.Valid, Context.Nodes, SumNet, ClmmPrice.PriceAt, Request.Valid, IsPriceMap;
    QuoteRuns(q);
    StartLegal(q);
    RunSafe(q.ContextOf(), q.StartOf(), q.StartOf(), BUDGET);
  }

  /** No quote fails on a limit order, in any fee mode. */
  lemma QuoteFillsOrders(q: Request)
    ensures Quote(q).Err? ==> !Quote(q).error.OrderFailed?
  {
    hide Run, IsPriceMap, ClmmPrice.PriceAt;
    if q.Valid() {
      ContextValid(q);
      RunFillsOrders(q.ContextOf(), q.StartOf(), BUDGET);
    }
  }

  /** With a static fee on the input and at most 8191 ticks, a quote on a consistent pool fails
      only when an output or the liquidity leaves its width. */
  lemma QuoteCompletes(q: Request)
    requires q.Valid() && Consistent(q.pool.tickCurrent, q.pool.sqrtPrice)
    requires !q.dynamic.enabled && q.ContextOf().inputFee && |q.ticks| < BUDGET
    ensures Quote(q).Err? ==> WidthError(Quote(q).error)
  {
    ContextValid(q);
    StartLegal(q);
    hide Run, Context.Valid, SumNet, ClmmPrice.PriceAt;
    RunCompletes(q.ContextOf(), q.StartOf(), BUDGET);
  }

  /** A pool at tick zero with no liquidity and `n` free ticks, those above it first. */
  function FreeRequest(n: nat): Request {
    Request(
      ClmmPool(ClmmPrice.PriceAt(0), 0, 0, 1, 0), seq(n, (i: nat) => ClmmTick(FreeTickAt(i), 0, 1, 0, 0)), 1,
      ClmmPrice.MAX_SQRT_PRICE, 0, DynamicFee(false, 0, 0, 0, 0, 0, 0, 0, 0, 0), 0, false)
  }

  /** A quote to which the completeness claim applies: a consistent pool with a static input fee. */
  ghost predicate StaticQuote(q: Request) {
    q.Valid() && Consistent(q.pool.tickCurrent, q.pool.sqrtPrice) && !q.dynamic.enabled && q.ContextOf().inputFee
  }

  ghost predicate BudgetSuffices(n: nat) {
    forall q: Request | StaticQuote(q) && |q.ticks| == n :: Quote(q) != Err(BudgetExhausted)
  }

  /** The iteration budget suffices for every pool of `n` ticks exactly when there are fewer ticks
      than iterations, or more than the range has. */
  lemma BudgetIff(n: nat)
    ensures BudgetSuffices(n) <==> n < BUDGET || n > 887273
  {
    hide Request.Valid, Consistent, Quote;
    if n < BUDGET || n > 887273 {
      forall q: Request | StaticQuote(q) && |q.ticks| == n ensures Quote(q) != Err(BudgetExhausted) {
        if n < BUDGET {
          QuoteCompletes(q);
        } else {
          var all: nat := 887273;
          TicksInRange(q, all);
        }
      }
    } else {
      var zero := 0;
      FreeExhausts(n, zero);
    }
  }

  /** No request has more ticks than the range. */
  lemma TicksInRange(q: Request, all: nat)
    requires q.Valid() && all == 887273
    ensures |q.ticks| <= all
  {
    var keys := seq(|q.ticks|, i requires 0 <= i < |q.ticks| => q.ticks[i].tick);
    DistinctWithin(keys, MIN_TICK, all);
  }

  /** At least as many free ticks as iterations exhaust the budget. */
  lemma FreeExhausts(n: nat, zero: int)
    requires BUDGET <= n <= 887273 && zero == 0
    ensures StaticQuote(FreeRequest(n)) && Quote(FreeRequest(n)) == Err(BudgetExhausted)
  {
    var q := FreeRequest(n);
    ClmmPrice.PriceMapValid(MIN_TICK, MAX_TICK);
    WithinLimits(ClmmPrice.PriceAt, ClmmPrice.MIN_SQRT_PRICE, ClmmPrice.MAX_SQRT_PRICE, zero);
    Increasing(ClmmPrice.PriceAt, ClmmPrice.MIN_SQRT_PRICE, ClmmPrice.MAX_SQRT_PRICE, zero, MAX_TICK);
    assert Rises(ClmmPrice.PriceAt, zero);
    hide ClmmPrice.PriceAt, Run;
    assert q.Valid();
    ContextValid(q);
    BudgetExceeded(q.ContextOf(), q.StartOf(), BUDGET);
  }

  /** The outermost price in the direction of a swap. */
  function Outermost(down: bool): nat { if down then ClmmPrice.MIN_SQRT_PRICE else ClmmPrice.MAX_SQRT_PRICE }

  /** Every quote to this limit on a consistent pool reports a tick that fits its price. */
  ghost predicate ReportsFit(limit: nat, down: bool) {
    forall q: Request | q.limit == limit && q.down == down && q.Valid()
      && Consistent(q.pool.tickCurrent, q.pool.sqrtPrice) && Quote(q).Ok? ::
      Consistent(Quote(q).value.tickCurrent, Quote(q).value.sqrtPrice)
  }

  /** The reported tick is reliable exactly for limits short of the outermost price: a quote that
      runs on to the outermost price without a tick there leaves the tick where it stood. */
  lemma ReportsFitIff(limit: nat, down: bool)
    requires ClmmPrice.MIN_SQRT_PRICE <= limit <= ClmmPrice.MAX_SQRT_PRICE
    ensures ReportsFit(limit, down) <==> limit != Outermost(down)
  {
    hide Request.Valid, Consistent, Quote;
    if limit != Outermost(down) {
      forall q: Request | q.limit == limit && q.down == down && q.Valid()
        && Consistent(q.pool.tickCurrent, q.pool.sqrtPrice) && Quote(q).Ok?
        ensures Consistent(Quote(q).value.tickCurrent, Quote(q).value.sqrtPrice)
      {
        QuoteSafe(q);
      }
    } else {
      var zero := 0;
      var q := EmptyRequest(down);
      EmptyRequestValid(down, zero);
      StaleTick(q);
    }
  }

  /** A pool at tick zero with no ticks and no liquidity, quoted to the outermost price. */
  function EmptyRequest(down: bool): Request {
    Request(ClmmPool(ClmmPrice.PriceAt(0), 0, 0, 1, 0), [], 1, Outermost(down), 0,
      DynamicFee(false, 0, 0, 0, 0, 0, 0, 0, 0, 0), 0, down)
  }

  lemma EmptyRequestValid(down: bool, zero: int)
    requires zero == 0
    ensures EmptyRequest(down).Valid() && Consistent(zero, ClmmPrice.PriceAt(zero))
  {
    ClmmPrice.PriceMapValid(MIN_TICK, MAX_TICK);
    Increasing(ClmmPrice.PriceAt, ClmmPrice.MIN_SQRT_PRICE, ClmmPrice.MAX_SQRT_PRICE, MIN_TICK, zero);
    Increasing(ClmmPrice.PriceAt, ClmmPrice.MIN_SQRT_PRICE, ClmmPrice.MAX_SQRT_PRICE, zero, MAX_TICK);
    assert Rises(ClmmPrice.PriceAt, zero);
    hide ClmmPrice.PriceAt;
  }

  /** A pool with no ticks and no liquidity, quoted to the outermost price, reports that price with
      its old tick, which does not fit it unless it was the outermost one. */
  lemma StaleTick(q: Request)
    requires q.Valid() && Consistent(q.pool.tickCurrent, q.pool.sqrtPrice) && !q.dynamic.enabled
    requires q.limit == Outermost(q.down) && q.ticks == [] && q.pool.liquidity == 0 && 0 < q.amount
    ensures Quote(q) == Ok(SwapResult(0, 0, q.limit, q.pool.tickCurrent, 0))
    ensures MIN_TICK < q.pool.tickCurrent < MAX_TICK - 1 ==> !Consistent(q.pool.tickCurrent, q.limit)
  {
    ContextValid(q);
    StartLegal(q);
    OutermostTick(q.pool.tickCurrent, q.down);
    hide ClmmPrice.PriceAt, Run, Bracketed, Follows, LiquidityOf, Context.Valid, IsPriceMap;
    EmptyRun(q.ContextOf(), q.StartOf(), BUDGET);
  }

  lemma OutermostTick(tick: int, down: bool)
    requires TickInRange(tick)
    ensures MIN_TICK < tick < MAX_TICK - 1 ==> !Consistent(tick, Outermost(down))
  {
    ClmmPrice.PriceMapValid(MIN_TICK, MAX_TICK);
    hide ClmmPrice.PriceAt;
    if MIN_TICK < tick < MAX_TICK - 1 {
      Increasing(ClmmPrice.PriceAt, ClmmPrice.MIN_SQRT_PRICE, ClmmPrice.MAX_SQRT_PRICE, MIN_TICK, tick);
      Increasing(ClmmPrice.PriceAt, ClmmPrice.MIN_SQRT_PRICE, ClmmPrice.MAX_SQRT_PRICE, tick + 1, MAX_TICK);
    }
  }
}
