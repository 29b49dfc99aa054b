/** The Orca Whirlpool quote: validation, the imperative traversal, and its guarantees. */
module WhirlpoolEngine {
  import opened Arith
  import opened Outcomes
  import opened TickMap
  import opened ClmmStep
  import opened Traversal
  import opened WhirlpoolSwap
  import opened WhirlpoolSafety
  import opened Sorting
  import WhirlpoolPrice

  datatype Pool = Pool(sqrtPrice: nat, liquidity: nat, tickCurrent: int, tickSpacing: int, feeRate: int)

  datatype AdaptiveFee = AdaptiveFee(
    filterPeriod: nat, decayPeriod: nat, reductionFactor: nat, controlFactor: nat, maximumVolatility: nat,
    tickGroupSize: nat, lastReferenceTimestamp: nat, lastMajorSwapTimestamp: nat, volatilityReference: nat,
    referenceGroup: int, volatility: nat)

  datatype SwapResult = SwapResult(
    consumed: int, amountOut: nat, fee: nat, minimumFeeRate: nat, maximumFeeRate: nat, sqrtPrice: nat,
    tickCurrent: int, liquidity: nat)

  datatype Request = Request(
    pool: Pool, ticks: seq<Node>, arrayStarts: seq<int>, amount: nat, timestamp: nat, down: bool,
    adaptive: Option<AdaptiveFee>, limit: nat)
  {
    predicate ValidPool() {
      && 0 < amount <= U64 && timestamp <= U64 && pool.liquidity <= U128
      && 1 <= pool.tickSpacing <= 65535 && 0 <= pool.feeRate <= 65535 && TickInRange(pool.tickCurrent)
      && WhirlpoolPrice.MIN_SQRT_PRICE <= pool.sqrtPrice <= WhirlpoolPrice.MAX_SQRT_PRICE
    }

    /** Ticks covered by one array. */
    function Width(): nat
      requires ValidPool()
    {
      88 * pool.tickSpacing
    }

    function Starts(): seq<int> { SortBy(arrayStarts, s => s) }

    /** One to six contiguous arrays that touch the tick range. */
    predicate ValidArrays()
      requires ValidPool()
    {
      && 1 <= |Starts()| <= 6
      && (forall i | 0 <= i < |Starts()| ::
            Starts()[i] % Width() == 0 && Starts()[i] <= MAX_TICK && MIN_TICK < Starts()[i] + Width())
      && (forall i | 0 < i < |Starts()| :: Starts()[i] - Starts()[i - 1] == Width())
    }

    function Lower(): int
      requires ValidPool() && ValidArrays()
    {
      Max(Starts()[0], MIN_TICK)
    }

    function Upper(): int
      requires ValidPool() && ValidArrays()
    {
      Min(Starts()[|Starts()| - 1] + Width() - 1, MAX_TICK)
    }

    /** A zero limit stands for the end of the price range. */
    function Limit(): nat {
      if limit != 0 then limit else if down then WhirlpoolPrice.MIN_SQRT_PRICE else WhirlpoolPrice.MAX_SQRT_PRICE
    }

    predicate ValidLimit() {
      && WhirlpoolPrice.MIN_SQRT_PRICE <= Limit() <= WhirlpoolPrice.MAX_SQRT_PRICE
      && if down then Limit() < pool.sqrtPrice else pool.sqrtPrice < Limit()
    }

    function Nodes(): seq<Node> { SortBy(ticks, (t: Node) => t.tick) }

    predicate ValidTicks()
      requires ValidPool() && ValidArrays()
    {
      && (forall i | 0 <= i < |ticks| ::
        && Lower() <= ticks[i].tick <= Upper() && ticks[i].tick % pool.tickSpacing == 0
        && -0x8000_0000_0000_0000_0000_0000_0000_0000 <= ticks[i].net < 0x8000_0000_0000_0000_0000_0000_0000_0000)
      && (forall i | 0 < i < |Nodes()| :: Nodes()[i - 1].tick != Nodes()[i].tick)
    }

    predicate ValidAdaptive() {
      adaptive.Some? ==>
        var a := adaptive.value;
        && a.filterPeriod <= 65535 && a.decayPeriod <= 65535 && a.reductionFactor <= 10000
        && 0 < a.tickGroupSize <= 65535
        && a.controlFactor <= 0xffff_ffff && a.maximumVolatility <= 0xffff_ffff && a.volatility <= 0xffff_ffff
        && a.volatilityReference <= a.maximumVolatility && a.maximumVolatility * a.tickGroupSize <= 0xffff_ffff
        && -0x8000_0000 <= a.referenceGroup < 0x8000_0000
        && a.lastReferenceTimestamp <= timestamp && a.lastMajorSwapTimestamp <= timestamp
        && VolatilityReference(a) <= a.maximumVolatility
    }

    predicate Expired(a: AdaptiveFee) {
      || timestamp - a.lastReferenceTimestamp > 3600
      || timestamp - Max(a.lastReferenceTimestamp, a.lastMajorSwapTimestamp) >= a.decayPeriod
    }

    predicate Renewed(a: AdaptiveFee) {
      timestamp - Max(a.lastReferenceTimestamp, a.lastMajorSwapTimestamp) >= a.filterPeriod
    }

    function VolatilityReference(a: AdaptiveFee): nat {
      if Expired(a) then 0
      else if Renewed(a) then a.volatility * a.reductionFactor / 10000
      else a.volatilityReference
    }

    function StartGroup(): int {
      if adaptive.Some? && adaptive.value.tickGroupSize > 0 then pool.tickCurrent / adaptive.value.tickGroupSize else 0
    }

    /** The resolved reference and the groups beyond which the volatility is saturated. */
    function Resolved(a: AdaptiveFee): Adaptive
      requires VolatilityReference(a) <= a.maximumVolatility
    {
      var reference := if Expired(a) || Renewed(a) then StartGroup() else a.referenceGroup;
      var distance := Ceil(a.maximumVolatility - VolatilityReference(a), 10000);
      Adaptive(a.tickGroupSize, reference, VolatilityReference(a), a.maximumVolatility, a.controlFactor,
        if (reference - distance) * a.tickGroupSize > MIN_TICK then Some(reference - distance) else None,
        if (reference + distance + 1) * a.tickGroupSize < MAX_TICK then Some(reference + distance) else None)
    }

    predicate Valid() {
      ValidPool() && ValidArrays() && ValidLimit() && ValidTicks() && ValidAdaptive()
    }

    function ContextOf(): Context
      requires Valid()
    {
      Context(WhirlpoolPrice.PriceAt, WhirlpoolPrice.MIN_SQRT_PRICE, WhirlpoolPrice.MAX_SQRT_PRICE, Nodes(), Lower(),
        Upper(),
        Limit(), down, pool.feeRate, if adaptive.None? then None else Some(Resolved(adaptive.value)))
    }

    function StartOf(): State
      requires Valid()
    {
      State(pool.sqrtPrice, pool.tickCurrent, pool.liquidity, amount, 0, 0, pool.feeRate, pool.feeRate, true,
        StartGroup())
    }
  }

  /** The references of the adaptive fee: renewed from the standing tick without volatility once expired, and
      with the greatest volatility that the reduction leaves after the filter period; kept before that. */
  lemma ReferenceIff(q: Request, n: nat)
    requires q.ValidPool() && q.adaptive.Some? && q.ValidAdaptive()
    ensures var a, r := q.adaptive.value, q.Resolved(q.adaptive.value);
      var since := q.timestamp - Max(a.lastReferenceTimestamp, a.lastMajorSwapTimestamp);
      var expired := q.timestamp - a.lastReferenceTimestamp > 3600 || since >= a.decayPeriod;
      && (expired ==> r.volatilityReference == 0)
      && (expired || since >= a.filterPeriod ==>
          r.reference * a.tickGroupSize <= q.pool.tickCurrent < (r.reference + 1) * a.tickGroupSize)
      && (!expired && since >= a.filterPeriod ==>
          (n <= r.volatilityReference <==> n * 10000 <= a.volatility * a.reductionFactor))
      && (!expired && since < a.filterPeriod ==>
          r.reference == a.referenceGroup && r.volatilityReference == a.volatilityReference)
  {
    hide Ceil;
    FloorIff(q.adaptive.value.volatility * q.adaptive.value.reductionFactor, 10000, n);
    GroupIff(q.pool.tickCurrent, q.adaptive.value.tickGroupSize);
  }

  /** Sorted ticks of which no two neighbours are equal rise strictly. */
  lemma NeighboursDiffer(nodes: seq<Node>, key: Node -> int)
    requires SortedBy(nodes, key) && forall t :: key(t) == t.tick
    requires forall i | 0 < i < |nodes| :: nodes[i - 1].tick != nodes[i].tick
    ensures forall i, j | 0 <= i < j < |nodes| :: nodes[i].tick < nodes[j].tick
  {
    forall i, j | 0 <= i < j < |nodes|
      ensures nodes[i].tick < nodes[j].tick
    {
      assert key(nodes[i]) <= key(nodes[j - 1]) <= key(nodes[j]);
    }
  }

  /** A property of every tick is one of every sorted tick. */
  lemma SortedKeeps(nodes: seq<Node>, ticks: seq<Node>, lower: int, upper: int, spacing: nat)
    requires multiset(nodes) == multiset(ticks) && spacing > 0
    requires forall i | 0 <= i < |ticks| :: lower <= ticks[i].tick <= upper && ticks[i].tick % spacing == 0
    ensures forall i | 0 <= i < |nodes| :: lower <= nodes[i].tick <= upper && nodes[i].tick % spacing == 0
  {
    forall i | 0 <= i < |nodes|
      ensures lower <= nodes[i].tick <= upper && nodes[i].tick % spacing == 0
    {
      SameElements(nodes, ticks, nodes[i]);
    }
  }

  /** Sorting leaves the ticks strictly increasing and inside the arrays. */
  lemma NodesSorted(q: Request)
    requires q.ValidPool() && q.ValidArrays() && q.ValidTicks()
    ensures forall i, j | 0 <= i < j < |q.Nodes()| :: q.Nodes()[i].tick < q.Nodes()[j].tick
    ensures forall i | 0 <= i < |q.Nodes()| ::
      q.Lower() <= q.Nodes()[i].tick <= q.Upper() && q.Nodes()[i].tick % q.pool.tickSpacing == 0
  {
    hide Request.Lower, Request.Upper, Request.ValidArrays;
    var nodes := q.Nodes();
    NeighboursDiffer(nodes, (t: Node) => t.tick);
    SortedKeeps(nodes, q.ticks, q.Lower(), q.Upper(), q.pool.tickSpacing);
  }

  lemma ArraysOrdered(q: Request)
    requires q.ValidPool() && q.ValidArrays()
    ensures MIN_TICK <= q.Lower() <= q.Upper() <= MAX_TICK
    ensures q.Upper() - q.Lower() < 528 * q.pool.tickSpacing
  {
    var last := |q.Starts()| - 1;
    StartsSpan(q, last);
    MulMono(0, last, q.Width());
    MulMono(last, 5, q.Width());
    hide Request.Starts;
  }

  lemma {:induction false} StartsSpan(q: Request, i: nat)
    requires q.ValidPool() && q.ValidArrays() && i < |q.Starts()|
    ensures q.Starts()[i] == q.Starts()[0] + i * q.Width()
  {
    if i == 0 {
    } else {
      StartsSpan(q, i - 1);
      assert (i - 1) * q.Width() + q.Width() == i * q.Width();
    }
  }

  /** Evenly spaced spans leave no gap. */
  lemma {:induction false} SpansCover(starts: seq<int>, width: nat, t: int)
    requires starts != [] && width > 0 && forall i | 0 < i < |starts| :: starts[i] - starts[i - 1] == width
    ensures starts[0] <= t < starts[|starts| - 1] + width
       <==> exists i | 0 <= i < |starts| :: starts[i] <= t < starts[i] + width
  {
    var n := |starts| - 1;
    if n > 0 {
      SpansCover(starts[..n], width, t);
      SpansCover(starts[..n], width, starts[n - 1]);
      assert starts[..n][n - 1] == starts[n - 1];
      forall i | 0 <= i < |starts| ensures i == n || (i < n && starts[..n][i] == starts[i]) {}
    }
  }

  /** The quote can reach exactly the ticks that one of the given arrays holds, in whatever order they come. */
  lemma ArraysCover(q: Request, t: int)
    requires q.ValidPool() && q.ValidArrays() && TickInRange(t)
    ensures q.Lower() <= t <= q.Upper()
       <==> exists start | start in q.arrayStarts :: start <= t < start + 88 * q.pool.tickSpacing
  {
    hide Request.Starts, SortBy;
    var starts, width := q.Starts(), 88 * q.pool.tickSpacing;
    SpansCover(starts, width, t);
    SameStarts(q);
    if i :| 0 <= i < |starts| && starts[i] <= t < starts[i] + width { assert starts[i] in q.arrayStarts; }
  }

  lemma SameStarts(q: Request)
    ensures forall start :: start in q.arrayStarts <==> start in q.Starts()
  {
    forall start ensures start in q.arrayStarts <==> start in q.Starts() {
      SameElements(q.Starts(), q.arrayStarts, start);
    }
  }

  lemma ContextValid(q: Request)
    requires q.Valid()
    ensures q.ContextOf().Valid()
  {
    WhirlpoolPrice.PriceMapValid(MIN_TICK, MAX_TICK);
    NodesSorted(q);
    ArraysOrdered(q);
    hide WhirlpoolPrice.PriceAt, IsPriceMap;
  }

  /** Six arrays hold at most 528 initialised ticks. */
  lemma TickCount(q: Request)
    requires q.Valid()
    ensures |q.Nodes()| <= 528
  {
    NodesSorted(q);
    ArraysOrdered(q);
    var nodes := q.Nodes();
    var keys := seq(|nodes|, i requires 0 <= i < |nodes| => nodes[i].tick);
    if nodes != [] {
      SpacedSpan(keys, q.pool.tickSpacing);
      MulCancelStrict(|nodes| - 1, 528, q.pool.tickSpacing);
    }
  }

  function ResultOf(amount: nat, s: State): SwapResult {
    SwapResult(amount - s.remaining, s.output, s.fees, s.minimumFee, s.maximumFee, s.current, s.tick, s.liquidity)
  }

  /** The quote as a function: validation, then the bounded run. */
  function Quote(q: Request): Result<SwapResult, SwapError> {
    if !q.Valid() then Err(InvalidInput)
    else
      ContextValid(q);
      var r := Run(q.ContextOf(), q.StartOf(), BUDGET);
      if r.Err? then Err(r.error) else Ok(ResultOf(q.amount, r.value))
  }

  lemma SameParts(q: Request, r: Request)
    requires r == q.(limit := r.limit)
    ensures r.ValidPool() == q.ValidPool() && r.ValidAdaptive() == q.ValidAdaptive()
    ensures r.Starts() == q.Starts() && r.Nodes() == q.Nodes() && r.StartGroup() == q.StartGroup()
    ensures q.adaptive.Some? && q.ValidAdaptive() ==> r.Resolved(q.adaptive.value) == q.Resolved(q.adaptive.value)
  {
    hide SortBy, Ceil;
  }

  lemma SameArrays(q: Request, r: Request)
    requires r == q.(limit := r.limit) && q.ValidPool() && r.ValidPool() && r.Starts() == q.Starts()
    ensures r.ValidArrays() == q.ValidArrays()
    ensures q.ValidArrays() ==> r.Lower() == q.Lower() && r.Upper() == q.Upper()
    ensures q.ValidArrays() && r.Nodes() == q.Nodes() ==> r.ValidTicks() == q.ValidTicks()
  {
    hide Request.Starts, Request.Nodes, Request.ValidPool;
    assert r.Width() == q.Width();
  }

  /** A quote without a limit is one with the price of the outermost tick ahead as its limit. */
  lemma ZeroLimit(q: Request)
    requires q.limit == 0
    ensures Quote(q) == Quote(q.(limit := WhirlpoolPrice.PriceAt(if q.down then MIN_TICK else MAX_TICK)))
  {
    hide WhirlpoolPrice.PriceAt, IsPriceMap, Run, Request.Starts, Request.Nodes, Request.ValidPool, Request.ValidArrays,
      Request.ValidTicks, Request.ValidAdaptive, Request.Resolved, Request.StartGroup, Request.Lower, Request.Upper;
    WhirlpoolPrice.PriceMapValid(MIN_TICK, MAX_TICK);
    var r := q.(limit := WhirlpoolPrice.PriceAt(if q.down then MIN_TICK else MAX_TICK));
    SameParts(q, r);
    if q.ValidPool() { SameArrays(q, r); }
  }

  /** Bisection over the sorted ticks; it finds what a linear scan for the nearest one finds. */
  method FindNext(c: Context, tick: int) returns (index: Option<nat>)
    requires c.Valid()
    ensures index == Nearest(c.nodes, c.down, tick, |c.nodes|)
  {
    var lo, hi := 0, |c.nodes|;
    while lo < hi
      invariant 0 <= lo <= hi <= |c.nodes|
      invariant forall j | 0 <= j < lo :: c.nodes[j].tick <= tick
      invariant forall j | hi <= j < |c.nodes| :: tick < c.nodes[j].tick
    {
      var middle := (lo + hi) / 2;
      if c.nodes[middle].tick <= tick { lo := middle + 1; } else { hi := middle; }
    }
    var at := if c.down then lo - 1 else lo;
    index := if 0 <= at < |c.nodes| then Some(at) else None;
    NearestUnique(c, tick, index);
  }

  lemma NearestUnique(c: Context, tick: int, index: Option<nat>)
    requires c.Valid()
    requires index.None? ==> forall j | 0 <= j < |c.nodes| :: !IsAhead(c.down, tick, c.nodes[j].tick)
    requires index.Some? ==> index.value < |c.nodes| && IsAhead(c.down, tick, c.nodes[index.value].tick)
    requires index.Some? ==> forall j | 0 <= j < |c.nodes| && IsAhead(c.down, tick, c.nodes[j].tick) ::
      if c.down then c.nodes[j].tick <= c.nodes[index.value].tick else c.nodes[index.value].tick <= c.nodes[j].tick
    ensures index == Nearest(c.nodes, c.down, tick, |c.nodes|)
  {
    var n := Nearest(c.nodes, c.down, tick, |c.nodes|);
  }

  method SwapExactIn(q: Request) returns (r: Result<SwapResult, SwapError>)
    ensures r == Quote(q)
  {
    if !q.Valid() { return Err(InvalidInput); }
    ContextValid(q);
    r := Traverse(q.ContextOf(), q.StartOf(), q.amount);
  }

  /** The traversal loop, with the price of the last looked-up tick remembered. */
  method Traverse(c: Context, start: State, amount: nat) returns (r: Result<SwapResult, SwapError>)
    requires c.Valid()
    ensures var run := Run(c, start, BUDGET);
      r == if run.Err? then Err(run.error) else Ok(ResultOf(amount, run.value))
  {
    hide Nearest, SpanOf, FeeAt, NextGroup, Move, Settle, IsPriceMap;
    var s := start;
    var cachedTick: Option<int>, cachedPrice: nat := None, 0;
    var iter := 0;
    while iter < BUDGET
      invariant iter <= BUDGET
      invariant Run(c, s, BUDGET - iter) == Run(c, start, BUDGET)
      invariant cachedTick.Some? ==> cachedPrice == c.price(cachedTick.value)
    {
      if s.remaining == 0 || s.current == c.limit { return Ok(ResultOf(amount, s)); }
      if if c.down then s.tick < c.lower else s.tick >= c.upper { return Err(MoreArraysRequired); }
      var index := FindNext(c, s.tick);
      var nextTick := if index.Some? then c.nodes[index.value].tick else if c.down then c.lower else c.upper;
      if cachedTick != Some(nextTick) {
        cachedTick, cachedPrice := Some(nextTick), c.price(nextTick);
      }
      var target := if c.down then Max(cachedPrice, c.limit) else Min(cachedPrice, c.limit);
      var span := SpanOf(c, s, target);
      if span.Err? { return Err(span.error); }
      var fee := FeeAt(c, s.group);
      var oldGroup := s.group;
      var moved := StepTo(c, s, span.value.bound, fee, index, nextTick, cachedPrice);
      if moved.Err? { return Err(moved.error); }
      s := moved.value;
      var group := NextGroup(c, s, oldGroup, span.value.skipped, nextTick);
      if group.Err? { return Err(group.error); }
      s := s.(group := group.value);
      iter := iter + 1;
    }
    r := Err(BudgetExhausted);
  }

  /** One step and its bookkeeping. */
  method StepTo(c: Context, s: State, bound: nat, fee: nat, index: Option<nat>, nextTick: int, nextPrice: nat)
    returns (r: Result<State, SwapError>)
    requires c.Valid() && fee < MILLION && (index.Some? ==> index.value < |c.nodes|) && nextPrice == c.price(nextTick)
    ensures var moved := Move(c, s, bound, fee);
      r == if moved.Err? then Err(moved.error) else Settle(c, s.current, moved.value, index, nextTick)
  {
    hide SwapStep, IsPriceMap;
    var step := SwapStep(s.current, bound, s.liquidity, s.remaining, fee, c.down);
    if step.Err? { return Err(StepFailed(step.error)); }
    var current := step.value.sqrtPrice;
    var left := s.remaining - step.value.amountIn - step.value.fee;
    var output, fees := s.output + step.value.amountOut, s.fees + step.value.fee;
    if left < 0 || output > U64 || fees > U64 { return Err(AmountOutsideRange); }
    var minimum := if s.first then fee else Min(s.minimumFee, fee);
    var maximum := if s.first then fee else Max(s.maximumFee, fee);
    var liquidity: int, tick := s.liquidity, s.tick;
    if current == nextPrice {
      if index.Some? {
        liquidity := liquidity + (if c.down then -c.nodes[index.value].net else c.nodes[index.value].net);
        if liquidity < 0 || liquidity > U128 { return Err(LiquidityOutsideRange); }
      }
      tick := if c.down then nextTick - 1 else nextTick;
    } else if current != s.current {
      if !(c.floor <= current <= c.ceiling) { return Err(PriceOutsideRange); }
      tick := Search(c, current);
    }
    r := Ok(State(current, tick, liquidity, left, output, fees, minimum, maximum, false, s.group));
  }

  method Search(c: Context, price: nat) returns (tick: int)
    requires c.Valid() && c.floor <= price
    ensures c.price(MIN_TICK) <= price && tick == TickAt(c.price, price)
  {
    tick := Bisect(c.price, price, c.floor, c.ceiling);
  }

  predicate Consistent(tick: int, sqrtPrice: nat) { Brackets(WhirlpoolPrice.PriceAt, tick, sqrtPrice) }

  lemma StartLegal(q: Request)
    requires q.Valid()
    ensures q.ContextOf().Valid() && Legal(q.ContextOf(), q.StartOf()) && Charged(q.amount, q.StartOf())
    ensures MovedFrom(q.ContextOf(), q.StartOf(), q.StartOf()) && LiquidityOf(q.ContextOf(), q.StartOf(), q.StartOf())
    ensures !Done(q.ContextOf(), q.StartOf())
  {
    ContextValid(q);
    hide IsPriceMap, WhirlpoolPrice.PriceAt, Request.ValidTicks, Request.ValidAdaptive;
    SumNetStart(q.Nodes(), q.down, q.pool.tickCurrent);
  }

  lemma QuoteRuns(q: Request)
    requires q.Valid() && Quote(q).Ok?
    ensures q.ContextOf().Valid()
    ensures var run := Run(q.ContextOf(), q.StartOf(), BUDGET);
      run.Ok? && Quote(q).value == ResultOf(q.amount, run.value)
  {
    ContextValid(q);
    hide Run, Context.Valid;
  }

  /** Every successful quote, adaptive or not, on any pool: direction, limit, fees that cover the
      least rate reported on everything consumed, and a position inside the loaded arrays. */
  lemma QuoteSafe(q: Request)
    requires q.Valid() && Quote(q).Ok?
    ensures var r := Quote(q).value;
      && 0 <= r.consumed <= q.amount && (r.consumed < q.amount ==> r.sqrtPrice == q.Limit())
      && (if q.down then q.Limit() <= r.sqrtPrice <= q.pool.sqrtPrice else q.pool.sqrtPrice <= r.sqrtPrice <= q.Limit())
      && r.minimumFeeRate <= r.maximumFeeRate
      && r.minimumFeeRate * r.consumed <= r.fee * MILLION
      && r.fee <= r.consumed
      && (if q.down then WhirlpoolPrice.PriceAt(q.Lower()) <= r.sqrtPrice && q.Lower() - 1 <= r.tickCurrent
          else r.sqrtPrice <= WhirlpoolPrice.PriceAt(q.Upper()) && r.tickCurrent <= q.Upper())
  {
    hide Run, Context.Valid, Request.Valid, IsPriceMap, WhirlpoolPrice.PriceAt;
    QuoteRuns(q);
    StartLegal(q);
    RunSafe(q.ContextOf(), q.amount, q.StartOf(), q.StartOf(), BUDGET);
  }

  /** On a consistent pool the quote also ends consistent and accounts for its liquidity by exactly
      the ticks crossed. */
  lemma QuotePosition(q: Request)
    requires q.Valid() && Consistent(q.pool.tickCurrent, q.pool.sqrtPrice) && Quote(q).Ok?
    ensures var r := Quote(q).value;
      && Consistent(r.tickCurrent, r.sqrtPrice)
      && r.liquidity == q.pool.liquidity + SumNet(q.Nodes(), q.down, q.pool.tickCurrent, r.tickCurrent)
  {
    hide Run, Context.Valid, Request.Valid, IsPriceMap, WhirlpoolPrice.PriceAt, SumNet;
    QuoteRuns(q);
    StartLegal(q);
    RunPosition(q.ContextOf(), q.StartOf(), q.StartOf(), BUDGET);
  }

  /** Without an adaptive fee, a quote on a consistent pool fails only on a width or for want of
      arrays; the iteration budget is never the reason. */
  lemma QuoteCompletes(q: Request)
    requires q.Valid() && Consistent(q.pool.tickCurrent, q.pool.sqrtPrice) && q.adaptive.None?
    ensures Quote(q).Err? ==> ExpectedError(Quote(q).error)
  {
    ContextValid(q);
    StartLegal(q);
    TickCount(q);
    hide Run, Context.Valid, IsPriceMap, WhirlpoolPrice.PriceAt, SumNet, Request.Nodes, Request.ValidTicks;
    RunCompletes(q.ContextOf(), q.StartOf(), BUDGET);
  }
}
