/** With an adaptive fee, a Whirlpool quote never fails for lack of iterations that its volatility groups account
    for, nor on an internal error, for group sizes that divide the tick spacing. */
module WhirlpoolBudget {
  import opened Arith
  import opened Outcomes
  import opened TickMap
  import opened ClmmStep
  import opened Traversal
  import opened WhirlpoolSwap
  import opened WhirlpoolSafety
  import opened WhirlpoolEngine
  import opened WhirlpoolPayout
  import opened WhirlpoolFailures
  import opened Groups
  import opened WhirlpoolGroups
  import WhirlpoolPrice

  /** A tick at or past the limit or the end of the loaded arrays. */
  predicate AtEnd(c: Context, end: int)
    requires c.Valid()
  {
    && TickInRange(end)
    && if c.down then c.price(end) <= c.limit || end < c.lower else c.limit <= c.price(end) || c.upper < end
  }

  /** The groups from the standing one up to that of a tick. */
  function GroupsAhead(c: Context, s: State, end: int): int
    requires Size(c) > 0
  {
    if c.down then s.group - end / Size(c) else end / Size(c) - s.group
  }

  /** The end of a group in the direction of the swap. */
  function FarEnd(c: Context, group: int): int { Low(Size(c), if c.down then group else group + 1) }

  /** The far end of the standing group lies ahead. */
  predicate FarAhead(c: Context, s: State) {
    if c.down then c.price(FarEnd(c, s.group)) <= s.current else s.current <= c.price(FarEnd(c, s.group))
  }

  /** An adaptive run that stands in the group charged next. */
  predicate Grouped(c: Context, s: State) {
    Legal(c, s) && Bracketed(c, s) && Aligned(c) && GroupOk(c, s) && FarAhead(c, s)
  }

  /** The boundaries of the outermost groups have a price. */
  predicate EdgesInRange(c: Context) {
    c.adaptive.Some? ==>
      var a := c.adaptive.value;
      && (a.lowerGroup.Some? ==> TickInRange(a.lowerGroup.value * a.groupSize))
      && (a.upperGroup.Some? ==> TickInRange((a.upperGroup.value + 1) * a.groupSize))
  }

  /** While the run goes on, the standing group is not past that of the end. */
  lemma InReach(c: Context, s: State, end: int)
    requires Grouped(c, s) && !Done(c, s) && !OutOfArrays(c, s) && AtEnd(c, end)
    ensures 0 <= GroupsAhead(c, s, end)
  {
    hide IsPriceMap, Nearest, Clamp;
    var z := Size(c);
    if c.down {
      if end < c.lower { PriceOrder(c.price, c.floor, c.ceiling, end, s.tick); }
      PriceOrder(c.price, c.floor, c.ceiling, end, Low(z, s.group + 1));
      ReachesAbove(z, end, s.group);
    } else {
      if c.upper < end { PriceOrder(c.price, c.floor, c.ceiling, s.tick + 1, end); }
      PriceOrder(c.price, c.floor, c.ceiling, Low(z, s.group), end);
      ReachesBelow(z, end, s.group);
    }
  }

  /** Inside the group charged next the bound lies ahead, so no step is invalid. */
  lemma BoundAhead(c: Context, s: State)
    requires Grouped(c, s) && EdgesInRange(c) && !OutOfArrays(c, s)
    ensures !BoundBehind(c, s)
  {
    hide IsPriceMap, Nearest, Bracketed, SpanOf;
    NextTickLoaded(c, s);
    SpanAhead(c, s, Target(c, c.price(NextTick(c, Nearest(c.nodes, c.down, s.tick, |c.nodes|)))));
  }

  lemma SpanAhead(c: Context, s: State, target: nat)
    requires c.Valid() && c.adaptive.Some? && EdgesInRange(c) && FarAhead(c, s)
    requires if c.down then target <= s.current else s.current <= target
    ensures var span := SpanOf(c, s, target);
      span.Ok? && if c.down then span.value.bound <= s.current else s.current <= span.value.bound
  {
    hide IsPriceMap;
    var a, z := c.adaptive.value, Size(c);
    if a.lowerGroup.Some? && s.group < a.lowerGroup.value {
      PriceRisesTo(c, s.group + 1, a.lowerGroup.value);
      EdgeIsLow(z, a.lowerGroup.value);
    }
    if a.upperGroup.Some? && a.upperGroup.value < s.group {
      PriceRisesTo(c, a.upperGroup.value + 1, s.group);
      EdgeIsLow(z, a.upperGroup.value + 1);
    }
  }

  lemma PriceRisesTo(c: Context, g: int, h: int)
    requires c.Valid() && g <= h
    ensures c.price(Low(Size(c), g)) <= c.price(Low(Size(c), h))
  {
    hide IsPriceMap;
    LowRises(Size(c), g, h);
    PriceUpTo(c, Low(Size(c), g), Low(Size(c), h));
  }

  /** Every iteration leaves a group behind for good. */
  lemma GroupPasses(c: Context, s: State)
    requires c.Valid() && c.adaptive.Some? && Iterate(c, s).Continue?
    ensures var x := Iterate(c, s).next; if c.down then x.group < s.group else s.group < x.group
  {
    hide Iterate, IsPriceMap, Nearest, RegionOf;
    GroupStep(c, s);
  }

  /** An iteration ends the run, leaves the arrays, or arrives at the boundary of the group that follows. */
  lemma FarAfter(c: Context, s: State)
    requires Legal(c, s) && Bracketed(c, s) && Aligned(c) && GroupOk(c, s) && Iterate(c, s).Continue?
    ensures var x := Iterate(c, s).next;
      Done(c, x) || OutOfArrays(c, x) || (c.Valid() && FarAhead(c, x))
  {
    hide Move, NextGroup, FeeAt, Nearest, IsPriceMap, GroupOk, InRegion, Low, Iterate;
    var x, index := Iterate(c, s).next, Nearest(c.nodes, c.down, s.tick, |c.nodes|);
    NextPlace(c, s);
    PriceRisesTo(c, x.group, x.group + 1);
    if x.current != c.price(NextTick(c, index)) {
      if !Done(c, x) { EndsOnBoundary(c, s); }
    } else if index.Some? {
      IterateMoves(c, s);
      MoveSafe(c, s, BoundOf(c, s), FeeAt(c, s.group));
      StaysInRegion(c, s, x.current);
      GroupStep(c, s);
      InsideRegion(c, s, x.current);
      CrossedGroup(c, s, index.value, x);
    } else {
      LeavesArrays(c, s);
    }
  }

  lemma LeavesArrays(c: Context, s: State)
    requires Legal(c, s) && Iterate(c, s).Continue?
    requires var index := Nearest(c.nodes, c.down, s.tick, |c.nodes|);
      index.None? && Iterate(c, s).next.current == c.price(NextTick(c, index))
    ensures OutOfArrays(c, Iterate(c, s).next)
  {
    hide Move, NextGroup, FeeAt, Nearest, IsPriceMap, Iterate;
    IterateMoves(c, s);
  }

  /** An adaptive run with two iterations more than groups up to its end fails only on a width or for want of
      arrays. */
  lemma {:induction false} GroupsComplete(c: Context, amount: nat, s: State, budget: nat, end: int)
    requires Legal(c, s) && c.Valid() && Charged(amount, s) && amount <= U64 && EdgesInRange(c) && AtEnd(c, end)
    requires c.adaptive.Some? && Size(c) > 0 && 1 <= budget
    requires Done(c, s) || OutOfArrays(c, s) || (Grouped(c, s) && GroupsAhead(c, s, end) + 2 <= budget)
    ensures Run(c, s, budget).Err? ==> ExpectedError(Run(c, s, budget).error)
    decreases budget
  {
    hide Iterate, Legal, GroupOk, Aligned, FarAhead, AtEnd, Bracketed, EdgesInRange, FailsRightly, Charged;
    ReturnDone(c, s);
    if !Done(c, s) && OutOfArrays(c, s) {
      NoArrays(c, s);
    } else if !Done(c, s) {
      match Iterate(c, s)
      case Continue(next) =>
        InReach(c, s, end);
        GroupAfter(c, s);
        GroupPasses(c, s);
        FarAfter(c, s);
        StillLegal(c, s);
        StartsMoved(c, s);
        IterateSafe(c, amount, s, s);
        GroupsComplete(c, amount, next, budget - 1, end);
      case Fail(error) =>
        IterateFails(c, amount, s);
        BoundAhead(c, s);
        OnlyExpected(c, s, error);
      case _ =>
    }
  }

  lemma NoArrays(c: Context, s: State)
    requires c.Valid() && !Done(c, s) && OutOfArrays(c, s)
    ensures Iterate(c, s) == Fail(MoreArraysRequired)
  {
  }

  lemma OnlyExpected(c: Context, s: State, e: SwapError)
    requires c.Valid() && FailsRightly(c, s, e) && !BoundBehind(c, s)
    ensures ExpectedError(e)
  {
    hide TooMuch, TooDeep, BoundBehind, IsPriceMap;
  }

  /** A run begins inside the group of the standing tick. */
  lemma StartFar(c: Context, s: State)
    requires Legal(c, s) && Bracketed(c, s) && Size(c) > 0 && TickInRange(s.tick) && s.group == s.tick / Size(c)
    ensures FarAhead(c, s)
  {
    hide IsPriceMap;
    GroupOfTick(s.tick, Size(c), 0);
    if c.down {
      PriceUpTo(c, Low(Size(c), s.group), s.tick);
    } else {
      PriceUpTo(c, Min(s.tick + 1, MAX_TICK), Low(Size(c), s.group + 1));
    }
  }

  /** The outermost groups have boundaries with prices when the reference group touches the tick range. */
  lemma ResolvedEdges(q: Request)
    requires q.adaptive.Some? && q.VolatilityReference(q.adaptive.value) <= q.adaptive.value.maximumVolatility
    requires var r, z := q.Resolved(q.adaptive.value).reference, q.adaptive.value.tickGroupSize;
      r * z <= MAX_TICK && MIN_TICK <= (r + 1) * z
    ensures var a := q.Resolved(q.adaptive.value);
      && (a.lowerGroup.Some? ==> TickInRange(a.lowerGroup.value * a.groupSize))
      && (a.upperGroup.Some? ==> TickInRange((a.upperGroup.value + 1) * a.groupSize))
  {
    hide Ceil, Request.VolatilityReference;
    var a := q.adaptive.value;
    var gap := a.maximumVolatility - q.VolatilityReference(a);
    CeilIff(gap, 10000, Ceil(gap, 10000));
    var r, distance := q.Resolved(a).reference, Ceil(gap, 10000);
    MulMono(r - distance, r, a.tickGroupSize);
    MulMono(r + 1, r + distance + 1, a.tickGroupSize);
  }

  lemma StartGrouped(q: Request)
    requires q.Valid() && Consistent(q.pool.tickCurrent, q.pool.sqrtPrice) && q.adaptive.Some?
    requires q.pool.tickSpacing % q.adaptive.value.tickGroupSize == 0
    ensures q.ContextOf().Valid() && Grouped(q.ContextOf(), q.StartOf())
  {
    hide IsPriceMap, WhirlpoolPrice.PriceAt, GroupOk, FarAhead, Request.ValidTicks, Request.ValidArrays;
    StartAligned(q);
    StartLegal(q);
    StartInGroup(q.ContextOf(), q.StartOf());
    StartFar(q.ContextOf(), q.StartOf());
  }

  /** With a group size that divides the tick spacing, an adaptive quote on a consistent pool fails only on a
      width or for want of arrays, if two groups less than iterations lie between the pool's tick and one at
      the limit or past the arrays. */
  lemma QuoteCompletes(q: Request, end: int)
    requires q.Valid() && Consistent(q.pool.tickCurrent, q.pool.sqrtPrice) && q.adaptive.Some?
    requires q.pool.tickSpacing % q.adaptive.value.tickGroupSize == 0 && TickInRange(end)
    requires var r, z := q.Resolved(q.adaptive.value).reference, q.adaptive.value.tickGroupSize;
      r * z <= MAX_TICK && MIN_TICK <= (r + 1) * z
    requires if q.down then WhirlpoolPrice.PriceAt(end) <= q.Limit() || end < q.Lower()
      else q.Limit() <= WhirlpoolPrice.PriceAt(end) || q.Upper() < end
    requires var z := q.adaptive.value.tickGroupSize; Abs(q.pool.tickCurrent / z - end / z) + 2 <= BUDGET
    ensures Quote(q).Err? ==> ExpectedError(Quote(q).error)
  {
    hide Run, IsPriceMap, WhirlpoolPrice.PriceAt, Grouped, Request.ValidTicks, Request.ValidArrays, Request.Limit,
      Request.Nodes;
    StartGrouped(q);
    StartLegal(q);
    ResolvedEdges(q);
    GroupsComplete(q.ContextOf(), q.amount, q.StartOf(), BUDGET, end);
  }

  lemma GroupsBetween(low: int, high: int, z: nat, n: nat)
    requires z > 0 && low <= high && high - low <= n * z
    ensures 0 <= high / z - low / z <= n + 1
  {
    var g, h := low / z, high / z;
    GroupIff(low, z);
    GroupIff(high, z);
    if h < g { MulMono(h + 1, g, z); }
    if n + 2 <= h - g {
      MulMono(g + 1 + (n + 1), h, z);
      Distribute(z, g + 1, n + 1);
      Distribute(z, n, 1);
    }
  }

  /** Six arrays hold few enough groups when at most fifteen of them fit the tick spacing: an adaptive quote
      from a tick inside its arrays then never runs out of iterations. */
  lemma ArraysSuffice(q: Request)
    requires q.Valid() && Consistent(q.pool.tickCurrent, q.pool.sqrtPrice) && q.adaptive.Some?
    requires q.pool.tickSpacing % q.adaptive.value.tickGroupSize == 0
    requires q.pool.tickSpacing <= 15 * q.adaptive.value.tickGroupSize
    requires q.Lower() <= q.pool.tickCurrent <= q.Upper()
    requires var r, z := q.Resolved(q.adaptive.value).reference, q.adaptive.value.tickGroupSize;
      r * z <= MAX_TICK && MIN_TICK <= (r + 1) * z
    ensures Quote(q).Err? ==> ExpectedError(Quote(q).error)
  {
    hide Quote, IsPriceMap, WhirlpoolPrice.PriceAt, Request.Starts, Request.Lower, Request.Upper, Request.Resolved,
      Request.ValidTicks, Request.ValidAdaptive;
    ArraysOrdered(q);
    var z, tick := q.adaptive.value.tickGroupSize, q.pool.tickCurrent;
    EndPrices();
    var end := if q.down then Max(q.Lower() - 1, MIN_TICK) else Min(q.Upper() + 1, MAX_TICK);
    if q.down { GroupsBetween(end, tick, z, 7920); } else { GroupsBetween(tick, end, z, 7920); }
    QuoteCompletes(q, end);
  }

  lemma EndPrices()
    ensures WhirlpoolPrice.PriceAt(MIN_TICK) == WhirlpoolPrice.MIN_SQRT_PRICE
    ensures WhirlpoolPrice.PriceAt(MAX_TICK) == WhirlpoolPrice.MAX_SQRT_PRICE
  {
    WhirlpoolPrice.PriceMapValid(MIN_TICK, MAX_TICK);
    hide WhirlpoolPrice.PriceAt;
  }
}
