/** In every fee mode, a CLMM run whose budget covers its ticks or its volatility groups fails only on a width or
    when it is left with a rest too small to move the price. */
module ClmmBudget {
  import opened Arith
  import opened Outcomes
  import opened TickMap
  import opened ClmmStep
  import opened Traversal
  import opened ClmmSwap
  import opened ClmmSafety
  import opened ClmmProgress
  import opened ClmmEngine
  import opened ClmmMonotone
  import opened ClmmPayout
  import opened ClmmFailures
  import opened Groups
  import opened ClmmGroups
  import ClmmPrice

  /** A tick at or past the limit. */
  predicate AtLimit(c: Context, end: int) {
    TickInRange(end) && if c.down then c.price(end) <= c.limit else c.limit <= c.price(end)
  }

  /** The groups from the standing one up to that of a tick. */
  function GroupsAhead(c: Context, s: State, end: int): int
    requires c.tickSpacing > 0
  {
    if c.down then s.group - end / c.tickSpacing else end / c.tickSpacing - s.group
  }

  /** A run with dynamic fees that stands in the group charged next. */
  predicate Grouped(c: Context, s: State) {
    && Legal(c, s) && Bracketed(c, s) && Fits(c, s) && Aligned(c) && c.enabled && GroupOk(c, s)
    && Q64 <= c.floor * c.floor
  }

  /** The far end of the standing group lies ahead. */
  predicate FarAhead(c: Context, s: State) {
    if c.down then c.price(FarEnd(c, s.group)) <= s.current else s.current <= c.price(FarEnd(c, s.group))
  }

  /** Short of the limit, the standing group is not past that of the limit. */
  lemma InReach(c: Context, s: State, end: int)
    requires Grouped(c, s) && !Done(c, s) && AtLimit(c, end)
    ensures 0 <= GroupsAhead(c, s, end)
  {
    hide IsPriceMap, Nearest;
    if c.down {
      PriceOrder(c.price, c.floor, c.ceiling, end, Low(c.tickSpacing, s.group + 1));
      ReachesAbove(c.tickSpacing, end, s.group);
    } else {
      PriceOrder(c.price, c.floor, c.ceiling, Low(c.tickSpacing, s.group), end);
      ReachesBelow(c.tickSpacing, end, s.group);
    }
  }

  /** Inside the group charged next the bound lies ahead, so no step is invalid. */
  lemma BoundAhead(c: Context, s: State)
    requires Legal(c, s) && Bracketed(c, s) && Fits(c, s) && c.enabled && FarAhead(c, s)
    ensures !BoundBehind(c, s)
  {
    hide IsPriceMap, Nearest, Skips, Bracketed, Clamp;
    NextPriceSide(c, s);
    BoundIs(c, s);
  }

  lemma BoundIs(c: Context, s: State)
    requires Fits(c, s) && c.enabled
    ensures var target := Target(c, c.price(NextTick(c, Nearest(c, s, |c.ticks|))));
      BoundOf(c, s) == target || BoundOf(c, s) == if c.down then Max(target, c.price(FarEnd(c, s.group)))
                                                  else Min(target, c.price(FarEnd(c, s.group)))
  {
    hide IsPriceMap, Nearest, Skips;
  }

  /** A tick that is reached from a group lies in a group further on. */
  lemma ReachedGroup(c: Context, s: State, t: int, k: int)
    requires c.Valid() && (if c.down then c.floor < s.current else s.current < c.ceiling)
    requires c.tickSpacing > 0 && t == k * c.tickSpacing && TickInRange(t)
    requires if c.down then t <= Low(c.tickSpacing, s.group) && s.current <= c.price(Low(c.tickSpacing, s.group + 1))
      else Low(c.tickSpacing, s.group + 1) <= t && c.price(Low(c.tickSpacing, s.group)) <= s.current
    ensures if c.down then k <= s.group else s.group < k
  {
    hide IsPriceMap, Clamp;
    Edges(c);
    if c.down {
      PriceOrder(c.price, c.floor, c.ceiling, MIN_TICK, Low(c.tickSpacing, s.group + 1));
      AtOrBelow(c.tickSpacing, k, s.group);
    } else {
      PriceOrder(c.price, c.floor, c.ceiling, Low(c.tickSpacing, s.group), MAX_TICK);
      AtOrAbove(c.tickSpacing, k, s.group);
    }
  }

  lemma Edges(c: Context)
    requires c.Valid()
    ensures c.price(MIN_TICK) == c.floor && c.price(MAX_TICK) == c.ceiling
  {
  }

  /** Where an iteration that goes on leads. */
  lemma NextIs(c: Context, s: State)
    requires Fits(c, s) && !Done(c, s) && Iterate(c, s).Continue?
    ensures Move(c, s, BoundOf(c, s), FeeOf(c, s)).Ok?
    ensures var m, x, index := Moved(c, s), Iterate(c, s).next, Nearest(c, s, |c.ticks|);
      && x.current == m.current
      && (m.current == c.price(NextTick(c, index)) ==>
          index.Some? && x.group == NextGroup(c, s.group, Skips(c, s), c.ticks[index.value].tick))
      && (!Skips(c, s) && c.enabled ==> x.group == if c.down then s.group - 1 else s.group + 1)
  {
    hide Move, TakeOrders, CrossTick, Bound, Skips, FeeAt, Nearest, Context.Valid;
    AfterMove(c, s);
    MoveOrders(c, s);
    var m, index := Moved(c, s), Nearest(c, s, |c.ticks|);
    if m.current == c.price(NextTick(c, index)) && index.Some? {
      TakePlace(c, m, index.value, FeeOf(c, s));
      CrossKeeps(c, TakeOrders(c, m, index.value, FeeOf(c, s)).value, index.value);
    }
  }

  lemma PassesCrossed(c: Context, s: State)
    requires Grouped(c, s) && !Done(c, s) && Iterate(c, s).Continue?
    requires Moved(c, s).current == c.price(NextTick(c, Nearest(c, s, |c.ticks|)))
    ensures var x := Iterate(c, s).next; FarAhead(c, x) && if c.down then x.group < s.group else s.group < x.group
  {
    hide Iterate, Move, Nearest, IsPriceMap, FeeAt, Bound, Skips, Clamp;
    NextIs(c, s);
    var x, i, z := Iterate(c, s).next, Nearest(c, s, |c.ticks|).value, c.tickSpacing;
    var t := c.ticks[i].tick;
    CrossedGroup(c, s, i);
    LowRises(z, x.group, x.group + 1);
    PriceUpTo(c, Low(z, x.group), Low(z, x.group + 1));
    assert t == t / z * z;
    Inside(c, s);
    ReachedGroup(c, s, t, t / z);
  }

  lemma Inside(c: Context, s: State)
    requires Legal(c, s) && !Done(c, s)
    ensures if c.down then c.floor < s.current else s.current < c.ceiling
  {
  }

  lemma PassesUncrossed(c: Context, s: State)
    requires Grouped(c, s) && !Done(c, s) && Iterate(c, s).Continue? && !Done(c, Iterate(c, s).next)
    requires Moved(c, s).current != c.price(NextTick(c, Nearest(c, s, |c.ticks|)))
    ensures var x := Iterate(c, s).next;
      && Fits(c, x)
      && (Stuck(c, x) || (FarAhead(c, x) && if c.down then x.group < s.group else s.group < x.group))
  {
    hide Iterate, Move, Nearest, IsPriceMap, FeeAt, Bound, Skips, Dust, Stuck, Clamp;
    KeepsFit(c, s);
    NextIs(c, s);
    if Moved(c, s).current != BoundOf(c, s) {
      MoveEnds(c, s);
      ShortMove(c, s, BoundOf(c, s), FeeOf(c, s));
      ShortEnds(c, s);
    } else {
      NotDone(c, s);
      EndsOnBoundary(c, s);
      var z, x := c.tickSpacing, Iterate(c, s).next;
      LowRises(z, x.group, x.group + 1);
      PriceUpTo(c, Low(z, x.group), Low(z, x.group + 1));
    }
  }

  /** Every iteration leaves a group behind for good, unless the run is over or stuck. */
  lemma GroupPasses(c: Context, s: State)
    requires Grouped(c, s) && !Done(c, s) && Iterate(c, s).Continue?
    ensures var x := Iterate(c, s).next;
      && Fits(c, x)
      && (Done(c, x) || Stuck(c, x) || (FarAhead(c, x) && if c.down then x.group < s.group else s.group < x.group))
  {
    hide Iterate, Move, Nearest, IsPriceMap, GroupOk, FeeAt, Bound, Skips, Dust, Stuck, FarAhead;
    KeepsFit(c, s);
    if Moved(c, s).current == c.price(NextTick(c, Nearest(c, s, |c.ticks|))) {
      PassesCrossed(c, s);
    } else if !Done(c, Iterate(c, s).next) {
      PassesUncrossed(c, s);
    }
  }

  lemma NotDone(c: Context, s: State)
    requires Legal(c, s) && Fits(c, s) && !Done(c, s) && Iterate(c, s).Continue? && !Done(c, Iterate(c, s).next)
    ensures Move(c, s, BoundOf(c, s), FeeOf(c, s)).Ok? && !Done(c, Moved(c, s))
  {
    hide Iterate, Move, Nearest, IsPriceMap, FeeAt, Bound, Skips;
    AfterMove(c, s);
    NextIs(c, s);
  }

  lemma ShortEnds(c: Context, s: State)
    requires Legal(c, s) && Bracketed(c, s) && Fits(c, s) && !Done(c, s) && Iterate(c, s).Continue?
    requires Move(c, s, BoundOf(c, s), FeeOf(c, s)).Ok? && s.current != BoundOf(c, s)
    requires var m := Moved(c, s); m.current != BoundOf(c, s) && (m.remaining == 0 || Dust(c, m))
    requires !Done(c, Iterate(c, s).next)
    ensures Fits(c, Iterate(c, s).next) && Stuck(c, Iterate(c, s).next)
  {
    hide Iterate, Move, Nearest, IsPriceMap, FeeAt, Bound, Skips, Dust, Stuck;
    NotDone(c, s);
    DustSticks(c, s);
  }

  /** A run that comes, within its budget, to a state with dust from which the price cannot move on. */
  predicate GetsStuck(c: Context, s: State, budget: nat)
    requires Fits(c, s)
    decreases budget
  {
    !Done(c, s) && (
      || Stuck(c, s)
      || (budget > 0 && Iterate(c, s).Continue? && (
            KeepsFit(c, s);
            GetsStuck(c, Iterate(c, s).next, budget - 1))))
  }

  /** Getting stuck is always fatal, and never happens with fees on the input. */
  lemma {:induction false} StuckIsFatal(c: Context, s: State, budget: nat)
    requires Fits(c, s) && GetsStuck(c, s, budget)
    ensures Run(c, s, budget).Err? && !c.inputFee
    decreases budget
  {
    hide Iterate, Stuck, Context.Valid;
    Returns(c, s);
    if Stuck(c, s) {
      StuckFails(c, s, budget);
      NeverStuck(c, s);
    } else {
      KeepsFit(c, s);
      StuckIsFatal(c, Iterate(c, s).next, budget - 1);
    }
  }

  /** A run with dynamic fees whose budget exceeds the groups up to the limit fails only on a width or by getting
      stuck. */
  lemma {:induction false} GroupsComplete(c: Context, s: State, budget: nat, end: int)
    requires Legal(c, s) && Fits(c, s) && AtLimit(c, end)
    requires Done(c, s) || (Grouped(c, s) && FarAhead(c, s) && GroupsAhead(c, s, end) < budget)
    ensures Run(c, s, budget).Err? ==> WidthError(Run(c, s, budget).error) || GetsStuck(c, s, budget)
    decreases budget
  {
    hide Iterate, Legal, GroupOk, Aligned, FarAhead, AtLimit, Bracketed, Fits, Stuck;
    FitsValid(c, s);
    Returns(c, s);
    if !Done(c, s) {
      InReach(c, s, end);
      match Iterate(c, s)
      case Continue(next) =>
        GroupAfter(c, s);
        GroupPasses(c, s);
        StillLegal(c, s);
        if Done(c, next) || !Stuck(c, next) { GroupsComplete(c, next, budget - 1, end); }
      case Fail(error) =>
        IterateFails(c, s);
        BoundAhead(c, s);
        OnlyWidths(c, s, error);
      case Break(last) => BreakEnds(c, s);
      case _ =>
    }
  }

  /** Where an iteration arrives at a tick, it clears its orders and leaves one tick fewer ahead, or the input is
      used up. */
  lemma TickPasses(c: Context, s: State)
    requires Legal(c, s) && Bracketed(c, s) && Fits(c, s) && Q64 <= c.floor * c.floor
    requires !Done(c, s) && Iterate(c, s).Continue?
    requires Moved(c, s).current == c.price(NextTick(c, Nearest(c, s, |c.ticks|)))
    ensures var x := Iterate(c, s).next;
      Done(c, x) || Ahead(c.Nodes(), c.down, x.tick) < Ahead(c.Nodes(), c.down, s.tick)
  {
    hide Move, TakeOrders, CrossTick, Nearest, IsPriceMap, FeeAt, Skips, Ahead, Context.Nodes, Bound, NextGroup,
      Bracketed;
    AfterMove(c, s);
    MovedState(c, s);
    MoveOrders(c, s);
    var m, index, fee := Moved(c, s), Nearest(c, s, |c.ticks|), FeeOf(c, s);
    OrdersProgress(c, m, index.value, fee);
    var t := TakeOrders(c, m, index.value, fee).value;
    CrossKeeps(c, t, index.value);
    if t.orders[index.value] == 0 { CrossProgress(c, s, t, index.value); }
  }

  /** With a static fee, on either side, an iteration ends the run, gets it stuck, or leaves one tick fewer ahead. */
  lemma TicksPass(c: Context, s: State)
    requires Legal(c, s) && Bracketed(c, s) && Fits(c, s) && !c.enabled && Q64 <= c.floor * c.floor
    requires !Done(c, s) && Iterate(c, s).Continue?
    ensures var x := Iterate(c, s).next;
      && Fits(c, x)
      && (Done(c, x) || Stuck(c, x) || Ahead(c.Nodes(), c.down, x.tick) < Ahead(c.Nodes(), c.down, s.tick))
  {
    hide Iterate, Move, Nearest, IsPriceMap, FeeAt, Bound, Skips, Dust, Stuck, Ahead, Context.Nodes;
    KeepsFit(c, s);
    NextIs(c, s);
    StaticTarget(c, s);
    if Moved(c, s).current == c.price(NextTick(c, Nearest(c, s, |c.ticks|))) {
      TickPasses(c, s);
    } else if Moved(c, s).current != BoundOf(c, s) && !Done(c, Iterate(c, s).next) {
      MoveEnds(c, s);
      ShortMove(c, s, BoundOf(c, s), FeeOf(c, s));
      ShortEnds(c, s);
    }
  }

  lemma StaticTarget(c: Context, s: State)
    requires Fits(c, s) && !c.enabled
    ensures BoundOf(c, s) == c.price(NextTick(c, Nearest(c, s, |c.ticks|))) || BoundOf(c, s) == c.limit
  {
    hide Nearest, IsPriceMap;
  }

  lemma StaticBound(c: Context, s: State)
    requires Legal(c, s) && Bracketed(c, s) && Fits(c, s) && !c.enabled
    ensures !BoundBehind(c, s)
  {
    hide IsPriceMap, Nearest, Bracketed;
    NextPriceSide(c, s);
  }

  /** A run with a static fee, on either side, whose budget exceeds the ticks ahead fails only on a width or by
      getting stuck. */
  lemma {:induction false} TicksComplete(c: Context, s: State, budget: nat)
    requires Legal(c, s) && Bracketed(c, s) && Fits(c, s) && !c.enabled && Q64 <= c.floor * c.floor
    requires Done(c, s) || Ahead(c.Nodes(), c.down, s.tick) < budget
    ensures Run(c, s, budget).Err? ==> WidthError(Run(c, s, budget).error) || GetsStuck(c, s, budget)
    decreases budget
  {
    hide Iterate, Legal, Bracketed, Fits, Stuck, Ahead, Context.Nodes;
    FitsValid(c, s);
    Returns(c, s);
    if !Done(c, s) {
      match Iterate(c, s)
      case Continue(next) =>
        TicksPass(c, s);
        StillLegal(c, s);
        if Done(c, next) || !Stuck(c, next) { TicksComplete(c, next, budget - 1); }
      case Fail(error) =>
        IterateFails(c, s);
        StaticBound(c, s);
        OnlyWidths(c, s, error);
      case Break(last) => BreakEnds(c, s);
      case _ =>
    }
  }

  lemma NeverStuck(c: Context, s: State)
    requires Fits(c, s)
    ensures c.inputFee ==> !Stuck(c, s)
  {
  }

  lemma BreakEnds(c: Context, s: State)
    requires Legal(c, s) && !Done(c, s) && Iterate(c, s).Break?
    ensures Done(c, Iterate(c, s).last)
  {
    hide Move, TakeOrders, CrossTick, FeeAt, Nearest, Skips, NextGroup, Bound;
    MovedState(c, s);
  }

  lemma OnlyWidths(c: Context, s: State, e: SwapError)
    requires Fits(c, s) && FailsRightly(c, s, e) && !BoundBehind(c, s)
    ensures WidthError(e)
  {
    hide StepTooMuch, TooMuch, TooDeep, BoundBehind;
  }

  /** A run begins inside the group of the standing tick. */
  lemma StartFar(c: Context, s: State)
    requires Legal(c, s) && Bracketed(c, s) && c.tickSpacing > 0 && MIN_TICK <= s.tick
    requires s.group == s.tick / c.tickSpacing
    ensures FarAhead(c, s)
  {
    hide IsPriceMap;
    GroupOfTick(s.tick, c.tickSpacing, 0);
    if c.down {
      PriceUpTo(c, Low(c.tickSpacing, s.group), s.tick);
    } else {
      PriceUpTo(c, Min(s.tick + 1, MAX_TICK), Low(c.tickSpacing, s.group + 1));
    }
  }

  lemma StartGrouped(q: Request)
    requires q.ValidPool() && q.Valid() && Consistent(q.pool.tickCurrent, q.pool.sqrtPrice) && q.dynamic.enabled
    ensures Grouped(q.ContextOf(), q.StartOf()) && FarAhead(q.ContextOf(), q.StartOf())
  {
    hide IsPriceMap, ClmmPrice.PriceAt, GroupOk, FarAhead;
    var c, s := q.ContextOf(), q.StartOf();
    ContextValid(q);
    StartLegal(q);
    StartInGroup(c, s);
    StartFar(c, s);
  }

  lemma StartFits(q: Request, end: int)
    requires q.ValidPool() && q.dynamic.enabled && Grouped(q.ContextOf(), q.StartOf())
    ensures Legal(q.ContextOf(), q.StartOf()) && Fits(q.ContextOf(), q.StartOf())
    ensures GroupsAhead(q.ContextOf(), q.StartOf(), end)
         <= Abs(q.pool.tickCurrent / q.pool.tickSpacing - end / q.pool.tickSpacing)
  {
    hide IsPriceMap, ClmmPrice.PriceAt, GroupOk;
  }

  /** With dynamic fees on either side, a quote on a consistent pool fails only when an output or the liquidity
      leaves its width or when it gets stuck, if fewer groups than iterations lie between the pool's tick and one
      at the limit. */
  lemma DynamicCompletes(q: Request, end: int)
    requires q.ValidPool() && q.Valid() && Consistent(q.pool.tickCurrent, q.pool.sqrtPrice) && q.dynamic.enabled
    requires TickInRange(end)
    requires if q.down then ClmmPrice.PriceAt(end) <= q.limit else q.limit <= ClmmPrice.PriceAt(end)
    requires Abs(q.pool.tickCurrent / q.pool.tickSpacing - end / q.pool.tickSpacing) < BUDGET
    ensures Fits(q.ContextOf(), q.StartOf())
    ensures GetsStuck(q.ContextOf(), q.StartOf(), BUDGET) ==> Quote(q).Err? && !q.ContextOf().inputFee
    ensures Quote(q).Err? ==> WidthError(Quote(q).error) || GetsStuck(q.ContextOf(), q.StartOf(), BUDGET)
  {
    hide Run, IsPriceMap, ClmmPrice.PriceAt, Grouped, FarAhead, Request.Valid, GetsStuck;
    ContextValid(q);
    StartGrouped(q);
    StartFits(q, end);
    GroupsComplete(q.ContextOf(), q.StartOf(), BUDGET, end);
    if GetsStuck(q.ContextOf(), q.StartOf(), BUDGET) { StuckIsFatal(q.ContextOf(), q.StartOf(), BUDGET); }
  }

  /** With a static fee on either side and at most 8191 ticks, a quote on a consistent pool fails only when an
      output or the liquidity leaves its width or when it gets stuck. */
  lemma StaticCompletes(q: Request)
    requires q.ValidPool() && q.Valid() && Consistent(q.pool.tickCurrent, q.pool.sqrtPrice) && !q.dynamic.enabled
    requires |q.ticks| < BUDGET
    ensures Fits(q.ContextOf(), q.StartOf())
    ensures GetsStuck(q.ContextOf(), q.StartOf(), BUDGET) ==> Quote(q).Err? && !q.ContextOf().inputFee
    ensures Quote(q).Err? ==> WidthError(Quote(q).error) || GetsStuck(q.ContextOf(), q.StartOf(), BUDGET)
  {
    hide Run, IsPriceMap, ClmmPrice.PriceAt, Request.Valid, GetsStuck, Ahead;
    ContextValid(q);
    StartLegal(q);
    FitsLegal(q.ContextOf(), q.StartOf());
    TicksComplete(q.ContextOf(), q.StartOf(), BUDGET);
    if GetsStuck(q.ContextOf(), q.StartOf(), BUDGET) { StuckIsFatal(q.ContextOf(), q.StartOf(), BUDGET); }
  }
}
