/** Which limit orders a CLMM run fills: all that it passes, none that it does not reach, and a part of one only
    with its last input. */
module ClmmFills {
  import opened Arith
  import opened Outcomes
  import opened TickMap
  import opened ClmmStep
  import opened Traversal
  import opened ClmmSwap
  import opened ClmmSafety
  import opened ClmmProgress
  import opened ClmmEngine
  import opened ClmmMonotone
  import opened ClmmPayout
  import ClmmPrice

  /** Order `i` in a run that stands at `s`: untouched if it was never ahead, cleared if it was passed, and if
      still ahead untouched or begun with the last input at its price. */
  predicate OrderOk(c: Context, start: State, s: State, i: nat)
    requires i < |c.ticks| == |start.orders| == |s.orders|
  {
    var t := c.ticks[i].tick;
    && (!IsAhead(c.down, start.tick, t) ==> s.orders[i] == start.orders[i])
    && (IsAhead(c.down, start.tick, t) && !IsAhead(c.down, s.tick, t) ==> s.orders[i] == 0)
    && (IsAhead(c.down, s.tick, t) && s.orders[i] != start.orders[i] ==> s.remaining == 0 && s.current == c.price(t))
  }

  predicate OrdersOk(c: Context, start: State, s: State) {
    && |c.ticks| == |start.orders| == |s.orders|
    && (if c.down then s.tick <= start.tick else start.tick <= s.tick)
    && forall i | 0 <= i < |c.ticks| :: OrderOk(c, start, s, i)
  }

  /** No order lies strictly between the standing tick and the next one. */
  lemma NoOrderBetween(c: Context, s: State, j: nat)
    requires c.Valid() && |s.orders| == |c.ticks| && j < |c.ticks|
    requires s.orders[j] > 0 && IsAhead(c.down, s.tick, c.ticks[j].tick)
    ensures var index := Nearest(c, s, |c.ticks|);
      index.Some? && (if c.down then c.ticks[j].tick <= NextTick(c, index) else NextTick(c, index) <= c.ticks[j].tick)
      && (c.ticks[j].tick == NextTick(c, index) ==> j == index.value)
  {
    assert Live(c, s, j);
  }

  lemma Arrived(c: Context, start: State, s: State, x: State, i: nat, j: nat)
    requires c.Valid() && OrdersOk(c, start, s) && s.remaining > 0 && j < |c.ticks|
    requires Nearest(c, s, |c.ticks|) == Some(i) && |x.orders| == |s.orders| && x.orders == s.orders[i := x.orders[i]]
    requires x.orders[i] == 0 || x.remaining == 0
    requires x.current == c.price(c.ticks[i].tick)
    requires x.tick == if c.down == (x.orders[i] == 0) then c.ticks[i].tick - 1 else c.ticks[i].tick
    ensures OrderOk(c, start, x, j)
  {
    hide IsPriceMap;
    assert OrderOk(c, start, s, j);
    if s.orders[j] > 0 && IsAhead(c.down, s.tick, c.ticks[j].tick) { NoOrderBetween(c, s, j); }
  }

  lemma Short(c: Context, start: State, s: State, x: State, j: nat)
    requires c.Valid() && OrdersOk(c, start, s) && s.remaining > 0 && j < |c.ticks| && x.orders == s.orders
    requires var t := NextTick(c, Nearest(c, s, |c.ticks|));
      x.tick == s.tick || if c.down then t <= x.tick <= s.tick else s.tick <= x.tick < t
    ensures OrderOk(c, start, x, j)
  {
    hide IsPriceMap, Nearest;
    assert OrderOk(c, start, s, j);
    if s.orders[j] > 0 && IsAhead(c.down, s.tick, c.ticks[j].tick) { NoOrderBetween(c, s, j); }
  }

  /** What the bookkeeping at a reached tick leaves. */
  lemma CrossedTick(c: Context, s: State, i: nat)
    requires i < |c.ticks| == |s.orders| && CrossTick(c, s, i).Ok?
    ensures CrossTick(c, s, i).value.tick
         == if c.down == (s.orders[i] == 0) then c.ticks[i].tick - 1 else c.ticks[i].tick
  {
  }

  /** One iteration, in any fee mode. */
  lemma IterateFillsRightly(c: Context, start: State, s: State)
    requires Legal(c, s) && Bracketed(c, s) && OrdersOk(c, start, s) && Q64 <= c.floor * c.floor
    requires !Done(c, s) && Iterate(c, s).Continue?
    ensures OrdersOk(c, start, Iterate(c, s).next)
  {
    hide Move, TakeOrders, CrossTick, Bound, Skips, FeeAt, Nearest, NextGroup, Target, OrderOk, IsPriceMap;
    FitsLegal(c, s);
    AfterMove(c, s);
    MovedState(c, s);
    var m, x, index, fee := Moved(c, s), Iterate(c, s).next, Nearest(c, s, |c.ticks|), FeeOf(c, s);
    if m.current == c.price(NextTick(c, index)) {
      var i := index.value;
      OrdersProgress(c, m, i, fee);
      OrdersSafe(c, m, i, fee);
      var t := TakeOrders(c, m, i, fee).value;
      CrossKeeps(c, t, i);
      CrossedTick(c, t, i);
      forall j | 0 <= j < |c.ticks| ensures OrderOk(c, start, x, j) { Arrived(c, start, s, x, i, j); }
    } else {
      if m.current != s.current {
        TickBetween(c.price, c.floor, c.ceiling, c.down, s.tick, s.current, NextTick(c, index), m.current);
      }
      forall j | 0 <= j < |c.ticks| ensures OrderOk(c, start, x, j) { Short(c, start, s, x, j); }
    }
  }

  /** An order when the run has ended at a price: cleared if that price is past its own, untouched if it was
      never ahead or the price is short of it, and begun only with the last input. */
  predicate Filled(c: Context, start: State, x: State, i: nat)
    requires i < |c.ticks| == |start.orders| == |x.orders|
  {
    var t := c.ticks[i].tick;
    && (!IsAhead(c.down, start.tick, t) ==> x.orders[i] == start.orders[i])
    && (IsAhead(c.down, start.tick, t) && (if c.down then x.current < c.price(t) else c.price(t) < x.current) ==>
          x.orders[i] == 0)
    && ((if c.down then c.price(t) < x.current else x.current < c.price(t)) ==> x.orders[i] == start.orders[i])
    && (x.orders[i] == 0 || x.orders[i] == start.orders[i] || x.remaining == 0)
  }

  lemma BracketedFilled(c: Context, start: State, x: State, i: nat)
    requires c.Valid() && OrdersOk(c, start, x) && Bracketed(c, x) && i < |c.ticks|
    ensures Filled(c, start, x, i)
  {
    assert OrderOk(c, start, x, i);
    var t := c.ticks[i].tick;
    hide IsPriceMap;
    if IsAhead(c.down, x.tick, t) {
      if c.down { PriceOrder(c, t, x.tick); } else { PriceOrder(c, x.tick + 1, t); }
    } else if c.down {
      PriceOrder(c, x.tick + 1, t);
    } else {
      PriceOrder(c, t, x.tick);
    }
  }

  lemma PriceOrder(c: Context, a: int, b: int)
    requires c.Valid() && a <= b && MIN_TICK <= b && a <= MAX_TICK
    ensures TickInRange(a) && TickInRange(b) ==> c.price(a) <= c.price(b)
  {
    if TickInRange(a) && TickInRange(b) { Increasing(c.price, c.floor, c.ceiling, a, b); }
  }

  /** A run that breaks off at an outermost price has no order left ahead. */
  lemma BreakFilled(c: Context, start: State, s: State, i: nat)
    requires Legal(c, s) && Bracketed(c, s) && OrdersOk(c, start, s) && !Done(c, s) && Iterate(c, s).Break?
    requires i < |c.ticks|
    ensures |Iterate(c, s).last.orders| == |c.ticks| && Filled(c, start, Iterate(c, s).last, i)
  {
    hide Move, TakeOrders, CrossTick, Bound, Skips, FeeAt, Nearest, NextGroup, Target;
    assert OrderOk(c, start, s, i);
    MovedState(c, s);
    WithinLimits(c.price, c.floor, c.ceiling, c.ticks[i].tick);
    if s.orders[i] > 0 && IsAhead(c.down, s.tick, c.ticks[i].tick) { NoOrderBetween(c, s, i); }
  }

  /** Every successful run on a consistent pool, in every fee mode, leaves every order as its price demands. */
  lemma {:induction false} RunFills(c: Context, start: State, s: State, budget: nat, i: nat)
    requires Legal(c, s) && Bracketed(c, s) && OrdersOk(c, start, s) && Q64 <= c.floor * c.floor && i < |c.ticks|
    requires Run(c, s, budget).Ok?
    ensures |Run(c, s, budget).value.orders| == |c.ticks| && Filled(c, start, Run(c, s, budget).value, i)
    decreases budget
  {
    hide Iterate, Legal, Bracketed, OrdersOk, Filled;
    FitsLegal(c, s);
    FitsValid(c, s);
    Returns(c, s);
    if budget == 0 || Done(c, s) {
      SameCount(c, start, s);
      BracketedFilled(c, start, s, i);
      ClmmMonotone.RunEnds(c, s, budget);
    } else {
      match Iterate(c, s)
      case Continue(next) =>
        IterateFillsRightly(c, start, s);
        StillLegal(c, s);
        RunFills(c, start, next, budget - 1, i);
      case Break(last) => BreakFilled(c, start, s, i);
      case _ =>
    }
  }

  lemma SameCount(c: Context, start: State, s: State)
    requires OrdersOk(c, start, s)
    ensures |s.orders| == |start.orders| == |c.ticks|
  {
  }

  /** The orders after a successful quote of a consistent pool, in every fee mode, on the request's own ticks and
      the reported price: those that lay ahead and were passed are cleared, those that were not ahead or not
      reached offer what they offered, and one is left in part only when the whole input is consumed. */
  lemma QuoteFills(q: Request, i: nat)
    requires q.ValidPool() && q.Valid() && Consistent(q.pool.tickCurrent, q.pool.sqrtPrice) && Quote(q).Ok?
    requires i < |q.ticks|
    ensures q.ContextOf().Valid() && Run(q.ContextOf(), q.StartOf(), BUDGET).Ok?
    ensures var r, left := Quote(q).value, Run(q.ContextOf(), q.StartOf(), BUDGET).value.orders;
      && |left| == |q.ticks|
      && var t, offered := q.ticks[i].tick, q.ticks[i].orders + q.ticks[i].partialOrders;
      && (!IsAhead(q.down, q.pool.tickCurrent, t) ==> left[i] == offered)
      && (IsAhead(q.down, q.pool.tickCurrent, t)
          && (if q.down then r.sqrtPrice < ClmmPrice.PriceAt(t) else ClmmPrice.PriceAt(t) < r.sqrtPrice) ==>
            left[i] == 0)
      && ((if q.down then ClmmPrice.PriceAt(t) < r.sqrtPrice else r.sqrtPrice < ClmmPrice.PriceAt(t)) ==>
            left[i] == offered)
      && (left[i] == 0 || left[i] == offered || r.consumed == q.amount)
  {
    hide Run, IsPriceMap, ClmmPrice.PriceAt, Request.ValidTick;
    QuoteRuns(q);
    StartLegal(q);
    var c, s := q.ContextOf(), q.StartOf();
    RunFills(c, s, s, BUDGET, i);
  }
}
