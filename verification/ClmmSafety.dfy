/** What every CLMM run keeps, in every fee mode, and what it reports. */
module ClmmSafety {
  import opened Arith
  import opened Outcomes
  import opened TickMap
  import opened ClmmStep
  import opened ClmmOrder
  import opened Traversal
  import opened ClmmSwap

  predicate Bracketed(c: Context, s: State) { Brackets(c.price, s.tick, s.current) }

  /** A legal state of a run. */
  predicate Legal(c: Context, s: State) {
    && c.Valid() && |s.orders| == |c.ticks|
    && c.floor <= c.limit <= c.ceiling && c.floor <= s.current <= c.ceiling
    && (if c.down then c.limit <= s.current else s.current <= c.limit)
    && s.liquidity <= U128 && s.remaining <= U64 && s.output <= U64
  }

  /** `s` comes after `start`: prices and ticks moved in the swap direction only, the input and
      the orders only shrank, and the output only grew. */
  predicate Follows(c: Context, start: State, s: State) {
    && |s.orders| == |start.orders|
    && s.remaining <= start.remaining && start.output <= s.output
    && (if c.down then s.current <= start.current && s.tick <= start.tick
        else start.current <= s.current && start.tick <= s.tick)
    && forall i | 0 <= i < |s.orders| :: s.orders[i] <= start.orders[i]
  }

  /** The liquidity is the starting one plus the signed sum over exactly the ticks crossed. */
  predicate LiquidityOf(c: Context, start: State, s: State) {
    s.liquidity == start.liquidity + SumNet(c.Nodes(), c.down, start.tick, s.tick)
  }

  lemma OutputFeeWithin(gross: nat, fee: nat, inputFee: bool)
    requires fee < MILLION
    ensures OutputFee(gross, fee, inputFee) <= gross
  {
    FeeWithin(gross, fee);
  }

  lemma BoundBeforeTarget(c: Context, s: State, target: nat)
    requires c.Valid()
    ensures if c.down then target <= Bound(c, s, target) else Bound(c, s, target) <= target
  {
  }

  /** A successful step moves the price towards the bound and never beyond it. */
  lemma MoveSafe(c: Context, s: State, bound: nat, fee: nat)
    requires Legal(c, s) && fee < MILLION
    requires Move(c, s, bound, fee).Ok?
    ensures var m := Move(c, s, bound, fee).value;
      && m == s.(current := m.current, remaining := m.remaining, output := m.output)
      && (if c.down then bound <= m.current <= s.current else s.current <= m.current <= bound)
      && m.remaining <= s.remaining && s.output <= m.output <= U64
  {
    if s.current != bound {
      var rate := if c.inputFee then fee else 0;
      StepEnvelope(s.current, bound, s.liquidity, s.remaining, rate, c.down);
      hide SwapStep;
      var step := SwapStep(s.current, bound, s.liquidity, s.remaining, rate, c.down).value;
      OutputFeeWithin(step.amountOut, fee, c.inputFee);
    }
  }

  lemma OrdersSafe(c: Context, s: State, i: nat, fee: nat)
    requires Legal(c, s) && i < |c.ticks| && fee < MILLION
    requires TakeOrders(c, s, i, fee).Ok?
    ensures var t := TakeOrders(c, s, i, fee).value;
      && t == s.(remaining := t.remaining, orders := t.orders, output := t.output)
      && t.remaining <= s.remaining && s.output <= t.output <= U64
      && |t.orders| == |s.orders| && t.orders[i] <= s.orders[i]
      && t.orders == s.orders[i := t.orders[i]]
  {
    if s.orders[i] != 0 && s.remaining != 0 {
      var fill := FillOrder(s.remaining, s.orders[i], OrderPrice(s.current, c.down), fee, c.inputFee, c.down);
      hide FillOrder;
      OutputFeeWithin(fill.value.gross, fee, c.inputFee);
    }
  }

  /** Everything ahead of a live nearest tick that carries liquidity is at or beyond it. */
  lemma NothingBetween(c: Context, s: State, j: nat)
    requires c.Valid() && |s.orders| == |c.ticks| && j < |c.ticks|
    requires c.ticks[j].liquidityGross > 0 && IsAhead(c.down, s.tick, c.ticks[j].tick)
    ensures var index := Nearest(c, s, |c.ticks|);
      index.Some? && (if c.down then c.ticks[j].tick <= NextTick(c, index) else NextTick(c, index) <= c.ticks[j].tick)
      && (c.ticks[j].tick == NextTick(c, index) ==> j == index.value)
  {
    assert Live(c, s, j);
  }

  lemma CrossLiquidity(c: Context, start: State, s: State, t: State, i: nat)
    requires Legal(c, s) && |t.orders| == |c.ticks| && Nearest(c, s, |c.ticks|) == Some(i)
    requires t.tick == s.tick && t.liquidity == s.liquidity
    requires if c.down then s.tick <= start.tick else start.tick <= s.tick
    requires LiquidityOf(c, start, s) && CrossTick(c, t, i).Ok?
    ensures LiquidityOf(c, start, CrossTick(c, t, i).value)
  {
    var next := CrossTick(c, t, i).value;
    var nodes := c.Nodes();
    forall j | 0 <= j < |nodes| && (j != i || t.orders[i] != 0)
      ensures nodes[j].net == 0
           || (Passed(c.down, start.tick, s.tick, nodes[j].tick) <==>
               Passed(c.down, start.tick, next.tick, nodes[j].tick))
    {
      if c.ticks[j].liquidityGross > 0 && IsAhead(c.down, s.tick, c.ticks[j].tick) {
        NothingBetween(c, s, j);
      }
    }
    if t.orders[i] == 0 {
      SumNetCross(nodes, c.down, start.tick, s.tick, next.tick, i);
    } else {
      SumNetUnmoved(nodes, c.down, start.tick, s.tick, next.tick);
    }
  }

  lemma MoveLiquidity(c: Context, start: State, s: State, t: State, p: nat)
    requires Legal(c, s) && Bracketed(c, s) && c.floor <= p < c.ceiling
    requires if c.down then s.tick <= start.tick else start.tick <= s.tick
    requires var nextPrice := c.price(NextTick(c, Nearest(c, s, |c.ticks|)));
      if c.down then nextPrice < p < s.current else s.current < p < nextPrice
    requires LiquidityOf(c, start, s) && t.liquidity == s.liquidity && t.tick == TickAt(c.price, p)
    ensures LiquidityOf(c, start, t)
  {
    var nodes := c.Nodes();
    TickBetween(c.price, c.floor, c.ceiling, c.down, s.tick, s.current, NextTick(c, Nearest(c, s, |c.ticks|)), p);
    forall j | 0 <= j < |nodes|
      ensures nodes[j].net == 0
           || (Passed(c.down, start.tick, s.tick, nodes[j].tick) <==> Passed(c.down, start.tick, t.tick, nodes[j].tick))
    {
      if c.ticks[j].liquidityGross > 0 && IsAhead(c.down, s.tick, c.ticks[j].tick) {
        NothingBetween(c, s, j);
      }
    }
    SumNetUnmoved(nodes, c.down, start.tick, s.tick, t.tick);
  }

  /** The state between the price movement and the bookkeeping at the price reached. */
  lemma MovedState(c: Context, s: State)
    requires Legal(c, s) && !Done(c, s)
    requires var nextPrice := c.price(NextTick(c, Nearest(c, s, |c.ticks|)));
      Move(c, s, Bound(c, s, Target(c, nextPrice)), FeeAt(c, s.group)).Ok?
    ensures var nextPrice := c.price(NextTick(c, Nearest(c, s, |c.ticks|)));
      var m := Move(c, s, Bound(c, s, Target(c, nextPrice)), FeeAt(c, s.group)).value;
      && Legal(c, m) && m == s.(current := m.current, remaining := m.remaining, output := m.output)
      && m.remaining <= s.remaining && s.output <= m.output
      && (if c.down then nextPrice <= m.current <= s.current else s.current <= m.current <= nextPrice)
  {
    var nextPrice := c.price(NextTick(c, Nearest(c, s, |c.ticks|)));
    var target := Target(c, nextPrice);
    BoundBeforeTarget(c, s, target);
    MoveSafe(c, s, Bound(c, s, target), FeeAt(c, s.group));
  }

  lemma ArrivalSafe(c: Context, start: State, s: State, m: State, i: nat, fee: nat)
    requires Legal(c, s) && Legal(c, m) && fee < MILLION && Nearest(c, s, |c.ticks|) == Some(i)
    requires m == s.(current := c.price(c.ticks[i].tick), remaining := m.remaining, output := m.output)
    requires Follows(c, start, m) && LiquidityOf(c, start, s)
    requires TakeOrders(c, m, i, fee).Ok? && CrossTick(c, TakeOrders(c, m, i, fee).value, i).Ok?
    ensures var x := CrossTick(c, TakeOrders(c, m, i, fee).value, i).value;
      Legal(c, x) && Bracketed(c, x) && Follows(c, start, x) && LiquidityOf(c, start, x)
  {
    OrdersSafe(c, m, i, fee);
    hide TakeOrders;
    var t := TakeOrders(c, m, i, fee).value;
    CrossLiquidity(c, start, s, t, i);
    var x := CrossTick(c, t, i).value;
    var at := c.ticks[i].tick;
    if MIN_TICK < at { Increasing(c.price, c.floor, c.ceiling, at - 1, at); }
    if at < MAX_TICK { Increasing(c.price, c.floor, c.ceiling, at, at + 1); }
  }

  /** One iteration, in any fee mode, keeps everything a run promises. */
  lemma IterateSafe(c: Context, start: State, s: State)
    requires Legal(c, s) && Bracketed(c, s) && Follows(c, start, s) && LiquidityOf(c, start, s)
    requires Iterate(c, s).Continue?
    ensures var x := Iterate(c, s).next;
      Legal(c, x) && Bracketed(c, x) && Follows(c, start, x) && LiquidityOf(c, start, x)
  {
    hide Move, TakeOrders, CrossTick, Bound, Skips, FeeAt, Nearest, SumNet, NextGroup, Target;
    var index := Nearest(c, s, |c.ticks|);
    var nextPrice := c.price(NextTick(c, index));
    var fee := FeeAt(c, s.group);
    MovedState(c, s);
    var m := Move(c, s, Bound(c, s, Target(c, nextPrice)), fee).value;
    if m.current == nextPrice {
      ArrivalSafe(c, start, s, m, index.value, fee);
    } else if m.current != s.current {
      var x := Iterate(c, s).next;
      TickBetween(c.price, c.floor, c.ceiling, c.down, s.tick, s.current, NextTick(c, index), m.current);
      MoveLiquidity(c, start, s, x, m.current);
    }
  }

  /** Stopping at an outermost price without a tick there: the swap is exactly at its limit. */
  lemma BreakSafe(c: Context, start: State, s: State)
    requires Legal(c, s) && Follows(c, start, s) && LiquidityOf(c, start, s)
    requires Iterate(c, s).Break?
    ensures var x := Iterate(c, s).last;
      Legal(c, x) && Follows(c, start, x) && LiquidityOf(c, start, x) && x.current == c.limit
      && x.tick == s.tick && x.current == if c.down then c.floor else c.ceiling
  {
    MovedState(c, s);
  }

  lemma ReturnDone(c: Context, s: State)
    requires c.Valid() && |s.orders| == |c.ticks|
    ensures Iterate(c, s).Return? ==> Iterate(c, s).last == s && Done(c, s)
    ensures !Iterate(c, s).Return? ==> !Done(c, s)
  {
    hide Move, TakeOrders, CrossTick, Bound, Nearest;
  }

  /** Every successful run, in every fee mode: the price moves only in the swap direction and
      never passes the limit, the consumed input fits the given one, orders are never overdrawn,
      the final liquidity is the initial one plus the signed sum over exactly the crossed ticks,
      and the run ends with no input left or at the limit.  The final tick brackets the final
      price, unless the run ended on an outermost price that no tick marks. */
  lemma {:induction false} RunSafe(c: Context, start: State, s: State, budget: nat)
    requires Legal(c, s) && Bracketed(c, s) && Follows(c, start, s) && LiquidityOf(c, start, s)
    requires Run(c, s, budget).Ok?
    ensures var x := Run(c, s, budget).value;
      && Legal(c, x) && Follows(c, start, x) && LiquidityOf(c, start, x) && Done(c, x)
      && (Bracketed(c, x) || x.current == if c.down then c.floor else c.ceiling)
    decreases budget
  {
    hide Iterate, Bracketed, Follows, LiquidityOf, Context.Valid;
    if budget == 0 {
    } else {
      ReturnDone(c, s);
      match Iterate(c, s)
      case Return(_) =>
      case Break(_) => BreakSafe(c, start, s);
      case Fail(_) =>
      case Continue(next) =>
        IterateSafe(c, start, s);
        RunSafe(c, start, next, budget - 1);
    }
  }

  /** What holds on any pool, even one whose tick does not fit its price: the price moved in the
      swap direction only, the input and the orders only shrank, and the output only grew. */
  predicate Directed(c: Context, start: State, s: State) {
    && |s.orders| == |start.orders|
    && s.remaining <= start.remaining && start.output <= s.output
    && (if c.down then s.current <= start.current else start.current <= s.current)
    && forall i | 0 <= i < |s.orders| :: s.orders[i] <= start.orders[i]
  }

  lemma IterateDirected(c: Context, start: State, s: State)
    requires Legal(c, s) && Directed(c, start, s)
    ensures Iterate(c, s).Continue? ==> Legal(c, Iterate(c, s).next) && Directed(c, start, Iterate(c, s).next)
    ensures Iterate(c, s).Break? ==> Legal(c, Iterate(c, s).last) && Directed(c, start, Iterate(c, s).last)
  {
    hide Move, TakeOrders, Bound, Skips, FeeAt, Nearest, NextGroup, Target;
    if Iterate(c, s).Continue? || Iterate(c, s).Break? {
      MovedState(c, s);
      var index := Nearest(c, s, |c.ticks|);
      var fee := FeeAt(c, s.group);
      var m := Move(c, s, Bound(c, s, Target(c, c.price(NextTick(c, index)))), fee).value;
      if m.current == c.price(NextTick(c, index)) && index.Some? { OrdersSafe(c, m, index.value, fee); }
    }
  }

  /** Every successful run from any legal state, in every fee mode. */
  lemma {:induction false} RunDirected(c: Context, start: State, s: State, budget: nat)
    requires Legal(c, s) && Directed(c, start, s) && Run(c, s, budget).Ok?
    ensures var x := Run(c, s, budget).value; Legal(c, x) && Directed(c, start, x) && Done(c, x)
    decreases budget
  {
    hide Iterate, Directed, Context.Valid;
    if budget == 0 {
    } else {
      ReturnDone(c, s);
      IterateDirected(c, start, s);
      match Iterate(c, s)
      case Continue(next) => RunDirected(c, start, next, budget - 1);
      case _ =>
    }
  }
}
