/** What every Whirlpool run keeps, adaptive or not, and when a run completes. */
module WhirlpoolSafety {
  import opened Arith
  import opened Outcomes
  import opened TickMap
  import opened ClmmStep
  import opened Traversal
  import opened WhirlpoolSwap

  predicate Legal(c: Context, s: State) {
    && c.Valid() && c.floor <= s.current <= c.ceiling
    && (if c.down then c.limit <= s.current else s.current <= c.limit)
    && s.liquidity <= U128 && s.remaining <= U64 && s.output <= U64
  }

  /** Amounts so far: the input taken from `amount` carries at least the least rate charged. */
  predicate Charged(amount: nat, s: State) {
    && s.remaining <= amount
    && (s.first ==> s.remaining == amount && s.fees == 0)
    && s.minimumFee <= s.maximumFee
    && s.minimumFee * (amount - s.remaining) <= s.fees * MILLION
    && s.fees <= amount - s.remaining
  }

  predicate MovedFrom(c: Context, start: State, s: State) {
    if c.down then s.current <= start.current else start.current <= s.current
  }

  predicate Bracketed(c: Context, s: State) { Brackets(c.price, s.tick, s.current) }

  /** The liquidity is the starting one plus the signed sum over exactly the ticks crossed. */
  predicate LiquidityOf(c: Context, start: State, s: State) {
    && (if c.down then s.tick <= start.tick else start.tick <= s.tick)
    && s.liquidity == start.liquidity + SumNet(c.nodes, c.down, start.tick, s.tick)
  }

  /** The price and the standing tick stay within what the loaded arrays cover. */
  predicate WithinArrays(c: Context, s: State)
    requires c.Valid()
  {
    if c.down then c.price(c.lower) <= s.current && c.lower - 1 <= s.tick
    else s.current <= c.price(c.upper) && s.tick <= c.upper
  }

  lemma SpanBeforeTarget(c: Context, s: State, target: nat)
    requires c.Valid() && SpanOf(c, s, target).Ok?
    ensures var b := SpanOf(c, s, target).value.bound; if c.down then target <= b else b <= target
  {
  }

  lemma MoveSafe(c: Context, s: State, bound: nat, fee: nat)
    requires Legal(c, s) && fee < MILLION && Move(c, s, bound, fee).Ok?
    ensures var m := Move(c, s, bound, fee).value;
      && (if c.down then bound <= m.current <= s.current else s.current <= m.current <= bound)
      && m.remaining <= s.remaining <= U64 && m.output <= U64
      && m.tick == s.tick && m.liquidity == s.liquidity && m.group == s.group && !m.first
      && (m.current != bound ==> m.remaining == 0)
  {
    StepEnvelope(s.current, bound, s.liquidity, s.remaining, fee, c.down);
    hide SwapStep, Stop, Delta;
  }

  /** The least rate seen so far, on everything taken so far, is covered by the fees. */
  lemma MoveCharged(c: Context, amount: nat, s: State, bound: nat, fee: nat)
    requires Legal(c, s) && fee < MILLION && Move(c, s, bound, fee).Ok? && Charged(amount, s)
    ensures Charged(amount, Move(c, s, bound, fee).value)
  {
    StepEnvelope(s.current, bound, s.liquidity, s.remaining, fee, c.down);
    StepFeeFloor(s.current, bound, s.liquidity, s.remaining, fee, c.down);
    hide SwapStep, Stop, Delta;
    var step := SwapStep(s.current, bound, s.liquidity, s.remaining, fee, c.down).value;
    ChargeMore(s.minimumFee, fee, amount - s.remaining, step.amountIn + step.fee, s.fees, step.fee, s.first);
  }

  lemma ChargeMore(least: nat, fee: nat, taken: nat, more: nat, fees: nat, stepFee: nat, first: bool)
    requires least * taken <= fees * MILLION && fee * more <= stepFee * MILLION && (first ==> taken == 0)
    ensures (if first then fee else Min(least, fee)) * (taken + more) <= (fees + stepFee) * MILLION
  {
    var m := if first then fee else Min(least, fee);
    MulMono(m, fee, more);
    if !first { MulMono(m, least, taken); }
    assert m * (taken + more) == m * taken + m * more;
  }

  lemma IterateMoves(c: Context, s: State)
    requires Legal(c, s) && Iterate(c, s).Continue?
    ensures var nextTick := NextTick(c, Nearest(c.nodes, c.down, s.tick, |c.nodes|));
      var span := SpanOf(c, s, Target(c, c.price(nextTick)));
      span.Ok? && Move(c, s, span.value.bound, FeeAt(c, s.group)).Ok?
      && var m := Move(c, s, span.value.bound, FeeAt(c, s.group)).value;
      && Legal(c, m)
      && (if c.down then Max(c.price(nextTick), c.limit) <= m.current <= s.current
         else s.current <= m.current <= Min(c.price(nextTick), c.limit))
      && !Done(c, s) && !OutOfArrays(c, s)
      && var x := Iterate(c, s).next;
      && Settle(c, s.current, m, Nearest(c.nodes, c.down, s.tick, |c.nodes|), nextTick).Ok?
      && x == Settle(c, s.current, m, Nearest(c.nodes, c.down, s.tick, |c.nodes|), nextTick).value.(group := x.group)
  {
    hide Move, Settle, NextGroup, FeeAt, Nearest, SpanOf;
    var nextTick := NextTick(c, Nearest(c.nodes, c.down, s.tick, |c.nodes|));
    var target := Target(c, c.price(nextTick));
    SpanBeforeTarget(c, s, target);
    MoveSafe(c, s, SpanOf(c, s, target).value.bound, FeeAt(c, s.group));
  }

  lemma SettleFields(c: Context, before: nat, m: State, index: Option<nat>, nextTick: int)
    requires Legal(c, m) && (index.Some? ==> index.value < |c.nodes|) && Settle(c, before, m, index, nextTick).Ok?
    ensures var x := Settle(c, before, m, index, nextTick).value;
      x == m.(tick := x.tick, liquidity := x.liquidity) && Legal(c, x)
  {
  }

  /** One iteration, whatever the pool's tick: direction, limit and fee accounting. */
  lemma IterateSafe(c: Context, amount: nat, start: State, s: State)
    requires Legal(c, s) && Charged(amount, s) && MovedFrom(c, start, s) && Iterate(c, s).Continue?
    ensures var x := Iterate(c, s).next; Legal(c, x) && Charged(amount, x) && MovedFrom(c, start, x)
  {
    hide Move, Settle, NextGroup, FeeAt, Nearest, SpanOf, Iterate, IsPriceMap;
    IterateMoves(c, s);
    var index := Nearest(c.nodes, c.down, s.tick, |c.nodes|);
    var bound := SpanOf(c, s, Target(c, c.price(NextTick(c, index)))).value.bound;
    MoveCharged(c, amount, s, bound, FeeAt(c, s.group));
    SettleFields(c, s.current, Move(c, s, bound, FeeAt(c, s.group)).value, index, NextTick(c, index));
  }

  /** One iteration, whatever the pool's tick, ends inside the loaded arrays. */
  lemma IterateLoaded(c: Context, s: State)
    requires Legal(c, s) && Iterate(c, s).Continue?
    ensures WithinArrays(c, Iterate(c, s).next)
  {
    hide Move, NextGroup, FeeAt, Nearest, SpanOf, Iterate;
    IterateMoves(c, s);
    var index := Nearest(c.nodes, c.down, s.tick, |c.nodes|);
    var t := NextTick(c, index);
    var bound := SpanOf(c, s, Target(c, c.price(t))).value.bound;
    var m := Move(c, s, bound, FeeAt(c, s.group)).value;
    MoveSafe(c, s, bound, FeeAt(c, s.group));
    if c.down {
      Increasing(c.price, c.floor, c.ceiling, c.lower, t);
    } else {
      Increasing(c.price, c.floor, c.ceiling, t, c.upper);
    }
    LookedUp(c, m.current);
  }

  /** A looked-up tick lies on the same side of every tick as its price. */
  lemma LookedUp(c: Context, price: nat)
    requires c.Valid() && c.floor <= price
    ensures c.price(c.lower) <= price ==> c.lower <= TickAt(c.price, price)
    ensures price <= c.price(c.upper) ==> TickAt(c.price, price) <= c.upper
  {
    var t := TickAt(c.price, price);
    if t < c.lower { Increasing(c.price, c.floor, c.ceiling, t + 1, c.lower); }
    if c.upper < t { Increasing(c.price, c.floor, c.ceiling, c.upper, t); }
  }

  /** Every successful run, adaptive or not, and whether or not the pool's tick fits its price:
      the price moved in the swap direction only and not past the limit, the fees cover the
      least rate charged on all input consumed, and a run that moved at all ended inside the
      loaded arrays. */
  lemma {:induction false} RunSafe(c: Context, amount: nat, start: State, s: State, budget: nat)
    requires Legal(c, s) && Charged(amount, s) && MovedFrom(c, start, s) && Run(c, s, budget).Ok?
    ensures var x := Run(c, s, budget).value;
      Legal(c, x) && Charged(amount, x) && MovedFrom(c, start, x) && Done(c, x) &&
        (WithinArrays(c, x) || (x == s && Done(c, s)))
    decreases budget
  {
    hide Iterate, Charged, MovedFrom, Context.Valid, WithinArrays;
    if budget == 0 {
    } else {
      ReturnDone(c, s);
      match Iterate(c, s)
      case Continue(next) =>
        IterateSafe(c, amount, start, s);
        IterateLoaded(c, s);
        RunSafe(c, amount, start, next, budget - 1);
      case _ =>
    }
  }

  lemma ReturnDone(c: Context, s: State)
    requires c.Valid()
    ensures Iterate(c, s).Return? <==> Done(c, s)
  {
    hide Move, Settle, NextGroup, FeeAt, Nearest, SpanOf;
  }

  lemma NothingBetween(c: Context, s: State, j: nat)
    requires c.Valid() && j < |c.nodes| && IsAhead(c.down, s.tick, c.nodes[j].tick)
    ensures var index := Nearest(c.nodes, c.down, s.tick, |c.nodes|);
      index.Some? && (if c.down then c.nodes[j].tick <= NextTick(c, index) else NextTick(c, index) <= c.nodes[j].tick)
      && (c.nodes[j].tick == NextTick(c, index) ==> j == index.value)
  {
    var i := Nearest(c.nodes, c.down, s.tick, |c.nodes|).value;
    if i < j { assert c.nodes[i].tick < c.nodes[j].tick; } else if j < i { assert c.nodes[j].tick < c.nodes[i].tick; }
  }

  lemma NextTickLoaded(c: Context, s: State)
    requires Legal(c, s) && Bracketed(c, s) && !OutOfArrays(c, s)
    ensures var t := NextTick(c, Nearest(c.nodes, c.down, s.tick, |c.nodes|));
      && c.lower <= t <= c.upper && IsAhead(c.down, s.tick, t)
      && (if c.down then c.price(c.lower) <= c.price(t) <= s.current else s.current <= c.price(t) <= c.price(c.upper))
  {
    var t := NextTick(c, Nearest(c.nodes, c.down, s.tick, |c.nodes|));
    if c.down {
      Increasing(c.price, c.floor, c.ceiling, c.lower, t);
      Increasing(c.price, c.floor, c.ceiling, t, s.tick);
    } else {
      Increasing(c.price, c.floor, c.ceiling, t, c.upper);
      Increasing(c.price, c.floor, c.ceiling, s.tick + 1, t);
    }
  }

  /** Settling after a step towards the nearest tick keeps the position consistent. */
  lemma SettlePosition(c: Context, start: State, s: State, m: State)
    requires Legal(c, s) && Legal(c, m) && Bracketed(c, s) && LiquidityOf(c, start, s) && !OutOfArrays(c, s)
    requires m.tick == s.tick && m.liquidity == s.liquidity
    requires var index := Nearest(c.nodes, c.down, s.tick, |c.nodes|);
      && (if c.down then c.price(NextTick(c, index)) <= m.current <= s.current
         else s.current <= m.current <= c.price(NextTick(c, index)))
      && Settle(c, s.current, m, index, NextTick(c, index)).Ok?
    ensures var index := Nearest(c.nodes, c.down, s.tick, |c.nodes|);
      var x := Settle(c, s.current, m, index, NextTick(c, index)).value;
      && Bracketed(c, x) && LiquidityOf(c, start, x)
      && (m.current == c.price(NextTick(c, index)) && index.Some? ==>
        !IsAhead(c.down, x.tick, c.nodes[index.value].tick))
  {
    hide Nearest;
    var index := Nearest(c.nodes, c.down, s.tick, |c.nodes|);
    var t := NextTick(c, index);
    NextTickLoaded(c, s);
    var x := Settle(c, s.current, m, index, t).value;
    if m.current == c.price(t) {
      if MIN_TICK < t { Increasing(c.price, c.floor, c.ceiling, t - 1, t); }
      if t < MAX_TICK { Increasing(c.price, c.floor, c.ceiling, t, t + 1); }
    } else if m.current != s.current {
      TickBetween(c.price, c.floor, c.ceiling, c.down, s.tick, s.current, t, m.current);
    }
    SettleLiquidity(c, start, s, x.tick, m.current == c.price(t) && index.Some?);
  }

  /** Moving to a tick not beyond the next one changes the sum by that tick if it is passed. */
  lemma SettleLiquidity(c: Context, start: State, s: State, tick: int, crossed: bool)
    requires c.Valid() && (if c.down then s.tick <= start.tick else start.tick <= s.tick)
    requires var index := Nearest(c.nodes, c.down, s.tick, |c.nodes|);
      && (if c.down then NextTick(c, index) - 1 <= tick <= s.tick else s.tick <= tick <= NextTick(c, index))
      && (crossed <==> index.Some? && !IsAhead(c.down, tick, NextTick(c, index)))
    ensures var index := Nearest(c.nodes, c.down, s.tick, |c.nodes|);
      SumNet(c.nodes, c.down, start.tick, tick) == SumNet(c.nodes, c.down, start.tick, s.tick)
        + if !crossed then 0 else if c.down then -c.nodes[index.value].net else c.nodes[index.value].net
  {
    var index := Nearest(c.nodes, c.down, s.tick, |c.nodes|);
    forall j | 0 <= j < |c.nodes| && (!crossed || j != index.value)
      ensures Passed(c.down, start.tick, s.tick, c.nodes[j].tick) <==> Passed(c.down, start.tick, tick, c.nodes[j].tick)
    {
      if IsAhead(c.down, s.tick, c.nodes[j].tick) { NothingBetween(c, s, j); }
    }
    if crossed {
      SumNetCross(c.nodes, c.down, start.tick, s.tick, tick, index.value);
    } else {
      SumNetUnmoved(c.nodes, c.down, start.tick, s.tick, tick);
    }
  }

  lemma IteratePosition(c: Context, start: State, s: State)
    requires Legal(c, s) && Bracketed(c, s) && LiquidityOf(c, start, s) && Iterate(c, s).Continue?
    ensures var x := Iterate(c, s).next;
      Legal(c, x) && Bracketed(c, x) && LiquidityOf(c, start, x)
  {
    hide Move, Settle, NextGroup, FeeAt, Nearest, SpanOf, Iterate, IsPriceMap, SumNet;
    IterateMoves(c, s);
    var index := Nearest(c.nodes, c.down, s.tick, |c.nodes|);
    var bound := SpanOf(c, s, Target(c, c.price(NextTick(c, index)))).value.bound;
    var m := Move(c, s, bound, FeeAt(c, s.group)).value;
    MoveSafe(c, s, bound, FeeAt(c, s.group));
    SettleFields(c, s.current, m, index, NextTick(c, index));
    SettlePosition(c, start, s, m);
  }

  /** On a consistent pool a successful run stays consistent, and its liquidity is accounted for by
      exactly the ticks crossed. */
  lemma {:induction false} RunPosition(c: Context, start: State, s: State, budget: nat)
    requires Legal(c, s) && Bracketed(c, s) && LiquidityOf(c, start, s) && Run(c, s, budget).Ok?
    ensures var x := Run(c, s, budget).value;
      Bracketed(c, x) && LiquidityOf(c, start, x)
    decreases budget
  {
    hide Iterate, Bracketed, LiquidityOf, IsPriceMap;
    if budget == 0 {
    } else {
      ReturnDone(c, s);
      match Iterate(c, s)
      case Continue(next) =>
        IteratePosition(c, start, s);
        RunPosition(c, start, next, budget - 1);
      case _ =>
    }
  }

  /** The only failures of a run with a static fee on a consistent pool. */
  predicate ExpectedError(e: SwapError) {
    e == StepFailed(OutsideRange) || e == AmountOutsideRange || e == LiquidityOutsideRange || e == MoreArraysRequired
  }

  lemma StepProgress(c: Context, s: State)
    requires Legal(c, s) && Bracketed(c, s) && !OutOfArrays(c, s)
    ensures var target := Target(c, c.price(NextTick(c, Nearest(c.nodes, c.down, s.tick, |c.nodes|))));
      var r := Move(c, s, target, c.feeRate);
      && (r.Err? ==> ExpectedError(r.error))
      && (r.Ok? ==> r.value.current == target || r.value.remaining == 0)
  {
    NextTickLoaded(c, s);
    var t := NextTick(c, Nearest(c.nodes, c.down, s.tick, |c.nodes|));
    hide Nearest;
    WithinLimits(c.price, c.floor, c.ceiling, t);
    StepEnvelope(s.current, Target(c, c.price(t)), s.liquidity, s.remaining, c.feeRate, c.down);
    hide SwapStep, Stop, Delta;
  }

  /** With a static fee, an iteration ends the run, leaves the arrays, or passes a tick. */
  lemma IterateProgress(c: Context, s: State)
    requires Legal(c, s) && Bracketed(c, s) && c.adaptive.None? && !Done(c, s)
    ensures Iterate(c, s).Fail? ==> ExpectedError(Iterate(c, s).error)
    ensures Iterate(c, s).Continue? ==>
      var x := Iterate(c, s).next;
      Done(c, x) || OutOfArrays(c, x) || Ahead(c.nodes, c.down, x.tick) < Ahead(c.nodes, c.down, s.tick)
  {
    hide Move, Nearest, Ahead, SumNet;
    if !OutOfArrays(c, s) {
      var index := Nearest(c.nodes, c.down, s.tick, |c.nodes|);
      var nextTick := NextTick(c, index);
      var target := Target(c, c.price(nextTick));
      StepProgress(c, s);
      NextTickLoaded(c, s);
      var moved := Move(c, s, target, c.feeRate);
      if moved.Ok? {
        MoveSafe(c, s, target, c.feeRate);
        if moved.value.current == c.price(nextTick) && index.Some? {
          AheadShrinks(c.nodes, c.down, s.tick, if c.down then nextTick - 1 else nextTick);
          assert IsAhead(c.down, s.tick, c.nodes[index.value].tick);
        }
      }
    }
  }

  /** A static-fee run with two iterations more than ticks ahead never runs out of budget and
      never meets an invalid step, price or tick. */
  lemma {:induction false} RunCompletes(c: Context, s: State, budget: nat)
    requires Legal(c, s) && Bracketed(c, s) && c.adaptive.None?
    requires 1 <= budget && (Done(c, s) || OutOfArrays(c, s) || Ahead(c.nodes, c.down, s.tick) + 2 <= budget)
    ensures Run(c, s, budget).Err? ==> ExpectedError(Run(c, s, budget).error)
    decreases budget
  {
    hide Iterate, Bracketed, IsPriceMap, Ahead, LiquidityOf;
    ReturnDone(c, s);
    if !Done(c, s) {
      IterateProgress(c, s);
      match Iterate(c, s)
      case Continue(next) =>
        StillLegal(c, s);
        RunCompletes(c, next, budget - 1);
      case _ =>
    }
  }

  lemma StillLegal(c: Context, s: State)
    requires Legal(c, s) && Bracketed(c, s) && Iterate(c, s).Continue?
    ensures Legal(c, Iterate(c, s).next) && Bracketed(c, Iterate(c, s).next) && !OutOfArrays(c, s)
  {
    hide Iterate;
    SumNetStart(c.nodes, c.down, s.tick);
    IterateMoves(c, s);
    IteratePosition(c, s, s);
  }
}
