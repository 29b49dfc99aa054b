/** With a static fee on the input, a CLMM run never hits an internal error and never fails for
    lack of iterations that its ticks account for. */
module ClmmProgress {
  import opened Arith
  import opened Outcomes
  import opened TickMap
  import opened ClmmStep
  import opened ClmmOrder
  import opened Traversal
  import opened ClmmSwap
  import opened ClmmSafety

  /** Static fee charged on the input, and prices large enough that no order price is zero. */
  predicate StaticInput(c: Context) { !c.enabled && c.inputFee && Q64 <= c.floor * c.floor }

  /** The only failures a run can meet: an amount or the liquidity leaves its width. */
  predicate WidthError(e: SwapError) {
    e == StepFailed(OutsideRange) || e == AmountOutsideRange || e == LiquidityOutsideRange
  }

  /** The next price lies on the swap's side of the current one, so no step is invalid. */
  lemma NextPriceSide(c: Context, s: State)
    requires Legal(c, s) && Bracketed(c, s)
    ensures var nextTick := NextTick(c, Nearest(c, s, |c.ticks|));
      && TickInRange(nextTick) && c.floor <= c.price(nextTick) <= c.ceiling
      && (if c.down then c.price(nextTick) <= s.current else s.current <= c.price(nextTick))
  {
    var index := Nearest(c, s, |c.ticks|);
    var nextTick := NextTick(c, index);
    WithinLimits(c.price, c.floor, c.ceiling, nextTick);
    if index.Some? {
      if c.down {
        Increasing(c.price, c.floor, c.ceiling, nextTick, s.tick);
      } else {
        Increasing(c.price, c.floor, c.ceiling, s.tick + 1, nextTick);
      }
    }
  }

  lemma MoveProgress(c: Context, s: State)
    requires Legal(c, s) && Bracketed(c, s) && StaticInput(c)
    ensures var target := Target(c, c.price(NextTick(c, Nearest(c, s, |c.ticks|))));
      var r := Move(c, s, target, c.feeRate);
      && (r.Err? ==> WidthError(r.error))
      && (r.Ok? ==> r.value.current == target || r.value.remaining == 0)
  {
    NextPriceSide(c, s);
    var target := Target(c, c.price(NextTick(c, Nearest(c, s, |c.ticks|))));
    if s.current != target {
      StepEnvelope(s.current, target, s.liquidity, s.remaining, c.feeRate, c.down);
      hide SwapStep, Stop, Delta;
    }
  }

  lemma OrderPricePositive(sqrtPrice: nat, floor: nat, down: bool)
    requires floor <= sqrtPrice && Q64 <= floor * floor
    ensures OrderPrice(sqrtPrice, down) > 0
  {
    MulMono(floor, sqrtPrice, floor);
    MulMono(floor, sqrtPrice, sqrtPrice);
    FloorIff(sqrtPrice * sqrtPrice, Q64, 1);
  }

  /** Orders on a tick reached are cleared, or the input is used up, in every fee mode. */
  lemma OrdersProgress(c: Context, s: State, i: nat, fee: nat)
    requires Legal(c, s) && Q64 <= c.floor * c.floor && i < |c.ticks| && fee < MILLION
    ensures var r := TakeOrders(c, s, i, fee);
      && (r.Err? ==> r.error == AmountOutsideRange)
      && (r.Ok? ==> |r.value.orders| == |c.ticks| && (r.value.orders[i] == 0 || r.value.remaining == 0))
  {
    if s.orders[i] != 0 && s.remaining != 0 {
      var price := OrderPrice(s.current, c.down);
      OrderPricePositive(s.current, c.floor, c.down);
      FillEnvelope(s.remaining, s.orders[i], price, fee, c.inputFee, c.down);
      hide FillOrder, OrderPrice;
    }
  }

  /** In every fee mode an order that is reached either fills or leaves a width. */
  lemma IterateFills(c: Context, s: State)
    requires Legal(c, s) && Q64 <= c.floor * c.floor
    ensures Iterate(c, s).Fail? ==> !Iterate(c, s).error.OrderFailed?
  {
    hide TakeOrders, Bound, Skips, FeeAt, Nearest, NextGroup, Target;
    if Iterate(c, s).Fail? {
      var index := Nearest(c, s, |c.ticks|);
      var fee := FeeAt(c, s.group);
      var bound := Bound(c, s, Target(c, c.price(NextTick(c, index))));
      var moved := Move(c, s, bound, fee);
      if moved.Ok? && index.Some? {
        MovedState(c, s);
        OrdersProgress(c, moved.value, index.value, fee);
      }
      hide Move;
    }
  }

  /** No run, in any fee mode and from any legal state, fails on an order: the order checks are dead. */
  lemma {:induction false} RunFillsOrders(c: Context, s: State, budget: nat)
    requires Legal(c, s) && Q64 <= c.floor * c.floor
    ensures Run(c, s, budget).Err? ==> !Run(c, s, budget).error.OrderFailed?
    decreases budget
  {
    hide Iterate, Directed, Context.Valid;
    if budget == 0 {
    } else {
      IterateFills(c, s);
      Standing(c, s);
      IterateDirected(c, s, s);
      match Iterate(c, s)
      case Continue(next) => RunFillsOrders(c, next, budget - 1);
      case _ =>
    }
  }

  lemma Standing(c: Context, s: State)
    ensures Directed(c, s, s)
  {
  }

  lemma CrossProgress(c: Context, s: State, t: State, i: nat)
    requires Legal(c, s) && |t.orders| == |c.ticks| && Nearest(c, s, |c.ticks|) == Some(i)
    requires t.orders[i] == 0 && CrossTick(c, t, i).Ok?
    ensures Ahead(c.Nodes(), c.down, CrossTick(c, t, i).value.tick) < Ahead(c.Nodes(), c.down, s.tick)
  {
    var x := CrossTick(c, t, i).value;
    assert IsAhead(c.down, s.tick, c.Nodes()[i].tick) && !IsAhead(c.down, x.tick, c.Nodes()[i].tick);
    AheadShrinks(c.Nodes(), c.down, s.tick, x.tick);
  }

  /** One iteration either ends the run or leaves one tick fewer ahead. */
  lemma IterateProgress(c: Context, s: State)
    requires Legal(c, s) && Bracketed(c, s) && StaticInput(c) && !Done(c, s)
    ensures var r := Iterate(c, s);
      && !r.Return?
      && (r.Fail? ==> WidthError(r.error))
      && (r.Break? ==> Done(c, r.last))
      && (r.Continue? ==> Done(c, r.next) || Ahead(c.Nodes(), c.down, r.next.tick) < Ahead(c.Nodes(), c.down, s.tick))
  {
    hide Move, TakeOrders, Nearest, Ahead;
    var index := Nearest(c, s, |c.ticks|);
    var target := Target(c, c.price(NextTick(c, index)));
    MoveProgress(c, s);
    NextPriceSide(c, s);
    var moved := Move(c, s, target, c.feeRate);
    if moved.Ok? {
      MovedState(c, s);
      if moved.value.current == c.price(NextTick(c, index)) && index.Some? {
        OrdersProgress(c, moved.value, index.value, c.feeRate);
        var filled := TakeOrders(c, moved.value, index.value, c.feeRate);
        if filled.Ok? && filled.value.orders[index.value] == 0 && CrossTick(c, filled.value, index.value).Ok? {
          CrossProgress(c, s, filled.value, index.value);
        }
      }
    }
  }

  /** A run whose budget exceeds the ticks ahead by one can only fail on a width.  In
      particular no step is ever invalid and the budget is never the reason. */
  lemma {:induction false} RunCompletes(c: Context, s: State, budget: nat)
    requires Legal(c, s) && Bracketed(c, s) && StaticInput(c)
    requires Done(c, s) || Ahead(c.Nodes(), c.down, s.tick) < budget
    ensures Run(c, s, budget).Err? ==> WidthError(Run(c, s, budget).error)
    decreases budget
  {
    hide Iterate, Bracketed, Context.Valid, Ahead, Follows, LiquidityOf, StaticInput;
    if budget == 0 {
    } else {
      ReturnDone(c, s);
      if !Done(c, s) {
        IterateProgress(c, s);
        match Iterate(c, s)
        case Continue(next) =>
          StillLegal(c, s);
          RunCompletes(c, next, budget - 1);
        case _ =>
      }
    }
  }

  lemma StillLegal(c: Context, s: State)
    requires Legal(c, s) && Bracketed(c, s) && Iterate(c, s).Continue?
    ensures Legal(c, Iterate(c, s).next) && Bracketed(c, Iterate(c, s).next)
  {
    hide Iterate;
    SumNetStart(c.Nodes(), c.down, s.tick);
    IterateSafe(c, s, s);
  }

  /** Beyond that, the size of the budget does not matter at all. */
  lemma {:induction false} BudgetIrrelevant(c: Context, s: State, low: nat, high: nat)
    requires Legal(c, s) && Bracketed(c, s) && StaticInput(c) && low <= high
    requires Done(c, s) || Ahead(c.Nodes(), c.down, s.tick) < low
    ensures Run(c, s, low) == Run(c, s, high)
    decreases low
  {
    hide Iterate, Bracketed, Context.Valid, Ahead, Follows, LiquidityOf, StaticInput;
    if high == 0 {
    } else {
      ReturnDone(c, s);
      if !Done(c, s) {
        IterateProgress(c, s);
        match Iterate(c, s)
        case Continue(next) =>
          StillLegal(c, s);
          BudgetIrrelevant(c, next, low - 1, high - 1);
        case _ =>
      }
    }
  }

  /** All ticks of the range in turn: those above zero upwards, then the others downwards. */
  function FreeTickAt(i: nat): int { if i < MAX_TICK then i + 1 else MAX_TICK - i }

  /** A pool without liquidity, whose ticks add none, passes one tick per iteration for free. */
  predicate FreePool(c: Context, s: State) {
    && Legal(c, s) && StaticInput(c) && !c.down && s.liquidity == 0 && s.remaining > 0
    && c.limit == c.ceiling && 0 <= s.tick && s.tick + 1 < MAX_TICK && s.current == c.price(s.tick)
    && s.tick <= |c.ticks|
    && forall i | 0 <= i < |c.ticks| :: c.ticks[i] == ClmmTick(FreeTickAt(i), 0, 1, 0, 0) && s.orders[i] == 0
  }

  lemma FreeIteration(c: Context, s: State)
    requires FreePool(c, s) && s.tick < |c.ticks|
    ensures Iterate(c, s) == Continue(s.(current := c.price(s.tick + 1), tick := s.tick + 1))
    ensures !Done(c, s)
  {
    assert Live(c, s, s.tick);
    var index := Nearest(c, s, |c.ticks|);
    assert index == Some(s.tick);
    var p := c.price(s.tick + 1);
    assert Rises(c.price, s.tick);
    Increasing(c.price, c.floor, c.ceiling, s.tick + 1, MAX_TICK);
    FreeMove(s.current, p, false);
    FreeMoveOut(s.current, p);
    hide Nearest;
  }

  lemma FreeMoveOut(current: nat, target: nat)
    requires current > 0 && target > 0
    ensures Delta(current, target, 0, true, false) == 0
    ensures forall fee: nat | fee < MILLION :: Ceil(0 * fee, MILLION - fee) == 0
  {
    forall fee: nat | fee < MILLION
      ensures Ceil(0 * fee, MILLION - fee) == 0
    {
      CeilIff(0, MILLION - fee, 0);
    }
    FloorIff(0, Max(current, target) * Min(current, target), 1);
  }

  lemma FreePoolNext(c: Context, s: State)
    requires FreePool(c, s) && s.tick < |c.ticks| && s.tick + 2 < MAX_TICK
    ensures FreePool(c, s.(current := c.price(s.tick + 1), tick := s.tick + 1))
  {
    Increasing(c.price, c.floor, c.ceiling, s.tick, s.tick + 1);
    Increasing(c.price, c.floor, c.ceiling, s.tick + 1, MAX_TICK);
  }

  lemma FreeNotDone(c: Context, s: State)
    requires FreePool(c, s)
    ensures c.Valid() && |s.orders| == |c.ticks| && !Done(c, s)
  {
    Increasing(c.price, c.floor, c.ceiling, s.tick, MAX_TICK);
  }

  /** The bound is tight: with as many free ticks ahead as iterations, the budget runs out. */
  lemma {:induction false} BudgetExceeded(c: Context, s: State, budget: nat)
    requires FreePool(c, s) && s.tick + budget <= |c.ticks| && s.tick + budget + 1 < MAX_TICK
    ensures Run(c, s, budget) == Err(BudgetExhausted)
    decreases budget
  {
    hide Iterate, IsPriceMap, FreePool, Context.Valid;
    FreeNotDone(c, s);
    if budget == 0 {
    } else {
      FreeIteration(c, s);
      FreePoolNext(c, s);
      BudgetExceeded(c, s.(current := c.price(s.tick + 1), tick := s.tick + 1), budget - 1);
    }
  }

  /** Without ticks and without liquidity the price goes straight to the outermost price, and the
      standing tick is not updated. */
  lemma EmptyRun(c: Context, s: State, budget: nat)
    requires Legal(c, s) && c.ticks == [] && c.limit == (if c.down then c.floor else c.ceiling) && s.liquidity == 0
    requires !c.enabled && 0 < s.remaining && s.current != c.limit && 0 < budget
    ensures Run(c, s, budget) == Ok(s.(current := c.limit))
  {
    hide Iterate;
    EmptyIteration(c, s);
  }

  lemma EmptyIteration(c: Context, s: State)
    requires Legal(c, s) && c.ticks == [] && c.limit == (if c.down then c.floor else c.ceiling) && s.liquidity == 0
    requires !c.enabled && 0 < s.remaining && s.current != c.limit
    ensures Iterate(c, s) == Break(s.(current := c.limit))
  {
    EmptyMove(c, s);
    hide Move;
    assert Nearest(c, s, 0) == None;
  }

  lemma EmptyMove(c: Context, s: State)
    requires Legal(c, s) && s.liquidity == 0 && !c.enabled && s.current != c.limit
    ensures Move(c, s, c.limit, c.feeRate) == Ok(s.(current := c.limit))
  {
    FreeMove(s.current, c.limit, c.down);
    FreeMoveOut(s.current, c.limit);
    hide IsPriceMap;
  }
}
