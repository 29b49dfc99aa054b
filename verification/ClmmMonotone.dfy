/** Two inputs to the same CLMM pool: the larger one never gets less, in any fee mode.  With fees on
    the output a step that stops short may leave a rest that is too small to move the price; such a
    rest is never spent, so the quote fails, and only quotes without one remain to compare. */
module ClmmMonotone {
  import opened Arith
  import opened Outcomes
  import opened TickMap
  import opened ClmmStep
  import opened ClmmOrder
  import opened ClmmSwap
  import opened ClmmSafety
  import opened ClmmProgress
  import opened ClmmEngine
  import opened StepMonotone
  import ClmmPrice

  /** The same position, orders and amounts so far, with at least as much input left. */
  predicate Paired(s: State, t: State) { t == s.(remaining := t.remaining) && s.remaining <= t.remaining }

  /** The smaller input is used up, with no more output than the larger one has. */
  predicate Outrun(s: State, t: State) { s.remaining == 0 && s.output <= t.output }

  predicate Fits(c: Context, s: State) { c.Valid() && |s.orders| == |c.ticks| }

  /** A rest too small to move the price, where fees are taken from the output. */
  predicate Dust(c: Context, s: State) {
    !c.inputFee && 0 < s.remaining && Pinned(s.current, s.liquidity, s.remaining, c.down)
  }

  /** What is left of an input for an order after its reserved fee. */
  lemma AvailableMonotone(a: nat, b: nat, fee: nat, inputFee: bool)
    requires fee < MILLION && a <= b
    ensures a - Reserve(a, fee, inputFee) <= b - Reserve(b, fee, inputFee)
  {
    AfterCeiledFee(a, b, fee);
  }

  lemma AfterCeiledFee(a: nat, b: nat, fee: nat)
    requires fee < MILLION && a <= b
    ensures a - Ceil(a * fee, MILLION) <= b - Ceil(b * fee, MILLION)
  {
    var reserve := Ceil(a * fee, MILLION);
    CeilIff(a * fee, MILLION, reserve);
    Distribute(fee, a, b - a);
    MulMono(fee, MILLION, b - a);
    Distribute(MILLION, reserve, b - a);
    CeilIff(b * fee, MILLION, reserve + (b - a));
  }

  lemma MatchedMonotone(a: nat, b: nat, price: nat, down: bool)
    requires price > 0 && a <= b
    ensures Matched(a, price, down) <= Matched(b, price, down)
  {
    if down {
      MulMono(a, b, price);
      FloorMono(a * price, b * price, Q64);
    } else {
      FloorMono(a * Q64, b * Q64, price);
    }
  }

  /** The same order offered two inputs: both take it whole for the same cost, or the smaller one
      is used up and the larger one gets at least as much. */
  lemma FillPair(a: nat, b: nat, order: nat, price: nat, fee: nat, inputFee: bool, down: bool)
    requires fee < MILLION && a <= b
    requires FillOrder(a, order, price, fee, inputFee, down).Ok?
    requires FillOrder(b, order, price, fee, inputFee, down).Ok?
    ensures var f := FillOrder(a, order, price, fee, inputFee, down).value;
      var g := FillOrder(b, order, price, fee, inputFee, down).value;
      f == g || (f.consumed + f.fee == a && f.gross <= g.gross)
  {
    AvailableMonotone(a, b, fee, inputFee);
    MatchedMonotone(a - Reserve(a, fee, inputFee), b - Reserve(b, fee, inputFee), price, down);
    hide Matched, OrderCost, Reserve;
  }

  /** What is credited of an output after a fee on it. */
  lemma CreditMonotone(a: nat, b: nat, fee: nat, inputFee: bool)
    requires fee < MILLION && a <= b
    ensures a - OutputFee(a, fee, inputFee) <= b - OutputFee(b, fee, inputFee)
  {
    AfterCeiledFee(a, b, fee);
  }

  /** Both reach the bound and stay paired, or the smaller input gets no more and is used up or left
      as dust short of the bound. */
  lemma MovePair(c: Context, s: State, t: State, bound: nat, fee: nat)
    requires fee < MILLION && Paired(s, t) && Move(c, s, bound, fee).Ok? && Move(c, t, bound, fee).Ok?
    ensures var u, v := Move(c, s, bound, fee).value, Move(c, t, bound, fee).value;
      Paired(u, v) || Outrun(u, v) || (Dust(c, u) && u.current != bound && s.current != bound)
  {
    hide SwapStep, OutputFee, Pinned;
    if s.current != bound {
      var rate := if c.inputFee then fee else 0;
      StepPair(s.current, bound, s.liquidity, s.remaining, t.remaining, rate, c.down);
      var r := SwapStep(s.current, bound, s.liquidity, s.remaining, rate, c.down).value;
      var r' := SwapStep(t.current, bound, t.liquidity, t.remaining, rate, c.down).value;
      CreditMonotone(r.amountOut, r'.amountOut, fee, c.inputFee);
      if r.sqrtPrice != bound && !c.inputFee {
        ShortIsPinned(s.current, bound, s.liquidity, s.remaining, c.down);
      }
    }
  }

  lemma TakePair(c: Context, s: State, t: State, i: nat, fee: nat)
    requires Fits(c, s) && i < |c.ticks| && fee < MILLION && Paired(s, t)
    requires TakeOrders(c, s, i, fee).Ok? && TakeOrders(c, t, i, fee).Ok?
    ensures var u, v := TakeOrders(c, s, i, fee).value, TakeOrders(c, t, i, fee).value; Paired(u, v) || Outrun(u, v)
  {
    hide FillOrder, OrderPrice, Context.Valid, OutputFee;
    var order := s.orders[i];
    if order != 0 && s.remaining != 0 {
      var price := OrderPrice(s.current, c.down);
      FillPair(s.remaining, t.remaining, order, price, fee, c.inputFee, c.down);
      var f := FillOrder(s.remaining, order, price, fee, c.inputFee, c.down).value;
      var g := FillOrder(t.remaining, order, price, fee, c.inputFee, c.down).value;
      if f.gross <= g.gross { CreditMonotone(f.gross, g.gross, fee, c.inputFee); }
    } else if order != 0 && t.remaining != 0 {
      var g := FillOrder(t.remaining, order, OrderPrice(t.current, c.down), fee, c.inputFee, c.down).value;
      CreditMonotone(0, g.gross, fee, c.inputFee);
      NoCredit(fee, c.inputFee);
    }
  }

  lemma NoCredit(fee: nat, inputFee: bool)
    ensures OutputFee(0, fee, inputFee) == 0
  {
    assert 0 * fee == 0;
    CeilIff(0, MILLION, 0);
  }

  lemma CrossPair(c: Context, u: State, v: State, i: nat)
    requires i < |c.ticks| == |u.orders| && |v.orders| == |c.ticks|
    requires CrossTick(c, u, i).Ok? && CrossTick(c, v, i).Ok?
    ensures var x, y := CrossTick(c, u, i).value, CrossTick(c, v, i).value;
      (Paired(u, v) ==> Paired(x, y)) && (Outrun(u, v) ==> Outrun(x, y))
  {
  }

  /** The state that an iteration leaves. */
  function After(o: Outcome): State
    requires !o.Fail?
  {
    match o
    case Continue(next) => next
    case Return(last) => last
    case Break(last) => last
  }

  /** The bound and the fee of the iteration from a state. */
  function BoundOf(c: Context, s: State): nat
    requires Fits(c, s)
  {
    Bound(c, s, Target(c, c.price(NextTick(c, Nearest(c, s, |c.ticks|)))))
  }

  function FeeOf(c: Context, s: State): (f: nat)
    requires c.Valid()
    ensures f < MILLION
  {
    FeeAt(c, s.group)
  }

  lemma TakeKeeps(c: Context, s: State, i: nat, fee: nat)
    requires Fits(c, s) && i < |c.ticks| && fee < MILLION && TakeOrders(c, s, i, fee).Ok?
    ensures var t := TakeOrders(c, s, i, fee).value;
      s.output <= t.output && |t.orders| == |s.orders| && (s.remaining == 0 ==> t == s)
  {
    hide FillOrder, OrderPrice, Context.Valid, OutputFee;
    if s.orders[i] != 0 && s.remaining != 0 {
      var f := FillOrder(s.remaining, s.orders[i], OrderPrice(s.current, c.down), fee, c.inputFee, c.down).value;
      OutputFeeWithin(f.gross, fee, c.inputFee);
    }
  }

  /** After its price movement an iteration never takes output back and, with no input left, changes
      neither amount. */
  lemma AfterMove(c: Context, s: State)
    requires Fits(c, s) && !Iterate(c, s).Fail? && !Done(c, s)
    ensures Move(c, s, BoundOf(c, s), FeeOf(c, s)).Ok?
    ensures var m, x := Move(c, s, BoundOf(c, s), FeeOf(c, s)).value, After(Iterate(c, s));
      m.output <= x.output && (m.remaining == 0 ==> x.remaining == 0 && x.output == m.output)
  {
    hide Move, TakeOrders, Bound, Skips, FeeAt, Nearest, NextGroup, Target, Context.Valid;
    var index := Nearest(c, s, |c.ticks|);
    var m := Move(c, s, BoundOf(c, s), FeeOf(c, s)).value;
    MoveOrders(c, s);
    if m.current == c.price(NextTick(c, index)) && index.Some? { TakeKeeps(c, m, index.value, FeeOf(c, s)); }
  }

  lemma MoveOrders(c: Context, s: State)
    requires Fits(c, s)
    ensures var m := Move(c, s, BoundOf(c, s), FeeOf(c, s)); m.Ok? ==> m.value.orders == s.orders
    ensures var m := Move(c, s, BoundOf(c, s), FeeOf(c, s)); m.Ok? ==>
        s.output <= m.value.output && |m.value.orders| == |c.ticks|
  {
    hide Move, Context.Valid, BoundOf, FeeOf;
    if Move(c, s, BoundOf(c, s), FeeOf(c, s)).Ok? { MoveGrows(c, s, BoundOf(c, s), FeeOf(c, s)); }
  }

  lemma MoveGrows(c: Context, s: State, bound: nat, fee: nat)
    requires fee < MILLION && Move(c, s, bound, fee).Ok?
    ensures var t := Move(c, s, bound, fee).value; t.orders == s.orders && s.output <= t.output
  {
    hide SwapStep, OutputFee;
    if s.current != bound {
      var r := SwapStep(s.current, bound, s.liquidity, s.remaining, if c.inputFee then fee else 0, c.down).value;
      OutputFeeWithin(r.amountOut, fee, c.inputFee);
    }
  }

  lemma SamePlan(c: Context, s: State, t: State)
    requires Fits(c, s) && Paired(s, t)
    ensures Fits(c, t) && BoundOf(c, s) == BoundOf(c, t) && FeeOf(c, s) == FeeOf(c, t) && Skips(c, s) == Skips(c, t)
    ensures Nearest(c, s, |c.ticks|) == Nearest(c, t, |c.ticks|)
  {
    SameNearest(c, s, t, |c.ticks|);
    hide Nearest, Context.Valid;
  }

  lemma {:induction false} SameNearest(c: Context, s: State, t: State, n: nat)
    requires n <= |c.ticks| == |s.orders| && s.tick == t.tick && s.orders == t.orders
    ensures Nearest(c, s, n) == Nearest(c, t, n)
    decreases n
  {
    if n == 0 {
    } else {
      SameNearest(c, s, t, n - 1);
    }
  }

  /** Dust at a price that is neither the limit nor the price of the next tick. */
  predicate Stuck(c: Context, s: State)
    requires Fits(c, s)
  {
    Dust(c, s) && s.current != c.limit && s.current != c.price(NextTick(c, Nearest(c, s, |c.ticks|)))
  }

  /** Dust does not move, whatever the bound. */
  lemma DustStays(c: Context, s: State, bound: nat, fee: nat)
    requires Dust(c, s) && fee < MILLION
    ensures Move(c, s, bound, fee).Ok? ==> Move(c, s, bound, fee).value == s
  {
    hide SwapStep, Pinned, OutputFee;
    NoCredit(fee, c.inputFee);
    if ValidStep(s.current, bound, s.liquidity, s.remaining, 0, c.down) && bound != s.current {
      PinnedStays(s.current, bound, s.liquidity, s.remaining, c.down);
    }
    InvalidIsErr(s.current, bound, s.liquidity, s.remaining, c.down);
  }

  lemma InvalidIsErr(current: nat, bound: nat, liquidity: nat, remaining: nat, down: bool)
    ensures !ValidStep(current, bound, liquidity, remaining, 0, down) ==>
        SwapStep(current, bound, liquidity, remaining, 0, down).Err?
  {
    hide Stop;
  }

  lemma StuckStays(c: Context, s: State)
    requires Fits(c, s) && Stuck(c, s) && Iterate(c, s).Continue?
    ensures Fits(c, Iterate(c, s).next) && Stuck(c, Iterate(c, s).next)
  {
    hide Move, TakeOrders, CrossTick, Bound, Skips, FeeAt, Nearest, NextGroup, Target, Context.Valid, Pinned;
    DustStays(c, s, BoundOf(c, s), FeeOf(c, s));
    SameNearest(c, s, Iterate(c, s).next, |c.ticks|);
  }

  /** A run that is stuck never succeeds, whatever its budget. */
  lemma {:induction false} StuckFails(c: Context, s: State, budget: nat)
    requires Fits(c, s) && Stuck(c, s)
    ensures Run(c, s, budget).Err?
    decreases budget
  {
    hide Iterate, Context.Valid, Pinned;
    if budget == 0 {
    } else {
      Returns(c, s);
      StuckBreaks(c, s);
      match Iterate(c, s)
      case Continue(next) =>
        StuckStays(c, s);
        StuckFails(c, next, budget - 1);
      case _ =>
    }
  }

  lemma StuckBreaks(c: Context, s: State)
    requires Fits(c, s) && Stuck(c, s)
    ensures !Iterate(c, s).Break? && !Iterate(c, s).Return?
  {
    hide Move, TakeOrders, CrossTick, Bound, Skips, FeeAt, Nearest, NextGroup, Target, Context.Valid, Pinned;
    DustStays(c, s, BoundOf(c, s), FeeOf(c, s));
  }

  /** On a consistent pool a movement that leaves dust short of its bound is stuck. */
  lemma DustSticks(c: Context, s: State)
    requires Legal(c, s) && Bracketed(c, s) && !Done(c, s) && Move(c, s, BoundOf(c, s), FeeOf(c, s)).Ok?
    requires var u := Move(c, s, BoundOf(c, s), FeeOf(c, s)).value;
      Dust(c, u) && u.current != BoundOf(c, s) && s.current != BoundOf(c, s)
    ensures !Iterate(c, s).Break? && !Iterate(c, s).Return?
    ensures Iterate(c, s).Continue? ==> Fits(c, Iterate(c, s).next) && Stuck(c, Iterate(c, s).next)
  {
    hide Move, TakeOrders, CrossTick, Skips, FeeAt, Nearest, NextGroup, Pinned, IsPriceMap;
    var next := c.price(NextTick(c, Nearest(c, s, |c.ticks|)));
    BoundBeforeTarget(c, s, Target(c, next));
    MovedState(c, s);
    MoveSafe(c, s, BoundOf(c, s), FeeOf(c, s));
    hide Bound;
    if Iterate(c, s).Continue? {
      var u, x := Move(c, s, BoundOf(c, s), FeeOf(c, s)).value, Iterate(c, s).next;
      if u.current == s.current {
        SameNearest(c, s, x, |c.ticks|);
      } else {
        NextBeyond(c, s, x);
      }
    }
  }

  /** After a price strictly between the standing and the next price is looked up, the next price
      still lies strictly ahead. */
  lemma NextBeyond(c: Context, s: State, x: State)
    requires Legal(c, s) && Bracketed(c, s) && c.floor <= x.current < c.ceiling
    requires x.orders == s.orders && x.tick == TickAt(c.price, x.current)
    requires var next := c.price(NextTick(c, Nearest(c, s, |c.ticks|)));
      if c.down then next < x.current < s.current else s.current < x.current < next
    ensures x.current != c.price(NextTick(c, Nearest(c, x, |c.ticks|)))
  {
    var index, index' := Nearest(c, s, |c.ticks|), Nearest(c, x, |c.ticks|);
    var t, t' := NextTick(c, index), NextTick(c, index');
    WithinLimits(c.price, c.floor, c.ceiling, t);
    TickBetween(c.price, c.floor, c.ceiling, c.down, s.tick, s.current, t, x.current);
    if index'.Some? {
      if c.down {
        assert Live(c, s, index'.value);
        Increasing(c.price, c.floor, c.ceiling, t', t);
      } else {
        Increasing(c.price, c.floor, c.ceiling, x.tick + 1, t');
      }
    }
  }

  /** Pools on which the comparison is made: any with fees on the input, else consistent ones. */
  predicate Comparable(c: Context, s: State) { c.inputFee || (Legal(c, s) && Bracketed(c, s)) }

  /** One iteration of both: they stay paired and do the same, the smaller input is used up with no
      more output, or the smaller one is stuck. */
  lemma IteratePair(c: Context, s: State, t: State)
    requires Fits(c, s) && Paired(s, t) && !Done(c, s) && Fits(c, t) && Comparable(c, s)
    requires !Iterate(c, s).Fail? && !Iterate(c, t).Fail?
    ensures var x, y := After(Iterate(c, s)), After(Iterate(c, t));
      || (Paired(x, y) && Iterate(c, s).Break? == Iterate(c, t).Break?)
      || Outrun(x, y)
      || (Iterate(c, s).Continue? && Fits(c, x) && Stuck(c, x))
  {
    SamePlan(c, s, t);
    AfterMove(c, s);
    AfterMove(c, t);
    hide Iterate, Move, BoundOf, FeeOf, Context.Valid, Nearest, Skips, Dust, Stuck, Legal, Bracketed;
    MovePair(c, s, t, BoundOf(c, s), FeeOf(c, s));
    var u, v := Move(c, s, BoundOf(c, s), FeeOf(c, s)).value, Move(c, t, BoundOf(c, s), FeeOf(c, s)).value;
    if Paired(u, v) {
      SettlePair(c, s, t, u, v);
    } else if !Outrun(u, v) {
      DustIsOutput(c, u);
      DustSticks(c, s);
    }
  }

  lemma DustIsOutput(c: Context, u: State)
    ensures Dust(c, u) ==> !c.inputFee
  {
  }

  /** From a paired price movement both iterations settle in the same way. */
  lemma SettlePair(c: Context, s: State, t: State, u: State, v: State)
    requires Fits(c, s) && Paired(s, t) && !Done(c, s) && Fits(c, t) && Paired(u, v)
    requires Move(c, s, BoundOf(c, s), FeeOf(c, s)) == Ok(u) && Move(c, t, BoundOf(c, t), FeeOf(c, t)) == Ok(v)
    requires !Iterate(c, s).Fail? && !Iterate(c, t).Fail?
    ensures var x, y := After(Iterate(c, s)), After(Iterate(c, t));
      (Paired(x, y) && Iterate(c, s).Break? == Iterate(c, t).Break?) || Outrun(x, y)
  {
    SamePlan(c, s, t);
    MoveOrders(c, s);
    hide Move, TakeOrders, CrossTick, Bound, Skips, FeeAt, Nearest, NextGroup, Target, Context.Valid;
    var index := Nearest(c, s, |c.ticks|);
    if u.current == c.price(NextTick(c, index)) && index.Some? {
      var i, fee := index.value, FeeOf(c, s);
      TakePair(c, u, v, i, fee);
      TakeKeeps(c, u, i, fee);
      TakeKeeps(c, v, i, fee);
      CrossPair(c, TakeOrders(c, u, i, fee).value, TakeOrders(c, v, i, fee).value, i);
    }
  }

  lemma {:induction false} RunGrows(c: Context, s: State, budget: nat)
    requires Fits(c, s) && Run(c, s, budget).Ok?
    ensures s.output <= Run(c, s, budget).value.output
    decreases budget
  {
    hide Iterate, Context.Valid;
    if budget == 0 {
    } else {
      Returns(c, s);
      if !Done(c, s) {
        AfterMove(c, s);
        MoveOrders(c, s);
        match Iterate(c, s)
        case Continue(next) =>
          KeepsFit(c, s);
          RunGrows(c, next, budget - 1);
        case _ =>
      }
    }
  }

  lemma KeepsFit(c: Context, s: State)
    requires Fits(c, s) && Iterate(c, s).Continue?
    ensures Fits(c, Iterate(c, s).next)
  {
    hide Move, Bound, Skips, FeeAt, Nearest, NextGroup, Target, Context.Valid, FillOrder;
    MoveOrders(c, s);
  }

  lemma Returns(c: Context, s: State)
    requires Fits(c, s)
    ensures Iterate(c, s).Return? <==> Done(c, s)
    ensures Iterate(c, s).Return? ==> Iterate(c, s).last == s
  {
    hide Move, TakeOrders, CrossTick, Bound, Nearest, FeeAt, Context.Valid;
  }

  /** A state with no input left is the end of its run. */
  lemma RunEnds(c: Context, s: State, budget: nat)
    requires Fits(c, s) && Done(c, s)
    ensures Run(c, s, budget) == Ok(s)
  {
    hide Iterate, Context.Valid;
    Returns(c, s);
  }

  /** Over whole runs, in any fee mode: with the same start the larger input gets at least as much. */
  lemma {:induction false} RunMonotone(c: Context, s: State, t: State, budget: nat)
    requires Fits(c, s) && Fits(c, t) && Paired(s, t) && Comparable(c, s)
    requires Run(c, s, budget).Ok? && Run(c, t, budget).Ok?
    ensures Run(c, s, budget).value.output <= Run(c, t, budget).value.output
    decreases budget
  {
    hide Iterate, Fits, Comparable, Stuck;
    if Done(c, s) {
      RunEnds(c, s, budget);
      RunGrows(c, t, budget);
    } else if budget > 0 {
      FitsValid(c, s);
      Returns(c, s);
      Returns(c, t);
      IteratePair(c, s, t);
      var x, y := After(Iterate(c, s)), After(Iterate(c, t));
      if Iterate(c, s).Continue? {
        KeepsFit(c, s);
        KeepsComparable(c, s);
      }
      if Iterate(c, t).Continue? { KeepsFit(c, t); }
      if Outrun(x, y) {
        if Iterate(c, s).Continue? { RunEnds(c, x, budget - 1); }
        if Iterate(c, t).Continue? { RunGrows(c, y, budget - 1); }
      } else if Iterate(c, s).Continue? {
        if Paired(x, y) && !Iterate(c, t).Break? {
          RunMonotone(c, x, y, budget - 1);
        } else {
          StuckFails(c, x, budget - 1);
        }
      }
    }
  }

  lemma KeepsComparable(c: Context, s: State)
    requires Comparable(c, s) && Fits(c, s) && Iterate(c, s).Continue?
    ensures Comparable(c, Iterate(c, s).next)
  {
    hide Iterate, Legal, Bracketed;
    if !c.inputFee { StillLegal(c, s); }
  }

  lemma FitsValid(c: Context, s: State)
    requires Fits(c, s)
    ensures c.Valid() && |s.orders| == |c.ticks|
  {
  }

  /** The whole quote is monotone in its input: with fees on the input on any pool, and with fees on
      the output on any pool whose tick fits its price. */
  lemma QuoteMonotone(q: Request, larger: nat)
    requires q.amount <= larger && Quote(q).Ok? && Quote(q.(amount := larger)).Ok?
    requires q.ContextOf().inputFee || Consistent(q.pool.tickCurrent, q.pool.sqrtPrice)
    ensures Quote(q).value.amountOut <= Quote(q.(amount := larger)).value.amountOut
  {
    hide Run, Context.Valid, IsPriceMap, Consistent;
    var r := q.(amount := larger);
    QuoteRuns(q);
    QuoteRuns(r);
    if !q.ContextOf().inputFee { StartLegal(q); }
    RunMonotone(q.ContextOf(), q.StartOf(), r.StartOf(), BUDGET);
  }

  /** A quote with fees on the output whose first movement stops short and leaves a rest fails. */
  lemma DustFails(q: Request)
    requires q.Valid() && Consistent(q.pool.tickCurrent, q.pool.sqrtPrice) && 0 < q.amount
    requires q.ContextOf().Valid()
    requires var c, s := q.ContextOf(), q.StartOf();
      var m := Move(c, s, BoundOf(c, s), FeeOf(c, s));
      m.Ok? && Dust(c, m.value) && m.value.current != BoundOf(c, s) && s.current != BoundOf(c, s)
    ensures Quote(q).Err?
  {
    hide Context.Valid, IsPriceMap, Consistent, BoundOf, FeeOf, Move, Dust, Stuck, Iterate;
    StartLegal(q);
    var c, s := q.ContextOf(), q.StartOf();
    DustSticks(c, s);
    if Iterate(c, s).Continue? { StuckFails(c, Iterate(c, s).next, BUDGET - 1); }
    RunFirst(c, s, BUDGET);
  }

  /** A pool at tick zero with much liquidity and no ticks, given one unit upwards with the fee on
      the output. */
  function DustRequest(): Request {
    EmptyRequest(false).(pool := ClmmPool(ClmmPrice.PriceAt(0), 2 * Q64, 0, 1, 0), feeOn := 1)
  }

  /** One unit does not move that pool's price, so the smallest quote fails although the pool is
      consistent and holds liquidity. */
  lemma DustRequestFails(zero: int)
    requires zero == 0
    ensures var q := DustRequest(); q.Valid() && Consistent(zero, q.pool.sqrtPrice) && Quote(q).Err?
  {
    hide Run, Consistent, Nearest;
    EmptyRequestValid(false, zero);
    var q := DustRequest();
    ContextValid(q);
    Increasing(ClmmPrice.PriceAt, ClmmPrice.MIN_SQRT_PRICE, ClmmPrice.MAX_SQRT_PRICE, zero, MAX_TICK);
    hide ClmmPrice.PriceAt, Context.Valid, IsPriceMap;
    NoTicks(q.ContextOf(), q.StartOf());
    StuckFails(q.ContextOf(), q.StartOf(), BUDGET);
  }

  lemma NoTicks(c: Context, s: State)
    requires c.ticks == [] && s.orders == []
    ensures Nearest(c, s, |c.ticks|) == None
  {
  }

  lemma RunFirst(c: Context, s: State, budget: nat)
    requires Fits(c, s) && 0 < budget && !Iterate(c, s).Break? && !Iterate(c, s).Return?
    ensures Run(c, s, budget).Ok? ==> Iterate(c, s).Continue? && Run(c, Iterate(c, s).next, budget - 1).Ok?
  {
    hide Iterate;
  }
}
