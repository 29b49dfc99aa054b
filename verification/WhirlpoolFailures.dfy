/** Why a Whirlpool quote fails: every error has its cause where the run stops. */
module WhirlpoolFailures {
  import opened Arith
  import opened Outcomes
  import opened TickMap
  import opened ClmmStep
  import opened Traversal
  import opened WhirlpoolSwap
  import opened WhirlpoolSafety
  import opened WhirlpoolEngine
  import opened Payout
  import opened WhirlpoolPayout
  import WhirlpoolPrice

  /** Some stretch from here would bring the output above 64 bits. */
  ghost predicate TooMuch(c: Context, y: State) {
    exists p: nat | Heads(y.current, p, c.down) :: y.output + Worth(y.current, p, y.liquidity, c.down) > U64
  }

  /** Crossing the next tick would take the liquidity out of 128 bits. */
  ghost predicate TooDeep(c: Context, y: State) {
    exists i: nat | i < |c.nodes| && IsAhead(c.down, y.tick, c.nodes[i].tick) ::
      !(0 <= y.liquidity + (if c.down then -c.nodes[i].net else c.nodes[i].net) <= U128)
  }

  /** A movement fails only on an output above 64 bits, unless its bound is on the wrong side. */
  lemma MoveFails(c: Context, amount: nat, s: State, bound: nat, fee: nat)
    requires Legal(c, s) && Charged(amount, s) && amount <= U64 && fee < MILLION && Move(c, s, bound, fee).Err?
    requires 0 < bound <= U128
    ensures var e := Move(c, s, bound, fee).error;
      && (e == StepFailed(OutsideRange) || e == AmountOutsideRange || e == StepFailed(InvalidStep))
      && (e == StepFailed(InvalidStep) <==> if c.down then s.current < bound else bound < s.current)
      && (e != StepFailed(InvalidStep) ==> TooMuch(c, s))
  {
    hide Delta, Worth, IsPriceMap;
    if if c.down then bound <= s.current else s.current <= bound {
      StepEnvelope(s.current, bound, s.liquidity, s.remaining, fee, c.down);
      var p := Stop(s.current, bound, s.liquidity, Net(s.remaining, fee), c.down);
      WorthIsDelta(s.current, p, s.liquidity, c.down);
      hide Stop, Net;
      assert Heads(s.current, p, c.down) && s.output + Worth(s.current, p, s.liquidity, c.down) > U64;
    }
  }

  /** The bound of an iteration. */
  function SpanAt(c: Context, y: State): Result<Span, SwapError>
    requires c.Valid()
  {
    SpanOf(c, y, Target(c, c.price(NextTick(c, Nearest(c.nodes, c.down, y.tick, |c.nodes|)))))
  }

  lemma SpanInLimits(c: Context, y: State)
    requires Legal(c, y) && SpanAt(c, y).Ok?
    ensures c.floor <= SpanAt(c, y).value.bound <= c.ceiling
  {
    hide IsPriceMap;
    var t := NextTick(c, Nearest(c.nodes, c.down, y.tick, |c.nodes|));
    WithinLimits(c.price, c.floor, c.ceiling, t);
    hide Nearest;
    if c.adaptive.Some? {
      var a := c.adaptive.value;
      BoundaryInLimits(c, (if c.down then y.group else y.group + 1) * a.groupSize);
      if a.lowerGroup.Some? { BoundaryInLimits(c, a.lowerGroup.value * a.groupSize); }
      if a.upperGroup.Some? { BoundaryInLimits(c, (a.upperGroup.value + 1) * a.groupSize); }
    }
  }

  lemma BoundaryInLimits(c: Context, tick: int)
    requires c.Valid()
    ensures c.floor <= c.price(Max(MIN_TICK, Min(MAX_TICK, tick))) <= c.ceiling
  {
    WithinLimits(c.price, c.floor, c.ceiling, Max(MIN_TICK, Min(MAX_TICK, tick)));
  }

  /** Why an iteration fails: the arrays end, an output or the liquidity leaves its width, or, with an adaptive
      fee or from a tick that does not fit its price, a bound is not ahead. */
  predicate BoundBehind(c: Context, y: State)
    requires c.Valid()
  {
    var span := SpanAt(c, y);
    span.Err? || if c.down then y.current < span.value.bound else span.value.bound < y.current
  }

  ghost predicate FailsRightly(c: Context, y: State, e: SwapError)
    requires c.Valid()
  {
    match e
    case MoreArraysRequired => OutOfArrays(c, y) && !Done(c, y)
    case StepFailed(InvalidStep) => BoundBehind(c, y)
    case StepFailed(OutsideRange) => TooMuch(c, y)
    case AmountOutsideRange => TooMuch(c, y)
    case LiquidityOutsideRange => TooDeep(c, y)
    case TickOutsideRange => BoundBehind(c, y)
    case _ => false
  }

  lemma IterateFails(c: Context, amount: nat, y: State)
    requires Legal(c, y) && Charged(amount, y) && amount <= U64 && Iterate(c, y).Fail?
    ensures c.Valid() && FailsRightly(c, y, Iterate(c, y).error)
  {
    hide Move, FeeAt, Nearest, IsPriceMap, SpanOf, TooMuch;
    if !Done(c, y) && !OutOfArrays(c, y) && SpanAt(c, y).Ok? {
      SpanInLimits(c, y);
      var bound, fee := SpanAt(c, y).value.bound, FeeAt(c, y.group);
      if Move(c, y, bound, fee).Err? {
        MoveFails(c, amount, y, bound, fee);
      } else {
        MoveSafe(c, y, bound, fee);
        if Iterate(c, y).error == LiquidityOutsideRange { DeepWitness(c, y); }
      }
    }
    SpanErrors(c, y);
  }

  lemma DeepWitness(c: Context, y: State)
    requires c.Valid()
    requires Nearest(c.nodes, c.down, y.tick, |c.nodes|).Some?
    requires var net := c.nodes[Nearest(c.nodes, c.down, y.tick, |c.nodes|).value].net;
      !(0 <= y.liquidity + (if c.down then -net else net) <= U128)
    ensures TooDeep(c, y)
  {
  }

  lemma SpanErrors(c: Context, y: State)
    requires c.Valid()
    ensures SpanAt(c, y).Err? ==> SpanAt(c, y).error == TickOutsideRange
  {
    hide Nearest, IsPriceMap;
  }

  /** Every failure of a quote has its cause in the state where the run stops, which the ledger leads to: the
      arrays end there, some further stretch would bring the output above 64 bits, the next tick would take
      the liquidity out of 128 bits, or the bound there is not ahead; or the iterations are used up. */
  lemma QuoteFails(q: Request)
    requires q.Valid() && Quote(q).Err?
    ensures q.ContextOf().Valid()
    ensures var e, y, l := Quote(q).error, LastState(q.ContextOf(), q.StartOf(), BUDGET),
        Ledger(q.ContextOf(), q.StartOf(), BUDGET);
      && Path(l, q.pool.sqrtPrice, y.current, q.down) && y.output == Worths(l, q.down)
      && (e == BudgetExhausted || FailsRightly(q.ContextOf(), y, e))
  {
    hide Run, Context.Valid, IsPriceMap, WhirlpoolPrice.PriceAt, Ledger, LastState, FailsRightly, Worths, Path,
      Costs, Spent;
    ContextValid(q);
    StartLegal(q);
    var c, s := q.ContextOf(), q.StartOf();
    LedgerPays(c, s, BUDGET);
    RunStops(c, s, BUDGET);
    LastCharged(c, q.amount, s, BUDGET);
    hide Request.Valid;
    var y := LastState(c, s, BUDGET);
    if Quote(q).error != BudgetExhausted { IterateFails(c, q.amount, y); }
  }

  lemma {:induction false} LastCharged(c: Context, amount: nat, s: State, budget: nat)
    requires Legal(c, s) && Charged(amount, s)
    ensures c.Valid() && Charged(amount, LastState(c, s, budget))
    decreases budget
  {
    hide Iterate, Legal, Charged;
    LegalValid(c, s);
    if budget == 0 {
    } else {
      match Iterate(c, s)
      case Continue(next) =>
        StartsMoved(c, s);
        IterateSafe(c, amount, s, s);
        LastCharged(c, amount, next, budget - 1);
      case _ =>
    }
  }

  lemma StartsMoved(c: Context, s: State)
    ensures MovedFrom(c, s, s)
  {
  }
}
