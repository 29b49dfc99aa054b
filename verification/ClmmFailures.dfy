/** Why a CLMM quote fails: every error has its cause where the run stops. */
module ClmmFailures {
  import opened Arith
  import opened Outcomes
  import opened TickMap
  import opened ClmmStep
  import opened ClmmOrder
  import opened Traversal
  import opened ClmmSwap
  import opened ClmmSafety
  import opened ClmmProgress
  import opened ClmmEngine
  import opened ClmmMonotone
  import opened Payout
  import opened ClmmPayout
  import ClmmPrice

  /** Some stretch from here is worth more than 64 bits. */
  ghost predicate StepTooMuch(c: Context, y: State) {
    exists p: nat | Heads(y.current, p, c.down) :: Worth(y.current, p, y.liquidity, c.down) > U64
  }

  /** What is credited of an output after its fee. */
  function Credit(gross: nat, fee: nat, inputFee: bool): int { gross - OutputFee(gross, fee, inputFee) }

  /** Some stretch from here, with something filled of an order, would bring the output above 64 bits. */
  ghost predicate TooMuch(c: Context, y: State)
    requires Fits(c, y)
  {
    exists p: nat, g: nat
      | Heads(y.current, p, c.down) && (g == 0 || exists i | 0 <= i < |y.orders| :: g <= y.orders[i]) ::
      y.output + Credit(Worth(y.current, p, y.liquidity, c.down), FeeOf(c, y), c.inputFee)
      + Credit(g, FeeOf(c, y), c.inputFee) > U64
  }

  /** Crossing a tick ahead would take the liquidity out of 128 bits. */
  ghost predicate TooDeep(c: Context, y: State) {
    exists i: nat | i < |c.ticks| && IsAhead(c.down, y.tick, c.ticks[i].tick) ::
      !(0 <= y.liquidity + (if c.down then -c.ticks[i].liquidityNet else c.ticks[i].liquidityNet) <= U128)
  }

  predicate BoundBehind(c: Context, y: State)
    requires Fits(c, y)
  {
    if c.down then y.current < BoundOf(c, y) else BoundOf(c, y) < y.current
  }

  ghost predicate FailsRightly(c: Context, y: State, e: SwapError)
    requires Fits(c, y)
  {
    match e
    case StepFailed(InvalidStep) => BoundBehind(c, y)
    case StepFailed(OutsideRange) => StepTooMuch(c, y)
    case AmountOutsideRange => TooMuch(c, y)
    case LiquidityOutsideRange => TooDeep(c, y)
    case _ => false
  }

  lemma BoundInLimits(c: Context, y: State)
    requires Legal(c, y) && Fits(c, y)
    ensures c.floor <= BoundOf(c, y) <= c.ceiling
  {
    hide IsPriceMap, Volatility;
    WithinLimits(c.price, c.floor, c.ceiling, NextTick(c, Nearest(c, y, |c.ticks|)));
    hide Nearest;
    var edge := (if c.down then y.group else y.group + 1) * c.tickSpacing;
    WithinLimits(c.price, c.floor, c.ceiling, Max(MIN_TICK, Min(MAX_TICK, edge)));
  }

  /** A movement fails only on an output above 64 bits, unless its bound is behind. */
  lemma MoveFails(c: Context, y: State, bound: nat)
    requires Legal(c, y) && Fits(c, y) && Move(c, y, bound, FeeOf(c, y)).Err? && 0 < bound <= U128
    ensures var e := Move(c, y, bound, FeeOf(c, y)).error;
      && (e == StepFailed(OutsideRange) || e == AmountOutsideRange || e == StepFailed(InvalidStep))
      && (e == StepFailed(InvalidStep) ==> if c.down then y.current < bound else bound < y.current)
      && (e == StepFailed(OutsideRange) ==> StepTooMuch(c, y))
      && (e == AmountOutsideRange ==> TooMuch(c, y))
  {
    hide Delta, Worth, IsPriceMap, FeeAt, OutputFee;
    var fee := FeeOf(c, y);
    if if c.down then bound <= y.current else y.current <= bound {
      var rate := if c.inputFee then fee else 0;
      StepEnvelope(y.current, bound, y.liquidity, y.remaining, rate, c.down);
      var p := Stop(y.current, bound, y.liquidity, Net(y.remaining, rate), c.down);
      WorthIsDelta(y.current, p, y.liquidity, c.down);
      OutputFeeWithin(Worth(y.current, p, y.liquidity, c.down), fee, c.inputFee);
      NoCredit(fee, c.inputFee);
      hide Stop, Net;
      assert Heads(y.current, p, c.down);
      var g := 0;
      assert y.output + Credit(Worth(y.current, p, y.liquidity, c.down), fee, c.inputFee)
        + Credit(g, fee, c.inputFee) > U64 || Worth(y.current, p, y.liquidity, c.down) > U64;
    }
  }

  /** Taking orders after a movement fails only on an output above 64 bits. */
  lemma TakeFails(c: Context, y: State, i: nat)
    requires Legal(c, y) && Fits(c, y) && Move(c, y, BoundOf(c, y), FeeOf(c, y)).Ok? && Legal(c, Moved(c, y))
    requires i < |c.ticks| && Q64 <= c.floor * c.floor && TakeOrders(c, Moved(c, y), i, FeeOf(c, y)).Err?
    ensures TakeOrders(c, Moved(c, y), i, FeeOf(c, y)).error == AmountOutsideRange && TooMuch(c, y)
  {
    hide Move, IsPriceMap, FeeAt, OutputFee, FillOrder, OrderPrice, LegWorth, SpentOk, BoundOf, FeeOf;
    var m, fee := Moved(c, y), FeeOf(c, y);
    OrdersProgress(c, m, i, fee);
    MovePays(c, y, BoundOf(c, y), fee);
    MoveOrders(c, y);
    var price := OrderPrice(m.current, c.down);
    OrderPricePositive(m.current, c.floor, c.down);
    FillEnvelope(m.remaining, m.orders[i], price, fee, c.inputFee, c.down);
    var g := FillOrder(m.remaining, m.orders[i], price, fee, c.inputFee, c.down).value.gross;
    OutputFeeWithin(g, fee, c.inputFee);
    WorthOfLeg(y.current, m.current, y.liquidity, c.down);
    assert g <= y.orders[i];
    assert y.output + Credit(Worth(y.current, m.current, y.liquidity, c.down), fee, c.inputFee)
      + Credit(g, fee, c.inputFee) > U64;
  }

  lemma WorthOfLeg(from: nat, to: nat, liquidity: nat, down: bool)
    requires Heads(from, to, down)
    ensures forall leg: Leg | leg.from == from && leg.to == to && leg.liquidity == liquidity ::
      LegWorth(leg, down) == Worth(from, to, liquidity, down)
  {
  }

  lemma CrossFails(c: Context, y: State, t: State, i: nat)
    requires Fits(c, y) && Nearest(c, y, |c.ticks|) == Some(i) && |t.orders| == |c.ticks|
    requires t.liquidity == y.liquidity && CrossTick(c, t, i).Err?
    ensures CrossTick(c, t, i).error == LiquidityOutsideRange && TooDeep(c, y)
  {
    hide Context.Valid;
  }

  lemma IterateFails(c: Context, y: State)
    requires Legal(c, y) && Fits(c, y) && !Done(c, y) && Q64 <= c.floor * c.floor && Iterate(c, y).Fail?
    ensures FailsRightly(c, y, Iterate(c, y).error)
  {
    hide Move, TakeOrders, CrossTick, FeeAt, Nearest, IsPriceMap, TooMuch, TooDeep, StepTooMuch, NextGroup, Skips,
      Bound;
    BoundInLimits(c, y);
    if Move(c, y, BoundOf(c, y), FeeOf(c, y)).Err? {
      MoveFails(c, y, BoundOf(c, y));
    } else {
      MovedState(c, y);
      var m, index := Moved(c, y), Nearest(c, y, |c.ticks|);
      WithinLimits(c.price, c.floor, c.ceiling, NextTick(c, index));
      MoveOrders(c, y);
      if m.current == c.price(NextTick(c, index)) && index.Some? {
        if TakeOrders(c, m, index.value, FeeOf(c, y)).Err? {
          TakeFails(c, y, index.value);
        } else {
          TakePlace(c, m, index.value, FeeOf(c, y));
          OrdersSafe(c, m, index.value, FeeOf(c, y));
          CrossFails(c, y, TakeOrders(c, m, index.value, FeeOf(c, y)).value, index.value);
        }
      }
    }
  }

  /** Every failure of a quote, in every fee mode and on any pool, has its cause in the state where the run
      stops, which the ledger leads to: some further stretch, with something filled of an order, would bring
      the output above 64 bits, a tick ahead would take the liquidity out of 128 bits, or the bound there is
      behind; or the iterations are used up. */
  lemma QuoteFails(q: Request)
    requires q.Valid() && Quote(q).Err?
    ensures q.ValidPool() && Fits(q.ContextOf(), q.StartOf())
    ensures var c, e, y, l := q.ContextOf(), Quote(q).error, LastState(q.ContextOf(), q.StartOf(), BUDGET),
        Ledger(q.ContextOf(), q.StartOf(), BUDGET);
      && Path(Legs(l), q.pool.sqrtPrice, y.current, q.down)
      && y.output == Worths(Legs(l), q.down) + Offered(q.ticks) - TotalOf(y.orders)
         - OutputFees(l, q.down, c.inputFee)
      && (e == BudgetExhausted || (Fits(c, y) && FailsRightly(c, y, e)))
  {
    hide Run, IsPriceMap, ClmmPrice.PriceAt, Request.ValidTick, Ledger, LastState, FailsRightly, Worths, Path,
      OutputFees, TotalOf, EntriesOk;
    ContextValid(q);
    var c, s := q.ContextOf(), q.StartOf();
    FitsLegal(c, s);
    OfferedTotal(q.ticks, s.orders);
    LedgerPays(c, s, BUDGET);
    RunStops(c, s, BUDGET);
    if Quote(q).error != BudgetExhausted { IterateFails(c, LastState(c, s, BUDGET)); }
  }
}
