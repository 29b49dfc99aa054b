/** What a CLMM quote pays and takes: the ledger of a run, and its totals. */
module ClmmPayout {
  import opened Arith
  import opened Outcomes
  import opened TickMap
  import opened ClmmStep
  import opened ClmmOrder
  import opened Traversal
  import opened ClmmSwap
  import opened ClmmSafety
  import opened ClmmEngine
  import opened StepMonotone
  import opened ClmmMonotone
  import opened Payout
  import ClmmPrice

  /** One iteration: its price movement, the order that rests where it arrives, and what is filled of
      that order for what input. */
  datatype Entry = Entry(leg: Leg, order: nat, filled: nat, paid: int)

  function TotalOf(orders: seq<nat>): nat {
    if orders == [] then 0 else TotalOf(orders[..|orders| - 1]) + orders[|orders| - 1]
  }

  /** The state between the price movement of an iteration and what follows it. */
  function Moved(c: Context, s: State): State
    requires Fits(c, s)
  {
    var m := Move(c, s, BoundOf(c, s), FeeOf(c, s));
    if m.Ok? then m.value else s
  }

  /** The order resting where an iteration arrives. */
  function Resting(c: Context, s: State): nat
    requires Fits(c, s)
  {
    var index := Nearest(c, s, |c.ticks|);
    if index.Some? && Moved(c, s).current == c.price(c.ticks[index.value].tick) then s.orders[index.value] else 0
  }

  /** What an iteration from `s` that leaves `x` did. */
  function EntryOf(c: Context, s: State, x: State): Entry
    requires Fits(c, s)
  {
    var m := Moved(c, s);
    Entry(Leg(s.tick, s.group, s.current, m.current, s.liquidity, FeeOf(c, s), s.remaining - m.remaining),
      Resting(c, s), Max(0, TotalOf(s.orders) - TotalOf(x.orders)), m.remaining - x.remaining)
  }

  /** The entries of a run, one for each iteration. */
  function Ledger(c: Context, s: State, budget: nat): seq<Entry>
    requires Fits(c, s)
    decreases budget
  {
    if budget == 0 || Done(c, s) then []
    else
      match Iterate(c, s)
      case Return(_) => []
      case Fail(_) => []
      case Break(last) => [EntryOf(c, s, last)]
      case Continue(next) =>
        KeepsFit(c, s);
        [EntryOf(c, s, next)] + Ledger(c, next, budget - 1)
  }

  /** The price movements of a ledger. */
  function Legs(entries: seq<Entry>): seq<Leg> {
    if entries == [] then [] else [entries[0].leg] + Legs(entries[1..])
  }

  /** What is filled of the resting order: what the rest of the input after the movement fills at the
      price of the arrival. */
  predicate FilledOk(e: Entry, down: bool, inputFee: bool, left: nat)
    requires e.leg.rate < MILLION
  {
    if e.order == 0 || left == 0 then e.filled == 0 && e.paid == 0
    else
      var f := FillOrder(left, e.order, OrderPrice(e.leg.to, down), e.leg.rate, inputFee, down);
      f.Ok? && e.filled == f.value.gross && e.paid == f.value.consumed + f.value.fee
  }

  /** Every entry spends and fills rightly out of what the earlier ones left. */
  predicate EntriesOk(entries: seq<Entry>, down: bool, inputFee: bool, left: int) {
    entries == [] || (
      var e := entries[0];
      && 0 <= left && e.leg.rate < MILLION && Heads(e.leg.from, e.leg.to, down)
      && SpentOk(e.leg, down, inputFee, left)
      && FilledOk(e, down, inputFee, left - e.leg.spent)
      && EntriesOk(entries[1..], down, inputFee, left - e.leg.spent - e.paid))
  }

  /** The ceiled fees on what each entry gives, when fees are taken from the output. */
  function OutputFees(entries: seq<Entry>, down: bool, inputFee: bool): nat {
    if entries == [] then 0
    else
      var e := entries[0];
      OutputFee(LegWorth(e.leg, down), e.leg.rate, inputFee) + OutputFee(e.filled, e.leg.rate, inputFee)
      + OutputFees(entries[1..], down, inputFee)
  }

  /** The input spent on movements and orders. */
  function Spent(entries: seq<Entry>): int {
    if entries == [] then 0 else entries[0].leg.spent + entries[0].paid + Spent(entries[1..])
  }

  lemma TotalUpdate(orders: seq<nat>, i: nat, left: nat)
    requires i < |orders|
    ensures TotalOf(orders[i := left]) == TotalOf(orders) - orders[i] + left
  {
    var n := |orders| - 1;
    if i == n {
      assert orders[i := left][..n] == orders[..n];
    } else {
      assert orders[i := left][..n] == orders[..n][i := left];
      TotalUpdate(orders[..n], i, left);
    }
  }

  /** The price movement of an iteration gives its worth and spends what the leg says. */
  lemma MovePays(c: Context, s: State, bound: nat, fee: nat)
    requires Legal(c, s) && fee < MILLION && Move(c, s, bound, fee).Ok?
    ensures var m := Move(c, s, bound, fee).value;
      var leg := Leg(s.tick, s.group, s.current, m.current, s.liquidity, fee, s.remaining - m.remaining);
      && Heads(s.current, m.current, c.down)
      && SpentOk(leg, c.down, c.inputFee, s.remaining)
      && m.output == s.output + LegWorth(leg, c.down) - OutputFee(LegWorth(leg, c.down), fee, c.inputFee)
  {
    hide SwapStep, Worth, Cost, OutputFee;
    if s.current == bound {
      NothingForNothing(s.current, s.liquidity, c.down);
      NoCredit(fee, c.inputFee);
    } else {
      StepLeg(s.tick, s.group, s.current, bound, s.liquidity, s.remaining, fee, c.inputFee, c.down);
    }
  }

  /** Taking orders gives what is filled of the order on the tick. */
  lemma TakePays(c: Context, s: State, i: nat, fee: nat)
    requires i < |c.ticks| == |s.orders| && fee < MILLION && TakeOrders(c, s, i, fee).Ok?
    ensures var t := TakeOrders(c, s, i, fee).value;
      var filled, paid := TotalOf(s.orders) - TotalOf(t.orders), s.remaining - t.remaining;
      && 0 <= filled
      && FilledOk(Entry(Leg(s.tick, s.group, s.current, s.current, 0, fee, 0), s.orders[i], filled, paid), c.down,
           c.inputFee, s.remaining)
      && t.output == s.output + filled - OutputFee(filled, fee, c.inputFee)
  {
    hide FillOrder, OrderPrice, OutputFee;
    if s.orders[i] != 0 && s.remaining != 0 {
      var f := FillOrder(s.remaining, s.orders[i], OrderPrice(s.current, c.down), fee, c.inputFee, c.down).value;
      TotalUpdate(s.orders, i, s.orders[i] - f.gross);
    } else {
      NoCredit(fee, c.inputFee);
    }
  }

  /** One iteration does exactly what its entry says. */
  lemma IteratePays(c: Context, s: State)
    requires Legal(c, s) && !Done(c, s) && (Iterate(c, s).Continue? || Iterate(c, s).Break?)
    ensures var x := After(Iterate(c, s));
      var e := EntryOf(c, s, x);
      && Legal(c, x) && e.leg.from == s.current && x.current == e.leg.to && e.leg.rate < MILLION
      && Heads(s.current, e.leg.to, c.down)
      && SpentOk(e.leg, c.down, c.inputFee, s.remaining)
      && FilledOk(e, c.down, c.inputFee, s.remaining - e.leg.spent)
      && x.remaining == s.remaining - e.leg.spent - e.paid
      && TotalOf(x.orders) == TotalOf(s.orders) - e.filled
      && x.output == s.output
         + LegWorth(e.leg, c.down) - OutputFee(LegWorth(e.leg, c.down), e.leg.rate, c.inputFee)
         + e.filled - OutputFee(e.filled, e.leg.rate, c.inputFee)
  {
    hide Move, TakeOrders, CrossTick, Bound, Skips, FeeAt, Nearest, NextGroup, Target, Legal, OutputFee, FillOrder,
      SpentOk, LegWorth, OrderPrice, TotalOf;
    FitsLegal(c, s);
    IterateDirected(c, s, s);
    var fee := FeeOf(c, s);
    MovePays(c, s, BoundOf(c, s), fee);
    MoveOrders(c, s);
    var m, index := Moved(c, s), Nearest(c, s, |c.ticks|);
    if index.Some? && m.current == c.price(c.ticks[index.value].tick) {
      TakePays(c, m, index.value, fee);
      TakePlace(c, m, index.value, fee);
      CrossKeeps(c, TakeOrders(c, m, index.value, fee).value, index.value);
    } else {
      NoCredit(fee, c.inputFee);
    }
  }

  lemma TakePlace(c: Context, s: State, i: nat, fee: nat)
    requires i < |c.ticks| == |s.orders| && fee < MILLION && TakeOrders(c, s, i, fee).Ok?
    ensures TakeOrders(c, s, i, fee).value.current == s.current && |TakeOrders(c, s, i, fee).value.orders| == |c.ticks|
  {
    hide FillOrder, OrderPrice, OutputFee;
  }

  lemma CrossKeeps(c: Context, s: State, i: nat)
    requires i < |c.ticks| == |s.orders| && CrossTick(c, s, i).Ok?
    ensures var x := CrossTick(c, s, i).value;
      x.current == s.current && x.remaining == s.remaining && x.output == s.output && x.orders == s.orders
  {
  }

  lemma FitsLegal(c: Context, s: State)
    requires Legal(c, s)
    ensures Fits(c, s) && Directed(c, s, s)
  {
  }

  /** The state in which a run stops, successful or not. */
  function LastState(c: Context, s: State, budget: nat): State
    requires Fits(c, s)
    decreases budget
  {
    if budget == 0 || Done(c, s) then s
    else
      match Iterate(c, s)
      case Return(last) => last
      case Fail(_) => s
      case Break(last) => last
      case Continue(next) =>
        KeepsFit(c, s);
        LastState(c, next, budget - 1)
  }

  /** How a run ends in its last state. */
  lemma {:induction false} RunStops(c: Context, s: State, budget: nat)
    requires Fits(c, s)
    ensures var r, y := Run(c, s, budget), LastState(c, s, budget);
      if r.Ok? then r.value == y && Done(c, y)
      else r.error == BudgetExhausted || (Fits(c, y) && !Done(c, y) && Iterate(c, y) == Fail(r.error))
    decreases budget
  {
    hide Iterate, Context.Valid;
    Returns(c, s);
    if budget == 0 || Done(c, s) {
    } else {
      match Iterate(c, s)
      case Continue(next) =>
        KeepsFit(c, s);
        RunStops(c, next, budget - 1);
      case _ =>
    }
  }

  /** What a run has paid where it stops, in every fee mode and from any pool: the floored value of every
      stretch at constant liquidity, and what it took out of the orders, less the ceiled fees on each; and
      what it takes is what its entries spend.  The entries lead without a gap from the first price to the
      last. */
  lemma {:induction false} LedgerPays(c: Context, s: State, budget: nat)
    requires Legal(c, s)
    ensures Fits(c, s) && Legal(c, LastState(c, s, budget))
    ensures var y, l := LastState(c, s, budget), Ledger(c, s, budget);
      && Path(Legs(l), s.current, y.current, c.down)
      && EntriesOk(l, c.down, c.inputFee, s.remaining)
      && y.output - s.output
         == Worths(Legs(l), c.down) + TotalOf(s.orders) - TotalOf(y.orders) - OutputFees(l, c.down, c.inputFee)
      && s.remaining - y.remaining == Spent(l)
    decreases budget
  {
    hide Iterate, Legal, EntryOf, SpentOk, FilledOk, LegWorth, OutputFee, TotalOf, Fits, Path, Worths, OutputFees,
      Spent, EntriesOk, Legs;
    FitsLegal(c, s);
    FitsValid(c, s);
    var to := LastState(c, s, budget).current;
    NoEntries(to, c.down, c.inputFee);
    if budget == 0 || Done(c, s) {
    } else {
      Returns(c, s);
      match Iterate(c, s)
      case Continue(next) =>
        IteratePays(c, s);
        LedgerPays(c, next, budget - 1);
        Prepend(EntryOf(c, s, next), Ledger(c, next, budget - 1), c.down, c.inputFee, s.remaining, to);
      case Break(last) =>
        IteratePays(c, s);
        var e := EntryOf(c, s, last);
        assert [e] + [] == [e];
        Prepend(e, [], c.down, c.inputFee, s.remaining, to);
      case _ =>
    }
  }

  /** What a successful run pays and takes. */
  lemma RunPays(c: Context, s: State, budget: nat)
    requires Legal(c, s) && Run(c, s, budget).Ok?
    ensures Fits(c, s)
    ensures var x, l := Run(c, s, budget).value, Ledger(c, s, budget);
      && Path(Legs(l), s.current, x.current, c.down)
      && EntriesOk(l, c.down, c.inputFee, s.remaining)
      && x.output - s.output
         == Worths(Legs(l), c.down) + TotalOf(s.orders) - TotalOf(x.orders) - OutputFees(l, c.down, c.inputFee)
      && s.remaining - x.remaining == Spent(l)
  {
    hide Legal, TotalOf, Path, Worths, OutputFees, Spent, EntriesOk, Legs, Ledger, LastState, Run, Context.Valid;
    FitsLegal(c, s);
    RunStops(c, s, budget);
    LedgerPays(c, s, budget);
  }

  lemma NoEntries(at: nat, down: bool, inputFee: bool)
    ensures Path(Legs([]), at, at, down) && Worths(Legs([]), down) == 0 && OutputFees([], down, inputFee) == 0
    ensures Spent([]) == 0 && forall left: int :: EntriesOk([], down, inputFee, left)
  {
  }

  /** The totals of a ledger with one entry in front. */
  lemma Prepend(e: Entry, rest: seq<Entry>, down: bool, inputFee: bool, left: nat, to: nat)
    requires e.leg.rate < MILLION && Heads(e.leg.from, e.leg.to, down)
    requires SpentOk(e.leg, down, inputFee, left) && FilledOk(e, down, inputFee, left - e.leg.spent)
    requires EntriesOk(rest, down, inputFee, left - e.leg.spent - e.paid)
    ensures var l := [e] + rest;
      && EntriesOk(l, down, inputFee, left)
      && (Path(Legs(l), e.leg.from, to, down) <==> Path(Legs(rest), e.leg.to, to, down))
      && Worths(Legs(l), down) == LegWorth(e.leg, down) + Worths(Legs(rest), down)
      && OutputFees(l, down, inputFee) == OutputFee(LegWorth(e.leg, down), e.leg.rate, inputFee)
         + OutputFee(e.filled, e.leg.rate, inputFee) + OutputFees(rest, down, inputFee)
      && Spent(l) == e.leg.spent + e.paid + Spent(rest)
  {
    hide SpentOk, FilledOk, OutputFee, Path, Worths;
    assert ([e] + rest)[1..] == rest;
    LegBefore(e.leg, Legs(rest), to, down);
  }

  /** On a consistent pool every entry is made at the pool's liquidity plus the signed sum over exactly
      the ticks crossed before it, from a price that its tick fits. */
  lemma {:induction false} LedgerPlaces(c: Context, start: State, s: State, budget: nat)
    requires Legal(c, s) && Bracketed(c, s) && Follows(c, start, s) && LiquidityOf(c, start, s)
    ensures Fits(c, s)
    ensures forall i | 0 <= i < |Ledger(c, s, budget)| ::
      var leg := Ledger(c, s, budget)[i].leg;
      && leg.liquidity == start.liquidity + SumNet(c.Nodes(), c.down, start.tick, leg.tick)
      && Brackets(c.price, leg.tick, leg.from)
    decreases budget
  {
    hide Iterate, Legal, Fits, SumNet, Context.Nodes;
    FitsLegal(c, s);
    FitsValid(c, s);
    if budget == 0 || Done(c, s) {
    } else {
      match Iterate(c, s)
      case Continue(next) =>
        IterateSafe(c, start, s);
        LedgerPlaces(c, start, next, budget - 1);
      case _ =>
    }
  }

  /** What all orders of the given ticks offer, fresh and partly filled. */
  function Offered(ticks: seq<ClmmTick>): nat {
    if ticks == [] then 0
    else
      var t := ticks[|ticks| - 1];
      Offered(ticks[..|ticks| - 1]) + t.orders + t.partialOrders
  }

  lemma {:induction false} OfferedTotal(ticks: seq<ClmmTick>, orders: seq<nat>)
    requires |orders| == |ticks| && forall i | 0 <= i < |ticks| :: orders[i] == ticks[i].orders + ticks[i].partialOrders
    ensures TotalOf(orders) == Offered(ticks)
  {
    if ticks == [] {
    } else {
      OfferedTotal(ticks[..|ticks| - 1], orders[..|ticks| - 1]);
    }
  }

  /** What a quote pays and takes, in every fee mode and on any pool: the floored value of its
      stretches between the pool's price and the reported one, and what the orders lost, less the
      ceiled fees on the output. */
  lemma QuotePays(q: Request)
    requires q.Valid() && Quote(q).Ok?
    ensures q.ContextOf().Valid()
    ensures var r, c, x := Quote(q).value, q.ContextOf(), Run(q.ContextOf(), q.StartOf(), BUDGET);
      var l := Ledger(c, q.StartOf(), BUDGET);
      && x.Ok? && Path(Legs(l), q.pool.sqrtPrice, r.sqrtPrice, q.down) && EntriesOk(l, q.down, c.inputFee, q.amount)
      && r.amountOut == Worths(Legs(l), q.down) + Offered(q.ticks) - TotalOf(x.value.orders)
         - OutputFees(l, q.down, c.inputFee)
      && r.consumed == Spent(l)
  {
    QuoteRuns(q);
    OfferedTotal(q.ticks, q.StartOf().orders);
    hide Run, IsPriceMap, ClmmPrice.PriceAt, Request.ValidTick;
    RunPays(q.ContextOf(), q.StartOf(), BUDGET);
  }

  /** On a consistent pool the liquidity and the place of every entry follow from the pool and its ticks. */
  lemma QuotePlaces(q: Request, i: nat)
    requires q.ValidPool() && q.Valid() && Consistent(q.pool.tickCurrent, q.pool.sqrtPrice) && q.ContextOf().Valid()
    requires i < |Ledger(q.ContextOf(), q.StartOf(), BUDGET)|
    ensures var leg := Ledger(q.ContextOf(), q.StartOf(), BUDGET)[i].leg;
      && leg.liquidity == q.pool.liquidity + SumNet(q.ContextOf().Nodes(), q.down, q.pool.tickCurrent, leg.tick)
      && Consistent(leg.tick, leg.from)
  {
    hide Run, Context.Nodes, SumNet, ClmmPrice.PriceAt, Request.Valid, IsPriceMap, Ledger;
    StartLegal(q);
    LedgerPlaces(q.ContextOf(), q.StartOf(), q.StartOf(), BUDGET);
  }

  /** A movement that stops short uses its input up or leaves dust. */
  lemma ShortMove(c: Context, s: State, bound: nat, fee: nat)
    requires fee < MILLION && Move(c, s, bound, fee).Ok? && Move(c, s, bound, fee).value.current != bound
    ensures Move(c, s, bound, fee).value.remaining == 0 || Dust(c, Move(c, s, bound, fee).value)
  {
    hide Stop, Delta, OutputFee, Pinned;
    var rate := if c.inputFee then fee else 0;
    StepEnvelope(s.current, bound, s.liquidity, s.remaining, rate, c.down);
    if !c.inputFee { ShortIsPinned(s.current, bound, s.liquidity, s.remaining, c.down); }
  }

  /** A context of one range: no ticks and a static fee. */
  predicate OneRanged(c: Context) { c.ticks == [] && !c.enabled }

  lemma OneBound(c: Context, s: State)
    requires Legal(c, s) && OneRanged(c)
    ensures Fits(c, s) && BoundOf(c, s) == c.limit && FeeOf(c, s) == c.feeRate
    ensures Nearest(c, s, |c.ticks|) == None
    ensures c.price(NextTick(c, None)) == if c.down then c.floor else c.ceiling
  {
  }

  /** An iteration without ticks only moves. */
  lemma OneIteration(c: Context, s: State)
    requires Legal(c, s) && OneRanged(c) && !Done(c, s) && !Iterate(c, s).Fail?
    ensures Iterate(c, s).Continue? || Iterate(c, s).Break?
    ensures Move(c, s, c.limit, c.feeRate).Ok?
    ensures var m, x := Move(c, s, c.limit, c.feeRate).value, After(Iterate(c, s));
      && Legal(c, x) && x.current == m.current && x.remaining == m.remaining && x.output == m.output
      && x.liquidity == m.liquidity && (if c.down then c.limit <= m.current else m.current <= c.limit)
      && (Iterate(c, s).Break? ==> Done(c, x))
  {
    OneBound(c, s);
    hide Move, Bound, FeeAt, Nearest, BoundOf, FeeOf, IsPriceMap;
    AfterMove(c, s);
    MoveSafe(c, s, c.limit, c.feeRate);
    IterateDirected(c, s, s);
  }

  /** Without ticks a successful run is one movement. */
  lemma OneMovement(c: Context, s: State, budget: nat)
    requires Legal(c, s) && OneRanged(c) && !Done(c, s) && Run(c, s, budget).Ok?
    ensures Move(c, s, c.limit, c.feeRate).Ok?
    ensures var x, m := Run(c, s, budget).value, Move(c, s, c.limit, c.feeRate).value;
      x.current == m.current && x.remaining == m.remaining && x.output == m.output && Done(c, m)
  {
    hide Move, Iterate, Legal, OneRanged, Dust, Stuck;
    FitsLegal(c, s);
    FitsValid(c, s);
    assert budget > 0 && !Iterate(c, s).Fail?;
    OneIteration(c, s);
    var m, x := Move(c, s, c.limit, c.feeRate).value, After(Iterate(c, s));
    FitsLegal(c, x);
    if !Done(c, m) {
      ShortMove(c, s, c.limit, c.feeRate);
      StaysDust(c, m, x);
      StuckFails(c, x, budget - 1);
    } else if Iterate(c, s).Continue? {
      ClmmMonotone.RunEnds(c, x, budget - 1);
    }
  }

  lemma StaysDust(c: Context, m: State, x: State)
    requires Dust(c, m) && Legal(c, x) && OneRanged(c)
    requires x.current == m.current && x.liquidity == m.liquidity && x.remaining == m.remaining && m.current != c.limit
    ensures Fits(c, x) && Stuck(c, x)
  {
    hide Pinned, IsPriceMap;
    OneBound(c, x);
  }

  /** Exactly what one movement pays and takes, and how far it goes. */
  lemma MoveExact(c: Context, s: State, bound: nat, fee: nat, p: nat)
    requires Legal(c, s) && fee < MILLION && Move(c, s, bound, fee).Ok? && s.current != bound
    requires if c.down then bound <= p <= s.current else s.current <= p <= bound
    ensures 0 < p
    ensures var m := Move(c, s, bound, fee).value;
      && Heads(s.current, m.current, c.down)
      && var gross, cost := Worth(s.current, m.current, s.liquidity, c.down),
           Cost(s.current, m.current, s.liquidity, c.down);
      && m.output == s.output + gross - OutputFee(gross, fee, c.inputFee)
      && (!c.inputFee ==> s.remaining - m.remaining == cost)
      && (c.inputFee && m.current == bound ==> s.remaining - m.remaining == cost + FeeOn(cost, fee))
      && (c.inputFee && m.current != bound ==> m.remaining == 0)
      && (Cost(s.current, p, s.liquidity, c.down) <= Net(s.remaining, if c.inputFee then fee else 0)
          <==> if c.down then m.current <= p else p <= m.current)
  {
    hide Worth, Cost, Stop, Delta, Net, OutputFee;
    var rate := if c.inputFee then fee else 0;
    MovePays(c, s, bound, fee);
    StepEnvelope(s.current, bound, s.liquidity, s.remaining, rate, c.down);
    StepLeg(s.tick, s.group, s.current, bound, s.liquidity, s.remaining, fee, c.inputFee, c.down);
    StopFurthest(s.current, bound, s.liquidity, Net(s.remaining, rate), c.down, p);
    CostIsDelta(s.current, p, s.liquidity, c.down);
  }

  /** The whole quote of a pool without ticks at a static fee, on any pool: the floored value between
      the pool's price and the reported one, less its ceiled fee if that is taken from the output, for
      the ceiled cost, with its least fee if that is taken from the input; short of the limit the
      whole input is taken. */
  lemma OneRange(q: Request)
    requires q.Valid() && q.ticks == [] && !q.dynamic.enabled && Quote(q).Ok?
    ensures var r, inputFee := Quote(q).value, q.feeOn == 0 || (q.feeOn == 1 && q.down) || (q.feeOn == 2 && !q.down);
      && Heads(q.pool.sqrtPrice, r.sqrtPrice, q.down)
      && var gross, cost := Worth(q.pool.sqrtPrice, r.sqrtPrice, q.pool.liquidity, q.down),
           Cost(q.pool.sqrtPrice, r.sqrtPrice, q.pool.liquidity, q.down);
      && r.amountOut == gross - OutputFee(gross, q.pool.feeRate, inputFee)
      && (!inputFee ==> r.consumed == cost)
      && (inputFee && r.sqrtPrice == q.limit ==> r.consumed == cost + FeeOn(cost, q.pool.feeRate))
      && (inputFee && r.sqrtPrice != q.limit ==> r.consumed == q.amount)
  {
    hide Run, IsPriceMap, ClmmPrice.PriceAt, Request.ValidTick, Worth, Cost, OutputFee, Move, FeeOn;
    QuoteRuns(q);
    var c, s := q.ContextOf(), q.StartOf();
    FitsLegal(c, s);
    if q.amount == 0 {
      ClmmMonotone.RunEnds(c, s, BUDGET);
      NothingForNothing(s.current, s.liquidity, q.down);
      NoCredit(q.pool.feeRate, c.inputFee);
    } else {
      OneMovement(c, s, BUDGET);
      MoveExact(c, s, c.limit, c.feeRate, s.current);
    }
  }

  /** The reported price is the furthest, up to the limit, whose cost the input pays for. */
  lemma OneRangeFurthest(q: Request, p: nat)
    requires q.Valid() && q.ticks == [] && !q.dynamic.enabled && Quote(q).Ok? && 0 < q.amount
    requires if q.down then q.limit <= p <= q.pool.sqrtPrice else q.pool.sqrtPrice <= p <= q.limit
    ensures 0 < p
    ensures var inputFee := q.feeOn == 0 || (q.feeOn == 1 && q.down) || (q.feeOn == 2 && !q.down);
      Cost(q.pool.sqrtPrice, p, q.pool.liquidity, q.down)
        * MILLION <= q.amount * (MILLION - if inputFee then q.pool.feeRate else 0)
      <==> if q.down then Quote(q).value.sqrtPrice <= p else p <= Quote(q).value.sqrtPrice
  {
    hide Run, IsPriceMap, ClmmPrice.PriceAt, Request.ValidTick, Worth, Cost, OutputFee, Move, Net;
    QuoteRuns(q);
    var c, s := q.ContextOf(), q.StartOf();
    OneMovement(c, s, BUDGET);
    MoveExact(c, s, c.limit, c.feeRate, p);
    NetIff(q.amount, if c.inputFee then c.feeRate else 0, Cost(q.pool.sqrtPrice, p, q.pool.liquidity, q.down));
  }
}
