/** What a Whirlpool quote pays and takes: the ledger of a run, and its totals. */
module WhirlpoolPayout {
  import opened Arith
  import opened Outcomes
  import opened TickMap
  import opened ClmmStep
  import opened Traversal
  import opened WhirlpoolSwap
  import opened WhirlpoolSafety
  import opened WhirlpoolEngine
  import opened Payout
  import WhirlpoolPrice

  /** What an iteration from `s` that leaves `x` did. */
  function LegOf(c: Context, s: State, x: State): Leg
    requires c.Valid()
  {
    Leg(s.tick, s.group, s.current, x.current, s.liquidity, FeeAt(c, s.group), s.remaining - x.remaining)
  }

  /** The legs of a run, one for each iteration. */
  function Ledger(c: Context, s: State, budget: nat): seq<Leg>
    requires c.Valid()
    decreases budget
  {
    if budget == 0 then []
    else
      match Iterate(c, s)
      case Continue(next) => [LegOf(c, s, next)] + Ledger(c, next, budget - 1)
      case _ => []
  }

  /** Every leg spends rightly out of what the earlier ones left. */
  predicate LegsOk(legs: seq<Leg>, down: bool, left: int) {
    legs == [] || (
      && 0 <= left && Heads(legs[0].from, legs[0].to, down)
      && SpentOk(legs[0], down, true, left)
      && LegsOk(legs[1..], down, left - legs[0].spent))
  }

  /** The input spent. */
  function Spent(legs: seq<Leg>): int { if legs == [] then 0 else legs[0].spent + Spent(legs[1..]) }

  function LegCost(leg: Leg, down: bool): nat {
    if Heads(leg.from, leg.to, down) then Cost(leg.from, leg.to, leg.liquidity, down) else 0
  }

  /** The ceiled costs of all legs, without fees. */
  function Costs(legs: seq<Leg>, down: bool): nat {
    if legs == [] then 0 else LegCost(legs[0], down) + Costs(legs[1..], down)
  }

  function LeastRate(legs: seq<Leg>): nat
    requires legs != []
  {
    if |legs| == 1 then legs[0].rate else Min(legs[0].rate, LeastRate(legs[1..]))
  }

  function GreatestRate(legs: seq<Leg>): nat
    requires legs != []
  {
    if |legs| == 1 then legs[0].rate else Max(legs[0].rate, GreatestRate(legs[1..]))
  }

  /** The totals of a ledger with one leg in front. */
  lemma Prepend(leg: Leg, rest: seq<Leg>, down: bool, left: nat, to: nat)
    requires Heads(leg.from, leg.to, down) && SpentOk(leg, down, true, left) && LegsOk(rest, down, left - leg.spent)
    ensures var l := [leg] + rest;
      && LegsOk(l, down, left)
      && (Path(l, leg.from, to, down) <==> Path(rest, leg.to, to, down))
      && Worths(l, down) == LegWorth(leg, down) + Worths(rest, down)
      && Costs(l, down) == LegCost(leg, down) + Costs(rest, down)
      && Spent(l) == leg.spent + Spent(rest)
      && LeastRate(l) == (if rest == [] then leg.rate else Min(leg.rate, LeastRate(rest)))
      && GreatestRate(l) == (if rest == [] then leg.rate else Max(leg.rate, GreatestRate(rest)))
  {
    hide SpentOk, Path, Worths, LegCost;
    assert ([leg] + rest)[1..] == rest;
    LegBefore(leg, rest, to, down);
  }

  /** One step does exactly what its leg says. */
  lemma MovePays(c: Context, s: State, bound: nat, fee: nat)
    requires fee < MILLION && Move(c, s, bound, fee).Ok?
    ensures var m := Move(c, s, bound, fee).value;
      var leg := Leg(s.tick, s.group, s.current, m.current, s.liquidity, fee, s.remaining - m.remaining);
      && Heads(s.current, m.current, c.down)
      && SpentOk(leg, c.down, true, s.remaining)
      && m.output == s.output + LegWorth(leg, c.down)
      && m.fees == s.fees + leg.spent - LegCost(leg, c.down)
      && m.minimumFee == (if s.first then fee else Min(s.minimumFee, fee))
      && m.maximumFee == (if s.first then fee else Max(s.maximumFee, fee)) && !m.first
  {
    hide SwapStep, Worth, Cost;
    StepLeg(s.tick, s.group, s.current, bound, s.liquidity, s.remaining, fee, true, c.down);
  }

  lemma IteratePays(c: Context, s: State)
    requires Legal(c, s) && Iterate(c, s).Continue?
    ensures var x := Iterate(c, s).next;
      var leg := LegOf(c, s, x);
      && Legal(c, x) && Heads(s.current, x.current, c.down)
      && SpentOk(leg, c.down, true, s.remaining)
      && x.output == s.output + LegWorth(leg, c.down)
      && x.fees == s.fees + leg.spent - LegCost(leg, c.down)
      && x.minimumFee == (if s.first then leg.rate else Min(s.minimumFee, leg.rate))
      && x.maximumFee == (if s.first then leg.rate else Max(s.maximumFee, leg.rate)) && !x.first
  {
    hide Move, Settle, NextGroup, FeeAt, Nearest, SpanOf, Iterate, IsPriceMap, LegWorth, LegCost, SpentOk;
    IterateMoves(c, s);
    var index := Nearest(c.nodes, c.down, s.tick, |c.nodes|);
    var bound := SpanOf(c, s, Target(c, c.price(NextTick(c, index)))).value.bound;
    MovePays(c, s, bound, FeeAt(c, s.group));
    SettleFields(c, s.current, Move(c, s, bound, FeeAt(c, s.group)).value, index, NextTick(c, index));
  }

  lemma NoLegs(at: nat, down: bool)
    ensures Path([], at, at, down) && Worths([], down) == 0 && Costs([], down) == 0 && Spent([]) == 0
    ensures forall left: int :: LegsOk([], down, left)
  {
  }

  /** The state in which a run stops, successful or not. */
  function LastState(c: Context, s: State, budget: nat): State
    requires c.Valid()
    decreases budget
  {
    if budget == 0 then s
    else
      match Iterate(c, s)
      case Continue(next) => LastState(c, next, budget - 1)
      case _ => s
  }

  /** How a run ends in its last state. */
  lemma {:induction false} RunStops(c: Context, s: State, budget: nat)
    requires c.Valid()
    ensures var r, y := Run(c, s, budget), LastState(c, s, budget);
      if r.Ok? then r.value == y && Done(c, y) else r.error == BudgetExhausted || Iterate(c, y) == Fail(r.error)
    decreases budget
  {
    hide Iterate;
    if budget == 0 {
    } else {
      ReturnDone(c, s);
      match Iterate(c, s)
      case Continue(next) => RunStops(c, next, budget - 1);
      case _ =>
    }
  }

  /** What a run has paid and taken where it stops, adaptive or not and from any pool: the floored value of
      every stretch at constant liquidity; what it takes is what its legs spend, and everything spent
      beyond their ceiled costs is reported as fees.  The reported rates are the least and the greatest of
      the legs. */
  lemma {:induction false} LedgerPays(c: Context, s: State, budget: nat)
    requires Legal(c, s)
    ensures c.Valid() && Legal(c, LastState(c, s, budget))
    ensures var y, l := LastState(c, s, budget), Ledger(c, s, budget);
      && Path(l, s.current, y.current, c.down) && LegsOk(l, c.down, s.remaining)
      && y.output - s.output == Worths(l, c.down)
      && s.remaining - y.remaining == Spent(l)
      && y.fees - s.fees == Spent(l) - Costs(l, c.down)
      && (l != [] ==> y.minimumFee == if s.first then LeastRate(l) else Min(s.minimumFee, LeastRate(l)))
      && (l != [] ==> y.maximumFee == if s.first then GreatestRate(l) else Max(s.maximumFee, GreatestRate(l)))
      && (l == [] ==> y == s)
    decreases budget
  {
    hide Iterate, Legal, SpentOk, LegWorth, LegCost, Path, Worths, Costs, Spent, LegsOk, LeastRate, GreatestRate, FeeAt;
    LegalValid(c, s);
    var to := LastState(c, s, budget).current;
    NoLegs(to, c.down);
    if budget == 0 {
    } else {
      match Iterate(c, s)
      case Continue(next) =>
        IteratePays(c, s);
        LedgerPays(c, next, budget - 1);
        Prepend(LegOf(c, s, next), Ledger(c, next, budget - 1), c.down, s.remaining, to);
      case _ =>
    }
  }

  /** What a successful run pays and takes. */
  lemma RunPays(c: Context, s: State, budget: nat)
    requires Legal(c, s) && Run(c, s, budget).Ok?
    ensures var x, l := Run(c, s, budget).value, Ledger(c, s, budget);
      && Path(l, s.current, x.current, c.down) && LegsOk(l, c.down, s.remaining)
      && x.output - s.output == Worths(l, c.down)
      && s.remaining - x.remaining == Spent(l)
      && x.fees - s.fees == Spent(l) - Costs(l, c.down)
      && (l != [] ==> x.minimumFee == if s.first then LeastRate(l) else Min(s.minimumFee, LeastRate(l)))
      && (l != [] ==> x.maximumFee == if s.first then GreatestRate(l) else Max(s.maximumFee, GreatestRate(l)))
      && (l == [] ==> x == s)
  {
    hide Legal, Path, Worths, Costs, Spent, LegsOk, LeastRate, GreatestRate, Ledger, Run, LastState;
    LegalValid(c, s);
    RunStops(c, s, budget);
    LedgerPays(c, s, budget);
  }

  lemma LegalValid(c: Context, s: State)
    requires Legal(c, s)
    ensures c.Valid()
  {
  }

  /** On a consistent pool every leg is made at the pool's liquidity plus the signed sum over exactly the
      ticks crossed before it, from a price that its tick fits. */
  lemma {:induction false} LedgerPlaces(c: Context, start: State, s: State, budget: nat)
    requires Legal(c, s) && Bracketed(c, s) && LiquidityOf(c, start, s)
    ensures forall i | 0 <= i < |Ledger(c, s, budget)| ::
      var leg := Ledger(c, s, budget)[i];
      && leg.liquidity == start.liquidity + SumNet(c.nodes, c.down, start.tick, leg.tick)
      && Brackets(c.price, leg.tick, leg.from)
    decreases budget
  {
    hide Iterate, Legal, SumNet, FeeAt;
    LegalValid(c, s);
    if budget == 0 {
    } else {
      match Iterate(c, s)
      case Continue(next) =>
        IteratePosition(c, start, s);
        LedgerPlaces(c, start, next, budget - 1);
      case _ =>
    }
  }

  /** What a quote pays and takes, adaptive or not and on any pool: the floored value of its stretches
      between the pool's price and the reported one; the reported fee is what the input exceeds their
      ceiled costs by; the reported rates are the least and the greatest charged. */
  lemma QuotePays(q: Request)
    requires q.Valid() && Quote(q).Ok?
    ensures q.ContextOf().Valid()
    ensures var r, l := Quote(q).value, Ledger(q.ContextOf(), q.StartOf(), BUDGET);
      && l != [] && Path(l, q.pool.sqrtPrice, r.sqrtPrice, q.down) && LegsOk(l, q.down, q.amount)
      && r.amountOut == Worths(l, q.down)
      && r.consumed == Spent(l) && r.fee == Spent(l) - Costs(l, q.down)
      && r.minimumFeeRate == LeastRate(l) && r.maximumFeeRate == GreatestRate(l)
  {
    hide Run, Context.Valid, Request.Valid, IsPriceMap, WhirlpoolPrice.PriceAt, Ledger;
    QuoteRuns(q);
    StartLegal(q);
    RunPays(q.ContextOf(), q.StartOf(), BUDGET);
    StartMoves(q.ContextOf(), q.StartOf(), BUDGET);
  }

  lemma StartMoves(c: Context, s: State, budget: nat)
    requires c.Valid() && !Done(c, s) && Run(c, s, budget).Ok?
    ensures Ledger(c, s, budget) != []
  {
    hide Iterate, FeeAt;
    ReturnDone(c, s);
  }

  lemma QuotePlaces(q: Request, i: nat)
    requires q.Valid() && Consistent(q.pool.tickCurrent, q.pool.sqrtPrice) && q.ContextOf().Valid()
    requires i < |Ledger(q.ContextOf(), q.StartOf(), BUDGET)|
    ensures var leg := Ledger(q.ContextOf(), q.StartOf(), BUDGET)[i];
      && leg.liquidity == q.pool.liquidity + SumNet(q.Nodes(), q.down, q.pool.tickCurrent, leg.tick)
      && Consistent(leg.tick, leg.from)
  {
    hide Context.Valid, Request.Valid, IsPriceMap, WhirlpoolPrice.PriceAt, SumNet, Ledger;
    StartLegal(q);
    LedgerPlaces(q.ContextOf(), q.StartOf(), q.StartOf(), BUDGET);
  }

  /** Exactly what one movement pays and takes, and how far it goes. */
  lemma MoveExact(c: Context, s: State, bound: nat, fee: nat, p: nat)
    requires fee < MILLION && Move(c, s, bound, fee).Ok?
    requires if c.down then 0 < bound <= p <= s.current else s.current <= p <= bound
    ensures Heads(s.current, p, c.down)
    ensures var m := Move(c, s, bound, fee).value;
      && Heads(s.current, m.current, c.down)
      && var cost := Cost(s.current, m.current, s.liquidity, c.down);
      && m.output == s.output + Worth(s.current, m.current, s.liquidity, c.down)
      && m.fees - s.fees == s.remaining - m.remaining - cost
      && (m.current == bound ==> m.fees - s.fees == FeeOn(cost, fee))
      && (m.current != bound ==> m.remaining == 0)
      && (Cost(s.current, p, s.liquidity, c.down) <= Net(s.remaining, fee)
          <==> if c.down then m.current <= p else p <= m.current)
  {
    hide Worth, Cost, Stop, Delta, Net;
    StepEnvelope(s.current, bound, s.liquidity, s.remaining, fee, c.down);
    StepLeg(s.tick, s.group, s.current, bound, s.liquidity, s.remaining, fee, true, c.down);
    StopFurthest(s.current, bound, s.liquidity, Net(s.remaining, fee), c.down, p);
    CostIsDelta(s.current, p, s.liquidity, c.down);
  }

  /** A context of one range: no ticks and a static fee. */
  predicate OneRanged(c: Context) { c.nodes == [] && c.adaptive.None? }

  /** The price where a context of one range ends: its limit or the end of the loaded arrays. */
  function Edge(c: Context): nat
    requires c.Valid()
  {
    if c.down then Max(c.price(c.lower), c.limit) else Min(c.price(c.upper), c.limit)
  }

  /** An iteration without ticks only moves, to the limit or with all of its input. */
  lemma OneIteration(c: Context, s: State)
    requires Legal(c, s) && OneRanged(c) && Iterate(c, s).Continue?
    ensures c.Valid() && Move(c, s, Edge(c), c.feeRate).Ok?
    ensures var m, x := Move(c, s, Edge(c), c.feeRate).value, Iterate(c, s).next;
      && x == m.(tick := x.tick) && (m.current == c.limit || m.remaining == 0 || OutOfArrays(c, x))
      && (m.current == c.limit ==> Edge(c) == c.limit)
  {
    hide Move, IsPriceMap;
    MoveSafe(c, s, Edge(c), c.feeRate);
  }

  /** Without ticks a successful run is one movement, to the limit or with all of its input. */
  lemma OneMovement(c: Context, s: State, budget: nat)
    requires Legal(c, s) && OneRanged(c) && !Done(c, s) && Run(c, s, budget).Ok?
    ensures c.Valid() && Move(c, s, Edge(c), c.feeRate).Ok?
    ensures var x, m := Run(c, s, budget).value, Move(c, s, Edge(c), c.feeRate).value;
      && x == m.(tick := x.tick) && Done(c, m) && (m.current == c.limit ==> Edge(c) == c.limit)
  {
    hide Move, Iterate, OneRanged, Edge, IsPriceMap;
    ReturnDone(c, s);
    OneIteration(c, s);
    var x := Iterate(c, s).next;
    ReturnDone(c, x);
    if !Done(c, x) { Stops(c, x); }
  }

  lemma Stops(c: Context, s: State)
    requires c.Valid() && OutOfArrays(c, s)
    ensures !Iterate(c, s).Continue?
  {
    hide Move, Settle, NextGroup, FeeAt, Nearest, SpanOf;
  }

  /** The whole quote of a pool without initialised ticks at a static fee, on any pool: the floored value
      between the pool's price and the reported one, for its ceiled cost and the reported fee, which is
      the least that carries the rate when the limit is reached and everything that is left when not. */
  lemma OneRange(q: Request)
    requires q.Valid() && q.ticks == [] && q.adaptive.None? && Quote(q).Ok?
    ensures var r := Quote(q).value;
      && Heads(q.pool.sqrtPrice, r.sqrtPrice, q.down)
      && var cost := Cost(q.pool.sqrtPrice, r.sqrtPrice, q.pool.liquidity, q.down);
      && r.amountOut == Worth(q.pool.sqrtPrice, r.sqrtPrice, q.pool.liquidity, q.down)
      && r.consumed == cost + r.fee
      && (r.sqrtPrice == q.Limit() ==> r.fee == FeeOn(cost, q.pool.feeRate))
      && (r.sqrtPrice != q.Limit() ==> r.consumed == q.amount)
  {
    hide Run, IsPriceMap, WhirlpoolPrice.PriceAt, Worth, Cost, Move, FeeOn, Edge;
    QuoteRuns(q);
    StartLegal(q);
    var c, s := q.ContextOf(), q.StartOf();
    OneMovement(c, s, BUDGET);
    EdgeAhead(c, s);
    MoveExact(c, s, Edge(c), c.feeRate, s.current);
  }

  /** The reported price is the furthest, up to the limit and inside the arrays, whose cost the input
      pays for. */
  lemma OneRangeFurthest(q: Request, p: nat)
    requires q.Valid() && q.ticks == [] && q.adaptive.None? && Quote(q).Ok?
    requires if q.down then WhirlpoolPrice.PriceAt(q.Lower()) <= p && q.Limit() <= p <= q.pool.sqrtPrice
      else p <= WhirlpoolPrice.PriceAt(q.Upper()) && q.pool.sqrtPrice <= p <= q.Limit()
    ensures Heads(q.pool.sqrtPrice, p, q.down)
    ensures Cost(q.pool.sqrtPrice, p, q.pool.liquidity, q.down) * MILLION <= q.amount * (MILLION - q.pool.feeRate)
      <==> if q.down then Quote(q).value.sqrtPrice <= p else p <= Quote(q).value.sqrtPrice
  {
    hide Run, IsPriceMap, WhirlpoolPrice.PriceAt, Worth, Cost, Move, Net;
    QuoteRuns(q);
    StartLegal(q);
    var c, s := q.ContextOf(), q.StartOf();
    OneMovement(c, s, BUDGET);
    EdgeAhead(c, s);
    MoveExact(c, s, Edge(c), c.feeRate, p);
    NetIff(q.amount, q.pool.feeRate, Cost(q.pool.sqrtPrice, p, q.pool.liquidity, q.down));
  }

  lemma EdgeAhead(c: Context, s: State)
    requires Legal(c, s) && OneRanged(c) && Move(c, s, Edge(c), c.feeRate).Ok?
    ensures if c.down then 0 < Edge(c) <= s.current else s.current <= Edge(c)
  {
  }
}
