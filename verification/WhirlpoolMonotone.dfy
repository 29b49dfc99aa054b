/** Two inputs to the same Whirlpool pool: the larger one never gets less. */
module WhirlpoolMonotone {
  import opened Outcomes
  import opened TickMap
  import opened ClmmStep
  import opened StepMonotone
  import opened WhirlpoolSwap
  import opened WhirlpoolEngine

  /** The same position and amounts so far, with at least as much input left. */
  predicate Paired(s: State, t: State) { t == s.(remaining := t.remaining) && s.remaining <= t.remaining }

  /** The smaller input is used up, with no more output than the larger one has. */
  predicate Outrun(s: State, t: State) { s.remaining == 0 && s.output <= t.output }

  lemma MovePair(c: Context, s: State, t: State, bound: nat, fee: nat)
    requires fee < MILLION && Paired(s, t) && Move(c, s, bound, fee).Ok? && Move(c, t, bound, fee).Ok?
    ensures var u, v := Move(c, s, bound, fee).value, Move(c, t, bound, fee).value; Paired(u, v) || Outrun(u, v)
  {
    hide SwapStep;
    StepPair(s.current, bound, s.liquidity, s.remaining, t.remaining, fee, c.down);
  }

  lemma SettlePair(c: Context, before: nat, u: State, v: State, index: Option<nat>, nextTick: int)
    requires c.Valid() && (index.Some? ==> index.value < |c.nodes|)
    requires Settle(c, before, u, index, nextTick).Ok? && Settle(c, before, v, index, nextTick).Ok?
    ensures var x, y := Settle(c, before, u, index, nextTick).value, Settle(c, before, v, index, nextTick).value;
      && (Paired(u, v) ==> Paired(x, y)) && (Outrun(u, v) ==> Outrun(x, y))
  {
  }

  lemma SpanSame(c: Context, s: State, t: State, target: nat)
    requires Paired(s, t)
    ensures SpanOf(c, s, target) == SpanOf(c, t, target)
  {
  }

  lemma GroupSame(c: Context, x: State, y: State, group: int, skipped: bool, nextTick: int)
    requires c.Valid() && Paired(x, y)
    ensures NextGroup(c, x, group, skipped, nextTick) == NextGroup(c, y, group, skipped, nextTick)
  {
  }

  lemma IteratePair(c: Context, s: State, t: State)
    requires c.Valid() && Paired(s, t) && Iterate(c, s).Continue? && Iterate(c, t).Continue?
    ensures Paired(Iterate(c, s).next, Iterate(c, t).next) || Outrun(Iterate(c, s).next, Iterate(c, t).next)
  {
    hide Move, Settle, NextGroup, FeeAt, Nearest, SpanOf, Context.Valid;
    var index := Nearest(c.nodes, c.down, s.tick, |c.nodes|);
    var nextTick := NextTick(c, index);
    var target := Target(c, c.price(nextTick));
    SpanSame(c, s, t, target);
    var span := SpanOf(c, s, target).value;
    FeeUsable(c);
    var fee := FeeAt(c, s.group);
    MovePair(c, s, t, span.bound, fee);
    var u, v := Move(c, s, span.bound, fee).value, Move(c, t, span.bound, fee).value;
    SettlePair(c, s.current, u, v, index, nextTick);
    var x, y := Settle(c, s.current, u, index, nextTick).value, Settle(c, s.current, v, index, nextTick).value;
    if Paired(x, y) { GroupSame(c, x, y, s.group, span.skipped, nextTick); }
  }

  lemma FeeUsable(c: Context)
    requires c.Valid()
    ensures c.feeRate <= 65535
  {
  }

  lemma IterateGrows(c: Context, s: State)
    requires c.Valid() && Iterate(c, s).Continue?
    ensures s.output <= Iterate(c, s).next.output
  {
    hide SwapStep, NextGroup, Nearest, SpanOf, FeeAt, IsPriceMap;
  }

  lemma {:induction false} RunGrows(c: Context, s: State, budget: nat)
    requires c.Valid() && Run(c, s, budget).Ok?
    ensures s.output <= Run(c, s, budget).value.output
    decreases budget
  {
    hide Iterate, Context.Valid;
    match Iterate(c, s)
    case Continue(next) =>
      IterateGrows(c, s);
      RunGrows(c, next, budget - 1);
    case _ =>
  }

  /** Over whole runs, adaptive or not: with the same start the larger input gets at least as much. */
  lemma {:induction false} RunMonotone(c: Context, s: State, t: State, budget: nat)
    requires c.Valid() && Paired(s, t) && Run(c, s, budget).Ok? && Run(c, t, budget).Ok?
    ensures Run(c, s, budget).value.output <= Run(c, t, budget).value.output
    decreases budget
  {
    hide Iterate, Context.Valid;
    Returns(c, s);
    Returns(c, t);
    if s.remaining == 0 {
      RunGrows(c, t, budget);
    } else if s.current != c.limit {
      IteratePair(c, s, t);
      var x, y := Iterate(c, s).next, Iterate(c, t).next;
      if Paired(x, y) {
        RunMonotone(c, x, y, budget - 1);
      } else {
        Returns(c, x);
        RunGrows(c, y, budget - 1);
      }
    }
  }

  lemma Returns(c: Context, s: State)
    requires c.Valid()
    ensures Iterate(c, s).Return? <==> Done(c, s)
  {
    hide Move, Settle, NextGroup, FeeAt, Nearest, SpanOf;
  }

  /** The whole quote, adaptive or not, is monotone in its input. */
  lemma QuoteMonotone(q: Request, larger: nat)
    requires q.amount <= larger && Quote(q).Ok? && Quote(q.(amount := larger)).Ok?
    ensures Quote(q).value.amountOut <= Quote(q.(amount := larger)).value.amountOut
  {
    hide Run, Context.Valid, IsPriceMap;
    var r := q.(amount := larger);
    QuoteRuns(q);
    QuoteRuns(r);
    SameStart(q, larger);
    RunMonotone(q.ContextOf(), q.StartOf(), r.StartOf(), BUDGET);
  }

  lemma SameStart(q: Request, larger: nat)
    requires q.amount <= larger && q.Valid() && q.(amount := larger).Valid()
    ensures q.ContextOf() == q.(amount := larger).ContextOf() && Paired(q.StartOf(), q.(amount := larger).StartOf())
  {
  }
}
