/** Volatility groups of a CLMM quote with dynamic fees: the price never leaves the group whose fee is
    charged, unless that fee is saturated. */
module ClmmGroups {
  import opened Arith
  import opened Outcomes
  import opened TickMap
  import opened ClmmStep
  import opened Traversal
  import opened ClmmSwap
  import opened ClmmSafety
  import opened ClmmProgress
  import opened ClmmEngine
  import opened ClmmMonotone
  import opened Payout
  import opened Groups
  import opened ClmmPayout
  import ClmmPrice

  /** Every tick stands on a group boundary. */
  predicate Aligned(c: Context) {
    c.tickSpacing > 0 && forall i | 0 <= i < |c.ticks| :: c.ticks[i].tick % c.tickSpacing == 0
  }

  /** The next tick is not nearer than the far end of the group, nor the price before its near end. */
  predicate GroupOk(c: Context, s: State)
    requires Fits(c, s)
  {
    var t := NextTick(c, Nearest(c, s, |c.ticks|));
    if c.down then t <= Low(c.tickSpacing, s.group) && s.current <= c.price(Low(c.tickSpacing, s.group + 1))
    else Low(c.tickSpacing, s.group + 1) <= t && c.price(Low(c.tickSpacing, s.group)) <= s.current
  }

  /** A movement that skips no group stays inside its own. */
  lemma StaysInGroup(c: Context, s: State)
    requires Legal(c, s) && Fits(c, s) && GroupOk(c, s) && !Skips(c, s)
    requires Move(c, s, BoundOf(c, s), FeeOf(c, s)).Ok?
    ensures InGroup(c.price, c.tickSpacing, s.group, s.current)
    ensures InGroup(c.price, c.tickSpacing, s.group, Moved(c, s).current)
  {
    hide Move, FeeAt, Nearest, IsPriceMap, Volatility;
    MoveSafe(c, s, BoundOf(c, s), FeeOf(c, s));
  }

  /** A next tick that is strictly beyond a group boundary is not nearer than the one after. */
  lemma NextGroupOn(c: Context, x: State, group: int)
    requires c.Valid() && Aligned(c) && |x.orders| == |c.ticks|
    requires var index := Nearest(c, x, |c.ticks|); index.Some? ==>
        if c.down then c.ticks[index.value].tick < Low(c.tickSpacing, group)
        else Low(c.tickSpacing, group) < c.ticks[index.value].tick
    ensures var t := NextTick(c, Nearest(c, x, |c.ticks|));
      if c.down then t <= Low(c.tickSpacing, group - 1) else Low(c.tickSpacing, group + 1) <= t
  {
    hide Nearest, IsPriceMap;
    var index := Nearest(c, x, |c.ticks|);
    if index.Some? {
      if c.down {
        AlignedBelow(c.ticks[index.value].tick, group, c.tickSpacing);
      } else {
        AlignedAbove(c.ticks[index.value].tick, group, c.tickSpacing);
      }
    }
  }

  /** Equal prices stand on equal ticks. */
  lemma SameTick(c: Context, a: int, b: int)
    requires c.Valid() && TickInRange(a) && TickInRange(b)
    ensures c.price(a) == c.price(b) ==> a == b
    ensures a < b ==> c.price(a) < c.price(b)
  {
    if a < b {
      Increasing(c.price, c.floor, c.ceiling, a, b);
    } else {
      Increasing(c.price, c.floor, c.ceiling, b, a);
    }
  }

  /** The end of a group in the direction of the swap. */
  function FarEnd(c: Context, group: int): int { Low(c.tickSpacing, if c.down then group else group + 1) }

  /** Having crossed a tick, at the boundary that the group counter stands for. */
  lemma CrossedInto(c: Context, s: State, x: State, i: nat, boundary: int)
    requires Legal(c, x) && Aligned(c) && Fits(c, x) && i < |c.ticks|
    requires x.tick == (if c.down then c.ticks[i].tick - 1 else c.ticks[i].tick)
    requires x.current == c.price(c.ticks[i].tick) && c.ticks[i].tick == Low(c.tickSpacing, boundary)
    requires x.group == if c.down then boundary - 1 else boundary
    ensures GroupOk(c, x)
  {
    hide Nearest, IsPriceMap, Clamp;
    NextGroupOn(c, x, boundary);
  }

  /** After a tick is crossed the next group is the one beyond it. */
  lemma CrossedGroup(c: Context, s: State, i: nat)
    requires Legal(c, s) && Fits(c, s) && Aligned(c) && c.enabled && GroupOk(c, s)
    requires Nearest(c, s, |c.ticks|) == Some(i) && Move(c, s, BoundOf(c, s), FeeOf(c, s)).Ok?
    requires Moved(c, s).current == c.price(c.ticks[i].tick)
    ensures var next := NextGroup(c, s.group, Skips(c, s), c.ticks[i].tick);
      c.ticks[i].tick == Low(c.tickSpacing, if c.down then next + 1 else next)
  {
    hide Nearest, IsPriceMap, Move, FeeAt, BoundOf, FeeOf;
    var t := c.ticks[i].tick;
    assert t == t / c.tickSpacing * c.tickSpacing;
    if !Skips(c, s) {
      StaysInGroup(c, s);
      SameTick(c, t, FarEnd(c, s.group));
      SameTick(c, FarEnd(c, s.group), t);
    }
  }

  /** A movement to its bound that neither ends the run nor arrives at the next tick ends on the far end
      of its group. */
  lemma EndsOnBoundary(c: Context, s: State)
    requires Legal(c, s) && Fits(c, s) && !Done(c, s) && Move(c, s, BoundOf(c, s), FeeOf(c, s)).Ok?
    requires var m := Moved(c, s);
      !Done(c, m) && m.current == BoundOf(c, s) && m.current != c.price(NextTick(c, Nearest(c, s, |c.ticks|)))
    ensures !Skips(c, s) && Moved(c, s).current == c.price(FarEnd(c, s.group))
  {
    hide Nearest, IsPriceMap, Move, FeeAt, Volatility;
  }

  /** Short of the next tick, the following group begins where the movement ended. */
  lemma BoundaryGroup(c: Context, s: State, x: State)
    requires Legal(c, s) && Fits(c, s) && Aligned(c) && GroupOk(c, s) && Legal(c, x) && Fits(c, x)
    requires x.current == c.price(FarEnd(c, s.group)) && x.orders == s.orders
    requires x.current != c.price(NextTick(c, Nearest(c, s, |c.ticks|)))
    requires if c.down then x.tick <= s.tick else s.tick <= x.tick
    requires x.group == if c.down then s.group - 1 else s.group + 1
    ensures GroupOk(c, x)
  {
    hide IsPriceMap, Clamp;
    var index := Nearest(c, x, |c.ticks|);
    if index.Some? { assert Live(c, s, index.value); }
    NextGroupOn(c, x, if c.down then s.group else s.group + 1);
  }

  /** After an iteration the price stands in the group that is charged next, unless the run is over or
      stuck. */
  lemma GroupAfter(c: Context, s: State)
    requires Legal(c, s) && Bracketed(c, s) && Fits(c, s) && Aligned(c) && c.enabled && GroupOk(c, s)
    requires Q64 <= c.floor * c.floor && !Done(c, s) && Iterate(c, s).Continue?
    ensures var x := Iterate(c, s).next;
      Fits(c, x) && (Done(c, x) || Stuck(c, x) || GroupOk(c, x))
  {
    KeepsFit(c, s);
    AfterMove(c, s);
    IterateDirected(c, s, s);
    var m, x, index := Moved(c, s), Iterate(c, s).next, Nearest(c, s, |c.ticks|);
    if m.current == c.price(NextTick(c, index)) {
      Crossed(c, s);
    } else {
      Uncrossed(c, s);
    }
  }

  lemma Crossed(c: Context, s: State)
    requires Legal(c, s) && Bracketed(c, s) && Fits(c, s) && Aligned(c) && c.enabled && GroupOk(c, s)
    requires Q64 <= c.floor * c.floor && !Done(c, s) && Iterate(c, s).Continue?
    requires Moved(c, s).current == c.price(NextTick(c, Nearest(c, s, |c.ticks|)))
    ensures var x := Iterate(c, s).next; Fits(c, x) && (Done(c, x) || GroupOk(c, x))
  {
    hide Move, TakeOrders, Nearest, NextGroup, IsPriceMap, GroupOk, FeeAt, Bound, Skips;
    KeepsFit(c, s);
    AfterMove(c, s);
    IterateDirected(c, s, s);
    MovedState(c, s);
    var m, x, i, fee := Moved(c, s), Iterate(c, s).next, Nearest(c, s, |c.ticks|).value, FeeOf(c, s);
    OrdersProgress(c, m, i, fee);
    TakePlace(c, m, i, fee);
    CrossedGroup(c, s, i);
    if !Done(c, x) { CrossedInto(c, s, x, i, if c.down then x.group + 1 else x.group); }
  }

  lemma MoveEnds(c: Context, s: State)
    requires Fits(c, s) && Move(c, s, BoundOf(c, s), FeeOf(c, s)).Ok?
    ensures s.current == BoundOf(c, s) ==> Moved(c, s).current == s.current
  {
  }

  lemma Uncrossed(c: Context, s: State)
    requires Legal(c, s) && Bracketed(c, s) && Fits(c, s) && Aligned(c) && c.enabled && GroupOk(c, s)
    requires !Done(c, s) && Iterate(c, s).Continue?
    requires Moved(c, s).current != c.price(NextTick(c, Nearest(c, s, |c.ticks|)))
    ensures var x := Iterate(c, s).next; Fits(c, x) && (Done(c, x) || Stuck(c, x) || GroupOk(c, x))
  {
    hide Move, TakeOrders, Nearest, IsPriceMap, GroupOk, FeeAt, Bound, Skips, Dust, Stuck;
    KeepsFit(c, s);
    AfterMove(c, s);
    IterateDirected(c, s, s);
    MovedState(c, s);
    var m, x := Moved(c, s), Iterate(c, s).next;
    if !Done(c, x) {
      if m.current != BoundOf(c, s) {
        MoveEnds(c, s);
        ShortMove(c, s, BoundOf(c, s), FeeOf(c, s));
        DustSticks(c, s);
      } else {
        EndsOnBoundary(c, s);
        if m.current != s.current {
          TickBetween(c.price, c.floor, c.ceiling, c.down, s.tick, s.current, NextTick(c, Nearest(c, s, |c.ticks|)),
            m.current);
        }
        BoundaryGroup(c, s, x);
      }
    }
  }

  /** A leg is charged the fee of its group, and stays inside that group unless it has no liquidity or the
      volatility of its group is saturated. */
  predicate LegInGroup(c: Context, leg: Leg)
    requires c.Valid()
  {
    && leg.rate == FeeAt(c, leg.group)
    && (leg.liquidity > 0 && Volatility(c, leg.group) != c.maximum ==>
        InGroup(c.price, c.tickSpacing, leg.group, leg.from) && InGroup(c.price, c.tickSpacing, leg.group, leg.to))
  }

  lemma EntryInGroup(c: Context, s: State, x: State)
    requires Legal(c, s) && Fits(c, s) && c.enabled && GroupOk(c, s)
    requires Move(c, s, BoundOf(c, s), FeeOf(c, s)).Ok?
    ensures LegInGroup(c, EntryOf(c, s, x).leg)
  {
    hide Move, FeeAt, Nearest, IsPriceMap, InGroup, GroupOk, TotalOf;
    if !Skips(c, s) { StaysInGroup(c, s); }
  }

  /** Over a whole successful run with dynamic fees, every stretch is charged the fee of a group that it does
      not leave, or a saturated one. */
  lemma {:induction false} LedgerGroups(c: Context, s: State, budget: nat)
    requires Legal(c, s) && Bracketed(c, s) && Fits(c, s) && Aligned(c) && c.enabled && GroupOk(c, s)
    requires Q64 <= c.floor * c.floor && Run(c, s, budget).Ok?
    ensures forall i | 0 <= i < |Ledger(c, s, budget)| :: LegInGroup(c, Ledger(c, s, budget)[i].leg)
    decreases budget
  {
    hide Iterate, GroupOk, LegInGroup, EntryOf, Stuck, IsPriceMap, Aligned;
    if budget == 0 || Done(c, s) {
    } else {
      Returns(c, s);
      AfterMove(c, s);
      match Iterate(c, s)
      case Break(last) => EntryInGroup(c, s, last);
      case Continue(next) =>
        EntryInGroup(c, s, next);
        GroupAfter(c, s);
        if Done(c, next) {
          assert Ledger(c, next, budget - 1) == [];
        } else if Stuck(c, next) {
          StuckFails(c, next, budget - 1);
        } else {
          StillLegal(c, s);
          LedgerGroups(c, next, budget - 1);
        }
      case _ =>
    }
  }

  /** No group has a higher fee than one whose volatility is saturated. */
  lemma SaturatedFee(c: Context, group: int, other: int)
    requires c.enabled && c.feeRate < MILLION && Volatility(c, group) == c.maximum
    ensures FeeAt(c, other) <= FeeAt(c, group)
  {
    SquareChargeMono(c.control, Volatility(c, other), Volatility(c, group), c.tickSpacing, 10_000_000_000_000);
  }

  /** The group of the standing tick is the one to begin with. */
  lemma StartInGroup(c: Context, s: State)
    requires Legal(c, s) && Bracketed(c, s) && Aligned(c) && MIN_TICK <= s.tick && s.group == s.tick / c.tickSpacing
    ensures Fits(c, s) && GroupOk(c, s)
  {
    hide IsPriceMap;
    var index := Nearest(c, s, |c.ticks|);
    GroupOfTick(s.tick, c.tickSpacing, 0);
    if index.Some? { GroupOfTick(s.tick, c.tickSpacing, c.ticks[index.value].tick); }
    hide Nearest;
    if c.down {
      PriceUpTo(c, Min(s.tick + 1, MAX_TICK), Low(c.tickSpacing, s.group + 1));
    } else {
      PriceUpTo(c, Low(c.tickSpacing, s.group), s.tick);
    }
  }

  lemma PriceUpTo(c: Context, a: int, b: int)
    requires c.Valid() && TickInRange(a) && TickInRange(b) && a <= b
    ensures c.price(a) <= c.price(b) && c.price(MAX_TICK) == c.ceiling
  {
    Increasing(c.price, c.floor, c.ceiling, a, b);
  }

  /** A successful quote of a consistent pool with dynamic fees charges every stretch that it trades at least
      the fee of every volatility group that the stretch enters; unless that fee is saturated, the stretch
      enters no group but the one that it is charged for. */
  lemma QuoteGroups(q: Request, i: nat, g: int)
    requires q.ValidPool() && q.Valid() && Consistent(q.pool.tickCurrent, q.pool.sqrtPrice) && q.dynamic.enabled
    requires q.ContextOf().Valid() && Quote(q).Ok? && i < |Ledger(q.ContextOf(), q.StartOf(), BUDGET)|
    ensures var c, leg := q.ContextOf(), Ledger(q.ContextOf(), q.StartOf(), BUDGET)[i].leg;
      && leg.rate == FeeAt(c, leg.group)
      && (leg.liquidity > 0 && Enters(ClmmPrice.PriceAt, q.pool.tickSpacing, g, leg.from, leg.to) ==>
        FeeAt(c, g) <= leg.rate && (g == leg.group || Volatility(c, leg.group) == q.dynamic.maximum))
  {
    hide Run, IsPriceMap, ClmmPrice.PriceAt, InGroup, Enters, FeeAt, Ledger, Volatility;
    var c, s := q.ContextOf(), q.StartOf();
    QuoteRuns(q);
    StartLegal(q);
    StartInGroup(c, s);
    LedgerGroups(c, s, BUDGET);
    var leg := Ledger(c, s, BUDGET)[i].leg;
    if Volatility(c, leg.group) == c.maximum {
      SaturatedFee(c, leg.group, g);
    } else if leg.liquidity > 0 && Enters(c.price, c.tickSpacing, g, leg.from, leg.to) {
      EntersOwn(c.price, c.floor, c.ceiling, c.tickSpacing, leg.group, leg.from, leg.to, g);
    }
  }
}
