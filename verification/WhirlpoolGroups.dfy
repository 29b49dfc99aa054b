/** Volatility groups of a Whirlpool quote with an adaptive fee: every stretch is charged the fee of every
    group that it enters, exactly for the group sizes that divide the tick spacing. */
module WhirlpoolGroups {
  import opened Arith
  import opened Outcomes
  import opened TickMap
  import opened ClmmStep
  import opened Traversal
  import opened WhirlpoolSwap
  import opened WhirlpoolSafety
  import opened WhirlpoolEngine
  import opened Payout
  import opened WhirlpoolPayout
  import opened Groups
  import WhirlpoolPrice

  function Size(c: Context): nat { if c.adaptive.Some? then c.adaptive.value.groupSize else 1 }

  /** Every initialised tick stands on a group boundary. */
  predicate Aligned(c: Context) {
    c.adaptive.Some? && Size(c) > 0 && forall i | 0 <= i < |c.nodes| :: c.nodes[i].tick % Size(c) == 0
  }

  /** Beyond the two outermost groups the volatility is saturated. */
  predicate SaturatesBeyond(a: Adaptive) {
    && (a.lowerGroup.Some? ==>
        var l := a.lowerGroup.value; l <= a.reference && a.maximum <= a.volatilityReference + (a.reference - l) * 10000)
    && (a.upperGroup.Some? ==>
        var u := a.upperGroup.value; a.reference <= u && a.maximum <= a.volatilityReference + (u - a.reference) * 10000)
  }

  /** The volatility of a group is at its maximum. */
  predicate Saturated(a: Adaptive, group: int) {
    a.maximum <= a.volatilityReference + Abs(a.reference - group) * 10000
  }

  /** Where the fee of the standing group applies: anywhere without control or liquidity, everywhere below
      or above the outermost groups, or in the group alone. */
  datatype Region = Free | Below(edge: int) | Above(edge: int) | Inside

  function RegionOf(c: Context, liquidity: nat, group: int): Region
    requires c.adaptive.Some?
  {
    var a := c.adaptive.value;
    if a.control == 0 || liquidity == 0 then Free
    else if a.lowerGroup.Some? && group < a.lowerGroup.value then Below(a.lowerGroup.value)
    else if a.upperGroup.Some? && a.upperGroup.value < group then Above(a.upperGroup.value + 1)
    else Inside
  }

  /** A price in the region of a group. */
  predicate InRegion(c: Context, r: Region, group: int, p: nat) {
    match r
    case Free => true
    case Below(edge) => p <= c.price(Low(Size(c), edge))
    case Above(edge) => c.price(Low(Size(c), edge)) <= p
    case Inside => InGroup(c.price, Size(c), group, p)
  }

  /** The next initialised tick is not nearer than the far end of the group, nor the price before its near
      end. */
  predicate GroupOk(c: Context, s: State)
    requires c.Valid()
  {
    var index, z := Nearest(c.nodes, c.down, s.tick, |c.nodes|), Size(c);
    if c.down then
      (index.Some? ==> c.nodes[index.value].tick <= Low(z, s.group)) && s.current <= c.price(Low(z, s.group + 1))
    else
      (index.Some? ==> Low(z, s.group + 1) <= c.nodes[index.value].tick) && c.price(Low(z, s.group)) <= s.current
  }

  /** The bound of an iteration and what it reaches. */
  function BoundOf(c: Context, s: State): nat
    requires c.Valid()
  {
    var span := SpanOf(c, s, Target(c, c.price(NextTick(c, Nearest(c.nodes, c.down, s.tick, |c.nodes|)))));
    if span.Ok? then span.value.bound else s.current
  }

  lemma EdgeIsLow(z: nat, edge: int)
    requires TickInRange(edge * z)
    ensures Low(z, edge) == edge * z
  {
  }

  /** A movement stays in the region of its group. */
  lemma StaysInRegion(c: Context, s: State, p: nat)
    requires Legal(c, s) && c.adaptive.Some? && GroupOk(c, s) && Iterate(c, s).Continue?
    requires if c.down then BoundOf(c, s) <= p <= s.current else s.current <= p <= BoundOf(c, s)
    ensures InRegion(c, RegionOf(c, s.liquidity, s.group), s.group, p)
  {
    hide Move, Settle, NextGroup, FeeAt, Nearest, IsPriceMap;
    IterateMoves(c, s);
    var r, z := RegionOf(c, s.liquidity, s.group), Size(c);
    match r
    case Below(edge) =>
      LowRises(z, s.group + 1, edge);
      PriceOrder(c.price, c.floor, c.ceiling, Low(z, s.group + 1), Low(z, edge));
    case Above(edge) =>
      LowRises(z, edge, s.group);
      PriceOrder(c.price, c.floor, c.ceiling, Low(z, edge), Low(z, s.group));
    case _ =>
  }

  /** Saturated groups have the same fee, and so have all groups without control. */
  lemma SameFee(c: Context, group: int, g: int)
    requires c.Valid() && c.adaptive.Some?
    requires c.adaptive.value.control == 0 || (Saturated(c.adaptive.value, group) && Saturated(c.adaptive.value, g))
    ensures FeeAt(c, g) == FeeAt(c, group)
  {
    hide IsPriceMap;
    var a := c.adaptive.value;
    if a.control == 0 {
      FeeIff(c, group, FeeAt(c, g));
      FeeIff(c, g, FeeAt(c, group));
      FeeIff(c, group, FeeAt(c, group));
      FeeIff(c, g, FeeAt(c, g));
    }
  }

  /** A stretch with liquidity in the region of its group is charged the fee of every group that it enters. */
  lemma RegionFee(c: Context, leg: Leg, g: int)
    requires c.Valid() && c.adaptive.Some? && SaturatesBeyond(c.adaptive.value) && leg.liquidity > 0
    requires var r := RegionOf(c, leg.liquidity, leg.group);
      InRegion(c, r, leg.group, leg.from) && InRegion(c, r, leg.group, leg.to)
    requires Enters(c.price, Size(c), g, leg.from, leg.to)
    ensures FeeAt(c, g) == FeeAt(c, leg.group)
  {
    hide FeeAt, IsPriceMap, Enters, InGroup;
    match RegionOf(c, leg.liquidity, leg.group)
    case Free => SameFee(c, leg.group, g);
    case Below(edge) =>
      EntersBelow(c.price, c.floor, c.ceiling, Size(c), edge, leg.from, leg.to, g);
      SameFee(c, leg.group, g);
    case Above(edge) =>
      EntersAbove(c.price, c.floor, c.ceiling, Size(c), edge - 1, leg.from, leg.to, g);
      SameFee(c, leg.group, g);
    case Inside => EntersOwn(c.price, c.floor, c.ceiling, Size(c), leg.group, leg.from, leg.to, g);
  }

  /** A next tick that is strictly beyond a group boundary is not nearer than the one after. */
  lemma NextGroupOn(c: Context, x: State, group: int)
    requires c.Valid() && Aligned(c)
    requires var index := Nearest(c.nodes, c.down, x.tick, |c.nodes|); index.Some? ==>
        if c.down then c.nodes[index.value].tick < Low(Size(c), group)
        else Low(Size(c), group) < c.nodes[index.value].tick
    ensures var index := Nearest(c.nodes, c.down, x.tick, |c.nodes|); index.Some? ==>
        if c.down then c.nodes[index.value].tick <= Low(Size(c), group - 1)
        else Low(Size(c), group + 1) <= c.nodes[index.value].tick
  {
    hide Nearest, IsPriceMap, Low;
    var index := Nearest(c.nodes, c.down, x.tick, |c.nodes|);
    if index.Some? {
      if c.down {
        AlignedBelow(c.nodes[index.value].tick, group, Size(c));
      } else {
        AlignedAbove(c.nodes[index.value].tick, group, Size(c));
      }
    }
  }

  /** The state between the price movement of an iteration and what follows it. */
  function Moved(c: Context, s: State): State
    requires c.Valid()
  {
    var m := Move(c, s, BoundOf(c, s), FeeAt(c, s.group));
    if m.Ok? then m.value else s
  }

  /** Having arrived at a group boundary, with the next tick strictly beyond it. */
  lemma Arrived(c: Context, x: State, boundary: int)
    requires Legal(c, x) && Aligned(c) && x.current == c.price(Low(Size(c), boundary))
    requires x.group == if c.down then boundary - 1 else boundary
    requires var index := Nearest(c.nodes, c.down, x.tick, |c.nodes|); index.Some? ==>
        if c.down then c.nodes[index.value].tick < Low(Size(c), boundary)
        else Low(Size(c), boundary) < c.nodes[index.value].tick
    ensures GroupOk(c, x)
  {
    hide Nearest, IsPriceMap, Low;
    NextGroupOn(c, x, boundary);
  }

  /** The boundary that the group counter stands for after an iteration. */
  function BoundaryOf(c: Context, x: State): int { if c.down then x.group + 1 else x.group }

  /** Crossing out of a group that was not skipped happens at its far end. */
  lemma CrossedInside(c: Context, s: State, t: int)
    requires c.Valid() && TickInRange(t) && InGroup(c.price, Size(c), s.group, c.price(t))
    requires if c.down then t <= Low(Size(c), s.group) else Low(Size(c), s.group + 1) <= t
    ensures t == Low(Size(c), if c.down then s.group else s.group + 1)
  {
    hide IsPriceMap, Low;
    PriceOrder(c.price, c.floor, c.ceiling, t, Low(Size(c), s.group));
    PriceOrder(c.price, c.floor, c.ceiling, t, Low(Size(c), s.group + 1));
  }

  /** Crossing an aligned tick after skipped groups: the group counter moves on to it, unless it is already
      further along. */
  lemma CrossedSkipped(z: nat, down: bool, group: int, k: int)
    requires z > 0 && TickInRange(k * z) && (if down then k * z <= Low(z, group) else Low(z, group + 1) <= k * z)
    ensures down ==> k * z == Low(z, Min(k, group))
    ensures !down ==> k * z == Low(z, Max(k, group + 1))
  {
    if down && k > group { MulMono(group, k, z); }
    if !down && k < group + 1 { MulMono(k, group + 1, z); }
  }

  /** After an initialised tick is crossed, the group that follows begins at it. */
  lemma CrossedGroup(c: Context, s: State, i: nat, x: State)
    requires Legal(c, s) && Aligned(c) && GroupOk(c, s) && i < |c.nodes| && TickInRange(c.nodes[i].tick)
    requires Nearest(c.nodes, c.down, s.tick, |c.nodes|) == Some(i) && x.current == c.price(c.nodes[i].tick)
    requires RegionOf(c, s.liquidity, s.group).Inside? ==> InGroup(c.price, Size(c), s.group, x.current)
    requires NextGroup(c, x, s.group, !RegionOf(c, s.liquidity, s.group).Inside?, c.nodes[i].tick) == Ok(x.group)
    ensures c.nodes[i].tick == Low(Size(c), BoundaryOf(c, x))
  {
    hide Nearest, IsPriceMap, Low, InGroup, RegionOf;
    var t, z := c.nodes[i].tick, Size(c);
    if RegionOf(c, s.liquidity, s.group).Inside? {
      CrossedInside(c, s, t);
    } else {
      assert t == t / z * z;
      CrossedSkipped(z, c.down, s.group, t / z);
    }
  }

  /** After an iteration that crosses an initialised tick. */
  lemma Crossed(c: Context, s: State)
    requires Legal(c, s) && Bracketed(c, s) && Aligned(c) && GroupOk(c, s) && Iterate(c, s).Continue?
    requires var index := Nearest(c.nodes, c.down, s.tick, |c.nodes|);
      index.Some? && Moved(c, s).current == c.price(c.nodes[index.value].tick)
    ensures GroupOk(c, Iterate(c, s).next)
  {
    hide Move, NextGroup, FeeAt, Nearest, IsPriceMap, GroupOk, InRegion, Low;
    IterateMoves(c, s);
    var i, x := Nearest(c.nodes, c.down, s.tick, |c.nodes|).value, Iterate(c, s).next;
    MoveSafe(c, s, BoundOf(c, s), FeeAt(c, s.group));
    StaysInRegion(c, s, x.current);
    GroupStep(c, s);
    InsideRegion(c, s, x.current);
    CrossedGroup(c, s, i, x);
    Arrived(c, x, BoundaryOf(c, x));
  }

  /** The group counter moves by the price reached. */
  lemma GroupStep(c: Context, s: State)
    requires c.Valid() && c.adaptive.Some? && Iterate(c, s).Continue?
    ensures var nextTick, x := NextTick(c, Nearest(c.nodes, c.down, s.tick, |c.nodes|)), Iterate(c, s).next;
      NextGroup(c, x, s.group, !RegionOf(c, s.liquidity, s.group).Inside?, nextTick) == Ok(x.group)
  {
    hide Move, Settle, FeeAt, Nearest, IsPriceMap, SpanOf, RegionOf;
    Skipping(c, s);
  }

  lemma InsideRegion(c: Context, s: State, p: nat)
    requires c.adaptive.Some? && InRegion(c, RegionOf(c, s.liquidity, s.group), s.group, p)
    ensures RegionOf(c, s.liquidity, s.group).Inside? ==> InGroup(c.price, Size(c), s.group, p)
  {
  }

  /** An iteration skips groups exactly outside the region of a single group. */
  lemma Skipping(c: Context, s: State)
    requires c.Valid() && c.adaptive.Some?
    ensures var span := SpanOf(c, s, Target(c, c.price(NextTick(c, Nearest(c.nodes, c.down, s.tick, |c.nodes|)))));
      span.Ok? ==> (span.value.skipped <==> !RegionOf(c, s.liquidity, s.group).Inside?)
  {
    hide Nearest, IsPriceMap;
  }

  /** A price on a group boundary inside the tick range is looked up as the boundary itself. */
  lemma OnBoundary(c: Context, s: State, edge: int, group: int, nextTick: int)
    requires c.Valid() && c.adaptive.Some? && Size(c) > 0 && TickInRange(edge * Size(c))
    requires s.current == c.price(edge * Size(c)) && s.current != c.price(nextTick)
    requires if c.down then edge <= group else group < edge
    ensures NextGroup(c, s, group, true, nextTick) == Ok(if c.down then edge - 1 else edge)
  {
    hide IsPriceMap;
    TickOfPrice(c.price, c.floor, c.ceiling, edge * Size(c));
    WithinLimits(c.price, c.floor, c.ceiling, edge * Size(c));
    Multiple(edge, Size(c));
  }

  lemma Multiple(k: int, z: nat)
    requires z > 0
    ensures k * z % z == 0 && k * z / z == k
  {
    FloorGroup(k * z, z, k);
  }

  lemma FloorGroup(n: int, z: nat, k: int)
    requires z > 0 && n == k * z
    ensures n % z == 0 && n / z == k
  {
    var q, r := n / z, n % z;
    assert n == q * z + r && 0 <= r < z;
    if q < k { MulMono(q + 1, k, z); Distribute(z, q, 1); }
    if k < q { MulMono(k + 1, q, z); Distribute(z, k, 1); }
  }

  /** A movement that neither ends the run nor arrives at the next tick ends on a group boundary, and the
      group that follows begins there. */
  lemma EndsOnBoundary(c: Context, s: State)
    requires Legal(c, s) && Aligned(c) && GroupOk(c, s) && Iterate(c, s).Continue? && !Done(c, Iterate(c, s).next)
    requires Moved(c, s).current != c.price(NextTick(c, Nearest(c.nodes, c.down, s.tick, |c.nodes|)))
    ensures Iterate(c, s).next.current == c.price(Low(Size(c), BoundaryOf(c, Iterate(c, s).next)))
  {
    hide Move, FeeAt, Nearest, IsPriceMap, Settle;
    IterateMoves(c, s);
    MoveSafe(c, s, BoundOf(c, s), FeeAt(c, s.group));
    GroupStep(c, s);
    var x, nextTick := Iterate(c, s).next, NextTick(c, Nearest(c.nodes, c.down, s.tick, |c.nodes|));
    SettleFields(c, s.current, Moved(c, s), Nearest(c.nodes, c.down, s.tick, |c.nodes|), nextTick);
    match RegionOf(c, s.liquidity, s.group)
    case Below(edge) => if !c.down { OnBoundary(c, x, edge, s.group, nextTick); }
    case Above(edge) => if c.down { OnBoundary(c, x, edge, s.group, nextTick); }
    case _ =>
  }

  /** Where an iteration arrives. */
  lemma NextPlace(c: Context, s: State)
    requires Legal(c, s) && Iterate(c, s).Continue?
    ensures var x, t := Iterate(c, s).next, NextTick(c, Nearest(c.nodes, c.down, s.tick, |c.nodes|));
      && Legal(c, x) && x.current == Moved(c, s).current && !Done(c, s) && !OutOfArrays(c, s)
      && (if c.down then c.price(t) <= x.current <= s.current else s.current <= x.current <= c.price(t))
  {
    hide Move, Settle, NextGroup, FeeAt, Nearest, IsPriceMap, Iterate, SpanOf;
    IterateMoves(c, s);
    var index := Nearest(c.nodes, c.down, s.tick, |c.nodes|);
    MoveSafe(c, s, BoundOf(c, s), FeeAt(c, s.group));
    SettleFields(c, s.current, Moved(c, s), index, NextTick(c, index));
  }

  /** Short of the next tick, the following group begins where the movement ended. */
  lemma Uncrossed(c: Context, s: State)
    requires Legal(c, s) && Bracketed(c, s) && Aligned(c) && GroupOk(c, s) && Iterate(c, s).Continue?
    requires !Done(c, Iterate(c, s).next)
    requires Moved(c, s).current != c.price(NextTick(c, Nearest(c.nodes, c.down, s.tick, |c.nodes|)))
    ensures GroupOk(c, Iterate(c, s).next)
  {
    hide Move, NextGroup, FeeAt, Nearest, IsPriceMap, GroupOk, InRegion, Low, Settle, Iterate, Aligned;
    var x, index := Iterate(c, s).next, Nearest(c.nodes, c.down, s.tick, |c.nodes|);
    var t := NextTick(c, index);
    EndsOnBoundary(c, s);
    NextPlace(c, s);
    NextTickLoaded(c, s);
    StandsBetween(c, s, x, t);
    PriceOrder(c.price, c.floor, c.ceiling, t, Low(Size(c), BoundaryOf(c, x)));
    var later := Nearest(c.nodes, c.down, x.tick, |c.nodes|);
    if later.Some? { NothingBetween(c, s, later.value); }
    Arrived(c, x, BoundaryOf(c, x));
  }

  /** The tick after a movement short of the next tick lies between that and the standing one. */
  lemma StandsBetween(c: Context, s: State, x: State, t: int)
    requires Legal(c, s) && Bracketed(c, s) && Iterate(c, s).Continue? && x == Iterate(c, s).next
    requires t == NextTick(c, Nearest(c.nodes, c.down, s.tick, |c.nodes|)) && x.current != c.price(t)
    ensures if c.down then x.tick <= s.tick else s.tick <= x.tick
  {
    hide Move, NextGroup, FeeAt, Nearest, IsPriceMap, Iterate;
    IterateMoves(c, s);
    MoveSafe(c, s, BoundOf(c, s), FeeAt(c, s.group));
    NextTickLoaded(c, s);
    if x.current != s.current {
      TickBetween(c.price, c.floor, c.ceiling, c.down, s.tick, s.current, t, x.current);
    }
  }

  /** After an iteration the price stands in the group that is charged next, unless the run is over or has
      left the arrays. */
  lemma GroupAfter(c: Context, s: State)
    requires Legal(c, s) && Bracketed(c, s) && Aligned(c) && GroupOk(c, s) && Iterate(c, s).Continue?
    ensures var x := Iterate(c, s).next; c.Valid() && (Done(c, x) || OutOfArrays(c, x) || GroupOk(c, x))
  {
    hide Move, NextGroup, FeeAt, Nearest, IsPriceMap, GroupOk, Iterate, Aligned;
    var index := Nearest(c.nodes, c.down, s.tick, |c.nodes|);
    IterateMoves(c, s);
    if Moved(c, s).current != c.price(NextTick(c, index)) {
      if !Done(c, Iterate(c, s).next) { Uncrossed(c, s); }
    } else if index.Some? {
      Crossed(c, s);
    }
  }

  /** A leg is charged the fee of its group, and stays in the region where that applies. */
  predicate LegInGroup(c: Context, leg: Leg)
    requires c.Valid() && c.adaptive.Some?
  {
    && leg.rate == FeeAt(c, leg.group)
    && InRegion(c, RegionOf(c, leg.liquidity, leg.group), leg.group, leg.from)
    && InRegion(c, RegionOf(c, leg.liquidity, leg.group), leg.group, leg.to)
  }

  lemma LegStays(c: Context, s: State)
    requires Legal(c, s) && c.adaptive.Some? && GroupOk(c, s) && Iterate(c, s).Continue?
    ensures LegInGroup(c, LegOf(c, s, Iterate(c, s).next))
  {
    hide Move, NextGroup, FeeAt, Nearest, IsPriceMap, GroupOk, Iterate, InRegion;
    IterateMoves(c, s);
    MoveSafe(c, s, BoundOf(c, s), FeeAt(c, s.group));
    StaysInRegion(c, s, s.current);
    StaysInRegion(c, s, Iterate(c, s).next.current);
  }

  lemma {:induction false} LedgerGroups(c: Context, s: State, budget: nat)
    requires Legal(c, s) && Bracketed(c, s) && Aligned(c) && GroupOk(c, s) && Run(c, s, budget).Ok?
    ensures forall i | 0 <= i < |Ledger(c, s, budget)| :: LegInGroup(c, Ledger(c, s, budget)[i])
    decreases budget
  {
    hide Iterate, GroupOk, LegInGroup, IsPriceMap, Aligned, FeeAt;
    if budget == 0 {
    } else {
      IsAdaptive(c);
      match Iterate(c, s)
      case Continue(next) =>
        LegStays(c, s);
        GroupAfter(c, s);
        SumNetStart(c.nodes, c.down, s.tick);
        IteratePosition(c, s, s);
        if Done(c, next) || OutOfArrays(c, next) {
          EndsThere(c, next, budget - 1);
        } else {
          LedgerGroups(c, next, budget - 1);
        }
      case _ =>
    }
  }

  lemma IsAdaptive(c: Context)
    requires Aligned(c)
    ensures c.adaptive.Some? && Size(c) > 0
  {
  }

  lemma EndsThere(c: Context, s: State, budget: nat)
    requires c.Valid() && (Done(c, s) || OutOfArrays(c, s))
    ensures Ledger(c, s, budget) == []
  {
    hide Move, Settle, NextGroup, FeeAt, Nearest, SpanOf;
  }

  /** A multiple of the tick spacing is one of every group size that divides the spacing. */
  lemma DividesOn(t: int, spacing: nat, z: nat)
    requires z > 0 && spacing > 0 && spacing % z == 0 && t % spacing == 0
    ensures t % z == 0
  {
    var k, n := t / spacing, spacing / z;
    assert t == k * spacing && spacing == n * z;
    assert k * (n * z) == (k * n) * z;
    FloorGroup(t, z, k * n);
  }

  lemma StartAligned(q: Request)
    requires q.Valid() && q.adaptive.Some? && q.pool.tickSpacing % q.adaptive.value.tickGroupSize == 0
    ensures q.ContextOf().Valid() && Aligned(q.ContextOf())
  {
    hide IsPriceMap, WhirlpoolPrice.PriceAt, Request.Lower, Request.Upper, Request.ValidArrays;
    ContextValid(q);
    NodesSorted(q);
    var nodes, z := q.Nodes(), q.adaptive.value.tickGroupSize;
    forall i | 0 <= i < |nodes| ensures nodes[i].tick % z == 0 {
      DividesOn(nodes[i].tick, q.pool.tickSpacing, z);
    }
  }

  /** The outermost groups that a request resolves to are where the volatility saturates. */
  lemma ResolvedSaturates(q: Request)
    requires q.adaptive.Some? && q.VolatilityReference(q.adaptive.value) <= q.adaptive.value.maximumVolatility
    ensures SaturatesBeyond(q.Resolved(q.adaptive.value))
  {
    hide Ceil, Request.VolatilityReference;
    var a := q.adaptive.value;
    var gap := a.maximumVolatility - q.VolatilityReference(a);
    CeilIff(gap, 10000, Ceil(gap, 10000));
  }

  /** The outermost groups are the nearest ones with a saturated volatility on either side of the reference, if
      their far ends lie strictly inside the tick range. */
  lemma OuterGroupsIff(q: Request, g: int)
    requires q.adaptive.Some? && q.VolatilityReference(q.adaptive.value) <= q.adaptive.value.maximumVolatility
    ensures var r := q.Resolved(q.adaptive.value);
      && (g <= r.reference && r.lowerGroup.Some? ==>
          (g <= r.lowerGroup.value <==> Saturated(r, g)) && MIN_TICK < r.lowerGroup.value * r.groupSize)
      && (g <= r.reference && r.lowerGroup.None? && Saturated(r, g) ==> g * r.groupSize <= MIN_TICK)
      && (r.reference <= g && r.upperGroup.Some? ==>
          (r.upperGroup.value <= g <==> Saturated(r, g)) && (r.upperGroup.value + 1) * r.groupSize < MAX_TICK)
      && (r.reference <= g && r.upperGroup.None? && Saturated(r, g) ==> MAX_TICK <= (g + 1) * r.groupSize)
  {
    hide Ceil, Request.VolatilityReference;
    var a := q.adaptive.value;
    var gap := a.maximumVolatility - q.VolatilityReference(a);
    var r, distance := q.Resolved(a).reference, Ceil(gap, 10000);
    CeilIff(gap, 10000, Abs(r - g));
    if g <= r - distance { MulMono(g, r - distance, a.tickGroupSize); }
    if r + distance <= g { MulMono(r + distance + 1, g + 1, a.tickGroupSize); }
  }

  /** The group of the standing tick is the one to begin with. */
  lemma StartInGroup(c: Context, s: State)
    requires Legal(c, s) && Bracketed(c, s) && Aligned(c) && TickInRange(s.tick) && s.group == s.tick / Size(c)
    ensures GroupOk(c, s)
  {
    hide IsPriceMap;
    var index, z := Nearest(c.nodes, c.down, s.tick, |c.nodes|), Size(c);
    GroupOfTick(s.tick, z, 0);
    if index.Some? { GroupOfTick(s.tick, z, c.nodes[index.value].tick); }
    hide Nearest;
    if c.down {
      PriceUpTo(c, Min(s.tick + 1, MAX_TICK), Low(z, s.group + 1));
    } else {
      PriceUpTo(c, Low(z, s.group), s.tick);
    }
  }

  lemma PriceUpTo(c: Context, a: int, b: int)
    requires c.Valid() && TickInRange(a) && TickInRange(b) && a <= b
    ensures c.price(a) <= c.price(b) && c.price(MAX_TICK) == c.ceiling
  {
    Increasing(c.price, c.floor, c.ceiling, a, b);
  }

  /** With a group size that divides the tick spacing, a successful quote of a consistent pool charges every
      stretch that it trades the fee of every volatility group that the stretch enters. */
  lemma QuoteGroups(q: Request, i: nat, g: int)
    requires AdaptiveQuote(q) && q.pool.tickSpacing % q.adaptive.value.tickGroupSize == 0
    requires i < |Ledger(q.ContextOf(), q.StartOf(), BUDGET)|
    ensures ChargedAs(q, i, g)
  {
    hide Run, IsPriceMap, WhirlpoolPrice.PriceAt, InRegion, Enters, FeeAt, Ledger, RegionOf, SaturatesBeyond;
    var c, s := q.ContextOf(), q.StartOf();
    QuoteRuns(q);
    StartLegal(q);
    StartAligned(q);
    StartInGroup(c, s);
    ResolvedSaturates(q);
    LedgerGroups(c, s, BUDGET);
    var leg := Ledger(c, s, BUDGET)[i];
    if leg.liquidity > 0 && Enters(c.price, Size(c), g, leg.from, leg.to) { RegionFee(c, leg, g); }
  }

  /** A successful quote of a consistent pool with an adaptive fee. */
  ghost predicate AdaptiveQuote(q: Request) {
    && q.Valid() && Consistent(q.pool.tickCurrent, q.pool.sqrtPrice) && q.adaptive.Some? && Quote(q).Ok?
    && q.ContextOf().Valid()
  }

  /** Stretch `i` of a quote, if it trades in a group, is charged the fee of that group. */
  ghost predicate ChargedAs(q: Request, i: nat, g: int)
    requires AdaptiveQuote(q) && i < |Ledger(q.ContextOf(), q.StartOf(), BUDGET)|
  {
    var c, leg := q.ContextOf(), Ledger(q.ContextOf(), q.StartOf(), BUDGET)[i];
    leg.liquidity > 0 && Enters(WhirlpoolPrice.PriceAt, q.adaptive.value.tickGroupSize, g, leg.from, leg.to) ==>
      leg.rate == FeeAt(c, g)
  }

  /** Every quote of a pool with this tick spacing and group size charges every stretch the fee of every
      group that it enters. */
  ghost predicate ChargesGroups(spacing: nat, z: nat) {
    forall q: Request, i: nat, g: int | HasLeg(q, spacing, z, i) :: ChargedAs(q, i, g)
  }

  ghost predicate HasLeg(q: Request, spacing: nat, z: nat, i: nat)
    ensures HasLeg(q, spacing, z, i) ==> AdaptiveQuote(q) && i < |Ledger(q.ContextOf(), q.StartOf(), BUDGET)|
  {
    && AdaptiveQuote(q) && q.pool.tickSpacing == spacing && q.adaptive.value.tickGroupSize == z
    && i < |Ledger(q.ContextOf(), q.StartOf(), BUDGET)|
  }

  /** A pool just below an initialised tick that stands strictly inside a group, with one unit of
      liquidity, quoted upwards to just above that tick. */
  function DriftRequest(spacing: nat, z: nat): Request
    requires 0 < z
  {
    Request(
      Pool(WhirlpoolPrice.PriceAt(spacing - 1), 1, spacing - 1, spacing, 0), [Node(spacing, 0)], [0], U64, 0, false,
      Some(AdaptiveFee(1, 1, 0, 1, 10000, z, 0, 0, 0, spacing / z, 0)), WhirlpoolPrice.PriceAt(spacing) + 1)
  }

  /** A context like that of the drifting request. */
  predicate Drifts(c: Context, spacing: nat, g: int) {
    && c.Valid() && !c.down && 2 <= c.floor && c.feeRate == 0 && c.nodes == [Node(spacing, 0)] && 0 < spacing < c.upper
    && c.limit == c.price(spacing) + 1 && c.ceiling <= 0x1_0000_0000 * Q64
    && c.adaptive.Some? && 0 < Size(c) && g * Size(c) < spacing < (g + 1) * Size(c)
    && var a := c.adaptive.value;
    && a.control == 1 && a.reference == g && a.volatilityReference == 0 && a.maximum == 10000
    && (a.lowerGroup.Some? ==> a.lowerGroup.value <= g) && (a.upperGroup.Some? ==> g < a.upperGroup.value)
  }

  lemma DriftFees(c: Context, spacing: nat, g: int)
    requires Drifts(c, spacing, g)
    ensures FeeAt(c, g) == 0 < FeeAt(c, g + 1) <= 100_000
  {
    FeeIff(c, g, 0);
    FeeIff(c, g + 1, 0);
    FeeIff(c, g + 1, 100_000);
    MulStrict(0, 10000, Size(c));
  }

  /** One unit of liquidity gives less than half of 2^64 of the first token. */
  lemma SmallOutput(current: nat, target: nat)
    requires 2 <= current <= target
    ensures Worth(current, target, 1, false) <= U64 / 2
  {
    var n, d, half: nat := Q64 * (target - current), current * target, U64 / 2 + 1;
    MulMono(2, current, target);
    FloorIff(n, d, half);
    MulMono(2 * target, d, half);
  }

  /** A step of one unit of liquidity with plenty of input reaches its target. */
  lemma SmallStep(current: nat, target: nat, remaining: nat, fee: nat)
    requires 2 <= current <= target <= U128 && target - current <= 0x1_0000_0000 * Q64 && fee <= 100_000
    requires 0x10_0000_0000 <= remaining <= U64
    ensures var r := SwapStep(current, target, 1, remaining, fee, false);
      && r.Ok? && r.value.sqrtPrice == target && r.value.amountOut <= U64 / 2
      && r.value.amountIn + r.value.fee <= remaining
      && (fee == 0 ==> r.value.fee == 0 && r.value.amountIn <= 0x1_0000_0000)
  {
    hide Delta, Net, Stop, Ceil, Worth;
    StepEnvelope(current, target, 1, remaining, fee, false);
    DeltaUp(current, target, 1);
    CeilIff(target - current, Q64, 0x1_0000_0000);
    NetIff(remaining, fee, 0x1_0000_0000);
    MulMono(900_000, MILLION - fee, remaining);
    WorthIsDelta(current, target, 1, false);
    SmallOutput(current, target);
    if fee == 0 { NoFee(SwapStep(current, target, 1, remaining, 0, false).value.amountIn); }
  }

  lemma NoFee(amount: nat)
    ensures StepFee(amount, amount, 0, true) == 0
  {
    CeilIff(amount * 0, MILLION, 0);
  }

  /** Where the drifting request begins. */
  predicate DriftStart(c: Context, s: State, spacing: nat, g: int) {
    && s.tick == spacing - 1 && s.current == c.price(spacing - 1) && s.liquidity == 1 && s.remaining == U64
    && s.output == 0 && s.fees == 0 && s.group == g
  }

  /** Above the first tick the only next tick is the end of the arrays. */
  lemma DriftPrices(c: Context, spacing: nat, g: int)
    requires Drifts(c, spacing, g)
    ensures 2 <= c.price(spacing - 1) < c.price(spacing) < c.limit <= c.price(c.upper) <= U128
    ensures c.limit <= c.ceiling
    ensures spacing < Low(Size(c), g + 1) && Low(Size(c), g) < spacing
    ensures c.limit <= c.price(Low(Size(c), g + 1)) && c.limit <= c.price(Low(Size(c), g + 2))
    ensures c.price(Low(Size(c), g)) < c.price(spacing)
  {
    assert Rises(c.price, spacing - 1) && Rises(c.price, spacing);
    hide Low;
    LowRises(Size(c), g + 1, g + 2);
    InsideGroup(Size(c), spacing, g);
    Increasing(c.price, c.floor, c.ceiling, spacing + 1, c.upper);
    Increasing(c.price, c.floor, c.ceiling, spacing + 1, Low(Size(c), g + 1));
    Increasing(c.price, c.floor, c.ceiling, spacing + 1, Low(Size(c), g + 2));
    Increasing(c.price, c.floor, c.ceiling, Low(Size(c), g), spacing);
    Increasing(c.price, c.floor, c.ceiling, MIN_TICK, spacing - 1);
    Increasing(c.price, c.floor, c.ceiling, c.upper, MAX_TICK);
  }

  lemma InsideGroup(z: nat, t: int, g: int)
    requires g * z < t < (g + 1) * z && MIN_TICK < t < MAX_TICK
    ensures Low(z, g) < t < Low(z, g + 1)
  {
  }

  /** In both of its groups the drifting quote may run to its target. */
  lemma DriftSpan(c: Context, s: State, spacing: nat, g: int, target: nat)
    requires Drifts(c, spacing, g) && s.liquidity == 1 && g <= s.group <= g + 1 && target <= c.limit
    ensures SpanOf(c, s, target) == Ok(Span(target, false))
  {
    DriftPrices(c, spacing, g);
    hide IsPriceMap;
  }

  lemma DriftMove(c: Context, s: State, target: nat, fee: nat)
    requires !c.down && s.liquidity == 1 && s.fees == 0 && fee <= 100_000
    requires 2 <= s.current <= target <= U128 && target - s.current <= 0x1_0000_0000 * Q64
    requires 0x10_0000_0000 <= s.remaining <= U64 && s.output <= U64 / 2
    ensures Move(c, s, target, fee).Ok?
    ensures var m := Move(c, s, target, fee).value;
      && m.current == target && m.tick == s.tick && m.liquidity == 1 && m.remaining <= s.remaining && m.group == s.group
      && m.output <= s.output + U64 / 2
      && (fee == 0 ==> m.fees == 0 && s.remaining - 0x1_0000_0000 <= m.remaining)
  {
    hide SwapStep;
    SmallStep(s.current, target, s.remaining, fee);
  }

  /** An iteration inside one group, put together from its parts. */
  lemma PassIs(c: Context, s: State, index: Option<nat>, target: nat, m: State, x: State)
    requires c.Valid() && c.adaptive.Some? && !Done(c, s) && !OutOfArrays(c, s)
    requires index == Nearest(c.nodes, c.down, s.tick, |c.nodes|) && target == Target(c, c.price(NextTick(c, index)))
    requires SpanOf(c, s, target) == Ok(Span(target, false)) && Move(c, s, target, FeeAt(c, s.group)) == Ok(m)
    requires Settle(c, s.current, m, index, NextTick(c, index)) == Ok(x)
    ensures Iterate(c, s) == Continue(x.(group := s.group + if c.down then -1 else 1))
  {
    hide IsPriceMap, Nearest, SpanOf, Move, Settle, FeeAt, Target;
  }

  /** The first stretch of the drifting quote reaches its tick and moves the group counter on, although the
      tick is inside the group. */
  lemma DriftFirst(c: Context, s: State, spacing: nat, g: int)
    requires Drifts(c, spacing, g) && DriftStart(c, s, spacing, g)
    ensures Iterate(c, s).Continue?
    ensures var x := Iterate(c, s).next;
      && x.tick == spacing && x.current == c.price(spacing) && x.liquidity == 1 && x.group == g + 1
      && 0x10_0000_0000 <= x.remaining <= U64 && x.fees == 0 && x.output <= U64 / 2
  {
    hide IsPriceMap, Low, FeeAt, SpanOf, Move, Iterate;
    DriftPrices(c, spacing, g);
    DriftFees(c, spacing, g);
    DriftSpan(c, s, spacing, g, c.price(spacing));
    DriftMove(c, s, c.price(spacing), 0);
    assert Nearest(c.nodes, false, s.tick, 1) == Some(0);
    var m := Move(c, s, c.price(spacing), 0).value;
    PassIs(c, s, Some(0), c.price(spacing), m, Settle(c, s.current, m, Some(0), spacing).value);
  }

  /** The second stretch runs on inside the same group, but is charged for the next one. */
  lemma DriftSecond(c: Context, s: State, spacing: nat, g: int)
    requires Drifts(c, spacing, g) && s.tick == spacing && s.current == c.price(spacing) && s.liquidity == 1
    requires s.group == g + 1 && 0x10_0000_0000 <= s.remaining <= U64 && s.output <= U64 / 2 && s.fees == 0
    ensures Iterate(c, s).Continue? && Iterate(c, s).next.current == c.limit
  {
    hide IsPriceMap, Low, FeeAt, SpanOf, Move, Iterate;
    DriftPrices(c, spacing, g);
    DriftFees(c, spacing, g);
    DriftSpan(c, s, spacing, g, c.limit);
    DriftMove(c, s, c.limit, FeeAt(c, g + 1));
    assert Nearest(c.nodes, false, s.tick, 1) == None;
    var m := Move(c, s, c.limit, FeeAt(c, g + 1)).value;
    PassIs(c, s, None, c.limit, m, Settle(c, s.current, m, None, c.upper).value);
  }

  /** The second stretch of the drifting quote enters the first group and is charged for the second. */
  lemma DriftRun(c: Context, s: State, spacing: nat, g: int)
    requires Drifts(c, spacing, g) && DriftStart(c, s, spacing, g)
    ensures c.Valid() && Run(c, s, BUDGET).Ok? && 1 < |Ledger(c, s, BUDGET)|
    ensures var leg := Ledger(c, s, BUDGET)[1];
      leg.liquidity > 0 && Enters(c.price, Size(c), g, leg.from, leg.to) && FeeAt(c, g) != leg.rate
  {
    DriftValid(c, spacing, g);
    hide Iterate, Drifts, FeeAt, Low;
    DriftFirst(c, s, spacing, g);
    var x := Iterate(c, s).next;
    DriftSecond(c, x, spacing, g);
    var y := Iterate(c, x).next;
    ReturnDone(c, y);
    DriftPrices(c, spacing, g);
    DriftFees(c, spacing, g);
    RunTwo(c, s, BUDGET);
  }

  lemma DriftValid(c: Context, spacing: nat, g: int)
    requires Drifts(c, spacing, g)
    ensures c.Valid() && c.adaptive.Some? && c.limit == c.price(spacing) + 1
  {
  }

  lemma RunTwo(c: Context, s: State, budget: nat)
    requires c.Valid() && 2 < budget && Iterate(c, s).Continue? && Iterate(c, Iterate(c, s).next).Continue?
    requires var x := Iterate(c, s).next; Iterate(c, Iterate(c, x).next).Return?
    ensures var x := Iterate(c, s).next;
      && Run(c, s, budget) == Ok(Iterate(c, x).next)
      && Ledger(c, s, budget) == [LegOf(c, s, x), LegOf(c, x, Iterate(c, x).next)]
  {
    hide Iterate, LegOf;
    var x := Iterate(c, s).next;
    var y := Iterate(c, x).next;
    assert Run(c, y, budget - 2) == Ok(y) && Ledger(c, y, budget - 2) == [];
    assert Run(c, x, budget - 1) == Ok(y) && Ledger(c, x, budget - 1) == [LegOf(c, x, y)];
  }

  lemma DriftAdaptive(spacing: nat, z: nat)
    requires 0 < spacing <= 65535 && 0 < z <= 65535
    ensures DriftRequest(spacing, z).ValidAdaptive()
    ensures DriftRequest(spacing, z).VolatilityReference(DriftRequest(spacing, z).adaptive.value) == 0
    ensures !DriftRequest(spacing, z).Expired(DriftRequest(spacing, z).adaptive.value)
    ensures !DriftRequest(spacing, z).Renewed(DriftRequest(spacing, z).adaptive.value)
  {
    hide WhirlpoolPrice.PriceAt;
    FloorIff(spacing, z, 0);
    FloorIff(spacing, z, 65536);
    MulMono(1, z, 65536);
  }

  lemma DriftSorted(spacing: nat, z: nat)
    requires 0 < z
    ensures DriftRequest(spacing, z).Nodes() == [Node(spacing, 0)] && DriftRequest(spacing, z).Starts() == [0]
  {
    hide WhirlpoolPrice.PriceAt;
    var ticks, starts := [Node(spacing, 0)], [0];
    assert ticks[..0] == [] && starts[..0] == [];
  }

  /** The prices of the ticks around the drifting one. */
  lemma DriftLimits(spacing: nat, tick: int)
    requires 0 < spacing <= 65535 && tick == spacing - 1
    ensures WhirlpoolPrice.MIN_SQRT_PRICE <= WhirlpoolPrice.PriceAt(tick) < WhirlpoolPrice.PriceAt(spacing)
    ensures WhirlpoolPrice.PriceAt(spacing) < WhirlpoolPrice.PriceAt(spacing + 1) <= WhirlpoolPrice.MAX_SQRT_PRICE
  {
    hide WhirlpoolPrice.PriceAt, IsPriceMap;
    WhirlpoolPrice.PriceMapValid(MIN_TICK, MAX_TICK);
    var m, floor, ceiling := WhirlpoolPrice.PriceAt, WhirlpoolPrice.MIN_SQRT_PRICE, WhirlpoolPrice.MAX_SQRT_PRICE;
    PriceOrder(m, floor, ceiling, tick, spacing);
    PriceOrder(m, floor, ceiling, spacing, spacing + 1);
    WithinLimits(m, floor, ceiling, tick);
    WithinLimits(m, floor, ceiling, spacing + 1);
  }

  lemma DriftArrays(spacing: nat, z: nat)
    requires 0 < spacing <= 65535 && 0 < z && DriftRequest(spacing, z).ValidPool()
    ensures var q := DriftRequest(spacing, z);
      q.ValidArrays() && q.Lower() == 0 && q.Upper() == Min(88 * spacing - 1, MAX_TICK)
  {
    hide WhirlpoolPrice.PriceAt, Request.Starts, Request.Nodes;
    DriftSorted(spacing, z);
  }

  lemma DriftTicks(spacing: nat, z: nat)
    requires 0 < spacing <= 65535 && 0 < z && DriftRequest(spacing, z).ValidPool()
    ensures DriftRequest(spacing, z).ValidArrays() && DriftRequest(spacing, z).ValidTicks()
  {
    hide WhirlpoolPrice.PriceAt, Request.Starts, Request.Nodes, Request.ValidArrays, Request.Lower, Request.Upper;
    DriftArrays(spacing, z);
    DriftSorted(spacing, z);
  }

  lemma DriftValidRequest(spacing: nat, z: nat, tick: int)
    requires 0 < spacing <= 65535 && 0 < z <= 65535 && tick == spacing - 1
    ensures var q := DriftRequest(spacing, z); q.Valid() && Consistent(tick, q.pool.sqrtPrice)
  {
    hide WhirlpoolPrice.PriceAt, Request.ValidAdaptive, Request.ValidArrays, Request.ValidTicks, Request.Starts;
    DriftLimits(spacing, tick);
    DriftAdaptive(spacing, z);
    DriftTicks(spacing, z);
  }

  /** The drifting request is one when the group size does not divide the spacing. */
  lemma DriftContext(spacing: nat, z: nat)
    requires 0 < spacing <= 65535 && 0 < z <= 65535 && spacing % z != 0 && DriftRequest(spacing, z).Valid()
    ensures DriftRequest(spacing, z).ContextOf().Valid()
    ensures Drifts(DriftRequest(spacing, z).ContextOf(), spacing, spacing / z)
    ensures DriftStart(DriftRequest(spacing, z).ContextOf(), DriftRequest(spacing, z).StartOf(), spacing, spacing / z)
  {
    var q := DriftRequest(spacing, z);
    hide WhirlpoolPrice.PriceAt, IsPriceMap, Request.Starts, Request.VolatilityReference, Request.Expired,
      Request.Renewed, Request.Nodes;
    ContextValid(q);
    DriftSorted(spacing, z);
    DriftArrays(spacing, z);
    DriftAdaptive(spacing, z);
    DriftGroup(spacing, z);
    CeilIff(10000, 10000, 1);
    CeilIff(10000, 10000, 0);
  }

  lemma DriftGroup(spacing: nat, z: nat)
    requires 0 < spacing && 0 < z && spacing % z != 0
    ensures spacing / z * z < spacing < (spacing / z + 1) * z && (spacing - 1) / z == spacing / z
  {
    var g := spacing / z;
    assert spacing == g * z + spacing % z;
    FloorIff(spacing, z, g);
    FloorIff(spacing - 1, z, g);
    FloorIff(spacing - 1, z, g + 1);
  }

  /** Whirlpool quotes charge the groups that they cross exactly when the group size divides the tick
      spacing, which the quote does not check. */
  lemma GroupSizeIff(spacing: nat, z: nat)
    requires 1 <= spacing <= 65535 && 1 <= z <= 65535
    ensures ChargesGroups(spacing, z) <==> spacing % z == 0
  {
    hide Ledger, AdaptiveQuote, ChargedAs, HasLeg;
    if spacing % z == 0 {
      forall q: Request, i: nat, g: int | HasLeg(q, spacing, z, i) ensures ChargedAs(q, i, g) {
        LegCharged(q, spacing, z, i, g);
      }
    } else {
      DriftFails(spacing, z);
      assert !ChargedAs(DriftRequest(spacing, z), 1, spacing / z);
    }
  }

  lemma LegCharged(q: Request, spacing: nat, z: nat, i: nat, g: int)
    requires HasLeg(q, spacing, z, i) && 0 < z && spacing % z == 0
    ensures ChargedAs(q, i, g)
  {
    hide Ledger, ChargedAs, Consistent, Request.Valid;
    QuoteGroups(q, i, g);
  }

  lemma DriftFails(spacing: nat, z: nat)
    requires 1 <= spacing <= 65535 && 1 <= z <= 65535 && spacing % z != 0
    ensures var q := DriftRequest(spacing, z);
      HasLeg(q, spacing, z, 1) && !ChargedAs(q, 1, spacing / z)
  {
    hide WhirlpoolPrice.PriceAt, Request.Valid, IsPriceMap, Ledger, Run, Enters, FeeAt, Drifts, DriftStart;
    var q := DriftRequest(spacing, z);
    DriftValidRequest(spacing, z, spacing - 1);
    DriftContext(spacing, z);
    DriftRun(q.ContextOf(), q.StartOf(), spacing, spacing / z);
  }
}
