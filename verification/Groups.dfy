/** Volatility groups: runs of `size` ticks, clamped to the tick range, and the prices they cover. */
module Groups {
  import opened Arith
  import opened TickMap

  function Clamp(tick: int): int { Max(MIN_TICK, Min(MAX_TICK, tick)) }

  /** The lowest tick of a group. */
  function Low(size: nat, group: int): (t: int)
    ensures TickInRange(t)
  {
    Clamp(group * size)
  }

  /** A price within the ticks of a group, both ends included. */
  predicate InGroup(m: PriceMap, size: nat, group: int, p: nat) {
    m(Low(size, group)) <= p <= m(Low(size, group + 1))
  }

  /** A stretch of prices has more than an end in common with those of a group. */
  predicate Enters(m: PriceMap, size: nat, group: int, from: nat, to: nat) {
    m(Low(size, group)) < Max(from, to) && Min(from, to) < m(Low(size, group + 1))
  }

  /** An aligned tick below the low end of a group is at or below the low end of the group before. */
  lemma AlignedBelow(a: int, group: int, size: nat)
    requires size > 0 && a % size == 0 && TickInRange(a) && a < Low(size, group)
    ensures a <= Low(size, group - 1)
  {
    var k := a / size;
    assert a == k * size;
    if k >= group { MulMono(group, k, size); }
    MulMono(k, group - 1, size);
  }

  lemma AlignedAbove(a: int, group: int, size: nat)
    requires size > 0 && a % size == 0 && TickInRange(a) && Low(size, group) < a
    ensures Low(size, group + 1) <= a
  {
    var k := a / size;
    assert a == k * size;
    if k <= group { MulMono(k, group, size); }
    MulMono(group + 1, k, size);
  }

  /** An aligned tick never lies strictly inside the group of a tick. */
  lemma GroupOfTick(tick: int, size: nat, a: int)
    requires size > 0 && a % size == 0
    ensures tick / size * size <= tick < (tick / size + 1) * size
    ensures if a <= tick then a <= tick / size * size else (tick / size + 1) * size <= a
  {
    var g, k := tick / size, a / size;
    assert a == k * size && tick == g * size + tick % size;
    Distribute(size, g, 1);
    if k <= g { MulMono(k, g, size); } else { MulMono(g + 1, k, size); }
  }

  /** An aligned tick at or below the low end of a group that is not all below the range is of that group or a
      lower one. */
  lemma AtOrBelow(size: nat, k: int, group: int)
    requires size > 0 && TickInRange(k * size) && k * size <= Low(size, group) && MIN_TICK < Low(size, group + 1)
    ensures k <= group
  {
    Distribute(size, group, 1);
    if group < k { MulMono(group + 1, k, size); }
  }

  lemma AtOrAbove(size: nat, k: int, group: int)
    requires size > 0 && TickInRange(k * size) && Low(size, group + 1) <= k * size && Low(size, group) < MAX_TICK
    ensures group + 1 <= k
  {
    Distribute(size, group, 1);
    if k <= group { MulMono(k, group, size); }
  }

  /** A group that reaches above a tick is not below the tick's own group. */
  lemma ReachesAbove(size: nat, tick: int, group: int)
    requires size > 0 && TickInRange(tick) && tick < Low(size, group + 1)
    ensures tick / size <= group
  {
    GroupIff(tick, size);
    if group + 1 <= tick / size { MulMono(group + 1, tick / size, size); }
  }

  /** A group that reaches below a tick is not above the tick's own group. */
  lemma ReachesBelow(size: nat, tick: int, group: int)
    requires size > 0 && TickInRange(tick) && Low(size, group) < tick
    ensures group <= tick / size
  {
    GroupIff(tick, size);
    if tick / size + 1 <= group { MulMono(tick / size + 1, group, size); }
  }

  lemma LowRises(size: nat, g: int, h: int)
    requires g <= h
    ensures Low(size, g) <= Low(size, h)
  {
    MulMono(g, h, size);
  }

  /** Prices stand in the order of their ticks. */
  lemma PriceOrder(m: PriceMap, floor: nat, ceiling: nat, a: int, b: int)
    requires IsPriceMap(m, floor, ceiling) && TickInRange(a) && TickInRange(b)
    ensures a < b <==> m(a) < m(b)
    ensures a == b <==> m(a) == m(b)
  {
    if a <= b { Increasing(m, floor, ceiling, a, b); } else { Increasing(m, floor, ceiling, b, a); }
  }

  /** A stretch that does not reach above a group's low end enters only lower groups. */
  lemma EntersBelow(m: PriceMap, floor: nat, ceiling: nat, size: nat, group: int, from: nat, to: nat, g: int)
    requires IsPriceMap(m, floor, ceiling) && Max(from, to) <= m(Low(size, group)) && Enters(m, size, g, from, to)
    ensures g < group
  {
    hide IsPriceMap;
    PriceOrder(m, floor, ceiling, Low(size, g), Low(size, group));
    if group <= g { LowRises(size, group, g); }
  }

  /** A stretch that does not reach below a group's high end enters only higher groups. */
  lemma EntersAbove(m: PriceMap, floor: nat, ceiling: nat, size: nat, group: int, from: nat, to: nat, g: int)
    requires IsPriceMap(m, floor, ceiling) && m(Low(size, group + 1)) <= Min(from, to) && Enters(m, size, g, from, to)
    ensures group < g
  {
    hide IsPriceMap;
    PriceOrder(m, floor, ceiling, Low(size, group + 1), Low(size, g + 1));
    if g <= group { LowRises(size, g + 1, group + 1); }
  }

  /** A stretch inside a group enters no other. */
  lemma EntersOwn(m: PriceMap, floor: nat, ceiling: nat, size: nat, group: int, from: nat, to: nat, g: int)
    requires IsPriceMap(m, floor, ceiling) && InGroup(m, size, group, from) && InGroup(m, size, group, to)
    requires Enters(m, size, g, from, to)
    ensures g == group
  {
    hide IsPriceMap;
    EntersBelow(m, floor, ceiling, size, group + 1, from, to, g);
    EntersAbove(m, floor, ceiling, size, group - 1, from, to, g);
  }
}
