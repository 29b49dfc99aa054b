/** Ticks, square-root prices and the bisection that turns a price back into a tick.  Stated
    for any price map over the common tick range; both engines supply their own. */
module TickMap {
  const MIN_TICK: int := -443636
  const MAX_TICK: int := 443636

  type PriceMap = int -> nat

  predicate TickInRange(tick: int) { MIN_TICK <= tick <= MAX_TICK }

  predicate Rises(m: PriceMap, tick: int) { m(tick) < m(tick + 1) }

  /** A map that is strictly increasing over the whole range, between two known limits. */
  predicate IsPriceMap(m: PriceMap, floor: nat, ceiling: nat) {
    && m(MIN_TICK) == floor && m(MAX_TICK) == ceiling
    && forall t | MIN_TICK <= t < MAX_TICK :: Rises(m, t)
  }

  lemma {:induction false} Increasing(m: PriceMap, floor: nat, ceiling: nat, low: int, high: int)
    requires IsPriceMap(m, floor, ceiling) && MIN_TICK <= low <= high <= MAX_TICK
    ensures m(low) <= m(high) && (low < high ==> m(low) < m(high))
    decreases high - low
  {
    if low == high {
    } else {
      Increasing(m, floor, ceiling, low, high - 1);
      assert Rises(m, high - 1);
    }
  }

  lemma WithinLimits(m: PriceMap, floor: nat, ceiling: nat, tick: int)
    requires IsPriceMap(m, floor, ceiling) && TickInRange(tick)
    ensures m(MIN_TICK) == floor <= m(tick) <= ceiling == m(MAX_TICK)
  {
    Increasing(m, floor, ceiling, MIN_TICK, tick);
    Increasing(m, floor, ceiling, tick, MAX_TICK);
  }

  /** `tick` is the greatest tick whose price does not exceed `price`. */
  predicate IsTickOf(m: PriceMap, price: nat, tick: int) {
    TickInRange(tick) && m(tick) <= price && (tick < MAX_TICK ==> price < m(tick + 1))
  }

  /** Reference definition by a linear scan downwards. */
  function Descend(m: PriceMap, price: nat, tick: int): (t: int)
    requires TickInRange(tick) && m(MIN_TICK) <= price
    ensures MIN_TICK <= t <= tick && m(t) <= price && (t < tick ==> price < m(t + 1))
    decreases tick - MIN_TICK
  {
    if m(tick) <= price then tick else Descend(m, price, tick - 1)
  }

  function TickAt(m: PriceMap, price: nat): (t: int)
    requires m(MIN_TICK) <= price
    ensures IsTickOf(m, price, t)
  {
    Descend(m, price, MAX_TICK)
  }

  lemma TickAtUnique(m: PriceMap, floor: nat, ceiling: nat, price: nat, tick: int)
    requires IsPriceMap(m, floor, ceiling) && floor <= price
    ensures tick == TickAt(m, price) <==> IsTickOf(m, price, tick)
  {
    var t := TickAt(m, price);
    if IsTickOf(m, price, tick) {
      if t < tick {
        Increasing(m, floor, ceiling, t + 1, tick);
      } else if tick < t {
        Increasing(m, floor, ceiling, tick + 1, t);
      }
    }
  }

  /** The two maps are inverse on every tick. */
  lemma TickOfPrice(m: PriceMap, floor: nat, ceiling: nat, tick: int)
    requires IsPriceMap(m, floor, ceiling) && TickInRange(tick)
    ensures floor <= m(tick) && TickAt(m, m(tick)) == tick
  {
    WithinLimits(m, floor, ceiling, tick);
    if tick < MAX_TICK { assert Rises(m, tick); }
    TickAtUnique(m, floor, ceiling, m(tick), tick);
  }

  /** The standing tick and its successor enclose the price.  One below the lowest tick is the
      standing tick after that tick was crossed downwards. */
  predicate Brackets(m: PriceMap, tick: int, price: nat) {
    && MIN_TICK - 1 <= tick <= MAX_TICK
    && (MIN_TICK <= tick ==> m(tick) <= price)
    && (tick < MAX_TICK ==> price <= m(tick + 1))
  }

  /** The tick found for a price strictly between the standing price and a next tick's price
      lies between the standing tick and that next tick. */
  lemma TickBetween(m: PriceMap, floor: nat, ceiling: nat, down: bool, tick: int, current: nat, next: int, price: nat)
    requires IsPriceMap(m, floor, ceiling) && Brackets(m, tick, current) && TickInRange(next)
    requires floor <= price && if down then m(next) < price < current else current < price < m(next)
    ensures var t := TickAt(m, price); if down then next <= t <= tick else tick <= t < next
  {
    var t := TickAt(m, price);
    if t < next {
      Increasing(m, floor, ceiling, t + 1, next);
    } else {
      Increasing(m, floor, ceiling, next, t);
    }
    if tick < t {
      Increasing(m, floor, ceiling, tick + 1, t);
    } else if t < tick {
      Increasing(m, floor, ceiling, t + 1, tick);
    }
  }

  /** Bisection over the whole tick range. */
  method Bisect(m: PriceMap, price: nat, ghost floor: nat, ghost ceiling: nat) returns (tick: int)
    requires IsPriceMap(m, floor, ceiling) && floor <= price
    ensures tick == TickAt(m, price)
  {
    hide IsPriceMap;
    WithinLimits(m, floor, ceiling, MIN_TICK);
    var lo, hi := MIN_TICK, MAX_TICK;
    while lo < hi
      invariant MIN_TICK <= lo <= hi <= MAX_TICK
      invariant m(lo) <= price && (hi < MAX_TICK ==> price < m(hi + 1))
    {
      var middle := (lo + hi + 1) / 2;
      if m(middle) <= price { lo := middle; } else { hi := middle - 1; }
    }
    TickAtUnique(m, floor, ceiling, price, lo);
    tick := lo;
  }
}
