/** The Orca Whirlpool price map: one product table for each sign of the tick. */
module WhirlpoolPrice {
  import opened Arith
  import opened Ladder
  import opened Outcomes
  import opened WhirlpoolTable
  import opened TickMap

  const MIN_SQRT_PRICE: nat := 4295048016
  const MAX_SQRT_PRICE: nat := 79226673515401279992447579055
  const Q32: nat := 0x1_0000_0000

  function Up(n: nat): nat { Product(Positive, 19, Q96, 0, n, Q96) }

  function Down(n: nat): nat { Product(Negative, 19, Q64, 0, n, Q64) }

  function PriceAt(tick: int): nat {
    if tick >= 0 then Up(tick) / Q32 else Down(-tick)
  }

  lemma DownFalls(n: nat)
    requires n < 443636
    ensures Down(n + 1) < Down(n)
  {
    NegativeTable();
    Pow2Of19();
    FallingStep(Negative, 19, Q64, NegativeLow, NegativeGap, 0, n);
  }

  /** One more tick adds at least the whole weight of the 32 bits dropped at the end. */
  lemma UpRises(n: nat)
    requires n < 443636
    ensures Up(n) + Q32 <= Up(n + 1)
  {
    PositiveTable();
    Pow2Of19();
    RisingStep(Positive, 19, Q96, PositiveLow, PositiveGap, 0, n);
  }

  lemma PriceRises(tick: int)
    requires MIN_TICK <= tick < MAX_TICK
    ensures PriceAt(tick) < PriceAt(tick + 1)
  {
    if tick >= 0 {
      UpRises(tick);
      FloorMono(Up(tick) + Q32, Up(tick + 1), Q32);
    } else {
      DownFalls(-tick - 1);
      if tick == -1 {
        EmptyProduct(Positive, 19, Q96, 0, Q96);
        EmptyProduct(Negative, 19, Q64, 0, Q64);
      }
    }
  }

  lemma OutermostPrice(tick: int)
    requires Abs(tick) == 443636
    ensures PriceAt(tick) == if tick < 0 then MIN_SQRT_PRICE else MAX_SQRT_PRICE
  {
    if tick < 0 {
      OutermostDown(-tick);
    } else {
      OutermostUp(tick);
    }
  }

  lemma OutermostDown(n: nat)
    requires n == 443636
    ensures Down(n) == MIN_SQRT_PRICE
  {
    NegativeAtLimit(n);
  }

  lemma OutermostUp(n: nat)
    requires n == 443636
    ensures Up(n) / Q32 == MAX_SQRT_PRICE
  {
    PositiveAtLimit(n);
  }

  /** Strictly increasing over the whole range, between exactly the declared limits. */
  lemma PriceMapValid(low: int, high: int)
    requires low == MIN_TICK && high == MAX_TICK
    ensures IsPriceMap(PriceAt, MIN_SQRT_PRICE, MAX_SQRT_PRICE)
  {
    forall t | MIN_TICK <= t < MAX_TICK
      ensures Rises(PriceAt, t)
    {
      PriceRises(t);
    }
    OutermostPrice(low);
    OutermostPrice(high);
  }

  /** Price of a tick: the table and the shift depend on the sign. */
  method SqrtPriceAtTick(tick: int) returns (r: Option<nat>)
    ensures r == if TickInRange(tick) then Some(PriceAt(tick)) else None
  {
    if !TickInRange(tick) { return None; }
    var positive := tick >= 0;
    var ratio := Accumulate(if positive then Positive else Negative, 19, if positive then Q96 else Q64, Abs(tick));
    r := Some(if positive then ratio / Q32 else ratio);
  }

  predicate PriceInRange(price: nat) { MIN_SQRT_PRICE <= price <= MAX_SQRT_PRICE }

  function Tick(price: nat): (t: int)
    requires PriceInRange(price)
    ensures IsTickOf(PriceAt, price, t)
  {
    hide Up, Down;
    PriceMapValid(MIN_TICK, MAX_TICK);
    TickAt(PriceAt, price)
  }

  method TickAtSqrtPrice(price: nat) returns (r: Option<int>)
    ensures r == if PriceInRange(price) then Some(Tick(price)) else None
  {
    if !PriceInRange(price) { return None; }
    PriceMapValid(MIN_TICK, MAX_TICK);
    var tick := Bisect(PriceAt, price, MIN_SQRT_PRICE, MAX_SQRT_PRICE);
    r := Some(tick);
  }

  /** The two maps are inverse on every tick, the last one included. */
  lemma TickOfTickPrice(tick: int)
    requires TickInRange(tick)
    ensures PriceInRange(PriceAt(tick)) && Tick(PriceAt(tick)) == tick
  {
    hide Up, Down;
    PriceMapValid(MIN_TICK, MAX_TICK);
    WithinLimits(PriceAt, MIN_SQRT_PRICE, MAX_SQRT_PRICE, tick);
    TickOfPrice(PriceAt, MIN_SQRT_PRICE, MAX_SQRT_PRICE, tick);
  }
}
