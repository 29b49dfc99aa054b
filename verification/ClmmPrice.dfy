/** The Raydium CLMM price map. */
module ClmmPrice {
  import opened Arith
  import opened Ladder
  import opened Outcomes
  import opened ClmmTable
  import opened TickMap

  const MIN_SQRT_PRICE: nat := 4295048016
  const MAX_SQRT_PRICE: nat := 79226673521066979257578248091

  function Ratio(n: nat): (r: nat)
    ensures r > 0
  {
    FactorTable();
    GapSurvives(Factor, 19, Q64, Gap, 0, n, Q64);
    Product(Factor, 19, Q64, 0, n, Q64)
  }

  /** The price of a tick: the reciprocal ratio on the positive side. */
  function PriceAt(tick: int): nat {
    if tick > 0 then U128 / Ratio(tick) else Ratio(-tick)
  }

  lemma RatioFalls(n: nat)
    requires n < 443636
    ensures Ratio(n + 1) < Ratio(n)
  {
    FactorTable();
    Pow2Of19();
    FallingStep(Factor, 19, Q64, Low, Gap, 0, n);
  }

  lemma {:induction false} RatioAtMostOne(n: nat)
    requires n <= 443636
    ensures Ratio(n) <= Q64
  {
    if n > 0 {
      RatioFalls(n - 1);
      RatioAtMostOne(n - 1);
    } else {
      EmptyProduct(Factor, 19, Q64, 0, Q64);
    }
  }

  lemma RatioOne()
    ensures Ratio(1) == 0xfffcb933bd6fb800
  {
    var f := Q64 * Factor(0) / Q64;
    assert Product(Factor, 19, Q64, 0, 1, Q64) == Product(Factor, 19, Q64, 1, 0, f);
    EmptyProduct(Factor, 19, Q64, 1, f);
  }

  /** Between ratios of at most one, the truncated reciprocal tells any two apart. */
  lemma ReciprocalRises(r: nat, s: nat)
    requires 0 < s < r <= Q64
    ensures U128 / r < U128 / s
  {
    var q := U128 / r;
    FloorIff(U128, r, q);
    FloorIff(U128, r, Q64 - 1);
    MulMono(r, Q64, Q64 - 1);
    MulMono(s, r - 1, q);
    FloorIff(U128, s, q + 1);
    assert (q + 1) * s == q * s + s;
    assert q * (r - 1) == q * r - q;
  }

  /** One tick up is a strictly higher price, on both sides of zero and across it. */
  lemma PriceRises(tick: int)
    requires MIN_TICK <= tick < MAX_TICK
    ensures PriceAt(tick) < PriceAt(tick + 1)
  {
    if tick < 0 {
      RatioFalls(-tick - 1);
    } else if tick == 0 {
      EmptyProduct(Factor, 19, Q64, 0, Q64);
      RatioOne();
      FloorIff(U128, Ratio(1), Q64 + 1);
    } else {
      RatioFalls(tick);
      RatioAtMostOne(tick);
      ReciprocalRises(Ratio(tick), Ratio(tick + 1));
    }
  }

  lemma OutermostRatio(n: nat)
    requires n == 443636
    ensures Ratio(n) == MIN_SQRT_PRICE
  {
    FactorAtLimit(n);
  }

  lemma OutermostReciprocal(r: nat)
    requires r == MIN_SQRT_PRICE
    ensures U128 / r == MAX_SQRT_PRICE
  {
  }

  lemma OutermostPrice(tick: int)
    requires Abs(tick) == 443636
    ensures PriceAt(tick) == if tick < 0 then MIN_SQRT_PRICE else MAX_SQRT_PRICE
  {
    OutermostRatio(Abs(tick));
    OutermostReciprocal(Ratio(Abs(tick)));
  }

  /** The map is strictly increasing over the whole tick range, and the declared price limits
      are exactly the prices of its two ends. */
  lemma PriceMapValid(low: int, high: int)
    requires low == MIN_TICK && high == MAX_TICK
    ensures IsPriceMap(PriceAt, MIN_SQRT_PRICE, MAX_SQRT_PRICE)
  {
    forall t | MIN_TICK <= t < MAX_TICK
      ensures Rises(PriceAt, t)
    {
      PriceRises(t);
    }
    OutermostPrice(low);
    OutermostPrice(high);
  }

  /** Price of a tick by the loop over the bits of the tick's magnitude. */
  method SqrtPriceAtTick(tick: int) returns (r: Option<nat>)
    ensures r == if TickInRange(tick) then Some(PriceAt(tick)) else None
  {
    if !TickInRange(tick) { return None; }
    var ratio := Accumulate(Factor, 19, Q64, Abs(tick));
    assert ratio == Ratio(Abs(tick));
    r := Some(if tick > 0 then U128 / ratio else ratio);
  }

  predicate PriceInRange(price: nat) { MIN_SQRT_PRICE <= price < MAX_SQRT_PRICE }

  function Tick(price: nat): (t: int)
    requires PriceInRange(price)
    ensures IsTickOf(PriceAt, price, t)
  {
    hide Ratio;
    PriceMapValid(MIN_TICK, MAX_TICK);
    TickAt(PriceAt, price)
  }

  /** Tick of a price: the greatest tick whose price does not exceed it. */
  method TickAtSqrtPrice(price: nat) returns (r: Option<int>)
    ensures r == if PriceInRange(price) then Some(Tick(price)) else None
  {
    if !PriceInRange(price) { return None; }
    PriceMapValid(MIN_TICK, MAX_TICK);
    var tick := Bisect(PriceAt, price, MIN_SQRT_PRICE, MAX_SQRT_PRICE);
    r := Some(tick);
  }

  /** The two maps are inverse on every tick that has a price in the accepted range. */
  lemma TickOfTickPrice(tick: int)
    requires MIN_TICK <= tick < MAX_TICK
    ensures PriceInRange(PriceAt(tick)) && Tick(PriceAt(tick)) == tick
  {
    hide Ratio;
    PriceMapValid(MIN_TICK, MAX_TICK);
    Increasing(PriceAt, MIN_SQRT_PRICE, MAX_SQRT_PRICE, tick, MAX_TICK);
    TickOfPrice(PriceAt, MIN_SQRT_PRICE, MAX_SQRT_PRICE, tick);
  }
}
