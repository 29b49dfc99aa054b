/** Pump v3 buys: a bonding-curve leg and, when the buy completes the curve, a pool leg. */
module PumpV3 {
  import opened Arith
  import opened Outcomes

  const BPS: nat := 10_000

  datatype Fault = OutsideU64 | CurveComplete | InvalidReserves | EmptyPool | ExceedsU64 | NotEnoughTokens

  datatype State = State(
    virtualBase: int, virtualQuote: int, remainingBase: int, realQuote: int, curveBaseBalance: int,
    migrationFee: int, protocolBps: int, creatorBps: int, complete: bool, mayhem: bool)
  {
    predicate Words() {
      && 0 <= virtualBase <= U64 && 0 <= virtualQuote <= U64 && 0 <= remainingBase <= U64 && 0 <= realQuote <= U64
      && 0 <= curveBaseBalance <= U64 && 0 <= migrationFee <= U64 && 0 <= protocolBps <= U64 && 0 <= creatorBps <= U64
    }

    predicate Valid() {
      Words() && !complete && virtualBase > remainingBase && virtualQuote > 0 && protocolBps + creatorBps <= BPS
    }
  }

  datatype Quote = Quote(
    curveBase: nat, curveQuote: nat, poolBase: nat, poolQuote: nat, protocolFee: nat, creatorFee: nat,
    baseOut: nat, quoteIn: nat)

  datatype Pool = Pool(base: nat, quote: nat)

  function Validate(s: State, amount: int): (r: Result<nat, Fault>)
    ensures r.Ok? <==> s.Valid() && 0 <= amount <= U64
    ensures r.Ok? ==> r.value == amount
  {
    if !s.Words() || !(0 <= amount <= U64) then Err(OutsideU64)
    else if s.complete then Err(CurveComplete)
    else if s.virtualBase <= s.remainingBase || s.virtualQuote == 0 || s.protocolBps + s.creatorBps > BPS then
      Err(InvalidReserves)
    else Ok(amount)
  }

  function Fee(n: nat, bps: nat): nat { Ceil(n * bps, BPS) }

  /** An amount with both of its ceiled fees. */
  function Gross(n: nat, s: State): nat
    requires s.Valid()
  {
    n + Fee(n, s.protocolBps) + Fee(n, s.creatorBps)
  }

  /** The first estimate of what a budget leaves after fees. */
  function Estimate(b: nat, s: State): nat
    requires s.Valid()
  {
    MulDiv(b, BPS, BPS + s.protocolBps + s.creatorBps)
  }

  function Net(b: nat, s: State): (n: nat)
    requires s.Valid()
  {
    EstimateClose(b, s);
    var n := Estimate(b, s);
    var c := Gross(n, s);
    n - if c > b then c - b else 0
  }

  lemma GrossGrows(m: nat, n: nat, s: State)
    requires s.Valid() && m <= n
    ensures Gross(n, s) >= Gross(m, s) + (n - m)
  {
    MulMono(m, n, s.protocolBps);
    MulMono(m, n, s.creatorBps);
    CeilMono(m * s.protocolBps, n * s.protocolBps, BPS);
    CeilMono(m * s.creatorBps, n * s.creatorBps, BPS);
  }

  /** Two ceiled fees are within two of the exact fee. */
  lemma GrossBounds(n: nat, s: State)
    requires s.Valid()
    ensures n * (BPS + s.protocolBps + s.creatorBps) <= Gross(n, s) * BPS
    ensures Gross(n, s) * BPS < n * (BPS + s.protocolBps + s.creatorBps) + 2 * BPS
    ensures n == 0 ==> Gross(n, s) == 0
  {
    CeilIff(n * s.protocolBps, BPS, 0);
    CeilIff(n * s.creatorBps, BPS, 0);
    hide Ceil;
    assert n * (BPS + s.protocolBps + s.creatorBps) == n * BPS + n * s.protocolBps + n * s.creatorBps;
  }

  /** The estimate overshoots the budget by at most one, and one more always overshoots. */
  lemma EstimateClose(b: nat, s: State)
    requires s.Valid()
    ensures Gross(Estimate(b, s), s) <= b + 1 && Gross(Estimate(b, s) + 1, s) > b
    ensures Gross(Estimate(b, s), s) > b ==> Estimate(b, s) > 0
  {
    hide Gross;
    var d := BPS + s.protocolBps + s.creatorBps;
    var n := Estimate(b, s);
    FloorIff(b * BPS, d, n);
    GrossBounds(n, s);
    GrossBounds(n + 1, s);
  }

  /** The budget's net amount is the greatest whose fees still fit the budget. */
  lemma NetIff(b: nat, s: State, n: nat)
    requires s.Valid()
    ensures n <= Net(b, s) <==> Gross(n, s) <= b
  {
    hide Gross, Estimate;
    EstimateClose(b, s);
    var e := Estimate(b, s);
    if n <= Net(b, s) {
      GrossGrows(n, Net(b, s), s);
      GrossGrows(Net(b, s), e, s);
    } else {
      GrossGrows(Net(b, s) + 1, n, s);
      if Gross(e, s) <= b { GrossGrows(e + 1, n, s); }
    }
  }

  lemma NetMonotone(a: nat, b: nat, s: State)
    requires s.Valid() && a <= b
    ensures Net(a, s) <= Net(b, s)
  {
    NetIff(a, s, Net(a, s));
    NetIff(b, s, Net(a, s));
  }

  function CurveCost(n: nat, s: State): nat
    requires s.Valid() && n <= s.remainingBase
  {
    if n == 0 then 0 else MulDiv(n, s.virtualQuote, s.virtualBase - n) + 1
  }

  function PoolToBe(s: State, curveQuote: nat): Result<Pool, Fault>
    requires s.Valid()
  {
    var base := s.curveBaseBalance - s.remainingBase;
    var quote := s.realQuote + curveQuote - s.migrationFee;
    if base <= 0 || quote <= 0 then Err(EmptyPool) else Ok(Pool(base, quote))
  }

  function Settle(cb: nat, cq: nat, pb: nat, pq: nat, s: State): (r: Result<Quote, Fault>)
    requires s.Valid()
  {
    var protocolFee := Fee(cq, s.protocolBps) + Fee(pq, s.protocolBps);
    var creatorFee := Fee(cq, s.creatorBps) + Fee(pq, s.creatorBps);
    var baseOut, quoteIn := cb + pb, cq + pq + protocolFee + creatorFee;
    if baseOut > U64 || quoteIn > U64 then Err(ExceedsU64)
    else Ok(Quote(cb, cq, pb, pq, protocolFee, creatorFee, baseOut, quoteIn))
  }

  function PoolCost(p: Pool, base: nat): nat
    requires base < p.base
  {
    Ceil(p.quote * base, p.base - base)
  }

  function QuoteExactOut(s: State, amount: int, partialFill: bool): Result<Quote, Fault> {
    var wanted :- Validate(s, amount);
    var cb: nat := if wanted < s.remainingBase then wanted else s.remainingBase;
    var cq := CurveCost(cb, s);
    if wanted <= s.remainingBase then Settle(cb, cq, 0, 0, s)
    else if s.mayhem then if !partialFill then Err(NotEnoughTokens) else Settle(cb, cq, 0, 0, s)
    else
      var pool :- PoolToBe(s, cq);
      var pb: nat := wanted - cb;
      if pb >= pool.base then Err(NotEnoughTokens) else Settle(cb, cq, pb, PoolCost(pool, pb), s)
  }

  /** Constant-product output of all but one unit of a net payment. */
  function SwapOut(n: nat, base: nat, quote: nat): nat
    requires n > 0 && quote > 0
  {
    MulDiv(n - 1, base, quote + n - 1)
  }

  function Affordable(s: State, budget: nat): nat
    requires s.Valid() && Net(budget, s) > 1
  {
    SwapOut(Net(budget, s), s.virtualBase, s.virtualQuote)
  }

  function QuoteExactIn(s: State, budget: int): Result<Quote, Fault> {
    var whole :- Validate(s, budget);
    if Net(whole, s) <= 1 then Settle(0, 0, 0, 0, s)
    else
      var tokens := Affordable(s, whole);
      var cb: nat := if tokens < s.remainingBase then tokens else s.remainingBase;
      var cq := CurveCost(cb, s);
      if tokens <= s.remainingBase || s.mayhem then Settle(cb, cq, 0, 0, s)
      else
        var left := whole - cq - Fee(cq, s.protocolBps) - Fee(cq, s.creatorBps);
        if left <= 0 || Net(left, s) <= 1 then Settle(cb, cq, 0, 0, s)
        else
          var pool :- PoolToBe(s, cq);
          var pb := SwapOut(Net(left, s), pool.base, pool.quote);
          if pb == 0 then Settle(cb, cq, 0, 0, s) else Settle(cb, cq, pb, Net(left, s), s)
  }

  /** What a payment buys is what all but one unit of it covers. */
  lemma SwapOutIff(n: nat, base: nat, quote: nat, out: nat)
    requires n > 0 && quote > 0
    ensures out <= SwapOut(n, base, quote) <==> out * quote <= (n - 1) * (base - out)
  {
    var m: nat := n - 1;
    assert SwapOut(n, base, quote) == MulDiv(m, base, quote + m);
    hide SwapOut;
    FloorIff(m * base, quote + m, out);
    TakenOut(out, quote, m, base);
  }

  lemma SwapOutMonotone(m: nat, n: nat, base: nat, quote: nat)
    requires 0 < m <= n && quote > 0
    ensures SwapOut(m, base, quote) <= SwapOut(n, base, quote)
    ensures base > 0 ==> SwapOut(n, base, quote) < base
    ensures SwapOut(n, base, quote) <= base
  {
    hide SwapOut;
    var out := SwapOut(m, base, quote);
    SwapOutIff(m, base, quote, out);
    SwapOutIff(m, base, quote, base);
    SwapOutIff(n, base, quote, base);
    SwapOutIff(n, base, quote, base + 1);
    assert base > 0 ==> base * quote > 0;
    assert (base + 1) * quote > 0;
    SwapOutIff(n, base, quote, out);
    if out <= base { MulMono(m - 1, n - 1, base - out); }
  }

  /** The curve leg of an exact-in quote costs at most the net budget. */
  lemma CurveLegFits(s: State, n: nat, cb: nat)
    requires s.Valid() && n > 0 && cb <= s.remainingBase && cb <= SwapOut(n, s.virtualBase, s.virtualQuote)
    ensures CurveCost(cb, s) <= n
  {
    hide SwapOut;
    SwapOutIff(n, s.virtualBase, s.virtualQuote, cb);
    var left: nat, quote: nat := s.virtualBase - cb, s.virtualQuote;
    FloorIff(cb * quote, left, n);
    assert n * left == (n - 1) * left + left;
  }

  /** The pool leg of an exact-in quote costs less than its net payment. */
  lemma PoolLegFits(p: Pool, n: nat, pb: nat)
    requires n > 0 && p.quote > 0 && pb < p.base && pb <= SwapOut(n, p.base, p.quote)
    ensures PoolCost(p, pb) < n
  {
    hide SwapOut;
    SwapOutIff(n, p.base, p.quote, pb);
    CeilIff(p.quote * pb, p.base - pb, n - 1);
  }

  /** Neither constant product falls. */
  lemma CurveProduct(s: State, cb: nat)
    requires s.Valid() && cb <= s.remainingBase
    ensures (s.virtualBase - cb) * (s.virtualQuote + CurveCost(cb, s)) >= s.virtualBase * s.virtualQuote
  {
    var left: nat, quote: nat := s.virtualBase - cb, s.virtualQuote;
    var cost := CurveCost(cb, s);
    if cb > 0 { FloorIff(cb * quote, left, 0); }
    assert cb * quote <= cost * left;
    assert left * (quote + cost) == left * quote + left * cost;
    assert s.virtualBase * quote == left * quote + cb * quote;
  }

  lemma PoolProduct(p: Pool, pb: nat, paid: nat)
    requires pb < p.base && PoolCost(p, pb) <= paid
    ensures (p.base - pb) * (p.quote + paid) >= p.base * p.quote
  {
    CeilIff(p.quote * pb, p.base - pb, paid);
    assert (p.base - pb) * (p.quote + paid) == (p.base - pb) * p.quote + (p.base - pb) * paid;
    assert (p.base - pb) * p.quote == p.base * p.quote - pb * p.quote;
  }

  /** The pool a completing buy trades against. */
  function Legs(s: State, q: Quote): (r: Result<Pool, Fault>)
    requires s.Valid()
  {
    PoolToBe(s, q.curveQuote)
  }

  /** Both constant products are at least what they were. */
  ghost predicate ProductsKept(s: State, q: Quote)
    requires s.Valid()
  {
    && q.curveBase <= s.remainingBase
    && (s.virtualBase - q.curveBase) * (s.virtualQuote + q.curveQuote) >= s.virtualBase * s.virtualQuote
    && (q.poolBase > 0 ==>
        var p := Legs(s, q);
        p.Ok? && q.curveBase == s.remainingBase && q.poolBase < p.value.base
        && (p.value.base - q.poolBase) * (p.value.quote + q.poolQuote) >= p.value.base * p.value.quote)
  }

  /** The two legs of an exact-in quote after validation. */
  datatype Plan = Plan(cb: nat, cq: nat, pb: nat, pq: nat)

  predicate PlanFits(s: State, budget: nat, plan: Plan)
    requires s.Valid()
  {
    && plan.cb <= s.remainingBase && plan.cq == CurveCost(plan.cb, s)
    && Gross(plan.cq, s) + Gross(plan.pq, s) <= budget
    && (plan.pb > 0 ==>
        && plan.cb == s.remainingBase && !s.mayhem && PoolToBe(s, plan.cq).Ok?
        && plan.pb < PoolToBe(s, plan.cq).value.base
        && PoolCost(PoolToBe(s, plan.cq).value, plan.pb) <= plan.pq)
    && (plan.pb == 0 ==> plan.pq == 0)
  }

  /** Every successful exact-in quote settles a plan that fits its budget; the only failure after
      validation is an empty pool. */
  lemma ExactInPlan(s: State, budget: nat) returns (plan: Plan)
    requires s.Valid() && budget <= U64
    ensures QuoteExactIn(s, budget) == Err(EmptyPool) || (
      PlanFits(s, budget, plan) && QuoteExactIn(s, budget) == Settle(plan.cb, plan.cq, plan.pb, plan.pq, s))
  {
    hide Gross, Fee, SwapOut, CurveCost, Net, PoolCost, Settle;
    plan := Plan(0, 0, 0, 0);
    GrossBounds(0, s);
    CurveNothing(s);
    if Net(budget, s) > 1 {
      var n := Net(budget, s);
      var tokens := Affordable(s, budget);
      var cb: nat := if tokens < s.remainingBase then tokens else s.remainingBase;
      var cq := CurveCost(cb, s);
      CurveLegFits(s, n, cb);
      NetIff(budget, s, cq);
      plan := Plan(cb, cq, 0, 0);
      if tokens > s.remainingBase && !s.mayhem {
        GrossIs(cq, s);
        var left: nat := budget - Gross(cq, s);
        if Net(left, s) > 1 && PoolToBe(s, cq).Ok? {
          var pool := PoolToBe(s, cq).value;
          var pb := SwapOut(Net(left, s), pool.base, pool.quote);
          SwapOutMonotone(Net(left, s), Net(left, s), pool.base, pool.quote);
          PoolLegFits(pool, Net(left, s), pb);
          NetIff(left, s, Net(left, s));
          GrossGrows(0, Net(left, s), s);
          if pb > 0 { plan := Plan(cb, cq, pb, Net(left, s)); }
        }
      }
    }
  }

  lemma GrossIs(n: nat, s: State)
    requires s.Valid()
    ensures Gross(n, s) == n + Fee(n, s.protocolBps) + Fee(n, s.creatorBps)
  {
  }

  lemma CurveNothing(s: State)
    requires s.Valid()
    ensures CurveCost(0, s) == 0
  {
  }

  /** The exact-in quote never spends more than its budget, keeps both constant products, and
      fails after validation only on an empty pool-to-be. */
  lemma ExactInFits(s: State, budget: nat)
    requires s.Valid() && budget <= U64
    ensures QuoteExactIn(s, budget).Err? ==> QuoteExactIn(s, budget) == Err(EmptyPool)
    ensures QuoteExactIn(s, budget).Ok? ==> QuoteExactIn(s, budget).value.quoteIn <= budget
    ensures QuoteExactIn(s, budget).Ok? ==> ProductsKept(s, QuoteExactIn(s, budget).value)
  {
    hide Gross, Fee, CurveCost, QuoteExactIn, PoolCost;
    var plan := ExactInPlan(s, budget);
    if QuoteExactIn(s, budget) != Err(EmptyPool) {
      PlanSettles(s, budget, plan);
      CurveProduct(s, plan.cb);
      if plan.pb > 0 { PoolProduct(PoolToBe(s, plan.cq).value, plan.pb, plan.pq); }
    }
  }

  /** A plan that fits a budget settles. */
  lemma PlanSettles(s: State, budget: nat, plan: Plan)
    requires s.Valid() && budget <= U64 && PlanFits(s, budget, plan)
    ensures Settle(plan.cb, plan.cq, plan.pb, plan.pq, s).Ok?
    ensures Settle(plan.cb, plan.cq, plan.pb, plan.pq, s).value.quoteIn == Gross(plan.cq, s) + Gross(plan.pq, s)
  {
    hide Fee, CurveCost, PoolCost;
  }

  /** Buying exactly what an exact-in quote gives succeeds and costs at most what it charged. */
  lemma ExactOutCheaper(s: State, budget: nat, partialFill: bool)
    requires s.Valid() && budget <= U64 && QuoteExactIn(s, budget).Ok?
    ensures var q := QuoteExactIn(s, budget).value;
      && QuoteExactOut(s, q.baseOut, partialFill).Ok?
      && QuoteExactOut(s, q.baseOut, partialFill).value.baseOut == q.baseOut
      && QuoteExactOut(s, q.baseOut, partialFill).value.quoteIn <= q.quoteIn
  {
    hide Gross, Fee, CurveCost, QuoteExactIn, PoolCost;
    var plan := ExactInPlan(s, budget);
    PlanSettles(s, budget, plan);
    if plan.pb > 0 {
      var pool := PoolToBe(s, plan.cq).value;
      var cheaper := plan.(pq := PoolCost(pool, plan.pb));
      GrossGrows(cheaper.pq, plan.pq, s);
      PlanSettles(s, budget, cheaper);
    }
  }

  /** A larger budget never buys less over both legs. */
  lemma ExactInMonotone(s: State, a: nat, b: nat)
    requires s.Valid() && a <= b <= U64 && QuoteExactIn(s, a).Ok? && QuoteExactIn(s, b).Ok?
    ensures QuoteExactIn(s, a).value.baseOut <= QuoteExactIn(s, b).value.baseOut
  {
    hide Gross, Fee, SwapOut, CurveCost, Net, PoolCost;
    NetMonotone(a, b, s);
    if Net(a, s) > 1 {
      SwapOutMonotone(Net(a, s), Net(b, s), s.virtualBase, s.virtualQuote);
      if Affordable(s, a) > s.remainingBase && !s.mayhem {
        var cq := CurveCost(s.remainingBase, s);
        GrossIs(cq, s);
        var x, y := a - Gross(cq, s), b - Gross(cq, s);
        if x > 0 && Net(x, s) > 1 {
          NetMonotone(x, y, s);
          var pool := PoolToBe(s, cq).value;
          SwapOutMonotone(Net(x, s), Net(y, s), pool.base, pool.quote);
        }
      }
    }
  }

  /** Every successful exact-out quote buys what was asked, or the whole curve on a partial fill,
      and keeps both constant products. */
  lemma ExactOutKept(s: State, amount: nat, partialFill: bool)
    requires QuoteExactOut(s, amount, partialFill).Ok?
    ensures var q := QuoteExactOut(s, amount, partialFill).value;
      && ProductsKept(s, q)
      && q.baseOut == (if s.mayhem && amount > s.remainingBase then s.remainingBase else amount)
      && (q.baseOut != amount ==> partialFill)
      && q.quoteIn == Gross(q.curveQuote, s) + Gross(q.poolQuote, s)
  {
    hide Fee, CurveCost, PoolCost;
    var cb: nat := if amount < s.remainingBase then amount else s.remainingBase;
    var cq := CurveCost(cb, s);
    CurveProduct(s, cb);
    if amount > s.remainingBase && !s.mayhem {
      var pool := PoolToBe(s, cq).value;
      PoolProduct(pool, amount - cb, PoolCost(pool, amount - cb));
    }
  }

  lemma FeeIff(n: nat, bps: nat, fee: nat)
    ensures Fee(n, bps) <= fee <==> n * bps <= fee * BPS
  {
    CeilIff(n * bps, BPS, fee);
  }

  /** What the curve asks for a positive amount is the least payment that strictly raises its constant
      product. */
  lemma CurveCostIff(s: State, n: nat, paid: nat)
    requires s.Valid() && n <= s.remainingBase
    ensures CurveCost(n, s) <= paid <==> n == 0 || n * s.virtualQuote < paid * (s.virtualBase - n)
  {
    if n > 0 {
      var sold: nat, left: nat := n * s.virtualQuote, s.virtualBase - n;
      FloorIff(sold, left, paid);
    }
  }

  /** The pool that a completed curve hands over: what its balance exceeds the curve's own tokens by,
      against everything raised less the migration fee. */
  predicate PoolOf(s: State, curveQuote: nat, p: Pool) {
    p.base == s.curveBaseBalance - s.remainingBase && p.quote == s.realQuote + curveQuote - s.migrationFee
  }

  lemma PoolToBeIs(s: State, curveQuote: nat, p: Pool)
    requires s.Valid()
    ensures PoolToBe(s, curveQuote) == Ok(p) <==> PoolOf(s, curveQuote, p) && 0 < p.base && 0 < p.quote
  {
  }

  /** Every quote is the sum of its two legs, with both fees charged on each leg. */
  lemma QuoteSplits(s: State, amount: int, exactIn: bool, partialFill: bool)
    requires var r := if exactIn then QuoteExactIn(s, amount) else QuoteExactOut(s, amount, partialFill); r.Ok?
    ensures s.Valid()
    ensures var q := (if exactIn then QuoteExactIn(s, amount) else QuoteExactOut(s, amount, partialFill)).value;
      && q.protocolFee == Fee(q.curveQuote, s.protocolBps) + Fee(q.poolQuote, s.protocolBps)
      && q.creatorFee == Fee(q.curveQuote, s.creatorBps) + Fee(q.poolQuote, s.creatorBps)
      && q.baseOut == q.curveBase + q.poolBase
      && q.quoteIn == q.curveQuote + q.poolQuote + q.protocolFee + q.creatorFee
  {
    hide Fee, CurveCost, PoolCost, Net, SwapOut;
  }

  /** All but one unit of a net payment covers an output of a constant product. */
  predicate Covers(n: nat, out: nat, base: int, quote: int) { n > 1 && out * quote <= (n - 1) * (base - out) }

  /** A net budget that would buy more than is left of a curve that is not in mayhem. */
  predicate Completes(s: State, n: nat) {
    !s.mayhem && 0 <= s.remainingBase && Covers(n, s.remainingBase + 1, s.virtualBase, s.virtualQuote)
  }

  /** Exactly what a budget buys.  The curve leg is the most, up to what is left of the curve, that all
      but one unit of the net budget covers; when it would be more than is left and the curve is not
      in mayhem, the pool leg is the most that all but one unit of the net rest covers. */
  lemma ExactInYields(s: State, budget: nat, k: nat, p: Pool)
    requires QuoteExactIn(s, budget).Ok?
    ensures s.Valid()
    ensures var q, n := QuoteExactIn(s, budget).value, Net(budget, s);
      var left := budget - Gross(q.curveQuote, s);
      && (k <= q.curveBase <==>
          k == 0 || (k <= s.remainingBase && Covers(n, k, s.virtualBase, s.virtualQuote)))
      && q.curveBase <= s.remainingBase && q.curveQuote == CurveCost(q.curveBase, s)
      && 0 <= left
      && (PoolOf(s, q.curveQuote, p) ==>
          (k <= q.poolBase <==> k == 0 || (Completes(s, n) && Covers(Net(left, s), k, p.base, p.quote))))
      && q.poolQuote == if q.poolBase > 0 then Net(left, s) else 0
  {
    hide Gross, Fee, SwapOut, CurveCost, Net, PoolCost;
    GrossBounds(0, s);
    CurveNothing(s);
    var n := Net(budget, s);
    if n > 1 {
      SwapOutIff(n, s.virtualBase, s.virtualQuote, k);
      SwapOutIff(n, s.virtualBase, s.virtualQuote, s.remainingBase + 1);
      var tokens := Affordable(s, budget);
      var cb: nat := if tokens < s.remainingBase then tokens else s.remainingBase;
      var cq := CurveCost(cb, s);
      CurveLegFits(s, n, cb);
      NetIff(budget, s, cq);
      GrossIs(cq, s);
      var left: nat := budget - Gross(cq, s);
      PoolToBeIs(s, cq, p);
      if Net(left, s) > 1 && PoolToBe(s, cq).Ok? {
        SwapOutIff(Net(left, s), PoolToBe(s, cq).value.base, PoolToBe(s, cq).value.quote, k);
      }
      NetFew(left, s);
    }
  }

  lemma NetFew(b: nat, s: State)
    requires s.Valid()
    ensures Net(b, s) <= b
  {
    hide Gross, Net;
    NetIff(b, s, Net(b, s));
    GrossGrows(0, Net(b, s), s);
  }

  /** Exactly what a wanted amount costs: first what is left of the curve, then the pool, which asks for
      the least payment that keeps its constant product. */
  lemma ExactOutYields(s: State, amount: nat, partialFill: bool, p: Pool, paid: nat)
    requires QuoteExactOut(s, amount, partialFill).Ok?
    ensures s.Valid()
    ensures var q := QuoteExactOut(s, amount, partialFill).value;
      && q.curveBase == Min(amount, s.remainingBase) && q.curveQuote == CurveCost(q.curveBase, s)
      && q.poolBase == (if s.mayhem then 0 else amount - q.curveBase)
      && (q.poolBase == 0 ==> q.poolQuote == 0)
      && (q.poolBase > 0 && PoolOf(s, q.curveQuote, p) ==>
          q.poolBase < p.base && (q.poolQuote <= paid <==> p.quote * q.poolBase <= paid * (p.base - q.poolBase)))
  {
    hide Gross, Fee, CurveCost;
    var q := QuoteExactOut(s, amount, partialFill).value;
    PoolToBeIs(s, q.curveQuote, p);
    if q.poolBase > 0 && PoolOf(s, q.curveQuote, p) { CeilIff(p.quote * q.poolBase, p.base - q.poolBase, paid); }
  }

  /** A budget is quoted exactly when the state is valid and the pool-to-be, where it is needed, has
      reserves on both sides. */
  lemma ExactInAccepts(s: State, budget: int)
    ensures QuoteExactIn(s, budget).Ok? <==>
      && s.Valid() && 0 <= budget <= U64
      && var cq := CurveCost(s.remainingBase, s);
      && (Completes(s, Net(budget, s)) && 0 < budget - Gross(cq, s) && Net(budget - Gross(cq, s), s) > 1 ==>
          s.remainingBase < s.curveBaseBalance && s.migrationFee < s.realQuote + cq)
  {
    hide Gross, Fee, SwapOut, CurveCost, Net, PoolCost;
    if s.Valid() && 0 <= budget <= U64 {
      var plan := ExactInPlan(s, budget);
      if PlanFits(s, budget, plan) { PlanSettles(s, budget, plan); }
      GrossIs(CurveCost(s.remainingBase, s), s);
      if Net(budget, s) > 1 { SwapOutIff(Net(budget, s), s.virtualBase, s.virtualQuote, s.remainingBase + 1); }
    }
  }

  /** A wanted amount is quoted exactly when the state is valid, the two legs together hold it (or a
      curve in mayhem may fill it in part), and what is bought and paid fit their widths. */
  lemma ExactOutAccepts(s: State, amount: int, partialFill: bool)
    ensures QuoteExactOut(s, amount, partialFill).Ok? <==>
      && s.Valid() && 0 <= amount <= U64
      && var cq := CurveCost(Min(amount, s.remainingBase), s);
      && if amount <= s.remainingBase then Gross(cq, s) <= U64
         else if s.mayhem then partialFill && Gross(cq, s) <= U64
         else
           var p := Pool(Max(0, s.curveBaseBalance - s.remainingBase), Max(0, s.realQuote + cq - s.migrationFee));
           && amount - s.remainingBase < p.base && 0 < p.quote
           && Gross(cq, s) + Gross(PoolCost(p, amount - s.remainingBase), s) <= U64
  {
    hide Fee, CurveCost, PoolCost;
    if s.Valid() { NoFees(s); }
  }

  lemma NoFees(s: State)
    requires s.Valid()
    ensures Fee(0, s.protocolBps) == 0 && Fee(0, s.creatorBps) == 0
  {
    FeeIff(0, s.protocolBps, 0);
    FeeIff(0, s.creatorBps, 0);
  }
}
