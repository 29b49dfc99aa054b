/** What a DLMM swap gives and takes at each bin, stated on the bin's price, and over whole walks. */
module DlmmPayout {
  import opened Arith
  import opened Outcomes
  import opened DlmmBin
  import opened Dlmm
  import opened DlmmEngine

  /** The least input for an amount at a price in Q64: selling for the second token an amount is worth
      itself over the price, buying the first token it is worth itself times the price. */
  function AskedFor(amount: nat, price: nat, swapForY: bool): nat
    requires price > 0
  {
    if swapForY then Ceil(amount * Q64, price) else Ceil(amount * price, Q64)
  }

  /** The least input for the first `amount` units of the tiers, each tier charged on its own. */
  function LeastInput(tiers: seq<nat>, amount: nat, price: nat, swapForY: bool): nat
    requires price > 0
  {
    if tiers == [] || amount == 0 then 0
    else if amount <= tiers[0] then AskedFor(amount, price, swapForY)
    else AskedFor(tiers[0], price, swapForY) + LeastInput(tiers[1..], amount - tiers[0], price, swapForY)
  }

  /** An exchange at a price in Q64, or worse for the one who pays. */
  predicate Fair(out: nat, used: nat, price: nat, swapForY: bool) {
    if swapForY then out * Q64 <= used * price else out * price <= used * Q64
  }

  /** The fraction by which tiers are taken is the price. */
  predicate PricedAt(numerator: nat, denominator: nat, price: nat, swapForY: bool) {
    0 < price && if swapForY then numerator == Q64 && denominator == price else numerator == price && denominator == Q64
  }

  lemma AskedIff(amount: nat, price: nat, swapForY: bool, n: nat)
    requires price > 0
    ensures AskedFor(amount, price, swapForY) <= n <==> Fair(amount, n, price, swapForY)
  {
    CeilIff(amount * Q64, price, n);
    CeilIff(amount * price, Q64, n);
  }

  lemma AskedRises(a: nat, b: nat, price: nat, swapForY: bool)
    requires price > 0 && a <= b
    ensures AskedFor(a, price, swapForY) <= AskedFor(b, price, swapForY)
  {
    MulMono(a, b, price);
    CeilMono(a * Q64, b * Q64, price);
    CeilMono(a * price, b * price, Q64);
  }

  lemma {:induction false} LeastPositive(tiers: seq<nat>, amount: nat, price: nat, swapForY: bool)
    requires price > 0 && 0 < amount <= Total(tiers)
    ensures LeastInput(tiers, amount, price, swapForY) > 0
  {
    hide AskedFor;
    if amount <= tiers[0] {
      AskedIff(amount, price, swapForY, 0);
      MulStrict(0, amount, price);
    } else {
      LeastPositive(tiers[1..], amount - tiers[0], price, swapForY);
    }
  }

  lemma ProducedIff(left: nat, numerator: nat, denominator: nat, price: nat, swapForY: bool, amount: nat)
    requires PricedAt(numerator, denominator, price, swapForY)
    ensures amount <= Produced(left, numerator, denominator) <==> AskedFor(amount, price, swapForY) <= left
    ensures Needed(amount, numerator, denominator) == AskedFor(amount, price, swapForY)
  {
    FloorIff(left * denominator, numerator, amount);
    CeilIff(amount * numerator, denominator, left);
  }

  /** The tiers give the most whose least input the input covers; what they leave over is what exceeds
      the least input of all of them. */
  lemma {:induction false} TakeTiersIff(tiers: seq<nat>, left: nat, numerator: nat, denominator: nat, price: nat,
      swapForY: bool, amount: nat)
    requires PricedAt(numerator, denominator, price, swapForY) && amount <= Total(tiers)
    ensures var t := TakeTiers(tiers, left, numerator, denominator);
      && (amount <= t.out <==> LeastInput(tiers, amount, price, swapForY) <= left)
      && t.left == Max(0, left - LeastInput(tiers, Total(tiers), price, swapForY))
  {
    hide Needed, Produced, AskedFor;
    if tiers == [] {
    } else if left == 0 {
      if amount > 0 { LeastPositive(tiers, amount, price, swapForY); }
    } else {
      var asked := AskedFor(tiers[0], price, swapForY);
      AskedZero(price, swapForY);
      ProducedIff(left, numerator, denominator, price, swapForY, tiers[0]);
      ProducedIff(left, numerator, denominator, price, swapForY, amount);
      if tiers[0] == 0 || asked <= left {
        TakeTiersIff(tiers[1..], left - asked, numerator, denominator, price, swapForY, Max(0, amount - tiers[0]));
        if amount <= tiers[0] { AskedRises(amount, tiers[0], price, swapForY); }
      } else {
        ProducedIff(left, numerator, denominator, price, swapForY, tiers[0]);
      }
    }
  }

  lemma AskedZero(price: nat, swapForY: bool)
    requires price > 0
    ensures AskedFor(0, price, swapForY) == 0
  {
    AskedIff(0, price, swapForY, 0);
  }

  lemma AfterFeeIff(amount: nat, rate: nat, n: nat)
    requires rate < PRECISION
    ensures n <= AfterFee(amount, rate) <==> n * PRECISION <= amount * (PRECISION - rate)
  {
    CeilIff(amount * rate, PRECISION, amount - n);
    Distribute(PRECISION, amount, n);
    Distribute(amount, PRECISION, rate);
  }

  lemma GrossUpIff(used: nat, rate: nat, n: nat)
    requires rate < PRECISION
    ensures GrossUp(used, rate) <= n <==> used * PRECISION <= n * (PRECISION - rate)
  {
    CeilIff(used * PRECISION, PRECISION - rate, n);
  }

  /** What trading at one bin takes and gives: `out` of its tiers for `used`, of which `credited` is paid
      out, while `charged` goes off the input. */
  datatype Trade = Trade(id: int, out: nat, used: nat, credited: nat, charged: nat)

  function TradeAt(w: Walk, id: int, left: nat): Trade
    requires w.Valid() && id in w.bins
  {
    var t := TakenAt(w, id, left);
    Trade(id, t.out, t.used, Credit(w, id, t.out), if t.left == 0 then left else Charge(w, id, t.used))
  }

  /** What a bin offers, in the order taken: its reserve of the token paid out and, with orders supported and on
      this side, the processed and the open order. */
  function Offered(b: Bin, swapForY: bool, supportOrders: bool): seq<nat> {
    var orders := supportOrders && (b.askSide == 0 <==> swapForY);
    [if swapForY then b.amountY else b.amountX, if orders then b.processedOrder else 0,
     if orders then b.openOrder else 0]
  }

  function OfferedAt(w: Walk, id: int): seq<nat>
    requires id in w.bins
  {
    Offered(w.bins[id], w.swapForY, w.supportOrders)
  }

  lemma TiersOffered(w: Walk, id: int)
    requires id in w.bins
    ensures w.Tiers(id) == OfferedAt(w, id) && (w.Live(id) <==> Total(OfferedAt(w, id)) > 0)
  {
    var tiers := w.Tiers(id);
    TotalOfThree(tiers[0], tiers[1], tiers[2]);
    assert tiers == [tiers[0], tiers[1], tiers[2]];
    assert w.Live(id) <==> tiers[0] != 0 || tiers[1] != 0 || tiers[2] != 0;
  }

  lemma TotalOfThree(a: nat, b: nat, c: nat)
    ensures Total([a, b, c]) == a + b + c
  {
    assert [a, b, c][1..] == [b, c] && [b, c][1..] == [c] && [c][1..] == [];
    assert Total([c]) == c && Total([b, c]) == b + c;
  }

  /** The amounts exchanged at the bin's price: the most out of its tiers that the used input covers. */
  predicate ExchangeOk(w: Walk, e: Trade)
    requires w.Valid() && e.id in w.bins
  {
    var tiers, price := OfferedAt(w, e.id), w.bins[e.id].price;
    && e.out <= Total(tiers)
    && Fair(e.out, e.used, price, w.swapForY)
    && LeastInput(tiers, e.out, price, w.swapForY) <= e.used
    && (e.out < Total(tiers) ==> e.used < LeastInput(tiers, e.out + 1, price, w.swapForY))
  }

  /** The fees of a trade out of what is left of the input: on the input, what is used is the most that
      the whole rest covers, or the least charge for it; on the output, what is paid out is the most
      that the output covers. */
  predicate FeesOk(w: Walk, e: Trade, left: nat) {
    var rate := w.Rate(e.id);
    && e.charged <= left
    && if w.feeInput then
        && e.credited == e.out
        && e.used * PRECISION <= e.charged * (PRECISION - rate)
        && (e.charged == left ==> left * (PRECISION - rate) < (e.used + 1) * PRECISION)
        && (0 < e.charged < left ==> (e.charged - 1) * (PRECISION - rate) < e.used * PRECISION)
      else
        && e.charged == e.used
        && e.credited * PRECISION <= e.out * (PRECISION - rate) < (e.credited + 1) * PRECISION
  }

  /** A bin that does not end the walk is emptied, for the least input. */
  predicate CrossedOk(w: Walk, e: Trade, left: nat)
    requires w.Valid() && e.id in w.bins
  {
    e.charged < left ==>
      && e.out == Total(OfferedAt(w, e.id))
      && e.used == LeastInput(OfferedAt(w, e.id), e.out, w.bins[e.id].price, w.swapForY)
  }

  lemma BinPriced(w: Walk, id: int)
    requires w.Valid() && id in w.bins
    ensures PricedAt(w.Numerator(id), w.Denominator(id), w.bins[id].price, w.swapForY)
  {
  }

  /** The exchange at a bin, at its price and in the right direction. */
  lemma VisitExchanges(w: Walk, id: int, left: nat)
    requires w.Valid() && id in w.bins
    ensures var e, t := TradeAt(w, id, left), TakenAt(w, id, left);
      ExchangeOk(w, e) && (t.left > 0 ==>
        e.out == Total(OfferedAt(w, id)) && e.used == LeastInput(OfferedAt(w, id), e.out, w.bins[id].price, w.swapForY))
  {
    hide TakeTiers, LeastInput, Walk.Numerator, Walk.Denominator, AfterFee, Walk.Rate;
    BinPriced(w, id);
    TiersOffered(w, id);
    var tiers, price := w.Tiers(id), w.bins[id].price;
    var net := if w.feeInput then AfterFee(left, w.Rate(id)) else left;
    var n, d := w.Numerator(id), w.Denominator(id);
    var t := TakeTiers(tiers, net, n, d);
    TakeTiersFair(tiers, net, n, d);
    TakeTiersIff(tiers, net, n, d, price, w.swapForY, t.out);
    if t.out < Total(tiers) { TakeTiersIff(tiers, net, n, d, price, w.swapForY, t.out + 1); }
    TakeTiersIff(tiers, net, n, d, price, w.swapForY, Total(tiers));
    hide Walk.Tiers, Total;
  }

  /** The fees at a bin, on the input or on the output. */
  lemma VisitFees(w: Walk, id: int, left: nat)
    requires w.Valid() && id in w.bins
    ensures FeesOk(w, TradeAt(w, id, left), left)
    ensures TradeAt(w, id, left).charged < left ==> TakenAt(w, id, left).left > 0
  {
    hide TakeTiers, AfterFee, GrossUp, Walk.Tiers, Walk.Rate;
    var rate, t, e := w.Rate(id), TakenAt(w, id, left), TradeAt(w, id, left);
    if w.feeInput {
      if t.left > 0 { CrossingLeaves(w, id, left); }
      AfterFeeIff(left, rate, t.used);
      AfterFeeIff(left, rate, t.used + 1);
      GrossUpIff(t.used, rate, e.charged);
      if e.charged > 0 { GrossUpIff(t.used, rate, e.charged - 1); }
    } else {
      AfterFeeIff(t.out, rate, e.credited);
      AfterFeeIff(t.out, rate, e.credited + 1);
    }
  }

  /** Trading at a bin does what its trade says: the exchange is at the bin's price, the fees are those
      of the bin, and a crossed bin is emptied. */
  lemma VisitPays(w: Walk, id: int, left: nat, total: nat)
    requires w.Valid() && id in w.bins
    ensures var e, v := TradeAt(w, id, left), VisitBin(w, id, left, total);
      && e.id == id && ExchangeOk(w, e) && FeesOk(w, e, left) && CrossedOk(w, e, left)
      && v.total == total + e.credited
      && (if v.Ends? then e.charged == left else v.remaining == left - e.charged && e.charged < left)
  {
    hide TakenAt, Credit, ExchangeOk, FeesOk, LeastInput, Walk.Tiers, Walk.Rate;
    VisitExchanges(w, id, left);
    VisitFees(w, id, left);
    if TakenAt(w, id, left).left > 0 { CrossingLeaves(w, id, left); }
  }

  /** The trades of the walk over every id. */
  function Trades(w: Walk, current: int, remaining: nat, total: nat): seq<Trade>
    requires w.Valid()
    decreases Distance(w, current)
  {
    if remaining == 0 || !InRange(current) then []
    else if !w.Loaded(current) then
      if w.exhaustive && FirstId(w) <= current <= LastId(w) then Trades(w, current + w.Step(), remaining, total) else []
    else if !w.Live(current) then Trades(w, current + w.Step(), remaining, total)
    else
      var e, v := TradeAt(w, current, remaining), VisitBin(w, current, remaining, total);
      [e] + if v.Ends? then [] else Trades(w, current + w.Step(), v.remaining, v.total)
  }

  /** Every trade is right out of what the earlier ones left, and the ids follow the walk. */
  predicate TradesOk(w: Walk, trades: seq<Trade>, from: int, left: int)
    requires w.Valid()
  {
    trades == [] || (
      var e := trades[0];
      && 0 <= left && (e.id == from || Beyond(w, from, e.id)) && w.Loaded(e.id) && w.Live(e.id)
      && ExchangeOk(w, e) && FeesOk(w, e, left) && CrossedOk(w, e, left)
      && TradesOk(w, trades[1..], e.id + w.Step(), left - e.charged))
  }

  function Credited(trades: seq<Trade>): nat { if trades == [] then 0 else trades[0].credited + Credited(trades[1..]) }

  function Charged(trades: seq<Trade>): nat { if trades == [] then 0 else trades[0].charged + Charged(trades[1..]) }

  lemma Prepend(w: Walk, e: Trade, rest: seq<Trade>, left: nat)
    requires w.Valid() && w.Loaded(e.id) && w.Live(e.id)
    requires ExchangeOk(w, e) && FeesOk(w, e, left) && CrossedOk(w, e, left)
    requires TradesOk(w, rest, e.id + w.Step(), left - e.charged)
    ensures TradesOk(w, [e] + rest, e.id, left)
    ensures Credited([e] + rest) == e.credited + Credited(rest) && Charged([e] + rest) == e.charged + Charged(rest)
  {
    hide ExchangeOk, FeesOk, CrossedOk, Walk.Live;
    assert ([e] + rest)[1..] == rest;
  }

  lemma LaterStart(w: Walk, trades: seq<Trade>, from: int, left: int)
    requires w.Valid() && TradesOk(w, trades, from + w.Step(), left)
    ensures TradesOk(w, trades, from, left)
  {
    hide ExchangeOk, FeesOk, CrossedOk, Walk.Live;
  }

  /** A walk pays out what its trades credit and takes what they charge. */
  lemma {:induction false} NaivePays(w: Walk, current: int, remaining: nat, total: nat, crossed: nat)
    requires w.Valid() && Naive(w, current, remaining, total, crossed).Ok?
    ensures var q, l := Naive(w, current, remaining, total, crossed).value, Trades(w, current, remaining, total);
      && TradesOk(w, l, current, remaining)
      && q.amountOut == total + Credited(l)
      && q.remainingIn == remaining - Charged(l)
      && q.binsCrossed == crossed + |l| + if !q.complete || (q.remainingIn == 0 < remaining) then 0 else 1
    decreases Distance(w, current)
  {
    hide VisitBin, TradeAt, Walk.Live, FirstId, LastId, TradesOk, Credited, Charged, ExchangeOk, FeesOk, CrossedOk;
    NoTrades(w, current, remaining);
    if remaining == 0 || !InRange(current) {
    } else if w.Loaded(current) && w.Live(current) {
      var v, e := VisitBin(w, current, remaining, total), TradeAt(w, current, remaining);
      VisitPays(w, current, remaining, total);
      if v.Crosses? {
        NaivePays(w, current + w.Step(), v.remaining, v.total, crossed + 1);
        Prepend(w, e, Trades(w, current + w.Step(), v.remaining, v.total), remaining);
      } else {
        NoTrades(w, current + w.Step(), remaining - e.charged);
        Prepend(w, e, [], remaining);
      }
    } else if w.Loaded(current) || (w.exhaustive && FirstId(w) <= current <= LastId(w)) {
      NaivePays(w, current + w.Step(), remaining, total, crossed);
      LaterStart(w, Trades(w, current + w.Step(), remaining, total), current, remaining);
    }
  }

  lemma NoTrades(w: Walk, from: int, left: int)
    requires w.Valid()
    ensures TradesOk(w, [], from, left) && Credited([]) == 0 && Charged([]) == 0
  {
  }

  /** A bound on the prices of all bins, from above when the second token is paid out and from below
      when the first one is. */
  predicate PricesWithin(w: Walk, bound: nat) {
    forall id | id in w.bins :: if w.swapForY then w.bins[id].price <= bound else bound <= w.bins[id].price
  }

  /** All that is paid out is worth no more than all that is charged, at the best price of the pool. */
  lemma {:induction false} TradesFair(w: Walk, trades: seq<Trade>, from: int, left: int, bound: nat)
    requires w.Valid() && TradesOk(w, trades, from, left) && PricesWithin(w, bound)
    ensures Fair(Credited(trades), Charged(trades), bound, w.swapForY)
  {
    hide LeastInput, Walk.Live, Walk.Rate, CrossedOk;
    if trades == [] {
    } else {
      var e := trades[0];
      TradesFair(w, trades[1..], e.id + w.Step(), left - e.charged, bound);
      TradeFair(w, e, left, bound);
      FairTogether(e.credited, e.charged, Credited(trades[1..]), Charged(trades[1..]), bound, w.swapForY);
    }
  }

  lemma FairTogether(out: nat, used: nat, out': nat, used': nat, price: nat, swapForY: bool)
    requires Fair(out, used, price, swapForY) && Fair(out', used', price, swapForY)
    ensures Fair(out + out', used + used', price, swapForY)
  {
  }

  lemma TradeFair(w: Walk, e: Trade, left: nat, bound: nat)
    requires w.Valid() && e.id in w.bins && ExchangeOk(w, e) && FeesOk(w, e, left) && PricesWithin(w, bound)
    ensures Fair(e.credited, e.charged, bound, w.swapForY)
  {
    hide LeastInput, Walk.Tiers, FeesOk, Walk.Rate;
    var price := w.bins[e.id].price;
    FeesReduce(w, e, left);
    if w.swapForY {
      MulMono(e.credited, e.out, Q64);
      MulMono(e.used, e.charged, price);
      MulMono(price, bound, e.charged);
    } else {
      MulMono(e.used, e.charged, Q64);
      MulMono(e.credited, e.out, price);
      MulMono(bound, price, e.credited);
    }
  }

  lemma FeesReduce(w: Walk, e: Trade, left: nat)
    requires FeesOk(w, e, left)
    ensures e.credited <= e.out && e.used <= e.charged
  {
    hide Walk.Rate;
    if w.feeInput { FeesTake(e.used, e.charged, w.Rate(e.id)); } else { FeesTake(e.credited, e.out, w.Rate(e.id)); }
  }

  lemma FeesTake(net: nat, gross: nat, rate: nat)
    requires rate < PRECISION && net * PRECISION <= gross * (PRECISION - rate)
    ensures net <= gross
  {
    MulMono(PRECISION - rate, PRECISION, gross);
    MulCancel(net, gross, PRECISION);
  }

  /** What a whole quote pays and takes: its trades, each at the price of its own bin. */
  lemma SwapPays(r: Request)
    requires QuoteByEveryId(r).Ok?
    ensures WalkOf(r, Priced(r.bins)).Valid()
    ensures var q, w := QuoteByEveryId(r).value, WalkOf(r, Priced(r.bins));
      var l := Trades(w, r.pool.activeId, r.amount, 0);
      && TradesOk(w, l, r.pool.activeId, r.amount)
      && q.amountOut == Credited(l) && q.remainingIn == r.amount - Charged(l)
      && forall i | 0 <= i < |l| :: l[i].id in w.bins && w.bins[l[i].id] in r.bins && w.bins[l[i].id].binId == l[i].id
  {
    hide Trades, TradesOk;
    PricedExactly(r.bins);
    var w := WalkOf(r, Priced(r.bins));
    NaivePays(w, r.pool.activeId, r.amount, 0, 0);
    TradesLive(w, Trades(w, r.pool.activeId, r.amount, 0), r.pool.activeId, r.amount);
  }

  lemma {:induction false} TradesLive(w: Walk, trades: seq<Trade>, from: int, left: int)
    requires w.Valid() && TradesOk(w, trades, from, left)
    ensures forall i | 0 <= i < |trades| :: trades[i].id in w.bins
  {
    hide ExchangeOk, FeesOk, CrossedOk;
    if trades == [] {
    } else {
      TradesLive(w, trades[1..], trades[0].id + w.Step(), left - trades[0].charged);
    }
  }

  /** Nothing is offered from one id up to but not including another, and what is not loaded may be passed. */
  ghost predicate NothingUpTo(w: Walk, from: int, to: int) {
    forall id | (id == from || Beyond(w, from, id)) && Beyond(w, id, to) ::
      if w.Loaded(id) then id in w.bins ==> Total(OfferedAt(w, id)) == 0 else w.exhaustive
  }

  /** The trades lead from one id to another and miss nothing that is offered. */
  ghost predicate MissesNothing(w: Walk, trades: seq<Trade>, from: int, stop: int) {
    if trades == [] then NothingUpTo(w, from, stop)
    else NothingUpTo(w, from, trades[0].id) && MissesNothing(w, trades[1..], trades[0].id + w.Step(), stop)
  }

  /** Every loaded array lies on one side of an id. */
  predicate Outside(w: Walk, id: int) {
    (forall a | a in w.loaded :: id < a * ARRAY_SIZE) || (forall a | a in w.loaded :: a * ARRAY_SIZE + 69 < id)
  }

  lemma OutsideIff(w: Walk, id: int)
    ensures Outside(w, id) <==> !(FirstId(w) <= id <= LastId(w))
  {
    if w.loaded != [] {
      var least, greatest := Least(w.loaded), Greatest(w.loaded);
      assert least in w.loaded && greatest in w.loaded;
    }
  }

  /** The id where a walk stops: behind the bin that ends it, or where it cannot go on. */
  function StopOf(w: Walk, current: int, remaining: nat, total: nat): int
    requires w.Valid()
    decreases Distance(w, current)
  {
    if remaining == 0 || !InRange(current) then current
    else if !w.Loaded(current) then
      if w.exhaustive && FirstId(w) <= current <= LastId(w) then StopOf(w, current + w.Step(), remaining, total)
      else current
    else if !w.Live(current) then StopOf(w, current + w.Step(), remaining, total)
    else
      var v := VisitBin(w, current, remaining, total);
      if v.Ends? then current + w.Step() else StopOf(w, current + w.Step(), v.remaining, v.total)
  }

  lemma OneFurther(w: Walk, trades: seq<Trade>, from: int, stop: int)
    requires MissesNothing(w, trades, from + w.Step(), stop)
    requires if w.Loaded(from) then from in w.bins ==> Total(OfferedAt(w, from)) == 0
      else w.exhaustive
    ensures MissesNothing(w, trades, from, stop)
  {
    hide Offered, Total;
  }

  lemma NothingHere(w: Walk, at: int)
    ensures NothingUpTo(w, at, at) && MissesNothing(w, [], at, at)
  {
  }

  lemma OneTrade(w: Walk, e: Trade, rest: seq<Trade>, stop: int)
    requires MissesNothing(w, rest, e.id + w.Step(), stop)
    ensures MissesNothing(w, [e] + rest, e.id, stop)
  {
    hide NothingUpTo;
    assert ([e] + rest)[1..] == rest;
    NothingHere(w, e.id);
  }

  /** A walk trades at every bin on its way that offers something.  With input left it stops only at the end of
      the range, at an unloaded id outside all loaded arrays, or at the unloaded id that it reports. */
  lemma {:induction false} NaiveMissesNothing(w: Walk, current: int, remaining: nat, total: nat, crossed: nat)
    requires w.Valid() && Naive(w, current, remaining, total, crossed).Ok?
    ensures var q, stop := Naive(w, current, remaining, total, crossed).value, StopOf(w, current, remaining, total);
      && MissesNothing(w, Trades(w, current, remaining, total), current, stop)
      && (q.complete && 0 < q.remainingIn ==>
          !InRange(stop) || (w.exhaustive && !w.Loaded(stop) && Outside(w, stop)))
      && (!q.complete ==> q.missingBinId == Some(stop) && InRange(stop) && !w.Loaded(stop) && !w.exhaustive)
    decreases Distance(w, current)
  {
    hide VisitBin, TradeAt, Walk.Live, FirstId, LastId, MissesNothing, NothingUpTo, Outside, Offered, Total;
    OutsideIff(w, current);
    NothingHere(w, current);
    if current in w.bins { TiersOffered(w, current); }
    if remaining == 0 || !InRange(current) {
    } else if w.Loaded(current) && w.Live(current) {
      var v, e, next := VisitBin(w, current, remaining, total), TradeAt(w, current, remaining), current + w.Step();
      VisitPays(w, current, remaining, total);
      if v.Crosses? {
        NaiveMissesNothing(w, next, v.remaining, v.total, crossed + 1);
        OneTrade(w, e, Trades(w, next, v.remaining, v.total), StopOf(w, next, v.remaining, v.total));
      } else {
        NothingHere(w, next);
        OneTrade(w, e, [], next);
      }
    } else if w.Loaded(current) || (w.exhaustive && FirstId(w) <= current <= LastId(w)) {
      NaiveMissesNothing(w, current + w.Step(), remaining, total, crossed);
      OneFurther(w, Trades(w, current + w.Step(), remaining, total), current,
        StopOf(w, current + w.Step(), remaining, total));
    }
  }

  /** A quote trades at every given bin with a price on its way that offers something, and stops with input left
      only at the end of the range, where no array lies ahead or behind, or at the id that it reports missing. */
  lemma SwapMissesNothing(r: Request)
    requires QuoteByEveryId(r).Ok?
    ensures WalkOf(r, Priced(r.bins)).Valid()
    ensures var q, w := QuoteByEveryId(r).value, WalkOf(r, Priced(r.bins));
      var l, stop := Trades(w, r.pool.activeId, r.amount, 0), StopOf(w, r.pool.activeId, r.amount, 0);
      && MissesNothing(w, l, r.pool.activeId, stop)
      && (q.complete && 0 < q.remainingIn ==>
          !InRange(stop) || (r.exhaustive && !w.Loaded(stop) && Outside(w, stop)))
      && (!q.complete ==> q.missingBinId == Some(stop) && InRange(stop) && !w.Loaded(stop) && !r.exhaustive)
      && forall id :: id in w.bins <==> exists k :: 0 <= k < |r.bins| && r.bins[k].binId == id && r.bins[k].price != 0
  {
    hide Trades, StopOf, MissesNothing, Outside;
    PricedExactly(r.bins);
    NaiveMissesNothing(WalkOf(r, Priced(r.bins)), r.pool.activeId, r.amount, 0, 0);
  }

  /** A walk overflows exactly when all that its trades credit does not fit 64 bits. */
  lemma {:induction false} NaiveOverflows(w: Walk, current: int, remaining: nat, total: nat, crossed: nat)
    requires w.Valid() && total <= U64
    ensures Naive(w, current, remaining, total, crossed) == Err(OutputOverflow)
       <==> total + Credited(Trades(w, current, remaining, total)) > U64
    decreases Distance(w, current)
  {
    hide VisitBin, TradeAt, Walk.Live, FirstId, LastId;
    if remaining == 0 || !InRange(current) {
    } else if w.Loaded(current) && w.Live(current) {
      var v, e := VisitBin(w, current, remaining, total), TradeAt(w, current, remaining);
      VisitPays(w, current, remaining, total);
      var rest := if v.Ends? then [] else Trades(w, current + w.Step(), v.remaining, v.total);
      assert ([e] + rest)[1..] == rest;
      if v.Crosses? && v.total <= U64 { NaiveOverflows(w, current + w.Step(), v.remaining, v.total, crossed + 1); }
    } else if w.Loaded(current) || (w.exhaustive && FirstId(w) <= current <= LastId(w)) {
      NaiveOverflows(w, current + w.Step(), remaining, total, crossed);
    }
  }

  /** A strict walk fails for want of an array exactly where the same walk, not strict, stops with a partial
      answer, and with that answer. */
  lemma {:induction false} NaiveStrict(w: Walk, current: int, remaining: nat, total: nat, crossed: nat, partial: Quote)
    requires w.Valid() && w.strict
    ensures Naive(w, current, remaining, total, crossed) == Err(InsufficientArrays(partial))
       <==> Naive(w.(strict := false), current, remaining, total, crossed) == Ok(partial) && !partial.complete
    decreases Distance(w, current)
  {
    hide Walk.Live, FirstId, LastId, TakenAt, Charge, Credit;
    var v := w.(strict := false);
    SameWalk(w, current);
    if remaining == 0 || !InRange(current) {
    } else if w.Loaded(current) && w.Live(current) {
      SameVisit(w, current, remaining, total);
      var x := VisitBin(w, current, remaining, total);
      if x.Crosses? { NaiveStrict(w, current + w.Step(), x.remaining, x.total, crossed + 1, partial); }
    } else if w.Loaded(current) || (w.exhaustive && FirstId(w) <= current <= LastId(w)) {
      NaiveStrict(w, current + w.Step(), remaining, total, crossed, partial);
    }
  }

  lemma SameWalk(w: Walk, id: int)
    ensures var v := w.(strict := false);
      FirstId(v) == FirstId(w) && LastId(v) == LastId(w) && (v.Live(id) <==> w.Live(id)) && v.Valid() == w.Valid()
  {
    assert w.(strict := false).Tiers(id) == w.Tiers(id);
  }

  lemma SameVisit(w: Walk, id: int, remaining: nat, total: nat)
    requires w.Valid() && id in w.bins
    ensures w.(strict := false).Valid()
    ensures VisitBin(w.(strict := false), id, remaining, total) == VisitBin(w, id, remaining, total)
  {
    var v := w.(strict := false);
    assert v.Tiers(id) == w.Tiers(id) && v.Rate(id) == w.Rate(id);
    assert TakenAt(v, id, remaining) == TakenAt(w, id, remaining);
  }
}
