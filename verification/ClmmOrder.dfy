/** Filling a limit order that rests on a tick the swap has reached. */
module ClmmOrder {
  import opened Arith
  import opened Outcomes
  import opened ClmmStep

  datatype OrderError = ZeroOrderPrice | Overdraw

  datatype Fill = Fill(consumed: nat, fee: nat, gross: nat)

  /** The order price: the squared root price, rounded against the taker. */
  function OrderPrice(sqrtPrice: nat, down: bool): nat {
    var square := sqrtPrice * sqrtPrice;
    square / Q64 + if !down && square % Q64 != 0 then 1 else 0
  }

  /** The order price is the square of the root price, floored for a taker going down and ceiled for
      one going up. */
  lemma OrderPriceIff(sqrtPrice: nat, down: bool, p: nat)
    ensures if down then p <= OrderPrice(sqrtPrice, down) <==> p * Q64 <= sqrtPrice * sqrtPrice
      else OrderPrice(sqrtPrice, down) <= p <==> sqrtPrice * sqrtPrice <= p * Q64
  {
    var square := sqrtPrice * sqrtPrice;
    FloorIff(square, Q64, p);
    FloorIff(square, Q64, p + 1);
  }

  lemma FeeWithin(remaining: nat, fee: nat)
    requires fee < MILLION
    ensures Ceil(remaining * fee, MILLION) <= remaining
    ensures remaining - Ceil(remaining * fee, MILLION) <= Net(remaining, fee)
  {
    var reserve := Ceil(remaining * fee, MILLION);
    MulMono(fee, MILLION, remaining);
    CeilIff(remaining * fee, MILLION, remaining);
    CeilIff(remaining * fee, MILLION, reserve);
    assert remaining * (MILLION - fee) == remaining * MILLION - remaining * fee;
    FloorIff(remaining * (MILLION - fee), MILLION, remaining - reserve);
  }

  /** Output bought at the order price by an input. */
  function Matched(available: nat, price: nat, down: bool): nat
    requires price > 0
  {
    if down then available * price / Q64 else available * Q64 / price
  }

  /** Input charged for a whole order. */
  function OrderCost(order: nat, price: nat, down: bool): nat
    requires price > 0
  {
    if down then Ceil(order * Q64, price) else Ceil(order * price, Q64)
  }

  function Reserve(remaining: nat, fee: nat, inputFee: bool): (r: nat)
    requires fee < MILLION
    ensures r <= remaining
  {
    FeeWithin(remaining, fee);
    if inputFee then Ceil(remaining * fee, MILLION) else 0
  }

  /** The fee kept back is the least that carries the rate on the whole input. */
  lemma ReserveIff(remaining: nat, fee: nat, inputFee: bool, n: nat)
    requires fee < MILLION
    ensures Reserve(remaining, fee, inputFee) <= n <==> !inputFee || remaining * fee <= n * MILLION
  {
    CeilIff(remaining * fee, MILLION, n);
  }

  function FillOrder(remaining: nat, order: nat, price: nat, fee: nat, inputFee: bool, down: bool)
    : (r: Result<Fill, OrderError>)
    requires fee < MILLION
  {
    if price == 0 then Err(ZeroOrderPrice)
    else
      var reserve := Reserve(remaining, fee, inputFee);
      var available: nat := remaining - reserve;
      var matched := Matched(available, price, down);
      var whole := matched > order;
      var gross: nat := if whole then order else matched;
      var consumed := if whole then OrderCost(gross, price, down) else available;
      var charged :=
        if !whole then reserve
        else if inputFee then Ceil(consumed * fee, MILLION - fee)
        else 0;
      if consumed + charged > Min(remaining, U64) then Err(Overdraw) else Ok(Fill(consumed, charged, gross))
  }

  /** What an exchange at the order price allows: `gross` for `consumed`. */
  predicate FairExchange(gross: nat, consumed: nat, price: nat, down: bool) {
    if down then gross * Q64 <= consumed * price else gross * price <= consumed * Q64
  }

  lemma MatchFair(available: nat, price: nat, down: bool)
    requires price > 0
    ensures FairExchange(Matched(available, price, down), available, price, down)
  {
    FloorIff(available * price, Q64, 0);
    FloorIff(available * Q64, price, 0);
  }

  /** Taking a whole order costs no more than the input that would have matched beyond it. */
  lemma WholeOrderCost(available: nat, order: nat, price: nat, down: bool)
    requires price > 0 && order < Matched(available, price, down)
    ensures OrderCost(order, price, down) <= available
    ensures FairExchange(order, OrderCost(order, price, down), price, down)
  {
    MatchFair(available, price, down);
    if down {
      CeilIff(order * Q64, price, available);
    } else {
      MulMono(order, available * Q64 / price, price);
      CeilIff(order * price, Q64, available);
    }
  }

  /** A fill never overdraws: the charge fits what remains, so neither unsigned check fires; no
      more is filled than the order holds, at no better than the order price; and an order is
      left with something only when the input is used up exactly. */
  lemma FillEnvelope(remaining: nat, order: nat, price: nat, fee: nat, inputFee: bool, down: bool)
    requires fee < MILLION && price > 0 && remaining <= U64
    ensures var r := FillOrder(remaining, order, price, fee, inputFee, down);
      && r.Ok?
      && r.value.consumed + r.value.fee <= remaining
      && r.value.gross <= order
      && (r.value.gross < order ==> r.value.consumed + r.value.fee == remaining)
      && FairExchange(r.value.gross, r.value.consumed, price, down)
  {
    var reserve := Reserve(remaining, fee, inputFee);
    var available: nat := remaining - reserve;
    MatchFair(available, price, down);
    if Matched(available, price, down) > order {
      WholeOrderCost(available, order, price, down);
      if inputFee {
        FeeWithin(remaining, fee);
        GrossFits(remaining, OrderCost(order, price, down), fee);
      }
    }
  }

  lemma MatchedIff(available: nat, price: nat, down: bool, g: nat)
    requires price > 0
    ensures g <= Matched(available, price, down) <==> FairExchange(g, available, price, down)
  {
    FloorIff(available * price, Q64, g);
    FloorIff(available * Q64, price, g);
  }

  lemma OrderCostIff(order: nat, price: nat, down: bool, n: nat)
    requires price > 0
    ensures OrderCost(order, price, down) <= n <==> FairExchange(order, n, price, down)
  {
    CeilIff(order * Q64, price, n);
    CeilIff(order * price, Q64, n);
  }

  /** Exactly what a fill gives and takes.  It gives the most that the order holds and that the input
      less its reserved fee pays for.  A whole order that the input pays for with something to spare
      takes the least input that pays for it, with the least fee that carries the rate; any other
      fill takes everything. */
  lemma FillExact(remaining: nat, order: nat, price: nat, fee: nat, inputFee: bool, down: bool, n: nat)
    requires fee < MILLION && price > 0 && FillOrder(remaining, order, price, fee, inputFee, down).Ok?
    ensures var f := FillOrder(remaining, order, price, fee, inputFee, down).value;
      var available: nat := remaining - Reserve(remaining, fee, inputFee);
      && (n <= f.gross <==> n <= order && FairExchange(n, available, price, down))
      && (!FairExchange(order + 1, available, price, down) ==>
        f.consumed == available && f.consumed + f.fee == remaining)
      && (FairExchange(order + 1, available, price, down) ==>
        && (f.consumed <= n <==> FairExchange(order, n, price, down))
        && (if inputFee then f.fee <= n <==> fee * (f.consumed + n) <= n * MILLION else f.fee == 0))
  {
    hide Ceil, Matched, OrderCost, FairExchange, Reserve;
    var available: nat := remaining - Reserve(remaining, fee, inputFee);
    MatchedIff(available, price, down, n);
    MatchedIff(available, price, down, order + 1);
    OrderCostIff(order, price, down, n);
    FeeLeast(OrderCost(order, price, down), fee, n);
  }
}
