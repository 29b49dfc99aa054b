/** What a stretch of a swap at constant liquidity exchanges, stated on its two end prices alone.
    Shared by the ledgers of the CLMM and the Whirlpool engines. */
module Payout {
  import opened Arith
  import opened Outcomes
  import opened ClmmStep

  /** A stretch: the tick and the volatility group where it begins, its two end prices, its liquidity and
      fee rate, and the input spent. */
  datatype Leg = Leg(tick: int, group: int, from: nat, to: nat, liquidity: nat, rate: nat, spent: int)

  predicate Heads(from: nat, to: nat, down: bool) { 0 < from && 0 < to && if down then to <= from else from <= to }

  /** The floored value given: second token for the gap going down, first token going up. */
  function Worth(from: nat, to: nat, liquidity: nat, down: bool): nat
    requires Heads(from, to, down)
  {
    if down then liquidity * (from - to) / Q64 else liquidity * Q64 * (to - from) / (from * to)
  }

  /** The ceiled value asked: first token for the gap going down, second token going up. */
  function Cost(from: nat, to: nat, liquidity: nat, down: bool): nat
    requires Heads(from, to, down)
  {
    if down then Ceil(liquidity * Q64 * (from - to), from * to) else Ceil(liquidity * (to - from), Q64)
  }

  /** The least fee on top of a cost that carries the rate. */
  function FeeOn(cost: nat, rate: nat): nat
    requires rate < MILLION
  {
    Ceil(cost * rate, MILLION - rate)
  }

  lemma WorthIsDelta(from: nat, to: nat, liquidity: nat, down: bool)
    requires Heads(from, to, down)
    ensures Worth(from, to, liquidity, down) == Delta(from, to, liquidity, !down, false)
  {
    if !down {
      assert liquidity * (to - from) * Q64 == liquidity * Q64 * (to - from);
      assert to * from == from * to;
    }
  }

  lemma CostIsDelta(from: nat, to: nat, liquidity: nat, down: bool)
    requires Heads(from, to, down)
    ensures Cost(from, to, liquidity, down) == Delta(from, to, liquidity, down, true)
  {
    hide Ceil, Delta;
    if down { DeltaDown(from, to, liquidity); } else { DeltaUp(from, to, liquidity); }
  }

  /** Standing still costs nothing and gives nothing. */
  lemma NothingForNothing(from: nat, liquidity: nat, down: bool)
    requires 0 < from
    ensures Worth(from, from, liquidity, down) == 0 && Cost(from, from, liquidity, down) == 0
  {
    FloorIff(0, from * from, 1);
    CeilIff(0, from * from, 0);
  }

  /** What is spent on a leg out of what is left: its cost alone when fees are taken elsewhere, and
      otherwise its cost with a fee that carries the rate, which is the least such fee unless
      everything left is spent. */
  predicate SpentOk(leg: Leg, down: bool, inputFee: bool, left: nat)
    requires Heads(leg.from, leg.to, down)
  {
    var cost := Cost(leg.from, leg.to, leg.liquidity, down);
    && cost <= leg.spent <= left
    && if inputFee then
        && leg.rate * leg.spent <= (leg.spent - cost) * MILLION
        && (cost < leg.spent < left ==> (leg.spent - 1 - cost) * MILLION < leg.rate * (leg.spent - 1))
      else leg.spent == cost
  }

  /** A leg made by one step. */
  lemma StepLeg(tick: int, group: int, current: nat, bound: nat, liquidity: nat, remaining: nat, rate: nat,
        inputFee: bool, down: bool)
    requires rate < MILLION
    requires SwapStep(current, bound, liquidity, remaining, if inputFee then rate else 0, down).Ok?
    ensures var r := SwapStep(current, bound, liquidity, remaining, if inputFee then rate else 0, down).value;
      var leg := Leg(tick, group, current, r.sqrtPrice, liquidity, rate, r.amountIn + if inputFee then r.fee else 0);
      && Heads(current, r.sqrtPrice, down)
      && r.amountIn == Cost(current, r.sqrtPrice, liquidity, down)
      && r.amountOut == Worth(current, r.sqrtPrice, liquidity, down)
      && SpentOk(leg, down, inputFee, remaining)
  {
    hide Delta, Stop, Worth, Cost;
    var charged := if inputFee then rate else 0;
    StepEnvelope(current, bound, liquidity, remaining, charged, down);
    StepFeeFloor(current, bound, liquidity, remaining, charged, down);
    var r := SwapStep(current, bound, liquidity, remaining, charged, down).value;
    if r.sqrtPrice == bound && r.fee > 0 {
      StepFeeLeast(current, bound, liquidity, remaining, charged, down, r.fee - 1);
    }
    hide SwapStep;
    WorthIsDelta(current, r.sqrtPrice, liquidity, down);
    CostIsDelta(current, r.sqrtPrice, liquidity, down);
  }

  /** The legs lead from one price to another in the swap direction, without a gap. */
  predicate Path(legs: seq<Leg>, from: nat, to: nat, down: bool) {
    if legs == [] then from == to
    else legs[0].from == from && Heads(from, legs[0].to, down) && Path(legs[1..], legs[0].to, to, down)
  }

  function LegWorth(leg: Leg, down: bool): nat {
    if Heads(leg.from, leg.to, down) then Worth(leg.from, leg.to, leg.liquidity, down) else 0
  }

  /** The floored values of all legs. */
  function Worths(legs: seq<Leg>, down: bool): nat {
    if legs == [] then 0 else LegWorth(legs[0], down) + Worths(legs[1..], down)
  }

  /** One more leg in front. */
  lemma LegBefore(leg: Leg, rest: seq<Leg>, to: nat, down: bool)
    requires Heads(leg.from, leg.to, down)
    ensures var legs := [leg] + rest;
      && legs[1..] == rest && (Path(legs, leg.from, to, down) <==> Path(rest, leg.to, to, down))
      && Worths(legs, down) == Worth(leg.from, leg.to, leg.liquidity, down) + Worths(rest, down)
  {
    hide Worth;
    assert ([leg] + rest)[1..] == rest;
  }
}
