/** Trading against one DLMM bin: its volatility fee and its three liquidity tiers. */
module DlmmBin {
  import opened Arith

  const PRECISION: nat := 1_000_000_000
  const MIN_BIN: int := -443636
  const MAX_BIN: int := 443636
  const ARRAY_SIZE: int := 70

  datatype Bin = Bin(
    binId: int, amountX: nat, amountY: nat, price: nat, openOrder: nat, processedOrder: nat, askSide: nat)

  /** Everything fixed during a walk.  `bins` holds the priced bins by id. */
  datatype Walk = Walk(
    bins: map<int, Bin>, loaded: seq<int>, swapForY: bool, supportOrders: bool, strict: bool, exhaustive: bool,
    feeInput: bool, reference: nat, index: int, binStep: nat, control: nat, maximumVolatility: nat, baseRate: nat)
  {
    predicate Valid() { forall id | id in bins :: bins[id].price > 0 }

    function Step(): int { if swapForY then -1 else 1 }

    /** Whether the orders of a bin are on the side this swap takes from. */
    predicate TakesOrders(b: Bin) {
      supportOrders && ((swapForY && b.askSide == 0) || (!swapForY && b.askSide != 0))
    }

    /** Reserve, processed order and open order available at an id, in the order taken. */
    function Tiers(id: int): seq<nat> {
      if id !in bins then []
      else
        var b := bins[id];
        [if swapForY then b.amountY else b.amountX,
         if TakesOrders(b) then b.processedOrder else 0,
         if TakesOrders(b) then b.openOrder else 0]
    }

    predicate Live(id: int): (b: bool)
      ensures b ==> id in bins
    {
      exists i | 0 <= i < |Tiers(id)| :: Tiers(id)[i] != 0
    }

    predicate Loaded(id: int) { id / ARRAY_SIZE in loaded }

    function Volatility(id: int): nat {
      var ramped := reference + Abs(index - id) * 10000;
      if ramped < maximumVolatility then ramped else maximumVolatility
    }

    /** The total fee rate at a bin, capped at a tenth. */
    function Rate(id: int): (r: nat)
      ensures r <= 100_000_000
    {
      var uncapped := baseRate + SquareCharge(control, Volatility(id), binStep, 100_000_000_000);
      if uncapped < 100_000_000 then uncapped else 100_000_000
    }

    function Numerator(id: int): (n: nat)
      requires Valid() && id in bins
      ensures n > 0
    {
      if swapForY then Q64 else bins[id].price
    }

    function Denominator(id: int): (d: nat)
      requires Valid() && id in bins
      ensures d > 0
    {
      if swapForY then bins[id].price else Q64
    }
  }

  /** The fee rate never falls with the distance from the reference index and is at least the base
      rate below the cap of a tenth. */
  lemma RateRises(w: Walk, near: int, far: int)
    requires Abs(w.index - near) <= Abs(w.index - far)
    ensures Min(w.baseRate, 100_000_000) <= w.Rate(near) <= w.Rate(far) <= 100_000_000
  {
    SquareChargeMono(w.control, w.Volatility(near), w.Volatility(far), w.binStep, 100_000_000_000);
  }

  /** The fee rate is the least, up to the cap of a tenth, whose part above the base rate carries the
      control times the squared, scaled volatility. */
  lemma RateIff(w: Walk, id: int, rate: nat)
    ensures var scaled := Min(w.reference + Abs(w.index - id) * 10000, w.maximumVolatility) * w.binStep;
      w.Rate(id) <= rate <==>
        || 100_000_000 <= rate
        || (w.baseRate <= rate && w.control * scaled * scaled <= (rate - w.baseRate) * 100_000_000_000)
  {
    SquareChargeIff(w.control, w.Volatility(id), w.binStep, 100_000_000_000, rate - w.baseRate);
  }

  datatype Taken = Taken(left: nat, used: nat, out: nat)

  /** Input that a whole tier takes. */
  function Needed(tier: nat, numerator: nat, denominator: nat): nat
    requires denominator > 0
  {
    Ceil(tier * numerator, denominator)
  }

  /** Output of an input that does not take a whole tier. */
  function Produced(left: nat, numerator: nat, denominator: nat): nat
    requires numerator > 0
  {
    left * denominator / numerator
  }

  /** Taking tiers one after the other until the input is used up. */
  function TakeTiers(tiers: seq<nat>, left: nat, numerator: nat, denominator: nat): (t: Taken)
    requires numerator > 0 && denominator > 0
    ensures t.left + t.used == left
  {
    if tiers == [] || left == 0 then Taken(left, 0, 0)
    else if tiers[0] == 0 then TakeTiers(tiers[1..], left, numerator, denominator)
    else
      var needed := Needed(tiers[0], numerator, denominator);
      if needed <= left then
        var rest := TakeTiers(tiers[1..], left - needed, numerator, denominator);
        Taken(rest.left, needed + rest.used, tiers[0] + rest.out)
      else Taken(0, left, Produced(left, numerator, denominator))
  }

  function Total(tiers: seq<nat>): nat {
    if tiers == [] then 0 else tiers[0] + Total(tiers[1..])
  }

  /** Less than a whole tier's input gives less than the whole tier. */
  lemma ProducedBelow(tier: nat, left: nat, numerator: nat, denominator: nat)
    requires numerator > 0 && denominator > 0 && left < Needed(tier, numerator, denominator)
    ensures Produced(left, numerator, denominator) < tier
  {
    CeilIff(tier * numerator, denominator, left);
    FloorIff(left * denominator, numerator, tier);
  }

  lemma NeededFair(tier: nat, numerator: nat, denominator: nat)
    requires denominator > 0
    ensures tier * numerator <= Needed(tier, numerator, denominator) * denominator
  {
    CeilIff(tier * numerator, denominator, 0);
  }

  lemma ProducedFair(left: nat, numerator: nat, denominator: nat)
    requires numerator > 0
    ensures Produced(left, numerator, denominator) * numerator <= left * denominator
  {
    FloorIff(left * denominator, numerator, 0);
  }

  lemma FairSum(out: nat, out': nat, used: nat, used': nat, numerator: nat, denominator: nat)
    requires out * numerator <= used * denominator && out' * numerator <= used' * denominator
    ensures (out + out') * numerator <= (used + used') * denominator
  {
  }

  /** No tier gives more than it holds, every exchange is at the bin's price or worse, and what
      is left over means that every tier was emptied. */
  lemma {:induction false} TakeTiersFair(tiers: seq<nat>, left: nat, numerator: nat, denominator: nat)
    requires numerator > 0 && denominator > 0
    ensures var t := TakeTiers(tiers, left, numerator, denominator);
      && t.out <= Total(tiers)
      && (t.left > 0 ==> t.out == Total(tiers))
      && t.out * numerator <= t.used * denominator
  {
    hide Needed, Produced;
    if tiers != [] && left != 0 {
      if tiers[0] == 0 {
        TakeTiersFair(tiers[1..], left, numerator, denominator);
      } else {
        var needed := Needed(tiers[0], numerator, denominator);
        if needed <= left {
          TakeTiersFair(tiers[1..], left - needed, numerator, denominator);
          var rest := TakeTiers(tiers[1..], left - needed, numerator, denominator);
          NeededFair(tiers[0], numerator, denominator);
          FairSum(tiers[0], rest.out, needed, rest.used, numerator, denominator);
        } else {
          ProducedBelow(tiers[0], left, numerator, denominator);
          ProducedFair(left, numerator, denominator);
        }
      }
    }
  }

  /** More input takes at least as much out; and once the smaller input clears every tier, the
      larger one clears them too, uses the same input and keeps its whole lead. */
  lemma {:induction false} TakeTiersMonotone(tiers: seq<nat>, a: nat, b: nat, numerator: nat, denominator: nat)
    requires numerator > 0 && denominator > 0 && a <= b
    ensures var s, t := TakeTiers(tiers, a, numerator, denominator), TakeTiers(tiers, b, numerator, denominator);
      s.out <= t.out && (s.left > 0 ==> t.used == s.used && t.out == s.out)
  {
    if tiers != [] && a != 0 {
      if tiers[0] == 0 {
        TakeTiersMonotone(tiers[1..], a, b, numerator, denominator);
      } else {
        var needed := Needed(tiers[0], numerator, denominator);
        if needed <= a {
          TakeTiersMonotone(tiers[1..], a - needed, b - needed, numerator, denominator);
        } else if needed <= b {
          ProducedBelow(tiers[0], a, numerator, denominator);
        } else {
          MulMono(a, b, denominator);
          FloorMono(a * denominator, b * denominator, numerator);
        }
      }
    }
  }

  /** An amount after its ceiled fee. */
  function AfterFee(amount: nat, rate: nat): (n: nat)
    requires rate < PRECISION
    ensures n <= amount
  {
    MulMono(rate, PRECISION, amount);
    CeilIff(amount * rate, PRECISION, amount);
    amount - Ceil(amount * rate, PRECISION)
  }

  lemma AfterFeeMonotone(a: nat, b: nat, rate: nat)
    requires rate < PRECISION && a <= b
    ensures AfterFee(a, rate) <= AfterFee(b, rate)
  {
    var fee := Ceil(a * rate, PRECISION);
    CeilIff(a * rate, PRECISION, fee);
    assert b * rate == a * rate + (b - a) * rate;
    MulMono(rate, PRECISION, b - a);
    CeilIff(b * rate, PRECISION, fee + (b - a));
  }

  /** An input grossed up for its fee. */
  function GrossUp(used: nat, rate: nat): nat
    requires rate < PRECISION
  {
    Ceil(used * PRECISION, PRECISION - rate)
  }

  /** An input that leaves something over after its fee also leaves something once grossed up. */
  lemma GrossUpLeaves(amount: nat, used: nat, rate: nat)
    requires rate < PRECISION && used < AfterFee(amount, rate)
    ensures GrossUp(used, rate) < amount
  {
    hide Ceil;
    CeilIff(amount * rate, PRECISION, amount - used - 1);
    LeavesOver(amount, used, rate, PRECISION);
    CeilIff(used * PRECISION, PRECISION - rate, amount - 1);
  }

  lemma LeavesOver(amount: nat, used: nat, rate: nat, unit: nat)
    requires rate < unit && amount * rate <= (amount - used - 1) * unit
    ensures used * unit <= (amount - 1) * (unit - rate)
  {
    Distribute(unit, amount, used + 1);
    Distribute(unit, used, 1);
    Distribute(amount, unit, rate);
    Distribute(unit - rate, amount, 1);
  }

  /** The result of trading at a live bin. */
  datatype Visit = Ends(total: nat) | Crosses(remaining: nat, total: nat)

  /** The tiers taken by an input at a live bin. */
  function TakenAt(w: Walk, id: int, remaining: nat): (t: Taken)
    requires w.Valid() && id in w.bins
  {
    var net := if w.feeInput then AfterFee(remaining, w.Rate(id)) else remaining;
    TakeTiers(w.Tiers(id), net, w.Numerator(id), w.Denominator(id))
  }

  function Credit(w: Walk, id: int, out: nat): nat {
    if w.feeInput then out else AfterFee(out, w.Rate(id))
  }

  function Charge(w: Walk, id: int, used: nat): nat {
    if w.feeInput then GrossUp(used, w.Rate(id)) else used
  }

  /** A bin that is crossed leaves a strictly positive input behind. */
  lemma CrossingLeaves(w: Walk, id: int, remaining: nat)
    requires w.Valid() && id in w.bins && TakenAt(w, id, remaining).left > 0
    ensures Charge(w, id, TakenAt(w, id, remaining).used) < remaining
  {
    if w.feeInput { GrossUpLeaves(remaining, TakenAt(w, id, remaining).used, w.Rate(id)); }
  }

  function VisitBin(w: Walk, id: int, remaining: nat, total: nat): (v: Visit)
    requires w.Valid() && id in w.bins
    ensures v.Crosses? ==> 0 < v.remaining <= remaining
    ensures total <= v.total
  {
    var t := TakenAt(w, id, remaining);
    var credited := total + Credit(w, id, t.out);
    if t.left == 0 then Ends(credited)
    else
      CrossingLeaves(w, id, remaining);
      Crosses(remaining - Charge(w, id, t.used), credited)
  }

  /** A larger input at the same bin: it crosses whenever the smaller one does, with the same
      output and the same charge, and otherwise takes at least as much out. */
  lemma VisitMonotone(w: Walk, id: int, a: nat, b: nat, total: nat)
    requires w.Valid() && id in w.bins && a <= b
    ensures var u, v := VisitBin(w, id, a, total), VisitBin(w, id, b, total);
      && u.total <= v.total
      && (u.Crosses? ==> v.Crosses? && u.total == v.total && b - a == v.remaining - u.remaining)
  {
    var rate := w.Rate(id);
    AfterFeeMonotone(a, b, rate);
    var x, y := if w.feeInput then AfterFee(a, rate) else a, if w.feeInput then AfterFee(b, rate) else b;
    TakeTiersMonotone(w.Tiers(id), x, y, w.Numerator(id), w.Denominator(id));
    AfterFeeMonotone(TakenAt(w, id, a).out, TakenAt(w, id, b).out, rate);
    hide TakeTiers, AfterFee, GrossUp, Walk.Rate, Walk.Tiers;
  }

  /** A bin never credits more than its tiers hold. */
  lemma VisitConserves(w: Walk, id: int, remaining: nat, total: nat)
    requires w.Valid() && id in w.bins
    ensures VisitBin(w, id, remaining, total).total <= total + Total(w.Tiers(id))
  {
    var rate := w.Rate(id);
    var net := if w.feeInput then AfterFee(remaining, rate) else remaining;
    TakeTiersFair(w.Tiers(id), net, w.Numerator(id), w.Denominator(id));
  }
}
