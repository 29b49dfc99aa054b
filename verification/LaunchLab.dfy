/** LaunchLab exact-in quotes on the virtual constant-product curve, including the buy that
    graduates a curve by taking everything that is left to sell. */
module LaunchLab {
  import opened Arith
  import opened Outcomes
  import opened TransferFees

  const RATE: nat := 1_000_000

  datatype State = State(
    virtualBase: int, virtualQuote: int, realBase: int, realQuote: int, totalBaseSell: int, curveType: int,
    tradeFeeRate: int, platformFeeRate: int, creatorFeeRate: int,
    baseTransferFee: TransferFee, quoteTransferFee: TransferFee)

  datatype Quote = Quote(amountIn: nat, minimumAmountOut: nat)

  datatype Terms = Terms(base: nat, quote: nat, rate: nat, bps: nat) {
    predicate Valid() { rate <= RATE && bps <= 9999 }
  }

  datatype Purchase = Purchase(charge: nat, out: nat)

  function Reserves(p: State, share: int, bps: int): (r: Result<Terms, Fault>)
    ensures r.Ok? ==> r.value.Valid()
    ensures r.Ok? ==> r.value.base == p.virtualBase - p.realBase && r.value.quote == p.virtualQuote + p.realQuote
    ensures r.Ok? ==> 0 <= p.realBase && 0 <= p.totalBaseSell
  {
    if p.curveType != 0 then Err(UnsupportedCurve)
    else
      var virtualBase :- Unsigned(p.virtualBase, U128);
      var virtualQuote :- Unsigned(p.virtualQuote, U128);
      var realBase :- Unsigned(p.realBase, U128);
      var realQuote :- Unsigned(p.realQuote, U128);
      var totalBaseSell :- Unsigned(p.totalBaseSell, U128);
      if realBase > virtualBase then Err(ReserveUnderflow)
      else
        var quote :- Unsigned(virtualQuote + realQuote, U128);
        var trade :- Unsigned(p.tradeFeeRate, U64);
        var platform :- Unsigned(p.platformFeeRate, U64);
        var creator :- Unsigned(p.creatorFeeRate, U64);
        var shared :- Unsigned(share, U64);
        var rate := trade + platform + creator + shared;
        if rate > RATE then Err(FeeAboveDenominator)
        else if !(0 <= bps <= 9999) then Err(BadSlippage)
        else Ok(Terms(virtualBase - realBase, quote, rate, bps))
  }

  /** A vault amount after the curve's ceiled fee. */
  function NetOf(vault: nat, rate: nat): nat
    requires rate <= RATE
  {
    MulMono(rate, RATE, vault);
    CeilIff(vault * rate, RATE, vault);
    vault - Ceil(vault * rate, RATE)
  }

  function CurveOut(net: nat, base: nat, quote: nat): nat
    requires quote + net > 0
  {
    net * base / (quote + net)
  }

  /** The net amount, the vault amount and the gross charge that buy `remaining`. */
  function RequiredNet(t: Terms, remaining: nat): nat
    requires remaining < t.base
  {
    Ceil(t.quote * remaining, t.base - remaining)
  }

  function RequiredVault(t: Terms, remaining: nat): nat
    requires remaining < t.base && t.rate < RATE
  {
    Ceil(RequiredNet(t, remaining) * RATE, RATE - t.rate)
  }

  function Charge(t: Terms, remaining: nat, f: TransferFee): nat
    requires remaining < t.base && t.rate < RATE && f.Valid()
  {
    Grossed(RequiredVault(t, remaining), f)
  }

  /** The graduation branch with every check that the source makes in it. */
  function Graduate(t: Terms, remaining: nat, f: TransferFee, amount: nat): Result<Purchase, Fault> {
    if t.base <= remaining || t.rate >= RATE then Err(GraduationExhausts)
    else
      var product :- Unsigned(t.quote * remaining, U128);
      var scaled :- Unsigned(Ceil(product, t.base - remaining) * RATE, U128);
      var vault :- Unsigned(Ceil(scaled, RATE - t.rate), U64);
      var added :- TokenTransferFee(vault, f, true);
      var charge :- Unsigned(vault + added, U64);
      Ok(Purchase(if charge > amount then amount else charge, remaining))
  }

  function Cap(p: State, t: Terms, amount: nat, out: nat): Result<Purchase, Fault> {
    if p.totalBaseSell == 0 then Ok(Purchase(amount, out))
    else if p.realBase > p.totalBaseSell then Err(SoldAboveCap)
    else if out > p.totalBaseSell - p.realBase then
      Graduate(t, p.totalBaseSell - p.realBase, p.quoteTransferFee, amount)
    else Ok(Purchase(amount, out))
  }

  function Buy(p: State, t: Terms, amount: nat): Result<Purchase, Fault>
    requires t.Valid()
  {
    var fee :- TokenTransferFee(amount, p.quoteTransferFee, false);
    var net := NetOf(amount - fee, t.rate);
    var denominator :- Unsigned(t.quote + net, U128);
    if denominator == 0 then Err(EmptyReserves)
    else
      var product :- Unsigned(net * t.base, U128);
      Cap(p, t, amount, product / denominator)
  }

  function Sell(p: State, t: Terms, amount: nat): Result<nat, Fault>
    requires t.Valid()
  {
    var fee :- TokenTransferFee(amount, p.baseTransferFee, false);
    var net: nat := amount - fee;
    var denominator :- Unsigned(t.base + net, U128);
    if denominator == 0 then Err(EmptyReserves)
    else
      var product :- Unsigned(net * t.quote, U128);
      Unsigned(NetOf(product / denominator, t.rate), U64)
  }

  /** The least of an output that slippage allows. */
  function Protected(received: nat, bps: nat): int { received - received * bps / 10000 }

  /** What a receiver gets of an amount sent, and the least of it that slippage allows. */
  function Delivered(sent: nat, f: TransferFee, bps: nat): Result<nat, Fault>
    requires bps <= 9999
  {
    var whole :- Unsigned(sent, U64);
    var fee :- TokenTransferFee(whole, f, false);
    Unsigned(Protected(whole - fee, bps), U64)
  }

  function QuoteExactIn(p: State, amount: int, buy: bool, bps: int, share: int): Result<Quote, Fault> {
    var whole :- Unsigned(amount, U64);
    if whole == 0 then Err(ZeroAmount)
    else
      var t :- Reserves(p, share, bps);
      if buy then
        var purchase :- Buy(p, t, whole);
        var minimum :- Delivered(purchase.out, p.baseTransferFee, t.bps);
        Ok(Quote(purchase.charge, minimum))
      else
        var vault :- Sell(p, t, whole);
        var minimum :- Delivered(vault, p.quoteTransferFee, t.bps);
        Ok(Quote(whole, minimum))
  }

  lemma NetIff(vault: nat, rate: nat, n: nat)
    requires rate <= RATE
    ensures n <= NetOf(vault, rate) <==> n * RATE <= vault * (RATE - rate)
  {
    CeilIff(vault * rate, RATE, vault - n);
    Distribute(RATE, vault, n);
    Distribute(vault, RATE, rate);
  }

  lemma CurveOutIff(net: nat, base: nat, quote: nat, q: nat)
    requires quote + net > 0
    ensures q <= CurveOut(net, base, quote) <==> q * quote <= net * (base - q)
  {
    var d: nat := quote + net;
    assert CurveOut(net, base, quote) == MulDiv(net, base, d);
    hide CurveOut;
    FloorIff(net * base, d, q);
    TakenOut(q, quote, net, base);
  }

  /** The charge of a graduation is the least amount that buys what remains. */
  lemma ChargeIff(t: Terms, remaining: nat, f: TransferFee, amount: nat)
    requires t.Valid() && remaining < t.base && t.rate < RATE && f.Valid()
    requires t.quote + NetOf(Arrives(amount, f), t.rate) > 0
    ensures remaining <= CurveOut(NetOf(Arrives(amount, f), t.rate), t.base, t.quote)
        <==> Charge(t, remaining, f) <= amount
  {
    hide NetOf, CurveOut, Arrives, Grossed, Ceil;
    var vault := Arrives(amount, f);
    var net := NetOf(vault, t.rate);
    CurveOutIff(net, t.base, t.quote, remaining);
    var required := RequiredNet(t, remaining);
    CeilIff(t.quote * remaining, t.base - remaining, net);
    NetIff(vault, t.rate, required);
    CeilIff(required * RATE, RATE - t.rate, vault);
    GrossedIff(RequiredVault(t, remaining), amount, f);
    assert remaining * t.quote == t.quote * remaining;
  }

  /** More output than remains leaves both sides of the graduation usable. */
  lemma GraduationPossible(t: Terms, vault: nat, remaining: nat)
    requires t.Valid() && t.quote + NetOf(vault, t.rate) > 0
    requires CurveOut(NetOf(vault, t.rate), t.base, t.quote) > remaining
    ensures remaining < t.base && t.rate < RATE
    ensures t.quote * remaining <= NetOf(vault, t.rate) * t.base
    ensures RequiredNet(t, remaining) <= NetOf(vault, t.rate)
    ensures RequiredVault(t, remaining) <= vault
  {
    hide NetOf, CurveOut, Ceil;
    var net := NetOf(vault, t.rate);
    if net == 0 { CurveOutNothing(t); }
    CurveOutIff(net, t.base, t.quote, remaining + 1);
    LeavesBase(net, t.base, t.quote, remaining);
    NetNeedsRate(vault, t.rate);
    CeilIff(t.quote * remaining, t.base - remaining, net);
    NetIff(vault, t.rate, RequiredNet(t, remaining));
    CeilIff(RequiredNet(t, remaining) * RATE, RATE - t.rate, vault);
  }

  lemma LeavesBase(net: nat, base: nat, quote: nat, remaining: nat)
    requires net > 0 && (remaining + 1) * quote <= net * (base - (remaining + 1))
    ensures remaining < base && quote * remaining <= net * (base - remaining) <= net * base
  {
    if base <= remaining { MulStrict(base - (remaining + 1), 0, net); }
    MulMono(base - (remaining + 1), base - remaining, net);
    MulMono(base - remaining, base, net);
    assert (remaining + 1) * quote == quote * remaining + quote;
  }

  lemma NetNeedsRate(vault: nat, rate: nat)
    requires rate <= RATE && NetOf(vault, rate) > 0
    ensures rate < RATE
  {
    NetIff(vault, rate, 1);
  }

  lemma CurveOutNothing(t: Terms)
    requires t.quote > 0
    ensures CurveOut(0, t.base, t.quote) == 0
  {
    CurveOutIff(0, t.base, t.quote, 1);
  }

  function Remaining(p: State): nat
    requires p.realBase <= p.totalBaseSell
  {
    p.totalBaseSell - p.realBase
  }

  /** The net amount that a gross offer puts on the curve. */
  function NetIn(p: State, t: Terms, amount: nat): nat
    requires t.Valid() && p.quoteTransferFee.Valid()
  {
    NetOf(Arrives(amount, p.quoteTransferFee), t.rate)
  }

  /** An offer that passes the range checks before the division. */
  predicate InRange(p: State, t: Terms, amount: nat) {
    && t.Valid() && p.quoteTransferFee.Valid() && amount <= U64
    && 0 < t.quote + NetIn(p, t, amount) <= U128
    && NetIn(p, t, amount) * t.base <= U128
  }

  function OutFor(p: State, t: Terms, amount: nat): nat
    requires InRange(p, t, amount)
  {
    CurveOut(NetIn(p, t, amount), t.base, t.quote)
  }

  /** An offer whose output is above what is left to sell. */
  predicate Graduates(p: State, t: Terms, amount: nat) {
    InRange(p, t, amount) && 0 < p.totalBaseSell && p.realBase <= p.totalBaseSell && OutFor(p, t, amount) > Remaining(p)
  }

  /** In the graduation branch no check can fail: the reserves are not exhausted, every
      intermediate amount is in range, and the charge is at most the offer without the clamp. */
  lemma GraduationFits(p: State, t: Terms, amount: nat)
    requires Graduates(p, t, amount)
    ensures Remaining(p) < t.base && t.rate < RATE && Charge(t, Remaining(p), p.quoteTransferFee) <= amount
    ensures Graduate(t, Remaining(p), p.quoteTransferFee, amount)
         == Ok(Purchase(Charge(t, Remaining(p), p.quoteTransferFee), Remaining(p)))
  {
    hide NetOf, CurveOut, Arrives, Added, Ceil;
    var f := p.quoteTransferFee;
    var vault := Arrives(amount, f);
    ArrivesLess(amount, f);
    GraduationPossible(t, vault, Remaining(p));
    NetLess(vault, t.rate);
    GrossedIff(RequiredVault(t, Remaining(p)), amount, f);
  }

  lemma ArrivesLess(amount: nat, f: TransferFee)
    requires f.Valid()
    ensures Arrives(amount, f) <= amount
  {
  }

  lemma NetLess(vault: nat, rate: nat)
    requires rate <= RATE
    ensures NetOf(vault, rate) <= vault
  {
  }

  /** What a graduating buy is charged arrives on the curve as exactly the required net amount. */
  lemma ChargeArrives(t: Terms, remaining: nat, f: TransferFee)
    requires t.Valid() && remaining < t.base && t.rate < RATE && f.Valid()
    ensures Arrives(Charge(t, remaining, f), f) == RequiredVault(t, remaining)
    ensures NetOf(RequiredVault(t, remaining), t.rate) == RequiredNet(t, remaining)
  {
    hide NetOf, Arrives, Grossed, Ceil, RequiredNet;
    GrossedArrives(RequiredVault(t, remaining), f);
    var net := RequiredNet(t, remaining);
    var vault := RequiredVault(t, remaining);
    CeilIff(net * RATE, RATE - t.rate, vault);
    NetIff(vault, t.rate, net);
    NetIff(vault, t.rate, net + 1);
    assert (net + 1) * RATE == net * RATE + RATE;
  }

  /** An offer of exactly the charge is in range too and buys at least what remains. */
  lemma ChargeInRange(p: State, t: Terms, amount: nat)
    requires Graduates(p, t, amount) && Remaining(p) < t.base && t.rate < RATE
    requires Charge(t, Remaining(p), p.quoteTransferFee) > 0
    ensures InRange(p, t, Charge(t, Remaining(p), p.quoteTransferFee))
    ensures Remaining(p) <= OutFor(p, t, Charge(t, Remaining(p), p.quoteTransferFee))
  {
    hide NetOf, CurveOut, Arrives, Grossed, RequiredNet, RequiredVault, Graduate;
    var f, remaining := p.quoteTransferFee, Remaining(p);
    GraduationFits(p, t, amount);
    GraduationPossible(t, Arrives(amount, f), remaining);
    var charge, required := Charge(t, remaining, f), RequiredNet(t, remaining);
    ChargeArrives(t, remaining, f);
    ChargePositive(t, remaining, f);
    MulMono(required, NetIn(p, t, amount), t.base);
    ChargeIff(t, remaining, f, charge);
  }

  /** Buying with the charge of a graduating buy is that same graduating purchase. */
  lemma RequoteCharge(p: State, t: Terms, amount: nat)
    requires Graduates(p, t, amount) && Remaining(p) < t.base && t.rate < RATE
    requires Charge(t, Remaining(p), p.quoteTransferFee) > 0
    ensures var charge := Charge(t, Remaining(p), p.quoteTransferFee);
      Buy(p, t, charge) == Ok(Purchase(charge, Remaining(p)))
  {
    hide NetIn, CurveOut, Charge, Buy, Graduate;
    var charge := Charge(t, Remaining(p), p.quoteTransferFee);
    ChargeInRange(p, t, amount);
    BuyIs(p, t, charge);
    if OutFor(p, t, charge) > Remaining(p) { GraduationFits(p, t, charge); }
  }

  lemma ChargePositive(t: Terms, remaining: nat, f: TransferFee)
    requires t.Valid() && remaining < t.base && t.rate < RATE && f.Valid()
    ensures Charge(t, remaining, f) > 0 ==> RequiredNet(t, remaining) > 0
  {
    hide RequiredNet, Grossed;
    if RequiredNet(t, remaining) == 0 {
      CeilIff(0, RATE - t.rate, 0);
      GrossedNothing(f);
    }
  }

  /** A buy in range is the curve's output, capped; a buy that succeeds was in range. */
  lemma BuyIs(p: State, t: Terms, amount: nat)
    requires t.Valid()
    ensures InRange(p, t, amount) ==> Buy(p, t, amount) == Cap(p, t, amount, OutFor(p, t, amount))
    ensures !InRange(p, t, amount) ==> Buy(p, t, amount).Err? && Buy(p, t, amount).error != GraduationExhausts
  {
    hide NetOf, Cap;
  }

  /** The error for a graduation that exhausts the reserves is never raised. */
  lemma NeverExhausts(p: State, amount: int, buy: bool, bps: int, share: int)
    ensures QuoteExactIn(p, amount, buy, bps, share) != Err(GraduationExhausts)
  {
    hide NetIn, CurveOut, Buy, NetOf, Graduate, Charge;
    if buy && 0 < amount <= U64 && Reserves(p, share, bps).Ok? {
      var t := Reserves(p, share, bps).value;
      BuyIs(p, t, amount);
      if Graduates(p, t, amount) { GraduationFits(p, t, amount); }
    }
  }

  /** A graduating buy is charged the least amount that buys everything left, without the clamp. */
  lemma GraduatingCharge(p: State, amount: nat, bps: int, share: int)
    requires QuoteExactIn(p, amount, true, bps, share).Ok?
    requires Graduates(p, Reserves(p, share, bps).value, amount)
    ensures var t := Reserves(p, share, bps).value;
      && Remaining(p) < t.base && t.rate < RATE
      && QuoteExactIn(p, amount, true, bps, share).value.amountIn
         == Charge(t, Remaining(p), p.quoteTransferFee) <= amount
  {
    hide NetIn, CurveOut, Buy, Graduate, Charge, Reserves;
    var t := Reserves(p, share, bps).value;
    BuyIs(p, t, amount);
    GraduationFits(p, t, amount);
  }

  /** Quoting again with exactly what a buy was charged gives the same quote. */
  lemma Requote(p: State, amount: nat, bps: int, share: int)
    requires QuoteExactIn(p, amount, true, bps, share).Ok?
    requires QuoteExactIn(p, amount, true, bps, share).value.amountIn > 0
    ensures QuoteExactIn(p, QuoteExactIn(p, amount, true, bps, share).value.amountIn, true, bps, share)
         == QuoteExactIn(p, amount, true, bps, share)
  {
    hide NetIn, CurveOut, Buy, Graduate, Charge, Delivered;
    var t := Reserves(p, share, bps).value;
    BuyIs(p, t, amount);
    if Graduates(p, t, amount) {
      GraduationFits(p, t, amount);
      RequoteCharge(p, t, amount);
    }
  }

  /** A buy of everything left is charged the least sufficient amount exactly when its output was
      above the cap or it offered that amount: landing on the cap itself keeps the whole offer. */
  lemma CapCharge(p: State, t: Terms, amount: nat)
    requires InRange(p, t, amount) && 0 < p.totalBaseSell && 0 <= p.realBase <= p.totalBaseSell
    requires Remaining(p) < t.base && t.rate < RATE && Remaining(p) <= OutFor(p, t, amount)
    ensures Charge(t, Remaining(p), p.quoteTransferFee) <= amount
    ensures Buy(p, t, amount).Ok? && Buy(p, t, amount).value.out == Remaining(p)
    ensures Buy(p, t, amount).value.charge == Charge(t, Remaining(p), p.quoteTransferFee)
       <==> OutFor(p, t, amount) > Remaining(p) || amount == Charge(t, Remaining(p), p.quoteTransferFee)
  {
    hide NetOf, CurveOut, Charge, Buy, Graduate, Arrives;
    BuyIs(p, t, amount);
    ChargeIff(t, Remaining(p), p.quoteTransferFee, amount);
    if Graduates(p, t, amount) { GraduationFits(p, t, amount); }
  }

  const FREE: TransferFee := TransferFee(0, 0)
  const SMALL_CURVE: State := State(100, 100, 0, 0, 50, 0, 0, 0, 0, FREE, FREE)

  /** An offer of 101 that lands on the cap pays 101 for what an offer of 105 gets for 100. */
  lemma CapOvercharge()
    ensures QuoteExactIn(SMALL_CURVE, 101, true, 0, 0) == Ok(Quote(101, 50))
    ensures QuoteExactIn(SMALL_CURVE, 105, true, 0, 0) == Ok(Quote(100, 50))
  {
    hide NetIn, CurveOut, Charge, Buy, Graduate, Delivered;
    var t := Terms(100, 100, 0, 0);
    assert Reserves(SMALL_CURVE, 0, 0) == Ok(t);
    SmallNet(t, 101);
    SmallNet(t, 105);
    BuyIs(SMALL_CURVE, t, 101);
    BuyIs(SMALL_CURVE, t, 105);
    GraduationFits(SMALL_CURVE, t, 105);
    SmallCharge(t);
  }

  lemma SmallNet(t: Terms, amount: nat)
    requires t == Terms(100, 100, 0, 0) && 101 <= amount <= 105
    ensures NetIn(SMALL_CURVE, t, amount) == amount
    ensures amount == 101 ==> CurveOut(amount, 100, 100) == 50
    ensures amount == 105 ==> CurveOut(amount, 100, 100) == 51
  {
  }

  lemma SmallCharge(t: Terms)
    requires t == Terms(100, 100, 0, 0)
    ensures Charge(t, 50, FREE) == 100 && Delivered(50, FREE, 0) == Ok(50)
  {
    hide RequiredNet, RequiredVault, Protected;
    SmallNetAndVault(t);
    ProtectedFree(50);
  }

  lemma SmallNetAndVault(t: Terms)
    requires t == Terms(100, 100, 0, 0)
    ensures RequiredNet(t, 50) == 100 && RequiredVault(t, 50) == 100
  {
    hide Ceil;
    ExactCeil(100, 50);
    ExactCeil(100, RATE);
  }

  lemma ProtectedFree(received: nat)
    ensures Protected(received, 0) == received
  {
  }

  lemma ExactCeil(q: nat, d: nat)
    requires d > 0
    ensures Ceil(q * d, d) == q
  {
    CeilIff(q * d, d, q);
    CeilIff(q * d, d, q - 1);
  }

  lemma NetMonotone(a: nat, b: nat, rate: nat)
    requires rate <= RATE && a <= b
    ensures NetOf(a, rate) <= NetOf(b, rate)
  {
    hide NetOf;
    NetIff(a, rate, NetOf(a, rate));
    MulMono(a, b, RATE - rate);
    NetIff(b, rate, NetOf(a, rate));
  }

  lemma CurveOutMonotone(x: nat, y: nat, base: nat, quote: nat)
    requires quote + x > 0 && x <= y
    ensures CurveOut(x, base, quote) <= CurveOut(y, base, quote)
  {
    hide CurveOut;
    var q := CurveOut(x, base, quote);
    OutWithinBase(x, base, quote);
    CurveOutIff(x, base, quote, q);
    MulMono(x, y, base - q);
    CurveOutIff(y, base, quote, q);
  }

  lemma OutMonotone(p: State, t: Terms, a: nat, b: nat)
    requires InRange(p, t, a) && InRange(p, t, b) && a <= b
    ensures OutFor(p, t, a) <= OutFor(p, t, b)
  {
    hide NetOf, CurveOut, Arrives;
    ArrivesMonotone(a, b, p.quoteTransferFee);
    NetMonotone(Arrives(a, p.quoteTransferFee), Arrives(b, p.quoteTransferFee), t.rate);
    CurveOutMonotone(NetIn(p, t, a), NetIn(p, t, b), t.base, t.quote);
  }

  lemma ProtectedMonotone(x: nat, y: nat, bps: nat)
    requires bps <= 10000 && x <= y
    ensures Protected(x, bps) <= Protected(y, bps)
  {
    assert y * bps == x * bps + (y - x) * bps;
    MulMono(bps, 10000, y - x);
    FloorIff(x * bps, 10000, 0);
    FloorIff(y * bps, 10000, x * bps / 10000 + (y - x) + 1);
  }

  lemma ProtectedLess(x: nat, bps: nat)
    ensures Protected(x, bps) <= x
  {
    FloorIff(x * bps, 10000, 0);
  }

  lemma DeliveredMonotone(a: nat, b: nat, f: TransferFee, bps: nat)
    requires bps <= 9999 && a <= b && Delivered(a, f, bps).Ok? && Delivered(b, f, bps).Ok?
    ensures Delivered(a, f, bps).value <= Delivered(b, f, bps).value
  {
    hide Protected, Withheld;
    ArrivesMonotone(a, b, f);
    ProtectedMonotone(Arrives(a, f), Arrives(b, f), bps);
  }

  /** A larger offer never buys less, graduation included. */
  lemma BuyMonotone(p: State, a: nat, b: nat, bps: int, share: int)
    requires a <= b && QuoteExactIn(p, a, true, bps, share).Ok? && QuoteExactIn(p, b, true, bps, share).Ok?
    ensures QuoteExactIn(p, a, true, bps, share).value.minimumAmountOut
         <= QuoteExactIn(p, b, true, bps, share).value.minimumAmountOut
  {
    hide NetIn, CurveOut, Buy, Graduate, Charge, Delivered;
    var t := Reserves(p, share, bps).value;
    BuyIs(p, t, a);
    BuyIs(p, t, b);
    OutMonotone(p, t, a, b);
    if Graduates(p, t, a) { GraduationFits(p, t, a); }
    if Graduates(p, t, b) { GraduationFits(p, t, b); }
    DeliveredMonotone(Buy(p, t, a).value.out, Buy(p, t, b).value.out, p.baseTransferFee, t.bps);
  }

  /** Selling back into a curve that was paid fairly returns at most what was paid. */
  lemma SellBack(out: nat, net: nat, base: nat, quote: nat, tokens: nat)
    requires tokens <= out <= base && base - out + tokens > 0
    requires out * quote <= net * (base - out)
    ensures tokens * (quote + net) / (base - out + tokens) <= net
  {
    var left := base - out + tokens;
    MulMono(tokens, out, quote);
    assert tokens * (quote + net) == tokens * quote + tokens * net;
    assert net * left == net * (base - out) + net * tokens;
    assert (net + 1) * left == net * left + left;
    FloorIff(tokens * (quote + net), left, net + 1);
  }

  /** What a buy pays onto the curve covers what it takes, graduating or not. */
  lemma PaidFairly(p: State, t: Terms, amount: nat)
    requires t.Valid() && p.quoteTransferFee.Valid() && 0 <= p.totalBaseSell && Buy(p, t, amount).Ok?
    ensures var purchase := Buy(p, t, amount).value;
      && purchase.out <= t.base
      && purchase.out * t.quote <= NetIn(p, t, purchase.charge) * (t.base - purchase.out)
      && NetIn(p, t, purchase.charge) <= purchase.charge
  {
    hide NetIn, OutFor, Buy, Graduate, Charge;
    BuyIs(p, t, amount);
    var net := NetIn(p, t, amount);
    if Graduates(p, t, amount) {
      GraduationFits(p, t, amount);
      ChargeCovers(p, t);
    } else {
      OutCovered(p, t, amount);
    }
    NetInLess(p, t, Buy(p, t, amount).value.charge);
  }

  lemma NetInLess(p: State, t: Terms, amount: nat)
    requires t.Valid() && p.quoteTransferFee.Valid()
    ensures NetIn(p, t, amount) <= amount
  {
    hide NetOf, Arrives;
    ArrivesLess(amount, p.quoteTransferFee);
    NetLess(Arrives(amount, p.quoteTransferFee), t.rate);
  }

  lemma ChargeCovers(p: State, t: Terms)
    requires t.Valid() && p.quoteTransferFee.Valid()
    requires p.realBase <= p.totalBaseSell && Remaining(p) < t.base && t.rate < RATE
    ensures Remaining(p) * t.quote <= NetIn(p, t, Charge(t, Remaining(p), p.quoteTransferFee)) * (t.base - Remaining(p))
  {
    hide Arrives, NetOf, Charge, RequiredVault, Ceil;
    ChargeArrives(t, Remaining(p), p.quoteTransferFee);
    CeilIff(t.quote * Remaining(p), t.base - Remaining(p), RequiredNet(t, Remaining(p)));
  }

  lemma OutCovered(p: State, t: Terms, amount: nat)
    requires InRange(p, t, amount)
    ensures OutFor(p, t, amount) <= t.base
    ensures OutFor(p, t, amount) * t.quote <= NetIn(p, t, amount) * (t.base - OutFor(p, t, amount))
  {
    hide CurveOut, NetIn;
    var net := NetIn(p, t, amount);
    OutWithinBase(net, t.base, t.quote);
    CurveOutIff(net, t.base, t.quote, OutFor(p, t, amount));
  }

  lemma OutWithinBase(net: nat, base: nat, quote: nat)
    requires quote + net > 0
    ensures CurveOut(net, base, quote) <= base
  {
    FloorIff(net * base, quote + net, base + 1);
    assert (base + 1) * (quote + net) == base * quote + base * net + quote + net;
  }

  /** The curve after a buy: its tokens sold and its net payment banked.  The source only quotes, so
      this transition is the model's own. */
  function After(p: State, amount: nat, bps: int, share: int): State
    requires QuoteExactIn(p, amount, true, bps, share).Ok?
  {
    var t := Reserves(p, share, bps).value;
    var purchase := Buy(p, t, amount).value;
    p.(realBase := p.realBase + purchase.out, realQuote := p.realQuote + NetIn(p, t, purchase.charge))
  }

  lemma SellBounded(p: State, t: Terms, tokens: nat, net: nat)
    requires t.Valid() && Sell(p, t, tokens).Ok?
    requires forall back: nat | back <= tokens && t.base + back > 0 :: back * t.quote / (t.base + back) <= net
    ensures Sell(p, t, tokens).value <= net
  {
    hide NetOf, Withheld;
    var back: nat := tokens - Withheld(tokens, p.baseTransferFee);
    NetLess(back * t.quote / (t.base + back), t.rate);
  }

  /** Buying and selling the tokens straight back never returns more than was charged. */
  lemma NoFreeRoundTrip(p: State, amount: nat, tokens: nat, bps: int, share: int, bps': int, share': int)
    requires QuoteExactIn(p, amount, true, bps, share).Ok?
    requires tokens <= Buy(p, Reserves(p, share, bps).value, amount).value.out
    requires QuoteExactIn(After(p, amount, bps, share), tokens, false, bps', share').Ok?
    ensures QuoteExactIn(After(p, amount, bps, share), tokens, false, bps', share').value.minimumAmountOut
         <= QuoteExactIn(p, amount, true, bps, share).value.amountIn
  {
    hide NetOf, CurveOut, Buy, Delivered, NetIn, Sell;
    var t := Reserves(p, share, bps).value;
    BuyIs(p, t, amount);
    var purchase := Buy(p, t, amount).value;
    var after := After(p, amount, bps, share);
    var t' := Reserves(after, share', bps').value;
    var net := NetIn(p, t, purchase.charge);
    PaidFairly(p, t, amount);
    assert t'.base == t.base - purchase.out && t'.quote == t.quote + net;
    forall back: nat | back <= tokens && t'.base + back > 0 ensures back * t'.quote / (t'.base + back) <= net {
      SellBack(purchase.out, net, t.base, t.quote, back);
    }
    SellBounded(after, t', tokens, net);
    DeliveredLess(Sell(after, t', tokens).value, after.quoteTransferFee, t'.bps);
  }

  lemma DeliveredLess(sent: nat, f: TransferFee, bps: nat)
    requires bps <= 9999 && Delivered(sent, f, bps).Ok?
    ensures Delivered(sent, f, bps).value <= sent
  {
    hide Protected, Withheld;
    ProtectedLess(sent - Withheld(sent, f), bps);
  }

  /** The slippage minimum is the least amount that is at most the allowed share below what arrives. */
  lemma ProtectedIff(received: nat, bps: nat, n: nat)
    requires bps <= 10000
    ensures Protected(received, bps) <= n <==> received * (10000 - bps) <= n * 10000
  {
    FloorIff(received * bps, 10000, received - n);
    Distribute(10000, received, n);
    Distribute(received, 10000, bps);
  }

  /** `q` is the greatest integer whose product with `d` is at most `n`. */
  predicate IsQuotient(q: nat, n: int, d: nat) { q * d <= n < (q + 1) * d }

  lemma QuotientIs(q: nat, n: nat, d: nat)
    requires IsQuotient(q, n, d)
    ensures d > 0 && q == n / d
  {
    if d > 0 {
      FloorIff(n, d, q);
      FloorIff(n, d, q + 1);
    }
  }

  lemma NetIs(n: nat, vault: nat, rate: nat)
    requires rate <= RATE && IsQuotient(n, vault * (RATE - rate), RATE)
    ensures n == NetOf(vault, rate)
  {
    hide NetOf;
    NetIff(vault, rate, n);
    NetIff(vault, rate, n + 1);
  }

  /** The whole rate and the two reserves of a curve. */
  function TotalRate(p: State, share: int): int { p.tradeFeeRate + p.platformFeeRate + p.creatorFeeRate + share }

  /** The states that are quoted at all. */
  predicate Quotable(p: State, share: int, bps: int) {
    && p.curveType == 0
    && 0 <= p.realBase <= p.virtualBase <= U128 && 0 <= p.virtualQuote && 0 <= p.realQuote
    && p.virtualQuote + p.realQuote <= U128 && 0 <= p.totalBaseSell <= U128
    && 0 <= p.tradeFeeRate && 0 <= p.platformFeeRate && 0 <= p.creatorFeeRate && 0 <= share
    && TotalRate(p, share) <= RATE && 0 <= bps <= 9999
  }

  lemma QuotableIff(p: State, share: int, bps: int)
    ensures Reserves(p, share, bps).Ok? <==> Quotable(p, share, bps)
    ensures Quotable(p, share, bps) ==>
        Reserves(p, share, bps) ==
        Ok(Terms(p.virtualBase - p.realBase, p.virtualQuote + p.realQuote, TotalRate(p, share), bps))
  {
  }

  /** A sale is quoted exactly when its state is quotable, its amounts fit their widths and there is
      something to divide by. */
  lemma SellAccepts(p: State, amount: int, bps: int, share: int)
    ensures QuoteExactIn(p, amount, false, bps, share).Ok? <==>
      && 0 < amount <= U64 && Quotable(p, share, bps) && p.baseTransferFee.Valid() && p.quoteTransferFee.Valid()
      && var net, base, quote := Arrives(amount, p.baseTransferFee), p.virtualBase - p.realBase,
           p.virtualQuote + p.realQuote;
      && 0 < base + net <= U128 && net * quote <= U128 && NetOf(CurveOut(net, quote, base), TotalRate(p, share)) <= U64
  {
    hide NetOf, Withheld, Reserves;
    QuotableIff(p, share, bps);
    if 0 < amount <= U64 && Quotable(p, share, bps) && Sell(p, Reserves(p, share, bps).value, amount).Ok? {
      DeliveredIff(Sell(p, Reserves(p, share, bps).value, amount).value, p.quoteTransferFee, bps);
    }
  }

  /** What is delivered fits whenever what is sent does. */
  lemma DeliveredIff(sent: nat, f: TransferFee, bps: nat)
    requires bps <= 9999
    ensures Delivered(sent, f, bps).Ok? <==> sent <= U64 && f.Valid()
  {
    hide Withheld, Protected;
    if sent <= U64 && f.Valid() {
      ProtectedLess(Arrives(sent, f), bps);
      ProtectedIff(Arrives(sent, f), bps, 0);
      ProtectedWhole(Arrives(sent, f), bps);
    }
  }

  lemma ProtectedWhole(received: nat, bps: nat)
    requires bps <= 10000
    ensures 0 <= Protected(received, bps)
  {
    MulMono(bps, 10000, received);
    FloorIff(received * bps, 10000, received + 1);
  }

  /** A buy is quoted exactly when its state is quotable, its amounts fit their widths, no more than the
      cap has been sold and there is something to divide by. */
  lemma BuyAccepts(p: State, amount: int, bps: int, share: int)
    ensures QuoteExactIn(p, amount, true, bps, share).Ok? <==>
      && 0 < amount && Quotable(p, share, bps) && p.baseTransferFee.Valid()
      && var t := Reserves(p, share, bps).value;
      && InRange(p, t, amount) && (p.totalBaseSell != 0 ==> p.realBase <= p.totalBaseSell)
      && (if p.totalBaseSell != 0 then Min(OutFor(p, t, amount), Remaining(p)) else OutFor(p, t, amount)) <= U64
  {
    hide NetIn, CurveOut, Buy, Graduate, Charge, Delivered, Reserves;
    QuotableIff(p, share, bps);
    if 0 < amount <= U64 && Quotable(p, share, bps) {
      var t := Reserves(p, share, bps).value;
      BuyIs(p, t, amount);
      if Graduates(p, t, amount) { GraduationFits(p, t, amount); }
      if Buy(p, t, amount).Ok? { DeliveredIff(Buy(p, t, amount).value.out, p.baseTransferFee, t.bps); }
    }
  }

  /** Exactly what a sale yields.  What arrives after the base transfer fee takes the greatest gross
      amount that keeps the constant product, of which the vault pays the greatest part that the whole
      rate leaves; the minimum is the least that slippage allows below what arrives of that after the
      quote transfer fee. */
  lemma SellYields(p: State, amount: nat, bps: int, share: int, gross: nat, vault: nat, n: nat)
    requires QuoteExactIn(p, amount, false, bps, share).Ok? && p.baseTransferFee.Valid()
    requires var net := Arrives(amount, p.baseTransferFee);
      IsQuotient(gross, net * (p.virtualQuote + p.realQuote), p.virtualBase - p.realBase + net)
    requires IsQuotient(vault, gross * (RATE - TotalRate(p, share)), RATE)
    ensures p.quoteTransferFee.Valid() && 0 <= bps <= 9999
    ensures var q := QuoteExactIn(p, amount, false, bps, share).value;
      && q.amountIn == amount
      && (q.minimumAmountOut <= n <==> Arrives(vault, p.quoteTransferFee) * (10000 - bps) <= n * 10000)
  {
    hide NetOf, Withheld, Protected;
    var t, net := Reserves(p, share, bps).value, Arrives(amount, p.baseTransferFee);
    QuotientIs(gross, net * t.quote, t.base + net);
    NetIs(vault, gross, t.rate);
    ProtectedIff(Arrives(vault, p.quoteTransferFee), t.bps, n);
  }

  /** Exactly what a buy yields, up to what is left to sell, and what it is charged. */
  lemma BuyYields(p: State, amount: nat, bps: int, share: int, net: nat, out: nat, n: nat)
    requires QuoteExactIn(p, amount, true, bps, share).Ok? && p.quoteTransferFee.Valid()
    requires IsQuotient(net, Arrives(amount, p.quoteTransferFee) * (RATE - TotalRate(p, share)), RATE)
    requires IsQuotient(out, net * (p.virtualBase - p.realBase), p.virtualQuote + p.realQuote + net)
    ensures p.baseTransferFee.Valid() && 0 <= bps <= 9999 && (p.totalBaseSell != 0 ==> p.realBase <= p.totalBaseSell)
    ensures var q, t := QuoteExactIn(p, amount, true, bps, share).value, Reserves(p, share, bps);
      var capped := p.totalBaseSell != 0 && out > Remaining(p);
      var taken := if capped then Remaining(p) else out;
      && (q.minimumAmountOut <= n <==> Arrives(taken, p.baseTransferFee) * (10000 - bps) <= n * 10000)
      && (!capped ==> q.amountIn == amount)
      && (capped ==> t.Ok? && Remaining(p) < t.value.base && t.value.rate < RATE)
      && (capped ==> q.amountIn == Charge(t.value, Remaining(p), p.quoteTransferFee) <= amount)
  {
    hide NetOf, Withheld, Protected, Graduate, Charge;
    var t := Reserves(p, share, bps).value;
    NetIs(net, Arrives(amount, p.quoteTransferFee), t.rate);
    QuotientIs(out, net * t.base, t.quote + net);
    BuyIs(p, t, amount);
    if Graduates(p, t, amount) { GraduationFits(p, t, amount); }
    ProtectedIff(Arrives(Buy(p, t, amount).value.out, p.baseTransferFee), t.bps, n);
  }
}
