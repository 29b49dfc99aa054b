/** PumpSwap quotes: buying and selling by base or by quote amount, with three ceiled fees. */
module PumpSwap {
  import opened Arith
  import opened Outcomes

  const BPS: nat := 10_000
  const I128_MAX: int := 0x7fff_ffff_ffff_ffff_ffff_ffff_ffff_ffff

  datatype Fault =
    OutsideU64 | ZeroReserves | InvalidVirtualReserves | Depleted | ExceedsReserves | TooSmallForFees
  | FeesExceedOutput | InsufficientRealQuote | FeesTooHigh

  datatype Fees = Fees(lp: int, protocol: int, creator: int)

  datatype Pool = Pool(base: int, quote: int, virtualQuote: int, fees: Fees)

  datatype Buying = Buying(internalQuote: nat, uiQuote: nat, maxQuote: nat)

  datatype Spending = Spending(base: nat, internalQuote: nat, maxQuote: nat)

  datatype Selling = Selling(uiQuote: nat, minQuote: nat, internalQuote: nat)

  datatype Raising = Raising(internalRawQuote: nat, base: nat, minQuote: nat)

  /** Checked reserves and fees of a pool. */
  datatype Terms = Terms(base: nat, quote: nat, effective: nat, lp: nat, protocol: nat, creator: nat) {
    predicate Valid() {
      && 0 < base <= U64 && 0 < quote <= U64 && 0 < effective <= U64
      && lp <= U64 && protocol <= U64 && creator <= U64
    }

    function Rate(): nat { lp + protocol + creator }
  }

  function Amount(value: int): (r: Result<nat, Fault>)
    ensures r.Ok? <==> Word(value)
    ensures r.Ok? ==> r.value == value
  {
    if Word(value) then Ok(value) else Err(OutsideU64)
  }

  /** The quote vault plus its signed offset. */
  function EffectiveQuote(quote: int, virtual: int): (r: Result<nat, Fault>)
    ensures r.Ok? ==> r.value == quote + virtual <= U64
  {
    if !Word(quote) then Err(OutsideU64)
    else if virtual < -I128_MAX - 1 || virtual > I128_MAX then Err(InvalidVirtualReserves)
    else if !Word(quote + virtual) then Err(InvalidVirtualReserves)
    else Ok(quote + virtual)
  }

  /** The checks that every quote starts with.  `cap` is the source's extra bound on selling by
      quote amount, which it checks before the offset. */
  function Checked(p: Pool, amount: int, slippage: int, cap: int): (r: Result<Terms, Fault>)
    ensures r.Ok? ==> r.value.Valid() && Word(amount) && Word(slippage) && amount <= cap
    ensures r.Ok? ==> r.value.base == p.base && r.value.quote == p.quote
    ensures r.Ok? ==> r.value.effective == p.quote + p.virtualQuote
    ensures r.Ok? ==> r.value.lp == p.fees.lp && r.value.protocol == p.fees.protocol
    ensures r.Ok? ==> r.value.creator == p.fees.creator
  {
    if !Word(amount) || !Word(slippage) || !Word(p.base) || !Word(p.quote) then Err(OutsideU64)
    else if !Word(p.fees.lp) || !Word(p.fees.protocol) || !Word(p.fees.creator) then Err(OutsideU64)
    else if p.base == 0 || p.quote == 0 then Err(ZeroReserves)
    else if amount > cap then Err(ExceedsReserves)
    else
      var effective :- EffectiveQuote(p.quote, p.virtualQuote);
      if effective == 0 then Err(Depleted)
      else Ok(Terms(p.base, p.quote, effective, p.fees.lp, p.fees.protocol, p.fees.creator))
  }

  function Fee(amount: nat, bps: nat): nat { Ceil(amount * bps, BPS) }

  function ComputeFee(amount: nat, bps: nat): Result<nat, Fault> {
    var whole :- Amount(amount);
    var rate :- Amount(bps);
    Amount(Fee(whole, rate))
  }

  function TotalFees(amount: nat, t: Terms): nat {
    Fee(amount, t.lp) + Fee(amount, t.protocol) + Fee(amount, t.creator)
  }

  function ComputeFees(amount: nat, t: Terms): Result<nat, Fault> {
    var lp :- ComputeFee(amount, t.lp);
    var protocol :- ComputeFee(amount, t.protocol);
    var creator :- ComputeFee(amount, t.creator);
    Ok(lp + protocol + creator)
  }

  /** Division of the pool curve, rounded against the trader. */
  function CeilU64(a: nat, b: nat, d: nat): Result<nat, Fault>
    requires d > 0
  {
    Amount(Ceil(a * b, d))
  }

  /** Slippage on a payment: clamped and saturating. */
  function Slipped(amount: int, slippage: nat): Result<nat, Fault> {
    var whole :- Amount(amount);
    var _ :- Amount(slippage);
    var limit := whole + MulDiv(whole, if slippage > 9999 then 9999 else slippage, BPS);
    Ok(if limit > U64 then U64 else limit)
  }

  /** Slippage on an output: clamped and floored. */
  function MinimumOutput(amount: nat, slippage: nat): nat {
    MulDiv(amount, BPS - if slippage > 9999 then 9999 else slippage, BPS)
  }

  function BuyBase(p: Pool, base: int, slippage: int): Result<Buying, Fault> {
    var t :- Checked(p, base, slippage, U64);
    if base > t.base then Err(ExceedsReserves)
    else if t.base - base == 0 then Err(Depleted)
    else
      var raw :- CeilU64(t.effective, base, t.base - base);
      var fees :- ComputeFees(raw, t);
      var limit :- Slipped(raw + fees, slippage);
      Ok(Buying(raw, raw + fees, limit))
  }

  /** The quote amount that reaches the pool, by the source's estimate and its correction. */
  function Estimate(quote: nat, rate: nat): nat { MulDiv(quote, BPS, BPS + rate) }

  function Reaching(quote: nat, t: Terms): int {
    var e := Estimate(quote, t.Rate());
    var total := e + TotalFees(e, t);
    if total > quote then e - (total - quote) else e
  }

  function BuyQuote(p: Pool, quote: int, slippage: int): Result<Spending, Fault> {
    var t :- Checked(p, quote, slippage, U64);
    var rate :- Amount(t.Rate());
    var _ :- Amount(BPS + rate);
    var _ :- ComputeFees(Estimate(quote, rate), t);
    var reaching := Reaching(quote, t);
    if reaching <= 0 then Err(TooSmallForFees)
    else
      var input: nat := reaching - 1;
      var base := MulDiv(t.base, input, t.effective + input);
      var limit :- Slipped(quote, slippage);
      Ok(Spending(base, reaching, limit))
  }

  function SellBase(p: Pool, base: int, slippage: int): Result<Selling, Fault> {
    var t :- Checked(p, base, slippage, U64);
    var out := MulDiv(t.effective, base, t.base + base);
    var fees :- ComputeFees(out, t);
    var total :- Amount(fees);
    if total > out then Err(FeesExceedOutput)
    else if out - Fee(out, t.lp) > t.quote then Err(InsufficientRealQuote)
    else Ok(Selling(out - total, MinimumOutput(out - total, slippage), out))
  }

  function SellQuote(p: Pool, quote: int, slippage: int): Result<Raising, Fault> {
    var t :- Checked(p, quote, slippage, p.quote);
    if t.Rate() >= BPS then Err(FeesTooHigh)
    else
      var raw :- CeilU64(quote, BPS, BPS - t.Rate());
      var lp :- ComputeFee(raw, t.lp);
      if raw - lp > t.quote then Err(InsufficientRealQuote)
      else if raw >= t.effective then Err(ExceedsReserves)
      else
        var base :- CeilU64(t.base, raw, t.effective - raw);
        Ok(Raising(raw, base, MinimumOutput(quote, slippage)))
  }

  lemma FeeIff(amount: nat, bps: nat, fee: nat)
    ensures Fee(amount, bps) <= fee <==> amount * bps <= fee * BPS
  {
    CeilIff(amount * bps, BPS, fee);
  }

  /** The limit of a payment is the greatest word that exceeds it by at most the slippage. */
  lemma SlippedIff(amount: int, slippage: nat, n: nat)
    requires Slipped(amount, slippage).Ok?
    ensures 0 <= amount
    ensures n <= Slipped(amount, slippage).value
       <==> n <= U64 && (n - amount) * BPS <= amount * Min(slippage, 9999)
  {
    FloorIff(amount * Min(slippage, 9999), BPS, n - amount);
  }

  /** The minimum of an output is the greatest amount that slippage leaves of it. */
  lemma MinimumOutputIff(amount: nat, slippage: nat, n: nat)
    ensures n <= MinimumOutput(amount, slippage) <==> n * BPS <= amount * (BPS - Min(slippage, 9999))
  {
    FloorIff(amount * (BPS - Min(slippage, 9999)), BPS, n);
  }

  /** Exactly what a base amount costs: the least raw quote that keeps the constant product, and the
      three fees on it. */
  lemma BuyBaseYields(p: Pool, base: int, slippage: int, n: nat)
    requires BuyBase(p, base, slippage).Ok?
    ensures 0 <= slippage && Checked(p, base, slippage, U64).Ok?
    ensures var q, t := BuyBase(p, base, slippage).value, Checked(p, base, slippage, U64).value;
      && 0 <= base < p.base
      && (q.internalQuote <= n <==> (p.quote + p.virtualQuote) * base <= n * (p.base - base))
      && q.uiQuote == q.internalQuote + TotalFees(q.internalQuote, t)
      && (n <= q.maxQuote <==> n <= U64 && (n - q.uiQuote) * BPS <= q.uiQuote * Min(slippage, 9999))
  {
    hide Slipped, Ceil, Fee, Checked;
    CheckedIs(p, base, slippage, U64);
    var q, t := BuyBase(p, base, slippage).value, Checked(p, base, slippage, U64).value;
    CeilIff(t.effective * base, t.base - base, n);
    FeesAre(q.internalQuote, t);
    SlippedIff(q.uiQuote, slippage, n);
  }

  lemma CheckedIs(p: Pool, amount: int, slippage: int, cap: int)
    ensures var r := Checked(p, amount, slippage, cap); r.Ok? ==>
      && r.value.Valid() && 0 <= amount && 0 <= slippage && r.value.base == p.base && r.value.quote == p.quote
      && r.value.effective == p.quote + p.virtualQuote
  {
    hide Checked;
  }

  lemma FeesAre(amount: nat, t: Terms)
    ensures ComputeFees(amount, t).Ok? ==> ComputeFees(amount, t).value == TotalFees(amount, t)
  {
    hide Fee;
  }

  /** Exactly what a payment buys: the most base that all but one unit of what reaches the pool covers. */
  lemma BuyQuoteYields(p: Pool, quote: int, slippage: int, n: nat)
    requires BuyQuote(p, quote, slippage).Ok?
    ensures 0 <= slippage && 0 <= quote
    ensures var q := BuyQuote(p, quote, slippage).value;
      && 0 < q.internalQuote
      && (n <= q.base <==> n * (p.quote + p.virtualQuote) <= (q.internalQuote - 1) * (p.base - n))
      && (n <= q.maxQuote <==> n <= U64 && (n - quote) * BPS <= quote * Min(slippage, 9999))
  {
    hide Slipped, Reaching, ComputeFees, Checked;
    CheckedIs(p, quote, slippage, U64);
    var q, t := BuyQuote(p, quote, slippage).value, Checked(p, quote, slippage, U64).value;
    var input: nat := q.internalQuote - 1;
    FloorIff(t.base * input, t.effective + input, n);
    TakenOut(n, t.effective, input, t.base);
    SlippedIff(quote, slippage, n);
  }

  /** Exactly what a base amount sells for: the most that keeps the constant product, less three fees. */
  lemma SellBaseYields(p: Pool, base: int, slippage: int, n: nat)
    requires SellBase(p, base, slippage).Ok?
    ensures 0 <= slippage && 0 <= base && Checked(p, base, slippage, U64).Ok?
    ensures var q, t := SellBase(p, base, slippage).value, Checked(p, base, slippage, U64).value;
      && (n <= q.internalQuote <==> n * p.base <= base * (p.quote + p.virtualQuote - n))
      && q.uiQuote == q.internalQuote - TotalFees(q.internalQuote, t)
      && q.internalQuote - Fee(q.internalQuote, t.lp) <= p.quote
      && (n <= q.minQuote <==> n * BPS <= q.uiQuote * (BPS - Min(slippage, 9999)))
  {
    hide MinimumOutput, Fee, Checked;
    CheckedIs(p, base, slippage, U64);
    var q, t := SellBase(p, base, slippage).value, Checked(p, base, slippage, U64).value;
    FloorIff(t.effective * base, t.base + base, n);
    TakenOut(n, t.base, base, t.effective);
    FeesAre(q.internalQuote, t);
    MinimumOutputIff(q.uiQuote, slippage, n);
  }

  /** Exactly what must be sold for a quote: the least raw quote that the whole rate leaves it of, and the
      least base whose sale gives that raw quote. */
  lemma SellQuoteYields(p: Pool, quote: int, slippage: int, n: nat)
    requires SellQuote(p, quote, slippage).Ok?
    ensures 0 <= slippage && 0 <= quote && Checked(p, quote, slippage, p.quote).Ok?
    ensures var q, t := SellQuote(p, quote, slippage).value, Checked(p, quote, slippage, p.quote).value;
      && t.Rate() < BPS && q.internalRawQuote < p.quote + p.virtualQuote
      && (q.internalRawQuote <= n <==> quote * BPS <= n * (BPS - t.Rate()))
      && (q.base <= n <==> p.base * q.internalRawQuote <= n * (p.quote + p.virtualQuote - q.internalRawQuote))
      && (n <= q.minQuote <==> n * BPS <= quote * (BPS - Min(slippage, 9999)))
  {
    hide MinimumOutput, Fee, Ceil, Checked;
    CheckedIs(p, quote, slippage, p.quote);
    var q, t := SellQuote(p, quote, slippage).value, Checked(p, quote, slippage, p.quote).value;
    CeilIff(quote * BPS, BPS - t.Rate(), n);
    CeilIff(t.base * q.internalRawQuote, t.effective - q.internalRawQuote, n);
    MinimumOutputIff(quote, slippage, n);
  }

  /** Three ceiled fees are at least the exact fee and less than three above it. */
  lemma FeesBounds(amount: nat, t: Terms)
    ensures amount * t.Rate() <= TotalFees(amount, t) * BPS < amount * t.Rate() + 3 * BPS
    ensures amount == 0 ==> TotalFees(amount, t) == 0
  {
    CeilIff(amount * t.lp, BPS, 0);
    CeilIff(amount * t.protocol, BPS, 0);
    CeilIff(amount * t.creator, BPS, 0);
    hide Ceil;
    assert amount * t.Rate() == amount * t.lp + amount * t.protocol + amount * t.creator;
  }

  lemma FeesMonotone(a: nat, b: nat, t: Terms)
    requires a <= b
    ensures TotalFees(a, t) <= TotalFees(b, t)
  {
    hide Ceil;
    MulMono(a, b, t.lp);
    MulMono(a, b, t.protocol);
    MulMono(a, b, t.creator);
    CeilMono(a * t.lp, b * t.lp, BPS);
    CeilMono(a * t.protocol, b * t.protocol, BPS);
    CeilMono(a * t.creator, b * t.creator, BPS);
  }

  /** The estimate overshoots by at most two and is at least every amount that fits. */
  lemma EstimateClose(quote: nat, t: Terms, n: nat)
    ensures var e := Estimate(quote, t.Rate()); e + TotalFees(e, t) <= quote + 2
    ensures n + TotalFees(n, t) <= quote ==> n <= Estimate(quote, t.Rate())
  {
    hide TotalFees, Terms.Rate;
    var e, rate := Estimate(quote, t.Rate()), t.Rate();
    FloorIff(quote * BPS, BPS + rate, e);
    FloorIff(quote * BPS, BPS + rate, n);
    FeesBounds(e, t);
    FeesBounds(n, t);
    Spread(e, rate);
    Spread(n, rate);
  }

  lemma Spread(n: nat, rate: nat)
    ensures n * (BPS + rate) == n * BPS + n * rate
  {
  }

  /** The amount that reaches the pool fits the payment with all three fees, and is within two of
      the greatest amount that does. */
  lemma ReachingFits(quote: nat, t: Terms, n: nat)
    ensures Reaching(quote, t) >= 0 ==> Reaching(quote, t) + TotalFees(Reaching(quote, t), t) <= quote
    ensures n + TotalFees(n, t) <= quote ==> n <= Reaching(quote, t) + 2
  {
    hide TotalFees, Estimate;
    EstimateClose(quote, t, n);
    if Reaching(quote, t) >= 0 { FeesMonotone(Reaching(quote, t), Estimate(quote, t.Rate()), t); }
  }

  /** The base that a payment buys costs less than the payment when bought by base amount. */
  lemma BaseWithin(base: nat, effective: nat, input: nat, out: nat)
    requires base > 0 && effective > 0 && out == MulDiv(base, input, effective + input)
    ensures out < base && Ceil(effective * out, base - out) <= input
  {
    FloorIff(base * input, effective + input, out);
    FloorIff(base * input, effective + input, base);
    assert base * (effective + input) == base * effective + base * input;
    assert out * (effective + input) == effective * out + out * input;
    assert input * (base - out) == base * input - out * input;
    assert base * effective > 0;
    CeilIff(effective * out, base - out, input);
  }

  lemma FeesInRange(amount: nat, t: Terms, bound: nat)
    requires t.Valid() && amount + TotalFees(amount, t) <= bound <= U64
    ensures ComputeFees(amount, t) == Ok(TotalFees(amount, t))
  {
    hide Fee;
  }

  /** Buying the base that a payment gets, by base amount, succeeds and costs less than the
      payment even with three ceiled fees. */
  lemma BuyInverse(p: Pool, quote: int, slippage: int)
    requires BuyQuote(p, quote, slippage).Ok?
    ensures var base := BuyQuote(p, quote, slippage).value.base;
      BuyBase(p, base, slippage).Ok? && BuyBase(p, base, slippage).value.uiQuote < quote
  {
    hide Reaching, TotalFees, ComputeFees, MulDiv, Ceil;
    var t := Checked(p, quote, slippage, U64).value;
    var reaching: nat := Reaching(quote, t);
    var out := BuyQuote(p, quote, slippage).value.base;
    ReachingFits(quote, t, 0);
    BaseWithin(t.base, t.effective, reaching - 1, out);
    var raw := Ceil(t.effective * out, t.base - out);
    FeesMonotone(raw, reaching, t);
    FeesInRange(raw, t, quote);
    assert Checked(p, out, slippage, U64) == Ok(t);
  }

  /** A base amount asked for a raw quote sells for at least that raw quote. */
  lemma RawCovered(base: nat, effective: nat, raw: nat, asked: nat)
    requires base > 0 && raw < effective && asked == Ceil(base * raw, effective - raw)
    ensures raw <= MulDiv(effective, asked, base + asked) < effective
  {
    var d: nat := base + asked;
    CeilIff(base * raw, effective - raw, asked);
    hide Ceil;
    FloorIff(effective * asked, d, raw);
    FloorIff(effective * asked, d, effective);
    Distribute(asked, effective, raw);
    Distribute(raw, base, asked);
    Distribute(effective, base, asked);
    MulStrict(0, effective, base);
  }

  /** The number of fees charged at all. */
  function Charged(t: Terms): nat {
    (if t.lp > 0 then 1 else 0) + (if t.protocol > 0 then 1 else 0) + (if t.creator > 0 then 1 else 0)
  }

  lemma FeeRounding(amount: nat, bps: nat)
    ensures Fee(amount, bps) * BPS <= amount * bps + (if bps > 0 then BPS - 1 else 0)
  {
    CeilIff(amount * bps, BPS, 0);
  }

  /** Each fee that is charged rounds up by less than one; a fee at rate zero is zero. */
  lemma FeesRounding(amount: nat, t: Terms)
    ensures TotalFees(amount, t) * BPS <= amount * t.Rate() + Charged(t) * (BPS - 1)
  {
    FeeRounding(amount, t.lp);
    FeeRounding(amount, t.protocol);
    FeeRounding(amount, t.creator);
    hide Fee;
    Distribute(amount, t.lp, t.protocol);
    Distribute(amount, t.lp + t.protocol, t.creator);
  }

  /** After its ceiled fees a raw quote leaves at least the asked quote, less one for each fee
      charged after the first. */
  lemma AskedLeft(quote: nat, t: Terms, out: nat)
    requires t.Rate() < BPS && Ceil(quote * BPS, BPS - t.Rate()) <= out
    ensures quote - Max(0, Charged(t) - 1) <= out - TotalFees(out, t)
  {
    hide TotalFees, Charged;
    CeilIff(quote * BPS, BPS - t.Rate(), out);
    FeesRounding(out, t);
    Distribute(out, BPS, t.Rate());
    LessThanCount(out - TotalFees(out, t), quote, Charged(t));
  }

  lemma LessThanCount(left: int, quote: nat, k: nat)
    requires left * BPS >= quote * BPS - k * (BPS - 1)
    ensures quote - Max(0, k - 1) <= left
  {
  }

  /** Fees at a rate below one are in range for any output. */
  lemma FeesOfOutput(out: nat, t: Terms)
    requires t.Valid() && t.Rate() < BPS && out < U64
    ensures ComputeFees(out, t) == Ok(TotalFees(out, t)) && TotalFees(out, t) <= U64
  {
    FeesBounds(out, t);
    FeeBelow(out, t.lp);
    FeeBelow(out, t.protocol);
    FeeBelow(out, t.creator);
    MulMono(t.Rate(), BPS - 1, out);
    hide Fee;
  }

  lemma FeeBelow(out: nat, bps: nat)
    requires bps < BPS
    ensures Fee(out, bps) <= out
  {
    MulMono(bps, BPS, out);
    CeilIff(out * bps, BPS, out);
  }

  lemma ZeroSold(t: Terms, raw: nat, asked: nat)
    requires t.Valid() && t.Rate() < BPS && raw < t.effective
    requires raw == Ceil(0, BPS - t.Rate()) && asked == Ceil(t.base * raw, t.effective - raw)
    ensures MulDiv(t.effective, asked, t.base + asked) == 0
  {
    CeilIff(0, BPS - t.Rate(), 0);
    assert raw == 0 && t.base * raw == 0;
    CeilIff(0, t.effective, 0);
    FloorIff(t.effective * asked, t.base + asked, 1);
  }

  /** Selling back what a quote asks for: the output covers the raw quote, the sale fails exactly
      when the fees exceed the output or the vault cannot pay it, and when it succeeds it yields
      the quote less at most one for each fee charged after the first. */
  lemma SellInverse(p: Pool, quote: int, slippage: int)
    requires SellQuote(p, quote, slippage).Ok?
    ensures var t := Checked(p, quote, slippage, p.quote).value;
      var asked := SellQuote(p, quote, slippage).value.base;
      var sold, out := SellBase(p, asked, slippage), MulDiv(t.effective, asked, t.base + asked);
      && (sold.Err? <==> TotalFees(out, t) > out || out - Fee(out, t.lp) > t.quote)
      && (sold.Ok? ==> sold.value.uiQuote == out - TotalFees(out, t) >= quote - Max(0, Charged(t) - 1))
      && (TotalFees(out, t) > out ==> quote == 1 && Charged(t) == 3)
      && (out - Fee(out, t.lp) > t.quote ==> p.virtualQuote > 0)
  {
    hide TotalFees, ComputeFees, MulDiv, Ceil, Fee;
    var t := Checked(p, quote, slippage, p.quote).value;
    var raw, asked := SellQuote(p, quote, slippage).value.internalRawQuote, SellQuote(p, quote, slippage).value.base;
    assert Checked(p, asked, slippage, U64) == Ok(t);
    var out := MulDiv(t.effective, asked, t.base + asked);
    RawCovered(t.base, t.effective, raw, asked);
    AskedLeft(quote, t, out);
    FeesOfOutput(out, t);
    if quote == 0 {
      ZeroSold(t, raw, asked);
      FeesBounds(0, t);
    }
  }

  /** The correction for `b` gives up two where one would do, and a smaller payment would already
      have kept that unit. */
  predicate Overshoots(b: nat, t: Terms) {
    var e := Estimate(b, t.Rate());
    e > 0 && e + TotalFees(e, t) == b + 2 && e - 1 + TotalFees(e - 1, t) < b
  }

  /** The payment of exactly an amount and its fees, one below an estimate, keeps that amount. */
  lemma SmallerKeeps(b: nat, t: Terms)
    requires Overshoots(b, t)
    ensures var e := Estimate(b, t.Rate());
      var a := e - 1 + TotalFees(e - 1, t);
      a < b && Reaching(a, t) == e - 1 && Reaching(b, t) == e - 2
  {
    hide TotalFees, Estimate;
    var e := Estimate(b, t.Rate());
    var a := e - 1 + TotalFees(e - 1, t);
    EstimateClose(a, t, e - 1);
    EstimateClose(b, t, Estimate(a, t.Rate()));
    var f := Estimate(a, t.Rate());
    if e <= f { FeesMonotone(e, f, t); }
  }

  /** A payment does at least as well as every smaller one exactly when it does not overshoot. */
  lemma ReachingIff(b: nat, t: Terms)
    ensures (forall a: nat | a <= b && 0 <= Reaching(a, t) :: Reaching(a, t) <= Reaching(b, t)) <==> !Overshoots(b, t)
  {
    if Overshoots(b, t) {
      SmallerKeeps(b, t);
    } else {
      forall a: nat | a <= b && 0 <= Reaching(a, t) ensures Reaching(a, t) <= Reaching(b, t) {
        ReachingRises(a, b, t);
      }
    }
  }

  lemma ReachingRises(a: nat, b: nat, t: Terms)
    requires a <= b && 0 <= Reaching(a, t) && !Overshoots(b, t)
    ensures Reaching(a, t) <= Reaching(b, t)
  {
    hide TotalFees, Estimate;
    var e, n := Estimate(b, t.Rate()), Reaching(a, t);
    ReachingFits(a, t, 0);
    EstimateClose(b, t, n);
    FeesBounds(0, t);
    if n == e - 1 && e + TotalFees(e, t) == b + 2 { assert a == b; }
  }

  /** A successful buy by quote amount, in terms of what reaches the pool. */
  lemma BuyQuoteIs(p: Pool, quote: int, slippage: int)
    requires Checked(p, quote, slippage, U64).Ok?
    ensures var t := Checked(p, quote, slippage, U64).value;
      && (BuyQuote(p, quote, slippage).Ok? ==>
          && t.Rate() <= U64 - BPS && 0 < Reaching(quote, t) == BuyQuote(p, quote, slippage).value.internalQuote
          && BuyQuote(p, quote, slippage).value.base
             == MulDiv(t.base, Reaching(quote, t) - 1, t.effective + (Reaching(quote, t) - 1)))
      && (t.Rate() <= U64 - BPS && 0 < Reaching(quote, t) ==> BuyQuote(p, quote, slippage).Ok?)
  {
    hide TotalFees, ComputeFees, Reaching;
    var t := Checked(p, quote, slippage, U64).value;
    if t.Rate() <= U64 - BPS { EstimateFees(quote, t); }
  }

  /** The fees of the estimate are in range for any u64 payment. */
  lemma EstimateFees(quote: nat, t: Terms)
    requires t.Valid() && quote <= U64
    ensures ComputeFees(Estimate(quote, t.Rate()), t) == Ok(TotalFees(Estimate(quote, t.Rate()), t))
  {
    var e := Estimate(quote, t.Rate());
    FloorIff(quote * BPS, BPS + t.Rate(), e);
    FeeOfEstimate(e, quote, t.lp, t.Rate());
    FeeOfEstimate(e, quote, t.protocol, t.Rate());
    FeeOfEstimate(e, quote, t.creator, t.Rate());
    hide Fee, Estimate;
  }

  lemma FeeOfEstimate(e: nat, quote: nat, bps: nat, rate: nat)
    requires bps <= rate && e * (BPS + rate) <= quote * BPS
    ensures Fee(e, bps) <= quote
  {
    Distribute(e, BPS, rate);
    MulMono(bps, rate, e);
    CeilIff(e * bps, BPS, quote);
  }

  /** For a successful buy: no smaller payment gets more of it onto the pool exactly when the
      payment does not overshoot. */
  lemma BuyMonotoneIff(p: Pool, b: int, slippage: int)
    requires BuyQuote(p, b, slippage).Ok?
    ensures (forall a: int | a <= b && BuyQuote(p, a, slippage).Ok? ::
               BuyQuote(p, a, slippage).value.internalQuote <= BuyQuote(p, b, slippage).value.internalQuote)
       <==> !Overshoots(b, Checked(p, b, slippage, U64).value)
  {
    hide BuyQuote, Reaching, Overshoots;
    BuyQuoteChecked(p, b, slippage);
    BuyQuoteIs(p, b, slippage);
    var t := Checked(p, b, slippage, U64).value;
    if Overshoots(b, t) {
      SmallerKeeps(b, t);
      var e := Estimate(b, t.Rate());
      var a := e - 1 + TotalFees(e - 1, t);
      assert Checked(p, a, slippage, U64) == Ok(t);
      BuyQuoteIs(p, a, slippage);
    } else {
      forall a: int | a <= b && BuyQuote(p, a, slippage).Ok?
        ensures BuyQuote(p, a, slippage).value.internalQuote <= BuyQuote(p, b, slippage).value.internalQuote
      {
        BuyQuoteChecked(p, a, slippage);
        BuyQuoteIs(p, a, slippage);
        ReachingRises(a, b, t);
      }
    }
  }

  lemma BuyQuoteChecked(p: Pool, quote: int, slippage: int)
    ensures BuyQuote(p, quote, slippage).Ok? ==> Checked(p, quote, slippage, U64).Ok?
  {
  }

  /** A larger payment that does not overshoot never buys less base. */
  lemma BuyMonotone(p: Pool, a: int, b: int, slippage: int)
    requires a <= b && BuyQuote(p, a, slippage).Ok? && BuyQuote(p, b, slippage).Ok?
    requires !Overshoots(b, Checked(p, b, slippage, U64).value)
    ensures BuyQuote(p, a, slippage).value.base <= BuyQuote(p, b, slippage).value.base
  {
    hide BuyQuote, Reaching, Overshoots, MulDiv;
    BuyQuoteChecked(p, a, slippage);
    BuyQuoteChecked(p, b, slippage);
    BuyQuoteIs(p, a, slippage);
    BuyQuoteIs(p, b, slippage);
    var t := Checked(p, b, slippage, U64).value;
    assert Checked(p, a, slippage, U64) == Ok(t);
    ReachingRises(a, b, t);
    BaseRises(t.base, t.effective, Reaching(a, t) - 1, Reaching(b, t) - 1);
  }

  lemma BaseRises(base: nat, effective: nat, x: nat, y: nat)
    requires effective > 0 && x <= y
    ensures MulDiv(base, x, effective + x) <= MulDiv(base, y, effective + y)
  {
    var out := MulDiv(base, x, effective + x);
    FloorIff(base * x, effective + x, out);
    FloorIff(base * x, effective + x, base + 1);
    TakenOut(out, effective, x, base);
    Distribute(base + 1, effective, x);
    assert (base + 1) * x == base * x + x && (base + 1) * effective > 0;
    MulMono(x, y, base - out);
    TakenOut(out, effective, y, base);
    FloorIff(base * y, effective + y, out);
  }

  const EVEN_FEES: Fees := Fees(1, 1, 1)
  const LARGE_POOL: Pool := Pool(1_000_000_000_000, 1_000_000_000, 0, EVEN_FEES)
  const SMALL_POOL: Pool := Pool(100, 100, 0, Fees(25, 5, 5))

  /** Paying more can buy less: the correction for three ceiled fees overshoots at 10005. */
  lemma BuyNotMonotone()
    ensures BuyQuote(LARGE_POOL, 10004, 0).Ok? && BuyQuote(LARGE_POOL, 10005, 0).Ok?
    ensures BuyQuote(LARGE_POOL, 10005, 0).value.base < BuyQuote(LARGE_POOL, 10004, 0).value.base
  {
    var t := Checked(LARGE_POOL, 10004, 0, U64).value;
    assert Checked(LARGE_POOL, 10005, 0, U64) == Ok(t);
    assert t == Terms(1_000_000_000_000, 1_000_000_000, 1_000_000_000, 1, 1, 1);
    assert Reaching(10004, t) == 10000;
    assert Reaching(10005, t) == 9999;
  }

  /** The bound of two is reached: a quote of 2 is asked 4 base, which sells for nothing. */
  lemma SellBackTight()
    ensures SellQuote(SMALL_POOL, 2, 0).Ok? && SellQuote(SMALL_POOL, 2, 0).value.base == 4
    ensures SellBase(SMALL_POOL, 4, 0).Ok? && SellBase(SMALL_POOL, 4, 0).value.uiQuote == 0
  {
    hide CeilU64, ComputeFee, ComputeFees, MulDiv, Fee;
    var t := Terms(100, 100, 100, 25, 5, 5);
    assert Checked(SMALL_POOL, 2, 0, 100) == Ok(t);
    assert Checked(SMALL_POOL, 4, 0, U64) == Ok(t);
    SmallAsked();
    SmallSold(t);
    hide Checked;
  }

  /** A quote of one can be impossible to sell back. */
  lemma SellBackFails()
    ensures SellQuote(SMALL_POOL, 1, 0).Ok? && SellQuote(SMALL_POOL, 1, 0).value.base == 3
    ensures SellBase(SMALL_POOL, 3, 0) == Err(FeesExceedOutput)
  {
    hide CeilU64, ComputeFee, ComputeFees, MulDiv, Fee;
    var t := Terms(100, 100, 100, 25, 5, 5);
    assert Checked(SMALL_POOL, 1, 0, 100) == Ok(t);
    assert Checked(SMALL_POOL, 3, 0, U64) == Ok(t);
    SmallAsked();
    SmallSold(t);
    hide Checked;
  }

  const OFFSET_POOL: Pool := Pool(1, 450, 550, Fees(0, 0, 0))

  /** The vault can be unable to pay for what a quote of 400 asks: one base sells for 500 of 450. */
  lemma SellBackUnpaid()
    ensures SellQuote(OFFSET_POOL, 400, 0).Ok? && SellQuote(OFFSET_POOL, 400, 0).value.base == 1
    ensures SellBase(OFFSET_POOL, 1, 0) == Err(InsufficientRealQuote)
  {
    hide CeilU64, ComputeFee, ComputeFees, MulDiv, Fee;
    var t := Terms(1, 450, 1000, 0, 0, 0);
    assert Checked(OFFSET_POOL, 400, 0, 450) == Ok(t);
    assert Checked(OFFSET_POOL, 1, 0, U64) == Ok(t);
    OffsetAmounts(t);
    hide Checked;
  }

  lemma OffsetAmounts(t: Terms)
    requires t == Terms(1, 450, 1000, 0, 0, 0)
    ensures CeilU64(400, BPS, BPS) == Ok(400) && ComputeFee(400, 0) == Ok(0) && CeilU64(1, 400, 600) == Ok(1)
    ensures MulDiv(1000, 1, 2) == 500 && ComputeFees(500, t) == Ok(0) && Fee(500, 0) == 0
  {
  }

  lemma SmallAsked()
    ensures CeilU64(2, BPS, 9965) == Ok(3) && CeilU64(1, BPS, 9965) == Ok(2)
    ensures ComputeFee(3, 25) == Ok(1) && ComputeFee(2, 25) == Ok(1)
    ensures CeilU64(100, 3, 97) == Ok(4) && CeilU64(100, 2, 98) == Ok(3)
  {
  }

  lemma SmallSold(t: Terms)
    requires t == Terms(100, 100, 100, 25, 5, 5)
    ensures MulDiv(100, 4, 104) == 3 && MulDiv(100, 3, 103) == 2
    ensures ComputeFees(2, t) == Ok(3) && ComputeFees(3, t) == Ok(3)
    ensures Fee(3, 25) == 1 && Fee(2, 25) == 1
  {
  }

  /** What every quote checks first. */
  predicate Quotable(p: Pool, amount: int, slippage: int) {
    && Word(amount) && Word(slippage) && 0 < p.base <= U64 && 0 < p.quote <= U64
    && 0 < p.quote + p.virtualQuote <= U64
    && Word(p.fees.lp) && Word(p.fees.protocol) && Word(p.fees.creator)
  }

  lemma CheckedIff(p: Pool, amount: int, slippage: int, cap: int)
    ensures Checked(p, amount, slippage, cap).Ok? <==> Quotable(p, amount, slippage) && amount <= cap
    ensures Quotable(p, amount, slippage) && amount <= cap ==>
        Checked(p, amount, slippage, cap) ==
        Ok(Terms(p.base, p.quote, p.quote + p.virtualQuote, p.fees.lp, p.fees.protocol, p.fees.creator))
  {
  }

  /** All three fees are words. */
  predicate FeesFit(amount: nat, t: Terms) {
    amount <= U64 && Fee(amount, t.lp) <= U64 && Fee(amount, t.protocol) <= U64 && Fee(amount, t.creator) <= U64
  }

  lemma FeesFitIff(amount: nat, t: Terms)
    requires t.Valid()
    ensures ComputeFees(amount, t).Ok? <==> FeesFit(amount, t)
    ensures ComputeFee(amount, t.lp).Ok? <==> amount <= U64 && Fee(amount, t.lp) <= U64
  {
    hide Fee;
  }

  /** A base amount can be bought exactly when the pool holds more of it and its cost is a word. */
  lemma BuyBaseAccepts(p: Pool, base: int, slippage: int)
    ensures BuyBase(p, base, slippage).Ok? <==>
      && Quotable(p, base, slippage) && base < p.base
      && var t := Terms(p.base, p.quote, p.quote + p.virtualQuote, p.fees.lp, p.fees.protocol, p.fees.creator);
      && var raw := Ceil(t.effective * base, t.base - base);
      && FeesFit(raw, t) && raw + TotalFees(raw, t) <= U64
  {
    hide Checked, ComputeFees, Fee, Ceil, TotalFees;
    CheckedIff(p, base, slippage, U64);
    if Quotable(p, base, slippage) && base < p.base && base <= U64 {
      var t := Checked(p, base, slippage, U64).value;
      var raw := Ceil(t.effective * base, t.base - base);
      FeesFitIff(raw, t);
      FeesAre(raw, t);
    }
  }

  /** A payment is answered exactly when the inputs are accepted, the fee rates fit and something reaches the
      pool; the fees on the estimate always fit. */
  lemma BuyQuoteAccepts(p: Pool, quote: int, slippage: int)
    ensures BuyQuote(p, quote, slippage).Ok? <==>
      && Quotable(p, quote, slippage)
      && var t := Terms(p.base, p.quote, p.quote + p.virtualQuote, p.fees.lp, p.fees.protocol, p.fees.creator);
      && BPS + t.Rate() <= U64 && 0 < Reaching(quote, t)
  {
    hide TotalFees, Fee, ComputeFees, Reaching, Checked, FeesFit, Quotable;
    CheckedIff(p, quote, slippage, U64);
    if Quotable(p, quote, slippage) {
      QuotableBounds(p, quote, slippage);
      var t := Terms(p.base, p.quote, p.quote + p.virtualQuote, p.fees.lp, p.fees.protocol, p.fees.creator);
      CheckedIs(p, quote, slippage, U64);
      EstimateFits(quote, t);
      FeesFitIff(Estimate(quote, t.Rate()), t);
    }
  }

  lemma QuotableBounds(p: Pool, amount: int, slippage: int)
    requires Quotable(p, amount, slippage)
    ensures 0 <= amount <= U64 && 0 <= slippage
  {
  }

  lemma EstimateFits(quote: nat, t: Terms)
    requires quote <= U64
    ensures FeesFit(Estimate(quote, t.Rate()), t)
  {
    var e := Estimate(quote, t.Rate());
    hide Fee, Estimate;
    FeeFits(quote, t.Rate(), t.lp);
    FeeFits(quote, t.Rate(), t.protocol);
    FeeFits(quote, t.Rate(), t.creator);
  }

  /** A fee on the estimate is no more than the payment. */
  lemma FeeFits(quote: nat, rate: nat, bps: nat)
    requires bps <= rate
    ensures Estimate(quote, rate) <= quote && Fee(Estimate(quote, rate), bps) <= quote
  {
    hide Ceil;
    var e := Estimate(quote, rate);
    FloorIff(quote * BPS, BPS + rate, e);
    MulMono(bps, rate, e);
    CeilIff(e * bps, BPS, quote);
    Distribute(e, BPS, rate);
    MulCancel(e, quote, BPS);
  }

  /** A base amount can be sold exactly when the fees leave something of its output or use it up, and the
      vault holds the output less the fee that stays in the pool. */
  lemma SellBaseAccepts(p: Pool, base: int, slippage: int)
    ensures SellBase(p, base, slippage).Ok? <==>
      && Quotable(p, base, slippage)
      && var t := Terms(p.base, p.quote, p.quote + p.virtualQuote, p.fees.lp, p.fees.protocol, p.fees.creator);
      && var out := MulDiv(t.effective, base, t.base + base);
      && TotalFees(out, t) <= out && out - Fee(out, t.lp) <= t.quote
  {
    hide Checked, ComputeFees, Fee, MulDiv;
    CheckedIff(p, base, slippage, U64);
    if Quotable(p, base, slippage) {
      var t := Checked(p, base, slippage, U64).value;
      var out := MulDiv(t.effective, base, t.base + base);
      OutputIsWord(t, base);
      FeesFitIff(out, t);
      FeesAre(out, t);
    }
  }

  lemma OutputIsWord(t: Terms, base: nat)
    requires t.Valid()
    ensures MulDiv(t.effective, base, t.base + base) <= t.effective
  {
    FloorIff(t.effective * base, t.base + base, t.effective + 1);
    Distribute(t.effective, t.base, base);
    assert (t.effective + 1) * (t.base + base) == t.effective * (t.base + base) + t.base + base;
  }

  /** A quote amount can be raised exactly when it is within the vault, the fees leave something, the vault
      holds the raw quote less the fee that stays in the pool, and the base to sell is a word. */
  lemma SellQuoteAccepts(p: Pool, quote: int, slippage: int)
    ensures SellQuote(p, quote, slippage).Ok? <==>
      && Quotable(p, quote, slippage) && quote <= p.quote
      && var t := Terms(p.base, p.quote, p.quote + p.virtualQuote, p.fees.lp, p.fees.protocol, p.fees.creator);
      && t.Rate() < BPS
      && var raw := Ceil(quote * BPS, BPS - t.Rate());
      && raw < t.effective && raw - Fee(raw, t.lp) <= t.quote
      && Ceil(t.base * raw, t.effective - raw) <= U64
  {
    hide Checked, Fee, Ceil;
    CheckedIff(p, quote, slippage, p.quote);
    if Quotable(p, quote, slippage) && quote <= p.quote {
      var t := Checked(p, quote, slippage, p.quote).value;
      if t.Rate() < BPS {
        var raw := Ceil(quote * BPS, BPS - t.Rate());
        FeesFitIff(raw, t);
        FeeBelow(raw, t.lp);
      }
    }
  }
}
