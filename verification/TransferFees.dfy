/** Token-2022 transfer fees: the fee withheld from a gross amount and its inverse. */
module TransferFees {
  import opened Arith
  import opened Outcomes

  const BPS: nat := 10_000

  /** What the transfer fee and the LaunchLab quote throw. */
  datatype Fault =
    OutsideUnsigned | InvalidTransferFee | ZeroAmount | UnsupportedCurve | ReserveUnderflow | FeeAboveDenominator
  | BadSlippage | EmptyReserves | SoldAboveCap | GraduationExhausts

  datatype TransferFee = TransferFee(basisPoints: int, maximumFee: int) {
    predicate Valid() { 0 <= basisPoints <= BPS && 0 <= maximumFee <= U64 }
  }

  function Unsigned(value: int, max: nat): (r: Result<nat, Fault>)
    ensures r.Ok? ==> r.value == value <= max
  {
    if 0 <= value <= max then Ok(value) else Err(OutsideUnsigned)
  }

  /** The fee withheld from a gross transfer. */
  function Withheld(gross: nat, f: TransferFee): (fee: nat)
    requires f.Valid()
    ensures fee <= gross
  {
    if f.basisPoints == 0 || gross == 0 then 0
    else
      MulMono(f.basisPoints, BPS, gross);
      CeilIff(gross * f.basisPoints, BPS, gross);
      Min(Ceil(gross * f.basisPoints, BPS), f.maximumFee)
  }

  /** The fee to add to a net amount so that it arrives in full. */
  function Added(net: nat, f: TransferFee): nat
    requires f.Valid()
  {
    if f.basisPoints == 0 || net == 0 then 0
    else if f.basisPoints == BPS then f.maximumFee
    else Min(Ceil(net * f.basisPoints, BPS - f.basisPoints), f.maximumFee)
  }

  function Arrives(gross: nat, f: TransferFee): nat
    requires f.Valid()
  {
    gross - Withheld(gross, f)
  }

  function Grossed(net: nat, f: TransferFee): nat
    requires f.Valid()
  {
    net + Added(net, f)
  }

  function TokenTransferFee(amount: int, f: TransferFee, inverse: bool): (r: Result<nat, Fault>)
    ensures r.Ok? <==> 0 <= amount <= U64 && f.Valid()
    ensures r.Ok? ==> r.value == if inverse then Added(amount, f) else Withheld(amount, f)
  {
    if !(0 <= amount <= U64) || !(0 <= f.maximumFee <= U64) then Err(OutsideUnsigned)
    else if !(0 <= f.basisPoints <= BPS) then Err(InvalidTransferFee)
    else Ok(if inverse then Added(amount, f) else Withheld(amount, f))
  }

  /** The forward fee is the least, up to its maximum, that carries its rate on the gross amount. */
  lemma WithheldIff(gross: nat, f: TransferFee, fee: nat)
    requires f.Valid()
    ensures Withheld(gross, f) <= fee <==> f.maximumFee <= fee || gross * f.basisPoints <= fee * BPS
  {
    CeilIff(gross * f.basisPoints, BPS, fee);
    if f.basisPoints == 0 || gross == 0 { assert gross * f.basisPoints == 0; }
  }

  lemma ArrivesMonotone(a: nat, b: nat, f: TransferFee)
    requires f.Valid() && a <= b
    ensures Arrives(a, f) <= Arrives(b, f)
  {
    if a > 0 && f.basisPoints > 0 {
      var fee := Ceil(a * f.basisPoints, BPS);
      CeilIff(a * f.basisPoints, BPS, fee);
      assert b * f.basisPoints == a * f.basisPoints + (b - a) * f.basisPoints;
      MulMono(f.basisPoints, BPS, b - a);
      CeilIff(b * f.basisPoints, BPS, fee + (b - a));
    }
  }

  /** The uncapped inverse fee is what the forward fee withholds from the grossed-up amount. */
  lemma UncappedRoundTrip(net: nat, r: nat)
    requires 0 < r < BPS && net > 0
    ensures var i := Ceil(net * r, BPS - r); Ceil((net + i) * r, BPS) == i
  {
    var asked: nat := net * r;
    var i := Ceil(asked, BPS - r);
    var gross: nat := (net + i) * r;
    CeilIff(asked, BPS - r, i);
    CeilIff(asked, BPS - r, i - 1);
    CeilIff(gross, BPS, i);
    CeilIff(gross, BPS, i - 1);
    hide Ceil;
    Distribute(i, BPS, r);
    Distribute(r, net, i);
    assert (i - 1) * BPS == i * BPS - BPS;
  }

  /** Below the uncapped inverse fee, the forward fee of the sum is larger still. */
  lemma CappedRoundTrip(net: nat, r: nat, m: nat)
    requires 0 < r < BPS && m < Ceil(net * r, BPS - r)
    ensures m < Ceil((net + m) * r, BPS)
  {
    var asked, gross: nat := net * r, (net + m) * r;
    CeilIff(asked, BPS - r, m);
    CeilIff(gross, BPS, m);
    hide Ceil;
    Distribute(m, BPS, r);
    Distribute(r, net, m);
  }

  /** A grossed-up amount arrives as exactly the net amount. */
  lemma GrossedArrives(net: nat, f: TransferFee)
    requires f.Valid()
    ensures Arrives(Grossed(net, f), f) == net
  {
    hide Ceil;
    var r := f.basisPoints;
    if net > 0 && r > 0 {
      if r == BPS {
        var gross := Grossed(net, f);
        CeilIff(gross * BPS, BPS, gross - 1);
        CeilIff(gross * BPS, BPS, gross);
      } else if Ceil(net * r, BPS - r) <= f.maximumFee {
        UncappedRoundTrip(net, r);
      } else {
        CappedRoundTrip(net, r, f.maximumFee);
      }
    }
  }

  /** One token less than the grossed-up amount arrives as less than the net amount. */
  lemma GrossedIsLeast(net: nat, f: TransferFee)
    requires f.Valid() && net > 0
    ensures Arrives(Grossed(net, f) - 1, f) < net
  {
    hide Ceil;
    var r, i := f.basisPoints, Added(net, f);
    if r > 0 && i > 0 {
      var gross := net + i - 1;
      if r == BPS {
        CeilIff(gross * BPS, BPS, gross - 1);
      } else {
        CappedRoundTrip(net, r, i - 1);
        assert i <= Ceil(gross * r, BPS);
      }
    }
  }

  /** The inverse fee gives the least gross amount that covers a net amount. */
  lemma GrossedIff(net: nat, gross: nat, f: TransferFee)
    requires f.Valid()
    ensures net <= Arrives(gross, f) <==> Grossed(net, f) <= gross
  {
    hide Arrives, Grossed;
    GrossedArrives(net, f);
    if Grossed(net, f) <= gross {
      ArrivesMonotone(Grossed(net, f), gross, f);
    } else if net > 0 {
      GrossedIsLeast(net, f);
      ArrivesMonotone(gross, Grossed(net, f) - 1, f);
    } else {
      GrossedNothing(f);
    }
  }

  lemma GrossedNothing(f: TransferFee)
    requires f.Valid()
    ensures Grossed(0, f) == 0
  {
  }
}
