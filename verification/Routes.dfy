/** Multi-hop Pump routes: validation of decoded hops and the accounts derived from them. */
module Routes {
  import opened Outcomes

  /** Public keys: the ones the source names, and all others. */
  datatype Address = Default | NativeSol | Wsol | Usdc | TokenProgram | Token2022 | Other(id: nat)

  /** Program-derived addresses, as uninterpreted functions of their seeds. */
  datatype Derivations = Derivations(
    curve: Address -> Address, ata: (Address, Address, Address) -> Address, authority: Address -> Address,
    pool: (Address, Address, Address) -> Address, quoteControl: Address)

  datatype Venue = Curve | Pool

  datatype Hop = Hop(
    venue: Venue, baseMint: Address, quoteMint: Address, address: Address, baseVault: Address, quoteVault: Address,
    baseTokenProgram: Address, quoteTokenProgram: Address, mayhem: bool, cashback: bool, complete: bool,
    index: Option<int>, creator: Option<Address>)

  datatype Meta = Meta(key: Address, isWritable: bool, isSigner: bool)

  datatype Route = Route(userIn: Address, userOut: Address, buyback: Address, remaining: seq<Meta>)

  datatype Fault = Refused

  predicate IsSol(mint: Address) { mint.Default? || mint.NativeSol? || mint.Wsol? }

  function NormalizeQuote(mint: Address): Address { if mint.Default? || mint.NativeSol? then Wsol else mint }

  function NormalizeHop(h: Hop): Hop {
    var quote := NormalizeQuote(h.quoteMint);
    h.(quoteMint := quote, quoteTokenProgram := if quote.Wsol? then TokenProgram else h.quoteTokenProgram)
  }

  function Normalized(hops: seq<Hop>): (r: seq<Hop>)
    ensures |r| == |hops| && forall i | 0 <= i < |hops| :: r[i] == NormalizeHop(hops[i])
  {
    seq(|hops|, i requires 0 <= i < |hops| => NormalizeHop(hops[i]))
  }

  /** The mint a hop takes and the mint it gives. */
  function From(h: Hop, buy: bool): Address { if buy then h.quoteMint else h.baseMint }

  function To(h: Hop, buy: bool): Address { if buy then h.baseMint else h.quoteMint }

  predicate VenueKindOk(h: Hop) { !h.mayhem && h.baseMint != h.quoteMint }

  predicate VenueOk(d: Derivations, h: Hop) {
    && VenueKindOk(h)
    && match h.venue
       case Curve =>
         var curve := d.curve(h.baseMint);
         && !h.complete && curve == h.address
         && d.ata(curve, h.baseMint, h.baseTokenProgram) == h.baseVault
         && d.ata(curve, h.quoteMint, h.quoteTokenProgram) == h.quoteVault
       case Pool =>
         var authority := d.authority(h.baseMint);
         h.index == Some(0) && h.creator == Some(authority) && d.pool(authority, h.baseMint, h.quoteMint) == h.address
  }

  /** One continuous chain of hops in one direction, with cashback only at its currency end. */
  ghost predicate Chain(d: Derivations, hops: seq<Hop>, buy: bool, input: Address, output: Address) {
    && |hops| > 0
    && (forall i | 0 <= i < |hops| :: VenueOk(d, hops[i]))
    && From(hops[0], buy) == input && To(hops[|hops| - 1], buy) == output
    && (forall i | 0 < i < |hops| :: From(hops[i], buy) == To(hops[i - 1], buy))
    && (forall i | 0 <= i < |hops| && hops[i].cashback :: i == if buy then 0 else |hops| - 1)
  }

  /** What a route must be, whatever the order in which it is checked. */
  ghost predicate Accepted(d: Derivations, input: Address, output: Address, hops: seq<Hop>, useV0WithAlt: bool) {
    && (|hops| < 4 || useV0WithAlt)
    && exists buy :: Chain(d, Normalized(hops), buy, NormalizeQuote(input), NormalizeQuote(output))
  }

  function HopMetas(h: Hop): seq<Meta> {
    [Meta(h.baseMint, false, false), Meta(h.quoteMint, false, false),
     Meta(h.address, true, false), Meta(h.baseVault, true, false), Meta(h.quoteVault, true, false)]
  }

  function Metas(hops: seq<Hop>): seq<Meta> {
    if hops == [] then [] else Metas(hops[..|hops| - 1]) + HopMetas(hops[|hops| - 1])
  }

  /** The user's token accounts at both ends under the programs of those ends, and the buyback
      account at the currency end. */
  function RouteAt(d: Derivations, user: Address, from: Address, to: Address, buyback: Address, buy: bool,
      first: Hop, last: Hop, remaining: seq<Meta>): Route
  {
    var currency := if buy then first else last;
    Route(d.ata(user, from, if buy then first.quoteTokenProgram else first.baseTokenProgram),
          d.ata(user, to, if buy then last.baseTokenProgram else last.quoteTokenProgram),
          d.ata(buyback, currency.quoteMint, currency.quoteTokenProgram), remaining)
  }

  /** The accounts of an accepted route. */
  function RouteOf(d: Derivations, user: Address, input: Address, output: Address, buyback: Address,
        hops: seq<Hop>): Route
    requires |hops| > 0
  {
    var normal := Normalized(hops);
    RouteAt(d, user, NormalizeQuote(input), NormalizeQuote(output), buyback,
            NormalizeQuote(input) == normal[0].quoteMint, normal[0], normal[|hops| - 1], Metas(normal))
  }

  /** The state of the validation loop after some hops: they form a chain up to the current mint. */
  ghost predicate Prefix(d: Derivations, hops: seq<Hop>, n: nat, buy: bool, input: Address, current: Address)
    requires n <= |hops|
  {
    && (forall i | 0 <= i < n :: VenueOk(d, hops[i]))
    && (n == 0 ==> current == input)
    && (n > 0 ==> From(hops[0], buy) == input && To(hops[n - 1], buy) == current)
    && (forall i | 0 < i < n :: From(hops[i], buy) == To(hops[i - 1], buy))
    && (forall i | 0 <= i < n && hops[i].cashback :: i == if buy then 0 else |hops| - 1)
  }

  /** A route that is a chain passes the checks of the next hop. */
  lemma ChainAt(d: Derivations, hops: seq<Hop>, buy: bool, from: Address, to: Address, i: nat, side: Option<bool>,
        current: Address)
    requires Chain(d, hops, buy, from, to) && i < |hops|
    requires if i == 0 then current == from else side == Some(buy) && Prefix(d, hops, i, buy, from, current)
    ensures VenueOk(d, hops[i]) && (current == hops[i].quoteMint <==> buy) && current == From(hops[i], buy)
    ensures hops[i].cashback ==> i == if buy then 0 else |hops| - 1
  {
    assert VenueOk(d, hops[i]);
  }

  lemma PrefixStep(d: Derivations, hops: seq<Hop>, i: nat, buy: bool, from: Address, current: Address)
    requires i < |hops| && VenueOk(d, hops[i]) && current == From(hops[i], buy)
    requires if i == 0 then current == from else Prefix(d, hops, i, buy, from, current)
    requires hops[i].cashback ==> i == if buy then 0 else |hops| - 1
    ensures Prefix(d, hops, i + 1, buy, from, To(hops[i], buy))
  {
    hide VenueOk;
  }

  lemma PrefixWhole(d: Derivations, hops: seq<Hop>, buy: bool, from: Address, to: Address, current: Address)
    requires |hops| > 0 && Prefix(d, hops, |hops|, buy, from, current)
    ensures Chain(d, hops, buy, from, to) <==> current == to
  {
    hide VenueOk;
  }

  lemma MetasStep(hops: seq<Hop>, i: nat)
    requires i < |hops|
    ensures Metas(hops[..i + 1]) == Metas(hops[..i]) + HopMetas(hops[i])
  {
    assert hops[..i + 1][..i] == hops[..i];
  }

  /** The loop over normalised hops: it fails when they are no chain from `from` to `to`, and
      otherwise leaves the direction, the last mint and the metas. */
  method WalkHops(d: Derivations, hops: seq<Hop>, from: Address, to: Address)
    returns (ok: bool, side: bool, current: Address, remaining: seq<Meta>)
    requires |hops| > 0
    ensures !ok ==> forall buy :: !Chain(d, hops, buy, from, to)
    ensures ok ==> Prefix(d, hops, |hops|, side, from, current) && remaining == Metas(hops)
    ensures ok ==> forall buy | Chain(d, hops, buy, from, to) :: buy == side
  {
    hide Chain, Prefix, VenueOk, HopMetas, Metas;
    current, side, remaining := from, true, [];
    assert Metas(hops[..0]) == [] by { NoMetas(hops[..0]); }
    for i := 0 to |hops|
      invariant if i == 0 then current == from else Prefix(d, hops, i, side, from, current)
      invariant remaining == Metas(hops[..i])
      invariant forall buy | Chain(d, hops, buy, from, to) :: side == buy || i == 0
    {
      var h := hops[i];
      forall buy | Chain(d, hops, buy, from, to)
        ensures VenueOk(d, h) && (current == h.quoteMint <==> buy) && current == From(h, buy)
        ensures h.cashback ==> i == if buy then 0 else |hops| - 1
      {
        ChainAt(d, hops, buy, from, to, i, if i == 0 then None else Some(side), current);
      }
      VenueNeedsKind(d, h);
      if h.mayhem || h.baseMint == h.quoteMint { return false, side, current, remaining; }
      var buy := current == h.quoteMint;
      if !buy && current != h.baseMint { return false, side, current, remaining; }
      if i > 0 && side != buy { return false, side, current, remaining; }
      side := buy;
      if h.cashback && i != (if buy then 0 else |hops| - 1) { return false, side, current, remaining; }
      if !VenueOk(d, h) { return false, side, current, remaining; }
      MetasStep(hops, i);
      remaining := remaining + HopMetas(h);
      PrefixStep(d, hops, i, buy, from, current);
      current := if buy then h.baseMint else h.quoteMint;
    }
    assert hops[..|hops|] == hops;
    return true, side, current, remaining;
  }

  lemma NoMetas(hops: seq<Hop>)
    requires |hops| == 0
    ensures Metas(hops) == []
  {
  }

  lemma PrefixSide(d: Derivations, hops: seq<Hop>, buy: bool, from: Address, current: Address)
    requires |hops| > 0 && Prefix(d, hops, |hops|, buy, from, current)
    ensures buy == (from == hops[0].quoteMint)
  {
    assert VenueOk(d, hops[0]);
  }

  /** The validation and derivation accept exactly the routes that are one continuous all-buy or
      all-sell chain, and derive their accounts. */
  method DeriveMultiHop(d: Derivations, user: Address, input: Address, output: Address, buyback: Address,
      hops: seq<Hop>, useV0WithAlt: bool) returns (r: Result<Route, Fault>)
    ensures r.Ok? <==> Accepted(d, input, output, hops, useV0WithAlt)
    ensures r.Ok? ==> |hops| > 0 && r.value == RouteOf(d, user, input, output, buyback, hops)
  {
    hide Chain, Prefix, Metas, Normalized, NormalizeQuote, RouteAt, NormalizeHop, RouteOf, Accepted;
    if |hops| == 0 || (|hops| >= 4 && !useV0WithAlt) {
      AcceptedNeeds(d, input, output, hops, useV0WithAlt);
      return Err(Refused);
    }
    var from, to, normal := NormalizeQuote(input), NormalizeQuote(output), Normalized(hops);
    var ok, side, current, remaining := WalkHops(d, normal, from, to);
    AcceptedBy(d, input, output, hops, useV0WithAlt, side);
    if !ok { return Err(Refused); }
    PrefixWhole(d, normal, side, from, to, current);
    if current != to { return Err(Refused); }
    PrefixSide(d, normal, side, from, current);
    RouteSplit(d, user, input, output, buyback, hops);
    return Ok(RouteAt(d, user, from, to, buyback, side, normal[0], normal[|normal| - 1], remaining));
  }

  lemma AcceptedNeeds(d: Derivations, input: Address, output: Address, hops: seq<Hop>, useV0WithAlt: bool)
    ensures Accepted(d, input, output, hops, useV0WithAlt) ==> |hops| > 0 && (|hops| < 4 || useV0WithAlt)
  {
    if |hops| == 0 { EmptyIsNoChain(d, Normalized(hops), NormalizeQuote(input), NormalizeQuote(output)); }
  }

  lemma AcceptedBy(d: Derivations, input: Address, output: Address, hops: seq<Hop>, useV0WithAlt: bool, side: bool)
    requires |hops| < 4 || useV0WithAlt
    requires forall buy | Chain(d, Normalized(hops), buy, NormalizeQuote(input), NormalizeQuote(output)) :: buy == side
    ensures Accepted(d, input, output, hops, useV0WithAlt)
       <==> Chain(d, Normalized(hops), side, NormalizeQuote(input), NormalizeQuote(output))
  {
  }

  lemma RouteSplit(d: Derivations, user: Address, input: Address, output: Address, buyback: Address, hops: seq<Hop>)
    requires |hops| > 0
    ensures RouteOf(d, user, input, output, buyback, hops)
         == RouteAt(d, user, NormalizeQuote(input), NormalizeQuote(output), buyback,
                    NormalizeQuote(input) == Normalized(hops)[0].quoteMint,
                    Normalized(hops)[0], Normalized(hops)[|hops| - 1], Metas(Normalized(hops)))
  {
  }

  lemma VenueNeedsKind(d: Derivations, h: Hop)
    ensures VenueOk(d, h) ==> VenueKindOk(h)
  {
  }

  lemma EmptyIsNoChain(d: Derivations, hops: seq<Hop>, from: Address, to: Address)
    requires |hops| == 0
    ensures forall buy :: !Chain(d, hops, buy, from, to)
  {
  }

  function Reversed(hops: seq<Hop>): (r: seq<Hop>)
    ensures |r| == |hops| && forall i | 0 <= i < |hops| :: r[i] == hops[|hops| - 1 - i]
  {
    seq(|hops|, i requires 0 <= i < |hops| => hops[|hops| - 1 - i])
  }

  /** Read backwards, a buy chain is a sell chain between the swapped endpoints and vice versa. */
  lemma ReversedChain(d: Derivations, hops: seq<Hop>, buy: bool, from: Address, to: Address)
    requires Chain(d, hops, buy, from, to)
    ensures Chain(d, Reversed(hops), !buy, to, from)
  {
    hide VenueOk;
    var back, n := Reversed(hops), |hops|;
    forall i | 0 < i < n ensures From(back[i], !buy) == To(back[i - 1], !buy) {
      assert From(hops[n - i], buy) == To(hops[n - 1 - i], buy);
    }
    forall i | 0 <= i < n && back[i].cashback ensures i == if !buy then 0 else n - 1 {
      assert hops[n - 1 - i].cashback;
    }
  }

  lemma NormalizedReversed(hops: seq<Hop>)
    ensures Normalized(Reversed(hops)) == Reversed(Normalized(hops))
    ensures Reversed(Reversed(hops)) == hops
  {
  }

  /** Acceptance is invariant under reversing the hops and swapping the endpoints. */
  lemma AcceptedReversed(d: Derivations, input: Address, output: Address, hops: seq<Hop>, useV0WithAlt: bool)
    ensures Accepted(d, input, output, hops, useV0WithAlt) <==> Accepted(d, output, input, Reversed(hops), useV0WithAlt)
  {
    hide Chain, NormalizeQuote;
    var from, to, normal := NormalizeQuote(input), NormalizeQuote(output), Normalized(hops);
    NormalizedReversed(hops);
    NormalizedReversed(normal);
    forall buy | Chain(d, normal, buy, from, to) ensures Chain(d, Reversed(normal), !buy, to, from) {
      ReversedChain(d, normal, buy, from, to);
    }
    forall buy | Chain(d, Reversed(normal), buy, to, from) ensures Chain(d, normal, !buy, from, to) {
      ReversedChain(d, Reversed(normal), buy, to, from);
    }
  }

  /** The checks that the swap builder makes of its remaining accounts. */
  predicate SwapMetasOk(remaining: seq<Meta>) {
    && |remaining| >= 5 && |remaining| % 5 == 0
    && forall i | 0 <= i < |remaining| :: !remaining[i].isSigner && (remaining[i].isWritable <==> i % 5 >= 2)
  }

  /** The derived metas of any hops pass the builder's checks: five per hop, the mints read-only
      and the venue and its vaults writable. */
  lemma {:induction false} MetasPass(hops: seq<Hop>)
    ensures |Metas(hops)| == 5 * |hops|
    ensures forall i | 0 <= i < |Metas(hops)| :: !Metas(hops)[i].isSigner && (Metas(hops)[i].isWritable <==> i % 5 >= 2)
    ensures |hops| > 0 ==> SwapMetasOk(Metas(hops))
  {
    if |hops| == 0 {
    } else {
      MetasPass(hops[..|hops| - 1]);
    }
  }

  /** The metas of hop `i` name its mints, then its venue and its two vaults. */
  lemma {:induction false} MetasOrder(hops: seq<Hop>, i: nat)
    requires i < |hops|
    ensures |Metas(hops)| == 5 * |hops|
    ensures var m := Metas(hops)[5 * i..5 * i + 5];
      && m[0].key == hops[i].baseMint && m[1].key == hops[i].quoteMint
      && m[2].key == hops[i].address && m[3].key == hops[i].baseVault && m[4].key == hops[i].quoteVault
  {
    var n := |hops| - 1;
    MetasPass(hops);
    MetasPass(hops[..n]);
    if i < n {
      MetasOrder(hops[..n], i);
      assert Metas(hops)[5 * i..5 * i + 5] == Metas(hops[..n])[5 * i..5 * i + 5];
    } else {
      assert Metas(hops)[5 * i..5 * i + 5] == HopMetas(hops[i]);
    }
  }

  /** The token programs on the side where a hop takes and on the side where it gives. */
  function FromProgram(h: Hop, buy: bool): Address { if buy then h.quoteTokenProgram else h.baseTokenProgram }

  function ToProgram(h: Hop, buy: bool): Address { if buy then h.baseTokenProgram else h.quoteTokenProgram }

  /** The user's accounts of an accepted route are those of what its first hop takes and of what its last
      hop gives, each under the token program of that side; the buyback account is that of the currency,
      which a buy spends first and a sale receives last. */
  lemma RouteEnds(d: Derivations, user: Address, input: Address, output: Address, buyback: Address, hops: seq<Hop>,
      buy: bool)
    requires |hops| > 0 && Chain(d, Normalized(hops), buy, NormalizeQuote(input), NormalizeQuote(output))
    ensures var r, first, last := RouteOf(d, user, input, output, buyback, hops), NormalizeHop(hops[0]),
        NormalizeHop(hops[|hops| - 1]);
      && r.userIn == d.ata(user, From(first, buy), FromProgram(first, buy))
      && r.userOut == d.ata(user, To(last, buy), ToProgram(last, buy))
      && r.buyback == (if buy then d.ata(buyback, From(first, buy), FromProgram(first, buy))
                       else d.ata(buyback, To(last, buy), ToProgram(last, buy)))
  {
    hide Metas, NormalizeHop;
    assert VenueOk(d, Normalized(hops)[0]);
  }

  /** Which hops are canonical, as they are given: not in mayhem, between two mints (aliases of SOL counting
      as one, under the token program), and at the derived addresses of their curve, or of the first pool
      that the migration authority of the base mint created. */
  lemma VenueIff(d: Derivations, h: Hop)
    ensures var sol := h.quoteMint.Default? || h.quoteMint.NativeSol? || h.quoteMint.Wsol?;
      var quote, program := if sol then Wsol else h.quoteMint, if sol then TokenProgram else h.quoteTokenProgram;
      VenueOk(d, NormalizeHop(h)) <==>
        && !h.mayhem && h.baseMint != quote
        && (h.venue.Curve? ==>
          && !h.complete && h.address == d.curve(h.baseMint)
          && h.baseVault == d.ata(h.address, h.baseMint, h.baseTokenProgram)
          && h.quoteVault == d.ata(h.address, quote, program))
        && (h.venue.Pool? ==>
          && h.index == Some(0) && h.creator == Some(d.authority(h.baseMint))
          && h.address == d.pool(d.authority(h.baseMint), h.baseMint, quote))
  {
    assert h.venue.Curve? || h.venue.Pool?;
  }
}
