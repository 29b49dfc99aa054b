/** The accounts for creating a coin quoted in another coin: the quote, then its ancestors. */
module QuoteCreation {
  import opened Outcomes
  import opened Routes

  /** A hop as one link of a quote chain; only the first link may refuse for mayhem. */
  function Link(hops: seq<Hop>, i: nat): Hop
    requires i < |hops|
  {
    hops[i].(mayhem := i == 0 && hops[i].mayhem)
  }

  function Links(quote: Hop, chain: seq<Hop>): (r: seq<Hop>)
    ensures |r| == |chain| + 1
  {
    Normalized([quote] + chain)
  }

  function Supported(listed: seq<Address>): (r: seq<Address>)
    ensures |r| == |listed| + 2 && r[0] == Wsol && r[1] == Usdc
    ensures forall i | 0 <= i < |listed| :: r[i + 2] == NormalizeQuote(listed[i])
  {
    [Wsol, Usdc] + seq(|listed|, i requires 0 <= i < |listed| => NormalizeQuote(listed[i]))
  }

  /** One link: its venue is canonical and its base is no alias of SOL. */
  ghost predicate LinkOk(d: Derivations, hops: seq<Hop>, i: nat)
    requires i < |hops|
  {
    VenueOk(d, Link(hops, i)) && NormalizeQuote(hops[i].baseMint) == hops[i].baseMint
  }

  predicate Joined(h: Hop, next: Hop) {
    h.quoteMint == next.baseMint && h.quoteTokenProgram == next.baseTokenProgram
  }

  /** The first `n` links are canonical, joined, and visit no mint twice, the new one included. */
  ghost predicate ChainOk(d: Derivations, newMint: Address, hops: seq<Hop>, n: nat)
    requires n <= |hops|
  {
    && (forall i | 0 <= i < n :: LinkOk(d, hops, i))
    && (forall i | 0 <= i < n :: hops[i].baseMint != newMint)
    && (forall i, j | 0 <= i < j < n :: hops[i].baseMint != hops[j].baseMint)
    && (forall i | 0 < i < n :: Joined(hops[i - 1], hops[i]))
  }

  ghost predicate Accepted(d: Derivations, newMint: Address, quote: Hop, depth: int, maxDepth: int,
      listed: seq<Address>, chain: seq<Hop>)
  {
    && 0 <= depth < maxDepth && depth < 5 && |chain| == depth
    && Links(quote, chain)[depth].quoteMint in Supported(listed)
    && ChainOk(d, newMint, Links(quote, chain), depth + 1)
  }

  function LinkKeys(d: Derivations, h: Hop): (keys: seq<Address>)
    ensures |keys| == if h.venue.Pool? then 4 else 1
  {
    [d.curve(h.baseMint)] + if h.venue.Pool? then [h.address, h.baseVault, h.quoteVault] else []
  }

  function ChainKeys(d: Derivations, hops: seq<Hop>): seq<Address> {
    if |hops| == 0 then [] else ChainKeys(d, hops[..|hops| - 1]) + LinkKeys(d, hops[|hops| - 1])
  }

  function HeadKeys(d: Derivations, newMint: Address, quote: Hop): (keys: seq<Address>)
    ensures |keys| == 4
  {
    [quote.baseMint, d.ata(d.curve(newMint), quote.baseMint, quote.baseTokenProgram), quote.baseTokenProgram,
      d.quoteControl]
  }

  function QuoteMetas(keys: seq<Address>): (r: seq<Meta>)
    ensures |r| == |keys| && forall i | 0 <= i < |keys| :: r[i] == Meta(keys[i], i == 1, false)
  {
    seq(|keys|, i requires 0 <= i < |keys| => Meta(keys[i], i == 1, false))
  }

  function AccountsOf(d: Derivations, newMint: Address, quote: Hop, chain: seq<Hop>): seq<Meta> {
    var hops := Links(quote, chain);
    QuoteMetas(HeadKeys(d, newMint, hops[0]) + ChainKeys(d, hops))
  }

  /** A normalised hop alone is a route from its quote to its base exactly when it is canonical and
      its base is no alias of SOL. */
  lemma SingleHop(d: Derivations, h: Hop)
    requires NormalizeHop(h) == h
    ensures Routes.Accepted(d, h.quoteMint, h.baseMint, [h], false)
        <==> VenueOk(d, h) && NormalizeQuote(h.baseMint) == h.baseMint
  {
    hide VenueOk;
    var normal, from, to := Normalized([h]), NormalizeQuote(h.quoteMint), NormalizeQuote(h.baseMint);
    assert normal == [h] && from == h.quoteMint;
    VenueNeedsKind(d, h);
    if VenueOk(d, h) && to == h.baseMint { assert Chain(d, normal, true, from, to); }
    forall buy | Chain(d, normal, buy, from, to) ensures VenueOk(d, h) && to == h.baseMint {
      assert VenueOk(d, normal[0]);
    }
  }

  lemma LinkNormal(quote: Hop, chain: seq<Hop>, i: nat)
    requires i <= |chain|
    ensures NormalizeHop(Link(Links(quote, chain), i)) == Link(Links(quote, chain), i)
  {
  }

  /** The derivation accepts exactly the canonical chains of distinct mints down to a supported
      quote, and lists their accounts. */
  method DeriveQuoteAccounts(d: Derivations, newMint: Address, quote: Hop, depth: int, maxDepth: int,
      listed: seq<Address>, chain: seq<Hop>) returns (r: Result<seq<Meta>, Fault>)
    ensures r.Ok? <==> Accepted(d, newMint, quote, depth, maxDepth, listed, chain)
    ensures r.Ok? ==> r.value == AccountsOf(d, newMint, quote, chain)
  {
    hide VenueOk, Links, NormalizeHop, LinkKeys, HeadKeys, ChainKeys, Routes.Accepted;
    if depth < 0 || depth >= (if maxDepth < 5 then maxDepth else 5) { return Err(Refused); }
    if |chain| != depth { return Err(Refused); }
    var hops := Links(quote, chain);
    if hops[|hops| - 1].quoteMint !in Supported(listed) { return Err(Refused); }
    var ok := CheckLinks(d, newMint, quote, chain);
    if !ok { return Err(Refused); }
    var keys := CollectKeys(d, hops, HeadKeys(d, newMint, hops[0]));
    return Ok(QuoteMetas(keys));
  }

  method CheckLinks(d: Derivations, newMint: Address, quote: Hop, chain: seq<Hop>) returns (ok: bool)
    ensures ok <==> ChainOk(d, newMint, Links(quote, chain), |chain| + 1)
  {
    hide LinkOk, Links;
    var hops := Links(quote, chain);
    var seen := {newMint};
    for i := 0 to |hops|
      invariant ChainOk(d, newMint, hops, i)
      invariant forall m :: m in seen <==> m == newMint || exists j | 0 <= j < i :: hops[j].baseMint == m
    {
      var h := hops[i];
      if h.baseMint in seen { return false; }
      seen := seen + {h.baseMint};
      if i > 0 && !(hops[i - 1].quoteMint == h.baseMint && hops[i - 1].quoteTokenProgram == h.baseTokenProgram) {
        assert !Joined(hops[i - 1], hops[i]);
        return false;
      }
      var fits := CheckLink(d, newMint, quote, chain, i);
      if !fits { return false; }
    }
    return true;
  }

  /** One link on its own: no completed curve, and a route of one hop. */
  method CheckLink(d: Derivations, newMint: Address, quote: Hop, chain: seq<Hop>, i: nat) returns (ok: bool)
    requires i <= |chain|
    ensures ok <==> LinkOk(d, Links(quote, chain), i)
  {
    hide VenueOk, Links, NormalizeHop, NormalizeQuote, Routes.Accepted;
    var hops := Links(quote, chain);
    var h := hops[i];
    LinkNormal(quote, chain, i);
    SingleHop(d, Link(hops, i));
    if h.venue.Curve? && h.complete {
      CompleteCurve(d, hops, i);
      return false;
    }
    var route := DeriveMultiHop(d, newMint, h.quoteMint, h.baseMint, newMint, [Link(hops, i)], false);
    return route.Ok?;
  }

  lemma CompleteCurve(d: Derivations, hops: seq<Hop>, i: nat)
    requires i < |hops| && hops[i].venue.Curve? && hops[i].complete
    ensures !LinkOk(d, hops, i)
  {
  }

  method CollectKeys(d: Derivations, hops: seq<Hop>, head: seq<Address>) returns (keys: seq<Address>)
    ensures keys == head + ChainKeys(d, hops)
  {
    keys := head;
    for i := 0 to |hops|
      invariant keys == head + ChainKeys(d, hops[..i])
    {
      var h := hops[i];
      keys := keys + [d.curve(h.baseMint)];
      if h.venue.Pool? { keys := keys + [h.address, h.baseVault, h.quoteVault]; }
      assert hops[..i + 1][..i] == hops[..i];
    }
    assert hops[..|hops|] == hops;
  }

  function Pools(hops: seq<Hop>): nat {
    if |hops| == 0 then 0 else Pools(hops[..|hops| - 1]) + if hops[|hops| - 1].venue.Pool? then 1 else 0
  }

  lemma {:induction false} KeyCount(d: Derivations, hops: seq<Hop>)
    ensures |ChainKeys(d, hops)| == |hops| + 3 * Pools(hops) && Pools(hops) <= |hops|
  {
    if |hops| == 0 {
    } else {
      KeyCount(d, hops[..|hops| - 1]);
    }
  }

  /** The counts that the creation builder admits. */
  predicate CountOk(n: nat) {
    n in {0, 3, 4} || exists groups | 1 <= groups <= 5 :: PoolsFit(n, groups)
  }

  predicate PoolsFit(n: nat, groups: nat) {
    (n - 4 - groups) % 3 == 0 && 0 <= (n - 4 - groups) / 3 <= groups
  }

  predicate CreateMetasOk(remaining: seq<Meta>) {
    && CountOk(|remaining|)
    && forall i | 0 <= i < |remaining| :: !remaining[i].isSigner && (remaining[i].isWritable <==> i == 1)
  }

  /** Every accepted quote chain derives accounts that pass the creation builder's checks. */
  lemma AccountsPass(d: Derivations, newMint: Address, quote: Hop, depth: int, maxDepth: int, listed: seq<Address>,
        chain: seq<Hop>)
    requires Accepted(d, newMint, quote, depth, maxDepth, listed, chain)
    ensures CreateMetasOk(AccountsOf(d, newMint, quote, chain))
  {
    hide Links, ChainOk;
    var hops := Links(quote, chain);
    KeyCount(d, hops);
    assert PoolsFit(4 + |hops| + 3 * Pools(hops), |hops|);
  }

  /** A link is canonical apart from mayhem, which only the quote itself may not be in, and its base is no
      alias of SOL. */
  lemma LinkIff(d: Derivations, hops: seq<Hop>, i: nat)
    requires i < |hops|
    ensures LinkOk(d, hops, i) <==>
      && VenueOk(d, hops[i].(mayhem := false)) && (i == 0 ==> !hops[0].mayhem)
      && !hops[i].baseMint.Default? && !hops[i].baseMint.NativeSol?
  {
    assert hops[i].venue.Curve? || hops[i].venue.Pool?;
  }

  lemma {:induction false} KeysPrefix(d: Derivations, hops: seq<Hop>, i: nat)
    requires i <= |hops|
    ensures ChainKeys(d, hops[..i]) <= ChainKeys(d, hops)
  {
    hide LinkKeys;
    var n := |hops| - 1;
    if i == |hops| {
      assert hops[..i] == hops;
    } else {
      KeysPrefix(d, hops[..n], i);
      assert hops[..n][..i] == hops[..i];
    }
  }

  /** Where the keys of link `i` stand: its curve, followed by its pool and vaults if it has migrated. */
  lemma KeysOrder(d: Derivations, hops: seq<Hop>, i: nat)
    requires i < |hops|
    ensures var keys, at, h := ChainKeys(d, hops), i + 3 * Pools(hops[..i]), hops[i];
      && at < |keys| && keys[at] == d.curve(h.baseMint)
      && (h.venue.Pool? ==> at + 3 < |keys| && keys[at + 1..at + 4] == [h.address, h.baseVault, h.quoteVault])
  {
    var h, before := hops[i], ChainKeys(d, hops[..i]);
    KeyCount(d, hops[..i]);
    KeysPrefix(d, hops, i + 1);
    assert hops[..i + 1][..i] == hops[..i];
    assert before + LinkKeys(d, h) <= ChainKeys(d, hops);
    KeysWithin(before, LinkKeys(d, h), ChainKeys(d, hops));
  }

  lemma KeysWithin(before: seq<Address>, link: seq<Address>, keys: seq<Address>)
    requires before + link <= keys
    ensures |before| + |link| <= |keys| && forall k | 0 <= k < |link| :: keys[|before| + k] == link[k]
  {
    forall k | 0 <= k < |link| ensures keys[|before| + k] == link[k] {
      assert (before + link)[|before| + k] == link[k];
    }
  }

  /** The accounts of a chain: the quote mint, the new curve's account for it, its token program, the quote
      control, and then the keys of the links; only the second is writable and none signs. */
  lemma AccountsOrder(d: Derivations, newMint: Address, quote: Hop, chain: seq<Hop>, j: nat)
    requires j < |AccountsOf(d, newMint, quote, chain)|
    ensures var metas, first := AccountsOf(d, newMint, quote, chain), Links(quote, chain)[0];
      && !metas[j].isSigner && (metas[j].isWritable <==> j == 1)
      && metas[j].key == (if j == 0 then first.baseMint
          else if j == 1 then d.ata(d.curve(newMint), first.baseMint, first.baseTokenProgram)
          else if j == 2 then first.baseTokenProgram
          else if j == 3 then d.quoteControl
          else ChainKeys(d, Links(quote, chain))[j - 4])
  {
    hide Links, ChainKeys;
  }
}
