/** Choosing between the official multi-hop instruction and sequential execution. */
module RouteSelection {
  import opened Arith
  import opened Outcomes
  import opened Routes

  datatype Execution = Auto | Official | Sequential

  datatype Options = Options(execution: Execution, minimum: Option<int>, buyback: Option<Address>)

  datatype Instruction = Instruction(route: Route, amount: int, minimum: int)

  predicate Positive(n: int) { 0 < n <= U64 }

  /** The checks that every policy makes first. */
  predicate Prechecked(o: Options, amount: int) {
    && Positive(amount)
    && (!o.execution.Sequential? ==>
        (o.minimum.Some? ==> Positive(o.minimum.value)) && (o.buyback.Some? ==> !o.buyback.value.Default?))
  }

  /** Where a hop leads from a mint, if it trades it. */
  function Next(current: Address, h: Hop): Option<Address> {
    if current == h.quoteMint then Some(h.baseMint) else if current == h.baseMint then Some(h.quoteMint) else None
  }

  /** The mints visited from the input on, as given, without normalising aliases of SOL. */
  function Trail(input: Address, hops: seq<Hop>): (r: Option<seq<Address>>)
    ensures r.Some? ==> |r.value| == |hops| + 1 && r.value[0] == input
  {
    if |hops| == 0 then Some([input])
    else
      var before := Trail(input, hops[..|hops| - 1]);
      if before.None? then None
      else
        var next := Next(before.value[|hops| - 1], hops[|hops| - 1]);
        if next.None? then None else Some(before.value + [next.value])
  }

  function EntryProgram(h: Hop, mint: Address): Address {
    if mint == h.quoteMint then h.quoteTokenProgram else h.baseTokenProgram
  }

  function ExitProgram(h: Hop, mint: Address): Address {
    if mint == h.quoteMint then h.baseTokenProgram else h.quoteTokenProgram
  }

  predicate Known(program: Address) { program.TokenProgram? || program.Token2022? }

  predicate VenueComplete(h: Hop) {
    && !h.address.Default? && !h.baseVault.Default? && !h.quoteVault.Default? && h.baseVault != h.quoteVault
    && Known(h.baseTokenProgram) && Known(h.quoteTokenProgram)
  }

  ghost predicate Distinct(mints: seq<Address>) { forall i, j | 0 <= i < j < |mints| :: mints[i] != mints[j] }

  /** The hops are connected, never return to a mint, keep the token program of each intermediate
      mint, and name complete venues under known programs. */
  ghost predicate HopsOk(input: Address, hops: seq<Hop>) {
    && Trail(input, hops).Some?
    && Distinct(Trail(input, hops).value)
    && (forall i | 0 <= i < |hops| :: VenueComplete(hops[i]))
    && (forall i | 0 < i < |hops| :: Joined(Trail(input, hops).value, hops, i))
  }

  ghost predicate Joined(trail: seq<Address>, hops: seq<Hop>, i: nat)
    requires 0 < i < |hops| && |trail| == |hops| + 1
  {
    ExitProgram(hops[i - 1], trail[i - 1]) == EntryProgram(hops[i], trail[i])
  }

  /** What the official instruction demands beyond the first checks. */
  ghost predicate Officially(d: Derivations, minimum: Option<int>, buyback: Option<Address>, user: Address,
      input: Address, output: Address, hops: Option<seq<Hop>>)
  {
    && hops.Some? && 2 <= |hops.value| <= 3 && minimum.Some? && buyback.Some?
    && !user.Default? && input != output
    && HopsOk(input, hops.value)
    && Accepted(d, input, output, hops.value, false)
  }

  function InstructionOf(d: Derivations, minimum: int, buyback: Address, user: Address, input: Address, output: Address,
      amount: int, hops: seq<Hop>): Instruction
    requires |hops| > 0
  {
    Instruction(RouteOf(d, user, input, output, buyback, hops), amount, minimum)
  }

  /** The builder's own checks of the amounts and of the remaining accounts. */
  predicate BuilderOk(i: Instruction) {
    Positive(i.amount) && Positive(i.minimum) && SwapMetasOk(i.route.remaining)
  }

  /** The selection, by policy. */
  ghost function Selection(d: Derivations, o: Options, user: Address, input: Address, output: Address, amount: int,
      hops: Option<seq<Hop>>): Result<Option<Instruction>, Fault>
  {
    if !Prechecked(o, amount) then Err(Refused)
    else if o.execution.Sequential? then Ok(None)
    else if Officially(d, o.minimum, o.buyback, user, input, output, hops) then
      Ok(Some(InstructionOf(d, o.minimum.value, o.buyback.value, user, input, output, amount, hops.value)))
    else if o.execution.Auto? then Ok(None)
    else Err(Refused)
  }

  lemma TrailStep(input: Address, hops: seq<Hop>, i: nat)
    requires i < |hops| && Trail(input, hops[..i]).Some?
    ensures var before := Trail(input, hops[..i]).value;
      Trail(input, hops[..i + 1]) ==
        if Next(before[i], hops[i]).None? then None else Some(before + [Next(before[i], hops[i]).value])
  {
    assert hops[..i + 1][..i] == hops[..i];
  }

  /** A trail of all hops extends the trail of fewer. */
  lemma {:induction false} TrailPrefix(input: Address, hops: seq<Hop>, i: nat)
    requires i <= |hops| && Trail(input, hops).Some?
    ensures Trail(input, hops[..i]).Some? && Trail(input, hops[..i]).value == Trail(input, hops).value[..i + 1]
    decreases |hops|
  {
    if i == |hops| {
      assert hops[..i] == hops && Trail(input, hops).value[..i + 1] == Trail(input, hops).value;
    } else {
      var shorter := hops[..|hops| - 1];
      TrailPrefix(input, shorter, i);
      assert shorter[..i] == hops[..i];
    }
  }

  /** The loop over the hops as given. */
  method CheckHops(input: Address, hops: seq<Hop>) returns (ok: bool)
    ensures ok <==> HopsOk(input, hops)
  {
    hide Trail, Next;
    var seen, current, previous: Option<Address> := {input}, input, None;
    ghost var trail := [input];
    EmptyTrail(input, hops);
    for i := 0 to |hops|
      invariant Trail(input, hops[..i]) == Some(trail) && |trail| == i + 1 && trail[i] == current
      invariant HopsOk(input, hops[..i])
      invariant forall m :: m in seen <==> m in trail
      invariant previous == if i == 0 then None else Some(ExitProgram(hops[i - 1], trail[i - 1]))
    {
      var h := hops[i];
      if HopsOk(input, hops) {
        Revisits(input, hops, i);
        if i > 0 { NotJoined(input, hops, i); }
      }
      TrailStep(input, hops, i);
      NextIs(current, h);
      if !Known(h.baseTokenProgram) || !Known(h.quoteTokenProgram) { return false; }
      var buy := current == h.quoteMint;
      if !buy && current != h.baseMint { return false; }
      var next := if buy then h.baseMint else h.quoteMint;
      var entry := if buy then h.quoteTokenProgram else h.baseTokenProgram;
      if previous.Some? && previous.value != entry { return false; }
      if next in seen { return false; }
      seen := seen + {next};
      if h.address.Default? || h.baseVault.Default? || h.quoteVault.Default? || h.baseVault == h.quoteVault {
        return false;
      }
      ExtendOk(input, hops, i, next);
      trail := trail + [next];
      previous := Some(if buy then h.baseTokenProgram else h.quoteTokenProgram);
      current := next;
    }
    assert hops[..|hops|] == hops;
    return true;
  }

  lemma NextIs(current: Address, h: Hop)
    ensures Next(current, h) ==
      if current == h.quoteMint then Some(h.baseMint) else if current == h.baseMint then Some(h.quoteMint) else None
  {
  }

  lemma EmptyTrail(input: Address, hops: seq<Hop>)
    ensures Trail(input, hops[..0]) == Some([input]) && HopsOk(input, hops[..0])
  {
  }

  /** A mismatched program, or a mint met before, spoils the whole route. */
  lemma NotJoined(input: Address, hops: seq<Hop>, i: nat)
    requires 0 < i < |hops| && HopsOk(input, hops)
    ensures Trail(input, hops[..i]).Some?
    ensures ExitProgram(hops[i - 1], Trail(input, hops[..i]).value[i - 1])
        == EntryProgram(hops[i], Trail(input, hops[..i]).value[i])
  {
    hide Trail;
    TrailPrefix(input, hops, i);
    assert Joined(Trail(input, hops).value, hops, i);
  }

  lemma Revisits(input: Address, hops: seq<Hop>, i: nat)
    requires i < |hops| && HopsOk(input, hops)
    ensures var before := Trail(input, hops[..i]);
      && before.Some? && Next(before.value[i], hops[i]).Some?
      && Next(before.value[i], hops[i]).value !in before.value
  {
    TrailPrefix(input, hops, i);
    TrailPrefix(input, hops, i + 1);
    TrailStep(input, hops, i);
    hide Trail, Next;
    var trail := Trail(input, hops).value;
    var before := Trail(input, hops[..i]).value;
    assert trail[..i + 2] == before + [trail[i + 1]];
    forall j | 0 <= j <= i ensures before[j] != trail[i + 1] {
      assert before[j] == trail[j];
    }
  }

  lemma ExtendOk(input: Address, hops: seq<Hop>, i: nat, next: Address)
    requires i < |hops| && HopsOk(input, hops[..i]) && VenueComplete(hops[i])
    requires var trail := Trail(input, hops[..i]).value;
      && Next(trail[i], hops[i]) == Some(next) && next !in trail
      && (i > 0 ==> ExitProgram(hops[i - 1], trail[i - 1]) == EntryProgram(hops[i], trail[i]))
    ensures HopsOk(input, hops[..i + 1])
  {
    TrailStep(input, hops, i);
    hide Trail, Next, VenueComplete;
    var before, after := Trail(input, hops[..i]).value, Trail(input, hops[..i + 1]).value;
    assert after == before + [next];
    var longer := hops[..i + 1];
    forall k | 0 < k <= i ensures Joined(after, longer, k) {
      if k < i { assert Joined(before, hops[..i], k); }
    }
  }

  lemma OfficiallyNeeds(d: Derivations, minimum: Option<int>, buyback: Option<Address>, user: Address, input: Address,
      output: Address, hops: Option<seq<Hop>>)
    ensures Officially(d, minimum, buyback, user, input, output, hops) ==>
      hops.Some? && 2 <= |hops.value| <= 3 && minimum.Some? && buyback.Some?
  {
  }

  lemma SelectionFallsBack(d: Derivations, o: Options, user: Address, input: Address, output: Address, amount: int,
      hops: Option<seq<Hop>>)
    requires !Prechecked(o, amount) || o.execution.Sequential?
      || !Officially(d, o.minimum, o.buyback, user, input, output, hops)
    ensures Selection(d, o, user, input, output, amount, hops)
         == if Prechecked(o, amount) && !o.execution.Official? then Ok(None) else Err(Refused)
  {
    hide Officially, InstructionOf, Prechecked;
    OfficiallyNeeds(d, o.minimum, o.buyback, user, input, output, hops);
  }

  lemma SelectionTakes(d: Derivations, o: Options, user: Address, input: Address, output: Address, amount: int,
        hops: seq<Hop>)
    requires |hops| > 0 && o.minimum.Some? && o.buyback.Some?
    requires Prechecked(o, amount) && !o.execution.Sequential?
    requires Officially(d, o.minimum, o.buyback, user, input, output, Some(hops))
    ensures Selection(d, o, user, input, output, amount, Some(hops))
         == Ok(Some(InstructionOf(d, o.minimum.value, o.buyback.value, user, input, output, amount, hops)))
  {
    hide Officially, InstructionOf, Prechecked;
  }

  /** The selection as the source runs it. */
  method SelectRoute(d: Derivations, o: Options, user: Address, input: Address, output: Address, amount: int,
      hops: Option<seq<Hop>>) returns (r: Result<Option<Instruction>, Fault>)
    ensures r == Selection(d, o, user, input, output, amount, hops)
  {
    hide Officially, InstructionOf, Positive, Selection;
    OfficiallyNeeds(d, o.minimum, o.buyback, user, input, output, hops);
    if !Prechecked(o, amount) || o.execution.Sequential?
      || !Officially(d, o.minimum, o.buyback, user, input, output, hops) {
      SelectionFallsBack(d, o, user, input, output, amount, hops);
    } else {
      SelectionTakes(d, o, user, input, output, amount, hops.value);
    }
    if !Positive(amount) { return Err(Refused); }
    if o.execution.Sequential? { return Ok(None); }
    if o.minimum.Some? && !Positive(o.minimum.value) { return Err(Refused); }
    if o.buyback.Some? && o.buyback.value.Default? { return Err(Refused); }
    if o.execution.Auto? && (hops.None? || |hops.value| < 2 || |hops.value| > 3 || o.minimum.None? || o.buyback.None?) {
      return Ok(None);
    }
    var built := BuildOfficial(d, o.minimum, o.buyback, user, input, output, amount, hops);
    if built.Ok? { return Ok(Some(built.value)); }
    if o.execution.Auto? { return Ok(None); }
    return Err(Refused);
  }

  lemma OfficiallyIs(d: Derivations, minimum: Option<int>, buyback: Option<Address>, user: Address, input: Address,
      output: Address, hops: seq<Hop>)
    requires 2 <= |hops| <= 3 && minimum.Some? && buyback.Some?
    ensures Officially(d, minimum, buyback, user, input, output, Some(hops))
       <==> !user.Default? && input != output && HopsOk(input, hops) && Accepted(d, input, output, hops, false)
  {
    hide HopsOk, Accepted;
  }

  /** The part of the selection under `try`, with the builder's checks. */
  method BuildOfficial(d: Derivations, minimum: Option<int>, buyback: Option<Address>, user: Address, input: Address,
      output: Address, amount: int, hops: Option<seq<Hop>>) returns (r: Result<Instruction, Fault>)
    requires Positive(amount) && (minimum.Some? ==> Positive(minimum.value))
    ensures r.Ok? <==> Officially(d, minimum, buyback, user, input, output, hops)
    ensures r.Ok? ==> hops.Some? && minimum.Some? && buyback.Some? && |hops.value| > 0
    ensures r.Ok? ==> r.value == InstructionOf(d, minimum.value, buyback.value, user, input, output, amount, hops.value)
  {
    hide HopsOk, Accepted, Officially, SwapMetasOk, RouteOf, Positive;
    OfficiallyNeeds(d, minimum, buyback, user, input, output, hops);
    if hops.None? || |hops.value| < 2 || |hops.value| > 3 { return Err(Refused); }
    if minimum.None? || buyback.None? { return Err(Refused); }
    var given := hops.value;
    OfficiallyIs(d, minimum, buyback, user, input, output, given);
    if user.Default? || input == output { return Err(Refused); }
    var ok := CheckHops(input, given);
    if !ok { return Err(Refused); }
    r := BuildSwap(d, minimum.value, buyback.value, user, input, output, amount, given);
  }

  /** The derivation of the accounts and the builder's checks, which the derived accounts pass. */
  method BuildSwap(d: Derivations, minimum: int, buyback: Address, user: Address, input: Address, output: Address,
      amount: int, hops: seq<Hop>) returns (r: Result<Instruction, Fault>)
    requires Positive(amount) && Positive(minimum) && |hops| > 0
    ensures r.Ok? <==> Accepted(d, input, output, hops, false)
    ensures r.Ok? ==> r.value == InstructionOf(d, minimum, buyback, user, input, output, amount, hops)
  {
    hide Accepted, RouteOf, SwapMetasOk, Positive;
    var route := DeriveMultiHop(d, user, input, output, buyback, hops, false);
    if route.Err? { return Err(Refused); }
    RouteMetasPass(d, user, input, output, buyback, hops);
    var built := Instruction(route.value, amount, minimum);
    if !BuilderOk(built) { return Err(Refused); }
    return Ok(built);
  }

  lemma RouteMetasPass(d: Derivations, user: Address, input: Address, output: Address, buyback: Address, hops: seq<Hop>)
    requires |hops| > 0
    ensures SwapMetasOk(RouteOf(d, user, input, output, buyback, hops).remaining)
  {
    MetasPass(Normalized(hops));
  }

  /** Automatic selection takes the official instruction exactly when the official policy would
      succeed, takes the same one, and otherwise falls back without failing. */
  lemma AutoIsOfficialOrSequential(d: Derivations, o: Options, user: Address, input: Address, output: Address,
      amount: int, hops: Option<seq<Hop>>)
    requires Prechecked(o.(execution := Official), amount)
    ensures var official := Selection(d, o.(execution := Official), user, input, output, amount, hops);
      Selection(d, o.(execution := Auto), user, input, output, amount, hops)
        == if official.Ok? then official else Ok(None)
  {
    hide Officially, InstructionOf;
    OfficiallyNeeds(d, o.minimum, o.buyback, user, input, output, hops);
  }

  /** A selected instruction is a two- or three-hop accepted route over distinct mints as given,
      whose instruction passes every check of its builder. */
  lemma SelectedIsOfficial(d: Derivations, o: Options, user: Address, input: Address, output: Address, amount: int,
      hops: Option<seq<Hop>>)
    requires Selection(d, o, user, input, output, amount, hops).Ok?
    requires Selection(d, o, user, input, output, amount, hops).value.Some?
    ensures var it := Selection(d, o, user, input, output, amount, hops).value.value;
      && hops.Some? && 2 <= |hops.value| <= 3 && |it.route.remaining| == 5 * |hops.value|
      && BuilderOk(it) && HopsOk(input, hops.value) && Accepted(d, input, output, hops.value, false)
      && 0 < it.amount == amount <= U64 && 0 < it.minimum <= U64 && o.minimum == Some(it.minimum)
  {
    hide HopsOk, Accepted;
    RouteMetasPass(d, user, input, output, o.buyback.value, hops.value);
    MetasPass(Normalized(hops.value));
  }

  /** Every hop of a selected route names a complete venue under known token programs, and what it gives it
      gives under the token program under which the next hop takes it. */
  lemma SelectedVenues(d: Derivations, o: Options, user: Address, input: Address, output: Address, amount: int,
      hops: seq<Hop>, i: nat)
    requires Selection(d, o, user, input, output, amount, Some(hops)).Ok? && i < |hops|
    requires Selection(d, o, user, input, output, amount, Some(hops)).value.Some?
    ensures var h := hops[i];
      && !h.address.Default? && !h.baseVault.Default? && !h.quoteVault.Default? && h.baseVault != h.quoteVault
      && (h.baseTokenProgram.TokenProgram? || h.baseTokenProgram.Token2022?)
      && (h.quoteTokenProgram.TokenProgram? || h.quoteTokenProgram.Token2022?)
    ensures Trail(input, hops).Some?
    ensures 0 < i ==>
      var h, before, at, from := hops[i], hops[i - 1], Trail(input, hops).value[i], Trail(input, hops).value[i - 1];
      (if at == h.quoteMint then h.quoteTokenProgram else h.baseTokenProgram)
      == (if from == before.quoteMint then before.baseTokenProgram else before.quoteTokenProgram)
  {
    hide Accepted, Trail;
    assert VenueComplete(hops[i]);
    if 0 < i { assert Joined(Trail(input, hops).value, hops, i); }
  }

  /** What each policy refuses whatever the route: an amount that is no positive word, and, unless it is
      sequential, a minimum that is none or a missing buyback wallet. */
  lemma PolicyRefuses(d: Derivations, o: Options, user: Address, input: Address, output: Address, amount: int,
      hops: Option<seq<Hop>>)
    ensures var r := Selection(d, o, user, input, output, amount, hops);
      var refused := !(0 < amount <= U64) || (!o.execution.Sequential?
        && ((o.minimum.Some? && !(0 < o.minimum.value <= U64)) || o.buyback == Some(Default)));
      && (refused ==> r.Err?) && (!refused && o.execution.Sequential? ==> r == Ok(None))
      && (!refused && o.execution.Auto? ==> r.Ok?)
      && (!refused && o.execution.Official? ==> r.Err? || r.value.Some?)
  {
    hide Officially, InstructionOf;
  }

  function Normals(mints: seq<Address>): (r: seq<Address>)
    ensures |r| == |mints| && forall i | 0 <= i < |mints| :: r[i] == NormalizeQuote(mints[i])
  {
    seq(|mints|, i requires 0 <= i < |mints| => NormalizeQuote(mints[i]))
  }

  /** Distinct mints stay distinct when normalised unless two of them are aliases of SOL. */
  lemma NormalsDistinct(mints: seq<Address>)
    requires Distinct(mints)
    ensures Distinct(Normals(mints)) <==> forall i, j | 0 <= i < j < |mints| :: !(IsSol(mints[i]) && IsSol(mints[j]))
  {
    var r := Normals(mints);
    forall i, j | 0 <= i < j < |mints| ensures r[i] == r[j] <==> IsSol(mints[i]) && IsSol(mints[j]) {
      assert mints[i] != mints[j];
    }
    if Distinct(r) {
      forall i, j | 0 <= i < j < |mints| ensures !(IsSol(mints[i]) && IsSol(mints[j])) {
        assert r[i] != r[j];
      }
    }
  }

  predicate Alias(mint: Address) { mint.Default? || mint.NativeSol? }

  /** No accepted route has an alias of SOL as a base mint: each base is a normalised mint of its
      neighbour or of an endpoint. */
  lemma {:induction false} BasesNormal(d: Derivations, hops: seq<Hop>, buy: bool, input: Address, output: Address)
    requires Chain(d, Normalized(hops), buy, NormalizeQuote(input), NormalizeQuote(output))
    ensures forall i | 0 <= i < |hops| :: !Alias(hops[i].baseMint)
  {
    hide VenueOk;
    var normal := Normalized(hops);
    forall i | 0 <= i < |hops| ensures !Alias(hops[i].baseMint) {
      if buy {
        if i + 1 < |hops| { assert From(normal[i + 1], buy) == To(normal[i], buy); }
      } else {
        if i > 0 { assert From(normal[i], buy) == To(normal[i - 1], buy); }
      }
    }
  }

  lemma TrailAt(input: Address, hops: seq<Hop>, trail: seq<Address>, i: nat)
    requires Trail(input, hops) == Some(trail) && i < |hops|
    ensures Next(trail[i], hops[i]) == Some(trail[i + 1])
  {
    TrailPrefix(input, hops, i);
    TrailPrefix(input, hops, i + 1);
    TrailStep(input, hops, i);
    hide Trail, Next;
    assert trail[..i + 1][i] == trail[i] && trail[..i + 2][i + 1] == trail[i + 1];
  }

  /** One link of a normalised chain. */
  lemma {:induction false} LinkAt(d: Derivations, hops: seq<Hop>, buy: bool, from: Address, to: Address, i: nat)
    requires Chain(d, Normalized(hops), buy, from, to) && i < |hops|
    ensures VenueKindOk(NormalizeHop(hops[i]))
    ensures From(NormalizeHop(hops[i]), buy) == if i == 0 then from else To(NormalizeHop(hops[i - 1]), buy)
  {
    var normal := Normalized(hops);
    VenueNeedsKind(d, normal[i]);
    hide VenueOk, NormalizeHop, VenueKindOk;
    if i == 0 {
    } else {
      assert From(normal[i], buy) == To(normal[i - 1], buy);
    }
  }

  lemma GivenSide(h: Hop, buy: bool)
    requires !Alias(h.baseMint)
    ensures NormalizeQuote(To(h, buy)) == To(NormalizeHop(h), buy)
  {
  }

  /** The mint of the trail before and after a hop of an accepted chain: as given, it is the hop's
      own mint on that side. */
  lemma {:induction false} TrailFollows(d: Derivations, hops: seq<Hop>, buy: bool, input: Address, output: Address,
        trail: seq<Address>)
    requires Chain(d, Normalized(hops), buy, NormalizeQuote(input), NormalizeQuote(output))
    requires Trail(input, hops) == Some(trail)
    ensures forall i | 0 <= i < |hops| :: trail[i] == From(hops[i], buy) && trail[i + 1] == To(hops[i], buy)
  {
    BasesNormal(d, hops, buy, input, output);
    hide Chain, Trail, NormalizeHop, NormalizeQuote, Next, Alias, VenueKindOk, From, To;
    var n := 0;
    while n < |hops|
      invariant n <= |hops|
      invariant forall i | 0 <= i < n :: trail[i] == From(hops[i], buy) && trail[i + 1] == To(hops[i], buy)
    {
      TrailAt(input, hops, trail, n);
      LinkAt(d, hops, buy, NormalizeQuote(input), NormalizeQuote(output), n);
      if n > 0 { GivenSide(hops[n - 1], buy); }
      HopFollows(hops[n], buy, trail[n]);
      n := n + 1;
    }
  }

  /** A mint that normalises to the side that a hop takes is that side as given. */
  lemma HopFollows(h: Hop, buy: bool, mint: Address)
    requires VenueKindOk(NormalizeHop(h)) && !Alias(h.baseMint) && Next(mint, h).Some?
    requires NormalizeQuote(mint) == From(NormalizeHop(h), buy)
    ensures mint == From(h, buy) && Next(mint, h) == Some(To(h, buy))
  {
  }

  /** The mint, as given, at the currency end of a route: where an all-buy route starts or an
      all-sell route ends. */
  function CurrencyEnd(input: Address, hops: seq<Hop>): Address
    requires |hops| > 0
  {
    if NormalizeQuote(input) == NormalizeQuote(hops[0].quoteMint) then hops[0].quoteMint else hops[|hops| - 1].quoteMint
  }

  /** The cycle check compares mints as given.  A selected route returns to a mint under another name
      exactly when its currency end is an alias of SOL and a hop has wrapped SOL as its base. */
  lemma CycleFreeIff(d: Derivations, o: Options, user: Address, input: Address, output: Address, amount: int,
        hops: seq<Hop>)
    requires Selection(d, o, user, input, output, amount, Some(hops)).Ok?
    requires Selection(d, o, user, input, output, amount, Some(hops)).value.Some?
    ensures |hops| > 0 && Trail(input, hops).Some?
    ensures Distinct(Normals(Trail(input, hops).value))
       <==> !(Alias(CurrencyEnd(input, hops)) && exists i | 0 <= i < |hops| :: hops[i].baseMint.Wsol?)
    ensures forall i | 0 <= i < |hops| :: !Alias(hops[i].baseMint)
  {
    SelectedIsOfficial(d, o, user, input, output, amount, Some(hops));
    var from, to := NormalizeQuote(input), NormalizeQuote(output);
    var buy :| Chain(d, Normalized(hops), buy, from, to);
    hide Selection;
    SelectedCycle(d, hops, buy, input, output);
  }

  lemma {:induction false} SelectedCycle(d: Derivations, hops: seq<Hop>, buy: bool, input: Address, output: Address)
    requires Chain(d, Normalized(hops), buy, NormalizeQuote(input), NormalizeQuote(output)) && HopsOk(input, hops)
    ensures Distinct(Normals(Trail(input, hops).value))
       <==> !(Alias(CurrencyEnd(input, hops)) && exists i | 0 <= i < |hops| :: hops[i].baseMint.Wsol?)
    ensures forall i | 0 <= i < |hops| :: !Alias(hops[i].baseMint)
  {
    var trail, n := Trail(input, hops).value, |hops|;
    assert Distinct(trail);
    hide Trail, Chain, HopsOk, Alias, CurrencyEnd, NormalizeQuote, Distinct;
    BasesNormal(d, hops, buy, input, output);
    TrailFollows(d, hops, buy, input, output, trail);
    EndIs(d, hops, buy, input, output);
    CycleAtEnd(trail, hops, buy);
  }

  /** All mints of the trail but the currency end are base mints, of which at most one is an alias. */
  lemma {:induction false} CycleAtEnd(trail: seq<Address>, hops: seq<Hop>, buy: bool)
    requires |trail| == |hops| + 1 && Distinct(trail)
    requires forall i | 0 <= i < |hops| ::
      !Alias(hops[i].baseMint) && hops[i].baseMint == trail[if buy then i + 1 else i]
    ensures Distinct(Normals(trail))
       <==> !(Alias(trail[if buy then 0 else |hops|]) && exists i | 0 <= i < |hops| :: hops[i].baseMint.Wsol?)
  {
    NormalsDistinct(trail);
    var n := |hops|;
    var end := if buy then 0 else n;
    hide Normals;
    forall j | 0 <= j <= n && j != end
      ensures !Alias(trail[j]) && (IsSol(trail[j]) ==> exists i | 0 <= i < n :: hops[i].baseMint.Wsol?)
    {
      assert hops[if buy then j - 1 else j].baseMint == trail[j];
    }
    if i :| 0 <= i < n && hops[i].baseMint.Wsol? {
      var k := if buy then i + 1 else i;
      assert IsSol(trail[k]) && trail[k] != trail[end];
      assert Alias(trail[end]) ==> IsSol(trail[Min(k, end)]) && IsSol(trail[Max(k, end)]);
    }
  }

  lemma {:induction false} EndIs(d: Derivations, hops: seq<Hop>, buy: bool, input: Address, output: Address)
    requires Chain(d, Normalized(hops), buy, NormalizeQuote(input), NormalizeQuote(output))
    ensures buy <==> NormalizeQuote(input) == NormalizeQuote(hops[0].quoteMint)
    ensures CurrencyEnd(input, hops) == if buy then hops[0].quoteMint else hops[|hops| - 1].quoteMint
  {
    assert VenueOk(d, Normalized(hops)[0]);
  }

  /** A pool hop that is canonical for the given derivations. */
  function CanonicalPool(d: Derivations, base: Address, quote: Address, id: nat): Hop {
    Hop(Pool, base, quote, d.pool(d.authority(base), base, NormalizeQuote(quote)), Other(id), Other(id + 1),
        TokenProgram, TokenProgram, false, false, false, Some(0), Some(d.authority(base)))
  }

  /** A route out of SOL and back into SOL under another alias is selected. */
  lemma AliasCycle(d: Derivations, user: Address)
    requires !user.Default?
    requires forall a, b, c :: d.pool(a, b, c) != Default
    ensures Selection(d, Options(Official, Some(1), Some(user)), user, Default, Wsol, 1, Some(AliasHops(d))).Ok?
    ensures Trail(Default, AliasHops(d)) == Some([Default, Other(0), Wsol])
    ensures !Distinct(Normals([Default, Other(0), Wsol]))
  {
    AliasTrail(AliasHops(d));
    AliasAccepted(d);
    var r := Normals([Default, Other(0), Wsol]);
    assert r[0] == r[2];
    hide HopsOk, Accepted, AliasHops;
  }

  function AliasHops(d: Derivations): (hops: seq<Hop>)
    ensures |hops| == 2
  {
    [CanonicalPool(d, Other(0), Default, 10), CanonicalPool(d, Wsol, Other(0), 20)]
  }

  lemma AliasAccepted(d: Derivations)
    ensures Accepted(d, Default, Wsol, AliasHops(d), false)
  {
    var normal := Normalized(AliasHops(d));
    assert VenueOk(d, normal[0]) && VenueOk(d, normal[1]);
    hide VenueOk;
    assert Chain(d, normal, true, NormalizeQuote(Default), NormalizeQuote(Wsol));
  }

  lemma {:induction false} AliasTrail(hops: seq<Hop>)
    requires |hops| == 2 && VenueComplete(hops[0]) && VenueComplete(hops[1])
    requires hops[0].quoteMint == Default && hops[0].baseMint == Other(0) && hops[1].quoteMint == Other(0)
    requires hops[1].baseMint == Wsol
    requires hops[0].baseTokenProgram == TokenProgram == hops[1].quoteTokenProgram
    ensures HopsOk(Default, hops) && Trail(Default, hops) == Some([Default, Other(0), Wsol])
  {
    assert Trail(Default, hops[..0]) == Some([Default]);
    TrailStep(Default, hops, 0);
    TrailStep(Default, hops, 1);
    assert hops[..2] == hops;
    hide Trail, Next, VenueComplete;
    var trail := [Default, Other(0), Wsol];
    assert Trail(Default, hops) == Some([Default] + [Other(0)] + [Wsol]);
    assert trail == [Default] + [Other(0)] + [Wsol];
  }
}
