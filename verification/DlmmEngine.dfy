/** The DLMM exact-in quote: input checks, the bookkeeping of priced and live bins, and the walk. */
module DlmmEngine {
  import opened Arith
  import opened Outcomes
  import opened DlmmBin
  import opened Dlmm
  import opened Sorting

  const U32: nat := 0xffff_ffff
  const U63: nat := 0x7fff_ffff_ffff_ffff

  datatype StaticFee = StaticFee(
    baseFactor: int, power: int, control: int, maximumVolatility: int, filterPeriod: int, decayPeriod: int,
    reductionFactor: int)
  {
    predicate Valid() {
      && 0 <= baseFactor <= 65535 && 0 <= power <= 18
      && 0 <= control <= U32 && 0 <= maximumVolatility <= U32
      && 0 <= filterPeriod <= 65535 && 0 <= decayPeriod <= 65535 && 0 <= reductionFactor <= 10000
    }
  }

  datatype VariableFee = VariableFee(volatility: int, reference: int, indexReference: int, lastTimestamp: int) {
    predicate Valid() {
      && 0 <= volatility <= U32 && 0 <= reference <= U32
      && -0x8000_0000 <= indexReference <= 0x7fff_ffff && 0 <= lastTimestamp <= U63
    }
  }

  datatype Pool = Pool(activeId: int, binStep: int, feeMode: int, fees: StaticFee, variable: VariableFee) {
    predicate Valid() {
      InRange(activeId) && 1 <= binStep <= 65535 && 0 <= feeMode <= 1 && fees.Valid() && variable.Valid()
    }
  }

  datatype Request = Request(
    pool: Pool, bins: seq<Bin>, loaded: seq<int>, amount: int, timestamp: int,
    swapForY: bool, supportOrders: bool, strict: bool, exhaustive: bool)
  {
    predicate Valid() {
      && 0 <= amount <= U64 && 0 <= timestamp <= U63
      && pool.Valid() && pool.variable.lastTimestamp <= timestamp
      && ArraysOk(loaded)
      && BinsOk(bins, loaded)
    }
  }

  predicate ArrayOk(i: int) {
    -6338 <= i <= 6337 && i * ARRAY_SIZE <= MAX_BIN && (i + 1) * ARRAY_SIZE > MIN_BIN
  }

  predicate ArraysOk(loaded: seq<int>) {
    && (forall k | 0 <= k < |loaded| :: ArrayOk(loaded[k]))
    && (forall j, k | 0 <= j < k < |loaded| :: loaded[j] != loaded[k])
  }

  predicate BinOk(b: Bin, loaded: seq<int>) {
    && InRange(b.binId) && ArrayOf(b.binId) in loaded
    && b.amountX <= U64 && b.amountY <= U64 && b.openOrder <= U64 && b.processedOrder <= U64
    && b.price <= U128 && b.askSide <= 255
    && (b.price == 0 ==> b.amountX == b.amountY == b.openOrder == b.processedOrder == 0)
  }

  predicate BinsOk(bins: seq<Bin>, loaded: seq<int>) {
    && (forall k | 0 <= k < |bins| :: BinOk(bins[k], loaded))
    && (forall j, k | 0 <= j < k < |bins| :: bins[j].binId != bins[k].binId)
  }

  function PowerOfTen(n: nat): nat { if n == 0 then 1 else 10 * PowerOfTen(n - 1) }

  /** The priced bins by id. */
  function Priced(bins: seq<Bin>): map<int, Bin> {
    if bins == [] then map[]
    else
      var b := bins[|bins| - 1];
      var rest := Priced(bins[..|bins| - 1]);
      if b.price == 0 then rest else rest[b.binId := b]
  }

  /** The priced bins are exactly the given bins with a price, each under its own id. */
  lemma {:induction false} PricedExactly(bins: seq<Bin>)
    requires forall j, k | 0 <= j < k < |bins| :: bins[j].binId != bins[k].binId
    ensures forall id | id in Priced(bins) ::
      Priced(bins)[id] in bins && Priced(bins)[id].binId == id && Priced(bins)[id].price > 0
    ensures forall k | 0 <= k < |bins| && bins[k].price > 0 ::
        bins[k].binId in Priced(bins) && Priced(bins)[bins[k].binId] == bins[k]
  {
    if bins == [] {
    } else {
      PricedExactly(bins[..|bins| - 1]);
    }
  }

  /** The volatility reference and the reference index, renewed once the filter period is over. */
  function Reference(r: Request): nat
    requires r.Valid()
  {
    var elapsed := r.timestamp - r.pool.variable.lastTimestamp;
    if elapsed < r.pool.fees.filterPeriod then r.pool.variable.reference
    else if elapsed < r.pool.fees.decayPeriod then r.pool.variable.volatility * r.pool.fees.reductionFactor / 10000
    else 0
  }

  function ReferenceIndex(r: Request): int {
    if r.timestamp - r.pool.variable.lastTimestamp < r.pool.fees.filterPeriod then r.pool.variable.indexReference
    else r.pool.activeId
  }

  function WalkOf(r: Request, bins: map<int, Bin>): Walk
    requires r.Valid()
  {
    Walk(bins, r.loaded, r.swapForY, r.supportOrders, r.strict, r.exhaustive,
         r.pool.feeMode == 0 || !r.swapForY, Reference(r), ReferenceIndex(r), r.pool.binStep, r.pool.fees.control,
         r.pool.fees.maximumVolatility, r.pool.fees.baseFactor * r.pool.binStep * 10 * PowerOfTen(r.pool.fees.power))
  }

  lemma {:induction false} PowersMultiply(a: nat, b: nat)
    ensures PowerOfTen(a + b) == PowerOfTen(a) * PowerOfTen(b) && PowerOfTen(1) == 10
  {
    if a == 0 {
    } else {
      PowersMultiply(a - 1, b);
      assert 10 * (PowerOfTen(a - 1) * PowerOfTen(b)) == 10 * PowerOfTen(a - 1) * PowerOfTen(b);
    }
  }

  /** The volatility reference: kept within the filter period, then the greatest that the reduction leaves of
      the volatility, and nothing once that has decayed. */
  lemma ReferenceIff(r: Request, n: nat)
    requires r.Valid()
    ensures var elapsed, f, v := r.timestamp - r.pool.variable.lastTimestamp, r.pool.fees, r.pool.variable;
      && (elapsed < f.filterPeriod ==> Reference(r) == v.reference && ReferenceIndex(r) == v.indexReference)
      && (f.filterPeriod <= elapsed ==> ReferenceIndex(r) == r.pool.activeId)
      && (f.filterPeriod <= elapsed < f.decayPeriod ==>
          (n <= Reference(r) <==> n * 10000 <= v.volatility * f.reductionFactor))
      && (f.filterPeriod <= elapsed && f.decayPeriod <= elapsed ==> Reference(r) == 0)
  {
    var f, v := r.pool.fees, r.pool.variable;
    var kept: nat := v.volatility * f.reductionFactor;
    FloorIff(kept, 10000, n);
  }

  /** The fee rate of a bin in the terms of the request. */
  lemma RateInTerms(r: Request, bins: map<int, Bin>, id: int, rate: nat)
    requires r.Valid()
    ensures var f, scaled := r.pool.fees,
        Min(Reference(r) + Abs(ReferenceIndex(r) - id) * 10000, r.pool.fees.maximumVolatility) * r.pool.binStep;
      var base := f.baseFactor * r.pool.binStep * 10 * PowerOfTen(f.power);
      WalkOf(r, bins).Rate(id) <= rate <==>
        || 100_000_000 <= rate
        || (base <= rate && f.control * scaled * scaled <= (rate - base) * 100_000_000_000)
  {
    hide Reference, ReferenceIndex, PowerOfTen, Walk.Rate;
    RateIff(WalkOf(r, bins), id, rate);
  }

  /** Fees come off the input in the first fee mode and when the first token is bought. */
  lemma FeeSide(r: Request, bins: map<int, Bin>)
    requires r.Valid()
    ensures WalkOf(r, bins).feeInput <==> !(r.pool.feeMode == 1 && r.swapForY)
  {
  }

  /** The quote by the reference walk: every bin id visited one by one. */
  function QuoteByEveryId(r: Request): Result<Quote, DlmmError> {
    if !r.Valid() then Err(InvalidInput)
    else
      PricedExactly(r.bins);
      Naive(WalkOf(r, Priced(r.bins)), r.pool.activeId, r.amount, 0, 0)
  }

  /** The input checks, in the order of the source. */
  method CheckArrays(loaded: seq<int>) returns (ok: bool)
    ensures ok <==> ArraysOk(loaded)
  {
    var seen: set<int> := {};
    for k := 0 to |loaded|
      invariant forall i :: i in seen <==> i in loaded[..k]
      invariant ArraysOk(loaded[..k])
    {
      var i := loaded[k];
      if !(-6338 <= i <= 6337) || i * ARRAY_SIZE > MAX_BIN || (i + 1) * ARRAY_SIZE <= MIN_BIN || i in seen {
        return false;
      }
      seen := seen + {i};
      assert loaded[..k + 1] == loaded[..k] + [i];
    }
    assert loaded[..|loaded|] == loaded;
    return true;
  }

  /** Building the priced bins and the list of live ids in one pass over the given bins. */
  method CollectBins(r: Request) returns (ok: bool, byId: map<int, Bin>, liveIds: seq<int>)
    ensures ok <==> BinsOk(r.bins, r.loaded)
    ensures ok ==> byId == Priced(r.bins)
    ensures ok ==> forall id :: id in liveIds <==> id in byId && Relevant(r, byId[id])
  {
    hide Relevant, BinOk;
    byId, liveIds := map[], [];
    var seen: set<int> := {};
    for k := 0 to |r.bins|
      invariant forall id :: id in seen <==> exists j | 0 <= j < k :: r.bins[j].binId == id
      invariant BinsOk(r.bins[..k], r.loaded)
      invariant byId == Priced(r.bins[..k]) && byId.Keys <= seen
      invariant forall id :: id in liveIds <==> id in byId && Relevant(r, byId[id])
    {
      var b := r.bins[k];
      assert r.bins[..k + 1] == r.bins[..k] + [b];
      if b.binId in seen || !BinOk(b, r.loaded) { return false, byId, liveIds; }
      assert r.bins[..k + 1][..k] == r.bins[..k];
      seen := seen + {b.binId};
      if b.price != 0 {
        byId := byId[b.binId := b];
        if Relevant(r, b) { liveIds := liveIds + [b.binId]; }
      }
    }
    assert r.bins[..|r.bins|] == r.bins;
    return true, byId, liveIds;
  }

  /** The test that puts a bin on the list of live ids. */
  predicate Relevant(r: Request, b: Bin) {
    var orders := r.supportOrders && ((r.swapForY && b.askSide == 0) || (!r.swapForY && b.askSide != 0));
    (if r.swapForY then b.amountY else b.amountX) != 0 || (orders && (b.processedOrder != 0 || b.openOrder != 0))
  }

  /** The list of live ids holds exactly the bins with something to take. */
  lemma RelevantIsLive(r: Request, byId: map<int, Bin>, id: int)
    requires r.Valid() && id in byId
    ensures Relevant(r, byId[id]) <==> WalkOf(r, byId).Live(id)
  {
    var w := WalkOf(r, byId);
    var tiers := w.Tiers(id);
    assert |tiers| == 3;
    if Relevant(r, byId[id]) {
      assert tiers[0] != 0 || tiers[1] != 0 || tiers[2] != 0;
    }
  }

  /** The engine: the checks, the sorted live ids and the walk that jumps over empty bins give
      what visiting every bin id gives. */
  method SwapExactIn(r: Request) returns (q: Result<Quote, DlmmError>)
    ensures q == QuoteByEveryId(r)
  {
    hide WalkOf, StaticFee.Valid, VariableFee.Valid, Relevant, Walk.Live, ArraysOk, BinsOk, Naive;
    if !(0 <= r.amount <= U64) || !(0 <= r.timestamp <= U63) || !r.pool.Valid()
      || r.pool.variable.lastTimestamp > r.timestamp {
      return Err(InvalidInput);
    }
    var arraysOk := CheckArrays(r.loaded);
    if !arraysOk { return Err(InvalidInput); }
    var binsOk, byId, liveIds := CollectBins(r);
    if !binsOk { return Err(InvalidInput); }
    PricedApart(r);
    var w := WalkOf(r, byId);
    var ids := SortBy(liveIds, (id: int) => id);
    SortedLive(r, byId, liveIds);
    q := WalkBins(w, ids, r.pool.activeId, r.amount);
  }

  lemma PricedApart(r: Request)
    requires r.Valid()
    ensures WalkOf(r, Priced(r.bins)).Valid()
  {
    PricedExactly(r.bins);
  }

  /** Sorting keeps the live ids and puts them in order for the bisection. */
  lemma SortedLive(r: Request, byId: map<int, Bin>, liveIds: seq<int>)
    requires r.Valid()
    requires forall id :: id in liveIds <==> id in byId && Relevant(r, byId[id])
    ensures LiveIds(WalkOf(r, byId), SortBy(liveIds, (id: int) => id))
  {
    hide Request.Valid, Relevant, Walk.Live, SortBy;
    var key := (id: int) => id;
    var ids := SortBy(liveIds, key);
    Rising(ids, key);
    forall id ensures id in ids <==> WalkOf(r, byId).Live(id) {
      SameElements(ids, liveIds, id);
      if id in byId { RelevantIsLive(r, byId, id); }
    }
  }

  lemma Rising(ids: seq<int>, key: int -> int)
    requires SortedBy(ids, key) && forall id :: key(id) == id
    ensures forall i, j | 0 <= i < j < |ids| :: ids[i] <= ids[j]
  {
    forall i, j | 0 <= i < j < |ids| ensures ids[i] <= ids[j] {
      assert key(ids[i]) <= key(ids[j]);
    }
  }

  /** The whole quote is monotone in its input. */
  lemma SwapMonotone(r: Request, larger: int)
    requires r.amount <= larger
    requires QuoteByEveryId(r).Ok? && QuoteByEveryId(r.(amount := larger)).Ok?
    ensures QuoteByEveryId(r).value.amountOut <= QuoteByEveryId(r.(amount := larger)).value.amountOut
  {
    hide Naive;
    PricedExactly(r.bins);
    var w := WalkOf(r, Priced(r.bins));
    assert w == WalkOf(r.(amount := larger), Priced(r.bins));
    NaiveMonotone(w, r.pool.activeId, r.amount, larger, 0, 0);
  }

  /** The whole quote pays out no more than the bins it visited hold, and leaves nothing exactly when
      its walk ended inside a bin or it was given nothing. */
  lemma SwapConserves(r: Request)
    requires QuoteByEveryId(r).Ok?
    ensures WalkOf(r, Priced(r.bins)).Valid()
    ensures var q := QuoteByEveryId(r).value;
      && q.amountOut <= Liquidity(WalkOf(r, Priced(r.bins)), r.pool.activeId, q.binsCrossed)
      && q.remainingIn <= r.amount
      && (q.remainingIn == 0 <==> r.amount == 0 || EndsWithin(WalkOf(r, Priced(r.bins)), r.pool.activeId, r.amount, 0))
      && (!q.complete ==> 0 < q.remainingIn && !r.strict)
  {
    hide Liquidity, EndsWithin;
    PricedExactly(r.bins);
    NaiveConserves(WalkOf(r, Priced(r.bins)), r.pool.activeId, r.amount, 0, 0);
    if r.strict { NaivePartial(WalkOf(r, Priced(r.bins)), r.pool.activeId, r.amount, 0, 0); }
  }

  /** A strict walk never answers with a partial result. */
  lemma {:induction false} NaivePartial(w: Walk, current: int, remaining: nat, total: nat, crossed: nat)
    requires w.Valid() && Naive(w, current, remaining, total, crossed).Ok?
    requires w.strict
    ensures Naive(w, current, remaining, total, crossed).value.complete
    decreases Distance(w, current)
  {
    hide VisitBin, Walk.Live, FirstId, LastId;
    if remaining > 0 && InRange(current) {
      if w.Loaded(current) && w.Live(current) {
        var v := VisitBin(w, current, remaining, total);
        if v.Crosses? { NaivePartial(w, current + w.Step(), v.remaining, v.total, crossed + 1); }
      } else if w.Loaded(current) || (w.exhaustive && FirstId(w) <= current <= LastId(w)) {
        NaivePartial(w, current + w.Step(), remaining, total, crossed);
      }
    }
  }
}
