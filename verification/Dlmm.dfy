/** The DLMM exact-in walk: the walk over every bin id as the reference, the optimised walk that
    bisects sorted live ids, and what every walk keeps. */
module Dlmm {
  import opened Arith
  import opened Outcomes
  import opened DlmmBin

  datatype Quote = Quote(amountOut: nat, remainingIn: nat, binsCrossed: nat, complete: bool, missingBinId: Option<int>)

  datatype DlmmError = InvalidInput | OutputOverflow | InsufficientArrays(partial: Quote)

  function ArrayOf(id: int): int { id / ARRAY_SIZE }

  function Least(xs: seq<int>): (m: int)
    requires xs != []
    ensures m in xs && forall x | x in xs :: m <= x
  {
    if |xs| == 1 then xs[0]
    else
      var m := Least(xs[1..]);
      assert xs == [xs[0]] + xs[1..];
      if xs[0] <= m then xs[0] else m
  }

  function Greatest(xs: seq<int>): (m: int)
    requires xs != []
    ensures m in xs && forall x | x in xs :: x <= m
  {
    if |xs| == 1 then xs[0]
    else
      var m := Greatest(xs[1..]);
      assert xs == [xs[0]] + xs[1..];
      if xs[0] >= m then xs[0] else m
  }

  function FirstId(w: Walk): int { if w.loaded == [] then 0 else Least(w.loaded) * ARRAY_SIZE }

  function LastId(w: Walk): int { if w.loaded == [] then -1 else Greatest(w.loaded) * ARRAY_SIZE + 69 }

  /** First id of the next array in the direction of the walk. */
  function ArrayBoundary(w: Walk, id: int): int {
    if w.swapForY then ArrayOf(id) * ARRAY_SIZE - 1 else (ArrayOf(id) + 1) * ARRAY_SIZE
  }

  function Distance(w: Walk, id: int): nat {
    Max(0, if w.swapForY then id - MIN_BIN + 1 else MAX_BIN - id + 1)
  }

  predicate InRange(id: int) { MIN_BIN <= id <= MAX_BIN }

  /** The reference walk: one id at a time, loaded or not, empty or not. */
  function Naive(w: Walk, current: int, remaining: nat, total: nat, crossed: nat): (r: Result<Quote, DlmmError>)
    requires w.Valid()
    decreases Distance(w, current)
  {
    if remaining == 0 || !InRange(current) then Ok(Quote(total, remaining, crossed + 1, true, None))
    else if !w.Loaded(current) then
      if w.exhaustive then
        if current < FirstId(w) || LastId(w) < current then Ok(Quote(total, remaining, crossed + 1, true, None))
        else Naive(w, current + w.Step(), remaining, total, crossed)
      else
        var partial := Quote(total, remaining, crossed, false, Some(current));
        if w.strict then Err(InsufficientArrays(partial)) else Ok(partial)
    else if !w.Live(current) then Naive(w, current + w.Step(), remaining, total, crossed)
    else
      var v := VisitBin(w, current, remaining, total);
      if v.total > U64 then Err(OutputOverflow)
      else if v.Ends? then Ok(Quote(v.total, 0, crossed + 1, true, None))
      else Naive(w, current + w.Step(), v.remaining, v.total, crossed + 1)
  }

  /** Strictly further along in the direction of the walk. */
  predicate Beyond(w: Walk, id: int, next: int) { if w.swapForY then next < id else id < next }

  /** Every id from `id` up to but not including `next` can be stepped over. */
  ghost predicate Skippable(w: Walk, id: int, next: int)
    requires w.Valid()
  {
    forall k | (k == id || Beyond(w, id, k)) && Beyond(w, k, next) ::
      if w.Loaded(k) then !w.Live(k) else w.exhaustive && FirstId(w) <= k <= LastId(w)
  }

  /** Jumping over ids that change nothing gives what walking through them gives. */
  lemma {:induction false} Jump(w: Walk, id: int, next: int, remaining: nat, total: nat, crossed: nat)
    requires w.Valid() && InRange(id) && Beyond(w, id, next) && Skippable(w, id, next)
    ensures Naive(w, id, remaining, total, crossed) == Naive(w, next, remaining, total, crossed)
    decreases Distance(w, id), if w.swapForY then id - next else next - id
  {
    hide VisitBin, Walk.Live, FirstId, LastId;
    if remaining > 0 {
      var step := id + w.Step();
      if step != next && InRange(step) { Jump(w, step, next, remaining, total, crossed); }
    }
  }

  /** A walk never gives back what it has taken out. */
  lemma {:induction false} NaiveGrows(w: Walk, current: int, remaining: nat, total: nat, crossed: nat)
    requires w.Valid() && Naive(w, current, remaining, total, crossed).Ok?
    ensures total <= Naive(w, current, remaining, total, crossed).value.amountOut
    decreases Distance(w, current)
  {
    hide VisitBin, Walk.Live, FirstId, LastId;
    if remaining > 0 && InRange(current) {
      if w.Loaded(current) && w.Live(current) {
        var v := VisitBin(w, current, remaining, total);
        if v.Crosses? { NaiveGrows(w, current + w.Step(), v.remaining, v.total, crossed + 1); }
      } else if w.Loaded(current) || (w.exhaustive && FirstId(w) <= current <= LastId(w)) {
        NaiveGrows(w, current + w.Step(), remaining, total, crossed);
      }
    }
  }

  /** A larger input never yields a smaller output, across tiers, fee modes, crossings and
      partial results. */
  lemma {:induction false} NaiveMonotone(w: Walk, current: int, a: nat, b: nat, total: nat, crossed: nat)
    requires w.Valid() && a <= b
    requires Naive(w, current, a, total, crossed).Ok? && Naive(w, current, b, total, crossed).Ok?
    ensures Naive(w, current, a, total, crossed).value.amountOut <= Naive(w, current, b, total, crossed).value.amountOut
    decreases Distance(w, current)
  {
    hide VisitBin, Walk.Live, FirstId, LastId;
    if a == 0 || !InRange(current) {
      NaiveGrows(w, current, b, total, crossed);
    } else if w.Loaded(current) && w.Live(current) {
      VisitMonotone(w, current, a, b, total);
      var u, v := VisitBin(w, current, a, total), VisitBin(w, current, b, total);
      if u.Crosses? {
        NaiveMonotone(w, current + w.Step(), u.remaining, v.remaining, u.total, crossed + 1);
      } else if v.Crosses? {
        NaiveGrows(w, current + w.Step(), v.remaining, v.total, crossed + 1);
      }
    } else if w.Loaded(current) || (w.exhaustive && FirstId(w) <= current <= LastId(w)) {
      NaiveMonotone(w, current + w.Step(), a, b, total, crossed);
    }
  }

  /** Liquidity of the next `n` live loaded bins along the walk. */
  function Liquidity(w: Walk, current: int, n: nat): nat
    decreases Distance(w, current)
  {
    if n == 0 || !InRange(current) then 0
    else if w.Loaded(current) && w.Live(current) then Total(w.Tiers(current)) + Liquidity(w, current + w.Step(), n - 1)
    else Liquidity(w, current + w.Step(), n)
  }

  /** The walk from here ends inside a bin: it comes to a live bin whose visit uses up its input. */
  predicate EndsWithin(w: Walk, current: int, remaining: nat, total: nat)
    requires w.Valid()
    decreases Distance(w, current)
  {
    if remaining == 0 || !InRange(current) then false
    else if !w.Loaded(current) then
      w.exhaustive && FirstId(w) <= current <= LastId(w) && EndsWithin(w, current + w.Step(), remaining, total)
    else if !w.Live(current) then EndsWithin(w, current + w.Step(), remaining, total)
    else
      var v := VisitBin(w, current, remaining, total);
      v.Ends? || EndsWithin(w, current + w.Step(), v.remaining, v.total)
  }

  /** A walk is left with nothing exactly when it began with nothing or ended inside a bin. */
  lemma {:induction false} NaiveExhausts(w: Walk, current: int, remaining: nat, total: nat, crossed: nat)
    requires w.Valid() && Naive(w, current, remaining, total, crossed).Ok?
    ensures Naive(w, current, remaining, total, crossed).value.remainingIn == 0
       <==> remaining == 0 || EndsWithin(w, current, remaining, total)
    decreases Distance(w, current)
  {
    hide VisitBin, Walk.Live, FirstId, LastId;
    if remaining == 0 || !InRange(current) {
    } else if w.Loaded(current) && w.Live(current) {
      var v := VisitBin(w, current, remaining, total);
      if v.Crosses? { NaiveExhausts(w, current + w.Step(), v.remaining, v.total, crossed + 1); }
    } else if w.Loaded(current) || (w.exhaustive && FirstId(w) <= current <= LastId(w)) {
      NaiveExhausts(w, current + w.Step(), remaining, total, crossed);
    }
  }

  /** Conservation: the output is at most what the bins visited hold, the input left never
      exceeds the input, and it is zero exactly where the walk ended inside a bin or began empty. */
  lemma {:induction false} NaiveConserves(w: Walk, current: int, remaining: nat, total: nat, crossed: nat)
    requires w.Valid() && Naive(w, current, remaining, total, crossed).Ok?
    ensures var q := Naive(w, current, remaining, total, crossed).value;
      && crossed <= q.binsCrossed
      && q.amountOut <= total + Liquidity(w, current, q.binsCrossed - crossed)
      && q.remainingIn <= remaining
      && (q.remainingIn == 0 <==> remaining == 0 || EndsWithin(w, current, remaining, total))
      && (!q.complete ==> 0 < q.remainingIn && q.missingBinId.Some? && !w.Loaded(q.missingBinId.value))
      && (q.complete ==> q.missingBinId.None?)
    decreases Distance(w, current)
  {
    hide VisitBin, Walk.Live, Walk.Tiers, Total, EndsWithin;
    NaiveExhausts(w, current, remaining, total, crossed);
    if remaining > 0 && InRange(current) {
      if w.Loaded(current) && w.Live(current) {
        var v := VisitBin(w, current, remaining, total);
        VisitConserves(w, current, remaining, total);
        if v.Crosses? { NaiveConserves(w, current + w.Step(), v.remaining, v.total, crossed + 1); }
      } else if w.Loaded(current) || (w.exhaustive && FirstId(w) <= current <= LastId(w)) {
        NaiveConserves(w, current + w.Step(), remaining, total, crossed);
      }
    }
  }

  /** The ids to jump to, kept sorted. */
  ghost predicate LiveIds(w: Walk, ids: seq<int>) {
    && (forall i, j | 0 <= i < j < |ids| :: ids[i] <= ids[j])
    && (forall id :: id in ids <==> w.Live(id))
  }

  /** The next stop after an empty bin: a live id of the same array, or the array's boundary. */
  method AdvanceEmpty(w: Walk, ids: seq<int>, current: int) returns (next: int)
    requires w.Valid() && LiveIds(w, ids) && w.Loaded(current) && !w.Live(current)
    ensures Beyond(w, current, next) && Skippable(w, current, next)
  {
    var lo, hi := 0, |ids|;
    while lo < hi
      invariant 0 <= lo <= hi <= |ids|
      invariant forall i | 0 <= i < lo :: if w.swapForY then ids[i] < current else ids[i] <= current
      invariant forall i | hi <= i < |ids| :: if w.swapForY then current <= ids[i] else current < ids[i]
    {
      var middle := (lo + hi) / 2;
      if if w.swapForY then ids[middle] < current else ids[middle] <= current {
        lo := middle + 1;
      } else {
        hi := middle;
      }
    }
    var at := if w.swapForY then lo - 1 else lo;
    next := if 0 <= at < |ids| && ArrayOf(ids[at]) == ArrayOf(current) then ids[at] else ArrayBoundary(w, current);
    forall k | (k == current || Beyond(w, current, k)) && Beyond(w, k, next)
      ensures w.Loaded(k) && !w.Live(k)
    {
      assert ArrayOf(k) == ArrayOf(current);
      assert k !in ids;
    }
  }

  /** The optimised walk from given bookkeeping agrees with the reference walk. */
  method WalkBins(w: Walk, ids: seq<int>, start: int, amount: nat) returns (r: Result<Quote, DlmmError>)
    requires w.Valid() && LiveIds(w, ids)
    ensures r == Naive(w, start, amount, 0, 0)
  {
    hide VisitBin, Walk.Live, LiveIds;
    var current, remaining, total, crossed := start, amount, 0, 0;
    var lo, hi := FirstId(w), LastId(w);
    while remaining > 0 && MIN_BIN <= current <= MAX_BIN
      invariant Naive(w, current, remaining, total, crossed) == Naive(w, start, amount, 0, 0)
      decreases Distance(w, current)
    {
      if !w.Loaded(current) {
        if w.exhaustive {
          if current < lo || current > hi { break; }
          BoundarySkips(w, current);
          Jump(w, current, ArrayBoundary(w, current), remaining, total, crossed);
          current := ArrayBoundary(w, current);
          continue;
        }
        var partial := Quote(total, remaining, crossed, false, Some(current));
        return if w.strict then Err(InsufficientArrays(partial)) else Ok(partial);
      }
      if !w.Live(current) {
        var next := AdvanceEmpty(w, ids, current);
        Jump(w, current, next, remaining, total, crossed);
        current := next;
        continue;
      }
      var v := VisitBin(w, current, remaining, total);
      if v.total > U64 { return Err(OutputOverflow); }
      if v.Ends? { return Ok(Quote(v.total, 0, crossed + 1, true, None)); }
      remaining, total, crossed, current := v.remaining, v.total, crossed + 1, current + w.Step();
    }
    r := Ok(Quote(total, remaining, crossed + 1, true, None));
  }

  /** A whole unloaded array between the loaded ones can be stepped over. */
  lemma BoundarySkips(w: Walk, current: int)
    requires w.Valid() && !w.Loaded(current) && w.exhaustive && FirstId(w) <= current <= LastId(w)
    ensures Beyond(w, current, ArrayBoundary(w, current)) && Skippable(w, current, ArrayBoundary(w, current))
  {
    forall k | (k == current || Beyond(w, current, k)) && Beyond(w, k, ArrayBoundary(w, current))
      ensures !w.Loaded(k) && FirstId(w) <= k <= LastId(w)
    {
      assert ArrayOf(k) == ArrayOf(current);
    }
  }
}
