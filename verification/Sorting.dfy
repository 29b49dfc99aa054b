/** Stable sorting by an integer key, standing for the source's `sort((a, b) => a - b)`. */
module Sorting {
  predicate SortedBy<T>(xs: seq<T>, key: T -> int) {
    forall i, j | 0 <= i < j < |xs| :: key(xs[i]) <= key(xs[j])
  }

  function InsertBy<T>(xs: seq<T>, x: T, key: T -> int): (r: seq<T>)
    requires SortedBy(xs, key)
    ensures multiset(r) == multiset(xs) + multiset{x}
    ensures |r| == |xs| + 1 && SortedBy(r, key)
    ensures r[0] == x || (xs != [] && r[0] == xs[0] && key(xs[0]) <= key(x))
  {
    if xs == [] || key(x) < key(xs[0]) then [x] + xs
    else
      var rest := InsertBy(xs[1..], x, key);
      assert xs == [xs[0]] + xs[1..];
      assert forall i | 0 <= i < |rest| :: key(rest[0]) <= key(rest[i]);
      [xs[0]] + rest
  }

  function SortBy<T>(xs: seq<T>, key: T -> int): (r: seq<T>)
    ensures multiset(r) == multiset(xs) && SortedBy(r, key)
  {
    if xs == [] then []
    else
      var n := |xs| - 1;
      assert xs == xs[..n] + [xs[n]];
      InsertBy(SortBy(xs[..n], key), xs[n], key)
  }

  lemma SameElements<T>(xs: seq<T>, ys: seq<T>, x: T)
    requires multiset(xs) == multiset(ys)
    ensures x in xs <==> x in ys
  {
    assert x in multiset(xs) <==> x in multiset(ys);
  }

  /** Sorted distinct keys rise by at least `gap` per position when all are multiples of it. */
  lemma {:induction false} SpacedSpan(keys: seq<int>, gap: nat)
    requires gap > 0 && keys != []
    requires forall i | 0 <= i < |keys| :: keys[i] % gap == 0
    requires forall i, j | 0 <= i < j < |keys| :: keys[i] < keys[j]
    ensures keys[0] + (|keys| - 1) * gap <= keys[|keys| - 1]
  {
    var n := |keys| - 1;
    if n == 0 {
    } else {
      SpacedSpan(keys[..n], gap);
      MultiplesApart(keys[n - 1], keys[n], gap);
      assert (n - 1) * gap + gap == n * gap;
    }
  }

  lemma MultiplesApart(a: int, b: int, gap: nat)
    requires gap > 0 && a % gap == 0 && b % gap == 0 && a < b
    ensures a + gap <= b
  {
    var p, q := a / gap, b / gap;
    assert a == p * gap && b == q * gap;
    if q > p {
      assert (p + 1) * gap <= q * gap;
      assert (p + 1) * gap == p * gap + gap;
    }
  }

  /** Distinct integers from a range of `m` are at most `m`. */
  lemma {:induction false} DistinctWithin(keys: seq<int>, low: int, m: nat)
    requires forall i | 0 <= i < |keys| :: low <= keys[i] < low + m
    requires forall i, j | 0 <= i < j < |keys| :: keys[i] != keys[j]
    ensures |keys| <= m
    decreases m
  {
    if |keys| == 0 {
    } else {
      assert low <= keys[0] < low + m;
      var top := low + m - 1;
      if k :| 0 <= k < |keys| && keys[k] == top {
        DistinctWithin(keys[..k] + keys[k + 1..], low, m - 1);
      } else {
        DistinctWithin(keys, low, m - 1);
      }
    }
  }
}
