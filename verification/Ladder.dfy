/** Fixed-point power by bit decomposition: both concentrated-liquidity engines turn a tick
    into a square-root price by multiplying, for every bit set in the tick, an accumulator by
    a table entry and truncating after each product. */
module Ladder {
  import opened Arith

  /** The product over the bits of `n`, bit 0 belonging to entry `b` of the table. */
  function Product(f: nat -> nat, len: nat, q: nat, b: nat, n: nat, r: nat): nat
    requires b <= len && q > 0
    decreases len - b
  {
    if b == len then r
    else Product(f, len, q, b + 1, n / 2, if n % 2 == 1 then r * f(b) / q else r)
  }

  /** Truncated multiplication never loses the sum: the product of a sum is at least the sum
      of the products. */
  lemma {:induction false} Superadditive(f: nat -> nat, len: nat, q: nat, b: nat, n: nat, x: nat, y: nat)
    requires b <= len && q > 0
    ensures Product(f, len, q, b, n, x + y) >= Product(f, len, q, b, n, x) + Product(f, len, q, b, n, y)
    decreases len - b
  {
    if b == len {
    } else if n % 2 == 1 {
      var x', y', s := x * f(b) / q, y * f(b) / q, (x + y) * f(b) / q;
      FloorIff(x * f(b), q, x');
      FloorIff(y * f(b), q, y');
      assert (x' + y') * q == x' * q + y' * q;
      assert (x + y) * f(b) == x * f(b) + y * f(b);
      FloorIff((x + y) * f(b), q, x' + y');
      Superadditive(f, len, q, b + 1, n / 2, x', y');
      Superadditive(f, len, q, b + 1, n / 2, x' + y', s - x' - y');
    } else {
      Superadditive(f, len, q, b + 1, n / 2, x, y);
    }
  }

  /** `gap(b)` is a difference at table position `b` that every later multiplication still
      leaves at `gap(b + 1)` or more. */
  predicate GapTable(f: nat -> nat, len: nat, q: nat, gap: nat -> nat)
    requires q > 0
  {
    forall b: nat | b < len :: gap(b + 1) <= gap(b) && gap(b + 1) <= gap(b) * f(b) / q
  }

  lemma {:induction false} GapSurvives(f: nat -> nat, len: nat, q: nat, gap: nat -> nat, b: nat, n: nat, x: nat)
    requires q > 0 && GapTable(f, len, q, gap) && b <= len && gap(b) <= x
    ensures gap(len) <= Product(f, len, q, b, n, x)
    decreases len - b
  {
    if b == len {
    } else {
      MulMono(gap(b), x, f(b));
      FloorMono(gap(b) * f(b), x * f(b), q);
      GapSurvives(f, len, q, gap, b + 1, n / 2, if n % 2 == 1 then x * f(b) / q else x);
    }
  }

  /** `low(b)` is the accumulator after the entries below `b` were all multiplied in. */
  predicate LowTable(f: nat -> nat, len: nat, q: nat, low: nat -> nat)
    requires q > 0
  {
    low(0) == q && forall b: nat | b < len :: low(b + 1) == low(b) * f(b) / q
  }

  lemma Pow2Of19()
    ensures Pow2(19) == 524288
  {
    assert Pow2(10) == 1024;
    assert Pow2(15) == 32 * Pow2(10);
    assert Pow2(19) == 16 * Pow2(15);
  }

  /** A table whose entries lie below one: each entry stays below the product of all lower
      ones by a gap that survives. */
  predicate Falling(f: nat -> nat, len: nat, q: nat, low: nat -> nat, gap: nat -> nat)
    requires q > 0
  {
    && LowTable(f, len, q, low) && GapTable(f, len, q, gap)
    && forall b: nat | b < len :: f(b) + gap(b + 1) <= low(b)
  }

  /** A table whose entries lie above one. */
  predicate Rising(f: nat -> nat, len: nat, q: nat, low: nat -> nat, gap: nat -> nat)
    requires q > 0
  {
    && LowTable(f, len, q, low) && GapTable(f, len, q, gap)
    && forall b: nat | b < len :: low(b) + gap(b + 1) <= f(b)
  }

  /** One bit of the product, for an even and for an odd exponent. */
  lemma Bit(f: nat -> nat, len: nat, q: nat, b: nat, n: nat, r: nat)
    requires b < len && q > 0
    ensures n % 2 == 0 ==> Product(f, len, q, b, n, r) == Product(f, len, q, b + 1, n / 2, r)
    ensures n % 2 == 1 ==> Product(f, len, q, b, n, r) == Product(f, len, q, b + 1, n / 2, r * f(b) / q)
    ensures n % 2 == 0 ==> Product(f, len, q, b, n + 1, q) == Product(f, len, q, b + 1, n / 2, f(b))
    ensures n % 2 == 1 ==> Product(f, len, q, b, n + 1, r) == Product(f, len, q, b + 1, n / 2 + 1, r)
  {
    assert q * f(b) / q == f(b) by { FloorIff(q * f(b), q, f(b)); FloorIff(q * f(b), q, f(b) + 1); }
    if n % 2 == 1 { assert (n + 1) / 2 == n / 2 + 1; }
  }

  lemma BitsLeft(len: nat, b: nat, n: nat)
    requires b <= len && n + 1 < Pow2(len - b)
    ensures b < len && (n % 2 == 1 ==> n / 2 + 1 < Pow2(len - (b + 1)))
  {
  }

  /** Adding one to the exponent: the carry replaces a run of low entries by the next one. */
  lemma {:induction false} FallingStep(f: nat -> nat, len: nat, q: nat, low: nat -> nat, gap: nat -> nat, b: nat,
        n: nat)
    requires q > 0 && Falling(f, len, q, low, gap) && b <= len && n + 1 < Pow2(len - b)
    ensures Product(f, len, q, b, n + 1, q) + gap(len) <= Product(f, len, q, b, n, low(b))
    decreases len - b
  {
    hide Product, Pow2;
    BitsLeft(len, b, n);
    Bit(f, len, q, b, n, low(b));
    Bit(f, len, q, b, n, q);
    if n % 2 == 1 {
      FallingStep(f, len, q, low, gap, b + 1, n / 2);
    } else {
      var d := low(b) - f(b);
      Superadditive(f, len, q, b + 1, n / 2, f(b), d);
      GapSurvives(f, len, q, gap, b + 1, n / 2, d);
    }
  }

  lemma {:induction false} RisingStep(f: nat -> nat, len: nat, q: nat, low: nat -> nat, gap: nat -> nat, b: nat, n: nat)
    requires q > 0 && Rising(f, len, q, low, gap) && b <= len && n + 1 < Pow2(len - b)
    ensures Product(f, len, q, b, n, low(b)) + gap(len) <= Product(f, len, q, b, n + 1, q)
    decreases len - b
  {
    hide Product, Pow2;
    BitsLeft(len, b, n);
    Bit(f, len, q, b, n, low(b));
    Bit(f, len, q, b, n, q);
    if n % 2 == 1 {
      RisingStep(f, len, q, low, gap, b + 1, n / 2);
    } else {
      var d := f(b) - low(b);
      Superadditive(f, len, q, b + 1, n / 2, low(b), d);
      GapSurvives(f, len, q, gap, b + 1, n / 2, d);
    }
  }

  /** A worked evaluation: the successive halves of the exponent and the accumulators. */
  predicate Trace(f: nat -> nat, len: nat, q: nat, halves: nat -> nat, acc: nat -> nat)
    requires q > 0
  {
    forall b: nat | b < len ::
      && halves(b + 1) == halves(b) / 2
      && acc(b + 1) == if halves(b) % 2 == 1 then acc(b) * f(b) / q else acc(b)
  }

  lemma {:induction false} TraceProduct(f: nat -> nat, len: nat, q: nat, halves: nat -> nat, acc: nat -> nat, b: nat)
    requires q > 0 && Trace(f, len, q, halves, acc) && b <= len
    ensures Product(f, len, q, b, halves(b), acc(b)) == acc(len)
    decreases len - b
  {
    if b == len {
    } else {
      TraceProduct(f, len, q, halves, acc, b + 1);
    }
  }

  lemma {:induction false} EmptyProduct(f: nat -> nat, len: nat, q: nat, b: nat, r: nat)
    requires b <= len && q > 0
    ensures Product(f, len, q, b, 0, r) == r
    decreases len - b
  {
    if b == len {
    } else {
      EmptyProduct(f, len, q, b + 1, r);
    }
  }

  /** The source's loop: one pass over the table, testing the bits of `n` from the lowest. */
  method Accumulate(f: nat -> nat, len: nat, q: nat, n: nat) returns (ratio: nat)
    requires q > 0
    ensures ratio == Product(f, len, q, 0, n, q)
  {
    ratio := q;
    var bits := n;
    for b := 0 to len
      invariant Product(f, len, q, b, bits, ratio) == Product(f, len, q, 0, n, q)
    {
      if bits % 2 == 1 { ratio := ratio * f(b) / q; }
      bits := bits / 2;
    }
  }
}
