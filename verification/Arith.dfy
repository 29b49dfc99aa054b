/** Integer division facts shared by every quote engine.  All quotients in the engines are of
    non-negative numbers, where the truncating division of the source and Dafny's `/` agree. */
module Arith {

  const U64: nat := 0xffff_ffff_ffff_ffff
  const U128: nat := 0xffff_ffff_ffff_ffff_ffff_ffff_ffff_ffff
  const Q64: nat := 0x1_0000_0000_0000_0000

  function Min(a: int, b: int): int { if a < b then a else b }

  function Max(a: int, b: int): int { if a > b then a else b }

  function Abs(a: int): nat { if a < 0 then -a else a }

  /** A value that fits an unsigned 64-bit word. */
  predicate Word(value: int) { 0 <= value <= U64 }

  function Pow2(k: nat): (p: nat)
    ensures p > 0
  {
    if k == 0 then 1 else 2 * Pow2(k - 1)
  }

  /** The `ceil` helper that every engine declares for itself. */
  function Ceil(n: nat, d: nat): nat
    requires d > 0
  {
    (n + d - 1) / d
  }

  /** A truncated product quotient. */
  function MulDiv(a: nat, b: nat, d: nat): nat
    requires d > 0
  {
    a * b / d
  }

  lemma MulMono(a: int, b: int, c: int)
    requires a <= b && 0 <= c
    ensures a * c <= b * c && c * a <= c * b
  {
  }

  lemma Distribute(a: int, b: int, c: int)
    ensures a * (b + c) == a * b + a * c && a * (b - c) == a * b - a * c
  {
  }

  /** The constant-product comparison with the output taken out of the reserve. */
  lemma TakenOut(out: int, quote: int, net: int, base: int)
    ensures out * (quote + net) <= net * base <==> out * quote <= net * (base - out)
  {
    Distribute(out, quote, net);
    Distribute(net, base, out);
  }

  lemma MulStrict(a: int, b: int, c: int)
    requires a < b && 0 < c
    ensures a * c < b * c && c * a < c * b
  {
  }

  lemma SquareMono(a: nat, b: nat)
    requires a <= b
    ensures a * a <= b * b
  {
    MulMono(a, b, a);
    MulMono(a, b, b);
  }

  /** A volatility charge: `control` times the square of a scaled volatility, ceiled. */
  function SquareCharge(control: nat, volatility: nat, scale: nat, d: nat): nat
    requires d > 0
  {
    Ceil(control * (volatility * scale) * (volatility * scale), d)
  }

  lemma SquareChargeIff(control: nat, volatility: nat, scale: nat, d: nat, charge: int)
    requires d > 0
    ensures var scaled := volatility * scale;
      SquareCharge(control, volatility, scale, d) <= charge <==> control * scaled * scaled <= charge * d
  {
    CeilIff(control * (volatility * scale) * (volatility * scale), d, charge);
  }

  lemma SquareChargeMono(control: nat, a: nat, b: nat, scale: nat, d: nat)
    requires d > 0 && a <= b
    ensures SquareCharge(control, a, scale, d) <= SquareCharge(control, b, scale, d)
  {
    var x, y := a * scale, b * scale;
    MulMono(a, b, scale);
    SquareMono(x, y);
    MulMono(x * x, y * y, control);
    assert control * x * x == control * (x * x) && control * y * y == control * (y * y);
    CeilMono(control * x * x, control * y * y, d);
  }

  /** A product comparison can be cancelled by a positive factor. */
  lemma MulCancel(a: int, b: int, c: int)
    requires a * c <= b * c && 0 < c
    ensures a <= b
  {
    if a > b { MulStrict(b, a, c); }
  }

  lemma MulCancelStrict(a: int, b: int, c: int)
    requires a * c < b * c && 0 <= c
    ensures a < b
  {
    if a >= b { MulMono(b, a, c); }
  }

  /** The truncated quotient is the greatest integer whose product with the divisor fits. */
  lemma FloorIff(n: nat, d: nat, q: int)
    requires d > 0
    ensures q <= n / d <==> q * d <= n
    ensures n / d * d <= n < (n / d + 1) * d
  {
    var f := n / d;
    assert n == d * f + n % d;
    if q <= f {
      MulMono(q, f, d);
    } else {
      MulMono(f + 1, q, d);
    }
  }

  /** A quotient rounded down, of a number of either sign. */
  lemma GroupIff(n: int, d: nat)
    requires d > 0
    ensures n / d * d <= n < (n / d + 1) * d
  {
    assert n == d * (n / d) + n % d;
    assert (n / d + 1) * d == n / d * d + d;
  }

  /** The ceiled quotient is the least integer whose product with the divisor covers. */
  lemma CeilIff(n: nat, d: nat, q: int)
    requires d > 0
    ensures Ceil(n, d) <= q <==> n <= q * d
    ensures n <= Ceil(n, d) * d < n + d
  {
    FloorIff(n + d - 1, d, q + 1);
    assert (q + 1) * d == q * d + d;
    assert (Ceil(n, d) + 1) * d == Ceil(n, d) * d + d;
  }

  lemma FloorMono(m: nat, n: nat, d: nat)
    requires d > 0 && m <= n
    ensures m / d <= n / d
  {
    FloorIff(m, d, 0);
    FloorIff(n, d, m / d);
  }

  lemma CeilMono(m: nat, n: nat, d: nat)
    requires d > 0 && m <= n
    ensures Ceil(m, d) <= Ceil(n, d)
  {
    FloorMono(m + d - 1, n + d - 1, d);
  }
}
