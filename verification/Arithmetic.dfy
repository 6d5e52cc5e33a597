/** Small arithmetic shared by the components: 64-bit wrap-around, powers of two, division by parts. */
module Arithmetic {
  type Int64 = x: int | -0x8000_0000_0000_0000 <= x < 0x8000_0000_0000_0000

  /** Two's complement of 64 bits. */
  function Wrapped(x: int): Int64 {
    var r := x % 0x1_0000_0000_0000_0000;
    if r >= 0x8000_0000_0000_0000 then r - 0x1_0000_0000_0000_0000 else r
  }

  function Min(a: int, b: int): int { if a <= b then a else b }

  function Max(a: int, b: int): int { if a >= b then a else b }

  function Pow2(n: nat): (p: nat)
    ensures p >= 1
  {
    if n == 0 then 1 else 2 * Pow2(n - 1)
  }

  lemma {:induction false} Pow2Grows(m: nat, n: nat)
    requires m <= n
    ensures Pow2(m) <= Pow2(n)
  {
    if m < n { Pow2Grows(m, n - 1); }
  }

  lemma TimesGrow(x: int, y: int, q: nat)
    requires x <= y
    ensures x * q <= y * q
  {
  }

  lemma QuotientIs(n: nat, q: nat, d: int, r: nat)
    requires q > 0 && n == d * q + r && r < q
    ensures n / q == d && n % q == r
  {
    var e := n / q;
    assert n == e * q + n % q;
    if e < d { TimesGrow(e + 1, d, q); }
    if e > d { TimesGrow(d + 1, e, q); }
  }

  /** Quotient and remainder together grow with the dividend. */
  lemma DivGrows(a: nat, b: nat, q: nat)
    requires a < b && q > 0
    ensures a / q < b / q || (a / q == b / q && a % q < b % q)
  {
    var d, e := a / q, b / q;
    assert a == d * q + a % q && b == e * q + b % q;
    if e < d { TimesGrow(e + 1, d, q); }
  }

  lemma AtMostQuotient(n: int, t: int, m: int)
    requires m > 0 && t >= n * m
    ensures n <= t / m
  {
    var q := t / m;
    assert t == q * m + t % m;
    assert q < n ==> (q + 1) * m <= n * m;
  }
}
