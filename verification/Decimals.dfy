/** Fixed-width decimal numerals and the byte order on texts, shared by the text formats. */
module Decimals {
  import opened Arithmetic

  function Pow10(w: nat): (p: nat)
    ensures p >= 1
  {
    if w == 0 then 1 else 10 * Pow10(w - 1)
  }

  predicate IsDigit(c: char) { '0' <= c <= '9' }

  predicate AllDigits(s: string) { forall c <- s :: IsDigit(c) }

  function DigitChar(d: nat): char
    requires d < 10
  {
    '0' + d as char
  }

  function DigitValue(c: char): nat
    requires IsDigit(c)
  {
    (c - '0') as nat
  }

  /** The last w decimal digits of n, zero-padded on the left. */
  function Digits(n: nat, w: nat): string {
    if w == 0 then "" else Digits(n / 10, w - 1) + [DigitChar(n % 10)]
  }

  function Value(s: string): nat
    requires AllDigits(s)
  {
    if s == "" then 0 else 10 * Value(s[..|s| - 1]) + DigitValue(s[|s| - 1])
  }

  lemma {:induction false} DigitsShape(n: nat, w: nat)
    ensures |Digits(n, w)| == w && AllDigits(Digits(n, w))
  {
    if w > 0 { DigitsShape(n / 10, w - 1); }
  }

  lemma {:induction false} ValueOfDigits(n: nat, w: nat)
    requires n < Pow10(w)
    ensures AllDigits(Digits(n, w)) && Value(Digits(n, w)) == n
  {
    DigitsShape(n, w);
    if w > 0 {
      ValueOfDigits(n / 10, w - 1);
      assert Digits(n, w)[..w - 1] == Digits(n / 10, w - 1) by { DigitsShape(n / 10, w - 1); }
    }
  }

  lemma {:induction false} DigitsOfValue(s: string)
    requires AllDigits(s)
    ensures Value(s) < Pow10(|s|) && Digits(Value(s), |s|) == s
  {
    if s != "" {
      var front, d := s[..|s| - 1], DigitValue(s[|s| - 1]);
      DigitsOfValue(front);
      assert Value(s) / 10 == Value(front) && Value(s) % 10 == d;
      assert Value(s) <= 10 * (Pow10(|s| - 1) - 1) + 9;
      assert DigitChar(d) == s[|s| - 1];
    }
  }

  lemma DivTwice(n: nat, p: nat)
    requires p > 0
    ensures n / 10 / p == n / (10 * p)
  {
    var q := n / (10 * p);
    var r := n % (10 * p);
    assert n == q * (10 * p) + r;
    assert n == 10 * (q * p) + r;
    assert n / 10 == q * p + r / 10;
    assert r / 10 < p;
    QuotientIs(q * p + r / 10, p, q, r / 10);
  }

  /** The i-th of w characters is the decimal digit of its place. */
  lemma {:induction false} DigitAt(n: nat, w: nat, i: nat)
    requires i < w
    ensures |Digits(n, w)| == w && Digits(n, w)[i] == "0123456789"[n / Pow10(w - 1 - i) % 10]
  {
    DigitsShape(n, w);
    DigitsShape(n / 10, w - 1);
    if i < w - 1 {
      DigitAt(n / 10, w - 1, i);
      DivTwice(n, Pow10(w - 2 - i));
      assert Digits(n, w)[i] == Digits(n / 10, w - 1)[i];
    } else {
      assert Pow10(0) == 1;
    }
  }

  /** The length of the run of digits a text starts with. */
  function DigitRun(s: string): (n: nat)
    ensures n <= |s| && AllDigits(s[..n]) && (n < |s| ==> !IsDigit(s[n]))
  {
    if s == "" || !IsDigit(s[0]) then 0 else
    var n := 1 + DigitRun(s[1..]);
    assert s[..n] == [s[0]] + s[1..][..n - 1];
    n
  }

  lemma {:induction false} RunOver(ds: string, rest: string)
    requires AllDigits(ds) && (rest == "" || !IsDigit(rest[0]))
    ensures DigitRun(ds + rest) == |ds|
  {
    if ds == "" {
      assert ds + rest == rest;
    } else {
      RunOver(ds[1..], rest);
      assert (ds + rest)[1..] == ds[1..] + rest;
    }
  }

  /** The numeral without leading zeros. */
  function Numeral(n: nat): string {
    if n < 10 then [DigitChar(n)] else Numeral(n / 10) + [DigitChar(n % 10)]
  }

  lemma {:induction false} ValueOfNumeral(n: nat)
    ensures Numeral(n) != "" && AllDigits(Numeral(n)) && Value(Numeral(n)) == n
  {
    if n < 10 {
      assert Value([]) == 0;
      assert Numeral(n)[..0] == [];
    } else {
      ValueOfNumeral(n / 10);
      assert Numeral(n)[..|Numeral(n)| - 1] == Numeral(n / 10);
    }
  }

  /** A numeral is the digits of its number, without leading zeros. */
  lemma {:induction false} NumeralIsDigits(n: nat)
    ensures var w := |Numeral(n)|; w >= 1 && Numeral(n) == Digits(n, w) && (w > 1 ==> Pow10(w - 1) <= n)
  {
    if n < 10 {
      assert Digits(n, 1) == Digits(n / 10, 0) + [DigitChar(n)];
    } else {
      NumeralIsDigits(n / 10);
    }
  }

  lemma Regroup(a: string, b: string, c: string)
    ensures a + b + c == a + (b + c)
  {
  }

  // ---------------------------------------------------------------- byte order

  predicate TextLess(a: string, b: string) {
    b != "" && (a == "" || a[0] < b[0] || (a[0] == b[0] && TextLess(a[1..], b[1..])))
  }

  lemma {:induction false} LessIsAsymmetric(a: string, b: string)
    requires TextLess(a, b)
    ensures !TextLess(b, a)
  {
    if a != "" && a[0] == b[0] { LessIsAsymmetric(a[1..], b[1..]); }
  }

  /** Texts whose initial parts of one length differ compare as those parts do. */
  lemma {:induction false} LessAtFront(p: string, q: string, x: string, y: string)
    requires |p| == |q| && TextLess(p, q)
    ensures TextLess(p + x, q + y)
  {
    if p[0] == q[0] {
      LessAtFront(p[1..], q[1..], x, y);
      assert (p + x)[1..] == p[1..] + x && (q + y)[1..] == q[1..] + y;
    }
  }

  lemma {:induction false} LessBehind(p: string, x: string, y: string)
    requires TextLess(x, y)
    ensures TextLess(p + x, p + y)
  {
    if p == "" {
      assert p + x == x && p + y == y;
    } else {
      LessBehind(p[1..], x, y);
      assert (p + x)[1..] == p[1..] + x && (p + y)[1..] == p[1..] + y;
    }
  }

  lemma {:induction false} DigitsOrder(a: nat, b: nat, w: nat)
    requires a < b < Pow10(w)
    ensures TextLess(Digits(a, w), Digits(b, w))
  {
    DigitsShape(a / 10, w - 1);
    DigitsShape(b / 10, w - 1);
    if a / 10 < b / 10 {
      DigitsOrder(a / 10, b / 10, w - 1);
      LessAtFront(Digits(a / 10, w - 1), Digits(b / 10, w - 1), [DigitChar(a % 10)], [DigitChar(b % 10)]);
    } else {
      assert a / 10 == b / 10 && a % 10 < b % 10;
      LessBehind(Digits(a / 10, w - 1), [DigitChar(a % 10)], [DigitChar(b % 10)]);
    }
  }
}
