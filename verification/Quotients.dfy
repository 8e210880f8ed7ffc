/** Exact quotients of natural numbers, and how far truncation falls below them. */
module Quotients {
  function Floor(n: nat, d: nat): nat
    requires d > 0
  {
    n / d
  }

  function Quotient(n: nat, d: nat): real
    requires d > 0
  {
    n as real / d as real
  }

  lemma FloorBounds(n: nat, d: nat)
    requires d > 0
    ensures Floor(n, d) as real <= Quotient(n, d) < Floor(n, d) as real + 1.0
  {
    var q := n / d;
    assert q * d <= n < q * d + d;
    assert (q * d) as real == q as real * d as real;
    DivideReal(n as real, d as real, q as real);
  }

  lemma DivideReal(n: real, d: real, q: real)
    requires d > 0.0 && q * d <= n < q * d + d
    ensures q <= n / d < q + 1.0
  {
    var x := TimesBack(n, d);
    Between(x, n, d, q);
  }

  lemma TimesBack(n: real, d: real) returns (x: real)
    requires d > 0.0
    ensures x == n / d && x * d == n
  {
    x := n / d;
  }

  lemma Between(x: real, n: real, d: real, q: real)
    requires d > 0.0 && x * d == n && q * d <= n < q * d + d
    ensures q <= x < q + 1.0
  {
    NextProduct(q, d);
    CancelBelow(x, q + 1.0, d);
    CancelAtMost(q, x, d);
  }

  lemma NextProduct(q: real, d: real)
    ensures (q + 1.0) * d == q * d + d
  {
  }

  lemma CancelBelow(a: real, b: real, d: real)
    requires d > 0.0 && a * d < b * d
    ensures a < b
  {
    Cancel(a, b, d);
  }

  lemma CancelAtMost(a: real, b: real, d: real)
    requires d > 0.0 && a * d <= b * d
    ensures a <= b
  {
    Cancel(b, a, d);
  }

  lemma Cancel(a: real, b: real, d: real)
    requires d > 0.0
    ensures a * d < b * d <==> a < b
  {
    Distributes(a, b, d);
    if a < b {
      ProductIsPositive(b - a, d);
    } else {
      ProductIsNotNegative(a - b, d);
    }
  }

  lemma Distributes(a: real, b: real, d: real)
    ensures (b - a) * d == b * d - a * d && (a - b) * d == a * d - b * d
  {
  }

  lemma ProductIsPositive(a: real, b: real)
    requires a > 0.0 && b > 0.0
    ensures a * b > 0.0
  {
  }

  lemma ProductIsNotNegative(a: real, b: real)
    requires a >= 0.0 && b >= 0.0
    ensures a * b >= 0.0
  {
  }

  lemma DivideProduct(a: real, b: real, d: real)
    requires d > 0.0
    ensures a * b / d == a / d * b
  {
    var x := TimesBack(a, d);
    var y := TimesBack(a * b, d);
    Reorder(x, b, d);
    SameFactor(x * b, y, d);
  }

  lemma Reorder(a: real, b: real, c: real)
    ensures a * b * c == a * c * b
  {
  }

  lemma SameFactor(a: real, b: real, d: real)
    requires d > 0.0 && a * d == b * d
    ensures a == b
  {
    CancelAtMost(a, b, d);
    CancelAtMost(b, a, d);
  }

  lemma ScaledQuotient(n: nat, d: nat, scale: nat)
    requires d > 0
    ensures Quotient(n * scale, d) == Quotient(n, d) * scale as real
  {
    assert (n * scale) as real == n as real * scale as real;
    DivideProduct(n as real, scale as real, d as real);
  }

  lemma FloorOfMultiple(q: nat, d: nat)
    requires d > 0
    ensures Floor(q * d, d) == q
  {
    ScaledQuotient(d, d, q);
    QuotientOfItself(d);
    Commutes(q, d);
    FloorBounds(q * d, d);
    hide Floor, Quotient;
    NatBetween(Floor(q * d, d), q);
  }

  lemma QuotientOfItself(d: nat)
    requires d > 0
    ensures Quotient(d, d) == 1.0
  {
  }

  lemma Commutes(a: nat, b: nat)
    ensures a * b == b * a
  {
  }

  lemma NatBetween(p: nat, q: nat)
    requires p as real <= q as real < p as real + 1.0
    ensures p == q
  {
  }

  lemma QuotientIsPositive(n: nat, d: nat)
    requires n > 0 && d > 0
    ensures Quotient(n, d) > 0.0
  {
    var x := TimesBack(n as real, d as real);
    CancelBelow(0.0, x, d as real);
  }
}
