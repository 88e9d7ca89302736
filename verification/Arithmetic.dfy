/** Facts about whole numbers that several modules need. */
module Arithmetic {
  function Min(a: int, b: int): int {
    if a < b then a else b
  }

  lemma TimesMonotone(a: nat, b: nat, k: nat)
    requires a <= b
    ensures a * k <= b * k
  {
  }

  lemma ProductIsZero(a: nat, b: nat)
    requires b > 0
    ensures a * b == 0 <==> a == 0
  {
    if a > 0 {
      TimesMonotone(1, a, b);
    }
  }

  lemma SmallModulus(x: nat, n: nat)
    requires x < n
    ensures x % n == x
  {
  }

  lemma MultipleBounds(q: int, n: int)
    requires n > 0
    ensures q >= 1 ==> q * n >= n
    ensures q <= -1 ==> q * n <= -n
  {
  }

  lemma NextMultiple(x: int, n: nat)
    requires n > 0
    ensures (x + n) % n == x % n
  {
    var y := x + n;
    var q, r := x / n, x % n;
    var p, t := y / n, y % n;
    assert x == q * n + r && y == p * n + t;
    assert (p - q - 1) * n == p * n - q * n - n;
    MultipleBounds(p - q - 1, n);
  }

  lemma SameResidue(x: int, y: int, n: nat)
    requires n > 0 && x % n == y % n && x <= y < x + n
    ensures x == y
  {
    var q, p := x / n, y / n;
    assert x == q * n + x % n && y == p * n + y % n;
    assert (p - q) * n == p * n - q * n;
    MultipleBounds(p - q, n);
  }

  lemma QuotientIs(x: nat, n: nat, q: nat, r: nat)
    requires x == q * n + r && r < n
    ensures x / n == q
  {
    var p, t := x / n, x % n;
    assert x == p * n + t;
    assert (p - q) * n == p * n - q * n;
    MultipleBounds(p - q, n);
  }

  lemma DivideTwice(x: nat, a: nat, b: nat)
    requires a > 0 && b > 0
    ensures a * b > 0 && x / a / b == x / (a * b)
  {
    var q, r := x / a, x % a;
    var p, t := q / b, q % b;
    assert x == q * a + r && q == p * b + t;
    assert (p * b + t) * a == p * (a * b) + t * a;
    TimesMonotone(t, b - 1, a);
    assert (b - 1) * a == a * b - a;
    TimesMonotone(1, b, a);
    QuotientIs(x, a * b, p, t * a + r);
  }
}
