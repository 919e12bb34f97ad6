/** Products, quotients and remainders of numbers that are not literals. */
module Arithmetic {
  lemma MulLess(a: int, b: int, q: int)
    requires a < b && q >= 1
    ensures a * q < b * q
  {
  }

  lemma MulAtLeast(a: int, b: int, q: int)
    requires a <= b && q >= 1
    ensures a * q <= b * q
  {
  }

  lemma ScaleProduct(p: int, q: int)
    ensures (256 * p) * q == 256 * (p * q)
  {
  }

  lemma Distribute(a: int, x: int, p: int, q: int)
    ensures (a + x * p) * q == a * q + x * (p * q)
  {
  }

  lemma NonZero(x: nat, p: nat)
    requires p >= 1
    ensures (x == 0) == (x * p == 0)
  {
    if x >= 1 {
      MulAtLeast(1, x, p);
    }
  }

  lemma SmallMod(a: nat, m: nat)
    requires a < m
    ensures a % m == a
  {
  }

  lemma ModUnique(x: nat, m: nat, a: int, r: nat)
    requires m >= 1 && x == a * m + r && r < m
    ensures x % m == r
  {
    var a', r' := x / m, x % m;
    assert x == a' * m + r';
    assert (a - a') * m == r' - r;
    if a > a' {
      MulAtLeast(1, a - a', m);
    } else if a < a' {
      MulAtLeast(a - a', -1, m);
    }
  }

  lemma ModShift(x: int, m: nat)
    requires m > 0 && 0 - m <= x < 0
    ensures x % m == (x + m) % m
  {
    var q, r := x / m, x % m;
    assert x == q * m + r;
    if q >= 0 {
      MulAtLeast(0, q, m);
    } else if q <= -2 {
      MulAtLeast(q, -2, m);
    } else {
      SmallMod(x + m, m);
    }
  }

  lemma DivExact(a: int, q: int)
    requires q >= 1
    ensures a * q / q == a
  {
    var d, r := a * q / q, a * q % q;
    assert d * q + r == a * q;
    assert (a - d) * q == r;
    if a > d {
      MulAtLeast(1, a - d, q);
    } else if a < d {
      MulAtLeast(a - d, -1, q);
    }
  }

  lemma ModScale(x: nat, p: nat, q: nat)
    requires p >= 1 && q >= 1
    ensures p * q >= 1 && x * q % (p * q) == x % p * q
  {
    var a, r := x / p, x % p;
    assert x == a * p + r;
    MulLess(r, p, q);
    MulAtLeast(0, r, q);
    assert x * q == a * (p * q) + r * q by {
      Distribute(r, a, p, q);
    }
    ModUnique(x * q, p * q, a, r * q);
  }

  lemma DivScale(x: nat, p: nat, q: nat)
    requires p >= 1 && q >= 1
    ensures p * q >= 1 && x * q / (p * q) == x / p
  {
    ModScale(x, p, q);
    var a, r := x / p, x % p;
    Distribute(r, a, p, q);
    var a' := x * q / (p * q);
    assert a' * (p * q) == a * (p * q);
    assert (a' - a) * (p * q) == 0;
    if a' > a {
      MulAtLeast(1, a' - a, p * q);
    } else if a' < a {
      MulAtLeast(a' - a, -1, p * q);
    }
  }

  lemma MultipleMod(q: nat, n: nat)
    requires n > 0
    ensures q * n % n == 0
  {
    MulAtLeast(0, q, n);
    ModUnique(q * n, n, q, 0);
  }
}
