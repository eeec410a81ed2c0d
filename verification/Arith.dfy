/** Division, remainder and counting facts used by several programs. */
module Arith {
  lemma MulAtLeast(p: int, d: int)
    requires p > 0 && d >= 1
    ensures p * d >= p
  {
  }

  lemma QuotientUnique(p: int, q: int, r: int, q': int, r': int)
    requires p * q + r == p * q' + r' && 0 <= r < p && 0 <= r' < p
    ensures q == q' && r == r'
  {
    assert p * (q - q') == p * q - p * q' && p * (q' - q) == p * q' - p * q;
    if q > q' {
      MulAtLeast(p, q - q');
    } else if q' > q {
      MulAtLeast(p, q' - q);
    }
  }

  lemma DivModUnique(x: int, p: int, q: int, r: int)
    requires p > 0 && x == p * q + r && 0 <= r < p
    ensures x / p == q && x % p == r
  {
    QuotientUnique(p, q, r, x / p, x % p);
  }

  /** Adding a multiple of the divisor leaves the remainder alone. */
  lemma ModAddMultiple(x: int, p: int, k: int)
    requires p > 0
    ensures (x + p * k) % p == x % p
  {
    assert x + p * k == p * (x / p + k) + x % p;
    DivModUnique(x + p * k, p, x / p + k, x % p);
  }

  lemma NoMoreThan(p: int, q: int, r: int, n: int)
    requires p * n <= p * q + r && 0 <= r < p
    ensures n <= q
  {
    assert p * (n - q) == p * n - p * q;
    if n > q {
      MulAtLeast(p, n - q);
    }
  }

  /** The quotient bounds what can be multiplied back. */
  lemma AtMostQuotient(n: nat, p: nat, x: nat)
    requires p > 0 && p * n <= x
    ensures n <= x / p
  {
    NoMoreThan(p, x / p, x % p, n);
  }

  lemma SubsetSize(xs: set<nat>, ys: set<nat>)
    requires xs <= ys
    ensures |xs| <= |ys|
  {
    assert ys == xs + (ys - xs) && |xs + (ys - xs)| == |xs| + |ys - xs|;
  }

  function Pow2(j: nat): (d: nat)
    ensures d > 0
  {
    if j == 0 then 1 else 2 * Pow2(j - 1)
  }

  lemma {:induction false} Pow2Adds(i: nat, j: nat)
    ensures Pow2(i + j) == Pow2(i) * Pow2(j)
  {
    if i > 0 {
      Pow2Adds(i - 1, j);
    }
  }

  lemma {:induction false} Pow2Grows(i: nat, j: nat)
    requires i <= j
    ensures Pow2(i) <= Pow2(j)
  {
    if i < j {
      Pow2Grows(i, j - 1);
    }
  }

  /** d divides n * k + d * m when it divides n. */
  lemma MultipleSum(d: int, n: int, k: int, m: int)
    requires d > 0 && n % d == 0
    ensures (n * k + d * m) % d == 0
  {
    var a := n / d;
    MulAssoc(d, a, k);
    Distribute(d, a * k, m);
    MultipleOf(d, a * k + m);
  }

  lemma MulAssoc(x: int, y: int, z: int)
    ensures (x * y) * z == x * (y * z)
  {
  }

  lemma Distribute(x: int, y: int, z: int)
    ensures x * (y + z) == x * y + x * z
  {
  }

  lemma MultipleOf(d: int, k: int)
    requires d > 0
    ensures (d * k) % d == 0
  {
    DivModUnique(d * k, d, k, 0);
  }

  lemma DivisorIsSmaller(d: int, n: int)
    requires d > 0 && n > 0 && n % d == 0
    ensures d <= n
  {
    assert n == d * (n / d);
    if d > n {
      DivModUnique(n, d, 0, n);
    }
  }

  lemma Pow2Of64()
    ensures Pow2(64) == 0x1_0000_0000_0000_0000
  {
    assert Pow2(8) == 256;
    Pow2Adds(8, 8);
    assert Pow2(16) == 0x1_0000;
    Pow2Adds(16, 16);
    assert Pow2(32) == 0x1_0000_0000;
    Pow2Adds(32, 32);
  }
}
