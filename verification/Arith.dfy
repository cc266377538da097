/** Powers of two and the few non-linear facts the models share. */
module Arith {

  function Pow2(n: nat): (p: nat)
    ensures p > 0
  {
    if n == 0 then 1 else 2 * Pow2(n - 1)
  }

  lemma {:induction false} Pow2Add(m: nat, n: nat)
    ensures Pow2(m + n) == Pow2(m) * Pow2(n)
  {
    if m > 0 {
      Pow2Add(m - 1, n);
      assert Pow2(m + n) == 2 * Pow2(m - 1 + n);
      MulAssoc(2, Pow2(m - 1), Pow2(n));
    }
  }

  lemma {:induction false} Pow2Mono(m: nat, n: nat)
    requires m <= n
    ensures Pow2(m) <= Pow2(n)
    decreases n - m
  {
    if m < n {
      Pow2Mono(m + 1, n);
    }
  }

  /** The position of the highest set bit. */
  function Fls(x: nat): (k: nat)
    requires x > 0
    ensures Pow2(k) <= x < Pow2(k + 1)
  {
    if x == 1 then 0 else Fls(x / 2) + 1
  }

  lemma MulAssoc(x: int, y: int, z: int)
    ensures (x * y) * z == x * (y * z)
  {
  }

  lemma MulMono(x: int, y: int, z: int)
    requires x <= y && 0 <= z
    ensures x * z <= y * z
  {
  }

  lemma MulStrictMono(x: int, y: int, z: int)
    requires x < y && 0 < z
    ensures x * z < y * z
  {
  }

  /** Division is determined by its defining inequality. */
  lemma DivUnique(x: int, d: int, q: int)
    requires d > 0 && q * d <= x < (q + 1) * d
    ensures x / d == q && x % d == x - q * d
  {
    var k := x / d;
    if k < q {
      MulMono(k + 1, q, d);
    } else if k > q {
      MulMono(q + 1, k, d);
    }
  }

  lemma DivBounds(x: int, d: int)
    requires d > 0
    ensures (x / d) * d <= x < (x / d + 1) * d
  {
  }

  lemma DivMono(x: int, y: int, d: int)
    requires x <= y && d > 0
    ensures x / d <= y / d
  {
    if x / d > y / d {
      MulMono(y / d + 1, x / d, d);
    }
  }

  /** Reducing by a whole number of moduli first changes nothing. */
  lemma ModDrop(x: nat, k: nat, m: nat)
    requires m > 0 && x < m
    ensures (x + k * m) % m == x
  {
    DivUnique(x + k * m, m, k);
  }
}
