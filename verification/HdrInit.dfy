/** What hdr_init makes of its arguments, and when it returns. */
module HdrInit {
  import opened Arith
  import opened HdrIndex

  /** The smallest m with n <= 2^m, and the greatest with 2^m <= n. */
  function CeilLog2(n: nat): nat
    requires n > 0
  {
    BitLen(n - 1)
  }

  function FloorLog2(n: nat): nat
    requires n > 0
  {
    BitLenBounds(n);
    BitLen(n) - 1
  }

  lemma CeilLog2Is(n: nat)
    requires n > 0
    ensures n <= Pow2(CeilLog2(n)) && (CeilLog2(n) > 0 ==> Pow2(CeilLog2(n) - 1) < n)
  {
    BitLenBounds(n - 1);
  }

  lemma FloorLog2Is(n: nat)
    requires n > 0
    ensures Pow2(FloorLog2(n)) <= n < 2 * Pow2(FloorLog2(n))
  {
    BitLenBounds(n);
  }

  /** The magnitude of half a bucket for so many significant figures. */
  function HalfMagnitude(figures: nat): nat
  {
    Pow10Positive(figures);
    var m := CeilLog2(2 * Pow10(figures));
    (if m > 1 then m else 1) - 1
  }

  lemma {:induction false} Pow10Positive(n: nat)
    ensures Pow10(n) > 0
  {
    if n > 0 { Pow10Positive(n - 1); }
  }

  /** Half a bucket is enough for the precision asked for. */
  lemma HalfIsEnough(figures: nat)
    ensures Pow10(figures) <= Pow2(HalfMagnitude(figures))
  {
    Pow10Positive(figures);
    CeilLog2Is(2 * Pow10(figures));
    var m := CeilLog2(2 * Pow10(figures));
    if m > 1 { assert Pow2(m) == 2 * Pow2(m - 1); }
  }

  function Neg(x: int): int
  {
    -x
  }

  /** A number as it is kept in so many bits, with a sign. */
  function Wrapped(x: int, bits: nat): int
    requires bits > 0
  {
    if x % Pow2(bits) < Pow2(bits - 1) then x % Pow2(bits) else x % Pow2(bits) - Pow2(bits)
  }

  /** The mask, which is calculated in 32 bits. */
  function Mask32(unit: nat, half: nat): int
  {
    Wrapped(Product(Pow2(half + 1) - 1, Pow2(unit)), 32)
  }

  /** The trackable value after k doublings in 64 bits. */
  function Trackable(mask: int, k: nat): int
  {
    if k == 0 then mask else Wrapped(2 * Trackable(mask, k - 1), 64)
  }

  lemma WrappedFits(x: int, bits: nat)
    requires bits > 0 && 0 <= x < Pow2(bits - 1)
    ensures Wrapped(x, bits) == x
  {
    assert Pow2(bits) == 2 * Pow2(bits - 1);
    DivUnique(x, Pow2(bits), 0);
  }

  lemma WrappedNegative(x: nat, bits: nat)
    requires bits > 0 && 0 < x <= Pow2(bits - 1)
    ensures Wrapped(Neg(x), bits) == Neg(x)
  {
    assert Pow2(bits) == 2 * Pow2(bits - 1);
    DivUnique(Neg(x), Pow2(bits), -1);
  }

  /** A mask too wide for 32 bits becomes negative. */
  lemma MaskWraps(unit: nat, half: nat)
    requires unit <= 31 && half < 32
    ensures unit + half + 1 <= 31 ==> Mask32(unit, half) == Product(Pow2(half + 1) - 1, Pow2(unit))
    ensures unit + half + 1 > 31 ==> Mask32(unit, half) == Neg(Pow2(unit))
  {
    hide *;
    var m := unit + half + 1;
    MaskSum(unit, half);
    Pow2Mono(unit, 31);
    MaskIs(unit, half);
    if m <= 31 {
      Pow2Mono(m, 31);
      Pow2Mono(unit, m);
      WrappedFits(Pow2(m) - Pow2(unit), 32);
    } else {
      Pow2Add(m - 32, 32);
      WrappedTurns(Neg(Pow2(unit)), Pow2(m - 32), 32);
      WrappedNegative(Pow2(unit), 32);
      NegIs(Pow2(unit));
    }
  }

  lemma NegIs(x: int)
    ensures Neg(x) == -x
  {
  }

  lemma MaskIs(unit: nat, half: nat)
    ensures Mask32(unit, half) == Wrapped(Product(Pow2(half + 1) - 1, Pow2(unit)), 32)
  {
  }

  lemma MaskSum(unit: nat, half: nat)
    ensures Product(Pow2(half + 1) - 1, Pow2(unit)) == Pow2(unit + half + 1) - Pow2(unit)
  {
    Pow2Add(half + 1, unit);
    hide Pow2;
    assert half + 1 + unit == unit + half + 1;
  }

  lemma WrappedTurns(x: int, q: nat, bits: nat)
    requires bits > 0
    ensures Wrapped(x + q * Pow2(bits), bits) == Wrapped(x, bits)
  {
    WholeTurns(x, q, Pow2(bits));
  }

  lemma WholeTurns(x: int, q: nat, d: nat)
    requires d > 0
    ensures (x + q * d) % d == x % d
  {
    DivBounds(x, d);
    assert (x / d + q) * d == (x / d) * d + q * d;
    assert (x / d + q + 1) * d == (x / d + 1) * d + q * d;
    DivUnique(x + q * d, d, x / d + q);
  }

  /** Doubling a small positive number, or a negative power of two. */
  lemma {:induction false} TrackableGrows(mask: nat, k: nat)
    requires mask * Pow2(k) < Pow2(63)
    ensures Trackable(mask, k) == mask * Pow2(k)
  {
    if k > 0 {
      assert mask * Pow2(k) == 2 * (mask * Pow2(k - 1)) by { Doubled(mask, Pow2(k - 1)); }
      MulMono(0, mask, Pow2(k - 1));
      TrackableGrows(mask, k - 1);
      WrappedFits(mask * Pow2(k), 64);
    }
  }

  lemma Doubled(a: int, b: int)
    ensures a * (2 * b) == 2 * (a * b)
  {
  }

  lemma {:induction false} TrackableSinks(unit: nat, k: nat)
    requires unit <= 31
    ensures Trackable(Neg(Pow2(unit)), k) == if unit + k <= 63 then Neg(Pow2(unit + k)) else 0
  {
    if k > 0 {
      TrackableSinks(unit, k - 1);
      TrackableNext(Neg(Pow2(unit)), k);
      hide *;
      if unit + k <= 64 { DoubledNegative(unit + k - 1); } else { DoubledZero(); }
    }
  }

  lemma TrackableNext(mask: int, k: nat)
    requires k > 0
    ensures Trackable(mask, k) == Wrapped(2 * Trackable(mask, k - 1), 64)
  {
  }

  lemma DoubledNegative(e: nat)
    requires e <= 63
    ensures Wrapped(2 * Neg(Pow2(e)), 64) == if e + 1 <= 63 then Neg(Pow2(e + 1)) else 0
  {
    assert Pow2(e + 1) == 2 * Pow2(e);
    if e + 1 <= 63 {
      Pow2Mono(e + 1, 63);
      hide Pow2, Wrapped;
      WrappedNegative(Pow2(e + 1), 64);
    } else {
      hide Pow2, Wrapped;
      WrappedTurns(Neg(Pow2(64)), 1, 64);
      WrappedZero(64);
    }
  }

  lemma WrappedZero(bits: nat)
    requires bits > 0
    ensures Wrapped(0, bits) == 0
  {
    DivUnique(0, Pow2(bits), 0);
  }

  lemma DoubledZero()
    ensures Wrapped(2 * 0, 64) == 0
  {
    WrappedZero(64);
  }

  /** The greatest trackable value that 64 bits hold, for so big a half of a bucket. */
  function Reach(half: nat): nat
    requires half < 32
  {
    Pow2Mono(1, half + 1);
    Product(Pow2(half + 1) - 1, Pow2(62 - half))
  }

  /** The mask after k doublings, as far as it fits 64 bits. */
  lemma TrackableRises(unit: nat, half: nat, k: nat)
    requires half < 32 && unit + half + 1 <= 31 && unit + k <= 62 - half
    ensures Trackable(Mask32(unit, half), k) == Product(Pow2(half + 1) - 1, Pow2(unit + k))
  {
    hide *;
    MaskWraps(unit, half);
    var m := Pow2(half + 1) - 1;
    ProductIs(m, Pow2(unit));
    ProductIs(m, Pow2(unit + k));
    Pow2Add(unit, k);
    MulAssoc(m, Pow2(unit), Pow2(k));
    MulMono(0, m, Pow2(unit));
    MaskSum(unit + k, half);
    Pow2Mono(unit + k + half + 1, 63);
    TrackableGrows(m * Pow2(unit), k);
  }

  /** One doubling more, and it is a negative power of two, which sinks to zero. */
  lemma {:induction false} TrackableFalls(unit: nat, half: nat, e: nat)
    requires half < 32 && unit + half + 1 <= 31
    ensures Trackable(Mask32(unit, half), 63 - half - unit + e) == if e <= half then Neg(Pow2(63 - half + e)) else 0
    decreases e
  {
    hide *;
    var mask := Mask32(unit, half);
    TrackableNext(mask, 63 - half - unit + e);
    if e == 0 {
      TrackableRises(unit, half, 62 - half - unit);
      MaskSum(62 - half, half);
      TwicePow(62 - half);
      TwicePow(63);
      NegIs(Pow2(63 - half));
      Pow2Mono(63 - half, 63);
      WrappedTurns(Neg(Pow2(63 - half)), 1, 64);
      WrappedNegative(Pow2(63 - half), 64);
    } else {
      TrackableFalls(unit, half, e - 1);
      if e <= half + 1 { DoubledNegative(63 - half + e - 1); } else { DoubledZero(); }
    }
  }

  lemma TwicePow(n: nat)
    ensures Pow2(n + 1) == 2 * Pow2(n)
  {
  }

  /**
   The search for enough buckets ends exactly if the mask fits a 32 bit integer and the highest value can be reached by
   doubling it in 64 bits; otherwise the trackable value becomes negative and then zero, for ever.
   */
  lemma InitReturnsIff(unit: nat, half: nat, highest: nat)
    requires unit <= 31 && half < 32 && 0 < highest < Pow2(63)
    ensures (unit + half + 1 <= 31 && highest <= Reach(half)) <==>
      exists k: nat :: Trackable(Mask32(unit, half), k) >= highest
  {
    hide *;
    if unit + half + 1 <= 31 {
      ReachIs(half);
      TrackableRises(unit, half, 62 - half - unit);
      assert highest <= Reach(half) ==> Trackable(Mask32(unit, half), 62 - half - unit) >= highest;
      forall k: nat ensures Trackable(Mask32(unit, half), k) <= Reach(half) {
        TrackableAtMost(unit, half, k);
      }
    } else {
      MaskWraps(unit, half);
      forall k: nat ensures Trackable(Mask32(unit, half), k) < highest {
        TrackableSinks(unit, k);
        NegIs(Pow2(unit + k));
      }
    }
  }

  lemma ReachIs(half: nat)
    requires half < 32
    ensures Reach(half) == Product(Pow2(half + 1) - 1, Pow2(62 - half)) && Reach(half) >= 0
  {
  }

  lemma TrackableAtMost(unit: nat, half: nat, k: nat)
    requires half < 32 && unit + half + 1 <= 31
    ensures Trackable(Mask32(unit, half), k) <= Reach(half)
  {
    hide *;
    ReachIs(half);
    if unit + k <= 62 - half {
      TrackableRises(unit, half, k);
      ProductIs(Pow2(half + 1) - 1, Pow2(unit + k));
      ProductIs(Pow2(half + 1) - 1, Pow2(62 - half));
      Pow2Mono(unit + k, 62 - half);
      Pow2Mono(1, half + 1);
      var m := Pow2(half + 1) - 1;
      assert m >= 0;
      Scale(m, Pow2(unit + k), Pow2(62 - half));
    } else {
      var e := k - (63 - half - unit);
      TrackableFalls(unit, half, e);
      if e <= half { NegIs(Pow2(63 - half + e)); }
    }
  }

  lemma Scale(m: nat, x: int, y: int)
    requires x <= y
    ensures m * x <= m * y
  {
  }

  lemma ProductIs(a: nat, b: nat)
    ensures Product(a, b) == a * b
  {
  }

  /** Values from 16384 on with five significant figures: the initialisation never returns. */
  lemma InitCanHang(k: nat)
    ensures FloorLog2(16384) == 14 && HalfMagnitude(5) == 17
    ensures Trackable(Mask32(14, 17), k) < 1
  {
    assert FloorLog2(16384) == 14 by { BitLenIs(16384, 15); BitLenIs(16384, 14); SmallPowers(); }
    assert HalfMagnitude(5) == 17 by {
      SmallPowers();
      assert Pow10(5) == 100000;
      BitLenIs(199999, 18);
      BitLenIs(199999, 17);
    }
    MaskWraps(14, 17);
    TrackableSinks(14, k);
  }

  /** The greatest 64 bit value with one significant figure: the initialisation never returns, though the mask fits. */
  lemma InitCanHangForHighest(k: nat)
    ensures FloorLog2(1) == 0 && HalfMagnitude(1) == 4
    ensures Trackable(Mask32(0, 4), k) < 0x7FFF_FFFF_FFFF_FFFF
  {
    assert FloorLog2(1) == 0 by { BitLenIs(1, 1); BitLenIs(1, 0); }
    assert HalfMagnitude(1) == 4 by {
      assert Pow10(1) == 10 && Pow2(5) == 32 && Pow2(4) == 16;
      BitLenIs(19, 5);
      BitLenIs(19, 4);
    }
    hide *;
    TrackableAtMost(0, 4, k);
    ReachIs(4);
    MaskSum(58, 4);
    HighPowers();
  }

  lemma HighPowers()
    ensures Pow2(58) == 0x400_0000_0000_0000 && Pow2(63) == 0x8000_0000_0000_0000
  {
    assert Pow2(10) == 0x400;
    assert Pow2(20) == 0x10_0000;
    assert Pow2(30) == 0x4000_0000;
    assert Pow2(40) == 0x100_0000_0000;
    assert Pow2(50) == 0x4_0000_0000_0000;
    assert Pow2(58) == 0x400_0000_0000_0000;
  }

  lemma SmallPowers()
    ensures Pow2(14) == 16384 && Pow2(15) == 32768 && Pow2(17) == 131072 && Pow2(18) == 262144
  {
    assert Pow2(7) == 128;
    assert Pow2(14) == 16384;
  }
}
