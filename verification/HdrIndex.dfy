/** Bucket arithmetic of the latency histogram: which slot a value is counted in, and which values share it. */
module HdrIndex {
  import opened Arith

  // ---- Bits --------------------------------------------------------------------------

  /** How many bits a number has: 64 less its leading zeros. */
  function BitLen(n: nat): nat
  {
    if n == 0 then 0 else 1 + BitLen(n / 2)
  }

  /** Bitwise or. */
  function Or(a: nat, b: nat): nat
    decreases a + b
  {
    if a == 0 && b == 0 then 0 else 2 * Or(a / 2, b / 2) + (if a % 2 == 1 || b % 2 == 1 then 1 else 0)
  }

  lemma {:induction false} BitLenOr(a: nat, b: nat)
    ensures BitLen(Or(a, b)) == if BitLen(a) >= BitLen(b) then BitLen(a) else BitLen(b)
    ensures Or(a, b) == 0 <==> a == 0 && b == 0
    decreases a + b
  {
    if a != 0 || b != 0 {
      BitLenOr(a / 2, b / 2);
      assert Or(a, b) / 2 == Or(a / 2, b / 2);
    }
  }

  lemma {:induction false} BitLenBounds(n: nat)
    ensures n < Pow2(BitLen(n))
    ensures n > 0 ==> BitLen(n) > 0 && Pow2(BitLen(n) - 1) <= n
  {
    if n > 0 { BitLenBounds(n / 2); }
  }

  lemma BitLenIs(n: nat, k: nat)
    ensures n < Pow2(k) <==> BitLen(n) <= k
  {
    BitLenBounds(n);
    if BitLen(n) <= k {
      Pow2Mono(BitLen(n), k);
    } else {
      Pow2Mono(k, BitLen(n) - 1);
    }
  }

  // ---- Configurations ------------------------------------------------------------------

  /** Unit magnitude, magnitude of half a bucket's sub-buckets, and number of buckets. */
  datatype Config = Config(unit: nat, half: nat, buckets: nat)

  function HalfCount(c: Config): nat
  {
    Pow2(c.half)
  }

  function SubCount(c: Config): nat
  {
    Pow2(c.half + 1)
  }

  function Mask(c: Config): nat
  {
    Product(SubCount(c) - 1, Pow2(c.unit))
  }

  function Product(a: nat, b: nat): nat
  {
    a * b
  }

  function CountsLen(c: Config): nat
  {
    Product(c.buckets + 1, HalfCount(c))
  }

  function BucketIndex(c: Config, v: nat): int
  {
    BitLen(Or(v, Mask(c))) - c.unit - (c.half + 1)
  }

  function SubBucketIndex(v: nat, bucket: int, unit: nat): nat
    requires bucket >= 0
  {
    Quotient(v, Pow2(bucket + unit))
  }

  function Quotient(v: nat, w: nat): nat
    requires w > 0
  {
    v / w
  }

  /** The index as it is calculated, without the assertions. */
  function CountsIndex(c: Config, bucket: int, sub: int): int
    requires bucket >= -1
  {
    (bucket + 1) * HalfCount(c) + (sub - HalfCount(c))
  }

  function ValueFromIndex(bucket: int, sub: nat, unit: nat): nat
    requires bucket >= 0
  {
    Product(sub, Pow2(bucket + unit))
  }

  predicate ValidPair(c: Config, bucket: int, sub: int)
  {
    0 <= bucket < c.buckets && 0 <= sub < SubCount(c) && (bucket == 0 || sub >= HalfCount(c))
  }

  lemma MaskBits(c: Config)
    ensures BitLen(Mask(c)) == c.unit + c.half + 1
  {
    Pow2Add(c.half + 1, c.unit);
    assert Pow2(c.half + 1) == 2 * Pow2(c.half);
    Pow2Add(c.half, c.unit);
    assert Mask(c) == Pow2(c.half + 1 + c.unit) - Pow2(c.unit);
    MulMono(1, Pow2(c.half), Pow2(c.unit));
    assert Pow2(c.half + c.unit) >= Pow2(c.unit);
    assert Pow2(c.half + 1 + c.unit) == 2 * Pow2(c.half + c.unit);
    BitLenIs(Mask(c), c.half + 1 + c.unit);
    BitLenIs(Mask(c), c.half + c.unit);
  }

  /** The bucket of a value: the number of times that it must be halved to fit into the first one. */
  lemma BucketIs(c: Config, v: nat)
    ensures BucketIndex(c, v) == (if BitLen(v) <= c.unit + c.half + 1 then 0
      else BitLen(v) - (c.unit + c.half + 1)) >= 0
  {
    BitLenOr(v, Mask(c));
    MaskBits(c);
  }

  function Bucket(c: Config, v: nat): (b: nat)
    ensures b == BucketIndex(c, v)
  {
    BucketIs(c, v);
    BucketIndex(c, v)
  }

  function Sub(c: Config, v: nat): nat
  {
    SubBucketIndex(v, Bucket(c, v), c.unit)
  }

  /** The slot a value is counted in. */
  function Slot(c: Config, v: nat): int
  {
    CountsIndex(c, Bucket(c, v), Sub(c, v))
  }

  function Width(c: Config, v: nat): nat
  {
    Pow2(c.unit + Bucket(c, v))
  }

  function Lowest(c: Config, v: nat): nat
  {
    ValueFromIndex(Bucket(c, v), Sub(c, v), c.unit)
  }

  function Highest(c: Config, v: nat): nat
  {
    Lowest(c, v) + Width(c, v) - 1
  }

  /** The sub-bucket is always in range; beyond the first bucket it is in the upper half. */
  lemma SubInRange(c: Config, v: nat)
    ensures Sub(c, v) < SubCount(c) && (Bucket(c, v) > 0 ==> Sub(c, v) >= HalfCount(c))
  {
    BucketIs(c, v);
    var b := Bucket(c, v);
    var w := Pow2(b + c.unit);
    BitLenBounds(v);
    Pow2Add(c.half + 1, b + c.unit);
    Pow2Add(c.half, b + c.unit);
    BitLenIs(v, c.half + 1 + b + c.unit);
    assert v < SubCount(c) * w;
    DivLess(v, w, SubCount(c));
    if b > 0 {
      assert BitLen(v) - 1 == c.half + (b + c.unit);
      DivAtLeast(v, w, HalfCount(c));
    }
  }

  lemma DivLess(v: nat, w: nat, q: nat)
    requires w > 0 && v < q * w
    ensures v / w < q
  {
    DivBounds(v, w);
    if v / w >= q { MulMono(q, v / w, w); }
  }

  lemma DivAtLeast(v: nat, w: nat, q: nat)
    requires w > 0 && q * w <= v
    ensures v / w >= q
  {
    DivBounds(v, w);
    if v / w + 1 <= q { MulMono(v / w + 1, q, w); }
  }

  /** Lowest and highest equivalent value enclose the value, and are as far apart as its slot is wide. */
  lemma Encloses(c: Config, v: nat)
    ensures Lowest(c, v) <= v <= Highest(c, v)
  {
    DivBounds(v, Pow2(Bucket(c, v) + c.unit));
    assert Bucket(c, v) + c.unit == c.unit + Bucket(c, v);
  }

  // ---- Slots and pairs -------------------------------------------------------------------

  lemma IndexIs(c: Config, bucket: int, sub: int)
    requires bucket >= 0
    ensures CountsIndex(c, bucket, sub) == bucket * HalfCount(c) + sub
  {
  }

  /** Each valid pair has its own slot, and all slots are taken. */
  lemma IndexInRange(c: Config, b: int, s: int)
    requires ValidPair(c, b, s)
    ensures 0 <= CountsIndex(c, b, s) < CountsLen(c)
  {
    IndexIs(c, b, s);
    MulMono(b, c.buckets - 1, HalfCount(c));
    MulMono(0, b, HalfCount(c));
    assert SubCount(c) == 2 * HalfCount(c);
    assert (c.buckets - 1) * HalfCount(c) + 2 * HalfCount(c) == (c.buckets + 1) * HalfCount(c);
  }

  lemma IndexInjective(c: Config, b: int, s: int, b': int, s': int)
    requires ValidPair(c, b, s) && ValidPair(c, b', s') && CountsIndex(c, b, s) == CountsIndex(c, b', s')
    ensures b == b' && s == s'
  {
    IndexIs(c, b, s);
    IndexIs(c, b', s');
    if b < b' {
      BucketsApart(c, b, s, b', s');
    } else if b' < b {
      BucketsApart(c, b', s', b, s);
    }
  }

  /** A later bucket's slots come after all slots of an earlier one. */
  lemma BucketsApart(c: Config, b: int, s: int, b': int, s': int)
    requires 0 <= b < b' && 0 <= s < SubCount(c) && s' >= HalfCount(c)
    ensures b * HalfCount(c) + s < b' * HalfCount(c) + s'
  {
    MulMono(b + 1, b', HalfCount(c));
    assert SubCount(c) == 2 * HalfCount(c);
    assert (b + 1) * HalfCount(c) == b * HalfCount(c) + HalfCount(c);
  }

  /** The pair of a slot. */
  function PairOf(c: Config, i: nat): (int, int)
  {
    if i < SubCount(c) then (0, i) else (i / HalfCount(c) - 1, i % HalfCount(c) + HalfCount(c))
  }

  lemma IndexOnto(c: Config, i: nat)
    requires i < CountsLen(c) && c.buckets > 0
    ensures var p := PairOf(c, i); ValidPair(c, p.0, p.1) && CountsIndex(c, p.0, p.1) == i
  {
    var h, q := HalfCount(c), i / HalfCount(c);
    assert SubCount(c) == 2 * h;
    if i >= SubCount(c) {
      DivBounds(i, h);
      DivAtLeast(i, h, 2);
      DivLess(i, h, c.buckets + 1);
      IndexIs(c, q - 1, i % h + h);
      assert (q - 1) * h + h == q * h;
    } else {
      IndexIs(c, 0, i);
    }
  }

  predicate PairShape(c: Config, b: int, s: int)
  {
    0 <= b && 0 <= s < SubCount(c) && (b == 0 || s >= HalfCount(c))
  }

  /** All values from a pair's own up to the next one's go there. */
  lemma InPair(c: Config, b: nat, s: nat, x: nat)
    requires PairShape(c, b, s) && s * Pow2(b + c.unit) <= x < (s + 1) * Pow2(b + c.unit)
    ensures Bucket(c, x) == b && Sub(c, x) == s
  {
    var w := Pow2(b + c.unit);
    PairBits(c, b, s, x);
    BucketIs(c, x);
    assert Bucket(c, x) == b;
    DivUnique(x, w, s);
  }

  lemma PairBits(c: Config, b: nat, s: nat, x: nat)
    requires PairShape(c, b, s) && s * Pow2(b + c.unit) <= x < (s + 1) * Pow2(b + c.unit)
    ensures BitLen(x) <= c.half + 1 + (b + c.unit) && (b > 0 ==> BitLen(x) > c.half + (b + c.unit))
  {
    CountsAre(c);
    hide *;
    PairShapeIs(c, b, s);
    var w := Pow2(b + c.unit);
    MulMono(s + 1, SubCount(c), w);
    Pow2Add(c.half + 1, b + c.unit);
    BitLenIs(x, c.half + 1 + (b + c.unit));
    if b > 0 {
      MulMono(HalfCount(c), s, w);
      Pow2Add(c.half, b + c.unit);
      BitLenIs(x, c.half + (b + c.unit));
    }
  }

  lemma PairShapeIs(c: Config, b: nat, s: nat)
    requires PairShape(c, b, s)
    ensures s < SubCount(c) && (b > 0 ==> s >= HalfCount(c))
  {
  }

  lemma CountsAre(c: Config)
    ensures HalfCount(c) == Pow2(c.half) && SubCount(c) == Pow2(c.half + 1)
  {
  }

  /** The value of a slot is counted in that slot. */
  lemma ValueHasItsSlot(c: Config, b: int, s: int)
    requires ValidPair(c, b, s)
    ensures var v := ValueFromIndex(b, s, c.unit); Bucket(c, v) == b && Sub(c, v) == s && Lowest(c, v) == v
  {
    MulStrictMono(s, s + 1, Pow2(b + c.unit));
    InPair(c, b, s, ValueFromIndex(b, s, c.unit));
  }

  // ---- Order ------------------------------------------------------------------------------

  lemma {:induction false} BitLenMono(v: nat, w: nat)
    requires v <= w
    ensures BitLen(v) <= BitLen(w)
  {
    if v > 0 { BitLenMono(v / 2, w / 2); }
  }

  /** A greater value is never in an earlier slot. */
  lemma SlotMonotone(c: Config, v: nat, w: nat)
    requires v <= w
    ensures 0 <= Slot(c, v) <= Slot(c, w)
  {
    BitLenMono(v, w);
    BucketIs(c, v);
    BucketIs(c, w);
    SubInRange(c, v);
    SubInRange(c, w);
    IndexIs(c, Bucket(c, v), Sub(c, v));
    IndexIs(c, Bucket(c, w), Sub(c, w));
    MulMono(0, Bucket(c, v), HalfCount(c));
    if Bucket(c, v) == Bucket(c, w) {
      DivMono(v, w, Pow2(Bucket(c, v) + c.unit));
    } else {
      BucketsApart(c, Bucket(c, v), Sub(c, v), Bucket(c, w), Sub(c, w));
    }
  }

  /** Two values share a slot exactly if they have the same lowest equivalent value. */
  lemma SlotIffLowest(c: Config, v: nat, w: nat)
    ensures Slot(c, v) == Slot(c, w) <==> Lowest(c, v) == Lowest(c, w)
    ensures Slot(c, v) == Slot(c, w) ==> Highest(c, v) == Highest(c, w)
  {
    var big := Config(c.unit, c.half, Bucket(c, v) + Bucket(c, w) + 1);
    assert ValidPair(big, Bucket(c, v), Sub(c, v)) by { SubInRange(c, v); }
    assert ValidPair(big, Bucket(c, w), Sub(c, w)) by { SubInRange(c, w); }
    SameMask(c, big);
    if Slot(c, v) == Slot(c, w) {
      assert CountsIndex(big, Bucket(c, v), Sub(c, v)) == CountsIndex(big, Bucket(c, w), Sub(c, w));
      IndexInjective(big, Bucket(c, v), Sub(c, v), Bucket(c, w), Sub(c, w));
    }
    if Lowest(c, v) == Lowest(c, w) {
      ValueHasItsSlot(big, Bucket(c, v), Sub(c, v));
      ValueHasItsSlot(big, Bucket(c, w), Sub(c, w));
    }
  }

  /** The number of buckets does not matter to where a value goes. */
  lemma SameMask(c: Config, d: Config)
    requires c.unit == d.unit && c.half == d.half
    ensures forall v: nat :: Bucket(c, v) == Bucket(d, v) && Sub(c, v) == Sub(d, v) && Slot(c, v) == Slot(d, v)
  {
    forall v: nat ensures Bucket(c, v) == Bucket(d, v) {
      BucketIs(c, v);
      BucketIs(d, v);
    }
  }

  /** A slot is an interval of values: those from its lowest to its highest. */
  lemma SlotIsInterval(c: Config, v: nat, w: nat)
    ensures Slot(c, w) == Slot(c, v) <==> Lowest(c, v) <= w <= Highest(c, v)
  {
    SlotIffLowest(c, v, w);
    Encloses(c, w);
    if Lowest(c, v) <= w <= Highest(c, v) {
      LowestShares(c, v);
      SlotMonotone(c, Lowest(c, v), w);
      SlotMonotone(c, w, Highest(c, v));
    }
  }

  lemma LowestShares(c: Config, v: nat)
    ensures Slot(c, Lowest(c, v)) == Slot(c, v) == Slot(c, Highest(c, v))
  {
    var b, s := Bucket(c, v), Sub(c, v);
    var big := Config(c.unit, c.half, b + 1);
    SubInRange(c, v);
    SameMask(c, big);
    ValueHasItsSlot(big, b, s);
    HighestStays(c, v);
  }

  lemma HighestStays(c: Config, v: nat)
    ensures Slot(c, Highest(c, v)) == Slot(c, v)
  {
    var b, s := Bucket(c, v), Sub(c, v);
    var w := Pow2(b + c.unit);
    SubInRange(c, v);
    assert c.unit + b == b + c.unit;
    assert Highest(c, v) == s * w + w - 1;
    NextMultiple(s, w);
    InPair(c, b, s, Highest(c, v));
  }

  lemma NextMultiple(s: nat, w: nat)
    ensures (s + 1) * w == s * w + w
  {
  }

  // ---- What can be recorded, and how exactly ---------------------------------------------------

  predicate Recordable(c: Config, v: nat)
  {
    Slot(c, v) < CountsLen(c)
  }

  /** A value has a slot exactly if it is below the end of the last bucket. */
  lemma RecordableIff(c: Config, v: nat)
    requires c.buckets > 0
    ensures Recordable(c, v) <==> Bucket(c, v) < c.buckets
    ensures Recordable(c, v) <==> v < Pow2(c.unit + c.half + c.buckets)
  {
    SubInRange(c, v);
    BucketIs(c, v);
    BitLenIs(v, c.unit + c.half + c.buckets);
    if Bucket(c, v) < c.buckets {
      IndexInRange(c, Bucket(c, v), Sub(c, v));
    } else {
      IndexIs(c, Bucket(c, v), Sub(c, v));
      MulMono(c.buckets, Bucket(c, v), HalfCount(c));
    }
  }

  /** Precision: a slot is no wider than the unit, or than the value divided by ten to the significant figures. */
  lemma Precise(c: Config, v: nat, figures: nat)
    requires Pow10(figures) <= HalfCount(c)
    ensures Width(c, v) == Pow2(c.unit) || Width(c, v) * Pow10(figures) <= v
  {
    var b := Bucket(c, v);
    if b > 0 {
      BucketIs(c, v);
      BitLenBounds(v);
      Pow2Add(c.half, c.unit + b);
      assert BitLen(v) - 1 == c.half + (c.unit + b);
      MulMono(Pow10(figures), HalfCount(c), Width(c, v));
    }
  }

  function Pow10(n: nat): nat
  {
    if n == 0 then 1 else 10 * Pow10(n - 1)
  }
}
