/**
 The size trie of one large bin of the allocator, as a value: which sizes the bin
 holds and how they hang together. The heap model links real chunks to it.
 */
module AllocTrie {
  import opened Arith

  const SIZE_T_MODULUS: nat := 0x1_0000_0000_0000_0000
  const NTREEBINS: nat := 32

  /** Sizes at or above this wrap the 32-bit intermediate of the bin index computation. */
  const INDEX_LIMIT: nat := 0x100_0000_0000

  // ---- Bin indices -------------------------------------------------------

  function TreeIndex(s: nat): (i: nat)
    ensures i < NTREEBINS
  {
    var x := (s / 256) % 0x1_0000_0000;
    if x == 0 then 0
    else if x > 0xFFFF then NTREEBINS - 1
    else
      var k := Fls(x);
      Pow2At16();
      FlsBelow(x, 16);
      2 * k + (s / Pow2(k + 7)) % 2
  }

  lemma FlsBelow(x: nat, n: nat)
    requires 0 < x < Pow2(n)
    ensures Fls(x) < n
  {
    if Fls(x) >= n {
      Pow2Mono(n, Fls(x));
    }
  }

  /** Number of size bits a bin leaves to its trie, and the smallest size it can hold. */
  function LevelOf(i: nat): nat
  {
    if i == NTREEBINS - 1 then 64 else i / 2 + 7
  }

  function LowOf(i: nat): nat
  {
    if i == NTREEBINS - 1 then 0
    else if i % 2 == 0 then 2 * Pow2(i / 2 + 7)
    else 3 * Pow2(i / 2 + 7)
  }

  function LeftShift(i: nat): nat
    requires i < NTREEBINS
  {
    if i == NTREEBINS - 1 then 0 else 57 - i / 2
  }

  /** The size shifted left so that the first bit the trie looks at is the sign bit, and one bit further. */
  function FirstBits(s: nat, i: nat): nat
    requires i < NTREEBINS
  {
    (s * Pow2(LeftShift(i))) % SIZE_T_MODULUS
  }

  function NextBits(bits: nat): nat
  {
    (2 * bits) % SIZE_T_MODULUS
  }

  /** The bits the trie looks at first are the ones the bin index did not use. */
  ghost predicate BitsOf(bits: nat, s: nat, lo: nat, level: nat)
  {
    bits < SIZE_T_MODULUS && lo <= s < lo + Pow2(level) &&
    bits * Pow2(level) == (s - lo) * SIZE_T_MODULUS
  }

  lemma Pow2At64()
    ensures Pow2(64) == SIZE_T_MODULUS
  {
    Pow2At16();
    Pow2Add(16, 16);
    assert Pow2(32) == 0x1_0000_0000;
    Pow2Add(32, 32);
  }

  lemma Pow2At16()
    ensures Pow2(16) == 0x10000
  {
    Pow2Add(8, 8);
    assert Pow2(8) == 256;
  }

  /** A number between two and four times w has quotient two or three. */
  lemma TopTwoBits(s: nat, w: nat)
    requires w > 0 && 2 * w <= s < 4 * w
    ensures s / w == 2 + (s / w) % 2
    ensures (s / w) % 2 == 0 ==> 2 * w <= s < 3 * w
    ensures (s / w) % 2 == 1 ==> 3 * w <= s < 4 * w
  {
    DivUnique(s, w, if s < 3 * w then 2 else 3);
  }

  lemma TopRange(s: nat, w: nat, b: nat, low: nat)
    requires w > 0 && 2 * w <= s < 4 * w && b == (s / w) % 2 && low == if b == 0 then 2 * w else 3 * w
    ensures low <= s < low + w && low == (s / w) * w
  {
    TopTwoBits(s, w);
  }

  lemma TopBit(x: nat, s: nat)
    requires x > 0 && x == s / 256
    ensures 2 * Pow2(Fls(x) + 7) <= s < 4 * Pow2(Fls(x) + 7)
  {
    var k := Fls(x);
    assert Pow2(8) == 256;
    Pow2Add(k, 8);
    Pow2Add(k + 1, 8);
  }

  /** Below 2^24 a size's bin is given by its highest bit and the bit after it. */
  lemma IndexBelow24(s: nat) returns (k: nat, b: nat)
    requires 256 <= s < 0x100_0000
    ensures k < 16 && b < 2 && TreeIndex(s) == 2 * k + b
    ensures b == (s / Pow2(k + 7)) % 2
    ensures 2 * Pow2(k + 7) <= s < 4 * Pow2(k + 7)
  {
    var x := s / 256;
    k := Fls(x);
    Pow2At16();
    FlsBelow(x, 16);
    TopBit(x, s);
    b := (s / Pow2(k + 7)) % 2;
    assert x % 0x1_0000_0000 == x;
  }

  lemma IndexFrom24(s: nat)
    requires 0x100_0000 <= s < INDEX_LIMIT
    ensures TreeIndex(s) == NTREEBINS - 1
  {
    var x := s / 256;
    assert x % 0x1_0000_0000 == x;
  }

  lemma Pow2At22()
    ensures 3 * Pow2(22) <= 0x100_0000
  {
    Pow2At16();
    Pow2Add(6, 16);
    assert Pow2(6) == 64;
  }

  lemma IndexRange(s: nat)
    requires 256 <= s < INDEX_LIMIT
    ensures var i := TreeIndex(s); LowOf(i) <= s < LowOf(i) + Pow2(LevelOf(i))
    ensures TreeIndex(s) != NTREEBINS - 1 ==>
      LowOf(TreeIndex(s)) == (s / Pow2(LevelOf(TreeIndex(s)))) * Pow2(LevelOf(TreeIndex(s)))
    ensures TreeIndex(s) == NTREEBINS - 1 ==> s >= 3 * Pow2(22)
  {
    hide Pow2, LowOf, LevelOf, TreeIndex;
    LastBinRange();
    if s < 0x100_0000 {
      var k, b := IndexBelow24(s);
      RangeBelow24(s, k, b, TreeIndex(s));
    } else {
      IndexFrom24(s);
      Pow2At22();
    }
  }

  lemma LastBinRange()
    ensures LowOf(NTREEBINS - 1) == 0 && Pow2(LevelOf(NTREEBINS - 1)) == SIZE_T_MODULUS
  {
    Pow2At64();
  }

  lemma RangeBelow24(s: nat, k: nat, b: nat, i: nat)
    requires k < 16 && b < 2 && b == (s / Pow2(k + 7)) % 2 && 2 * Pow2(k + 7) <= s < 4 * Pow2(k + 7) && i == 2 * k + b
    ensures i != NTREEBINS - 1 ==>
      LowOf(i) <= s < LowOf(i) + Pow2(LevelOf(i)) && LowOf(i) == (s / Pow2(LevelOf(i))) * Pow2(LevelOf(i))
    ensures i == NTREEBINS - 1 ==> s >= 3 * Pow2(22)
  {
    hide Pow2, LowOf, LevelOf;
    if i == NTREEBINS - 1 {
      assert k == 15 && b == 1;
      TopTwoBits(s, Pow2(k + 7));
    } else {
      IndexSplit(k, b);
      TopRange(s, Pow2(k + 7), b, LowOf(i));
    }
  }

  lemma IndexSplit(k: nat, b: nat)
    requires k < 16 && b < 2 && 2 * k + b != NTREEBINS - 1
    ensures LowOf(2 * k + b) == (if b == 0 then 2 * Pow2(k + 7) else 3 * Pow2(k + 7)) && LevelOf(2 * k + b) == k + 7
  {
    assert (2 * k + b) / 2 == k && (2 * k + b) % 2 == b;
  }

  lemma ShiftOut(q: nat, r: nat, w: nat, sh: nat, s: nat)
    requires s == q * w + r && r < w && sh > 0 && sh * w == SIZE_T_MODULUS
    ensures (s * sh) % SIZE_T_MODULUS == r * sh
  {
    MulAssoc(q, w, sh);
    assert s * sh == (q * w) * sh + r * sh;
    assert w * sh == SIZE_T_MODULUS;
    MulStrictMono(r, w, sh);
    ModDrop(r * sh, q, SIZE_T_MODULUS);
  }

  lemma ShiftedBits(s: nat)
    requires 256 <= s < INDEX_LIMIT
    ensures var i := TreeIndex(s);
      BitsOf(FirstBits(s, i), s, LowOf(i), LevelOf(i))
  {
    var i := TreeIndex(s);
    IndexRange(s);
    Pow2At64();
    if i == NTREEBINS - 1 {
      ShiftedLast(s);
    } else {
      assert LeftShift(i) + LevelOf(i) == 64;
      hide Pow2, LowOf, LevelOf, TreeIndex, LeftShift;
      Pow2Add(LeftShift(i), LevelOf(i));
      ShiftLow(s, LowOf(i), Pow2(LevelOf(i)), Pow2(LeftShift(i)));
    }
  }

  lemma ShiftedLast(s: nat)
    requires s < SIZE_T_MODULUS
    ensures BitsOf(FirstBits(s, NTREEBINS - 1), s, LowOf(NTREEBINS - 1), LevelOf(NTREEBINS - 1))
  {
    LastBinRange();
    assert Pow2(LeftShift(NTREEBINS - 1)) == 1;
    hide Pow2, LowOf, LevelOf;
  }

  lemma ShiftLow(s: nat, lo: nat, w: nat, sh: nat)
    requires w > 0 && sh > 0 && lo == (s / w) * w && lo <= s < lo + w && sh * w == SIZE_T_MODULUS
    ensures ((s * sh) % SIZE_T_MODULUS) * w == (s - lo) * SIZE_T_MODULUS
  {
    ShiftOut(s / w, s - lo, w, sh, s);
    MulAssoc(s - lo, sh, w);
  }

  /** The top bit says on which side of the middle the size lies; shifting it out moves one level down. */
  lemma BitStep(bits: nat, s: nat, lo: nat, level: nat)
    requires level > 0 && BitsOf(bits, s, lo, level)
    ensures bits >= SIZE_T_MODULUS / 2 <==> s >= lo + Pow2(level - 1)
    ensures BitsOf(NextBits(bits), s,
                   if bits >= SIZE_T_MODULUS / 2 then lo + Pow2(level - 1) else lo, level - 1)
  {
    var w := Pow2(level - 1);
    assert (2 * bits) * w == (s - lo) * SIZE_T_MODULUS by {
      assert (2 * bits) * w == bits * (2 * w);
    }
    HalfOf(2 * bits, w, s - lo);
    if 2 * bits >= SIZE_T_MODULUS {
      assert (2 * bits - SIZE_T_MODULUS) * w == (2 * bits) * w - SIZE_T_MODULUS * w;
      assert (s - lo - w) * SIZE_T_MODULUS == (s - lo) * SIZE_T_MODULUS - w * SIZE_T_MODULUS;
    }
  }

  lemma HalfOf(b: nat, w: nat, d: nat)
    requires w > 0 && b * w == d * SIZE_T_MODULUS
    ensures b >= SIZE_T_MODULUS <==> d >= w
  {
    if b >= SIZE_T_MODULUS {
      MulMono(SIZE_T_MODULUS, b, w);
    } else {
      MulStrictMono(b, SIZE_T_MODULUS, w);
    }
  }

  /** Bins are ordered like the sizes they hold. */
  lemma IndexMono(s: nat, t: nat)
    requires 256 <= s <= t < INDEX_LIMIT
    ensures TreeIndex(s) <= TreeIndex(t)
  {
    var i, j := TreeIndex(s), TreeIndex(t);
    IndexRange(s);
    IndexRange(t);
    if j < i {
      BinAbove(j, i);
      assert false;
    }
  }

  /** Everything a bin can hold is below the low end of the next one; the last bin starts at 3 * 2^22. */
  lemma BinAbove(j: nat, i: nat)
    requires j < i < NTREEBINS
    ensures LowOf(j) + Pow2(LevelOf(j)) <= (if i == NTREEBINS - 1 then 3 * Pow2(22) else LowOf(i))
  {
    var h, g := j / 2 + 7, i / 2 + 7;
    assert h <= g <= 22;
    LowIs(j);
    if i < NTREEBINS - 1 { LowIs(i); }
    if h < g {
      Pow2Mono(h + 1, g);
      assert Pow2(h + 1) == 2 * Pow2(h);
    }
    hide Pow2, LowOf, LevelOf;
  }

  /** The lower bound of a bin, in units of its half step. */
  lemma LowIs(i: nat)
    requires i < NTREEBINS - 1
    ensures LowOf(i) == (2 + i % 2) * Pow2(i / 2 + 7) && LevelOf(i) == i / 2 + 7
  {
  }

  // ---- The trie ----------------------------------------------------------

  /** Each node stands for the ring of all chunks of one size. */
  datatype Trie = Nil | Node(size: nat, left: Trie, right: Trie)

  ghost function Sizes(t: Trie): set<nat>
  {
    match t
    case Nil => {}
    case Node(s, l, r) => {s} + Sizes(l) + Sizes(r)
  }

  /** All sizes lie in [lo, lo + 2^level); the next bit decides the side; no size occurs twice. */
  ghost predicate TrieOk(t: Trie, lo: nat, level: nat)
  {
    match t
    case Nil => true
    case Node(s, l, r) =>
      lo <= s < lo + Pow2(level) && s !in Sizes(l) && s !in Sizes(r) &&
      if level == 0 then l == Nil && r == Nil
      else TrieOk(l, lo, level - 1) && TrieOk(r, lo + Pow2(level - 1), level - 1)
  }

  lemma {:induction false} SizesInRange(t: Trie, lo: nat, level: nat)
    requires TrieOk(t, lo, level)
    ensures forall s :: s in Sizes(t) ==> lo <= s < lo + Pow2(level)
  {
    if t.Node? && level > 0 {
      SizesInRange(t.left, lo, level - 1);
      SizesInRange(t.right, lo + Pow2(level - 1), level - 1);
    }
  }

  /** Everything on the left is smaller than everything on the right. */
  lemma LeftBelowRight(t: Trie, lo: nat, level: nat)
    requires t.Node? && TrieOk(t, lo, level)
    ensures forall x, y :: x in Sizes(t.left) && y in Sizes(t.right) ==> x < y
  {
    if level > 0 {
      SizesInRange(t.left, lo, level - 1);
      SizesInRange(t.right, lo + Pow2(level - 1), level - 1);
    }
  }

  ghost function Insert(t: Trie, s: nat, lo: nat, level: nat): (u: Trie)
    requires TrieOk(t, lo, level) && lo <= s < lo + Pow2(level)
    ensures TrieOk(u, lo, level) && Sizes(u) == Sizes(t) + {s} && u.Node?
    decreases t
  {
    match t
    case Nil => Node(s, Nil, Nil)
    case Node(x, l, r) =>
      if s == x then t
      else if s < lo + Pow2(level - 1) then Node(x, Insert(l, s, lo, level - 1), r)
      else Node(x, l, Insert(r, s, lo + Pow2(level - 1), level - 1))
  }

  /** The leaf that unlinking moves up: go right where possible, else left. */
  ghost function LeafOf(t: Trie): (s: nat)
    requires t.Node?
    ensures s in Sizes(t)
  {
    if t.right.Node? then LeafOf(t.right)
    else if t.left.Node? then LeafOf(t.left)
    else t.size
  }

  ghost function DropLeaf(t: Trie): (u: Trie)
    requires t.Node?
    ensures Sizes(u) <= Sizes(t)
  {
    if t.right.Node? then Node(t.size, t.left, DropLeaf(t.right))
    else if t.left.Node? then Node(t.size, DropLeaf(t.left), t.right)
    else Nil
  }

  lemma {:induction false} DropLeafOk(t: Trie, lo: nat, level: nat)
    requires t.Node? && TrieOk(t, lo, level)
    ensures TrieOk(DropLeaf(t), lo, level)
    ensures Sizes(DropLeaf(t)) == Sizes(t) - {LeafOf(t)}
    ensures LeafOf(t) == t.size <==> t.left == t.right == Nil
  {
    if t.right.Node? {
      DropLeafOk(t.right, lo + Pow2(level - 1), level - 1);
      LeftBelowRight(t, lo, level);
    } else if t.left.Node? {
      DropLeafOk(t.left, lo, level - 1);
    }
  }

  /** What takes the place of a node whose last chunk leaves. */
  ghost function RemoveRoot(t: Trie): Trie
    requires t.Node?
  {
    if t.left == Nil && t.right == Nil then Nil
    else
      var d := DropLeaf(t);
      Node(LeafOf(t), d.left, d.right)
  }

  lemma RemoveRootOk(t: Trie, lo: nat, level: nat)
    requires t.Node? && TrieOk(t, lo, level)
    ensures TrieOk(RemoveRoot(t), lo, level)
    ensures Sizes(RemoveRoot(t)) == Sizes(t) - {t.size}
  {
    DropLeafOk(t, lo, level);
    SizesInRange(t, lo, level);
    if t.left.Node? || t.right.Node? {
      var d := DropLeaf(t);
      assert Sizes(d) == {t.size} + Sizes(d.left) + Sizes(d.right);
      assert t.size !in Sizes(d.left) + Sizes(d.right);
      assert Sizes(RemoveRoot(t)) == {LeafOf(t)} + Sizes(d.left) + Sizes(d.right);
      assert LeafOf(t) in Sizes(t) && LeafOf(t) != t.size;
      assert Sizes(t) == Sizes(d) + {LeafOf(t)};
    }
  }

  /** The subtree below the node of size s, and the trie with that subtree exchanged. */
  ghost function Sub(t: Trie, s: nat): (u: Trie)
    requires s in Sizes(t)
    ensures u.Node? && u.size == s && Sizes(u) <= Sizes(t)
  {
    if t.size == s then t
    else if s in Sizes(t.left) then Sub(t.left, s)
    else Sub(t.right, s)
  }

  ghost function Replace(t: Trie, s: nat, u: Trie): Trie
    requires s in Sizes(t)
  {
    if t.size == s then u
    else if s in Sizes(t.left) then Node(t.size, Replace(t.left, s, u), t.right)
    else Node(t.size, t.left, Replace(t.right, s, u))
  }

  ghost function Remove(t: Trie, s: nat): Trie
    requires s in Sizes(t)
  {
    Replace(t, s, RemoveRoot(Sub(t, s)))
  }

  lemma {:induction false} RemoveOk(t: Trie, s: nat, lo: nat, level: nat)
    requires s in Sizes(t) && TrieOk(t, lo, level)
    ensures TrieOk(Remove(t, s), lo, level)
    ensures Sizes(Remove(t, s)) == Sizes(t) - {s}
    decreases t
  {
    if t.size == s {
      RemoveRootOk(t, lo, level);
    } else {
      LeftBelowRight(t, lo, level);
      if s in Sizes(t.left) {
        RemoveOk(t.left, s, lo, level - 1);
      } else {
        RemoveOk(t.right, s, lo + Pow2(level - 1), level - 1);
      }
    }
  }

  predicate Is(t: Trie, s: nat)
  {
    t.Node? && t.size == s
  }

  /** One step of the descent that insertion makes. */
  lemma {:induction false} ReplaceDeeper(t: Trie, s: nat, c: nat, u: Trie, lo: nat, level: nat)
    requires TrieOk(t, lo, level) && s in Sizes(t)
    requires Is(Sub(t, s).left, c) || Is(Sub(t, s).right, c)
    ensures c in Sizes(t)
    ensures Is(Sub(t, s).left, c) ==>
      Sub(t, c) == Sub(t, s).left && Replace(t, c, u) == Replace(t, s, Sub(t, s).(left := u))
    ensures Is(Sub(t, s).right, c) ==>
      Sub(t, c) == Sub(t, s).right && Replace(t, c, u) == Replace(t, s, Sub(t, s).(right := u))
    decreases t
  {
    LeftBelowRight(t, lo, level);
    if t.size == s {
    } else if s in Sizes(t.left) {
      ReplaceDeeper(t.left, s, c, u, lo, level - 1);
    } else {
      ReplaceDeeper(t.right, s, c, u, lo + Pow2(level - 1), level - 1);
    }
  }

  lemma {:induction false} ReplaceSame(t: Trie, s: nat)
    requires s in Sizes(t)
    ensures Replace(t, s, Sub(t, s)) == t
    decreases t
  {
    if t.size == s {
    } else if s in Sizes(t.left) {
      ReplaceSame(t.left, s);
    } else {
      ReplaceSame(t.right, s);
    }
  }

  lemma ReplaceRoot(t: Trie, u: Trie)
    requires t.Node?
    ensures Sub(t, t.size) == t && Replace(t, t.size, u) == u
  {
  }

  /** A size other than the root's can only be on the side its bit points to. */
  lemma SideOf(t: Trie, s: nat, lo: nat, level: nat)
    requires t.Node? && level > 0 && TrieOk(t, lo, level) && s != t.size
    ensures s in Sizes(t) && s >= lo + Pow2(level - 1) ==> s in Sizes(t.right)
    ensures s in Sizes(t) && s < lo + Pow2(level - 1) ==> s in Sizes(t.left)
  {
    SizesInRange(t.left, lo, level - 1);
    SizesInRange(t.right, lo + Pow2(level - 1), level - 1);
  }
}
