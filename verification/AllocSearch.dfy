/** Best fit in the large bins: the two walks of the allocator over its size tries. */
module AllocSearch {
  import opened Arith
  import opened AllocTrie
  import opened AllocLinks
  import opened AllocBins
  import opened AllocBinOps
  import opened AllocTreeOps

  /** Subtraction of sizes as the machine does it. */
  function SizeSub(x: nat, y: nat): nat
  {
    (SIZE_T_MODULUS + x - y) % SIZE_T_MODULUS
  }

  /** The best chunk so far: v of size vs leaves rsize bytes over; before any is found, rsize is -nb. */
  ghost predicate Best(bins: Bins, nb: nat, v: int, vs: nat, rsize: nat)
  {
    0 < nb < SIZE_T_MODULUS &&
    if v == 0 then rsize == SIZE_T_MODULUS - nb
    else
      vs in bins && bins[vs] != [] && v == bins[vs][0] && MIN_LARGE_SIZE <= vs < INDEX_LIMIT && vs >= nb &&
      rsize == vs - nb
  }

  /** A fitting size is no better than the best so far, or still ahead, or above all that is ahead. */
  ghost predicate Covered(s: nat, v: int, vs: nat, ahead: Trie)
  {
    (v != 0 && vs <= s) || s in Sizes(ahead) || (ahead.Node? && forall z :: z in Sizes(ahead) ==> z <= s)
  }

  ghost predicate Cover(all: set<nat>, nb: nat, v: int, vs: nat, ahead: Trie)
  {
    forall s :: s in all && nb <= s < INDEX_LIMIT ==> Covered(s, v, vs, ahead)
  }

  /** Comparing wrapped differences picks the smaller fitting chunk and never one that is too small. */
  lemma Compare(nb: nat, v: int, vs: nat, rsize: nat, s: nat, bins: Bins)
    requires Best(bins, nb, v, vs, rsize) && s < INDEX_LIMIT
    ensures SizeSub(s, nb) < rsize <==> s >= nb && (v == 0 || s < vs)
    ensures s >= nb ==> SizeSub(s, nb) == s - nb
  {
    if s >= nb {
      DivUnique(SIZE_T_MODULUS + s - nb, SIZE_T_MODULUS, 1);
    } else {
      DivUnique(SIZE_T_MODULUS + s - nb, SIZE_T_MODULUS, 0);
    }
  }

  function LeftmostChild(k: Links, t: int): int
  {
    if At(k.child0, t) != 0 then At(k.child0, t) else At(k.child1, t)
  }

  function LeftmostTrie(c: Trie): Trie
    requires c.Node?
  {
    if c.left.Node? then c.left else c.right
  }

  // ---- The walk along leftmost children ----------------------------------

  /** What is ahead is a represented, well formed trie whose sizes all fit, unless the fit is already exact. */
  ghost predicate Ahead(head: map<int, Head>, k: Links, bins: Bins, nb: nat, t: int, c: Trie, lo: nat, level: nat,
                        v: int, vs: nat)
  {
    Listed(head, bins) && Rep(k, bins, t, At(k.parent, t), c) && TrieOk(c, lo, level) &&
    (forall z :: z in Sizes(c) ==> z >= MIN_LARGE_SIZE) &&
    (nb >= INDEX_LIMIT || (v != 0 && vs == nb) || forall z :: z in Sizes(c) ==> z >= nb)
  }

  lemma AheadSize(head: map<int, Head>, k: Links, bins: Bins, nb: nat, t: int, c: Trie, lo: nat, level: nat, v: int,
      vs: nat)
    requires Ahead(head, k, bins, nb, t, c, lo, level, v, vs) && t != 0
    ensures c.Node? && c.size in bins && bins[c.size] != [] && t == bins[c.size][0] && t in head &&
      head[t].size == c.size
    ensures MIN_LARGE_SIZE <= c.size < INDEX_LIMIT
  {
    SizeAt(head, bins, c.size);
    assert ListOk(head, bins, c.size) && c.size in Sizes(c);
  }

  lemma LeftmostStep(head: map<int, Head>, k: Links, bins: Bins, all: set<nat>, nb: nat, t: int, c: Trie, lo: nat,
      level: nat,
                     v: int, vs: nat, rsize: nat, v': int, vs': nat) returns (lo': nat, level': nat)
    requires Ahead(head, k, bins, nb, t, c, lo, level, v, vs) && c.Node? && Best(bins, nb, v, vs, rsize)
    requires Cover(all, nb, v, vs, c)
    requires if c.size >= nb && (v == 0 || c.size < vs) then v' != 0 && vs' == c.size else v' == v && vs' == vs
    ensures Ahead(head, k, bins, nb, LeftmostChild(k, t), LeftmostTrie(c), lo', level', v', vs')
    ensures Cover(all, nb, v', vs', LeftmostTrie(c))
  {
    var d := LeftmostTrie(c);
    RepChild(k, bins, t, c, true);
    RepChild(k, bins, t, c, false);
    LeftBelowRight(c, lo, level);
    lo', level' := if c.left.Node? then lo else if c.right.Node? then lo + Pow2(level - 1) else lo,
                   if d.Node? then level - 1 else 0;
    assert c.size in Sizes(c);
    forall s | s in all && nb <= s < INDEX_LIMIT ensures Covered(s, v', vs', d) {
      assert Covered(s, v, vs, c);
    }
  }

  method ScanLeftmost(head: map<int, Head>, k: Links, ghost bins: Bins, nb: nat, start: int, v0: int, rsize0: nat,
                      ghost all: set<nat>, ghost c0: Trie, ghost lo0: nat, ghost level0: nat, ghost vs0: nat)
    returns (v: int, rsize: nat, ghost vs: nat)
    requires Ahead(head, k, bins, nb, start, c0, lo0, level0, v0, vs0)
    requires Best(bins, nb, v0, vs0, rsize0) && Cover(all, nb, v0, vs0, c0)
    ensures Best(bins, nb, v, vs, rsize)
    ensures forall s :: s in all && nb <= s < INDEX_LIMIT ==> v != 0 && vs <= s
  {
    var t := start;
    v, rsize, vs := v0, rsize0, vs0;
    ghost var c, lo: nat, level: nat := c0, lo0, level0;
    while t != 0
      invariant Ahead(head, k, bins, nb, t, c, lo, level, v, vs)
      invariant Best(bins, nb, v, vs, rsize) && Cover(all, nb, v, vs, c)
      decreases c
    {
      AheadSize(head, k, bins, nb, t, c, lo, level, v, vs);
      Compare(nb, v, vs, rsize, c.size, bins);
      ghost var v1, vs1, rsize1 := v, vs, rsize;
      var trem := SizeSub(head[t].size, nb);
      if trem < rsize {
        rsize, v, vs := trem, t, c.size;
      }
      lo, level := LeftmostStep(head, k, bins, all, nb, t, c, lo, level, v1, vs1, rsize1, v, vs);
      t, c := LeftmostChild(k, t), LeftmostTrie(c);
    }
  }

  // ---- The walk down the bits of the request ------------------------------

  /**
   The walk for nb stands at c; rst is the deepest right subtree it passed by. A fitting size is
   covered by the best so far, or below c, or in rst, or above everything in rst. Requests at or above
   INDEX_LIMIT get the wrong bin index, but then nothing fits.
   */
  ghost predicate Path(head: map<int, Head>, k: Links, bins: Bins, root: Trie, nb: nat, t: int, c: Trie, lo: nat,
      level: nat,
                       bits: nat, rst: int, rc: Trie, rlo: nat, rlevel: nat, v: int, vs: nat)
  {
    Listed(head, bins) && PathTries(k, bins, nb, t, c, lo, level, bits, rst, rc, rlo, rlevel) &&
    PathSizes(root, nb, c, rc, v, vs)
  }

  ghost predicate PathTries(k: Links, bins: Bins, nb: nat, t: int, c: Trie, lo: nat, level: nat,
                            bits: nat, rst: int, rc: Trie, rlo: nat, rlevel: nat)
  {
    Rep(k, bins, t, At(k.parent, t), c) && TrieOk(c, lo, level) &&
    Rep(k, bins, rst, At(k.parent, rst), rc) && TrieOk(rc, rlo, rlevel) &&
    (nb < INDEX_LIMIT ==> BitsOf(bits, nb, lo, level))
  }

  ghost predicate PathSizes(root: Trie, nb: nat, c: Trie, rc: Trie, v: int, vs: nat)
  {
    (forall z :: z in Sizes(root) ==> z < INDEX_LIMIT) &&
    (forall z :: z in Sizes(c) ==> MIN_LARGE_SIZE <= z < INDEX_LIMIT) &&
    (forall z :: z in Sizes(rc) ==> MIN_LARGE_SIZE <= z < INDEX_LIMIT) &&
    (nb < INDEX_LIMIT ==> forall z :: z in Sizes(rc) ==> z > nb) &&
    (forall x, y :: x in Sizes(c) && y in Sizes(rc) ==> x < y) &&
    forall s :: s in Sizes(root) && s >= nb ==> s in Sizes(c) || Covered(s, v, vs, rc)
  }

  lemma PathSize(head: map<int, Head>, k: Links, bins: Bins, root: Trie, nb: nat, t: int, c: Trie, lo: nat, level: nat,
                 bits: nat, rst: int, rc: Trie, rlo: nat, rlevel: nat, v: int, vs: nat)
    requires Path(head, k, bins, root, nb, t, c, lo, level, bits, rst, rc, rlo, rlevel, v, vs) && c.Node?
    ensures c.size in bins && bins[c.size] != [] && t == bins[c.size][0] && t in head && head[t].size == c.size
    ensures MIN_LARGE_SIZE <= c.size < INDEX_LIMIT && t > 0
    ensures c.size != nb && nb < INDEX_LIMIT ==> level > 0
    ensures At(k.child1, t) == 0 <==> c.right == Nil
    ensures At(k.child0, t) == 0 <==> c.left == Nil
    ensures c.left.Node? && c.right.Node? ==> At(k.child0, t) != At(k.child1, t)
  {
    SizeAt(head, bins, c.size);
    assert c.size in Sizes(c);
    RepChild(k, bins, t, c, true);
    RepChild(k, bins, t, c, false);
    ListsInjective(head, bins);
    LeftBelowRight(c, lo, level);
    ChildrenDiffer(k, bins, t, c);
  }

  lemma ChildrenDiffer(k: Links, bins: Bins, t: int, c: Trie)
    requires c.Node? && Rep(k, bins, t, At(k.parent, t), c) && Injective(bins)
    requires forall x, y :: x in Sizes(c.left) && y in Sizes(c.right) ==> x < y
    ensures c.left.Node? && c.right.Node? ==> At(k.child0, t) != At(k.child1, t)
  {
    ChildHeads(k, bins, t, At(k.parent, t), c);
  }

  /** Where the walk goes on, and what it remembers. */
  lemma NextTries(k: Links, bins: Bins, nb: nat, t: int, c: Trie, lo: nat, level: nat,
                  bits: nat, rst: int, rc: Trie, rlo: nat, rlevel: nat)
    returns (lo': nat, level': nat, rlo': nat, rlevel': nat)
    requires PathTries(k, bins, nb, t, c, lo, level, bits, rst, rc, rlo, rlevel) && c.Node? && c.size != nb
    ensures var side := bits >= SIZE_T_MODULUS / 2; var t' := if side then At(k.child1, t) else At(k.child0, t);
      var skip := !side && c.right.Node?;
      PathTries(k, bins, nb, t', Child(c, side), lo', level', NextBits(bits), if skip then At(k.child1, t) else rst,
                if skip then c.right else rc, rlo', rlevel')
  {
    var side := bits >= SIZE_T_MODULUS / 2;
    var skip := !side && c.right.Node?;
    RepChild(k, bins, t, c, true);
    RepChild(k, bins, t, c, false);
    PathBits(c, nb, lo, level, bits);
    hide BitsOf, Pow2, Sizes;
    lo', level' := lo, level;
    rlo', rlevel' := rlo, rlevel;
    if level > 0 {
      lo', level' := if side then lo + Pow2(level - 1) else lo, level - 1;
      rlo', rlevel' := if skip then lo + Pow2(level - 1) else rlo, if skip then level - 1 else rlevel;
    }
  }

  lemma NextSizes(root: Trie, nb: nat, c: Trie, lo: nat, level: nat, bits: nat, rc: Trie, v: int, vs: nat, v': int,
      vs': nat)
    requires PathSizes(root, nb, c, rc, v, vs) && c.Node? && TrieOk(c, lo, level) && c.size != nb
    requires nb < INDEX_LIMIT ==> BitsOf(bits, nb, lo, level)
    requires if c.size >= nb && (v == 0 || c.size < vs) then v' != 0 && vs' == c.size else v' == v && vs' == vs
    ensures var side := bits >= SIZE_T_MODULUS / 2;
      PathSizes(root, nb, Child(c, side), if !side && c.right.Node? then c.right else rc, v', vs')
  {
    var side := bits >= SIZE_T_MODULUS / 2;
    LeftBelowRight(c, lo, level);
    PathBits(c, nb, lo, level, bits);
    NextOrder(c, rc, side, nb);
    RootSizes(root, nb, c, rc, v, vs);
    hide Covered, TrieOk, Sizes, BitsOf, Pow2, NextBits;
    forall s | s in Sizes(root) && s >= nb
      ensures s in Sizes(Child(c, side)) || Covered(s, v', vs', if !side && c.right.Node? then c.right else rc)
    {
      assert s in Sizes(c) || Covered(s, v, vs, rc);
      PathCover(c, nb, side, v, vs, v', vs', rc, s);
    }
  }

  lemma RootSizes(root: Trie, nb: nat, c: Trie, rc: Trie, v: int, vs: nat)
    requires PathSizes(root, nb, c, rc, v, vs)
    ensures forall z :: z in Sizes(root) ==> z < INDEX_LIMIT
  {
  }

  /** Going on: right subtrees not taken are remembered; left ones not taken hold only sizes below nb. */
  lemma PathStep(head: map<int, Head>, k: Links, bins: Bins, root: Trie, nb: nat, t: int, c: Trie, lo: nat, level: nat,
                 bits: nat, rst: int, rc: Trie, rlo: nat, rlevel: nat, v: int, vs: nat, v': int, vs': nat)
    returns (lo': nat, level': nat, rlo': nat, rlevel': nat)
    requires Path(head, k, bins, root, nb, t, c, lo, level, bits, rst, rc, rlo, rlevel, v, vs) && c.Node?
    requires if c.size >= nb && (v == 0 || c.size < vs) then v' != 0 && vs' == c.size else v' == v && vs' == vs
    requires c.size != nb
    ensures var side := bits >= SIZE_T_MODULUS / 2; var d := Child(c, side);
      var t' := if side then At(k.child1, t) else At(k.child0, t);
      var skip := !side && c.right.Node?;
      Path(head, k, bins, root, nb, t', d, lo', level', NextBits(bits), if skip then At(k.child1, t) else rst,
           if skip then c.right else rc, rlo', rlevel', v', vs')
  {
    assert TrieOk(c, lo, level) && (nb < INDEX_LIMIT ==> BitsOf(bits, nb, lo, level));
    hide PathTries, PathSizes, Listed, TrieOk, BitsOf, NextBits, Sizes;
    lo', level', rlo', rlevel' := NextTries(k, bins, nb, t, c, lo, level, bits, rst, rc, rlo, rlevel);
    NextSizes(root, nb, c, lo, level, bits, rc, v, vs, v', vs');
  }

  lemma NextOrder(c: Trie, rc: Trie, side: bool, nb: nat)
    requires c.Node?
    requires forall x, y :: x in Sizes(c) && y in Sizes(rc) ==> x < y
    requires forall x, y :: x in Sizes(c.left) && y in Sizes(c.right) ==> x < y
    requires nb < INDEX_LIMIT ==> forall z :: z in Sizes(rc) ==> z > nb
    requires nb < INDEX_LIMIT && !side ==> forall z :: z in Sizes(c.right) ==> z > nb
    requires forall z :: z in Sizes(c) ==> MIN_LARGE_SIZE <= z < INDEX_LIMIT
    requires forall z :: z in Sizes(rc) ==> MIN_LARGE_SIZE <= z < INDEX_LIMIT
    ensures var d, rc' := Child(c, side), if !side && c.right.Node? then c.right else rc;
      (forall x, y :: x in Sizes(d) && y in Sizes(rc') ==> x < y) &&
        (nb < INDEX_LIMIT ==> forall z :: z in Sizes(rc') ==> z > nb) &&
      (forall z :: z in Sizes(d) ==> MIN_LARGE_SIZE <= z < INDEX_LIMIT) &&
      (forall z :: z in Sizes(rc') ==> MIN_LARGE_SIZE <= z < INDEX_LIMIT)
  {
    var d := Child(c, side);
    assert Sizes(d) <= Sizes(c) && Sizes(c.right) <= Sizes(c);
  }

  /** The bit of nb points away from everything that is too small, and past it lies only what is too big. */
  lemma PathBits(c: Trie, nb: nat, lo: nat, level: nat, bits: nat)
    requires c.Node? && TrieOk(c, lo, level) && c.size != nb
    ensures nb < INDEX_LIMIT && BitsOf(bits, nb, lo, level) ==> level > 0
    ensures nb < INDEX_LIMIT && BitsOf(bits, nb, lo, level) ==>
      BitsOf(NextBits(bits), nb, if bits >= SIZE_T_MODULUS / 2 then lo + Pow2(level - 1) else lo, level - 1)
    ensures nb < INDEX_LIMIT && BitsOf(bits, nb, lo, level) ==>
      if bits >= SIZE_T_MODULUS / 2 then forall z :: z in Sizes(c.left) ==> z < nb
      else forall z :: z in Sizes(c.right) ==> z > nb
  {
    if level > 0 && BitsOf(bits, nb, lo, level) {
      BitStep(bits, nb, lo, level);
      SizesInRange(c.left, lo, level - 1);
      SizesInRange(c.right, lo + Pow2(level - 1), level - 1);
    }
  }

  lemma PathCover(c: Trie, nb: nat, side: bool, v: int, vs: nat, v': int, vs': nat, rc: Trie, s: nat)
    requires c.Node? && s >= nb && (s in Sizes(c) || Covered(s, v, vs, rc))
    requires if c.size >= nb && (v == 0 || c.size < vs) then v' != 0 && vs' == c.size else v' == v && vs' == vs
    requires side ==> s !in Sizes(c.left)
    requires forall x, y :: x in Sizes(c.left) && y in Sizes(c.right) ==> x < y
    requires forall x, y :: x in Sizes(c) && y in Sizes(rc) ==> x < y
    ensures s in Sizes(Child(c, side)) || Covered(s, v', vs', if !side && c.right.Node? then c.right else rc)
  {
    assert rc.Node? ==> rc.size in Sizes(rc);
  }

  /** The first loop of tmalloc_large, started at the root of the bin of nb. */
  method WalkLarge(head: map<int, Head>, k: Links, ghost bins: Bins, nb: nat, start: int, first: nat,
                   ghost root: Trie, ghost lo0: nat, ghost level0: nat)
    returns (t: int, v: int, rsize: nat, ghost vs: nat, ghost c: Trie, ghost lo: nat, ghost level: nat)
    requires root.Node? && 0 < nb < SIZE_T_MODULUS
    requires Path(head, k, bins, root, nb, start, root, lo0, level0, first, 0, Nil, 0, 0, 0, 0)
    ensures Ahead(head, k, bins, nb, t, c, lo, level, v, vs) && Best(bins, nb, v, vs, rsize)
    ensures Cover(Sizes(root), nb, v, vs, c)
    ensures v != 0 ==> vs in Sizes(root)
    ensures c == Nil || Sizes(c) <= Sizes(root)
  {
    hide *;
    t, v, rsize, vs := start, 0, SizeSub(0, nb), 0;
    NoBest(bins, nb);
    c, lo, level := root, lo0, level0;
    var bits: nat := first;
    var rst := 0;
    ghost var rc, rlo: nat, rlevel: nat := Nil, 0, 0;
    while true
      invariant c.Node? && Path(head, k, bins, root, nb, t, c, lo, level, bits, rst, rc, rlo, rlevel, v, vs)
      invariant Best(bins, nb, v, vs, rsize) && rsize > 0 && (v != 0 ==> vs in Sizes(root))
      invariant Sizes(c) <= Sizes(root) && (rc == Nil || Sizes(rc) <= Sizes(root))
      decreases c
    {
      PathSize(head, k, bins, root, nb, t, c, lo, level, bits, rst, rc, rlo, rlevel, v, vs);
      ChildSizes(c, root, bits >= SIZE_T_MODULUS / 2);
      ghost var v1, vs1 := v, vs;
      var trem := SizeSub(head[t].size, nb);
      Improve(bins, nb, v, vs, rsize, t, c.size);
      if trem < rsize {
        v, vs := t, c.size;
        rsize := trem;
        if rsize == 0 {
          PathExact(head, k, bins, root, nb, t, c, lo, level, bits, rst, rc, rlo, rlevel, v1, vs1);
          break;
        }
      }
      ghost var side := bits >= SIZE_T_MODULUS / 2;
      lo, level, rlo, rlevel :=
        PathStep(head, k, bins, root, nb, t, c, lo, level, bits, rst, rc, rlo, rlevel, v1, vs1, v, vs);
      var rt := At(k.child1, t);
      t := if bits >= SIZE_T_MODULUS / 2 then At(k.child1, t) else At(k.child0, t);
      if rt != 0 && rt != t {
        rst := rt;
        rc := c.right;
      }
      c := Child(c, side);
      bits := NextBits(bits);
      if t == 0 {
        PathEnd(head, k, bins, root, nb, t, c, lo, level, bits, rst, rc, rlo, rlevel, v, vs);
        t, c, lo, level := rst, rc, rlo, rlevel;
        break;
      }
    }
  }

  lemma ChildSizes(c: Trie, root: Trie, side: bool)
    requires c.Node? && Sizes(c) <= Sizes(root)
    ensures c.size in Sizes(root) && Sizes(Child(c, side)) <= Sizes(root) && Sizes(c.right) <= Sizes(root)
    ensures c decreases to Child(c, side)
    ensures Child(c, side) == if side then c.right else c.left
  {
  }

  lemma Improve(bins: Bins, nb: nat, v: int, vs: nat, rsize: nat, t: int, s: nat)
    requires Best(bins, nb, v, vs, rsize) && MIN_LARGE_SIZE <= s < INDEX_LIMIT && t > 0
    requires s in bins && bins[s] != [] && t == bins[s][0]
    ensures SizeSub(s, nb) < rsize <==> s >= nb && (v == 0 || s < vs)
    ensures SizeSub(s, nb) < rsize ==> Best(bins, nb, t, s, SizeSub(s, nb))
    ensures SizeSub(s, nb) < rsize ==> (SizeSub(s, nb) == 0 <==> s == nb)
    ensures rsize == 0 ==> v != 0 && vs == nb
    ensures s == nb && rsize > 0 ==> SizeSub(s, nb) == 0
  {
    Compare(nb, v, vs, rsize, s, bins);
  }

  lemma PathExact(head: map<int, Head>, k: Links, bins: Bins, root: Trie, nb: nat, t: int, c: Trie, lo: nat, level: nat,
                  bits: nat, rst: int, rc: Trie, rlo: nat, rlevel: nat, v: int, vs: nat)
    requires Path(head, k, bins, root, nb, t, c, lo, level, bits, rst, rc, rlo, rlevel, v, vs) && t != 0
    ensures Ahead(head, k, bins, nb, t, c, lo, level, t, nb) && Cover(Sizes(root), nb, t, nb, c)
  {
  }

  lemma NoBest(bins: Bins, nb: nat)
    requires 0 < nb < SIZE_T_MODULUS
    ensures Best(bins, nb, 0, 0, SizeSub(0, nb)) && SizeSub(0, nb) > 0
  {
  }

  lemma PathEnd(head: map<int, Head>, k: Links, bins: Bins, root: Trie, nb: nat, t: int, c: Trie, lo: nat, level: nat,
                bits: nat, rst: int, rc: Trie, rlo: nat, rlevel: nat, v: int, vs: nat)
    requires Path(head, k, bins, root, nb, t, c, lo, level, bits, rst, rc, rlo, rlevel, v, vs) && t == 0
    ensures Ahead(head, k, bins, nb, rst, rc, rlo, rlevel, v, vs) && Cover(Sizes(root), nb, v, vs, rc)
  {
  }

  // ---- All large bins ----------------------------------------------------

  ghost function LargeSizes(bins: Bins): set<nat>
  {
    set s | s in bins && s >= MIN_LARGE_SIZE
  }

  /** The lowest marked bin above bin i, as left_bits and lj_ffs find it. */
  function NextBin(treemap: set<nat>, i: nat): (r: nat)
    ensures r < NTREEBINS ==> r in treemap && r > i && forall j :: j in treemap && i < j < NTREEBINS ==> r <= j
    ensures r >= NTREEBINS ==> forall j :: j in treemap && i < j < NTREEBINS ==> false
    decreases NTREEBINS - i
  {
    if i + 1 >= NTREEBINS then NTREEBINS
    else if i + 1 in treemap then i + 1
    else NextBin(treemap, i + 1)
  }

  ghost predicate LargeOk(head: map<int, Head>, k: Links, treemap: set<nat>, treebins: seq<int>, bins: Bins,
      tries: seq<Trie>)
  {
    Listed(head, bins) && TreesOk(k, treemap, treebins, bins, tries)
  }

  lemma BinAhead(head: map<int, Head>, k: Links, treemap: set<nat>, treebins: seq<int>, bins: Bins, tries: seq<Trie>,
      i: nat, nb: nat)
    requires LargeOk(head, k, treemap, treebins, bins, tries) && i in treemap && i < NTREEBINS
    requires nb >= INDEX_LIMIT || (forall s :: s in Sizes(tries[i]) ==> s >= nb)
    ensures tries[i].Node? && Ahead(head, k, bins, nb, treebins[i], tries[i], LowOf(i), LevelOf(i), 0, 0)
  {
    assert TreeOk(k, treemap, treebins, bins, tries, i);
    RepSub(k, bins, treebins[i], TreeBinAt(i), tries[i], tries[i].size);
  }

  lemma PathBegin(head: map<int, Head>, k: Links, treemap: set<nat>, treebins: seq<int>, bins: Bins, tries: seq<Trie>,
      nb: nat)
    requires LargeOk(head, k, treemap, treebins, bins, tries) && MIN_LARGE_SIZE <= nb < SIZE_T_MODULUS
    ensures |treebins| == |tries| == NTREEBINS
    ensures var i := TreeIndex(nb); treebins[i] != 0 <==> tries[i].Node?
    ensures var i := TreeIndex(nb); treebins[i] != 0 ==>
      Path(head, k, bins, tries[i], nb, treebins[i], tries[i], LowOf(i), LevelOf(i), FirstBits(nb, i), 0, Nil, 0, 0, 0,
        0)
  {
    var i := TreeIndex(nb);
    assert TreeOk(k, treemap, treebins, bins, tries, i);
    if treebins[i] != 0 {
      RepSub(k, bins, treebins[i], TreeBinAt(i), tries[i], tries[i].size);
      forall z | z in Sizes(tries[i]) ensures MIN_LARGE_SIZE <= z < INDEX_LIMIT {
        assert ListOk(head, bins, z);
      }
      if nb < INDEX_LIMIT {
        ShiftedBits(nb);
      }
    }
  }

  lemma SizeInBin(head: map<int, Head>, k: Links, treemap: set<nat>, treebins: seq<int>, bins: Bins, tries: seq<Trie>,
      s: nat)
    requires LargeOk(head, k, treemap, treebins, bins, tries) && s in bins && s >= MIN_LARGE_SIZE
    ensures TreeIndex(s) in treemap && s in Sizes(tries[TreeIndex(s)]) && s < INDEX_LIMIT
  {
    assert TreeOk(k, treemap, treebins, bins, tries, TreeIndex(s)) && ListOk(head, bins, s);
  }

  lemma BinSizes(head: map<int, Head>, k: Links, treemap: set<nat>, treebins: seq<int>, bins: Bins, tries: seq<Trie>,
      i: nat, s: nat)
    requires LargeOk(head, k, treemap, treebins, bins, tries) && i < NTREEBINS && s in Sizes(tries[i])
    ensures s in bins && MIN_LARGE_SIZE <= s < INDEX_LIMIT && TreeIndex(s) == i
  {
    assert TreeOk(k, treemap, treebins, bins, tries, i) && ListOk(head, bins, s);
  }

  /** Something found in the request's own bin beats every other bin. */
  lemma OwnBinCovers(head: map<int, Head>, k: Links, treemap: set<nat>, treebins: seq<int>, bins: Bins,
      tries: seq<Trie>,
                     nb: nat, v: int, vs: nat, c: Trie)
    requires LargeOk(head, k, treemap, treebins, bins, tries) && MIN_LARGE_SIZE <= nb
    requires Cover(Sizes(tries[TreeIndex(nb)]), nb, v, vs, c)
    requires v != 0 || c.Node?
    requires v != 0 ==> vs in Sizes(tries[TreeIndex(nb)])
    requires c == Nil || Sizes(c) <= Sizes(tries[TreeIndex(nb)])
    ensures Cover(LargeSizes(bins), nb, v, vs, c)
  {
    var i := TreeIndex(nb);
    forall s | s in LargeSizes(bins) && nb <= s < INDEX_LIMIT ensures Covered(s, v, vs, c) {
      SizeInBin(head, k, treemap, treebins, bins, tries, s);
      if TreeIndex(s) != i {
        IndexMono(nb, s);
        if v != 0 {
          BinSizes(head, k, treemap, treebins, bins, tries, i, vs);
          if vs > s { IndexMono(s, vs); }
        } else {
          forall z | z in Sizes(c) ensures z <= s {
            BinSizes(head, k, treemap, treebins, bins, tries, i, z);
            if z > s { IndexMono(s, z); }
          }
        }
      }
    }
  }

  /** With nothing in the request's own bin, the next marked bin holds the smallest fitting sizes. */
  lemma NextBinCovers(head: map<int, Head>, k: Links, treemap: set<nat>, treebins: seq<int>, bins: Bins,
      tries: seq<Trie>, nb: nat)
    requires LargeOk(head, k, treemap, treebins, bins, tries) && MIN_LARGE_SIZE <= nb
    requires Cover(Sizes(tries[TreeIndex(nb)]), nb, 0, 0, Nil)
    ensures var j := NextBin(treemap, TreeIndex(nb));
      Cover(LargeSizes(bins), nb, 0, 0, if j < NTREEBINS then tries[j] else Nil)
    ensures var j := NextBin(treemap, TreeIndex(nb)); j < NTREEBINS ==>
      tries[j].Node? && (nb >= INDEX_LIMIT || forall z :: z in Sizes(tries[j]) ==> z >= nb)
  {
    var i := TreeIndex(nb);
    var j := NextBin(treemap, i);
    if j < NTREEBINS {
      assert TreeOk(k, treemap, treebins, bins, tries, j);
      forall z | nb < INDEX_LIMIT && z in Sizes(tries[j]) ensures z >= nb {
        BinSizes(head, k, treemap, treebins, bins, tries, j, z);
        if z < nb { IndexMono(z, nb); }
      }
    }
    forall s | s in LargeSizes(bins) && nb <= s < INDEX_LIMIT
      ensures Covered(s, 0, 0, if j < NTREEBINS then tries[j] else Nil)
    {
      SizeInBin(head, k, treemap, treebins, bins, tries, s);
      IndexMono(nb, s);
      assert TreeIndex(s) == i ==> Covered(s, 0, 0, Nil);
      assert j <= TreeIndex(s);
      if TreeIndex(s) != j {
        forall z | z in Sizes(tries[j]) ensures z <= s {
          BinSizes(head, k, treemap, treebins, bins, tries, j, z);
          if z > s { IndexMono(s, z); }
        }
      }
    }
  }

  /** v is a chunk of the smallest binned large size that holds nb, and is null exactly when there is none. */
  ghost predicate BestFit(bins: Bins, nb: nat, v: int, vs: nat, rsize: nat)
  {
    Best(bins, nb, v, vs, rsize) && forall s :: s in LargeSizes(bins) && s >= nb ==> v != 0 && vs <= s
  }

  lemma FitsBelowLimit(head: map<int, Head>, k: Links, treemap: set<nat>, treebins: seq<int>, bins: Bins,
      tries: seq<Trie>,
                       nb: nat, v: int, vs: nat, rsize: nat)
    requires LargeOk(head, k, treemap, treebins, bins, tries) && Best(bins, nb, v, vs, rsize)
    requires forall s :: s in LargeSizes(bins) && nb <= s < INDEX_LIMIT ==> v != 0 && vs <= s
    ensures BestFit(bins, nb, v, vs, rsize)
  {
    forall s | s in LargeSizes(bins) ensures s < INDEX_LIMIT {
      assert ListOk(head, bins, s);
    }
  }

  /** The search of tmalloc_large. */
  method FindLarge(head: map<int, Head>, k: Links, treemap: set<nat>, treebins: seq<int>, ghost bins: Bins,
      ghost tries: seq<Trie>,
                   nb: nat)
    returns (v: int, rsize: nat, ghost vs: nat)
    requires LargeOk(head, k, treemap, treebins, bins, tries) && MIN_LARGE_SIZE <= nb < SIZE_T_MODULUS
    ensures BestFit(bins, nb, v, vs, rsize)
  {
    PathBegin(head, k, treemap, treebins, bins, tries, nb);
    hide *;
    var idx := TreeIndex(nb);
    v, rsize, vs := 0, SizeSub(0, nb), 0;
    NoBest(bins, nb);
    var t := treebins[idx];
    ghost var c, lo: nat, level: nat := Nil, 0, 0;
    NothingAhead(head, k, bins, nb, v, vs);
    if t != 0 {
      t, v, rsize, vs, c, lo, level :=
        WalkLarge(head, k, bins, nb, t, FirstBits(nb, idx), tries[idx], LowOf(idx), LevelOf(idx));
    }
    AheadNull(head, k, bins, nb, t, c, lo, level, v, vs);
    EmptyCover(head, k, treemap, treebins, bins, tries, nb, v, vs);
    if t == 0 && v == 0 {
      NextBinCovers(head, k, treemap, treebins, bins, tries, nb);
      var i := NextBin(treemap, idx);
      if i < NTREEBINS {
        BinAhead(head, k, treemap, treebins, bins, tries, i, nb);
        t, c, lo, level := treebins[i], tries[i], LowOf(i), LevelOf(i);
      }
    } else {
      OwnBinCovers(head, k, treemap, treebins, bins, tries, nb, v, vs, c);
    }
    v, rsize, vs := ScanLeftmost(head, k, bins, nb, t, v, rsize, LargeSizes(bins), c, lo, level, vs);
    FitsBelowLimit(head, k, treemap, treebins, bins, tries, nb, v, vs, rsize);
  }

  lemma NothingAhead(head: map<int, Head>, k: Links, bins: Bins, nb: nat, v: int, vs: nat)
    requires Listed(head, bins)
    ensures Ahead(head, k, bins, nb, 0, Nil, 0, 0, v, vs)
  {
  }

  lemma AheadNull(head: map<int, Head>, k: Links, bins: Bins, nb: nat, t: int, c: Trie, lo: nat, level: nat, v: int,
      vs: nat)
    requires Ahead(head, k, bins, nb, t, c, lo, level, v, vs)
    ensures t == 0 <==> c == Nil
  {
  }

  lemma EmptyCover(head: map<int, Head>, k: Links, treemap: set<nat>, treebins: seq<int>, bins: Bins, tries: seq<Trie>,
                   nb: nat, v: int, vs: nat)
    requires LargeOk(head, k, treemap, treebins, bins, tries)
    ensures |treebins| == |tries| == NTREEBINS
    ensures var i := TreeIndex(nb); tries[i] == Nil ==> Cover(Sizes(tries[i]), nb, v, vs, Nil)
  {
  }

  /** The search of tmalloc_small: the smallest chunk of all trees, from the lowest marked bin. */
  method FindSmallest(head: map<int, Head>, k: Links, treemap: set<nat>, treebins: seq<int>, ghost bins: Bins,
                      ghost tries: seq<Trie>, nb: nat)
    returns (v: int, rsize: nat, ghost vs: nat)
    requires LargeOk(head, k, treemap, treebins, bins, tries) && 0 < nb < MIN_LARGE_SIZE && treemap != {}
    ensures BestFit(bins, nb, v, vs, rsize) && v != 0
  {
    var i := if 0 in treemap then 0 else NextBin(treemap, 0);
    LowestBin(head, k, treemap, treebins, bins, tries, nb);
    hide *;
    var t := treebins[i];
    v, rsize, vs := t, head[t].size - nb, tries[i].size;
    var lo, level := LeftmostStep(head, k, bins, LargeSizes(bins), nb, t, tries[i], LowOf(i), LevelOf(i), 0, 0,
      SIZE_T_MODULUS - nb, v, vs);
    v, rsize, vs := ScanLeftmost(head, k, bins, nb, LeftmostChild(k, t), v, rsize, LargeSizes(bins),
      LeftmostTrie(tries[i]), lo, level, vs);
    FitsBelowLimit(head, k, treemap, treebins, bins, tries, nb, v, vs, rsize);
    NotNull(head, k, treemap, treebins, bins, tries, nb, v, vs, rsize);
  }

  lemma LowestBin(head: map<int, Head>, k: Links, treemap: set<nat>, treebins: seq<int>, bins: Bins, tries: seq<Trie>,
      nb: nat)
    requires LargeOk(head, k, treemap, treebins, bins, tries) && 0 < nb < MIN_LARGE_SIZE && treemap != {}
    ensures var i := if 0 in treemap then 0 else NextBin(treemap, 0);
      i in treemap && i < NTREEBINS && |treebins| == |tries| == NTREEBINS && tries[i].Node? &&
      Ahead(head, k, bins, nb, treebins[i], tries[i], LowOf(i), LevelOf(i), 0, 0) &&
      Cover(LargeSizes(bins), nb, 0, 0, tries[i]) && treebins[i] != 0 && treebins[i] in head &&
      tries[i].size >= nb && head[treebins[i]].size == tries[i].size &&
      Best(bins, nb, treebins[i], tries[i].size, tries[i].size - nb) && Best(bins, nb, 0, 0, SIZE_T_MODULUS - nb)
  {
    var j :| j in treemap;
    var i := if 0 in treemap then 0 else NextBin(treemap, 0);
    assert TreeOk(k, treemap, treebins, bins, tries, i);
    forall z | z in Sizes(tries[i]) ensures z >= nb {
      BinSizes(head, k, treemap, treebins, bins, tries, i, z);
    }
    BinAhead(head, k, treemap, treebins, bins, tries, i, nb);
    AheadSize(head, k, bins, nb, treebins[i], tries[i], LowOf(i), LevelOf(i), 0, 0);
    forall s | s in LargeSizes(bins) && nb <= s < INDEX_LIMIT ensures Covered(s, 0, 0, tries[i]) {
      SizeInBin(head, k, treemap, treebins, bins, tries, s);
      if TreeIndex(s) != i {
        forall z | z in Sizes(tries[i]) ensures z <= s {
          BinSizes(head, k, treemap, treebins, bins, tries, i, z);
          if z > s { IndexMono(s, z); }
        }
      }
    }
  }

  lemma NotNull(head: map<int, Head>, k: Links, treemap: set<nat>, treebins: seq<int>, bins: Bins, tries: seq<Trie>,
                nb: nat, v: int, vs: nat, rsize: nat)
    requires LargeOk(head, k, treemap, treebins, bins, tries) && treemap != {} && nb < MIN_LARGE_SIZE
    requires BestFit(bins, nb, v, vs, rsize)
    ensures v != 0
  {
    var j :| j in treemap;
    assert TreeOk(k, treemap, treebins, bins, tries, j);
    assert tries[j].size in Sizes(tries[j]);
    assert tries[j].size in LargeSizes(bins);
  }
}
