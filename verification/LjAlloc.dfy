/**
 The memory allocator of the bundled LuaJIT: a dlmalloc variant. The state is kept as the
 C code keeps it, as words in memory that macros and loops overwrite; ghost fields record
 which lists and tries those words stand for.
 */
module LjAlloc {
  import opened Arith
  import opened AllocTrie
  import opened AllocLinks
  import opened AllocBins
  import opened AllocBinOps
  import opened AllocTreeOps
  import opened AllocUnlink
  import opened AllocSearch
  import opened AllocHeap
  import opened AllocState
  import opened AllocRequest
  import opened AllocSegments

  /**
   The walk of insert_large_chunk from the root of a tree bin: down the bits of s to a node
   of that size, or to the empty slot for it.
   */
  method FindSlot(head: map<int, Head>, link: Links, ghost bins: Bins, ghost root: Trie, s: nat,
                  ghost lo0: nat, ghost level0: nat, start: int, first: nat)
    returns (t: int, side: bool, hit: bool, ghost c: nat)
    requires Listed(head, bins) && Walk(link, bins, root, s, lo0, level0, start, first, root, lo0, level0)
    ensures c in Sizes(root) && c in bins && bins[c] != [] && t == bins[c][0]
    ensures hit <==> c == s
    ensures !hit ==> IsSlot(root, s, lo0, level0, c, side)
  {
    hide *;
    t, c := start, 0;
    var bits: nat := first;
    ghost var sub, lo: nat, level: nat := root, lo0, level0;
    while true
      invariant Walk(link, bins, root, s, lo0, level0, t, bits, sub, lo, level)
      decreases level
    {
      WalkAt(head, link, bins, root, s, lo0, level0, t, bits, sub, lo, level);
      c, side, hit := sub.size, bits >= SIZE_T_MODULUS / 2, head[t].size == s;
      if !hit {
        WalkStep(link, bins, root, s, lo0, level0, t, bits, sub, lo, level);
        bits := NextBits(bits);
        var slot := if side then At(link.child1, t) else At(link.child0, t);
        if slot != 0 {
          t := slot;
          sub := Child(sub, side);
          lo, level := if side then lo + Pow2(level - 1) else lo, level - 1;
        } else {
          return;
        }
      } else {
        return;
      }
    }
  }

  /** Chunk r gets x's parent and x's children. */
  function TakeOver(k: Links, x: int, r: int, xp: int): Links
  {
    var k1 := k.(parent := k.parent[r := xp]);
    var c0 := At(k1.child0, x);
    var k2 := if c0 == 0 then k1 else k1.(child0 := k1.child0[r := c0], parent := k1.parent[c0 := r]);
    var c1 := At(k2.child1, x);
    if c1 == 0 then k2 else k2.(child1 := k2.child1[r := c1], parent := k2.parent[c1 := r])
  }

  lemma DetachIs(k: Links, x: int, r: int, xp: int)
    requires xp != 0
    ensures var k0 := if xp < 0 then k
        else if At(k.child0, xp) == x then k.(child0 := k.child0[xp := r]) else k.(child1 := k.child1[xp := r]);
      Detach(k, x, r, xp) == if r == 0 then k0 else TakeOver(k0, x, r, xp)
    requires At(k.parent, x) == xp
  {
  }

  lemma CutOffIs(k: Links, bins: Bins, sub: Trie, r: int, h: int, side: bool)
    requires sub.Node? && (r == 0 <==> IsLeaf(sub))
    requires r != 0 ==>
      (Holder(sub).0 in bins && bins[Holder(sub).0] != [] && h == bins[Holder(sub).0][0] && side == Holder(sub).1)
    requires r != 0 ==> (LeafOf(sub) in bins && bins[LeafOf(sub)] != [] && r == bins[LeafOf(sub)][0])
    ensures r == Filler(bins, sub)
    ensures CutOff(k, bins, sub) == if r == 0 then k else ClearSlot(k, h, side)
  {
  }

  /** The three ways a chunk can leave a large bin. */
  lemma UnlinkCases(head: map<int, Head>, k: Links, smallmap: set<nat>, treemap: set<nat>, treebins: seq<int>,
                    bins: Bins, tries: seq<Trie>, x: int, s: nat)
    requires BinsOk(head, k, smallmap, treemap, treebins, bins, tries)
    requires InList(bins, s, x) && s >= MIN_LARGE_SIZE
    ensures |treebins| == |tries| == NTREEBINS && At(k.index, x) == TreeIndex(s) && s in bins && x in bins[s]
    ensures At(k.bk, x) != x <==> |bins[s]| > 1
    ensures At(k.parent, x) != 0 ==> (At(k.parent, x) < 0 <==> x == treebins[TreeIndex(s)])
    ensures At(k.bk, x) != x ==>
      var y, xp, bins' := At(k.bk, x), At(k.parent, x), bins[s := RingWithout(bins[s], x)];
      var k1 := Bridge(k, y, At(k.fd, x));
      y != 0 && At(k1.parent, x) == xp && Removed(bins, bins', s, x) &&
      BinsOk(head, if xp == 0 then k1 else Detach(k1, x, y, xp), smallmap, treemap,
             if xp < 0 then treebins[TreeIndex(s) := y] else treebins, bins', tries)
    ensures At(k.bk, x) == x ==>
      var i, xp := TreeIndex(s), At(k.parent, x);
      xp != 0 && s in Sizes(tries[i]) && Removed(bins, bins - {s}, s, x) &&
      var sub := Sub(tries[i], s); var y := Filler(bins, sub);
      Rep(k, bins, x, xp, sub) && At(CutOff(k, bins, sub).parent, x) == xp &&
      BinsOk(head, Detach(CutOff(k, bins, sub), x, y, xp), smallmap,
             if xp < 0 then MapAfter(treemap, i, y) else treemap,
             if xp < 0 then treebins[i := y] else treebins, bins - {s}, tries[i := Remove(tries[i], s)])
  {
    hide *;
    UnlinkStart(head, k, smallmap, treemap, treebins, bins, tries, x, s);
    if |bins[s]| == 1 {
      LastReady(head, k, smallmap, treemap, treebins, bins, tries, x, s);
      LastNodes(head, k, treemap, treebins, bins, tries, x, s, TreeIndex(s));
      UnlinkLastOk(head, k, smallmap, treemap, treebins, bins, tries, x, s);
      CutOffParent(k, bins, Sub(tries[TreeIndex(s)], s));
    } else if x == bins[s][0] {
      UnlinkHeadOk(head, k, smallmap, treemap, treebins, bins, tries, x, s);
      BridgeParent(k, At(k.bk, x), At(k.fd, x));
    } else {
      UnlinkSpareOk(head, k, smallmap, treemap, treebins, bins, tries, x, s);
      BridgeParent(k, At(k.bk, x), At(k.fd, x));
    }
  }

  lemma UnlinkStart(head: map<int, Head>, k: Links, smallmap: set<nat>, treemap: set<nat>, treebins: seq<int>,
                    bins: Bins, tries: seq<Trie>, x: int, s: nat)
    requires BinsOk(head, k, smallmap, treemap, treebins, bins, tries)
    requires InList(bins, s, x) && s >= MIN_LARGE_SIZE
    ensures |treebins| == |tries| == NTREEBINS && At(k.index, x) == TreeIndex(s) && s in bins && x in bins[s]
    ensures |bins[s]| == 1 ==> x == bins[s][0]
    ensures |bins[s]| >= 1 && (|bins[s]| > 1 ==> At(k.bk, x) != 0)
  {
    assert RingOk(k, bins, s) && ListOk(head, bins, s);
    var j := IndexIn(bins[s], x);
    if |bins[s]| > 1 { RingWithoutShape(k, bins[s], x); }
    hide TreesOk, SmallsOk, RingsOk, Listed, TreeIndex;
  }

  lemma CutOffParent(k: Links, bins: Bins, sub: Trie)
    requires sub.Node?
    ensures CutOff(k, bins, sub).parent == k.parent
  {
  }

  lemma BridgeParent(k: Links, y: int, f: int)
    ensures Bridge(k, y, f).parent == k.parent
  {
  }

  /** Size s is the least binned tree chunk size that holds nb. */
  ghost predicate LeastFit(bins: Bins, nb: nat, s: nat)
  {
    s in LargeSizes(bins) && s >= nb && forall q :: q in LargeSizes(bins) && q >= nb ==> s <= q
  }

  /** What the search result says, and what comparing it with the designated victim decides. */
  lemma BestFitMeaning(bins: Bins, nb: nat, v: int, vs: nat, rsize: nat, dvsize: nat)
    requires BestFit(bins, nb, v, vs, rsize) && dvsize < SIZE_T_MODULUS
    ensures v == 0 ==> forall s :: s in LargeSizes(bins) ==> s < nb
    ensures v != 0 ==> InList(bins, vs, v) && LeastFit(bins, nb, vs) && rsize == vs - nb && vs >= MIN_LARGE_SIZE
    ensures v != 0 ==> (rsize < SizeSub(dvsize, nb) <==> dvsize < nb || vs < dvsize)
    ensures v != 0 ==> forall s :: s in LargeSizes(bins) && s >= nb ==> vs <= s
  {
    if v != 0 {
      DivUnique(SIZE_T_MODULUS + dvsize - nb, SIZE_T_MODULUS, if dvsize >= nb then 1 else 0);
    }
  }

  lemma LeastFitIsLeast(bins: Bins, nb: nat, s: nat)
    requires LeastFit(bins, nb, s)
    requires forall q :: q in bins && q < MIN_LARGE_SIZE ==> q < nb
    ensures LeastBinned(bins, nb, s)
  {
    LeastOfAll(bins, nb, s);
  }

  lemma TreemapEmpty(head: map<int, Head>, k: Links, smallmap: set<nat>, treemap: set<nat>, treebins: seq<int>,
                     bins: Bins, tries: seq<Trie>)
    requires BinsOk(head, k, smallmap, treemap, treebins, bins, tries)
    ensures Listed(head, bins) && SmallsOk(k, smallmap, bins)
    ensures treemap == {} ==> LargeSizes(bins) == {}
  {
    if treemap == {} {
      forall s | s in LargeSizes(bins) ensures false {
        SizeInBin(head, k, treemap, treebins, bins, tries, s);
      }
    }
  }

  /** What taking the first chunk of a small bin leaves. */
  lemma FirstOut(l: Layout, bins: Bins, bins': Bins, dv: int, dvsize: nat, live: set<int>, s: nat, p: int, nb: nat)
    requires StateOk(l, bins, dv, dvsize, {}, live) && Removed(bins, bins', s, p)
    ensures StateOk(l, bins', dv, dvsize, {p}, live) && SizeOf(l, p) == s && InList(bins, s, p) && p > 0
  {
    assert InList(bins, s, p);
    BinnedSize(l, bins, dv, dvsize, {}, live, s, p);
    BinOut(l, bins, bins', dv, dvsize, {}, live, s, p);
    assert {} + {p} == {p};
  }

  lemma CloseWritesAre(head: map<int, Head>, oldTop: int, csp: int, ssize: nat, oldEnd: int, base: nat, size: nat)
    requires size >= TOP_FOOT_SIZE
    ensures CloseWrites(head, oldTop, csp, ssize, oldEnd, base, size) ==
      Fenced(head[base := Head(size - TOP_FOOT_SIZE, false, true)][base + (size - TOP_FOOT_SIZE) :=
        Head(TOP_FOOT_SIZE, false, false)]
        [csp := Head(ssize, true, true)], csp + ssize, oldEnd - 16)
  {
  }

  lemma RecordIs(l: Layout)
    ensures OldEnd(l) == l.top + l.topsize + TOP_FOOT_SIZE
    ensures RecordAt(l) == if l.topsize < MIN_CHUNK_SIZE then l.top else l.top + l.topsize
  {
  }

  lemma CarveTopShape(l: Layout, nb: nat)
    requires nb <= l.topsize
    ensures CarveTop(l, nb) == l.(starts := l.starts + {l.top + nb}, top := l.top + nb, topsize := l.topsize - nb,
      head := l.head[l.top + nb := Head(l.topsize - nb, false, true)][l.top := Head(nb, true, true)])
  {
  }

  lemma StateTop(l: Layout, bins: Bins, dv: int, dvsize: nat, live: set<int>)
    requires StateOk(l, bins, dv, dvsize, {}, live)
    ensures l.top > 0 && LayoutOk(l)
  {
    TopFacts(l);
  }

  lemma MidwaySet(l: Layout, bins: Bins, dv: int, dvsize: nat, limbo: set<int>, live: set<int>, q: int, p: int)
    requires Midway(l, bins, dv, dvsize, limbo, live, q, p)
    ensures limbo == if PrevInUse(l, q) || p == dv then {} else {p}
  {
    MidwayLimbo(l, bins, dv, dvsize, limbo, live, q, p);
  }

  lemma HeadIs(l: Layout, a: int)
    ensures a in l.head ==> SizeOf(l, a) == l.head[a].size && InUse(l, a) == l.head[a].cinuse
  {
  }

  lemma ExtendsIs(l: Layout, i: nat, base: nat, size: nat)
    requires LayoutOk(l) && FreshRange(l, base, size) && i < |l.segs| && base == EndOf(l.segs[i])
    requires l.segs[i].base <= l.top < EndOf(l.segs[i])
    ensures Extends(l, i, base, size)
  {
  }

  lemma ExtendShape(l: Layout, i: nat, size: nat)
    requires i < |l.segs|
    ensures ExtendTop(l, i, size) ==
      l.(segs := l.segs[i := Segment(l.segs[i].base, l.segs[i].size + size)], topsize := l.topsize + size,
         head := l.head[l.top := Head(l.topsize + size, false, true)]
                       [l.top + (l.topsize + size) := Head(TOP_FOOT_SIZE, false, false)])
  {
  }

  lemma NewFits(l: Layout, base: nat, size: nat)
    requires LayoutOk(l) && FreshRange(l, base, size)
    ensures NewSegmentFits(l, base, size)
  {
  }

  lemma PrependReadyHere(l: Layout, i: nat, base: nat, size: nat, nb: nat)
    requires LayoutOk(l) && FreshRange(l, base, size) && i < |l.segs| && base + size == l.segs[i].base
    requires nb % 8 == 0 && nb >= MIN_CHUNK_SIZE && size > nb + TOP_FOOT_SIZE
    ensures PrependReady(l.(segs := l.segs[i := Segment(base, l.segs[i].size + size)]), l, i, base, base + size, nb)
  {
    hide LayoutOk;
    assert Prepends(l, i, base, size);
  }

  /** The layout l, with the segment that starts at oldbase extended down to base. */
  ghost predicate PrependReady(l': Layout, l: Layout, i: nat, base: nat, oldbase: nat, nb: nat)
  {
    base <= oldbase && PrependFits(l, i, base, oldbase - base, nb) &&
    l' == l.(segs := Prepend(l, i, base, oldbase - base).segs)
  }

  lemma PrependReadyIs(l': Layout, l: Layout, i: nat, base: nat, oldbase: nat, nb: nat)
    requires PrependReady(l', l, i, base, oldbase, nb)
    ensures base <= oldbase && PrependFits(l, i, base, oldbase - base, nb) && Prepends(l, i, base, oldbase - base)
    ensures i < |l.segs| && l' == l.(segs := Prepend(l, i, base, oldbase - base).segs)
  {
  }

  lemma PrependSegs(l: Layout, i: nat, base: nat, size: nat, nb: nat)
    requires PrependFits(l, i, base, size, nb)
    ensures Prepends(l, i, base, size) && Prepend(l, i, base, size).segs == Prepended(l, i, base, size, nb).segs
    ensures nb + MIN_CHUNK_SIZE <= size && 0 < nb
  {
  }

  /** When the designated victim may serve a request: no small bin fits all but exactly, and no tree chunk fits better.
      */
  ghost predicate DvRight(bins: Bins, nb: nat, dvsize: nat)
  {
    if nb < MIN_LARGE_SIZE then nb !in bins && (nb + 8 < MIN_LARGE_SIZE ==> nb + 8 !in bins)
    else forall s :: s in LargeSizes(bins) && s >= nb ==> dvsize <= s
  }

  lemma SmallBinBounds(smallmap: set<nat>, nb: nat)
    requires nb % 8 == 0 && nb < MIN_LARGE_SIZE
    ensures 8 * SmallIndex(nb) == nb && MIN_LARGE_SIZE == 256 && NSMALLBINS == 32 && 8 < MIN_CHUNK_SIZE
    ensures var r := NextBin(smallmap, SmallIndex(nb)); r < NSMALLBINS ==> r in smallmap && 8 * r > nb
  {
  }

  lemma SmallDv(smallmap: set<nat>, bins: Bins, nb: nat, dvsize: nat, k: Links)
    requires SmallsOk(k, smallmap, bins) && nb % 8 == 0 && nb < MIN_LARGE_SIZE
    ensures SmallIndex(nb) !in smallmap && SmallIndex(nb) + 1 !in smallmap ==> DvRight(bins, nb, dvsize)
  {
    assert 8 * SmallIndex(nb) == nb && 8 * (SmallIndex(nb) + 1) == nb + 8;
  }

  /** The chunk size malloc looks for. */
  function ChunkSizeFor(nsize: nat): nat
  {
    if nsize >= MAX_REQUEST then MAX_SIZE_T else RequestToSize(nsize)
  }

  /** Where a granted chunk came from: never from a bin when a smaller binned chunk would have done. */
  ghost predicate WellPlaced(l: Layout, bins: Bins, dv: int, dvsize: nat, nb: nat, p: int)
  {
    if IsDv(dv, dvsize, p) then DvRight(bins, nb, dvsize)
    else IsFree(l, p) ==> LeastBinned(bins, nb, SizeOf(l, p))
  }

  lemma BinnedWell(l: Layout, bins: Bins, dv: int, dvsize: nat, live: set<int>, nb: nat, p: int)
    requires StateOk(l, bins, dv, dvsize, {}, live) && InList(bins, SizeOf(l, p), p) &&
      LeastBinned(bins, nb, SizeOf(l, p))
    ensures WellPlaced(l, bins, dv, dvsize, nb, p) && !NoneBinned(bins, nb)
  {
  }

  /** Nothing the allocator has holds nb, and the system gives nothing. */
  ghost predicate Exhausted(bins: Bins, dvsize: nat, topsize: nat, nb: nat, mp: nat)
  {
    NoneBinned(bins, nb) && dvsize < nb && topsize <= nb && (mp == 0 || SystemSize(nb) <= nb)
  }

  lemma BinnedBelow(head: map<int, Head>, bins: Bins, nb: nat)
    requires Listed(head, bins) && nb >= INDEX_LIMIT
    ensures NoneBinned(bins, nb)
  {
    forall s | s in bins ensures s < nb {
      assert ListOk(head, bins, s);
    }
  }

  /** After tmalloc_large has declined, or no tree chunk is there, the designated victim is next in line. */
  lemma LargeDeclined(bins: Bins, nb: nat, dvsize: nat)
    requires forall s :: s in LargeSizes(bins) && s >= nb ==> nb <= dvsize <= s
    requires nb >= MIN_LARGE_SIZE
    ensures DvRight(bins, nb, dvsize) && (nb <= dvsize || NoneBinned(bins, nb))
  {
    if nb > dvsize {
      forall s | s in bins ensures s < nb {
        assert s >= nb ==> s in LargeSizes(bins);
      }
    }
  }

  lemma LargeLeast(bins: Bins, nb: nat, s: nat)
    requires LeastFit(bins, nb, s) && nb >= MIN_LARGE_SIZE
    ensures LeastBinned(bins, nb, s)
  {
    LeastOfAll(bins, nb, s);
  }

  lemma FreshNotFree(l: Layout, base: nat, size: nat)
    requires LayoutOk(l) && FreshRange(l, base, size)
    ensures !IsFree(l, base) && !IsFree(l, l.top)
  {
    if base in l.starts {
      FreshIsUnused(l, base, size, base);
    }
  }

  lemma MallocFacts(nsize: nat)
    ensures nsize < MAX_REQUEST ==>
      ChunkSizeFor(nsize) == (if nsize < MIN_REQUEST then MIN_CHUNK_SIZE else PadRequest(nsize))
    ensures nsize < MAX_REQUEST ==> ChunkSizeFor(nsize) % 8 == 0 && MIN_CHUNK_SIZE <= ChunkSizeFor(nsize) < MAX_SIZE_T
    ensures nsize < MAX_REQUEST ==> (nsize <= MAX_SMALL_REQUEST <==> ChunkSizeFor(nsize) < MIN_LARGE_SIZE)
    ensures nsize >= MAX_REQUEST ==> ChunkSizeFor(nsize) == MAX_SIZE_T && SystemSize(MAX_SIZE_T) <= MAX_SIZE_T
  {
    if nsize < MAX_REQUEST { RequestFits(nsize); } else { SystemSizeFits(MAX_SIZE_T); }
  }

  lemma BinnedPositive(l: Layout, bins: Bins, dv: int, dvsize: nat, live: set<int>, p: int)
    requires StateOk(l, bins, dv, dvsize, {}, live) && InList(bins, SizeOf(l, p), p)
    ensures p > 0
  {
    BinnedSize(l, bins, dv, dvsize, {}, live, SizeOf(l, p), p);
  }

  lemma DvWell(l: Layout, bins: Bins, dv: int, dvsize: nat, nb: nat)
    requires DvRight(bins, nb, dvsize)
    ensures dvsize != 0 ==> WellPlaced(l, bins, dv, dvsize, nb, dv)
    ensures !IsDv(dv, dvsize, l.top) ==> WellPlaced(l, bins, dv, dvsize, nb, l.top)
    ensures IsDv(dv, dvsize, l.top) ==> WellPlaced(l, bins, dv, dvsize, nb, l.top)
  {
  }

  lemma AnyWell(l: Layout, bins: Bins, dv: int, dvsize: nat, nb: nat, p: int)
    requires DvRight(bins, nb, dvsize) && !IsFree(l, p)
    ensures WellPlaced(l, bins, dv, dvsize, nb, p)
  {
  }

  function Least(x: int, y: int): int
  {
    if y < x then y else x
  }

  function Moved(bytes: map<int, int>, dst: int, src: int, a: int): int
  {
    At(bytes, src + (a - dst))
  }

  /** memcpy: n bytes from src on are stored from dst on as well. */
  function Copied(bytes: map<int, int>, dst: int, src: int, n: nat): map<int, int>
  {
    bytes + map a | dst <= a < dst + n :: Moved(bytes, dst, src, a)
  }

  /** The first n bytes of the old block are those of the new one, and outside its room nothing is stored. */
  ghost predicate Carried(was: map<int, int>, bytes: map<int, int>, ptr: int, mem: int, n: int, room: nat)
  {
    (forall a :: mem <= a < mem + n ==> At(bytes, a) == At(was, ptr + (a - mem))) &&
    forall a :: !(mem <= a < mem + room) ==> At(bytes, a) == At(was, a)
  }

  lemma LeastIs(x: int, y: int)
    ensures Least(x, y) == if y < x then y else x
  {
  }

  lemma CopiedCarried(bytes: map<int, int>, ptr: int, mem: int, n: nat, room: nat)
    requires n <= room
    ensures Carried(bytes, Copied(bytes, mem, ptr, n), ptr, mem, n, room)
  {
  }

  lemma StayedCarried(bytes: map<int, int>, ptr: int, n: int, room: nat)
    ensures Carried(bytes, bytes, ptr, ptr, n, room)
  {
  }

  /** The bytes of struct malloc_state. */
  const STATE_BYTES: nat := 864

  /** The layout that lj_alloc_create builds. */
  function FirstOf(tbase: nat): Layout
  {
    var msize, tsize := 872, DEFAULT_GRANULARITY;
    Layout({tbase, tbase + msize},
           map[tbase := Head(msize, true, true)][tbase + msize := Head(tsize - msize - TOP_FOOT_SIZE, false, true)]
              [tbase + tsize - TOP_FOOT_SIZE := Head(TOP_FOOT_SIZE, false, false)],
           map[], tbase + msize, tsize - msize - TOP_FOOT_SIZE, [Segment(tbase, tsize)], {})
  }

  lemma FirstLayout(tbase: nat)
    requires SegmentOk(Segment(tbase, DEFAULT_GRANULARITY))
    ensures PadRequest(STATE_BYTES) == 872 && StateOk(FirstOf(tbase), map[], 0, 0, {}, {})
  {
    var l := FirstOf(tbase);
    assert PadRequest(STATE_BYTES) == 872;
    assert Within(l, tbase, 0) && Within(l, l.top, 0);
    assert ChunkOk(l, tbase) && ChunkOk(l, l.top);
    forall a, b | a in l.starts && b in l.starts ensures AllocHeap.Apart(l, a, b) {
    }
  }

  lemma EmptyBins(head: map<int, Head>, k: Links, treebins: seq<int>, tries: seq<Trie>)
    requires treebins == seq(NTREEBINS, _ => 0) && tries == seq(NTREEBINS, _ => Nil)
    ensures BinsOk(head, k, {}, {}, treebins, map[], tries)
  {
    forall i: nat | i < NTREEBINS ensures TreeOk(k, {}, treebins, map[], tries, i) {
      assert tries[i] == Nil && treebins[i] == 0;
    }
  }

  lemma ShrinkState(l: Layout, bins: Bins, dv: int, dvsize: nat, live: set<int>, p: int, nb: nat)
    requires StateOk(l, bins, dv, dvsize, {}, live) && p in live && nb % 8 == 0 && nb >= MIN_CHUNK_SIZE
    requires SizeOf(l, p) >= nb + MIN_CHUNK_SIZE
    ensures p in l.head && Next(l, p) in l.head && l.head[Next(l, p)].pinuse && p + nb !in live
    ensures Next(l, p) == p + l.head[p].size
    ensures var l' := SplitUsed(l, p, nb);
      StateOk(l', bins, dv, dvsize, {}, live + {p + nb}) && SizeOf(l', p) == nb && KeepsLive(l, l', live - {p}) &&
      l' == l.(starts := l'.starts, head := l.head[p := Head(nb, true, l.head[p].pinuse)][p + nb :=
        Head(l.head[p].size - nb, true, true)])
  {
    LiveFreeable(l, bins, dv, dvsize, {}, live, p);
    SplitState(l, bins, dv, dvsize, live, p, nb);
    assert ChunkOk(l, p);
  }

  lemma ShrinkKeeps(l: Layout, l1: Layout, l2: Layout, live: set<int>, p: int, nb: nat)
    requires KeepsLive(l, l1, live - {p}) && KeepsLive(l1, l2, live) && SizeOf(l1, p) == nb && p in live
    ensures KeepsLive(l, l2, live - {p}) && SizeOf(l2, p) == nb && IsLive(l2, p)
  {
    forall a | a in live - {p} ensures IsLive(l2, a) && SizeOf(l2, a) == SizeOf(l, a) {
      assert a in live;
    }
  }

  lemma GrowIn(l: Layout, bins: Bins, dv: int, dvsize: nat, live: set<int>, p: int, nb: nat)
    requires StateOk(l, bins, dv, dvsize, {}, live) && p in live && nb % 8 == 0
    requires Next(l, p) == l.top && SizeOf(l, p) < nb < SizeOf(l, p) + l.topsize
    ensures p in l.head
    ensures var l' := GrowIntoTop(l, p, nb); var rest := l.head[p].size + l.topsize - nb;
      StateOk(l', bins, dv, dvsize, {}, live) && SizeOf(l', p) == nb && IsLive(l', p) && KeepsLive(l, l', live - {p}) &&
      l' == l.(starts := l'.starts, head := l.head[p := Head(nb, true, l.head[p].pinuse)][p + nb :=
        Head(rest, false, true)],
               top := p + nb, topsize := rest)
  {
    LiveFreeable(l, bins, dv, dvsize, {}, live, p);
    GrowState(l, bins, dv, dvsize, live, p, nb);
    assert IsLive(GrowIntoTop(l, p, nb), p);
  }

  lemma ReallocFacts(l: Layout, bins: Bins, dv: int, dvsize: nat, live: set<int>, p: int, nsize: nat)
    requires StateOk(l, bins, dv, dvsize, {}, live) && p in live && nsize < MAX_REQUEST
    ensures p in l.head && p > 0 && l.head[p].size >= MIN_CHUNK_SIZE && RequestToSize(nsize) == ChunkSizeFor(nsize)
    ensures RequestToSize(nsize) % 8 == 0 && RequestToSize(nsize) >= MIN_CHUNK_SIZE && RequestToSize(nsize) >= nsize + 8
  {
    LiveFreeable(l, bins, dv, dvsize, {}, live, p);
    RequestFits(nsize);
    SizeBound(l, p);
  }

  lemma InUseHead(l: Layout, bins: Bins, dv: int, dvsize: nat, live: set<int>, p: int)
    requires StateOk(l, bins, dv, dvsize, {}, live) && p in live
    ensures p in l.head && SizeOf(l, p) == l.head[p].size && Next(l, p) == p + l.head[p].size
  {
    LiveFreeable(l, bins, dv, dvsize, {}, live, p);
  }

  lemma KeepsSelf(l: Layout, bins: Bins, dv: int, dvsize: nat, live: set<int>, p: int)
    requires StateOk(l, bins, dv, dvsize, {}, live) && p in live
    ensures IsLive(l, p) && KeepsLive(l, l, live - {p})
  {
  }

  lemma AllKept(l: Layout, bins: Bins, dv: int, dvsize: nat, live: set<int>, p: int)
    requires StateOk(l, bins, dv, dvsize, {}, live)
    ensures KeepsLive(l, l, live - {p})
  {
    forall a | a in live - {p} ensures IsLive(l, a) {
      assert a in live;
    }
  }

  lemma NullNotLive(l: Layout, bins: Bins, dv: int, dvsize: nat, live: set<int>)
    requires StateOk(l, bins, dv, dvsize, {}, live)
    ensures -16 !in live
  {
    if -16 in live {
      LiveFreeable(l, bins, dv, dvsize, {}, live, -16);
      SizeBound(l, -16);
    }
  }

  lemma MovedFacts(l: Layout, l1: Layout, live: set<int>, p: int, r: int, nb: nat, ptr: int, mem: int)
    requires Granted(l, l1, live, r, nb) && p in live && p == ptr - 16 && r == mem - 16
    ensures r !in live && r != p && ptr != mem && p in live + {r}
  {
  }

  lemma MovedKeeps(l: Layout, l1: Layout, l2: Layout, live: set<int>, p: int, r: int, nb: nat)
    requires Granted(l, l1, live, r, nb) && KeepsLive(l1, l2, live + {r} - {p}) && p in live
    ensures IsLive(l2, r) && SizeOf(l2, r) >= nb && KeepsLive(l, l2, live - {p})
    ensures live + {r} - {p} == live - {p} + {r}
  {
    assert r in live + {r} - {p};
    forall a | a in live - {p} ensures IsLive(l2, a) && SizeOf(l2, a) == SizeOf(l, a) {
      assert a in live && a in live + {r} - {p};
    }
  }

  lemma SameBlocks(live: set<int>, p: int)
    requires p in live
    ensures live - {p} + {p} == live
  {
  }

  lemma GrantedFacts(l: Layout, l': Layout, live: set<int>, p: int, nb: nat, nsize: nat)
    requires Granted(l, l', live, p, nb) && nb >= nsize + 8
    ensures IsLive(l', p) && SizeOf(l', p) >= nsize + 8 && KeepsLive(l, l', live)
  {
  }

  lemma OutsideSame(head: map<int, Head>, p: int, x: int, h: Head)
    requires x in head && p != x
    ensures x in head[p := h] && head[p := h][x] == head[x]
  {
  }

  lemma NextIs(l: Layout, a: int)
    ensures Next(l, a) == a + SizeOf(l, a)
  {
  }

  class MallocState {
    var head: map<int, Head>
    var foot: map<int, nat>
    var link: Links
    var smallmap: set<nat>
    var treemap: set<nat>
    var treebins: seq<int>
    var dv: int
    var dvsize: nat
    var top: int
    var topsize: nat
    var segs: seq<Segment>
    // What the program has stored at each address of its blocks; the allocator's own words lie outside of them.
    var bytes: map<int, int>

    // The lists and tries that the pointers stand for.
    ghost var bins: Bins
    ghost var tries: seq<Trie>
    // The chunks that the boundary tags describe, each closed segment's last fencepost, and the blocks in use by
    // clients.
    ghost var starts: set<int>
    ghost var ends: set<int>
    ghost var live: set<int>

    ghost function L(): Layout
      reads this
    {
      Layout(starts, head, foot, top, topsize, segs, ends)
    }

    /** The heap invariant with some free chunks not yet placed. */
    ghost predicate HeapValid(limbo: set<int>)
      reads this
    {
      StateOk(L(), bins, dv, dvsize, limbo, live)
    }

    ghost predicate Valid()
      reads this
    {
      BinsValid() && HeapValid({})
    }

    ghost predicate BinsValid()
      reads this
    {
      BinsOk(head, link, smallmap, treemap, treebins, bins, tries)
    }

    ghost predicate Unbinned(p: int, s: nat)
      reads this
    {
      p > 0 && p in head && head[p].size == s && s % 8 == 0 && MIN_CHUNK_SIZE <= s < INDEX_LIMIT && NotBinned(bins, p)
    }

    /** The definitions above for the present state, for proofs that hide all others. */
    lemma Unfold(limbo: set<int>)
      ensures L() == Layout(starts, head, foot, top, topsize, segs, ends)
      ensures BinsValid() == BinsOk(head, link, smallmap, treemap, treebins, bins, tries)
      ensures HeapValid(limbo) == StateOk(L(), bins, dv, dvsize, limbo, live)
      ensures Valid() == (BinsValid() && StateOk(L(), bins, dv, dvsize, {}, live))
    {
    }

    method InsertSmallChunk(p: int, s: nat)
      requires BinsValid() && Unbinned(p, s) && s < MIN_LARGE_SIZE
      modifies this`link, this`smallmap, this`bins
      ensures BinsValid() && Added(old(bins), bins, s, p)
    {
      InsertSmallOk(head, link, smallmap, treemap, treebins, bins, tries, p, s);
      hide BinsOk, Listed, ListOk, SmallsOk, SmallOk, RingsOk, TreesOk, Added, NotBinned;
      var i := SmallIndex(s);
      var b := SmallBinAt(i);
      var f := b;
      if i !in smallmap {
        smallmap := smallmap + {i};
      } else {
        f := At(link.fd, b);
      }
      assert smallmap == old(smallmap) + {i};
      link := link.(fd := link.fd[b := p]);
      link := link.(bk := link.bk[f := p]);
      link := link.(fd := link.fd[p := f]);
      link := link.(bk := link.bk[p := b]);
      bins := bins[s := [p] + List(bins, s)];
    }

    method UnlinkSmallChunk(p: int, s: nat)
      requires BinsValid() && InList(bins, s, p) && s < MIN_LARGE_SIZE
      modifies this`link, this`smallmap, this`bins
      ensures BinsValid() && Removed(old(bins), bins, s, p)
    {
      UnlinkSmallOk(head, link, smallmap, treemap, treebins, bins, tries, p, s);
      hide BinsOk, Listed, ListOk, SmallsOk, SmallOk, RingsOk, TreesOk, Removed, Without, InList;
      var f := At(link.fd, p);
      var b := At(link.bk, p);
      if f == b {
        smallmap := smallmap - {SmallIndex(s)};
      } else {
        link := link.(bk := link.bk[f := b]);
        link := link.(fd := link.fd[b := f]);
      }
      bins := Without(bins, s, p);
    }

    /** Takes the first chunk of non-empty small bin i. */
    method UnlinkFirstSmallChunk(i: nat) returns (p: int)
      requires BinsValid() && i in smallmap
      modifies this`link, this`smallmap, this`bins
      ensures BinsValid() && 8 * i in old(bins) && Removed(old(bins), bins, 8 * i, p) && p == old(bins)[8 * i][0]
    {
      var b := SmallBinAt(i);
      p := At(link.fd, b);
      assert i < NSMALLBINS && 8 * i in bins;
      assert ListOk(head, bins, 8 * i);
      UnlinkSmallOk(head, link, smallmap, treemap, treebins, bins, tries, bins[8 * i][0], 8 * i);
      hide BinsOk, Listed, ListOk, SmallsOk, SmallOk, RingsOk, TreesOk, Removed, Without, InList;
      var f := At(link.fd, p);
      if b == f {
        smallmap := smallmap - {i};
      } else {
        link := link.(fd := link.fd[b := f]);
        link := link.(bk := link.bk[f := b]);
      }
      bins := Without(bins, 8 * i, p);
    }

    method InsertLargeChunk(x: int, s: nat)
      requires BinsValid() && Unbinned(x, s) && s >= MIN_LARGE_SIZE
      modifies this`link, this`treemap, this`treebins, this`bins, this`tries
      ensures BinsValid() && Added(old(bins), bins, s, x)
    {
      var i := TreeIndex(s);
      assert |treebins| == |tries| == NTREEBINS;
      if i !in treemap {
        InsertFirstOk(head, link, smallmap, treemap, treebins, bins, tries, x, s);
        hide BinsOk, Added, NotBinned, LowOf, LevelOf, TreeIndex;
        var k := link;
        k := k.(index := k.index[x := i], child0 := k.child0[x := 0], child1 := k.child1[x := 0]);
        k := k.(parent := k.parent[x := TreeBinAt(i)]);
        k := k.(fd := k.fd[x := x], bk := k.bk[x := x]);
        link, treemap, treebins := k, treemap + {i}, treebins[i := x];
        bins, tries := bins[s := [x]], tries[i := Node(s, Nil, Nil)];
      } else {
        WalkReady(head, link, smallmap, treemap, treebins, bins, tries, s);
        hide BinsOk, Added, NotBinned, LowOf, LevelOf, TreeIndex, IsSlot, Walk, Listed, TrieOk, Sizes, Insert;
        var t, side, hit, c := FindSlot(head, link, bins, tries[i], s, LowOf(i), LevelOf(i), treebins[i],
          FirstBits(s, i));
        var k := link;
        k := k.(index := k.index[x := i], child0 := k.child0[x := 0], child1 := k.child1[x := 0]);
        if !hit {
          ghost var u := Insert(tries[i], s, LowOf(i), LevelOf(i));
          InsertLeafOk(head, link, smallmap, treemap, treebins, bins, tries, x, s, c, side, u);
          k := if side then k.(child1 := k.child1[t := x]) else k.(child0 := k.child0[t := x]);
          k := k.(parent := k.parent[x := t]);
          k := k.(fd := k.fd[x := x], bk := k.bk[x := x]);
          link := k;
          bins, tries := bins[s := [x]], tries[i := u];
        } else {
          InsertRingOk(head, link, smallmap, treemap, treebins, bins, tries, x, s);
          var f := At(k.fd, t);
          k := k.(fd := k.fd[t := x], bk := k.bk[f := x]);
          k := k.(fd := k.fd[x := f], bk := k.bk[x := t]);
          k := k.(parent := k.parent[x := 0]);
          link := k;
          bins := bins[s := [t, x] + bins[s][1..]];
        }
      }
    }

    method UnlinkLargeChunk(x: int, ghost s: nat)
      requires BinsValid() && InList(bins, s, x) && s >= MIN_LARGE_SIZE
      modifies this`link, this`treemap, this`treebins, this`bins, this`tries
      ensures BinsValid() && Removed(old(bins), bins, s, x)
    {
      UnlinkCases(head, link, smallmap, treemap, treebins, bins, tries, x, s);
      hide BinsOk, Removed, InList, TreeIndex, CutOff, Filler, Remove, Sub, RingWithout, LastLeaving, HeadLeaving, Rep,
        NodeOf, Detach;
      var i := At(link.index, x);
      var xp := At(link.parent, x);
      var k := link;
      var r := At(k.bk, x);
      if r != x {
        var f := At(k.fd, x);
        k := k.(bk := k.bk[f := r]);
        k := k.(fd := k.fd[r := f]);
        bins := bins[s := RingWithout(bins[s], x)];
      } else {
        ghost var sub := Sub(tries[TreeIndex(s)], s);
        var h, side;
        r, h, side := FindLeaf(k, bins, x, xp, sub);
        CutOffIs(k, bins, sub, r, h, side);
        if r != 0 {
          k := ClearSlot(k, h, side);
        }
        tries := tries[TreeIndex(s) := Remove(tries[TreeIndex(s)], s)];
        bins := bins - {s};
      }
      if xp != 0 {
        ghost var k1 := k;
        if x == treebins[i] {
          treebins := treebins[i := r];
          if r == 0 {
            treemap := treemap - {i};
          }
        } else {
          k := if At(k.child0, xp) == x then k.(child0 := k.child0[xp := r]) else k.(child1 := k.child1[xp := r]);
        }
        if r != 0 {
          k := TakeOver(k, x, r, xp);
        }
        DetachIs(k1, x, r, xp);
      }
      link := k;
    }

    /** Puts a chunk in limbo into the bin for its size. */
    method InsertChunk(p: int, s: nat, ghost limbo: set<int>)
      requires BinsValid() && HeapValid(limbo) && p in limbo && SizeOf(L(), p) == s
      modifies this`link, this`smallmap, this`treemap, this`treebins, this`bins, this`tries
      ensures BinsValid() && HeapValid(limbo - {p})
    {
      LimboUnbinned(L(), bins, dv, dvsize, limbo, live, p);
      ghost var b := bins;
      hide BinsOk, StateOk, Added, NotBinned, ChunkOk, LayoutOk;
      if s < MIN_LARGE_SIZE {
        InsertSmallChunk(p, s);
      } else {
        InsertLargeChunk(p, s);
      }
      BinIn(L(), b, bins, dv, dvsize, limbo, live, s, p);
    }

    method UnlinkChunk(p: int, s: nat)
      requires BinsValid() && InList(bins, s, p)
      modifies this`link, this`smallmap, this`treemap, this`treebins, this`bins, this`tries
      ensures BinsValid() && Removed(old(bins), bins, s, p)
    {
      hide BinsOk, Removed, InList;
      if s < MIN_LARGE_SIZE {
        UnlinkSmallChunk(p, s);
      } else {
        UnlinkLargeChunk(p, s);
      }
    }

    /** A chunk leaves its bin for limbo. */
    method TakeFromBin(p: int, s: nat, ghost limbo: set<int>)
      requires BinsValid() && HeapValid(limbo) && InList(bins, s, p)
      modifies this`link, this`smallmap, this`treemap, this`treebins, this`bins, this`tries
      ensures BinsValid() && HeapValid(limbo + {p})
    {
      ghost var b := bins;
      hide BinsOk, StateOk, Removed, InList, LayoutOk;
      UnlinkChunk(p, s);
      BinOut(L(), b, bins, dv, dvsize, limbo, live, s, p);
    }

    /** Makes a chunk in limbo the designated victim; the old one, known to be small, goes to a bin. */
    method ReplaceDv(p: int, s: nat)
      requires BinsValid() && HeapValid({p}) && SizeOf(L(), p) == s && dvsize < MIN_LARGE_SIZE
      modifies this`link, this`smallmap, this`bins, this`dv, this`dvsize
      ensures BinsValid() && HeapValid({})
      ensures dv == p && dvsize == s
    {
      var dvs := dvsize;
      hide BinsOk, StateOk, Added, NotBinned, LayoutOk, ChunkOk, InList;
      if dvs != 0 {
        var d := dv;
        DvOut(L(), bins, dv, dvsize, {p}, live);
        ghost var b := bins;
        LimboUnbinned(L(), bins, 0, 0, {p} + {d}, live, d);
        InsertSmallChunk(d, dvs);
        BinIn(L(), b, bins, 0, 0, {p} + {d}, live, dvs, d);
        assert {p} + {d} - {d} == {p};
      } else {
        NoDv(L(), bins, dv, dvsize, {p}, live);
      }
      DvIn(L(), bins, {p}, live, p);
      assert {p} - {p} == {};
      dvsize := s;
      dv := p;
    }

    // ---- Header macros -----------------------------------------------------

    method SetInuseAndPinuse(p: int, s: nat)
      requires p + s in head && p != p + s
      modifies this`head
      ensures head == old(head)[p := Head(s, true, true)][p + s := old(head)[p + s].(pinuse := true)]
    {
      head := head[p := Head(s, true, true)];
      head := head[p + s := head[p + s].(pinuse := true)];
    }

    method SetSizeAndPinuseOfInuseChunk(p: int, s: nat)
      modifies this`head
      ensures head == old(head)[p := Head(s, true, true)]
    {
      head := head[p := Head(s, true, true)];
    }

    method SetSizeAndPinuseOfFreeChunk(p: int, s: nat)
      modifies this`head, this`foot
      ensures head == old(head)[p := Head(s, false, true)] && foot == old(foot)[p + s := s]
    {
      head := head[p := Head(s, false, true)];
      foot := foot[p + s := s];
    }

    method SetFreeWithPinuse(p: int, s: nat, n: int)
      requires n in head
      modifies this`head, this`foot
      ensures head == old(head)[n := old(head)[n].(pinuse := false)][p := Head(s, false, true)]
      ensures foot == old(foot)[p + s := s]
    {
      head := head[n := head[n].(pinuse := false)];
      SetSizeAndPinuseOfFreeChunk(p, s);
    }

    // ---- Handing out a free chunk --------------------------------------------

    /** The free chunk p of size s, in limbo, is handed out whole. */
    method Exhaust(p: int, s: nat, ghost nb: nat)
      requires BinsValid() && HeapValid({p}) && SizeOf(L(), p) == s && nb <= s < nb + MIN_CHUNK_SIZE
      modifies this`head, this`live
      ensures BinsValid() && HeapValid({}) && live == old(live) + {p} && Granted(old(L()), L(), old(live), p, nb)
    {
      TakeState(L(), bins, dv, dvsize, live, p, nb);
      ghost var h := head;
      TakeSpan(L(), p);
      SetInuseAndPinuse(p, s);
      live := live + {p};
      hide BinsOk, StateOk, Granted, LayoutOk;
      assert L() == TakeWhole(old(L()), p);
      BinsKept(h, L(), bins, dv, dvsize, {}, live, link, smallmap, treemap, treebins, tries);
    }

    /** The first nb bytes of the free chunk p of size s, in limbo, are handed out; the rest is in limbo. */
    method Split(p: int, s: nat, nb: nat) returns (r: int)
      requires BinsValid() && HeapValid({p}) && SizeOf(L(), p) == s
      requires nb % 8 == 0 && nb >= MIN_CHUNK_SIZE && s >= nb + MIN_CHUNK_SIZE
      modifies this`head, this`foot, this`starts, this`live
      ensures r == p + nb && BinsValid() && HeapValid({r}) && SizeOf(L(), r) == s - nb
      ensures live == old(live) + {p} && Granted(old(L()), L(), old(live), p, nb)
    {
      CarveState(L(), bins, dv, dvsize, live, p, nb);
      ghost var h := head;
      SetSizeAndPinuseOfInuseChunk(p, nb);
      r := p + nb;
      SetSizeAndPinuseOfFreeChunk(r, s - nb);
      starts, live := starts + {r}, live + {p};
      hide BinsOk, StateOk, Granted, LayoutOk;
      assert L() == Carve(old(L()), p, nb);
      BinsKept(h, L(), bins, dv, dvsize, {r}, live, link, smallmap, treemap, treebins, tries);
    }

    // ---- malloc support -------------------------------------------------------

    /** Tree chunk v leaves its bin and is handed out; what it has too much goes back into a bin. */
    method TakeTreePart(v: int, rsize: nat, nb: nat, ghost vs: nat)
      requires Valid() && InList(bins, vs, v) && vs >= MIN_LARGE_SIZE && vs == rsize + nb && nb % 8 == 0 &&
        MIN_CHUNK_SIZE <= nb
      modifies this`head, this`foot, this`link, this`smallmap, this`treemap, this`treebins
      modifies this`bins, this`tries, this`starts, this`live
      ensures Valid() && v > 0 && SizeOf(old(L()), v) == vs
      ensures live == old(live) + {v} && Granted(old(L()), L(), old(live), v, nb)
    {
      hide BinsOk, StateOk, Granted, LayoutOk, InList, Removed, IsFree;
      ghost var b := bins;
      UnlinkLargeChunk(v, vs);
      FirstOut(L(), b, bins, dv, dvsize, live, vs, v, nb);
      if rsize < MIN_CHUNK_SIZE {
        Exhaust(v, rsize + nb, nb);
      } else {
        var r := Split(v, rsize + nb, nb);
        InsertChunk(r, rsize, {r});
        assert {r} - {r} == {};
      }
    }

    /** The same, but what is left becomes the designated victim. */
    method TakeTreeForDv(v: int, rsize: nat, nb: nat, ghost vs: nat)
      requires Valid() && InList(bins, vs, v) && vs >= MIN_LARGE_SIZE && vs == rsize + nb && nb % 8 == 0 &&
        MIN_CHUNK_SIZE <= nb
      requires dvsize < MIN_LARGE_SIZE
      modifies this`head, this`foot, this`link, this`smallmap, this`treemap, this`treebins
      modifies this`bins, this`tries, this`starts, this`live, this`dv, this`dvsize
      ensures Valid() && v > 0 && SizeOf(old(L()), v) == vs
      ensures live == old(live) + {v} && Granted(old(L()), L(), old(live), v, nb)
    {
      hide BinsOk, StateOk, Granted, LayoutOk, InList, Removed, IsFree;
      ghost var b := bins;
      UnlinkLargeChunk(v, vs);
      FirstOut(L(), b, bins, dv, dvsize, live, vs, v, nb);
      if rsize < MIN_CHUNK_SIZE {
        Exhaust(v, rsize + nb, nb);
      } else {
        var r := Split(v, rsize + nb, nb);
        ReplaceDv(r, rsize);
      }
    }

    /** A large request from the best fitting tree chunk; declines when the designated victim fits at least as well. */
    method TmallocLarge(nb: nat) returns (p: int)
      requires Valid() && nb % 8 == 0 && MIN_LARGE_SIZE <= nb < SIZE_T_MODULUS
      modifies this`head, this`foot, this`link, this`smallmap, this`treemap, this`treebins
      modifies this`bins, this`tries, this`starts, this`live
      ensures Valid()
      ensures p != 0 ==> live == old(live) + {p} && Granted(old(L()), L(), old(live), p, nb)
      ensures p != 0 ==> InList(old(bins), SizeOf(old(L()), p), p) && LeastFit(old(bins), nb, SizeOf(old(L()), p))
      ensures p != 0 ==> dvsize < nb || SizeOf(old(L()), p) < dvsize
      ensures p == 0 ==> unchanged(this) && forall s :: s in LargeSizes(bins) && s >= nb ==> nb <= dvsize <= s
    {
      assert LargeOk(head, link, treemap, treebins, bins, tries);
      DvBound(L(), bins, dv, dvsize, {}, live);
      hide BinsOk, StateOk, Granted, LayoutOk, LargeOk, BestFit, InList, SizeSub, LeastFit, Valid, SizeOf, IsFree;
      var v, rsize, vs := FindLarge(head, link, treemap, treebins, bins, tries, nb);
      BestFitMeaning(bins, nb, v, vs, rsize, dvsize);
      p := 0;
      if v != 0 && rsize < SizeSub(dvsize, nb) {
        TakeTreePart(v, rsize, nb, vs);
        p := v;
      }
    }

    /** A small request from the smallest tree chunk. */
    method TmallocSmall(nb: nat) returns (p: int)
      requires Valid() && nb % 8 == 0 && MIN_CHUNK_SIZE <= nb < MIN_LARGE_SIZE && treemap != {} && dvsize < nb
      modifies this`head, this`foot, this`link, this`smallmap, this`treemap, this`treebins
      modifies this`bins, this`tries, this`starts, this`live, this`dv, this`dvsize
      ensures Valid()
      ensures p > 0 && live == old(live) + {p} && Granted(old(L()), L(), old(live), p, nb)
      ensures InList(old(bins), SizeOf(old(L()), p), p) && LeastFit(old(bins), nb, SizeOf(old(L()), p))
    {
      assert LargeOk(head, link, treemap, treebins, bins, tries);
      hide BinsOk, StateOk, Granted, LayoutOk, LargeOk, BestFit, InList, SizeSub, LeastFit, Valid, SizeOf, IsFree;
      var v, rsize, vs := FindSmallest(head, link, treemap, treebins, bins, tries, nb);
      BestFitMeaning(bins, nb, v, vs, rsize, 0);
      TakeTreeForDv(v, rsize, nb, vs);
      p := v;
    }

    /** The first chunk of small bin i, whole. */
    method TakeFirst(i: nat, ghost nb: nat) returns (p: int)
      requires Valid() && i in smallmap && nb <= 8 * i < nb + MIN_CHUNK_SIZE
      modifies this`head, this`link, this`smallmap, this`bins, this`live
      ensures Valid() && p > 0 && InList(old(bins), 8 * i, p) && SizeOf(old(L()), p) == 8 * i
      ensures live == old(live) + {p} && Granted(old(L()), L(), old(live), p, nb)
    {
      hide BinsOk, StateOk, Granted, LayoutOk, InList, Removed, IsFree;
      ghost var b := bins;
      p := UnlinkFirstSmallChunk(i);
      FirstOut(L(), b, bins, dv, dvsize, live, 8 * i, p, nb);
      Exhaust(p, 8 * i, nb);
    }

    /** The first chunk of small bin i, less what it is too long by. */
    method TakePart(i: nat, nb: nat) returns (p: int)
      requires Valid() && i in smallmap && nb % 8 == 0 && MIN_CHUNK_SIZE <= nb && 8 * i >= nb && dvsize < MIN_LARGE_SIZE
      modifies this`head, this`foot, this`link, this`smallmap
      modifies this`bins, this`starts, this`live, this`dv, this`dvsize
      ensures Valid() && p > 0 && InList(old(bins), 8 * i, p) && SizeOf(old(L()), p) == 8 * i
      ensures live == old(live) + {p} && Granted(old(L()), L(), old(live), p, nb)
    {
      hide BinsOk, StateOk, Granted, LayoutOk, InList, Removed, IsFree;
      ghost var b := bins;
      p := UnlinkFirstSmallChunk(i);
      FirstOut(L(), b, bins, dv, dvsize, live, 8 * i, p, nb);
      var rsize := 8 * i - nb;
      if rsize < MIN_CHUNK_SIZE {
        Exhaust(p, 8 * i, nb);
      } else {
        var r := Split(p, 8 * i, nb);
        ReplaceDv(r, rsize);
      }
    }

    /** A small request from the small bins or, failing these and the designated victim, from the smallest tree chunk.
        */
    method SmallFit(nb: nat) returns (p: int)
      requires Valid() && nb % 8 == 0 && MIN_CHUNK_SIZE <= nb < MIN_LARGE_SIZE
      modifies this`head, this`foot, this`link, this`smallmap, this`treemap, this`treebins
      modifies this`bins, this`tries, this`starts, this`live, this`dv, this`dvsize
      ensures Valid()
      ensures p != 0 ==> live == old(live) + {p} && Granted(old(L()), L(), old(live), p, nb)
      ensures p != 0 ==> InList(old(bins), SizeOf(old(L()), p), p) && LeastBinned(old(bins), nb, SizeOf(old(L()), p))
      ensures p == 0 ==> unchanged(this) && (nb <= dvsize || NoneBinned(bins, nb))
      ensures p == 0 ==> DvRight(bins, nb, dvsize)
    {
      hide *;
      Unfold({});
      TreemapEmpty(head, link, smallmap, treemap, treebins, bins, tries);
      SmallBits(head, link, smallmap, bins, nb);
      SmallDv(smallmap, bins, nb, dvsize, link);
      ghost var l := L();
      SmallBinBounds(smallmap, nb);
      var idx := SmallIndex(nb);
      p := 0;
      if idx in smallmap || idx + 1 in smallmap {
        idx := if idx in smallmap then idx else idx + 1;
        p := TakeFirst(idx, nb);
      } else if nb > dvsize {
        var i := NextBin(smallmap, idx);
        if i < NSMALLBINS {
          p := TakePart(i, nb);
        } else if treemap != {} {
          p := TmallocSmall(nb);
          LeastFitIsLeast(old(bins), nb, SizeOf(l, p));
        } else {
          NoneOfAll(bins, nb);
        }
      }
    }

    /** A request that the designated victim holds. */
    method TakeDv(nb: nat) returns (p: int)
      requires Valid() && nb % 8 == 0 && MIN_CHUNK_SIZE <= nb <= dvsize
      modifies this`head, this`foot, this`starts, this`live, this`dv, this`dvsize
      ensures Valid() && live == old(live) + {p} && Granted(old(L()), L(), old(live), p, nb) && p == old(dv)
      ensures dvsize == if old(dvsize) - nb >= MIN_CHUNK_SIZE then old(dvsize) - nb else 0
    {
      p := dv;
      var dvs := dvsize;
      var rsize := dvs - nb;
      DvOut(L(), bins, dv, dvsize, {}, live);
      assert {} + {p} == {p};
      hide BinsOk, StateOk, Granted, LayoutOk;
      dv, dvsize := 0, 0;
      if rsize >= MIN_CHUNK_SIZE {
        var r := Split(p, dvs, nb);
        DvIn(L(), bins, {r}, live, r);
        assert {r} - {r} == {};
        dv := r;
        dvsize := rsize;
      } else {
        Exhaust(p, dvs, nb);
      }
    }

    /** A request that the top chunk holds. */
    method SplitTop(nb: nat) returns (p: int)
      requires Valid() && nb % 8 == 0 && MIN_CHUNK_SIZE <= nb < topsize
      modifies this`head, this`top, this`topsize, this`starts, this`live
      ensures Valid() && live == old(live) + {p} && Granted(old(L()), L(), old(live), p, nb) && p == old(top)
      ensures p > 0 && topsize == old(topsize) - nb
    {
      hide *;
      Unfold({});
      CarveTopState(L(), bins, dv, dvsize, live, nb);
      CarveTopShape(L(), nb);
      StateTop(L(), bins, dv, dvsize, live);
      ghost var h := head;
      ghost var l' := CarveTop(L(), nb);
      var rsize: nat := topsize - nb;
      topsize := rsize;
      p := top;
      var r := p + nb;
      top := r;
      head := head[r := Head(rsize, false, true)];
      SetSizeAndPinuseOfInuseChunk(p, nb);
      starts, live := starts + {r}, live + {p};
      Unfold({});
      assert L() == l';
      BinsKept(h, l', bins, dv, dvsize, {}, live, link, smallmap, treemap, treebins, tries);
    }

    // ---- More memory ------------------------------------------------------------

    method InitTop(p: int, psize: nat)
      modifies this`head, this`top, this`topsize
      ensures top == p && topsize == psize
      ensures head == old(head)[p := Head(psize, false, true)][p + psize := Head(TOP_FOOT_SIZE, false, false)]
    {
      top := p;
      topsize := psize;
      head := head[p := Head(psize, false, true)];
      head := head[p + psize := Head(TOP_FOOT_SIZE, false, false)];
    }

    method SegmentEndingAt(addr: int) returns (i: nat)
      ensures i <= |segs| && (i < |segs| ==> EndOf(segs[i]) == addr)
    {
      i := 0;
      while i < |segs| && addr != EndOf(segs[i])
        invariant i <= |segs|
      {
        i := i + 1;
      }
    }

    method SegmentStartingAt(addr: int) returns (i: nat)
      ensures i <= |segs| && (i < |segs| ==> segs[i].base == addr)
    {
      i := 0;
      while i < |segs| && segs[i].base != addr
        invariant i <= |segs|
      {
        i := i + 1;
      }
    }

    method SegmentHolding(addr: int) returns (i: nat)
      requires exists j :: 0 <= j < |segs| && Holds(segs[j], addr)
      ensures i < |segs| && Holds(segs[i], addr)
    {
      i := 0;
      while !(segs[i].base <= addr < EndOf(segs[i]))
        invariant i < |segs| && forall j :: 0 <= j < i ==> !Holds(segs[j], addr)
        decreases |segs| - i
      {
        i := i + 1;
      }
    }

    /** Fenceposts from p on, up to the last one that fits below old_end. */
    method PutFenceposts(first: int, oldEnd: int)
      requires first <= oldEnd - 16 && (oldEnd - first) % 8 == 0
      modifies this`head
      ensures head == Fenced(old(head), first, oldEnd - 16)
    {
      hide Fenced, WithFences;
      var p := first;
      while true
        invariant first <= p <= oldEnd - 16 && (oldEnd - 16 - p) % 8 == 0
        invariant Fenced(head, p, oldEnd - 16) == Fenced(old(head), first, oldEnd - 16)
        decreases oldEnd - p
      {
        FenceStep(head, p, oldEnd - 16);
        var nextp := p + 8;
        head := head[p := Head(FENCEPOST_SIZE, true, true)];
        if nextp + 8 < oldEnd {
          p := nextp;
        } else {
          break;
        }
      }
    }

    /** A new segment becomes the top; the tail of the old top holds the old segment's record and fenceposts. */
    method AddSegment(tbase: nat, tsize: nat)
      requires Valid() && NewSegmentFits(L(), tbase, tsize)
      modifies this`head, this`foot, this`link, this`smallmap, this`treemap, this`treebins, this`top, this`topsize
      modifies this`bins, this`tries, this`starts, this`ends, this`segs
      ensures Valid() && KeepsLive(old(L()), L(), live) && topsize == tsize - TOP_FOOT_SIZE && top == tbase
    {
      hide *;
      ghost var l := L();
      ghost var limbo := if RecordAt(l) == top then {} else {top};
      Unfold({});
      SegmentAddedOk(l, bins, dv, dvsize, live, tbase, tsize);
      BinsKept(head, SegmentAdded(l, tbase, tsize), bins, dv, dvsize, limbo, live, link, smallmap, treemap, treebins,
        tries);
      var oldTop := top;
      var csp := CloseTop(tbase, tsize);
      Unfold(limbo);
      if csp != oldTop {
        var psize := csp - oldTop;
        InsertChunk(oldTop, psize, {oldTop});
        assert {oldTop} - {oldTop} == {};
        Unfold({});
      }
    }

    /** Writes all headers of add_segment; csp is where the record of the old segment went. */
    method CloseTop(tbase: nat, tsize: nat) returns (csp: int)
      requires NewSegmentFits(L(), tbase, tsize) && tsize >= TOP_FOOT_SIZE
      modifies this`head, this`foot, this`top, this`topsize, this`starts, this`ends, this`segs
      ensures L() == SegmentAdded(old(L()), tbase, tsize) && csp == RecordAt(old(L()))
      ensures topsize == tsize - TOP_FOOT_SIZE && top == tbase && (csp != old(top) ==> csp - old(top) == old(topsize))
    {
      ghost var l := L();
      RecordIs(l);
      Unfold({});
      hide *;
      ghost var l' := SegmentAdded(l, tbase, tsize);
      var oldTop := top;
      var oldEnd := OldSegmentEnd(tbase, tsize);
      var ssize := PadRequest(24);
      csp := RecordPlace(oldTop, topsize, oldEnd, ssize);
      var psize: nat := csp - oldTop;
      SegmentAddedShape(l, tbase, tsize, csp, ssize, oldEnd, psize);
      WriteFences(oldTop, csp, psize, ssize, oldEnd, tbase, tsize);
      starts, ends := l'.starts, l'.ends;
      Unfold({});
      assert L() == l';
    }

    method OldSegmentEnd(ghost tbase: nat, ghost tsize: nat) returns (oldEnd: int)
      requires NewSegmentFits(L(), tbase, tsize)
      ensures oldEnd == OldEnd(L()) && oldEnd % 8 == 0
      ensures RecordAt(L()) + SEGMENT_CHUNK <= oldEnd - 16 && (oldEnd - RecordAt(L()) - SEGMENT_CHUNK) % 8 == 0
    {
      FenceBounds(L(), tbase, tsize);
      var i := SegmentHolding(top);
      oldEnd := EndOf(segs[i]);
    }

    method WriteFences(oldTop: int, csp: int, psize: nat, ssize: nat, oldEnd: int, tbase: nat, tsize: nat)
      requires tsize >= TOP_FOOT_SIZE && csp + ssize <= oldEnd - 16 && (oldEnd - csp - ssize) % 8 == 0
      requires csp in CloseWrites(head, oldTop, csp, ssize, oldEnd, tbase, tsize)
      modifies this`head, this`foot, this`top, this`topsize, this`segs
      ensures top == tbase && topsize == tsize - TOP_FOOT_SIZE && segs == [Segment(tbase, tsize)] + old(segs)
      ensures foot == if csp == oldTop then old(foot) else old(foot)[oldTop + psize := psize]
      ensures var h := CloseWrites(old(head), oldTop, csp, ssize, oldEnd, tbase, tsize);
        head == if csp == oldTop then h else h[csp := h[csp].(pinuse := false)][oldTop := Head(psize, false, true)]
    {
      hide *;
      CloseWritesAre(head, oldTop, csp, ssize, oldEnd, tbase, tsize);
      InitTop(tbase, tsize - TOP_FOOT_SIZE);
      SetSizeAndPinuseOfInuseChunk(csp, ssize);
      segs := [Segment(tbase, tsize)] + segs;
      PutFenceposts(csp + ssize, oldEnd);
      if csp != oldTop {
        SetFreeWithPinuse(oldTop, psize, csp);
      }
    }

    /** Where the record goes: the aligned place below the old end, or the old top itself when too little would be
        left. */
    static method RecordPlace(oldTop: int, ghost topsize: nat, oldEnd: int, ssize: nat) returns (csp: int)
      requires oldEnd == oldTop + topsize + TOP_FOOT_SIZE && oldEnd % 8 == 0 && ssize == PadRequest(24)
      ensures ssize == SEGMENT_CHUNK && csp == if topsize < MIN_CHUNK_SIZE then oldTop else oldTop + topsize
    {
      var rawsp := oldEnd - (ssize + 32 + 7);
      var asp := (rawsp + 7) / 8 * 8;
      csp := if asp < oldTop + MIN_CHUNK_SIZE then oldTop else asp;
    }

    /** The block comes from the start of the new range; the rest merges with the chunk at the old base. */
    method PrependAlloc(newbase: nat, oldbase: nat, nb: nat, ghost l: Layout, ghost i: nat) returns (p: int)
      requires PrependReady(L(), l, i, newbase, oldbase, nb)
      requires BinsValid() && StateOk(l, bins, dv, dvsize, {}, live)
      modifies this`head, this`foot, this`link, this`smallmap, this`treemap, this`treebins, this`top, this`topsize
      modifies this`bins, this`tries, this`starts, this`live, this`dv, this`dvsize
      ensures Valid() && p == newbase && live == old(live) + {p} && Granted(l, L(), old(live), p, nb)
    {
      p := newbase;
      var oldfirst := oldbase;
      hide *;
      if oldfirst == top {
        PrependIntoTop(p, oldfirst, nb, l, i);
      } else if oldfirst == dv {
        PrependIntoDv(p, oldfirst, nb, l, i);
      } else {
        PrependBefore(p, oldfirst, nb, l, i);
      }
    }

    method PrependIntoTop(p: nat, oldbase: nat, nb: nat, ghost l: Layout, ghost i: nat)
      requires PrependReady(L(), l, i, p, oldbase, nb) && oldbase == top
      requires BinsValid() && StateOk(l, bins, dv, dvsize, {}, live)
      modifies this`head, this`top, this`topsize, this`starts, this`live
      ensures Valid() && live == old(live) + {p} && Granted(l, L(), old(live), p, nb)
    {
      hide *;
      Unfold({});
      PrependReadyIs(L(), l, i, p, oldbase, nb);
      ghost var psize: nat := oldbase - p;
      PrependSegs(l, i, p, psize, nb);
      var q := p + nb;
      var qsize: nat := oldbase - q;
      PrependToTop(l, bins, dv, dvsize, live, i, p, psize, nb);
      ghost var l' := FreedToTop(Prepended(l, i, p, psize, nb), q);
      BinsKept(head, l', bins, dv, dvsize, {}, live + {p}, link, smallmap, treemap, treebins, tries);
      assert psize - nb == qsize;
      SetSizeAndPinuseOfInuseChunk(p, nb);
      MoveTop(q, topsize + qsize);
      starts, live := l'.starts, live + {p};
      Unfold({});
      assert L() == l';
    }

    method PrependIntoDv(p: nat, oldbase: nat, nb: nat, ghost l: Layout, ghost i: nat)
      requires PrependReady(L(), l, i, p, oldbase, nb) && oldbase == dv && oldbase != top
      requires BinsValid() && StateOk(l, bins, dv, dvsize, {}, live)
      modifies this`head, this`foot, this`dv, this`dvsize, this`starts, this`live
      ensures Valid() && live == old(live) + {p} && Granted(l, L(), old(live), p, nb)
    {
      hide *;
      Unfold({});
      PrependReadyIs(L(), l, i, p, oldbase, nb);
      ghost var psize: nat := oldbase - p;
      PrependSegs(l, i, p, psize, nb);
      var q := p + nb;
      var qsize: nat := oldbase - q;
      PrependToDv(l, bins, dv, dvsize, live, i, p, psize, nb);
      ghost var l' := Freed(Prepended(l, i, p, psize, nb), q);
      assert psize - nb == qsize;
      var dsize := dvsize + qsize;
      BinsKept(head, l', bins, q, dsize, {}, live + {p}, link, smallmap, treemap, treebins, tries);
      assert q + dsize == dv + dvsize;
      WriteIntoDv(p, nb, q, dsize);
      starts, live := l'.starts, live + {p};
      Unfold({});
      assert L() == l';
    }

    method WriteIntoDv(p: int, nb: nat, q: int, dsize: nat)
      modifies this`head, this`foot, this`dv, this`dvsize
      ensures head == old(head)[p := Head(nb, true, true)][q := Head(dsize, false, true)]
      ensures foot == old(foot)[q + dsize := dsize] && dv == q && dvsize == dsize
    {
      SetSizeAndPinuseOfInuseChunk(p, nb);
      dvsize := dsize;
      dv := q;
      SetSizeAndPinuseOfFreeChunk(q, dsize);
    }

    /** The chunk at the old base is neither the top nor the designated victim. */
    method PrependBefore(p: nat, oldbase: nat, nb: nat, ghost l: Layout, ghost i: nat)
      requires PrependReady(L(), l, i, p, oldbase, nb) && oldbase != top && oldbase != dv
      requires BinsValid() && StateOk(l, bins, dv, dvsize, {}, live)
      modifies this`head, this`foot, this`link, this`smallmap, this`treemap, this`treebins
      modifies this`bins, this`tries, this`starts, this`live
      ensures Valid() && live == old(live) + {p} && Granted(l, L(), old(live), p, nb)
    {
      hide *;
      Unfold({});
      PrependReadyIs(L(), l, i, p, oldbase, nb);
      ghost var psize: nat := oldbase - p;
      PrependSegs(l, i, p, psize, nb);
      ghost var b := bins;
      var q := p + nb;
      var oldfirst := PrependUnlink(p, oldbase, nb, l, i);
      Unfold({});
      ghost var l' := PrependRemainder(l, b, bins, dv, dvsize, live, i, p, psize, nb, oldfirst, head, link, smallmap,
        treemap, treebins, tries);
      live := live + {p};
      Unfold({});
      PrependWrite(q, oldfirst - q, oldfirst, l');
      Unfold({q});
      InsertChunk(q, oldfirst - q, {q});
      assert {q} - {q} == {};
      Unfold({});
    }

    /** Writes the new block's header; a free chunk at the old base leaves its bin. */
    method PrependUnlink(p: nat, oldbase: nat, nb: nat, ghost l: Layout, ghost i: nat) returns (oldfirst: int)
      requires p < oldbase && PrependFits(l, i, p, oldbase - p, nb) && l.head == head && oldbase != l.top &&
        oldbase != dv
      requires BinsValid() && StateOk(l, bins, dv, dvsize, {}, live)
      modifies this`head, this`link, this`smallmap, this`treemap, this`treebins, this`bins, this`tries
      ensures BinsValid() && head == old(head)[p := Head(nb, true, true)]
      ensures if InUse(l, oldbase) then bins == old(bins) && oldfirst == oldbase
        else Removed(old(bins), bins, SizeOf(l, oldbase), oldbase) && oldfirst == Next(l, oldbase)
    {
      hide *;
      Unfold({});
      PrependSegs(l, i, p, oldbase - p, nb);
      OldFirst(l, bins, dv, dvsize, live, i, p, oldbase - p);
      BinsOutside(l, bins, dv, dvsize, {}, live, p, Head(nb, true, true), link, smallmap, treemap, treebins, tries);
      OutsideSame(head, p, oldbase, Head(nb, true, true));
      HeadIs(l, oldbase);
      NextIs(l, oldbase);
      SetSizeAndPinuseOfInuseChunk(p, nb);
      Unfold({});
      oldfirst := oldbase;
      if !head[oldfirst].cinuse {
        var nsize := head[oldfirst].size;
        UnlinkChunk(oldfirst, nsize);
        oldfirst := oldfirst + nsize;
      }
    }

    method PrependWrite(q: int, qsize: nat, n: int, ghost l': Layout)
      requires n in head
      requires l' == L().(starts := l'.starts, foot := foot[q + qsize := qsize],
        head := head[n := head[n].(pinuse := false)][q := Head(qsize, false, true)])
      modifies this`head, this`foot, this`starts
      ensures L() == l'
    {
      Unfold({});
      hide *;
      SetFreeWithPinuse(q, qsize, n);
      starts := l'.starts;
      Unfold({});
    }

    /** New memory from the system, or the null pointer if the system or the size computation refuses. */
    method AllocSys(nb: nat, mp: nat) returns (p: int)
      requires Valid() && nb < SIZE_T_MODULUS && (nb % 8 == 0 || nb == MAX_SIZE_T) && nb >= MIN_CHUNK_SIZE
      requires mp != 0 && SystemSize(nb) > nb ==> FreshRange(L(), mp, SystemSize(nb))
      modifies this`head, this`foot, this`link, this`smallmap, this`treemap, this`treebins, this`top, this`topsize
      modifies this`bins, this`tries, this`starts, this`live, this`dv, this`dvsize, this`ends, this`segs
      ensures Valid() && p >= 0 && (p != 0 <==> mp != 0 && SystemSize(nb) > nb)
      ensures p == 0 ==> unchanged(this)
      ensures p != 0 ==> live == old(live) + {p} && Granted(old(L()), L(), old(live), p, nb) && !IsFree(old(L()), p)
    {
      SystemSizeFits(nb);
      hide SystemSize;
      p := 0;
      var tbase, tsize: nat := 0, 0;
      var rsize := SystemSize(nb);
      if rsize > nb {
        if mp != 0 {
          tbase, tsize := mp, rsize;
        }
      }
      if tbase != 0 {
        assert nb % 8 == 0;
        p := UseNewMemory(nb, tbase, tsize);
      }
    }

    /** The new range extends the top segment, is put in front of a segment, or becomes a segment of its own. */
    method UseNewMemory(nb: nat, tbase: nat, tsize: nat) returns (p: int)
      requires Valid() && nb % 8 == 0 && nb >= MIN_CHUNK_SIZE && tbase != 0 && tsize > nb + TOP_FOOT_SIZE &&
        tsize % 8 == 0
      requires FreshRange(L(), tbase, tsize)
      modifies this`head, this`foot, this`link, this`smallmap, this`treemap, this`treebins, this`top, this`topsize
      modifies this`bins, this`tries, this`starts, this`live, this`dv, this`dvsize, this`ends, this`segs
      ensures Valid() && p > 0 && live == old(live) + {p} && Granted(old(L()), L(), old(live), p, nb) &&
        !IsFree(old(L()), p)
    {
      hide *;
      ghost var l := L();
      Unfold({});
      StateTop(l, bins, dv, dvsize, live);
      FreshNotFree(l, tbase, tsize);
      var i := SegmentEndingAt(tbase);
      if i < |segs| && segs[i].base <= top < EndOf(segs[i]) {
        ExtendsIs(l, i, tbase, tsize);
        ExtendState(l, bins, dv, dvsize, live, i, tbase, tsize);
        ExtendShape(l, i, tsize);
        BinsKept(head, ExtendTop(l, i, tsize), bins, dv, dvsize, {}, live, link, smallmap, treemap, treebins, tries);
        segs := segs[i := Segment(segs[i].base, segs[i].size + tsize)];
        InitTop(top, topsize + tsize);
        Unfold({});
        assert L() == ExtendTop(l, i, tsize);
      } else {
        var j := SegmentStartingAt(tbase + tsize);
        if j < |segs| {
          var oldbase := segs[j].base;
          PrependReadyHere(l, j, tbase, tsize, nb);
          segs := segs[j := Segment(tbase, segs[j].size + tsize)];
          Unfold({});
          p := PrependAlloc(tbase, oldbase, nb, l, j);
          return;
        }
        NewFits(l, tbase, tsize);
        AddSegment(tbase, tsize);
      }
      ghost var l1 := L();
      p := SplitTop(nb);
      GrantedLater(l, l1, L(), old(live), p, nb);
    }

    // ---- malloc -----------------------------------------------------------------

    /** mp is what the system gives when asked: a fresh range of the size asked for, or null. */
    method Malloc(nsize: nat, mp: nat) returns (mem: int)
      requires Valid() && nsize < SIZE_T_MODULUS
      requires mp != 0 && SystemSize(ChunkSizeFor(nsize)) > ChunkSizeFor(nsize) ==>
        FreshRange(L(), mp, SystemSize(ChunkSizeFor(nsize)))
      modifies this`head, this`foot, this`link, this`smallmap, this`treemap, this`treebins, this`top, this`topsize
      modifies this`bins, this`tries, this`starts, this`live, this`dv, this`dvsize, this`ends, this`segs
      ensures Valid()
      ensures mem != 0 ==> nsize < MAX_REQUEST && live == old(live) + {mem - 16}
      ensures mem != 0 ==> Granted(old(L()), L(), old(live), mem - 16, ChunkSizeFor(nsize))
      ensures mem != 0 ==> WellPlaced(old(L()), old(bins), old(dv), old(dvsize), ChunkSizeFor(nsize), mem - 16)
      ensures mem == 0 ==> unchanged(this)
      ensures mem == 0 <==> Exhausted(old(bins), old(dvsize), old(topsize), ChunkSizeFor(nsize), mp)
    {
      var nb: nat;
      mem := 0;
      MallocFacts(nsize);
      hide BinsOk, StateOk, LayoutOk, Granted, InList, LeastBinned, NoneBinned, LeastFit, DvRight, WellPlaced,
        SystemSize;
      hide FreshRange, PadRequest, IsFree, KeepsLive;
      if nsize <= MAX_SMALL_REQUEST {
        nb := if nsize < MIN_REQUEST then MIN_CHUNK_SIZE else PadRequest(nsize);
        mem := MallocSmall(nb);
        if mem != 0 {
          return;
        }
      } else if nsize >= MAX_REQUEST {
        nb := MAX_SIZE_T;
        MallocHuge();
      } else {
        nb := PadRequest(nsize);
        mem := MallocLarge(nb);
        if mem != 0 {
          return;
        }
      }
      mem := MallocRest(nb, mp);
    }

    lemma MallocHuge()
      requires Valid()
      ensures DvRight(bins, MAX_SIZE_T, dvsize) && NoneBinned(bins, MAX_SIZE_T)
      ensures dvsize < MAX_SIZE_T && topsize < MAX_SIZE_T
    {
      BinnedBelow(head, bins, MAX_SIZE_T);
      DvBound(L(), bins, dv, dvsize, {}, live);
      assert SegmentsOk(L()) && ChunkOk(L(), top);
      SizeBound(L(), top);
    }

    method MallocSmall(nb: nat) returns (mem: int)
      requires Valid() && nb % 8 == 0 && MIN_CHUNK_SIZE <= nb < MIN_LARGE_SIZE
      modifies this`head, this`foot, this`link, this`smallmap, this`treemap, this`treebins
      modifies this`bins, this`tries, this`starts, this`live, this`dv, this`dvsize
      ensures Valid()
      ensures mem != 0 ==> live == old(live) + {mem - 16} && Granted(old(L()), L(), old(live), mem - 16, nb)
      ensures mem != 0 ==>
        WellPlaced(old(L()), old(bins), old(dv), old(dvsize), nb, mem - 16) && !NoneBinned(old(bins), nb)
      ensures mem == 0 ==> unchanged(this) && (nb <= dvsize || NoneBinned(bins, nb)) && DvRight(bins, nb, dvsize)
    {
      ghost var l, b, d, ds, v := L(), bins, dv, dvsize, live;
      Unfold({});
      hide *;
      var p := SmallFit(nb);
      mem := 0;
      if p != 0 {
        BinnedWell(l, b, d, ds, v, nb, p);
        BinnedPositive(l, b, d, ds, v, p);
        mem := p + 16;
        assert mem - 16 == p;
      }
    }

    method MallocLarge(nb: nat) returns (mem: int)
      requires Valid() && nb % 8 == 0 && MIN_LARGE_SIZE <= nb < SIZE_T_MODULUS
      modifies this`head, this`foot, this`link, this`smallmap, this`treemap, this`treebins
      modifies this`bins, this`tries, this`starts, this`live
      ensures Valid()
      ensures mem != 0 ==> live == old(live) + {mem - 16} && Granted(old(L()), L(), old(live), mem - 16, nb)
      ensures mem != 0 ==> WellPlaced(old(L()), old(bins), dv, dvsize, nb, mem - 16) && !NoneBinned(old(bins), nb)
      ensures mem == 0 ==> unchanged(this) && (nb <= dvsize || NoneBinned(bins, nb)) && DvRight(bins, nb, dvsize)
    {
      ghost var l, b, d, ds, v := L(), bins, dv, dvsize, live;
      Unfold({});
      TreemapEmpty(head, link, smallmap, treemap, treebins, bins, tries);
      hide *;
      var p := 0;
      mem := 0;
      if treemap != {} {
        p := TmallocLarge(nb);
      }
      if p != 0 {
        LargeLeast(b, nb, SizeOf(l, p));
        BinnedWell(l, b, d, ds, v, nb, p);
        BinnedPositive(l, b, d, ds, v, p);
        mem := p + 16;
        assert mem - 16 == p;
      } else {
        LargeDeclined(bins, nb, dvsize);
      }
    }

    /** No bin serves the request: the designated victim, the top chunk or the system must. */
    method MallocRest(nb: nat, mp: nat) returns (mem: int)
      requires Valid() && MIN_CHUNK_SIZE <= nb < SIZE_T_MODULUS && (nb % 8 == 0 || nb == MAX_SIZE_T)
      requires nb == MAX_SIZE_T ==> dvsize < nb && topsize < nb
      requires (nb <= dvsize || NoneBinned(bins, nb)) && DvRight(bins, nb, dvsize)
      requires mp != 0 && SystemSize(nb) > nb ==> FreshRange(L(), mp, SystemSize(nb))
      modifies this`head, this`foot, this`link, this`smallmap, this`treemap, this`treebins, this`top, this`topsize
      modifies this`bins, this`tries, this`starts, this`live, this`dv, this`dvsize, this`ends, this`segs
      ensures Valid()
      ensures mem != 0 ==> live == old(live) + {mem - 16} && Granted(old(L()), L(), old(live), mem - 16, nb)
      ensures mem != 0 ==> WellPlaced(old(L()), old(bins), old(dv), old(dvsize), nb, mem - 16)
      ensures mem == 0 ==> unchanged(this)
      ensures mem == 0 <==> Exhausted(old(bins), old(dvsize), old(topsize), nb, mp)
    {
      DvBound(L(), bins, dv, dvsize, {}, live);
      DvWell(L(), bins, dv, dvsize, nb);
      hide BinsOk, StateOk, LayoutOk, Granted, InList, NoneBinned, DvRight, WellPlaced, SystemSize, FreshRange;
      hide IsFree, KeepsLive, Valid;
      mem := 0;
      if nb <= dvsize {
        var p := TakeDv(nb);
        mem := p + 16;
      } else if nb < topsize {
        var p := SplitTop(nb);
        mem := p + 16;
      } else {
        ghost var l, b, d, ds := L(), bins, dv, dvsize;
        var p := AllocSys(nb, mp);
        if p != 0 {
          AnyWell(l, b, d, ds, nb, p);
          mem := p + 16;
          assert mem - 16 == p;
        }
      }
    }

    // ---- free -------------------------------------------------------------------

    method Free(mem: int)
      requires Valid() && (mem == 0 || mem - 16 in live)
      modifies this`head, this`foot, this`link, this`smallmap, this`treemap, this`treebins, this`top, this`topsize
      modifies this`bins, this`tries, this`starts, this`live, this`dv, this`dvsize
      ensures Valid()
      ensures mem == 0 ==> unchanged(this)
      ensures mem != 0 ==> live == old(live) - {mem - 16} && KeepsLive(old(L()), L(), live)
    {
      if mem != 0 {
        FreeChunk(mem - 16);
      }
    }

    /** Chunk q stops being a block; if the chunk in front of it is free, the two are taken together. */
    method FreeChunk(q: int)
      requires Valid() && q in live
      modifies this`head, this`foot, this`link, this`smallmap, this`treemap, this`treebins, this`top, this`topsize
      modifies this`bins, this`tries, this`starts, this`live, this`dv, this`dvsize
      ensures Valid() && live == old(live) - {q} && KeepsLive(old(L()), L(), live)
    {
      ghost var l := L();
      FreeStart(l, bins, dv, dvsize, live, q);
      hide BinsOk, StateOk, LayoutOk, InList, KeepsLive, Freeable, FreeNeighbours, IsFree, IsDv, FreeTo;
      var p := q;
      var psize := head[p].size;
      var next := p + psize;
      ghost var limbo: set<int> := {};
      if !head[p].pinuse {
        var prevsize := if p in foot then foot[p] else 0;
        p := p - prevsize;
        psize := psize + prevsize;
        if p != dv {
          TakeFromBin(p, prevsize, {});
          limbo := {p};
          assert {} + {p} == {p};
        } else if head[next].cinuse && head[next].pinuse {
          BeforeUsed(l, bins, dv, dvsize, {}, live, q, p);
          dvsize := psize;
          FreeBetween(q, p, psize, next, {});
          return;
        }
      }
      FreeForward(q, p, psize, next, limbo);
    }

    /** Writes the tags of the merged free chunk [p, p + psize) in front of the used chunk n. */
    method FreeBetween(ghost q: int, p: int, psize: nat, n: int, ghost limbo: set<int>)
      requires Freeable(L(), q) && Next(L(), q) != top && InUse(L(), n)
      requires p == FreeFrom(L(), q) && n == Next(L(), q) && psize == n - p
      requires FreeTo(L(), q) in head && p <= FreeTo(L(), q)
      requires BinsValid() && StateOk(Freed(L(), q), bins, dv, dvsize, limbo, live - {q})
      modifies this`head, this`foot, this`starts, this`live
      ensures BinsValid() && HeapValid(limbo) && live == old(live) - {q}
      ensures L() == Freed(old(L()), q) && SizeOf(L(), p) == psize
    {
      ghost var l := L();
      FreedShape(l, q);
      BinsKept(head, Freed(l, q), bins, dv, dvsize, limbo, live - {q}, link, smallmap, treemap, treebins, tries);
      hide BinsOk, StateOk, LayoutOk, Freeable, Freed;
      SetFreeWithPinuse(p, psize, n);
      starts, live := Freed(l, q).starts, live - {q};
      assert L() == Freed(l, q);
    }

    /** The same when the chunk after q was free, too, so that the header behind it already says so. */
    method FreeOver(ghost q: int, p: int, psize: nat, ghost limbo: set<int>)
      requires Freeable(L(), q) && Next(L(), q) != top && !InUse(L(), Next(L(), q))
      requires p == FreeFrom(L(), q) && psize == FreeTo(L(), q) - p
      requires FreeTo(L(), q) in head && p <= FreeTo(L(), q)
      requires BinsValid() && StateOk(Freed(L(), q), bins, dv, dvsize, limbo, live - {q})
      modifies this`head, this`foot, this`starts, this`live
      ensures BinsValid() && HeapValid(limbo) && live == old(live) - {q}
      ensures L() == Freed(old(L()), q) && SizeOf(L(), p) == psize
    {
      ghost var l := L();
      FreeFacts(l, q);
      FreedShape(l, q);
      BinsKept(head, Freed(l, q), bins, dv, dvsize, limbo, live - {q}, link, smallmap, treemap, treebins, tries);
      hide BinsOk, StateOk, LayoutOk, Freeable, Freed;
      SetSizeAndPinuseOfFreeChunk(p, psize);
      starts, live := Freed(l, q).starts, live - {q};
      assert L() == Freed(l, q);
    }

    /** Merges with the top chunk. */
    method FreeIntoTop(ghost q: int, p: int, psize: nat, ghost limbo: set<int>)
      requires BinsValid() && Midway(L(), bins, dv, dvsize, limbo, live, q, p) && Next(L(), q) == top
      requires psize == top - p
      modifies this`head, this`top, this`topsize, this`starts, this`live, this`dv, this`dvsize
      ensures Valid() && live == old(live) - {q} && KeepsLive(old(L()), L(), live)
    {
      hide *;
      ghost var l := L();
      Unfold({});
      IntoTop(l, bins, dv, dvsize, limbo, live, q, p);
      ghost var l' := FreedToTop(l, q);
      BinsKept(head, l', bins, if p == dv then 0 else dv, if p == dv then 0 else dvsize, {}, live - {q},
               link, smallmap, treemap, treebins, tries);
      var tsize := topsize + psize;
      MoveTop(p, tsize);
      if p == dv {
        dv := 0;
        dvsize := 0;
      }
      starts, live := l'.starts, live - {q};
      Unfold({});
      assert L() == l';
    }

    method MoveTop(p: int, tsize: nat)
      modifies this`head, this`top, this`topsize
      ensures top == p && topsize == tsize && head == old(head)[p := Head(tsize, false, true)]
    {
      topsize := tsize;
      top := p;
      head := head[p := Head(tsize, false, true)];
    }

    /** The second half of free: merge with what follows, and place the result. */
    method FreeForward(ghost q: int, p: int, psize: nat, next: int, ghost limbo: set<int>)
      requires BinsValid() && Midway(L(), bins, dv, dvsize, limbo, live, q, p) && next == Next(L(), q)
      requires psize == next - p
      requires p == dv ==> !InUse(L(), next)
      modifies this`head, this`foot, this`link, this`smallmap, this`treemap, this`treebins, this`top, this`topsize
      modifies this`bins, this`tries, this`starts, this`live, this`dv, this`dvsize
      ensures Valid() && live == old(live) - {q} && KeepsLive(old(L()), L(), live)
    {
      hide *;
      ghost var l := L();
      Unfold(limbo);
      MidwayFacts(l, bins, dv, dvsize, limbo, live, q, p);
      HeadIs(l, next);
      if !head[next].cinuse {
        if next == top {
          FreeIntoTop(q, p, psize, limbo);
        } else if next == dv {
          IntoDv(l, bins, dv, dvsize, limbo, live, q, p);
          dvsize := dvsize + psize;
          dv := p;
          Unfold({});
          FreeOver(q, p, dvsize, {});
          Unfold({});
        } else {
          FreeOverNext(q, p, psize, next, limbo);
        }
      } else {
        BeforeUsed(l, bins, dv, dvsize, limbo, live, q, p);
        FreeBetween(q, p, psize, next, {p});
        Unfold({p});
        InsertChunk(p, psize, {p});
        assert {p} - {p} == {};
        Unfold({});
      }
    }

    /** Merges with the binned chunk that follows. */
    method FreeOverNext(ghost q: int, p: int, psize: nat, next: int, ghost limbo: set<int>)
      requires BinsValid() && Midway(L(), bins, dv, dvsize, limbo, live, q, p) && next == Next(L(), q)
      requires psize == next - p && !InUse(L(), next) && next != dv && next != top
      modifies this`head, this`foot, this`link, this`smallmap, this`treemap, this`treebins
      modifies this`bins, this`tries, this`starts, this`live, this`dvsize
      ensures Valid() && live == old(live) - {q} && KeepsLive(old(L()), L(), live)
    {
      hide *;
      ghost var l := L();
      Unfold(limbo);
      MidwayFacts(l, bins, dv, dvsize, limbo, live, q, p);
      MidwaySet(l, bins, dv, dvsize, limbo, live, q, p);
      FreeOverSize(l, q);
      HeadIs(l, next);
      var nsize := head[next].size;
      TakeFromBin(next, nsize, limbo);
      Unfold(limbo + {next});
      OverNext(l, bins, dv, dvsize, limbo, live, q, p);
      if p == dv {
        dvsize := psize + nsize;
        Unfold({});
        FreeOver(q, p, psize + nsize, {});
      } else {
        Unfold({p});
        FreeOver(q, p, psize + nsize, {p});
        Unfold({p});
        InsertChunk(p, psize + nsize, {p});
        assert {p} - {p} == {};
      }
      Unfold({});
    }

    // ---- realloc ------------------------------------------------------------------

    /** Reads a header word that need not belong to a chunk yet. */
    function HeadAt(a: int): Head
      reads this`head
    {
      if a in head then head[a] else Head(0, false, false)
    }

    method SetInuse(p: int, s: nat)
      requires p in head && s > 0
      modifies this`head
      ensures head == old(head)[p := Head(s, true, old(head)[p].pinuse)][p + s := old(HeadAt(p + s)).(pinuse := true)]
    {
      head := head[p := Head(s, true, head[p].pinuse)];
      head := head[p + s := HeadAt(p + s).(pinuse := true)];
    }

    /** Block p gives up what it has beyond nb bytes. */
    method Shrink(p: int, nb: nat)
      requires Valid() && p in live && nb % 8 == 0 && nb >= MIN_CHUNK_SIZE && SizeOf(L(), p) >= nb + MIN_CHUNK_SIZE
      modifies this`head, this`foot, this`link, this`smallmap, this`treemap, this`treebins, this`top, this`topsize
      modifies this`bins, this`tries, this`starts, this`live, this`dv, this`dvsize
      ensures Valid() && live == old(live) && SizeOf(L(), p) == nb && IsLive(L(), p) &&
        KeepsLive(old(L()), L(), live - {p})
    {
      ghost var l, v := L(), live;
      Unfold({});
      ShrinkState(l, bins, dv, dvsize, live, p, nb);
      ghost var l' := SplitUsed(l, p, nb);
      BinsKept(head, l', bins, dv, dvsize, {}, live + {p + nb}, link, smallmap, treemap, treebins, tries);
      HeadIs(l, p);
      hide *;
      var rem := p + nb;
      var rsize: nat := head[p].size - nb;
      WriteSplit(p, nb, rem, rsize);
      starts, live := l'.starts, live + {rem};
      Unfold({});
      assert L() == l';
      FreeChunk(rem);
      assert v + {rem} - {rem} == v;
      ShrinkKeeps(l, l', L(), v, p, nb);
    }

    method WriteSplit(p: int, nb: nat, rem: int, rsize: nat)
      requires p in head && rem == p + nb && nb > 0 && rsize > 0 && rem + rsize in head && head[rem + rsize].pinuse
      modifies this`head
      ensures head == old(head)[p := Head(nb, true, old(head)[p].pinuse)][rem := Head(rsize, true, true)]
    {
      SetInuse(p, nb);
      SetInuse(rem, rsize);
      assert head == old(head)[p := Head(nb, true, old(head)[p].pinuse)][rem := Head(rsize, true, true)];
    }

    /** Block p takes what it lacks from the top chunk after it. */
    method Grow(p: int, nb: nat)
      requires Valid() && p in live && nb % 8 == 0 && Next(L(), p) == top &&
        SizeOf(L(), p) < nb < SizeOf(L(), p) + topsize
      modifies this`head, this`top, this`topsize, this`starts
      ensures Valid() && SizeOf(L(), p) == nb && IsLive(L(), p) && KeepsLive(old(L()), L(), live - {p})
    {
      ghost var l := L();
      Unfold({});
      GrowIn(l, bins, dv, dvsize, live, p, nb);
      ghost var l' := GrowIntoTop(l, p, nb);
      BinsKept(head, l', bins, dv, dvsize, {}, live, link, smallmap, treemap, treebins, tries);
      HeadIs(l, p);
      hide *;
      var newsize := head[p].size + topsize;
      var newtopsize: nat := newsize - nb;
      WriteGrown(p, nb, newtopsize);
      starts := l'.starts;
      Unfold({});
      assert L() == l';
    }

    method WriteGrown(p: int, nb: nat, newtopsize: nat)
      requires p in head && nb > 0
      modifies this`head, this`top, this`topsize
      ensures head == old(head)[p := Head(nb, true, old(head)[p].pinuse)][p + nb := Head(newtopsize, false, true)]
      ensures top == p + nb && topsize == newtopsize
    {
      var newtop := p + nb;
      SetInuse(p, nb);
      head := head[newtop := Head(newtopsize, false, true)];
      top := newtop;
      topsize := newtopsize;
    }

    /** Block p can be resized without moving it. */
    predicate FitsInPlace(p: int, nb: nat)
      reads this
    {
      SizeOf(Layout({}, head, foot, top, topsize, segs, {}), p) >= nb ||
      (p + SizeOf(Layout({}, head, foot, top, topsize, segs, {}), p) == top &&
       SizeOf(Layout({}, head, foot, top, topsize, segs, {}), p) + topsize > nb)
    }

    /** An in-use block stays where it is: it is cut to size, or grown into the top. */
    method ReallocHere(oldp: int, nb: nat)
      requires Valid() && oldp in live && nb % 8 == 0 && nb >= MIN_CHUNK_SIZE && FitsInPlace(oldp, nb)
      modifies this`head, this`foot, this`link, this`smallmap, this`treemap, this`treebins, this`top, this`topsize
      modifies this`bins, this`tries, this`starts, this`live, this`dv, this`dvsize
      ensures Valid() && live == old(live) && IsLive(L(), oldp) && SizeOf(L(), oldp) >= nb &&
        KeepsLive(old(L()), L(), live - {oldp})
    {
      ghost var l := L();
      KeepsSelf(l, bins, dv, dvsize, live, oldp);
      InUseHead(l, bins, dv, dvsize, live, oldp);
      assert SizeOf(l, oldp) == SizeOf(Layout({}, head, foot, top, topsize, segs, {}), oldp) == head[oldp].size;
      hide BinsOk, StateOk, LayoutOk, KeepsLive, IsLive, Valid;
      var oldsize := head[oldp].size;
      if oldsize >= nb {
        if oldsize - nb >= MIN_CHUNK_SIZE {
          Shrink(oldp, nb);
        }
      } else {
        Grow(oldp, nb);
      }
    }

    method CopyBytes(dst: int, src: int, n: nat, room: nat)
      requires Valid() && n <= room
      modifies this`bytes
      ensures Valid() && L() == old(L()) && Carried(old(bytes), bytes, src, dst, n, room)
    {
      hide *;
      Unfold({});
      CopiedCarried(bytes, src, dst, n, room);
      bytes := Copied(bytes, dst, src, n);
      Unfold({});
    }

    /** Allocate, copy and free. */
    method ReallocMove(ptr: int, nsize: nat, mp: nat, oldsize: nat) returns (mem: int, copied: nat)
      requires Valid() && ptr - 16 in live && nsize < MAX_REQUEST && oldsize == SizeOf(L(), ptr - 16) >= 8
      requires mp != 0 && SystemSize(ChunkSizeFor(nsize)) > ChunkSizeFor(nsize) ==>
        FreshRange(L(), mp, SystemSize(ChunkSizeFor(nsize)))
      modifies this`head, this`foot, this`link, this`smallmap, this`treemap, this`treebins, this`top, this`topsize
      modifies this`bins, this`tries, this`starts, this`live, this`dv, this`dvsize, this`ends, this`segs, this`bytes
      ensures Valid()
      ensures mem == 0 ==> unchanged(this)
      ensures mem == 0 <==> Exhausted(old(bins), old(dvsize), old(topsize), ChunkSizeFor(nsize), mp)
      ensures mem != 0 ==> live == old(live) - {ptr - 16} + {mem - 16} && IsLive(L(), mem - 16)
      ensures mem != 0 ==>
        SizeOf(L(), mem - 16) >= ChunkSizeFor(nsize) && KeepsLive(old(L()), L(), old(live) - {ptr - 16})
      ensures mem != 0 ==> mem != ptr && mem - 16 !in old(live) && copied == Least(nsize, oldsize - 8)
      ensures mem != 0 ==> Carried(old(bytes), bytes, ptr, mem, Least(nsize, oldsize - 8), nsize)
    {
      assert nsize < SIZE_T_MODULUS;
      hide *;
      ghost var l, v := L(), live;
      copied := 0;
      mem := Malloc(nsize, mp);
      if mem != 0 {
        ghost var l1 := L();
        copied := if oldsize - 8 < nsize then oldsize - 8 else nsize;
        LeastIs(nsize, oldsize - 8);
        CopyBytes(mem, ptr, copied, nsize);
        MovedFacts(l, l1, v, ptr - 16, mem - 16, ChunkSizeFor(nsize), ptr, mem);
        FreeChunk(ptr - 16);
        MovedKeeps(l, l1, L(), v, ptr - 16, mem - 16, ChunkSizeFor(nsize));
      }
    }

    /** copied is how many bytes of the old block's content the new one takes over, when the block moves. */
    method Realloc(ptr: int, nsize: nat, mp: nat) returns (mem: int, copied: nat)
      requires Valid() && ptr - 16 in live && nsize < SIZE_T_MODULUS
      requires mp != 0 && SystemSize(ChunkSizeFor(nsize)) > ChunkSizeFor(nsize) ==>
        FreshRange(L(), mp, SystemSize(ChunkSizeFor(nsize)))
      modifies this`head, this`foot, this`link, this`smallmap, this`treemap, this`treebins, this`top, this`topsize
      modifies this`bins, this`tries, this`starts, this`live, this`dv, this`dvsize, this`ends, this`segs, this`bytes
      ensures Valid()
      ensures mem == 0 ==> unchanged(this)
      ensures nsize >= MAX_REQUEST ==> mem == 0
      ensures nsize < MAX_REQUEST ==> (mem == 0 <==> (!old(FitsInPlace(ptr - 16, ChunkSizeFor(nsize))) &&
        Exhausted(old(bins), old(dvsize), old(topsize), ChunkSizeFor(nsize), mp)))
      ensures mem != 0 ==> live == old(live) - {ptr - 16} + {mem - 16} && IsLive(L(), mem - 16)
      ensures mem != 0 ==> SizeOf(L(), mem - 16) >= nsize + 8 && KeepsLive(old(L()), L(), old(live) - {ptr - 16})
      ensures mem == ptr <==> nsize < MAX_REQUEST && old(FitsInPlace(ptr - 16, ChunkSizeFor(nsize)))
      ensures mem != 0 && mem != ptr ==>
        mem - 16 !in old(live) && copied == Least(nsize, SizeOf(old(L()), ptr - 16) - 8)
      ensures mem != 0 ==>
        Carried(old(bytes), bytes, ptr, mem, Least(nsize, SizeOf(old(L()), ptr - 16) - 8), nsize)
    {
      mem, copied := 0, 0;
      NullNotLive(L(), bins, dv, dvsize, live);
      if nsize < MAX_REQUEST {
        ghost var l, v := L(), live;
        var oldp := ptr - 16;
        ReallocFacts(l, bins, dv, dvsize, live, oldp, nsize);
        HeadIs(l, oldp);
        assert SizeOf(l, oldp) == SizeOf(Layout({}, head, foot, top, topsize, segs, {}), oldp) == head[oldp].size >= 8;
        hide BinsOk, StateOk, LayoutOk, KeepsLive, RequestToSize, Exhausted, SystemSize, IsLive, FreshRange, Valid;
        hide ChunkSizeFor, Carried, Copied;
        StayedCarried(bytes, ptr, Least(nsize, SizeOf(l, oldp) - 8), nsize);
        var oldsize := head[oldp].size;
        var next := oldp + oldsize;
        var nb := RequestToSize(nsize);
        if oldsize >= nb || (next == top && oldsize + topsize > nb) {
          ReallocHere(oldp, nb);
          mem := ptr;
        } else {
          mem, copied := ReallocMove(ptr, nsize, mp, oldsize);
        }
        SameBlocks(v, oldp);
      }
    }

    /** The allocation function the virtual machine calls: free, malloc or realloc by its arguments. */
    method AllocF(ptr: int, nsize: nat, mp: nat) returns (mem: int)
      requires Valid() && (ptr == 0 || ptr - 16 in live) && nsize < SIZE_T_MODULUS
      requires nsize != 0 && mp != 0 && SystemSize(ChunkSizeFor(nsize)) > ChunkSizeFor(nsize) ==>
        FreshRange(L(), mp, SystemSize(ChunkSizeFor(nsize)))
      modifies this`head, this`foot, this`link, this`smallmap, this`treemap, this`treebins, this`top, this`topsize
      modifies this`bins, this`tries, this`starts, this`live, this`dv, this`dvsize, this`ends, this`segs, this`bytes
      ensures Valid()
      ensures nsize == 0 ==> mem == 0 && live == old(live) - {ptr - 16}
      ensures nsize != 0 && mem == 0 ==> unchanged(this)
      ensures nsize != 0 && ptr == 0 ==>
        (mem == 0 <==> Exhausted(old(bins), old(dvsize), old(topsize), ChunkSizeFor(nsize), mp))
      ensures nsize != 0 && ptr != 0 && nsize >= MAX_REQUEST ==> mem == 0
      ensures nsize != 0 && ptr != 0 && nsize < MAX_REQUEST ==>
        (mem == 0 <==> !old(FitsInPlace(ptr - 16, ChunkSizeFor(nsize))) &&
                       Exhausted(old(bins), old(dvsize), old(topsize), ChunkSizeFor(nsize), mp))
      ensures mem != 0 && mem != ptr ==> mem - 16 !in old(live)
      ensures mem != 0 ==> live == old(live) - {ptr - 16} + {mem - 16} && IsLive(L(), mem - 16)
      ensures mem != 0 ==> SizeOf(L(), mem - 16) >= nsize + 8
      ensures ptr != 0 && mem != 0 ==>
        Carried(old(bytes), bytes, ptr, mem, Least(nsize, SizeOf(old(L()), ptr - 16) - 8), nsize)
      ensures ptr == 0 || mem == 0 ==> bytes == old(bytes)
      ensures KeepsLive(old(L()), L(), old(live) - {ptr - 16})
    {
      ghost var l, v := L(), live;
      NullNotLive(l, bins, dv, dvsize, live);
      AllKept(l, bins, dv, dvsize, live, ptr - 16);
      hide BinsOk, StateOk, LayoutOk, KeepsLive, SystemSize, ChunkSizeFor, FreshRange, Valid, Exhausted, WellPlaced,
        IsLive, Carried;
      if nsize == 0 {
        Free(ptr);
        mem := 0;
        assert ptr == 0 ==> v - {ptr - 16} == v;
      } else if ptr == 0 {
        mem := Malloc(nsize, mp);
        assert v - {ptr - 16} == v;
        if mem != 0 {
          MallocFacts(nsize);
          RequestFits(nsize);
          GrantedFacts(l, L(), v, mem - 16, ChunkSizeFor(nsize), nsize);
        }
      } else {
        var copied;
        mem, copied := Realloc(ptr, nsize, mp);
      }
    }

    /** A new state at the start of the first segment, which it occupies as a used chunk of its own. */
    constructor (tbase: nat, memory: map<int, int>)
      requires SegmentOk(Segment(tbase, DEFAULT_GRANULARITY))
      ensures Valid() && live == {} && segs == [Segment(tbase, DEFAULT_GRANULARITY)] && bytes == memory
      ensures top + topsize + TOP_FOOT_SIZE == tbase + DEFAULT_GRANULARITY && bins == map[] && dvsize == 0
    {
      var tsize := DEFAULT_GRANULARITY;
      var msize := PadRequest(STATE_BYTES);
      var mn := tbase + msize;
      head := map[tbase := Head(msize, true, true)][mn := Head(tsize - msize - TOP_FOOT_SIZE, false, true)]
                 [tbase + tsize - TOP_FOOT_SIZE := Head(TOP_FOOT_SIZE, false, false)];
      foot := map[];
      link := Links(map[], map[], map[], map[], map[], map[]);
      smallmap, treemap := {}, {};
      treebins := seq(NTREEBINS, _ => 0);
      dv, dvsize := 0, 0;
      top, topsize := mn, tsize - msize - TOP_FOOT_SIZE;
      segs := [Segment(tbase, tsize)];
      bytes := memory;
      bins, tries := map[], seq(NTREEBINS, _ => Nil);
      starts, ends, live := {tbase, mn}, {}, {};
      new;
      InitBins();
      FirstLayout(tbase);
      EmptyBins(head, link, treebins, tries);
    }

    /** Makes every small bin an empty circle. */
    method InitBins()
      modifies this`link
      ensures forall i: nat :: i < NSMALLBINS ==>
        At(link.fd, SmallBinAt(i)) == At(link.bk, SmallBinAt(i)) == SmallBinAt(i)
    {
      var i := 0;
      while i < NSMALLBINS
        invariant i <= NSMALLBINS
        invariant forall j: nat :: j < i ==> At(link.fd, SmallBinAt(j)) == At(link.bk, SmallBinAt(j)) == SmallBinAt(j)
      {
        var b := SmallBinAt(i);
        link := link.(fd := link.fd[b := b], bk := link.bk[b := b]);
        i := i + 1;
      }
    }
  }
}
