/** What the heap invariant means to the clients of the allocator. */
module AllocTheorems {
  import opened AllocTrie
  import opened AllocLinks
  import opened AllocBins
  import opened AllocBinOps
  import opened AllocSearch
  import opened AllocHeap
  import opened AllocState

  /** Address x belongs to chunk a: to its own bytes, or to what the last chunk of a segment keeps behind itself. */
  predicate Owns(l: Layout, a: int, x: int)
  {
    a in l.starts && a <= x < Extent(l, a)
  }

  /** From any chunk on, the rest of its segment is covered. */
  lemma {:induction false} CoveredFrom(l: Layout, i: nat, a: int, x: int) returns (b: int)
    requires LayoutOk(l) && a in l.starts && Within(l, a, i) && a <= x < EndOf(l.segs[i])
    ensures Owns(l, b, x)
    decreases EndOf(l.segs[i]) - a
  {
    assert ChunkOk(l, a);
    if x < Extent(l, a) {
      b := a;
    } else {
      var n := Next(l, a);
      assert ChunkOk(l, n);
      var j :| Within(l, n, j);
      assert j == i by { SameSegment(l, n, i, j); }
      b := CoveredFrom(l, i, n, x);
    }
  }

  lemma SameSegment(l: Layout, n: int, i: nat, j: int)
    requires LayoutOk(l) && n in l.starts && i < |l.segs| && l.segs[i].base <= n < EndOf(l.segs[i]) && Within(l, n, j)
    ensures j == i
  {
    assert SegmentsOk(l) && ChunkOk(l, n);
  }

  /** The chunks tile every segment: each of its addresses belongs to one chunk and to no other. */
  lemma ChunksTile(l: Layout, i: nat, x: int)
    requires LayoutOk(l) && i < |l.segs| && l.segs[i].base <= x < EndOf(l.segs[i])
    ensures exists a :: Owns(l, a, x) && forall b :: Owns(l, b, x) ==> b == a
  {
    var base := l.segs[i].base;
    assert SegmentsOk(l) && SegmentOk(l.segs[i]);
    assert ChunkOk(l, base);
    var j :| Within(l, base, j);
    SameSegment(l, base, i, j);
    var a := CoveredFrom(l, i, base, x);
    forall b | Owns(l, b, x) ensures b == a {
      assert Apart(l, a, b) && Apart(l, b, a);
    }
  }

  /** The bytes a client may use: all but the header, plus the next chunk's foot word. */
  predicate InBlock(l: Layout, p: int, x: int)
  {
    p + 16 <= x < p + SizeOf(l, p) + 8
  }

  /** Blocks in use never share a byte, and hold no header of any chunk and no foot word that is in use. */
  lemma BlocksAreSafe(l: Layout, bins: Bins, dv: int, dvsize: nat, live: set<int>, p: int, x: int)
    requires StateOk(l, bins, dv, dvsize, {}, live) && p in live && InBlock(l, p, x)
    ensures forall q :: q in live && q != p ==> !InBlock(l, q, x)
    ensures forall a {:trigger a in l.starts} :: a in l.starts ==> !(a + 8 <= x < a + 16)
    ensures forall a {:trigger a in l.starts} :: a in l.starts && !PrevInUse(l, a) ==> !(a <= x < a + 8)
    ensures exists i :: 0 <= i < |l.segs| && Holds(l, i, x)
  {
    assert IsLive(l, p);
    forall q | q in live && q != p ensures !InBlock(l, q, x) {
      assert IsLive(l, q);
      BlocksApart(l, p, q, x);
    }
    forall a | a in l.starts ensures !(a + 8 <= x < a + 16) && (!PrevInUse(l, a) ==> !(a <= x < a + 8)) {
      NoHeaderInside(l, p, a, x);
    }
    BlockHeld(l, p, x);
    hide *;
  }

  lemma BlocksApart(l: Layout, p: int, q: int, x: int)
    requires LayoutOk(l) && IsLive(l, p) && IsLive(l, q) && p != q && InBlock(l, p, x)
    ensures !InBlock(l, q, x)
  {
    assert Apart(l, p, q) && Apart(l, q, p);
    assert ChunkOk(l, p) && ChunkOk(l, q);
    hide ChunkOk, LayoutOk;
  }

  lemma NoHeaderInside(l: Layout, p: int, a: int, x: int)
    requires LayoutOk(l) && IsLive(l, p) && a in l.starts && InBlock(l, p, x)
    ensures !(a + 8 <= x < a + 16) && (!PrevInUse(l, a) ==> !(a <= x < a + 8))
  {
    hide *;
    LiveSays(l, p);
    ChunkSays(l, a);
    ChunkSays(l, p);
    TwoApart(l, p, a);
    BlockIs(l, p, x);
    if !PrevInUse(l, a) {
      var b := a - FootAt(l, a);
      ChunkSays(l, b);
      TwoApart(l, p, b);
    }
  }

  lemma LiveSays(l: Layout, p: int)
    requires IsLive(l, p)
    ensures p in l.starts && InUse(l, p) && p !in l.ends && p != l.top
  {
  }

  lemma BlockIs(l: Layout, p: int, x: int)
    ensures InBlock(l, p, x) <==> p + 16 <= x < Next(l, p) + 8
  {
  }

  lemma TwoApart(l: Layout, p: int, a: int)
    requires LayoutOk(l) && p in l.starts && a in l.starts
    ensures (p < a ==> Next(l, p) <= a) && (a < p ==> Next(l, a) <= p)
  {
    assert Apart(l, p, a) && Apart(l, a, p);
  }

  lemma BlockHeld(l: Layout, p: int, x: int)
    requires LayoutOk(l) && IsLive(l, p) && InBlock(l, p, x)
    ensures exists i :: 0 <= i < |l.segs| && Holds(l, i, x)
  {
    assert ChunkOk(l, p);
    hide LayoutOk;
    var i :| Within(l, p, i);
    assert Holds(l, i, x);
  }

  predicate Holds(l: Layout, i: int, x: int)
  {
    0 <= i < |l.segs| && l.segs[i].base <= x < EndOf(l.segs[i])
  }

  /** Free chunks never touch, the designated victim and the top chunk included: between any two lies one in use. */
  lemma FreeChunksSeparated(l: Layout, a: int, b: int)
    requires LayoutOk(l) && a in l.starts && b in l.starts && a < b && !InUse(l, a) && !InUse(l, b) && a != l.top
    ensures exists c :: c in l.starts && a < c < b && InUse(l, c)
  {
    var c := Next(l, a);
    assert ChunkOk(l, a);
    assert Apart(l, a, b);
    assert c in l.starts && a < c < b && InUse(l, c);
  }

  lemma ListDistinct(head: map<int, Head>, k: Links, smallmap: set<nat>, treemap: set<nat>, treebins: seq<int>,
                     bins: Bins, tries: seq<Trie>, s: nat)
    requires BinsOk(head, k, smallmap, treemap, treebins, bins, tries) && s in bins
    ensures Distinct(bins[s])
  {
    if s < MIN_LARGE_SIZE {
      assert SmallOk(k, bins, s);
      var c := [SmallBinAt(SmallIndex(s))] + bins[s];
      forall i, j | 0 <= i < j < |bins[s]| ensures bins[s][i] != bins[s][j] {
        assert c[i + 1] == bins[s][i] && c[j + 1] == bins[s][j];
      }
    } else {
      assert RingOk(k, bins, s);
    }
  }

  /** Every free chunk is in exactly one place; a binned one only in the list that its size selects, and only once. */
  lemma FreeChunksArePlaced(l: Layout, k: Links, smallmap: set<nat>, treemap: set<nat>, treebins: seq<int>, bins: Bins,
                            tries: seq<Trie>, dv: int, dvsize: nat, live: set<int>, a: int)
    requires StateOk(l, bins, dv, dvsize, {}, live) && BinsOk(l.head, k, smallmap, treemap, treebins, bins, tries)
    ensures a in l.starts && !InUse(l, a) <==> a == l.top || IsDv(dv, dvsize, a) || InList(bins, SizeOf(l, a), a)
    ensures a == l.top ==> !IsDv(dv, dvsize, a)
    ensures a == l.top || IsDv(dv, dvsize, a) ==> NotBinned(bins, a)
    ensures forall s :: InList(bins, s, a) ==> s == SizeOf(l, a)
    ensures forall s, i, j :: s in bins && 0 <= i < j < |bins[s]| ==> bins[s][i] != bins[s][j]
  {
    forall s | s in bins ensures Distinct(bins[s]) {
      ListDistinct(l.head, k, smallmap, treemap, treebins, bins, tries, s);
    }
    assert SegmentsOk(l);
    if a == l.top { assert ChunkOk(l, a); }
    forall s | InList(bins, s, a) ensures s == SizeOf(l, a) && IsFree(l, a) {
    }
    if IsDv(dv, dvsize, a) { assert IsFree(l, a); }
    assert a in l.starts && !InUse(l, a) && a != l.top ==> IsFree(l, a);
    if a == l.top || IsDv(dv, dvsize, a) {
      forall s | s in bins ensures a !in bins[s] {
        assert a in bins[s] <==> InList(bins, s, a);
      }
    }
  }

  /** The bitmaps are exact. */
  lemma BitmapsExact(head: map<int, Head>, k: Links, smallmap: set<nat>, treemap: set<nat>, treebins: seq<int>,
                     bins: Bins, tries: seq<Trie>, i: nat)
    requires BinsOk(head, k, smallmap, treemap, treebins, bins, tries)
    ensures i in smallmap <==> exists s :: s in bins && s < MIN_LARGE_SIZE && SmallIndex(s) == i
    ensures i in treemap <==> exists s :: s in bins && s >= MIN_LARGE_SIZE && TreeIndex(s) == i
  {
    if i in smallmap {
      assert 8 * i in bins && SmallIndex(8 * i) == i;
    }
    forall s | s in bins && s < MIN_LARGE_SIZE ensures SmallIndex(s) in smallmap {
      assert ListOk(head, bins, s);
      assert 8 * SmallIndex(s) == s;
    }
    if i in treemap {
      assert TreeOk(k, treemap, treebins, bins, tries, i);
      assert tries[i].size in Sizes(tries[i]);
    }
    forall s | s in bins && s >= MIN_LARGE_SIZE ensures TreeIndex(s) in treemap {
      SizeInBin(head, k, treemap, treebins, bins, tries, s);
    }
  }
}
