/** What the two harder ways of adding memory do to the whole heap. */
module AllocSegments {
  import opened AllocLinks
  import opened AllocTrie
  import opened AllocBins
  import opened AllocBinOps
  import opened AllocHeap
  import opened AllocState

  // ---- New memory in front of a segment ------------------------------------------

  /** The new range as one used chunk, split into the block asked for and a remainder. */
  function Prepended(l: Layout, i: nat, base: nat, size: nat, nb: nat): Layout
    requires i < |l.segs| && nb <= size
  {
    var l1 := Prepend(l, i, base, size);
    l1.(starts := l1.starts + {base + nb}, head := l1.head[base := Head(nb, true, true)][base + nb :=
      Head(size - nb, true, true)])
  }

  ghost predicate PrependFits(l: Layout, i: nat, base: nat, size: nat, nb: nat)
  {
    Prepends(l, i, base, size) && nb % 8 == 0 && nb >= MIN_CHUNK_SIZE && size >= nb + MIN_CHUNK_SIZE
  }

  lemma PrependedOk(l: Layout, bins: Bins, dv: int, dvsize: nat, live: set<int>, i: nat, base: nat, size: nat, nb: nat)
    requires StateOk(l, bins, dv, dvsize, {}, live) && PrependFits(l, i, base, size, nb)
    ensures base !in live && base + nb !in live && base !in l.starts && base + nb !in l.starts
    ensures var l2, q := Prepended(l, i, base, size, nb), base + nb;
      Midway(l2, bins, dv, dvsize, {}, live + {base} + {q}, q, q) && Next(l2, q) == base + size && PrevInUse(l2, q) &&
        q != dv &&
      KeepsLive(l, l2, live) && SizeOf(l2, base) == nb && IsLive(l2, base) && l2.top == l.top
    ensures base + size in l.head && base + size in l.starts
  {
    PrependState(l, bins, dv, dvsize, live, i, base, size);
    PrependUnused(l, i, base, size);
    var l1, q := Prepend(l, i, base, size), base + nb;
    SplitState(l1, bins, dv, dvsize, live + {base}, base, nb);
    var l2 := SplitUsed(l1, base, nb);
    assert l2 == Prepended(l, i, base, size, nb);
    LiveFreeable(l2, bins, dv, dvsize, {}, live + {base} + {q}, q);
    assert q in live + {base} + {q} && base in live + {base} + {q};
    SplitUsedOk(l1, base, nb);
    assert IsLive(l2, base);
    if dvsize != 0 {
      assert IsFree(l, dv);
    }
    assert ChunkOk(l, base + size);
  }

  lemma PrependToTop(l: Layout, bins: Bins, dv: int, dvsize: nat, live: set<int>, i: nat, base: nat, size: nat, nb: nat)
    requires StateOk(l, bins, dv, dvsize, {}, live) && PrependFits(l, i, base, size, nb) && base + size == l.top
    ensures var l2, q := Prepended(l, i, base, size, nb), base + nb;
      FreeFrom(l2, q) <= l2.top &&
      var l' := FreedToTop(l2, q);
      StateOk(l', bins, dv, dvsize, {}, live + {base}) && Granted(l, l', live, base, nb) &&
      l' == l.(starts := l'.starts, head := l.head[base := Head(nb, true, true)][q :=
        Head(l.topsize + (size - nb), false, true)],
               top := q, topsize := l.topsize + (size - nb), segs := l2.segs)
  {
    var l2, q := Prepended(l, i, base, size, nb), base + nb;
    PrependedOk(l, bins, dv, dvsize, live, i, base, size, nb);
    IntoTop(l2, bins, dv, dvsize, {}, live + {base} + {q}, q, q);
    assert live + {base} + {q} - {q} == live + {base};
    hide StateOk, Midway, Prepends, Prepend, IsFree, Freeable, LayoutOk;
    var l' := FreedToTop(l2, q);
    assert l'.head == l.head[base := Head(nb, true, true)][q := Head(l.topsize + (size - nb), false, true)];
    PrependGranted(l, l2, l', live, base, q, nb);
  }

  lemma PrependGranted(l: Layout, l2: Layout, l': Layout, live: set<int>, base: int, q: int, nb: nat)
    requires KeepsLive(l, l2, live) && KeepsLive(l2, l', live + {base}) && SizeOf(l2, base) == nb && base !in live
    ensures Granted(l, l', live, base, nb)
  {
    assert base in live + {base};
    forall a | a in live ensures IsLive(l', a) && SizeOf(l', a) == SizeOf(l, a) {
      assert a in live + {base};
    }
  }

  /** The remainder and what it absorbs become one free chunk in front of a used one. */
  lemma PrependFreed(l: Layout, l2: Layout, live: set<int>, i: nat, base: nat, size: nat, nb: nat)
    requires PrependFits(l, i, base, size, nb) && l2 == Prepended(l, i, base, size, nb)
    requires Freeable(l2, base + nb) && Next(l2, base + nb) == base + size != l2.top && PrevInUse(l2, base + nb)
    requires base !in l.starts && base + nb !in l.starts
    ensures var q, n := base + nb, FreeTo(l2, base + nb);
      n in l.head && n in l2.head && FreeFrom(l2, q) == q < n &&
        n == (if InUse(l, base + size) then base + size else Next(l, base + size)) &&
      n - q == (size - nb) + (if InUse(l, base + size) then 0 else SizeOf(l, base + size)) &&
      var l' := Freed(l2, q);
      SizeOf(l', q) == n - q &&
      l' == l.(starts := l'.starts, foot := l.foot[n := n - q], segs := l2.segs,
        head := l.head[base := Head(nb, true, true)][n := l.head[n].(pinuse := false)][q := Head(n - q, false, true)])
    ensures InUse(l2, Next(l2, base + nb)) <==> InUse(l, base + size)
  {
    var q := base + nb;
    FreeFacts(l2, q);
    FreeSizes(l2, q);
    FreedShape(l2, q);
    assert ChunkOk(l2, FreeTo(l2, q)) && ChunkOk(l2, base + size);
    hide LayoutOk, Freeable, Prepends;
    var n := FreeTo(l2, q);
    assert n != q && n != base;
    assert Freed(l2, q).head == l.head[base := Head(nb, true, true)][n := l.head[n].(pinuse := false)][q :=
      Head(n - q, false, true)];
  }

  lemma PrependToDv(l: Layout, bins: Bins, dv: int, dvsize: nat, live: set<int>, i: nat, base: nat, size: nat, nb: nat)
    requires StateOk(l, bins, dv, dvsize, {}, live) && PrependFits(l, i, base, size, nb) && base + size == dv &&
      dv != l.top
    ensures var l2, q := Prepended(l, i, base, size, nb), base + nb;
      FreeTo(l2, q) in l2.head && FreeFrom(l2, q) <= FreeTo(l2, q) && FreeTo(l2, q) == dv + dvsize &&
      var l' := Freed(l2, q);
      StateOk(l', bins, q, dvsize + (size - nb), {}, live + {base}) && Granted(l, l', live, base, nb) &&
      l' == l.(starts := l'.starts, foot := l.foot[dv + dvsize := dvsize + (size - nb)], segs := l2.segs,
        head := l.head[base := Head(nb, true, true)][q := Head(dvsize + (size - nb), false, true)])
  {
    var l2, q := Prepended(l, i, base, size, nb), base + nb;
    PrependedOk(l, bins, dv, dvsize, live, i, base, size, nb);
    IntoDv(l2, bins, dv, dvsize, {}, live + {base} + {q}, q, q);
    assert live + {base} + {q} - {q} == live + {base};
    PrependFreed(l, l2, live, i, base, size, nb);
    DvBound(l, bins, dv, dvsize, {}, live);
    assert ChunkOk(l, dv);
    hide StateOk, Midway, Prepends, Prepend, Freeable, LayoutOk;
    var l' := Freed(l2, q);
    var n := dv + dvsize;
    assert l.head[n].(pinuse := false) == l.head[n];
    assert l'.head == l.head[base := Head(nb, true, true)][q := Head(dvsize + (size - nb), false, true)];
    PrependGranted(l, l2, l', live, base, q, nb);
  }

  /** The chunk after the new range was binned and is already out of its bin. */
  lemma PrependOver(l: Layout, bins: Bins, bins': Bins, dv: int, dvsize: nat, live: set<int>, i: nat, base: nat,
      size: nat, nb: nat)
    requires StateOk(l, bins, dv, dvsize, {}, live) && PrependFits(l, i, base, size, nb)
    requires base + size != dv && base + size != l.top
    requires if InUse(l, base + size) then bins' == bins else Removed(bins, bins', SizeOf(l, base + size), base + size)
    ensures var l2, q := Prepended(l, i, base, size, nb), base + nb;
      FreeTo(l2, q) in l2.head && FreeFrom(l2, q) == q < FreeTo(l2, q) &&
      var l' := Freed(l2, q);
      StateOk(l', bins', dv, dvsize, {q}, live + {base}) && Granted(l, l', live, base, nb)
    ensures var l2, q := Prepended(l, i, base, size, nb), base + nb;
      PrevInUse(l2, q) && Freeable(l2, q) && Next(l2, q) == base + size && l2.top == l.top
    ensures base !in l.starts && base + nb !in l.starts
  {
    var l2, q := Prepended(l, i, base, size, nb), base + nb;
    PrependedOk(l, bins, dv, dvsize, live, i, base, size, nb);
    assert live + {base} + {q} - {q} == live + {base};
    MidwayFacts(l2, bins, dv, dvsize, {}, live + {base} + {q}, q, q);
    PrependFreed(l, l2, live, i, base, size, nb);
    if InUse(l, base + size) {
      BeforeUsed(l2, bins, dv, dvsize, {}, live + {base} + {q}, q, q);
    } else {
      PrependNextSame(l, i, base, size, nb);
      BinOut(l2, bins, bins', dv, dvsize, {}, live + {base} + {q}, SizeOf(l, base + size), base + size);
      OverNext(l2, bins', dv, dvsize, {}, live + {base} + {q}, q, q);
    }
    PrependGranted(l, l2, Freed(l2, q), live, base, q, nb);
  }

  /** The remainder q is in limbo, between the new block and chunk n, and all bins are as they were. */
  lemma PrependRemainder(l: Layout, b: Bins, bins: Bins, dv: int, dvsize: nat, live: set<int>, i: nat, base: nat,
      size: nat, nb: nat, n: int, head: map<int, Head>, k: Links, smallmap: set<nat>, treemap: set<nat>,
      treebins: seq<int>, tries: seq<Trie>) returns (l': Layout)
    requires StateOk(l, b, dv, dvsize, {}, live) && PrependFits(l, i, base, size, nb)
    requires base + size != dv && base + size != l.top
    requires if InUse(l, base + size) then bins == b && n == base + size
      else Removed(b, bins, SizeOf(l, base + size), base + size) && n == Next(l, base + size)
    requires BinsOk(head, k, smallmap, treemap, treebins, bins, tries)
    ensures var q := base + nb;
      StateOk(l', bins, dv, dvsize, {q}, live + {base}) && Granted(l, l', live, base, nb) &&
      BinsOk(l'.head, k, smallmap, treemap, treebins, bins, tries) && n in l.head && q < n && SizeOf(l', q) == n - q &&
      l' == l.(starts := l'.starts, foot := l.foot[n := n - q], segs := Prepended(l, i, base, size, nb).segs,
        head := l.head[base := Head(nb, true, true)][n := l.head[n].(pinuse := false)][q := Head(n - q, false, true)])
  {
    PrependOver(l, b, bins, dv, dvsize, live, i, base, size, nb);
    PrependFreed(l, Prepended(l, i, base, size, nb), live, i, base, size, nb);
    l' := Freed(Prepended(l, i, base, size, nb), base + nb);
    hide *;
    BinsKept(head, l', bins, dv, dvsize, {base + nb}, live + {base}, k, smallmap, treemap, treebins, tries);
  }

  lemma PrependNextSame(l: Layout, i: nat, base: nat, size: nat, nb: nat)
    requires PrependFits(l, i, base, size, nb)
    ensures SizeOf(Prepended(l, i, base, size, nb), base + size) == SizeOf(l, base + size)
  {
  }

  /** A header word that belongs to no chunk may change. */
  lemma BinsOutside(l: Layout, bins: Bins, dv: int, dvsize: nat, limbo: set<int>, live: set<int>, x: int, h: Head,
                    k: Links, smallmap: set<nat>, treemap: set<nat>, treebins: seq<int>, tries: seq<Trie>)
    requires BinsOk(l.head, k, smallmap, treemap, treebins, bins, tries) && StateOk(l, bins, dv, dvsize, limbo, live)
    requires x !in l.starts
    ensures BinsOk(l.head[x := h], k, smallmap, treemap, treebins, bins, tries)
  {
    forall s, a | s in bins && a in bins[s] ensures a in l.head && l.head[a].size == s && a != x {
      assert InList(bins, s, a);
      assert ChunkOk(l, a);
    }
    BinsOkFrame(l.head, l.head[x := h], k, smallmap, treemap, treebins, bins, tries);
  }

  /** What prepend_alloc finds at the old base: the top, the designated victim, a used or a binned chunk. */
  lemma OldFirst(l: Layout, bins: Bins, dv: int, dvsize: nat, live: set<int>, i: nat, base: nat, size: nat)
    requires StateOk(l, bins, dv, dvsize, {}, live) && Prepends(l, i, base, size)
    ensures base + size in l.head && base + size in l.starts
    ensures base + size != dv && base + size != l.top && !InUse(l, base + size) ==>
      InList(bins, SizeOf(l, base + size), base + size)
    ensures base !in l.starts && base !in live
  {
    PrependUnused(l, i, base, size);
    assert SegmentsOk(l) && ChunkOk(l, base + size);
    assert base + size != dv && base + size != l.top && !InUse(l, base + size) ==> IsFree(l, base + size);
  }

  // ---- A segment away from all others ----------------------------------------------

  /** The heap after add_segment, with what is left of the old top chunk not yet in a bin. */
  function SegmentAdded(l: Layout, base: nat, size: nat): Layout
    requires size >= TOP_FOOT_SIZE
  {
    var l1, sp := NewSegment(l, base, size), RecordAt(l);
    if sp == l.top || sp !in l1.head then l1
    else l1.(foot := l1.foot[sp := l.topsize],
             head := l1.head[sp := l1.head[sp].(pinuse := false)][l.top := Head(l.topsize, false, true)])
  }

  lemma SegmentAddedOk(l: Layout, bins: Bins, dv: int, dvsize: nat, live: set<int>, base: nat, size: nat)
    requires StateOk(l, bins, dv, dvsize, {}, live) && NewSegmentFits(l, base, size)
    ensures size >= TOP_FOOT_SIZE
    ensures var l' := SegmentAdded(l, base, size);
      StateOk(l', bins, dv, dvsize, if RecordAt(l) == l.top then {} else {l.top}, live) && KeepsLive(l, l', live) &&
      (RecordAt(l) != l.top ==> SizeOf(l', l.top) == l.topsize)
  {
    NewSegmentState(l, bins, dv, dvsize, live, base, size);
    var l1, sp := NewSegment(l, base, size), RecordAt(l);
    if sp != l.top {
      FreeFacts(l1, l.top);
      FreedShape(l1, l.top);
      TopNotLive(l, live);
      assert live - {l.top} == live;
      FreedState(l1, bins, dv, dvsize, live, l.top);
      assert sp in l1.head;
      hide NewSegment, StateOk, LayoutOk, NewSegmentFits, Freeable, FreeNeighbours;
      assert Freed(l1, l.top).starts == l1.starts;
      assert SegmentAdded(l, base, size) == Freed(l1, l.top);
      KeepsLiveTwice(l, l1, Freed(l1, l.top), live, live);
    }
  }

  /** The header writes of add_segment, in its order. */
  ghost function CloseWrites(head: map<int, Head>, oldTop: int, csp: int, ssize: nat, oldEnd: int, base: nat,
      size: nat): map<int, Head>
    requires size >= TOP_FOOT_SIZE
  {
    var h := head[base := Head(size - TOP_FOOT_SIZE, false, true)][base + (size - TOP_FOOT_SIZE) :=
      Head(TOP_FOOT_SIZE, false, false)];
    WithFences(h[csp := Head(ssize, true, true)], csp + ssize, oldEnd - 16)
  }

  lemma SegmentAddedShape(l: Layout, base: nat, size: nat, csp: int, ssize: nat, oldEnd: int, psize: nat)
    requires NewSegmentFits(l, base, size) && csp == RecordAt(l) && ssize == SEGMENT_CHUNK && oldEnd == OldEnd(l) &&
      psize == csp - l.top
    ensures size >= TOP_FOOT_SIZE
    ensures var l', h := SegmentAdded(l, base, size), CloseWrites(l.head, l.top, csp, ssize, oldEnd, base, size);
      csp in h &&
      l' == Layout(l'.starts, if csp == l.top then h
        else h[csp := h[csp].(pinuse := false)][l.top := Head(psize, false, true)],
                   if csp == l.top then l.foot else l.foot[l.top + psize := psize], base, size - TOP_FOOT_SIZE,
                   [Segment(base, size)] + l.segs, l'.ends)
  {
    NewSegmentFacts(l, base, size);
    NewSegmentShape(l, base, size, csp, ssize, oldEnd);
    SegmentAddedIs(l, base, size);
    hide *;
    var h := CloseWrites(l.head, l.top, csp, ssize, oldEnd, base, size);
    assert l.top + psize == csp;
    if csp != l.top {
      UpdateOver(h, csp, h[csp].(pinuse := false), l.top, Head(l.topsize, true, true), Head(psize, false, true));
    }
  }

  lemma UpdateOver(h: map<int, Head>, x: int, hx: Head, y: int, hy: Head, hy': Head)
    requires x != y
    ensures h[y := hy][x := hx][y := hy'] == h[x := hx][y := hy']
    ensures x in h ==> h[y := hy][x] == h[x]
  {
  }

  lemma SegmentAddedIs(l: Layout, base: nat, size: nat)
    requires NewSegmentFits(l, base, size)
    ensures size >= TOP_FOOT_SIZE && RecordAt(l) in NewSegment(l, base, size).head
    ensures var l1, sp := NewSegment(l, base, size), RecordAt(l);
      SegmentAdded(l, base, size) == if sp == l.top then l1
      else l1.(foot := l1.foot[sp := l.topsize],
               head := l1.head[sp := l1.head[sp].(pinuse := false)][l.top := Head(l.topsize, false, true)])
    ensures OldEnd(l) == l.top + l.topsize + TOP_FOOT_SIZE
    ensures RecordAt(l) == if l.topsize < MIN_CHUNK_SIZE then l.top else l.top + l.topsize
  {
    NewSegmentFacts(l, base, size);
    hide LayoutOk, NewSegmentFits, FreshRange, WithFences, Fences;
    assert RecordAt(l) in NewSegment(l, base, size).head;
  }

  lemma NewSegmentShape(l: Layout, base: nat, size: nat, csp: int, ssize: nat, oldEnd: int)
    requires size >= TOP_FOOT_SIZE && csp == RecordAt(l) && ssize == SEGMENT_CHUNK && oldEnd == OldEnd(l)
    ensures var l', h := NewSegment(l, base, size), CloseWrites(l.head, l.top, csp, ssize, oldEnd, base, size);
      csp in h &&
      l' == Layout(l'.starts, if csp == l.top then h
        else h[l.top := Head(l.topsize, true, true)], l.foot, base, size - TOP_FOOT_SIZE,
                   [Segment(base, size)] + l.segs, l'.ends)
  {
    hide WithFences, Fences, RecordAt, OldEnd;
    assert base + (size - TOP_FOOT_SIZE) == base + size - TOP_FOOT_SIZE;
  }

  lemma TopNotLive(l: Layout, live: set<int>)
    requires LiveOk(l, live)
    ensures l.top !in live
  {
  }

  lemma KeepsLiveTwice(l: Layout, l1: Layout, l2: Layout, live: set<int>, more: set<int>)
    requires KeepsLive(l, l1, live) && KeepsLive(l1, l2, more) && live <= more
    ensures KeepsLive(l, l2, live)
  {
  }

  lemma GrantedLater(l: Layout, l1: Layout, l2: Layout, live: set<int>, p: int, nb: nat)
    requires KeepsLive(l, l1, live) && Granted(l1, l2, live, p, nb)
    ensures Granted(l, l2, live, p, nb)
  {
  }

  lemma FenceBounds(l: Layout, base: nat, size: nat)
    requires NewSegmentFits(l, base, size)
    ensures var sp, last := RecordAt(l), OldEnd(l) - 16;
      sp + SEGMENT_CHUNK <= last && (last - sp - SEGMENT_CHUNK) % 8 == 0 && sp in NewSegment(l, base, size).head &&
        OldEnd(l) % 8 == 0
    ensures exists i :: 0 <= i < |l.segs| && Holds(l.segs[i], l.top)
    ensures forall i :: 0 <= i < |l.segs| && Holds(l.segs[i], l.top) ==> EndOf(l.segs[i]) == OldEnd(l)
  {
    hide *;
    NewSegmentFacts(l, base, size);
    FenceSizes(l);
    FenceHead(l, base, size);
    var i :| 0 <= i < |l.segs| && l.segs[i].base <= l.top && OldEnd(l) == EndOf(l.segs[i]);
    TopSegment(l, i);
  }

  lemma FenceSizes(l: Layout)
    requires l.top % 8 == 0 && l.topsize % 8 == 0 && l.topsize >= 0 && (OldEnd(l) - 16 - RecordAt(l)) % 8 == 0
    ensures (OldEnd(l) - 16 - RecordAt(l) - SEGMENT_CHUNK) % 8 == 0 && OldEnd(l) % 8 == 0 && l.top < OldEnd(l)
  {
    hide RecordAt;
  }

  lemma FenceHead(l: Layout, base: nat, size: nat)
    requires NewSegmentFits(l, base, size) && RecordAt(l) + SEGMENT_CHUNK <= OldEnd(l) - 16
    ensures RecordAt(l) in NewSegment(l, base, size).head && SegmentsOk(l)
  {
    hide FreshRange, SegmentsOk, ChunksOk, NoOverlap;
  }

  lemma TopSegment(l: Layout, i: int)
    requires SegmentsOk(l) && 0 <= i < |l.segs| && l.segs[i].base <= l.top < OldEnd(l) == EndOf(l.segs[i])
    ensures exists j :: 0 <= j < |l.segs| && Holds(l.segs[j], l.top)
    ensures forall j :: 0 <= j < |l.segs| && Holds(l.segs[j], l.top) ==> EndOf(l.segs[j]) == OldEnd(l)
  {
    assert Holds(l.segs[i], l.top);
    hide OldEnd;
    forall j | 0 <= j < |l.segs| && Holds(l.segs[j], l.top) ensures j == i {
    }
  }

  predicate Holds(g: Segment, a: int)
  {
    g.base <= a < EndOf(g)
  }

  /** WithFences by another name, for proofs that need only its steps. */
  function Fenced(head: map<int, Head>, p: int, last: int): map<int, Head>
  {
    WithFences(head, p, last)
  }

  /** One fencepost more. */
  lemma FenceStep(head: map<int, Head>, p: int, last: int)
    requires p <= last && (last - p) % 8 == 0
    ensures Fenced(head, p, last) == if p == last then head[p := Head(FENCEPOST_SIZE, true, true)]
      else Fenced(head[p := Head(FENCEPOST_SIZE, true, true)], p + 8, last)
    ensures p != last ==> p + 8 <= last && (last - (p + 8)) % 8 == 0
  {
  }
}
