/** The invariant of the whole heap, and what each elementary step of malloc and free does to it. */
module AllocState {
  import opened AllocLinks
  import opened AllocTrie
  import opened AllocBins
  import opened AllocBinOps
  import opened AllocHeap

  /**
   Every free chunk is the top chunk, the designated victim, in the list for its size, or in
   limbo: chunks that have just been unlinked and not yet been placed again.
   */
  ghost predicate Classified(l: Layout, bins: Bins, dv: int, dvsize: nat, limbo: set<int>)
  {
    (forall a {:trigger IsFree(l, a)} :: IsFree(l, a) ==>
      a in limbo || IsDv(dv, dvsize, a) || InList(bins, SizeOf(l, a), a)) &&
    (forall s, a {:trigger InList(bins, s, a)} :: InList(bins, s, a) ==>
      IsFree(l, a) && SizeOf(l, a) == s && !IsDv(dv, dvsize, a) && a !in limbo) &&
    (forall a {:trigger a in limbo} :: a in limbo ==> IsFree(l, a) && !IsDv(dv, dvsize, a)) &&
    (if dvsize == 0 then dv == 0 else IsFree(l, dv) && SizeOf(l, dv) == dvsize)
  }

  /** A free chunk other than the top chunk. */
  predicate IsFree(l: Layout, a: int)
  {
    a in l.starts && !InUse(l, a) && a != l.top
  }

  predicate IsDv(dv: int, dvsize: nat, a: int)
  {
    dvsize != 0 && a == dv
  }

  /** Blocks handed out are used chunks, never fenceposts or segment records. */
  ghost predicate LiveOk(l: Layout, live: set<int>)
  {
    forall a {:trigger a in live} :: a in live ==> IsLive(l, a)
  }

  predicate IsLive(l: Layout, a: int)
  {
    a in l.starts && InUse(l, a) && a !in l.ends && a != l.top && SizeOf(l, a) >= MIN_CHUNK_SIZE
  }

  ghost predicate StateOk(l: Layout, bins: Bins, dv: int, dvsize: nat, limbo: set<int>, live: set<int>)
  {
    LayoutOk(l) && Classified(l, bins, dv, dvsize, limbo) && LiveOk(l, live)
  }

  /** Chunk p is newly handed out, has nb bytes and less than a chunk too many, and no other block changed. */
  ghost predicate Granted(l: Layout, l': Layout, live: set<int>, p: int, nb: nat)
  {
    p !in live && IsLive(l', p) && nb <= SizeOf(l', p) < nb + MIN_CHUNK_SIZE && KeepsLive(l, l', live)
  }

  ghost predicate KeepsLive(l: Layout, l': Layout, live: set<int>)
  {
    forall a {:trigger a in live} :: a in live ==> IsLive(l', a) && SizeOf(l', a) == SizeOf(l, a)
  }

  // ---- Moving chunks between the places a free chunk can be ----------------

  lemma BinOut(l: Layout, bins: Bins, bins': Bins, dv: int, dvsize: nat, limbo: set<int>, live: set<int>, s: nat,
      p: int)
    requires StateOk(l, bins, dv, dvsize, limbo, live) && Removed(bins, bins', s, p)
    ensures StateOk(l, bins', dv, dvsize, limbo + {p}, live) && IsFree(l, p) && SizeOf(l, p) == s
  {
    forall q, a | InList(bins', q, a) ensures InList(bins, q, a) && a != p {
      if q != s { assert InList(bins, q, a); assert InList(bins, s, p); }
    }
    forall a | IsFree(l, a) ensures a in limbo + {p} || IsDv(dv, dvsize, a) || InList(bins', SizeOf(l, a), a) {
    }
  }

  lemma BinIn(l: Layout, bins: Bins, bins': Bins, dv: int, dvsize: nat, limbo: set<int>, live: set<int>, s: nat, p: int)
    requires StateOk(l, bins, dv, dvsize, limbo, live) && Added(bins, bins', s, p)
    requires p in limbo && SizeOf(l, p) == s
    ensures StateOk(l, bins', dv, dvsize, limbo - {p}, live)
  {
    forall q, a | InList(bins', q, a) ensures InList(bins, q, a) || (a == p && q == s) {
      if q != s { assert InList(bins, q, a); }
    }
    forall a | IsFree(l, a) ensures a in limbo - {p} || IsDv(dv, dvsize, a) || InList(bins', SizeOf(l, a), a) {
      if InList(bins, SizeOf(l, a), a) && SizeOf(l, a) != s { assert bins'[SizeOf(l, a)] == bins[SizeOf(l, a)]; }
    }
  }

  /** Chunks in limbo are in no list. */
  lemma LimboUnbinned(l: Layout, bins: Bins, dv: int, dvsize: nat, limbo: set<int>, live: set<int>, p: int)
    requires StateOk(l, bins, dv, dvsize, limbo, live) && p in limbo
    ensures NotBinned(bins, p) && IsFree(l, p) && p in l.head && p > 0
    ensures SizeOf(l, p) % 8 == 0 && MIN_CHUNK_SIZE <= SizeOf(l, p) < ADDRESS_LIMIT
  {
    forall s | s in bins ensures p !in bins[s] {
      if p in bins[s] { assert InList(bins, s, p); }
    }
    assert ChunkOk(l, p);
    SizeBound(l, p);
  }

  lemma DvOut(l: Layout, bins: Bins, dv: int, dvsize: nat, limbo: set<int>, live: set<int>)
    requires StateOk(l, bins, dv, dvsize, limbo, live) && dvsize != 0
    ensures StateOk(l, bins, 0, 0, limbo + {dv}, live) && IsFree(l, dv) && SizeOf(l, dv) == dvsize && dv !in limbo
  {
    forall a | IsFree(l, a) ensures a in limbo + {dv} || InList(bins, SizeOf(l, a), a) {
    }
  }

  lemma NoDv(l: Layout, bins: Bins, dv: int, dvsize: nat, limbo: set<int>, live: set<int>)
    requires StateOk(l, bins, dv, dvsize, limbo, live) && dvsize == 0
    ensures dv == 0
  {
  }

  lemma DvIn(l: Layout, bins: Bins, limbo: set<int>, live: set<int>, p: int)
    requires StateOk(l, bins, 0, 0, limbo, live) && p in limbo
    ensures StateOk(l, bins, p, SizeOf(l, p), limbo - {p}, live) && SizeOf(l, p) > 0
  {
    LimboUnbinned(l, bins, 0, 0, limbo, live, p);
    forall s, a | InList(bins, s, a) ensures a != p {
    }
    forall a | IsFree(l, a) ensures a in limbo - {p} || IsDv(p, SizeOf(l, p), a) || InList(bins, SizeOf(l, a), a) {
    }
  }

  /** Bins know chunks only by size, and classified chunks have the sizes their lists say. */
  lemma BinsKept(head: map<int, Head>, l: Layout, bins: Bins, dv: int, dvsize: nat, limbo: set<int>, live: set<int>,
                 k: Links, smallmap: set<nat>, treemap: set<nat>, treebins: seq<int>, tries: seq<Trie>)
    requires BinsOk(head, k, smallmap, treemap, treebins, bins, tries) && StateOk(l, bins, dv, dvsize, limbo, live)
    ensures BinsOk(l.head, k, smallmap, treemap, treebins, bins, tries)
  {
    forall s, a | s in bins && a in bins[s] ensures a in l.head && l.head[a].size == s {
      assert InList(bins, s, a);
      assert ChunkOk(l, a);
    }
    BinsOkFrame(head, l.head, k, smallmap, treemap, treebins, bins, tries);
  }

  // ---- Steps that change chunks ---------------------------------------------

  /** Everything about the free chunks outside a set stays: what the classification needs of a layout change. */
  ghost predicate SameFree(l: Layout, l': Layout, gone: set<int>, come: set<int>)
  {
    (forall a {:trigger IsFree(l, a)} {:trigger IsFree(l', a)} ::
      IsFree(l', a) <==> (IsFree(l, a) && a !in gone) || a in come) &&
    (forall a {:trigger IsFree(l, a)} :: IsFree(l, a) && a !in gone && a !in come ==> SizeOf(l', a) == SizeOf(l, a))
  }

  lemma Reclassify(l: Layout, l': Layout, bins: Bins, dv: int, dvsize: nat, limbo: set<int>, come: set<int>)
    requires Classified(l, bins, dv, dvsize, limbo) && SameFree(l, l', limbo, come)
    requires forall a :: a in come ==> !IsFree(l, a) || a in limbo
    ensures Classified(l', bins, dv, dvsize, come)
  {
    forall s, a | InList(bins, s, a) ensures IsFree(l', a) && SizeOf(l', a) == s && !IsDv(dv, dvsize, a) && a !in come {
      assert IsFree(l, a);
    }
    if dvsize != 0 { assert IsFree(l, dv); }
  }

  lemma TakeState(l: Layout, bins: Bins, dv: int, dvsize: nat, live: set<int>, a: int, nb: nat)
    requires StateOk(l, bins, dv, dvsize, {a}, live) && nb <= SizeOf(l, a) < nb + MIN_CHUNK_SIZE
    ensures a in l.head && Next(l, a) in l.head
    ensures StateOk(TakeWhole(l, a), bins, dv, dvsize, {}, live + {a}) && Granted(l, TakeWhole(l, a), live, a, nb)
  {
    assert a in {a};
    assert IsFree(l, a);
    TakeWholeOk(l, a);
    assert ChunkOk(l, a);
    var l' := TakeWhole(l, a);
    Reclassify(l, l', bins, dv, dvsize, {a}, {});
  }

  lemma CarveState(l: Layout, bins: Bins, dv: int, dvsize: nat, live: set<int>, a: int, nb: nat)
    requires StateOk(l, bins, dv, dvsize, {a}, live)
    requires nb % 8 == 0 && nb >= MIN_CHUNK_SIZE && SizeOf(l, a) >= nb + MIN_CHUNK_SIZE
    ensures a in l.head
    ensures StateOk(Carve(l, a, nb), bins, dv, dvsize, {a + nb}, live + {a}) && Granted(l, Carve(l, a, nb), live, a, nb)
    ensures SizeOf(Carve(l, a, nb), a + nb) == SizeOf(l, a) - nb
  {
    assert a in {a};
    assert IsFree(l, a);
    CarveOk(l, a, nb);
    assert ChunkOk(l, a);
    var l' := Carve(l, a, nb);
    Reclassify(l, l', bins, dv, dvsize, {a}, {a + nb});
  }

  lemma CarveTopState(l: Layout, bins: Bins, dv: int, dvsize: nat, live: set<int>, nb: nat)
    requires StateOk(l, bins, dv, dvsize, {}, live) && nb % 8 == 0 && MIN_CHUNK_SIZE <= nb < l.topsize
    ensures StateOk(CarveTop(l, nb), bins, dv, dvsize, {}, live + {l.top}) &&
      Granted(l, CarveTop(l, nb), live, l.top, nb)
  {
    TopFacts(l);
    CarveTopOk(l, nb);
    var l' := CarveTop(l, nb);
    assert SegmentsOk(l);
    Reclassify(l, l', bins, dv, dvsize, {}, {});
  }

  // ---- Freeing ----------------------------------------------------------------

  /** The free chunks a freed chunk absorbs. */
  function FreeNeighbours(l: Layout, p: int): set<int>
  {
    (if FreeFrom(l, p) == p then {} else {FreeFrom(l, p)}) +
    (if Next(l, p) == l.top || FreeTo(l, p) == Next(l, p) then {} else {Next(l, p)})
  }

  lemma LiveFreeable(l: Layout, bins: Bins, dv: int, dvsize: nat, limbo: set<int>, live: set<int>, p: int)
    requires StateOk(l, bins, dv, dvsize, limbo, live) && p in live
    ensures Freeable(l, p) && p in l.head && Next(l, p) in l.head && Next(l, p) in l.starts
  {
    assert IsLive(l, p);
    assert ChunkOk(l, p) && ChunkOk(l, Next(l, p));
  }

  lemma FreedState(l: Layout, bins: Bins, dv: int, dvsize: nat, live: set<int>, p: int)
    requires StateOk(l, bins, dv, dvsize, FreeNeighbours(l, p), live) && Freeable(l, p) && Next(l, p) != l.top
    ensures FreeTo(l, p) in l.head && FreeFrom(l, p) <= FreeTo(l, p)
    ensures StateOk(Freed(l, p), bins, dv, dvsize, {FreeFrom(l, p)}, live - {p}) &&
      KeepsLive(l, Freed(l, p), live - {p})
  {
    FreeFacts(l, p);
    FreedOk(l, p);
    var l' := Freed(l, p);
    FreedClasses(l, p);
    Reclassify(l, l', bins, dv, dvsize, FreeNeighbours(l, p), {FreeFrom(l, p)});
    forall a | a in live - {p} ensures IsLive(l', a) && SizeOf(l', a) == SizeOf(l, a) {
      assert IsLive(l, a);
    }
  }

  lemma FreedClasses(l: Layout, p: int)
    requires Freeable(l, p) && Next(l, p) != l.top
    ensures FreeTo(l, p) in l.head && FreeFrom(l, p) <= FreeTo(l, p)
    ensures SameFree(l, Freed(l, p), FreeNeighbours(l, p), {FreeFrom(l, p)})
  {
    FreeFacts(l, p);
    assert ChunkOk(l, FreeTo(l, p)) && ChunkOk(l, FreeFrom(l, p));
    hide LayoutOk, Freeable;
  }

  lemma FreedToTopState(l: Layout, bins: Bins, dv: int, dvsize: nat, live: set<int>, p: int)
    requires StateOk(l, bins, dv, dvsize, FreeNeighbours(l, p), live) && Freeable(l, p) && Next(l, p) == l.top
    ensures FreeFrom(l, p) <= l.top
    ensures StateOk(FreedToTop(l, p), bins, dv, dvsize, {}, live - {p}) && KeepsLive(l, FreedToTop(l, p), live - {p})
  {
    FreeTopFacts(l, p);
    FreedToTopOk(l, p);
    var l' := FreedToTop(l, p);
    assert ChunkOk(l, l.top);
    Reclassify(l, l', bins, dv, dvsize, FreeNeighbours(l, p), {});
    forall a | a in live - {p} ensures IsLive(l', a) && SizeOf(l', a) == SizeOf(l, a) {
      assert IsLive(l, a);
    }
  }

  // ---- Resizing in place ---------------------------------------------------------

  lemma SplitState(l: Layout, bins: Bins, dv: int, dvsize: nat, live: set<int>, p: int, nb: nat)
    requires StateOk(l, bins, dv, dvsize, {}, live) && p in live && Splittable(l, p, nb)
    ensures var l' := SplitUsed(l, p, nb);
      StateOk(l', bins, dv, dvsize, {}, live + {p + nb}) && p + nb !in live && SizeOf(l', p) == nb &&
        KeepsLive(l, l', live - {p})
  {
    SplitUsedOk(l, p, nb);
    var l' := SplitUsed(l, p, nb);
    assert IsLive(l, p);
    assert SegmentsOk(l);
    Reclassify(l, l', bins, dv, dvsize, {}, {});
    forall a | a in live + {p + nb} ensures IsLive(l', a) && (a != p && a != p + nb ==> SizeOf(l', a) == SizeOf(l, a)) {
      if a in live { assert IsLive(l, a); }
    }
  }

  lemma GrowState(l: Layout, bins: Bins, dv: int, dvsize: nat, live: set<int>, p: int, nb: nat)
    requires StateOk(l, bins, dv, dvsize, {}, live) && p in live && Growable(l, p, nb)
    ensures var l' := GrowIntoTop(l, p, nb);
      StateOk(l', bins, dv, dvsize, {}, live) && SizeOf(l', p) == nb && KeepsLive(l, l', live - {p})
  {
    GrowFacts(l, p, nb);
    GrowIntoTopOk(l, p, nb);
    var l' := GrowIntoTop(l, p, nb);
    assert IsLive(l, p);
    Reclassify(l, l', bins, dv, dvsize, {}, {});
    forall a | a in live ensures IsLive(l', a) && (a != p ==> SizeOf(l', a) == SizeOf(l, a)) {
      assert IsLive(l, a);
    }
  }

  // ---- More memory -----------------------------------------------------------------

  lemma ExtendState(l: Layout, bins: Bins, dv: int, dvsize: nat, live: set<int>, i: nat, base: nat, size: nat)
    requires StateOk(l, bins, dv, dvsize, {}, live) && Extends(l, i, base, size)
    ensures StateOk(ExtendTop(l, i, size), bins, dv, dvsize, {}, live) && KeepsLive(l, ExtendTop(l, i, size), live)
  {
    ExtendFacts(l, i, base, size);
    ExtendTopOk(l, i, base, size);
    var l' := ExtendTop(l, i, size);
    Reclassify(l, l', bins, dv, dvsize, {}, {});
    forall a | a in live ensures IsLive(l', a) && SizeOf(l', a) == SizeOf(l, a) {
      assert IsLive(l, a);
    }
  }

  lemma PrependState(l: Layout, bins: Bins, dv: int, dvsize: nat, live: set<int>, i: nat, base: nat, size: nat)
    requires StateOk(l, bins, dv, dvsize, {}, live) && Prepends(l, i, base, size)
    ensures StateOk(Prepend(l, i, base, size), bins, dv, dvsize, {}, live + {base})
    ensures base !in live && KeepsLive(l, Prepend(l, i, base, size), live) && Freeable(Prepend(l, i, base, size), base)
    ensures Next(Prepend(l, i, base, size), base) == base + size
  {
    PrependUnused(l, i, base, size);
    PrependOk(l, i, base, size);
    var l' := Prepend(l, i, base, size);
    Reclassify(l, l', bins, dv, dvsize, {}, {});
    forall a | a in live ensures IsLive(l', a) && SizeOf(l', a) == SizeOf(l, a) {
      assert IsLive(l, a);
    }
  }

  lemma NewSegmentState(l: Layout, bins: Bins, dv: int, dvsize: nat, live: set<int>, base: nat, size: nat)
    requires StateOk(l, bins, dv, dvsize, {}, live) && NewSegmentFits(l, base, size)
    ensures size >= TOP_FOOT_SIZE
    ensures StateOk(NewSegment(l, base, size), bins, dv, dvsize, {}, live) &&
      KeepsLive(l, NewSegment(l, base, size), live)
    ensures l.topsize >= MIN_CHUNK_SIZE ==> Freeable(NewSegment(l, base, size), l.top)
    ensures l.topsize >= MIN_CHUNK_SIZE ==> FreeNeighbours(NewSegment(l, base, size), l.top) == {}
    ensures l.topsize >= MIN_CHUNK_SIZE ==> FreeFrom(NewSegment(l, base, size), l.top) == l.top
    ensures l.topsize >= MIN_CHUNK_SIZE ==> FreeTo(NewSegment(l, base, size), l.top) == RecordAt(l)
    ensures l.topsize >= MIN_CHUNK_SIZE ==> Next(NewSegment(l, base, size), l.top) == RecordAt(l) != base
  {
    NewSegmentFacts(l, base, size);
    NewSegmentOk(l, base, size);
    var l' := NewSegment(l, base, size);
    NewSegmentClasses(l, base, size);
    Reclassify(l, l', bins, dv, dvsize, {}, {});
    forall a | a in live ensures IsLive(l', a) && SizeOf(l', a) == SizeOf(l, a) {
      assert IsLive(l, a);
      NewSegmentLive(l, base, size, a);
    }
  }

  lemma NewSegmentLive(l: Layout, base: nat, size: nat, a: int)
    requires NewSegmentFits(l, base, size) && IsLive(l, a)
    ensures IsLive(NewSegment(l, base, size), a) && SizeOf(NewSegment(l, base, size), a) == SizeOf(l, a)
  {
    NewSegmentFacts(l, base, size);
    NewSegmentKeeps(l, base, size, a);
    NewSegmentHead(l, base, size, a);
  }

  lemma NewSegmentClasses(l: Layout, base: nat, size: nat)
    requires NewSegmentFits(l, base, size)
    ensures SameFree(l, NewSegment(l, base, size), {}, {})
  {
    NewSegmentFacts(l, base, size);
    var l' := NewSegment(l, base, size);
    forall a
      ensures IsFree(l', a) <==> IsFree(l, a)
      ensures IsFree(l, a) ==> SizeOf(l', a) == SizeOf(l, a)
    {
      if a in l'.starts { NewSegmentHead(l, base, size, a); }
    }
  }

  lemma TakeSpan(l: Layout, p: int)
    requires p in l.head && Next(l, p) in l.head && LayoutOk(l) && p in l.starts
    ensures p != p + SizeOf(l, p)
  {
    assert ChunkOk(l, p);
  }

  lemma DvBound(l: Layout, bins: Bins, dv: int, dvsize: nat, limbo: set<int>, live: set<int>)
    requires StateOk(l, bins, dv, dvsize, limbo, live)
    ensures dvsize < ADDRESS_LIMIT && dvsize % 8 == 0
    ensures dvsize != 0 ==> IsFree(l, dv) && SizeOf(l, dv) == dvsize && dv > 0
  {
    if dvsize != 0 { SizeBound(l, dv); assert ChunkOk(l, dv); }
  }

  lemma BinnedSize(l: Layout, bins: Bins, dv: int, dvsize: nat, limbo: set<int>, live: set<int>, s: nat, a: int)
    requires StateOk(l, bins, dv, dvsize, limbo, live) && InList(bins, s, a)
    ensures SizeOf(l, a) == s && IsFree(l, a) && a > 0
  {
    assert IsFree(l, a);
    SizeBound(l, a);
  }

  /** What free finds when it looks around a live chunk. */
  lemma FreeView(l: Layout, bins: Bins, dv: int, dvsize: nat, live: set<int>, p: int)
    requires StateOk(l, bins, dv, dvsize, {}, live) && p in live
    ensures Freeable(l, p) && p in l.head && p > 0 && Next(l, p) in l.head && p != Next(l, p)
    ensures !PrevInUse(l, p) ==>
      IsFree(l, FreeFrom(l, p)) && SizeOf(l, FreeFrom(l, p)) == FootAt(l, p) && FreeFrom(l, p) != p
    ensures !PrevInUse(l, p) ==>
      IsDv(dv, dvsize, FreeFrom(l, p)) || InList(bins, SizeOf(l, FreeFrom(l, p)), FreeFrom(l, p))
    ensures !PrevInUse(l, p) ==> (FreeFrom(l, p) == dv <==> IsDv(dv, dvsize, FreeFrom(l, p)))
    ensures PrevInUse(l, p) ==> FreeFrom(l, p) != dv
    ensures FreeFrom(l, p) > 0
    ensures PrevInUse(l, Next(l, p))
    ensures Next(l, p) != l.top && !InUse(l, Next(l, p)) ==>
      IsFree(l, Next(l, p)) && (IsDv(dv, dvsize, Next(l, p)) || InList(bins, SizeOf(l, Next(l, p)), Next(l, p)))
    ensures Next(l, p) == dv <==> IsDv(dv, dvsize, Next(l, p))
    ensures InUse(l, Next(l, p)) ==> Next(l, p) != l.top
    ensures Next(l, p) == l.top ==> !InUse(l, Next(l, p)) && SizeOf(l, Next(l, p)) == l.topsize
    ensures !PrevInUse(l, p) && !InUse(l, Next(l, p)) ==> FreeFrom(l, p) != Next(l, p)
  {
    LiveFreeable(l, bins, dv, dvsize, {}, live, p);
    assert ChunkOk(l, p) && ChunkOk(l, Next(l, p));
    if !PrevInUse(l, p) {
      assert PrevOk(l, p, FreeFrom(l, p));
      assert ChunkOk(l, FreeFrom(l, p));
      assert IsFree(l, FreeFrom(l, p));
    }
    assert IsFree(l, Next(l, p)) || InUse(l, Next(l, p)) || Next(l, p) == l.top;
    if dvsize != 0 { assert IsFree(l, dv); assert ChunkOk(l, dv); }
  }

  /** The numbers free computes are those of the merged chunk. */
  lemma FreeSizes(l: Layout, p: int)
    requires Freeable(l, p)
    ensures FreeTo(l, p) - FreeFrom(l, p) ==
      SizeOf(l, p) + (if PrevInUse(l, p) then 0 else FootAt(l, p)) + (if InUse(l, Next(l, p)) then 0
        else SizeOf(l, Next(l, p)))
    ensures Next(l, p) != l.top ==> FreeTo(l, p) in l.head && FreeFrom(l, p) <= FreeTo(l, p)
    ensures Next(l, p) != l.top && !InUse(l, Next(l, p)) ==>
      l.head[FreeTo(l, p) := l.head[FreeTo(l, p)].(pinuse := false)] == l.head
    ensures Next(l, p) == l.top ==> FreeFrom(l, p) <= l.top && l.top + l.topsize == FreeTo(l, p)
    ensures Next(l, p) != l.top ==> SizeOf(Freed(l, p), FreeFrom(l, p)) == FreeTo(l, p) - FreeFrom(l, p)
  {
    if Next(l, p) != l.top {
      FreeFacts(l, p);
      assert ChunkOk(l, Next(l, p));
    } else {
      FreeTopFacts(l, p);
      assert ChunkOk(l, l.top);
    }
  }

  /** Freed chunks are nowhere else, so limbo is exactly what was unlinked. */
  lemma NeighbourSet(l: Layout, p: int)
    requires Freeable(l, p)
    ensures FreeNeighbours(l, p) ==
      (if PrevInUse(l, p) then {} else {FreeFrom(l, p)}) +
      (if Next(l, p) == l.top || InUse(l, Next(l, p)) then {} else {Next(l, p)})
  {
    if Next(l, p) != l.top { FreeFacts(l, p); assert ChunkOk(l, Next(l, p)); } else { FreeTopFacts(l, p); }
    assert ChunkOk(l, p);
  }

  /** The state in the middle of free: the chunk in front, if free, is unlinked or the designated victim. */
  ghost predicate Midway(l: Layout, bins: Bins, dv: int, dvsize: nat, limbo: set<int>, live: set<int>, q: int, p: int)
  {
    StateOk(l, bins, dv, dvsize, limbo, live) && q in live && Freeable(l, q) && p == FreeFrom(l, q) &&
    limbo == (if PrevInUse(l, q) || p == dv then {} else {p})
  }

  /** With a designated victim in front, taking it over leaves it as the only chunk in limbo. */
  lemma MidwayLimbo(l: Layout, bins: Bins, dv: int, dvsize: nat, limbo: set<int>, live: set<int>, q: int, p: int)
    requires Midway(l, bins, dv, dvsize, limbo, live, q, p)
    ensures p == dv ==> !PrevInUse(l, q) && dvsize != 0
    ensures p == dv ==> StateOk(l, bins, 0, 0, if PrevInUse(l, q) then {} else {p}, live)
    ensures p != dv ==> StateOk(l, bins, dv, dvsize, if PrevInUse(l, q) then {} else {p}, live)
    ensures Next(l, q) == dv ==> dvsize != 0 && Next(l, q) != l.top && p != dv && !InUse(l, dv)
    ensures Next(l, q) == dv ==> StateOk(l, bins, 0, 0, (if PrevInUse(l, q) then {} else {p}) + {dv}, live)
    ensures Next(l, q) == dv ==> SizeOf(l, dv) == dvsize
    ensures p > 0 && Next(l, q) in l.head && q in l.head
    ensures Next(l, q) == l.top ==> !InUse(l, Next(l, q))
    ensures Next(l, q) != l.top && Next(l, q) != dv && !InUse(l, Next(l, q)) ==>
      InList(bins, SizeOf(l, Next(l, q)), Next(l, q))
  {
    LiveFreeable(l, bins, dv, dvsize, limbo, live, q);
    assert ChunkOk(l, q) && ChunkOk(l, Next(l, q));
    if !PrevInUse(l, q) {
      assert PrevOk(l, q, p);
      assert ChunkOk(l, p);
    }
    if dvsize != 0 {
      assert IsFree(l, dv);
      assert ChunkOk(l, dv);
      DvOut(l, bins, dv, dvsize, limbo, live);
    } else {
      NoDv(l, bins, dv, dvsize, limbo, live);
    }
    assert IsFree(l, Next(l, q)) || InUse(l, Next(l, q)) || Next(l, q) == l.top;
    assert {} + {p} == {p};
  }

  // ---- The whole of each way free can end ------------------------------------------

  lemma IntoTop(l: Layout, bins: Bins, dv: int, dvsize: nat, limbo: set<int>, live: set<int>, q: int, p: int)
    requires Midway(l, bins, dv, dvsize, limbo, live, q, p) && Next(l, q) == l.top
    ensures p <= l.top && FreeFrom(l, q) <= l.top
    ensures var l', size := FreedToTop(l, q), l.topsize + (l.top - p);
      l' == l.(starts := l'.starts, head := l.head[p := Head(size, false, true)], top := p, topsize := size)
    ensures StateOk(FreedToTop(l, q), bins, if p == dv then 0 else dv, if p == dv then 0 else dvsize, {}, live - {q})
    ensures KeepsLive(l, FreedToTop(l, q), live - {q})
  {
    MidwayLimbo(l, bins, dv, dvsize, limbo, live, q, p);
    NeighbourSet(l, q);
    FreeSizes(l, q);
    FreedToTopState(l, bins, if p == dv then 0 else dv, if p == dv then 0 else dvsize, live, q);
    hide StateOk, LayoutOk, KeepsLive, Freeable, FreeNeighbours;
  }

  /** The header and foot writes that turn l into Freed(l, q). */
  lemma FreedShape(l: Layout, q: int)
    requires Freeable(l, q) && Next(l, q) != l.top
    ensures var p, n, n' := FreeFrom(l, q), Next(l, q), FreeTo(l, q);
      n' in l.head && p <= n' && n in l.head && SizeOf(Freed(l, q), p) == n' - p &&
      Freed(l, q) == l.(starts := Freed(l, q).starts, foot := l.foot[n' := n' - p],
        head := (if n == n' then l.head[n := l.head[n].(pinuse := false)] else l.head)[p := Head(n' - p, false, true)])
  {
    FreeFacts(l, q);
    FreeSizes(l, q);
    hide LayoutOk, Freeable;
  }

  lemma IntoDv(l: Layout, bins: Bins, dv: int, dvsize: nat, limbo: set<int>, live: set<int>, q: int, p: int)
    requires Midway(l, bins, dv, dvsize, limbo, live, q, p) && Next(l, q) == dv
    ensures p <= dv && Freeable(l, q) && Next(l, q) != l.top && FreeTo(l, q) == dv + dvsize && FreeTo(l, q) in l.head
    ensures FreeFrom(l, q) == p <= FreeTo(l, q)
    ensures StateOk(Freed(l, q), bins, p, dvsize + (dv - p), {}, live - {q}) && KeepsLive(l, Freed(l, q), live - {q})
    ensures dvsize > 0
  {
    MidwayLimbo(l, bins, dv, dvsize, limbo, live, q, p);
    NeighbourSet(l, q);
    FreeFacts(l, q);
    FreedShape(l, q);
    hide StateOk, LayoutOk, KeepsLive, Freeable, FreeNeighbours;
    assert dv + dvsize == FreeTo(l, q);
    FreedState(l, bins, 0, 0, live, q);
    DvIn(Freed(l, q), bins, {p}, live - {q}, p);
    assert {p} - {p} == {};
  }

  lemma MidwayFacts(l: Layout, bins: Bins, dv: int, dvsize: nat, limbo: set<int>, live: set<int>, q: int, p: int)
    requires Midway(l, bins, dv, dvsize, limbo, live, q, p)
    ensures StateOk(l, bins, dv, dvsize, limbo, live) && Freeable(l, q) && q in live && p == FreeFrom(l, q)
    ensures Next(l, q) in l.head && Next(l, q) != p
    ensures p == dv ==> dvsize != 0
    ensures InUse(l, Next(l, q)) ==> Next(l, q) != l.top
    ensures Next(l, q) != l.top && Next(l, q) != dv && !InUse(l, Next(l, q)) ==>
      InList(bins, SizeOf(l, Next(l, q)), Next(l, q))
    ensures Next(l, q) - p == SizeOf(l, q) + (if PrevInUse(l, q) then 0 else FootAt(l, q))
  {
    MidwayLimbo(l, bins, dv, dvsize, limbo, live, q, p);
    if Next(l, q) != l.top { FreeFacts(l, q); } else { FreeTopFacts(l, q); }
  }

  lemma FreeOverSize(l: Layout, q: int)
    requires Freeable(l, q) && Next(l, q) != l.top && !InUse(l, Next(l, q))
    ensures FreeTo(l, q) == Next(l, q) + SizeOf(l, Next(l, q))
  {
  }

  /** Free begins. */
  lemma FreeStart(l: Layout, bins: Bins, dv: int, dvsize: nat, live: set<int>, q: int)
    requires StateOk(l, bins, dv, dvsize, {}, live) && q in live
    ensures Freeable(l, q) && q in l.head && Next(l, q) in l.head && PrevInUse(l, Next(l, q))
    ensures PrevInUse(l, q) ==> FreeFrom(l, q) == q != dv && Midway(l, bins, dv, dvsize, {}, live, q, q)
    ensures !PrevInUse(l, q) ==> FreeFrom(l, q) == q - FootAt(l, q)
    ensures !PrevInUse(l, q) && FreeFrom(l, q) == dv ==> Midway(l, bins, dv, dvsize, {}, live, q, dv)
    ensures !PrevInUse(l, q) && FreeFrom(l, q) != dv ==> InList(bins, FootAt(l, q), FreeFrom(l, q))
    ensures InUse(l, Next(l, q)) ==> Next(l, q) != l.top
  {
    FreeView(l, bins, dv, dvsize, live, q);
  }

  /** The chunk after q is out of its bin, too: what merging all three leaves. */
  lemma OverNext(l: Layout, bins: Bins, dv: int, dvsize: nat, limbo: set<int>, live: set<int>, q: int, p: int)
    requires Freeable(l, q) && q in live && p == FreeFrom(l, q) && Next(l, q) != l.top && !InUse(l, Next(l, q))
    requires limbo == (if PrevInUse(l, q) || p == dv then {} else {p}) && (p == dv ==> dvsize != 0)
    requires Next(l, q) != p && Next(l, q) != dv && StateOk(l, bins, dv, dvsize, limbo + {Next(l, q)}, live)
    ensures FreeTo(l, q) in l.head && p <= FreeTo(l, q)
    ensures p != dv ==> StateOk(Freed(l, q), bins, dv, dvsize, {p}, live - {q})
    ensures p == dv ==> StateOk(Freed(l, q), bins, p, FreeTo(l, q) - p, {}, live - {q})
    ensures KeepsLive(l, Freed(l, q), live - {q})
  {
    NeighbourSet(l, q);
    FreeFacts(l, q);
    FreedShape(l, q);
    if p == dv {
      DvOut(l, bins, dv, dvsize, limbo + {Next(l, q)}, live);
      DvPrev(l, q);
      hide StateOk, LayoutOk, KeepsLive, Freeable, FreeNeighbours;
      assert limbo + {Next(l, q)} + {p} == FreeNeighbours(l, q);
      FreedState(l, bins, 0, 0, live, q);
      DvIn(Freed(l, q), bins, {p}, live - {q}, p);
      assert {p} - {p} == {};
    } else {
      hide StateOk, LayoutOk, KeepsLive, Freeable, FreeNeighbours;
      assert limbo + {Next(l, q)} == FreeNeighbours(l, q);
      FreedState(l, bins, dv, dvsize, live, q);
    }
  }

  lemma DvPrev(l: Layout, q: int)
    requires Freeable(l, q) && IsFree(l, FreeFrom(l, q))
    ensures !PrevInUse(l, q)
  {
  }

  /** The chunk after q is in use. */
  lemma BeforeUsed(l: Layout, bins: Bins, dv: int, dvsize: nat, limbo: set<int>, live: set<int>, q: int, p: int)
    requires Midway(l, bins, dv, dvsize, limbo, live, q, p) && InUse(l, Next(l, q))
    ensures Next(l, q) != l.top && FreeTo(l, q) == Next(l, q) && FreeTo(l, q) in l.head && p <= FreeTo(l, q)
    ensures p != dv ==> StateOk(Freed(l, q), bins, dv, dvsize, {p}, live - {q})
    ensures p == dv ==> StateOk(Freed(l, q), bins, p, FreeTo(l, q) - p, {}, live - {q})
    ensures KeepsLive(l, Freed(l, q), live - {q})
  {
    MidwayLimbo(l, bins, dv, dvsize, limbo, live, q, p);
    NeighbourSet(l, q);
    FreeFacts(l, q);
    FreedShape(l, q);
    hide StateOk, LayoutOk, KeepsLive, Freeable, FreeNeighbours;
    if p == dv {
      assert {} + {p} == FreeNeighbours(l, q);
      FreedState(l, bins, 0, 0, live, q);
      DvIn(Freed(l, q), bins, {p}, live - {q}, p);
      assert {p} - {p} == {};
    } else {
      assert (if PrevInUse(l, q) then {} else {p}) == FreeNeighbours(l, q);
      FreedState(l, bins, dv, dvsize, live, q);
    }
  }
}
