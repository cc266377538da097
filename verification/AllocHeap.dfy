/** How chunks tile the segments of the heap, with boundary tags. */
module AllocHeap {
  import opened AllocLinks
  import opened AllocTrie
  import opened AllocBins
  import opened AllocBinOps

  const TOP_FOOT_SIZE: nat := 64
  const FENCEPOST_SIZE: nat := 8

  /** All memory of the allocator lies in the lower two gigabytes. */
  const ADDRESS_LIMIT: nat := 0x8000_0000

  lemma LayoutSizes()
    ensures TOP_FOOT_SIZE == 64 && FENCEPOST_SIZE == 8 && MIN_CHUNK_SIZE == 32 && SEGMENT_CHUNK == 32
  {
  }

  datatype Segment = Segment(base: nat, size: nat)

  function EndOf(g: Segment): nat
  {
    g.base + g.size
  }

  /** The boundary tags, the chunk starts they describe, and the last fenceposts of closed segments. */
  datatype Layout = Layout(starts: set<int>, head: map<int, Head>, foot: map<int, nat>,
                           top: int, topsize: nat, segs: seq<Segment>, ends: set<int>)

  function SizeOf(l: Layout, a: int): nat
  {
    if a in l.head then l.head[a].size else 0
  }

  function InUse(l: Layout, a: int): bool
  {
    a in l.head && l.head[a].cinuse
  }

  function PrevInUse(l: Layout, a: int): bool
  {
    a in l.head && l.head[a].pinuse
  }

  function Next(l: Layout, a: int): int
  {
    a + SizeOf(l, a)
  }

  function FootAt(l: Layout, a: int): nat
  {
    if a in l.foot then l.foot[a] else 0
  }

  /** The chunk lies in the segment; unless it is the last one, the header after it does, too. */
  predicate Within(l: Layout, a: int, i: int)
  {
    0 <= i < |l.segs| && l.segs[i].base <= a &&
    if a == l.top then Next(l, a) + TOP_FOOT_SIZE == EndOf(l.segs[i])
    else if a in l.ends then a + 2 * FENCEPOST_SIZE == EndOf(l.segs[i])
    else Next(l, a) + 16 <= EndOf(l.segs[i])
  }

  ghost predicate Held(l: Layout, a: int)
  {
    exists i :: Within(l, a, i)
  }

  /** The boundary tags around one chunk. */
  ghost predicate ChunkOk(l: Layout, a: int)
  {
    a > 0 && a % 8 == 0 && a in l.head && SizeOf(l, a) % 8 == 0 && SizeOf(l, a) >= FENCEPOST_SIZE && Held(l, a) &&
    (!InUse(l, a) ==> PrevInUse(l, a)) &&
    (!PrevInUse(l, a) ==> PrevOk(l, a, a - FootAt(l, a))) &&
    if a == l.top then !InUse(l, a) && SizeOf(l, a) == l.topsize
    else if a in l.ends then InUse(l, a) && SizeOf(l, a) == FENCEPOST_SIZE
    else
      Next(l, a) in l.starts && (PrevInUse(l, Next(l, a)) <==> InUse(l, a)) &&
      (!InUse(l, a) ==> SizeOf(l, a) >= MIN_CHUNK_SIZE && FootAt(l, Next(l, a)) == SizeOf(l, a) && InUse(l, Next(l, a)))
  }

  /** The chunk that a's foot word leads back to. */
  ghost predicate PrevOk(l: Layout, a: int, p: int)
  {
    p < a && p in l.starts && p != l.top && !InUse(l, p) && Next(l, p) == a
  }

  /** Up to where the chunk keeps others out: the top chunk owns its segment's footer, a last fencepost its own word. */
  function Extent(l: Layout, a: int): int
  {
    if a == l.top then Next(l, a) + TOP_FOOT_SIZE
    else if a in l.ends then a + 2 * FENCEPOST_SIZE
    else Next(l, a)
  }

  ghost predicate Apart(l: Layout, a: int, b: int)
  {
    a < b ==> Next(l, a) <= b && Extent(l, a) <= b
  }

  ghost predicate ChunksOk(l: Layout)
  {
    forall a {:trigger ChunkOk(l, a)} :: a in l.starts ==> ChunkOk(l, a)
  }

  ghost predicate NoOverlap(l: Layout)
  {
    forall a, b {:trigger Apart(l, a, b)} :: a in l.starts && b in l.starts ==> Apart(l, a, b)
  }

  ghost predicate SegmentsOk(l: Layout)
  {
    l.top in l.starts && l.ends <= l.starts && l.top !in l.ends &&
    (forall i :: 0 <= i < |l.segs| ==> l.segs[i].base in l.starts && SegmentOk(l.segs[i])) &&
    forall i, j :: 0 <= i < j < |l.segs| ==> EndOf(l.segs[i]) <= l.segs[j].base || EndOf(l.segs[j]) <= l.segs[i].base
  }

  ghost predicate LayoutOk(l: Layout)
  {
    ChunksOk(l) && NoOverlap(l) && SegmentsOk(l)
  }

  predicate SegmentOk(g: Segment)
  {
    0 < g.base && g.base % 8 == 0 && g.size > 0 && g.size % 8 == 0 && EndOf(g) <= ADDRESS_LIMIT
  }

  lemma SizeBound(l: Layout, a: int)
    requires LayoutOk(l) && a in l.starts
    ensures SizeOf(l, a) < ADDRESS_LIMIT && Next(l, a) < ADDRESS_LIMIT && a > 0
  {
    assert ChunkOk(l, a);
    var i :| Within(l, a, i);
  }

  /** A chunk keeps its place in a segment when neither it nor the segments move. */
  lemma HeldSame(l: Layout, l': Layout, a: int)
    requires Held(l, a) && l'.segs == l.segs && SizeOf(l', a) == SizeOf(l, a)
    requires (a == l'.top <==> a == l.top) && (a in l'.ends <==> a in l.ends)
    ensures Held(l', a)
  {
    var i :| Within(l, a, i);
    assert Within(l', a, i);
  }

  // ---- Allocating from a free chunk --------------------------------------

  /** The whole free chunk is handed out. */
  function TakeWhole(l: Layout, a: int): Layout
    requires a in l.head && Next(l, a) in l.head
  {
    l.(head := l.head[a := Head(SizeOf(l, a), true, true)][Next(l, a) := l.head[Next(l, a)].(pinuse := true)])
  }

  lemma TakeWholeOk(l: Layout, a: int)
    requires LayoutOk(l) && a in l.starts && !InUse(l, a) && a != l.top
    ensures a in l.head && Next(l, a) in l.head && LayoutOk(TakeWhole(l, a))
  {
    TakeWholeTags(l, a);
    TakeWholeSizes(l, a);
    SegmentsSame(l, TakeWhole(l, a));
  }

  lemma TakeWholeTags(l: Layout, a: int)
    requires LayoutOk(l) && a in l.starts && !InUse(l, a) && a != l.top
    ensures a in l.head && Next(l, a) in l.head && ChunksOk(TakeWhole(l, a))
  {
    assert ChunkOk(l, a) && ChunkOk(l, Next(l, a));
    forall b | b in l.starts ensures ChunkOk(TakeWhole(l, a), b) {
      TakeWholeChunk(l, a, b);
    }
  }

  lemma TakeWholeSizes(l: Layout, a: int)
    requires NoOverlap(l) && a in l.head && Next(l, a) in l.head
    ensures NoOverlap(TakeWhole(l, a))
  {
    forall b, c | b in l.starts && c in l.starts ensures Apart(TakeWhole(l, a), b, c) {
      assert Apart(l, b, c);
    }
  }

  lemma SegmentsSame(l: Layout, l': Layout)
    requires SegmentsOk(l) && l'.segs == l.segs && l'.ends == l.ends && l'.top == l.top
    requires l.starts <= l'.starts
    ensures SegmentsOk(l')
  {
  }

  lemma TakeWholeChunk(l: Layout, a: int, b: int)
    requires LayoutOk(l) && a in l.starts && !InUse(l, a) && a != l.top && b in l.starts
    ensures a in l.head && Next(l, a) in l.head && ChunkOk(TakeWhole(l, a), b)
  {
    assert ChunkOk(l, a) && ChunkOk(l, Next(l, a)) && ChunkOk(l, b);
    assert Apart(l, a, b) && Apart(l, b, a);
    var l' := TakeWhole(l, a);
    HeldSame(l, l', b);
    hide Held, LayoutOk, NoOverlap, ChunksOk, SegmentsOk, Apart;
  }

  /** The first nb bytes are handed out, the rest stays a free chunk. */
  function Carve(l: Layout, a: int, nb: nat): Layout
    requires a in l.head && nb <= SizeOf(l, a)
  {
    var s := SizeOf(l, a);
    l.(starts := l.starts + {a + nb},
       head := l.head[a := Head(nb, true, true)][a + nb := Head(s - nb, false, true)],
       foot := l.foot[a + s := s - nb])
  }

  lemma CarveOk(l: Layout, a: int, nb: nat)
    requires LayoutOk(l) && a in l.starts && !InUse(l, a) && a != l.top
    requires nb % 8 == 0 && nb >= MIN_CHUNK_SIZE && SizeOf(l, a) >= nb + MIN_CHUNK_SIZE
    ensures a in l.head && LayoutOk(Carve(l, a, nb)) && a + nb !in l.starts
  {
    assert ChunkOk(l, a);
    InsideNoStart(l, a, a + nb);
    CarveTags(l, a, nb);
    CarveSizes(l, a, nb);
    SegmentsSame(l, Carve(l, a, nb));
  }

  lemma CarveTags(l: Layout, a: int, nb: nat)
    requires LayoutOk(l) && a in l.starts && a in l.head && !InUse(l, a) && a != l.top
    requires nb % 8 == 0 && nb >= MIN_CHUNK_SIZE && SizeOf(l, a) >= nb + MIN_CHUNK_SIZE
    ensures ChunksOk(Carve(l, a, nb))
  {
    var l' := Carve(l, a, nb);
    forall b | b in l'.starts ensures ChunkOk(l', b) {
      CarveAny(l, a, nb, b);
    }
  }

  lemma CarveAny(l: Layout, a: int, nb: nat, b: int)
    requires LayoutOk(l) && a in l.starts && a in l.head && !InUse(l, a) && a != l.top
    requires nb % 8 == 0 && nb >= MIN_CHUNK_SIZE && SizeOf(l, a) >= nb + MIN_CHUNK_SIZE
    requires b in Carve(l, a, nb).starts
    ensures ChunkOk(Carve(l, a, nb), b)
  {
    hide LayoutOk, ChunkOk;
    if b == a + nb { CarveRest(l, a, nb); } else { CarveChunk(l, a, nb, b); }
  }

  lemma CarveSizes(l: Layout, a: int, nb: nat)
    requires LayoutOk(l) && a in l.starts && a in l.head && 0 < nb < SizeOf(l, a) && a != l.top && a !in l.ends
    ensures NoOverlap(Carve(l, a, nb))
  {
    var l' := Carve(l, a, nb);
    forall b, c | b in l'.starts && c in l'.starts ensures Apart(l', b, c) {
      CarveApart(l, a, nb, b, c);
    }
  }

  /** No chunk starts strictly inside another one. */
  lemma InsideNoStart(l: Layout, a: int, x: int)
    requires NoOverlap(l) && a in l.starts && a < x < Next(l, a)
    ensures x !in l.starts
  {
    assert x in l.starts ==> Apart(l, a, x);
  }

  lemma CarveApart(l: Layout, a: int, nb: nat, b: int, c: int)
    requires LayoutOk(l) && a in l.starts && a in l.head && 0 < nb < SizeOf(l, a) && a != l.top && a !in l.ends
    requires b in Carve(l, a, nb).starts && c in Carve(l, a, nb).starts
    ensures Apart(Carve(l, a, nb), b, c)
  {
    var r := a + nb;
    InsideNoStart(l, a, r);
    if b in l.starts && c in l.starts { assert Apart(l, b, c); }
    if b in l.starts { assert Apart(l, b, a) && Apart(l, a, b); }
    if c in l.starts { assert Apart(l, c, a) && Apart(l, a, c); }
  }

  lemma CarveHeld(l: Layout, a: int, nb: nat)
    requires LayoutOk(l) && a in l.starts && a in l.head && !InUse(l, a) && a != l.top && 0 < nb < SizeOf(l, a)
    ensures Held(Carve(l, a, nb), a) && Held(Carve(l, a, nb), a + nb)
    ensures a + nb !in l.starts && a + nb != l.top && a + nb !in l.ends
  {
    assert ChunkOk(l, a);
    InsideNoStart(l, a, a + nb);
    assert SegmentsOk(l);
    var i :| Within(l, a, i);
    assert Within(Carve(l, a, nb), a, i) && Within(Carve(l, a, nb), a + nb, i);
  }

  lemma CarveRest(l: Layout, a: int, nb: nat)
    requires LayoutOk(l) && a in l.starts && !InUse(l, a) && a != l.top
    requires nb % 8 == 0 && nb >= MIN_CHUNK_SIZE && SizeOf(l, a) >= nb + MIN_CHUNK_SIZE
    ensures a in l.head && ChunkOk(Carve(l, a, nb), a + nb)
  {
    hide *;
    LayoutSizes();
    CarveParts(l, a, nb);
    CarveHeld(l, a, nb);
    CarveTagsAt(l, a, nb);
    FreeChunkOk(Carve(l, a, nb), a + nb, SizeOf(l, a) - nb);
  }

  /** The free chunk and the used one after it, before the cut. */
  lemma CarveParts(l: Layout, a: int, nb: nat)
    requires LayoutOk(l) && a in l.starts && !InUse(l, a) && a != l.top
    requires nb % 8 == 0 && nb >= MIN_CHUNK_SIZE && SizeOf(l, a) >= nb + MIN_CHUNK_SIZE
    ensures a in l.head && a > 0 && (a + nb) % 8 == 0 && (SizeOf(l, a) - nb) % 8 == 0 && Next(l, a) == a + SizeOf(l, a)
    ensures Next(l, a) in l.starts && !PrevInUse(l, Next(l, a)) && InUse(l, Next(l, a))
  {
    assert ChunkOk(l, a);
    hide LayoutOk, Held;
  }

  lemma CarveTagsAt(l: Layout, a: int, nb: nat)
    requires a in l.head && 0 < nb < SizeOf(l, a)
    ensures var l', r := Carve(l, a, nb), a + nb;
      r in l'.head && l'.head[r] == Head(SizeOf(l, a) - nb, false, true) && l'.top == l.top && l'.ends == l.ends &&
      Next(l, a) == r + (SizeOf(l, a) - nb) && l.starts <= l'.starts && FootAt(l', Next(l, a)) == SizeOf(l, a) - nb &&
      PrevInUse(l', Next(l, a)) == PrevInUse(l, Next(l, a)) && InUse(l', Next(l, a)) == InUse(l, Next(l, a))
  {
  }

  lemma FreeChunkOk(l: Layout, b: int, s: nat)
    requires b > 0 && b % 8 == 0 && b in l.head && l.head[b] == Head(s, false, true) && s >= MIN_CHUNK_SIZE &&
      s % 8 == 0
    requires b != l.top && b !in l.ends && Held(l, b) && b + s in l.starts
    requires !PrevInUse(l, b + s) && InUse(l, b + s) && FootAt(l, b + s) == s
    ensures ChunkOk(l, b)
  {
    hide Held;
  }

  lemma TopChunkOk(l: Layout, b: int)
    requires b > 0 && b % 8 == 0 && b in l.head && l.head[b] == Head(l.topsize, false, true) && b == l.top
    requires l.topsize >= FENCEPOST_SIZE && l.topsize % 8 == 0 && Held(l, b)
    ensures ChunkOk(l, b)
  {
    hide Held;
  }

  lemma UsedChunkOk(l: Layout, b: int, n: int)
    requires b > 0 && b % 8 == 0 && b in l.head && l.head[b].cinuse && l.head[b].pinuse && b != l.top && b !in l.ends &&
      Held(l, b)
    requires n == b + l.head[b].size && n in l.starts && n in l.head && l.head[n].pinuse && l.head[b].size % 8 == 0 &&
      l.head[b].size >= FENCEPOST_SIZE
    ensures ChunkOk(l, b)
  {
    hide Held;
  }

  /** An ordinary chunk whose own words stay and whose neighbours keep what their tags say. */
  lemma SameChunkOk(l: Layout, l': Layout, b: int)
    requires ChunkOk(l, b) && b != l.top && b != l'.top && (b in l.ends <==> b in l'.ends) && Held(l', b)
    requires b in l.head && b in l'.head && l'.head[b] == l.head[b]
    requires !PrevInUse(l, b) ==> FootAt(l', b) == FootAt(l, b) && PrevOk(l', b, b - FootAt(l, b))
    requires b !in l.ends ==> Next(l, b) in l'.starts && PrevInUse(l', Next(l, b)) == PrevInUse(l, Next(l, b))
    requires b !in l.ends && InUse(l, Next(l, b)) ==> InUse(l', Next(l, b))
    requires b !in l.ends && !InUse(l, b) ==> FootAt(l', Next(l, b)) == FootAt(l, Next(l, b))
    ensures ChunkOk(l', b)
  {
    hide Held, PrevOk;
  }

  lemma WithinIs(l: Layout, b: int, i: int)
    requires 0 <= i < |l.segs| && l.segs[i].base <= b && b != l.top
    requires if b in l.ends then b + 2 * FENCEPOST_SIZE == EndOf(l.segs[i]) else Next(l, b) + 16 <= EndOf(l.segs[i])
    ensures Within(l, b, i)
  {
  }

  /** What the tags of one chunk say, and that the layout lets it say so. */
  lemma ChunkSays(l: Layout, b: int)
    requires LayoutOk(l) && b in l.starts
    ensures ChunkOk(l, b) && b in l.head && Held(l, b) && NoOverlap(l) && Next(l, b) >= b + 8
    ensures b != l.top && b !in l.ends ==> (
      Next(l, b) in l.starts && (PrevInUse(l, Next(l, b)) <==> InUse(l, b)) &&
      (!InUse(l, b) ==> InUse(l, Next(l, b))))
    ensures !PrevInUse(l, b) ==> PrevOk(l, b, b - FootAt(l, b))
    ensures !PrevInUse(l, b) ==> (
      b - FootAt(l, b) in l.starts && !InUse(l, b - FootAt(l, b)) && Next(l, b - FootAt(l, b)) == b)
  {
    assert ChunkOk(l, b);
    hide Held, LayoutOk;
  }

  lemma LastFenceOk(l: Layout, b: int)
    requires b > 0 && b % 8 == 0 && b in l.head && l.head[b] == Head(FENCEPOST_SIZE, true, true)
    requires b != l.top && b in l.ends && Held(l, b)
    ensures ChunkOk(l, b)
  {
    hide Held;
  }

  lemma CarveChunk(l: Layout, a: int, nb: nat, b: int)
    requires LayoutOk(l) && a in l.starts && !InUse(l, a) && a != l.top && b in l.starts
    requires nb % 8 == 0 && nb >= MIN_CHUNK_SIZE && SizeOf(l, a) >= nb + MIN_CHUNK_SIZE
    ensures a in l.head && ChunkOk(Carve(l, a, nb), b)
  {
    if b == a { CarveFirst(l, a, nb); } else { CarveOther(l, a, nb, b); }
    hide *;
  }

  lemma CarveFirst(l: Layout, a: int, nb: nat)
    requires LayoutOk(l) && a in l.starts && !InUse(l, a) && a != l.top
    requires nb % 8 == 0 && nb >= MIN_CHUNK_SIZE && SizeOf(l, a) >= nb + MIN_CHUNK_SIZE
    ensures a in l.head && ChunkOk(Carve(l, a, nb), a)
  {
    assert ChunkOk(l, a);
    CarveHeld(l, a, nb);
    hide LayoutOk, Held, Apart, ChunkOk, PrevOk;
    UsedChunkOk(Carve(l, a, nb), a, a + nb);
  }

  lemma CarveOther(l: Layout, a: int, nb: nat, b: int)
    requires LayoutOk(l) && a in l.starts && !InUse(l, a) && a != l.top && b in l.starts && b != a
    requires nb % 8 == 0 && nb >= MIN_CHUNK_SIZE && SizeOf(l, a) >= nb + MIN_CHUNK_SIZE
    ensures a in l.head && ChunkOk(Carve(l, a, nb), b)
  {
    hide *;
    LayoutSizes();
    CarveParts(l, a, nb);
    CarveHeld(l, a, nb);
    CarveTagsAt(l, a, nb);
    CarveKeeps(l, a, nb, b);
    ChunkSays(l, b);
    HeldSame(l, Carve(l, a, nb), b);
    if b == Next(l, a) {
      CarveBehind(l, a, nb);
    } else {
      if b !in l.ends && b != l.top { CarveKeeps(l, a, nb, Next(l, b)); UniquePrev(l, a, b); }
      if !PrevInUse(l, b) { CarvePrev(l, a, nb, b, b - FootAt(l, b)); }
      SameOrTopOk(l, Carve(l, a, nb), b);
    }
  }

  lemma CarveKeeps(l: Layout, a: int, nb: nat, b: int)
    requires LayoutOk(l) && a in l.starts && a in l.head && !InUse(l, a) && a != l.top && 0 < nb < SizeOf(l, a)
    requires b in l.starts
    ensures var l' := Carve(l, a, nb);
      b in l'.starts && l'.top == l.top && l'.topsize == l.topsize && l'.segs == l.segs && l'.ends == l.ends &&
      b in l.head && b in l'.head && (b != a ==> l'.head[b] == l.head[b] && SizeOf(l', b) == SizeOf(l, b)) &&
      PrevInUse(l', b) == PrevInUse(l, b) && (InUse(l, b) ==> InUse(l', b)) &&
      (b != Next(l, a) ==> FootAt(l', b) == FootAt(l, b)) && Next(l, a) > a
  {
    assert ChunkOk(l, a) && ChunkOk(l, b);
    InsideNoStart(l, a, a + nb);
    hide LayoutOk, Held;
  }

  lemma CarvePrev(l: Layout, a: int, nb: nat, b: int, q: int)
    requires LayoutOk(l) && a in l.starts && a in l.head && !InUse(l, a) && a != l.top && 0 < nb < SizeOf(l, a)
    requires b in l.starts && b != Next(l, a) && PrevOk(l, b, q)
    ensures PrevOk(Carve(l, a, nb), b, q)
  {
    InsideNoStart(l, a, a + nb);
    hide LayoutOk;
  }

  /** The used chunk behind the cut: its foot word now leads to the rest. */
  lemma CarveBehind(l: Layout, a: int, nb: nat)
    requires LayoutOk(l) && a in l.starts && !InUse(l, a) && a != l.top && a in l.head
    requires nb % 8 == 0 && nb >= MIN_CHUNK_SIZE && SizeOf(l, a) >= nb + MIN_CHUNK_SIZE
    requires Held(Carve(l, a, nb), Next(l, a))
    ensures ChunkOk(Carve(l, a, nb), Next(l, a))
  {
    assert ChunkOk(l, a) && ChunkOk(l, Next(l, a));
    CarveHeld(l, a, nb);
    CarveTagsAt(l, a, nb);
    hide LayoutOk, Held, Apart;
  }

  /** As above, with the top chunk included when its size stays. */
  lemma SameOrTopOk(l: Layout, l': Layout, b: int)
    requires ChunkOk(l, b) && l'.top == l.top && l'.topsize == l.topsize && (b in l.ends <==> b in l'.ends) &&
      Held(l', b)
    requires b in l.head && b in l'.head && l'.head[b] == l.head[b]
    requires !PrevInUse(l, b) ==> FootAt(l', b) == FootAt(l, b) && PrevOk(l', b, b - FootAt(l, b))
    requires b !in l.ends && b != l.top ==>
      Next(l, b) in l'.starts && PrevInUse(l', Next(l, b)) == PrevInUse(l, Next(l, b))
    requires b !in l.ends && b != l.top && InUse(l, Next(l, b)) ==> InUse(l', Next(l, b))
    requires b !in l.ends && b != l.top && !InUse(l, b) ==> FootAt(l', Next(l, b)) == FootAt(l, Next(l, b))
    ensures ChunkOk(l', b)
  {
    hide Held, PrevOk;
  }

  // ---- Allocating from the top chunk --------------------------------------

  function CarveTop(l: Layout, nb: nat): Layout
    requires nb <= l.topsize
  {
    var r := l.top + nb;
    l.(starts := l.starts + {r}, head := l.head[r := Head(l.topsize - nb, false, true)][l.top := Head(nb, true, true)],
       top := r, topsize := l.topsize - nb)
  }

  lemma CarveTopOk(l: Layout, nb: nat)
    requires LayoutOk(l) && nb % 8 == 0 && MIN_CHUNK_SIZE <= nb < l.topsize
    ensures LayoutOk(CarveTop(l, nb)) && l.top + nb !in l.starts
  {
    TopFacts(l);
    InsideNoStart(l, l.top, l.top + nb);
    CarveTopTags(l, nb);
    CarveTopSizes(l, nb);
    CarveTopSegments(l, nb);
  }

  lemma TopFacts(l: Layout)
    requires LayoutOk(l)
    ensures l.top in l.starts && l.top in l.head && SizeOf(l, l.top) == l.topsize && l.topsize >= FENCEPOST_SIZE &&
      l.topsize % 8 == 0
    ensures l.top > 0 && l.top % 8 == 0 && PrevInUse(l, l.top) && !InUse(l, l.top) && Held(l, l.top)
  {
    assert ChunkOk(l, l.top);
  }

  lemma CarveTopSegments(l: Layout, nb: nat)
    requires SegmentsOk(l) && nb <= l.topsize && l.top + nb !in l.starts
    ensures SegmentsOk(CarveTop(l, nb))
  {
  }

  lemma CarveTopTags(l: Layout, nb: nat)
    requires LayoutOk(l) && nb % 8 == 0 && MIN_CHUNK_SIZE <= nb < l.topsize && l.top + nb !in l.starts
    ensures ChunksOk(CarveTop(l, nb))
  {
    var l' := CarveTop(l, nb);
    forall b | b in l'.starts ensures ChunkOk(l', b) {
      if b == l.top || b == l.top + nb { CarveTopNew(l, nb); } else { CarveTopOther(l, nb, b); }
    }
  }

  lemma CarveTopNew(l: Layout, nb: nat)
    requires LayoutOk(l) && nb % 8 == 0 && MIN_CHUNK_SIZE <= nb < l.topsize && l.top + nb !in l.starts
    ensures ChunkOk(CarveTop(l, nb), l.top + nb) && ChunkOk(CarveTop(l, nb), l.top)
  {
    hide *;
    LayoutSizes();
    TopFacts(l);
    CarveTopHeld(l, nb);
    CarveTopSplit(l, nb);
    TopChunkOk(CarveTop(l, nb), l.top + nb);
    UsedChunkOk(CarveTop(l, nb), l.top, l.top + nb);
  }

  lemma CarveTopHeld(l: Layout, nb: nat)
    requires LayoutOk(l) && nb < l.topsize && l.top + nb !in l.starts && nb > 0
    ensures Held(CarveTop(l, nb), l.top + nb) && Held(CarveTop(l, nb), l.top)
    ensures l.top !in l.ends && l.top + nb !in l.ends
  {
    TopFacts(l);
    assert SegmentsOk(l);
    var l', r := CarveTop(l, nb), l.top + nb;
    hide LayoutOk, SegmentsOk;
    var i :| Within(l, l.top, i);
    assert Within(l', r, i) && Within(l', l.top, i);
  }

  lemma CarveTopSplit(l: Layout, nb: nat)
    requires 0 < nb < l.topsize
    ensures var l', r := CarveTop(l, nb), l.top + nb;
      r in l'.head && l'.head[r] == Head(l.topsize - nb, false, true) && l'.top == r && l'.topsize == l.topsize - nb &&
      l.top in l'.head && l'.head[l.top] == Head(nb, true, true) && l'.ends == l.ends && r in l'.starts
  {
  }

  lemma CarveTopOther(l: Layout, nb: nat, b: int)
    requires LayoutOk(l) && nb % 8 == 0 && MIN_CHUNK_SIZE <= nb < l.topsize && l.top + nb !in l.starts
    requires b in l.starts && b != l.top
    ensures ChunkOk(CarveTop(l, nb), b)
  {
    TopFacts(l);
    assert ChunkOk(l, b);
    assert Apart(l, l.top, b) && Apart(l, b, l.top);
    var l' := CarveTop(l, nb);
    HeldSame(l, l', b);
    hide LayoutOk, Held, Apart;
  }

  lemma CarveTopSizes(l: Layout, nb: nat)
    requires LayoutOk(l) && 0 < nb < l.topsize && l.top + nb !in l.starts
    ensures NoOverlap(CarveTop(l, nb))
  {
    TopFacts(l);
    var l' := CarveTop(l, nb);
    forall b, c | b in l'.starts && c in l'.starts ensures Apart(l', b, c) {
      CarveTopApart(l, nb, b, c);
    }
  }

  lemma CarveTopApart(l: Layout, nb: nat, b: int, c: int)
    requires LayoutOk(l) && 0 < nb < l.topsize && l.top + nb !in l.starts
    requires b in l.starts + {l.top + nb} && c in l.starts + {l.top + nb}
    ensures Apart(CarveTop(l, nb), b, c)
  {
    TopFacts(l);
    if b in l.starts && c in l.starts { assert Apart(l, b, c); }
    if b in l.starts { assert Apart(l, b, l.top) && Apart(l, l.top, b); }
    if c in l.starts { assert Apart(l, c, l.top) && Apart(l, l.top, c); }
  }

  // ---- Freeing a chunk -----------------------------------------------------

  /** Where the merged free chunk begins and ends. */
  function FreeFrom(l: Layout, p: int): int
  {
    if PrevInUse(l, p) then p else p - FootAt(l, p)
  }

  function FreeTo(l: Layout, p: int): int
  {
    if InUse(l, Next(l, p)) then Next(l, p) else Next(l, Next(l, p))
  }

  /** The chunk becomes free and absorbs its free neighbours. */
  function Freed(l: Layout, p: int): Layout
    requires FreeTo(l, p) in l.head && FreeFrom(l, p) <= FreeTo(l, p)
  {
    var p0, n, n' := FreeFrom(l, p), Next(l, p), FreeTo(l, p);
    l.(starts := l.starts - (if p0 == p then {} else {p}) - (if n == n' then {} else {n}),
       head := l.head[n' := l.head[n'].(pinuse := false)][p0 := Head(n' - p0, false, true)],
       foot := l.foot[n' := n' - p0])
  }

  ghost predicate Freeable(l: Layout, p: int)
  {
    LayoutOk(l) && p in l.starts && InUse(l, p) && p !in l.ends && p != l.top && SizeOf(l, p) >= MIN_CHUNK_SIZE
  }

  /** What the neighbourhood of a chunk about to be freed looks like. */
  lemma FreeFacts(l: Layout, p: int)
    requires Freeable(l, p) && Next(l, p) != l.top
    ensures var p0, n, n' := FreeFrom(l, p), Next(l, p), FreeTo(l, p);
      p0 in l.starts && n in l.starts && n' in l.starts && n' in l.head && p0 <= p < n <= n' && InUse(l, n') &&
        n' != l.top &&
      PrevInUse(l, p0) && p0 != l.top && p0 !in l.ends && p0 % 8 == 0 && n' % 8 == 0 && n' - p0 >= MIN_CHUNK_SIZE &&
      (p0 != p ==> Next(l, p0) == p && !InUse(l, p0)) &&
      (n' != n ==> Next(l, n) == n' && !InUse(l, n) && n !in l.ends)
    ensures Next(l, p) in l.head
  {
    assert ChunkOk(l, p) && ChunkOk(l, FreeFrom(l, p)) && ChunkOk(l, Next(l, p)) && ChunkOk(l, FreeTo(l, p));
  }

  /** Chunks that follow each other directly lie in the same segment. */
  lemma SameSegment(l: Layout, a: int, i: int, j: int)
    requires SegmentsOk(l) && a != l.top && a !in l.ends && Next(l, a) >= a
    requires Within(l, a, i) && Within(l, Next(l, a), j) && Next(l, Next(l, a)) >= Next(l, a)
    ensures i == j
  {
  }

  /** Only p itself ends where the chunk after p begins. */
  lemma UniquePrev(l: Layout, p: int, b: int)
    requires NoOverlap(l) && p in l.starts && b in l.starts && b != p && Next(l, p) > p && Next(l, b) > b
    ensures Next(l, b) != Next(l, p)
  {
    assert Apart(l, p, b) && Apart(l, b, p);
  }

  lemma FreedOk(l: Layout, p: int)
    requires Freeable(l, p) && Next(l, p) != l.top
    ensures FreeTo(l, p) in l.head && FreeFrom(l, p) <= FreeTo(l, p) && LayoutOk(Freed(l, p))
  {
    FreeFacts(l, p);
    FreedTags(l, p);
    FreedSizes(l, p);
    FreedSegments(l, p);
  }

  lemma FreedSegments(l: Layout, p: int)
    requires Freeable(l, p) && Next(l, p) != l.top
    ensures FreeTo(l, p) in l.head && FreeFrom(l, p) <= FreeTo(l, p) && SegmentsOk(Freed(l, p))
  {
    FreeFacts(l, p);
    var l' := Freed(l, p);
    forall i | 0 <= i < |l.segs| ensures l.segs[i].base in l'.starts {
      BaseStays(l, p, i);
    }
  }

  /** A segment's first chunk has nothing in front of it to be merged with. */
  lemma BaseStays(l: Layout, p: int, i: int)
    requires Freeable(l, p) && Next(l, p) != l.top && 0 <= i < |l.segs|
    ensures FreeTo(l, p) in l.head && FreeFrom(l, p) <= FreeTo(l, p) && l.segs[i].base in Freed(l, p).starts
  {
    FreeFacts(l, p);
    var p0, n := FreeFrom(l, p), Next(l, p);
    NotBase(l, p, i);
    if p0 != p { NotBase(l, p0, i); }
  }

  /** The chunk after an ordinary chunk is not the first of any segment. */
  lemma NotBase(l: Layout, a: int, i: int)
    requires LayoutOk(l) && a in l.starts && a != l.top && a !in l.ends && 0 <= i < |l.segs|
    ensures Next(l, a) != l.segs[i].base
  {
    assert ChunkOk(l, a);
    var j :| Within(l, a, j);
  }

  lemma FreedSizes(l: Layout, p: int)
    requires Freeable(l, p) && Next(l, p) != l.top
    ensures FreeTo(l, p) in l.head && FreeFrom(l, p) <= FreeTo(l, p) && NoOverlap(Freed(l, p))
  {
    FreeFacts(l, p);
    var l' := Freed(l, p);
    forall b, c | b in l'.starts && c in l'.starts ensures Apart(l', b, c) {
      FreedApart(l, p, b, c);
    }
  }

  lemma FreedApart(l: Layout, p: int, b: int, c: int)
    requires Freeable(l, p) && Next(l, p) != l.top
    requires FreeTo(l, p) in l.head && FreeFrom(l, p) <= FreeTo(l, p)
    requires b in Freed(l, p).starts && c in Freed(l, p).starts
    ensures Apart(Freed(l, p), b, c)
  {
    FreeFacts(l, p);
    var p0, n := FreeFrom(l, p), Next(l, p);
    assert Apart(l, b, c);
    assert Apart(l, p0, c) && Apart(l, p, c) && Apart(l, n, c) && Apart(l, c, p) && Apart(l, c, n);
    hide LayoutOk, FreeFrom, FreeTo, InUse, PrevInUse;
  }

  lemma FreedTags(l: Layout, p: int)
    requires Freeable(l, p) && Next(l, p) != l.top
    ensures FreeTo(l, p) in l.head && FreeFrom(l, p) <= FreeTo(l, p) && ChunksOk(Freed(l, p))
  {
    FreeFacts(l, p);
    var l' := Freed(l, p);
    forall b | b in l'.starts ensures ChunkOk(l', b) {
      FreedAny(l, p, b);
    }
  }

  lemma FreedAny(l: Layout, p: int, b: int)
    requires Freeable(l, p) && Next(l, p) != l.top
    requires FreeTo(l, p) in l.head && FreeFrom(l, p) <= FreeTo(l, p) && b in Freed(l, p).starts
    ensures ChunkOk(Freed(l, p), b)
  {
    hide *;
    if b == FreeFrom(l, p) {
      FreedMerged(l, p);
    } else {
      FreedOther(l, p, b);
    }
  }

  lemma FreedMerged(l: Layout, p: int)
    requires Freeable(l, p) && Next(l, p) != l.top
    requires FreeTo(l, p) in l.head && FreeFrom(l, p) <= FreeTo(l, p)
    ensures ChunkOk(Freed(l, p), FreeFrom(l, p))
  {
    FreeFacts(l, p);
    FreedHeld(l, p);
    hide LayoutOk, Held, Freeable, FreeFrom, FreeTo;
  }

  lemma FreedHeld(l: Layout, p: int)
    requires Freeable(l, p) && Next(l, p) != l.top
    requires FreeTo(l, p) in l.head && FreeFrom(l, p) <= FreeTo(l, p)
    ensures Held(Freed(l, p), FreeFrom(l, p))
  {
    FreeFacts(l, p);
    var i := MergedWithin(l, p);
    assert Within(Freed(l, p), FreeFrom(l, p), i);
  }

  lemma MergedWithin(l: Layout, p: int) returns (i: int)
    requires Freeable(l, p) && Next(l, p) != l.top
    ensures 0 <= i < |l.segs| && l.segs[i].base <= FreeFrom(l, p) && FreeTo(l, p) + 16 <= EndOf(l.segs[i])
  {
    FreeFacts(l, p);
    var p0, n, n' := FreeFrom(l, p), Next(l, p), FreeTo(l, p);
    assert ChunkOk(l, p0) && ChunkOk(l, p) && ChunkOk(l, n);
    i :| Within(l, p, i);
    var i0 :| Within(l, p0, i0);
    var i2 :| Within(l, n, i2);
    if p0 != p { SameSegment(l, p0, i0, i); }
    SameSegment(l, p, i, i2);
  }

  lemma FreedOther(l: Layout, p: int, b: int)
    requires Freeable(l, p) && Next(l, p) != l.top
    requires FreeTo(l, p) in l.head && FreeFrom(l, p) <= FreeTo(l, p)
    requires b in Freed(l, p).starts && b != FreeFrom(l, p)
    ensures ChunkOk(Freed(l, p), b)
  {
    hide *;
    FreeFacts(l, p);
    FreedStarts(l, p);
    var p0, n, n' := FreeFrom(l, p), Next(l, p), FreeTo(l, p);
    ChunkSays(l, b);
    ChunkSays(l, p);
    UniquePrev(l, p, b);
    if p0 != p { UniquePrev(l, p0, b); }
    if n' != n && b != n { UniquePrev(l, n, b); }
    HeldSame(l, Freed(l, p), b);
    if b == n' {
      FreedNext(l, p);
    } else {
      FreedFar(l, p, b);
    }
  }

  lemma FreedStarts(l: Layout, p: int)
    requires Freeable(l, p) && FreeTo(l, p) in l.head && FreeFrom(l, p) <= FreeTo(l, p)
    ensures LayoutOk(l) && p in l.starts && InUse(l, p) && p !in l.ends && p != l.top
    ensures Freed(l, p).starts == (
      l.starts - (if FreeFrom(l, p) == p then {} else {p}) - (if Next(l, p) == FreeTo(l, p) then {} else {Next(l, p)}))
    ensures Freed(l, p).segs == l.segs && Freed(l, p).top == l.top && Freed(l, p).ends == l.ends
    ensures forall b :: b in l.starts && b != FreeFrom(l, p) ==> SizeOf(Freed(l, p), b) == SizeOf(l, b)
  {
  }

  lemma FreedNext(l: Layout, p: int)
    requires FreeTo(l, p) in l.head && FreeFrom(l, p) < FreeTo(l, p) && ChunkOk(l, FreeTo(l, p))
    requires FreeTo(l, p) in Freed(l, p).starts && FreeFrom(l, p) in Freed(l, p).starts && FreeFrom(l, p) != l.top
    requires InUse(l, FreeTo(l, p)) && Held(Freed(l, p), FreeTo(l, p)) && FreeTo(l, p) != l.top
    requires FreeTo(l, p) !in l.ends ==>
      Next(l, FreeTo(l, p)) in Freed(l, p).starts && Next(l, FreeTo(l, p)) > FreeTo(l, p)
    ensures ChunkOk(Freed(l, p), FreeTo(l, p))
  {
    hide Held;
    var l', p0, n' := Freed(l, p), FreeFrom(l, p), FreeTo(l, p);
    assert PrevOk(l', n', p0);
  }

  lemma FreedFar(l: Layout, p: int, b: int)
    requires FreeTo(l, p) in l.head && FreeFrom(l, p) < FreeTo(l, p) && ChunkOk(l, b)
    requires b in Freed(l, p).starts && b != FreeFrom(l, p) && b != FreeTo(l, p) && Held(Freed(l, p), b)
    requires InUse(l, FreeTo(l, p)) && (FreeFrom(l, p) == p || !InUse(l, FreeFrom(l, p))) && InUse(l, p)
    requires b != l.top && b !in l.ends ==> Next(l, b) in Freed(l, p).starts && Next(l, b) != FreeTo(l, p)
    requires b != l.top && b !in l.ends && Next(l, b) == FreeFrom(l, p) ==> InUse(l, b)
    requires !PrevInUse(l, b) ==> b - FootAt(l, b) in Freed(l, p).starts && b - FootAt(l, b) != FreeFrom(l, p)
    requires PrevInUse(l, FreeFrom(l, p))
    ensures ChunkOk(Freed(l, p), b)
  {
    hide Held, FreeFrom, FreeTo;
    var l' := Freed(l, p);
    if !PrevInUse(l, b) {
      assert PrevOk(l', b, b - FootAt(l, b));
    }
  }

  // ---- Freeing into the top chunk -------------------------------------------

  function FreedToTop(l: Layout, p: int): Layout
    requires FreeFrom(l, p) <= l.top
  {
    var p0 := FreeFrom(l, p);
    var size := l.top + l.topsize - p0;
    l.(starts := l.starts - {l.top} - (if p0 == p then {} else {p}), head := l.head[p0 := Head(size, false, true)],
       top := p0, topsize := size)
  }

  lemma FreeTopFacts(l: Layout, p: int)
    requires Freeable(l, p) && Next(l, p) == l.top
    ensures var p0 := FreeFrom(l, p);
      p0 in l.starts && 0 < p0 <= p < l.top && PrevInUse(l, p0) && p0 != l.top && p0 !in l.ends && p0 % 8 == 0 &&
      (p0 != p ==> Next(l, p0) == p && !InUse(l, p0))
    ensures SizeOf(l, l.top) == l.topsize && l.topsize % 8 == 0 && l.topsize >= FENCEPOST_SIZE && l.top % 8 == 0 &&
      l.top in l.head
    ensures exists i ::
      0 <= i < |l.segs| && l.segs[i].base <= FreeFrom(l, p) && l.top + l.topsize + TOP_FOOT_SIZE == EndOf(l.segs[i])
  {
    assert ChunkOk(l, p) && ChunkOk(l, FreeFrom(l, p)) && ChunkOk(l, l.top);
    var p0 := FreeFrom(l, p);
    var i :| Within(l, p, i);
    var i0 :| Within(l, p0, i0);
    var i2 :| Within(l, l.top, i2);
    if p0 != p { SameSegment(l, p0, i0, i); }
    SameSegment(l, p, i, i2);
  }

  lemma FreedToTopOk(l: Layout, p: int)
    requires Freeable(l, p) && Next(l, p) == l.top
    ensures FreeFrom(l, p) <= l.top && LayoutOk(FreedToTop(l, p))
  {
    FreeTopFacts(l, p);
    FreedToTopTags(l, p);
    FreedToTopSizes(l, p);
    FreedToTopSegments(l, p);
  }

  lemma FreedToTopSegments(l: Layout, p: int)
    requires Freeable(l, p) && Next(l, p) == l.top
    ensures FreeFrom(l, p) <= l.top && SegmentsOk(FreedToTop(l, p))
  {
    FreeTopFacts(l, p);
    var l' := FreedToTop(l, p);
    forall i | 0 <= i < |l.segs| ensures l.segs[i].base in l'.starts {
      NotBase(l, p, i);
      if FreeFrom(l, p) != p { NotBase(l, FreeFrom(l, p), i); }
    }
  }

  lemma FreedToTopSizes(l: Layout, p: int)
    requires Freeable(l, p) && Next(l, p) == l.top
    ensures FreeFrom(l, p) <= l.top && NoOverlap(FreedToTop(l, p))
  {
    FreeTopFacts(l, p);
    var l' := FreedToTop(l, p);
    forall b, c | b in l'.starts && c in l'.starts ensures Apart(l', b, c) {
      FreedToTopApart(l, p, b, c);
    }
  }

  lemma FreedToTopApart(l: Layout, p: int, b: int, c: int)
    requires Freeable(l, p) && Next(l, p) == l.top && FreeFrom(l, p) <= l.top
    requires b in FreedToTop(l, p).starts && c in FreedToTop(l, p).starts
    ensures Apart(FreedToTop(l, p), b, c)
  {
    FreeTopFacts(l, p);
    var p0 := FreeFrom(l, p);
    assert Apart(l, b, c);
    assert Apart(l, p0, c) && Apart(l, p, c) && Apart(l, l.top, c) && Apart(l, c, p) && Apart(l, c, l.top);
    hide LayoutOk, FreeFrom, InUse, PrevInUse;
  }

  lemma FreedToTopTags(l: Layout, p: int)
    requires Freeable(l, p) && Next(l, p) == l.top
    ensures FreeFrom(l, p) <= l.top && ChunksOk(FreedToTop(l, p))
  {
    FreeTopFacts(l, p);
    var l' := FreedToTop(l, p);
    forall b | b in l'.starts ensures ChunkOk(l', b) {
      if b == FreeFrom(l, p) { FreedToTopNew(l, p); } else { FreedToTopOther(l, p, b); }
    }
  }

  lemma FreedToTopNew(l: Layout, p: int)
    requires Freeable(l, p) && Next(l, p) == l.top && FreeFrom(l, p) <= l.top
    ensures ChunkOk(FreedToTop(l, p), FreeFrom(l, p))
  {
    hide *;
    LayoutSizes();
    FreeTopFacts(l, p);
    FreedTopHead(l, p);
    FreedTopHeld(l, p);
    TopChunkOk(FreedToTop(l, p), FreeFrom(l, p));
  }

  lemma FreedTopHead(l: Layout, p: int)
    requires FreeFrom(l, p) <= l.top
    ensures var l', p0 := FreedToTop(l, p), FreeFrom(l, p);
      p0 in l'.head && l'.head[p0] == Head(l'.topsize, false, true) && l'.top == p0 &&
        l'.topsize == l.top + l.topsize - p0
  {
  }

  lemma FreedTopHeld(l: Layout, p: int)
    requires Freeable(l, p) && Next(l, p) == l.top && FreeFrom(l, p) <= l.top
    ensures Held(FreedToTop(l, p), FreeFrom(l, p))
  {
    FreeTopFacts(l, p);
    FreedTopHead(l, p);
    hide Freeable, LayoutOk, FreeFrom;
    var p0 := FreeFrom(l, p);
    var i :| 0 <= i < |l.segs| && l.segs[i].base <= p0 && l.top + l.topsize + TOP_FOOT_SIZE == EndOf(l.segs[i]);
    assert Within(FreedToTop(l, p), p0, i);
  }

  lemma FreedToTopOther(l: Layout, p: int, b: int)
    requires Freeable(l, p) && Next(l, p) == l.top && FreeFrom(l, p) <= l.top
    requires b in FreedToTop(l, p).starts && b != FreeFrom(l, p)
    ensures ChunkOk(FreedToTop(l, p), b)
  {
    FreeTopFacts(l, p);
    var l', p0 := FreedToTop(l, p), FreeFrom(l, p);
    assert ChunkOk(l, b) && ChunkOk(l, p) && ChunkOk(l, p0);
    UniquePrev(l, p, b);
    if p0 != p { UniquePrev(l, p0, b); }
    HeldSame(l, l', b);
    if !PrevInUse(l, b) {
      assert PrevOk(l', b, b - FootAt(l, b));
    }
    hide LayoutOk, Held, FreeFrom, Freeable;
  }

  // ---- Resizing a chunk in place ----------------------------------------------

  /** A used chunk is cut into two used chunks. */
  function SplitUsed(l: Layout, p: int, nb: nat): Layout
    requires p in l.head && nb <= SizeOf(l, p)
  {
    l.(starts := l.starts + {p + nb},
       head := l.head[p := Head(nb, true, PrevInUse(l, p))][p + nb := Head(SizeOf(l, p) - nb, true, true)])
  }

  ghost predicate Splittable(l: Layout, p: int, nb: nat)
  {
    Freeable(l, p) && nb % 8 == 0 && nb >= MIN_CHUNK_SIZE && SizeOf(l, p) >= nb + MIN_CHUNK_SIZE && p in l.head
  }

  lemma SplitUsedOk(l: Layout, p: int, nb: nat)
    requires Splittable(l, p, nb)
    ensures LayoutOk(SplitUsed(l, p, nb)) && p + nb !in l.starts
    ensures Freeable(SplitUsed(l, p, nb), p + nb)
  {
    InsideNoStart(l, p, p + nb);
    SplitTags(l, p, nb);
    SplitSizes(l, p, nb);
    SegmentsSame(l, SplitUsed(l, p, nb));
  }

  lemma SplitTags(l: Layout, p: int, nb: nat)
    requires Splittable(l, p, nb)
    ensures ChunksOk(SplitUsed(l, p, nb))
  {
    var l' := SplitUsed(l, p, nb);
    forall b | b in l'.starts ensures ChunkOk(l', b) {
      SplitAny(l, p, nb, b);
    }
  }

  lemma SplitHeld(l: Layout, p: int, nb: nat)
    requires Splittable(l, p, nb)
    ensures Held(SplitUsed(l, p, nb), p) && Held(SplitUsed(l, p, nb), p + nb) && p + nb !in l.ends &&
      p + nb !in l.starts
  {
    assert ChunkOk(l, p);
    var l', r := SplitUsed(l, p, nb), p + nb;
    InsideNoStart(l, p, r);
    var i :| Within(l, p, i);
    assert r !in l.ends by { assert SegmentsOk(l); }
    assert Within(l', p, i) && Within(l', r, i);
  }

  lemma SplitAny(l: Layout, p: int, nb: nat, b: int)
    requires Splittable(l, p, nb) && b in SplitUsed(l, p, nb).starts
    ensures ChunkOk(SplitUsed(l, p, nb), b)
  {
    SplitHeld(l, p, nb);
    if b == p + nb { SplitRest(l, p, nb); } else { SplitOld(l, p, nb, b); }
  }

  lemma SplitRest(l: Layout, p: int, nb: nat)
    requires Splittable(l, p, nb)
    ensures ChunkOk(SplitUsed(l, p, nb), p + nb)
  {
    hide *;
    LayoutSizes();
    SplitHeld(l, p, nb);
    SplitHeads(l, p, nb);
    UsedChunkOk(SplitUsed(l, p, nb), p + nb, Next(l, p));
  }

  lemma SplitHeads(l: Layout, p: int, nb: nat)
    requires Splittable(l, p, nb)
    ensures p in l.head && nb <= SizeOf(l, p)
    ensures var l', r, n := SplitUsed(l, p, nb), p + nb, Next(l, p);
      p > 0 && r % 8 == 0 && r in l'.head && l'.head[r] == Head(n - r, true, true) && r != l'.top && r !in l'.ends &&
      n in l'.starts && n in l'.head && l'.head[n].pinuse && (n - r) % 8 == 0 && n - r >= MIN_CHUNK_SIZE
  {
    SplitHeld(l, p, nb);
    ChunkSays(l, p);
    assert SegmentsOk(l) && ChunkOk(l, p) && ChunkOk(l, Next(l, p));
    assert Apart(l, p, l.top) && Apart(l, l.top, p);
    hide LayoutOk, Held;
  }

  lemma SplitOld(l: Layout, p: int, nb: nat, b: int)
    requires Splittable(l, p, nb) && b in l.starts
    ensures ChunkOk(SplitUsed(l, p, nb), b)
  {
    assert ChunkOk(l, p) && ChunkOk(l, b);
    SplitHeld(l, p, nb);
    assert Apart(l, p, b) && Apart(l, b, p);
    if b != p { HeldSame(l, SplitUsed(l, p, nb), b); }
    SplitPrev(l, p, nb, b);
    hide LayoutOk, Held, Apart;
  }

  lemma SplitPrev(l: Layout, p: int, nb: nat, b: int)
    requires ChunkOk(l, b) && p in l.head && nb <= SizeOf(l, p) && InUse(l, p) && p + nb !in l.starts
    ensures !PrevInUse(l, b) ==> PrevOk(SplitUsed(l, p, nb), b, b - FootAt(l, b))
  {
  }

  lemma SplitSizes(l: Layout, p: int, nb: nat)
    requires Splittable(l, p, nb)
    ensures NoOverlap(SplitUsed(l, p, nb))
  {
    var l' := SplitUsed(l, p, nb);
    forall b, c | b in l'.starts && c in l'.starts ensures Apart(l', b, c) {
      SplitApart(l, p, nb, b, c);
    }
  }

  lemma SplitApart(l: Layout, p: int, nb: nat, b: int, c: int)
    requires Splittable(l, p, nb) && b in SplitUsed(l, p, nb).starts && c in SplitUsed(l, p, nb).starts
    ensures Apart(SplitUsed(l, p, nb), b, c)
  {
    InsideNoStart(l, p, p + nb);
    if b in l.starts && c in l.starts { assert Apart(l, b, c); }
    if b in l.starts { assert Apart(l, b, p) && Apart(l, p, b); }
    if c in l.starts { assert Apart(l, c, p) && Apart(l, p, c); }
  }

  /** A used chunk in front of the top chunk grows at its expense. */
  function GrowIntoTop(l: Layout, p: int, nb: nat): Layout
    requires p in l.head && nb <= SizeOf(l, p) + l.topsize
  {
    var rest := SizeOf(l, p) + l.topsize - nb;
    l.(starts := l.starts - {l.top} + {p + nb},
       head := l.head[p := Head(nb, true, PrevInUse(l, p))][p + nb := Head(rest, false, true)],
       top := p + nb, topsize := rest)
  }

  ghost predicate Growable(l: Layout, p: int, nb: nat)
  {
    Freeable(l, p) && p in l.head && Next(l, p) == l.top && nb % 8 == 0 && SizeOf(l, p) < nb < SizeOf(l, p) + l.topsize
  }

  lemma GrowFacts(l: Layout, p: int, nb: nat)
    requires Growable(l, p, nb)
    ensures p > 0 && p % 8 == 0 && SizeOf(l, l.top) == l.topsize && l.topsize % 8 == 0 && l.topsize >= FENCEPOST_SIZE &&
      l.top % 8 == 0
    ensures l.top in l.head && p + nb !in l.starts && Next(l, l.top) == l.top + l.topsize && l.top !in l.ends &&
      l.top in l.starts
  {
    assert ChunkOk(l, p) && ChunkOk(l, l.top);
    InsideNoStart(l, l.top, p + nb);
    assert SegmentsOk(l);
  }

  lemma GrowIntoTopOk(l: Layout, p: int, nb: nat)
    requires Growable(l, p, nb)
    ensures LayoutOk(GrowIntoTop(l, p, nb)) && p + nb !in l.starts
  {
    GrowFacts(l, p, nb);
    GrowTags(l, p, nb);
    GrowSizes(l, p, nb);
    GrowSegments(l, p, nb);
  }

  lemma GrowSegments(l: Layout, p: int, nb: nat)
    requires Growable(l, p, nb)
    ensures SegmentsOk(GrowIntoTop(l, p, nb))
  {
    GrowFacts(l, p, nb);
    forall i | 0 <= i < |l.segs| ensures l.segs[i].base in GrowIntoTop(l, p, nb).starts {
      NotBase(l, p, i);
    }
  }

  lemma GrowTags(l: Layout, p: int, nb: nat)
    requires Growable(l, p, nb)
    ensures ChunksOk(GrowIntoTop(l, p, nb))
  {
    var l' := GrowIntoTop(l, p, nb);
    forall b | b in l'.starts ensures ChunkOk(l', b) {
      if b == p || b == p + nb { GrowNew(l, p, nb); } else { GrowOther(l, p, nb, b); }
    }
  }

  lemma GrowHeld(l: Layout, p: int, nb: nat)
    requires Growable(l, p, nb)
    ensures Held(GrowIntoTop(l, p, nb), p) && Held(GrowIntoTop(l, p, nb), p + nb) && p + nb !in l.ends
  {
    GrowFacts(l, p, nb);
    assert ChunkOk(l, p) && ChunkOk(l, l.top);
    var l', r := GrowIntoTop(l, p, nb), p + nb;
    var i :| Within(l, p, i);
    var j :| Within(l, l.top, j);
    SameSegment(l, p, i, j);
    assert r !in l.ends by { assert SegmentsOk(l); }
    assert Within(l', p, i) && Within(l', r, i);
  }

  lemma GrowNew(l: Layout, p: int, nb: nat)
    requires Growable(l, p, nb)
    ensures ChunkOk(GrowIntoTop(l, p, nb), p) && ChunkOk(GrowIntoTop(l, p, nb), p + nb)
  {
    GrownOk(l, p, nb);
    NewTopOk(l, p, nb);
  }

  lemma GrownOk(l: Layout, p: int, nb: nat)
    requires Growable(l, p, nb)
    ensures ChunkOk(GrowIntoTop(l, p, nb), p)
  {
    GrowFacts(l, p, nb);
    GrowHeld(l, p, nb);
    assert ChunkOk(l, p);
    hide LayoutOk, Held;
    GrowPrev(l, p, nb);
  }

  lemma NewTopOk(l: Layout, p: int, nb: nat)
    requires Growable(l, p, nb)
    ensures ChunkOk(GrowIntoTop(l, p, nb), p + nb)
  {
    hide *;
    LayoutSizes();
    GrowFacts(l, p, nb);
    GrowHeld(l, p, nb);
    GrowTop(l, p, nb);
    TopChunkOk(GrowIntoTop(l, p, nb), p + nb);
  }

  lemma GrowTop(l: Layout, p: int, nb: nat)
    requires Growable(l, p, nb)
    ensures p in l.head && nb <= SizeOf(l, p) + l.topsize
    ensures var l', r := GrowIntoTop(l, p, nb), p + nb;
      r > 0 && r % 8 == 0 && r in l'.head && l'.head[r] == Head(l'.topsize, false, true) && l'.top == r &&
      l'.topsize >= FENCEPOST_SIZE && l'.topsize % 8 == 0
  {
    GrowFacts(l, p, nb);
    assert ChunkOk(l, p);
    hide LayoutOk, Held;
  }

  lemma GrowPrev(l: Layout, p: int, nb: nat)
    requires ChunkOk(l, p) && p in l.head && nb <= SizeOf(l, p) + l.topsize && nb > 0 && p < l.top
    ensures !PrevInUse(l, p) ==> PrevOk(GrowIntoTop(l, p, nb), p, p - FootAt(l, p))
  {
  }

  lemma GrowOther(l: Layout, p: int, nb: nat, b: int)
    requires Growable(l, p, nb) && b in l.starts && b != p && b != l.top
    ensures ChunkOk(GrowIntoTop(l, p, nb), b)
  {
    GrowFacts(l, p, nb);
    assert ChunkOk(l, b) && ChunkOk(l, p);
    var l' := GrowIntoTop(l, p, nb);
    UniquePrev(l, p, b);
    HeldSame(l, l', b);
    if !PrevInUse(l, b) {
      assert PrevOk(l', b, b - FootAt(l, b));
    }
    hide LayoutOk, Held;
  }

  lemma GrowSizes(l: Layout, p: int, nb: nat)
    requires Growable(l, p, nb)
    ensures NoOverlap(GrowIntoTop(l, p, nb))
  {
    var l' := GrowIntoTop(l, p, nb);
    forall b, c | b in l'.starts && c in l'.starts ensures Apart(l', b, c) {
      GrowApart(l, p, nb, b, c);
    }
  }

  lemma GrowApart(l: Layout, p: int, nb: nat, b: int, c: int)
    requires Growable(l, p, nb) && b in GrowIntoTop(l, p, nb).starts && c in GrowIntoTop(l, p, nb).starts
    ensures Apart(GrowIntoTop(l, p, nb), b, c)
  {
    GrowFacts(l, p, nb);
    if b in l.starts && c in l.starts { assert Apart(l, b, c); }
    if b in l.starts { assert Apart(l, b, p) && Apart(l, p, b) && Apart(l, b, l.top) && Apart(l, l.top, b); }
    if c in l.starts { assert Apart(l, c, p) && Apart(l, p, c) && Apart(l, c, l.top) && Apart(l, l.top, c); }
  }

  // ---- More memory from the system ---------------------------------------------

  /** A range the system has just mapped: aligned, in reach, and away from every segment. */
  ghost predicate FreshRange(l: Layout, base: nat, size: nat)
  {
    SegmentOk(Segment(base, size)) && size > TOP_FOOT_SIZE + MIN_CHUNK_SIZE &&
    forall i :: 0 <= i < |l.segs| ==> base + size <= l.segs[i].base || EndOf(l.segs[i]) <= base
  }

  lemma FreshIsUnused(l: Layout, base: nat, size: nat, a: int)
    requires LayoutOk(l) && FreshRange(l, base, size) && a in l.starts
    ensures a < base ==> Extent(l, a) <= base && Next(l, a) <= base
    ensures a >= base ==> a >= base + size
  {
    assert ChunkOk(l, a);
    var i :| Within(l, a, i);
  }

  /** The new range follows the segment that holds the top chunk: the top chunk grows. */
  function ExtendTop(l: Layout, i: nat, size: nat): Layout
    requires i < |l.segs|
  {
    l.(segs := l.segs[i := Segment(l.segs[i].base, l.segs[i].size + size)], topsize := l.topsize + size,
       head := l.head[l.top := Head(l.topsize + size, false, true)][l.top + l.topsize + size :=
         Head(TOP_FOOT_SIZE, false, false)])
  }

  ghost predicate Extends(l: Layout, i: nat, base: nat, size: nat)
  {
    LayoutOk(l) && FreshRange(l, base, size) && i < |l.segs| && base == EndOf(l.segs[i]) &&
    l.segs[i].base <= l.top < EndOf(l.segs[i])
  }

  lemma ExtendFacts(l: Layout, i: nat, base: nat, size: nat)
    requires Extends(l, i, base, size)
    ensures Within(l, l.top, i) && l.top + l.topsize + TOP_FOOT_SIZE == base && l.top + l.topsize + size !in l.starts
    ensures l.topsize % 8 == 0 && size % 8 == 0 && base % 8 == 0
  {
    assert ChunkOk(l, l.top);
    var j :| Within(l, l.top, j);
    assert SegmentsOk(l);
    var x := l.top + l.topsize + size;
    assert x in l.starts ==> Apart(l, l.top, x);
    if x in l.starts { FreshIsUnused(l, base, size, x); }
  }

  lemma ExtendTopOk(l: Layout, i: nat, base: nat, size: nat)
    requires Extends(l, i, base, size)
    ensures LayoutOk(ExtendTop(l, i, size))
  {
    ExtendTags(l, i, base, size);
    ExtendSizes(l, i, base, size);
    ExtendSegments(l, i, base, size);
  }

  lemma ExtendSegments(l: Layout, i: nat, base: nat, size: nat)
    requires Extends(l, i, base, size)
    ensures SegmentsOk(ExtendTop(l, i, size))
  {
    ExtendFacts(l, i, base, size);
    assert SegmentsOk(l);
  }

  lemma ExtendSizes(l: Layout, i: nat, base: nat, size: nat)
    requires Extends(l, i, base, size)
    ensures NoOverlap(ExtendTop(l, i, size))
  {
    var l' := ExtendTop(l, i, size);
    forall b, c | b in l'.starts && c in l'.starts ensures Apart(l', b, c) {
      ExtendFacts(l, i, base, size);
      assert Apart(l, b, c);
      FreshIsUnused(l, base, size, c);
    }
  }

  lemma ExtendTags(l: Layout, i: nat, base: nat, size: nat)
    requires Extends(l, i, base, size)
    ensures ChunksOk(ExtendTop(l, i, size))
  {
    var l' := ExtendTop(l, i, size);
    forall b | b in l'.starts ensures ChunkOk(l', b) {
      ExtendAny(l, i, base, size, b);
    }
  }

  lemma ExtendHeld(l: Layout, i: nat, base: nat, size: nat, b: int)
    requires Extends(l, i, base, size) && b in l.starts
    ensures Held(ExtendTop(l, i, size), b)
  {
    ExtendFacts(l, i, base, size);
    assert ChunkOk(l, b);
    var j :| Within(l, b, j);
    if b == l.top {
      assert Within(ExtendTop(l, i, size), b, i);
    } else if b in l.ends {
      LastNotInTopSegment(l, i, base, size, b, j);
      assert Within(ExtendTop(l, i, size), b, j);
    } else {
      assert Within(ExtendTop(l, i, size), b, j);
    }
  }

  lemma LastNotInTopSegment(l: Layout, i: nat, base: nat, size: nat, b: int, j: int)
    requires Extends(l, i, base, size) && b in l.starts && b in l.ends && b != l.top && Within(l, b, j)
    ensures j != i
  {
    ExtendFacts(l, i, base, size);
    assert ChunkOk(l, b) && Apart(l, l.top, b) && Apart(l, b, l.top);
  }

  lemma ExtendAny(l: Layout, i: nat, base: nat, size: nat, b: int)
    requires Extends(l, i, base, size) && b in l.starts
    ensures ChunkOk(ExtendTop(l, i, size), b)
  {
    hide *;
    LayoutSizes();
    ExtendFacts(l, i, base, size);
    ExtendHeld(l, i, base, size, b);
    ExtendHeads(l, i, base, size, b);
    var l' := ExtendTop(l, i, size);
    if b == l.top {
      TopChunkOk(l', b);
    } else {
      ChunkSays(l, b);
      if b !in l.ends { ExtendHeads(l, i, base, size, Next(l, b)); }
      if !PrevInUse(l, b) {
        ExtendPrev(l, i, base, size, b, b - FootAt(l, b));
      }
      SameChunkOk(l, l', b);
    }
  }

  lemma ExtendHeads(l: Layout, i: nat, base: nat, size: nat, b: int)
    requires Extends(l, i, base, size) && b in l.starts
    ensures var l' := ExtendTop(l, i, size);
      LayoutOk(l) && l'.top == l.top && l'.ends == l.ends && l'.starts == l.starts && FootAt(l', b) == FootAt(l, b) &&
      b in l.head && b in l'.head && b > 0 && b % 8 == 0 && (b != l.top ==> l'.head[b] == l.head[b]) &&
      (b == l.top ==>
        l'.head[b] == Head(l'.topsize, false, true) && l'.topsize % 8 == 0 && l'.topsize >= FENCEPOST_SIZE) &&
      PrevInUse(l', b) == PrevInUse(l, b) && InUse(l', b) == InUse(l, b)
  {
    ExtendFacts(l, i, base, size);
    TopFacts(l);
    assert ChunkOk(l, b);
    hide LayoutOk, Held, Within, FreshRange, PrevOk;
  }

  lemma ExtendPrev(l: Layout, i: nat, base: nat, size: nat, b: int, q: int)
    requires Extends(l, i, base, size) && PrevOk(l, b, q)
    ensures PrevOk(ExtendTop(l, i, size), b, q)
  {
    ExtendFacts(l, i, base, size);
    hide LayoutOk, FreshRange, Within;
  }

  /** The new range precedes a segment: it becomes one used chunk in front of the old first one. */
  function Prepend(l: Layout, i: nat, base: nat, size: nat): Layout
    requires i < |l.segs|
  {
    l.(starts := l.starts + {base}, head := l.head[base := Head(size, true, true)],
       segs := l.segs[i := Segment(base, l.segs[i].size + size)])
  }

  ghost predicate Prepends(l: Layout, i: nat, base: nat, size: nat)
  {
    LayoutOk(l) && FreshRange(l, base, size) && i < |l.segs| && base + size == l.segs[i].base
  }

  lemma PrependOk(l: Layout, i: nat, base: nat, size: nat)
    requires Prepends(l, i, base, size)
    ensures LayoutOk(Prepend(l, i, base, size)) && Freeable(Prepend(l, i, base, size), base) && base !in l.starts
    ensures Next(Prepend(l, i, base, size), base) == base + size && base + size in l.starts
  {
    PrependUnused(l, i, base, size);
    PrependTags(l, i, base, size);
    PrependSizes(l, i, base, size);
    PrependSegments(l, i, base, size);
  }

  lemma PrependUnused(l: Layout, i: nat, base: nat, size: nat)
    requires Prepends(l, i, base, size)
    ensures base !in l.starts && base != l.top && base !in l.ends && base + size in l.starts &&
      PrevInUse(l, base + size)
    ensures size % 8 == 0 && base % 8 == 0 && base > 0
  {
    assert SegmentsOk(l);
    if base in l.starts { FreshIsUnused(l, base, size, base); }
    FirstHasNoPrev(l, i);
  }

  /** Nothing lies in front of a segment's first chunk, so it cannot have a free predecessor. */
  lemma FirstHasNoPrev(l: Layout, i: nat)
    requires LayoutOk(l) && i < |l.segs|
    ensures PrevInUse(l, l.segs[i].base)
  {
    var a := l.segs[i].base;
    assert SegmentsOk(l);
    assert ChunkOk(l, a);
    if !PrevInUse(l, a) {
      var q := a - FootAt(l, a);
      assert PrevOk(l, a, q);
      assert ChunkOk(l, q);
      NotBase(l, q, i);
    }
  }

  lemma PrependSegments(l: Layout, i: nat, base: nat, size: nat)
    requires Prepends(l, i, base, size)
    ensures SegmentsOk(Prepend(l, i, base, size))
  {
    assert SegmentsOk(l);
    PrependUnused(l, i, base, size);
  }

  lemma PrependSizes(l: Layout, i: nat, base: nat, size: nat)
    requires Prepends(l, i, base, size)
    ensures NoOverlap(Prepend(l, i, base, size))
  {
    var l' := Prepend(l, i, base, size);
    forall b, c | b in l'.starts && c in l'.starts ensures Apart(l', b, c) {
      PrependApart(l, i, base, size, b, c);
    }
  }

  lemma PrependApart(l: Layout, i: nat, base: nat, size: nat, b: int, c: int)
    requires Prepends(l, i, base, size) && b in l.starts + {base} && c in l.starts + {base}
    ensures Apart(Prepend(l, i, base, size), b, c)
  {
    PrependUnused(l, i, base, size);
    if b in l.starts { FreshIsUnused(l, base, size, b); }
    if c in l.starts { FreshIsUnused(l, base, size, c); }
    if b in l.starts && c in l.starts { assert Apart(l, b, c); }
    hide LayoutOk, FreshRange;
  }

  lemma PrependTags(l: Layout, i: nat, base: nat, size: nat)
    requires Prepends(l, i, base, size)
    ensures ChunksOk(Prepend(l, i, base, size))
  {
    var l' := Prepend(l, i, base, size);
    forall b | b in l'.starts ensures ChunkOk(l', b) {
      PrependUnused(l, i, base, size);
      if b == base { PrependNew(l, i, base, size); } else { PrependOld(l, i, base, size, b); }
    }
  }

  lemma PrependNew(l: Layout, i: nat, base: nat, size: nat)
    requires Prepends(l, i, base, size)
    ensures ChunkOk(Prepend(l, i, base, size), base)
  {
    PrependUnused(l, i, base, size);
    var l', n := Prepend(l, i, base, size), base + size;
    assert ChunkOk(l, n);
    FirstWithin(l, i);
    assert Within(l', base, i) && Held(l', base);
    hide LayoutOk, FreshRange, Held, Within;
  }

  /** A segment is at least as long as its first chunk needs. */
  lemma FirstWithin(l: Layout, i: nat)
    requires LayoutOk(l) && i < |l.segs|
    ensures l.segs[i].base + 16 <= EndOf(l.segs[i])
  {
    assert SegmentsOk(l);
    assert ChunkOk(l, l.segs[i].base);
    var j :| Within(l, l.segs[i].base, j);
  }

  lemma PrependOld(l: Layout, i: nat, base: nat, size: nat, b: int)
    requires Prepends(l, i, base, size) && b in l.starts && b != base
    ensures ChunkOk(Prepend(l, i, base, size), b)
  {
    PrependUnused(l, i, base, size);
    var l' := Prepend(l, i, base, size);
    assert ChunkOk(l, b);
    var j :| Within(l, b, j);
    assert Within(l', b, j) && Held(l', b);
    if !PrevInUse(l, b) {
      assert PrevOk(l', b, b - FootAt(l, b));
    }
    hide LayoutOk, FreshRange, Held, Within;
  }

  // ---- A new segment away from all others ---------------------------------------

  /** The fenceposts: used pseudo-chunks of one word each, from one address up to and including another. */
  function Fences(first: int, last: int): (f: set<int>)
    ensures forall x :: x in f <==> first <= x <= last && (x - first) % 8 == 0
    decreases last - first
  {
    if first > last then {} else {first} + Fences(first + 8, last)
  }

  function WithFences(head: map<int, Head>, first: int, last: int): (h: map<int, Head>)
    ensures forall x :: x in h <==> x in head || x in Fences(first, last)
    ensures forall x :: x in h ==>
      h[x] == if x in Fences(first, last) then Head(FENCEPOST_SIZE, true, true) else head[x]
    decreases last - first
  {
    if first > last then head else WithFences(head[first := Head(FENCEPOST_SIZE, true, true)], first + 8, last)
  }

  const SEGMENT_CHUNK: nat := 32

  /** Where the old top's segment ends, and where the chunk for its segment record goes. */
  function OldEnd(l: Layout): int
  {
    l.top + l.topsize + TOP_FOOT_SIZE
  }

  function RecordAt(l: Layout): int
  {
    if l.topsize < MIN_CHUNK_SIZE then l.top else l.top + l.topsize
  }

  /**
   The old top is closed off: the record chunk and fenceposts fill its tail, and what is left of it
   is, for the moment, a used chunk. The new range becomes the top.
   */
  function NewSegment(l: Layout, base: nat, size: nat): Layout
    requires size >= TOP_FOOT_SIZE
  {
    var sp, last := RecordAt(l), OldEnd(l) - 16;
    var h0 := l.head[base := Head(size - TOP_FOOT_SIZE, false, true)][base + size - TOP_FOOT_SIZE :=
      Head(TOP_FOOT_SIZE, false, false)];
    var h1 := WithFences(h0[sp := Head(SEGMENT_CHUNK, true, true)], sp + SEGMENT_CHUNK, last);
    var h2 := if sp == l.top then h1 else h1[l.top := Head(l.topsize, true, true)];
    Layout(l.starts + {sp, base} + Fences(sp + SEGMENT_CHUNK, last), h2, l.foot, base, size - TOP_FOOT_SIZE,
           [Segment(base, size)] + l.segs, l.ends + {last})
  }

  ghost predicate NewSegmentFits(l: Layout, base: nat, size: nat)
  {
    LayoutOk(l) && FreshRange(l, base, size)
  }

  /** The addresses that matter, all inside the old top chunk and its footer, which no other chunk touches. */
  lemma NewSegmentFacts(l: Layout, base: nat, size: nat)
    requires NewSegmentFits(l, base, size)
    ensures var sp, last := RecordAt(l), OldEnd(l) - 16;
      l.top > 0 && l.top % 8 == 0 && l.topsize % 8 == 0 && l.topsize >= FENCEPOST_SIZE && sp % 8 == 0 && l.top <= sp &&
      sp + SEGMENT_CHUNK <= last && (last - sp) % 8 == 0 && size % 8 == 0 && base % 8 == 0 && base > 0 &&
      PrevInUse(l, l.top) && l.top in l.head && l.top in l.starts && l.ends <= l.starts && l.top !in l.ends &&
      base !in l.starts && base != l.top && size > TOP_FOOT_SIZE + MIN_CHUNK_SIZE &&
        (sp == l.top || sp == l.top + l.topsize)
    ensures forall x :: l.top < x < OldEnd(l) ==> x !in l.starts
    ensures exists i ::
      0 <= i < |l.segs| && l.segs[i].base <= l.top && OldEnd(l) == EndOf(l.segs[i]) &&
      (OldEnd(l) <= base || base + size <= l.top)
  {
    OldTopSizes(l, base, size);
    assert SegmentsOk(l) && ChunkOk(l, l.top);
    FreshIsUnused(l, base, size, l.top);
    hide ChunkOk, FreshRange, RecordAt;
    forall x | l.top < x < OldEnd(l) ensures x !in l.starts {
      assert x in l.starts ==> Apart(l, l.top, x);
    }
    var i :| Within(l, l.top, i);
  }

  lemma OldTopSizes(l: Layout, base: nat, size: nat)
    requires NewSegmentFits(l, base, size)
    ensures var sp, last := RecordAt(l), OldEnd(l) - 16;
      l.top > 0 && l.top % 8 == 0 && l.topsize % 8 == 0 && l.topsize >= FENCEPOST_SIZE && sp % 8 == 0 && l.top <= sp &&
      sp + SEGMENT_CHUNK <= last && (last - sp) % 8 == 0 && size % 8 == 0 && base % 8 == 0 && base > 0 &&
      PrevInUse(l, l.top) && l.top in l.head && l.top in l.starts && l.ends <= l.starts && l.top !in l.ends &&
      base !in l.starts && base != l.top && size > TOP_FOOT_SIZE + MIN_CHUNK_SIZE &&
        (sp == l.top || sp == l.top + l.topsize)
  {
    assert SegmentsOk(l) && ChunkOk(l, l.top);
    if base in l.starts { FreshIsUnused(l, base, size, base); }
    FreshIsUnused(l, base, size, l.top);
  }

  lemma NewSegmentOk(l: Layout, base: nat, size: nat)
    requires NewSegmentFits(l, base, size)
    ensures size >= TOP_FOOT_SIZE && LayoutOk(NewSegment(l, base, size))
    ensures l.topsize >= MIN_CHUNK_SIZE ==> Freeable(NewSegment(l, base, size), l.top)
    ensures l.topsize >= MIN_CHUNK_SIZE ==> Next(NewSegment(l, base, size), l.top) == RecordAt(l)
    ensures l.topsize >= MIN_CHUNK_SIZE ==> PrevInUse(NewSegment(l, base, size), l.top)
    ensures l.topsize >= MIN_CHUNK_SIZE ==> InUse(NewSegment(l, base, size), RecordAt(l))
  {
    NewSegmentTags(l, base, size);
    NewSegmentSizes(l, base, size);
    NewSegmentSegments(l, base, size);
    NewSegmentFacts(l, base, size);
  }

  lemma NewSegmentSegments(l: Layout, base: nat, size: nat)
    requires NewSegmentFits(l, base, size)
    ensures SegmentsOk(NewSegment(l, base, size))
  {
    NewSegmentFacts(l, base, size);
    assert SegmentsOk(l);
  }

  lemma NewSegmentSizes(l: Layout, base: nat, size: nat)
    requires NewSegmentFits(l, base, size)
    ensures NoOverlap(NewSegment(l, base, size))
  {
    var l' := NewSegment(l, base, size);
    forall b, c | b in l'.starts && c in l'.starts ensures Apart(l', b, c) {
      NewSegmentApart(l, base, size, b, c);
    }
  }

  /** How far each chunk reaches after the change. */
  lemma NewSegmentExtent(l: Layout, base: nat, size: nat, b: int)
    requires NewSegmentFits(l, base, size) && b in NewSegment(l, base, size).starts
    ensures var l' := NewSegment(l, base, size); var sp, last := RecordAt(l), OldEnd(l) - 16;
      if b == base then Extent(l', b) == base + size && Next(l', b) <= base + size
      else if b == last then Extent(l', b) == OldEnd(l) && Next(l', b) <= OldEnd(l)
      else if b in Fences(sp + SEGMENT_CHUNK, last) then Extent(l', b) == b + 8 == Next(l', b)
      else if b == sp then Extent(l', b) == sp + SEGMENT_CHUNK == Next(l', b)
      else if b == l.top then Extent(l', b) == sp == Next(l', b)
      else b in l.starts && Extent(l', b) == Extent(l, b) && Next(l', b) == Next(l, b)
  {
    NewSegmentFacts(l, base, size);
    NewSegmentHead(l, base, size, b);
  }

  /** The header of each chunk after the change. */
  lemma NewSegmentHead(l: Layout, base: nat, size: nat, b: int)
    requires NewSegmentFits(l, base, size) && b in NewSegment(l, base, size).starts
    ensures b in NewSegment(l, base, size).head || b !in l.head
    ensures var l' := NewSegment(l, base, size); var sp, last := RecordAt(l), OldEnd(l) - 16;
      if b == base then b in l'.head && l'.head[b] == Head(size - TOP_FOOT_SIZE, false, true)
      else if b in Fences(sp + SEGMENT_CHUNK, last) then b in l'.head && l'.head[b] == Head(FENCEPOST_SIZE, true, true)
      else if b == sp then b in l'.head && l'.head[b] == Head(SEGMENT_CHUNK, true, true)
      else if b == l.top then b in l'.head && l'.head[b] == Head(l.topsize, true, true)
      else b in l.starts && (b in l'.head <==> b in l.head) && (b in l.head ==> l'.head[b] == l.head[b])
  {
    NewSegmentFacts(l, base, size);
    if b in l.starts { FreshIsUnused(l, base, size, b); }
    hide LayoutOk, FreshRange;
  }

  lemma NewSegmentApart(l: Layout, base: nat, size: nat, b: int, c: int)
    requires NewSegmentFits(l, base, size) && b in NewSegment(l, base, size).starts &&
      c in NewSegment(l, base, size).starts
    ensures Apart(NewSegment(l, base, size), b, c)
  {
    hide *;
    LayoutSizes();
    NewSegmentFacts(l, base, size);
    NewSegmentExtent(l, base, size, b);
    NewSegmentKinds(l, base, size, b);
    NewSegmentKinds(l, base, size, c);
    if b in l.starts { OldExtent(l, base, size, b, l.top); }
    if c in l.starts { OldExtent(l, base, size, c, l.top); }
    if b in l.starts && c in l.starts { OldExtent(l, base, size, b, c); }
    ApartIs(NewSegment(l, base, size), b, c);
  }

  lemma ApartIs(l: Layout, b: int, c: int)
    ensures Apart(l, b, c) <==> (b < c ==> Next(l, b) <= c && Extent(l, b) <= c)
  {
  }

  /** How far an old chunk reaches, as seen from another one and from the new range. */
  lemma OldExtent(l: Layout, base: nat, size: nat, b: int, c: int)
    requires NewSegmentFits(l, base, size) && b in l.starts && c in l.starts
    ensures b < c ==> Next(l, b) <= c && Extent(l, b) <= c
    ensures b < base ==> Extent(l, b) <= base && Next(l, b) <= base
    ensures b >= base ==> b >= base + size
  {
    FreshIsUnused(l, base, size, b);
    assert Apart(l, b, c);
  }

  lemma NewSegmentKinds(l: Layout, base: nat, size: nat, b: int)
    requires NewSegmentFits(l, base, size) && b in NewSegment(l, base, size).starts
    ensures b in l.starts || b == RecordAt(l) || b == base || b in Fences(RecordAt(l) + SEGMENT_CHUNK, OldEnd(l) - 16)
  {
  }

  lemma NewSegmentTags(l: Layout, base: nat, size: nat)
    requires NewSegmentFits(l, base, size)
    ensures ChunksOk(NewSegment(l, base, size))
  {
    var l' := NewSegment(l, base, size);
    forall b | b in l'.starts ensures ChunkOk(l', b) {
      NewSegmentAny(l, base, size, b);
    }
  }

  lemma NewSegmentAny(l: Layout, base: nat, size: nat, b: int)
    requires NewSegmentFits(l, base, size) && b in NewSegment(l, base, size).starts
    ensures ChunkOk(NewSegment(l, base, size), b)
  {
    var sp, last := RecordAt(l), OldEnd(l) - 16;
    if b == base || b in Fences(sp + SEGMENT_CHUNK, last) || b == sp || b == l.top {
      NewSegmentNew(l, base, size, b);
    } else {
      NewSegmentOld(l, base, size, b);
    }
  }

  lemma NewSegmentHeld(l: Layout, base: nat, size: nat, b: int)
    requires NewSegmentFits(l, base, size) && b in NewSegment(l, base, size).starts
    ensures Held(NewSegment(l, base, size), b)
  {
    var l' := NewSegment(l, base, size);
    NewSegmentFacts(l, base, size);
    NewSegmentExtent(l, base, size, b);
    NewSegmentKeeps(l, base, size, b);
    if b == base {
      NewSegmentHead(l, base, size, b);
      assert Within(l', b, 0);
    } else {
      NewSegmentWithin(l, base, size, b);
    }
  }

  lemma NewSegmentWithin(l: Layout, base: nat, size: nat, b: int)
    requires NewSegmentFits(l, base, size) && b in NewSegment(l, base, size).starts && b != base
    ensures Held(NewSegment(l, base, size), b)
  {
    NewSegmentFacts(l, base, size);
    NewSegmentExtent(l, base, size, b);
    if b in Fences(RecordAt(l) + SEGMENT_CHUNK, OldEnd(l) - 16) || b == RecordAt(l) || b == l.top {
      var i :| 0 <= i < |l.segs| && l.segs[i].base <= l.top && OldEnd(l) == EndOf(l.segs[i]);
      WithinOldTop(l, base, size, b, i);
    } else {
      assert ChunkOk(l, b);
      var i :| Within(l, b, i);
      WithinOld(l, base, size, b, i);
    }
  }

  lemma WithinOldTop(l: Layout, base: nat, size: nat, b: int, i: nat)
    requires NewSegmentFits(l, base, size) && b in NewSegment(l, base, size).starts && b != base
    requires b in Fences(RecordAt(l) + SEGMENT_CHUNK, OldEnd(l) - 16) || b == RecordAt(l) || b == l.top
    requires i < |l.segs| && l.segs[i].base <= l.top && OldEnd(l) == EndOf(l.segs[i])
    ensures Within(NewSegment(l, base, size), b, i + 1)
  {
    hide *;
    LayoutSizes();
    NewSegmentFacts(l, base, size);
    NewSegmentExtent(l, base, size, b);
    NewSegmentKeeps(l, base, size, b);
    assert NewSegment(l, base, size).segs[i + 1] == l.segs[i];
    WithinIs(NewSegment(l, base, size), b, i + 1);
  }

  lemma WithinOld(l: Layout, base: nat, size: nat, b: int, i: int)
    requires NewSegmentFits(l, base, size) && b in l.starts && b != base && Within(l, b, i)
    requires b !in Fences(RecordAt(l) + SEGMENT_CHUNK, OldEnd(l) - 16) && b != RecordAt(l) && b != l.top
    ensures Within(NewSegment(l, base, size), b, i + 1)
  {
    hide *;
    LayoutSizes();
    NewSegmentFacts(l, base, size);
    NewSegmentKeeps(l, base, size, b);
    NewSegmentStays(l, base, size, b);
    NewSegmentExtent(l, base, size, b);
    WithinSays(l, b, i);
    assert NewSegment(l, base, size).segs[i + 1] == l.segs[i];
    WithinIs(NewSegment(l, base, size), b, i + 1);
  }

  lemma NewSegmentStays(l: Layout, base: nat, size: nat, b: int)
    requires size >= TOP_FOOT_SIZE && b in l.starts
    ensures b in NewSegment(l, base, size).starts
  {
  }

  lemma WithinSays(l: Layout, b: int, i: int)
    requires Within(l, b, i) && b != l.top
    ensures 0 <= i < |l.segs| && l.segs[i].base <= b
    ensures if b in l.ends then b + 2 * FENCEPOST_SIZE == EndOf(l.segs[i]) else Next(l, b) + 16 <= EndOf(l.segs[i])
  {
  }

  lemma NewSegmentNew(l: Layout, base: nat, size: nat, b: int)
    requires NewSegmentFits(l, base, size)
    requires b == base || b in Fences(RecordAt(l) + SEGMENT_CHUNK, OldEnd(l) - 16) || b == RecordAt(l) || b == l.top
    ensures b in NewSegment(l, base, size).starts && ChunkOk(NewSegment(l, base, size), b)
  {
    NewSegmentFacts(l, base, size);
    hide NewSegmentFits, ChunkOk;
    if b == base || b == OldEnd(l) - 16 { NewSegmentBounds(l, base, size, b); }
      else { NewSegmentUsed(l, base, size, b); }
  }

  lemma NewSegmentBounds(l: Layout, base: nat, size: nat, b: int)
    requires NewSegmentFits(l, base, size) && (b == base || b == OldEnd(l) - 16)
    ensures b in NewSegment(l, base, size).starts && ChunkOk(NewSegment(l, base, size), b)
  {
    hide *;
    LayoutSizes();
    NewSegmentFacts(l, base, size);
    var l' := NewSegment(l, base, size);
    NewSegmentKeeps(l, base, size, b);
    NewSegmentEdges(l, base, size);
    NewSegmentHeld(l, base, size, b);
    NewSegmentHead(l, base, size, b);
    if b == base { TopChunkOk(l', b); } else { LastFenceOk(l', b); }
  }

  lemma NewSegmentEdges(l: Layout, base: nat, size: nat)
    requires size > TOP_FOOT_SIZE + MIN_CHUNK_SIZE &&
      OldEnd(l) - 16 in Fences(RecordAt(l) + SEGMENT_CHUNK, OldEnd(l) - 16)
    ensures base in NewSegment(l, base, size).starts && OldEnd(l) - 16 in NewSegment(l, base, size).starts
    ensures NewSegment(l, base, size).topsize == size - TOP_FOOT_SIZE
  {
  }

  lemma NewSegmentStarts(l: Layout, base: nat, size: nat, b: int, n: int)
    requires NewSegmentFits(l, base, size) && b != base && b != OldEnd(l) - 16
    requires b in Fences(RecordAt(l) + SEGMENT_CHUNK, OldEnd(l) - 16) || b == RecordAt(l) || b == l.top
    requires n == if b == RecordAt(l) then RecordAt(l) + SEGMENT_CHUNK else if b == l.top then RecordAt(l) else b + 8
    ensures b in NewSegment(l, base, size).starts && n in NewSegment(l, base, size).starts
  {
    NewSegmentFacts(l, base, size);
    hide LayoutOk, FreshRange, NewSegmentFits, WithFences, OldEnd;
  }

  lemma NewSegmentUsed(l: Layout, base: nat, size: nat, b: int)
    requires NewSegmentFits(l, base, size) && b != base && b != OldEnd(l) - 16
    requires b in Fences(RecordAt(l) + SEGMENT_CHUNK, OldEnd(l) - 16) || b == RecordAt(l) || b == l.top
    ensures b in NewSegment(l, base, size).starts && ChunkOk(NewSegment(l, base, size), b)
  {
    hide *;
    LayoutSizes();
    NewSegmentFacts(l, base, size);
    var l' := NewSegment(l, base, size);
    var sp, last := RecordAt(l), OldEnd(l) - 16;
    NewSegmentKeeps(l, base, size, b);
    var n := if b == sp then sp + SEGMENT_CHUNK else if b == l.top then sp else b + 8;
    NewSegmentStarts(l, base, size, b, n);
    NewSegmentHeld(l, base, size, b);
    NewSegmentHead(l, base, size, b);
    NewSegmentHead(l, base, size, n);
    UsedChunkOk(l', b, n);
  }

  lemma NewSegmentOld(l: Layout, base: nat, size: nat, b: int)
    requires NewSegmentFits(l, base, size) && b in l.starts && b != l.top
    requires b != base && b !in Fences(RecordAt(l) + SEGMENT_CHUNK, OldEnd(l) - 16) && b != RecordAt(l)
    ensures ChunkOk(NewSegment(l, base, size), b)
  {
    var l' := NewSegment(l, base, size);
    assert ChunkOk(l, b);
    NewSegmentHeld(l, base, size, b);
    NewSegmentHead(l, base, size, b);
    NewSegmentKeeps(l, base, size, b);
    if b !in l.ends {
      NewSegmentTag(l, base, size, Next(l, b));
    }
    if !PrevInUse(l, b) {
      var q := b - FootAt(l, b);
      NewSegmentFree(l, base, size, q);
      assert PrevOk(l', b, q);
    }
    hide *;
    NewSegmentOldEnds(l, base, size, b);
    SameChunkOk(l, l', b);
  }

  lemma NewSegmentOldEnds(l: Layout, base: nat, size: nat, b: int)
    requires NewSegmentFits(l, base, size) && b in l.starts && b != l.top
    ensures b in NewSegment(l, base, size).ends <==> b in l.ends
    ensures b in l.head && b != NewSegment(l, base, size).top
    ensures FootAt(NewSegment(l, base, size), b) == FootAt(l, b)
    ensures FootAt(NewSegment(l, base, size), Next(l, b)) == FootAt(l, Next(l, b))
  {
    NewSegmentFacts(l, base, size);
    NewSegmentKeeps(l, base, size, b);
    assert ChunkOk(l, b);
    hide NewSegment;
  }

  /** Old chunks keep their tags; the old top, now used, still has a used predecessor. */
  lemma NewSegmentTag(l: Layout, base: nat, size: nat, b: int)
    requires NewSegmentFits(l, base, size) && b in l.starts
    ensures b in NewSegment(l, base, size).starts && PrevInUse(NewSegment(l, base, size), b) == PrevInUse(l, b)
    ensures InUse(l, b) ==> InUse(NewSegment(l, base, size), b)
  {
    NewSegmentFacts(l, base, size);
    NewSegmentHead(l, base, size, b);
  }

  lemma NewSegmentFree(l: Layout, base: nat, size: nat, q: int)
    requires NewSegmentFits(l, base, size) && q in l.starts && !InUse(l, q) && q != l.top
    ensures q in NewSegment(l, base, size).starts && q != base && !InUse(NewSegment(l, base, size), q)
    ensures Next(NewSegment(l, base, size), q) == Next(l, q)
  {
    NewSegmentFacts(l, base, size);
    NewSegmentHead(l, base, size, q);
    NewSegmentExtent(l, base, size, q);
  }

  lemma NewSegmentKeeps(l: Layout, base: nat, size: nat, b: int)
    requires NewSegmentFits(l, base, size)
    ensures NewSegment(l, base, size).top == base && NewSegment(l, base, size).foot == l.foot
    ensures NewSegment(l, base, size).segs == [Segment(base, size)] + l.segs
    ensures NewSegment(l, base, size).ends == l.ends + {OldEnd(l) - 16} && OldEnd(l) - 16 !in l.starts
    ensures OldEnd(l) - 16 in Fences(RecordAt(l) + SEGMENT_CHUNK, OldEnd(l) - 16)
  {
    NewSegmentFacts(l, base, size);
  }
}
