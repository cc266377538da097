/** What it means for the bins of the allocator to be well formed, as predicates on plain values. */
module AllocBins {
  import opened AllocTrie
  import opened AllocLinks

  const NSMALLBINS: nat := 32
  const MIN_CHUNK_SIZE: nat := 32
  const MIN_LARGE_SIZE: nat := 256

  function SmallIndex(s: nat): nat { s / 8 }

  /** Every chunk on the list for a size has that size. */
  ghost predicate ListOk(head: map<int, Head>, bins: Bins, s: nat)
  {
    s in bins && MIN_CHUNK_SIZE <= s < INDEX_LIMIT && s % 8 == 0 && bins[s] != [] &&
    forall a :: a in bins[s] ==> a > 0 && a in head && head[a].size == s
  }

  ghost predicate Listed(head: map<int, Head>, bins: Bins)
  {
    forall s :: s in bins ==> ListOk(head, bins, s)
  }

  /** A small bin is a circle through its list head; the bitmap tells which bins are not empty. */
  ghost predicate SmallOk(k: Links, bins: Bins, s: nat)
  {
    s in bins && Cycle(k.fd, k.bk, [SmallBinAt(SmallIndex(s))] + bins[s])
  }

  ghost predicate SmallsOk(k: Links, smallmap: set<nat>, bins: Bins)
  {
    (forall s :: s in bins && s < MIN_LARGE_SIZE ==> SmallOk(k, bins, s)) &&
    (forall i :: i in smallmap ==> i < NSMALLBINS) &&
    forall i: nat :: i < NSMALLBINS ==> (i in smallmap <==> 8 * i in bins)
  }

  /** Chunks of one large size form a ring; only its first chunk takes part in the tree. */
  ghost predicate RingOk(k: Links, bins: Bins, s: nat)
  {
    s in bins && Cycle(k.fd, k.bk, bins[s]) &&
    (forall i :: 0 <= i < |bins[s]| ==> At(k.index, bins[s][i]) == TreeIndex(s)) &&
    (forall i :: 1 <= i < |bins[s]| ==> Spare(k, bins[s][i]))
  }

  predicate Spare(k: Links, a: int)
  {
    At(k.parent, a) == 0 && At(k.child0, a) == 0 && At(k.child1, a) == 0
  }

  ghost predicate RingsOk(k: Links, bins: Bins)
  {
    forall s :: s in bins && s >= MIN_LARGE_SIZE ==> RingOk(k, bins, s)
  }

  /** Tree bin i is a trie of exactly the binned sizes whose index is i. */
  ghost predicate TreeOk(k: Links, treemap: set<nat>, treebins: seq<int>, bins: Bins, tries: seq<Trie>, i: nat)
  {
    |treebins| == NTREEBINS && |tries| == NTREEBINS && i < NTREEBINS &&
    TrieOk(tries[i], LowOf(i), LevelOf(i)) && Rep(k, bins, treebins[i], TreeBinAt(i), tries[i]) &&
    (i in treemap <==> tries[i].Node?) &&
    forall s :: s in Sizes(tries[i]) <==> s in bins && s >= MIN_LARGE_SIZE && TreeIndex(s) == i
  }

  ghost predicate TreesOk(k: Links, treemap: set<nat>, treebins: seq<int>, bins: Bins, tries: seq<Trie>)
  {
    |treebins| == NTREEBINS && |tries| == NTREEBINS &&
    (forall i :: i in treemap ==> i < NTREEBINS) &&
    forall i: nat :: i < NTREEBINS ==> TreeOk(k, treemap, treebins, bins, tries, i)
  }

  ghost predicate BinsOk(head: map<int, Head>, k: Links, smallmap: set<nat>, treemap: set<nat>,
                         treebins: seq<int>, bins: Bins, tries: seq<Trie>)
  {
    Listed(head, bins) && SmallsOk(k, smallmap, bins) && RingsOk(k, bins) &&
    TreesOk(k, treemap, treebins, bins, tries)
  }

  lemma ListsInjective(head: map<int, Head>, bins: Bins)
    requires Listed(head, bins)
    ensures Injective(bins)
  {
    forall s, q | s in bins && q in bins && s != q && bins[s] != [] && bins[q] != []
      ensures bins[s][0] != bins[q][0]
    {
      assert ListOk(head, bins, s) && ListOk(head, bins, q);
      assert bins[s][0] in bins[s] && bins[q][0] in bins[q];
    }
  }

  lemma SizeAt(head: map<int, Head>, bins: Bins, s: nat)
    requires Listed(head, bins) && s in bins
    ensures bins[s] != [] && bins[s][0] > 0 && bins[s][0] in head && head[bins[s][0]].size == s
  {
    assert ListOk(head, bins, s);
    assert bins[s][0] in bins[s];
  }

  /** Lists of different sizes share no chunk. */
  lemma ListsDisjoint(head: map<int, Head>, bins: Bins, s: nat, q: nat, a: int)
    requires Listed(head, bins) && s in bins && q in bins && s != q && a in bins[s]
    ensures a !in bins[q]
  {
    assert ListOk(head, bins, s) && ListOk(head, bins, q);
  }

  /** The bins only know chunk sizes, so header writes that keep those of binned chunks do not disturb them. */
  lemma BinsOkFrame(head: map<int, Head>, head': map<int, Head>, k: Links, smallmap: set<nat>, treemap: set<nat>,
                    treebins: seq<int>, bins: Bins, tries: seq<Trie>)
    requires BinsOk(head, k, smallmap, treemap, treebins, bins, tries)
    requires forall s, a :: s in bins && a in bins[s] ==> a in head' && head'[a].size == s
    ensures BinsOk(head', k, smallmap, treemap, treebins, bins, tries)
  {
    forall s | s in bins ensures ListOk(head', bins, s) {
      assert ListOk(head, bins, s);
    }
  }

  predicate SameLinks(k: Links, k': Links, a: int)
  {
    At(k'.fd, a) == At(k.fd, a) && At(k'.bk, a) == At(k.bk, a)
  }

  /** Lists that keep their links keep their shape. */
  ghost predicate SameRing(k: Links, k': Links, bins: Bins, s: nat)
  {
    s in bins && forall a :: a in bins[s] ==> SameLinks(k, k', a)
  }

  ghost predicate SameList(k: Links, k': Links, bins: Bins, s: nat)
  {
    SameRing(k, k', bins, s) && SameLinks(k, k', SmallBinAt(SmallIndex(s)))
  }

  lemma SmallsFrame(k: Links, k': Links, smallmap: set<nat>, bins: Bins, smallmap': set<nat>, bins': Bins, s: nat)
    requires SmallsOk(k, smallmap, bins)
    requires forall q :: q != s ==> (q in bins' <==> q in bins)
    requires forall q :: q in bins && q != s ==> bins'[q] == bins[q]
    requires forall q :: q in bins && q != s && q < MIN_LARGE_SIZE ==> SameList(k, k', bins, q)
    requires s in bins' && s < MIN_LARGE_SIZE ==> SmallOk(k', bins', s)
    requires s % 8 == 0
    requires s >= MIN_LARGE_SIZE ==> smallmap' == smallmap
    requires s < MIN_LARGE_SIZE ==>
      smallmap' == if s in bins' then smallmap + {SmallIndex(s)} else smallmap - {SmallIndex(s)}
    ensures SmallsOk(k', smallmap', bins')
  {
    forall q | q in bins' && q < MIN_LARGE_SIZE ensures SmallOk(k', bins', q) {
      if q != s {
        assert SmallOk(k, bins, q) && SameList(k, k', bins, q);
        CycleFrame(k.fd, k.bk, k'.fd, k'.bk, [SmallBinAt(SmallIndex(q))] + bins[q]);
      }
    }
    forall i: nat | i < NSMALLBINS ensures i in smallmap' <==> 8 * i in bins' {
      assert i in smallmap <==> 8 * i in bins;
    }
  }

  lemma RingsFrame(k: Links, k': Links, bins: Bins, bins': Bins, s: nat)
    requires RingsOk(k, bins)
    requires forall q :: q in bins' && q != s ==> q in bins && bins'[q] == bins[q]
    requires forall q :: q in bins && q != s && q >= MIN_LARGE_SIZE ==>
      SameRing(k, k', bins, q) && SpareStays(k, k', bins, q)
    requires s in bins' && s >= MIN_LARGE_SIZE ==> RingOk(k', bins', s)
    ensures RingsOk(k', bins')
  {
    forall q | q in bins' && q >= MIN_LARGE_SIZE ensures RingOk(k', bins', q) {
      if q != s {
        assert RingOk(k, bins, q) && SameRing(k, k', bins, q) && SpareStays(k, k', bins, q);
        CycleFrame(k.fd, k.bk, k'.fd, k'.bk, bins[q]);
      }
    }
  }

  ghost predicate SpareStays(k: Links, k': Links, bins: Bins, s: nat)
  {
    s in bins && forall i :: 0 <= i < |bins[s]| ==>
      At(k'.index, bins[s][i]) == At(k.index, bins[s][i]) &&
      (i > 0 && Spare(k, bins[s][i]) ==> Spare(k', bins[s][i]))
  }

  /** Bin i gets a new trie; the nodes of all other bins are untouched. */
  lemma TreesFrame(k: Links, k': Links, treemap: set<nat>, treebins: seq<int>, bins: Bins, tries: seq<Trie>,
                   treemap': set<nat>, treebins': seq<int>, bins': Bins, tries': seq<Trie>, i: nat)
    requires TreesOk(k, treemap, treebins, bins, tries)
    requires |treebins'| == NTREEBINS && |tries'| == NTREEBINS && i <= NTREEBINS
    requires forall j: nat :: j < NTREEBINS && j != i ==> tries'[j] == tries[j] && treebins'[j] == treebins[j]
    requires forall j :: j != i ==> (j in treemap' <==> j in treemap)
    requires forall q :: q >= MIN_LARGE_SIZE && TreeIndex(q) != i ==> (q in bins' <==> q in bins)
    requires forall q :: q in bins && q >= MIN_LARGE_SIZE && TreeIndex(q) != i ==> SameNode(k, bins, k', bins', q)
    requires i < NTREEBINS ==> TreeOk(k', treemap', treebins', bins', tries', i)
    requires i == NTREEBINS ==> i !in treemap'
    ensures TreesOk(k', treemap', treebins', bins', tries')
  {
    forall j: nat | j < NTREEBINS ensures TreeOk(k', treemap', treebins', bins', tries', j) {
      assert TreeOk(k, treemap, treebins, bins, tries, j);
      if j != i {
        RepFrame(k, bins, k', bins', treebins[j], TreeBinAt(j), tries[j]);
      }
    }
  }
}
