/** The bin macros of the allocator, each proved to keep the bins well formed. */
module AllocBinOps {
  import opened Arith
  import opened AllocTrie
  import opened AllocLinks
  import opened AllocBins

  ghost predicate InList(bins: Bins, s: nat, a: int)
  {
    s in bins && a in bins[s]
  }

  ghost predicate NotBinned(bins: Bins, a: int)
  {
    forall s :: s in bins ==> a !in bins[s]
  }

  /** bins' is bins with chunk p of size s put in. */
  ghost predicate Added(bins: Bins, bins': Bins, s: nat, p: int)
  {
    (forall q :: q != s ==> (q in bins' <==> q in bins)) &&
    (forall q :: q in bins && q != s ==> bins'[q] == bins[q]) &&
    s in bins' && forall a :: a in bins'[s] <==> a == p || InList(bins, s, a)
  }

  /** bins' is bins with chunk p of size s taken out. */
  ghost predicate Removed(bins: Bins, bins': Bins, s: nat, p: int)
  {
    (forall q :: q != s ==> (q in bins' <==> q in bins)) &&
    (forall q :: q in bins && q != s ==> bins'[q] == bins[q]) &&
    InList(bins, s, p) &&
    forall a :: InList(bins', s, a) <==> InList(bins, s, a) && a != p
  }

  // ---- Small bins --------------------------------------------------------

  function LinkBehind(k: Links, b: int, f: int, p: int): Links
  {
    k.(fd := k.fd[b := p][p := f], bk := k.bk[f := p][p := b])
  }

  function Bridge(k: Links, b: int, f: int): Links
  {
    k.(fd := k.fd[b := f], bk := k.bk[f := b])
  }

  lemma AddedListed(head: map<int, Head>, bins: Bins, bins': Bins, s: nat, p: int)
    requires Listed(head, bins) && Added(bins, bins', s, p)
    requires p > 0 && p in head && head[p].size == s && MIN_CHUNK_SIZE <= s < INDEX_LIMIT && s % 8 == 0
    ensures Listed(head, bins')
  {
    forall q | q in bins' ensures ListOk(head, bins', q) {
      if q != s || s in bins {
        assert ListOk(head, bins, q);
      }
      if q == s {
        assert p in bins'[s];
      }
    }
  }

  lemma RemovedListed(head: map<int, Head>, bins: Bins, bins': Bins, s: nat, p: int)
    requires Listed(head, bins) && Removed(bins, bins', s, p)
    requires s in bins' ==> bins'[s] != []
    ensures Listed(head, bins')
  {
    forall q | q in bins' ensures ListOk(head, bins', q) {
      if q == s {
        assert bins'[s][0] in bins'[s];
        assert InList(bins', s, bins'[s][0]);
      }
      assert ListOk(head, bins, q);
      forall a | a in bins'[q] ensures a > 0 && a in head && head[a].size == q {
        assert InList(bins', q, a);
      }
    }
  }

  /** Which words an operation on the list of one size may write, and where in the trees. */
  ghost predicate Local(k: Links, k': Links, bins: Bins, s: nat, i: nat, p: int)
  {
    (forall a :: !SameLinks(k, k', a) ==>
      a == p || InList(bins, s, a) || (s < MIN_LARGE_SIZE && a == SmallBinAt(SmallIndex(s)))) &&
    (forall a :: At(k'.index, a) != At(k.index, a) ==> a == p) &&
    forall a :: !SameTree(k, k', a) ==> a == p || InList(bins, s, a) || NodeOf(bins, i, a)
  }

  predicate SameTree(k: Links, k': Links, a: int)
  {
    At(k'.parent, a) == At(k.parent, a) && At(k'.child0, a) == At(k.child0, a) && At(k'.child1, a) == At(k.child1, a)
  }

  /** Chunk a is a node of tree bin i. */
  ghost predicate NodeOf(bins: Bins, i: nat, a: int)
  {
    exists q :: q in bins && q >= MIN_LARGE_SIZE && TreeIndex(q) == i && bins[q] != [] && bins[q][0] == a
  }

  lemma OtherListsKept(head: map<int, Head>, k: Links, k': Links, bins: Bins, s: nat, i: nat, p: int)
    requires Listed(head, bins) && Local(k, k', bins, s, i, p) && s % 8 == 0
    requires p > 0 && (NotBinned(bins, p) || InList(bins, s, p))
    ensures forall q :: q in bins && q != s ==> SameRing(k, k', bins, q)
    ensures forall q :: q in bins && q != s && q < MIN_LARGE_SIZE ==> SameList(k, k', bins, q)
  {
    forall q | q in bins && q != s
      ensures SameRing(k, k', bins, q)
      ensures q < MIN_LARGE_SIZE ==> SameList(k, k', bins, q)
    {
      assert ListOk(head, bins, q);
      forall a | a in bins[q] ensures SameLinks(k, k', a) {
        if s in bins {
          ListsDisjoint(head, bins, q, s, a);
        }
      }
      if q < MIN_LARGE_SIZE {
        var b := SmallBinAt(SmallIndex(q));
        if s in bins {
          assert ListOk(head, bins, s);
        }
        assert !InList(bins, s, b);
        assert SameLinks(k, k', b);
      }
    }
  }

  lemma OtherNodesKept(head: map<int, Head>, k: Links, k': Links, bins: Bins, bins': Bins, s: nat, i: nat, p: int)
    requires Listed(head, bins) && RingsOk(k, bins) && Local(k, k', bins, s, i, p)
    requires p > 0 && (NotBinned(bins, p) || InList(bins, s, p))
    requires forall q :: q in bins && q != s ==> q in bins' && bins'[q] == bins[q]
    ensures forall q :: q in bins && q != s && q >= MIN_LARGE_SIZE ==> SpareStays(k, k', bins, q)
    ensures forall q :: q in bins && q != s && q >= MIN_LARGE_SIZE && TreeIndex(q) != i ==>
      SameNode(k, bins, k', bins', q)
  {
    forall q | q in bins && q != s && q >= MIN_LARGE_SIZE
      ensures SpareStays(k, k', bins, q)
      ensures TreeIndex(q) != i ==> SameNode(k, bins, k', bins', q)
    {
      assert ListOk(head, bins, q) && RingOk(k, bins, q);
      forall j | 0 <= j < |bins[q]| && (j > 0 || TreeIndex(q) != i)
        ensures SameTree(k, k', bins[q][j])
      {
        OtherChunk(head, bins, s, i, p, q, bins[q][j]);
      }
      forall j | 0 <= j < |bins[q]| ensures At(k'.index, bins[q][j]) == At(k.index, bins[q][j]) {
        assert bins[q][j] in bins[q];
      }
    }
  }

  /** A chunk of another size is none of those an operation touches, unless it is a node of the same tree. */
  lemma OtherChunk(head: map<int, Head>, bins: Bins, s: nat, i: nat, p: int, q: nat, a: int)
    requires Listed(head, bins) && (NotBinned(bins, p) || InList(bins, s, p))
    requires InList(bins, q, a) && q != s
    ensures a != p && !InList(bins, s, a)
    ensures NodeOf(bins, i, a) ==> bins[q] != [] && a == bins[q][0] && TreeIndex(q) == i
  {
    if s in bins {
      ListsDisjoint(head, bins, q, s, a);
    }
    if NodeOf(bins, i, a) {
      var r :| r in bins && r >= MIN_LARGE_SIZE && TreeIndex(r) == i && bins[r] != [] && bins[r][0] == a;
      if r != q {
        ListsDisjoint(head, bins, q, r, a);
      }
    }
  }

  // ---- Whole operations --------------------------------------------------

  lemma SmallOpOk(head: map<int, Head>, k: Links, smallmap: set<nat>, treemap: set<nat>, treebins: seq<int>,
                  bins: Bins, tries: seq<Trie>, k': Links, smallmap': set<nat>, bins': Bins, s: nat, p: int)
    requires BinsOk(head, k, smallmap, treemap, treebins, bins, tries) && s % 8 == 0 && s < MIN_LARGE_SIZE
    requires p > 0 && (NotBinned(bins, p) || InList(bins, s, p))
    requires Local(k, k', bins, s, NTREEBINS, p) && forall a :: SameTree(k, k', a)
    requires Listed(head, bins')
    requires forall q :: q != s ==> (q in bins' <==> q in bins)
    requires forall q :: q in bins && q != s ==> bins'[q] == bins[q]
    requires s in bins' ==> SmallOk(k', bins', s)
    requires smallmap' == if s in bins' then smallmap + {SmallIndex(s)} else smallmap - {SmallIndex(s)}
    ensures BinsOk(head, k', smallmap', treemap, treebins, bins', tries)
  {
    OtherListsKept(head, k, k', bins, s, NTREEBINS, p);
    OtherNodesKept(head, k, k', bins, bins', s, NTREEBINS, p);
    SmallsFrame(k, k', smallmap, bins, smallmap', bins', s);
    RingsFrame(k, k', bins, bins', s);
    forall q | q in bins && q >= MIN_LARGE_SIZE ensures SameNode(k, bins, k', bins', q) {
      assert ListOk(head, bins, q);
    }
    TreesFrame(k, k', treemap, treebins, bins, tries, treemap, treebins, bins', tries, NTREEBINS);
  }

  lemma LargeOpOk(head: map<int, Head>, k: Links, smallmap: set<nat>, treemap: set<nat>, treebins: seq<int>,
                  bins: Bins, tries: seq<Trie>, k': Links, treemap': set<nat>, treebins': seq<int>,
                  bins': Bins, tries': seq<Trie>, s: nat, p: int)
    requires BinsOk(head, k, smallmap, treemap, treebins, bins, tries) && s % 8 == 0 && s >= MIN_LARGE_SIZE
    requires p > 0 && (NotBinned(bins, p) || InList(bins, s, p))
    requires Local(k, k', bins, s, TreeIndex(s), p)
    requires Listed(head, bins')
    requires forall q :: q != s ==> (q in bins' <==> q in bins)
    requires forall q :: q in bins && q != s ==> bins'[q] == bins[q]
    requires s in bins' ==> RingOk(k', bins', s)
    requires |treebins'| == NTREEBINS && |tries'| == NTREEBINS
    requires forall j: nat :: j < NTREEBINS && j != TreeIndex(s) ==>
      tries'[j] == tries[j] && treebins'[j] == treebins[j]
    requires forall j :: j != TreeIndex(s) ==> (j in treemap' <==> j in treemap)
    requires TreeOk(k', treemap', treebins', bins', tries', TreeIndex(s))
    ensures BinsOk(head, k', smallmap, treemap', treebins', bins', tries')
  {
    var i := TreeIndex(s);
    OtherListsKept(head, k, k', bins, s, i, p);
    OtherNodesKept(head, k, k', bins, bins', s, i, p);
    SmallsFrame(k, k', smallmap, bins, smallmap, bins', s);
    RingsFrame(k, k', bins, bins', s);
    TreesFrame(k, k', treemap, treebins, bins, tries, treemap', treebins', bins', tries', i);
  }

  ghost function List(bins: Bins, s: nat): seq<int>
  {
    if s in bins then bins[s] else []
  }

  lemma LinkBehindLocal(k: Links, bins: Bins, s: nat, i: nat, b: int, f: int, p: int)
    requires s < MIN_LARGE_SIZE && b == SmallBinAt(SmallIndex(s)) && (f == b || InList(bins, s, f))
    ensures Local(k, LinkBehind(k, b, f, p), bins, s, i, p)
    ensures forall a :: SameTree(k, LinkBehind(k, b, f, p), a)
  {
  }

  /** Where a new chunk is linked in: behind the list head, before the old first chunk if there is one. */
  function FirstOrHead(k: Links, smallmap: set<nat>, i: nat): int
  {
    if i in smallmap then At(k.fd, SmallBinAt(i)) else SmallBinAt(i)
  }

  lemma InsertSmallShape(k: Links, smallmap: set<nat>, bins: Bins, p: int, s: nat)
    requires SmallsOk(k, smallmap, bins) && NotBinned(bins, p) && p > 0 && s % 8 == 0 && s < MIN_LARGE_SIZE
    requires s in bins ==> bins[s] != []
    ensures var f := FirstOrHead(k, smallmap, SmallIndex(s)); f == SmallBinAt(SmallIndex(s)) || InList(bins, s, f)
    ensures var b := SmallBinAt(SmallIndex(s));
      var k' := LinkBehind(k, b, FirstOrHead(k, smallmap, SmallIndex(s)), p);
      Cycle(k'.fd, k'.bk, [b] + ([p] + List(bins, s)))
  {
    var b := SmallBinAt(SmallIndex(s));
    assert 8 * SmallIndex(s) == s;
    if s in bins {
      assert SmallOk(k, bins, s);
      CycleInsert(k.fd, k.bk, [b] + bins[s], p);
      assert [b, p] + ([b] + bins[s])[1..] == [b] + ([p] + bins[s]);
    }
  }

  lemma InsertSmallOk(head: map<int, Head>, k: Links, smallmap: set<nat>, treemap: set<nat>, treebins: seq<int>,
                      bins: Bins, tries: seq<Trie>, p: int, s: nat)
    requires BinsOk(head, k, smallmap, treemap, treebins, bins, tries)
    requires p > 0 && p in head && head[p].size == s && s % 8 == 0 && MIN_CHUNK_SIZE <= s < MIN_LARGE_SIZE
    requires NotBinned(bins, p)
    ensures var i := SmallIndex(s); var bins' := bins[s := [p] + List(bins, s)];
      Added(bins, bins', s, p) &&
      BinsOk(head, LinkBehind(k, SmallBinAt(i), FirstOrHead(k, smallmap, i), p), smallmap + {i},
             treemap, treebins, bins', tries)
  {
    var i := SmallIndex(s);
    var b, f := SmallBinAt(i), FirstOrHead(k, smallmap, i);
    var bins' := bins[s := [p] + List(bins, s)];
    if s in bins {
      assert ListOk(head, bins, s);
    }
    InsertSmallShape(k, smallmap, bins, p, s);
    LinkBehindLocal(k, bins, s, NTREEBINS, b, f, p);
    AddedListed(head, bins, bins', s, p);
    SmallOpOk(head, k, smallmap, treemap, treebins, bins, tries, LinkBehind(k, b, f, p), smallmap + {i}, bins', s, p);
  }

  // ---- Taking a chunk from a small bin -----------------------------------

  /** The index of a chunk in its list. */
  ghost function IndexIn(c: seq<int>, p: int): (j: nat)
    requires p in c
    ensures j < |c| && c[j] == p
  {
    if c[0] == p then 0 else IndexIn(c[1..], p) + 1
  }

  ghost function Without(bins: Bins, s: nat, p: int): Bins
    requires InList(bins, s, p)
  {
    if |bins[s]| == 1 then bins - {s} else bins[s := RemoveAt(bins[s], IndexIn(bins[s], p))]
  }

  lemma RemoveAtMembers(c: seq<int>, j: nat)
    requires j < |c| && Distinct(c)
    ensures forall a :: a in RemoveAt(c, j) <==> a in c && a != c[j]
  {
    var r := RemoveAt(c, j);
    forall a | a in c && a != c[j] ensures a in r {
      var i :| 0 <= i < |c| && c[i] == a;
      assert r[if i < j then i else i - 1] == a;
    }
    forall a | a in r ensures a in c && a != c[j] {
      var i :| 0 <= i < |r| && r[i] == a;
      assert a == c[if i < j then i else i + 1];
    }
  }

  lemma WithoutRemoved(bins: Bins, s: nat, p: int)
    requires InList(bins, s, p) && Distinct(bins[s])
    ensures Removed(bins, Without(bins, s, p), s, p)
    ensures s in Without(bins, s, p) ==> Without(bins, s, p)[s] != []
  {
    RemoveAtMembers(bins[s], IndexIn(bins[s], p));
  }

  lemma UnlinkSmallShape(k: Links, bins: Bins, p: int, s: nat)
    requires SmallOk(k, bins, s) && InList(bins, s, p)
    requires SmallBinAt(SmallIndex(s)) !in bins[s]
    ensures var f, b := At(k.fd, p), At(k.bk, p); var h := SmallBinAt(SmallIndex(s));
      (f == h || InList(bins, s, f)) && (b == h || InList(bins, s, b)) && f != p && b != p &&
      (f == b <==> |bins[s]| == 1)
    ensures |bins[s]| > 1 ==> SmallOk(Bridge(k, At(k.bk, p), At(k.fd, p)), Without(bins, s, p), s)
    ensures p == bins[s][0] <==> At(k.bk, p) == SmallBinAt(SmallIndex(s))
    ensures At(k.fd, SmallBinAt(SmallIndex(s))) == bins[s][0]
  {
    var h := SmallBinAt(SmallIndex(s));
    var c, j := [h] + bins[s], IndexIn(bins[s], p);
    assert c[j + 1] == p && At(k.fd, c[0]) == c[1];
    CycleRemove(k.fd, k.bk, c, j + 1);
    assert RemoveAt(c, j + 1) == [h] + RemoveAt(bins[s], j);
    assert At(k.fd, p) == if j + 1 == |c| - 1 then c[0] else c[j + 2];
    assert At(k.bk, p) == c[j];
  }

  lemma UnlinkSmallOk(head: map<int, Head>, k: Links, smallmap: set<nat>, treemap: set<nat>, treebins: seq<int>,
                      bins: Bins, tries: seq<Trie>, p: int, s: nat)
    requires BinsOk(head, k, smallmap, treemap, treebins, bins, tries)
    requires InList(bins, s, p) && s < MIN_LARGE_SIZE
    ensures At(k.fd, SmallBinAt(SmallIndex(s))) == bins[s][0]
    ensures p == bins[s][0] ==> At(k.bk, p) == SmallBinAt(SmallIndex(s))
    ensures Removed(bins, Without(bins, s, p), s, p)
    ensures var f, b := At(k.fd, p), At(k.bk, p);
      if f == b
      then BinsOk(head, k, smallmap - {SmallIndex(s)}, treemap, treebins, Without(bins, s, p), tries)
      else BinsOk(head, Bridge(k, b, f), smallmap, treemap, treebins, Without(bins, s, p), tries)
  {
    var f, b := At(k.fd, p), At(k.bk, p);
    var bins' := Without(bins, s, p);
    SmallListFacts(head, k, bins, s);
    UnlinkSmallShape(k, bins, p, s);
    WithoutRemoved(bins, s, p);
    RemovedListed(head, bins, bins', s, p);
    BridgeLocal(k, bins, s, NTREEBINS, b, f, p);
    if f == b {
      SmallOpOk(head, k, smallmap, treemap, treebins, bins, tries, k, smallmap - {SmallIndex(s)}, bins', s, p);
    } else {
      assert SmallIndex(s) in smallmap;
      assert smallmap + {SmallIndex(s)} == smallmap;
      SmallOpOk(head, k, smallmap, treemap, treebins, bins, tries, Bridge(k, b, f), smallmap, bins', s, p);
    }
  }

  lemma SmallListFacts(head: map<int, Head>, k: Links, bins: Bins, s: nat)
    requires Listed(head, bins) && s in bins && SmallOk(k, bins, s)
    ensures ListOk(head, bins, s) && Distinct(bins[s]) && SmallBinAt(SmallIndex(s)) !in bins[s]
    ensures 8 * SmallIndex(s) == s
  {
    assert ListOk(head, bins, s);
    assert forall i :: 0 <= i < |bins[s]| ==> bins[s][i] == ([SmallBinAt(SmallIndex(s))] + bins[s])[i + 1];
  }

  lemma BridgeLocal(k: Links, bins: Bins, s: nat, i: nat, b: int, f: int, p: int)
    requires f == SmallBinAt(SmallIndex(s)) || InList(bins, s, f)
    requires b == SmallBinAt(SmallIndex(s)) || InList(bins, s, b)
    requires s < MIN_LARGE_SIZE || (InList(bins, s, f) && InList(bins, s, b))
    ensures Local(k, Bridge(k, b, f), bins, s, i, p) && Local(k, k, bins, s, i, p)
    ensures forall a :: SameTree(k, Bridge(k, b, f), a)
  {
  }
}
