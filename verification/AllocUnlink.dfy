/** Taking a chunk out of a large bin: out of its ring, and out of the tree when it stood for the ring. */
module AllocUnlink {
  import opened Arith
  import opened AllocTrie
  import opened AllocLinks
  import opened AllocBins
  import opened AllocBinOps
  import opened AllocTreeOps

  // ---- Looking for the leaf that moves up --------------------------------

  /** The walk below x stands at chunk r, held by the given slot of chunk h, with subtree cur. */
  ghost predicate LeafWalk(k: Links, bins: Bins, sub: Trie, r: int, h: int, side: bool, hs: nat, cur: Trie)
  {
    sub.Node? && !IsLeaf(sub) && cur.Node? && Rep(k, bins, r, At(k.parent, r), cur) && LeafOf(cur) == LeafOf(sub) &&
    hs in bins && bins[hs] != [] && h == bins[hs][0] &&
    (if IsLeaf(cur) then Holder(sub) == (hs, side) else Holder(sub) == Holder(cur))
  }

  lemma LeafWalkStart(k: Links, bins: Bins, x: int, par: int, sub: Trie)
    requires sub.Node? && Rep(k, bins, x, par, sub)
    ensures At(k.child1, x) != 0 <==> sub.right.Node?
    ensures At(k.child0, x) != 0 <==> sub.left.Node?
    ensures sub.right.Node? ==> LeafWalk(k, bins, sub, At(k.child1, x), x, true, sub.size, sub.right)
    ensures sub.left.Node? && sub.right == Nil ==> LeafWalk(k, bins, sub, At(k.child0, x), x, false, sub.size, sub.left)
  {
  }

  lemma LeafWalkStep(k: Links, bins: Bins, sub: Trie, r: int, h: int, side: bool, hs: nat, cur: Trie)
    requires LeafWalk(k, bins, sub, r, h, side, hs, cur)
    ensures At(k.child1, r) != 0 <==> cur.right.Node?
    ensures At(k.child0, r) != 0 <==> cur.left.Node?
    ensures cur.right.Node? ==> LeafWalk(k, bins, sub, At(k.child1, r), r, true, cur.size, cur.right)
    ensures cur.left.Node? && cur.right == Nil ==> LeafWalk(k, bins, sub, At(k.child0, r), r, false, cur.size, cur.left)
    ensures IsLeaf(cur) ==> Holder(sub) == (hs, side)
    ensures IsLeaf(cur) ==> LeafOf(sub) in bins && bins[LeafOf(sub)] != [] && r == bins[LeafOf(sub)][0]
    ensures hs in bins && bins[hs] != [] && h == bins[hs][0] && sub.Node? && !IsLeaf(sub)
  {
    RepChild(k, bins, r, cur, true);
    RepChild(k, bins, r, cur, false);
    if cur.right.Node? {
      assert LeafOf(cur) == LeafOf(cur.right);
      assert Holder(cur) == if IsLeaf(cur.right) then (cur.size, true) else Holder(cur.right);
    } else if cur.left.Node? {
      assert LeafOf(cur) == LeafOf(cur.left);
      assert Holder(cur) == if IsLeaf(cur.left) then (cur.size, false) else Holder(cur.left);
    }
  }

  /** The leaf that unlinking moves into the hole at x, and the slot that holds it; null when x has no child. */
  method FindLeaf(k: Links, ghost bins: Bins, x: int, ghost par: int, ghost sub: Trie)
    returns (r: int, h: int, side: bool)
    requires sub.Node? && Rep(k, bins, x, par, sub)
    ensures r == 0 <==> IsLeaf(sub)
    ensures r != 0 ==>
      Holder(sub).0 in bins && bins[Holder(sub).0] != [] && h == bins[Holder(sub).0][0] && side == Holder(sub).1
    ensures r != 0 ==> LeafOf(sub) in bins && bins[LeafOf(sub)] != [] && r == bins[LeafOf(sub)][0]
  {
    LeafWalkStart(k, bins, x, par, sub);
    h, side := x, true;
    r := At(k.child1, x);
    ghost var cur, hs := sub.right, sub.size;
    if r == 0 {
      side := false;
      r := At(k.child0, x);
      cur := sub.left;
    }
    if r != 0 {
      assert !IsLeaf(sub);
      LeafWalkStep(k, bins, sub, r, h, side, hs, cur);
      while At(k.child1, r) != 0 || At(k.child0, r) != 0
        invariant LeafWalk(k, bins, sub, r, h, side, hs, cur)
        decreases cur
      {
        hide LeafWalk, Rep;
        LeafWalkStep(k, bins, sub, r, h, side, hs, cur);
        h, hs := r, cur.size;
        side := At(k.child1, r) != 0;
        cur := if side then cur.right else cur.left;
        r := if side then At(k.child1, r) else At(k.child0, r);
      }
      LeafWalkStep(k, bins, sub, r, h, side, hs, cur);
      assert IsLeaf(cur);
      RepPositive(k, bins, r, At(k.parent, r), cur);
    }
  }

  lemma RepPositive(k: Links, bins: Bins, t: int, par: int, trie: Trie)
    requires trie.Node? && Rep(k, bins, t, par, trie)
    ensures t > 0
  {
  }

  // ---- Moving a chunk into the hole --------------------------------------

  /** What the tail of the macro writes: the parent's slot (unless x is a root), and y's fields (unless y is null). */
  function Detach(k: Links, x: int, y: int, xp: int): Links
  {
    var k0 := if xp > 0 then Redirect(k, xp, x, y) else k;
    if y == 0 then k0 else Adopt(k0, x, y)
  }

  lemma RedirectFrame(k: Links, bins: Bins, x: int, y: int, xp: int, par: int, d: Trie)
    requires Rep(k, bins, x, par, d)
    requires forall q :: q in Sizes(d) ==> q in bins && bins[q] != [] && bins[q][0] != xp
    ensures Rep(Redirect(k, xp, x, y), bins, x, par, d)
  {
    RepFrame(k, bins, Redirect(k, xp, x, y), bins, x, par, d);
  }

  /** Chunk y, childless so far, represents what was left below x. */
  lemma DetachRep(k: Links, bins: Bins, bins': Bins, x: int, y: int, xp: int, d: Trie, s: nat, lo: nat, level: nat)
    requires d.Node? && TrieOk(d, lo, level) && Injective(bins) && Rep(k, bins, x, xp, d)
    requires s in bins' && bins'[s] != [] && y == bins'[s][0] && y > 0 && y != x
    requires At(k.child0, y) == 0 && At(k.child1, y) == 0 && xp != y
    requires forall q :: q in Sizes(d) ==> q in bins && bins[q] != [] && bins[q][0] != xp
    requires forall q :: q in Sizes(d.left) + Sizes(d.right) ==> SameHead(bins, bins', q) && bins[q][0] != y
    ensures Rep(Detach(k, x, y, xp), bins', y, xp, Node(s, d.left, d.right))
  {
    if xp > 0 {
      RedirectFrame(k, bins, x, y, xp, xp, d);
      RepAdopt(Redirect(k, xp, x, y), bins, bins', x, y, s, xp, d, lo, level);
    } else {
      RepAdopt(k, bins, bins', x, y, s, xp, d, lo, level);
    }
  }

  lemma AdoptTouches(k: Links, x: int, y: int, a: int)
    requires a != y && (a == 0 || (a != At(k.child0, x) && a != At(k.child1, x)))
    ensures SameTree(k, Adopt(k, x, y), a)
  {
  }

  lemma RedirectTouches(k: Links, x: int, y: int, xp: int, a: int)
    requires a != xp
    ensures SameTree(k, Redirect(k, xp, x, y), a)
  {
  }

  /** Which tree fields Detach may touch. */
  lemma DetachTouches(k: Links, x: int, y: int, xp: int, a: int)
    requires xp != x && (xp <= 0 || a != xp)
    requires y == 0 || (a != y && (a == 0 || (a != At(k.child0, x) && a != At(k.child1, x))))
    ensures SameTree(k, Detach(k, x, y, xp), a)
  {
    var k0 := if xp > 0 then Redirect(k, xp, x, y) else k;
    if xp > 0 {
      RedirectTouches(k, x, y, xp, a);
      RedirectTouches(k, x, y, xp, x);
    }
    if y != 0 {
      AdoptTouches(k0, x, y, a);
    }
    hide *;
  }

  // ---- The ring loses a chunk but keeps its size alive --------------------

  /** The ring after x left it: when x stood for the ring, the last chunk takes over. */
  ghost function RingWithout(c: seq<int>, x: int): seq<int>
    requires x in c && |c| > 1
  {
    if x == c[0] then [c[|c| - 1]] + c[1..|c| - 1] else RemoveAt(c, IndexIn(c, x))
  }

  lemma HeadLeaves(fd: map<int, int>, bk: map<int, int>, c: seq<int>)
    requires Cycle(fd, bk, c) && |c| > 1
    ensures At(fd, c[0]) == c[1] && At(bk, c[0]) == c[|c| - 1]
    ensures Cycle(fd[c[|c| - 1] := c[1]], bk[c[1] := c[|c| - 1]], [c[|c| - 1]] + c[1..|c| - 1])
  {
    CycleRemove(fd, bk, c, 0);
    HeadNeighbours(fd, bk, c);
    HeadRotated(c);
    hide *;
    CycleRotate(fd[c[|c| - 1] := c[1]], bk[c[1] := c[|c| - 1]], RemoveAt(c, 0));
  }

  lemma HeadNeighbours(fd: map<int, int>, bk: map<int, int>, c: seq<int>)
    requires Cycle(fd, bk, c) && |c| > 1
    ensures At(fd, c[0]) == c[1] && At(bk, c[0]) == c[|c| - 1]
  {
  }

  lemma HeadRotated(c: seq<int>)
    requires |c| > 1
    ensures var r := RemoveAt(c, 0);
      |r| > 0 && [r[|r| - 1]] + r[..|r| - 1] == [c[|c| - 1]] + c[1..|c| - 1]
  {
    assert RemoveAt(c, 0) == c[1..];
    assert c[1..][..|c| - 2] == c[1..|c| - 1];
  }

  lemma HeadLeavesMembers(c: seq<int>)
    requires Distinct(c) && |c| > 1
    ensures forall a :: a in [c[|c| - 1]] + c[1..|c| - 1] <==> a in c && a != c[0]
  {
    var w := [c[|c| - 1]] + c[1..|c| - 1];
    RemoveAtMembers(c, 0);
    var r := RemoveAt(c, 0);
    assert r == c[1..|c| - 1] + [c[|c| - 1]];
  }

  lemma RingWithoutMembers(c: seq<int>, x: int)
    requires Distinct(c) && x in c && |c| > 1
    ensures forall a :: a in RingWithout(c, x) <==> a in c && a != x
    ensures RingWithout(c, x)[0] == if x == c[0] then c[|c| - 1] else c[0]
    ensures forall i :: 1 <= i < |RingWithout(c, x)| ==> RingWithout(c, x)[i] in c && RingWithout(c, x)[i] != c[0]
  {
    RemoveAtMembers(c, IndexIn(c, x));
    HeadLeavesMembers(c);
    var w := RingWithout(c, x);
    forall i | 1 <= i < |w| ensures w[i] in c && w[i] != c[0] {
      assert w[i] in w;
    }
  }

  lemma RingWithoutShape(k: Links, c: seq<int>, x: int)
    requires Cycle(k.fd, k.bk, c) && x in c && |c| > 1
    ensures var f, r := At(k.fd, x), At(k.bk, x); var k' := Bridge(k, r, f);
      f in c && r in c && r != x && Cycle(k'.fd, k'.bk, RingWithout(c, x)) &&
      (x == c[0] ==> r == c[|c| - 1] && r == RingWithout(c, x)[0])
  {
    if x == c[0] {
      HeadLeaves(k.fd, k.bk, c);
    } else {
      CycleRemove(k.fd, k.bk, c, IndexIn(c, x));
    }
  }

  lemma RingWithoutOk(k: Links, bins: Bins, x: int, s: nat)
    requires InList(bins, s, x) && RingOk(k, bins, s) && |bins[s]| > 1
    ensures RingOk(Bridge(k, At(k.bk, x), At(k.fd, x)), bins[s := RingWithout(bins[s], x)], s)
    ensures Removed(bins, bins[s := RingWithout(bins[s], x)], s, x)
  {
    var c := bins[s];
    var w := RingWithout(c, x);
    RingWithoutShape(k, c, x);
    RingWithoutMembers(c, x);
    forall i | 0 <= i < |w| ensures At(k.index, w[i]) == TreeIndex(s) && (i >= 1 ==> Spare(k, w[i])) {
      assert w[i] in w;
      var j :| 0 <= j < |c| && c[j] == w[i];
    }
  }

  /** x was only in the ring: nothing in the tree refers to it. */
  lemma UnlinkSpareOk(head: map<int, Head>, k: Links, smallmap: set<nat>, treemap: set<nat>, treebins: seq<int>,
                      bins: Bins, tries: seq<Trie>, x: int, s: nat)
    requires BinsOk(head, k, smallmap, treemap, treebins, bins, tries)
    requires InList(bins, s, x) && s >= MIN_LARGE_SIZE && x != bins[s][0]
    ensures |bins[s]| > 1 && At(k.bk, x) != x && At(k.parent, x) == 0
    ensures Removed(bins, bins[s := RingWithout(bins[s], x)], s, x)
    ensures BinsOk(head, Bridge(k, At(k.bk, x), At(k.fd, x)), smallmap, treemap, treebins,
                   bins[s := RingWithout(bins[s], x)], tries)
  {
    assert ListOk(head, bins, s) && RingOk(k, bins, s);
    var f, r, i := At(k.fd, x), At(k.bk, x), TreeIndex(s);
    var j := IndexIn(bins[s], x);
    assert Spare(k, bins[s][j]);
    var bins' := bins[s := RingWithout(bins[s], x)];
    RingWithoutShape(k, bins[s], x);
    RingWithoutMembers(bins[s], x);
    RingWithoutOk(k, bins, x, s);
    RemovedListed(head, bins, bins', s, x);
    BridgeLocal(k, bins, s, i, r, f, x);
    assert TreeOk(k, treemap, treebins, bins, tries, i);
    forall q | q in Sizes(tries[i]) ensures SameNode(k, bins, Bridge(k, r, f), bins', q) {
      assert ListOk(head, bins, q);
    }
    RepFrame(k, bins, Bridge(k, r, f), bins', treebins[i], TreeBinAt(i), tries[i]);
    LargeOpOk(head, k, smallmap, treemap, treebins, bins, tries, Bridge(k, r, f), treemap, treebins, bins', tries, s,
      x);
  }

  // ---- The subtree at x is exchanged --------------------------------------

  /** A node outside the subtree at x is none of the chunks the macro's tail writes to, except as x's parent. */
  ghost predicate Apart(k: Links, k1: Links, bins: Bins, bins': Bins, q: nat, x: int, y: int)
  {
    SameNode(k, bins, k1, bins', q) && bins[q][0] != y && bins[q][0] != x &&
    bins[q][0] != At(k1.child0, x) && bins[q][0] != At(k1.child1, x)
  }

  lemma ApartSame(k: Links, k1: Links, bins: Bins, bins': Bins, q: nat, x: int, y: int, xp: int)
    requires Apart(k, k1, bins, bins', q, x, y) && xp != x && bins[q][0] != xp
    ensures SameNode(k, bins, Detach(k1, x, y, xp), bins', q)
  {
    DetachTouches(k1, x, y, xp, bins[q][0]);
  }

  lemma ParentMoved(k: Links, k1: Links, bins: Bins, bins': Bins, p: nat, x: int, y: int)
    requires Apart(k, k1, bins, bins', p, x, y) && bins[p][0] > 0
    requires At(k.child0, bins[p][0]) != x ==> At(k.child1, bins[p][0]) == x
    ensures SlotMoved(k, Detach(k1, x, y, bins[p][0]), bins[p][0], x, y)
  {
    var xp := bins[p][0];
    var k0 := Redirect(k1, xp, x, y);
    assert SlotMoved(k, k0, xp, x, y);
    if y != 0 {
      RedirectTouches(k1, x, y, xp, x);
      AdoptTouches(k0, x, y, xp);
    }
  }

  lemma ExchangeRep(k: Links, k1: Links, bins: Bins, bins': Bins, root: int, par: int, trie: Trie, lo: nat, level: nat,
                    s: nat, y: int, u: Trie)
    requires TrieOk(trie, lo, level) && Injective(bins) && Rep(k, bins, root, par, trie) && s in Sizes(trie) && par < 0
    requires s in bins && bins[s] != []
    requires Rep(Detach(k1, bins[s][0], y, At(k.parent, bins[s][0])), bins', y, At(k.parent, bins[s][0]), u)
    requires forall q :: q in Sizes(trie) - Sizes(Sub(trie, s)) ==> Apart(k, k1, bins, bins', q, bins[s][0], y)
    ensures Rep(Detach(k1, bins[s][0], y, At(k.parent, bins[s][0])), bins',
                if s == trie.size then y else root, par, Replace(trie, s, u))
    ensures s == trie.size <==> root == bins[s][0]
    ensures s == trie.size <==> At(k.parent, bins[s][0]) < 0
  {
    var x, xp := bins[s][0], At(k.parent, bins[s][0]);
    var kf := Detach(k1, x, y, xp);
    RepSizes(k, bins, root, par, trie);
    RepSub(k, bins, root, par, trie, s);
    if s != trie.size {
      var p := ParentSize(trie, s);
      ParentOf(k, bins, root, par, trie, s);
      ParentOutside(trie, s, lo, level);
      ParentSlot(k, bins, root, par, trie, s, lo, level);
      assert Apart(k, k1, bins, bins', p, x, y);
      ParentMoved(k, k1, bins, bins', p, x, y);
      forall q | q in Sizes(trie) - Sizes(Sub(trie, s)) && q != p ensures SameNode(k, bins, kf, bins', q) {
        assert Apart(k, k1, bins, bins', q, x, y);
        ApartSame(k, k1, bins, bins', q, x, y, xp);
      }
      RepReplace(k, bins, kf, bins', root, par, trie, s, y, u, lo, level);
    }
  }

  lemma DetachLocal(k: Links, k1: Links, bins: Bins, s: nat, i: nat, x: int, y: int, xp: int)
    requires Local(k, k1, bins, s, i, x) && xp != x
    requires xp <= 0 || NodeOf(bins, i, xp)
    requires y == 0 || NodeOf(bins, i, y) || InList(bins, s, y)
    requires At(k1.child0, x) == 0 || NodeOf(bins, i, At(k1.child0, x))
    requires At(k1.child1, x) == 0 || NodeOf(bins, i, At(k1.child1, x))
    ensures Local(k, Detach(k1, x, y, xp), bins, s, i, x)
  {
    var kf := Detach(k1, x, y, xp);
    forall a | !SameTree(k, kf, a) ensures a == x || InList(bins, s, a) || NodeOf(bins, i, a) {
      if (xp <= 0 || a != xp) && (y == 0 || (a != y && (a == 0 || (a != At(k1.child0, x) && a != At(k1.child1, x))))) {
        DetachTouches(k1, x, y, xp, a);
        assert !SameTree(k, k1, a);
      }
    }
    DetachLinks(k1, x, y, xp);
  }

  lemma DetachLinks(k: Links, x: int, y: int, xp: int)
    ensures Detach(k, x, y, xp).fd == k.fd && Detach(k, x, y, xp).bk == k.bk && Detach(k, x, y, xp).index == k.index
  {
    hide *;
    RedirectLinks(k, xp, x, y);
    AdoptLinks(if xp > 0 then Redirect(k, xp, x, y) else k, x, y);
    DetachCase(k, x, y, xp);
  }

  lemma DetachCase(k: Links, x: int, y: int, xp: int)
    ensures var k0 := if xp > 0 then Redirect(k, xp, x, y) else k;
      Detach(k, x, y, xp) == if y == 0 then k0 else Adopt(k0, x, y)
  {
    hide Redirect, Adopt;
  }

  lemma RedirectLinks(k: Links, xp: int, x: int, y: int)
    ensures Redirect(k, xp, x, y).fd == k.fd && Redirect(k, xp, x, y).bk == k.bk &&
      Redirect(k, xp, x, y).index == k.index
  {
  }

  lemma AdoptLinks(k: Links, x: int, y: int)
    ensures Adopt(k, x, y).fd == k.fd && Adopt(k, x, y).bk == k.bk && Adopt(k, x, y).index == k.index
  {
  }

  lemma NodesOfTrie(head: map<int, Head>, k: Links, treemap: set<nat>, treebins: seq<int>, bins: Bins, tries: seq<Trie>,
      i: nat)
    requires Listed(head, bins) && TreeOk(k, treemap, treebins, bins, tries, i)
    ensures forall q :: q in Sizes(tries[i]) ==>
      q in bins && bins[q] != [] && bins[q][0] > 0 && NodeOf(bins, i, bins[q][0])
  {
    forall q | q in Sizes(tries[i]) ensures q in bins && bins[q] != [] && bins[q][0] > 0 &&
      NodeOf(bins, i, bins[q][0]) {
      SizeAt(head, bins, q);
    }
  }

  /** The parent of the chunk that stands for a size: a list head, or a node of the same trie. */
  lemma ParentIsNode(head: map<int, Head>, k: Links, treemap: set<nat>, treebins: seq<int>, bins: Bins,
      tries: seq<Trie>, i: nat, s: nat)
    requires Listed(head, bins) && TreeOk(k, treemap, treebins, bins, tries, i) && s in Sizes(tries[i])
    ensures s in bins && bins[s] != [] && At(k.parent, bins[s][0]) != 0
    ensures At(k.parent, bins[s][0]) < 0 || NodeOf(bins, i, At(k.parent, bins[s][0]))
    ensures forall q :: q in Sizes(Sub(tries[i], s)) ==>
      q in bins && bins[q] != [] && bins[q][0] != At(k.parent, bins[s][0])
  {
    NodesOfTrie(head, k, treemap, treebins, bins, tries, i);
    ListsInjective(head, bins);
    RepSub(k, bins, treebins[i], TreeBinAt(i), tries[i], s);
    if s != tries[i].size {
      ParentOf(k, bins, treebins[i], TreeBinAt(i), tries[i], s);
      ParentOutside(tries[i], s, LowOf(i), LevelOf(i));
    }
  }

  // ---- The ring's representative leaves, another chunk of its size takes over

  /** The situation: chunk x stands for its ring and the last chunk y of the ring will replace it. */
  ghost predicate HeadLeaving(head: map<int, Head>, k: Links, treemap: set<nat>, treebins: seq<int>, bins: Bins,
                              tries: seq<Trie>, x: int, y: int, s: nat, i: nat)
  {
    Listed(head, bins) && RingOk(k, bins, s) && s >= MIN_LARGE_SIZE && i == TreeIndex(s) &&
    TreeOk(k, treemap, treebins, bins, tries, i) &&
    s in bins && |bins[s]| > 1 && x == bins[s][0] && y == bins[s][|bins[s]| - 1] && s in Sizes(tries[i])
  }

  lemma HeadOthers(head: map<int, Head>, k: Links, treemap: set<nat>, treebins: seq<int>, bins: Bins, tries: seq<Trie>,
                   x: int, y: int, s: nat, i: nat, k1: Links, bins': Bins)
    requires HeadLeaving(head, k, treemap, treebins, bins, tries, x, y, s, i)
    requires bins' == bins[s := RingWithout(bins[s], x)] && k1 == Bridge(k, y, At(k.fd, x))
    ensures y > 0 && y != x && At(k.child0, y) == 0 && At(k.child1, y) == 0 && y != At(k.parent, x)
    ensures forall q :: q in bins && q != s ==>
      bins[q] != [] && bins[q][0] != y && bins[q][0] != x && SameNode(k, bins, k1, bins', q)
    ensures s in bins' && bins'[s] != [] && y == bins'[s][0]
  {
    assert ListOk(head, bins, s) && y in bins[s] && x in bins[s];
    assert Spare(k, y);
    RingWithoutMembers(bins[s], x);
    ParentIsNode(head, k, treemap, treebins, bins, tries, i, s);
    forall q | q in bins && q != s
      ensures bins[q] != [] && bins[q][0] != y && bins[q][0] != x && SameNode(k, bins, k1, bins', q)
    {
      SizeAt(head, bins, q);
      ListsDisjoint(head, bins, q, s, bins[q][0]);
    }
    assert bins[s][0] != y;
  }

  lemma HeadApart(head: map<int, Head>, k: Links, treemap: set<nat>, treebins: seq<int>, bins: Bins, tries: seq<Trie>,
                  x: int, y: int, s: nat, i: nat, k1: Links, bins': Bins)
    requires HeadLeaving(head, k, treemap, treebins, bins, tries, x, y, s, i)
    requires bins' == bins[s := RingWithout(bins[s], x)] && k1 == Bridge(k, y, At(k.fd, x))
    ensures forall q :: q in Sizes(tries[i]) - Sizes(Sub(tries[i], s)) ==> Apart(k, k1, bins, bins', q, x, y)
  {
    var sub := Sub(tries[i], s);
    HeadOthers(head, k, treemap, treebins, bins, tries, x, y, s, i, k1, bins');
    ListsInjective(head, bins);
    RepSub(k, bins, treebins[i], TreeBinAt(i), tries[i], s);
    ChildHeads(k, bins, x, At(k.parent, x), sub);
    hide HeadLeaving, Listed, RingOk, Rep, TrieOk, SameNode, Sub;
    forall q | q in Sizes(tries[i]) - Sizes(sub) ensures Apart(k, k1, bins, bins', q, x, y) {
      SizesInBins(head, k, treemap, treebins, bins, tries, x, y, s, i, q);
    }
  }

  lemma SizesInBins(head: map<int, Head>, k: Links, treemap: set<nat>, treebins: seq<int>, bins: Bins, tries: seq<Trie>,
                    x: int, y: int, s: nat, i: nat, q: nat)
    requires HeadLeaving(head, k, treemap, treebins, bins, tries, x, y, s, i) && q in Sizes(tries[i])
    ensures q in bins && bins[q] != [] && bins[q][0] > 0
  {
    SizeAt(head, bins, q);
  }

  lemma HeadRep(head: map<int, Head>, k: Links, treemap: set<nat>, treebins: seq<int>, bins: Bins, tries: seq<Trie>,
                x: int, y: int, s: nat, i: nat, k1: Links, bins': Bins)
    requires HeadLeaving(head, k, treemap, treebins, bins, tries, x, y, s, i)
    requires bins' == bins[s := RingWithout(bins[s], x)] && k1 == Bridge(k, y, At(k.fd, x))
    ensures Rep(Detach(k1, x, y, At(k.parent, x)), bins', y, At(k.parent, x), Sub(tries[i], s))
  {
    var xp, trie := At(k.parent, x), tries[i];
    var sub := Sub(trie, s);
    HeadOthers(head, k, treemap, treebins, bins, tries, x, y, s, i, k1, bins');
    ListsInjective(head, bins);
    ParentIsNode(head, k, treemap, treebins, bins, tries, i, s);
    RepSub(k, bins, treebins[i], TreeBinAt(i), trie, s);
    RepFrame(k, bins, k1, bins, x, xp, sub);
    var lo', level' := SubOk(trie, s, LowOf(i), LevelOf(i));
    forall q | q in Sizes(sub.left) + Sizes(sub.right) ensures SameHead(bins, bins', q) && bins[q][0] != y {
      SizesInBins(head, k, treemap, treebins, bins, tries, x, y, s, i, q);
    }
    hide HeadLeaving, Listed, RingOk, Rep, TrieOk, SameNode, Sub, SameHead;
    DetachRep(k1, bins, bins', x, y, xp, sub, s, lo', level');
  }

  lemma HeadLocal(head: map<int, Head>, k: Links, treemap: set<nat>, treebins: seq<int>, bins: Bins, tries: seq<Trie>,
                  x: int, y: int, s: nat, i: nat, k1: Links)
    requires HeadLeaving(head, k, treemap, treebins, bins, tries, x, y, s, i) && k1 == Bridge(k, y, At(k.fd, x))
    ensures Local(k, Detach(k1, x, y, At(k.parent, x)), bins, s, i, x)
  {
    var xp := At(k.parent, x);
    HeadLeaves(k.fd, k.bk, bins[s]);
    ParentIsNode(head, k, treemap, treebins, bins, tries, i, s);
    NodesOfTrie(head, k, treemap, treebins, bins, tries, i);
    RepSub(k, bins, treebins[i], TreeBinAt(i), tries[i], s);
    ChildHeads(k, bins, x, xp, Sub(tries[i], s));
    BridgeLocal(k, bins, s, i, y, At(k.fd, x), x);
    DetachLocal(k, k1, bins, s, i, x, y, xp);
  }

  lemma UnlinkHeadOk(head: map<int, Head>, k: Links, smallmap: set<nat>, treemap: set<nat>, treebins: seq<int>,
                     bins: Bins, tries: seq<Trie>, x: int, s: nat)
    requires BinsOk(head, k, smallmap, treemap, treebins, bins, tries)
    requires s in bins && s >= MIN_LARGE_SIZE && |bins[s]| > 1 && x == bins[s][0]
    ensures At(k.index, x) == TreeIndex(s) && At(k.bk, x) != x && At(k.bk, x) > 0 && At(k.parent, x) != 0
    ensures At(k.parent, x) < 0 <==> x == treebins[TreeIndex(s)]
    ensures Removed(bins, bins[s := RingWithout(bins[s], x)], s, x)
    ensures var y, xp := At(k.bk, x), At(k.parent, x);
      BinsOk(head, Detach(Bridge(k, y, At(k.fd, x)), x, y, xp), smallmap, treemap,
             if xp < 0 then treebins[TreeIndex(s) := y] else treebins, bins[s := RingWithout(bins[s], x)], tries)
  {
    var i, y, xp := TreeIndex(s), At(k.bk, x), At(k.parent, x);
    var bins' := bins[s := RingWithout(bins[s], x)];
    var kf := Detach(Bridge(k, y, At(k.fd, x)), x, y, xp);
    var treebins' := if xp < 0 then treebins[i := y] else treebins;
    assert RingOk(k, bins, s) && TreeOk(k, treemap, treebins, bins, tries, i);
    HeadLeaves(k.fd, k.bk, bins[s]);
    UnlinkHeadParts(head, k, treemap, treebins, bins, tries, x, y, s, i);
    RemovedListed(head, bins, bins', s, x);
    hide RingOk, TreeOk, Local, Detach, Bridge, HeadLeaving, TreeIndex;
    LargeOpOk(head, k, smallmap, treemap, treebins, bins, tries, kf, treemap, treebins', bins', tries, s, x);
  }

  lemma UnlinkHeadParts(head: map<int, Head>, k: Links, treemap: set<nat>, treebins: seq<int>, bins: Bins,
      tries: seq<Trie>,
                        x: int, y: int, s: nat, i: nat)
    requires HeadLeaving(head, k, treemap, treebins, bins, tries, x, y, s, i)
    ensures At(k.index, x) == i && y > 0 && x != y && At(k.parent, x) != 0
    ensures At(k.parent, x) < 0 <==> x == treebins[i]
    ensures var bins' := bins[s := RingWithout(bins[s], x)]; var xp := At(k.parent, x);
      var kf := Detach(Bridge(k, y, At(k.fd, x)), x, y, xp);
      Removed(bins, bins', s, x) && RingOk(kf, bins', s) && Local(k, kf, bins, s, i, x) &&
      TreeOk(kf, treemap, if xp < 0 then treebins[i := y] else treebins, bins', tries, i)
  {
    var xp := At(k.parent, x);
    var bins' := bins[s := RingWithout(bins[s], x)];
    var k1 := Bridge(k, y, At(k.fd, x));
    var kf := Detach(k1, x, y, xp);
    HeadOthers(head, k, treemap, treebins, bins, tries, x, y, s, i, k1, bins');
    HeadRep(head, k, treemap, treebins, bins, tries, x, y, s, i, k1, bins');
    HeadApart(head, k, treemap, treebins, bins, tries, x, y, s, i, k1, bins');
    ListsInjective(head, bins);
    ParentIsNode(head, k, treemap, treebins, bins, tries, i, s);
    ExchangeRep(k, k1, bins, bins', treebins[i], TreeBinAt(i), tries[i], LowOf(i), LevelOf(i), s, y, Sub(tries[i], s));
    ReplaceSame(tries[i], s);
    HeadLocal(head, k, treemap, treebins, bins, tries, x, y, s, i, k1);
    HeadNotInList(head, k, treemap, treebins, bins, tries, x, y, s, i);
    HeadRing(k, bins, x, y, s, k1, xp);
    SameTrie(k, kf, treemap, treebins, if xp < 0 then treebins[i := y] else treebins, bins, bins', tries, i);
  }

  /** Neither the parent nor the children of x are of x's size. */
  lemma HeadNotInList(head: map<int, Head>, k: Links, treemap: set<nat>, treebins: seq<int>, bins: Bins,
      tries: seq<Trie>,
                      x: int, y: int, s: nat, i: nat)
    requires HeadLeaving(head, k, treemap, treebins, bins, tries, x, y, s, i)
    ensures At(k.parent, x) !in bins[s] && At(k.child0, x) !in bins[s] && At(k.child1, x) !in bins[s]
  {
    var sub := Sub(tries[i], s);
    assert ListOk(head, bins, s);
    RepSub(k, bins, treebins[i], TreeBinAt(i), tries[i], s);
    ChildHeads(k, bins, x, At(k.parent, x), sub);
    var _, _ := SubOk(tries[i], s, LowOf(i), LevelOf(i));
    if sub.left.Node? { OtherHead(head, bins, s, sub.left.size); }
    if sub.right.Node? { OtherHead(head, bins, s, sub.right.size); }
    if s != tries[i].size {
      ParentOf(k, bins, treebins[i], TreeBinAt(i), tries[i], s);
      ParentOutside(tries[i], s, LowOf(i), LevelOf(i));
      OtherHead(head, bins, s, ParentSize(tries[i], s));
    }
  }

  lemma OtherHead(head: map<int, Head>, bins: Bins, s: nat, q: nat)
    requires Listed(head, bins) && s in bins && q in bins && q != s
    ensures bins[q] != [] && bins[q][0] !in bins[s]
  {
    SizeAt(head, bins, q);
    ListsDisjoint(head, bins, q, s, bins[q][0]);
  }

  lemma SameTrie(k: Links, kf: Links, treemap: set<nat>, treebins: seq<int>, treebins': seq<int>,
                 bins: Bins, bins': Bins, tries: seq<Trie>, i: nat)
    requires TreeOk(k, treemap, treebins, bins, tries, i) && |treebins'| == NTREEBINS && bins'.Keys == bins.Keys
    requires Rep(kf, bins', treebins'[i], TreeBinAt(i), tries[i])
    ensures TreeOk(kf, treemap, treebins', bins', tries, i)
  {
    assert forall s :: s in bins' <==> s in bins'.Keys;
    assert forall s :: s in bins <==> s in bins.Keys;
  }

  lemma HeadRing(k: Links, bins: Bins, x: int, y: int, s: nat, k1: Links, xp: int)
    requires s in bins && RingOk(k, bins, s) && |bins[s]| > 1 && x == bins[s][0] && y == bins[s][|bins[s]| - 1]
    requires k1 == Bridge(k, y, At(k.fd, x)) && xp !in bins[s]
    requires At(k.child0, x) !in bins[s] && At(k.child1, x) !in bins[s]
    ensures RingOk(Detach(k1, x, y, xp), bins[s := RingWithout(bins[s], x)], s)
    ensures Removed(bins, bins[s := RingWithout(bins[s], x)], s, x)
  {
    HeadLeaves(k.fd, k.bk, bins[s]);
    RingWithoutOk(k, bins, x, s);
    DetachLinks(k1, x, y, xp);
    var c, kf := RingWithout(bins[s], x), Detach(k1, x, y, xp);
    RingWithoutMembers(bins[s], x);
    forall i | 1 <= i < |c| ensures Spare(kf, c[i]) {
      assert c[i] != y by { assert Distinct(c); }
      assert c[i] in c;
      DetachTouches(k1, x, y, xp, c[i]);
    }
  }

  // ---- The last chunk of a size leaves, a leaf moves into the hole --------

  ghost predicate LastLeaving(head: map<int, Head>, k: Links, treemap: set<nat>, treebins: seq<int>, bins: Bins,
                              tries: seq<Trie>, x: int, s: nat, i: nat)
  {
    Listed(head, bins) && s >= MIN_LARGE_SIZE && i == TreeIndex(s) &&
    TreeOk(k, treemap, treebins, bins, tries, i) &&
    s in bins && |bins[s]| == 1 && x == bins[s][0] && s in Sizes(tries[i])
  }

  /** The chunk that fills the hole and the words once it is cut off from where it was. */
  ghost function Filler(bins: Bins, sub: Trie): int
    requires sub.Node?
  {
    if IsLeaf(sub) then 0 else if LeafOf(sub) in bins && bins[LeafOf(sub)] != [] then bins[LeafOf(sub)][0] else 0
  }

  ghost function CutOff(k: Links, bins: Bins, sub: Trie): Links
    requires sub.Node?
  {
    if IsLeaf(sub) then k
    else
      var (h, side) := Holder(sub);
      if h in bins && bins[h] != [] then ClearSlot(k, bins[h][0], side) else k
  }

  lemma {:induction false} LeafChildless(k: Links, bins: Bins, t: int, par: int, trie: Trie)
    requires trie.Node? && Rep(k, bins, t, par, trie)
    ensures var s := LeafOf(trie);
      s in bins && bins[s] != [] && bins[s][0] > 0 && At(k.child0, bins[s][0]) == 0 && At(k.child1, bins[s][0]) == 0
    decreases trie
  {
    ChildHeads(k, bins, t, par, trie);
    if trie.right.Node? {
      LeafChildless(k, bins, At(k.child1, t), t, trie.right);
    } else if trie.left.Node? {
      LeafChildless(k, bins, At(k.child0, t), t, trie.left);
    }
  }

  /** All nodes of the trie, seen from the chunk that leaves. */
  lemma LastNodes(head: map<int, Head>, k: Links, treemap: set<nat>, treebins: seq<int>, bins: Bins, tries: seq<Trie>,
                  x: int, s: nat, i: nat)
    requires LastLeaving(head, k, treemap, treebins, bins, tries, x, s, i)
    ensures forall q :: q in Sizes(tries[i]) ==>
      q in bins && bins[q] != [] && bins[q][0] > 0 && NodeOf(bins, i, bins[q][0])
    ensures Injective(bins) && x > 0
    ensures Rep(k, bins, x, At(k.parent, x), Sub(tries[i], s))
    ensures At(k.parent, x) != 0 && (At(k.parent, x) < 0 || NodeOf(bins, i, At(k.parent, x)))
    ensures forall q :: q in Sizes(Sub(tries[i], s)) ==> bins[q][0] != At(k.parent, x)
  {
    SizeAt(head, bins, s);
    ListsInjective(head, bins);
    NodesOfTrie(head, k, treemap, treebins, bins, tries, i);
    ParentIsNode(head, k, treemap, treebins, bins, tries, i, s);
    RepSub(k, bins, treebins[i], TreeBinAt(i), tries[i], s);
  }

  lemma LastRep(head: map<int, Head>, k: Links, treemap: set<nat>, treebins: seq<int>, bins: Bins, tries: seq<Trie>,
                x: int, s: nat, i: nat)
    requires LastLeaving(head, k, treemap, treebins, bins, tries, x, s, i)
    ensures var sub := Sub(tries[i], s); var y := Filler(bins, sub); var xp := At(k.parent, x);
      Rep(Detach(CutOff(k, bins, sub), x, y, xp), bins - {s}, y, xp, RemoveRoot(sub))
  {
    var sub := Sub(tries[i], s);
    LastNodes(head, k, treemap, treebins, bins, tries, x, s, i);
    if !IsLeaf(sub) {
      var lo', level' := SubOk(tries[i], s, LowOf(i), LevelOf(i));
      hide LastLeaving, NodeOf;
      LastRepInner(k, bins, x, At(k.parent, x), sub, s, lo', level');
    }
  }

  lemma CutOffChildren(k: Links, bins: Bins, sub: Trie, x: int)
    requires sub.Node?
    ensures At(CutOff(k, bins, sub).child0, x) == 0 || At(CutOff(k, bins, sub).child0, x) == At(k.child0, x)
    ensures At(CutOff(k, bins, sub).child1, x) == 0 || At(CutOff(k, bins, sub).child1, x) == At(k.child1, x)
  {
  }

  lemma CutOffCase(k: Links, bins: Bins, sub: Trie)
    requires sub.Node?
    ensures IsLeaf(sub) ==> CutOff(k, bins, sub) == k
    ensures !IsLeaf(sub) ==> (
      var h := Holder(sub).0;
      h in Sizes(sub) &&
      CutOff(k, bins, sub) == if h in bins && bins[h] != [] then ClearSlot(k, bins[h][0], Holder(sub).1) else k)
  {
  }

  lemma LastRepInner(k: Links, bins: Bins, x: int, xp: int, sub: Trie, s: nat, lo: nat, level: nat)
    requires sub.Node? && !IsLeaf(sub) && sub.size == s && TrieOk(sub, lo, level) && Injective(bins)
    requires Rep(k, bins, x, xp, sub)
    requires forall q :: q in Sizes(sub) ==> q in bins && bins[q] != [] && bins[q][0] > 0 && bins[q][0] != xp
    ensures Rep(Detach(CutOff(k, bins, sub), x, Filler(bins, sub), xp), bins - {s}, Filler(bins, sub), xp,
      RemoveRoot(sub))
  {
    hide *;
    var y, d, l := Filler(bins, sub), DropLeaf(sub), LeafOf(sub);
    CutOffRep(k, bins, x, xp, sub, lo, level);
    DropLeafOk(sub, lo, level);
    DropRest(bins, sub, s, lo, level);
    FillerIs(k, bins, x, xp, sub, s, lo, level);
    RemoveRootIs(sub);
    CutOffChildren(k, bins, sub, y);
    DetachRep(CutOff(k, bins, sub), bins, bins - {s}, x, y, xp, d, l, lo, level);
  }

  lemma CutOffRep(k: Links, bins: Bins, x: int, xp: int, sub: Trie, lo: nat, level: nat)
    requires sub.Node? && !IsLeaf(sub) && TrieOk(sub, lo, level) && Injective(bins) && Rep(k, bins, x, xp, sub)
    ensures Rep(CutOff(k, bins, sub), bins, x, xp, DropLeaf(sub))
  {
    hide *;
    RepDropLeaf(k, bins, x, xp, sub, lo, level);
    CutOffCase(k, bins, sub);
  }

  lemma RemoveRootIs(sub: Trie)
    requires sub.Node? && !IsLeaf(sub)
    ensures DropLeaf(sub).Node? && RemoveRoot(sub) == Node(LeafOf(sub), DropLeaf(sub).left, DropLeaf(sub).right)
  {
    hide LeafOf, Sizes;
  }

  /** The chunk of the leaf: childless, and not the one that leaves. */
  lemma FillerIs(k: Links, bins: Bins, x: int, xp: int, sub: Trie, s: nat, lo: nat, level: nat)
    requires sub.Node? && !IsLeaf(sub) && sub.size == s && TrieOk(sub, lo, level) && Injective(bins)
    requires Rep(k, bins, x, xp, sub)
    requires forall q :: q in Sizes(sub) ==> q in bins && bins[q] != [] && bins[q][0] > 0 && bins[q][0] != xp
    ensures var y, l, bins' := Filler(bins, sub), LeafOf(sub), bins - {s};
      l in bins' && bins'[l] != [] && y == bins'[l][0] && y > 0 && y != x && y != xp &&
      At(k.child0, y) == 0 && At(k.child1, y) == 0
    ensures forall q :: q in Sizes(DropLeaf(sub)) ==> q in bins && bins[q] != [] && bins[q][0] != xp
  {
    LeafChildless(k, bins, x, xp, sub);
    DropLeafOk(sub, lo, level);
    RepNode(k, bins, x, xp, sub);
    hide Rep, TrieOk, LeafOf, DropLeaf, Sizes;
  }

  /** What stays of the tree once its leaf is cut off. */
  lemma DropRest(bins: Bins, sub: Trie, s: nat, lo: nat, level: nat)
    requires sub.Node? && !IsLeaf(sub) && sub.size == s && TrieOk(sub, lo, level) && Injective(bins)
    requires forall q :: q in Sizes(sub) ==> q in bins && bins[q] != []
    ensures var d := DropLeaf(sub);
      d.Node? && forall q :: q in Sizes(d.left) + Sizes(d.right) ==>
        SameHead(bins, bins - {s}, q) && bins[q][0] != Filler(bins, sub)
  {
    var d, l := DropLeaf(sub), LeafOf(sub);
    DropLeafOk(sub, lo, level);
    assert forall q :: q in Sizes(d.left) + Sizes(d.right) ==> q in Sizes(d) && q != s;
    hide Sizes, TrieOk, LeafOf, DropLeaf;
    forall q | q in Sizes(d.left) + Sizes(d.right) ensures SameHead(bins, bins - {s}, q) &&
      bins[q][0] != Filler(bins, sub) {
      assert q in Sizes(d) && q != l && l in Sizes(sub);
    }
  }

  /** Cutting the leaf off writes one slot of a node below x, or nothing. */
  lemma CutOffTouches(k: Links, bins: Bins, sub: Trie, a: int)
    requires sub.Node?
    requires forall q :: q in Sizes(sub) ==> q in bins && bins[q] != [] && bins[q][0] != a
    ensures SameTree(k, CutOff(k, bins, sub), a)
    ensures CutOff(k, bins, sub).fd == k.fd && CutOff(k, bins, sub).bk == k.bk && CutOff(k, bins, sub).index == k.index
  {
    hide *;
    CutOffCase(k, bins, sub);
    if !IsLeaf(sub) {
      var (h, side) := Holder(sub);
      if h in bins && bins[h] != [] {
        ClearSlotTouches(k, bins[h][0], side, a);
      }
    }
    SameTreeItself(k, a);
  }

  lemma ClearSlotTouches(k: Links, h: int, side: bool, a: int)
    ensures a != h ==> SameTree(k, ClearSlot(k, h, side), a)
    ensures ClearSlot(k, h, side).fd == k.fd && ClearSlot(k, h, side).bk == k.bk &&
      ClearSlot(k, h, side).index == k.index
  {
  }

  lemma SameTreeItself(k: Links, a: int)
    ensures SameTree(k, k, a)
  {
  }

  lemma LastApart(head: map<int, Head>, k: Links, treemap: set<nat>, treebins: seq<int>, bins: Bins, tries: seq<Trie>,
                  x: int, s: nat, i: nat, q: nat)
    requires LastLeaving(head, k, treemap, treebins, bins, tries, x, s, i)
    requires q in Sizes(tries[i]) - Sizes(Sub(tries[i], s))
    ensures var sub := Sub(tries[i], s); Apart(k, CutOff(k, bins, sub), bins, bins - {s}, q, x, Filler(bins, sub))
  {
    var sub := Sub(tries[i], s);
    LastNodes(head, k, treemap, treebins, bins, tries, x, s, i);
    ChildHeads(k, bins, x, At(k.parent, x), sub);
    assert s in Sizes(sub) && q != s;
    forall r | r in Sizes(sub) ensures bins[r][0] != bins[q][0] {
      assert r in Sizes(tries[i]) && r != q;
    }
    CutOffApart(k, bins, sub, s, q, x);
  }

  lemma CutOffApart(k: Links, bins: Bins, sub: Trie, s: nat, q: nat, x: int)
    requires sub.Node? && s in Sizes(sub) && q in bins && bins[q] != [] && bins[q][0] > 0 && q != s
    requires forall r :: r in Sizes(sub) ==> r in bins && bins[r] != [] && bins[r][0] != bins[q][0]
    requires bins[q][0] != x && bins[q][0] != At(k.child0, x) && bins[q][0] != At(k.child1, x)
    ensures Apart(k, CutOff(k, bins, sub), bins, bins - {s}, q, x, Filler(bins, sub))
  {
    CutOffTouches(k, bins, sub, bins[q][0]);
    CutOffChildren(k, bins, sub, x);
    LeafIsSize(sub);
    hide CutOff, Sizes, LeafOf;
  }

  lemma LeafIsSize(sub: Trie)
    requires sub.Node?
    ensures !IsLeaf(sub) ==> LeafOf(sub) in Sizes(sub)
  {
  }

  lemma LastLocal(head: map<int, Head>, k: Links, treemap: set<nat>, treebins: seq<int>, bins: Bins, tries: seq<Trie>,
                  x: int, s: nat, i: nat)
    requires LastLeaving(head, k, treemap, treebins, bins, tries, x, s, i)
    ensures var sub := Sub(tries[i], s);
      Local(k, Detach(CutOff(k, bins, sub), x, Filler(bins, sub), At(k.parent, x)), bins, s, i, x)
  {
    var sub, xp := Sub(tries[i], s), At(k.parent, x);
    var k1 := CutOff(k, bins, sub);
    LastNodes(head, k, treemap, treebins, bins, tries, x, s, i);
    ChildHeads(k, bins, x, xp, sub);
    CutOffChildren(k, bins, sub, x);
    forall a | !SameTree(k, k1, a) ensures NodeOf(bins, i, a) {
      if !NodeOf(bins, i, a) {
        CutOffTouches(k, bins, sub, a);
      }
    }
    CutOffTouches(k, bins, sub, 0);
    assert Local(k, k1, bins, s, i, x);
    hide LastLeaving, Rep, CutOff, TrieOk, Local, NodeOf;
    DetachLocal(k, k1, bins, s, i, x, Filler(bins, sub), xp);
  }

  /** The bitmap after root y was put into tree bin i. */
  function MapAfter(treemap: set<nat>, i: nat, y: int): set<nat>
  {
    if y == 0 then treemap - {i} else treemap
  }

  lemma LastTreeRep(head: map<int, Head>, k: Links, treemap: set<nat>, treebins: seq<int>, bins: Bins, tries: seq<Trie>,
                    x: int, s: nat, i: nat)
    requires LastLeaving(head, k, treemap, treebins, bins, tries, x, s, i)
    ensures At(k.parent, x) != 0 && (At(k.parent, x) < 0 <==> x == treebins[i])
    ensures At(k.parent, x) < 0 <==> s == tries[i].size
    ensures var sub := Sub(tries[i], s); var y := Filler(bins, sub); var xp := At(k.parent, x);
      Rep(Detach(CutOff(k, bins, sub), x, y, xp), bins - {s}, if xp < 0 then y else treebins[i], TreeBinAt(i),
          Remove(tries[i], s))
  {
    var trie := tries[i];
    var sub := Sub(trie, s);
    LastNodes(head, k, treemap, treebins, bins, tries, x, s, i);
    LastRep(head, k, treemap, treebins, bins, tries, x, s, i);
    forall q | q in Sizes(trie) - Sizes(sub) ensures Apart(k, CutOff(k, bins, sub), bins, bins - {s}, q, x,
      Filler(bins, sub)) {
      LastApart(head, k, treemap, treebins, bins, tries, x, s, i, q);
    }
    hide Detach, CutOff, Filler, RemoveRoot, Apart, NodeOf;
    ExchangeRep(k, CutOff(k, bins, sub), bins, bins - {s}, treebins[i], TreeBinAt(i), trie, LowOf(i), LevelOf(i), s,
                Filler(bins, sub), RemoveRoot(sub));
  }

  lemma FillerNull(head: map<int, Head>, k: Links, treemap: set<nat>, treebins: seq<int>, bins: Bins, tries: seq<Trie>,
                   x: int, s: nat, i: nat)
    requires LastLeaving(head, k, treemap, treebins, bins, tries, x, s, i)
    ensures var sub := Sub(tries[i], s); Filler(bins, sub) == 0 <==> RemoveRoot(sub) == Nil
  {
    LastNodes(head, k, treemap, treebins, bins, tries, x, s, i);
  }

  lemma LastTree(head: map<int, Head>, k: Links, treemap: set<nat>, treebins: seq<int>, bins: Bins, tries: seq<Trie>,
                 x: int, s: nat, i: nat)
    requires LastLeaving(head, k, treemap, treebins, bins, tries, x, s, i)
    ensures At(k.parent, x) != 0 && (At(k.parent, x) < 0 <==> x == treebins[i])
    ensures var sub := Sub(tries[i], s); var y := Filler(bins, sub); var xp := At(k.parent, x);
      TreeOk(Detach(CutOff(k, bins, sub), x, y, xp), if xp < 0 then MapAfter(treemap, i, y) else treemap,
             if xp < 0 then treebins[i := y] else treebins, bins - {s}, tries[i := Remove(tries[i], s)], i)
  {
    LastTreeRep(head, k, treemap, treebins, bins, tries, x, s, i);
    FillerNull(head, k, treemap, treebins, bins, tries, x, s, i);
    LastTreeSizes(head, k, treemap, treebins, bins, tries, x, s, i);
    hide Detach, CutOff, Filler, RemoveRoot, Rep, TrieOk, Listed, Remove, Sub, Sizes, LowOf, LevelOf, TreeIndex,
      LastLeaving;
  }

  lemma LastTreeSizes(head: map<int, Head>, k: Links, treemap: set<nat>, treebins: seq<int>, bins: Bins,
      tries: seq<Trie>,
                      x: int, s: nat, i: nat)
    requires LastLeaving(head, k, treemap, treebins, bins, tries, x, s, i)
    ensures |tries| == |treebins| == NTREEBINS && i < NTREEBINS && tries[i].Node?
    ensures s != tries[i].size ==> i in treemap
    ensures TrieOk(Remove(tries[i], s), LowOf(i), LevelOf(i))
    ensures Remove(tries[i], s).Node? || s == tries[i].size
    ensures s == tries[i].size ==> Remove(tries[i], s) == RemoveRoot(Sub(tries[i], s))
    ensures forall q :: q in Sizes(Remove(tries[i], s)) <==> q in bins - {s} && q >= MIN_LARGE_SIZE && TreeIndex(q) == i
  {
    RemoveOk(tries[i], s, LowOf(i), LevelOf(i));
    RemoveShape(tries[i], s);
    hide Detach, CutOff, Filler, RemoveRoot, Rep, TrieOk, Listed, Remove, Sub, LowOf, LevelOf, TreeIndex;
  }

  lemma RemoveShape(t: Trie, s: nat)
    requires s in Sizes(t)
    ensures Remove(t, s).Node? || s == t.size
    ensures s == t.size ==> Remove(t, s) == RemoveRoot(Sub(t, s))
  {
  }

  lemma UnlinkLastOk(head: map<int, Head>, k: Links, smallmap: set<nat>, treemap: set<nat>, treebins: seq<int>,
                     bins: Bins, tries: seq<Trie>, x: int, s: nat)
    requires BinsOk(head, k, smallmap, treemap, treebins, bins, tries)
    requires s in bins && s >= MIN_LARGE_SIZE && |bins[s]| == 1 && x == bins[s][0]
    ensures At(k.index, x) == TreeIndex(s) && At(k.bk, x) == x && At(k.parent, x) != 0
    ensures s in Sizes(tries[TreeIndex(s)])
    ensures At(k.parent, x) < 0 <==> x == treebins[TreeIndex(s)]
    ensures Removed(bins, bins - {s}, s, x)
    ensures var i := TreeIndex(s); var sub := Sub(tries[i], s); var y := Filler(bins, sub); var xp := At(k.parent, x);
      BinsOk(head, Detach(CutOff(k, bins, sub), x, y, xp), smallmap,
             if xp < 0 then MapAfter(treemap, i, y) else treemap,
             if xp < 0 then treebins[i := y] else treebins, bins - {s}, tries[i := Remove(tries[i], s)])
  {
    var i, xp := TreeIndex(s), At(k.parent, x);
    LastReady(head, k, smallmap, treemap, treebins, bins, tries, x, s);
    hide RingOk, TreeOk, Local, Detach, CutOff, LastLeaving, TreeIndex, Sub, Remove, Filler, Removed, Listed, BinsOk;
    var sub := Sub(tries[i], s);
    var y := Filler(bins, sub);
    LastTree(head, k, treemap, treebins, bins, tries, x, s, i);
    LastLocal(head, k, treemap, treebins, bins, tries, x, s, i);
    LargeOpOk(head, k, smallmap, treemap, treebins, bins, tries, Detach(CutOff(k, bins, sub), x, y, xp),
              if xp < 0 then MapAfter(treemap, i, y) else treemap, if xp < 0 then treebins[i := y] else treebins,
              bins - {s}, tries[i := Remove(tries[i], s)], s, x);
  }

  lemma LastReady(head: map<int, Head>, k: Links, smallmap: set<nat>, treemap: set<nat>, treebins: seq<int>,
                  bins: Bins, tries: seq<Trie>, x: int, s: nat)
    requires BinsOk(head, k, smallmap, treemap, treebins, bins, tries)
    requires s in bins && s >= MIN_LARGE_SIZE && |bins[s]| == 1 && x == bins[s][0]
    ensures LastLeaving(head, k, treemap, treebins, bins, tries, x, s, TreeIndex(s)) && Listed(head, bins)
    ensures At(k.index, x) == TreeIndex(s) && At(k.bk, x) == x && x > 0 && InList(bins, s, x) && s % 8 == 0
    ensures Removed(bins, bins - {s}, s, x) && Listed(head, bins - {s})
    ensures |tries| == |treebins| == NTREEBINS && TreeIndex(s) < NTREEBINS && tries[TreeIndex(s)].Node?
    ensures s in Sizes(tries[TreeIndex(s)])
  {
    assert RingOk(k, bins, s) && TreeOk(k, treemap, treebins, bins, tries, TreeIndex(s));
    assert ListOk(head, bins, s);
    SizeAt(head, bins, s);
    assert Removed(bins, bins - {s}, s, x);
    RemovedListed(head, bins, bins - {s}, s, x);
    hide TreeOk, Listed, Sizes;
  }
}
