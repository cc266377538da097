/** What the tree macros of the allocator write, and what that does to the represented trie. */
module AllocTreeOps {
  import opened Arith
  import opened AllocTrie
  import opened AllocLinks
  import opened AllocBins
  import opened AllocBinOps

  // ---- Insertion ---------------------------------------------------------

  /** A fresh single-chunk ring whose chunk answers to parent par. */
  function FreshNode(k: Links, x: int, par: int, i: nat): Links
  {
    k.(fd := k.fd[x := x], bk := k.bk[x := x], parent := k.parent[x := par],
       child0 := k.child0[x := 0], child1 := k.child1[x := 0], index := k.index[x := i])
  }

  function SetSlot(k: Links, t: int, side: bool, x: int): Links
  {
    if side then k.(child1 := k.child1[t := x]) else k.(child0 := k.child0[t := x])
  }

  function WithLeaf(c: Trie, side: bool, s: nat): Trie
    requires c.Node?
  {
    if side then c.(right := Node(s, Nil, Nil)) else c.(left := Node(s, Nil, Nil))
  }

  function Child(c: Trie, side: bool): Trie
    requires c.Node?
  {
    if side then c.right else c.left
  }

  ghost predicate FreshIn(bins: Bins, bins': Bins, s: nat, x: int)
  {
    s !in bins && x > 0 && bins' == bins[s := [x]] && NotBinned(bins, x)
  }

  lemma FreshNodeApart(k: Links, bins: Bins, bins': Bins, t: int, side: bool, s: nat, x: int, i: nat, trie: Trie)
    requires FreshIn(bins, bins', s, x)
    requires forall q :: q in Sizes(trie) ==> q in bins && bins[q] != [] && bins[q][0] != t
    ensures forall q :: q in Sizes(trie) ==>
      SameNode(k, bins, SetSlot(FreshNode(k, x, t, i), t, side, x), bins', q)
  {
    forall q | q in Sizes(trie) ensures SameNode(k, bins, SetSlot(FreshNode(k, x, t, i), t, side, x), bins', q) {
      assert bins[q][0] in bins[q];
    }
  }

  /** Hanging a fresh chunk into an empty slot of the root. */
  lemma RepNewChild(k: Links, bins: Bins, bins': Bins, t: int, par: int, sub: Trie, side: bool, s: nat, x: int, i: nat)
    requires Injective(bins) && sub.Node? && Rep(k, bins, t, par, sub) && Child(sub, side) == Nil
    requires sub.size !in Sizes(Child(sub, !side)) && FreshIn(bins, bins', s, x)
    ensures Rep(SetSlot(FreshNode(k, x, t, i), t, side, x), bins', t, par, WithLeaf(sub, side, s))
  {
    var k' := SetSlot(FreshNode(k, x, t, i), t, side, x);
    var other := Child(sub, !side);
    assert t in bins[sub.size];
    var o := if side then At(k.child0, t) else At(k.child1, t);
    RepSizes(k, bins, o, t, other);
    FreshNodeApart(k, bins, bins', t, side, s, x, i, other);
    RepFrame(k, bins, k', bins', o, t, other);
    assert x != t;
    assert At(k'.child0, x) == 0 && At(k'.child1, x) == 0 && At(k'.parent, x) == t;
    assert Rep(k', bins', x, t, Node(s, Nil, Nil));
  }

  /** Hanging a fresh chunk into an empty slot of node t. */
  lemma RepInsertLeaf(k: Links, bins: Bins, bins': Bins, root: int, par: int, trie: Trie, lo: nat, level: nat,
                      c: nat, side: bool, s: nat, x: int, i: nat)
    requires TrieOk(trie, lo, level) && Injective(bins) && Rep(k, bins, root, par, trie)
    requires c in Sizes(trie) && c in bins && bins[c] != [] && Child(Sub(trie, c), side) == Nil
    requires FreshIn(bins, bins', s, x)
    ensures Rep(SetSlot(FreshNode(k, x, bins[c][0], i), bins[c][0], side, x), bins', root, par,
                Replace(trie, c, WithLeaf(Sub(trie, c), side, s)))
  {
    hide *;
    var t, sub := bins[c][0], Sub(trie, c);
    var k' := SetSlot(FreshNode(k, x, t, i), t, side, x);
    var u := WithLeaf(sub, side, s);
    RepSub(k, bins, root, par, trie, c);
    SubRoot(trie, c, side, lo, level);
    RepNewChild(k, bins, bins', t, At(k.parent, t), sub, side, s, x, i);
    RepSizes(k, bins, root, par, trie);
    forall q | q in Sizes(trie) - Sizes(sub) ensures SameNode(k, bins, k', bins', q) {
      FreshSame(k, bins, bins', c, side, s, x, i, q);
    }
    RepInContext(k, bins, k', bins', root, par, trie, lo, level, c, u);
  }

  lemma SubRoot(trie: Trie, c: nat, side: bool, lo: nat, level: nat)
    requires TrieOk(trie, lo, level) && c in Sizes(trie)
    ensures var sub := Sub(trie, c);
      sub.Node? && sub.size == c && c in Sizes(sub) && c !in Sizes(Child(sub, !side))
  {
    var _, _ := SubOk(trie, c, lo, level);
    hide Sub;
  }

  lemma FreshSame(k: Links, bins: Bins, bins': Bins, c: nat, side: bool, s: nat, x: int, i: nat, q: nat)
    requires Injective(bins) && FreshIn(bins, bins', s, x) && c in bins && bins[c] != []
    requires q in bins && bins[q] != [] && q != c
    ensures SameNode(k, bins, SetSlot(FreshNode(k, x, bins[c][0], i), bins[c][0], side, x), bins', q)
  {
    assert bins[q][0] in bins[q];
  }

  /** Rebuilding a subtree below an unchanged chunk rebuilds the whole trie. */
  lemma RepInContext(k: Links, bins: Bins, k': Links, bins': Bins, root: int, par: int, trie: Trie, lo: nat, level: nat,
                     c: nat, u: Trie)
    requires TrieOk(trie, lo, level) && Injective(bins) && Rep(k, bins, root, par, trie)
    requires c in Sizes(trie) && c in bins && bins[c] != []
    requires Rep(k', bins', bins[c][0], At(k.parent, bins[c][0]), u)
    requires forall q :: q in Sizes(trie) - Sizes(Sub(trie, c)) ==> SameNode(k, bins, k', bins', q)
    ensures Rep(k', bins', root, par, Replace(trie, c, u))
  {
    RepSub(k, bins, root, par, trie, c);
    if c != trie.size {
      var p := ParentSize(trie, c);
      ParentOf(k, bins, root, par, trie, c);
      ParentOutside(trie, c, lo, level);
      assert SameNode(k, bins, k', bins', p);
      ParentSlot(k, bins, root, par, trie, c, lo, level);
      RepReplace(k, bins, k', bins', root, par, trie, c, bins[c][0], u, lo, level);
    }
  }

  lemma {:induction false} SubOk(trie: Trie, c: nat, lo: nat, level: nat) returns (lo': nat, level': nat)
    requires TrieOk(trie, lo, level) && c in Sizes(trie)
    ensures c !in Sizes(Sub(trie, c).left) && c !in Sizes(Sub(trie, c).right)
    ensures TrieOk(Sub(trie, c), lo', level')
    decreases trie
  {
    lo', level' := lo, level;
    if trie.size != c {
      if c in Sizes(trie.left) {
        lo', level' := SubOk(trie.left, c, lo, level - 1);
      } else {
        lo', level' := SubOk(trie.right, c, lo + Pow2(level - 1), level - 1);
      }
    }
  }

  lemma {:induction false} ParentOutside(trie: Trie, c: nat, lo: nat, level: nat)
    requires TrieOk(trie, lo, level) && c in Sizes(trie) && c != trie.size
    ensures ParentSize(trie, c) !in Sizes(Sub(trie, c))
    decreases trie
  {
    LeftBelowRight(trie, lo, level);
    if c in Sizes(trie.left) {
      if trie.left.size != c {
        ParentOutside(trie.left, c, lo, level - 1);
      }
    } else if trie.right.size != c {
      ParentOutside(trie.right, c, lo + Pow2(level - 1), level - 1);
    }
  }

  /** The slot of the parent that holds the chunk is the one the code finds by comparing pointers. */
  lemma {:induction false} ParentSlot(k: Links, bins: Bins, root: int, par: int, trie: Trie, c: nat, lo: nat,
      level: nat)
    requires TrieOk(trie, lo, level) && Injective(bins) && Rep(k, bins, root, par, trie)
    requires c in Sizes(trie) && c != trie.size
    ensures ParentSize(trie, c) in bins && bins[ParentSize(trie, c)] != [] && c in bins && bins[c] != []
    ensures At(k.child0, bins[ParentSize(trie, c)][0]) != bins[c][0] ==>
      At(k.child1, bins[ParentSize(trie, c)][0]) == bins[c][0]
    decreases trie
  {
    RepSizes(k, bins, root, par, trie);
    if c in Sizes(trie.left) {
      if trie.left.size != c {
        ParentSlot(k, bins, At(k.child0, root), root, trie.left, c, lo, level - 1);
      }
    } else if trie.right.size != c {
      ParentSlot(k, bins, At(k.child1, root), root, trie.right, c, lo + Pow2(level - 1), level - 1);
    }
  }

  // ---- Removal -----------------------------------------------------------

  /** A null child is not written: neither the slot of its new parent nor a parent field. */
  function Given(slot: map<int, int>, y: int, c: int): map<int, int>
  {
    if c == 0 then slot else slot[y := c]
  }

  function Owned(parent: map<int, int>, c: int, y: int): map<int, int>
  {
    if c == 0 then parent else parent[c := y]
  }

  /** Node y steps into the place of node x: it takes x's parent and x's non-null children. */
  function Adopt(k: Links, x: int, y: int): Links
  {
    var c0, c1 := At(k.child0, x), At(k.child1, x);
    k.(child0 := Given(k.child0, y, c0), child1 := Given(k.child1, y, c1),
       parent := Owned(Owned(k.parent[y := At(k.parent, x)], c0, y), c1, y))
  }

  /** The parent's slot for x is redirected to y. */
  function Redirect(k: Links, xp: int, x: int, y: int): Links
  {
    SetSlot(k, xp, At(k.child0, xp) != x, y)
  }

  predicate SameChildren(k: Links, k': Links, a: int)
  {
    At(k'.child0, a) == At(k.child0, a) && At(k'.child1, a) == At(k.child1, a)
  }

  lemma OwnedEffect(parent: map<int, int>, p: int, c0: int, c1: int, y: int)
    requires y > 0 && c0 != y && c1 != y
    ensures var parent' := Owned(Owned(parent[y := p], c0, y), c1, y);
      At(parent', y) == p && (c0 != 0 ==> At(parent', c0) == y) && (c1 != 0 ==> At(parent', c1) == y) &&
      forall a :: a != y && (a == 0 || a != c0) && (a == 0 || a != c1) ==> At(parent', a) == At(parent, a)
  {
  }

  lemma GivenEffect(slot: map<int, int>, y: int, c: int)
    requires At(slot, y) == 0
    ensures At(Given(slot, y, c), y) == c
    ensures forall a :: a != y ==> At(Given(slot, y, c), a) == At(slot, a)
  {
  }

  lemma RepAdopt(k: Links, bins: Bins, bins': Bins, x: int, y: int, s: nat, par: int,
                 trie: Trie, lo: nat, level: nat)
    requires trie.Node? && TrieOk(trie, lo, level) && Injective(bins) && Rep(k, bins, x, par, trie)
    requires s in bins' && bins'[s] != [] && y == bins'[s][0] && y > 0 && y != x
    requires At(k.child0, y) == 0 && At(k.child1, y) == 0
    requires forall q :: q in Sizes(trie.left) + Sizes(trie.right) ==> SameHead(bins, bins', q) && bins[q][0] != y
    ensures Rep(Adopt(k, x, y), bins', y, par, Node(s, trie.left, trie.right))
  {
    var k' := Adopt(k, x, y);
    var c0, c1 := At(k.child0, x), At(k.child1, x);
    LeftBelowRight(trie, lo, level);
    RepSizes(k, bins, x, par, trie);
    ChildHeads(k, bins, x, par, trie);
    OwnedEffect(k.parent, At(k.parent, x), c0, c1, y);
    GivenEffect(k.child0, y, c0);
    GivenEffect(k.child1, y, c1);
    forall q | q in Sizes(trie.left) + Sizes(trie.right)
      ensures if Is(trie.left, q) || Is(trie.right, q) then AdoptedNode(k, bins, k', bins', q, y)
        else SameNode(k, bins, k', bins', q)
    {
      var a := bins[q][0];
      assert a > 0 && a != y;
      assert SameChildren(k, k', a);
      if Is(trie.left, q) {
        assert a == c0;
      } else if Is(trie.right, q) {
        assert a == c1;
      } else {
        assert a != c0 && a != c1;
      }
    }
    RepSwapRoot(k, bins, k', bins', x, y, s, par, At(k.parent, x), trie, lo, level);
  }

  lemma ChildHeads(k: Links, bins: Bins, x: int, par: int, trie: Trie)
    requires trie.Node? && Rep(k, bins, x, par, trie)
    ensures trie.left == Nil ==> At(k.child0, x) == 0
    ensures trie.right == Nil ==> At(k.child1, x) == 0
    ensures trie.left.Node? ==>
      trie.left.size in Sizes(trie.left) && trie.left.size in bins && bins[trie.left.size] != []
    ensures trie.left.Node? ==> At(k.child0, x) == bins[trie.left.size][0]
    ensures trie.right.Node? ==>
      trie.right.size in Sizes(trie.right) && trie.right.size in bins && bins[trie.right.size] != []
    ensures trie.right.Node? ==> At(k.child1, x) == bins[trie.right.size][0]
  {
  }

  // ---- Whole insertions --------------------------------------------------

  ghost predicate NewLarge(head: map<int, Head>, bins: Bins, x: int, s: nat)
  {
    x > 0 && x in head && head[x].size == s && s % 8 == 0 && MIN_LARGE_SIZE <= s < INDEX_LIMIT && NotBinned(bins, x)
  }

  /** Chunk x joins the ring of its size right behind the chunk that is in the tree. */
  function JoinRing(k: Links, x: int, t: int, f: int, i: nat): Links
  {
    k.(fd := k.fd[t := x][x := f], bk := k.bk[f := x][x := t], parent := k.parent[x := 0],
       child0 := k.child0[x := 0], child1 := k.child1[x := 0], index := k.index[x := i])
  }

  lemma JoinRingLocal(k: Links, bins: Bins, x: int, t: int, f: int, s: nat)
    requires InList(bins, s, t) && InList(bins, s, f)
    ensures Local(k, JoinRing(k, x, t, f, TreeIndex(s)), bins, s, TreeIndex(s), x)
  {
  }

  lemma JoinRingShape(head: map<int, Head>, k: Links, bins: Bins, x: int, s: nat)
    requires NewLarge(head, bins, x, s) && s in bins && bins[s] != [] && RingOk(k, bins, s)
    ensures InList(bins, s, At(k.fd, bins[s][0]))
    ensures var t := bins[s][0];
      RingOk(JoinRing(k, x, t, At(k.fd, t), TreeIndex(s)), bins[s := [t, x] + bins[s][1..]], s)
  {
    var t := bins[s][0];
    var c := bins[s];
    var k' := JoinRing(k, x, t, At(k.fd, t), TreeIndex(s));
    CycleInsert(k.fd, k.bk, c, x);
    var c' := [t, x] + c[1..];
    forall j | 0 <= j < |c'|
      ensures At(k'.index, c'[j]) == TreeIndex(s) && (j >= 1 ==> Spare(k', c'[j]))
    {
      if j >= 2 {
        assert c'[j] == c[j - 1] && c[j - 1] in c;
      } else if j == 0 {
        assert c[0] in c;
      }
    }
  }

  lemma InsertRingOk(head: map<int, Head>, k: Links, smallmap: set<nat>, treemap: set<nat>, treebins: seq<int>,
                     bins: Bins, tries: seq<Trie>, x: int, s: nat)
    requires BinsOk(head, k, smallmap, treemap, treebins, bins, tries)
    requires NewLarge(head, bins, x, s) && s in bins
    ensures bins[s] != [] && InList(bins, s, At(k.fd, bins[s][0]))
    ensures var t := bins[s][0]; var bins' := bins[s := [t, x] + bins[s][1..]];
      Added(bins, bins', s, x) &&
      BinsOk(head, JoinRing(k, x, t, At(k.fd, t), TreeIndex(s)), smallmap, treemap, treebins, bins', tries)
  {
    assert ListOk(head, bins, s) && RingOk(k, bins, s);
    var t, i := bins[s][0], TreeIndex(s);
    var bins' := bins[s := [t, x] + bins[s][1..]];
    var k' := JoinRing(k, x, t, At(k.fd, t), i);
    JoinRingShape(head, k, bins, x, s);
    JoinRingLocal(k, bins, x, t, At(k.fd, t), s);
    JoinRingTree(head, k, treemap, treebins, bins, tries, x, s);
    JoinRingAdded(head, bins, x, s);
    LargeOpOk(head, k, smallmap, treemap, treebins, bins, tries, k', treemap, treebins, bins', tries, s, x);
  }

  lemma JoinRingAdded(head: map<int, Head>, bins: Bins, x: int, s: nat)
    requires Listed(head, bins) && NewLarge(head, bins, x, s) && s in bins && bins[s] != []
    ensures var bins' := bins[s := [bins[s][0], x] + bins[s][1..]]; Added(bins, bins', s, x) && Listed(head, bins')
  {
    assert bins[s] == [bins[s][0]] + bins[s][1..];
    AddedListed(head, bins, bins[s := [bins[s][0], x] + bins[s][1..]], s, x);
  }

  lemma JoinRingTree(head: map<int, Head>, k: Links, treemap: set<nat>, treebins: seq<int>,
                     bins: Bins, tries: seq<Trie>, x: int, s: nat)
    requires Listed(head, bins) && NewLarge(head, bins, x, s) && s in bins && bins[s] != []
    requires TreeOk(k, treemap, treebins, bins, tries, TreeIndex(s))
    ensures var t := bins[s][0]; TreeOk(JoinRing(k, x, t, At(k.fd, t), TreeIndex(s)), treemap, treebins,
                                        bins[s := [t, x] + bins[s][1..]], tries, TreeIndex(s))
  {
    var t, i := bins[s][0], TreeIndex(s);
    var bins' := bins[s := [t, x] + bins[s][1..]];
    var k' := JoinRing(k, x, t, At(k.fd, t), i);
    forall q | q in Sizes(tries[i]) ensures SameNode(k, bins, k', bins', q) {
      assert ListOk(head, bins, q);
      assert bins[q][0] in bins[q];
    }
    RepFrame(k, bins, k', bins', treebins[i], TreeBinAt(i), tries[i]);
  }

  lemma FreshLocal(k: Links, bins: Bins, x: int, par: int, side: bool, s: nat)
    requires par < 0 || NodeOf(bins, TreeIndex(s), par)
    ensures Local(k, FreshNode(k, x, par, TreeIndex(s)), bins, s, TreeIndex(s), x)
    ensures par > 0 ==> Local(k, SetSlot(FreshNode(k, x, par, TreeIndex(s)), par, side, x), bins, s, TreeIndex(s), x)
  {
  }

  lemma FreshRing(k: Links, bins: Bins, x: int, par: int, side: bool, s: nat, t: int)
    requires s !in bins && t != x
    ensures RingOk(FreshNode(k, x, par, TreeIndex(s)), bins[s := [x]], s)
    ensures RingOk(SetSlot(FreshNode(k, x, par, TreeIndex(s)), t, side, x), bins[s := [x]], s)
  {
  }

  lemma FreshFacts(head: map<int, Head>, bins: Bins, x: int, s: nat)
    requires Listed(head, bins) && NewLarge(head, bins, x, s) && s !in bins
    ensures FreshIn(bins, bins[s := [x]], s, x) && Added(bins, bins[s := [x]], s, x) && Listed(head, bins[s := [x]])
    ensures Injective(bins)
  {
    AddedListed(head, bins, bins[s := [x]], s, x);
    ListsInjective(head, bins);
  }

  lemma InsertFirstOk(head: map<int, Head>, k: Links, smallmap: set<nat>, treemap: set<nat>, treebins: seq<int>,
                      bins: Bins, tries: seq<Trie>, x: int, s: nat)
    requires BinsOk(head, k, smallmap, treemap, treebins, bins, tries)
    requires NewLarge(head, bins, x, s) && TreeIndex(s) !in treemap
    ensures s !in bins && Added(bins, bins[s := [x]], s, x)
    ensures var i := TreeIndex(s);
      BinsOk(head, FreshNode(k, x, TreeBinAt(i), i), smallmap, treemap + {i}, treebins[i := x],
             bins[s := [x]], tries[i := Node(s, Nil, Nil)])
  {
    var i := TreeIndex(s);
    assert TreeOk(k, treemap, treebins, bins, tries, i);
    assert s !in Sizes(tries[i]);
    FreshFacts(head, bins, x, s);
    FreshLocal(k, bins, x, TreeBinAt(i), false, s);
    FreshRing(k, bins, x, TreeBinAt(i), false, s, 0);
    IndexRange(s);
    var k' := FreshNode(k, x, TreeBinAt(i), i);
    assert At(k'.child0, x) == 0 && At(k'.child1, x) == 0;
    assert Rep(k', bins[s := [x]], x, TreeBinAt(i), Node(s, Nil, Nil));
    LargeOpOk(head, k, smallmap, treemap, treebins, bins, tries, k', treemap + {i}, treebins[i := x],
              bins[s := [x]], tries[i := Node(s, Nil, Nil)], s, x);
  }

  lemma InsertLeafOk(head: map<int, Head>, k: Links, smallmap: set<nat>, treemap: set<nat>, treebins: seq<int>,
                     bins: Bins, tries: seq<Trie>, x: int, s: nat, c: nat, side: bool, u: Trie)
    requires BinsOk(head, k, smallmap, treemap, treebins, bins, tries)
    requires NewLarge(head, bins, x, s)
    requires c in bins && bins[c] != []
    requires IsSlot(tries[TreeIndex(s)], s, LowOf(TreeIndex(s)), LevelOf(TreeIndex(s)), c, side)
    requires u == Insert(tries[TreeIndex(s)], s, LowOf(TreeIndex(s)), LevelOf(TreeIndex(s)))
    ensures Added(bins, bins[s := [x]], s, x)
    ensures var i := TreeIndex(s); var t := bins[c][0];
      BinsOk(head, SetSlot(FreshNode(k, x, t, i), t, side, x), smallmap, treemap, treebins,
             bins[s := [x]], tries[i := u])
  {
    hide *;
    var i, t := TreeIndex(s), bins[c][0];
    InsertLeafReady(head, k, smallmap, treemap, treebins, bins, tries, x, s, c, side);
    FreshFacts(head, bins, x, s);
    FreshLocal(k, bins, x, t, side, s);
    FreshRing(k, bins, x, t, side, s, t);
    InsertLeafTree(head, k, treemap, treebins, bins, tries, x, s, c, side, u);
    LargeOpOk(head, k, smallmap, treemap, treebins, bins, tries, SetSlot(FreshNode(k, x, t, i), t, side, x),
              treemap, treebins, bins[s := [x]], tries[i := u], s, x);
  }

  /** What the trees and lists say about the slot and the chunk that is to fill it. */
  lemma InsertLeafReady(head: map<int, Head>, k: Links, smallmap: set<nat>, treemap: set<nat>, treebins: seq<int>,
                        bins: Bins, tries: seq<Trie>, x: int, s: nat, c: nat, side: bool)
    requires BinsOk(head, k, smallmap, treemap, treebins, bins, tries) && NewLarge(head, bins, x, s)
    requires c in bins && bins[c] != []
    requires IsSlot(tries[TreeIndex(s)], s, LowOf(TreeIndex(s)), LevelOf(TreeIndex(s)), c, side)
    ensures Listed(head, bins) && |treebins| == NTREEBINS && |tries| == NTREEBINS && TreeIndex(s) < NTREEBINS
    ensures x > 0 && s % 8 == 0 && s >= MIN_LARGE_SIZE && NotBinned(bins, x) && s !in bins && c != s && c in bins
    ensures TreeOk(k, treemap, treebins, bins, tries, TreeIndex(s))
    ensures bins[c][0] > 0 && bins[c][0] != x && NodeOf(bins, TreeIndex(s), bins[c][0])
    ensures var trie, lo, level := tries[TreeIndex(s)], LowOf(TreeIndex(s)), LevelOf(TreeIndex(s));
      c in Sizes(trie) && Child(Sub(trie, c), side) == Nil && trie.Node? &&
      Insert(trie, s, lo, level) == Replace(trie, c, WithLeaf(Sub(trie, c), side, s)) &&
      TrieOk(Insert(trie, s, lo, level), lo, level) && Sizes(Insert(trie, s, lo, level)) == Sizes(trie) + {s} &&
      Insert(trie, s, lo, level).Node?
  {
    var i, t := TreeIndex(s), bins[c][0];
    assert TreeOk(k, treemap, treebins, bins, tries, i);
    assert s !in bins;
    assert ListOk(head, bins, c);
    assert t in bins[c] && t > 0;
    assert NodeOf(bins, i, t);
    hide Sub, Replace, TreeIndex, LowOf, LevelOf;
  }

  lemma TreeParts(k: Links, treemap: set<nat>, treebins: seq<int>, bins: Bins, tries: seq<Trie>, i: nat)
    requires TreeOk(k, treemap, treebins, bins, tries, i)
    ensures |treebins| == NTREEBINS && |tries| == NTREEBINS && i < NTREEBINS
    ensures TrieOk(tries[i], LowOf(i), LevelOf(i)) && Rep(k, bins, treebins[i], TreeBinAt(i), tries[i])
    ensures i in treemap <==> tries[i].Node?
  {
    hide Rep, TrieOk, Sizes;
  }

  lemma WholeTree(k: Links, treemap: set<nat>, treebins: seq<int>, bins: Bins, tries: seq<Trie>, i: nat)
    requires |treebins| == NTREEBINS && |tries| == NTREEBINS && i < NTREEBINS
    requires i in treemap <==> tries[i].Node?
    requires forall s :: s in Sizes(tries[i]) <==> s in bins && s >= MIN_LARGE_SIZE && TreeIndex(s) == i
    ensures TrieOk(tries[i], LowOf(i), LevelOf(i)) && Rep(k, bins, treebins[i], TreeBinAt(i), tries[i]) ==>
      TreeOk(k, treemap, treebins, bins, tries, i)
  {
    hide Rep, TrieOk, Sizes, TreeIndex;
  }

  lemma SizesGrow(head: map<int, Head>, k: Links, treemap: set<nat>, treebins: seq<int>, bins: Bins, tries: seq<Trie>,
                  x: int, s: nat, sizes: set<nat>)
    requires TreeOk(k, treemap, treebins, bins, tries, TreeIndex(s)) && NewLarge(head, bins, x, s)
    requires sizes == Sizes(tries[TreeIndex(s)]) + {s} && Sizes(tries[TreeIndex(s)]) != {}
    ensures tries[TreeIndex(s)].Node?
    ensures forall q :: q in sizes <==> q in bins[s := [x]] && q >= MIN_LARGE_SIZE && TreeIndex(q) == TreeIndex(s)
  {
    hide Rep, TrieOk, TreeIndex;
  }

  lemma InsertLeafTree(head: map<int, Head>, k: Links, treemap: set<nat>, treebins: seq<int>,
                       bins: Bins, tries: seq<Trie>, x: int, s: nat, c: nat, side: bool, u: Trie)
    requires Listed(head, bins) && TreeOk(k, treemap, treebins, bins, tries, TreeIndex(s))
    requires NewLarge(head, bins, x, s) && s !in bins
    requires c in bins && bins[c] != [] && c in Sizes(tries[TreeIndex(s)]) && c != s
    requires Child(Sub(tries[TreeIndex(s)], c), side) == Nil
    requires u == Replace(tries[TreeIndex(s)], c, WithLeaf(Sub(tries[TreeIndex(s)], c), side, s))
    requires TrieOk(u, LowOf(TreeIndex(s)), LevelOf(TreeIndex(s))) && Sizes(u) == Sizes(tries[TreeIndex(s)]) + {s}
    requires u.Node?
    ensures var i := TreeIndex(s); var t := bins[c][0];
      TreeOk(SetSlot(FreshNode(k, x, t, i), t, side, x), treemap, treebins, bins[s := [x]], tries[i := u], i)
  {
    hide *;
    var i, t := TreeIndex(s), bins[c][0];
    TreeParts(k, treemap, treebins, bins, tries, i);
    FreshFacts(head, bins, x, s);
    SizesGrow(head, k, treemap, treebins, bins, tries, x, s, Sizes(u));
    WholeTree(SetSlot(FreshNode(k, x, t, i), t, side, x), treemap, treebins, bins[s := [x]], tries[i := u], i);
    RepInsertLeaf(k, bins, bins[s := [x]], treebins[i], TreeBinAt(i), tries[i], LowOf(i), LevelOf(i), c, side, s, x, i);
  }

  // ---- The insertion walk ------------------------------------------------

  /** Insertion of s below root ends in the given empty slot of node c. */
  ghost predicate IsSlot(root: Trie, s: nat, lo0: nat, level0: nat, c: nat, side: bool)
  {
    TrieOk(root, lo0, level0) && lo0 <= s < lo0 + Pow2(level0) && s !in Sizes(root) &&
    c in Sizes(root) && Child(Sub(root, c), side) == Nil &&
    Insert(root, s, lo0, level0) == Replace(root, c, WithLeaf(Sub(root, c), side, s))
  }

  /** The walk for s stands at chunk t, whose subtree is sub. */
  ghost predicate Walk(k: Links, bins: Bins, root: Trie, s: nat, lo0: nat, level0: nat,
                       t: int, bits: nat, sub: Trie, lo: nat, level: nat)
  {
    TrieOk(root, lo0, level0) && lo0 <= s < lo0 + Pow2(level0) &&
    sub.Node? && sub.size in Sizes(root) && sub == Sub(root, sub.size) &&
    sub.size in bins && bins[sub.size] != [] && t == bins[sub.size][0] && Rep(k, bins, t, At(k.parent, t), sub) &&
    TrieOk(sub, lo, level) && BitsOf(bits, s, lo, level) && (s in Sizes(root) ==> s in Sizes(sub)) &&
    Replace(root, sub.size, Insert(sub, s, lo, level)) == Insert(root, s, lo0, level0)
  }

  lemma WalkStart(k: Links, bins: Bins, root: Trie, s: nat, lo0: nat, level0: nat, t: int, par: int, bits: nat)
    requires root.Node? && TrieOk(root, lo0, level0) && BitsOf(bits, s, lo0, level0) && Rep(k, bins, t, par, root)
    ensures Walk(k, bins, root, s, lo0, level0, t, bits, root, lo0, level0)
  {
    ReplaceRoot(root, Insert(root, s, lo0, level0));
  }

  lemma WalkReady(head: map<int, Head>, k: Links, smallmap: set<nat>, treemap: set<nat>, treebins: seq<int>,
                  bins: Bins, tries: seq<Trie>, s: nat)
    requires BinsOk(head, k, smallmap, treemap, treebins, bins, tries)
    requires MIN_LARGE_SIZE <= s < INDEX_LIMIT && TreeIndex(s) in treemap
    ensures Listed(head, bins) && LowOf(TreeIndex(s)) <= s < LowOf(TreeIndex(s)) + Pow2(LevelOf(TreeIndex(s)))
    ensures TrieOk(tries[TreeIndex(s)], LowOf(TreeIndex(s)), LevelOf(TreeIndex(s)))
    ensures s in Sizes(tries[TreeIndex(s)]) ==> s in bins
    ensures Walk(k, bins, tries[TreeIndex(s)], s, LowOf(TreeIndex(s)), LevelOf(TreeIndex(s)), treebins[TreeIndex(s)],
                 FirstBits(s, TreeIndex(s)), tries[TreeIndex(s)], LowOf(TreeIndex(s)), LevelOf(TreeIndex(s)))
  {
    var i := TreeIndex(s);
    assert TreeOk(k, treemap, treebins, bins, tries, i);
    IndexRange(s);
    ShiftedBits(s);
    WalkStart(k, bins, tries[i], s, LowOf(i), LevelOf(i), treebins[i], TreeBinAt(i), FirstBits(s, i));
  }

  lemma WalkAt(head: map<int, Head>, k: Links, bins: Bins, root: Trie, s: nat, lo0: nat, level0: nat,
               t: int, bits: nat, sub: Trie, lo: nat, level: nat)
    requires Walk(k, bins, root, s, lo0, level0, t, bits, sub, lo, level) && Listed(head, bins)
    ensures sub.Node? && sub.size in Sizes(root) && sub.size in bins && bins[sub.size] != [] && t == bins[sub.size][0]
    ensures t in head && head[t].size == sub.size
  {
    SizeAt(head, bins, sub.size);
  }

  /** One turn of the loop: either the slot is empty and is the right one, or the walk goes on below it. */
  lemma WalkStep(k: Links, bins: Bins, root: Trie, s: nat, lo0: nat, level0: nat,
                 t: int, bits: nat, sub: Trie, lo: nat, level: nat)
    requires Walk(k, bins, root, s, lo0, level0, t, bits, sub, lo, level) && sub.size != s
    ensures level > 0
    ensures var side := bits >= SIZE_T_MODULUS / 2; var slot := if side then At(k.child1, t) else At(k.child0, t);
      if slot == 0 then IsSlot(root, s, lo0, level0, sub.size, side)
      else Child(sub, side).Node? && Walk(k, bins, root, s, lo0, level0, slot, NextBits(bits),
             Child(sub, side), if side then lo + Pow2(level - 1) else lo, level - 1)
  {
    var side := bits >= SIZE_T_MODULUS / 2;
    BitStep(bits, s, lo, level);
    DescendTrie(root, sub, s, lo, level, side, lo0, level0);
    SideOf(sub, s, lo, level);
    RepChild(k, bins, t, sub, side);
  }

  lemma DescendTrie(root: Trie, c: Trie, s: nat, lo: nat, level: nat, side: bool, lo0: nat, level0: nat)
    requires TrieOk(root, lo0, level0) && lo0 <= s < lo0 + Pow2(level0)
    requires c.Node? && c.size in Sizes(root) && c == Sub(root, c.size) && c.size != s
    requires level > 0 && TrieOk(c, lo, level) && lo <= s < lo + Pow2(level)
    requires side <==> s >= lo + Pow2(level - 1)
    requires Replace(root, c.size, Insert(c, s, lo, level)) == Insert(root, s, lo0, level0)
    ensures Child(c, side) == Nil ==> Insert(root, s, lo0, level0) == Replace(root, c.size, WithLeaf(c, side, s))
    ensures var d := Child(c, side); var lo' := if side then lo + Pow2(level - 1) else lo;
      d.Node? ==> (
        d.size in Sizes(root) && d == Sub(root, d.size) && TrieOk(d, lo', level - 1) &&
        lo' <= s < lo' + Pow2(level - 1) &&
        Replace(root, d.size, Insert(d, s, lo', level - 1)) == Insert(root, s, lo0, level0))
  {
    var d := Child(c, side);
    var lo' := if side then lo + Pow2(level - 1) else lo;
    if d.Node? {
      ReplaceDeeper(root, c.size, d.size, Insert(d, s, lo', level - 1), lo0, level0);
      LeftBelowRight(c, lo, level);
    }
  }

  lemma RepChild(k: Links, bins: Bins, t: int, c: Trie, side: bool)
    requires c.Node? && Rep(k, bins, t, At(k.parent, t), c)
    ensures var slot := if side then At(k.child1, t) else At(k.child0, t); var d := Child(c, side);
      (slot != 0 <==> d.Node?) &&
      (d.Node? ==>
        d.size in bins && bins[d.size] != [] && slot == bins[d.size][0] && Rep(k, bins, slot, At(k.parent, slot), d))
  {
  }
}
