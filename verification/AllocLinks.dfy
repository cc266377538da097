/**
 The pointers of the allocator's bins: circular chunk lists, and size tries threaded
 through the chunks themselves. Addresses are integers, 0 is the null pointer, and the
 list heads inside the allocator state have negative addresses.
 */
module AllocLinks {
  import opened AllocTrie

  datatype Head = Head(size: nat, cinuse: bool, pinuse: bool)

  /** The fields that overlay a free chunk's body. */
  datatype Links = Links(fd: map<int, int>, bk: map<int, int>,
                         child0: map<int, int>, child1: map<int, int>,
                         parent: map<int, int>, index: map<int, int>)

  function At(m: map<int, int>, a: int): int
  {
    if a in m then m[a] else 0
  }

  function SmallBinAt(i: nat): int { -1 - i }

  function TreeBinAt(i: nat): int { -101 - i }

  // ---- Circular lists ----------------------------------------------------

  ghost predicate Distinct(c: seq<int>)
  {
    forall i, j :: 0 <= i < j < |c| ==> c[i] != c[j]
  }

  ghost predicate Cycle(fd: map<int, int>, bk: map<int, int>, c: seq<int>)
  {
    |c| > 0 && Distinct(c) &&
    At(fd, c[|c| - 1]) == c[0] && At(bk, c[0]) == c[|c| - 1] &&
    forall i :: 0 <= i < |c| - 1 ==> At(fd, c[i]) == c[i + 1] && At(bk, c[i + 1]) == c[i]
  }

  lemma CycleFrame(fd: map<int, int>, bk: map<int, int>, fd': map<int, int>, bk': map<int, int>, c: seq<int>)
    requires Cycle(fd, bk, c)
    requires forall a :: a in c ==> At(fd', a) == At(fd, a) && At(bk', a) == At(bk, a)
    ensures Cycle(fd', bk', c)
  {
  }

  /** Linking x right behind the first element. */
  lemma CycleInsert(fd: map<int, int>, bk: map<int, int>, c: seq<int>, x: int)
    requires Cycle(fd, bk, c) && x !in c
    ensures At(fd, c[0]) in c
    ensures var f := At(fd, c[0]);
      Cycle(fd[c[0] := x][x := f], bk[f := x][x := c[0]], [c[0], x] + c[1..])
  {
    var f := At(fd, c[0]);
    var c' := [c[0], x] + c[1..];
    var fd', bk' := fd[c[0] := x][x := f], bk[f := x][x := c[0]];
    assert f == if |c| == 1 then c[0] else c[1];
    forall i | 0 <= i < |c'| - 1 ensures At(fd', c'[i]) == c'[i + 1] && At(bk', c'[i + 1]) == c'[i] {
      if i >= 2 {
        assert c'[i] == c[i - 1] && c'[i + 1] == c[i];
      }
    }
  }

  function RemoveAt(c: seq<int>, k: nat): (r: seq<int>)
    requires k < |c|
    ensures |r| == |c| - 1
    ensures forall i :: 0 <= i < k ==> r[i] == c[i]
    ensures forall i :: k <= i < |r| ==> r[i] == c[i + 1]
  {
    c[..k] + c[k + 1..]
  }

  /** Bridging over the element at index k. */
  lemma CycleRemove(fd: map<int, int>, bk: map<int, int>, c: seq<int>, k: nat)
    requires Cycle(fd, bk, c) && k < |c| && |c| > 1
    ensures var f, b := At(fd, c[k]), At(bk, c[k]);
      f in c && b in c && f != c[k] && b != c[k] &&
      Cycle(fd[b := f], bk[f := b], RemoveAt(c, k))
  {
    var f, b := At(fd, c[k]), At(bk, c[k]);
    var n := |c|;
    assert f == c[if k == n - 1 then 0 else k + 1];
    assert b == c[if k == 0 then n - 1 else k - 1];
    var c' := RemoveAt(c, k);
    var fd', bk' := fd[b := f], bk[f := b];
    assert Distinct(c');
    forall i | 0 <= i < |c'| - 1 ensures At(fd', c'[i]) == c'[i + 1] && At(bk', c'[i + 1]) == c'[i] {
      if i + 1 < k {
        assert c'[i] == c[i] && c'[i + 1] == c[i + 1];
        assert c[i] != b && c[i + 1] != f;
      } else if i + 1 > k {
        assert c'[i] == c[i + 1] && c'[i + 1] == c[i + 2];
        assert c[i + 1] != b && c[i + 2] != f;
      }
    }
    if k == 0 {
      assert c'[0] == c[1] && c'[n - 2] == c[n - 1];
    } else if k == n - 1 {
      assert c'[0] == c[0] && c'[n - 2] == c[n - 2];
    } else {
      assert c'[0] == c[0] && c'[n - 2] == c[n - 1];
    }
  }

  /** A cycle may be entered at its last element. */
  lemma CycleRotate(fd: map<int, int>, bk: map<int, int>, c: seq<int>)
    requires Cycle(fd, bk, c)
    ensures Cycle(fd, bk, [c[|c| - 1]] + c[..|c| - 1])
  {
    var c' := [c[|c| - 1]] + c[..|c| - 1];
    forall i | 0 <= i < |c'| - 1 ensures At(fd, c'[i]) == c'[i + 1] && At(bk, c'[i + 1]) == c'[i] {
      if i > 0 {
        assert c'[i] == c[i - 1] && c'[i + 1] == c[i];
      }
    }
  }

  // ---- Tries threaded through chunks -------------------------------------

  /** The chunks of each size that sit in some bin; a size is present only with a chunk. */
  type Bins = map<nat, seq<int>>

  /** The tree hanging at chunk t, whose parent field says par, is the trie. */
  ghost predicate Rep(k: Links, bins: Bins, t: int, par: int, trie: Trie)
    decreases trie
  {
    match trie
    case Nil => t == 0
    case Node(s, l, r) =>
      s in bins && bins[s] != [] && t == bins[s][0] && t > 0 && At(k.parent, t) == par &&
      Rep(k, bins, At(k.child0, t), t, l) && Rep(k, bins, At(k.child1, t), t, r)
  }

  /** Sizes have different chunks. */
  ghost predicate Injective(bins: Bins)
  {
    forall s, q :: s in bins && q in bins && s != q && bins[s] != [] && bins[q] != [] ==> bins[s][0] != bins[q][0]
  }

  ghost predicate SameNode(k: Links, bins: Bins, k': Links, bins': Bins, s: nat)
  {
    s in bins && bins[s] != [] && s in bins' && bins'[s] != [] && bins'[s][0] == bins[s][0] &&
    At(k'.parent, bins[s][0]) == At(k.parent, bins[s][0]) &&
    At(k'.child0, bins[s][0]) == At(k.child0, bins[s][0]) &&
    At(k'.child1, bins[s][0]) == At(k.child1, bins[s][0])
  }

  lemma {:induction false} RepSizes(k: Links, bins: Bins, t: int, par: int, trie: Trie)
    requires Rep(k, bins, t, par, trie)
    ensures forall s :: s in Sizes(trie) ==> s in bins && bins[s] != [] && bins[s][0] > 0
    decreases trie
  {
    if trie.Node? {
      RepSizes(k, bins, At(k.child0, t), t, trie.left);
      RepSizes(k, bins, At(k.child1, t), t, trie.right);
    }
  }

  lemma {:induction false} RepFrame(k: Links, bins: Bins, k': Links, bins': Bins, t: int, par: int, trie: Trie)
    requires Rep(k, bins, t, par, trie)
    requires forall s :: s in Sizes(trie) ==> SameNode(k, bins, k', bins', s)
    ensures Rep(k', bins', t, par, trie)
    decreases trie
  {
    if trie.Node? {
      assert SameNode(k, bins, k', bins', trie.size);
      RepFrame(k, bins, k', bins', At(k.child0, t), t, trie.left);
      RepFrame(k, bins, k', bins', At(k.child1, t), t, trie.right);
    }
  }

  /** The size of the node above the node of size s. */
  ghost function ParentSize(trie: Trie, s: nat): (q: nat)
    requires s in Sizes(trie) && s != trie.size
    ensures q in Sizes(trie)
    ensures s in Sizes(trie.left) ==> q == trie.size || q in Sizes(trie.left)
    ensures s !in Sizes(trie.left) ==> q == trie.size || q in Sizes(trie.right)
  {
    if s in Sizes(trie.left) then
      if trie.left.size == s then trie.size else ParentSize(trie.left, s)
    else
      assert s in Sizes(trie.right);
      if trie.right.size == s then trie.size else ParentSize(trie.right, s)
  }

  lemma {:induction false} ParentOf(k: Links, bins: Bins, t: int, par: int, trie: Trie, s: nat)
    requires Rep(k, bins, t, par, trie) && s in Sizes(trie) && s != trie.size
    ensures ParentSize(trie, s) in bins && bins[ParentSize(trie, s)] != []
    ensures s in bins && bins[s] != [] && At(k.parent, bins[s][0]) == bins[ParentSize(trie, s)][0]
    decreases trie
  {
    RepSizes(k, bins, t, par, trie);
    if s in Sizes(trie.left) {
      if trie.left.size != s {
        ParentOf(k, bins, At(k.child0, t), t, trie.left, s);
      }
    } else if trie.right.size != s {
      ParentOf(k, bins, At(k.child1, t), t, trie.right, s);
    }
  }

  /** The subtree at an inner node is represented at that node's chunk. */
  lemma {:induction false} RepSub(k: Links, bins: Bins, t: int, par: int, trie: Trie, s: nat)
    requires Rep(k, bins, t, par, trie) && s in Sizes(trie)
    ensures s in bins && bins[s] != []
    ensures Rep(k, bins, bins[s][0], At(k.parent, bins[s][0]), Sub(trie, s))
    ensures s == trie.size ==> bins[s][0] == t && At(k.parent, t) == par
    decreases trie
  {
    if trie.size != s {
      if s in Sizes(trie.left) {
        RepSub(k, bins, At(k.child0, t), t, trie.left, s);
      } else {
        RepSub(k, bins, At(k.child1, t), t, trie.right, s);
      }
    }
  }

  /** The slot of xp that pointed at x now points at x'. */
  ghost predicate SlotMoved(k: Links, k': Links, xp: int, x: int, x': int)
  {
    At(k'.parent, xp) == At(k.parent, xp) &&
    if At(k.child0, xp) == x
    then At(k'.child0, xp) == x' && At(k'.child1, xp) == At(k.child1, xp)
    else At(k'.child1, xp) == x' && At(k'.child0, xp) == At(k.child0, xp)
  }

  ghost predicate SameHead(bins: Bins, bins': Bins, q: nat)
  {
    q in bins && bins[q] != [] && q in bins' && bins'[q] != [] && bins'[q][0] == bins[q][0]
  }

  /** Exchanging a proper subtree: new nodes below, one slot of the parent, nothing else. */
  lemma {:induction false} RepReplace(k: Links, bins: Bins, k': Links, bins': Bins, t: int, par: int, trie: Trie,
                                      s: nat, x': int, u: Trie, lo: nat, level: nat)
    requires TrieOk(trie, lo, level) && Injective(bins)
    requires Rep(k, bins, t, par, trie) && s in Sizes(trie) && s != trie.size
    requires s in bins && bins[s] != []
    requires var p := ParentSize(trie, s);
      SameHead(bins, bins', p) &&
      Rep(k', bins', x', bins[p][0], u) && SlotMoved(k, k', bins[p][0], bins[s][0], x')
    requires forall q :: q in Sizes(trie) - Sizes(Sub(trie, s)) && q != ParentSize(trie, s) ==>
      SameNode(k, bins, k', bins', q)
    ensures Rep(k', bins', t, par, Replace(trie, s, u))
    decreases trie
  {
    var p := ParentSize(trie, s);
    LeftBelowRight(trie, lo, level);
    if s in Sizes(trie.left) {
      if trie.left.size == s {
      } else {
        RepReplace(k, bins, k', bins', At(k.child0, t), t, trie.left, s, x', u, lo, level - 1);
        assert SameNode(k, bins, k', bins', trie.size);
      }
      RepFrame(k, bins, k', bins', At(k.child1, t), t, trie.right);
    } else {
      if trie.right.size == s {
        LeftRootDiffers(k, bins, t, par, trie, s, lo, level);
      } else {
        RepReplace(k, bins, k', bins', At(k.child1, t), t, trie.right, s, x', u, lo + Arith.Pow2(level - 1), level - 1);
        assert SameNode(k, bins, k', bins', trie.size);
      }
      RepFrame(k, bins, k', bins', At(k.child0, t), t, trie.left);
    }
  }

  lemma LeftRootDiffers(k: Links, bins: Bins, t: int, par: int, trie: Trie, s: nat, lo: nat, level: nat)
    requires TrieOk(trie, lo, level) && Injective(bins)
    requires Rep(k, bins, t, par, trie) && trie.Node? && Is(trie.right, s)
    ensures s in bins && bins[s] != [] && At(k.child0, t) != bins[s][0]
  {
    LeftBelowRight(trie, lo, level);
    if trie.left.Node? {
      assert trie.left.size in Sizes(trie.left) && s in Sizes(trie.right);
    }
  }

  // ---- Taking the leaf out -----------------------------------------------

  predicate IsLeaf(t: Trie)
  {
    t.Node? && t.left == Nil && t.right == Nil
  }

  /** Whose slot, and which one, holds the leaf that DropLeaf drops. */
  ghost function Holder(trie: Trie): (r: (nat, bool))
    requires trie.Node? && !IsLeaf(trie)
    ensures r.0 in Sizes(trie)
    ensures r.0 == trie.size || r.0 in Sizes(if trie.right.Node? then trie.right else trie.left)
  {
    if trie.right.Node? then
      if IsLeaf(trie.right) then (trie.size, true) else Holder(trie.right)
    else
      if IsLeaf(trie.left) then (trie.size, false) else Holder(trie.left)
  }

  function ClearSlot(k: Links, a: int, side: bool): Links
  {
    if side then k.(child1 := k.child1[a := 0]) else k.(child0 := k.child0[a := 0])
  }

  lemma ClearSlotSame(k: Links, bins: Bins, a: int, side: bool, trie: Trie)
    requires forall q :: q in Sizes(trie) ==> q in bins && bins[q] != [] && bins[q][0] != a
    ensures forall q :: q in Sizes(trie) ==> SameNode(k, bins, ClearSlot(k, a, side), bins, q)
  {
  }

  /** Clearing that slot drops the leaf from the represented trie. */
  lemma {:induction false} RepDropLeaf(k: Links, bins: Bins, t: int, par: int, trie: Trie, lo: nat, level: nat)
    requires TrieOk(trie, lo, level) && Injective(bins)
    requires trie.Node? && Rep(k, bins, t, par, trie) && !IsLeaf(trie)
    ensures Holder(trie).0 in bins && bins[Holder(trie).0] != []
    ensures Rep(ClearSlot(k, bins[Holder(trie).0][0], Holder(trie).1), bins, t, par, DropLeaf(trie))
    decreases trie
  {
    hide *;
    RepNode(k, bins, t, par, trie);
    TrieNode(trie, lo, level);
    HolderIs(trie);
    HolderBelow(k, bins, t, par, trie, lo, level);
    if trie.right.Node? {
      if !IsLeaf(trie.right) {
        RepDropLeaf(k, bins, At(k.child1, t), t, trie.right, lo + Arith.Pow2(level - 1), level - 1);
      }
      DropLeafFrame(k, bins, t, par, trie, lo, level);
      RepDropRight(k, bins, t, par, trie);
    } else {
      if !IsLeaf(trie.left) {
        RepDropLeaf(k, bins, At(k.child0, t), t, trie.left, lo, level - 1);
      }
      RepDropLeft(k, bins, t, par, trie);
    }
  }

  lemma RepNode(k: Links, bins: Bins, t: int, par: int, trie: Trie)
    requires trie.Node?
    ensures Rep(k, bins, t, par, trie) <==> (
      trie.size in bins && bins[trie.size] != [] && t == bins[trie.size][0] && t > 0 && At(k.parent, t) == par &&
      Rep(k, bins, At(k.child0, t), t, trie.left) && Rep(k, bins, At(k.child1, t), t, trie.right))
  {
  }

  lemma TrieNode(trie: Trie, lo: nat, level: nat)
    requires trie.Node? && TrieOk(trie, lo, level) && !IsLeaf(trie)
    ensures level > 0 && TrieOk(trie.left, lo, level - 1) && TrieOk(trie.right, lo + Arith.Pow2(level - 1), level - 1)
    ensures trie.right.Node? || trie.left.Node?
  {
  }

  /** Only a node whose leaf hangs directly below it holds that leaf itself. */
  lemma HolderBelow(k: Links, bins: Bins, t: int, par: int, trie: Trie, lo: nat, level: nat)
    requires TrieOk(trie, lo, level) && Injective(bins)
    requires trie.Node? && Rep(k, bins, t, par, trie) && !IsLeaf(trie)
    ensures Holder(trie).0 in bins && bins[Holder(trie).0] != []
    ensures !IsLeaf(if trie.right.Node? then trie.right else trie.left) ==> bins[Holder(trie).0][0] != t
  {
    RepSizes(k, bins, t, par, trie);
    var h, below := Holder(trie).0, if trie.right.Node? then trie.right else trie.left;
    assert trie.size !in Sizes(below);
    if !IsLeaf(below) {
      assert Holder(trie) == Holder(below) && h in Sizes(below);
    }
    hide Rep, Holder, Sizes;
  }

  lemma HolderIs(trie: Trie)
    requires trie.Node? && !IsLeaf(trie)
    ensures Holder(trie) ==
      if trie.right.Node? then if IsLeaf(trie.right) then (trie.size, true) else Holder(trie.right)
      else if IsLeaf(trie.left) then (trie.size, false) else Holder(trie.left)
  {
  }

  lemma RepDropRight(k: Links, bins: Bins, t: int, par: int, trie: Trie)
    requires trie.Node? && trie.right.Node? && Rep(k, bins, t, par, trie)
    requires Holder(trie).0 in bins && bins[Holder(trie).0] != []
    requires var k' := ClearSlot(k, bins[Holder(trie).0][0], Holder(trie).1);
      Rep(k', bins, At(k.child0, t), t, trie.left) &&
      (!IsLeaf(trie.right) ==> Rep(k', bins, At(k.child1, t), t, DropLeaf(trie.right)) && bins[Holder(trie).0][0] != t)
    ensures Rep(ClearSlot(k, bins[Holder(trie).0][0], Holder(trie).1), bins, t, par, DropLeaf(trie))
  {
    HolderIs(trie);
    hide Holder, Sizes;
  }

  lemma RepDropLeft(k: Links, bins: Bins, t: int, par: int, trie: Trie)
    requires trie.Node? && !trie.right.Node? && trie.left.Node? && Rep(k, bins, t, par, trie)
    requires Holder(trie).0 in bins && bins[Holder(trie).0] != []
    requires var k' := ClearSlot(k, bins[Holder(trie).0][0], Holder(trie).1);
      !IsLeaf(trie.left) ==> Rep(k', bins, At(k.child0, t), t, DropLeaf(trie.left)) && bins[Holder(trie).0][0] != t
    ensures Rep(ClearSlot(k, bins[Holder(trie).0][0], Holder(trie).1), bins, t, par, DropLeaf(trie))
  {
    HolderIs(trie);
    hide Holder, Sizes;
  }

  /** When the leaf comes from the right, the left side does not notice. */
  lemma DropLeafFrame(k: Links, bins: Bins, t: int, par: int, trie: Trie, lo: nat, level: nat)
    requires TrieOk(trie, lo, level) && Injective(bins)
    requires trie.Node? && Rep(k, bins, t, par, trie) && trie.right.Node?
    ensures Holder(trie).0 in bins && bins[Holder(trie).0] != []
    ensures Rep(ClearSlot(k, bins[Holder(trie).0][0], Holder(trie).1), bins, At(k.child0, t), t, trie.left)
  {
    var (h, side) := Holder(trie);
    LeftBelowRight(trie, lo, level);
    RepSizes(k, bins, t, par, trie);
    assert h !in Sizes(trie.left);
    ClearSlotSame(k, bins, bins[h][0], side, trie.left);
    RepFrame(k, bins, ClearSlot(k, bins[h][0], side), bins, At(k.child0, t), t, trie.left);
  }

  // ---- Putting another chunk at the root ---------------------------------

  /** The root's parent field may be rewritten when its other fields and all nodes below stay. */
  lemma RepReparent(k: Links, bins: Bins, k': Links, bins': Bins, t: int, par: int, par': int, trie: Trie)
    requires Rep(k, bins, t, par, trie)
    requires trie.Node? ==> (
      SameHead(bins, bins', trie.size) && At(k'.parent, t) == par' &&
      At(k'.child0, t) == At(k.child0, t) && At(k'.child1, t) == At(k.child1, t) &&
      trie.size !in Sizes(trie.left) && trie.size !in Sizes(trie.right))
    requires forall q :: q in Sizes(trie) && q != trie.size ==> SameNode(k, bins, k', bins', q)
    ensures Rep(k', bins', t, par', trie)
  {
    if trie.Node? {
      RepFrame(k, bins, k', bins', At(k.child0, t), t, trie.left);
      RepFrame(k, bins, k', bins', At(k.child1, t), t, trie.right);
    }
  }

  ghost predicate AdoptedNode(k: Links, bins: Bins, k': Links, bins': Bins, q: nat, y: int)
  {
    SameHead(bins, bins', q) && At(k'.parent, bins[q][0]) == y &&
    At(k'.child0, bins[q][0]) == At(k.child0, bins[q][0]) && At(k'.child1, bins[q][0]) == At(k.child1, bins[q][0])
  }

  /** Chunk y of size s takes over the root at x: it adopts x's children and answers to par. */
  lemma RepSwapRoot(k: Links, bins: Bins, k': Links, bins': Bins, x: int, y: int, s: nat, par: int, par': int,
                    trie: Trie, lo: nat, level: nat)
    requires trie.Node? && TrieOk(trie, lo, level) && Rep(k, bins, x, par, trie)
    requires s in bins' && bins'[s] != [] && y == bins'[s][0] && y > 0
    requires At(k'.parent, y) == par' && At(k'.child0, y) == At(k.child0, x) && At(k'.child1, y) == At(k.child1, x)
    requires forall q :: q in Sizes(trie.left) + Sizes(trie.right) ==>
      if Is(trie.left, q) || Is(trie.right, q) then AdoptedNode(k, bins, k', bins', q, y)
        else SameNode(k, bins, k', bins', q)
    ensures Rep(k', bins', y, par', Node(s, trie.left, trie.right))
  {
    LeftBelowRight(trie, lo, level);
    if trie.left.Node? {
      assert trie.left.size in Sizes(trie.left) && AdoptedNode(k, bins, k', bins', trie.left.size, y);
    }
    if trie.right.Node? {
      assert trie.right.size in Sizes(trie.right) && AdoptedNode(k, bins, k', bins', trie.right.size, y);
    }
    RepReparent(k, bins, k', bins', At(k.child0, x), x, y, trie.left);
    RepReparent(k, bins, k', bins', At(k.child1, x), x, y, trie.right);
  }
}
