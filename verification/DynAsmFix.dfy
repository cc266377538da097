/** Pass 2 item by item: which words it overwrites, and what it may rely on. */
module DynAsmFix {
  import opened DynAsmItems
  import opened DynAsmLink
  import opened DynAsmLabels
  import opened DynAsmSections
  import opened DynAsmFlat

  // ---- Globals that are not defined here ----------------------------------------------

  ghost predicate InMarked(h: Heap, x: int, n: int)
  {
    exists i {:trigger Chain(h, LG(i))} :: 10 <= i < n && x in Chain(h, LG(i))
  }

  /** The chains of the globals below n are marked with their negated numbers, all other words are as they were. */
  ghost predicate Marked(h: Heap, buf: map<int, int>, n: int)
  {
    (forall i, x {:trigger x in Chain(h, LG(i))} :: 10 <= i < n && x in Chain(h, LG(i)) ==> x in buf && buf[x] == -i) &&
    (forall x {:trigger x in h.buf} :: x in h.buf && !InMarked(h, x, n) ==> x in buf && buf[x] == h.buf[x])
  }

  lemma InMarkedIs(h: Heap, x: int, n: nat)
    requires LinksOk(h) && n <= |h.lg| && InMarked(h, x, n)
    ensures x in h.refs && h.refs[x].slot.LG? && 10 <= h.refs[x].slot.i < n && x in Chain(h, h.refs[x].slot)
  {
    var i :| 10 <= i < n && x in Chain(h, LG(i));
    assert SlotOk(h, LG(i));
    assert Waiting(h, LG(i), x);
  }

  lemma MarkedNext(h: Heap, buf: map<int, int>, n: int)
    requires LinksOk(h) && Marked(h, buf, n) && 10 <= n < |h.lg|
    ensures Linked(buf, Chain(h, LG(n)))
    ensures Marked(h, Collapse(buf, Chain(h, LG(n)), -n), n + 1)
  {
    var c := Chain(h, LG(n));
    assert SlotOk(h, LG(n));
    forall x | x in c ensures !InMarked(h, x, n) && x in h.buf {
      assert Waiting(h, LG(n), x) && RefOk(h, x);
      assert h.refs[x].slot == LG(n);
      if InMarked(h, x, n) { InMarkedIs(h, x, n); }
    }
    LinkedFrame(h.buf, buf, c);
    Collapsed(buf, c, -n);
    var b := Collapse(buf, c, -n);
    forall i, x | 10 <= i < n + 1 && x in Chain(h, LG(i)) ensures x in b && b[x] == -i {
      if i < n && x in c { ChainsApart(h, LG(i), LG(n), x); }
    }
    forall x | x in h.buf && !InMarked(h, x, n + 1) ensures x in b && b[x] == h.buf[x] {
      assert x !in Chain(h, LG(n));
    }
  }

  /** The word of a reference now: the position of the label it means, or the mark of a global not defined here. */
  ghost predicate Resolved(h: Heap, buf: map<int, int>, r: int)
  {
    r in h.refs && r in buf &&
    ((buf[r] <= -10 && h.refs[r].slot == LG(-buf[r]) && Undefined(h.labels, LG(-buf[r])) && -buf[r] < |h.lg|) ||
     (buf[r] > 0 && Right(h.labels, h.refs[r], buf[r])))
  }

  /** No label is still missing but globals. */
  ghost predicate AllFound(h: Heap)
  {
    (forall i :: 0 <= i < |h.pc| ==> h.pc[i] <= 0) && forall i :: 0 <= i < |h.lg| && i < 10 ==> h.lg[i] <= 0
  }

  lemma MarkedResolves(h: Heap, buf: map<int, int>, r: int)
    requires LinksOk(h) && AllFound(h) && Marked(h, buf, |h.lg|) && r in h.refs
    ensures Resolved(h, buf, r)
  {
    assert RefOk(h, r);
    var s := h.refs[r].slot;
    assert SlotOk(h, s);
    if r in Chain(h, s) {
      assert Val(h, s) > 0;
      assert s.LG? && s.i >= 10;
    } else {
      var l := h.buf[r];
      if InMarked(h, r, |h.lg|) { InMarkedIs(h, r, |h.lg|); }
      assert LabelOk(h, l);
    }
  }

  /** The buffer that the second part of pass 2 starts with. */
  ghost predicate Ready(h: Heap, buf: map<int, int>)
  {
    (forall r {:trigger r in h.refs} :: r in h.refs ==> Resolved(h, buf, r)) &&
    (forall x {:trigger x in h.buf} :: x in h.buf && x !in h.refs ==> x in buf && buf[x] == h.buf[x])
  }

  lemma MarkedReady(h: Heap, buf: map<int, int>)
    requires LinksOk(h) && AllFound(h) && Marked(h, buf, |h.lg|)
    ensures Ready(h, buf)
  {
    forall r | r in h.refs ensures Resolved(h, buf, r) { MarkedResolves(h, buf, r); }
    forall x | x in h.buf && x !in h.refs ensures x in buf && buf[x] == h.buf[x] {
      if InMarked(h, x, |h.lg|) { InMarkedIs(h, x, |h.lg|); }
    }
  }

  /** Its word is its argument. */
  predicate HasArgWord(i: Item)
  {
    i.what.Do? && !IsLabel(i) && !IsAlign(i) && !IsRef(i) && !Literal(i.what.act) && !Ends(i.what.act)
  }

  // ---- The walk over the items ------------------------------------------------------

  /** The words of an item: as at the start, but for those that pass 2 has overwritten. */
  predicate Keeps(i: Item, buf0: map<int, int>, buf: map<int, int>, done: bool)
  {
    (Slots(i) >= 1 ==> i.pos in buf0 && i.pos in buf && ((done && IsLabel(i)) || buf[i.pos] == buf0[i.pos])) &&
    (Slots(i) == 2 ==> i.pos + 1 in buf0 && i.pos + 1 in buf && (done || buf[i.pos + 1] == buf0[i.pos + 1]))
  }

  ghost predicate Going(g: seq<Item>, buf0: map<int, int>, buf: map<int, int>, d: seq<int>, n: nat)
  {
    LinkedTo(g, buf, d, n) && forall j {:trigger g[j]} :: 0 <= j < |g| ==> Keeps(g[j], buf0, buf, j < n)
  }

  lemma SlotsOf(i: Item)
    ensures IsRel(i) <==> Slots(i) == 2
    ensures IsLabel(i) ==> Slots(i) == 1 && !IsRel(i)
    ensures Slots(i) <= 2
  {
  }

  lemma LinkedLength(g: seq<Item>, buf: map<int, int>, d: seq<int>, n: nat)
    requires LinkedTo(g, buf, d, n)
    ensures |d| == n + 1 && n <= |g|
  {
  }

  /** How far an offset is past the alignment asked for. */
  function Excess(i: Item, ofs: int): int
    requires IsAlign(i)
  {
    ofs % (i.what.act.mask + 1)
  }

  /** An item that overwrites nothing. */
  lemma GoOn(g: seq<Item>, buf0: map<int, int>, buf: map<int, int>, d: seq<int>, n: nat, x: int)
    requires Going(g, buf0, buf, d, n) && n < |g| && !IsRel(g[n]) && !IsLabel(g[n])
    requires |d| == n + 1 && x == d[n] - (if IsAlign(g[n]) then Excess(g[n], Est(g, n + 1) + d[n]) else 0)
    ensures Going(g, buf0, buf, d + [x], n + 1)
  {
    assert StepOk(g, buf, d + [x], n);
    forall k | 0 <= k < n ensures SameWords(g[k], buf, buf) {}
    hide StepOk, LinkedTo, Est;
    LinkedMore(g, buf, buf, d, n, x);
    forall j | 0 <= j < |g| ensures Keeps(g[j], buf0, buf, j < n + 1) {
      assert Keeps(g[j], buf0, buf, j < n);
      SlotsOf(g[j]);
    }
  }

  /** An item that overwrites its word w. */
  lemma GoWrite(g: seq<Item>, buf0: map<int, int>, buf: map<int, int>, d: seq<int>, n: nat, w: int, v: int, x: int)
    requires Going(g, buf0, buf, d, n) && n < |g| && Ordered(g) && StepOk(g, buf[w := v], d + [x], n)
    requires (IsRel(g[n]) && w == g[n].pos + 1) || (IsLabel(g[n]) && w == g[n].pos)
    ensures Going(g, buf0, buf[w := v], d + [x], n + 1)
  {
    var buf' := buf[w := v];
    forall k | 0 <= k < n ensures SameWords(g[k], buf, buf') {
      WordApart(g, k, n, w);
    }
    hide StepOk, LinkedTo;
    LinkedMore(g, buf, buf', d, n, x);
    forall j | 0 <= j < |g| ensures Keeps(g[j], buf0, buf', j < n + 1) {
      assert Keeps(g[j], buf0, buf, j < n);
      SlotsOf(g[j]);
      if j != n { WordApart(g, j, n, w); }
    }
  }

  lemma WordApart(g: seq<Item>, k: nat, n: nat, w: int)
    requires Ordered(g) && k < |g| && n < |g| && k != n && g[n].pos <= w < g[n].pos + Slots(g[n])
    ensures !(g[k].pos <= w < g[k].pos + Slots(g[k]))
    ensures IsRel(g[k]) ==> w != g[k].pos && w != g[k].pos + 1
    ensures IsLabel(g[k]) ==> w != g[k].pos
  {
    SlotsOf(g[k]);
    if k < n { assert g[k].pos + Slots(g[k]) <= g[n].pos; } else { assert g[n].pos + Slots(g[n]) <= g[k].pos; }
  }

  /** What pass 1 leaves to pass 2. */
  ghost predicate Laid(list: seq<Act>, prog: seq<seq<Item>>, secs: seq<Sec>, h: Heap, buf0: map<int, int>)
  {
    ListOk(list) && |prog| == |secs| && SectionsOk(list, prog, secs, h) && LinksOk(h) && Ready(h, buf0) &&
    forall s {:trigger prog[s]} :: 0 <= s < |prog| ==> Complete(list, prog[s])
  }

  /** Pass 2 is at item k of section s. */
  ghost predicate FixAt(list: seq<Act>, prog: seq<seq<Item>>, secs: seq<Sec>, h: Heap, buf0: map<int, int>,
                        buf: map<int, int>, d: seq<int>, s: nat, k: nat, pos: int, ofs: int)
  {
    Laid(list, prog, secs, h, buf0) && s < |prog| && k <= |prog[s]| && |d| == Base(prog, s) + k + 1 &&
    Going(All(prog), buf0, buf, d, Base(prog, s) + k) && pos == SecPos(s) + Used(prog[s], k) &&
    Base(prog, s) <= |All(prog)| && ofs == Est(All(prog), Base(prog, s)) + d[|d| - 1]
  }

  /** Where the walk over a section goes after item k. */
  lemma Walk(list: seq<Act>, prog: seq<seq<Item>>, secs: seq<Sec>, h: Heap, buf0: map<int, int>, s: nat, k: nat)
    requires Laid(list, prog, secs, h, buf0) && s < |prog| && k < |prog[s]|
    ensures Used(prog[s], k + 1) == Used(prog[s], k) + Slots(prog[s][k])
    ensures prog[s][k].what.Finish? && k + 1 < |prog[s]| ==> prog[s][k + 1].what.Begin?
    ensures !prog[s][k].what.Finish? ==> k + 1 < |prog[s]| && Decodes(list, prog[s][k + 1], After(prog[s][k]))
  {
    var g := prog[s];
    assert Complete(list, g);
    hide SectionsOk, LinksOk, Ready, Slots;
    if k + 1 < |g| { assert Follows(list, g[k], g[k + 1]); }
  }

  lemma WalkStart(list: seq<Act>, prog: seq<seq<Item>>, secs: seq<Sec>, h: Heap, buf0: map<int, int>, s: nat)
    requires Laid(list, prog, secs, h, buf0) && s < |prog|
    ensures prog[s] != [] ==> prog[s][0].what.Begin?
  {
    assert Complete(list, prog[s]);
  }

  /** At the end of the section's words only if all items are done. */
  lemma WalkEnd(list: seq<Act>, prog: seq<seq<Item>>, secs: seq<Sec>, h: Heap, buf0: map<int, int>, s: nat, k: nat)
    requires Laid(list, prog, secs, h, buf0) && s < |prog| && k <= |prog[s]|
    requires k == |prog[s]| || prog[s][k].what.Begin?
    ensures s < |secs|
    ensures SecPos(s) + Used(prog[s], k) == secs[s].pos <==> k == |prog[s]|
  {
    hide *;
    LaidParts(list, prog, secs, h, buf0);
    GetSection(list, prog, secs, h, s);
    if k < |prog[s]| {
      Walk(list, prog, secs, h, buf0, s, k);
      BeginSlot(prog[s][k]);
      UsedGrows(prog[s], k + 1, |prog[s]|);
    }
  }

  lemma BeginSlot(i: Item)
    requires i.what.Begin?
    ensures Slots(i) == 1
  {
  }

  /** The words that item k still has when pass 2 comes to it. */
  lemma Words(list: seq<Act>, prog: seq<seq<Item>>, secs: seq<Sec>, h: Heap, buf0: map<int, int>,
              buf: map<int, int>, d: seq<int>, s: nat, k: nat, pos: int, ofs: int)
    requires FixAt(list, prog, secs, h, buf0, buf, d, s, k, pos, ofs) && k < |prog[s]|
    ensures var n := Base(prog, s) + k; var i := prog[s][k]; var g := All(prog);
      n < |g| && g[n] == i && pos == i.pos && |d| == n + 1 && ArgOk(i) && Keeps(i, buf0, buf, false) &&
      (i.what.Begin? ==> pos in buf && buf[pos] == i.what.start) &&
      (IsLabel(i) ==> pos in buf && buf[pos] == Est(g, n) - Est(g, Base(prog, s)) && pos in h.labels) &&
      (IsAlign(i) ==> pos in buf && buf[pos] == Est(g, n + 1) - Est(g, Base(prog, s))) &&
      (IsRef(i) ==> pos in buf && Resolved(h, buf, pos)) &&
      (IsRel(i) ==> pos + 1 in buf && buf[pos + 1] == Est(g, n + 1) - Est(g, Base(prog, s)))
  {
    hide *;
    FixParts(list, prog, secs, h, buf0, buf, d, s, k, pos, ofs);
    WordsIn(list, prog, secs, h, buf0, s, k);
    GoingAt(All(prog), buf0, buf, d, Base(prog, s) + k);
    WordsCarry(h, prog[s][k], buf0, buf);
    LinkedLength(All(prog), buf, d, Base(prog, s) + k);
  }

  lemma GoingAt(g: seq<Item>, buf0: map<int, int>, buf: map<int, int>, d: seq<int>, n: nat)
    requires Going(g, buf0, buf, d, n) && n < |g|
    ensures Keeps(g[n], buf0, buf, false) && LinkedTo(g, buf, d, n)
  {
    assert Keeps(g[n], buf0, buf, n < n);
  }

  lemma WordsCarry(h: Heap, i: Item, buf0: map<int, int>, buf: map<int, int>)
    requires Keeps(i, buf0, buf, false)
    ensures i.what.Begin? || IsLabel(i) || IsAlign(i) || IsRef(i) ==>
      i.pos in buf0 && i.pos in buf && buf[i.pos] == buf0[i.pos]
    ensures IsRel(i) ==> i.pos + 1 in buf0 && i.pos + 1 in buf && buf[i.pos + 1] == buf0[i.pos + 1]
    ensures IsRef(i) && Resolved(h, buf0, i.pos) ==> Resolved(h, buf, i.pos)
  {
  }

  lemma WordsIn(list: seq<Act>, prog: seq<seq<Item>>, secs: seq<Sec>, h: Heap, buf: map<int, int>, s: nat, k: nat)
    requires Laid(list, prog, secs, h, buf) && s < |prog| && k < |prog[s]|
    ensures var n := Base(prog, s) + k; var i := prog[s][k]; var g := All(prog);
      n < |g| && g[n] == i && i.pos == SecPos(s) + Used(prog[s], k) && ArgOk(i) &&
      (i.what.Begin? ==> i.pos in buf && buf[i.pos] == i.what.start) &&
      (IsLabel(i) ==> i.pos in buf && buf[i.pos] == Est(g, n) - Est(g, Base(prog, s)) && i.pos in h.labels) &&
      (IsAlign(i) ==> i.pos in buf && buf[i.pos] == Est(g, n + 1) - Est(g, Base(prog, s))) &&
      (IsRef(i) ==> Resolved(h, buf, i.pos) && h.refs[i.pos].slot == SlotOf(i) && h.refs[i.pos].dir == DirOf(i)) &&
      (IsRel(i) ==> i.pos + 1 in buf && buf[i.pos + 1] == Est(g, n + 1) - Est(g, Base(prog, s))) &&
      (HasArgWord(i) ==> i.pos in buf && buf[i.pos] == i.arg)
  {
    hide *;
    LaidParts(list, prog, secs, h, buf);
    AllItems(list, prog, secs, h, s, k);
    WordsOf(prog[s], k, h, buf);
  }

  lemma LaidParts(list: seq<Act>, prog: seq<seq<Item>>, secs: seq<Sec>, h: Heap, buf: map<int, int>)
    requires Laid(list, prog, secs, h, buf)
    ensures SectionsOk(list, prog, secs, h) && LinksOk(h) && Ready(h, buf) && |prog| == |secs| && ListOk(list)
  {
  }

  lemma WordsOf(g: seq<Item>, k: nat, h: Heap, buf: map<int, int>)
    requires k < |g| && ItemIn(g, k, h) && Ready(h, buf)
    ensures var i := g[k];
      (i.what.Begin? ==> i.pos in buf && buf[i.pos] == i.what.start) &&
      (IsLabel(i) ==> i.pos in buf && buf[i.pos] == Est(g, k) && i.pos in h.labels) &&
      (IsAlign(i) ==> i.pos in buf && buf[i.pos] == Est(g, k + 1)) &&
      (IsRef(i) ==> Resolved(h, buf, i.pos) && h.refs[i.pos].slot == SlotOf(i) && h.refs[i.pos].dir == DirOf(i)) &&
      (IsRel(i) ==> i.pos + 1 in buf && buf[i.pos + 1] == Est(g, k + 1)) &&
      (HasArgWord(i) ==> i.pos in buf && buf[i.pos] == i.arg)
  {
    hide Resolved, Est;
    ItemHas(g, k, h);
  }

  lemma ItemHas(g: seq<Item>, k: nat, h: Heap)
    requires k < |g| && ItemIn(g, k, h)
    ensures var i := g[k];
      (i.what.Begin? ==> Plain(h, i.pos, i.what.start)) &&
      (IsLabel(i) ==> i.pos in h.labels && i.pos in h.buf && i.pos !in h.refs && h.buf[i.pos] == Est(g, k)) &&
      (IsAlign(i) ==> Plain(h, i.pos, Est(g, k + 1))) &&
        (IsRef(i) ==> i.pos in h.refs && h.refs[i.pos].slot == SlotOf(i) && h.refs[i.pos].dir == DirOf(i)) &&
      (IsRel(i) ==> Plain(h, i.pos + 1, Est(g, k + 1))) &&
      (HasArgWord(i) ==> Plain(h, i.pos, i.arg))
  {
    hide Est, Plain;
  }

  // ---- What pass 2 does with each kind of item ------------------------------------------

  lemma FixMore(list: seq<Act>, prog: seq<seq<Item>>, secs: seq<Sec>, h: Heap, buf0: map<int, int>,
                buf: map<int, int>, d: seq<int>, s: nat, k: nat, pos: int, ofs: int, buf': map<int, int>, x: int)
    requires FixAt(list, prog, secs, h, buf0, buf, d, s, k, pos, ofs) && k < |prog[s]|
    requires Going(All(prog), buf0, buf', d + [x], Base(prog, s) + k + 1)
    ensures d != []
    ensures FixAt(list, prog, secs, h, buf0, buf', d + [x], s, k + 1, pos + Slots(prog[s][k]), ofs + x - d[|d| - 1])
  {
    Walk(list, prog, secs, h, buf0, s, k);
    hide Going, Used, Slots, Est, All, Base, Laid;
  }

  /** All items but branches and labels: nothing is written. */
  lemma FixPlain(list: seq<Act>, prog: seq<seq<Item>>, secs: seq<Sec>, h: Heap, buf0: map<int, int>,
                 buf: map<int, int>, d: seq<int>, s: nat, k: nat, pos: int, ofs: int)
    requires FixAt(list, prog, secs, h, buf0, buf, d, s, k, pos, ofs) && k < |prog[s]| && d != []
    requires !IsRel(prog[s][k]) && !IsLabel(prog[s][k])
    ensures IsAlign(prog[s][k]) ==> pos in buf
    ensures var i := prog[s][k]; var less := if IsAlign(i) then Excess(i, buf[pos] + ofs) else 0;
      FixAt(list, prog, secs, h, buf0, buf, d + [d[|d| - 1] - less], s, k + 1, pos + Slots(i), ofs - less)
  {
    hide *;
    FixParts(list, prog, secs, h, buf0, buf, d, s, k, pos, ofs);
    Words(list, prog, secs, h, buf0, buf, d, s, k, pos, ofs);
    var n, i := Base(prog, s) + k, prog[s][k];
    var less: int := if IsAlign(i) then Excess(i, buf[pos] + ofs) else 0;
    GoOn(All(prog), buf0, buf, d, n, d[n] - less);
    FixMore(list, prog, secs, h, buf0, buf, d, s, k, pos, ofs, buf, d[n] - less);
  }

  lemma FixParts(list: seq<Act>, prog: seq<seq<Item>>, secs: seq<Sec>, h: Heap, buf0: map<int, int>,
                 buf: map<int, int>, d: seq<int>, s: nat, k: nat, pos: int, ofs: int)
    requires FixAt(list, prog, secs, h, buf0, buf, d, s, k, pos, ofs)
    ensures Laid(list, prog, secs, h, buf0) && s < |prog| && k <= |prog[s]| && |d| == Base(prog, s) + k + 1
    ensures Going(All(prog), buf0, buf, d, Base(prog, s) + k) && pos == SecPos(s) + Used(prog[s], k)
    ensures Base(prog, s) <= |All(prog)| && ofs == Est(All(prog), Base(prog, s)) + d[|d| - 1]
    ensures SectionsOk(list, prog, secs, h) && |prog| == |secs| && Ordered(All(prog))
  {
    AllOrdered(list, prog, secs, h);
  }

  /** A label: its word becomes its final offset. */
  lemma FixLabel(list: seq<Act>, prog: seq<seq<Item>>, secs: seq<Sec>, h: Heap, buf0: map<int, int>,
                 buf: map<int, int>, d: seq<int>, s: nat, k: nat, pos: int, ofs: int)
    requires FixAt(list, prog, secs, h, buf0, buf, d, s, k, pos, ofs) && k < |prog[s]| && d != [] && IsLabel(prog[s][k])
    ensures pos in buf
    ensures FixAt(list, prog, secs, h, buf0, buf[pos := buf[pos] + ofs], d + [d[|d| - 1]], s, k + 1, pos + 1, ofs)
  {
    hide *;
    FixParts(list, prog, secs, h, buf0, buf, d, s, k, pos, ofs);
    Words(list, prog, secs, h, buf0, buf, d, s, k, pos, ofs);
    SlotsOf(prog[s][k]);
    var n, i, x := Base(prog, s) + k, prog[s][k], d[|d| - 1];
    var buf' := buf[pos := buf[pos] + ofs];
    LabelStep(All(prog), buf', d, n, x);
    GoWrite(All(prog), buf0, buf, d, n, pos, buf[pos] + ofs, x);
    FixMore(list, prog, secs, h, buf0, buf, d, s, k, pos, ofs, buf', x);
  }

  lemma LabelStep(g: seq<Item>, buf: map<int, int>, d: seq<int>, n: nat, x: int)
    requires n < |g| && IsLabel(g[n]) && |d| == n + 1 && x == d[n] && g[n].pos in buf &&
      buf[g[n].pos] == Est(g, n) + d[n]
    ensures StepOk(g, buf, d + [x], n)
  {
  }

  /** The distance that pass 2 works out is the one meant by Distance. */
  ghost predicate DistanceIs(g: seq<Item>, buf: map<int, int>, d: seq<int>, n: nat, lofs: int)
  {
    n < |g| && |d| == n + 1 && g[n].pos in buf &&
    exists l: nat :: LabelAt(g, l, buf[g[n].pos]) && l != n && lofs == Distance(g, d, n, l)
  }

  /** Pass 2 shortens the branch exactly if it goes to a label that the distance worked out allows to be near. */
  ghost predicate Shortens(g: seq<Item>, buf: map<int, int>, d: seq<int>, n: nat, lofs: int, short: bool)
  {
    n < |g| && g[n].pos in buf && g[n].pos + 1 in buf &&
    (Shrinkable(g[n].op) > 0 && buf[g[n].pos] >= 0 ==> DistanceIs(g, buf, d, n, lofs)) &&
    (short <==> Shrinkable(g[n].op) > 0 && buf[g[n].pos] >= 0 && -128 - Shrinkable(g[n].op) <= lofs <= 127)
  }

  lemma BranchStep(g: seq<Item>, buf: map<int, int>, d: seq<int>, n: nat, lofs: int, short: bool)
    requires n < |g| && IsRel(g[n]) && |d| == n + 1 && Ordered(g) && Shortens(g, buf, d, n, lofs, short)
    ensures var y := if short then Shrinkable(g[n].op) else 0; StepOk(g, buf[g[n].pos + 1 := y], d + [d[n] - y], n)
  {
    var y := if short then Shrinkable(g[n].op) else 0;
    var buf', e := buf[g[n].pos + 1 := y], d + [d[n] - y];
    if Shrinkable(g[n].op) > 0 && buf[g[n].pos] >= 0 {
      var l: nat :| LabelAt(g, l, buf[g[n].pos]) && l != n && lofs == Distance(g, d, n, l);
      assert Distance(g, e, n, l) == lofs;
      OneTarget(g, buf', e, n, l);
    }
  }

  /** There is one label at a position, so the distance to it decides. */
  lemma OneTarget(g: seq<Item>, buf: map<int, int>, d: seq<int>, n: nat, l: nat)
    requires n < |g| && |d| == n + 2 && IsRel(g[n]) && g[n].pos in buf && Shrinkable(g[n].op) > 0 && Ordered(g)
    requires LabelAt(g, l, buf[g[n].pos])
    ensures Near(g, buf, d, n) <==> -128 - Shrinkable(g[n].op) <= Distance(g, d, n, l) <= 127
  {
    hide Distance;
    forall m | LabelAt(g, m, buf[g[n].pos]) ensures m == l {
      SlotsOf(g[m]);
      SlotsOf(g[l]);
    }
  }

  /** A branch: its second word becomes the number of bytes it is shorter. */
  lemma FixBranch(list: seq<Act>, prog: seq<seq<Item>>, secs: seq<Sec>, h: Heap, buf0: map<int, int>,
                  buf: map<int, int>, d: seq<int>, s: nat, k: nat, pos: int, ofs: int, lofs: int, short: bool)
    requires FixAt(list, prog, secs, h, buf0, buf, d, s, k, pos, ofs) && k < |prog[s]| && d != [] && IsRel(prog[s][k])
    requires Shortens(All(prog), buf, d, Base(prog, s) + k, lofs, short)
    ensures var y := if short then Shrinkable(prog[s][k].op) else 0;
      FixAt(list, prog, secs, h, buf0, buf[pos + 1 := y], d + [d[|d| - 1] - y], s, k + 1, pos + 2, ofs - y)
  {
    hide *;
    FixParts(list, prog, secs, h, buf0, buf, d, s, k, pos, ofs);
    Words(list, prog, secs, h, buf0, buf, d, s, k, pos, ofs);
    SlotsOf(prog[s][k]);
    RelRef(prog[s][k]);
    var n, i := Base(prog, s) + k, prog[s][k];
    var y: nat := if short then Shrinkable(i.op) else 0;
    BranchStep(All(prog), buf, d, n, lofs, short);
    GoWrite(All(prog), buf0, buf, d, n, pos + 1, y, d[n] - y);
    FixMore(list, prog, secs, h, buf0, buf, d, s, k, pos, ofs, buf[pos + 1 := y], d[n] - y);
  }

  lemma RelRef(i: Item)
    ensures IsRel(i) ==> IsRef(i) && !IsLabel(i)
  {
  }

  /** What is where the section of a label ahead begins, added up. */
  function SectionSum(secs: seq<Sec>, s: nat, t: nat): int
    requires s <= t <= |secs|
    decreases t
  {
    if t == s then 0 else SectionSum(secs, s, t - 1) + secs[t - 1].ofs
  }

  lemma SumStep(secs: seq<Sec>, s: nat, t: nat)
    requires s <= t <= |secs|
    ensures SectionSum(secs, s, t) == if t == s then 0 else SectionSum(secs, s, t - 1) + secs[t - 1].ofs
  {
  }

  lemma {:induction false} SumIs(list: seq<Act>, prog: seq<seq<Item>>, secs: seq<Sec>, h: Heap, s: nat, t: nat)
    requires SectionsOk(list, prog, secs, h) && s <= t < |prog|
    ensures |secs| == |prog| && Base(prog, s) <= |All(prog)| && Base(prog, t) <= |All(prog)|
    ensures SectionSum(secs, s, t) == Est(All(prog), Base(prog, t)) - Est(All(prog), Base(prog, s))
    decreases t
  {
    hide *;
    GetSection(list, prog, secs, h, s);
    SectionSize(list, prog, secs, h, t);
    SectionSize(list, prog, secs, h, s);
    SumStep(secs, s, t);
    if s < t {
      SumIs(list, prog, secs, h, s, t - 1);
      SectionSize(list, prog, secs, h, t - 1);
    }
  }

  /** A label that a branch refers to, where it is, and what its word holds. */
  lemma Target(list: seq<Act>, prog: seq<seq<Item>>, secs: seq<Sec>, h: Heap, buf0: map<int, int>,
               buf: map<int, int>, d: seq<int>, s: nat, k: nat, pos: int, ofs: int)
    requires FixAt(list, prog, secs, h, buf0, buf, d, s, k, pos, ofs) && k < |prog[s]| && IsRel(prog[s][k])
    ensures pos in buf
    ensures pos + 1 in buf && |prog| == |secs|
    ensures buf[pos] >= 0 ==> buf[pos] in buf && s <= |secs|
    ensures buf[pos] > pos ==> s <= buf[pos] / SECTION_POSITIONS < |secs|
    ensures buf[pos] > pos ==> DistanceIs(All(prog), buf, d, Base(prog, s) + k,
      buf[buf[pos]] + SectionSum(secs, s, buf[pos] / SECTION_POSITIONS) - buf[pos + 1])
    ensures 0 <= buf[pos] <= pos ==>
      DistanceIs(All(prog), buf, d, Base(prog, s) + k, buf[buf[pos]] - ofs - buf[pos + 1])
  {
    hide *;
    FixParts(list, prog, secs, h, buf0, buf, d, s, k, pos, ofs);
    Words(list, prog, secs, h, buf0, buf, d, s, k, pos, ofs);
    RelRef(prog[s][k]);
    ResolvedIs(h, buf, pos);
    if buf[pos] >= 0 {
      var t, j := LabelIndex(list, prog, secs, h, buf[pos]);
      TargetAt(list, prog, secs, h, buf0, buf, d, s, k, pos, ofs, t, j);
    }
  }

  lemma ResolvedIs(h: Heap, buf: map<int, int>, r: int)
    requires Resolved(h, buf, r)
    ensures r in buf && (buf[r] >= 0 ==> buf[r] > 0 && buf[r] in h.labels)
  {
  }

  lemma TargetAt(list: seq<Act>, prog: seq<seq<Item>>, secs: seq<Sec>, h: Heap, buf0: map<int, int>,
                 buf: map<int, int>, d: seq<int>, s: nat, k: nat, pos: int, ofs: int, t: nat, j: nat)
    requires FixAt(list, prog, secs, h, buf0, buf, d, s, k, pos, ofs) && k < |prog[s]| && IsRel(prog[s][k]) &&
      pos in buf && pos + 1 in buf
    requires t < |prog| && j < |prog[t]| && LabelAt(All(prog), Base(prog, t) + j, buf[pos]) &&
      prog[t][j].pos == buf[pos] && IsLabel(prog[t][j])
    requires buf[pos] / SECTION_POSITIONS == t && buf[pos] > 0
    ensures buf[pos] in buf && |prog| == |secs|
    ensures buf[pos] > pos ==>
      s <= t && DistanceIs(All(prog), buf, d, Base(prog, s) + k, buf[buf[pos]] + SectionSum(secs, s, t) - buf[pos + 1])
    ensures buf[pos] <= pos ==> DistanceIs(All(prog), buf, d, Base(prog, s) + k, buf[buf[pos]] - ofs - buf[pos + 1])
  {
    hide *;
    FixParts(list, prog, secs, h, buf0, buf, d, s, k, pos, ofs);
    Words(list, prog, secs, h, buf0, buf, d, s, k, pos, ofs);
    WordsIn(list, prog, secs, h, buf0, t, j);
    SlotsOf(prog[s][k]);
    SlotsOf(prog[t][j]);
    RelRef(prog[s][k]);
    var n: nat, l: nat, g := Base(prog, s) + k, Base(prog, t) + j, All(prog);
    PositionsCompare(g, n, l);
    WordNow(g, buf0, buf, d, n, l);
    if buf[pos] > pos {
      SectionsCompare(prog, s, t, k, j);
      SumIs(list, prog, secs, h, s, t);
    }
    DistanceMeans(g, buf, d, n, l, buf[buf[pos]] + (if buf[pos] > pos then SectionSum(secs, s, t)
      else -ofs) - buf[pos + 1]);
  }

  lemma WordNow(g: seq<Item>, buf0: map<int, int>, buf: map<int, int>, d: seq<int>, n: nat, l: nat)
    requires Going(g, buf0, buf, d, n) && l < |g| && IsLabel(g[l]) && n < |g| && IsRel(g[n])
    ensures l != n && |d| == n + 1 && g[l].pos in buf && g[l].pos in buf0
    ensures buf[g[l].pos] == if l < n then Est(g, l) + d[l] else buf0[g[l].pos]
  {
    assert Keeps(g[l], buf0, buf, l < n);
    if l < n { assert StepOk(g, buf, d, l); }
  }

  lemma DistanceMeans(g: seq<Item>, buf: map<int, int>, d: seq<int>, n: nat, l: nat, lofs: int)
    requires n < |g| && l < |g| && l != n && |d| == n + 1 && g[n].pos in buf && LabelAt(g, l, buf[g[n].pos])
    requires l > n ==> lofs == Est(g, l) - Est(g, n + 1)
    requires l < n ==> lofs == Est(g, l) + d[l] - (Est(g, n + 1) + d[n])
    ensures DistanceIs(g, buf, d, n, lofs)
  {
    assert Distance(g, d, n, l) == lofs;
  }

  /** From the end of one section to the next one's start. */
  lemma NextSection(list: seq<Act>, prog: seq<seq<Item>>, secs: seq<Sec>, h: Heap, buf0: map<int, int>,
                    buf: map<int, int>, d: seq<int>, s: nat, pos: int, ofs: int)
    requires s < |prog| && FixAt(list, prog, secs, h, buf0, buf, d, s, |prog[s]|, pos, ofs)
    ensures s < |secs| && d != [] && Base(prog, s + 1) == Base(prog, s) + |prog[s]| <= |All(prog)|
    ensures Going(All(prog), buf0, buf, d, Base(prog, s + 1)) && |d| == Base(prog, s + 1) + 1
    ensures ofs + secs[s].ofs == Est(All(prog), Base(prog, s + 1)) + d[|d| - 1]
    ensures Laid(list, prog, secs, h, buf0)
  {
    hide *;
    FixParts(list, prog, secs, h, buf0, buf, d, s, |prog[s]|, pos, ofs);
    SectionSize(list, prog, secs, h, s);
  }

  lemma StartSection(list: seq<Act>, prog: seq<seq<Item>>, secs: seq<Sec>, h: Heap, buf0: map<int, int>,
                     buf: map<int, int>, d: seq<int>, s: nat, ofs: int)
    requires Laid(list, prog, secs, h, buf0) && s < |prog| && Base(prog, s) <= |All(prog)| && |d| == Base(prog, s) + 1
    requires Going(All(prog), buf0, buf, d, Base(prog, s)) && ofs == Est(All(prog), Base(prog, s)) + d[|d| - 1]
    ensures FixAt(list, prog, secs, h, buf0, buf, d, s, 0, SecPos(s), ofs)
    ensures prog[s] != [] ==> prog[s][0].what.Begin?
  {
    WalkStart(list, prog, secs, h, buf0, s);
    hide All, Going, Laid, Est;
  }

  /** Before the first section nothing is linked. */
  lemma StartAll(list: seq<Act>, prog: seq<seq<Item>>, secs: seq<Sec>, h: Heap, buf0: map<int, int>)
    requires Laid(list, prog, secs, h, buf0)
    ensures Base(prog, 0) == 0 && Est(All(prog), 0) == 0 && Going(All(prog), buf0, buf0, [0], 0)
  {
    var g := All(prog);
    AllIs(prog);
    hide SectionsOk, All, Flat, Est;
    forall j | 0 <= j < |g| ensures Keeps(g[j], buf0, buf0, false) {
      StartItem(list, prog, secs, h, buf0, j);
    }
    assert Base(prog, 0) == 0 by { BaseZero(prog); }
    assert Est(g, 0) == 0 by { EstZero(g); }
  }

  lemma BaseZero(prog: seq<seq<Item>>)
    ensures Base(prog, 0) == 0
  {
  }

  lemma EstZero(g: seq<Item>)
    ensures Est(g, 0) == 0
  {
  }

  lemma StartItem(list: seq<Act>, prog: seq<seq<Item>>, secs: seq<Sec>, h: Heap, buf0: map<int, int>, j: nat)
    requires Laid(list, prog, secs, h, buf0) && j < |All(prog)|
    ensures Keeps(All(prog)[j], buf0, buf0, false)
  {
    hide *;
    LaidParts(list, prog, secs, h, buf0);
    AllIs(prog);
    var s, k := SectionOf(prog, |prog|, j);
    WordsIn(list, prog, secs, h, buf0, s, k);
    ItemKeeps(h, prog[s][k], buf0);
  }

  lemma ItemKeeps(h: Heap, i: Item, buf: map<int, int>)
    requires (i.what.Begin? ==> i.pos in buf) && (IsLabel(i) || IsAlign(i) ==> i.pos in buf) &&
      (IsRef(i) ==> Resolved(h, buf, i.pos))
    requires (IsRel(i) ==> i.pos + 1 in buf) &&
      (HasArgWord(i) ==> i.pos in buf)
    ensures Keeps(i, buf, buf, false)
  {
  }
}
