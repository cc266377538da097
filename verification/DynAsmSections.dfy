/** The section buffers: what pass 1 has recorded of the templates put so far. */
module DynAsmSections {
  import opened DynAsmItems
  import opened DynAsmLink
  import opened DynAsmLabels

  /** Next free position and estimated size of a section. */
  datatype Sec = Sec(pos: int, ofs: int)

  /** A position is a section number and a 24 bit index. */
  const SECTION_POSITIONS: nat := 0x0100_0000

  function SecPos(s: nat): nat
  {
    s * SECTION_POSITIONS
  }

  function SlotOf(i: Item): Slot
    requires IsLabel(i) || IsRef(i)
  {
    match i.what.act
    case LabelLG(n) => LG(n)
    case RelLG(n) => LG(if n <= 246 then n else n - 246)
    case ImmLG(n) => LG(if n <= 246 then n else n - 246)
    case _ => PC(i.arg)
  }

  /** Local labels are referred to backward or forward explicitly, all others either way. */
  function DirOf(i: Item): Dir
    requires IsRef(i)
  {
    match i.what.act
    case RelLG(n) => if n > 246 then Ahead else if n < 10 then Back else Either
    case ImmLG(n) => if n > 246 then Ahead else if n < 10 then Back else Either
    case _ => Either
  }

  predicate Plain(h: Heap, x: int, v: int)
  {
    x in h.buf && h.buf[x] == v && x !in h.refs && x !in h.labels
  }

  /** The words that pass 1 has stored for item k. */
  ghost predicate ItemIn(g: seq<Item>, k: nat, h: Heap)
    requires k < |g|
  {
    var i := g[k];
    match i.what
    case Begin(start) => Plain(h, i.pos, start)
    case Finish => true
    case Do(a) =>
      if Literal(a) then true
      else if Ends(a) then false
      else if IsLabel(i) then
        i.pos in h.labels && h.labels[i.pos].slot == SlotOf(i) && i.pos in h.buf && h.buf[i.pos] == Est(g, k) &&
          i.pos !in h.refs
      else if IsRef(i) then
        i.pos in h.refs && i.pos in h.buf && h.refs[i.pos].slot == SlotOf(i) && h.refs[i.pos].dir == DirOf(i) &&
          i.pos !in h.labels &&
        (IsRel(i) ==> Plain(h, i.pos + 1, Est(g, k + 1)))
      else if a.Align? then Plain(h, i.pos, Est(g, k + 1))
      else Plain(h, i.pos, i.arg)
  }

  ghost predicate ItemsIn(g: seq<Item>, s: nat, h: Heap)
  {
    forall k {:trigger g[k]} :: 0 <= k < |g| ==> g[k].pos == SecPos(s) + Used(g, k) && ItemIn(g, k, h)
  }

  ghost predicate SectionOk(list: seq<Act>, g: seq<Item>, s: nat, sec: Sec, h: Heap)
  {
    Decoded(list, g) && ArgsOk(g) && sec.ofs == Est(g, |g|) && sec.pos == SecPos(s) + Used(g, |g|) &&
    Used(g, |g|) <= SECTION_POSITIONS && ItemsIn(g, s, h) &&
    forall x {:trigger x in h.buf} :: sec.pos <= x < SecPos(s + 1) ==> x !in h.buf
  }

  ghost predicate LabelItem(prog: seq<seq<Item>>, l: int)
  {
    exists s, k :: 0 <= s < |prog| && 0 <= k < |prog[s]| && IsLabel(prog[s][k]) && prog[s][k].pos == l
  }

  ghost predicate SectionsOk(list: seq<Act>, prog: seq<seq<Item>>, secs: seq<Sec>, h: Heap)
  {
    |prog| == |secs| &&
    (forall s: nat {:trigger prog[s]} :: s < |prog| ==> SectionOk(list, prog[s], s, secs[s], h)) &&
    forall l {:trigger l in h.labels} :: l in h.labels ==> LabelItem(prog, l)
  }

  /** What putting one item may do to the heap: fill its own words, and redirect references. */
  ghost predicate Grows(h: Heap, h': Heap, pos: int, n: nat)
  {
    (forall x {:trigger x in h.buf} :: x in h.buf ==> x in h'.buf && (x !in h.refs ==> h'.buf[x] == h.buf[x])) &&
    (forall x {:trigger x in h'.buf} :: x in h'.buf ==> x in h.buf || pos <= x < pos + n) &&
    (forall x {:trigger x in h'.refs} :: x in h'.refs <==> x in h.refs || (x == pos && x in h'.refs)) &&
    (forall x {:trigger h'.refs[x]} :: x in h.refs && x != pos ==> h'.refs[x] == h.refs[x]) &&
    (forall x {:trigger x in h'.labels} :: x in h'.labels <==> x in h.labels || (x == pos && x in h'.labels)) &&
    (forall x {:trigger h'.labels[x]} :: x in h.labels && x != pos ==> h'.labels[x] == h.labels[x])
  }

  ghost predicate LabelsGrow(h: Heap, h': Heap, i: Item)
  {
    forall l {:trigger l in h'.labels} :: l in h'.labels ==> l in h.labels || (l == i.pos && IsLabel(i))
  }

  lemma ItemStays(g: seq<Item>, more: seq<Item>, k: nat, h: Heap, h': Heap, pos: int, n: nat)
    requires k < |g| && ItemIn(g, k, h) && Grows(h, h', pos, n) && forall x :: pos <= x < pos + n ==> x !in h.buf
    requires n > 0
    ensures ItemIn(g + more, k, h')
  {
    EstPrefix(g, more, k);
    EstPrefix(g, more, k + 1);
    assert pos !in h.buf;
  }

  lemma {:induction false} UsedGrows(g: seq<Item>, i: nat, j: nat)
    requires i <= j <= |g|
    ensures Used(g, i) <= Used(g, j)
    decreases j - i
  {
    if i < j { UsedGrows(g, i, j - 1); }
  }

  /** One more item in section s. */
  lemma AddItem(list: seq<Act>, prog: seq<seq<Item>>, secs: seq<Sec>, h: Heap, s: nat, i: Item, h': Heap)
    requires SectionsOk(list, prog, secs, h) && s < |prog| && i.pos == secs[s].pos && ArgOk(i)
    requires if prog[s] == [] then i.what.Begin? && StartOk(list, i.what.start)
      else Follows(list, prog[s][|prog[s]| - 1], i)
    requires i.pos + Slots(i) <= SecPos(s + 1)
    requires if Slots(i) > 0 then Grows(h, h', i.pos, Slots(i)) else h' == h
    requires ItemIn(prog[s] + [i], |prog[s]|, h')
    requires LabelsGrow(h, h', i)
    ensures SectionsOk(list, prog[s := prog[s] + [i]], secs[s := Sec(i.pos + Slots(i), secs[s].ofs + MaxSize(i))], h')
  {
    var prog', secs' := prog[s := prog[s] + [i]], secs[s := Sec(i.pos + Slots(i), secs[s].ofs + MaxSize(i))];
    assert SectionOk(list, prog[s], s, secs[s], h);
    forall t: nat | t < |prog'| ensures SectionOk(list, prog'[t], t, secs'[t], h') {
      assert SectionOk(list, prog[t], t, secs[t], h);
      if t == s { AddHere(list, prog[s], s, secs[s], h, i, h'); }
        else { AddElsewhere(list, prog[t], t, secs[t], h, i, h', s); }
    }
    forall l | l in h'.labels ensures LabelItem(prog', l) {
      if l in h.labels {
        assert LabelItem(prog, l);
        var t: int, k: int :| 0 <= t < |prog| && 0 <= k < |prog[t]| && IsLabel(prog[t][k]) && prog[t][k].pos == l;
        assert prog'[t][k] == prog[t][k];
      } else {
        assert prog'[s][|prog[s]|] == i;
      }
    }
  }

  lemma AddHere(list: seq<Act>, g: seq<Item>, s: nat, sec: Sec, h: Heap, i: Item, h': Heap)
    requires SectionOk(list, g, s, sec, h) && i.pos == sec.pos && ArgOk(i)
    requires if g == [] then i.what.Begin? && StartOk(list, i.what.start) else Follows(list, g[|g| - 1], i)
    requires i.pos + Slots(i) <= SecPos(s + 1) && ItemIn(g + [i], |g|, h')
    requires if Slots(i) > 0 then Grows(h, h', i.pos, Slots(i)) else h' == h
    ensures SectionOk(list, g + [i], s, Sec(i.pos + Slots(i), sec.ofs + MaxSize(i)), h')
  {
    var g' := g + [i];
    DecodedMore(list, g, i);
    EstPrefix(g, [i], |g|);
    AddedItems(g, s, sec, h, i, h');
    assert Est(g', |g'|) == Est(g, |g|) + MaxSize(i) && Used(g', |g'|) == Used(g, |g|) + Slots(i);
    forall k | 0 <= k < |g'| ensures ArgOk(g'[k]) {
      if k < |g| { assert ArgOk(g[k]); }
    }
    hide Decoded, ItemsIn, ItemIn, Follows, Est, Used, ArgOk, MaxSize;
  }

  lemma AddedItems(g: seq<Item>, s: nat, sec: Sec, h: Heap, i: Item, h': Heap)
    requires ItemsIn(g, s, h) && sec.pos == SecPos(s) + Used(g, |g|) && i.pos == sec.pos && ItemIn(g + [i], |g|, h')
    requires i.pos + Slots(i) <= SecPos(s + 1) && forall x :: sec.pos <= x < SecPos(s + 1) ==> x !in h.buf
    requires if Slots(i) > 0 then Grows(h, h', i.pos, Slots(i)) else h' == h
    ensures ItemsIn(g + [i], s, h')
  {
    var g' := g + [i];
    forall k | 0 <= k < |g'| ensures g'[k].pos == SecPos(s) + Used(g', k) && ItemIn(g', k, h') {
      AddedItem(g, s, sec, h, i, h', k);
    }
  }

  lemma AddedItem(g: seq<Item>, s: nat, sec: Sec, h: Heap, i: Item, h': Heap, k: nat)
    requires ItemsIn(g, s, h) && sec.pos == SecPos(s) + Used(g, |g|) && i.pos == sec.pos && ItemIn(g + [i], |g|, h')
    requires i.pos + Slots(i) <= SecPos(s + 1) && forall x :: sec.pos <= x < SecPos(s + 1) ==> x !in h.buf
    requires if Slots(i) > 0 then Grows(h, h', i.pos, Slots(i)) else h' == h
    requires k <= |g|
    ensures var g' := g + [i]; g'[k].pos == SecPos(s) + Used(g', k) && ItemIn(g', k, h')
  {
    EstPrefix(g, [i], k);
    if k < |g| {
      assert g[k].pos == SecPos(s) + Used(g, k) && ItemIn(g, k, h);
      EstPrefix(g, [i], k + 1);
      hide ItemIn, Grows, Est, Used, Slots, ItemsIn;
      if Slots(i) > 0 { ItemStays(g, [i], k, h, h', i.pos, Slots(i)); } else { ItemMore(g, [i], k, h); }
    }
  }

  lemma ItemMore(g: seq<Item>, more: seq<Item>, k: nat, h: Heap)
    requires k < |g| && ItemIn(g, k, h)
    ensures ItemIn(g + more, k, h)
  {
    EstPrefix(g, more, k);
    EstPrefix(g, more, k + 1);
    hide Est;
  }

  lemma AddElsewhere(list: seq<Act>, g: seq<Item>, t: nat, sec: Sec, h: Heap, i: Item, h': Heap, s: nat)
    requires SectionOk(list, g, t, sec, h) && t != s && SecPos(s) <= i.pos && i.pos + Slots(i) <= SecPos(s + 1)
    requires if Slots(i) > 0
      then Grows(h, h', i.pos, Slots(i)) && (forall x :: i.pos <= x < i.pos + Slots(i) ==> x !in h.buf) else h' == h
    ensures SectionOk(list, g, t, sec, h')
  {
    if Slots(i) > 0 {
      assert g + [] == g;
      forall k | 0 <= k < |g| ensures g[k].pos == SecPos(t) + Used(g, k) && ItemIn(g, k, h') {
        assert ItemIn(g, k, h);
        ItemStays(g, [], k, h, h', i.pos, Slots(i));
      }
      assert t < s || s < t;
    }
  }

  // ---- The three ways a heap grows ------------------------------------------------------

  function Store(h: Heap, pos: int, v: int): Heap
  {
    h.(buf := h.buf[pos := v])
  }

  lemma StoreOk(h: Heap, pos: int, v: int)
    requires LinksOk(h) && pos !in h.buf
    ensures LinksOk(Store(h, pos, v)) && Grows(h, Store(h, pos, v), pos, 1) && Plain(Store(h, pos, v), pos, v)
  {
    var h' := Store(h, pos, v);
    forall t | HasSlot(h', t) ensures SlotOk(h', t) {
      assert SlotOk(h, t);
      forall x | x in Chain(h, t) ensures x in h.buf && x != pos && Waiting(h', t, x) {
        assert Waiting(h, t, x) && RefOk(h, x);
      }
      LinkedFrame(h.buf, h'.buf, Chain(h, t));
    }
    forall r | r in h'.refs ensures RefOk(h', r) { assert RefOk(h, r); }
    forall l | l in h'.labels ensures LabelOk(h', l) { assert LabelOk(h, l); }
    assert pos in h.refs ==> RefOk(h, pos);
    assert pos in h.labels ==> LabelOk(h, pos);
  }

  lemma DefineGrows(h: Heap, s: Slot, pos: int, ofs: int)
    requires LinksOk(h) && HasSlot(h, s) && pos > 0 && pos !in h.buf
    ensures LinksOk(Define(h, s, pos, ofs)) && Grows(h, Define(h, s, pos, ofs), pos, 1) && pos !in h.refs
    ensures var h' := Define(h, s, pos, ofs);
      pos in h'.buf && h'.buf[pos] == ofs && pos in h'.labels && h'.labels[pos].slot == s && pos !in h'.refs
  {
    DefineOk(h, s, pos, ofs);
    assert pos in h.refs ==> RefOk(h, pos);
    assert pos in h.labels ==> LabelOk(h, pos);
  }

  lemma ReferGrows(h: Heap, s: Slot, pos: int, dir: Dir)
    requires LinksOk(h) && HasSlot(h, s) && pos > 0 && pos !in h.buf && (dir == Back ==> Val(h, s) < 0) &&
      UseOk(Use(s, 0, dir))
    ensures LinksOk(Refer(h, s, pos, dir)) && Grows(h, Refer(h, s, pos, dir), pos, 1)
    ensures var h' := Refer(h, s, pos, dir);
      pos in h'.buf && pos in h'.refs && h'.refs[pos].slot == s && h'.refs[pos].dir == dir && pos !in h'.labels &&
        h'.labels == h.labels
  {
    ReferOk(h, s, pos, dir);
    assert pos in h.refs ==> RefOk(h, pos);
    assert pos in h.labels ==> LabelOk(h, pos);
  }

  /** A branch stores its reference and, behind it, its estimate. */
  lemma BranchGrows(h: Heap, s: Slot, pos: int, dir: Dir, est: int)
    requires LinksOk(h) && HasSlot(h, s) && pos > 0 && pos !in h.buf && pos + 1 !in h.buf &&
      (dir == Back ==> Val(h, s) < 0) && UseOk(Use(s, 0, dir))
    ensures var h' := Store(Refer(h, s, pos, dir), pos + 1, est);
      LinksOk(h') && Grows(h, h', pos, 2) && pos in h'.buf && pos in h'.refs && h'.refs[pos].slot == s &&
        h'.refs[pos].dir == dir &&
      pos !in h'.labels && h'.labels == h.labels && Plain(h', pos + 1, est)
  {
    ReferGrows(h, s, pos, dir);
    var h1 := Refer(h, s, pos, dir);
    StoreOk(h1, pos + 1, est);
    hide LinksOk, Refer;
  }

  /** The label arrays do not matter to the sections. */
  lemma SameSections(list: seq<Act>, prog: seq<seq<Item>>, secs: seq<Sec>, h: Heap, h': Heap)
    requires SectionsOk(list, prog, secs, h) && h'.buf == h.buf && h'.refs == h.refs && h'.labels == h.labels
    ensures SectionsOk(list, prog, secs, h')
  {
    forall s: nat | s < |prog| ensures SectionOk(list, prog[s], s, secs[s], h') {
      assert SectionOk(list, prog[s], s, secs[s], h);
      SameItems(prog[s], s, h, h');
    }
  }

  lemma SameItems(g: seq<Item>, s: nat, h: Heap, h': Heap)
    requires ItemsIn(g, s, h) && h'.buf == h.buf && h'.refs == h.refs && h'.labels == h.labels
    ensures ItemsIn(g, s, h')
  {
    forall k | 0 <= k < |g| ensures g[k].pos == SecPos(s) + Used(g, k) && ItemIn(g, k, h') {
      SameItem(g, k, h, h');
    }
  }

  lemma SameItem(g: seq<Item>, k: nat, h: Heap, h': Heap)
    requires k < |g| && h'.buf == h.buf && h'.refs == h.refs && h'.labels == h.labels
    ensures ItemIn(g, k, h) ==> ItemIn(g, k, h')
  {
  }

  /** Fresh positions are not in the buffer, and come after a template's first word. */
  lemma FreshPlace(list: seq<Act>, prog: seq<seq<Item>>, secs: seq<Sec>, h: Heap, s: nat, n: nat)
    requires SectionsOk(list, prog, secs, h) && s < |prog| && secs[s].pos + n <= SecPos(s + 1)
    ensures forall x :: secs[s].pos <= x < secs[s].pos + n ==> x !in h.buf
    ensures prog[s] != [] ==> secs[s].pos > 0
    ensures secs[s].ofs == Est(prog[s], |prog[s]|)
  {
    assert SectionOk(list, prog[s], s, secs[s], h);
    if prog[s] != [] { UsedGrows(prog[s], 1, |prog[s]|); }
  }
}
