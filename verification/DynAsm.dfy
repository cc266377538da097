/** The DynASM encoding engine for x86: put, link and encode. */
module DynAsm {
  import opened Arith
  import opened DynAsmItems
  import opened DynAsmLink
  import opened DynAsmLabels
  import opened DynAsmSections
  import opened DynAsmFlat
  import opened DynAsmFix
  import opened DynAsmEmit
  import opened DynAsmCode

  datatype Status = Ok | RangeImm | RangeLG | RangePC | RangeSec | UndefLocal(l: nat) | UndefPC(n: nat)
      | MatchSec(n: nat) | Phase

  predicate TakesArg(a: Act)
  {
    a.ImmS? || a.ImmB? || a.ImmW? || a.ImmD? || a.ImmWB? || a.ImmDB? || a.Space? || a.RelA? || a.RelPC? || a.ImmPC? ||
      a.LabelPC?
  }

  /** The arguments that the template going on at p takes from args are there, and no space is negative. */
  predicate ArgsFit(list: seq<Act>, p: nat, args: seq<int>, i: nat)
    decreases |list| - p
  {
    p >= |list| || Ends(list[p]) ||
    (if TakesArg(list[p]) then i < |args| && (list[p].Space? ==> args[i] >= 0) && ArgsFit(list, p + 1, args, i + 1)
     else ArgsFit(list, p + 1, args, i))
  }

  /** The local labels that a backward reference finds. */
  function Known(lg: seq<int>): set<nat>
  {
    set n: nat | n < 10 && n < |lg| && lg[n] < 0
  }

  /** Whether pass 1 takes an action: its argument is in range, its label is there, and a local one to go back to
      exists. */
  predicate Accepts(a: Act, arg: int, known: set<nat>, nlg: nat, npc: nat)
  {
    match a
    case ImmS => FitsByte(arg)
    case ImmB => 0 <= arg < 256
    case ImmW => 0 <= arg < 65536
    case ImmWB => FitsByte(arg) || 0 <= arg < 65536
    case LabelLG(n) => n < nlg
    case RelLG(n) => LocalFound(n, known, nlg)
    case ImmLG(n) => LocalFound(n, known, nlg)
    case LabelPC => 0 <= arg < npc
    case RelPC => 0 <= arg < npc
    case ImmPC => 0 <= arg < npc
    case _ => true
  }

  predicate LocalFound(n: byte, known: set<nat>, nlg: nat)
  {
    n > 246 || if n < 10 then n in known else n < nlg
  }

  /** A local label is known from its definition on, until a forward reference to its next one. */
  function KnownAfter(a: Act, known: set<nat>): set<nat>
  {
    match a
    case LabelLG(n) => if n < 10 then known + {n} else known
    case RelLG(n) => if n > 246 then known - {n - 246} else known
    case ImmLG(n) => if n > 246 then known - {n - 246} else known
    case _ => known
  }

  /** Whether pass 1 takes the rest of a template, from the action at p with the arguments from i on. */
  predicate Accepted(list: seq<Act>, p: nat, args: seq<int>, i: nat, known: set<nat>, nlg: nat, npc: nat, nsec: nat)
    decreases |list| - p
  {
    p < |list| &&
    if list[p].Stop? then true
    else if list[p].Section? then list[p].n < nsec
    else
      Accepts(list[p], ArgAt(list[p], args, i), known, nlg, npc) &&
      Accepted(list, p + 1, args, if TakesArg(list[p]) then i + 1 else i, KnownAfter(list[p], known), nlg, npc, nsec)
  }

  /** The argument that an action takes, or 0 if it takes none. */
  function ArgAt(a: Act, args: seq<int>, i: nat): int
  {
    if TakesArg(a) && i < |args| then args[i] else 0
  }

  lemma LabelKnown(list: seq<Act>, p: nat, pos: int, arg: int, h: Heap, slot: Slot, ofs: int)
    requires p < |list| && pos > 0 && HasSlot(h, slot)
    requires IsLabel(ItemFor(list, p, pos, arg)) && SlotOf(ItemFor(list, p, pos, arg)) == slot
    ensures Known(Define(h, slot, pos, ofs).lg) == KnownAfter(list[p], Known(h.lg))
    ensures |Define(h, slot, pos, ofs).lg| == |h.lg| && |Define(h, slot, pos, ofs).pc| == |h.pc|
  {
  }

  lemma RefKnown(list: seq<Act>, p: nat, pos: int, arg: int, h: Heap, slot: Slot, dir: Dir)
    requires p < |list| && pos > 0 && HasSlot(h, slot) && (dir == Back ==> Val(h, slot) < 0) && UseOk(Use(slot, 0, dir))
    requires var i := ItemFor(list, p, pos, arg); IsRef(i) && SlotOf(i) == slot && DirOf(i) == dir
    ensures Known(Refer(h, slot, pos, dir).lg) == KnownAfter(list[p], Known(h.lg))
    ensures |Refer(h, slot, pos, dir).lg| == |h.lg| && |Refer(h, slot, pos, dir).pc| == |h.pc|
  {
  }

  /** How many positions the template going on at p needs. */
  function Room(list: seq<Act>, p: nat): nat
    decreases |list| - p
  {
    if p >= |list| || Ends(list[p]) then 0 else 2 + Room(list, p + 1)
  }

  /** The arguments of the actions among items. */
  function ArgsOf(g: seq<Item>): seq<int>
  {
    if g == [] then [] else ArgsOf(g[..|g| - 1]) + ArgOf(g[|g| - 1])
  }

  function ArgOf(i: Item): seq<int>
  {
    if i.what.Do? && TakesArg(i.what.act) then [i.arg] else []
  }

  /** Pass 1 is in the middle of a template in section s: pos and ofs are not yet stored back. */
  ghost predicate MidAt(list: seq<Act>, prog: seq<seq<Item>>, secs: seq<Sec>, h: Heap, s: nat, p: nat, pos: int,
      ofs: int)
  {
    ListOk(list) && s < |secs| && LinksOk(h) && SectionsOk(list, prog, secs[s := Sec(pos, ofs)], h) && s < |prog| &&
      prog[s] != [] &&
    !prog[s][|prog[s]| - 1].what.Finish? && After(prog[s][|prog[s]| - 1]) == p && p < |list|
  }

  /** The item that the action at p gives here. */
  function ItemFor(list: seq<Act>, p: nat, pos: int, arg: int): Item
    requires p < |list|
  {
    Item(Do(list[p]), p, pos, arg, OpAt(list, p))
  }

  function Add(prog: seq<seq<Item>>, s: nat, i: Item): seq<seq<Item>>
    requires s < |prog|
  {
    prog[s := prog[s] + [i]]
  }

  /** From h to h', the item that the action at p gives has been stored at pos. */
  ghost predicate Adds(list: seq<Act>, prog: seq<seq<Item>>, h: Heap, s: nat, p: nat, pos: int, arg: int, h': Heap)
  {
    p < |list| && s < |prog| &&
    var i := ItemFor(list, p, pos, arg);
    ArgOk(i) && LinksOk(h') && (if Slots(i) > 0 then Grows(h, h', pos, Slots(i)) else h' == h) &&
    ItemIn(prog[s] + [i], |prog[s]|, h') && LabelsGrow(h, h', i)
  }

  lemma AddsIs(list: seq<Act>, prog: seq<seq<Item>>, h: Heap, s: nat, p: nat, pos: int, arg: int, h': Heap)
    requires p < |list| && s < |prog|
    ensures var i := ItemFor(list, p, pos, arg);
      Adds(list, prog, h, s, p, pos, arg, h') <==>
        ArgOk(i) && LinksOk(h') && (if Slots(i) > 0 then Grows(h, h', pos, Slots(i)) else h' == h) &&
        ItemIn(prog[s] + [i], |prog[s]|, h') && LabelsGrow(h, h', i)
  {
    hide ArgOk, LinksOk, Grows, ItemIn, LabelsGrow;
  }

  /** One more item, however it changes the heap. */
  lemma {:induction false} ItemMid(list: seq<Act>, prog: seq<seq<Item>>, secs: seq<Sec>, h: Heap, s: nat, p: nat,
      pos: int, ofs: int, arg: int, h': Heap)
    requires MidAt(list, prog, secs, h, s, p, pos, ofs) && !Ends(list[p]) && pos + 2 <= SecPos(s + 1)
    requires Adds(list, prog, h, s, p, pos, arg, h')
    ensures var i := ItemFor(list, p, pos, arg);
      MidAt(list, Add(prog, s, i), secs, h', s, p + 1, pos + Slots(i), ofs + MaxSize(i))
  {
    hide *;
    MidParts(list, prog, secs, h, s, p, pos, ofs, arg);
    var i := ItemFor(list, p, pos, arg);
    SlotsMax(i);
    AddsIs(list, prog, h, s, p, pos, arg, h');
    var sec := secs[s := Sec(pos, ofs)];
    AddItem(list, prog, sec, h, s, i, h');
    SecTwice(secs, s, Sec(pos, ofs), Sec(pos + Slots(i), ofs + MaxSize(i)));
    MidAgain(list, Add(prog, s, i), secs, h', s, p + 1, pos + Slots(i), ofs + MaxSize(i));
  }

  lemma SecTwice(secs: seq<Sec>, s: nat, a: Sec, b: Sec)
    requires s < |secs|
    ensures secs[s := a][s := b] == secs[s := b] && secs[s := a][s] == a
  {
  }

  lemma SlotsMax(i: Item)
    ensures Slots(i) <= 2
  {
  }

  lemma MidParts(list: seq<Act>, prog: seq<seq<Item>>, secs: seq<Sec>, h: Heap, s: nat, p: nat, pos: int, ofs: int,
      arg: int)
    requires MidAt(list, prog, secs, h, s, p, pos, ofs) && !Ends(list[p])
    ensures ListOk(list) && s < |secs| == |prog| && LinksOk(h) && SectionsOk(list, prog, secs[s := Sec(pos, ofs)], h) &&
      prog[s] != []
    ensures p + 1 < |list|
    ensures var i := ItemFor(list, p, pos, arg);
      Follows(list, prog[s][|prog[s]| - 1], i) && i.pos == pos && Add(prog, s, i) == prog[s := prog[s] + [i]] &&
      Add(prog, s, i)[s] == prog[s] + [i] && (prog[s] + [i])[|prog[s]|] == i && After(i) == p + 1 && !i.what.Finish?
  {
  }

  lemma MidAgain(list: seq<Act>, prog: seq<seq<Item>>, secs: seq<Sec>, h: Heap, s: nat, p: nat, pos: int, ofs: int)
    requires ListOk(list) && s < |secs| && LinksOk(h) && SectionsOk(list, prog, secs[s := Sec(pos, ofs)], h) &&
      s < |prog| && prog[s] != []
    requires !prog[s][|prog[s]| - 1].what.Finish? && After(prog[s][|prog[s]| - 1]) == p && p < |list|
    ensures MidAt(list, prog, secs, h, s, p, pos, ofs)
  {
  }

  lemma MidPlace(list: seq<Act>, prog: seq<seq<Item>>, secs: seq<Sec>, h: Heap, s: nat, p: nat, pos: int, ofs: int,
      i: Item)
    requires MidAt(list, prog, secs, h, s, p, pos, ofs) && pos + 2 <= SecPos(s + 1)
    ensures pos > 0 && pos !in h.buf && pos + 1 !in h.buf && LinksOk(h) && s < |prog| && prog[s] != [] &&
      |prog| == |secs|
    ensures Est(prog[s] + [i], |prog[s]|) == ofs && Est(prog[s] + [i], |prog[s]| + 1) == ofs + MaxSize(i)
  {
    FreshPlace(list, prog, secs[s := Sec(pos, ofs)], h, s, 2);
    EstPrefix(prog[s], [i], |prog[s]|);
  }

  lemma WordMid(list: seq<Act>, prog: seq<seq<Item>>, secs: seq<Sec>, h: Heap, s: nat, p: nat, pos: int, ofs: int,
      arg: int, word: int)
    requires MidAt(list, prog, secs, h, s, p, pos, ofs) && !Ends(list[p]) && pos + 2 <= SecPos(s + 1)
    requires var i := ItemFor(list, p, pos, arg);
      !IsLabel(i) && !IsRef(i) && ArgOk(i) && (IsAlign(i) ==> word == ofs + MaxSize(i)) &&
        (!IsAlign(i) && !Literal(list[p]) ==> word == arg)
    ensures var i := ItemFor(list, p, pos, arg); var n := if Literal(list[p]) then 0 else 1;
      s < |prog| &&
      MidAt(list, Add(prog, s, i), secs, if Literal(list[p]) then h
        else Store(h, pos, word), s, p + 1, pos + n, ofs + MaxSize(i))
  {
    var i := ItemFor(list, p, pos, arg);
    MidPlace(list, prog, secs, h, s, p, pos, ofs, i);
    if !Literal(list[p]) { StoreOk(h, pos, word); }
    assert Slots(i) == if Literal(list[p]) then 0 else 1;
    var h' := if Literal(list[p]) then h else Store(h, pos, word);
    assert ItemIn(prog[s] + [i], |prog[s]|, h');
    assert LabelsGrow(h, h', i);
    hide MidAt, LinksOk, Grows, ItemIn, Est, LabelsGrow;
    AddsIs(list, prog, h, s, p, pos, arg, h');
    ItemMid(list, prog, secs, h, s, p, pos, ofs, arg, h');
  }

  lemma LabelMid(list: seq<Act>, prog: seq<seq<Item>>, secs: seq<Sec>, h: Heap, s: nat, p: nat, pos: int, ofs: int,
      arg: int, slot: Slot)
    requires MidAt(list, prog, secs, h, s, p, pos, ofs) && !Ends(list[p]) && pos + 2 <= SecPos(s + 1)
    requires var i := ItemFor(list, p, pos, arg); IsLabel(i) && SlotOf(i) == slot && HasSlot(h, slot)
    ensures s < |prog| && pos > 0 && pos !in h.buf && LinksOk(h)
    ensures MidAt(list, Add(prog, s, ItemFor(list, p, pos, arg)), secs, Define(h, slot, pos, ofs), s, p + 1, pos + 1,
      ofs)
  {
    var i := ItemFor(list, p, pos, arg);
    MidPlace(list, prog, secs, h, s, p, pos, ofs, i);
    DefineGrows(h, slot, pos, ofs);
    var h' := Define(h, slot, pos, ofs);
    assert h'.labels == h.labels[pos := Def(slot, h.clock)];
    assert Slots(i) == 1 && MaxSize(i) == 0 && ArgOk(i);
    assert ItemIn(prog[s] + [i], |prog[s]|, h');
    assert LabelsGrow(h, h', i);
    hide MidAt, LinksOk, Grows, ItemIn, Est, Define, LabelsGrow;
    AddsIs(list, prog, h, s, p, pos, arg, h');
    ItemMid(list, prog, secs, h, s, p, pos, ofs, arg, h');
  }

  lemma RefMid(list: seq<Act>, prog: seq<seq<Item>>, secs: seq<Sec>, h: Heap, s: nat, p: nat, pos: int, ofs: int,
      arg: int,
               slot: Slot, dir: Dir)
    requires MidAt(list, prog, secs, h, s, p, pos, ofs) && !Ends(list[p]) && pos + 2 <= SecPos(s + 1)
    requires var i := ItemFor(list, p, pos, arg);
      IsRef(i) && SlotOf(i) == slot && DirOf(i) == dir && HasSlot(h, slot) && (dir == Back ==> Val(h, slot) < 0) &&
        UseOk(Use(slot, 0, dir))
    ensures var i := ItemFor(list, p, pos, arg); var h1 := Refer(h, slot, pos, dir); var n := if IsRel(i) then 2 else 1;
      s < |prog| && pos > 0 &&
      MidAt(list, Add(prog, s, i), secs, if IsRel(i) then Store(h1, pos + 1, ofs + 4)
        else h1, s, p + 1, pos + n, ofs + 4)
  {
    hide *;
    MidParts(list, prog, secs, h, s, p, pos, ofs, arg);
    var i := ItemFor(list, p, pos, arg);
    MidPlace(list, prog, secs, h, s, p, pos, ofs, i);
    RefShape(i);
    if IsRel(i) { BranchGrows(h, slot, pos, dir, ofs + 4); } else { ReferGrows(h, slot, pos, dir); }
    var h1 := Refer(h, slot, pos, dir);
    var h' := if IsRel(i) then Store(h1, pos + 1, ofs + 4) else h1;
    RefIn(prog[s], i, h', ofs + 4);
    SameLabels(h, h', i);
    AddsIs(list, prog, h, s, p, pos, arg, h');
    ItemMid(list, prog, secs, h, s, p, pos, ofs, arg, h');
  }

  lemma RefShape(i: Item)
    requires IsRef(i)
    ensures Slots(i) == (if IsRel(i) then 2 else 1) && MaxSize(i) == 4 && ArgOk(i)
  {
  }

  lemma SameLabels(h: Heap, h': Heap, i: Item)
    requires h'.labels == h.labels
    ensures LabelsGrow(h, h', i)
  {
  }

  /** A reference stored in the heap, as the last item of a section. */
  lemma RefIn(g: seq<Item>, i: Item, h: Heap, est: int)
    requires IsRef(i) && i.pos in h.refs && i.pos in h.buf && i.pos !in h.labels
    requires h.refs[i.pos].slot == SlotOf(i) && h.refs[i.pos].dir == DirOf(i)
    requires IsRel(i) ==> Plain(h, i.pos + 1, est) && est == Est(g + [i], |g| + 1)
    ensures ItemIn(g + [i], |g|, h)
  {
    assert (g + [i])[|g|] == i;
    hide Est, Plain, SlotOf, DirOf;
  }

  /** Items that are the template at start, up to but not with its end, with these arguments. */
  ghost predicate Partial(list: seq<Act>, g: seq<Item>, start: nat, args: seq<int>)
  {
    g != [] && g[0].what == Begin(start) && Decoded(list, g) && ArgsOf(g) == args &&
    forall k :: 0 < k < |g| ==> g[k].what.Do?
  }

  /** Items that are the template at start with arguments from args. */
  ghost predicate IsTemplate(list: seq<Act>, g: seq<Item>, start: nat, args: seq<int>)
  {
    |g| > 1 && Decoded(list, g) && g[|g| - 1].what.Finish? && ArgsOf(g[..|g| - 1]) <= args &&
      Partial(list, g[..|g| - 1], start, ArgsOf(g[..|g| - 1]))
  }

  lemma {:induction false} ArgsOfMore(g: seq<Item>, i: Item)
    ensures ArgsOf(g + [i]) == ArgsOf(g) + ArgOf(i)
  {
    assert (g + [i])[..|g|] == g;
  }

  lemma PartialMore(list: seq<Act>, g: seq<Item>, start: nat, args: seq<int>, p: nat, pos: int, arg: int)
    requires Partial(list, g, start, args) && p < |list| && !Ends(list[p]) && After(g[|g| - 1]) == p
    ensures Partial(list, g + [ItemFor(list, p, pos, arg)], start, args + (if TakesArg(list[p]) then [arg] else []))
  {
    var i := ItemFor(list, p, pos, arg);
    DecodedMore(list, g, i);
    ArgsOfMore(g, i);
    assert (g + [i])[|g|] == i;
  }

  lemma PartialEnd(list: seq<Act>, g: seq<Item>, start: nat, args: seq<int>, all: seq<int>, p: nat, pos: int)
    requires Partial(list, g, start, args) && args <= all && p < |list| && Ends(list[p]) && After(g[|g| - 1]) == p
    ensures IsTemplate(list, g + [Item(Finish, p, pos, 0, OpAt(list, p))], start, all)
  {
    var i := Item(Finish, p, pos, 0, OpAt(list, p));
    DecodedMore(list, g, i);
    assert (g + [i])[..|g|] == g && (g + [i])[|g|] == i;
  }

  /** A template begins. */
  lemma BeginMid(list: seq<Act>, prog: seq<seq<Item>>, secs: seq<Sec>, h: Heap, s: nat, start: nat)
    requires ListOk(list) && s < |secs| && LinksOk(h) && SectionsOk(list, prog, secs, h) && s < |prog| &&
      Complete(list, prog[s])
    requires StartOk(list, start) && secs[s].pos + 1 <= SecPos(s + 1)
    ensures var i := Item(Begin(start), start, secs[s].pos, 0, 0);
      MidAt(list, Add(prog, s, i), secs, Store(h, secs[s].pos, start), s, start, secs[s].pos + 1, secs[s].ofs)
    ensures Partial(list, [Item(Begin(start), start, secs[s].pos, 0, 0)], start, []) &&
      After(Item(Begin(start), start, secs[s].pos, 0, 0)) == start
    ensures start < |list|
  {
    var pos := secs[s].pos;
    var i := Item(Begin(start), start, pos, 0, 0);
    var h' := Store(h, pos, start);
    BeginItem(list, prog[s], pos, start);
    hide *;
    FreshPlace(list, prog, secs, h, s, 1);
    StoreOk(h, pos, start);
    BeginIn(prog[s], i, h, h');
    AddItem(list, prog, secs, h, s, i, h');
    BeginAgain(list, prog, secs, h', s, i);
  }

  lemma BeginItem(list: seq<Act>, g: seq<Item>, pos: int, start: nat)
    requires Complete(list, g) && StartOk(list, start)
    ensures var i := Item(Begin(start), start, pos, 0, 0);
      i.pos == pos && i.what.Begin? && i.what.start == start && ArgOk(i) && Slots(i) == 1 && After(i) == start &&
      (if g == [] then true else Follows(list, g[|g| - 1], i)) && Partial(list, [i], start, []) && start < |list|
  {
    var i := Item(Begin(start), start, pos, 0, 0);
    ArgsOfMore([], i);
    assert [] + [i] == [i];
  }

  lemma BeginIn(g: seq<Item>, i: Item, h: Heap, h': Heap)
    requires i.what.Begin? && h' == Store(h, i.pos, i.what.start) && Plain(h', i.pos, i.what.start)
    ensures ItemIn(g + [i], |g|, h') && LabelsGrow(h, h', i)
  {
  }

  lemma BeginAgain(list: seq<Act>, prog: seq<seq<Item>>, secs: seq<Sec>, h: Heap, s: nat, i: Item)
    requires ListOk(list) && s < |secs| && s < |prog| && LinksOk(h) && i.what.Begin? && i.what.start < |list|
    requires SectionsOk(list, prog[s := prog[s] + [i]], secs[s := Sec(i.pos + Slots(i), secs[s].ofs + MaxSize(i))], h)
    ensures MidAt(list, Add(prog, s, i), secs, h, s, i.what.start, i.pos + 1, secs[s].ofs)
  {
    hide SectionsOk, LinksOk, ListOk;
  }

  /** A template ends: position and estimate are stored back. */
  lemma EndMid(list: seq<Act>, prog: seq<seq<Item>>, secs: seq<Sec>, h: Heap, s: nat, p: nat, pos: int, ofs: int)
    requires MidAt(list, prog, secs, h, s, p, pos, ofs) && Ends(list[p]) && pos <= SecPos(s + 1)
    ensures s < |prog|
    ensures var prog' := Add(prog, s, Item(Finish, p, pos, 0, OpAt(list, p)));
      SectionsOk(list, prog', secs[s := Sec(pos, ofs)], h) && Complete(list, prog'[s])
  {
    var i := Item(Finish, p, pos, 0, OpAt(list, p));
    var sec := secs[s := Sec(pos, ofs)];
    assert Follows(list, prog[s][|prog[s]| - 1], i) && |prog| == |secs|;
    assert ItemIn(prog[s] + [i], |prog[s]|, h);
    assert SectionOk(list, prog[s], s, sec[s], h);
    DecodedMore(list, prog[s], i);
    assert LabelsGrow(h, h, i);
    hide LinksOk, SectionsOk, ItemIn, SectionOk, Decoded, ItemsIn, LabelsGrow;
    AddItem(list, prog, sec, h, s, i, h);
    SecTwice(secs, s, Sec(pos, ofs), Sec(pos, ofs));
  }

  /** Pass 1 has recorded whole templates. */
  ghost predicate Recorded(list: seq<Act>, prog: seq<seq<Item>>, secs: seq<Sec>, h: Heap)
  {
    ListOk(list) && LinksOk(h) && SectionsOk(list, prog, secs, h) &&
    forall s {:trigger prog[s]} :: 0 <= s < |prog| ==> Complete(list, prog[s])
  }

  lemma RecordedIs(list: seq<Act>, prog: seq<seq<Item>>, secs: seq<Sec>, h: Heap)
    ensures Recorded(list, prog, secs, h) == (ListOk(list) && LinksOk(h) && SectionsOk(list, prog, secs, h) &&
      forall s {:trigger prog[s]} :: 0 <= s < |prog| ==> Complete(list, prog[s]))
    ensures SectionsOk(list, prog, secs, h) ==> |prog| == |secs|
  {
  }

  // ---- Local labels between the steps -------------------------------------------------

  /** No local label up to n is waited for. */
  predicate NoneAwaited(lg: seq<int>, n: int)
  {
    forall i {:trigger lg[i]} :: 1 <= i <= n && i < |lg| ==> lg[i] <= 0
  }

  /** The local labels up to n are forgotten, the others are as before. */
  ghost predicate Forgotten(lg0: seq<int>, lg: seq<int>, n: nat)
  {
    |lg| == |lg0| && forall i {:trigger lg[i]} :: 0 <= i < |lg| ==> lg[i] == if 1 <= i <= n then 0 else lg0[i]
  }

  lemma ForgottenNext(lg0: seq<int>, lg: seq<int>, n: nat)
    requires 1 <= n < |lg| && Forgotten(lg0, lg, n - 1) && NoneAwaited(lg0, n - 1)
    ensures lg[n] == lg0[n] && n < |lg0|
    ensures lg[n] <= 0 ==> Forgotten(lg0, lg[n := 0], n) && NoneAwaited(lg0, n)
  {
  }

  lemma ForgottenNone(lg: seq<int>)
    ensures Forgotten(lg, lg, 0) && NoneAwaited(lg, 0)
  {
  }

  lemma ForgottenAll(lg0: seq<int>, lg: seq<int>)
    requires Forgotten(lg0, lg, 9)
    ensures NoneAwaited(lg, 9)
  {
  }

  lemma Awaited(lg: seq<int>, l: nat)
    requires 1 <= l <= 9 && l < |lg| && lg[l] > 0
    ensures !NoneAwaited(lg, 9)
  {
  }

  lemma ForgetRecorded(list: seq<Act>, prog: seq<seq<Item>>, secs: seq<Sec>, h: Heap, i: nat)
    requires Recorded(list, prog, secs, h) && 1 <= i <= 9
    ensures |h.lg| >= 10
    ensures h.lg[i] <= 0 ==> Recorded(list, prog, secs, Forget(h, i))
  {
    TenLabels(h);
    if h.lg[i] <= 0 {
      ForgetOk(h, i);
      SameSections(list, prog, secs, h, Forget(h, i));
    }
  }

  lemma TenLabels(h: Heap)
    requires LinksOk(h)
    ensures |h.lg| >= 10
  {
  }

  lemma ForgetIs(h: Heap, i: nat)
    requires i < |h.lg|
    ensures Forget(h, i) == h.(lg := h.lg[i := 0])
  {
  }

  class State {
    const list: seq<Act>
    var lg: seq<int>
    var pc: seq<int>
    var secs: seq<Sec>
    var cur: nat
    var buf: map<int, int>
    var status: Status
    var codesize: int
    var globals: seq<int>
    // What the buffers and label arrays stand for.
    ghost var prog: seq<seq<Item>>
    ghost var labels: map<int, Def>
    ghost var refs: map<int, Use>
    ghost var chains: map<Slot, seq<int>>
    ghost var clock: nat
    // What pass 2 started from, and what it has taken off before each item.
    ghost var was: Heap
    ghost var marked: map<int, int>
    ghost var d: seq<int>

    ghost function H(): Heap
      reads this
    {
      Heap(buf, lg, pc, labels, refs, chains, clock)
    }

    /** Pass 1 has recorded some templates. */
    ghost predicate Valid()
      reads this
    {
      cur < |secs| && |globals| == |lg| && Recorded(list, prog, secs, H())
    }

    /** dasm_init, dasm_setupglobal, dasm_growpc and dasm_setup. */
    constructor (actions: seq<Act>, maxSection: nat, maxGlobal: nat, maxPC: nat)
      requires ListOk(actions) && maxSection > 0
      ensures Valid() && status == Ok && list == actions && |secs| == maxSection && forall s :: 0 <= s < maxSection ==>
        prog[s] == []
    {
      list := actions;
      lg, pc, globals := seq(10 + maxGlobal, _ => 0), seq(maxPC, _ => 0), seq(10 + maxGlobal, _ => 0);
      secs := seq(maxSection, s requires 0 <= s < maxSection => Sec(SecPos(s), 0));
      cur, buf, status, codesize := 0, map[], Ok, 0;
      prog := seq(maxSection, _ => []);
      labels, refs, chains, clock := map[], map[], map[], 0;
      new;
      forall s | HasSlot(H(), s) ensures SlotOk(H(), s) {
      }
    }

    /** putlabel: the chain waiting for the label is collapsed, and the label exists now. */
    method PutLabel(s: Slot, pos: int, ofs: int)
      requires LinksOk(H()) && HasSlot(H(), s) && pos > 0 && pos !in buf
      modifies this`buf, this`lg, this`pc, this`labels, this`chains, this`clock
      ensures |lg| == |old(lg)|
      ensures H() == Define(old(H()), s, pos, ofs)
    {
      var n := Value(s);
      ghost var rest := Chain(H(), s);
      assert SlotOk(H(), s);
      assert n <= 0 ==> rest == [];
      if n < 0 { n := 0; }
      while n > 0
        invariant lg == old(lg) && pc == old(pc) && labels == old(labels) && chains == old(chains) &&
          clock == old(clock)
        invariant Linked(buf, rest) && n == (if rest == [] then 0 else rest[0])
        invariant Collapse(buf, rest, pos) == Collapse(old(buf), Chain(old(H()), s), pos)
        decreases |rest|
      {
        var pb := n;
        n := buf[pb];
        CollapseStep(buf, rest, pos);
        buf := buf[pb := pos];
        rest := rest[1..];
      }
      SetValue(s, -pos);
      buf := buf[pos := ofs];
      labels, chains, clock := labels[pos := Def(s, clock)], chains[s := []], clock + 1;
    }

    static lemma CollapseStep(buf: map<int, int>, c: seq<int>, pos: int)
      requires Linked(buf, c) && c != []
      ensures c[0] in buf && buf[c[0]] == (if |c| > 1 then c[1] else 0) && Linked(buf[c[0] := pos], c[1..])
      ensures Collapse(buf[c[0] := pos], c[1..], pos) == Collapse(buf, c, pos)
      ensures |c| > 1 ==> c[1] > 0 && c[1..] != [] && c[1..][0] == c[1]
    {
      assert forall x :: x in c[1..] ==> x != c[0];
      LinkedFrame(buf, buf[c[0] := pos], c[1..]);
      if |c| > 1 { assert c[1..][0] == c[1]; }
    }

    method Value(s: Slot) returns (v: int)
      requires HasSlot(H(), s)
      ensures v == Val(H(), s)
    {
      match s {
        case LG(i) => v := lg[i];
        case PC(i) => v := pc[i];
      }
    }

    method SetValue(s: Slot, v: int)
      requires HasSlot(H(), s)
      modifies this`lg, this`pc
      ensures H() == SetVal(old(H()), s, v)
    {
      match s {
        case LG(i) => lg := lg[i := v];
        case PC(i) => pc := pc[i := v];
      }
    }

    /** putrel and linkrel: the label's position if it exists, else a link in the chain anchored at it. */
    method PutRef(s: Slot, pos: int, dir: Dir)
      requires HasSlot(H(), s)
      modifies this`buf, this`lg, this`pc, this`refs, this`chains, this`clock
      ensures |lg| == |old(lg)|
      ensures H() == Refer(old(H()), s, pos, dir)
    {
      hide *;
      ghost var h := H();
      ReferIs(h, s, pos, dir);
      Unfold();
      var n := Value(s);
      if n < 0 && dir != Ahead {
        buf := buf[pos := -n];
        refs, clock := refs[pos := Use(s, clock, dir)], clock + 1;
      } else {
        if n < 0 {
          n := 0;
        }
        SetValue(s, pos);
        Unfold();
        buf := buf[pos := n];
        refs, chains, clock := refs[pos := Use(s, clock, dir)], chains[s := [pos] + Chain(h, s)], clock + 1;
      }
      Unfold();
    }

    static lemma ReferIs(h: Heap, s: Slot, pos: int, dir: Dir)
      requires HasSlot(h, s)
      ensures var u, v := Use(s, h.clock, dir), Val(h, s);
        Refer(h, s, pos, dir) ==
          if v < 0 && dir != Ahead then h.(buf := h.buf[pos := -v], refs := h.refs[pos := u], clock := h.clock + 1)
          else SetVal(h, s, pos).(buf := h.buf[pos := if v < 0 then 0 else v], refs := h.refs[pos := u],
                                  chains := h.chains[s := [pos] + Chain(h, s)], clock := h.clock + 1)
      ensures var g := SetVal(h, s, pos);
        g == h.(lg := g.lg, pc := g.pc) && |g.lg| == |h.lg| && |Refer(h, s, pos, dir).lg| == |h.lg|
    {
    }

    // ---- Pass 1 --------------------------------------------------------------------

    ghost predicate Mid(s: nat, p: nat, pos: int, ofs: int)
      reads this
    {
      MidAt(list, prog, secs, H(), s, p, pos, ofs)
    }

    static lemma RelIs(list: seq<Act>, p: nat, pos: int, arg: int)
      requires p < |list|
      ensures IsRel(ItemFor(list, p, pos, arg)) <==> list[p].RelLG? || list[p].RelPC?
    {
    }

    static lemma LiteralIs(list: seq<Act>, p: nat)
      requires p < |list|
      ensures Literal(list[p]) <==> list[p].Byte? || list[p].Esc?
    {
    }

    static lemma StoreIs(h: Heap, pos: int, v: int)
      ensures Store(h, pos, v) == h.(buf := h.buf[pos := v])
    {
    }

    lemma MidIs(s: nat, p: nat, pos: int, ofs: int)
      ensures Mid(s, p, pos, ofs) ==> p < |list|
      ensures Mid(s, p, pos, ofs) == MidAt(list, prog, secs, H(), s, p, pos, ofs)
    {
    }

    lemma Unfold()
      ensures H() == Heap(buf, lg, pc, labels, refs, chains, clock)
    {
    }

    /** An item that only stores a word, or none. */
    method PutWord(s: nat, p: nat, pos: int, ofs: int, arg: int, word: int, size: int) returns (pos': int, ofs': int)
      requires Mid(s, p, pos, ofs) && !Ends(list[p]) && pos + 2 <= SecPos(s + 1)
      requires var i := ItemFor(list, p, pos, arg);
        !IsLabel(i) && !IsRef(i) && ArgOk(i) && size == MaxSize(i) && (IsAlign(i) ==> word == ofs + size) &&
        (!IsAlign(i) && !Literal(list[p]) ==> word == arg)
      modifies this`buf, this`prog
      ensures Mid(s, p + 1, pos', ofs') && pos' <= pos + 1 && s < |old(prog)| &&
        prog == Add(old(prog), s, ItemFor(list, p, pos, arg))
    {
      hide *;
      MidIs(s, p, pos, ofs);
      WordMid(list, prog, secs, H(), s, p, pos, ofs, arg, word);
      StoreIs(H(), pos, word);
      LiteralIs(list, p);
      Unfold();
      pos', ofs' := pos, ofs + size;
      if !list[p].Byte? && !list[p].Esc? {
        buf := buf[pos := word];
        pos' := pos + 1;
      }
      prog := Add(prog, s, ItemFor(list, p, pos, arg));
      Unfold();
      MidIs(s, p + 1, pos', ofs');
    }

    /** A label: collapse its chain, and store the estimate. */
    method PutLabelItem(s: nat, p: nat, pos: int, ofs: int, arg: int, slot: Slot) returns (pos': int)
      requires Mid(s, p, pos, ofs) && !Ends(list[p]) && pos + 2 <= SecPos(s + 1)
      requires var i := ItemFor(list, p, pos, arg); IsLabel(i) && SlotOf(i) == slot && HasSlot(H(), slot)
      modifies this`buf, this`lg, this`pc, this`labels, this`chains, this`clock, this`prog
      ensures |lg| == |old(lg)| && |pc| == |old(pc)| && Known(lg) == KnownAfter(list[p], Known(old(lg)))
      ensures Mid(s, p + 1, pos', ofs) && pos' == pos + 1 && s < |old(prog)| &&
        prog == Add(old(prog), s, ItemFor(list, p, pos, arg))
    {
      hide *;
      MidIs(s, p, pos, ofs);
      LabelMid(list, prog, secs, H(), s, p, pos, ofs, arg, slot);
      LabelKnown(list, p, pos, arg, H(), slot, ofs);
      Unfold();
      PutLabel(slot, pos, ofs);
      Unfold();
      pos' := pos + 1;
      prog := Add(prog, s, ItemFor(list, p, pos, arg));
      Unfold();
      MidIs(s, p + 1, pos', ofs);
    }

    /** A reference to a label; a branch also stores its estimate. */
    method PutRefItem(s: nat, p: nat, pos: int, ofs: int, arg: int, slot: Slot, dir: Dir) returns (pos': int, ofs': int)
      requires Mid(s, p, pos, ofs) && !Ends(list[p]) && pos + 2 <= SecPos(s + 1)
      requires var i := ItemFor(list, p, pos, arg);
        IsRef(i) && SlotOf(i) == slot && DirOf(i) == dir && HasSlot(H(), slot) &&
          (dir == Back ==> Val(H(), slot) < 0) && UseOk(Use(slot, 0, dir))
      modifies this`buf, this`lg, this`pc, this`refs, this`chains, this`clock, this`prog
      ensures |lg| == |old(lg)| && |pc| == |old(pc)| && Known(lg) == KnownAfter(list[p], Known(old(lg)))
      ensures Mid(s, p + 1, pos', ofs') && pos' <= pos + 2 && s < |old(prog)| &&
        prog == Add(old(prog), s, ItemFor(list, p, pos, arg))
    {
      hide *;
      MidIs(s, p, pos, ofs);
      RefMid(list, prog, secs, H(), s, p, pos, ofs, arg, slot, dir);
      RefKnown(list, p, pos, arg, H(), slot, dir);
      Unfold();
      RelIs(list, p, pos, arg);
      StoreIs(Refer(H(), slot, pos, dir), pos + 1, ofs + 4);
      PutRef(slot, pos, dir);
      Unfold();
      pos', ofs' := pos + 1, ofs + 4;
      if list[p].RelLG? || list[p].RelPC? {
        buf := buf[pos' := ofs'];
        pos' := pos' + 1;
      }
      prog := Add(prog, s, ItemFor(list, p, pos, arg));
      Unfold();
      MidIs(s, p + 1, pos', ofs');
    }

    lemma ValidIs()
      ensures Valid() == (cur < |secs| && |globals| == |lg| && Recorded(list, prog, secs, H()))
    {
    }

    /** Pass 1 for one template: stores the actions' arguments, links branches and labels, and estimates offsets. */
    method Put(start: nat, args: seq<int>)
      requires Valid() && status == Ok && StartOk(list, start) && ArgsFit(list, start, args, 0)
      requires secs[cur].pos + 1 + Room(list, start) <= SecPos(cur + 1)
      modifies this
      ensures status == Ok <==> Accepted(list, start, args, 0, Known(old(lg)), |old(lg)|, |old(pc)|, |old(secs)|)
      ensures status == Ok ==> Valid() && |secs| == old(|secs|) && |prog| == |old(prog)|
      ensures status == Ok ==>
        exists g :: prog == old(prog)[old(cur) := old(prog)[old(cur)] + g] && IsTemplate(list, g, start, args)
    {
      hide *;
      ValidIs();
      RecordedIs(list, prog, secs, H());
      var s := cur;
      ghost var was := prog;
      ghost var g := [Item(Begin(start), start, secs[s].pos, 0, 0)];
      AddTwice(was, s, [], g[0]);
      var pos, ofs := PutBegin(start, s);
      var p: nat, i: nat := start, 0;
      assert args[..0] == [];
      while !list[p].Stop? && !list[p].Section?
        invariant Mid(s, p, pos, ofs) && p < |list| && ArgsFit(list, p, args, i) && pos + Room(list, p) <= SecPos(s + 1)
        invariant Accepted(list, start, args, 0, Known(old(lg)), |lg|, |pc|, |secs|) <==>
          Accepted(list, p, args, i, Known(lg), |lg|, |pc|, |secs|)
        invariant secs == old(secs) && cur == s && status == Ok && |lg| == |old(lg)| && |pc| == |old(pc)| &&
          globals == old(globals) && s < |was| && prog == was[s := was[s] + g]
        invariant i <= |args| && Partial(list, g, start, args[..i]) && g != [] && After(g[|g| - 1]) == p
        decreases |list| - p
      {
        PutStep(list, p, args, i);
        ArgIs(list[p], args, i);
        AcceptedNext(list, p, args, i, Known(lg), |lg|, |pc|, |secs|);
        ghost var arg := ArgAt(list[p], args, i);
        ghost var before, i0 := pos, i;
        var ok: bool;
        ok, pos, ofs, i := PutAction(s, p, pos, ofs, args, i);
        if !ok {
          return;
        }
        PartialMore(list, g, start, args[..i0], p, before, arg);
        AddTwice(was, s, g, ItemFor(list, p, before, arg));
        AfterIs(list, p, before, arg, g);
        g := g + [ItemFor(list, p, before, arg)];
        p := p + 1;
        MidIs(s, p, pos, ofs);
      }
      AcceptedEnd(list, p, args, i, Known(lg), |lg|, |pc|, |secs|);
      if list[p].Section? && list[p].n >= |secs| {
        status := RangeSec;
        return;
      }
      ghost var fin := Item(Finish, p, pos, 0, OpAt(list, p));
      MidIs(s, p, pos, ofs);
      MidLists(list, prog, secs, H(), s, p, pos, ofs);
      PartialEnd(list, g, start, args[..i], args, p, pos);
      AddTwice(was, s, g, fin);
      PutEnd(s, p, pos, ofs);
      assert prog == was[s := was[s] + (g + [fin])] && IsTemplate(list, g + [fin], start, args);
    }

    /** The start of a template: where it begins is stored first. */
    method PutBegin(start: nat, s: nat) returns (pos: int, ofs: int)
      requires Valid() && StartOk(list, start) && s == cur && s < |secs| == |prog| && secs[s].pos + 1 <= SecPos(s + 1)
      modifies this`buf, this`prog
      ensures pos == secs[s].pos + 1 && Mid(s, start, pos, ofs) && start < |list|
      ensures var i := Item(Begin(start), start, secs[s].pos, 0, 0);
        prog == Add(old(prog), s, i) && Partial(list, [i], start, []) && After(i) == start
    {
      hide *;
      ValidIs();
      RecordedIs(list, prog, secs, H());
      pos, ofs := secs[s].pos, secs[s].ofs;
      BeginMid(list, prog, secs, H(), s, start);
      StoreIs(H(), pos, start);
      Unfold();
      prog := Add(prog, s, Item(Begin(start), start, pos, 0, 0));
      buf := buf[pos := start];
      pos := pos + 1;
      Unfold();
      MidIs(s, start, pos, ofs);
    }

    /** The end of a template: the section keeps how far it has come, and another one may be chosen. */
    method PutEnd(s: nat, p: nat, pos: int, ofs: int)
      requires Mid(s, p, pos, ofs) && |globals| == |lg| && s == cur < |secs| && |prog| == |secs| && pos <= SecPos(s + 1)
      requires list[p].Stop? || (list[p].Section? && list[p].n < |secs|)
      requires forall t :: 0 <= t < |prog| && t != s ==> Complete(list, prog[t])
      modifies this`cur, this`secs, this`prog
      ensures Valid() && |secs| == |old(secs)| && prog == Add(old(prog), s, Item(Finish, p, pos, 0, OpAt(list, p)))
    {
      hide *;
      MidIs(s, p, pos, ofs);
      EndIs(list, p);
      EndMid(list, prog, secs, H(), s, p, pos, ofs);
      MidLists(list, prog, secs, H(), s, p, pos, ofs);
      AddOnly(prog, s, Item(Finish, p, pos, 0, OpAt(list, p)));
      Unfold();
      if list[p].Section? {
        cur := list[p].n;
      }
      prog := Add(prog, s, Item(Finish, p, pos, 0, OpAt(list, p)));
      secs := secs[s := Sec(pos, ofs)];
      Unfold();
      ValidIs();
      RecordedIs(list, prog, secs, H());
    }

    static lemma AddOnly(prog: seq<seq<Item>>, s: nat, i: Item)
      requires s < |prog|
      ensures |Add(prog, s, i)| == |prog| && forall t :: 0 <= t < |prog| && t != s ==> Add(prog, s, i)[t] == prog[t]
    {
    }

    static lemma AcceptedNext(list: seq<Act>, p: nat, args: seq<int>, i: nat, known: set<nat>, nlg: nat, npc: nat,
        nsec: nat)
      requires p < |list| && !list[p].Stop? && !list[p].Section?
      ensures Accepted(list, p, args, i, known, nlg, npc, nsec) <==>
        (Accepts(list[p], ArgAt(list[p], args, i), known, nlg, npc) &&
         Accepted(list, p + 1, args, if TakesArg(list[p]) then i + 1
           else i, KnownAfter(list[p], known), nlg, npc, nsec))
    {
    }

    static lemma AcceptedEnd(list: seq<Act>, p: nat, args: seq<int>, i: nat, known: set<nat>, nlg: nat, npc: nat,
        nsec: nat)
      requires p < |list| && (list[p].Stop? || list[p].Section?)
      ensures Accepted(list, p, args, i, known, nlg, npc, nsec) <==> list[p].Stop? || list[p].n < nsec
    {
    }

    static lemma MidLists(list: seq<Act>, prog: seq<seq<Item>>, secs: seq<Sec>, h: Heap, s: nat, p: nat, pos: int,
        ofs: int)
      requires MidAt(list, prog, secs, h, s, p, pos, ofs)
      ensures ListOk(list) && LinksOk(h) && |prog| == |secs|
    {
    }

    static lemma EndIs(list: seq<Act>, p: nat)
      requires p < |list| && (list[p].Stop? || list[p].Section?)
      ensures Ends(list[p]) && Room(list, p) == 0
    {
    }

    static lemma AfterIs(list: seq<Act>, p: nat, pos: int, arg: int, g: seq<Item>)
      requires p < |list|
      ensures var h := g + [ItemFor(list, p, pos, arg)]; After(h[|h| - 1]) == p + 1
    {
    }

    static lemma AddTwice(was: seq<seq<Item>>, s: nat, g: seq<Item>, i: Item)
      requires s < |was|
      ensures Add(was[s := was[s] + g], s, i) == was[s := was[s] + (g + [i])]
      ensures was[s := was[s] + []] == was && [] + [i] == [i]
    {
      assert (was[s] + g) + [i] == was[s] + (g + [i]);
      assert was[s] + [] == was[s];
    }

    static lemma PutStep(list: seq<Act>, p: nat, args: seq<int>, i: nat)
      requires p < |list| && !list[p].Stop? && !list[p].Section? && ArgsFit(list, p, args, i) && i <= |args|
      ensures !Ends(list[p]) && Room(list, p) == 2 + Room(list, p + 1)
      ensures TakesArg(list[p]) ==>
        i < |args| && (list[p].Space? ==> args[i] >= 0) && args[..i] + [args[i]] == args[..i + 1]
      ensures ArgsFit(list, p + 1, args, if TakesArg(list[p]) then i + 1 else i)
      ensures args[..i] + [] == args[..i] && args[..i] <= args
    {
    }

    method PutAction(s: nat, p: nat, pos: int, ofs: int, args: seq<int>, i: nat)
        returns (ok: bool, pos': int, ofs': int, i': nat)
      requires Mid(s, p, pos, ofs) && p < |list| && !Ends(list[p]) && pos + 2 <= SecPos(s + 1) && status == Ok
      requires TakesArg(list[p]) ==> i < |args| && (list[p].Space? ==> args[i] >= 0)
      modifies this`buf, this`lg, this`pc, this`labels, this`refs, this`chains, this`clock, this`prog, this`status
      ensures |lg| == |old(lg)| && |pc| == |old(pc)| && (ok <==> status == Ok)
      ensures ok <==> Accepts(list[p], ArgAt(list[p], args, i), Known(old(lg)), |lg|, |pc|)
      ensures ok ==> Known(lg) == KnownAfter(list[p], Known(old(lg)))
      ensures ok ==> i' == (if TakesArg(list[p]) then i + 1 else i) && pos' <= pos + 2 && Mid(s, p + 1, pos', ofs')
      ensures ok ==> s < |old(prog)| && prog == Add(old(prog), s, ItemFor(list, p, pos, ArgAt(list[p], args, i)))
    {
      hide *;
      MidIs(s, p, pos, ofs);
      ImmFacts(list, p, pos, ArgAt(list[p], args, i));
      ArgIs(list[p], args, i);
      PlainAccepts(list[p], ArgAt(list[p], args, i), Known(lg), |lg|, |pc|);
      i' := i;
      ok := true;
      match list[p] {
        case Byte(_) =>
          pos', ofs' := PutWord(s, p, pos, ofs, 0, 0, 1);
        case Esc(_) =>
          pos', ofs' := PutWord(s, p, pos, ofs, 0, 0, 1);
        case Align(mask) =>
          AlignOk(list, prog, secs, H(), s, p, pos, ofs);
          pos', ofs' := PutWord(s, p, pos, ofs, 0, ofs + mask, mask);
        case LabelLG(n) =>
          ok, pos' := PutLabelChecked(s, p, pos, ofs, 0, LG(n), RangeLG);
          ofs' := ofs;
        case LabelPC =>
          ok, pos' := PutLabelChecked(s, p, pos, ofs, args[i], PC(args[i]), RangePC);
          ofs' := ofs;
          i' := i + 1;
        case RelLG(n) => ok, pos', ofs' := PutLocal(s, p, pos, ofs, n);
        case ImmLG(n) => ok, pos', ofs' := PutLocal(s, p, pos, ofs, n);
        case RelPC =>
          ok, pos', ofs' := PutNumbered(s, p, pos, ofs, args[i]);
          i' := i + 1;
        case ImmPC =>
          ok, pos', ofs' := PutNumbered(s, p, pos, ofs, args[i]);
          i' := i + 1;
        case Section(_) =>
        case Stop =>
        case _ =>
          ok, pos', ofs' := PutImm(s, p, pos, ofs, args[i]);
          i' := i + 1;
      }
    }

    static lemma ArgIs(a: Act, args: seq<int>, i: nat)
      ensures TakesArg(a) && i < |args| ==> ArgAt(a, args, i) == args[i]
      ensures !TakesArg(a) ==> ArgAt(a, args, i) == 0
    {
    }

    /** Actions without labels, and without an argument that has a range. */
    static lemma PlainAccepts(a: Act, arg: int, known: set<nat>, nlg: nat, npc: nat)
      ensures a.Byte? || a.Esc? || a.Align? ==> Accepts(a, arg, known, nlg, npc)
      ensures !a.LabelLG? && !a.RelLG? && !a.ImmLG? ==> KnownAfter(a, known) == known
    {
    }

    static lemma ImmFacts(list: seq<Act>, p: nat, pos: int, arg: int)
      requires p < |list|
      ensures var i := ItemFor(list, p, pos, arg);
        (list[p].Byte? || list[p].Esc? ==>
          !IsLabel(i) && !IsRef(i) && !IsAlign(i) && ArgOk(i) && MaxSize(i) == 1 && Literal(list[p])) &&
        (list[p].Align? ==>
          !IsLabel(i) && !IsRef(i) && IsAlign(i) && MaxSize(i) == list[p].mask && !Literal(list[p])) &&
        (list[p].LabelLG? ==> IsLabel(i) && SlotOf(i) == LG(list[p].n)) &&
          (list[p].LabelPC? ==> IsLabel(i) && SlotOf(i) == PC(arg))
      ensures !TakesArg(list[p]) <==>
        Literal(list[p]) || list[p].Align? || list[p].LabelLG? || list[p].RelLG? || list[p].ImmLG? || Ends(list[p])
      ensures Ends(list[p]) <==> list[p].Section? || list[p].Stop?
      ensures Literal(list[p]) <==> list[p].Byte? || list[p].Esc?
    {
    }

    static lemma AlignOk(list: seq<Act>, prog: seq<seq<Item>>, secs: seq<Sec>, h: Heap, s: nat, p: nat, pos: int,
        ofs: int)
      requires MidAt(list, prog, secs, h, s, p, pos, ofs) && list[p].Align?
      ensures ArgOk(ItemFor(list, p, pos, 0))
    {
      assert ActOk(list, p);
    }

    /** An action with an argument that is checked and stored; its size may depend on it. */
    method PutImm(s: nat, p: nat, pos: int, ofs: int, n: int) returns (ok: bool, pos': int, ofs': int)
      requires Mid(s, p, pos, ofs) && p < |list| && !Ends(list[p]) && pos + 2 <= SecPos(s + 1) && status == Ok
      requires list[p].ImmS? || list[p].ImmB? || list[p].ImmW? || list[p].ImmD? || list[p].ImmWB? || list[p].ImmDB? ||
        list[p].RelA? || (list[p].Space? && n >= 0)
      modifies this`buf, this`prog, this`status
      ensures (ok <==> status == Ok) && (ok <==> Accepts(list[p], n, Known(lg), |lg|, |pc|))
      ensures ok ==>
        pos' <= pos + 2 && Mid(s, p + 1, pos', ofs') && s < |old(prog)| &&
        prog == Add(old(prog), s, ItemFor(list, p, pos, n))
    {
      hide *;
      MidIs(s, p, pos, ofs);
      ImmSizes(list, p, pos, n);
      ImmAccepts(list[p], n, Known(lg), |lg|, |pc|);
      ok := true;
      pos', ofs' := pos, ofs;
      var size: int := 4;
      match list[p] {
        case ImmS =>
          if !FitsByte(n) {
            status, ok := RangeImm, false;
            return;
          }
          size := 1;
        case ImmB =>
          if !(0 <= n < 256) {
            status, ok := RangeImm, false;
            return;
          }
          size := 1;
        case ImmWB =>
          size := if FitsByte(n) then 1 else 2;
          if !FitsByte(n) && !(0 <= n < 65536) {
            status, ok := RangeImm, false;
            return;
          }
        case ImmW =>
          if !(0 <= n < 65536) {
            status, ok := RangeImm, false;
            return;
          }
          size := 2;
        case ImmDB => size := if FitsByte(n) then 1 else 4;
        case Space(_) => size := n;
        case _ =>
      }
      pos', ofs' := PutWord(s, p, pos, ofs, n, n, size);
    }

    method PutLabelChecked(s: nat, p: nat, pos: int, ofs: int, arg: int, slot: Slot, e: Status)
        returns (ok: bool, pos': int)
      requires Mid(s, p, pos, ofs) && p < |list| && !Ends(list[p]) && pos + 2 <= SecPos(s + 1) && status == Ok &&
        e != Ok
      requires var i := ItemFor(list, p, pos, arg); IsLabel(i) && SlotOf(i) == slot
      modifies this`buf, this`lg, this`pc, this`labels, this`chains, this`clock, this`prog, this`status
      ensures |lg| == |old(lg)| && |pc| == |old(pc)| && (ok <==> status == Ok)
      ensures ok <==> Accepts(list[p], arg, Known(old(lg)), |lg|, |pc|)
      ensures ok ==> Known(lg) == KnownAfter(list[p], Known(old(lg)))
      ensures ok ==>
        pos' <= pos + 2 && Mid(s, p + 1, pos', ofs) && s < |old(prog)| &&
        prog == Add(old(prog), s, ItemFor(list, p, pos, arg))
    {
      hide *;
      MidIs(s, p, pos, ofs);
      pos' := pos;
      LabelAccepts(list, p, pos, arg, H(), slot);
      Unfold();
      ok := InRange(slot);
      if ok {
        pos' := PutLabelItem(s, p, pos, ofs, arg, slot);
      } else {
        status := e;
      }
    }

    static lemma LabelAccepts(list: seq<Act>, p: nat, pos: int, arg: int, h: Heap, slot: Slot)
      requires p < |list| && IsLabel(ItemFor(list, p, pos, arg)) && SlotOf(ItemFor(list, p, pos, arg)) == slot
      ensures Accepts(list[p], arg, Known(h.lg), |h.lg|, |h.pc|) <==> HasSlot(h, slot)
    {
    }

    method PutLocal(s: nat, p: nat, pos: int, ofs: int, n: byte) returns (ok: bool, pos': int, ofs': int)
      requires Mid(s, p, pos, ofs) && p < |list| && !Ends(list[p]) && pos + 2 <= SecPos(s + 1) && status == Ok
      requires list[p] == RelLG(n) || list[p] == ImmLG(n)
      modifies this`buf, this`lg, this`pc, this`refs, this`chains, this`clock, this`prog, this`status
      ensures |lg| == |old(lg)| && |pc| == |old(pc)| && (ok <==> status == Ok)
      ensures ok <==> Accepts(list[p], 0, Known(old(lg)), |lg|, |pc|)
      ensures ok ==> Known(lg) == KnownAfter(list[p], Known(old(lg)))
      ensures ok ==>
        pos' <= pos + 2 && Mid(s, p + 1, pos', ofs') && s < |old(prog)| &&
        prog == Add(old(prog), s, ItemFor(list, p, pos, 0))
    {
      hide *;
      MidIs(s, p, pos, ofs);
      LocalFacts(list, p, pos, n, H());
      MidLists(list, prog, secs, H(), s, p, pos, ofs);
      Unfold();
      TenLabels(H());
      LocalAccepts(list[p], n, lg, |pc|);
      pos', ofs' := pos, ofs;
      ok := true;
      if n <= 246 {
        if !(n >= 10 || lg[n] < 0) || n >= |lg| {
          status, ok := RangeLG, false;
          return;
        }
        pos', ofs' := PutRefItem(s, p, pos, ofs, 0, LG(n), if n < 10 then Back else Either);
      } else {
        pos', ofs' := PutRefItem(s, p, pos, ofs, 0, LG(n - 246), Ahead);
      }
    }

    static lemma LocalAccepts(a: Act, n: byte, lg: seq<int>, npc: nat)
      requires (a == RelLG(n) || a == ImmLG(n)) && |lg| >= 10
      ensures Accepts(a, 0, Known(lg), |lg|, npc) <==> n > 246 || (n < |lg| && (n >= 10 || lg[n] < 0))
    {
    }

    method PutNumbered(s: nat, p: nat, pos: int, ofs: int, n: int) returns (ok: bool, pos': int, ofs': int)
      requires Mid(s, p, pos, ofs) && p < |list| && !Ends(list[p]) && pos + 2 <= SecPos(s + 1) && status == Ok
      requires list[p] == RelPC || list[p] == ImmPC
      modifies this`buf, this`lg, this`pc, this`refs, this`chains, this`clock, this`prog, this`status
      ensures |lg| == |old(lg)| && |pc| == |old(pc)| && (ok <==> status == Ok)
      ensures ok <==> Accepts(list[p], n, Known(old(lg)), |lg|, |pc|)
      ensures ok ==> Known(lg) == KnownAfter(list[p], Known(old(lg)))
      ensures ok ==>
        pos' <= pos + 2 && Mid(s, p + 1, pos', ofs') && s < |old(prog)| &&
        prog == Add(old(prog), s, ItemFor(list, p, pos, n))
    {
      hide *;
      MidIs(s, p, pos, ofs);
      NumberedFacts(list, p, pos, n);
      NumberedAccepts(list[p], n, H());
      Unfold();
      pos', ofs' := pos, ofs;
      ok := InRange(PC(n));
      if ok {
        pos', ofs' := PutRefItem(s, p, pos, ofs, n, PC(n), Either);
      } else {
        status := RangePC;
      }
    }

    static lemma NumberedAccepts(a: Act, n: int, h: Heap)
      requires a == RelPC || a == ImmPC
      ensures Accepts(a, n, Known(h.lg), |h.lg|, |h.pc|) <==> HasSlot(h, PC(n))
    {
    }

    method InRange(slot: Slot) returns (ok: bool)
      ensures ok <==> HasSlot(H(), slot)
    {
      match slot {
        case LG(i) => ok := 0 <= i < |lg|;
        case PC(i) => ok := 0 <= i < |pc|;
      }
    }

    static lemma ImmAccepts(a: Act, n: int, known: set<nat>, nlg: nat, npc: nat)
      ensures a.ImmS? ==> (Accepts(a, n, known, nlg, npc) <==> FitsByte(n))
      ensures a.ImmB? ==> (Accepts(a, n, known, nlg, npc) <==> 0 <= n < 256)
      ensures a.ImmW? ==> (Accepts(a, n, known, nlg, npc) <==> 0 <= n < 65536)
      ensures a.ImmWB? ==> (Accepts(a, n, known, nlg, npc) <==> FitsByte(n) || 0 <= n < 65536)
      ensures a.ImmD? || a.ImmDB? || a.RelA? || a.Space? ==> Accepts(a, n, known, nlg, npc)
    {
    }

    static lemma ImmSizes(list: seq<Act>, p: nat, pos: int, n: int)
      requires p < |list|
      requires list[p].ImmS? || list[p].ImmB? || list[p].ImmW? || list[p].ImmD? || list[p].ImmWB? || list[p].ImmDB? ||
        list[p].RelA? || (list[p].Space? && n >= 0)
      ensures var i := ItemFor(list, p, pos, n); !IsLabel(i) && !IsRef(i) && !IsAlign(i) && !Literal(list[p])
      ensures var i := ItemFor(list, p, pos, n);
        (list[p].ImmS? ==> (ArgOk(i) <==> FitsByte(n)) && MaxSize(i) == 1) &&
        (list[p].ImmB? ==> (ArgOk(i) <==> 0 <= n < 256) && MaxSize(i) == 1) &&
        (list[p].ImmW? ==> (ArgOk(i) <==> 0 <= n < 65536) && MaxSize(i) == 2) &&
        (list[p].ImmWB? ==>
          (ArgOk(i) <==> FitsByte(n) || 0 <= n < 65536) && MaxSize(i) == if FitsByte(n) then 1 else 2) &&
        (list[p].ImmDB? ==> ArgOk(i) && MaxSize(i) == if FitsByte(n) then 1 else 4) &&
        (list[p].ImmD? || list[p].RelA? ==> ArgOk(i) && MaxSize(i) == 4) &&
          (list[p].Space? ==> ArgOk(i) && MaxSize(i) == n)
    {
    }

    static lemma LocalFacts(list: seq<Act>, p: nat, pos: int, n: byte, h: Heap)
      requires p < |list| && (list[p] == RelLG(n) || list[p] == ImmLG(n))
      ensures var i := ItemFor(list, p, pos, 0);
        IsRef(i) && SlotOf(i) == LG(if n <= 246 then n else n - 246) &&
        DirOf(i) == if n > 246 then Ahead else if n < 10 then Back else Either
      ensures n < |h.lg| ==> HasSlot(h, LG(n)) && Val(h, LG(n)) == h.lg[n]
      ensures n > 246 && |h.lg| >= 10 ==> HasSlot(h, LG(n - 246)) && UseOk(Use(LG(n - 246), 0, Ahead))
      ensures n <= 246 ==> UseOk(Use(LG(n), 0, if n < 10 then Back else Either))
    {
    }

    static lemma NumberedFacts(list: seq<Act>, p: nat, pos: int, n: int)
      requires p < |list| && (list[p] == RelPC || list[p] == ImmPC)
      ensures var i := ItemFor(list, p, pos, n);
        IsRef(i) && SlotOf(i) == PC(n) && DirOf(i) == Either && UseOk(Use(PC(n), 0, Either))
    {
    }

    // ---- Between the steps -----------------------------------------------------------

    /** dasm_checkstep: no local label is left undefined, and local labels are forgotten. */
    method CheckStep(secmatch: int) returns (st: Status)
      requires status == Ok ==> Valid()
      modifies this`lg, this`status
      ensures st == status && (old(status) != Ok ==> status == old(status))
      ensures old(status) == Ok && NoneAwaited(old(lg), 9) ==>
        status == if 0 <= secmatch != cur then MatchSec(cur) else Ok
      ensures old(status) == Ok && !NoneAwaited(old(lg), 9) ==>
        status.UndefLocal? && 1 <= status.l <= 9 && status.l < |old(lg)| && old(lg)[status.l] > 0 &&
          NoneAwaited(old(lg), status.l - 1)
      ensures status == Ok ==> Valid() && NoneAwaited(lg, 9)
    {
      hide *;
      if status == Ok {
        ghost var lg0 := lg;
        ForgottenNone(lg);
        var i: nat := 1;
        while i <= 9
          invariant 1 <= i <= 10 && NoneAwaited(lg0, i - 1) && Forgotten(lg0, lg, i - 1) && Valid() && status == Ok
          invariant cur == old(cur) && |lg| == |lg0|
        {
          ValidIs();
          ForgetRecorded(list, prog, secs, H(), i);
          Unfold();
          ForgottenNext(lg0, lg, i);
          if lg[i] > 0 {
            status := UndefLocal(i);
            Awaited(lg0, i);
            return status;
          }
          ForgetIs(H(), i);
          lg := lg[i := 0];
          Unfold();
          ValidIs();
          i := i + 1;
        }
        ForgottenAll(lg0, lg);
        ValidIs();
        Unfold();
      }
      if status == Ok && secmatch >= 0 && cur != secmatch {
        status := MatchSec(cur);
      }
      st := status;
    }

    // ---- Pass 2 ----------------------------------------------------------------------

    /** Pass 2 is at item k of section s. */
    ghost predicate Fixing(s: nat, k: nat, pos: int, ofs: int)
      reads this
    {
      FixAt(list, prog, secs, was, marked, buf, d, s, k, pos, ofs)
    }

    lemma FixingIs(s: nat, k: nat, pos: int, ofs: int)
      ensures Fixing(s, k, pos, ofs) == FixAt(list, prog, secs, was, marked, buf, d, s, k, pos, ofs)
      ensures Fixing(s, k, pos, ofs) ==>
        Laid(list, prog, secs, was, marked) && s < |prog| == |secs| && k <= |prog[s]| && d != []
    {
    }

    /** Globals that are not defined here: their chains are collapsed to markers. */
    method MarkGlobals()
      requires LinksOk(H())
      modifies this`buf
      ensures Marked(old(H()), buf, |lg|)
    {
      hide *;
      ghost var h := H();
      Unfold();
      MarkedStart(h);
      TenLabels(h);
      var idx: int := 10;
      while idx < |lg|
        invariant 10 <= idx <= |lg| && Marked(h, buf, idx)
      {
        MarkedNext(h, buf, idx);
        HeadOf(h, LG(idx));
        ghost var before := buf;
        ghost var rest := Chain(h, LG(idx));
        var n := lg[idx];
        while n > 0
          invariant Linked(buf, rest) && (if rest == [] then n <= 0 else n == rest[0] > 0)
          invariant Collapse(buf, rest, -idx) == Collapse(before, Chain(h, LG(idx)), -idx)
          decreases |rest|
        {
          var pb := n;
          CollapseStep(buf, rest, -idx);
          n := buf[pb];
          buf := buf[pb := -idx];
          rest := rest[1..];
        }
        CollapseNone(buf, -idx);
        idx := idx + 1;
      }
    }

    static lemma MarkedStart(h: Heap)
      ensures Marked(h, h.buf, 10)
    {
    }

    static lemma CollapseNone(buf: map<int, int>, v: int)
      ensures Collapse(buf, [], v) == buf
    {
    }

    static lemma HeadOf(h: Heap, s: Slot)
      requires LinksOk(h) && HasSlot(h, s)
      ensures if Chain(h, s) == [] then Val(h, s) <= 0 else Val(h, s) == Chain(h, s)[0] > 0
      ensures s.LG? ==> Val(h, s) == h.lg[s.i]
    {
      assert SlotOk(h, s);
    }

    static lemma PositionsPerSection()
      ensures SECTION_POSITIONS == 0x0100_0000
    {
    }

    /** Cumulative section offsets. */
    method AddSections(ofs: int, s: nat, t: nat) returns (ofs': int)
      requires s <= t <= |secs|
      ensures ofs' == ofs + SectionSum(secs, s, t)
    {
      hide *;
      SumStep(secs, s, s);
      ofs' := ofs;
      var i: nat := s;
      while i < t
        invariant s <= i <= t && ofs' == ofs + SectionSum(secs, s, i)
      {
        SumStep(secs, s, i + 1);
        ofs' := ofs' + secs[i].ofs;
        i := i + 1;
      }
    }

    /** rel_pc in pass 2: a branch shrinks if the estimate for the label ahead, or the offset of the label behind, is
        near enough. */
    method LinkBranch(s: nat, ghost k: nat, p: nat, pos: int, ofs: int) returns (pos': int, ofs': int)
      requires Fixing(s, k, pos, ofs) && k < |prog[s]| && IsRel(prog[s][k]) && p < |list| &&
        prog[s][k].op == OpAt(list, p)
      modifies this`buf, this`d
      ensures Fixing(s, k + 1, pos', ofs')
    {
      hide *;
      FixingIs(s, k, pos, ofs);
      Target(list, prog, secs, was, marked, buf, d, s, k, pos, ofs);
      PositionsPerSection();
      var shrink: nat := Shrinkable(OpAt(list, p));
      var lofs: int := 0;
      if shrink > 0 {
        var lpos := buf[pos];
        if lpos < 0 {
          shrink := 0;
        } else {
          lofs := buf[lpos];
          if lpos > pos {
            lofs := AddSections(lofs, s, lpos / 0x0100_0000);
          } else {
            lofs := lofs - ofs;
          }
          lofs := lofs - buf[pos + 1];
          if !(lofs >= -128 - shrink && lofs <= 127) {
            shrink := 0;
          }
        }
      }
      ShortensIs(s, k, pos, ofs, lofs, shrink > 0);
      FixBranch(list, prog, secs, was, marked, buf, d, s, k, pos, ofs, lofs, shrink > 0);
      buf := buf[pos + 1 := shrink];
      d := d + [d[|d| - 1] - shrink];
      pos', ofs' := pos + 2, ofs - shrink;
      FixingIs(s, k + 1, pos', ofs');
    }

    lemma ShortensIs(s: nat, k: nat, pos: int, ofs: int, lofs: int, short: bool)
      requires FixAt(list, prog, secs, was, marked, buf, d, s, k, pos, ofs) && k < |prog[s]| && IsRel(prog[s][k])
      requires pos in buf && pos + 1 in buf
      requires Shrinkable(prog[s][k].op) > 0 && buf[pos] >= 0 ==> DistanceIs(All(prog), buf, d, Base(prog, s) + k, lofs)
      requires short <==>
        Shrinkable(prog[s][k].op) > 0 && buf[pos] >= 0 && -128 - Shrinkable(prog[s][k].op) <= lofs <= 127
      ensures Shortens(All(prog), buf, d, Base(prog, s) + k, lofs, short)
    {
      hide *;
      FixParts(list, prog, secs, was, marked, buf, d, s, k, pos, ofs);
      Words(list, prog, secs, was, marked, buf, d, s, k, pos, ofs);
      ShortensSame(All(prog), buf, d, Base(prog, s) + k, lofs, short);
    }

    static lemma ShortensSame(g: seq<Item>, buf: map<int, int>, d: seq<int>, n: nat, lofs: int, short: bool)
      requires n < |g| && g[n].pos in buf && g[n].pos + 1 in buf
      requires Shrinkable(g[n].op) > 0 && buf[g[n].pos] >= 0 ==> DistanceIs(g, buf, d, n, lofs)
      requires short <==> Shrinkable(g[n].op) > 0 && buf[g[n].pos] >= 0 && -128 - Shrinkable(g[n].op) <= lofs <= 127
      ensures Shortens(g, buf, d, n, lofs, short)
    {
    }

    /** An action of a template in pass 2. */
    method LinkAction(s: nat, ghost k: nat, p: nat, pos: int, ofs: int) returns (pos': int, ofs': int)
      requires Fixing(s, k, pos, ofs) && k < |prog[s]| && Decodes(list, prog[s][k], p) && !Ends(list[p])
      modifies this`buf, this`d
      ensures Fixing(s, k + 1, pos', ofs')
    {
      hide *;
      FixingIs(s, k, pos, ofs);
      ActionIs(list, prog[s][k], p);
      pos', ofs' := pos, ofs;
      match list[p] {
        case RelLG(_) => pos', ofs' := LinkBranch(s, k, p, pos, ofs);
        case RelPC => pos', ofs' := LinkBranch(s, k, p, pos, ofs);
        case LabelLG(_) => pos' := LinkLabel(s, k, pos, ofs);
        case LabelPC => pos' := LinkLabel(s, k, pos, ofs);
        case Align(mask) =>
          FixPlain(list, prog, secs, was, marked, buf, d, s, k, pos, ofs);
          var less := (buf[pos] + ofs) % (mask + 1);
          d := d + [d[|d| - 1] - less];
          pos', ofs' := pos + 1, ofs - less;
          FixingIs(s, k + 1, pos', ofs');
        case Byte(_) =>
          FixPlain(list, prog, secs, was, marked, buf, d, s, k, pos, ofs);
          d := d + [d[|d| - 1]];
          FixingIs(s, k + 1, pos', ofs');
        case Esc(_) =>
          FixPlain(list, prog, secs, was, marked, buf, d, s, k, pos, ofs);
          d := d + [d[|d| - 1]];
          FixingIs(s, k + 1, pos', ofs');
        case Section(_) =>
        case Stop =>
        case _ =>
          FixPlain(list, prog, secs, was, marked, buf, d, s, k, pos, ofs);
          d := d + [d[|d| - 1]];
          pos' := pos + 1;
          FixingIs(s, k + 1, pos', ofs');
      }
    }

    static lemma ActionIs(list: seq<Act>, i: Item, p: nat)
      requires Decodes(list, i, p) && !Ends(list[p])
      ensures p < |list| && i.op == OpAt(list, p) && i.what == Do(list[p]) && i.p == p && !list[p].Section? &&
        !list[p].Stop?
      ensures IsRel(i) <==> list[p].RelLG? || list[p].RelPC?
      ensures IsLabel(i) <==> list[p].LabelLG? || list[p].LabelPC?
      ensures IsAlign(i) <==> list[p].Align?
      ensures Slots(i) == if list[p].Byte? || list[p].Esc? then 0 else if list[p].RelLG? || list[p].RelPC? then 2 else 1
      ensures forall x {:trigger Excess(i, x)} :: list[p].Align? ==> Excess(i, x) == x % (list[p].mask + 1)
    {
    }

    /** Fix the offset of a label. */
    method LinkLabel(s: nat, ghost k: nat, pos: int, ofs: int) returns (pos': int)
      requires Fixing(s, k, pos, ofs) && k < |prog[s]| && IsLabel(prog[s][k])
      modifies this`buf, this`d
      ensures Fixing(s, k + 1, pos', ofs)
    {
      hide *;
      FixingIs(s, k, pos, ofs);
      FixLabel(list, prog, secs, was, marked, buf, d, s, k, pos, ofs);
      buf := buf[pos := buf[pos] + ofs];
      d := d + [d[|d| - 1]];
      pos' := pos + 1;
      FixingIs(s, k + 1, pos', ofs);
    }

    /** One template in pass 2. */
    method LinkTemplate(s: nat, ghost k: nat, pos: int, ofs: int) returns (ghost k': nat, pos': int, ofs': int)
      requires Fixing(s, k, pos, ofs) && k < |prog[s]| && prog[s][k].what.Begin?
      modifies this`buf, this`d
      ensures Fixing(s, k', pos', ofs') && k < k' <= |prog[s]| && (k' < |prog[s]| ==> prog[s][k'].what.Begin?)
    {
      hide *;
      FixingIs(s, k, pos, ofs);
      BeginIs(list, prog, secs, was, marked, buf, d, s, k, pos, ofs);
      Walk(list, prog, secs, was, marked, s, k);
      FixPlain(list, prog, secs, was, marked, buf, d, s, k, pos, ofs);
      var p: nat := buf[pos];
      d := d + [d[|d| - 1]];
      k', pos', ofs' := k + 1, pos + 1, ofs;
      FixingIs(s, k', pos', ofs');
      DecodesIs(list, prog[s][k'], p);
      while !list[p].Section? && !list[p].Stop?
        invariant Fixing(s, k', pos', ofs') && k < k' < |prog[s]| && Decodes(list, prog[s][k'], p) && p < |list|
        decreases |list| - p
      {
        FixingIs(s, k', pos', ofs');
        DecodesIs(list, prog[s][k'], p);
        Walk(list, prog, secs, was, marked, s, k');
        pos', ofs' := LinkAction(s, k', p, pos', ofs');
        p, k' := p + 1, k' + 1;
        DecodesIs(list, prog[s][k'], p);
      }
      FixingIs(s, k', pos', ofs');
      DecodesIs(list, prog[s][k'], p);
      Walk(list, prog, secs, was, marked, s, k');
      FixPlain(list, prog, secs, was, marked, buf, d, s, k', pos', ofs');
      d := d + [d[|d| - 1]];
      k' := k' + 1;
      FixingIs(s, k', pos', ofs');
    }

    static lemma DecodesIs(list: seq<Act>, i: Item, p: nat)
      requires Decodes(list, i, p)
      ensures p < |list| && i.p == p && (Ends(list[p]) <==> list[p].Section? || list[p].Stop?)
      ensures if Ends(list[p]) then i.what.Finish? && Slots(i) == 0 && !IsRel(i) && !IsLabel(i) && !IsAlign(i)
        else !i.what.Finish? && After(i) == p + 1
    {
    }

    static lemma BeginIs(list: seq<Act>, prog: seq<seq<Item>>, secs: seq<Sec>, h: Heap, buf0: map<int, int>,
                         buf: map<int, int>, d: seq<int>, s: nat, k: nat, pos: int, ofs: int)
      requires FixAt(list, prog, secs, h, buf0, buf, d, s, k, pos, ofs) && k < |prog[s]| && prog[s][k].what.Begin?
      ensures pos in buf && After(prog[s][k]) == buf[pos] && Slots(prog[s][k]) == 1 && !prog[s][k].what.Finish?
      ensures !IsRel(prog[s][k]) && !IsLabel(prog[s][k]) && !IsAlign(prog[s][k])
    {
      Words(list, prog, secs, h, buf0, buf, d, s, k, pos, ofs);
    }

    /** A section in pass 2. */
    method LinkSection(s: nat, ofs: int) returns (ofs': int)
      requires Laid(list, prog, secs, was, marked) && s < |prog| && Passed(s, ofs)
      modifies this`buf, this`d
      ensures Laid(list, prog, secs, was, marked) && Passed(s + 1, ofs')
    {
      hide *;
      PassedIs(s, ofs);
      StartSection(list, prog, secs, was, marked, buf, d, s, ofs);
      LaidParts(list, prog, secs, was, marked);
      var pos, lastpos := SecPos(s), secs[s].pos;
      ghost var k: nat := 0;
      ofs' := ofs;
      FixingIs(s, k, pos, ofs');
      WalkEnd(list, prog, secs, was, marked, s, k);
      FixingPos(s, k, pos, ofs');
      while pos != lastpos
        invariant Fixing(s, k, pos, ofs') && k <= |prog[s]| && (k < |prog[s]| ==> prog[s][k].what.Begin?)
        invariant pos == lastpos <==> k == |prog[s]|
        decreases |prog[s]| - k
      {
        k, pos, ofs' := LinkTemplate(s, k, pos, ofs');
        FixingIs(s, k, pos, ofs');
        WalkEnd(list, prog, secs, was, marked, s, k);
        FixingPos(s, k, pos, ofs');
      }
      FixingIs(s, k, pos, ofs');
      NextSection(list, prog, secs, was, marked, buf, d, s, pos, ofs');
      ofs' := ofs' + secs[s].ofs;
      PassedIs(s + 1, ofs');
    }

    lemma FixingPos(s: nat, k: nat, pos: int, ofs: int)
      requires Fixing(s, k, pos, ofs)
      ensures s < |prog| && k <= |prog[s]| && pos == SecPos(s) + Used(prog[s], k)
    {
    }

    /** Sections before s are linked, and the next one starts at ofs. */
    ghost predicate Passed(s: nat, ofs: int)
      reads this
    {
      s <= |prog| && Base(prog, s) <= |All(prog)| && |d| == Base(prog, s) + 1 &&
        Going(All(prog), marked, buf, d, Base(prog, s)) &&
      ofs == Est(All(prog), Base(prog, s)) + d[|d| - 1]
    }

    lemma PassedIs(s: nat, ofs: int)
      ensures Passed(s, ofs) == (s <= |prog| && Base(prog, s) <= |All(prog)| && |d| == Base(prog, s) + 1 &&
        Going(All(prog), marked, buf, d, Base(prog, s)) && ofs == Est(All(prog), Base(prog, s)) + d[|d| - 1])
    {
    }

    /** Pass 2 is done. */
    ghost predicate LinkDone()
      reads this
    {
      Laid(list, prog, secs, was, marked) && Going(All(prog), marked, buf, d, |All(prog)|) && |d| == |All(prog)| + 1 &&
      codesize == Final(All(prog), d, |All(prog)|) && |globals| == |was.lg|
    }

    /** The first numbered label that is missing, or how many there are. */
    method FirstMissing() returns (n: nat)
      ensures n <= |pc| && (forall i :: 0 <= i < n ==> pc[i] <= 0) && (n < |pc| ==> pc[n] > 0)
    {
      n := 0;
      while n < |pc| && pc[n] <= 0
        invariant n <= |pc| && forall i :: 0 <= i < n ==> pc[i] <= 0
      {
        n := n + 1;
      }
    }

    /** Pass 2, dasm_link: link sections, shrink branches and alignments, fix label offsets. */
    method Link() returns (st: Status, size: int)
      requires status == Ok ==> Valid() && NoneAwaited(lg, 9)
      modifies this`buf, this`d, this`was, this`marked, this`codesize
      ensures old(status) != Ok ==> st == old(status) && size == 0
      ensures old(status) == Ok && (forall i :: 0 <= i < |pc| ==> pc[i] <= 0) ==> st == Ok
      ensures old(status) == Ok && !(forall i :: 0 <= i < |pc| ==> pc[i] <= 0) ==>
        st.UndefPC? && st.n < |pc| && pc[st.n] > 0 && (forall i :: 0 <= i < st.n ==> pc[i] <= 0) && size == 0
      ensures st == Ok ==> LinkDone() && size == codesize && was == old(H())
    {
      hide *;
      if status != Ok {
        return status, 0;
      }
      var pc0 := FirstMissing();
      if pc0 < |pc| {
        return UndefPC(pc0), 0;
      }
      LinkStart();
      var s: nat, ofs: int := 0, 0;
      while s < |secs|
        invariant s <= |secs| == |prog| && Laid(list, prog, secs, was, marked) && Passed(s, ofs) && was == old(H())
      {
        ofs := LinkSection(s, ofs);
        s := s + 1;
      }
      PassedIs(s, ofs);
      codesize := ofs;
      BaseAll(prog, d);
      DoneIs();
      st, size := Ok, ofs;
    }

    /** All chains end in labels: unused globals are marked, and pass 2 stands before the first section. */
    method LinkStart()
      requires Valid() && NoneAwaited(lg, 9) && forall i :: 0 <= i < |pc| ==> pc[i] <= 0
      modifies this`buf, this`d, this`was, this`marked
      ensures Laid(list, prog, secs, was, marked) && Passed(0, 0) && was == old(H()) && |secs| == |prog|
      ensures |globals| == |was.lg|
    {
      hide *;
      ValidIs();
      RecordedIs(list, prog, secs, H());
      Unfold();
      was := H();
      Unfold();
      FoundIs(was);
      MarkGlobals();
      Unfold();
      marked := buf;
      MarkedReady(was, marked);
      LaidIs(list, prog, secs, was, marked);
      StartAll(list, prog, secs, was, marked);
      d := [0];
      PassedIs(0, 0);
      BaseZero(prog);
    }

    static lemma FoundIs(h: Heap)
      requires LinksOk(h) && NoneAwaited(h.lg, 9) && forall i :: 0 <= i < |h.pc| ==> h.pc[i] <= 0
      ensures AllFound(h)
    {
      ZeroNotAwaited(h);
    }

    static lemma LaidIs(list: seq<Act>, prog: seq<seq<Item>>, secs: seq<Sec>, h: Heap, buf: map<int, int>)
      requires ListOk(list) && SectionsOk(list, prog, secs, h) && LinksOk(h) && Ready(h, buf) && |prog| == |secs|
      requires forall s {:trigger prog[s]} :: 0 <= s < |prog| ==> Complete(list, prog[s])
      ensures Laid(list, prog, secs, h, buf)
    {
    }

    static lemma BaseAll(prog: seq<seq<Item>>, d: seq<int>)
      ensures Base(prog, |prog|) == |All(prog)|
      ensures |d| == |All(prog)| + 1 ==> Final(All(prog), d, |All(prog)|) == Est(All(prog), |All(prog)|) + d[|d| - 1]
    {
    }

    lemma DoneIs()
      ensures LinkDone() == (Laid(list, prog, secs, was, marked) && Going(All(prog), marked, buf, d, |All(prog)|) &&
        |d| == |All(prog)| + 1 &&
        codesize == Final(All(prog), d, |All(prog)|) && |globals| == |was.lg|)
    {
    }

    // ---- Pass 3 ----------------------------------------------------------------------

    /** Pass 3 is at item k of section s, and the code so far is this. */
    ghost predicate Coding(u: Unit, s: nat, k: nat, pos: int, code: seq<byte>)
      reads this
    {
      u.buf == buf && CodeAt(list, prog, secs, was, marked, u, s, k, pos, code, globals) && |u.g| < |u.d| &&
        codesize == Offset(u, |u.g|)
    }

    lemma CodingIs(u: Unit, s: nat, k: nat, pos: int, code: seq<byte>)
      ensures Coding(u, s, k, pos, code) == (u.buf == buf &&
        CodeAt(list, prog, secs, was, marked, u, s, k, pos, code, globals) &&
        |u.g| < |u.d| && codesize == Offset(u, |u.g|))
      ensures Coding(u, s, k, pos, code) ==> s < |prog| && k <= |prog[s]| && Laid(list, prog, secs, was, marked)
    {
    }

    static method PutByte(buffer: array<byte>, cp: nat, x: byte) returns (cp': nat)
      requires cp < buffer.Length
      modifies buffer
      ensures cp' == cp + 1 && buffer[..cp'] == old(buffer[..cp]) + [x]
    {
      buffer[cp] := x;
      cp' := cp + 1;
    }

    /** dasmw */
    static method PutTwo(buffer: array<byte>, cp: nat, x: int) returns (cp': nat)
      requires cp + 2 <= buffer.Length
      modifies buffer
      ensures cp' == cp + 2 && buffer[..cp'] == old(buffer[..cp]) + LE2(x)
    {
      cp' := PutByte(buffer, cp, x % 256);
      cp' := PutByte(buffer, cp', (x / 256) % 256);
    }

    /** dasmd */
    static method PutFour(buffer: array<byte>, cp: nat, x: int) returns (cp': nat)
      requires cp + 4 <= buffer.Length
      modifies buffer
      ensures cp' == cp + 4 && buffer[..cp'] == old(buffer[..cp]) + LE4(x)
    {
      cp' := PutTwo(buffer, cp, x);
      cp' := PutTwo(buffer, cp', x / 65536);
    }

    static lemma OneMore(b: byte, n: nat, code: seq<byte>)
      ensures code + Fill(b, n) + [b] == code + Fill(b, n + 1) && |Fill(b, n)| == n
      ensures code + Fill(b, 0) == code
    {
      assert Fill(b, n) + [b] == Fill(b, n + 1);
      assert code + Fill(b, n) + [b] == code + (Fill(b, n) + [b]);
      assert Fill(b, 0) == [];
    }

    static method PutFill(buffer: array<byte>, cp: nat, b: byte, n: nat) returns (cp': nat)
      requires cp + n <= buffer.Length
      modifies buffer
      ensures cp' == cp + n && buffer[..cp'] == old(buffer[..cp]) + Fill(b, n)
    {
      hide *;
      ghost var code := buffer[..cp];
      OneMore(b, 0, code);
      cp' := cp;
      var i: nat := 0;
      while i < n
        invariant i <= n && cp' == cp + i && buffer[..cp'] == code + Fill(b, i)
      {
        OneMore(b, i, code);
        cp' := PutByte(buffer, cp', b);
        i := i + 1;
      }
    }

    /** Padding up to the alignment. */
    static method PutPadding(buffer: array<byte>, cp: nat, mask: byte, ghost u: Unit, ghost n: nat) returns (cp': nat)
      requires UnitOk(u) && n < |u.g| && IsAlign(u.g[n]) && n + 1 < |u.d| && u.g[n].what.act.mask == mask
      requires Offset(u, n) == cp && Offset(u, n) <= Offset(u, n + 1) <= buffer.Length
      modifies buffer
      ensures cp' == Offset(u, n + 1) &&
        buffer[..cp'] == old(buffer[..cp]) + Fill(0x90, Offset(u, n + 1) - Offset(u, n))
    {
      hide *;
      ghost var code := buffer[..cp];
      OneMore(0x90, 0, code);
      cp' := cp;
      PaddingEnds(u, n, cp');
      while cp' % (mask + 1) != 0
        invariant cp <= cp' <= Offset(u, n + 1) && buffer[..cp'] == code + Fill(0x90, cp' - cp)
        invariant cp' % (mask + 1) == 0 <==> cp' == Offset(u, n + 1)
        decreases Offset(u, n + 1) - cp'
      {
        OneMore(0x90, cp' - cp, code);
        cp' := PutByte(buffer, cp', 0x90);
        PaddingEnds(u, n, cp');
      }
    }

    lemma StepPlain(u: Unit, s: nat, k: nat, pos: int, code: seq<byte>, bytes: seq<byte>)
      requires Coding(u, s, k, pos, code) && k < |prog[s]| && !IsGlobalLabel(prog[s][k]) &&
        PlainIs(u, Base(prog, s) + k, bytes)
      ensures Coding(u, s, k + 1, pos + Slots(prog[s][k]), code + bytes) && |code + bytes| <= codesize
    {
      hide *;
      CodingIs(u, s, k, pos, code);
      CodePlain(list, prog, secs, was, marked, u, s, k, pos, code, globals, bytes);
      CodingIs(u, s, k + 1, pos + Slots(prog[s][k]), code + bytes);
    }

    /** An action with an argument of its own. */
    method EncodeArg(buffer: array<byte>, base: int, ghost u: Unit, ghost s: nat, ghost k: nat, p: nat, pos: int,
        cp: nat) returns (cp': nat)
      requires cp <= buffer.Length && Coding(u, s, k, pos, buffer[..cp]) && k < |prog[s]| &&
        Decodes(list, prog[s][k], p) && p < |list| && !Ends(list[p])
      requires u.base == base && codesize <= buffer.Length && IsArgAct(list[p])
      modifies buffer
      ensures cp' <= buffer.Length && Coding(u, s, k + 1, pos + 1, buffer[..cp'])
    {
      hide *;
      ghost var code := buffer[..cp];
      CodingIs(u, s, k, pos, code);
      ghost var n: nat := Base(prog, s) + k;
      ActionIs(list, prog[s][k], p);
      CodeFacts(list, prog, secs, was, marked, u, s, k, pos, code, globals);
      ItemHereIs(u, n, prog[s][k], pos, code, globals);
      KindOf(prog[s][k]);
      BytesOf(u, n);
      ArgActIs(list[p]);
      var x := buf[pos];
      var a := list[p];
      if a.ImmS? || a.ImmB? {
        cp' := PutByte(buffer, cp, x % 256);
      } else if a.ImmW? {
        cp' := PutTwo(buffer, cp, x);
      } else if a.ImmD? {
        cp' := PutFour(buffer, cp, x);
      } else if a.RelA? {
        cp' := PutFour(buffer, cp, x - (base + cp + 4));
      } else if a.Space? {
        cp' := PutFill(buffer, cp, a.fill, x);
      } else if -128 <= x <= 127 {
        cp' := EncodeNarrow(buffer, u, s, k, pos, cp);
        return;
      } else if a.ImmWB? {
        cp' := PutTwo(buffer, cp, x);
      } else {
        cp' := PutFour(buffer, cp, x);
      }
      PlainHere(u, n);
      StepPlain(u, s, k, pos, code, PlainBytes(u, n));
    }

    static lemma ArgActIs(a: Act)
      ensures IsArgAct(a) <==> a.ImmS? || a.ImmB? || a.ImmW? || a.ImmD? || a.ImmWB? || a.ImmDB? || a.Space? || a.RelA?
      ensures IsArgAct(a) ==> !a.LabelLG? && !a.RelLG? && !a.RelPC?
      ensures forall x: int {:trigger LE1(x)} :: LE1(x) == [x % 256]
      ensures forall x: int {:trigger LE2(x)} :: |LE2(x)| == 2
      ensures forall x: int {:trigger LE4(x)} :: |LE4(x)| == 4
      ensures forall x: int {:trigger FitsByte(x)} :: FitsByte(x) <==> -128 <= x <= 127
      ensures forall b, n: nat {:trigger Fill(b, n)} :: |Fill(b, n)| == n
    {
    }

    /** db: the size bit pair of the opcode two bytes back is changed. */
    method EncodeNarrow(buffer: array<byte>, ghost u: Unit, ghost s: nat, ghost k: nat, pos: int, cp: nat)
        returns (cp': nat)
      requires cp <= buffer.Length && Coding(u, s, k, pos, buffer[..cp]) && k < |prog[s]| && IsNarrow(prog[s][k]) &&
        pos in buf && buf[pos] == prog[s][k].arg
      requires codesize <= buffer.Length
      modifies buffer
      ensures cp' <= buffer.Length && Coding(u, s, k + 1, pos + 1, buffer[..cp'])
    {
      hide *;
      ghost var code := buffer[..cp];
      CodingIs(u, s, k, pos, code);
      CodeNarrow(list, prog, secs, was, marked, u, s, k, pos, code, globals);
      buffer[cp - 2] := NarrowOp(buffer[cp - 2]);
      assert buffer[..cp] == code[|code| - 2 := NarrowOp(code[|code| - 2])];
      cp' := PutByte(buffer, cp, buf[pos] % 256);
      CodingIs(u, s, k + 1, pos + 1, buffer[..cp']);
    }

    /** A branch: to a global from outside, in the long form to a label, or in the short form. */
    method EncodeBranch(buffer: array<byte>, base: int, ghost u: Unit, ghost s: nat, ghost k: nat, pos: int, cp: nat)
        returns (cp': nat)
      requires cp <= buffer.Length && Coding(u, s, k, pos, buffer[..cp]) && k < |prog[s]| && IsRel(prog[s][k])
      requires u.base == base && codesize <= buffer.Length
      modifies buffer
      ensures cp' <= buffer.Length && Coding(u, s, k + 1, pos + 2, buffer[..cp'])
    {
      hide *;
      ghost var code := buffer[..cp];
      CodingIs(u, s, k, pos, code);
      ghost var n: nat := Base(prog, s) + k;
      RelRef(prog[s][k]);
      RefFacts(u, s, k, pos, code);
      RefHereIs(u, n, prog[s][k], pos, code, globals);
      var w := buf[pos];
      if w < 0 {
        var x := globals[-w];
        cp' := PutFour(buffer, cp, x - (base + cp + 4));
        PlainHere(u, n);
        StepPlain(u, s, k, pos, code, PlainBytes(u, n));
        return;
      }
      var shrink := buf[pos + 1];
      var x := buf[w] - (cp + 4 - shrink);
      if shrink == 0 {
        cp' := PutFour(buffer, cp, x);
        PlainHere(u, n);
        StepPlain(u, s, k, pos, code, PlainBytes(u, n));
        return;
      }
      ghost var code' := CodeShort(list, prog, secs, was, marked, u, s, k, pos, code, globals);
      ShortIs(u, n, code, code');
      LengthIs(u, code');
      cp' := cp;
      if shrink == 4 {
        cp' := cp' - 1;
        buffer[cp' - 1] := Minus16(buffer[cp']);
      } else {
        buffer[cp' - 1] := 0xeb;
      }
      Minus16Is(u.g[n].op);
      assert buffer[..cp'] == code[..|code| - (shrink - 2)] + [ShortOp(u.g[n].op)];
      cp' := PutByte(buffer, cp', x % 256);
      assert buffer[..cp'] == code';
      CodingIs(u, s, k + 1, pos + 2, buffer[..cp']);
    }

    static function Minus16(b: byte): byte
    {
      var n: int := b;
      (n - 0x10) % 256
    }

    static lemma Minus16Is(b: byte)
      ensures b >= 0x10 ==> Minus16(b) == b - 0x10
    {
    }

    static lemma ShortIs(u: Unit, n: nat, code: seq<byte>, code': seq<byte>)
      requires ShortTo(u, n, code, code')
      ensures n < |u.g| && n + 1 < |u.d| && Referable(u, n) && IsRef(u.g[n]) && u.g[n].pos + 1 in u.buf
      ensures var m := u.buf[u.g[n].pos + 1];
        (m == 3 || m == 4) && |code| >= m - 2 && code[|code| - 1] == u.g[n].op && |code| + 4 - m == Offset(u, n + 1) &&
        (m == 3 ==> ShortOp(u.g[n].op) == 0xeb) &&
          (m == 4 ==> u.g[n].op >= 0x10 && ShortOp(u.g[n].op) == u.g[n].op - 0x10) &&
        code' == code[..|code| - (m - 2)] + [ShortOp(u.g[n].op), Displacement(u, n) % 256]
    {
      hide Offset, Displacement, Referable;
    }

    /** What pass 3 looks at for a reference. */
    lemma RefFacts(u: Unit, s: nat, k: nat, pos: int, code: seq<byte>)
      requires Coding(u, s, k, pos, code) && k < |prog[s]| && IsRef(prog[s][k])
      ensures RefHere(u, Base(prog, s) + k, prog[s][k], pos, code, globals)
    {
      hide *;
      CodingIs(u, s, k, pos, code);
      var n := Base(prog, s) + k;
      CodeParts(list, prog, secs, was, marked, u, s, k, pos, code, globals);
      CodeFacts(list, prog, secs, was, marked, u, s, k, pos, code, globals);
      ItemHereIs(u, n, prog[s][k], pos, code, globals);
      KindOf(prog[s][k]);
      RefDoes(prog[s][k]);
      BytesOf(u, n);
      AddressOf(u, n);
      DisplacementIs(u, n);
      if u.buf[pos] < 0 { ExternKept(list, prog, secs, was, marked, u, s, k, n); }
      LE4Size(if IsRel(prog[s][k]) then Displacement(u, n) else Address(u, n));
      RefIsHere(u, n, prog[s][k], pos, code, globals);
    }

    static lemma RefDoes(i: Item)
      ensures IsRef(i) ==> i.what.Do? && !i.what.act.LabelLG? && !i.what.act.Space?
    {
    }

    static lemma LE4Size(x: int)
      ensures |LE4(x)| == 4
    {
    }

    /** An absolute reference. */
    method EncodeAbsolute(buffer: array<byte>, base: int, ghost u: Unit, ghost s: nat, ghost k: nat, pos: int, cp: nat)
        returns (cp': nat)
      requires cp <= buffer.Length && Coding(u, s, k, pos, buffer[..cp]) && k < |prog[s]| && IsRef(prog[s][k]) &&
        !IsRel(prog[s][k])
      requires u.base == base && codesize <= buffer.Length
      modifies buffer
      ensures cp' <= buffer.Length && Coding(u, s, k + 1, pos + 1, buffer[..cp'])
    {
      hide *;
      ghost var code := buffer[..cp];
      CodingIs(u, s, k, pos, code);
      ghost var n: nat := Base(prog, s) + k;
      RelRef(prog[s][k]);
      RefFacts(u, s, k, pos, code);
      RefHereIs(u, n, prog[s][k], pos, code, globals);
      var w := buf[pos];
      if w < 0 {
        cp' := PutFour(buffer, cp, globals[-w]);
      } else {
        cp' := PutFour(buffer, cp, buf[w] + base);
      }
      PlainHere(u, n);
      StepPlain(u, s, k, pos, code, PlainBytes(u, n));
    }

    /** An action of a template in pass 3. */
    method EncodeAction(buffer: array<byte>, base: int, ghost u: Unit, ghost s: nat, ghost k: nat, p: nat, pos: int,
        cp: nat)
        returns (pos': int, cp': nat)
      requires cp <= buffer.Length && Coding(u, s, k, pos, buffer[..cp]) && k < |prog[s]| &&
        Decodes(list, prog[s][k], p) && p < |list| && !Ends(list[p])
      requires u.base == base && codesize <= buffer.Length
      modifies buffer, this`globals
      ensures cp' <= buffer.Length && Coding(u, s, k + 1, pos', buffer[..cp'])
    {
      hide *;
      ghost var code := buffer[..cp];
      CodingIs(u, s, k, pos, code);
      ghost var n: nat := Base(prog, s) + k;
      ActionIs(list, prog[s][k], p);
      CodeFacts(list, prog, secs, was, marked, u, s, k, pos, code, globals);
      ItemHereIs(u, n, prog[s][k], pos, code, globals);
      KindOf(prog[s][k]);
      BytesOf(u, n);
      ArgActIs(list[p]);
      var a := list[p];
      pos', cp' := pos + 1, cp;
      if a.Byte? || a.Esc? {
        cp' := PutByte(buffer, cp, a.b);
        pos' := pos;
        PlainHere(u, n);
        StepPlain(u, s, k, pos, code, PlainBytes(u, n));
      } else if a.RelLG? || a.RelPC? {
        cp' := EncodeBranch(buffer, base, u, s, k, pos, cp);
        pos' := pos + 2;
      } else if a.ImmLG? || a.ImmPC? {
        cp' := EncodeAbsolute(buffer, base, u, s, k, pos, cp);
      } else if a.LabelLG? && a.n >= 10 {
        CodeGlobal(list, prog, secs, was, marked, u, s, k, pos, code, globals);
        globals := globals[a.n := base + buf[pos]];
        CodingIs(u, s, k + 1, pos', buffer[..cp']);
      } else if a.LabelLG? || a.LabelPC? {
        PlainHere(u, n);
        StepPlain(u, s, k, pos, code, PlainBytes(u, n));
        assert code + [] == code;
      } else if a.Align? {
        cp' := PutPadding(buffer, cp, a.mask, u, n);
        PlainHere(u, n);
        StepPlain(u, s, k, pos, code, PlainBytes(u, n));
      } else {
        cp' := EncodeArg(buffer, base, u, s, k, p, pos, cp);
      }
    }

    /** One template in pass 3. */
    method EncodeTemplate(buffer: array<byte>, base: int, ghost u: Unit, ghost s: nat, ghost k: nat, pos: int, cp: nat)
        returns (ghost k': nat, pos': int, cp': nat)
      requires cp <= buffer.Length && Coding(u, s, k, pos, buffer[..cp]) && k < |prog[s]| && prog[s][k].what.Begin?
      requires u.base == base && codesize <= buffer.Length
      modifies buffer, this`globals
      ensures cp' <= buffer.Length && Coding(u, s, k', pos', buffer[..cp'])
      ensures k < k' <= |prog[s]| && (k' < |prog[s]| ==> prog[s][k'].what.Begin?)
    {
      hide *;
      CodingIs(u, s, k, pos, buffer[..cp]);
      CodeFacts(list, prog, secs, was, marked, u, s, k, pos, buffer[..cp], globals);
      ItemHereIs(u, Base(prog, s) + k, prog[s][k], pos, buffer[..cp], globals);
      AfterBegin(prog[s][k]);
      Walk(list, prog, secs, was, marked, s, k);
      var p: nat := buf[pos];
      StepNothing(u, s, k, pos, buffer[..cp]);
      k', pos', cp' := k + 1, pos + 1, cp;
      CodingIs(u, s, k', pos', buffer[..cp']);
      DecodesIs(list, prog[s][k'], p);
      while !list[p].Section? && !list[p].Stop?
        invariant cp' <= buffer.Length && Coding(u, s, k', pos', buffer[..cp']) && k < k' < |prog[s]| &&
          Decodes(list, prog[s][k'], p) && p < |list|
        decreases |list| - p
      {
        CodingIs(u, s, k', pos', buffer[..cp']);
        DecodesIs(list, prog[s][k'], p);
        Walk(list, prog, secs, was, marked, s, k');
        pos', cp' := EncodeAction(buffer, base, u, s, k', p, pos', cp');
        p, k' := p + 1, k' + 1;
        DecodesIs(list, prog[s][k'], p);
      }
      CodingIs(u, s, k', pos', buffer[..cp']);
      DecodesIs(list, prog[s][k'], p);
      Walk(list, prog, secs, was, marked, s, k');
      StepNothing(u, s, k', pos', buffer[..cp']);
      k' := k' + 1;
      CodingIs(u, s, k', pos', buffer[..cp']);
    }

    static lemma AfterBegin(i: Item)
      ensures i.what.Begin? ==> After(i) == i.what.start && !i.what.Finish?
    {
    }

    lemma StepNothing(u: Unit, s: nat, k: nat, pos: int, code: seq<byte>)
      requires Coding(u, s, k, pos, code) && k < |prog[s]| && !prog[s][k].what.Do?
      ensures Coding(u, s, k + 1, pos + (if prog[s][k].what.Begin? then 1 else 0), code)
    {
      hide *;
      CodingIs(u, s, k, pos, code);
      var n := Base(prog, s) + k;
      CodeFacts(list, prog, secs, was, marked, u, s, k, pos, code, globals);
      ItemHereIs(u, n, prog[s][k], pos, code, globals);
      KindOf(prog[s][k]);
      NoBytesOf(u, n);
      PlainHere(u, n);
      StepPlain(u, s, k, pos, code, PlainBytes(u, n));
      assert code + [] == code;
    }

    /** The unit that pass 3 encodes. */
    ghost function UnitFor(base: int, ext: seq<int>): Unit
      reads this
    {
      Unit(All(prog), buf, d, base, ext)
    }

    /** Sections before s are encoded. */
    ghost predicate Encoded(u: Unit, s: nat, code: seq<byte>)
      reads this
    {
      s <= |prog| && Finished(list, prog, secs, was, marked, u) && UnitOk(u) && u.buf == buf && |u.g| < |u.d| &&
        codesize == Offset(u, |u.g|) &&
      Base(prog, s) <= |u.g| && EncodedTo(u, code, Base(prog, s)) && globals == GlobalsAfter(u, Base(prog, s))
    }

    lemma EncodedIs(u: Unit, s: nat, code: seq<byte>)
      ensures Encoded(u, s, code) == (s <= |prog| && Finished(list, prog, secs, was, marked, u) && UnitOk(u) &&
        u.buf == buf && |u.g| < |u.d| &&
        codesize == Offset(u, |u.g|) && Base(prog, s) <= |u.g| && EncodedTo(u, code, Base(prog, s)) &&
          globals == GlobalsAfter(u, Base(prog, s)))
    {
    }

    /** A section in pass 3. */
    method EncodeSection(buffer: array<byte>, base: int, ghost u: Unit, s: nat, cp: nat) returns (cp': nat)
      requires cp <= buffer.Length && Encoded(u, s, buffer[..cp]) && s < |prog| && s < |secs| && u.base == base &&
        codesize <= buffer.Length
      modifies buffer, this`globals
      ensures cp' <= buffer.Length && Encoded(u, s + 1, buffer[..cp'])
    {
      hide *;
      EncodedIs(u, s, buffer[..cp]);
      FinishedParts(list, prog, secs, was, marked, u);
      CodeStart(list, prog, secs, was, marked, u, s, buffer[..cp], globals);
      var pos, endb := SecPos(s), secs[s].pos;
      ghost var k: nat := 0;
      cp' := cp;
      CodingIs(u, s, k, pos, buffer[..cp']);
      WalkEnd(list, prog, secs, was, marked, s, k);
      CodeParts(list, prog, secs, was, marked, u, s, k, pos, buffer[..cp'], globals);
      while pos != endb
        invariant cp' <= buffer.Length && Coding(u, s, k, pos, buffer[..cp']) && k <= |prog[s]| &&
          (k < |prog[s]| ==> prog[s][k].what.Begin?)
        invariant pos == endb <==> k == |prog[s]|
        decreases |prog[s]| - k
      {
        k, pos, cp' := EncodeTemplate(buffer, base, u, s, k, pos, cp');
        CodingIs(u, s, k, pos, buffer[..cp']);
        CodeParts(list, prog, secs, was, marked, u, s, k, pos, buffer[..cp'], globals);
        WalkEnd(list, prog, secs, was, marked, s, k);
      }
      CodingIs(u, s, k, pos, buffer[..cp']);
      CodeParts(list, prog, secs, was, marked, u, s, k, pos, buffer[..cp'], globals);
      SectionSize(list, prog, secs, was, s);
      EncodedIs(u, s + 1, buffer[..cp']);
    }

    /**
     Pass 3, dasm_encode: writes exactly the codesize bytes that pass 2 has announced, never more than there is room
     for,
     and the check for phase errors cannot fail.
     */
    method Encode(buffer: array<byte>, base: int) returns (st: Status)
      requires LinkDone() && codesize <= buffer.Length
      modifies buffer, this`globals
      ensures st == Ok && 0 <= codesize
      ensures var u := UnitFor(base, old(globals));
        UnitOk(u) && OneLabel(u.g) && EncodedTo(u, buffer[..codesize], |u.g|) && |u.g| <= |u.d| &&
          globals == GlobalsAfter(u, |u.g|) && GlobalAddresses(u, globals)
    {
      hide *;
      DoneIs();
      ghost var u := Unit(All(prog), buf, d, base, globals);
      UnitForIs(base, globals);
      FinishedIs(list, prog, secs, was, marked, u);
      UnitIsOk(list, prog, secs, was, marked, u);
      CodeZero(u);
      BaseZero(prog);
      FinishedParts(list, prog, secs, was, marked, u);
      OffsetEnd(u, prog, d);
      var s: nat, cp: nat := 0, 0;
      assert buffer[..0] == [];
      EncodedIs(u, 0, buffer[..cp]);
      while s < |secs|
        invariant s <= |secs| == |prog| && cp <= buffer.Length && Encoded(u, s, buffer[..cp])
      {
        cp := EncodeSection(buffer, base, u, s, cp);
        s := s + 1;
      }
      EncodedIs(u, s, buffer[..cp]);
      BaseAll(prog, d);
      EncodedParts(u, buffer[..cp], |u.g|);
      UnitForIs(base, old(globals));
      AllGlobals(u);
      if cp != codesize {
        return Phase;
      }
      return Ok;
    }

    lemma UnitForIs(base: int, ext: seq<int>)
      ensures UnitFor(base, ext) == Unit(All(prog), buf, d, base, ext)
    {
    }

    static lemma OffsetEnd(u: Unit, prog: seq<seq<Item>>, d: seq<int>)
      requires u.g == All(prog) && u.d == d && |u.d| == |u.g| + 1
      ensures Offset(u, |u.g|) == Final(All(prog), d, |All(prog)|)
    {
    }

    static lemma FinishedIs(list: seq<Act>, prog: seq<seq<Item>>, secs: seq<Sec>, h: Heap, buf0: map<int, int>, u: Unit)
      requires Laid(list, prog, secs, h, buf0) && u.g == All(prog) && Going(u.g, buf0, u.buf, u.d, |u.g|) &&
        |u.ext| == |h.lg|
      ensures Finished(list, prog, secs, h, buf0, u)
    {
    }

    /** dasm_getpclabel: the final offset of a label, -1 if it is missing, -2 if it is unknown. */
    method GetPcLabel(n: nat) returns (r: int)
      requires LinkDone() && pc == was.pc
      ensures n >= |pc| || pc[n] == 0 ==> r == -2
      ensures n < |pc| && pc[n] > 0 ==> r == -1
      ensures n < |pc| && pc[n] < 0 ==>
        exists l :: LabelAt(All(prog), l, -pc[n]) && 0 <= l < |d| && r == Final(All(prog), d, l) >= 0
    {
      if n < |pc| {
        var pos := pc[n];
        if pos < 0 {
          PcLabel(n);
          return buf[-pos];
        }
        if pos > 0 {
          return -1;
        }
      }
      return -2;
    }

    lemma PcLabel(n: nat)
      requires LinkDone() && pc == was.pc && n < |pc| && pc[n] < 0
      ensures -pc[n] in buf && exists l ::
        LabelAt(All(prog), l, -pc[n]) && 0 <= l < |d| && buf[-pc[n]] == Final(All(prog), d, l) >= 0
    {
      hide *;
      DoneIs();
      LaidParts(list, prog, secs, was, marked);
      DefinedSlot(was, PC(n));
      var t, j := LabelIndex(list, prog, secs, was, -pc[n]);
      var u := Unit(All(prog), buf, d, 0, was.lg);
      FinishedIs(list, prog, secs, was, marked, u);
      FinalWords(list, prog, secs, was, marked, u, t, j);
      AllArgsOk(list, prog, secs, was);
      FinishedParts(list, prog, secs, was, marked, u);
      OffsetNotNegative(u, Base(prog, t) + j);
      OffsetIs(u, Base(prog, t) + j);
    }

    static lemma OffsetIs(u: Unit, k: nat)
      requires k <= |u.g| && k < |u.d|
      ensures Offset(u, k) == Final(u.g, u.d, k)
    {
    }

    static lemma DefinedSlot(h: Heap, s: Slot)
      requires LinksOk(h) && s.PC? && 0 <= s.i < |h.pc| && h.pc[s.i] < 0
      ensures -h.pc[s.i] in h.labels
    {
      assert SlotOk(h, s);
    }

    // ---- The three passes together ------------------------------------------------------

    /**
     After the three passes every branch leads, from its end in the code, to the final offset of the very label that it
     was put to mean; or, for a global that is not defined here, to the address given from outside.
     */
    lemma BranchesReachTheirLabels(base: int, ext: seq<int>, code: seq<byte>, s: nat, k: nat) returns (n: nat, l: nat)
      requires LinkDone() && |ext| == |was.lg| && EncodedTo(UnitFor(base, ext), code, |All(prog)|) && s < |prog| &&
        k < |prog[s]| && IsRel(prog[s][k])
      ensures var u := UnitFor(base, ext); var i := prog[s][k];
        n < |u.g| && n + 1 < |u.d| && u.g[n] == i && i.pos in was.refs && was.refs[i.pos].slot == SlotOf(i) &&
          was.refs[i.pos].dir == DirOf(i) &&
        BranchIsRight(u, code, n, l, was.labels, was.refs[i.pos])
    {
      hide *;
      DoneIs();
      UnitForIs(base, ext);
      var u := UnitFor(base, ext);
      var i := prog[s][k];
      RelRef(i);
      FinishedIs(list, prog, secs, was, marked, u);
      FinishedParts(list, prog, secs, was, marked, u);
      UnitIsOk(list, prog, secs, was, marked, u);
      FinalWords(list, prog, secs, was, marked, u, s, k);
      n, l := Base(prog, s) + k, 0;
      ItemFacts(u, n);
      OffsetsGrow(u, n + 1, |u.g|);
      ResolvedMeans(was, u.buf, i.pos);
      AddressOf(u, n);
      if u.buf[i.pos] < 0 {
        ReferenceReaches(u, code, n);
      } else {
        var t, j := LabelIndex(list, prog, secs, was, u.buf[i.pos]);
        l := Base(prog, t) + j;
        FinalWords(list, prog, secs, was, marked, u, t, j);
        BranchReaches(u, code, n, l);
      }
      EncodedParts(u, code, |u.g|);
      RightIs(u, code, n, l, was.labels, was.refs[i.pos]);
    }

    static lemma ResolvedMeans(h: Heap, buf: map<int, int>, r: int)
      requires Resolved(h, buf, r)
      ensures r in buf && r in h.refs
      ensures buf[r] < 0 ==> h.refs[r].slot == LG(-buf[r]) && Undefined(h.labels, LG(-buf[r]))
      ensures buf[r] >= 0 ==> Right(h.labels, h.refs[r], buf[r]) && buf[r] in h.labels
    {
    }

    static lemma RightIs(u: Unit, code: seq<byte>, n: nat, l: nat, labels: map<int, Def>, use: Use)
      requires n < |u.g| && n + 1 < |u.d| && u.g[n].pos in u.buf && 2 <= Offset(u, n + 1) <= |code|
      requires u.buf[u.g[n].pos] < 0 ==>
        (use.slot == LG(-u.buf[u.g[n].pos]) && Undefined(labels, use.slot) && -u.buf[u.g[n].pos] < |u.ext| &&
        Offset(u, n + 1) >= 4 &&
        (u.base + Offset(u, n + 1) + Read4(code, Offset(u, n + 1) - 4)) % 0x1_0000_0000
          == u.ext[-u.buf[u.g[n].pos]] % 0x1_0000_0000)
      requires u.buf[u.g[n].pos] >= 0 ==>
        (l < |u.g| && l < |u.d| && LabelAt(u.g, l, u.buf[u.g[n].pos]) && Right(labels, use, u.g[l].pos) &&
        (if Shrunk(u, n)
          then Offset(u, n + 1) + Signed8(code[Offset(u, n + 1) - 1]) == Offset(u, l) &&
          code[Offset(u, n + 1) - 2] == ShortOp(u.g[n].op)
         else Offset(u, n + 1) >= 4 &&
              (Offset(u, n + 1) + Read4(code, Offset(u, n + 1) - 4)) % 0x1_0000_0000 == Offset(u, l) % 0x1_0000_0000))
      ensures BranchIsRight(u, code, n, l, labels, use)
    {
      hide Offset, Right, Read4, Signed8, ShortOp, Shrunk;
    }
  }

  /** What the branch at n does in the code: it reaches label l, which is the one meant, or an address from outside. */
  ghost predicate BranchIsRight(u: Unit, code: seq<byte>, n: nat, l: nat, labels: map<int, Def>, use: Use)
  {
    n < |u.g| && n + 1 < |u.d| && u.g[n].pos in u.buf && 2 <= Offset(u, n + 1) <= |code| &&
    var e, w := Offset(u, n + 1), u.buf[u.g[n].pos];
    if w < 0 then
      use.slot == LG(-w) && Undefined(labels, use.slot) && -w < |u.ext| && e >= 4 &&
      (u.base + e + Read4(code, e - 4)) % 0x1_0000_0000 == u.ext[-w] % 0x1_0000_0000
    else
      l < |u.g| && l < |u.d| && IsLabel(u.g[l]) && Right(labels, use, u.g[l].pos) &&
      if Shrunk(u, n) then e + Signed8(code[e - 1]) == Offset(u, l) && code[e - 2] == ShortOp(u.g[n].op)
      else e >= 4 && (e + Read4(code, e - 4)) % 0x1_0000_0000 == Offset(u, l) % 0x1_0000_0000
  }
}
