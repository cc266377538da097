/** The walk of pass 3 over the sections, and why pass 2 leaves all it needs. */
module DynAsmCode {
  import opened DynAsmItems
  import opened DynAsmLink
  import opened DynAsmLabels
  import opened DynAsmSections
  import opened DynAsmFlat
  import opened DynAsmFix
  import opened DynAsmEmit

  /** All that passes 1 and 2 leave to pass 3. */
  ghost predicate Finished(list: seq<Act>, prog: seq<seq<Item>>, secs: seq<Sec>, h: Heap, buf0: map<int, int>, u: Unit)
  {
    Laid(list, prog, secs, h, buf0) && u.g == All(prog) && Going(u.g, buf0, u.buf, u.d, |u.g|) && |u.ext| == |h.lg|
  }

  lemma FinishedParts(list: seq<Act>, prog: seq<seq<Item>>, secs: seq<Sec>, h: Heap, buf0: map<int, int>, u: Unit)
    requires Finished(list, prog, secs, h, buf0, u)
    ensures Laid(list, prog, secs, h, buf0) && u.g == All(prog) && Going(u.g, buf0, u.buf, u.d, |u.g|) &&
      |u.ext| == |h.lg|
    ensures SectionsOk(list, prog, secs, h) && ListOk(list) && |prog| == |secs| && LinkedTo(u.g, u.buf, u.d, |u.g|) &&
      |u.d| == |u.g| + 1
    ensures forall s {:trigger prog[s]} :: 0 <= s < |prog| ==> Complete(list, prog[s])
  {
  }

  /** The words of item k as pass 3 finds them. */
  lemma FinalWords(list: seq<Act>, prog: seq<seq<Item>>, secs: seq<Sec>, h: Heap, buf0: map<int, int>, u: Unit, s: nat,
      k: nat)
    requires Finished(list, prog, secs, h, buf0, u) && s < |prog| && k < |prog[s]|
    ensures var n := Base(prog, s) + k; var i := prog[s][k];
      n < |u.g| && n + 1 < |u.d| && u.g[n] == i && i.pos == SecPos(s) + Used(prog[s], k) && ArgOk(i) &&
      (i.what.Begin? ==> i.pos in u.buf && u.buf[i.pos] == i.what.start) &&
      (IsLabel(i) ==> i.pos in u.buf && i.pos in h.labels && u.buf[i.pos] == Offset(u, n)) &&
      (IsRef(i) ==>
        i.pos in u.buf && Resolved(h, u.buf, i.pos) && h.refs[i.pos].slot == SlotOf(i) &&
        h.refs[i.pos].dir == DirOf(i)) &&
      (IsRel(i) ==> i.pos + 1 in u.buf) &&
      (HasArgWord(i) ==> i.pos in u.buf && u.buf[i.pos] == i.arg)
  {
    hide *;
    FinishedParts(list, prog, secs, h, buf0, u);
    WordsIn(list, prog, secs, h, buf0, s, k);
    KeptAt(u, buf0, Base(prog, s) + k, h);
  }

  lemma KeptAt(u: Unit, buf0: map<int, int>, n: nat, h: Heap)
    requires Going(u.g, buf0, u.buf, u.d, |u.g|) && n < |u.g|
    ensures n + 1 < |u.d|
    ensures var i := u.g[n];
      (i.what.Begin? ==> i.pos in u.buf && i.pos in buf0 && u.buf[i.pos] == buf0[i.pos]) &&
      (IsLabel(i) ==> i.pos in u.buf && u.buf[i.pos] == Offset(u, n)) &&
      (IsRef(i) ==>
        i.pos in u.buf && i.pos in buf0 && u.buf[i.pos] == buf0[i.pos] &&
        (Resolved(h, buf0, i.pos) ==> Resolved(h, u.buf, i.pos))) &&
      (IsRel(i) ==> i.pos + 1 in u.buf) &&
      (HasArgWord(i) ==>
        i.pos in u.buf && i.pos in buf0 && u.buf[i.pos] == buf0[i.pos])
  {
    assert StepOk(u.g, u.buf, u.d, n);
    assert Keeps(u.g[n], buf0, u.buf, true);
  }

  // ---- What pass 2 leaves is fit for pass 3 ---------------------------------------------------

  lemma UnitIsOk(list: seq<Act>, prog: seq<seq<Item>>, secs: seq<Sec>, h: Heap, buf0: map<int, int>, u: Unit)
    requires Finished(list, prog, secs, h, buf0, u)
    ensures UnitOk(u) && OneLabel(u.g)
  {
    hide *;
    FinishedParts(list, prog, secs, h, buf0, u);
    AllArgsOk(list, prog, secs, h);
    AllOrdered(list, prog, secs, h);
    AllOneLabel(u.g);
    AllIs(prog);
    forall n | 0 <= n < |u.g| ensures Referable(u, n) && Led(u.g, n) {
      var s, k := SectionOf(prog, |prog|, n);
      ItemReferable(list, prog, secs, h, buf0, u, s, k);
      ItemLed(list, prog, secs, h, buf0, u, s, k);
    }
    UnitIs(u);
  }

  lemma UnitIs(u: Unit)
    requires LinkedTo(u.g, u.buf, u.d, |u.g|) && ArgsOk(u.g)
    requires forall k {:trigger Referable(u, k)} :: 0 <= k < |u.g| ==> Referable(u, k) && Led(u.g, k)
    ensures UnitOk(u)
  {
  }

  lemma ItemReferable(list: seq<Act>, prog: seq<seq<Item>>, secs: seq<Sec>, h: Heap, buf0: map<int, int>, u: Unit,
      s: nat, k: nat)
    requires Finished(list, prog, secs, h, buf0, u) && s < |prog| && k < |prog[s]|
    ensures Base(prog, s) + k < |u.g| && Referable(u, Base(prog, s) + k)
  {
    hide *;
    FinishedParts(list, prog, secs, h, buf0, u);
    FinalWords(list, prog, secs, h, buf0, u, s, k);
    RelRef(prog[s][k]);
    var n := Base(prog, s) + k;
    var i := prog[s][k];
    if IsRef(i) {
      ResolvedIs(h, u.buf, i.pos);
      if u.buf[i.pos] >= 0 {
        var t, j := LabelIndex(list, prog, secs, h, u.buf[i.pos]);
        FinalWords(list, prog, secs, h, buf0, u, t, j);
        AllArgsOk(list, prog, secs, h);
        OffsetNotNegative(u, Base(prog, t) + j);
      } else {
        MarkIs(h, u.buf, i);
        if IsRel(i) {
          PositionsNotNegative(list, prog, secs, h);
          ExternLong(u, n);
        }
      }
    }
    ReferableIs(u, n);
  }

  lemma MarkIs(h: Heap, buf: map<int, int>, i: Item)
    requires IsRef(i) && Resolved(h, buf, i.pos) && h.refs[i.pos].slot == SlotOf(i) && buf[i.pos] < 0
    ensures -buf[i.pos] < |h.lg| && IsLG(i)
  {
  }

  lemma ExternLong(u: Unit, n: nat)
    requires LinkedTo(u.g, u.buf, u.d, |u.g|) && n < |u.g| && IsRel(u.g[n]) && u.g[n].pos in u.buf &&
      u.buf[u.g[n].pos] < 0
    requires forall j :: 0 <= j < |u.g| ==> u.g[j].pos >= 0
    ensures u.g[n].pos + 1 in u.buf && u.buf[u.g[n].pos + 1] == 0
  {
    assert StepOk(u.g, u.buf, u.d, n);
  }

  lemma OffsetNotNegative(u: Unit, n: nat)
    requires LinkedTo(u.g, u.buf, u.d, |u.g|) && ArgsOk(u.g) && n <= |u.g|
    ensures n < |u.d| && Offset(u, n) >= 0
  {
    Corrections(u.g, u.buf, u.d, |u.g|, 0, n);
    ZeroOffset(u);
  }

  lemma PositionsNotNegative(list: seq<Act>, prog: seq<seq<Item>>, secs: seq<Sec>, h: Heap)
    requires SectionsOk(list, prog, secs, h)
    ensures forall n :: 0 <= n < |All(prog)| ==> All(prog)[n].pos >= 0
  {
    hide *;
    AllIs(prog);
    var g := All(prog);
    forall n | 0 <= n < |g| ensures g[n].pos >= 0 {
      var s, k := SectionOf(prog, |prog|, n);
      AllItems(list, prog, secs, h, s, k);
      GetSection(list, prog, secs, h, s);
      WithinSection(list, prog[s], s, secs[s], h, k);
      SecPosNotNegative(s);
    }
  }

  lemma SecPosNotNegative(s: nat)
    ensures SecPos(s) >= 0
  {
  }

  lemma ReferableIs(u: Unit, k: nat)
    requires k < |u.g|
    requires IsRef(u.g[k]) ==> u.g[k].pos in u.buf
    requires IsRef(u.g[k]) && u.buf[u.g[k].pos] < 0 ==> -u.buf[u.g[k].pos] < |u.ext| && IsLG(u.g[k])
    requires IsRef(u.g[k]) && u.buf[u.g[k].pos] >= 0 ==> u.buf[u.g[k].pos] in u.buf && u.buf[u.buf[u.g[k].pos]] >= 0
    requires IsRel(u.g[k]) ==>
      IsRef(u.g[k]) && u.g[k].pos + 1 in u.buf && (u.buf[u.g[k].pos] < 0 ==> u.buf[u.g[k].pos + 1] == 0)
    ensures Referable(u, k)
  {
  }

  lemma ItemLed(list: seq<Act>, prog: seq<seq<Item>>, secs: seq<Sec>, h: Heap, buf0: map<int, int>, u: Unit, s: nat,
      k: nat)
    requires Finished(list, prog, secs, h, buf0, u) && s < |prog| && k < |prog[s]|
    ensures Base(prog, s) + k < |u.g| && Led(u.g, Base(prog, s) + k)
  {
    hide *;
    FinishedParts(list, prog, secs, h, buf0, u);
    FlatAt(prog, s, k);
    SectionLed(list, prog[s], k);
    if k >= 1 { FlatAt(prog, s, k - 1); }
    if k >= 2 { FlatAt(prog, s, k - 2); }
    LedFlat(prog[s], k, u.g, Base(prog, s) + k);
  }

  lemma LedFlat(p: seq<Item>, k: nat, g: seq<Item>, n: nat)
    requires Led(p, k) && n < |g| && g[n] == p[k] && k <= n
    requires (k >= 1 ==> g[n - 1] == p[k - 1]) && (k >= 2 ==> g[n - 2] == p[k - 2])
    ensures Led(g, n)
  {
  }

  lemma SectionLed(list: seq<Act>, g: seq<Item>, k: nat)
    requires Complete(list, g) && ListOk(list) && k < |g|
    ensures Led(g, k)
  {
    hide *;
    if g[k].what.Do? {
      CompleteIs(list, g);
      DoneAt(list, g, k);
      var p := g[k].p;
      if p >= 1 && Literal(list[p - 1]) {
        LiteralBefore(list, g, k);
        if p >= 2 && Literal(list[p - 2]) { LiteralBefore(list, g, k - 1); }
      }
      LedIs(list, g, k);
    } else {
      NotLed(g, k);
    }
  }

  lemma CompleteIs(list: seq<Act>, g: seq<Item>)
    requires Complete(list, g)
    ensures Decoded(list, g)
  {
  }

  lemma NotLed(g: seq<Item>, k: nat)
    requires k < |g| && !g[k].what.Do?
    ensures Led(g, k)
  {
  }

  lemma LedIs(list: seq<Act>, g: seq<Item>, k: nat)
    requires ListOk(list) && k < |g| && g[k].what.Do? && Decodes(list, g[k], g[k].p)
    requires var p := g[k].p; p >= 1 && Literal(list[p - 1]) ==> k >= 1 && g[k - 1].what == Do(list[p - 1])
    requires var p := g[k].p; p >= 2 && Literal(list[p - 1]) && Literal(list[p - 2]) ==>
      k >= 2 && g[k - 2].what == Do(list[p - 2])
    ensures Led(g, k)
  {
    assert ActOk(list, g[k].p);
  }

  lemma DoneAt(list: seq<Act>, g: seq<Item>, k: nat)
    requires Decoded(list, g) && k < |g| && g[k].what.Do?
    ensures Decodes(list, g[k], g[k].p)
  {
    assert k > 0;
    assert Follows(list, g[k - 1], g[k]);
  }

  // ---- The walk --------------------------------------------------------------------------------

  /** Pass 3 is at item k of section s. */
  ghost predicate CodeAt(list: seq<Act>, prog: seq<seq<Item>>, secs: seq<Sec>, h: Heap, buf0: map<int, int>, u: Unit,
                         s: nat, k: nat, pos: int, code: seq<byte>, globals: seq<int>)
  {
    Finished(list, prog, secs, h, buf0, u) && UnitOk(u) && s < |prog| && k <= |prog[s]| &&
      pos == SecPos(s) + Used(prog[s], k) &&
    EncodedTo(u, code, Base(prog, s) + k) && globals == GlobalsAfter(u, Base(prog, s) + k)
  }

  lemma CodeParts(list: seq<Act>, prog: seq<seq<Item>>, secs: seq<Sec>, h: Heap, buf0: map<int, int>, u: Unit,
                  s: nat, k: nat, pos: int, code: seq<byte>, globals: seq<int>)
    requires CodeAt(list, prog, secs, h, buf0, u, s, k, pos, code, globals)
    ensures Finished(list, prog, secs, h, buf0, u) && UnitOk(u) && s < |prog| && k <= |prog[s]| &&
      pos == SecPos(s) + Used(prog[s], k)
    ensures EncodedTo(u, code, Base(prog, s) + k) && Base(prog, s) + k <= |u.g| && |u.d| == |u.g| + 1
    ensures globals == GlobalsAfter(u, Base(prog, s) + k) && |globals| == |u.ext| == |h.lg|
    ensures |code| == Offset(u, Base(prog, s) + k) <= Offset(u, |u.g|)
    ensures Laid(list, prog, secs, h, buf0) && |prog| == |secs|
  {
    hide UnitOk, GlobalsAfter, Base, Used, Offset, Laid, Going;
    FinishedParts(list, prog, secs, h, buf0, u);
    OffsetsGrow(u, Base(prog, s) + k, |u.g|);
    EncodedParts(u, code, Base(prog, s) + k);
  }

  lemma CodeMore(list: seq<Act>, prog: seq<seq<Item>>, secs: seq<Sec>, h: Heap, buf0: map<int, int>, u: Unit,
                 s: nat, k: nat, pos: int, code: seq<byte>, globals: seq<int>, code': seq<byte>, globals': seq<int>)
    requires CodeAt(list, prog, secs, h, buf0, u, s, k, pos, code, globals) && k < |prog[s]|
    requires Base(prog, s) + k < |u.g| && EncodedTo(u, code', Base(prog, s) + k + 1)
    requires Base(prog, s) + k + 1 < |u.d| && globals' == GlobalsAfter(u, Base(prog, s) + k + 1)
    ensures CodeAt(list, prog, secs, h, buf0, u, s, k + 1, pos + Slots(prog[s][k]), code', globals')
  {
    hide *;
    CodeParts(list, prog, secs, h, buf0, u, s, k, pos, code, globals);
    Walk(list, prog, secs, h, buf0, s, k);
    CodeIs(list, prog, secs, h, buf0, u, s, k + 1, pos + Slots(prog[s][k]), code', globals');
  }

  lemma CodeIs(list: seq<Act>, prog: seq<seq<Item>>, secs: seq<Sec>, h: Heap, buf0: map<int, int>, u: Unit,
               s: nat, k: nat, pos: int, code: seq<byte>, globals: seq<int>)
    requires Finished(list, prog, secs, h, buf0, u) && UnitOk(u) && s < |prog| && k <= |prog[s]| &&
      pos == SecPos(s) + Used(prog[s], k)
    requires Base(prog, s) + k <= |u.g| && Base(prog, s) + k < |u.d|
    requires EncodedTo(u, code, Base(prog, s) + k) && globals == GlobalsAfter(u, Base(prog, s) + k)
    ensures CodeAt(list, prog, secs, h, buf0, u, s, k, pos, code, globals)
  {
  }

  lemma GlobalsNext(u: Unit, n: nat)
    requires n < |u.g| && n + 1 < |u.d|
    ensures GlobalsAfter(u, n + 1) == (
      if IsGlobalLabel(u.g[n]) && u.g[n].what.act.n < |u.ext|
        then GlobalsAfter(u, n)[u.g[n].what.act.n := u.base + Offset(u, n)] else GlobalsAfter(u, n))
  {
  }

  predicate PlainIs(u: Unit, n: nat, bytes: seq<byte>)
  {
    n < |u.g| && !Shrunk(u, n) && !IsNarrow(u.g[n]) && Referable(u, n) && n + 1 < |u.d| && 0 <= Size(u.g, u.d, n) &&
      ArgOk(u.g[n]) &&
    bytes == PlainBytes(u, n)
  }

  lemma PlainParts(u: Unit, n: nat, bytes: seq<byte>)
    requires PlainIs(u, n, bytes)
    ensures n < |u.g| && !Shrunk(u, n) && !IsNarrow(u.g[n]) && Referable(u, n) && n + 1 < |u.d| &&
      0 <= Size(u.g, u.d, n) && ArgOk(u.g[n])
    ensures bytes == PlainBytes(u, n)
  {
  }

  /** An item that patches nothing. */
  lemma CodePlain(list: seq<Act>, prog: seq<seq<Item>>, secs: seq<Sec>, h: Heap, buf0: map<int, int>, u: Unit,
                  s: nat, k: nat, pos: int, code: seq<byte>, globals: seq<int>, bytes: seq<byte>)
    requires CodeAt(list, prog, secs, h, buf0, u, s, k, pos, code, globals) && k < |prog[s]|
    requires PlainIs(u, Base(prog, s) + k, bytes) && !IsGlobalLabel(prog[s][k])
    ensures CodeAt(list, prog, secs, h, buf0, u, s, k + 1, pos + Slots(prog[s][k]), code + bytes, globals)
    ensures |code + bytes| <= Offset(u, |u.g|)
  {
    hide *;
    CodeParts(list, prog, secs, h, buf0, u, s, k, pos, code, globals);
    FinalWords(list, prog, secs, h, buf0, u, s, k);
    var n := Base(prog, s) + k;
    PlainParts(u, n, bytes);
    EmitPlain(u, code, n);
    GlobalsNext(u, n);
    CodeMore(list, prog, secs, h, buf0, u, s, k, pos, code, globals, code + bytes, globals);
    CodeParts(list, prog, secs, h, buf0, u, s, k + 1, pos + Slots(prog[s][k]), code + bytes, globals);
  }

  lemma CodeGlobal(list: seq<Act>, prog: seq<seq<Item>>, secs: seq<Sec>, h: Heap, buf0: map<int, int>, u: Unit,
                   s: nat, k: nat, pos: int, code: seq<byte>, globals: seq<int>)
    requires CodeAt(list, prog, secs, h, buf0, u, s, k, pos, code, globals) && k < |prog[s]| &&
      IsGlobalLabel(prog[s][k])
    ensures pos in u.buf && prog[s][k].what.act.n < |globals|
    ensures CodeAt(list, prog, secs, h, buf0, u, s, k + 1, pos + 1, code,
      globals[prog[s][k].what.act.n := u.base + u.buf[pos]])
  {
    hide *;
    CodeParts(list, prog, secs, h, buf0, u, s, k, pos, code, globals);
    FinalWords(list, prog, secs, h, buf0, u, s, k);
    var n, i := Base(prog, s) + k, prog[s][k];
    GlobalLabel(i);
    SlotsOf(i);
    LabelInRange(list, prog, secs, h, buf0, s, k);
    ItemFacts(u, n);
    NoBytes(u, n);
    EmitPlain(u, code, n);
    assert code + [] == code;
    GlobalsNext(u, n);
    CodeMore(list, prog, secs, h, buf0, u, s, k, pos, code, globals, code,
      globals[i.what.act.n := u.base + u.buf[pos]]);
  }

  lemma GlobalLabel(i: Item)
    ensures IsGlobalLabel(i) ==>
      i.what.Do? && i.what.act.LabelLG? && IsLabel(i) && !IsRel(i) && !IsNarrow(i) && SlotOf(i) == LG(i.what.act.n)
  {
  }

  lemma NoBytes(u: Unit, n: nat)
    requires Referable(u, n) && n + 1 < |u.d| && 0 <= Size(u.g, u.d, n) && IsGlobalLabel(u.g[n])
    ensures PlainBytes(u, n) == [] && !Shrunk(u, n)
  {
  }

  /** Label slots are in range. */
  lemma LabelInRange(list: seq<Act>, prog: seq<seq<Item>>, secs: seq<Sec>, h: Heap, buf0: map<int, int>, s: nat, k: nat)
    requires Laid(list, prog, secs, h, buf0) && s < |prog| && k < |prog[s]| && IsLabel(prog[s][k])
    ensures HasSlot(h, SlotOf(prog[s][k]))
    ensures SlotOf(prog[s][k]).LG? ==> 0 <= SlotOf(prog[s][k]).i < |h.lg|
  {
    hide *;
    LaidParts(list, prog, secs, h, buf0);
    AllItems(list, prog, secs, h, s, k);
    LabelSlot(prog[s], k, h);
    SlotInRange(h, SlotOf(prog[s][k]));
  }

  lemma LabelSlot(g: seq<Item>, k: nat, h: Heap)
    requires k < |g| && ItemIn(g, k, h) && IsLabel(g[k]) && LinksOk(h)
    ensures HasSlot(h, SlotOf(g[k]))
  {
    assert LabelOk(h, g[k].pos);
  }

  lemma SlotInRange(h: Heap, s: Slot)
    requires HasSlot(h, s)
    ensures s.LG? ==> 0 <= s.i < |h.lg|
  {
  }

  predicate LengthOk(u: Unit, code: seq<byte>)
  {
    |u.g| < |u.d| && |code| <= Offset(u, |u.g|)
  }

  lemma LengthIs(u: Unit, code: seq<byte>)
    ensures LengthOk(u, code) == (|u.g| < |u.d| && |code| <= Offset(u, |u.g|))
  {
  }

  /** What there is before a branch that has shrunk. */
  predicate ShortAt(u: Unit, n: nat, code: seq<byte>)
  {
    n < |u.g| && n + 1 < |u.d| && Referable(u, n) && IsRef(u.g[n]) && u.g[n].pos + 1 in u.buf &&
    u.buf[u.g[n].pos + 1] == Shrinkable(u.g[n].op) && |code| >= Shrinkable(u.g[n].op) - 2 >= 1 &&
      code[|code| - 1] == u.g[n].op &&
    (if Shrinkable(u.g[n].op) == 3 then ShortOp(u.g[n].op) == 0xeb
      else Shrinkable(u.g[n].op) == 4 && ShortOp(u.g[n].op) == u.g[n].op - 0x10) &&
    |code| + 4 - Shrinkable(u.g[n].op) == Offset(u, n + 1)
  }

  function ShortCode(u: Unit, n: nat, code: seq<byte>): seq<byte>
    requires ShortAt(u, n, code)
  {
    code[..|code| - (Shrinkable(u.g[n].op) - 2)] + [ShortOp(u.g[n].op), Displacement(u, n) % 256]
  }

  lemma CodeShort(list: seq<Act>, prog: seq<seq<Item>>, secs: seq<Sec>, h: Heap, buf0: map<int, int>, u: Unit,
                  s: nat, k: nat, pos: int, code: seq<byte>, globals: seq<int>) returns (code': seq<byte>)
    requires CodeAt(list, prog, secs, h, buf0, u, s, k, pos, code, globals) && k < |prog[s]|
    requires Base(prog, s) + k < |u.g| && Shrunk(u, Base(prog, s) + k)
    ensures ShortTo(u, Base(prog, s) + k, code, code') && LengthOk(u, code')
    ensures CodeAt(list, prog, secs, h, buf0, u, s, k + 1, pos + 2, code', globals)
  {
    hide *;
    CodeParts(list, prog, secs, h, buf0, u, s, k, pos, code, globals);
    FinalWords(list, prog, secs, h, buf0, u, s, k);
    var n := Base(prog, s) + k;
    ShrunkIs(u, n);
    code' := ShortCoded(u, n, code);
    SlotsOf(prog[s][k]);
    GlobalsNext(u, n);
    CodeMore(list, prog, secs, h, buf0, u, s, k, pos, code, globals, code', globals);
    CodeParts(list, prog, secs, h, buf0, u, s, k + 1, pos + 2, code', globals);
    LengthIs(u, code');
  }

  predicate ShortTo(u: Unit, n: nat, code: seq<byte>, code': seq<byte>)
  {
    ShortAt(u, n, code) && code' == ShortCode(u, n, code)
  }

  lemma ShortCoded(u: Unit, n: nat, code: seq<byte>) returns (code': seq<byte>)
    requires UnitOk(u) && EncodedTo(u, code, n) && n < |u.g| && Shrunk(u, n) && IsRef(u.g[n])
    ensures n + 1 < |u.d| && ShortTo(u, n, code, code') && EncodedTo(u, code', n + 1)
  {
    EmitShort(u, code, n);
    code' := code[..|code| - (Shrinkable(u.g[n].op) - 2)] + [ShortOp(u.g[n].op), Displacement(u, n) % 256];
    hide UnitOk, EncodedTo, Offset, Displacement, ShortOp, Shrinkable;
    assert u.g[n].pos + 1 in u.buf;
  }

  lemma ShrunkIs(u: Unit, n: nat)
    requires n < |u.g| && Shrunk(u, n)
    ensures IsRel(u.g[n]) && IsRef(u.g[n]) && !IsGlobalLabel(u.g[n])
  {
  }

  lemma CodeNarrow(list: seq<Act>, prog: seq<seq<Item>>, secs: seq<Sec>, h: Heap, buf0: map<int, int>, u: Unit,
                   s: nat, k: nat, pos: int, code: seq<byte>, globals: seq<int>)
    requires CodeAt(list, prog, secs, h, buf0, u, s, k, pos, code, globals) && k < |prog[s]| && IsNarrow(prog[s][k])
    ensures |code| >= 2 && |code| + 1 <= Offset(u, |u.g|)
    ensures CodeAt(list, prog, secs, h, buf0, u, s, k + 1, pos + 1, code[|code| - 2 := NarrowOp(code[|code| - 2])]
      + [prog[s][k].arg % 256], globals)
  {
    hide *;
    CodeParts(list, prog, secs, h, buf0, u, s, k, pos, code, globals);
    FinalWords(list, prog, secs, h, buf0, u, s, k);
    var n := Base(prog, s) + k;
    EmitNarrow(u, code, n);
    NarrowIs(prog[s][k]);
    GlobalsNext(u, n);
    var code' := code[|code| - 2 := NarrowOp(code[|code| - 2])] + [prog[s][k].arg % 256];
    CodeMore(list, prog, secs, h, buf0, u, s, k, pos, code, globals, code', globals);
    CodeParts(list, prog, secs, h, buf0, u, s, k + 1, pos + 1, code', globals);
  }

  lemma NarrowIs(i: Item)
    ensures IsNarrow(i) ==> Slots(i) == 1 && !IsGlobalLabel(i)
  {
  }

  lemma CodeStart(list: seq<Act>, prog: seq<seq<Item>>, secs: seq<Sec>, h: Heap, buf0: map<int, int>, u: Unit, s: nat,
                  code: seq<byte>, globals: seq<int>)
    requires Finished(list, prog, secs, h, buf0, u) && UnitOk(u) && s < |prog| && Base(prog, s) <= |u.g| &&
      Base(prog, s) < |u.d|
    requires EncodedTo(u, code, Base(prog, s)) && globals == GlobalsAfter(u, Base(prog, s))
    ensures CodeAt(list, prog, secs, h, buf0, u, s, 0, SecPos(s), code, globals)
    ensures prog[s] != [] ==> prog[s][0].what.Begin?
  {
    hide EncodedTo, GlobalsAfter, UnitOk, Going, Laid, SecPos, Base;
    WalkStart(list, prog, secs, h, buf0, s);
  }

  lemma CodeZero(u: Unit)
    requires UnitOk(u)
    ensures |u.d| > 0 && EncodedTo(u, [], 0) && GlobalsAfter(u, 0) == u.ext
  {
    ZeroOffset(u);
  }

  // ---- What each action writes -------------------------------------------------------------------

  /** Facts about item n when pass 3 is there. */
  ghost predicate ItemHere(u: Unit, n: nat, i: Item, pos: int, code: seq<byte>, globals: seq<int>)
  {
    n < |u.g| && n + 1 < |u.d| == |u.g| + 1 && u.g[n] == i && i.pos == pos && ArgOk(i) && UnitOk(u) &&
      |globals| == |u.ext| &&
    Referable(u, n) && 0 <= Size(u.g, u.d, n) == Offset(u, n + 1) - Offset(u, n) && |code| == Offset(u, n) &&
    Offset(u, n + 1) <= Offset(u, |u.g|) &&
      (!Shrunk(u, n) && !IsNarrow(i) ==> |PlainBytes(u, n)| == Offset(u, n + 1) - Offset(u, n)) &&
    (i.what.Begin? ==> pos in u.buf && u.buf[pos] == i.what.start) && (IsLabel(i) ==> pos in u.buf) &&
    (HasArgWord(i) ==> pos in u.buf && u.buf[pos] == i.arg) && (IsRef(i) ==> pos in u.buf) &&
      (IsRel(i) ==> pos + 1 in u.buf)
  }

  lemma ItemHereIs(u: Unit, n: nat, i: Item, pos: int, code: seq<byte>, globals: seq<int>)
    requires ItemHere(u, n, i, pos, code, globals)
    ensures n < |u.g| && n + 1 < |u.d| == |u.g| + 1 && u.g[n] == i && i.pos == pos && ArgOk(i) && UnitOk(u) &&
      |globals| == |u.ext|
    ensures Referable(u, n) && 0 <= Size(u.g, u.d, n) == Offset(u, n + 1) - Offset(u, n) && |code| == Offset(u, n)
    ensures Offset(u, n + 1) <= Offset(u, |u.g|) &&
      (!Shrunk(u, n) && !IsNarrow(i) ==> |PlainBytes(u, n)| == Offset(u, n + 1) - Offset(u, n))
    ensures (i.what.Begin? ==> pos in u.buf && u.buf[pos] == i.what.start) && (IsLabel(i) ==> pos in u.buf)
    ensures (HasArgWord(i) ==> pos in u.buf && u.buf[pos] == i.arg) && (IsRef(i) ==> pos in u.buf) &&
      (IsRel(i) ==> pos + 1 in u.buf)
  {
    hide UnitOk, Offset, Size, Referable, ArgOk, PlainBytes, Shrunk;
  }

  lemma CodeFacts(list: seq<Act>, prog: seq<seq<Item>>, secs: seq<Sec>, h: Heap, buf0: map<int, int>, u: Unit,
                  s: nat, k: nat, pos: int, code: seq<byte>, globals: seq<int>)
    requires CodeAt(list, prog, secs, h, buf0, u, s, k, pos, code, globals) && k < |prog[s]|
    ensures ItemHere(u, Base(prog, s) + k, prog[s][k], pos, code, globals)
  {
    hide *;
    CodeParts(list, prog, secs, h, buf0, u, s, k, pos, code, globals);
    FinalWords(list, prog, secs, h, buf0, u, s, k);
    var n := Base(prog, s) + k;
    ItemFacts(u, n);
    OffsetsGrow(u, n + 1, |u.g|);
    if !Shrunk(u, n) && !IsNarrow(prog[s][k]) { PlainSize(u, n); }
    ItemIsHere(u, n, prog[s][k], pos, code, globals);
  }

  lemma ItemIsHere(u: Unit, n: nat, i: Item, pos: int, code: seq<byte>, globals: seq<int>)
    requires n < |u.g| && n + 1 < |u.d| == |u.g| + 1 && u.g[n] == i && i.pos == pos && ArgOk(i) && UnitOk(u) &&
      |globals| == |u.ext|
    requires Referable(u, n) && 0 <= Size(u.g, u.d, n) == Offset(u, n + 1) - Offset(u, n) && |code| == Offset(u, n)
    requires Offset(u, n + 1) <= Offset(u, |u.g|) &&
      (!Shrunk(u, n) && !IsNarrow(i) ==> |PlainBytes(u, n)| == Offset(u, n + 1) - Offset(u, n))
    requires (i.what.Begin? ==> pos in u.buf && u.buf[pos] == i.what.start) && (IsLabel(i) ==> pos in u.buf)
    requires (HasArgWord(i) ==> pos in u.buf && u.buf[pos] == i.arg) && (IsRef(i) ==> pos in u.buf) &&
      (IsRel(i) ==> pos + 1 in u.buf)
    ensures ItemHere(u, n, i, pos, code, globals)
  {
    hide UnitOk, Offset, Size, Referable, ArgOk, PlainBytes, Shrunk;
  }

  /** The bytes of the item, for each action. */
  lemma BytesOf(u: Unit, n: nat)
    requires n < |u.g| && n + 1 < |u.d| && Referable(u, n) && 0 <= Size(u.g, u.d, n) && ArgOk(u.g[n]) && u.g[n].what.Do?
    ensures var i := u.g[n]; var b := PlainBytes(u, n);
      match i.what.act
      case Byte(x) => b == [x] && !IsNarrow(i) && !Shrunk(u, n)
      case Esc(x) => b == [x] && !IsNarrow(i) && !Shrunk(u, n)
      case ImmS => b == LE1(i.arg) && !IsNarrow(i) && !Shrunk(u, n)
      case ImmB => b == LE1(i.arg) && !IsNarrow(i) && !Shrunk(u, n)
      case ImmW => b == LE2(i.arg) && !IsNarrow(i) && !Shrunk(u, n)
      case ImmD => b == LE4(i.arg) && !IsNarrow(i) && !Shrunk(u, n)
      case ImmWB => b == LE2(i.arg) && (IsNarrow(i) <==> FitsByte(i.arg)) && !Shrunk(u, n)
      case ImmDB => b == LE4(i.arg) && (IsNarrow(i) <==> FitsByte(i.arg)) && !Shrunk(u, n)
      case Space(fill) => i.arg >= 0 && b == Fill(fill, i.arg) && !IsNarrow(i) && !Shrunk(u, n)
      case RelA => b == LE4(i.arg - (u.base + Offset(u, n + 1))) && !IsNarrow(i) && !Shrunk(u, n)
      case RelLG(_) => b == LE4(Displacement(u, n)) && !IsNarrow(i)
      case RelPC => b == LE4(Displacement(u, n)) && !IsNarrow(i)
      case ImmLG(_) => b == LE4(Address(u, n)) && !IsNarrow(i) && !Shrunk(u, n)
      case ImmPC => b == LE4(Address(u, n)) && !IsNarrow(i) && !Shrunk(u, n)
      case Align(_) => b == Fill(0x90, Size(u.g, u.d, n)) && !IsNarrow(i) && !Shrunk(u, n)
      case _ => b == [] && !IsNarrow(i) && !Shrunk(u, n)
  {
    hide Address, Displacement, Offset, Size, Fill;
  }

  predicate IsArgAct(a: Act)
  {
    a.ImmS? || a.ImmB? || a.ImmW? || a.ImmD? || a.ImmWB? || a.ImmDB? || a.Space? || a.RelA?
  }

  lemma KindOf(i: Item)
    ensures i.what.Do? ==>
      (IsGlobalLabel(i) <==> i.what.act.LabelLG? && i.what.act.n >= 10) &&
      (IsLabel(i) <==> i.what.act.LabelLG? || i.what.act.LabelPC?)
    ensures i.what.Do? ==>
      (IsRel(i) <==> i.what.act.RelLG? || i.what.act.RelPC?) &&
      (IsRef(i) <==> IsRel(i) || i.what.act.ImmLG? || i.what.act.ImmPC?)
    ensures i.what.Do? ==> (HasArgWord(i) <==> IsArgAct(i.what.act))
    ensures i.what.Do? && (i.what.act.Byte? || i.what.act.Esc?) ==> Slots(i) == 0
    ensures IsRel(i) ==> Slots(i) == 2
    ensures
      i.what.Do? && !IsRel(i) && !i.what.act.Byte? && !i.what.act.Esc? && !i.what.act.Section? && !i.what.act.Stop? ==>
      Slots(i) == 1
    ensures i.what.Finish? ==> Slots(i) == 0 && !IsGlobalLabel(i) && !IsNarrow(i) && !IsRel(i)
    ensures i.what.Begin? ==> Slots(i) == 1 && !IsGlobalLabel(i) && !IsNarrow(i) && !IsRel(i)
  {
  }

  /** Beginnings and ends of templates write nothing. */
  lemma NoBytesOf(u: Unit, n: nat)
    requires n < |u.g| && n + 1 < |u.d| && Referable(u, n) && 0 <= Size(u.g, u.d, n) && !u.g[n].what.Do?
    ensures PlainBytes(u, n) == [] && !Shrunk(u, n)
  {
  }

  lemma AddressOf(u: Unit, n: nat)
    requires n < |u.g| && Referable(u, n) && IsRef(u.g[n])
    ensures var w := u.buf[u.g[n].pos];
      if w < 0 then -w < |u.ext| && Address(u, n) == u.ext[-w] && (u.g[n].what.act.RelLG? || u.g[n].what.act.ImmLG?)
      else w in u.buf && Address(u, n) == u.base + u.buf[w]
    ensures IsRel(u.g[n]) ==> u.g[n].pos + 1 in u.buf && (u.buf[u.g[n].pos] < 0 ==> u.buf[u.g[n].pos + 1] == 0)
    ensures Shrunk(u, n) <==> IsRel(u.g[n]) && u.buf[u.g[n].pos + 1] != 0
  {
  }

  lemma PlainHere(u: Unit, n: nat)
    requires n < |u.g| && !Shrunk(u, n) && !IsNarrow(u.g[n]) && Referable(u, n) && n + 1 < |u.d| &&
      0 <= Size(u.g, u.d, n) && ArgOk(u.g[n])
    ensures PlainIs(u, n, PlainBytes(u, n))
  {
  }

  /** A global from outside has not been touched when a reference to it is encoded. */
  lemma ExternKept(list: seq<Act>, prog: seq<seq<Item>>, secs: seq<Sec>, h: Heap, buf0: map<int, int>, u: Unit, s: nat,
      k: nat, n: nat)
    requires Finished(list, prog, secs, h, buf0, u) && s < |prog| && k < |prog[s]| && IsRef(prog[s][k]) && n <= |u.g|
    requires prog[s][k].pos in u.buf && u.buf[prog[s][k].pos] < 0
    ensures n <= |u.d| && var x := -u.buf[prog[s][k].pos]; x < |u.ext| && GlobalsAfter(u, n)[x] == u.ext[x]
  {
    hide *;
    FinishedParts(list, prog, secs, h, buf0, u);
    FinalWords(list, prog, secs, h, buf0, u, s, k);
    var x: nat := -u.buf[prog[s][k].pos];
    MarkUndefined(h, u.buf, prog[s][k].pos);
    AllIs(prog);
    forall j | 0 <= j < n && IsGlobalLabel(u.g[j]) ensures u.g[j].what.Do? && u.g[j].what.act.LabelLG? &&
      u.g[j].what.act.n != x {
      var t, m := SectionOf(prog, |prog|, j);
      AllItems(list, prog, secs, h, t, m);
      GlobalLabel(u.g[j]);
      DefinedAs(prog[t], m, h, x);
    }
    GlobalStays(u, n, x);
  }

  lemma MarkUndefined(h: Heap, buf: map<int, int>, r: int)
    requires Resolved(h, buf, r) && buf[r] < 0
    ensures -buf[r] < |h.lg| && Undefined(h.labels, LG(-buf[r]))
  {
  }

  lemma DefinedAs(g: seq<Item>, k: nat, h: Heap, x: nat)
    requires k < |g| && ItemIn(g, k, h) && IsLabel(g[k]) && Undefined(h.labels, LG(x))
    ensures SlotOf(g[k]) != LG(x)
  {
  }

  /** Padding stops exactly where pass 2 has reckoned. */
  lemma PaddingEnds(u: Unit, n: nat, cp: int)
    requires UnitOk(u) && n < |u.g| && IsAlign(u.g[n]) && n + 1 < |u.d| && Offset(u, n) <= cp <= Offset(u, n + 1)
    ensures cp % (u.g[n].what.act.mask + 1) == 0 <==> cp == Offset(u, n + 1)
  {
    AlignedAt(u.g, u.buf, u.d, |u.g|, n);
    SizeBounds(u.g, u.buf, u.d, |u.g|, n);
    var m, e := u.g[n].what.act.mask + 1, Offset(u, n + 1);
    hide UnitOk, Offset, Size, Final;
    if cp < e && cp % m == 0 { Multiples(e, cp, m); }
  }

  lemma Multiples(a: int, b: int, m: int)
    requires m > 0 && a % m == 0 && b % m == 0 && b < a
    ensures a - b >= m
  {
    var p, q := a / m, b / m;
    assert a == p * m && b == q * m;
    assert (p - q) * m == a - b;
    PositiveMultiple(p - q, m);
  }

  lemma PositiveMultiple(x: int, m: int)
    requires m > 0 && x * m > 0
    ensures x * m >= m
  {
  }

  /** Facts about reference n when pass 3 is there: its address, and the bytes in its long form. */
  ghost predicate RefHere(u: Unit, n: nat, i: Item, pos: int, code: seq<byte>, globals: seq<int>)
  {
    n < |u.g| && n + 1 < |u.d| == |u.g| + 1 && u.g[n] == i && i.pos == pos && Referable(u, n) &&
      0 <= Size(u.g, u.d, n) && ArgOk(i) &&
    IsRef(i) && i.what.Do? && !i.what.act.Space? && !IsNarrow(i) && !IsGlobalLabel(i) && |code| == Offset(u, n) &&
    Slots(i) == (if IsRel(i) then 2 else 1) && pos in u.buf &&
    (if u.buf[pos] < 0 then -u.buf[pos] < |globals| && globals[-u.buf[pos]] == Address(u, n) && !Shrunk(u, n)
     else u.buf[pos] in u.buf && Address(u, n) == u.base + u.buf[u.buf[pos]]) &&
    (IsRel(i) ==> pos + 1 in u.buf && (Shrunk(u, n) <==> u.buf[pos + 1] != 0)) && (!IsRel(i) ==> !Shrunk(u, n)) &&
    Displacement(u, n) == Address(u, n) - (u.base + Offset(u, n + 1)) &&
    (!Shrunk(u, n) ==>
      Offset(u, n + 1) == |code| + 4 <= Offset(u, |u.g|) &&
      PlainBytes(u, n) == LE4(if IsRel(i) then Displacement(u, n) else Address(u, n)))
  }

  lemma RefHereIs(u: Unit, n: nat, i: Item, pos: int, code: seq<byte>, globals: seq<int>)
    requires RefHere(u, n, i, pos, code, globals)
    ensures n < |u.g| && n + 1 < |u.d| == |u.g| + 1 && u.g[n] == i && i.pos == pos && Referable(u, n) &&
      0 <= Size(u.g, u.d, n) && ArgOk(i)
    ensures IsRef(i) && i.what.Do? && !i.what.act.Space? && !IsNarrow(i) && !IsGlobalLabel(i) && |code| == Offset(u, n)
    ensures Slots(i) == (if IsRel(i) then 2 else 1) && pos in u.buf
    ensures u.buf[pos] < 0 ==> -u.buf[pos] < |globals| && globals[-u.buf[pos]] == Address(u, n) && !Shrunk(u, n)
    ensures u.buf[pos] >= 0 ==> u.buf[pos] in u.buf && Address(u, n) == u.base + u.buf[u.buf[pos]]
    ensures (IsRel(i) ==> pos + 1 in u.buf && (Shrunk(u, n) <==> u.buf[pos + 1] != 0)) && (!IsRel(i) ==> !Shrunk(u, n))
    ensures Displacement(u, n) == Address(u, n) - (u.base + Offset(u, n + 1))
    ensures !Shrunk(u, n) ==> Offset(u, n + 1) == |code| + 4 <= Offset(u, |u.g|)
    ensures !Shrunk(u, n) ==> PlainBytes(u, n) == LE4(if IsRel(i) then Displacement(u, n) else Address(u, n))
  {
    hide Referable, Size, ArgOk, Offset, Slots, Address, Displacement, PlainBytes, LE4, Shrunk, IsRel, IsRef, IsNarrow,
      IsGlobalLabel;
  }

  lemma RefIsHere(u: Unit, n: nat, i: Item, pos: int, code: seq<byte>, globals: seq<int>)
    requires n < |u.g| && n + 1 < |u.d| == |u.g| + 1 && u.g[n] == i && i.pos == pos && Referable(u, n) &&
      0 <= Size(u.g, u.d, n) && ArgOk(i)
    requires IsRef(i) && i.what.Do? && !i.what.act.Space? && !IsNarrow(i) && !IsGlobalLabel(i) && |code| == Offset(u, n)
    requires Slots(i) == (if IsRel(i) then 2 else 1) && pos in u.buf
    requires u.buf[pos] < 0 ==> -u.buf[pos] < |globals| && globals[-u.buf[pos]] == Address(u, n) && !Shrunk(u, n)
    requires u.buf[pos] >= 0 ==> u.buf[pos] in u.buf && Address(u, n) == u.base + u.buf[u.buf[pos]]
    requires (IsRel(i) ==> pos + 1 in u.buf && (Shrunk(u, n) <==> u.buf[pos + 1] != 0)) && (!IsRel(i) ==> !Shrunk(u, n))
    requires Displacement(u, n) == Address(u, n) - (u.base + Offset(u, n + 1))
    requires !Shrunk(u, n) ==> Offset(u, n + 1) == |code| + 4 <= Offset(u, |u.g|)
    requires !Shrunk(u, n) ==> PlainBytes(u, n) == LE4(if IsRel(i) then Displacement(u, n) else Address(u, n))
    ensures RefHere(u, n, i, pos, code, globals)
  {
    hide Referable, Size, ArgOk, Offset, Slots, Address, Displacement, PlainBytes, LE4, Shrunk, IsRel, IsRef, IsNarrow,
      IsGlobalLabel;
  }
}
