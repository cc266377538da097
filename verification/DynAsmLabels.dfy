/** Labels and the chains of references that wait for them, threaded through the section buffers. */
module DynAsmLabels {

  /** A label: local (1 to 9) or global (from 10 on) in one array, numbered by the program in another. */
  datatype Slot = LG(i: int) | PC(i: int)

  datatype Def = Def(slot: Slot, at: nat)

  /** Which definition a reference may mean: only one before it, only one after it, or either. */
  datatype Dir = Back | Ahead | Either

  datatype Use = Use(slot: Slot, at: nat, dir: Dir)

  /**
   The label arrays and the buffers; and, for the proofs, which positions hold labels and which refer to one, when
   they were put, and the chains that the words form.
   */
  datatype Heap = Heap(buf: map<int, int>, lg: seq<int>, pc: seq<int>,
                       labels: map<int, Def>, refs: map<int, Use>, chains: map<Slot, seq<int>>, clock: nat)

  predicate HasSlot(h: Heap, s: Slot)
  {
    match s
    case LG(i) => 0 <= i < |h.lg|
    case PC(i) => 0 <= i < |h.pc|
  }

  function Val(h: Heap, s: Slot): int
    requires HasSlot(h, s)
  {
    match s
    case LG(i) => h.lg[i]
    case PC(i) => h.pc[i]
  }

  function SetVal(h: Heap, s: Slot, v: int): Heap
    requires HasSlot(h, s)
  {
    match s
    case LG(i) => h.(lg := h.lg[i := v])
    case PC(i) => h.(pc := h.pc[i := v])
  }

  function Chain(h: Heap, s: Slot): seq<int>
  {
    if s in h.chains then h.chains[s] else []
  }

  /** Word r links on to the rest of its chain. */
  ghost predicate Linked(buf: map<int, int>, c: seq<int>)
  {
    c != [] ==>
      c[0] > 0 && c[0] in buf && c[0] !in c[1..] && buf[c[0]] == (if |c| > 1 then c[1] else 0) && Linked(buf, c[1..])
  }

  /** No label of the slot was put strictly between two times. */
  ghost predicate NoneBetween(labels: map<int, Def>, s: Slot, from: int, to: int)
  {
    forall m {:trigger m in labels} :: m in labels && labels[m].slot == s ==> !(from < labels[m].at < to)
  }

  /** Label l is the one that reference u means. */
  ghost predicate Right(labels: map<int, Def>, u: Use, l: int)
  {
    l in labels && labels[l].slot == u.slot && labels[l].at != u.at &&
    NoneBetween(labels, u.slot, u.at, labels[l].at) && NoneBetween(labels, u.slot, labels[l].at, u.at) &&
    (u.dir == Back ==> labels[l].at < u.at) && (u.dir == Ahead ==> u.at < labels[l].at)
  }

  /** A reference that waits: no label of its slot has come since. */
  ghost predicate Waiting(h: Heap, s: Slot, r: int)
  {
    r in h.refs && h.refs[r].slot == s && h.refs[r].dir != Back && NoneBetween(h.labels, s, h.refs[r].at, h.clock)
  }

  ghost predicate SlotOk(h: Heap, s: Slot)
  {
    HasSlot(h, s) && Linked(h.buf, Chain(h, s)) &&
    (forall r :: r in Chain(h, s) ==> Waiting(h, s, r)) &&
    (if Val(h, s) > 0 then Chain(h, s) != [] && Chain(h, s)[0] == Val(h, s) else Chain(h, s) == []) &&
    (Val(h, s) < 0 ==> -Val(h, s) in h.labels && h.labels[-Val(h, s)].slot == s &&
                       NoneBetween(h.labels, s, h.labels[-Val(h, s)].at, h.clock)) &&
    (Val(h, s) >= 0 && !IsLocal(s) ==> Undefined(h.labels, s))
  }

  predicate IsLocal(s: Slot)
  {
    s.LG? && s.i < 10
  }

  /** No label of the slot has been put. */
  ghost predicate Undefined(labels: map<int, Def>, s: Slot)
  {
    forall m {:trigger m in labels} :: m in labels ==> labels[m].slot != s
  }

  /** Local labels are only referred to backward or forward, and number 0 not forward. */
  predicate UseOk(u: Use)
  {
    if IsLocal(u.slot) then u.dir == Back || (u.dir == Ahead && u.slot.i >= 1) else u.dir == Either
  }

  ghost predicate RefOk(h: Heap, r: int)
  {
    r in h.refs && r in h.buf && r > 0 && r !in h.labels && h.refs[r].at < h.clock && HasSlot(h, h.refs[r].slot) &&
      UseOk(h.refs[r]) &&
    (r in Chain(h, h.refs[r].slot) || Right(h.labels, h.refs[r], h.buf[r]))
  }

  ghost predicate LabelOk(h: Heap, l: int)
  {
    l in h.labels && l in h.buf && l > 0 && h.labels[l].at < h.clock && HasSlot(h, h.labels[l].slot)
  }

  ghost predicate LinksOk(h: Heap)
  {
    (forall s {:trigger SlotOk(h, s)} :: HasSlot(h, s) ==> SlotOk(h, s)) &&
    (forall r {:trigger RefOk(h, r)} :: r in h.refs ==> RefOk(h, r)) &&
    (forall l {:trigger LabelOk(h, l)} :: l in h.labels ==> LabelOk(h, l)) &&
    (forall s {:trigger s in h.chains} :: s in h.chains ==> HasSlot(h, s)) && |h.lg| >= 10
  }

  // ---- Defining a label -----------------------------------------------------------

  /** All words of the chain become the label's position. */
  function Collapse(buf: map<int, int>, c: seq<int>, pos: int): map<int, int>
    decreases |c|
  {
    if c == [] then buf else Collapse(buf[c[0] := pos], c[1..], pos)
  }

  lemma {:induction false} Collapsed(buf: map<int, int>, c: seq<int>, pos: int)
    ensures var b := Collapse(buf, c, pos);
      (forall x :: x in c ==> x in b && b[x] == pos) && (forall x :: x !in c ==> (x in b <==> x in buf)) &&
      (forall x :: x in buf && x !in c ==> x in b && b[x] == buf[x]) && forall x :: x in buf ==> x in b
    decreases |c|
  {
    if c != [] {
      Collapsed(buf[c[0] := pos], c[1..], pos);
      var b := Collapse(buf, c, pos);
      forall x | x in c ensures x in b && b[x] == pos {
        if x !in c[1..] { assert x == c[0]; }
      }
      forall x | x !in c ensures x !in c[1..] && x != c[0] {
        assert x in c[1..] ==> x in c;
      }
    }
  }

  /** The heap after a label was put at pos with the offset estimate ofs. */
  function Define(h: Heap, s: Slot, pos: int, ofs: int): Heap
    requires HasSlot(h, s)
  {
    var h1 := SetVal(h, s, -pos);
    h1.(buf := Collapse(h.buf, Chain(h, s), pos)[pos := ofs], labels := h.labels[pos := Def(s, h.clock)],
        chains := h.chains[s := []], clock := h.clock + 1)
  }

  lemma {:induction false} LinkedFrame(buf: map<int, int>, buf': map<int, int>, c: seq<int>)
    requires Linked(buf, c) && forall x :: x in c && x in buf ==> x in buf' && buf'[x] == buf[x]
    ensures Linked(buf', c)
    decreases |c|
  {
    if c != [] {
      assert forall x :: x in c[1..] ==> x in c;
      LinkedFrame(buf, buf', c[1..]);
    }
  }

  lemma ChainsApart(h: Heap, s: Slot, t: Slot, r: int)
    requires LinksOk(h) && HasSlot(h, s) && HasSlot(h, t) && r in Chain(h, s) && r in Chain(h, t)
    ensures s == t
  {
    assert SlotOk(h, s) && SlotOk(h, t) && Waiting(h, s, r) && Waiting(h, t, r);
  }

  lemma DefineOk(h: Heap, s: Slot, pos: int, ofs: int)
    requires LinksOk(h) && HasSlot(h, s) && pos > 0 && pos !in h.buf
    ensures LinksOk(Define(h, s, pos, ofs))
    ensures forall x :: x in h.buf && x !in h.refs ==>
      x in Define(h, s, pos, ofs).buf && Define(h, s, pos, ofs).buf[x] == h.buf[x]
    ensures forall x :: x in h.buf ==> x in Define(h, s, pos, ofs).buf
    ensures forall x :: x in Define(h, s, pos, ofs).buf ==> x in h.buf || x == pos
  {
    var h', c := Define(h, s, pos, ofs), Chain(h, s);
    Collapsed(h.buf, c, pos);
    assert SlotOk(h, s);
    assert forall x :: x in c ==> Waiting(h, s, x) && RefOk(h, x);
    forall t | HasSlot(h', t) ensures SlotOk(h', t) {
      DefineSlot(h, s, pos, ofs, t);
    }
    forall r | r in h'.refs ensures RefOk(h', r) {
      DefineRef(h, s, pos, ofs, r);
    }
    forall l | l in h'.labels ensures LabelOk(h', l) {
      if l != pos { assert LabelOk(h, l); }
    }
  }

  lemma LabelsBefore(h: Heap)
    requires LinksOk(h)
    ensures forall m :: m in h.labels ==> h.labels[m].at < h.clock
  {
    forall m | m in h.labels ensures h.labels[m].at < h.clock { assert LabelOk(h, m); }
  }

  /** The words of a chain are those of references that wait. */
  lemma ChainWaits(h: Heap, t: Slot)
    requires LinksOk(h) && HasSlot(h, t)
    ensures SlotOk(h, t) && forall x :: x in Chain(h, t) ==> x in h.buf && Waiting(h, t, x)
  {
    assert SlotOk(h, t);
    forall x | x in Chain(h, t) ensures x in h.buf && Waiting(h, t, x) {
      assert Waiting(h, t, x) && RefOk(h, x);
    }
    hide LinksOk;
  }

  lemma DefineSlot(h: Heap, s: Slot, pos: int, ofs: int, t: Slot)
    requires LinksOk(h) && HasSlot(h, s) && pos > 0 && pos !in h.buf && HasSlot(h, t)
    ensures SlotOk(Define(h, s, pos, ofs), t)
  {
    hide *;
    LabelsBefore(h);
    LabelsHeld(h);
    ChainWaits(h, t);
    if t != s {
      forall x | x in Chain(h, t) ensures x !in Chain(h, s) {
        if x in Chain(h, s) { ChainsApart(h, s, t, x); }
      }
      DefineKeeps(h, s, pos, ofs, t);
    } else {
      DefineEnds(h, s, pos, ofs);
    }
  }

  lemma LabelsHeld(h: Heap)
    requires LinksOk(h)
    ensures forall m :: m in h.labels ==> m in h.buf
  {
    forall m | m in h.labels ensures m in h.buf { assert LabelOk(h, m); }
  }

  /** The slots of other labels. */
  lemma DefineKeeps(h: Heap, s: Slot, pos: int, ofs: int, t: Slot)
    requires HasSlot(h, s) && pos > 0 && pos !in h.buf && HasSlot(h, t) && t != s && SlotOk(h, t)
    requires forall m :: m in h.labels ==> h.labels[m].at < h.clock && m in h.buf
    requires forall x :: x in Chain(h, t) ==> x in h.buf && Waiting(h, t, x) && x !in Chain(h, s)
    ensures SlotOk(Define(h, s, pos, ofs), t)
  {
    var h', d := Define(h, s, pos, ofs), Chain(h, t);
    Collapsed(h.buf, Chain(h, s), pos);
    hide Collapse;
    LinkedFrame(h.buf, h'.buf, d);
    hide Linked;
    assert Chain(h', t) == d && Val(h', t) == Val(h, t);
    forall x | x in d ensures Waiting(h', t, x) {
      assert Waiting(h, t, x);
    }
  }

  /** The slot of the label itself: nothing waits any more. */
  lemma DefineEnds(h: Heap, s: Slot, pos: int, ofs: int)
    requires HasSlot(h, s) && pos > 0 && pos !in h.buf
    requires forall m :: m in h.labels ==> h.labels[m].at < h.clock
    ensures SlotOk(Define(h, s, pos, ofs), s)
  {
    hide Collapse;
  }

  lemma DefineRef(h: Heap, s: Slot, pos: int, ofs: int, r: int)
    requires LinksOk(h) && HasSlot(h, s) && pos > 0 && pos !in h.buf && r in h.refs
    ensures RefOk(Define(h, s, pos, ofs), r)
  {
    var h', c := Define(h, s, pos, ofs), Chain(h, s);
    Collapsed(h.buf, c, pos);
    assert RefOk(h, r) && SlotOk(h, s);
    var u := h.refs[r];
    if r in c {
      assert Waiting(h, s, r);
      forall m | m in h'.labels && h'.labels[m].slot == s ensures !(u.at < h'.labels[m].at < h.clock) &&
        !(h.clock < h'.labels[m].at) {
        if m != pos { assert LabelOk(h, m); }
      }
    } else if r in Chain(h, u.slot) {
      assert u.slot != s;
    } else {
      var l := h.buf[r];
      assert Right(h.labels, u, l) && LabelOk(h, l);
    }
  }

  // ---- Referring to a label ----------------------------------------------------------

  /** The heap after a reference was put at pos: to the label if there is one, else at the head of the chain. */
  function Refer(h: Heap, s: Slot, pos: int, dir: Dir): Heap
    requires HasSlot(h, s)
  {
    var u := Use(s, h.clock, dir);
    var v := Val(h, s);
    if v < 0 && dir != Ahead then h.(buf := h.buf[pos := -v], refs := h.refs[pos := u], clock := h.clock + 1)
    else
      SetVal(h, s, pos).(buf := h.buf[pos := if v < 0 then 0 else v], refs := h.refs[pos := u],
                         chains := h.chains[s := [pos] + Chain(h, s)], clock := h.clock + 1)
  }

  lemma ReferOk(h: Heap, s: Slot, pos: int, dir: Dir)
    requires LinksOk(h) && HasSlot(h, s) && pos > 0 && pos !in h.buf && (dir == Back ==> Val(h, s) < 0) &&
      UseOk(Use(s, 0, dir))
    ensures LinksOk(Refer(h, s, pos, dir))
    ensures Refer(h, s, pos, dir).labels == h.labels
    ensures forall x :: x in h.buf ==> x in Refer(h, s, pos, dir).buf && Refer(h, s, pos, dir).buf[x] == h.buf[x]
    ensures forall x :: x in Refer(h, s, pos, dir).buf ==> x in h.buf || x == pos
  {
    var h' := Refer(h, s, pos, dir);
    assert SlotOk(h, s);
    forall t | HasSlot(h', t) ensures SlotOk(h', t) {
      ReferSlot(h, s, pos, dir, t);
    }
    forall r | r in h'.refs ensures RefOk(h', r) {
      ReferRef(h, s, pos, dir, r);
    }
    forall l | l in h'.labels ensures LabelOk(h', l) {
      assert LabelOk(h, l);
    }
  }

  lemma ReferSlot(h: Heap, s: Slot, pos: int, dir: Dir, t: Slot)
    requires LinksOk(h) && HasSlot(h, s) && pos > 0 && pos !in h.buf && (dir == Back ==> Val(h, s) < 0) &&
      UseOk(Use(s, 0, dir)) && HasSlot(h, t)
    ensures SlotOk(Refer(h, s, pos, dir), t)
  {
    hide *;
    LabelsBefore(h);
    ChainWaits(h, t);
    if t == s && !(Val(h, s) < 0 && dir != Ahead) {
      ReferJoins(h, s, pos, dir);
    } else {
      ReferKeeps(h, s, pos, dir, t);
    }
  }

  /** The chain of a slot that the reference does not join. */
  lemma ReferKeeps(h: Heap, s: Slot, pos: int, dir: Dir, t: Slot)
    requires HasSlot(h, s) && pos !in h.buf && HasSlot(h, t) && SlotOk(h, t) &&
      (t != s || (Val(h, s) < 0 && dir != Ahead))
    requires forall m :: m in h.labels ==> h.labels[m].at < h.clock
    requires forall x :: x in Chain(h, t) ==> x in h.buf && Waiting(h, t, x)
    ensures SlotOk(Refer(h, s, pos, dir), t)
  {
    var h' := Refer(h, s, pos, dir);
    LinkedFrame(h.buf, h'.buf, Chain(h, t));
    hide Linked;
    assert Chain(h', t) == Chain(h, t) && Val(h', t) == Val(h, t);
    forall x | x in Chain(h, t) ensures Waiting(h', t, x) {
      assert Waiting(h, t, x);
    }
  }

  /** The chain that the reference becomes the head of. */
  lemma ReferJoins(h: Heap, s: Slot, pos: int, dir: Dir)
    requires HasSlot(h, s) && pos > 0 && pos !in h.buf && SlotOk(h, s) && dir != Back &&
      !(Val(h, s) < 0 && dir != Ahead)
    requires UseOk(Use(s, 0, dir))
    requires forall m :: m in h.labels ==> h.labels[m].at < h.clock
    requires forall x :: x in Chain(h, s) ==> x in h.buf && Waiting(h, s, x)
    ensures SlotOk(Refer(h, s, pos, dir), s)
  {
    var h', d := Refer(h, s, pos, dir), Chain(h, s);
    var c := [pos] + d;
    LinkedFrame(h.buf, h'.buf, d);
    assert c[1..] == d && pos !in d;
    assert Linked(h'.buf, c);
    hide Linked;
    assert Waiting(h', s, pos);
    forall x | x in c ensures Waiting(h', s, x) {
      if x != pos { assert x in d && Waiting(h, s, x); }
    }
  }

  lemma ReferRef(h: Heap, s: Slot, pos: int, dir: Dir, r: int)
    requires LinksOk(h) && HasSlot(h, s) && pos > 0 && pos !in h.buf && (dir == Back ==> Val(h, s) < 0) &&
      UseOk(Use(s, 0, dir))
    requires r in Refer(h, s, pos, dir).refs
    ensures RefOk(Refer(h, s, pos, dir), r)
  {
    var h' := Refer(h, s, pos, dir);
    assert SlotOk(h, s);
    assert pos in h.labels ==> LabelOk(h, pos);
    if r == pos {
      if Val(h, s) < 0 && dir != Ahead {
        var l := -Val(h, s);
        assert LabelOk(h, l);
      }
    } else {
      assert RefOk(h, r);
      var t := h.refs[r].slot;
      assert r in Chain(h, t) ==> r in Chain(h', t);
    }
  }

  // ---- Forgetting local labels -----------------------------------------------------------

  /** Local label i has no meaning any more. */
  function Forget(h: Heap, i: nat): Heap
    requires i < |h.lg|
  {
    h.(lg := h.lg[i := 0])
  }

  lemma ForgetOk(h: Heap, i: nat)
    requires LinksOk(h) && 1 <= i <= 9 && i < |h.lg| && h.lg[i] <= 0
    ensures LinksOk(Forget(h, i))
  {
    var h' := Forget(h, i);
    forall t | HasSlot(h', t) ensures SlotOk(h', t) {
      assert SlotOk(h, t);
      forall x | x in Chain(h, t) ensures Waiting(h', t, x) { assert Waiting(h, t, x); }
    }
    forall r | r in h'.refs ensures RefOk(h', r) { assert RefOk(h, r); }
    forall l | l in h'.labels ensures LabelOk(h', l) { assert LabelOk(h, l); }
  }

  /** Local label 0 is never waited for. */
  lemma ZeroNotAwaited(h: Heap)
    requires LinksOk(h)
    ensures |h.lg| >= 10 && h.lg[0] <= 0
  {
    assert SlotOk(h, LG(0));
    if Chain(h, LG(0)) != [] { AwaitedAhead(h, LG(0), Chain(h, LG(0))[0]); }
  }

  lemma AwaitedAhead(h: Heap, s: Slot, r: int)
    requires LinksOk(h) && HasSlot(h, s) && r in Chain(h, s)
    ensures IsLocal(s) ==> s.i >= 1
  {
    assert SlotOk(h, s);
    assert Waiting(h, s, r);
    assert RefOk(h, r);
  }
}
