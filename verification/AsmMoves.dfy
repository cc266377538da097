/** Code at the head of a trace: moves between registers, and loads from the stack. */
module AsmMoves {
  type Reg = r: nat | r < 32
  type Ref = nat

  const RID_ESP: Reg := 4
  const RID_MAX_GPR: nat := 16

  /** Where a value is. */
  datatype Loc = R(r: Reg) | Slot(s: nat)

  datatype Ins = Move(dst: Reg, src: Reg) | Load(dst: Reg, s: nat)

  /** Where an instruction takes its value from. */
  function From(i: Ins): Loc
  {
    match i
    case Move(_, src) => R(src)
    case Load(_, s) => Slot(s)
  }

  /** All registers and stack slots of the machine. */
  type File = Loc -> int

  function Do(i: Ins, f: File): File
  {
    l => if l == R(i.dst) then f(From(i)) else f(l)
  }

  /** The code as it runs, first instruction first. */
  function Run(code: seq<Ins>, f: File): File
  {
    if code == [] then f else Run(code[1..], Do(code[0], f))
  }

  /** Where the value that is at l after the code was before it. */
  function Source(code: seq<Ins>, l: Loc): Loc
  {
    if code == [] then l
    else
      var m := Source(code[1..], l);
      if m == R(code[0].dst) then From(code[0]) else m
  }

  lemma {:induction false} RunSource(code: seq<Ins>, f: File, l: Loc)
    ensures Run(code, f)(l) == f(Source(code, l))
  {
    if code != [] { RunSource(code[1..], Do(code[0], f), l); }
  }

  lemma SourceFirst(i: Ins, code: seq<Ins>, l: Loc)
    ensures Source([i] + code, l) == if Source(code, l) == R(i.dst) then From(i) else Source(code, l)
  {
    assert ([i] + code)[1..] == code;
  }

  predicate IsGPR(r: Reg)
  {
    r < RID_MAX_GPR && r != RID_ESP
  }

  predicate IsFPR(r: Reg)
  {
    r >= RID_MAX_GPR
  }

  const RSET_GPR: set<Reg> := set r: Reg | 0 <= r < 32 && IsGPR(r)
  const RSET_FPR: set<Reg> := set r: Reg | 0 <= r < 32 && IsFPR(r)
  const RSET_ALL: set<Reg> := RSET_GPR + RSET_FPR

  // ---- What the register allocator knows while the head is made ------------------------------

  /** Free registers; the reference each allocated one holds; and the register of each reference. */
  datatype Alloc = Alloc(free: set<Reg>, cost: map<Reg, Ref>, reg: map<Ref, Reg>)

  /** The registers that are not free hold the references that are still to be matched, one each. */
  ghost predicate Holding(a: Alloc, todo: set<Ref>)
  {
    (forall x {:trigger x in todo} :: x in todo ==>
      x in a.reg && a.reg[x] !in a.free && a.reg[x] in RSET_ALL && a.reg[x] in a.cost && a.cost[a.reg[x]] == x) &&
    (forall r: Reg {:trigger r in a.free} {:trigger a.cost[r]} {:trigger r in a.cost} ::
      r in RSET_ALL && r !in a.free ==> r in a.cost && a.cost[r] in todo && a.cost[r] in a.reg && a.reg[a.cost[r]] == r)
  }

  /** References that are matched come from their own places in the parent, and no move can touch those any more. */
  ghost predicate Settled(a: Alloc, allow: set<Reg>, parent: map<Ref, Loc>, live: set<Reg>, refs: set<Ref>,
      todo: set<Ref>)
  {
    forall x {:trigger x in refs} :: x in refs && x !in todo ==>
      x in parent && (parent[x].R? ==> parent[x].r in a.free && parent[x].r !in allow && parent[x].r !in live)
  }

  /** A live register holds the value for one reference still to be matched, and each such reference that wants a
      register has one. */
  ghost predicate Wanted(parent: map<Ref, Loc>, live: set<Reg>, sloadins: map<Reg, Ref>, todo: set<Ref>)
  {
    (forall r: Reg {:trigger r in live} {:trigger sloadins[r]} :: r in live ==>
      r in sloadins && sloadins[r] in todo && sloadins[r] in parent && parent[sloadins[r]] == R(r)) &&
    live <= RSET_ALL
  }

  /** The value for reference x is in a live register of the same class as its own. */
  predicate Matched(a: Alloc, parent: map<Ref, Loc>, live: set<Reg>, sloadins: map<Reg, Ref>, x: Ref)
  {
    x in parent && parent[x].R? && parent[x].r in live && parent[x].r in sloadins && sloadins[parent[x].r] == x &&
      x in a.reg &&
    IsGPR(a.reg[x]) == IsGPR(parent[x].r)
  }

  ghost predicate AllMatched(a: Alloc, parent: map<Ref, Loc>, live: set<Reg>, sloadins: map<Reg, Ref>, todo: set<Ref>)
  {
    forall x {:trigger x in todo} :: x in todo ==> Matched(a, parent, live, sloadins, x)
  }

  /** The code so far takes each value from where it must still be brought, or from its own place. */
  ghost predicate Brings(a: Alloc, code: seq<Ins>, parent: map<Ref, Loc>, target: map<Ref, Reg>, refs: set<Ref>,
      todo: set<Ref>)
  {
    forall x {:trigger x in refs} :: x in refs ==>
      x in target && x in parent && (x in todo ==> x in a.reg) &&
      Source(code, R(target[x])) == if x in todo then R(a.reg[x]) else parent[x]
  }

  /** What holds all the time. */
  ghost predicate Inv(a: Alloc, allow: set<Reg>, live: set<Reg>, sloadins: map<Reg, Ref>, code: seq<Ins>,
                      parent: map<Ref, Loc>, target: map<Ref, Reg>, refs: set<Ref>, todo: set<Ref>)
  {
    todo <= refs && Holding(a, todo) && Settled(a, allow, parent, live, refs, todo) &&
      Wanted(parent, live, sloadins, todo) &&
    AllMatched(a, parent, live, sloadins, todo) && Brings(a, code, parent, target, refs, todo)
  }

  // ---- Matching a live register that is free ----------------------------------------------------

  function Freed(a: Alloc, r: Reg): Alloc
  {
    a.(free := a.free + {r})
  }

  lemma MatchKeeps(a: Alloc, allow: set<Reg>, live: set<Reg>, sloadins: map<Reg, Ref>, code: seq<Ins>,
                   parent: map<Ref, Loc>, target: map<Ref, Reg>, refs: set<Ref>, todo: set<Ref>, rp: Reg)
    requires Inv(a, allow, live, sloadins, code, parent, target, refs, todo) && rp in live && rp in a.free
    ensures rp in sloadins && sloadins[rp] in a.reg && sloadins[rp] in todo
    ensures var x := sloadins[rp];
      Inv(Freed(a, a.reg[x]), allow - {rp}, live - {rp}, sloadins, [Move(a.reg[x], rp)] + code, parent, target, refs,
        todo - {x})
  {
    var x := sloadins[rp];
    var t := a.reg[x];
    var i := Move(t, rp);
    assert x in todo && parent[x] == R(rp);
    forall y | y in refs ensures Source([i] + code, R(target[y])) == (if y in todo && y != x then R(a.reg[y])
      else parent[y]) {
      SourceFirst(i, code, R(target[y]));
      if y in todo && y != x {
        assert a.cost[a.reg[y]] == y && a.cost[t] == x;
      }
    }
    forall r: Reg | r in live && r != rp ensures sloadins[r] in todo && sloadins[r] != x {
      assert parent[sloadins[r]] == R(r);
    }
  }

  // ---- Breaking a cycle ---------------------------------------------------------------------------

  function Renamed(a: Alloc, down: Reg, up: Reg): Alloc
    requires down in a.cost
  {
    Alloc((a.free + {down}) - {up}, (a.cost - {down})[up := a.cost[down]], a.reg[a.cost[down] := up])
  }

  lemma RenameKeeps(a: Alloc, allow: set<Reg>, live: set<Reg>, sloadins: map<Reg, Ref>, code: seq<Ins>,
                    parent: map<Ref, Loc>, target: map<Ref, Reg>, refs: set<Ref>, todo: set<Ref>, down: Reg, up: Reg)
    requires Inv(a, allow, live, sloadins, code, parent, target, refs, todo)
    requires down in live && down !in a.free && up in a.free && up !in live && up in allow && up in RSET_ALL &&
      IsGPR(up) == IsGPR(down)
    ensures down in a.cost && a.cost[down] in todo
    ensures Inv(Renamed(a, down, up), allow, live, sloadins, [Move(down, up)] + code, parent, target, refs, todo)
  {
    assert down in RSET_ALL;
    assert down in a.cost;
    var x := a.cost[down];
    var i := Move(down, up);
    var b := Renamed(a, down, up);
    assert a.reg[x] == down;
    forall y | y in refs ensures Source([i] + code, R(target[y])) == (if y in todo then R(b.reg[y]) else parent[y]) {
      SourceFirst(i, code, R(target[y]));
      if y in todo && y != x { assert a.cost[a.reg[y]] == y; }
    }
    RenameHolds(a, todo, down, up);
  }

  lemma RenameHolds(a: Alloc, todo: set<Ref>, down: Reg, up: Reg)
    requires Holding(a, todo) && down !in a.free && down in RSET_ALL && up in a.free && up in RSET_ALL
    ensures down in a.cost && Holding(Renamed(a, down, up), todo)
  {
    var x := a.cost[down];
    assert a.reg[x] == down;
    var b := Renamed(a, down, up);
    forall y | y in todo ensures y in b.reg && b.reg[y] !in b.free && b.reg[y] in RSET_ALL && b.reg[y] in b.cost &&
      b.cost[b.reg[y]] == y {
      assert a.cost[a.reg[y]] == y;
    }
    forall r: Reg | r in RSET_ALL && r !in b.free ensures r in b.cost && b.cost[r] in todo && b.cost[r] in b.reg &&
      b.reg[b.cost[r]] == r {
      if r != up { assert a.reg[a.cost[r]] == r; }
    }
  }

  /** When no live register is free, the live registers hold exactly the values that other live registers wait for. */
  lemma OnlyCycles(a: Alloc, allow: set<Reg>, live: set<Reg>, sloadins: map<Reg, Ref>, code: seq<Ins>,
                   parent: map<Ref, Loc>, target: map<Ref, Reg>, refs: set<Ref>, todo: set<Ref>)
    requires Inv(a, allow, live, sloadins, code, parent, target, refs, todo) && live * a.free == {}
    ensures forall x :: x in todo ==> x in a.reg && a.reg[x] in live
    ensures forall r: Reg :: r in live ==> r in a.cost && a.cost[r] in todo && a.reg[a.cost[r]] == r
  {
    forall r: Reg | r in live ensures r in a.cost && a.cost[r] in todo && a.cost[r] in a.reg && a.reg[a.cost[r]] == r {
      assert r in RSET_ALL;
      assert r !in live * a.free;
    }
    forall r: Reg | r in live ensures r in sloadins && sloadins[r] in todo && parent[sloadins[r]] == R(r) {}
    forall x | x in todo ensures parent[x].R? && parent[x].r in live && sloadins[parent[x].r] == x {}
    hide Inv, Holding, Settled, Wanted, AllMatched, Brings;
    SameCount(a.cost, a.reg, sloadins, parent, live, todo);
  }

  lemma SameCount(cost: map<Reg, Ref>, reg: map<Ref, Reg>, sloadins: map<Reg, Ref>, parent: map<Ref, Loc>,
      live: set<Reg>, todo: set<Ref>)
    requires forall r: Reg :: r in live ==> r in cost && cost[r] in todo && cost[r] in reg && reg[cost[r]] == r
    requires forall r: Reg :: r in live ==>
      r in sloadins && sloadins[r] in todo && sloadins[r] in parent && parent[sloadins[r]] == R(r)
    requires forall x :: x in todo ==> x in parent && parent[x].R? && parent[x].r in live && sloadins[parent[x].r] == x
    ensures forall x :: x in todo ==> x in reg && reg[x] in live
  {
    hide *;
    CostInjective(cost, reg, live);
    LoadsInjective(sloadins, parent, live);
    CountsOf(live, cost);
    CountsOf(live, sloadins);
    WantedAll(sloadins, parent, live, todo);
    HeldOnly(cost, live, todo);
    SubsetSame(set r: Reg | r in live :: cost[r], todo);
    HeldAll(cost, reg, live, todo);
  }

  lemma CostInjective(cost: map<Reg, Ref>, reg: map<Ref, Reg>, live: set<Reg>)
    requires forall r: Reg :: r in live ==> r in cost && cost[r] in reg && reg[cost[r]] == r
    ensures forall q, r :: q in live && r in live && cost[q] == cost[r] ==> q == r
  {
  }

  lemma LoadsInjective(sloadins: map<Reg, Ref>, parent: map<Ref, Loc>, live: set<Reg>)
    requires forall r: Reg :: r in live ==> r in sloadins && sloadins[r] in parent && parent[sloadins[r]] == R(r)
    ensures forall q, r :: q in live && r in live && sloadins[q] == sloadins[r] ==> q == r
  {
  }

  lemma WantedAll(sloadins: map<Reg, Ref>, parent: map<Ref, Loc>, live: set<Reg>, todo: set<Ref>)
    requires forall r: Reg :: r in live ==> r in sloadins && sloadins[r] in todo
    requires forall x :: x in todo ==> x in parent && parent[x].R? && parent[x].r in live && sloadins[parent[x].r] == x
    ensures (set r: Reg | r in live :: sloadins[r]) == todo
  {
    forall x | x in todo ensures exists r: Reg :: r in live && sloadins[r] == x {
      assert parent[x].r in live;
    }
  }

  lemma HeldOnly(cost: map<Reg, Ref>, live: set<Reg>, todo: set<Ref>)
    requires forall r: Reg :: r in live ==> r in cost && cost[r] in todo
    ensures (set r: Reg | r in live :: cost[r]) <= todo
  {
  }

  lemma HeldAll(cost: map<Reg, Ref>, reg: map<Ref, Reg>, live: set<Reg>, todo: set<Ref>)
    requires forall r: Reg :: r in live ==> r in cost && cost[r] in reg && reg[cost[r]] == r
    requires (set r: Reg | r in live :: cost[r]) == todo
    ensures forall x :: x in todo ==> x in reg && reg[x] in live
  {
  }

  lemma SubsetSame(a: set<Ref>, b: set<Ref>)
    requires a <= b && |a| == |b|
    ensures a == b
  {
    if a != b {
      var x :| x in b && x !in a;
      SubsetSize(a, b - {x});
    }
  }

  lemma {:induction false} SubsetSize(a: set<Ref>, b: set<Ref>)
    requires a <= b
    ensures |a| <= |b|
    decreases a
  {
    if a != {} {
      var x :| x in a;
      SubsetSize(a - {x}, b - {x});
    }
  }

  /** An injective map has as many values as keys. */
  lemma {:induction false} CountsOf(s: set<Reg>, m: map<Reg, Ref>)
    requires forall r :: r in s ==> r in m
    requires forall q, r :: q in s && r in s && m[q] == m[r] ==> q == r
    ensures |set r: Reg | r in s :: m[r]| == |s|
    decreases s
  {
    if s != {} {
      var r: Reg :| r in s;
      CountsOf(s - {r}, m);
      assert (set q: Reg | q in s :: m[q]) == (set q: Reg | q in s - {r} :: m[q]) + {m[r]};
    }
  }
}
