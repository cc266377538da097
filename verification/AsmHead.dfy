/** The head of a side trace: inherited values are brought from the parent's registers and stack slots. */
module AsmHead {
  import opened AsmMoves

  /** What the allocator leaves when the head is reached: different values are in different places, here and in the
      parent. */
  ghost predicate Ready(a: Alloc, allow: set<Reg>, refs: set<Ref>, parent: map<Ref, Loc>)
  {
    Holding(a, refs) && allow <= RSET_ALL && (forall x {:trigger x in refs} :: x in refs ==> x in parent) &&
    (forall x {:trigger parent[x]} :: x in refs && parent[x].R? ==>
      parent[x].r in RSET_ALL && IsGPR(a.reg[x]) == IsGPR(parent[x].r)) &&
    forall x, y {:trigger parent[x], parent[y]} :: x in refs && y in refs && parent[x].R? && parent[x] == parent[y] ==>
      x == y
  }

  /** The scan has seen some references: those in their own place already are settled. */
  ghost predicate Scanned(a: Alloc, allow: set<Reg>, live: set<Reg>, sloadins: map<Reg, Ref>, parent: map<Ref, Loc>,
                          target: map<Ref, Reg>, refs: set<Ref>, todo: set<Ref>, seen: set<Ref>, pass3: bool)
  {
    todo <= refs && seen <= refs && refs - seen <= todo && Holding(a, todo) &&
      Settled(a, allow, parent, live, refs, todo) &&
    Wanted(parent, live, sloadins, todo) && Brings(a, [], parent, target, refs, todo) &&
    (forall r: Reg {:trigger sloadins[r]} :: r in live ==> sloadins[r] in seen) &&
    (forall x {:trigger x in seen} :: x in seen && x in todo ==> x in parent && (parent[x].Slot? ==> pass3)) &&
    forall x {:trigger x in seen} :: x in seen && x in todo && x in parent && parent[x].R? ==>
      Matched(a, parent, live, sloadins, x)
  }

  lemma ScanStart(a: Alloc, allow: set<Reg>, refs: set<Ref>, parent: map<Ref, Loc>)
    requires Ready(a, allow, refs, parent)
    ensures Scanned(a, allow, {}, map[], parent, a.reg, refs, refs, {}, false)
  {
  }

  /** Scanning reference x, which has a register. */
  lemma ScanNext(a: Alloc, start: Alloc, allow: set<Reg>, allow0: set<Reg>, live: set<Reg>, sloadins: map<Reg, Ref>,
      parent: map<Ref, Loc>,
                 refs: set<Ref>, todo: set<Ref>, seen: set<Ref>, pass3: bool, x: Ref)
    requires Scanned(a, allow, live, sloadins, parent, start.reg, refs, todo, seen, pass3) && x in refs && x !in seen
    requires Ready(start, allow0, refs, parent) && a.reg == start.reg && a.cost == start.cost
    ensures x in parent && x in a.reg
    ensures parent[x] == R(a.reg[x]) ==>
      Scanned(Freed(a, a.reg[x]), allow - {a.reg[x]}, live, sloadins, parent, start.reg, refs, todo - {x}, seen + {x},
        pass3)
    ensures parent[x].Slot? ==>
      Scanned(a, allow - {a.reg[x]}, live, sloadins, parent, start.reg, refs, todo, seen + {x}, true)
    ensures parent[x].R? && parent[x] != R(a.reg[x]) ==>
      Scanned(a, allow - {a.reg[x]}, live + {parent[x].r}, sloadins[parent[x].r := x], parent, start.reg, refs, todo,
        seen + {x}, pass3)
  {
    assert x in todo;
    forall r: Reg | r in live ensures parent[sloadins[r]] == R(r) && sloadins[r] in refs && sloadins[r] != x {}
    if parent[x] == R(a.reg[x]) {
      ScanCoalesce(a, start, allow, allow0, live, sloadins, parent, refs, todo, seen, pass3, x);
    } else if parent[x].R? {
      ScanLive(a, start, allow, allow0, live, sloadins, parent, refs, todo, seen, pass3, x);
    }
  }

  lemma ScanCoalesce(a: Alloc, start: Alloc, allow: set<Reg>, allow0: set<Reg>, live: set<Reg>, sloadins: map<Reg, Ref>,
      parent: map<Ref, Loc>,
                     refs: set<Ref>, todo: set<Ref>, seen: set<Ref>, pass3: bool, x: Ref)
    requires Scanned(a, allow, live, sloadins, parent, start.reg, refs, todo, seen, pass3) && x in refs && x !in seen &&
      x in todo
    requires Ready(start, allow0, refs, parent) && a.reg == start.reg && a.cost == start.cost
    requires x in parent && x in a.reg && parent[x] == R(a.reg[x])
    requires forall r: Reg | r in live :: parent[sloadins[r]] == R(r) && sloadins[r] in refs && sloadins[r] != x
    ensures Scanned(Freed(a, a.reg[x]), allow - {a.reg[x]}, live, sloadins, parent, start.reg, refs, todo - {x},
      seen + {x}, pass3)
  {
    var b := Freed(a, a.reg[x]);
    assert a.reg[x] !in live;
    forall y | y in refs && y !in todo - {x} ensures y in parent &&
      (parent[y].R? ==> parent[y].r in b.free && parent[y].r !in allow - {a.reg[x]} && parent[y].r !in live) {}
    assert Settled(b, allow - {a.reg[x]}, parent, live, refs, todo - {x});
    assert Holding(b, todo - {x});
    assert Brings(b, [], parent, start.reg, refs, todo - {x});
  }

  lemma ScanLive(a: Alloc, start: Alloc, allow: set<Reg>, allow0: set<Reg>, live: set<Reg>, sloadins: map<Reg, Ref>,
      parent: map<Ref, Loc>,
                 refs: set<Ref>, todo: set<Ref>, seen: set<Ref>, pass3: bool, x: Ref)
    requires Scanned(a, allow, live, sloadins, parent, start.reg, refs, todo, seen, pass3) && x in refs && x !in seen &&
      x in todo
    requires Ready(start, allow0, refs, parent) && a.reg == start.reg && a.cost == start.cost
    requires x in parent && x in a.reg && parent[x].R? && parent[x] != R(a.reg[x])
    requires forall r: Reg | r in live :: parent[sloadins[r]] == R(r) && sloadins[r] in refs && sloadins[r] != x
    ensures Scanned(a, allow - {a.reg[x]}, live + {parent[x].r}, sloadins[parent[x].r := x], parent, start.reg, refs,
      todo, seen + {x}, pass3)
  {
    var live', s' := live + {parent[x].r}, sloadins[parent[x].r := x];
    assert parent[x].r !in live;
    assert Settled(a, allow - {a.reg[x]}, parent, live', refs, todo);
    assert Wanted(parent, live', s', todo);
    forall y | y in seen + {x} && y in todo && y in parent && parent[y].R? ensures Matched(a, parent, live', s', y) {
      if y != x { assert Matched(a, parent, live, sloadins, y); }
    }
  }

  // ---- Reloading from the parent's stack slots -----------------------------------------------------

  /** Between the passes: some references may still come from stack slots. */
  ghost predicate Loading(a: Alloc, allow: set<Reg>, live: set<Reg>, sloadins: map<Reg, Ref>, code: seq<Ins>,
      parent: map<Ref, Loc>,
                          target: map<Ref, Reg>, refs: set<Ref>, todo: set<Ref>)
  {
    todo <= refs && Holding(a, todo) && Settled(a, allow, parent, live, refs, todo) &&
      Wanted(parent, live, sloadins, todo) &&
    Brings(a, code, parent, target, refs, todo) &&
    forall x {:trigger x in todo} :: x in todo && x in parent && parent[x].R? ==> Matched(a, parent, live, sloadins, x)
  }

  lemma ScanDone(a: Alloc, allow: set<Reg>, live: set<Reg>, sloadins: map<Reg, Ref>, parent: map<Ref, Loc>,
                 target: map<Ref, Reg>, refs: set<Ref>, todo: set<Ref>, pass3: bool)
    requires Scanned(a, allow, live, sloadins, parent, target, refs, todo, refs, pass3)
    ensures Loading(a, allow, live, sloadins, [], parent, target, refs, todo)
    ensures !pass3 ==> Inv(a, allow, live, sloadins, [], parent, target, refs, todo)
  {
    forall x | x in todo ensures x in refs && x in parent {}
  }

  lemma LoadNext(a: Alloc, allow: set<Reg>, live: set<Reg>, sloadins: map<Reg, Ref>, code: seq<Ins>, parent: map<Ref,
      Loc>,
                 target: map<Ref, Reg>, refs: set<Ref>, todo: set<Ref>, r: Reg)
    requires Loading(a, allow, live, sloadins, code, parent, target, refs, todo) && r in RSET_ALL && r !in a.free
    ensures r in a.cost && a.cost[r] in todo && a.cost[r] in parent
    ensures var x := a.cost[r]; parent[x].Slot? ==>
      Loading(Freed(a, r), allow, live, sloadins, [Load(r, parent[x].s)] + code, parent, target, refs, todo - {x})
  {
    assert r in a.cost;
    var x := a.cost[r];
    assert x in refs;
    if parent[x].Slot? {
      var i := Load(r, parent[x].s);
      forall y | y in refs ensures Source([i] + code, R(target[y])) == (if y in todo && y != x then R(a.reg[y])
        else parent[y]) {
        SourceFirst(i, code, R(target[y]));
        if y in todo && y != x { assert a.cost[a.reg[y]] == y; }
      }
      forall q: Reg | q in live ensures sloadins[q] != x { assert parent[sloadins[q]] == R(q); }
    }
  }

  lemma LoadDone(a: Alloc, allow: set<Reg>, live: set<Reg>, sloadins: map<Reg, Ref>, code: seq<Ins>, parent: map<Ref,
      Loc>,
                 target: map<Ref, Reg>, refs: set<Ref>, todo: set<Ref>)
    requires Loading(a, allow, live, sloadins, code, parent, target, refs, todo)
    requires forall r: Reg :: r in RSET_ALL && r !in a.free ==>
      r in a.cost && a.cost[r] in parent && parent[a.cost[r]].R?
    ensures Inv(a, allow, live, sloadins, code, parent, target, refs, todo)
  {
    forall x | x in todo ensures x in parent && parent[x].R? {
      assert a.cost[a.reg[x]] == x;
    }
  }

  /** At the end each value is brought from its own place. */
  lemma AllSettled(a: Alloc, allow: set<Reg>, sloadins: map<Reg, Ref>, code: seq<Ins>, parent: map<Ref, Loc>,
                   target: map<Ref, Reg>, refs: set<Ref>, todo: set<Ref>, x: Ref)
    requires Inv(a, allow, {}, sloadins, code, parent, target, refs, todo) && x in refs
    ensures x in target && x in parent && Source(code, R(target[x])) == parent[x]
  {
    assert x !in todo;
  }

  lemma {:induction false} SlotsKept(code: seq<Ins>, f: File, s: nat)
    ensures Run(code, f)(Slot(s)) == f(Slot(s))
  {
    if code != [] { SlotsKept(code[1..], Do(code[0], f), s); }
  }

  /**
   The head performs the parallel copy: whatever the registers and stack slots hold in the parent, after the code
   every inherited value is in the register that the side trace expects it in, and the slots are as they were.
   */
  lemma ParallelCopy(code: seq<Ins>, parent: map<Ref, Loc>, target: map<Ref, Reg>, refs: set<Ref>, f: File, x: Ref)
    requires forall y {:trigger y in refs} :: y in refs ==>
      y in target && y in parent && Source(code, R(target[y])) == parent[y]
    requires x in refs
    ensures Run(code, f)(R(target[x])) == f(parent[x])
    ensures forall s: nat :: Run(code, f)(Slot(s)) == f(Slot(s))
  {
    RunSource(code, f, R(target[x]));
    forall s: nat ensures Run(code, f)(Slot(s)) == f(Slot(s)) {
      SlotsKept(code, f, s);
    }
  }

  class Assembler {
    const parent: map<Ref, Loc>
    var freeset: set<Reg>
    var modset: set<Reg>
    var weakset: set<Reg>
    var cost: map<Reg, Ref>
    var reg: map<Ref, Reg>
    var code: seq<Ins>
    var renames: seq<(Ref, Reg)>

    constructor (parent: map<Ref, Loc>, free: set<Reg>, cost: map<Reg, Ref>, reg: map<Ref, Reg>)
      ensures this.parent == parent && A() == Alloc(free, cost, reg) && code == []
    {
      this.parent := parent;
      freeset, modset, weakset, this.cost, this.reg, code, renames := free, {}, {}, cost, reg, [], [];
    }

    ghost function A(): Alloc
      reads this
    {
      Alloc(freeset, cost, reg)
    }

    /** Code is emitted backwards: each instruction comes before those emitted so far. */
    method EmitMove(dst: Reg, src: Reg)
      modifies this`code
      ensures code == [Move(dst, src)] + old(code)
    {
      code := [Move(dst, src)] + code;
    }

    method EmitLoad(dst: Reg, s: nat)
      modifies this`code
      ensures code == [Load(dst, s)] + old(code)
    {
      code := [Load(dst, s)] + code;
    }

    method PickBot(s: set<Reg>) returns (r: Reg)
      requires s != {}
      ensures r in s && forall q :: q in s ==> r <= q
    {
      r := 0;
      var some: Reg :| some in s;
      while r !in s
        invariant r <= some && forall q :: q in s ==> r <= q
        decreases 32 - r
      {
        r := r + 1;
      }
    }

    /** Rename register allocation and emit the inverse move. */
    method RaRename(down: Reg, up: Reg)
      requires down in cost && down !in freeset && up in freeset
      modifies this`freeset, this`modset, this`weakset, this`cost, this`reg, this`code, this`renames
      ensures A() == Renamed(old(A()), down, up) && code == [Move(down, up)] + old(code)
      ensures renames == old(renames) + [(old(cost[down]), down)] && modset == old(modset) + {down} &&
        weakset == old(weakset) - {up}
    {
      var ref := cost[down];
      reg := reg[ref := up];
      cost := (cost - {down})[up := ref];
      freeset := freeset + {down};
      modset := modset + {down};
      freeset := freeset - {up};
      weakset := weakset - {up};
      EmitMove(down, up);
      renames := renames + [(ref, down)];
    }

    /** Scan all inherited references, from the last one down, and collect register dependencies. */
    method Scan(refs: seq<Ref>, allow0: set<Reg>)
        returns (allow: set<Reg>, live: set<Reg>, sloadins: map<Reg, Ref>, pass3: bool, ghost todo: set<Ref>)
      requires Ready(A(), allow0, RegRefs(refs, reg), parent) &&
        (forall i, j :: 0 <= i < j < |refs| ==> refs[i] != refs[j])
      modifies this`freeset
      ensures Scanned(A(), allow, live, sloadins, parent, old(reg), RegRefs(refs, reg), todo, RegRefs(refs, reg), pass3)
    {
      hide *;
      ghost var all, start := RegRefs(refs, reg), A();
      allow, live, sloadins, pass3, todo := allow0, {}, map[], false, all;
      ScanStart(start, allow0, all, parent);
      ghost var seen: set<Ref> := {};
      RegRefsUpTo(refs, reg);
      AIs();
      var i := 0;
      while i < |refs|
        invariant i <= |refs| && seen == RegRefs(refs[..i], reg) && A().reg == start.reg && A().cost == start.cost
        invariant Scanned(A(), allow, live, sloadins, parent, start.reg, all, todo, seen, pass3)
      {
        AIs();
        var x := refs[i];
        RegRefsNext(refs, reg, i);
        if x in reg {
          ScanNext(A(), start, allow, allow0, live, sloadins, parent, all, todo, seen, pass3, x);
          allow := allow - {reg[x]};
          var rs := parent[x];
          if rs == R(reg[x]) {
            FreedIs(A(), reg[x]);
            freeset := freeset + {reg[x]};
            todo := todo - {x};
          } else if rs.Slot? {
            pass3 := true;
          } else {
            sloadins, live := sloadins[rs.r := x], live + {rs.r};
          }
          seen := seen + {x};
          AIs();
        }
        i := i + 1;
      }
      assert refs[..i] == refs;
    }

    lemma AIs()
      ensures A() == Alloc(freeset, cost, reg)
    {
    }

    static lemma FreedIs(a: Alloc, r: Reg)
      ensures Freed(a, r) == Alloc(a.free + {r}, a.cost, a.reg)
    {
    }

    static lemma RegRefsUpTo(refs: seq<Ref>, reg: map<Ref, Reg>)
      ensures RegRefs(refs[..0], reg) == {} && refs[..|refs|] == refs
    {
    }

    static lemma RegRefsNext(refs: seq<Ref>, reg: map<Ref, Reg>, i: nat)
      requires i < |refs| && forall i, j :: 0 <= i < j < |refs| ==> refs[i] != refs[j]
      ensures RegRefs(refs[..i + 1], reg) == RegRefs(refs[..i], reg) + (if refs[i] in reg then {refs[i]} else {})
      ensures refs[i] !in RegRefs(refs[..i], reg) && (refs[i] in reg ==> refs[i] in RegRefs(refs, reg))
    {
      assert forall x :: x in refs[..i + 1] <==> x in refs[..i] || x == refs[i];
    }

    /** Restore registers from parent spill slots. */
    method LoadSpilled(allow: set<Reg>, live: set<Reg>, sloadins: map<Reg, Ref>, ghost target: map<Ref, Reg>,
        ghost refs: set<Ref>, ghost todo: set<Ref>)
      returns (ghost todo': set<Ref>)
      requires Loading(A(), allow, live, sloadins, code, parent, target, refs, todo)
      modifies this`freeset, this`code
      ensures Inv(A(), allow, live, sloadins, code, parent, target, refs, todo')
    {
      hide *;
      todo' := todo;
      AllRegs();
      var work: set<Reg> := (set r: Reg | 0 <= r < 32 && r in RSET_ALL) - freeset;
      AIs();
      while work != {}
        invariant Loading(A(), allow, live, sloadins, code, parent, target, refs, todo')
        invariant forall r: Reg :: r in RSET_ALL && r !in A().free && r !in work ==>
          r in A().cost && A().cost[r] in parent && parent[A().cost[r]].R?
        invariant work <= RSET_ALL && work !! freeset
        decreases |work|
      {
        AIs();
        var r := PickBot(work);
        LoadNext(A(), allow, live, sloadins, code, parent, target, refs, todo', r);
        FreedIs(A(), r);
        var ref := cost[r];
        var rs := parent[ref];
        work := work - {r};
        if rs.Slot? {
          freeset := freeset + {r};
          EmitLoad(r, rs.s);
          todo' := todo' - {ref};
        }
        AIs();
      }
      LoadDone(A(), allow, live, sloadins, code, parent, target, refs, todo');
    }

    static lemma AllRegs()
      ensures (set r: Reg | 0 <= r < 32 && r in RSET_ALL) == RSET_ALL
    {
    }

    /** Coalesce live registers that are free, by moving them to their targets. */
    method Coalesce(allow: set<Reg>, live: set<Reg>, sloadins: map<Reg, Ref>, ghost target: map<Ref, Reg>,
        ghost refs: set<Ref>, ghost todo: set<Ref>)
      returns (allow': set<Reg>, live': set<Reg>, ghost todo': set<Ref>)
      requires Inv(A(), allow, live, sloadins, code, parent, target, refs, todo)
      modifies this`freeset, this`code
      ensures Inv(A(), allow', live', sloadins, code, parent, target, refs, todo') && freeset * live' == {}
      ensures live' <= live && allow' <= allow && (old(freeset) * live != {} ==> |live'| < |live|) && |live'| <= |live|
    {
      hide *;
      allow', live', todo' := allow, live, todo;
      AIs();
      while freeset * live' != {}
        invariant Inv(A(), allow', live', sloadins, code, parent, target, refs, todo') && live' <= live &&
          allow' <= allow
        invariant |live'| <= |live| && (|live'| == |live| ==> live' == live && freeset == old(freeset))
        decreases |live'|
      {
        AIs();
        var rp := PickBot(freeset * live');
        MatchKeeps(A(), allow', live', sloadins, code, parent, target, refs, todo', rp);
        var ref := sloadins[rp];
        FreedIs(A(), reg[ref]);
        live', allow' := live' - {rp}, allow' - {rp};
        freeset := freeset + {reg[ref]};
        EmitMove(reg[ref], rp);
        todo' := todo' - {ref};
        AIs();
      }
    }

    /** Break a cycle among registers of one class by renaming a target to a free register, if there is one. */
    method BreakCycle(cls: set<Reg>, allow: set<Reg>, live: set<Reg>, sloadins: map<Reg, Ref>, ghost target: map<Ref,
        Reg>, ghost refs: set<Ref>, ghost todo: set<Ref>)
      returns (ok: bool)
      requires Inv(A(), allow, live, sloadins, code, parent, target, refs, todo) && live * cls != {} &&
        freeset * live * cls == {}
      requires cls == RSET_GPR || cls == RSET_FPR
      modifies this`freeset, this`modset, this`weakset, this`cost, this`reg, this`code, this`renames
      ensures ok <==> (old(freeset) - live) * allow * cls != {}
      ensures ok ==> Inv(A(), allow, live, sloadins, code, parent, target, refs, todo) && freeset * live * cls != {}
      ensures ok ==> forall r :: r in live && r !in cls ==> (r in freeset <==> r in old(freeset))
      ensures !ok ==> A() == old(A()) && code == old(code) && freeset == old(freeset)
    {
      hide *;
      AIs();
      var tmpset := (freeset - live) * allow * cls;
      if tmpset == {} {
        return false;
      }
      var down := PickBot(live * cls);
      var up := PickBot(tmpset);
      ClassIs(cls, down, up);
      assert down !in freeset * live * cls;
      HeldAt(A(), allow, live, sloadins, code, parent, target, refs, todo, down);
      RenameKeeps(A(), allow, live, sloadins, code, parent, target, refs, todo, down, up);
      RenamedFree(A(), down, up);
      RaRename(down, up);
      AIs();
      ok := true;
      assert down in freeset * live * cls;
    }

    static lemma HeldAt(a: Alloc, allow: set<Reg>, live: set<Reg>, sloadins: map<Reg, Ref>, code: seq<Ins>,
        parent: map<Ref, Loc>,
                        target: map<Ref, Reg>, refs: set<Ref>, todo: set<Ref>, r: Reg)
      requires Inv(a, allow, live, sloadins, code, parent, target, refs, todo) && r in live && r !in a.free
      ensures r in a.cost
    {
      assert r in RSET_ALL;
    }

    static lemma ClassIs(cls: set<Reg>, down: Reg, up: Reg)
      requires (cls == RSET_GPR || cls == RSET_FPR) && down in cls && up in cls
      ensures IsGPR(down) == IsGPR(up) && up in RSET_ALL
    {
    }

    static lemma RenamedFree(a: Alloc, down: Reg, up: Reg)
      requires down in a.cost
      ensures Renamed(a, down, up).free == (a.free + {down}) - {up}
    {
    }

    static lemma Classes(live: set<Reg>)
      ensures RSET_GPR !! RSET_FPR && RSET_ALL == RSET_GPR + RSET_FPR
      ensures live <= RSET_ALL ==> live == live * RSET_GPR + live * RSET_FPR
    {
    }

    static lemma LiveInAll(a: Alloc, allow: set<Reg>, live: set<Reg>, sloadins: map<Reg, Ref>, code: seq<Ins>,
        parent: map<Ref, Loc>,
                           target: map<Ref, Reg>, refs: set<Ref>, todo: set<Ref>)
      requires Inv(a, allow, live, sloadins, code, parent, target, refs, todo)
      ensures live <= RSET_ALL
    {
    }

    /** Shuffle registers to match up target registers with parent registers; false is the error that coalescing is too
        complex. */
    method Shuffle(allow0: set<Reg>, live0: set<Reg>, sloadins: map<Reg, Ref>, ghost target: map<Ref, Reg>,
        ghost refs: set<Ref>, ghost todo0: set<Ref>)
      returns (ok: bool, ghost allow: set<Reg>, ghost live: set<Reg>, ghost todo: set<Ref>)
      requires Inv(A(), allow0, live0, sloadins, code, parent, target, refs, todo0)
      modifies this`freeset, this`modset, this`weakset, this`cost, this`reg, this`code, this`renames
      ensures Inv(A(), allow, live, sloadins, code, parent, target, refs, todo)
      ensures ok ==> live == {}
      ensures !ok ==> Stuck(RSET_GPR, freeset, live, allow) || Stuck(RSET_FPR, freeset, live, allow)
    {
      hide *;
      var al: set<Reg>, li: set<Reg> := allow0, live0;
      ghost var td: set<Ref> := todo0;
      while true
        invariant Inv(A(), al, li, sloadins, code, parent, target, refs, td)
        decreases |li|, if freeset * li == {} then 1 else 0
      {
        al, li, td := Coalesce(al, li, sloadins, target, refs, td);
        if li == {} {
          return true, al, li, td;
        }
        var done := BreakCycles(al, li, sloadins, target, refs, td);
        if !done {
          return false, al, li, td;
        }
      }
    }

    /** No live register is free: break the cycles, in each class that has one. */
    method BreakCycles(allow: set<Reg>, live: set<Reg>, sloadins: map<Reg, Ref>, ghost target: map<Ref, Reg>,
        ghost refs: set<Ref>, ghost todo: set<Ref>)
      returns (ok: bool)
      requires Inv(A(), allow, live, sloadins, code, parent, target, refs, todo) && live != {} && freeset * live == {}
      modifies this`freeset, this`modset, this`weakset, this`cost, this`reg, this`code, this`renames
      ensures Inv(A(), allow, live, sloadins, code, parent, target, refs, todo)
      ensures forall x {:trigger x in todo} :: x in todo ==> x in old(reg) && old(reg)[x] in live
      ensures ok ==> freeset * live != {}
      ensures !ok ==> Stuck(RSET_GPR, freeset, live, allow) || Stuck(RSET_FPR, freeset, live, allow)
    {
      hide *;
      LiveInAll(A(), allow, live, sloadins, code, parent, target, refs, todo);
      Classes(live);
      AIs();
      OnlyCycles(A(), allow, live, sloadins, code, parent, target, refs, todo);
      NoneFree(freeset, live);
      if live * RSET_GPR != {} {
        ok := BreakCycle(RSET_GPR, allow, live, sloadins, target, refs, todo);
        if !ok {
          StuckIs(RSET_GPR, freeset, live, allow);
          return;
        }
      }
      if live * RSET_FPR != {} {
        NoneFreeStill(old(freeset), freeset, live);
        ok := BreakCycle(RSET_FPR, allow, live, sloadins, target, refs, todo);
        if !ok {
          StuckIs(RSET_FPR, freeset, live, allow);
          return;
        }
      }
      SomeFree(freeset, live);
      ok := true;
    }

    static lemma NoneFree(free: set<Reg>, live: set<Reg>)
      requires free * live == {}
      ensures free * live * RSET_GPR == {} && free * live * RSET_FPR == {}
    {
    }

    static lemma NoneFreeStill(free0: set<Reg>, free: set<Reg>, live: set<Reg>)
      requires free0 * live == {} && forall r :: r in live && r !in RSET_GPR ==> (r in free <==> r in free0)
      ensures free * live * RSET_FPR == {}
    {
      Classes(live);
      assert forall r :: r in free * live * RSET_FPR ==> r in free0 * live;
    }

    static lemma SomeFree(free: set<Reg>, live: set<Reg>)
      requires free * live * RSET_GPR != {} || free * live * RSET_FPR != {}
      ensures free * live != {}
    {
    }

    /** Live registers of a class all wait for one another, and no register of the class can be borrowed. */
    static ghost predicate Stuck(cls: set<Reg>, free: set<Reg>, live: set<Reg>, allow: set<Reg>)
    {
      live * cls != {} && free * live * cls == {} && (free - live) * allow * cls == {}
    }

    static lemma StuckIs(cls: set<Reg>, free: set<Reg>, live: set<Reg>, allow: set<Reg>)
      requires live * cls != {} && free * live * cls == {} && (free - live) * allow * cls == {}
      ensures Stuck(cls, free, live, allow)
    {
    }

    /** asm_head_side for references without spill slots of their own. */
    method HeadSide(refs: seq<Ref>, allow0: set<Reg>) returns (ok: bool, ghost allow: set<Reg>, ghost live: set<Reg>)
      requires Ready(A(), allow0, RegRefs(refs, reg), parent) &&
        (forall i, j :: 0 <= i < j < |refs| ==> refs[i] != refs[j]) && code == []
      modifies this
      ensures ok ==> forall x {:trigger x in RegRefs(refs, old(reg))} :: x in RegRefs(refs, old(reg)) ==>
        x in old(reg) && x in parent && Source(code, R(old(reg)[x])) == parent[x]
      ensures !ok ==> Stuck(RSET_GPR, freeset, live, allow) || Stuck(RSET_FPR, freeset, live, allow)
    {
      hide *;
      ghost var target, all := reg, RegRefs(refs, reg);
      var al, li, sloadins, pass3;
      ghost var todo;
      al, li, sloadins, pass3, todo := Scan(refs, allow0);
      ScanDone(A(), al, li, sloadins, parent, target, all, todo, pass3);
      if pass3 {
        todo := LoadSpilled(al, li, sloadins, target, all, todo);
      }
      ok, allow, live, todo := Shuffle(al, li, sloadins, target, all, todo);
      if ok {
        forall x | x in all ensures x in target && x in parent && Source(code, R(target[x])) == parent[x] {
          AllSettled(A(), allow, sloadins, code, parent, target, all, todo, x);
        }
      }
    }
  }

  /** The references that are in registers. */
  function RegRefs(refs: seq<Ref>, reg: map<Ref, Reg>): set<Ref>
  {
    set x | x in refs && x in reg
  }
}
