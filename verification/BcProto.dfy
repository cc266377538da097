/** Prototypes of a bytecode dump: the format, and that loading undoes dumping. */
module BcProto {
  import opened BcWords
  import opened BcConst

  /** A bytecode instruction, byte by byte. */
  datatype Ins = Ins(op: byte, a: byte, c: byte, b: byte)

  /** A garbage collected constant of a prototype; T is the type of its template tables. */
  datatype Gc<T> = KStr(s: seq<byte>) | KChild(p: Proto<T>) | KTab(t: T) | KI64(n: Num) | KU64(n: Num)
      | KComplex(re: Num, im: Num)

  /** A prototype; bc[0] is the function header, and info all its debug bytes, if any. */
  datatype Proto<T> = Proto(flags: byte, numparams: byte, framesize: byte, uv: seq<u16>, kgc: seq<Gc<T>>,
      knum: seq<Num>,
                            bc: seq<Ins>, firstline: u32, numline: u32, info: seq<byte>, trace: nat)

  const PROTO_ILOOP: nat := 16

  const BC_JFORI: nat := 74
  const BC_IFORL: nat := 76
  const BC_JFORL: nat := 77
  const BC_IITERL: nat := 79
  const BC_JITERL: nat := 80
  const BC_ILOOP: nat := 82
  const BC_JLOOP: nat := 83
  const BC_FUNCF: byte := 85
  const BC_FUNCV: byte := 88

  const KGC_CHILD: nat := 0
  const KGC_TAB: nat := 1
  const KGC_I64: nat := 2
  const KGC_U64: nat := 3
  const KGC_COMPLEX: nat := 4
  const KGC_STR: nat := 5

  predicate HasChildren(flags: byte)
  {
    flags % 2 == 1
  }

  predicate IsVararg(flags: byte)
  {
    flags / 2 % 2 == 1
  }

  // ---- Instructions ------------------------------------------------------------------

  /** Loops that the JIT compiler has patched become plain loops again; starts are the instructions its traces
      replaced. */
  function Unpatch(i: Ins, starts: seq<Ins>): Ins
  {
    if i.op == BC_IFORL || i.op == BC_IITERL || i.op == BC_ILOOP || i.op == BC_JFORI then i.(op := i.op - 1)
    else if (i.op == BC_JFORL || i.op == BC_JITERL || i.op == BC_JLOOP) then
      var rd := TraceOf(i);
      if rd < |starts| then Ins(i.op - 2, i.a, starts[rd].c, starts[rd].b) else i
    else i
  }

  function TraceOf(i: Ins): nat
  {
    var hi: nat := i.b;
    i.c + 256 * hi
  }

  predicate IsPatched<T>(p: Proto<T>)
  {
    p.flags / PROTO_ILOOP % 2 == 1 || p.trace != 0
  }

  predicate PatchedOp(op: byte)
  {
    op == BC_IFORL || op == BC_IITERL || op == BC_ILOOP || op == BC_JFORI || op == BC_JFORL || op == BC_JITERL ||
      op == BC_JLOOP
  }

  /** The instructions after the header as they are written. */
  function Code<T>(p: Proto<T>, starts: seq<Ins>): (r: seq<Ins>)
    requires p.bc != []
    ensures |r| == |p.bc| - 1
  {
    if IsPatched(p) then seq(|p.bc| - 1, i requires 0 <= i < |p.bc| - 1 => Unpatch(p.bc[i + 1], starts)) else p.bc[1..]
  }

  /** No patched loop is written, when the traces that patched them are known. */
  lemma CodeIsPlain<T>(p: Proto<T>, starts: seq<Ins>, i: nat)
    requires i + 1 < |p.bc| && IsPatched(p)
    requires PatchedOp(p.bc[i + 1].op) && p.bc[i + 1].op in {BC_JFORL, BC_JITERL, BC_JLOOP} ==>
      TraceOf(p.bc[i + 1]) < |starts|
    ensures !PatchedOp(Code(p, starts)[i].op)
  {
    assert Code(p, starts)[i] == Unpatch(p.bc[i + 1], starts);
  }

  function InsBytes(c: seq<Ins>): (r: seq<byte>)
    ensures |r| == 4 * |c|
  {
    if c == [] then [] else [c[0].op, c[0].a, c[0].c, c[0].b] + InsBytes(c[1..])
  }

  function ReadIns(s: seq<byte>, n: nat): Res<seq<Ins>>
    decreases n
  {
    if n == 0 then Got([], s)
    else if |s| < 4 then Bad(PastEnd)
    else
      match ReadIns(s[4..], n - 1)
      case Bad(e) => Bad(e)
      case Got(c, r) => Got([Ins(s[0], s[1], s[2], s[3])] + c, r)
  }

  lemma Behind(h: seq<byte>, t: seq<byte>, rest: seq<byte>)
    ensures (h + t) + rest == h + (t + rest) && (h + (t + rest))[|h|..] == t + rest
    ensures forall i :: 0 <= i < |h| ==> ((h + t) + rest)[i] == h[i]
  {
  }

  lemma InsFirst(c: seq<Ins>, rest: seq<byte>)
    requires c != []
    ensures var s := InsBytes(c) + rest;
      |s| >= 4 && Ins(s[0], s[1], s[2], s[3]) == c[0] && s[4..] == InsBytes(c[1..]) + rest
  {
    var h := [c[0].op, c[0].a, c[0].c, c[0].b];
    assert InsBytes(c) == h + InsBytes(c[1..]);
    hide *;
    Behind(h, InsBytes(c[1..]), rest);
  }

  lemma ReadInsFirst(s: seq<byte>, n: nat)
    requires n > 0 && |s| >= 4 && ReadIns(s[4..], n - 1).Got?
    ensures var t := ReadIns(s[4..], n - 1); ReadIns(s, n) == Got([Ins(s[0], s[1], s[2], s[3])] + t.v, t.rest)
  {
  }

  lemma {:induction false} InsBack(c: seq<Ins>, rest: seq<byte>)
    ensures ReadIns(InsBytes(c) + rest, |c|) == Got(c, rest)
  {
    if c == [] {
      assert InsBytes(c) + rest == rest;
    } else {
      InsBack(c[1..], rest);
      hide InsBytes, ReadIns;
      InsFirst(c, rest);
      ReadInsFirst(InsBytes(c) + rest, |c|);
      assert [c[0]] + c[1..] == c;
    }
  }

  function UvBytes(uv: seq<u16>): (r: seq<byte>)
    ensures |r| == 2 * |uv|
  {
    if uv == [] then [] else [uv[0] % 256, uv[0] / 256] + UvBytes(uv[1..])
  }

  function ReadUv(s: seq<byte>, n: nat): Res<seq<u16>>
    decreases n
  {
    if n == 0 then Got([], s)
    else if |s| < 2 then Bad(PastEnd)
    else
      match ReadUv(s[2..], n - 1)
      case Bad(e) => Bad(e)
      case Got(u, r) => Got([Word16(s[0], s[1])] + u, r)
  }

  function Word16(lo: byte, hi: byte): u16
  {
    var h: nat := hi;
    lo + 256 * h
  }

  lemma UvFirst(uv: seq<u16>, rest: seq<byte>)
    requires uv != []
    ensures var s := UvBytes(uv) + rest; |s| >= 2 && Word16(s[0], s[1]) == uv[0] && s[2..] == UvBytes(uv[1..]) + rest
  {
    var h := [uv[0] % 256, uv[0] / 256];
    assert UvBytes(uv) == h + UvBytes(uv[1..]);
    assert Word16(uv[0] % 256, uv[0] / 256) == uv[0];
    hide *;
    Behind(h, UvBytes(uv[1..]), rest);
  }

  lemma ReadUvFirst(s: seq<byte>, n: nat)
    requires n > 0 && |s| >= 2 && ReadUv(s[2..], n - 1).Got?
    ensures var t := ReadUv(s[2..], n - 1); ReadUv(s, n) == Got([Word16(s[0], s[1])] + t.v, t.rest)
  {
  }

  lemma {:induction false} UvBack(uv: seq<u16>, rest: seq<byte>)
    ensures ReadUv(UvBytes(uv) + rest, |uv|) == Got(uv, rest)
  {
    if uv == [] {
      assert UvBytes(uv) + rest == rest;
    } else {
      UvBack(uv[1..], rest);
      hide *;
      UvFirst(uv, rest);
      ReadUvFirst(UvBytes(uv) + rest, |uv|);
      assert [uv[0]] + uv[1..] == uv;
    }
  }

  // ---- Number constants ------------------------------------------------------------------

  function KnumBytes(n: Num): seq<byte>
  {
    if Narrow(n).Some? then Uleb(2 * ToWord(Narrow(n).value)) else Uleb(2 * n.lo + 1) + Uleb(n.hi)
  }

  function KnumsBytes(k: seq<Num>): seq<byte>
  {
    if k == [] then [] else KnumBytes(k[0]) + KnumsBytes(k[1..])
  }

  function ReadKnum(s: seq<byte>): Res<Num>
  {
    if s == [] then Bad(PastEnd)
    else
      match ReadUleb33(s)
      case Bad(e) => Bad(e)
      case Got(lo, r) =>
        if s[0] % 2 == 1 then
          match ReadUleb(r)
          case Bad(e) => Bad(e)
          case Got(hi, r') => Got(Num(lo, hi), r')
        else Got(ToDouble(FromWord(lo)), r)
  }

  function ReadKnums(s: seq<byte>, n: nat): Res<seq<Num>>
    decreases n
  {
    if n == 0 then Got([], s)
    else
      match ReadKnum(s)
      case Bad(e) => Bad(e)
      case Got(k, r) =>
        match ReadKnums(r, n - 1)
        case Bad(e) => Bad(e)
        case Got(ks, r') => Got([k] + ks, r')
  }

  lemma KnumBack(n: Num, rest: seq<byte>)
    ensures ReadKnum(KnumBytes(n) + rest) == Got(Canonical(n), rest)
  {
    hide Uleb, ReadUleb, ReadUleb33, ToDouble, Narrow;
    if Narrow(n).Some? {
      Uleb33Back(ToWord(Narrow(n).value), 0, rest);
      Narrowed(n);
    } else {
      assert KnumBytes(n) + rest == Uleb(2 * n.lo + 1) + (Uleb(n.hi) + rest);
      Uleb33Back(n.lo, 1, Uleb(n.hi) + rest);
      UlebBack(n.hi, rest);
      NarrowIff(n, 0);
    }
  }

  function Canonicals(k: seq<Num>): (r: seq<Num>)
    ensures |r| == |k|
  {
    seq(|k|, i requires 0 <= i < |k| => Canonical(k[i]))
  }

  lemma {:induction false} KnumsBack(k: seq<Num>, rest: seq<byte>)
    ensures ReadKnums(KnumsBytes(k) + rest, |k|) == Got(Canonicals(k), rest)
  {
    hide KnumBytes, ReadKnum, Canonical;
    if k == [] {
      assert KnumsBytes(k) + rest == rest;
    } else {
      assert KnumsBytes(k) + rest == KnumBytes(k[0]) + (KnumsBytes(k[1..]) + rest);
      KnumBack(k[0], KnumsBytes(k[1..]) + rest);
      KnumsBack(k[1..], rest);
      assert [Canonical(k[0])] + Canonicals(k[1..]) == Canonicals(k);
    }
  }

  // ---- Garbage collected constants ----------------------------------------------------------

  function GcBytes(k: Gc<Tab>): seq<byte>
  {
    match k
    case KStr(s) => Uleb(KGC_STR + |s|) + s
    case KChild(_) => Uleb(KGC_CHILD)
    case KTab(t) => Uleb(KGC_TAB) + TabBytes(t)
    case KI64(n) => Uleb(KGC_I64) + NumBytes(n)
    case KU64(n) => Uleb(KGC_U64) + NumBytes(n)
    case KComplex(re, im) => Uleb(KGC_COMPLEX) + NumBytes(re) + NumBytes(im)
  }

  function GcsBytes(k: seq<Gc<Tab>>): seq<byte>
  {
    if k == [] then [] else GcBytes(k[0]) + GcsBytes(k[1..])
  }

  /** The prototypes that are loaded but not yet in place. */
  type Stack = seq<Proto<Template>>

  datatype GcRes = GotGc(k: Gc<Template>, stack: Stack, rest: seq<byte>) | BadGc(e: Error)

  datatype GcsRes = GotGcs(k: seq<Gc<Template>>, stack: Stack, rest: seq<byte>) | BadGcs(e: Error)

  function ReadGc(s: seq<byte>, stack: Stack): GcRes
  {
    match ReadUleb(s)
    case Bad(e) => BadGc(e)
    case Got(tp, r) =>
      if tp >= KGC_STR then
        match ReadBlock(r, tp - KGC_STR)
        case Bad(e) => BadGc(e)
        case Got(b, r') => GotGc(KStr(b), stack, r')
      else if tp == KGC_TAB then
        match ReadTab(r)
        case Bad(e) => BadGc(e)
        case Got(t, r') => GotGc(KTab(t), stack, r')
      else if tp != KGC_CHILD then
        match ReadNum(r)
        case Bad(e) => BadGc(e)
        case Got(n, r') =>
          if tp == KGC_COMPLEX then
            match ReadNum(r')
            case Bad(e) => BadGc(e)
            case Got(m, r'') => GotGc(KComplex(n, m), stack, r'')
          else GotGc(if tp == KGC_I64 then KI64(n) else KU64(n), stack, r')
      else if stack == [] then BadGc(BadCode)
      else GotGc(KChild(stack[|stack| - 1]), stack[..|stack| - 1], r)
  }

  function ReadGcs(s: seq<byte>, n: nat, stack: Stack): GcsRes
    decreases n
  {
    if n == 0 then GotGcs([], stack, s)
    else
      match ReadGc(s, stack)
      case BadGc(e) => BadGcs(e)
      case GotGc(k, st, r) =>
        match ReadGcs(r, n - 1, st)
        case BadGcs(e) => BadGcs(e)
        case GotGcs(ks, st', r') => GotGcs([k] + ks, st', r')
  }

  // ---- What a prototype is after dump and load -------------------------------------------------

  function CleanGc(k: Gc<Tab>, strip: bool, starts: seq<Ins>): Gc<Template>
    decreases k
  {
    match k
    case KStr(s) => KStr(s)
    case KChild(p) => KChild(Clean(p, strip, starts))
    case KTab(t) => KTab(CleanTab(t))
    case KI64(n) => KI64(n)
    case KU64(n) => KU64(n)
    case KComplex(re, im) => KComplex(re, im)
  }

  /** Flags are masked, the header instruction is made anew, patched loops are plain; no debug info if stripped. */
  function Clean(p: Proto<Tab>, strip: bool, starts: seq<Ins>): Proto<Template>
    decreases p
  {
    var none := strip || p.info == [];
    Proto(p.flags % 8, p.numparams, p.framesize, p.uv,
          seq(|p.kgc|, i requires 0 <= i < |p.kgc| => CleanGc(p.kgc[i], strip, starts)), Canonicals(p.knum),
          [Ins(if IsVararg(p.flags) then BC_FUNCV else BC_FUNCF, p.framesize, 0, 0)] + (if p.bc == [] then []
            else Code(p, starts)),
          if none then 0 else p.firstline, if none then 0 else p.numline, if none then [] else p.info, 0)
  }

  function CleanGcs(k: seq<Gc<Tab>>, strip: bool, starts: seq<Ins>): (r: seq<Gc<Template>>)
    ensures |r| == |k|
  {
    seq(|k|, i requires 0 <= i < |k| => CleanGc(k[i], strip, starts))
  }

  /** The loaded children of constants, the last constant's first: so the first one's is popped first. */
  function Kids(k: seq<Gc<Tab>>, strip: bool, starts: seq<Ins>): Stack
  {
    if k == [] then []
    else Kids(k[1..], strip, starts) + (if k[0].KChild? then [Clean(k[0].p, strip, starts)] else [])
  }

  predicate GcOk(k: Gc<Tab>)
  {
    match k
    case KStr(s) => KGC_STR + |s| < 0x1_0000_0000
    case KTab(t) => TabOk(t)
    case _ => true
  }

  lemma GcBack(k: Gc<Tab>, strip: bool, starts: seq<Ins>, st: Stack, rest: seq<byte>)
    requires GcOk(k)
    ensures var kid := if k.KChild? then [Clean(k.p, strip, starts)] else [];
      ReadGc(GcBytes(k) + rest, st + kid) == GotGc(CleanGc(k, strip, starts), st, rest)
  {
    hide Uleb, ReadUleb, TabOk, TabBytes, ReadTab, ReadNum, NumBytes, Clean;
    var kid := if k.KChild? then [Clean(k.p, strip, starts)] else [];
    match k {
      case KStr(s) =>
        assert GcBytes(k) + rest == Uleb(KGC_STR + |s|) + (s + rest);
        UlebBack(KGC_STR + |s|, s + rest);
        BlockBack(s, rest);
        assert st + kid == st;
      case KChild(p) =>
        UlebBack(KGC_CHILD, rest);
        assert (st + kid)[..|st|] == st;
      case KTab(t) =>
        assert GcBytes(k) + rest == Uleb(KGC_TAB) + (TabBytes(t) + rest);
        UlebBack(KGC_TAB, TabBytes(t) + rest);
        TabBack(t, rest);
        assert st + kid == st;
      case KI64(n) =>
        assert GcBytes(k) + rest == Uleb(KGC_I64) + (NumBytes(n) + rest);
        UlebBack(KGC_I64, NumBytes(n) + rest);
        NumBack(n, rest);
        assert st + kid == st;
      case KU64(n) =>
        assert GcBytes(k) + rest == Uleb(KGC_U64) + (NumBytes(n) + rest);
        UlebBack(KGC_U64, NumBytes(n) + rest);
        NumBack(n, rest);
        assert st + kid == st;
      case KComplex(re, im) =>
        assert GcBytes(k) + rest == Uleb(KGC_COMPLEX) + (NumBytes(re) + (NumBytes(im) + rest));
        UlebBack(KGC_COMPLEX, NumBytes(re) + (NumBytes(im) + rest));
        NumBack(re, NumBytes(im) + rest);
        NumBack(im, rest);
        assert st + kid == st;
    }
  }

  /** Constants find their children on the stack, each in its own place. */
  lemma {:induction false} GcsBack(k: seq<Gc<Tab>>, strip: bool, starts: seq<Ins>, base: Stack, rest: seq<byte>)
    requires forall i :: 0 <= i < |k| ==> GcOk(k[i])
    ensures ReadGcs(GcsBytes(k) + rest, |k|, base + Kids(k, strip, starts))
      == GotGcs(CleanGcs(k, strip, starts), base, rest)
  {
    hide GcBytes, ReadGc, CleanGc, GcOk, Clean;
    if k == [] {
      assert GcsBytes(k) + rest == rest;
      assert base + [] == base;
    } else {
      var kid := if k[0].KChild? then [Clean(k[0].p, strip, starts)] else [];
      var st := base + Kids(k[1..], strip, starts);
      assert GcsBytes(k) + rest == GcBytes(k[0]) + (GcsBytes(k[1..]) + rest);
      assert base + Kids(k, strip, starts) == st + kid;
      GcBack(k[0], strip, starts, st, GcsBytes(k[1..]) + rest);
      GcsBack(k[1..], strip, starts, base, rest);
      assert [CleanGc(k[0], strip, starts)] + CleanGcs(k[1..], strip, starts) == CleanGcs(k, strip, starts);
    }
  }
}
