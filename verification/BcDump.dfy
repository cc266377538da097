/** DumpFile dumps: a tree of prototypes, children first, and the loader that puts it together again. */
module BcDump {
  import opened BcWords
  import opened BcConst
  import opened BcProto

  // ---- One prototype -----------------------------------------------------------------

  function HeadBytes(p: Proto<Tab>): seq<byte>
    requires |p.uv| < 256 && p.bc != []
  {
    [p.flags % 8, p.numparams, p.framesize, |p.uv|] + (Uleb(|p.kgc|) + (Uleb(|p.knum|) + Uleb(|p.bc| - 1)))
  }

  /** The debug part of the header. */
  function DebugHead(p: Proto<Tab>, strip: bool): seq<byte>
  {
    if strip then []
    else if p.info == [] then Uleb(0)
    else Uleb(|p.info|) + (Uleb(p.firstline) + Uleb(p.numline))
  }

  function Body(p: Proto<Tab>, strip: bool, starts: seq<Ins>): seq<byte>
    requires |p.uv| < 256 && p.bc != []
  {
    HeadBytes(p) + (DebugHead(p, strip) + (InsBytes(Code(p, starts)) + (UvBytes(p.uv)
      + (GcsBytes(p.kgc) + (KnumsBytes(p.knum) +
      (if strip then [] else p.info))))))
  }

  function Framed(b: seq<byte>): seq<byte>
  {
    Uleb(|b|) + b
  }

  /** The fields of a prototype's header. */
  datatype Head = Head(flags: byte, numparams: byte, framesize: byte, sizeuv: byte, sizekgc: u32, sizekn: u32, nbc: u32)

  datatype Debug = Debug(size: u32, firstline: u32, numline: u32)

  function ReadHead(s: seq<byte>): Res<Head>
  {
    if |s| < 4 then Bad(PastEnd)
    else
      match ReadUleb(s[4..])
      case Bad(e) => Bad(e)
      case Got(kgc, r) =>
        match ReadUleb(r)
        case Bad(e) => Bad(e)
        case Got(kn, r') =>
          match ReadUleb(r')
          case Bad(e) => Bad(e)
          case Got(nbc, r'') => Got(Head(s[0], s[1], s[2], s[3], kgc, kn, nbc), r'')
  }

  function ReadDebug(s: seq<byte>, strip: bool): Res<Debug>
  {
    if strip then Got(Debug(0, 0, 0), s)
    else
      match ReadUleb(s)
      case Bad(e) => Bad(e)
      case Got(size, r) =>
        if size == 0 then Got(Debug(0, 0, 0), r)
        else
          match ReadUleb(r)
          case Bad(e) => Bad(e)
          case Got(first, r') =>
            match ReadUleb(r')
            case Bad(e) => Bad(e)
            case Got(num, r'') => Got(Debug(size, first, num), r'')
  }

  datatype ProtoRes = GotProto(p: Proto<Template>, stack: Stack, rest: seq<byte>) | EndOfDump(rest: seq<byte>)
      | BadProto(e: Error)

  /** What follows the headers. */
  function ReadRest(s: seq<byte>, h: Head, d: Debug, stack: Stack): ProtoRes
  {
    match ReadIns(s, h.nbc)
    case Bad(e) => BadProto(e)
    case Got(bc, r1) =>
      match ReadUv(r1, h.sizeuv)
      case Bad(e) => BadProto(e)
      case Got(uv, r2) =>
        match ReadGcs(r2, h.sizekgc, stack)
        case BadGcs(e) => BadProto(e)
        case GotGcs(kgc, st, r3) =>
          match ReadKnums(r3, h.sizekn)
          case Bad(e) => BadProto(e)
          case Got(kn, r4) =>
            match ReadBlock(r4, d.size)
            case Bad(e) => BadProto(e)
            case Got(info, r5) =>
              GotProto(Proto(h.flags, h.numparams, h.framesize, uv, kgc, kn,
                             [Ins(if IsVararg(h.flags) then BC_FUNCV else BC_FUNCF, h.framesize, 0, 0)] + bc,
                             d.firstline, d.numline, info, 0), st, r5)
  }

  function ReadBody(s: seq<byte>, stack: Stack, strip: bool): ProtoRes
  {
    match ReadHead(s)
    case Bad(e) => BadProto(e)
    case Got(h, r) =>
      match ReadDebug(r, strip)
      case Bad(e) => BadProto(e)
      case Got(d, r') => ReadRest(r', h, d, stack)
  }

  function ReadProto(s: seq<byte>, stack: Stack, strip: bool): ProtoRes
  {
    if s != [] && s[0] == 0 then EndOfDump(s[1..])
    else
      match ReadUleb(s)
      case Bad(e) => BadProto(e)
      case Got(len, r) =>
        if len == 0 then EndOfDump(r)
        else if |r| < len then BadProto(BadCode)
        else
          match ReadBody(r, stack, strip)
          case BadProto(e) => BadProto(e)
          case EndOfDump(r') => BadProto(BadCode)
          case GotProto(p, st, r') => if |r'| != |r| - len then BadProto(BadCode) else GotProto(p, st, r')
  }

  predicate SizesOk(p: Proto<Tab>, strip: bool, starts: seq<Ins>)
  {
    |p.uv| < 256 && p.bc != [] && |p.kgc| < 0x1_0000_0000 && |p.knum| < 0x1_0000_0000 && |p.bc| <= 0x1_0000_0000 &&
    |p.info| < 0x1_0000_0000 && |Body(p, strip, starts)| < 0x1_0000_0000 && forall i :: 0 <= i < |p.kgc| ==>
      GcOk(p.kgc[i])
  }

  lemma HeadBack(p: Proto<Tab>, rest: seq<byte>)
    requires |p.uv| < 256 && p.bc != [] && |p.kgc| < 0x1_0000_0000 && |p.knum| < 0x1_0000_0000 &&
      |p.bc| <= 0x1_0000_0000
    ensures ReadHead(HeadBytes(p) + rest) == Got(Head(p.flags % 8, p.numparams, p.framesize, |p.uv|, |p.kgc|, |p.knum|,
      |p.bc| - 1), rest)
  {
    hide Uleb, ReadUleb;
    var s := HeadBytes(p) + rest;
    assert s[4..] == Uleb(|p.kgc|) + (Uleb(|p.knum|) + (Uleb(|p.bc| - 1) + rest));
    UlebBack(|p.kgc|, Uleb(|p.knum|) + (Uleb(|p.bc| - 1) + rest));
    UlebBack(|p.knum|, Uleb(|p.bc| - 1) + rest);
    UlebBack(|p.bc| - 1, rest);
  }

  function DebugOf(p: Proto<Tab>, strip: bool): Debug
    requires |p.info| < 0x1_0000_0000
  {
    if strip || p.info == [] then Debug(0, 0, 0) else Debug(|p.info|, p.firstline, p.numline)
  }

  lemma DebugBack(p: Proto<Tab>, strip: bool, rest: seq<byte>)
    requires |p.info| < 0x1_0000_0000
    ensures ReadDebug(DebugHead(p, strip) + rest, strip) == Got(DebugOf(p, strip), rest)
  {
    hide Uleb, ReadUleb;
    if strip {
      assert [] + rest == rest;
    } else if p.info == [] {
      UlebBack(0, rest);
    } else {
      assert DebugHead(p, strip) + rest == Uleb(|p.info|) + (Uleb(p.firstline) + (Uleb(p.numline) + rest));
      UlebBack(|p.info|, Uleb(p.firstline) + (Uleb(p.numline) + rest));
      UlebBack(p.firstline, Uleb(p.numline) + rest);
      UlebBack(p.numline, rest);
    }
  }

  function HeadOf(p: Proto<Tab>): Head
    requires |p.uv| < 256 && p.bc != [] && |p.kgc| < 0x1_0000_0000 && |p.knum| < 0x1_0000_0000 &&
      |p.bc| <= 0x1_0000_0000
  {
    Head(p.flags % 8, p.numparams, p.framesize, |p.uv|, |p.kgc|, |p.knum|, |p.bc| - 1)
  }

  lemma RestBack(p: Proto<Tab>, strip: bool, starts: seq<Ins>, base: Stack, rest: seq<byte>)
    requires SizesOk(p, strip, starts)
    ensures var info := if strip then [] else p.info;
      ReadRest(InsBytes(Code(p, starts)) + (UvBytes(p.uv) + (GcsBytes(p.kgc) + (KnumsBytes(p.knum) + (info + rest)))),
        HeadOf(p), DebugOf(p, strip),
               base + Kids(p.kgc, strip, starts)) == GotProto(Clean(p, strip, starts), base, rest)
  {
    hide ReadIns, InsBytes, Code, ReadUv, UvBytes, ReadGcs, GcsBytes, ReadKnums, KnumsBytes, Kids, CleanGc, Canonicals,
      Body;
    var info := if strip then [] else p.info;
    var r4 := info + rest;
    var r3 := KnumsBytes(p.knum) + r4;
    var r2 := GcsBytes(p.kgc) + r3;
    var r1 := UvBytes(p.uv) + r2;
    InsBack(Code(p, starts), r1);
    UvBack(p.uv, r2);
    GcsBack(p.kgc, strip, starts, base, r3);
    KnumsBack(p.knum, r4);
    BlockBack(info, rest);
    assert IsVararg(p.flags % 8) == IsVararg(p.flags) by { MaskedVararg(p.flags); }
  }

  lemma MaskedVararg(f: byte)
    ensures IsVararg(f % 8) == IsVararg(f)
  {
  }

  /** A prototype whose children wait on the stack is read back, and takes exactly them. */
  lemma BodyBack(p: Proto<Tab>, strip: bool, starts: seq<Ins>, base: Stack, rest: seq<byte>)
    requires SizesOk(p, strip, starts)
    ensures ReadBody(Body(p, strip, starts) + rest, base + Kids(p.kgc, strip, starts), strip)
      == GotProto(Clean(p, strip, starts), base, rest)
  {
    hide HeadBytes, ReadHead, DebugHead, ReadDebug, InsBytes, Code, UvBytes, GcsBytes, KnumsBytes, ReadRest, Kids,
      Clean, DebugOf, HeadOf;
    var info := if strip then [] else p.info;
    var r := InsBytes(Code(p, starts)) + (UvBytes(p.uv) + (GcsBytes(p.kgc) + (KnumsBytes(p.knum) + (info + rest))));
    assert Body(p, strip, starts) + rest == HeadBytes(p) + (DebugHead(p, strip) + r);
    HeadBack(p, DebugHead(p, strip) + r);
    DebugBack(p, strip, r);
    RestBack(p, strip, starts, base, rest);
    HeadOfIs(p);
  }

  lemma HeadOfIs(p: Proto<Tab>)
    requires |p.uv| < 256 && p.bc != [] && |p.kgc| < 0x1_0000_0000 && |p.knum| < 0x1_0000_0000 &&
      |p.bc| <= 0x1_0000_0000
    ensures HeadOf(p) == Head(p.flags % 8, p.numparams, p.framesize, |p.uv|, |p.kgc|, |p.knum|, |p.bc| - 1)
  {
  }

  lemma {:induction false} UlebFirst(v: nat)
    requires v > 0
    ensures Uleb(v)[0] != 0
  {
  }

  lemma ProtoBack(p: Proto<Tab>, strip: bool, starts: seq<Ins>, base: Stack, rest: seq<byte>)
    requires SizesOk(p, strip, starts)
    ensures ReadProto(Framed(Body(p, strip, starts)) + rest, base + Kids(p.kgc, strip, starts), strip) ==
      GotProto(Clean(p, strip, starts), base, rest)
  {
    var b := Body(p, strip, starts);
    assert |b| >= 4;
    hide Body, Uleb, ReadUleb, ReadBody, Kids, Clean, SizesOk;
    BodyBack(p, strip, starts, base, rest);
    assert Framed(b) + rest == Uleb(|b|) + (b + rest);
    SizesBound(p, strip, starts);
    UlebBack(|b|, b + rest);
    UlebFirst(|b|);
  }

  lemma SizesBound(p: Proto<Tab>, strip: bool, starts: seq<Ins>)
    requires SizesOk(p, strip, starts)
    ensures |Body(p, strip, starts)| < 0x1_0000_0000
  {
  }

  // ---- The tree --------------------------------------------------------------------------

  /** A prototype with all below it: children are only where the flag says so, and all sizes fit. */
  predicate ProtoOk(p: Proto<Tab>, strip: bool, starts: seq<Ins>)
    decreases p, |p.kgc| + 1
  {
    SizesOk(p, strip, starts) && KidsOk(p, 0, strip, starts)
  }

  predicate KidsOk(p: Proto<Tab>, i: nat, strip: bool, starts: seq<Ins>)
    requires i <= |p.kgc|
    decreases p, |p.kgc| - i
  {
    i == |p.kgc| ||
    ((p.kgc[i].KChild? ==> HasChildren(p.flags) && ProtoOk(p.kgc[i].p, strip, starts)) &&
      KidsOk(p, i + 1, strip, starts))
  }

  /** Children first, those of the last constants before those of the first. */
  function Dump(p: Proto<Tab>, strip: bool, starts: seq<Ins>): seq<byte>
    requires ProtoOk(p, strip, starts)
    decreases p, |p.kgc| + 1
  {
    (if HasChildren(p.flags) then DumpKids(p, 0, strip, starts) else []) + Framed(Body(p, strip, starts))
  }

  function DumpKids(p: Proto<Tab>, i: nat, strip: bool, starts: seq<Ins>): seq<byte>
    requires i <= |p.kgc| && KidsOk(p, i, strip, starts)
    decreases p, |p.kgc| - i
  {
    if i == |p.kgc| then []
    else DumpKids(p, i + 1, strip, starts) + (if p.kgc[i].KChild? then Dump(p.kgc[i].p, strip, starts) else [])
  }

  datatype LoadRes = Loaded(stack: Stack, rest: seq<byte>) | Failed(e: Error)

  lemma {:induction false} SpeltShorter(s: seq<byte>, n: nat)
    ensures Spelt(s, n).Got? ==> |Spelt(s, n).rest| < |s|
  {
    if n > 0 && s != [] && s[0] >= 0x80 { SpeltShorter(s[1..], n - 1); }
  }

  lemma ProtoShorter(s: seq<byte>, stack: Stack, strip: bool)
    ensures ReadProto(s, stack, strip).GotProto? ==> |ReadProto(s, stack, strip).rest| < |s|
  {
    hide ReadBody;
    SpeltShorter(s, 5);
  }

  /** All prototypes in the dump: each is pushed. */
  function LoadAll(s: seq<byte>, stack: Stack, strip: bool): LoadRes
    decreases |s|
  {
    ProtoShorter(s, stack, strip);
    match ReadProto(s, stack, strip)
    case BadProto(e) => Failed(e)
    case EndOfDump(r) => Loaded(stack, r)
    case GotProto(p, st, r) => LoadAll(r, st + [p], strip)
  }

  lemma {:induction false} TreeBack(p: Proto<Tab>, strip: bool, starts: seq<Ins>, base: Stack, rest: seq<byte>)
    requires ProtoOk(p, strip, starts)
    ensures LoadAll(Dump(p, strip, starts) + rest, base, strip) == LoadAll(rest, base + [Clean(p, strip, starts)],
      strip)
    decreases p, |p.kgc| + 1
  {
    hide *;
    DumpIs(p, strip, starts);
    var own := Framed(Body(p, strip, starts)) + rest;
    var kids := Kids(p.kgc, strip, starts);
    assert p.kgc[0..] == p.kgc;
    if HasChildren(p.flags) {
      assert Dump(p, strip, starts) + rest == DumpKids(p, 0, strip, starts) + own;
      KidsBack(p, 0, strip, starts, base, own);
    } else {
      NoKids(p, 0, strip, starts);
      assert Dump(p, strip, starts) + rest == own;
      assert base + kids == base;
    }
    ProtoBack(p, strip, starts, base, rest);
    LoadStep(own, base + kids, strip);
  }

  lemma DumpIs(p: Proto<Tab>, strip: bool, starts: seq<Ins>)
    requires ProtoOk(p, strip, starts)
    ensures SizesOk(p, strip, starts) && KidsOk(p, 0, strip, starts) && |p.uv| < 256 && p.bc != []
    ensures Dump(p, strip, starts) == (if HasChildren(p.flags) then DumpKids(p, 0, strip, starts)
      else []) + Framed(Body(p, strip, starts))
  {
    hide Body, Framed;
  }

  lemma LoadStep(s: seq<byte>, stack: Stack, strip: bool)
    ensures ReadProto(s, stack, strip).GotProto? ==>
      (var r := ReadProto(s, stack, strip); LoadAll(s, stack, strip) == LoadAll(r.rest, r.stack + [r.p], strip))
  {
    hide ReadProto;
  }


  lemma {:induction false} NoKids(p: Proto<Tab>, i: nat, strip: bool, starts: seq<Ins>)
    requires i <= |p.kgc| && KidsOk(p, i, strip, starts) && !HasChildren(p.flags)
    ensures Kids(p.kgc[i..], strip, starts) == []
    decreases |p.kgc| - i
  {
    if i < |p.kgc| {
      NoKids(p, i + 1, strip, starts);
      assert p.kgc[i..][1..] == p.kgc[i + 1..];
    }
  }

  lemma {:induction false} KidsBack(p: Proto<Tab>, i: nat, strip: bool, starts: seq<Ins>, base: Stack, rest: seq<byte>)
    requires i <= |p.kgc| && KidsOk(p, i, strip, starts)
    ensures LoadAll(DumpKids(p, i, strip, starts) + rest, base, strip)
      == LoadAll(rest, base + Kids(p.kgc[i..], strip, starts), strip)
    decreases p, |p.kgc| - i
  {
    hide *;
    KidsAre(p, i, strip, starts);
    if i == |p.kgc| {
      assert DumpKids(p, i, strip, starts) + rest == rest;
      assert base + [] == base;
    } else {
      var own := if p.kgc[i].KChild? then Dump(p.kgc[i].p, strip, starts) else [];
      var later := Kids(p.kgc[i + 1..], strip, starts);
      assert DumpKids(p, i, strip, starts) + rest == DumpKids(p, i + 1, strip, starts) + (own + rest);
      KidsBack(p, i + 1, strip, starts, base, own + rest);
      if p.kgc[i].KChild? {
        TreeBack(p.kgc[i].p, strip, starts, base + later, rest);
        assert base + Kids(p.kgc[i..], strip, starts) == base + later + [Clean(p.kgc[i].p, strip, starts)];
      } else {
        assert own + rest == rest;
        assert base + Kids(p.kgc[i..], strip, starts) == base + later;
      }
    }
  }

  lemma KidsAre(p: Proto<Tab>, i: nat, strip: bool, starts: seq<Ins>)
    requires i <= |p.kgc| && KidsOk(p, i, strip, starts)
    ensures i == |p.kgc| ==> DumpKids(p, i, strip, starts) == [] && Kids(p.kgc[i..], strip, starts) == []
    ensures i < |p.kgc| ==>
      KidsOk(p, i + 1, strip, starts) &&
      (p.kgc[i].KChild? ==> HasChildren(p.flags) && ProtoOk(p.kgc[i].p, strip, starts))
    ensures i < |p.kgc| ==>
      (DumpKids(p, i, strip, starts) == DumpKids(p, i + 1, strip, starts) + (if p.kgc[i].KChild?
        then Dump(p.kgc[i].p, strip, starts) else []))
    ensures i < |p.kgc| ==>
      (Kids(p.kgc[i..], strip, starts) == Kids(p.kgc[i + 1..], strip, starts) +
        (if p.kgc[i].KChild? then [Clean(p.kgc[i].p, strip, starts)] else []))
  {
    hide Dump, Clean, ProtoOk;
    if i < |p.kgc| { assert p.kgc[i..][1..] == p.kgc[i + 1..]; }
  }

  // ---- The whole dump ----------------------------------------------------------------------

  const HEAD1: byte := 0x1b
  const HEAD2: byte := 0x4c
  const HEAD3: byte := 0x4a
  const VERSION: byte := 1
  const F_STRIP: byte := 2
  const F_FFI: byte := 4

  predicate NeedsFFI(flags: byte)
  {
    flags / 4 % 2 == 1
  }

  function HeaderFlags(flags: byte, strip: bool): byte
  {
    (if strip then F_STRIP else 0) + (if NeedsFFI(flags) then F_FFI else 0)
  }

  function Header(flags: byte, name: seq<byte>, strip: bool): seq<byte>
  {
    [HEAD1, HEAD2, HEAD3, VERSION, HeaderFlags(flags, strip)] + (if strip then [] else Uleb(|name|) + name)
  }

  /** dump = header proto+ 0 */
  function DumpFile(p: Proto<Tab>, name: seq<byte>, strip: bool, starts: seq<Ins>): seq<byte>
    requires ProtoOk(p, strip, starts)
  {
    Header(p.flags, name, strip) + (Dump(p, strip, starts) + [0])
  }

  datatype HeaderRes = GotHeader(strip: bool, name: seq<byte>, rest: seq<byte>) | BadHeader(e: Error)

  /** The header after its first byte, which the lexer has looked at. */
  function ReadHeader(s: seq<byte>, chunkarg: seq<byte>): HeaderRes
  {
    if s == [] then BadHeader(PastEnd)
    else if s[0] != HEAD2 then BadHeader(BadFormat)
    else if |s| == 1 then BadHeader(PastEnd)
    else if s[1] != HEAD3 then BadHeader(BadFormat)
    else if |s| == 2 then BadHeader(PastEnd)
    else if s[2] != VERSION then BadHeader(BadFormat)
    else
      match ReadUleb(s[3..])
      case Bad(e) => BadHeader(e)
      case Got(flags, r) =>
        if flags >= 8 then BadHeader(BadFormat)
        else if flags / 2 % 2 == 1 then GotHeader(true, chunkarg, r)
        else
          match ReadUleb(r)
          case Bad(e) => BadHeader(e)
          case Got(len, r') => if |r'| < len then BadHeader(BadCode) else GotHeader(false, r'[..len], r'[len..])
  }

  datatype Chunk = Chunk(p: Proto<Template>, name: seq<byte>) | NoChunk(e: Error)

  /** lj_bcread after the first byte: exactly one prototype must be left, and no input. */
  function Load(s: seq<byte>, chunkarg: seq<byte>): Chunk
  {
    match ReadHeader(s, chunkarg)
    case BadHeader(e) => NoChunk(e)
    case GotHeader(strip, name, r) =>
      match LoadAll(r, [], strip)
      case Failed(e) => NoChunk(e)
      case Loaded(st, r') => if |r'| > 0 || |st| != 1 then NoChunk(BadCode) else Chunk(st[0], name)
  }

  lemma HeaderBack(flags: byte, name: seq<byte>, strip: bool, chunkarg: seq<byte>, rest: seq<byte>)
    requires |name| < 0x1_0000_0000
    ensures (Header(flags, name, strip) + rest)[0] == HEAD1
    ensures ReadHeader((Header(flags, name, strip) + rest)[1..], chunkarg) == GotHeader(strip, if strip then chunkarg
      else name, rest)
  {
    hide Uleb, ReadUleb;
    var s := (Header(flags, name, strip) + rest)[1..];
    var f := HeaderFlags(flags, strip);
    assert f < 8 && (f / 2 % 2 == 1 <==> strip);
    if strip {
      assert s[3..] == [f] + rest;
      SmallTag(f, rest);
    } else {
      assert s[3..] == [f] + (Uleb(|name|) + (name + rest));
      SmallTag(f, Uleb(|name|) + (name + rest));
      UlebBack(|name|, name + rest);
      assert (name + rest)[..|name|] == name && (name + rest)[|name|..] == rest;
    }
  }

  /**
   Dump then load: the loader takes all input, finds every child in its own place, is left with exactly one prototype,
   and that is the one dumped, cleaned.
   */
  lemma DumpThenLoad(p: Proto<Tab>, name: seq<byte>, strip: bool, starts: seq<Ins>, chunkarg: seq<byte>)
    requires ProtoOk(p, strip, starts) && |name| < 0x1_0000_0000
    ensures DumpFile(p, name, strip, starts)[0] == HEAD1
    ensures Load(DumpFile(p, name, strip, starts)[1..], chunkarg) == Chunk(Clean(p, strip, starts), if strip
      then chunkarg else name)
  {
    hide ReadHeader, Header, Dump, Clean, ReadProto, ProtoOk;
    HeaderBack(p.flags, name, strip, chunkarg, Dump(p, strip, starts) + [0]);
    TreeBack(p, strip, starts, [], [0]);
    assert [] + [Clean(p, strip, starts)] == [Clean(p, strip, starts)];
    EndBack([Clean(p, strip, starts)], strip);
  }

  lemma EndBack(st: Stack, strip: bool)
    ensures LoadAll([0], st, strip) == Loaded(st, [])
  {
  }
}
