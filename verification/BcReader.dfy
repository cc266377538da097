/** The bytecode reader: it walks the input once and keeps the prototypes it has read on a stack. */
module BcReader {
  import opened Options
  import opened BcWords
  import opened BcConst
  import opened BcProto
  import opened BcDump

  /** A value, or the error that is thrown. */
  datatype Outcome<T> = Value(v: T) | Fault(e: Error) {
    predicate IsFailure() { Fault? }

    function PropagateFailure<U>(): Outcome<U>
      requires IsFailure()
    {
      Fault(e)
    }

    function Extract(): T
      requires !IsFailure()
    {
      v
    }
  }

  predicate Agrees<T(==)>(o: Outcome<T>, r: Res<T>, p: seq<byte>)
  {
    match r
    case Got(v, rest) => o == Value(v) && p == rest
    case Bad(e) => o == Fault(e)
  }

  function Prefixed<T>(acc: seq<T>, r: Res<seq<T>>): Res<seq<T>>
  {
    match r
    case Got(a, rest) => Got(acc + a, rest)
    case Bad(e) => Bad(e)
  }

  lemma NothingPrefixed<T>(r: Res<seq<T>>)
    ensures Prefixed([], r) == r
  {
    if r.Got? { assert [] + r.v == r.v; }
  }

  lemma PrefixedMore<T>(acc: seq<T>, x: T, r: Res<seq<T>>)
    ensures Prefixed(acc, Prefixed([x], r)) == Prefixed(acc + [x], r)
  {
    if r.Got? { assert acc + ([x] + r.v) == (acc + [x]) + r.v; }
  }

  class Reader {
    var p: seq<byte>
    var stack: Stack
    var strip: bool
    var chunkname: seq<byte>

    constructor (input: seq<byte>)
      ensures p == input && stack == []
    {
      p, stack, strip, chunkname := input, [], false, [];
    }

    method GetByte() returns (o: Outcome<byte>)
      modifies this`p
      ensures o == (if old(p) == [] then Fault(PastEnd) else Value(old(p)[0]))
      ensures o.Value? ==> p == old(p)[1..]
    {
      if p == [] {
        return Fault(PastEnd);
      }
      o := Value(p[0]);
      p := p[1..];
    }

    method GetBlock(n: nat) returns (o: Outcome<seq<byte>>)
      modifies this`p
      ensures Agrees(o, ReadBlock(old(p), n), p)
    {
      if |p| < n {
        return Fault(PastEnd);
      }
      o := Value(p[..n]);
      p := p[n..];
    }

    /** What is spelt at s is raw, and f times what is spelt at q. */
    static ghost predicate Partly(s: seq<byte>, q: seq<byte>, n: nat, raw: nat, f: nat)
    {
      match Spelt(q, n)
      case Got(w, r) => Spelt(s, 5) == Got(raw + f * w, r)
      case Bad(e) => Spelt(s, 5) == Bad(e)
    }

    /** The value with one more digit, of weight f. */
    static function Digit(v: nat, b: byte, f: nat): nat
    {
      v + (b % 0x80) * f
    }

    static lemma PartlyStart(s: seq<byte>)
      requires s != []
      ensures s[0] < 0x80 ==> Spelt(s, 5) == Got(s[0], s[1..])
      ensures s[0] >= 0x80 ==> Partly(s, s[1..], 4, s[0] % 0x80, 0x80)
    {
    }

    static lemma PartlyNext(s: seq<byte>, q: seq<byte>, n: nat, raw: nat, f: nat)
      requires Partly(s, q, n, raw, f)
      ensures n == 0 || q == [] ==> Spelt(s, 5) == Bad(PastEnd)
      ensures n > 0 && q != [] && q[0] < 0x80 ==> Spelt(s, 5) == Got(Digit(raw, q[0], f), q[1..])
      ensures n > 0 && q != [] && q[0] >= 0x80 ==> Partly(s, q[1..], n - 1, Digit(raw, q[0], f), f * 0x80)
    {
      if n > 0 && q != [] && q[0] >= 0x80 {
        match Spelt(q[1..], n - 1) {
          case Got(w, r) => Regroup(f, q[0] % 0x80, w);
          case _ =>
        }
      }
    }

    static lemma Regroup(f: nat, b: nat, w: nat)
      ensures f * (b + 0x80 * w) == b * f + f * 0x80 * w
    {
    }

    static lemma AddDigit(raw: nat, b: byte, f: nat, v: nat)
      requires v == raw % 0x1_0000_0000
      ensures Digit(v, b, f) % 0x1_0000_0000 == Digit(raw, b, f) % 0x1_0000_0000
    {
      var d := (b % 0x80) * f;
      assert (v + d) % 0x1_0000_0000 == (raw + d) % 0x1_0000_0000;
    }

    static lemma HalfDigit(raw: nat, b: byte, f: nat, v: nat)
      requires v == (raw / 2) % 0x1_0000_0000 && f % 2 == 0
      ensures Digit(v, b, f / 2) % 0x1_0000_0000 == (Digit(raw, b, f) / 2) % 0x1_0000_0000
    {
      AddDigit(raw / 2, b, f / 2, v);
      assert (b % 0x80) * f == 2 * ((b % 0x80) * (f / 2));
    }

    static lemma UlebIs(s: seq<byte>)
      ensures ReadUleb33(s) == (match Spelt(s, 5) case Bad(e) => Bad(e) case Got(v, r) =>
        Got((v / 2) % 0x1_0000_0000, r))
      ensures ReadUleb(s) == (match Spelt(s, 5) case Bad(e) => Bad(e) case Got(v, r) => Got(v % 0x1_0000_0000, r))
      ensures s == [] ==> Spelt(s, 5) == Bad(PastEnd)
    {
    }

    static lemma AgreesIs<T>(o: Outcome<T>, r: Res<T>, p: seq<byte>)
      ensures Agrees(o, r, p) <==> if r.Got? then o == Value(r.v) && p == r.rest else o == Fault(r.e)
    {
    }

    /** bcread_uleb128 */
    method GetUleb() returns (o: Outcome<u32>)
      modifies this`p
      ensures Agrees(o, ReadUleb(old(p)), p)
    {
      hide *;
      UlebIs(p);
      AgreesIs(Fault(PastEnd), ReadUleb(p), p);
      if p == [] {
        return Fault(PastEnd);
      }
      PartlyStart(p);
      var q := p[1..];
      var v: nat := p[0];
      if v >= 0x80 {
        v := v % 0x80;
        ghost var raw: nat := v;
        var f: nat, n: nat, more: bool := 0x80, 4, true;
        while more
          invariant n <= 4 && v == raw % 0x1_0000_0000 && p == old(p)
          invariant if more then Partly(p, q, n, raw, f) else Spelt(p, 5) == Got(raw, q)
          decreases n, more
        {
          PartlyNext(p, q, n, raw, f);
          if n == 0 || q == [] {
            return Fault(PastEnd);
          }
          AddDigit(raw, q[0], f, v);
          raw := Digit(raw, q[0], f);
          v := Digit(v, q[0], f) % 0x1_0000_0000;
          more := q[0] >= 0x80;
          q, n, f := q[1..], n - 1, f * 0x80;
        }
      }
      AgreesIs(Value(v), ReadUleb(p), q);
      p := q;
      o := Value(v);
    }

    static lemma FirstHalf(b: byte)
      ensures b / 2 >= 0x40 <==> b >= 0x80
      ensures (b / 2) % 0x40 == ((b % 0x80) / 2) % 0x1_0000_0000
      ensures b < 0x80 ==> b / 2 == (b / 2) % 0x1_0000_0000
    {
    }

    /** bcread_uleb128_33 */
    method GetUleb33() returns (o: Outcome<u32>)
      modifies this`p
      ensures Agrees(o, ReadUleb33(old(p)), p)
    {
      hide *;
      UlebIs(p);
      AgreesIs(Fault(PastEnd), ReadUleb33(p), p);
      if p == [] {
        return Fault(PastEnd);
      }
      PartlyStart(p);
      FirstHalf(p[0]);
      var q := p[1..];
      var v: nat := p[0] / 2;
      ghost var raw: nat := p[0];
      if v >= 0x40 {
        v := v % 0x40;
        raw := p[0] % 0x80;
        var f: nat, n: nat, more: bool := 0x80, 4, true;
        while more
          invariant n <= 4 && v == (raw / 2) % 0x1_0000_0000 && p == old(p) && f % 2 == 0
          invariant if more then Partly(p, q, n, raw, f) else Spelt(p, 5) == Got(raw, q)
          decreases n, more
        {
          PartlyNext(p, q, n, raw, f);
          if n == 0 || q == [] {
            return Fault(PastEnd);
          }
          HalfDigit(raw, q[0], f, v);
          raw := Digit(raw, q[0], f);
          v := Digit(v, q[0], f / 2) % 0x1_0000_0000;
          more := q[0] >= 0x80;
          q, n, f := q[1..], n - 1, f * 0x80;
        }
      }
      AgreesIs(Value(v), ReadUleb33(p), q);
      p := q;
      o := Value(v);
    }

    method GetNum() returns (o: Outcome<Num>)
      modifies this`p
      ensures Agrees(o, ReadNum(old(p)), p)
    {
      hide ReadUleb;
      var lo :- GetUleb();
      var hi :- GetUleb();
      o := Value(Num(lo, hi));
    }

    /** bcread_ktabk */
    method GetTv() returns (o: Outcome<TV>)
      modifies this`p
      ensures Agrees(o, ReadTv(old(p)), p)
    {
      hide ReadUleb, ReadNum, ToDouble;
      var tp :- GetUleb();
      if tp >= KTAB_STR {
        var s :- GetBlock(tp - KTAB_STR);
        o := Value(Str(s));
      } else if tp == KTAB_INT {
        var w :- GetUleb();
        o := Value(Number(ToDouble(FromWord(w))));
      } else if tp == KTAB_NUM {
        var n :- GetNum();
        o := Value(Number(n));
      } else {
        o := Value(if tp == 0 then Nil else if tp == 1 then False else True);
      }
    }

    static lemma ArrayStep(s: seq<byte>, n: nat)
      requires n > 0
      ensures ReadArray(s, n) == (match ReadTv(s)
                                  case Bad(e) => Bad(e)
                                  case Got(o, r) => Prefixed([o], ReadArray(r, n - 1)))
    {
    }

    method GetSlots(n: nat) returns (o: Outcome<seq<TV>>)
      modifies this`p
      ensures Agrees(o, ReadArray(old(p), n), p)
    {
      hide ReadTv, ReadArray, Prefixed;
      var a: seq<TV>, i: nat := [], 0;
      NothingPrefixed(ReadArray(p, n));
      while i < n
        invariant i <= n && ReadArray(old(p), n) == Prefixed(a, ReadArray(p, n - i))
      {
        ArrayStep(p, n - i);
        PrefixedBad<TV>(a);
        var v :- GetTv();
        PrefixedMore(a, v, ReadArray(p, n - i - 1));
        a, i := a + [v], i + 1;
      }
      NoneToRead(p);
      PrefixedGot(a, p);
      o := Value(a);
    }

    static lemma PrefixedBad<T>(a: seq<T>)
      ensures forall e {:trigger Prefixed(a, Bad(e))} :: Prefixed(a, Bad(e)) == Bad(e)
    {
    }

    static lemma PrefixedGot<T>(a: seq<T>, p: seq<byte>)
      ensures Prefixed(a, Got([], p)) == Got(a, p)
    {
      assert a + [] == a;
    }

    static lemma NoneToRead(s: seq<byte>)
      ensures ReadArray(s, 0) == Got([], s) && ReadKnums(s, 0) == Got([], s) && ReadIns(s, 0) == Got([], s) &&
        ReadUv(s, 0) == Got([], s)
    {
    }

    static lemma HashStep(s: seq<byte>, n: nat, t: Template)
      requires n > 0
      ensures ReadHash(s, n, t) == (match ReadTv(s)
                                    case Bad(e) => Bad(e)
                                    case Got(k, r) =>
                                      if !KeyOk(k) then Bad(BadKey)
                                      else match ReadTv(r)
                                           case Bad(e) => Bad(e)
                                           case Got(v, r') => ReadHash(r', n - 1, SetEntry(t, k, v)))
    {
    }

    /** bcread_ktab */
    method GetTab() returns (o: Outcome<Template>)
      modifies this`p
      ensures Agrees(o, ReadTab(old(p)), p)
    {
      hide ReadUleb, ReadTv, ReadArray, ReadHash, SetEntry, KeyOk;
      var narray :- GetUleb();
      var nhash :- GetUleb();
      var a :- GetSlots(narray);
      var t := Template(a, map[]);
      ghost var was := p;
      assert match ReadTab(old(p)) case Got(x, r) => ReadHash(was, nhash, t) == Got(x, r) case Bad(e) =>
        ReadHash(was, nhash, t) == Bad(e);
      var i: nat := 0;
      while i < nhash
        invariant i <= nhash && ReadHash(was, nhash, Template(a, map[])) == ReadHash(p, nhash - i, t)
      {
        HashStep(p, nhash - i, t);
        var k :- GetTv();
        if !KeyOk(k) {
          return Fault(BadKey);
        }
        var v :- GetTv();
        t, i := SetEntry(t, k, v), i + 1;
      }
      HashDone(p, t);
      o := Value(t);
    }

    predicate GcAgrees(o: Outcome<Gc<Template>>, r: GcRes)
      reads this
    {
      match r
      case GotGc(k, st, rest) => o == Value(k) && stack == st && p == rest
      case BadGc(e) => o == Fault(e)
    }

    /** bcread_kgc, one constant: a child is popped from the stack. */
    method GetGc() returns (o: Outcome<Gc<Template>>)
      modifies this`p, this`stack
      ensures GcAgrees(o, ReadGc(old(p), old(stack)))
    {
      hide ReadUleb, ReadNum, ReadTab;
      var tp :- GetUleb();
      if tp >= KGC_STR {
        var s :- GetBlock(tp - KGC_STR);
        o := Value(KStr(s));
      } else if tp == KGC_TAB {
        var t :- GetTab();
        o := Value(KTab(t));
      } else if tp != KGC_CHILD {
        var n :- GetNum();
        if tp == KGC_COMPLEX {
          var m :- GetNum();
          o := Value(KComplex(n, m));
        } else {
          o := Value(if tp == KGC_I64 then KI64(n) else KU64(n));
        }
      } else {
        if stack == [] {
          return Fault(BadCode);
        }
        o := Value(KChild(stack[|stack| - 1]));
        stack := stack[..|stack| - 1];
      }
    }

    static function GcsPrefixed(acc: seq<Gc<Template>>, r: GcsRes): GcsRes
    {
      match r
      case GotGcs(k, st, rest) => GotGcs(acc + k, st, rest)
      case BadGcs(e) => BadGcs(e)
    }

    static lemma GcsStep(s: seq<byte>, n: nat, st: Stack, acc: seq<Gc<Template>>)
      ensures n > 0 ==> GcsPrefixed(acc, ReadGcs(s, n, st)) == (match ReadGc(s, st)
                                                                case BadGc(e) => BadGcs(e)
                                                                case GotGc(k, st', r) =>
                                                                  GcsPrefixed(acc + [k], ReadGcs(r, n - 1, st')))
      ensures GcsPrefixed(acc, ReadGcs(s, 0, st)) == GotGcs(acc, st, s)
      ensures acc == [] ==> GcsPrefixed(acc, ReadGcs(s, n, st)) == ReadGcs(s, n, st)
    {
      hide ReadGc;
      assert acc + [] == acc;
      match ReadGcs(s, n, st) {
        case GotGcs(k, _, _) => assert [] + k == k;
        case _ =>
      }
      if n > 0 {
        match ReadGc(s, st) {
          case GotGc(k, st', r) =>
            match ReadGcs(r, n - 1, st') {
              case GotGcs(ks, _, _) => assert acc + ([k] + ks) == acc + [k] + ks;
              case _ =>
            }
          case _ =>
        }
      }
    }

    predicate GcsAgrees(o: Outcome<seq<Gc<Template>>>, r: GcsRes)
      reads this
    {
      match r
      case GotGcs(k, st, rest) => o == Value(k) && stack == st && p == rest
      case BadGcs(e) => o == Fault(e)
    }

    method GetGcs(n: nat) returns (o: Outcome<seq<Gc<Template>>>)
      modifies this`p, this`stack
      ensures GcsAgrees(o, ReadGcs(old(p), n, old(stack)))
    {
      hide ReadGc, ReadGcs, GcsPrefixed;
      var a: seq<Gc<Template>>, i: nat := [], 0;
      GcsStep(p, n, stack, []);
      while i < n
        invariant i <= n && ReadGcs(old(p), n, old(stack)) == GcsPrefixed(a, ReadGcs(p, n - i, stack))
      {
        GcsStep(p, n - i, stack, a);
        var k :- GetGc();
        a, i := a + [k], i + 1;
      }
      GcsStep(p, 0, stack, a);
      o := Value(a);
    }

    /** bcread_knum, one number. */
    method GetKnum() returns (o: Outcome<Num>)
      modifies this`p
      ensures Agrees(o, ReadKnum(old(p)), p)
    {
      hide ReadUleb, ReadUleb33, ToDouble;
      if p == [] {
        return Fault(PastEnd);
      }
      var isnum := p[0] % 2 == 1;
      var lo :- GetUleb33();
      if isnum {
        var hi :- GetUleb();
        o := Value(Num(lo, hi));
      } else {
        o := Value(ToDouble(FromWord(lo)));
      }
    }

    static lemma KnumsStep(s: seq<byte>, n: nat)
      requires n > 0
      ensures ReadKnums(s, n) == (match ReadKnum(s)
                                  case Bad(e) => Bad(e)
                                  case Got(k, r) => Prefixed([k], ReadKnums(r, n - 1)))
    {
    }

    method GetKnums(n: nat) returns (o: Outcome<seq<Num>>)
      modifies this`p
      ensures Agrees(o, ReadKnums(old(p), n), p)
    {
      hide ReadKnum, ReadKnums, Prefixed;
      var a: seq<Num>, i: nat := [], 0;
      NothingPrefixed(ReadKnums(p, n));
      while i < n
        invariant i <= n && ReadKnums(old(p), n) == Prefixed(a, ReadKnums(p, n - i))
      {
        KnumsStep(p, n - i);
        PrefixedBad<Num>(a);
        var v :- GetKnum();
        PrefixedMore(a, v, ReadKnums(p, n - i - 1));
        a, i := a + [v], i + 1;
      }
      NoneToRead(p);
      PrefixedGot(a, p);
      o := Value(a);
    }

    static lemma InsStep(s: seq<byte>, n: nat)
      requires n > 0
      ensures ReadIns(s, n) == (if |s| < 4 then Bad(PastEnd)
        else Prefixed([Ins(s[0], s[1], s[2], s[3])], ReadIns(s[4..], n - 1)))
    {
    }

    /** bcread_bytecode, after the header instruction. */
    method GetIns(n: nat) returns (o: Outcome<seq<Ins>>)
      modifies this`p
      ensures Agrees(o, ReadIns(old(p), n), p)
    {
      hide ReadIns, Prefixed;
      var a: seq<Ins>, i: nat := [], 0;
      NothingPrefixed(ReadIns(p, n));
      while i < n
        invariant i <= n && ReadIns(old(p), n) == Prefixed(a, ReadIns(p, n - i))
      {
        InsStep(p, n - i);
        PrefixedBad<Ins>(a);
        if |p| < 4 {
          return Fault(PastEnd);
        }
        var v := Ins(p[0], p[1], p[2], p[3]);
        PrefixedMore(a, v, ReadIns(p[4..], n - i - 1));
        p := p[4..];
        a, i := a + [v], i + 1;
      }
      NoneToRead(p);
      PrefixedGot(a, p);
      o := Value(a);
    }

    static lemma UvStep(s: seq<byte>, n: nat)
      requires n > 0
      ensures ReadUv(s, n) == (if |s| < 2 then Bad(PastEnd) else Prefixed([Word16(s[0], s[1])], ReadUv(s[2..], n - 1)))
    {
    }

    method GetUv(n: nat) returns (o: Outcome<seq<u16>>)
      modifies this`p
      ensures Agrees(o, ReadUv(old(p), n), p)
    {
      hide ReadUv, Prefixed;
      var a: seq<u16>, i: nat := [], 0;
      NothingPrefixed(ReadUv(p, n));
      while i < n
        invariant i <= n && ReadUv(old(p), n) == Prefixed(a, ReadUv(p, n - i))
      {
        UvStep(p, n - i);
        PrefixedBad<u16>(a);
        if |p| < 2 {
          return Fault(PastEnd);
        }
        var v := Word16(p[0], p[1]);
        PrefixedMore(a, v, ReadUv(p[2..], n - i - 1));
        p := p[2..];
        a, i := a + [v], i + 1;
      }
      NoneToRead(p);
      PrefixedGot(a, p);
      o := Value(a);
    }

    method GetHead() returns (o: Outcome<Head>)
      modifies this`p
      ensures Agrees(o, ReadHead(old(p)), p)
    {
      hide ReadUleb;
      var flags :- GetByte();
      var numparams :- GetByte();
      var framesize :- GetByte();
      var sizeuv :- GetByte();
      assert p == old(p)[4..];
      var sizekgc :- GetUleb();
      var sizekn :- GetUleb();
      var nbc :- GetUleb();
      o := Value(Head(flags, numparams, framesize, sizeuv, sizekgc, sizekn, nbc));
    }

    method GetDebug() returns (o: Outcome<Debug>)
      modifies this`p
      ensures Agrees(o, ReadDebug(old(p), strip), p)
    {
      hide ReadUleb;
      var size, first, num := 0, 0, 0;
      if !strip {
        size :- GetUleb();
        if size != 0 {
          first :- GetUleb();
          num :- GetUleb();
        }
      }
      o := Value(Debug(size, first, num));
    }

    predicate ProtoAgrees(o: Outcome<Option<Proto<Template>>>, r: ProtoRes)
      reads this
    {
      match r
      case GotProto(x, st, rest) => o == Value(Some(x)) && stack == st && p == rest
      case EndOfDump(rest) => o == Value(None) && p == rest
      case BadProto(e) => o == Fault(e)
    }

    method GetRest(h: Head, d: Debug) returns (o: Outcome<Option<Proto<Template>>>)
      modifies this`p, this`stack
      ensures ProtoAgrees(o, ReadRest(old(p), h, d, old(stack)))
    {
      hide ReadIns, ReadUv, ReadGcs, ReadKnums;
      var bc :- GetIns(h.nbc);
      var uv :- GetUv(h.sizeuv);
      var kgc :- GetGcs(h.sizekgc);
      var kn :- GetKnums(h.sizekn);
      var info :- GetBlock(d.size);
      var head := Ins(if h.flags / 2 % 2 == 1 then BC_FUNCV else BC_FUNCF, h.framesize, 0, 0);
      o := Value(Some(Proto(h.flags, h.numparams, h.framesize, uv, kgc, kn, [head] + bc, d.firstline, d.numline, info,
        0)));
    }

    /** bcread_proto */
    method GetProto() returns (o: Outcome<Option<Proto<Template>>>)
      modifies this`p, this`stack
      ensures ProtoAgrees(o, ReadProto(old(p), old(stack), strip))
      ensures o.Value? && o.v == None ==> stack == old(stack)
    {
      hide ReadUleb, ReadHead, ReadDebug, ReadRest;
      if |p| > 0 && p[0] == 0 {
        p := p[1..];
        return Value(None);
      }
      var len :- GetUleb();
      if len == 0 {
        return Value(None);
      }
      if |p| < len {
        return Fault(BadCode);
      }
      var startn := |p|;
      var h :- GetHead();
      var d :- GetDebug();
      RestIsProto(p, h, d, stack);
      var x :- GetRest(h, d);
      if len != startn - |p| {
        return Fault(BadCode);
      }
      o := Value(x);
    }

    static lemma RestIsProto(s: seq<byte>, h: Head, d: Debug, st: Stack)
      ensures !ReadRest(s, h, d, st).EndOfDump?
    {
      hide ReadIns, ReadUv, ReadGcs, ReadKnums, ReadBlock;
    }

    predicate HeaderAgrees(o: Outcome<bool>, r: HeaderRes)
      reads this
    {
      match r
      case GotHeader(st, name, rest) => o == Value(true) && strip == st && chunkname == name && p == rest
      case BadHeader(e) => if e == BadFormat then o == Value(false) else o == Fault(e)
    }

    /** bcread_header: false if this is not a dump. */
    method GetHeader(chunkarg: seq<byte>) returns (o: Outcome<bool>)
      modifies this`p, this`strip, this`chunkname
      ensures HeaderAgrees(o, ReadHeader(old(p), chunkarg))
    {
      hide ReadUleb;
      var h2 :- GetByte();
      if h2 != HEAD2 {
        return Value(false);
      }
      var h3 :- GetByte();
      if h3 != HEAD3 {
        return Value(false);
      }
      var version :- GetByte();
      if version != VERSION {
        return Value(false);
      }
      assert p == old(p)[3..];
      UlebNotFormat(p);
      var flags :- GetUleb();
      if flags >= 8 {
        return Value(false);
      }
      if flags / 2 % 2 == 1 {
        strip, chunkname := true, chunkarg;
      } else {
        UlebNotFormat(p);
        var len :- GetUleb();
        if |p| < len {
          return Fault(BadCode);
        }
        strip, chunkname := false, p[..len];
        p := p[len..];
      }
      o := Value(true);
    }

    static lemma {:induction false} SpeltPast(s: seq<byte>, n: nat)
      ensures Spelt(s, n).Bad? ==> Spelt(s, n).e == PastEnd
    {
      if n > 0 && s != [] && s[0] >= 0x80 { SpeltPast(s[1..], n - 1); }
    }

    static lemma UlebNotFormat(s: seq<byte>)
      ensures ReadUleb(s).Bad? ==> ReadUleb(s).e == PastEnd
    {
      SpeltPast(s, 5);
    }

    predicate ChunkAgrees(o: Outcome<Proto<Template>>, r: Chunk)
      reads this
    {
      match r
      case Chunk(x, name) => o == Value(x) && chunkname == name && stack == [] && p == []
      case NoChunk(e) => o == Fault(e)
    }

    /** lj_bcread, after the byte that the lexer has looked at. */
    method Read(chunkarg: seq<byte>) returns (o: Outcome<Proto<Template>>)
      requires stack == []
      modifies this
      ensures ChunkAgrees(o, Load(old(p), chunkarg))
    {
      hide ReadHeader, ReadProto, LoadAll;
      var ok :- GetHeader(chunkarg);
      if !ok {
        return Fault(BadFormat);
      }
      ghost var was := p;
      var more := true;
      ghost var n := |p|;
      while more
        invariant more ==> LoadAll(was, [], strip) == LoadAll(p, stack, strip)
        invariant !more ==> LoadAll(was, [], strip) == Loaded(stack, p)
        invariant ReadHeader(old(p), chunkarg) == GotHeader(strip, chunkname, was)
        decreases if more then 1 + |p| else 0
      {
        LoadOne(p, stack, strip);
        ProtoShorter(p, stack, strip);
        var pt :- GetProto();
        if pt == None {
          more := false;
        } else {
          stack := stack + [pt.value];
        }
      }
      if |p| > 0 || |stack| != 1 {
        return Fault(BadCode);
      }
      o := Value(stack[0]);
      stack := [];
    }

    static lemma LoadOne(s: seq<byte>, stack: Stack, strip: bool)
      ensures LoadAll(s, stack, strip) == (match ReadProto(s, stack, strip)
                                           case BadProto(e) => Failed(e)
                                           case EndOfDump(r) => Loaded(stack, r)
                                           case GotProto(p, st, r) => LoadAll(r, st + [p], strip))
    {
      hide ReadProto;
    }
  }
}
