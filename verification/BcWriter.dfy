/** The bytecode writer: one buffer, filled and handed to a callback for each prototype. */
module BcWriter {
  import opened BcWords
  import opened BcConst
  import opened BcProto
  import opened BcDump

  class Writer {
    const strip: bool
    const starts: seq<Ins>
    const replies: seq<int>
    var buf: seq<byte>
    var n: nat
    var calls: nat
    var status: int
    var out: seq<byte>

    ghost predicate Valid()
      reads this
    {
      n <= |buf| && 5 <= |buf|
    }

    ghost function Text(): seq<byte>
      requires Valid()
      reads this
    {
      buf[..n]
    }

    /** The buffer after the writing position is as before. */
    twostate predicate TailKept()
      reads this
    {
      n <= |old(buf)| ==> |buf| == |old(buf)| && buf[n..] == old(buf)[n..]
    }

    constructor (strip: bool, starts: seq<Ins>, replies: seq<int>)
      ensures Valid() && out == [] && status == 0 && calls == 0
      ensures this.strip == strip && this.starts == starts && this.replies == replies
    {
      this.strip, this.starts, this.replies := strip, starts, replies;
      buf, n, calls, status, out := seq(1024, _ => 0), 0, 0, 0, [];
    }

    method PutByte(b: byte)
      requires Valid()
      modifies this`buf, this`n
      ensures Valid() && Text() == old(Text()) + [b] && n == old(n) + 1 && TailKept()
    {
      buf := if n < |buf| then buf[n := b] else buf + [b];
      n := n + 1;
    }

    method PutBlock(p: seq<byte>)
      requires Valid()
      modifies this`buf, this`n
      ensures Valid() && Text() == old(Text()) + p
    {
      var i := 0;
      assert p[..0] == [];
      while i < |p|
        invariant i <= |p| && Valid() && Text() == old(Text()) + p[..i]
      {
        PutByte(p[i]);
        assert p[..i + 1] == p[..i] + [p[i]];
        i := i + 1;
      }
      assert p[..i] == p;
    }

    method PutUleb(x: u32)
      requires Valid()
      modifies this`buf, this`n
      ensures Valid() && Text() == old(Text()) + Uleb(x) && n == old(n) + |Uleb(x)| && TailKept()
    {
      hide *;
      var v: nat := x;
      ghost var t, done := Text(), [];
      while v >= 0x80
        invariant Valid() && Text() == t + done && Uleb(x) == done + Uleb(v) && n == old(n) + |done|
        invariant n <= |old(buf)| ==> |buf| == |old(buf)| && buf[n..] == old(buf)[n..]
        decreases v
      {
        UlebNext(v);
        var b: byte := v % 0x80 + 0x80;
        Joined(done, [b], Uleb(v / 0x80));
        Joined(t, done, [b]);
        label L:
        PutByte(b);
        TailIs@L();
        done := done + [b];
        v := v / 0x80;
      }
      UlebNext(v);
      Joined(t, done, [v]);
      label M:
      PutByte(v);
      TailIs@M();
      TailIs();
    }

    /** The digits of a number, lowest first. */
    static lemma UlebNext(v: nat)
      ensures v < 0x80 ==> Uleb(v) == [v]
      ensures v >= 0x80 ==> v % 0x80 + 0x80 < 256 && Uleb(v) == [v % 0x80 + 0x80] + Uleb(v / 0x80) && v / 0x80 < v
    {
    }

    twostate lemma TailIs()
      ensures TailKept() <==> (n <= |old(buf)| ==> |buf| == |old(buf)| && buf[n..] == old(buf)[n..])
      ensures TailKept() && n <= |old(buf)| ==> forall m :: n <= m <= |buf| ==> buf[m..] == old(buf)[m..]
    {
    }

    method PutNum(n: Num)
      requires Valid()
      modifies this`buf, this`n
      ensures Valid() && Text() == old(Text()) + NumBytes(n)
    {
      PutUleb(n.lo);
      PutUleb(n.hi);
    }

    /** bcwrite_ktabk */
    method PutTv(o: TV, narrow: bool)
      requires Valid() && TvOk(o)
      modifies this`buf, this`n
      ensures Valid() && Text() == old(Text()) + TvBytes(o, narrow)
    {
      hide *;
      TvIs(o, narrow);
      ghost var t := Text();
      match o {
        case Str(s) =>
          PutUleb(KTAB_STR + |s|);
          PutBlock(s);
          Joined(t, Uleb(KTAB_STR + |s|), s);
        case Number(n) =>
          NarrowIs(n);
          if narrow {
            var k := ToInt(n);
            if n == ToDouble(k) || (n == NEGATIVE_ZERO && k == 0) {
              PutByte(KTAB_INT);
              PutUleb(ToWord(k));
              Joined(t, [KTAB_INT], Uleb(ToWord(k)));
              return;
            }
          }
          PutByte(KTAB_NUM);
          PutNum(n);
          Joined(t, [KTAB_NUM], NumBytes(n));
        case Nil => PutByte(0);
        case False => PutByte(1);
        case True => PutByte(2);
      }
    }

    static lemma TvIs(o: TV, narrow: bool)
      requires TvOk(o)
      ensures o.Str? ==> KTAB_STR + |o.s| < 0x1_0000_0000 && TvBytes(o, narrow) == Uleb(KTAB_STR + |o.s|) + o.s
      ensures KTAB_INT < 256 && KTAB_NUM < 256
      ensures o.Number? && narrow && Narrow(o.n).Some? ==>
        TvBytes(o, narrow) == [KTAB_INT] + Uleb(ToWord(Narrow(o.n).value))
      ensures o.Number? && !(narrow && Narrow(o.n).Some?) ==> TvBytes(o, narrow) == [KTAB_NUM] + NumBytes(o.n)
      ensures o.Nil? ==> TvBytes(o, narrow) == [0]
      ensures o.False? ==> TvBytes(o, narrow) == [1]
      ensures o.True? ==> TvBytes(o, narrow) == [2]
    {
      hide Uleb, Narrow;
    }

    static lemma Joined(t: seq<byte>, a: seq<byte>, b: seq<byte>)
      ensures (t + a) + b == t + (a + b)
    {
    }

    /** The array part, up to its last value that is not nil, and the nodes in use from the last down. */
    method PutTab(t: Tab)
      requires Valid() && TabOk(t)
      modifies this`buf, this`n
      ensures Valid() && Text() == old(Text()) + TabBytes(t)
    {
      hide *;
      TabParts(t);
      var narray := LastUsed(t.slots);
      var nhash := CountNodes(t.nodes);
      PutUleb(narray);
      PutUleb(nhash);
      PutSlots(t.slots, narray);
      PutNodes(t.nodes, nhash);
    }

    lemma TabParts(t: Tab)
      requires TabOk(t)
      ensures var a := Trimmed(t.slots);
        TabBytes(t) == Uleb(|a|) + Uleb(UsedNodes(t.nodes)) + ArrayBytes(a) + HashBytes(t.nodes) &&
          |a| < 0x1_0000_0000 && |a| <= |t.slots| &&
        a == t.slots[..|a|] && UsedNodes(t.nodes) < 0x1_0000_0000
      ensures forall i :: 0 <= i < |t.slots| ==> TvOk(t.slots[i])
      ensures forall i :: 0 <= i < |t.nodes| && !t.nodes[i].1.Nil? ==> TvOk(t.nodes[i].0) && TvOk(t.nodes[i].1)
    {
    }

    method LastUsed(a: seq<TV>) returns (n: nat)
      ensures n <= |a| && Trimmed(a) == a[..n] && n == |Trimmed(a)|
    {
      n := |a|;
      assert a[..n] == a;
      while n > 0 && a[n - 1].Nil?
        invariant n <= |a| && Trimmed(a) == Trimmed(a[..n])
      {
        assert a[..n][..n - 1] == a[..n - 1];
        n := n - 1;
      }
    }

    method CountNodes(nodes: seq<(TV, TV)>) returns (n: nat)
      ensures n == UsedNodes(nodes)
    {
      n := 0;
      var i := 0;
      assert nodes[0..] == nodes;
      while i < |nodes|
        invariant i <= |nodes| && n + UsedNodes(nodes[i..]) == UsedNodes(nodes)
      {
        assert nodes[i..][1..] == nodes[i + 1..];
        if !nodes[i].1.Nil? {
          n := n + 1;
        }
        i := i + 1;
      }
    }

    static lemma {:induction false} ArrayNext(a: seq<TV>, i: nat)
      requires i <= |a|
      ensures ArrayBytes(a[..i]) + ArrayBytes(a[i..]) == ArrayBytes(a)
      decreases |a|
    {
      hide *;
      ArrayStarts(a);
      ArrayStarts(a[..i]);
      if i == 0 {
        assert a[0..] == a;
      } else {
        ArrayNext(a[1..], i - 1);
        assert a[..i][1..] == a[1..][..i - 1] && a[1..][i - 1..] == a[i..];
        Joined(TvBytes(a[0], true), ArrayBytes(a[1..][..i - 1]), ArrayBytes(a[i..]));
      }
    }

    static lemma ArrayStarts(a: seq<TV>)
      ensures ArrayBytes(a) == if a == [] then [] else TvBytes(a[0], true) + ArrayBytes(a[1..])
    {
    }

    method PutSlots(a: seq<TV>, m: nat)
      requires Valid() && m <= |a| && forall i :: 0 <= i < |a| ==> TvOk(a[i])
      modifies this`buf, this`n
      ensures Valid() && Text() == old(Text()) + ArrayBytes(a[..m])
    {
      hide TvBytes, Trimmed;
      var i := 0;
      while i < m
        invariant i <= m && Valid() && Text() == old(Text()) + ArrayBytes(a[..i])
      {
        PutTv(a[i], true);
        ArrayNext(a[..i + 1], i);
        assert a[..i + 1][..i] == a[..i] && a[..i + 1][i..] == [a[i]];
        assert ArrayBytes([a[i]]) == TvBytes(a[i], true) + ArrayBytes([]);
        i := i + 1;
      }
    }

    method PutNodes(nodes: seq<(TV, TV)>, nhash: nat)
      requires Valid() && nhash == UsedNodes(nodes)
      requires forall i :: 0 <= i < |nodes| && !nodes[i].1.Nil? ==> TvOk(nodes[i].0) && TvOk(nodes[i].1)
      modifies this`buf, this`n
      ensures Valid() && Text() == old(Text()) + HashBytes(nodes)
    {
      hide TvBytes;
      var i: nat, j: nat := nhash, |nodes|;
      NoUsed(nodes, j);
      while i > 0
        invariant j <= |nodes| && i <= nhash && UsedNodes(nodes[j..]) + i == nhash && Valid() &&
          Text() == old(Text()) + HashBytes(nodes[j..])
        decreases j
      {
        NoUsed(nodes, j);
        j := j - 1;
        assert nodes[j..][1..] == nodes[j + 1..];
        if !nodes[j].1.Nil? {
          PutTv(nodes[j].0, false);
          PutTv(nodes[j].1, true);
          i := i - 1;
        }
      }
      NoneLeft(nodes, j);
    }

    /** At the first node all nodes in use are counted. */
    static lemma NoUsed(nodes: seq<(TV, TV)>, j: nat)
      requires j <= |nodes|
      ensures j == 0 ==> nodes[j..] == nodes
      ensures j == |nodes| ==> nodes[j..] == []
    {
    }

    static lemma {:induction false} NoneLeft(nodes: seq<(TV, TV)>, j: nat)
      requires j <= |nodes| && UsedNodes(nodes[j..]) == UsedNodes(nodes)
      ensures HashBytes(nodes[j..]) == HashBytes(nodes)
      decreases |nodes|
    {
      if j > 0 {
        assert nodes[1..][j - 1..] == nodes[j..];
        UsedMono(nodes[1..], j - 1);
        NoneLeft(nodes[1..], j - 1);
      } else {
        assert nodes[0..] == nodes;
      }
    }

    static lemma {:induction false} UsedMono(nodes: seq<(TV, TV)>, j: nat)
      requires j <= |nodes|
      ensures UsedNodes(nodes[j..]) <= UsedNodes(nodes)
      decreases |nodes|
    {
      if j > 0 {
        assert nodes[1..][j - 1..] == nodes[j..];
        UsedMono(nodes[1..], j - 1);
      } else {
        assert nodes[0..] == nodes;
      }
    }

    /** bcwrite_kgc, one constant. */
    method PutGc(k: Gc<Tab>)
      requires Valid() && GcOk(k)
      modifies this`buf, this`n
      ensures Valid() && Text() == old(Text()) + GcBytes(k)
    {
      hide Uleb, TabOk, TabBytes;
      match k {
        case KStr(s) =>
          PutUleb(KGC_STR + |s|);
          PutBlock(s);
        case KChild(_) => PutUleb(KGC_CHILD);
        case KTab(t) =>
          PutUleb(KGC_TAB);
          PutTab(t);
        case KI64(n) =>
          PutUleb(KGC_I64);
          PutNum(n);
        case KU64(n) =>
          PutUleb(KGC_U64);
          PutNum(n);
        case KComplex(re, im) =>
          PutUleb(KGC_COMPLEX);
          PutNum(re);
          PutNum(im);
      }
    }

    static lemma {:induction false} GcsNext(k: seq<Gc<Tab>>, i: nat)
      requires i < |k|
      ensures GcsBytes(k[..i + 1]) == GcsBytes(k[..i]) + GcBytes(k[i])
      decreases i
    {
      hide GcBytes;
      if i == 0 {
        assert k[..1] == [k[0]] && k[..0] == [];
        assert GcsBytes([k[0]]) == GcBytes(k[0]) + GcsBytes([]);
      } else {
        GcsNext(k[1..], i - 1);
        assert k[..i + 1][1..] == k[1..][..i] && k[..i][1..] == k[1..][..i - 1] && k[1..][i - 1] == k[i];
      }
    }

    method PutGcs(k: seq<Gc<Tab>>)
      requires Valid() && forall i :: 0 <= i < |k| ==> GcOk(k[i])
      modifies this`buf, this`n
      ensures Valid() && Text() == old(Text()) + GcsBytes(k)
    {
      hide GcBytes, GcOk;
      var i := 0;
      while i < |k|
        invariant i <= |k| && Valid() && Text() == old(Text()) + GcsBytes(k[..i])
      {
        PutGc(k[i]);
        GcsNext(k, i);
        i := i + 1;
      }
      assert k[..i] == k;
    }

    /** A word in the 33 bit form: the last byte is patched in place when the top bit is set. */
    method PutUleb33(x: u32, lsb: nat)
      requires Valid() && lsb < 2
      modifies this`buf, this`n
      ensures Valid() && Text() == old(Text()) + Uleb(2 * x + lsb)
    {
      hide Uleb, PatchedByte;
      PatchIsRight(x, lsb);
      ghost var before := Text();
      PutUleb(Folded(x, lsb));
      ghost var u := Uleb(Folded(x, lsb));
      if x >= 0x8000_0000 {
        assert buf[..n] == before + u && buf[n - 1] == u[4];
        buf := buf[n - 1 := PatchedByte(buf[n - 1], x)];
        assert buf[..n] == before + u[4 := PatchedByte(u[4], x)];
      }
    }

    /** bcwrite_knum, one number: narrowed to an integer, or both words. */
    method PutKnum(o: Num)
      requires Valid()
      modifies this`buf, this`n
      ensures Valid() && Text() == old(Text()) + KnumBytes(o)
    {
      hide Uleb, ToDouble, ToInt, Narrow;
      NarrowIs(o);
      var k := ToInt(o);
      if o == ToDouble(k) || (o == NEGATIVE_ZERO && k == 0) {
        PutUleb33(ToWord(k), 0);
      } else {
        PutUleb33(o.lo, 1);
        PutUleb(o.hi);
      }
    }

    static lemma {:induction false} KnumsNext(k: seq<Num>, i: nat)
      requires i < |k|
      ensures KnumsBytes(k[..i + 1]) == KnumsBytes(k[..i]) + KnumBytes(k[i])
      decreases i
    {
      hide KnumBytes;
      if i == 0 {
        assert k[..1] == [k[0]] && k[..0] == [];
        assert KnumsBytes([k[0]]) == KnumBytes(k[0]) + KnumsBytes([]);
      } else {
        KnumsNext(k[1..], i - 1);
        assert k[..i + 1][1..] == k[1..][..i] && k[..i][1..] == k[1..][..i - 1] && k[1..][i - 1] == k[i];
      }
    }

    method PutKnums(k: seq<Num>)
      requires Valid()
      modifies this`buf, this`n
      ensures Valid() && Text() == old(Text()) + KnumsBytes(k)
    {
      hide KnumBytes;
      var i := 0;
      while i < |k|
        invariant i <= |k| && Valid() && Text() == old(Text()) + KnumsBytes(k[..i])
      {
        PutKnum(k[i]);
        KnumsNext(k, i);
        i := i + 1;
      }
      assert k[..i] == k;
    }

    static lemma {:induction false} InsNext(c: seq<Ins>, i: nat)
      requires i < |c|
      ensures InsBytes(c[..i + 1]) == InsBytes(c[..i]) + [c[i].op, c[i].a, c[i].c, c[i].b]
      decreases i
    {
      if i == 0 {
        assert c[..1] == [c[0]] && c[..0] == [];
        assert InsBytes([c[0]]) == [c[0].op, c[0].a, c[0].c, c[0].b] + InsBytes([]);
      } else {
        InsNext(c[1..], i - 1);
        assert c[..i + 1][1..] == c[1..][..i] && c[..i][1..] == c[1..][..i - 1] && c[1..][i - 1] == c[i];
      }
    }

    /** bcwrite_bytecode: all instructions but the header; patched loops are unpatched. */
    method PutCode(p: Proto<Tab>)
      requires Valid() && p.bc != []
      modifies this`buf, this`n
      ensures Valid() && Text() == old(Text()) + InsBytes(Code(p, starts))
    {
      hide Unpatch, InsBytes;
      ghost var c := Code(p, starts);
      var patched := p.flags / PROTO_ILOOP % 2 == 1 || p.trace != 0;
      var i := 0;
      assert InsBytes(c[..0]) == [] by { NoIns(); }
      while i < |p.bc| - 1
        invariant i <= |p.bc| - 1 && Valid() && Text() == old(Text()) + InsBytes(c[..i])
      {
        var ins := p.bc[i + 1];
        if patched {
          ins := Unpatch(ins, starts);
        }
        assert ins == c[i];
        InsNext(c, i);
        PutBlock([ins.op, ins.a, ins.c, ins.b]);
        i := i + 1;
      }
      assert c[..i] == c;
    }

    static lemma NoIns()
      ensures InsBytes([]) == []
    {
    }

    static lemma {:induction false} UvNext(u: seq<u16>, i: nat)
      requires i < |u|
      ensures UvBytes(u[..i + 1]) == UvBytes(u[..i]) + [u[i] % 256, u[i] / 256]
      decreases i
    {
      if i == 0 {
        assert u[..1] == [u[0]] && u[..0] == [];
        assert UvBytes([u[0]]) == [u[0] % 256, u[0] / 256] + UvBytes([]);
      } else {
        UvNext(u[1..], i - 1);
        assert u[..i + 1][1..] == u[1..][..i] && u[..i][1..] == u[1..][..i - 1] && u[1..][i - 1] == u[i];
      }
    }

    method PutUv(u: seq<u16>)
      requires Valid()
      modifies this`buf, this`n
      ensures Valid() && Text() == old(Text()) + UvBytes(u)
    {
      var i := 0;
      while i < |u|
        invariant i <= |u| && Valid() && Text() == old(Text()) + UvBytes(u[..i])
      {
        UvNext(u, i);
        PutBlock([u[i] % 256, u[i] / 256]);
        i := i + 1;
      }
      assert u[..i] == u;
    }

    method PutHead(p: Proto<Tab>)
      requires Valid() && SizesOk(p, strip, starts)
      modifies this`buf, this`n
      ensures Valid() && |p.uv| < 256 && p.bc != [] && Text() == old(Text()) + HeadBytes(p)
    {
      hide Uleb, GcOk, Body;
      PutByte(p.flags % 8);
      PutByte(p.numparams);
      PutByte(p.framesize);
      PutByte(|p.uv|);
      PutUleb(|p.kgc|);
      PutUleb(|p.knum|);
      PutUleb(|p.bc| - 1);
    }

    method PutDebugHead(p: Proto<Tab>) returns (sizedbg: nat)
      requires Valid() && |p.info| < 0x1_0000_0000
      modifies this`buf, this`n
      ensures Valid() && Text() == old(Text()) + DebugHead(p, strip) && sizedbg == if strip then 0 else |p.info|
    {
      hide Uleb;
      sizedbg := 0;
      if !strip {
        sizedbg := |p.info|;
        PutUleb(sizedbg);
        if sizedbg != 0 {
          PutUleb(p.firstline);
          PutUleb(p.numline);
        }
      }
    }

    /** What there is of a prototype after the space left for its length. */
    method PutBody(p: Proto<Tab>)
      requires Valid() && SizesOk(p, strip, starts)
      modifies this`buf, this`n
      ensures Valid() && |p.uv| < 256 && p.bc != [] && Text() == old(Text()) + Body(p, strip, starts)
    {
      hide *;
      BodyParts(p);
      ghost var t := Text();
      PutHead(p);
      var sizedbg := PutDebugHead(p);
      PutCode(p);
      PutUv(p.uv);
      PutGcs(p.kgc);
      PutKnums(p.knum);
      if sizedbg != 0 {
        PutBlock(p.info);
      }
      BodyIs(p, t);
    }

    lemma BodyParts(p: Proto<Tab>)
      requires SizesOk(p, strip, starts)
      ensures |p.uv| < 256 && p.bc != [] && |p.info| < 0x1_0000_0000 && forall i :: 0 <= i < |p.kgc| ==> GcOk(p.kgc[i])
    {
    }

    lemma BodyIs(p: Proto<Tab>, t: seq<byte>)
      requires |p.uv| < 256 && p.bc != []
      ensures t + Body(p, strip, starts) ==
        t + HeadBytes(p) + DebugHead(p, strip) + InsBytes(Code(p, starts)) + UvBytes(p.uv) + GcsBytes(p.kgc)
          + KnumsBytes(p.knum) +
          (if strip then [] else p.info)
      ensures strip || p.info == [] ==>
        (t + Body(p, strip, starts) ==
         t + HeadBytes(p) + DebugHead(p, strip) + InsBytes(Code(p, starts)) + UvBytes(p.uv) + GcsBytes(p.kgc)
           + KnumsBytes(p.knum))
    {
      hide HeadBytes, DebugHead, InsBytes, Code, UvBytes, GcsBytes, KnumsBytes;
    }

    /** The callback gets a block; its reply is the status. */
    method Send(b: seq<byte>)
      modifies this`calls, this`status, this`out
      ensures out == old(out) + b && calls == old(calls) + 1
      ensures status == if old(calls) < |replies| then replies[old(calls)] else 0
    {
      out := out + b;
      status := if calls < |replies| then replies[calls] else 0;
      calls := calls + 1;
    }

    /** bcwrite_proto without its children: the length is filled in before the body, and ends right where that begins.
        */
    method PutOwn(p: Proto<Tab>)
      requires Valid() && SizesOk(p, strip, starts)
      modifies this
      ensures Valid() && out == if old(status) == 0 then old(out) + Framed(Body(p, strip, starts)) else old(out)
      ensures old(status) != 0 ==> status == old(status)
      ensures (forall i :: 0 <= i < |replies| ==> replies[i] == 0) && old(status) == 0 ==> status == 0
    {
      hide SizesOk, Body, Uleb;
      n := 0;
      n := 5;
      BodyNotEmpty(p);
      PutBody(p);
      if status == 0 {
        ghost var b := Body(p, strip, starts);
        SizesBound(p, strip, starts);
        var len := n - 5;
        assert buf[5..n] == b && len == |b|;
        BodyNotEmpty(p);
        LengthFits(len);
        var nn := LengthBytes(len);
        var end := n;
        n := 5 - nn;
        PutUleb(len);
        assert n == 5;
        assert buf[5..end] == b;
        assert buf[5 - nn..5] == Uleb(len);
        assert buf[5 - nn..end] == Uleb(len) + b;
        Send(buf[5 - nn..end]);
      }
    }

    lemma BodyNotEmpty(p: Proto<Tab>)
      requires SizesOk(p, strip, starts)
      ensures |p.uv| < 256 && p.bc != [] && |Body(p, strip, starts)| > 0
    {
    }

    /** bcwrite_proto: children first, from the last constant down. */
    method PutProto(p: Proto<Tab>)
      requires Valid() && ProtoOk(p, strip, starts)
      modifies this
      ensures Valid() && old(out) <= out <= old(out) + Dump(p, strip, starts)
      ensures status == 0 ==> old(status) == 0 && out == old(out) + Dump(p, strip, starts)
      ensures old(status) != 0 ==> out == old(out)
      ensures (forall i :: 0 <= i < |replies| ==> replies[i] == 0) && old(status) == 0 ==> status == 0
      decreases p, |p.kgc| + 1
    {
      hide *;
      DumpIs(p, strip, starts);
      ValidIs();
      ghost var before := out;
      ghost var kids := if HasChildren(p.flags) then DumpKids(p, 0, strip, starts) else [];
      if p.flags % 2 == 1 {
        ChildFlag(p.flags);
        PutKids(p);
      } else {
        ChildFlag(p.flags);
      }
      assert before <= out <= before + kids;
      PutOwn(p);
      ghost var own := Framed(Body(p, strip, starts));
      assert before + (kids + own) == (before + kids) + own;
    }

    lemma ValidIs()
      ensures Valid() == (n <= |buf| && 5 <= |buf|)
    {
    }

    static lemma ChildFlag(f: byte)
      ensures HasChildren(f) == (f % 2 == 1)
    {
    }

    method PutKids(p: Proto<Tab>)
      requires Valid() && KidsOk(p, 0, strip, starts) && HasChildren(p.flags)
      modifies this
      ensures Valid() && old(out) <= out <= old(out) + DumpKids(p, 0, strip, starts)
      ensures status == 0 ==> old(status) == 0 && out == old(out) + DumpKids(p, 0, strip, starts)
      ensures old(status) != 0 ==> out == old(out)
      ensures (forall i :: 0 <= i < |replies| ==> replies[i] == 0) && old(status) == 0 ==> status == 0
      decreases p, |p.kgc|
    {
      hide *;
      var i: nat := |p.kgc|;
      KidsAll(p, 0, strip, starts);
      KidsAre(p, i, strip, starts);
      ghost var before := out;
      while i > 0
        invariant i <= |p.kgc| && Valid() && KidsOk(p, i, strip, starts)
        invariant before <= out <= before + DumpKids(p, i, strip, starts)
        invariant status == 0 ==> old(status) == 0 && out == before + DumpKids(p, i, strip, starts)
        invariant old(status) != 0 ==> status != 0 && out == before
        invariant (forall j :: 0 <= j < |replies| ==> replies[j] == 0) && old(status) == 0 ==> status == 0
        decreases i
      {
        i := i - 1;
        KidsAll(p, 0, strip, starts);
        KidsAre(p, i, strip, starts);
        ghost var later := DumpKids(p, i + 1, strip, starts);
        if p.kgc[i].KChild? {
          ghost var was := out;
          PutProto(p.kgc[i].p);
          Prefixes(before, was, out);
          ghost var own := Dump(p.kgc[i].p, strip, starts);
          assert before + (later + own) == (before + later) + own;
          Prefixes(out, before + later, (before + later) + own);
        } else {
          assert later + [] == later;
        }
      }
    }

    static lemma Prefixes(a: seq<byte>, b: seq<byte>, c: seq<byte>)
      ensures a <= b <= c ==> a <= c
    {
    }

    static lemma {:induction false} KidsAll(p: Proto<Tab>, i: nat, strip: bool, starts: seq<Ins>)
      requires i <= |p.kgc| && KidsOk(p, i, strip, starts)
      ensures forall j {:trigger KidsOk(p, j, strip, starts)} :: i <= j <= |p.kgc| ==> KidsOk(p, j, strip, starts)
      decreases |p.kgc| - i
    {
      if i < |p.kgc| { KidsAll(p, i + 1, strip, starts); }
    }

    method PutHeader(flags: byte, name: seq<byte>)
      requires Valid() && |name| < 0x1_0000_0000
      modifies this
      ensures Valid() && out == old(out) + Header(flags, name, strip)
      ensures (forall i :: 0 <= i < |replies| ==> replies[i] == 0) ==> status == 0
    {
      hide Uleb, HeaderFlags;
      n := 0;
      PutByte(HEAD1);
      PutByte(HEAD2);
      PutByte(HEAD3);
      PutByte(VERSION);
      PutByte(HeaderFlags(flags, strip));
      if !strip {
        PutUleb(|name|);
        PutBlock(name);
      }
      assert buf[..n] == Header(flags, name, strip);
      Send(buf[..n]);
    }

    /** lj_bcwrite: header, prototypes, and a zero byte at the end; a callback that refuses a block gets no more. */
    method Write(p: Proto<Tab>, name: seq<byte>)
      requires Valid() && status == 0 && out == [] && ProtoOk(p, strip, starts) && |name| < 0x1_0000_0000
      modifies this
      ensures out <= DumpFile(p, name, strip, starts) && (status == 0 ==> out == DumpFile(p, name, strip, starts))
      ensures (forall i :: 0 <= i < |replies| ==> replies[i] == 0) ==> status == 0
    {
      hide *;
      PutHeader(p.flags, name);
      PutProto(p);
      DumpFileIs(p, name);
      if status == 0 {
        Send([0]);
      }
      ghost var h, d := Header(p.flags, name, strip), Dump(p, strip, starts);
      assert [] + h == h;
      assert h + (d + [0]) == (h + d) + [0];
    }

    lemma DumpFileIs(p: Proto<Tab>, name: seq<byte>)
      requires ProtoOk(p, strip, starts)
      ensures DumpFile(p, name, strip, starts) == Header(p.flags, name, strip) + (Dump(p, strip, starts) + [0])
    {
    }
  }
}
