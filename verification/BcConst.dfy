/** Constants of a bytecode dump: values of template tables, and the tables. */
module BcConst {
  import opened BcWords

  /** What a template table holds; numbers are doubles. */
  datatype TV = Nil | False | True | Number(n: Num) | Str(s: seq<byte>)

  const KTAB_INT: nat := 3
  const KTAB_NUM: nat := 4
  const KTAB_STR: nat := 5

  function TvBytes(o: TV, narrow: bool): (r: seq<byte>)
    ensures |r| >= 1
  {
    match o
    case Nil => [0]
    case False => [1]
    case True => [2]
    case Number(n) =>
      if narrow && Narrow(n).Some? then [KTAB_INT] + Uleb(ToWord(Narrow(n).value))
        else [KTAB_NUM] + Uleb(n.lo) + Uleb(n.hi)
    case Str(s) => Uleb(KTAB_STR + |s|) + s
  }

  predicate TvOk(o: TV)
  {
    o.Str? ==> KTAB_STR + |o.s| < 0x1_0000_0000
  }

  /** A block of bytes. */
  function ReadBlock(s: seq<byte>, n: nat): Res<seq<byte>>
  {
    if |s| < n then Bad(PastEnd) else Got(s[..n], s[n..])
  }

  lemma BlockBack(b: seq<byte>, rest: seq<byte>)
    ensures ReadBlock(b + rest, |b|) == Got(b, rest)
  {
  }

  /** Two words, low one first. */
  function ReadNum(s: seq<byte>): Res<Num>
  {
    match ReadUleb(s)
    case Bad(e) => Bad(e)
    case Got(lo, r) =>
      match ReadUleb(r)
      case Bad(e) => Bad(e)
      case Got(hi, r') => Got(Num(lo, hi), r')
  }

  function NumBytes(n: Num): seq<byte>
  {
    Uleb(n.lo) + Uleb(n.hi)
  }

  lemma NumBack(n: Num, rest: seq<byte>)
    ensures ReadNum(NumBytes(n) + rest) == Got(n, rest)
  {
    assert NumBytes(n) + rest == Uleb(n.lo) + (Uleb(n.hi) + rest);
    UlebBack(n.lo, Uleb(n.hi) + rest);
    UlebBack(n.hi, rest);
  }

  function ReadTv(s: seq<byte>): Res<TV>
  {
    match ReadUleb(s)
    case Bad(e) => Bad(e)
    case Got(tp, r) =>
      if tp >= KTAB_STR then
        match ReadBlock(r, tp - KTAB_STR)
        case Bad(e) => Bad(e)
        case Got(b, r') => Got(Str(b), r')
      else if tp == KTAB_INT then
        match ReadUleb(r)
        case Bad(e) => Bad(e)
        case Got(w, r') => Got(Number(ToDouble(FromWord(w))), r')
      else if tp == KTAB_NUM then
        match ReadNum(r)
        case Bad(e) => Bad(e)
        case Got(n, r') => Got(Number(n), r')
      else Got(if tp == 0 then Nil else if tp == 1 then False else True, r)
  }

  /** What is read for a value that was written. */
  function Read(o: TV, narrow: bool): TV
  {
    if narrow && o.Number? then Number(Canonical(o.n)) else o
  }

  lemma SmallTag(tag: byte, rest: seq<byte>)
    requires tag < 0x80
    ensures ReadUleb([tag] + rest) == Got(tag, rest)
  {
    UlebBack(tag, rest);
  }

  lemma TvBack(o: TV, narrow: bool, rest: seq<byte>)
    requires TvOk(o)
    ensures ReadTv(TvBytes(o, narrow) + rest) == Got(Read(o, narrow), rest)
  {
    hide ReadUleb, Uleb, ToDouble, Narrow;
    match o {
      case Nil => SmallTag(0, rest);
      case False => SmallTag(1, rest);
      case True => SmallTag(2, rest);
      case Number(n) =>
        if narrow && Narrow(n).Some? {
          var w := ToWord(Narrow(n).value);
          assert TvBytes(o, narrow) + rest == [KTAB_INT] + (Uleb(w) + rest);
          SmallTag(KTAB_INT, Uleb(w) + rest);
          UlebBack(w, rest);
          Narrowed(n);
        } else {
          assert TvBytes(o, narrow) + rest == [KTAB_NUM] + (NumBytes(n) + rest);
          SmallTag(KTAB_NUM, NumBytes(n) + rest);
          NumBack(n, rest);
          if narrow { NarrowIff(n, 0); }
        }
      case Str(s) =>
        assert TvBytes(o, narrow) + rest == Uleb(KTAB_STR + |s|) + (s + rest);
        UlebBack(KTAB_STR + |s|, s + rest);
        BlockBack(s, rest);
    }
  }

  lemma Narrowed(n: Num)
    requires Narrow(n).Some?
    ensures FromWord(ToWord(Narrow(n).value)) == Narrow(n).value
    ensures ToDouble(Narrow(n).value) == Canonical(n)
  {
    if n == NEGATIVE_ZERO { NarrowIff(n, 0); }
    assert ToDouble(0) == Num(0, 0);
  }

  // ---- Template tables -----------------------------------------------------------------

  /** A table as the writer finds it: array slots, and hash nodes with their free ones. */
  datatype Tab = Tab(slots: seq<TV>, nodes: seq<(TV, TV)>)

  /** A table as the reader leaves it. */
  datatype Template = Template(slots: seq<TV>, hash: map<TV, TV>)

  /** Array slots up to the last that is not nil. */
  function Trimmed(a: seq<TV>): (r: seq<TV>)
    ensures |r| <= |a| && r == a[..|r|] && (r == [] || !r[|r| - 1].Nil?) && forall i :: |r| <= i < |a| ==> a[i].Nil?
  {
    if a == [] then [] else if a[|a| - 1].Nil? then Trimmed(a[..|a| - 1]) else a
  }

  function UsedNodes(nodes: seq<(TV, TV)>): (n: nat)
    ensures n <= |nodes|
  {
    if nodes == [] then 0 else UsedNodes(nodes[1..]) + if nodes[0].1.Nil? then 0 else 1
  }

  function ArrayBytes(a: seq<TV>): seq<byte>
  {
    if a == [] then [] else TvBytes(a[0], true) + ArrayBytes(a[1..])
  }

  /** Hash entries are written from the last node down. */
  function HashBytes(nodes: seq<(TV, TV)>): seq<byte>
  {
    if nodes == [] then []
    else
      HashBytes(nodes[1..]) +
      (if nodes[0].1.Nil? then [] else TvBytes(nodes[0].0, false) + TvBytes(nodes[0].1, true))
  }

  function TabBytes(t: Tab): seq<byte>
  {
    var a := Trimmed(t.slots);
    Uleb(|a|) + Uleb(UsedNodes(t.nodes)) + ArrayBytes(a) + HashBytes(t.nodes)
  }

  predicate IsNaN(n: Num)
  {
    Exponent(n) == 1024 && (n.hi % 0x10_0000 != 0 || n.lo != 0)
  }

  predicate KeyOk(k: TV)
  {
    !k.Nil? && (k.Number? ==> !IsNaN(k.n))
  }

  /** lj_tab_set: integer keys below the array's size go there, all others into the hash part. */
  function SetEntry(t: Template, k: TV, v: TV): Template
  {
    if k.Number? && Narrow(k.n).Some? && 0 <= Narrow(k.n).value < |t.slots|
      then t.(slots := t.slots[Narrow(k.n).value := v])
    else t.(hash := t.hash[(if k.Number? then Number(Canonical(k.n)) else k) := v])
  }

  function ReadArray(s: seq<byte>, n: nat): Res<seq<TV>>
    decreases n
  {
    if n == 0 then Got([], s)
    else
      match ReadTv(s)
      case Bad(e) => Bad(e)
      case Got(o, r) =>
        match ReadArray(r, n - 1)
        case Bad(e) => Bad(e)
        case Got(a, r') => Got([o] + a, r')
  }

  function ReadHash(s: seq<byte>, n: nat, t: Template): Res<Template>
    decreases n
  {
    if n == 0 then Got(t, s)
    else
      match ReadTv(s)
      case Bad(e) => Bad(e)
      case Got(k, r) =>
        if !KeyOk(k) then Bad(BadKey)
        else
          match ReadTv(r)
          case Bad(e) => Bad(e)
          case Got(v, r') => ReadHash(r', n - 1, SetEntry(t, k, v))
  }

  function ReadTab(s: seq<byte>): Res<Template>
  {
    match ReadUleb(s)
    case Bad(e) => Bad(e)
    case Got(narray, r) =>
      match ReadUleb(r)
      case Bad(e) => Bad(e)
      case Got(nhash, r') =>
        match ReadArray(r', narray)
        case Bad(e) => Bad(e)
        case Got(a, r'') => ReadHash(r'', nhash, Template(a, map[]))
  }

  /** A table that the parser can have made: no integer key that belongs into the array part, and no minus zero as a
      key. */
  predicate TabOk(t: Tab)
  {
    |t.slots| < 0x1_0000_0000 && |t.nodes| < 0x1_0000_0000 && (forall i :: 0 <= i < |t.slots| ==> TvOk(t.slots[i])) &&
    forall i :: 0 <= i < |t.nodes| ==> NodeOk(t.nodes[i], |t.slots|)
  }

  predicate NodeOk(n: (TV, TV), asize: nat)
  {
    !n.1.Nil? ==>
      TvOk(n.0) && TvOk(n.1) && KeyOk(n.0) &&
      (n.0.Number? ==> n.0.n != NEGATIVE_ZERO && (Narrow(n.0.n).Some? ==> !(0 <= Narrow(n.0.n).value < asize)))
  }

  function ReadAll(a: seq<TV>): (r: seq<TV>)
    ensures |r| == |a| && forall i :: 0 <= i < |a| ==> r[i] == Read(a[i], true)
  {
    if a == [] then [] else [Read(a[0], true)] + ReadAll(a[1..])
  }

  /** The entries of the nodes in use. */
  function Entries(nodes: seq<(TV, TV)>): map<TV, TV>
  {
    if nodes == [] then map[]
    else if nodes[0].1.Nil? then Entries(nodes[1..])
    else Entries(nodes[1..])[nodes[0].0 := Read(nodes[0].1, true)]
  }

  /** What a table is after dump and load: trailing nils and free nodes are gone. */
  function CleanTab(t: Tab): Template
  {
    Template(ReadAll(Trimmed(t.slots)), Entries(t.nodes))
  }

  lemma {:induction false} ArrayBack(a: seq<TV>, rest: seq<byte>)
    requires forall i :: 0 <= i < |a| ==> TvOk(a[i])
    ensures ReadArray(ArrayBytes(a) + rest, |a|) == Got(ReadAll(a), rest)
  {
    hide ReadTv, TvBytes, Read;
    if a == [] {
      assert ArrayBytes(a) + rest == rest;
    } else {
      assert ArrayBytes(a) + rest == TvBytes(a[0], true) + (ArrayBytes(a[1..]) + rest);
      TvBack(a[0], true, ArrayBytes(a[1..]) + rest);
      ArrayBack(a[1..], rest);
    }
  }

  lemma {:induction false} HashBack(nodes: seq<(TV, TV)>, asize: nat, rest: seq<byte>, m: nat, t: Template)
    requires forall i :: 0 <= i < |nodes| ==> NodeOk(nodes[i], asize)
    requires |t.slots| <= asize
    ensures ReadHash(HashBytes(nodes) + rest, UsedNodes(nodes) + m, t)
      == ReadHash(rest, m, t.(hash := t.hash + Entries(nodes)))
  {
    hide ReadTv, TvBytes, Read, SetEntry, NodeOk;
    if nodes == [] {
      assert HashBytes(nodes) + rest == rest;
      assert t.hash + Entries(nodes) == t.hash;
    } else {
      var k, v := nodes[0].0, nodes[0].1;
      if v.Nil? {
        assert HashBytes(nodes) + rest == HashBytes(nodes[1..]) + rest;
        HashBack(nodes[1..], asize, rest, m, t);
      } else {
        var pair := TvBytes(k, false) + TvBytes(v, true);
        assert HashBytes(nodes) + rest == HashBytes(nodes[1..]) + (pair + rest);
        HashBack(nodes[1..], asize, pair + rest, m + 1, t);
        var t' := t.(hash := t.hash + Entries(nodes[1..]));
        PairBack(k, v, asize, rest, m, t');
        assert t'.hash[k := Read(v, true)] == t.hash + Entries(nodes);
      }
    }
  }

  lemma PairBack(k: TV, v: TV, asize: nat, rest: seq<byte>, m: nat, t: Template)
    requires NodeOk((k, v), asize) && !v.Nil? && |t.slots| <= asize
    ensures ReadHash(TvBytes(k, false) + TvBytes(v, true) + rest, m + 1, t)
      == ReadHash(rest, m, t.(hash := t.hash[k := Read(v, true)]))
  {
    hide ReadTv, TvBytes;
    assert TvBytes(k, false) + TvBytes(v, true) + rest == TvBytes(k, false) + (TvBytes(v, true) + rest);
    TvBack(k, false, TvBytes(v, true) + rest);
    TvBack(v, true, rest);
    assert SetEntry(t, k, Read(v, true)) == t.(hash := t.hash[k := Read(v, true)]);
  }

  /** A table is read back with the same contents. */
  lemma TabBack(t: Tab, rest: seq<byte>)
    requires TabOk(t)
    ensures ReadTab(TabBytes(t) + rest) == Got(CleanTab(t), rest)
  {
    hide Uleb, ReadUleb, ReadTv, TvBytes, ArrayBytes, HashBytes, ReadArray, ReadHash, Trimmed, UsedNodes, NodeOk, TvOk;
    var a, n := Trimmed(t.slots), UsedNodes(t.nodes);
    var r2 := HashBytes(t.nodes) + rest;
    var r1 := ArrayBytes(a) + r2;
    assert TabBytes(t) + rest == Uleb(|a|) + (Uleb(n) + r1);
    UlebBack(|a|, Uleb(n) + r1);
    UlebBack(n, r1);
    ArrayBack(a, r2);
    var e := Template(ReadAll(a), map[]);
    HashBack(t.nodes, |t.slots|, rest, 0, e);
    assert map[] + Entries(t.nodes) == Entries(t.nodes);
    HashDone(rest, e.(hash := Entries(t.nodes)));
  }

  lemma HashDone(s: seq<byte>, t: Template)
    ensures ReadHash(s, 0, t) == Got(t, s)
  {
  }

  /** The keys in use are all different, as in any table. */
  predicate KeysDiffer(nodes: seq<(TV, TV)>)
  {
    forall i, j :: 0 <= i < j < |nodes| && !nodes[i].1.Nil? && !nodes[j].1.Nil? ==> nodes[i].0 != nodes[j].0
  }

  /** The entries read back are exactly those of the nodes in use. */
  lemma {:induction false} EntriesExact(nodes: seq<(TV, TV)>, k: TV)
    requires KeysDiffer(nodes)
    ensures k in Entries(nodes) <==> exists i :: 0 <= i < |nodes| && !nodes[i].1.Nil? && nodes[i].0 == k
    ensures forall i :: 0 <= i < |nodes| && !nodes[i].1.Nil? && nodes[i].0 == k ==>
      Entries(nodes)[k] == Read(nodes[i].1, true)
  {
    if nodes != [] {
      var rest := nodes[1..];
      EntriesExact(rest, k);
      if exists i :: 0 <= i < |nodes| && !nodes[i].1.Nil? && nodes[i].0 == k {
        var i :| 0 <= i < |nodes| && !nodes[i].1.Nil? && nodes[i].0 == k;
        assert i > 0 ==> rest[i - 1] == nodes[i];
      }
      assert forall i :: 0 <= i < |rest| ==> rest[i] == nodes[i + 1];
    }
  }
}
