/** All sections as one sequence of items, the way passes 2 and 3 go through them. */
module DynAsmFlat {
  import opened DynAsmItems
  import opened DynAsmLink
  import opened DynAsmLabels
  import opened DynAsmSections

  function Flat(prog: seq<seq<Item>>, n: nat): seq<Item>
    requires n <= |prog|
  {
    if n == 0 then [] else Flat(prog, n - 1) + prog[n - 1]
  }

  /** Where section s begins in the whole. */
  function Base(prog: seq<seq<Item>>, s: nat): nat
    requires s <= |prog|
  {
    |Flat(prog, s)|
  }

  function All(prog: seq<seq<Item>>): seq<Item>
  {
    Flat(prog, |prog|)
  }

  lemma {:induction false} FlatPrefix(prog: seq<seq<Item>>, m: nat, n: nat)
    requires m <= n <= |prog|
    ensures |Flat(prog, m)| <= |Flat(prog, n)| && Flat(prog, m) == Flat(prog, n)[..|Flat(prog, m)|]
    ensures forall k :: 0 <= k <= |Flat(prog, m)| ==> Est(Flat(prog, n), k) == Est(Flat(prog, m), k)
    decreases n - m
  {
    if m < n {
      FlatPrefix(prog, m, n - 1);
      var f, g := Flat(prog, n - 1), prog[n - 1];
      assert Flat(prog, n) == f + g;
      forall k | 0 <= k <= |Flat(prog, m)| ensures Est(Flat(prog, n), k) == Est(Flat(prog, m), k) {
        EstPrefix(f, g, k);
      }
    }
  }

  /** Item k of section s, and its estimate within the whole. */
  lemma FlatAt(prog: seq<seq<Item>>, s: nat, k: nat)
    requires s < |prog| && k <= |prog[s]|
    ensures Base(prog, s + 1) == Base(prog, s) + |prog[s]| <= |All(prog)|
    ensures k < |prog[s]| ==> All(prog)[Base(prog, s) + k] == prog[s][k]
    ensures Est(All(prog), Base(prog, s) + k) == Est(All(prog), Base(prog, s)) + Est(prog[s], k)
  {
    hide *;
    var f, g, all := Flat(prog, s), prog[s], All(prog);
    FlatNext(prog, s);
    FlatPrefix(prog, s + 1, |prog|);
    EstSuffix(f, g, k);
    EstPrefix(f, g, |f|);
    assert (f + g)[..|f| + |g|] == f + g;
    if k < |g| { assert (f + g)[|f| + k] == g[k]; }
  }

  lemma FlatNext(prog: seq<seq<Item>>, s: nat)
    requires s < |prog|
    ensures Flat(prog, s + 1) == Flat(prog, s) + prog[s] && All(prog) == Flat(prog, |prog|)
    ensures Base(prog, s) == |Flat(prog, s)| && Base(prog, s + 1) == |Flat(prog, s + 1)|
  {
  }

  /** Every item of the whole is in some section. */
  lemma {:induction false} SectionOf(prog: seq<seq<Item>>, n: nat, i: nat) returns (s: nat, k: nat)
    requires n <= |prog| && i < |Flat(prog, n)|
    ensures s < n && k < |prog[s]| && i == Base(prog, s) + k
  {
    if i < |Flat(prog, n - 1)| {
      s, k := SectionOf(prog, n - 1, i);
    } else {
      s, k := n - 1, i - |Flat(prog, n - 1)|;
    }
  }

  /** The words of an item come before those of any later one. */
  predicate Ordered(g: seq<Item>)
  {
    forall i, j {:trigger g[i], g[j]} :: 0 <= i < j < |g| ==> g[i].pos + Slots(g[i]) <= g[j].pos
  }

  lemma GetSection(list: seq<Act>, prog: seq<seq<Item>>, secs: seq<Sec>, h: Heap, s: nat)
    requires SectionsOk(list, prog, secs, h) && s < |prog|
    ensures |prog| == |secs| && SectionOk(list, prog[s], s, secs[s], h)
    ensures secs[s].ofs == Est(prog[s], |prog[s]|) && secs[s].pos == SecPos(s) + Used(prog[s], |prog[s]|)
  {
    hide Est, Used, ItemsIn, Decoded;
  }

  lemma WithinSection(list: seq<Act>, g: seq<Item>, s: nat, sec: Sec, h: Heap, k: nat)
    requires SectionOk(list, g, s, sec, h) && k < |g|
    ensures SecPos(s) <= g[k].pos && g[k].pos + Slots(g[k]) <= sec.pos <= SecPos(s + 1) &&
      g[k].pos == SecPos(s) + Used(g, k)
  {
    assert g[k].pos == SecPos(s) + Used(g, k);
    assert Used(g, k + 1) == Used(g, k) + Slots(g[k]);
    SecPosNext(s);
    hide Est, Decoded, ArgsOk, ItemIn, Slots, Used, SecPos;
    UsedGrows(g, 0, k);
    UsedGrows(g, k + 1, |g|);
  }

  lemma SecPosNext(s: nat)
    ensures SecPos(s + 1) == SecPos(s) + SECTION_POSITIONS
  {
  }

  lemma AllOrdered(list: seq<Act>, prog: seq<seq<Item>>, secs: seq<Sec>, h: Heap)
    requires SectionsOk(list, prog, secs, h)
    ensures Ordered(All(prog))
  {
    var g := All(prog);
    forall i, j | 0 <= i < j < |g| ensures g[i].pos + Slots(g[i]) <= g[j].pos {
      PairOrdered(list, prog, secs, h, i, j);
    }
  }

  lemma PairOrdered(list: seq<Act>, prog: seq<seq<Item>>, secs: seq<Sec>, h: Heap, i: nat, j: nat)
    requires SectionsOk(list, prog, secs, h) && i < j < |All(prog)|
    ensures All(prog)[i].pos + Slots(All(prog)[i]) <= All(prog)[j].pos
  {
    AllIs(prog);
    hide SectionsOk, SectionOk, Flat, Used, All, Slots, Base;
    var s, k := SectionOf(prog, |prog|, i);
    var t, l := SectionOf(prog, |prog|, j);
    FlatAt(prog, s, k);
    FlatAt(prog, t, l);
    GetSection(list, prog, secs, h, s);
    GetSection(list, prog, secs, h, t);
    WithinSection(list, prog[s], s, secs[s], h, k);
    WithinSection(list, prog[t], t, secs[t], h, l);
    SectionsCompare(prog, s, t, k, l);
    if s < t {
      assert SecPos(s + 1) <= SecPos(t);
    } else {
      UsedNext(prog[s], k, l);
    }
  }

  lemma AllIs(prog: seq<seq<Item>>)
    ensures All(prog) == Flat(prog, |prog|)
  {
  }

  lemma {:induction false} UsedNext(g: seq<Item>, k: nat, l: nat)
    requires k < l <= |g|
    ensures Used(g, k) + Slots(g[k]) <= Used(g, l)
  {
    hide Slots;
    assert Used(g, k + 1) == Used(g, k) + Slots(g[k]);
    hide Used;
    UsedGrows(g, k + 1, l);
  }

  lemma SectionsCompare(prog: seq<seq<Item>>, s: nat, t: nat, k: nat, l: nat)
    requires s < |prog| && t < |prog| && k < |prog[s]| && l < |prog[t]| && Base(prog, s) + k < Base(prog, t) + l
    ensures s < t || (s == t && k < l)
  {
    if t < s {
      FlatPrefix(prog, t + 1, s);
      FlatAt(prog, t, l);
    }
  }

  /** Labels, references, and the words of alignments and arguments, as estimates of the whole. */
  lemma AllItems(list: seq<Act>, prog: seq<seq<Item>>, secs: seq<Sec>, h: Heap, s: nat, k: nat)
    requires SectionsOk(list, prog, secs, h) && s < |prog| && k < |prog[s]|
    ensures SectionOk(list, prog[s], s, secs[s], h) && ItemIn(prog[s], k, h) && ArgOk(prog[s][k])
    ensures Base(prog, s) + k < |All(prog)| && All(prog)[Base(prog, s) + k] == prog[s][k]
    ensures Est(prog[s], k) == Est(All(prog), Base(prog, s) + k) - Est(All(prog), Base(prog, s))
    ensures Est(prog[s], k + 1) == Est(All(prog), Base(prog, s) + k + 1) - Est(All(prog), Base(prog, s))
    ensures prog[s][k].pos == SecPos(s) + Used(prog[s], k)
  {
    FlatAt(prog, s, k);
    FlatAt(prog, s, k + 1);
    assert SectionOk(list, prog[s], s, secs[s], h);
  }

  lemma SectionSize(list: seq<Act>, prog: seq<seq<Item>>, secs: seq<Sec>, h: Heap, s: nat)
    requires SectionsOk(list, prog, secs, h) && s < |prog|
    ensures Base(prog, s + 1) == Base(prog, s) + |prog[s]| <= |All(prog)|
    ensures Est(All(prog), Base(prog, s + 1)) == Est(All(prog), Base(prog, s)) + secs[s].ofs
    ensures secs[s].pos == SecPos(s) + Used(prog[s], |prog[s]|)
  {
    hide *;
    FlatAt(prog, s, |prog[s]|);
    GetSection(list, prog, secs, h, s);
  }

  lemma AllArgsOk(list: seq<Act>, prog: seq<seq<Item>>, secs: seq<Sec>, h: Heap)
    requires SectionsOk(list, prog, secs, h)
    ensures ArgsOk(All(prog))
  {
    var g := All(prog);
    AllIs(prog);
    hide SectionsOk, All, Flat, Base, ArgOk;
    forall i | 0 <= i < |g| ensures ArgOk(g[i]) {
      var s, k := SectionOf(prog, |prog|, i);
      AllItems(list, prog, secs, h, s, k);
    }
  }

  /** A label's place in the whole. */
  lemma LabelIndex(list: seq<Act>, prog: seq<seq<Item>>, secs: seq<Sec>, h: Heap, l: int) returns (t: nat, j: nat)
    requires SectionsOk(list, prog, secs, h) && l in h.labels
    ensures t < |prog| && j < |prog[t]| && LabelAt(All(prog), Base(prog, t) + j, l) && prog[t][j].pos == l &&
      IsLabel(prog[t][j])
    ensures l / SECTION_POSITIONS == t && SecPos(t) <= l < SecPos(t + 1)
  {
    t, j := LabelFound(list, prog, secs, h, l);
    AllItems(list, prog, secs, h, t, j);
    assert Slots(prog[t][j]) == 1;
    hide SectionsOk, SectionOk, ItemIn, All, Base, Flat, Used;
    WithinSection(list, prog[t], t, secs[t], h, j);
    assert LabelAt(All(prog), Base(prog, t) + j, l);
  }

  lemma LabelFound(list: seq<Act>, prog: seq<seq<Item>>, secs: seq<Sec>, h: Heap, l: int) returns (t: nat, j: nat)
    requires SectionsOk(list, prog, secs, h) && l in h.labels
    ensures t < |prog| && j < |prog[t]| && prog[t][j].pos == l && IsLabel(prog[t][j])
  {
    assert LabelItem(prog, l);
    hide SectionOk;
    var t', j' :| 0 <= t' < |prog| && 0 <= j' < |prog[t']| && IsLabel(prog[t'][j']) && prog[t'][j'].pos == l;
    t, j := t', j';
  }

  lemma AllOneLabel(g: seq<Item>)
    requires Ordered(g)
    ensures OneLabel(g)
  {
  }

  /** Earlier items have lower positions, so that comparing positions compares places. */
  lemma PositionsCompare(g: seq<Item>, i: nat, j: nat)
    requires Ordered(g) && i < |g| && j < |g| && Slots(g[i]) > 0 && Slots(g[j]) > 0
    ensures g[i].pos < g[j].pos <==> i < j
  {
  }
}
