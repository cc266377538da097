/** Linking: how estimates become offsets, and why every shrunk branch reaches its label. */
module DynAsmLink {
  import opened Arith
  import opened DynAsmItems

  /**
   The final offset of item k: its estimate, corrected by what pass 2 has taken off up to there. All code sections
   are one sequence of items here.
   */
  function Final(g: seq<Item>, d: seq<int>, k: nat): int
    requires k <= |g| && k < |d|
  {
    Est(g, k) + d[k]
  }

  predicate LabelAt(g: seq<Item>, l: int, pos: int)
  {
    0 <= l < |g| && IsLabel(g[l]) && g[l].pos == pos
  }

  /** The distance that pass 2 computes for the branch at k to the label at l: ahead from estimates, back from final
      offsets. */
  function Distance(g: seq<Item>, d: seq<int>, k: nat, l: nat): int
    requires k < |g| && k < |d| && l < |g| && (l <= k ==> l < |d|)
  {
    if l > k then Est(g, l) - Est(g, k + 1) else Final(g, d, l) - (Est(g, k + 1) + d[k])
  }

  /** The branch at k can shrink: it has a short form, and its label is near enough. */
  ghost predicate Near(g: seq<Item>, buf: map<int, int>, d: seq<int>, k: nat)
  {
    k < |g| && k < |d| && g[k].pos in buf && Shrinkable(g[k].op) > 0 &&
    exists l ::
      LabelAt(g, l, buf[g[k].pos]) && (l <= k ==> l < |d|) && -128 - Shrinkable(g[k].op) <= Distance(g, d, k, l) <= 127
  }

  /** What pass 2 leaves for item k, and how it goes on: a branch to a label shrinks exactly if it can. */
  ghost predicate StepOk(g: seq<Item>, buf: map<int, int>, d: seq<int>, k: nat)
  {
    k < |g| && k + 1 < |d| &&
    if IsRel(g[k]) then
      g[k].pos + 1 in buf && d[k + 1] == d[k] - buf[g[k].pos + 1] && g[k].pos in buf &&
      buf[g[k].pos + 1] == if buf[g[k].pos] >= 0 && Near(g, buf, d, k) then Shrinkable(g[k].op) else 0
    else if IsAlign(g[k]) then
      d[k + 1] == d[k] - (Est(g, k + 1) + d[k]) % (g[k].what.act.mask + 1)
    else d[k + 1] == d[k] && (IsLabel(g[k]) ==> g[k].pos in buf && buf[g[k].pos] == Final(g, d, k))
  }

  ghost predicate LinkedTo(g: seq<Item>, buf: map<int, int>, d: seq<int>, n: nat)
  {
    n <= |g| && |d| == n + 1 && d[0] == 0 && forall k {:trigger StepOk(g, buf, d, k)} :: 0 <= k < n ==>
      StepOk(g, buf, d, k)
  }

  predicate ArgsOk(g: seq<Item>)
  {
    forall k {:trigger ArgOk(g[k])} :: 0 <= k < |g| ==> ArgOk(g[k])
  }

  /** How many bytes item k takes in the end. */
  function Size(g: seq<Item>, d: seq<int>, k: nat): int
    requires k < |g| && k + 1 < |d|
  {
    MaxSize(g[k]) + d[k + 1] - d[k]
  }

  /** Nothing is taken off but what was reckoned too much. */
  lemma SizeBounds(g: seq<Item>, buf: map<int, int>, d: seq<int>, n: nat, k: nat)
    requires LinkedTo(g, buf, d, n) && ArgsOk(g) && k < n
    ensures d[k + 1] <= d[k] && Final(g, d, k) <= Final(g, d, k + 1) &&
      Final(g, d, k + 1) - Final(g, d, k) == Size(g, d, k)
    ensures IsAlign(g[k]) ==> Size(g, d, k) <= g[k].what.act.mask
  {
    assert StepOk(g, buf, d, k) && ArgOk(g[k]);
  }

  lemma {:induction false} Corrections(g: seq<Item>, buf: map<int, int>, d: seq<int>, n: nat, i: nat, j: nat)
    requires LinkedTo(g, buf, d, n) && ArgsOk(g) && i <= j <= n
    ensures d[j] <= d[i] && Final(g, d, i) <= Final(g, d, j)
    decreases j - i
  {
    if i < j {
      SizeBounds(g, buf, d, n, i);
      Corrections(g, buf, d, n, i + 1, j);
    }
  }

  /**
   A branch that pass 2 has shrunk reaches its label: the true distance from its end fits a signed byte, although
   the distance to a label ahead was only known from estimates when that was decided.
   */
  lemma ShrunkReaches(g: seq<Item>, buf: map<int, int>, d: seq<int>, k: nat, l: nat)
    requires LinkedTo(g, buf, d, |g|) && ArgsOk(g) && k < |g| && IsRel(g[k])
    requires g[k].pos + 1 in buf && buf[g[k].pos + 1] != 0 && g[k].pos in buf
    requires LabelAt(g, l, buf[g[k].pos]) && OneLabel(g)
    ensures FitsByte(Final(g, d, l) - Final(g, d, k + 1))
  {
    assert StepOk(g, buf, d, k);
    var m: int :| LabelAt(g, m, buf[g[k].pos]) && (m <= k ==> m < |d|) &&
      -128 - Shrinkable(g[k].op) <= Distance(g, d, k, m) <= 127;
    assert m == l;
    if l > k {
      Corrections(g, buf, d, |g|, k + 1, l);
    } else {
      SizeBounds(g, buf, d, |g|, k);
      Corrections(g, buf, d, |g|, l, k);
    }
  }

  /** A branch to a label shrinks exactly if it has a short form and the distance that pass 2 knows allows it. */
  lemma ShrinksIff(g: seq<Item>, buf: map<int, int>, d: seq<int>, k: nat, l: nat)
    requires LinkedTo(g, buf, d, |g|) && k < |g| && IsRel(g[k]) && OneLabel(g)
    requires g[k].pos in buf && buf[g[k].pos] >= 0 && LabelAt(g, l, buf[g[k].pos])
    ensures g[k].pos + 1 in buf &&
      (buf[g[k].pos + 1] != 0 <==>
       Shrinkable(g[k].op) > 0 && -128 - Shrinkable(g[k].op) <= Distance(g, d, k, l) <= 127)
  {
    assert StepOk(g, buf, d, k);
    hide Distance;
    assert forall m :: LabelAt(g, m, buf[g[k].pos]) ==> m == l;
  }

  /** No two labels share a buffer position. */
  predicate OneLabel(g: seq<Item>)
  {
    forall k, l {:trigger g[k], g[l]} :: 0 <= k < l < |g| && IsLabel(g[k]) && IsLabel(g[l]) ==> g[k].pos != g[l].pos
  }

  /** After the padding the offset is a multiple of the alignment, and the padding is as short as it can be. */
  lemma AlignedAt(g: seq<Item>, buf: map<int, int>, d: seq<int>, n: nat, k: nat)
    requires LinkedTo(g, buf, d, n) && ArgsOk(g) && k < n && IsAlign(g[k])
    ensures var m := g[k].what.act.mask + 1; Final(g, d, k + 1) % m == 0 && 0 <= Size(g, d, k) < m
  {
    assert StepOk(g, buf, d, k) && ArgOk(g[k]);
    var m := g[k].what.act.mask + 1;
    ModDown(Est(g, k + 1) + d[k], m);
  }

  lemma ModDown(x: int, m: int)
    requires m > 0
    ensures (x - x % m) % m == 0 && 0 <= x % m < m
  {
    DivBounds(x, m);
    DivUnique((x / m) * m, m, x / m);
  }

  /** The words of an item that linking sets or looks at are the same. */
  predicate SameWords(i: Item, buf: map<int, int>, buf': map<int, int>)
  {
    (IsRel(i) ==> (i.pos in buf ==> i.pos in buf' && buf'[i.pos] == buf[i.pos]) &&
                  (i.pos + 1 in buf ==> i.pos + 1 in buf' && buf'[i.pos + 1] == buf[i.pos + 1])) &&
    (IsLabel(i) ==> i.pos in buf ==> i.pos in buf' && buf'[i.pos] == buf[i.pos])
  }

  /** Items already linked stay so when later ones change only their own words. */
  lemma {:induction false} StepFrame(g: seq<Item>, buf: map<int, int>, buf': map<int, int>, d: seq<int>, more: seq<int>,
      k: nat)
    requires StepOk(g, buf, d, k) && SameWords(g[k], buf, buf')
    ensures StepOk(g, buf', d + more, k)
  {
    assert forall i :: 0 <= i < |d| ==> (d + more)[i] == d[i];
    if IsRel(g[k]) {
      NearFrame(g, buf, buf', d, more, k);
    }
  }

  lemma NearFrame(g: seq<Item>, buf: map<int, int>, buf': map<int, int>, d: seq<int>, more: seq<int>, k: nat)
    requires k < |g| && k + 1 < |d| && IsRel(g[k]) && g[k].pos in buf && SameWords(g[k], buf, buf')
    ensures Near(g, buf', d + more, k) <==> Near(g, buf, d, k)
  {
    forall l: nat | l < |g| ensures Distance(g, d + more, k, l) == Distance(g, d, k, l) {
      assert l <= k ==> (d + more)[l] == d[l];
    }
  }

  /** One more item linked. */
  lemma {:induction false} LinkedMore(g: seq<Item>, buf: map<int, int>, buf': map<int, int>, d: seq<int>, n: nat,
      x: int)
    requires LinkedTo(g, buf, d, n) && n < |g| && StepOk(g, buf', d + [x], n)
    requires forall k {:trigger g[k]} :: 0 <= k < n ==> SameWords(g[k], buf, buf')
    ensures LinkedTo(g, buf', d + [x], n + 1)
  {
    forall k | 0 <= k < n + 1 ensures StepOk(g, buf', d + [x], k) {
      if k < n {
        assert StepOk(g, buf, d, k);
        StepFrame(g, buf, buf', d, [x], k);
      }
    }
  }
}
