/** table.sort: a quicksort in place, with a pivot from three elements and recursion into the smaller part only. */
module LuaSort {
  import opened Arith

  /** What a comparison function must be: a strict order for which not being comparable is transitive, too. */
  ghost predicate StrictWeak<T(!new)>(lt: (T, T) -> bool)
  {
    (forall x :: !lt(x, x)) && (forall x, y, z :: lt(x, y) && lt(y, z) ==> lt(x, z)) &&
    forall x, y, z :: !lt(y, x) && !lt(z, y) ==> !lt(z, x)
  }

  predicate Le<T>(lt: (T, T) -> bool, x: T, y: T)
  {
    !lt(y, x)
  }

  lemma LeTrans<T(!new)>(lt: (T, T) -> bool, x: T, y: T, z: T)
    requires StrictWeak(lt) && Le(lt, x, y) && Le(lt, y, z)
    ensures Le(lt, x, z)
  {
  }

  lemma LtLe<T(!new)>(lt: (T, T) -> bool, x: T, y: T)
    requires StrictWeak(lt) && lt(x, y)
    ensures Le(lt, x, y)
  {
  }

  /** Slots l to u are in order. */
  ghost predicate Sorted<T>(lt: (T, T) -> bool, s: seq<T>, l: int, u: int)
  {
    forall p, q :: 0 <= p < |s| && 0 <= q < |s| && l <= p < q <= u ==> Le(lt, s[p], s[q])
  }

  /** All of slots b to t are in order but for pairs that are both within l to u. */
  ghost predicate SortedBut<T>(lt: (T, T) -> bool, s: seq<T>, b: int, t: int, l: int, u: int)
  {
    forall p, q :: 0 <= p < |s| && 0 <= q < |s| && b <= p < q <= t && !(l <= p && q <= u) ==> Le(lt, s[p], s[q])
  }

  /** Slot m holds a pivot: none before it is greater, none after it is less. */
  ghost predicate Split<T>(lt: (T, T) -> bool, s: seq<T>, l: int, m: int, u: int)
  {
    0 <= l <= m <= u < |s| && (forall p :: l <= p < m ==> Le(lt, s[p], s[m])) && forall q :: m < q <= u ==>
      Le(lt, s[m], s[q])
  }

  /** The same elements in slots l to u, and all others as they were. */
  ghost predicate Shuffled<T>(s: seq<T>, s': seq<T>, l: int, u: int)
  {
    0 <= l && l <= u + 1 <= |s| && |s'| == |s| && s'[..l] == s[..l] && s'[u + 1..] == s[u + 1..] &&
    multiset(s'[l..u + 1]) == multiset(s[l..u + 1])
  }

  lemma ShuffledSelf<T>(s: seq<T>, l: int, u: int)
    requires 0 <= l && l <= u + 1 <= |s|
    ensures Shuffled(s, s, l, u)
  {
  }

  lemma ShuffledTwice<T>(s: seq<T>, s': seq<T>, s'': seq<T>, l: int, u: int)
    requires Shuffled(s, s', l, u) && Shuffled(s', s'', l, u)
    ensures Shuffled(s, s'', l, u)
  {
  }

  /** What is shuffled within a part is shuffled within the whole. */
  lemma ShuffledWider<T>(s: seq<T>, s': seq<T>, l: int, u: int, b: int, t: int)
    requires Shuffled(s, s', l, u) && 0 <= b <= l && u <= t && b <= t + 1 <= |s|
    ensures Shuffled(s, s', b, t)
  {
    Parts(s, b, l, u + 1, t + 1);
    Parts(s', b, l, u + 1, t + 1);
    SameSlice(s, s', l, b, l);
    SameTail(s, s', u + 1, t + 1);
    assert s'[..b] == s'[..l][..b] && s[..b] == s[..l][..b];
    assert s'[t + 1..] == s'[u + 1..][t - u..] && s[t + 1..] == s[u + 1..][t - u..];
  }

  lemma Parts<T>(s: seq<T>, b: int, l: int, m: int, t: int)
    requires 0 <= b <= l <= m <= t <= |s|
    ensures multiset(s[b..t]) == multiset(s[b..l]) + multiset(s[l..m]) + multiset(s[m..t])
  {
    assert s[b..t] == s[b..l] + s[l..m] + s[m..t];
  }

  lemma SameSlice<T>(s: seq<T>, s': seq<T>, n: int, i: int, j: int)
    requires 0 <= i <= j <= n <= |s| && |s'| == |s| && s'[..n] == s[..n]
    ensures s'[i..j] == s[i..j]
  {
    assert s'[i..j] == s'[..n][i..j] && s[i..j] == s[..n][i..j];
  }

  lemma SameTail<T>(s: seq<T>, s': seq<T>, n: int, j: int)
    requires 0 <= n <= j <= |s| && |s'| == |s| && s'[n..] == s[n..]
    ensures s'[n..j] == s[n..j]
  {
    assert s'[n..j] == s'[n..][..j - n] && s[n..j] == s[n..][..j - n];
  }

  lemma SwapShuffles<T>(s: seq<T>, l: int, u: int, i: int, j: int)
    requires 0 <= l <= i <= u < |s| && l <= j <= u
    ensures Shuffled(s, s[i := s[j]][j := s[i]], l, u)
  {
    var s' := s[i := s[j]][j := s[i]];
    var x, y := s[l..u + 1], s'[l..u + 1];
    assert y == x[i - l := x[j - l]][j - l := x[i - l]];
    assert s'[..l] == s[..l] && s'[u + 1..] == s[u + 1..];
  }

  /** Each element of the shuffled part comes from it. */
  lemma FromPart<T>(s: seq<T>, s': seq<T>, l: int, u: int, q: int) returns (r: int)
    requires Shuffled(s, s', l, u) && l <= q <= u
    ensures l <= r <= u && s'[q] == s[r]
  {
    var x, y := s[l..u + 1], s'[l..u + 1];
    assert y[q - l] in multiset(y);
    assert y[q - l] in x;
    var k :| 0 <= k < |x| && x[k] == y[q - l];
    r := l + k;
  }

  lemma Outside<T>(s: seq<T>, s': seq<T>, l: int, u: int, p: int)
    requires Shuffled(s, s', l, u) && 0 <= p < |s| && !(l <= p <= u)
    ensures s'[p] == s[p]
  {
    if p < l { assert s'[..l][p] == s[..l][p]; } else { assert s'[u + 1..][p - u - 1] == s[u + 1..][p - u - 1]; }
  }

  /** Shuffling a part leaves all else in order. */
  lemma StillBut<T>(lt: (T, T) -> bool, s: seq<T>, s': seq<T>, b: int, t: int, l: int, u: int)
    requires SortedBut(lt, s, b, t, l, u) && Shuffled(s, s', l, u) && 0 <= b <= l && u <= t < |s|
    ensures SortedBut(lt, s', b, t, l, u)
  {
    hide Shuffled;
    SameLength(s, s', l, u);
    forall p, q | 0 <= p < |s'| && 0 <= q < |s'| && b <= p < q <= t &&
      !(l <= p && q <= u) ensures Le(lt, s'[p], s'[q]) {
      var p', q' := p, q;
      if l <= p <= u { p' := FromPart(s, s', l, u, p); } else { Outside(s, s', l, u, p); }
      if l <= q <= u { q' := FromPart(s, s', l, u, q); } else { Outside(s, s', l, u, q); }
    }
  }

  lemma SameLength<T>(s: seq<T>, s': seq<T>, l: int, u: int)
    requires Shuffled(s, s', l, u)
    ensures |s'| == |s|
  {
  }

  /** Sorting a part on one side of the pivot leaves the pivot where it is. */
  lemma StillSplit<T>(lt: (T, T) -> bool, s: seq<T>, s': seq<T>, l: int, m: int, u: int, j: int, i: int)
    requires Split(lt, s, l, m, u) && Shuffled(s, s', j, i) && l <= j && i <= u && (i < m || m < j)
    ensures Split(lt, s', l, m, u)
  {
    hide Shuffled;
    SameLength(s, s', j, i);
    Outside(s, s', j, i, m);
    forall p | l <= p <= u && p != m ensures if p < m then Le(lt, s'[p], s'[m]) else Le(lt, s'[m], s'[p]) {
      if j <= p <= i { var r := FromPart(s, s', j, i, p); } else { Outside(s, s', j, i, p); }
    }
  }

  /** With one side of the pivot in order, only the other is left. */
  lemma OneSideLeft<T(!new)>(lt: (T, T) -> bool, s: seq<T>, b: int, t: int, l: int, m: int, u: int, left: bool)
    requires StrictWeak(lt) && SortedBut(lt, s, b, t, l, u) && Split(lt, s, l, m, u) && 0 <= b <= l && u <= t < |s|
    requires if left then Sorted(lt, s, l, m - 1) else Sorted(lt, s, m + 1, u)
    ensures if left then SortedBut(lt, s, b, t, m + 1, u) else SortedBut(lt, s, b, t, l, m - 1)
  {
    forall p, q | b <= p < q <= t &&
      !(if left then m + 1 <= p && q <= u else l <= p && q <= m - 1) ensures Le(lt, s[p], s[q]) {
      if l <= p && q <= u && p < m < q { LeTrans(lt, s[p], s[m], s[q]); }
    }
  }

  // ---- The methods -----------------------------------------------------------------------

  method Swap<T>(a: array<T>, i: int, j: int)
    requires 0 <= i < a.Length && 0 <= j < a.Length
    modifies a
    ensures a[..] == old(a[..])[i := old(a[j])][j := old(a[i])]
  {
    a[i], a[j] := a[j], a[i];
  }

  function Swapped<T>(s: seq<T>, i: int, j: int): seq<T>
    requires 0 <= i < |s| && 0 <= j < |s|
  {
    s[i := s[j]][j := s[i]]
  }

  lemma EndsOrdered<T(!new)>(lt: (T, T) -> bool, s: seq<T>, l: int, u: int)
    requires StrictWeak(lt) && 0 <= l < u < |s|
    ensures var s' := if lt(s[u], s[l]) then Swapped(s, l, u) else s; Le(lt, s'[l], s'[u])
  {
  }

  lemma MiddleOrdered<T(!new)>(lt: (T, T) -> bool, s: seq<T>, l: int, i: int, u: int)
    requires StrictWeak(lt) && 0 <= l < i < u < |s| && Le(lt, s[l], s[u])
    ensures var s' := if lt(s[i], s[l]) then Swapped(s, i, l) else if lt(s[u], s[i]) then Swapped(s, i, u) else s;
      Le(lt, s'[l], s'[i]) && Le(lt, s'[i], s'[u]) && Le(lt, s'[l], s'[u])
  {
    var s' := if lt(s[i], s[l]) then Swapped(s, i, l) else if lt(s[u], s[i]) then Swapped(s, i, u) else s;
    assert Le(lt, s'[l], s'[i]) && Le(lt, s'[i], s'[u]);
    LeTrans(lt, s'[l], s'[i], s'[u]);
  }

  method Ends<T(!new)>(a: array<T>, lt: (T, T) -> bool, l: int, u: int)
    requires 0 <= l < u < a.Length
    modifies a
    ensures Shuffled(old(a[..]), a[..], l, u) && (StrictWeak(lt) ==> Le(lt, a[l], a[u]))
  {
    hide *;
    ghost var s := a[..];
    ShuffledSelf(s, l, u);
    SwapShuffles(s, l, u, l, u);
    if StrictWeak(lt) { EndsOrdered(lt, s, l, u); }
    if lt(a[u], a[l]) {
      Swap(a, l, u);
    }
    SwappedIs(s, l, u);
  }

  lemma SwappedIs<T>(s: seq<T>, i: int, j: int)
    requires 0 <= i < |s| && 0 <= j < |s|
    ensures Swapped(s, i, j) == s[i := s[j]][j := s[i]]
  {
  }

  method Middle<T(!new)>(a: array<T>, lt: (T, T) -> bool, l: int, i: int, u: int)
    requires 0 <= l < i < u < a.Length
    modifies a
    ensures Shuffled(old(a[..]), a[..], l, u)
    ensures StrictWeak(lt) && old(Le(lt, a[l], a[u])) ==> Le(lt, a[l], a[i]) && Le(lt, a[i], a[u]) && Le(lt, a[l], a[u])
  {
    hide *;
    ghost var s := a[..];
    ShuffledSelf(s, l, u);
    SwapShuffles(s, l, u, i, l);
    SwapShuffles(s, l, u, i, u);
    SwappedIs(s, i, l);
    SwappedIs(s, i, u);
    if StrictWeak(lt) && Le(lt, s[l], s[u]) { MiddleOrdered(lt, s, l, i, u); }
    if lt(a[i], a[l]) {
      Swap(a, i, l);
    } else if lt(a[u], a[i]) {
      Swap(a, i, u);
    }
  }

  /** Put the first, middle and last of the slots in order. */
  method Three<T(!new)>(a: array<T>, lt: (T, T) -> bool, l: int, u: int) returns (i: int)
    requires 0 <= l < u < a.Length
    modifies a
    ensures Shuffled(old(a[..]), a[..], l, u) && i == (l + u) / 2
    ensures StrictWeak(lt) ==> Le(lt, a[l], a[u]) && (u - l > 1 ==> Le(lt, a[l], a[i]) && Le(lt, a[i], a[u]))
  {
    hide *;
    ghost var s0 := a[..];
    Ends(a, lt, l, u);
    i := (l + u) / 2;
    if u - l == 1 {
      return;
    }
    ghost var s1 := a[..];
    Middle(a, lt, l, i, u);
    ShuffledTwice(s0, s1, a[..], l, u);
  }

  /** Repeat ++i until a[i] >= P; fails past the end. */
  method Up<T(!new)>(a: array<T>, lt: (T, T) -> bool, p: T, i0: int, l: int, u: int) returns (ok: bool, i: int)
    requires 0 <= l <= i0 < u < a.Length
    ensures ok ==> i0 < i <= u && !lt(a[i], p) && forall k :: i0 < k < i ==> lt(a[k], p)
    ensures !lt(a[u - 1], p) && i0 < u - 1 ==> ok && i < u
  {
    i := i0 + 1;
    while lt(a[i], p)
      invariant i0 < i <= u && forall k :: i0 < k < i ==> lt(a[k], p)
      invariant !lt(a[u - 1], p) && i0 < u - 1 ==> i < u
      decreases u - i
    {
      if i >= u {
        return false, i;
      }
      i := i + 1;
    }
    ok := true;
  }

  /** Repeat --j until a[j] <= P; fails past the start. */
  method Down<T(!new)>(a: array<T>, lt: (T, T) -> bool, p: T, j0: int, l: int, u: int) returns (ok: bool, j: int)
    requires 0 <= l < j0 <= u < a.Length
    ensures ok ==> l <= j < j0 && !lt(p, a[j]) && forall k :: j < k < j0 ==> lt(p, a[k])
    ensures !lt(p, a[l]) ==> ok
  {
    j := j0 - 1;
    while lt(p, a[j])
      invariant l <= j < j0 && forall k :: j < k < j0 ==> lt(p, a[k])
      decreases j - l
    {
      if j <= l {
        return false, j;
      }
      j := j - 1;
    }
    ok := true;
  }

  /** While dividing: what is up to i is no greater than the pivot, what is from j on is no less. */
  ghost predicate Dividing<T>(lt: (T, T) -> bool, s: seq<T>, p: T, l: int, i: int, j: int, u: int)
  {
    0 <= l <= i < u < |s| && i <= j < u && s[u - 1] == p && (forall k :: l <= k <= i ==> Le(lt, s[k], p)) && forall k ::
      j <= k <= u ==> Le(lt, p, s[k])
  }

  /** One round of scanning from both ends, with a swap if they have not met. */
  method Round<T(!new)>(a: array<T>, lt: (T, T) -> bool, p: T, i0: int, j0: int, l: int, u: int, ghost good: bool)
    returns (ok: bool, i: int, j: int)
    requires 0 <= l <= i0 <= j0 < u < a.Length && i0 < u - 1 && l < j0
    requires good ==> StrictWeak(lt) && Dividing(lt, a[..], p, l, i0, j0, u)
    modifies a
    ensures Shuffled(old(a[..]), a[..], l, u) && (good ==> ok)
    ensures ok && j < i ==> a[..] == old(a[..]) && l < i <= u && (good ==> Split(lt, Swapped(a[..], u - 1, i), l, i, u))
    ensures ok && i <= j ==> l < i && i < u - 1 && j < j0 && i0 < i && (good ==> Dividing(lt, a[..], p, l, i, j, u))
  {
    hide *;
    ghost var s := a[..];
    ShuffledSelf(s, l, u);
    if good { DividingEnds(lt, s, p, l, i0, j0, u); }
    ok, i := Up(a, lt, p, i0, l, u);
    j := j0;
    if !ok {
      return;
    }
    ok, j := Down(a, lt, p, j0, l, u);
    if !ok {
      return;
    }
    if j < i {
      if good {
        SwappedIs(s, u - 1, i);
        DividingDone(lt, s, p, l, i0, j0, i, j, u);
      }
      return;
    }
    SwapShuffles(s, l, u, i, j);
    if good { DividingNext(lt, s, p, l, i0, j0, i, j, u); }
    Swap(a, i, j);
  }

  /** Divide the slots by the pivot, which the middle one holds; the order is invalid if a scan leaves the slots. */
  method Divide<T(!new)>(a: array<T>, lt: (T, T) -> bool, l: int, u: int, mid: int) returns (ok: bool, i: int)
    requires 0 <= l && l + 2 < u < a.Length && mid == (l + u) / 2
    modifies a
    ensures Shuffled(old(a[..]), a[..], l, u) && (ok ==> l < i <= u)
    ensures StrictWeak(lt) && old(Le(lt, a[l], a[mid]) && Le(lt, a[mid], a[u])) ==> ok && Split(lt, a[..], l, i, u)
  {
    hide *;
    ghost var s0 := a[..];
    ghost var good: bool := StrictWeak(lt) && Le(lt, a[l], a[mid]) && Le(lt, a[mid], a[u]);
    assert s0[l] == a[l] && s0[mid] == a[mid] && s0[u] == a[u];
    var p := a[mid];
    SwapShuffles(s0, l, u, mid, u - 1);
    Swap(a, mid, u - 1);
    var j: int;
    i, j := l, u - 1;
    if good { DividingStart(lt, a[..], p, l, u); }
    var more: bool := true;
    while more
      invariant Shuffled(s0, a[..], l, u)
      invariant more ==> l <= i <= j < u && i < u - 1 && l < j && (good ==> Dividing(lt, a[..], p, l, i, j, u))
      invariant !more ==> l < i <= u && (good ==> Split(lt, Swapped(a[..], u - 1, i), l, i, u))
      decreases more, j - i
    {
      ghost var s1 := a[..];
      ok, i, j := Round(a, lt, p, i, j, l, u, good);
      ShuffledTwice(s0, s1, a[..], l, u);
      if !ok {
        return;
      }
      more := i <= j;
    }
    ghost var s2 := a[..];
    Home(a, lt, l, i, u, good);
    ShuffledTwice(s0, s2, a[..], l, u);
    ok := true;
  }

  /** Swap the pivot with slot i. */
  method Home<T(!new)>(a: array<T>, lt: (T, T) -> bool, l: int, i: int, u: int, ghost good: bool)
    requires 0 <= l < i <= u < a.Length && l < u - 1 && (good ==> Split(lt, Swapped(a[..], u - 1, i), l, i, u))
    modifies a
    ensures Shuffled(old(a[..]), a[..], l, u) && (good ==> Split(lt, a[..], l, i, u))
  {
    hide *;
    ghost var s := a[..];
    SwapShuffles(s, l, u, u - 1, i);
    SwappedIs(s, u - 1, i);
    Swap(a, u - 1, i);
    assert a[..] == Swapped(s, u - 1, i);
  }

  lemma DividingStart<T(!new)>(lt: (T, T) -> bool, s: seq<T>, p: T, l: int, u: int)
    requires StrictWeak(lt) && 0 <= l && l + 2 < u < |s| && s[u - 1] == p && Le(lt, s[l], p) && Le(lt, p, s[u])
    ensures Dividing(lt, s, p, l, l, u - 1, u)
  {
  }

  lemma DividingEnds<T(!new)>(lt: (T, T) -> bool, s: seq<T>, p: T, l: int, i: int, j: int, u: int)
    requires StrictWeak(lt) && Dividing(lt, s, p, l, i, j, u)
    ensures !lt(s[u - 1], p) && !lt(p, s[l])
  {
  }

  lemma DividingNext<T(!new)>(lt: (T, T) -> bool, s: seq<T>, p: T, l: int, i0: int, j0: int, i: int, j: int, u: int)
    requires StrictWeak(lt) && Dividing(lt, s, p, l, i0, j0, u) && i0 < i <= j < j0 && !lt(s[i], p) && !lt(p, s[j])
    requires (forall k :: i0 < k < i ==> lt(s[k], p)) && forall k :: j < k < j0 ==> lt(p, s[k])
    ensures Dividing(lt, s[i := s[j]][j := s[i]], p, l, i, j, u)
  {
    forall k | i0 < k < i ensures Le(lt, s[k], p) { LtLe(lt, s[k], p); }
    forall k | j < k < j0 ensures Le(lt, p, s[k]) { LtLe(lt, p, s[k]); }
  }

  lemma DividingDone<T(!new)>(lt: (T, T) -> bool, s: seq<T>, p: T, l: int, i0: int, j0: int, i: int, j: int, u: int)
    requires StrictWeak(lt) && Dividing(lt, s, p, l, i0, j0, u) && i0 < i <= u - 1 && l <= j < j0 && j < i &&
      !lt(s[i], p)
    requires (forall k :: i0 < k < i ==> lt(s[k], p)) && forall k :: j < k < j0 ==> lt(p, s[k])
    ensures Split(lt, s[u - 1 := s[i]][i := s[u - 1]], l, i, u)
  {
    forall k | i0 < k < i ensures Le(lt, s[k], p) { LtLe(lt, s[k], p); }
    forall k | j < k < j0 ensures Le(lt, p, s[k]) { LtLe(lt, p, s[k]); }
    assert Le(lt, p, p);
  }

  /**
   auxsort: sorts slots l to u. For a strict weak order the error that the order function is invalid is never raised;
   for
   any function the slots hold the same elements after it. The recursion is no deeper than the logarithm of their
   number.
   */
  method AuxSort<T(!new)>(a: array<T>, lt: (T, T) -> bool, l0: int, u0: int, ghost d: nat)
      returns (ok: bool, ghost depth: nat)
    requires 0 <= l0 <= u0 + 1 <= a.Length && u0 - l0 + 1 < Pow2(d + 1)
    modifies a
    ensures Shuffled(old(a[..]), a[..], l0, u0)
    ensures StrictWeak(lt) ==> ok && Sorted(lt, a[..], l0, u0)
    ensures depth <= d
    decreases d
  {
    hide *;
    var l, u := l0, u0;
    ghost var s0, good := a[..], StrictWeak(lt);
    depth := 0;
    ShuffledSelf(s0, l0, u0);
    NothingBut(lt, s0, l0, u0);
    while l < u
      invariant l0 <= l && u <= u0 && l <= u + 1 && Shuffled(s0, a[..], l0, u0) && depth <= d
      invariant good ==> SortedBut(lt, a[..], l0, u0, l, u)
      decreases u - l
    {
      ghost var s1 := a[..];
      var i := Three(a, lt, l, u);
      ghost var s2 := a[..];
      ShuffledWider(s1, s2, l, u, l0, u0);
      ShuffledTwice(s0, s1, s2, l0, u0);
      if good { StillBut(lt, s1, s2, l0, u0, l, u); }
      if u - l <= 2 {
        if good { FewSorted(lt, s2, l0, u0, l, u); }
        return true, depth;
      }
      ok, i := Divide(a, lt, l, u, i);
      ghost var s3 := a[..];
      ShuffledWider(s2, s3, l, u, l0, u0);
      ShuffledTwice(s0, s2, s3, l0, u0);
      if !ok {
        return;
      }
      if good { StillBut(lt, s2, s3, l0, u0, l, u); }
      ghost var l1, m, u1 := l, i, u;
      var j: int;
      if i - l < u - i {
        j, i, l := l, i - 1, i + 1;
      } else {
        j, i, u := i + 1, u, i - 1;
      }
      HalfFits(d, u0 - l0 + 1, i - j + 1);
      ghost var r;
      ok, r := AuxSort(a, lt, j, i, d - 1);
      depth := if r + 1 > depth then r + 1 else depth;
      ghost var s4 := a[..];
      ShuffledWider(s3, s4, j, i, l0, u0);
      ShuffledTwice(s0, s3, s4, l0, u0);
      if !ok {
        return;
      }
      if good {
        ShuffledWider(s3, s4, j, i, l1, u1);
        StillBut(lt, s3, s4, l0, u0, l1, u1);
        StillSplit(lt, s3, s4, l1, m, u1, j, i);
        OneSideLeft(lt, s4, l0, u0, l1, m, u1, j == l1);
      }
    }
    if good { AllSorted(lt, a[..], l0, u0, l, u); }
    ok := true;
  }

  lemma NothingBut<T>(lt: (T, T) -> bool, s: seq<T>, l: int, u: int)
    ensures SortedBut(lt, s, l, u, l, u)
  {
  }

  lemma FewSorted<T(!new)>(lt: (T, T) -> bool, s: seq<T>, b: int, t: int, l: int, u: int)
    requires SortedBut(lt, s, b, t, l, u) && 0 <= b <= l < u <= t < |s| && u - l <= 2 && Le(lt, s[l], s[u])
    requires u - l > 1 ==> Le(lt, s[l], s[(l + u) / 2]) && Le(lt, s[(l + u) / 2], s[u])
    ensures Sorted(lt, s, b, t)
  {
  }

  lemma AllSorted<T>(lt: (T, T) -> bool, s: seq<T>, b: int, t: int, l: int, u: int)
    requires SortedBut(lt, s, b, t, l, u) && u <= l
    ensures Sorted(lt, s, b, t)
  {
  }

  /** The smaller part has less than half of the elements. */
  lemma HalfFits(d: nat, n: int, k: int)
    requires 4 <= n < Pow2(d + 1) && 2 * k <= n - 1
    ensures d > 0 && k < Pow2(d - 1 + 1)
  {
    assert Pow2(d + 1) == 2 * Pow2(d);
    if d == 0 { PowOne(); }
  }

  lemma PowOne()
    ensures Pow2(0) == 1
  {
  }

  /** The logarithm of the number of elements, rounded down. */
  function Log2(n: nat): nat
  {
    if n <= 1 then 0 else 1 + Log2(n / 2)
  }

  lemma {:induction false} Log2Is(n: nat)
    ensures n < Pow2(Log2(n) + 1)
  {
    if n > 1 {
      Log2Is(n / 2);
      assert Pow2(Log2(n) + 1) == 2 * Pow2(Log2(n));
    } else {
      assert Pow2(1) == 2;
    }
  }

  /** table.sort on slots 1 to n. */
  method Sort<T(!new)>(a: array<T>, lt: (T, T) -> bool, n: nat) returns (ok: bool, ghost depth: nat)
    requires a.Length == n + 1
    modifies a
    ensures Shuffled(old(a[..]), a[..], 1, n)
    ensures StrictWeak(lt) ==> ok && Sorted(lt, a[..], 1, n)
    ensures depth <= Log2(n)
  {
    Log2Is(n);
    ok, depth := AuxSort(a, lt, 1, n, Log2(n));
  }
}
