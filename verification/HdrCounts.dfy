/** Counts per slot, as sums over the values recorded, and the order statistics they give. */
module HdrCounts {
  import opened HdrIndex

  /** The sum of the first n counts. */
  function Sum(counts: seq<int>, n: nat): int
    requires n <= |counts|
  {
    if n == 0 then 0 else Sum(counts, n - 1) + counts[n - 1]
  }

  /** How many of the values recorded are counted in slot i, before slot i. */
  function InSlot(c: Config, log: seq<nat>, i: int): nat
  {
    if log == [] then 0 else InSlot(c, log[1..], i) + (if Slot(c, log[0]) == i then 1 else 0)
  }

  function Before(c: Config, log: seq<nat>, i: int): nat
  {
    if log == [] then 0 else Before(c, log[1..], i) + (if Slot(c, log[0]) < i then 1 else 0)
  }

  /** The counts are those of the values recorded. */
  ghost predicate Counts(c: Config, counts: seq<int>, log: seq<nat>)
  {
    |counts| == CountsLen(c) && (forall i :: 0 <= i < |counts| ==> counts[i] == InSlot(c, log, i)) &&
    forall j :: 0 <= j < |log| ==> Recordable(c, log[j])
  }

  lemma {:induction false} BeforeNext(c: Config, log: seq<nat>, i: int)
    ensures Before(c, log, i + 1) == Before(c, log, i) + InSlot(c, log, i)
  {
    if log != [] { BeforeNext(c, log[1..], i); }
  }

  lemma {:induction false} BeforeZero(c: Config, log: seq<nat>)
    ensures Before(c, log, 0) == 0
  {
    if log != [] {
      SlotMonotone(c, log[0], log[0]);
      BeforeZero(c, log[1..]);
    }
  }

  lemma {:induction false} BeforeAll(c: Config, log: seq<nat>)
    requires forall j :: 0 <= j < |log| ==> Recordable(c, log[j])
    ensures Before(c, log, CountsLen(c)) == |log|
  {
    if log != [] {
      assert Recordable(c, log[0]);
      BeforeAll(c, log[1..]);
    }
  }

  /** A prefix sum counts the values recorded in the slots before. */
  lemma {:induction false} PrefixSum(c: Config, counts: seq<int>, log: seq<nat>, n: nat)
    requires Counts(c, counts, log) && n <= |counts|
    ensures Sum(counts, n) == Before(c, log, n)
  {
    hide Slot, Recordable, CountsLen;
    if n > 0 {
      PrefixSum(c, counts, log, n - 1);
      BeforeNext(c, log, n - 1);
    } else {
      BeforeZero(c, log);
    }
  }

  lemma TotalIs(c: Config, counts: seq<int>, log: seq<nat>)
    requires Counts(c, counts, log)
    ensures Sum(counts, |counts|) == |log|
  {
    PrefixSum(c, counts, log, |counts|);
    BeforeAll(c, log);
  }

  lemma {:induction false} SumMono(counts: seq<int>, m: nat, n: nat)
    requires m <= n <= |counts| && forall i :: 0 <= i < |counts| ==> counts[i] >= 0
    ensures Sum(counts, m) <= Sum(counts, n)
    decreases n - m
  {
    if m < n { SumMono(counts, m, n - 1); }
  }

  lemma NotNegative(c: Config, counts: seq<int>, log: seq<nat>)
    requires Counts(c, counts, log)
    ensures forall i :: 0 <= i < |counts| ==> counts[i] >= 0
  {
  }

  // ---- Recording ------------------------------------------------------------------------------

  lemma {:induction false} InSlotAdd(c: Config, log: seq<nat>, more: seq<nat>, i: int)
    ensures InSlot(c, log + more, i) == InSlot(c, log, i) + InSlot(c, more, i)
  {
    if log == [] {
      assert log + more == more;
    } else {
      InSlotAdd(c, log[1..], more, i);
      assert (log + more)[1..] == log[1..] + more;
    }
  }

  /** A value so and so many times. */
  function Times(v: nat, n: nat): (r: seq<nat>)
    ensures |r| == n && forall j :: 0 <= j < n ==> r[j] == v
  {
    seq(n, _ => v)
  }

  lemma {:induction false} InSlotTimes(c: Config, v: nat, n: nat, i: int)
    ensures InSlot(c, Times(v, n), i) == if Slot(c, v) == i then n else 0
  {
    if n > 0 {
      InSlotTimes(c, v, n - 1, i);
      assert Times(v, n)[1..] == Times(v, n - 1);
    }
  }

  lemma RecordTimes(c: Config, counts: seq<int>, log: seq<nat>, v: nat, n: nat)
    requires Counts(c, counts, log) && Recordable(c, v)
    ensures 0 <= Slot(c, v) < |counts|
    ensures Counts(c, counts[Slot(c, v) := counts[Slot(c, v)] + n], log + Times(v, n))
  {
    SlotMonotone(c, v, v);
    var i := Slot(c, v);
    var counts' := counts[i := counts[i] + n];
    forall j | 0 <= j < |counts'| ensures counts'[j] == InSlot(c, log + Times(v, n), j) {
      InSlotAdd(c, log, Times(v, n), j);
      InSlotTimes(c, v, n, j);
    }
  }

  // ---- Order statistics ------------------------------------------------------------------------

  function Below(log: seq<nat>, x: nat): nat
  {
    if log == [] then 0 else Below(log[1..], x) + (if log[0] < x then 1 else 0)
  }

  function AtMost(log: seq<nat>, x: nat): nat
  {
    if log == [] then 0 else AtMost(log[1..], x) + (if log[0] <= x then 1 else 0)
  }

  /** x is the k-th smallest value recorded. */
  predicate IsKth(log: seq<nat>, k: int, x: nat)
  {
    x in log && Below(log, x) < k <= AtMost(log, x)
  }

  lemma {:induction false} BeforeBelow(c: Config, log: seq<nat>, x: nat)
    ensures Before(c, log, Slot(c, x)) <= Below(log, x) && AtMost(log, x) <= Before(c, log, Slot(c, x) + 1)
  {
    if log != [] {
      BeforeBelow(c, log[1..], x);
      if log[0] <= x { SlotMonotone(c, log[0], x); } else { SlotMonotone(c, x, log[0]); }
    }
  }

  /** The slot in which the counts reach k is that of the k-th smallest value. */
  lemma KthSlot(c: Config, counts: seq<int>, log: seq<nat>, k: int, x: nat, i: nat)
    requires Counts(c, counts, log) && IsKth(log, k, x) && i < |counts| && Sum(counts, i) < k <= Sum(counts, i + 1)
    ensures Slot(c, x) == i
  {
    BeforeBelow(c, log, x);
    SlotMonotone(c, x, x);
    assert Recordable(c, x) by { var j :| 0 <= j < |log| && log[j] == x; }
    PrefixSum(c, counts, log, Slot(c, x));
    PrefixSum(c, counts, log, Slot(c, x) + 1);
    NotNegative(c, counts, log);
    if i < Slot(c, x) { SumMono(counts, i + 1, Slot(c, x)); }
    if Slot(c, x) < i { SumMono(counts, Slot(c, x) + 1, i); }
  }

  function Largest(log: seq<nat>): (m: nat)
    requires log != []
    ensures m in log && forall x :: x in log ==> x <= m
  {
    if |log| == 1 then log[0]
    else
      var m := Largest(log[1..]);
      assert forall x :: x in log ==> x == log[0] || x in log[1..];
      if log[0] > m then log[0] else m
  }

  function Under(log: seq<nat>, m: nat): (r: seq<nat>)
    ensures |r| <= |log| && (m in log ==> |r| < |log|) && forall x :: x in r <==> x in log && x < m
  {
    if log == [] then [] else (if log[0] < m then [log[0]] else []) + Under(log[1..], m)
  }

  lemma {:induction false} UnderCounts(log: seq<nat>, m: nat, x: nat)
    requires x < m
    ensures Below(Under(log, m), x) == Below(log, x) && AtMost(Under(log, m), x) == AtMost(log, x) &&
      |Under(log, m)| == Below(log, m)
  {
    if log != [] {
      UnderCounts(log[1..], m, x);
      var u, r := Under(log, m), Under(log[1..], m);
      if log[0] < m {
        assert u[0] == log[0] && u[1..] == r;
      } else {
        assert u == r;
      }
    }
  }

  lemma {:induction false} AllAtMost(log: seq<nat>, m: nat)
    requires forall x :: x in log ==> x <= m
    ensures AtMost(log, m) == |log|
  {
    if log != [] {
      assert log[0] in log && forall x :: x in log[1..] ==> x in log;
      AllAtMost(log[1..], m);
    }
  }

  lemma {:induction false} UnderSize(log: seq<nat>, m: nat)
    ensures |Under(log, m)| == Below(log, m)
  {
    if log != [] { UnderSize(log[1..], m); }
  }

  /** There is a k-th smallest value for each k up to the number of values. */
  lemma {:induction false} KthExists(log: seq<nat>, k: int) returns (x: nat)
    requires 1 <= k <= |log|
    ensures IsKth(log, k, x)
    decreases |log|
  {
    var m := Largest(log);
    if Below(log, m) < k {
      AllAtMost(log, m);
      x := m;
    } else {
      UnderSize(log, m);
      x := KthExists(Under(log, m), k);
      UnderCounts(log, m, x);
    }
  }
}
