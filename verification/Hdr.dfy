/** The latency histogram: recording, iteration, percentiles and merging. */
module Hdr {
  import opened Arith
  import opened HdrIndex
  import opened HdrCounts
  import opened HdrInit

  datatype Error = None | EINVAL

  class Histogram {
    const lowestTrackable: nat
    const highestTrackable: nat
    const figures: nat
    const unitMagnitude: nat
    const halfMagnitude: nat
    const subBucketHalfCount: nat
    const subBucketCount: nat
    const subBucketMask: nat
    const bucketCount: nat
    const countsLen: nat
    var totalCount: int
    const counts: array<int>
    // The values recorded since the last reset.
    ghost var log: seq<nat>

    ghost function C(): Config
    {
      Config(unitMagnitude, halfMagnitude, bucketCount)
    }

    /** The fields fit together, as the constructor sets them up. */
    ghost predicate Built()
    {
      bucketCount > 0 && subBucketHalfCount == HalfCount(C()) && subBucketCount == SubCount(C()) &&
      subBucketMask == Mask(C()) && countsLen == CountsLen(C()) == counts.Length && Pow10(figures) <= HalfCount(C()) &&
      unitMagnitude + halfMagnitude + 1 <= 31 && highestTrackable < Pow2(unitMagnitude + halfMagnitude + bucketCount)
    }

    /** Besides, all widths of slots are powers of two that an int holds, as the shifts need that compute them. */
    ghost predicate Shape()
    {
      Built() && unitMagnitude + bucketCount <= 31
    }

    ghost predicate Valid()
      reads this, counts
    {
      Shape() && Counts(C(), counts[..], log) && totalCount == |log|
    }

    /** Buckets are added until the highest value fits, and no more. */
    static method BucketsNeeded(mask: nat, highest: nat, ghost unit: nat, ghost half: nat) returns (n: nat)
      requires mask == Mask(Config(unit, half, 0)) && mask > 0
      requires half < 32 && unit + half + 1 <= 31 && highest <= Reach(half)
      ensures n > 0 && highest <= Product(Pow2(half + 1) - 1, Pow2(unit + n - 1))
      ensures n > 1 ==> Product(Pow2(half + 1) - 1, Pow2(unit + n - 2)) < highest
    {
      var trackable := mask;
      n := 1;
      Doublings(half, unit, 0);
      while trackable < highest
        invariant n > 0 && trackable == Product(Pow2(half + 1) - 1, Pow2(unit + n - 1))
        invariant n > 1 ==> Product(Pow2(half + 1) - 1, Pow2(unit + n - 2)) < highest
        decreases highest - trackable
      {
        Doublings(half, unit, n - 1);
        trackable := 2 * trackable;
        n := n + 1;
      }
    }

    /** The number of buckets is the least, so that it stays small for a highest value that 30 doublings reach. */
    static lemma FewBuckets(unit: nat, half: nat, highest: nat, n: nat)
      requires n > 0 && unit + half + 1 <= 31 && highest <= Product(Pow2(half + 1) - 1, Pow2(30))
      requires n > 1 ==> Product(Pow2(half + 1) - 1, Pow2(unit + n - 2)) < highest
      ensures unit + n <= 31
    {
      hide *;
      if unit + n > 31 {
        var m := Pow2(half + 1) - 1;
        Pow2Mono(30, unit + n - 2);
        ProductIs(m, Pow2(30));
        ProductIs(m, Pow2(unit + n - 2));
        Scale(m, Pow2(30), Pow2(unit + n - 2));
      }
    }

    static lemma Doublings(half: nat, unit: nat, n: nat)
      ensures Product(Pow2(half + 1) - 1, Pow2(unit + n + 1)) == 2 * Product(Pow2(half + 1) - 1, Pow2(unit + n))
      ensures Product(Pow2(half + 1) - 1, Pow2(unit)) == Mask(Config(unit, half, 0))
      ensures Product(Pow2(half + 1) - 1, Pow2(unit + n)) > 0
    {
      assert Pow2(unit + n + 1) == 2 * Pow2(unit + n);
      assert Pow2(half + 1) == 2 * Pow2(half);
      Twice(Pow2(half + 1) - 1, Pow2(unit + n));
      MulMono(1, Pow2(half + 1) - 1, Pow2(unit + n));
    }

    static lemma Twice(a: nat, b: nat)
      ensures a * (2 * b) == 2 * (a * b)
    {
    }

    static lemma Fits(half: nat, e: nat, highest: nat)
      requires highest <= Product(Pow2(half + 1) - 1, Pow2(e))
      ensures highest < Pow2(half + 1 + e)
    {
      Pow2Add(half + 1, e);
      MulStrictMono(Pow2(half + 1) - 1, Pow2(half + 1), Pow2(e));
    }

    /**
     hdr_init: an empty histogram for values up to the highest; an error for a wrong number of figures. What is asked of
     the arguments is that the search for buckets ends.
     */
    static method Init(lowest: nat, highest: nat, figures: int) returns (err: Error, h: Histogram?)
      requires lowest > 0
      requires 1 <= figures <= 5 ==>
        FloorLog2(lowest) + HalfMagnitude(figures) + 1 <= 31 && highest <= Reach(HalfMagnitude(figures))
      ensures err == (if 1 <= figures <= 5 then None else EINVAL) && (err == None <==> h != null)
      ensures h != null ==>
        fresh(h) && fresh(h.counts) && h.Built() && h.log == [] && h.totalCount == 0 &&
        (forall i :: 0 <= i < h.counts.Length ==> h.counts[i] == 0) &&
        h.lowestTrackable == lowest && h.highestTrackable == highest && h.figures == figures &&
        h.unitMagnitude == FloorLog2(lowest) && h.halfMagnitude == HalfMagnitude(figures) &&
        (h.bucketCount > 1 ==>
         Product(Pow2(h.halfMagnitude + 1) - 1, Pow2(h.unitMagnitude + h.bucketCount - 2)) < highest)
      ensures h != null && highest <= Product(Pow2(HalfMagnitude(figures) + 1) - 1, Pow2(30)) ==> h.Valid()
    {
      hide *;
      if figures < 1 || 5 < figures {
        return EINVAL, null;
      }
      var half := HalfMagnitude(figures);
      var unit := FloorLog2(lowest);
      HalfIsEnough(figures);
      Doublings(half, unit, 0);
      MaskIs(unit, half);
      var n := BucketsNeeded(Product(Pow2(half + 1) - 1, Pow2(unit)), highest, unit, half);
      Fits(half, unit + n - 1, highest);
      h := new Histogram(lowest, highest, figures, unit, half, n);
      if highest <= Product(Pow2(half + 1) - 1, Pow2(30)) {
        FewBuckets(unit, half, highest, n);
        h.InRange();
      }
      err := None;
    }

    /** An empty histogram whose widths an int holds is valid. */
    lemma InRange()
      requires Built() && unitMagnitude + bucketCount <= 31 && log == [] && totalCount == 0
      requires forall i :: 0 <= i < counts.Length ==> counts[i] == 0
      ensures Valid()
    {
    }

    static lemma MaskIs(unit: nat, half: nat)
      ensures Product(Pow2(half + 1) - 1, Pow2(unit)) == Mask(Config(unit, half, 0))
    {
    }

    constructor (lowest: nat, highest: nat, figures: nat, unit: nat, half: nat, n: nat)
      requires n > 0 && unit + half + 1 <= 31 && highest < Pow2(unit + half + n) && Pow10(figures) <= Pow2(half)
      ensures Built() && lowestTrackable == lowest && highestTrackable == highest && this.figures == figures
      ensures unitMagnitude == unit && halfMagnitude == half && bucketCount == n
      ensures log == [] && totalCount == 0 && fresh(counts) && forall i :: 0 <= i < counts.Length ==> counts[i] == 0
    {
      lowestTrackable, highestTrackable, this.figures, unitMagnitude, halfMagnitude := lowest, highest, figures, unit,
        half;
      subBucketCount := Pow2(half + 1);
      subBucketHalfCount := Pow2(half + 1) / 2;
      subBucketMask := Product(Pow2(half + 1) - 1, Pow2(unit));
      bucketCount := n;
      var len := Product(n + 1, Pow2(half + 1) / 2);
      countsLen := len;
      counts := new int[len](_ => 0);
      totalCount := 0;
      log := [];
      new;
      assert Pow2(half + 1) == 2 * Pow2(half);
    }

    // ---- Index functions -----------------------------------------------------------------

    /** get_bucket_index; the highest bit of the value or the mask decides. */
    function GetBucketIndex(value: nat): (b: int)
      requires Shape()
      ensures b == Bucket(C(), value)
    {
      BitLen(Or(value, subBucketMask)) - unitMagnitude - (halfMagnitude + 1)
    }

    /** counts_index */
    function CountsIndexOf(b: nat, s: nat): (i: int)
      requires Shape()
      ensures i == CountsIndex(C(), b, s)
    {
      (b + 1) * Pow2(halfMagnitude) + (s - subBucketHalfCount)
    }

    lemma Fields()
      requires Valid()
      ensures Shape() && C() == Config(unitMagnitude, halfMagnitude, bucketCount)
      ensures subBucketHalfCount == HalfCount(C()) && subBucketCount == SubCount(C())
    {
    }

    function CountsIndexFor(value: nat): (i: int)
      requires Shape()
      ensures i == Slot(C(), value) >= 0
    {
      var b := GetBucketIndex(value);
      var s := SubBucketIndex(value, b, unitMagnitude);
      SlotMonotone(C(), value, value);
      CountsIndexOf(b, s)
    }

    /** size_of_equivalent_value_range; the sub-bucket is never beyond the bucket's end. */
    function SizeOfRange(value: nat): (w: nat)
      requires Shape()
      ensures w == Width(C(), value)
    {
      var b := GetBucketIndex(value);
      var s := SubBucketIndex(value, b, unitMagnitude);
      SubInRange(C(), value);
      Pow2(unitMagnitude + (if s >= subBucketCount then b + 1 else b))
    }

    function LowestEquivalent(value: nat): (v: nat)
      requires Shape()
      ensures v == Lowest(C(), value)
    {
      var b := GetBucketIndex(value);
      ValueFromIndex(b, SubBucketIndex(value, b, unitMagnitude), unitMagnitude)
    }

    function HighestEquivalent(value: nat): (v: int)
      requires Shape()
      ensures v == Highest(C(), value)
    {
      LowestEquivalent(value) + SizeOfRange(value) - 1
    }

    // ---- Recording --------------------------------------------------------------------------

    /** hdr_record_values: counted in the value's slot, if it has one. */
    method RecordValues(value: nat, count: nat) returns (ok: bool)
      requires Valid()
      modifies this, counts
      ensures Valid() && ok == Recordable(C(), value)
      ensures log == if ok then old(log) + Times(value, count) else old(log)
      ensures value <= highestTrackable ==> ok
      ensures ok ==> 0 <= Slot(C(), value) < counts.Length
      ensures counts[..] == if ok then old(counts[..])[Slot(C(), value) := old(counts[Slot(C(), value)]) + count]
        else old(counts[..])
    {
      var i := CountsIndexFor(value);
      RecordableIff(C(), value);
      if i < 0 || countsLen <= i {
        return false;
      }
      RecordTimes(C(), counts[..], log, value, count);
      ghost var was := counts[..];
      counts[i] := counts[i] + count;
      assert counts[..] == was[i := was[i] + count];
      totalCount := totalCount + count;
      log := log + Times(value, count);
      ok := true;
    }

    /** hdr_record_value */
    method RecordValue(value: nat) returns (ok: bool)
      requires Valid()
      modifies this, counts
      ensures Valid() && ok == Recordable(C(), value) && log == (if ok then old(log) + [value] else old(log))
      ensures value <= highestTrackable ==> ok
    {
      assert Times(value, 1) == [value];
      ok := RecordValues(value, 1);
    }

    /** The values that were held up by one that took so long: each one interval less than the one before. */
    static function Missing(value: int, interval: int): seq<nat>
      requires interval > 0
      decreases value
    {
      if value < interval then [] else [value] + Missing(value - interval, interval)
    }

    /** hdr_record_corrected_value: never fails half way. */
    method RecordCorrected(value: nat, interval: int) returns (ok: bool)
      requires Valid()
      modifies this, counts
      ensures Valid() && ok == Recordable(C(), value)
      ensures !ok ==> log == old(log)
      ensures ok ==>
        log == old(log) + [value] + (if interval <= 0 || value <= interval then []
        else Missing(value - interval, interval))
    {
      hide *;
      ok := RecordValue(value);
      if !ok {
        return;
      }
      if interval <= 0 || value <= interval {
        assert log + [] == log;
        return;
      }
      ghost var start, all := log, Missing(value - interval, interval);
      ghost var done: seq<nat> := [];
      assert start + [] == start && [] + all == all;
      var missing := value - interval;
      while missing >= interval
        invariant Valid() && 0 <= missing <= value && log == start + done && done + Missing(missing, interval) == all
        decreases missing
      {
        MissingStep(start, done, missing, interval);
        NoLess(missing, value);
        var again := RecordValue(missing);
        if !again {
          return false;
        }
        done := done + [missing as nat];
        missing := missing - interval;
      }
      MissingDone(done, missing, interval);
    }

    static lemma MissingStep(start: seq<nat>, done: seq<nat>, missing: nat, interval: int)
      requires 0 < interval <= missing
      ensures (start + done) + [missing] == start + (done + [missing])
      ensures (done + [missing]) + Missing(missing - interval, interval) == done + Missing(missing, interval)
    {
      assert Missing(missing, interval) == [missing] + Missing(missing - interval, interval);
    }

    static lemma MissingDone(done: seq<nat>, missing: int, interval: int)
      requires missing < interval && interval > 0
      ensures done + Missing(missing, interval) == done
    {
    }

    /** A smaller value has a slot if a greater one has. */
    lemma NoLess(v: nat, w: nat)
      requires v <= w
      ensures Recordable(C(), w) ==> Recordable(C(), v)
    {
      SlotMonotone(C(), v, w);
    }

    /** hdr_reset */
    method Reset()
      requires Valid()
      modifies this, counts
      ensures Valid() && log == []
    {
      totalCount := 0;
      var i := 0;
      while i < countsLen
        invariant 0 <= i <= counts.Length && totalCount == 0 && forall j :: 0 <= j < i ==> counts[j] == 0
      {
        counts[i] := 0;
        i := i + 1;
      }
      log := [];
    }

    // ---- Reading ------------------------------------------------------------------------------

    /** hdr_value_at_percentile, from the count on: the highest value equivalent to the k-th smallest recorded. */
    method ValueAtCount(k: int) returns (v: int)
      requires Valid() && 1 <= k
      ensures forall x {:trigger IsKth(log, k, x)} :: IsKth(log, k, x) ==> v == Highest(C(), x)
      ensures k <= totalCount <==> exists x :: IsKth(log, k, x)
      ensures k > totalCount ==> v == 0
    {
      KthIff(log, k);
      var iter := new Iter(this);
      var total := 0;
      TotalIs(C(), counts[..], log);
      NotNegative(C(), counts[..], log);
      var more := iter.Next();
      while more
        invariant iter.h == this && iter.Valid() && Valid() &&
          (more ==> iter.pos >= 0 && total == Sum(counts[..], iter.pos) < k)
        invariant !more ==> totalCount < k
        decreases counts.Length - iter.pos, more
      {
        total := total + iter.countAtIndex;
        if total >= k {
          ghost var i := iter.pos;
          SumMono(counts[..], i + 1, counts.Length);
          v := HighestEquivalent(iter.valueFromIndex);
          forall x | IsKth(log, k, x) ensures v == Highest(C(), x) {
            KthSlot(C(), counts[..], log, k, x, i);
            SlotIffLowest(C(), iter.valueFromIndex, x);
          }
          return;
        }
        more := iter.Next();
      }
      v := 0;
      forall x | IsKth(log, k, x) ensures false {
        AtMostAll(log, x);
      }
    }

    static lemma KthIff(log: seq<nat>, k: int)
      requires 1 <= k
      ensures k <= |log| <==> exists x :: IsKth(log, k, x)
    {
      if k <= |log| {
        var x := KthExists(log, k);
      }
      forall x | IsKth(log, k, x) ensures k <= |log| {
        AtMostAll(log, x);
      }
    }

    static lemma {:induction false} AtMostAll(log: seq<nat>, x: nat)
      ensures AtMost(log, x) <= |log|
    {
      if log != [] { AtMostAll(log[1..], x); }
    }

    /** hdr_max: the lowest value equivalent to the largest recorded. */
    method Max() returns (v: nat)
      requires Valid()
      ensures v == if log == [] then 0 else Lowest(C(), Largest(log))
    {
      hide *;
      var max: int := 0;
      var iter := new Iter(this);
      Facts();
      iter.Facts();
      var more := iter.Next();
      iter.Facts();
      LastStart(C(), counts[..]);
      while more
        invariant iter.h == this && iter.Valid() && Valid() && max >= 0 && (more ==> iter.pos >= 0) &&
          -1 <= iter.pos < counts.Length
        invariant MaxSoFar(C(), counts[..], if more then iter.pos else iter.pos + 1, max)
        invariant !more ==> iter.countToIndex >= totalCount
        decreases counts.Length - iter.pos, more
      {
        iter.Facts();
        MaxNext(C(), counts[..], iter.pos, max, iter.valueFromIndex);
        if iter.countAtIndex != 0 {
          max := iter.highestEquivalent;
        }
        more := iter.Next();
        iter.Facts();
      }
      iter.Facts();
      LargestIs(C(), counts[..], log, iter.pos + 1, max);
      Fields();
      v := LowestEquivalent(max);
    }

    /** The last slot that is not empty, among the first n, ends with max. */
    static ghost predicate MaxSoFar(c: Config, counts: seq<int>, n: int, max: int)
    {
      0 <= n <= |counts| && max >= 0 &&
      if forall i :: 0 <= i < n ==> counts[i] == 0 then max == 0
      else 0 <= Slot(c, max) < n && counts[Slot(c, max)] != 0 && forall i :: Slot(c, max) < i < n ==> counts[i] == 0
    }

    static lemma LastStart(c: Config, counts: seq<int>)
      ensures MaxSoFar(c, counts, 0, 0)
    {
    }

    static lemma MaxNext(c: Config, counts: seq<int>, n: nat, max: int, v: nat)
      requires MaxSoFar(c, counts, n, max) && n < |counts| && Slot(c, v) == n
      ensures MaxSoFar(c, counts, n + 1, if counts[n] != 0 then Highest(c, v) else max)
    {
      LowestShares(c, v);
      Encloses(c, v);
    }

    static lemma LargestIs(c: Config, counts: seq<int>, log: seq<nat>, n: nat, max: int)
      requires Counts(c, counts, log) && MaxSoFar(c, counts, n, max) && Sum(counts, n) >= |log|
      ensures if log == [] then max == 0 else Lowest(c, max) == Lowest(c, Largest(log))
      ensures log == [] ==> Lowest(c, 0) == 0
    {
      TotalIs(c, counts, log);
      NotNegative(c, counts, log);
      if log == [] {
        forall i | 0 <= i < n ensures counts[i] == 0 {}
        Encloses(c, 0);
      } else {
        var m := Largest(log);
        assert Recordable(c, m) by { var j :| 0 <= j < |log| && log[j] == m; }
        SlotMonotone(c, m, m);
        InSlotPositive(c, log, m);
        SlotReached(c, counts, Slot(c, m), n);
        NothingAbove(c, log, m, Slot(c, max));
        SlotIffLowest(c, max, m);
      }
    }

    static lemma SlotReached(c: Config, counts: seq<int>, i: int, n: nat)
      requires 0 <= i < |counts| && n <= |counts| && counts[i] > 0 && Sum(counts, n) >= Sum(counts, |counts|)
      requires forall j :: 0 <= j < |counts| ==> counts[j] >= 0
      ensures i < n
    {
      if n <= i {
        SumMono(counts, n, i);
        SumMono(counts, i + 1, |counts|);
      }
    }

    static lemma {:induction false} InSlotPositive(c: Config, log: seq<nat>, m: nat)
      requires m in log
      ensures InSlot(c, log, Slot(c, m)) > 0
    {
      if log[0] != m { InSlotPositive(c, log[1..], m); }
    }

    static lemma {:induction false} NothingAbove(c: Config, log: seq<nat>, m: nat, i: int)
      requires forall x :: x in log ==> x <= m
      ensures i > Slot(c, m) ==> InSlot(c, log, i) == 0
    {
      if log != [] {
        assert log[0] in log;
        SlotMonotone(c, log[0], m);
        assert forall x :: x in log[1..] ==> x in log;
        NothingAbove(c, log[1..], m, i);
      }
    }

    /** hdr_min: the lowest value equivalent to the smallest recorded. */
    method Min() returns (v: nat)
      requires Valid()
      ensures v == if log == [] then 0 else Lowest(C(), Smallest(log))
    {
      v := 0;
      var iter := new Iter(this);
      TotalIs(C(), counts[..], log);
      NotNegative(C(), counts[..], log);
      var more := iter.Next();
      while more
        invariant iter.h == this && iter.Valid() && Valid() && v == 0 &&
          (more ==> iter.pos >= 0 && Sum(counts[..], iter.pos) == 0 && log != [])
        invariant !more ==> log == []
        decreases counts.Length - iter.pos, more
      {
        if iter.countToIndex != 0 && v == 0 {
          v := iter.valueFromIndex;
          SmallestIs(C(), counts[..], log, iter.pos, v);
          break;
        }
        more := iter.Next();
      }
    }

    static lemma SmallestIs(c: Config, counts: seq<int>, log: seq<nat>, i: nat, v: nat)
      requires Counts(c, counts, log) && i < |counts| && Sum(counts, i) == 0 && Sum(counts, i + 1) != 0 && log != []
      requires Slot(c, v) == i && Lowest(c, v) == v
      ensures v == Lowest(c, Smallest(log))
    {
      var m := Smallest(log);
      NotNegative(c, counts, log);
      SumMono(counts, i, i + 1);
      BelowSmallest(log, m);
      KthSlot(c, counts, log, 1, m, i);
      SlotIffLowest(c, v, m);
    }

    static lemma {:induction false} BelowSmallest(log: seq<nat>, m: nat)
      requires m in log && forall x :: x in log ==> m <= x
      ensures Below(log, m) == 0 && AtMost(log, m) >= 1
    {
      NoneBelow(log, m);
      SomeAtMost(log, m);
    }

    static lemma {:induction false} NoneBelow(log: seq<nat>, m: nat)
      requires forall x :: x in log ==> m <= x
      ensures Below(log, m) == 0
    {
      if log != [] {
        assert log[0] in log;
        assert forall x :: x in log[1..] ==> x in log;
        NoneBelow(log[1..], m);
      }
    }

    static lemma {:induction false} SomeAtMost(log: seq<nat>, m: nat)
      requires m in log
      ensures AtMost(log, m) >= 1
    {
      if log[0] != m { SomeAtMost(log[1..], m); }
    }

    // ---- Merging --------------------------------------------------------------------------------

    /**
     hdr_add: all counts of another histogram are added here, in the slots of their values; those without a slot are
     dropped and counted. The other histogram must not be this one: it would grow while it is gone through.
     */
    method Add(from: Histogram) returns (dropped: int)
      requires Valid() && from.Valid() && from != this && from.counts != counts
      modifies this, counts
      ensures Valid() && from.Valid() && from.log == old(from.log) && from.counts[..] == old(from.counts[..])
      ensures totalCount - old(totalCount) + dropped == from.totalCount
      ensures dropped == DroppedUpTo(C(), from.C(), from.counts[..], from.counts.Length)
      ensures forall i :: 0 <= i < counts.Length ==>
        counts[i] == old(counts[i]) + MovedTo(C(), from.C(), from.counts[..], from.counts.Length, i)
      ensures C() == from.C() ==> dropped == 0 && Counts(C(), counts[..], old(log) + from.log)
    {
      hide *;
      var iter := new Iter(from);
      dropped := 0;
      Facts();
      from.Facts();
      ghost var log0 := log;
      ghost var was, all, c, d := counts[..], from.counts[..], C(), from.C();
      AddedStart(c, d, was, all);
      NoneYet(all);
      iter.Facts();
      var more := iter.NextRecorded();
      iter.Facts();
      SkipEmpty(c, d, was, counts[..], all, 0, if more then iter.pos else iter.pos + 1, dropped);
      while more
        invariant iter.h == from && iter.Valid() && Valid() && from.Valid() && from.counts[..] == all &&
          from.log == old(from.log)
        invariant (more ==> iter.pos >= 0) && -1 <= iter.pos < |all| && |counts[..]| == |was| == CountsLen(c)
        invariant Added(c, d, was, counts[..], all, if more then iter.pos else iter.pos + 1, dropped)
        invariant totalCount - old(totalCount) + dropped == Sum(all, if more then iter.pos else iter.pos + 1)
        invariant !more ==> iter.countToIndex >= from.totalCount
        decreases from.counts.Length - iter.pos, more
      {
        iter.Facts();
        Facts();
        ghost var p, before := iter.pos, counts[..];
        SumNext(all, p);
        var value, count := iter.valueFromIndex, iter.countAtIndex;
        var ok := RecordValues(value, count);
        Facts();
        TimesLength(value, count);
        if !ok {
          dropped := dropped + count;
        }
        AddedNext(c, d, was, before, counts[..], all, p, value, ok, dropped);
        more := iter.NextRecorded();
        iter.Facts();
        SkipEmpty(c, d, was, counts[..], all, p + 1, if more then iter.pos else iter.pos + 1, dropped);
      }
      iter.Facts();
      from.Facts();
      AddedAll(c, d, was, counts[..], all, iter.pos + 1, dropped, from.log);
      AddedMeans(c, d, was, counts[..], all, dropped, log0, from.log);
    }

    lemma Facts()
      requires Valid()
      ensures Counts(C(), counts[..], log) && totalCount == |log| && C().buckets > 0 && counts.Length == CountsLen(C())
      ensures forall v: nat {:trigger Slot(C(), v)} :: Recordable(C(), v) ==> 0 <= Slot(C(), v) < counts.Length
    {
      forall v: nat ensures 0 <= Slot(C(), v) { SlotMonotone(C(), v, v); }
    }

    static lemma NoneYet(all: seq<int>)
      ensures Sum(all, 0) == 0
    {
    }

    static lemma SumNext(all: seq<int>, n: nat)
      requires n < |all|
      ensures Sum(all, n + 1) == Sum(all, n) + all[n]
    {
    }

    static lemma TimesLength(v: nat, n: nat)
      ensures |Times(v, n)| == n
    {
    }

    static lemma AddedMeans(c: Config, d: Config, was: seq<int>, now: seq<int>, all: seq<int>, dropped: int,
        log: seq<nat>, from: seq<nat>)
      requires Added(c, d, was, now, all, |all|, dropped) && Counts(c, was, log) && Counts(d, all, from)
      ensures d.buckets > 0 && |all| <= CountsLen(d) && dropped == DroppedUpTo(c, d, all, |all|) && |now| == |was|
      ensures forall i :: 0 <= i < |now| ==> now[i] == was[i] + MovedTo(c, d, all, |all|, i)
      ensures c == d ==> dropped == 0 && Counts(c, now, log + from)
    {
      if c == d {
        forall i | 0 <= i < |now| ensures now[i] == InSlot(c, log + from, i) {
          InSlotAdd(c, log, from, i);
          MovedSame(c, all, |all|, i);
        }
        DroppedNone(c, all, |all|);
      }
    }

    /** With the same configuration each slot goes to itself, and nothing is dropped. */
    static lemma {:induction false} MovedSame(c: Config, all: seq<int>, n: nat, i: int)
      requires c.buckets > 0 && n <= |all| <= CountsLen(c)
      ensures MovedTo(c, c, all, n, i) == if 0 <= i < n then all[i] else 0
    {
      if n > 0 {
        SlotValueIs(c, n - 1, 0);
        hide SlotValue, Slot;
        MovedSame(c, all, n - 1, i);
      }
    }

    static lemma {:induction false} DroppedNone(c: Config, all: seq<int>, n: nat)
      requires c.buckets > 0 && n <= |all| <= CountsLen(c)
      ensures DroppedUpTo(c, c, all, n) == 0
    {
      if n > 0 {
        SlotValueIs(c, n - 1, 0);
        assert Recordable(c, SlotValue(c, n - 1));
        hide SlotValue, Slot;
        DroppedNone(c, all, n - 1);
      }
    }

    /** What the first n slots of another histogram bring to slot i here. */
    static function MovedTo(c: Config, d: Config, all: seq<int>, n: nat, i: int): int
      requires n <= |all| && d.buckets > 0 && |all| <= CountsLen(d)
    {
      if n == 0 then 0 else MovedTo(c, d, all, n - 1, i) + (if Slot(c, SlotValue(d, n - 1)) == i then all[n - 1] else 0)
    }

    /** What the first n slots of another histogram lose here. */
    static function DroppedUpTo(c: Config, d: Config, all: seq<int>, n: nat): int
      requires n <= |all| && d.buckets > 0 && |all| <= CountsLen(d)
    {
      if n == 0 then 0
      else DroppedUpTo(c, d, all, n - 1) + (if Recordable(c, SlotValue(d, n - 1)) then 0 else all[n - 1])
    }

    /** The lowest value of slot i. */
    static function SlotValue(d: Config, i: nat): nat
      requires i < CountsLen(d) && d.buckets > 0
    {
      IndexOnto(d, i);
      ValueFromIndex(PairOf(d, i).0, PairOf(d, i).1, d.unit)
    }

    static lemma SlotValueIs(d: Config, i: nat, v: nat)
      requires i < CountsLen(d) && d.buckets > 0
      ensures Slot(d, SlotValue(d, i)) == i
      ensures Slot(d, v) == i && Lowest(d, v) == v ==> v == SlotValue(d, i)
    {
      IndexOnto(d, i);
      ValueHasItsSlot(d, PairOf(d, i).0, PairOf(d, i).1);
      SlotIffLowest(d, v, SlotValue(d, i));
    }

    /** The first n slots of another histogram have been added. */
    static ghost predicate Added(c: Config, d: Config, was: seq<int>, now: seq<int>, all: seq<int>, n: int,
        dropped: int)
    {
      d.buckets > 0 && |all| == CountsLen(d) && 0 <= n <= |all| && |now| == |was| &&
        dropped == DroppedUpTo(c, d, all, n) &&
      forall i :: 0 <= i < |now| ==> now[i] == was[i] + MovedTo(c, d, all, n, i)
    }

    static lemma AddedStart(c: Config, d: Config, was: seq<int>, all: seq<int>)
      requires |was| == CountsLen(c) && |all| == CountsLen(d) && d.buckets > 0
      ensures Added(c, d, was, was, all, 0, 0)
    {
    }

    static lemma AddedNext(c: Config, d: Config, was: seq<int>, before: seq<int>, now: seq<int>, all: seq<int>, p: nat,
        v: nat, ok: bool, dropped: int)
      requires p < |all| && |was| == CountsLen(c) && (ok <==> Recordable(c, v)) && Slot(d, v) == p && Lowest(d, v) == v
      requires Added(c, d, was, before, all, p, if ok then dropped else dropped - all[p])
      requires ok ==> 0 <= Slot(c, v) < |before| && now == before[Slot(c, v) := before[Slot(c, v)] + all[p]]
      requires !ok ==> now == before
      ensures Added(c, d, was, now, all, p + 1, dropped)
    {
      hide *;
      AddedIs(c, d, was, before, all, p, if ok then dropped else dropped - all[p]);
      AddedIs(c, d, was, now, all, p + 1, dropped);
      SlotValueIs(d, p, v);
      SumsNext(c, d, all, p, v);
      forall i | 0 <= i < |now| ensures now[i] == was[i] + MovedTo(c, d, all, p + 1, i) {
        MovedNext(c, d, all, p, v, i);
      }
    }

    static lemma AddedIs(c: Config, d: Config, was: seq<int>, now: seq<int>, all: seq<int>, n: int, dropped: int)
      ensures Added(c, d, was, now, all, n, dropped) <==>
        d.buckets > 0 && |all| == CountsLen(d) && 0 <= n <= |all| && |now| == |was| &&
          dropped == DroppedUpTo(c, d, all, n) &&
        forall i :: 0 <= i < |now| ==> now[i] == was[i] + MovedTo(c, d, all, n, i)
    {
    }

    static lemma SumsNext(c: Config, d: Config, all: seq<int>, p: nat, v: nat)
      requires p < |all| && d.buckets > 0 && |all| <= CountsLen(d) && v == SlotValue(d, p)
      ensures DroppedUpTo(c, d, all, p + 1) == DroppedUpTo(c, d, all, p) + (if Recordable(c, v) then 0 else all[p])
      ensures Recordable(c, v) <==> Slot(c, v) < CountsLen(c)
    {
    }

    static lemma MovedNext(c: Config, d: Config, all: seq<int>, p: nat, v: nat, i: int)
      requires p < |all| && d.buckets > 0 && |all| <= CountsLen(d) && v == SlotValue(d, p)
      ensures MovedTo(c, d, all, p + 1, i) == MovedTo(c, d, all, p, i) + (if Slot(c, v) == i then all[p] else 0)
    {
    }

    /** Empty slots add nothing. */
    static lemma {:induction false} SkipEmpty(c: Config, d: Config, was: seq<int>, now: seq<int>, all: seq<int>, m: nat,
        n: int, dropped: int)
      requires Added(c, d, was, now, all, m, dropped) && m <= n <= |all| && forall i :: m <= i < n ==> all[i] == 0
      ensures Added(c, d, was, now, all, n, dropped) && Sum(all, n) == Sum(all, m)
      decreases n - m
    {
      if m < n { SkipEmpty(c, d, was, now, all, m + 1, n, dropped); }
    }

    static lemma AddedAll(c: Config, d: Config, was: seq<int>, now: seq<int>, all: seq<int>, n: int, dropped: int,
        log: seq<nat>)
      requires Added(c, d, was, now, all, n, dropped) && Counts(d, all, log) && 0 <= n <= |all| && Sum(all, n) >= |log|
      ensures Added(c, d, was, now, all, |all|, dropped) && Sum(all, n) == Sum(all, |all|) == |log|
    {
      TotalIs(d, all, log);
      NotNegative(d, all, log);
      SumMono(all, n, |all|);
      forall i | n <= i < |all| ensures all[i] == 0 {
        SumMono(all, n, i);
        SumMono(all, i + 1, |all|);
      }
      SkipEmpty(c, d, was, now, all, n, |all|, dropped);
    }
  }

  function Smallest(log: seq<nat>): (m: nat)
    requires log != []
    ensures m in log && forall x :: x in log ==> m <= x
  {
    if |log| == 1 then log[0]
    else
      var m := Smallest(log[1..]);
      assert forall x :: x in log ==> x == log[0] || x in log[1..];
      if log[0] < m then log[0] else m
  }

  /** hdr_iter: goes through all slots up to the last that is not empty. */
  class Iter {
    const h: Histogram
    var bucketIndex: int
    var subBucketIndex: int
    var countAtIndex: int
    var countToIndex: int
    var valueFromIndex: nat
    var highestEquivalent: int
    // The slot it is at, or -1 before the first.
    ghost var pos: int

    ghost predicate Valid()
      reads this, h, h.counts
    {
      h.Valid() && -1 <= pos < h.counts.Length && countToIndex == Sum(h.counts[..], pos + 1) &&
      (if pos < 0 then bucketIndex == 0 && subBucketIndex == -1
       else ValidPair(h.C(), bucketIndex, subBucketIndex) && CountsIndex(h.C(), bucketIndex, subBucketIndex) == pos &&
            countAtIndex == h.counts[pos] && Slot(h.C(), valueFromIndex) == pos &&
              Lowest(h.C(), valueFromIndex) == valueFromIndex &&
            highestEquivalent == Highest(h.C(), valueFromIndex))
    }

    constructor (h: Histogram)
      requires h.Valid()
      ensures this.h == h && Valid() && pos == -1
    {
      this.h := h;
      bucketIndex, subBucketIndex, countAtIndex, countToIndex, valueFromIndex, highestEquivalent, pos := 0, -1, 0, 0, 0,
        0, -1;
    }

    lemma Facts()
      requires Valid()
      ensures h.Valid() && -1 <= pos < h.counts.Length && countToIndex == Sum(h.counts[..], pos + 1)
      ensures pos >= 0 ==> countAtIndex == h.counts[pos] >= 0 && Slot(h.C(), valueFromIndex) == pos
      ensures pos >= 0 ==>
        Lowest(h.C(), valueFromIndex) == valueFromIndex && highestEquivalent == Highest(h.C(), valueFromIndex) >= 0
    {
      Encloses(h.C(), valueFromIndex);
    }

    /** The next pair of indices is that of the next slot. */
    static lemma NextPair(c: Config, b: int, s: int, pos: int)
      requires c.buckets > 0 && -1 <= pos && pos + 1 < CountsLen(c)
      requires At(c, b, s, pos)
      ensures var b', s' := (if s + 1 >= SubCount(c) then b + 1 else b), (if s + 1 >= SubCount(c) then HalfCount(c)
        else s + 1);
        ValidPair(c, b', s') && CountsIndex(c, b', s') == pos + 1
    {
      assert SubCount(c) == 2 * HalfCount(c);
      IndexIs(c, b, s);
      if s + 1 >= SubCount(c) {
        IndexIs(c, b + 1, HalfCount(c));
        assert (b + 1) * HalfCount(c) == b * HalfCount(c) + HalfCount(c);
        assert (c.buckets + 1) * HalfCount(c) == c.buckets * HalfCount(c) + HalfCount(c);
        if b + 1 >= c.buckets { MulMono(c.buckets, b + 1, HalfCount(c)); }
      } else {
        IndexIs(c, b, s + 1);
      }
    }

    static lemma NotLast(all: seq<int>, n: nat)
      requires n <= |all| && Sum(all, n) < Sum(all, |all|)
      ensures n < |all|
    {
    }

    /** The pair of indices of a slot, or that before the first. */
    static ghost predicate At(c: Config, b: int, s: int, pos: int)
    {
      if pos < 0 then b == 0 && s == -1 else ValidPair(c, b, s) && CountsIndex(c, b, s) == pos
    }

    lemma Place()
      requires Valid()
      ensures At(h.C(), bucketIndex, subBucketIndex, pos)
    {
    }

    lemma Arrived(b: nat, s: nat, i: nat)
      requires h.Valid() && i < h.counts.Length && ValidPair(h.C(), b, s) && CountsIndex(h.C(), b, s) == i
      requires bucketIndex == b && subBucketIndex == s && pos == i && countAtIndex == h.counts[i] &&
        countToIndex == Sum(h.counts[..], i + 1)
      requires valueFromIndex == ValueFromIndex(b, s, h.C().unit) && highestEquivalent == Highest(h.C(), valueFromIndex)
      ensures Valid()
    {
      ValueHasItsSlot(h.C(), b, s);
    }

    lemma Missing()
      requires Valid() && countToIndex < h.totalCount
      ensures pos + 1 < h.counts.Length
    {
      hide *;
      Facts();
      h.Facts();
      TotalIs(h.C(), h.counts[..], h.log);
      NotLast(h.counts[..], pos + 1);
    }

    /** move_next: false past the last bucket, which cannot happen while counts are missing. */
    method MoveNext() returns (more: bool)
      requires Valid() && countToIndex < h.totalCount
      modifies this
      ensures more && Valid() && pos == old(pos) + 1
    {
      hide *;
      Facts();
      h.Facts();
      Place();
      Missing();
      NextPair(h.C(), bucketIndex, subBucketIndex, pos);
      h.Fields();
      PairIs(h.C(), bucketIndex, subBucketIndex, pos);
      Histogram.SumNext(h.counts[..], pos + 1);
      var b, s := bucketIndex, subBucketIndex + 1;
      if s >= h.subBucketCount {
        b, s := b + 1, h.subBucketHalfCount;
      }
      if !(b < h.bucketCount) {
        return false;
      }
      bucketIndex, subBucketIndex, pos := b, s, pos + 1;
      countAtIndex := h.counts[h.CountsIndexOf(b, s)];
      countToIndex := countToIndex + countAtIndex;
      valueFromIndex := ValueFromIndex(b, s, h.unitMagnitude);
      highestEquivalent := h.HighestEquivalent(valueFromIndex);
      Arrived(b, s, pos);
      more := true;
    }

    static lemma PairIs(c: Config, b: int, s: int, pos: int)
      requires At(c, b, s, pos)
      ensures b >= 0 && s >= -1
      ensures forall b', s' {:trigger ValidPair(c, b', s')} :: ValidPair(c, b', s') ==> b' < c.buckets
    {
    }

    /** hdr_iter_next */
    method Next() returns (more: bool)
      requires Valid()
      modifies this
      ensures Valid() && more == (old(countToIndex) < h.totalCount) && pos == if more then old(pos) + 1 else old(pos)
      ensures !more ==> countToIndex == old(countToIndex)
    {
      if !(countToIndex < h.totalCount) {
        return false;
      }
      var ignored := MoveNext();
      more := true;
    }

    /** hdr_recorded_iter_next: the next slot that is not empty. */
    method NextRecorded() returns (more: bool)
      requires Valid()
      modifies this
      ensures Valid() && pos >= old(pos) && (more ==> pos > old(pos) && countAtIndex != 0)
      ensures forall i :: old(pos) < i < (if more then pos else pos + 1) ==> h.counts[i] == 0
      ensures !more ==> countToIndex >= h.totalCount
    {
      more := Next();
      while more
        invariant Valid() && pos >= old(pos) && (more ==> pos > old(pos))
        invariant forall i :: old(pos) < i < (if more then pos else pos + 1) ==> h.counts[i] == 0
        invariant !more ==> countToIndex >= h.totalCount
        decreases h.counts.Length - pos, more
      {
        if countAtIndex != 0 {
          return true;
        }
        more := Next();
      }
    }
  }
}
