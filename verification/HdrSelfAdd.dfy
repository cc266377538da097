/** hdr_add of a histogram to itself, turn by turn: the counts grow while the iterator goes through them. */
module HdrSelfAdd {
  import opened Arith
  import opened HdrIndex
  import opened HdrCounts

  /** The fields of the iterator, and the counts that it goes through and adds to; counters have no bounds here. */
  datatype Turn = Turn(bucket: int, sub: int, countAt: int, countTo: int, value: nat, counts: seq<int>, total: int)

  function Start(counts: seq<int>, total: int): Turn
  {
    Turn(0, -1, 0, 0, 0, counts, total)
  }

  /** has_next: without it the call returns. */
  predicate Going(t: Turn)
  {
    t.countTo < t.total
  }

  /** move_next: past the last bucket only the pair of indices changes, which the caller does not look at. */
  function Moved(c: Config, t: Turn): Turn
    requires t.bucket >= 0
  {
    var b := if t.sub + 1 >= SubCount(c) then t.bucket + 1 else t.bucket;
    var s := if t.sub + 1 >= SubCount(c) then HalfCount(c) else t.sub + 1;
    if b < c.buckets && 0 <= CountsIndex(c, b, s) < |t.counts| && s >= 0 then
      var n := t.counts[CountsIndex(c, b, s)];
      t.(bucket := b, sub := s, countAt := n, countTo := t.countTo + n, value := ValueFromIndex(b, s, c.unit))
    else t.(bucket := b, sub := s)
  }

  /** hdr_record_values of the count at the iterator, unless that is zero and the iterator goes on. */
  function Recorded(c: Config, t: Turn): Turn
  {
    var i := Slot(c, t.value);
    if t.countAt != 0 && 0 <= i < |t.counts| then
      t.(counts := t.counts[i := t.counts[i] + t.countAt], total := t.total + t.countAt)
    else t
  }

  /** The state after n turns; once nothing is missing the call has returned. */
  function After(c: Config, t: Turn, n: nat): (r: Turn)
    requires t.bucket >= 0
    ensures r.bucket >= 0
  {
    if n == 0 then t
    else
      var p := After(c, t, n - 1);
      if Going(p) then Recorded(c, Moved(c, p)) else p
  }

  /** The iterator has not gone past a pair that is no slot, and no count is negative. */
  predicate Sound(c: Config, t: Turn)
  {
    c.buckets > 0 && t.bucket >= 0 && -1 <= t.sub < SubCount(c) && (t.sub < 0 ==> t.bucket == 0) &&
    (t.bucket > 0 ==> t.sub >= HalfCount(c)) && t.countAt >= 0 && |t.counts| == CountsLen(c) &&
    forall i :: 0 <= i < |t.counts| ==> t.counts[i] >= 0
  }

  /** What is missing never gets less: what a turn counts, it also adds. */
  lemma TurnKeeps(c: Config, t: Turn)
    requires Sound(c, t)
    ensures var r := Recorded(c, Moved(c, t)); Sound(c, r) && r.total - r.countTo >= t.total - t.countTo
  {
    MovedPair(c, t);
    var m := Moved(c, t);
    var i := Slot(c, m.value);
    hide CountsLen, SubCount, HalfCount, Moved, ValueFromIndex, CountsIndex, Slot;
  }

  lemma MovedPair(c: Config, t: Turn)
    requires Sound(c, t)
    ensures
      var m := Moved(c, t);
      Sound(c, m) && m.counts == t.counts && m.total == t.total &&
      (m.countTo == t.countTo || (m.countTo == t.countTo + m.countAt && 0 <= Slot(c, m.value) < |m.counts|))
  {
    assert SubCount(c) == 2 * HalfCount(c);
    var m := Moved(c, t);
    if m.bucket < c.buckets {
      assert ValidPair(c, m.bucket, m.sub);
      IndexInRange(c, m.bucket, m.sub);
      ValueHasItsSlot(c, m.bucket, m.sub);
    }
  }

  lemma {:induction false} NeverDone(c: Config, t: Turn, n: nat)
    requires Sound(c, t) && Going(t)
    ensures Sound(c, After(c, t, n)) && Going(After(c, t, n))
  {
    if n > 0 {
      NeverDone(c, t, n - 1);
      TurnKeeps(c, After(c, t, n - 1));
      hide Moved, Recorded, Sound;
    }
  }

  /** Adding a histogram to itself ends exactly if it is empty, and then at once. */
  lemma SelfAddEndsIff(c: Config, counts: seq<int>, log: seq<nat>)
    requires c.buckets > 0 && Counts(c, counts, log)
    ensures (exists n: nat :: !Going(After(c, Start(counts, |log|), n))) <==> log == []
  {
    var t := Start(counts, |log|);
    if log == [] {
      assert !Going(After(c, t, 0));
    } else {
      NotNegative(c, counts, log);
      assert Sound(c, t) by { assert SubCount(c) == 2 * HalfCount(c); }
      forall n: nat ensures Going(After(c, t, n)) {
        NeverDone(c, t, n);
      }
    }
  }

  const ONE_BUCKET: Config := Config(0, 4, 1)

  /** The counts after the value 7 has been recorded. */
  function SevenOnce(): seq<int>
  {
    seq(32, i => if i == 7 then 1 else 0)
  }

  lemma SlotOfPair(c: Config, b: int, s: int)
    requires ValidPair(c, b, s)
    ensures Slot(c, ValueFromIndex(b, s, c.unit)) == CountsIndex(c, b, s)
  {
    ValueHasItsSlot(c, b, s);
  }

  lemma SevenPair()
    ensures ValidPair(ONE_BUCKET, 0, 7) && ValueFromIndex(0, 7, ONE_BUCKET.unit) == 7 &&
      CountsIndex(ONE_BUCKET, 0, 7) == 7
    ensures CountsLen(ONE_BUCKET) == 32
  {
    assert Pow2(0) == 1 && Pow2(4) == 16 && Pow2(5) == 32;
  }

  lemma SevenSlot()
    ensures Slot(ONE_BUCKET, 7) == 7 && CountsLen(ONE_BUCKET) == 32
  {
    hide *;
    SevenPair();
    SlotOfPair(ONE_BUCKET, 0, 7);
  }

  lemma SevenCounts()
    ensures Counts(ONE_BUCKET, SevenOnce(), [7])
  {
    SevenSlot();
    hide Slot, CountsLen;
    forall i ensures InSlot(ONE_BUCKET, [7], i) == if i == 7 then 1 else 0 {
      assert [7][1..] == [];
      assert InSlot(ONE_BUCKET, [], i) == 0;
    }
  }

  /** One value recorded in a histogram with one bucket: the call never returns. */
  lemma SelfAddCanHang(n: nat)
    ensures Counts(ONE_BUCKET, SevenOnce(), [7]) && Going(After(ONE_BUCKET, Start(SevenOnce(), 1), n))
  {
    hide *;
    SevenCounts();
    assert |[7]| == 1;
    OneBucket();
    SelfAddEndsIff(ONE_BUCKET, SevenOnce(), [7]);
  }

  lemma OneBucket()
    ensures ONE_BUCKET.buckets > 0
  {
  }
}
