/** What every step keeps of one request: the counter, the hash and the one caller that goes on. */
module ComposeJoin {
  import opened ComposePost

  function CountedParts(r: Request): set<Part>
    requires Complete(r)
  {
    set p | p in ALL_PARTS && r.stages[p].Counted?
  }

  /** A field is there exactly if its caller has written it, and it is what that caller was called with. */
  ghost predicate FieldsOk(r: Request)
    requires Complete(r)
  {
    forall f: Field ::
      (f in r.hash <==> !r.stages[OwnerOf(f)].Waiting?) && (f in r.hash ==> r.hash[f] == Uploaded(r.up, f))
  }

  ghost predicate Replied(r: Request, n: nat)
    requires Complete(r)
  {
    exists p: Part :: r.stages[p].Counted? && r.stages[p].reply == n
  }

  ghost predicate RepliesBounded(r: Request)
    requires Complete(r)
  {
    forall p: Part :: r.stages[p].Counted? ==> 1 <= r.stages[p].reply <= r.count
  }

  ghost predicate RepliesDiffer(r: Request)
    requires Complete(r)
  {
    forall p: Part, q: Part ::
      r.stages[p].Counted? && r.stages[q].Counted? && r.stages[p].reply == r.stages[q].reply ==> p == q
  }

  ghost predicate RepliesComplete(r: Request)
    requires Complete(r)
  {
    forall n :: 1 <= n <= r.count ==> Replied(r, n)
  }

  /** The callers that have counted themselves have got the replies from one up to the count, each another one. */
  ghost predicate RepliesOk(r: Request)
    requires Complete(r)
  {
    r.count == |CountedParts(r)| && RepliesBounded(r) && RepliesDiffer(r) && RepliesComplete(r)
  }

  /** What the composer holds is what was uploaded. */
  ghost predicate Truthful(id: int, u: Upload, g: Progress)
  {
    match g
    case Idle => false
    case Loading(got) => forall f :: f in got ==> got[f] == Uploaded(u, f)
    case Publishing(post, _) => post == PostOf(id, u, post.timestamp)
    case Finished(post) => post == PostOf(id, u, post.timestamp)
    case Gone => true
  }

  /** Only the caller with the last reply goes on. */
  ghost predicate StagesOk(id: int, r: Request)
    requires Complete(r)
  {
    forall p: Part :: r.stages[p].Counted? ==>
      if r.stages[p].reply == NUM_COMPONENTS then Truthful(id, r.up, r.stages[p].progress)
        else r.stages[p].progress.Idle?
  }

  ghost predicate ReqOk(id: int, r: Request)
  {
    Complete(r) && FieldsOk(r) && RepliesOk(r) && StagesOk(id, r)
  }

  predicate IsComposer(r: Request, p: Part)
    requires Complete(r)
  {
    r.stages[p].Counted? && r.stages[p].reply == NUM_COMPONENTS
  }

  /** The composer has called the store. */
  ghost predicate Past(r: Request)
  {
    Complete(r) &&
    exists p: Part :: IsComposer(r, p) && !r.stages[p].progress.Loading?
  }

  // ---- The join -----------------------------------------------------------------------------

  lemma SubsetSize<T>(a: set<T>, b: set<T>)
    requires a <= b
    ensures |a| <= |b| && (|a| == |b| ==> a == b)
  {
    assert b == a + (b - a);
  }

  lemma AllCounted(r: Request)
    requires Complete(r)
    ensures |CountedParts(r)| <= NUM_COMPONENTS
    ensures |CountedParts(r)| == NUM_COMPONENTS <==> forall q: Part :: r.stages[q].Counted?
  {
    EveryPart();
    SubsetSize(CountedParts(r), ALL_PARTS);
    assert forall q: Part :: q in CountedParts(r) <==> r.stages[q].Counted?;
    assert (forall q: Part :: r.stages[q].Counted?) <==> CountedParts(r) == ALL_PARTS;
  }

  /**
   When a caller finds the count complete, every caller has written, all seven fields hold what was uploaded, and no
   other
   caller has found or will find it complete.
   */
  lemma JoinIsComplete(id: int, r: Request, p: Part)
    requires ReqOk(id, r) && IsComposer(r, p)
    ensures r.count == NUM_COMPONENTS && forall q: Part :: r.stages[q].Counted?
    ensures forall f: Field :: f in r.hash && r.hash[f] == Uploaded(r.up, f)
    ensures forall q: Part :: IsComposer(r, q) ==> q == p
  {
    AllCounted(r);
    hide CountedParts, RepliesComplete, StagesOk;
  }

  /** Once all six have counted themselves, exactly one of them is the composer. */
  lemma OneComposer(id: int, r: Request) returns (p: Part)
    requires ReqOk(id, r) && forall q: Part :: r.stages[q].Counted?
    ensures IsComposer(r, p) && forall q: Part :: IsComposer(r, q) ==> q == p
  {
    AllCounted(r);
    hide CountedParts, StagesOk, FieldsOk, RepliesBounded, RepliesDiffer;
    assert Replied(r, NUM_COMPONENTS);
    p :| r.stages[p].Counted? && r.stages[p].reply == NUM_COMPONENTS;
    JoinIsComplete(id, r, p);
  }

  // ---- Each command keeps it --------------------------------------------------------------------

  lemma NewOk(id: int, u: Upload)
    ensures ReqOk(id, NewRequest(u)) && !Past(NewRequest(u))
  {
    var r := NewRequest(u);
    EveryPart();
    assert CountedParts(r) == {};
  }

  lemma SameCounted(r: Request, r': Request)
    requires Complete(r) && Complete(r') && forall q: Part :: r'.stages[q].Counted? <==> r.stages[q].Counted?
    ensures CountedParts(r') == CountedParts(r)
  {
  }

  /** Replies stay right when the callers that have counted themselves are the same, with the same replies. */
  lemma RepliesSame(r: Request, r': Request)
    requires Complete(r) && Complete(r') && RepliesOk(r) && r'.count == r.count
    requires forall q: Part :: r'.stages[q].Counted? <==> r.stages[q].Counted?
    requires forall q: Part :: r.stages[q].Counted? ==> r'.stages[q].reply == r.stages[q].reply
    ensures RepliesOk(r')
  {
    SameCounted(r, r');
    hide CountedParts;
    forall n | 1 <= n <= r'.count ensures Replied(r', n) {
      assert Replied(r, n);
      var p: Part :| r.stages[p].Counted? && r.stages[p].reply == n;
      assert r'.stages[p].Counted? && r'.stages[p].reply == n;
    }
  }

  lemma WriteFieldsOk(r: Request, p: Part)
    requires Complete(r) && FieldsOk(r) && r.stages[p].Waiting?
    ensures FieldsOk(WriteFields(r, p))
  {
    EveryField();
  }

  lemma WriteOk(id: int, r: Request, p: Part)
    requires ReqOk(id, r) && r.stages[p].Waiting?
    ensures ReqOk(id, WriteFields(r, p)) && (Past(WriteFields(r, p)) <==> Past(r)) && WriteFields(r, p).up == r.up
  {
    var r' := WriteFields(r, p);
    WriteFieldsOk(r, p);
    assert r'.stages == r.stages[p := Written] && r'.up == r.up && r'.count == r.count;
    hide WriteFields, RepliesOk, FieldsOk;
    RepliesSame(r, r');
    assert forall q: Part :: r.stages[q].Counted? || r'.stages[q].Counted? ==> r'.stages[q] == r.stages[q];
    PastSame(r, r');
  }

  lemma PastSame(r: Request, r': Request)
    requires Complete(r) && Complete(r') && forall q: Part :: r.stages[q].Counted? || r'.stages[q].Counted? ==>
      r'.stages[q] == r.stages[q]
    ensures Past(r') <==> Past(r)
  {
  }

  /** The caller gets the reply n. */
  ghost predicate Counts(r: Request, p: Part, n: nat, r': Request)
    requires Complete(r)
  {
    n == r.count + 1 && r'.count == n && r'.up == r.up && r'.hash == r.hash && !r.stages[p].Counted? &&
    exists g :: r'.stages == r.stages[p := Counted(n, g)]
  }

  lemma CountKnown(r: Request, p: Part, n: nat, r': Request)
    requires Complete(r) && Complete(r') && Counts(r, p, n, r') && r.count == |CountedParts(r)|
    ensures r'.count == |CountedParts(r')| <= NUM_COMPONENTS
  {
    EveryPart();
    assert CountedParts(r') == CountedParts(r) + {p} && p !in CountedParts(r);
    hide Counts;
    AllCounted(r');
  }

  lemma CountComplete(r: Request, p: Part, n: nat, r': Request)
    requires Complete(r) && Complete(r') && Counts(r, p, n, r') && RepliesComplete(r)
    ensures RepliesComplete(r')
  {
    assert r'.stages[p].Counted? && r'.stages[p].reply == n;
    forall m | 1 <= m < n ensures Replied(r', m) {
      assert Replied(r, m);
      var q: Part :| r.stages[q].Counted? && r.stages[q].reply == m;
      assert r'.stages[q] == r.stages[q];
    }
    assert Replied(r', n);
  }

  lemma CountBounded(r: Request, p: Part, n: nat, r': Request)
    requires Complete(r) && Complete(r') && Counts(r, p, n, r') && RepliesBounded(r) && RepliesDiffer(r)
    ensures RepliesBounded(r') && RepliesDiffer(r')
  {
  }

  lemma CountFields(r: Request, p: Part)
    requires Complete(r) && FieldsOk(r) && r.stages[p].Written?
    ensures FieldsOk(CountUp(r, p))
  {
  }

  lemma NoComposer(id: int, r: Request, p: Part, q: Part)
    requires ReqOk(id, r) && !r.stages[p].Counted?
    ensures !IsComposer(r, q)
  {
    if IsComposer(r, q) { JoinIsComplete(id, r, q); }
  }

  lemma OtherStage(r: Request, r': Request, p: Part, st: Stage, q: Part)
    requires Complete(r) && Complete(r') && r'.stages == r.stages[p := st] && q != p
    ensures r'.stages[q] == r.stages[q] && (IsComposer(r', q) <==> IsComposer(r, q))
  {
  }

  lemma CountStages(id: int, r: Request, p: Part)
    requires ReqOk(id, r) && r.stages[p].Written?
    ensures StagesOk(id, CountUp(r, p)) && !Past(CountUp(r, p)) && !Past(r)
  {
    var r', n := CountUp(r, p), r.count + 1;
    var g := if n == NUM_COMPONENTS then Loading(map[]) else Idle;
    assert r'.stages == r.stages[p := Counted(n, g)] && r'.up == r.up && StagesOk(id, r);
    assert g == Loading(map[]) ==> Truthful(id, r.up, g);
    hide *;
    forall q: Part ensures !IsComposer(r, q) {
      NoComposer(id, r, p, q);
    }
    forall q: Part ensures IsComposer(r', q) ==> q == p {
      if q != p { OtherStage(r, r', p, Counted(n, g), q); }
    }
    PastIs(r', p);
    PastIs(r, p);
    SameStages(id, r, p, n, g, r');
  }

  lemma PastIs(r: Request, p: Part)
    requires Complete(r) && forall q: Part :: IsComposer(r, q) ==> q == p
    ensures Past(r) <==> IsComposer(r, p) && !r.stages[p].progress.Loading?
  {
  }

  lemma CountOk(id: int, r: Request, p: Part)
    requires ReqOk(id, r) && r.stages[p].Written?
    ensures ReqOk(id, CountUp(r, p)) && !Past(CountUp(r, p)) && !Past(r) && CountUp(r, p).up == r.up
  {
    var r', n := CountUp(r, p), r.count + 1;
    assert Counts(r, p, n, r');
    CountKnown(r, p, n, r');
    CountComplete(r, p, n, r');
    CountBounded(r, p, n, r');
    CountStages(id, r, p);
    CountFields(r, p);
    hide CountedParts, RepliesBounded, RepliesDiffer, RepliesComplete, FieldsOk, StagesOk, CountUp, Past, Counts;
  }

  /** The composer goes on to something that is true of what was uploaded. */
  lemma ProgressOk(id: int, r: Request, p: Part, g: Progress)
    requires ReqOk(id, r) && IsComposer(r, p) && Truthful(id, r.up, g)
    ensures ReqOk(id, WithProgress(r, p, g)) && WithProgress(r, p, g).up == r.up && IsComposer(WithProgress(r, p, g), p)
    ensures Past(WithProgress(r, p, g)) <==> !g.Loading?
  {
    var r' := WithProgress(r, p, g);
    ProgressStages(id, r, p, g);
    assert forall q: Part :: r'.stages[q].Counted? <==> r.stages[q].Counted?;
    assert forall q: Part :: r.stages[q].Counted? ==> r'.stages[q].reply == r.stages[q].reply;
    RepliesSame(r, r');
    hide RepliesOk, FieldsOk, StagesOk, Truthful, Past;
  }

  lemma ProgressFields(r: Request, p: Part, g: Progress)
    requires Complete(r) && FieldsOk(r) && r.stages[p].Counted?
    ensures FieldsOk(WithProgress(r, p, g))
  {
  }

  lemma ProgressStages(id: int, r: Request, p: Part, g: Progress)
    requires ReqOk(id, r) && IsComposer(r, p) && Truthful(id, r.up, g)
    ensures FieldsOk(WithProgress(r, p, g)) && StagesOk(id, WithProgress(r, p, g))
    ensures Past(WithProgress(r, p, g)) <==> !g.Loading?
  {
    var r' := WithProgress(r, p, g);
    JoinIsComplete(id, r, p);
    ProgressFields(r, p, g);
    assert r'.stages == r.stages[p := Counted(NUM_COMPONENTS, g)] && r'.up == r.up && StagesOk(id, r) &&
      IsComposer(r', p);
    hide *;
    forall q: Part ensures IsComposer(r', q) ==> q == p {
      if q != p { OtherStage(r, r', p, Counted(NUM_COMPONENTS, g), q); }
    }
    PastIs(r', p);
    SameStages(id, r, p, NUM_COMPONENTS, g, r');
  }

  lemma SameStages(id: int, r: Request, p: Part, n: nat, g: Progress, r': Request)
    requires Complete(r) && Complete(r') && StagesOk(id, r) && r'.stages == r.stages[p := Counted(n, g)] &&
      r'.up == r.up
    requires if n == NUM_COMPONENTS then Truthful(id, r.up, g) else g == Idle
    ensures StagesOk(id, r')
  {
    hide Truthful;
    forall q: Part | q != p ensures r'.stages[q] == r.stages[q] {
    }
  }
}
