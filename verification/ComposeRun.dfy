/** What every step keeps of the whole system, and what therefore holds in every run. */
module ComposeRun {
  import opened ComposePost
  import opened ComposeJoin
  import opened ComposeQueue

  /** The post was inserted, or its insertion failed unnoticed. */
  predicate Kept(s: Sys, p: Post)
  {
    p in s.stored || p in s.lost
  }

  /** A kept post is made of what its request uploaded, and the composer of that request is past the store. */
  ghost predicate Genuine(s: Sys, p: Post)
  {
    p.reqId in s.reqs && p == PostOf(p.reqId, s.reqs[p.reqId].up, p.timestamp) && Past(s.reqs[p.reqId])
  }

  ghost predicate AllGenuine(s: Sys)
  {
    (forall p :: p in s.stored ==> Genuine(s, p)) && forall p :: p in s.lost ==> Genuine(s, p)
  }

  /** No request has two posts. */
  ghost predicate OnePost(s: Sys)
  {
    (forall i, j :: 0 <= i < j < |s.stored| ==> s.stored[i].reqId != s.stored[j].reqId) &&
    (forall p, q :: p in s.lost && q in s.lost && p.reqId == q.reqId ==> p == q) &&
    forall p, q :: p in s.stored && q in s.lost ==> p.reqId != q.reqId
  }

  predicate Distinct(names: seq<string>)
  {
    forall i, j :: 0 <= i < j < |names| ==> names[i] != names[j]
  }

  /** What a composer publishes has been kept, and the regions still to do are distinct if all are. */
  ghost predicate HoldsKept(s: Sys, g: Progress)
  {
    match g
    case Publishing(post, left) => Kept(s, post) && (Distinct(s.targets) ==> Distinct(left))
    case Finished(post) => Kept(s, post)
    case _ => true
  }

  ghost predicate RequestOk(s: Sys, id: int, r: Request)
  {
    ReqOk(id, r) && forall p: Part :: HoldsKept(s, ProgressOf(r, p))
  }

  ghost predicate RequestsOk(s: Sys)
  {
    forall id :: id in s.reqs ==> RequestOk(s, id, s.reqs[id])
  }

  /** The composer does not come to this region any more. */
  predicate DoneWith(g: Progress, n: string)
  {
    match g
    case Publishing(_, left) => n !in left
    case Finished(_) => true
    case Gone => true
    case _ => false
  }

  ghost predicate Passed(s: Sys, n: string, id: int)
  {
    id in s.reqs && PassedBy(s.reqs[id], n)
  }

  ghost predicate PassedBy(r: Request, n: string)
  {
    Complete(r) && exists p: Part :: IsComposer(r, p) && DoneWith(r.stages[p].progress, n)
  }

  /** A message is that of a kept post. */
  ghost predicate Backed(s: Sys, m: Message)
  {
    exists p :: Kept(s, p) && m == MessageOf(p)
  }

  ghost predicate SentBacked(s: Sys, sent: seq<Message>)
  {
    forall k :: 0 <= k < |sent| ==> Backed(s, sent[k])
  }

  /** Unless the configuration names a region twice, no request has two messages in its queue. */
  ghost predicate SentOnce(s: Sys, n: string, sent: seq<Message>)
  {
    Distinct(s.targets) ==>
      (forall k :: 0 <= k < |sent| ==> Passed(s, n, sent[k].reqId)) &&
      forall i, j :: 0 <= i < j < |sent| ==> sent[i].reqId != sent[j].reqId
  }

  ghost predicate FromStore(s: Sys, g: Region)
  {
    forall p :: p in g.replica ==> p in s.stored
  }

  ghost predicate RegionsOk(s: Sys)
  {
    forall n :: n in s.regions ==>
      RegionOk(s.regions[n]) && FromStore(s, s.regions[n]) && SentBacked(s, s.regions[n].sent) &&
        SentOnce(s, n, s.regions[n].sent)
  }

  ghost predicate Inv(s: Sys)
  {
    RequestsOk(s) && AllGenuine(s) && OnePost(s) && RegionsOk(s)
  }

  // ---- Steps of a request ------------------------------------------------------------------------

  /** The request goes on: nothing that it has done is undone. */
  ghost predicate Advances(r: Request, r': Request)
  {
    r'.up == r.up && (Past(r) ==> Past(r')) && forall n: string :: PassedBy(r, n) ==> PassedBy(r', n)
  }

  /** Requests only advance, and posts are only added. */
  ghost predicate Extends(s: Sys, s': Sys)
  {
    s'.targets == s.targets && (forall p :: p in s.stored ==> p in s'.stored) && s.lost <= s'.lost &&
    forall id :: id in s.reqs ==> id in s'.reqs && Advances(s.reqs[id], s'.reqs[id])
  }

  lemma KeptExtends(s: Sys, s': Sys, p: Post)
    requires Extends(s, s') && Kept(s, p)
    ensures Kept(s', p)
  {
  }

  lemma GenuineExtends(s: Sys, s': Sys, p: Post)
    requires Extends(s, s') && Genuine(s, p)
    ensures Genuine(s', p)
  {
  }

  lemma HoldsExtends(s: Sys, s': Sys, g: Progress)
    requires Extends(s, s') && HoldsKept(s, g)
    ensures HoldsKept(s', g)
  {
  }

  lemma RequestExtends(s: Sys, s': Sys, id: int, r: Request)
    requires Extends(s, s') && RequestOk(s, id, r)
    ensures RequestOk(s', id, r)
  {
    assert Complete(r);
    hide Extends, HoldsKept, ReqOk;
    forall p: Part ensures HoldsKept(s', ProgressOf(r, p)) {
      HoldsExtends(s, s', ProgressOf(r, p));
    }
  }

  lemma PassedExtends(s: Sys, s': Sys, n: string, id: int)
    requires Extends(s, s') && Passed(s, n, id)
    ensures Passed(s', n, id)
  {
  }

  lemma BackedExtends(s: Sys, s': Sys, m: Message)
    requires Extends(s, s') && Backed(s, m)
    ensures Backed(s', m)
  {
    var p :| Kept(s, p) && m == MessageOf(p);
    KeptExtends(s, s', p);
  }

  lemma QueueExtends(s: Sys, s': Sys, n: string, sent: seq<Message>)
    requires Extends(s, s') && SentBacked(s, sent) && SentOnce(s, n, sent)
    ensures SentBacked(s', sent) && SentOnce(s', n, sent)
  {
    assert s'.targets == s.targets;
    hide Extends, Backed, Passed;
    forall k | 0 <= k < |sent| ensures Backed(s', sent[k]) {
      BackedExtends(s, s', sent[k]);
    }
    if Distinct(s.targets) {
      forall k | 0 <= k < |sent| ensures Passed(s', n, sent[k].reqId) {
        PassedExtends(s, s', n, sent[k].reqId);
      }
    }
  }

  lemma RegionsExtend(s: Sys, s': Sys)
    requires Extends(s, s') && RegionsOk(s) && s'.regions == s.regions
    ensures RegionsOk(s')
  {
    forall n | n in s'.regions ensures
        RegionOk(s'.regions[n]) && FromStore(s', s'.regions[n]) && SentBacked(s', s'.regions[n].sent) &&
        SentOnce(s', n, s'.regions[n].sent) {
      assert FromStore(s, s.regions[n]);
      QueueExtends(s, s', n, s.regions[n].sent);
    }
  }

  /** One request changes as it may, posts are added. */
  lemma RequestStep(s: Sys, s': Sys, id: int)
    requires Inv(s) && Extends(s, s') && s'.regions == s.regions && id in s'.reqs
    requires s'.reqs == s.reqs[id := s'.reqs[id]]
    requires RequestOk(s', id, s'.reqs[id]) && AllGenuine(s') && OnePost(s')
    ensures Inv(s')
  {
    RegionsExtend(s, s');
    hide RegionsOk, AllGenuine, OnePost, RequestOk, Extends;
    forall i | i in s'.reqs ensures RequestOk(s', i, s'.reqs[i]) {
      if i != id { RequestExtends(s, s', i, s.reqs[i]); }
    }
  }

  lemma GenuineStays(s: Sys, s': Sys)
    requires AllGenuine(s) && Extends(s, s') && s'.stored == s.stored && s'.lost == s.lost
    ensures AllGenuine(s')
  {
    hide Extends, Genuine;
    forall p | p in s'.stored ensures Genuine(s', p) { GenuineExtends(s, s', p); }
    forall p | p in s'.lost ensures Genuine(s', p) { GenuineExtends(s, s', p); }
  }

  /** One request changes as it may, and nothing else. */
  lemma OnlyRequest(s: Sys, id: int, r: Request)
    requires Inv(s) && RequestOk(s, id, r) && (id in s.reqs ==> Advances(s.reqs[id], r))
    ensures Inv(SetReq(s, id, r))
  {
    var s' := SetReq(s, id, r);
    ExtendsByRequest(s, s', id);
    GenuineStays(s, s');
    assert OnePost(s');
    hide RegionsOk, AllGenuine, OnePost, Extends, Advances, RequestsOk;
    RequestExtends(s, s', id, r);
    RequestStep(s, s', id);
  }

  lemma ExtendsByRequest(s: Sys, s': Sys, id: int)
    requires id in s'.reqs && s'.reqs == s.reqs[id := s'.reqs[id]] && s'.targets == s.targets
    requires id in s.reqs ==> Advances(s.reqs[id], s'.reqs[id])
    requires (forall p :: p in s.stored ==> p in s'.stored) && s.lost <= s'.lost
    ensures Extends(s, s')
  {
    hide PassedBy, Past;
    forall i | i in s.reqs ensures i in s'.reqs && Advances(s.reqs[i], s'.reqs[i]) {
    }
  }

  lemma PassedIs(id: int, r: Request, p: Part, n: string)
    requires ReqOk(id, r) && IsComposer(r, p)
    ensures PassedBy(r, n) <==> DoneWith(r.stages[p].progress, n)
  {
    JoinIsComplete(id, r, p);
    hide ReqOk;
  }

  /** The composer goes on. */
  lemma ComposerAdvances(s: Sys, id: int, r: Request, p: Part, g: Progress)
    requires ReqOk(id, r) && IsComposer(r, p) && Truthful(id, r.up, g)
    requires r.stages[p].progress.Loading? || !g.Loading?
    requires forall n: string :: DoneWith(r.stages[p].progress, n) ==> DoneWith(g, n)
    ensures Advances(r, WithProgress(r, p, g))
  {
    var r' := WithProgress(r, p, g);
    ProgressOk(id, r, p, g);
    assert r'.stages[p].progress == g;
    JoinIsComplete(id, r, p);
    PastIs(r, p);
    hide ReqOk, Past, IsComposer, WithProgress, DoneWith, PassedBy, Truthful;
    forall n: string | PassedBy(r, n) ensures PassedBy(r', n) {
      PassedIs(id, r, p, n);
      PassedIs(id, r', p, n);
    }
  }

  lemma ProgressHolds(s: Sys, id: int, r: Request, p: Part, g: Progress)
    requires RequestOk(s, id, r) && IsComposer(r, p) && Truthful(id, r.up, g) && HoldsKept(s, g)
    ensures RequestOk(s, id, WithProgress(r, p, g))
  {
    ProgressOk(id, r, p, g);
    hide ReqOk, HoldsKept, Truthful;
    var r' := WithProgress(r, p, g);
    forall q: Part ensures HoldsKept(s, ProgressOf(r', q)) {
      assert q != p ==> ProgressOf(r', q) == ProgressOf(r, q);
    }
  }

  lemma BeginKeeps(s: Sys, id: int, u: Upload)
    requires Inv(s) && id !in s.reqs
    ensures Inv(SetReq(s, id, NewRequest(u)))
  {
    NewOk(id, u);
    var r := NewRequest(u);
    forall p: Part ensures ProgressOf(r, p) == Idle {
      EveryPart();
    }
    hide Inv, ReqOk, NewRequest;
    OnlyRequest(s, id, r);
  }

  /** A caller that is not the composer, before or after the step, is not seen by the store and the queues. */
  lemma QuietStep(s: Sys, id: int, r': Request, p: Part)
    requires Inv(s) && HasPart(s, id) && ReqOk(id, r') && Complete(r') && r'.up == s.reqs[id].up
    requires (Past(s.reqs[id]) ==> Past(r')) && (ProgressOf(r', p).Idle? || ProgressOf(r', p).Loading?)
    requires !s.reqs[id].stages[p].Counted?
    requires forall q: Part :: q != p ==> r'.stages[q] == s.reqs[id].stages[q]
    ensures Inv(SetReq(s, id, r'))
  {
    var r := s.reqs[id];
    assert RequestOk(s, id, r);
    hide Inv, ReqOk, Past, RequestsOk, AllGenuine, OnePost, RegionsOk;
    forall q: Part ensures HoldsKept(s, ProgressOf(r', q)) {
      if q != p { assert ProgressOf(r', q) == ProgressOf(r, q); }
    }
    forall n: string | PassedBy(r, n) ensures PassedBy(r', n) {
      var q: Part :| IsComposer(r, q) && DoneWith(r.stages[q].progress, n);
      assert q != p;
      assert IsComposer(r', q);
    }
    OnlyRequest(s, id, r');
  }

  lemma WriteKeeps(s: Sys, id: int, p: Part)
    requires Inv(s) && Enabled(s, Write(id, p))
    ensures Inv(Apply(s, Write(id, p)))
  {
    var r := s.reqs[id];
    assert RequestOk(s, id, r);
    WriteOk(id, r, p);
    var r' := WriteFields(r, p);
    assert r'.stages == r.stages[p := Written];
    hide Inv, ReqOk, Past, WriteFields;
    QuietStep(s, id, r', p);
  }

  lemma CountKeeps(s: Sys, id: int, p: Part)
    requires Inv(s) && Enabled(s, Count(id, p))
    ensures Inv(Apply(s, Count(id, p)))
  {
    var r := s.reqs[id];
    assert RequestOk(s, id, r);
    CountOk(id, r, p);
    var r' := CountUp(r, p);
    assert ProgressOf(r', p).Idle? || ProgressOf(r', p).Loading?;
    assert forall q: Part :: q != p ==> r'.stages[q] == r.stages[q];
    hide Inv, ReqOk, Past, CountUp;
    QuietStep(s, id, r', p);
  }

  /** Who loads, stores or publishes is the composer, and what it holds is true. */
  lemma ActiveIsComposer(s: Sys, id: int, p: Part)
    requires Inv(s) && HasPart(s, id) && !ProgressOf(s.reqs[id], p).Idle?
    ensures RequestOk(s, id, s.reqs[id]) && ReqOk(id, s.reqs[id]) && IsComposer(s.reqs[id], p)
    ensures Truthful(id, s.reqs[id].up, ProgressOf(s.reqs[id], p)) && HoldsKept(s, ProgressOf(s.reqs[id], p))
  {
    assert RequestOk(s, id, s.reqs[id]);
  }

  lemma ComposerStep(s: Sys, id: int, p: Part, g: Progress)
    requires Inv(s) && HasPart(s, id) && !ProgressOf(s.reqs[id], p).Idle?
    requires Truthful(id, s.reqs[id].up, g) && HoldsKept(s, g) && (ProgressOf(s.reqs[id], p).Loading? || !g.Loading?)
    requires forall n: string :: DoneWith(ProgressOf(s.reqs[id], p), n) ==> DoneWith(g, n)
    ensures IsComposer(s.reqs[id], p) && Inv(SetReq(s, id, WithProgress(s.reqs[id], p, g)))
  {
    var r := s.reqs[id];
    ActiveIsComposer(s, id, p);
    assert r.stages[p].progress == ProgressOf(r, p);
    hide Inv, RequestOk, ReqOk, IsComposer, Truthful, HoldsKept, DoneWith, Advances;
    ComposerAdvances(s, id, r, p, g);
    ProgressHolds(s, id, r, p, g);
    OnlyRequest(s, id, WithProgress(r, p, g));
  }

  /** A load that arrives always finds the field, and finds what was uploaded. */
  lemma LoadKeeps(s: Sys, id: int, p: Part, f: Field, arrives: bool)
    requires Inv(s) && Enabled(s, Load(id, p, f, arrives))
    ensures Inv(Apply(s, Load(id, p, f, arrives)))
    ensures arrives ==> f in s.reqs[id].hash && s.reqs[id].hash[f] == Uploaded(s.reqs[id].up, f)
  {
    ActiveIsComposer(s, id, p);
    JoinIsComplete(id, s.reqs[id], p);
    var r := s.reqs[id];
    var g := if arrives then Loading(ProgressOf(r, p).got[f := r.hash[f]]) else Gone;
    assert Truthful(id, r.up, g);
    assert LoadField(r, p, f, arrives) == WithProgress(r, p, g);
    assert forall n: string :: !DoneWith(ProgressOf(r, p), n);
    hide Inv, RequestOk, ReqOk, LoadField, Truthful;
    ComposerStep(s, id, p, g);
  }

  lemma FinishKeeps(s: Sys, id: int, p: Part)
    requires Inv(s) && Enabled(s, Finish(id, p))
    ensures Inv(Apply(s, Finish(id, p)))
  {
    ActiveIsComposer(s, id, p);
    var r := s.reqs[id];
    var g := Finished(ProgressOf(r, p).post);
    assert Truthful(id, r.up, g) && HoldsKept(s, g) && forall n: string :: DoneWith(g, n);
    hide Inv, RequestOk, ReqOk, Truthful, HoldsKept, DoneWith;
    ComposerStep(s, id, p, g);
  }

  // ---- The store ------------------------------------------------------------------------------

  /** The composed post is made of the uploads of the request. */
  lemma ComposedIs(id: int, u: Upload, got: map<Field, Value>, ts: int)
    requires AllLoaded(got) && Truthful(id, u, Loading(got))
    ensures Composed(id, got, ts) == PostOf(id, u, ts)
  {
  }

  /** Until the composer calls the store, there is no post of the request. */
  lemma NoPostYet(s: Sys, id: int, p: Part)
    requires Inv(s) && HasPart(s, id) && ProgressOf(s.reqs[id], p).Loading?
    ensures !Past(s.reqs[id])
    ensures forall q :: q in s.stored || q in s.lost ==> q.reqId != id
  {
    ActiveIsComposer(s, id, p);
    JoinIsComplete(id, s.reqs[id], p);
    PastIs(s.reqs[id], p);
    hide Past, RequestOk, ReqOk;
    forall q | q in s.stored || q in s.lost ensures q.reqId != id {
      assert Genuine(s, q);
    }
  }

  /** Either the post is inserted, or its loss goes unnoticed. */
  predicate KeepsPost(s: Sys, s': Sys, post: Post)
  {
    (s'.stored == s.stored + [post] && s'.lost == s.lost) || (s'.stored == s.stored && s'.lost == s.lost + {post})
  }

  lemma GenuineGrows(s: Sys, s': Sys, post: Post)
    requires AllGenuine(s) && Extends(s, s') && Genuine(s', post) && KeepsPost(s, s', post)
    ensures AllGenuine(s')
  {
    hide Extends, Genuine;
    forall p | p in s'.stored ensures Genuine(s', p) { if p in s.stored { GenuineExtends(s, s', p); } }
    forall p | p in s'.lost ensures Genuine(s', p) { if p in s.lost { GenuineExtends(s, s', p); } }
  }

  lemma OnePostGrows(s: Sys, s': Sys, post: Post)
    requires OnePost(s) && KeepsPost(s, s', post) && forall q :: q in s.stored || q in s.lost ==> q.reqId != post.reqId
    ensures OnePost(s')
  {
  }

  /** The store is called, and keeps the post in one way or the other. */
  lemma KeepStep(s: Sys, s': Sys, id: int, p: Part, post: Post, g: Progress)
    requires Inv(s) && HasPart(s, id) && ProgressOf(s.reqs[id], p).Loading? &&
      post == PostOf(id, s.reqs[id].up, post.timestamp)
    requires g == Gone || g == Publishing(post, s.targets)
    requires s'.reqs == s.reqs[id := WithProgress(s.reqs[id], p, g)] && s'.regions == s.regions &&
      s'.targets == s.targets
    requires KeepsPost(s, s', post)
    ensures Inv(s')
  {
    var r := s.reqs[id];
    NoPostYet(s, id, p);
    ActiveIsComposer(s, id, p);
    assert Truthful(id, r.up, g) && HoldsKept(s', g) && forall n: string :: !DoneWith(ProgressOf(r, p), n);
    assert r.stages[p].progress == ProgressOf(r, p);
    assert AllGenuine(s) && OnePost(s);
    hide Inv, RequestOk, ReqOk, Truthful, DoneWith, AllGenuine, OnePost, Advances, Past, HoldsKept;
    ComposerAdvances(s, id, r, p, g);
    ExtendsByRequest(s, s', id);
    PastAfter(id, r, p, g);
    assert Genuine(s', post);
    GenuineGrows(s, s', post);
    OnePostGrows(s, s', post);
    hide KeepsPost, Genuine, WithProgress;
    RequestExtends(s, s', id, r);
    ProgressHolds(s', id, r, p, g);
    RequestStep(s, s', id);
  }

  lemma PastAfter(id: int, r: Request, p: Part, g: Progress)
    requires ReqOk(id, r) && IsComposer(r, p) && Truthful(id, r.up, g) && !g.Loading?
    ensures Past(WithProgress(r, p, g)) && WithProgress(r, p, g).up == r.up
  {
    ProgressOk(id, r, p, g);
  }

  lemma StoreKeeps(s: Sys, id: int, p: Part, ts: int, o: StoreOutcome)
    requires Inv(s) && HasPart(s, id) && ProgressOf(s.reqs[id], p).Loading? && AllLoaded(ProgressOf(s.reqs[id], p).got)
    ensures Inv(StorePost(s, id, p, ts, o))
  {
    var r, s' := s.reqs[id], StorePost(s, id, p, ts, o);
    if o == Refused {
      assert s' == SetReq(s, id, WithProgress(r, p, Gone)) && Truthful(id, r.up, Gone) && HoldsKept(s, Gone);
      assert forall n: string :: !DoneWith(ProgressOf(r, p), n);
      hide Inv, StorePost, Truthful;
      ComposerStep(s, id, p, Gone);
    } else {
      var post := Composed(id, ProgressOf(r, p).got, ts);
      var g := if o == InsertedNoReply then Gone else Publishing(post, s.targets);
      assert KeepsPost(s, s', post);
      assert s'.reqs == s.reqs[id := WithProgress(r, p, g)] && s'.regions == s.regions && s'.targets == s.targets;
      hide Inv, StorePost, WithProgress;
      LoadedPost(s, id, p, ts);
      KeepStep(s, s', id, p, post, g);
    }
  }

  lemma LoadedPost(s: Sys, id: int, p: Part, ts: int)
    requires Inv(s) && HasPart(s, id) && ProgressOf(s.reqs[id], p).Loading? && AllLoaded(ProgressOf(s.reqs[id], p).got)
    ensures Composed(id, ProgressOf(s.reqs[id], p).got, ts) == PostOf(id, s.reqs[id].up, ts)
  {
    ActiveIsComposer(s, id, p);
    hide Inv, RequestOk, ReqOk, AllLoaded;
    ComposedIs(id, s.reqs[id].up, ProgressOf(s.reqs[id], p).got, ts);
  }

  // ---- The queues -------------------------------------------------------------------------------

  /** A request that has not passed a region has no message in its queue. */
  lemma NotSentYet(s: Sys, n: string, id: int, k: nat)
    requires Inv(s) && n in s.regions && k < |s.regions[n].sent| && Distinct(s.targets) && !Passed(s, n, id)
    ensures s.regions[n].sent[k].reqId != id
  {
    assert SentOnce(s, n, s.regions[n].sent);
    assert Passed(s, n, s.regions[n].sent[k].reqId);
  }

  lemma DistinctTail(names: seq<string>)
    requires |names| > 0 && Distinct(names)
    ensures Distinct(names[1..]) && names[0] !in names[1..]
  {
  }

  /** The region is taken off the list of the composer. */
  lemma PublishRequest(s: Sys, id: int, p: Part)
    requires Inv(s) && Enabled(s, Publish(id, p, true))
    ensures var r, g := s.reqs[id], ProgressOf(s.reqs[id], p);
      var s' := SetReq(s, id, WithProgress(r, p, Publishing(g.post, g.left[1..])));
      Inv(s') && Kept(s', g.post) && (Distinct(s.targets) ==> Passed(s', g.left[0], id) && !Passed(s, g.left[0], id))
      && g.post.reqId == id
  {
    ActiveIsComposer(s, id, p);
    var r, g := s.reqs[id], ProgressOf(s.reqs[id], p);
    var g' := Publishing(g.post, g.left[1..]);
    if Distinct(g.left) { DistinctTail(g.left); }
    assert forall n: string :: DoneWith(g, n) ==> DoneWith(g', n);
    assert Distinct(s.targets) ==> DoneWith(g', g.left[0]) && !DoneWith(g, g.left[0]);
    assert HoldsKept(s, g') && Truthful(id, r.up, g') && r.stages[p].progress == g;
    hide Inv, RequestOk, Truthful, HoldsKept, DoneWith, Distinct, ReqOk, PassedBy;
    ComposerStep(s, id, p, g');
    var r' := WithProgress(r, p, g');
    ProgressOk(id, r, p, g');
    PassedIs(id, r, p, g.left[0]);
    PassedIs(id, r', p, g.left[0]);
  }

  lemma BackedGrows(s: Sys, sent: seq<Message>, m: Message)
    requires SentBacked(s, sent) && Backed(s, m)
    ensures SentBacked(s, sent + [m])
  {
    hide Backed;
  }

  lemma OnceGrows(s: Sys, n: string, sent: seq<Message>, m: Message)
    requires SentOnce(s, n, sent)
    requires Distinct(s.targets) ==> Passed(s, n, m.reqId) && forall k :: 0 <= k < |sent| ==> sent[k].reqId != m.reqId
    ensures SentOnce(s, n, sent + [m])
  {
    hide Passed, Distinct;
  }

  /** A message is put into the queue of a region. */
  lemma QueueStep(s: Sys, n: string, m: Message)
    requires Inv(s) && n in s.regions && Backed(s, m)
    requires Distinct(s.targets) ==>
      Passed(s, n, m.reqId) && forall k :: 0 <= k < |s.regions[n].sent| ==> s.regions[n].sent[k].reqId != m.reqId
    ensures Inv(SetRegion(s, n, s.regions[n].(sent := s.regions[n].sent + [m])))
  {
    var g := s.regions[n];
    assert RegionOk(g) && FromStore(s, g) && SentBacked(s, g.sent) && SentOnce(s, n, g.sent);
    QueueGrows(g, m);
    BackedGrows(s, g.sent, m);
    OnceGrows(s, n, g.sent, m);
    RegionStep(s, n, g.(sent := g.sent + [m]));
  }

  /** One region changes as it may. */
  lemma RegionStep(s: Sys, n: string, g: Region)
    requires Inv(s) && n in s.regions && RegionOk(g) && FromStore(s, g) && SentBacked(s, g.sent) &&
      SentOnce(s, n, g.sent)
    ensures Inv(SetRegion(s, n, g))
  {
    var s' := SetRegion(s, n, g);
    SameButRegions(s, s');
    hide RegionOk, SentBacked, SentOnce, FromStore, RequestsOk, AllGenuine, OnePost;
    forall i | i in s'.regions ensures RegionOk(s'.regions[i]) && FromStore(s', s'.regions[i]) &&
        SentBacked(s', s'.regions[i].sent) && SentOnce(s', i, s'.regions[i].sent) {
      var x := s'.regions[i];
      assert i != n ==> x == s.regions[i];
      SameRegion(s, s', i, x);
    }
  }

  lemma SameRegion(s: Sys, s': Sys, n: string, g: Region)
    requires s'.reqs == s.reqs && s'.stored == s.stored && s'.lost == s.lost && s'.targets == s.targets
    requires FromStore(s, g) && SentBacked(s, g.sent) && SentOnce(s, n, g.sent)
    ensures FromStore(s', g) && SentBacked(s', g.sent) && SentOnce(s', n, g.sent)
  {
    hide Passed, Distinct;
    forall k | 0 <= k < |g.sent| ensures Backed(s', g.sent[k]) {
      assert Backed(s, g.sent[k]);
      var p :| Kept(s, p) && g.sent[k] == MessageOf(p);
      assert Kept(s', p);
    }
    forall id ensures Passed(s', n, id) <==> Passed(s, n, id) {
      PassedSame(s, s', n, id);
    }
  }

  lemma PassedSame(s: Sys, s': Sys, n: string, id: int)
    requires s'.reqs == s.reqs
    ensures Passed(s', n, id) <==> Passed(s, n, id)
  {
  }

  lemma SameRequest(s: Sys, s': Sys, id: int, r: Request)
    requires RequestOk(s, id, r) && s'.stored == s.stored && s'.lost == s.lost && s'.targets == s.targets
    ensures RequestOk(s', id, r)
  {
    assert Complete(r);
    hide ReqOk;
    forall p: Part ensures HoldsKept(s', ProgressOf(r, p)) {
      assert HoldsKept(s, ProgressOf(r, p));
    }
  }

  lemma SameButRegions(s: Sys, s': Sys)
    requires RequestsOk(s) && AllGenuine(s) && OnePost(s)
    requires s'.reqs == s.reqs && s'.stored == s.stored && s'.lost == s.lost && s'.targets == s.targets
    ensures RequestsOk(s') && AllGenuine(s') && OnePost(s')
  {
    hide Past, RequestOk;
    forall id | id in s'.reqs ensures RequestOk(s', id, s'.reqs[id]) {
      SameRequest(s, s', id, s.reqs[id]);
    }
    forall p | Genuine(s, p) ensures Genuine(s', p) {
    }
  }

  lemma PublishKeeps(s: Sys, id: int, p: Part, queued: bool)
    requires Inv(s) && Enabled(s, Publish(id, p, queued))
    ensures Inv(Apply(s, Publish(id, p, queued)))
  {
    var r, g := s.reqs[id], ProgressOf(s.reqs[id], p);
    var n, s1 := g.left[0], SetReq(s, id, WithProgress(r, p, Publishing(g.post, g.left[1..])));
    PublishRequest(s, id, p);
    assert PublishOne(s, id, p, queued) ==
      if queued && n in s.regions then SetRegion(s1, n, s.regions[n].(sent := s.regions[n].sent + [MessageOf(g.post)]))
        else s1;
    if queued && n in s.regions {
      var m := MessageOf(g.post);
      assert Backed(s1, m);
      hide Inv, Passed, Kept, Distinct, WithProgress, PublishOne;
      if Distinct(s.targets) {
        forall k | 0 <= k < |s.regions[n].sent| ensures s.regions[n].sent[k].reqId != id {
          NotSentYet(s, n, id, k);
        }
      }
      QueueStep(s1, n, m);
    }
  }

  // ---- Steps of a region --------------------------------------------------------------------------

  /** The queue of a region is not touched by its workers. */
  lemma WorkerStep(s: Sys, n: string, g: Region)
    requires Inv(s) && n in s.regions && RegionOk(g) && g.sent == s.regions[n].sent && g.replica == s.regions[n].replica
    ensures Inv(SetRegion(s, n, g))
  {
    var x := s.regions[n];
    assert FromStore(s, x) && SentBacked(s, x.sent) && SentOnce(s, n, x.sent);
    assert FromStore(s, g);
    RegionStep(s, n, g);
  }

  lemma RegionKnown(s: Sys, n: string)
    requires Inv(s) && n in s.regions
    ensures RegionOk(s.regions[n])
  {
  }

  lemma ReceiveKeeps(s: Sys, n: string, w: nat)
    requires Inv(s) && Working(s, n, w) && s.regions[n].workers[w].Resting? &&
      s.regions[n].received < |s.regions[n].sent|
    ensures Inv(SetRegion(s, n, ReceiveOne(s.regions[n], w)))
  {
    var g := s.regions[n];
    RegionKnown(s, n);
    ReceiveOk(g, w);
    var g' := ReceiveOne(g, w);
    assert g'.sent == g.sent && g'.replica == g.replica;
    hide *;
    WorkerStep(s, n, g');
  }

  lemma LookUpKeeps(s: Sys, n: string, w: nat, usable: bool, graph: bool, followers: set<int>)
    requires Inv(s) && Working(s, n, w) && s.regions[n].workers[w].Received?
    ensures Inv(SetRegion(s, n, LookUpPost(s.regions[n], w, usable, graph, followers)))
  {
    var g := s.regions[n];
    RegionKnown(s, n);
    LookUpOk(g, w, usable, graph, followers);
    var g' := LookUpPost(g, w, usable, graph, followers);
    assert g'.sent == g.sent && g'.replica == g.replica;
    hide *;
    WorkerStep(s, n, g');
  }

  lemma AddKeeps(s: Sys, n: string, w: nat, u: int, answers: bool)
    requires Inv(s) && Working(s, n, w) && s.regions[n].workers[w].Fanning? && u in s.regions[n].workers[w].left
    ensures Inv(SetRegion(s, n, AddOne(s.regions[n], w, u, answers)))
  {
    var g := s.regions[n];
    RegionKnown(s, n);
    AddOk(g, w, u, answers);
    var g' := AddOne(g, w, u, answers);
    assert g'.sent == g.sent && g'.replica == g.replica;
    hide *;
    WorkerStep(s, n, g');
  }

  lemma EndWorkKeeps(s: Sys, n: string, w: nat)
    requires Inv(s) && Working(s, n, w) && s.regions[n].workers[w].Fanning?
    ensures Inv(SetRegion(s, n, EndOne(s.regions[n], w)))
  {
    var g := s.regions[n];
    RegionKnown(s, n);
    EndOk(g, w);
    var g' := EndOne(g, w);
    assert g'.sent == g.sent && g'.replica == g.replica;
    hide *;
    WorkerStep(s, n, g');
  }

  lemma ReplicateKeeps(s: Sys, n: string, k: nat)
    requires Inv(s) && Enabled(s, Replicate(n, k))
    ensures Inv(Apply(s, Replicate(n, k)))
  {
    var g := s.regions[n];
    assert RegionOk(g) && FromStore(s, g) && SentBacked(s, g.sent) && SentOnce(s, n, g.sent);
    ReplicaGrows(g, s.stored[k]);
    RegionStep(s, n, g.(replica := g.replica + {s.stored[k]}));
  }

  // ---- Runs ---------------------------------------------------------------------------------------

  lemma StepKeeps(s: Sys, a: Action)
    requires Inv(s) && Enabled(s, a)
    ensures Inv(Apply(s, a))
  {
    hide Inv;
    match a {
      case Begin(id, u) => BeginKeeps(s, id, u);
      case Write(id, p) => WriteKeeps(s, id, p);
      case Count(id, p) => CountKeeps(s, id, p);
      case Load(id, p, f, ok) => LoadKeeps(s, id, p, f, ok);
      case Store(id, p, ts, o) => StoreKeeps(s, id, p, ts, o);
      case Publish(id, p, ok) => PublishKeeps(s, id, p, ok);
      case Finish(id, p) => FinishKeeps(s, id, p);
      case Replicate(n, k) => ReplicateKeeps(s, n, k);
      case Receive(n, w) => ReceiveKeeps(s, n, w);
      case LookUp(n, w, usable, graph, followers) => LookUpKeeps(s, n, w, usable, graph, followers);
      case Add(n, w, u, ok) => AddKeeps(s, n, w, u, ok);
      case EndWork(n, w) => EndWorkKeeps(s, n, w);
    }
  }

  lemma InitialOk(s: Sys)
    requires Initial(s)
    ensures Inv(s)
  {
    forall n | n in s.regions ensures RegionOk(s.regions[n]) {
      var g := s.regions[n];
      assert BusyWorkers(g) == {};
    }
  }

  /** However the steps of all requests, servers and workers fall, the invariant holds after each of them. */
  lemma {:induction false} RunKeeps(s: Sys, actions: seq<Action>, s': Sys)
    requires Inv(s) && IsRun(s, actions, s')
    ensures Inv(s')
    decreases |actions|
  {
    if actions != [] {
      StepKeeps(s, actions[0]);
      hide Inv, Enabled, Apply;
      RunKeeps(Apply(s, actions[0]), actions[1..], s');
    }
  }

  /** A state that some run from an initial state comes to. */
  ghost predicate Reachable(s: Sys)
  {
    exists s0, actions :: Initial(s0) && IsRun(s0, actions, s)
  }

  lemma ReachableOk(s: Sys)
    requires Reachable(s)
    ensures Inv(s)
  {
    var s0, actions :| Initial(s0) && IsRun(s0, actions, s);
    InitialOk(s0);
    hide Inv;
    RunKeeps(s0, actions, s);
  }

  // ---- What holds in every run -----------------------------------------------------------------------

  /**
   At most one caller ever finds the count of its request complete, and then all seven fields hold what was uploaded;
   and
   when all six callers have counted themselves, one of them has found it so.
   */
  lemma JoinInRuns(s: Sys, id: int)
    requires Reachable(s) && HasPart(s, id)
    ensures var r := s.reqs[id];
      (forall p: Part, q: Part :: IsComposer(r, p) && IsComposer(r, q) ==> p == q) &&
      (forall p: Part, f: Field :: IsComposer(r, p) ==> f in r.hash && r.hash[f] == Uploaded(r.up, f)) &&
      ((forall p: Part :: r.stages[p].Counted?) ==> exists p: Part :: IsComposer(r, p))
  {
    ReachableOk(s);
    var r := s.reqs[id];
    assert RequestOk(s, id, r);
    hide Inv, Reachable, ReqOk;
    forall p: Part | IsComposer(r, p)
      ensures forall q: Part :: IsComposer(r, q) ==> q == p
      ensures forall f: Field :: f in r.hash && r.hash[f] == Uploaded(r.up, f)
    {
      JoinIsComplete(id, r, p);
    }
    if forall p: Part :: r.stages[p].Counted? {
      var p := OneComposer(id, r);
    }
  }

  /** A request stores at most one post, and it is made of what the request uploaded. */
  lemma StoredOnce(s: Sys, i: nat, j: nat)
    requires Reachable(s) && i < |s.stored| && j < |s.stored|
    ensures s.stored[i].reqId == s.stored[j].reqId ==> i == j
    ensures var p := s.stored[i]; p.reqId in s.reqs && p == PostOf(p.reqId, s.reqs[p.reqId].up, p.timestamp)
  {
    ReachableOk(s);
    assert Genuine(s, s.stored[i]);
  }

  /** The post that a message is about stands in the store, unless just this insertion failed without being noticed. */
  lemma PublishedIsStored(s: Sys, n: string, k: nat)
    requires Reachable(s) && n in s.regions && k < |s.regions[n].sent|
    ensures var m := s.regions[n].sent[k];
      (exists p :: p in s.stored && m == MessageOf(p)) <==> (forall p :: p in s.lost ==> p.reqId != m.reqId)
  {
    ReachableOk(s);
    var m := s.regions[n].sent[k];
    assert SentBacked(s, s.regions[n].sent) && OnePost(s);
    assert Backed(s, m);
    hide Inv, Reachable;
    var p :| Kept(s, p) && m == MessageOf(p);
    assert p.reqId == m.reqId;
  }

  /** If regions are named once, no request has two messages in the queue of a region. */
  lemma PublishedOnce(s: Sys, n: string, i: nat, j: nat)
    requires Reachable(s) && Distinct(s.targets) && n in s.regions && i < j < |s.regions[n].sent|
    ensures s.regions[n].sent[i].reqId != s.regions[n].sent[j].reqId
  {
    ReachableOk(s);
    assert SentOnce(s, n, s.regions[n].sent);
  }

  /** In each region, inconsistencies are messages received, and these were published. */
  lemma CountersInRuns(s: Sys, n: string)
    requires Reachable(s) && n in s.regions
    ensures s.regions[n].inconsistent <= s.regions[n].received <= |s.regions[n].sent|
    ensures Balanced(s.regions[n])
  {
    ReachableOk(s);
    RegionKnown(s, n);
  }

  /** What stands in a timeline is in the store, and was published to that region. */
  lemma TimelinesInRuns(s: Sys, n: string, u: int, i: int)
    requires Reachable(s) && n in s.regions && i in Entries(s.regions[n].timelines, u)
    ensures exists p :: p in s.stored && p.postId == i
    ensures exists m :: m in s.regions[n].sent && m.postId == i && m.timestamp == Entries(s.regions[n].timelines, u)[i]
  {
    ReachableOk(s);
    RegionKnown(s, n);
    var g := s.regions[n];
    assert FromStore(s, g);
    hide Inv, Reachable;
    EntryIs(g, u, i);
    var p :| p in g.replica && p.postId == i;
    var k :| 0 <= k < g.received && g.sent[k].postId == i && g.sent[k].timestamp == Entries(g.timelines, u)[i];
    assert g.sent[k] in g.sent;
  }

  /**
   A worker has written to all timelines but those it has still before it: to all followers it was told of and all
   mentioned users when none is left, as when it ends. A write that fails makes it give up before, without an error.
   */
  lemma AllReached(s: Sys, n: string, w: nat, u: int)
    requires Reachable(s) && Working(s, n, w) && s.regions[n].workers[w].Fanning?
    ensures
      var k, e := s.regions[n].workers[w], Entries(s.regions[n].timelines, u);
      (u in k.msg.mentionIds ==> u in k.all) && (u in k.all && u !in k.left ==> k.msg.postId in e)
  {
    hide *;
    ReachableOk(s);
    WorkingIs(s, n, w);
    RegionKnown(s, n);
    WorkIs(s.regions[n], w, u);
  }

  lemma WorkingIs(s: Sys, n: string, w: nat)
    requires Working(s, n, w)
    ensures n in s.regions && w in s.regions[n].workers
  {
  }

  lemma WorkIs(g: Region, w: nat, u: int)
    requires RegionOk(g) && w in g.workers && g.workers[w].Fanning?
    ensures u in g.workers[w].msg.mentionIds ==> u in g.workers[w].all
    ensures u in g.workers[w].all && u !in g.workers[w].left ==> g.workers[w].msg.postId in Entries(g.timelines, u)
  {
    assert WorkOk(g, g.workers[w]);
  }

  /** The composer of the request has finished or given up. */
  ghost predicate Over(r: Request)
  {
    Complete(r) && exists p: Part :: IsComposer(r, p) && (r.stages[p].progress.Finished? || r.stages[p].progress.Gone?)
  }

  /** An action of a caller of this request. */
  predicate ActsFor(a: Action, id: int)
  {
    (a.Write? || a.Count? || a.Load? || a.Store? || a.Publish? || a.Finish?) && a.id == id
  }

  /** A request is never stuck: until its composer has finished or given up, some caller of it can go on. */
  lemma NeverStuck(s: Sys, id: int) returns (a: Action)
    requires Reachable(s) && HasPart(s, id) && !Over(s.reqs[id])
    ensures Enabled(s, a) && ActsFor(a, id)
  {
    ReachableOk(s);
    var r := s.reqs[id];
    assert ReqOk(id, r) by { assert RequestOk(s, id, r); }
    hide Reachable, ReqOk;
    if q: Part :| !r.stages[q].Counted? {
      hide Inv, Over, IsComposer;
      a := if r.stages[q].Waiting? then Write(id, q) else Count(id, q);
    } else {
      var p := OneComposer(id, r);
      ActiveIsComposer(s, id, p);
      hide Inv, HoldsKept, RequestOk;
      a := NextOfComposer(s, id, p);
    }
  }

  lemma NextOfComposer(s: Sys, id: int, p: Part) returns (a: Action)
    requires HasPart(s, id) && IsComposer(s.reqs[id], p) && !Over(s.reqs[id])
    requires Truthful(id, s.reqs[id].up, ProgressOf(s.reqs[id], p))
    ensures Enabled(s, a) && ActsFor(a, id)
  {
    var r := s.reqs[id];
    assert !r.stages[p].progress.Finished? && !r.stages[p].progress.Gone?;
    var g := ProgressOf(r, p);
    hide Over, IsComposer;
    match g {
      case Loading(got) =>
        if f: Field :| f !in got {
          a := Load(id, p, f, true);
        } else {
          AllThere(id, r.up, got);
          a := Store(id, p, 0, Inserted);
        }
      case Publishing(_, left) => a := if left == [] then Finish(id, p) else Publish(id, p, true);
    }
  }

  /** What was uploaded has the types that the composer wants. */
  lemma AllThere(id: int, u: Upload, got: map<Field, Value>)
    requires Truthful(id, u, Loading(got)) && forall f: Field :: f in got
    ensures AllLoaded(got)
  {
    EveryField();
    assert got.Keys == ALL_FIELDS;
  }

  /** When an insertion fails unnoticed, a message about a post that is nowhere is published all the same. */
  lemma SwallowedIsPublished(s: Sys, id: int, p: Part, ts: int)
    requires Reachable(s) && Enabled(s, Store(id, p, ts, Swallowed)) && s.targets != [] && s.targets[0] in s.regions
    ensures Enabled(Apply(s, Store(id, p, ts, Swallowed)), Publish(id, p, true))
    ensures
      var s' := Apply(Apply(s, Store(id, p, ts, Swallowed)), Publish(id, p, true));
      s.targets[0] in s'.regions &&
      (exists m :: m in s'.regions[s.targets[0]].sent && m.reqId == id) && forall q :: q in s'.stored ==> q.reqId != id
  {
    hide *;
    var post := SwallowIs(s, id, p, ts);
    ReachableOk(s);
    NoPostYet(s, id, p);
    var s1 := Apply(s, Store(id, p, ts, Swallowed));
    PublishIs(s1, id, p, s.targets[0], post);
    MessageIsOf(post);
  }

  lemma MessageIsOf(post: Post)
    ensures MessageOf(post).reqId == post.reqId
  {
  }

  lemma SwallowIs(s: Sys, id: int, p: Part, ts: int) returns (post: Post)
    requires Enabled(s, Store(id, p, ts, Swallowed)) && s.targets != []
    ensures HasPart(s, id) && ProgressOf(s.reqs[id], p).Loading? && post.reqId == id
    ensures var s' := Apply(s, Store(id, p, ts, Swallowed));
      s'.regions == s.regions && s'.stored == s.stored && Enabled(s', Publish(id, p, true)) && HasPart(s', id) &&
      ProgressOf(s'.reqs[id], p) == Publishing(post, s.targets)
  {
    post := Composed(id, ProgressOf(s.reqs[id], p).got, ts);
    var r' := WithProgress(s.reqs[id], p, Publishing(post, s.targets));
    var s' := Apply(s, Store(id, p, ts, Swallowed));
    assert s' == StorePost(s, id, p, ts, Swallowed);
    assert s'.reqs == s.reqs[id := r'] && s'.regions == s.regions && s'.stored == s.stored && post.reqId == id;
    hide Apply, StorePost, Composed, AllLoaded;
    assert ProgressOf(r', p) == Publishing(post, s.targets);
  }

  lemma PublishIs(s: Sys, id: int, p: Part, n: string, post: Post)
    requires Enabled(s, Publish(id, p, true)) && n in s.regions && HasPart(s, id) &&
      ProgressOf(s.reqs[id], p).Publishing?
    requires ProgressOf(s.reqs[id], p).post == post && ProgressOf(s.reqs[id], p).left != []
    requires ProgressOf(s.reqs[id], p).left[0] == n
    ensures var s' := Apply(s, Publish(id, p, true));
      n in s'.regions && MessageOf(post) in s'.regions[n].sent && s'.stored == s.stored
  {
    assert Apply(s, Publish(id, p, true)) == PublishOne(s, id, p, true);
    hide Apply, MessageOf;
    var sent := s.regions[n].sent + [MessageOf(post)];
    assert sent[|sent| - 1] == MessageOf(post);
  }
}
