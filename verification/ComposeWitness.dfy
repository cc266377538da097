/** Runs that come to the store, and what depends on how an insertion fails. */
module ComposeWitness {
  import opened ComposePost
  import opened ComposeJoin
  import opened ComposeQueue
  import opened ComposeRun

  // ---- Runs go on ---------------------------------------------------------------------------

  lemma {:induction false} RunThen(s: Sys, actions: seq<Action>, s': Sys, a: Action)
    requires IsRun(s, actions, s') && Enabled(s', a)
    ensures IsRun(s, actions + [a], Apply(s', a))
    decreases |actions|
  {
    hide Enabled, Apply;
    if actions == [] {
      assert [a][1..] == [];
      assert actions + [a] == [a];
    } else {
      RunThen(Apply(s, actions[0]), actions[1..], s', a);
      assert (actions + [a])[1..] == actions[1..] + [a];
    }
  }

  lemma ReachableThen(s: Sys, a: Action)
    requires Reachable(s) && Enabled(s, a)
    ensures Reachable(Apply(s, a))
  {
    hide Enabled, Apply, Initial;
    var s0, actions :| Initial(s0) && IsRun(s0, actions, s);
    RunThen(s0, actions, s, a);
  }

  lemma InitialReachable(s: Sys)
    requires Initial(s)
    ensures Reachable(s)
  {
    assert IsRun(s, [], s);
  }

  // ---- What is still to do before the store -----------------------------------------------------

  /** The composer of this request, if there is one yet, has nothing but loaded. */
  predicate BeforeStore(s: Sys, id: int)
  {
    HasPart(s, id) && forall p: Part :: ProgressOf(s.reqs[id], p).Idle? || ProgressOf(s.reqs[id], p).Loading?
  }

  function Todo(st: Stage): nat
  {
    match st
    case Waiting => 9
    case Written => 8
    case Counted(_, Loading(got)) => |ALL_FIELDS - got.Keys|
    case Counted(_, _) => 0
  }

  /** How many steps the callers of a request have still to take, at most. */
  function Left(r: Request): nat
    requires Complete(r)
  {
    Todo(r.stages[TextPart]) + Todo(r.stages[CreatorPart]) + Todo(r.stages[MediaPart]) + Todo(r.stages[IdPart]) +
    Todo(r.stages[UrlsPart]) + Todo(r.stages[MentionsPart])
  }

  lemma LeftSinks(r: Request, r': Request, p: Part)
    requires Complete(r) && Complete(r') && Todo(r'.stages[p]) < Todo(r.stages[p])
    requires forall q: Part :: q != p ==> r'.stages[q] == r.stages[q]
    ensures Left(r') < Left(r)
  {
    hide Todo;
  }

  /** The step changes one part of one request, and brings it nearer to the store. */
  predicate Nearer(s: Sys, s': Sys, id: int)
  {
    BeforeStore(s, id) && BeforeStore(s', id) && s'.targets == s.targets && s'.regions == s.regions &&
    Left(s'.reqs[id]) < Left(s.reqs[id])
  }

  lemma PartStep(s: Sys, id: int, r': Request, p: Part)
    requires BeforeStore(s, id) && Complete(r') && Todo(r'.stages[p]) < Todo(s.reqs[id].stages[p])
    requires ProgressOf(r', p).Idle? || ProgressOf(r', p).Loading?
    requires forall q: Part :: q != p ==> r'.stages[q] == s.reqs[id].stages[q]
    ensures Nearer(s, SetReq(s, id, r'), id)
  {
    LeftSinks(s.reqs[id], r', p);
    hide Left, Todo;
    forall q: Part ensures ProgressOf(r', q).Idle? || ProgressOf(r', q).Loading? {
      assert ProgressOf(s.reqs[id], q).Idle? || ProgressOf(s.reqs[id], q).Loading?;
      assert q != p ==> ProgressOf(r', q) == ProgressOf(s.reqs[id], q);
    }
  }

  lemma WriteNearer(s: Sys, id: int, p: Part)
    requires BeforeStore(s, id) && s.reqs[id].stages[p].Waiting?
    ensures Enabled(s, Write(id, p)) && Nearer(s, Apply(s, Write(id, p)), id)
  {
    var r' := WriteFields(s.reqs[id], p);
    assert r'.stages == s.reqs[id].stages[p := Written];
    hide WriteFields, BeforeStore, Nearer, Left;
    PartStep(s, id, r', p);
  }

  lemma CountNearer(s: Sys, id: int, p: Part)
    requires BeforeStore(s, id) && s.reqs[id].stages[p].Written?
    ensures Enabled(s, Count(id, p)) && Nearer(s, Apply(s, Count(id, p)), id)
  {
    var r' := CountUp(s.reqs[id], p);
    TodoStarts(map[]);
    hide CountUp, BeforeStore, Nearer, Left;
    PartStep(s, id, r', p);
  }

  lemma TodoStarts(got: map<Field, Value>)
    requires got == map[]
    ensures |ALL_FIELDS - got.Keys| == 7
  {
    assert ALL_FIELDS - got.Keys == ALL_FIELDS;
  }

  lemma LoadNearer(s: Sys, id: int, p: Part, f: Field)
    requires BeforeStore(s, id) && HasPart(s, id) && ProgressOf(s.reqs[id], p).Loading?
    requires f !in ProgressOf(s.reqs[id], p).got && f in s.reqs[id].hash
    ensures Enabled(s, Load(id, p, f, true)) && Nearer(s, Apply(s, Load(id, p, f, true)), id)
  {
    hide *;
    LoadIs(s, id, p, f);
    var r := s.reqs[id];
    var got := ProgressOf(r, p).got;
    FieldsSink(got, f, r.hash[f]);
    var r' := WithProgress(r, p, Loading(got[f := r.hash[f]]));
    LoadedTodo(r, p, got, f, r.hash[f]);
    PartStep(s, id, r', p);
  }

  lemma LoadIs(s: Sys, id: int, p: Part, f: Field)
    requires HasPart(s, id) && ProgressOf(s.reqs[id], p).Loading? && f !in ProgressOf(s.reqs[id], p).got
    requires f in s.reqs[id].hash
    ensures id in s.reqs && Enabled(s, Load(id, p, f, true))
    ensures Complete(s.reqs[id]) && s.reqs[id].stages[p].Counted?
    ensures s.reqs[id].stages[p].progress == ProgressOf(s.reqs[id], p)
    ensures Apply(s, Load(id, p, f, true)) ==
      SetReq(s, id, WithProgress(s.reqs[id], p, Loading(ProgressOf(s.reqs[id], p).got[f := s.reqs[id].hash[f]])))
  {
  }

  lemma LoadedTodo(r: Request, p: Part, got: map<Field, Value>, f: Field, v: Value)
    requires Complete(r) && r.stages[p].Counted? && r.stages[p].progress == Loading(got)
    requires |ALL_FIELDS - got[f := v].Keys| < |ALL_FIELDS - got.Keys|
    ensures var r' := WithProgress(r, p, Loading(got[f := v]));
      Complete(r') && Todo(r'.stages[p]) < Todo(r.stages[p]) && ProgressOf(r', p) == Loading(got[f := v]) &&
      forall q: Part :: q != p ==> r'.stages[q] == r.stages[q]
  {
  }

  lemma FieldsSink(got: map<Field, Value>, f: Field, v: Value)
    requires f !in got
    ensures |ALL_FIELDS - got[f := v].Keys| < |ALL_FIELDS - got.Keys|
  {
    EveryField();
    var rest := ALL_FIELDS - got[f := v].Keys;
    assert ALL_FIELDS - got.Keys == rest + {f};
  }

  predicate AtStore(s: Sys, id: int, p: Part)
  {
    HasPart(s, id) && ProgressOf(s.reqs[id], p).Loading? && AllLoaded(ProgressOf(s.reqs[id], p).got)
  }

  /** Either the composer is at the store, or some caller has a step to take towards it. */
  lemma NextTowards(s: Sys, id: int) returns (p: Part, a: Action)
    requires Reachable(s) && BeforeStore(s, id)
    ensures AtStore(s, id, p) || (Enabled(s, a) && Nearer(s, Apply(s, a), id))
  {
    ReachableOk(s);
    var r := s.reqs[id];
    RequestKnown(s, id);
    p, a := TextPart, Write(id, TextPart);
    if q: Part :| r.stages[q].Waiting? {
      a := Write(id, q);
      hide *;
      WriteNearer(s, id, q);
    } else if q: Part :| r.stages[q].Written? {
      a := Count(id, q);
      hide *;
      CountNearer(s, id, q);
    } else {
      hide ReqOk, Inv, Reachable, Nearer, Left;
      p := OneComposer(id, r);
      assert r.stages[p].progress == ProgressOf(r, p);
      a := ComposerTowards(s, id, p);
    }
  }

  lemma ComposerTowards(s: Sys, id: int, p: Part) returns (a: Action)
    requires Inv(s) && BeforeStore(s, id) && ReqOk(id, s.reqs[id]) && IsComposer(s.reqs[id], p)
    ensures AtStore(s, id, p) || (Enabled(s, a) && Nearer(s, Apply(s, a), id))
  {
    var r := s.reqs[id];
    ComposerLoads(s, id, p);
    JoinIsComplete(id, r, p);
    var got := ProgressOf(r, p).got;
    a := Write(id, p);
    hide *;
    if f: Field :| f !in got {
      a := Load(id, p, f, true);
      Known(s, id, p);
      LoadNearer(s, id, p, f);
    } else {
      AllThere(id, r.up, got);
      StoreIsNext(s, id, p);
    }
  }

  lemma Known(s: Sys, id: int, p: Part)
    requires BeforeStore(s, id)
    ensures HasPart(s, id)
  {
  }

  lemma StoreIsNext(s: Sys, id: int, p: Part)
    requires BeforeStore(s, id) && ProgressOf(s.reqs[id], p).Loading? && AllLoaded(ProgressOf(s.reqs[id], p).got)
    ensures AtStore(s, id, p)
  {
  }

  lemma ComposerLoads(s: Sys, id: int, p: Part)
    requires BeforeStore(s, id) && ReqOk(id, s.reqs[id]) && IsComposer(s.reqs[id], p)
    ensures ProgressOf(s.reqs[id], p).Loading? && Truthful(id, s.reqs[id].up, ProgressOf(s.reqs[id], p))
  {
    assert ProgressOf(s.reqs[id], p).Idle? || ProgressOf(s.reqs[id], p).Loading?;
    hide FieldsOk, RepliesOk;
  }

  lemma RequestKnown(s: Sys, id: int)
    requires Inv(s) && HasPart(s, id)
    ensures ReqOk(id, s.reqs[id])
  {
    assert RequestOk(s, id, s.reqs[id]);
  }

  /** Whatever has happened, a request whose composer has not called the store yet can come to call it. */
  lemma {:induction false} StoreIsReached(s: Sys, id: int) returns (s': Sys, p: Part)
    requires Reachable(s) && BeforeStore(s, id)
    ensures Reachable(s') && AtStore(s', id, p) && s'.targets == s.targets && s'.regions == s.regions
    decreases Left(s.reqs[id])
  {
    var a: Action;
    p, a := NextTowards(s, id);
    s' := s;
    if !AtStore(s, id, p) {
      ReachableThen(s, a);
      var s1 := Apply(s, a);
      hide Reachable, AtStore, Apply, Enabled, Left;
      s', p := StoreIsReached(s1, id);
    }
  }

  // ---- An insertion that fails ----------------------------------------------------------------------

  predicate Swallows(a: Action)
  {
    a.Store? && a.outcome.Swallowed?
  }

  lemma StepLoses(s: Sys, a: Action)
    requires Enabled(s, a)
    ensures Apply(s, a).lost == {} <==> s.lost == {} && !Swallows(a)
  {
  }

  /** Posts are lost exactly in runs in which an insertion has failed with a result. */
  lemma {:induction false} LostIff(s: Sys, actions: seq<Action>, s': Sys)
    requires IsRun(s, actions, s')
    ensures s'.lost == {} <==> s.lost == {} && forall a :: a in actions ==> !Swallows(a)
    decreases |actions|
  {
    if actions != [] {
      StepLoses(s, actions[0]);
      hide Enabled, Apply, Swallows;
      LostIff(Apply(s, actions[0]), actions[1..], s');
      assert forall a :: a in actions <==> a == actions[0] || a in actions[1..];
    }
  }

  /** So if the driver never gives a result along with an error, every message is about a post in the store. */
  lemma AllStoredWithoutLoss(s0: Sys, actions: seq<Action>, s: Sys, n: string, k: nat)
    requires Initial(s0) && IsRun(s0, actions, s) && forall a :: a in actions ==> !Swallows(a)
    requires n in s.regions && k < |s.regions[n].sent|
    ensures exists p :: p in s.stored && s.regions[n].sent[k] == MessageOf(p)
  {
    LostIff(s0, actions, s);
    assert s0.lost == {} && s.lost == {};
    hide Initial, IsRun, MessageOf, Swallows;
    assert Reachable(s);
    PublishedIsStored(s, n, k);
  }

  /** One request, one region with no workers: the composer can come to a store that fails so. */
  lemma SwallowedHappens() returns (s: Sys, p: Part)
    ensures Reachable(s) && s.targets == ["eu"] && "eu" in s.regions && Enabled(s, Store(1, p, 0, Swallowed))
  {
    var g := Region([], 0, map[], 0, 0, 0, {}, map[]);
    var s0 := Sys(["eu"], map[], [], {}, map["eu" := g]);
    var u := Upload("hello", Creator(7, "eve"), [], 1, 0, [], []);
    assert Initial(s0);
    InitialReachable(s0);
    ReachableThen(s0, Begin(1, u));
    var s1 := Apply(s0, Begin(1, u));
    BeginsBefore(s0, 1, u);
    hide Reachable, Apply, BeforeStore;
    s, p := StoreIsReached(s1, 1);
  }

  lemma BeginsBefore(s: Sys, id: int, u: Upload)
    requires id !in s.reqs
    ensures Enabled(s, Begin(id, u)) && BeforeStore(Apply(s, Begin(id, u)), id)
    ensures Apply(s, Begin(id, u)).targets == s.targets && Apply(s, Begin(id, u)).regions == s.regions
  {
    EveryPart();
  }
}
