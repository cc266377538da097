/** The join of the six uploads of a post: what each server does to the shared hash, the store and the queues, step by
    step. */
module ComposePost {
  datatype Creator = Creator(userId: int, username: string)
  datatype Media = Media(mediaId: int, mediaType: string)
  datatype Url = Url(expanded: string, shortened: string)
  datatype Mention = Mention(userId: int, username: string)

  /** The calls that a request makes, each of which uploads a part, and the fields of the hash that these fill. */
  datatype Part = TextPart | CreatorPart | MediaPart | IdPart | UrlsPart | MentionsPart
  datatype Field = TextField | CreatorField | MediaField | IdField | TypeField | UrlsField | MentionsField

  const NUM_COMPONENTS: nat := 6

  const ALL_PARTS: set<Part> := {TextPart, CreatorPart, MediaPart, IdPart, UrlsPart, MentionsPart}
  const ALL_FIELDS: set<Field> := {TextField, CreatorField, MediaField, IdField, TypeField, UrlsField, MentionsField}

  function OwnerOf(f: Field): Part
  {
    match f
    case TextField => TextPart
    case CreatorField => CreatorPart
    case MediaField => MediaPart
    case IdField => IdPart
    case TypeField => IdPart
    case UrlsField => UrlsPart
    case MentionsField => MentionsPart
  }

  /** What is stored under a field. */
  datatype Value =
    | TextValue(text: string)
    | CreatorValue(creator: Creator)
    | MediaValue(media: seq<Media>)
    | IdValue(id: int)
    | TypeValue(postType: int)
    | UrlsValue(urls: seq<Url>)
    | MentionsValue(mentions: seq<Mention>)

  /** The arguments of the six calls of one request. */
  datatype Upload = Upload(text: string, creator: Creator, media: seq<Media>, postId: int, postType: int,
      urls: seq<Url>,
                           mentions: seq<Mention>)

  function Uploaded(u: Upload, f: Field): Value
  {
    match f
    case TextField => TextValue(u.text)
    case CreatorField => CreatorValue(u.creator)
    case MediaField => MediaValue(u.media)
    case IdField => IdValue(u.postId)
    case TypeField => TypeValue(u.postType)
    case UrlsField => UrlsValue(u.urls)
    case MentionsField => MentionsValue(u.mentions)
  }

  datatype Post = Post(postId: int, reqId: int, creator: Creator, text: string, mentions: seq<Mention>,
      media: seq<Media>,
                       urls: seq<Url>, timestamp: int, postType: int)

  datatype Message = Message(reqId: int, userId: int, postId: int, timestamp: int, mentionIds: seq<int>)

  /** The post made of these uploads. */
  function PostOf(id: int, u: Upload, ts: int): Post
  {
    Post(u.postId, id, u.creator, u.text, u.mentions, u.media, u.urls, ts, u.postType)
  }

  function UserIds(mentions: seq<Mention>): (r: seq<int>)
    ensures |r| == |mentions| && forall k :: 0 <= k < |r| ==> r[k] == mentions[k].userId
  {
    seq(|mentions|, k requires 0 <= k < |mentions| => mentions[k].userId)
  }

  function MessageOf(p: Post): Message
  {
    Message(p.reqId, p.creator.userId, p.postId, p.timestamp, UserIds(p.mentions))
  }

  // ---- One request --------------------------------------------------------------------------

  /** What the caller that found the count complete has done since. */
  datatype Progress =
    | Idle
    | Loading(got: map<Field, Value>)
    | Publishing(post: Post, left: seq<string>)
    | Finished(post: Post)
    | Gone

  /** One of the six calls: before it writes its fields, before it counts itself, and after that. */
  datatype Stage = Waiting | Written | Counted(reply: nat, progress: Progress)

  /** The hash of a request with its count, and its six callers. */
  datatype Request = Request(up: Upload, hash: map<Field, Value>, count: nat, stages: map<Part, Stage>)

  predicate Complete(r: Request)
  {
    forall p: Part :: p in r.stages
  }

  lemma EveryPart()
    ensures forall p: Part :: p in ALL_PARTS
  {
    forall p: Part ensures p in ALL_PARTS {
      match p {
        case TextPart => case CreatorPart => case MediaPart => case IdPart => case UrlsPart => case MentionsPart => }
    }
  }

  lemma EveryField()
    ensures forall f: Field :: f in ALL_FIELDS
  {
    forall f: Field ensures f in ALL_FIELDS {
      match f {
        case TextField => case CreatorField => case MediaField => case IdField => case TypeField => case UrlsField =>
        case MentionsField =>
      }
    }
  }

  function NewRequest(u: Upload): (r: Request)
    ensures Complete(r)
  {
    EveryPart();
    Request(u, map[], 0, map p | p in ALL_PARTS :: Waiting)
  }

  /** HSET: all fields of the part, in one command. */
  function WriteFields(r: Request, p: Part): (r': Request)
    requires Complete(r)
    ensures Complete(r')
  {
    r.(hash := map f | f in r.hash.Keys + (set g | g in ALL_FIELDS && OwnerOf(g) == p) ::
                 if OwnerOf(f) == p then Uploaded(r.up, f) else r.hash[f],
       stages := r.stages[p := Written])
  }

  /** HINCRBY, whose reply decides which caller goes on. */
  function CountUp(r: Request, p: Part): (r': Request)
    requires Complete(r)
    ensures Complete(r')
  {
    var n := r.count + 1;
    r.(count := n, stages := r.stages[p := Counted(n, if n == NUM_COMPONENTS then Loading(map[]) else Idle)])
  }

  function WithProgress(r: Request, p: Part, g: Progress): (r': Request)
    requires Complete(r) && r.stages[p].Counted?
    ensures Complete(r')
  {
    r.(stages := r.stages[p := r.stages[p].(progress := g)])
  }

  function ProgressOf(r: Request, p: Part): Progress
    requires Complete(r)
  {
    if r.stages[p].Counted? then r.stages[p].progress else Idle
  }

  /** The post that the loaded values make, if all seven are there and of the type that is wanted. */
  predicate AllLoaded(got: map<Field, Value>)
  {
    got.Keys == ALL_FIELDS && got[TextField].TextValue? && got[CreatorField].CreatorValue? &&
      got[MediaField].MediaValue? &&
    got[IdField].IdValue? && got[TypeField].TypeValue? && got[UrlsField].UrlsValue? && got[MentionsField].MentionsValue?
  }

  function Composed(id: int, got: map<Field, Value>, ts: int): Post
    requires AllLoaded(got)
  {
    Post(got[IdField].id, id, got[CreatorField].creator, got[TextField].text, got[MentionsField].mentions,
      got[MediaField].media,
         got[UrlsField].urls, ts, got[TypeField].postType)
  }

  // ---- One region -----------------------------------------------------------------------------

  /** A worker waits, has received a message, or has still to write it to these timelines. */
  datatype Work = Resting | Received(msg: Message) | Fanning(msg: Message, all: set<int>, left: set<int>)

  /**
   The queue of a region with the number of messages received from it, its workers, its counters, its copy of the posts
   and
   its timelines: for each user, posts with the time they are sorted by.
   */
  datatype Region = Region(sent: seq<Message>, received: nat, workers: map<nat, Work>, inconsistent: nat, failed: nat,
                           done: nat, replica: set<Post>, timelines: map<int, map<int, int>>)

  function Entries(timelines: map<int, map<int, int>>, user: int): map<int, int>
  {
    if user in timelines then timelines[user] else map[]
  }

  /** ZADD NX: an entry that is there already stays as it is. */
  function AddEntry(timelines: map<int, map<int, int>>, user: int, postId: int, ts: int): map<int, map<int, int>>
  {
    var e := Entries(timelines, user);
    if postId in e then timelines else timelines[user := e[postId := ts]]
  }

  predicate Found(replica: set<Post>, postId: int)
  {
    exists p :: p in replica && p.postId == postId
  }

  // ---- The whole system -----------------------------------------------------------------------

  /** The regions that a composer publishes to, requests, inserted posts, posts whose insertion failed unnoticed,
      regions. */
  datatype Sys = Sys(targets: seq<string>, reqs: map<int, Request>, stored: seq<Post>, lost: set<Post>,
                     regions: map<string, Region>)

  /**
   How a call of StorePost ends. An insertion that fails is logged, and then its result is read all the same: without
   one
   the call breaks off, which is one way to be refused; with one it succeeds, and the post is lost.
   */
  datatype StoreOutcome = Inserted | InsertedNoReply | Refused | Swallowed

  datatype Action =
    | Begin(id: int, up: Upload)
    | Write(id: int, part: Part)
    | Count(id: int, part: Part)
    | Load(id: int, part: Part, field: Field, arrives: bool)
    | Store(id: int, part: Part, ts: int, outcome: StoreOutcome)
    | Publish(id: int, part: Part, queued: bool)
    | Finish(id: int, part: Part)
    | Replicate(region: string, k: nat)
    | Receive(region: string, worker: nat)
    | LookUp(region: string, worker: nat, usable: bool, graph: bool, followers: set<int>)
    | Add(region: string, worker: nat, user: int, answers: bool)
    | EndWork(region: string, worker: nat)

  predicate HasPart(s: Sys, id: int)
  {
    id in s.reqs && Complete(s.reqs[id])
  }

  predicate Working(s: Sys, n: string, w: nat)
  {
    n in s.regions && w in s.regions[n].workers
  }

  /** When an action can happen. */
  predicate Enabled(s: Sys, a: Action)
  {
    match a
    case Begin(id, _) => id !in s.reqs
    case Write(id, p) => HasPart(s, id) && s.reqs[id].stages[p].Waiting?
    case Count(id, p) => HasPart(s, id) && s.reqs[id].stages[p].Written?
    case Load(id, p, f, _) =>
      HasPart(s, id) && ProgressOf(s.reqs[id], p).Loading? && f !in ProgressOf(s.reqs[id], p).got
    case Store(id, p, _, _) =>
      HasPart(s, id) && ProgressOf(s.reqs[id], p).Loading? && AllLoaded(ProgressOf(s.reqs[id], p).got)
    case Publish(id, p, _) =>
      HasPart(s, id) && ProgressOf(s.reqs[id], p).Publishing? && ProgressOf(s.reqs[id], p).left != []
    case Finish(id, p) =>
      HasPart(s, id) && ProgressOf(s.reqs[id], p).Publishing? && ProgressOf(s.reqs[id], p).left == []
    case Replicate(n, k) => n in s.regions && k < |s.stored|
    case Receive(n, w) =>
      Working(s, n, w) && s.regions[n].workers[w].Resting? && s.regions[n].received < |s.regions[n].sent|
    case LookUp(n, w, _, _, _) => Working(s, n, w) && s.regions[n].workers[w].Received?
    case Add(n, w, u, _) => Working(s, n, w) && s.regions[n].workers[w].Fanning? && u in s.regions[n].workers[w].left
    case EndWork(n, w) => Working(s, n, w) && s.regions[n].workers[w].Fanning? && s.regions[n].workers[w].left == {}
  }

  function SetReq(s: Sys, id: int, r: Request): Sys
  {
    s.(reqs := s.reqs[id := r])
  }

  function SetRegion(s: Sys, n: string, g: Region): Sys
  {
    s.(regions := s.regions[n := g])
  }

  /** HGET of one field; a call that fails, or a field that is not there, makes the composer give up. */
  function LoadField(r: Request, p: Part, f: Field, arrives: bool): Request
    requires Complete(r) && ProgressOf(r, p).Loading?
  {
    WithProgress(r, p, if arrives && f in r.hash then Loading(ProgressOf(r, p).got[f := r.hash[f]]) else Gone)
  }

  function StorePost(s: Sys, id: int, p: Part, ts: int, o: StoreOutcome): Sys
    requires HasPart(s, id) && ProgressOf(s.reqs[id], p).Loading? && AllLoaded(ProgressOf(s.reqs[id], p).got)
  {
    var r := s.reqs[id];
    var post := Composed(id, ProgressOf(r, p).got, ts);
    match o
    case Inserted => SetReq(s, id, WithProgress(r, p, Publishing(post, s.targets))).(stored := s.stored + [post])
    case InsertedNoReply => SetReq(s, id, WithProgress(r, p, Gone)).(stored := s.stored + [post])
    case Refused => SetReq(s, id, WithProgress(r, p, Gone))
    case Swallowed => SetReq(s, id, WithProgress(r, p, Publishing(post, s.targets))).(lost := s.lost + {post})
  }

  /** One turn of the loop over the regions; a failure is only logged. */
  function PublishOne(s: Sys, id: int, p: Part, queued: bool): Sys
    requires HasPart(s, id) && ProgressOf(s.reqs[id], p).Publishing? && ProgressOf(s.reqs[id], p).left != []
  {
    var r := s.reqs[id];
    var g := ProgressOf(r, p);
    var n := g.left[0];
    var s' := SetReq(s, id, WithProgress(r, p, Publishing(g.post, g.left[1..])));
    if queued && n in s.regions then
      SetRegion(s', n, s.regions[n].(sent := s.regions[n].sent + [MessageOf(g.post)]))
    else s'
  }

  /**
   What a worker does with one message, up to the timelines it is to go to: the message cannot be used or the store
   does not
   answer; the post is not there yet; the social graph does not answer; or there are followers.
   */
  function LookUpPost(g: Region, w: nat, usable: bool, graph: bool, followers: set<int>): Region
    requires w in g.workers && g.workers[w].Received?
  {
    var m := g.workers[w].msg;
    if !usable then g.(failed := g.failed + 1, workers := g.workers[w := Resting])
    else if !Found(g.replica, m.postId) then g.(inconsistent := g.inconsistent + 1, workers := g.workers[w := Resting])
    else if !graph then g.(failed := g.failed + 1, workers := g.workers[w := Resting])
    else
      var all := followers + (set u | u in m.mentionIds);
      g.(workers := g.workers[w := Fanning(m, all, all)])
  }

  /** The write to one timeline; an error ends the loop. */
  function AddOne(g: Region, w: nat, u: int, answers: bool): Region
    requires w in g.workers && g.workers[w].Fanning?
  {
    var m, all, left := g.workers[w].msg, g.workers[w].all, g.workers[w].left;
    if answers then
      g.(timelines := AddEntry(g.timelines, u, m.postId, m.timestamp),
        workers := g.workers[w := Fanning(m, all, left - {u})])
    else g.(failed := g.failed + 1, workers := g.workers[w := Resting])
  }

  function ReceiveOne(g: Region, w: nat): Region
    requires g.received < |g.sent|
  {
    g.(received := g.received + 1, workers := g.workers[w := Received(g.sent[g.received])])
  }

  function EndOne(g: Region, w: nat): Region
  {
    g.(done := g.done + 1, workers := g.workers[w := Resting])
  }

  function Apply(s: Sys, a: Action): Sys
    requires Enabled(s, a)
  {
    match a
    case Begin(id, u) => SetReq(s, id, NewRequest(u))
    case Write(id, p) => SetReq(s, id, WriteFields(s.reqs[id], p))
    case Count(id, p) => SetReq(s, id, CountUp(s.reqs[id], p))
    case Load(id, p, f, ok) => SetReq(s, id, LoadField(s.reqs[id], p, f, ok))
    case Store(id, p, ts, o) => StorePost(s, id, p, ts, o)
    case Publish(id, p, ok) => PublishOne(s, id, p, ok)
    case Finish(id, p) => SetReq(s, id, WithProgress(s.reqs[id], p, Finished(ProgressOf(s.reqs[id], p).post)))
    case Replicate(n, k) => SetRegion(s, n, s.regions[n].(replica := s.regions[n].replica + {s.stored[k]}))
    case Receive(n, w) => SetRegion(s, n, ReceiveOne(s.regions[n], w))
    case LookUp(n, w, usable, graph, followers) =>
      SetRegion(s, n, LookUpPost(s.regions[n], w, usable, graph, followers))
    case Add(n, w, u, ok) => SetRegion(s, n, AddOne(s.regions[n], w, u, ok))
    case EndWork(n, w) => SetRegion(s, n, EndOne(s.regions[n], w))
  }

  /** A state before any request, with these workers in each region. */
  predicate Initial(s: Sys)
  {
    s.reqs == map[] && s.stored == [] && s.lost == {} &&
    forall n :: n in s.regions ==> EmptyRegion(s.regions[n])
  }

  predicate EmptyRegion(g: Region)
  {
    g.sent == [] && g.received == g.inconsistent == g.failed == g.done == 0 && g.replica == {} &&
      g.timelines == map[] &&
    forall w :: w in g.workers ==> g.workers[w].Resting?
  }

  /** A run: the actions happen one after the other, each where it can. */
  ghost predicate IsRun(s: Sys, actions: seq<Action>, s': Sys)
    decreases |actions|
  {
    if actions == [] then s' == s
    else Enabled(s, actions[0]) && IsRun(Apply(s, actions[0]), actions[1..], s')
  }
}
