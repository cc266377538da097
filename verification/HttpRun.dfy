/** The parser as a run over bytes, one at a time: the specification that http_parser_execute refines. */
module HttpRun {
  import opened Options
  import opened HttpTypes
  import opened HttpStep

  /** The token being read: the bytes since its mark. */
  datatype Pend = Closed | Open(kind: Kind, bytes: seq<byte>)

  datatype Stop = Going | Failed | Left

  datatype Run = Run(c: Core, pend: Pend, trace: seq<Event>, stop: Stop, used: nat)

  function Marked(p: Pend, mark: Option<Kind>): Pend
  {
    if mark.Some? && p.Closed? then Open(mark.value, []) else p
  }

  function With(p: Pend, more: seq<byte>): Pend
  {
    if p.Open? then Open(p.kind, p.bytes + more) else p
  }

  predicate Flushes(p: Pend, flush: Option<Kind>)
  {
    flush.Some? && p.Open? && p.kind == flush.value
  }

  function Notes(note: Option<Note>): seq<Event>
  {
    if note.Some? then [Notify(note.value)] else []
  }

  /** What one pass through the switch does to the run. */
  function Apply(r: Run, o: Out, ch: byte): Run
  {
    var p := if o.whole then With(Marked(r.pend, o.mark), [ch]) else Marked(r.pend, o.mark);
    var said := if Flushes(p, o.flush) then [Data(p.kind, p.bytes)] else [];
    var q := if Flushes(p, o.flush) then Closed else p;
    Run(o.c, if o.next.Consume? || o.next.Leave? then With(q, [ch]) else q, r.trace + said + Notes(o.note),
        match o.next case Fail => Failed case Leave => Left case _ => Going,
        if o.next.Consume? || o.next.Leave? then r.used + 1 else r.used)
  }

  function Exec(r: Run, s: seq<byte>, skip: bool): Run
    decreases |s|, Rank(r.c.state)
  {
    if r.stop != Going || s == [] then r
    else
      var o := Step(r.c, s[0], skip);
      if o.next == Again then
        AgainDescends(r.c, s[0], skip);
        Exec(Apply(r, o, s[0]), s, skip)
      else Exec(Apply(r, o, s[0]), s[1..], skip)
  }

  /** The token a buffer begins in the middle of. */
  function Inside(s: State): Option<Kind>
  {
    if s.HeaderField? then Some(HeaderFieldData)
    else if s.HeaderValue? then Some(HeaderValueData)
    else if EarlyUrl(s) || LateUrl(s) then Some(UrlData)
    else if s.ResStatus? then Some(StatusData)
    else None
  }

  function Start(c: Core): Run
  {
    Run(c, Marked(Closed, Inside(c.state)), [], Going, 0)
  }

  /** At the end of a buffer the piece of an open token read so far is reported; after an error it is not. */
  function Leftover(r: Run): seq<Event>
  {
    if r.stop == Going && r.pend.Open? then [Data(r.pend.kind, r.pend.bytes)] else []
  }

  datatype Result = Result(c: Core, trace: seq<Event>, used: nat)

  /** An empty buffer says that the stream has ended. */
  function AtEof(c: Core): Result
  {
    match c.state
    case BodyIdentityEof => Result(c, [Notify(MessageComplete)], 0)
    case Dead => Result(c, [], 0)
    case StartReqOrRes => Result(c, [], 0)
    case StartRes => Result(c, [], 0)
    case StartReq => Result(c, [], 0)
    case _ => Result(c.(errno := InvalidEofState), [], 1)
  }

  /** One call of http_parser_execute. */
  function Execute(c: Core, data: seq<byte>, skip: bool): Result
  {
    if c.errno != OK then Result(c, [], 0)
    else if data == [] then AtEof(c)
    else
      var r := Exec(Start(c), data, skip);
      Result(r.c, r.trace + Leftover(r), r.used)
  }

  // ---- Traces up to how they are cut -----------------------------------------

  function Join(e: Event, t: seq<Event>): seq<Event>
  {
    if e.Data? && t != [] && t[0].Data? && t[0].kind == e.kind then [Data(e.kind, e.bytes + t[0].bytes)] + t[1..]
    else [e] + t
  }

  /** Neighbouring reports of the same kind are merged. */
  function Norm(t: seq<Event>): seq<Event>
  {
    if t == [] then [] else Join(t[0], Norm(t[1..]))
  }

  lemma {:induction false} NormAppend(p: seq<Event>, s: seq<Event>, t: seq<Event>)
    requires Norm(s) == Norm(t)
    ensures Norm(p + s) == Norm(p + t)
  {
    if p == [] {
      assert p + s == s && p + t == t;
    } else {
      NormAppend(p[1..], s, t);
      assert (p + s)[1..] == p[1..] + s && (p + t)[1..] == p[1..] + t;
    }
  }

  lemma NormMerge(k: Kind, x: seq<byte>, y: seq<byte>, t: seq<Event>)
    ensures Norm([Data(k, x)] + ([Data(k, y)] + t)) == Norm([Data(k, x + y)] + t)
  {
    var n := Norm(t);
    var s := [Data(k, y)] + t;
    assert s[1..] == t;
    assert ([Data(k, x)] + s)[1..] == s;
    assert ([Data(k, x + y)] + t)[1..] == t;
    if n != [] && n[0].Data? && n[0].kind == k {
      assert x + (y + n[0].bytes) == (x + y) + n[0].bytes;
    }
  }

  /** How many bytes a trace reports. */
  function Size(t: seq<Event>): nat
  {
    if t == [] then 0 else (if t[0].Data? then |t[0].bytes| else 0) + Size(t[1..])
  }

  lemma {:induction false} NormSize(t: seq<Event>)
    ensures Size(Norm(t)) == Size(t)
  {
    if t != [] {
      NormSize(t[1..]);
      var n := Norm(t[1..]);
      var j := Join(t[0], n);
      if j == [t[0]] + n {
        assert j[1..] == n;
      } else {
        assert j[1..] == n[1..];
      }
    }
  }

  lemma {:induction false} SizeAppend(s: seq<Event>, t: seq<Event>)
    ensures Size(s + t) == Size(s) + Size(t)
  {
    if s == [] {
      assert s + t == t;
    } else {
      SizeAppend(s[1..], t);
      assert (s + t)[1..] == s[1..] + t;
    }
  }

  // ---- The run over two buffers ------------------------------------------------

  lemma ExecOnce(r: Run, s: seq<byte>, skip: bool)
    requires r.stop == Going && s != []
    ensures var o := Step(r.c, s[0], skip);
      Exec(r, s, skip) == if o.next == Again then Exec(Apply(r, o, s[0]), s, skip)
        else Exec(Apply(r, o, s[0]), s[1..], skip)
    ensures var o := Step(r.c, s[0], skip); o.next == Fail || o.next == Leave ==> Exec(r, s, skip) == Apply(r, o, s[0])
  {
    hide Step;
  }

  lemma ExecStopped(r: Run, s: seq<byte>, skip: bool)
    ensures r.stop != Going || s == [] ==> Exec(r, s, skip) == r
  {
  }

  lemma {:induction false} ExecAppend(r: Run, a: seq<byte>, b: seq<byte>, skip: bool)
    ensures Exec(r, a + b, skip) == Exec(Exec(r, a, skip), b, skip)
    decreases |a|, Rank(r.c.state)
  {
    hide *;
    ExecStopped(r, a, skip);
    if r.stop != Going {
      ExecStopped(r, b, skip);
      ExecStopped(r, a + b, skip);
    } else if a == [] {
      assert a + b == b;
    } else {
      var o := Step(r.c, a[0], skip);
      ExecOnce(r, a, skip);
      ExecOnce(r, a + b, skip);
      if o.next == Again {
        AgainDescends(r.c, a[0], skip);
        ApplyState(r, o, a[0]);
        ExecAppend(Apply(r, o, a[0]), a, b, skip);
      } else {
        ExecAppend(Apply(r, o, a[0]), a[1..], b, skip);
        assert (a + b)[1..] == a[1..] + b;
      }
    }
  }

  lemma ApplyState(r: Run, o: Out, ch: byte)
    ensures Apply(r, o, ch).c == o.c
  {
  }

  /** A run with earlier reports and bytes put in front. */
  function After(t: seq<Event>, n: nat, r: Run): Run
  {
    r.(trace := t + r.trace, used := n + r.used)
  }

  lemma ApplyAfter(t: seq<Event>, n: nat, r: Run, o: Out, ch: byte)
    ensures Apply(After(t, n, r), o, ch) == After(t, n, Apply(r, o, ch))
  {
    var p := if o.whole then With(Marked(r.pend, o.mark), [ch]) else Marked(r.pend, o.mark);
    var said := if Flushes(p, o.flush) then [Data(p.kind, p.bytes)] else [];
    assert t + r.trace + said + Notes(o.note) == t + (r.trace + said + Notes(o.note));
  }

  lemma {:induction false} ExecAfter(t: seq<Event>, n: nat, r: Run, s: seq<byte>, skip: bool)
    ensures Exec(After(t, n, r), s, skip) == After(t, n, Exec(r, s, skip))
    decreases |s|, Rank(r.c.state)
  {
    if r.stop == Going && s != [] {
      var o := Step(r.c, s[0], skip);
      ApplyAfter(t, n, r, o, s[0]);
      if o.next == Again {
        AgainDescends(r.c, s[0], skip);
        ExecAfter(t, n, Apply(r, o, s[0]), s, skip);
      } else {
        ExecAfter(t, n, Apply(r, o, s[0]), s[1..], skip);
      }
    }
  }

  // ---- Marks and states ----------------------------------------------------------

  /** States that read body bytes. */
  predicate InBody(s: State)
  {
    s.BodyIdentity? || s.BodyIdentityEof? || s.ChunkData? || s.ChunkDataAlmostDone?
  }

  /** The open token is the one the state belongs to. */
  predicate PendOk(s: State, p: Pend)
  {
    match Inside(s)
    case Some(k) => p.Open? && p.kind == k
    case None => p.Closed? || (p.kind == BodyData && InBody(s))
  }

  /** A pass keeps the open token and the state in step, and sets the error exactly when it fails. */
  predicate Fine(r: Run, o: Out, ch: byte)
  {
    (r.c.errno == OK ==> (o.c.errno == OK <==> o.next != Fail) && o.c.errno != HeaderOverflow) &&
    (PendOk(r.c.state, r.pend) && o.next != Fail ==> PendOk(o.c.state, Apply(r, o, ch).pend))
  }

  /** Outside of bodies, a pass leaves the token as it is, opens it, closes it, or reports an empty one. */
  predicate Orderly(c: Core, o: Out)
  {
    (c.errno == OK ==> (o.c.errno == OK <==> o.next != Fail) && o.c.errno != HeaderOverflow) &&
    (o.next != Fail ==>
      !o.whole && (Stays(c.state, o) || Opens(c.state, o) || Closes(c.state, o) || Blinks(c.state, o)))
  }

  predicate Stays(s: State, o: Out)
  {
    o.mark.None? && o.flush.None? && Inside(o.c.state) == Inside(s) && (InBody(s) ==> InBody(o.c.state))
  }

  predicate Opens(s: State, o: Out)
  {
    o.mark.Some? && o.flush.None? && Inside(s).None? && !InBody(s) && Inside(o.c.state) == o.mark
  }

  predicate Closes(s: State, o: Out)
  {
    o.mark.None? && o.flush.Some? && Inside(s) == o.flush && Inside(o.c.state).None?
  }

  predicate Blinks(s: State, o: Out)
  {
    o.mark.Some? && o.flush == o.mark && Inside(s).None? && !InBody(s) && Inside(o.c.state).None? && o.next == Again
  }

  lemma OrderlyFine(r: Run, o: Out, ch: byte)
    requires Orderly(r.c, o)
    ensures Fine(r, o, ch)
  {
    hide Inside;
  }

  lemma StartFine(r: Run, ch: byte)
    ensures Fine(r, StepStart(r.c, ch), ch)
  {
    StartOrderly(r.c, ch);
    hide *;
    OrderlyFine(r, StepStart(r.c, ch), ch);
  }

  lemma StartOrderly(c: Core, ch: byte)
    ensures Orderly(c, StepStart(c, ch))
  {
  }

  lemma ResVersionFine(r: Run, ch: byte)
    ensures Fine(r, StepResVersion(r.c, ch), ch)
  {
    ResVersionOrderly(r.c, ch);
    hide *;
    OrderlyFine(r, StepResVersion(r.c, ch), ch);
  }

  lemma ResVersionOrderly(c: Core, ch: byte)
    ensures Orderly(c, StepResVersion(c, ch))
  {
  }

  lemma StatusFine(r: Run, ch: byte)
    ensures Fine(r, StepStatus(r.c, ch), ch)
  {
    StatusOrderly(r.c, ch);
    hide *;
    OrderlyFine(r, StepStatus(r.c, ch), ch);
  }

  lemma StatusOrderly(c: Core, ch: byte)
    ensures Orderly(c, StepStatus(c, ch))
  {
  }

  lemma MethodFine(r: Run, ch: byte)
    ensures Fine(r, StepMethod(r.c, ch), ch)
  {
    MethodOrderly(r.c, ch);
    hide *;
    OrderlyFine(r, StepMethod(r.c, ch), ch);
  }

  lemma MethodOrderly(c: Core, ch: byte)
    ensures Orderly(c, StepMethod(c, ch))
  {
    hide OtherMethod, MethodName, FirstMethod, CharAt, IsAlpha;
    if c.state.ReqMethod? {
      ReadMethodOrderly(c, ch);
    }
    hide StepMethod;
    if c.state.StartReq? {
      StartReqOrderly(c, ch);
    }
  }

  lemma ReadMethodOrderly(c: Core, ch: byte)
    requires c.state.ReqMethod?
    ensures Orderly(c, StepMethod(c, ch))
  {
    hide OtherMethod, MethodName, FirstMethod, CharAt, IsAlpha;
  }

  lemma StartReqOrderly(c: Core, ch: byte)
    requires c.state.StartReq?
    ensures Orderly(c, StepMethod(c, ch))
  {
    hide OtherMethod, MethodName, FirstMethod, CharAt, IsAlpha;
  }

  lemma UrlFine(r: Run, ch: byte)
    ensures Fine(r, StepUrl(r.c, ch), ch)
  {
    UrlOrderly(r.c, ch);
    hide *;
    OrderlyFine(r, StepUrl(r.c, ch), ch);
  }

  lemma UrlOrderly(c: Core, ch: byte)
    ensures Orderly(c, StepUrl(c, ch))
  {
    UrlStates(if c.state.ReqSpacesBeforeUrl? && c.verb == CONNECT then ReqServerStart else c.state, ch);
    hide ParseUrlChar;
  }

  lemma UrlStates(s: State, ch: byte)
    ensures var t := ParseUrlChar(s, ch); t.Dead? || EarlyUrl(t) || LateUrl(t)
  {
  }

  lemma ReqVersionFine(r: Run, ch: byte)
    ensures Fine(r, StepReqVersion(r.c, ch), ch)
  {
    ReqVersionOrderly(r.c, ch);
    hide *;
    OrderlyFine(r, StepReqVersion(r.c, ch), ch);
  }

  lemma ReqVersionOrderly(c: Core, ch: byte)
    ensures Orderly(c, StepReqVersion(c, ch))
  {
  }

  lemma FieldFine(r: Run, ch: byte)
    ensures Fine(r, StepField(r.c, ch), ch)
  {
    FieldOrderly(r.c, ch);
    hide *;
    OrderlyFine(r, StepField(r.c, ch), ch);
  }

  lemma FieldOrderly(c: Core, ch: byte)
    ensures Orderly(c, StepField(c, ch))
  {
    FieldNextKeeps(c, Token(ch), ch);
    hide FieldNext, FirstOfField;
  }

  lemma FieldNextKeeps(c: Core, t: byte, ch: byte)
    ensures var d := FieldNext(c, t, ch); d == c.(index := d.index, header := d.header)
  {
    hide MatchWord;
  }

  lemma ValueFine(r: Run, ch: byte)
    ensures Fine(r, StepValue(r.c, ch), ch)
  {
    ValueOrderly(r.c, ch);
    hide *;
    OrderlyFine(r, StepValue(r.c, ch), ch);
  }

  lemma ValueOrderly(c: Core, ch: byte)
    ensures Orderly(c, StepValue(c, ch))
  {
    hide *;
    if c.state.HeaderValueDiscardWs? || c.state.HeaderValueStart? {
      BeforeValueOrderly(c, ch);
    } else if c.state.HeaderValue? {
      InValueOrderly(c, ch);
    } else {
      AfterValueOrderly(c, ch);
    }
  }

  lemma BeforeValueOrderly(c: Core, ch: byte)
    requires c.state.HeaderValueDiscardWs? || c.state.HeaderValueStart?
    ensures Orderly(c, StepValue(c, ch))
  {
    ValueStartKeeps(c, ch);
    hide ValueStart;
  }

  lemma AfterValueOrderly(c: Core, ch: byte)
    requires !c.state.HeaderValueDiscardWs? && !c.state.HeaderValueStart? && !c.state.HeaderValue?
    ensures Orderly(c, StepValue(c, ch))
  {
    HeaderFlagKeeps(c);
    hide HeaderFlag;
  }

  lemma InValueOrderly(c: Core, ch: byte)
    requires c.state.HeaderValue?
    ensures Orderly(c, StepValue(c, ch))
  {
    ValueNextKeeps(c, ch);
    hide ValueNext;
  }

  lemma HeaderFlagKeeps(c: Core)
    ensures HeaderFlag(c) == c.(flags := HeaderFlag(c).flags)
  {
  }

  lemma ValueStartKeeps(c: Core, ch: byte)
    ensures var o := ValueStart(c, ch);
      o.c.state == HeaderValue && o.mark == Some(HeaderValueData) && o.flush.None? && !o.whole && o.note.None? &&
      (o.next == Consume || o.next == Fail) &&
        (c.errno == OK ==> (o.c.errno == OK <==> o.next != Fail) && o.c.errno != HeaderOverflow)
  {
  }

  lemma ValueNextKeeps(c: Core, ch: byte)
    ensures var o := ValueNext(c, ch);
      o.c.state == c.state && o.mark.None? && o.flush.None? && !o.whole && o.note.None? && !o.reset &&
      (o.next == Consume || o.next == Fail) &&
        (c.errno == OK ==> (o.c.errno == OK <==> o.next != Fail) && o.c.errno != HeaderOverflow)
  {
  }

  lemma HeadersEndFine(r: Run, ch: byte, skip: bool)
    ensures Fine(r, StepHeadersEnd(r.c, ch, skip), ch)
  {
    HeadersEndOrderly(r.c, ch, skip);
    hide *;
    OrderlyFine(r, StepHeadersEnd(r.c, ch, skip), ch);
  }

  lemma HeadersEndOrderly(c: Core, ch: byte, skip: bool)
    ensures Orderly(c, StepHeadersEnd(c, ch, skip))
  {
    hide *;
    if c.state.HeadersAlmostDone? {
      AlmostDoneOrderly(c, ch, skip);
    } else if c.state.HeadersDone? {
      HeadersDoneOrderly(c, ch, skip);
    } else {
      EatOrderly(c);
      OtherHeadersEnd(c, ch, skip);
    }
  }

  lemma OtherHeadersEnd(c: Core, ch: byte, skip: bool)
    requires !c.state.HeadersAlmostDone? && !c.state.HeadersDone?
    ensures StepHeadersEnd(c, ch, skip) == Eat(c)
  {
  }

  lemma EatOrderly(c: Core)
    ensures Orderly(c, Eat(c))
  {
    hide Inside, InBody;
  }

  lemma NewMessageStates(c: Core)
    ensures NewMessage(c).Dead? || NewMessage(c).StartReq? || NewMessage(c).StartRes?
  {
    hide ShouldKeepAlive;
  }

  lemma AlmostDoneOrderly(c: Core, ch: byte, skip: bool)
    requires c.state.HeadersAlmostDone?
    ensures Orderly(c, StepHeadersEnd(c, ch, skip))
  {
    hide *;
    AlmostDoneIs(c, ch, skip);
    var o := StepHeadersEnd(c, ch, skip);
    NoToken(c.state);
    if o.next != Fail { NoToken(o.c.state); }
    QuietOrderly(c, o);
  }

  lemma AlmostDoneIs(c: Core, ch: byte, skip: bool)
    requires c.state.HeadersAlmostDone?
    ensures var o := StepHeadersEnd(c, ch, skip); var s := o.c.state;
      o.mark.None? && o.flush.None? && !o.whole && o.c.errno == (if o.next == Fail then Strict else c.errno) &&
      (o.next != Fail ==> s.Dead? || s.StartReq? || s.StartRes? || s.HeadersDone?)
  {
    NewMessageStates(c);
    hide NewMessage;
  }

  /** States between tokens. */
  lemma NoToken(s: State)
    requires s.Dead? || s.StartReq? || s.StartRes? || s.HeadersAlmostDone? || s.HeadersDone? || s.ChunkSizeStart? ||
      s.BodyIdentity? || s.BodyIdentityEof? || SizeState(s) || s.HeaderFieldStart? || s.ChunkData?
    ensures Inside(s).None? && (s.HeadersAlmostDone? || s.HeadersDone? || SizeState(s) ==> !InBody(s))
  {
  }

  lemma QuietOrderly(c: Core, o: Out)
    requires c.errno == OK ==> (o.c.errno == OK <==> o.next != Fail) && o.c.errno != HeaderOverflow
    requires o.mark.None? && o.flush.None? && !o.whole && Inside(c.state).None? && !InBody(c.state)
    requires o.next != Fail ==> Inside(o.c.state).None?
    ensures Orderly(c, o)
  {
    hide Inside, InBody;
  }

  lemma HeadersDoneOrderly(c: Core, ch: byte, skip: bool)
    requires c.state.HeadersDone?
    ensures Orderly(c, StepHeadersEnd(c, ch, skip))
  {
    hide *;
    HeadersDoneIs(c, ch, skip);
    var o := StepHeadersEnd(c, ch, skip);
    NoToken(c.state);
    if o.next != Fail { NoToken(o.c.state); }
    QuietOrderly(c, o);
  }

  lemma HeadersDoneIs(c: Core, ch: byte, skip: bool)
    requires c.state.HeadersDone?
    ensures var o := StepHeadersEnd(c, ch, skip); var s := o.c.state;
      o.mark.None? && o.flush.None? && !o.whole && o.c.errno == (if o.next == Fail then Strict else c.errno) &&
      (o.next != Fail ==>
        s.Dead? || s.StartReq? || s.StartRes? || s.ChunkSizeStart? || s.BodyIdentity? || s.BodyIdentityEof?)
  {
    NewMessageStates(c);
    hide NewMessage, MessageNeedsEof;
  }

  lemma BodyFine(r: Run, ch: byte)
    ensures Fine(r, StepBody(r.c, ch), ch)
  {
  }

  lemma ChunkSizeFine(r: Run, ch: byte)
    ensures Fine(r, StepChunkSize(r.c, ch), ch)
  {
    ChunkSizeOrderly(r.c, ch);
    hide *;
    OrderlyFine(r, StepChunkSize(r.c, ch), ch);
  }

  lemma ChunkSizeOrderly(c: Core, ch: byte)
    ensures Orderly(c, StepChunkSize(c, ch))
  {
    hide *;
    ChunkSizeIs(c, ch);
    var o := StepChunkSize(c, ch);
    if SizeState(c.state) {
      NoToken(c.state);
      if o.next != Fail { NoToken(o.c.state); }
      QuietOrderly(c, o);
    } else {
      EatOrderly(c);
    }
  }

  predicate SizeState(s: State)
  {
    s.ChunkSizeStart? || s.ChunkSize? || s.ChunkParameters? || s.ChunkSizeAlmostDone?
  }

  lemma ChunkSizeIs(c: Core, ch: byte)
    ensures SizeState(c.state) ==> (
      var o := StepChunkSize(c, ch); var s := o.c.state;
      o.mark.None? && o.flush.None? && !o.whole &&
      (o.next == Fail ==> o.c.errno != OK && o.c.errno != HeaderOverflow) &&
        (o.next != Fail ==> o.c.errno == c.errno) &&
      (o.next != Fail ==> SizeState(s) || s.HeaderFieldStart? || s.ChunkData?))
    ensures !SizeState(c.state) ==> StepChunkSize(c, ch) == Eat(c)
  {
    UnhexRange(ch);
    hide Unhex;
  }

  lemma UnhexRange(ch: byte)
    ensures -1 <= Unhex(ch) <= 15
  {
  }

  lemma StepFine(r: Run, ch: byte, skip: bool)
    ensures Fine(r, Step(r.c, ch, skip), ch)
  {
    StartFine(r, ch);
    ResVersionFine(r, ch);
    StatusFine(r, ch);
    MethodFine(r, ch);
    UrlFine(r, ch);
    ReqVersionFine(r, ch);
    FieldFine(r, ch);
    ValueFine(r, ch);
    HeadersEndFine(r, ch, skip);
    BodyFine(r, ch);
    ChunkSizeFine(r, ch);
    hide Fine, StepStart, StepResVersion, StepStatus, StepMethod, StepUrl, StepReqVersion, StepField, StepValue,
      StepHeadersEnd, StepBody, StepChunkSize;
  }

  /** What holds of a run that is going. */
  predicate RunOk(r: Run)
  {
    (r.stop != Failed ==> PendOk(r.c.state, r.pend)) && (r.c.errno == OK <==> r.stop != Failed)
  }

  lemma {:induction false} ExecOk(r: Run, s: seq<byte>, skip: bool)
    requires RunOk(r)
    ensures RunOk(Exec(r, s, skip))
    ensures Exec(r, s, skip).stop == Going ==> Exec(r, s, skip).used == r.used + |s|
    ensures Exec(r, s, skip).stop == Going && s != [] ==> (var p := Exec(r, s, skip).pend; p.Closed? || p.bytes != [])
    ensures Exec(r, s, skip).used <= r.used + |s|
    decreases |s|, Rank(r.c.state)
  {
    if r.stop == Going && s != [] {
      var o := Step(r.c, s[0], skip);
      StepFine(r, s[0], skip);
      var r' := Apply(r, o, s[0]);
      assert RunOk(r');
      if o.next == Again {
        AgainDescends(r.c, s[0], skip);
        ExecOk(r', s, skip);
      } else {
        assert o.next == Consume ==> r'.pend.Closed? || r'.pend.bytes != [];
        hide PendOk, Step;
        ExecOk(r', s[1..], skip);
      }
    }
  }

  // ---- Reading on in the middle of a token -----------------------------------------

  /** u is a run in the middle of a token, v one that began a new buffer there. */
  predicate Split(u: Run, v: Run, base: seq<Event>, k: Kind, x: seq<byte>, y: seq<byte>, n: nat)
  {
    u.c == v.c && u.stop == v.stop && u.used == v.used + n && u.trace == base && v.trace == [] &&
    u.pend == Open(k, x + y) && (v.pend == Open(k, y) || (v.pend.Closed? && y == []))
  }

  /** The token has been closed since; w was reported after it. */
  predicate Settled(u: Run, v: Run, base: seq<Event>, k: Kind, x: seq<byte>, y: seq<byte>, w: seq<Event>, open: bool,
      n: nat)
  {
    u.c == v.c && u.stop == v.stop && u.used == v.used + n && u.pend == v.pend && (open || y == []) &&
    u.trace == base + [Data(k, x + y)] + w && v.trace == (if open then [Data(k, y)] else []) + w
  }

  /** One pass keeps the token open in both runs, or closes it in both. */
  lemma SplitStep(u: Run, v: Run, base: seq<Event>, k: Kind, x: seq<byte>, y: seq<byte>, n: nat, ch: byte, skip: bool)
    requires Split(u, v, base, k, x, y, n) && PendOk(u.c.state, u.pend) && u.stop == Going
    requires v.pend.Closed? ==> Inside(u.c.state).None?
    ensures var o := Step(u.c, ch, skip); var u', v' := Apply(u, o, ch), Apply(v, o, ch);
      Split(u', v', base, k, x, y, n) || Split(u', v', base, k, x, y + [ch], n) ||
      Settled(u', v', base, k, x, y, Notes(o.note), v.pend.Open?, n) ||
      Settled(u', v', base, k, x, y + [ch], Notes(o.note), true, n)
    ensures var o := Step(u.c, ch, skip); var u', v' := Apply(u, o, ch), Apply(v, o, ch);
      Split(u', v', base, k, x, y, n) || Split(u', v', base, k, x, y + [ch], n) ==>
        (v'.pend.Closed? && u'.stop != Failed ==> Inside(u'.c.state).None?) && u'.stop != Left
  {
    TokenStep(u.c, ch, skip, k);
    SplitApply(u, v, base, k, x, y, n, Step(u.c, ch, skip), ch);
    hide *;
  }

  lemma SplitApply(u: Run, v: Run, base: seq<Event>, k: Kind, x: seq<byte>, y: seq<byte>, n: nat, o: Out, ch: byte)
    requires Split(u, v, base, k, x, y, n) && PendOk(u.c.state, u.pend) && u.stop == Going
    requires v.pend.Closed? ==> Inside(u.c.state).None?
    requires Continues(u.c, o, k)
    ensures var u', v' := Apply(u, o, ch), Apply(v, o, ch);
      Split(u', v', base, k, x, y, n) || Split(u', v', base, k, x, y + [ch], n) ||
      Settled(u', v', base, k, x, y, Notes(o.note), v.pend.Open?, n) ||
      Settled(u', v', base, k, x, y + [ch], Notes(o.note), true, n)
    ensures var u', v' := Apply(u, o, ch), Apply(v, o, ch);
      Split(u', v', base, k, x, y, n) || Split(u', v', base, k, x, y + [ch], n) ==>
        (v'.pend.Closed? && u'.stop != Failed ==> Inside(u'.c.state).None?) && u'.stop != Left
  {
    assert (x + y) + [ch] == x + (y + [ch]);
    assert y == [] ==> [] + [ch] == y + [ch];
  }

  /** While the token of kind k is open, a byte continues it, closes it or is refused. */
  predicate Continues(c: Core, o: Out, k: Kind)
  {
    (o.mark.Some? ==> o.mark.value == k && k == BodyData) && (o.flush.Some? ==> o.flush.value == k) &&
    (o.whole <==> o.mark.Some? && o.flush.Some?) && o.next != Leave &&
    (o.flush.None? ==> o.note.None? && o.next != Again && (o.next == Consume ==> PendOk(o.c.state, Open(k, [])))) &&
    (Inside(c.state).None? ==> o.mark.Some? || o.flush.Some? || o.next == Fail) &&
    (o.flush.Some? ==> PendOk(o.c.state, Closed))
  }

  lemma TokenStep(c: Core, ch: byte, skip: bool, k: Kind)
    requires PendOk(c.state, Open(k, []))
    ensures Continues(c, Step(c, ch, skip), k)
  {
    TokenStates(c.state, k);
    StepOf(c, ch, skip);
    hide *;
    if c.state.HeaderField? {
      FieldContinues(c, ch);
    } else if c.state.HeaderValue? {
      ValueContinues(c, ch);
    } else if c.state.ResStatus? {
      StatusContinues(c, ch);
    } else if InBody(c.state) {
      BodyContinues(c, ch);
    } else {
      UrlContinues(c, ch);
    }
  }

  /** The states in which a token can be open. */
  lemma TokenStates(s: State, k: Kind)
    requires PendOk(s, Open(k, []))
    ensures (s.HeaderField? && k == HeaderFieldData) || (s.HeaderValue? && k == HeaderValueData) ||
      (s.ResStatus? && k == StatusData) || (InBody(s) && k == BodyData) || ((EarlyUrl(s) || LateUrl(s)) && k == UrlData)
    ensures InBody(s) ==> !s.HeaderField? && !s.HeaderValue? && !s.ResStatus?
  {
  }

  lemma StepOf(c: Core, ch: byte, skip: bool)
    ensures c.state.HeaderField? ==> Step(c, ch, skip) == StepField(c, ch)
    ensures c.state.HeaderValue? ==> Step(c, ch, skip) == StepValue(c, ch)
    ensures c.state.ResStatus? ==> Step(c, ch, skip) == StepStatus(c, ch)
    ensures InBody(c.state) ==> Step(c, ch, skip) == StepBody(c, ch)
    ensures EarlyUrl(c.state) || LateUrl(c.state) ==> Step(c, ch, skip) == StepUrl(c, ch)
  {
    hide StepField, StepValue, StepStatus, StepBody, StepUrl, StepStart, StepResVersion, StepMethod, StepReqVersion;
    hide StepHeadersEnd, StepChunkSize;
  }

  lemma FieldContinues(c: Core, ch: byte)
    requires c.state.HeaderField?
    ensures Continues(c, StepField(c, ch), HeaderFieldData)
  {
    FieldNextKeeps(c, Token(ch), ch);
    hide FieldNext, Token;
  }

  lemma ValueContinues(c: Core, ch: byte)
    requires c.state.HeaderValue?
    ensures Continues(c, StepValue(c, ch), HeaderValueData)
  {
    ValueNextKeeps(c, ch);
    hide ValueNext;
  }

  lemma StatusContinues(c: Core, ch: byte)
    requires c.state.ResStatus?
    ensures Continues(c, StepStatus(c, ch), StatusData)
  {
  }

  lemma BodyContinues(c: Core, ch: byte)
    requires InBody(c.state)
    ensures Continues(c, StepBody(c, ch), BodyData)
  {
  }

  lemma UrlContinues(c: Core, ch: byte)
    requires EarlyUrl(c.state) || LateUrl(c.state)
    ensures Continues(c, StepUrl(c, ch), UrlData)
  {
    UrlStates(c.state, ch);
    hide ParseUrlChar;
  }

  lemma {:induction false} SplitExec(u: Run, v: Run, base: seq<Event>, k: Kind, x: seq<byte>, y: seq<byte>, n: nat,
                                     s: seq<byte>, skip: bool)
    returns (settled: bool, y': seq<byte>, w: seq<Event>, open: bool)
    requires Split(u, v, base, k, x, y, n) && (u.stop == Going ==> PendOk(u.c.state, u.pend)) && u.stop != Left
    requires u.stop == Going && v.pend.Closed? ==> Inside(u.c.state).None?
    ensures settled ==> Settled(Exec(u, s, skip), Exec(v, s, skip), base, k, x, y', w, open, n)
    ensures !settled ==> Split(Exec(u, s, skip), Exec(v, s, skip), base, k, x, y', n) && Exec(u, s, skip).stop != Left
    decreases |s|, Rank(u.c.state)
  {
    if u.stop != Going || s == [] {
      settled, y', w, open := false, y, [], false;
    } else {
      var o := Step(u.c, s[0], skip);
      SplitStep(u, v, base, k, x, y, n, s[0], skip);
      StepFine(u, s[0], skip);
      var u', v' := Apply(u, o, s[0]), Apply(v, o, s[0]);
      var rest := if o.next == Again then s else s[1..];
      if o.next == Again { AgainDescends(u.c, s[0], skip); }
      hide Step, Apply, PendOk;
      if Split(u', v', base, k, x, y, n) {
        settled, y', w, open := SplitExec(u', v', base, k, x, y, n, rest, skip);
      } else if Split(u', v', base, k, x, y + [s[0]], n) {
        settled, y', w, open := SplitExec(u', v', base, k, x, y + [s[0]], n, rest, skip);
      } else {
        open := !Settled(u', v', base, k, x, y, Notes(o.note), v.pend.Open?, n) || v.pend.Open?;
        y' := if Settled(u', v', base, k, x, y, Notes(o.note), v.pend.Open?, n) then y else y + [s[0]];
        settled := true;
        w := SettledExec(u', v', base, k, x, y', Notes(o.note), open, n, rest, skip);
      }
    }
  }

  /** From where the token is closed on, both runs report the same. */
  lemma SettledExec(u: Run, v: Run, base: seq<Event>, k: Kind, x: seq<byte>, y: seq<byte>, w: seq<Event>, open: bool,
      n: nat,
                    s: seq<byte>, skip: bool)
    returns (w': seq<Event>)
    requires Settled(u, v, base, k, x, y, w, open, n)
    ensures Settled(Exec(u, s, skip), Exec(v, s, skip), base, k, x, y, w', open, n)
  {
    var r := Run(u.c, u.pend, w, u.stop, v.used);
    var tv := if open then [Data(k, y)] else [];
    assert u == After(base + [Data(k, x + y)], n, r);
    assert v == After(tv, 0, r);
    ExecAfter(base + [Data(k, x + y)], n, r, s, skip);
    ExecAfter(tv, 0, r, s, skip);
    w' := Exec(r, s, skip).trace;
  }

  // ---- Cutting a buffer in two -----------------------------------------------------------

  /** The token that the cut leaves open is still open where the second buffer fails. */
  predicate FailsInToken(c: Core, a: seq<byte>, b: seq<byte>, skip: bool)
  {
    var r := Exec(Start(c), a, skip);
    var z := Exec(r, b, skip);
    r.stop == Going && r.pend.Open? && z.stop == Failed && z.trace == r.trace
  }

  /** The uncut run reports the same unless it fails in the middle of the token that the cut leaves open. */
  lemma CutCompared(c: Core, a: seq<byte>, b: seq<byte>, skip: bool)
    requires c.errno == OK && a != [] && b != [] && Exec(Start(c), a, skip).stop != Left
    ensures var first := Execute(c, a, skip); var second := Execute(first.c, b, skip);
      var whole := Execute(c, a + b, skip);
      whole.c == second.c && whole.used == first.used + second.used &&
      (Norm(whole.trace) == Norm(first.trace + second.trace) <==> !FailsInToken(c, a, b, skip))
  {
    var r := Exec(Start(c), a, skip);
    StartOk(c);
    ExecOk(Start(c), a, skip);
    ExecAppend(Start(c), a, b, skip);
    if r.stop == Failed {
      assert r.trace + [] == r.trace;
    } else if r.pend.Closed? {
      PlainCut(c, a, b, skip);
    } else {
      TokenCut(c, a, b, skip);
    }
  }

  lemma StartOk(c: Core)
    requires c.errno == OK
    ensures RunOk(Start(c))
  {
  }

  lemma PlainCut(c: Core, a: seq<byte>, b: seq<byte>, skip: bool)
    requires c.errno == OK && a != [] && b != []
    requires var r := Exec(Start(c), a, skip); r.stop == Going && r.pend.Closed?
    ensures var first := Execute(c, a, skip); var second := Execute(first.c, b, skip);
      var whole := Execute(c, a + b, skip);
      whole.c == second.c && whole.used == first.used + second.used && whole.trace == first.trace + second.trace
  {
    var r := Exec(Start(c), a, skip);
    StartOk(c);
    ExecOk(Start(c), a, skip);
    ExecAppend(Start(c), a, b, skip);
    hide Exec;
    assert r == After(r.trace, r.used, Start(r.c));
    ExecAfter(r.trace, r.used, Start(r.c), b, skip);
  }

  lemma TokenCut(c: Core, a: seq<byte>, b: seq<byte>, skip: bool)
    requires c.errno == OK && a != [] && b != []
    requires var r := Exec(Start(c), a, skip); r.stop == Going && r.pend.Open?
    ensures var first := Execute(c, a, skip); var second := Execute(first.c, b, skip);
      var whole := Execute(c, a + b, skip);
      whole.c == second.c && whole.used == first.used + second.used &&
      (Norm(whole.trace) == Norm(first.trace + second.trace) <==> !FailsInToken(c, a, b, skip))
  {
    var r := Exec(Start(c), a, skip);
    StartOk(c);
    ExecOk(Start(c), a, skip);
    ExecAppend(Start(c), a, b, skip);
    var k, x := r.pend.kind, r.pend.bytes;
    assert x + [] == x;
    var v := Start(r.c);
    assert Split(r, v, r.trace, k, x, [], r.used);
    var settled, y, w, open := SplitExec(r, v, r.trace, k, x, [], r.used, b, skip);
    var u', v' := Exec(r, b, skip), Exec(v, b, skip);
    hide Exec, Norm;
    if settled {
      SettledTraces(u', v', r.trace, k, x, y, w, open, r.used);
    } else {
      OpenTraces(u', v', r.trace, k, x, y, r.used);
    }
  }

  lemma SettledTraces(u: Run, v: Run, base: seq<Event>, k: Kind, x: seq<byte>, y: seq<byte>, w: seq<Event>, open: bool,
      n: nat)
    requires Settled(u, v, base, k, x, y, w, open, n)
    ensures Norm(u.trace + Leftover(u)) == Norm((base + [Data(k, x)]) + (v.trace + Leftover(v))) && u.trace != base
  {
    var end := w + Leftover(u);
    CutSettled(base, k, x, y, end, open);
    hide Norm;
    assert u.trace + Leftover(u) == base + ([Data(k, x + y)] + end);
    assert (base + [Data(k, x)]) + (v.trace + Leftover(v)) == base + ([Data(k, x)] + ((if open then [Data(k, y)]
      else []) + end));
    assert |u.trace| > |base|;
  }

  lemma OpenTraces(u: Run, v: Run, base: seq<Event>, k: Kind, x: seq<byte>, y: seq<byte>, n: nat)
    requires Split(u, v, base, k, x, y, n) && u.stop != Left && x != []
    ensures Norm(u.trace + Leftover(u)) == Norm((base + [Data(k, x)]) + (v.trace + Leftover(v))) <==> u.stop != Failed
  {
    if u.stop == Going {
      CutSettled(base, k, x, y, [], v.pend.Open?);
      hide Norm;
      assert u.trace + Leftover(u) == base + ([Data(k, x + y)] + []);
      assert (base + [Data(k, x)]) + (v.trace + Leftover(v)) ==
        base + ([Data(k, x)] + ((if v.pend.Open? then [Data(k, y)] else []) + []));
    } else {
      SizeAppend(base, [Data(k, x)]);
      assert Size([Data(k, x)]) == |x| by { assert [Data(k, x)][1..] == []; }
      NormSize(base);
      NormSize(base + [Data(k, x)]);
      assert u.trace + Leftover(u) == base;
      assert (base + [Data(k, x)]) + (v.trace + Leftover(v)) == base + [Data(k, x)];
    }
  }

  lemma CutSettled(base: seq<Event>, k: Kind, x: seq<byte>, y: seq<byte>, t: seq<Event>, open: bool)
    requires open || y == []
    ensures Norm(base + ([Data(k, x)] + ((if open then [Data(k, y)]
      else []) + t))) == Norm(base + ([Data(k, x + y)] + t))
  {
    if open {
      NormMerge(k, x, y, t);
    } else {
      assert x + y == x && [] + t == t;
    }
    NormAppend(base, [Data(k, x)] + ((if open then [Data(k, y)] else []) + t), [Data(k, x + y)] + t);
  }

  // ---- Any way of cutting --------------------------------------------------------------

  function Concat(bufs: seq<seq<byte>>): seq<byte>
  {
    if bufs == [] then [] else bufs[0] + Concat(bufs[1..])
  }

  /** One call after the other. */
  function ExecuteAll(c: Core, bufs: seq<seq<byte>>, skip: bool): Result
    decreases |bufs|
  {
    if bufs == [] then Result(c, [], 0)
    else
      var first := Execute(c, bufs[0], skip);
      var rest := ExecuteAll(first.c, bufs[1..], skip);
      Result(rest.c, first.trace + rest.trace, first.used + rest.used)
  }

  /** Input that is accepted as a whole is accepted, and reported alike, however it is cut into buffers. */
  lemma {:induction false} AnyCut(c: Core, bufs: seq<seq<byte>>, skip: bool)
    requires c.errno == OK && bufs != [] && (forall i :: 0 <= i < |bufs| ==> bufs[i] != [])
    requires Exec(Start(c), Concat(bufs), skip).stop == Going
    ensures var all, whole := ExecuteAll(c, bufs, skip), Execute(c, Concat(bufs), skip);
      all.c == whole.c && all.used == whole.used == |Concat(bufs)| && Norm(all.trace) == Norm(whole.trace)
    decreases |bufs|
  {
    StartOk(c);
    ExecOk(Start(c), Concat(bufs), skip);
    if |bufs| == 1 {
      assert bufs[1..] == [];
      assert Concat(bufs) == bufs[0];
      var t := Execute(c, bufs[0], skip).trace;
      assert t + [] == t;
    } else {
      var a, b := bufs[0], Concat(bufs[1..]);
      assert Concat(bufs) == a + b && b != [] by { assert bufs[1..][0] == bufs[1] != []; }
      var r := Exec(Start(c), a, skip);
      ExecAppend(Start(c), a, b, skip);
      ExecOk(Start(c), a, skip);
      CutCompared(c, a, b, skip);
      var first := Execute(c, a, skip);
      CutGoing(c, a, b, skip);
      AnyCut(first.c, bufs[1..], skip);
      NormAppend(first.trace, ExecuteAll(first.c, bufs[1..], skip).trace, Execute(first.c, b, skip).trace);
    }
  }

  lemma CutGoing(c: Core, a: seq<byte>, b: seq<byte>, skip: bool)
    requires c.errno == OK && a != [] && b != [] && Exec(Start(c), a + b, skip).stop == Going
    ensures var r := Exec(Start(c), a, skip);
      r.stop == Going && r.c.errno == OK && Exec(Start(r.c), b, skip).stop == Going
  {
    var r := Exec(Start(c), a, skip);
    StartOk(c);
    ExecOk(Start(c), a, skip);
    ExecAppend(Start(c), a, b, skip);
    if r.pend.Closed? {
      assert r == After(r.trace, r.used, Start(r.c)) by { hide Exec; }
      ExecAfter(r.trace, r.used, Start(r.c), b, skip);
    } else {
      var x := r.pend.bytes;
      assert x + [] == x;
      var settled, y, w, open := SplitExec(r, Start(r.c), r.trace, r.pend.kind, x, [], r.used, b, skip);
    }
  }
}
