/** http_parser_execute: one loop over the buffer, with inner loops that skip over whole tokens and bodies. */
module HttpParser {
  import opened Options
  import opened HttpTypes
  import opened HttpStep
  import opened HttpRun
  import opened HttpInvariant

  /** The marks of the five kinds of tokens, positions in the buffer; -1 is the null pointer. */
  datatype Marks = Marks(field: int, value: int, url: int, body: int, status: int)
  {
    function Get(k: Kind): int
    {
      match k
      case HeaderFieldData => field
      case HeaderValueData => value
      case UrlData => url
      case BodyData => body
      case StatusData => status
    }

    function Set(k: Kind, p: int): Marks
    {
      match k
      case HeaderFieldData => this.(field := p)
      case HeaderValueData => this.(value := p)
      case UrlData => this.(url := p)
      case BodyData => this.(body := p)
      case StatusData => this.(status := p)
    }
  }

  const NO_MARKS: Marks := Marks(-1, -1, -1, -1, -1)

  /** At most one mark is set: the one of the run's open token, whose bytes begin there. */
  predicate MarksAre(m: Marks, pend: Pend, data: seq<byte>, p: nat)
  {
    match pend
    case Closed => m == NO_MARKS
    case Open(k, bytes) => 0 <= m.Get(k) <= p <= |data| && m == NO_MARKS.Set(k, m.Get(k)) && bytes == data[m.Get(k)..p]
  }

  /** Position p of the buffer, with these fields, marks and callbacks, is where run r is. */
  predicate At(r: Run, c: Core, m: Marks, calls: seq<Event>, data: seq<byte>, p: nat)
  {
    r.c == c && r.stop == Going && r.used == p && r.trace == calls && p <= |data| && MarksAre(m, r.pend, data, p)
  }

  // ---- One pass for one byte ---------------------------------------------------

  function MarkAt(m: Marks, mark: Option<Kind>, p: nat): Marks
  {
    if mark.Some? && m.Get(mark.value) < 0 then m.Set(mark.value, p) else m
  }

  /** The data callback for a token that ends before position end, if its mark is set. */
  function CallData(m: Marks, flush: Option<Kind>, data: seq<byte>, end: nat): seq<Event>
    requires end <= |data|
  {
    if flush.Some? && 0 <= m.Get(flush.value) <= end then [Data(flush.value, data[m.Get(flush.value)..end])] else []
  }

  function ClearMark(m: Marks, flush: Option<Kind>): Marks
  {
    if flush.Some? then m.Set(flush.value, -1) else m
  }

  /** How a pass deals with marks: it never starts a second token, and a byte looked at again lies outside any. */
  predicate Fits(pend: Pend, o: Out)
  {
    (o.mark.Some? && pend.Open? ==> pend.kind == o.mark.value) &&
    (o.flush.Some? && pend.Open? ==> pend.kind == o.flush.value) &&
    (o.flush.Some? ==> o.mark.None? || o.mark == o.flush) &&
    (o.whole ==> o.next == Again && o.mark.Some? && o.mark == o.flush) &&
    (o.next == Again ==> o.flush.Some? || (o.mark.None? && pend.Closed?))
  }

  lemma StepFits(r: Run, ch: byte, skip: bool)
    requires PendOk(r.c.state, r.pend)
    ensures Fits(r.pend, Step(r.c, ch, skip))
  {
    MarkedFlush(r.c, ch, skip);
    if r.pend.Open? { TokenStep(r.c, ch, skip, r.pend.kind); }
    hide Step;
  }

  /** What holds of any pass. */
  predicate Tidy(o: Out)
  {
    (o.flush.Some? ==> o.mark.None? || o.mark == o.flush) &&
    (o.whole ==> o.next == Again && o.mark.Some? && o.mark == o.flush) &&
    (o.next == Again ==> o.flush.Some? || o.mark.None?)
  }

  lemma MarkedFlush(c: Core, ch: byte, skip: bool)
    ensures Tidy(Step(c, ch, skip))
  {
    TidyLines(c, ch, skip);
    TidyTokens(c, ch);
    TidyField(c, ch);
    TidyValue(c, ch);
    hide Tidy, StepStart, StepResVersion, StepStatus, StepMethod, StepUrl, StepReqVersion, StepField, StepValue,
      StepHeadersEnd, StepBody;
    hide StepChunkSize;
  }

  lemma TidyLines(c: Core, ch: byte, skip: bool)
    ensures Tidy(StepStart(c, ch)) && Tidy(StepResVersion(c, ch)) && Tidy(StepMethod(c, ch)) &&
      Tidy(StepReqVersion(c, ch))
    ensures Tidy(StepHeadersEnd(c, ch, skip)) && Tidy(StepChunkSize(c, ch)) && Tidy(StepStatus(c, ch))
  {
  }

  lemma TidyTokens(c: Core, ch: byte)
    ensures Tidy(StepUrl(c, ch)) && Tidy(StepBody(c, ch))
  {
    hide ParseUrlChar;
  }

  lemma TidyField(c: Core, ch: byte)
    ensures Tidy(StepField(c, ch))
  {
    hide FieldNext;
  }

  lemma TidyValue(c: Core, ch: byte)
    ensures Tidy(StepValue(c, ch))
  {
    ValueStartKeeps(c, ch);
    ValueNextKeeps(c, ch);
    hide ValueStart, ValueNext;
  }

  /** Marking, calling back and moving on as the loop does is what the run does. */
  lemma PassIs(r: Run, o: Out, m: Marks, data: seq<byte>, p: nat)
    requires p < |data| && MarksAre(m, r.pend, data, p) && Fits(r.pend, o)
    ensures var m1 := MarkAt(m, o.mark, p); var end := if o.whole then p + 1 else p;
      var r' := Apply(r, o, data[p]);
      r'.trace == r.trace + CallData(m1, o.flush, data, end) + Notes(o.note) &&
      (o.next == Again ==> MarksAre(ClearMark(m1, o.flush), r'.pend, data, p)) &&
      (o.next == Consume ==> MarksAre(ClearMark(m1, o.flush), r'.pend, data, p + 1))
  {
    if r.pend.Open? {
      var k := r.pend.kind;
      assert data[m.Get(k)..p] + [data[p]] == data[m.Get(k)..p + 1];
    }
    assert [] + [data[p]] == data[p..p + 1];
    assert data[p..p] == [];
  }

  // ---- The inner loops against the one-byte steps ------------------------------------

  /** The run has read n more bytes of its token. */
  function Further(r: Run, c: Core, more: seq<byte>): Run
  {
    r.(c := c, pend := With(r.pend, more), used := r.used + |more|)
  }

  lemma FurtherTwice(r: Run, c: Core, c': Core, x: seq<byte>, y: seq<byte>)
    ensures Further(Further(r, c, x), c', y) == Further(r, c', x + y)
  {
    if r.pend.Open? {
      assert (r.pend.bytes + x) + y == r.pend.bytes + (x + y);
    }
  }

  /** One byte of an open token that only changes fields. */
  lemma OneFurther(r: Run, s: seq<byte>, skip: bool, c: Core)
    requires r.stop == Going && s != [] && r.pend.Open? && Step(r.c, s[0], skip) == Eat(c)
    ensures Exec(r, s, skip) == Exec(Further(r, c, [s[0]]), s[1..], skip)
  {
    hide Step;
    assert r.trace + [] + [] == r.trace;
    assert Apply(r, Eat(c), s[0]) == Further(r, c, [s[0]]);
  }

  /** One byte of a body: a token is opened if none is. */
  function BodyRead(r: Run, s: State, left: nat, more: seq<byte>): Run
  {
    r.(c := r.c.(state := s, contentLength := left), pend := With(Marked(r.pend, Some(BodyData)), more),
      used := r.used + |more|)
  }

  lemma BodyReadIs(r: Run, s: State, left: nat, more: seq<byte>)
    ensures var r1 := BodyRead(r, s, left, more);
      r1.c == r.c.(state := s, contentLength := left) && r1.stop == r.stop && r1.trace == r.trace &&
        r1.used == r.used + |more|
  {
  }

  lemma BodyReadTwice(r: Run, s: State, s': State, n: nat, n': nat, x: seq<byte>, y: seq<byte>)
    ensures BodyRead(BodyRead(r, s, n, x), s', n', y) == BodyRead(r, s', n', x + y)
  {
    var p := Marked(r.pend, Some(BodyData));
    assert (p.bytes + x) + y == p.bytes + (x + y);
  }

  lemma BodyByte(r: Run, s: seq<byte>, skip: bool, st: State, left: nat)
    requires r.stop == Going && s != []
    requires Step(r.c, s[0], skip) == Eat(r.c.(contentLength := left, state := st)).(mark := Some(BodyData))
    ensures Exec(r, s, skip) == Exec(BodyRead(r, st, left, [s[0]]), s[1..], skip)
  {
    hide Step;
    assert r.trace + [] + [] == r.trace;
    assert Apply(r, Eat(r.c.(contentLength := left, state := st)).(mark := Some(BodyData)), s[0])
      == BodyRead(r, st, left, [s[0]]);
  }

  lemma Tail(data: seq<byte>, p: nat)
    requires p < |data|
    ensures data[p..] != [] && data[p..][0] == data[p] && data[p..][1..] == data[p + 1..] && [data[p]] == data[p..p + 1]
  {
  }

  lemma Slices(data: seq<byte>, p: nat, q: nat, k: nat)
    requires p <= q <= k <= |data|
    ensures data[p..q] + data[q..k] == data[p..k]
  {
  }

  /** Reading n bytes of a body at once is reading them one by one, as long as some are left. */
  lemma {:induction false} IdentityRun(r: Run, data: seq<byte>, p: nat, n: nat, skip: bool)
    requires r.stop == Going && r.c.state.BodyIdentity? && n < r.c.contentLength && 0 < n && p + n <= |data|
    ensures Exec(r, data[p..], skip) == Exec(BodyRead(r, BodyIdentity, r.c.contentLength - n, data[p..p + n]),
      data[p + n..], skip)
    decreases n
  {
    hide *;
    var left := r.c.contentLength;
    var r1 := BodyRead(r, BodyIdentity, left - 1, data[p..p + 1]);
    BodyReadIs(r, BodyIdentity, left - 1, data[p..p + 1]);
    IdentityByte(r, data, p, skip);
    if n > 1 {
      IdentityRun(r1, data, p + 1, n - 1, skip);
      BodyReadTwice(r, BodyIdentity, BodyIdentity, left - 1, left - n, data[p..p + 1], data[p + 1..p + n]);
      Slices(data, p, p + 1, p + n);
      assert p + 1 + (n - 1) == p + n && left - 1 - (n - 1) == left - n;
    }
  }

  lemma IdentityByte(r: Run, data: seq<byte>, p: nat, skip: bool)
    requires r.stop == Going && r.c.state.BodyIdentity? && 1 < r.c.contentLength && p < |data|
    ensures Exec(r, data[p..], skip) ==
      Exec(BodyRead(r, BodyIdentity, r.c.contentLength - 1, data[p..p + 1]), data[p + 1..], skip)
  {
    Tail(data, p);
    BodyByte(r, data[p..], skip, BodyIdentity, r.c.contentLength - 1);
  }

  lemma ChunkByte(r: Run, data: seq<byte>, p: nat, skip: bool)
    requires r.stop == Going && r.c.state.ChunkData? && 0 < r.c.contentLength && p < |data|
    ensures Exec(r, data[p..], skip) ==
      Exec(BodyRead(r, ChunkState(r.c.contentLength - 1), r.c.contentLength - 1, data[p..p + 1]), data[p + 1..], skip)
    ensures r.c.contentLength > 1 ==> ChunkState(r.c.contentLength - 1).ChunkData?
  {
    Tail(data, p);
    BodyByte(r, data[p..], skip, ChunkState(r.c.contentLength - 1), r.c.contentLength - 1);
  }

  function ChunkState(left: nat): State
  {
    if left == 0 then ChunkDataAlmostDone else ChunkData
  }

  lemma {:induction false} ChunkRun(r: Run, data: seq<byte>, p: nat, n: nat, skip: bool)
    requires r.stop == Going && r.c.state.ChunkData? && n <= r.c.contentLength && 0 < n && p + n <= |data|
    ensures Exec(r, data[p..], skip) ==
      Exec(BodyRead(r, ChunkState(r.c.contentLength - n), r.c.contentLength - n, data[p..p + n]), data[p + n..], skip)
    decreases n
  {
    hide *;
    var left := r.c.contentLength;
    var r1 := BodyRead(r, ChunkState(left - 1), left - 1, data[p..p + 1]);
    BodyReadIs(r, ChunkState(left - 1), left - 1, data[p..p + 1]);
    ChunkByte(r, data, p, skip);
    if n > 1 {
      ChunkRun(r1, data, p + 1, n - 1, skip);
      BodyReadTwice(r, ChunkState(left - 1), ChunkState(left - n), left - 1, left - n, data[p..p + 1],
        data[p + 1..p + n]);
      Slices(data, p, p + 1, p + n);
      assert p + 1 + (n - 1) == p + n && left - 1 - (n - 1) == left - n;
    }
  }

  lemma {:induction false} EofRun(r: Run, data: seq<byte>, p: nat, skip: bool)
    requires r.stop == Going && r.c.state.BodyIdentityEof? && p < |data|
    ensures Exec(r, data[p..], skip) == BodyRead(r, BodyIdentityEof, r.c.contentLength, data[p..|data|])
    decreases |data| - p
  {
    var left := r.c.contentLength;
    var r1 := BodyRead(r, BodyIdentityEof, left, data[p..p + 1]);
    assert r1.c.state.BodyIdentityEof? && r1.c.contentLength == left && r1.stop == Going;
    Tail(data, p);
    BodyByte(r, data[p..], skip, BodyIdentityEof, left);
    if p + 1 < |data| {
      EofRun(r1, data, p + 1, skip);
      BodyReadTwice(r, BodyIdentityEof, BodyIdentityEof, left, left, data[p..p + 1], data[p + 1..|data|]);
      Slices(data, p, p + 1, |data|);
      hide *;
    }
  }

  /** The last byte of a body with a length: it is reported, and looked at again as the end of the message. */
  lemma IdentityEnd(r: Run, s: seq<byte>, skip: bool)
    requires r.stop == Going && r.c.state.BodyIdentity? && r.c.contentLength == 1 && s != []
    requires r.pend.Open? ==> r.pend.kind == BodyData
    ensures var bytes := (if r.pend.Open? then r.pend.bytes else []) + [s[0]];
      Exec(r, s, skip) == Exec(r.(c := r.c.(state := MessageDone, contentLength := 0), pend := Closed,
                                  trace := r.trace + [Data(BodyData, bytes)]), s, skip)
  {
    var o := Step(r.c, s[0], skip);
    assert o.next == Again && o.c == r.c.(state := MessageDone, contentLength := 0);
    assert o.mark == o.flush == Some(BodyData) && o.whole && o.note.None?;
    hide Step;
    assert r.trace + [Data(BodyData, (if r.pend.Open? then r.pend.bytes else []) + [s[0]])] + [] ==
      r.trace + [Data(BodyData, (if r.pend.Open? then r.pend.bytes else []) + [s[0]])];
  }

  /** A value that nothing looks at: all bytes up to a line end are alike. */
  lemma {:induction false} GeneralRun(r: Run, data: seq<byte>, p: nat, q: nat, skip: bool)
    requires r.stop == Going && r.c.state.HeaderValue? && r.c.header.General? && r.pend.Open? && p < q <= |data|
    requires forall i :: p <= i < q ==> data[i] != CR && data[i] != LF
    ensures Exec(r, data[p..], skip) == Exec(Further(r, r.c, data[p..q]), data[q..], skip)
    decreases q - p
  {
    Tail(data, p);
    OneFurther(r, data[p..], skip, r.c);
    if p + 1 < q {
      var r1 := Further(r, r.c, data[p..p + 1]);
      assert r1.c == r.c && r1.stop == Going && r1.pend.Open?;
      hide *;
      GeneralRun(r1, data, p + 1, q, skip);
      FurtherTwice(r, r.c, r.c, data[p..p + 1], data[p + 1..q]);
      Slices(data, p, p + 1, q);
    }
  }

  /** From start on, the run has come to p, with the token still open. */
  predicate Came(r: Run, c: Core, data: seq<byte>, start: nat, p: nat, skip: bool)
  {
    start <= p <= |data| && Exec(r, data[start..], skip) == Exec(Further(r, c, data[start..p]), data[p..], skip)
  }

  lemma CameNowhere(r: Run, data: seq<byte>, p: nat, skip: bool)
    requires p <= |data|
    ensures Came(r, r.c, data, p, p, skip)
  {
    assert data[p..p] == [];
    if r.pend.Open? { assert r.pend.bytes + [] == r.pend.bytes; }
  }

  lemma CameOne(r: Run, c: Core, c': Core, data: seq<byte>, start: nat, p: nat, skip: bool)
    requires Came(r, c, data, start, p, skip) && r.stop == Going && r.pend.Open? && p < |data|
    requires Step(c, data[p], skip) == Eat(c')
    ensures Came(r, c', data, start, p + 1, skip)
  {
    var r1 := Further(r, c, data[start..p]);
    Tail(data, p);
    Slices(data, start, p, p + 1);
    FurtherTwice(r, c, c', data[start..p], data[p..p + 1]);
    assert r1.c == c && r1.stop == Going && r1.pend.Open?;
    hide Exec, Step, Further;
    OneFurther(r1, data[p..], skip, c');
  }

  lemma CameGeneral(r: Run, c: Core, data: seq<byte>, start: nat, p: nat, q: nat, skip: bool)
    requires Came(r, c, data, start, p, skip) && r.stop == Going && r.pend.Open? && p < q <= |data|
    requires c.state.HeaderValue? && c.header.General?
    requires forall i :: p <= i < q ==> data[i] != CR && data[i] != LF
    ensures Came(r, c, data, start, q, skip)
  {
    var r1 := Further(r, c, data[start..p]);
    Slices(data, start, p, q);
    FurtherTwice(r, c, c, data[start..p], data[p..q]);
    assert r1.c == c && r1.stop == Going && r1.pend.Open?;
    hide Exec, Further;
    GeneralRun(r1, data, p, q, skip);
  }

  lemma AtFurther(r: Run, c: Core, m: Marks, calls: seq<Event>, data: seq<byte>, start: nat, p: nat, c': Core)
    requires At(r, c, m, calls, data, start) && r.pend.Open? && start <= p <= |data|
    ensures At(Further(r, c', data[start..p]), c', m, calls, data, p)
  {
    var k := r.pend.kind;
    assert data[m.Get(k)..start] + data[start..p] == data[m.Get(k)..p];
  }

  lemma FailSilent(c: Core, ch: byte, skip: bool)
    ensures var o := Step(c, ch, skip); o.next == Fail ==> o.flush.None? && o.note.None? && !o.whole
  {
    ValueStartKeeps(c, ch);
    ValueNextKeeps(c, ch);
    SilentResponse(c, ch, skip);
    SilentRequest(c, ch);
    hide StepStart, StepResVersion, StepStatus, StepMethod, StepUrl, StepReqVersion, StepField, ValueStart, ValueNext;
    hide StepHeadersEnd, StepChunkSize;
  }

  predicate Silent(o: Out)
  {
    o.next == Fail ==> o.flush.None? && o.note.None? && !o.whole
  }

  lemma SilentResponse(c: Core, ch: byte, skip: bool)
    ensures Silent(StepStart(c, ch)) && Silent(StepResVersion(c, ch)) && Silent(StepStatus(c, ch))
    ensures Silent(StepHeadersEnd(c, ch, skip)) && Silent(StepChunkSize(c, ch))
  {
  }

  lemma SilentRequest(c: Core, ch: byte)
    ensures Silent(StepMethod(c, ch)) && Silent(StepUrl(c, ch)) && Silent(StepReqVersion(c, ch)) &&
      Silent(StepField(c, ch))
  {
    hide ParseUrlChar, FieldNext;
  }

  /** The first line end from p on within limit bytes, as two calls of memchr find it; the end of the buffer if none is
      there. */
  method FindLineEnd(data: seq<byte>, p: nat, limit: nat) returns (q: nat)
    requires p + limit <= |data|
    ensures p <= q <= |data| && (forall i :: p <= i < q && i < p + limit ==> data[i] != CR && data[i] != LF)
    ensures q == |data| || (q < p + limit && (data[q] == CR || data[q] == LF))
  {
    var cr, lf := p, p;
    while cr < p + limit && data[cr] != CR
      invariant p <= cr <= p + limit && forall i :: p <= i < cr ==> data[i] != CR
    {
      cr := cr + 1;
    }
    while lf < p + limit && data[lf] != LF
      invariant p <= lf <= p + limit && forall i :: p <= i < lf ==> data[i] != LF
    {
      lf := lf + 1;
    }
    q := if cr < p + limit then (if lf < p + limit && cr >= lf then lf else cr) else if lf < p + limit then lf
      else |data|;
  }

  /** A call has come to position p with these fields, marks and callbacks; the run that started as r0 is r there. */
  ghost predicate Good(r0: Run, r: Run, c: Core, m: Marks, calls: seq<Event>, data: seq<byte>, p: nat, skip: bool)
  {
    At(r, c, m, calls, data, p) && Exec(r0, data, skip) == Exec(r, data[p..], skip) && PendOk(c.state, r.pend) && Inv(c)
  }

  /** A call ends before the buffer does, with what the run gives. */
  ghost predicate Ended(r0: Run, c: Core, calls: seq<Event>, data: seq<byte>, used: nat, skip: bool)
  {
    var f := Exec(r0, data, skip);
    f.stop != Going && f.c == c && f.used == used && f.trace == calls && (c.errno == OK ==> Inv(c)) &&
      c.errno != HeaderOverflow
  }

  /** What one pass does to a call. */
  lemma PassFacts(r0: Run, r: Run, c: Core, m: Marks, calls: seq<Event>, data: seq<byte>, p: nat, skip: bool)
    requires Good(r0, r, c, m, calls, data, p, skip) && p < |data|
    ensures var o := Step(c, data[p], skip); o.next == Fail ==> Ended(r0, o.c, calls, data, p, skip) && o.c.errno != OK
    ensures var o := Step(c, data[p], skip); var m1 := MarkAt(m, o.mark, p);
      var calls' := calls + CallData(m1, o.flush, data, if o.whole then p + 1 else p) + Notes(o.note);
      (o.next == Leave ==> Ended(r0, o.c, calls', data, p + 1, skip)) &&
      (o.next == Again ==> Good(r0, Apply(r, o, data[p]), o.c, ClearMark(m1, o.flush), calls', data, p, skip)) &&
      (o.next == Consume ==> Good(r0, Apply(r, o, data[p]), o.c, ClearMark(m1, o.flush), calls', data, p + 1, skip))
    ensures var o := Step(c, data[p], skip); o.next != Fail && o.c.state.ChunkSizeStart? ==> o.reset
    ensures var o := Step(c, data[p], skip); o.next == Again ==> Rank(o.c.state) < Rank(c.state)
  {
    var o := Step(c, data[p], skip);
    StepFine(r, data[p], skip);
    StepFits(r, data[p], skip);
    FailSilent(c, data[p], skip);
    if o.next == Again { AgainDescends(c, data[p], skip); }
    if o.next != Fail { StepKeeps(c, data[p], skip); }
    PassIs(r, o, m, data, p);
    assert data[p..][1..] == data[p + 1..];
    assert r.trace + [] + [] == r.trace;
    hide Step, Inv, PendOk, MarksAre, CallData, Rank, Fits;
    ExecOnce(r, data[p..], skip);
  }

  // ---- The inner loops, as they move a call on -----------------------------------------

  lemma GoodFurther(r0: Run, r: Run, c: Core, m: Marks, calls: seq<Event>, data: seq<byte>, start: nat, p: nat,
      c': Core, skip: bool)
    requires Good(r0, r, c, m, calls, data, start, skip) && r.pend.Open? && Came(r, c', data, start, p, skip)
    requires Inv(c') && c'.state == c.state
    ensures Good(r0, Further(r, c', data[start..p]), c', m, calls, data, p, skip)
  {
    AtFurther(r, c, m, calls, data, start, p, c');
    hide Exec, Inv, At, MarksAre;
  }

  /** A byte of a value that is refused ends the call. */
  lemma ValueFails(r0: Run, r: Run, c: Core, m: Marks, calls: seq<Event>, data: seq<byte>, start: nat, p: nat, c': Core,
      skip: bool)
    requires Good(r0, r, c, m, calls, data, start, skip) && r.pend.Open? && Came(r, c', data, start, p, skip)
    requires Inv(c') && c'.state == c.state && c.state.HeaderValue? && p < |data| && data[p] != CR && data[p] != LF
    requires ValueNext(c', data[p]).next == Fail
    ensures Ended(r0, ValueNext(c', data[p]).c, calls, data, p, skip)
  {
    GoodFurther(r0, r, c, m, calls, data, start, p, c', skip);
    var r1 := Further(r, c', data[start..p]);
    assert Step(c', data[p], skip) == ValueNext(c', data[p]);
    PassFacts(r0, r1, c', m, calls, data, p, skip);
  }

  /** What is needed of a state further on. */
  lemma Move(r0: Run, r: Run, c: Core, m: Marks, calls: seq<Event>, data: seq<byte>, p: nat,
             r': Run, c': Core, m': Marks, calls': seq<Event>, p': nat, skip: bool)
    requires Good(r0, r, c, m, calls, data, p, skip) && At(r', c', m', calls', data, p')
    requires Exec(r, data[p..], skip) == Exec(r', data[p'..], skip) && PendOk(c'.state, r'.pend) && Inv(c')
    ensures Good(r0, r', c', m', calls', data, p', skip)
  {
    hide Exec, At, PendOk, Inv;
  }

  lemma GoodParts(r0: Run, r: Run, c: Core, m: Marks, calls: seq<Event>, data: seq<byte>, p: nat, skip: bool)
    requires Good(r0, r, c, m, calls, data, p, skip)
    ensures r.c == c && r.stop == Going && r.used == p && r.trace == calls && p <= |data| &&
      MarksAre(m, r.pend, data, p)
    ensures PendOk(c.state, r.pend) && Inv(c)
    ensures c.state.BodyIdentity? || c.state.BodyIdentityEof? || c.state.ChunkData? ==>
      (r.pend.Open? ==> r.pend.kind == BodyData)
    ensures c.state.BodyIdentity? || c.state.ChunkData? ==> 0 < c.contentLength < ULLONG_MAX
  {
    hide Exec;
  }

  lemma BodyReadAt(r: Run, s: State, left: nat, m: Marks, data: seq<byte>, p: nat, n: nat)
    requires r.stop == Going && r.used == p && p + n <= |data| && MarksAre(m, r.pend, data, p)
    requires r.pend.Open? ==> r.pend.kind == BodyData
    ensures var r' := BodyRead(r, s, left, data[p..p + n]);
      At(r', r.c.(state := s, contentLength := left), MarkAt(m, Some(BodyData), p), r.trace, data, p + n) &&
      r'.pend.Open? && r'.pend.kind == BodyData && 0 <= MarkAt(m, Some(BodyData), p).body <= p
  {
    BodyMark(r, m, data, p, n);
    hide MarksAre, MarkAt;
  }

  lemma BodyInv(c: Core, s: State, left: nat, pend: Pend)
    requires Inv(c) && left <= c.contentLength
    requires (s.BodyIdentity? && c.state.BodyIdentity? && 0 < left) || (s.MessageDone? && c.state.BodyIdentity?) ||
      (s.ChunkData? && c.state.ChunkData? && 0 < left) || (s.ChunkDataAlmostDone? && c.state.ChunkData? && left == 0) ||
      (s.BodyIdentityEof? && c.state.BodyIdentityEof?)
    ensures Inv(c.(state := s, contentLength := left))
    ensures InBody(s) && pend.Open? && pend.kind == BodyData ==> PendOk(s, pend)
    ensures s.MessageDone? && pend.Closed? ==> PendOk(s, pend)
  {
    hide FieldHeader, ValueHeader, MethodName;
  }

  lemma ChunkInv(c: Core, left: nat, r: Run, more: seq<byte>)
    requires Inv(c) && c.state.ChunkData? && left < c.contentLength
    requires r.pend.Open? ==> r.pend.kind == BodyData
    ensures Inv(c.(state := ChunkState(left), contentLength := left)) && !ChunkState(left).ChunkSizeStart?
    ensures PendOk(ChunkState(left), BodyRead(r, ChunkState(left), left, more).pend)
  {
  }

  lemma IdentityInv(c: Core, left: nat, r: Run, more: seq<byte>)
    requires Inv(c) && c.state.BodyIdentity? && 0 < left < c.contentLength
    requires r.pend.Open? ==> r.pend.kind == BodyData
    ensures Inv(c.(state := BodyIdentity, contentLength := left))
    ensures PendOk(BodyIdentity, BodyRead(r, BodyIdentity, left, more).pend)
  {
  }

  /** The part of a body with a length that this buffer holds, when that is not all of it. */
  lemma IdentityPart(r0: Run, r: Run, c: Core, m: Marks, calls: seq<Event>, data: seq<byte>, p: nat, n: nat, skip: bool)
    returns (r': Run)
    requires Good(r0, r, c, m, calls, data, p, skip) && c.state.BodyIdentity? && p + n <= |data| &&
      0 < n < c.contentLength
    ensures Good(r0, r', c.(state := BodyIdentity, contentLength := c.contentLength - n), MarkAt(m, Some(BodyData), p),
      calls, data,
                 p + n, skip)
  {
    hide *;
    GoodParts(r0, r, c, m, calls, data, p, skip);
    IdentityInv(c, c.contentLength - n, r, data[p..p + n]);
    BodyReadAt(r, BodyIdentity, c.contentLength - n, m, data, p, n);
    IdentityRun(r, data, p, n, skip);
    r' := BodyRead(r, BodyIdentity, c.contentLength - n, data[p..p + n]);
    Move(r0, r, c, m, calls, data, p, r', c.(state := BodyIdentity, contentLength := c.contentLength - n),
      MarkAt(m, Some(BodyData), p),
         calls, p + n, skip);
  }

  /** The rest of the body is in this buffer: its last byte is reported with it, and looked at again. */
  lemma IdentityLast(r0: Run, r: Run, c: Core, m: Marks, calls: seq<Event>, data: seq<byte>, p: nat, n: nat, skip: bool)
    returns (r': Run)
    requires Good(r0, r, c, m, calls, data, p, skip) && c.state.BodyIdentity? && p + n <= |data| && n == c.contentLength
    ensures var m1 := MarkAt(m, Some(BodyData), p);
      n > 0 && 0 <= m1.body <= p &&
      Good(r0, r', c.(contentLength := 0, state := MessageDone), ClearMark(m1, Some(BodyData)),
           calls + [Data(BodyData, data[m1.body..p + n])], data, p + n - 1, skip)
  {
    hide *;
    GoodParts(r0, r, c, m, calls, data, p, skip);
    BodyInv(c, MessageDone, 0, Closed);
    var r1 := if n > 1 then BodyRead(r, BodyIdentity, 1, data[p..p + n - 1]) else r;
    LastBytes(r, r1, m, data, p, n);
    var bytes := (if r1.pend.Open? then r1.pend.bytes else []) + [data[p + n - 1]];
    LastRun(r, r1, c, data, p, n, skip);
    var c' := c.(contentLength := 0, state := MessageDone);
    r' := Run(c', Closed, calls + [Data(BodyData, bytes)], Going, p + n - 1);
    ClosedAt(r', data, p + n - 1);
    Move(r0, r, c, m, calls, data, p, r', c', NO_MARKS, calls + [Data(BodyData, bytes)], p + n - 1, skip);
  }

  lemma ClosedAt(r: Run, data: seq<byte>, p: nat)
    requires r.pend.Closed? && r.stop == Going && r.used == p <= |data|
    ensures At(r, r.c, NO_MARKS, r.trace, data, p)
  {
  }

  lemma LastRun(r: Run, r1: Run, c: Core, data: seq<byte>, p: nat, n: nat, skip: bool)
    requires 0 < n && p + n <= |data| && r.c == c && r.stop == Going && r.used == p && c.state.BodyIdentity? &&
      c.contentLength == n
    requires r1 == if n > 1 then BodyRead(r, BodyIdentity, 1, data[p..p + n - 1]) else r
    requires r1.pend.Open? ==> r1.pend.kind == BodyData
    ensures var bytes := (if r1.pend.Open? then r1.pend.bytes else []) + [data[p + n - 1]];
      Exec(r, data[p..], skip) == Exec(Run(c.(contentLength := 0, state := MessageDone), Closed,
        r.trace + [Data(BodyData, bytes)],
                                           Going, p + n - 1), data[p + n - 1..], skip)
  {
    hide *;
    Tail(data, p + n - 1);
    if n > 1 {
      IdentityRun(r, data, p, n - 1, skip);
      BodyReadIs(r, BodyIdentity, 1, data[p..p + n - 1]);
      assert c.contentLength - (n - 1) == 1 && p + (n - 1) == p + n - 1;
    }
    IdentityEnd(r1, data[p + n - 1..], skip);
  }

  lemma LastBytes(r: Run, r1: Run, m: Marks, data: seq<byte>, p: nat, n: nat)
    requires 0 < n && p + n <= |data| && MarksAre(m, r.pend, data, p) && (r.pend.Open? ==> r.pend.kind == BodyData)
    requires r1 == if n > 1 then BodyRead(r, BodyIdentity, 1, data[p..p + n - 1]) else r
    ensures var m1 := MarkAt(m, Some(BodyData), p);
      0 <= m1.body <= p && (if r1.pend.Open? then r1.pend.bytes else []) + [data[p + n - 1]] == data[m1.body..p + n] &&
      ClearMark(m1, Some(BodyData)) == NO_MARKS && (r1.pend.Open? ==> r1.pend.kind == BodyData)
  {
    var m1 := MarkAt(m, Some(BodyData), p);
    if n > 1 {
      BodyMark(r, m, data, p, n - 1);
      assert data[m1.body..p + n - 1] + [data[p + n - 1]] == data[m1.body..p + n];
    } else if r.pend.Open? {
      assert data[m1.body..p] + [data[p]] == data[m1.body..p + 1];
    } else {
      assert [] + [data[p]] == data[p..p + 1];
    }
  }

  /** A body's bytes, from its mark on. */
  lemma BodyMark(r: Run, m: Marks, data: seq<byte>, p: nat, n: nat)
    requires p + n <= |data| && MarksAre(m, r.pend, data, p) && (r.pend.Open? ==> r.pend.kind == BodyData)
    ensures MarksAre(MarkAt(m, Some(BodyData), p), With(Marked(r.pend, Some(BodyData)), data[p..p + n]), data, p + n)
    ensures 0 <= MarkAt(m, Some(BodyData), p).body <= p
  {
    if r.pend.Open? {
      assert data[m.body..p] + data[p..p + n] == data[m.body..p + n];
    } else {
      assert [] + data[p..p + n] == data[p..p + n];
    }
  }

  lemma ChunkFacts(r0: Run, r: Run, c: Core, m: Marks, calls: seq<Event>, data: seq<byte>, p: nat, n: nat, skip: bool)
    returns (r': Run)
    requires Good(r0, r, c, m, calls, data, p, skip) && c.state.ChunkData? && p + n <= |data| &&
      0 < n <= c.contentLength
    ensures var left := c.contentLength - n;
      Good(r0, r', c.(state := ChunkState(left), contentLength := left), MarkAt(m, Some(BodyData), p), calls, data,
        p + n, skip)
    ensures !ChunkState(c.contentLength - n).ChunkSizeStart?
  {
    hide *;
    var left := c.contentLength - n;
    var st := ChunkState(left);
    GoodParts(r0, r, c, m, calls, data, p, skip);
    ChunkInv(c, left, r, data[p..p + n]);
    BodyReadAt(r, st, left, m, data, p, n);
    ChunkRun(r, data, p, n, skip);
    r' := BodyRead(r, st, left, data[p..p + n]);
    Move(r0, r, c, m, calls, data, p, r', c.(state := st, contentLength := left), MarkAt(m, Some(BodyData), p), calls,
      p + n, skip);
  }

  lemma ExecNothing(r: Run, skip: bool)
    ensures Exec(r, [], skip) == r && InBody(BodyIdentityEof)
  {
  }

  lemma EofFacts(r0: Run, r: Run, c: Core, m: Marks, calls: seq<Event>, data: seq<byte>, p: nat, skip: bool)
    returns (r': Run)
    requires Good(r0, r, c, m, calls, data, p, skip) && c.state.BodyIdentityEof? && p < |data|
    ensures Good(r0, r', c, MarkAt(m, Some(BodyData), p), calls, data, |data|, skip)
  {
    hide *;
    r' := BodyRead(r, BodyIdentityEof, c.contentLength, data[p..p + (|data| - p)]);
    GoodParts(r0, r, c, m, calls, data, p, skip);
    BodyInv(c, BodyIdentityEof, c.contentLength, r'.pend);
    BodyReadAt(r, BodyIdentityEof, c.contentLength, m, data, p, |data| - p);
    EofRun(r, data, p, skip);
    ExecNothing(r', skip);
    assert data[|data|..] == [];
    assert c.(state := BodyIdentityEof, contentLength := c.contentLength) == c;
    Move(r0, r, c, m, calls, data, p, r', c, MarkAt(m, Some(BodyData), p), calls, |data|, skip);
  }

  /** How a part of the loop ends: the loop goes on, the call is over, or too many header bytes were counted. */
  datatype End = More | Done | Over

  class Parser {
    var c: Core
    var nread: nat

    predicate Ok()
      reads this
    {
      nread < UINT32_MODULUS && (c.errno == OK ==> Inv(c) && CountOk(c, nread) && nread <= HTTP_MAX_HEADER_SIZE)
    }

    constructor (t: ParserType)
      ensures Ok() && c == Init(t) && nread == 0
    {
      c, nread := Init(t), 0;
      InitOk(t);
    }

    /** Counts n header bytes, in 32 bits; reports an overflow of the limit. */
    method Count(n: int) returns (over: bool)
      modifies this
      ensures nread == (old(nread) + n) % UINT32_MODULUS && (over <==> nread > HTTP_MAX_HEADER_SIZE)
      ensures c == if over then old(c).(errno := HeaderOverflow) else old(c)
    {
      nread := (nread + n) % UINT32_MODULUS;
      over := nread > HTTP_MAX_HEADER_SIZE;
      if over {
        c := c.(errno := HeaderOverflow);
      }
    }

    /** One pass through the switch. */
    method Pass(data: seq<byte>, p: nat, m: Marks, calls: seq<Event>, skip: bool, ghost r0: Run, ghost r: Run)
      returns (done: bool, p': nat, m': Marks, calls': seq<Event>, ghost r': Run)
      requires Good(r0, r, c, m, calls, data, p, skip) && p < |data|
      modifies this
      ensures c.errno == OK && c.state.ChunkSizeStart? ==> nread == 0
      ensures var o := Step(old(c), data[p], skip); nread == if o.reset && o.next != Fail then 0 else old(nread)
      ensures var o := Step(old(c), data[p], skip); c == o.c && (done <==> o.next == Fail || o.next == Leave)
      ensures var o := Step(old(c), data[p], skip); !done ==> p' == (if o.next == Again then p else p + 1)
      ensures done ==> Ended(r0, c, calls', data, p', skip)
      ensures !done ==>
        Good(r0, r', c, m', calls', data, p', skip) && (p' == p + 1 || (p' == p && Rank(c.state) < Rank(old(c.state))))
    {
      var ch := data[p];
      PassFacts(r0, r, c, m, calls, data, p, skip);
      hide *;
      var o := Step(c, ch, skip);
      c := o.c;
      m' := MarkAt(m, o.mark, p);
      if o.next == Fail {
        done, p', calls', r' := true, p, calls, r;
      } else {
        calls' := calls + CallData(m', o.flush, data, if o.whole then p + 1 else p) + Notes(o.note);
        m' := ClearMark(m', o.flush);
        r' := Apply(r, o, ch);
        if o.reset {
          nread := 0;
        }
        done := o.next == Leave;
        p' := if o.next == Again then p else p + 1;
      }
    }

    /** The loop over the characters of a header field's name. */
    method FieldPass(data: seq<byte>, start: nat, m: Marks, calls: seq<Event>, skip: bool, ghost r0: Run, ghost r: Run)
      returns (end: End, p: nat, m': Marks, calls': seq<Event>, ghost r': Run)
      requires Good(r0, r, c, m, calls, data, start, skip) && start < |data| && c.state.HeaderField?
      requires nread <= HTTP_MAX_HEADER_SIZE && nread + 2 * |data| < UINT32_MODULUS
      modifies this
      ensures end == Over ==>
        c.errno == HeaderOverflow && HTTP_MAX_HEADER_SIZE < nread < UINT32_MODULUS &&
        old(nread) + (|data| - start) > HTTP_MAX_HEADER_SIZE
      ensures end != Over ==> nread <= HTTP_MAX_HEADER_SIZE && (c.errno == OK && c.state.ChunkSizeStart? ==> nread == 0)
      ensures end == Done ==> Ended(r0, c, calls', data, p, skip)
      ensures end == More ==>
        Good(r0, r', c, m', calls', data, p, skip) && start < p && nread <= old(nread) + (p - start)
    {
      hide *;
      p, m', calls', r' := start, m, calls, r;
      CameNowhere(r, data, start, skip);
      GoodParts(r0, r, c, m, calls, data, start, skip);
      TokenOpen(r, c);
      ghost var c0 := c;
      while p < |data| && Token(data[p]) != 0
        invariant start <= p <= |data| && Came(r, c, data, start, p, skip) && Inv(c) && c.state.HeaderField?
        invariant nread == old(nread)
      {
        assert FieldHeader(c.header, c.index) by { FieldAsserts(c); }
        FieldNextOk(c, Token(data[p]), data[p]);
        FieldStep(c, data[p], skip);
        CameOne(r, c, FieldNext(c, Token(data[p]), data[p]), data, start, p, skip);
        c := FieldNext(c, Token(data[p]), data[p]);
        p := p + 1;
      }
      GoodFurther(r0, r, c0, m, calls, data, start, p, c, skip);
      r' := Further(r, c, data[start..p]);
      var over := Count(p - start);
      CountBound(old(nread), p - start);
      if over {
        end := Over;
      } else if p == |data| {
        end := More;
        if c.state.ChunkSizeStart? { assert false; }
      } else {
        ColonStep(c, data[p], skip);
        var done;
        done, p, m', calls', r' := Pass(data, p, m, calls, skip, r0, r');
        end := if done then Done else More;
      }
    }

    /** What counting does when 32 bits suffice. */
    static lemma CountBound(n: nat, k: int)
      requires 0 <= n + k < UINT32_MODULUS
      ensures (n + k) % UINT32_MODULUS == n + k && HTTP_MAX_HEADER_SIZE < UINT32_MODULUS
    {
    }

    static lemma FieldAsserts(c: Core)
      requires Inv(c) && c.state.HeaderField?
      ensures FieldHeader(c.header, c.index)
    {
    }

    static lemma TokenOpen(r: Run, c: Core)
      requires PendOk(c.state, r.pend) && (c.state.HeaderField? || c.state.HeaderValue?)
      ensures r.pend.Open?
    {
    }

    static lemma FieldStep(c: Core, ch: byte, skip: bool)
      requires c.state.HeaderField? && Token(ch) != 0
      ensures Step(c, ch, skip) == Eat(FieldNext(c, Token(ch), ch))
    {
    }

    static lemma ColonStep(c: Core, ch: byte, skip: bool)
      requires c.state.HeaderField? && Token(ch) == 0
      ensures Step(c, ch, skip).next != Again && Rank(c.state) == 0
    {
    }

    /** The loop over the characters of a header's value. */
    method ScanValue(data: seq<byte>, start: nat, skip: bool, ghost r: Run)
        returns (p: nat, failed: bool, ghost far: bool)
      requires r.c == c && r.stop == Going && r.pend.Open? && Inv(c) && c.state.HeaderValue? && start < |data|
      modifies this`c
      ensures start <= p <= |data|
      ensures far ==> !failed && p == |data| && p - start > HTTP_MAX_HEADER_SIZE && c.state.HeaderValue? && Inv(c)
      ensures !far && !failed ==> Came(r, c, data, start, p, skip) && Inv(c) && c.state.HeaderValue?
      ensures !far && !failed && p < |data| ==> data[p] == CR || data[p] == LF
      ensures failed ==>
        p < |data| && exists c1 :: Refused(r, c1, data, start, p, skip) && c == ValueNext(c1, data[p]).c
    {
      hide *;
      p, failed, far := start, false, false;
      CameNowhere(r, data, start, skip);
      while p < |data| && data[p] != CR && data[p] != LF
        invariant start <= p <= |data| && Inv(c) && c.state.HeaderValue?
        invariant far ==> p == |data| && p - start > HTTP_MAX_HEADER_SIZE
        invariant !far ==> Came(r, c, data, start, p, skip)
        decreases |data| - p
      {
        ValueAsserts(c);
        assert !c.header.Connection? && !c.header.TransferEncoding?;
        if c.header.General? {
          var limit := if |data| - p < HTTP_MAX_HEADER_SIZE then |data| - p else HTTP_MAX_HEADER_SIZE;
          LimitPositive(limit, |data| - p);
          var q := FindLineEnd(data, p, limit);
          far := q == |data| && limit < |data| - p;
          if !far {
            CameGeneral(r, c, data, start, p, q, skip);
          }
          p := q;
        } else {
          var o := ValueNext(c, data[p]);
          ValueNextOk(c, data[p]);
          ValueNextKeeps(c, data[p]);
          if o.next == Fail {
            failed := true;
            assert Refused(r, c, data, start, p, skip) by { RefusedIs(r, c, data, start, p, skip); }
            c := o.c;
            return;
          }
          ValueStep(c, data[p], skip);
          CameOne(r, c, o.c, data, start, p, skip);
          c := o.c;
          p := p + 1;
        }
      }
    }

    static lemma LimitPositive(limit: nat, rest: int)
      requires rest > 0 && limit == if rest < HTTP_MAX_HEADER_SIZE then rest else HTTP_MAX_HEADER_SIZE
      ensures 0 < limit <= rest && (limit < rest ==> rest > HTTP_MAX_HEADER_SIZE)
    {
    }

    /** The run has come to p in c, where the byte is refused. */
    static ghost predicate Refused(r: Run, c: Core, data: seq<byte>, start: nat, p: nat, skip: bool)
    {
      Came(r, c, data, start, p, skip) && Inv(c) && c.state.HeaderValue? && p < |data| && data[p] != CR &&
        data[p] != LF &&
      ValueNext(c, data[p]).next == Fail
    }

    static lemma RefusedIs(r: Run, c: Core, data: seq<byte>, start: nat, p: nat, skip: bool)
      requires Came(r, c, data, start, p, skip) && Inv(c) && c.state.HeaderValue? && p < |data| && data[p] != CR &&
        data[p] != LF
      requires ValueNext(c, data[p]).next == Fail
      ensures Refused(r, c, data, start, p, skip)
    {
    }

    static lemma ValueAsserts(c: Core)
      requires Inv(c) && c.state.HeaderValue?
      ensures !c.header.Connection? && !c.header.TransferEncoding?
    {
    }

    static lemma ValueStep(c: Core, ch: byte, skip: bool)
      requires c.state.HeaderValue? && ch != CR && ch != LF && ValueNext(c, ch).next != Fail
      ensures Step(c, ch, skip) == Eat(ValueNext(c, ch).c)
    {
      ValueNextEats(c, ch);
      hide ValueNext;
    }

    static lemma ValueNextEats(c: Core, ch: byte)
      ensures ValueNext(c, ch).next != Fail ==> ValueNext(c, ch) == Eat(ValueNext(c, ch).c)
    {
    }

    static lemma LineEndStep(c: Core, ch: byte, skip: bool)
      requires c.state.HeaderValue? && (ch == CR || ch == LF)
      ensures var o := Step(c, ch, skip);
        o.c.state == HeaderAlmostDone && o.next == (if ch == CR then Consume else Again) && !o.reset
      ensures Rank(HeaderAlmostDone) == 0 && CR != LF && Rank(c.state) == 1
    {
    }

    /** A header's value: the scan, the line end and the count of its bytes. */
    method ValuePass(data: seq<byte>, start: nat, m: Marks, calls: seq<Event>, skip: bool, ghost r0: Run, ghost r: Run)
      returns (end: End, p: nat, m': Marks, calls': seq<Event>, ghost r': Run)
      requires Good(r0, r, c, m, calls, data, start, skip) && start < |data| && c.state.HeaderValue?
      requires 1 <= nread <= HTTP_MAX_HEADER_SIZE && nread + 2 * |data| < UINT32_MODULUS
      modifies this
      ensures end == Over ==> c.errno == HeaderOverflow && HTTP_MAX_HEADER_SIZE < nread < UINT32_MODULUS
      ensures end == Over ==> old(nread) + 2 * (|data| - start) > HTTP_MAX_HEADER_SIZE
      ensures end != Over ==> nread <= HTTP_MAX_HEADER_SIZE && (c.errno == OK ==> !c.state.ChunkSizeStart?)
      ensures end == Done ==> Ended(r0, c, calls', data, p, skip)
      ensures end == More ==> Good(r0, r', c, m', calls', data, p, skip) && nread <= old(nread) + 2 * (p - start)
      ensures end == More ==> start <= p && (p == start ==> c.state.HeaderAlmostDone?)
    {
      hide *;
      GoodParts(r0, r, c, m, calls, data, start, skip);
      TokenOpen(r, c);
      ghost var c0 := c;
      m', calls', r' := m, calls, r;
      var failed;
      ghost var far;
      p, failed, far := ScanValue(data, start, skip, r);
      CountBound(old(nread), p - start);
      if failed {
        ghost var c1 :| Refused(r, c1, data, start, p, skip) && c == ValueNext(c1, data[p]).c;
        RefusedEnds(r0, r, c0, m, calls, data, start, p, c1, skip);
        end := Done;
        return;
      }
      if !far {
        GoodFurther(r0, r, c0, m, calls, data, start, p, c, skip);
        r' := Further(r, c, data[start..p]);
      }
      if p < |data| && data[p] == CR {
        LineEndStep(c, data[p], skip);
        var done, p1;
        done, p1, m', calls', r' := Pass(data, p, m, calls, skip, r0, r');
        CountBound(nread, p - start);
        var over := Count(p - start);
        end := if over then Over else More;
        p := p1;
      } else if p < |data| && data[p] == LF {
        end, p, m', calls', r' := AtLineFeed(data, start, p, m, calls, skip, r0, r');
      } else {
        var over := Count(p - start);
        end := if over then Over else More;
      }
    }

    /** A value that ends with a line feed: its bytes are counted twice, the second time without the last. */
    method AtLineFeed(data: seq<byte>, start: nat, p: nat, m: Marks, calls: seq<Event>, skip: bool, ghost r0: Run,
        ghost r: Run)
      returns (end: End, p': nat, m': Marks, calls': seq<Event>, ghost r': Run)
      requires Good(r0, r, c, m, calls, data, p, skip) && start <= p < |data| && c.state.HeaderValue? && data[p] == LF
      requires 1 <= nread <= HTTP_MAX_HEADER_SIZE && nread + 2 * |data| < UINT32_MODULUS
      modifies this
      ensures end == Over ==> c.errno == HeaderOverflow && HTTP_MAX_HEADER_SIZE < nread < UINT32_MODULUS
      ensures end == Over ==> old(nread) + 2 * (p - start) > HTTP_MAX_HEADER_SIZE
      ensures end != Over ==> nread <= HTTP_MAX_HEADER_SIZE && c.state.HeaderAlmostDone? && end == More && p' == p
      ensures end == More ==> Good(r0, r', c, m', calls', data, p', skip) && nread <= old(nread) + 2 * (p - start)
    {
      hide *;
      p', m', calls', r' := p, m, calls, r;
      LineEndStep(c, data[p], skip);
      CountBound(nread, p - start);
      var over := Count(p - start);
      if over {
        end := Over;
      } else {
        var done;
        done, p', m', calls', r' := Pass(data, p, m, calls, skip, r0, r);
        CountBound(nread, p - 1 - start);
        over := Count(p - 1 - start);
        end := if over then Over else More;
      }
    }

    static lemma RefusedEnds(r0: Run, r: Run, c: Core, m: Marks, calls: seq<Event>, data: seq<byte>, start: nat, p: nat,
                             c1: Core, skip: bool)
      requires Good(r0, r, c, m, calls, data, start, skip) && r.pend.Open? && c.state.HeaderValue?
      requires Refused(r, c1, data, start, p, skip)
      ensures p < |data| && Ended(r0, ValueNext(c1, data[p]).c, calls, data, p, skip) &&
        ValueNext(c1, data[p]).c.errno != OK
    {
      assert Came(r, c1, data, start, p, skip) && Inv(c1);
      ValueNextKeeps(c1, data[p]);
      hide Came, Good, Inv, ValueNext, Ended;
      ValueFails(r0, r, c, m, calls, data, start, p, c1, skip);
    }

    /** What a body with a length has in this buffer, at once. */
    method IdentityPass(data: seq<byte>, p: nat, m: Marks, calls: seq<Event>, skip: bool, ghost r0: Run, ghost r: Run)
      returns (p': nat, m': Marks, calls': seq<Event>, ghost r': Run)
      requires Good(r0, r, c, m, calls, data, p, skip) && p < |data| && c.state.BodyIdentity?
      modifies this`c
      ensures Good(r0, r', c, m', calls', data, p', skip) && !c.state.ChunkSizeStart?
      ensures p' > p || (p' == p && c.state.MessageDone?)
    {
      hide *;
      GoodParts(r0, r, c, m, calls, data, p, skip);
      var toRead := if c.contentLength < |data| - p then c.contentLength else |data| - p;
      assert c.contentLength != 0 && c.contentLength != ULLONG_MAX;
      m' := MarkAt(m, Some(BodyData), p);
      var left := c.contentLength - toRead;
      if left == 0 {
        r' := IdentityLast(r0, r, c, m, calls, data, p, toRead, skip);
        c := c.(contentLength := 0, state := MessageDone);
        calls' := calls + [Data(BodyData, data[m'.body..p + toRead])];
        m' := ClearMark(m', Some(BodyData));
        p' := p + toRead - 1;
      } else {
        r' := IdentityPart(r0, r, c, m, calls, data, p, toRead, skip);
        c := c.(state := BodyIdentity, contentLength := left);
        calls' := calls;
        p' := p + toRead;
      }
    }

    /** What a chunk has in this buffer, at once. */
    method ChunkPass(data: seq<byte>, p: nat, m: Marks, calls: seq<Event>, skip: bool, ghost r0: Run, ghost r: Run)
      returns (p': nat, m': Marks, ghost r': Run)
      requires Good(r0, r, c, m, calls, data, p, skip) && p < |data| && c.state.ChunkData?
      modifies this`c
      ensures Good(r0, r', c, m', calls, data, p', skip) && !c.state.ChunkSizeStart? && p' > p
    {
      hide *;
      GoodParts(r0, r, c, m, calls, data, p, skip);
      var toRead := if c.contentLength < |data| - p then c.contentLength else |data| - p;
      assert c.contentLength != 0 && c.contentLength != ULLONG_MAX;
      m' := MarkAt(m, Some(BodyData), p);
      r' := ChunkFacts(r0, r, c, m, calls, data, p, toRead, skip);
      var left := c.contentLength - toRead;
      c := c.(state := ChunkState(left), contentLength := left);
      p' := p + toRead;
    }

    static lemma Ranks(s: State)
      ensures Rank(s) <= 4 && (s.HeaderAlmostDone? || s.MessageDone? ==> Rank(s) == 0) &&
        (s.HeaderValue? || s.BodyIdentity? ==> Rank(s) == 1)
    {
    }

    /** A body is read as far as the buffer goes. */
    method BodyPass(data: seq<byte>, p: nat, m: Marks, calls: seq<Event>, skip: bool, ghost r0: Run, ghost r: Run)
      returns (p': nat, m': Marks, calls': seq<Event>, ghost r': Run)
      requires Good(r0, r, c, m, calls, data, p, skip) && p < |data|
      requires c.state.BodyIdentity? || c.state.BodyIdentityEof? || c.state.ChunkData?
      modifies this`c
      ensures Good(r0, r', c, m', calls', data, p', skip) && !c.state.ChunkSizeStart?
      ensures p' > p || (p' == p && old(c).state.BodyIdentity? && c.state.MessageDone?)
    {
      hide *;
      p', m', calls', r' := p, m, calls, r;
      if c.state.BodyIdentity? {
        p', m', calls', r' := IdentityPass(data, p, m, calls, skip, r0, r);
      } else if c.state.BodyIdentityEof? {
        r' := EofFacts(r0, r, c, m, calls, data, p, skip);
        m' := MarkAt(m, Some(BodyData), p);
        p' := |data|;
      } else {
        p', m', r' := ChunkPass(data, p, m, calls, skip, r0, r);
      }
    }

    /** The pass for one position, with whatever inner loop the state has. */
    method Visit(data: seq<byte>, p: nat, m: Marks, calls: seq<Event>, skip: bool, ghost r0: Run, ghost r: Run)
      returns (end: End, p': nat, m': Marks, calls': seq<Event>, ghost r': Run)
      requires Good(r0, r, c, m, calls, data, p, skip) && p < |data| && CountOk(c, nread)
      requires nread <= HTTP_MAX_HEADER_SIZE && |data| <= 0x7000_0000
      modifies this
      ensures end == Over ==> c.errno == HeaderOverflow && HTTP_MAX_HEADER_SIZE < nread < UINT32_MODULUS
      ensures end == Over ==> old(nread) + 1 + 2 * (|data| - p) > HTTP_MAX_HEADER_SIZE
      ensures end != Over ==> nread <= HTTP_MAX_HEADER_SIZE && (c.errno == OK ==> CountOk(c, nread))
      ensures end == Done ==> Ended(r0, c, calls', data, p', skip)
      ensures end == More ==> Good(r0, r', c, m', calls', data, p', skip) && nread <= old(nread) + 1 + 2 * (p' - p)
      ensures end == More ==> p' > p || (p' == p && Rank(c.state) < Rank(old(c.state)))
    {
      hide *;
      CountIs(c, nread);
      Limits(nread, |data|);
      GoodParts(r0, r, c, m, calls, data, p, skip);
      InvAsserts(c, nread);
      Ranks(c.state);
      p', m', calls', r' := p, m, calls, r;
      if ParsingHeader(c.state) {
        CountBound(nread, 1);
        var over := Count(1);
        if over {
          end := Over;
          return;
        }
      }
      assert AssertsHold(c, nread);
      if c.state.HeaderField? {
        end, p', m', calls', r' := FieldPass(data, p, m, calls, skip, r0, r);
      } else if c.state.HeaderValue? {
        ValueIsHeader(c.state);
        end, p', m', calls', r' := ValuePass(data, p, m, calls, skip, r0, r);
      } else if c.state.BodyIdentity? || c.state.BodyIdentityEof? || c.state.ChunkData? {
        p', m', calls', r' := BodyPass(data, p, m, calls, skip, r0, r);
        end := More;
      } else {
        var done;
        done, p', m', calls', r' := Pass(data, p, m, calls, skip, r0, r);
        end := if done then Done else More;
      }
      Ranks(c.state);
      CountIs(c, nread);
    }

    static lemma ValueIsHeader(s: State)
      requires s.HeaderValue?
      ensures ParsingHeader(s)
    {
    }

    static lemma Limits(n: nat, k: nat)
      requires n <= HTTP_MAX_HEADER_SIZE && k <= 0x7000_0000
      ensures n + 1 + 2 * k < UINT32_MODULUS
    {
    }

    static lemma CountIs(c: Core, n: nat)
      ensures CountOk(c, n) == (c.state.ChunkSizeStart? ==> n == 0)
    {
    }

    /**
     One call. It fails for too many header bytes exactly if in the end more than the limit have been counted; otherwise
     it does what the run over single bytes does. And too many cannot be counted when there are few.
     */
    method Execute(data: seq<byte>, skip: bool) returns (used: nat, calls: seq<Event>)
      requires Ok() && |data| <= 0x7000_0000
      modifies this
      ensures Ok()
      ensures c.errno != HeaderOverflow || old(c.errno) == HeaderOverflow ==>
        Result(c, calls, used) == HttpRun.Execute(old(c), data, skip)
      ensures old(c.errno) == OK ==> (c.errno == HeaderOverflow <==> nread > HTTP_MAX_HEADER_SIZE)
      ensures old(c.errno) != HeaderOverflow && old(nread) + 7 * |data| + 4 <= HTTP_MAX_HEADER_SIZE ==>
        c.errno != HeaderOverflow
    {
      if c.errno != OK {
        used, calls := 0, [];
      } else if |data| == 0 {
        used, calls := ExecuteEof();
      } else {
        used, calls := ExecuteBytes(data, skip);
      }
    }

    /** An empty buffer marks the end of the stream. */
    method ExecuteEof() returns (used: nat, calls: seq<Event>)
      requires Ok() && c.errno == OK
      modifies this
      ensures Ok() && Result(c, calls, used) == AtEof(old(c)) && c.errno != HeaderOverflow && nread == old(nread)
    {
      used, calls := 0, [];
      match c.state {
        case BodyIdentityEof => calls := [Notify(MessageComplete)];
        case Dead =>
        case StartReqOrRes =>
        case StartRes =>
        case StartReq =>
        case _ =>
          c := c.(errno := InvalidEofState);
          used := 1;
      }
    }

    method ExecuteBytes(data: seq<byte>, skip: bool) returns (used: nat, calls: seq<Event>)
      requires Ok() && c.errno == OK && 0 < |data| <= 0x7000_0000
      modifies this
      ensures Ok()
      ensures c.errno != HeaderOverflow ==> Result(c, calls, used) == HttpRun.Execute(old(c), data, skip)
      ensures c.errno == HeaderOverflow <==> nread > HTTP_MAX_HEADER_SIZE
      ensures old(nread) + 7 * |data| + 4 <= HTTP_MAX_HEADER_SIZE ==> c.errno != HeaderOverflow
    {
      ghost var r0 := Start(c);
      ghost var r := r0;
      var p, m := 0, if Inside(c.state).Some? then NO_MARKS.Set(Inside(c.state).value, 0) else NO_MARKS;
      calls := [];
      StartGood(c, m, data, skip);
      OkIs(c, nread);
      hide *;
      Ranks(c.state);
      while p < |data|
        invariant Good(r0, r, c, m, calls, data, p, skip) && p <= |data| && CountOk(c, nread)
        invariant nread <= HTTP_MAX_HEADER_SIZE
        invariant nread + Rank(c.state) <= old(nread) + 7 * p + 4
        decreases |data| - p, Rank(c.state)
      {
        var end, p';
        Ranks(c.state);
        end, p', m, calls, r := Visit(data, p, m, calls, skip, r0, r);
        Ranks(c.state);
        if end == Over {
          OkIs(c, nread);
          used := p';
          return;
        } else if end == Done {
          EndedResult(r0, old(c), c, calls, data, p', skip);
          OkIs(c, nread);
          used := p';
          return;
        }
        p := p';
      }
      GoodParts(r0, r, c, m, calls, data, p, skip);
      AtMostOneMark(m, r.pend, data, p);
      assert Unset(m) >= 4;
      calls := calls + CallData(m, Some(HeaderFieldData), data, p) + CallData(m, Some(HeaderValueData), data, p) +
        CallData(m, Some(UrlData), data, p) + CallData(m, Some(BodyData), data, p)
          + CallData(m, Some(StatusData), data, p);
      used := |data|;
      EndResult(r0, r, old(c), c, m, data, skip);
      OkIs(c, nread);
    }

    /** Ok, for proofs that hide definitions. */
    lemma OkIs(c0: Core, n: nat)
      requires c0 == c && n == nread
      ensures Ok() == (nread < UINT32_MODULUS &&
        (c.errno == OK ==> Inv(c) && CountOk(c, nread) && nread <= HTTP_MAX_HEADER_SIZE))
      ensures HTTP_MAX_HEADER_SIZE < UINT32_MODULUS
    {
    }

    /** How many marks are not set. */
    static function Unset(m: Marks): nat
    {
      (if m.field < 0 then 1 else 0) + (if m.value < 0 then 1 else 0) + (if m.url < 0 then 1 else 0) +
      (if m.body < 0 then 1 else 0) + (if m.status < 0 then 1 else 0)
    }

    static lemma AtMostOneMark(m: Marks, pend: Pend, data: seq<byte>, p: nat)
      requires MarksAre(m, pend, data, p)
      ensures Unset(m) >= 4
    {
    }

    static lemma StartGood(c: Core, m: Marks, data: seq<byte>, skip: bool)
      requires Inv(c) && data != []
      requires m == if Inside(c.state).Some? then NO_MARKS.Set(Inside(c.state).value, 0) else NO_MARKS
      ensures Good(Start(c), Start(c), c, m, [], data, 0, skip)
    {
      assert data[0..] == data && data[0..0] == [];
    }

    static lemma EndedResult(r0: Run, c0: Core, c: Core, calls: seq<Event>, data: seq<byte>, used: nat, skip: bool)
      requires r0 == Start(c0) && c0.errno == OK && data != [] && Ended(r0, c, calls, data, used, skip)
      ensures Result(c, calls, used) == HttpRun.Execute(c0, data, skip) && c.errno != HeaderOverflow &&
        (c.errno == OK ==> Inv(c))
    {
      var f := Exec(r0, data, skip);
      assert f.trace + [] == f.trace;
    }

    /** At the end of the buffer the token still open is reported, by whichever of the five calls it is. */
    static lemma EndResult(r0: Run, r: Run, c0: Core, c: Core, m: Marks, data: seq<byte>, skip: bool)
      requires r0 == Start(c0) && c0.errno == OK && data != [] && Good(r0, r, c, m, r.trace, data, |data|, skip)
      ensures Result(c, r.trace + CallData(m, Some(HeaderFieldData), data, |data|)
        + CallData(m, Some(HeaderValueData), data, |data|) +
                     CallData(m, Some(UrlData), data, |data|) + CallData(m, Some(BodyData), data, |data|) +
                     CallData(m, Some(StatusData), data, |data|), |data|) == HttpRun.Execute(c0, data, skip)
      ensures c.errno == OK && Inv(c)
    {
      assert data[|data|..] == [];
      assert Exec(r, [], skip) == r;
      LastCall(r, m, data);
      hide Exec, CallData;
    }

    static lemma LastCall(r: Run, m: Marks, data: seq<byte>)
      requires MarksAre(m, r.pend, data, |data|) && r.stop == Going
      ensures r.trace + CallData(m, Some(HeaderFieldData), data, |data|)
        + CallData(m, Some(HeaderValueData), data, |data|) +
        CallData(m, Some(UrlData), data, |data|) + CallData(m, Some(BodyData), data, |data|) +
        CallData(m, Some(StatusData), data, |data|) == r.trace + Leftover(r)
    {
      if r.pend.Closed? {
        assert r.trace + [] + [] + [] + [] + [] == r.trace + [];
      } else {
        var e := [Data(r.pend.kind, r.pend.bytes)];
        assert r.trace + [] + [] + [] + [] + e == r.trace + e;
        assert r.trace + [] + [] + [] + e + [] == r.trace + e;
        assert r.trace + [] + [] + e + [] + [] == r.trace + e;
        assert r.trace + [] + e + [] + [] + [] == r.trace + e;
        assert r.trace + e + [] + [] + [] + [] == r.trace + e;
      }
    }
  }
}
