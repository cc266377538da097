/** Inputs on which the parser does not do what it promises, from the first byte on; and exactly when it does. */
module HttpWitness {
  import opened Options
  import opened HttpTypes
  import opened HttpStep
  import opened HttpRun
  import opened HttpInvariant
  import opened HttpParser

  // ---- Bytes that only change fields -----------------------------------------------------------

  /** The byte does nothing but change the fields. */
  predicate Eats(c: Core, ch: byte, skip: bool, c': Core)
  {
    Step(c, ch, skip) == Eat(c')
  }

  /** The fields before, between and after these bytes, each of which is just eaten. */
  ghost predicate Path(cs: seq<Core>, s: seq<byte>, skip: bool)
  {
    |cs| == |s| + 1 && forall k {:trigger s[k]} :: 0 <= k < |s| ==> Eats(cs[k], s[k], skip, cs[k + 1])
  }

  lemma {:induction false} PathRun(r: Run, cs: seq<Core>, s: seq<byte>, rest: seq<byte>, skip: bool)
    requires r.stop == Going && Path(cs, s, skip) && r.c == cs[0]
    ensures Exec(r, s + rest, skip) == Exec(Further(r, cs[|s|], s), rest, skip)
    decreases |s|
  {
    hide Eats, Exec;
    if s == [] {
      assert s + rest == rest;
      assert r.pend.Open? ==> r.pend.bytes + [] == r.pend.bytes;
    } else {
      var c := cs[1];
      assert Eats(r.c, s[0], skip, c);
      EatenOne(r, s + rest, skip, c);
      assert (s + rest)[1..] == s[1..] + rest && [s[0]] + s[1..] == s;
      PathRun(Further(r, c, [s[0]]), cs[1..], s[1..], rest, skip);
      FurtherTwice(r, c, cs[|s|], [s[0]], s[1..]);
    }
  }

  lemma EatenOne(r: Run, s: seq<byte>, skip: bool, c: Core)
    requires r.stop == Going && s != [] && Eats(r.c, s[0], skip, c)
    ensures Exec(r, s, skip) == Exec(Further(r, c, [s[0]]), s[1..], skip)
  {
    ExecOnce(r, s, skip);
    hide Step, Exec;
    assert r.trace + [] + [] == r.trace;
    assert Apply(r, Eat(c), s[0]) == Further(r, c, [s[0]]);
  }

  // ---- A response to a HEAD request ---------------------------------------------------------------

  /** "TTP/1.1 " */
  const VERSION: seq<byte> := [84, 84, 80, 47, 49, 46, 49, 32]

  /** "200" and the end of the line. */
  const STATUS: seq<byte> := [50, 48, 48, 13, 10]

  /** "ontent-Length" */
  const ONTENT_LENGTH: seq<byte> := [111, 110, 116, 101, 110, 116, 45, 76, 101, 110, 103, 116, 104]

  lemma VersionStep(c: Core, ch: byte, skip: bool)
    requires c.state in {ResH, ResHT, ResHTT, ResHTTP, ResFirstMajor, ResMajor, ResFirstMinor, ResMinor}
    ensures Step(c, ch, skip) == StepResVersion(c, ch)
  {
    hide StepResVersion;
  }

  lemma VersionByte(c: Core, ch: byte, skip: bool, c': Core)
    requires c.state in {ResH, ResHT, ResHTT, ResHTTP, ResFirstMajor, ResMajor, ResFirstMinor, ResMinor}
    requires StepResVersion(c, ch) == Eat(c')
    ensures Eats(c, ch, skip, c')
  {
    VersionStep(c, ch, skip);
    hide Step, StepResVersion;
  }

  function VersionPath(c: Core): (cs: seq<Core>)
    ensures |cs| == 9
  {
    var m := c.(major := 1);
    var n := m.(minor := 1);
    [c, c.(state := ResHT), c.(state := ResHTT), c.(state := ResHTTP), c.(state := ResFirstMajor),
      m.(state := ResMajor),
     m.(state := ResFirstMinor), n.(state := ResMinor), n.(state := ResFirstStatusCode)]
  }

  lemma VersionIsPath(c: Core, skip: bool)
    requires c.state == ResH
    ensures Path(VersionPath(c), VERSION, skip)
  {
    var cs, s := VersionPath(c), VERSION;
    hide Step, Eats;
    forall k | 0 <= k < |s| ensures Eats(cs[k], s[k], skip, cs[k + 1]) {
      VersionByte(cs[k], s[k], skip, cs[k + 1]);
    }
  }

  function StatusPath(c: Core): (cs: seq<Core>)
    ensures |cs| == 6
  {
    var d := c.(status := 200);
    [c, c.(status := 2, state := ResStatusCode), c.(status := 20, state := ResStatusCode), d.(state := ResStatusCode),
     d.(state := ResLineAlmostDone), d.(state := HeaderFieldStart)]
  }

  lemma StatusByte(c: Core, ch: byte, skip: bool, c': Core)
    requires c.state in {ResFirstStatusCode, ResStatusCode, ResLineAlmostDone} && StepStatus(c, ch) == Eat(c')
    ensures Eats(c, ch, skip, c')
  {
    hide StepStatus;
  }

  lemma StatusIsPath(c: Core, skip: bool)
    requires c.state == ResFirstStatusCode
    ensures Path(StatusPath(c), STATUS, skip)
  {
    var cs, s := StatusPath(c), STATUS;
    hide Step, Eats;
    forall k | 0 <= k < |s| ensures Eats(cs[k], s[k], skip, cs[k + 1]) {
      StatusByte(cs[k], s[k], skip, cs[k + 1]);
    }
  }

  /** The name of the header, matched letter by letter. */
  function NamePath(c: Core): (cs: seq<Core>)
    ensures |cs| == 14
  {
    seq(14, i requires 0 <= i < 14 =>
      c.(index := i, header := if i == 0 then HC else if i == 1 then HCO else if i == 2 then HCON
                               else if i < 13 then MatchingContentLength else ContentLength))
  }

  lemma FieldByte(c: Core, ch: byte, skip: bool, c': Core)
    requires c.state == HeaderField && Token(ch) != 0 && FieldNext(c, Token(ch), ch) == c'
    ensures Eats(c, ch, skip, c')
  {
    hide FieldNext;
  }

  lemma NameIsPath(c: Core, skip: bool)
    requires c.state == HeaderField
    ensures Path(NamePath(c), ONTENT_LENGTH, skip)
  {
    var cs, s := NamePath(c), ONTENT_LENGTH;
    hide Step, Eats;
    forall k | 0 <= k < |s| ensures Eats(cs[k], s[k], skip, cs[k + 1]) {
      FieldByte(cs[k], s[k], skip, cs[k + 1]);
    }
  }

  /** What the pass for this byte does. */
  predicate Does(c: Core, ch: byte, skip: bool, o: Out)
  {
    Step(c, ch, skip) == o
  }

  lemma ByteRun(r: Run, ch: byte, rest: seq<byte>, skip: bool, o: Out, q: Run)
    requires r.stop == Going && Does(r.c, ch, skip, o) && o.next == Consume && Apply(r, o, ch) == q
    ensures Exec(r, [ch] + rest, skip) == Exec(q, rest, skip)
  {
    hide Apply, Exec, Step;
    ExecOnce(r, [ch] + rest, skip);
    assert ([ch] + rest)[1..] == rest;
  }

  lemma AgainRun(r: Run, ch: byte, rest: seq<byte>, skip: bool, o: Out, q: Run)
    requires r.stop == Going && Does(r.c, ch, skip, o) && o.next == Again && Apply(r, o, ch) == q
    ensures Exec(r, [ch] + rest, skip) == Exec(q, [ch] + rest, skip)
  {
    hide Apply, Exec, Step;
    ExecOnce(r, [ch] + rest, skip);
  }

  /** A byte that begins a token, one that ends it, and one outside. */
  lemma MarkRun(r: Run, ch: byte, rest: seq<byte>, skip: bool, c: Core, k: Kind)
    requires r.stop == Going && r.pend.Closed? && Does(r.c, ch, skip, Eat(c).(mark := Some(k)))
    ensures Exec(r, [ch] + rest, skip) == Exec(Run(c, Open(k, [ch]), r.trace, Going, r.used + 1), rest, skip)
  {
    hide Does, Exec;
    assert [] + [ch] == [ch] && r.trace + [] + [] == r.trace;
    ByteRun(r, ch, rest, skip, Eat(c).(mark := Some(k)), Run(c, Open(k, [ch]), r.trace, Going, r.used + 1));
  }

  lemma FlushRun(r: Run, ch: byte, rest: seq<byte>, skip: bool, c: Core, k: Kind, bytes: seq<byte>)
    requires r.stop == Going && r.pend == Open(k, bytes) && Does(r.c, ch, skip, Eat(c).(flush := Some(k)))
    ensures Exec(r, [ch] + rest, skip) == Exec(Run(c, Closed, r.trace + [Data(k, bytes)], Going, r.used + 1), rest,
      skip)
  {
    hide Does, Exec;
    var t := r.trace + [Data(k, bytes)];
    assert t + [] == t;
    ByteRun(r, ch, rest, skip, Eat(c).(flush := Some(k)), Run(c, Closed, t, Going, r.used + 1));
  }

  lemma OutsideRun(r: Run, ch: byte, rest: seq<byte>, skip: bool, c: Core, reset: bool)
    requires r.stop == Going && r.pend.Closed? && Does(r.c, ch, skip, Eat(c).(reset := reset))
    ensures Exec(r, [ch] + rest, skip) == Exec(Run(c, Closed, r.trace, Going, r.used + 1), rest, skip)
  {
    hide Does, Exec;
    assert r.trace + [] + [] == r.trace;
    ByteRun(r, ch, rest, skip, Eat(c).(reset := reset), Run(c, Closed, r.trace, Going, r.used + 1));
  }

  /** A byte outside a token that is looked at again, with what is told of. */
  lemma RedoRun(r: Run, ch: byte, rest: seq<byte>, skip: bool, c: Core, note: Option<Note>)
    requires r.stop == Going && r.pend.Closed? && Does(r.c, ch, skip, Redo(c).(note := note))
    ensures Exec(r, [ch] + rest, skip) == Exec(r.(c := c, trace := r.trace + Notes(note)), [ch] + rest, skip)
  {
    hide Does, Exec;
    assert r.trace + [] + Notes(note) == r.trace + Notes(note);
    AgainRun(r, ch, rest, skip, Redo(c).(note := note), r.(c := c, trace := r.trace + Notes(note)));
  }

  /** The H that begins a response. */
  function Begun(): Run
  {
    Run(Fresh(Init(Response)).(state := ResH), Closed, [Notify(MessageBegin)], Going, 1)
  }

  lemma BeginStep(c: Core, skip: bool)
    requires c.state == StartRes
    ensures Does(c, 72, skip, To(Fresh(c), ResH).(note := Some(MessageBegin)))
  {
  }

  lemma BeginRun(rest: seq<byte>, skip: bool)
    ensures Exec(Start(Init(Response)), [72] + rest, skip) == Exec(Begun(), rest, skip)
  {
    var c := Init(Response);
    var o := To(Fresh(c), ResH).(note := Some(MessageBegin));
    BeginStep(c, skip);
    hide Does, Exec;
    assert [] + [] + [Notify(MessageBegin)] == [Notify(MessageBegin)];
    assert Apply(Start(c), o, 72) == Begun();
    ByteRun(Start(c), 72, rest, skip, o, Begun());
  }

  lemma FieldSteps(c: Core, skip: bool)
    ensures c.state == HeaderFieldStart ==>
      Does(c, 67, skip, Eat(c.(index := 0, header := HC, state := HeaderField)).(mark := Some(HeaderFieldData)))
    ensures c.state == HeaderField ==>
      Does(c, COLON, skip, Eat(c.(state := HeaderValueDiscardWs)).(flush := Some(HeaderFieldData)))
  {
  }

  /** The name has been read. */
  function Named(r: Run): Run
  {
    Run(r.c.(index := 13, header := ContentLength, state := HeaderField), Open(HeaderFieldData, [67] + ONTENT_LENGTH),
        r.trace, Going, r.used + 14)
  }

  lemma NameEnds(r: Run)
    ensures var c1 := r.c.(index := 0, header := HC, state := HeaderField);
      NamePath(c1)[0] == c1 && NamePath(c1)[13] == Named(r).c && |ONTENT_LENGTH| == 13
    ensures Named(r) ==
      Run(r.c.(index := 13, header := ContentLength, state := HeaderField),
          Open(HeaderFieldData, [67] + ONTENT_LENGTH), r.trace, Going, r.used + 14)
  {
  }

  lemma NameLetters(r: Run, rest: seq<byte>, skip: bool)
    requires r.stop == Going && r.c.state == HeaderFieldStart && r.pend.Closed?
    ensures Exec(r, [67] + (ONTENT_LENGTH + rest), skip) == Exec(Named(r), rest, skip)
  {
    hide *;
    var c1 := r.c.(index := 0, header := HC, state := HeaderField);
    NameEnds(r);
    FieldSteps(r.c, skip);
    MarkRun(r, 67, ONTENT_LENGTH + rest, skip, c1, HeaderFieldData);
    var r1 := Run(c1, Open(HeaderFieldData, [67]), r.trace, Going, r.used + 1);
    NameIsPath(c1, skip);
    PathRun(r1, NamePath(c1), ONTENT_LENGTH, rest, skip);
    FurtherIs(r1, Named(r).c, ONTENT_LENGTH, Named(r));
  }

  lemma NameRun(r: Run, rest: seq<byte>, skip: bool)
    requires r.stop == Going && r.c.state == HeaderFieldStart && r.pend.Closed?
    ensures Exec(r, [67] + (ONTENT_LENGTH + ([COLON] + rest)), skip) ==
      Exec(Run(r.c.(index := 13, header := ContentLength, state := HeaderValueDiscardWs), Closed,
               r.trace + [Data(HeaderFieldData, [67] + ONTENT_LENGTH)], Going, r.used + 15), rest, skip)
  {
    hide *;
    NameLetters(r, [COLON] + rest, skip);
    NameEnds(r);
    var c := Named(r).c;
    FieldSteps(c, skip);
    FlushRun(Named(r), COLON, rest, skip, c.(state := HeaderValueDiscardWs), HeaderFieldData, [67] + ONTENT_LENGTH);
  }

  lemma FurtherIs(r: Run, c: Core, s: seq<byte>, q: Run)
    requires r.pend.Open? && q == r.(c := c, pend := Open(r.pend.kind, r.pend.bytes + s), used := r.used + |s|)
    ensures Further(r, c, s) == q
  {
  }

  lemma DigitStep(c: Core, skip: bool)
    requires c.state == HeaderValueDiscardWs && c.header == ContentLength
    ensures Does(c, 53, skip,
                 Eat(c.(state := HeaderValue, index := 0, contentLength := 5)).(mark := Some(HeaderValueData)))
  {
  }

  lemma ValueEndStep(c: Core, skip: bool)
    requires c.state == HeaderValue
    ensures Does(c, CR, skip, Eat(c.(state := HeaderAlmostDone)).(flush := Some(HeaderValueData)))
  {
  }

  lemma LineFeedStep(c: Core, skip: bool)
    requires c.state == HeaderAlmostDone
    ensures Does(c, LF, skip, Eat(c.(state := HeaderValueLws)).(reset := false))
  {
  }

  /** The value has been read. */
  function Valued(r: Run): Run
  {
    Run(r.c.(index := 0, contentLength := 5, state := HeaderAlmostDone), Closed,
      r.trace + [Data(HeaderValueData, [53])],
        Going, r.used + 2)
  }

  lemma ValuedIs(r: Run)
    ensures Valued(r) ==
      Run(r.c.(index := 0, contentLength := 5, state := HeaderAlmostDone), Closed,
          r.trace + [Data(HeaderValueData, [53])], Going, r.used + 1 + 1)
  {
  }

  lemma ValueDigit(r: Run, rest: seq<byte>, skip: bool)
    requires r.stop == Going && r.c.state == HeaderValueDiscardWs && r.c.header == ContentLength && r.pend.Closed?
    ensures Exec(r, [53] + ([CR] + rest), skip) == Exec(Valued(r), rest, skip)
  {
    hide *;
    var c := r.c.(index := 0, contentLength := 5, state := HeaderValue);
    DigitStep(r.c, skip);
    MarkRun(r, 53, [CR] + rest, skip, c, HeaderValueData);
    ValueEndStep(c, skip);
    FlushRun(Run(c, Open(HeaderValueData, [53]), r.trace, Going, r.used + 1), CR, rest, skip,
      c.(state := HeaderAlmostDone), HeaderValueData, [53]);
    ValuedIs(r);
  }

  lemma ValueRun(r: Run, rest: seq<byte>, skip: bool)
    requires r.stop == Going && r.c.state == HeaderValueDiscardWs && r.c.header == ContentLength && r.pend.Closed?
    ensures Exec(r, [53] + ([CR] + ([LF] + rest)), skip) ==
      Exec(Run(r.c.(index := 0, contentLength := 5, state := HeaderValueLws), Closed,
               r.trace + [Data(HeaderValueData, [53])], Going, r.used + 3), rest, skip)
  {
    hide *;
    ValueDigit(r, [LF] + rest, skip);
    ValuedIs(r);
    LineFeedStep(Valued(r).c, skip);
    OutsideRun(Valued(r), LF, rest, skip, Valued(r).c.(state := HeaderValueLws), false);
  }

  /** The empty line after a header that sets no flag. */
  lemma LastLineSteps(c: Core, skip: bool)
    requires c.state == HeaderValueLws && c.header == ContentLength && c.flags == NO_FLAGS
    ensures Does(c, CR, skip, Redo(c.(state := HeaderFieldStart)).(note := None))
    ensures Does(c.(state := HeaderFieldStart), CR, skip, Eat(c.(state := HeadersAlmostDone)).(reset := false))
  {
  }

  lemma EndSteps(c: Core)
    requires c.state == HeadersAlmostDone && c.flags == NO_FLAGS && c.verb != CONNECT && !c.upgrade
    requires 0 < c.contentLength < ULLONG_MAX
    ensures Does(c, LF, true, Redo(c.(state := HeadersDone)).(note := Some(HeadersComplete)))
    ensures Does(c.(state := HeadersDone), LF, true, Eat(c.(state := BodyIdentity)).(reset := true))
  {
    SkippedSteps(c);
    hide Step;
  }

  /** A callback that says there is no body: as many bytes as announced are waited for all the same. */
  lemma SkippedBody(r: Run)
    requires r.stop == Going && r.pend.Closed? && r.c.state == HeaderValueLws && r.c.header == ContentLength
    requires r.c.flags == NO_FLAGS && r.c.verb != CONNECT && !r.c.upgrade && 0 < r.c.contentLength < ULLONG_MAX
    ensures Exec(r, [CR] + ([LF] + []), true) ==
      Run(r.c.(state := BodyIdentity), Closed, r.trace + [Notify(HeadersComplete)], Going, r.used + 2)
  {
    hide *;
    var c := r.c;
    LastLineSteps(c, true);
    EndSteps(c.(state := HeadersAlmostDone));
    NotesAre(r.trace);
    RedoRun(r, CR, [LF] + [], true, c.(state := HeaderFieldStart), None);
    OutsideRun(r.(c := c.(state := HeaderFieldStart)), CR, [LF] + [], true, c.(state := HeadersAlmostDone), false);
    var r2 := Run(c.(state := HeadersAlmostDone), Closed, r.trace, Going, r.used + 1);
    RedoRun(r2, LF, [], true, c.(state := HeadersDone), Some(HeadersComplete));
    var r3 := Run(c.(state := HeadersDone), Closed, r.trace + [Notify(HeadersComplete)], Going, r.used + 1);
    OutsideRun(r3, LF, [], true, c.(state := BodyIdentity), true);
    ExecStopped(Run(c.(state := BodyIdentity), Closed, r3.trace, Going, r.used + 2), [], true);
  }

  lemma NotesAre(t: seq<Event>)
    ensures t + Notes(None) == t && Notes(Some(HeadersComplete)) == [Notify(HeadersComplete)]
  {
  }

  /** "HTTP/1.1 200", "Content-Length:5" and an empty line. */
  function HeadReply(): seq<byte>
  {
    [72] + (VERSION + (STATUS + ([67] + (ONTENT_LENGTH + ([COLON] + ([53] + ([CR] + ([LF] + ([CR] + ([LF] + []))))))))))
  }

  /** The run after the status line. */
  function Answered(): Run
  {
    Run(Fresh(Init(Response)).(major := 1, minor := 1, status := 200, state := HeaderFieldStart), Closed,
        [Notify(MessageBegin)], Going, 14)
  }

  lemma VersionRun(r: Run, rest: seq<byte>, skip: bool)
    requires r.stop == Going && r.pend.Closed? && r.c.state == ResH
    ensures Exec(r, VERSION + rest, skip) ==
      Exec(r.(c := r.c.(major := 1, minor := 1, state := ResFirstStatusCode), used := r.used + 8), rest, skip)
  {
    hide Exec, Path;
    VersionIsPath(r.c, skip);
    PathRun(r, VersionPath(r.c), VERSION, rest, skip);
  }

  lemma StatusRun(r: Run, rest: seq<byte>, skip: bool)
    requires r.stop == Going && r.pend.Closed? && r.c.state == ResFirstStatusCode
    ensures Exec(r, STATUS + rest, skip) ==
      Exec(r.(c := r.c.(status := 200, state := HeaderFieldStart), used := r.used + 5), rest, skip)
  {
    hide Exec, Path;
    StatusIsPath(r.c, skip);
    PathRun(r, StatusPath(r.c), STATUS, rest, skip);
  }

  lemma BegunIs()
    ensures Begun().stop == Going && Begun().pend.Closed? && Begun().c.state == ResH
    ensures Answered() ==
      Begun().(c := Begun().c.(major := 1, minor := 1, status := 200, state := HeaderFieldStart),
               used := Begun().used + 8 + 5)
  {
  }

  lemma AnsweredIs()
    ensures
      var r := Answered();
      r.stop == Going && r.pend.Closed? && r.c.state == HeaderFieldStart && r.used == 14 && r.c.flags == NO_FLAGS &&
      r.c.verb != CONNECT && !r.c.upgrade && r.c.errno == OK && r.trace == [Notify(MessageBegin)]
    ensures Init(Response).errno == OK && HeadReply() != [] && |HeadReply()| == 34 && 0 < 5 < ULLONG_MAX
  {
  }

  /** The events up to the end of the headers. */
  function HeadEvents(): seq<Event>
  {
    [Notify(MessageBegin)] + [Data(HeaderFieldData, [67] + ONTENT_LENGTH)] + [Data(HeaderValueData, [53])] +
    [Notify(HeadersComplete)]
  }

  /**
   The answer to a HEAD request, from the first byte on, to a callback that says that there is no body: the parser goes
   on to wait for five bytes.
   */
  lemma SkippedBodyIsRead()
    ensures var r := Execute(Init(Response), HeadReply(), true);
      r.c.state == BodyIdentity && r.c.contentLength == 5 && r.c.errno == OK && r.used == |HeadReply()| == 34 &&
      r.trace == HeadEvents()
  {
    hide *;
    HeadReplyIs();
    var end := [CR] + ([LF] + []);
    var value := [53] + ([CR] + ([LF] + end));
    var header := [67] + (ONTENT_LENGTH + ([COLON] + value));
    BeginRun(VERSION + (STATUS + header), true);
    BegunIs();
    VersionRun(Begun(), STATUS + header, true);
    var b := Begun();
    StatusRun(b.(c := b.c.(major := 1, minor := 1, state := ResFirstStatusCode), used := b.used + 8), header, true);
    AnsweredIs();
    var r := Answered();
    NameRun(r, value, true);
    var r1 := Run(r.c.(index := 13, header := ContentLength, state := HeaderValueDiscardWs), Closed,
                  r.trace + [Data(HeaderFieldData, [67] + ONTENT_LENGTH)], Going, r.used + 15);
    ValueRun(r1, end, true);
    var r2 := Run(r1.c.(index := 0, contentLength := 5, state := HeaderValueLws), Closed,
                  r1.trace + [Data(HeaderValueData, [53])], Going, r1.used + 3);
    SkippedBody(r2);
    WholeHead(Exec(Start(Init(Response)), HeadReply(), true));
  }

  lemma HeadReplyIs()
    ensures HeadReply() ==
      [72] + (VERSION + (STATUS + ([67] + (ONTENT_LENGTH + ([COLON] + ([53]
        + ([CR] + ([LF] + ([CR] + ([LF] + []))))))))))
    ensures HeadEvents() ==
      [Notify(MessageBegin)] + [Data(HeaderFieldData, [67] + ONTENT_LENGTH)] + [Data(HeaderValueData, [53])] +
      [Notify(HeadersComplete)]
  {
  }

  lemma WholeHead(r: Run)
    requires r == Exec(Start(Init(Response)), HeadReply(), true) && r.pend.Closed?
    ensures Execute(Init(Response), HeadReply(), true) == Result(r.c, r.trace, r.used)
  {
    hide Exec, Start;
    assert r.trace + [] == r.trace;
  }

  // ---- Chunk sizes ----------------------------------------------------------------------------------

  predicate IsHexDigit(ch: byte)
  {
    48 <= ch <= 57 || 65 <= ch <= 70 || 97 <= ch <= 102
  }

  function HexValue(ch: byte): nat
    requires IsHexDigit(ch)
  {
    if ch <= 57 then ch - 48 else if ch <= 70 then ch - 65 + 10 else ch - 97 + 10
  }

  /** What a byte that is taken as a digit adds. */
  function Digit(ch: byte): nat
  {
    if IsHexDigit(ch) then HexValue(ch) else 0
  }

  /** Where a chunk size is being read. */
  predicate InSize(c: Core)
  {
    c.state == ChunkSizeStart || c.state == ChunkSize
  }

  /** The number read so far. */
  function SizeSoFar(c: Core): nat
  {
    if c.state == ChunkSizeStart then 0 else c.contentLength
  }

  /** The byte is taken as a digit. */
  predicate TakenAsDigit(c: Core, ch: byte, skip: bool)
  {
    var o := Step(c, ch, skip);
    o == Eat(o.c) && o.c.state == ChunkSize
  }

  const SIZE_LIMIT: nat := (ULLONG_MAX - 16) / 16

  /**
   Taken as digits are exactly the hexadecimal ones and the bytes from 128 on, which count as zero, as long as the
   number
   stays in range. So on bytes below 128 only hexadecimal digits count.
   */
  lemma DigitsTaken(c: Core, ch: byte, skip: bool)
    requires Inv(c) && InSize(c)
    ensures TakenAsDigit(c, ch, skip) <==> (IsHexDigit(ch) || ch >= 128) && SizeSoFar(c) <= SIZE_LIMIT
    ensures TakenAsDigit(c, ch, skip) ==>
      Step(c, ch, skip) == Eat(c.(contentLength := SizeSoFar(c) * 16 + Digit(ch), state := ChunkSize))
  {
    ChunkStep(c, ch, skip);
    UnhexIs(ch);
    hide Step, Unhex;
  }

  /** Any other byte but the end of the line, a space and a semicolon is refused. */
  lemma OthersRefused(c: Core, ch: byte, skip: bool)
    requires Inv(c) && InSize(c) && !TakenAsDigit(c, ch, skip)
    requires c.state == ChunkSize ==> ch != CR && ch != SP && ch != 59
    ensures Step(c, ch, skip).next == Fail && Step(c, ch, skip).flush.None?
  {
    DigitsTaken(c, ch, skip);
    ChunkStep(c, ch, skip);
    UnhexIs(ch);
    hide Step, Unhex, TakenAsDigit;
  }

  /** All these bytes are taken as digits, one after the other. */
  predicate SizeFits(n: nat, s: seq<byte>)
    decreases |s|
  {
    s == [] || ((IsHexDigit(s[0]) || s[0] >= 128) && n <= SIZE_LIMIT && SizeFits(n * 16 + Digit(s[0]), s[1..]))
  }

  function SizeRead(n: nat, s: seq<byte>): nat
    decreases |s|
  {
    if s == [] then n else SizeRead(n * 16 + Digit(s[0]), s[1..])
  }

  /**
   A size line is read as a number exactly if all its bytes are hexadecimal digits, or bytes from 128 on, and the number
   stays in range; otherwise the run fails.
   */
  lemma {:induction false} SizeRun(r: Run, s: seq<byte>, rest: seq<byte>, skip: bool)
    requires Inv(r.c) && InSize(r.c) && r.stop == Going && r.pend.Closed? && (s == [] ==> r.c.state == ChunkSize)
    requires s != [] ==> CR !in s && SP !in s && 59 !in s
    ensures SizeFits(SizeSoFar(r.c), s) ==>
      Exec(r, s + rest, skip) ==
      Exec(r.(c := r.c.(contentLength := SizeRead(SizeSoFar(r.c), s), state := ChunkSize), used := r.used + |s|), rest,
           skip)
    ensures !SizeFits(SizeSoFar(r.c), s) ==> Exec(r, s + rest, skip).stop == Failed
    decreases |s|
  {
    hide *;
    SizeNext(SizeSoFar(r.c), s);
    if s == [] {
      assert s + rest == rest;
      SizeStill(r);
    } else {
      assert (s + rest)[1..] == s[1..] + rest && [s[0]] + (s[1..] + rest) == s + rest;
      DigitsTaken(r.c, s[0], skip);
      if TakenAsDigit(r.c, s[0], skip) {
        SizeInv(r.c, s[0], skip);
        var c := r.c.(contentLength := SizeSoFar(r.c) * 16 + Digit(s[0]), state := ChunkSize);
        DigitDone(r.c, s[0], skip, c);
        OutsideRun(r, s[0], s[1..] + rest, skip, c, false);
        SizeRun(Run(c, Closed, r.trace, Going, r.used + 1), s[1..], rest, skip);
      } else {
        SizeFails(r, s + rest, skip);
      }
    }
  }

  lemma SizeStill(r: Run)
    requires r.c.state == ChunkSize
    ensures r == r.(c := r.c.(contentLength := SizeSoFar(r.c), state := ChunkSize), used := r.used + 0)
  {
  }

  lemma SizeNext(n: nat, s: seq<byte>)
    ensures s == [] ==> SizeFits(n, s) && SizeRead(n, s) == n
    ensures s != [] ==>
      (SizeFits(n, s) <==>
       (IsHexDigit(s[0]) || s[0] >= 128) && n <= SIZE_LIMIT && SizeFits(n * 16 + Digit(s[0]), s[1..]))
    ensures s != [] ==> SizeRead(n, s) == SizeRead(n * 16 + Digit(s[0]), s[1..])
  {
    hide IsHexDigit, Digit;
  }

  lemma DigitDone(c: Core, ch: byte, skip: bool, c': Core)
    requires Step(c, ch, skip) == Eat(c') && c'.state == ChunkSize
    ensures Does(c, ch, skip, Eat(c').(reset := false)) && InSize(c') && SizeSoFar(c') == c'.contentLength
  {
    hide Step;
  }

  lemma SizeFails(r: Run, s: seq<byte>, skip: bool)
    requires Inv(r.c) && InSize(r.c) && r.stop == Going && s != [] && !TakenAsDigit(r.c, s[0], skip)
    requires s[0] != CR && s[0] != SP && s[0] != 59
    ensures Exec(r, s, skip).stop == Failed
  {
    OthersRefused(r.c, s[0], skip);
    hide Step, Exec, TakenAsDigit, Inv;
    ExecOnce(r, s, skip);
  }

  lemma SizeInv(c: Core, ch: byte, skip: bool)
    requires Inv(c) && InSize(c) && TakenAsDigit(c, ch, skip)
    ensures Inv(c.(contentLength := SizeSoFar(c) * 16 + Digit(ch), state := ChunkSize))
  {
    DigitsTaken(c, ch, skip);
    hide Step, TakenAsDigit;
  }

  /** In a line of bytes below 128 these are hexadecimal digits. */
  lemma {:induction false} OnlyHexDigits(n: nat, s: seq<byte>, i: nat)
    requires SizeFits(n, s) && i < |s| && s[i] < 128
    ensures IsHexDigit(s[i])
    decreases i
  {
    if i > 0 { OnlyHexDigits(n * 16 + Digit(s[0]), s[1..], i - 1); }
  }

  lemma UnhexIs(ch: byte)
    ensures Unhex(ch) == if IsHexDigit(ch) || ch >= 128 then Digit(ch) else -1
  {
  }

  lemma ChunkStep(c: Core, ch: byte, skip: bool)
    requires c.state in {ChunkSizeStart, ChunkSize, ChunkSizeAlmostDone}
    ensures Step(c, ch, skip) == StepChunkSize(c, ch)
  {
    hide StepChunkSize;
  }

  lemma SizeLineSteps(c: Core, skip: bool)
    requires c.state == ChunkSize && c.contentLength == 0
    ensures Does(c, CR, skip, Eat(c.(state := ChunkSizeAlmostDone)).(reset := false))
    ensures Does(c.(state := ChunkSizeAlmostDone), LF, skip,
      Eat(c.(flags := Stored(c.flags.(trailing := true)), state := HeaderFieldStart)).(reset := true))
  {
    ChunkStep(c, CR, skip);
    ChunkStep(c.(state := ChunkSizeAlmostDone), LF, skip);
    hide Step;
  }

  /** A size line of the byte 128 alone is taken for that of the last chunk. */
  lemma HighByteEndsBody(r: Run, rest: seq<byte>, skip: bool)
    requires Inv(r.c) && r.c.state == ChunkSizeStart && r.stop == Going && r.pend.Closed?
    ensures Exec(r, [128] + ([CR] + ([LF] + rest)), skip) ==
      Exec(Run(r.c.(contentLength := 0, flags := Stored(r.c.flags.(trailing := true)), state := HeaderFieldStart),
               Closed, r.trace, Going, r.used + 3), rest, skip)
  {
    hide *;
    var c := r.c.(contentLength := 0, state := ChunkSize);
    HighByteIsDigit(r.c);
    SizeRun(r, [128], [CR] + ([LF] + rest), skip);
    SizeLineSteps(c, skip);
    var r1 := Run(c, Closed, r.trace, Going, r.used + 1);
    OutsideRun(r1, CR, [LF] + rest, skip, c.(state := ChunkSizeAlmostDone), false);
    var r2 := Run(c.(state := ChunkSizeAlmostDone), Closed, r.trace, Going, r.used + 2);
    OutsideRun(r2, LF, rest, skip, c.(flags := Stored(c.flags.(trailing := true)), state := HeaderFieldStart), true);
  }

  lemma HighByteIsDigit(c: Core)
    requires c.state == ChunkSizeStart
    ensures InSize(c) && SizeSoFar(c) == 0 && SizeFits(0, [128]) && SizeRead(0, [128]) == 0
    ensures CR !in [128] && SP !in [128] && |[128]| == 1
  {
    assert [128][1..] == [];
  }
}
