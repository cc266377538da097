/** The invariant behind the parser's assertions: none of them can fire, whatever the bytes. */
module HttpInvariant {
  import opened Options
  import opened HttpTypes
  import opened HttpStep
  import opened HttpRun

  /** Position i lies in the word, before its last character. */
  predicate Matching(word: string, i: nat)
  {
    i + 1 < |word|
  }

  /** What the name of a header field can have led to. */
  predicate FieldHeader(h: HeaderState, i: nat)
  {
    match h
    case General => true
    case HC => i == 0
    case HCO => i == 1
    case HCON => i == 2
    case MatchingConnection => Matching(CONNECTION, i)
    case MatchingProxyConnection => Matching(PROXY_CONNECTION, i)
    case MatchingContentLength => Matching(CONTENT_LENGTH, i)
    case MatchingTransferEncoding => Matching(TRANSFER_ENCODING, i)
    case MatchingUpgrade => Matching(UPGRADE, i)
    case Connection => true
    case ContentLength => true
    case TransferEncoding => true
    case Upgrade => true
    case _ => false
  }

  /** What reading a value can be at. */
  predicate ValueHeader(h: HeaderState, i: nat, n: nat)
  {
    match h
    case General => true
    case ContentLength => n < ULLONG_MAX
    case MatchingChunked => Matching(CHUNKED, i)
    case MatchingKeepAlive => Matching(KEEP_ALIVE, i)
    case MatchingClose => Matching(CLOSE, i)
    case MatchingConnectionUpgrade => Matching(UPGRADE, i)
    case TokenStart => i == 0
    case ConnectionToken => true
    case Chunked => true
    case KeepAlive => true
    case Close => true
    case ConnectionUpgrade => true
    case _ => false
  }

  predicate StateOk(c: Core)
  {
    match c.state
    case ReqMethod => 1 <= c.index <= |MethodName(c.verb)|
    case HeaderField => FieldHeader(c.header, c.index)
    case HeaderValueDiscardWs => FieldHeader(c.header, c.index)
    case HeaderValueDiscardWsAlmostDone => FieldHeader(c.header, c.index)
    case HeaderValueDiscardLws => FieldHeader(c.header, c.index)
    case HeaderValueStart => ValueHeader(c.header, c.index, c.contentLength)
    case HeaderValue => ValueHeader(c.header, c.index, c.contentLength)
    case HeaderAlmostDone => ValueHeader(c.header, c.index, c.contentLength)
    case HeaderValueLws => ValueHeader(c.header, c.index, c.contentLength)
    case ChunkSizeStart => c.flags.chunked
    case ChunkSize => c.flags.chunked && c.contentLength < ULLONG_MAX
    case ChunkParameters => c.flags.chunked && c.contentLength < ULLONG_MAX
    case ChunkSizeAlmostDone => c.flags.chunked && c.contentLength < ULLONG_MAX
    case ChunkData => c.flags.chunked && 0 < c.contentLength < ULLONG_MAX
    case ChunkDataAlmostDone => c.flags.chunked && c.contentLength == 0
    case ChunkDataDone => c.flags.chunked
    case BodyIdentity => 0 < c.contentLength < ULLONG_MAX
    case _ => true
  }

  /** The fields fit their widths, and the flag that does not fit is never seen. */
  predicate FieldsFit(c: Core)
  {
    !c.flags.skipBody && c.contentLength <= ULLONG_MAX && c.major <= 999 && c.minor <= 999 && c.status <= 999 &&
      c.index <= 20
  }

  predicate Inv(c: Core)
  {
    StateOk(c) && FieldsFit(c) && c.errno == OK
  }

  /** All assertions on the way through the switch, for nread header bytes counted, this one included. */
  predicate AssertsHold(c: Core, nread: nat)
  {
    c.errno == OK &&
    match c.state
    case HeaderField => FieldHeader(c.header, c.index)
    case HeaderValue => !c.header.Connection? && !c.header.TransferEncoding?
    case ChunkSizeStart => c.flags.chunked && nread == 1
    case ChunkSize => c.flags.chunked
    case ChunkParameters => c.flags.chunked
    case ChunkSizeAlmostDone => c.flags.chunked
    case ChunkData => c.flags.chunked && c.contentLength != 0 && c.contentLength != ULLONG_MAX
    case ChunkDataAlmostDone => c.flags.chunked && c.contentLength == 0
    case ChunkDataDone => c.flags.chunked
    case BodyIdentity => c.contentLength != 0 && c.contentLength != ULLONG_MAX
    case _ => true
  }

  /** The count of header bytes starts anew where a chunk size is expected. */
  predicate CountOk(c: Core, nread: nat)
  {
    c.state.ChunkSizeStart? ==> nread == 0
  }

  /** The state http_parser_init leaves. */
  function Init(t: ParserType): Core
  {
    Core(t, NO_FLAGS, match t case Request => StartReq case Response => StartRes case Both => StartReqOrRes,
         General, 0, 0, 0, 0, 0, DELETE, OK, false)
  }

  lemma InitOk(t: ParserType)
    ensures Inv(Init(t)) && CountOk(Init(t), 0)
  {
  }

  lemma InvAsserts(c: Core, nread: nat)
    requires Inv(c) && CountOk(c, nread)
    ensures AssertsHold(c, if ParsingHeader(c.state) then nread + 1 else nread)
  {
  }

  /** A pass keeps the invariant. */
  predicate Keeps(c: Core, o: Out)
  {
    Inv(c) && o.next != Fail ==> Inv(o.c) && (o.c.state.ChunkSizeStart? ==> o.reset)
  }

  lemma StartKeeps(c: Core, ch: byte)
    requires c.state.Dead? || c.state.StartReqOrRes? || c.state.ResOrRespH? || c.state.StartRes?
    ensures Keeps(c, StepStart(c, ch))
  {
    FreshFits(c);
    HeadName();
    hide FieldHeader, ValueHeader, MethodName, Fresh;
  }

  lemma FreshFits(c: Core)
    ensures Fresh(c) == c.(flags := NO_FLAGS, contentLength := ULLONG_MAX)
  {
  }

  lemma HeadName()
    ensures |MethodName(HEAD)| == 4
  {
  }

  lemma ResVersionKeeps(c: Core, ch: byte)
    requires !c.state.ChunkSizeStart?
    ensures Keeps(c, StepResVersion(c, ch))
  {
    hide FieldHeader, ValueHeader, MethodName, CharAt;
  }

  lemma StatusKeeps(c: Core, ch: byte)
    requires !c.state.ChunkSizeStart?
    ensures Keeps(c, StepStatus(c, ch))
  {
    hide FieldHeader, ValueHeader, MethodName, CharAt;
  }

  lemma MethodKeeps(c: Core, ch: byte)
    requires c.state.StartReq? || c.state.ReqMethod?
    ensures Keeps(c, StepMethod(c, ch))
  {
    if c.state.ReqMethod? && Inv(c) && ch != 0 {
      var m := OtherMethod(c.verb, c.index, ch);
      if m.Some? { OtherMethodLonger(c.verb, c.index, ch); }
      NamesShort(c.verb);
      NameEnds(c.verb, c.index);
      hide OtherMethod, MethodName, CharAt;
    }
  }

  lemma NamesShort(m: Method)
    ensures 1 <= |MethodName(m)| <= 11
  {
  }

  /** A non-zero character lies before the end of the name. */
  lemma NameEnds(m: Method, i: nat)
    ensures CharAt(MethodName(m), i) != 0 ==> i < |MethodName(m)|
  {
  }

  lemma OtherMethodLonger(m: Method, i: nat, ch: byte)
    requires OtherMethod(m, i, ch).Some?
    ensures i + 1 <= |MethodName(OtherMethod(m, i, ch).value)|
  {
  }

  lemma UrlKeeps(c: Core, ch: byte)
    requires c.state.ReqSpacesBeforeUrl? || EarlyUrl(c.state) || LateUrl(c.state)
    ensures Keeps(c, StepUrl(c, ch))
  {
    UrlStates(if c.state.ReqSpacesBeforeUrl? && c.verb == CONNECT then ReqServerStart else c.state, ch);
    hide ParseUrlChar;
  }

  lemma ReqVersionKeeps(c: Core, ch: byte)
    requires !c.state.ChunkSizeStart?
    ensures Keeps(c, StepReqVersion(c, ch))
  {
    hide FieldHeader, ValueHeader, MethodName, CharAt;
  }

  lemma FieldKeeps(c: Core, ch: byte)
    requires c.state.HeaderFieldStart? || c.state.HeaderField?
    ensures Keeps(c, StepField(c, ch))
  {
    if c.state.HeaderField? && Inv(c) {
      FieldNextOk(c, Token(ch), ch);
      hide FieldNext;
    }
  }

  lemma FieldNextOk(c: Core, t: byte, ch: byte)
    requires c.state.HeaderField? && Inv(c)
    ensures Inv(FieldNext(c, t, ch)) && FieldNext(c, t, ch).state == c.state
  {
    hide *;
    InField(c);
    if FieldWord(c.header) { FieldWordOk(c, t, ch); } else { FieldPlainOk(c, t, ch); }
    InField(FieldNext(c, t, ch));
  }

  /** The invariant inside a field name, and inside a value, with the other states out of sight. */
  lemma InField(c: Core)
    requires c.state.HeaderField?
    ensures Inv(c) <==> FieldHeader(c.header, c.index) && FieldsFit(c) && c.errno == OK
  {
    hide FieldHeader, FieldsFit;
  }

  lemma InValue(c: Core)
    requires c.state.HeaderValue?
    ensures Inv(c) <==> ValueHeader(c.header, c.index, c.contentLength) && FieldsFit(c) && c.errno == OK
  {
    hide ValueHeader, FieldsFit;
  }

  predicate FieldWord(h: HeaderState)
  {
    h.MatchingConnection? || h.MatchingProxyConnection? || h.MatchingContentLength? || h.MatchingTransferEncoding? ||
    h.MatchingUpgrade?
  }

  lemma FieldPlainOk(c: Core, t: byte, ch: byte)
    requires FieldHeader(c.header, c.index) && FieldsFit(c) && !FieldWord(c.header)
    ensures var d := FieldNext(c, t, ch);
      d.state == c.state && d.errno == c.errno && FieldHeader(d.header, d.index) && FieldsFit(d)
  {
    hide MatchWord;
  }

  lemma FieldWordOk(c: Core, t: byte, ch: byte)
    requires FieldHeader(c.header, c.index) && FieldsFit(c) && FieldWord(c.header)
    ensures var d := FieldNext(c, t, ch);
      d.state == c.state && d.errno == c.errno && FieldHeader(d.header, d.index) && FieldsFit(d)
  {
    hide *;
    var i, word, found := c.index + 1, TargetWord(c.header), TargetFound(c.header);
    FieldWordIs(c, t, ch);
    FieldWordMeans(c.header, c.index);
    FieldWordMeans(c.header, i);
    MatchingIs(word, c.index);
    MatchingIs(word, i);
    WordMatch(word, i, t, c.header, found, General);
    FitsAgain(c, FieldNext(c, t, ch));
  }

  lemma MatchingIs(word: string, i: nat)
    ensures Matching(word, i) <==> i + 1 < |word|
  {
  }

  lemma FitsAgain(c: Core, d: Core)
    requires FieldsFit(c) && d == c.(index := d.index, header := d.header) && d.index <= 20
    ensures FieldsFit(d)
  {
  }

  /** The word a field name is being compared with, and what finding it means. */
  function TargetWord(h: HeaderState): string
  {
    if h.MatchingConnection? then CONNECTION else if h.MatchingProxyConnection? then PROXY_CONNECTION
    else if h.MatchingContentLength? then CONTENT_LENGTH
    else if h.MatchingTransferEncoding? then TRANSFER_ENCODING else UPGRADE
  }

  function TargetFound(h: HeaderState): HeaderState
  {
    if h.MatchingConnection? || h.MatchingProxyConnection? then Connection
    else if h.MatchingContentLength? then ContentLength
    else if h.MatchingTransferEncoding? then TransferEncoding else Upgrade
  }

  lemma FieldWordIs(c: Core, t: byte, ch: byte)
    requires FieldWord(c.header)
    ensures FieldNext(c, t, ch) ==
      c.(index := c.index + 1,
         header := MatchWord(TargetWord(c.header), c.index + 1, t, c.header, TargetFound(c.header), General))
  {
    hide MatchWord;
  }

  lemma FieldWordMeans(h: HeaderState, i: nat)
    requires FieldWord(h)
    ensures FieldHeader(h, i) <==> Matching(TargetWord(h), i)
    ensures |TargetWord(h)| <= 17 && FieldHeader(TargetFound(h), i) && FieldHeader(General, i)
  {
    hide Matching;
  }

  lemma ValueKeeps(c: Core, ch: byte)
    requires c.state.HeaderValueDiscardWs? || c.state.HeaderValueDiscardWsAlmostDone? ||
      c.state.HeaderValueDiscardLws? ||
      c.state.HeaderValueStart? || c.state.HeaderValue? || c.state.HeaderValueLws? || c.state.HeaderAlmostDone?
    ensures Keeps(c, StepValue(c, ch))
  {
    hide ValueStart, ValueNext, FieldHeader, ValueHeader;
    if c.state.HeaderValueDiscardWs? || c.state.HeaderValueStart? {
      if Inv(c) { ValueStartOk(c, ch); }
      ValueStartKeeps(c, ch);
    } else if c.state.HeaderValue? {
      if Inv(c) { ValueNextOk(c, ch); }
      ValueNextKeeps(c, ch);
    } else {
      ValueEndKeeps(c, ch);
    }
  }

  lemma ValueEndKeeps(c: Core, ch: byte)
    requires c.state.HeaderValueDiscardWsAlmostDone? || c.state.HeaderValueDiscardLws? ||
      c.state.HeaderValueLws? || c.state.HeaderAlmostDone?
    ensures Keeps(c, StepValue(c, ch))
  {
    FlagFits(c);
    hide ValueStart, ValueNext, FieldHeader, ValueHeader, HeaderFlag;
  }

  lemma FlagFits(c: Core)
    ensures FieldsFit(c) ==> FieldsFit(HeaderFlag(c))
    ensures HeaderFlag(c) == c.(flags := HeaderFlag(c).flags)
  {
  }

  lemma ValueStartOk(c: Core, ch: byte)
    requires Inv(c) && (FieldHeader(c.header, c.index) || ValueHeader(c.header, c.index, c.contentLength))
    ensures ValueStart(c, ch).next != Fail ==> Inv(ValueStart(c, ch).c)
  {
    hide Lower, MethodName, Inv;
    InvFits(c);
    if ValueStart(c, ch).next != Fail { InValue(ValueStart(c, ch).c); }
  }

  lemma InvFits(c: Core)
    requires Inv(c)
    ensures FieldsFit(c) && c.errno == OK
  {
    hide StateOk;
  }

  lemma ValueNextOk(c: Core, ch: byte)
    requires c.state.HeaderValue? && Inv(c)
    ensures ValueNext(c, ch).next != Fail ==> Inv(ValueNext(c, ch).c)
  {
    hide *;
    InValue(c);
    if c.header.KeepAlive? || c.header.Close? || c.header.ConnectionUpgrade? {
      AfterTokenOk(c, ch);
      AfterTokenIs(c, ch);
    } else if c.header.MatchingChunked? || c.header.MatchingKeepAlive? || c.header.MatchingClose? ||
              c.header.MatchingConnectionUpgrade? {
      ValueWordOk(c, ch);
      InValue(ValueNext(c, ch).c);
    } else {
      ValuePlainOk(c, ch);
      if ValueNext(c, ch).next != Fail { InValue(ValueNext(c, ch).c); }
    }
  }

  lemma AfterTokenIs(c: Core, ch: byte)
    requires c.header.KeepAlive? || c.header.Close? || c.header.ConnectionUpgrade?
    ensures ValueNext(c, ch) == AfterToken(c, ch)
  {
    hide AfterToken;
  }

  lemma ValuePlainOk(c: Core, ch: byte)
    requires ValueHeader(c.header, c.index, c.contentLength) && FieldsFit(c)
    requires !c.header.KeepAlive? && !c.header.Close? && !c.header.ConnectionUpgrade?
    requires !c.header.MatchingChunked? && !c.header.MatchingKeepAlive? && !c.header.MatchingClose? &&
      !c.header.MatchingConnectionUpgrade?
    ensures var o := ValueNext(c, ch);
      o.next != Fail ==>
        o.c.state == c.state && o.c.errno == c.errno && FieldsFit(o.c) &&
          ValueHeader(o.c.header, o.c.index, o.c.contentLength)
  {
    hide Lower, Token;
  }

  lemma ValueWordOk(c: Core, ch: byte)
    requires ValueHeader(c.header, c.index, c.contentLength) && FieldsFit(c)
    requires c.header.MatchingChunked? || c.header.MatchingKeepAlive? || c.header.MatchingClose? ||
      c.header.MatchingConnectionUpgrade?
    ensures var d := ValueNext(c, ch).c;
      d.state == c.state && d.errno == c.errno && FieldsFit(d) && ValueHeader(d.header, d.index, d.contentLength)
  {
    var l, i := Lower(ch), c.index + 1;
    WordMatch(CHUNKED, i, l, c.header, Chunked, General);
    WordMatch(KEEP_ALIVE, i, l, c.header, KeepAlive, ConnectionToken);
    WordMatch(CLOSE, i, l, c.header, Close, ConnectionToken);
    WordMatch(UPGRADE, i, l, c.header, ConnectionUpgrade, ConnectionToken);
    assert |CHUNKED| == 7 && |KEEP_ALIVE| == 10 && |CLOSE| == 5 && |UPGRADE| == 7;
    hide MatchWord, CharAt, Lower, Token, TokenFirst, CHUNKED, KEEP_ALIVE, CLOSE, UPGRADE;
  }

  lemma AfterTokenOk(c: Core, ch: byte)
    requires c.state.HeaderValue? && Inv(c) && (c.header.KeepAlive? || c.header.Close? || c.header.ConnectionUpgrade?)
    ensures AfterToken(c, ch).next == Consume && Inv(AfterToken(c, ch).c)
  {
  }

  /** One more character leaves the position before the end, or finds or loses the word. */
  lemma WordMatch(word: string, i: nat, c: byte, here: HeaderState, found: HeaderState, lost: HeaderState)
    requires i < |word| || (|word| > 0 && c != 0)
    ensures var h := MatchWord(word, i, c, here, found, lost);
      h == lost || h == found || (h == here && Matching(word, i))
  {
  }

  lemma HeadersEndKeeps(c: Core, ch: byte, skip: bool)
    requires c.state.HeadersAlmostDone? || c.state.HeadersDone?
    ensures Keeps(c, StepHeadersEnd(c, ch, skip))
  {
    NewMessageStates(c);
    hide NewMessage, MessageNeedsEof, ShouldKeepAlive;
  }

  lemma BodyKeeps(c: Core, ch: byte)
    requires InBody(c.state) || c.state.ChunkDataDone? || c.state.MessageDone?
    ensures Keeps(c, StepBody(c, ch))
  {
    NewMessageStates(c);
    hide NewMessage, MessageNeedsEof, ShouldKeepAlive;
  }

  lemma ChunkSizeKeeps(c: Core, ch: byte)
    requires c.state.ChunkSizeStart? || c.state.ChunkSize? || c.state.ChunkParameters? || c.state.ChunkSizeAlmostDone?
    ensures Keeps(c, StepChunkSize(c, ch))
  {
    UnhexRange(ch);
    hide Unhex, FieldHeader, ValueHeader, MethodName;
    if c.state.ChunkSize? { ChunkDigitFits(c.contentLength, Unhex(ch)); }
  }

  lemma ChunkDigitFits(n: nat, d: int)
    requires -1 <= d <= 15
    ensures (ULLONG_MAX - 16) / 16 >= n ==> n * 16 + d < ULLONG_MAX
  {
  }

  /** Every pass through the switch keeps the invariant, and resets the count where a chunk size follows. */
  lemma StepKeeps(c: Core, ch: byte, skip: bool)
    requires Inv(c) && Step(c, ch, skip).next != Fail
    ensures Inv(Step(c, ch, skip).c)
    ensures Step(c, ch, skip).c.state.ChunkSizeStart? ==> Step(c, ch, skip).reset
  {
    match c.state {
      case Dead => StartKeeps(c, ch);
      case StartReqOrRes => StartKeeps(c, ch);
      case ResOrRespH => StartKeeps(c, ch);
      case StartRes => StartKeeps(c, ch);
      case StartReq => MethodKeeps(c, ch);
      case ReqMethod => MethodKeeps(c, ch);
      case HeaderFieldStart => FieldKeeps(c, ch);
      case HeaderField => FieldKeeps(c, ch);
      case HeaderValueDiscardWs => ValueKeeps(c, ch);
      case HeaderValueDiscardWsAlmostDone => ValueKeeps(c, ch);
      case HeaderValueDiscardLws => ValueKeeps(c, ch);
      case HeaderValueStart => ValueKeeps(c, ch);
      case HeaderValue => ValueKeeps(c, ch);
      case HeaderValueLws => ValueKeeps(c, ch);
      case HeaderAlmostDone => ValueKeeps(c, ch);
      case HeadersAlmostDone => HeadersEndKeeps(c, ch, skip);
      case HeadersDone => HeadersEndKeeps(c, ch, skip);
      case ChunkSizeStart => ChunkSizeKeeps(c, ch);
      case ChunkSize => ChunkSizeKeeps(c, ch);
      case ChunkParameters => ChunkSizeKeeps(c, ch);
      case ChunkSizeAlmostDone => ChunkSizeKeeps(c, ch);
      case ChunkData => BodyKeeps(c, ch);
      case ChunkDataAlmostDone => BodyKeeps(c, ch);
      case ChunkDataDone => BodyKeeps(c, ch);
      case BodyIdentity => BodyKeeps(c, ch);
      case BodyIdentityEof => BodyKeeps(c, ch);
      case MessageDone => BodyKeeps(c, ch);
      case _ => LineKeeps(c, ch);
    }
    hide StepStart, StepResVersion, StepStatus, StepMethod, StepUrl, StepReqVersion, StepField, StepValue,
      StepHeadersEnd, StepBody;
    hide StepChunkSize, StateOk;
  }

  lemma LineKeeps(c: Core, ch: byte)
    requires !c.state.ChunkSizeStart?
    ensures Keeps(c, StepResVersion(c, ch)) && Keeps(c, StepStatus(c, ch)) && Keeps(c, StepReqVersion(c, ch))
    ensures c.state.ReqSpacesBeforeUrl? || EarlyUrl(c.state) || LateUrl(c.state) ==> Keeps(c, StepUrl(c, ch))
  {
    ResVersionKeeps(c, ch);
    StatusKeeps(c, ch);
    ReqVersionKeeps(c, ch);
    if c.state.ReqSpacesBeforeUrl? || EarlyUrl(c.state) || LateUrl(c.state) { UrlKeeps(c, ch); }
    hide Keeps;
  }

  /** The invariant holds all along a run, over any bytes. */
  lemma {:induction false} ExecKeeps(r: Run, s: seq<byte>, skip: bool)
    requires Inv(r.c) && r.stop != Failed
    ensures Exec(r, s, skip).stop != Failed ==> Inv(Exec(r, s, skip).c)
    decreases |s|, Rank(r.c.state)
  {
    if r.stop == Going && s != [] {
      var o := Step(r.c, s[0], skip);
      if o.next != Fail { StepKeeps(r.c, s[0], skip); }
      if o.next == Again {
        AgainDescends(r.c, s[0], skip);
        ExecKeeps(Apply(r, o, s[0]), s, skip);
      } else if o.next != Fail {
        ExecKeeps(Apply(r, o, s[0]), s[1..], skip);
      } else {
        assert Exec(Apply(r, o, s[0]), s[1..], skip) == Apply(r, o, s[0]);
      }
    }
  }

  /** What headers_complete returns never matters: a response to a HEAD request is parsed as if it had a body. */
  lemma {:induction false} SkipBodyHasNoEffect(r: Run, s: seq<byte>)
    requires Inv(r.c) && r.stop != Failed
    ensures Exec(r, s, true) == Exec(r, s, false)
    decreases |s|, Rank(r.c.state)
  {
    if r.stop == Going && s != [] {
      var o := Step(r.c, s[0], true);
      assert Step(r.c, s[0], false) == o by { SkipSame(r.c, s[0]); }
      if o.next != Fail { StepKeeps(r.c, s[0], true); }
      if o.next == Again {
        AgainDescends(r.c, s[0], true);
        SkipBodyHasNoEffect(Apply(r, o, s[0]), s);
      } else if o.next != Fail {
        SkipBodyHasNoEffect(Apply(r, o, s[0]), s[1..]);
      }
    }
  }

  lemma SkipSame(c: Core, ch: byte)
    requires FieldsFit(c)
    ensures Step(c, ch, true) == Step(c, ch, false)
  {
    assert StepHeadersEnd(c, ch, true) == StepHeadersEnd(c, ch, false);
    hide StepStart, StepResVersion, StepStatus, StepMethod, StepUrl, StepReqVersion, StepField, StepValue,
      StepHeadersEnd, StepBody;
    hide StepChunkSize;
  }

  /** What the callback asks for with 1: no body follows the headers, so the message ends with them. */
  predicate EndsWithHeaders(c: Core, skip: bool)
  {
    Step(c, LF, skip).note == Some(MessageComplete)
  }

  /**
   The message ends with its headers exactly if the connection is upgraded, or if the headers announce no body; what the
   callback returns has no part in it.
   */
  lemma EndsWithHeadersIff(c: Core, skip: bool)
    requires Inv(c) && c.state == HeadersDone
    ensures EndsWithHeaders(c, skip) <==>
      c.upgrade ||
        (!c.flags.chunked && (c.contentLength == 0 || (c.contentLength == ULLONG_MAX && !MessageNeedsEof(c))))
  {
    assert Step(c, LF, skip) == StepHeadersEnd(c, LF, skip);
  }

  lemma HeadersEndStep(c: Core, ch: byte, skip: bool)
    requires c.state.HeadersAlmostDone? || c.state.HeadersDone?
    ensures Step(c, ch, skip) == StepHeadersEnd(c, ch, skip)
  {
    hide StepHeadersEnd;
  }

  lemma SkippedSteps(c: Core)
    requires c.state == HeadersAlmostDone && c.flags == NO_FLAGS && c.verb != CONNECT && !c.upgrade
    requires 0 < c.contentLength < ULLONG_MAX
    ensures Step(c, LF, true) == Redo(c.(state := HeadersDone)).(note := Some(HeadersComplete))
    ensures Step(c.(state := HeadersDone), LF, true) == To(c.(state := HeadersDone), BodyIdentity).(reset := true)
  {
    hide Step;
    HeadersEndStep(c, LF, true);
    HeadersEndStep(c.(state := HeadersDone), LF, true);
  }
}
