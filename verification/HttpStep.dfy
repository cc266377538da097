/** One pass through the parser's switch, for one byte: what the state becomes and what is to be reported. */
module HttpStep {
  import opened Options
  import opened HttpTypes

  /** Go on with the next byte, look at this one again, stop with an error, or leave for another protocol. */
  datatype Next = Consume | Again | Fail | Leave

  /**
   A token may start at this byte (mark); the token that is open may end, without this byte or with it
   (flush, whole); a notification may follow; the count of header bytes may be reset.
   */
  datatype Out = Out(c: Core, next: Next, mark: Option<Kind>, flush: Option<Kind>, whole: bool, note: Option<Note>,
      reset: bool)

  function Eat(c: Core): Out
  {
    Out(c, Consume, None, None, false, None, false)
  }

  function To(c: Core, s: State): Out
  {
    Eat(c.(state := s))
  }

  function Redo(c: Core): Out
  {
    Out(c, Again, None, None, false, None, false)
  }

  function Refuse(c: Core, e: Errno): Out
  {
    Out(c.(errno := e), Fail, None, None, false, None, false)
  }

  /** A byte that must be this one. */
  function Expect(c: Core, ch: byte, want: byte, s: State, e: Errno): Out
  {
    if ch == want then To(c, s) else Refuse(c, e)
  }

  // ---- End of a message ------------------------------------------------------

  function MessageNeedsEof(c: Core): bool
  {
    !c.kind.Request? &&
    !(c.status / 100 == 1 || c.status == 204 || c.status == 304 || c.flags.skipBody) &&
    !(c.flags.chunked || c.contentLength != ULLONG_MAX)
  }

  function ShouldKeepAlive(c: Core): bool
  {
    (if c.major > 0 && c.minor > 0 then !c.flags.close else c.flags.keepAlive) && !MessageNeedsEof(c)
  }

  function NewMessage(c: Core): State
  {
    if !ShouldKeepAlive(c) then Dead else if c.kind.Request? then StartReq else StartRes
  }

  /** The message is over with this byte. */
  function Done(c: Core): Out
  {
    To(c, NewMessage(c)).(note := Some(MessageComplete))
  }

  // ---- Start of a message ----------------------------------------------------

  function Fresh(c: Core): Core
  {
    c.(flags := NO_FLAGS, contentLength := ULLONG_MAX)
  }

  function StepStart(c: Core, ch: byte): Out
  {
    match c.state
    case Dead => if ch == CR || ch == LF then Eat(c) else Refuse(c, ClosedConnection)
    case StartReqOrRes =>
      if ch == CR || ch == LF then Eat(c)
      else if ch == 72 then To(Fresh(c), ResOrRespH).(note := Some(MessageBegin))
      else Redo(Fresh(c).(kind := Request, state := StartReq))
    case ResOrRespH =>
      if ch == 84 then To(c.(kind := Response), ResHT)
      else if ch != 69 then Refuse(c, InvalidConstant)
      else To(c.(kind := Request, verb := HEAD, index := 2), ReqMethod)
    case StartRes =>
      if ch == 72 then To(Fresh(c), ResH).(note := Some(MessageBegin))
      else if ch == CR || ch == LF then Eat(Fresh(c)).(note := Some(MessageBegin))
      else Refuse(Fresh(c), InvalidConstant)
    case _ => Eat(c)
  }

  // ---- Status line -------------------------------------------------------------

  function StepResVersion(c: Core, ch: byte): Out
  {
    match c.state
    case ResH => Expect(c, ch, 84, ResHT, Strict)
    case ResHT => Expect(c, ch, 84, ResHTT, Strict)
    case ResHTT => Expect(c, ch, 80, ResHTTP, Strict)
    case ResHTTP => Expect(c, ch, SLASH, ResFirstMajor, Strict)
    case ResFirstMajor => if !IsNum(ch) then Refuse(c, InvalidVersion) else To(c.(major := ch - 48), ResMajor)
    case ResMajor =>
      if ch == 46 then To(c, ResFirstMinor)
      else if !IsNum(ch) then Refuse(c, InvalidVersion)
      else
        var v := c.major * 10 + (ch - 48);
        if v > 999 then Refuse(c.(major := v), InvalidVersion) else Eat(c.(major := v))
    case ResFirstMinor => if !IsNum(ch) then Refuse(c, InvalidVersion) else To(c.(minor := ch - 48), ResMinor)
    case ResMinor =>
      if ch == SP then To(c, ResFirstStatusCode)
      else if !IsNum(ch) then Refuse(c, InvalidVersion)
      else
        var v := c.minor * 10 + (ch - 48);
        if v > 999 then Refuse(c.(minor := v), InvalidVersion) else Eat(c.(minor := v))
    case _ => Eat(c)
  }

  function StepStatus(c: Core, ch: byte): Out
  {
    match c.state
    case ResFirstStatusCode =>
      if !IsNum(ch) then (if ch == SP then Eat(c) else Refuse(c, InvalidStatus))
      else To(c.(status := ch - 48), ResStatusCode)
    case ResStatusCode =>
      if !IsNum(ch) then
        if ch == SP then To(c, ResStatusStart)
        else if ch == CR then To(c, ResLineAlmostDone)
        else if ch == LF then To(c, HeaderFieldStart)
        else Refuse(c, InvalidStatus)
      else
        var v := c.status * 10 + (ch - 48);
        if v > 999 then Refuse(c.(status := v), InvalidStatus) else Eat(c.(status := v))
    case ResStatusStart =>
      if ch == CR then To(c, ResLineAlmostDone)
      else if ch == LF then To(c, HeaderFieldStart)
      else To(c.(index := 0), ResStatus).(mark := Some(StatusData))
    case ResStatus =>
      if ch == CR then To(c, ResLineAlmostDone).(flush := Some(StatusData))
      else if ch == LF then To(c, HeaderFieldStart).(flush := Some(StatusData))
      else Eat(c)
    case ResLineAlmostDone => Expect(c, ch, LF, HeaderFieldStart, Strict)
    case _ => Eat(c)
  }

  // ---- Request line --------------------------------------------------------------

  function FirstMethod(ch: byte): Option<Method>
  {
    if ch == 67 then Some(CONNECT)
    else if ch == 68 then Some(DELETE)
    else if ch == 71 then Some(GET)
    else if ch == 72 then Some(HEAD)
    else if ch == 76 then Some(LOCK)
    else if ch == 77 then Some(MKCOL)
    else if ch == 78 then Some(NOTIFY)
    else if ch == 79 then Some(OPTIONS)
    else if ch == 80 then Some(POST)
    else if ch == 82 then Some(REPORT)
    else if ch == 83 then Some(SUBSCRIBE)
    else if ch == 84 then Some(TRACE)
    else if ch == 85 then Some(UNLOCK)
    else None
  }

  /** The method that the mismatching byte at index i turns the guessed method into. */
  function OtherMethod(m: Method, i: nat, ch: byte): Option<Method>
  {
    if m == CONNECT then
      if i == 1 && ch == 72 then Some(CHECKOUT) else if i == 2 && ch == 80 then Some(COPY) else None
    else if m == MKCOL then
      if i == 1 && ch == 79 then Some(MOVE)
      else if i == 1 && ch == 69 then Some(MERGE)
      else if i == 1 && ch == 45 then Some(MSEARCH)
      else if i == 2 && ch == 65 then Some(MKACTIVITY)
      else if i == 3 && ch == 65 then Some(MKCALENDAR)
      else None
    else if m == SUBSCRIBE then
      if i == 1 && ch == 69 then Some(SEARCH) else None
    else if i == 1 && m == POST then
      if ch == 82 then Some(PROPFIND) else if ch == 85 then Some(PUT) else if ch == 65 then Some(PATCH) else None
    else if i == 2 then
      if m == PUT then (if ch == 82 then Some(PURGE) else None)
      else if m == UNLOCK then (if ch == 83 then Some(UNSUBSCRIBE) else None)
      else None
    else if i == 4 && m == PROPFIND && ch == 80 then Some(PROPPATCH)
    else None
  }

  function StepMethod(c: Core, ch: byte): Out
  {
    match c.state
    case StartReq =>
      if ch == CR || ch == LF then Eat(c)
      else
        var f := Fresh(c);
        if !IsAlpha(ch) then Refuse(f, InvalidMethod)
        else
          var m := FirstMethod(ch);
          if m.None? then Refuse(f.(verb := DELETE, index := 1), InvalidMethod)
          else To(f.(verb := m.value, index := 1), ReqMethod).(note := Some(MessageBegin))
    case ReqMethod =>
      if ch == 0 then Refuse(c, InvalidMethod)
      else
        var want := CharAt(MethodName(c.verb), c.index);
        if ch == SP && want == 0 then To(c.(index := c.index + 1), ReqSpacesBeforeUrl)
        else if ch == want then Eat(c.(index := c.index + 1))
        else
          var m := OtherMethod(c.verb, c.index, ch);
          if m.None? then Refuse(c, InvalidMethod) else Eat(c.(verb := m.value, index := c.index + 1))
    case _ => Eat(c)
  }

  function ParseUrlChar(s: State, ch: byte): State
  {
    if ch == SP || ch == CR || ch == LF || ch == TAB || ch == FF then Dead
    else
      match s
      case ReqSpacesBeforeUrl => if ch == SLASH || ch == 42 then ReqPath else if IsAlpha(ch) then ReqSchema else Dead
      case ReqSchema => if IsAlpha(ch) then ReqSchema else if ch == COLON then ReqSchemaSlash else Dead
      case ReqSchemaSlash => if ch == SLASH then ReqSchemaSlashSlash else Dead
      case ReqSchemaSlashSlash => if ch == SLASH then ReqServerStart else Dead
      case ReqServerWithAt => if ch == 64 then Dead else ParseServerChar(ch)
      case ReqServerStart => ParseServerChar(ch)
      case ReqServer => ParseServerChar(ch)
      case ReqPath =>
        if IsUrlChar(ch) then ReqPath else if ch == 63 then ReqQueryStringStart else if ch == 35 then ReqFragmentStart
          else Dead
      case ReqQueryStringStart => ParseQueryChar(ch)
      case ReqQueryString => ParseQueryChar(ch)
      case ReqFragmentStart =>
        if IsUrlChar(ch) || ch == 63 then ReqFragment else if ch == 35 then ReqFragmentStart else Dead
      case ReqFragment => if IsUrlChar(ch) || ch == 63 || ch == 35 then ReqFragment else Dead
      case _ => Dead
  }

  function ParseServerChar(ch: byte): State
  {
    if ch == SLASH then ReqPath
    else if ch == 63 then ReqQueryStringStart
    else if ch == 64 then ReqServerWithAt
    else if IsUserinfoChar(ch) || ch == 91 || ch == 93 then ReqServer
    else Dead
  }

  function ParseQueryChar(ch: byte): State
  {
    if IsUrlChar(ch) || ch == 63 then ReqQueryString else if ch == 35 then ReqFragmentStart else Dead
  }

  function UrlStep(c: Core, from: State, ch: byte): Out
  {
    var s := ParseUrlChar(from, ch);
    if s == Dead then Refuse(c.(state := Dead), InvalidUrl) else To(c, s)
  }

  /** States in which the URL may not end. */
  predicate EarlyUrl(s: State)
  {
    s.ReqSchema? || s.ReqSchemaSlash? || s.ReqSchemaSlashSlash? || s.ReqServerStart?
  }

  predicate LateUrl(s: State)
  {
    s.ReqServer? || s.ReqServerWithAt? || s.ReqPath? || s.ReqQueryStringStart? || s.ReqQueryString? ||
    s.ReqFragmentStart? || s.ReqFragment?
  }

  function StepUrl(c: Core, ch: byte): Out
  {
    if c.state.ReqSpacesBeforeUrl? then
      if ch == SP then Eat(c)
      else UrlStep(c, if c.verb == CONNECT then ReqServerStart else ReqSpacesBeforeUrl, ch).(mark := Some(UrlData))
    else if EarlyUrl(c.state) then
      if ch == SP || ch == CR || ch == LF then Refuse(c, InvalidUrl) else UrlStep(c, c.state, ch)
    else if LateUrl(c.state) then
      if ch == SP then To(c, ReqHttpStart).(flush := Some(UrlData))
      else if ch == CR || ch == LF then
        To(c.(major := 0, minor := 9), if ch == CR then ReqLineAlmostDone
          else HeaderFieldStart).(flush := Some(UrlData))
      else UrlStep(c, c.state, ch)
    else Eat(c)
  }

  function StepReqVersion(c: Core, ch: byte): Out
  {
    match c.state
    case ReqHttpStart => if ch == 72 then To(c, ReqHttpH) else if ch == SP then Eat(c) else Refuse(c, InvalidConstant)
    case ReqHttpH => Expect(c, ch, 84, ReqHttpHT, Strict)
    case ReqHttpHT => Expect(c, ch, 84, ReqHttpHTT, Strict)
    case ReqHttpHTT => Expect(c, ch, 80, ReqHttpHTTP, Strict)
    case ReqHttpHTTP => Expect(c, ch, SLASH, ReqFirstMajor, Strict)
    case ReqFirstMajor =>
      if !(49 <= ch <= 57) then Refuse(c, InvalidVersion) else To(c.(major := ch - 48), ReqMajor)
    case ReqMajor =>
      if ch == 46 then To(c, ReqFirstMinor)
      else if !IsNum(ch) then Refuse(c, InvalidVersion)
      else
        var v := c.major * 10 + (ch - 48);
        if v > 999 then Refuse(c.(major := v), InvalidVersion) else Eat(c.(major := v))
    case ReqFirstMinor => if !IsNum(ch) then Refuse(c, InvalidVersion) else To(c.(minor := ch - 48), ReqMinor)
    case ReqMinor =>
      if ch == CR then To(c, ReqLineAlmostDone)
      else if ch == LF then To(c, HeaderFieldStart)
      else if !IsNum(ch) then Refuse(c, InvalidVersion)
      else
        var v := c.minor * 10 + (ch - 48);
        if v > 999 then Refuse(c.(minor := v), InvalidVersion) else Eat(c.(minor := v))
    case ReqLineAlmostDone => Expect(c, ch, LF, HeaderFieldStart, LfExpected)
    case _ => Eat(c)
  }

  // ---- Header fields -----------------------------------------------------------------

  function FirstOfField(c: byte): HeaderState
  {
    if c == 99 then HC
    else if c == 112 then MatchingProxyConnection
    else if c == 116 then MatchingTransferEncoding
    else if c == 117 then MatchingUpgrade
    else General
  }

  /** One more character of a word; when it is the last, the word is found. */
  function MatchWord(word: string, i: nat, c: byte, here: HeaderState, found: HeaderState,
      lost: HeaderState): HeaderState
  {
    if i > |word| || c != CharAt(word, i) then lost else if i + 1 == |word| then found else here
  }

  /** The field name's next character. */
  function FieldNext(c: Core, t: byte, ch: byte): Core
  {
    var i := c.index + 1;
    match c.header
    case General => c
    case HC => c.(index := i, header := if t == 111 then HCO else General)
    case HCO => c.(index := i, header := if t == 110 then HCON else General)
    case HCON =>
      c.(index := i, header := if t == 110 then MatchingConnection else if t == 116 then MatchingContentLength
        else General)
    case MatchingConnection => c.(index := i, header := MatchWord(CONNECTION, i, t, c.header, Connection, General))
    case MatchingProxyConnection =>
      c.(index := i, header := MatchWord(PROXY_CONNECTION, i, t, c.header, Connection, General))
    case MatchingContentLength =>
      c.(index := i, header := MatchWord(CONTENT_LENGTH, i, t, c.header, ContentLength, General))
    case MatchingTransferEncoding =>
      c.(index := i, header := MatchWord(TRANSFER_ENCODING, i, t, c.header, TransferEncoding, General))
    case MatchingUpgrade => c.(index := i, header := MatchWord(UPGRADE, i, t, c.header, Upgrade, General))
    case _ => if ch != SP then c.(header := General) else c
  }

  function StepField(c: Core, ch: byte): Out
  {
    match c.state
    case HeaderFieldStart =>
      if ch == CR then To(c, HeadersAlmostDone)
      else if ch == LF then Redo(c.(state := HeadersAlmostDone))
      else
        var t := Token(ch);
        if t == 0 then Refuse(c, InvalidHeaderToken)
        else To(c.(index := 0, header := FirstOfField(t)), HeaderField).(mark := Some(HeaderFieldData))
    case HeaderField =>
      var t := Token(ch);
      if t != 0 then Eat(FieldNext(c, t, ch))
      else if ch == COLON then To(c, HeaderValueDiscardWs).(flush := Some(HeaderFieldData))
      else Refuse(c, InvalidHeaderToken)
    case _ => Eat(c)
  }

  // ---- Header values ------------------------------------------------------------------

  function TokenFirst(l: byte): Option<HeaderState>
  {
    if l == 107 then Some(MatchingKeepAlive) else if l == 99 then Some(MatchingClose)
    else if l == 117 then Some(MatchingConnectionUpgrade) else None
  }

  /** The first byte of a value. */
  function ValueStart(c: Core, ch: byte): Out
  {
    var v := c.(state := HeaderValue, index := 0);
    var l := Lower(ch);
    var o := match c.header
      case Upgrade => Eat(v.(flags := Stored(v.flags.(upgrade := true)), header := General))
      case TransferEncoding => Eat(v.(header := if l == 99 then MatchingChunked else General))
      case ContentLength => if !IsNum(ch) then Refuse(v, InvalidContentLength) else Eat(v.(contentLength := ch - 48))
      case Connection => Eat(v.(header := if TokenFirst(l).Some? then TokenFirst(l).value else ConnectionToken))
      case TokenStart => Eat(v)
      case _ => Eat(v.(header := General));
    o.(mark := Some(HeaderValueData))
  }

  /** One more byte of a value that is neither CR nor LF. */
  function ValueNext(c: Core, ch: byte): Out
  {
    var l := Lower(ch);
    var i := c.index + 1;
    match c.header
    case General => Eat(c)
    case ContentLength =>
      if ch == SP then Eat(c)
      else if !IsNum(ch) then Refuse(c, InvalidContentLength)
      else if (ULLONG_MAX - 10) / 10 < c.contentLength then Refuse(c, InvalidContentLength)
      else Eat(c.(contentLength := c.contentLength * 10 + (ch - 48)))
    case MatchingChunked => Eat(c.(index := i, header := MatchWord(CHUNKED, i, l, c.header, Chunked, General)))
    case TokenStart =>
      if TokenFirst(l).Some? then Eat(c.(header := TokenFirst(l).value))
      else if Token(l) != 0 then Eat(c.(header := ConnectionToken))
      else if l == SP || l == TAB then Eat(c)
      else Eat(c.(header := General))
    case MatchingKeepAlive =>
      Eat(c.(index := i, header := MatchWord(KEEP_ALIVE, i, l, c.header, KeepAlive, ConnectionToken)))
    case MatchingClose => Eat(c.(index := i, header := MatchWord(CLOSE, i, l, c.header, Close, ConnectionToken)))
    case MatchingConnectionUpgrade =>
      Eat(c.(index := i, header := MatchWord(UPGRADE, i, l, c.header, ConnectionUpgrade, ConnectionToken)))
    case ConnectionToken => if ch == COMMA then Eat(c.(header := TokenStart, index := 0)) else Eat(c)
    case Chunked => if ch != SP then Eat(c.(header := General)) else Eat(c)
    case KeepAlive => AfterToken(c, ch)
    case Close => AfterToken(c, ch)
    case ConnectionUpgrade => AfterToken(c, ch)
    case _ => Eat(c.(header := General))
  }

  function AfterToken(c: Core, ch: byte): Out
  {
    if ch == COMMA then Eat(c.(flags := Stored(ConnectionFlag(c)), header := TokenStart, index := 0))
    else if ch != SP then Eat(c.(header := ConnectionToken))
    else Eat(c)
  }

  function ConnectionFlag(c: Core): Flags
  {
    match c.header
    case KeepAlive => c.flags.(keepAlive := true)
    case Close => c.flags.(close := true)
    case ConnectionUpgrade => c.flags.(connectionUpgrade := true)
    case _ => c.flags
  }

  /** The flag that a finished header sets. */
  function HeaderFlag(c: Core): Core
  {
    c.(flags := Stored(if c.header.Chunked? then c.flags.(chunked := true) else ConnectionFlag(c)))
  }

  function StepValue(c: Core, ch: byte): Out
  {
    match c.state
    case HeaderValueDiscardWs =>
      if ch == SP || ch == TAB then Eat(c)
      else if ch == CR then To(c, HeaderValueDiscardWsAlmostDone)
      else if ch == LF then To(c, HeaderValueDiscardLws)
      else ValueStart(c, ch)
    case HeaderValueStart => ValueStart(c, ch)
    case HeaderValue =>
      if ch == CR then To(c, HeaderAlmostDone).(flush := Some(HeaderValueData))
      else if ch == LF then Redo(c.(state := HeaderAlmostDone)).(flush := Some(HeaderValueData))
      else ValueNext(c, ch)
    case HeaderAlmostDone => Expect(c, ch, LF, HeaderValueLws, Strict)
    case HeaderValueLws =>
      if ch == SP || ch == TAB then Redo(c.(state := HeaderValueStart))
      else Redo(HeaderFlag(c).(state := HeaderFieldStart))
    case HeaderValueDiscardWsAlmostDone => Expect(c, ch, LF, HeaderValueDiscardLws, Strict)
    case HeaderValueDiscardLws =>
      if ch == SP || ch == TAB then To(c, HeaderValueDiscardWs)
      else Redo(HeaderFlag(c).(state := HeaderFieldStart)).(mark := Some(HeaderValueData),
        flush := Some(HeaderValueData))
    case _ => Eat(c)
  }

  // ---- End of the headers ---------------------------------------------------------------

  /** skip is what the headers_complete callback returns: whether the response is one to a HEAD request. */
  function StepHeadersEnd(c: Core, ch: byte, skip: bool): Out
  {
    match c.state
    case HeadersAlmostDone =>
      if ch != LF then Refuse(c, Strict)
      else if c.flags.trailing then Done(c)
      else
        var up := (c.flags.upgrade && c.flags.connectionUpgrade) || c.verb == CONNECT;
        var f := if skip then Stored(c.flags.(skipBody := true)) else c.flags;
        Redo(c.(state := HeadersDone, upgrade := up, flags := f)).(note := Some(HeadersComplete))
    case HeadersDone =>
      if ch != LF then Refuse(c, Strict)
      else if c.upgrade then Done(c).(next := Leave, reset := true)
      else if c.flags.skipBody then Done(c).(reset := true)
      else if c.flags.chunked then To(c, ChunkSizeStart).(reset := true)
      else if c.contentLength == 0 then Done(c).(reset := true)
      else if c.contentLength != ULLONG_MAX then To(c, BodyIdentity).(reset := true)
      else if c.kind.Request? || !MessageNeedsEof(c) then Done(c).(reset := true)
      else To(c, BodyIdentityEof).(reset := true)
    case _ => Eat(c)
  }

  // ---- Body -------------------------------------------------------------------------------

  function Less(n: nat): nat
  {
    if n > 0 then n - 1 else 0
  }

  function StepBody(c: Core, ch: byte): Out
  {
    match c.state
    case BodyIdentity =>
      var n := Less(c.contentLength);
      if n == 0 then
        Redo(c.(contentLength := 0, state := MessageDone)).(mark := Some(BodyData), flush := Some(BodyData),
          whole := true)
      else Eat(c.(contentLength := n)).(mark := Some(BodyData))
    case BodyIdentityEof => Eat(c).(mark := Some(BodyData))
    case MessageDone => Done(c)
    case ChunkData =>
      var n := Less(c.contentLength);
      Eat(c.(contentLength := n, state := if n == 0 then ChunkDataAlmostDone else ChunkData)).(mark := Some(BodyData))
    case ChunkDataAlmostDone =>
      if ch != CR then Refuse(c, Strict) else To(c, ChunkDataDone).(flush := Some(BodyData))
    case ChunkDataDone =>
      if ch != LF then Refuse(c, Strict) else To(c, ChunkSizeStart).(reset := true)
    case _ => Eat(c)
  }

  function StepChunkSize(c: Core, ch: byte): Out
  {
    match c.state
    case ChunkSizeStart =>
      if Unhex(ch) == -1 then Refuse(c, InvalidChunkSize) else To(c.(contentLength := Unhex(ch)), ChunkSize)
    case ChunkSize =>
      if ch == CR then To(c, ChunkSizeAlmostDone)
      else if Unhex(ch) == -1 then
        if ch == 59 || ch == SP then To(c, ChunkParameters) else Refuse(c, InvalidChunkSize)
      else if (ULLONG_MAX - 16) / 16 < c.contentLength then Refuse(c, InvalidContentLength)
      else Eat(c.(contentLength := c.contentLength * 16 + Unhex(ch)))
    case ChunkParameters => if ch == CR then To(c, ChunkSizeAlmostDone) else Eat(c)
    case ChunkSizeAlmostDone =>
      if ch != LF then Refuse(c, Strict)
      else if c.contentLength == 0 then
        To(c.(flags := Stored(c.flags.(trailing := true))), HeaderFieldStart).(reset := true)
      else To(c, ChunkData).(reset := true)
    case _ => Eat(c)
  }

  // ---- The switch -----------------------------------------------------------------------

  function Step(c: Core, ch: byte, skip: bool): Out
  {
    match c.state
    case Dead => StepStart(c, ch)
    case StartReqOrRes => StepStart(c, ch)
    case ResOrRespH => StepStart(c, ch)
    case StartRes => StepStart(c, ch)
    case ResH => StepResVersion(c, ch)
    case ResHT => StepResVersion(c, ch)
    case ResHTT => StepResVersion(c, ch)
    case ResHTTP => StepResVersion(c, ch)
    case ResFirstMajor => StepResVersion(c, ch)
    case ResMajor => StepResVersion(c, ch)
    case ResFirstMinor => StepResVersion(c, ch)
    case ResMinor => StepResVersion(c, ch)
    case ResFirstStatusCode => StepStatus(c, ch)
    case ResStatusCode => StepStatus(c, ch)
    case ResStatusStart => StepStatus(c, ch)
    case ResStatus => StepStatus(c, ch)
    case ResLineAlmostDone => StepStatus(c, ch)
    case StartReq => StepMethod(c, ch)
    case ReqMethod => StepMethod(c, ch)
    case ReqHttpStart => StepReqVersion(c, ch)
    case ReqHttpH => StepReqVersion(c, ch)
    case ReqHttpHT => StepReqVersion(c, ch)
    case ReqHttpHTT => StepReqVersion(c, ch)
    case ReqHttpHTTP => StepReqVersion(c, ch)
    case ReqFirstMajor => StepReqVersion(c, ch)
    case ReqMajor => StepReqVersion(c, ch)
    case ReqFirstMinor => StepReqVersion(c, ch)
    case ReqMinor => StepReqVersion(c, ch)
    case ReqLineAlmostDone => StepReqVersion(c, ch)
    case HeaderFieldStart => StepField(c, ch)
    case HeaderField => StepField(c, ch)
    case HeaderValueDiscardWs => StepValue(c, ch)
    case HeaderValueDiscardWsAlmostDone => StepValue(c, ch)
    case HeaderValueDiscardLws => StepValue(c, ch)
    case HeaderValueStart => StepValue(c, ch)
    case HeaderValue => StepValue(c, ch)
    case HeaderValueLws => StepValue(c, ch)
    case HeaderAlmostDone => StepValue(c, ch)
    case HeadersAlmostDone => StepHeadersEnd(c, ch, skip)
    case HeadersDone => StepHeadersEnd(c, ch, skip)
    case ChunkSizeStart => StepChunkSize(c, ch)
    case ChunkSize => StepChunkSize(c, ch)
    case ChunkParameters => StepChunkSize(c, ch)
    case ChunkSizeAlmostDone => StepChunkSize(c, ch)
    case ChunkData => StepBody(c, ch)
    case ChunkDataAlmostDone => StepBody(c, ch)
    case ChunkDataDone => StepBody(c, ch)
    case BodyIdentity => StepBody(c, ch)
    case BodyIdentityEof => StepBody(c, ch)
    case MessageDone => StepBody(c, ch)
    case _ => StepUrl(c, ch)
  }

  /** How often a byte can be looked at again. */
  function Rank(s: State): nat
  {
    match s
    case HeaderValueLws => 4
    case HeaderValueDiscardLws => 4
    case HeaderFieldStart => 3
    case HeadersAlmostDone => 2
    case HeadersDone => 1
    case StartReqOrRes => 1
    case HeaderValue => 1
    case BodyIdentity => 1
    case _ => 0
  }

  /** A pass that asks for the byte again has moved down in rank. */
  predicate Descends(c: Core, o: Out)
  {
    o.next == Again ==> Rank(o.c.state) < Rank(c.state)
  }

  lemma LineDescends(c: Core, ch: byte)
    ensures Descends(c, StepStart(c, ch)) && StepResVersion(c, ch).next != Again && StepStatus(c, ch).next != Again
  {
  }

  lemma RequestDescends(c: Core, ch: byte)
    ensures StepMethod(c, ch).next != Again && StepReqVersion(c, ch).next != Again
  {
  }

  lemma UrlDescends(c: Core, ch: byte)
    ensures StepUrl(c, ch).next != Again
  {
    hide ParseUrlChar;
  }

  lemma FieldDescends(c: Core, ch: byte)
    ensures Descends(c, StepField(c, ch))
  {
    hide FieldNext;
  }

  lemma ValueDescends(c: Core, ch: byte)
    ensures Descends(c, StepValue(c, ch))
  {
    assert ValueStart(c, ch).next != Again && ValueNext(c, ch).next != Again;
    hide ValueStart, ValueNext;
  }

  lemma BodyDescends(c: Core, ch: byte, skip: bool)
    ensures Descends(c, StepHeadersEnd(c, ch, skip)) && Descends(c, StepBody(c, ch)) &&
      StepChunkSize(c, ch).next != Again
  {
  }

  lemma AgainDescends(c: Core, ch: byte, skip: bool)
    requires Step(c, ch, skip).next == Again
    ensures Rank(Step(c, ch, skip).c.state) < Rank(c.state)
  {
    LineDescends(c, ch);
    RequestDescends(c, ch);
    UrlDescends(c, ch);
    FieldDescends(c, ch);
    ValueDescends(c, ch);
    BodyDescends(c, ch, skip);
    hide StepStart, StepResVersion, StepStatus, StepMethod, StepUrl, StepReqVersion, StepField, StepValue,
      StepHeadersEnd, StepBody;
    hide StepChunkSize, Rank;
  }
}
