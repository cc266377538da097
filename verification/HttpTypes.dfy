/** The state of the streaming HTTP parser and its character classes (strict mode). */
module HttpTypes {
  type byte = n: nat | n < 256

  const CR: byte := 13
  const LF: byte := 10
  const TAB: byte := 9
  const FF: byte := 12
  const SP: byte := 32
  const COLON: byte := 58
  const COMMA: byte := 44
  const SLASH: byte := 47

  const ULLONG_MAX: nat := 0xFFFF_FFFF_FFFF_FFFF
  const HTTP_MAX_HEADER_SIZE: nat := 80 * 1024
  const UINT32_MODULUS: nat := 0x1_0000_0000

  datatype ParserType = Request | Response | Both

  datatype State =
    | Dead | StartReqOrRes | ResOrRespH | StartRes | ResH | ResHT | ResHTT | ResHTTP
    | ResFirstMajor | ResMajor | ResFirstMinor | ResMinor | ResFirstStatusCode | ResStatusCode
    | ResStatusStart | ResStatus | ResLineAlmostDone
    | StartReq | ReqMethod | ReqSpacesBeforeUrl | ReqSchema | ReqSchemaSlash | ReqSchemaSlashSlash
    | ReqServerStart | ReqServer | ReqServerWithAt | ReqPath | ReqQueryStringStart | ReqQueryString
    | ReqFragmentStart | ReqFragment | ReqHttpStart | ReqHttpH | ReqHttpHT | ReqHttpHTT | ReqHttpHTTP
    | ReqFirstMajor | ReqMajor | ReqFirstMinor | ReqMinor | ReqLineAlmostDone
    | HeaderFieldStart | HeaderField | HeaderValueDiscardWs | HeaderValueDiscardWsAlmostDone
    | HeaderValueDiscardLws | HeaderValueStart | HeaderValue | HeaderValueLws | HeaderAlmostDone
    | ChunkSizeStart | ChunkSize | ChunkParameters | ChunkSizeAlmostDone | HeadersAlmostDone | HeadersDone
    | ChunkData | ChunkDataAlmostDone | ChunkDataDone | BodyIdentity | BodyIdentityEof | MessageDone

  datatype HeaderState =
    | General | HC | HCO | HCON
    | MatchingConnection | MatchingProxyConnection | MatchingContentLength | MatchingTransferEncoding | MatchingUpgrade
    | Connection | ContentLength | TransferEncoding | Upgrade
    | MatchingChunked | TokenStart | MatchingKeepAlive | MatchingClose | MatchingConnectionUpgrade | ConnectionToken
    | Chunked | KeepAlive | Close | ConnectionUpgrade

  datatype Method =
    | DELETE | GET | HEAD | POST | PUT | CONNECT | OPTIONS | TRACE | COPY | LOCK | MKCOL | MOVE | PROPFIND | PROPPATCH
    | SEARCH | UNLOCK | REPORT | MKACTIVITY | CHECKOUT | MERGE | MSEARCH | NOTIFY | SUBSCRIBE | UNSUBSCRIBE | PATCH
    | PURGE | MKCALENDAR

  datatype Errno =
    | OK | InvalidEofState | HeaderOverflow | ClosedConnection | InvalidVersion | InvalidStatus | InvalidMethod
    | InvalidUrl | LfExpected | InvalidHeaderToken | InvalidContentLength | InvalidChunkSize | InvalidConstant | Strict

  /** The flags word. */
  datatype Flags = Flags(chunked: bool, keepAlive: bool, close: bool, connectionUpgrade: bool, trailing: bool,
                         upgrade: bool, skipBody: bool)

  const NO_FLAGS: Flags := Flags(false, false, false, false, false, false, false)

  /** The flags are stored in a field of six bits, while F_SKIPBODY is bit six: storing drops it. */
  function Stored(f: Flags): Flags
  {
    f.(skipBody := false)
  }

  /** All fields of the parser but the count of header bytes. */
  datatype Core = Core(kind: ParserType, flags: Flags, state: State, header: HeaderState, index: nat,
                       contentLength: nat, major: nat, minor: nat, status: nat, verb: Method, errno: Errno,
                         upgrade: bool)

  /** What a data callback reports a piece of. */
  datatype Kind = HeaderFieldData | HeaderValueData | UrlData | BodyData | StatusData

  datatype Note = MessageBegin | HeadersComplete | MessageComplete

  /** One call of a callback. */
  datatype Event = Data(kind: Kind, bytes: seq<byte>) | Notify(note: Note)

  // ---- Character classes -------------------------------------------------

  function Lower(ch: byte): (c: byte)
  {
    if ch / 32 % 2 == 0 then ch + 32 else ch
  }

  predicate IsAlpha(ch: byte)
  {
    97 <= Lower(ch) <= 122
  }

  predicate IsNum(ch: byte)
  {
    48 <= ch <= 57
  }

  predicate IsMark(ch: byte)
  {
    ch == 45 || ch == 95 || ch == 46 || ch == 33 || ch == 126 || ch == 42 || ch == 39 || ch == 40 || ch == 41
  }

  predicate IsUserinfoChar(ch: byte)
  {
    IsAlpha(ch) || IsNum(ch) || IsMark(ch) || ch == 37 || ch == 59 || ch == 58 || ch == 38 || ch == 61 || ch == 43 ||
    ch == 36 || ch == 44
  }

  predicate IsUrlChar(ch: byte)
  {
    33 <= ch <= 126 && ch != 35 && ch != 63
  }

  /** Token characters, lower-cased; 0 for all others. */
  function Token(ch: byte): byte
  {
    if 65 <= ch <= 90 then ch + 32
    else if 97 <= ch <= 122 || IsNum(ch) || ch == 33 || 35 <= ch <= 39 || ch == 42 || ch == 43 || ch == 45 ||
      ch == 46 ||
            94 <= ch <= 96 || ch == 124 || ch == 126 then ch
    else 0
  }

  /** The value of a hexadecimal digit, or -1. The table has no entries for bytes from 128 on, which thus count as 0. */
  function Unhex(ch: byte): int
  {
    if IsNum(ch) then ch - 48
    else if 65 <= ch <= 70 then ch - 55
    else if 97 <= ch <= 102 then ch - 87
    else if ch >= 128 then 0
    else -1
  }

  // ---- Words the parser matches --------------------------------------------

  /** A C string's character at i; its end reads as 0. */
  function CharAt(s: string, i: nat): byte
  {
    if i < |s| && s[i] as int < 256 then s[i] as int else 0
  }

  const PROXY_CONNECTION := "proxy-connection"
  const CONNECTION := "connection"
  const CONTENT_LENGTH := "content-length"
  const TRANSFER_ENCODING := "transfer-encoding"
  const UPGRADE := "upgrade"
  const CHUNKED := "chunked"
  const KEEP_ALIVE := "keep-alive"
  const CLOSE := "close"

  function MethodName(m: Method): string
  {
    match m
    case DELETE => "DELETE"
    case GET => "GET"
    case HEAD => "HEAD"
    case POST => "POST"
    case PUT => "PUT"
    case CONNECT => "CONNECT"
    case OPTIONS => "OPTIONS"
    case TRACE => "TRACE"
    case COPY => "COPY"
    case LOCK => "LOCK"
    case MKCOL => "MKCOL"
    case MOVE => "MOVE"
    case PROPFIND => "PROPFIND"
    case PROPPATCH => "PROPPATCH"
    case SEARCH => "SEARCH"
    case UNLOCK => "UNLOCK"
    case REPORT => "REPORT"
    case MKACTIVITY => "MKACTIVITY"
    case CHECKOUT => "CHECKOUT"
    case MERGE => "MERGE"
    case MSEARCH => "M-SEARCH"
    case NOTIFY => "NOTIFY"
    case SUBSCRIBE => "SUBSCRIBE"
    case UNSUBSCRIBE => "UNSUBSCRIBE"
    case PATCH => "PATCH"
    case PURGE => "PURGE"
    case MKCALENDAR => "MKCALENDAR"
  }

  /** Header states count bytes against the header size limit. */
  predicate ParsingHeader(s: State)
  {
    !(s.ChunkData? || s.ChunkDataAlmostDone? || s.ChunkDataDone? || s.BodyIdentity? || s.BodyIdentityEof? ||
      s.MessageDone?)
  }
}
