/** One byte through the parser: the switch of http_parser_execute, run on a buffer of length one. */
module Machine {
  import opened Bytes
  import opened Trace

  const MAX_HEADER_SIZE: nat := 80 * 1024
  const TWO_64: nat := 0x1_0000_0000_0000_0000
  const ULLONG_MAX: nat := TWO_64 - 1

  const CONNECTION := "connection"
  const PROXY_CONNECTION := "proxy-connection"
  const CONTENT_LENGTH := "content-length"
  const TRANSFER_ENCODING := "transfer-encoding"
  const UPGRADE := "upgrade"
  const CHUNKED := "chunked"
  const KEEP_ALIVE := "keep-alive"
  const CLOSE := "close"

  datatype Kind = Request | Response | Both

  datatype Method =
    | DELETE | GET | HEAD | POST | PUT | CONNECT | OPTIONS | TRACE | COPY | LOCK | MKCOL | MOVE | PROPFIND
    | PROPPATCH | SEARCH | UNLOCK | BIND | REBIND | UNBIND | ACL | REPORT | MKACTIVITY | CHECKOUT | MERGE
    | MSEARCH | NOTIFY | SUBSCRIBE | UNSUBSCRIBE | PATCH | PURGE | MKCALENDAR | LINK | UNLINK

  function MethodString(m: Method): string {
    match m
    case DELETE => "DELETE" case GET => "GET" case HEAD => "HEAD" case POST => "POST" case PUT => "PUT"
    case CONNECT => "CONNECT" case OPTIONS => "OPTIONS" case TRACE => "TRACE" case COPY => "COPY"
    case LOCK => "LOCK" case MKCOL => "MKCOL" case MOVE => "MOVE" case PROPFIND => "PROPFIND"
    case PROPPATCH => "PROPPATCH" case SEARCH => "SEARCH" case UNLOCK => "UNLOCK" case BIND => "BIND"
    case REBIND => "REBIND" case UNBIND => "UNBIND" case ACL => "ACL" case REPORT => "REPORT"
    case MKACTIVITY => "MKACTIVITY" case CHECKOUT => "CHECKOUT" case MERGE => "MERGE"
    case MSEARCH => "M-SEARCH" case NOTIFY => "NOTIFY" case SUBSCRIBE => "SUBSCRIBE"
    case UNSUBSCRIBE => "UNSUBSCRIBE" case PATCH => "PATCH" case PURGE => "PURGE"
    case MKCALENDAR => "MKCALENDAR" case LINK => "LINK" case UNLINK => "UNLINK"
  }

  datatype State =
    | Dead | StartReqOrRes | ResOrRespH
    | StartRes | ResH | ResHT | ResHTT | ResHTTP | ResHttpMajor | ResHttpDot | ResHttpMinor | ResHttpEnd
    | ResFirstStatusCode | ResStatusCode | ResStatusStart | ResStatus | ResLineAlmostDone
    | StartReq | ReqMethod | ReqSpacesBeforeUrl
    | ReqSchema | ReqSchemaSlash | ReqSchemaSlashSlash | ReqServerStart | ReqServer | ReqServerWithAt
    | ReqPath | ReqQueryStringStart | ReqQueryString | ReqFragmentStart | ReqFragment
    | ReqHttpStart | ReqHttpH | ReqHttpHT | ReqHttpHTT | ReqHttpHTTP | ReqHttpMajor | ReqHttpDot
    | ReqHttpMinor | ReqHttpEnd | ReqLineAlmostDone
    | HeaderFieldStart | HeaderField | HeaderValueDiscardWs | HeaderValueDiscardWsAlmostDone
    | HeaderValueDiscardLws | HeaderValueStart | HeaderValue | HeaderValueLws | HeaderAlmostDone
    | ChunkSizeStart | ChunkSize | ChunkParameters | ChunkSizeAlmostDone
    | HeadersAlmostDone | HeadersDone
    | ChunkData | ChunkDataAlmostDone | ChunkDataDone
    | BodyIdentity | BodyIdentityEof | MessageDone

  /** Beyond `HeadersDone` come the body states, whose bytes are not counted as header bytes. */
  predicate ParsingHeader(st: State) {
    !(st.ChunkData? || st.ChunkDataAlmostDone? || st.ChunkDataDone? || st.BodyIdentity? || st.BodyIdentityEof?
      || st.MessageDone?)
  }

  predicate InUrl(st: State) {
    st.ReqSchema? || st.ReqSchemaSlash? || st.ReqSchemaSlashSlash? || st.ReqServerStart? || st.ReqServer?
    || st.ReqServerWithAt? || st.ReqPath? || st.ReqQueryStringStart? || st.ReqQueryString?
    || st.ReqFragmentStart? || st.ReqFragment?
  }

  datatype HeaderState =
    | General | C | CO | CON
    | MatchingConnection | MatchingProxyConnection | MatchingContentLength | MatchingTransferEncoding
    | MatchingUpgrade
    | ConnectionName | ContentLengthName | TransferEncodingName | UpgradeName
    | MatchingChunked | ConnTokenStart | ConnMatchingKeepAlive | ConnMatchingClose | ConnMatchingUpgrade
    | ConnToken
    | Chunked | ConnKeepAlive | ConnClose | ConnUpgrade

  datatype Errno =
    | OK | InvalidEofState | HeaderOverflow | ClosedConnection | InvalidVersion | InvalidStatus
    | InvalidMethod | InvalidUrl | LfExpected | InvalidHeaderToken | InvalidContentLength
    | UnexpectedContentLength | InvalidChunkSize | InvalidConstant | InvalidInternalState | Strict

  datatype Flags = Flags(
    chunked: bool, connKeepAlive: bool, connClose: bool, connUpgrade: bool, trailing: bool, upgrade: bool,
    skipBody: bool, contentLength: bool)

  const NO_FLAGS := Flags(false, false, false, false, false, false, false, false)

  /** The fields of struct http_parser. */
  datatype Parser = Parser(
    kind: Kind, flags: Flags, state: State, hs: HeaderState, index: nat, lenient: bool, nread: nat,
    contentLength: nat, major: nat, minor: nat, status: nat, verb: Method, errno: Errno, upgrade: bool)

  /** http_parser_init. */
  function Init(kind: Kind, lenient: bool): Parser {
    Parser(kind, NO_FLAGS, match kind case Request => StartReq case Response => StartRes case Both => StartReqOrRes,
           General, 0, lenient, 0, 0, 0, 0, 0, DELETE, OK, false)
  }

  function StartState(s: Parser): State { if s.kind.Request? then StartReq else StartRes }

  function MessageNeedsEof(s: Parser): bool {
    if s.kind.Request? then false
    else if s.status / 100 == 1 || s.status == 204 || s.status == 304 || s.flags.skipBody then false
    else if s.flags.chunked || s.contentLength != ULLONG_MAX then false
    else true
  }

  function ShouldKeepAlive(s: Parser): bool {
    if s.major > 0 && s.minor > 0 then
      if s.flags.connClose then false else !MessageNeedsEof(s)
    else
      if !s.flags.connKeepAlive then false else !MessageNeedsEof(s)
  }

  function NewMessage(s: Parser): State { if ShouldKeepAlive(s) then StartState(s) else Dead }

  // ----- parse_url_char

  function ParseUrlChar(st: State, ch: char): State {
    if ch == ' ' || ch == CR || ch == LF || ch == TAB || ch == FORM_FEED then Dead
    else match st
      case ReqSpacesBeforeUrl =>
        if ch == '/' || ch == '*' then ReqPath else if IsAlpha(ch) then ReqSchema else Dead
      case ReqSchema => if IsAlpha(ch) then ReqSchema else if ch == ':' then ReqSchemaSlash else Dead
      case ReqSchemaSlash => if ch == '/' then ReqSchemaSlashSlash else Dead
      case ReqSchemaSlashSlash => if ch == '/' then ReqServerStart else Dead
      case ReqServerWithAt => if ch == '@' then Dead else ServerChar(ch)
      case ReqServerStart => ServerChar(ch)
      case ReqServer => ServerChar(ch)
      case ReqPath =>
        if IsUrlChar(ch) then ReqPath else if ch == '?' then ReqQueryStringStart
        else if ch == '#' then ReqFragmentStart else Dead
      case ReqQueryStringStart => QueryChar(ch)
      case ReqQueryString => QueryChar(ch)
      case ReqFragmentStart =>
        if IsUrlChar(ch) || ch == '?' then ReqFragment else if ch == '#' then ReqFragmentStart else Dead
      case ReqFragment => if IsUrlChar(ch) || ch == '?' || ch == '#' then ReqFragment else Dead
      case _ => Dead
  }

  function ServerChar(ch: char): State {
    if ch == '/' then ReqPath
    else if ch == '?' then ReqQueryStringStart
    else if ch == '@' then ReqServerWithAt
    else if IsUserinfoChar(ch) || ch == '[' || ch == ']' then ReqServer
    else Dead
  }

  function QueryChar(ch: char): State {
    if IsUrlChar(ch) || ch == '?' then ReqQueryString else if ch == '#' then ReqFragmentStart else Dead
  }

  // ----- effects of one byte

  /** What a byte does besides changing the parser: set a mark, run a data callback up to this byte or
      through it, or run a notification. */
  datatype Action = Mark(kind: DataKind) | Deliver(kind: DataKind) | DeliverThrough(kind: DataKind) | Tell(note: Note)

  /** `exits` marks the early return after an upgrade. */
  datatype Effect = Effect(s: Parser, acts: seq<Action>, exits: bool)

  function Fail(s: Parser, e: Errno): Effect { Effect(s.(errno := e), [], false) }

  function Goto(s: Parser, st: State): Effect { Effect(s.(state := st), [], false) }

  function Stay(s: Parser): Effect { Effect(s, [], false) }

  function Expect(s: Parser, ok: bool, e: Errno, st: State): Effect { if ok then Goto(s, st) else Fail(s, e) }

  function After(acts: seq<Action>, e: Effect): Effect { e.(acts := acts + e.acts) }

  // ----- start of a message

  function FreshMessage(s: Parser): Parser { s.(flags := NO_FLAGS, contentLength := ULLONG_MAX) }

  function ActDead(s: Parser, ch: char): Effect {
    if ch == CR || ch == LF then Stay(s) else Fail(s, ClosedConnection)
  }

  function ActStartReqOrRes(s: Parser, ch: char): Effect {
    if ch == CR || ch == LF then Stay(s)
    else if ch == 'H' then Effect(FreshMessage(s).(state := ResOrRespH), [Tell(MessageBegin)], false)
    else ActStartReq(FreshMessage(s).(kind := Request, state := StartReq), ch)
  }

  function ActResOrRespH(s: Parser, ch: char): Effect {
    if ch == 'T' then Goto(s.(kind := Response), ResHT)
    else if ch != 'E' then Fail(s, InvalidConstant)
    else Goto(s.(kind := Request, verb := HEAD, index := 2), ReqMethod)
  }

  function ActStartRes(s: Parser, ch: char): Effect {
    var s := FreshMessage(s);
    if ch == 'H' then Effect(s.(state := ResH), [Tell(MessageBegin)], false)
    else if ch == CR || ch == LF then Effect(s, [Tell(MessageBegin)], false)
    else Fail(s, InvalidConstant)
  }

  datatype MaybeMethod = NoMethod | SomeMethod(m: Method)

  function FirstMethod(ch: char): MaybeMethod {
    if ch == 'A' then SomeMethod(ACL) else if ch == 'B' then SomeMethod(BIND)
    else if ch == 'C' then SomeMethod(CONNECT) else if ch == 'D' then SomeMethod(DELETE)
    else if ch == 'G' then SomeMethod(GET) else if ch == 'H' then SomeMethod(HEAD)
    else if ch == 'L' then SomeMethod(LOCK) else if ch == 'M' then SomeMethod(MKCOL)
    else if ch == 'N' then SomeMethod(NOTIFY) else if ch == 'O' then SomeMethod(OPTIONS)
    else if ch == 'P' then SomeMethod(POST) else if ch == 'R' then SomeMethod(REPORT)
    else if ch == 'S' then SomeMethod(SUBSCRIBE) else if ch == 'T' then SomeMethod(TRACE)
    else if ch == 'U' then SomeMethod(UNLOCK) else NoMethod
  }

  function ActStartReq(s: Parser, ch: char): Effect {
    if ch == CR || ch == LF then Stay(s)
    else
      var s := FreshMessage(s);
      if !IsAlpha(ch) then Fail(s, InvalidMethod)
      else
        var s := s.(verb := DELETE, index := 1);
        match FirstMethod(ch)
        case NoMethod => Fail(s, InvalidMethod)
        case SomeMethod(m) => Effect(s.(verb := m, state := ReqMethod), [Tell(MessageBegin)], false)
  }

  /** The table that turns the first guess into the method the next byte selects. */
  function OtherMethod(m: Method, i: nat, ch: char): MaybeMethod {
    match m
    case POST =>
      if i == 1 && ch == 'U' then SomeMethod(PUT) else if i == 1 && ch == 'A' then SomeMethod(PATCH)
      else if i == 1 && ch == 'R' then SomeMethod(PROPFIND) else NoMethod
    case PUT => if i == 2 && ch == 'R' then SomeMethod(PURGE) else NoMethod
    case CONNECT =>
      if i == 1 && ch == 'H' then SomeMethod(CHECKOUT) else if i == 2 && ch == 'P' then SomeMethod(COPY) else NoMethod
    case MKCOL =>
      if i == 1 && ch == 'O' then SomeMethod(MOVE) else if i == 1 && ch == 'E' then SomeMethod(MERGE)
      else if i == 1 && ch == '-' then SomeMethod(MSEARCH) else if i == 2 && ch == 'A' then SomeMethod(MKACTIVITY)
      else if i == 3 && ch == 'A' then SomeMethod(MKCALENDAR) else NoMethod
    case SUBSCRIBE => if i == 1 && ch == 'E' then SomeMethod(SEARCH) else NoMethod
    case REPORT => if i == 2 && ch == 'B' then SomeMethod(REBIND) else NoMethod
    case PROPFIND => if i == 4 && ch == 'P' then SomeMethod(PROPPATCH) else NoMethod
    case LOCK => if i == 1 && ch == 'I' then SomeMethod(LINK) else NoMethod
    case UNLOCK =>
      if i == 2 && ch == 'S' then SomeMethod(UNSUBSCRIBE) else if i == 2 && ch == 'B' then SomeMethod(UNBIND)
      else if i == 3 && ch == 'I' then SomeMethod(UNLINK) else NoMethod
    case _ => NoMethod
  }

  function ActReqMethod(s: Parser, ch: char): Effect {
    if ch == NUL then Fail(s, InvalidMethod)
    else
      var expected := At(MethodString(s.verb), s.index);
      if ch == ' ' && expected == NUL then Goto(s.(index := s.index + 1), ReqSpacesBeforeUrl)
      else if ch == expected then Stay(s.(index := s.index + 1))
      else if 'A' <= ch <= 'Z' || ch == '-' then
        match OtherMethod(s.verb, s.index, ch)
        case NoMethod => Fail(s, InvalidMethod)
        case SomeMethod(m) => Stay(s.(verb := m, index := s.index + 1))
      else Fail(s, InvalidMethod)
  }

  // ----- request line

  function UrlStep(s: Parser, from: State, ch: char): Effect {
    var st := ParseUrlChar(from, ch);
    if st.Dead? then Fail(s.(state := Dead), InvalidUrl) else Goto(s, st)
  }

  function ActSpacesBeforeUrl(s: Parser, ch: char): Effect {
    if ch == ' ' then Stay(s)
    else After([Mark(Url)], UrlStep(s, if s.verb == CONNECT then ReqServerStart else ReqSpacesBeforeUrl, ch))
  }

  function ActUrlPrefix(s: Parser, ch: char): Effect {
    if ch == ' ' || ch == CR || ch == LF then Fail(s, InvalidUrl) else UrlStep(s, s.state, ch)
  }

  function ActUrl(s: Parser, ch: char): Effect {
    if ch == ' ' then Effect(s.(state := ReqHttpStart), [Deliver(Url)], false)
    else if ch == CR then Effect(s.(major := 0, minor := 9, state := ReqLineAlmostDone), [Deliver(Url)], false)
    else if ch == LF then Effect(s.(major := 0, minor := 9, state := HeaderFieldStart), [Deliver(Url)], false)
    else UrlStep(s, s.state, ch)
  }

  function ActReqHttpStart(s: Parser, ch: char): Effect {
    if ch == 'H' then Goto(s, ReqHttpH) else if ch == ' ' then Stay(s) else Fail(s, InvalidConstant)
  }

  function ActReqHttpEnd(s: Parser, ch: char): Effect {
    if ch == CR then Goto(s, ReqLineAlmostDone) else if ch == LF then Goto(s, HeaderFieldStart)
    else Fail(s, InvalidVersion)
  }

  function ActMajor(s: Parser, ch: char, next: State): Effect {
    if IsNum(ch) then Goto(s.(major := Digit(ch)), next) else Fail(s, InvalidVersion)
  }

  function ActMinor(s: Parser, ch: char, next: State): Effect {
    if IsNum(ch) then Goto(s.(minor := Digit(ch)), next) else Fail(s, InvalidVersion)
  }

  // ----- status line

  function ActFirstStatusCode(s: Parser, ch: char): Effect {
    if IsNum(ch) then Goto(s.(status := Digit(ch)), ResStatusCode)
    else if ch == ' ' then Stay(s) else Fail(s, InvalidStatus)
  }

  function ActStatusCode(s: Parser, ch: char): Effect {
    if IsNum(ch) then
      var s := s.(status := s.status * 10 + Digit(ch));
      if s.status > 999 then Fail(s, InvalidStatus) else Stay(s)
    else if ch == ' ' then Goto(s, ResStatusStart)
    else if ch == CR || ch == LF then ActStatusStart(s, ch)
    else Fail(s, InvalidStatus)
  }

  function ActStatusStart(s: Parser, ch: char): Effect {
    var s := s.(state := ResStatus, index := 0);
    After([Mark(Status)], if ch == CR || ch == LF then ActStatus(s, ch) else Stay(s))
  }

  function ActStatus(s: Parser, ch: char): Effect {
    if ch == CR then Effect(s.(state := ResLineAlmostDone), [Deliver(Status)], false)
    else if ch == LF then Effect(s.(state := HeaderFieldStart), [Deliver(Status)], false)
    else Stay(s)
  }

  // ----- header lines

  function FirstHeaderState(c: char): HeaderState {
    if c == 'c' then C else if c == 'p' then MatchingProxyConnection
    else if c == 't' then MatchingTransferEncoding else if c == 'u' then MatchingUpgrade else General
  }

  function ActFieldStart(s: Parser, ch: char): Effect {
    if ch == CR then Goto(s, HeadersAlmostDone)
    else if ch == LF then ActHeadersAlmostDone(s.(state := HeadersAlmostDone), ch)
    else
      var c := Token(ch);
      if c == NUL then Fail(s, InvalidHeaderToken)
      else Effect(s.(index := 0, state := HeaderField, hs := FirstHeaderState(c)), [Mark(Field)], false)
  }

  /** One step of the matcher for `word`: on to `hit` at its last byte, to `miss` at a difference. */
  function MatchWord(s: Parser, word: string, c: char, hit: HeaderState, miss: HeaderState): (r: Parser)
    ensures r == s.(index := s.index + 1, hs := r.hs)
  {
    var i := s.index + 1;
    s.(index := i, hs := if i > |word| || c != At(word, i) then miss else if i == |word| - 1 then hit else s.hs)
  }

  function FieldChar(s: Parser, ch: char): (r: Parser)
    ensures r == s.(index := r.index, hs := r.hs)
  {
    var c := Token(ch);
    match s.hs
    case General => s
    case C => s.(index := s.index + 1, hs := if c == 'o' then CO else General)
    case CO => s.(index := s.index + 1, hs := if c == 'n' then CON else General)
    case CON =>
      s.(index := s.index + 1,
         hs := if c == 'n' then MatchingConnection else if c == 't' then MatchingContentLength else General)
    case MatchingConnection => MatchWord(s, CONNECTION, c, ConnectionName, General)
    case MatchingProxyConnection => MatchWord(s, PROXY_CONNECTION, c, ConnectionName, General)
    case MatchingContentLength => MatchWord(s, CONTENT_LENGTH, c, ContentLengthName, General)
    case MatchingTransferEncoding => MatchWord(s, TRANSFER_ENCODING, c, TransferEncodingName, General)
    case MatchingUpgrade => MatchWord(s, UPGRADE, c, UpgradeName, General)
    case ConnectionName => if ch != ' ' then s.(hs := General) else s
    case ContentLengthName => if ch != ' ' then s.(hs := General) else s
    case TransferEncodingName => if ch != ' ' then s.(hs := General) else s
    case UpgradeName => if ch != ' ' then s.(hs := General) else s
    case _ => s
  }

  function ActField(s: Parser, ch: char): Effect {
    if IsToken(ch) then Stay(FieldChar(s, ch))
    else if ch == ':' then Effect(s.(state := HeaderValueDiscardWs), [Deliver(Field)], false)
    else Fail(s, InvalidHeaderToken)
  }

  function ActDiscardWs(s: Parser, ch: char): Effect {
    if ch == ' ' || ch == TAB then Stay(s)
    else if ch == CR then Goto(s, HeaderValueDiscardWsAlmostDone)
    else if ch == LF then Goto(s, HeaderValueDiscardLws)
    else ActValueStart(s, ch)
  }

  function ConnectionWord(c: char): HeaderState {
    if c == 'k' then ConnMatchingKeepAlive else if c == 'c' then ConnMatchingClose
    else if c == 'u' then ConnMatchingUpgrade else ConnToken
  }

  function ActValueStart(s: Parser, ch: char): (e: Effect)
    ensures e.acts == [Mark(Value)] && !e.exits && e.s.state.HeaderValue?
  {
    Effect(ValueBegin(s.(state := HeaderValue, index := 0), ch), [Mark(Value)], false)
  }

  function ValueBegin(s: Parser, ch: char): (r: Parser)
    ensures r.state == s.state && r.flags.trailing == s.flags.trailing
  {
    match s.hs
    case UpgradeName => s.(flags := s.flags.(upgrade := true), hs := General)
    case TransferEncodingName => s.(hs := if Lower(ch) == 'c' then MatchingChunked else General)
    case ContentLengthName =>
      if !IsNum(ch) then s.(errno := InvalidContentLength)
      else if s.flags.contentLength then s.(errno := UnexpectedContentLength)
      else s.(flags := s.flags.(contentLength := true), contentLength := Digit(ch))
    case ConnectionName => s.(hs := ConnectionWord(Lower(ch)))
    case ConnTokenStart => s
    case _ => s.(hs := General)
  }

  /** One more decimal digit, with the 64-bit wrap-around and the conservative overflow test. */
  function ContentLengthDigit(s: Parser, ch: char): Effect
    requires IsNum(ch)
  {
    if (ULLONG_MAX - 10) / 10 < s.contentLength then Fail(s, InvalidContentLength)
    else Stay(s.(contentLength := (s.contentLength * 10 + Digit(ch)) % TWO_64))
  }

  function CommitConnection(s: Parser): (r: Parser)
    ensures r == s.(flags := r.flags) && r.flags.trailing == s.flags.trailing && r.flags.chunked == s.flags.chunked
    ensures r.flags.skipBody == s.flags.skipBody
  {
    match s.hs
    case ConnKeepAlive => s.(flags := s.flags.(connKeepAlive := true))
    case ConnClose => s.(flags := s.flags.(connClose := true))
    case ConnUpgrade => s.(flags := s.flags.(connUpgrade := true))
    case _ => s
  }

  function ValueChar(s: Parser, ch: char): (e: Effect)
    ensures e.acts == [] && !e.exits
    ensures e.s == s.(flags := e.s.flags, hs := e.s.hs, index := e.s.index, contentLength := e.s.contentLength,
                      errno := e.s.errno)
  {
    var c := Lower(ch);
    match s.hs
    case General => Stay(s)
    case ContentLengthName =>
      if ch == ' ' then Stay(s) else if !IsNum(ch) then Fail(s, InvalidContentLength) else ContentLengthDigit(s, ch)
    case MatchingChunked => Stay(MatchWord(s, CHUNKED, c, Chunked, General))
    case ConnTokenStart =>
      Stay(s.(hs := if c == 'k' then ConnMatchingKeepAlive else if c == 'c' then ConnMatchingClose
                    else if c == 'u' then ConnMatchingUpgrade else if IsToken(c) then ConnToken
                    else if c == ' ' || c == TAB then ConnTokenStart else General))
    case ConnMatchingKeepAlive => Stay(MatchWord(s, KEEP_ALIVE, c, ConnKeepAlive, ConnToken))
    case ConnMatchingClose => Stay(MatchWord(s, CLOSE, c, ConnClose, ConnToken))
    case ConnMatchingUpgrade => Stay(MatchWord(s, UPGRADE, c, ConnUpgrade, ConnToken))
    case ConnToken => if ch == ',' then Stay(s.(hs := ConnTokenStart, index := 0)) else Stay(s)
    case Chunked => if ch != ' ' then Stay(s.(hs := General)) else Stay(s)
    case ConnKeepAlive => Stay(ConnectionEnd(s, ch))
    case ConnClose => Stay(ConnectionEnd(s, ch))
    case ConnUpgrade => Stay(ConnectionEnd(s, ch))
    case _ => Stay(s.(hs := General))
  }

  function ConnectionEnd(s: Parser, ch: char): Parser {
    if ch == ',' then CommitConnection(s).(hs := ConnTokenStart, index := 0)
    else if ch != ' ' then s.(hs := ConnToken) else s
  }

  /** `checked` is false for a byte that the memchr skip jumps over. */
  function ActValue(s: Parser, ch: char, checked: bool): Effect {
    if ch == CR then Effect(s.(state := HeaderAlmostDone), [Deliver(Value)], false)
    else if ch == LF then After([Deliver(Value)], ActAlmostDone(s.(state := HeaderAlmostDone), ch))
    else if checked && !s.lenient && !IsHeaderChar(ch) then Fail(s, InvalidHeaderToken)
    else ValueChar(s, ch)
  }

  function ActAlmostDone(s: Parser, ch: char): Effect { Expect(s, ch == LF, LfExpected, HeaderValueLws) }

  function CommitValue(s: Parser): (r: Parser)
    ensures r == s.(flags := r.flags) && r.flags.trailing == s.flags.trailing && r.flags.skipBody == s.flags.skipBody
    ensures r.flags.chunked == (s.flags.chunked || s.hs.Chunked?)
  {
    if s.hs.Chunked? then s.(flags := s.flags.(chunked := true)) else CommitConnection(s)
  }

  function ActValueLws(s: Parser, ch: char): Effect {
    if ch == ' ' || ch == TAB then ActValueStart(s, ch)
    else ActFieldStart(CommitValue(s).(state := HeaderFieldStart), ch)
  }

  function ActDiscardLws(s: Parser, ch: char): Effect {
    if ch == ' ' || ch == TAB then Goto(s, HeaderValueDiscardWs)
    else After([Mark(Value), Deliver(Value)], ActFieldStart(CommitValue(s).(state := HeaderFieldStart), ch))
  }

  // ----- end of the headers

  function ActHeadersAlmostDone(s: Parser, ch: char): Effect {
    if ch != LF then Fail(s, Strict)
    else if s.flags.trailing then After([Tell(ChunkComplete)], ActMessageDone(s.(state := MessageDone)))
    else if s.flags.chunked && s.flags.contentLength then Fail(s, UnexpectedContentLength)
    else
      var upgrade := if s.flags.upgrade && s.flags.connUpgrade then s.kind.Request? || s.status == 101
                     else s.verb == CONNECT;
      After([Tell(HeadersComplete(s.contentLength, s.flags.chunked, upgrade))],
            ActHeadersDone(s.(state := HeadersDone, upgrade := upgrade), ch))
  }

  function Complete(s: Parser, exits: bool): Effect {
    Effect(s.(state := NewMessage(s)), [Tell(MessageComplete)], exits)
  }

  function ActHeadersDone(s: Parser, ch: char): Effect {
    if ch != LF then Fail(s, Strict)
    else
      var s := s.(nread := 0);
      var hasBody := s.flags.chunked || (s.contentLength > 0 && s.contentLength != ULLONG_MAX);
      if s.upgrade && (s.verb == CONNECT || s.flags.skipBody || !hasBody) then Complete(s, true)
      else if s.flags.skipBody then Complete(s, false)
      else if s.flags.chunked then Goto(s, ChunkSizeStart)
      else if s.contentLength == 0 then Complete(s, false)
      else if s.contentLength != ULLONG_MAX then Goto(s, BodyIdentity)
      else if !MessageNeedsEof(s) then Complete(s, false)
      else Goto(s, BodyIdentityEof)
  }

  function ActMessageDone(s: Parser): Effect { Complete(s, s.upgrade) }

  // ----- bodies

  function ActBodyIdentity(s: Parser): Effect {
    var s := s.(contentLength := if s.contentLength == 0 then 0 else s.contentLength - 1);
    if s.contentLength == 0
    then After([Mark(Body), DeliverThrough(Body)], ActMessageDone(s.(state := MessageDone)))
    else Effect(s, [Mark(Body)], false)
  }

  function ActChunkSizeStart(s: Parser, ch: char): Effect {
    var v := Unhex(ch);
    if v == -1 then Fail(s, InvalidChunkSize) else Goto(s.(contentLength := v), ChunkSize)
  }

  function ActChunkSize(s: Parser, ch: char): Effect {
    if ch == CR then Goto(s, ChunkSizeAlmostDone)
    else
      var v := Unhex(ch);
      if v == -1 then
        if ch == ';' || ch == ' ' then Goto(s, ChunkParameters) else Fail(s, InvalidChunkSize)
      else if (ULLONG_MAX - 16) / 16 < s.contentLength then Fail(s, InvalidContentLength)
      else Stay(s.(contentLength := (s.contentLength * 16 + v) % TWO_64))
  }

  function ActChunkParameters(s: Parser, ch: char): Effect {
    if ch == CR then Goto(s, ChunkSizeAlmostDone) else Stay(s)
  }

  function ActChunkSizeAlmostDone(s: Parser, ch: char): Effect {
    if ch != LF then Fail(s, Strict)
    else
      var s := s.(nread := 0);
      var s := if s.contentLength == 0 then s.(flags := s.flags.(trailing := true), state := HeaderFieldStart)
               else s.(state := ChunkData);
      Effect(s, [Tell(ChunkHeader(s.contentLength))], false)
  }

  function ActChunkData(s: Parser): Effect {
    var s := s.(contentLength := if s.contentLength == 0 then 0 else s.contentLength - 1);
    Effect(if s.contentLength == 0 then s.(state := ChunkDataAlmostDone) else s, [Mark(Body)], false)
  }

  function ActChunkDataAlmostDone(s: Parser, ch: char): Effect {
    if ch != CR then Fail(s, Strict) else Effect(s.(state := ChunkDataDone), [Deliver(Body)], false)
  }

  function ActChunkDataDone(s: Parser, ch: char): Effect {
    if ch != LF then Fail(s, Strict)
    else Effect(s.(nread := 0, state := ChunkSizeStart), [Tell(ChunkComplete)], false)
  }

  /** The whole switch. */
  function Act(s: Parser, ch: char, checked: bool): Effect {
    match s.state
    case Dead => ActDead(s, ch)
    case StartReqOrRes => ActStartReqOrRes(s, ch)
    case ResOrRespH => ActResOrRespH(s, ch)
    case StartRes => ActStartRes(s, ch)
    case ResH => Expect(s, ch == 'T', Strict, ResHT)
    case ResHT => Expect(s, ch == 'T', Strict, ResHTT)
    case ResHTT => Expect(s, ch == 'P', Strict, ResHTTP)
    case ResHTTP => Expect(s, ch == '/', Strict, ResHttpMajor)
    case ResHttpMajor => ActMajor(s, ch, ResHttpDot)
    case ResHttpDot => Expect(s, ch == '.', InvalidVersion, ResHttpMinor)
    case ResHttpMinor => ActMinor(s, ch, ResHttpEnd)
    case ResHttpEnd => Expect(s, ch == ' ', InvalidVersion, ResFirstStatusCode)
    case ResFirstStatusCode => ActFirstStatusCode(s, ch)
    case ResStatusCode => ActStatusCode(s, ch)
    case ResStatusStart => ActStatusStart(s, ch)
    case ResStatus => ActStatus(s, ch)
    case ResLineAlmostDone => Expect(s, ch == LF, Strict, HeaderFieldStart)
    case StartReq => ActStartReq(s, ch)
    case ReqMethod => ActReqMethod(s, ch)
    case ReqSpacesBeforeUrl => ActSpacesBeforeUrl(s, ch)
    case ReqSchema => ActUrlPrefix(s, ch)
    case ReqSchemaSlash => ActUrlPrefix(s, ch)
    case ReqSchemaSlashSlash => ActUrlPrefix(s, ch)
    case ReqServerStart => ActUrlPrefix(s, ch)
    case ReqServer => ActUrl(s, ch)
    case ReqServerWithAt => ActUrl(s, ch)
    case ReqPath => ActUrl(s, ch)
    case ReqQueryStringStart => ActUrl(s, ch)
    case ReqQueryString => ActUrl(s, ch)
    case ReqFragmentStart => ActUrl(s, ch)
    case ReqFragment => ActUrl(s, ch)
    case ReqHttpStart => ActReqHttpStart(s, ch)
    case ReqHttpH => Expect(s, ch == 'T', Strict, ReqHttpHT)
    case ReqHttpHT => Expect(s, ch == 'T', Strict, ReqHttpHTT)
    case ReqHttpHTT => Expect(s, ch == 'P', Strict, ReqHttpHTTP)
    case ReqHttpHTTP => Expect(s, ch == '/', Strict, ReqHttpMajor)
    case ReqHttpMajor => ActMajor(s, ch, ReqHttpDot)
    case ReqHttpDot => Expect(s, ch == '.', InvalidVersion, ReqHttpMinor)
    case ReqHttpMinor => ActMinor(s, ch, ReqHttpEnd)
    case ReqHttpEnd => ActReqHttpEnd(s, ch)
    case ReqLineAlmostDone => Expect(s, ch == LF, LfExpected, HeaderFieldStart)
    case HeaderFieldStart => ActFieldStart(s, ch)
    case HeaderField => ActField(s, ch)
    case HeaderValueDiscardWs => ActDiscardWs(s, ch)
    case HeaderValueDiscardWsAlmostDone => Expect(s, ch == LF, Strict, HeaderValueDiscardLws)
    case HeaderValueDiscardLws => ActDiscardLws(s, ch)
    case HeaderValueStart => ActValueStart(s, ch)
    case HeaderValue => ActValue(s, ch, checked)
    case HeaderValueLws => ActValueLws(s, ch)
    case HeaderAlmostDone => ActAlmostDone(s, ch)
    case ChunkSizeStart => ActChunkSizeStart(s, ch)
    case ChunkSize => ActChunkSize(s, ch)
    case ChunkParameters => ActChunkParameters(s, ch)
    case ChunkSizeAlmostDone => ActChunkSizeAlmostDone(s, ch)
    case HeadersAlmostDone => ActHeadersAlmostDone(s, ch)
    case HeadersDone => ActHeadersDone(s, ch)
    case ChunkData => ActChunkData(s)
    case ChunkDataAlmostDone => ActChunkDataAlmostDone(s, ch)
    case ChunkDataDone => ActChunkDataDone(s, ch)
    case BodyIdentity => ActBodyIdentity(s)
    case BodyIdentityEof => Effect(s, [Mark(Body)], false)
    case MessageDone => ActMessageDone(s)
  }

  /** Which function the switch takes, for proofs that hide the switch. */
  lemma ActIs(s: Parser, ch: char, checked: bool)
    ensures s.state.HeaderFieldStart? ==> Act(s, ch, checked) == ActFieldStart(s, ch)
    ensures s.state.HeaderField? ==> Act(s, ch, checked) == ActField(s, ch)
    ensures s.state.HeaderValueDiscardWs? ==> Act(s, ch, checked) == ActDiscardWs(s, ch)
    ensures s.state.HeaderValueDiscardLws? ==> Act(s, ch, checked) == ActDiscardLws(s, ch)
    ensures s.state.HeaderValue? ==> Act(s, ch, checked) == ActValue(s, ch, checked)
    ensures s.state.HeaderValueLws? ==> Act(s, ch, checked) == ActValueLws(s, ch)
    ensures s.state.HeaderAlmostDone? ==> Act(s, ch, checked) == ActAlmostDone(s, ch)
    ensures s.state.HeaderValueDiscardWsAlmostDone? ==>
              Act(s, ch, checked) == Expect(s, ch == LF, Strict, HeaderValueDiscardLws)
    ensures s.state.HeadersAlmostDone? ==> Act(s, ch, checked) == ActHeadersAlmostDone(s, ch)
    ensures s.state.ChunkSizeStart? ==> Act(s, ch, checked) == ActChunkSizeStart(s, ch)
    ensures s.state.ChunkSize? ==> Act(s, ch, checked) == ActChunkSize(s, ch)
    ensures s.state.ChunkSizeAlmostDone? ==> Act(s, ch, checked) == ActChunkSizeAlmostDone(s, ch)
    ensures s.state.ChunkDataAlmostDone? ==> Act(s, ch, checked) == ActChunkDataAlmostDone(s, ch)
    ensures s.state.ChunkDataDone? ==> Act(s, ch, checked) == ActChunkDataDone(s, ch)
    ensures s.state.ChunkParameters? ==> Act(s, ch, checked) == ActChunkParameters(s, ch)
    ensures s.state.ChunkData? ==> Act(s, ch, checked) == ActChunkData(s)
    ensures s.state.BodyIdentity? ==> Act(s, ch, checked) == ActBodyIdentity(s)
    ensures s.state.BodyIdentityEof? ==> Act(s, ch, checked) == Effect(s, [Mark(Body)], false)
    ensures InUrl(s.state) && !(s.state in URL_PREFIX) ==> Act(s, ch, checked) == ActUrl(s, ch)
  {
    hide ActFieldStart, ActField, ActDiscardWs, ActDiscardLws, ActValueStart, ActValue, ActValueLws,
      ActHeadersAlmostDone, ActHeadersDone, ActMessageDone, ActSpacesBeforeUrl, ActUrl, ActUrlPrefix, ActStatus,
      ActStatusStart, ActStatusCode, ActReqMethod, ActStartReq, ActStartReqOrRes, ActStartRes, ActResOrRespH,
      ActFirstStatusCode, ActChunkSizeAlmostDone, ActChunkSize, ActChunkSizeStart, ActChunkParameters, ActChunkData,
      ActChunkDataAlmostDone, ActChunkDataDone, ActBodyIdentity, Expect, ActMajor, ActMinor, ActDead, ActReqHttpStart,
      ActReqHttpEnd, ActAlmostDone;
  }

  const URL_PREFIX := {ReqSchema, ReqSchemaSlash, ReqSchemaSlashSlash, ReqServerStart}

  /** The byte is first counted against the header limit, if it is a header byte. */
  function Counted(s: Parser): Parser { if ParsingHeader(s.state) then s.(nread := s.nread + 1) else s }
}
