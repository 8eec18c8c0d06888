/**
 The HTTP/1.x parser as a small-step machine: one step looks at one byte, and either
 consumes it, looks at it again in a new state (the source's `goto reexecute`), or
 leaves the parser. This is the reference the bulk-reading parser class is proved against.
 */
module HttpMachine {
  import opened HttpChars
  import opened Options

  const NO_LENGTH: nat := 0xFFFF_FFFF_FFFF_FFFF  // ULLONG_MAX, "no Content-Length seen"
  const TWO_64: nat := 0x1_0000_0000_0000_0000

  datatype Kind = Request | Response | Both

  datatype Flags = Flags(
    chunked: bool, connectionKeepAlive: bool, connectionClose: bool, connectionUpgrade: bool,
    trailing: bool, upgrade: bool, skipBody: bool, contentLength: bool)

  const NO_FLAGS := Flags(false, false, false, false, false, false, false, false)

  datatype State =
    | Dead
    | StartReqOrRes | ResOrRespH
    | StartRes | ResH | ResHT | ResHTT | ResHTTP
    | ResFirstHttpMajor | ResHttpMajor | ResFirstHttpMinor | ResHttpMinor
    | ResFirstStatusCode | ResStatusCode | ResStatusStart | ResStatus | ResLineAlmostDone
    | StartReq | ReqMethod | ReqSpacesBeforeUrl
    | ReqSchema | ReqSchemaSlash | ReqSchemaSlashSlash
    | ReqServerStart | ReqServer | ReqServerWithAt
    | ReqPath | ReqQueryStringStart | ReqQueryString | ReqFragmentStart | ReqFragment
    | ReqHttpStart | ReqHttpH | ReqHttpHT | ReqHttpHTT | ReqHttpHTTP
    | ReqFirstHttpMajor | ReqHttpMajor | ReqFirstHttpMinor | ReqHttpMinor | ReqLineAlmostDone
    | HeaderFieldStart | HeaderField
    | HeaderValueDiscardWs | HeaderValueDiscardWsAlmostDone | HeaderValueDiscardLws
    | HeaderValueStart | HeaderValue | HeaderValueLws | HeaderAlmostDone
    | ChunkSizeStart | ChunkSize | ChunkParameters | ChunkSizeAlmostDone
    | HeadersAlmostDone | HeadersDone
    | ChunkData | ChunkDataAlmostDone | ChunkDataDone
    | BodyIdentity | BodyIdentityEof
    | MessageDone

  /** States up to s_headers_done in the source's enumeration. */
  predicate ParsingHeader(s: State) {
    !(s.ChunkData? || s.ChunkDataAlmostDone? || s.ChunkDataDone? ||
      s.BodyIdentity? || s.BodyIdentityEof? || s.MessageDone?)
  }

  datatype HeaderState =
    | General | C | CO | CON
    | MatchingConnection | MatchingProxyConnection | MatchingContentLength
    | MatchingTransferEncoding | MatchingUpgrade
    | Connection | ContentLength | TransferEncoding | Upgrade
    | MatchingTransferEncodingChunked
    | MatchingConnectionTokenStart | MatchingConnectionKeepAlive | MatchingConnectionClose
    | MatchingConnectionUpgrade | MatchingConnectionToken
    | TransferEncodingChunked | ConnectionKeepAlive | ConnectionClose | ConnectionUpgrade

  datatype Method =
    | DELETE | GET | HEAD | POST | PUT | CONNECT | OPTIONS | TRACE | COPY | LOCK | MKCOL | MOVE
    | PROPFIND | PROPPATCH | SEARCH | UNLOCK | BIND | REBIND | UNBIND | ACL | REPORT
    | MKACTIVITY | CHECKOUT | MERGE | MSEARCH | NOTIFY | SUBSCRIBE | UNSUBSCRIBE | PATCH
    | PURGE | MKCALENDAR | LINK | UNLINK

  function MethodString(m: Method): seq<Byte> {
    match m
    case DELETE => "DELETE" case GET => "GET" case HEAD => "HEAD" case POST => "POST"
    case PUT => "PUT" case CONNECT => "CONNECT" case OPTIONS => "OPTIONS" case TRACE => "TRACE"
    case COPY => "COPY" case LOCK => "LOCK" case MKCOL => "MKCOL" case MOVE => "MOVE"
    case PROPFIND => "PROPFIND" case PROPPATCH => "PROPPATCH" case SEARCH => "SEARCH"
    case UNLOCK => "UNLOCK" case BIND => "BIND" case REBIND => "REBIND" case UNBIND => "UNBIND"
    case ACL => "ACL" case REPORT => "REPORT" case MKACTIVITY => "MKACTIVITY"
    case CHECKOUT => "CHECKOUT" case MERGE => "MERGE" case MSEARCH => "M-SEARCH"
    case NOTIFY => "NOTIFY" case SUBSCRIBE => "SUBSCRIBE" case UNSUBSCRIBE => "UNSUBSCRIBE"
    case PATCH => "PATCH" case PURGE => "PURGE" case MKCALENDAR => "MKCALENDAR"
    case LINK => "LINK" case UNLINK => "UNLINK"
  }

  datatype Errno =
    | OK | InvalidEofState | HeaderOverflow | ClosedConnection | InvalidVersion | InvalidStatus
    | InvalidMethod | InvalidUrl | LfExpected | InvalidHeaderToken | InvalidContentLength
    | UnexpectedContentLength | InvalidChunkSize | InvalidConstant | Strict

  /** The fields of struct http_parser, except nread and lenient_http_headers. */
  datatype Parser = Parser(
    kind: Kind, flags: Flags, state: State, header: HeaderState, index: nat,
    contentLength: nat, major: nat, minor: nat, status: nat, verb: Method,
    errno: Errno, upgrade: bool)

  /** What on_headers_complete answers: 0, 1 (no body) or 2 (no body and no more messages). */
  datatype Answer = Proceed | SkipBody | SkipBodyAndUpgrade

  datatype DataKind = Url | Status | Field | Value | Body

  /** What is fixed during a call: the answer above, and lenient_http_headers. */
  datatype Settings = Settings(answer: Answer, lenient: bool)

  /** The callbacks. The three that matter to framing carry the parser fields they may read. */
  datatype Event =
    | Data(kind: DataKind, bytes: seq<Byte>)
    | OnMessageBegin
    | OnHeadersComplete(length: nat, chunked: bool, noBody: bool, untilEof: bool)
    | OnMessageComplete
    | OnChunkHeader(size: nat)
    | OnChunkComplete

  /** Stop: the call returns because the rest of the input belongs to another protocol. */
  datatype Next = Advance | Again | Stop

  /** `take`: the byte belongs to that piece of data; `notes`: callbacks run by the step. */
  datatype Outcome = Outcome(p: Parser, take: Option<DataKind>, notes: seq<Event>, next: Next)

  function Move(p: Parser): Outcome { Outcome(p, None, [], Advance) }

  function Goto(p: Parser, s: State): Outcome { Move(p.(state := s)) }

  function Reexecute(p: Parser, s: State, notes: seq<Event>): Outcome {
    Outcome(p.(state := s), None, notes, Again)
  }

  function Take(p: Parser, k: DataKind): Outcome { Outcome(p, Some(k), [], Advance) }

  function Fail(p: Parser, e: Errno): Outcome { Move(p.(errno := e)) }

  function Expect(p: Parser, ok: bool, e: Errno, s: State): Outcome {
    if ok then Goto(p, s) else Fail(p, e)
  }

  function MessageNeedsEof(p: Parser): bool {
    !p.kind.Request? &&
    !(p.status / 100 == 1 || p.status == 204 || p.status == 304 || p.flags.skipBody) &&
    !(p.flags.chunked || p.contentLength != NO_LENGTH)
  }

  predicate ShouldKeepAlive(p: Parser) {
    (if p.major > 0 && p.minor > 0 then !p.flags.connectionClose else p.flags.connectionKeepAlive) &&
    !MessageNeedsEof(p)
  }

  function StartState(p: Parser): State { if p.kind.Request? then StartReq else StartRes }

  function NewMessage(p: Parser): State { if ShouldKeepAlive(p) then StartState(p) else Dead }

  function FreshMessage(p: Parser): Parser { p.(flags := NO_FLAGS, contentLength := NO_LENGTH) }

  /** parse_url_char; Dead means the byte is not allowed here. */
  function ParseUrlChar(s: State, ch: Byte): State {
    if ch in " \r\n\t" || ch as int == 12 then Dead
    else
      if s.ReqSpacesBeforeUrl? then
        if ch == '/' || ch == '*' then ReqPath else if IsAlpha(ch) then ReqSchema else Dead
      else if s.ReqSchema? then
        if IsAlpha(ch) then ReqSchema else if ch == ':' then ReqSchemaSlash else Dead
      else if s.ReqSchemaSlash? then
        if ch == '/' then ReqSchemaSlashSlash else Dead
      else if s.ReqSchemaSlashSlash? then
        if ch == '/' then ReqServerStart else Dead
      else if s.ReqServerWithAt? then
        if ch == '@' then Dead else ParseServerChar(ch)
      else if s.ReqServerStart? || s.ReqServer? then ParseServerChar(ch)
      else if s.ReqPath? then
        if IsUrlChar(ch) then ReqPath
        else if ch == '?' then ReqQueryStringStart
        else if ch == '#' then ReqFragmentStart
        else Dead
      else if s.ReqQueryStringStart? || s.ReqQueryString? then ParseQueryChar(ch)
      else if s.ReqFragmentStart? then
        if IsUrlChar(ch) || ch == '?' then ReqFragment
        else if ch == '#' then ReqFragmentStart
        else Dead
      else if s.ReqFragment? then
        if IsUrlChar(ch) || ch == '?' || ch == '#' then ReqFragment else Dead
      else Dead
  }

  function ParseServerChar(ch: Byte): State {
    if ch == '/' then ReqPath
    else if ch == '?' then ReqQueryStringStart
    else if ch == '@' then ReqServerWithAt
    else if IsUserinfoChar(ch) || ch == '[' || ch == ']' then ReqServer
    else Dead
  }

  function ParseQueryChar(ch: Byte): State {
    if IsUrlChar(ch) || ch == '?' then ReqQueryString
    else if ch == '#' then ReqFragmentStart
    else Dead
  }

  /** A first method letter picks the method to match against; later letters may change it. */
  function FirstMethod(ch: Byte): Option<Method> {
    match ch
    case 'A' => Some(ACL) case 'B' => Some(BIND) case 'C' => Some(CONNECT) case 'D' => Some(DELETE)
    case 'G' => Some(GET) case 'H' => Some(HEAD) case 'L' => Some(LOCK) case 'M' => Some(MKCOL)
    case 'N' => Some(NOTIFY) case 'O' => Some(OPTIONS) case 'P' => Some(POST) case 'R' => Some(REPORT)
    case 'S' => Some(SUBSCRIBE) case 'T' => Some(TRACE) case 'U' => Some(UNLOCK)
    case _ => None
  }

  function SwitchMethod(m: Method, index: nat, ch: Byte): Option<Method> {
    match (m, index, ch)
    case (POST, 1, 'U') => Some(PUT)
    case (POST, 1, 'A') => Some(PATCH)
    case (CONNECT, 1, 'H') => Some(CHECKOUT)
    case (CONNECT, 2, 'P') => Some(COPY)
    case (MKCOL, 1, 'O') => Some(MOVE)
    case (MKCOL, 1, 'E') => Some(MERGE)
    case (MKCOL, 1, '-') => Some(MSEARCH)
    case (MKCOL, 2, 'A') => Some(MKACTIVITY)
    case (MKCOL, 3, 'A') => Some(MKCALENDAR)
    case (SUBSCRIBE, 1, 'E') => Some(SEARCH)
    case (REPORT, 2, 'B') => Some(REBIND)
    case (POST, 1, 'R') => Some(PROPFIND)
    case (PROPFIND, 4, 'P') => Some(PROPPATCH)
    case (PUT, 2, 'R') => Some(PURGE)
    case (LOCK, 1, 'I') => Some(LINK)
    case (UNLOCK, 2, 'S') => Some(UNSUBSCRIBE)
    case (UNLOCK, 2, 'B') => Some(UNBIND)
    case (UNLOCK, 3, 'I') => Some(UNLINK)
    case _ => None
  }

  function MethodStep(p: Parser, ch: Byte): Outcome {
    var name := MethodString(p.verb);
    if ch == NUL then Fail(p, InvalidMethod)
    else if ch == ' ' && p.index == |name| then
      Goto(p.(index := p.index + 1), ReqSpacesBeforeUrl)
    else if p.index < |name| && ch == name[p.index] then Move(p.(index := p.index + 1))
    else
      var m := SwitchMethod(p.verb, p.index, ch);
      if m.None? then Fail(p, InvalidMethod) else Move(p.(verb := m.value, index := p.index + 1))
  }

  /** One more decimal digit of a number that may not exceed 999. */
  function UpTo999(n: nat, ch: Byte): nat requires IsNum(ch) { n * 10 + DigitValue(ch) }

  function StartStep(p: Parser, ch: Byte): (o: Outcome)
    requires PhaseOf(p.state) == Starting
    ensures o.next.Again? ==> Rank(o.p.state) < Rank(p.state)
  {
    if p.state.Dead? then
      if ch == CR || ch == LF then Move(p) else Fail(p, ClosedConnection)
    else if p.state.StartReqOrRes? then
      if ch == CR || ch == LF then Move(p)
      else if ch == 'H' then
        Outcome(FreshMessage(p).(state := ResOrRespH), None, [OnMessageBegin], Advance)
      else Reexecute(FreshMessage(p).(kind := Request), StartReq, [])
    else if p.state.ResOrRespH? then
      if ch == 'T' then Goto(p.(kind := Response), ResHT)
      else if ch == 'E' then Goto(p.(kind := Request, verb := HEAD, index := 2), ReqMethod)
      else Fail(p, InvalidConstant)
    else if p.state.StartRes? then
      if ch == 'H' then Outcome(FreshMessage(p).(state := ResH), None, [OnMessageBegin], Advance)
      else if ch == CR || ch == LF then Outcome(FreshMessage(p), None, [OnMessageBegin], Advance)
      else Fail(FreshMessage(p), InvalidConstant)
    else  // StartReq
      if ch == CR || ch == LF then Move(p)
      else if FirstMethod(ch).None? then Fail(FreshMessage(p), InvalidMethod)
      else
        Outcome(FreshMessage(p).(verb := FirstMethod(ch).value, index := 1, state := ReqMethod),
                None, [OnMessageBegin], Advance)
  }

  function ResponseVersionStep(p: Parser, ch: Byte): Outcome
    requires PhaseOf(p.state) == ResponseVersion
  {
    if p.state.ResH? then Expect(p, ch == 'T', Strict, ResHT)
    else if p.state.ResHT? then Expect(p, ch == 'T', Strict, ResHTT)
    else if p.state.ResHTT? then Expect(p, ch == 'P', Strict, ResHTTP)
    else if p.state.ResHTTP? then Expect(p, ch == '/', Strict, ResFirstHttpMajor)
    else if p.state.ResFirstHttpMajor? then
      if IsNum(ch) then Goto(p.(major := DigitValue(ch)), ResHttpMajor) else Fail(p, InvalidVersion)
    else if p.state.ResHttpMajor? then
      if ch == '.' then Goto(p, ResFirstHttpMinor)
      else if IsNum(ch) && UpTo999(p.major, ch) <= 999 then Move(p.(major := UpTo999(p.major, ch)))
      else Fail(p, InvalidVersion)
    else if p.state.ResFirstHttpMinor? then
      if IsNum(ch) then Goto(p.(minor := DigitValue(ch)), ResHttpMinor) else Fail(p, InvalidVersion)
    else  // ResHttpMinor
      if ch == ' ' then Goto(p, ResFirstStatusCode)
      else if IsNum(ch) && UpTo999(p.minor, ch) <= 999 then Move(p.(minor := UpTo999(p.minor, ch)))
      else Fail(p, InvalidVersion)
  }

  function ResponseStatusStep(p: Parser, ch: Byte): Outcome
    requires PhaseOf(p.state) == ResponseStatus
  {
    if p.state.ResFirstStatusCode? then
      if IsNum(ch) then Goto(p.(status := DigitValue(ch)), ResStatusCode)
      else if ch == ' ' then Move(p)
      else Fail(p, InvalidStatus)
    else if p.state.ResStatusCode? then
      if ch == ' ' then Goto(p, ResStatusStart)
      else if ch == CR then Goto(p, ResLineAlmostDone)
      else if ch == LF then Goto(p, HeaderFieldStart)
      else if IsNum(ch) && UpTo999(p.status, ch) <= 999 then Move(p.(status := UpTo999(p.status, ch)))
      else Fail(p, InvalidStatus)
    else if p.state.ResStatusStart? then
      if ch == CR then Goto(p, ResLineAlmostDone)
      else if ch == LF then Goto(p, HeaderFieldStart)
      else Take(p.(state := ResStatus, index := 0), Status)
    else if p.state.ResStatus? then
      if ch == CR then Goto(p, ResLineAlmostDone)
      else if ch == LF then Goto(p, HeaderFieldStart)
      else Take(p, Status)
    else  // ResLineAlmostDone
      Expect(p, ch == LF, Strict, HeaderFieldStart)
  }

  function UrlByte(p: Parser, from: State, ch: Byte): Outcome {
    var s := ParseUrlChar(from, ch);
    if s.Dead? then Fail(p.(state := Dead), InvalidUrl) else Take(p.(state := s), Url)
  }

  function RequestUrlStep(p: Parser, ch: Byte): Outcome
    requires PhaseOf(p.state) == RequestUrl
  {
    if p.state.ReqMethod? then MethodStep(p, ch)
    else if p.state.ReqSpacesBeforeUrl? then
      if ch == ' ' then Move(p)
      else UrlByte(p, if p.verb.CONNECT? then ReqServerStart else ReqSpacesBeforeUrl, ch)
    else if p.state.ReqSchema? || p.state.ReqSchemaSlash? || p.state.ReqSchemaSlashSlash? ||
        p.state.ReqServerStart? then UrlByte(p, p.state, ch)
    else  // ReqServer .. ReqFragment: a space or line end may close the URL
      if ch == ' ' then Goto(p, ReqHttpStart)
      else if ch == CR then Goto(p.(major := 0, minor := 9), ReqLineAlmostDone)
      else if ch == LF then Goto(p.(major := 0, minor := 9), HeaderFieldStart)
      else UrlByte(p, p.state, ch)
  }

  function RequestVersionStep(p: Parser, ch: Byte): Outcome
    requires PhaseOf(p.state) == RequestVersion
  {
    if p.state.ReqHttpStart? then
      if ch == ' ' then Move(p) else Expect(p, ch == 'H', InvalidConstant, ReqHttpH)
    else if p.state.ReqHttpH? then Expect(p, ch == 'T', Strict, ReqHttpHT)
    else if p.state.ReqHttpHT? then Expect(p, ch == 'T', Strict, ReqHttpHTT)
    else if p.state.ReqHttpHTT? then Expect(p, ch == 'P', Strict, ReqHttpHTTP)
    else if p.state.ReqHttpHTTP? then Expect(p, ch == '/', Strict, ReqFirstHttpMajor)
    else if p.state.ReqFirstHttpMajor? then
      if '1' <= ch <= '9' then Goto(p.(major := DigitValue(ch)), ReqHttpMajor)
      else Fail(p, InvalidVersion)
    else if p.state.ReqHttpMajor? then
      if ch == '.' then Goto(p, ReqFirstHttpMinor)
      else if IsNum(ch) && UpTo999(p.major, ch) <= 999 then Move(p.(major := UpTo999(p.major, ch)))
      else Fail(p, InvalidVersion)
    else if p.state.ReqFirstHttpMinor? then
      if IsNum(ch) then Goto(p.(minor := DigitValue(ch)), ReqHttpMinor) else Fail(p, InvalidVersion)
    else if p.state.ReqHttpMinor? then
      if ch == CR then Goto(p, ReqLineAlmostDone)
      else if ch == LF then Goto(p, HeaderFieldStart)
      else if IsNum(ch) && UpTo999(p.minor, ch) <= 999 then Move(p.(minor := UpTo999(p.minor, ch)))
      else Fail(p, InvalidVersion)
    else  // ReqLineAlmostDone
      Expect(p, ch == LF, LfExpected, HeaderFieldStart)
  }

  const CONNECTION: seq<Byte> := "connection"
  const PROXY_CONNECTION: seq<Byte> := "proxy-connection"
  const CONTENT_LENGTH: seq<Byte> := "content-length"
  const TRANSFER_ENCODING: seq<Byte> := "transfer-encoding"
  const UPGRADE: seq<Byte> := "upgrade"
  const CHUNKED: seq<Byte> := "chunked"
  const KEEP_ALIVE: seq<Byte> := "keep-alive"
  const CLOSE: seq<Byte> := "close"

  /**
   One more character against a word: the new index is compared, and the match is complete
   at the last character. Reading the terminating NUL at index |word| never matches a token.
   */
  function Match(word: string, index: nat, c: Byte, onMiss: HeaderState, onMore: HeaderState,
                 onDone: HeaderState): HeaderState
  {
    if index + 1 >= |word| || c != word[index + 1] then onMiss
    else if index + 1 == |word| - 1 then onDone
    else onMore
  }

  function FirstNameState(c: Byte): HeaderState {
    match c
    case 'c' => C
    case 'p' => MatchingProxyConnection
    case 't' => MatchingTransferEncoding
    case 'u' => MatchingUpgrade
    case _ => General
  }

  /** The header-name matcher on one token character c (already in lower case). */
  function NameStep(h: HeaderState, index: nat, c: Byte): (HeaderState, nat) {
    if h.C? then (if c == 'o' then CO else General, index + 1)
    else if h.CO? then (if c == 'n' then CON else General, index + 1)
    else if h.CON? then
      (if c == 'n' then MatchingConnection else if c == 't' then MatchingContentLength else General,
       index + 1)
    else if h.MatchingConnection? then (Match(CONNECTION, index, c, General, h, Connection), index + 1)
    else if h.MatchingProxyConnection? then (Match(PROXY_CONNECTION, index, c, General, h, Connection), index + 1)
    else if h.MatchingContentLength? then (Match(CONTENT_LENGTH, index, c, General, h, ContentLength), index + 1)
    else if h.MatchingTransferEncoding? then
      (Match(TRANSFER_ENCODING, index, c, General, h, TransferEncoding), index + 1)
    else if h.MatchingUpgrade? then (Match(UPGRADE, index, c, General, h, Upgrade), index + 1)
    else if h.Connection? || h.ContentLength? || h.TransferEncoding? ||
        h.Upgrade? then (if c == ' ' then h else General, index)
    else (General, index)
  }

  function HeaderFieldStartStep(p: Parser, ch: Byte): (o: Outcome)
    requires p.state.HeaderFieldStart?
    ensures o.next.Again? ==> Rank(o.p.state) < Rank(p.state)
  {
    if ch == CR then Goto(p, HeadersAlmostDone)
    else if ch == LF then Reexecute(p, HeadersAlmostDone, [])
    else if Token(ch) == NUL then Fail(p, InvalidHeaderToken)
    else Take(p.(state := HeaderField, index := 0, header := FirstNameState(Token(ch))), Field)
  }

  function HeaderFieldStep(p: Parser, ch: Byte): Outcome {
    if Token(ch) != NUL then
      var (h, i) := NameStep(p.header, p.index, Token(ch));
      Take(p.(header := h, index := i), Field)
    else Expect(p, ch == ':', InvalidHeaderToken, HeaderValueDiscardWs)
  }

  function ValueStartStep(q: Parser, ch: Byte): Outcome {
    var p := q.(state := HeaderValue, index := 0);
    var c := Lower(ch);
    if p.header.Upgrade? then Take(p.(flags := p.flags.(upgrade := true), header := General), Value)
    else if p.header.TransferEncoding? then
      Take(p.(header := if c == 'c' then MatchingTransferEncodingChunked else General), Value)
    else if p.header.ContentLength? then
      if !IsNum(ch) then Fail(p, InvalidContentLength)
      else if p.flags.contentLength then Fail(p, UnexpectedContentLength)
      else Take(p.(flags := p.flags.(contentLength := true), contentLength := DigitValue(ch)), Value)
    else if p.header.Connection? then
      Take(p.(header :=
        if c == 'k' then MatchingConnectionKeepAlive
        else if c == 'c' then MatchingConnectionClose
        else if c == 'u' then MatchingConnectionUpgrade
        else MatchingConnectionToken), Value)
    else if p.header.MatchingConnectionTokenStart? then Take(p, Value)
    else Take(p.(header := General), Value)
  }

  /** The 64-bit accumulator: x * base + digit wraps, and the guard rejects before it can. */
  function Accumulate(x: nat, base: nat, digit: nat): nat { (x * base + digit) % TWO_64 }

  predicate AccumulatorFull(x: nat, base: nat)
    requires base == 10 || base == 16
  {
    (NO_LENGTH - base) / base < x
  }

  function LengthByte(p: Parser, ch: Byte): Outcome {
    if ch == ' ' then Take(p, Value)
    else if !IsNum(ch) || AccumulatorFull(p.contentLength, 10) then Fail(p, InvalidContentLength)
    else Take(p.(contentLength := Accumulate(p.contentLength, 10, DigitValue(ch))), Value)
  }

  /** The header-value matcher on one byte. */
  function ValueByte(p: Parser, ch: Byte): Outcome {
    if p.header.General? then Take(p, Value)
    else if p.header.ContentLength? then LengthByte(p, ch)
    else TokenByte(p, ch)
  }

  /** The `Connection` and `Transfer-Encoding: chunked` matchers. */
  function TokenStep(h: HeaderState, index: nat, ch: Byte): (HeaderState, nat) {
    var c := Lower(ch);
    if h.MatchingTransferEncodingChunked? then
      (Match(CHUNKED, index, c, General, h, TransferEncodingChunked), index + 1)
    else if h.MatchingConnectionTokenStart? then
      (if c == 'k' then MatchingConnectionKeepAlive
       else if c == 'c' then MatchingConnectionClose
       else if c == 'u' then MatchingConnectionUpgrade
       else if Token(c) != NUL then MatchingConnectionToken
       else if c == ' ' || c == TAB then h
       else General, index)
    else if h.MatchingConnectionKeepAlive? then
      (Match(KEEP_ALIVE, index, c, MatchingConnectionToken, h, ConnectionKeepAlive), index + 1)
    else if h.MatchingConnectionClose? then
      (Match(CLOSE, index, c, MatchingConnectionToken, h, ConnectionClose), index + 1)
    else if h.MatchingConnectionUpgrade? then
      (Match(UPGRADE, index, c, MatchingConnectionToken, h, ConnectionUpgrade), index + 1)
    else if h.MatchingConnectionToken? then
      if ch == ',' then (MatchingConnectionTokenStart, 0) else (h, index)
    else if h.TransferEncodingChunked? then (if ch == ' ' then h else General, index)
    else if h.ConnectionKeepAlive? || h.ConnectionClose? || h.ConnectionUpgrade? then AfterToken(h, index, ch)
    else (General, index)
  }

  function AfterToken(h: HeaderState, index: nat, ch: Byte): (HeaderState, nat) {
    if ch == ',' then (MatchingConnectionTokenStart, 0)
    else (if ch == ' ' then h else MatchingConnectionToken, index)
  }

  /** A comma after a complete token of a `Connection` list sets its flag at once. */
  predicate ConnectionToken(h: HeaderState) { h.ConnectionKeepAlive? || h.ConnectionClose? || h.ConnectionUpgrade? }

  function TokenByte(p: Parser, ch: Byte): Outcome {
    var (h, i) := TokenStep(p.header, p.index, ch);
    var f := if ch == ',' && ConnectionToken(p.header) then SetFlag(p.flags, p.header) else p.flags;
    Take(p.(header := h, index := i, flags := f), Value)
  }

  /** The flag a completely matched header value sets. */
  function SetFlag(f: Flags, h: HeaderState): Flags {
    if h.ConnectionKeepAlive? then f.(connectionKeepAlive := true)
    else if h.ConnectionClose? then f.(connectionClose := true)
    else if h.ConnectionUpgrade? then f.(connectionUpgrade := true)
    else if h.TransferEncodingChunked? then f.(chunked := true)
    else f
  }

  predicate BadValueByte(p: Parser, ch: Byte) {
    p.state.HeaderValue? && ch != CR && ch != LF && !IsHeaderChar(ch)
  }

  function HeaderValueStep(p: Parser, ch: Byte, lenient: bool): (o: Outcome)
    requires p.state.HeaderValue?
    ensures o.next.Again? ==> Rank(o.p.state) < Rank(p.state)
  {
    if ch == CR then Goto(p, HeaderAlmostDone)
    else if ch == LF then Reexecute(p, HeaderAlmostDone, [])
    else if !lenient && BadValueByte(p, ch) then Fail(p, InvalidHeaderToken)
    else ValueByte(p, ch)
  }

  function DiscardLwsStep(p: Parser, ch: Byte): Outcome {
    if ch == ' ' || ch == TAB then Goto(p, HeaderValueDiscardWs)
    else Reexecute(p.(flags := SetFlag(p.flags, p.header)), HeaderFieldStart, [Data(Value, [])])
  }

  function ValueLwsStep(p: Parser, ch: Byte): Outcome {
    if ch == ' ' || ch == TAB then Reexecute(p, HeaderValueStart, [])
    else Reexecute(p.(flags := SetFlag(p.flags, p.header)), HeaderFieldStart, [])
  }

  function HeaderSpaceStep(p: Parser, ch: Byte): (o: Outcome)
    requires PhaseOf(p.state) == HeaderSpace
    ensures o.next.Again? ==> Rank(o.p.state) < Rank(p.state)
  {
    if p.state.HeaderValueDiscardWs? then
      if ch == ' ' || ch == TAB then Move(p)
      else if ch == CR then Goto(p, HeaderValueDiscardWsAlmostDone)
      else if ch == LF then Goto(p, HeaderValueDiscardLws)
      else ValueStartStep(p, ch)
    else if p.state.HeaderValueDiscardWsAlmostDone? then Expect(p, ch == LF, Strict, HeaderValueDiscardLws)
    else if p.state.HeaderValueDiscardLws? then DiscardLwsStep(p, ch)
    else if p.state.HeaderValueStart? then ValueStartStep(p, ch)
    else if p.state.HeaderAlmostDone? then Expect(p, ch == LF, LfExpected, HeaderValueLws)
    else ValueLwsStep(p, ch)
  }

  predicate HasBody(p: Parser) {
    p.flags.chunked || (p.contentLength > 0 && p.contentLength != NO_LENGTH)
  }

  predicate LeavesHttp(p: Parser) {
    p.upgrade && (p.verb.CONNECT? || p.flags.skipBody || !HasBody(p))
  }

  function HeadersComplete(p: Parser): Event {
    OnHeadersComplete(p.contentLength, p.flags.chunked, LeavesHttp(p) || p.flags.skipBody, MessageNeedsEof(p))
  }

  /** The parser as on_headers_complete leaves it. */
  function WithAnswer(p: Parser, a: Answer): Parser {
    var upgrade := (p.flags.upgrade && p.flags.connectionUpgrade) || p.verb.CONNECT?;
    p.(upgrade := upgrade || a.SkipBodyAndUpgrade?,
       flags := p.flags.(skipBody := p.flags.skipBody || !a.Proceed?))
  }

  function HeadersAlmostDoneStep(p: Parser, ch: Byte, a: Answer): Outcome {
    if ch != LF then Fail(p, Strict)
    else if p.flags.trailing then Reexecute(p, MessageDone, [OnChunkComplete])
    else if p.flags.chunked && p.flags.contentLength then Fail(p, UnexpectedContentLength)
    else Reexecute(WithAnswer(p, a), HeadersDone, [HeadersComplete(WithAnswer(p, a))])
  }

  function HeadersDoneStep(p: Parser, ch: Byte): (o: Outcome)
    ensures !o.next.Again?
  {
    if ch != LF then Fail(p, Strict)
    else if LeavesHttp(p) then Outcome(p.(state := NewMessage(p)), None, [OnMessageComplete], Stop)
    else if p.flags.skipBody then Complete(p)
    else if p.flags.chunked then Goto(p, ChunkSizeStart)
    else if p.contentLength == 0 then Complete(p)
    else if p.contentLength != NO_LENGTH then Goto(p, BodyIdentity)
    else if !MessageNeedsEof(p) then Complete(p)
    else Goto(p, BodyIdentityEof)
  }

  function Complete(p: Parser): Outcome {
    Outcome(p.(state := NewMessage(p)), None, [OnMessageComplete], Advance)
  }

  function BodyStep(p: Parser, ch: Byte): (o: Outcome)
    requires PhaseOf(p.state) == InBody
    ensures o.next.Again? ==> Rank(o.p.state) < Rank(p.state)
  {
    if p.state.BodyIdentity? then
      (var q := p.(contentLength := if p.contentLength > 0 then p.contentLength - 1 else 0);
       if q.contentLength == 0 then Outcome(q.(state := MessageDone), Some(Body), [], Again) else Take(q, Body))
    else if p.state.BodyIdentityEof? then Take(p, Body)
    else  // MessageDone
      Outcome(p.(state := NewMessage(p)), None, [OnMessageComplete], if p.upgrade then Stop else Advance)
  }

  function ChunkStep(p: Parser, ch: Byte): (o: Outcome)
    requires PhaseOf(p.state) == InChunks
    ensures !o.next.Again?
  {
    if p.state.ChunkSizeStart? then
      if Unhex(ch) == -1 then Fail(p, InvalidChunkSize)
      else Goto(p.(contentLength := Unhex(ch)), ChunkSize)
    else if p.state.ChunkSize? then
      if ch == CR then Goto(p, ChunkSizeAlmostDone)
      else if Unhex(ch) == -1 then Expect(p, ch == ';' || ch == ' ', InvalidChunkSize, ChunkParameters)
      else if AccumulatorFull(p.contentLength, 16) then Fail(p, InvalidContentLength)
      else Move(p.(contentLength := Accumulate(p.contentLength, 16, Unhex(ch))))
    else if p.state.ChunkParameters? then
      if ch == CR then Goto(p, ChunkSizeAlmostDone) else Move(p)
    else if p.state.ChunkSizeAlmostDone? then
      if ch != LF then Fail(p, Strict)
      else
        var q := if p.contentLength == 0
                 then p.(flags := p.flags.(trailing := true), state := HeaderFieldStart)
                 else p.(state := ChunkData);
        Outcome(q, None, [OnChunkHeader(p.contentLength)], Advance)
    else if p.state.ChunkData? then
      (var q := p.(contentLength := if p.contentLength > 0 then p.contentLength - 1 else 0);
       Take(if q.contentLength == 0 then q.(state := ChunkDataAlmostDone) else q, Body))
    else if p.state.ChunkDataAlmostDone? then Expect(p, ch == CR, Strict, ChunkDataDone)
    else  // ChunkDataDone
      if ch == LF then Outcome(p.(state := ChunkSizeStart), None, [OnChunkComplete], Advance)
      else Fail(p, Strict)
  }

  datatype Phase =
    | Starting | ResponseVersion | ResponseStatus | RequestUrl | RequestVersion
    | HeaderLine | HeaderSpace | HeadersEnd | InBody | InChunks

  function PhaseOf(s: State): Phase {
    match s
    case Dead => Starting case StartReqOrRes => Starting case ResOrRespH => Starting
    case StartRes => Starting case StartReq => Starting
    case ResH => ResponseVersion case ResHT => ResponseVersion case ResHTT => ResponseVersion
    case ResHTTP => ResponseVersion case ResFirstHttpMajor => ResponseVersion
    case ResHttpMajor => ResponseVersion case ResFirstHttpMinor => ResponseVersion
    case ResHttpMinor => ResponseVersion
    case ResFirstStatusCode => ResponseStatus case ResStatusCode => ResponseStatus
    case ResStatusStart => ResponseStatus case ResStatus => ResponseStatus
    case ResLineAlmostDone => ResponseStatus
    case ReqHttpStart => RequestVersion case ReqHttpH => RequestVersion case ReqHttpHT => RequestVersion
    case ReqHttpHTT => RequestVersion case ReqHttpHTTP => RequestVersion
    case ReqFirstHttpMajor => RequestVersion case ReqHttpMajor => RequestVersion
    case ReqFirstHttpMinor => RequestVersion case ReqHttpMinor => RequestVersion
    case ReqLineAlmostDone => RequestVersion
    case HeaderFieldStart => HeaderLine case HeaderField => HeaderLine case HeaderValue => HeaderLine
    case HeaderValueDiscardWs => HeaderSpace case HeaderValueDiscardWsAlmostDone => HeaderSpace
    case HeaderValueDiscardLws => HeaderSpace case HeaderValueStart => HeaderSpace
    case HeaderValueLws => HeaderSpace case HeaderAlmostDone => HeaderSpace
    case HeadersAlmostDone => HeadersEnd case HeadersDone => HeadersEnd
    case ChunkSizeStart => InChunks case ChunkSize => InChunks case ChunkParameters => InChunks
    case ChunkSizeAlmostDone => InChunks case ChunkData => InChunks
    case ChunkDataAlmostDone => InChunks case ChunkDataDone => InChunks
    case BodyIdentity => InBody case BodyIdentityEof => InBody case MessageDone => InBody
    case _ => RequestUrl
  }

  function HeaderLineStep(p: Parser, ch: Byte, lenient: bool): (o: Outcome)
    requires PhaseOf(p.state) == HeaderLine
    ensures o.next.Again? ==> Rank(o.p.state) < Rank(p.state)
  {
    if p.state.HeaderFieldStart? then HeaderFieldStartStep(p, ch)
    else if p.state.HeaderField? then HeaderFieldStep(p, ch)
    else HeaderValueStep(p, ch, lenient)
  }

  /** One step of the machine: one pass through the source's `switch`. */
  function Micro(p: Parser, ch: Byte, a: Settings): (o: Outcome)
    ensures o.next.Again? ==> Rank(o.p.state) < Rank(p.state)
  {
    match PhaseOf(p.state)
    case Starting => StartStep(p, ch)
    case ResponseVersion => ResponseVersionStep(p, ch)
    case ResponseStatus => ResponseStatusStep(p, ch)
    case RequestUrl => RequestUrlStep(p, ch)
    case RequestVersion => RequestVersionStep(p, ch)
    case HeaderLine => HeaderLineStep(p, ch, a.lenient)
    case HeaderSpace => HeaderSpaceStep(p, ch)
    case HeadersEnd =>
      if p.state.HeadersAlmostDone? then HeadersAlmostDoneStep(p, ch, a.answer) else HeadersDoneStep(p, ch)
    case InBody => BodyStep(p, ch)
    case InChunks => ChunkStep(p, ch)
  }

  /** How many more times a byte may be looked at again from state s. */
  function Rank(s: State): nat {
    match s
    case HeaderValueLws => 4
    case HeaderValueDiscardLws => 4
    case HeaderFieldStart => 3
    case HeadersAlmostDone => 2
    case HeadersDone => 1
    case StartReqOrRes => 1
    case HeaderValue => 1
    case BodyIdentity => 1
    case _ => 0
  }
}
