/**
 Messages as texts: what a well-formed request or response looks like, the callbacks it stands
 for, and what its headers say about the body and the connection.
 */
module HttpMessages {
  import opened HttpChars
  import opened HttpFraming
  import opened HttpMachine
  import opened UrlWalk

  datatype StartLine =
    | RequestLine(verb: Method, url: seq<Byte>, major: seq<Byte>, minor: seq<Byte>)
    | StatusLine(major: seq<Byte>, minor: seq<Byte>, status: seq<Byte>, reason: seq<Byte>)

  /** `blank`: the spaces and tabs between the colon and the value. */
  datatype Header = Header(name: seq<Byte>, blank: seq<Byte>, value: seq<Byte>)

  /** The size as it is written; parameters start with ';' or a space. */
  datatype Chunk = Chunk(size: seq<Byte>, parameters: seq<Byte>, bytes: seq<Byte>)

  datatype Content =
    | Nothing
    | Sized(bytes: seq<Byte>)
    | Chunked(chunks: seq<Chunk>, last: Chunk, trailers: seq<Header>)

  datatype Message = Message(start: StartLine, headers: seq<Header>, content: Content)

  const CRLF: seq<Byte> := [CR, LF]

  // The texts.

  function StartText(l: StartLine): seq<Byte> {
    match l
    case RequestLine(verb, url, major, minor) =>
      MethodString(verb) + " " + url + " HTTP/" + major + "." + minor + CRLF
    case StatusLine(major, minor, status, reason) =>
      "HTTP/" + major + "." + minor + " " + status + " " + reason + CRLF
  }

  function HeaderText(h: Header): seq<Byte> { h.name + ":" + h.blank + h.value + CRLF }

  function LinesText(hs: seq<Header>): seq<Byte> { if hs == [] then [] else HeaderText(hs[0]) + LinesText(hs[1..]) }

  function HeadersText(hs: seq<Header>): seq<Byte> { LinesText(hs) + CRLF }

  function SizeText(c: Chunk): seq<Byte> { c.size + c.parameters + CRLF }

  function ChunksText(cs: seq<Chunk>): seq<Byte> {
    if cs == [] then [] else SizeText(cs[0]) + cs[0].bytes + CRLF + ChunksText(cs[1..])
  }

  function ContentText(c: Content): seq<Byte> {
    match c
    case Nothing => []
    case Sized(bytes) => bytes
    case Chunked(chunks, last, trailers) => ChunksText(chunks) + SizeText(last) + HeadersText(trailers)
  }

  function MessageText(m: Message): seq<Byte> {
    StartText(m.start) + HeadersText(m.headers) + ContentText(m.content)
  }

  // The callbacks.

  function DataEvent(k: DataKind, b: seq<Byte>): seq<Event> { if b == [] then [] else [Data(k, b)] }

  function StartEvents(l: StartLine): seq<Event> {
    if l.RequestLine? then [OnMessageBegin, Data(Url, l.url)] else [OnMessageBegin] + DataEvent(Status, l.reason)
  }

  function HeaderEvents(hs: seq<Header>): seq<Event> {
    if hs == [] then [] else [Data(Field, hs[0].name), Data(Value, hs[0].value)] + HeaderEvents(hs[1..])
  }

  function ChunkEvents(cs: seq<Chunk>): seq<Event> {
    if cs == [] then []
    else [OnChunkHeader(|cs[0].bytes|), Data(Body, cs[0].bytes), OnChunkComplete] + ChunkEvents(cs[1..])
  }

  function ContentEvents(c: Content): seq<Event> {
    match c
    case Nothing => []
    case Sized(bytes) => DataEvent(Body, bytes)
    case Chunked(chunks, last, trailers) =>
      ChunkEvents(chunks) + [OnChunkHeader(0)] + HeaderEvents(trailers) + [OnChunkComplete]
  }

  /** The length and the transfer coding are announced before the content. */
  function HeadEvents(m: Message): seq<Event> {
    StartEvents(m.start) + HeaderEvents(m.headers) +
    [OnHeadersComplete(LengthAfter(NO_LENGTH, m.headers), FlagsOf(m).chunked, false, false)]
  }

  function MessageEvents(m: Message): seq<Event> {
    HeadEvents(m) + ContentEvents(m.content) + [OnMessageComplete]
  }

  // What the headers mean.

  predicate Named(h: Header, name: seq<Byte>) { LowerAll(h.name) == name }

  predicate Says(h: Header, value: seq<Byte>) { LowerAll(h.value) == value }

  predicate AboutConnection(h: Header) { Named(h, CONNECTION) || Named(h, PROXY_CONNECTION) }

  predicate Special(h: Header) {
    AboutConnection(h) || Named(h, CONTENT_LENGTH) || Named(h, TRANSFER_ENCODING) || Named(h, UPGRADE)
  }

  function FlagsAfterOne(f: Flags, h: Header): Flags {
    if AboutConnection(h) then
      if Says(h, KEEP_ALIVE) then f.(connectionKeepAlive := true)
      else if Says(h, CLOSE) then f.(connectionClose := true)
      else f.(connectionUpgrade := true)
    else if Named(h, CONTENT_LENGTH) then f.(contentLength := true)
    else if Named(h, TRANSFER_ENCODING) then f.(chunked := true)
    else if Named(h, UPGRADE) then f.(upgrade := true)
    else f
  }

  function FlagsAfter(f: Flags, hs: seq<Header>): Flags
    decreases |hs|
  {
    if hs == [] then f else FlagsAfter(FlagsAfterOne(f, hs[0]), hs[1..])
  }

  function LengthAfterOne(n: nat, h: Header): nat { if Named(h, CONTENT_LENGTH) then Decimal(h.value) else n }

  function LengthAfter(n: nat, hs: seq<Header>): nat
    decreases |hs|
  {
    if hs == [] then n else LengthAfter(LengthAfterOne(n, hs[0]), hs[1..])
  }

  function FlagsOf(m: Message): Flags { FlagsAfter(NO_FLAGS, m.headers) }

  // Which messages are well formed.

  predicate Digits(s: seq<Byte>) { s != [] && forall k :: 0 <= k < |s| ==> IsNum(s[k]) }

  /** A number of the first line. */
  predicate SmallNumber(s: seq<Byte>) { Digits(s) && Decimal(s) <= 999 }

  predicate VisibleByte(c: Byte) { IsHeaderChar(c) && c != CR && c != LF }

  predicate Visible(s: seq<Byte>) { forall k :: 0 <= k < |s| ==> VisibleByte(s[k]) }

  predicate OneLine(s: seq<Byte>) { forall k :: 0 <= k < |s| ==> s[k] != CR && s[k] != LF }

  /** The states in which a URL may end. */
  predicate UrlEnds(s: State) {
    s.ReqServer? || s.ReqServerWithAt? || s.ReqPath? || s.ReqQueryStringStart? || s.ReqQueryString? ||
    s.ReqFragmentStart? || s.ReqFragment?
  }

  function UrlStart(verb: Method): State { if verb.CONNECT? then ReqServerStart else ReqSpacesBeforeUrl }

  predicate StartOk(l: StartLine) {
    && SmallNumber(l.major) && SmallNumber(l.minor)
    && match l
       case RequestLine(verb, url, major, minor) =>
         major[0] != '0' && url != [] && UrlEnds(Walk(url, UrlStart(verb), |url|))
       case StatusLine(major, minor, status, reason) => SmallNumber(status) && OneLine(reason)
  }

  predicate HeaderOk(h: Header) {
    && h.name != [] && (forall k :: 0 <= k < |h.name| ==> Token(h.name[k]) != NUL)
    && (forall k :: 0 <= k < |h.blank| ==> h.blank[k] == ' ' || h.blank[k] == TAB)
    && Visible(h.value) && (h.value != [] ==> h.value[0] != ' ' && h.value[0] != TAB)
    && (AboutConnection(h) ==> Says(h, KEEP_ALIVE) || Says(h, CLOSE) || Says(h, UPGRADE))
    && (Named(h, CONTENT_LENGTH) ==> Digits(h.value) && Decimal(h.value) <= NO_LENGTH - 10)
    && (Named(h, TRANSFER_ENCODING) ==> Says(h, CHUNKED))
    && (Named(h, UPGRADE) ==> h.value != [])
  }

  /** Every header is well formed, and Content-Length stands at most once. */
  predicate HeadersOk(f: Flags, hs: seq<Header>)
    decreases |hs|
  {
    hs != [] ==>
      HeaderOk(hs[0]) && !(Named(hs[0], CONTENT_LENGTH) && f.contentLength) &&
      HeadersOk(FlagsAfterOne(f, hs[0]), hs[1..])
  }

  /** What the parser reads as a hex digit: the hex digits, and every byte of 128 or more as the digit 0. */
  predicate SizeDigit(c: Byte) { Unhex(c) >= 0 }

  function SizeValue(s: seq<Byte>): nat
    requires forall k :: 0 <= k < |s| ==> SizeDigit(s[k])
  {
    if s == [] then 0
    else
      assert SizeDigit(s[|s| - 1]);
      SizeValue(s[..|s| - 1]) * 16 + Unhex(s[|s| - 1])
  }

  predicate ChunkOk(c: Chunk) {
    && c.size != [] && (forall k :: 0 <= k < |c.size| ==> SizeDigit(c.size[k]))
    && SizeValue(c.size) == |c.bytes| && |c.bytes| <= NO_LENGTH - 16
    && OneLine(c.parameters) && (c.parameters != [] ==> c.parameters[0] == ';' || c.parameters[0] == ' ')
  }

  /** A message that has no body unless its headers announce one. */
  predicate Bodiless(l: StartLine) {
    l.RequestLine? || Decimal(l.status) / 100 == 1 || Decimal(l.status) == 204 || Decimal(l.status) == 304
  }

  predicate ContentOk(m: Message) {
    var f := FlagsOf(m);
    match m.content
    case Nothing => !f.chunked && !f.contentLength && Bodiless(m.start)
    case Sized(bytes) => !f.chunked && f.contentLength && LengthAfter(NO_LENGTH, m.headers) == |bytes|
    case Chunked(chunks, last, trailers) =>
      && f.chunked && !f.contentLength
      && (forall c :: c in chunks ==> ChunkOk(c) && c.bytes != [])
      && ChunkOk(last) && last.bytes == []
      && (forall h :: h in trailers ==> HeaderOk(h) && !Special(h))
  }

  /** The message asks to leave HTTP. */
  predicate AsksToLeave(m: Message) {
    (m.start.RequestLine? && m.start.verb.CONNECT?) || (FlagsOf(m).upgrade && FlagsOf(m).connectionUpgrade)
  }

  predicate MessageOk(m: Message) {
    StartOk(m.start) && HeadersOk(NO_FLAGS, m.headers) && ContentOk(m) &&
    !AsksToLeave(m)
  }

  /** Whether another message may follow: by default in HTTP/1.1 and later, on request before. */
  predicate KeepsAlive(m: Message) {
    if Decimal(m.start.major) > 0 && Decimal(m.start.minor) > 0
    then !FlagsOf(m).connectionClose
    else FlagsOf(m).connectionKeepAlive
  }
}
