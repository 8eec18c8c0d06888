/**
 What holds of the parser in every state it can reach, together with the auditor's view of
 the callbacks so far. Every step of the machine keeps it.
 */
module HttpInvariant {
  import opened HttpChars
  import opened HttpMachine
  import opened HttpRun
  import opened HttpFraming
  import opened HttpNames
  import opened Options

  /** The data callback that may be under way in state s. */
  function OpenData(s: State): Option<DataKind> {
    match s
    case ReqSchema => Some(Url) case ReqSchemaSlash => Some(Url) case ReqSchemaSlashSlash => Some(Url)
    case ReqServerStart => Some(Url) case ReqServer => Some(Url) case ReqServerWithAt => Some(Url)
    case ReqPath => Some(Url) case ReqQueryStringStart => Some(Url) case ReqQueryString => Some(Url)
    case ReqFragmentStart => Some(Url) case ReqFragment => Some(Url)
    case ResStatus => Some(Status)
    case HeaderField => Some(Field)
    case HeaderValue => Some(Value)
    case BodyIdentity => Some(Body) case BodyIdentityEof => Some(Body)
    case ChunkData => Some(Body) case ChunkDataAlmostDone => Some(Body)
    case _ => None
  }

  /** At the start of a call the source sets this mark, so the data continues. */
  predicate Continues(s: State) { OpenData(s).Some? && OpenData(s) != Some(Body) }

  predicate InHeaderLines(s: State) { PhaseOf(s).HeaderLine? || PhaseOf(s).HeaderSpace? || s.HeadersAlmostDone? }

  predicate InFirstLine(s: State) {
    PhaseOf(s).ResponseVersion? || PhaseOf(s).ResponseStatus? || PhaseOf(s).RequestUrl? || PhaseOf(s).RequestVersion?
  }

  predicate FieldHeader(h: HeaderState) {
    Partial(h) || h.General? || h.Connection? || h.ContentLength? || h.TransferEncoding? || h.Upgrade?
  }

  predicate ValueHeader(h: HeaderState) { !h.Connection? && !h.TransferEncoding? && !h.Upgrade? && !Partial(h) }

  predicate NamesLength(u: Audit) { LowerAll(u.name) == CONTENT_LENGTH }

  /** The header lines read so far announce exactly what the parser's fields say. */
  predicate LengthInv(p: Parser, u: Audit) {
    match Announced(u)
    case None => !p.flags.contentLength && p.contentLength == NO_LENGTH
    case Some(n) => p.flags.contentLength && p.contentLength == n < NO_LENGTH
  }

  /** While reading trailers the body is complete and the last chunk is empty. */
  predicate TrailerInv(p: Parser, u: Audit) {
    p.flags.chunked && u.promise.Chunks? && u.body == u.chunkTotal && u.chunkBody == u.chunkSize
  }

  predicate BeforeValue(s: State) {
    s.HeaderValueDiscardWs? || s.HeaderValueDiscardWsAlmostDone? || s.HeaderValueDiscardLws?
  }

  predicate InValue(s: State) { s.HeaderValueStart? || s.HeaderValue? || s.HeaderAlmostDone? || s.HeaderValueLws? }

  predicate LineInv(p: Parser, u: Audit) {
    if p.state.HeaderFieldStart? then u.last != Some(Field)
    else if p.state.HeaderField? then
      u.last == Some(Field) && u.name != [] && p.header == Recognize(LowerAll(u.name)) &&
      (Partial(p.header) ==> p.index == |u.name| - 1)
    else if BeforeValue(p.state) then NameRead(p, u)
    else if InValue(p.state) then ValueRead(p, u)
    else true
  }

  predicate NameRead(p: Parser, u: Audit) {
    u.last == Some(Field) && p.header == Recognize(LowerAll(u.name))
  }

  predicate ValueRead(p: Parser, u: Audit) {
    u.last == Some(Value) && u.value != [] && ValueHeader(p.header) && (NamesLength(u) <==> p.header.ContentLength?)
  }

  predicate HeaderInv(p: Parser, u: Audit) {
    && (InFirstLine(p.state) || p.state.ResOrRespH? ==>
          LengthInv(p, u) && !p.flags.trailing && u.last != Some(Value) && u.last != Some(Field))
    && (InHeaderLines(p.state) ==> HeaderBlockInv(p, u))
  }

  predicate HeaderBlockInv(p: Parser, u: Audit) {
    LineInv(p, u) && FrameInv(p, u)
  }

  /** What the headers, or the body before the trailers, have announced. */
  predicate FrameInv(p: Parser, u: Audit) { if p.flags.trailing then TrailerInv(p, u) else LengthInv(p, u) }

  /** Between chunks, every byte of the chunks announced so far has been delivered. */
  predicate ChunksDelivered(p: Parser, u: Audit) {
    p.flags.chunked && u.promise.Chunks? && u.body == u.chunkTotal
  }

  /** Inside a chunk, the rest of it is still to come. */
  predicate ChunkUnderWay(p: Parser, u: Audit) {
    p.flags.chunked && u.promise.Chunks? && 0 < p.contentLength < NO_LENGTH &&
    u.body + p.contentLength == u.chunkTotal && u.chunkBody + p.contentLength == u.chunkSize
  }

  predicate ChunkEnded(p: Parser, u: Audit) { ChunksDelivered(p, u) && u.chunkBody == u.chunkSize }

  predicate BodyInv(p: Parser, u: Audit) {
    if p.state.HeadersDone? then
      u.body == 0 && u.chunkTotal == 0 &&
      u.promise == PromiseOf(p.contentLength, p.flags.chunked, LeavesHttp(p) || p.flags.skipBody, MessageNeedsEof(p))
    else if p.state.ChunkSizeStart? then ChunksDelivered(p, u)
    else if p.state.ChunkSize? || p.state.ChunkParameters? || p.state.ChunkSizeAlmostDone? then
      ChunksDelivered(p, u) && p.contentLength < NO_LENGTH
    else if p.state.ChunkData? then ChunkUnderWay(p, u)
    else if p.state.ChunkDataAlmostDone? then ChunkEnded(p, u) && p.contentLength == 0
    else if p.state.ChunkDataDone? then ChunkEnded(p, u)
    else if p.state.BodyIdentity? then
      0 < p.contentLength < NO_LENGTH && u.promise == Bytes(u.body + p.contentLength)
    else if p.state.BodyIdentityEof? then u.promise.UntilEof?
    else if p.state.MessageDone? then BodyComplete(u)
    else true
  }

  /** The reachable-state invariant of a parser that has reported no error. */
  predicate Inv(p: Parser, u: Audit) {
    && u.ok
    && p.errno.OK?
    && p.contentLength <= NO_LENGTH
    && (InFirstLine(p.state) && Continues(p.state) ==> u.last == OpenData(p.state))
    && (p.state.ReqMethod? ==> p.index <= |MethodString(p.verb)|)
    && HeaderInv(p, u)
    && BodyInv(p, u)
  }

  // Request and response lines: only url and status bytes are reported, flags stay put.

  predicate LineStep(p: Parser, o: Outcome) {
    && o.p.flags == p.flags && o.p.contentLength == p.contentLength
    && o.notes == [] && o.next.Advance?
    && (o.take.None? || o.take == Some(Url) || o.take == Some(Status))
    && (o.p.state.HeaderFieldStart? || InFirstLine(o.p.state))
    && (Continues(o.p.state) ==> o.take == OpenData(o.p.state))
    && (o.p.state.ReqMethod? ==> o.p.index <= |MethodString(o.p.verb)|)
  }

  lemma HeaderBlock(p: Parser, u: Audit)
    requires InHeaderLines(p.state)
    ensures Inv(p, u) <==> u.ok && p.errno.OK? && p.contentLength <= NO_LENGTH && LineInv(p, u) && FrameInv(p, u)
  {
    hide MethodString, LineInv, FrameInv;
  }

  /** What the invariant says about the line under way. */
  lemma LineIs(p: Parser, u: Audit)
    ensures p.state.HeaderFieldStart? ==> (LineInv(p, u) <==> u.last != Some(Field))
    ensures BeforeValue(p.state) ==> (LineInv(p, u) <==> NameRead(p, u))
    ensures InValue(p.state) ==> (LineInv(p, u) <==> ValueRead(p, u))
    ensures p.state.HeadersAlmostDone? ==> LineInv(p, u)
  {
    hide NameRead, ValueRead;
  }

  lemma LineKeeps(p: Parser, u: Audit, o: Outcome, ch: Byte)
    requires Inv(p, u) && o.p.errno.OK? && LineStep(p, o)
    requires InFirstLine(p.state)
    ensures Inv(o.p, Audited(u, o, ch))
  {
    hide MethodString;
  }

  lemma ResponseVersionShape(p: Parser, ch: Byte)
    requires PhaseOf(p.state).ResponseVersion? && ResponseVersionStep(p, ch).p.errno.OK?
    ensures LineStep(p, ResponseVersionStep(p, ch))
  {
    hide LineStep, ResponseVersionStep;
    if p.state.ResH? || p.state.ResHT? || p.state.ResHTT? || p.state.ResHTTP? {
      ResponseWordShape(p, ch);
    } else {
      ResponseNumberShape(p, ch);
    }
  }

  lemma ResponseWordShape(p: Parser, ch: Byte)
    requires p.state.ResH? || p.state.ResHT? || p.state.ResHTT? || p.state.ResHTTP?
    requires ResponseVersionStep(p, ch).p.errno.OK?
    ensures LineStep(p, ResponseVersionStep(p, ch))
  {
    hide MethodString, UpTo999, IsNum, DigitValue, PhaseOf, InFirstLine, Continues, OpenData;
    ResponseVersionQuiet();
  }

  lemma ResponseNumberShape(p: Parser, ch: Byte)
    requires PhaseOf(p.state).ResponseVersion? && ResponseVersionStep(p, ch).p.errno.OK?
    requires !p.state.ResH? && !p.state.ResHT? && !p.state.ResHTT? && !p.state.ResHTTP?
    ensures LineStep(p, ResponseVersionStep(p, ch))
  {
    hide MethodString, UpTo999, IsNum, DigitValue, InFirstLine, Continues, OpenData;
    ResponseVersionQuiet();
    if !p.state.ResFirstHttpMajor? && !p.state.ResHttpMajor? && !p.state.ResFirstHttpMinor? {
      assert p.state.ResHttpMinor?;
    }
    hide PhaseOf;
  }

  lemma ResponseStatusQuiet()
    ensures Quiet(ResFirstStatusCode) && Quiet(ResStatusCode) && Quiet(ResStatusStart) && Quiet(ResLineAlmostDone)
    ensures !Continues(HeaderFieldStart)
    ensures InFirstLine(ResStatus) && OpenData(ResStatus) == Some(Status)
  {
  }

  lemma ResponseStatusShape(p: Parser, ch: Byte)
    requires PhaseOf(p.state).ResponseStatus? && ResponseStatusStep(p, ch).p.errno.OK?
    ensures LineStep(p, ResponseStatusStep(p, ch))
  {
    hide MethodString, UpTo999, IsNum, DigitValue, InFirstLine, Continues, OpenData;
    ResponseStatusQuiet();
    if !p.state.ResFirstStatusCode? && !p.state.ResStatusCode? && !p.state.ResStatusStart? && !p.state.ResStatus? {
      assert p.state.ResLineAlmostDone?;
    }
    hide PhaseOf;
  }

  lemma UrlCharStates(s: State, ch: Byte)
    ensures ParseUrlChar(s, ch).Dead? || OpenData(ParseUrlChar(s, ch)) == Some(Url)
  {
  }

  lemma UrlByteShape(p: Parser, from: State, ch: Byte)
    ensures UrlByte(p, from, ch).p.errno.OK? ==> LineStep(p, UrlByte(p, from, ch))
  {
    hide ParseUrlChar, MethodString;
    UrlCharStates(from, ch);
  }

  lemma MethodStepShape(p: Parser, ch: Byte)
    requires p.state.ReqMethod? && p.index <= |MethodString(p.verb)| && MethodStep(p, ch).p.errno.OK?
    ensures LineStep(p, MethodStep(p, ch))
  {
    hide MethodString, SwitchMethod, InFirstLine, Continues, OpenData;
    MethodQuiet();
    if SwitchMethod(p.verb, p.index, ch).Some? {
      SwitchFits(p.verb, p.index, ch);
    }
  }

  /** A switch comes early in both names. */
  lemma SwitchFits(m: Method, k: nat, ch: Byte)
    requires SwitchMethod(m, k, ch).Some?
    ensures k < |MethodString(SwitchMethod(m, k, ch).value)|
  {
    SwitchIsEarly(m, k, ch);
    MethodNamesAreNotEmpty(SwitchMethod(m, k, ch).value);
    hide SwitchMethod;
  }

  lemma SwitchIsEarly(m: Method, k: nat, ch: Byte)
    requires SwitchMethod(m, k, ch).Some?
    ensures var v := SwitchMethod(m, k, ch).value;
      k < 3 || (k == 3 && (v.MKCALENDAR? || v.UNLINK?)) || (k == 4 && v.PROPPATCH?)
  {
  }

  lemma MethodQuiet()
    ensures InFirstLine(ReqMethod) && InFirstLine(ReqSpacesBeforeUrl)
    ensures !Continues(ReqMethod) && !Continues(ReqSpacesBeforeUrl)
  {
  }

  lemma RequestUrlShape(p: Parser, ch: Byte)
    requires PhaseOf(p.state).RequestUrl? && RequestUrlStep(p, ch).p.errno.OK?
    requires p.state.ReqMethod? ==> p.index <= |MethodString(p.verb)|
    ensures LineStep(p, RequestUrlStep(p, ch))
  {
    hide MethodString, UrlByte, MethodStep;
    if p.state.ReqMethod? {
      MethodStepShape(p, ch);
    } else if p.state.ReqSpacesBeforeUrl? {
      UrlByteShape(p, if p.verb.CONNECT? then ReqServerStart else ReqSpacesBeforeUrl, ch);
    } else {
      UrlByteShape(p, p.state, ch);
    }
  }

  lemma RequestVersionShape(p: Parser, ch: Byte)
    requires PhaseOf(p.state).RequestVersion? && RequestVersionStep(p, ch).p.errno.OK?
    ensures LineStep(p, RequestVersionStep(p, ch))
  {
    hide LineStep, RequestVersionStep;
    if p.state.ReqFirstHttpMajor? || p.state.ReqHttpMajor? || p.state.ReqFirstHttpMinor? || p.state.ReqHttpMinor? {
      RequestNumberShape(p, ch);
    } else {
      RequestWordShape(p, ch);
    }
  }

  /** Version states: inside the first line, with no callback under way. */
  predicate Quiet(s: State) { InFirstLine(s) && !Continues(s) && !s.ReqMethod? }

  lemma RequestWordQuiet(s: State)
    requires s.ReqHttpStart? || s.ReqHttpH? || s.ReqHttpHT? || s.ReqHttpHTT? || s.ReqHttpHTTP? || s.ReqFirstHttpMajor?
    ensures Quiet(s)
  {
  }

  lemma RequestNumberQuiet()
    ensures Quiet(ReqHttpMajor) && Quiet(ReqFirstHttpMinor) && Quiet(ReqHttpMinor) && Quiet(ReqLineAlmostDone)
    ensures !Continues(HeaderFieldStart)
  {
  }

  lemma ResponseVersionQuiet()
    ensures Quiet(ResHT) && Quiet(ResHTT) && Quiet(ResHTTP) && Quiet(ResFirstHttpMajor)
    ensures Quiet(ResHttpMajor) && Quiet(ResFirstHttpMinor) && Quiet(ResHttpMinor) && Quiet(ResFirstStatusCode)
  {
  }

  lemma RequestNumberShape(p: Parser, ch: Byte)
    requires p.state.ReqFirstHttpMajor? || p.state.ReqHttpMajor? || p.state.ReqFirstHttpMinor? || p.state.ReqHttpMinor?
    requires RequestVersionStep(p, ch).p.errno.OK?
    ensures LineStep(p, RequestVersionStep(p, ch))
  {
    hide MethodString, UpTo999, IsNum, DigitValue, PhaseOf, InFirstLine, Continues, OpenData;
    RequestNumberQuiet();
  }

  lemma RequestWordShape(p: Parser, ch: Byte)
    requires PhaseOf(p.state).RequestVersion? && RequestVersionStep(p, ch).p.errno.OK?
    requires !p.state.ReqFirstHttpMajor? && !p.state.ReqHttpMajor? && !p.state.ReqFirstHttpMinor? &&
        !p.state.ReqHttpMinor?
    ensures LineStep(p, RequestVersionStep(p, ch))
  {
    hide MethodString, UpTo999, IsNum, DigitValue, InFirstLine, Continues, OpenData;
    if p.state.ReqLineAlmostDone? {
      RequestNumberQuiet();
    } else {
      RequestWordQuiet(RequestVersionStep(p, ch).p.state);
    }
    hide PhaseOf;
  }

  lemma StartingKeeps(p: Parser, u: Audit, o: Outcome, ch: Byte)
    requires Inv(p, u) && PhaseOf(p.state).Starting? && o == StartStep(p, ch) && o.p.errno.OK?
    ensures Inv(o.p, Audited(u, o, ch))
  {
    hide Inv, StartStep, Audited;
    if p.state.Dead? || p.state.StartReqOrRes? || p.state.StartReq? {
      StartRequestKeeps(p, u, o, ch);
    } else {
      StartResponseKeeps(p, u, o, ch);
    }
  }

  lemma StartRequestKeeps(p: Parser, u: Audit, o: Outcome, ch: Byte)
    requires Inv(p, u) && (p.state.Dead? || p.state.StartReqOrRes? || p.state.StartReq?) && o == StartStep(p, ch) &&
        o.p.errno.OK?
    ensures Inv(o.p, Audited(u, o, ch))
  {
    hide MethodString, FirstMethod;
    MethodNamesAreNotEmpty(o.p.verb);
    AuditOne(u, OnMessageBegin);
  }

  lemma StartResponseKeeps(p: Parser, u: Audit, o: Outcome, ch: Byte)
    requires Inv(p, u) && (p.state.ResOrRespH? || p.state.StartRes?) && o == StartStep(p, ch) && o.p.errno.OK?
    ensures Inv(o.p, Audited(u, o, ch))
  {
    hide MethodString, FirstMethod;
    MethodNamesAreNotEmpty(o.p.verb);
    AuditOne(u, OnMessageBegin);
  }

  lemma MethodNamesAreNotEmpty(m: Method)
    ensures |MethodString(m)| >= 3
    ensures m.HEAD? ==> |MethodString(m)| == 4
  {
  }

  // Header lines.

  lemma LowerAllAppend(s: seq<Byte>, c: Byte)
    ensures LowerAll(s + [c]) == LowerAll(s) + [Lower(c)]
    ensures |LowerAll(s)| == |s|
  {
    hide Lower;
    assert (s + [c])[..|s|] == s;
    LowerAllLength(s);
  }

  lemma {:induction false} LowerAllLength(s: seq<Byte>)
    ensures |LowerAll(s)| == |s|
  {
    if s != [] {
      LowerAllLength(s[..|s| - 1]);
    }
  }

  lemma FirstLetters()
    ensures CONNECTION[0] == 'c' && PROXY_CONNECTION[0] == 'p' && CONTENT_LENGTH[0] == 'c'
    ensures TRANSFER_ENCODING[0] == 't' && UPGRADE[0] == 'u'
  {
  }

  lemma FirstNameStateRecognizes(c: Byte)
    requires Token(c) != NUL
    ensures FirstNameState(Token(c)) == Recognize(LowerAll([c]))
    ensures Partial(FirstNameState(Token(c))) || FirstNameState(Token(c)).General?
  {
    hide Token, Lower, CONNECTION, PROXY_CONNECTION, CONTENT_LENGTH, TRANSFER_ENCODING, UPGRADE;
    LowerAllAppend([], c);
    assert [] + [c] == [c] && LowerAll([]) + [Lower(c)] == [] + [Lower(c)] == [Lower(c)];
    WordsStep([], c);
    WordFacts();
    TokenLower(c, 'c');
    Apart([Lower(c)]);
    Apart([Token(c)]);
    FirstLetters();
  }

  lemma HeaderFieldStartKeeps(p: Parser, u: Audit, o: Outcome, ch: Byte)
    requires Inv(p, u) && p.state.HeaderFieldStart? && o == HeaderFieldStartStep(p, ch) && o.p.errno.OK?
    ensures Inv(o.p, Audited(u, o, ch))
  {
    hide Inv, FirstNameState, Recognize, Token, Lower, MethodString, LowerAll, BodyComplete, Decimal, CONTENT_LENGTH;
    HeaderBlock(p, u);
    HeaderBlock(o.p, Audited(u, o, ch));
    if Token(ch) != NUL {
      FirstNameStateRecognizes(ch);
    }
  }

  lemma HeaderFieldKeeps(p: Parser, u: Audit, o: Outcome, ch: Byte)
    requires Inv(p, u) && p.state.HeaderField? && o == HeaderFieldStep(p, ch) && o.p.errno.OK?
    ensures Inv(o.p, Audited(u, o, ch))
  {
    hide Inv, NameStep, Recognize, Token, Lower, MethodString, LowerAll;
    HeaderBlock(p, u);
    HeaderBlock(o.p, Audited(u, o, ch));
    LowerAllAppend(u.name, ch);
    if Token(ch) != NUL {
      NameStepRecognizes(LowerAll(u.name), p.index, ch);
    }
  }

  lemma DecimalAppend(s: seq<Byte>, c: Byte)
    ensures Decimal([]) == 0
    ensures Decimal(s + [c]) == if IsNum(c) then Decimal(s) * 10 + DigitValue(c) else Decimal(s)
  {
    assert (s + [c])[..|s|] == s;
  }

  lemma RecognizeContentLength(l: seq<Byte>)
    ensures Recognize(l).ContentLength? <==> l == CONTENT_LENGTH
    ensures FieldHeader(Recognize(l))
  {
    hide CONNECTION, PROXY_CONNECTION, CONTENT_LENGTH, TRANSFER_ENCODING, UPGRADE;
    ContentLengthIsAWord();
  }

  lemma ContentLengthIsAWord()
    ensures CONTENT_LENGTH != CONNECTION && CONTENT_LENGTH != PROXY_CONNECTION
  {
  }

  /** The guard on the 64-bit accumulator rejects before it can wrap or reach the sentinel. */
  lemma AccumulatorExact(x: nat, base: nat, digit: nat)
    requires (base == 10 || base == 16) && digit < base
    requires !AccumulatorFull(x, base)
    ensures Accumulate(x, base, digit) == x * base + digit < NO_LENGTH
  {
  }

  /** What a header-value byte may change: the matcher, the connection flags, the length. */
  predicate ValueStep(p: Parser, o: Outcome, ch: Byte, digits: bool) {
    && o.take == Some(Value) && o.notes == [] && o.next.Advance? && o.p.state.HeaderValue?
    && o.p.flags.trailing == p.flags.trailing && o.p.flags.chunked == p.flags.chunked
    && ValueHeader(o.p.header) && (o.p.header.ContentLength? <==> p.header.ContentLength?)
    && (p.header.ContentLength? && digits ==>
          o.p.flags.contentLength == p.flags.contentLength &&
          o.p.contentLength ==
            (if IsNum(ch) then p.contentLength * 10 + DigitValue(ch) else p.contentLength) &&
          (IsNum(ch) ==> o.p.contentLength < NO_LENGTH))
    && (p.header.ContentLength? && !digits ==>
          !p.flags.contentLength && o.p.flags.contentLength && IsNum(ch) && o.p.contentLength == DigitValue(ch))
    && (!p.header.ContentLength? ==>
          o.p.flags.contentLength == p.flags.contentLength && o.p.contentLength == p.contentLength)
  }

  lemma ValueStartShape(p: Parser, ch: Byte)
    requires FieldHeader(p.header) || ValueHeader(p.header)
    requires ValueStartStep(p, ch).p.errno.OK?
    ensures ValueStep(p, ValueStartStep(p, ch), ch, false)
  {
    hide Lower;
  }

  lemma MatchResult(w: seq<Byte>, i: nat, c: Byte, miss: HeaderState, more: HeaderState, done: HeaderState)
    ensures Match(w, i, c, miss, more, done) in {miss, more, done}
  {
  }

  lemma TokenStepShape(h: HeaderState, i: nat, ch: Byte)
    ensures ValueHeader(TokenStep(h, i, ch).0) && !TokenStep(h, i, ch).0.ContentLength?
  {
    hide Lower, Token, CHUNKED, KEEP_ALIVE, CLOSE, UPGRADE, Match;
    if h.MatchingTransferEncodingChunked? {
      MatchResult(CHUNKED, i, Lower(ch), General, h, TransferEncodingChunked);
    } else if h.MatchingConnectionKeepAlive? {
      MatchResult(KEEP_ALIVE, i, Lower(ch), MatchingConnectionToken, h, ConnectionKeepAlive);
    } else if h.MatchingConnectionClose? {
      MatchResult(CLOSE, i, Lower(ch), MatchingConnectionToken, h, ConnectionClose);
    } else if h.MatchingConnectionUpgrade? {
      MatchResult(UPGRADE, i, Lower(ch), MatchingConnectionToken, h, ConnectionUpgrade);
    }
  }

  lemma TokenByteShape(p: Parser, ch: Byte)
    requires p.state.HeaderValue? && !p.header.ContentLength?
    ensures ValueStep(p, TokenByte(p, ch), ch, true)
  {
    hide TokenStep;
    TokenStepShape(p.header, p.index, ch);
  }

  lemma ValueByteShape(p: Parser, ch: Byte)
    requires p.state.HeaderValue? && ValueHeader(p.header) && ValueByte(p, ch).p.errno.OK?
    ensures ValueStep(p, ValueByte(p, ch), ch, true)
  {
    hide TokenByte;
    if !p.header.ContentLength? {
      TokenByteShape(p, ch);
    }
  }

  lemma ValueStartKeeps(p: Parser, u: Audit, o: Outcome, ch: Byte)
    requires Inv(p, u) && (p.state.HeaderValueDiscardWs? || p.state.HeaderValueStart?)
    requires ValueStep(p, o, ch, false) && o.p.errno.OK?
    ensures Inv(o.p, Audited(u, o, ch))
  {
    hide Inv, Recognize, MethodString, LowerAll, CONTENT_LENGTH, Decimal, BodyComplete, LineInv;
    HeaderBlock(p, u);
    HeaderBlock(o.p, Audited(u, o, ch));
    LineIs(p, u);
    LineIs(o.p, Audited(u, o, ch));
    RecognizeContentLength(LowerAll(u.name));
    DecimalAppend([], ch);
    assert [] + [ch] == [ch];
  }

  lemma ValueByteKeeps(p: Parser, u: Audit, o: Outcome, ch: Byte)
    requires Inv(p, u) && p.state.HeaderValue?
    requires ValueStep(p, o, ch, true) && o.p.errno.OK?
    ensures Inv(o.p, Audited(u, o, ch))
  {
    hide Inv, Recognize, MethodString, LowerAll, CONTENT_LENGTH, Decimal, BodyComplete;
    HeaderBlock(p, u);
    HeaderBlock(o.p, Audited(u, o, ch));
    DecimalAppend(u.value, ch);
  }

  lemma DiscardLwsKeeps(p: Parser, u: Audit, o: Outcome, ch: Byte)
    requires Inv(p, u) && p.state.HeaderValueDiscardLws? && o == DiscardLwsStep(p, ch)
    ensures Inv(o.p, Audited(u, o, ch))
  {
    hide Inv, MethodString, Recognize, LowerAll, CONTENT_LENGTH, Decimal, BodyComplete, SetFlag, FieldHeader,
        ValueHeader, LineInv;
    HeaderBlock(p, u);
    HeaderBlock(o.p, Audited(u, o, ch));
    LineIs(p, u);
    LineIs(o.p, Audited(u, o, ch));
    RecognizeContentLength(LowerAll(u.name));
    FieldHeaderSetsNoFlag(p.flags, p.header);
    assert AuditAll(u, [Data(Value, [])]) == AuditStep(u, Data(Value, []));
  }

  lemma FieldHeaderSetsNoFlag(f: Flags, h: HeaderState)
    ensures FieldHeader(h) ==> SetFlag(f, h) == f
  {
  }

  lemma SetFlagKeeps(f: Flags, h: HeaderState)
    ensures SetFlag(f, h).trailing == f.trailing && SetFlag(f, h).contentLength == f.contentLength
    ensures f.chunked ==> SetFlag(f, h).chunked
  {
  }

  lemma ValueLwsKeeps(p: Parser, u: Audit, o: Outcome, ch: Byte)
    requires Inv(p, u) && p.state.HeaderValueLws? && o == ValueLwsStep(p, ch)
    ensures Inv(o.p, Audited(u, o, ch))
  {
    hide Inv, MethodString, Recognize, LowerAll, CONTENT_LENGTH, Decimal, BodyComplete, SetFlag, LineInv;
    HeaderBlock(p, u);
    HeaderBlock(o.p, Audited(u, o, ch));
    LineIs(p, u);
    LineIs(o.p, Audited(u, o, ch));
    SetFlagKeeps(p.flags, p.header);
  }

  lemma SpaceSkipKeeps(p: Parser, u: Audit, s: State)
    requires Inv(p, u) && PhaseOf(p.state).HeaderSpace?
    requires
      (p.state.HeaderValueDiscardWs? && (s.HeaderValueDiscardWs? || s.HeaderValueDiscardWsAlmostDone? ||
          s.HeaderValueDiscardLws?)) ||
      (p.state.HeaderValueDiscardWsAlmostDone? && s.HeaderValueDiscardLws?) ||
      (p.state.HeaderAlmostDone? && s.HeaderValueLws?)
    ensures Inv(p.(state := s), u)
  {
    hide MethodString, Recognize, LowerAll, CONTENT_LENGTH, Decimal, BodyComplete;
    HeaderBlock(p, u);
    HeaderBlock(p.(state := s), u);
    hide Inv, TrailerInv, LengthInv, ValueHeader;
  }

  lemma HeaderSpaceKeeps(p: Parser, u: Audit, o: Outcome, ch: Byte)
    requires Inv(p, u) && PhaseOf(p.state).HeaderSpace? && o == HeaderSpaceStep(p, ch) && o.p.errno.OK?
    ensures Inv(o.p, Audited(u, o, ch))
  {
    hide Inv, ValueStartStep, DiscardLwsStep, ValueLwsStep;
    if p.state.HeaderValueDiscardLws? {
      DiscardLwsKeeps(p, u, DiscardLwsStep(p, ch), ch);
    } else if p.state.HeaderValueLws? {
      ValueLwsKeeps(p, u, ValueLwsStep(p, ch), ch);
    } else if p.state.HeaderValueStart? || (p.state.HeaderValueDiscardWs? && ch !in " \t\r\n") {
      FieldOrValueHeader(p, u);
      ValueStartShape(p, ch);
      ValueStartKeeps(p, u, ValueStartStep(p, ch), ch);
    } else {
      SpaceSkipKeeps(p, u, HeaderSpaceStep(p, ch).p.state);
      assert HeaderSpaceStep(p, ch).p == p.(state := HeaderSpaceStep(p, ch).p.state);
    }
  }

  lemma FieldOrValueHeader(p: Parser, u: Audit)
    requires Inv(p, u) && (p.state.HeaderValueDiscardWs? || p.state.HeaderValueStart?)
    ensures FieldHeader(p.header) || ValueHeader(p.header)
  {
    hide MethodString, Recognize;
    RecognizeContentLength(LowerAll(u.name));
  }

  // The end of the headers and the body. In these states only the body matters.

  predicate AfterHead(s: State) {
    PhaseOf(s).InBody? || PhaseOf(s).InChunks? || s.HeadersDone? || s.Dead? || s.StartReq? || s.StartRes?
  }

  lemma AfterHeadInv(p: Parser, u: Audit)
    requires AfterHead(p.state)
    ensures Inv(p, u) <==> u.ok && p.errno.OK? && p.contentLength <= NO_LENGTH && BodyInv(p, u)
  {
    hide MethodString, BodyInv;
  }

  /** What the invariant says inside a chunk and behind it. */
  lemma ChunkIs(p: Parser, u: Audit)
    ensures p.state.ChunkSizeStart? ==> (BodyInv(p, u) <==> ChunksDelivered(p, u))
    ensures p.state.ChunkSize? || p.state.ChunkParameters? || p.state.ChunkSizeAlmostDone? ==>
      (BodyInv(p, u) <==> ChunksDelivered(p, u) && p.contentLength < NO_LENGTH)
    ensures p.state.ChunkData? ==> (BodyInv(p, u) <==> ChunkUnderWay(p, u))
    ensures p.state.ChunkDataAlmostDone? ==> (BodyInv(p, u) <==> ChunkEnded(p, u) && p.contentLength == 0)
    ensures p.state.ChunkDataDone? ==> (BodyInv(p, u) <==> ChunkEnded(p, u))
  {
    hide LeavesHttp, MessageNeedsEof, PromiseOf, BodyComplete;
  }

  /** The end of the stream completes a body that runs to it. */
  lemma EofCompletes(p: Parser, u: Audit)
    requires Inv(p, u) && p.state.BodyIdentityEof?
    ensures Inv(p, AuditStep(u, OnMessageComplete)) && AuditStep(u, OnMessageComplete).ok
  {
    hide Inv;
    AfterHeadInv(p, u);
    AfterHeadInv(p, AuditStep(u, OnMessageComplete));
  }

  lemma TrailersEnd(p: Parser, u: Audit)
    requires Inv(p, u) && p.state.HeadersAlmostDone? && p.flags.trailing
    ensures Inv(p.(state := MessageDone), AuditStep(u, OnChunkComplete))
  {
    hide Inv;
    HeaderBlock(p, u);
    AfterHeadInv(p.(state := MessageDone), AuditStep(u, OnChunkComplete));
  }

  lemma HeadersEndKeeps(p: Parser, u: Audit, a: Answer)
    requires Inv(p, u) && p.state.HeadersAlmostDone? && !p.flags.trailing
    ensures var q := WithAnswer(p, a); Inv(q.(state := HeadersDone), AuditStep(u, HeadersComplete(q)))
  {
    hide Inv, PromiseOf, Announced;
    HeaderBlock(p, u);
    AfterHeadInv(WithAnswer(p, a).(state := HeadersDone), AuditStep(u, HeadersComplete(WithAnswer(p, a))));
  }

  lemma HeadersAlmostDoneKeeps(p: Parser, u: Audit, o: Outcome, ch: Byte, a: Answer)
    requires Inv(p, u) && p.state.HeadersAlmostDone? && o == HeadersAlmostDoneStep(p, ch, a) && o.p.errno.OK?
    ensures Inv(o.p, Audited(u, o, ch))
  {
    hide Inv, HeadersComplete, WithAnswer, AuditStep;
    if p.flags.trailing {
      TrailersEnd(p, u);
      assert AuditAll(u, [OnChunkComplete]) == AuditStep(u, OnChunkComplete);
    } else {
      HeadersEndKeeps(p, u, a);
      var e := HeadersComplete(WithAnswer(p, a));
      assert AuditAll(u, [e]) == AuditStep(u, e);
    }
  }

  lemma HeadersDoneKeeps(p: Parser, u: Audit, o: Outcome, ch: Byte)
    requires Inv(p, u) && p.state.HeadersDone? && o == HeadersDoneStep(p, ch) && o.p.errno.OK?
    ensures Inv(o.p, Audited(u, o, ch))
  {
    hide Inv, ShouldKeepAlive;
    assert AuditAll(u, [OnMessageComplete]) == AuditStep(u, OnMessageComplete);
    AfterHeadInv(p, u);
    AfterHeadInv(o.p, Audited(u, o, ch));
  }

  lemma BodyKeeps(p: Parser, u: Audit, o: Outcome, ch: Byte)
    requires Inv(p, u) && PhaseOf(p.state).InBody? && o == BodyStep(p, ch)
    ensures Inv(o.p, Audited(u, o, ch))
  {
    hide Inv, ShouldKeepAlive;
    assert AuditAll(u, [OnMessageComplete]) == AuditStep(u, OnMessageComplete);
    AfterHeadInv(p, u);
    AfterHeadInv(o.p, Audited(u, o, ch));
  }

  lemma ChunkSizeShape(p: Parser, o: Outcome, ch: Byte)
    requires p.state.ChunkSizeStart? || p.state.ChunkSize? || p.state.ChunkParameters?
    requires o == ChunkStep(p, ch) && o.p.errno.OK? && p.contentLength <= NO_LENGTH
    requires !p.state.ChunkSizeStart? ==> p.contentLength < NO_LENGTH
    ensures o.take.None? && o.notes == [] && o.p == p.(state := o.p.state, contentLength := o.p.contentLength)
    ensures o.p.state.ChunkSize? || o.p.state.ChunkParameters? || o.p.state.ChunkSizeAlmostDone?
    ensures o.p.contentLength < NO_LENGTH
  {
  }

  lemma ChunkSizeKeeps(p: Parser, u: Audit, o: Outcome, ch: Byte)
    requires Inv(p, u) && (p.state.ChunkSizeStart? || p.state.ChunkSize? || p.state.ChunkParameters?)
    requires o == ChunkStep(p, ch) && o.p.errno.OK?
    ensures Inv(o.p, Audited(u, o, ch))
  {
    hide Inv, ChunkStep;
    AfterHeadInv(p, u);
    ChunkSizeShape(p, o, ch);
    AfterHeadInv(o.p, u);
  }

  lemma ChunkStartKeeps(p: Parser, u: Audit, o: Outcome, ch: Byte)
    requires Inv(p, u) && p.state.ChunkSizeAlmostDone? && o == ChunkStep(p, ch) && o.p.errno.OK?
    ensures Inv(o.p, Audited(u, o, ch))
  {
    hide Inv, BodyComplete, Announced, AuditStep, BodyInv;
    AuditOne(u, OnChunkHeader(p.contentLength));
    ChunkHeaderStep(u, p.contentLength);
    AfterHeadInv(p, u);
    ChunkIs(p, u);
    ChunkIs(o.p, Audited(u, o, ch));
    if p.contentLength == 0 {
      TrailerStarts(o.p, Audited(u, o, ch));
    } else {
      AfterHeadInv(o.p, Audited(u, o, ch));
    }
  }

  lemma ChunkDataKeeps(p: Parser, u: Audit, o: Outcome, ch: Byte)
    requires Inv(p, u) && (p.state.ChunkData? || p.state.ChunkDataAlmostDone? || p.state.ChunkDataDone?)
    requires o == ChunkStep(p, ch) && o.p.errno.OK?
    ensures Inv(o.p, Audited(u, o, ch))
  {
    hide Inv, ChunkStep, Audited;
    if p.state.ChunkData? {
      ChunkByteKeeps(p, u, o, ch);
    } else {
      ChunkEndKeeps(p, u, o, ch);
    }
  }

  lemma ChunkByteKeeps(p: Parser, u: Audit, o: Outcome, ch: Byte)
    requires Inv(p, u) && p.state.ChunkData? && o == ChunkStep(p, ch) && o.p.errno.OK?
    ensures Inv(o.p, Audited(u, o, ch))
  {
    hide Inv, BodyComplete, Announced, BodyInv;
    AfterHeadInv(p, u);
    AfterHeadInv(o.p, Audited(u, o, ch));
    ChunkIs(p, u);
    ChunkIs(o.p, Audited(u, o, ch));
  }

  lemma ChunkEndKeeps(p: Parser, u: Audit, o: Outcome, ch: Byte)
    requires Inv(p, u) && (p.state.ChunkDataAlmostDone? || p.state.ChunkDataDone?) && o == ChunkStep(p, ch) &&
        o.p.errno.OK?
    ensures Inv(o.p, Audited(u, o, ch))
  {
    hide Inv, BodyComplete, Announced, AuditStep, BodyInv;
    AuditOne(u, OnChunkComplete);
    AfterHeadInv(p, u);
    AfterHeadInv(o.p, Audited(u, o, ch));
    ChunkIs(p, u);
    ChunkIs(o.p, Audited(u, o, ch));
    ChunkCompleteStep(u);
  }

  lemma AuditOne(u: Audit, e: Event)
    ensures AuditAll(u, [e]) == AuditStep(u, e)
  {
    hide AuditStep;
    assert [e][1..] == [];
  }

  lemma ChunkHeaderStep(u: Audit, n: nat)
    ensures AuditStep(u, OnChunkHeader(n)) ==
      u.(last := None, chunkTotal := u.chunkTotal + n, chunkSize := n, chunkBody := 0)
  {
  }

  lemma ChunkCompleteStep(u: Audit)
    ensures AuditStep(u, OnChunkComplete) == u.(last := None, ok := u.ok && u.chunkBody == u.chunkSize)
  {
  }

  lemma ChunkKeeps(p: Parser, u: Audit, o: Outcome, ch: Byte)
    requires Inv(p, u) && PhaseOf(p.state).InChunks? && o == ChunkStep(p, ch) && o.p.errno.OK?
    ensures Inv(o.p, Audited(u, o, ch))
  {
    hide Inv, ChunkStep;
    if p.state.ChunkSizeAlmostDone? {
      ChunkStartKeeps(p, u, ChunkStep(p, ch), ch);
    } else if p.state.ChunkSizeStart? || p.state.ChunkSize? || p.state.ChunkParameters? {
      ChunkSizeKeeps(p, u, ChunkStep(p, ch), ch);
    } else {
      ChunkDataKeeps(p, u, ChunkStep(p, ch), ch);
    }
  }

  lemma TrailerStarts(p: Parser, u: Audit)
    requires u.ok && p.errno.OK? && p.contentLength <= NO_LENGTH && u.last.None?
    requires p.state.HeaderFieldStart? && p.flags.trailing && p.flags.chunked && u.promise.Chunks?
    requires u.body == u.chunkTotal && u.chunkBody == u.chunkSize
    ensures Inv(p, u)
  {
  }

  /** Every step that reports no error keeps the invariant. */
  lemma MicroKeeps(p: Parser, u: Audit, ch: Byte, a: Settings)
    requires Inv(p, u) && Micro(p, ch, a).p.errno.OK?
    ensures Inv(Micro(p, ch, a).p, Audited(u, Micro(p, ch, a), ch))
  {
    hide Audited, StartStep, ResponseVersionStep, ResponseStatusStep, RequestUrlStep, RequestVersionStep,
         HeaderFieldStartStep, HeaderFieldStep, ValueByte, HeaderSpaceStep, HeadersAlmostDoneStep,
         HeadersDoneStep, BodyStep, ChunkStep, LineStep, Inv, MethodString;
    InvBasics(p, u);
    match PhaseOf(p.state)
    case Starting => StartingKeeps(p, u, StartStep(p, ch), ch);
    case ResponseVersion => ResponseVersionShape(p, ch); LineKeeps(p, u, ResponseVersionStep(p, ch), ch);
    case ResponseStatus => ResponseStatusShape(p, ch); LineKeeps(p, u, ResponseStatusStep(p, ch), ch);
    case RequestUrl => RequestUrlShape(p, ch); LineKeeps(p, u, RequestUrlStep(p, ch), ch);
    case RequestVersion => RequestVersionShape(p, ch); LineKeeps(p, u, RequestVersionStep(p, ch), ch);
    case HeaderLine =>
      if p.state.HeaderFieldStart? { HeaderFieldStartKeeps(p, u, HeaderFieldStartStep(p, ch), ch); }
      else if p.state.HeaderField? { HeaderFieldKeeps(p, u, HeaderFieldStep(p, ch), ch); }
      else { HeaderValueKeeps(p, u, HeaderValueStep(p, ch, a.lenient), ch, a.lenient); }
    case HeaderSpace => HeaderSpaceKeeps(p, u, HeaderSpaceStep(p, ch), ch);
    case HeadersEnd =>
      if p.state.HeadersAlmostDone? {
        HeadersAlmostDoneKeeps(p, u, HeadersAlmostDoneStep(p, ch, a.answer), ch, a.answer);
      }
      else { HeadersDoneKeeps(p, u, HeadersDoneStep(p, ch), ch); }
    case InBody => BodyKeeps(p, u, BodyStep(p, ch), ch);
    case InChunks => ChunkKeeps(p, u, ChunkStep(p, ch), ch);
  }

  lemma InvBasics(p: Parser, u: Audit)
    requires Inv(p, u)
    ensures p.state.ReqMethod? ==> p.index <= |MethodString(p.verb)|
    ensures p.state.HeaderValue? ==> ValueHeader(p.header)
  {
  }

  lemma HeaderValueKeeps(p: Parser, u: Audit, o: Outcome, ch: Byte, lenient: bool)
    requires Inv(p, u) && p.state.HeaderValue? && o == HeaderValueStep(p, ch, lenient) && o.p.errno.OK?
    ensures Inv(o.p, Audited(u, o, ch))
  {
    hide Inv, MethodString, LowerAll, CONTENT_LENGTH, Decimal, BodyComplete, ValueByte, LineInv;
    HeaderBlock(p, u);
    LineIs(p, u);
    if ch != CR && ch != LF {
      ValueByteShape(p, ch);
      ValueByteKeeps(p, u, ValueByte(p, ch), ch);
    } else {
      HeaderBlock(o.p, Audited(u, o, ch));
      LineIs(o.p, Audited(u, o, ch));
    }
  }

  /** A run that reports no error ends in a state that satisfies the invariant. */
  lemma {:induction false} RestKeeps(p: Parser, t: seq<Event>, data: seq<Byte>, i: nat, a: Settings)
    requires i <= |data| && Inv(p, AuditOf(t))
    ensures var f := Rest(p, t, data, i, a); f.p.errno.OK? ==> Inv(f.p, AuditOf(f.trace))
    decreases |data| - i, Rank(p.state)
  {
    hide Micro, Inv, Audited;
    if i < |data| && p.errno.OK? {
      var o := Micro(p, data[i], a);
      if o.p.errno.OK? {
        var t' := Traced(t, o, data[i]);
        MicroKeeps(p, AuditOf(t), data[i], a);
        AuditTraced(t, o, data[i]);
        if o.next.Advance? {
          RestKeeps(o.p, t', data, i + 1, a);
        } else if o.next.Again? {
          RestKeeps(o.p, t', data, i, a);
        }
      }
    }
  }
}
