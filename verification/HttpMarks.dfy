/** Which steps start, continue and end a piece of data. */
module HttpMarks {
  import opened HttpChars
  import opened HttpMachine
  import opened HttpInvariant
  import opened Options

  /** States whose cases read many bytes at a time. */
  predicate ReadInBulk(s: State) {
    s.HeaderField? || s.HeaderValue? || s.BodyIdentity? || s.BodyIdentityEof? || s.ChunkData?
  }

  /** A step that takes a byte as data stays in that data; any other step leaves all data. */
  predicate MarkRules(s: State, o: Outcome) {
    && (o.take.Some? ==> o.notes == [] && o.next.Advance? && OpenData(o.p.state) == o.take &&
                         (OpenData(s).None? || OpenData(s) == o.take))
    && (o.take.None? ==> !Continues(o.p.state))
    && (o.next.Again? ==> !ReadInBulk(o.p.state))
    && (o.next.Stop? ==> o.p.upgrade)
    && (o.p.state.ChunkSizeStart? ==> s.HeadersDone? || s.ChunkDataDone?)
  }

  /** Only the byte counter reports header overflow, never a step. */
  predicate MarkStep(s: State, o: Outcome) {
    !o.p.errno.HeaderOverflow? && (o.p.errno.OK? ==> MarkRules(s, o))
  }

  lemma StartMarks(p: Parser, ch: Byte)
    requires p.errno.OK? && PhaseOf(p.state).Starting?
    ensures MarkStep(p.state, StartStep(p, ch))
  {
  }

  lemma ResponseVersionMarks(p: Parser, ch: Byte)
    requires p.errno.OK? && PhaseOf(p.state).ResponseVersion?
    ensures MarkStep(p.state, ResponseVersionStep(p, ch))
  {
    hide UpTo999, IsNum, DigitValue;
  }

  lemma ResponseStatusMarks(p: Parser, ch: Byte)
    requires p.errno.OK? && PhaseOf(p.state).ResponseStatus?
    ensures MarkStep(p.state, ResponseStatusStep(p, ch))
  {
    hide UpTo999, IsNum, DigitValue;
  }

  lemma UrlByteMarks(p: Parser, from: State, ch: Byte)
    requires p.errno.OK?
    requires OpenData(p.state).None? || OpenData(p.state) == Some(Url)
    ensures MarkStep(p.state, UrlByte(p, from, ch))
  {
    hide ParseUrlChar;
    UrlCharStates(from, ch);
  }

  lemma RequestUrlMarks(p: Parser, ch: Byte)
    requires PhaseOf(p.state).RequestUrl? && p.errno.OK?
    ensures MarkStep(p.state, RequestUrlStep(p, ch))
  {
    hide UrlByte, MethodString, SwitchMethod;
    var from := if p.state.ReqSpacesBeforeUrl? && p.verb.CONNECT? then ReqServerStart else p.state;
    if RequestUrlStep(p, ch) == UrlByte(p, from, ch) && !p.state.ReqMethod? {
      UrlByteMarks(p, from, ch);
    }
  }

  lemma RequestVersionMarks(p: Parser, ch: Byte)
    requires p.errno.OK? && PhaseOf(p.state).RequestVersion?
    ensures MarkStep(p.state, RequestVersionStep(p, ch))
  {
    hide UpTo999, IsNum, DigitValue;
  }

  lemma HeaderFieldStartMarks(p: Parser, ch: Byte)
    requires p.errno.OK? && p.state.HeaderFieldStart?
    ensures MarkStep(p.state, HeaderFieldStartStep(p, ch))
  {
    hide Token, FirstNameState;
  }

  lemma ValueStartMarks(p: Parser, ch: Byte)
    requires p.errno.OK? && OpenData(p.state).None?
    ensures MarkStep(p.state, ValueStartStep(p, ch))
  {
    hide Lower, IsNum;
  }

  lemma HeaderSpaceMarks(p: Parser, ch: Byte)
    requires p.errno.OK? && PhaseOf(p.state).HeaderSpace?
    ensures MarkStep(p.state, HeaderSpaceStep(p, ch))
  {
    hide SetFlag, ValueStartStep;
    if p.state.HeaderValueStart? || (p.state.HeaderValueDiscardWs? && ch !in " \t\r\n") {
      ValueStartMarks(p, ch);
    }
  }

  lemma HeadersEndMarks(p: Parser, ch: Byte, a: Answer)
    requires p.errno.OK? && PhaseOf(p.state).HeadersEnd?
    ensures p.state.HeadersAlmostDone? ==> MarkStep(p.state, HeadersAlmostDoneStep(p, ch, a))
    ensures p.state.HeadersDone? ==> MarkStep(p.state, HeadersDoneStep(p, ch))
  {
    hide HeadersComplete, ShouldKeepAlive, MessageNeedsEof, HasBody;
  }

  lemma MessageDoneMarks(p: Parser, ch: Byte)
    requires p.errno.OK? && p.state.MessageDone?
    ensures MarkStep(p.state, BodyStep(p, ch))
  {
    hide ShouldKeepAlive;
  }

  lemma ChunkMarks(p: Parser, ch: Byte)
    requires p.errno.OK? && PhaseOf(p.state).InChunks? && !p.state.ChunkData?
    ensures MarkStep(p.state, ChunkStep(p, ch))
  {
    hide Unhex;
  }

  lemma SimpleMarks(p: Parser, ch: Byte, a: Settings)
    requires p.errno.OK? && !ReadInBulk(p.state)
    ensures MarkStep(p.state, Micro(p, ch, a))
  {
    hide MarkStep, MarkRules, StartStep, ResponseVersionStep, ResponseStatusStep, RequestUrlStep, RequestVersionStep,
         HeaderFieldStartStep, HeaderSpaceStep, HeadersAlmostDoneStep, HeadersDoneStep, BodyStep, ChunkStep;
    match PhaseOf(p.state)
    case Starting => StartMarks(p, ch);
    case ResponseVersion => ResponseVersionMarks(p, ch);
    case ResponseStatus => ResponseStatusMarks(p, ch);
    case RequestUrl => RequestUrlMarks(p, ch);
    case RequestVersion => RequestVersionMarks(p, ch);
    case HeaderLine => HeaderFieldStartMarks(p, ch);
    case HeaderSpace => HeaderSpaceMarks(p, ch);
    case HeadersEnd => HeadersEndMarks(p, ch, a.answer);
    case InBody => MessageDoneMarks(p, ch);
    case InChunks => ChunkMarks(p, ch);
  }

  /** Outside the header value, lenient mode makes no difference. */
  lemma SimpleIgnoresLenient(p: Parser, ch: Byte, a: Settings, b: Settings)
    requires !p.state.HeaderValue? && a.answer == b.answer
    ensures Micro(p, ch, a) == Micro(p, ch, b)
  {
    hide StartStep, ResponseVersionStep, ResponseStatusStep, RequestUrlStep, RequestVersionStep,
         HeaderFieldStartStep, HeaderFieldStep, HeaderSpaceStep, HeadersAlmostDoneStep, HeadersDoneStep,
         BodyStep, ChunkStep;
  }
}
