/** What a connection delivers: its messages, in order, however the bytes arrive, and how a connection ends. */
module HttpDelivery {
  import opened HttpCalls
  import opened HttpChars
  import opened HttpConversations
  import opened HttpCutCounts
  import opened HttpFraming
  import opened HttpHeaderCount
  import opened HttpHeaderReading
  import opened HttpMachine
  import opened HttpMessages
  import opened HttpMessageReading
  import opened HttpParsing
  import opened HttpReading
  import opened HttpRun
  import opened HttpTheorems
  import opened Options
  import opened Pieces

  /**
   Feeding a conversation in any pieces delivers its callbacks and nothing else, unless the header
   bytes of one head, size line or trailer, with one more for each piece, pass the limit.
   */
  method Deliver(parser: HttpParser, ms: seq<Message>, pieces: seq<seq<Byte>>)
    requires parser.Valid() && Conversation(parser.View(), ms) && Flatten(pieces) == MessagesText(ms)
    requires forall x :: x in pieces ==> 0 < |x| < EXACT_PIECE
    modifies parser
    ensures parser.Valid()
    ensures parser.errno.OK? || parser.errno.HeaderOverflow?
    ensures parser.errno.OK? ==> Join(parser.trace) == old(Join(parser.trace)) + MessagesEvents(ms)
    ensures parser.errno.OK? && ms != [] ==> Tells(parser.View(), ms[|ms| - 1])
    ensures parser.errno.HeaderOverflow? ==> HeaderLoad(old(parser.nread), ms) + |pieces| > MAX_HEADER_SIZE
  {
    hide Conversation, Tells, MessagesText, MessagesEvents, Flatten, Calls, HeaderLoad;
    ghost var a := Settings(Proceed, parser.lenient);
    ghost var p, t, n := parser.View(), Join(parser.trace), parser.nread;
    assert p.errno.OK? by {
      ConversationStarts(p, ms);
    }
    ghost var r := Delivered(p, t, n, ms, pieces, a);
    ExecuteAll(parser, pieces, Proceed);
  }

  lemma ConversationStarts(p: Parser, ms: seq<Message>)
    requires Conversation(p, ms)
    ensures p.errno.OK?
  {
  }

  /** What the calls on the pieces of a conversation come to. */
  lemma Delivered(p: Parser, t: seq<Event>, n: nat, ms: seq<Message>, pieces: seq<seq<Byte>>, a: Settings)
      returns (r: Parser)
    requires Conversation(p, ms) && Flatten(pieces) == MessagesText(ms) && a.answer.Proceed?
    requires forall x :: x in pieces ==> x != []
    ensures r.errno.OK? && (ms != [] ==> Tells(r, ms[|ms| - 1]))
    ensures var c := Calls(p, t, n, pieces, a);
      c.p == r && c.t == t + MessagesEvents(ms) && c.top <= HeaderLoad(n, ms) + |pieces|
  {
    hide Rest, Scan, Conversation, Tells, MessagesText, MessagesEvents, Flatten, Calls, HeaderLoad;
    var s := MessagesText(ms);
    ConversationStarts(p, ms);
    assert Stands(s, 0, s);
    r := ReadMessages(p, t, s, 0, a, ms);
    RestEnds(r, t + MessagesEvents(ms), s, a);
    CutsAgree(p, t, n, pieces, a);
    CutCountsAtMost(p, t, n, pieces, a);
    MessagesKept(p, t, NewCall(n), a, ms);
  }

  /** A message that does not keep the connection open makes any later byte an error, except line ends. */
  lemma NothingAfterTheLast(p: Parser, t: seq<Event>, s: seq<Byte>, i: nat, a: Settings, m: Message)
    requires Awaits(p, m) && MessageOk(m) && !KeepsAlive(m) && a.answer.Proceed? && Stands(s, i, MessageText(m))
    requires var j := i + |MessageText(m)|; j < |s| && s[j] != CR && s[j] != LF
    ensures var f := Rest(p, t, s, i, a);
            f.p.errno.ClosedConnection? && f.trace == t + MessageEvents(m) && f.n == i + |MessageText(m)|
  {
    hide Stands, MessageText, MessageEvents, KeepsAlive, MessageOk, Micro;
    var r := ReadMessage(p, t, s, i, a, m);
    DeadFails(r, s[i + |MessageText(m)|], a);
  }

  lemma DeadFails(p: Parser, c: Byte, a: Settings)
    requires p.state.Dead? && c != CR && c != LF
    ensures Micro(p, c, a) == Fail(p, ClosedConnection)
  {
  }

  /** The head of a message and its last two bytes. */
  function HeadText(m: Message): seq<Byte> { StartText(m.start) + HeadersText(m.headers) }

  lemma HeadStands(s: seq<Byte>, i: nat, m: Message)
    requires Stands(s, i, HeadText(m))
    ensures Stands(s, i, StartText(m.start) + LinesText(m.headers))
    ensures var j := i + |HeadText(m)| - 2;
      j == i + |StartText(m.start)| + |LinesText(m.headers)| && NoFold(s, j) && Stands(s, j, CRLF)
  {
    hide StartText, LinesText, Stands;
    var x := StartText(m.start) + LinesText(m.headers);
    AppendTwice(StartText(m.start), LinesText(m.headers), CRLF);
    StandsBoth(s, i, x, CRLF);
    EmptyLineNext(s, i + |x|);
  }

  /** A head that announces both a length and chunks is refused at its last byte. */
  lemma TwoFramingsRefused(p: Parser, t: seq<Event>, s: seq<Byte>, i: nat, a: Settings, m: Message)
    requires Awaits(p, m) && StartOk(m.start) && HeadersOk(NO_FLAGS, m.headers) && FlagsOf(m).chunked &&
        FlagsOf(m).contentLength
    requires Stands(s, i, HeadText(m))
    ensures var f := Rest(p, t, s, i, a);
            f.p.errno.UnexpectedContentLength? && f.n == i + |HeadText(m)| - 1 &&
            f.trace == t + StartEvents(m.start) + HeaderEvents(m.headers)
  {
    hide Stands, StartOk, HeadersOk, FlagsAfter, LengthAfter, HeadText, StartText, LinesText, Micro, Decimal;
    HeadersKeep(NO_FLAGS, NO_LENGTH, m.headers);
    HeadStands(s, i, m);
    var q := ReadHead(p, t, s, i, a, m);
    var j := i + |HeadText(m)| - 2;
    StandsAt(s, j, CRLF, 0);
    StandsAt(s, j, CRLF, 1);
    EmptyLine(q, a);
    EmptyLine(q.(state := HeadersAlmostDone), a);
    Moves(q, q.(state := HeadersAlmostDone), t + StartEvents(m.start) + HeaderEvents(m.headers), s, j, a);
  }

  /** The headers announce no body. */
  predicate NoBodyAnnounced(m: Message) {
    !FlagsOf(m).chunked && (!FlagsOf(m).contentLength || LengthAfter(NO_LENGTH, m.headers) == 0)
  }

  /** The end of the body could only be seen at the end of the connection. */
  predicate EndsWithConnection(m: Message) { !Bodiless(m.start) && !FlagsOf(m).chunked && !FlagsOf(m).contentLength }

  /** A message that asks to leave HTTP ends the call right behind its head; CONNECT does so whatever it announces. */
  lemma LeavesAfterHead(p: Parser, t: seq<Event>, s: seq<Byte>, i: nat, a: Settings, m: Message)
    requires Awaits(p, m) && StartOk(m.start) && HeadersOk(NO_FLAGS, m.headers) && a.answer.Proceed?
    requires AsksToLeave(m) && !(FlagsOf(m).chunked && FlagsOf(m).contentLength) &&
        ((m.start.RequestLine? && m.start.verb.CONNECT?) || NoBodyAnnounced(m))
    requires Stands(s, i, HeadText(m))
    ensures var f := Rest(p, t, s, i, a);
            && f.stopped && f.p.errno.OK? && f.p.upgrade && f.n == i + |HeadText(m)|
            && f.trace == t + StartEvents(m.start) + HeaderEvents(m.headers) +
                          [OnHeadersComplete(LengthAfter(NO_LENGTH, m.headers), FlagsOf(m).chunked, true,
                                             EndsWithConnection(m)),
                           OnMessageComplete]
  {
    hide Stands, StartOk, HeadersOk, FlagsAfter, LengthAfter, HeadText, StartText, LinesText, Micro, Decimal,
        NewMessage, Rest, Emit, HeadersAlmostDoneStep, HeadersDoneStep;
    HeadersKeep(NO_FLAGS, NO_LENGTH, m.headers);
    HeadStands(s, i, m);
    var q := ReadHead(p, t, s, i, a, m);
    var j := i + |HeadText(m)| - 2;
    var u := t + StartEvents(m.start) + HeaderEvents(m.headers);
    var e := OnHeadersComplete(q.contentLength, q.flags.chunked, true, MessageNeedsEof(q));
    EofKnown(p, q, m);
    var q1, q2 := q.(state := HeadersAlmostDone), q.(upgrade := true, state := HeadersDone);
    StandsAt(s, j, CRLF, 0);
    StandsAt(s, j, CRLF, 1);
    EmptyLine(q, a);
    EmptyLine(q1, a);
    EmptyLine(q2, a);
    Moves(q, q1, u, s, j, a);
    LeavingSteps(q, a.answer);
    Repeats(q1, q2, [e], u, s, j + 1, a);
    NoteEmitted(u, e);
    Leaves(q2, Finished(q2), u + [e], s, j + 1, a);
    assert u + [e] + [OnMessageComplete] == u + [e, OnMessageComplete];
  }

  lemma EofKnown(p: Parser, q: Parser, m: Message)
    requires Awaits(p, m) && HeadRead(p, q, m) && FreshFlags(q.flags)
    requires if q.flags.contentLength then q.contentLength <= NO_LENGTH - 10 else q.contentLength == NO_LENGTH
    ensures MessageNeedsEof(q) == EndsWithConnection(m)
  {
    hide Decimal, FlagsAfter, LengthAfter;
  }

  /** The last byte of a head that leaves HTTP, looked at twice. */
  lemma LeavingSteps(q: Parser, answer: Answer)
    requires FreshFlags(q.flags) && answer.Proceed? && !(q.flags.chunked && q.flags.contentLength)
    requires q.verb.CONNECT? || (q.flags.upgrade && q.flags.connectionUpgrade && !HasBody(q))
    ensures var r := q.(upgrade := true, state := HeadersDone);
      && HeadersAlmostDoneStep(q.(state := HeadersAlmostDone), LF, answer) ==
         Outcome(r, None, [OnHeadersComplete(q.contentLength, q.flags.chunked, true, MessageNeedsEof(q))], Again)
      && HeadersDoneStep(r, LF) == Outcome(Finished(r), None, [OnMessageComplete], Stop)
  {
    hide NewMessage;
  }

  lemma Leaves(p: Parser, q: Parser, t: seq<Event>, s: seq<Byte>, i: nat, a: Settings)
    requires i < |s| && p.errno.OK? && q.errno.OK? && Micro(p, s[i], a) == Outcome(q, None, [OnMessageComplete], Stop)
    ensures Rest(p, t, s, i, a) == Final(q, t + [OnMessageComplete], i + 1, true)
  {
    hide Micro;
    NoteEmitted(t, OnMessageComplete);
  }
}
