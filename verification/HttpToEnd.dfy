/** Responses without an announced length: the body runs to the end of the connection. */
module HttpToEnd {
  import opened HttpCalls
  import opened HttpChars
  import opened HttpCutCounts
  import opened HttpDelivery
  import opened HttpFraming
  import opened HttpHeaderCount
  import opened HttpMachine
  import opened HttpMessages
  import opened HttpMessageReading
  import opened HttpParsing
  import opened HttpReading
  import opened HttpRun
  import opened HttpTheorems
  import opened Options
  import opened Pieces

  /** The start line and headers of a response that neither announces a length nor asks to leave HTTP. */
  predicate OpenEnded(m: Message) {
    StartOk(m.start) && HeadersOk(NO_FLAGS, m.headers) && EndsWithConnection(m) && !AsksToLeave(m)
  }

  /** What is delivered before the connection ends. */
  function OpenEvents(m: Message, b: seq<Byte>): seq<Event> {
    StartEvents(m.start) + HeaderEvents(m.headers) + [OnHeadersComplete(NO_LENGTH, false, false, true)] +
    DataEvent(Body, b)
  }

  lemma OpenHead(p: Parser, q: Parser, m: Message)
    requires Awaits(p, m) && HeadRead(p, q.(state := HeaderFieldStart), m) && OpenEnded(m)
    ensures FreshFlags(q.flags) && !q.flags.chunked && q.contentLength == NO_LENGTH && !q.verb.CONNECT?
    ensures !(q.flags.upgrade && q.flags.connectionUpgrade) && MessageNeedsEof(q)
    ensures m.start.StatusLine? && q.status == Decimal(m.start.status) && q.flags == FlagsOf(m)
    ensures HeadersDoneStep(q.(upgrade := false, state := HeadersDone), LF) ==
      Outcome(q.(upgrade := false, state := BodyIdentityEof), None, [], Advance)
  {
    hide FlagsAfter, LengthAfter, HeadersOk, Decimal, StartOk;
    HeadersKeep(NO_FLAGS, NO_LENGTH, m.headers);
  }

  lemma ReadEofBody(p: Parser, t: seq<Event>, s: seq<Byte>, i: nat, a: Settings, b: seq<Byte>)
    requires p.state.BodyIdentityEof? && p.errno.OK? && NotIn(t, Body) && Stands(s, i, b)
    ensures Rest(p, t, s, i, a) == Rest(p, t + DataEvent(Body, b), s, i + |b|, a)
  {
    hide Micro, Rest;
    assert t + [] == t;
    if b != [] {
      var ps := seq(|b| + 1, k requires 0 <= k <= |b| => p);
      forall k | 0 <= k < |b|
        ensures Micro(ps[k], s[i + k], a) == Take(ps[k + 1], Body)
      {
        BodyStepIs(p, s[i + k], a);
      }
      ManyTake(ps, Body, t, s, i, a);
      NewData(t, Body, b);
    }
  }

  /** Bytes of such a body are not counted. */
  lemma {:induction false} EofBodyKept(p: Parser, t: seq<Event>, k: Track, b: seq<Byte>, i: nat, a: Settings)
    requires p.state.BodyIdentityEof? && p.errno.OK? && i <= |b|
    ensures var k' := Scan(p, t, k, b, i, a).k; k'.c.n == k.c.n && k'.c.top == k.c.top
    decreases |b| - i
  {
    hide Micro, Traced;
    if i < |b| {
      BodyStepIs(p, b[i], Checking(a, k.skip));
      var o := Micro(p, b[i], Checking(a, k.skip));
      EofBodyKept(p, Traced(t, o, b[i]), Onward(Count(k, p.state), p, o), b, i + 1, a);
    }
  }

  /** The run over such a response, and what it counts: no more than the head. */
  lemma ReadOpenEnded(p: Parser, t: seq<Event>, n: nat, a: Settings, m: Message, b: seq<Byte>) returns (r: Parser)
    requires Awaits(p, m) && OpenEnded(m) && a.answer.Proceed?
    ensures r.errno.OK? && r.state.BodyIdentityEof?
    ensures m.start.StatusLine? && r.status == Decimal(m.start.status) && r.flags == FlagsOf(m)
    ensures Over(p, t, HeadText(m) + b, r, t + OpenEvents(m, b), a)
    ensures Kept(p, t, NewCall(n), HeadText(m) + b, a).c.top <= n + HeadLength(m)
  {
    hide Rest, Scan, Over, Kept, StartOk, HeadersOk, StartText, LinesText, FlagsAfter, LengthAfter, MessageNeedsEof,
        StartEvents, HeaderEvents, DataEvent, Decimal, EndsWithConnection;
    var x, k := FirstPart(m), NewCall(n);
    var q := OverHead(p, t, a, m);
    OpenHead(p, q, m);
    var u := t + StartEvents(m.start) + HeaderEvents(m.headers);
    KeptBound(p, t, k, x, q, u, a);
    var k1 := Kept(p, t, k, x, a);
    var v;
    r, v := OverHeadEnd(q, u, k1, a);
    Chain(p, t, k, x, q, u, [LF], r, v, a);
    OverEofBody(r, v, Kept(p, t, k, x + [LF], a), b, a);
    Chain(p, t, k, x + [LF], r, v, b, r, v + DataEvent(Body, b), a);
    HeadThenBody(m, b);
    OpenEventsAre(t, m, b);
  }

  lemma OverEofBody(p: Parser, t: seq<Event>, k: Track, b: seq<Byte>, a: Settings)
    requires p.state.BodyIdentityEof? && p.errno.OK? && NotIn(t, Body)
    ensures Over(p, t, b, p, t + DataEvent(Body, b), a)
    ensures Kept(p, t, k, b, a).c.top == k.c.top
  {
    hide Rest, Scan, DataEvent;
    assert Stands(b, 0, b);
    ReadEofBody(p, t, b, 0, a, b);
    RestEnds(p, t + DataEvent(Body, b), b, a);
    EofBodyKept(p, t, k, b, 0, a);
  }

  lemma HeadThenBody(m: Message, b: seq<Byte>)
    ensures FirstPart(m) + [LF] + b == HeadText(m) + b && |FirstPart(m)| + 1 == HeadLength(m)
  {
    hide StartText, LinesText;
    assert LinesText(m.headers) + CRLF == LinesText(m.headers) + [CR] + [LF];
    assert FirstPart(m) + [LF] == HeadText(m);
  }

  lemma OpenEventsAre(t: seq<Event>, m: Message, b: seq<Byte>)
    ensures t + StartEvents(m.start) + HeaderEvents(m.headers) + [OnHeadersComplete(NO_LENGTH, false, false, true)] +
        DataEvent(Body, b) == t + OpenEvents(m, b)
  {
    hide StartEvents, HeaderEvents, DataEvent;
    var x, y, e := StartEvents(m.start), HeaderEvents(m.headers), [OnHeadersComplete(NO_LENGTH, false, false, true)];
    assert t + x + y + e + DataEvent(Body, b) == t + (x + y + e + DataEvent(Body, b));
  }

  /** Fed in any pieces, such a response delivers its body as it comes, and is complete when the connection ends. */
  method DeliverToEnd(parser: HttpParser, m: Message, b: seq<Byte>, pieces: seq<seq<Byte>>)
    requires parser.Valid() && Awaits(parser.View(), m) && OpenEnded(m) && Flatten(pieces) == HeadText(m) + b
    requires forall x :: x in pieces ==> 0 < |x| < EXACT_PIECE
    modifies parser
    ensures parser.Valid()
    ensures parser.errno.OK? || parser.errno.HeaderOverflow?
    ensures parser.errno.OK? ==>
      Join(parser.trace) == old(Join(parser.trace)) + OpenEvents(m, b) + [OnMessageComplete]
    ensures parser.errno.HeaderOverflow? ==> old(parser.nread) + HeadLength(m) + |pieces| > MAX_HEADER_SIZE
  {
    hide Awaits, OpenEnded, HeadText, OpenEvents, Flatten, Calls, Over, Kept, Rest, Scan;
    ghost var a := Settings(Proceed, parser.lenient);
    ghost var p, t, n := parser.View(), Join(parser.trace), parser.nread;
    ghost var r := CutOpenEnded(p, t, n, a, m, b, pieces);
    ExecuteAll(parser, pieces, Proceed);
    if parser.errno.OK? {
      ghost var raw := parser.trace;
      var k := parser.Execute([], Proceed);
      JoinAppend(raw, OnMessageComplete);
    }
  }

  lemma CutOpenEnded(p: Parser, t: seq<Event>, n: nat, a: Settings, m: Message, b: seq<Byte>, pieces: seq<seq<Byte>>)
      returns (r: Parser)
    requires Awaits(p, m) && OpenEnded(m) && a.answer.Proceed? && Flatten(pieces) == HeadText(m) + b
    requires forall x :: x in pieces ==> x != []
    ensures p.errno.OK? && r.errno.OK? && r.state.BodyIdentityEof?
    ensures var c := Calls(p, t, n, pieces, a);
      c.p == r && c.t == t + OpenEvents(m, b) && c.top <= n + HeadLength(m) + |pieces|
  {
    hide OpenEnded, HeadText, HeadLength, OpenEvents, Flatten, Calls, Rest, Scan;
    r := ReadOpenEnded(p, t, n, a, m, b);
    CutsAgree(p, t, n, pieces, a);
    CutCountsAtMost(p, t, n, pieces, a);
  }
}
