/** How many header bytes a conversation counts. The count is set back at the end of a head and between chunks. */
module HttpHeaderCount {
  import opened HttpCalls
  import opened HttpChars
  import opened HttpConversations
  import opened HttpHeaderReading
  import opened HttpMachine
  import opened HttpMessageReading
  import opened HttpMessages
  import opened HttpReading
  import opened HttpRun
  import opened Options

  function HeadLength(m: Message): nat { |StartText(m.start)| + |HeadersText(m.headers)| }

  function ChunksLoad(cs: seq<Chunk>): nat { if cs == [] then 0 else Max(|SizeText(cs[0])|, ChunksLoad(cs[1..])) }

  /** The greatest count inside the content: size lines and trailers. */
  function ContentLoad(c: Content): nat {
    if c.Chunked? then Max(ChunksLoad(c.chunks), Max(|SizeText(c.last)|, |HeadersText(c.trailers)|)) else 0
  }

  /** What is still counted when a message has ended: trailers are, other content is not. */
  function LeftOver(m: Message): nat { if m.content.Chunked? then |HeadersText(m.content.trailers)| else 0 }

  /** The greatest count of header bytes in a conversation that begins with a count of n. */
  function HeaderLoad(n: nat, ms: seq<Message>): nat
    decreases |ms|
  {
    if ms == [] then 0
    else Max(Max(n + HeadLength(ms[0]), ContentLoad(ms[0].content)), HeaderLoad(LeftOver(ms[0]), ms[1..]))
  }

  /** A run over x leads from one configuration to the other. */
  predicate Over(p: Parser, t: seq<Event>, x: seq<Byte>, q: Parser, u: seq<Event>, a: Settings) {
    p.errno.OK? && q.errno.OK? && Run(p, t, x, a) == Final(q, u, |x|, false)
  }

  /** The track after x. */
  function Kept(p: Parser, t: seq<Event>, k: Track, x: seq<Byte>, a: Settings): Track { Scan(p, t, k, x, 0, a).k }

  lemma Chain(p: Parser, t: seq<Event>, k: Track, x: seq<Byte>, q: Parser, u: seq<Event>, y: seq<Byte>, r: Parser,
      v: seq<Event>, a: Settings)
    requires Over(p, t, x, q, u, a) && Over(q, u, y, r, v, a)
    ensures Over(p, t, x + y, r, v, a) && Kept(p, t, k, x + y, a) == Kept(q, u, Kept(p, t, k, x, a), y, a)
  {
    hide Rest, Scan;
    RunSplits(p, t, x, y, a);
    StrictRunIsScan(p, t, k, x, 0, a);
    ScanPrefix(p, t, k, x, y, 0, a);
  }

  lemma OverNothing(p: Parser, t: seq<Event>, k: Track, a: Settings)
    requires p.errno.OK?
    ensures Over(p, t, [], p, t, a) && Kept(p, t, k, [], a) == k
  {
  }

  /** How many bytes from i on are not counted yet. */
  function Uncounted(k: Track, x: seq<Byte>, i: nat): nat
    requires i <= |x|
  {
    if k.first || i == |x| then |x| - i else |x| - i - 1
  }

  /** No byte counts more than once. */
  lemma {:induction false} CountBound(p: Parser, t: seq<Event>, k: Track, x: seq<Byte>, i: nat, a: Settings)
    requires i <= |x|
    ensures var c, d := Scan(p, t, k, x, i, a).k.c, Uncounted(k, x, i);
      c.n <= k.c.n + d && c.top <= Max(k.c.top, k.c.n + d)
    decreases |x| - i, Rank(p.state)
  {
    hide Micro, Traced, ParsingHeader, StaysInLine, Resets;
    if i < |x| && p.errno.OK? {
      var o := Micro(p, x[i], Checking(a, k.skip));
      var k' := Onward(Count(k, p.state), p, o);
      if o.p.errno.OK? && o.next.Advance? {
        CountBound(o.p, Traced(t, o, x[i]), k', x, i + 1, a);
      } else if o.p.errno.OK? && o.next.Again? {
        CountBound(o.p, Traced(t, o, x[i]), k', x, i, a);
      }
    }
  }

  lemma KeptBound(p: Parser, t: seq<Event>, k: Track, x: seq<Byte>, q: Parser, u: seq<Event>, a: Settings)
    requires Over(p, t, x, q, u, a) && k.first
    ensures var k' := Kept(p, t, k, x, a);
      k'.first && k'.c.n <= k.c.n + |x| && k'.c.top <= Max(k.c.top, k.c.n + |x|)
  {
    hide Scan, Rest;
    CountBound(p, t, k, x, 0, a);
    StrictRunIsScan(p, t, k, x, 0, a);
    EndsFirst(p, t, k, x, 0, a);
  }

  lemma {:induction false} EndsFirst(p: Parser, t: seq<Event>, k: Track, x: seq<Byte>, i: nat, a: Settings)
    requires i <= |x| && (i < |x| || k.first) && Clean(Scan(p, t, k, x, i, a).f)
    ensures Scan(p, t, k, x, i, a).k.first
    decreases |x| - i, Rank(p.state)
  {
    hide Micro, Traced, ParsingHeader, StaysInLine, Resets;
    if i < |x| {
      ScanErrorFree(p, t, k, x, i, a);
      var o := Micro(p, x[i], Checking(a, k.skip));
      var k' := Onward(Count(k, p.state), p, o);
      if o.next.Advance? {
        EndsFirst(o.p, Traced(t, o, x[i]), k', x, i + 1, a);
      } else {
        EndsFirst(o.p, Traced(t, o, x[i]), k', x, i, a);
      }
    }
  }

  /** One byte that the machine looks at once. */
  lemma OneLook(p: Parser, t: seq<Event>, k: Track, c: Byte, o: Outcome, a: Settings)
    requires p.errno.OK? && o.p.errno.OK? && o.next.Advance? && Micro(p, c, Checking(a, k.skip)) == o
    ensures Kept(p, t, k, [c], a) == Onward(Count(k, p.state), p, o)
  {
    hide Micro, Traced, Count, Onward;
    ScanDone(o.p, Traced(t, o, c), Onward(Count(k, p.state), p, o), [c], a);
  }

  /** One byte that the machine looks at again. */
  lemma AgainLook(p: Parser, t: seq<Event>, k: Track, c: Byte, o: Outcome, a: Settings)
    requires p.errno.OK? && o.p.errno.OK? && o.next.Again? && Micro(p, c, Checking(a, k.skip)) == o
    ensures Kept(p, t, k, [c], a) == Kept(o.p, Traced(t, o, c), Onward(Count(k, p.state), p, o), [c], a)
  {
    hide Micro, Traced, Count, Onward;
  }

  lemma ScanDone(p: Parser, t: seq<Event>, k: Track, x: seq<Byte>, a: Settings)
    ensures Scan(p, t, k, x, |x|, a) == Ended(Final(p, t, |x|, false), k)
  {
  }

  // Heads.

  function FirstPart(m: Message): seq<Byte> { StartText(m.start) + LinesText(m.headers) + [CR] }

  /** All of a head but its last byte. */
  lemma OverHead(p: Parser, t: seq<Event>, a: Settings, m: Message) returns (q: Parser)
    requires Awaits(p, m) && StartOk(m.start) && HeadersOk(NO_FLAGS, m.headers)
    ensures HeadRead(p, q.(state := HeaderFieldStart), m) && q.state.HeadersAlmostDone?
    ensures Over(p, t, FirstPart(m), q, t + StartEvents(m.start) + HeaderEvents(m.headers), a)
  {
    hide Rest, StartOk, HeadersOk, StartText, LinesText, Micro, LengthAfter, FlagsAfter, StartEvents, HeaderEvents;
    var s := FirstPart(m);
    var x := StartText(m.start) + LinesText(m.headers);
    assert s == x + [CR] && s[|x|] == CR && Stands(s, 0, x);
    var r := ReadHead(p, t, s, 0, a, m);
    q := r.(state := HeadersAlmostDone);
    EmptyLine(r, a);
    var u := t + StartEvents(m.start) + HeaderEvents(m.headers);
    Moves(r, q, u, s, |x|, a);
    RestEnds(q, u, s, a);
  }

  /** The last byte of a head sets the count back. */
  lemma HeadEndResets(p: Parser, t: seq<Event>, k: Track, a: Settings)
    requires p.state.HeadersAlmostDone? && p.errno.OK? && k.first && a.answer.Proceed?
    requires var o := HeadersAlmostDoneStep(p, LF, a.answer);
      && o.next.Again? && o.p.errno.OK? && o.p.state.HeadersDone?
      && HeadersDoneStep(o.p, LF).next.Advance? && HeadersDoneStep(o.p, LF).p.errno.OK?
    ensures var k' := Kept(p, t, k, [LF], a);
      k'.first && k'.c.n == 0 && k'.c.top <= Max(k.c.top, k.c.n + 1)
  {
    hide Micro, Scan, HeadersAlmostDoneStep, HeadersDoneStep, Traced;
    var a' := Checking(a, k.skip);
    EmptyLine(p, a');
    var o := HeadersAlmostDoneStep(p, LF, a.answer);
    AgainLook(p, t, k, LF, o, a);
    var k1 := Onward(Count(k, p.state), p, o);
    EmptyLine(o.p, Checking(a, k1.skip));
    OneLook(o.p, Traced(t, o, LF), k1, LF, HeadersDoneStep(o.p, LF), a);
  }

  // Content.

  /** Bytes of a body are not counted. */
  lemma {:induction false} BodyKept(p: Parser, t: seq<Event>, k: Track, b: seq<Byte>, i: nat, a: Settings)
    requires (p.state.BodyIdentity? || p.state.ChunkData?) && p.errno.OK? && !p.upgrade && k.first
    requires i < |b| && p.contentLength == |b| - i
    ensures var k' := Scan(p, t, k, b, i, a).k; k'.first && k'.c.n == k.c.n && k'.c.top == k.c.top
    decreases |b| - i
  {
    hide Micro, Traced, NewMessage;
    var a' := Checking(a, k.skip);
    var o := Micro(p, b[i], a');
    if p.state.BodyIdentity? { BodyStepIs(p, b[i], a'); } else { ChunkStepIs(p, b[i], a'); }
    var k1 := Onward(Count(k, p.state), p, o);
    var u := Traced(t, o, b[i]);
    if p.contentLength == 1 {
      ScanDone(o.p, u, k1, b, a);
      if p.state.BodyIdentity? {
        var o2 := Micro(o.p, b[i], Checking(a, k1.skip));
        BodyStepIs(o.p, b[i], Checking(a, k1.skip));
        ScanDone(o2.p, Traced(u, o2, b[i]), Onward(Count(k1, o.p.state), o.p, o2), b, a);
      }
    } else {
      BodyKept(o.p, u, k1, b, i + 1, a);
    }
  }

  lemma OverOne(p: Parser, t: seq<Event>, c: Byte, o: Outcome, a: Settings)
    requires p.errno.OK? && o.p.errno.OK? && o.next.Advance? && Micro(p, c, a) == o
    ensures Over(p, t, [c], o.p, Traced(t, o, c), a)
  {
    hide Micro, Traced;
    RestEnds(o.p, Traced(t, o, c), [c], a);
  }

  /** One byte between or inside chunks: counted in a header state, and then perhaps the count is set back. */
  lemma ChunkByte(p: Parser, t: seq<Event>, k: Track, c: Byte, a: Settings) returns (q: Parser, u: seq<Event>)
    requires PhaseOf(p.state).InChunks? && p.errno.OK? && ChunkStep(p, c).p.errno.OK? && k.first
    ensures Over(p, t, [c], q, u, a) && q == ChunkStep(p, c).p
    ensures var k' := Kept(p, t, k, [c], a);
      && k'.first && k'.c.n == (if Resets(p.state) then 0 else if ParsingHeader(p.state) then k.c.n + 1 else k.c.n)
      && k'.c.top <= if ParsingHeader(p.state) then Max(k.c.top, k.c.n + 1) else k.c.top
  {
    hide Micro, Scan, Rest, Traced, ChunkStep;
    ChunkAdvances(p, c);
    var o := ChunkStep(p, c);
    ChunkStepIs(p, c, a);
    ChunkStepIs(p, c, Checking(a, k.skip));
    OverOne(p, t, c, o, a);
    OneLook(p, t, k, c, o, a);
    q, u := o.p, Traced(t, o, c);
  }

  lemma ChunkAdvances(p: Parser, c: Byte)
    requires PhaseOf(p.state).InChunks?
    ensures ChunkStep(p, c).next.Advance? && !p.state.HeaderValue?
  {
  }

  /** A size line without its last byte. */
  lemma OverSize(p: Parser, t: seq<Event>, c: Chunk, a: Settings) returns (z: Parser)
    requires p.state.ChunkSizeStart? && p.errno.OK? && ChunkOk(c)
    ensures z == p.(state := ChunkSizeAlmostDone, contentLength := |c.bytes|)
    ensures Over(p, t, c.size + c.parameters + [CR], z, t, a)
  {
    hide Micro, Rest, SizeValue, Unhex, OneLine, Stands;
    var x := c.size + c.parameters;
    var s := x + [CR];
    var q := p.(state := ChunkSize, contentLength := |c.bytes|);
    var r := AfterParameters(q, c.parameters);
    z := r.(state := ChunkSizeAlmostDone);
    StandsFirst(x, [CR]);
    StandsBoth(s, 0, c.size, c.parameters);
    ReadSizeDigits(p, t, s, 0, a, c.size);
    ReadParameters(q, t, s, |c.size|, a, c.parameters);
    SizeLineSteps(r, a);
    Moves(r, z, t, s, |x|, a);
    RestEnds(z, t, s, a);
  }

  lemma StandsFirst(x: seq<Byte>, y: seq<Byte>)
    ensures Stands(x + y, 0, x)
  {
  }

  /** A size line: all of it may count, and then the count is set back. */
  lemma SizeKept(p: Parser, t: seq<Event>, k: Track, c: Chunk, a: Settings) returns (u: seq<Event>)
    requires p.state.ChunkSizeStart? && p.errno.OK? && ChunkOk(c) && k.first
    ensures Over(p, t, SizeText(c), AfterSize(p, |c.bytes|), u, a)
    ensures var k' := Kept(p, t, k, SizeText(c), a);
      k'.first && k'.c.n == 0 && k'.c.top <= Max(k.c.top, k.c.n + |SizeText(c)|)
  {
    hide Scan, Rest, ChunkOk, Over, Kept, ChunkStep;
    var s := c.size + c.parameters + [CR];
    var z := OverSize(p, t, c, a);
    KeptBound(p, t, k, s, z, t, a);
    SizeEnds(z, |c.bytes|);
    var y;
    y, u := ChunkByte(z, t, Kept(p, t, k, s, a), LF, a);
    Chain(p, t, k, s, z, t, [LF], y, u, a);
    assert s + [LF] == SizeText(c);
  }

  lemma OverIs(p: Parser, t: seq<Event>, x: seq<Byte>, q: Parser, u: seq<Event>, a: Settings)
    requires p.errno.OK? && q.errno.OK? && Rest(p, t, x, 0, a) == Final(q, u, |x|, false)
    ensures Over(p, t, x, q, u, a)
  {
  }

  lemma SizeEnds(p: Parser, n: nat)
    requires p.state.ChunkSizeAlmostDone? && p.contentLength == n && p.errno.OK?
    ensures ChunkStep(p, LF).p == AfterSize(p, n) && AfterSize(p, n).errno.OK?
  {
  }

  /** A chunk: nothing is left of the count. */
  lemma ChunkKept(p: Parser, t: seq<Event>, k: Track, c: Chunk, a: Settings) returns (q: Parser, u: seq<Event>)
    requires p.state.ChunkSizeStart? && p.errno.OK? && !p.upgrade && ChunkOk(c) && c.bytes != [] && k.first
    ensures q == p.(contentLength := 0) && Over(p, t, SizeText(c) + c.bytes + CRLF, q, u, a)
    ensures var k' := Kept(p, t, k, SizeText(c) + c.bytes + CRLF, a);
      k'.first && k'.c.n == 0 && k'.c.top <= Max(k.c.top, k.c.n + |SizeText(c)|)
  {
    hide Micro, Scan, Rest, Over, SizeText, ChunkStep;
    var b, x := c.bytes, SizeText(c);
    u := SizeKept(p, t, k, c, a);
    var q1, q2 := AfterSize(p, |b|), p.(contentLength := 0, state := ChunkDataAlmostDone);
    var u2 := Emit(u, Data(Body, b));
    assert Stands(b, 0, b);
    TakeChunkBytes(q1, u, b, 0, a, b);
    RestEnds(q2, u2, b, a);
    OverIs(q1, u, b, q2, u2, a);
    BodyKept(q1, u, Kept(p, t, k, x, a), b, 0, a);
    Chain(p, t, k, x, q1, u, b, q2, u2, a);
    ChunkEnds(q2);
    var q3, u3 := ChunkByte(q2, u2, Kept(p, t, k, x + b, a), CR, a);
    Chain(p, t, k, x + b, q2, u2, [CR], q3, u3, a);
    q, u := ChunkByte(q3, u3, Kept(p, t, k, x + b + [CR], a), LF, a);
    Chain(p, t, k, x + b + [CR], q3, u3, [LF], q, u, a);
    assert x + b + [CR] + [LF] == x + b + CRLF;
  }

  lemma ChunkEnds(p: Parser)
    requires p.state.ChunkDataAlmostDone? && p.errno.OK?
    ensures ChunkStep(p, CR).p == p.(state := ChunkDataDone)
    ensures ChunkStep(p.(state := ChunkDataDone), LF).p == p.(state := ChunkSizeStart)
  {
  }

  lemma {:induction false} ChunksKept(p: Parser, t: seq<Event>, k: Track, cs: seq<Chunk>, a: Settings)
      returns (q: Parser, u: seq<Event>)
    requires p.state.ChunkSizeStart? && p.errno.OK? && !p.upgrade && k.first && k.c.n == 0
    requires forall c :: c in cs ==> ChunkOk(c) && c.bytes != []
    ensures q == p.(contentLength := q.contentLength) && Over(p, t, ChunksText(cs), q, u, a)
    ensures var k' := Kept(p, t, k, ChunksText(cs), a);
      k'.first && k'.c.n == 0 && k'.c.top <= Max(k.c.top, ChunksLoad(cs))
    decreases |cs|
  {
    hide Scan, Rest, Over, SizeText, ChunkOk, Kept;
    if cs == [] {
      OverNothing(p, t, k, a);
      q, u := p, t;
    } else {
      var c := cs[0];
      var x := SizeText(c) + c.bytes + CRLF;
      var q1, u1 := ChunkKept(p, t, k, c, a);
      q, u := ChunksKept(q1, u1, Kept(p, t, k, x, a), cs[1..], a);
      Chain(p, t, k, x, q1, u1, ChunksText(cs[1..]), q, u, a);
    }
  }

  /** Chunks, the last size line, and the trailers, which stay counted. */
  lemma ChunkedKept(p: Parser, t: seq<Event>, k: Track, m: Message, a: Settings) returns (q: Parser, u: seq<Event>)
    requires p.state.ChunkSizeStart? && p.errno.OK? && !p.upgrade && k.first && k.c.n == 0
    requires ContentOk(m) && m.content.Chunked?
    ensures Over(p, t, ContentText(m.content), q, u, a)
    ensures var k' := Kept(p, t, k, ContentText(m.content), a);
      k'.first && k'.c.n <= LeftOver(m) && k'.c.top <= Max(k.c.top, ContentLoad(m.content))
  {
    hide Scan, Rest, Over, SizeText, ChunkOk, Kept, ChunksText, LinesText, HeaderOk, Special, FlagsAfter, ChunksLoad;
    var cs, z, hs := m.content.chunks, m.content.last, m.content.trailers;
    var x, y, w := ChunksText(cs), SizeText(z), HeadersText(hs);
    var q1, u1 := ChunksKept(p, t, k, cs, a);
    var u2 := SizeKept(q1, u1, Kept(p, t, k, x, a), z, a);
    var q2 := AfterSize(q1, 0);
    Chain(p, t, k, x, q1, u1, y, q2, u2, a);
    var k2 := Kept(p, t, k, x + y, a);
    q, u := OverTrailers(q2, u2, hs, a);
    KeptBound(q2, u2, k2, w, q, u, a);
    Chain(p, t, k, x + y, q2, u2, w, q, u, a);
  }

  lemma OverTrailers(p: Parser, t: seq<Event>, hs: seq<Header>, a: Settings) returns (q: Parser, u: seq<Event>)
    requires p.state.HeaderFieldStart? && p.flags.trailing && p.errno.OK? && !p.upgrade
    requires forall h :: h in hs ==> HeaderOk(h) && !Special(h)
    ensures Over(p, t, HeadersText(hs), q, u, a)
  {
    hide Rest, HeaderOk, Special, LinesText, NewMessage;
    var s := HeadersText(hs);
    assert Stands(s, 0, s);
    var v := t + [OnChunkHeader(0)];
    var r := ReadTrailers(p, v, s, 0, a, hs);
    RestEnds(r, v + HeaderEvents(hs) + [OnChunkComplete, OnMessageComplete], s, a);
    TraceDoesNotMatter(p, v, t, s, 0, a);
    q, u := r, Rest(p, t, s, 0, a).trace;
  }

  /** The parser goes its way whatever the callbacks were. */
  lemma {:induction false} TraceDoesNotMatter(p: Parser, t: seq<Event>, u: seq<Event>, x: seq<Byte>, i: nat,
      a: Settings)
    requires i <= |x|
    ensures var f, g := Rest(p, t, x, i, a), Rest(p, u, x, i, a); f.p == g.p && f.n == g.n && f.stopped == g.stopped
    decreases |x| - i, Rank(p.state)
  {
    hide Micro, Traced;
    if i < |x| && p.errno.OK? {
      var o := Micro(p, x[i], a);
      if o.p.errno.OK? && o.next.Advance? {
        TraceDoesNotMatter(o.p, Traced(t, o, x[i]), Traced(u, o, x[i]), x, i + 1, a);
      } else if o.p.errno.OK? && o.next.Again? {
        TraceDoesNotMatter(o.p, Traced(t, o, x[i]), Traced(u, o, x[i]), x, i, a);
      }
    }
  }

  // Messages.

  /** The end of a head that stays in HTTP. */
  lemma OverHeadEnd(p: Parser, t: seq<Event>, k: Track, a: Settings) returns (h: Parser, u: seq<Event>)
    requires p.state.HeadersAlmostDone? && FreshFlags(p.flags) && p.errno.OK? && a.answer.Proceed? && k.first
    requires !(p.flags.chunked && p.flags.contentLength) && !(p.flags.upgrade && p.flags.connectionUpgrade)
    requires !p.verb.CONNECT?
    ensures var o := HeadersDoneStep(p.(upgrade := false, state := HeadersDone), LF);
      var e := OnHeadersComplete(p.contentLength, p.flags.chunked, false, MessageNeedsEof(p));
      h == o.p && h.errno.OK? && u == EmitAll(t + [e], o.notes)
    ensures Over(p, t, [LF], h, u, a)
    ensures var k' := Kept(p, t, k, [LF], a);
      k'.first && k'.c.n == 0 && k'.c.top <= Max(k.c.top, k.c.n + 1)
  {
    hide Micro, MessageNeedsEof, NewMessage, HasBody, Rest, Scan;
    var q := p.(upgrade := false, state := HeadersDone);
    var o := HeadersDoneStep(q, LF);
    var e := OnHeadersComplete(p.contentLength, p.flags.chunked, false, MessageNeedsEof(p));
    HeadIsComplete(p, a.answer);
    EmptyLine(p, a);
    EmptyLine(q, a);
    Repeats(p, q, [e], t, [LF], 0, a);
    Rests(q, o, EmitAll(t, [e]), [LF], 0, a);
    NoteEmitted(t, e);
    h, u := o.p, EmitAll(t + [e], o.notes);
    RestEnds(h, u, [LF], a);
    HeadEndResets(p, t, k, a);
  }

  /** What a message counts. */
  lemma MessageKept(p: Parser, t: seq<Event>, k: Track, a: Settings, m: Message)
    requires Awaits(p, m) && MessageOk(m) && a.answer.Proceed? && k.first
    ensures var k' := Kept(p, t, k, MessageText(m), a);
      k'.first && k'.c.n <= LeftOver(m) &&
      k'.c.top <= Max(k.c.top, Max(k.c.n + HeadLength(m), ContentLoad(m.content)))
  {
    hide Rest, Scan, Over, Kept, StartOk, HeadersOk, StartText, LinesText, FlagsAfter, LengthAfter, NewMessage,
        MessageNeedsEof, ContentText, LeftOver, ContentLoad, StartEvents, HeaderEvents;
    HeadersKeep(NO_FLAGS, NO_LENGTH, m.headers);
    var x, z := FirstPart(m), ContentText(m.content);
    var q := OverHead(p, t, a, m);
    var u := t + StartEvents(m.start) + HeaderEvents(m.headers);
    KeptBound(p, t, k, x, q, u, a);
    var h, v := OverHeadEnd(q, u, Kept(p, t, k, x, a), a);
    Chain(p, t, k, x, q, u, [LF], h, v, a);
    var r, w := ContentKept(p, q, h, v, Kept(p, t, k, x + [LF], a), a, m);
    Chain(p, t, k, x + [LF], h, v, z, r, w, a);
    HeadThenContent(m);
  }

  lemma HeadThenContent(m: Message)
    ensures MessageText(m) == FirstPart(m) + [LF] + ContentText(m.content) && |FirstPart(m)| + 1 == HeadLength(m)
  {
    hide StartText, LinesText, ContentText;
    assert LinesText(m.headers) + CRLF == LinesText(m.headers) + [CR] + [LF];
  }

  lemma ContentKept(p: Parser, q: Parser, h: Parser, t: seq<Event>, k: Track, a: Settings, m: Message)
      returns (r: Parser, u: seq<Event>)
    requires Awaits(p, m) && ContentOk(m) && HeadersOk(NO_FLAGS, m.headers) && a.answer.Proceed?
    requires k.first && k.c.n == 0
    requires HeadRead(p, q.(state := HeaderFieldStart), m) && FreshFlags(q.flags) && h.errno.OK? && !AsksToLeave(m)
    requires h == HeadersDoneStep(q.(upgrade := false, state := HeadersDone), LF).p
    ensures Over(h, t, ContentText(m.content), r, u, a)
    ensures var k' := Kept(h, t, k, ContentText(m.content), a);
      k'.first && k'.c.n <= LeftOver(m) && k'.c.top <= Max(k.c.top, ContentLoad(m.content))
  {
    hide Rest, Scan, Over, Kept, FlagsAfter, LengthAfter, NewMessage, MessageNeedsEof, ChunksText, HeadersOk, ChunkOk,
        HeaderOk;
    HeadersKeep(NO_FLAGS, NO_LENGTH, m.headers);
    if m.content.Chunked? {
      r, u := ChunkedKept(h, t, k, m, a);
    } else if m.content.Sized? && m.content.bytes != [] {
      r, u := BodyOver(h, t, m.content.bytes, a);
      BodyKept(h, t, k, m.content.bytes, 0, a);
      assert Kept(h, t, k, m.content.bytes, a) == Scan(h, t, k, m.content.bytes, 0, a).k by {
        KeptIs(h, t, k, m.content.bytes, a);
      }
    } else {
      OverNothing(h, t, k, a);
      r, u := h, t;
    }
  }

  lemma KeptIs(p: Parser, t: seq<Event>, k: Track, x: seq<Byte>, a: Settings)
    ensures Kept(p, t, k, x, a) == Scan(p, t, k, x, 0, a).k
  {
  }

  lemma BodyOver(p: Parser, t: seq<Event>, b: seq<Byte>, a: Settings) returns (q: Parser, u: seq<Event>)
    requires p.state.BodyIdentity? && p.errno.OK? && !p.upgrade && b != [] && p.contentLength == |b|
    ensures Over(p, t, b, q, u, a)
  {
    hide Rest, NewMessage;
    assert Stands(b, 0, b);
    ReadBody(p, [], b, 0, a, b);
    q := Finished(p.(contentLength := 0, state := MessageDone));
    var v := [Data(Body, b), OnMessageComplete];
    RestEnds(q, [] + v, b, a);
    TraceDoesNotMatter(p, [], t, b, 0, a);
    u := Rest(p, t, b, 0, a).trace;
  }

  /** A conversation never counts more than its header load. */
  lemma {:induction false} MessagesKept(p: Parser, t: seq<Event>, k: Track, a: Settings, ms: seq<Message>)
    requires Conversation(p, ms) && a.answer.Proceed? && k.first
    ensures var k' := Kept(p, t, k, MessagesText(ms), a); k'.c.top <= Max(k.c.top, HeaderLoad(k.c.n, ms))
    decreases |ms|
  {
    hide Rest, Scan, Over, Kept, MessageOk, MessageText, KeepsAlive, Told, Tells, Awaits, HeadLength, ContentLoad,
        LeftOver;
    if ms == [] {
      OverNothing(p, t, k, a);
    } else {
      var m := ms[0];
      assert m in ms;
      MessageKept(p, t, k, a, m);
      var r, u := MessageOver(p, t, a, m);
      var k' := Kept(p, t, k, MessageText(m), a);
      if |ms| > 1 {
        NextAwaits(p, r, ms);
        var q, v := ConversationOver(r, u, a, ms[1..]);
        MessagesKept(r, u, k', a, ms[1..]);
        Chain(p, t, k, MessageText(m), r, u, MessagesText(ms[1..]), q, v, a);
        LoadGrows(k'.c.n, LeftOver(m), ms[1..]);
      } else {
        assert ms[1..] == [] && MessagesText(ms) == MessageText(m) + [] == MessageText(m);
      }
    }
  }

  lemma LoadGrows(x: nat, y: nat, ms: seq<Message>)
    requires x <= y
    ensures HeaderLoad(x, ms) <= HeaderLoad(y, ms)
  {
    hide HeadLength, ContentLoad, LeftOver;
  }

  lemma MessageOver(p: Parser, t: seq<Event>, a: Settings, m: Message) returns (r: Parser, u: seq<Event>)
    requires Awaits(p, m) && MessageOk(m) && a.answer.Proceed?
    ensures Over(p, t, MessageText(m), r, u, a) && Told(p, r, m)
  {
    hide Rest, MessageText, MessageOk, Told, Awaits;
    assert p.errno.OK? by {
      AwaitsOk(p, m);
    }
    var s := MessageText(m);
    assert Stands(s, 0, s);
    r := ReadMessage(p, t, s, 0, a, m);
    u := t + MessageEvents(m);
    assert r.errno.OK? by {
      ToldIsTells(p, r, m);
    }
    RestEnds(r, u, s, a);
  }

  lemma AwaitsOk(p: Parser, m: Message)
    requires Awaits(p, m)
    ensures p.errno.OK?
  {
  }

  lemma ConversationOver(p: Parser, t: seq<Event>, a: Settings, ms: seq<Message>) returns (r: Parser, u: seq<Event>)
    requires Conversation(p, ms) && a.answer.Proceed?
    ensures Over(p, t, MessagesText(ms), r, u, a)
  {
    hide Rest, MessagesText;
    var s := MessagesText(ms);
    assert Stands(s, 0, s);
    r := ReadMessages(p, t, s, 0, a, ms);
    u := t + MessagesEvents(ms);
    RestEnds(r, u, s, a);
  }
}
