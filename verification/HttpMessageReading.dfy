/** How the machine reads bodies, and whole messages: a well-formed message is read as its parts. */
module HttpMessageReading {
  import opened HttpChars
  import opened HttpMachine
  import opened HttpRun
  import opened HttpFraming
  import opened HttpInvariant
  import opened HttpMessages
  import opened HttpHeaderReading
  import opened HttpReading
  import opened Options

  /** The parser behind a whole message. */
  function Finished(p: Parser): Parser { p.(state := NewMessage(p)) }

  // Bodies of a known length.

  lemma BodyStepIs(p: Parser, ch: Byte, a: Settings)
    requires PhaseOf(p.state).InBody?
    ensures Micro(p, ch, a) == BodyStep(p, ch)
  {
    hide BodyStep;
  }

  lemma ReadBody(p: Parser, t: seq<Event>, s: seq<Byte>, i: nat, a: Settings, b: seq<Byte>)
    requires p.state.BodyIdentity? && p.errno.OK? && !p.upgrade && NotIn(t, Body)
    requires b != [] && p.contentLength == |b| && Stands(s, i, b)
    ensures Rest(p, t, s, i, a) ==
            Rest(Finished(p.(contentLength := 0, state := MessageDone)), t + [Data(Body, b), OnMessageComplete], s,
                i + |b|, a)
  {
    hide Micro, Rest, Emit, NewMessage;
    var n := |b| - 1;
    var ps := seq(n + 1, k requires 0 <= k <= n => p.(contentLength := |b| - k));
    forall k | 0 <= k < n
      ensures Micro(ps[k], s[i + k], a) == Take(ps[k + 1], Body)
    {
      BodyStepIs(ps[k], s[i + k], a);
    }
    var u := if n == 0 then t else Emit(t, Data(Body, s[i..i + n]));
    if n > 0 {
      ManyTake(ps, Body, t, s, i, a);
    }
    StandsAt(s, i, b, n);
    LastByte(ps[n], u, s, i + n, a);
    BodyJoined(t, b[..n], b[n]);
    assert s[i..i + n] == s[i..i + |b|][..n];
    assert b[..n] + [b[n]] == b;
    NewData(t, Body, b);
    assert t + [Data(Body, b)] + [OnMessageComplete] == t + [Data(Body, b), OnMessageComplete];
  }

  lemma BodyJoined(t: seq<Event>, x: seq<Byte>, c: Byte)
    ensures Emit(if |x| == 0 then t else Emit(t, Data(Body, x)), Data(Body, [c])) == Emit(t, Data(Body, x + [c]))
  {
    if |x| == 0 {
      assert x + [c] == [c];
    } else {
      EmitData(t, Body, x, [c]);
    }
  }

  /** The last byte of a body, which is looked at twice. */
  lemma LastByte(p: Parser, t: seq<Event>, s: seq<Byte>, i: nat, a: Settings)
    requires p.state.BodyIdentity? && p.errno.OK? && !p.upgrade && p.contentLength == 1 && i < |s|
    ensures Rest(p, t, s, i, a) ==
            Rest(Finished(p.(contentLength := 0, state := MessageDone)),
                Emit(t, Data(Body, [s[i]])) + [OnMessageComplete], s, i + 1, a)
  {
    hide Micro, Emit, NewMessage;
    var q := p.(contentLength := 0, state := MessageDone);
    var u := Emit(t, Data(Body, [s[i]]));
    BodyStepIs(p, s[i], a);
    BodyStepIs(q, s[i], a);
    assert Micro(p, s[i], a) == Outcome(q, Some(Body), [], Again);
    assert Traced(t, Micro(p, s[i], a), s[i]) == u;
    NoteEmitted(u, OnMessageComplete);
  }

  lemma NoteEmitted(t: seq<Event>, e: Event)
    requires !e.Data?
    ensures EmitAll(t, [e]) == Emit(t, e) == t + [e]
  {
    assert EmitAll(t, [e]) == EmitAll(Emit(t, e), [e][1..]);
  }

  // Chunks.

  lemma ChunkStepIs(p: Parser, ch: Byte, a: Settings)
    requires PhaseOf(p.state).InChunks?
    ensures Micro(p, ch, a) == ChunkStep(p, ch)
  {
    hide ChunkStep;
  }

  lemma SizeDigitIs(c: Byte)
    requires SizeDigit(c)
    ensures 0 <= Unhex(c) < 16 && c != CR
  {
  }

  lemma {:induction false} SizeGrows(s: seq<Byte>, k: nat)
    requires k < |s| && forall j :: 0 <= j < |s| ==> SizeDigit(s[j])
    ensures SizeValue(s[..k + 1]) == SizeValue(s[..k]) * 16 + Unhex(s[k])
    ensures SizeValue(s[..k]) * 16 <= SizeValue(s)
    decreases |s|
  {
    hide Unhex;
    var r := s[..|s| - 1];
    if k + 1 == |s| {
      assert s[..k] == r && s[..k + 1] == s;
    } else {
      SizeGrows(r, k);
      assert r[..k] == s[..k] && r[..k + 1] == s[..k + 1];
    }
  }

  predicate SizeDigits(x: seq<Byte>) { x != [] && forall k :: 0 <= k < |x| ==> SizeDigit(x[k]) }

  lemma ReadSizeDigit(p: Parser, x: seq<Byte>, k: nat, a: Settings)
    requires SizeDigits(x) && SizeValue(x) <= NO_LENGTH - 16 && k < |x|
    requires if k == 0 then p.state.ChunkSizeStart? else p.state.ChunkSize? && p.contentLength == SizeValue(x[..k])
    ensures Micro(p, x[k], a) == Move(p.(state := ChunkSize, contentLength := SizeValue(x[..k + 1])))
  {
    hide Micro, Unhex, Accumulate;
    ChunkStepIs(p, x[k], a);
    SizeDigitIs(x[k]);
    SizeGrows(x, k);
    if k == 0 {
      assert x[..0] == [];
    } else {
      RoomForHexDigit(SizeValue(x[..k]), SizeValue(x));
      AccumulatorExact(SizeValue(x[..k]), 16, Unhex(x[k]));
    }
  }

  lemma RoomForHexDigit(x: nat, n: nat)
    requires x * 16 <= n <= NO_LENGTH - 16
    ensures !AccumulatorFull(x, 16)
  {
  }

  lemma ReadSizeDigits(p: Parser, t: seq<Event>, s: seq<Byte>, i: nat, a: Settings, x: seq<Byte>)
    requires p.state.ChunkSizeStart? && p.errno.OK? && SizeDigits(x) && SizeValue(x) <= NO_LENGTH - 16
    requires Stands(s, i, x)
    ensures Rest(p, t, s, i, a) == Rest(p.(state := ChunkSize, contentLength := SizeValue(x)), t, s, i + |x|, a)
  {
    hide Micro, Rest, SizeValue, Unhex;
    var n := |x|;
    var ps := seq(n + 1, k requires 0 <= k <= n => if k == 0 then p
        else p.(state := ChunkSize, contentLength := SizeValue(x[..k])));
    forall k | 0 <= k < n
      ensures Micro(ps[k], s[i + k], a) == Move(ps[k + 1])
    {
      StandsAt(s, i, x, k);
      ReadSizeDigit(ps[k], x, k, a);
    }
    ManyMove(ps, t, s, i, a);
    assert x[..n] == x;
  }

  lemma ParameterByte(p: Parser, c: Byte, a: Settings)
    requires (p.state.ChunkSize? && (c == ';' || c == ' ')) || (p.state.ChunkParameters? && c != CR)
    ensures Micro(p, c, a) == Move(p.(state := ChunkParameters))
  {
    hide Micro, Accumulate;
    ChunkStepIs(p, c, a);
  }

  function AfterParameters(p: Parser, x: seq<Byte>): Parser { if x == [] then p else p.(state := ChunkParameters) }

  lemma ReadParameters(p: Parser, t: seq<Event>, s: seq<Byte>, i: nat, a: Settings, x: seq<Byte>)
    requires p.state.ChunkSize? && p.errno.OK? && Stands(s, i, x)
    requires OneLine(x) && (x != [] ==> x[0] == ';' || x[0] == ' ')
    ensures Rest(p, t, s, i, a) == Rest(AfterParameters(p, x), t, s, i + |x|, a)
  {
    hide Micro, Rest;
    var n := |x|;
    var ps := seq(n + 1, k requires 0 <= k <= n => if k == 0 then p else p.(state := ChunkParameters));
    forall k | 0 <= k < n
      ensures Micro(ps[k], s[i + k], a) == Move(ps[k + 1])
    {
      StandsAt(s, i, x, k);
      ParameterByte(ps[k], s[i + k], a);
    }
    ManyMove(ps, t, s, i, a);
  }

  /** The parser at the first byte of a chunk, or of the trailers. */
  function AfterSize(p: Parser, n: nat): Parser {
    if n == 0 then p.(contentLength := 0, flags := p.flags.(trailing := true), state := HeaderFieldStart)
    else p.(contentLength := n, state := ChunkData)
  }

  lemma SizeLineSteps(p: Parser, a: Settings)
    ensures p.state.ChunkSize? || p.state.ChunkParameters? ==> Micro(p, CR, a) == Move(p.(state := ChunkSizeAlmostDone))
    ensures p.state.ChunkSizeAlmostDone? ==>
      Micro(p, LF, a) == Outcome(AfterSize(p, p.contentLength), None, [OnChunkHeader(p.contentLength)], Advance)
  {
    hide Micro, Accumulate;
    if PhaseOf(p.state).InChunks? {
      ChunkStepIs(p, CR, a);
      ChunkStepIs(p, LF, a);
    }
  }

  lemma SizeLineEnd(p: Parser, t: seq<Event>, s: seq<Byte>, i: nat, a: Settings)
    requires (p.state.ChunkSize? || p.state.ChunkParameters?) && p.errno.OK? && Stands(s, i, CRLF)
    ensures Rest(p, t, s, i, a) == Rest(AfterSize(p, p.contentLength), t + [OnChunkHeader(p.contentLength)], s,
        i + 2, a)
  {
    hide Micro, Rest, Stands, Emit;
    StandsAt(s, i, CRLF, 0);
    StandsAt(s, i, CRLF, 1);
    var q := p.(state := ChunkSizeAlmostDone);
    SizeLineSteps(p, a);
    Moves(p, q, t, s, i, a);
    SizeLineSteps(q, a);
    NoteEmitted(t, OnChunkHeader(p.contentLength));
    Notes(q, AfterSize(p, p.contentLength), OnChunkHeader(p.contentLength), t, s, i + 1, a);
  }

  lemma ReadSize(p: Parser, t: seq<Event>, s: seq<Byte>, i: nat, a: Settings, c: Chunk)
    requires p.state.ChunkSizeStart? && p.errno.OK? && ChunkOk(c) && Stands(s, i, SizeText(c))
    ensures Rest(p, t, s, i, a) == Rest(AfterSize(p, |c.bytes|), t + [OnChunkHeader(|c.bytes|)], s,
        i + |SizeText(c)|, a)
  {
    hide Rest, Stands, SizeValue, Unhex, OneLine;
    StandsBoth(s, i, c.size + c.parameters, CRLF);
    StandsBoth(s, i, c.size, c.parameters);
    ReadSizeDigits(p, t, s, i, a, c.size);
    var q := p.(state := ChunkSize, contentLength := |c.bytes|);
    ReadParameters(q, t, s, i + |c.size|, a, c.parameters);
    SizeLineEnd(AfterParameters(q, c.parameters), t, s, i + |c.size| + |c.parameters|, a);
  }

  /** A byte of 128 or more where a size should be: read as the digit 0, it announces the last chunk. */
  lemma HighByteEndsChunks(p: Parser, t: seq<Event>, s: seq<Byte>, i: nat, a: Settings, c: Byte)
    requires p.state.ChunkSizeStart? && p.errno.OK? && c as int >= 128 && Stands(s, i, [c] + CRLF)
    ensures Rest(p, t, s, i, a) ==
            Rest(p.(contentLength := 0, flags := p.flags.(trailing := true), state := HeaderFieldStart),
                 t + [OnChunkHeader(0)], s, i + 3, a)
  {
    hide Rest, Stands;
    var z := Chunk([c], [], []);
    assert SizeText(z) == [c] + CRLF;
    assert SizeValue([c]) == SizeValue([c][..0]) * 16 + Unhex(c) == 0;
    ReadSize(p, t, s, i, a, z);
  }

  lemma TakeChunkBytes(p: Parser, t: seq<Event>, s: seq<Byte>, i: nat, a: Settings, b: seq<Byte>)
    requires p.state.ChunkData? && p.errno.OK? && b != [] && p.contentLength == |b| && Stands(s, i, b)
    ensures Rest(p, t, s, i, a) ==
            Rest(p.(contentLength := 0, state := ChunkDataAlmostDone), Emit(t, Data(Body, b)), s, i + |b|, a)
  {
    hide Micro, Rest, Accumulate, Emit;
    var n := |b|;
    var ps := seq(n + 1, k requires 0 <= k <= n =>
      if k == n then p.(contentLength := 0, state := ChunkDataAlmostDone) else p.(contentLength := n - k));
    forall k | 0 <= k < n
      ensures Micro(ps[k], s[i + k], a) == Take(ps[k + 1], Body)
    {
      ChunkStepIs(ps[k], s[i + k], a);
    }
    ManyTake(ps, Body, t, s, i, a);
  }

  lemma ReadChunkBytes(p: Parser, t: seq<Event>, s: seq<Byte>, i: nat, a: Settings, b: seq<Byte>)
    requires p.state.ChunkData? && p.errno.OK? && NotIn(t, Body) && b != [] && p.contentLength == |b| && Stands(s, i, b)
    ensures Rest(p, t, s, i, a) == Rest(p.(contentLength := 0, state := ChunkDataAlmostDone), t + [Data(Body, b)],
        s, i + |b|, a)
  {
    hide Rest;
    TakeChunkBytes(p, t, s, i, a, b);
    NewData(t, Body, b);
  }

  lemma ChunkEndSteps(p: Parser, a: Settings)
    ensures p.state.ChunkDataAlmostDone? ==> Micro(p, CR, a) == Move(p.(state := ChunkDataDone))
    ensures p.state.ChunkDataDone? ==>
      Micro(p, LF, a) == Outcome(p.(state := ChunkSizeStart), None, [OnChunkComplete], Advance)
  {
    hide Micro, Accumulate;
    if PhaseOf(p.state).InChunks? {
      ChunkStepIs(p, CR, a);
      ChunkStepIs(p, LF, a);
    }
  }

  lemma ChunkEnd(p: Parser, t: seq<Event>, s: seq<Byte>, i: nat, a: Settings)
    requires p.state.ChunkDataAlmostDone? && p.errno.OK? && Stands(s, i, CRLF)
    ensures Rest(p, t, s, i, a) == Rest(p.(state := ChunkSizeStart), t + [OnChunkComplete], s, i + 2, a)
  {
    hide Micro, Rest, Stands, Emit;
    StandsAt(s, i, CRLF, 0);
    StandsAt(s, i, CRLF, 1);
    var q := p.(state := ChunkDataDone);
    ChunkEndSteps(p, a);
    Moves(p, q, t, s, i, a);
    ChunkEndSteps(q, a);
    NoteEmitted(t, OnChunkComplete);
    Notes(q, p.(state := ChunkSizeStart), OnChunkComplete, t, s, i + 1, a);
  }

  lemma {:induction false} ReadChunks(p: Parser, t: seq<Event>, s: seq<Byte>, i: nat, a: Settings, cs: seq<Chunk>)
      returns (r: Parser)
    requires p.state.ChunkSizeStart? && p.errno.OK? && (forall c :: c in cs ==> ChunkOk(c) && c.bytes != []) &&
        Stands(s, i, ChunksText(cs))
    ensures r == p.(contentLength := r.contentLength)
    ensures Rest(p, t, s, i, a) == Rest(r, t + ChunkEvents(cs), s, i + |ChunksText(cs)|, a)
    decreases |cs|
  {
    hide Rest, Stands, ChunkOk;
    if cs == [] {
      r := p;
      assert t + [] == t;
    } else {
      var c := cs[0];
      var b, z := c.bytes, SizeText(c);
      assert ChunksText(cs) == z + b + CRLF + ChunksText(cs[1..]);
      StandsBoth(s, i, z + b + CRLF, ChunksText(cs[1..]));
      StandsBoth(s, i, z + b, CRLF);
      StandsBoth(s, i, z, b);
      ReadSize(p, t, s, i, a, c);
      var q1, t1 := AfterSize(p, |b|), t + [OnChunkHeader(|b|)];
      ReadChunkBytes(q1, t1, s, i + |z|, a, b);
      var q2, t2 := q1.(contentLength := 0, state := ChunkDataAlmostDone), t1 + [Data(Body, b)];
      ChunkEnd(q2, t2, s, i + |z| + |b|, a);
      var t3 := t2 + [OnChunkComplete];
      r := ReadChunks(q2.(state := ChunkSizeStart), t3, s, i + |z| + |b| + 2, a, cs[1..]);
      assert t3 + ChunkEvents(cs[1..]) == t + ChunkEvents(cs);
    }
  }

  /** After the last chunk: the trailers, and the end of the message. */
  lemma ReadTrailers(p: Parser, t: seq<Event>, s: seq<Byte>, i: nat, a: Settings, hs: seq<Header>) returns (r: Parser)
    requires p.state.HeaderFieldStart? && p.flags.trailing && p.errno.OK? && !p.upgrade && NotIn(t, Field)
    requires (forall h :: h in hs ==> HeaderOk(h) && !Special(h)) && Stands(s, i, HeadersText(hs))
    ensures r == p.(header := r.header, index := r.index, state := NewMessage(p))
    ensures Rest(p, t, s, i, a) == Rest(r, t + HeaderEvents(hs) + [OnChunkComplete, OnMessageComplete], s,
        i + |HeadersText(hs)|, a)
  {
    hide Rest, Micro, HeaderOk, Special, LinesText, NewMessage, HeadersOk;
    TrailersSayNothing(p.flags, p.contentLength, hs);
    var u, j := t + HeaderEvents(hs), i + |LinesText(hs)|;
    StandsBoth(s, i, LinesText(hs), CRLF);
    EmptyLineNext(s, j);
    var q := ReadHeaders(p, t, s, i, a, hs);
    TrailersEnd(q, u, s, j, a);
    NewMessageIs(p, q);
    r := Finished(q.(state := MessageDone));
  }

  lemma EmptyLineNext(s: seq<Byte>, i: nat)
    requires Stands(s, i, CRLF)
    ensures NoFold(s, i) && s[i] == CR
  {
    StandsAt(s, i, CRLF, 0);
  }

  /** Whether another message may follow does not depend on how this one was matched. */
  lemma NewMessageIs(p: Parser, q: Parser)
    requires q == p.(header := q.header, index := q.index)
    ensures NewMessage(q.(state := MessageDone)) == NewMessage(p)
  {
  }

  lemma TrailerSteps(p: Parser, a: Settings)
    requires p.flags.trailing && !p.upgrade
    ensures var q1, q2 := p.(state := HeadersAlmostDone), p.(state := MessageDone);
      && Micro(q1, LF, a) == Outcome(q2, None, [OnChunkComplete], Again)
      && Micro(q2, LF, a) == Outcome(Finished(q2), None, [OnMessageComplete], Advance)
  {
    hide Micro, NewMessage;
    EmptyLine(p.(state := HeadersAlmostDone), a);
    BodyStepIs(p.(state := MessageDone), LF, a);
  }

  lemma TrailersEnd(p: Parser, t: seq<Event>, s: seq<Byte>, i: nat, a: Settings)
    requires p.state.HeaderFieldStart? && p.flags.trailing && p.errno.OK? && !p.upgrade && Stands(s, i, CRLF)
    ensures Rest(p, t, s, i, a) == Rest(Finished(p.(state := MessageDone)),
        t + [OnChunkComplete, OnMessageComplete], s, i + 2, a)
  {
    hide Micro, Rest, NewMessage, Emit, EmitAll, Stands, HeadersAlmostDoneStep, BodyStep;
    StandsAt(s, i, CRLF, 0);
    StandsAt(s, i, CRLF, 1);
    var q1, q2 := p.(state := HeadersAlmostDone), p.(state := MessageDone);
    EmptyLine(p, a);
    Moves(p, q1, t, s, i, a);
    TrailerSteps(p, a);
    Repeats(q1, q2, [OnChunkComplete], t, s, i + 1, a);
    NoteEmitted(t, OnChunkComplete);
    NoteEmitted(t + [OnChunkComplete], OnMessageComplete);
    Notes(q2, Finished(q2), OnMessageComplete, t + [OnChunkComplete], s, i + 1, a);
    assert t + [OnChunkComplete] + [OnMessageComplete] == t + [OnChunkComplete, OnMessageComplete];
  }

  /** The two bytes of the empty line, and the second look at the second one. */
  lemma EmptyLine(p: Parser, a: Settings)
    ensures p.state.HeaderFieldStart? ==> Micro(p, CR, a) == Move(p.(state := HeadersAlmostDone))
    ensures p.state.HeadersAlmostDone? ==> Micro(p, LF, a) == HeadersAlmostDoneStep(p, LF, a.answer)
    ensures p.state.HeadersDone? ==> Micro(p, LF, a) == HeadersDoneStep(p, LF)
  {
    hide HeadersAlmostDoneStep, HeadersDoneStep;
  }

  // Heads.

  /** The flags that only the machine itself sets. */
  predicate FreshFlags(f: Flags) { !f.trailing && !f.skipBody }

  /** After the headers of a message: what they say is in the parser. */
  predicate HeadRead(p: Parser, q: Parser, m: Message) {
    && q.state.HeaderFieldStart? && q.errno.OK? && q.kind == p.kind
    && q.flags == FlagsOf(m) && q.contentLength == LengthAfter(NO_LENGTH, m.headers)
    && q.major == Decimal(m.start.major) && q.minor == Decimal(m.start.minor)
    && if m.start.RequestLine? then q.verb == m.start.verb else q.verb == p.verb && q.status == Decimal(m.start.status)
  }

  /** The parser is ready for this kind of message. */
  predicate Awaits(p: Parser, m: Message) {
    && p.errno.OK?
    && if m.start.RequestLine? then p.kind.Request? && p.state.StartReq?
       else p.kind.Response? && p.state.StartRes? && !p.verb.CONNECT?
  }

  /** The first line and the header lines, up to what follows them. */
  lemma ReadHead(p: Parser, t: seq<Event>, s: seq<Byte>, i: nat, a: Settings, m: Message) returns (q: Parser)
    requires Awaits(p, m) && StartOk(m.start) && HeadersOk(NO_FLAGS, m.headers)
    requires Stands(s, i, StartText(m.start) + LinesText(m.headers))
    requires NoFold(s, i + |StartText(m.start)| + |LinesText(m.headers)|)
    ensures HeadRead(p, q, m)
    ensures Rest(p, t, s, i, a) ==
            Rest(q, t + StartEvents(m.start) + HeaderEvents(m.headers), s,
                 i + |StartText(m.start)| + |LinesText(m.headers)|, a)
  {
    hide Rest, Stands, StartOk, HeadersOk, FlagsAfter, LengthAfter, Decimal, StartText, LinesText;
    StandsBoth(s, i, StartText(m.start), LinesText(m.headers));
    var u, j := t + StartEvents(m.start), i + |StartText(m.start)|;
    if m.start.RequestLine? {
      ReadRequestLine(p, t, s, i, a, m.start);
      q := ReadHeaders(AfterRequestLine(p, m.start), u, s, j, a, m.headers);
    } else {
      ReadStatusLine(p, t, s, i, a, m.start);
      q := ReadHeaders(AfterStatusLine(p, m.start), u, s, j, a, m.headers);
    }
  }

  /** The empty line after the headers of a message that stays in HTTP. */
  lemma HeadEnd(p: Parser, t: seq<Event>, s: seq<Byte>, i: nat, a: Settings)
    requires p.state.HeaderFieldStart? && FreshFlags(p.flags) && p.errno.OK? && a.answer.Proceed? && Stands(s, i, CRLF)
    requires !(p.flags.chunked && p.flags.contentLength) && !(p.flags.upgrade && p.flags.connectionUpgrade) &&
        !p.verb.CONNECT?
    ensures var q := p.(upgrade := false, state := HeadersDone);
            var o := HeadersDoneStep(q, LF);
            && o.p.errno.OK? && o.take.None?
            && Rest(p, t, s, i, a) == Rest(o.p, EmitAll(t +
                [OnHeadersComplete(p.contentLength, p.flags.chunked, false, MessageNeedsEof(p))], o.notes), s, i + 2, a)
  {
    hide Micro, MessageNeedsEof, NewMessage, HasBody;
    StandsAt(s, i, CRLF, 0);
    StandsAt(s, i, CRLF, 1);
    var q1, q2 := p.(state := HeadersAlmostDone), p.(upgrade := false, state := HeadersDone);
    var e := OnHeadersComplete(p.contentLength, p.flags.chunked, false, MessageNeedsEof(p));
    EmptyLine(p, a);
    EmptyLine(q1, a);
    EmptyLine(q2, a);
    HeadIsComplete(p, a.answer);
    NoteEmitted(t, e);
    hide Rest;
    Moves(p, q1, t, s, i, a);
    Repeats(q1, q2, [e], t, s, i + 1, a);
    Rests(q2, HeadersDoneStep(q2, LF), t + [e], s, i + 1, a);
  }

  lemma Rests(p: Parser, o: Outcome, t: seq<Event>, s: seq<Byte>, i: nat, a: Settings)
    requires i < |s| && p.errno.OK? && o.p.errno.OK? && o.take.None? && o.next.Advance? && Micro(p, s[i], a) == o
    ensures Rest(p, t, s, i, a) == Rest(o.p, EmitAll(t, o.notes), s, i + 1, a)
  {
    hide Micro;
  }

  lemma HeadIsComplete(p: Parser, answer: Answer)
    requires FreshFlags(p.flags) && answer.Proceed?
    requires !(p.flags.chunked && p.flags.contentLength) && !(p.flags.upgrade && p.flags.connectionUpgrade) &&
        !p.verb.CONNECT?
    ensures HeadersAlmostDoneStep(p.(state := HeadersAlmostDone), LF, answer) ==
            Outcome(p.(upgrade := false, state := HeadersDone), None,
                    [OnHeadersComplete(p.contentLength, p.flags.chunked, false, MessageNeedsEof(p))], Again)
  {
  }

  /** The headers set no other flags, and a Content-Length is never the sentinel. */
  lemma {:induction false} HeadersKeep(f: Flags, n: nat, hs: seq<Header>)
    requires HeadersOk(f, hs) && FreshFlags(f) && (if f.contentLength then n <= NO_LENGTH - 10 else n == NO_LENGTH)
    ensures var g := FlagsAfter(f, hs);
        FreshFlags(g) &&
        if g.contentLength then LengthAfter(n, hs) <= NO_LENGTH - 10 else LengthAfter(n, hs) == NO_LENGTH
    decreases |hs|
  {
    hide Decimal, Visible, Token, Says, LowerAll;
    if hs != [] {
      HeadersKeep(FlagsAfterOne(f, hs[0]), LengthAfterOne(n, hs[0]), hs[1..]);
    }
  }

  // Whole messages.

  /** The parser after a message: what its first line and its headers said, and whether another message may follow. */
  predicate Tells(r: Parser, m: Message) {
    && r.errno.OK? && !r.upgrade
    && r.state == (if KeepsAlive(m) then StartState(r) else Dead)
    && r.flags == FlagsOf(m).(trailing := m.content.Chunked?)
    && r.major == Decimal(m.start.major) && r.minor == Decimal(m.start.minor)
    && if m.start.RequestLine? then r.verb == m.start.verb else r.status == Decimal(m.start.status)
  }

  predicate Told(p: Parser, r: Parser, m: Message) {
    Tells(r, m) && r.kind == p.kind && (m.start.StatusLine? ==> r.verb == p.verb)
  }

  /** The state behind a message with these fields. */
  lemma NewMessageTold(p: Parser, q: Parser, m: Message)
    requires Awaits(p, m) && q.kind == p.kind && q.major == Decimal(m.start.major) && q.minor == Decimal(m.start.minor)
    requires q.flags == FlagsOf(m).(trailing := q.flags.trailing) && !q.flags.skipBody
    requires m.start.StatusLine? ==> q.status == Decimal(m.start.status)
    requires q.flags.chunked || q.contentLength != NO_LENGTH || Bodiless(m.start)
    ensures !MessageNeedsEof(q) && NewMessage(q) == if KeepsAlive(m) then StartState(p) else Dead
  {
    hide Decimal, FlagsAfter;
  }

  lemma ReadContent(p: Parser, q: Parser, t: seq<Event>, s: seq<Byte>, i: nat, a: Settings, m: Message)
      returns (r: Parser)
    requires Awaits(p, m) && MessageOk(m) && HeadRead(p, q, m) && a.answer.Proceed? &&
        Stands(s, i, CRLF + ContentText(m.content))
    ensures Told(p, r, m)
    ensures Rest(q, t, s, i, a) ==
            Rest(r, t + [OnHeadersComplete(LengthAfter(NO_LENGTH, m.headers), FlagsOf(m).chunked, false, false)] +
                ContentEvents(m.content) + [OnMessageComplete],
                 s, i + 2 + |ContentText(m.content)|, a)
  {
    hide Rest, Stands, FlagsAfter, LengthAfter, Decimal, HeaderOk, HeadersOk, StartOk, KeepsAlive, NewMessage,
        MessageNeedsEof, ChunkOk, ContentText, ContentEvents, Told;
    HeadersKeep(NO_FLAGS, NO_LENGTH, m.headers);
    StandsBoth(s, i, CRLF, ContentText(m.content));
    HeadEnd(q, t, s, i, a);
    var u := t + [OnHeadersComplete(q.contentLength, q.flags.chunked, false, false)];
    var h := q.(upgrade := false, state := HeadersDone);
    NewMessageTold(p, q, m);
    if m.content.Chunked? {
      r := ReadChunkedContent(p, h.(state := ChunkSizeStart), u, s, i + 2, a, m);
    } else {
      hide MessageOk;
      r := ReadPlainContent(p, h, u, s, i + 2, a, m);
    }
  }

  /** After the head: a body of the announced length, or none. */
  lemma ReadPlainContent(p: Parser, h: Parser, t: seq<Event>, s: seq<Byte>, i: nat, a: Settings, m: Message)
      returns (r: Parser)
    requires Awaits(p, m) && ContentOk(m) && !m.content.Chunked? && NotIn(t, Body)
    requires Stands(s, i, ContentText(m.content))
    requires HeadRead(p, h.(state := HeaderFieldStart), m) && FreshFlags(h.flags) && h.state.HeadersDone? && !h.upgrade
    requires if h.flags.contentLength then h.contentLength <= NO_LENGTH - 10 else h.contentLength == NO_LENGTH
    ensures Told(p, r, m)
    ensures var o := HeadersDoneStep(h, LF);
      Rest(o.p, EmitAll(t, o.notes), s, i, a) ==
      Rest(r, t + ContentEvents(m.content) + [OnMessageComplete], s, i + |ContentText(m.content)|, a)
  {
    hide Rest, Stands, FlagsAfter, LengthAfter, Decimal, KeepsAlive, NewMessage, MessageNeedsEof;
    NewMessageTold(p, h, m);
    if m.content.Sized? && m.content.bytes != [] {
      AfterBody(p, h, m);
      hide HeadRead, Awaits, Told;
      ReadBody(h.(state := BodyIdentity), t, s, i, a, m.content.bytes);
      r := Finished(h.(contentLength := 0, state := MessageDone));
      assert t + [Data(Body, m.content.bytes), OnMessageComplete] == t + ContentEvents(m.content) + [OnMessageComplete];
    } else {
      r := Finished(h);
      NoteEmitted(t, OnMessageComplete);
      assert t + [] == t;
    }
  }

  lemma AfterBody(p: Parser, h: Parser, m: Message)
    requires Awaits(p, m) && ContentOk(m) && m.content.Sized? && m.content.bytes != []
    requires HeadRead(p, h.(state := HeaderFieldStart), m) && FreshFlags(h.flags) && !h.upgrade
    requires h.flags.contentLength ==> h.contentLength <= NO_LENGTH - 10
    ensures Told(p, Finished(h.(contentLength := 0, state := MessageDone)), m)
    ensures h.contentLength == |m.content.bytes| && h.errno.OK? && h.flags.contentLength && !h.flags.chunked
    ensures HeadersDoneStep(h, LF) == Outcome(h.(state := BodyIdentity), None, [], Advance)
  {
    hide FlagsAfter, LengthAfter, Decimal, KeepsAlive, NewMessage, MessageNeedsEof;
    NewMessageTold(p, h.(contentLength := 0, state := MessageDone), m);
  }

  lemma ReadChunkedContent(p: Parser, q: Parser, t: seq<Event>, s: seq<Byte>, i: nat, a: Settings, m: Message)
      returns (r: Parser)
    requires Awaits(p, m) && ContentOk(m) && m.content.Chunked? && Stands(s, i, ContentText(m.content))
    requires HeadRead(p, q.(state := HeaderFieldStart, contentLength := LengthAfter(NO_LENGTH, m.headers)), m)
    requires q.state.ChunkSizeStart? && FreshFlags(q.flags) && q.flags.chunked && !q.upgrade
    ensures Told(p, r, m)
    ensures Rest(q, t, s, i, a) == Rest(r, t + ContentEvents(m.content) + [OnMessageComplete], s,
        i + |ContentText(m.content)|, a)
  {
    hide Rest, Stands, FlagsAfter, LengthAfter, Decimal, HeaderOk, Special, KeepsAlive, NewMessage, MessageNeedsEof,
        ChunkOk, SizeText, ChunksText, HeadersText;
    var cs, z, hs := m.content.chunks, m.content.last, m.content.trailers;
    StandsBoth(s, i, ChunksText(cs) + SizeText(z), HeadersText(hs));
    StandsBoth(s, i, ChunksText(cs), SizeText(z));
    var j := i + |ChunksText(cs)|;
    var q1 := ReadChunks(q, t, s, i, a, cs);
    var t1 := t + ChunkEvents(cs);
    ReadSize(q1, t1, s, j, a, z);
    var q2, t2 := AfterSize(q1, 0), t1 + [OnChunkHeader(0)];
    r := ReadTrailers(q2, t2, s, j + |SizeText(z)|, a, hs);
    NewMessageTold(p, q2, m);
    assert t2 + HeaderEvents(hs) + [OnChunkComplete, OnMessageComplete] == t + ContentEvents(m.content) +
        [OnMessageComplete];
  }

  /** A well-formed message is read as its parts: exactly its callbacks, and its first line and headers told. */
  lemma ReadMessage(p: Parser, t: seq<Event>, s: seq<Byte>, i: nat, a: Settings, m: Message) returns (r: Parser)
    requires Awaits(p, m) && MessageOk(m) && a.answer.Proceed? && Stands(s, i, MessageText(m))
    ensures Told(p, r, m)
    ensures Rest(p, t, s, i, a) == Rest(r, t + MessageEvents(m), s, i + |MessageText(m)|, a)
  {
    hide Rest, Stands, Told, ContentText, StartText, LinesText, ContentOk, AsksToLeave, FlagsAfter, LengthAfter,
        StartOk, HeadersOk, HeadRead;
    var head, body := StartText(m.start) + LinesText(m.headers), CRLF + ContentText(m.content);
    MessageParts(m);
    StandsBoth(s, i, head, body);
    StandsBoth(s, i + |head|, CRLF, ContentText(m.content));
    EmptyLineNext(s, i + |head|);
    var q := ReadHead(p, t, s, i, a, m);
    var u := t + StartEvents(m.start) + HeaderEvents(m.headers);
    r := ReadContent(p, q, u, s, i + |head|, a, m);
    EventParts(t, m);
  }

  lemma MessageParts(m: Message)
    ensures MessageText(m) == StartText(m.start) + LinesText(m.headers) + (CRLF + ContentText(m.content))
  {
    hide StartText, LinesText, ContentText, CRLF;
    var x, y, z := StartText(m.start), LinesText(m.headers), ContentText(m.content);
    AppendTwice(x, y, CRLF);
    AppendTwice(x + y, CRLF, z);
  }

  lemma EventParts(t: seq<Event>, m: Message)
    ensures var e := OnHeadersComplete(LengthAfter(NO_LENGTH, m.headers), FlagsOf(m).chunked, false, false);
      t + StartEvents(m.start) + HeaderEvents(m.headers) + [e] + ContentEvents(m.content) + [OnMessageComplete] ==
      t + MessageEvents(m)
  {
    hide StartEvents, HeaderEvents, ContentEvents, LengthAfter, FlagsAfter;
    var e := OnHeadersComplete(LengthAfter(NO_LENGTH, m.headers), FlagsOf(m).chunked, false, false);
    var x, y, z := StartEvents(m.start), HeaderEvents(m.headers), ContentEvents(m.content);
    AppendTwice(t, x, y);
    AppendTwice(t, x + y, [e]);
    AppendTwice(t, x + y + [e], z);
    AppendTwice(t, x + y + [e] + z, [OnMessageComplete]);
  }
}
