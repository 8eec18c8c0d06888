/** What follows for whole connections: cutting the input does not matter, and bodies are framed. */
module HttpTheorems {
  import opened HttpChars
  import opened HttpMachine
  import opened HttpRun
  import opened HttpCalls
  import opened HttpFraming
  import opened HttpInvariant
  import opened HttpMarks
  import opened HttpParsing
  import opened Options
  import opened Pieces

  /** After some calls: parser, joined callbacks, count of header bytes, and the greatest count checked. */
  datatype Progress = Progress(p: Parser, t: seq<Event>, n: nat, top: nat)

  /** One call after the other; after an error a call does nothing. */
  function Calls(p: Parser, t: seq<Event>, n: nat, pieces: seq<seq<Byte>>, a: Settings): Progress {
    if pieces == [] then Progress(p, t, n, 0)
    else
      var c := Calls(p, t, n, pieces[..|pieces| - 1], a);
      if !c.p.errno.OK? then c
      else
        var e := Call(c.p, c.t, c.n, pieces[|pieces| - 1], a);
        var k := CountAfter(e);
        Progress(e.f.p, e.f.trace, k.n, Max(k.top, c.top))
  }

  /** Feeding pieces call by call does what the calls say, and reports header overflow only past the limit. */
  method ExecuteAll(parser: HttpParser, pieces: seq<seq<Byte>>, answer: Answer)
    requires parser.Valid() && parser.errno.OK?
    requires forall x :: x in pieces ==> 0 < |x| < EXACT_PIECE
    modifies parser
    ensures parser.Valid() && parser.lenient == old(parser.lenient)
    ensures
      var a := Settings(answer, parser.lenient);
      var c := Calls(old(parser.View()), old(Join(parser.trace)), old(parser.nread), pieces, a);
      && (parser.errno.OK? <==> c.p.errno.OK? && c.top <= MAX_HEADER_SIZE)
      && (parser.errno.OK? ==> parser.View() == c.p && Join(parser.trace) == c.t && parser.nread == c.n)
      && (parser.errno.HeaderOverflow? ==> c.top > MAX_HEADER_SIZE)
      && (!parser.errno.OK? && !parser.errno.HeaderOverflow? ==> parser.errno == c.p.errno)
  {
    hide Inv, AuditOf, Call, Emit, CountAfter;
    ghost var p0, t0, n0 := parser.View(), Join(parser.trace), parser.nread;
    ghost var a := Settings(answer, parser.lenient);
    for i := 0 to |pieces|
      invariant parser.Valid() && parser.lenient == a.lenient
      invariant var c := Calls(p0, t0, n0, pieces[..i], a);
        && (parser.errno.OK? <==> c.p.errno.OK? && c.top <= MAX_HEADER_SIZE)
        && (parser.errno.OK? ==> parser.View() == c.p && Join(parser.trace) == c.t && parser.nread == c.n)
        && (parser.errno.HeaderOverflow? ==> c.top > MAX_HEADER_SIZE)
        && (!parser.errno.OK? && !parser.errno.HeaderOverflow? ==> parser.errno == c.p.errno)
    {
      assert pieces[..i + 1][..i] == pieces[..i];
      var n := parser.Execute(pieces[i], answer);
    }
    assert pieces[..|pieces|] == pieces;
  }

  /** The pieces of a cut are not empty. */
  predicate CutOf(pieces: seq<seq<Byte>>, data: seq<Byte>) {
    Flatten(pieces) == data && forall x :: x in pieces ==> x != []
  }

  /** After the bytes before it the machine is in a header value, so the byte at i belongs to the value or ends it. */
  predicate ValueByteAt(p: Parser, t: seq<Event>, data: seq<Byte>, i: nat, a: Settings)
    requires i <= |data|
  {
    Run(p, t, data[..i], Lenient(a)).p.state.HeaderValue?
  }

  /** Every byte that stands in a header value is one that may. */
  predicate ValuesOk(p: Parser, t: seq<Event>, data: seq<Byte>, a: Settings) {
    forall i :: 0 <= i < |data| && ValueByteAt(p, t, data, i, a) ==> IsHeaderChar(data[i])
  }

  /** No byte is looked at again inside a header value. */
  lemma AgainOutside(p: Parser, ch: Byte, a: Settings)
    requires p.errno.OK? && Micro(p, ch, a).next.Again?
    ensures !Micro(p, ch, a).p.state.HeaderValue?
  {
    if ReadInBulk(p.state) {
      hide ValueByte, HeaderFieldStep;
    } else {
      SimpleMarks(p, ch, a);
      hide Micro;
      if !Micro(p, ch, a).p.errno.OK? {
        AgainIsOk(p, ch, a);
      }
    }
  }

  lemma AgainIsOk(p: Parser, ch: Byte, a: Settings)
    requires p.errno.OK? && Micro(p, ch, a).next.Again?
    ensures Micro(p, ch, a).p.errno.OK?
  {
    hide TokenStep, NameStep, SwitchMethod, MethodString, ParseUrlChar, MessageNeedsEof, HasBody, ShouldKeepAlive;
  }

  /** Outside header values all checks are the same. */
  lemma {:induction false} SameOutside(p: Parser, t: seq<Event>, c: Byte, a: Settings)
    requires p.errno.OK? && !p.state.HeaderValue?
    ensures Run(p, t, [c], a) == Run(p, t, [c], Lenient(a))
    decreases Rank(p.state)
  {
    hide Micro, Traced;
    LenientStep(p, c, a);
    var o := Micro(p, c, a);
    RestEnds(o.p, Traced(t, o, c), [c], a);
    RestEnds(o.p, Traced(t, o, c), [c], Lenient(a));
    if o.p.errno.OK? && o.next.Again? {
      AgainOutside(p, c, a);
      SameOutside(o.p, Traced(t, o, c), c, a);
    }
  }

  /** One byte with checks and without. */
  lemma OneByte(p: Parser, t: seq<Event>, c: Byte, a: Settings)
    requires p.errno.OK? && Clean(Run(p, t, [c], Lenient(a)))
    ensures Clean(Run(p, t, [c], a)) <==> a.lenient || !p.state.HeaderValue? || IsHeaderChar(c)
    ensures Clean(Run(p, t, [c], a)) ==> Run(p, t, [c], a) == Run(p, t, [c], Lenient(a))
  {
    hide Micro, Traced;
    if !p.state.HeaderValue? {
      SameOutside(p, t, c, a);
    } else {
      LenientStep(p, c, a);
      var o := Micro(p, c, Lenient(a));
      RestEnds(o.p, Traced(t, o, c), [c], a);
      RestEnds(o.p, Traced(t, o, c), [c], Lenient(a));
      if o.next.Again? {
        AgainOutside(p, c, Lenient(a));
        SameOutside(o.p, Traced(t, o, c), c, a);
      }
    }
  }

  /** The run with all checks is clean exactly if no byte of a value is bad. */
  lemma {:induction false} StrictExactly(p: Parser, t: seq<Event>, data: seq<Byte>, a: Settings)
    requires p.errno.OK? && Clean(Run(p, t, data, Lenient(a)))
    ensures Clean(Run(p, t, data, a)) <==> a.lenient || ValuesOk(p, t, data, a)
    ensures Clean(Run(p, t, data, a)) ==> Run(p, t, data, a) == Run(p, t, data, Lenient(a))
    decreases |data|
  {
    hide Rest, IsHeaderChar, ValueByteAt;
    if data == [] {
      EmptyRun(p, t, a);
      EmptyRun(p, t, Lenient(a));
    } else {
      var x, c := data[..|data| - 1], data[|data| - 1];
      assert data == x + [c];
      RestPrefixClean(p, t, x, [c], 0, Lenient(a));
      RunSplits(p, t, x, [c], Lenient(a));
      StrictExactly(p, t, x, a);
      var f := Run(p, t, x, Lenient(a));
      OneByte(f.p, f.trace, c, a);
      MoreValues(p, t, x, c, a);
      if Clean(Run(p, t, x, a)) {
        RunSplits(p, t, x, [c], a);
      } else if Clean(Run(p, t, data, a)) {
        RestPrefixClean(p, t, x, [c], 0, a);
      }
    }
  }

  lemma MoreValues(p: Parser, t: seq<Event>, x: seq<Byte>, c: Byte, a: Settings)
    ensures ValuesOk(p, t, x + [c], a) <==>
      ValuesOk(p, t, x, a) && (Run(p, t, x, Lenient(a)).p.state.HeaderValue? ==> IsHeaderChar(c))
  {
    hide Rest, IsHeaderChar;
    var data := x + [c];
    assert forall i :: 0 <= i <= |x| ==> data[..i] == x[..i];
    assert x[..|x|] == x;
    assert forall i :: 0 <= i <= |x| ==> ValueByteAt(p, t, data, i, a) == ValueByteAt(p, t, x, i, a);
    assert ValueByteAt(p, t, data, |x|, a) == Run(p, t, x, Lenient(a)).p.state.HeaderValue?;
    assert data[|x|] == c && forall i :: 0 <= i < |x| ==> data[i] == x[i];
  }

  lemma EmptyRun(p: Parser, t: seq<Event>, a: Settings)
    requires p.errno.OK?
    ensures Run(p, t, [], a) == Final(p, t, 0, false)
  {
  }

  predicate SameEnd(c: Progress, f: Final) { c.p == f.p && c.t == f.trace }

  /** However it is cut, input that a run with all checks reads is read the same. */
  lemma {:induction false} CutsAgree(p: Parser, t: seq<Event>, n: nat, pieces: seq<seq<Byte>>, a: Settings)
    requires p.errno.OK? && Clean(Run(p, t, Flatten(pieces), a))
    ensures SameEnd(Calls(p, t, n, pieces, a), Run(p, t, Flatten(pieces), a))
    decreases |pieces|
  {
    hide Rest, Scan;
    if pieces == [] {
      EmptyRun(p, t, a);
    } else {
      var most, last := pieces[..|pieces| - 1], pieces[|pieces| - 1];
      RestPrefixClean(p, t, Flatten(most), last, 0, a);
      CutsAgree(p, t, n, most, a);
      RunSplits(p, t, Flatten(most), last, a);
      var c := Calls(p, t, n, most, a);
      StrictRunIsScan(c.p, c.t, NewCall(c.n), last, 0, a);
    }
  }

  /** A bad byte at i shows in the cut before it. */
  lemma CutShows(p: Parser, t: seq<Event>, n: nat, data: seq<Byte>, a: Settings, i: nat)
    requires p.errno.OK? && Clean(Call(p, t, n, data, a).f)
    requires i < |data| && !a.lenient && ValueByteAt(p, t, data, i, a) && !IsHeaderChar(data[i])
    ensures i > 0 && CutOf([data[..i], data[i..]], data)
    ensures Calls(p, t, n, [data[..i], data[i..]], a).p.errno.InvalidHeaderToken?
  {
    hide Micro, IsHeaderChar;
    var x, y := data[..i], data[i..];
    assert data == x + y && y[0] == data[i];
    ScanPrefixClean(p, t, NewCall(n), x, y, 0, a);
    var e := Call(p, t, n, x, a);
    ScanIsRun(p, t, NewCall(n), x, 0, a);
    BadByteFails(e.f.p, e.f.trace, CountAfter(e).n, y, a);
    EmptyRun(p, t, Lenient(a));
    if i == 0 {
      BadByteFails(p, t, n, data, a);
    }
    TwoCalls(p, t, n, x, y, a);
  }

  lemma TwoCalls(p: Parser, t: seq<Event>, n: nat, x: seq<Byte>, y: seq<Byte>, a: Settings)
    requires p.errno.OK? && Call(p, t, n, x, a).f.p.errno.OK?
    ensures var e := Call(p, t, n, x, a);
      Calls(p, t, n, [x, y], a).p == Call(e.f.p, e.f.trace, CountAfter(e).n, y, a).f.p
    ensures Flatten([x, y]) == x + y
  {
    hide Scan;
    assert [x, y][..1] == [x] && [x][..0] == [];
    assert Flatten([x]) == x;
    assert Calls(p, t, n, [x], a).p == Call(p, t, n, x, a).f.p;
  }

  /** The first byte of a call is checked. */
  lemma BadByteFails(p: Parser, t: seq<Event>, n: nat, y: seq<Byte>, a: Settings)
    requires p.errno.OK? && p.state.HeaderValue? && y != [] && !a.lenient && !IsHeaderChar(y[0])
    ensures Call(p, t, n, y, a).f.p.errno.InvalidHeaderToken?
  {
    hide Micro;
    LenientStep(p, y[0], a);
  }

  /**
   But for the header limit: when one call on the whole input ends without error or upgrade exit,
   all ways of cutting it end with the same parser and callbacks if and only if header values are
   not checked or hold nothing bad.
   */
  lemma AlikeExactly(p: Parser, t: seq<Event>, n: nat, data: seq<Byte>, a: Settings)
    requires p.errno.OK? && Clean(Call(p, t, n, data, a).f)
    ensures (forall pieces | CutOf(pieces, data) :: SameEnd(Calls(p, t, n, pieces, a), Call(p, t, n, data, a).f)) <==>
      a.lenient || ValuesOk(p, t, data, a)
  {
    hide Scan, Rest, IsHeaderChar, ValueByteAt, Flatten;
    var w := Call(p, t, n, data, a);
    ScanIsRun(p, t, NewCall(n), data, 0, a);
    StrictExactly(p, t, data, a);
    if a.lenient || ValuesOk(p, t, data, a) {
      forall pieces | CutOf(pieces, data)
        ensures SameEnd(Calls(p, t, n, pieces, a), w.f)
      {
        CutsAgree(p, t, n, pieces, a);
      }
    } else {
      var i :| 0 <= i < |data| && ValueByteAt(p, t, data, i, a) && !IsHeaderChar(data[i]);
      CutShows(p, t, n, data, a, i);
      assert CutOf([data[..i], data[i..]], data);
    }
  }

  // What a good audit says about the callbacks.

  function BodyBytes(t: seq<Event>): nat {
    if t == [] then 0
    else
      var e := t[|t| - 1];
      BodyBytes(t[..|t| - 1]) + if e.Data? && e.kind.Body? then |e.bytes| else 0
  }

  function ChunkBytes(t: seq<Event>): nat {
    if t == [] then 0
    else
      var e := t[|t| - 1];
      ChunkBytes(t[..|t| - 1]) + if e.OnChunkHeader? then e.size else 0
  }

  /** Once a good audit, always a good audit of what came before. */
  lemma {:induction false} AuditPrefixOk(t: seq<Event>, i: nat)
    requires i <= |t| && AuditOf(t).ok
    ensures AuditOf(t[..i]).ok
    decreases |t|
  {
    if i < |t| {
      AuditPrefixOk(t[..|t| - 1], i);
      assert t[..|t| - 1][..i] == t[..i];
    } else {
      assert t[..i] == t;
    }
  }

  /** What one callback does to the counters of the audit. */
  lemma AuditCounts(u: Audit, e: Event)
    ensures var v, b := AuditStep(u, e), if e.Data? && e.kind.Body? then |e.bytes| else 0;
      && v.chunkSize == (if e.OnChunkHeader? then e.size else u.chunkSize)
      && v.chunkBody == (if e.OnChunkHeader? then 0 else u.chunkBody + b)
      && v.body == (if e.OnHeadersComplete? then 0 else u.body + b)
      && v.chunkTotal == (if e.OnHeadersComplete? then 0 else u.chunkTotal + if e.OnChunkHeader? then e.size else 0)
      && v.promise ==
         if e.OnHeadersComplete? then PromiseOf(e.length, e.chunked, e.noBody, e.untilEof) else u.promise
  {
    hide LowerAll, Decimal, CONTENT_LENGTH, Announced, BodyComplete, LengthHonest, PromiseOf;
  }

  lemma AuditNext(t: seq<Event>, j: nat)
    requires j < |t|
    ensures AuditOf(t[..j + 1]) == AuditStep(AuditOf(t[..j]), t[j])
  {
    hide AuditStep;
    assert t[..j + 1][..j] == t[..j];
  }

  /** The bytes of t[i..j] and one callback more. */
  lemma BytesNext(t: seq<Event>, i: nat, j: nat)
    requires i <= j < |t|
    ensures BodyBytes(t[i..j + 1]) == BodyBytes(t[i..j]) + if t[j].Data? && t[j].kind.Body? then |t[j].bytes| else 0
    ensures ChunkBytes(t[i..j + 1]) == ChunkBytes(t[i..j]) + if t[j].OnChunkHeader? then t[j].size else 0
  {
    assert t[i..j + 1][..j - i] == t[i..j] && t[i..j + 1][j - i] == t[j];
  }

  lemma {:induction false} AuditSince(t: seq<Event>, i: nat, j: nat)
    requires i < j <= |t| && t[i].OnHeadersComplete?
    requires forall m :: i < m < j ==> !t[m].OnHeadersComplete?
    ensures var u := AuditOf(t[..j]);
      u.body == BodyBytes(t[i + 1..j]) && u.chunkTotal == ChunkBytes(t[i + 1..j]) &&
      u.promise == PromiseOf(t[i].length, t[i].chunked, t[i].noBody, t[i].untilEof)
    decreases j
  {
    hide AuditStep, AuditOf, PromiseOf;
    AuditNext(t, j - 1);
    AuditCounts(AuditOf(t[..j - 1]), t[j - 1]);
    if i + 1 < j {
      AuditSince(t, i, j - 1);
      BytesNext(t, i + 1, j - 1);
    } else {
      assert t[i + 1..j] == [];
    }
  }

  /**
   Body framing: between the end of the headers of a message and its completion, the body
   callbacks deliver exactly the announced bytes: the declared length, or the sum of the chunk
   sizes, or nothing if the message has no body.
   */
  lemma BodyFraming(parser: HttpParser, i: nat, j: nat)
    requires parser.Valid()
    requires var t := Join(parser.trace);
      i < j < |t| && t[i].OnHeadersComplete? && t[j].OnMessageComplete? &&
      forall m :: i < m < j ==> !t[m].OnHeadersComplete?
    ensures var t := Join(parser.trace);
      var delivered := BodyBytes(t[i + 1..j]);
      if t[i].noBody then delivered == 0
      else if t[i].chunked then delivered == ChunkBytes(t[i + 1..j])
      else if t[i].length != NO_LENGTH then delivered == t[i].length
      else t[i].untilEof || delivered == 0
  {
    hide Join, AuditOf, Inv, BodyBytes, ChunkBytes;
    var t := Join(parser.trace);
    TraceAudited(parser);
    MessageAudited(t, j);
    AuditSince(t, i, j);
  }

  lemma MessageAudited(t: seq<Event>, j: nat)
    requires AuditOf(t).ok && j < |t|
    ensures t[j].OnMessageComplete? ==> BodyComplete(AuditOf(t[..j]))
    ensures t[j].OnChunkComplete? ==> AuditOf(t[..j]).chunkBody == AuditOf(t[..j]).chunkSize
  {
    hide Decimal, LowerAll, CONTENT_LENGTH, Announced, BodyComplete, AuditOf;
    AuditPrefixOk(t, j + 1);
    AuditNext(t, j);
  }

  /** Each chunk delivers exactly the bytes its size line announced. */
  lemma ChunkFraming(parser: HttpParser, i: nat, j: nat)
    requires parser.Valid()
    requires var t := Join(parser.trace);
      i < j < |t| && t[i].OnChunkHeader? && t[j].OnChunkComplete? &&
      forall m :: i < m < j ==> !t[m].OnChunkHeader?
    ensures var t := Join(parser.trace); BodyBytes(t[i + 1..j]) == t[i].size
  {
    hide Join, AuditOf, Inv, BodyBytes;
    var t := Join(parser.trace);
    TraceAudited(parser);
    MessageAudited(t, j);
    ChunkSince(t, i, j);
  }

  lemma {:induction false} ChunkSince(t: seq<Event>, i: nat, j: nat)
    requires i < j <= |t| && t[i].OnChunkHeader? && forall m :: i < m < j ==> !t[m].OnChunkHeader?
    ensures var u := AuditOf(t[..j]); u.chunkBody == BodyBytes(t[i + 1..j]) && u.chunkSize == t[i].size
    decreases j
  {
    hide AuditStep, AuditOf;
    AuditNext(t, j - 1);
    AuditCounts(AuditOf(t[..j - 1]), t[j - 1]);
    if i + 1 < j {
      ChunkSince(t, i, j - 1);
      BytesNext(t, i + 1, j - 1);
    } else {
      assert t[i + 1..j] == [];
    }
  }

  /** t[k..i] is header lines: a name, its value, the next name, and so on. */
  predicate HeaderLines(t: seq<Event>, k: nat, i: nat) {
    && k <= i <= |t| && (i - k) % 2 == 0
    && (forall m :: k <= m < i ==> t[m].Data? && t[m].kind == if (m - k) % 2 == 0 then Field else Value)
  }

  predicate NamesLengthAt(t: seq<Event>, k: nat)
    requires k < |t|
  {
    t[k].Data? && LowerAll(t[k].bytes) == CONTENT_LENGTH
  }

  lemma {:induction false} AnnouncedSince(t: seq<Event>, k: nat, i: nat)
    requires k < i && HeaderLines(t, k, i)
    requires NamesLengthAt(t, k) && t[k + 1].bytes != [] && AuditOf(t[..k]).last != Some(Field)
    requires forall m :: k < m < i && (m - k) % 2 == 0 ==> !NamesLengthAt(t, m)
    ensures Announced(AuditOf(t[..i])) == Some(Decimal(t[k + 1].bytes)) && AuditOf(t[..i]).last == Some(Value)
    decreases i
  {
    hide LowerAll, Decimal, CONTENT_LENGTH, AuditOf;
    LineAudit(t, i);
    if i == k + 2 {
      assert t[..i - 2] == t[..k];
    } else {
      AnnouncedSince(t, k, i - 2);
      assert !NamesLengthAt(t, i - 2);
    }
  }

  lemma LineAudit(t: seq<Event>, i: nat)
    requires 2 <= i <= |t| && t[i - 2].Data? && t[i - 1].Data?
    ensures AuditOf(t[..i]) == AuditData(AuditData(AuditOf(t[..i - 2]), t[i - 2].kind, t[i - 2].bytes),
        t[i - 1].kind, t[i - 1].bytes)
  {
    hide AuditData, AuditOf;
    AuditNext(t, i - 1);
    AuditNext(t, i - 2);
  }

  /** The length reported with the end of the headers is the decimal value of the last Content-Length line. */
  lemma DeclaredLength(parser: HttpParser, k: nat, i: nat)
    requires parser.Valid()
    requires var t := Join(parser.trace);
      k < i < |t| && HeaderLines(t, k, i) && t[i].OnHeadersComplete? &&
      (k == 0 || !t[k - 1].Data? || !t[k - 1].kind.Field?) &&
      NamesLengthAt(t, k) && t[k + 1].bytes != [] &&
      forall m :: k < m < i && (m - k) % 2 == 0 ==> !NamesLengthAt(t, m)
    ensures Join(parser.trace)[i].length == Decimal(Join(parser.trace)[k + 1].bytes)
  {
    hide Decimal, LowerAll, CONTENT_LENGTH, Inv, AuditOf, Announced, HeaderLines, NamesLengthAt, Join;
    var t := Join(parser.trace);
    TraceAudited(parser);
    AnnouncedLength(t, k, i);
    AuditLast(t[..k], Field);
    AnnouncedSince(t, k, i);
  }

  lemma TraceAudited(parser: HttpParser)
    requires parser.Valid()
    ensures AuditOf(Join(parser.trace)).ok
  {
    hide Inv;
  }

  /** The length reported is the one the header lines before announced. */
  lemma AnnouncedLength(t: seq<Event>, k: nat, i: nat)
    requires AuditOf(t).ok && i < |t| && t[i].OnHeadersComplete?
    ensures var u := AuditOf(t[..i]); Announced(u).Some? ==> t[i].length == Announced(u).value
  {
    hide Decimal, LowerAll, CONTENT_LENGTH, Announced, AuditOf;
    AuditPrefixOk(t, i + 1);
    AuditNext(t, i);
  }
}
