/** Being part-way through a call: what is left to run leads to the goal of the whole call. */
module HttpTracking {
  import opened HttpChars
  import opened HttpMachine
  import opened HttpRun
  import opened HttpCalls
  import opened HttpFraming
  import opened HttpInvariant
  import opened HttpMarks
  import opened HttpNames
  import opened Options

  /** Where a call on data leads. */
  datatype Goal = Goal(data: seq<Byte>, a: Settings, end: Ended)

  ghost predicate OnTrack(g: Goal, p: Parser, t: seq<Event>, i: nat, k: Track) {
    i <= |g.data| && Scan(p, t, k, g.data, i, g.a) == g.end
  }

  /** `lost`: a piece so long that the byte counter wrapped; only the invariant is kept. */
  ghost predicate Good(g: Goal, p: Parser, t: seq<Event>, i: nat, k: Track, lost: bool) {
    && i <= |g.data|
    && Inv(p, AuditOf(t))
    && (lost || OnTrack(g, p, t, i, k))
  }

  ghost predicate Reaches(g: Goal, p: Parser, t: seq<Event>, n: nat, stopped: bool, k: Track) {
    g.end == Ended(Final(p, t, n, stopped), k)
  }

  /** The call ends at i with this error. */
  ghost predicate FailsAt(g: Goal, i: nat, e: Errno) { g.end.f.p.errno == e && g.end.f.n == i }

  lemma InvMeansOK(p: Parser, u: Audit)
    requires Inv(p, u)
    ensures p.errno.OK? && u.ok
  {
  }

  /** The byte at i is counted. */
  lemma CountByte(g: Goal, p: Parser, t: seq<Event>, i: nat, k: Track, lost: bool)
    requires Good(g, p, t, i, k, lost) && i < |g.data|
    ensures Good(g, p, t, i, Count(k, p.state), lost)
  {
    hide Micro, Inv, Traced, ParsingHeader;
    InvMeansOK(p, AuditOf(t));
    assert Count(Count(k, p.state), p.state) == Count(k, p.state);
  }

  /** One step of the machine from a good configuration. */
  lemma GoodStep(g: Goal, p: Parser, t: seq<Event>, i: nat, k: Track, lost: bool, o: Outcome)
    requires Good(g, p, t, i, k, lost) && !k.first && i < |g.data|
    requires o == Micro(p, g.data[i], Checking(g.a, k.skip))
    ensures o.p.errno.OK? && o.next.Advance? ==> Good(g, o.p, Traced(t, o, g.data[i]), i + 1, Onward(k, p, o), lost)
    ensures o.p.errno.OK? && o.next.Again? ==> Good(g, o.p, Traced(t, o, g.data[i]), i, Onward(k, p, o), lost)
    ensures o.p.errno.OK? ==> Inv(o.p, AuditOf(Traced(t, o, g.data[i])))
    ensures o.p.errno.OK? && o.next.Stop? && !lost ==>
      Reaches(g, o.p, Traced(t, o, g.data[i]), i + 1, true, Onward(k, p, o))
    ensures !o.p.errno.OK? && !lost ==> FailsAt(g, i, o.p.errno)
  {
    hide Micro, Inv, Traced, Audited, Onward;
    InvMeansOK(p, AuditOf(t));
    assert Count(k, p.state) == k;
    if o.p.errno.OK? {
      MicroKeeps(p, AuditOf(t), g.data[i], Checking(g.a, k.skip));
      AuditTraced(t, o, g.data[i]);
    }
  }

  /** After a byte of data that leaves the parser alone. */
  function Taken(k: Track, p: Parser, kind: DataKind): Track { Onward(Count(k, p.state), p, Take(p, kind)) }

  /** A byte that only adds data of one kind and leaves the parser alone. */
  lemma OneTake(g: Goal, p: Parser, t: seq<Event>, i: nat, kind: DataKind, k: Track, lost: bool)
    requires Good(g, p, t, i, k, lost) && i < |g.data| && Micro(p, g.data[i], Checking(g.a, k.skip)) == Take(p, kind)
    ensures Good(g, p, Emit(t, Data(kind, [g.data[i]])), i + 1, Taken(k, p, kind), lost)
  {
    hide Micro, Inv, AuditOf, OnTrack, Onward, ParsingHeader;
    InvMeansOK(p, AuditOf(t));
    CountByte(g, p, t, i, k, lost);
    GoodStep(g, p, t, i, Count(k, p.state), lost, Take(p, kind));
    hide Good;
  }

  /** The track after some such bytes. */
  function ManyTaken(k: Track, p: Parser, kind: DataKind, m: nat): Track {
    if m == 0 then k else Taken(ManyTaken(k, p, kind, m - 1), p, kind)
  }

  /** Many of them. */
  lemma {:induction false} BulkTake(g: Goal, p: Parser, t: seq<Event>, i: nat, j: nat, kind: DataKind, k: Track,
      lost: bool)
    requires Good(g, p, t, i, k, lost) && i < j <= |g.data|
    requires forall m :: i <= m < j ==>
        Micro(p, g.data[m], Checking(g.a, ManyTaken(k, p, kind, m - i).skip)) == Take(p, kind)
    ensures Good(g, p, Emit(t, Data(kind, g.data[i..j])), j, ManyTaken(k, p, kind, j - i), lost)
    decreases j - i
  {
    hide Good, Micro, Emit, Taken;
    var last := g.data[j - 1];
    if i + 1 == j {
      assert ManyTaken(k, p, kind, 0) == k;
      OneTake(g, p, t, i, kind, k, lost);
      assert g.data[i..j] == [g.data[i]];
    } else {
      var x := g.data[i..j - 1];
      BulkTake(g, p, t, i, j - 1, kind, k, lost);
      OneTake(g, p, Emit(t, Data(kind, x)), j - 1, kind, ManyTaken(k, p, kind, j - 1 - i), lost);
      EmitData(t, kind, x, [last]);
      assert x + [last] == g.data[i..j];
    }
  }

  function Used(p: Parser, n: nat): Parser {
    if n <= p.contentLength then p.(contentLength := p.contentLength - n)
    else p
  }

  lemma BodyByte(p: Parser, ch: Byte, a: Settings)
    requires (p.state.BodyIdentity? || p.state.ChunkData?) && p.contentLength > 1
    ensures Micro(p, ch, a) == Take(Used(p, 1), Body)
  {
  }

  /** After bytes of a body, which are not counted. */
  function PastBody(k: Track): Track { Track(false, true, k.c.(inside := false)) }

  lemma BodyTrack(k: Track, p: Parser, o: Outcome)
    requires p.state.BodyIdentity? || p.state.ChunkData? || p.state.BodyIdentityEof?
    ensures Count(k, p.state) == k.(first := false)
    ensures o.next.Advance? ==> Onward(Count(k, p.state), p, o) == PastBody(k)
    ensures o.next.Again? ==> Onward(Count(k, p.state), p, o) == PastBody(k).(first := false)
  {
  }

  lemma GoodBodyByte(g: Goal, p: Parser, t: seq<Event>, i: nat, k: Track, lost: bool)
    requires Good(g, p, t, i, k, lost) && i < |g.data|
    requires (p.state.BodyIdentity? || p.state.ChunkData?) && p.contentLength > 1
    ensures Good(g, Used(p, 1), Emit(t, Data(Body, [g.data[i]])), i + 1, PastBody(k), lost)
  {
    hide Micro, Inv, AuditOf, OnTrack, Onward, ParsingHeader;
    BodyByte(p, g.data[i], Checking(g.a, k.skip));
    InvMeansOK(p, AuditOf(t));
    CountByte(g, p, t, i, k, lost);
    BodyTrack(k, p, Take(Used(p, 1), Body));
    GoodStep(g, p, t, i, k.(first := false), lost, Take(Used(p, 1), Body));
  }

  /** Body bytes short of the announced length. */
  lemma {:induction false} BulkBody(g: Goal, p: Parser, t: seq<Event>, i: nat, j: nat, k: Track, lost: bool)
    requires Good(g, p, t, i, k, lost) && i < j <= |g.data|
    requires (p.state.BodyIdentity? || p.state.ChunkData?) && j - i < p.contentLength
    ensures Good(g, Used(p, j - i), Emit(t, Data(Body, g.data[i..j])), j, PastBody(k), lost)
    decreases j - i
  {
    hide Good, Emit;
    if i + 1 == j {
      GoodBodyByte(g, p, t, i, k, lost);
      assert g.data[i..j] == [g.data[i]];
    } else {
      BulkBody(g, p, t, i, j - 1, k, lost);
      var q := Used(p, j - 1 - i);
      var t' := Emit(t, Data(Body, g.data[i..j - 1]));
      GoodBodyByte(g, q, t', j - 1, PastBody(k), lost);
      EmitData(t, Body, g.data[i..j - 1], [g.data[j - 1]]);
      assert g.data[i..j - 1] + [g.data[j - 1]] == g.data[i..j];
      assert Used(q, 1) == Used(p, j - i);
    }
  }

  /** A header value the matcher does not care about may grow by anything. */
  lemma GeneralValueGrows(p: Parser, t: seq<Event>, b: seq<Byte>)
    requires Inv(p, AuditOf(t)) && p.state.HeaderValue? && p.header.General?
    ensures Inv(p, AuditOf(Emit(t, Data(Value, b))))
  {
    hide MethodString, Inv, AuditOf, Emit, LineInv, LowerAll, Decimal;
    var u := AuditOf(t);
    AuditEmit(t, Data(Value, b));
    HeaderBlock(p, u);
    HeaderBlock(p, AuditStep(u, Data(Value, b)));
    LineIs(p, u);
    LineIs(p, AuditStep(u, Data(Value, b)));
  }

  /** Data with no bytes joins data of the same kind without a trace. */
  lemma EmitNothing(t: seq<Event>, k: DataKind)
    requires t != [] && t[|t| - 1].Data? && t[|t| - 1].kind == k
    ensures Emit(t, Data(k, [])) == t
  {
    assert t[|t| - 1].bytes + [] == t[|t| - 1].bytes;
    assert t[..|t| - 1] + [t[|t| - 1]] == t;
  }

  /** At the start of a call, a mark set on the first byte stands for no bytes yet. */
  lemma ContinuedMark(p: Parser, t: seq<Event>)
    requires Inv(p, AuditOf(t)) && Continues(p.state)
    ensures Emit(t, Data(OpenData(p.state).value, [])) == t
  {
    if InHeaderLines(p.state) {
      HeaderBlock(p, AuditOf(t));
    }
    AuditLast(t, OpenData(p.state).value);
    EmitNothing(t, OpenData(p.state).value);
  }

  lemma Arrived(g: Goal, p: Parser, t: seq<Event>, k: Track)
    requires Good(g, p, t, |g.data|, k, false)
    ensures Reaches(g, p, t, |g.data|, false, k)
  {
    InvMeansOK(p, AuditOf(t));
  }

  lemma GoodIsOk(g: Goal, p: Parser, t: seq<Event>, i: nat, k: Track, lost: bool)
    requires Good(g, p, t, i, k, lost)
    ensures p.errno.OK? && AuditOf(t).ok && Inv(p, AuditOf(t))
  {
    InvMeansOK(p, AuditOf(t));
  }

  /** After a byte inside a name or a value. */
  function InLine(k: Track, skip: bool): Track { Track(skip, true, k.c.(inside := true)) }

  lemma NameTrack(k: Track, p: Parser, o: Outcome)
    requires p.state.HeaderField? && o.p.state.HeaderField? && o.next.Advance?
    ensures Onward(k, p, o) == InLine(k, false)
  {
  }

  lemma NameBytes(g: Goal, p: Parser, t: seq<Event>, i: nat, k: Track, lost: bool)
    requires Good(g, p, t, i, k, lost) && !k.first && i < |g.data| && p.state.HeaderField? && Token(g.data[i]) != NUL
    ensures FieldHeader(p.header)
    ensures var (h, x) := NameStep(p.header, p.index, Token(g.data[i]));
      Good(g, p.(header := h, index := x), Emit(t, Data(Field, [g.data[i]])), i + 1, InLine(k, false), lost)
  {
    hide Inv, NameStep, Emit, Token, Good, Micro, Onward;
    GoodIsOk(g, p, t, i, k, lost);
    NameHeader(p, AuditOf(t));
    FieldMicro(p, g.data[i], Checking(g.a, k.skip));
    hide AuditOf, FieldHeader;
    var o := HeaderFieldStep(p, g.data[i]);
    NameTrack(k, p, o);
    GoodStep(g, p, t, i, k, lost, o);
  }

  lemma NameHeader(p: Parser, u: Audit)
    requires Inv(p, u) && p.state.HeaderField?
    ensures FieldHeader(p.header)
  {
    hide Inv, Recognize, LowerAll, AuditOf;
    HeaderBlock(p, u);
    RecognizeContentLength(LowerAll(u.name));
  }

  lemma FieldMicro(p: Parser, ch: Byte, a: Settings)
    requires p.errno.OK? && p.state.HeaderField?
    ensures Micro(p, ch, a) == HeaderFieldStep(p, ch)
  {
    hide HeaderFieldStep;
  }

  lemma ValueMicro(p: Parser, ch: Byte, a: Settings)
    requires p.errno.OK? && p.state.HeaderValue?
    ensures Micro(p, ch, a) == HeaderValueStep(p, ch, a.lenient)
  {
    hide HeaderValueStep;
  }

  /** After a byte that ends a name or a value. */
  function LineLeft(k: Track, first: bool): Track { Track(false, first, k.c.(inside := false)) }

  lemma LeftTrack(k: Track, p: Parser, o: Outcome)
    requires
      (p.state.HeaderField? && o.p.state.HeaderValueDiscardWs?) ||
      (p.state.HeaderValue? && o.p.state.HeaderAlmostDone?)
    ensures Onward(k, p, o) == LineLeft(k, o.next.Advance?)
  {
  }

  lemma NameEnds(g: Goal, p: Parser, t: seq<Event>, i: nat, k: Track, lost: bool)
    requires Good(g, p, t, i, k, lost) && !k.first && i < |g.data| && p.state.HeaderField? && Token(g.data[i]) == NUL
    ensures g.data[i] == ':' ==> Good(g, p.(state := HeaderValueDiscardWs), t, i + 1, LineLeft(k, true), lost)
    ensures g.data[i] != ':' && !lost ==> FailsAt(g, i, InvalidHeaderToken)
  {
    hide Inv, NameStep, Token, Good, Micro, AuditOf, Onward;
    GoodIsOk(g, p, t, i, k, lost);
    FieldMicro(p, g.data[i], Checking(g.a, k.skip));
    var o := HeaderFieldStep(p, g.data[i]);
    GoodStep(g, p, t, i, k, lost, o);
    if o.p.errno.OK? {
      LeftTrack(k, p, o);
    }
  }

  /** The five mark pointers of the source; a kind that is absent is NULL. */
  type Marks = map<DataKind, nat>

  /** The joined trace once the data under way, up to byte i, is counted in. */
  function Pending(raw: seq<Event>, marks: Marks, s: State, data: seq<Byte>, i: nat): seq<Event> {
    var k := OpenData(s);
    if k.Some? && k.value in marks && marks[k.value] <= i <= |data|
    then Emit(Join(raw), Data(k.value, data[marks[k.value]..i]))
    else Join(raw)
  }

  /** Only the data of the current state can be under way, so at most one mark is set. */
  predicate MarksOk(marks: Marks, s: State, i: nat) {
    && (forall k :: k in marks ==> OpenData(s) == Some(k) && marks[k] <= i)
    && (Continues(s) ==> OpenData(s).value in marks)
  }

  lemma AtMostOneMark(marks: Marks, s: State, i: nat)
    requires MarksOk(marks, s, i)
    ensures |marks| <= 1
  {
    if OpenData(s).Some? {
      assert marks.Keys <= {OpenData(s).value};
      SubsetSize(marks.Keys, {OpenData(s).value});
    } else {
      assert marks.Keys == {};
    }
  }

  lemma SubsetSize<T>(x: set<T>, y: set<T>)
    requires x <= y
    ensures |x| <= |y|
  {
    assert y == x + (y - x);
  }

  lemma PendingTakes(raw: seq<Event>, marks: Marks, s: State, s': State, k: DataKind, data: seq<Byte>, i: nat)
    requires MarksOk(marks, s, i) && i < |data|
    requires OpenData(s') == Some(k) && (OpenData(s).None? || OpenData(s) == Some(k))
    ensures var rest := if k in marks then marks else marks[k := i];
      MarksOk(rest, s', i + 1) &&
      Pending(raw, rest, s', data, i + 1) == Emit(Pending(raw, marks, s, data, i), Data(k, [data[i]]))
  {
    if k in marks {
      EmitData(Join(raw), k, data[marks[k]..i], [data[i]]);
      assert data[marks[k]..i] + [data[i]] == data[marks[k]..i + 1];
    } else {
      assert data[i..i + 1] == [data[i]];
    }
  }

  lemma NoOpenData(marks: Marks, s: State, i: nat)
    requires MarksOk(marks, s, i) && OpenData(s).None?
    ensures marks == map[]
  {
    assert marks.Keys == {};
  }

  lemma TracedCases(t: seq<Event>, o: Outcome, ch: Byte)
    ensures o.take.None? ==> Traced(t, o, ch) == EmitAll(t, o.notes)
    ensures o.take.Some? && o.notes == [] ==> Traced(t, o, ch) == Emit(t, Data(o.take.value, [ch]))
  {
  }

  lemma PendingAudit(raw: seq<Event>, marks: Marks, s: State, data: seq<Byte>, i: nat)
    ensures AuditOf(Pending(raw, marks, s, data, i)).ok == AuditOf(Join(raw)).ok
  {
    hide AuditOf, Emit, Announced;
    var k := OpenData(s);
    if k.Some? && k.value in marks && marks[k.value] <= i <= |data| {
      AuditEmit(Join(raw), Data(k.value, data[marks[k.value]..i]));
    }
  }

  /** Part-way through a call: the marks fit the state, and what is pending is on track. */
  ghost predicate At(g: Goal, p: Parser, raw: seq<Event>, marks: Marks, i: nat, k: Track, lost: bool) {
    MarksOk(marks, p.state, i) && Good(g, p, Pending(raw, marks, p.state, g.data, i), i, k, lost)
  }

  lemma AtIsOk(g: Goal, p: Parser, raw: seq<Event>, marks: Marks, i: nat, k: Track, lost: bool)
    requires At(g, p, raw, marks, i, k, lost)
    ensures p.errno.OK? && AuditOf(Join(raw)).ok && i <= |g.data| && MarksOk(marks, p.state, i)
    ensures Inv(p, AuditOf(Pending(raw, marks, p.state, g.data, i)))
  {
    hide AuditOf, Inv, Emit, MarksOk;
    PendingAudit(raw, marks, p.state, g.data, i);
    GoodIsOk(g, p, Pending(raw, marks, p.state, g.data, i), i, k, lost);
  }

  lemma AtCount(g: Goal, p: Parser, raw: seq<Event>, marks: Marks, i: nat, k: Track, lost: bool)
    requires At(g, p, raw, marks, i, k, lost) && i < |g.data|
    ensures At(g, p, raw, marks, i, Count(k, p.state), lost)
  {
    hide Good, Emit, ParsingHeader;
    CountByte(g, p, Pending(raw, marks, p.state, g.data, i), i, k, lost);
  }

  /** What was counted so far is counted at the end. */
  lemma AtTop(g: Goal, p: Parser, raw: seq<Event>, marks: Marks, i: nat, k: Track, lost: bool)
    requires At(g, p, raw, marks, i, k, lost) && !lost
    ensures CountAfter(g.end).top >= k.c.top
    ensures i == |g.data| ==> CountAfter(g.end) == Closed(k.c)
  {
    hide Inv, AuditOf, Emit, Micro, MarksOk;
    TopGrows(p, Pending(raw, marks, p.state, g.data, i), k, g.data, i, g.a);
  }

  /** A counter n agrees with the track, between two bytes or at the end of the piece. */
  predicate Tallied(k: Track, n: nat, end: bool) {
    var c := if end then Closed(k.c) else k.c;
    n == c.n && c.top <= MAX_HEADER_SIZE
  }

  /** In the loop over a name or value, after v bytes of it: the counter n waits for them. */
  predicate Waiting(k: Track, n: nat, v: nat) {
    && (k.first <==> v > 0) && (v > 0 ==> k.c.inside)
    && k.c.n + (if k.first then 1 else 0) == n + v
    && (k.c.top <= MAX_HEADER_SIZE || k.c.top <= n + v)
  }

  lemma StartsWaiting(k: Track, n: nat)
    requires Tallied(k, n, false) && !k.first
    ensures Waiting(k, n, 0)
  {
  }

  /** One more byte of a name or value, counted and read. */
  lemma WaitsOn(k: Track, s: State, n: nat, v: nat, skip: bool)
    requires Waiting(k, n, v) && (s.HeaderField? || s.HeaderValue?)
    ensures Count(k, s).c.n == n + v && (Count(k, s).c.top <= MAX_HEADER_SIZE || Count(k, s).c.top <= n + v)
    ensures Waiting(InLine(Count(k, s), skip), n, v + 1)
  {
  }

  /** Where a name or value ends, or the piece, the counter takes in the bytes it waits for. */
  lemma AtLineEnd(g: Goal, p: Parser, raw: seq<Event>, marks: Marks, i: nat, k: Track, lost: bool, n: nat, v: nat)
    requires At(g, p, raw, marks, i, k, lost) && (p.state.HeaderField? || p.state.HeaderValue?)
    requires n <= MAX_HEADER_SIZE && (lost || Waiting(k, n, v)) && (i == |g.data| ==> v > 0)
    ensures i < |g.data| ==> At(g, p, raw, marks, i, Count(k, p.state), lost)
    ensures !lost && n + v <= MAX_HEADER_SIZE ==>
      Tallied(if i < |g.data| then Count(k, p.state) else k, n + v, i == |g.data|)
    ensures !lost && n + v > MAX_HEADER_SIZE ==> CountAfter(g.end).top > MAX_HEADER_SIZE
  {
    hide At, CountAfter;
    AtIsOk(g, p, raw, marks, i, k, lost);
    if i < |g.data| {
      AtCount(g, p, raw, marks, i, k, lost);
    }
    if !lost {
      AtTop(g, p, raw, marks, i, if i < |g.data| then Count(k, p.state) else k, lost);
      if i == |g.data| {
        EndCounted(g, k, i, n, v);
      }
    }
  }

  lemma EndCounted(g: Goal, k: Track, i: nat, n: nat, v: nat)
    requires Waiting(k, n, v) && i == |g.data| && v > 0 && CountAfter(g.end) == Closed(k.c)
    ensures CountAfter(g.end).n == n + v && CountAfter(g.end).top >= n + v
  {
  }

  lemma AtNameByte(g: Goal, p: Parser, raw: seq<Event>, marks: Marks, i: nat, k: Track, lost: bool)
    requires At(g, p, raw, marks, i, k, lost) && !k.first && i < |g.data|
    requires p.state.HeaderField? && Token(g.data[i]) != NUL
    ensures FieldHeader(p.header)
    ensures var (h, x) := NameStep(p.header, p.index, Token(g.data[i]));
      At(g, p.(header := h, index := x), raw, marks, i + 1, InLine(k, false), lost)
  {
    hide Good, Inv, NameStep, Emit, Token;
    NameBytes(g, p, Pending(raw, marks, p.state, g.data, i), i, k, lost);
    PendingTakes(raw, marks, p.state, p.state, Field, g.data, i);
  }

  lemma AtNameEnd(g: Goal, p: Parser, raw: seq<Event>, marks: Marks, i: nat, k: Track, lost: bool)
    requires At(g, p, raw, marks, i, k, lost) && !k.first && i < |g.data|
    requires p.state.HeaderField? && Token(g.data[i]) == NUL
    ensures g.data[i] == ':' ==> forall raw' | Join(raw') == Pending(raw, marks, p.state, g.data, i) ::
              At(g, p.(state := HeaderValueDiscardWs), raw', map[], i + 1, LineLeft(k, true), lost)
    ensures g.data[i] != ':' && !lost ==> FailsAt(g, i, InvalidHeaderToken)
  {
    hide Good, Inv, NameStep, Emit, Token;
    NameEnds(g, p, Pending(raw, marks, p.state, g.data, i), i, k, lost);
  }

  /** One step of the machine in a state that reads a single byte. */
  lemma AtStep(g: Goal, p: Parser, raw: seq<Event>, marks: Marks, i: nat, k: Track, lost: bool, o: Outcome)
    requires At(g, p, raw, marks, i, k, lost) && !k.first && i < |g.data| && !ReadInBulk(p.state)
    requires o == Micro(p, g.data[i], g.a)
    ensures !o.p.errno.OK? && !lost ==> FailsAt(g, i, o.p.errno)
    ensures MarkStep(p.state, o)
    ensures o.p.errno.OK? && o.take.Some? ==>
      var rest := if o.take.value in marks then marks else marks[o.take.value := i];
      At(g, o.p, raw, rest, i + 1, Onward(k, p, o), lost)
    ensures o.p.errno.OK? && o.take.None? ==>
      forall flushed | Join(flushed) == Pending(raw, marks, p.state, g.data, i) ::
        AtAfter(g, o, flushed + o.notes, i, Onward(k, p, o), lost)
  {
    hide Micro, Inv, Traced, AuditOf, Emit, Pending, MarkStep, Good, MarksOk, EmitAll, Onward;
    var t := Pending(raw, marks, p.state, g.data, i);
    SimpleIgnoresLenient(p, g.data[i], g.a, Checking(g.a, k.skip));
    GoodIsOk(g, p, t, i, k, lost);
    GoodStep(g, p, t, i, k, lost, o);
    SimpleMarks(p, g.data[i], g.a);
    if o.p.errno.OK? {
      TracedCases(t, o, g.data[i]);
      if o.take.Some? {
        MarkStepTakes(p.state, o);
        PendingTakes(raw, marks, p.state, o.p.state, o.take.value, g.data, i);
      } else {
        forall flushed | Join(flushed) == t
          ensures AtAfter(g, o, flushed + o.notes, i, Onward(k, p, o), lost)
        {
          JoinAppendAll(flushed, o.notes);
          NothingPending(flushed + o.notes, o, p.state, g.data, i);
        }
      }
    }
  }

  lemma MarkStepTakes(s: State, o: Outcome)
    requires MarkStep(s, o) && o.p.errno.OK? && o.take.Some?
    ensures o.notes == [] && o.next.Advance? && OpenData(o.p.state) == o.take
    ensures OpenData(s).None? || OpenData(s) == o.take
  {
  }

  lemma NothingPending(raw: seq<Event>, o: Outcome, s: State, data: seq<Byte>, i: nat)
    requires MarkStep(s, o) && o.p.errno.OK? && o.take.None?
    ensures forall j :: MarksOk(map[], o.p.state, j) && Pending(raw, map[], o.p.state, data, j) == Join(raw)
  {
  }

  /** Where a step that takes no data leaves the call. */
  ghost predicate AtAfter(g: Goal, o: Outcome, raw: seq<Event>, i: nat, k: Track, lost: bool) {
    match o.next
    case Advance => At(g, o.p, raw, map[], i + 1, k, lost)
    case Again => At(g, o.p, raw, map[], i, k, lost)
    case Stop => Inv(o.p, AuditOf(Join(raw))) && (!lost ==> Reaches(g, o.p, Join(raw), i + 1, true, k))
  }

  // The header-value loop.

  lemma ValueLineEnds(g: Goal, p: Parser, t: seq<Event>, i: nat, k: Track, lost: bool)
    requires Good(g, p, t, i, k, lost) && !k.first && i < |g.data| && p.state.HeaderValue?
    ensures g.data[i] == CR ==> Good(g, p.(state := HeaderAlmostDone), t, i + 1, LineLeft(k, true), lost)
    ensures g.data[i] == LF ==> Good(g, p.(state := HeaderAlmostDone), t, i, LineLeft(k, false), lost)
  {
    hide Inv, ValueByte, Good, Micro, AuditOf, Onward;
    GoodIsOk(g, p, t, i, k, lost);
    var a := Checking(g.a, k.skip);
    ValueMicro(p, g.data[i], a);
    if g.data[i] == CR || g.data[i] == LF {
      LeftTrack(k, p, HeaderValueStep(p, g.data[i], a.lenient));
    }
    GoodStep(g, p, t, i, k, lost, HeaderValueStep(p, g.data[i], a.lenient));
  }

  lemma AtValueLineEnds(g: Goal, p: Parser, raw: seq<Event>, marks: Marks, i: nat, k: Track, lost: bool)
    requires At(g, p, raw, marks, i, k, lost) && !k.first && i < |g.data| && p.state.HeaderValue?
    ensures forall raw' | Join(raw') == Pending(raw, marks, p.state, g.data, i) ::
      (g.data[i] == CR ==> At(g, p.(state := HeaderAlmostDone), raw', map[], i + 1, LineLeft(k, true), lost)) &&
      (g.data[i] == LF ==> At(g, p.(state := HeaderAlmostDone), raw', map[], i, LineLeft(k, false), lost))
  {
    hide Good, Inv, Emit;
    ValueLineEnds(g, p, Pending(raw, marks, p.state, g.data, i), i, k, lost);
  }

  lemma LeftTallied(k: Track, s: State, n: nat, first: bool)
    requires Tallied(Count(k, s), n, false)
    ensures Tallied(LineLeft(Count(k, s), first), n, false) && Tallied(LineLeft(Count(k, s), first), n, true)
  {
  }

  lemma LeftIs(k: Track, first: bool)
    ensures var k' := LineLeft(k, first); k'.first == first && !k'.skip && !k'.c.inside
  {
  }

  lemma CountedOnce(k: Track, s: State)
    ensures !Count(k, s).first && Count(k, s).skip == k.skip
  {
  }

  lemma ValueTrack(k: Track, p: Parser, o: Outcome)
    requires p.state.HeaderValue? && o.p.state.HeaderValue? && o.next.Advance?
    ensures Onward(k, p, o) == InLine(k, p.header.General?)
  {
  }

  /** A byte of a value that is not skipped. */
  lemma ValueBytes(g: Goal, p: Parser, t: seq<Event>, i: nat, k: Track, lost: bool)
    requires Good(g, p, t, i, k, lost) && !k.first && !k.skip && i < |g.data|
    requires p.state.HeaderValue? && g.data[i] != CR && g.data[i] != LF
    ensures ValueHeader(p.header)
    ensures
      var o := ValueByte(p, g.data[i]);
      if !g.a.lenient && !IsHeaderChar(g.data[i]) then !lost ==> FailsAt(g, i, InvalidHeaderToken)
      else if o.p.errno.OK? then
        && o.p.state.HeaderValue?
        && Good(g, o.p, Emit(t, Data(Value, [g.data[i]])), i + 1, InLine(k, p.header.General?), lost)
      else !lost ==> FailsAt(g, i, o.p.errno)
  {
    hide Inv, ValueByte, IsHeaderChar, Good, Micro, AuditOf, Recognize, LowerAll, ValueHeader, Onward;
    GoodIsOk(g, p, t, i, k, lost);
    HeaderBlock(p, AuditOf(t));
    var o := HeaderValueStep(p, g.data[i], g.a.lenient);
    ValueMicro(p, g.data[i], g.a);
    GoodStep(g, p, t, i, k, lost, o);
    if o.p.errno.OK? {
      ValueByteShape(p, g.data[i]);
      TracedCases(t, o, g.data[i]);
      ValueTrack(k, p, o);
    }
  }

  lemma AtValueByte(g: Goal, p: Parser, raw: seq<Event>, marks: Marks, i: nat, k: Track, lost: bool)
    requires At(g, p, raw, marks, i, k, lost) && !k.first && !k.skip && i < |g.data| && p.state.HeaderValue?
    requires g.data[i] != CR && g.data[i] != LF
    ensures ValueHeader(p.header)
    ensures
      var o := ValueByte(p, g.data[i]);
      if !g.a.lenient && !IsHeaderChar(g.data[i]) then !lost ==> FailsAt(g, i, InvalidHeaderToken)
      else if o.p.errno.OK? then
        o.p.state.HeaderValue? && At(g, o.p, raw, marks, i + 1, InLine(k, p.header.General?), lost)
      else !lost ==> FailsAt(g, i, o.p.errno)
  {
    hide Good, Inv, Emit, ValueByte, ValueHeader, IsHeaderChar;
    ValueBytes(g, p, Pending(raw, marks, p.state, g.data, i), i, k, lost);
    PendingTakes(raw, marks, p.state, p.state, Value, g.data, i);
  }

  /** A header-value byte changes four fields and nothing else. */
  lemma ValueByteFields(p: Parser, ch: Byte)
    ensures var q := ValueByte(p, ch).p;
      if q.errno == p.errno then
        q == p.(header := q.header, index := q.index, flags := q.flags, contentLength := q.contentLength)
      else q.errno.InvalidContentLength?
  {
    hide TokenStep, SetFlag;
  }

  /** After m > 0 bytes of a value that the call skips; each is counted, the first of them perhaps before. */
  function Skipped(k: Track, m: nat): Track {
    var n := k.c.n + m - (if k.first then 0 else 1);
    if m == 0 then k
    else Track(true, true, Tally(n, if n > k.c.top && (m > 1 || k.first) then n else k.c.top, true))
  }

  lemma {:induction false} SkippedIsTaken(k: Track, p: Parser, m: nat)
    requires p.state.HeaderValue? && p.header.General?
    ensures ManyTaken(k, p, Value, m) == Skipped(k, m)
  {
    if m > 0 {
      SkippedIsTaken(k, p, m - 1);
    }
  }

  lemma SkippedSkips(k: Track, m: nat)
    ensures if m == 0 then Skipped(k, m) == k else Skipped(k, m).skip
  {
  }

  /** The memchr path: a value the matcher ignores, up to the next line end; its first byte is checked. */
  lemma AtValueSkip(g: Goal, p: Parser, raw: seq<Event>, marks: Marks, i: nat, j: nat, k: Track, lost: bool)
    requires At(g, p, raw, marks, i, k, lost) && i < j <= |g.data| && p.state.HeaderValue? && p.header.General?
    requires forall m :: i <= m < j ==> g.data[m] != CR && g.data[m] != LF
    requires k.skip || g.a.lenient || IsHeaderChar(g.data[i])
    ensures At(g, p, raw, marks, j, Skipped(k, j - i), lost)
  {
    hide Good, Inv, Emit, Skipped, IsHeaderChar;
    forall m | i <= m < j
      ensures Micro(p, g.data[m], Checking(g.a, ManyTaken(k, p, Value, m - i).skip)) == Take(p, Value)
    {
      SkippedIsTaken(k, p, m - i);
      assert Skipped(k, m - i).skip || m == i by {
        SkippedSkips(k, m - i);
      }
      TakenInValue(p, g.data[m], Checking(g.a, ManyTaken(k, p, Value, m - i).skip));
    }
    SkippedIsTaken(k, p, j - i);
    BulkTake(g, p, Pending(raw, marks, p.state, g.data, i), i, j, Value, k, lost);
    PendingExtends(raw, marks, p.state, Value, g.data, i, j);
  }

  lemma TakenInValue(p: Parser, ch: Byte, a: Settings)
    requires p.state.HeaderValue? && p.header.General? && ch != CR && ch != LF && (a.lenient || IsHeaderChar(ch))
    ensures Micro(p, ch, a) == Take(p, Value)
  {
  }

  lemma PendingExtends(raw: seq<Event>, marks: Marks, s: State, k: DataKind, data: seq<Byte>, i: nat, j: nat)
    requires MarksOk(marks, s, i) && i <= j <= |data| && OpenData(s) == Some(k) && k in marks
    ensures MarksOk(marks, s, j)
    ensures Pending(raw, marks, s, data, j) == Emit(Pending(raw, marks, s, data, i), Data(k, data[i..j]))
  {
    EmitData(Join(raw), k, data[marks[k]..i], data[i..j]);
    assert data[marks[k]..i] + data[i..j] == data[marks[k]..j];
  }

  /** Skipping past a line end keeps the invariant, though the call is lost. */
  lemma AtValueLost(g: Goal, p: Parser, raw: seq<Event>, marks: Marks, i: nat, j: nat, k: Track, lost: bool)
    requires At(g, p, raw, marks, i, k, lost) && i <= j <= |g.data| && p.state.HeaderValue? && p.header.General?
    ensures forall k' :: At(g, p, raw, marks, j, k', true)
  {
    hide Inv, Emit, OnTrack, AuditOf;
    GeneralValueGrows(p, Pending(raw, marks, p.state, g.data, i), g.data[i..j]);
    PendingExtends(raw, marks, p.state, Value, g.data, i, j);
  }

  // Body bytes.

  function Marked(marks: Marks, k: DataKind, i: nat): Marks { if k in marks then marks else marks[k := i] }

  lemma MarkStartsEmpty(raw: seq<Event>, marks: Marks, s: State, k: DataKind, data: seq<Byte>, i: nat, j: nat)
    requires MarksOk(marks, s, i) && i < j <= |data| && OpenData(s) == Some(k)
    ensures MarksOk(Marked(marks, k, i), s, j)
    ensures Pending(raw, Marked(marks, k, i), s, data, j) == Emit(Pending(raw, marks, s, data, i), Data(k, data[i..j]))
  {
    if k in marks {
      PendingExtends(raw, marks, s, k, data, i, j);
    }
  }

  lemma {:induction false} BodyEofTrack(k: Track, p: Parser, m: nat)
    requires p.state.BodyIdentityEof?
    ensures ManyTaken(k, p, Body, m) == if m == 0 then k else PastBody(k)
  {
    if m > 0 {
      BodyEofTrack(k, p, m - 1);
      BodyTrack(ManyTaken(k, p, Body, m - 1), p, Take(p, Body));
    }
  }

  lemma AtBodyEof(g: Goal, p: Parser, raw: seq<Event>, marks: Marks, i: nat, k: Track, lost: bool)
    requires At(g, p, raw, marks, i, k, lost) && i < |g.data| && p.state.BodyIdentityEof?
    ensures At(g, p, raw, Marked(marks, Body, i), |g.data|, PastBody(k), lost)
  {
    hide Good, Inv, Emit, MarksOk, ManyTaken;
    BodyEofTrack(k, p, |g.data| - i);
    BulkTake(g, p, Pending(raw, marks, p.state, g.data, i), i, |g.data|, Body, k, lost);
    MarkStartsEmpty(raw, marks, p.state, Body, g.data, i, |g.data|);
  }

  /** The length is not used up by this piece. */
  lemma AtBodyPart(g: Goal, p: Parser, raw: seq<Event>, marks: Marks, i: nat, j: nat, k: Track, lost: bool)
    requires At(g, p, raw, marks, i, k, lost) && i < j <= |g.data|
    requires (p.state.BodyIdentity? || p.state.ChunkData?) && j - i < p.contentLength
    ensures At(g, Used(p, j - i), raw, Marked(marks, Body, i), j, PastBody(k), lost)
  {
    hide Good, Inv, Emit, MarksOk;
    BulkBody(g, p, Pending(raw, marks, p.state, g.data, i), i, j, k, lost);
    MarkStartsEmpty(raw, marks, p.state, Body, g.data, i, j);
  }

  lemma LastBodyByte(p: Parser, ch: Byte, a: Settings)
    requires (p.state.BodyIdentity? || p.state.ChunkData?) && p.contentLength == 1
    ensures p.state.BodyIdentity? ==>
      Micro(p, ch, a) == Outcome(Used(p, 1).(state := MessageDone), Some(Body), [], Again)
    ensures p.state.ChunkData? ==> Micro(p, ch, a) == Take(Used(p, 1).(state := ChunkDataAlmostDone), Body)
  {
  }

  lemma GoodLastByte(g: Goal, p: Parser, t: seq<Event>, i: nat, k: Track, lost: bool)
    requires Good(g, p, t, i, k, lost) && i < |g.data|
    requires (p.state.BodyIdentity? || p.state.ChunkData?) && p.contentLength == 1
    ensures p.state.BodyIdentity? ==>
      Good(g, Used(p, 1).(state := MessageDone), Emit(t, Data(Body, [g.data[i]])), i, PastBody(k).(first := false),
           lost)
    ensures p.state.ChunkData? ==>
      Good(g, Used(p, 1).(state := ChunkDataAlmostDone), Emit(t, Data(Body, [g.data[i]])), i + 1, PastBody(k), lost)
  {
    hide Micro, Inv, AuditOf, OnTrack, Onward, ParsingHeader;
    var o := Micro(p, g.data[i], Checking(g.a, k.skip));
    LastBodyByte(p, g.data[i], Checking(g.a, k.skip));
    GoodIsOk(g, p, t, i, k, lost);
    CountByte(g, p, t, i, k, lost);
    BodyTrack(k, p, o);
    GoodStep(g, p, t, i, k.(first := false), lost, o);
  }

  /** The last announced byte is at j - 1. */
  lemma AtBodyEnd(g: Goal, p: Parser, raw: seq<Event>, marks: Marks, i: nat, j: nat, k: Track, lost: bool)
    requires At(g, p, raw, marks, i, k, lost) && i < j <= |g.data|
    requires (p.state.BodyIdentity? || p.state.ChunkData?) && j - i == p.contentLength
    ensures p.state.BodyIdentity? ==>
      MarksOk(Marked(marks, Body, i), p.state, j) &&
      forall raw' | Join(raw') == Pending(raw, Marked(marks, Body, i), p.state, g.data, j) ::
        At(g, Used(p, j - i).(state := MessageDone), raw', map[], j - 1, PastBody(k).(first := false), lost)
    ensures p.state.ChunkData? ==>
      At(g, Used(p, j - i).(state := ChunkDataAlmostDone), raw, Marked(marks, Body, i), j, PastBody(k), lost)
  {
    hide Good, Inv, Emit, Pending, Used, Marked, MarksOk;
    GoodBodyEnd(g, p, Pending(raw, marks, p.state, g.data, i), i, j, k, lost);
    BodyIsOpen(p.state);
    MarkStartsEmpty(raw, marks, p.state, Body, g.data, i, j);
    if p.state.BodyIdentity? {
      forall raw' | Join(raw') == Pending(raw, Marked(marks, Body, i), p.state, g.data, j)
        ensures At(g, Used(p, j - i).(state := MessageDone), raw', map[], j - 1, PastBody(k).(first := false), lost)
      {
        NoneOpen(raw', MessageDone, g.data, j - 1);
      }
    } else {
      StaysPending(raw, Marked(marks, Body, i), g.data, j);
    }
  }

  /** Bytes i to j of a body of known length: some of the rest of it, or all. */
  lemma AtBodyRead(g: Goal, p: Parser, raw: seq<Event>, marks: Marks, i: nat, j: nat, k: Track, lost: bool)
    requires At(g, p, raw, marks, i, k, lost) && i < j <= |g.data| && p.state.BodyIdentity? && j - i <= p.contentLength
    ensures j - i < p.contentLength ==>
      At(g, p.(contentLength := p.contentLength - (j - i)), raw, Marked(marks, Body, i), j, PastBody(k), lost)
    ensures j - i == p.contentLength ==>
      MarksOk(Marked(marks, Body, i), p.state, j) &&
      forall raw' | Join(raw') == Pending(raw, Marked(marks, Body, i), p.state, g.data, j) ::
        At(g, p.(contentLength := 0, state := MessageDone), raw', map[], j - 1, PastBody(k).(first := false), lost)
  {
    hide At, MarksOk, Pending, Marked, PastBody;
    if j - i == p.contentLength {
      AtBodyEnd(g, p, raw, marks, i, j, k, lost);
    } else {
      AtBodyPart(g, p, raw, marks, i, j, k, lost);
    }
  }

  lemma BodyIsOpen(s: State)
    ensures s.BodyIdentity? || s.ChunkData? ==> OpenData(s) == Some(Body)
  {
  }

  lemma NoneOpen(raw: seq<Event>, s: State, data: seq<Byte>, i: nat)
    requires s.MessageDone? && i <= |data|
    ensures MarksOk(map[], s, i) && Pending(raw, map[], s, data, i) == Join(raw)
  {
  }

  lemma StaysPending(raw: seq<Event>, marks: Marks, data: seq<Byte>, j: nat)
    requires MarksOk(marks, ChunkData, j) && j <= |data|
    ensures MarksOk(marks, ChunkDataAlmostDone, j)
    ensures Pending(raw, marks, ChunkDataAlmostDone, data, j) == Pending(raw, marks, ChunkData, data, j)
  {
  }

  /** All announced bytes, the last of them at j - 1. */
  lemma GoodBodyEnd(g: Goal, p: Parser, t: seq<Event>, i: nat, j: nat, k: Track, lost: bool)
    requires Good(g, p, t, i, k, lost) && i < j <= |g.data|
    requires (p.state.BodyIdentity? || p.state.ChunkData?) && j - i == p.contentLength
    ensures p.state.BodyIdentity? ==>
      Good(g, Used(p, j - i).(state := MessageDone), Emit(t, Data(Body, g.data[i..j])), j - 1,
           PastBody(k).(first := false), lost)
    ensures p.state.ChunkData? ==>
      Good(g, Used(p, j - i).(state := ChunkDataAlmostDone), Emit(t, Data(Body, g.data[i..j])), j, PastBody(k), lost)
  {
    hide Good, Emit;
    var q := Used(p, j - 1 - i);
    var x, last := g.data[i..j - 1], g.data[j - 1];
    if i < j - 1 {
      BulkBody(g, p, t, i, j - 1, k, lost);
      GoodLastByte(g, q, Emit(t, Data(Body, x)), j - 1, PastBody(k), lost);
      EmitData(t, Body, x, [last]);
      assert x + [last] == g.data[i..j];
    } else {
      GoodLastByte(g, p, t, i, k, lost);
      assert g.data[i..j] == [g.data[i]];
    }
    assert Used(q, 1) == Used(p, j - i);
  }

  lemma AtBodyLength(g: Goal, p: Parser, raw: seq<Event>, marks: Marks, i: nat, k: Track, lost: bool)
    requires At(g, p, raw, marks, i, k, lost) && (p.state.BodyIdentity? || p.state.ChunkData?)
    ensures 0 < p.contentLength < NO_LENGTH && (p.state.ChunkData? ==> p.flags.chunked)
  {
    hide Inv, Good, AuditOf, Emit;
    GoodIsOk(g, p, Pending(raw, marks, p.state, g.data, i), i, k, lost);
    AfterHeadInv(p, AuditOf(Pending(raw, marks, p.state, g.data, i)));
  }

  /** A call begins with the goal ahead of it, and the mark of data that continues at byte 0. */
  lemma AtStart(g: Goal, p: Parser, raw: seq<Event>, marks: Marks, n: nat)
    requires Inv(p, AuditOf(Join(raw))) && g.end == Call(p, Join(raw), n, g.data, g.a)
    requires marks == if Continues(p.state) then map[OpenData(p.state).value := 0] else map[]
    ensures At(g, p, raw, marks, 0, NewCall(n), false)
  {
    hide Inv, AuditOf, Emit;
    if Continues(p.state) {
      ContinuedMark(p, Join(raw));
      assert g.data[0..0] == [];
    }
  }

  lemma GoodEnd(g: Goal, p: Parser, t: seq<Event>, k: Track, lost: bool)
    requires Good(g, p, t, |g.data|, k, lost)
    ensures Inv(p, AuditOf(t)) && (!lost ==> Reaches(g, p, t, |g.data|, false, k))
  {
    if !lost {
      Arrived(g, p, t, k);
    }
  }
}
