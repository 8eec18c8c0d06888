/**
 http_parser_execute: a parser object that reads a piece of input in bulk, reporting data
 by marking where it started in the piece, and that refines the one-byte machine.
 */
module HttpParsing {
  import opened HttpChars
  import opened HttpMachine
  import opened HttpRun
  import opened HttpCalls
  import opened HttpFraming
  import opened HttpInvariant
  import opened HttpMarks
  import opened HttpTracking
  import opened Options

  const TWO_32: nat := 0x1_0000_0000

  /** Pieces shorter than this cannot wrap the 32-bit byte counter past its limit. */
  const EXACT_PIECE: nat := TWO_32 - MAX_HEADER_SIZE

  /** Failed: the call returns early with an error. */
  datatype Control = Proceeding | Rescan | Leaving | Failed

  method MemChr(data: seq<Byte>, from: nat, limit: nat, c: Byte) returns (r: Option<nat>)
    requires from + limit <= |data|
    ensures r.Some? ==> from <= r.value < from + limit && data[r.value] == c
    ensures r.Some? ==> forall i :: from <= i < r.value ==> data[i] != c
    ensures r.None? ==> forall i :: from <= i < from + limit ==> data[i] != c
  {
    for i := from to from + limit
      invariant forall j :: from <= j < i ==> data[j] != c
    {
      if data[i] == c { return Some(i); }
    }
    return None;
  }

  /** The two memchr calls, which look at no more than the header size limit. */
  method NextLineEnd(data: seq<Byte>, p: nat) returns (to: nat)
    requires p < |data| && data[p] != CR && data[p] != LF
    ensures p < to <= |data|
    ensures to < |data| ==> data[to] == CR || data[to] == LF
    ensures forall m :: p <= m < to && m < p + MAX_HEADER_SIZE ==> data[m] != CR && data[m] != LF
    ensures to > p + MAX_HEADER_SIZE ==> to == |data|
  {
    var limit := if |data| - p < MAX_HEADER_SIZE then |data| - p else MAX_HEADER_SIZE;
    var cr := MemChr(data, p, limit, CR);
    var lf := MemChr(data, p, limit, LF);
    if cr.Some? {
      to := if lf.Some? && cr.value >= lf.value then lf.value else cr.value;
    } else {
      to := if lf.Some? then lf.value else |data|;
    }
  }

  class HttpParser {
    var kind: Kind
    var flags: Flags
    var state: State
    var header: HeaderState
    var index: nat
    var lenient: bool
    var nread: nat
    var contentLength: nat
    var major: nat
    var minor: nat
    var status: nat
    var verb: Method
    var errno: Errno
    var upgrade: bool
    ghost var trace: seq<Event>  // every callback run so far

    function View(): Parser
      reads this
    {
      Parser(kind, flags, state, header, index, contentLength, major, minor, status, verb, errno, upgrade)
    }

    ghost predicate Valid()
      reads this
    {
      && nread < TWO_32
      && AuditOf(Join(trace)).ok
      && (errno.OK? ==>
            Inv(View(), AuditOf(Join(trace))) && (state.ChunkSizeStart? ==> nread == 0) && nread <= MAX_HEADER_SIZE)
    }

    /** http_parser_init. */
    constructor (t: Kind)
      ensures Valid() && trace == [] && errno.OK? && !lenient
      ensures kind == t
      ensures state == (match t case Request => StartReq case Response => StartRes case Both => StartReqOrRes)
    {
      kind, flags, header, index, lenient, nread := t, NO_FLAGS, General, 0, false, 0;
      state := match t case Request => StartReq case Response => StartRes case Both => StartReqOrRes;
      contentLength, major, minor, status, verb, errno, upgrade := 0, 0, 0, 0, DELETE, OK, false;
      trace := [];
    }

    /** The call ends here with the error it has to end with. */
    ghost predicate Fails(g: Goal, i: nat, lost: bool)
      reads this
    {
      && !errno.OK? && !errno.HeaderOverflow? && AuditOf(Join(trace)).ok
      && (!lost ==> FailsAt(g, i, errno))
    }

    /** The call ends here because the headers are too long. */
    ghost predicate Overflow(g: Goal, lost: bool)
      reads this
    {
      && errno.HeaderOverflow? && AuditOf(Join(trace)).ok
      && (!lost ==> CountAfter(g.end).top > MAX_HEADER_SIZE)
    }

    /** COUNT_HEADER_SIZE on the 32-bit counter. */
    method Count(v: nat)
      requires nread < TWO_32
      modifies `nread, `errno
      ensures nread == (old(nread) + v) % TWO_32
      ensures errno == if nread > MAX_HEADER_SIZE then HeaderOverflow else old(errno)
    {
      nread := (nread + v) % TWO_32;
      if nread > MAX_HEADER_SIZE { errno := HeaderOverflow; }
    }

    /** The bytes of a line are counted together; a piece that is not too long cannot wrap the counter. */
    method CountLine(v: nat, ghost lost: bool)
      requires errno.OK? && nread <= MAX_HEADER_SIZE && (lost || v < EXACT_PIECE)
      modifies `nread, `errno
      ensures nread < TWO_32 && (errno.OK? || errno.HeaderOverflow?)
      ensures errno.OK? ==> nread <= MAX_HEADER_SIZE && (lost || nread == old(nread) + v)
      ensures errno.HeaderOverflow? && !lost ==> old(nread) + v > MAX_HEADER_SIZE
    {
      Count(v);
    }

    /** CALLBACK_DATA: report the data under way up to byte i and clear its mark. */
    method CallbackData(k: DataKind, data: seq<Byte>, i: nat, marks: Marks, ghost s: State) returns (rest: Marks)
      requires OpenData(s) == Some(k) && MarksOk(marks, s, i) && i <= |data|
      modifies `trace
      ensures rest == map[]
      ensures Join(trace) == Pending(old(trace), marks, s, data, i)
    {
      if k in marks {
        JoinAppend(trace, Data(k, data[marks[k]..i]));
        trace := trace + [Data(k, data[marks[k]..i])];
      }
      rest := marks - {k};
      assert rest == map[];
    }

    method Store(q: Parser)
      modifies this
      ensures View() == q && trace == old(trace) && nread == old(nread) && lenient == old(lenient)
    {
      kind, flags, state, header, index := q.kind, q.flags, q.state, q.header, q.index;
      contentLength, major, minor, status := q.contentLength, q.major, q.minor, q.status;
      verb, errno, upgrade := q.verb, q.errno, q.upgrade;
    }

    /** One pass through the `switch` in a state that reads a single byte. */
    method Step(data: seq<Byte>, p: nat, marks: Marks, a: Settings, ghost g: Goal, ghost k: Track, ghost lost: bool)
      returns (rest: Marks, next: Control, ghost k': Track)
      requires g.data == data && g.a == a && p < |data| && !ReadInBulk(state) && !k.first
      requires At(g, View(), trace, marks, p, k, lost) && (lost || Tallied(k, nread, false))
      modifies this
      ensures lenient == old(lenient) && (nread == old(nread) || nread == 0)
      ensures !next.Failed? ==> !k'.skip && !k'.c.inside && (lost || Tallied(k', nread, false))
      ensures next.Proceeding? ==> k'.first && At(g, View(), trace, rest, p + 1, k', lost)
      ensures (next.Proceeding? || next.Leaving?) && state.ChunkSizeStart? ==> nread == 0
      ensures next.Rescan? ==> !k'.first && At(g, View(), trace, rest, p, k', lost) && Rank(state) < Rank(old(state))
      ensures next.Leaving? ==>
        upgrade && Inv(View(), AuditOf(Join(trace))) && (!lost ==> Reaches(g, View(), Join(trace), p + 1, true, k'))
      ensures next.Rescan? ==> !ReadInBulk(state)
      ensures next.Failed? ==> Fails(g, p, lost)
    {
      hide At, Micro, Inv, AuditOf, MarksOk, Emit, Rank, Reaches;
      var o := Micro(View(), data[p], a);
      AtIsOk(g, View(), trace, marks, p, k, lost);
      AtStep(g, View(), trace, marks, p, k, lost, o);
      k' := Onward(k, View(), o);
      if !o.p.errno.OK? {
        errno := o.p.errno;
        rest, next := marks, Failed;
        return;
      }
      if state.HeadersDone? || state.ChunkSizeAlmostDone? || state.ChunkDataDone? { nread := 0; }
      if o.take.Some? {
        rest := if o.take.value in marks then marks else marks[o.take.value := p];
      } else if OpenData(state).Some? {
        rest := CallbackData(OpenData(state).value, data, p, marks, state);
      } else {
        NoOpenData(marks, state, p);
        rest := marks;
      }
      assert o.take.None? ==> AtAfter(g, o, trace + o.notes, p, k', lost);
      assert o.take.Some? ==> trace + o.notes == trace;
      Store(o.p);
      trace := trace + o.notes;
      next := match o.next case Advance => Proceeding case Again => Rescan case Stop => Leaving;
    }

    /** The header-name loop. */
    method ReadHeaderField(data: seq<Byte>, from: nat, marks: Marks, ghost g: Goal, ghost k: Track, ghost lost: bool)
      returns (p: nat, rest: Marks, next: Control, ghost k': Track)
      requires g.data == data && from < |data| && 0 < nread <= MAX_HEADER_SIZE && (lost || |data| < EXACT_PIECE)
      requires state.HeaderField? && At(g, View(), trace, marks, from, k, lost)
      requires !k.first && !k.skip && (lost || Tallied(k, nread, false))
      modifies this
      ensures lenient == old(lenient) && nread < TWO_32 && from <= p <= |data|
      ensures next.Proceeding? || next.Failed?
      ensures next.Proceeding? ==>
        p < |data| && nread <= MAX_HEADER_SIZE && !state.ChunkSizeStart? && k'.first && !k'.skip
      ensures next.Proceeding? ==>
        At(g, View(), trace, rest, p + 1, k', lost) && (lost || Tallied(k', nread, p + 1 == |data|))
      ensures next.Proceeding? && p + 1 < |data| ==> !k'.c.inside
      ensures next.Failed? ==> Fails(g, p, lost) || Overflow(g, lost)
    {
      hide At, Inv, AuditOf, Emit, NameStep, Token, MarksOk, Pending, FieldHeader, CountAfter, FailsAt;
      p, rest, k' := from, marks, k;
      if !lost {
        StartsWaiting(k, nread);
      }
      while p < |data| && Token(data[p]) != NUL
        invariant from <= p <= |data| && state.HeaderField?
        invariant At(g, View(), trace, marks, p, k', lost) && (k'.first <==> p > from) && !k'.skip
        invariant lost || Waiting(k', nread, p - from)
        invariant lenient == old(lenient) && nread == old(nread) && trace == old(trace)
      {
        AtCount(g, View(), trace, marks, p, k', lost);
        AtNameByte(g, View(), trace, marks, p, HttpCalls.Count(k', state), lost);
        assert FieldHeader(header);  // the source's "Unknown header_state" cannot happen
        if !lost {
          WaitsOn(k', state, nread, p - from, false);
        }
        k' := InLine(HttpCalls.Count(k', state), false);
        var r := NameStep(header, index, Token(data[p]));
        header, index := r.0, r.1;
        p := p + 1;
      }
      rest, next, p, k' := EndHeaderField(data, from, p, marks, g, k', lost);
    }

    /** The end of a name, or of the piece inside it. */
    method EndHeaderField(data: seq<Byte>, from: nat, end: nat, marks: Marks, ghost g: Goal, ghost k: Track,
        ghost lost: bool)
      returns (rest: Marks, next: Control, p: nat, ghost k': Track)
      requires g.data == data && from <= end <= |data| && from < |data| && (end < |data| ==> Token(data[end]) == NUL)
      requires 0 < nread <= MAX_HEADER_SIZE && (lost || |data| < EXACT_PIECE)
      requires state.HeaderField? && At(g, View(), trace, marks, end, k, lost)
      requires (k.first <==> end > from) && !k.skip && (lost || Waiting(k, nread, end - from))
      modifies this
      ensures lenient == old(lenient) && nread < TWO_32 && from <= p <= end
      ensures next.Proceeding? || next.Failed?
      ensures next.Proceeding? ==>
        p < |data| && nread <= MAX_HEADER_SIZE && !state.ChunkSizeStart? && k'.first && !k'.skip
      ensures next.Proceeding? ==> At(g, View(), trace, rest, p + 1, k', lost)
      ensures next.Proceeding? ==> lost || Tallied(k', nread, p + 1 == |data|)
      ensures next.Proceeding? && p + 1 < |data| ==> !k'.c.inside
      ensures next.Failed? ==> Fails(g, p, lost) || Overflow(g, lost)
    {
      hide At, Inv, AuditOf, Emit, Token, MarksOk, Pending, CountAfter, FailsAt, Waiting, Tallied, LineLeft;
      hide HttpCalls.Count;
      p, rest, k' := end, marks, k;
      AtIsOk(g, View(), trace, marks, p, k, lost);
      AtLineEnd(g, View(), trace, marks, p, k, lost, nread, p - from);
      CountLine(p - from, lost);
      if !errno.OK? { next := Failed; return; }
      if p == |data| {
        p, next := p - 1, Proceeding;
        return;
      }
      CountedOnce(k, state);
      k' := HttpCalls.Count(k, state);
      if !lost {
        LeftTallied(k, state, nread, true);
      }
      rest, next := AfterHeaderField(data, p, marks, g, k', lost);
      k' := LineLeft(k', true);
      LeftIs(HttpCalls.Count(k, HeaderField), true);
    }

    /** The byte behind a name. */
    method AfterHeaderField(data: seq<Byte>, p: nat, marks: Marks, ghost g: Goal, ghost k: Track, ghost lost: bool)
      returns (rest: Marks, next: Control)
      requires g.data == data && p < |data| && Token(data[p]) == NUL && !k.first
      requires state.HeaderField? && At(g, View(), trace, marks, p, k, lost)
      modifies `state, `errno, `trace
      ensures next == if data[p] == ':' then Proceeding else Failed
      ensures next.Proceeding? ==>
        state.HeaderValueDiscardWs? && At(g, View(), trace, rest, p + 1, LineLeft(k, true), lost)
      ensures next.Failed? ==> Fails(g, p, lost)
    {
      hide At, Inv, AuditOf, Emit, Token, MarksOk, Pending, FailsAt, LineLeft;
      AtIsOk(g, View(), trace, marks, p, k, lost);
      AtNameEnd(g, View(), trace, marks, p, k, lost);
      if data[p] == ':' {
        rest := CallbackData(Field, data, p, marks, state);
        state, next := HeaderValueDiscardWs, Proceeding;
      } else {
        rest, errno, next := marks, InvalidHeaderToken, Failed;
      }
    }

    /** A line end inside a header value; `h` is the matcher's state, not yet written back. */
    method EndHeaderValue(data: seq<Byte>, from: nat, p: nat, h: HeaderState, marks: Marks, ghost g: Goal,
        ghost k: Track, ghost lost: bool)
      returns (rest: Marks, next: Control, ghost k': Track)
      requires g.data == data && from <= p < |data| && (data[p] == CR || data[p] == LF)
      requires nread <= MAX_HEADER_SIZE && (lost || |data| < EXACT_PIECE)
      requires state.HeaderValue? && At(g, View().(header := h), trace, marks, p, k, lost)
      requires lost || Waiting(k, nread, p - from)
      modifies this
      ensures lenient == old(lenient) && nread < TWO_32
      ensures next.Failed? ==> Overflow(g, lost)
      ensures !next.Failed? ==> state.HeaderAlmostDone? && next == if data[p] == CR then Proceeding else Rescan
      ensures !next.Failed? ==>
        nread <= MAX_HEADER_SIZE && !k'.skip && !k'.c.inside && (lost || Tallied(k', nread, false))
      ensures next.Proceeding? ==> k'.first && At(g, View(), trace, rest, p + 1, k', lost)
      ensures next.Rescan? ==> !k'.first && At(g, View(), trace, rest, p, k', lost)
    {
      hide At, Inv, AuditOf, Emit, MarksOk, Pending, CountAfter, Waiting, Tallied, LineLeft, HttpCalls.Count;
      ghost var q, k1 := View().(header := h), HttpCalls.Count(k, state);
      AtIsOk(g, q, trace, marks, p, k, lost);
      AtLineEnd(g, q, trace, marks, p, k, lost, nread, p - from);
      CountedOnce(k, state);
      if !lost && nread + p - from <= MAX_HEADER_SIZE {
        LeftTallied(k, state, nread + p - from, data[p] == CR);
      }
      k' := LineLeft(k1, data[p] == CR);
      LeftIs(k1, data[p] == CR);
      if data[p] == CR {
        rest := ReportValue(data, p, h, marks, g, k1, lost);
        AtIsOk(g, View(), trace, rest, p + 1, k', lost);
        CountLine(p - from, lost);
        next := if errno.OK? then Proceeding else Failed;
      } else {
        CountLine(p - from, lost);
        rest, next := marks, Failed;
        if errno.OK? {
          rest := ReportValue(data, p, h, marks, g, k1, lost);
          next := Rescan;
        }
      }
    }

    /** The value before a line end is reported. */
    method ReportValue(data: seq<Byte>, p: nat, h: HeaderState, marks: Marks, ghost g: Goal, ghost k: Track,
        ghost lost: bool)
      returns (rest: Marks)
      requires g.data == data && p < |data| && (data[p] == CR || data[p] == LF) && !k.first
      requires state.HeaderValue? && At(g, View().(header := h), trace, marks, p, k, lost)
      modifies `header, `state, `trace
      ensures state.HeaderAlmostDone?
      ensures At(g, View(), trace, rest, if data[p] == CR then p + 1 else p, LineLeft(k, data[p] == CR), lost)
    {
      hide At, Inv, AuditOf, Emit, MarksOk, Pending, LineLeft;
      ghost var q := View().(header := h);
      AtIsOk(g, q, trace, marks, p, k, lost);
      AtValueLineEnds(g, q, trace, marks, p, k, lost);
      header := h;
      rest := CallbackData(Value, data, p, marks, state);
      state := HeaderAlmostDone;
    }

    /** The inner `switch` of the header-value loop, for values the matcher looks at. */
    method MatchValueByte(data: seq<Byte>, p: nat, h: HeaderState, marks: Marks, ghost g: Goal, ghost k: Track,
        ghost lost: bool)
      returns (h': HeaderState, ok: bool)
      requires g.data == data && p < |data| && data[p] != CR && data[p] != LF && !h.General?
      requires (g.a.lenient || IsHeaderChar(data[p])) && !k.first && !k.skip
      requires state.HeaderValue? && At(g, View().(header := h), trace, marks, p, k, lost)
      modifies `header, `index, `flags, `contentLength, `errno
      ensures ok ==> errno == old(errno) && At(g, View().(header := h'), trace, marks, p + 1, InLine(k, false), lost)
      ensures !ok ==> Fails(g, p, lost)
    {
      hide At, Inv, AuditOf, ValueByte, ValueHeader, IsHeaderChar, FailsAt;
      ghost var q := View().(header := h);
      AtIsOk(g, q, trace, marks, p, k, lost);
      AtValueByte(g, q, trace, marks, p, k, lost);
      StartedValue(h);
      assert !h.Connection? && !h.TransferEncoding?;  // the source's "Shouldn't get here."
      var o := ValueByte(View().(header := h), data[p]);
      ValueByteFields(q, data[p]);
      if !o.p.errno.OK? {
        errno, header := o.p.errno, h;
        return h, false;
      }
      index, flags, contentLength := o.p.index, o.p.flags, o.p.contentLength;
      return o.p.header, true;
    }

    /** The memchr path on a checked byte of a value that the matcher ignores; `over`: no line end within the limit. */
    method SkipValue(data: seq<Byte>, from: nat, p: nat, marks: Marks, ghost q: Parser, ghost g: Goal, ghost k: Track,
        ghost lost: bool)
      returns (to: nat, ghost k': Track, ghost over: bool)
      requires g.data == data && from <= p < |data| && data[p] != CR && data[p] != LF && 0 < nread
      requires (g.a.lenient || IsHeaderChar(data[p])) && !k.first
      requires lost || (k.c.n == nread + p - from && (k.c.top <= MAX_HEADER_SIZE || k.c.top <= nread + p - from))
      requires q.state.HeaderValue? && q.header.General? && At(g, q, trace, marks, p, k, lost)
      ensures p < to <= |data| && k'.first && k'.skip && (to < |data| ==> data[to] == CR || data[to] == LF)
      ensures over ==> to == |data| && to > p + MAX_HEADER_SIZE && !lost && CountAfter(g.end).top > MAX_HEADER_SIZE
      ensures !over ==> At(g, q, trace, marks, to, k', lost) && (lost || Waiting(k', nread, to - from))
    {
      hide At, IsHeaderChar, CountAfter;
      to := NextLineEnd(data, p);
      k' := Skipped(k, to - p);
      over := !lost && to > p + MAX_HEADER_SIZE;
      if to <= p + MAX_HEADER_SIZE {
        AtValueSkip(g, q, trace, marks, p, to, k, lost);
      } else if lost {
        AtValueLost(g, q, trace, marks, p, to, k, lost);
      } else {
        ghost var j := p + MAX_HEADER_SIZE;
        AtValueSkip(g, q, trace, marks, p, j, k, lost);
        AtCount(g, q, trace, marks, j, Skipped(k, j - p), lost);
        AtTop(g, q, trace, marks, j, HttpCalls.Count(Skipped(k, j - p), q.state), lost);
      }
    }

    /** The header-value loop, with its memchr path for values the matcher ignores. */
    method ReadHeaderValue(data: seq<Byte>, from: nat, marks: Marks, ghost g: Goal, ghost k: Track, ghost lost: bool)
      returns (p: nat, rest: Marks, next: Control, ghost k': Track)
      requires g.data == data && g.a.lenient == lenient && from < |data|
      requires 0 < nread <= MAX_HEADER_SIZE && (lost || |data| < EXACT_PIECE)
      requires state.HeaderValue? && At(g, View(), trace, marks, from, k, lost) && !k.first && !k.skip
      requires lost || Tallied(k, nread, false)
      modifies this
      ensures lenient == old(lenient) && nread < TWO_32 && from <= p <= |data| && !next.Leaving?
      ensures next.Proceeding? ==> p < |data| && !state.ChunkSizeStart? && k'.first
      ensures next.Proceeding? ==>
        At(g, View(), trace, rest, p + 1, k', lost) && (lost || Tallied(k', nread, p + 1 == |data|))
      ensures next.Proceeding? && p + 1 < |data| ==> !k'.skip && !k'.c.inside
      ensures next.Rescan? ==> p < |data| && state.HeaderAlmostDone? && !k'.first && !k'.skip && !k'.c.inside
      ensures next.Rescan? ==> At(g, View(), trace, rest, p, k', lost) && (lost || Tallied(k', nread, false))
      ensures next.Failed? ==> Fails(g, p, lost) || Overflow(g, lost)
      ensures !next.Failed? ==> nread <= MAX_HEADER_SIZE
    {
      hide At, Inv, AuditOf, Emit, ValueByte, IsHeaderChar, ValueHeader, MarksOk, Pending, CountAfter, FailsAt, Waiting;
      p, rest, k' := from, marks, k;
      var h := header;
      ghost var over := false;
      AtIsOk(g, View(), trace, marks, p, k, lost);
      if !lost {
        StartsWaiting(k, nread);
      }
      while p < |data|
        invariant from <= p <= |data| && state.HeaderValue? && errno.OK?
        invariant over ==> p == |data| && p > from + MAX_HEADER_SIZE && !lost && CountAfter(g.end).top > MAX_HEADER_SIZE
        invariant over || At(g, View().(header := h), trace, marks, p, k', lost)
        invariant over || lost || Waiting(k', nread, p - from)
        invariant k'.skip && p < |data| ==> data[p] == CR || data[p] == LF
        invariant p == |data| ==> k'.first && p > from
        invariant lenient == old(lenient) && nread == old(nread) && trace == old(trace)
        decreases |data| - p
      {
        var ch := data[p];
        ghost var q := View().(header := h);
        if ch == CR || ch == LF {
          rest, next, k' := EndHeaderValue(data, from, p, h, marks, g, k', lost);
          return;
        }
        AtCount(g, q, trace, marks, p, k', lost);
        AtIsOk(g, q, trace, marks, p, k', lost);
        if !lost {
          WaitsOn(k', state, nread, p - from, false);
        }
        k' := HttpCalls.Count(k', state);
        if !lenient && !IsHeaderChar(ch) {
          AtValueByte(g, q, trace, marks, p, k', lost);
          errno, next := InvalidHeaderToken, Failed;
          return;
        }
        if h.General? {
          var to;
          to, k', over := SkipValue(data, from, p, marks, q, g, k', lost);
          p := to;
        } else {
          var ok: bool;
          h, ok := MatchValueByte(data, p, h, marks, g, k', lost);
          if !ok { next := Failed; return; }
          k' := InLine(k', false);
          p := p + 1;
        }
      }
      header := h;
      if !over {
        AtLineEnd(g, View(), trace, marks, p, k', lost, nread, p - from);
      }
      CountLine(p - from, lost);
      if !errno.OK? { next := Failed; return; }
      p, next := p - 1, Proceeding;
    }

    /** s_body_identity: as much of the announced length as this piece holds. */
    method ReadBodyIdentity(data: seq<Byte>, from: nat, marks: Marks, ghost g: Goal, ghost k: Track, ghost lost: bool)
      returns (p: nat, rest: Marks, next: Control)
      requires g.data == data && from < |data|
      requires state.BodyIdentity? && At(g, View(), trace, marks, from, k, lost)
      modifies `contentLength, `state, `trace
      ensures from <= p < |data| && (next.Proceeding? || next.Rescan?)
      ensures next.Proceeding? ==> At(g, View(), trace, rest, p + 1, PastBody(k), lost) && state.BodyIdentity?
      ensures next.Rescan? ==> At(g, View(), trace, rest, p, PastBody(k).(first := false), lost) && state.MessageDone?
    {
      hide At, Inv, AuditOf, Emit, MarksOk, Pending, Marked, PastBody;
      AtBodyLength(g, View(), trace, marks, from, k, lost);
      assert contentLength != 0 && contentLength != NO_LENGTH;
      var toRead := if contentLength < |data| - from then contentLength else |data| - from;
      rest := Marked(marks, Body, from);
      AtBodyRead(g, View(), trace, marks, from, from + toRead, k, lost);
      p, next := from + toRead - 1, Proceeding;
      contentLength := contentLength - toRead;
      if contentLength == 0 {
        ghost var s := state;
        state := MessageDone;
        rest := CallbackData(Body, data, p + 1, rest, s);
        next := Rescan;
      }
    }

    /** s_chunk_data. */
    method ReadChunkData(data: seq<Byte>, from: nat, marks: Marks, ghost g: Goal, ghost k: Track, ghost lost: bool)
      returns (p: nat, rest: Marks)
      requires g.data == data && from < |data|
      requires state.ChunkData? && At(g, View(), trace, marks, from, k, lost)
      modifies `contentLength, `state
      ensures from <= p < |data| && At(g, View(), trace, rest, p + 1, PastBody(k), lost) && !state.ChunkSizeStart?
    {
      hide At, Inv, AuditOf, Emit, MarksOk, Pending;
      AtBodyLength(g, View(), trace, marks, from, k, lost);
      assert flags.chunked && contentLength != 0 && contentLength != NO_LENGTH;
      var toRead := if contentLength < |data| - from then contentLength else |data| - from;
      rest := Marked(marks, Body, from);
      if toRead == contentLength {
        AtBodyEnd(g, View(), trace, marks, from, from + toRead, k, lost);
      } else {
        AtBodyPart(g, View(), trace, marks, from, from + toRead, k, lost);
      }
      p := from + toRead - 1;
      contentLength := contentLength - toRead;
      if contentLength == 0 { state := ChunkDataAlmostDone; }
    }

    /** One pass through the `switch`; p is where the source's p stands afterwards. */
    method Dispatch(data: seq<Byte>, from: nat, marks: Marks, a: Settings, ghost g: Goal, ghost k: Track,
        ghost lost: bool)
      returns (p: nat, rest: Marks, next: Control, ghost k': Track)
      requires g.data == data && g.a == a && a.lenient == lenient && from < |data| && nread <= MAX_HEADER_SIZE
      requires (state.HeaderField? || state.HeaderValue? ==> 0 < nread) && (lost || |data| < EXACT_PIECE)
      requires At(g, View(), trace, marks, from, k, lost) && !k.first && !k.skip && (lost || Tallied(k, nread, false))
      modifies this
      ensures lenient == old(lenient) && nread < TWO_32 && from <= p <= |data|
      ensures !next.Failed? ==> p < |data| && nread <= MAX_HEADER_SIZE
      ensures next.Proceeding? ==> k'.first && At(g, View(), trace, rest, p + 1, k', lost)
      ensures next.Proceeding? ==>
        (lost || Tallied(k', nread, p + 1 == |data|)) && (p + 1 < |data| ==> !k'.skip && !k'.c.inside)
      ensures (next.Proceeding? || next.Leaving?) && state.ChunkSizeStart? ==> nread == 0
      ensures next.Rescan? ==> At(g, View(), trace, rest, p, k', lost) && !ReadInBulk(state)
      ensures next.Rescan? ==>
        !k'.first && !k'.skip && (lost || Tallied(k', nread, false)) && Rank(state) < Rank(old(state))
      ensures next.Leaving? ==> upgrade && Inv(View(), AuditOf(Join(trace))) && (lost || Tallied(k', nread, true))
      ensures next.Leaving? && !lost ==> Reaches(g, View(), Join(trace), p + 1, true, k')
      ensures next.Failed? ==> Fails(g, p, lost) || Overflow(g, lost)
    {
      hide At, Inv, AuditOf, Micro, Reaches, Fails, MarksOk, Overflow, Pending;
      LoopsLowerRank();
      hide Rank;
      p := from;
      AtIsOk(g, View(), trace, marks, from, k, lost);
      if state.HeaderField? {
        p, rest, next, k' := ReadHeaderField(data, from, marks, g, k, lost);
      } else if state.HeaderValue? {
        p, rest, next, k' := ReadHeaderValue(data, from, marks, g, k, lost);
      } else if state.BodyIdentity? {
        p, rest, next := ReadBodyIdentity(data, from, marks, g, k, lost);
        k' := if next.Rescan? then PastBody(k).(first := false) else PastBody(k);
      } else if state.BodyIdentityEof? {
        AtBodyEof(g, View(), trace, marks, from, k, lost);
        p, rest, next, k' := |data| - 1, Marked(marks, Body, from), Proceeding, PastBody(k);
      } else if state.ChunkData? {
        p, rest := ReadChunkData(data, from, marks, g, k, lost);
        next, k' := Proceeding, PastBody(k);
      } else {
        rest, next, k' := Step(data, from, marks, a, g, k, lost);
      }
    }

    /** The states in which the stream may end. */
    predicate MayEnd()
      reads `state
    {
      state.BodyIdentityEof? || state.Dead? || state.StartReqOrRes? || state.StartRes? || state.StartReq?
    }

    /** The call on no bytes, which stands for the end of the stream. */
    method ExecuteEof() returns (n: nat)
      requires Valid() && errno.OK?
      modifies `errno, `trace
      ensures Valid()
      ensures trace == old(trace) + (if state.BodyIdentityEof? then [OnMessageComplete] else [])
      ensures if MayEnd() then n == 0 && errno.OK? else n == 1 && errno.InvalidEofState?
    {
      hide Inv, AuditOf, AuditStep, Emit;
      InvMeansOK(View(), AuditOf(Join(trace)));
      n := 0;
      if state.BodyIdentityEof? {
        EofCompletes(View(), AuditOf(Join(trace)));
        JoinAppend(trace, OnMessageComplete);
        AuditEmit(Join(trace), OnMessageComplete);
        trace := trace + [OnMessageComplete];
      } else if !state.Dead? && !state.StartReqOrRes? && !state.StartRes? && !state.StartReq? {
        errno, n := InvalidEofState, 1;
      }
    }

    /** What a call that starts here and reads data leads to. */
    ghost function GoalOf(data: seq<Byte>, answer: Answer): Goal
      reads this
    {
      var a := Settings(answer, lenient);
      Goal(data, a, Call(View(), Join(trace), nread, data, a))
    }

    /** The `switch`, entered again as often as the byte is looked at. */
    method Reexecute(data: seq<Byte>, from: nat, ms: Marks, a: Settings, ghost g: Goal, ghost l: Track,
        ghost lost: bool)
      returns (p: nat, marks: Marks, next: Control, ghost k: Track)
      requires g.data == data && g.a == a && a.lenient == lenient && from < |data| && nread <= MAX_HEADER_SIZE
      requires (state.HeaderField? || state.HeaderValue? ==> 0 < nread) && (lost || |data| < EXACT_PIECE)
      requires At(g, View(), trace, ms, from, l, lost) && !l.first && !l.skip && (lost || Tallied(l, nread, false))
      modifies this
      ensures lenient == old(lenient) && nread < TWO_32 && from <= p <= |data| && !next.Rescan?
      ensures !next.Failed? ==> p < |data| && nread <= MAX_HEADER_SIZE
      ensures next.Proceeding? ==> k.first && At(g, View(), trace, marks, p + 1, k, lost)
      ensures next.Proceeding? ==>
        (lost || Tallied(k, nread, p + 1 == |data|)) && (p + 1 < |data| ==> !k.skip && !k.c.inside)
      ensures !next.Failed? && state.ChunkSizeStart? ==> nread == 0
      ensures next.Leaving? ==> upgrade && Inv(View(), AuditOf(Join(trace))) && (lost || Tallied(k, nread, true))
      ensures next.Leaving? && !lost ==> Reaches(g, View(), Join(trace), p + 1, true, k)
      ensures next.Failed? ==> Fails(g, p, lost) || Overflow(g, lost)
    {
      hide At, Inv, AuditOf, Join, Rank, Reaches, Tallied, Fails, Overflow;
      p, marks, next, k := from, ms, Rescan, l;
      p, marks, next, k := Dispatch(data, p, marks, a, g, k, lost);
      while next.Rescan?
        invariant lenient == old(lenient) && nread < TWO_32 && from <= p <= |data|
        invariant !next.Failed? ==> p < |data| && nread <= MAX_HEADER_SIZE
        invariant next.Rescan? ==> At(g, View(), trace, marks, p, k, lost) && !ReadInBulk(state)
        invariant next.Rescan? ==> !k.first && !k.skip && (lost || Tallied(k, nread, false))
        invariant next.Proceeding? ==> k.first && At(g, View(), trace, marks, p + 1, k, lost)
        invariant next.Proceeding? ==>
          (lost || Tallied(k, nread, p + 1 == |data|)) && (p + 1 < |data| ==> !k.skip && !k.c.inside)
        invariant (next.Proceeding? || next.Leaving?) && state.ChunkSizeStart? ==> nread == 0
        invariant next.Leaving? ==> upgrade && Inv(View(), AuditOf(Join(trace))) && (lost || Tallied(k, nread, true))
        invariant next.Leaving? && !lost ==> Reaches(g, View(), Join(trace), p + 1, true, k)
        invariant next.Failed? ==> Fails(g, p, lost) || Overflow(g, lost)
        decreases |data| - p, next.Rescan?, Rank(state)
      {
        p, marks, next, k := Dispatch(data, p, marks, a, g, k, lost);
      }
    }

    /** A byte that belongs to a header is counted before it is looked at. */
    method CountState(p: nat, marks: Marks, ghost g: Goal, ghost k: Track, ghost lost: bool) returns (ghost k': Track)
      requires p < |g.data| && At(g, View(), trace, marks, p, k, lost) && k.first && !k.skip && !k.c.inside
      requires nread <= MAX_HEADER_SIZE && (lost || Tallied(k, nread, false)) && (state.ChunkSizeStart? ==> nread == 0)
      modifies `nread, `errno
      ensures nread < TWO_32
      ensures errno.OK? ==> At(g, View(), trace, marks, p, k', lost) && !k'.first && !k'.skip
      ensures errno.OK? ==> nread <= MAX_HEADER_SIZE && (lost || Tallied(k', nread, false))
      ensures errno.OK? && (state.HeaderField? || state.HeaderValue?) ==> 0 < nread
      ensures !errno.OK? ==> Overflow(g, lost)
    {
      hide At, AuditOf, Join, CountAfter;
      AtIsOk(g, View(), trace, marks, p, k, lost);
      AtCount(g, View(), trace, marks, p, k, lost);
      k' := HttpCalls.Count(k, state);
      if !lost {
        AtTop(g, View(), trace, marks, p, k', lost);
      }
      if ParsingHeader(state) {
        Count(1);
      }
    }

    /** http_parser_execute on a non-empty piece. */
    method ExecuteData(data: seq<Byte>, answer: Answer, ghost g: Goal) returns (n: nat)
      requires Valid() && errno.OK? && data != [] && g == GoalOf(data, answer)
      modifies this
      ensures Valid() && lenient == old(lenient) && n <= |data|
      ensures errno.OK? && n < |data| ==> upgrade
      ensures |data| < EXACT_PIECE ==>
        if errno.OK? then
          && Reaches(g, View(), Join(trace), n, g.end.f.stopped, g.end.k)
          && nread == CountAfter(g.end).n && CountAfter(g.end).top <= MAX_HEADER_SIZE
        else if errno.HeaderOverflow? then CountAfter(g.end).top > MAX_HEADER_SIZE
        else FailsAt(g, n, errno)
    {
      hide At, Inv, AuditOf, Rest, Join, OpenData, Rank, Scan;
      var a := Settings(answer, lenient);
      var marks: Marks := if Continues(state) then map[OpenData(state).value := 0] else map[];
      ghost var lost := |data| >= EXACT_PIECE;
      ghost var k := NewCall(nread);
      AtStart(g, View(), trace, marks, nread);
      AtPerhapsLost(g, View(), trace, marks, 0, k, lost);
      var p := 0;
      while p < |data|
        invariant p <= |data| && nread <= MAX_HEADER_SIZE && lenient == a.lenient && k.first
        invariant At(g, View(), trace, marks, p, k, lost) && (lost || Tallied(k, nread, p == |data|))
        invariant p < |data| ==> !k.skip && !k.c.inside
        invariant state.ChunkSizeStart? ==> nread == 0
        decreases |data| - p
      {
        k := CountState(p, marks, g, k, lost);
        if !errno.OK? { return p; }
        var next;
        p, marks, next, k := Reexecute(data, p, marks, a, g, k, lost);
        if next.Failed? { return p; }
        if next.Leaving? {
          InvMeansOK(View(), AuditOf(Join(trace)));
          return p + 1;
        }
        p := p + 1;
      }
      FinishMarks(data, marks, g, k, lost);
      InvMeansOK(View(), AuditOf(Join(trace)));
      return |data|;
    }

    /** The callbacks for marks left over at the end of the piece. */
    method FinishMarks(data: seq<Byte>, marks: Marks, ghost g: Goal, ghost k: Track, ghost lost: bool)
      requires g.data == data && At(g, View(), trace, marks, |data|, k, lost)
      modifies `trace
      ensures Inv(View(), AuditOf(Join(trace)))
      ensures !lost ==> Reaches(g, View(), Join(trace), |data|, false, k)
    {
      hide Inv, Emit, Good, Reaches;
      AtIsOk(g, View(), trace, marks, |data|, k, lost);
      AtMostOneMark(marks, state, |data|);
      assert |marks| <= 1;
      ghost var t := Pending(trace, marks, state, data, |data|);
      GoodEnd(g, View(), t, k, lost);
      if OpenData(state).Some? {
        var rest := CallbackData(OpenData(state).value, data, |data|, marks, state);
      }
    }

    /**
     http_parser_execute. The call does what `Call` says, byte for byte, and ends with the count
     of header bytes; it reports header overflow exactly when that count is past the limit and no
     other error is met.
     */
    method Execute(data: seq<Byte>, answer: Answer) returns (n: nat)
      requires Valid()
      modifies this
      ensures Valid() && lenient == old(lenient)
      ensures old(errno) != OK ==> n == 0 && View() == old(View()) && trace == old(trace) && nread == old(nread)
      ensures n <= |data| || (data == [] && n == 1 && errno.InvalidEofState?)
      ensures n < |data| ==> !errno.OK? || upgrade
      ensures old(errno).OK? && data == [] ==>
        && trace == old(trace) + (if old(state).BodyIdentityEof? then [OnMessageComplete] else [])
        && (errno.OK? <==> old(MayEnd()))
      ensures old(errno).OK? && 0 < |data| < EXACT_PIECE ==>
        var e := Call(old(View()), old(Join(trace)), old(nread), data, Settings(answer, lenient));
        var c := CountAfter(e);
        && (errno.OK? <==> e.f.p.errno.OK? && c.top <= MAX_HEADER_SIZE)
        && (errno.OK? ==> View() == e.f.p && Join(trace) == e.f.trace && n == e.f.n && nread == c.n)
        && (errno.HeaderOverflow? ==> c.top > MAX_HEADER_SIZE)
        && (!errno.OK? && !errno.HeaderOverflow? ==> errno == e.f.p.errno && n == e.f.n)
    {
      hide Inv, AuditOf, Rest, Scan;
      if !errno.OK? { return 0; }
      if data == [] {
        n := ExecuteEof();
      } else {
        n := ExecuteData(data, answer, GoalOf(data, answer));
      }
    }
  }

  lemma LoopsLowerRank()
    ensures Rank(MessageDone) < Rank(BodyIdentity) && Rank(HeaderAlmostDone) < Rank(HeaderValue)
  {
  }

  lemma AtPerhapsLost(g: Goal, p: Parser, raw: seq<Event>, marks: Marks, i: nat, k: Track, lost: bool)
    requires At(g, p, raw, marks, i, k, false)
    ensures At(g, p, raw, marks, i, k, lost)
  {
    hide Inv, AuditOf, Emit, MarksOk;
  }

  lemma StartedValue(h: HeaderState)
    requires ValueHeader(h)
    ensures !h.Connection? && !h.TransferEncoding?
  {
  }
}
