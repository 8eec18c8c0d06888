/** How the machine reads header lines. */
module HttpHeaderReading {
  import opened HttpChars
  import opened HttpMachine
  import opened HttpRun
  import opened HttpFraming
  import opened HttpInvariant
  import opened HttpMessages
  import opened HttpNames
  import opened HttpReading
  import opened Options

  // Names.

  predicate TokenName(x: seq<Byte>) { x != [] && forall k :: 0 <= k < |x| ==> Token(x[k]) != NUL }

  /** The parser after k bytes of a name. */
  function NameRead(p: Parser, x: seq<Byte>, k: nat): Parser
    requires 0 < k <= |x|
  {
    if k == 1 then p.(state := HeaderField, index := 0, header := FirstNameState(Token(x[0])))
    else
      var q := NameRead(p, x, k - 1);
      var (h, i) := NameStep(q.header, q.index, Token(x[k - 1]));
      q.(header := h, index := i)
  }

  lemma {:induction false} NameKnown(p: Parser, x: seq<Byte>, k: nat)
    requires TokenName(x) && 0 < k <= |x|
    ensures var q := NameRead(p, x, k);
      && q == p.(state := HeaderField, header := q.header, index := q.index)
      && q.header == Recognize(LowerAll(x[..k])) && (Partial(q.header) ==> q.index == k - 1)
  {
    hide Token, FirstNameState, NameStep, Recognize, Partial, LowerAll;
    if k == 1 {
      FirstNameStateRecognizes(x[0]);
      assert x[..1] == [x[0]];
    } else {
      NameKnown(p, x, k - 1);
      LowerAllAppend(x[..k - 1], x[k - 1]);
      assert x[..k - 1] + [x[k - 1]] == x[..k];
      NameStepRecognizes(LowerAll(x[..k - 1]), k - 2, x[k - 1]);
      var q := NameRead(p, x, k - 1);
      NameIndex(q.header, q.index, k - 2, Token(x[k - 1]));
    }
  }

  /** The index matters in the partial states only. */
  lemma NameIndex(h: HeaderState, i: nat, j: nat, c: Byte)
    requires Partial(h) ==> i == j
    ensures NameStep(h, i, c).0 == NameStep(h, j, c).0
    ensures Partial(NameStep(h, i, c).0) ==> NameStep(h, i, c).1 == NameStep(h, j, c).1
  {
    hide Match, CONNECTION, PROXY_CONNECTION, CONTENT_LENGTH, TRANSFER_ENCODING, UPGRADE;
  }

  lemma NameBegins(p: Parser, x: seq<Byte>, a: Settings)
    requires TokenName(x) && p.state.HeaderFieldStart?
    ensures Micro(p, x[0], a) == Take(NameRead(p, x, 1), Field)
  {
    hide FirstNameState;
    TokenIsVisible(x[0]);
  }

  lemma TokenIsVisible(c: Byte)
    requires Token(c) != NUL
    ensures c != CR && c != LF && c != ' ' && c != TAB
  {
  }

  lemma NameGoesOn(p: Parser, x: seq<Byte>, k: nat, a: Settings)
    requires TokenName(x) && 1 < k <= |x| && NameRead(p, x, k - 1).state.HeaderField?
    ensures Micro(NameRead(p, x, k - 1), x[k - 1], a) == Take(NameRead(p, x, k), Field)
  {
    hide NameStep, Token;
  }

  lemma ColonEndsName(p: Parser, a: Settings)
    requires p.state.HeaderField?
    ensures Micro(p, ':', a) == Move(p.(state := HeaderValueDiscardWs))
  {
    hide NameStep;
  }

  lemma BlankBeforeValue(p: Parser, c: Byte, a: Settings)
    requires p.state.HeaderValueDiscardWs? && (c == ' ' || c == TAB)
    ensures Micro(p, c, a) == Move(p)
  {
  }

  /** The parser behind a name and its colon. */
  function AfterName(p: Parser, x: seq<Byte>): Parser
    requires x != []
  {
    NameRead(p, x, |x|).(state := HeaderValueDiscardWs)
  }

  lemma ReadNameBytes(p: Parser, t: seq<Event>, s: seq<Byte>, i: nat, a: Settings, x: seq<Byte>)
    requires p.state.HeaderFieldStart? && p.errno.OK? && NotIn(t, Field) && TokenName(x) && Stands(s, i, x)
    ensures Rest(p, t, s, i, a) == Rest(NameRead(p, x, |x|), t + [Data(Field, x)], s, i + |x|, a)
  {
    hide Micro, Rest, NameRead, Recognize, LowerAll, Token, Emit, Partial;
    var n := |x|;
    var ps := seq(n + 1, k requires 0 <= k <= n => if k == 0 then p else NameRead(p, x, k));
    forall k | 0 < k <= n
      ensures ps[k].state.HeaderField? && ps[k].errno.OK?
    {
      NameKnown(p, x, k);
    }
    forall k | 0 <= k < n
      ensures Micro(ps[k], s[i + k], a) == Take(ps[k + 1], Field)
    {
      StandsAt(s, i, x, k);
      if k == 0 {
        NameBegins(p, x, a);
      } else {
        assert ps[k].state.HeaderField?;
        NameGoesOn(p, x, k + 1, a);
      }
    }
    ManyTake(ps, Field, t, s, i, a);
    NewData(t, Field, x);
  }

  predicate AllBlank(w: seq<Byte>) { forall k :: 0 <= k < |w| ==> w[k] == ' ' || w[k] == TAB }

  lemma ReadName(p: Parser, t: seq<Event>, s: seq<Byte>, i: nat, a: Settings, x: seq<Byte>, w: seq<Byte>)
    requires p.state.HeaderFieldStart? && p.errno.OK? && NotIn(t, Field) && TokenName(x) && AllBlank(w)
    requires Stands(s, i, x + ":" + w)
    ensures Rest(p, t, s, i, a) == Rest(AfterName(p, x), t + [Data(Field, x)], s, i + |x| + 1 + |w|, a)
    ensures var q := AfterName(p, x);
            q == p.(state := HeaderValueDiscardWs, header := Recognize(LowerAll(x)), index := q.index)
  {
    hide Micro, Rest, NameRead, Recognize, LowerAll, Token, Partial;
    var n := |x|;
    StandsBoth(s, i, x + ":", w);
    StandsBoth(s, i, x, ":");
    StandsAt(s, i + n, ":", 0);
    ReadNameBytes(p, t, s, i, a, x);
    NameKnown(p, x, n);
    assert x[..n] == x;
    var q, u := NameRead(p, x, n), t + [Data(Field, x)];
    ColonEndsName(q, a);
    Moves(q, AfterName(p, x), u, s, i + n, a);
    ReadBlank(AfterName(p, x), u, s, i + n + 1, a, w);
  }

  lemma ReadBlank(p: Parser, t: seq<Event>, s: seq<Byte>, i: nat, a: Settings, w: seq<Byte>)
    requires p.state.HeaderValueDiscardWs? && p.errno.OK? && AllBlank(w) && Stands(s, i, w)
    ensures Rest(p, t, s, i, a) == Rest(p, t, s, i + |w|, a)
  {
    hide Micro, Rest;
    var ps := seq(|w| + 1, k requires 0 <= k <= |w| => p);
    forall k | 0 <= k < |w|
      ensures Micro(ps[k], s[i + k], a) == Move(ps[k + 1])
    {
      StandsAt(s, i, w, k);
      BlankBeforeValue(p, w[k], a);
    }
    ManyMove(ps, t, s, i, a);
  }

  // Values.

  /** The parser after k bytes of a value. */
  function ValueRead(p: Parser, v: seq<Byte>, k: nat): Parser
    requires 0 < k <= |v|
  {
    if k == 1 then ValueStartStep(p, v[0]).p else ValueByte(ValueRead(p, v, k - 1), v[k - 1]).p
  }

  /** The k-th byte of the value is taken. */
  predicate ValueTaken(p: Parser, v: seq<Byte>, k: nat)
    requires 0 < k <= |v|
  {
    var q := ValueRead(p, v, k);
    && q.errno.OK? && q.state.HeaderValue?
    && (if k == 1 then ValueStartStep(p, v[0]) else ValueByte(ValueRead(p, v, k - 1), v[k - 1])) == Take(q, Value)
  }

  predicate Plain(h: HeaderState) { h.General? || Partial(h) }

  lemma {:induction false} GeneralRead(p: Parser, v: seq<Byte>, k: nat)
    requires (Plain(p.header) || p.header.Upgrade?) && p.errno.OK? && 0 < k <= |v|
    ensures ValueTaken(p, v, k)
    ensures ValueRead(p, v, k) ==
            p.(state := HeaderValue, index := 0, header := General,
               flags := if p.header.Upgrade? then p.flags.(upgrade := true) else p.flags)
  {
    if k > 1 {
      GeneralRead(p, v, k - 1);
    }
  }

  lemma {:induction false} LengthRead(p: Parser, v: seq<Byte>, k: nat)
    requires p.header.ContentLength? && p.errno.OK? && !p.flags.contentLength && 0 < k <= |v|
    requires Digits(v) && Decimal(v) <= NO_LENGTH - 10
    ensures ValueTaken(p, v, k)
    ensures ValueRead(p, v, k) ==
            p.(state := HeaderValue, index := 0, contentLength := Decimal(v[..k]),
                flags := p.flags.(contentLength := true))
  {
    hide Decimal, Accumulate;
    if k == 1 {
      OneDigit(v[0]);
      assert v[..1] == [v[0]];
    } else {
      LengthRead(p, v, k - 1);
      DecimalGrows(v, k - 1);
      RoomForDigit(Decimal(v[..k - 1]), Decimal(v));
      AccumulatorExact(Decimal(v[..k - 1]), 10, DigitValue(v[k - 1]));
    }
  }

  lemma RoomForDigit(x: nat, n: nat)
    requires x * 10 <= n <= NO_LENGTH - 10
    ensures !AccumulatorFull(x, 10)
  {
  }

  predicate Word(w: seq<Byte>) { w == CHUNKED || w == KEEP_ALIVE || w == CLOSE || w == UPGRADE }

  function WordStart(w: seq<Byte>): HeaderState {
    if w == CHUNKED then MatchingTransferEncodingChunked
    else if w == KEEP_ALIVE then MatchingConnectionKeepAlive
    else if w == CLOSE then MatchingConnectionClose
    else MatchingConnectionUpgrade
  }

  function WordDone(w: seq<Byte>): HeaderState {
    if w == CHUNKED then TransferEncodingChunked
    else if w == KEEP_ALIVE then ConnectionKeepAlive
    else if w == CLOSE then ConnectionClose
    else ConnectionUpgrade
  }

  /** The header whose value the word is. */
  predicate TakesWord(h: HeaderState, w: seq<Byte>) {
    Word(w) && if w == CHUNKED then h.TransferEncoding? else h.Connection?
  }

  lemma WordLengths(w: seq<Byte>)
    requires Word(w)
    ensures |w| > 1
    ensures w[0] == (if w == KEEP_ALIVE then 'k' else if w == UPGRADE then 'u' else 'c')
  {
  }

  lemma WordBegins(p: Parser, c: Byte, w: seq<Byte>)
    requires TakesWord(p.header, w) && Lower(c) == w[0]
    ensures ValueStartStep(p, c) == Take(p.(state := HeaderValue, index := 0, header := WordStart(w)), Value)
  {
    WordLengths(w);
    hide Lower, CHUNKED, KEEP_ALIVE, CLOSE, UPGRADE;
  }

  lemma WordGoesOn(p: Parser, c: Byte, w: seq<Byte>, k: nat)
    requires Word(w) && p.header == WordStart(w) && 0 < k < |w| && p.index == k - 1 && Lower(c) == w[k]
    ensures ValueByte(p, c) == Take(p.(index := k, header := if k + 1 == |w| then WordDone(w) else WordStart(w)), Value)
  {
    hide Lower, CHUNKED, KEEP_ALIVE, CLOSE, UPGRADE;
  }

  lemma {:induction false} LowerAt(v: seq<Byte>, k: nat)
    requires k < |v|
    ensures |LowerAll(v)| == |v| && LowerAll(v)[k] == Lower(v[k])
  {
    LowerAllLength(v);
    var r := v[..|v| - 1];
    LowerAllLength(r);
    if k < |r| {
      LowerAt(r, k);
    }
  }

  lemma {:induction false} WordRead(p: Parser, v: seq<Byte>, k: nat, w: seq<Byte>)
    requires TakesWord(p.header, w) && LowerAll(v) == w && p.errno.OK? && 0 < k <= |v|
    ensures |v| == |w| && ValueTaken(p, v, k)
    ensures ValueRead(p, v, k) ==
            p.(state := HeaderValue, index := k - 1, header := if k == |w| then WordDone(w) else WordStart(w))
  {
    hide Lower, CHUNKED, KEEP_ALIVE, CLOSE, UPGRADE, ValueStartStep, ValueByte, LowerAll, WordStart, WordDone;
    LowerAllLength(v);
    LowerAt(v, k - 1);
    WordLengths(w);
    if k == 1 {
      WordBegins(p, v[0], w);
    } else {
      WordRead(p, v, k - 1, w);
      WordGoesOn(ValueRead(p, v, k - 1), v[k - 1], w, k - 1);
    }
  }

  // Whole lines.

  lemma ValueStartIs(p: Parser, c: Byte, a: Settings)
    requires p.state.HeaderValueDiscardWs? && VisibleByte(c) && c != ' ' && c != TAB
    ensures Micro(p, c, a) == ValueStartStep(p, c)
  {
    hide ValueStartStep;
  }

  lemma ValueByteIs(p: Parser, c: Byte, a: Settings)
    requires p.state.HeaderValue? && VisibleByte(c)
    ensures Micro(p, c, a) == ValueByte(p, c)
  {
    hide ValueByte;
  }

  lemma ReadValueBytes(p: Parser, t: seq<Event>, s: seq<Byte>, i: nat, a: Settings, v: seq<Byte>)
    requires p.state.HeaderValueDiscardWs? && p.errno.OK? && NotIn(t, Value) && Stands(s, i, v)
    requires v != [] && Visible(v) && v[0] != ' ' && v[0] != TAB
    requires forall k :: 0 < k <= |v| ==> ValueTaken(p, v, k)
    ensures Rest(p, t, s, i, a) == Rest(ValueRead(p, v, |v|), t + [Data(Value, v)], s, i + |v|, a)
  {
    hide Micro, Rest, ValueRead, ValueStartStep, ValueByte, Emit, VisibleByte;
    var n := |v|;
    var ps := seq(n + 1, k requires 0 <= k <= n => if k == 0 then p else ValueRead(p, v, k));
    forall k | 0 < k <= n
      ensures ps[k].state.HeaderValue? && ps[k].errno.OK?
    {
      assert ValueTaken(p, v, k);
    }
    forall k | 0 <= k < n
      ensures Micro(ps[k], s[i + k], a) == Take(ps[k + 1], Value)
    {
      StandsAt(s, i, v, k);
      assert ValueTaken(p, v, k + 1);
      if k == 0 {
        ValueStartIs(p, v[0], a);
      } else {
        ValueByteIs(ps[k], v[k], a);
      }
    }
    ManyTake(ps, Value, t, s, i, a);
    NewData(t, Value, v);
  }

  /** The next line does not continue this one. */
  predicate NoFold(s: seq<Byte>, i: nat) { i < |s| && s[i] != ' ' && s[i] != TAB }

  lemma EndSteps(p: Parser, c: Byte, a: Settings)
    ensures p.state.HeaderValue? ==> Micro(p, CR, a) == Move(p.(state := HeaderAlmostDone))
    ensures p.state.HeaderAlmostDone? ==> Micro(p, LF, a) == Move(p.(state := HeaderValueLws))
    ensures p.state.HeaderValueLws? && c != ' ' && c != TAB ==>
      Micro(p, c, a) == Outcome(p.(flags := SetFlag(p.flags, p.header), state := HeaderFieldStart), None, [], Again)
  {
    hide ValueByte, SetFlag;
  }

  lemma EmptySteps(p: Parser, c: Byte, a: Settings)
    ensures p.state.HeaderValueDiscardWs? ==> Micro(p, CR, a) == Move(p.(state := HeaderValueDiscardWsAlmostDone))
    ensures p.state.HeaderValueDiscardWsAlmostDone? ==> Micro(p, LF, a) == Move(p.(state := HeaderValueDiscardLws))
    ensures p.state.HeaderValueDiscardLws? && c != ' ' && c != TAB ==>
      Micro(p, c, a) == Outcome(p.(flags := SetFlag(p.flags, p.header), state := HeaderFieldStart), None,
          [Data(Value, [])], Again)
  {
    hide ValueStartStep, SetFlag;
  }

  lemma ValueLineEnd(p: Parser, t: seq<Event>, s: seq<Byte>, i: nat, a: Settings)
    requires p.state.HeaderValue? && p.errno.OK? && Stands(s, i, CRLF) && NoFold(s, i + 2)
    ensures Rest(p, t, s, i, a) == Rest(p.(flags := SetFlag(p.flags, p.header), state := HeaderFieldStart), t, s,
        i + 2, a)
  {
    hide Micro, Rest, SetFlag;
    StandsAt(s, i, CRLF, 0);
    StandsAt(s, i, CRLF, 1);
    var q1, q2 := p.(state := HeaderAlmostDone), p.(state := HeaderValueLws);
    EndSteps(p, s[i + 2], a);
    Moves(p, q1, t, s, i, a);
    EndSteps(q1, s[i + 2], a);
    Moves(q1, q2, t, s, i + 1, a);
    EndSteps(q2, s[i + 2], a);
    Repeats(q2, p.(flags := SetFlag(p.flags, p.header), state := HeaderFieldStart), [], t, s, i + 2, a);
  }

  lemma EmptyLineEnd(p: Parser, t: seq<Event>, s: seq<Byte>, i: nat, a: Settings)
    requires p.state.HeaderValueDiscardWs? && p.errno.OK? && NotIn(t, Value) && Stands(s, i, CRLF) && NoFold(s, i + 2)
    ensures Rest(p, t, s, i, a) ==
            Rest(p.(flags := SetFlag(p.flags, p.header), state := HeaderFieldStart), t + [Data(Value, [])], s, i + 2, a)
  {
    hide Micro, Rest, SetFlag;
    StandsAt(s, i, CRLF, 0);
    StandsAt(s, i, CRLF, 1);
    var q1, q2 := p.(state := HeaderValueDiscardWsAlmostDone), p.(state := HeaderValueDiscardLws);
    EmptySteps(p, s[i + 2], a);
    Moves(p, q1, t, s, i, a);
    EmptySteps(q1, s[i + 2], a);
    Moves(q1, q2, t, s, i + 1, a);
    EmptySteps(q2, s[i + 2], a);
    Repeats(q2, p.(flags := SetFlag(p.flags, p.header), state := HeaderFieldStart), [Data(Value, [])], t, s, i + 2, a);
    NewData(t, Value, []);
    assert EmitAll(t, [Data(Value, [])]) == EmitAll(Emit(t, Data(Value, [])), [Data(Value, [])][1..]);
  }

  /** r is p with what the header says. */
  predicate HeaderTold(p: Parser, r: Parser, h: Header) {
    r == p.(header := r.header, index := r.index, flags := FlagsAfterOne(p.flags, h),
        contentLength := LengthAfterOne(p.contentLength, h))
  }

  /** The matcher tells the headers apart as their names do. */
  lemma Recognized(h: Header)
    ensures var r := Recognize(LowerAll(h.name));
      && (r.Connection? <==> AboutConnection(h)) && (r.ContentLength? <==> Named(h, CONTENT_LENGTH))
      && (r.TransferEncoding? <==> Named(h, TRANSFER_ENCODING)) && (r.Upgrade? <==> Named(h, UPGRADE))
      && (!Special(h) ==> Plain(r))
  {
    hide LowerAll;
    assert |CONNECTION| == 10 && |PROXY_CONNECTION| == 16 && |CONTENT_LENGTH| == 14 && |TRANSFER_ENCODING| == 17 &&
        |UPGRADE| == 7;
  }

  /** All bytes of the value are taken, and its end tells what the header says. */
  predicate ValueSays(p: Parser, h: Header) {
    && h.value != [] && (forall k :: 0 < k <= |h.value| ==> ValueTaken(p, h.value, k))
    && var q := ValueRead(p, h.value, |h.value|);
       HeaderTold(p, q.(state := p.state, flags := SetFlag(q.flags, q.header)), h)
  }

  lemma WordSays(p: Parser, h: Header, w: seq<Byte>)
    requires TakesWord(p.header, w) && Says(h, w) && p.errno.OK?
    requires p.header == Recognize(LowerAll(h.name))
    ensures ValueSays(p, h)
  {
    hide LowerAll, Recognize, ValueRead, ValueTaken, WordStart, CHUNKED, KEEP_ALIVE, CLOSE, UPGRADE, CONNECTION,
        PROXY_CONNECTION, TRANSFER_ENCODING, CONTENT_LENGTH;
    Recognized(h);
    WordLengths(w);
    WordsApart();
    LowerAllLength(h.value);
    forall k | 0 < k <= |h.value|
      ensures ValueTaken(p, h.value, k)
    {
      WordRead(p, h.value, k, w);
    }
    WordRead(p, h.value, |h.value|, w);
  }

  lemma WordsApart()
    ensures KEEP_ALIVE != CLOSE && KEEP_ALIVE != UPGRADE && CLOSE != UPGRADE && CHUNKED != KEEP_ALIVE &&
        CHUNKED != CLOSE && CHUNKED != UPGRADE
  {
    assert |KEEP_ALIVE| == 10 && |CLOSE| == 5 && |UPGRADE| == 7 && |CHUNKED| == 7 && CHUNKED[0] == 'c' &&
        UPGRADE[0] == 'u';
  }

  lemma LengthSays(p: Parser, h: Header)
    requires p.header == Recognize(LowerAll(h.name)) && Named(h, CONTENT_LENGTH) && p.errno.OK? &&
        !p.flags.contentLength
    requires Digits(h.value) && Decimal(h.value) <= NO_LENGTH - 10
    ensures ValueSays(p, h)
  {
    hide LowerAll, Recognize, ValueRead, ValueTaken, Decimal, Says;
    Recognized(h);
    forall k | 0 < k <= |h.value|
      ensures ValueTaken(p, h.value, k)
    {
      LengthRead(p, h.value, k);
    }
    LengthRead(p, h.value, |h.value|);
    assert h.value[..|h.value|] == h.value;
  }

  lemma GeneralSays(p: Parser, h: Header)
    requires p.header == Recognize(LowerAll(h.name)) && (!Special(h) || Named(h, UPGRADE)) && p.errno.OK? &&
        h.value != []
    ensures ValueSays(p, h)
  {
    hide LowerAll, Recognize, ValueRead, ValueTaken, Decimal, Says;
    Recognized(h);
    forall k | 0 < k <= |h.value|
      ensures ValueTaken(p, h.value, k)
    {
      GeneralRead(p, h.value, k);
    }
    GeneralRead(p, h.value, |h.value|);
  }

  lemma HeaderSays(p: Parser, h: Header)
    requires p.header == Recognize(LowerAll(h.name)) && HeaderOk(h) && p.errno.OK? && h.value != []
    requires !(Named(h, CONTENT_LENGTH) && p.flags.contentLength)
    ensures ValueSays(p, h)
  {
    hide LowerAll, Recognize, ValueSays, Token, Decimal, CHUNKED, KEEP_ALIVE, CLOSE, UPGRADE, CONNECTION,
        PROXY_CONNECTION, TRANSFER_ENCODING, CONTENT_LENGTH;
    Recognized(h);
    WordsApart();
    if AboutConnection(h) {
      WordSays(p, h, if Says(h, KEEP_ALIVE) then KEEP_ALIVE else if Says(h, CLOSE) then CLOSE else UPGRADE);
    } else if Named(h, TRANSFER_ENCODING) {
      WordSays(p, h, CHUNKED);
    } else if Named(h, CONTENT_LENGTH) {
      LengthSays(p, h);
    } else {
      GeneralSays(p, h);
    }
  }

  lemma EmptySays(p: Parser, h: Header)
    requires p.header == Recognize(LowerAll(h.name)) && HeaderOk(h) && h.value == []
    ensures HeaderTold(p, p.(flags := SetFlag(p.flags, p.header)), h)
  {
    hide LowerAll, Recognize, Token, CHUNKED, KEEP_ALIVE, CLOSE, UPGRADE, CONNECTION, PROXY_CONNECTION,
        TRANSFER_ENCODING, CONTENT_LENGTH;
    Recognized(h);
    LowerAllLength(h.value);
    WordLengths(CHUNKED);
    WordLengths(KEEP_ALIVE);
    WordLengths(CLOSE);
    WordLengths(UPGRADE);
  }

  lemma ReadHeader(p: Parser, t: seq<Event>, s: seq<Byte>, i: nat, a: Settings, h: Header) returns (r: Parser)
    requires p.state.HeaderFieldStart? && p.errno.OK? && NotIn(t, Field) && HeaderOk(h) &&
        !(Named(h, CONTENT_LENGTH) && p.flags.contentLength)
    requires Stands(s, i, HeaderText(h)) && NoFold(s, i + |HeaderText(h)|)
    ensures HeaderTold(p, r, h)
    ensures Rest(p, t, s, i, a) == Rest(r, t + [Data(Field, h.name), Data(Value, h.value)], s, i + |HeaderText(h)|, a)
  {
    hide Rest, Stands, Recognize, LowerAll, Token, ValueRead, VisibleByte, SetFlag, Named, AboutConnection;
    var x, v := h.name + ":" + h.blank, h.value;
    assert HeaderText(h) == x + v + CRLF;
    StandsBoth(s, i, x + v, CRLF);
    StandsBoth(s, i, x, v);
    ReadName(p, t, s, i, a, h.name, h.blank);
    var q, u := AfterName(p, h.name), t + [Data(Field, h.name)];
    if v == [] {
      EmptySays(q, h);
      EmptyLineEnd(q, u, s, i + |x|, a);
      r := q.(flags := SetFlag(q.flags, q.header), state := HeaderFieldStart);
    } else {
      HeaderSays(q, h);
      ReadValueBytes(q, u, s, i + |x|, a, v);
      var w := ValueRead(q, v, |v|);
      assert ValueTaken(q, v, |v|);
      ValueLineEnd(w, u + [Data(Value, v)], s, i + |x| + |v|, a);
      r := w.(flags := SetFlag(w.flags, w.header), state := HeaderFieldStart);
    }
    assert u + [Data(Value, v)] == t + [Data(Field, h.name), Data(Value, v)];
  }

  /** r is p with what the headers say. */
  predicate HeadersTold(p: Parser, r: Parser, hs: seq<Header>) {
    r == p.(header := r.header, index := r.index, flags := FlagsAfter(p.flags, hs),
        contentLength := LengthAfter(p.contentLength, hs))
  }

  /** What follows a header line is another name, or what follows the lines. */
  lemma NextLine(s: seq<Byte>, i: nat, f: Flags, hs: seq<Header>)
    requires HeadersOk(f, hs) && Stands(s, i, LinesText(hs)) && NoFold(s, i + |LinesText(hs)|)
    ensures NoFold(s, i)
  {
    hide Token;
    if hs != [] {
      StandsAt(s, i, LinesText(hs), 0);
      assert LinesText(hs)[0] == hs[0].name[0];
      TokenIsVisible(hs[0].name[0]);
    }
  }

  /** All header lines, up to what follows them. */
  lemma {:induction false} ReadHeaders(p: Parser, t: seq<Event>, s: seq<Byte>, i: nat, a: Settings,
      hs: seq<Header>) returns (r: Parser)
    requires p.state.HeaderFieldStart? && p.errno.OK? && NotIn(t, Field) && HeadersOk(p.flags, hs)
    requires Stands(s, i, LinesText(hs)) && NoFold(s, i + |LinesText(hs)|)
    ensures HeadersTold(p, r, hs)
    ensures Rest(p, t, s, i, a) == Rest(r, t + HeaderEvents(hs), s, i + |LinesText(hs)|, a)
    decreases |hs|
  {
    hide Rest, Stands, HeaderOk, FlagsAfterOne, LengthAfterOne, Named, HeaderText;
    if hs == [] {
      r := p;
      assert t + [] == t;
    } else {
      var line, u := HeaderText(hs[0]), t + [Data(Field, hs[0].name), Data(Value, hs[0].value)];
      MoreHeaders(p, hs);
      MoreEvents(t, hs);
      hide HeadersOk, LinesText, HeaderEvents, FlagsAfter, LengthAfter;
      StandsBoth(s, i, line, LinesText(hs[1..]));
      NextLine(s, i + |line|, FlagsAfterOne(p.flags, hs[0]), hs[1..]);
      var q := ReadHeader(p, t, s, i, a, hs[0]);
      r := ReadHeaders(q, u, s, i + |line|, a, hs[1..]);
    }
  }

  /** The first header and the others. */
  lemma MoreHeaders(p: Parser, hs: seq<Header>)
    requires hs != [] && HeadersOk(p.flags, hs)
    ensures var f := FlagsAfterOne(p.flags, hs[0]);
      && HeaderOk(hs[0]) && !(Named(hs[0], CONTENT_LENGTH) && p.flags.contentLength) && HeadersOk(f, hs[1..])
      && LinesText(hs) == HeaderText(hs[0]) + LinesText(hs[1..])
      && FlagsAfter(p.flags, hs) == FlagsAfter(f, hs[1..])
      && LengthAfter(p.contentLength, hs) == LengthAfter(LengthAfterOne(p.contentLength, hs[0]), hs[1..])
  {
    hide HeaderOk, FlagsAfterOne, LengthAfterOne, Named, HeaderText, HeaderEvents, CONTENT_LENGTH, CRLF;
  }

  lemma MoreEvents(t: seq<Event>, hs: seq<Header>)
    requires hs != []
    ensures t + [Data(Field, hs[0].name), Data(Value, hs[0].value)] + HeaderEvents(hs[1..]) == t + HeaderEvents(hs)
  {
    AppendTwice(t, [Data(Field, hs[0].name), Data(Value, hs[0].value)], HeaderEvents(hs[1..]));
  }

  lemma AppendTwice<T>(x: seq<T>, y: seq<T>, z: seq<T>)
    ensures x + y + z == x + (y + z)
  {
  }

  /** Trailers that say nothing about the message. */
  lemma {:induction false} TrailersSayNothing(f: Flags, n: nat, hs: seq<Header>)
    requires forall h :: h in hs ==> HeaderOk(h) && !Special(h)
    ensures HeadersOk(f, hs) && FlagsAfter(f, hs) == f && LengthAfter(n, hs) == n
    decreases |hs|
  {
    hide HeaderOk, Named;
    if hs != [] {
      assert hs[0] in hs;
      TrailersSayNothing(f, n, hs[1..]);
    }
  }
}
