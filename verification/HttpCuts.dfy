/**
 Inputs whose cuts disagree: a bad byte in a header value is seen only where a call happens to look
 at it, and a long value counts more the more often it is cut.
 */
module HttpCuts {
  import opened HttpCalls
  import opened HttpChars
  import opened HttpCutCounts
  import opened HttpFraming
  import opened HttpHeaderReading
  import HttpInvariant
  import opened HttpMachine
  import opened HttpMessageReading
  import opened HttpMessages
  import opened HttpNames
  import opened HttpReading
  import opened HttpRun
  import opened HttpTheorems
  import opened Options
  import opened Pieces
  import opened UrlWalk

  /** The start of a message, up to the end of its first header value. */
  function ValueText(l: StartLine, h: Header): seq<Byte> { StartText(l) + (h.name + ":" + h.blank) + h.value }

  /** A header value the machine does not match against anything. */
  predicate FreeValue(h: Header) { HeaderOk(h) && !Special(h) && h.value != [] }

  lemma RunsToValue(p: Parser, t: seq<Event>, a: Settings, l: StartLine, h: Header) returns (q: Parser, u: seq<Event>)
    requires p.errno.OK? && p.state.StartReq? && l.RequestLine? && StartOk(l) && FreeValue(h)
    ensures Run(p, t, ValueText(l, h), a) == Final(q, u, |ValueText(l, h)|, false)
    ensures q.errno.OK? && q.state.HeaderValue? && q.header.General?
  {
    hide Rest, Stands, Recognize, LowerAll, Token, VisibleByte, Decimal, FreshMessage, ValueRead, ValueTaken;
    hide StartOk, SmallNumber;
    var s, x, v := ValueText(l, h), h.name + ":" + h.blank, h.value;
    WholeStands(s);
    StandsBoth(s, 0, StartText(l) + x, v);
    StandsBoth(s, 0, StartText(l), x);
    ReadRequestLine(p, t, s, 0, a, l);
    hide StartText;
    FreshIsOk(p);
    var p1, u1 := AfterRequestLine(p, l), t + StartEvents(l);
    ReadName(p1, u1, s, |StartText(l)|, a, h.name, h.blank);
    var p2, u2 := AfterName(p1, h.name), u1 + [Data(Field, h.name)];
    Recognized(h);
    forall k | 0 < k <= |v|
      ensures ValueTaken(p2, v, k)
    {
      GeneralRead(p2, v, k);
    }
    GeneralRead(p2, v, |v|);
    ReadValueBytes(p2, u2, s, |StartText(l)| + |x|, a, v);
    q, u := ValueRead(p2, v, |v|), u2 + [Data(Value, v)];
    RestEnds(q, u, s, a);
  }

  lemma WholeStands(s: seq<Byte>)
    ensures Stands(s, 0, s)
  {
  }

  /** After a byte of such a value a call skips the check of the next one. */
  lemma Unchecked(p: Parser, t: seq<Event>, k: Track, d: Byte, c: Byte, a: Settings)
    requires p.errno.OK? && p.state.HeaderValue? && p.header.General? && VisibleByte(d) && !IsHeaderChar(c)
    ensures Clean(Scan(p, t, k, [d, c], 0, a).f)
  {
    hide Traced, Micro;
    var o := Micro(p, d, Checking(a, k.skip));
    GeneralByte(p, d, Checking(a, k.skip));
    var k1, t1 := Onward(Count(k, p.state), p, o), Traced(t, o, d);
    GeneralByte(p, c, Lenient(a));
    var o1 := Micro(p, c, Lenient(a));
    assert Scan(p, t, k, [d, c], 0, a) == Scan(p, t1, k1, [d, c], 1, a);
    assert Scan(p, t1, k1, [d, c], 1, a) ==
      Scan(p, Traced(t1, o1, c), Onward(Count(k1, p.state), p, o1), [d, c], 2, a);
  }

  lemma GeneralByte(p: Parser, c: Byte, a: Settings)
    requires p.state.HeaderValue? && p.header.General? && (VisibleByte(c) || (a.lenient && !IsHeaderChar(c)))
    ensures Micro(p, c, a) == Take(p, Value)
  {
  }

  lemma ShorterIsFree(h: Header, v: seq<Byte>)
    requires FreeValue(h) && v != [] && v <= h.value
    ensures FreeValue(h.(value := v))
  {
    hide LowerAll, Token, VisibleByte;
    var g := h.(value := v);
    assert forall name :: Named(g, name) == Named(h, name);
    assert forall k :: 0 <= k < |v| ==> v[k] == h.value[k];
  }

  /** One call reads x and c, but calls on x and then on c fail. */
  predicate Disagree(p: Parser, t: seq<Event>, n: nat, x: seq<Byte>, c: seq<Byte>, a: Settings) {
    && Clean(Call(p, t, n, x + c, a).f) && CutOf([x, c], x + c)
    && Calls(p, t, n, [x, c], a).p.errno.InvalidHeaderToken?
  }

  /**
   A request whose first header value ends in a bad byte, with two good bytes before it: one call
   reads all of it, but fails when the input is cut right before the bad byte.
   */
  lemma CutsDiffer(p: Parser, t: seq<Event>, n: nat, a: Settings, l: StartLine, h: Header, c: Byte)
    requires p.errno.OK? && p.state.StartReq? && !a.lenient && l.RequestLine? && StartOk(l)
    requires FreeValue(h) && |h.value| >= 2 && !IsHeaderChar(c)
    ensures Disagree(p, t, n, ValueText(l, h), [c], a)
  {
    hide Scan, Rest, StartText, StartOk, VisibleByte, IsHeaderChar, Token;
    ShorterIsFree(h, h.value[..|h.value| - 1]);
    hide Named;
    var x, most, d := ValueText(l, h), h.value[..|h.value| - 1], h.value[|h.value| - 1];
    var g := h.(value := most);
    var y := ValueText(l, g);
    assert h.value == most + [d];
    assert x == y + [d] && x + [c] == y + [d, c];
    var q, u := RunsToValue(p, t, a, l, g);
    StrictRunIsScan(p, t, NewCall(n), y, 0, a);
    ScanPrefix(p, t, NewCall(n), y, [d, c], 0, a);
    Unchecked(q, u, Call(p, t, n, y, a).k, d, c, a);
    var r, v := RunsToValue(p, t, a, l, h);
    StrictRunIsScan(p, t, NewCall(n), x, 0, a);
    BadByteFails(r, v, CountAfter(Call(p, t, n, x, a)).n, [c], a);
    TwoCalls(p, t, n, x, [c], a);
  }

  /** One such request. */
  lemma CutsDifferHere(p: Parser, t: seq<Event>, n: nat, a: Settings)
    requires p.errno.OK? && p.state.StartReq? && !a.lenient
    ensures Disagree(p, t, n, "GET / HTTP/1.1\r\na: bc", ['\U{1}'], a)
  {
    hide Disagree;
    var l, h := RequestLine(GET, "/", "1", "1"), Header("a", " ", "bc");
    SmallRequest();
    hide StartOk;
    assert StartText(l) == "GET / HTTP/1.1\r\n";
    assert ValueText(l, h) == "GET / HTTP/1.1\r\na: bc";
    assert FreeValue(h) by {
      SmallHeader();
    }
    CutsDiffer(p, t, n, a, l, h, '\U{1}');
  }

  lemma SmallRequest()
    ensures StartOk(RequestLine(GET, "/", "1", "1"))
  {
    OneDigit('1');
    var url: seq<Byte> := "/";
    assert Walk(url, ReqSpacesBeforeUrl, 1) == ParseUrlChar(Walk(url, ReqSpacesBeforeUrl, 0), '/');
    assert ['1'] == "1";
  }

  lemma SmallHeader()
    ensures FreeValue(Header("a", " ", "bc"))
  {
    var h := Header("a", " ", "bc");
    HttpInvariant.LowerAllLength(h.name);
    assert |CONNECTION| == 10 && |PROXY_CONNECTION| == 16 && |CONTENT_LENGTH| == 14 && |TRANSFER_ENCODING| == 17 &&
        |UPGRADE| == 7;
    hide LowerAll, CONNECTION, PROXY_CONNECTION, CONTENT_LENGTH, TRANSFER_ENCODING, UPGRADE;
  }

  // The header limit.

  lemma StayingByte(p: Parser, ch: Byte, a: Settings)
    requires p.errno.OK? && p.state.HeaderValue? && p.header.General? && VisibleByte(ch)
    ensures Micro(p, ch, a) == Take(p, Value) && Stays(p, ch, a) && !SetsBack(p, ch, a) && ParsingHeader(p.state)
  {
  }

  /** A value that is not matched leaves the parser as it is. */
  lemma {:induction false} LongRuns(p: Parser, t: seq<Event>, v: seq<Byte>, a: Settings)
    requires p.errno.OK? && p.state.HeaderValue? && p.header.General? && Visible(v)
    ensures Clean(Run(p, t, v, a)) && Run(p, t, v, a).p == p
    decreases |v|
  {
    hide Micro, Traced, VisibleByte, Rest;
    if v == [] {
      EmptyRun(p, t, a);
    } else {
      var x, ch := v[..|v| - 1], v[|v| - 1];
      assert v == x + [ch];
      LongRuns(p, t, x, a);
      StayingByte(p, ch, a);
      RunSplits(p, t, x, [ch], a);
      OneTaken(p, Run(p, t, x, a).trace, ch, a);
    }
  }

  lemma OneTaken(p: Parser, t: seq<Event>, ch: Byte, a: Settings)
    requires p.errno.OK? && Micro(p, ch, a) == Take(p, Value)
    ensures Clean(Run(p, t, [ch], a)) && Run(p, t, [ch], a).p == p
  {
    hide Micro, Traced;
    RestEnds(p, Traced(t, Take(p, Value), ch), [ch], a);
  }

  /** How many cuts there are behind the first k bytes. */
  function Behind(cuts: set<nat>, k: nat): nat { |cuts * Everywhere(k)| }

  lemma OneMoreCut(cuts: set<nat>, k: nat)
    ensures Behind(cuts, 0) == 0
    ensures Behind(cuts, k + 1) == Behind(cuts, k) + if k + 1 in cuts then 1 else 0
  {
    assert cuts * Everywhere(0) == {};
    assert cuts * Everywhere(k + 1) == cuts * Everywhere(k) + if k + 1 in cuts then {k + 1} else {};
  }

  /** Every byte of such a value counts once, and twice with a cut behind it. */
  lemma {:induction false} LongCounts(p: Parser, t: seq<Event>, n: nat, v: seq<Byte>, cuts: set<nat>, a: Settings)
    requires p.errno.OK? && p.state.HeaderValue? && p.header.General? && Visible(v)
    ensures var c, k := CountOf(p, t, n, v, cuts, a), n + |v| + Behind(cuts, |v|);
      c.n == k && c.top == if v == [] then 0 else k
    decreases |v|
  {
    hide VisibleByte, Rest, CountOf, Paid, Behind;
    if v == [] {
      EmptyCount(p, t, n, cuts, a);
      OneMoreCut(cuts, 0);
    } else {
      var x, ch := v[..|v| - 1], v[|v| - 1];
      assert v == x + [ch];
      LongCounts(p, t, n, x, cuts, a);
      LongRuns(p, t, x, Lenient(a));
      CountOfMore(p, t, n, x, ch, cuts, a);
      StayingPaid(CountOf(p, t, n, x, cuts, a), p, ch, |v| in cuts, a);
      OneMoreCut(cuts, |x|);
    }
  }

  lemma StayingPaid(c: Toll, p: Parser, ch: Byte, last: bool, a: Settings)
    requires p.errno.OK? && p.state.HeaderValue? && p.header.General? && VisibleByte(ch)
    ensures var n := c.n + if last then 2 else 1; Paid(c, p, ch, last, a) == Toll(n, Max(c.top, n))
  {
    StayingByte(p, ch, a);
    hide SetsBack, Stays, ParsingHeader;
  }

  /** A value without a bad byte that fits the limit when it is read in one call, but not byte by byte. */
  lemma OverflowsWhenCut(p: Parser, t: seq<Event>, n: nat, v: seq<Byte>, a: Settings)
    requires p.errno.OK? && p.state.HeaderValue? && p.header.General? && Visible(v)
    requires n + |v| + 1 <= MAX_HEADER_SIZE < n + 2 * |v|
    ensures var w := Call(p, t, n, v, a);
      Clean(w.f) && ValuesOk(p, t, v, a) && CountAfter(w).top <= MAX_HEADER_SIZE
    ensures CutOf(Singly(v), v) && Calls(p, t, n, Singly(v), a).top > MAX_HEADER_SIZE
  {
    hide Rest, Scan, CountOf, Calls;
    LongRuns(p, t, v, a);
    StrictRunIsScan(p, t, NewCall(n), v, 0, a);
    assert ValuesOk(p, t, v, a) by {
      hide ValueByteAt;
    }
    SinglyCut(v);
    CutCounts(p, t, n, Singly(v), a);
    LongCounts(p, t, n, v, Everywhere(|v|), a);
    EverywhereSize(|v|);
    OnePiece(p, t, n, v, a);
    CutCounts(p, t, n, [v], a);
    LongCounts(p, t, n, v, {|v|}, a);
    assert {|v|} * Everywhere(|v|) == {|v|};
  }

  lemma {:induction false} EverywhereSize(k: nat)
    ensures |Everywhere(k)| == Behind(Everywhere(k), k) == k
  {
    assert Everywhere(k) * Everywhere(k) == Everywhere(k);
    if k > 0 {
      EverywhereSize(k - 1);
    }
  }

  /** One such value: 50000 letters. */
  lemma OverflowsHere(p: Parser, t: seq<Event>, a: Settings)
    requires p.errno.OK? && p.state.HeaderValue? && p.header.General?
    ensures var v: seq<Byte> := seq(50000, _ => 'a');
      && Clean(Call(p, t, 0, v, a).f) && ValuesOk(p, t, v, a)
      && CountAfter(Call(p, t, 0, v, a)).top <= MAX_HEADER_SIZE
      && CutOf(Singly(v), v) && Calls(p, t, 0, Singly(v), a).top > MAX_HEADER_SIZE
  {
    hide Scan, Calls, Rest, CutOf, Singly, ValuesOk;
    var v: seq<Byte> := seq(50000, _ => 'a');
    OverflowsWhenCut(p, t, 0, v, a);
  }
}
