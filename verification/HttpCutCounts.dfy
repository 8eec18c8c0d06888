/**
 The count of header bytes under a cut, byte by byte, and what it means for cutting the input when
 the header limit is taken into account.
 */
module HttpCutCounts {
  import opened HttpCalls
  import opened HttpChars
  import opened HttpFraming
  import opened HttpInvariant
  import opened HttpMachine
  import opened HttpMarks
  import opened HttpParsing
  import opened HttpRun
  import opened HttpTheorems
  import opened Options
  import opened Pieces

  /** The byte sets the count back: it ends the headers or a chunk line. */
  predicate SetsBack(p: Parser, ch: Byte, a: Settings)
    decreases Rank(p.state)
  {
    var o := Micro(p, ch, Lenient(a));
    Resets(p.state) || (o.next.Again? && SetsBack(o.p, ch, a))
  }

  /** The byte belongs to a name or value that may go on behind it. */
  predicate Stays(p: Parser, ch: Byte, a: Settings) {
    var o := Micro(p, ch, Lenient(a));
    o.next.Advance? && StaysInLine(p.state, o.p.state)
  }

  /** The count, and the greatest one that was checked. */
  datatype Toll = Toll(n: nat, top: nat)

  /** One more byte: a header byte counts once, and twice if a piece ends inside a name or value with it. */
  function Paid(c: Toll, p: Parser, ch: Byte, last: bool, a: Settings): Toll {
    if !ParsingHeader(p.state) then Toll(if SetsBack(p, ch, a) then 0 else c.n, c.top)
    else
      var n := c.n + if last && Stays(p, ch, a) then 2 else 1;
      Toll(if SetsBack(p, ch, a) then 0 else n, Max(c.top, n))
  }

  /** What data counts from n on when it is cut behind the given numbers of bytes. */
  function CountOf(p: Parser, t: seq<Event>, n: nat, data: seq<Byte>, cuts: set<nat>, a: Settings): Toll {
    if data == [] then Toll(n, 0)
    else
      var x := data[..|data| - 1];
      Paid(CountOf(p, t, n, x, cuts, a), Run(p, t, x, Lenient(a)).p, data[|data| - 1], |data| in cuts, a)
  }

  /** Where the pieces end. */
  function Ends<T>(pieces: seq<seq<T>>): set<nat> {
    if pieces == [] then {} else Ends(pieces[..|pieces| - 1]) + {|Flatten(pieces)|}
  }

  // A call counts what the bytes say.

  lemma {:induction false} ByteScan(p: Parser, t: seq<Event>, k: Track, ch: Byte, a: Settings)
    requires Clean(Scan(p, t, k, [ch], 0, a).f)
    ensures var e := Scan(p, t, k, [ch], 0, a).k;
      var n := k.c.n + if k.first && ParsingHeader(p.state) then 1 else 0;
      && e.first && e.c.inside == Stays(p, ch, a)
      && e.c.n == (if SetsBack(p, ch, a) then 0 else n)
      && e.c.top == if k.first && ParsingHeader(p.state) then Max(k.c.top, n) else k.c.top
    decreases Rank(p.state)
  {
    hide Micro, Traced, ParsingHeader, Rank, Resets, StaysInLine;
    ScanErrorFree(p, t, k, [ch], 0, a);
    LenientStep(p, ch, a);
    var o := Micro(p, ch, Checking(a, k.skip));
    assert o == Micro(p, ch, Lenient(a));
    var k' := Onward(Count(k, p.state), p, o);
    if o.next.Advance? {
      ScanAll(o.p, Traced(t, o, ch), k', [ch], a);
    } else {
      AgainAfterLine(p, ch, Lenient(a));
      ByteScan(o.p, Traced(t, o, ch), k', ch, a);
      NotInLine(o.p, ch, a);
    }
  }

  lemma ScanAll(p: Parser, t: seq<Event>, k: Track, x: seq<Byte>, a: Settings)
    ensures Scan(p, t, k, x, |x|, a) == Ended(Final(p, t, |x|, false), k)
  {
  }

  lemma NotInLine(p: Parser, ch: Byte, a: Settings)
    requires !p.state.HeaderField? && !p.state.HeaderValue?
    ensures !Stays(p, ch, a)
  {
    hide Micro;
  }

  lemma AgainAfterLine(p: Parser, ch: Byte, a: Settings)
    requires p.errno.OK? && Micro(p, ch, a).next.Again?
    ensures !Micro(p, ch, a).p.state.HeaderField? && !Micro(p, ch, a).p.state.HeaderValue?
    ensures Rank(Micro(p, ch, a).p.state) < Rank(p.state)
  {
    AgainOutside(p, ch, a);
    AgainIsOk(p, ch, a);
    if ReadInBulk(p.state) {
      hide ValueByte, HeaderFieldStep;
    } else {
      SimpleMarks(p, ch, a);
      hide Micro;
    }
  }

  /** The last byte is one behind which a piece would count twice. */
  predicate LastStays(p: Parser, t: seq<Event>, data: seq<Byte>, a: Settings) {
    data != [] && Stays(Run(p, t, data[..|data| - 1], Lenient(a)).p, data[|data| - 1], a)
  }

  lemma CountOfMore(p: Parser, t: seq<Event>, n: nat, x: seq<Byte>, ch: Byte, cuts: set<nat>, a: Settings)
    ensures CountOf(p, t, n, x + [ch], cuts, a) ==
      Paid(CountOf(p, t, n, x, cuts, a), Run(p, t, x, Lenient(a)).p, ch, |x| + 1 in cuts, a)
    ensures LastStays(p, t, x + [ch], a) == Stays(Run(p, t, x, Lenient(a)).p, ch, a)
  {
    hide Rest, Paid, Stays;
    var data := x + [ch];
    assert data[..|data| - 1] == x;
  }

  /** Inside one piece y behind x nothing is cut. */
  lemma {:induction false} PieceCounts(p: Parser, t: seq<Event>, n: nat, x: seq<Byte>, y: seq<Byte>, cuts: set<nat>,
      a: Settings)
    requires p.errno.OK? && Clean(Run(p, t, x + y, a)) && forall j :: j in cuts ==> j <= |x|
    ensures Clean(Run(p, t, x, a))
    ensures var f, c0 := Run(p, t, x, a), CountOf(p, t, n, x, cuts, a);
      var e, c := Scan(f.p, f.trace, NewCall(c0.n), y, 0, a), CountOf(p, t, n, x + y, cuts, a);
      && Clean(e.f) && e.k.first && e.k.c.n == c.n && Max(c0.top, e.k.c.top) == c.top
      && e.k.c.inside == (y != [] && LastStays(p, t, x + y, a))
    decreases |y|
  {
    hide Rest, Scan, CountOf, LastStays;
    RestPrefixClean(p, t, x, y, 0, a);
    var f, k := Run(p, t, x, a), NewCall(CountOf(p, t, n, x, cuts, a).n);
    RunSplits(p, t, x, y, a);
    StrictRunIsScan(f.p, f.trace, k, y, 0, a);
    if y == [] {
      assert x + y == x;
      ScanAll(f.p, f.trace, k, y, a);
    } else {
      var z, ch := y[..|y| - 1], y[|y| - 1];
      assert y == z + [ch] && x + y == x + z + [ch];
      RestPrefixClean(p, t, x + z, [ch], 0, a);
      PieceCounts(p, t, n, x, z, cuts, a);
      RunSplits(p, t, x, z, a);
      StrictRunIsScan(f.p, f.trace, k, z, 0, a);
      ScanPrefix(f.p, f.trace, k, z, [ch], 0, a);
      var g := Scan(f.p, f.trace, k, z, 0, a);
      ByteScan(g.f.p, g.f.trace, g.k, ch, a);
      LenientRest(p, t, x + z, 0, a);
      CountOfMore(p, t, n, x + z, ch, cuts, a);
    }
  }

  lemma {:induction false} SameCuts(p: Parser, t: seq<Event>, n: nat, data: seq<Byte>, c: set<nat>, d: set<nat>,
      a: Settings)
    requires forall j :: 0 < j <= |data| ==> (j in c <==> j in d)
    ensures CountOf(p, t, n, data, c, a) == CountOf(p, t, n, data, d, a)
    decreases |data|
  {
    hide Paid, Rest;
    if data != [] {
      SameCuts(p, t, n, data[..|data| - 1], c, d, a);
    }
  }

  /** A byte behind which a piece ends. */
  lemma PaidLast(c: Toll, p: Parser, ch: Byte, a: Settings)
    ensures var m, l := Paid(c, p, ch, false, a), Paid(c, p, ch, true, a);
      l == if Stays(p, ch, a) then Toll(m.n + 1, Max(m.top, m.n + 1)) else m
  {
    hide Micro;
  }

  lemma {:induction false} EndsFit<T>(pieces: seq<seq<T>>, j: nat)
    requires j in Ends(pieces)
    ensures j <= |Flatten(pieces)|
    ensures (forall x :: x in pieces ==> x != []) ==> 0 < j
    decreases |pieces|
  {
    var most := pieces[..|pieces| - 1];
    assert forall x :: x in most ==> x in pieces;
    if j in Ends(most) {
      EndsFit(most, j);
    } else {
      assert pieces[|pieces| - 1] in pieces;
    }
  }

  /** However input is cut, the calls count what the bytes and the cuts say. */
  lemma {:induction false} CutCounts(p: Parser, t: seq<Event>, n: nat, pieces: seq<seq<Byte>>, a: Settings)
    requires p.errno.OK? && Clean(Run(p, t, Flatten(pieces), a)) && forall x :: x in pieces ==> x != []
    ensures var c, d := Calls(p, t, n, pieces, a), CountOf(p, t, n, Flatten(pieces), Ends(pieces), a);
      c.n == d.n && c.top == d.top
    decreases |pieces|
  {
    hide Rest, Scan, CountOf, Paid;
    if pieces == [] {
      EmptyCount(p, t, n, {}, a);
    } else {
      var most, last, data := pieces[..|pieces| - 1], pieces[|pieces| - 1], Flatten(pieces);
      var x, cuts := Flatten(most), Ends(most);
      assert last in pieces && forall y :: y in most ==> y in pieces;
      RestPrefixClean(p, t, x, last, 0, a);
      CutCounts(p, t, n, most, a);
      CutsAgree(p, t, n, most, a);
      forall j | j in cuts
        ensures j <= |x|
      {
        EndsFit(most, j);
      }
      PieceCounts(p, t, n, x, last, cuts, a);
      LastCut(p, t, n, data, cuts, a);
    }
  }

  lemma EmptyCount(p: Parser, t: seq<Event>, n: nat, cuts: set<nat>, a: Settings)
    ensures CountOf(p, t, n, [], cuts, a) == Toll(n, 0)
  {
  }

  /** The cut behind the last byte. */
  lemma LastCut(p: Parser, t: seq<Event>, n: nat, data: seq<Byte>, cuts: set<nat>, a: Settings)
    requires data != [] && forall j :: j in cuts ==> j < |data|
    ensures var c, d := CountOf(p, t, n, data, cuts, a), CountOf(p, t, n, data, cuts + {|data|}, a);
      d == if LastStays(p, t, data, a) then Toll(c.n + 1, Max(c.top, c.n + 1)) else c
  {
    hide Rest, Paid, CountOf;
    var x, ch := data[..|data| - 1], data[|data| - 1];
    assert data == x + [ch];
    CountOfMore(p, t, n, x, ch, cuts, a);
    CountOfMore(p, t, n, x, ch, cuts + {|data|}, a);
    SameCuts(p, t, n, x, cuts, cuts + {|data|}, a);
    PaidLast(CountOf(p, t, n, x, cuts, a), Run(p, t, x, Lenient(a)).p, ch, a);
  }

  /** One call counts each header byte once, and the last one twice if it may go on. */
  lemma WholeCounts(p: Parser, t: seq<Event>, n: nat, data: seq<Byte>, a: Settings)
    requires p.errno.OK? && Clean(Run(p, t, data, a))
    ensures var k, c := Call(p, t, n, data, a).k.c, CountOf(p, t, n, data, {}, a); k.n == c.n && k.top == c.top
  {
    hide Rest, Scan;
    assert [] + data == data;
    PieceCounts(p, t, n, [], data, {}, a);
    EmptyRun(p, t, a);
  }

  // More cuts count more.

  lemma {:induction false} MoreCuts(p: Parser, t: seq<Event>, n: nat, data: seq<Byte>, c: set<nat>, d: set<nat>,
      a: Settings)
    requires forall j :: 0 < j <= |data| && j in c ==> j in d
    ensures var x, y := CountOf(p, t, n, data, c, a), CountOf(p, t, n, data, d, a); x.n <= y.n && x.top <= y.top
    decreases |data|
  {
    hide Rest, SetsBack, Stays, ParsingHeader;
    if data != [] {
      MoreCuts(p, t, n, data[..|data| - 1], c, d, a);
    }
  }

  function Upto(cuts: set<nat>, k: nat): set<nat> { set j | j in cuts && j <= k }

  /** A cut costs one byte at most. */
  lemma {:induction false} CutsCostOne(p: Parser, t: seq<Event>, n: nat, data: seq<Byte>, cuts: set<nat>, a: Settings)
    ensures var x, y, d := CountOf(p, t, n, data, {}, a), CountOf(p, t, n, data, cuts, a), |Upto(cuts, |data|)|;
      y.n <= x.n + d && y.top <= x.top + d
    decreases |data|
  {
    hide Rest, SetsBack, Stays, ParsingHeader;
    if data != [] {
      var k := |data| - 1;
      CutsCostOne(p, t, n, data[..k], cuts, a);
      assert Upto(cuts, k + 1) == Upto(cuts, k) + if k + 1 in cuts then {k + 1} else {};
      hide Upto;
    }
  }

  lemma {:induction false} FewEnds<T>(pieces: seq<seq<T>>)
    ensures |Ends(pieces)| <= |pieces|
    decreases |pieces|
  {
    hide Flatten;
    if pieces != [] {
      FewEnds(pieces[..|pieces| - 1]);
    }
  }

  /** A cut counts no less than one call, and at most one byte more for each piece. */
  lemma CutCountsAtMost(p: Parser, t: seq<Event>, n: nat, pieces: seq<seq<Byte>>, a: Settings)
    requires p.errno.OK? && Clean(Run(p, t, Flatten(pieces), a)) && forall x :: x in pieces ==> x != []
    ensures var w, c := Call(p, t, n, Flatten(pieces), a).k.c, Calls(p, t, n, pieces, a);
      w.n <= c.n <= w.n + |pieces| && w.top <= c.top <= w.top + |pieces|
  {
    hide Rest, Scan, CountOf;
    var data, cuts := Flatten(pieces), Ends(pieces);
    CutCounts(p, t, n, pieces, a);
    WholeCounts(p, t, n, data, a);
    MoreCuts(p, t, n, data, {}, cuts, a);
    CutsCostOne(p, t, n, data, cuts, a);
    FewEnds(pieces);
    forall j | j in cuts
      ensures j <= |data|
    {
      EndsFit(pieces, j);
    }
    assert Upto(cuts, |data|) == cuts;
  }

  // The cut into single bytes.

  function Singly<T>(data: seq<T>): seq<seq<T>> { seq(|data|, i requires 0 <= i < |data| => [data[i]]) }

  function Everywhere(k: nat): (e: set<nat>)
    ensures forall j :: j in e <==> 0 < j <= k
  {
    if k == 0 then {} else Everywhere(k - 1) + {k}
  }

  lemma {:induction false} SinglyCut<T>(data: seq<T>)
    ensures Flatten(Singly(data)) == data && Ends(Singly(data)) == Everywhere(|data|)
    decreases |data|
  {
    if data != [] {
      var x := data[..|data| - 1];
      SinglyCut(x);
      assert Singly(data)[..|data| - 1] == Singly(x);
      assert Everywhere(|data|) == Everywhere(|x|) + {|data|};
    }
  }

  /**
   Split invariance, exactly, with the header limit: when one call on the whole input ends without
   error or upgrade exit, every way of cutting it ends with the same parser and callbacks and stays
   within the limit if and only if header values are not checked or hold nothing bad, and the header
   bytes stay within the limit when every byte counts twice behind which a name or value may go on.
   */
  lemma SplitExactly(p: Parser, t: seq<Event>, n: nat, data: seq<Byte>, a: Settings)
    requires p.errno.OK? && Clean(Call(p, t, n, data, a).f)
    ensures
      (forall pieces | CutOf(pieces, data) ::
         SameEnd(Calls(p, t, n, pieces, a), Call(p, t, n, data, a).f) &&
         Calls(p, t, n, pieces, a).top <= MAX_HEADER_SIZE) <==>
      (a.lenient || ValuesOk(p, t, data, a)) &&
      CountOf(p, t, n, data, Everywhere(|data|), a).top <= MAX_HEADER_SIZE
  {
    hide Scan, Rest, ValuesOk, CountOf, Flatten, Calls, Everywhere, Ends;
    AlikeExactly(p, t, n, data, a);
    if a.lenient || ValuesOk(p, t, data, a) {
      ScanIsRun(p, t, NewCall(n), data, 0, a);
      StrictExactly(p, t, data, a);
      SinglyCut(data);
      CutCounts(p, t, n, Singly(data), a);
      assert CutOf(Singly(data), data);
      forall pieces | CutOf(pieces, data)
        ensures Calls(p, t, n, pieces, a).top <= CountOf(p, t, n, data, Everywhere(|data|), a).top
      {
        CutCounts(p, t, n, pieces, a);
        EndsInside(pieces);
        MoreCuts(p, t, n, data, Ends(pieces), Everywhere(|data|), a);
      }
    }
  }

  lemma EndsInside<T>(pieces: seq<seq<T>>)
    ensures forall j :: 0 < j && j in Ends(pieces) ==> j in Everywhere(|Flatten(pieces)|)
  {
    hide Flatten, Ends;
    forall j | 0 < j && j in Ends(pieces)
      ensures j in Everywhere(|Flatten(pieces)|)
    {
      EndsFit(pieces, j);
    }
  }

  /** The counts of one call and of a cut, where nothing in a header value is bad. */
  lemma BothCounts(p: Parser, t: seq<Event>, n: nat, m: nat, pieces: seq<seq<Byte>>, a: Settings)
    requires p.errno.OK? && Flatten(pieces) != [] && forall x :: x in pieces ==> x != []
    requires Clean(Call(p, t, n, Flatten(pieces), a).f) && (a.lenient || ValuesOk(p, t, Flatten(pieces), a))
    ensures var data, c := Flatten(pieces), Calls(p, t, m, pieces, a);
      var w := Call(p, t, n, data, a);
      && CountAfter(w).top == CountOf(p, t, n, data, {|data|}, a).top
      && SameEnd(c, w.f) && c.top == CountOf(p, t, m, data, Ends(pieces), a).top
  {
    hide Scan, Rest, ValuesOk, CountOf;
    var data := Flatten(pieces);
    ScanIsRun(p, t, NewCall(n), data, 0, a);
    StrictExactly(p, t, data, a);
    CutsAgree(p, t, m, pieces, a);
    CutCounts(p, t, m, pieces, a);
    OnePiece(p, t, n, data, a);
    CutCounts(p, t, n, [data], a);
  }

  lemma OnePiece(p: Parser, t: seq<Event>, n: nat, data: seq<Byte>, a: Settings)
    requires p.errno.OK?
    ensures Flatten([data]) == data && Ends([data]) == {|data|}
    ensures Calls(p, t, n, [data], a).top == CountAfter(Call(p, t, n, data, a)).top
  {
    hide Scan;
    assert [data][..0] == [];
    assert Flatten([data]) == [] + data == data;
    assert Calls(p, t, n, [], a) == Progress(p, t, n, 0);
  }

  /**
   Split invariance for two parsers in the same state, one fed all the input and one fed its pieces.
   When the whole call ends without error or upgrade exit and header values are not checked or hold
   nothing bad, each of them overflows exactly if the bytes and its cuts count past the limit, and
   otherwise they end alike.
   */
  method SplitInvariance(whole: HttpParser, cut: HttpParser, pieces: seq<seq<Byte>>, answer: Answer) returns (k: nat)
    requires whole != cut && whole.Valid() && cut.Valid() && whole.errno.OK?
    requires whole.View() == cut.View() && whole.lenient == cut.lenient && Join(whole.trace) == Join(cut.trace)
    requires pieces != [] && (forall x :: x in pieces ==> x != []) && |Flatten(pieces)| < EXACT_PIECE
    modifies whole, cut
    ensures
      var p, t, data, a := old(whole.View()), old(Join(whole.trace)), Flatten(pieces), Settings(answer, whole.lenient);
      var n, m := old(whole.nread), old(cut.nread);
      var w, c := Call(p, t, n, data, a), Calls(p, t, m, pieces, a);
      && (whole.errno.OK? <==> w.f.p.errno.OK? && CountAfter(w).top <= MAX_HEADER_SIZE)
      && (cut.errno.OK? <==> c.p.errno.OK? && c.top <= MAX_HEADER_SIZE)
      && (Clean(w.f) && (a.lenient || ValuesOk(p, t, data, a)) ==>
            && (whole.errno.OK? <==> CountOf(p, t, n, data, {|data|}, a).top <= MAX_HEADER_SIZE)
            && (cut.errno.OK? <==> CountOf(p, t, m, data, Ends(pieces), a).top <= MAX_HEADER_SIZE)
            && (cut.errno.OK? || cut.errno.HeaderOverflow?)
            && (whole.errno.OK? && cut.errno.OK? ==>
                  whole.View() == cut.View() && Join(whole.trace) == Join(cut.trace)))
  {
    hide Inv, AuditOf, Scan, Rest, Emit, CountAfter, ValuesOk, CountOf, Ends;
    var data := Flatten(pieces);
    ghost var p, t, a := whole.View(), Join(whole.trace), Settings(answer, whole.lenient);
    forall x | x in pieces
      ensures |x| <= |data|
    {
      PieceLength(pieces, x);
    }
    assert pieces[0] in pieces;
    ghost var n, m := whole.nread, cut.nread;
    ghost var w := Call(p, t, n, data, a);
    k := whole.Execute(data, answer);
    ExecuteAll(cut, pieces, answer);
    if Clean(w.f) && (a.lenient || ValuesOk(p, t, data, a)) {
      BothCounts(p, t, n, m, pieces, a);
    }
  }
}
