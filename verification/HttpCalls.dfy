/**
 What one call on a piece of input does, byte by byte: the machine, the checks of header-value
 bytes that the call leaves out when it skips to the end of the line, and the count of header
 bytes since the last reset.
 */
module HttpCalls {
  import opened HttpChars
  import opened HttpMachine
  import opened HttpRun
  import opened Options

  const MAX_HEADER_SIZE: nat := 80 * 1024

  /** The count, the greatest count reached in this call, and whether the last byte was inside a name or value. */
  datatype Tally = Tally(n: nat, top: nat, inside: bool)

  function Max(x: nat, y: nat): nat { if x > y then x else y }

  function Add(c: Tally): Tally { Tally(c.n + 1, Max(c.n + 1, c.top), c.inside) }

  /** A piece that ends inside a name or value counts one byte more. */
  function Closed(c: Tally): Tally { if c.inside then Add(c).(inside := false) else c }

  /** The steps that set the count back. */
  predicate Resets(s: State) { s.HeadersDone? || s.ChunkSizeAlmostDone? || s.ChunkDataDone? }

  predicate StaysInLine(s: State, s': State) {
    (s.HeaderField? && s'.HeaderField?) || (s.HeaderValue? && s'.HeaderValue?)
  }

  function Looked(c: Tally, s: State, s': State): Tally {
    Tally(if Resets(s) then 0 else c.n, c.top, StaysInLine(s, s'))
  }

  /** `skip`: the call has found the end of the line; `first`: the byte is not counted yet. */
  datatype Track = Track(skip: bool, first: bool, c: Tally)

  function NewCall(n: nat): Track { Track(false, true, Tally(n, 0, false)) }

  /** A byte is counted once, in the state in which it is first looked at. */
  function Count(k: Track, s: State): Track {
    k.(first := false, c := if k.first && ParsingHeader(s) then Add(k.c) else k.c)
  }

  /** A value the matcher ignores is checked up to the byte after which the call skips. */
  function Onward(k: Track, p: Parser, o: Outcome): Track {
    Track(o.next.Advance? && p.state.HeaderValue? && p.header.General? && o.p.state.HeaderValue?,
          o.next.Advance?, Looked(k.c, p.state, o.p.state))
  }

  function Checking(a: Settings, skip: bool): Settings { if skip then Lenient(a) else a }

  datatype Ended = Ended(f: Final, k: Track)

  /** The rest of a call on data, from byte i on. */
  function Scan(p: Parser, t: seq<Event>, k: Track, data: seq<Byte>, i: nat, a: Settings): Ended
    requires i <= |data|
    decreases |data| - i, Rank(p.state)
  {
    if i == |data| || p.errno != OK then Ended(Final(p, t, i, false), k)
    else
      var k1 := Count(k, p.state);
      var o := Micro(p, data[i], Checking(a, k.skip));
      if o.p.errno != OK then Ended(Final(o.p, t, i, false), k1.(c := k1.c.(inside := false)))
      else
        var t' := Traced(t, o, data[i]);
        var k2 := Onward(k1, p, o);
        match o.next
        case Advance => Scan(o.p, t', k2, data, i + 1, a)
        case Again => Scan(o.p, t', k2, data, i, a)
        case Stop => Ended(Final(o.p, t', i + 1, true), k2)
  }

  /** A call. */
  function Call(p: Parser, t: seq<Event>, n: nat, data: seq<Byte>, a: Settings): Ended {
    Scan(p, t, NewCall(n), data, 0, a)
  }

  /** The count when a call has ended, and the greatest one it checked. */
  function CountAfter(e: Ended): Tally { Closed(e.k.c) }

  lemma {:induction false} TopGrows(p: Parser, t: seq<Event>, k: Track, data: seq<Byte>, i: nat, a: Settings)
    requires i <= |data|
    ensures Scan(p, t, k, data, i, a).k.c.top >= k.c.top
    decreases |data| - i, Rank(p.state)
  {
    hide Micro, ParsingHeader, Traced;
    if i < |data| && p.errno.OK? {
      var k1 := Count(k, p.state);
      var o := Micro(p, data[i], Checking(a, k.skip));
      if o.p.errno.OK? && o.next.Advance? {
        TopGrows(o.p, Traced(t, o, data[i]), Onward(k1, p, o), data, i + 1, a);
      } else if o.p.errno.OK? && o.next.Again? {
        TopGrows(o.p, Traced(t, o, data[i]), Onward(k1, p, o), data, i, a);
      }
    }
  }

  /** A call that reports no error is a run without checks. */
  lemma {:induction false} ScanIsRun(p: Parser, t: seq<Event>, k: Track, data: seq<Byte>, i: nat, a: Settings)
    requires i <= |data| && Scan(p, t, k, data, i, a).f.p.errno.OK?
    ensures Scan(p, t, k, data, i, a).f == Rest(p, t, data, i, Lenient(a))
    decreases |data| - i, Rank(p.state)
  {
    hide Micro, Count, Onward, Traced;
    if i < |data| && p.errno.OK? {
      LenientStep(p, data[i], a);
      var o := Micro(p, data[i], Checking(a, k.skip));
      if o.p.errno.OK? && o.next.Advance? {
        ScanIsRun(o.p, Traced(t, o, data[i]), Onward(Count(k, p.state), p, o), data, i + 1, a);
      } else if o.p.errno.OK? && o.next.Again? {
        ScanIsRun(o.p, Traced(t, o, data[i]), Onward(Count(k, p.state), p, o), data, i, a);
      }
    }
  }

  /** Where the run with all checks reports no error, the call does what it does. */
  lemma {:induction false} StrictRunIsScan(p: Parser, t: seq<Event>, k: Track, data: seq<Byte>, i: nat, a: Settings)
    requires i <= |data| && Rest(p, t, data, i, a).p.errno.OK?
    ensures Scan(p, t, k, data, i, a).f == Rest(p, t, data, i, a)
    decreases |data| - i, Rank(p.state)
  {
    hide Micro, Count, Onward, Traced;
    if i < |data| && p.errno.OK? {
      LenientStep(p, data[i], a);
      var o := Micro(p, data[i], a);
      if o.p.errno.OK? && o.next.Advance? {
        StrictRunIsScan(o.p, Traced(t, o, data[i]), Onward(Count(k, p.state), p, o), data, i + 1, a);
      } else if o.p.errno.OK? && o.next.Again? {
        StrictRunIsScan(o.p, Traced(t, o, data[i]), Onward(Count(k, p.state), p, o), data, i, a);
      }
    }
  }

  function Moved(e: Ended, n: nat): Ended { e.(f := Shift(e.f, n)) }

  lemma {:induction false} ScanSuffix(p: Parser, t: seq<Event>, k: Track, x: seq<Byte>, y: seq<Byte>, j: nat,
      a: Settings)
    requires j <= |y|
    ensures Scan(p, t, k, x + y, |x| + j, a) == Moved(Scan(p, t, k, y, j, a), |x|)
    decreases |y| - j, Rank(p.state)
  {
    hide Micro, Count, Onward, Traced;
    if j < |y| && p.errno.OK? {
      assert (x + y)[|x| + j] == y[j];
      var o := Micro(p, y[j], Checking(a, k.skip));
      if o.p.errno.OK? && o.next.Advance? {
        ScanSuffix(o.p, Traced(t, o, y[j]), Onward(Count(k, p.state), p, o), x, y, j + 1, a);
      } else if o.p.errno.OK? && o.next.Again? {
        ScanSuffix(o.p, Traced(t, o, y[j]), Onward(Count(k, p.state), p, o), x, y, j, a);
      }
    }
  }

  /** One call over x and y goes on after x from where a call over x ends, with its track. */
  lemma {:induction false} ScanPrefix(p: Parser, t: seq<Event>, k: Track, x: seq<Byte>, y: seq<Byte>, i: nat,
      a: Settings)
    requires i <= |x| && Clean(Scan(p, t, k, x, i, a).f)
    ensures var e := Scan(p, t, k, x, i, a);
      e.f.n == |x| && Scan(p, t, k, x + y, i, a) == Moved(Scan(e.f.p, e.f.trace, e.k, y, 0, a), |x|)
    decreases |x| - i, Rank(p.state)
  {
    hide Micro, Count, Onward, Traced;
    if i == |x| {
      ScanSuffix(p, t, k, x, y, 0, a);
    } else {
      assert (x + y)[i] == x[i];
      var o := Micro(p, x[i], Checking(a, k.skip));
      if o.next.Advance? {
        ScanPrefix(o.p, Traced(t, o, x[i]), Onward(Count(k, p.state), p, o), x, y, i + 1, a);
      } else {
        ScanPrefix(o.p, Traced(t, o, x[i]), Onward(Count(k, p.state), p, o), x, y, i, a);
      }
    }
  }

  /** A call whose whole input is read without error reads every beginning of it without error. */
  lemma {:induction false} ScanPrefixClean(p: Parser, t: seq<Event>, k: Track, x: seq<Byte>, y: seq<Byte>, i: nat,
      a: Settings)
    requires i <= |x| && Clean(Scan(p, t, k, x + y, i, a).f)
    ensures Clean(Scan(p, t, k, x, i, a).f)
    decreases |x| - i, Rank(p.state)
  {
    hide Micro, Count, Onward, Traced;
    if i < |x| {
      assert (x + y)[i] == x[i];
      var o := Micro(p, x[i], Checking(a, k.skip));
      if o.next.Advance? {
        ScanPrefixClean(o.p, Traced(t, o, x[i]), Onward(Count(k, p.state), p, o), x, y, i + 1, a);
      } else {
        ScanPrefixClean(o.p, Traced(t, o, x[i]), Onward(Count(k, p.state), p, o), x, y, i, a);
      }
    } else {
      ScanErrorFree(p, t, k, x + y, i, a);
    }
  }

  lemma ScanErrorFree(p: Parser, t: seq<Event>, k: Track, data: seq<Byte>, i: nat, a: Settings)
    requires i <= |data| && Scan(p, t, k, data, i, a).f.p.errno.OK?
    ensures p.errno.OK?
  {
  }
}
