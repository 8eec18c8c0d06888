/**
 Runs of the machine over a piece of input. Events are kept in joined form: two data
 callbacks of one kind in a row are one event, so a run does not show how its input was cut.
 */
module HttpRun {
  import opened HttpChars
  import opened HttpMachine
  import opened Options

  function Emit(t: seq<Event>, e: Event): seq<Event> {
    if e.Data? && t != [] && t[|t| - 1].Data? && t[|t| - 1].kind == e.kind
    then t[..|t| - 1] + [Data(e.kind, t[|t| - 1].bytes + e.bytes)]
    else t + [e]
  }

  function EmitAll(t: seq<Event>, es: seq<Event>): seq<Event>
    decreases |es|
  {
    if es == [] then t else EmitAll(Emit(t, es[0]), es[1..])
  }

  /** A raw list of callbacks, with adjacent data callbacks of one kind joined. */
  function Join(raw: seq<Event>): seq<Event> { EmitAll([], raw) }

  lemma {:induction false} EmitAllAppend(t: seq<Event>, es: seq<Event>, fs: seq<Event>)
    ensures EmitAll(t, es + fs) == EmitAll(EmitAll(t, es), fs)
    decreases |es|
  {
    if es == [] {
      assert es + fs == fs;
    } else {
      assert (es + fs)[0] == es[0] && (es + fs)[1..] == es[1..] + fs;
      EmitAllAppend(Emit(t, es[0]), es[1..], fs);
    }
  }

  lemma JoinAppend(raw: seq<Event>, e: Event)
    ensures Join(raw + [e]) == Emit(Join(raw), e)
  {
    EmitAllAppend([], raw, [e]);
    assert EmitAll(Join(raw), [e]) == EmitAll(Emit(Join(raw), e), [e][1..]);
  }

  lemma JoinAppendAll(raw: seq<Event>, es: seq<Event>)
    ensures Join(raw + es) == EmitAll(Join(raw), es)
  {
    EmitAllAppend([], raw, es);
  }

  /** Splitting one data callback in two changes nothing. */
  lemma EmitData(t: seq<Event>, k: DataKind, x: seq<Byte>, y: seq<Byte>)
    ensures Emit(Emit(t, Data(k, x)), Data(k, y)) == Emit(t, Data(k, x + y))
  {
    var u := Emit(t, Data(k, x));
    assert u[..|u| - 1] == if t != [] && t[|t| - 1].Data? && t[|t| - 1].kind == k then t[..|t| - 1] else t;
    if t != [] && t[|t| - 1].Data? && t[|t| - 1].kind == k {
      assert t[|t| - 1].bytes + x + y == t[|t| - 1].bytes + (x + y);
    }
  }

  /** The trace after one step on byte ch. */
  function Traced(t: seq<Event>, o: Outcome, ch: Byte): seq<Event> {
    EmitAll(if o.take.Some? then Emit(t, Data(o.take.value, [ch])) else t, o.notes)
  }

  /** How a call ends: parser, joined trace, bytes consumed, and whether it left HTTP. */
  datatype Final = Final(p: Parser, trace: seq<Event>, n: nat, stopped: bool)

  /** The rest of a call on data, from byte i on. */
  function Rest(p: Parser, t: seq<Event>, data: seq<Byte>, i: nat, a: Settings): Final
    requires i <= |data|
    decreases |data| - i, Rank(p.state)
  {
    if i == |data| || p.errno != OK then Final(p, t, i, false)
    else
      var o := Micro(p, data[i], a);
      if o.p.errno != OK then Final(o.p, t, i, false)
      else
        var t' := Traced(t, o, data[i]);
        match o.next
        case Advance => Rest(o.p, t', data, i + 1, a)
        case Again => Rest(o.p, t', data, i, a)
        case Stop => Final(o.p, t', i + 1, true)
  }

  lemma RestEnds(p: Parser, t: seq<Event>, data: seq<Byte>, a: Settings)
    ensures Rest(p, t, data, |data|, a) == Final(p, t, |data|, false)
  {
  }

  function Run(p: Parser, t: seq<Event>, data: seq<Byte>, a: Settings): Final { Rest(p, t, data, 0, a) }

  /** The call consumed all of its input and reported no error. */
  predicate Clean(f: Final) { f.p.errno.OK? && !f.stopped }

  function Shift(f: Final, k: nat): Final { f.(n := f.n + k) }

  lemma {:induction false} RestSuffix(p: Parser, t: seq<Event>, x: seq<Byte>, y: seq<Byte>, j: nat, a: Settings)
    requires j <= |y|
    ensures Rest(p, t, x + y, |x| + j, a) == Shift(Rest(p, t, y, j, a), |x|)
    decreases |y| - j, Rank(p.state)
  {
    hide Micro;
    if j < |y| && p.errno.OK? {
      assert (x + y)[|x| + j] == y[j];
      var o := Micro(p, y[j], a);
      if o.p.errno.OK? {
        var t' := Traced(t, o, y[j]);
        if o.next.Advance? {
          RestSuffix(o.p, t', x, y, j + 1, a);
        } else if o.next.Again? {
          RestSuffix(o.p, t', x, y, j, a);
        }
      }
    }
  }

  lemma {:induction false} RestPrefix(p: Parser, t: seq<Event>, x: seq<Byte>, y: seq<Byte>, i: nat, a: Settings)
    requires i <= |x| && Clean(Rest(p, t, x, i, a))
    ensures var f := Rest(p, t, x, i, a);
      f.n == |x| && Rest(p, t, x + y, i, a) == Shift(Run(f.p, f.trace, y, a), |x|)
    decreases |x| - i, Rank(p.state)
  {
    hide Micro;
    if i == |x| {
      RestSuffix(p, t, x, y, 0, a);
    } else {
      assert (x + y)[i] == x[i];
      var o := Micro(p, x[i], a);
      var t' := Traced(t, o, x[i]);
      if o.next.Advance? {
        RestPrefix(o.p, t', x, y, i + 1, a);
      } else {
        RestPrefix(o.p, t', x, y, i, a);
      }
    }
  }

  /** Cutting the input of a run at any byte changes neither parser nor joined trace. */
  lemma RunSplits(p: Parser, t: seq<Event>, x: seq<Byte>, y: seq<Byte>, a: Settings)
    requires Clean(Run(p, t, x, a))
    ensures var f := Run(p, t, x, a);
      f.n == |x| && Run(p, t, x + y, a) == Shift(Run(f.p, f.trace, y, a), |x|)
  {
    RestPrefix(p, t, x, y, 0, a);
  }

  /** A clean run has clean runs on every prefix. */
  lemma {:induction false} RestPrefixClean(p: Parser, t: seq<Event>, x: seq<Byte>, y: seq<Byte>, i: nat, a: Settings)
    requires i <= |x| && Clean(Rest(p, t, x + y, i, a))
    ensures Clean(Rest(p, t, x, i, a))
    decreases |x| - i, Rank(p.state)
  {
    hide Micro;
    if i < |x| {
      assert (x + y)[i] == x[i];
      var o := Micro(p, x[i], a);
      var t' := Traced(t, o, x[i]);
      if o.next.Advance? {
        RestPrefixClean(o.p, t', x, y, i + 1, a);
      } else {
        RestPrefixClean(o.p, t', x, y, i, a);
      }
    } else {
      RestSuffixErrorFree(p, t, x + y, i, a);
    }
  }

  lemma RestSuffixErrorFree(p: Parser, t: seq<Event>, data: seq<Byte>, i: nat, a: Settings)
    requires i <= |data| && Rest(p, t, data, i, a).p.errno.OK?
    ensures p.errno.OK?
  {
  }

  function Lenient(a: Settings): Settings { a.(lenient := true) }

  /** Strict header checking only adds one error; every other step is the same. */
  lemma LenientStep(p: Parser, ch: Byte, a: Settings)
    ensures !BadValueByte(p, ch) ==> Micro(p, ch, Lenient(a)) == Micro(p, ch, a)
    ensures BadValueByte(p, ch) && !a.lenient ==> Micro(p, ch, a).p.errno == InvalidHeaderToken
  {
    hide StartStep, ResponseVersionStep, ResponseStatusStep, RequestUrlStep, RequestVersionStep, HeaderSpaceStep,
        HeadersAlmostDoneStep,
         HeadersDoneStep, BodyStep, ChunkStep, HeaderFieldStartStep, HeaderFieldStep, ValueByte;
  }

  /** What strict header checking accepts, lenient checking treats the same way. */
  lemma {:induction false} LenientRest(p: Parser, t: seq<Event>, data: seq<Byte>, i: nat, a: Settings)
    requires i <= |data| && Rest(p, t, data, i, a).p.errno.OK?
    ensures Rest(p, t, data, i, Lenient(a)) == Rest(p, t, data, i, a)
    decreases |data| - i, Rank(p.state)
  {
    hide Micro;
    if i < |data| {
      LenientStep(p, data[i], a);
      var o := Micro(p, data[i], a);
      var t' := Traced(t, o, data[i]);
      if o.next.Advance? {
        LenientRest(o.p, t', data, i + 1, a);
      } else if o.next.Again? {
        LenientRest(o.p, t', data, i, a);
      }
    }
  }
}
