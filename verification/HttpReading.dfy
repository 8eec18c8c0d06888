/** How the machine reads the parts of a message. */
module HttpReading {
  import opened HttpChars
  import opened HttpMachine
  import opened HttpRun
  import opened HttpFraming
  import opened HttpInvariant
  import opened HttpMessages
  import opened HttpNames
  import opened Options
  import opened UrlWalk

  /** x stands in s at i. */
  predicate Stands(s: seq<Byte>, i: nat, x: seq<Byte>) { i + |x| <= |s| && s[i..i + |x|] == x }

  lemma StandsBoth(s: seq<Byte>, i: nat, x: seq<Byte>, y: seq<Byte>)
    requires Stands(s, i, x + y)
    ensures Stands(s, i, x) && Stands(s, i + |x|, y)
  {
    assert s[i..i + |x|] == (x + y)[..|x|] == x;
    assert s[i + |x|..i + |x| + |y|] == (x + y)[|x|..] == y;
  }

  lemma StandsAt(s: seq<Byte>, i: nat, x: seq<Byte>, k: nat)
    requires Stands(s, i, x) && k < |x|
    ensures i + k < |s| && s[i + k] == x[k]
  {
    assert s[i..i + |x|][k] == x[k];
  }

  lemma StandsSlice(s: seq<Byte>, i: nat, x: seq<Byte>)
    requires Stands(s, i, x)
    ensures i + |x| <= |s| && s[i..i + |x|] == x
  {
  }

  lemma StandsRest(s: seq<Byte>, i: nat, x: seq<Byte>, k: nat)
    requires Stands(s, i, x) && k <= |x|
    ensures Stands(s, i + k, x[k..])
  {
    assert x == x[..k] + x[k..];
    StandsBoth(s, i, x[..k], x[k..]);
  }

  /** One byte that is consumed without data. */
  lemma Moves(p: Parser, q: Parser, t: seq<Event>, s: seq<Byte>, i: nat, a: Settings)
    requires i < |s| && p.errno.OK? && q.errno.OK? && Micro(p, s[i], a) == Move(q)
    ensures Rest(p, t, s, i, a) == Rest(q, t, s, i + 1, a)
  {
    hide Micro;
  }

  /** One byte of data. */
  lemma Takes(p: Parser, q: Parser, k: DataKind, t: seq<Event>, s: seq<Byte>, i: nat, a: Settings)
    requires i < |s| && p.errno.OK? && q.errno.OK? && Micro(p, s[i], a) == Take(q, k)
    ensures Rest(p, t, s, i, a) == Rest(q, Emit(t, Data(k, [s[i]])), s, i + 1, a)
  {
    hide Micro, Emit;
  }

  /** One byte with a callback. */
  lemma Notes(p: Parser, q: Parser, e: Event, t: seq<Event>, s: seq<Byte>, i: nat, a: Settings)
    requires i < |s| && p.errno.OK? && q.errno.OK? && Micro(p, s[i], a) == Outcome(q, None, [e], Advance)
    ensures Rest(p, t, s, i, a) == Rest(q, Emit(t, e), s, i + 1, a)
  {
    hide Micro, Emit;
    assert EmitAll(t, [e]) == EmitAll(Emit(t, e), [e][1..]);
  }

  /** A byte that is looked at again. */
  lemma Repeats(p: Parser, q: Parser, es: seq<Event>, t: seq<Event>, s: seq<Byte>, i: nat, a: Settings)
    requires i < |s| && p.errno.OK? && q.errno.OK? && Micro(p, s[i], a) == Outcome(q, None, es, Again)
    ensures Rest(p, t, s, i, a) == Rest(q, EmitAll(t, es), s, i, a)
  {
    hide Micro, Emit;
  }

  /** Many bytes that are consumed: ps are the parsers before, between and after them. */
  lemma {:induction false} ManyMove(ps: seq<Parser>, t: seq<Event>, s: seq<Byte>, i: nat, a: Settings)
    requires ps != [] && i + |ps| - 1 <= |s|
    requires forall k :: 0 <= k < |ps| ==> ps[k].errno.OK?
    requires forall k :: 0 <= k < |ps| - 1 ==> Micro(ps[k], s[i + k], a) == Move(ps[k + 1])
    ensures Rest(ps[0], t, s, i, a) == Rest(ps[|ps| - 1], t, s, i + |ps| - 1, a)
    decreases |ps|
  {
    hide Micro, Rest;
    if |ps| > 1 {
      var n := |ps| - 1;
      ManyMove(ps[..n], t, s, i, a);
      Moves(ps[n - 1], ps[n], t, s, i + n - 1, a);
    }
  }

  /** Many bytes of one piece of data. */
  lemma {:induction false} ManyTake(ps: seq<Parser>, kind: DataKind, t: seq<Event>, s: seq<Byte>, i: nat, a: Settings)
    requires |ps| > 1 && i + |ps| - 1 <= |s|
    requires forall k :: 0 <= k < |ps| ==> ps[k].errno.OK?
    requires forall k :: 0 <= k < |ps| - 1 ==> Micro(ps[k], s[i + k], a) == Take(ps[k + 1], kind)
    ensures Rest(ps[0], t, s, i, a) == Rest(ps[|ps| - 1], Emit(t, Data(kind, s[i..i + |ps| - 1])), s, i + |ps| - 1, a)
    decreases |ps|
  {
    hide Micro, Rest, Emit;
    var n := |ps| - 1;
    if n == 1 {
      Takes(ps[0], ps[1], kind, t, s, i, a);
      assert s[i..i + 1] == [s[i]];
    } else {
      ManyTake(ps[..n], kind, t, s, i, a);
      var x := s[i..i + n - 1];
      Takes(ps[n - 1], ps[n], kind, Emit(t, Data(kind, x)), s, i + n - 1, a);
      EmitData(t, kind, x, [s[i + n - 1]]);
      assert x + [s[i + n - 1]] == s[i..i + n];
    }
  }

  /** No data of kind k is being delivered. */
  predicate NotIn(t: seq<Event>, k: DataKind) { t != [] ==> !(t[|t| - 1].Data? && t[|t| - 1].kind == k) }

  lemma NewData(t: seq<Event>, k: DataKind, b: seq<Byte>)
    requires NotIn(t, k)
    ensures Emit(t, Data(k, b)) == t + [Data(k, b)]
  {
  }

  // Numbers.

  predicate Counting(s: State) {
    s.ReqHttpMajor? || s.ReqHttpMinor? || s.ResHttpMajor? || s.ResHttpMinor? ||
    s.ResStatusCode?
  }

  function NumberIn(p: Parser): nat {
    if p.state.ReqHttpMajor? || p.state.ResHttpMajor? then p.major
    else if p.state.ReqHttpMinor? || p.state.ResHttpMinor? then p.minor
    else p.status
  }

  function WithNumber(p: Parser, n: nat): Parser {
    if p.state.ReqHttpMajor? || p.state.ResHttpMajor? then p.(major := n)
    else if p.state.ReqHttpMinor? || p.state.ResHttpMinor? then p.(minor := n)
    else p.(status := n)
  }

  lemma DigitStep(p: Parser, ch: Byte, a: Settings)
    requires Counting(p.state) && IsNum(ch) && NumberIn(p) * 10 + DigitValue(ch) <= 999
    ensures Micro(p, ch, a) == Move(WithNumber(p, NumberIn(p) * 10 + DigitValue(ch)))
  {
    hide StartStep, RequestUrlStep, HeaderLineStep, HeaderSpaceStep, HeadersAlmostDoneStep, HeadersDoneStep,
        BodyStep, ChunkStep;
  }

  lemma {:induction false} DecimalGrows(s: seq<Byte>, k: nat)
    requires k <= |s| && forall j :: 0 <= j < |s| ==> IsNum(s[j])
    ensures Decimal(s[..k]) <= Decimal(s)
    ensures k < |s| ==> Decimal(s[..k + 1]) == Decimal(s[..k]) * 10 + DigitValue(s[k])
    ensures k < |s| ==> Decimal(s[..k]) * 10 <= Decimal(s)
    decreases |s|
  {
    if k == |s| {
      assert s[..k] == s;
    } else {
      var r := s[..|s| - 1];
      if k + 1 == |s| {
        assert s[..k] == r && s[..k + 1] == s;
      } else {
        DecimalGrows(r, k);
        assert r[..k] == s[..k] && r[..k + 1] == s[..k + 1];
      }
    }
  }

  lemma OneDigit(c: Byte)
    requires IsNum(c)
    ensures Decimal([c]) == DigitValue(c)
  {
    assert [c][..0] == [];
  }

  lemma NextDigit(p: Parser, d: seq<Byte>, k: nat, a: Settings)
    requires Counting(p.state) && SmallNumber(d) && 0 < k < |d|
    ensures Micro(WithNumber(p, Decimal(d[..k])), d[k], a) == Move(WithNumber(p, Decimal(d[..k + 1])))
  {
    hide Micro, Decimal;
    DecimalGrows(d, k);
    DecimalGrows(d, k + 1);
    var q := WithNumber(p, Decimal(d[..k]));
    assert NumberIn(q) == Decimal(d[..k]) && Counting(q.state);
    DigitStep(q, d[k], a);
  }

  /** The digits after the first. */
  lemma ReadNumber(p: Parser, t: seq<Event>, s: seq<Byte>, i: nat, a: Settings, d: seq<Byte>)
    requires Counting(p.state) && p.errno.OK? && SmallNumber(d) && NumberIn(p) == DigitValue(d[0])
    requires Stands(s, i, d[1..])
    ensures Rest(p, t, s, i, a) == Rest(WithNumber(p, Decimal(d)), t, s, i + |d| - 1, a)
  {
    hide Micro, Rest, Decimal, Stands;
    var ps := seq(|d|, k requires 0 <= k < |d| => WithNumber(p, Decimal(d[..k + 1])));
    assert ps[0] == p by {
      OneDigit(d[0]);
      assert d[..1] == [d[0]];
    }
    StandsSlice(s, i, d[1..]);
    forall k | 0 <= k < |ps| - 1
      ensures Micro(ps[k], s[i + k], a) == Move(ps[k + 1])
    {
      StandsAt(s, i, d[1..], k);
      NextDigit(p, d, k + 1, a);
    }
    ManyMove(ps, t, s, i, a);
    assert d[..|d|] == d;
  }

  // The request line.

  /** The method matched against, after k letters of text. */
  function Guess(text: seq<Byte>, k: nat): Option<Method>
    requires 0 < k <= |text|
  {
    if k == 1 then FirstMethod(text[0])
    else
      var g := Guess(text, k - 1);
      if g.None? then None
      else if k - 1 < |MethodString(g.value)| && text[k - 1] == MethodString(g.value)[k - 1] then g
      else SwitchMethod(g.value, k - 1, text[k - 1])
  }

  /** The method that is matched before m is switched to, and after how many letters. */
  function Fork(m: Method): Option<(Method, nat)> {
    match m
    case PUT => Some((POST, 1)) case PATCH => Some((POST, 1)) case PROPFIND => Some((POST, 1))
    case PROPPATCH => Some((PROPFIND, 4)) case PURGE => Some((PUT, 2))
    case COPY => Some((CONNECT, 2)) case CHECKOUT => Some((CONNECT, 1))
    case MOVE => Some((MKCOL, 1)) case MERGE => Some((MKCOL, 1)) case MSEARCH => Some((MKCOL, 1))
    case MKACTIVITY => Some((MKCOL, 2)) case MKCALENDAR => Some((MKCOL, 3))
    case SEARCH => Some((SUBSCRIBE, 1)) case REBIND => Some((REPORT, 2)) case LINK => Some((LOCK, 1))
    case UNBIND => Some((UNLOCK, 2)) case UNSUBSCRIBE => Some((UNLOCK, 2)) case UNLINK => Some((UNLOCK, 3))
    case _ => None
  }

  function ForkAt(m: Method): nat { if Fork(m).Some? then Fork(m).value.1 else 0 }

  lemma ForkLetters(m: Method)
    requires Fork(m).Some?
    ensures var (v, k), x := Fork(m).value, MethodString(m);
            && ForkAt(v) < k < |x| && x[..k] <= MethodString(v) &&
                (k < |MethodString(v)| ==> x[k] != MethodString(v)[k])
            && SwitchMethod(v, k, x[k]) == Some(m)
  {
    ForkInside(m);
    ForkSwitches(m);
    hide SwitchMethod;
  }

  lemma ForkSwitches(m: Method)
    requires Fork(m).Some?
    ensures var (v, k), x := Fork(m).value, MethodString(m);
            k < |x| && SwitchMethod(v, k, x[k]) == Some(m)
  {
  }

  lemma FirstLetter(m: Method)
    requires Fork(m).None?
    ensures var x := MethodString(m); |x| > 0 && FirstMethod(x[0]) == Some(m)
  {
  }

  lemma {:induction false} SameLetters(x: seq<Byte>, y: seq<Byte>, k: nat)
    requires 0 < k <= |x| && k <= |y| && x[..k] == y[..k]
    ensures Guess(x, k) == Guess(y, k)
  {
    hide FirstMethod, SwitchMethod, MethodString;
    assert x[k - 1] == x[..k][k - 1] && y[k - 1] == y[..k][k - 1];
    if k > 1 {
      assert x[..k - 1] == x[..k][..k - 1] && y[..k - 1] == y[..k][..k - 1];
      SameLetters(x, y, k - 1);
    }
  }

  /** Once its letters have parted from every other, a method stays the one matched against. */
  lemma {:induction false} Spelled(m: Method, j: nat)
    requires ForkAt(m) < j <= |MethodString(m)|
    ensures Guess(MethodString(m), j) == Some(m)
    decreases if Fork(m).None? then 0 else if Fork(Fork(m).value.0).None? then 1 else 2, j
  {
    hide FirstMethod, SwitchMethod, MethodString;
    var x := MethodString(m);
    if ForkAt(m) + 1 < j {
      Spelled(m, j - 1);
    } else if Fork(m).None? {
      FirstLetter(m);
    } else {
      var (v, k) := Fork(m).value;
      ForkLetters(m);
      Spelled(v, k);
      SameLetters(x, MethodString(v), k);
    }
  }

  lemma SwitchLetters(v: Method, k: nat, c: Byte)
    requires SwitchMethod(v, k, c).Some?
    ensures var x, y := MethodString(v), MethodString(SwitchMethod(v, k, c).value);
            k <= |x| && k < |y| && x[..k] == y[..k] && y[k] == c
  {
    var w := SwitchMethod(v, k, c).value;
    SwitchForks(v, k, c);
    ForkLetters(w);
    SameSwitch(v, k, c, MethodString(w)[k]);
    hide MethodString, SwitchMethod;
    assert MethodString(w)[..k] == MethodString(v)[..k];
  }

  lemma SwitchForks(v: Method, k: nat, c: Byte)
    requires SwitchMethod(v, k, c).Some?
    ensures Fork(SwitchMethod(v, k, c).value) == Some((v, k))
  {
  }

  lemma SameSwitch(v: Method, k: nat, c: Byte, d: Byte)
    requires SwitchMethod(v, k, c).Some? && SwitchMethod(v, k, c) == SwitchMethod(v, k, d)
    ensures c == d
  {
  }

  lemma FirstMethodLetter(c: Byte)
    requires FirstMethod(c).Some?
    ensures var x := MethodString(FirstMethod(c).value); |x| > 0 && x[0] == c
  {
  }

  /** The letters read so far always begin the method matched against. */
  lemma {:induction false} GuessSpells(text: seq<Byte>, k: nat)
    requires 0 < k <= |text| && Guess(text, k).Some?
    ensures text[..k] <= MethodString(Guess(text, k).value)
  {
    hide FirstMethod, SwitchMethod, MethodString;
    if k == 1 {
      FirstMethodLetter(text[0]);
    } else {
      var v, c := Guess(text, k - 1).value, text[k - 1];
      GuessSpells(text, k - 1);
      assert text[..k] == text[..k - 1] + [c];
      if SwitchMethod(v, k - 1, c).Some? {
        SwitchLetters(v, k - 1, c);
      }
    }
  }

  /** A method is read exactly when its name is spelled out. */
  lemma MethodExactly(text: seq<Byte>, m: Method)
    requires text != []
    ensures Guess(text, |text|) == Some(m) && |text| == |MethodString(m)| <==> text == MethodString(m)
  {
    hide Guess, MethodString;
    assert text[..|text|] == text;
    if text == MethodString(m) {
      ForkInside(m);
      Spelled(m, |text|);
    } else if Guess(text, |text|) == Some(m) {
      GuessSpells(text, |text|);
    }
  }

  lemma {:induction false} GuessKnown(x: seq<Byte>, k: nat, j: nat)
    requires 0 < k <= j <= |x| && Guess(x, j).Some?
    ensures Guess(x, k).Some?
    decreases j
  {
    hide FirstMethod, SwitchMethod, MethodString;
    if k < j {
      GuessKnown(x, k, j - 1);
    }
  }

  lemma MethodLetters(m: Method, k: nat)
    requires k < |MethodString(m)|
    ensures var c := MethodString(m)[k]; c != NUL && c != ' ' && c != CR && c != LF
  {
    AllLetters(m);
    hide MethodString;
    assert MethodString(m)[k] in MethodString(m);
  }

  predicate NameLetter(c: Byte) { c == '-' || 'A' <= c <= 'Z' }

  lemma AllLetters(m: Method)
    ensures forall c :: c in MethodString(m) ==> NameLetter(c)
  {
  }

  lemma MethodLetter(p: Parser, x: seq<Byte>, k: nat, a: Settings)
    requires 0 < k < |x| && p.state.ReqMethod? && p.index == k && Guess(x, k) == Some(p.verb) && Guess(x, k + 1).Some?
    requires x[k] != NUL && x[k] != ' '
    ensures Micro(p, x[k], a) == Move(p.(verb := Guess(x, k + 1).value, index := k + 1))
  {
    hide SwitchMethod, MethodString, FirstMethod;
  }

  lemma LetterFails(p: Parser, x: seq<Byte>, k: nat, a: Settings)
    requires 0 < k < |x| && p.state.ReqMethod? && p.index == k && Guess(x, k) == Some(p.verb) && Guess(x, k + 1).None?
    requires x[k] != ' '
    ensures !Micro(p, x[k], a).p.errno.OK?
  {
    hide SwitchMethod, MethodString, FirstMethod;
  }

  lemma MethodBegins(p: Parser, ch: Byte, a: Settings)
    requires p.state.StartReq? && ch != CR && ch != LF
    ensures FirstMethod(ch).Some? ==> Micro(p, ch, a) == Outcome(FreshMessage(p).(verb := FirstMethod(ch).value,
        index := 1, state := ReqMethod), None, [OnMessageBegin], Advance)
    ensures FirstMethod(ch).None? ==> !Micro(p, ch, a).p.errno.OK?
  {
    hide FirstMethod, FreshMessage;
  }

  lemma MethodEnds(p: Parser, a: Settings)
    requires p.state.ReqMethod? && p.index <= |MethodString(p.verb)|
    ensures Micro(p, ' ', a) ==
      if p.index == |MethodString(p.verb)| then Move(p.(index := p.index + 1, state := ReqSpacesBeforeUrl))
      else Micro(p, ' ', a).(p := Micro(p, ' ', a).p.(errno := InvalidMethod))
  {
    if p.index < |MethodString(p.verb)| {
      MethodLetters(p.verb, p.index);
      NoSwitchOnSpace(p.verb, p.index);
    }
    hide MethodString, SwitchMethod;
  }

  lemma NoSwitchOnSpace(m: Method, k: nat)
    ensures SwitchMethod(m, k, ' ').None?
  {
  }

  /** The parser after k letters of x. */
  function Lettered(p: Parser, x: seq<Byte>, k: nat): Parser
    requires 0 < k <= |x| && Guess(x, k).Some?
  {
    FreshMessage(p).(verb := Guess(x, k).value, index := k, state := ReqMethod)
  }

  lemma GuessedLetter(x: seq<Byte>, k: nat)
    requires k < |x| && Guess(x, k + 1).Some?
    ensures x[k] != NUL && x[k] != ' ' && x[k] != CR && x[k] != LF
  {
    hide Guess, MethodString;
    GuessSpells(x, k + 1);
    var m := Guess(x, k + 1).value;
    assert x[k] == x[..k + 1][k] == MethodString(m)[k];
    MethodLetters(m, k);
  }

  lemma {:induction false} ReadLetters(p: Parser, t: seq<Event>, s: seq<Byte>, i: nat, a: Settings, x: seq<Byte>,
      k: nat)
    requires p.state.StartReq? && p.errno.OK? && Stands(s, i, x) && 0 < k <= |x| && Guess(x, k).Some?
    ensures Rest(p, t, s, i, a) == Rest(Lettered(p, x, k), t + [OnMessageBegin], s, i + k, a)
    decreases k
  {
    hide Micro, Rest, FirstMethod, MethodString, SwitchMethod, Guess, FreshMessage, Stands;
    FreshIsOk(p);
    StandsAt(s, i, x, k - 1);
    GuessedLetter(x, k - 1);
    if k == 1 {
      FirstGuess(x);
      MethodBegins(p, x[0], a);
      Notes(p, Lettered(p, x, 1), OnMessageBegin, t, s, i, a);
    } else {
      GuessKnown(x, k - 1, k);
      ReadLetters(p, t, s, i, a, x, k - 1);
      MethodLetter(Lettered(p, x, k - 1), x, k - 1, a);
      Moves(Lettered(p, x, k - 1), Lettered(p, x, k), t + [OnMessageBegin], s, i + k - 1, a);
    }
  }

  /** Letters that begin no method are an error. */
  lemma {:induction false} NoMethod(p: Parser, t: seq<Event>, s: seq<Byte>, i: nat, a: Settings, x: seq<Byte>, k: nat)
    requires p.state.StartReq? && p.errno.OK? && Stands(s, i, x) && 0 < k <= |x| && Guess(x, k).None?
    requires x[0] != CR && x[0] != LF && ' ' !in x
    ensures !Rest(p, t, s, i, a).p.errno.OK?
    decreases k
  {
    hide Micro, FirstMethod, MethodString, SwitchMethod, Guess, FreshMessage, Stands;
    StandsAt(s, i, x, k - 1);
    if k == 1 {
      FirstGuess(x);
      MethodBegins(p, x[0], a);
    } else if Guess(x, k - 1).None? {
      NoMethod(p, t, s, i, a, x, k - 1);
    } else {
      FreshIsOk(p);
      ReadLetters(p, t, s, i, a, x, k - 1);
      LetterFails(Lettered(p, x, k - 1), x, k - 1, a);
    }
  }

  /** The parser behind the method and its space. */
  function AfterMethod(p: Parser, m: Method): Parser {
    FreshMessage(p).(verb := m, index := |MethodString(m)| + 1, state := ReqSpacesBeforeUrl)
  }

  lemma ReadMethod(p: Parser, t: seq<Event>, s: seq<Byte>, i: nat, a: Settings, m: Method)
    requires p.state.StartReq? && p.errno.OK? && Stands(s, i, MethodString(m) + " ")
    ensures Rest(p, t, s, i, a) == Rest(AfterMethod(p, m), t + [OnMessageBegin], s, i + |MethodString(m)| + 1, a)
  {
    hide Micro, Rest, MethodString, Guess, FreshMessage;
    FreshIsOk(p);
    var x := MethodString(m);
    StandsBoth(s, i, x, " ");
    StandsAt(s, i + |x|, " ", 0);
    ForkInside(m);
    Spelled(m, |x|);
    ReadLetters(p, t, s, i, a, x, |x|);
    MethodEnds(Lettered(p, x, |x|), a);
    Moves(Lettered(p, x, |x|), AfterMethod(p, m), t + [OnMessageBegin], s, i + |x|, a);
  }

  /** A word and a space at the start of a request are read as method m exactly when the word is its name. */
  lemma MethodRead(p: Parser, t: seq<Event>, x: seq<Byte>, a: Settings, m: Method)
    requires p.state.StartReq? && p.errno.OK? && x != [] && x[0] != CR && x[0] != LF && ' ' !in x
    ensures var q := Run(p, t, x + " ", a).p;
      q.errno.OK? && q.state.ReqSpacesBeforeUrl? && q.verb == m <==> x == MethodString(m)
  {
    hide Micro, Rest, MethodString, Guess, FreshMessage;
    var s, n := x + " ", |x|;
    assert Stands(s, 0, s) && Stands(s, 0, x) && s[n] == ' ';
    FreshIsOk(p);
    if x == MethodString(m) {
      ReadMethod(p, t, s, 0, a, m);
      RestEnds(AfterMethod(p, m), t + [OnMessageBegin], s, a);
    } else if Guess(x, n).None? {
      NoMethod(p, t, s, 0, a, x, n);
    } else {
      var v := Guess(x, n).value;
      MethodExactly(x, v);
      GuessSpells(x, n);
      assert x[..n] == x;
      var q := Lettered(p, x, n);
      ReadLetters(p, t, s, 0, a, x, n);
      MethodEnds(q, a);
      if n < |MethodString(v)| {
        FailsAt(q, t + [OnMessageBegin], s, n, a);
      } else {
        Moves(q, AfterMethod(p, v), t + [OnMessageBegin], s, n, a);
        RestEnds(AfterMethod(p, v), t + [OnMessageBegin], s, a);
      }
    }
  }

  lemma FailsAt(p: Parser, t: seq<Event>, s: seq<Byte>, i: nat, a: Settings)
    requires i < |s| && p.errno.OK? && !Micro(p, s[i], a).p.errno.OK?
    ensures !Rest(p, t, s, i, a).p.errno.OK?
  {
    hide Micro;
  }

  lemma FirstGuess(x: seq<Byte>)
    requires x != []
    ensures Guess(x, 1) == FirstMethod(x[0])
  {
  }

  lemma ForkInside(m: Method)
    ensures ForkAt(m) < |MethodString(m)|
  {
  }

  /** What a byte of a URL leads to. */
  predicate InUrl(s: State) {
    UrlEnds(s) || s.ReqSchema? || s.ReqSchemaSlash? || s.ReqSchemaSlashSlash? ||
    s.ReqServerStart?
  }

  lemma UrlLeads(s: State, ch: Byte)
    ensures ParseUrlChar(s, ch).Dead? || (InUrl(ParseUrlChar(s, ch)) && ch != ' ' && ch != CR && ch != LF)
  {
    hide IsUserinfoChar, IsUrlChar, IsAlpha;
  }

  lemma {:induction false} UrlLives(url: seq<Byte>, start: State, k: nat, n: nat)
    requires 0 < k <= n <= |url| && !Walk(url, start, n).Dead?
    ensures InUrl(Walk(url, start, k)) && !Walk(url, start, k).Dead?
    ensures url[k - 1] != ' ' && url[k - 1] != CR && url[k - 1] != LF
    ensures Walk(url, start, k) == ParseUrlChar(Walk(url, start, k - 1), url[k - 1])
    decreases n
  {
    hide ParseUrlChar;
    if k == n {
      UrlLeads(Walk(url, start, n - 1), url[n - 1]);
    } else {
      StillDead(Walk(url, start, n - 1), url[n - 1]);
      UrlLives(url, start, k, n - 1);
    }
  }

  lemma StillDead(s: State, ch: Byte)
    ensures s.Dead? ==> ParseUrlChar(s, ch).Dead?
  {
  }

  lemma UrlBegins(p: Parser, ch: Byte, a: Settings)
    requires p.state.ReqSpacesBeforeUrl? && ch != ' ' && !ParseUrlChar(UrlStart(p.verb), ch).Dead?
    ensures Micro(p, ch, a) == Take(p.(state := ParseUrlChar(UrlStart(p.verb), ch)), Url)
  {
    hide ParseUrlChar;
  }

  lemma UrlGoesOn(p: Parser, ch: Byte, a: Settings)
    requires InUrl(p.state) && ch != ' ' && ch != CR && ch != LF && !ParseUrlChar(p.state, ch).Dead?
    ensures Micro(p, ch, a) == Take(p.(state := ParseUrlChar(p.state, ch)), Url)
  {
    hide ParseUrlChar;
  }

  lemma UrlStops(p: Parser, a: Settings)
    requires UrlEnds(p.state)
    ensures Micro(p, ' ', a) == Move(p.(state := ReqHttpStart))
  {
    hide ParseUrlChar;
  }

  /** The URL and the space after it. */
  lemma ReadUrl(p: Parser, t: seq<Event>, s: seq<Byte>, i: nat, a: Settings, url: seq<Byte>)
    requires p.state.ReqSpacesBeforeUrl? && p.errno.OK? && NotIn(t, Url) && Stands(s, i, url + " ")
    requires url != [] && UrlEnds(Walk(url, UrlStart(p.verb), |url|))
    ensures Rest(p, t, s, i, a) == Rest(p.(state := ReqHttpStart), t + [Data(Url, url)], s, i + |url| + 1, a)
  {
    hide Micro, Rest, Walk, ParseUrlChar, Stands;
    var n, start := |url|, UrlStart(p.verb);
    assert !Walk(url, start, n).Dead?;
    hide UrlEnds, InUrl, UrlStart;
    StandsBoth(s, i, url, " ");
    StandsSlice(s, i, url);
    StandsAt(s, i + n, " ", 0);
    var ps := seq(n + 1, k requires 0 <= k <= n => if k == 0 then p else p.(state := Walk(url, start, k)));
    forall k | 0 <= k < n
      ensures Micro(ps[k], s[i + k], a) == Take(ps[k + 1], Url)
    {
      StandsAt(s, i, url, k);
      UrlLives(url, start, k + 1, n);
      if k == 0 {
        WalkStarts(url, start);
        UrlBegins(p, url[0], a);
      } else {
        UrlLives(url, start, k, n);
        UrlGoesOn(ps[k], url[k], a);
      }
    }
    ManyTake(ps, Url, t, s, i, a);
    NewData(t, Url, url);
    UrlStops(ps[n], a);
    Moves(ps[n], p.(state := ReqHttpStart), t + [Data(Url, url)], s, i + n, a);
  }

  lemma WalkStarts(url: seq<Byte>, start: State)
    ensures Walk(url, start, 0) == start
  {
  }

  lemma VersionStep(p: Parser, ch: Byte, a: Settings)
    requires PhaseOf(p.state).RequestVersion?
    ensures Micro(p, ch, a) == RequestVersionStep(p, ch)
  {
    hide RequestVersionStep;
  }

  /** "HTTP/" in a request. */
  lemma ReadHttp(p: Parser, t: seq<Event>, s: seq<Byte>, i: nat, a: Settings)
    requires p.state.ReqHttpStart? && p.errno.OK? && Stands(s, i, "HTTP/")
    ensures Rest(p, t, s, i, a) == Rest(p.(state := ReqFirstHttpMajor), t, s, i + 5, a)
  {
    hide Micro, Rest;
    var ps := [p, p.(state := ReqHttpH), p.(state := ReqHttpHT), p.(state := ReqHttpHTT), p.(state := ReqHttpHTTP),
        p.(state := ReqFirstHttpMajor)];
    forall k | 0 <= k < 5
      ensures Micro(ps[k], s[i + k], a) == Move(ps[k + 1])
    {
      StandsAt(s, i, "HTTP/", k);
      VersionStep(ps[k], s[i + k], a);
    }
    ManyMove(ps, t, s, i, a);
  }

  /** The state after the first digit of a number. */
  function Counts(s: State): State {
    if s.ReqFirstHttpMajor? then ReqHttpMajor
    else if s.ReqFirstHttpMinor? then ReqHttpMinor
    else if s.ResFirstHttpMajor? then ResHttpMajor
    else if s.ResFirstHttpMinor? then ResHttpMinor
    else if s.ResFirstStatusCode? then ResStatusCode
    else s
  }

  lemma FirstDigit(p: Parser, ch: Byte, a: Settings)
    requires Counts(p.state) != p.state && IsNum(ch) && (p.state.ReqFirstHttpMajor? ==> ch != '0')
    ensures Micro(p, ch, a) == Move(WithNumber(p.(state := Counts(p.state)), DigitValue(ch)))
  {
    hide StartStep, RequestUrlStep, HeaderLineStep, HeaderSpaceStep, HeadersAlmostDoneStep, HeadersDoneStep,
        BodyStep, ChunkStep;
  }

  /** All digits of a number. */
  lemma ReadDigits(p: Parser, t: seq<Event>, s: seq<Byte>, i: nat, a: Settings, d: seq<Byte>)
    requires Counts(p.state) != p.state && p.errno.OK? && SmallNumber(d) && (p.state.ReqFirstHttpMajor? ==> d[0] != '0')
    requires Stands(s, i, d)
    ensures Rest(p, t, s, i, a) == Rest(WithNumber(p.(state := Counts(p.state)), Decimal(d)), t, s, i + |d|, a)
  {
    hide Micro, Rest, Decimal;
    StandsAt(s, i, d, 0);
    StandsRest(s, i, d, 1);
    FirstDigit(p, d[0], a);
    var q := WithNumber(p.(state := Counts(p.state)), DigitValue(d[0]));
    Moves(p, q, t, s, i, a);
    ReadNumber(q, t, s, i + 1, a, d);
  }

  lemma Dot(p: Parser, a: Settings)
    ensures p.state.ReqHttpMajor? ==> Micro(p, '.', a) == Move(p.(state := ReqFirstHttpMinor))
    ensures p.state.ResHttpMajor? ==> Micro(p, '.', a) == Move(p.(state := ResFirstHttpMinor))
  {
    hide StartStep, RequestUrlStep, HeaderLineStep, HeaderSpaceStep, HeadersAlmostDoneStep, HeadersDoneStep,
        BodyStep, ChunkStep;
  }

  /** The first number of a version and the dot. */
  lemma ReadMajor(p: Parser, t: seq<Event>, s: seq<Byte>, i: nat, a: Settings, d: seq<Byte>)
    requires p.errno.OK? && SmallNumber(d) && Stands(s, i, d + ".")
    requires (p.state.ReqFirstHttpMajor? && d[0] != '0') || p.state.ResFirstHttpMajor?
    ensures Rest(p, t, s, i, a) ==
            Rest(p.(state := if p.state.ReqFirstHttpMajor? then ReqFirstHttpMinor else ResFirstHttpMinor,
                    major := Decimal(d)), t, s, i + |d| + 1, a)
  {
    hide Micro, Rest, Decimal, SmallNumber, Stands;
    StandsBoth(s, i, d, ".");
    StandsAt(s, i + |d|, ".", 0);
    ReadDigits(p, t, s, i, a, d);
    var q := p.(state := if p.state.ReqFirstHttpMajor? then ReqHttpMajor else ResHttpMajor, major := Decimal(d));
    Dot(q, a);
    var r := q.(state := if p.state.ReqFirstHttpMajor? then ReqFirstHttpMinor else ResFirstHttpMinor);
    Moves(q, r, t, s, i + |d|, a);
  }

  /** A version: two numbers and the dot. */
  lemma ReadVersion(p: Parser, t: seq<Event>, s: seq<Byte>, i: nat, a: Settings, major: seq<Byte>, minor: seq<Byte>)
    requires p.errno.OK? && SmallNumber(major) && SmallNumber(minor) && Stands(s, i, major + "." + minor)
    requires (p.state.ReqFirstHttpMajor? && major[0] != '0') || p.state.ResFirstHttpMajor?
    ensures Rest(p, t, s, i, a) ==
            Rest(p.(state := if p.state.ReqFirstHttpMajor? then ReqHttpMinor else ResHttpMinor,
                    major := Decimal(major), minor := Decimal(minor)),
                 t, s, i + |major| + 1 + |minor|, a)
  {
    hide Rest, Decimal, SmallNumber, Stands;
    StandsBoth(s, i, major + ".", minor);
    ReadMajor(p, t, s, i, a, major);
    var q := p.(state := if p.state.ReqFirstHttpMajor? then ReqFirstHttpMinor else ResFirstHttpMinor,
        major := Decimal(major));
    ReadDigits(q, t, s, i + |major| + 1, a, minor);
  }

  lemma RequestLineEnd(p: Parser, t: seq<Event>, s: seq<Byte>, i: nat, a: Settings)
    requires p.state.ReqHttpMinor? && p.errno.OK? && Stands(s, i, CRLF)
    ensures Rest(p, t, s, i, a) == Rest(p.(state := HeaderFieldStart), t, s, i + 2, a)
  {
    hide Micro, Rest, Stands;
    StandsAt(s, i, CRLF, 0);
    StandsAt(s, i, CRLF, 1);
    var q := p.(state := ReqLineAlmostDone);
    VersionStep(p, CR, a);
    Moves(p, q, t, s, i, a);
    VersionStep(q, LF, a);
    Moves(q, p.(state := HeaderFieldStart), t, s, i + 1, a);
  }

  /** What the request line leaves. */
  function AfterRequestLine(p: Parser, l: StartLine): Parser
    requires l.RequestLine?
  {
    FreshMessage(p).(verb := l.verb, index := |MethodString(l.verb)| + 1, major := Decimal(l.major),
        minor := Decimal(l.minor),
                     state := HeaderFieldStart)
  }

  lemma RequestText(l: StartLine)
    requires l.RequestLine?
    ensures StartText(l) == (MethodString(l.verb) + " ") + (l.url + " ") + "HTTP/" + (l.major + "." + l.minor) + CRLF
  {
    hide MethodString;
  }

  lemma ReadRequestLine(p: Parser, t: seq<Event>, s: seq<Byte>, i: nat, a: Settings, l: StartLine)
    requires l.RequestLine? && StartOk(l) && p.state.StartReq? && p.errno.OK? && Stands(s, i, StartText(l))
    ensures Rest(p, t, s, i, a) == Rest(AfterRequestLine(p, l), t + StartEvents(l), s, i + |StartText(l)|, a)
  {
    hide Micro, Rest, Decimal, MethodString, Stands, FreshMessage, Walk;
    var x := MethodString(l.verb) + " ";
    var u := l.url + " ";
    var v := l.major + "." + l.minor;
    RequestText(l);
    hide StartText, SmallNumber, CRLF;
    StandsBoth(s, i, x + u + "HTTP/" + v, CRLF);
    StandsBoth(s, i, x + u + "HTTP/", v);
    StandsBoth(s, i, x + u, "HTTP/");
    StandsBoth(s, i, x, u);
    ReadMethod(p, t, s, i, a, l.verb);
    FreshIsOk(p);
    var q1, t1 := AfterMethod(p, l.verb), t + [OnMessageBegin];
    ReadUrl(q1, t1, s, i + |x|, a, l.url);
    var q2, t2 := q1.(state := ReqHttpStart), t1 + [Data(Url, l.url)];
    ReadHttp(q2, t2, s, i + |x| + |u|, a);
    var q3 := q2.(state := ReqFirstHttpMajor);
    ReadVersion(q3, t2, s, i + |x| + |u| + 5, a, l.major, l.minor);
    var q4 := q3.(state := ReqHttpMinor, major := Decimal(l.major), minor := Decimal(l.minor));
    RequestLineEnd(q4, t2, s, i + |x| + |u| + 5 + |v|, a);
    assert t2 == t + StartEvents(l);
  }

  // The status line.

  lemma ResponseStart(p: Parser, a: Settings)
    requires p.state.StartRes?
    ensures Micro(p, 'H', a) == Outcome(FreshMessage(p).(state := ResH), None, [OnMessageBegin], Advance)
  {
  }

  lemma ResponseVersionIs(p: Parser, ch: Byte, a: Settings)
    requires PhaseOf(p.state).ResponseVersion?
    ensures Micro(p, ch, a) == ResponseVersionStep(p, ch)
  {
    hide ResponseVersionStep;
  }

  lemma StatusIs(p: Parser, ch: Byte, a: Settings)
    requires PhaseOf(p.state).ResponseStatus?
    ensures Micro(p, ch, a) == ResponseStatusStep(p, ch)
  {
    hide ResponseStatusStep;
  }

  /** "HTTP/" in a response. */
  lemma ReadResponseHttp(p: Parser, t: seq<Event>, s: seq<Byte>, i: nat, a: Settings)
    requires p.state.StartRes? && p.errno.OK? && Stands(s, i, "HTTP/")
    ensures Rest(p, t, s, i, a) == Rest(FreshMessage(p).(state := ResFirstHttpMajor), t + [OnMessageBegin], s, i + 5, a)
  {
    hide Micro, Rest, FreshMessage;
    var q := FreshMessage(p);
    assert q.errno.OK? by {
      FreshIsOk(p);
    }
    var ps := [q.(state := ResH), q.(state := ResHT), q.(state := ResHTT), q.(state := ResHTTP),
        q.(state := ResFirstHttpMajor)];
    StandsAt(s, i, "HTTP/", 0);
    ResponseStart(p, a);
    Notes(p, ps[0], OnMessageBegin, t, s, i, a);
    assert Emit(t, OnMessageBegin) == t + [OnMessageBegin];
    forall k | 0 <= k < 4
      ensures Micro(ps[k], s[i + 1 + k], a) == Move(ps[k + 1])
    {
      StandsAt(s, i, "HTTP/", k + 1);
      ResponseVersionIs(ps[k], s[i + 1 + k], a);
    }
    ManyMove(ps, t + [OnMessageBegin], s, i + 1, a);
  }

  lemma FreshIsOk(p: Parser)
    ensures FreshMessage(p).errno == p.errno
  {
  }

  lemma StatusSpaces(p: Parser, a: Settings)
    ensures p.state.ResHttpMinor? ==> Micro(p, ' ', a) == Move(p.(state := ResFirstStatusCode))
    ensures p.state.ResStatusCode? ==> Micro(p, ' ', a) == Move(p.(state := ResStatusStart))
  {
    hide Micro;
    if p.state.ResHttpMinor? {
      ResponseVersionIs(p, ' ', a);
    } else if p.state.ResStatusCode? {
      StatusIs(p, ' ', a);
    }
  }

  /** The status and the spaces around it. */
  lemma ReadStatus(p: Parser, t: seq<Event>, s: seq<Byte>, i: nat, a: Settings, d: seq<Byte>)
    requires p.state.ResHttpMinor? && p.errno.OK? && SmallNumber(d) && Stands(s, i, " " + d + " ")
    ensures Rest(p, t, s, i, a) == Rest(p.(state := ResStatusStart, status := Decimal(d)), t, s, i + |d| + 2, a)
  {
    hide Micro, Rest, Decimal, SmallNumber, Stands;
    StandsBoth(s, i, " " + d, " ");
    StandsBoth(s, i, " ", d);
    StandsAt(s, i, " ", 0);
    StandsAt(s, i + 1 + |d|, " ", 0);
    var q := p.(state := ResFirstStatusCode);
    StatusSpaces(p, a);
    Moves(p, q, t, s, i, a);
    ReadDigits(q, t, s, i + 1, a, d);
    var r := q.(state := ResStatusCode, status := Decimal(d));
    StatusSpaces(r, a);
    Moves(r, r.(state := ResStatusStart), t, s, i + 1 + |d|, a);
  }

  function AfterReason(p: Parser, reason: seq<Byte>): Parser {
    if reason == [] then p
    else p.(state := ResStatus, index := 0)
  }

  lemma ReadReason(p: Parser, t: seq<Event>, s: seq<Byte>, i: nat, a: Settings, reason: seq<Byte>)
    requires p.state.ResStatusStart? && p.errno.OK? && NotIn(t, Status) && OneLine(reason) && Stands(s, i, reason)
    ensures Rest(p, t, s, i, a) == Rest(AfterReason(p, reason), t + DataEvent(Status, reason), s, i + |reason|, a)
  {
    hide Micro, Rest;
    assert t + [] == t;
    if reason != [] {
      var ps := seq(|reason| + 1, k requires 0 <= k <= |reason| => if k == 0 then p
          else p.(state := ResStatus, index := 0));
      forall k | 0 <= k < |reason|
        ensures Micro(ps[k], s[i + k], a) == Take(ps[k + 1], Status)
      {
        StandsAt(s, i, reason, k);
        StatusIs(ps[k], s[i + k], a);
      }
      ManyTake(ps, Status, t, s, i, a);
      NewData(t, Status, reason);
    }
  }

  lemma StatusLineEnd(p: Parser, t: seq<Event>, s: seq<Byte>, i: nat, a: Settings)
    requires (p.state.ResStatusStart? || p.state.ResStatus?) && p.errno.OK? && Stands(s, i, CRLF)
    ensures Rest(p, t, s, i, a) == Rest(p.(state := HeaderFieldStart), t, s, i + 2, a)
  {
    hide Micro, Rest;
    StandsAt(s, i, CRLF, 0);
    StandsAt(s, i, CRLF, 1);
    var q := p.(state := ResLineAlmostDone);
    StatusIs(p, CR, a);
    Moves(p, q, t, s, i, a);
    StatusIs(q, LF, a);
    Moves(q, p.(state := HeaderFieldStart), t, s, i + 1, a);
  }

  function AfterStatusLine(p: Parser, l: StartLine): Parser
    requires l.StatusLine?
  {
    var q := FreshMessage(p).(major := Decimal(l.major), minor := Decimal(l.minor), status := Decimal(l.status));
    AfterReason(q, l.reason).(state := HeaderFieldStart)
  }

  lemma StatusText(l: StartLine)
    requires l.StatusLine?
    ensures StartText(l) == "HTTP/" + (l.major + "." + l.minor) + (" " + l.status + " ") + (l.reason + CRLF)
  {
  }

  /** The version and the status. */
  lemma ReadStatusStart(p: Parser, t: seq<Event>, s: seq<Byte>, i: nat, a: Settings, l: StartLine)
    requires l.StatusLine? && SmallNumber(l.major) && SmallNumber(l.minor) && SmallNumber(l.status)
    requires p.state.StartRes? && p.errno.OK?
    requires Stands(s, i, "HTTP/" + (l.major + "." + l.minor) + (" " + l.status + " "))
    ensures Rest(p, t, s, i, a) ==
            Rest(FreshMessage(p).(state := ResStatusStart, major := Decimal(l.major), minor := Decimal(l.minor),
                     status := Decimal(l.status)),
                 t + [OnMessageBegin], s, i + |l.major| + |l.minor| + |l.status| + 8, a)
  {
    hide Micro, Rest, Decimal, Stands, FreshMessage, SmallNumber;
    var v := l.major + "." + l.minor;
    var w := " " + l.status + " ";
    StandsBoth(s, i, "HTTP/" + v, w);
    StandsBoth(s, i, "HTTP/", v);
    FreshIsOk(p);
    ReadResponseHttp(p, t, s, i, a);
    var q1, u := FreshMessage(p).(state := ResFirstHttpMajor), t + [OnMessageBegin];
    ReadVersion(q1, u, s, i + 5, a, l.major, l.minor);
    var q2 := q1.(state := ResHttpMinor, major := Decimal(l.major), minor := Decimal(l.minor));
    ReadStatus(q2, u, s, i + 5 + |v|, a, l.status);
  }

  /** The reason and the line end. */
  lemma ReadStatusEnd(p: Parser, t: seq<Event>, s: seq<Byte>, i: nat, a: Settings, reason: seq<Byte>)
    requires p.state.ResStatusStart? && p.errno.OK? && NotIn(t, Status) && OneLine(reason)
    requires Stands(s, i, reason + CRLF)
    ensures Rest(p, t, s, i, a) ==
            Rest(AfterReason(p, reason).(state := HeaderFieldStart), t + DataEvent(Status, reason), s,
                 i + |reason| + 2, a)
  {
    hide Rest, Stands, OneLine, DataEvent;
    StandsBoth(s, i, reason, CRLF);
    ReadReason(p, t, s, i, a, reason);
    StatusLineEnd(AfterReason(p, reason), t + DataEvent(Status, reason), s, i + |reason|, a);
  }

  lemma ReadStatusLine(p: Parser, t: seq<Event>, s: seq<Byte>, i: nat, a: Settings, l: StartLine)
    requires l.StatusLine? && StartOk(l) && p.state.StartRes? && p.errno.OK? && Stands(s, i, StartText(l))
    ensures Rest(p, t, s, i, a) == Rest(AfterStatusLine(p, l), t + StartEvents(l), s, i + |StartText(l)|, a)
  {
    hide Rest, Stands, Decimal, FreshMessage, SmallNumber, OneLine;
    StatusText(l);
    var x, y := "HTTP/" + (l.major + "." + l.minor) + (" " + l.status + " "), l.reason + CRLF;
    assert |x| == |l.major| + |l.minor| + |l.status| + 8 && |y| == |l.reason| + 2;
    hide StartText, CRLF;
    StandsBoth(s, i, x, y);
    ReadStatusStart(p, t, s, i, a, l);
    FreshIsOk(p);
    var q := FreshMessage(p).(state := ResStatusStart, major := Decimal(l.major), minor := Decimal(l.minor),
        status := Decimal(l.status));
    assert NotIn(t + [OnMessageBegin], Status);
    ReadStatusEnd(q, t + [OnMessageBegin], s, i + |x|, a, l.reason);
    AfterStatus(p, t, l);
  }

  lemma AfterStatus(p: Parser, t: seq<Event>, l: StartLine)
    requires l.StatusLine?
    ensures var q := FreshMessage(p).(state := ResStatusStart, major := Decimal(l.major), minor := Decimal(l.minor),
        status := Decimal(l.status)); AfterReason(q, l.reason).(state := HeaderFieldStart) == AfterStatusLine(p, l)
    ensures t + [OnMessageBegin] + DataEvent(Status, l.reason) == t + StartEvents(l)
  {
    hide Decimal, FreshMessage, DataEvent;
    assert t + [OnMessageBegin] + DataEvent(Status, l.reason) == t + ([OnMessageBegin] + DataEvent(Status, l.reason));
  }
}
