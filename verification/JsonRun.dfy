/** Runs of the builder over fragments, and what stays true on the way. */
module JsonRun {
  import opened Options
  import opened Pieces
  import opened JsonTree
  import opened JsonLexer
  import opened JsonGrammar
  import opened JsonBuilder

  /** States 1 and 7: a new node below the cursor, or the root. */
  function OpenNode(m: Builder): Builder
    requires Opening(m.state)
  {
    if m.state == 1 then m.(state := 2, path := Opened(m.path, OBJECT, []))
    else m.(state := 8, path := Opened(m.path, ARRAY, []))
  }

  /** How a run over a fragment ends: the builder, and the code of the failure if there was one. */
  datatype Ended = Ended(m: Builder, failure: Option<Code>)

  /** The code of a call. A call that ends before the root object has begun is malformed, unless it was empty. */
  function CodeOf(e: Ended, s: Text): Code {
    if e.failure.Some? then e.failure.value
    else if e.m.state == 99 then WAITING_FOR_EOF
    else if e.m.state == 0 && s != [] then MALFORMED_DOCUMENT
    else INCOMPLETE_DOCUMENT
  }

  predicate Ready(m: Builder) {
    LexerOk(m.lex) && (m.state != 0 && m.state != 1 && m.state != 7 ==> m.path != [])
  }

  /** One look at the byte c: a node opened, a byte lexed, or a token acted on. */
  datatype Look = Look(r: Reaction, take: bool)

  function LookAt(m: Builder, c: Char): Look
    requires Ready(m)
  {
    if Opening(m.state) then Look(Next(OpenNode(m)), false)
    else
      var k := Switch(m.lex.state, c);
      var m' := m.(lex := Lexed(m.lex, c));
      SwitchOk(m.lex.state, c);
      if k.token == MORE then Look(Next(m'), true)
      else Look(React(m', k.token), k.take)
  }

  lemma ReactReady(m: Builder, token: Token)
    requires !Opening(m.state) && Ready(m)
    requires token == TOKEN_STRING || token == TOKEN_NUMBER ==> m.lex.text.Some?
    requires UsesText(m.lex.state) ==> token == INVALID_CHARACTER
    ensures React(m, token).Next? ==> Ready(React(m, token).m)
  {
  }

  lemma LookReady(m: Builder, c: Char)
    requires Ready(m)
    ensures LookAt(m, c).r.Next? ==> Ready(LookAt(m, c).r.m)
  {
    if !Opening(m.state) {
      SwitchOk(m.lex.state, c);
      var k := Switch(m.lex.state, c);
      hide Switch;
      if k.token != MORE {
        ReactReady(m.(lex := Lexed(m.lex, c)), k.token);
      }
    }
  }

  function Rank(m: Builder): nat { (if Opening(m.state) then 1 else 0) + (if m.lex.state != 0 then 2 else 0) }

  /** Looking without taking makes the state simpler. */
  lemma LookProgress(m: Builder, c: Char)
    requires Ready(m)
    ensures var k := LookAt(m, c); k.r.Next? && !k.take ==> Rank(k.r.m) < Rank(m)
  {
    if !Opening(m.state) {
      SwitchOk(m.lex.state, c);
      var k := Switch(m.lex.state, c);
      hide Switch;
      if k.token == INVALID_CHARACTER {
        assert React(m.(lex := Lexed(m.lex, c)), k.token).Fail?;
      }
    }
  }

  /** The rest of a call on s, from position i on. */
  function Rest(m: Builder, s: Text, i: nat): Ended
    requires i <= |s| && Ready(m)
    decreases |s| - i, Rank(m)
  {
    if i == |s| then Ended(m, None)
    else
      LookReady(m, s[i]);
      LookProgress(m, s[i]);
      var k := LookAt(m, s[i]);
      if k.r.Fail? then Ended(m.(lex := Lexed(m.lex, s[i])), Some(k.r.code))
      else Rest(k.r.m, s, if k.take then i + 1 else i)
  }

  /** json_parse_fragment. */
  function Fragment(m: Builder, s: Text): Ended
    requires Ready(m)
  {
    Rest(m, s, 0)
  }

  function FragmentCode(m: Builder, s: Text): Code
    requires Ready(m)
  {
    CodeOf(Fragment(m, s), s)
  }

  /** A run over a + b is the run over a, then the run over b, unless it fails in a. */
  lemma {:induction false} RestSplits(m: Builder, a: Text, b: Text, i: nat)
    requires i <= |a| && Ready(m)
    ensures
      var r := Rest(m, a, i);
      if r.failure.Some? then Rest(m, a + b, i) == r
      else Ready(r.m) && Rest(m, a + b, i) == Rest(r.m, a + b, |a|)
    decreases |a| - i, Rank(m)
  {
    hide LookAt, Ready;
    if i < |a| {
      assert (a + b)[i] == a[i];
      LookReady(m, a[i]);
      LookProgress(m, a[i]);
      var k := LookAt(m, a[i]);
      if k.r.Next? {
        RestSplits(k.r.m, a, b, if k.take then i + 1 else i);
      }
    }
  }

  /** A run depends on the bytes ahead only. */
  lemma {:induction false} RestShifts(m: Builder, a: Text, b: Text, i: nat)
    requires i <= |b| && Ready(m)
    ensures Rest(m, a + b, |a| + i) == Rest(m, b, i)
    decreases |b| - i, Rank(m)
  {
    hide LookAt, Ready;
    if i < |b| {
      assert (a + b)[|a| + i] == b[i];
      LookReady(m, b[i]);
      LookProgress(m, b[i]);
      var k := LookAt(m, b[i]);
      if k.r.Next? {
        RestShifts(k.r.m, a, b, if k.take then i + 1 else i);
      }
    }
  }

  /** A failure never looks like going on. */
  lemma {:induction false} FailureCode(m: Builder, s: Text, i: nat)
    requires i <= |s| && Ready(m)
    ensures var f := Rest(m, s, i).failure; f.Some? ==> !GoesOn(f.value)
    decreases |s| - i, Rank(m)
  {
    if i < |s| {
      LookReady(m, s[i]);
      LookProgress(m, s[i]);
      var k := LookAt(m, s[i]);
      LookFailure(m, s[i]);
      hide LookAt, Ready;
      if k.r.Next? {
        FailureCode(k.r.m, s, if k.take then i + 1 else i);
      }
    }
  }

  lemma LookFailure(m: Builder, c: Char)
    requires Ready(m)
    ensures var k := LookAt(m, c); k.r.Fail? ==> !GoesOn(k.r.code)
    ensures var k := LookAt(m, c); k.r.Fail? && m.state == 0 ==> k.r.code == MALFORMED_DOCUMENT
  {
    hide Switch;
  }

  predicate Blank(s: Text) { forall i :: 0 <= i < |s| ==> IsBlank(s[i]) }

  /** Before the root object, a token that has begun can only end badly. */
  lemma {:induction false} CutStart(m: Builder, s: Text, i: nat)
    requires i <= |s| && Ready(m) && m.state == 0 && m.lex.state != 0
    ensures Rest(m, s, i).m.state == 0
    decreases |s| - i
  {
    if i < |s| {
      LookReady(m, s[i]);
      var k := Switch(m.lex.state, s[i]);
      assert k.token != BEGIN_OBJECT && (k.token == MORE ==> k.next != 0 && k.take);
      hide Switch, Ready;
      if k.token == MORE {
        var m' := m.(lex := Lexed(m.lex, s[i]));
        assert LookAt(m, s[i]) == Look(Next(m'), true);
        CutStart(m', s, i + 1);
      }
    }
  }

  lemma {:induction false} BlankStart(m: Builder, s: Text, i: nat)
    requires i <= |s| && Ready(m) && m.state == 0 && m.lex.state == 0
    ensures var r := Rest(m, s, i);
            r.failure.None? && r.m.state == 0 && r.m.lex.state == 0 <==> Blank(s[i..])
    decreases |s| - i
  {
    if i < |s| {
      LookReady(m, s[i]);
      assert s[i..] == [s[i]] + s[i + 1..];
      var k := Between(s[i]);
      var l := Lexed(m.lex, s[i]);
      var m' := m.(lex := l);
      if IsBlank(s[i]) {
        assert LookAt(m, s[i]) == Look(Next(m'), true);
        BlankStart(m', s, i + 1);
      } else if k.token == BEGIN_OBJECT {
        StaysStarted(m'.(state := 1), s, i + 1);
      } else if k.token == MORE {
        StaysCut(m', s, i + 1);
      }
    }
  }

  /** The parser never returns to its start. */
  lemma {:induction false} StaysStarted(m: Builder, s: Text, i: nat)
    requires i <= |s| && Ready(m) && m.state != 0
    ensures Rest(m, s, i).m.state != 0
    decreases |s| - i, Rank(m)
  {
    if i < |s| {
      LookReady(m, s[i]);
      LookProgress(m, s[i]);
      var k := LookAt(m, s[i]);
      assert k.r.Next? ==> k.r.m.state != 0 by {
        hide Switch;
      }
      hide LookAt, Ready;
      if k.r.Next? {
        StaysStarted(k.r.m, s, if k.take then i + 1 else i);
      }
    }
  }

  lemma {:induction false} StaysCut(m: Builder, s: Text, i: nat)
    requires i <= |s| && Ready(m) && m.state == 0 && m.lex.state != 0
    ensures var r := Rest(m, s, i); r.failure.None? ==> r.m.lex.state != 0
    decreases |s| - i
  {
    if i < |s| {
      LookReady(m, s[i]);
      var k := Switch(m.lex.state, s[i]);
      assert k.token != BEGIN_OBJECT && (k.token == MORE ==> k.next != 0 && k.take);
      hide Switch, Ready;
      if k.token == MORE {
        var m' := m.(lex := Lexed(m.lex, s[i]));
        assert LookAt(m, s[i]) == Look(Next(m'), true);
        StaysCut(m', s, i + 1);
      }
    }
  }

  /**
   Two fragments are one, for every cut: the same builder, with its lexer, line and tree, and
   the same code, whenever the first call goes on.
   */
  lemma FragmentInvariance(m: Builder, a: Text, b: Text)
    requires Ready(m)
    ensures
      GoesOn(FragmentCode(m, a)) ==>
        var m' := Fragment(m, a).m;
        Ready(m') && Fragment(m, a + b) == Fragment(m', b) && FragmentCode(m, a + b) == FragmentCode(m', b)
  {
    RestSplits(m, a, b, 0);
    FailureCode(m, a, 0);
    var r := Rest(m, a, 0);
    if GoesOn(FragmentCode(m, a)) {
      RestShifts(r.m, a, b, 0);
      if m.state == 0 && r.m.state == 0 {
        assert a == [];
        assert a + b == b;
      } else if r.m.state != 0 {
        StaysStarted(r.m, b, 0);
      }
    }
  }

  /** A first call that does not go on settles the code of every longer call, unless it was a blank start. */
  lemma FailureInvariance(m: Builder, a: Text, b: Text)
    requires Ready(m)
    ensures
      var r := Fragment(m, a);
      && (r.failure.Some? ==> Fragment(m, a + b) == r)
      && (r.failure.None? ==> Ready(r.m) && Fragment(m, a + b) == Fragment(r.m, b))
      && (!GoesOn(FragmentCode(m, a)) && !(m.state == 0 && m.lex.state == 0 && Blank(a)) ==>
          FragmentCode(m, a + b) == FragmentCode(m, a))
  {
    RestSplits(m, a, b, 0);
    var r := Rest(m, a, 0);
    if r.failure.None? {
      RestShifts(r.m, a, b, 0);
    }
    if r.failure.None? && r.m.state == 0 && a != [] {
      if m.state != 0 {
        StaysStarted(m, a, 0);
      } else if m.lex.state == 0 {
        BlankStart(m, a, 0);
        assert a[0..] == a;
      } else {
        StaysCut(m, a, 0);
      }
      if r.m.lex.state != 0 {
        CutStart(r.m, a + b, |a|);
        CutCode(r.m, a + b, |a|);
      }
    }
  }

  lemma {:induction false} CutCode(m: Builder, s: Text, i: nat)
    requires i <= |s| && Ready(m) && m.state == 0 && m.lex.state != 0
    ensures var f := Rest(m, s, i).failure; f.Some? ==> f.value == MALFORMED_DOCUMENT
    decreases |s| - i
  {
    if i < |s| {
      LookReady(m, s[i]);
      LookFailure(m, s[i]);
      var k := Switch(m.lex.state, s[i]);
      assert k.token != BEGIN_OBJECT && (k.token == MORE ==> k.next != 0 && k.take);
      hide Switch, Ready;
      if k.token == MORE {
        var m' := m.(lex := Lexed(m.lex, s[i]));
        assert LookAt(m, s[i]) == Look(Next(m'), true);
        CutCode(m', s, i + 1);
      }
    }
  }

  /** A call that does not go on settles the code of every longer call if and only if it was no blank start. */
  lemma SettledExactly(m: Builder, a: Text)
    requires Ready(m) && !GoesOn(FragmentCode(m, a))
    ensures (forall b :: FragmentCode(m, a + b) == FragmentCode(m, a)) <==>
      !(m.state == 0 && m.lex.state == 0 && Blank(a))
  {
    if m.state == 0 && m.lex.state == 0 && Blank(a) {
      assert a[0..] == a;
      BlankStart(m, a, 0);
      FailureInvariance(m, a, "{");
      ObjectBegins(Fragment(m, a).m);
      assert FragmentCode(m, a + "{") != FragmentCode(m, a);
    } else {
      forall b
        ensures FragmentCode(m, a + b) == FragmentCode(m, a)
      {
        FailureInvariance(m, a, b);
      }
    }
  }

  lemma ObjectBegins(m: Builder)
    requires Ready(m) && m.state == 0 && m.lex.state == 0
    ensures Fragment(m, "{").failure.None? && Fragment(m, "{").m.state == 1
  {
    var s: Text := "{";
    var m' := m.(state := 1);
    assert LookAt(m, s[0]) == Look(Next(m'), true);
    assert Rest(m, s, 0) == Rest(m', s, 1) == Ended(m', None);
  }

  /** The exception: a blank first fragment is refused although the whole may be a document. */
  lemma BlankFirstFragment()
    ensures Ready(START)
    ensures FragmentCode(START, " ") == MALFORMED_DOCUMENT
    ensures FragmentCode(START, " {}") == WAITING_FOR_EOF
  {
    var s: Text := " {}";
    assert Rest(START, " ", 0) == Ended(START, None);
    var m1 := START.(state := 1);
    var m2 := OpenNode(m1);
    assert LookAt(START, s[1]) == Look(Next(m1), true);
    assert LookAt(m2, s[2]) == Look(Next(m2.(state := 99)), true);
    calc {
      Rest(START, s, 0);
      Rest(START, s, 1);
      Rest(m1, s, 2);
      Rest(m2, s, 2);
      Rest(m2.(state := 99), s, 3);
      Ended(m2.(state := 99), None);
    }
  }

  /** Calls on one piece after the other, as long as they go on. */
  function FragmentAll(m: Builder, pieces: seq<Text>): Ended
    requires Ready(m)
    decreases |pieces|
  {
    if pieces == [] then Ended(m, None)
    else
      var r := Fragment(m, pieces[0]);
      if r.failure.Some? then r
      else
        RestSplits(m, pieces[0], [], 0);
        FragmentAll(r.m, pieces[1..])
  }

  /** However a text is cut, the calls do what one call does. */
  lemma {:induction false} PiecesInvariance(m: Builder, pieces: seq<Text>)
    requires Ready(m)
    ensures FragmentAll(m, pieces) == Fragment(m, Flatten(pieces))
    decreases |pieces|
  {
    if pieces != [] {
      var r := Fragment(m, pieces[0]);
      FlattenFirst(pieces);
      FailureInvariance(m, pieces[0], Flatten(pieces[1..]));
      if r.failure.None? {
        PiecesInvariance(r.m, pieces[1..]);
      }
    }
  }

  /** json_parse_document: the tree, if the whole text is one call that ends in state 99. */
  function Document(s: Text): Option<Tree> {
    if FragmentCode(START, s) == WAITING_FOR_EOF && Fragment(START, s).m.path != []
    then Some(Fragment(START, s).m.path[0]) else None
  }
}
