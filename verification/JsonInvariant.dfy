/** The builder invariant over all runs: the state number fixes the path, and the partial tree is well formed. */
module JsonInvariant {
  import opened Options
  import opened JsonTree
  import opened JsonLexer
  import opened JsonGrammar
  import opened JsonBuilder
  import opened JsonRun

  lemma OpenedOk(path: seq<Tree>, kind: Kind, text: Text)
    requires PathOk(path) && Open(Leaf(kind, text))
    requires if path == [] then kind == OBJECT else Holds(Last(path), Leaf(kind, text))
    ensures PathOk(Opened(path, kind, text))
  {
    hide LabelOk, ValueOk, Open, StringBody;
  }

  lemma WithKidOk(path: seq<Tree>, t: Tree)
    requires PathOk(path) && path != []
    requires if Last(path).kind == OBJECT then LabelOk(t) else Last(path).kind == ARRAY && ValueOk(t)
    ensures PathOk(WithKid(path, t)) && Last(WithKid(path, t)).kind == Last(path).kind &&
        Last(WithKid(path, t)).kids != []
  {
    hide LabelOk, ValueOk, StringBody;
    var q := WithKid(path, t);
    assert Open(Last(path));
    assert Open(Last(q));
    hide Open;
  }

  /** The open array or object at the cursor is a value as it stands. */
  lemma OpenIsValue(t: Tree)
    requires Open(t) && t.kind != STRING
    ensures ValueOk(t)
  {
  }

  lemma PrefixOk(path: seq<Tree>, n: nat)
    requires PathOk(path) && n <= |path|
    ensures PathOk(path[..n])
  {
    hide Open;
  }

  /** A finished value goes into the array above. */
  lemma IntoArray(path: seq<Tree>)
    requires PathOk(path) && |path| >= 2 && Last(path).kind != STRING && path[|path| - 2].kind == ARRAY
    ensures PathOk(Up(path)) && Last(Up(path)).kind == ARRAY && Last(Up(path)).kids != []
  {
    hide LabelOk, ValueOk, StringBody;
    PrefixOk(path, |path| - 1);
    OpenIsValue(Last(path));
    WithKidOk(path[..|path| - 1], Last(path));
    hide Open;
  }

  /** A finished value makes its label a finished pair of the object above. */
  lemma IntoLabel(path: seq<Tree>, t: Tree)
    requires PathOk(path) && |path| >= 2 && Last(path).kind == STRING && ValueOk(t)
    ensures var p := Up(WithKid(path, t)); PathOk(p) && Last(p).kind == OBJECT && Last(p).kids != []
  {
    hide ValueOk, StringBody, Open;
    var n := |path|;
    PrefixOk(path, n - 1);
    var pair := Last(path).(kids := Last(path).kids + [t]);
    assert Open(Last(path));
    assert LabelOk(pair) by {
      LabelCloses(Last(path), t);
    }
    hide LabelOk;
    assert Holds(path[n - 2], path[n - 2 + 1]);
    assert WithKid(path, t)[..n - 1] == path[..n - 1];
    WithKidOk(path[..n - 1], pair);
  }

  lemma LabelCloses(open: Tree, t: Tree)
    requires Open(open) && open.kind == STRING && ValueOk(t)
    ensures LabelOk(open.(kids := open.kids + [t]))
  {
    assert open.kids + [t] == [t];
  }

  lemma ClosedKeeps(m: Builder)
    requires BuilderOk(m) && (m.state == 2 || m.state == 3 || m.state == 8 || m.state == 9) && m.lex.state == 0
    ensures Closed(m).Next? && BuilderOk(Closed(m).m)
  {
    hide Open, LabelOk, ValueOk, StringText, Collect, StringBody;
    var n := |m.path|;
    if n > 1 {
      assert Holds(m.path[n - 2], m.path[n - 2 + 1]);
      if m.path[n - 2].kind == STRING {
        if n == 2 {
          assert false;
        }
        assert Open(Last(m.path));
        OpenIsValue(Last(m.path));
        PrefixOk(m.path, n - 1);
        IntoLabel(m.path[..n - 1], Last(m.path));
      } else {
        IntoArray(m.path);
      }
    }
  }

  lemma LabelKeeps(m: Builder)
    requires BuilderOk(m) && (m.state == 2 || m.state == 4) && m.lex.state == 0 && m.lex.text.Some? &&
        StringBody(m.lex.text.value)
    ensures Label(m).Next? && BuilderOk(Label(m).m)
  {
    OpenedOk(m.path, STRING, m.lex.text.value);
    hide Open, LabelOk, ValueOk, StringText, Collect, StringBody;
  }

  lemma PutKeeps(m: Builder, kind: Kind)
    requires BuilderOk(m) && (m.state == 6 || m.state == 8) && m.lex.state == 0
    requires HasText(kind) ==> m.lex.text.Some?
    requires ValueOk(LeafOf(m, kind))
    ensures Put(m, kind).Next? && BuilderOk(Put(m, kind).m)
  {
    hide Open, LabelOk, ValueOk, StringText, Collect, StringBody;
    var t := LeafOf(m, kind);
    if m.state == 6 {
      IntoLabel(m.path, t);
    } else {
      WithKidOk(m.path, t);
    }
  }

  lemma ReactKeeps(m: Builder, token: Token)
    requires BuilderOk(m) && !Opening(m.state) && token != MORE
    requires token == INVALID_CHARACTER || m.lex.state == 0
    requires token == TOKEN_STRING ==> m.lex.text.Some? && StringBody(m.lex.text.value)
    requires token == TOKEN_NUMBER ==> m.lex.text.Some? && NumberBody(m.lex.text.value)
    ensures var r := React(m, token);
            if r.Next? then BuilderOk(r.m) else r.code == MALFORMED_DOCUMENT || r.code == ILLEGAL_CHARACTER
  {
    hide PathOk, LabelOk, StringText, Collect, StringBody, NumberBody, Closed, Label, Put;
    match ActionOf(m.state, token)
    case Enter(state) =>
    case OpenLabel => LabelKeeps(m);
    case PutLeaf(kind) => PutKeeps(m, kind);
    case CloseNode => ClosedKeeps(m);
    case Refuse(code) =>
  }

  lemma OpenNodeKeeps(m: Builder)
    requires BuilderOk(m) && Opening(m.state)
    ensures BuilderOk(OpenNode(m))
  {
    OpenedOk(m.path, if m.state == 1 then OBJECT else ARRAY, []);
    hide Open, LabelOk, ValueOk, StringText, Collect, StringBody;
  }

  lemma LookKeeps(m: Builder, c: Char)
    requires BuilderOk(m)
    ensures Ready(m)
    ensures var r := LookAt(m, c).r;
            if r.Next? then BuilderOk(r.m)
            else BuilderOk(m.(lex := Lexed(m.lex, c))) && (r.code == MALFORMED_DOCUMENT || r.code == ILLEGAL_CHARACTER)
  {
    hide PathOk, LabelOk, ValueOk, StringText, Collect, StringBody, NumberBody, React, Opened;
    if Opening(m.state) {
      OpenNodeKeeps(m);
      LexedTextOk(m.lex, c);
      BlankOnly(m, c);
    } else {
      LexedTextOk(m.lex, c);
      SwitchOk(m.lex.state, c);
      var k := Switch(m.lex.state, c);
      hide Switch;
      var m' := m.(lex := Lexed(m.lex, c));
      if k.token != MORE {
        ReactKeeps(m', k.token);
      }
    }
  }

  lemma BlankOnly(m: Builder, c: Char)
    requires Ready(m) && Opening(m.state)
    ensures LookAt(m, c).r.Next?
  {
  }

  /** Over any fragment the invariant is kept, and a failure is one of two codes. */
  lemma {:induction false} RestKeeps(m: Builder, s: Text, i: nat)
    requires i <= |s| && BuilderOk(m)
    ensures Ready(m) && BuilderOk(Rest(m, s, i).m)
    ensures var f := Rest(m, s, i).failure; f.Some? ==> f.value == MALFORMED_DOCUMENT || f.value == ILLEGAL_CHARACTER
    decreases |s| - i, Rank(m)
  {
    if i < |s| {
      LookKeeps(m, s[i]);
      LookReady(m, s[i]);
      LookProgress(m, s[i]);
      var k := LookAt(m, s[i]);
      hide LookAt, BuilderOk, Ready;
      if k.r.Next? {
        RestKeeps(k.r.m, s, if k.take then i + 1 else i);
      }
    } else {
      assert Ready(m);
    }
  }

  /** The lexer's loop inside the parser's: up to the next token nothing but the lexer moves. */
  lemma {:induction false} RestByToken(m: Builder, s: Text, i: nat)
    requires i <= |s| && BuilderOk(m) && !Opening(m.state)
    ensures
      var k := LexFrom(m.lex, s, i);
      var m' := m.(lex := k.l);
      && Ready(m) && BuilderOk(m')
      && (k.token == MORE ==> Rest(m, s, i) == Ended(m', None))
      && (k.token == TOKEN_STRING || k.token == TOKEN_NUMBER ==> m'.lex.text.Some?)
      && (k.token != MORE ==>
            var r := React(m', k.token);
            if r.Fail? then
              && Rest(m, s, i) == Ended(m', Some(r.code))
              && (r.code == MALFORMED_DOCUMENT || r.code == ILLEGAL_CHARACTER)
            else
              && BuilderOk(r.m) && Ready(r.m) && r.m.state != 0 && Rest(m, s, i) == Rest(r.m, s, k.at)
              && (k.at > i || Rank(r.m) < Rank(m)))
    decreases |s| - i
  {
    if i < |s| {
      var c := s[i];
      LookKeeps(m, c);
      LookReady(m, c);
      LookProgress(m, c);
      SwitchOk(m.lex.state, c);
      NeverBack(m.(lex := Lexed(m.lex, c)), Switch(m.lex.state, c).token);
      hide Switch, PathOk, LabelOk, ValueOk, React, TextOk;
      if Switch(m.lex.state, c).token == MORE {
        RestByToken(m.(lex := Lexed(m.lex, c)), s, i + 1);
      }
    }
  }

  lemma NeverBack(m: Builder, token: Token)
    requires m.state != 0 ==> m.path != []
    requires token == TOKEN_STRING || token == TOKEN_NUMBER ==> m.lex.text.Some?
    ensures React(m, token).Next? ==> React(m, token).m.state != 0
  {
  }

  /** States 1 and 7 in a run. */
  lemma RestByOpening(m: Builder, s: Text, i: nat)
    requires i < |s| && BuilderOk(m) && Opening(m.state)
    ensures Ready(m) && (m.path != [] ==> Last(m.path).kind == STRING || Last(m.path).kind == ARRAY)
    ensures var r := OpenNode(m);
            BuilderOk(r) && Ready(r) && r.state != 0 && Rank(r) < Rank(m) && Rest(m, s, i) == Rest(r, s, i)
  {
    OpenNodeKeeps(m);
    LookReady(m, s[i]);
    hide PathOk, TextOk;
  }

  lemma RestAtEnd(m: Builder, s: Text)
    requires BuilderOk(m)
    ensures Ready(m) && Rest(m, s, |s|) == Ended(m, None)
  {
  }

  /** A finished document is one open object, the root. */
  lemma WaitingIsDone(s: Text)
    ensures Ready(START) && BuilderOk(Fragment(START, s).m)
    ensures FragmentCode(START, s) == WAITING_FOR_EOF ==> |Fragment(START, s).m.path| == 1
    ensures FragmentCode(START, s) != OK
  {
    RestKeeps(START, s, 0);
    hide PathOk, TextOk;
  }
}
