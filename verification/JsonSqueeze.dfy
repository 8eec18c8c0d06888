/** What the parser ignores, and that it ignores nothing else. */
module JsonSqueeze {
  import opened Options
  import opened JsonTree
  import opened JsonLexer
  import opened JsonGrammar
  import opened JsonBuilder
  import opened JsonRun
  import opened JsonInvariant
  import opened JsonPrint

  datatype Mode = Outside | Inside | Escaped

  /** A text is read byte by byte; a comma is held back until it is known what follows. */
  datatype Reader = Reader(mode: Mode, comma: bool, out: Text)

  function Held(comma: bool): Text { if comma then "," else "" }

  /** Outside strings, blanks are dropped, and a comma before a closing bracket is. */
  function Feed(k: Reader, c: Char): Reader {
    if k.mode.Inside? then
      Reader(if c == '"' then Outside else if c == '\\' then Escaped else Inside, k.comma, k.out + [c])
    else if k.mode.Escaped? then Reader(Inside, k.comma, k.out + [c])
    else if IsBlank(c) then k
    else if c == ',' then Reader(Outside, true, k.out + Held(k.comma))
    else if c == ']' then Reader(Outside, false, k.out + "]")
    else Reader(if c == '"' then Inside else Outside, false, k.out + Held(k.comma) + [c])
  }

  function Fed(s: Text): Reader {
    if s == [] then Reader(Outside, false, []) else Feed(Fed(s[..|s| - 1]), s[|s| - 1])
  }

  function Squeezed(s: Text): Text { Fed(s).out + Held(Fed(s).comma) }

  // The text that a builder stands for.

  /** What stands before the next child of an open node. */
  function Separator(t: Tree): Text { if t.kind == STRING then ":" else if t.kids == [] then "" else "," }

  function OpenText(t: Tree): Option<Text> {
    if t.kind == OBJECT then Both(Some("{"), PrintKids(t, 0))
    else if t.kind == ARRAY then Both(Some("["), PrintKids(t, 0))
    else Some(Quoted(t.text))
  }

  function PathText(path: seq<Tree>): Option<Text> {
    if path == [] then Some("")
    else
      var above := path[..|path| - 1];
      var before := if above == [] then Some("") else Both(PathText(above), Some(Separator(Last(above))));
      Both(before, OpenText(Last(path)))
  }

  /** The text before the next child of the cursor. */
  function Before(path: seq<Tree>): Option<Text> {
    if path == [] then Some("") else Both(PathText(path), Some(Separator(Last(path))))
  }

  /** The token that the lexer is in. */
  function LexText(l: Lexer): Text
    requires LexerOk(l)
  {
    var q := l.state;
    if q == 0 then ""
    else if q <= 6 then "\"" + l.text.value
    else if q <= 9 then "tru"[..q - 6]
    else if q <= 13 then "fals"[..q - 9]
    else if q <= 16 then "nul"[..q - 13]
    else l.text.value
  }

  /** What has been read when the lexer is between tokens. */
  function Idle(m: Builder): Option<Text> {
    if m.state == 1 then Both(Before(m.path), Some("{"))
    else if m.state == 7 then Both(Before(m.path), Some("["))
    else if m.state == 6 then Before(m.path)
    else if m.state == 99 then Both(PathText(m.path), Some("}"))
    else PathText(m.path)
  }

  predicate CommaRead(m: Builder) { m.state == 4 || (m.state == 8 && m.path != [] && Last(m.path).kids != []) }

  function Text1(m: Builder): Option<Text>
    requires LexerOk(m.lex)
  {
    if m.lex.state == 0 then Idle(m) else Both(Both(Idle(m), Some(Held(CommaRead(m)))), Some(LexText(m.lex)))
  }

  function ModeOf(state: nat): Mode { if state == 2 then Escaped else if 1 <= state <= 6 then Inside else Outside }

  /** The reader has put out the text of the builder. */
  predicate Agrees(k: Reader, m: Builder) {
    && LexerOk(m.lex) && k.mode == ModeOf(m.lex.state) && k.comma == (m.lex.state == 0 && CommaRead(m))
    && Text1(m) == Some(k.out)
  }

  /** One byte between tokens: a blank, or the first of a token. */
  lemma ReadsBetween(k: Reader, m: Builder, c: Char)
    requires Agrees(k, m) && Switch(m.lex.state, c).token == MORE && m.lex.state == 0
    ensures Agrees(Feed(k, c), m.(lex := Lexed(m.lex, c)))
  {
    hide Idle, CommaRead, InString, InLiteral, InNumber;
    SwitchOk(m.lex.state, c);
    IdleSame(m, Lexed(m.lex, c));
    if !IsBlank(c) {
      FirstLetter(m.lex, c);
    }
  }

  lemma ReadsString(k: Reader, m: Builder, c: Char)
    requires Agrees(k, m) && Switch(m.lex.state, c).token == MORE && 0 < m.lex.state <= 6
    ensures Agrees(Feed(k, c), m.(lex := Lexed(m.lex, c)))
  {
    hide Idle, CommaRead, Between, InLiteral, InNumber;
    SwitchOk(m.lex.state, c);
    IdleSame(m, Lexed(m.lex, c));
    BothOne(Both(Idle(m), Some(Held(CommaRead(m)))), "\"" + m.lex.text.value, c);
    assert "\"" + m.lex.text.value + [c] == "\"" + (m.lex.text.value + [c]);
  }

  lemma ReadsLiteral(k: Reader, m: Builder, c: Char)
    requires Agrees(k, m) && Switch(m.lex.state, c).token == MORE && 6 < m.lex.state <= 16
    ensures Agrees(Feed(k, c), m.(lex := Lexed(m.lex, c)))
  {
    hide Idle, CommaRead, Between, InString, InNumber;
    SwitchOk(m.lex.state, c);
    IdleSame(m, Lexed(m.lex, c));
    FeedPlain(k, c);
    assert LexText(Lexed(m.lex, c)) == LexText(m.lex) + [c];
    BothOne(Both(Idle(m), Some(Held(CommaRead(m)))), LexText(m.lex), c);
  }

  lemma ReadsNumber(k: Reader, m: Builder, c: Char)
    requires Agrees(k, m) && Switch(m.lex.state, c).token == MORE && 16 < m.lex.state
    ensures Agrees(Feed(k, c), m.(lex := Lexed(m.lex, c)))
  {
    hide Idle, CommaRead, Between, InString, InLiteral;
    SwitchOk(m.lex.state, c);
    IdleSame(m, Lexed(m.lex, c));
    FeedPlain(k, c);
    BothOne(Both(Idle(m), Some(Held(CommaRead(m)))), m.lex.text.value, c);
  }

  /** One byte inside a token, or a blank. */
  lemma ReadsOn(k: Reader, m: Builder, c: Char)
    requires Agrees(k, m) && Switch(m.lex.state, c).token == MORE
    ensures Agrees(Feed(k, c), m.(lex := Lexed(m.lex, c)))
  {
    hide Agrees, Feed, Switch, Lexed;
    if m.lex.state == 0 {
      ReadsBetween(k, m, c);
    } else if m.lex.state <= 6 {
      ReadsString(k, m, c);
    } else if m.lex.state <= 16 {
      ReadsLiteral(k, m, c);
    } else {
      ReadsNumber(k, m, c);
    }
  }

  lemma FirstLetter(l: Lexer, c: Char)
    requires LexerOk(l) && l.state == 0 && Between(c).token == MORE && !IsBlank(c)
    ensures Lexed(l, c).state != 0 && LexText(Lexed(l, c)) == [c] && c != ',' && c != ']'
    ensures ModeOf(Lexed(l, c).state) == if c == '"' then Inside else Outside
  {
    SwitchOk(0, c);
    var none: Text := [];
    assert "\"" + none == "\"";
  }

  lemma FeedPlain(k: Reader, c: Char)
    requires k.mode.Outside? && !k.comma && !IsBlank(c) && c != ',' && c != ']' && c != '"'
    ensures Feed(k, c) == Reader(Outside, false, k.out + [c])
  {
    assert k.out + Held(false) == k.out;
  }

  lemma IdleSame(m: Builder, l: Lexer)
    ensures Idle(m.(lex := l)) == Idle(m) && CommaRead(m.(lex := l)) == CommaRead(m)
  {
  }

  lemma BothOne(a: Option<Text>, x: Text, c: Char)
    ensures Both(a, Some(x + [c])) == Both(Both(a, Some(x)), Some([c]))
  {
    if a.Some? {
      assert a.value + (x + [c]) == a.value + x + [c];
    }
  }

  // The text of the path.

  lemma PathLast(path: seq<Tree>)
    requires path != []
    ensures PathText(path) == Both(Before(path[..|path| - 1]), OpenText(Last(path)))
  {
  }

  lemma OpenPath(path: seq<Tree>, t: Tree)
    ensures PathText(path + [t]) == Both(Before(path), OpenText(t))
  {
    hide OpenText, Before;
    PathLast(path + [t]);
    assert (path + [t])[..|path|] == path;
  }

  /** A child added at the end is printed at the end. */
  lemma {:induction false} KidsAppend(t: Tree, x: Tree, i: nat)
    requires i <= |t.kids|
    ensures PrintKids(t.(kids := t.kids + [x]), i) ==
            Both(PrintKids(t, i), Both(Some(Held(t.kids != [])), Print(x, Some(t.kind))))
    decreases |t.kids| - i
  {
    hide Print;
    var t' := t.(kids := t.kids + [x]);
    var e := Both(Some(Held(t.kids != [])), Print(x, Some(t.kind)));
    if i == |t.kids| {
      assert PrintKids(t', i + 1) == Some("");
      BothNothing(e);
    } else {
      KidsAppend(t, x, i + 1);
      BothAssociates(Both(Some(Held(i > 0)), Print(t.kids[i], Some(t.kind))), PrintKids(t, i + 1), e);
    }
  }

  lemma BothNothing(a: Option<Text>)
    ensures Both(a, Some("")) == a == Both(Some(""), a)
  {
    var none: Text := [];
    if a.Some? {
      assert a.value + none == a.value == none + a.value;
    }
  }

  predicate Container(t: Tree) { t.kind == OBJECT || t.kind == ARRAY }

  function Closer(t: Tree): Text { if t.kind == OBJECT then "}" else "]" }

  lemma ClosedText(t: Tree, parent: Option<Kind>)
    requires Container(t)
    ensures Print(t, parent) == Both(OpenText(t), Some(Closer(t)))
  {
  }

  lemma KidText(path: seq<Tree>, x: Tree)
    requires path != [] && Container(Last(path))
    ensures PathText(WithKid(path, x)) == Both(Before(path), Print(x, Some(Last(path).kind)))
  {
    hide Print, PrintKids;
    var t := Last(path);
    var p := Print(x, Some(t.kind));
    var above := path[..|path| - 1];
    PathLast(path);
    PathLast(WithKid(path, x));
    assert WithKid(path, x)[..|path| - 1] == above;
    KidsAppend(t, x, 0);
    var open := if t.kind == OBJECT then Some("{") else Some("[");
    BothAssociates(open, PrintKids(t, 0), Both(Some(Held(t.kids != [])), p));
    BothAssociates(Before(above), OpenText(t), Both(Some(Held(t.kids != [])), p));
    BothAssociates(PathText(path), Some(Held(t.kids != [])), p);
  }

  /** A container that is closed goes into the array above. */
  lemma UpText(path: seq<Tree>)
    requires |path| >= 2 && Container(Last(path)) && path[|path| - 2].kind == ARRAY
    ensures PathText(Up(path)) == Both(PathText(path), Some(Closer(Last(path))))
  {
    hide Print, PathText, OpenText, Before;
    var above := path[..|path| - 1];
    PathLast(path);
    KidText(above, Last(path));
    ClosedText(Last(path), Some(ARRAY));
    BothAssociates(Before(above), OpenText(Last(path)), Some(Closer(Last(path))));
  }

  /** A label whose value is finished is a pair of the object above. */
  lemma LabelDone(path: seq<Tree>, v: Tree)
    requires |path| >= 2 && Last(path).kind == STRING && Last(path).kids == [] && path[|path| - 2].kind == OBJECT
    ensures PathText(Up(WithKid(path, v))) == Both(Before(path), Print(v, Some(STRING)))
  {
    hide Print, PrintKids;
    var open, above := Last(path), path[..|path| - 1];
    var pair := open.(kids := [v]);
    var p := Print(v, Some(STRING));
    assert Last(WithKid(path, v)) == pair && WithKid(path, v)[..|path| - 1] == above by {
      assert open.kids + [v] == [v];
    }
    KidText(above, pair);
    PairPrints(pair);
    PathLast(path);
    BothAssociates(Before(above), Some(Quoted(open.text)), Some(":"));
    BothAssociates(Before(above), Some(Quoted(open.text) + ":"), p);
  }

  /** A container that is closed is the value of the label above. */
  lemma ValueClosed(path: seq<Tree>)
    requires |path| >= 3 && Container(Last(path)) && path[|path| - 2].kind == STRING && path[|path| - 2].kids == []
    requires path[|path| - 3].kind == OBJECT
    ensures PathText(Up(Up(path))) == Both(PathText(path), Some(Closer(Last(path))))
  {
    hide Print, PathText, OpenText, Before;
    var above := path[..|path| - 1];
    PathLast(path);
    LabelDone(above, Last(path));
    ClosedText(Last(path), Some(STRING));
    BothAssociates(Before(above), OpenText(Last(path)), Some(Closer(Last(path))));
  }

  // Tokens and the reactions to them.

  /** What is put out when the next token begins. */
  lemma BeforeToken(m: Builder)
    requires StateOk(m.state, m.path) && (m.state == 2 || m.state == 4 || m.state == 6 || m.state == 8)
    ensures Both(Idle(m), Some(Held(CommaRead(m)))) == Before(m.path)
  {
    hide PathText;
    BothNothing(PathText(m.path));
    BothNothing(Before(m.path));
  }

  predicate ValueToken(token: Token) { LeafKind(token).Some? }

  function ValueText(token: Token, text: Option<Text>): Text
    requires ValueToken(token) && (token == TOKEN_STRING || token == TOKEN_NUMBER ==> text.Some?)
  {
    if token == TOKEN_STRING then Quoted(text.value)
    else if token == TOKEN_NUMBER then text.value
    else if token == TOKEN_TRUE then "true"
    else if token == TOKEN_FALSE then "false"
    else "null"
  }

  function After(k: Reader, m: Builder, c: Char): Reader
    requires LexerOk(m.lex)
  {
    if Switch(m.lex.state, c).take then Feed(k, c) else k
  }

  /** The last byte of a value, or the byte that ends a number. */
  lemma ValueRead(k: Reader, m: Builder, c: Char)
    requires Agrees(k, m) && ValueToken(Switch(m.lex.state, c).token)
    ensures var token, l := Switch(m.lex.state, c).token, Lexed(m.lex, c);
      && l.state == 0 && (token == TOKEN_STRING || token == TOKEN_NUMBER ==> l.text.Some?)
      && var r := After(k, m, c);
         r.mode.Outside? && !r.comma &&
         Some(r.out) == Both(Both(Idle(m), Some(Held(CommaRead(m)))), Some(ValueText(token, l.text)))
  {
    hide Idle, CommaRead;
    SwitchOk(m.lex.state, c);
    var q := m.lex.state;
    var before := Both(Idle(m), Some(Held(CommaRead(m))));
    if q <= 6 {
      hide Between, InLiteral, InNumber;
      BothOne(before, "\"" + m.lex.text.value, c);
    } else if q <= 16 {
      hide Between, InString, InNumber;
      FeedPlain(k, c);
      BothOne(before, LexText(m.lex), c);
      LiteralEnds(m.lex, c);
    } else {
      hide Between, InString, InLiteral;
      assert m.lex.text.Some?;
    }
  }

  lemma LiteralEnds(l: Lexer, c: Char)
    requires LexerOk(l) && 7 <= l.state <= 16 && ValueToken(InLiteral(l.state, c).token)
    ensures LexText(l) + [c] == ValueText(InLiteral(l.state, c).token, None)
    ensures c != ',' && c != ']' && c != '"' && !IsBlank(c)
  {
  }

  /** A bracket, a comma or a colon. */
  lemma MarkRead(m: Builder, c: Char)
    requires LexerOk(m.lex)
    requires var token := Switch(m.lex.state, c).token;
             token != MORE && token != INVALID_CHARACTER && !ValueToken(token)
    ensures m.lex.state == 0 && Switch(0, c).take && Lexed(m.lex, c) == m.lex
    ensures var token := Switch(0, c).token;
      && (token == BEGIN_OBJECT <==> c == '{') && (token == END_OBJECT <==> c == '}')
      && (token == BEGIN_ARRAY <==> c == '[') && (token == END_ARRAY <==> c == ']')
      && (token == NAME_SEPARATOR <==> c == ':') && (token == VALUE_SEPARATOR <==> c == ',')
  {
    SwitchOk(m.lex.state, c);
  }

  /** A label or a leaf. */
  lemma ValueActs(k: Reader, m: Builder, c: Char, r: Builder)
    requires BuilderOk(m) && !Opening(m.state) && Agrees(k, m) && ValueToken(Switch(m.lex.state, c).token)
    requires var l, token := Lexed(m.lex, c), Switch(m.lex.state, c).token;
             (token == TOKEN_STRING || token == TOKEN_NUMBER ==> l.text.Some?) && React(m.(lex := l), token) == Next(r)
    ensures Agrees(After(k, m, c), r)
  {
    hide Switch, PathText, OpenText, Before, PathOk, TextOk, Print, After;
    var token, l := Switch(m.lex.state, c).token, Lexed(m.lex, c);
    ValueRead(k, m, c);
    BeforeToken(m);
    var text := ValueText(token, l.text);
    if m.state == 2 || m.state == 4 {
      OpenPath(m.path, Leaf(STRING, l.text.value));
      OpenLabelText(l.text.value);
    } else {
      var leaf := LeafOf(m.(lex := l), LeafKind(token).value);
      LeafText(token, l.text);
      if m.state == 8 {
        KidText(m.path, leaf);
      } else {
        LabelOpen(m.path);
        LabelDone(m.path, leaf);
      }
    }
  }

  lemma OpenLabelText(text: Text)
    ensures OpenText(Leaf(STRING, text)) == Some(Quoted(text))
  {
  }

  lemma LeafText(token: Token, text: Option<Text>)
    requires ValueToken(token) && (token == TOKEN_STRING || token == TOKEN_NUMBER ==> text.Some?)
    ensures var kind := LeafKind(token).value;
      var leaf := Leaf(kind, if HasText(kind) then text.value else []);
      Print(leaf, Some(ARRAY)) == Print(leaf, Some(STRING)) == Some(ValueText(token, text))
  {
    if token == TOKEN_STRING {
      BothNothing(Some(Quoted(text.value)));
    }
  }

  /** Where an open label stands. */
  lemma LabelOpen(path: seq<Tree>)
    requires PathOk(path) && path != [] && Last(path).kind == STRING
    ensures |path| >= 2 && path[|path| - 2].kind == OBJECT && Last(path).kids == []
  {
    assert Open(Last(path));
  }

  lemma FeedMark(k: Reader, c: Char)
    requires k.mode.Outside? && !IsBlank(c) && c != '"' && c != ','
    ensures Feed(k, c) == Reader(Outside, false, k.out + (if c == ']' then "" else Held(k.comma)) + [c])
  {
    assert k.out + "" == k.out;
  }

  /** A bracket that closes a node. */
  lemma CloseActs(k: Reader, m: Builder, c: Char, r: Builder)
    requires BuilderOk(m) && Agrees(k, m) && m.lex.state == 0 && ActionOf(m.state, Switch(0, c).token) == CloseNode
    requires m.path != [] && Closed(m) == Next(r)
    ensures Agrees(Feed(k, c), r)
  {
    hide Switch, PathText, PathOk, TextOk, CommaRead, Closer;
    CloseBracket(m, c);
    FeedMark(k, c);
    ClosesLast(m, c);
    ClosedGives(m);
    assert k.out + "" == k.out == k.out + Held(false);
  }

  lemma CloseBracket(m: Builder, c: Char)
    requires ActionOf(m.state, Switch(0, c).token) == CloseNode
    ensures c == '}' || c == ']'
  {
  }

  /** What a closed container leaves. */
  lemma ClosedGives(m: Builder)
    requires m.path != [] && Container(Last(m.path)) && Closed(m).Next?
    requires var path := m.path;
             |path| > 1 && path[|path| - 2].kind == STRING ==>
               |path| >= 3 && path[|path| - 2].kids == [] && path[|path| - 3].kind == OBJECT
    requires |m.path| == 1 ==> Last(m.path).kind == OBJECT
    ensures var r := Closed(m).m;
            Idle(r) == Both(PathText(m.path), Some(Closer(Last(m.path)))) && !CommaRead(r) && r.lex == m.lex
  {
    hide PathText;
    if |m.path| > 1 && m.path[|m.path| - 2].kind == STRING {
      ValueClosed(m.path);
    } else if |m.path| > 1 {
      UpText(m.path);
    }
  }

  /** The bracket fits the node, and the nodes above it are an array, or a label and its object. */
  lemma ClosesLast(m: Builder, c: Char)
    requires BuilderOk(m) && ActionOf(m.state, Switch(0, c).token) == CloseNode && m.path != []
    ensures var path := m.path;
      && Container(Last(path)) && Closer(Last(path)) == [c] && (|path| == 1 ==> Last(path).kind == OBJECT) &&
          Idle(m) == PathText(path) && (c == '}' ==> !CommaRead(m))
      && (|path| > 1 && path[|path| - 2].kind == STRING ==>
            |path| >= 3 && path[|path| - 2].kids == [] && path[|path| - 3].kind == OBJECT)
  {
    hide PathText, TextOk, LabelOk, ValueOk, StringBody;
    var path := m.path;
    if |path| > 1 && path[|path| - 2].kind == STRING {
      PrefixOk(path, |path| - 1);
      LabelOpen(path[..|path| - 1]);
    }
  }

  /** A bracket that opens a node, a comma or a colon. */
  lemma EnterActs(k: Reader, m: Builder, c: Char, r: Builder)
    requires BuilderOk(m) && Agrees(k, m) && m.lex.state == 0 && Switch(0, c).token != INVALID_CHARACTER
    requires !ValueToken(Switch(0, c).token)
    requires var a := ActionOf(m.state, Switch(0, c).token); a.Enter? && Goto(m, a.state, m.path) == Next(r)
    ensures Agrees(Feed(k, c), r)
  {
    hide Idle, CommaRead, TextOk, PathOk;
    EnterText(m, c);
    if c != ',' {
      FeedMark(k, c);
    }
    assert k.out + Held(false) == k.out;
  }

  /** What the builder stands for after a mark. */
  lemma EnterText(m: Builder, c: Char)
    requires BuilderOk(m) && Switch(0, c).token != INVALID_CHARACTER && !ValueToken(Switch(0, c).token)
    requires ActionOf(m.state, Switch(0, c).token).Enter?
    ensures var r := m.(state := ActionOf(m.state, Switch(0, c).token).state);
      && !IsBlank(c) && c != '"' && c != ']'
      && if c == ',' then Idle(r) == Idle(m) && CommaRead(r) && !CommaRead(m)
         else Idle(r) == Both(Both(Idle(m), Some(Held(CommaRead(m)))), Some([c])) && !CommaRead(r)
  {
    hide PathText, TextOk, PathOk;
    if m.state == 6 || m.state == 8 {
      BeforeToken(m);
    }
    BothNothing(Idle(m));
    if m.path == [] {
      PathNothing();
    }
  }

  lemma PathNothing()
    ensures PathText([]) == Some("") == Before([])
  {
  }

  /** One look at a byte. */
  lemma LooksOn(k: Reader, m: Builder, c: Char)
    requires BuilderOk(m) && Agrees(k, m) && Ready(m)
    ensures var o := LookAt(m, c); o.r.Next? ==> Agrees(if o.take then Feed(k, c) else k, o.r.m)
  {
    if Opening(m.state) {
      OpeningText(m);
    } else {
      SwitchOk(m.lex.state, c);
      var token, m' := Switch(m.lex.state, c).token, m.(lex := Lexed(m.lex, c));
      if token == MORE {
        ReadsOn(k, m, c);
      } else if React(m', token).Next? {
        ReactsOn(k, m, c);
      }
    }
  }

  lemma ReactsOn(k: Reader, m: Builder, c: Char)
    requires BuilderOk(m) && Agrees(k, m) && Ready(m) && !Opening(m.state)
    requires var token, l := Switch(m.lex.state, c).token, Lexed(m.lex, c);
             && token != MORE && (token == TOKEN_STRING || token == TOKEN_NUMBER ==> l.text.Some?)
             && React(m.(lex := l), token).Next?
    ensures Agrees(After(k, m, c), React(m.(lex := Lexed(m.lex, c)), Switch(m.lex.state, c).token).m)
  {
    hide BuilderOk, Agrees, Switch;
    var token, m' := Switch(m.lex.state, c).token, m.(lex := Lexed(m.lex, c));
    var r := React(m', token).m;
    if ValueToken(token) {
      ValueActs(k, m, c, r);
    } else {
      MarkRead(m, c);
      if ActionOf(m.state, token) == CloseNode {
        CloseActs(k, m, c, r);
      } else {
        EnterActs(k, m, c, r);
      }
    }
  }

  lemma OpeningText(m: Builder)
    requires BuilderOk(m) && Opening(m.state)
    ensures var r := OpenNode(m); Idle(r) == Idle(m) && !CommaRead(r) && !CommaRead(m)
  {
    var kind := if m.state == 1 then OBJECT else ARRAY;
    OpenPath(m.path, Leaf(kind, []));
    BothNothing(Some(if m.state == 1 then "{" else "["));
  }

  /** A run puts out what the builder stands for. */
  lemma {:induction false} RestSqueezes(m: Builder, s: Text, i: nat)
    requires i <= |s| && BuilderOk(m) && Ready(m) && Agrees(Fed(s[..i]), m)
    ensures var r := Rest(m, s, i); r.failure.None? ==> Agrees(Fed(s), r.m)
    decreases |s| - i, Rank(m)
  {
    if i == |s| {
      assert s[..i] == s;
    } else {
      LookKeeps(m, s[i]);
      LookReady(m, s[i]);
      LookProgress(m, s[i]);
      LooksOn(Fed(s[..i]), m, s[i]);
      assert s[..i + 1][..i] == s[..i];
      var k := LookAt(m, s[i]);
      hide LookAt, BuilderOk, Ready, Agrees, Feed;
      if k.r.Next? {
        RestSqueezes(k.r.m, s, if k.take then i + 1 else i);
      }
    }
  }

  /**
   A document is its tree's text with blanks and idle commas between, and perhaps the beginning
   of a token after the end, which the parser does not miss.
   */
  lemma DocumentIsPrinted(s: Text)
    requires Document(s).Some?
    ensures Ready(START) && LexerOk(Fragment(START, s).m.lex)
    ensures Some(Squeezed(s)) == Both(Print(Document(s).value, None), Some(LexText(Fragment(START, s).m.lex)))
    ensures Some(Squeezed(s)) == Print(Document(s).value, None) <==> Fragment(START, s).m.lex.state == 0
  {
    assert s[..0] == [];
    RestSqueezes(START, s, 0);
    RestKeeps(START, s, 0);
    WaitingIsDone(s);
    var m := Fragment(START, s).m;
    assert Agrees(Fed(s), m);
    RootText(m);
    FinishedText(Fed(s), m);
  }

  lemma FinishedText(k: Reader, m: Builder)
    requires Agrees(k, m) && !CommaRead(m) && TextOk(m.lex)
    ensures !k.comma && Some(k.out + Held(k.comma)) == Both(Idle(m), Some(LexText(m.lex)))
    ensures Some(k.out + Held(k.comma)) == Idle(m) <==> m.lex.state == 0
  {
    hide Idle, CommaRead;
    BothNothing(Idle(m));
    BothNothing(Some(k.out));
    LexTextIsThere(m.lex);
  }

  lemma LexTextIsThere(l: Lexer)
    requires LexerOk(l) && TextOk(l)
    ensures LexText(l) == "" <==> l.state == 0
  {
  }

  lemma RootText(m: Builder)
    requires BuilderOk(m) && m.state == 99
    ensures Idle(m) == Print(m.path[0], None) && !CommaRead(m)
  {
    var root := m.path[0];
    PathNothing();
    PathLast(m.path);
    assert m.path[..0] == [];
    BothNothing(OpenText(root));
    ClosedText(root, None);
  }

  // Blanks.

  function Lines(w: Text): nat {
    if w == [] then 0 else Lines(w[1..]) + if w[0] == '\n' || w[0] == '\r' then 1 else 0
  }

  function OnLine(m: Builder, n: nat): Builder { m.(lex := m.lex.(line := n)) }

  /** The line is counted and not looked at. */
  lemma {:induction false} LineIsFree(m: Builder, s: Text, i: nat, n: nat)
    requires i <= |s| && Ready(m)
    ensures Ready(OnLine(m, n))
    ensures var r, q := Rest(m, s, i), Rest(OnLine(m, n), s, i);
      q == Ended(OnLine(r.m, q.m.lex.line), r.failure) && q.m.lex.line - n == r.m.lex.line - m.lex.line
    decreases |s| - i, Rank(m)
  {
    if i < |s| {
      LookReady(m, s[i]);
      LookProgress(m, s[i]);
      LookLine(m, s[i], n);
      var k, q := LookAt(m, s[i]), LookAt(OnLine(m, n), s[i]);
      hide LookAt, Ready;
      if k.r.Next? {
        LineIsFree(k.r.m, s, if k.take then i + 1 else i, q.r.m.lex.line);
      }
    }
  }

  lemma LookLine(m: Builder, c: Char, n: nat)
    requires Ready(m)
    ensures Ready(OnLine(m, n)) && LexerOk(m.lex)
    ensures var l, l' := Lexed(m.lex, c), Lexed(OnLine(m, n).lex, c);
      l' == l.(line := l'.line) && l'.line - n == l.line - m.lex.line
    ensures var k, q := LookAt(m, c), LookAt(OnLine(m, n), c);
      && q.take == k.take
      && if k.r.Fail? then q.r == k.r
         else q.r.Next? && q.r.m == OnLine(k.r.m, q.r.m.lex.line) && q.r.m.lex.line - n == k.r.m.lex.line - m.lex.line
  {
    SwitchOk(m.lex.state, c);
    hide Switch;
    if !Opening(m.state) {
      ReactLine(m.(lex := Lexed(m.lex, c)), Switch(m.lex.state, c).token, Lexed(OnLine(m, n).lex, c).line);
    }
  }

  lemma ReactLine(m: Builder, token: Token, n: nat)
    requires m.state != 0 ==> m.path != []
    requires token == TOKEN_STRING || token == TOKEN_NUMBER ==> m.lex.text.Some?
    ensures var r, q := React(m, token), React(OnLine(m, n), token);
      if r.Fail? then q == r else r.m.lex.line == m.lex.line && q == Next(OnLine(r.m, n))
  {
    hide ActionOf;
  }

  predicate Blanks(w: Text) { forall i :: 0 <= i < |w| ==> IsBlank(w[i]) }

  /** Blanks between tokens open the node that waits for it, and count lines. */
  lemma {:induction false} BlanksRun(m: Builder, w: Text, b: Text)
    requires Ready(m) && m.lex.state == 0 && w != [] && Blanks(w)
    ensures var q := if Opening(m.state) then OpenNode(m) else m;
            Ready(q) && Rest(m, w + b, 0) == Rest(OnLine(q, m.lex.line + Lines(w)), w + b, |w|)
    decreases |w|
  {
    hide Rest, Ready;
    var q := if Opening(m.state) then OpenNode(m) else m;
    var r, r' := OnLine(q, m.lex.line + Lines(w[..1])), OnLine(q, m.lex.line + Lines(w));
    FirstBlank(m, w + b);
    assert (w + b)[..1] == w[..1] && w[..1][1..] == [] && (w + b)[0] == w[0];
    LineIsFree(q, b, 0, m.lex.line + Lines(w));
    if |w| > 1 {
      BlanksRun(r, w[1..], b);
      assert w + b == w[..1] + (w[1..] + b);
      RestShifts(r, w[..1], w[1..] + b, 0);
      RestShifts(r', w[..1], w[1..] + b, |w| - 1);
    }
  }

  lemma FirstBlank(m: Builder, s: Text)
    requires Ready(m) && m.lex.state == 0 && s != [] && IsBlank(s[0])
    ensures var q := if Opening(m.state) then OpenNode(m) else m;
      var r := OnLine(q, m.lex.line + Lines(s[..1]));
      Ready(q) && Ready(r) && Rest(m, s, 0) == Rest(r, s, 1)
  {
    var q := if Opening(m.state) then OpenNode(m) else m;
    LookReady(m, s[0]);
    BlankLook(q, s[0]);
    LineIsFree(q, [], 0, m.lex.line + Lines(s[..1]));
    assert s[..1] == [s[0]];
    hide Switch;
  }

  lemma BlankLook(m: Builder, c: Char)
    requires Ready(m) && !Opening(m.state) && m.lex.state == 0 && IsBlank(c)
    ensures LookAt(m, c) == Look(Next(OnLine(m, m.lex.line + Lines([c]))), true)
  {
    assert [c][1..] == [];
  }

  /** g ended as f did, n lines later. */
  predicate SameButLines(f: Ended, g: Ended, n: nat) {
    && g.failure == f.failure && g.m.lex.line == f.m.lex.line + n
    && (g.m.state == 99 <==> f.m.state == 99) && (f.m.state == 99 ==> g.m.path == f.m.path)
  }

  lemma BlanksBetween(m: Builder, w: Text, b: Text)
    requires Ready(m) && m.lex.state == 0 && Blanks(w)
    ensures SameButLines(Rest(m, b, 0), Rest(m, w + b, 0), Lines(w))
  {
    hide Rest, Ready;
    if w == [] {
      assert w + b == b;
    } else {
      var q := if Opening(m.state) then OpenNode(m) else m;
      BlanksRun(m, w, b);
      OpenedByLook(m, b);
      LineIsFree(q, b, 0, m.lex.line + Lines(w));
      RestShifts(OnLine(q, m.lex.line + Lines(w)), w, b, 0);
    }
  }

  /** Blanks between two tokens change nothing but the line count. */
  lemma BlanksIgnored(a: Text, w: Text, b: Text)
    requires Ready(START) && Fragment(START, a).failure.None? && Fragment(START, a).m.lex.state == 0 && Blanks(w)
    ensures SameButLines(Fragment(START, a + b), Fragment(START, a + w + b), Lines(w))
    ensures Document(a + w + b) == Document(a + b)
  {
    hide Rest, Ready, SameButLines, Document;
    var m := Fragment(START, a).m;
    AfterPart(a, b);
    AfterPart(a, w + b);
    assert a + w + b == a + (w + b);
    BlanksBetween(m, w, b);
    SameDocument(a + b, a + w + b, Lines(w));
  }

  lemma AfterPart(a: Text, b: Text)
    requires Ready(START) && Fragment(START, a).failure.None?
    ensures var m := Fragment(START, a).m; Ready(m) && Fragment(START, a + b) == Rest(m, b, 0)
  {
    hide Rest, Ready;
    RestSplits(START, a, b, 0);
    RestShifts(Fragment(START, a).m, a, b, 0);
  }

  lemma SameDocument(s: Text, s': Text, n: nat)
    requires Ready(START) && SameButLines(Fragment(START, s), Fragment(START, s'), n)
    ensures Document(s) == Document(s')
  {
    RestKeeps(START, s, 0);
    RestKeeps(START, s', 0);
    hide Rest;
  }

  /** An open bracket makes its node when anything follows. */
  lemma OpenedByLook(m: Builder, b: Text)
    requires Ready(m) && m.lex.state == 0
    ensures var q := if Opening(m.state) then OpenNode(m) else m;
      && Ready(q) && (b != [] ==> Rest(m, b, 0) == Rest(q, b, 0))
      && (b == [] ==> Rest(m, b, 0) == Ended(m, None) && Rest(q, b, 0) == Ended(q, None))
      && (m.state == 99 <==> q.state == 99)
  {
    if b != [] {
      LookReady(m, b[0]);
      hide Switch;
    }
  }
}
