/**
 The tree builder as a machine over values. The open nodes form a path from the root to the
 cursor; each is kept with its finished children only, so the child that is still open is the
 next node of the path.
 */
module JsonBuilder {
  import opened Options
  import opened JsonTree
  import opened JsonLexer
  import opened JsonGrammar

  datatype Code =
    | OK
    | WAITING_FOR_EOF
    | INCOMPLETE_DOCUMENT
    | MALFORMED_DOCUMENT
    | ILLEGAL_CHARACTER
    | BAD_TREE_STRUCTURE
    | UNKNOWN_PROBLEM

  predicate GoesOn(code: Code) { code == WAITING_FOR_EOF || code == INCOMPLETE_DOCUMENT }

  datatype Builder = Builder(state: nat, lex: Lexer, path: seq<Tree>)

  const START := Builder(0, Lexer(0, None, 1), [])

  function Last(path: seq<Tree>): Tree
    requires path != []
  {
    path[|path| - 1]
  }

  /** A finished child of the cursor. */
  function WithKid(path: seq<Tree>, t: Tree): (p: seq<Tree>)
    requires path != []
    ensures |p| == |path|
  {
    path[|path| - 1 := Last(path).(kids := Last(path).kids + [t])]
  }

  /** The cursor moves up; the node it leaves is finished. */
  function Up(path: seq<Tree>): (p: seq<Tree>)
    requires |path| >= 2
    ensures |p| == |path| - 1
  {
    WithKid(path[..|path| - 1], Last(path))
  }

  function Opened(path: seq<Tree>, kind: Kind, text: Text): seq<Tree> { path + [Leaf(kind, text)] }

  /** Which open node may hold which. */
  predicate Holds(outer: Tree, inner: Tree) {
    if outer.kind == OBJECT then inner.kind == STRING
    else (outer.kind == STRING || outer.kind == ARRAY) && (inner.kind == OBJECT || inner.kind == ARRAY)
  }

  /** An open node: an object of finished labels, an array of finished values, or a label waiting for its value. */
  predicate Open(t: Tree) {
    if t.kind == OBJECT then t.text == [] && forall i :: 0 <= i < |t.kids| ==> LabelOk(t.kids[i])
    else if t.kind == ARRAY then t.text == [] && forall i :: 0 <= i < |t.kids| ==> ValueOk(t.kids[i])
    else t.kind == STRING && t.kids == [] && StringBody(t.text)
  }

  predicate PathOk(path: seq<Tree>) {
    && (path != [] ==> path[0].kind == OBJECT)
    && (forall i :: 0 <= i < |path| ==> Open(path[i]))
    && (forall i :: 0 <= i < |path| - 1 ==> Holds(path[i], path[i + 1]))
  }

  /** The parser state number fixes the kind of the cursor node. */
  predicate StateOk(state: nat, path: seq<Tree>) {
    if state == 0 then path == []
    else if state == 1 then path == [] || Last(path).kind == STRING || Last(path).kind == ARRAY
    else if path == [] then false
    else if state == 2 then Last(path).kind == OBJECT && Last(path).kids == []
    else if state == 3 || state == 4 then Last(path).kind == OBJECT && Last(path).kids != []
    else if state == 5 || state == 6 then Last(path).kind == STRING
    else if state == 7 then Last(path).kind == STRING || Last(path).kind == ARRAY
    else if state == 8 then Last(path).kind == ARRAY
    else if state == 9 then Last(path).kind == ARRAY && Last(path).kids != []
    else state == 99 && |path| == 1
  }

  predicate BuilderOk(m: Builder) {
    LexerOk(m.lex) && TextOk(m.lex) && PathOk(m.path) && StateOk(m.state, m.path) &&
        (Opening(m.state) ==> m.lex.state == 0)
  }

  /** States 1 and 7 build a node without looking at the input. */
  predicate Opening(state: nat) { state == 1 || state == 7 }

  datatype Reaction = Next(m: Builder) | Fail(code: Code)

  function Goto(m: Builder, state: nat, path: seq<Tree>): Reaction { Next(m.(state := state, path := path)) }

  /** The text handed over by the lexer. */
  function Taken(m: Builder): Builder { m.(lex := m.lex.(text := None)) }

  /** What a token asks for: another state, a label, a leaf, the end of a container, or a refusal. */
  datatype Action = Enter(state: nat) | OpenLabel | PutLeaf(kind: Kind) | CloseNode | Refuse(code: Code)

  /** The switch on the state and the token. */
  function ActionOf(state: nat, token: Token): Action {
    if state == 0 then
      if token == BEGIN_OBJECT then Enter(1) else Refuse(MALFORMED_DOCUMENT)
    else if state == 2 then
      if token == TOKEN_STRING then OpenLabel
      else if token == END_OBJECT then CloseNode
      else Refuse(MALFORMED_DOCUMENT)
    else if state == 3 then
      if token == VALUE_SEPARATOR then Enter(4)
      else if token == END_OBJECT then CloseNode
      else Refuse(MALFORMED_DOCUMENT)
    else if state == 4 then
      if token == TOKEN_STRING then OpenLabel
      else if token == INVALID_CHARACTER then Refuse(ILLEGAL_CHARACTER)
      else Refuse(MALFORMED_DOCUMENT)
    else if state == 5 then
      if token == NAME_SEPARATOR then Enter(6) else Refuse(MALFORMED_DOCUMENT)
    else if state == 6 || state == 8 then
      if LeafKind(token).Some? then PutLeaf(LeafKind(token).value)
      else if token == BEGIN_OBJECT then Enter(1)
      else if token == BEGIN_ARRAY then Enter(7)
      else if token == END_ARRAY && state == 8 then CloseNode
      else if token == INVALID_CHARACTER then Refuse(ILLEGAL_CHARACTER)
      else Refuse(MALFORMED_DOCUMENT)
    else if state == 9 then
      if token == VALUE_SEPARATOR then Enter(8)
      else if token == END_ARRAY then CloseNode
      else Refuse(MALFORMED_DOCUMENT)
    else Refuse(MALFORMED_DOCUMENT)
  }

  /** The kind of leaf that a token stands for. */
  function LeafKind(token: Token): Option<Kind> {
    if token == TOKEN_STRING then Some(STRING)
    else if token == TOKEN_NUMBER then Some(NUMBER)
    else if token == TOKEN_TRUE then Some(TRUE)
    else if token == TOKEN_FALSE then Some(FALSE)
    else if token == TOKEN_NULL then Some(NULL)
    else None
  }

  /** A closing bracket: the document is finished, or a label's value, or an element of an array. */
  function Closed(m: Builder): Reaction
    requires m.path != []
  {
    if |m.path| == 1 then Goto(m, 99, m.path)
    else if m.path[|m.path| - 2].kind == STRING && |m.path| > 2 then Goto(m, 3, Up(Up(m.path)))
    else if m.path[|m.path| - 2].kind == ARRAY then Goto(m, 9, Up(m.path))
    else Fail(BAD_TREE_STRUCTURE)
  }

  /** A label opens. */
  function Label(m: Builder): Reaction
    requires m.lex.text.Some?
  {
    Goto(Taken(m), 5, Opened(m.path, STRING, m.lex.text.value))
  }

  /** Strings and numbers hand over the lexer's text. */
  predicate HasText(kind: Kind) { kind == STRING || kind == NUMBER }

  function LeafOf(m: Builder, kind: Kind): Tree
    requires HasText(kind) ==> m.lex.text.Some?
  {
    Leaf(kind, if HasText(kind) then m.lex.text.value else [])
  }

  /** A leaf below a label finishes the label too; below an array it does not. */
  function Put(m: Builder, kind: Kind): Reaction
    requires m.path != [] && (HasText(kind) ==> m.lex.text.Some?)
  {
    var m' := if HasText(kind) then Taken(m) else m;
    var path := WithKid(m.path, LeafOf(m, kind));
    if m.state == 8 then Goto(m', 9, path)
    else if |path| > 1 then Goto(m', 3, Up(path))
    else Fail(BAD_TREE_STRUCTURE)
  }

  /** The reaction to a token in a state that reads one. */
  function React(m: Builder, token: Token): Reaction
    requires m.state != 0 ==> m.path != []
    requires token == TOKEN_STRING || token == TOKEN_NUMBER ==> m.lex.text.Some?
  {
    match ActionOf(m.state, token)
    case Enter(state) => Goto(m, state, m.path)
    case OpenLabel => Label(m)
    case PutLeaf(kind) => Put(m, kind)
    case CloseNode => Closed(m)
    case Refuse(code) => Fail(code)
  }
}
