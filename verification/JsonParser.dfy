/** The resumable parser: the lexer's buffer, and the tree it builds node by node. */
module JsonParsing {
  import opened Options
  import opened JsonTree
  import opened JsonLexer
  import opened JsonGrammar
  import opened JsonBuilder
  import opened JsonRun
  import opened JsonInvariant
  import opened JsonHeap
  import opened JsonStack
  import opened RcStrings

  /** struct json_parsing_info. The position in the fragment is local to a call. */
  class ParsingInfo {
    var state: nat
    var lex_state: nat
    var lex_text: RcString?
    var line: nat
    var cursor: Node?

    ghost var nodes: seq<Node>
    ghost var path: seq<Tree>
    ghost var kids: Kids
    ghost var val: Values

    ghost predicate TextValid()
      reads this`lex_text, lex_text, if lex_text != null then {lex_text.text} else {}
    {
      lex_text != null ==> lex_text.Valid()
    }

    ghost function LexModel(): Lexer
      requires TextValid()
      reads this`lex_state, this`lex_text, this`line, lex_text, if lex_text != null then {lex_text.text} else {}
    {
      Lexer(lex_state, if lex_text == null then None else Some(lex_text.Contents()), line)
    }

    /** The heap holds the partial tree of `path`, and the cursor is its last open node. */
    ghost predicate TreeValid()
      reads this`nodes, this`path, this`kids, this`val, this`cursor, kids.Keys
    {
      && Built(nodes, path, kids, val)
      && cursor == (if nodes == [] then null else nodes[|nodes| - 1])
    }

    /** The abstract builder that this object stands for. */
    ghost function Model(): Builder
      requires TextValid()
      reads this`state, this`path, this`lex_state, this`lex_text, this`line, lex_text,
          if lex_text != null then {lex_text.text} else {}
    {
      Builder(state, LexModel(), path)
    }

    ghost predicate Valid()
      reads this, lex_text, if lex_text != null then {lex_text.text} else {}, kids.Keys
    {
      TextValid() && TreeValid() && BuilderOk(Model())
    }

    /** json_jpi_init. */
    constructor ()
      ensures Valid() && Model() == START && kids == map[]
    {
      state, lex_state, line := 0, 0, 1;
      lex_text, cursor := null, null;
      nodes, path, kids, val := [], [], map[], map[];
    }

    /** lexer. */
    method RunLexer(buffer: Text, p: nat) returns (token: Token, at: nat)
      requires TextValid() && LexerOk(LexModel()) && p <= |buffer|
      modifies this`lex_state, this`lex_text, this`line, lex_text, if lex_text != null then {lex_text.text} else {}
      ensures TextValid() && (lex_text == old(lex_text) || fresh(lex_text))
      ensures lex_text != null ==>
          fresh(lex_text.text) || (lex_text == old(lex_text) && lex_text.text == old(lex_text.text))
      ensures Lex(LexModel(), token, at) == LexFrom(old(LexModel()), buffer, p)
    {
      hide Switch, TextValid, LexModel, Lexed, LexerOk;
      at := p;
      while at < |buffer|
        invariant p <= at <= |buffer| && TextValid() && LexerOk(LexModel())
        invariant lex_text == old(lex_text) || fresh(lex_text)
        invariant lex_text != null ==>
            fresh(lex_text.text) || (lex_text == old(lex_text) && lex_text.text == old(lex_text.text))
        invariant LexFrom(LexModel(), buffer, at) == LexFrom(old(LexModel()), buffer, p)
      {
        var k := LexByte(buffer[at]);
        if k.take {
          at := at + 1;
        }
        if k.token != MORE {
          return k.token, at;
        }
      }
      token := MORE;
    }

    /** One case of the switch. */
    method LexByte(c: Char) returns (k: Case)
      requires TextValid() && LexerOk(LexModel())
      modifies this`lex_state, this`lex_text, this`line, lex_text, if lex_text != null then {lex_text.text} else {}
      ensures TextValid() && (lex_text == old(lex_text) || fresh(lex_text))
      ensures lex_text != null ==>
          fresh(lex_text.text) || (lex_text == old(lex_text) && lex_text.text == old(lex_text.text))
      ensures k == Switch(old(LexModel()).state, c) && LexModel() == Lexed(old(LexModel()), c)
      ensures k.token == MORE ==> k.take
    {
      hide Switch, TextValid;
      k := Switch(lex_state, c);
      SwitchOk(lex_state, c);
      KeepText(k.keep, c);
      if k.newline {
        line := line + 1;
      }
      lex_state := k.next;
    }

    /** The text buffer of a case of the switch. */
    method KeepText(keep: Keep, c: Char)
      requires TextValid() && (keep == Append ==> lex_text != null)
      modifies this`lex_text, lex_text, if lex_text != null then {lex_text.text} else {}
      ensures TextValid() && (lex_text == old(lex_text) || fresh(lex_text))
      ensures lex_text != null ==>
          fresh(lex_text.text) || (lex_text == old(lex_text) && lex_text.text == old(lex_text.text))
      ensures LexModel().text == Kept(old(LexModel().text), keep, c)
    {
      match keep
      case Nothing =>
      case Create => lex_text := new RcString(DEFAULT);
      case CreateWith =>
        lex_text := new RcString(DEFAULT);
        lex_text.CatC(c);
        assert [] + [c] == [c];
      case Append => lex_text.CatC(c);
    }

    /** A new node, inserted below the cursor if there is one. It is the last open node now. */
    method NewChild(kind: Kind, text: Text) returns (temp: Node, code: Code)
      requires TreeValid() && (nodes != [] ==> Accepts(cursor.kind, kind, false))
      modifies this`nodes, this`path, this`kids, kids.Keys
      ensures code == OK && Built(nodes, path, kids, val) && fresh(kids.Keys - old(kids.Keys))
      ensures nodes == old(nodes) + [temp] && path == Opened(old(path), kind, text)
    {
      hide Linked, AllFinished, Stacked, Opened, WithOpen;
      ghost var tx := TextsOf(kids.Keys);
      LastOpen(nodes, path, kids, val, tx);
      temp, code := AttachNew(kind, text, cursor, nodes, kids);
      OpenKeys(nodes, kids, temp);
      BuiltByOpening(nodes, path, kids, val, tx, temp);
      nodes, path, kids := nodes + [temp], Opened(path, kind, text), WithOpen(nodes, kids, temp);
    }

    /** The cursor's position is left for good: the node is finished. */
    ghost method Finish()
      requires Built(nodes, path, kids, val) && |nodes| == |path| >= 2
      modifies this`nodes, this`path, this`val
      ensures Built(nodes, path, kids, val) && |nodes| == |path|
      ensures nodes == old(nodes)[..|old(nodes)| - 1] && path == Up(old(path))
    {
      hide LinkedIn, AllFinished, Stacked, Up;
      var n := |nodes|;
      CloseLast(nodes, path, kids, val, TextsOf(kids.Keys));
      nodes, path, val := nodes[..n - 1], Up(path), val[nodes[n - 1] := path[n - 1]];
    }

    /** States 1 and 7: open an object or an array. */
    method OpenContainer() returns (code: Code)
      requires TextValid() && TreeValid() && Opening(state)
      requires cursor != null ==> cursor.kind == STRING || cursor.kind == ARRAY
      modifies this`state, this`cursor, this`nodes, this`path, this`kids, kids.Keys
      ensures code == OK && TextValid() && TreeValid() && fresh(kids.Keys - old(kids.Keys))
      ensures Model() == OpenNode(old(Model()))
    {
      hide Built, Opened;
      var temp;
      temp, code := NewChild(if state == 1 then OBJECT else ARRAY, []);
      cursor := temp;
      state := if state == 1 then 2 else 8;
    }

    /** The lexer's text is handed over. */
    method TakeText() returns (text: Text)
      requires TextValid() && lex_text != null
      modifies this`lex_text
      ensures TextValid() && old(LexModel()).text == Some(text) && LexModel() == old(LexModel()).(text := None)
    {
      text := lex_text.Unwrap();
      lex_text := null;
    }

    /** A label, which becomes the cursor. */
    method AddLabel() returns (code: Code)
      requires TextValid() && TreeValid() && lex_text != null && cursor != null && cursor.kind == OBJECT
      modifies this`state, this`cursor, this`lex_text, this`nodes, this`path, this`kids, kids.Keys
      ensures code == OK && TextValid() && TreeValid() && fresh(kids.Keys - old(kids.Keys))
      ensures Next(Model()) == Label(old(Model()))
      ensures lex_text == null || lex_text == old(lex_text)
    {
      hide Built, Opened;
      var text := TakeText();
      var temp;
      temp, code := NewChild(STRING, text);
      cursor := temp;
      state := 5;
    }

    /** A leaf below the cursor; a label is finished with it, an array goes on. */
    method AddLeaf(kind: Kind) returns (code: Code)
      requires TextValid() && TreeValid() && cursor != null && |nodes| == |path| > 0 &&
          (HasText(kind) ==> lex_text != null)
      requires (state == 6 && cursor.kind == STRING && |path| > 1) || (state == 8 && cursor.kind == ARRAY)
      modifies this`state, this`cursor, this`lex_text, this`nodes, this`path, this`kids, this`val, kids.Keys
      ensures code == OK && TextValid() && TreeValid() && fresh(kids.Keys - old(kids.Keys))
      ensures Next(Model()) == Put(old(Model()), kind)
      ensures lex_text == null || lex_text == old(lex_text)
    {
      hide TreeValid, Built, Up, WithKid, LexModel, TextValid, Put;
      ghost var m := Model();
      var text := LeafText(kind);
      PutKnown(m, kind, text);
      code := InsertLeaf(kind, text);
      LeaveLeaf();
    }

    /** Behind a leaf: a label is finished, an array goes on. */
    method LeaveLeaf()
      requires TextValid() && TreeValid() && |nodes| == |path| > 0 && (state == 6 ==> |path| > 1)
      modifies this`state, this`cursor, this`nodes, this`path, this`val
      ensures TextValid() && TreeValid() && LexModel() == old(LexModel())
      ensures state == (if old(state) == 6 then 3 else 9)
      ensures path == if old(state) == 6 then Up(old(path)) else old(path)
    {
      hide TreeValid, Built, Up, LexModel, TextValid;
      if state == 6 {
        MoveUp();
        state := 3;
      } else {
        state := 9;
      }
    }

    /** The text of a leaf: what the lexer has read, or none. */
    method LeafText(kind: Kind) returns (text: Text)
      requires TextValid() && (HasText(kind) ==> lex_text != null)
      modifies this`lex_text
      ensures TextValid() && (lex_text == null || lex_text == old(lex_text))
      ensures HasText(kind) ==> old(LexModel()).text == Some(text) && LexModel() == old(LexModel()).(text := None)
      ensures !HasText(kind) ==> text == [] && LexModel() == old(LexModel())
    {
      text := [];
      if kind == STRING || kind == NUMBER {
        text := TakeText();
      }
    }

    method InsertLeaf(kind: Kind, text: Text) returns (code: Code)
      requires TreeValid() && cursor != null && |nodes| == |path|
      requires (cursor.kind == STRING || cursor.kind == ARRAY)
      modifies this`nodes, this`path, this`kids, this`val, kids.Keys
      ensures code == OK && TreeValid() && fresh(kids.Keys - old(kids.Keys)) && |nodes| == |path|
      ensures nodes == old(nodes) && path == WithKid(old(path), Leaf(kind, text))
    {
      hide Built;
      var temp;
      temp, code := NewChild(kind, text);
      OpenThenUp(old(path), kind, text);
      Finish();
    }

    /** The cursor goes to its parent. */
    method MoveUp()
      requires TreeValid() && |nodes| == |path| >= 2
      modifies this`cursor, this`nodes, this`path, this`val
      ensures TreeValid() && |nodes| == |path| && path == Up(old(path)) && cursor != null
      ensures forall i :: 0 <= i < |path| ==> path[i].kind == old(path)[i].kind
      ensures cursor.kind == path[|path| - 1].kind && (cursor.parent == null <==> |path| == 1)
    {
      hide Built, Up;
      CursorInPath(nodes, path, kids, val);
      UpKinds(path);
      cursor := cursor.parent;
      Finish();
      CursorInPath(nodes, path, kids, val);
      assert cursor == nodes[|nodes| - 1];
      if |nodes| > 1 {
        assert cursor.parent == nodes[|nodes| - 2];
      } else {
        assert cursor == nodes[0] && cursor.parent == null;
      }
    }

    /** A closing bracket. The results for a bad tree are never returned. */
    method CloseContainer() returns (code: Code)
      requires TextValid() && TreeValid() && cursor != null && |nodes| == |path| > 0
      requires ClosesWell(path)
      modifies this`state, this`cursor, this`nodes, this`path, this`val
      ensures code == OK && TextValid() && TreeValid()
      ensures Next(Model()) == Closed(old(Model()))
    {
      hide Built, Up;
      CursorInPath(nodes, path, kids, val);
      code := OK;
      if |path| == 1 {
        assert cursor == nodes[0];
      } else {
        assert cursor.parent == nodes[|nodes| - 2];
      }
      if cursor.parent == null {
        state := 99;
      } else {
        MoveUp();
        if cursor.kind == STRING {
          if cursor.parent == null {
            return BAD_TREE_STRUCTURE;
          }
          MoveUp();
          if cursor.kind != OBJECT {
            return BAD_TREE_STRUCTURE;
          }
          state := 3;
        } else if cursor.kind == ARRAY {
          state := 9;
        } else {
          return BAD_TREE_STRUCTURE;
        }
      }
    }

    lemma CursorKnown()
      requires TextValid() && TreeValid()
      ensures |nodes| == |path| && (cursor == null <==> path == [])
      ensures path != [] ==> cursor.kind == Last(path).kind
      ensures lex_text != null <==> LexModel().text.Some?
    {
      CursorInPath(nodes, path, kids, val);
    }

    /** The reaction to a token, state by state. */
    method Act(token: Token) returns (code: Code)
      requires TextValid() && TreeValid() && !Opening(state) && CanAct(state, path)
      requires token == TOKEN_STRING || token == TOKEN_NUMBER ==> lex_text != null
      modifies this`state, this`cursor, this`lex_text, this`nodes, this`path, this`kids, this`val, kids.Keys
      ensures TextValid() && TreeValid() && fresh(kids.Keys - old(kids.Keys)) &&
          (lex_text == null || lex_text == old(lex_text))
      ensures code == OK ==> React(old(Model()), token) == Next(Model())
      ensures code != OK ==> React(old(Model()), token) == Fail(code) && Model() == old(Model())
    {
      hide TreeValid, TextValid, LexModel, Label, Put, Closed, ClosesWell, React;
      CursorKnown();
      ReactCases(Model(), token);
      if state == 0 {
        if token == BEGIN_OBJECT {
          state := 1;
          code := OK;
        } else {
          code := MALFORMED_DOCUMENT;
        }
      } else if state == 2 {
        if token == TOKEN_STRING {
          code := AddLabel();
        } else if token == END_OBJECT {
          code := CloseContainer();
        } else {
          code := MALFORMED_DOCUMENT;
        }
      } else if state == 3 {
        if token == VALUE_SEPARATOR {
          state := 4;
          code := OK;
        } else if token == END_OBJECT {
          code := CloseContainer();
        } else {
          code := MALFORMED_DOCUMENT;
        }
      } else if state == 4 {
        if token == TOKEN_STRING {
          code := AddLabel();
        } else if token == INVALID_CHARACTER {
          code := ILLEGAL_CHARACTER;
        } else {
          code := MALFORMED_DOCUMENT;
        }
      } else if state == 5 {
        if token == NAME_SEPARATOR {
          state := 6;
          code := OK;
        } else {
          code := MALFORMED_DOCUMENT;
        }
      } else if state == 6 || state == 8 {
        code := ActOnValue(token);
      } else if state == 9 {
        if token == VALUE_SEPARATOR {
          state := 8;
          code := OK;
        } else if token == END_ARRAY {
          code := CloseContainer();
        } else {
          code := MALFORMED_DOCUMENT;
        }
      } else {
        code := MALFORMED_DOCUMENT;
      }
    }

    /** States 6 and 8: a value of a label or of an array. */
    method ActOnValue(token: Token) returns (code: Code)
      requires TextValid() && TreeValid() && (state == 6 || state == 8) && CanAct(state, path)
      requires token == TOKEN_STRING || token == TOKEN_NUMBER ==> lex_text != null
      modifies this`state, this`cursor, this`lex_text, this`nodes, this`path, this`kids, this`val, kids.Keys
      ensures TextValid() && TreeValid() && fresh(kids.Keys - old(kids.Keys)) &&
          (lex_text == null || lex_text == old(lex_text))
      ensures code == OK ==> React(old(Model()), token) == Next(Model())
      ensures code != OK ==> React(old(Model()), token) == Fail(code) && Model() == old(Model())
    {
      hide TreeValid, TextValid, LexModel, Put, Closed, ClosesWell, React;
      CursorKnown();
      ReactCases(Model(), token);
      if token == TOKEN_STRING {
        code := AddLeaf(STRING);
      } else if token == TOKEN_NUMBER {
        code := AddLeaf(NUMBER);
      } else if token == TOKEN_TRUE {
        code := AddLeaf(TRUE);
      } else if token == TOKEN_FALSE {
        code := AddLeaf(FALSE);
      } else if token == TOKEN_NULL {
        code := AddLeaf(NULL);
      } else if token == BEGIN_OBJECT {
        state := 1;
        code := OK;
      } else if token == BEGIN_ARRAY {
        state := 7;
        code := OK;
      } else if state == 8 && token == END_ARRAY {
        code := CloseContainer();
      } else if token == INVALID_CHARACTER {
        code := ILLEGAL_CHARACTER;
      } else {
        code := MALFORMED_DOCUMENT;
      }
    }

    /**
     json_parse_fragment. The call does what the abstract builder does, and returns its code, so
     no sanity check fails and the results for a bad tree are never returned.
     */
    method ParseFragment(buffer: Text) returns (code: Code)
      requires Valid()
      modifies this, lex_text, if lex_text != null then {lex_text.text} else {}, kids.Keys
      ensures Valid() && fresh(kids.Keys - old(kids.Keys))
      ensures lex_text == old(lex_text) || lex_text == null || fresh(lex_text)
      ensures lex_text != null ==>
          fresh(lex_text.text) || (lex_text == old(lex_text) && lex_text.text == old(lex_text.text))
      ensures Model() == Fragment(old(Model()), buffer).m && code == FragmentCode(old(Model()), buffer)
      ensures code != BAD_TREE_STRUCTURE && code != UNKNOWN_PROBLEM
    {
      hide TreeValid, TextValid, LexModel, LexFrom, React, BuilderOk, Rest, CanAct, OpenNode;
      ghost var m := Model();
      RestAtEnd(m, buffer);
      var p := 0;
      while p < |buffer|
        invariant p <= |buffer| && Valid() && fresh(kids.Keys - old(kids.Keys))
        invariant lex_text == old(lex_text) || lex_text == null || fresh(lex_text)
        invariant lex_text != null ==>
            fresh(lex_text.text) || (lex_text == old(lex_text) && lex_text.text == old(lex_text.text))
        invariant state == 0 ==> p == 0
        invariant Ready(Model()) && Rest(Model(), buffer, p) == Rest(m, buffer, 0)
        decreases |buffer| - p, Rank(Model())
      {
        if state == 1 || state == 7 {
          RestByOpening(Model(), buffer, p);
          CursorKnown();
          code := OpenContainer();
        } else {
          var done;
          done, code, p := ReadToken(buffer, p);
          if done {
            return;
          }
        }
      }
      RestAtEnd(Model(), buffer);
      code := if state == 99 then WAITING_FOR_EOF else INCOMPLETE_DOCUMENT;
    }

    /** One token and the reaction to it; done if the call ends here. */
    method ReadToken(buffer: Text, p: nat) returns (done: bool, code: Code, at: nat)
      requires Valid() && !Opening(state) && p < |buffer|
      modifies this, lex_text, if lex_text != null then {lex_text.text} else {}, kids.Keys
      ensures Valid() && fresh(kids.Keys - old(kids.Keys)) && p <= at <= |buffer|
      ensures lex_text == old(lex_text) || lex_text == null || fresh(lex_text)
      ensures lex_text != null ==>
          fresh(lex_text.text) || (lex_text == old(lex_text) && lex_text.text == old(lex_text.text))
      ensures Ready(old(Model())) && Ready(Model())
      ensures done ==>
          Model() == Rest(old(Model()), buffer, p).m && code == CodeOf(Rest(old(Model()), buffer, p), buffer)
      ensures done ==> code != BAD_TREE_STRUCTURE && code != UNKNOWN_PROBLEM
      ensures !done ==> state != 0 && Rest(old(Model()), buffer, p) == Rest(Model(), buffer, at)
      ensures !done ==> at > p || Rank(Model()) < Rank(old(Model()))
    {
      hide TreeValid, TextValid, LexModel, LexFrom, React, BuilderOk, Rest, CanAct, OpenNode;
      RestByToken(Model(), buffer, p);
      var token;
      token, at := RunLexer(buffer, p);
      OkReady(Model());
      if token == MORE {
        return true, (if state == 0 then MALFORMED_DOCUMENT else if state == 99 then WAITING_FOR_EOF
            else INCOMPLETE_DOCUMENT), at;
      }
      OkCanAct(Model());
      CursorKnown();
      code := Act(token);
      done := code != OK;
    }
  }

  /** What putting a leaf comes to in states 6 and 8. */
  lemma PutKnown(m: Builder, kind: Kind, text: Text)
    requires (m.state == 6 && |m.path| > 1) || (m.state == 8 && m.path != [])
    requires HasText(kind) ==> m.lex.text == Some(text)
    requires !HasText(kind) ==> text == []
    ensures var path := WithKid(m.path, Leaf(kind, text));
      Put(m, kind) == Next(Builder(if m.state == 8 then 9 else 3,
                                   if HasText(kind) then m.lex.(text := None) else m.lex,
                                   if m.state == 8 then path else Up(path)))
    ensures |WithKid(m.path, Leaf(kind, text))| == |m.path|
  {
  }

  lemma OkReady(m: Builder)
    requires BuilderOk(m)
    ensures Ready(m)
  {
  }

  lemma ReactCases(m: Builder, token: Token)
    requires m.state != 0 ==> m.path != []
    requires token == TOKEN_STRING || token == TOKEN_NUMBER ==> m.lex.text.Some?
    ensures var a := ActionOf(m.state, token);
            && (a.Enter? ==> React(m, token) == Goto(m, a.state, m.path))
            && (a.Refuse? ==> React(m, token) == Fail(a.code))
            && (a == CloseNode ==> React(m, token) == Closed(m))
            && (a == OpenLabel ==> React(m, token) == Label(m))
            && (a.PutLeaf? ==> React(m, token) == Put(m, a.kind))
  {
  }

  /** Above a container is an array, or a label of an object. */
  predicate ClosesWell(path: seq<Tree>) {
    var n := |path|;
    n > 1 ==> path[n - 2].kind == ARRAY || (path[n - 2].kind == STRING && n > 2 && path[n - 3].kind == OBJECT)
  }

  lemma UpKinds(path: seq<Tree>)
    requires |path| >= 2
    ensures forall i :: 0 <= i < |path| - 1 ==> Up(path)[i].kind == path[i].kind
  {
  }

  lemma OpenThenUp(path: seq<Tree>, kind: Kind, text: Text)
    requires |path| > 0
    ensures |Opened(path, kind, text)| >= 2 && Up(Opened(path, kind, text)) == WithKid(path, Leaf(kind, text))
  {
    assert Opened(path, kind, text)[..|path|] == path;
  }

  /** What the builder invariant says about the cursor and the nodes above it. */
  predicate CanAct(state: nat, path: seq<Tree>) {
    && (state != 0 ==> path != [])
    && (state == 2 || state == 3 || state == 4 ==> Last(path).kind == OBJECT)
    && (state == 5 || state == 6 ==> Last(path).kind == STRING && |path| > 1)
    && (state == 8 || state == 9 ==> Last(path).kind == ARRAY)
    && (state == 2 || state == 3 || state == 8 || state == 9 ==> ClosesWell(path))
  }

  lemma OkCanAct(m: Builder)
    requires BuilderOk(m) && !Opening(m.state)
    ensures CanAct(m.state, m.path)
  {
    hide Open, TextOk;
    var n := |m.path|;
    if n > 1 {
      assert Holds(m.path[n - 2], m.path[n - 2 + 1]);
      if n > 2 {
        assert Holds(m.path[n - 3], m.path[n - 3 + 1]);
      }
    }
  }

  /** The open nodes are the path: same kinds, linked by parent pointers. */
  lemma CursorInPath(nodes: seq<Node>, path: seq<Tree>, kids: Kids, val: Values)
    requires Built(nodes, path, kids, val)
    ensures |nodes| == |path|
    ensures forall i :: 0 <= i < |nodes| ==> nodes[i] in kids && nodes[i].kind == path[i].kind
    ensures nodes != [] ==> nodes[0].parent == null
    ensures forall i :: 0 < i < |nodes| ==> nodes[i].parent == nodes[i - 1]
  {
    var h, tx := PointersOf(kids.Keys), TextsOf(kids.Keys);
    hide LinkedIn;
    forall i | 0 <= i < |nodes|
      ensures nodes[i] in kids && nodes[i].kind == path[i].kind
    {
      assert OpenAt(nodes, path, kids, val, tx, i);
    }
    forall i | 0 < i < |nodes|
      ensures nodes[i].parent == nodes[i - 1]
    {
      assert OpenAt(nodes, path, kids, val, tx, i - 1);
      ChildrenOf(h, kids, nodes[i - 1]);
      assert At(h, nodes[i]).parent == nodes[i - 1];
    }
  }

  lemma OpenKeys(nodes: seq<Node>, kids: Kids, c: Node)
    requires nodes != [] ==> nodes[|nodes| - 1] in kids
    ensures WithOpen(nodes, kids, c).Keys == kids.Keys + {c}
  {
  }

  /** The tree with the new node, when no other text has changed. */
  lemma BuiltByOpening(nodes: seq<Node>, path: seq<Tree>, kids: Kids, val: Values, tx: Texts, c: Node)
    requires AllFinished(kids, val, tx) && Stacked(nodes, path, kids, val, tx) && tx.Keys == kids.Keys && c !in kids
    requires nodes != [] ==> nodes[|nodes| - 1] in kids
    requires Linked(WithOpen(nodes, kids, c)) && forall n :: n in kids ==> n.text == tx[n]
    requires c.parent == (if nodes == [] then null else nodes[|nodes| - 1]) && OneRoot(nodes, kids)
    requires nodes != [] ==> nodes[0].parent == null
    ensures Built(nodes + [c], Opened(path, c.kind, c.text), WithOpen(nodes, kids, c), val)
  {
    hide Linked, AllFinished, Stacked, Opened, WithOpen;
    OpenKeys(nodes, kids, c);
    var kids' := WithOpen(nodes, kids, c);
    var tx' := TextsOf(kids'.Keys);
    TextsKept(tx, tx', kids, kids');
    OpensFinished(nodes, path, kids, val, tx, c, tx');
    OpensStacked(nodes, path, kids, val, tx, c, tx');
  }

  lemma TextsKept(tx: Texts, tx': Texts, kids: Kids, kids': Kids)
    requires kids.Keys == tx.Keys && kids'.Keys == tx'.Keys && kids.Keys <= kids'.Keys
    requires forall n :: n in tx ==> tx'[n] == tx[n]
    ensures forall n :: n in kids ==> TextAt(tx', n) == TextAt(tx, n)
  {
  }

  /** A new node with its text, and its insertion below the cursor. */
  method AttachNew(kind: Kind, text: Text, cursor: Node?, ghost nodes: seq<Node>, ghost kids: Kids)
      returns (temp: Node, code: Code)
    requires Linked(kids) && cursor == (if nodes == [] then null else nodes[|nodes| - 1])
    requires cursor != null ==> cursor in kids && Accepts(cursor.kind, kind, false)
    modifies kids.Keys
    ensures code == OK && fresh(temp) && temp.kind == kind && temp.text == text
    ensures Linked(WithOpen(nodes, kids, temp))
    ensures forall n :: n in kids ==> n.text == old(n.text) && n.parent == old(n.parent)
    ensures temp.parent == cursor
  {
    hide LinkedIn, Accepts;
    if cursor != null {
      ChildrenOf(PointersOf(kids.Keys), kids, cursor);
    }
    temp := NewNode(kind, text, kids);
    code := OK;
    if cursor != null {
      ghost var kids1 := kids[temp := []];
      assert kids1[cursor] == kids[cursor];
      code := InsertChild(cursor, temp, kids1);
      assert WithOpen(nodes, kids, temp) == kids1[cursor := kids1[cursor] + [temp]];
    }
  }

  /** A new node with its text, in no list. */
  method NewNode(kind: Kind, text: Text, ghost kids: Kids) returns (temp: Node)
    requires Linked(kids)
    ensures fresh(temp) && temp.kind == kind && temp.text == text && temp.parent == null && temp.child == null
    ensures Linked(kids[temp := []])
  {
    hide LinkedIn;
    ghost var h := PointersOf(kids.Keys);
    temp := new Node(kind);
    temp.text := text;
    FreshLinked(h, kids, temp);
    ghost var kids1 := kids[temp := []];
    assert PointersOf(kids1.Keys) == h[temp := Links(null, null, null, null, null)];
  }

  lemma LastOpen(nodes: seq<Node>, path: seq<Tree>, kids: Kids, val: Values, tx: Texts)
    requires Stacked(nodes, path, kids, val, tx)
    ensures |nodes| == |path|
    ensures nodes != [] ==> nodes[|nodes| - 1] in kids && nodes[|nodes| - 1].kind == path[|path| - 1].kind
  {
    if nodes != [] {
      assert OpenAt(nodes, path, kids, val, tx, |nodes| - 1);
    }
  }

  /** json_parse_document. On success the nodes under the root stand for the parsed tree. */
  method ParseDocument(text: Text) returns (code: Code, root: Node?, ghost kids: Kids, ghost val: Values)
    ensures code == OK <==> Document(text).Some?
    ensures code == OK ==>
        root != null && root.parent == null && Linked(kids) && AllFinished(kids, val, TextsOf(kids.Keys))
    ensures code == OK ==> root in val && Some(val[root]) == Document(text) && fresh(kids.Keys)
    ensures code == OK ==> val.Keys == kids.Keys && OneRoot([root], kids)
    ensures code != OK ==> code == FragmentCode(START, text) && root == null
  {
    hide Linked, AllFinished, Stacked, BuilderOk;
    WaitingIsDone(text);
    var info := new ParsingInfo();
    var error := info.ParseFragment(text);
    kids, val := info.kids, info.val;
    if error == WAITING_FOR_EOF || error == OK {
      LastOpen(info.nodes, info.path, kids, val, TextsOf(kids.Keys));
      CloseRoot(info.nodes, info.path, kids, val, TextsOf(kids.Keys));
      val := val[info.nodes[0] := info.path[0]];
      return OK, info.cursor, kids, val;
    } else {
      return error, null, kids, val;
    }
  }
}
