/** json_tree_to_string: a walk over the linked nodes without recursion. */
module JsonPrinter {
  import opened Options
  import opened JsonTree
  import opened JsonLexer
  import opened JsonBuilder
  import opened JsonPrint
  import opened JsonHeap
  import opened JsonStack
  import opened RcStrings

  /** Twice the nodes of a tree: each is opened and closed once. */
  function Weight(t: Tree): (w: nat)
    ensures w >= 2
    decreases t, 1, 0
  {
    2 + WeightFrom(t, 0)
  }

  function WeightFrom(t: Tree, i: nat): nat
    requires i <= |t.kids|
    decreases t, 0, |t.kids| - i
  {
    if i == |t.kids| then 0 else Weight(t.kids[i]) + WeightFrom(t, i + 1)
  }

  /** A node on the way from the root to the cursor, and the child that the way takes. */
  datatype Frame = Frame(node: Node, at: nat)

  ghost predicate FrameOk(kids: Kids, val: Values, f: Frame) {
    && f.node in val && f.node in kids && f.at < |kids[f.node]|
    && (f.node.kind == OBJECT || f.node.kind == ARRAY || f.node.kind == STRING)
  }

  ghost predicate Way(kids: Kids, val: Values, root: Node, w: seq<Frame>) {
    && (forall i :: 0 <= i < |w| ==> FrameOk(kids, val, w[i]))
    && (forall i :: 0 < i < |w| ==> w[i].node == kids[w[i - 1].node][w[i - 1].at])
    && (w != [] ==> w[0].node == root)
  }

  ghost function End(kids: Kids, val: Values, root: Node, w: seq<Frame>): Node
    requires Way(kids, val, root, w)
  {
    if w == [] then root else kids[w[|w| - 1].node][w[|w| - 1].at]
  }

  function Closer(kind: Kind): Text { if kind == OBJECT then "}" else if kind == ARRAY then "]" else "" }

  /** The text that follows once the end of the way is closed. */
  ghost function After(val: Values, w: seq<Frame>): Option<Text>
    requires forall i :: 0 <= i < |w| ==> w[i].node in val && w[i].at < |val[w[i].node].kids|
  {
    if w == [] then Some("")
    else
      var f := w[|w| - 1];
      Both(Both(PrintKids(val[f.node], f.at + 1), Some(Closer(val[f.node].kind))), After(val, w[..|w| - 1]))
  }

  ghost function WeightAfter(val: Values, w: seq<Frame>): nat
    requires forall i :: 0 <= i < |w| ==> w[i].node in val && w[i].at < |val[w[i].node].kids|
  {
    if w == [] then 0
    else
      var f := w[|w| - 1];
      WeightFrom(val[f.node], f.at + 1) + 1 + WeightAfter(val, w[..|w| - 1])
  }

  ghost predicate InTree(val: Values, w: seq<Frame>) {
    forall i :: 0 <= i < |w| ==> w[i].node in val && w[i].at < |val[w[i].node].kids|
  }

  lemma WayInTree(kids: Kids, val: Values, tx: Texts, root: Node, w: seq<Frame>)
    requires AllFinished(kids, val, tx) && Way(kids, val, root, w) && root in val
    ensures InTree(val, w) && End(kids, val, root, w) in val
  {
    forall i | 0 <= i < |w|
      ensures w[i].node in val && w[i].at < |val[w[i].node].kids|
    {
      assert FrameOk(kids, val, w[i]);
      assert Finished(w[i].node, kids, val, tx);
    }
    if w != [] {
      var f := w[|w| - 1];
      assert FrameOk(kids, val, f);
      assert Finished(f.node, kids, val, tx);
      assert kids[f.node][f.at] in kids[f.node];
    }
  }

  /** A tree weighs more than its child. */
  lemma KidLighter(t: Tree, i: nat, k: nat)
    requires i <= k < |t.kids|
    ensures Weight(t.kids[k]) <= WeightFrom(t, i)
    decreases k - i
  {
    if i < k {
      KidLighter(t, i + 1, k);
    }
  }

  lemma WayUp(kids: Kids, val: Values, root: Node, w: seq<Frame>)
    requires Way(kids, val, root, w) && w != []
    ensures Way(kids, val, root, w[..|w| - 1]) && End(kids, val, root, w[..|w| - 1]) == w[|w| - 1].node
  {
    var v := w[..|w| - 1];
    forall i | 0 < i < |v|
      ensures v[i].node == kids[v[i - 1].node][v[i - 1].at]
    {
      assert w[i].node == kids[w[i - 1].node][w[i - 1].at];
    }
  }

  lemma WayDown(kids: Kids, val: Values, root: Node, w: seq<Frame>, f: Frame)
    requires Way(kids, val, root, w) && FrameOk(kids, val, f) && f.node == End(kids, val, root, w)
    ensures Way(kids, val, root, w + [f]) && End(kids, val, root, w + [f]) == kids[f.node][f.at]
  {
    var v := w + [f];
    forall i | 0 < i < |v|
      ensures v[i].node == kids[v[i - 1].node][v[i - 1].at]
    {
      if i < |w| {
        assert w[i].node == kids[w[i - 1].node][w[i - 1].at];
      }
    }
  }

  /** The end of a way is not its start. */
  lemma {:induction false} EndIsLighter(kids: Kids, val: Values, tx: Texts, root: Node, w: seq<Frame>)
    requires AllFinished(kids, val, tx) && Way(kids, val, root, w) && root in val
    ensures End(kids, val, root, w) in val
    ensures w != [] ==> Weight(val[End(kids, val, root, w)]) < Weight(val[root])
    decreases |w|
  {
    WayInTree(kids, val, tx, root, w);
    if w != [] {
      var n := |w|;
      var v := w[..n - 1];
      WayUp(kids, val, root, w);
      EndIsLighter(kids, val, tx, root, v);
      var f := w[n - 1];
      assert FrameOk(kids, val, f);
      assert Finished(f.node, kids, val, tx);
      KidLighter(val[f.node], 0, f.at);
    }
  }

  /** Both with a text that has been written. */
  lemma Written(a: Text, b: Text, rest: Option<Text>)
    ensures Both(Some(a + b), rest) == Both(Some(a), Both(Some(b), rest))
  {
    BothAssociates(Some(a), Some(b), rest);
  }

  predicate HasKids(kind: Kind) { kind == OBJECT || kind == ARRAY || kind == STRING }

  /** What is written before the children. */
  function Head(t: Tree, parent: Option<Kind>): Option<Text> {
    match t.kind
    case STRING =>
      if !IsLabel(parent) then Some(Quoted(t.text))
      else if t.kids == [] then None
      else Some(Quoted(t.text) + ":")
    case NUMBER => Some(t.text)
    case OBJECT => Some("{")
    case ARRAY => Some("[")
    case TRUE => Some("true")
    case FALSE => Some("false")
    case NULL => Some("null")
  }

  lemma PrintByHead(t: Tree, parent: Option<Kind>)
    ensures Print(t, parent) ==
            if HasKids(t.kind) then Both(Both(Head(t, parent), PrintKids(t, 0)), Some(Closer(t.kind)))
                else Head(t, parent)
  {
    var p := PrintKids(t, 0);
    if t.kind == STRING && p.Some? && Head(t, parent).Some? {
      var h := Head(t, parent).value;
      assert h + p.value + "" == h + p.value;
    }
  }

  ghost function KindAbove(root: Node, w: seq<Frame>): Option<Kind>
    reads root
  {
    if w != [] then Some(w[|w| - 1].node.kind)
    else if root.parent == null then None
    else Some(root.parent.kind)
  }

  ghost function Comma(w: seq<Frame>): Text { if w != [] && w[|w| - 1].at > 0 then "," else "" }

  /** What is still to be written before the end of the way is opened, and before it is closed. */
  ghost function ToOpen(val: Values, t: Tree, above: Option<Kind>, w: seq<Frame>): Option<Text>
    requires InTree(val, w)
  {
    Both(Both(Some(Comma(w)), Print(t, above)), After(val, w))
  }

  ghost function ToClose(val: Values, t: Tree, w: seq<Frame>): Option<Text>
    requires InTree(val, w)
  {
    Both(Some(Closer(t.kind)), After(val, w))
  }

  /** A node without children that are written: its head, then it is closed. */
  lemma OpenOnly(val: Values, t: Tree, above: Option<Kind>, w: seq<Frame>)
    requires InTree(val, w) && Head(t, above).Some? && (HasKids(t.kind) ==> t.kids == [])
    ensures ToOpen(val, t, above, w) == Both(Some(Comma(w) + Head(t, above).value), ToClose(val, t, w))
  {
    PrintByHead(t, above);
    var h, c := Head(t, above).value, Comma(w);
    var none: Text := "";
    assert h + none == h;
    if HasKids(t.kind) {
      assert PrintKids(t, 0) == Some("");
      assert Print(t, above) == Some(h + Closer(t.kind));
    } else {
      assert Print(t, above) == Some(h + Closer(t.kind));
    }
    hide Print, PrintKids, Head, After;
    assert c + (h + Closer(t.kind)) == c + h + Closer(t.kind);
    Written(c + h, Closer(t.kind), After(val, w));
  }

  /** A node with children: its head, then its first child is opened. */
  lemma OpenDown(val: Values, t: Tree, above: Option<Kind>, w: seq<Frame>, n: Node)
    requires InTree(val, w) && Head(t, above).Some? && HasKids(t.kind) && t.kids != [] && n in val && val[n] == t
    ensures InTree(val, w + [Frame(n, 0)])
    ensures WeightAfter(val, w + [Frame(n, 0)]) + Weight(t.kids[0]) < WeightAfter(val, w) + Weight(t)
    ensures ToOpen(val, t, above, w) ==
            Both(Some(Comma(w) + Head(t, above).value), ToOpen(val, t.kids[0], Some(t.kind), w + [Frame(n, 0)]))
  {
    PrintByHead(t, above);
    var h, c := Head(t, above), Some(Comma(w));
    var kid, more, closer, after := Print(t.kids[0], Some(t.kind)), PrintKids(t, 1), Some(Closer(t.kind)),
        After(val, w);
    assert PrintKids(t, 0) == Both(Both(Some(""), kid), more);
    var v := w + [Frame(n, 0)];
    assert v[..|v| - 1] == w;
    assert After(val, v) == Both(Both(more, closer), after);
    hide Print, PrintKids, Head, After;
    var k := Both(Some(""), kid);
    BothAssociates(h, Both(k, more), closer);
    BothAssociates(k, more, closer);
    BothAssociates(h, k, Both(more, closer));
    BothAssociates(c, Both(h, k), Both(more, closer));
    BothAssociates(c, h, k);
    BothAssociates(Both(c, h), k, Both(more, closer));
    BothAssociates(Both(c, h), Both(k, Both(more, closer)), after);
    BothAssociates(k, Both(more, closer), after);
  }

  /** A closed node with a next sibling: the sibling is opened. */
  lemma CloseNext(val: Values, t: Tree, w: seq<Frame>)
    requires InTree(val, w) && w != []
    requires var f := w[|w| - 1]; f.at + 1 < |val[f.node].kids|
    ensures var f := w[|w| - 1];
            var v := w[..|w| - 1] + [Frame(f.node, f.at + 1)];
            && InTree(val, v) && ToClose(val, t, w) == Both(Some(Closer(t.kind)),
                ToOpen(val, val[f.node].kids[f.at + 1], Some(val[f.node].kind), v))
            && WeightAfter(val, v) + Weight(val[f.node].kids[f.at + 1]) <= WeightAfter(val, w)
  {
    var f := w[|w| - 1];
    var p := val[f.node];
    var v := w[..|w| - 1] + [Frame(f.node, f.at + 1)];
    assert v[..|v| - 1] == w[..|w| - 1];
    var kid, more, closer, after := Print(p.kids[f.at + 1], Some(p.kind)), PrintKids(p, f.at + 2),
        Some(Closer(p.kind)), After(val, w[..|w| - 1]);
    assert PrintKids(p, f.at + 1) == Both(Both(Some(","), kid), more);
    assert After(val, w) == Both(Both(Both(Both(Some(","), kid), more), closer), after);
    assert After(val, v) == Both(Both(more, closer), after);
    hide Print, PrintKids, After;
    var k := Both(Some(","), kid);
    BothAssociates(k, more, closer);
    BothAssociates(k, Both(more, closer), after);
  }

  /** The last child closed: its parent is closed. */
  lemma CloseUp(val: Values, t: Tree, w: seq<Frame>)
    requires InTree(val, w) && w != []
    requires var f := w[|w| - 1]; f.at + 1 == |val[f.node].kids|
    ensures InTree(val, w[..|w| - 1]) && ToClose(val, t, w) ==
        Both(Some(Closer(t.kind)), ToClose(val, val[w[|w| - 1].node], w[..|w| - 1]))
    ensures WeightAfter(val, w[..|w| - 1]) < WeightAfter(val, w)
  {
    var f := w[|w| - 1];
    var p := val[f.node];
    var closer, after := Some(Closer(p.kind)), After(val, w[..|w| - 1]);
    assert PrintKids(p, f.at + 1) == Some("");
    var none: Text := "";
    assert none + Closer(p.kind) == Closer(p.kind);
    assert After(val, w) == Both(Both(Some(""), closer), after);
  }

  /** What the pointers at the end of a way say. */
  lemma NodeHere(kids: Kids, val: Values, c: Node)
    requires Linked(kids) && AllFinished(kids, val, TextsOf(kids.Keys)) && c in val
    ensures c in kids && val[c].kind == c.kind && val[c].text == c.text && |val[c].kids| == |kids[c]|
    ensures forall i :: 0 <= i < |kids[c]| ==> kids[c][i] in val && val[c].kids[i] == val[kids[c][i]]
    ensures c.child == null <==> kids[c] == []
    ensures kids[c] != [] ==> c.child == kids[c][0]
  {
    hide LinkedIn;
    var h, tx := PointersOf(kids.Keys), TextsOf(kids.Keys);
    assert Finished(c, kids, val, tx);
    ChildrenOf(h, kids, c);
    assert h[c].child == c.child && tx[c] == c.text;
    hide PointersOf, TextsOf, AllFinished;
    assert forall i :: 0 <= i < |kids[c]| ==> kids[c][i] in kids[c];
  }

  lemma KidHere(kids: Kids, n: Node, i: nat)
    requires Linked(kids) && n in kids && i < |kids[n]|
    ensures kids[n][i] in kids && kids[n][i].parent == n
    ensures kids[n][i].previous == null <==> i == 0
    ensures i + 1 == |kids[n]| ==> kids[n][i].next == null
    ensures i + 1 < |kids[n]| ==> kids[n][i].next == kids[n][i + 1]
  {
    var h := PointersOf(kids.Keys);
    ChildrenOf(h, kids, n);
    var k := kids[n][i];
    assert k in kids[n];
    assert At(h, k) == Links(k.parent, k.previous, k.next, k.child, k.child_end);
    InList(h, n, kids[n], i);
    hide LinkedIn, LinkedAt;
  }

  /** Writes the head of a node. */
  method WriteHead(output: RcString, cursor: Node, ghost t: Tree) returns (ok: bool)
    requires output.Valid() && t.kind == cursor.kind && t.text == cursor.text &&
        (t.kids == [] <==> cursor.child == null)
    modifies output, output.text
    ensures output.Valid() && (output.text == old(output.text) || fresh(output.text))
    ensures var above := if cursor.parent == null then None else Some(cursor.parent.kind);
            if ok then Head(t, above).Some? && output.Contents() == old(output.Contents()) + Head(t, above).value
            else Head(t, above) == None
  {
    ok := true;
    match cursor.kind
    case STRING => ok := WriteString(output, cursor, t);
    case NUMBER => output.CatCs(cursor.text);
    case OBJECT => output.CatC('{');
    case ARRAY => output.CatC('[');
    case TRUE => output.CatCs("true");
    case FALSE => output.CatCs("false");
    case NULL => output.CatCs("null");
  }

  /** A string, and the colon if it is a label. */
  method WriteString(output: RcString, cursor: Node, ghost t: Tree) returns (ok: bool)
    requires output.Valid() && cursor.kind == STRING
    requires t.kind == cursor.kind && t.text == cursor.text && (t.kids == [] <==> cursor.child == null)
    modifies output, output.text
    ensures output.Valid() && (output.text == old(output.text) || fresh(output.text))
    ensures var above := if cursor.parent == null then None else Some(cursor.parent.kind);
            if ok then Head(t, above).Some? && output.Contents() == old(output.Contents()) + Head(t, above).value
            else Head(t, above) == None
  {
    ghost var before := output.Contents();
    ok := true;
    output.CatC('"');
    output.CatCs(cursor.text);
    output.CatC('"');
    assert output.Contents() == before + Quoted(t.text);
    if cursor.parent == null || cursor.parent.kind == OBJECT {
      if cursor.child == null {
        return false;
      }
      output.CatC(':');
      assert before + Quoted(t.text) + ":" == before + (Quoted(t.text) + ":");
    }
  }

  /** The comma and the head of a node. */
  ghost function Opening(t: Tree, above: Option<Kind>, w: seq<Frame>): Text
    requires Head(t, above).Some?
  {
    Comma(w) + Head(t, above).value
  }

  method WriteOpening(output: RcString, cursor: Node, root: Node, ghost t: Tree, ghost w: seq<Frame>) returns (ok: bool)
    requires output.Valid() && t.kind == cursor.kind && t.text == cursor.text &&
        (t.kids == [] <==> cursor.child == null)
    requires cursor == root <==> w == []
    requires w != [] ==> cursor.parent == w[|w| - 1].node && (cursor.previous == null <==> w[|w| - 1].at == 0)
    modifies output, output.text
    ensures output.Valid() && (output.text == old(output.text) || fresh(output.text))
    ensures var above := KindAbove(root, w);
            if ok then Head(t, above).Some? && output.Contents() == old(output.Contents()) + Opening(t, above, w)
            else Head(t, above) == None
  {
    hide Head;
    ghost var before := output.Contents();
    if cursor.previous != null && cursor != root {
      output.CatC(',');
    }
    assert output.Contents() == before + Comma(w);
    ok := WriteHead(output, cursor, t);
    if ok {
      ghost var h := Head(t, KindAbove(root, w)).value;
      assert before + Comma(w) + h == before + (Comma(w) + h);
    }
  }

  method WriteCloser(output: RcString, kind: Kind)
    requires output.Valid()
    modifies output, output.text
    ensures output.Valid() && (output.text == old(output.text) || fresh(output.text))
    ensures output.Contents() == old(output.Contents()) + Closer(kind)
  {
    if kind == OBJECT {
      output.CatC('}');
    } else if kind == ARRAY {
      output.CatC(']');
    } else {
      assert output.Contents() + "" == output.Contents();
    }
  }

  /** What is still to be written at a node, before it is opened or before it is closed. */
  ghost function Rest(val: Values, cursor: Node, opening: bool, root: Node, w: seq<Frame>): Option<Text>
    requires InTree(val, w) && cursor in val
    reads root
  {
    if opening then ToOpen(val, val[cursor], KindAbove(root, w), w) else ToClose(val, val[cursor], w)
  }

  /** A node whose head is written: its first child is opened next, or it is closed. */
  method Enter(cursor: Node, root: Node, ghost kids: Kids, ghost val: Values, ghost w: seq<Frame>)
    returns (next: Node, opening: bool, ghost v: seq<Frame>)
    requires Linked(kids) && AllFinished(kids, val, TextsOf(kids.Keys)) && root in val
    requires Way(kids, val, root, w) && cursor == End(kids, val, root, w) && cursor in val && InTree(val, w)
    requires Head(val[cursor], KindAbove(root, w)).Some?
    ensures Way(kids, val, root, v) && next == End(kids, val, root, v) && next in val && InTree(val, v)
    ensures Rest(val, cursor, true, root, w) ==
        Both(Some(Opening(val[cursor], KindAbove(root, w), w)), Rest(val, next, opening, root, v))
    ensures WeightAfter(val, v) + (if opening then Weight(val[next]) else 1) < WeightAfter(val, w) + Weight(val[cursor])
  {
    hide Linked, AllFinished, After, ToOpen, ToClose, Head, Comma, Way, WeightAfter;
    ghost var t := val[cursor];
    NodeHere(kids, val, cursor);
    if HasKids(cursor.kind) && cursor.child != null {
      ghost var f := Frame(cursor, 0);
      OpenDown(val, t, KindAbove(root, w), w, cursor);
      WayDown(kids, val, root, w, f);
      next, opening, v := cursor.child, true, w + [f];
    } else {
      OpenOnly(val, t, KindAbove(root, w), w);
      next, opening, v := cursor, false, w;
    }
  }

  /** A closed node below the root: its sibling is opened next, or its parent is closed. */
  method Leave(cursor: Node, root: Node, ghost kids: Kids, ghost val: Values, ghost w: seq<Frame>)
    returns (next: Node, opening: bool, ghost v: seq<Frame>)
    requires Linked(kids) && AllFinished(kids, val, TextsOf(kids.Keys)) && root in val
    requires Way(kids, val, root, w) && cursor == End(kids, val, root, w) && cursor in val && InTree(val, w) && w != []
    ensures Way(kids, val, root, v) && next == End(kids, val, root, v) && next in val && InTree(val, v)
    ensures Rest(val, cursor, false, root, w) == Both(Some(Closer(val[cursor].kind)), Rest(val, next, opening, root, v))
    ensures WeightAfter(val, v) + (if opening then Weight(val[next]) else 1) < WeightAfter(val, w) + 1
  {
    hide Linked, AllFinished, After, ToOpen, ToClose, Closer, Weight, WeightAfter;
    EndHere(kids, val, root, w);
    ghost var t := val[cursor];
    ghost var above := w[..|w| - 1];
    WayUp(kids, val, root, w);
    if cursor.next != null {
      ghost var f := Frame(w[|w| - 1].node, w[|w| - 1].at + 1);
      CloseNext(val, t, w);
      WayDown(kids, val, root, above, f);
      next, opening, v := cursor.next, true, above + [f];
    } else {
      CloseUp(val, t, w);
      next, opening, v := cursor.parent, false, above;
    }
  }

  /**
   json_tree_to_string: for any finished node the text of its tree, or the bad-tree code exactly
   when a label in it has no value.
   */
  method TreeToString(root: Node, ghost kids: Kids, ghost val: Values) returns (code: Code, text: Text)
    requires Linked(kids) && AllFinished(kids, val, TextsOf(kids.Keys)) && root in val
    ensures var p := Print(val[root], if root.parent == null then None else Some(root.parent.kind));
            if p.Some? then code == OK && text == p.value else code == BAD_TREE_STRUCTURE
  {
    hide Linked, AllFinished, Way, End, Rest, Head, Opening, Closer, Print, Weight, WeightAfter;
    text := "";
    var cursor := root;
    var output := new RcString(DEFAULT);
    var opening := true;
    ghost var w: seq<Frame> := [];
    ghost var goal := Print(val[root], KindAbove(root, []));
    StartHere(kids, val, root);
    while true
      invariant fresh(output) && fresh(output.text) && output.Valid()
      invariant Way(kids, val, root, w) && cursor == End(kids, val, root, w) && cursor in val && InTree(val, w)
      invariant Both(Some(output.Contents()), Rest(val, cursor, opening, root, w)) == goal
      decreases WeightAfter(val, w) + if opening then Weight(val[cursor]) else 1
    {
      ghost var t, before, v := val[cursor], output.Contents(), w;
      NodeHere(kids, val, cursor);
      EndHere(kids, val, root, w);
      if opening {
        var ok := WriteOpening(output, cursor, root, t, w);
        if !ok {
          NoHead(val, cursor, root, w);
          return BAD_TREE_STRUCTURE, "";
        }
        ghost var head := Opening(t, KindAbove(root, w), w);
        cursor, opening, v := Enter(cursor, root, kids, val, w);
        Written(before, head, Rest(val, cursor, opening, root, v));
      } else {
        WriteCloser(output, cursor.kind);
        if cursor.parent == null || cursor == root {
          LastClose(val, cursor, root, before);
          break;
        }
        cursor, opening, v := Leave(cursor, root, kids, val, w);
        Written(before, Closer(t.kind), Rest(val, cursor, opening, root, v));
      }
      w := v;
    }
    text := output.Unwrap();
    code := OK;
  }

  /** What the pointers say at the end of a way, which is the root only if the way is empty. */
  lemma EndHere(kids: Kids, val: Values, root: Node, w: seq<Frame>)
    requires Linked(kids) && AllFinished(kids, val, TextsOf(kids.Keys)) && root in val && Way(kids, val, root, w)
    ensures var c := End(kids, val, root, w);
            && (c == root <==> w == [])
            && (w != [] ==>
                  var f := w[|w| - 1];
                  && FrameOk(kids, val, f) && c.parent == f.node && f.node in val && val[f.node].kind == f.node.kind
                  && |val[f.node].kids| == |kids[f.node]| && val[f.node].kids[f.at] == val[c]
                  && (c.previous == null <==> f.at == 0)
                  && (c.next == null <==> f.at + 1 == |kids[f.node]|)
                  && (c.next != null ==>
                      f.at + 1 < |kids[f.node]| && c.next == kids[f.node][f.at + 1] &&
                      c.next in val && val[f.node].kids[f.at + 1] == val[c.next]))
  {
    hide LinkedIn, AllFinished;
    EndIsLighter(kids, val, TextsOf(kids.Keys), root, w);
    if w != [] {
      var f := w[|w| - 1];
      assert FrameOk(kids, val, f);
      NodeHere(kids, val, f.node);
      KidHere(kids, f.node, f.at);
    }
  }

  lemma LastClose(val: Values, cursor: Node, root: Node, before: Text)
    requires cursor in val
    ensures Both(Some(before), Rest(val, cursor, false, root, [])) == Some(before + Closer(val[cursor].kind))
  {
    var none: Text := "";
    assert Closer(val[cursor].kind) + none == Closer(val[cursor].kind);
  }

  lemma NoHead(val: Values, cursor: Node, root: Node, w: seq<Frame>)
    requires InTree(val, w) && cursor in val && Head(val[cursor], KindAbove(root, w)) == None
    ensures Rest(val, cursor, true, root, w) == None
  {
    PrintByHead(val[cursor], KindAbove(root, w));
  }

  lemma StartHere(kids: Kids, val: Values, root: Node)
    requires root in val
    ensures Way(kids, val, root, []) && End(kids, val, root, []) == root && InTree(val, [])
    ensures Both(Some(""), Rest(val, root, true, root, [])) == Print(val[root], KindAbove(root, []))
  {
    var above := KindAbove(root, []);
    var p := Print(val[root], above);
    if p.Some? {
      assert "" + ("" + p.value + "") == p.value;
    }
  }
}
