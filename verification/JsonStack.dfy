/** The partial tree in the heap: finished nodes stand for trees, open nodes form the path to the cursor. */
module JsonStack {
  import opened JsonTree
  import opened JsonLexer
  import opened JsonBuilder
  import opened JsonHeap

  type Texts = map<Node, Text>

  ghost function TextsOf(nodes: set<Node>): Texts
    reads nodes
  {
    map n | n in nodes :: n.text
  }

  ghost function TextAt(tx: Texts, n: Node): Text { if n in tx then tx[n] else [] }

  /** A finished node stands for the tree of its kind, its text and its finished children. */
  ghost predicate Finished(n: Node, kids: Kids, val: Values, tx: Texts) {
    && n in val && n in kids && (forall k :: k in kids[n] ==> k in val)
    && val[n] == Tree(n.kind, TextAt(tx, n), ValuesOf(val, kids[n]))
  }

  ghost predicate AllFinished(kids: Kids, val: Values, tx: Texts) {
    forall n :: n in val ==> Finished(n, kids, val, tx)
  }

  /** The children of an open node that are finished: all but the one that is open itself. */
  ghost function DoneKids(nodes: seq<Node>, kids: Kids, i: nat): seq<Node>
    requires i < |nodes| && nodes[i] in kids
  {
    var ks := kids[nodes[i]];
    if i < |nodes| - 1 && ks != [] then ks[..|ks| - 1] else ks
  }

  /** An open node agrees with its place in the path. */
  ghost predicate OpenAt(nodes: seq<Node>, path: seq<Tree>, kids: Kids, val: Values, tx: Texts, i: nat)
    requires i < |nodes| == |path|
  {
    && nodes[i] in kids && nodes[i] !in val
    && (i < |nodes| - 1 ==> kids[nodes[i]] != [] && kids[nodes[i]][|kids[nodes[i]]| - 1] == nodes[i + 1])
    && (forall k :: k in DoneKids(nodes, kids, i) ==> k in val)
    && path[i] == Tree(nodes[i].kind, TextAt(tx, nodes[i]), ValuesOf(val, DoneKids(nodes, kids, i)))
  }

  ghost predicate Stacked(nodes: seq<Node>, path: seq<Tree>, kids: Kids, val: Values, tx: Texts) {
    && |nodes| == |path|
    && kids.Keys == val.Keys + (set n | n in nodes)
    && (forall i :: 0 <= i < |nodes| ==> OpenAt(nodes, path, kids, val, tx, i))
    && (forall i, j :: 0 <= i < j < |nodes| ==> nodes[i] != nodes[j])
  }

  /** Only the first open node has no parent. */
  ghost predicate OneRoot(nodes: seq<Node>, kids: Kids)
    reads kids.Keys
  {
    forall n :: n in kids && n.parent == null ==> nodes != [] && n == nodes[0]
  }

  ghost predicate Built(nodes: seq<Node>, path: seq<Tree>, kids: Kids, val: Values)
    reads kids.Keys
  {
    && Linked(kids)
    && AllFinished(kids, val, TextsOf(kids.Keys))
    && Stacked(nodes, path, kids, val, TextsOf(kids.Keys))
    && (nodes != [] ==> nodes[0].parent == null) && OneRoot(nodes, kids)
  }

  /** The child lists after the fresh node c was opened below the last open node, or as the root. */
  ghost function WithOpen(nodes: seq<Node>, kids: Kids, c: Node): Kids
    requires nodes != [] ==> nodes[|nodes| - 1] in kids
  {
    if nodes == [] then kids[c := []]
    else var cur := nodes[|nodes| - 1]; kids[c := []][cur := kids[cur] + [c]]
  }

  lemma OpensFinished(nodes: seq<Node>, path: seq<Tree>, kids: Kids, val: Values, tx: Texts, c: Node, tx': Texts)
    requires AllFinished(kids, val, tx) && Stacked(nodes, path, kids, val, tx) && c !in kids
    requires forall n :: n in kids ==> TextAt(tx', n) == TextAt(tx, n)
    ensures nodes != [] ==> nodes[|nodes| - 1] in kids
    ensures AllFinished(WithOpen(nodes, kids, c), val, tx')
  {
    assert nodes != [] ==> OpenAt(nodes, path, kids, val, tx, |nodes| - 1);
    var kids' := WithOpen(nodes, kids, c);
    forall n | n in val
      ensures Finished(n, kids', val, tx')
    {
      assert Finished(n, kids, val, tx);
      assert kids'[n] == kids[n];
    }
  }

  lemma OpensStacked(nodes: seq<Node>, path: seq<Tree>, kids: Kids, val: Values, tx: Texts, c: Node, tx': Texts)
    requires Stacked(nodes, path, kids, val, tx) && c !in kids
    requires forall n :: n in kids ==> TextAt(tx', n) == TextAt(tx, n)
    ensures nodes != [] ==> nodes[|nodes| - 1] in kids
    ensures Stacked(nodes + [c], Opened(path, c.kind, TextAt(tx', c)), WithOpen(nodes, kids, c), val, tx')
  {
    var n := |nodes|;
    OpenKnown(nodes, path, kids, val, tx);
    var nodes', path', kids' := nodes + [c], Opened(path, c.kind, TextAt(tx', c)), WithOpen(nodes, kids, c);
    assert c !in val;
    hide TextAt;
    forall i | 0 <= i < n + 1
      ensures OpenAt(nodes', path', kids', val, tx', i)
    {
      if i == n {
        OpenNew(nodes', path', kids', val, tx', n);
      } else {
        OpenAgain(nodes, path, kids, val, tx, c, tx', i);
      }
    }
    hide OpenAt;
  }

  lemma OpenKnown(nodes: seq<Node>, path: seq<Tree>, kids: Kids, val: Values, tx: Texts)
    requires Stacked(nodes, path, kids, val, tx)
    ensures forall i :: 0 <= i < |nodes| ==> nodes[i] in kids && nodes[i] !in val
  {
    forall i | 0 <= i < |nodes|
      ensures nodes[i] in kids && nodes[i] !in val
    {
      assert OpenAt(nodes, path, kids, val, tx, i);
    }
  }

  lemma OpenNew(nodes: seq<Node>, path: seq<Tree>, kids: Kids, val: Values, tx: Texts, n: nat)
    requires |nodes| == |path| == n + 1 && nodes[n] in kids && nodes[n] !in val && kids[nodes[n]] == []
    requires path[n] == Leaf(nodes[n].kind, TextAt(tx, nodes[n]))
    ensures OpenAt(nodes, path, kids, val, tx, n)
  {
    assert DoneKids(nodes, kids, n) == [];
  }

  lemma OpenAgain(nodes: seq<Node>, path: seq<Tree>, kids: Kids, val: Values, tx: Texts, c: Node, tx': Texts, i: nat)
    requires |nodes| == |path| && i < |nodes| && OpenAt(nodes, path, kids, val, tx, i) && c !in kids && c !in nodes
    requires forall n :: n in kids ==> TextAt(tx', n) == TextAt(tx, n)
    requires nodes[|nodes| - 1] in kids && (i < |nodes| - 1 ==> nodes[i] != nodes[|nodes| - 1])
    ensures OpenAt(nodes + [c], Opened(path, c.kind, TextAt(tx', c)), WithOpen(nodes, kids, c), val, tx', i)
  {
    hide TextAt;
    assert DoneKids(nodes + [c], WithOpen(nodes, kids, c), i) == DoneKids(nodes, kids, i);
  }

  /** The last open node is finished. */
  lemma CloseLast(nodes: seq<Node>, path: seq<Tree>, kids: Kids, val: Values, tx: Texts)
    requires AllFinished(kids, val, tx) && Stacked(nodes, path, kids, val, tx) && |nodes| >= 2
    ensures var n := |nodes|;
            var val' := val[nodes[n - 1] := path[n - 1]];
            AllFinished(kids, val', tx) && Stacked(nodes[..n - 1], Up(path), kids, val', tx)
  {
    hide OpenAt, Finished, Up;
    var n := |nodes|;
    var c := nodes[n - 1];
    var val' := val[c := path[n - 1]];
    OpenKnown(nodes, path, kids, val, tx);
    forall x | x in val'
      ensures Finished(x, kids, val', tx)
    {
      if x == c {
        FinishedNow(nodes, path, kids, val, tx);
      } else {
        StillFinished(x, kids, val, tx, c, path[n - 1]);
      }
    }
    var nodes', path' := nodes[..n - 1], Up(path);
    forall i | 0 <= i < n - 1
      ensures OpenAt(nodes', path', kids, val', tx, i)
    {
      StillOpen(nodes, path, kids, val, tx, i);
    }
  }

  lemma FinishedNow(nodes: seq<Node>, path: seq<Tree>, kids: Kids, val: Values, tx: Texts)
    requires nodes != [] && |nodes| == |path| && OpenAt(nodes, path, kids, val, tx, |nodes| - 1)
    ensures var n := |nodes| - 1; Finished(nodes[n], kids, val[nodes[n] := path[n]], tx)
  {
    var n := |nodes| - 1;
    assert DoneKids(nodes, kids, n) == kids[nodes[n]];
    SameValues(val, val[nodes[n] := path[n]], kids[nodes[n]]);
  }

  lemma StillFinished(x: Node, kids: Kids, val: Values, tx: Texts, c: Node, t: Tree)
    requires Finished(x, kids, val, tx) && x != c && c !in val
    ensures Finished(x, kids, val[c := t], tx)
  {
    SameValues(val, val[c := t], kids[x]);
  }

  lemma StillOpen(nodes: seq<Node>, path: seq<Tree>, kids: Kids, val: Values, tx: Texts, i: nat)
    requires |nodes| == |path| && i < |nodes| - 1 && OpenAt(nodes, path, kids, val, tx, i)
    requires var c := nodes[|nodes| - 1]; c !in val && c != nodes[i]
    ensures OpenAt(nodes[..|nodes| - 1], Up(path), kids, val[nodes[|nodes| - 1] := path[|nodes| - 1]], tx, i)
  {
    var n := |nodes|;
    var c := nodes[n - 1];
    var val' := val[c := path[n - 1]];
    var done := DoneKids(nodes, kids, i);
    SameValues(val, val', done);
    if i == n - 2 {
      assert DoneKids(nodes[..n - 1], kids, i) == done + [c];
      assert ValuesOf(val', done + [c]) == ValuesOf(val', done) + [path[n - 1]];
    } else {
      assert DoneKids(nodes[..n - 1], kids, i) == done;
    }
  }

  lemma SameValues(val: Values, val': Values, ks: seq<Node>)
    requires forall k :: k in ks ==> k in val && k in val' && val[k] == val'[k]
    ensures ValuesOf(val, ks) == ValuesOf(val', ks)
  {
  }

  /** The root is finished. */
  lemma CloseRoot(nodes: seq<Node>, path: seq<Tree>, kids: Kids, val: Values, tx: Texts)
    requires AllFinished(kids, val, tx) && Stacked(nodes, path, kids, val, tx) && |nodes| == 1
    ensures AllFinished(kids, val[nodes[0] := path[0]], tx) && val[nodes[0] := path[0]].Keys == kids.Keys
  {
    var c := nodes[0];
    var val' := val[c := path[0]];
    assert OpenAt(nodes, path, kids, val, tx, 0);
    forall x | x in val'
      ensures Finished(x, kids, val', tx)
    {
      if x == c {
        assert DoneKids(nodes, kids, 0) == kids[c];
        SameValues(val, val', kids[c]);
      } else {
        assert Finished(x, kids, val, tx);
        SameValues(val, val', kids[x]);
      }
    }
  }
}
