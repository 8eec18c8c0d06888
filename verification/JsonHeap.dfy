/**
 The linked nodes. `kids` is the abstract child list of every node in use; `val` is the tree that
 a node stands for.
 */
module JsonHeap {
  import opened JsonTree
  import opened JsonLexer
  import opened JsonBuilder

  class Node {
    const kind: Kind
    var text: Text
    var next: Node?
    var previous: Node?
    var parent: Node?
    var child: Node?
    var child_end: Node?

    /** json_new_value. */
    constructor (kind: Kind)
      ensures this.kind == kind && text == [] && next == previous == parent == child == child_end == null
    {
      this.kind := kind;
      text := [];
      next, previous, parent, child, child_end := null, null, null, null, null;
    }
  }

  type Kids = map<Node, seq<Node>>
  type Values = map<Node, Tree>

  /** The five pointers of a node. */
  datatype Links = Links(parent: Node?, previous: Node?, next: Node?, child: Node?, last: Node?)
  type Pointers = map<Node, Links>

  ghost function PointersOf(nodes: set<Node>): (h: Pointers)
    reads nodes
  {
    map n | n in nodes :: Links(n.parent, n.previous, n.next, n.child, n.child_end)
  }

  ghost function At(h: Pointers, n: Node): Links {
    if n in h then h[n] else Links(null, null, null, null, null)
  }

  /** The pointers of n and of its children agree with its child list. */
  ghost predicate LinkedAt(h: Pointers, n: Node, ks: seq<Node>) {
    && At(h, n).child == (if ks == [] then null else ks[0])
    && At(h, n).last == (if ks == [] then null else ks[|ks| - 1])
    && (forall i :: 0 <= i < |ks| ==> At(h, ks[i]).parent == n)
    && (ks != [] ==> At(h, ks[0]).previous == null && At(h, ks[|ks| - 1]).next == null)
    && (forall i :: 0 < i < |ks| ==> At(h, ks[i]).previous == ks[i - 1])
    && (forall i :: 0 <= i < |ks| - 1 ==> At(h, ks[i]).next == ks[i + 1])
    && (forall i, j :: 0 <= i < j < |ks| ==> ks[i] != ks[j])
  }

  /** Every list is linked, and every node is in its parent's list. A node without a parent has no siblings. */
  ghost predicate LinkedIn(h: Pointers, kids: Kids) {
    && (forall n :: n in kids ==> forall k :: k in kids[n] ==> k in kids)
    && (forall n :: n in kids ==> LinkedAt(h, n, kids[n]))
    && (forall n :: n in kids && At(h, n).parent != null ==> At(h, n).parent in kids && n in kids[At(h, n).parent])
    && (forall n :: n in kids && At(h, n).parent == null ==> At(h, n).previous == null && At(h, n).next == null)
  }

  ghost predicate Linked(kids: Kids)
    reads kids.Keys
  {
    LinkedIn(PointersOf(kids.Keys), kids)
  }

  /** The trees of some nodes, in order. */
  ghost function ValuesOf(val: Values, ks: seq<Node>): seq<Tree>
    requires forall k :: k in ks ==> k in val
  {
    seq(|ks|, i requires 0 <= i < |ks| => val[ks[i]])
  }

  /**
   The type rules of json_insert_child. Below an object stands a label; a leaf below an array or a
   label has no child.
   */
  predicate Accepts(outer: Kind, inner: Kind, hasChild: bool) {
    if outer == OBJECT then inner == STRING
    else (outer == STRING || outer == ARRAY) && (inner == OBJECT || inner == ARRAY || !hasChild)
  }

  /** The pointers after child has been put at the end of parent's list. */
  ghost function Inserted(h: Pointers, parent: Node, child: Node): Pointers {
    map n | n in h ::
      Links(if n == child then parent else h[n].parent,
            if n == child then At(h, parent).last else h[n].previous,
            if n == At(h, parent).last then child else h[n].next,
            if n == parent && h[n].child == null then child else h[n].child,
            if n == parent then child else h[n].last)
  }

  lemma InsertedLinked(h: Pointers, kids: Kids, parent: Node, child: Node)
    requires LinkedIn(h, kids) && h.Keys == kids.Keys && parent in kids && child in kids && parent != child
    requires h[child].parent == null
    ensures LinkedIn(Inserted(h, parent, child), kids[parent := kids[parent] + [child]])
  {
    hide LinkedAt;
    var h', kids' := Inserted(h, parent, child), kids[parent := kids[parent] + [child]];
    RootAlone(h, kids, child);
    ChildrenOf(h, kids, parent);
    var last := At(h, parent).last;
    assert last != null ==> last in kids[parent] && At(h, last).parent == parent;
    forall n | n in kids'
      ensures LinkedAt(h', n, kids'[n])
    {
      if n == parent {
        assert LinkedAt(h, n, kids[n]);
        ChildNowhere(h, kids, child, n);
        InsertedHere(h, h', parent, child, kids[parent]);
      } else {
        assert LinkedAt(h, n, kids[n]);
        ChildrenOf(h, kids, n);
        ChildNowhere(h, kids, child, n);
        assert forall k :: k in kids[n] ==> k != last && k != child;
        SameList(h, h', n, kids[n]);
      }
    }
  }

  lemma RootAlone(h: Pointers, kids: Kids, n: Node)
    requires LinkedIn(h, kids) && n in kids && At(h, n).parent == null
    ensures At(h, n).previous == null && At(h, n).next == null
  {
  }

  lemma ChildNowhere(h: Pointers, kids: Kids, child: Node, n: Node)
    requires LinkedIn(h, kids) && n in kids && At(h, child).parent == null
    ensures child !in kids[n]
  {
    ChildrenOf(h, kids, n);
  }

  lemma InsertedHere(h: Pointers, h': Pointers, parent: Node, child: Node, ks: seq<Node>)
    requires LinkedAt(h, parent, ks) && child !in ks
    requires At(h', parent).child == if At(h, parent).child == null then child else At(h, parent).child
    requires At(h', parent).last == child && At(h', child).parent == parent
    requires At(h', child).previous == At(h, parent).last && At(h', child).next == null
    requires forall k :: k in ks ==> At(h', k).parent == parent && At(h', k).previous == At(h, k).previous
    requires forall k :: k in ks ==> At(h', k).next == if k == At(h, parent).last then child else At(h, k).next
    ensures LinkedAt(h', parent, ks + [child])
  {
  }

  lemma SameList(h: Pointers, h': Pointers, n: Node, ks: seq<Node>)
    requires LinkedAt(h, n, ks) && At(h', n).child == At(h, n).child && At(h', n).last == At(h, n).last
    requires forall k :: k in ks ==>
        At(h', k).parent == At(h, k).parent && At(h', k).previous == At(h, k).previous &&
        At(h', k).next == At(h, k).next
    ensures LinkedAt(h', n, ks)
  {
  }

  /** json_insert_child. */
  method InsertChild(parent: Node, child: Node, ghost kids: Kids) returns (code: Code)
    requires Linked(kids) && parent in kids && child in kids && parent != child
    requires child.parent == null
    modifies child`parent, child`previous, parent`child, parent`child_end, kids[parent]`next
    ensures code == if Accepts(parent.kind, child.kind, old(child.child) != null) then OK else BAD_TREE_STRUCTURE
    ensures code == OK ==> Linked(kids[parent := kids[parent] + [child]]) && child.parent == parent
    ensures code != OK ==> Linked(kids)
  {
    hide Linked;
    var refused := true;
    if parent.kind == STRING || parent.kind == ARRAY {
      refused := child.kind != OBJECT && child.kind != ARRAY && child.child != null;
    } else if parent.kind == OBJECT {
      refused := child.kind != STRING;
    }
    if refused {
      return BAD_TREE_STRUCTURE;
    }
    AppendChild(parent, child, kids);
    code := OK;
  }

  /** The child becomes the last of its parent's list. */
  method AppendChild(parent: Node, child: Node, ghost kids: Kids)
    requires Linked(kids) && parent in kids && child in kids && parent != child
    requires child.parent == null
    modifies child`parent, child`previous, parent`child, parent`child_end, kids[parent]`next
    ensures Linked(kids[parent := kids[parent] + [child]]) && child.parent == parent
  {
    hide LinkedIn, LinkedAt;
    ghost var h := PointersOf(kids.Keys);
    ChildrenOf(h, kids, parent);
    RootAlone(h, kids, child);
    InsertedLinked(h, kids, parent, child);
    child.parent := parent;
    if parent.child != null {
      child.previous := parent.child_end;
      parent.child_end.next := child;
      parent.child_end := child;
    } else {
      parent.child := child;
      parent.child_end := child;
    }
    ghost var kids' := kids[parent := kids[parent] + [child]];
    assert PointersOf(kids'.Keys) == Inserted(h, parent, child);
  }

  lemma ChildrenOf(h: Pointers, kids: Kids, n: Node)
    requires LinkedIn(h, kids) && n in kids
    ensures At(h, n).last == if kids[n] == [] then null else kids[n][|kids[n]| - 1]
    ensures At(h, n).child == if kids[n] == [] then null else kids[n][0]
    ensures forall k :: k in kids[n] ==> k in kids && At(h, k).parent == n
  {
    assert LinkedAt(h, n, kids[n]);
  }

  /** A fresh node is a root. */
  lemma FreshLinked(h: Pointers, kids: Kids, c: Node)
    requires LinkedIn(h, kids) && h.Keys == kids.Keys && c !in kids
    ensures LinkedIn(h[c := Links(null, null, null, null, null)], kids[c := []])
  {
    var h', kids' := h[c := Links(null, null, null, null, null)], kids[c := []];
    hide LinkedAt;
    assert LinkedAt(h', c, []) by {
      NoChildren(h', c);
    }
    forall n | n in kids'
      ensures LinkedAt(h', n, kids'[n])
    {
      if n != c {
        ChildrenOf(h, kids, n);
        SameList(h, h', n, kids[n]);
      }
    }
  }

  lemma NoChildren(h: Pointers, n: Node)
    requires At(h, n) == Links(null, null, null, null, null)
    ensures LinkedAt(h, n, [])
  {
  }

  /** The pointers of one child. */
  lemma InList(h: Pointers, n: Node, ks: seq<Node>, i: nat)
    requires LinkedAt(h, n, ks) && i < |ks|
    ensures i == 0 ==> At(h, ks[i]).previous == null
    ensures i > 0 ==> At(h, ks[i]).previous == ks[i - 1]
    ensures i + 1 == |ks| ==> At(h, ks[i]).next == null
    ensures i + 1 < |ks| ==> At(h, ks[i]).next == ks[i + 1]
  {
  }
}
