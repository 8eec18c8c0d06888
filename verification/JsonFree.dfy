/** json_free_value: the nodes of a subtree are freed one by one, always the first leaf. */
module JsonFree {
  import opened JsonTree
  import opened JsonHeap
  import opened JsonStack
  import opened JsonPrinter

  /** A measure that shows the child lists to be trees. */
  type Ranks = map<Node, nat>

  ghost predicate Ranked(kids: Kids, rank: Ranks) {
    forall n :: n in rank ==> n in kids && forall k :: k in kids[n] ==> k in rank && rank[k] < rank[n]
  }

  ghost predicate Below(rank: Ranks, ks: seq<Node>, b: nat) { forall k :: k in ks ==> k in rank && rank[k] < b }

  /** The nodes under n, children before their parents. */
  ghost function PostOrder(kids: Kids, rank: Ranks, n: Node): seq<Node>
    requires Ranked(kids, rank) && n in rank
    decreases rank[n], 1, 0
  {
    PostList(kids, rank, kids[n], rank[n]) + [n]
  }

  ghost function PostList(kids: Kids, rank: Ranks, ks: seq<Node>, b: nat): seq<Node>
    requires Ranked(kids, rank) && Below(rank, ks, b)
    decreases b, 0, |ks|
  {
    if ks == [] then [] else PostOrder(kids, rank, ks[0]) + PostList(kids, rank, ks[1..], b)
  }

  /** ks without v. */
  ghost function Without(ks: seq<Node>, v: Node): (r: seq<Node>)
    ensures forall k :: k in r ==> k in ks
  {
    if ks == [] then []
    else if ks[0] == v then ks[1..]
    else [ks[0]] + Without(ks[1..], v)
  }

  ghost function Removed(h: Pointers, kids: Kids, v: Node): Kids {
    map n | n in kids && n != v :: if n == At(h, v).parent then Without(kids[n], v) else kids[n]
  }

  /** The pointers after v has been taken out. */
  ghost function Unlinked(h: Pointers, v: Node): Pointers {
    map n | n in h && n != v ::
      Links(h[n].parent,
            if n == At(h, v).next then At(h, v).previous else h[n].previous,
            if n == At(h, v).previous then At(h, v).next else h[n].next,
            if n == At(h, v).parent && h[n].child == v then At(h, v).next else h[n].child,
            if n == At(h, v).parent && h[n].last == v then At(h, v).previous else h[n].last)
  }

  lemma {:induction false} WithoutAt(ks: seq<Node>, i: nat)
    requires i < |ks| && forall p, q :: 0 <= p < q < |ks| ==> ks[p] != ks[q]
    ensures Without(ks, ks[i]) == ks[..i] + ks[i + 1..]
  {
    if i > 0 {
      WithoutAt(ks[1..], i - 1);
      assert ks[1..][..i - 1] == ks[1..i] && ks[1..][i..] == ks[i + 1..];
      assert [ks[0]] + ks[1..i] == ks[..i];
    }
  }

  /** The list that loses v stays linked. */
  lemma UnlinkedHere(h: Pointers, h': Pointers, p: Node, ks: seq<Node>, i: nat)
    requires LinkedAt(h, p, ks) && i < |ks| && h' == Unlinked(h, ks[i]) && p in h && p != ks[i]
    requires forall k :: k in ks ==> k in h
    ensures LinkedAt(h', p, ks[..i] + ks[i + 1..])
  {
    var v := ks[i];
    var r := ks[..i] + ks[i + 1..];
    assert At(h, v).parent == p;
    var n := |r|;
    forall j | 0 <= j < n
      ensures r[j] == ks[if j < i then j else j + 1] && r[j] != v && r[j] in h && At(h', r[j]).parent == p
    {
    }
    InList(h, p, ks, i);
    forall j | 0 <= j < n
      ensures j == 0 ==> At(h', r[j]).previous == null
      ensures j > 0 ==> At(h', r[j]).previous == r[j - 1]
      ensures j == n - 1 ==> At(h', r[j]).next == null
      ensures j < n - 1 ==> At(h', r[j]).next == r[j + 1]
    {
      InList(h, p, ks, if j < i then j else j + 1);
    }
  }

  lemma UnlinkedThere(h: Pointers, kids: Kids, v: Node, n: Node)
    requires LinkedIn(h, kids) && h.Keys == kids.Keys && v in kids && n in kids && n != v && n != At(h, v).parent
    ensures LinkedAt(Unlinked(h, v), n, kids[n])
  {
    hide LinkedAt;
    ChildrenOf(h, kids, n);
    var h' := Unlinked(h, v);
    Siblings(h, kids, v);
    forall k | k in kids[n]
      ensures At(h', k).parent == At(h, k).parent && At(h', k).previous == At(h, k).previous &&
          At(h', k).next == At(h, k).next
    {
    }
    assert LinkedAt(h, n, kids[n]);
    SameList(h, h', n, kids[n]);
  }

  /** The siblings of v have its parent. */
  lemma Siblings(h: Pointers, kids: Kids, v: Node)
    requires LinkedIn(h, kids) && v in kids
    ensures At(h, v).parent == null ==> At(h, v).previous == null && At(h, v).next == null
    ensures At(h, v).previous != null ==>
        At(h, v).previous in kids && At(h, At(h, v).previous).parent == At(h, v).parent
    ensures At(h, v).next != null ==> At(h, v).next in kids && At(h, At(h, v).next).parent == At(h, v).parent
  {
    var p := At(h, v).parent;
    if p != null {
      assert LinkedAt(h, p, kids[p]);
      var i :| 0 <= i < |kids[p]| && kids[p][i] == v;
      assert i > 0 ==> kids[p][i - 1] in kids[p];
      assert i + 1 < |kids[p]| ==> kids[p][i + 1] in kids[p];
    }
  }

  lemma RemovedLinked(h: Pointers, kids: Kids, v: Node)
    requires LinkedIn(h, kids) && h.Keys == kids.Keys && v in kids && kids[v] == []
    ensures LinkedIn(Unlinked(h, v), Removed(h, kids, v))
  {
    hide LinkedAt;
    var h', kids' := Unlinked(h, v), Removed(h, kids, v);
    Siblings(h, kids, v);
    var p := At(h, v).parent;
    forall n | n in kids'
      ensures LinkedAt(h', n, kids'[n]) && forall k :: k in kids'[n] ==> k in kids'
    {
      ChildrenOf(h, kids, n);
      if n == p {
        ParentList(h, kids, v);
      } else {
        UnlinkedThere(h, kids, v, n);
      }
    }
    forall n | n in kids' && At(h', n).parent != null
      ensures At(h', n).parent in kids' && n in kids'[At(h', n).parent]
    {
      var q := At(h, n).parent;
      assert n in kids[q];
      if q == p {
        StillIn(kids[q], v, n);
      }
    }
  }

  lemma {:induction false} StillIn(ks: seq<Node>, v: Node, n: Node)
    requires n in ks && n != v
    ensures n in Without(ks, v)
  {
    if ks[0] != v && ks[0] != n {
      StillIn(ks[1..], v, n);
    }
  }

  lemma ParentList(h: Pointers, kids: Kids, v: Node)
    requires LinkedIn(h, kids) && h.Keys == kids.Keys && v in kids && At(h, v).parent != null && At(h, v).parent != v
    ensures var p := At(h, v).parent;
            p in kids && LinkedAt(Unlinked(h, v), p, Without(kids[p], v)) && v !in Without(kids[p], v)
  {
    var p := At(h, v).parent;
    assert v in kids[p] && LinkedAt(h, p, kids[p]);
    var i :| 0 <= i < |kids[p]| && kids[p][i] == v;
    WithoutAt(kids[p], i);
    UnlinkedHere(h, Unlinked(h, v), p, kids[p], i);
    hide LinkedIn;
  }

  /** intern_json_free_value: a node without children leaves its list and is freed. */
  method InternFree(value: Node, ghost kids: Kids)
    requires Linked(kids) && value in kids && kids[value] == []
    modifies kids.Keys
    ensures forall n :: n in kids ==> n.text == old(n.text) && n.parent == old(n.parent)
    ensures Linked(Removed(old(PointersOf(kids.Keys)), kids, value))
  {
    hide LinkedIn, LinkedAt, Unlinked, Removed;
    ghost var h := PointersOf(kids.Keys);
    Siblings(h, kids, value);
    RemovedLinked(h, kids, value);
    LeafAlone(h, kids, value);
    UnlinkSiblings(value, kids);
    UnlinkParent(value, kids);
    UnlinkedNow(h, kids, value);
  }

  /** The heap after the pointers were changed. */
  lemma UnlinkedNow(h: Pointers, kids: Kids, v: Node)
    requires h.Keys == kids.Keys && v in kids
    requires forall n :: n in kids ==> n.parent == h[n].parent
    requires forall n :: n in kids ==> n.next == if n == h[v].previous then h[v].next else h[n].next
    requires forall n :: n in kids ==> n.previous == if n == h[v].next then h[v].previous else h[n].previous
    requires forall n :: n in kids ==> n.child == if n == h[v].parent && h[n].child == v then h[v].next else h[n].child
    requires forall n :: n in kids ==> n.child_end == if n == h[v].parent && h[n].last == v then h[v].previous
        else h[n].last
    ensures PointersOf(Removed(h, kids, v).Keys) == Unlinked(h, v)
  {
  }

  method UnlinkSiblings(value: Node, ghost kids: Kids)
    requires (value.previous != null ==> value.previous in kids) && (value.next != null ==> value.next in kids)
    requires value.previous != value && value.next != value && (value.previous != null ==> value.previous != value.next)
    modifies kids.Keys`next, kids.Keys`previous
    ensures value.next == old(value.next) && value.previous == old(value.previous)
    ensures forall n :: n in kids ==> n.next == if n == value.previous then value.next else old(n.next)
    ensures forall n :: n in kids ==> n.previous == if n == value.next then value.previous else old(n.previous)
  {
    if value.previous != null && value.next != null {
      value.previous.next := value.next;
      value.next.previous := value.previous;
    } else {
      if value.previous != null {
        value.previous.next := null;
      }
      if value.next != null {
        value.next.previous := null;
      }
    }
  }

  method UnlinkParent(value: Node, ghost kids: Kids)
    requires value.parent != null ==> value.parent in kids
    modifies kids.Keys`child, kids.Keys`child_end
    ensures forall n :: n in kids ==>
        n.child == if n == value.parent && old(n.child) == value then value.next else old(n.child)
    ensures forall n :: n in kids ==>
        n.child_end == if n == value.parent && old(n.child_end) == value then value.previous else old(n.child_end)
  {
    if value.parent != null {
      if value.parent.child == value {
        value.parent.child := value.next;
      }
      if value.parent.child_end == value {
        value.parent.child_end := value.previous;
      }
    }
  }

  lemma LeafAlone(h: Pointers, kids: Kids, v: Node)
    requires LinkedIn(h, kids) && h.Keys == kids.Keys && v in kids && kids[v] == []
    ensures At(h, v).previous != v && At(h, v).next != v && At(h, v).parent != v
    ensures At(h, v).previous != null ==> At(h, v).previous != At(h, v).next
    ensures At(h, v).parent != null ==> At(h, v).parent in kids
  {
    var p := At(h, v).parent;
    if p != null {
      assert v in kids[p] && LinkedAt(h, p, kids[p]);
      var i :| 0 <= i < |kids[p]| && kids[p][i] == v;
      InList(h, p, kids[p], i);
    }
  }

  /** The way down to the cursor: every node on it is first in the list above, and ranks fall. */
  ghost predicate Path(rank: Ranks, now: Kids, path: seq<Node>) {
    && (forall i :: 0 <= i < |path| ==> path[i] in rank && path[i] in now && Below(rank, now[path[i]], rank[path[i]]))
    && (forall i :: 0 <= i < |path| - 1 ==> now[path[i]] != [] && now[path[i]][0] == path[i + 1])
    && (forall i, j :: 0 <= i < j < |path| ==> rank[path[j]] < rank[path[i]])
  }

  /** What is freed after the first k nodes' first children: their other children and themselves. */
  ghost function Above(kids: Kids, rank: Ranks, now: Kids, path: seq<Node>, k: nat): seq<Node>
    requires Ranked(kids, rank) && Path(rank, now, path) && k < |path|
  {
    if k == 0 then []
    else
      var p := path[k - 1];
      PostList(kids, rank, now[p][1..], rank[p]) + [p] + Above(kids, rank, now, path, k - 1)
  }

  ghost function Todo(kids: Kids, rank: Ranks, now: Kids, path: seq<Node>): seq<Node>
    requires Ranked(kids, rank) && Path(rank, now, path) && path != []
  {
    var c := path[|path| - 1];
    PostList(kids, rank, now[c], rank[c]) + [c] + Above(kids, rank, now, path, |path| - 1)
  }

  ghost predicate NoDuplicates(s: seq<Node>) { forall i, j :: 0 <= i < j < |s| ==> s[i] != s[j] }

  /** Between two steps: what is freed and what is still to be freed make up the post-order of the subtree. */
  ghost predicate Freeing(kids: Kids, rank: Ranks, value: Node, now: Kids, path: seq<Node>, freed: seq<Node>) {
    && Ranked(kids, rank) && value in rank && Path(rank, now, path) && path != [] && path[0] == value
    && now.Keys == kids.Keys - (set n | n in freed) && NoDuplicates(freed)
    && (forall n :: n in now && n !in path ==> now[n] == kids[n])
    && freed + Todo(kids, rank, now, path) == PostOrder(kids, rank, value)
  }

  lemma StartFreeing(kids: Kids, rank: Ranks, value: Node)
    requires Ranked(kids, rank) && value in rank
    ensures Freeing(kids, rank, value, kids, [value], [])
  {
  }

  lemma {:induction false} AboveSame(kids: Kids, rank: Ranks, now: Kids, path: seq<Node>, now': Kids,
      path': seq<Node>, k: nat)
    requires Ranked(kids, rank) && Path(rank, now, path) && Path(rank, now', path') && k < |path| && k < |path'|
    requires forall i :: 0 <= i < k ==> path[i] == path'[i] && now[path[i]] == now'[path[i]]
    ensures Above(kids, rank, now, path, k) == Above(kids, rank, now', path', k)
  {
    if k > 0 {
      AboveSame(kids, rank, now, path, now', path', k - 1);
    }
  }

  lemma PathDown(rank: Ranks, now: Kids, path: seq<Node>, c: Node)
    requires Path(rank, now, path) && path != [] && c in now && c in rank
    requires var last := path[|path| - 1]; now[last] != [] && now[last][0] == c
    requires Below(rank, now[c], rank[c])
    ensures Path(rank, now, path + [c])
  {
    var last := path[|path| - 1];
    assert c in now[last];
    assert forall i :: 0 <= i < |path| ==> rank[c] < rank[path[i]];
  }

  lemma TodoDown(kids: Kids, rank: Ranks, now: Kids, path: seq<Node>, c: Node)
    requires Ranked(kids, rank) && Path(rank, now, path) && path != [] && c in now && Path(rank, now, path + [c])
    requires var last := path[|path| - 1]; now[last] != [] && now[last][0] == c
    requires now[c] == kids[c]
    ensures Todo(kids, rank, now, path) == Todo(kids, rank, now, path + [c])
  {
    hide Ranked;
    var n := |path|;
    var last := path[n - 1];
    var path' := path + [c];
    AboveSame(kids, rank, now, path, now, path', n - 1);
    PathKnown(rank, now, path);
    assert Below(rank, now[last], rank[last]);
    assert Below(rank, now[last][1..], rank[last]);
    assert path'[n - 1] == last;
    hide Path, Below;
    var rest := PostList(kids, rank, now[last][1..], rank[last]);
    var above := Above(kids, rank, now, path, n - 1);
    assert PostList(kids, rank, now[last], rank[last]) == PostOrder(kids, rank, c) + rest;
    assert Above(kids, rank, now, path', n) == rest + [last] + above;
    assert Todo(kids, rank, now, path') == PostOrder(kids, rank, c) + Above(kids, rank, now, path', n);
    assert Todo(kids, rank, now, path) == (PostOrder(kids, rank, c) + rest) + [last] + above;
    hide PostList, PostOrder, Above, Todo;
  }

  /** The cursor goes down to its first child. */
  lemma Descends(kids: Kids, rank: Ranks, value: Node, now: Kids, path: seq<Node>, freed: seq<Node>, c: Node)
    requires Freeing(kids, rank, value, now, path, freed)
    requires var last := path[|path| - 1]; now[last] != [] && now[last][0] == c && c in now
    ensures Freeing(kids, rank, value, now, path + [c], freed)
    ensures c in rank && rank[c] < rank[path[|path| - 1]]
  {
    hide PostList, PostOrder, Above, Todo;
    var last := path[|path| - 1];
    assert c in now[last];
    assert forall i :: 0 <= i < |path| ==> rank[c] < rank[path[i]];
    assert now[c] == kids[c];
    PathDown(rank, now, path, c);
    TodoDown(kids, rank, now, path, c);
    hide Path;
  }

  /** The child lists without the last node of the path, which is the first child of the one before. */
  ghost function Popped(now: Kids, path: seq<Node>): Kids
    requires |path| >= 2
  {
    var last, p := path[|path| - 1], path[|path| - 2];
    map n | n in now && n != last :: if n == p && now[p] != [] then now[p][1..] else now[n]
  }

  lemma PathUp(rank: Ranks, now: Kids, path: seq<Node>)
    requires Path(rank, now, path) && |path| >= 2
    ensures Path(rank, Popped(now, path), path[..|path| - 1])
    ensures path[|path| - 1] !in path[..|path| - 1] && path[|path| - 2] !in path[..|path| - 2]
  {
    var n := |path|;
    var last, p := path[n - 1], path[n - 2];
    assert forall i :: 0 <= i < n - 1 ==> path[i] != last;
    assert forall i :: 0 <= i < n - 2 ==> path[i] != p;
  }

  lemma TodoUp(kids: Kids, rank: Ranks, now: Kids, path: seq<Node>)
    requires Ranked(kids, rank) && Path(rank, now, path) && |path| >= 2 && now[path[|path| - 1]] == []
    requires Path(rank, Popped(now, path), path[..|path| - 1])
    ensures Todo(kids, rank, now, path) == [path[|path| - 1]] + Todo(kids, rank, Popped(now, path), path[..|path| - 1])
  {
    var n := |path|;
    var now', path' := Popped(now, path), path[..n - 1];
    PathUp(rank, now, path);
    AboveSame(kids, rank, now, path, now', path', n - 2);
    assert Above(kids, rank, now, path, n - 1) == Todo(kids, rank, now', path');
    assert Todo(kids, rank, now, path) == [] + [path[n - 1]] + Above(kids, rank, now, path, n - 1);
    hide Path, PostList, PostOrder, Above;
  }

  /** A leaf below the value is freed. */
  lemma Frees(kids: Kids, rank: Ranks, value: Node, now: Kids, path: seq<Node>, freed: seq<Node>)
    requires Freeing(kids, rank, value, now, path, freed) && |path| >= 2 && now[path[|path| - 1]] == []
    ensures Freeing(kids, rank, value, Popped(now, path), path[..|path| - 1], freed + [path[|path| - 1]])
  {
    hide PostList, PostOrder, Above, Todo, Path, Ranked;
    var n := |path|;
    var last := path[n - 1];
    var now', path' := Popped(now, path), path[..n - 1];
    PathUp(rank, now, path);
    TodoUp(kids, rank, now, path);
    PathKnown(rank, now, path);
    assert last !in freed && path[n - 2] in path';
    var todo := Todo(kids, rank, now', path');
    assert freed + ([last] + todo) == freed + [last] + todo;
    assert (set n | n in freed + [last]) == (set n | n in freed) + {last};
    hide Todo;
  }

  lemma PathKnown(rank: Ranks, now: Kids, path: seq<Node>)
    requires Path(rank, now, path)
    ensures forall i :: 0 <= i < |path| ==> path[i] in now
  {
  }

  /** At last the value itself is freed. */
  lemma FreesLast(kids: Kids, rank: Ranks, value: Node, now: Kids, path: seq<Node>, freed: seq<Node>)
    requires Freeing(kids, rank, value, now, path, freed) && |path| == 1 && now[value] == []
    ensures freed + [value] == PostOrder(kids, rank, value) && NoDuplicates(freed + [value])
  {
    assert path == [value];
    assert Todo(kids, rank, now, path) == [] + [value] + [];
    assert value !in freed;
  }

  /**
   json_free_value: every node of the subtree is freed once, children first; the rest of the
   tree stays linked, and the parent's list has lost just this node.
   */
  method FreeValue(value: Node, ghost kids: Kids, ghost rank: Ranks) returns (ghost freed: seq<Node>, ghost now: Kids)
    requires Linked(kids) && Ranked(kids, rank) && value in rank
    modifies kids.Keys
    ensures freed == PostOrder(kids, rank, value) && NoDuplicates(freed)
    ensures Linked(now) && now.Keys == kids.Keys - (set n | n in freed)
    ensures forall n :: n in now ==> now[n] == if n == old(value.parent) then Without(kids[n], value) else kids[n]
    ensures forall n :: n in now ==> n.text == old(n.text)
  {
    hide Linked, Freeing, Ranked, PostOrder, Path, Without;
    var top: Node? := value;
    var cursor: Node? := value;
    freed, now := [], kids;
    ghost var path := [value];
    StartFreeing(kids, rank, value);
    while top != null
      invariant Linked(now) && now.Keys <= kids.Keys
      invariant forall n :: n in now ==> n.text == old(n.text) && n.parent == old(n.parent)
      invariant top != null ==>
          top == value && Freeing(kids, rank, value, now, path, freed) && path != [] && cursor == path[|path| - 1] &&
          cursor in rank
      invariant top == null ==>
          freed == PostOrder(kids, rank, value) && NoDuplicates(freed) && now.Keys == kids.Keys - (set n | n in freed)
      invariant top == null ==> forall n :: n in now ==>
          now[n] == if n == old(value.parent) then Without(kids[n], value) else kids[n]
      decreases if top != null then 1 else 0, |now.Keys|, if top != null && cursor in rank then rank[cursor] else 0
    {
      PathEnd(kids, rank, value, now, path, freed);
      ChildrenHere(now, cursor);
      if cursor.child != null {
        ghost var c := now[cursor][0];
        Descends(kids, rank, value, now, path, freed, c);
        cursor := cursor.child;
        path := path + [c];
      } else {
        ghost var last := path[|path| - 1];
        ghost var after := Removed(PointersOf(now.Keys), now, last);
        OneFreed(now, last);
        if |path| > 1 {
          PoppedIsRemoved(now, rank, path);
          Frees(kids, rank, value, now, path, freed);
        } else {
          FreesLast(kids, rank, value, now, path, freed);
          LastRemoved(kids, rank, value, now, path, freed);
        }
        if cursor == top {
          top := null;
        }
        var parent := cursor.parent;
        InternFree(cursor, now);
        now, freed, path := after, freed + [last], path[..|path| - 1];
        cursor := parent;
      }
    }
  }

  lemma ChildrenHere(now: Kids, n: Node)
    requires Linked(now) && n in now
    ensures n.child == null <==> now[n] == []
    ensures n.child != null ==> n.child == now[n][0] && n.child in now
  {
    ChildrenOf(PointersOf(now.Keys), now, n);
    assert now[n] != [] ==> now[n][0] in now[n];
  }

  lemma PathEnd(kids: Kids, rank: Ranks, value: Node, now: Kids, path: seq<Node>, freed: seq<Node>)
    requires Freeing(kids, rank, value, now, path, freed)
    ensures path != [] && path[|path| - 1] in now && path[|path| - 1] in rank && path[0] == value
    ensures path[|path| - 1] == value <==> |path| == 1
    ensures Path(rank, now, path)
  {
  }

  /** The node freed is the first in its parent's list. */
  lemma PoppedIsRemoved(now: Kids, rank: Ranks, path: seq<Node>)
    requires Linked(now) && Path(rank, now, path) && |path| >= 2
    ensures Removed(PointersOf(now.Keys), now, path[|path| - 1]) == Popped(now, path)
    ensures path[|path| - 1].parent == path[|path| - 2]
  {
    hide Linked, Path;
    var last, p := path[|path| - 1], path[|path| - 2];
    PathTop(rank, now, path);
    ParentHere(now, p, last);
  }

  lemma PathTop(rank: Ranks, now: Kids, path: seq<Node>)
    requires Path(rank, now, path) && |path| >= 2
    ensures var last, p := path[|path| - 1], path[|path| - 2];
            last in now && p in now && now[p] != [] && now[p][0] == last
  {
  }

  lemma ParentHere(now: Kids, p: Node, k: Node)
    requires Linked(now) && p in now && k in now && k in now[p]
    ensures k.parent == p
  {
    ChildrenOf(PointersOf(now.Keys), now, p);
  }

  lemma OneFreed(now: Kids, last: Node)
    requires last in now
    ensures var after := Removed(PointersOf(now.Keys), now, last);
        after.Keys == now.Keys - {last} && |after.Keys| < |now.Keys|
  {
  }

  lemma LastRemoved(kids: Kids, rank: Ranks, value: Node, now: Kids, path: seq<Node>, freed: seq<Node>)
    requires Freeing(kids, rank, value, now, path, freed) && |path| == 1 && value in now
    ensures var after := Removed(PointersOf(now.Keys), now, value);
            && after.Keys == kids.Keys - (set n | n in freed + [value])
            && forall n :: n in after ==> after[n] == if n == value.parent then Without(kids[n], value) else kids[n]
  {
    assert path == [value];
  }

  /** The finished nodes of a partial tree are ranked by the weight of their trees. */
  lemma FinishedRanked(kids: Kids, val: Values, tx: Texts)
    requires AllFinished(kids, val, tx)
    ensures Ranked(kids, map n | n in val :: Weight(val[n]))
  {
    var rank: Ranks := map n | n in val :: Weight(val[n]);
    forall n, k | n in rank && k in kids[n]
      ensures k in rank && rank[k] < rank[n]
    {
      assert Finished(n, kids, val, tx);
      var i :| 0 <= i < |kids[n]| && kids[n][i] == k;
      KidLighter(val[n], 0, i);
    }
  }

  /** The post-order holds every child of each of its nodes, before the node. */
  lemma {:induction false} ChildrenFirst(kids: Kids, rank: Ranks, n: Node, i: nat, k: Node)
    requires Ranked(kids, rank) && n in rank
    requires i < |PostOrder(kids, rank, n)| && PostOrder(kids, rank, n)[i] in kids &&
        k in kids[PostOrder(kids, rank, n)[i]]
    ensures k in PostOrder(kids, rank, n)[..i]
    decreases rank[n], 1, 0
  {
    var s, l := PostOrder(kids, rank, n), PostList(kids, rank, kids[n], rank[n]);
    if i == |s| - 1 {
      ListHolds(kids, rank, kids[n], rank[n], k);
      assert s[..i] == l;
    } else {
      ListFirst(kids, rank, kids[n], rank[n], i, k);
      assert s[..i] == l[..i];
    }
  }

  lemma {:induction false} ListFirst(kids: Kids, rank: Ranks, ks: seq<Node>, b: nat, i: nat, k: Node)
    requires Ranked(kids, rank) && Below(rank, ks, b)
    requires var s := PostList(kids, rank, ks, b); i < |s| && s[i] in kids && k in kids[s[i]]
    ensures k in PostList(kids, rank, ks, b)[..i]
    decreases b, 0, |ks|
  {
    var p, q := PostOrder(kids, rank, ks[0]), PostList(kids, rank, ks[1..], b);
    if i < |p| {
      ChildrenFirst(kids, rank, ks[0], i, k);
      assert (p + q)[..i] == p[..i];
    } else {
      ListFirst(kids, rank, ks[1..], b, i - |p|, k);
      assert (p + q)[..i] == p + q[..i - |p|];
    }
  }

  lemma {:induction false} ListHolds(kids: Kids, rank: Ranks, ks: seq<Node>, b: nat, k: Node)
    requires Ranked(kids, rank) && Below(rank, ks, b) && k in ks
    ensures k in PostList(kids, rank, ks, b)
    decreases |ks|
  {
    if k == ks[0] {
      var p := PostOrder(kids, rank, k);
      assert p[|p| - 1] == k;
    } else {
      ListHolds(kids, rank, ks[1..], b, k);
    }
  }

  /** The post-order holds no other node: any set with n that is closed under children holds all of it. */
  lemma {:induction false} OnlySubtree(kids: Kids, rank: Ranks, n: Node, s: set<Node>, x: Node)
    requires Ranked(kids, rank) && n in rank && n in s && x in PostOrder(kids, rank, n)
    requires forall y, k :: y in s && y in kids && k in kids[y] ==> k in s
    ensures x in s
    decreases rank[n], 1, 0
  {
    if x != n {
      OnlyLists(kids, rank, kids[n], rank[n], s, x);
    }
  }

  lemma {:induction false} OnlyLists(kids: Kids, rank: Ranks, ks: seq<Node>, b: nat, s: set<Node>, x: Node)
    requires Ranked(kids, rank) && Below(rank, ks, b) && x in PostList(kids, rank, ks, b) && forall k :: k in ks ==>
        k in s
    requires forall y, k :: y in s && y in kids && k in kids[y] ==> k in s
    ensures x in s
    decreases b, 0, |ks|
  {
    if x in PostOrder(kids, rank, ks[0]) {
      OnlySubtree(kids, rank, ks[0], s, x);
    } else {
      OnlyLists(kids, rank, ks[1..], b, s, x);
    }
  }

  /** The nodes of higher rank. */
  ghost function HigherThan(rank: Ranks, x: Node): set<Node>
    requires x in rank
  {
    set n | n in rank && rank[n] > rank[x]
  }

  lemma FewerHigher(rank: Ranks, x: Node, p: Node)
    requires x in rank && p in rank && rank[x] < rank[p]
    ensures HigherThan(rank, p) < HigherThan(rank, x)
  {
    assert p in HigherThan(rank, x) && p !in HigherThan(rank, p);
  }

  lemma ParentAbove(h: Pointers, kids: Kids, rank: Ranks, x: Node)
    requires LinkedIn(h, kids) && Ranked(kids, rank) && rank.Keys == kids.Keys && x in kids && At(h, x).parent != null
    ensures var p := At(h, x).parent; p in kids && x in kids[p] && rank[x] < rank[p]
  {
    hide LinkedAt;
  }

  /** Below a root that is the only node without a parent, the post-order holds every node. */
  lemma {:induction false} AllBelow(h: Pointers, kids: Kids, rank: Ranks, root: Node, x: Node)
    requires LinkedIn(h, kids) && Ranked(kids, rank) && rank.Keys == kids.Keys && root in kids && x in kids
    requires forall n :: n in kids && At(h, n).parent == null ==> n == root
    ensures x in PostOrder(kids, rank, root)
    decreases HigherThan(rank, x)
  {
    hide LinkedIn, Ranked, PostOrder, HigherThan;
    if x == root {
      assert x in PostOrder(kids, rank, root) by {
        RootInside(kids, rank, root);
      }
    } else {
      var p := At(h, x).parent;
      ParentAbove(h, kids, rank, x);
      FewerHigher(rank, x, p);
      AllBelow(h, kids, rank, root, p);
      var i :| 0 <= i < |PostOrder(kids, rank, root)| && PostOrder(kids, rank, root)[i] == p;
      ChildrenFirst(kids, rank, root, i, x);
    }
  }

  lemma RootInside(kids: Kids, rank: Ranks, n: Node)
    requires Ranked(kids, rank) && n in rank
    ensures n in PostOrder(kids, rank, n)
  {
  }

  /** The number of nodes of a tree. */
  function Size(t: Tree): nat
    decreases t, 1, 0
  {
    1 + SizeFrom(t, 0)
  }

  function SizeFrom(t: Tree, i: nat): nat
    requires i <= |t.kids|
    decreases t, 0, |t.kids| - i
  {
    if i == |t.kids| then 0 else Size(t.kids[i]) + SizeFrom(t, i + 1)
  }

  /** A finished node has as many nodes below it as its tree. */
  lemma {:induction false} PostOrderSize(kids: Kids, rank: Ranks, val: Values, tx: Texts, n: Node)
    requires Ranked(kids, rank) && AllFinished(kids, val, tx) && n in rank && n in val
    ensures |PostOrder(kids, rank, n)| == Size(val[n])
    decreases rank[n], 1, 0
  {
    assert Finished(n, kids, val, tx);
    PostListSize(kids, rank, val, tx, n, 0);
    assert kids[n][0..] == kids[n];
  }

  lemma {:induction false} PostListSize(kids: Kids, rank: Ranks, val: Values, tx: Texts, n: Node, i: nat)
    requires Ranked(kids, rank) && AllFinished(kids, val, tx) && n in rank && n in val
    requires Finished(n, kids, val, tx) && i <= |kids[n]|
    ensures |PostList(kids, rank, kids[n][i..], rank[n])| == SizeFrom(val[n], i)
    decreases rank[n], 0, |kids[n]| - i
  {
    if i < |kids[n]| {
      assert kids[n][i..][0] == kids[n][i] && kids[n][i..][1..] == kids[n][i + 1..];
      assert kids[n][i] in kids[n] && val[n].kids[i] == val[kids[n][i]];
      PostOrderSize(kids, rank, val, tx, kids[n][i]);
      PostListSize(kids, rank, val, tx, n, i + 1);
    }
  }
}
