/** Doubly linked chains of buffers, as seen through a snapshot of their pointers. */
module PoolList {
  class Buffer {
    var prev: Buffer?
    var next: Buffer?
    var refCount: int
    var dataLen: nat

    constructor ()
      ensures prev == next == null && refCount == 0 && dataLen == 0
    {
      prev, next := null, null;
      refCount, dataLen := 0, 0;
    }
  }

  datatype Links = Links(prev: Buffer?, next: Buffer?)
  type Pointers = map<Buffer, Links>

  ghost function PointersOf(nodes: set<Buffer>): Pointers
    reads nodes`prev, nodes`next
  {
    map n | n in nodes :: Links(n.prev, n.next)
  }

  ghost predicate Distinct(s: seq<Buffer>) { forall i, j :: 0 <= i < j < |s| ==> s[i] != s[j] }

  /** s is a whole list: its pointers go from one buffer to the next and back, and end in null. */
  ghost predicate Chain(h: Pointers, s: seq<Buffer>) {
    && Distinct(s)
    && (forall i :: 0 <= i < |s| ==> s[i] in h)
    && (s != [] ==> h[s[0]].prev == null && h[s[|s| - 1]].next == null)
    && (forall i :: 0 < i < |s| ==> h[s[i]].prev == s[i - 1])
    && (forall i :: 0 <= i < |s| - 1 ==> h[s[i]].next == s[i + 1])
  }

  ghost function Head(s: seq<Buffer>): Buffer? { if s == [] then null else s[0] }

  /** Two lists of the pool that share no buffer. */
  ghost predicate Apart(s: seq<Buffer>, t: seq<Buffer>) { forall b :: b in s ==> b !in t }

  lemma SameChain(h: Pointers, h': Pointers, s: seq<Buffer>)
    requires Chain(h, s) && forall b :: b in s ==> b in h' && h'[b] == h[b]
    ensures Chain(h', s)
  {
  }

  lemma Neighbours(h: Pointers, s: seq<Buffer>, i: nat)
    requires Chain(h, s) && i < |s|
    ensures i == 0 ==> h[s[i]].prev == null
    ensures i > 0 ==> h[s[i]].prev == s[i - 1]
    ensures i + 1 == |s| ==> h[s[i]].next == null
    ensures i + 1 < |s| ==> h[s[i]].next == s[i + 1]
  {
  }

  /** A buffer put in front. */
  ghost function Pushed(h: Pointers, s: seq<Buffer>, b: Buffer): Pointers {
    map n | n in h + map[b := Links(null, null)] ::
      if n == b then Links(null, Head(s))
      else if n == Head(s) then h[n].(prev := b)
      else h[n]
  }

  lemma PushChain(h: Pointers, s: seq<Buffer>, b: Buffer)
    requires Chain(h, s) && b !in s
    ensures Chain(Pushed(h, s, b), [b] + s)
  {
    var h', t := Pushed(h, s, b), [b] + s;
    forall i | 0 < i < |t|
      ensures h'[t[i]].prev == t[i - 1]
    {
      Neighbours(h, s, i - 1);
    }
    forall i | 0 < i < |t|
      ensures i < |t| - 1 ==> h'[t[i]].next == t[i + 1]
      ensures i == |t| - 1 ==> h'[t[i]].next == null
    {
      Neighbours(h, s, i - 1);
    }
  }

  /** A buffer taken out, its neighbours joined. */
  ghost function Taken(h: Pointers, b: Buffer): Pointers
    requires b in h
  {
    map n | n in h ::
      Links(if n == h[b].next then h[b].prev else h[n].prev, if n == h[b].prev then h[b].next else h[n].next)
  }

  lemma TakeChain(h: Pointers, s: seq<Buffer>, i: nat)
    requires Chain(h, s) && i < |s|
    ensures Chain(Taken(h, s[i]), s[..i] + s[i + 1..])
    ensures s[i] !in s[..i] + s[i + 1..]
  {
    var h', t := Taken(h, s[i]), s[..i] + s[i + 1..];
    Neighbours(h, s, i);
    forall j | 0 <= j < |t|
      ensures t[j] == s[if j < i then j else j + 1] && t[j] != s[i]
      ensures j == 0 ==> h'[t[j]].prev == null
      ensures j > 0 ==> h'[t[j]].prev == t[j - 1]
      ensures j == |t| - 1 ==> h'[t[j]].next == null
      ensures j < |t| - 1 ==> h'[t[j]].next == t[j + 1]
    {
      Neighbours(h, s, if j < i then j else j + 1);
    }
  }

  /** Taking from one list leaves the other as it is. */
  lemma TakeApart(h: Pointers, s: seq<Buffer>, t: seq<Buffer>, i: nat)
    requires Chain(h, s) && Chain(h, t) && Apart(s, t) && i < |s|
    ensures Chain(Taken(h, s[i]), t) && Apart(s[..i] + s[i + 1..], t)
  {
    Neighbours(h, s, i);
    SameChain(h, Taken(h, s[i]), t);
  }

  lemma PushApart(h: Pointers, s: seq<Buffer>, t: seq<Buffer>, b: Buffer)
    requires Chain(h, s) && Chain(h, t) && Apart(s, t) && b !in t
    ensures Chain(Pushed(h, s, b), t) && Apart([b] + s, t)
  {
    SameChain(h, Pushed(h, s, b), t);
  }

  ghost function Both(s: seq<Buffer>, t: seq<Buffer>): set<Buffer> { (set b | b in s) + (set b | b in t) }

  /** Two disjoint lists in the heap. */
  ghost predicate TwoChains(s: seq<Buffer>, t: seq<Buffer>)
    reads Both(s, t)`prev, Both(s, t)`next
  {
    Chain(PointersOf(Both(s, t)), s) && Chain(PointersOf(Both(s, t)), t) && Apart(s, t)
  }

  /** The pointers that matter to both chains are those of h'. */
  lemma ChainsFrom(h: Pointers, s: seq<Buffer>, t: seq<Buffer>)
    requires Chain(h, s) && Chain(h, t) && Apart(s, t)
    requires forall b :: b in s || b in t ==> h[b] == Links(b.prev, b.next)
    ensures TwoChains(s, t)
  {
    SameChain(h, PointersOf(Both(s, t)), s);
    SameChain(h, PointersOf(Both(s, t)), t);
  }

  /** The head leaves its list. */
  method PopHead(head: Buffer, ghost s: seq<Buffer>, ghost t: seq<Buffer>) returns (list: Buffer?)
    requires TwoChains(s, t) && s != [] && head == s[0]
    modifies Both(s, t)`prev, Both(s, t)`next
    ensures TwoChains(s[1..], t) && list == Head(s[1..]) && head !in s[1..] && head.prev == head.next == null
  {
    hide Chain;
    ghost var h := PointersOf(Both(s, t));
    Neighbours(h, s, 0);
    TakeChain(h, s, 0);
    TakeApart(h, s, t, 0);
    FirstOut(s, head);
    hide Taken;
    list := head.next;
    if list != null {
      list.prev := null;
    }
    head.next := null;
    head.prev := null;
    ChainsFrom(Taken(h, head), s[1..], t);
  }

  lemma FirstOut(s: seq<Buffer>, head: Buffer)
    requires s != [] && head == s[0]
    ensures s[..0] + s[1..] == s[1..] && (|s| > 1 ==> Head(s[1..]) == s[1])
  {
  }

  /** A loose buffer goes in front of a list. */
  method PushHead(b: Buffer, list: Buffer?, ghost s: seq<Buffer>, ghost t: seq<Buffer>)
    requires TwoChains(s, t) && list == Head(s) && b !in s && b !in t
    modifies b`prev, b`next, Both(s, t)`prev
    ensures TwoChains([b] + s, t)
  {
    hide Chain;
    ghost var h := PointersOf(Both(s, t));
    PushChain(h, s, b);
    PushApart(h, s, t, b);
    b.next := list;
    b.prev := null;
    if list != null {
      list.prev := b;
    }
    ChainsFrom(Pushed(h, s, b), [b] + s, t);
  }

  /** A buffer inside a list leaves it. */
  method Unlink(b: Buffer, list: Buffer?, ghost i: nat, ghost s: seq<Buffer>, ghost t: seq<Buffer>)
      returns (list': Buffer?)
    requires TwoChains(s, t) && list == Head(s) && i < |s| && s[i] == b
    modifies Both(s, t)`prev, Both(s, t)`next
    ensures var r := s[..i] + s[i + 1..]; TwoChains(r, t) && list' == Head(r) && b !in r
  {
    hide Chain;
    ghost var h := PointersOf(Both(s, t));
    Neighbours(h, s, i);
    TakeChain(h, s, i);
    TakeApart(h, s, t, i);
    HeadOnly(h, s, i);
    if list == b {
      list' := b.next;
      if list' != null {
        list'.prev := null;
      }
    } else {
      list' := list;
      b.prev.next := b.next;
      if b.next != null {
        b.next.prev := b.prev;
      }
    }
    ChainsFrom(Taken(h, b), s[..i] + s[i + 1..], t);
  }

  lemma HeadOnly(h: Pointers, s: seq<Buffer>, i: nat)
    requires Chain(h, s) && i < |s|
    ensures s[i] == s[0] <==> i == 0
  {
  }

  lemma SwapChains(s: seq<Buffer>, t: seq<Buffer>)
    requires TwoChains(s, t)
    ensures TwoChains(t, s)
  {
    assert Both(s, t) == Both(t, s);
  }
}
