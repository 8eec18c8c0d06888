/**
 CBufferManager and its buffers, shared by threads. A step is what happens under one hold of the
 mutex, or outside it.
 */
module BufferPool {
  import opened PoolList

  const COUNT: nat := 0x1_0000_0000
  const MAX_REFERENCES: nat := 0x7FFF_FFFF

  /** A reference that some thread owns. It is checked once its release has passed the test outside the mutex. */
  datatype Reference = Reference(thread: nat, buffer: Buffer, checked: bool)

  ghost function References(refs: seq<Reference>, b: Buffer): nat {
    if refs == [] then 0
    else References(refs[..|refs| - 1], b) + if refs[|refs| - 1].buffer == b then 1 else 0
  }

  function Without(refs: seq<Reference>, i: nat): seq<Reference>
    requires i < |refs|
  {
    refs[..i] + refs[i + 1..]
  }

  lemma {:induction false} ReferencesAppend(p: seq<Reference>, q: seq<Reference>, b: Buffer)
    ensures References(p + q, b) == References(p, b) + References(q, b)
    decreases |q|
  {
    if q == [] {
      assert p + q == p;
    } else {
      var n := |q| - 1;
      assert (p + q)[..|p + q| - 1] == p + q[..n];
      ReferencesAppend(p, q[..n], b);
    }
  }

  lemma OneMore(refs: seq<Reference>, r: Reference, b: Buffer)
    ensures References(refs + [r], b) == References(refs, b) + if r.buffer == b then 1 else 0
  {
    assert (refs + [r])[..|refs|] == refs;
  }

  lemma OneLess(refs: seq<Reference>, i: nat, b: Buffer)
    requires i < |refs|
    ensures References(refs, b) == References(Without(refs, i), b) + if refs[i].buffer == b then 1 else 0
  {
    assert refs == refs[..i] + ([refs[i]] + refs[i + 1..]);
    ReferencesAppend(refs[..i], [refs[i]] + refs[i + 1..], b);
    ReferencesAppend([refs[i]], refs[i + 1..], b);
    ReferencesAppend(refs[..i], refs[i + 1..], b);
    assert [refs[i]][..0] == [];
  }

  lemma SameCounts(refs: seq<Reference>, i: nat, r: Reference, b: Buffer)
    requires i < |refs| && r.buffer == refs[i].buffer
    ensures References(refs[i := r], b) == References(refs, b)
  {
    OneLess(refs, i, b);
    OneLess(refs[i := r], i, b);
    assert Without(refs[i := r], i) == Without(refs, i);
  }

  lemma {:induction false} SomeReference(refs: seq<Reference>, i: nat)
    requires i < |refs|
    ensures References(refs, refs[i].buffer) > 0
  {
    OneLess(refs, i, refs[i].buffer);
  }

  /** Each count is the number of references, and the free buffers have none. */
  ghost predicate Counted(counts: map<Buffer, int>, used: seq<Buffer>, free: seq<Buffer>, refs: seq<Reference>) {
    && (forall i :: 0 <= i < |refs| ==> refs[i].buffer in used)
    && (forall b :: b in used ==> b in counts && counts[b] == References(refs, b) && counts[b] > 0)
    && (forall b :: b in free ==> b in counts && counts[b] == 0)
  }

  /** Deleted buffers were deleted once and are in no list. */
  ghost predicate Cleared(used: seq<Buffer>, free: seq<Buffer>, deleted: seq<Buffer>) {
    Distinct(deleted) && forall b :: b in deleted ==> b !in used && b !in free
  }

  /** One more reference to a buffer in use. */
  lemma CountedMore(counts: map<Buffer, int>, used: seq<Buffer>, free: seq<Buffer>, refs: seq<Reference>,
      r: Reference, counts': map<Buffer, int>)
    requires Counted(counts, used, free, refs) && Apart(used, free) && r.buffer in used
    requires forall b :: b in counts ==> b in counts' && counts'[b] == counts[b] + if b == r.buffer then 1 else 0
    ensures Counted(counts', used, free, refs + [r])
  {
    forall b | b in used
      ensures b in counts' && counts'[b] == References(refs + [r], b) && counts'[b] > 0
    {
      OneMore(refs, r, b);
    }
  }

  /** A buffer without references gets one and is in use. */
  lemma CountedNew(counts: map<Buffer, int>, used: seq<Buffer>, free: seq<Buffer>, refs: seq<Reference>,
      r: Reference, counts': map<Buffer, int>)
    requires Counted(counts, used, free, refs) && r.buffer !in used && r.buffer !in free
    requires counts' == counts[r.buffer := 1]
    ensures Counted(counts', [r.buffer] + used, free, refs + [r])
  {
    var p, used', refs' := r.buffer, [r.buffer] + used, refs + [r];
    NoReferences(refs, p);
    OneMore(refs, r, p);
    forall b | b in used
      ensures b in counts' && counts'[b] == References(refs', b) && counts'[b] > 0
    {
      OneMore(refs, r, b);
    }
    hide References;
    forall b | b in used'
      ensures b in counts' && counts'[b] == References(refs', b) && counts'[b] > 0
    {
      assert b == p || b in used;
    }
    forall i | 0 <= i < |refs'|
      ensures refs'[i].buffer in used'
    {
      assert i < |refs| ==> refs[i].buffer in used;
    }
  }

  /** The first free buffer has no references, and the others are counted without it. */
  lemma FreeCounted(counts: map<Buffer, int>, used: seq<Buffer>, free: seq<Buffer>, refs: seq<Reference>)
    requires Counted(counts, used, free, refs) && free != []
    ensures Counted(counts, used, free[1..], refs) && free[0] in counts && counts[free[0]] == 0
    ensures Both(used, free[1..]) <= Both(used, free) && free[0] in Both(used, free)
  {
  }

  lemma CountedSame(counts: map<Buffer, int>, used: seq<Buffer>, free: seq<Buffer>, refs: seq<Reference>,
      counts': map<Buffer, int>)
    requires Counted(counts, used, free, refs) && forall b :: b in Both(used, free) ==>
        b in counts' && b in counts && counts'[b] == counts[b]
    ensures Counted(counts', used, free, refs)
  {
  }

  /** A reference is marked. */
  lemma CountedMarked(counts: map<Buffer, int>, used: seq<Buffer>, free: seq<Buffer>, refs: seq<Reference>, i: nat,
      r: Reference)
    requires Counted(counts, used, free, refs) && i < |refs| && r.buffer == refs[i].buffer
    ensures Counted(counts, used, free, refs[i := r])
  {
    forall b | b in used
      ensures counts[b] == References(refs[i := r], b)
    {
      SameCounts(refs, i, r, b);
    }
  }

  /** A reference is gone, and it was not the last one. */
  lemma CountedLess(counts: map<Buffer, int>, used: seq<Buffer>, free: seq<Buffer>, refs: seq<Reference>, i: nat,
      counts': map<Buffer, int>)
    requires Counted(counts, used, free, refs) && Apart(used, free) && i < |refs| && counts[refs[i].buffer] > 1
    requires forall b :: b in counts ==> b in counts' && counts'[b] == counts[b] - if b == refs[i].buffer then 1 else 0
    ensures Counted(counts', used, free, Without(refs, i)) && References(Without(refs, i), refs[i].buffer) > 0
  {
    forall b | b in used
      ensures counts'[b] == References(Without(refs, i), b) && counts'[b] > 0
    {
      OneLess(refs, i, b);
    }
  }

  lemma OneCountLess(counts: map<Buffer, int>, after: map<Buffer, int>, p: Buffer, s: set<Buffer>)
    requires p in counts && counts[p] == 1 && after == counts[p := 0] && s <= after.Keys
    ensures forall b :: b in s ==> b in after && b in counts && after[b] == counts[b] - if b == p then 1 else 0
  {
  }

  /** A list without one of its buffers, in any order. */
  ghost predicate Lost(before: seq<Buffer>, after: seq<Buffer>, p: Buffer) {
    && |after| == |before| - 1 && p !in after
    && (forall b :: b in after ==> b in before) && (forall b :: b in before && b != p ==> b in after)
  }

  /** A list without p, in the order it had. */
  ghost function Removed(s: seq<Buffer>, p: Buffer): seq<Buffer> {
    if s == [] then [] else if s[0] == p then s[1..] else [s[0]] + Removed(s[1..], p)
  }

  lemma {:induction false} RemovedAt(s: seq<Buffer>, k: nat)
    requires Distinct(s) && k < |s|
    ensures Removed(s, s[k]) == s[..k] + s[k + 1..]
    decreases k
  {
    if k == 0 {
      assert s[..0] + s[1..] == s[1..];
    } else {
      RemovedAt(s[1..], k - 1);
      assert [s[0]] + s[1..][..k - 1] == s[..k];
    }
  }

  /** The last reference is gone, and the buffer leaves the used list. */
  lemma CountedLast(counts: map<Buffer, int>, used: seq<Buffer>, free: seq<Buffer>, refs: seq<Reference>, i: nat,
      rest: seq<Buffer>, free': seq<Buffer>, counts': map<Buffer, int>)
    requires Counted(counts, used, free, refs) && Apart(used, free) && i < |refs|
    requires var p := refs[i].buffer;
             && counts[p] == 1 && Lost(used, rest, p) && (free' == free || free' == [p] + free)
             && (forall b :: b in Both(rest, free') ==>
                 b in counts' && b in counts && counts'[b] == counts[b] - if b == p then 1 else 0)
    ensures Counted(counts', rest, free', Without(refs, i)) && References(Without(refs, i), refs[i].buffer) == 0
  {
    var p := refs[i].buffer;
    var left := Without(refs, i);
    OneLess(refs, i, p);
    StillReferenced(left, p);
    assert forall b :: b in rest || b in free' ==> b in Both(rest, free');
    forall b | b in rest
      ensures counts'[b] == References(left, b) && counts'[b] > 0
    {
      OneLess(refs, i, b);
    }
  }

  class Manager {
    var usedList: Buffer?
    var freeList: Buffer?
    var bufferCount: nat
    var enablePool: bool

    ghost var buffers: set<Buffer>
    ghost var used: seq<Buffer>
    ghost var free: seq<Buffer>
    ghost var refs: seq<Reference>
    ghost var deleted: seq<Buffer>

    /** The two lists are linked and disjoint. */
    ghost predicate Lists()
      reads this`usedList, this`freeList, this`used, this`free, this`buffers, buffers`prev, buffers`next
    {
      buffers == Both(used, free) && usedList == Head(used) && freeList == Head(free) && TwoChains(used, free)
    }

    ghost function RefCounts(): map<Buffer, int>
      reads this`buffers, buffers`refCount
    {
      map b | b in buffers :: b.refCount
    }

    ghost predicate Counts()
      reads this`bufferCount, this`used, this`free, this`refs, this`buffers, buffers`refCount
    {
      bufferCount == |used| % COUNT && Counted(RefCounts(), used, free, refs)
    }

    ghost predicate Valid()
      reads this, buffers
    {
      Lists() && Counts() && Cleared(used, free, deleted)
    }

    constructor ()
      ensures Valid() && buffers == {} && used == free == [] && refs == [] && deleted == [] && enablePool
    {
      usedList, freeList := null, null;
      bufferCount := 0;
      enablePool := true;
      buffers, used, free, refs, deleted := {}, [], [], [], [];
    }

    /** AddRef, by a thread that owns reference i, for a thread that then owns the new one. */
    method AddRef(ghost i: nat, pBuff: Buffer, ghost thread: nat)
      requires Valid() && i < |refs| && refs[i].buffer == pBuff && pBuff.refCount < MAX_REFERENCES
      modifies this`refs, pBuff`refCount
      ensures Valid() && refs == old(refs) + [Reference(thread, pBuff, false)]
    {
      hide TwoChains, Counted, Cleared;
      NotInOther(used, free, pBuff);
      UsedBuffer(RefCounts(), used, free, refs, i);
      ghost var counts := RefCounts();
      pBuff.refCount := pBuff.refCount + 1;
      ghost var r := Reference(thread, pBuff, false);
      CountedMore(counts, used, free, refs, r, RefCounts());
      refs := refs + [r];
    }

    /** In no list, and without references. */
    ghost predicate Loose(b: Buffer)
      reads this`used, this`free, b
    {
      b !in used && b !in free && b.prev == null && b.next == null && b.refCount == 0
    }

    /** The head leaves the free list. */
    method PopFree(b: Buffer)
      requires Valid() && freeList == b
      modifies this`freeList, this`free, this`buffers, buffers`prev, buffers`next
      ensures Lists() && Loose(b) && Counts() && buffers <= old(buffers)
      ensures old(free) != [] && b == old(free)[0] && free == old(free)[1..]
    {
      hide TwoChains, Counted, References, Cleared;
      ghost var counts := RefCounts();
      RefCountsAre();
      hide RefCounts;
      FreeCounted(counts, used, free, refs);
      SwapChains(used, free);
      NotUsed(used, free, b);
      freeList := PopHead(b, free, used);
      free := free[1..];
      buffers := Both(used, free);
      SwapChains(free, used);
      CountsRestated(counts, refs);
    }

    /** The first free buffer, or a new one. */
    method TakeFree() returns (b: Buffer)
      requires Valid()
      modifies this`freeList, this`free, this`buffers, buffers`prev, buffers`next
      ensures Lists() && Loose(b) && Counts() && buffers <= old(buffers)
      ensures if old(free) == [] then fresh(b) && free == []
              else b == old(free)[0] && free == old(free)[1..]
    {
      hide TwoChains, Counted, References, Cleared;
      if freeList == null {
        ghost var counts := RefCounts();
        RefCountsAre();
        hide RefCounts;
        b := new Buffer();
        CountsRestated(counts, refs);
      } else {
        b := freeList;
        PopFree(b);
      }
    }

    /** AllocDataBuff: the first free buffer or a new one, put in front of the used list. */
    method AllocDataBuff(ghost thread: nat) returns (pDataBuffer: Buffer)
      requires Valid()
      modifies this, buffers
      ensures Valid() && used == [pDataBuffer] + old(used) &&
          refs == old(refs) + [Reference(thread, pDataBuffer, false)]
      ensures if old(free) == [] then fresh(pDataBuffer) && free == []
              else pDataBuffer == old(free)[0] && free == old(free)[1..]
      ensures fresh(buffers - old(buffers)) && deleted == old(deleted) && enablePool == old(enablePool)
    {
      hide Lists, Counts, Distinct, References;
      ListsApart();
      pDataBuffer := TakeFree();
      Enlist(pDataBuffer, thread);
    }

    lemma ListsApart()
      requires Lists()
      ensures Distinct(free) && Distinct(used) && Apart(used, free) && buffers == Both(used, free)
    {
    }

    /** The buffer gets its first reference and becomes the head of the used list. */
    method Enlist(b: Buffer, ghost thread: nat)
      requires Lists() && Counts() && Loose(b)
      modifies this`usedList, this`bufferCount, this`used, this`refs, this`buffers, b, buffers`prev
      ensures Lists() && Counts() && buffers == old(buffers) + {b} && used == [b] + old(used) &&
          refs == old(refs) + [Reference(thread, b, false)]
    {
      hide TwoChains, Counted, References, Distinct, Apart;
      ghost var counts, u := RefCounts(), used;
      ghost var r := Reference(thread, b, false);
      RefCountsAre();
      hide RefCounts;
      OneMoreCounted(|u|);
      CountedNew(counts, u, free, refs, r, counts[b := 1]);
      b.refCount := 1;
      PushHead(b, usedList, used, free);
      usedList := b;
      used := [b] + u;
      buffers := Both(used, free);
      bufferCount := (bufferCount + 1) % COUNT;
      refs := refs + [r];
      FrontBuffers(u, free, b);
      CountsRestated(counts[b := 1], refs);
    }

    /** The test of ReleaseDataBuff outside the mutex. With a reference of its own a thread always passes it. */
    method CheckRelease(pBuff: Buffer, ghost i: nat) returns (ok: bool)
      requires Valid() && i < |refs| && refs[i].buffer == pBuff && !refs[i].checked
      modifies this`refs
      ensures ok && Valid() && refs == old(refs)[i := old(refs)[i].(checked := true)]
    {
      hide TwoChains, Counted, Cleared;
      UsedBuffer(RefCounts(), used, free, refs, i);
      ok := pBuff.refCount > 0;
      ghost var r := refs[i].(checked := true);
      CountedMarked(RefCounts(), used, free, refs, i, r);
      refs := refs[i := r];
    }

    /**
     The part of ReleaseDataBuff under the mutex. The last reference sends the buffer to the free
     list, or deletes it.
     */
    method FinishRelease(pBuff: Buffer, ghost i: nat)
      requires Valid() && i < |refs| && refs[i].buffer == pBuff && refs[i].checked
      modifies this, buffers
      ensures Valid() && refs == Without(old(refs), i)
      ensures buffers <= old(buffers)
      ensures enablePool == old(enablePool)
      ensures if References(refs, pBuff) > 0 then used == old(used) && free == old(free) && deleted == old(deleted)
              else
                && used == Removed(old(used), pBuff)
                && free == (if enablePool then [pBuff] + old(free) else old(free))
                && deleted == (if enablePool then old(deleted) else old(deleted) + [pBuff])
    {
      hide TwoChains, Counted, Cleared, References, Without, Distinct, Apart, Lost, Removed;
      ListsApart();
      ghost var counts := RefCounts();
      UsedBuffer(counts, used, free, refs, i);
      NotInOther(used, free, pBuff);
      pBuff.refCount := pBuff.refCount - 1;
      assert RefCounts() == counts[pBuff := counts[pBuff] - 1];
      if pBuff.refCount <= 0 {
        pBuff.dataLen := 0;
        Retire(pBuff, i, counts);
      } else {
        CountedLess(counts, used, free, refs, i, RefCounts());
        refs := Without(refs, i);
      }
    }

    /** The last reference is gone. */
    method Retire(pBuff: Buffer, ghost i: nat, ghost counts: map<Buffer, int>)
      requires Lists() && Cleared(used, free, deleted) && i < |refs| && refs[i].buffer == pBuff && pBuff in used
      requires Counted(counts, used, free, refs) && pBuff in counts && counts[pBuff] == 1 &&
          RefCounts() == counts[pBuff := 0]
      requires bufferCount == |used| % COUNT
      modifies this`usedList, this`freeList, this`used, this`free, this`deleted, this`bufferCount, this`refs,
          this`buffers, buffers`prev, buffers`next
      ensures Valid() && refs == Without(old(refs), i) && References(refs, pBuff) == 0 && buffers <= old(buffers)
      ensures used == Removed(old(used), pBuff)
      ensures free == (if enablePool then [pBuff] + old(free) else old(free))
      ensures deleted == (if enablePool then old(deleted) else old(deleted) + [pBuff])
    {
      hide Lists, Cleared, Counted, References, Without, Lost, Removed;
      ghost var after, u, f, r := RefCounts(), used, free, refs;
      RefCountsAre();
      ListsApart();
      OneLessCounted(|used|);
      bufferCount := (bufferCount - 1 + COUNT) % COUNT;
      refs := Without(refs, i);
      hide RefCounts;
      Recycle(pBuff);
      CountsAfter(counts, after, u, f, r, i);
      hide Counts;
    }

    lemma RefCountsAre()
      ensures RefCounts().Keys == buffers && forall b :: b in buffers ==> RefCounts()[b] == b.refCount
    {
    }

    /** The counts once the buffer of reference i has left the used list u. */
    lemma CountsAfter(counts: map<Buffer, int>, after: map<Buffer, int>, u: seq<Buffer>, f: seq<Buffer>,
        r: seq<Reference>, i: nat)
      requires Lists() && i < |r| && r[i].buffer in counts && counts[r[i].buffer] == 1 &&
          after == counts[r[i].buffer := 0]
      requires Counted(counts, u, f, r) && Apart(u, f) && Lost(u, used, r[i].buffer) &&
          (free == f || free == [r[i].buffer] + f)
      requires buffers <= after.Keys && forall b :: b in buffers ==> after[b] == b.refCount
      requires bufferCount == |used| % COUNT && refs == Without(r, i)
      ensures Counts() && References(refs, r[i].buffer) == 0
    {
      hide Counted, References, Without, Apart, Distinct, Lost;
      ListsApart();
      OneCountLess(counts, after, r[i].buffer, buffers);
      CountedLast(counts, u, f, r, i, used, free, after);
      CountsRestated(after, refs);
    }

    /** The counts in the heap are still those of the snapshot. */
    lemma CountsRestated(counts: map<Buffer, int>, left: seq<Reference>)
      requires Counted(counts, used, free, left) && buffers == Both(used, free)
      requires forall b :: b in buffers ==> b in counts && counts[b] == b.refCount
      ensures Counted(RefCounts(), used, free, left)
    {
      CountedSame(counts, used, free, left, RefCounts());
    }

    /** The buffer leaves the used list, for the free list or for good. */
    method Recycle(pBuff: Buffer)
      requires Lists() && Cleared(used, free, deleted) && pBuff in used
      modifies this`usedList, this`freeList, this`used, this`free, this`deleted, this`buffers, buffers`prev,
          buffers`next
      ensures Lists() && Cleared(used, free, deleted)
      ensures Lost(old(used), used, pBuff) && |used| == |old(used)| - 1 && buffers <= old(buffers)
      ensures used == Removed(old(used), pBuff)
      ensures free == (if enablePool then [pBuff] + old(free) else old(free))
      ensures deleted == (if enablePool then old(deleted) else old(deleted) + [pBuff])
    {
      hide TwoChains, Cleared, Distinct, Lost, Apart;
      ghost var k :| 0 <= k < |used| && used[k] == pBuff;
      ghost var rest := used[..k] + used[k + 1..];
      NotInOther(used, free, pBuff);
      OutOf(used, k);
      RemovedAt(used, k);
      hide Removed;
      ClearedLess(used, free, deleted, k);
      FewerBuffers(used, free, rest, pBuff);
      ListsApart();
      hide Lists;
      TakeUsed(pBuff, k);
      if enablePool {
        Park(pBuff);
      } else {
        deleted := deleted + [pBuff];
      }
    }

    /** The buffer leaves the used list. */
    method TakeUsed(pBuff: Buffer, ghost k: nat)
      requires Lists() && k < |used| && used[k] == pBuff
      modifies this`usedList, this`used, this`buffers, buffers`prev, buffers`next
      ensures Lists() && used == old(used)[..k] + old(used)[k + 1..] && pBuff !in used && pBuff !in free
    {
      hide TwoChains, Distinct, Apart, Lost;
      NotInOther(used, free, pBuff);
      usedList := Unlink(pBuff, usedList, k, used, free);
      used := used[..k] + used[k + 1..];
      buffers := Both(used, free);
    }

    /** It becomes the head of the free list. */
    method Park(pBuff: Buffer)
      requires Lists() && pBuff !in used && pBuff !in free
      modifies this`freeList, this`free, this`buffers, pBuff`prev, pBuff`next, buffers`prev
      ensures Lists() && free == [pBuff] + old(free)
    {
      hide TwoChains;
      SwapChains(used, free);
      PushHead(pBuff, freeList, free, used);
      freeList := pBuff;
      free := [pBuff] + free;
      buffers := Both(used, free);
      SwapChains(free, used);
    }

    /** SetEnablePool. */
    method SetEnablePool(bEnablePool: bool)
      requires Valid()
      modifies this`enablePool
      ensures Valid() && enablePool == bEnablePool
    {
      hide TwoChains, Counted, Cleared;
      enablePool := bEnablePool;
    }

    /** ReleaseAll: every buffer that is not deleted yet is deleted, once. */
    method ReleaseAll() returns (ghost gone: seq<Buffer>)
      requires Valid()
      ensures gone == free + used && Distinct(deleted + gone)
    {
      hide TwoChains, Counted, Cleared, Distinct;
      GoneOnce(used, free, deleted);
      SwapChains(used, free);
      ghost var first := DeleteList(freeList, free, used);
      ghost var second := DeleteList(usedList, used, free);
      gone := first + second;
    }

    /** The walk over one list: the next pointer is read before the node is deleted. */
    method DeleteList(list: Buffer?, ghost s: seq<Buffer>, ghost t: seq<Buffer>) returns (ghost gone: seq<Buffer>)
      requires list == Head(s) && TwoChains(s, t)
      ensures gone == s
    {
      gone := [];
      var pBufferNode := list;
      while pBufferNode != null
        invariant |gone| <= |s| && gone == s[..|gone|]
        invariant pBufferNode == if |gone| < |s| then s[|gone|] else null
        decreases |s| - |gone|
      {
        Neighbours(PointersOf(Both(s, t)), s, |gone|);
        var pTempNode := pBufferNode;
        pBufferNode := pTempNode.next;
        gone := gone + [pTempNode];
      }
    }
  }

  /** The count of buffers is kept modulo 2^32. */
  lemma OneLessCounted(n: nat)
    requires n > 0
    ensures (n % COUNT - 1 + COUNT) % COUNT == (n - 1) % COUNT
  {
    assert (n % 0x1_0000_0000 - 1 + 0x1_0000_0000) % 0x1_0000_0000 == (n - 1) % 0x1_0000_0000;
  }

  lemma OneMoreCounted(n: nat)
    ensures (n % COUNT + 1) % COUNT == (n + 1) % COUNT
  {
    assert (n % 0x1_0000_0000 + 1) % 0x1_0000_0000 == (n + 1) % 0x1_0000_0000;
  }

  /** A buffer with a reference is in use, and its count is the number of its references. */
  lemma UsedBuffer(counts: map<Buffer, int>, used: seq<Buffer>, free: seq<Buffer>, refs: seq<Reference>, i: nat)
    requires Counted(counts, used, free, refs) && i < |refs|
    ensures refs[i].buffer in used && refs[i].buffer in counts && counts[refs[i].buffer] > 0
    ensures counts[refs[i].buffer] == References(refs, refs[i].buffer)
  {
  }

  lemma ClearedLess(used: seq<Buffer>, free: seq<Buffer>, deleted: seq<Buffer>, k: nat)
    requires Cleared(used, free, deleted) && k < |used| && Distinct(used) && Apart(used, free)
    ensures var rest, p := used[..k] + used[k + 1..], used[k];
      Cleared(rest, [p] + free, deleted) && Cleared(rest, free, deleted + [p])
  {
    OutOf(used, k);
  }

  lemma GoneOnce(used: seq<Buffer>, free: seq<Buffer>, deleted: seq<Buffer>)
    requires Cleared(used, free, deleted) && TwoChains(used, free)
    ensures Distinct(deleted + (free + used))
  {
    var s := deleted + (free + used);
    forall i, j | 0 <= i < j < |s|
      ensures s[i] != s[j]
    {
      assert forall k :: 0 <= k < |s| ==> s[k] == if k < |deleted| then deleted[k]
          else if k < |deleted| + |free| then free[k - |deleted|] else used[k - |deleted| - |free|];
    }
  }

  lemma OutOf(s: seq<Buffer>, k: nat)
    requires Distinct(s) && k < |s|
    ensures Lost(s, s[..k] + s[k + 1..], s[k])
  {
    var r := s[..k] + s[k + 1..];
    forall b | b in s && b != s[k]
      ensures b in r
    {
      var j :| 0 <= j < |s| && s[j] == b;
      assert r[if j < k then j else j - 1] == b;
    }
  }

  lemma FrontBuffers(used: seq<Buffer>, free: seq<Buffer>, b: Buffer)
    ensures Both([b] + used, free) == Both(used, free) + {b}
  {
  }

  lemma FewerBuffers(used: seq<Buffer>, free: seq<Buffer>, rest: seq<Buffer>, p: Buffer)
    requires Lost(used, rest, p) && p in used
    ensures p !in rest && |rest| == |used| - 1
    ensures Both(rest, free) <= Both(used, free) && Both(rest, [p] + free) <= Both(used, free)
  {
  }

  lemma NotInOther(s: seq<Buffer>, t: seq<Buffer>, b: Buffer)
    requires TwoChains(s, t)
    ensures Distinct(s) && Apart(s, t) && (b in s ==> b !in t)
  {
  }

  /** A buffer without references is not the buffer of any. */
  lemma StillReferenced(refs: seq<Reference>, b: Buffer)
    requires References(refs, b) == 0
    ensures forall i :: 0 <= i < |refs| ==> refs[i].buffer != b
  {
    forall i | 0 <= i < |refs|
      ensures refs[i].buffer != b
    {
      if refs[i].buffer == b {
        SomeReference(refs, i);
      }
    }
  }

  lemma {:induction false} NoReferences(refs: seq<Reference>, b: Buffer)
    requires forall i :: 0 <= i < |refs| ==> refs[i].buffer != b
    ensures References(refs, b) == 0
  {
    if refs != [] {
      NoReferences(refs[..|refs| - 1], b);
    }
  }

  lemma NotUsed(s: seq<Buffer>, t: seq<Buffer>, b: Buffer)
    requires Apart(s, t) && b in t
    ensures b !in s
  {
  }
}
