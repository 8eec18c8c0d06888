/** Any interleaving of the steps of any threads. */
module PoolRuns {
  import opened PoolList
  import opened BufferPool

  /** A step of the schedule; i is the number of a reference. A step that its thread cannot take is skipped. */
  datatype Step =
    | Allocate(thread: nat)
    | Share(i: nat, receiver: nat)
    | Check(i: nat)
    | Finish(i: nat)
    | Pooling(on: bool)

  /** The pool between two steps; `made` are the buffers ever created. */
  datatype Pool = Pool(made: seq<Buffer>, used: seq<Buffer>, free: seq<Buffer>, deleted: seq<Buffer>,
    refs: seq<Reference>, pooling: bool)

  ghost const EMPTY_POOL: Pool := Pool([], [], [], [], [], true)

  /** The last reference to a buffer is gone. */
  ghost function Retired(p: Pool, b: Buffer): Pool {
    p.(used := Removed(p.used, b), free := if p.pooling then [b] + p.free else p.free,
       deleted := if p.pooling then p.deleted else p.deleted + [b])
  }

  /** What each step does: only an allocation from an empty free list creates a buffer. */
  ghost predicate Stepped(p: Pool, step: Step, q: Pool) {
    match step
    case Allocate(thread) =>
      q.used != [] &&
      var b := q.used[0];
      var p' := p.(used := [b] + p.used, refs := p.refs + [Reference(thread, b, false)]);
      if p.free == [] then b !in p.made && q == p'.(made := p.made + [b])
      else b == p.free[0] && q == p'.(free := p.free[1..])
    case Share(i, receiver) =>
      q == if i < |p.refs| && References(p.refs, p.refs[i].buffer) < MAX_REFERENCES
           then p.(refs := p.refs + [Reference(receiver, p.refs[i].buffer, false)]) else p
    case Check(i) =>
      q == if i < |p.refs| && !p.refs[i].checked
           then p.(refs := p.refs[i := p.refs[i].(checked := true)]) else p
    case Finish(i) =>
      if i < |p.refs| && p.refs[i].checked then
        var b, p' := p.refs[i].buffer, p.(refs := Without(p.refs, i));
        q == if References(p'.refs, b) > 0 then p' else Retired(p', b)
      else q == p
    case Pooling(on) => q == p.(pooling := on)
  }

  ghost function Owned(refs: seq<Reference>): set<Buffer> { set r | r in refs :: r.buffer }

  ghost function Listed(s: seq<Buffer>): set<Buffer> { set b | b in s }

  ghost predicate Partition(made: seq<Buffer>, used: seq<Buffer>, free: seq<Buffer>, deleted: seq<Buffer>) {
    multiset(made) == multiset(used) + multiset(free) + multiset(deleted)
  }

  /** Every buffer made is used, free or deleted, and only one of these; the used ones are those with a reference. */
  ghost predicate Kept(p: Pool) {
    && Distinct(p.made) && Partition(p.made, p.used, p.free, p.deleted)
    && Owned(p.refs) == Listed(p.used)
  }

  lemma {:induction false} DistinctOnce(s: seq<Buffer>, b: Buffer)
    requires Distinct(s)
    ensures multiset(s)[b] <= 1
  {
    if s != [] {
      DistinctOnce(s[1..], b);
      assert s == [s[0]] + s[1..];
    }
  }

  lemma {:induction false} DistinctSize(s: seq<Buffer>)
    requires Distinct(s)
    ensures |Listed(s)| == |s|
  {
    if s != [] {
      DistinctSize(s[1..]);
      assert s == [s[0]] + s[1..];
      assert Listed(s) == {s[0]} + Listed(s[1..]);
    }
  }

  lemma {:induction false} OnceDistinct(s: seq<Buffer>)
    requires forall b :: multiset(s)[b] <= 1
    ensures Distinct(s)
  {
    if s != [] {
      assert s == [s[0]] + s[1..];
      assert forall b :: multiset(s[1..])[b] <= multiset(s)[b];
      OnceDistinct(s[1..]);
      assert multiset(s)[s[0]] == 1 + multiset(s[1..])[s[0]];
      assert forall j :: 0 < j < |s| ==> s[j] == s[1..][j - 1];
    }
  }

  /** As many buffers are in use as have references. */
  lemma UsedOnce(p: Pool)
    requires Kept(p)
    ensures Distinct(p.used) && |Owned(p.refs)| == |p.used|
    ensures forall b :: b in p.used ==> b in p.made && b !in p.free && b !in p.deleted
  {
    hide Distinct, Owned, Listed;
    forall b
      ensures multiset(p.used)[b] <= 1
      ensures b in p.used ==> b in p.made && b !in p.free && b !in p.deleted
    {
      DistinctOnce(p.made, b);
      OneList(p, b);
    }
    OnceDistinct(p.used);
    DistinctSize(p.used);
  }

  lemma OneList(p: Pool, b: Buffer)
    requires Partition(p.made, p.used, p.free, p.deleted) && multiset(p.made)[b] <= 1
    ensures multiset(p.used)[b] <= 1
    ensures b in p.used ==> b in p.made && b !in p.free && b !in p.deleted
  {
    assert multiset(p.made)[b] == multiset(p.used)[b] + multiset(p.free)[b] + multiset(p.deleted)[b];
    assert b in p.used ==> b in multiset(p.used);
    assert b in p.free ==> b in multiset(p.free);
    assert b in p.deleted ==> b in multiset(p.deleted);
    assert b in multiset(p.made) ==> b in p.made;
  }

  lemma {:induction false} RemovedOnce(s: seq<Buffer>, b: Buffer)
    requires b in s
    ensures multiset(s) == multiset(Removed(s, b)) + multiset{b}
  {
    assert s == [s[0]] + s[1..];
    if s[0] != b {
      RemovedOnce(s[1..], b);
    }
  }

  lemma OwnedMore(refs: seq<Reference>, r: Reference)
    ensures Owned(refs + [r]) == Owned(refs) + {r.buffer}
  {
  }

  lemma OwnedMarked(refs: seq<Reference>, i: nat, r: Reference)
    requires i < |refs| && r.buffer == refs[i].buffer
    ensures Owned(refs[i := r]) == Owned(refs)
  {
    var s := refs[i := r];
    assert forall x :: x in s ==> x == r || x in refs;
    assert s[i] == r && refs[i] in refs;
    forall x | x in refs
      ensures x.buffer in Owned(s)
    {
      var j :| 0 <= j < |refs| && refs[j] == x;
      assert s[j] in s;
    }
  }

  lemma OwnedLess(refs: seq<Reference>, i: nat)
    requires i < |refs|
    ensures var b, left := refs[i].buffer, Without(refs, i);
      Owned(left) == if References(left, b) > 0 then Owned(refs) else Owned(refs) - {b}
  {
    var b, left := refs[i].buffer, Without(refs, i);
    assert forall x :: x in left ==> x in refs;
    forall x | x in refs && x.buffer != b
      ensures x in left
    {
      var j :| 0 <= j < |refs| && refs[j] == x;
      assert left[if j < i then j else j - 1] == x;
    }
    assert refs[i] in refs;
    if References(left, b) > 0 {
      if b !in Owned(left) {
        assert forall j :: 0 <= j < |left| ==> left[j] in left;
        NoReferences(left, b);
      }
    } else {
      StillReferenced(left, b);
    }
  }

  lemma DistinctMore(s: seq<Buffer>, b: Buffer)
    requires Distinct(s) && b !in s
    ensures Distinct(s + [b])
  {
  }

  lemma PartitionAllocated(p: Pool, b: Buffer)
    requires Partition(p.made, p.used, p.free, p.deleted)
    ensures p.free == [] ==> Partition(p.made + [b], [b] + p.used, p.free, p.deleted)
    ensures p.free != [] && b == p.free[0] ==> Partition(p.made, [b] + p.used, p.free[1..], p.deleted)
  {
    if p.free != [] && b == p.free[0] {
      assert p.free == [b] + p.free[1..];
    }
  }

  lemma AllocateKeeps(p: Pool, thread: nat, q: Pool)
    requires Kept(p) && Stepped(p, Allocate(thread), q)
    ensures Kept(q)
  {
    hide References, Removed, Without, Owned, Retired, Distinct;
    var b := q.used[0];
    OwnedMore(p.refs, Reference(thread, b, false));
    assert Listed(q.used) == Listed(p.used) + {b};
    PartitionAllocated(p, b);
    hide Listed, Partition;
    if p.free == [] {
      DistinctMore(p.made, b);
    }
  }

  lemma FinishKeeps(p: Pool, i: nat, q: Pool)
    requires Kept(p) && Stepped(p, Finish(i), q)
    ensures Kept(q)
  {
    hide References, Removed, Without, Owned, Distinct;
    UsedOnce(p);
    if i < |p.refs| {
      var b := p.refs[i].buffer;
      OwnedAt(p.refs, i);
      OwnedLess(p.refs, i);
      RemovedOnce(p.used, b);
      RemovedListed(p.used, b);
    }
  }

  /** Every step keeps the pool in order. */
  lemma StepKeeps(p: Pool, step: Step, q: Pool)
    requires Kept(p) && Stepped(p, step, q)
    ensures Kept(q)
  {
    match step
    case Allocate(thread) => AllocateKeeps(p, thread, q);
    case Share(i, receiver) =>
      hide References, Owned;
      if i < |p.refs| {
        OwnedMore(p.refs, Reference(receiver, p.refs[i].buffer, false));
        OwnedAt(p.refs, i);
      }
    case Check(i) =>
      hide Owned;
      if i < |p.refs| {
        OwnedMarked(p.refs, i, p.refs[i].(checked := true));
      }
    case Finish(i) => FinishKeeps(p, i, q);
    case Pooling(on) =>
  }

  lemma OwnedAt(refs: seq<Reference>, i: nat)
    requires i < |refs|
    ensures refs[i].buffer in Owned(refs)
  {
    assert refs[i] in refs;
  }

  lemma RemovedListed(s: seq<Buffer>, b: Buffer)
    requires Distinct(s) && b in s
    ensures Listed(Removed(s, b)) == Listed(s) - {b}
  {
    hide Removed;
    var k :| 0 <= k < |s| && s[k] == b;
    RemovedAt(s, k);
    OutOf(s, k);
  }

  // Histories.

  /** The pools before and after each step of a schedule, from an empty pool. */
  ghost predicate History(pools: seq<Pool>, schedule: seq<Step>) {
    && |pools| == |schedule| + 1 && pools[0] == EMPTY_POOL
    && forall k :: 0 <= k < |schedule| ==> Stepped(pools[k], schedule[k], pools[k + 1])
  }

  /** The greatest number of buffers in use at once. */
  ghost function Greatest(pools: seq<Pool>): nat {
    if pools == [] then 0
    else
      var g, n := Greatest(pools[..|pools| - 1]), |Owned(pools[|pools| - 1].refs)|;
      if n > g then n else g
  }

  /** In every history, at every point, the pool is in order. */
  lemma {:induction false} HistoryKeeps(pools: seq<Pool>, schedule: seq<Step>, k: nat)
    requires History(pools, schedule) && k < |pools|
    ensures Kept(pools[k])
  {
    hide Stepped;
    if k > 0 {
      HistoryKeeps(pools, schedule, k - 1);
      StepKeeps(pools[k - 1], schedule[k - 1], pools[k]);
    }
  }

  /** A buffer with a reference is in use: it is neither free nor deleted. */
  lemma NeverFreeWhileReferenced(pools: seq<Pool>, schedule: seq<Step>, k: nat, i: nat)
    requires History(pools, schedule) && k < |pools| && i < |pools[k].refs|
    ensures var p, b := pools[k], pools[k].refs[i].buffer; b in p.used && b !in p.free && b !in p.deleted
  {
    hide History;
    HistoryKeeps(pools, schedule, k);
    UsedOnce(pools[k]);
    OwnedAt(pools[k].refs, i);
  }

  lemma HistoryBefore(pools: seq<Pool>, schedule: seq<Step>)
    requires History(pools, schedule) && schedule != []
    ensures History(pools[..|pools| - 1], schedule[..|schedule| - 1])
  {
    hide Stepped;
  }

  /** With pooling never switched off, as many buffers are ever made as were in use at once. */
  lemma {:induction false} HighWater(pools: seq<Pool>, schedule: seq<Step>)
    requires History(pools, schedule) && Pooling(false) !in schedule
    ensures var p := pools[|pools| - 1]; p.pooling && p.deleted == [] && |p.made| == Greatest(pools)
    decreases |schedule|
  {
    hide Stepped, References, Removed, Without;
    var n := |schedule|;
    if n == 0 {
      assert pools[..0] == [];
    } else {
      HistoryBefore(pools, schedule);
      HighWater(pools[..n], schedule[..n - 1]);
      HistoryKeeps(pools, schedule, n - 1);
      HistoryKeeps(pools, schedule, n);
      var p, q := pools[n - 1], pools[n];
      assert pools[..n][n - 1] == p;
      UsedOnce(p);
      UsedOnce(q);
      var g, more := Greatest(pools[..n]), |Owned(q.refs)|;
      assert Greatest(pools) == if more > g then more else g;
      hide Owned, Greatest;
      MadeLate(p, schedule[n - 1], q);
      assert schedule[n - 1] in schedule;
      assert |p.made| == |multiset(p.made)| && |q.made| == |multiset(q.made)|;
    }
  }

  lemma MadeLate(p: Pool, step: Step, q: Pool)
    requires Stepped(p, step, q) && p.pooling && step != Pooling(false)
    ensures q.pooling && q.deleted == p.deleted
    ensures q.made == p.made || (p.free == q.free == [] && |q.made| == |p.made| + 1 && |q.used| == |p.used| + 1)
  {
    hide References, Removed, Without;
  }

  // The steps themselves.

  /** p is what the manager shows. */
  ghost predicate Shows(m: Manager, p: Pool)
    reads m
  {
    p.used == m.used && p.free == m.free && p.deleted == m.deleted && p.refs == m.refs && p.pooling == m.enablePool
  }

  /** One step. The test outside the mutex never fails, so every release that begins can be finished. */
  method Take(m: Manager, step: Step, owned: seq<Reference>, ghost p: Pool)
    returns (owned': seq<Reference>, ghost q: Pool)
    requires m.Valid() && owned == m.refs && Shows(m, p)
    modifies m, m.buffers
    ensures m.Valid() && owned' == m.refs && fresh(m.buffers - old(m.buffers))
    ensures Shows(m, q) && Stepped(p, step, q)
  {
    hide Manager.Lists, Manager.Counts, Cleared, References, Removed, Without;
    owned' := owned;
    InUse(m);
    ghost var made := p.made;
    if step.Allocate? {
      var b := m.AllocDataBuff(step.thread);
      owned' := owned + [Reference(step.thread, b, false)];
      made := if p.free == [] then made + [b] else made;
    } else if step.Share? && step.i < |owned| && owned[step.i].buffer.refCount < MAX_REFERENCES {
      m.AddRef(step.i, owned[step.i].buffer, step.receiver);
      owned' := owned + [Reference(step.receiver, owned[step.i].buffer, false)];
    } else if step.Check? && step.i < |owned| && !owned[step.i].checked {
      var ok := m.CheckRelease(owned[step.i].buffer, step.i);
      assert ok;
      owned' := owned[step.i := owned[step.i].(checked := true)];
    } else if step.Finish? && step.i < |owned| && owned[step.i].checked {
      m.FinishRelease(owned[step.i].buffer, step.i);
      owned' := Without(owned, step.i);
    } else if step.Pooling? {
      m.SetEnablePool(step.on);
    }
    q := Pool(made, m.used, m.free, m.deleted, m.refs, m.enablePool);
  }

  /** A referenced buffer is in use, neither free nor deleted, and its count is the number of its references. */
  lemma InUse(m: Manager)
    requires m.Valid()
    ensures forall i :: 0 <= i < |m.refs| ==>
      var b := m.refs[i].buffer;
      b in m.used && b !in m.free && b !in m.deleted && b in m.buffers && b.refCount == References(m.refs, b)
  {
    hide References;
    forall i | 0 <= i < |m.refs|
      ensures var b := m.refs[i].buffer;
        b in m.used && b !in m.free && b !in m.deleted && b in m.buffers && b.refCount == References(m.refs, b)
    {
      UsedBuffer(m.RefCounts(), m.used, m.free, m.refs, i);
    }
  }

  /** Every interleaving, from an empty pool: each step does what it should, and the pool stays in order. */
  method Run(schedule: seq<Step>) returns (m: Manager, owned: seq<Reference>, ghost pools: seq<Pool>)
    ensures m.Valid() && owned == m.refs && History(pools, schedule) && Shows(m, pools[|schedule|])
  {
    hide Manager.Lists, Manager.Counts, Cleared, Stepped;
    m := new Manager();
    owned, pools := [], [EMPTY_POOL];
    for i := 0 to |schedule|
      invariant m.Valid() && owned == m.refs && fresh(m) && fresh(m.buffers)
      invariant History(pools, schedule[..i]) && Shows(m, pools[i])
    {
      ghost var q;
      owned, q := Take(m, schedule[i], owned, pools[i]);
      pools := pools + [q];
    }
    assert schedule[..|schedule|] == schedule;
  }

  /**
   After any run and the end of the pool, every buffer ever made has been deleted once. With pooling
   never switched off they are as many as were in use at once.
   */
  method RunAndReleaseAll(schedule: seq<Step>) returns (ghost pools: seq<Pool>, ghost gone: seq<Buffer>)
    ensures History(pools, schedule)
    ensures var p := pools[|schedule|]; Distinct(p.made) && multiset(p.deleted + gone) == multiset(p.made)
    ensures Pooling(false) !in schedule ==>
      multiset(gone) == multiset(pools[|schedule|].made) && |gone| == Greatest(pools)
  {
    hide Manager.Lists, Manager.Counts, Cleared, Greatest, History;
    var m, owned;
    m, owned, pools := Run(schedule);
    gone := m.ReleaseAll();
    LastPool(pools, schedule, gone);
  }

  lemma LastPool(pools: seq<Pool>, schedule: seq<Step>, gone: seq<Buffer>)
    requires History(pools, schedule) && gone == pools[|schedule|].free + pools[|schedule|].used
    ensures var p := pools[|schedule|]; Distinct(p.made) && multiset(p.deleted + gone) == multiset(p.made)
    ensures Pooling(false) !in schedule ==>
      multiset(gone) == multiset(pools[|schedule|].made) && |gone| == Greatest(pools)
  {
    hide Stepped, Greatest;
    var p := pools[|schedule|];
    HistoryKeeps(pools, schedule, |schedule|);
    if Pooling(false) !in schedule {
      HighWater(pools, schedule);
      assert p.deleted + gone == gone;
      assert |gone| == |multiset(gone)| && |p.made| == |multiset(p.made)|;
    }
  }
}
