/** What every reachable state of LogMachine satisfies. */
module LogSafety {
  import opened Params
  import opened LogDisk
  import opened LogMachine

  // ----- the invariant

  ghost predicate Shape(lay: Layout, base: Disk, disk: Disk, mods: seq<Mod>, nops: nat, durable: nat, now: Disk,
                        safe: Disk) {
    && lay.Valid() && |base| == |now| == |safe| == |disk| == lay.size
    && durable <= |mods|
    && (forall k :: 0 <= k < |mods| ==> lay.Home(mods[k].b) && mods[k].op < nops)
    && now == Replay(base, mods)
    && safe == Replay(base, mods[..durable])
  }

  ghost predicate Counts(ops: seq<OpState>, outstanding: int, n: nat, committing: bool, phase: Phase) {
    && outstanding == Active(ops)
    && n + Reserved(ops) <= LOGBLOCKS
    && (forall i :: 0 <= i < |ops| ==> ops[i].used <= MAXOPBLOCKS)
    && committing == (phase.Copying? || phase.Installing? || phase.Finishing?)
    && (!phase.Idle? ==> outstanding == 0)
  }

  /** Locks and references belong to processes that may act; a buffer's count is its references
      plus one if its block is logged, and what is logged or dirty is cached. */
  ghost predicate RefsOk(lay: Layout, s: State) {
    && (forall b :: b in s.locks ==> (s.locks[b], b) in s.refs)
    && (forall p :: p in s.refs ==> p.1 in s.cache && MayAct(s, p.0))
    && (forall b :: b in s.cache ==> CountOk(lay, s, b))
    && (forall i :: PinFrom(s) <= i < |s.lh| ==> s.lh[i] in s.cache)
    && (forall b :: b in s.dirty ==> lay.Home(b) && b in s.locks && s.locks[b].Op?)
  }

  ghost predicate CountOk(lay: Layout, s: State, b: int)
    requires b in s.cache
  {
    0 <= b < lay.size && s.cache[b].refcnt == |Holders(s.refs, b)| + if Pinned(s, b) then 1 else 0
  }

  /** Cached copies are current, and a home block that disk and cache disagree on is pinned or
      held by the operation that is changing it. */
  ghost predicate CacheOk(lay: Layout, s: State)
    requires |s.now| == |s.disk| == lay.size
  {
    && (forall b :: b in s.cache && 0 <= b < lay.size ==> s.cache[b].data == Current(lay, s, b))
    && (!Booting(s) ==> forall b {:trigger s.now[b]} :: lay.Home(b) && s.disk[b] != s.now[b] ==>
      Pinned(s, b) || b in s.dirty)
  }

  ghost function Current(lay: Layout, s: State, b: int): Block
    requires |s.now| == |s.disk| == lay.size && 0 <= b < lay.size
  {
    if lay.Home(b) && !Booting(s) then s.now[b] else s.disk[b]
  }

  ghost predicate LogOk(lay: Layout, disk: Disk, now: Disk, safe: Disk, lh: seq<int>, phase: Phase, allDurable: bool)
    requires |now| == |disk| == lay.size
  {
    && ListOk(lay, lh) && Shows(lay, disk, safe)
    && var head := HeadOf(disk[lay.start]);
    match phase
    case Idle => head == []
    case Copying(t) => head == [] && t <= |lh| && forall i :: 0 <= i < t ==> disk[lay.start + 1 + i] == now[lh[i]]
    case Installing(t) => head == lh && t <= |lh| && allDurable
    case Finishing => head == [] == lh && allDurable
    case Boot => lh == [] && allDurable
    case Replaying(t) =>
      && head == lh && t <= |lh| && allDurable
      && (forall b {:trigger now[b]} :: lay.Home(b) && disk[b] != now[b] ==> Waiting(lh, t, b))
  }

  ghost predicate Waiting(lh: seq<int>, t: nat, b: int) {
    exists i :: t <= i < |lh| && lh[i] == b
  }

  /** Changes a crash would undo are all in listed or dirty blocks, and no operation straddles the
      boundary between what is durable and what is not. */
  ghost predicate Boundary(mods: seq<Mod>, durable: nat, lh: seq<int>, dirty: set<int>, ops: seq<OpState>)
    requires durable <= |mods| && forall k :: 0 <= k < |mods| ==> mods[k].op < |ops|
  {
    && (forall k :: durable <= k < |mods| ==> mods[k].b in lh || mods[k].b in dirty)
    && (forall j :: 0 <= j < durable ==> !ops[mods[j].op].active)
    && (forall j, k :: 0 <= j < durable <= k < |mods| ==> mods[j].op != mods[k].op)
  }

  ghost predicate Inv(lay: Layout, base: Disk, s: State) {
    && Shape(lay, base, s.disk, s.mods, |s.ops|, s.durable, s.now, s.safe)
    && Counts(s.ops, s.outstanding, |s.lh|, s.committing, s.phase)
    && RefsOk(lay, s) && CacheOk(lay, s)
    && LogOk(lay, s.disk, s.now, s.safe, s.lh, s.phase, s.durable == |s.mods|)
    && Boundary(s.mods, s.durable, s.lh, s.dirty, s.ops)
  }

  // ----- bookkeeping lemmas

  lemma ReplayLast(base: Disk, mods: seq<Mod>, m: Mod)
    requires forall k :: 0 <= k < |mods| ==> 0 <= mods[k].b < |base|
    requires 0 <= m.b < |base|
    ensures Replay(base, mods + [m]) == Replay(base, mods)[m.b := m.data]
  {
    assert (mods + [m])[..|mods + [m]| - 1] == mods;
  }

  lemma {:induction false} OpsUpdate(ops: seq<OpState>, i: nat, x: OpState)
    requires i < |ops|
    ensures Active(ops[i := x]) == Active(ops) - (if ops[i].active then 1 else 0) + if x.active then 1 else 0
    ensures Reserved(ops[i := x]) == Reserved(ops) - (if ops[i].active then MAXOPBLOCKS - ops[i].used else 0)
      + if x.active then MAXOPBLOCKS - x.used else 0
  {
    var n := |ops| - 1;
    if i == n {
      assert ops[i := x][..n] == ops[..n];
    } else {
      OpsUpdate(ops[..n], i, x);
      assert ops[i := x][..n] == ops[..n][i := x];
    }
  }

  lemma OpsAppend(ops: seq<OpState>, x: OpState)
    ensures Active(ops + [x]) == Active(ops) + if x.active then 1 else 0
    ensures Reserved(ops + [x]) == Reserved(ops) + if x.active then MAXOPBLOCKS - x.used else 0
  {
    assert (ops + [x])[..|ops + [x]| - 1] == ops;
  }

  lemma {:induction false} OpsStopped(ops: seq<OpState>)
    ensures Active(Stopped(ops)) == 0 && Reserved(Stopped(ops)) == 0
  {
    if ops != [] {
      OpsStopped(ops[..|ops| - 1]);
      assert Stopped(ops)[..|ops| - 1] == Stopped(ops[..|ops| - 1]);
    }
  }

  /** A running operation's unused promise is part of what is reserved. */
  lemma {:induction false} OpsShare(ops: seq<OpState>, i: nat)
    requires i < |ops| && ops[i].active
    requires forall j :: 0 <= j < |ops| ==> ops[j].used <= MAXOPBLOCKS
    ensures Active(ops) >= 1 && Reserved(ops) >= MAXOPBLOCKS - ops[i].used
  {
    OpsNonNegative(ops[..|ops| - 1]);
    if i < |ops| - 1 {
      OpsShare(ops[..|ops| - 1], i);
    }
  }

  lemma {:induction false} OpsNonNegative(ops: seq<OpState>)
    requires forall j :: 0 <= j < |ops| ==> ops[j].used <= MAXOPBLOCKS
    ensures Reserved(ops) >= 0
    ensures Reserved(ops) <= MAXOPBLOCKS * Active(ops)
  {
    if ops != [] {
      OpsNonNegative(ops[..|ops| - 1]);
    }
  }

  lemma AddHolder(refs: set<(Tid, int)>, t: Tid, b: int)
    requires (t, b) !in refs
    ensures |Holders(refs + {(t, b)}, b)| == |Holders(refs, b)| + 1
    ensures forall c :: c != b ==> Holders(refs + {(t, b)}, c) == Holders(refs, c)
  {
    assert Holders(refs + {(t, b)}, b) == Holders(refs, b) + {(t, b)};
  }

  lemma DropHolder(refs: set<(Tid, int)>, t: Tid, b: int)
    requires (t, b) in refs
    ensures |Holders(refs - {(t, b)}, b)| == |Holders(refs, b)| - 1
    ensures forall c :: c != b ==> Holders(refs - {(t, b)}, c) == Holders(refs, c)
  {
    assert Holders(refs, b) == Holders(refs - {(t, b)}, b) + {(t, b)};
  }

  lemma NoneActive(lay: Layout, base: Disk, s: State)
    requires Inv(lay, base, s) && !s.phase.Idle?
    ensures forall i :: 0 <= i < |s.ops| ==> !s.ops[i].active
  {
    forall i | 0 <= i < |s.ops| ensures !s.ops[i].active {
      if s.ops[i].active { OpsShare(s.ops, i); }
    }
  }

  lemma NoneDirty(lay: Layout, base: Disk, s: State)
    requires Inv(lay, base, s) && !s.phase.Idle?
    ensures s.dirty == {}
  {
    NoneActive(lay, base, s);
    forall b ensures b !in s.dirty {
      if b in s.dirty {
        assert false;
      }
    }
  }

  // ----- steps that only move references

  lemma Unreferenced(lay: Layout, s: State, b: int)
    requires RefsOk(lay, s)
    requires b !in s.cache || s.cache[b].refcnt == 0
    ensures Holders(s.refs, b) == {} && !Pinned(s, b) && b !in s.dirty && b !in s.locks
  {
    if b in s.cache {
      assert CountOk(lay, s, b);
    }
    assert forall t :: (t, b) in s.refs ==> (t, b) in Holders(s.refs, b);
  }

  lemma GetRefs(lay: Layout, s: State, t: Tid, b: int, v: int)
    requires RefsOk(lay, s) && CanGet(lay, s, t, b, v)
    ensures RefsOk(lay, Get(lay, s, t, b, v))
    ensures forall c :: Pinned(Get(lay, s, t, b, v), c) == Pinned(s, c)
  {
    var s' := Get(lay, s, t, b, v);
    AddHolder(s.refs, t, b);
    assert forall c :: Pinned(s', c) == Pinned(s, c);
    if b !in s.cache {
      Unreferenced(lay, s, b);
      if |s.cache| >= NBUF {
        Unreferenced(lay, s, v);
        assert forall p :: p in s.refs && p.1 == v ==> p in Holders(s.refs, v);
      }
    }
    forall c | c in s'.cache ensures CountOk(lay, s', c) {
      if c in s.cache { assert CountOk(lay, s, c); }
    }
  }

  lemma GetCache(lay: Layout, s: State, t: Tid, b: int, v: int)
    requires RefsOk(lay, s) && CanGet(lay, s, t, b, v)
    requires |s.now| == lay.size && CacheOk(lay, s)
    requires forall c :: Pinned(Get(lay, s, t, b, v), c) == Pinned(s, c)
    ensures CacheOk(lay, Get(lay, s, t, b, v))
  {
    var s' := Get(lay, s, t, b, v);
    if b !in s.cache {
      Unreferenced(lay, s, b);
      assert s.disk[b] == Current(lay, s, b);
    }
    assert forall c :: 0 <= c < lay.size ==> Current(lay, s', c) == Current(lay, s, c);
  }

  lemma GetKeeps(lay: Layout, base: Disk, s: State, t: Tid, b: int, v: int)
    requires Inv(lay, base, s) && CanGet(lay, s, t, b, v)
    ensures Inv(lay, base, Get(lay, s, t, b, v))
  {
    GetRefs(lay, s, t, b, v);
    GetCache(lay, s, t, b, v);
  }

  lemma LockKeeps(lay: Layout, base: Disk, s: State, t: Tid, b: int)
    requires Inv(lay, base, s) && CanLock(s, t, b)
    ensures Inv(lay, base, Lock(s, t, b))
  {
    var s' := Lock(s, t, b);
    assert forall c :: Pinned(s', c) == Pinned(s, c);
    forall c | c in s'.cache ensures CountOk(lay, s', c) { assert CountOk(lay, s, c); }
  }

  lemma ReleaseKeeps(lay: Layout, base: Disk, s: State, t: Tid, b: int)
    requires Inv(lay, base, s) && CanRelease(s, t, b)
    ensures Inv(lay, base, Release(s, t, b))
  {
    var s' := Release(s, t, b);
    assert forall c :: Pinned(s', c) == Pinned(s, c);
    DropHolder(s.refs, t, b);
    forall c | c in s'.cache ensures CountOk(lay, s', c) { assert CountOk(lay, s, c); }
  }

  // ----- operation steps

  lemma BeginKeeps(lay: Layout, base: Disk, s: State)
    requires Inv(lay, base, s) && CanBeginOp(s)
    ensures Inv(lay, base, BeginOp(s))
  {
    var s' := BeginOp(s);
    OpsAppend(s.ops, OpState(true, 0));
    OpsNonNegative(s.ops);
    assert forall c :: Pinned(s', c) == Pinned(s, c);
    forall c | c in s'.cache ensures CountOk(lay, s', c) { assert CountOk(lay, s, c); }
  }

  lemma ModifyShape(lay: Layout, base: Disk, s: State, i: nat, b: int, data: Block)
    requires Shape(lay, base, s.disk, s.mods, |s.ops|, s.durable, s.now, s.safe) && CanModify(lay, s, i, b)
    ensures var s' := Modify(lay, s, i, b, data);
      Shape(lay, base, s'.disk, s'.mods, |s'.ops|, s'.durable, s'.now, s'.safe)
  {
    ReplayLast(base, s.mods, Mod(i, b, data));
    assert (s.mods + [Mod(i, b, data)])[..s.durable] == s.mods[..s.durable];
  }

  lemma ModifyRefs(lay: Layout, s: State, i: nat, b: int, data: Block)
    requires RefsOk(lay, s) && CanModify(lay, s, i, b)
    ensures RefsOk(lay, Modify(lay, s, i, b, data))
    ensures forall c :: Pinned(Modify(lay, s, i, b, data), c) == Pinned(s, c)
  {
    var s' := Modify(lay, s, i, b, data);
    assert forall c :: Pinned(s', c) == Pinned(s, c);
    forall c | c in s'.cache ensures CountOk(lay, s', c) { assert CountOk(lay, s, c); }
  }

  lemma ModifyKeeps(lay: Layout, base: Disk, s: State, i: nat, b: int, data: Block)
    requires Inv(lay, base, s) && CanModify(lay, s, i, b)
    ensures Inv(lay, base, Modify(lay, s, i, b, data))
  {
    OpsShare(s.ops, i);
    assert s.phase.Idle?;
    ModifyShape(lay, base, s, i, b, data);
    ModifyRefs(lay, s, i, b, data);
    ModifyCache(lay, s, i, b, data);
  }

  lemma ModifyCache(lay: Layout, s: State, i: nat, b: int, data: Block)
    requires CanModify(lay, s, i, b) && |s.now| == |s.disk| == lay.size && CacheOk(lay, s)
    requires forall c :: Pinned(Modify(lay, s, i, b, data), c) == Pinned(s, c)
    ensures CacheOk(lay, Modify(lay, s, i, b, data))
  {
    var s' := Modify(lay, s, i, b, data);
    assert forall c :: 0 <= c < lay.size && c != b ==> Current(lay, s', c) == Current(lay, s, c);
  }

  lemma FindUpdateSame(list: seq<int>, b: int)
    requires Find(list, b) < |list|
    ensures list[Find(list, b) := b] == list
  {
  }

  /** What an operation logs is new to the log only if its buffer was not pinned yet. */
  lemma LogWriteRefs(lay: Layout, s: State, i: nat, b: int)
    requires RefsOk(lay, s) && CanLogWrite(lay, s, i, b) && PinFrom(s) == 0
    ensures RefsOk(lay, LogWrite(lay, s, i, b))
    ensures forall c :: Pinned(LogWrite(lay, s, i, b), c) == (Pinned(s, c) || c == b)
  {
    var s' := LogWrite(lay, s, i, b);
    if Find(s.lh, b) < |s.lh| {
      FindUpdateSame(s.lh, b);
      assert s.lh[Find(s.lh, b)] == b;
      assert forall c :: Pinned(s', c) == Pinned(s, c);
    } else {
      assert forall j :: 0 <= j < |s.lh| ==> s'.lh[j] == s.lh[j];
      assert s'.lh[|s.lh|] == b;
      assert !Pinned(s, b);
      assert forall c :: Pinned(s', c) == (Pinned(s, c) || c == b);
    }
    forall c | c in s'.cache ensures CountOk(lay, s', c) { assert CountOk(lay, s, c); }
  }

  lemma LogWriteKeeps(lay: Layout, base: Disk, s: State, i: nat, b: int)
    requires Inv(lay, base, s) && CanLogWrite(lay, s, i, b)
    ensures !LogWritePanics(s)
    ensures Inv(lay, base, LogWrite(lay, s, i, b))
  {
    OpsShare(s.ops, i);
    assert s.phase.Idle?;
    LogWriteRefs(lay, s, i, b);
    LogWriteCache(lay, s, i, b);
    LogWriteLists(lay, s, i, b);
    LogWriteCounts(lay, s, i, b);
  }

  lemma LogWriteCounts(lay: Layout, s: State, i: nat, b: int)
    requires CanLogWrite(lay, s, i, b) && Counts(s.ops, s.outstanding, |s.lh|, s.committing, s.phase)
    ensures var s' := LogWrite(lay, s, i, b);
      Counts(s'.ops, s'.outstanding, |s'.lh|, s'.committing, s'.phase)
  {
    OpsUpdate(s.ops, i, OpState(true, s.ops[i].used + 1));
  }

  lemma LogWriteCache(lay: Layout, s: State, i: nat, b: int)
    requires CanLogWrite(lay, s, i, b) && |s.now| == |s.disk| == lay.size && CacheOk(lay, s)
    requires forall c :: Pinned(LogWrite(lay, s, i, b), c) == (Pinned(s, c) || c == b)
    ensures CacheOk(lay, LogWrite(lay, s, i, b))
  {
    var s' := LogWrite(lay, s, i, b);
    assert forall c :: 0 <= c < lay.size ==> Current(lay, s', c) == Current(lay, s, c);
  }

  lemma LogWriteLists(lay: Layout, s: State, i: nat, b: int)
    requires CanLogWrite(lay, s, i, b) && ListOk(lay, s.lh) && |s.lh| < LOGBLOCKS
    requires s.durable <= |s.mods| && (forall k :: 0 <= k < |s.mods| ==> s.mods[k].op < |s.ops|)
    requires Boundary(s.mods, s.durable, s.lh, s.dirty, s.ops)
    ensures var s' := LogWrite(lay, s, i, b);
      ListOk(lay, s'.lh) && Boundary(s'.mods, s'.durable, s'.lh, s'.dirty, s'.ops)
  {
    if Find(s.lh, b) < |s.lh| {
      FindUpdateSame(s.lh, b);
      assert s.lh[Find(s.lh, b)] == b;
    }
  }

  lemma EndOpRefs(lay: Layout, s: State, i: nat)
    requires RefsOk(lay, s) && CanEndOp(s, i) && s.phase.Idle?
    ensures RefsOk(lay, EndOp(s, i))
    ensures forall c :: Pinned(EndOp(s, i), c) == Pinned(s, c)
  {
    var s' := EndOp(s, i);
    assert forall c :: Pinned(s', c) == Pinned(s, c);
    forall c | c in s'.cache ensures CountOk(lay, s', c) { assert CountOk(lay, s, c); }
  }

  lemma EndOpKeeps(lay: Layout, base: Disk, s: State, i: nat)
    requires Inv(lay, base, s) && CanEndOp(s, i)
    ensures !s.committing
    ensures Inv(lay, base, EndOp(s, i))
  {
    OpsShare(s.ops, i);
    assert s.phase.Idle?;
    EndOpRefs(lay, s, i);
    EndOpCounts(s, i);
    if s.outstanding == 1 {
      EndOpLast(lay, base, s, i);
    }
  }

  lemma EndOpCounts(s: State, i: nat)
    requires CanEndOp(s, i) && Counts(s.ops, s.outstanding, |s.lh|, s.committing, s.phase) && s.phase.Idle?
    ensures var s' := EndOp(s, i);
      Counts(s'.ops, s'.outstanding, |s'.lh|, s'.committing, s'.phase)
  {
    OpsUpdate(s.ops, i, OpState(false, s.ops[i].used));
  }

  lemma OnlyActive(ops: seq<OpState>, i: nat)
    requires i < |ops| && ops[i].active && Active(ops) == 1
    requires forall j :: 0 <= j < |ops| ==> ops[j].used <= MAXOPBLOCKS
    ensures forall j :: 0 <= j < |ops| && ops[j].active ==> j == i
  {
    var ops' := ops[i := OpState(false, ops[i].used)];
    OpsUpdate(ops, i, OpState(false, ops[i].used));
    forall j | 0 <= j < |ops| && j != i ensures !ops[j].active {
      if ops'[j].active { OpsShare(ops', j); }
    }
  }

  /** The last operation to end leaves nothing dirty, so with an empty log nothing is undurable. */
  lemma EndOpLast(lay: Layout, base: Disk, s: State, i: nat)
    requires Inv(lay, base, s) && CanEndOp(s, i) && s.outstanding == 1
    ensures s.dirty == {}
    ensures s.lh == [] ==> s.durable == |s.mods|
  {
    OnlyActive(s.ops, i);
    forall p | p in s.refs ensures !p.0.Op? {
      assert MayAct(s, p.0);
    }
    forall b ensures b !in s.dirty {
      if b in s.dirty {
        assert false;
      }
    }
  }

  // ----- commit steps

  lemma AllDurable(lay: Layout, base: Disk, s: State)
    requires Shape(lay, base, s.disk, s.mods, |s.ops|, s.durable, s.now, s.safe) && s.durable == |s.mods|
    ensures s.safe == s.now
  {
    assert s.mods[..s.durable] == s.mods;
  }

  /** With an empty on-disk list, writing a log slot changes no meaning. */
  lemma SlotWriteShows(lay: Layout, d: Disk, v: Disk, x: int, data: Block)
    requires Shows(lay, d, v) && HeadOf(d[lay.start]) == [] && lay.start < x <= lay.start + LOGBLOCKS
    ensures Shows(lay, d[x := data], v)
  {
    forall b | lay.Home(b) ensures Means(lay, d[x := data], b, v[b]) {
      assert Means(lay, d, b, v[b]);
    }
  }

  /** Writing the home copy of a listed block changes no meaning. */
  lemma ListedWriteShows(lay: Layout, d: Disk, v: Disk, t: nat, data: Block)
    requires Shows(lay, d, v) && t < |HeadOf(d[lay.start])|
    ensures Shows(lay, d[HeadOf(d[lay.start])[t] := data], v)
  {
    var list := HeadOf(d[lay.start]);
    var d' := d[list[t] := data];
    assert lay.Home(list[t]);
    forall b | lay.Home(b) ensures Means(lay, d', b, v[b]) {
      assert Means(lay, d, b, v[b]);
    }
  }

  /** A listed block means its log slot. */
  lemma SlotMeans(lay: Layout, d: Disk, v: Disk, t: nat)
    requires Shows(lay, d, v) && t < |HeadOf(d[lay.start])|
    ensures d[lay.start + 1 + t] == v[HeadOf(d[lay.start])[t]]
  {
    var b := HeadOf(d[lay.start])[t];
    assert lay.Home(b);
    assert Means(lay, d, b, v[b]);
  }

  lemma CopyRefs(lay: Layout, s: State)
    requires RefsOk(lay, s) && CanCopy(lay, s)
    ensures RefsOk(lay, Copy(lay, s))
    ensures forall c :: Pinned(Copy(lay, s), c) == Pinned(s, c)
  {
    var s' := Copy(lay, s);
    assert forall c :: Pinned(s', c) == Pinned(s, c);
    forall c | c in s'.cache ensures CountOk(lay, s', c) { assert CountOk(lay, s, c); }
  }

  lemma CopyCache(lay: Layout, s: State)
    requires CanCopy(lay, s) && |s.lh| <= LOGBLOCKS && lay.Valid() && |s.now| == |s.disk| == lay.size && CacheOk(lay, s)
    requires forall c :: Pinned(Copy(lay, s), c) == Pinned(s, c)
    ensures CacheOk(lay, Copy(lay, s))
  {
    var s' := Copy(lay, s);
    assert forall c :: 0 <= c < lay.size && c != lay.start + 1 + s.phase.tail ==>
      Current(lay, s', c) == Current(lay, s, c);
  }

  lemma CopyLog(lay: Layout, s: State)
    requires |s.now| == |s.disk| == lay.size && CacheOk(lay, s)
    requires LogOk(lay, s.disk, s.now, s.safe, s.lh, s.phase, s.durable == |s.mods|) && CanCopy(lay, s)
    ensures var s' := Copy(lay, s);
      LogOk(lay, s'.disk, s'.now, s'.safe, s'.lh, s'.phase, s'.durable == |s'.mods|)
  {
    var tail := s.phase.tail;
    assert lay.Home(s.lh[tail]);
    assert s.cache[s.lh[tail]].data == Current(lay, s, s.lh[tail]);
    SlotWriteShows(lay, s.disk, s.safe, lay.start + 1 + tail, s.now[s.lh[tail]]);
  }

  lemma CopyKeeps(lay: Layout, base: Disk, s: State)
    requires Inv(lay, base, s) && CanCopy(lay, s)
    ensures Inv(lay, base, Copy(lay, s))
  {
    CopyRefs(lay, s);
    CopyCache(lay, s);
    CopyLog(lay, s);
  }

  lemma NewListMeans(lay: Layout, s: State, d: Disk, b: int)
    requires |s.now| == |s.disk| == lay.size && lay.Valid() && lay.Home(b)
    requires LogOk(lay, s.disk, s.now, s.safe, s.lh, s.phase, s.durable == |s.mods|)
    requires s.phase == Copying(|s.lh|) && s.dirty == {} && CacheOk(lay, s)
    requires d == s.disk[lay.start := PutHead(s.disk[lay.start], s.lh)]
    ensures DiskOk(lay, d) && Means(lay, d, b, s.now[b])
  {
    assert HeadOf(d[lay.start]) == s.lh;
    forall i | 0 <= i < |s.lh| && s.lh[i] == b ensures d[lay.start + 1 + i] == s.now[b] {
    }
    if Absent(s.lh, |s.lh|, b) {
      assert !Pinned(s, b);
      assert s.disk[b] == s.now[b];
    }
  }

  lemma WriteHeadRefs(lay: Layout, s: State)
    requires RefsOk(lay, s) && CanWriteHead(lay, s)
    ensures RefsOk(lay, WriteHead(lay, s))
    ensures forall c :: Pinned(WriteHead(lay, s), c) == Pinned(s, c)
  {
    var s' := WriteHead(lay, s);
    assert forall c :: Pinned(s', c) == Pinned(s, c);
    forall c | c in s'.cache ensures CountOk(lay, s', c) { assert CountOk(lay, s, c); }
  }

  lemma WriteHeadLog(lay: Layout, s: State)
    requires |s.now| == |s.disk| == lay.size && CacheOk(lay, s) && s.dirty == {}
    requires LogOk(lay, s.disk, s.now, s.safe, s.lh, s.phase, s.durable == |s.mods|) && CanWriteHead(lay, s)
    ensures var s' := WriteHead(lay, s);
      LogOk(lay, s'.disk, s'.now, s'.safe, s'.lh, s'.phase, s'.durable == |s'.mods|)
  {
    var s' := WriteHead(lay, s);
    assert s.cache[lay.start].data == Current(lay, s, lay.start);
    assert s'.disk == s.disk[lay.start := PutHead(s.disk[lay.start], s.lh)];
    forall b | lay.Home(b) ensures Means(lay, s'.disk, b, s.now[b]) {
      NewListMeans(lay, s, s'.disk, b);
    }
  }

  lemma WriteHeadCache(lay: Layout, s: State)
    requires |s.now| == |s.disk| == lay.size && CacheOk(lay, s) && CanWriteHead(lay, s) && lay.Valid()
    requires forall c :: Pinned(WriteHead(lay, s), c) == Pinned(s, c)
    ensures CacheOk(lay, WriteHead(lay, s))
  {
    var s' := WriteHead(lay, s);
    assert forall c :: 0 <= c < lay.size && c != lay.start ==> Current(lay, s', c) == Current(lay, s, c);
  }

  lemma WriteHeadKeeps(lay: Layout, base: Disk, s: State)
    requires Inv(lay, base, s) && CanWriteHead(lay, s)
    ensures Inv(lay, base, WriteHead(lay, s))
    ensures WriteHead(lay, s).safe == s.now
  {
    NoneActive(lay, base, s);
    NoneDirty(lay, base, s);
    WriteHeadRefs(lay, s);
    WriteHeadCache(lay, s);
    WriteHeadLog(lay, s);
    WriteHeadShape(lay, base, s);
  }

  lemma WriteHeadShape(lay: Layout, base: Disk, s: State)
    requires Shape(lay, base, s.disk, s.mods, |s.ops|, s.durable, s.now, s.safe) && CanWriteHead(lay, s)
    requires forall i :: 0 <= i < |s.ops| ==> !s.ops[i].active
    ensures var s' := WriteHead(lay, s);
      && Shape(lay, base, s'.disk, s'.mods, |s'.ops|, s'.durable, s'.now, s'.safe)
      && Boundary(s'.mods, s'.durable, s'.lh, s'.dirty, s'.ops)
  {
    assert s.mods[..|s.mods|] == s.mods;
  }

  lemma InstallRefs(lay: Layout, s: State)
    requires RefsOk(lay, s) && CanInstall(lay, s) && Distinct(s.lh)
    ensures RefsOk(lay, Install(lay, s))
    ensures forall c :: Pinned(Install(lay, s), c) == (Pinned(s, c) && c != s.lh[s.phase.tail])
  {
    var s' := Install(lay, s);
    var t := s.phase.tail;
    assert Pinned(s, s.lh[t]);
    forall c ensures Pinned(s', c) == (Pinned(s, c) && c != s.lh[t]) {
    }
    forall c | c in s'.cache ensures CountOk(lay, s', c) { assert CountOk(lay, s, c); }
  }

  lemma InstallCache(lay: Layout, s: State)
    requires CanInstall(lay, s) && ListOk(lay, s.lh) && lay.Valid() && |s.now| == |s.disk| == lay.size
      && CacheOk(lay, s)
    requires s.disk[lay.start + 1 + s.phase.tail] == s.now[s.lh[s.phase.tail]]
    requires forall c :: Pinned(Install(lay, s), c) == (Pinned(s, c) && c != s.lh[s.phase.tail])
    ensures CacheOk(lay, Install(lay, s))
  {
    var s' := Install(lay, s);
    var t := s.phase.tail;
    assert lay.Home(s.lh[t]);
    assert s.cache[lay.start + 1 + t].data == Current(lay, s, lay.start + 1 + t);
    assert forall c :: 0 <= c < lay.size && c != s.lh[t] ==> Current(lay, s', c) == Current(lay, s, c);
  }

  lemma InstallLog(lay: Layout, s: State)
    requires |s.now| == |s.disk| == lay.size && CanInstall(lay, s)
    requires LogOk(lay, s.disk, s.now, s.safe, s.lh, s.phase, s.durable == |s.mods|)
    ensures var s' := Install(lay, s);
      LogOk(lay, s'.disk, s'.now, s'.safe, s'.lh, s'.phase, s'.durable == |s'.mods|)
    ensures s.disk[lay.start + 1 + s.phase.tail] == s.safe[s.lh[s.phase.tail]]
  {
    var t := s.phase.tail;
    assert lay.Home(s.lh[t]);
    SlotMeans(lay, s.disk, s.safe, t);
    ListedWriteShows(lay, s.disk, s.safe, t, s.cache[lay.start + 1 + t].data);
  }

  lemma InstallKeeps(lay: Layout, base: Disk, s: State)
    requires Inv(lay, base, s) && CanInstall(lay, s)
    ensures Inv(lay, base, Install(lay, s))
  {
    AllDurable(lay, base, s);
    InstallLog(lay, s);
    InstallRefs(lay, s);
    InstallCache(lay, s);
  }

  lemma EraseRefs(lay: Layout, s: State)
    requires RefsOk(lay, s) && CanErase(lay, s)
    ensures RefsOk(lay, Erase(lay, s))
    ensures forall c :: !Pinned(Erase(lay, s), c) && !Pinned(s, c)
  {
    var s' := Erase(lay, s);
    assert forall c :: !Pinned(s', c) && !Pinned(s, c);
    forall c | c in s'.cache ensures CountOk(lay, s', c) { assert CountOk(lay, s, c); }
  }

  lemma EraseCacheLog(lay: Layout, s: State)
    requires |s.now| == |s.disk| == lay.size && CacheOk(lay, s) && s.dirty == {} && s.safe == s.now && CanErase(lay, s)
    requires LogOk(lay, s.disk, s.now, s.safe, s.lh, s.phase, s.durable == |s.mods|)
    requires forall c :: !Pinned(s, c)
    ensures var s' := Erase(lay, s);
      && CacheOk(lay, s')
      && LogOk(lay, s'.disk, s'.now, s'.safe, s'.lh, s'.phase, s'.durable == |s'.mods|)
      && Installed(lay, s'.disk, s'.safe)
  {
    var s' := Erase(lay, s);
    assert s.cache[lay.start].data == Current(lay, s, lay.start);
    assert forall c :: 0 <= c < lay.size && c != lay.start ==> Current(lay, s', c) == Current(lay, s, c);
    assert forall b :: lay.Home(b) ==> s.disk[b] == s.now[b];
    ClearedShows(lay, s.disk, s.now, s'.disk);
  }

  lemma EraseKeeps(lay: Layout, base: Disk, s: State)
    requires Inv(lay, base, s) && CanErase(lay, s)
    ensures Inv(lay, base, Erase(lay, s))
  {
    AllDurable(lay, base, s);
    NoneDirty(lay, base, s);
    EraseRefs(lay, s);
    EraseCacheLog(lay, s);
  }

  lemma EndCommitKeeps(lay: Layout, base: Disk, s: State)
    requires Inv(lay, base, s) && CanEndCommit(s)
    ensures Inv(lay, base, EndCommit(s))
  {
    var s' := EndCommit(s);
    assert forall c :: Pinned(s', c) == Pinned(s, c);
    forall c | c in s'.cache ensures CountOk(lay, s', c) { assert CountOk(lay, s, c); }
  }

  // ----- crash and recovery steps

  lemma CrashKeeps(lay: Layout, base: Disk, s: State)
    requires Inv(lay, base, s)
    ensures Inv(lay, base, Crash(s))
  {
    OpsStopped(s.ops);
    assert s.mods[..s.durable][..s.durable] == s.mods[..s.durable];
  }

  lemma ReadHeadLog(lay: Layout, s: State)
    requires |s.now| == |s.disk| == lay.size && CacheOk(lay, s) && s.safe == s.now && CanReadHead(lay, s)
    requires LogOk(lay, s.disk, s.now, s.safe, s.lh, s.phase, s.durable == |s.mods|)
    ensures var s' := ReadHead(lay, s);
      LogOk(lay, s'.disk, s'.now, s'.safe, s'.lh, s'.phase, s'.durable == |s'.mods|)
  {
    var list := HeadOf(s.disk[lay.start]);
    assert s.cache[lay.start].data == s.disk[lay.start] by {
      assert s.cache[lay.start].data == Current(lay, s, lay.start);
    }
    forall b | lay.Home(b) && s.disk[b] != s.now[b] ensures Waiting(list, 0, b) {
      assert Means(lay, s.disk, b, s.safe[b]);
    }
  }

  lemma ReadHeadKeeps(lay: Layout, base: Disk, s: State)
    requires Inv(lay, base, s) && CanReadHead(lay, s)
    ensures Inv(lay, base, ReadHead(lay, s))
  {
    var s' := ReadHead(lay, s);
    AllDurable(lay, base, s);
    ReadHeadLog(lay, s);
    NoneActive(lay, base, s);
    OpsIdle(s.ops);
    assert forall c :: !Pinned(s', c) && !Pinned(s, c);
    forall c | c in s'.cache ensures CountOk(lay, s', c) { assert CountOk(lay, s, c); }
  }

  lemma {:induction false} OpsIdle(ops: seq<OpState>)
    requires forall i :: 0 <= i < |ops| ==> !ops[i].active
    ensures Reserved(ops) == 0
  {
    if ops != [] {
      OpsIdle(ops[..|ops| - 1]);
    }
  }

  lemma ReplayRefs(lay: Layout, s: State)
    requires RefsOk(lay, s) && CanReplay(lay, s)
    ensures RefsOk(lay, ReplayOne(lay, s))
  {
    var s' := ReplayOne(lay, s);
    assert forall c :: !Pinned(s', c) && !Pinned(s, c);
    forall c | c in s'.cache ensures CountOk(lay, s', c) { assert CountOk(lay, s, c); }
  }

  lemma ReplayLog(lay: Layout, s: State)
    requires |s.now| == |s.disk| == lay.size && CacheOk(lay, s) && s.safe == s.now && CanReplay(lay, s)
    requires LogOk(lay, s.disk, s.now, s.safe, s.lh, s.phase, s.durable == |s.mods|)
    ensures var s' := ReplayOne(lay, s);
      CacheOk(lay, s') && LogOk(lay, s'.disk, s'.now, s'.safe, s'.lh, s'.phase, s'.durable == |s'.mods|)
  {
    var s' := ReplayOne(lay, s);
    var t := s.phase.tail;
    assert lay.Home(s.lh[t]);
    SlotMeans(lay, s.disk, s.safe, t);
    assert s.cache[lay.start + 1 + t].data == Current(lay, s, lay.start + 1 + t);
    ListedWriteShows(lay, s.disk, s.safe, t, s.now[s.lh[t]]);
    forall b | lay.Home(b) && s'.disk[b] != s.now[b] ensures Waiting(s.lh, t + 1, b) {
      assert Waiting(s.lh, t, b);
    }
    assert forall c :: 0 <= c < lay.size && c != s.lh[t] ==> Current(lay, s', c) == Current(lay, s, c);
  }

  lemma ReplayKeeps(lay: Layout, base: Disk, s: State)
    requires Inv(lay, base, s) && CanReplay(lay, s)
    ensures Inv(lay, base, ReplayOne(lay, s))
  {
    AllDurable(lay, base, s);
    ReplayRefs(lay, s);
    ReplayLog(lay, s);
  }

  lemma FinishRefs(lay: Layout, s: State)
    requires RefsOk(lay, s) && CanFinish(lay, s) && s.dirty == {}
    ensures RefsOk(lay, FinishRecovery(lay, s))
  {
    var s' := FinishRecovery(lay, s);
    assert forall c :: !Pinned(s', c) && !Pinned(s, c);
    forall c | c in s'.cache ensures CountOk(lay, s', c) {
      assert CountOk(lay, s, c);
      assert Holders(s'.refs, c) == {};
      if c != lay.start { assert Holders(s.refs, c) == {}; }
    }
  }

  lemma FinishLog(lay: Layout, s: State)
    requires |s.now| == |s.disk| == lay.size && CacheOk(lay, s) && s.safe == s.now && CanFinish(lay, s)
    requires LogOk(lay, s.disk, s.now, s.safe, s.lh, s.phase, s.durable == |s.mods|)
    ensures var s' := FinishRecovery(lay, s);
      && CacheOk(lay, s')
      && LogOk(lay, s'.disk, s'.now, s'.safe, s'.lh, s'.phase, s'.durable == |s'.mods|)
      && Installed(lay, s'.disk, s'.safe)
  {
    var s' := FinishRecovery(lay, s);
    assert s.cache[lay.start].data == Current(lay, s, lay.start);
    assert forall b :: lay.Home(b) ==> s.disk[b] == s.now[b];
    assert forall c :: 0 <= c < lay.size && c != lay.start ==> Current(lay, s', c) == Current(lay, s, c);
    ClearedShows(lay, s.disk, s.now, s'.disk);
  }

  lemma FinishKeeps(lay: Layout, base: Disk, s: State)
    requires Inv(lay, base, s) && CanFinish(lay, s)
    ensures Inv(lay, base, FinishRecovery(lay, s))
  {
    AllDurable(lay, base, s);
    NoneDirty(lay, base, s);
    FinishRefs(lay, s);
    FinishLog(lay, s);
  }

  // ----- every run

  lemma FreshInv(lay: Layout, disk: Disk, base: Disk)
    requires Shows(lay, disk, base)
    ensures Inv(lay, base, Fresh(disk, base))
  {
  }

  lemma StepKeeps(lay: Layout, base: Disk, s: State, step: Step)
    requires Inv(lay, base, s) && Enabled(lay, s, step)
    ensures Inv(lay, base, Do(lay, s, step))
  {
    match step
    case SGet(t, b, v) => GetKeeps(lay, base, s, t, b, v);
    case SLock(t, b) => LockKeeps(lay, base, s, t, b);
    case SRelease(t, b) => ReleaseKeeps(lay, base, s, t, b);
    case SBeginOp => BeginKeeps(lay, base, s);
    case SModify(i, b, data) => ModifyKeeps(lay, base, s, i, b, data);
    case SLogWrite(i, b) => LogWriteKeeps(lay, base, s, i, b);
    case SEndOp(i) => EndOpKeeps(lay, base, s, i);
    case SCopy => CopyKeeps(lay, base, s);
    case SWriteHead => WriteHeadKeeps(lay, base, s);
    case SInstall => InstallKeeps(lay, base, s);
    case SErase => EraseKeeps(lay, base, s);
    case SEndCommit => EndCommitKeeps(lay, base, s);
    case SCrash => CrashKeeps(lay, base, s);
    case SReadHead => ReadHeadKeeps(lay, base, s);
    case SReplay => ReplayKeeps(lay, base, s);
    case SFinish => FinishKeeps(lay, base, s);
  }

  lemma {:induction false} RunKeeps(lay: Layout, disk: Disk, base: Disk, steps: seq<Step>, s: State)
    requires Shows(lay, disk, base) && Run(lay, disk, base, steps, s)
    ensures Inv(lay, base, s)
    decreases |steps|
  {
    if steps == [] {
      FreshInv(lay, disk, base);
    } else {
      var n := |steps| - 1;
      var r :| Run(lay, disk, base, steps[..n], r) && Enabled(lay, r, steps[n]) && s == Do(lay, r, steps[n]);
      RunKeeps(lay, disk, base, steps[..n], r);
      StepKeeps(lay, base, r, steps[n]);
    }
  }

  /** Crash safety of every interleaving: at any moment the disk means the changes made so far up to
      a boundary, all changes before it belong to operations that have ended, and every operation's
      changes lie wholly before or wholly after it. */
  lemma CrashSafe(lay: Layout, disk: Disk, base: Disk, steps: seq<Step>, s: State)
    requires Shows(lay, disk, base) && Run(lay, disk, base, steps, s)
    ensures s.durable <= |s.mods| && forall k :: 0 <= k < |s.mods| ==> lay.Home(s.mods[k].b) && s.mods[k].op < |s.ops|
    ensures lay.size == |base| && forall k :: 0 <= k < s.durable ==> 0 <= s.mods[..s.durable][k].b < |base|
    ensures Shows(lay, s.disk, Replay(base, s.mods[..s.durable]))
    ensures forall j :: 0 <= j < s.durable ==> !s.ops[s.mods[j].op].active
    ensures forall j, k :: 0 <= j < s.durable <= k < |s.mods| ==> s.mods[j].op != s.mods[k].op
  {
    RunKeeps(lay, disk, base, steps, s);
  }

  /** A completed recovery has put exactly the durable changes in the home blocks, with an empty log. */
  lemma RecoveryCompletes(lay: Layout, disk: Disk, base: Disk, steps: seq<Step>, s: State)
    requires Shows(lay, disk, base) && Run(lay, disk, base, steps, s) && CanFinish(lay, s)
    ensures s.durable == |s.mods| && forall k :: 0 <= k < |s.mods| ==> 0 <= s.mods[k].b < |base|
    ensures Installed(lay, FinishRecovery(lay, s).disk, Replay(base, s.mods))
  {
    RunKeeps(lay, disk, base, steps, s);
    AllDurable(lay, base, s);
    FinishLog(lay, s);
  }

  /** When end_op comes back from commit(), every change made so far survives any crash. */
  lemma CommitMakesDurable(lay: Layout, disk: Disk, base: Disk, steps: seq<Step>, s: State)
    requires Shows(lay, disk, base) && Run(lay, disk, base, steps, s) && CanEndCommit(s)
    ensures s.durable == |s.mods| && s.lh == [] && forall i :: 0 <= i < |s.ops| ==> !s.ops[i].active
    ensures forall k :: 0 <= k < |s.mods| ==> 0 <= s.mods[k].b < |base|
    ensures Installed(lay, s.disk, Replay(base, s.mods))
  {
    RunKeeps(lay, disk, base, steps, s);
    AllDurable(lay, base, s);
    NoneActive(lay, base, s);
    forall b | lay.Home(b) ensures s.disk[b] == s.now[b] {
      assert Means(lay, s.disk, b, s.safe[b]);
    }
  }

  /** Cache transparency: whoever holds a home block's buffer sees the latest change to the block;
      a buffer's count is its references plus one if logged; recycling an unreferenced buffer loses
      nothing, because the disk already agrees with it. */
  lemma CacheTransparent(lay: Layout, disk: Disk, base: Disk, steps: seq<Step>, s: State, b: int)
    requires Shows(lay, disk, base) && Run(lay, disk, base, steps, s) && !Booting(s)
    requires b in s.cache && lay.Home(b)
    ensures forall k :: 0 <= k < |s.mods| ==> 0 <= s.mods[k].b < |base|
    ensures |base| == |s.disk| == lay.size && s.cache[b].data == Replay(base, s.mods)[b]
    ensures s.cache[b].refcnt == |Holders(s.refs, b)| + if Pinned(s, b) then 1 else 0
    ensures s.cache[b].refcnt == 0 ==> s.disk[b] == Replay(base, s.mods)[b]
  {
    RunKeeps(lay, disk, base, steps, s);
    assert CountOk(lay, s, b);
    assert s.cache[b].data == Current(lay, s, b);
    if s.cache[b].refcnt == 0 {
      Unreferenced(lay, s, b);
    }
  }

  /** Reservation: logged blocks plus what running operations may still add fit the log, so an
      operation that has added fewer than MAXOPBLOCKS blocks cannot meet log_write's panics; and
      nobody can be inside an operation while a commit is running. */
  lemma ReservationHolds(lay: Layout, disk: Disk, base: Disk, steps: seq<Step>, s: State)
    requires Shows(lay, disk, base) && Run(lay, disk, base, steps, s)
    ensures |s.lh| + Reserved(s.ops) <= LOGBLOCKS
    ensures s.outstanding == Active(s.ops)
    ensures s.committing ==> s.outstanding == 0
    ensures forall i, b :: CanLogWrite(lay, s, i, b) ==> !LogWritePanics(s)
    ensures forall i :: CanEndOp(s, i) ==> !s.committing
  {
    RunKeeps(lay, disk, base, steps, s);
    forall i, b | CanLogWrite(lay, s, i, b) ensures !LogWritePanics(s) {
      LogWriteKeeps(lay, base, s, i, b);
    }
    forall i | CanEndOp(s, i) ensures !s.committing {
      EndOpKeeps(lay, base, s, i);
    }
  }

  ghost predicate WritesNext(lay: Layout, s: State, s': State, hd: Block, k: nat)
    requires |hd.words| == WORDS
  {
    && |s.lh| <= LOGBLOCKS && k < 2 * |s.lh| + 2 && (forall i :: 0 <= i < |s.lh| ==> 0 <= s.lh[i] < |s.now|)
    && var w := CommitWrite(lay, hd, s.lh, s.now, k);
    0 <= w.b < |s.disk| && s'.disk == s.disk[w.b := w.data]
  }

  /** The machine's commit makes the writes of commit() on the current contents, in order. */
  lemma CopyInOrder(lay: Layout, base: Disk, s: State, hd: Block)
    requires Inv(lay, base, s) && CanCopy(lay, s) && |hd.words| == WORDS
    ensures WritesNext(lay, s, Copy(lay, s), hd, s.phase.tail)
  {
    forall i | 0 <= i < |s.lh| ensures 0 <= s.lh[i] < |s.now| { assert lay.Home(s.lh[i]); }
    assert s.cache[s.lh[s.phase.tail]].data == Current(lay, s, s.lh[s.phase.tail]);
  }

  lemma PointInOrder(lay: Layout, base: Disk, s: State)
    requires Inv(lay, base, s) && CanWriteHead(lay, s)
    ensures WritesNext(lay, s, WriteHead(lay, s), s.disk[lay.start], |s.lh|)
  {
    forall i | 0 <= i < |s.lh| ensures 0 <= s.lh[i] < |s.now| { assert lay.Home(s.lh[i]); }
    assert s.cache[lay.start].data == Current(lay, s, lay.start);
  }

  lemma InstallInOrder(lay: Layout, base: Disk, s: State, hd: Block)
    requires Inv(lay, base, s) && CanInstall(lay, s) && |hd.words| == WORDS
    ensures WritesNext(lay, s, Install(lay, s), hd, |s.lh| + 1 + s.phase.tail)
  {
    AllDurable(lay, base, s);
    InstallLog(lay, s);
    InstallNext(lay, s, hd);
  }

  lemma InstallNext(lay: Layout, s: State, hd: Block)
    requires CanInstall(lay, s) && lay.Valid() && ListOk(lay, s.lh) && |hd.words| == WORDS
    requires |s.now| == |s.disk| == lay.size && CacheOk(lay, s)
    requires s.disk[lay.start + 1 + s.phase.tail] == s.now[s.lh[s.phase.tail]]
    ensures WritesNext(lay, s, Install(lay, s), hd, |s.lh| + 1 + s.phase.tail)
  {
    assert s.cache[lay.start + 1 + s.phase.tail].data == Current(lay, s, lay.start + 1 + s.phase.tail);
  }
}
