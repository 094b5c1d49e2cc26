/** Every interleaving of file-system operations, readers, the committing process and crashes, over
    the buffer cache of kernel/bio.c and the redo log of kernel/log.c.  A step is one critical
    section or one disk write; a crash may come after any step, also during recovery. */
module LogMachine {
  import opened Params
  import opened LogDisk

  /** Who can hold a buffer: an operation between begin_op and end_op, a process reading outside
      any operation, or the process running commit() or recovery. */
  datatype Tid = Op(i: nat) | Reader(r: nat) | Logger

  datatype Buf = Buf(data: Block, refcnt: nat)
  datatype OpState = OpState(active: bool, used: nat)
  datatype Mod = Mod(op: nat, b: int, data: Block)

  /** Where the logger is: `Copying` runs write_log and ends with the header write, `Installing` runs
      install_trans and ends with the erasing header write, `Boot` and `Replaying` are recovery. */
  datatype Phase = Idle | Copying(tail: nat) | Installing(tail: nat) | Finishing | Boot | Replaying(tail: nat)

  /** `ops`, `dirty`, `mods`, `durable`, `now` and `safe` are bookkeeping: each operation ever begun
      and the log blocks it added, buffers changed but not yet log_written, the history of changes
      that may still survive, the part of it a crash cannot undo, and what the two amount to. */
  datatype State = State(
    disk: Disk, cache: map<int, Buf>, refs: set<(Tid, int)>, locks: map<int, Tid>,
    lh: seq<int>, outstanding: int, committing: bool, phase: Phase,
    ops: seq<OpState>, dirty: set<int>, mods: seq<Mod>, durable: nat, now: Disk, safe: Disk)

  // ----- bookkeeping functions

  function Replay(base: Disk, mods: seq<Mod>): (d: Disk)
    requires forall k :: 0 <= k < |mods| ==> 0 <= mods[k].b < |base|
    ensures |d| == |base|
  {
    if mods == [] then base else Replay(base, mods[..|mods| - 1])[mods[|mods| - 1].b := mods[|mods| - 1].data]
  }

  function Active(ops: seq<OpState>): nat {
    if ops == [] then 0 else Active(ops[..|ops| - 1]) + if ops[|ops| - 1].active then 1 else 0
  }

  /** Log space promised to running operations and not yet used by them. */
  function Reserved(ops: seq<OpState>): int {
    if ops == [] then 0
    else Reserved(ops[..|ops| - 1]) + if ops[|ops| - 1].active then MAXOPBLOCKS - ops[|ops| - 1].used else 0
  }

  function Stopped(ops: seq<OpState>): (r: seq<OpState>)
    ensures |r| == |ops|
  {
    seq(|ops|, i requires 0 <= i < |ops| => OpState(false, ops[i].used))
  }

  function Holders(refs: set<(Tid, int)>, b: int): set<(Tid, int)> {
    set p | p in refs && p.1 == b
  }

  predicate Booting(s: State) { s.phase.Boot? || s.phase.Replaying? }

  /** The first entry of lh that still pins its buffer. */
  function PinFrom(s: State): nat {
    match s.phase
    case Installing(tail) => tail
    case Boot => |s.lh|
    case Replaying(_) => |s.lh|
    case _ => 0
  }

  ghost predicate Pinned(s: State, b: int) {
    exists i :: PinFrom(s) <= i < |s.lh| && s.lh[i] == b
  }

  predicate MayAct(s: State, t: Tid) {
    match t
    case Op(i) => i < |s.ops| && s.ops[i].active && !Booting(s)
    case Reader(_) => !Booting(s)
    case Logger => !s.phase.Idle?
  }

  predicate Holds(s: State, t: Tid, b: int) { b in s.locks && s.locks[b] == t && b in s.cache }

  // ----- buffer steps: bget with the read it may need, acquiresleep, brelse

  predicate CanGet(lay: Layout, s: State, t: Tid, b: int, victim: int) {
    && MayAct(s, t) && 0 <= b < lay.size == |s.disk| && (t, b) !in s.refs
    && (b in s.cache || |s.cache| < NBUF || (victim in s.cache && s.cache[victim].refcnt == 0))
  }

  function Get(lay: Layout, s: State, t: Tid, b: int, victim: int): State
    requires CanGet(lay, s, t, b, victim)
  {
    if b in s.cache then
      s.(cache := s.cache[b := s.cache[b].(refcnt := s.cache[b].refcnt + 1)], refs := s.refs + {(t, b)})
    else
      var room := if |s.cache| < NBUF then s.cache else s.cache - {victim};
      s.(cache := room[b := Buf(s.disk[b], 1)], refs := s.refs + {(t, b)})
  }

  predicate CanLock(s: State, t: Tid, b: int) { (t, b) in s.refs && b !in s.locks }

  function Lock(s: State, t: Tid, b: int): State { s.(locks := s.locks[b := t]) }

  /** An operation log_writes what it changed before it lets go. */
  predicate CanRelease(s: State, t: Tid, b: int) { Holds(s, t, b) && b !in s.dirty && s.cache[b].refcnt > 0 }

  function Release(s: State, t: Tid, b: int): State
    requires CanRelease(s, t, b)
  {
    s.(locks := s.locks - {b}, refs := s.refs - {(t, b)},
       cache := s.cache[b := s.cache[b].(refcnt := s.cache[b].refcnt - 1)])
  }

  // ----- operation steps: begin_op, a change to a buffer, log_write, end_op up to its commit

  predicate CanBeginOp(s: State) {
    !Booting(s) && !s.committing && |s.lh| + (s.outstanding + 1) * MAXOPBLOCKS <= LOGBLOCKS
  }

  function BeginOp(s: State): State { s.(outstanding := s.outstanding + 1, ops := s.ops + [OpState(true, 0)]) }

  predicate CanModify(lay: Layout, s: State, i: nat, b: int) {
    MayAct(s, Op(i)) && Holds(s, Op(i), b) && lay.Home(b) && lay.size == |s.now|
  }

  function Modify(lay: Layout, s: State, i: nat, b: int, data: Block): State
    requires CanModify(lay, s, i, b)
  {
    s.(cache := s.cache[b := s.cache[b].(data := data)], dirty := s.dirty + {b},
       mods := s.mods + [Mod(i, b, data)], now := s.now[b := data])
  }

  /** The one thing asked of an operation: it has added fewer than MAXOPBLOCKS blocks so far. */
  predicate CanLogWrite(lay: Layout, s: State, i: nat, b: int) {
    MayAct(s, Op(i)) && Holds(s, Op(i), b) && lay.Home(b) && s.ops[i].used < MAXOPBLOCKS
  }

  function LogWrite(lay: Layout, s: State, i: nat, b: int): State
    requires CanLogWrite(lay, s, i, b)
  {
    var k := Find(s.lh, b);
    if k < |s.lh| then s.(lh := s.lh[k := b], dirty := s.dirty - {b})
    else
      s.(lh := s.lh + [b], dirty := s.dirty - {b}, ops := s.ops[i := OpState(true, s.ops[i].used + 1)],
         cache := s.cache[b := s.cache[b].(refcnt := s.cache[b].refcnt + 1)])
  }

  /** log_write's two panics. */
  predicate LogWritePanics(s: State) { |s.lh| >= LOGBLOCKS || s.outstanding < 1 }

  predicate CanEndOp(s: State, i: nat) { MayAct(s, Op(i)) && forall p :: p in s.refs ==> p.0 != Op(i) }

  function EndOp(s: State, i: nat): State
    requires CanEndOp(s, i)
  {
    var s' := s.(outstanding := s.outstanding - 1, ops := s.ops[i := OpState(false, s.ops[i].used)]);
    if s'.outstanding == 0 then s'.(committing := true, phase := if s.lh == [] then Finishing else Copying(0)) else s'
  }

  // ----- commit steps

  /** memmove into the cached copy of block `to`, then bwrite. */
  function CopyAndWrite(s: State, to: int, data: Block): State
    requires to in s.cache && 0 <= to < |s.disk|
  {
    s.(cache := s.cache[to := s.cache[to].(data := data)], disk := s.disk[to := data])
  }

  predicate HoldsPair(lay: Layout, s: State, tail: nat) {
    && tail < |s.lh| && 0 <= s.lh[tail] < |s.disk| && lay.start + 1 + tail < |s.disk|
    && Holds(s, Logger, lay.start + 1 + tail) && Holds(s, Logger, s.lh[tail])
  }

  predicate HoldsHead(lay: Layout, s: State) {
    lay.start < |s.disk| && Holds(s, Logger, lay.start) && |s.cache[lay.start].data.words| == WORDS
  }

  predicate CanCopy(lay: Layout, s: State) { s.phase.Copying? && HoldsPair(lay, s, s.phase.tail) }

  function Copy(lay: Layout, s: State): State
    requires CanCopy(lay, s)
  {
    var tail := s.phase.tail;
    CopyAndWrite(s, lay.start + 1 + tail, s.cache[s.lh[tail]].data).(phase := Copying(tail + 1))
  }

  predicate CanWriteHead(lay: Layout, s: State) {
    s.phase.Copying? && s.phase.tail == |s.lh| <= LOGBLOCKS && HoldsHead(lay, s)
  }

  function WriteHead(lay: Layout, s: State): State
    requires CanWriteHead(lay, s)
  {
    CopyAndWrite(s, lay.start, PutHead(s.cache[lay.start].data, s.lh))
      .(phase := Installing(0), durable := |s.mods|, safe := s.now)
  }

  predicate CanInstall(lay: Layout, s: State) {
    s.phase.Installing? && HoldsPair(lay, s, s.phase.tail) && s.cache[s.lh[s.phase.tail]].refcnt > 0
  }

  function Install(lay: Layout, s: State): State
    requires CanInstall(lay, s)
  {
    var tail := s.phase.tail;
    var dst := s.lh[tail];
    var s' := CopyAndWrite(s, dst, s.cache[lay.start + 1 + tail].data);
    s'.(phase := Installing(tail + 1), cache := s'.cache[dst := s'.cache[dst].(refcnt := s.cache[dst].refcnt - 1)])
  }

  predicate CanErase(lay: Layout, s: State) { s.phase.Installing? && s.phase.tail == |s.lh| && HoldsHead(lay, s) }

  function Erase(lay: Layout, s: State): State
    requires CanErase(lay, s)
  {
    CopyAndWrite(s, lay.start, PutHead(s.cache[lay.start].data, [])).(phase := Finishing, lh := [])
  }

  predicate CanEndCommit(s: State) { s.phase.Finishing? && forall p :: p in s.refs ==> p.0 != Logger }

  function EndCommit(s: State): State { s.(phase := Idle, committing := false) }

  // ----- crash and recovery steps

  function Crash(s: State): State
    requires s.durable <= |s.mods|
  {
    State(s.disk, map[], {}, map[], [], 0, false, Boot, Stopped(s.ops), {}, s.mods[..s.durable], s.durable, s.safe,
      s.safe)
  }

  predicate CanReadHead(lay: Layout, s: State) {
    s.phase.Boot? && HoldsHead(lay, s) && 0 <= s.cache[lay.start].data.words[0] <= LOGBLOCKS
  }

  function ReadHead(lay: Layout, s: State): State
    requires CanReadHead(lay, s)
  {
    s.(lh := HeadOf(s.cache[lay.start].data), phase := Replaying(0))
  }

  predicate CanReplay(lay: Layout, s: State) { s.phase.Replaying? && HoldsPair(lay, s, s.phase.tail) }

  function ReplayOne(lay: Layout, s: State): State
    requires CanReplay(lay, s)
  {
    var tail := s.phase.tail;
    CopyAndWrite(s, s.lh[tail], s.cache[lay.start + 1 + tail].data).(phase := Replaying(tail + 1))
  }

  predicate CanFinish(lay: Layout, s: State) {
    s.phase.Replaying? && s.phase.tail == |s.lh| && HoldsHead(lay, s) && s.refs == {(Logger, lay.start)}
  }

  /** Recovery's erasing header write, and the brelse that ends write_head. */
  function FinishRecovery(lay: Layout, s: State): State
    requires CanFinish(lay, s)
  {
    var s' := CopyAndWrite(s, lay.start, PutHead(s.cache[lay.start].data, []));
    s'.(phase := Idle, lh := [], refs := {}, locks := map[],
        cache := s'.cache[lay.start := s'.cache[lay.start].(refcnt := 0)])
  }

  // ----- runs

  datatype Step =
    | SGet(t: Tid, b: int, victim: int) | SLock(t: Tid, b: int) | SRelease(t: Tid, b: int)
    | SBeginOp | SModify(i: nat, b: int, data: Block) | SLogWrite(i: nat, b: int) | SEndOp(i: nat)
    | SCopy | SWriteHead | SInstall | SErase | SEndCommit
    | SCrash | SReadHead | SReplay | SFinish

  predicate Enabled(lay: Layout, s: State, step: Step) {
    match step
    case SGet(t, b, v) => CanGet(lay, s, t, b, v)
    case SLock(t, b) => CanLock(s, t, b)
    case SRelease(t, b) => CanRelease(s, t, b)
    case SBeginOp => CanBeginOp(s)
    case SModify(i, b, _) => CanModify(lay, s, i, b)
    case SLogWrite(i, b) => CanLogWrite(lay, s, i, b)
    case SEndOp(i) => CanEndOp(s, i)
    case SCopy => CanCopy(lay, s)
    case SWriteHead => CanWriteHead(lay, s)
    case SInstall => CanInstall(lay, s)
    case SErase => CanErase(lay, s)
    case SEndCommit => CanEndCommit(s)
    case SCrash => s.durable <= |s.mods|
    case SReadHead => CanReadHead(lay, s)
    case SReplay => CanReplay(lay, s)
    case SFinish => CanFinish(lay, s)
  }

  function Do(lay: Layout, s: State, step: Step): State
    requires Enabled(lay, s, step)
  {
    match step
    case SGet(t, b, v) => Get(lay, s, t, b, v)
    case SLock(t, b) => Lock(s, t, b)
    case SRelease(t, b) => Release(s, t, b)
    case SBeginOp => BeginOp(s)
    case SModify(i, b, data) => Modify(lay, s, i, b, data)
    case SLogWrite(i, b) => LogWrite(lay, s, i, b)
    case SEndOp(i) => EndOp(s, i)
    case SCopy => Copy(lay, s)
    case SWriteHead => WriteHead(lay, s)
    case SInstall => Install(lay, s)
    case SErase => Erase(lay, s)
    case SEndCommit => EndCommit(s)
    case SCrash => Crash(s)
    case SReadHead => ReadHead(lay, s)
    case SReplay => ReplayOne(lay, s)
    case SFinish => FinishRecovery(lay, s)
  }

  /** Power-on over a disk that means `base`: nothing cached, recovery about to start. */
  function Fresh(disk: Disk, base: Disk): State {
    State(disk, map[], {}, map[], [], 0, false, Boot, [], {}, [], 0, base, base)
  }

  /** `s` can be reached by `steps` from power-on. */
  ghost predicate Run(lay: Layout, disk: Disk, base: Disk, steps: seq<Step>, s: State)
    decreases |steps|
  {
    if steps == [] then s == Fresh(disk, base)
    else
      var n := |steps| - 1;
      exists r :: Run(lay, disk, base, steps[..n], r) && Enabled(lay, r, steps[n]) && s == Do(lay, r, steps[n])
  }
}
