/** How much an operation may log. log_write of kernel/log.c compares lh.n with LOGBLOCKS before it looks for
    the block in the list, so an operation that has used its whole budget can be stopped even when
    it logs nothing new. */
module LogBudget {
  import opened Params
  import opened LogDisk
  import opened LogMachine
  import opened LogSafety

  /** log_write stops with "too big a transaction" just when the log is full, and then every running
      operation has added all of its MAXOPBLOCKS blocks. */
  lemma PanicMeansSpent(lay: Layout, disk: Disk, base: Disk, steps: seq<Step>, s: State, i: nat)
    requires Shows(lay, disk, base) && Run(lay, disk, base, steps, s) && i < |s.ops| && s.ops[i].active
    ensures LogWritePanics(s) <==> |s.lh| == LOGBLOCKS
    ensures LogWritePanics(s) ==> s.ops[i].used == MAXOPBLOCKS
  {
    RunKeeps(lay, disk, base, steps, s);
    OpsShare(s.ops, i);
  }

  // ----- three operations that use all they may

  const lay0 := Layout(2, 200)

  function Blank(): Block { Block(seq(WORDS, _ => 0)) }

  function EmptyLog(): Disk { seq(200, _ => Blank()) }

  /** The k-th block logged, and the operation that logs it. */
  function Target(k: nat): int { 100 + k }

  function Listed(k: nat): (list: seq<int>)
    ensures |list| == k && forall i :: 0 <= i < k ==> list[i] == Target(i)
  {
    if k == 0 then [] else Listed(k - 1) + [Target(k - 1)]
  }

  function Owner(k: nat): nat { k / MAXOPBLOCKS }

  function Used(k: nat, i: nat): nat {
    if k <= i * MAXOPBLOCKS then 0 else if k <= (i + 1) * MAXOPBLOCKS then k - i * MAXOPBLOCKS else MAXOPBLOCKS
  }

  function Running(k: nat): seq<OpState> {
    [OpState(true, Used(k, 0)), OpState(true, Used(k, 1)), OpState(true, Used(k, 2))]
  }

  /** The blocks that operation i has passed to log_write. */
  ghost function LoggedBy(steps: seq<Step>, i: nat): set<int> {
    set step | step in steps && step.SLogWrite? && step.i == i :: step.b
  }

  /** So far every log_write was of one of the first k blocks, by its owner. */
  ghost predicate Shared(steps: seq<Step>, k: nat) {
    forall step :: step in steps ==> OwnWrite(step, k)
  }

  predicate OwnWrite(step: Step, k: nat) {
    step.SLogWrite? ==> exists j: nat :: j < k && step.b == Target(j) && step.i == Owner(j)
  }

  lemma SharedMore(steps: seq<Step>, k: nat)
    requires Shared(steps, k)
    ensures Shared(steps, k + 1)
  {
    forall step | step in steps ensures OwnWrite(step, k + 1) {
      assert OwnWrite(step, k);
    }
  }

  lemma {:induction false} CountFrom(lo: int, n: nat, a: set<int>)
    requires forall x :: x in a ==> lo <= x < lo + n
    ensures |a| <= n
  {
    if n == 0 {
      forall x ensures x !in a {
      }
      assert a == {};
    } else {
      CountFrom(lo, n - 1, a - {lo + n - 1});
      assert a <= (a - {lo + n - 1}) + {lo + n - 1};
    }
  }

  /** Then no operation has logged more blocks than it may. */
  lemma WithinBudget(steps: seq<Step>, k: nat, i: nat)
    requires Shared(steps, k)
    ensures |LoggedBy(steps, i)| <= MAXOPBLOCKS
  {
    forall b | b in LoggedBy(steps, i) ensures Target(i * MAXOPBLOCKS) <= b < Target(i * MAXOPBLOCKS) + MAXOPBLOCKS {
      var step :| step in steps && step.SLogWrite? && step.i == i && step.b == b;
      assert OwnWrite(step, k);
    }
    CountFrom(Target(i * MAXOPBLOCKS), MAXOPBLOCKS, LoggedBy(steps, i));
  }

  /** `s` is reached with k blocks logged by three operations, none of them holding a buffer. */
  ghost predicate Filled(steps: seq<Step>, s: State, k: nat) {
    && Run(lay0, EmptyLog(), EmptyLog(), steps, s) && Shared(steps, k)
    && s.phase == Idle && !s.committing && s.outstanding == 3 && s.ops == Running(k)
    && s.lh == Listed(k)
    && s.refs == {} && s.locks == map[] && s.dirty == {} && |s.disk| == lay0.size
    && |s.cache| <= k + 1
    && (k < LOGBLOCKS ==> lay0.start in s.cache && s.cache[lay0.start].refcnt == 0)
  }

  lemma RunStep(steps: seq<Step>, s: State, step: Step)
    requires Run(lay0, EmptyLog(), EmptyLog(), steps, s) && Enabled(lay0, s, step)
    ensures Run(lay0, EmptyLog(), EmptyLog(), steps + [step], Do(lay0, s, step))
  {
    assert (steps + [step])[..|steps|] == steps;
  }

  lemma EmptyDisk()
    ensures Shows(lay0, EmptyLog(), EmptyLog()) && HeadOf(EmptyLog()[lay0.start]) == []
  {
    assert EmptyLog()[lay0.start] == Blank();
    assert HeadOf(EmptyLog()[lay0.start]) == [];
  }

  lemma NoSteps()
    ensures Run(lay0, EmptyLog(), EmptyLog(), [], Fresh(EmptyLog(), EmptyLog())) && Shared([], 0)
  {
  }

  /** Recovery over an empty log. */
  lemma Recovered() returns (steps: seq<Step>, s: State)
    ensures Run(lay0, EmptyLog(), EmptyLog(), steps, s) && Shared(steps, 0)
    ensures s.phase == Idle && !s.committing && s.outstanding == 0 && s.ops == [] && s.lh == []
    ensures s.refs == {} && s.locks == map[] && s.dirty == {} && |s.disk| == lay0.size
    ensures |s.cache| <= 1 && lay0.start in s.cache && s.cache[lay0.start].refcnt == 0
  {
    hide Run, Shared;
    EmptyDisk();
    NoSteps();
    var b := lay0.start;
    steps, s := [], Fresh(EmptyLog(), EmptyLog());
    steps, s := Taken(steps, s, SGet(Logger, b, 0), 0);
    steps, s := Taken(steps, s, SLock(Logger, b), 0);
    assert s.cache == map[b := Buf(EmptyLog()[b], 1)];
    steps, s := Taken(steps, s, SReadHead, 0);
    steps, s := Taken(steps, s, SFinish, 0);
    assert s.cache.Keys == {b};
  }

  /** Three calls of begin_op after it. */
  lemma Started() returns (steps: seq<Step>, s: State)
    ensures Filled(steps, s, 0)
  {
    steps, s := Recovered();
    steps, s := Taken(steps, s, SBeginOp, 0);
    steps, s := Taken(steps, s, SBeginOp, 0);
    steps, s := Taken(steps, s, SBeginOp, 0);
    assert s.ops == Running(0);
  }

  lemma Taken(steps: seq<Step>, s: State, step: Step, k: nat) returns (steps': seq<Step>, s': State)
    requires Run(lay0, EmptyLog(), EmptyLog(), steps, s) && Enabled(lay0, s, step)
    requires Shared(steps, k) && OwnWrite(step, k)
    ensures Run(lay0, EmptyLog(), EmptyLog(), steps', s') && s' == Do(lay0, s, step)
    ensures steps' == steps + [step] && Shared(steps', k)
  {
    RunStep(steps, s, step);
    steps', s' := steps + [step], Do(lay0, s, step);
  }

  /** One more block: bread; the buffer is held. */
  lemma Held(steps: seq<Step>, s: State, k: nat) returns (steps': seq<Step>, s': State)
    requires Filled(steps, s, k) && k < LOGBLOCKS
    ensures Run(lay0, EmptyLog(), EmptyLog(), steps', s') && Shared(steps', k)
    ensures s' == s.(cache := s'.cache, refs := {(Op(Owner(k)), Target(k))}, locks := map[Target(k) := Op(Owner(k))])
    ensures |s'.cache| <= k + 2 && Target(k) in s'.cache && s'.cache[Target(k)].refcnt > 0
    ensures k + 1 < LOGBLOCKS ==> lay0.start in s'.cache && s'.cache[lay0.start].refcnt == 0
  {
    hide Run, Shared;
    var t, b := Op(Owner(k)), Target(k);
    steps', s' := Taken(steps, s, SGet(t, b, lay0.start), k);
    var room := if |s.cache| < NBUF then s.cache else s.cache - {lay0.start};
    if b !in s.cache {
      assert s'.cache == room[b := Buf(s.disk[b], 1)];
      Wider(room, b, Buf(s.disk[b], 1));
      Narrower(s.cache, lay0.start);
    } else {
      Wider(s.cache, b, s'.cache[b]);
    }
    steps', s' := Taken(steps', s', SLock(t, b), k);
  }

  lemma Wider(m: map<int, Buf>, b: int, x: Buf)
    ensures |m[b := x]| <= |m| + 1
  {
    assert m[b := x].Keys == m.Keys + {b};
  }

  lemma Narrower(m: map<int, Buf>, b: int)
    ensures |m - {b}| <= |m|
  {
    assert (m - {b}).Keys == m.Keys - {b};
  }

  lemma UsedNext(k: nat)
    requires k < LOGBLOCKS
    ensures Owner(k) < 3 && Used(k, Owner(k)) < MAXOPBLOCKS
    ensures Running(k + 1) == Running(k)[Owner(k) := OpState(true, Used(k, Owner(k)) + 1)]
  {}

  lemma LogNext(h: State, k: nat)
    requires k < LOGBLOCKS && h.phase == Idle && h.lh == Listed(k) && h.ops == Running(k) && h.dirty == {}
    requires Holds(h, Op(Owner(k)), Target(k)) && CanLogWrite(lay0, h, Owner(k), Target(k))
    ensures var s := LogWrite(lay0, h, Owner(k), Target(k));
      && s == h.(cache := s.cache, lh := Listed(k + 1), ops := Running(k + 1))
      && s.cache == h.cache[Target(k) := Buf(h.cache[Target(k)].data, h.cache[Target(k)].refcnt + 1)]
  {
    UsedNext(k);
    assert Find(h.lh, Target(k)) == k;
    assert Listed(k + 1) == Listed(k) + [Target(k)];
    assert h.dirty - {Target(k)} == {};
  }

  /** And log_write. */
  lemma Logged(steps: seq<Step>, s: State, k: nat) returns (steps': seq<Step>, s': State)
    requires Filled(steps, s, k) && k < LOGBLOCKS
    ensures Run(lay0, EmptyLog(), EmptyLog(), steps', s') && Shared(steps', k + 1)
    ensures SLogWrite(Owner(k), Target(k)) in steps'
    ensures s' == s.(cache := s'.cache, refs := {(Op(Owner(k)), Target(k))}, locks := map[Target(k) := Op(Owner(k))],
      lh := Listed(k + 1), ops := Running(k + 1))
    ensures |s'.cache| <= k + 2 && Target(k) in s'.cache && s'.cache[Target(k)].refcnt > 0
    ensures k + 1 < LOGBLOCKS ==> lay0.start in s'.cache && s'.cache[lay0.start].refcnt == 0
  {
    var h;
    steps', h := Held(steps, s, k);
    UsedNext(k);
    assert CanLogWrite(lay0, h, Owner(k), Target(k));
    LogNext(h, k);
    SharedMore(steps', k);
    steps', s' := Taken(steps', h, SLogWrite(Owner(k), Target(k)), k + 1);
    assert s' == LogWrite(lay0, h, Owner(k), Target(k));
    assert s'.cache.Keys == h.cache.Keys;
  }

  lemma FilledTo(k: nat) returns (steps: seq<Step>, s: State)
    requires k < LOGBLOCKS
    ensures Filled(steps, s, k)
  {
    if k == 0 {
      steps, s := Started();
    } else {
      steps, s := FilledTo(k - 1);
      steps, s := Logged(steps, s, k - 1);
      steps, s := Taken(steps, s, SRelease(Op(Owner(k - 1)), Target(k - 1)), k);
    }
  }

  /** Staying within MAXOPBLOCKS distinct blocks is not enough: three operations log ten blocks each,
      and the last one's next log_write, of a block that it has logged before, stops the system. */
  lemma TooBigThoughAbsorbed() returns (steps: seq<Step>, s: State, b: int)
    ensures Shows(lay0, EmptyLog(), EmptyLog()) && Run(lay0, EmptyLog(), EmptyLog(), steps, s)
    ensures MayAct(s, Op(2)) && Holds(s, Op(2), b) && lay0.Home(b) && b in s.lh
    ensures b in LoggedBy(steps, 2) && forall i: nat :: |LoggedBy(steps, i)| <= MAXOPBLOCKS
    ensures LogWritePanics(s)
  {
    assert HeadOf(EmptyLog()[2]) == [];
    steps, s := FilledTo(LOGBLOCKS - 1);
    steps, s := Logged(steps, s, LOGBLOCKS - 1);
    b := Target(LOGBLOCKS - 1);
    assert s.lh[LOGBLOCKS - 1] == b;
    assert SLogWrite(2, b) in steps;
    forall i: nat ensures |LoggedBy(steps, i)| <= MAXOPBLOCKS {
      WithinBudget(steps, LOGBLOCKS, i);
    }
  }
}
