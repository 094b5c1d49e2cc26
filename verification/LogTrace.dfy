/** The commit of LogMachine, taken together: whatever other processes do meanwhile, the disk goes through
    the states that commit() of kernel/log.c takes it through on its own. */
module LogTrace {
  import opened Params
  import opened LogDisk
  import opened LogMachine
  import opened LogSafety
  import Bio
  import Log

  /** `s` is reached from `s0` by `steps`, in which the machine neither crashes nor ends the commit. */
  ghost predicate Goes(lay: Layout, s0: State, steps: seq<Step>, s: State)
    decreases |steps|
  {
    if steps == [] then s == s0
    else
      var n := |steps| - 1;
      && !steps[n].SCrash? && !steps[n].SEndCommit?
      && exists r :: Goes(lay, s0, steps[..n], r) && Enabled(lay, r, steps[n]) && s == Do(lay, r, steps[n])
  }

  /** How many of commit's writes, for a list of n blocks, have been made. */
  function Made(phase: Phase, n: nat): nat {
    match phase
    case Copying(t) => t
    case Installing(t) => n + 1 + t
    case Finishing => 2 * n + 2
    case _ => 0
  }

  ghost predicate Starts(lay: Layout, base: Disk, s0: State) {
    Inv(lay, base, s0) && s0.phase == Copying(0) && s0.lh != []
  }

  lemma StartFacts(lay: Layout, base: Disk, s0: State)
    requires Starts(lay, base, s0)
    ensures lay.start < |s0.disk| == |s0.now| && |s0.disk[lay.start].words| == WORDS && 0 < |s0.lh| <= LOGBLOCKS
    ensures forall i :: 0 <= i < |s0.lh| ==> 0 <= s0.lh[i] < |s0.now|
  {
    assert forall i :: 0 <= i < |s0.lh| ==> lay.Home(s0.lh[i]);
  }

  /** All writes of the commit that starts in s0. */
  ghost function All(lay: Layout, base: Disk, s0: State): (ws: seq<Write>)
    requires Starts(lay, base, s0)
    ensures |ws| == 2 * |s0.lh| + 2
  {
    StartFacts(lay, base, s0);
    CommitWrites(lay, s0.disk[lay.start], s0.lh, s0.now)
  }

  lemma AllAt(lay: Layout, base: Disk, s0: State, k: nat)
    requires Starts(lay, base, s0) && k < 2 * |s0.lh| + 2
    ensures lay.start < |s0.disk| == |s0.now| && |s0.disk[lay.start].words| == WORDS && |s0.lh| <= LOGBLOCKS
    ensures forall i :: 0 <= i < |s0.lh| ==> 0 <= s0.lh[i] < |s0.now|
    ensures All(lay, base, s0)[k] == CommitWrite(lay, s0.disk[lay.start], s0.lh, s0.now, k)
  {
    StartFacts(lay, base, s0);
  }

  /** The disk after the first k of them. */
  ghost predicate Reached(lay: Layout, base: Disk, s0: State, disk: Disk, k: nat)
    requires Starts(lay, base, s0)
  {
    k <= 2 * |s0.lh| + 2 && Fits(All(lay, base, s0)[..k], |s0.disk|)
      && disk == ApplyWrites(s0.disk, All(lay, base, s0)[..k])
  }

  lemma ReachedNext(lay: Layout, base: Disk, s0: State, disk: Disk, k: nat)
    requires Starts(lay, base, s0) && Reached(lay, base, s0, disk, k) && k < 2 * |s0.lh| + 2
    requires 0 <= All(lay, base, s0)[k].b < |disk|
    ensures Reached(lay, base, s0, disk[All(lay, base, s0)[k].b := All(lay, base, s0)[k].data], k + 1)
  {
    var ws := All(lay, base, s0);
    assert ws[..k + 1] == ws[..k] + [ws[k]];
    ApplyLast(s0.disk, ws[..k], ws[k]);
  }

  /** The commit that started in s0 is where its phase says, on the same list and contents. */
  ghost predicate Tracing(lay: Layout, base: Disk, s0: State, s: State)
    requires Starts(lay, base, s0)
  {
    && Inv(lay, base, s) && s.now == s0.now
    && (s.phase.Copying? || s.phase.Installing? || s.phase.Finishing?)
    && (!s.phase.Finishing? ==> s.lh == s0.lh)
    && Reached(lay, base, s0, s.disk, Made(s.phase, |s0.lh|))
    && lay.start < |s.disk| == |s0.disk|
    && (s.phase.Copying? ==> s.disk[lay.start] == s0.disk[lay.start])
    && (s.phase.Installing? ==>
      |s0.disk[lay.start].words| == WORDS && s.disk[lay.start] == PutHead(s0.disk[lay.start], s0.lh))
  }

  lemma CopyTraced(lay: Layout, base: Disk, s0: State, s: State)
    requires Starts(lay, base, s0) && Tracing(lay, base, s0, s) && CanCopy(lay, s)
    ensures Tracing(lay, base, s0, Copy(lay, s))
  {
    StartFacts(lay, base, s0);
    CopyKeeps(lay, base, s);
    CopyInOrder(lay, base, s, s0.disk[lay.start]);
    ReachedNext(lay, base, s0, s.disk, s.phase.tail);
  }

  lemma PointTraced(lay: Layout, base: Disk, s0: State, s: State)
    requires Starts(lay, base, s0) && Tracing(lay, base, s0, s) && CanWriteHead(lay, s)
    ensures Tracing(lay, base, s0, WriteHead(lay, s))
  {
    StartFacts(lay, base, s0);
    WriteHeadKeeps(lay, base, s);
    PointInOrder(lay, base, s);
    ReachedNext(lay, base, s0, s.disk, |s0.lh|);
  }

  lemma InstallShape(lay: Layout, base: Disk, s: State)
    requires Inv(lay, base, s) && CanInstall(lay, s)
    ensures var t := Install(lay, s);
      t.phase == Installing(s.phase.tail + 1) && t.lh == s.lh && t.now == s.now && |t.disk| == |s.disk|
    ensures lay.start < |s.disk| && Install(lay, s).disk[lay.start] == s.disk[lay.start]
  {
    assert lay.Home(s.lh[s.phase.tail]);
  }

  lemma EraseShape(lay: Layout, base: Disk, s: State)
    requires Inv(lay, base, s) && CanErase(lay, s)
    ensures lay.start < |s.disk| && |s.disk[lay.start].words| == WORDS
    ensures var t := Erase(lay, s);
      t.phase == Finishing && t.now == s.now && t.disk == s.disk[lay.start := PutHead(s.disk[lay.start], [])]
  {
    assert s.cache[lay.start].data == s.disk[lay.start];
  }

  lemma InstallTraced(lay: Layout, base: Disk, s0: State, s: State)
    requires Starts(lay, base, s0) && Tracing(lay, base, s0, s) && CanInstall(lay, s)
    ensures Tracing(lay, base, s0, Install(lay, s))
  {
    hide Inv, Reached, Install, All, CommitWrites;
    StartFacts(lay, base, s0);
    InstallShape(lay, base, s);
    InstallKeeps(lay, base, s);
    InstallInOrder(lay, base, s, s0.disk[lay.start]);
    AllAt(lay, base, s0, |s0.lh| + 1 + s.phase.tail);
    ReachedNext(lay, base, s0, s.disk, |s0.lh| + 1 + s.phase.tail);
  }

  lemma EraseTraced(lay: Layout, base: Disk, s0: State, s: State)
    requires Starts(lay, base, s0) && Tracing(lay, base, s0, s) && CanErase(lay, s)
    ensures Tracing(lay, base, s0, Erase(lay, s))
  {
    hide Inv, Reached, Erase, All, CommitWrites;
    StartFacts(lay, base, s0);
    EraseShape(lay, base, s);
    EraseKeeps(lay, base, s);
    AllAt(lay, base, s0, 2 * |s0.lh| + 1);
    ReachedNext(lay, base, s0, s.disk, 2 * |s0.lh| + 1);
  }

  /** Every other step that can be taken meanwhile leaves disk, list and contents alone. */
  lemma QuietTraced(lay: Layout, base: Disk, s0: State, s: State, step: Step)
    requires Starts(lay, base, s0) && Tracing(lay, base, s0, s) && Enabled(lay, s, step)
    requires step.SGet? || step.SLock? || step.SRelease?
    ensures Tracing(lay, base, s0, Do(lay, s, step))
  {
    StepKeeps(lay, base, s, step);
  }

  /** While a commit runs there is no operation to take a step, and recovery is over. */
  lemma OnlyThese(lay: Layout, base: Disk, s0: State, s: State, step: Step)
    requires Starts(lay, base, s0) && Tracing(lay, base, s0, s) && Enabled(lay, s, step)
    requires !step.SCrash? && !step.SEndCommit?
    ensures step.SGet? || step.SLock? || step.SRelease? || step.SCopy? || step.SWriteHead? || step.SInstall?
      || step.SErase?
  {
    NoneActive(lay, base, s);
  }

  /** Whatever the interleaving, the disk has gone through exactly the writes of commit() on the list and the
      contents that the commit started with, in order, up to where the phase says. */
  lemma {:induction false} CommitTrace(lay: Layout, base: Disk, s0: State, steps: seq<Step>, s: State)
    requires Starts(lay, base, s0) && Goes(lay, s0, steps, s)
    ensures Tracing(lay, base, s0, s)
    decreases |steps|
  {
    hide Tracing, Starts, Inv, Copy, WriteHead, Install, Erase;
    if steps == [] {
      TraceStarts(lay, base, s0);
    } else {
      var n := |steps| - 1;
      var r :| Goes(lay, s0, steps[..n], r) && Enabled(lay, r, steps[n]) && s == Do(lay, r, steps[n]);
      CommitTrace(lay, base, s0, steps[..n], r);
      OnlyThese(lay, base, s0, r, steps[n]);
      if steps[n].SCopy? {
        CopyTraced(lay, base, s0, r);
      } else if steps[n].SWriteHead? {
        PointTraced(lay, base, s0, r);
      } else if steps[n].SInstall? {
        InstallTraced(lay, base, s0, r);
      } else if steps[n].SErase? {
        EraseTraced(lay, base, s0, r);
      } else {
        QuietTraced(lay, base, s0, r, steps[n]);
      }
    }
  }

  lemma TraceStarts(lay: Layout, base: Disk, s0: State)
    requires Starts(lay, base, s0)
    ensures Tracing(lay, base, s0, s0)
  {
    StartFacts(lay, base, s0);
  }

  lemma SameWrites(lay: Layout, base: Disk, s0: State, m: Disk)
    requires Starts(lay, base, s0)
    requires |m| == |s0.now| && forall i :: 0 <= i < |s0.lh| ==> lay.Home(s0.lh[i]) && m[s0.lh[i]] == s0.now[s0.lh[i]]
    requires lay.start < |s0.disk| && |s0.disk[lay.start].words| == WORDS && |s0.lh| <= LOGBLOCKS
    ensures forall i :: 0 <= i < |s0.lh| ==> 0 <= s0.lh[i] < |m|
    ensures CommitWrites(lay, s0.disk[lay.start], s0.lh, m) == All(lay, base, s0)
  {
    hide Inv;
    StartFacts(lay, base, s0);
    forall k | 0 <= k < 2 * |s0.lh| + 2
      ensures CommitWrite(lay, s0.disk[lay.start], s0.lh, m, k)
        == CommitWrite(lay, s0.disk[lay.start], s0.lh, s0.now, k)
    {
    }
  }

  /** The class Log in the same situation: commit() on that list and those contents takes its device through
      the same states, however far it gets. */
  lemma SameStates(lay: Layout, base: Disk, s0: State, steps: seq<Step>, s: State, m: Disk,
                   t0: seq<Disk>, w0: seq<Write>, states: seq<Disk>, writes: seq<Write>, k: nat)
    requires Starts(lay, base, s0) && Goes(lay, s0, steps, s)
    requires Bio.History(t0, w0) && Bio.History(states, writes) && t0[0] == states[0] && t0[|w0|] == s0.disk
    requires |m| == |s0.now| && forall i :: 0 <= i < |s0.lh| ==> lay.Home(s0.lh[i]) && m[s0.lh[i]] == s0.now[s0.lh[i]]
    requires lay.start < |s0.disk| && |s0.disk[lay.start].words| == WORDS && |s0.lh| <= LOGBLOCKS
    requires k <= 2 * |s0.lh| + 2 && writes == w0 + CommitWrites(lay, s0.disk[lay.start], s0.lh, m)[..k]
    requires Made(s.phase, |s0.lh|) <= k
    ensures s.disk == states[|w0| + Made(s.phase, |s0.lh|)]
  {
    hide Inv, Starts, Goes, Bio.History, CommitWrites, ApplyWrites;
    CommitTrace(lay, base, s0, steps, s);
    SameWrites(lay, base, s0, m);
    Log.StatesOf(t0, w0, states, writes, All(lay, base, s0), k, Made(s.phase, |s0.lh|));
  }
}
