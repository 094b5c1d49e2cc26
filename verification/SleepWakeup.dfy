/** Sleep and wakeup (kernel/proc.c) on any number of channels, each with its condition and the spinlock that
    guards it, as a machine whose steps are the single lock operations and assignments of those functions,
    taken by processes and CPUs in any order. Sleep-locks (kernel/sleeplock.c) are channels whose condition
    is that the lock is free. */
module SleepWakeup {
  import opened Basics

  datatype RunState = SLEEPING | RUNNABLE | RUNNING

  /** Where a process stands; c is a channel, k a spinlock. A: acquiresleep, R: releasesleep, U: a critical
      section of some other code, S: sleep, W: the wakeup loop, in either of the last two. */
  datatype Pc =
    | Idle
    | A1(c: nat) | A2(c: nat) | A3(c: nat) | A4(c: nat)
    | R1(c: nat) | R2(c: nat) | R3(c: nat)
    | U1(k: nat) | U2(k: nat)
    | S1(c: nat) | S2(c: nat) | S3(c: nat) | S4(c: nat) | S5(c: nat) | S6(c: nat) | S7(c: nat) | S8(c: nat) | S9(c: nat)
    | W1(c: nat, i: nat) | W2(c: nat, i: nat) | W3(c: nat, i: nat)

  /** Giving up the CPU in yield: not; holding p->lock; marked RUNNABLE; switched out; back, still holding p->lock. */
  datatype Cede = Stay | Locked | Marked | Out | Back

  /** has: the sleep-locks the process has. owes: the channels whose condition it has made true in this
      critical section without having woken those who sleep on them since. */
  datatype Proc = Proc(state: RunState, chan: Option<nat>, pc: Pc, cede: Cede, has: set<nat>, owes: set<nat>)

  datatype Holder = Nobody | ByProc(p: nat) | ByCpu(n: nat)

  /** procs[p] and plock[p]: a process and its p->lock. spin[k]: a spinlock. lockOf[c], ready[c]: a channel's
      spinlock and condition; several channels may share a spinlock. sleepLock[c]: whether c is a sleep-lock,
      which is then taken if not ready, by pid[c]. look[n]: the process whose lock CPU n's scheduler holds. */
  datatype State = State(
    procs: seq<Proc>, plock: seq<Holder>, spin: seq<Option<nat>>,
    lockOf: seq<nat>, sleepLock: seq<bool>, ready: seq<bool>, pid: seq<Option<nat>>,
    look: seq<Option<nat>>)

  datatype Step =
    | StartAcquire(p: nat, c: nat) | StartRelease(p: nat, c: nat) | StartUse(p: nat, k: nat) | Move(p: nat)
    | Sleep(p: nat, c: nat) | MakeReady(p: nat, c: nat) | Unready(p: nat, c: nat) | Wake(p: nat, c: nat) | Leave(p: nat)
    | YieldLock(p: nat) | YieldMark(p: nat) | YieldSwitch(p: nat) | YieldReturn(p: nat)
    | CpuLock(n: nat, i: nat) | CpuRun(n: nat) | CpuSkip(n: nat)
    | Kill(p: nat)

  // ----- what each position means

  /** The spinlock of channel c. */
  function Lk(lockOf: seq<nat>, c: nat): Option<nat> {
    if c < |lockOf| then Some(lockOf[c]) else None
  }

  /** The spinlock that a process at this position holds. */
  function HoldsLk(lockOf: seq<nat>, pc: Pc): Option<nat> {
    match pc
    case A2(c) => Lk(lockOf, c) case A3(c) => Lk(lockOf, c) case A4(c) => Lk(lockOf, c)
    case R2(c) => Lk(lockOf, c) case R3(c) => Lk(lockOf, c)
    case U2(k) => Some(k)
    case S1(c) => Lk(lockOf, c) case S2(c) => Lk(lockOf, c)
    case W1(c, _) => Lk(lockOf, c) case W2(c, _) => Lk(lockOf, c) case W3(c, _) => Lk(lockOf, c)
    case _ => None
  }

  /** The process whose p->lock process p at this position holds. */
  function HoldsP(p: nat, x: Proc): Option<nat> {
    if x.cede == Locked || x.cede == Marked || x.cede == Back then Some(p)
    else match x.pc
      case S2(_) => Some(p) case S3(_) => Some(p) case S4(_) => Some(p) case S5(_) => Some(p)
      case S7(_) => Some(p) case S8(_) => Some(p)
      case W2(_, i) => Some(i) case W3(_, i) => Some(i)
      case _ => None
  }

  predicate NoSpinlock(pc: Pc) {
    pc.Idle? || pc.A1? || pc.S9? || pc.R1? || pc.U1?
  }

  // ----- steps

  predicate InRange(s: State, p: nat) {
    p < |s.procs| == |s.plock|
  }

  predicate Sized(s: State) {
    |s.plock| == |s.procs| && |s.ready| == |s.lockOf| == |s.sleepLock| == |s.pid|
  }

  predicate ChanRange(s: State, c: nat) {
    c < |s.ready| == |s.lockOf| == |s.sleepLock| == |s.pid| && s.lockOf[c] < |s.spin|
  }

  /** What the position names is there. */
  predicate PcRange(s: State, pc: Pc) {
    match pc
    case Idle => true
    case U1(k) => k < |s.spin|
    case U2(k) => k < |s.spin|
    case _ => ChanRange(s, pc.c)
  }

  /** Process p is on a CPU and not in the middle of a yield. */
  predicate Runs(s: State, p: nat) {
    InRange(s, p) && s.procs[p].state == RUNNING && s.procs[p].cede == Stay
  }

  predicate CanMove(s: State, p: nat) {
    && InRange(s, p) && s.procs[p].cede == Stay && PcRange(s, s.procs[p].pc)
    && match s.procs[p].pc
       case Idle => false
       case A1(c) => Runs(s, p) && s.spin[s.lockOf[c]] == None
       case R1(c) => Runs(s, p) && s.spin[s.lockOf[c]] == None
       case U1(k) => Runs(s, p) && s.spin[k] == None
       case U2(_) => false                        // one of the next steps
       case S1(c) => Runs(s, p) && s.plock[p] == Nobody
       case S5(_) => true                         // sched(): the scheduler lets go of p->lock
       case S6(_) => false                        // off the CPU
       case S9(c) => Runs(s, p) && s.spin[s.lockOf[c]] == None
       case W1(_, i) => Runs(s, p) && (i == |s.procs| || i == p || (i < |s.procs| && s.plock[i] == Nobody))
       case W2(_, i) => Runs(s, p) && InRange(s, i)
       case W3(_, i) => Runs(s, p) && InRange(s, i)
       case _ => Runs(s, p)
  }

  /** Process p is in a critical section under the spinlock of channel c, which is no sleep-lock. */
  predicate Inside(s: State, p: nat, c: nat) {
    Runs(s, p) && ChanRange(s, c) && !s.sleepLock[c] && s.procs[p].pc == U2(s.lockOf[c])
  }

  /** A process sleeps only on a condition that it finds false, and lets go of a spinlock, also by sleeping,
      only after waking those who sleep on what it has made true. */
  predicate CanAct(s: State, step: Step) {
    match step
    case Sleep(p, c) => Inside(s, p, c) && !s.ready[c] && s.procs[p].owes == {}
    case MakeReady(p, c) => Inside(s, p, c)
    case Unready(p, c) => Inside(s, p, c)
    case Wake(p, c) => Inside(s, p, c)
    case Leave(p) => Runs(s, p) && s.procs[p].pc.U2? && s.procs[p].pc.k < |s.spin| && s.procs[p].owes == {}
    case _ => false
  }

  predicate Enabled(s: State, step: Step) {
    match step
    case StartAcquire(p, c) => Runs(s, p) && s.procs[p].pc.Idle? && ChanRange(s, c) && s.sleepLock[c]
    case StartRelease(p, c) => Runs(s, p) && s.procs[p].pc.Idle? && ChanRange(s, c) && c in s.procs[p].has
    case StartUse(p, k) => Runs(s, p) && s.procs[p].pc.Idle? && k < |s.spin|
    case Move(p) => CanMove(s, p)
    case YieldLock(p) => Runs(s, p) && NoSpinlock(s.procs[p].pc) && s.plock[p] == Nobody
    case YieldMark(p) => InRange(s, p) && s.procs[p].cede == Locked
    case YieldSwitch(p) => InRange(s, p) && s.procs[p].cede == Marked
    case YieldReturn(p) => InRange(s, p) && s.procs[p].cede == Back
    case CpuLock(n, i) => n < |s.look| && s.look[n] == None && InRange(s, i) && s.plock[i] == Nobody
    case CpuRun(n) => n < |s.look| && s.look[n].Some? && InRange(s, s.look[n].value)
      && s.procs[s.look[n].value].state == RUNNABLE
    case CpuSkip(n) => n < |s.look| && s.look[n].Some? && InRange(s, s.look[n].value)
      && s.procs[s.look[n].value].state != RUNNABLE
    case Kill(p) => InRange(s, p) && s.plock[p] == Nobody
    case _ => CanAct(s, step)
  }

  function SetProc(s: State, p: nat, x: Proc): State
    requires p < |s.procs|
  {
    s.(procs := s.procs[p := x])
  }

  function Go(s: State, p: nat, pc: Pc): State
    requires p < |s.procs|
  {
    SetProc(s, p, s.procs[p].(pc := pc))
  }

  predicate InAcquire(pc: Pc) {
    pc.A1? || pc.A2? || pc.A3? || pc.A4?
  }

  predicate InSleep(pc: Pc) {
    pc.S1? || pc.S2? || pc.S3? || pc.S4? || pc.S5? || pc.S6? || pc.S7? || pc.S8? || pc.S9?
  }

  predicate InRelease(pc: Pc) {
    pc.R1? || pc.R2? || pc.R3? || pc.U1?
  }

  predicate InWakeup(pc: Pc) {
    pc.W1? || pc.W2? || pc.W3?
  }

  function DoAcquire(s: State, p: nat): State
    requires CanMove(s, p) && InAcquire(s.procs[p].pc)
  {
    match s.procs[p].pc
    case A1(c) => Go(s, p, A2(c)).(spin := s.spin[s.lockOf[c] := Some(p)])
    case A2(c) => Go(s, p, if s.ready[c] then A3(c) else S1(c))
    case A3(c) => Go(s, p, A4(c)).(ready := s.ready[c := false], pid := s.pid[c := Some(p)])
    case A4(c) =>
      SetProc(s, p, s.procs[p].(pc := Idle, has := s.procs[p].has + {c})).(spin := s.spin[s.lockOf[c] := None])
  }

  function DoSleep(s: State, p: nat): State
    requires CanMove(s, p) && InSleep(s.procs[p].pc)
  {
    match s.procs[p].pc
    case S1(c) => Go(s, p, S2(c)).(plock := s.plock[p := ByProc(p)])
    case S2(c) => Go(s, p, S3(c)).(spin := s.spin[s.lockOf[c] := None])
    case S3(c) => SetProc(s, p, s.procs[p].(pc := S4(c), chan := Some(c)))
    case S4(c) => SetProc(s, p, s.procs[p].(pc := S5(c), state := SLEEPING))
    case S5(c) => Go(s, p, S6(c)).(plock := s.plock[p := Nobody])
    case S7(c) => SetProc(s, p, s.procs[p].(pc := S8(c), chan := None))
    case S8(c) => Go(s, p, S9(c)).(plock := s.plock[p := Nobody])
    case S9(c) => Go(s, p, if s.sleepLock[c] then A2(c) else U2(s.lockOf[c])).(spin := s.spin[s.lockOf[c] := Some(p)])
  }

  /** releasesleep, and the entry into any other critical section. */
  function DoRelease(s: State, p: nat): State
    requires CanMove(s, p) && InRelease(s.procs[p].pc)
  {
    match s.procs[p].pc
    case R1(c) => Go(s, p, R2(c)).(spin := s.spin[s.lockOf[c] := Some(p)])
    case R2(c) =>
      SetProc(s, p, s.procs[p].(pc := W1(c, 0), owes := s.procs[p].owes + {c}))
        .(ready := s.ready[c := true], pid := s.pid[c := None])
    case R3(c) => Go(s, p, Idle).(spin := s.spin[s.lockOf[c] := None])
    case U1(k) => Go(s, p, U2(k)).(spin := s.spin[k := Some(p)])
  }

  function DoWakeup(s: State, p: nat): State
    requires CanMove(s, p) && InWakeup(s.procs[p].pc)
  {
    match s.procs[p].pc
    case W1(c, i) =>
      if i == |s.procs| then
        SetProc(s, p,
          s.procs[p].(pc := if s.sleepLock[c] then R3(c) else U2(s.lockOf[c]), owes := s.procs[p].owes - {c}))
      else if i == p then Go(s, p, W1(c, i + 1))
      else Go(s, p, W2(c, i)).(plock := s.plock[i := ByProc(p)])
    case W2(c, i) =>
      var t := Go(s, p, W3(c, i));
      if t.procs[i].state == SLEEPING && t.procs[i].chan == Some(c) then
        SetProc(t, i, t.procs[i].(state := RUNNABLE))
      else t
    case W3(c, i) => Go(s, p, W1(c, i + 1)).(plock := s.plock[i := Nobody])
  }

  function DoMove(s: State, p: nat): State
    requires CanMove(s, p)
  {
    var pc := s.procs[p].pc;
    if InAcquire(pc) then DoAcquire(s, p) else if InSleep(pc) then DoSleep(s, p)
    else if InRelease(pc) then DoRelease(s, p) else DoWakeup(s, p)
  }

  /** What code in a critical section may do about its channels. */
  function DoAct(s: State, step: Step): State
    requires CanAct(s, step)
  {
    var x := s.procs[step.p];
    match step
    case Sleep(p, c) => Go(s, p, S1(c))
    case MakeReady(p, c) => SetProc(s, p, x.(owes := x.owes + {c})).(ready := s.ready[c := true])
    case Unready(p, c) => SetProc(s, p, x.(owes := x.owes - {c})).(ready := s.ready[c := false])
    case Wake(p, c) => Go(s, p, W1(c, 0))
    case Leave(p) => Go(s, p, Idle).(spin := s.spin[x.pc.k := None])
  }

  function Do(s: State, step: Step): State
    requires Enabled(s, step)
  {
    match step
    case StartAcquire(p, c) => Go(s, p, A1(c))
    case StartRelease(p, c) => SetProc(s, p, s.procs[p].(pc := R1(c), has := s.procs[p].has - {c}))
    case StartUse(p, k) => Go(s, p, U1(k))
    case Move(p) => DoMove(s, p)
    case YieldLock(p) => SetProc(s, p, s.procs[p].(cede := Locked)).(plock := s.plock[p := ByProc(p)])
    case YieldMark(p) => SetProc(s, p, s.procs[p].(cede := Marked, state := RUNNABLE))
    case YieldSwitch(p) => SetProc(s, p, s.procs[p].(cede := Out)).(plock := s.plock[p := Nobody])
    case YieldReturn(p) => SetProc(s, p, s.procs[p].(cede := Stay)).(plock := s.plock[p := Nobody])
    case CpuLock(n, i) => s.(look := s.look[n := Some(i)], plock := s.plock[i := ByCpu(n)])
    case CpuRun(n) =>
      // the process that was switched to now holds its own lock
      var i := s.look[n].value;
      var x := s.procs[i];
      var y := if x.cede == Out then x.(state := RUNNING, cede := Back)
               else if x.pc.S6? then x.(state := RUNNING, pc := S7(x.pc.c)) else x.(state := RUNNING);
      SetProc(s, i, y).(look := s.look[n := None], plock := s.plock[i := ByProc(i)])
    case CpuSkip(n) => s.(look := s.look[n := None], plock := s.plock[s.look[n].value := Nobody])
    case Kill(p) =>
      if s.procs[p].state == SLEEPING then SetProc(s, p, s.procs[p].(state := RUNNABLE)) else s
    case _ => DoAct(s, step)
  }

  /** At the start nobody is doing anything; conditions may hold or not, and sleep-locks are free. */
  predicate Init(s: State) {
    && Sized(s) && (forall c :: 0 <= c < |s.lockOf| ==> s.lockOf[c] < |s.spin|)
    && (forall p :: 0 <= p < |s.procs| ==>
      s.procs[p] == Proc(RUNNING, None, Idle, Stay, {}, {}) && s.plock[p] == Nobody)
    && (forall k :: 0 <= k < |s.spin| ==> s.spin[k] == None)
    && (forall c :: 0 <= c < |s.ready| && s.sleepLock[c] ==> s.ready[c] && s.pid[c] == None)
    && (forall n :: 0 <= n < |s.look| ==> s.look[n] == None)
  }

  ghost predicate Run(start: State, steps: seq<Step>, end: State)
    decreases |steps|
  {
    if steps == [] then end == start
    else
      var last := |steps| - 1;
      exists mid :: Run(start, steps[..last], mid) && Enabled(mid, steps[last]) && end == Do(mid, steps[last])
  }

  // ----- the invariant

  /** A process's state, channel and locks fit its position. */
  predicate ProcOk(s: State, p: nat)
    requires InRange(s, p)
  {
    var x := s.procs[p];
    && PcRange(s, x.pc) && OwesOk(s, x) && LockKindOk(s, x.pc)
    && (HoldsLk(s.lockOf, x.pc).Some? ==>
          HoldsLk(s.lockOf, x.pc).value < |s.spin| && s.spin[HoldsLk(s.lockOf, x.pc).value] == Some(p))
    && (HoldsP(p, x).Some? ==> HoldsP(p, x).value < |s.plock| && s.plock[HoldsP(p, x).value] == ByProc(p))
    && (x.cede != Stay ==> NoSpinlock(x.pc))
    && x.state == (if x.cede == Marked || x.cede == Out then RUNNABLE
                   else if x.pc.S5? then SLEEPING
                   else if x.pc.S6? && x.state != RUNNING then x.state
                   else RUNNING)
    && !(x.pc.S6? && x.state == RUNNING)
    && (x.pc.A4? || x.pc.R1? || x.pc.R2? ==> x.pc.c !in x.has)
    && (x.pc.S4? || x.pc.S5? || x.pc.S6? ==> x.chan == Some(x.pc.c))
    && (x.pc.W1? ==> x.pc.i <= |s.procs|)
    && (x.pc.W2? || x.pc.W3? ==> x.pc.i < |s.procs| && x.pc.i != p)
  }

  /** acquiresleep and releasesleep are for sleep-locks. */
  predicate LockKindOk(s: State, pc: Pc)
    requires PcRange(s, pc)
  {
    InAcquire(pc) || (InRelease(pc) && !pc.U1?) ==> s.sleepLock[pc.c]
  }

  /** Only inside a critical section does a process owe a wakeup, and then on channels that its lock guards. */
  predicate OwesOk(s: State, x: Proc) {
    && (x.owes != {} ==> x.pc.U2? || InWakeup(x.pc))
    && (forall c :: c in x.owes ==> c < |s.lockOf| && Lk(s.lockOf, c) == HoldsLk(s.lockOf, x.pc))
    && (InWakeup(x.pc) && x.pc.c < |s.sleepLock| && s.sleepLock[x.pc.c] ==> x.owes <= {x.pc.c})
  }

  /** Whoever a lock names does hold it. */
  predicate LkOk(s: State, k: nat)
    requires k < |s.spin|
  {
    s.spin[k].Some? ==> s.spin[k].value < |s.procs| && HoldsLk(s.lockOf, s.procs[s.spin[k].value].pc) == Some(k)
  }

  predicate PlockOk(s: State, i: nat)
    requires InRange(s, i)
  {
    match s.plock[i]
    case Nobody => true
    case ByProc(p) => p < |s.procs| && HoldsP(p, s.procs[p]) == Some(i)
    case ByCpu(n) => n < |s.look| && s.look[n] == Some(i)
  }

  predicate CpuOk(s: State, n: nat)
    requires n < |s.look|
  {
    s.look[n].Some? ==> s.look[n].value < |s.plock| && s.plock[s.look[n].value] == ByCpu(n)
  }

  /** A wakeup loop on c at this position has yet to look at process p. */
  predicate Ahead(pc: Pc, c: nat, p: nat) {
    ((pc.W1? || pc.W2?) && pc.c == c ==> pc.i <= p) && (pc.W3? && pc.c == c ==> pc.i < p)
  }

  /** The holder of c's lock owes a wakeup on c, or is at it and has not passed process p. */
  predicate WakeupComing(s: State, c: nat, p: nat)
    requires ChanRange(s, c)
  {
    var h := s.spin[s.lockOf[c]];
    h.Some? && h.value < |s.procs| && c in s.procs[h.value].owes && Ahead(s.procs[h.value].pc, c, p)
  }

  /** Asleep, or past the point in sleep where it lets go of the condition's lock. */
  predicate Waiting(x: Proc) {
    x.pc.S3? || x.pc.S4? || x.state == SLEEPING
  }

  /** A process that sleeps on c, or is about to, waits for a condition that is false, or will be woken. */
  predicate WaitOk(s: State, p: nat)
    requires InRange(s, p)
  {
    var x := s.procs[p];
    && (x.pc.S1? || x.pc.S2? ==> ChanRange(s, x.pc.c) && !s.ready[x.pc.c])
    && (Waiting(x) ==>
          InSleep(x.pc) && ChanRange(s, x.pc.c) && (!s.ready[x.pc.c] || WakeupComing(s, x.pc.c, p)))
  }

  /** Between taking the sleep-lock inside acquiresleep and clearing it inside releasesleep. */
  predicate Owns(x: Proc, c: nat) {
    c in x.has || x.pc == A4(c) || x.pc == R1(c) || x.pc == R2(c)
  }

  predicate OwnOk(s: State, p: nat, c: nat)
    requires InRange(s, p) && ChanRange(s, c)
  {
    s.sleepLock[c] ==> (Owns(s.procs[p], c) <==> !s.ready[c] && s.pid[c] == Some(p))
  }

  predicate FlagOk(s: State, c: nat)
    requires ChanRange(s, c)
  {
    s.sleepLock[c] ==>
      && (!s.ready[c] <==> s.pid[c].Some?) && (s.pid[c].Some? ==> s.pid[c].value < |s.procs|)
      && (forall p :: 0 <= p < |s.procs| && s.procs[p].pc == A3(c) ==> s.ready[c])
  }

  predicate HasOk(s: State, p: nat)
    requires InRange(s, p)
  {
    forall c :: c in s.procs[p].has ==> c < |s.sleepLock| && s.sleepLock[c]
  }

  ghost predicate Inv(s: State) {
    && Sized(s)
    && (forall c :: 0 <= c < |s.lockOf| ==> ChanRange(s, c))
    && (forall p :: 0 <= p < |s.procs| ==> ProcOk(s, p))
    && (forall k :: 0 <= k < |s.spin| ==> LkOk(s, k))
    && (forall i :: 0 <= i < |s.plock| ==> PlockOk(s, i))
    && (forall n :: 0 <= n < |s.look| ==> CpuOk(s, n))
    && (forall p :: 0 <= p < |s.procs| ==> WaitOk(s, p))
    && (forall p, c :: 0 <= p < |s.procs| && 0 <= c < |s.ready| ==> OwnOk(s, p, c))
    && (forall c :: 0 <= c < |s.ready| ==> FlagOk(s, c))
    && (forall p :: 0 <= p < |s.procs| ==> HasOk(s, p))
  }

  // ----- a step of one process

  predicate OtherStays(s: State, t: State, q: nat)
    requires q < |s.procs| == |t.procs|
  {
    var x, y := s.procs[q], t.procs[q];
    y == x || (x.pc.S6? && x.state == SLEEPING && y == x.(state := RUNNABLE))
  }

  predicate SpinStep(s: State, t: State, p: nat, k: nat)
    requires k < |s.spin| == |t.spin|
  {
    t.spin[k] == s.spin[k] || (s.spin[k] in {None, Some(p)} && t.spin[k] in {None, Some(p)})
  }

  predicate PlockStep(s: State, t: State, p: nat, i: nat)
    requires i < |s.plock| == |t.plock|
  {
    t.plock[i] == s.plock[i] || (s.plock[i] in {Nobody, ByProc(p)} && t.plock[i] in {Nobody, ByProc(p)})
  }

  predicate ReadyStep(s: State, t: State, p: nat, c: nat)
    requires ChanRange(s, c) && c < |t.ready|
  {
    t.ready[c] == s.ready[c] || s.spin[s.lockOf[c]] == Some(p)
  }

  /** Process p takes or drops locks of its own and may wake sleepers; others stay as they are. */
  ghost predicate StepBy(s: State, t: State, p: nat) {
    && Sized(s) && Sized(t) && InRange(s, p)
    && |t.procs| == |s.procs| && |t.spin| == |s.spin|
    && t.lockOf == s.lockOf && t.sleepLock == s.sleepLock && t.look == s.look
    && (forall q :: 0 <= q < |s.procs| && q != p ==> OtherStays(s, t, q))
    && (forall k :: 0 <= k < |s.spin| ==> SpinStep(s, t, p, k))
    && (forall i :: 0 <= i < |s.plock| ==> PlockStep(s, t, p, i))
    && (forall c :: 0 <= c < |s.ready| && ChanRange(s, c) ==> ReadyStep(s, t, p, c))
  }

  /** The locks that name p are the ones it holds. */
  ghost predicate SelfHolds(t: State, p: nat)
    requires InRange(t, p)
  {
    && (forall k :: 0 <= k < |t.spin| ==> (t.spin[k] == Some(p) ==> HoldsLk(t.lockOf, t.procs[p].pc) == Some(k)))
    && (forall i :: 0 <= i < |t.plock| ==> (t.plock[i] == ByProc(p) ==> HoldsP(p, t.procs[p]) == Some(i)))
  }

  lemma Named(s: State, p: nat)
    requires Inv(s) && p < |s.procs|
    ensures SelfHolds(s, p)
  {
    forall k | 0 <= k < |s.spin| && s.spin[k] == Some(p) ensures HoldsLk(s.lockOf, s.procs[p].pc) == Some(k) {
      assert LkOk(s, k);
    }
    forall i | 0 <= i < |s.plock| && s.plock[i] == ByProc(p) ensures HoldsP(p, s.procs[p]) == Some(i) {
      assert PlockOk(s, i);
    }
  }

  lemma OtherProc(s: State, t: State, p: nat, q: nat)
    requires StepBy(s, t, p) && q < |s.procs| && q != p && ProcOk(s, q)
    ensures ProcOk(t, q)
  {
    var x := s.procs[q];
    assert OtherStays(s, t, q);
    if HoldsLk(s.lockOf, x.pc).Some? {
      assert SpinStep(s, t, p, HoldsLk(s.lockOf, x.pc).value);
    }
    if HoldsP(q, x).Some? {
      assert PlockStep(s, t, p, HoldsP(q, x).value);
    }
  }

  /** Then every lock and every process is as it should be. */
  lemma FrameLocks(s: State, t: State, p: nat)
    requires Inv(s) && StepBy(s, t, p) && ProcOk(t, p) && SelfHolds(t, p)
    ensures Sized(t) && (forall c :: 0 <= c < |t.lockOf| ==> ChanRange(t, c))
    ensures forall q :: 0 <= q < |t.procs| ==> ProcOk(t, q)
    ensures forall k :: 0 <= k < |t.spin| ==> LkOk(t, k)
    ensures forall i :: 0 <= i < |t.plock| ==> PlockOk(t, i)
    ensures forall n :: 0 <= n < |t.look| ==> CpuOk(t, n)
  {
    forall c | 0 <= c < |t.lockOf| ensures ChanRange(t, c) {
      assert ChanRange(s, c);
    }
    forall q | 0 <= q < |t.procs| ensures ProcOk(t, q) {
      if q != p {
        OtherProc(s, t, p, q);
      }
    }
    forall k | 0 <= k < |t.spin| ensures LkOk(t, k) {
      assert LkOk(s, k) && SpinStep(s, t, p, k);
      assert t.spin[k].Some? && t.spin[k].value != p ==> OtherStays(s, t, t.spin[k].value);
    }
    forall i | 0 <= i < |t.plock| ensures PlockOk(t, i) {
      assert PlockOk(s, i) && PlockStep(s, t, p, i);
      assert t.plock[i].ByProc? && t.plock[i].p != p ==> OtherStays(s, t, t.plock[i].p);
    }
    forall n | 0 <= n < |t.look| ensures CpuOk(t, n) {
      assert CpuOk(s, n);
      assert s.look[n].Some? ==> PlockStep(s, t, p, s.look[n].value);
    }
  }

  /** p holds c's lock and its wakeup on c has yet to reach process q. */
  predicate Owing(s: State, p: nat, c: nat, q: nat)
    requires ChanRange(s, c) && p < |s.procs|
  {
    s.spin[s.lockOf[c]] == Some(p) && c in s.procs[p].owes && Ahead(s.procs[p].pc, c, q)
  }

  /** What p makes true it owes, and what it owed it still owes, unless that has become false again. */
  predicate PassesOn(s: State, t: State, p: nat, c: nat, q: nat)
    requires ChanRange(s, c) && ChanRange(t, c) && p < |s.procs| == |t.procs|
  {
    t.ready[c] ==> (!s.ready[c] || Owing(s, p, c, q) ==> Owing(t, p, c, q))
  }

  /** Another process that sleeps, or is about to, still waits for a false condition or will be woken. */
  lemma FrameWaits(s: State, t: State, p: nat, q: nat)
    requires StepBy(s, t, p) && q < |s.procs| && q != p && ProcOk(s, q) && WaitOk(s, q)
    requires InSleep(s.procs[q].pc) && Waiting(t.procs[q]) ==>
      ChanRange(t, s.procs[q].pc.c) && PassesOn(s, t, p, s.procs[q].pc.c, q)
    ensures WaitOk(t, q)
  {
    assert OtherStays(s, t, q);
    var pc := s.procs[q].pc;
    if InSleep(pc) {
      var c := pc.c;
      assert ReadyStep(s, t, p, c) && SpinStep(s, t, p, s.lockOf[c]);
      var h := s.spin[s.lockOf[c]];
      assert h.Some? && h.value < |s.procs| && h.value != p ==> OtherStays(s, t, h.value);
    }
  }

  /** A step that changes no sleep-lock's flag, and leaves p owning what it owned. */
  predicate OwnsSame(s: State, t: State, p: nat, c: nat)
    requires ChanRange(s, c) && ChanRange(t, c) && p < |s.procs| == |t.procs|
  {
    s.sleepLock[c] ==>
      && t.ready[c] == s.ready[c] && t.pid[c] == s.pid[c]
      && (Owns(t.procs[p], c) <==> Owns(s.procs[p], c))
      && (t.procs[p].pc == A3(c) ==> s.procs[p].pc == A3(c) || s.ready[c])
  }

  lemma FrameOwners(s: State, t: State, p: nat)
    requires Inv(s) && StepBy(s, t, p) && (forall c :: 0 <= c < |t.lockOf| ==> ChanRange(t, c))
    requires forall c :: 0 <= c < |s.ready| && ChanRange(s, c) && ChanRange(t, c) ==> OwnsSame(s, t, p, c)
    requires HasOk(t, p)
    ensures forall q, c :: 0 <= q < |t.procs| && 0 <= c < |t.ready| ==> OwnOk(t, q, c)
    ensures forall c :: 0 <= c < |t.ready| ==> FlagOk(t, c)
    ensures forall q :: 0 <= q < |t.procs| ==> HasOk(t, q)
  {
    forall q, c | 0 <= q < |t.procs| && 0 <= c < |t.ready| ensures OwnOk(t, q, c) {
      assert ChanRange(s, c) && ChanRange(t, c);
      assert OwnOk(s, q, c) && OwnsSame(s, t, p, c);
      assert q != p ==> OtherStays(s, t, q);
    }
    forall c | 0 <= c < |t.ready| ensures FlagOk(t, c) {
      assert ChanRange(s, c) && ChanRange(t, c);
      assert FlagOk(s, c) && OwnsSame(s, t, p, c);
      forall q | 0 <= q < |t.procs| && t.procs[q].pc == A3(c) && s.sleepLock[c] ensures t.ready[c] {
        assert q != p ==> OtherStays(s, t, q);
      }
    }
    forall q | 0 <= q < |t.procs| ensures HasOk(t, q) {
      assert HasOk(s, q);
      assert q != p ==> OtherStays(s, t, q);
    }
  }

  // ----- acquiresleep

  lemma AcquireFrame(s: State, p: nat)
    requires Sized(s) && CanMove(s, p) && InAcquire(s.procs[p].pc) && ProcOk(s, p)
    ensures StepBy(s, DoAcquire(s, p), p)
  {
  }

  lemma AcquireSelf(s: State, p: nat)
    requires Sized(s) && CanMove(s, p) && InAcquire(s.procs[p].pc) && ProcOk(s, p) && OwnOk(s, p, s.procs[p].pc.c)
      && FlagOk(s, s.procs[p].pc.c)
    ensures InRange(DoAcquire(s, p), p) && ProcOk(DoAcquire(s, p), p)
  {
  }

  lemma AcquireHolds(s: State, p: nat)
    requires Sized(s) && CanMove(s, p) && InAcquire(s.procs[p].pc) && ProcOk(s, p) && SelfHolds(s, p)
    ensures InRange(DoAcquire(s, p), p) && SelfHolds(DoAcquire(s, p), p)
  {
  }

  lemma AcquireBy(s: State, p: nat)
    requires Inv(s) && CanMove(s, p) && InAcquire(s.procs[p].pc)
    ensures var t := DoAcquire(s, p); StepBy(s, t, p) && ProcOk(t, p) && SelfHolds(t, p)
  {
    hide DoAcquire;
    assert ProcOk(s, p) && OwnOk(s, p, s.procs[p].pc.c) && FlagOk(s, s.procs[p].pc.c);
    Named(s, p);
    AcquireFrame(s, p);
    AcquireSelf(s, p);
    AcquireHolds(s, p);
  }

  lemma AcquireWaits(s: State, p: nat, q: nat)
    requires Inv(s) && CanMove(s, p) && InAcquire(s.procs[p].pc) && q < |s.procs|
    requires StepBy(s, DoAcquire(s, p), p)
    ensures InRange(DoAcquire(s, p), q) && WaitOk(DoAcquire(s, p), q)
  {
    assert ProcOk(s, p) && ProcOk(s, q) && WaitOk(s, q);
    if q != p {
      FrameWaits(s, DoAcquire(s, p), p, q);
    }
  }

  lemma AcquireOwners(s: State, p: nat)
    requires Inv(s) && CanMove(s, p) && InAcquire(s.procs[p].pc)
    requires StepBy(s, DoAcquire(s, p), p) && forall c :: 0 <= c < |s.lockOf| ==> ChanRange(DoAcquire(s, p), c)
    ensures OwnersOk(DoAcquire(s, p))
  {
    var t, c := DoAcquire(s, p), s.procs[p].pc.c;
    assert ProcOk(s, p) && HasOk(s, p);
    if s.procs[p].pc.A3? {
      TakeOwners(s, p, c);
    } else {
      FrameOwners(s, t, p);
    }
  }

  ghost predicate OwnersOk(t: State) {
    && Sized(t) && (forall c :: 0 <= c < |t.lockOf| ==> ChanRange(t, c))
    && (forall q, c :: 0 <= q < |t.procs| && 0 <= c < |t.ready| ==> OwnOk(t, q, c))
    && (forall c :: 0 <= c < |t.ready| ==> FlagOk(t, c))
    && (forall q :: 0 <= q < |t.procs| ==> HasOk(t, q))
  }

  /** lk->locked = 1 */
  lemma TakeOwners(s: State, p: nat, c: nat)
    requires Inv(s) && CanMove(s, p) && s.procs[p].pc == A3(c)
    ensures OwnersOk(DoAcquire(s, p))
  {
    var t := DoAcquire(s, p);
    assert ProcOk(s, p) && FlagOk(s, c);
    forall d | 0 <= d < |t.lockOf| ensures ChanRange(t, d) {
      assert ChanRange(s, d);
    }
    forall q, d | 0 <= q < |t.procs| && 0 <= d < |t.ready| ensures OwnOk(t, q, d) {
      assert OwnOk(s, q, d);
    }
    forall d | 0 <= d < |t.ready| ensures FlagOk(t, d) {
      assert FlagOk(s, d);
      forall q | 0 <= q < |t.procs| && t.procs[q].pc == A3(d) && s.sleepLock[d] ensures t.ready[d] {
        assert ProcOk(s, q);
      }
    }
    forall q | 0 <= q < |t.procs| ensures HasOk(t, q) {
      assert HasOk(s, q);
    }
  }

  // ----- sleep

  lemma SleepFrame(s: State, p: nat)
    requires Sized(s) && CanMove(s, p) && InSleep(s.procs[p].pc) && ProcOk(s, p)
    ensures StepBy(s, DoSleep(s, p), p)
  {
  }

  lemma SleepSelfEarly(s: State, p: nat)
    requires Sized(s) && CanMove(s, p) && (s.procs[p].pc.S1? || s.procs[p].pc.S2? || s.procs[p].pc.S3?) && ProcOk(s, p)
    ensures InRange(DoSleep(s, p), p) && ProcOk(DoSleep(s, p), p)
  {
  }

  lemma SleepSelfLate(s: State, p: nat)
    requires Sized(s) && CanMove(s, p) && (s.procs[p].pc.S4? || s.procs[p].pc.S5? || s.procs[p].pc.S7?) && ProcOk(s, p)
    ensures InRange(DoSleep(s, p), p) && ProcOk(DoSleep(s, p), p)
  {
  }

  lemma SleepSelfBack(s: State, p: nat)
    requires Sized(s) && CanMove(s, p) && (s.procs[p].pc.S8? || s.procs[p].pc.S9?) && ProcOk(s, p)
    ensures InRange(DoSleep(s, p), p) && ProcOk(DoSleep(s, p), p)
  {
  }

  lemma SleepSelf(s: State, p: nat)
    requires Sized(s) && CanMove(s, p) && InSleep(s.procs[p].pc) && ProcOk(s, p)
    ensures InRange(DoSleep(s, p), p) && ProcOk(DoSleep(s, p), p)
  {
    hide DoSleep;
    var pc := s.procs[p].pc;
    if pc.S1? || pc.S2? || pc.S3? {
      SleepSelfEarly(s, p);
    } else if pc.S4? || pc.S5? || pc.S7? {
      SleepSelfLate(s, p);
    } else {
      SleepSelfBack(s, p);
    }
  }

  lemma SleepHoldsEarly(s: State, p: nat)
    requires Sized(s) && CanMove(s, p)
      && (s.procs[p].pc.S1? || s.procs[p].pc.S2? || s.procs[p].pc.S3? || s.procs[p].pc.S4?) && ProcOk(s, p)
        && SelfHolds(s, p)
    ensures InRange(DoSleep(s, p), p) && SelfHolds(DoSleep(s, p), p)
  {
  }

  lemma SleepHoldsLate(s: State, p: nat)
    requires Sized(s) && CanMove(s, p)
      && (s.procs[p].pc.S5? || s.procs[p].pc.S7? || s.procs[p].pc.S8? || s.procs[p].pc.S9?) && ProcOk(s, p)
        && SelfHolds(s, p)
    ensures InRange(DoSleep(s, p), p) && SelfHolds(DoSleep(s, p), p)
  {
  }

  lemma SleepHolds(s: State, p: nat)
    requires Sized(s) && CanMove(s, p) && InSleep(s.procs[p].pc) && ProcOk(s, p) && SelfHolds(s, p)
    ensures InRange(DoSleep(s, p), p) && SelfHolds(DoSleep(s, p), p)
  {
    hide DoSleep;
    var pc := s.procs[p].pc;
    if pc.S1? || pc.S2? || pc.S3? || pc.S4? {
      SleepHoldsEarly(s, p);
    } else {
      SleepHoldsLate(s, p);
    }
  }

  lemma SleepBy(s: State, p: nat)
    requires Inv(s) && CanMove(s, p) && InSleep(s.procs[p].pc)
    ensures var t := DoSleep(s, p); StepBy(s, t, p) && ProcOk(t, p) && SelfHolds(t, p)
  {
    hide DoSleep;
    assert ProcOk(s, p);
    Named(s, p);
    SleepFrame(s, p);
    SleepSelf(s, p);
    SleepHolds(s, p);
  }

  lemma SleepWaits(s: State, p: nat, q: nat)
    requires Inv(s) && CanMove(s, p) && InSleep(s.procs[p].pc) && q < |s.procs|
    requires StepBy(s, DoSleep(s, p), p)
    ensures InRange(DoSleep(s, p), q) && WaitOk(DoSleep(s, p), q)
  {
    assert ProcOk(s, p) && ProcOk(s, q) && WaitOk(s, q);
    if q != p {
      FrameWaits(s, DoSleep(s, p), p, q);
    } else {
      SleepWaitsSelf(s, p);
    }
  }

  lemma SleepWaitsSelf(s: State, p: nat)
    requires CanMove(s, p) && InSleep(s.procs[p].pc) && ProcOk(s, p) && WaitOk(s, p)
    ensures InRange(DoSleep(s, p), p) && WaitOk(DoSleep(s, p), p)
  {
  }

  lemma SleepOwners(s: State, p: nat)
    requires Inv(s) && CanMove(s, p) && InSleep(s.procs[p].pc)
    requires StepBy(s, DoSleep(s, p), p) && forall c :: 0 <= c < |s.lockOf| ==> ChanRange(DoSleep(s, p), c)
    ensures OwnersOk(DoSleep(s, p))
  {
    assert ProcOk(s, p) && HasOk(s, p);
    FrameOwners(s, DoSleep(s, p), p);
  }

  // ----- releasesleep, and entering other critical sections

  lemma ReleaseFrame(s: State, p: nat)
    requires Sized(s) && CanMove(s, p) && InRelease(s.procs[p].pc) && ProcOk(s, p)
    ensures StepBy(s, DoRelease(s, p), p)
  {
  }

  lemma ReleaseSelfIn(s: State, p: nat)
    requires Sized(s) && CanMove(s, p) && (s.procs[p].pc.R1? || s.procs[p].pc.U1?) && ProcOk(s, p)
    ensures InRange(DoRelease(s, p), p) && ProcOk(DoRelease(s, p), p)
  {
  }

  lemma ReleaseSelfOut(s: State, p: nat)
    requires Sized(s) && CanMove(s, p) && (s.procs[p].pc.R2? || s.procs[p].pc.R3?) && ProcOk(s, p)
    ensures InRange(DoRelease(s, p), p) && ProcOk(DoRelease(s, p), p)
  {
  }

  lemma ReleaseSelf(s: State, p: nat)
    requires Sized(s) && CanMove(s, p) && InRelease(s.procs[p].pc) && ProcOk(s, p)
    ensures InRange(DoRelease(s, p), p) && ProcOk(DoRelease(s, p), p)
  {
    hide DoRelease;
    var pc := s.procs[p].pc;
    if pc.R1? || pc.U1? {
      ReleaseSelfIn(s, p);
    } else {
      ReleaseSelfOut(s, p);
    }
  }

  lemma ReleaseHolds(s: State, p: nat)
    requires Sized(s) && CanMove(s, p) && InRelease(s.procs[p].pc) && ProcOk(s, p) && SelfHolds(s, p)
    ensures InRange(DoRelease(s, p), p) && SelfHolds(DoRelease(s, p), p)
  {
  }

  lemma ReleaseBy(s: State, p: nat)
    requires Inv(s) && CanMove(s, p) && InRelease(s.procs[p].pc)
    ensures var t := DoRelease(s, p); StepBy(s, t, p) && ProcOk(t, p) && SelfHolds(t, p)
  {
    hide DoRelease;
    assert ProcOk(s, p);
    Named(s, p);
    ReleaseFrame(s, p);
    ReleaseSelf(s, p);
    ReleaseHolds(s, p);
  }

  lemma ReleaseWaits(s: State, p: nat, q: nat)
    requires Inv(s) && CanMove(s, p) && InRelease(s.procs[p].pc) && q < |s.procs|
    requires StepBy(s, DoRelease(s, p), p)
    ensures InRange(DoRelease(s, p), q) && WaitOk(DoRelease(s, p), q)
  {
    assert ProcOk(s, p) && ProcOk(s, q) && WaitOk(s, q);
    if q != p {
      FrameWaits(s, DoRelease(s, p), p, q);
    }
  }

  lemma ReleaseOwners(s: State, p: nat)
    requires Inv(s) && CanMove(s, p) && InRelease(s.procs[p].pc)
    requires StepBy(s, DoRelease(s, p), p) && forall c :: 0 <= c < |s.lockOf| ==> ChanRange(DoRelease(s, p), c)
    ensures OwnersOk(DoRelease(s, p))
  {
    assert ProcOk(s, p) && HasOk(s, p);
    if s.procs[p].pc.R2? {
      FreeOwners(s, p, s.procs[p].pc.c);
    } else {
      FrameOwners(s, DoRelease(s, p), p);
    }
  }

  /** lk->locked = 0 */
  lemma FreeOwners(s: State, p: nat, c: nat)
    requires Inv(s) && CanMove(s, p) && s.procs[p].pc == R2(c)
    ensures OwnersOk(DoRelease(s, p))
  {
    var t := DoRelease(s, p);
    assert ProcOk(s, p) && OwnOk(s, p, c);
    forall d | 0 <= d < |t.lockOf| ensures ChanRange(t, d) {
      assert ChanRange(s, d);
    }
    forall q, d | 0 <= q < |t.procs| && 0 <= d < |t.ready| ensures OwnOk(t, q, d) {
      assert OwnOk(s, q, d);
    }
    forall d | 0 <= d < |t.ready| ensures FlagOk(t, d) {
      assert FlagOk(s, d);
    }
    forall q | 0 <= q < |t.procs| ensures HasOk(t, q) {
      assert HasOk(s, q);
    }
  }

  // ----- wakeup

  lemma WakeupFrame(s: State, p: nat)
    requires Sized(s) && CanMove(s, p) && InWakeup(s.procs[p].pc) && ProcOk(s, p)
      && (s.procs[p].pc.W2? ==> ProcOk(s, s.procs[p].pc.i))
    ensures StepBy(s, DoWakeup(s, p), p)
  {
  }

  lemma WakeupSelfNext(s: State, p: nat)
    requires Sized(s) && CanMove(s, p) && s.procs[p].pc.W1? && s.procs[p].pc.i < |s.procs| && ProcOk(s, p)
    ensures InRange(DoWakeup(s, p), p) && ProcOk(DoWakeup(s, p), p)
  {
  }

  lemma WakeupSelfEnd(s: State, p: nat)
    requires Sized(s) && CanMove(s, p) && s.procs[p].pc.W1? && s.procs[p].pc.i == |s.procs| && ProcOk(s, p)
    ensures InRange(DoWakeup(s, p), p) && ProcOk(DoWakeup(s, p), p)
  {
  }

  lemma WakeupSelfLook(s: State, p: nat)
    requires Sized(s) && CanMove(s, p) && (s.procs[p].pc.W2? || s.procs[p].pc.W3?) && ProcOk(s, p)
    ensures InRange(DoWakeup(s, p), p) && ProcOk(DoWakeup(s, p), p)
  {
  }

  lemma WakeupSelf(s: State, p: nat)
    requires Sized(s) && CanMove(s, p) && InWakeup(s.procs[p].pc) && ProcOk(s, p)
    ensures InRange(DoWakeup(s, p), p) && ProcOk(DoWakeup(s, p), p)
  {
    hide DoWakeup;
    var pc := s.procs[p].pc;
    if pc.W1? && pc.i == |s.procs| {
      WakeupSelfEnd(s, p);
    } else if pc.W1? {
      WakeupSelfNext(s, p);
    } else {
      WakeupSelfLook(s, p);
    }
  }

  lemma WakeupHoldsNext(s: State, p: nat)
    requires Sized(s) && CanMove(s, p) && s.procs[p].pc.W1? && ProcOk(s, p) && SelfHolds(s, p)
    ensures InRange(DoWakeup(s, p), p) && SelfHolds(DoWakeup(s, p), p)
  {
  }

  lemma WakeupHoldsLook(s: State, p: nat)
    requires Sized(s) && CanMove(s, p) && s.procs[p].pc.W2? && ProcOk(s, p) && SelfHolds(s, p)
      && ProcOk(s, s.procs[p].pc.i)
    ensures InRange(DoWakeup(s, p), p) && SelfHolds(DoWakeup(s, p), p)
  {
  }

  lemma WakeupHoldsPast(s: State, p: nat)
    requires Sized(s) && CanMove(s, p) && s.procs[p].pc.W3? && ProcOk(s, p) && SelfHolds(s, p)
    ensures InRange(DoWakeup(s, p), p) && SelfHolds(DoWakeup(s, p), p)
  {
  }

  lemma WakeupHolds(s: State, p: nat)
    requires Sized(s) && CanMove(s, p) && InWakeup(s.procs[p].pc) && ProcOk(s, p) && SelfHolds(s, p)
      && (s.procs[p].pc.W2? ==> ProcOk(s, s.procs[p].pc.i))
    ensures InRange(DoWakeup(s, p), p) && SelfHolds(DoWakeup(s, p), p)
  {
    hide DoWakeup;
    var pc := s.procs[p].pc;
    if pc.W1? {
      WakeupHoldsNext(s, p);
    } else if pc.W2? {
      WakeupHoldsLook(s, p);
    } else {
      WakeupHoldsPast(s, p);
    }
  }

  lemma WakeupBy(s: State, p: nat)
    requires Inv(s) && CanMove(s, p) && InWakeup(s.procs[p].pc)
    ensures var t := DoWakeup(s, p); StepBy(s, t, p) && ProcOk(t, p) && SelfHolds(t, p)
  {
    hide DoWakeup;
    assert ProcOk(s, p);
    assert s.procs[p].pc.W2? ==> ProcOk(s, s.procs[p].pc.i);
    Named(s, p);
    WakeupFrame(s, p);
    WakeupSelf(s, p);
    WakeupHolds(s, p);
  }

  lemma WakeupWaits(s: State, p: nat, q: nat)
    requires Inv(s) && CanMove(s, p) && InWakeup(s.procs[p].pc) && q < |s.procs|
    requires StepBy(s, DoWakeup(s, p), p)
    ensures InRange(DoWakeup(s, p), q) && WaitOk(DoWakeup(s, p), q)
  {
    hide DoWakeup;
    assert ProcOk(s, p) && ProcOk(s, q) && WaitOk(s, q);
    if q != p {
      if InSleep(s.procs[q].pc) && Waiting(DoWakeup(s, p).procs[q]) {
        WakeupPasses(s, p, q);
      }
      FrameWaits(s, DoWakeup(s, p), p, q);
    } else {
      WakeupWaitsSelf(s, p);
    }
  }

  lemma WakeupWaitsSelf(s: State, p: nat)
    requires CanMove(s, p) && InWakeup(s.procs[p].pc) && ProcOk(s, p)
    ensures InRange(DoWakeup(s, p), p) && WaitOk(DoWakeup(s, p), p)
  {
  }

  /** The loop passes process q only if q does not sleep on c, or by waking it. */
  lemma WakeupPasses(s: State, p: nat, q: nat)
    requires CanMove(s, p) && InWakeup(s.procs[p].pc) && InRange(s, q) && q != p
    requires ProcOk(s, p) && ProcOk(s, q) && WaitOk(s, q)
    requires InSleep(s.procs[q].pc) && Waiting(DoWakeup(s, p).procs[q])
    ensures ChanRange(DoWakeup(s, p), s.procs[q].pc.c)
    ensures PassesOn(s, DoWakeup(s, p), p, s.procs[q].pc.c, q)
  {
  }

  lemma WakeupOwners(s: State, p: nat)
    requires Inv(s) && CanMove(s, p) && InWakeup(s.procs[p].pc)
    requires StepBy(s, DoWakeup(s, p), p) && forall c :: 0 <= c < |s.lockOf| ==> ChanRange(DoWakeup(s, p), c)
    ensures OwnersOk(DoWakeup(s, p))
  {
    assert ProcOk(s, p) && HasOk(s, p);
    FrameOwners(s, DoWakeup(s, p), p);
  }

  // ----- critical sections

  lemma ActFrame(s: State, step: Step)
    requires Sized(s) && CanAct(s, step) && ProcOk(s, step.p)
    ensures StepBy(s, DoAct(s, step), step.p)
  {
  }

  lemma ActSelfReady(s: State, step: Step)
    requires Sized(s) && CanAct(s, step) && ProcOk(s, step.p) && (step.MakeReady? || step.Unready?)
    ensures InRange(DoAct(s, step), step.p) && ProcOk(DoAct(s, step), step.p)
  {
  }

  lemma ActSelfGo(s: State, step: Step)
    requires Sized(s) && CanAct(s, step) && ProcOk(s, step.p) && (step.Sleep? || step.Wake?)
    ensures InRange(DoAct(s, step), step.p) && ProcOk(DoAct(s, step), step.p)
  {
  }

  lemma ActSelfLeave(s: State, step: Step)
    requires Sized(s) && CanAct(s, step) && ProcOk(s, step.p) && step.Leave?
    ensures InRange(DoAct(s, step), step.p) && ProcOk(DoAct(s, step), step.p)
  {
  }

  lemma ActSelf(s: State, step: Step)
    requires Sized(s) && CanAct(s, step) && ProcOk(s, step.p)
    ensures InRange(DoAct(s, step), step.p) && ProcOk(DoAct(s, step), step.p)
  {
    hide DoAct;
    if step.MakeReady? || step.Unready? {
      ActSelfReady(s, step);
    } else if step.Leave? {
      ActSelfLeave(s, step);
    } else {
      ActSelfGo(s, step);
    }
  }

  lemma ActHolds(s: State, step: Step)
    requires Sized(s) && CanAct(s, step) && ProcOk(s, step.p) && SelfHolds(s, step.p)
    ensures InRange(DoAct(s, step), step.p) && SelfHolds(DoAct(s, step), step.p)
  {
  }

  lemma ActBy(s: State, step: Step)
    requires Inv(s) && CanAct(s, step)
    ensures var t := DoAct(s, step); StepBy(s, t, step.p) && ProcOk(t, step.p) && SelfHolds(t, step.p)
  {
    hide DoAct;
    assert ProcOk(s, step.p);
    Named(s, step.p);
    ActFrame(s, step);
    ActSelf(s, step);
    ActHolds(s, step);
  }

  lemma ActWaits(s: State, step: Step, q: nat)
    requires Inv(s) && CanAct(s, step) && q < |s.procs| && StepBy(s, DoAct(s, step), step.p)
    ensures InRange(DoAct(s, step), q) && WaitOk(DoAct(s, step), q)
  {
    assert ProcOk(s, step.p) && ProcOk(s, q) && WaitOk(s, q);
    if q != step.p {
      FrameWaits(s, DoAct(s, step), step.p, q);
    }
  }

  lemma ActOwners(s: State, step: Step)
    requires Inv(s) && CanAct(s, step)
    requires StepBy(s, DoAct(s, step), step.p) && forall c :: 0 <= c < |s.lockOf| ==> ChanRange(DoAct(s, step), c)
    ensures OwnersOk(DoAct(s, step))
  {
    assert ProcOk(s, step.p) && HasOk(s, step.p);
    FrameOwners(s, DoAct(s, step), step.p);
  }

  lemma ActKeeps(s: State, step: Step)
    requires Inv(s) && CanAct(s, step)
    ensures Inv(DoAct(s, step))
  {
    var t := DoAct(s, step);
    hide DoAct;
    ActBy(s, step);
    FrameLocks(s, t, step.p);
    ActOwners(s, step);
    forall q | 0 <= q < |t.procs| ensures WaitOk(t, q) {
      ActWaits(s, step, q);
    }
  }

  lemma MoveKeeps(s: State, p: nat)
    requires Inv(s) && CanMove(s, p)
    ensures Inv(DoMove(s, p))
  {
    var t, pc := DoMove(s, p), s.procs[p].pc;
    hide DoAcquire, DoSleep, DoRelease, DoWakeup;
    if InAcquire(pc) {
      AcquireBy(s, p);
    } else if InSleep(pc) {
      SleepBy(s, p);
    } else if InRelease(pc) {
      ReleaseBy(s, p);
    } else {
      WakeupBy(s, p);
    }
    FrameLocks(s, t, p);
    if InAcquire(pc) {
      AcquireOwners(s, p);
    } else if InSleep(pc) {
      SleepOwners(s, p);
    } else if InRelease(pc) {
      ReleaseOwners(s, p);
    } else {
      WakeupOwners(s, p);
    }
    forall q | 0 <= q < |t.procs| ensures WaitOk(t, q) {
      if InAcquire(pc) {
        AcquireWaits(s, p, q);
      } else if InSleep(pc) {
        SleepWaits(s, p, q);
      } else if InRelease(pc) {
        ReleaseWaits(s, p, q);
      } else {
        WakeupWaits(s, p, q);
      }
    }
  }

  // ----- the other steps: starting a call, yielding, the scheduler, kill

  ghost predicate QuietLocks(s: State, t: State) {
    && |t.procs| == |s.procs| == |t.plock| && SameLocks(s, t)
    && (forall i :: 0 <= i < |t.plock| ==> PlockOk(t, i)) && (forall n :: 0 <= n < |t.look| ==> CpuOk(t, n))
  }

  predicate QuietTo(s: State, t: State, p: nat)
    requires InRange(t, p) && |s.procs| == |t.procs|
  {
    ProcOk(t, p) && QuietAt(s, t, p) && HasOk(t, p)
  }

  /** p is as it was, and so is any p->lock that it holds. */
  predicate Unmoved(s: State, t: State, p: nat) {
    && p < |s.procs| == |t.procs| == |s.plock| == |t.plock| && t.procs[p] == s.procs[p]
    && (HoldsP(p, s.procs[p]).Some? && HoldsP(p, s.procs[p]).value < |s.plock| ==>
          t.plock[HoldsP(p, s.procs[p]).value] == s.plock[HoldsP(p, s.procs[p]).value])
  }

  lemma QuietOther(s: State, t: State, p: nat)
    requires SameLocks(s, t) && Unmoved(s, t, p) && ProcOk(s, p) && HasOk(s, p)
    ensures QuietTo(s, t, p)
  {
  }

  /** A step that changes no condition and no spinlock, and no position of a process inside sleep or a
      critical section, except that the scheduler may bring a woken sleeper back. */
  lemma QuietKeeps(s: State, t: State)
    requires Inv(s) && QuietLocks(s, t)
    requires forall p :: 0 <= p < |t.procs| ==> QuietTo(s, t, p)
    ensures Inv(t)
  {
    forall p | 0 <= p < |t.procs| ensures ProcOk(t, p) && HasOk(t, p) && WaitOk(t, p) {
      assert QuietTo(s, t, p);
      QuietWaits(s, t, p);
    }
    forall k | 0 <= k < |t.spin| ensures LkOk(t, k) {
      assert LkOk(s, k);
      assert s.spin[k].Some? ==> QuietTo(s, t, s.spin[k].value);
    }
    QuietOwners(s, t);
  }

  lemma QuietWaits(s: State, t: State, p: nat)
    requires Inv(s) && SameLocks(s, t) && |t.procs| == |s.procs| == |t.plock| && p < |s.procs|
    requires forall q :: 0 <= q < |t.procs| ==> QuietTo(s, t, q)
    ensures WaitOk(t, p)
  {
    assert WaitOk(s, p) && QuietTo(s, t, p);
    if InSleep(t.procs[p].pc) {
      var h := s.spin[s.lockOf[t.procs[p].pc.c]];
      assert h.Some? && h.value < |s.procs| ==> QuietTo(s, t, h.value);
    }
  }

  lemma QuietOwners(s: State, t: State)
    requires Inv(s) && SameLocks(s, t) && |t.procs| == |s.procs| == |t.plock|
    requires forall q :: 0 <= q < |t.procs| ==> QuietTo(s, t, q)
    ensures OwnersOk(t)
  {
    forall c | 0 <= c < |t.lockOf| ensures ChanRange(t, c) && FlagOk(t, c) {
      assert ChanRange(s, c) && FlagOk(s, c);
      forall q | 0 <= q < |t.procs| && t.procs[q].pc == A3(c) && t.sleepLock[c] ensures t.ready[c] {
        assert QuietTo(s, t, q);
      }
    }
    forall p, c | 0 <= p < |t.procs| && 0 <= c < |t.ready| ensures OwnOk(t, p, c) {
      assert ChanRange(s, c) && OwnOk(s, p, c) && QuietTo(s, t, p);
    }
    forall p | 0 <= p < |t.procs| ensures HasOk(t, p) {
      assert QuietTo(s, t, p);
    }
  }

  predicate SameLocks(s: State, t: State) {
    t.spin == s.spin && t.lockOf == s.lockOf && t.sleepLock == s.sleepLock && t.ready == s.ready && t.pid == s.pid
  }

  predicate QuietAt(s: State, t: State, p: nat)
    requires p < |s.procs| == |t.procs|
  {
    var x, y := s.procs[p], t.procs[p];
    && (y.state == SLEEPING ==> x.state == SLEEPING)
    && (y.pc == x.pc || (x.pc.Idle? && (y.pc.A1? || y.pc.R1? || y.pc.U1?)) || (x.pc.S6? && y.pc == S7(x.pc.c)))
    && y.has == (if y.pc.R1? && x.pc.Idle? then x.has - {y.pc.c} else x.has)
    && (y.pc.R1? && x.pc.Idle? ==> y.pc.c in x.has)
    && y.owes == x.owes
  }

  lemma StartSelf(s: State, step: Step)
    requires Enabled(s, step) && (step.StartAcquire? || step.StartRelease? || step.StartUse?) && Sized(s)
      && step.p < |s.procs|
    requires ProcOk(s, step.p) && HasOk(s, step.p)
    ensures InRange(Do(s, step), step.p) && QuietTo(s, Do(s, step), step.p)
  {
  }

  lemma StartLocks(s: State, step: Step)
    requires Inv(s) && Enabled(s, step) && (step.StartAcquire? || step.StartRelease? || step.StartUse?)
    ensures QuietLocks(s, Do(s, step))
    ensures forall p :: 0 <= p < |s.procs| && p != step.p ==> Unmoved(s, Do(s, step), p)
  {
    var t := Do(s, step);
    assert ProcOk(s, step.p) && HasOk(s, step.p);
    forall p | 0 <= p < |s.procs| && p != step.p ensures Unmoved(s, t, p) {
      assert ProcOk(s, p);
    }
    forall i | 0 <= i < |t.plock| ensures PlockOk(t, i) {
      assert PlockOk(s, i);
    }
    forall n | 0 <= n < |t.look| ensures CpuOk(t, n) {
      assert CpuOk(s, n);
    }
  }

  lemma StartKeeps(s: State, step: Step)
    requires Inv(s) && Enabled(s, step) && (step.StartAcquire? || step.StartRelease? || step.StartUse?)
    ensures Inv(Do(s, step))
  {
    hide Do;
    var t := Do(s, step);
    assert ProcOk(s, step.p) && HasOk(s, step.p);
    assert ProcOk(s, step.p) && HasOk(s, step.p);
    StartSelf(s, step);
    StartLocks(s, step);
    forall p | 0 <= p < |t.procs| ensures QuietTo(s, t, p) {
      if p != step.p {
        assert ProcOk(s, p) && HasOk(s, p) && Unmoved(s, t, p);
        QuietOther(s, t, p);
      }
    }
    QuietKeeps(s, t);
  }

  lemma YieldSelf(s: State, step: Step)
    requires Enabled(s, step) && (step.YieldLock? || step.YieldMark?) && Sized(s) && step.p < |s.procs|
    requires ProcOk(s, step.p) && HasOk(s, step.p)
    ensures InRange(Do(s, step), step.p) && QuietTo(s, Do(s, step), step.p)
  {
  }

  lemma YieldLocks(s: State, step: Step)
    requires Inv(s) && Enabled(s, step) && (step.YieldLock? || step.YieldMark?)
    ensures QuietLocks(s, Do(s, step))
    ensures forall p :: 0 <= p < |s.procs| && p != step.p ==> Unmoved(s, Do(s, step), p)
  {
    var t := Do(s, step);
    assert ProcOk(s, step.p);
    forall p | 0 <= p < |s.procs| && p != step.p ensures Unmoved(s, t, p) {
      assert ProcOk(s, p);
    }
    forall i | 0 <= i < |t.plock| ensures PlockOk(t, i) {
      assert PlockOk(s, i);
    }
    forall n | 0 <= n < |t.look| ensures CpuOk(t, n) {
      assert CpuOk(s, n);
    }
  }

  lemma YieldKeeps(s: State, step: Step)
    requires Inv(s) && Enabled(s, step) && (step.YieldLock? || step.YieldMark?)
    ensures Inv(Do(s, step))
  {
    hide Do;
    var t := Do(s, step);
    assert ProcOk(s, step.p) && HasOk(s, step.p);
    assert ProcOk(s, step.p);
    YieldSelf(s, step);
    YieldLocks(s, step);
    forall p | 0 <= p < |t.procs| ensures QuietTo(s, t, p) {
      if p != step.p {
        assert ProcOk(s, p) && HasOk(s, p) && Unmoved(s, t, p);
        QuietOther(s, t, p);
      }
    }
    QuietKeeps(s, t);
  }

  lemma SwitchSelf(s: State, step: Step)
    requires Enabled(s, step) && (step.YieldSwitch? || step.YieldReturn?) && Sized(s) && step.p < |s.procs|
    requires ProcOk(s, step.p) && HasOk(s, step.p)
    ensures InRange(Do(s, step), step.p) && QuietTo(s, Do(s, step), step.p)
  {
  }

  lemma SwitchLocks(s: State, step: Step)
    requires Inv(s) && Enabled(s, step) && (step.YieldSwitch? || step.YieldReturn?)
    ensures QuietLocks(s, Do(s, step))
    ensures forall p :: 0 <= p < |s.procs| && p != step.p ==> Unmoved(s, Do(s, step), p)
  {
    var t := Do(s, step);
    assert ProcOk(s, step.p);
    forall p | 0 <= p < |s.procs| && p != step.p ensures Unmoved(s, t, p) {
      assert ProcOk(s, p);
    }
    forall i | 0 <= i < |t.plock| ensures PlockOk(t, i) {
      assert PlockOk(s, i);
    }
    forall n | 0 <= n < |t.look| ensures CpuOk(t, n) {
      assert CpuOk(s, n);
    }
  }

  lemma SwitchKeeps(s: State, step: Step)
    requires Inv(s) && Enabled(s, step) && (step.YieldSwitch? || step.YieldReturn?)
    ensures Inv(Do(s, step))
  {
    hide Do;
    var t := Do(s, step);
    assert ProcOk(s, step.p) && HasOk(s, step.p);
    assert ProcOk(s, step.p);
    SwitchSelf(s, step);
    SwitchLocks(s, step);
    forall p | 0 <= p < |t.procs| ensures QuietTo(s, t, p) {
      if p != step.p {
        assert ProcOk(s, p) && HasOk(s, p) && Unmoved(s, t, p);
        QuietOther(s, t, p);
      }
    }
    QuietKeeps(s, t);
  }

  lemma SchedulerLocks(s: State, step: Step)
    requires Inv(s) && Enabled(s, step) && (step.CpuLock? || step.CpuSkip?)
    ensures QuietLocks(s, Do(s, step))
    ensures forall p :: 0 <= p < |s.procs| ==> Unmoved(s, Do(s, step), p)
  {
    var t := Do(s, step);
    assert step.CpuSkip? ==> CpuOk(s, step.n);
    forall p | 0 <= p < |s.procs| ensures Unmoved(s, t, p) {
      assert ProcOk(s, p);
    }
    forall i | 0 <= i < |t.plock| ensures PlockOk(t, i) {
      assert PlockOk(s, i);
    }
    forall n | 0 <= n < |t.look| ensures CpuOk(t, n) {
      assert CpuOk(s, n);
    }
  }

  lemma SchedulerKeeps(s: State, step: Step)
    requires Inv(s) && Enabled(s, step) && (step.CpuLock? || step.CpuSkip?)
    ensures Inv(Do(s, step))
  {
    hide Do;
    var t := Do(s, step);
    assert step.CpuSkip? ==> CpuOk(s, step.n);
    SchedulerLocks(s, step);
    forall p | 0 <= p < |t.procs| ensures QuietTo(s, t, p) {
      assert ProcOk(s, p) && HasOk(s, p) && Unmoved(s, t, p);
      QuietOther(s, t, p);
    }
    QuietKeeps(s, t);
  }

  lemma KillSelf(s: State, step: Step)
    requires Enabled(s, step) && step.Kill? && Sized(s) && step.p < |s.procs|
    requires ProcOk(s, step.p) && HasOk(s, step.p)
    ensures InRange(Do(s, step), step.p) && QuietTo(s, Do(s, step), step.p)
  {
  }

  lemma KillLocks(s: State, step: Step)
    requires Inv(s) && Enabled(s, step) && step.Kill?
    ensures QuietLocks(s, Do(s, step))
    ensures forall p :: 0 <= p < |s.procs| && p != step.p ==> Unmoved(s, Do(s, step), p)
  {
    var t := Do(s, step);
    forall p | 0 <= p < |s.procs| && p != step.p ensures Unmoved(s, t, p) {
      assert ProcOk(s, p);
    }
    forall i | 0 <= i < |t.plock| ensures PlockOk(t, i) {
      assert PlockOk(s, i);
    }
    forall n | 0 <= n < |t.look| ensures CpuOk(t, n) {
      assert CpuOk(s, n);
    }
  }

  lemma KillKeeps(s: State, step: Step)
    requires Inv(s) && Enabled(s, step) && step.Kill?
    ensures Inv(Do(s, step))
  {
    hide Do;
    var t := Do(s, step);
    assert ProcOk(s, step.p) && HasOk(s, step.p);
    KillSelf(s, step);
    KillLocks(s, step);
    forall p | 0 <= p < |t.procs| ensures QuietTo(s, t, p) {
      if p != step.p {
        assert ProcOk(s, p) && HasOk(s, p) && Unmoved(s, t, p);
        QuietOther(s, t, p);
      }
    }
    QuietKeeps(s, t);
  }

  lemma DispatchSelf(s: State, step: Step)
    requires Enabled(s, step) && step.CpuRun? && Sized(s) && s.look[step.n].value < |s.procs|
    requires ProcOk(s, s.look[step.n].value) && HasOk(s, s.look[step.n].value) && CpuOk(s, step.n)
    ensures InRange(Do(s, step), s.look[step.n].value) && QuietTo(s, Do(s, step), s.look[step.n].value)
  {
  }

  lemma DispatchLocks(s: State, step: Step)
    requires Inv(s) && Enabled(s, step) && step.CpuRun?
    ensures QuietLocks(s, Do(s, step))
    ensures forall p :: 0 <= p < |s.procs| && p != s.look[step.n].value ==> Unmoved(s, Do(s, step), p)
  {
    var t := Do(s, step);
    assert CpuOk(s, step.n) && ProcOk(s, s.look[step.n].value);
    forall p | 0 <= p < |s.procs| && p != s.look[step.n].value ensures Unmoved(s, t, p) {
      assert ProcOk(s, p);
    }
    forall i | 0 <= i < |t.plock| ensures PlockOk(t, i) {
      assert PlockOk(s, i);
    }
    forall n | 0 <= n < |t.look| ensures CpuOk(t, n) {
      assert CpuOk(s, n);
    }
  }

  lemma DispatchKeeps(s: State, step: Step)
    requires Inv(s) && Enabled(s, step) && step.CpuRun?
    ensures Inv(Do(s, step))
  {
    hide Do;
    var t := Do(s, step);
    assert ProcOk(s, s.look[step.n].value) && HasOk(s, s.look[step.n].value);
    assert CpuOk(s, step.n);
    DispatchSelf(s, step);
    DispatchLocks(s, step);
    forall p | 0 <= p < |t.procs| ensures QuietTo(s, t, p) {
      if p != s.look[step.n].value {
        assert ProcOk(s, p) && HasOk(s, p) && Unmoved(s, t, p);
        QuietOther(s, t, p);
      }
    }
    QuietKeeps(s, t);
  }

  lemma InitOk(s: State)
    requires Init(s)
    ensures Inv(s)
  {
    forall p | 0 <= p < |s.procs| ensures ProcOk(s, p) && WaitOk(s, p) && HasOk(s, p) && PlockOk(s, p) {
    }
    forall c | 0 <= c < |s.ready| ensures ChanRange(s, c) && FlagOk(s, c) {
    }
    forall p, c | 0 <= p < |s.procs| && 0 <= c < |s.ready| ensures OwnOk(s, p, c) {
      assert ChanRange(s, c);
    }
    forall k | 0 <= k < |s.spin| ensures LkOk(s, k) {
    }
  }

  lemma StepKeeps(s: State, step: Step)
    requires Inv(s) && Enabled(s, step)
    ensures Inv(Do(s, step))
  {
    match step
    case Move(p) => MoveKeeps(s, p);
    case StartAcquire(_, _) => StartKeeps(s, step);
    case StartRelease(_, _) => StartKeeps(s, step);
    case StartUse(_, _) => StartKeeps(s, step);
    case YieldLock(_) => YieldKeeps(s, step);
    case YieldMark(_) => YieldKeeps(s, step);
    case YieldSwitch(_) => SwitchKeeps(s, step);
    case YieldReturn(_) => SwitchKeeps(s, step);
    case CpuLock(_, _) => SchedulerKeeps(s, step);
    case CpuRun(_) => DispatchKeeps(s, step);
    case CpuSkip(_) => SchedulerKeeps(s, step);
    case Kill(_) => KillKeeps(s, step);
    case _ => ActKeeps(s, step);
  }

  lemma {:induction false} RunKeeps(start: State, steps: seq<Step>, end: State)
    requires Init(start) && Run(start, steps, end)
    ensures Inv(end)
    decreases |steps|
  {
    if steps == [] {
      InitOk(start);
    } else {
      var last := |steps| - 1;
      var mid :| Run(start, steps[..last], mid) && Enabled(mid, steps[last]) && end == Do(mid, steps[last]);
      RunKeeps(start, steps[..last], mid);
      StepKeeps(mid, steps[last]);
    }
  }

  // ----- what follows for every run

  /** No lost wakeup: whenever a channel's condition holds and nobody is inside its spinlock, nobody sleeps on it. */
  lemma NoLostWakeup(start: State, steps: seq<Step>, end: State, p: nat, c: nat)
    requires Init(start) && Run(start, steps, end) && p < |end.procs| && ChanRange(end, c)
    requires end.ready[c] && end.spin[end.lockOf[c]] == None
    ensures !(end.procs[p].state == SLEEPING && end.procs[p].chan == Some(c))
  {
    RunKeeps(start, steps, end);
    assert ProcOk(end, p) && WaitOk(end, p);
  }

  /** And while the process that made it true is still inside, each sleeper is ahead of its wakeup loop. */
  lemma SleeperIsAhead(start: State, steps: seq<Step>, end: State, p: nat, c: nat)
    requires Init(start) && Run(start, steps, end) && p < |end.procs| && ChanRange(end, c)
    requires end.ready[c] && end.procs[p].state == SLEEPING && end.procs[p].chan == Some(c)
    ensures WakeupComing(end, c, p)
  {
    RunKeeps(start, steps, end);
    assert ProcOk(end, p) && WaitOk(end, p);
  }

  /** Mutual exclusion: between acquiresleep and releasesleep, a process is alone with the lock, and the lock
      says so. */
  lemma MutualExclusion(start: State, steps: seq<Step>, end: State, p: nat, q: nat, c: nat)
    requires Init(start) && Run(start, steps, end) && p < |end.procs| && q < |end.procs|
    requires c in end.procs[p].has
    ensures c < |end.ready| == |end.pid| && !end.ready[c] && end.pid[c] == Some(p)
    ensures c in end.procs[q].has ==> q == p
  {
    RunKeeps(start, steps, end);
    assert HasOk(end, p) && HasOk(end, q);
    assert ChanRange(end, c) && OwnOk(end, p, c) && OwnOk(end, q, c);
  }

  /** A lock that is taken is taken by a process that has it or is on its way in or out; none is left behind. */
  lemma TakenMeansOwned(start: State, steps: seq<Step>, end: State, c: nat)
    requires Init(start) && Run(start, steps, end) && ChanRange(end, c) && end.sleepLock[c] && !end.ready[c]
    ensures end.pid[c].Some? && end.pid[c].value < |end.procs| && Owns(end.procs[end.pid[c].value], c)
  {
    RunKeeps(start, steps, end);
    assert FlagOk(end, c);
    assert OwnOk(end, end.pid[c].value, c);
  }
}
