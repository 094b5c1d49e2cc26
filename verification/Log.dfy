/** kernel/log.c over the buffer cache: the in-memory header, its operations, commit and recovery.
    A method whose `ok` comes back false met bget's panic and stopped there. */
module Log {
  import opened Params
  import opened LogDisk
  import opened Bio

  // ----- the cache in summary: `m` is what readers see, `r` how often each block is referenced

  ghost function Bump(r: seq<int>, x: int, d: int): (s: seq<int>)
    requires 0 <= x < |r|
    ensures |s| == |r|
  {
    r[x := r[x] + d]
  }

  ghost predicate Abs(b: Bufs, disk: Disk, dev: nat, m: Disk, r: seq<int>) {
    && |b| == NBUF + 1 && dev != 0 && |m| == |disk| == |r|
    && NoTwins(b) && Clean(b, disk) && OneDev(b, dev)
    && (forall y :: 0 <= y < |disk| ==> AbsAt(b, disk, dev, m, r, y))
  }

  ghost predicate AbsAt(b: Bufs, disk: Disk, dev: nat, m: Disk, r: seq<int>, y: int)
    requires |b| == NBUF + 1 && |m| == |disk| == |r| && 0 <= y < |disk|
  {
    Seen(b, disk, dev, y) == m[y] && RefOf(b, dev, y) == r[y]
  }

  ghost predicate OneDev(b: Bufs, dev: nat)
    requires |b| == NBUF + 1
  {
    forall j :: 0 <= j < NBUF && b[j].dev != 0 ==> b[j].dev == dev
  }

  /** Buffer `i` is a usable copy of block `x`. */
  ghost predicate Held(b: Bufs, i: nat, dev: nat, x: int) {
    Is(b, i, dev, x) && b[i].valid && b[i].refcnt >= 1
  }

  /** Buffers in use stay usable copies of their blocks. */
  ghost predicate KeepsHeld(b: Bufs, b': Bufs) {
    forall j, dev, y :: Held(b, j, dev, y) ==> Held(b', j, dev, y)
  }

  lemma HeldFacts(b: Bufs, disk: Disk, dev: nat, m: Disk, r: seq<int>, i: nat, x: int)
    requires Abs(b, disk, dev, m, r) && Held(b, i, dev, x)
    ensures 0 <= x < |disk| && b[i].data == m[x] && b[i].refcnt == r[x]
  {
    SlotUnique(b, i, dev, x);
    assert CleanAt(b[i], disk);
    assert AbsAt(b, disk, dev, m, r, x);
  }

  lemma BreadAbs(b: Bufs, b': Bufs, disk: Disk, dev: nat, m: Disk, r: seq<int>, x: int, i: nat)
    requires Abs(b, disk, dev, m, r) && |b'| == |b| && 0 <= x < |disk| && Got(b, b', disk, dev, x, i)
    ensures Abs(b', disk, dev, m, Bump(r, x, 1)) && Held(b', i, dev, x) && b'[i].data == m[x]
    ensures KeepsHeld(b, b')
  {
    var r' := Bump(r, x, 1);
    forall y | 0 <= y < |disk| ensures AbsAt(b', disk, dev, m, r', y) {
      assert AbsAt(b, disk, dev, m, r, y);
    }
    assert AbsAt(b, disk, dev, m, r, x);
  }

  lemma SetAbs(b: Bufs, disk: Disk, dev: nat, m: Disk, r: seq<int>, i: nat, x: int, v: Block)
    requires Abs(b, disk, dev, m, r) && Held(b, i, dev, x) && 0 <= x < |disk|
    ensures Abs(b[i := b[i].(data := v)], disk, dev, m[x := v], r)
  {
    DataSeen(b, disk, i, dev, x, v, x);
    var b', m' := b[i := b[i].(data := v)], m[x := v];
    forall y | 0 <= y < |disk| ensures AbsAt(b', disk, dev, m', r, y) {
      assert AbsAt(b, disk, dev, m, r, y);
      DataSeen(b, disk, i, dev, x, v, y);
    }
  }

  lemma WriteAbs(b: Bufs, disk: Disk, dev: nat, m: Disk, r: seq<int>, i: nat, x: int)
    requires Abs(b, disk, dev, m, r) && Held(b, i, dev, x) && 0 <= x < |disk|
    ensures Abs(b, disk[x := b[i].data], dev, m, r)
  {
    WriteSeen(b, disk, i, dev, x, x);
    var disk' := disk[x := b[i].data];
    forall y | 0 <= y < |disk| ensures AbsAt(b, disk', dev, m, r, y) {
      assert AbsAt(b, disk, dev, m, r, y);
      WriteSeen(b, disk, i, dev, x, y);
    }
  }

  /** Dropping a reference is safe while another remains or when the disk already agrees. */
  lemma RelseAbs(b: Bufs, b': Bufs, disk: Disk, dev: nat, m: Disk, r: seq<int>, i: nat, x: int)
    requires Abs(b, disk, dev, m, r) && |b'| == |b| && i < NBUF && Held(b, i, dev, x) && 0 <= x < |disk|
    requires LetGo(b, b', i) && (r[x] > 1 || m[x] == disk[x])
    ensures Abs(b', disk, dev, m, Bump(r, x, -1))
  {
    HeldFacts(b, disk, dev, m, r, i, x);
    LetGoSeen(b, b', disk, i, dev, x);
    forall j | 0 <= j < NBUF ensures CleanAt(b'[j], disk) {
      assert CleanAt(b[j], disk);
    }
    var r' := Bump(r, x, -1);
    forall y | 0 <= y < |disk| ensures AbsAt(b', disk, dev, m, r', y) {
      assert AbsAt(b, disk, dev, m, r, y);
      LetGoSeen(b, b', disk, i, dev, y);
    }
  }

  lemma PinAbs(b: Bufs, disk: Disk, dev: nat, m: Disk, r: seq<int>, i: nat, x: int)
    requires Abs(b, disk, dev, m, r) && Held(b, i, dev, x) && 0 <= x < |disk|
    ensures Abs(b[i := b[i].(refcnt := b[i].refcnt + 1)], disk, dev, m, Bump(r, x, 1))
  {
    var b' := b[i := b[i].(refcnt := b[i].refcnt + 1)];
    assert LetGo(b', b, i);
    assert NoTwins(b');
    forall j | 0 <= j < NBUF ensures CleanAt(b'[j], disk) {
      assert CleanAt(b[j], disk);
    }
    var r' := Bump(r, x, 1);
    forall y | 0 <= y < |disk| ensures AbsAt(b', disk, dev, m, r', y) {
      assert AbsAt(b, disk, dev, m, r, y);
      LetGoSeen(b', b, disk, i, dev, y);
    }
  }

  // ----- what the copy loops make of the contents

  /** Contents after write_log copied the first `t` listed blocks. */
  ghost function Logged(lay: Layout, m: Disk, list: seq<int>, t: nat): (r: Disk)
    requires t <= |list| <= LOGBLOCKS && |m| == lay.size && lay.Valid()
    requires forall i :: 0 <= i < |list| ==> 0 <= list[i] < |m|
    ensures |r| == |m|
  {
    seq(|m|, x requires 0 <= x < |m| => if lay.start < x <= lay.start + t then m[list[x - lay.start - 1]] else m[x])
  }

  /** References taken on both blocks and let go again, with `d` taken off the second in between. */
  lemma CountsBack(r: seq<int>, a: int, c: int)
    requires 0 <= a < |r| && 0 <= c < |r| && a != c
    ensures Bump(Bump(Bump(Bump(r, a, 1), c, 1), c, -1), a, -1) == r
    ensures Bump(Bump(Bump(Bump(Bump(r, a, 1), c, 1), c, -1), a, -1), c, -1) == Bump(r, c, -1)
    ensures Bump(Bump(Bump(Bump(r, a, 1), c, 1), a, -1), c, -1) == Bump(r, c, 0)
    ensures Bump(Bump(r, a, 1), a, -1) == r
  {
  }

  /** Reference counts after install_trans is through with the first `t` listed blocks. */
  ghost function Left(r: seq<int>, list: seq<int>, t: nat, recovering: bool): (s: seq<int>)
    requires t <= |list|
    ensures |s| == |r|
  {
    seq(|r|, x requires 0 <= x < |r| => if recovering || Absent(list, t, x) then r[x] else r[x] - 1)
  }

  lemma LeftNext(r: seq<int>, list: seq<int>, t: nat, recovering: bool)
    requires t < |list| && Distinct(list) && forall i :: 0 <= i < |list| ==> 0 <= list[i] < |r|
    ensures Left(r, list, t, recovering)[list[t]] == r[list[t]]
    ensures Left(r, list, t + 1, recovering)
      == Bump(Left(r, list, t, recovering), list[t], if recovering then 0 else -1)
  {
    forall x {:trigger r[x]} | 0 <= x < |r|
      ensures Left(r, list, t + 1, recovering)[x]
        == Bump(Left(r, list, t, recovering), list[t], if recovering then 0 else -1)[x]
    {
      assert Absent(list, t + 1, x) == (Absent(list, t, x) && list[t] != x);
    }
  }

  lemma HomeCopiesNext(w: seq<Write>, list: seq<int>, slots: seq<Block>, t: nat)
    requires t < |list| <= |slots|
    ensures w + HomeCopies(list, slots, t + 1) == w + HomeCopies(list, slots, t) + [Write(list[t], slots[t])]
  {
    assert HomeCopies(list, slots, t + 1) == HomeCopies(list, slots, t) + [Write(list[t], slots[t])];
  }

  /** The log area reads, and is on disk, as `m` says. */
  ghost predicate LogIs(lay: Layout, m: Disk, seen: Disk, disk: Disk) {
    && |m| == |seen| == |disk| == lay.size && lay.Valid()
    && forall x :: lay.InLog(x) ==> seen[x] == m[x] && disk[x] == m[x]
  }

  /** `d` after install_trans copied the first `t` log slots of `m` home. */
  ghost function Homed(lay: Layout, m: Disk, d: Disk, list: seq<int>, t: nat): (r: Disk)
    requires lay.Valid() && |m| == lay.size && t <= |list| <= LOGBLOCKS
    ensures |r| == |d|
  {
    seq(|d|, x requires 0 <= x < |d| => if Find(list, x) < t then m[lay.start + 1 + Find(list, x)] else d[x])
  }

  lemma HomedNext(lay: Layout, m: Disk, d: Disk, list: seq<int>, t: nat)
    requires lay.Valid() && |m| == |d| == lay.size && t < |list| && ListOk(lay, list)
    ensures 0 <= list[t] < |d|
    ensures Homed(lay, m, d, list, t + 1) == Homed(lay, m, d, list, t)[list[t] := m[lay.start + 1 + t]]
  {
    assert lay.Home(list[t]);
    assert Find(list, list[t]) == t;
  }

  /** install_trans is through with the first `t` listed blocks. */
  ghost predicate InstalledUpTo(lay: Layout, m: Disk, d: Disk, seen: Disk, disk: Disk, r: seq<int>, refs: seq<int>,
                                w: seq<Write>, writes: seq<Write>, list: seq<int>, t: nat, recovering: bool)
    requires lay.Valid() && |m| == lay.size && t <= |list| <= LOGBLOCKS
  {
    && seen == Homed(lay, m, m, list, t) && disk == Homed(lay, m, d, list, t)
    && LogIs(lay, m, seen, disk) && refs == Left(r, list, t, recovering)
    && writes == w + HomeCopies(list, LogSlots(lay, m, |list|), t)
  }

  /** No home block differs. */
  ghost predicate HomeSame(lay: Layout, d: Disk, d': Disk) {
    |d| == |d'| == lay.size && forall x {:trigger d'[x]} :: lay.Home(x) ==> d'[x] == d[x]
  }

  /** write_log is through with the first `t` listed blocks. */
  ghost predicate LoggedUpTo(lay: Layout, m: Disk, d: Disk, seen: Disk, disk: Disk, w: seq<Write>, writes: seq<Write>,
                             list: seq<int>, t: nat)
    requires lay.Valid() && |m| == lay.size && t <= |list| && ListOk(lay, list)
  {
    && seen == Logged(lay, m, list, t) && LogIs(lay, seen, seen, disk) && HomeSame(lay, d, disk)
    && writes == w + LogCopies(lay, list, m, t)
  }

  lemma LoggedNone(lay: Layout, m: Disk, d: Disk, w: seq<Write>, list: seq<int>)
    requires LogIs(lay, m, m, d) && ListOk(lay, list)
    ensures LoggedUpTo(lay, m, d, m, d, w, w, list, 0)
  {
    assert Logged(lay, m, list, 0) == m;
  }

  lemma LoggedDone(lay: Layout, m: Disk, d: Disk, seen: Disk, disk: Disk, w: seq<Write>, writes: seq<Write>,
                   list: seq<int>, t: nat)
    requires lay.Valid() && |m| == lay.size && t <= |list| && ListOk(lay, list)
    requires LoggedUpTo(lay, m, d, seen, disk, w, writes, list, t)
    ensures seen == Logged(lay, m, list, t) && LogIs(lay, seen, seen, disk) && HomeSame(lay, d, disk)
    ensures writes == w + LogCopies(lay, list, m, t)
  {
  }

  lemma LoggedNext(lay: Layout, m: Disk, d: Disk, seen: Disk, disk: Disk, w: seq<Write>, writes: seq<Write>,
                   list: seq<int>, t: nat)
    requires lay.Valid() && |m| == lay.size && t < |list| && ListOk(lay, list)
    requires LoggedUpTo(lay, m, d, seen, disk, w, writes, list, t)
    ensures 0 <= list[t] < lay.size && list[t] != lay.start + 1 + t < lay.size && |seen| == |disk| == lay.size
    ensures var a, v := lay.start + 1 + t, seen[list[t]];
      LoggedUpTo(lay, m, d, seen[a := v], disk[a := v], w, writes + [Write(a, v)], list, t + 1)
  {
    var a := lay.start + 1 + t;
    assert lay.Home(list[t]);
    assert Logged(lay, m, list, t + 1) == Logged(lay, m, list, t)[a := m[list[t]]];
    assert LogCopies(lay, list, m, t + 1) == LogCopies(lay, list, m, t) + [Write(a, m[list[t]])];
  }

  /** commit leaves what readers see alone, and the disk agreeing with it. */
  lemma AfterCommit(lay: Layout, d: Disk, list: seq<int>, m: Disk, d1: Disk, m1: Disk)
    requires Pending(lay, d, list, m) && HomeSame(lay, d, d1) && HomeSame(lay, m, m1)
    requires LogSlots(lay, m1, |list|) == MemSlots(list, m)
    ensures HomeSame(lay, m, Homed(lay, m1, m1, list, |list|))
    ensures HomeSame(lay, m, Homed(lay, m1, d1, list, |list|))
  {
    forall x | lay.Home(x)
      ensures Homed(lay, m1, m1, list, |list|)[x] == m[x] == Homed(lay, m1, d1, list, |list|)[x]
    {
      var i := Find(list, x);
      if i < |list| {
        assert LogSlots(lay, m1, |list|)[i] == MemSlots(list, m)[i];
      } else {
        assert Absent(list, |list|, x);
      }
    }
  }

  /** Nothing is pending over a disk that agrees with what readers see and whose log is empty. */
  ghost predicate Settled(lay: Layout, m: Disk, d: Disk) {
    DiskOk(lay, d) && HeadOf(d[lay.start]) == [] && LogIs(lay, m, m, d) && HomeSame(lay, d, m)
  }

  lemma SettledIsPending(lay: Layout, m: Disk, d: Disk)
    requires Settled(lay, m, d)
    ensures Pending(lay, d, [], m)
  {
  }

  /** A change that is then logged leaves only listed blocks to write. */
  lemma LoggedIsPending(lay: Layout, d: Disk, list: seq<int>, m: Disk, x: int, v: Block)
    requires Pending(lay, d, list, m) && lay.Home(x)
    requires x in list || |list| < LOGBLOCKS
    ensures Pending(lay, d, if x in list then list else list + [x], m[x := v])
  {
    var list' := if x in list then list else list + [x];
    forall b | lay.Home(b) && Absent(list', |list'|, b)
      ensures m[x := v][b] == d[b]
    {
      assert x in list';
      assert b != x;
      assert Absent(list, |list|, b) by {
        forall i | 0 <= i < |list| ensures list[i] != b { assert list'[i] == list[i]; }
      }
    }
  }

  lemma InstalledNone(lay: Layout, m: Disk, d: Disk, r: seq<int>, w: seq<Write>, list: seq<int>, recovering: bool)
    requires LogIs(lay, m, m, d) && |list| <= LOGBLOCKS
    ensures InstalledUpTo(lay, m, d, m, d, r, r, w, w, list, 0, recovering)
  {
    assert HomeCopies(list, LogSlots(lay, m, |list|), 0) == [];
    assert Left(r, list, 0, recovering) == r;
    assert Homed(lay, m, m, list, 0) == m && Homed(lay, m, d, list, 0) == d;
  }

  lemma InstalledNext(lay: Layout, m: Disk, d: Disk, seen: Disk, disk: Disk, r: seq<int>, refs: seq<int>,
                      w: seq<Write>, writes: seq<Write>, list: seq<int>, t: nat, recovering: bool, v: Block)
    requires lay.Valid() && |m| == |d| == |r| == lay.size && t < |list| && ListOk(lay, list)
    requires InstalledUpTo(lay, m, d, seen, disk, r, refs, w, writes, list, t, recovering)
    requires v == m[lay.start + 1 + t]
    ensures InstalledUpTo(lay, m, d, seen[list[t] := v], disk[list[t] := v], r,
                          Bump(refs, list[t], if recovering then 0 else -1), w, writes + [Write(list[t], v)],
                          list, t + 1, recovering)
    ensures refs[list[t]] == r[list[t]] && lay.Home(list[t])
    ensures seen[lay.start + 1 + t] == disk[lay.start + 1 + t] == v
  {
    HomedNext(lay, m, m, list, t);
    HomedNext(lay, m, d, list, t);
    LeftNext(r, list, t, recovering);
    HomeCopiesNext(w, list, LogSlots(lay, m, |list|), t);
  }

  /** The states that a run making the first `k` of the writes `ws` took the device through. */
  lemma StatesOf(s0: seq<Disk>, w0: seq<Write>, states: seq<Disk>, writes: seq<Write>, ws: seq<Write>, k: nat, j: nat)
    requires History(s0, w0) && History(states, writes) && s0[0] == states[0]
    requires k <= |ws| && writes == w0 + ws[..k] && j <= k
    ensures Fits(ws[..j], |s0[|w0|]|) && states[|w0| + j] == ApplyWrites(s0[|w0|], ws[..j])
  {
    HistoryExtends(s0, w0, states, writes, |w0|);
    StatesReplay(states, writes, |w0|, j);
    assert writes[|w0|..|w0| + j] == ws[..j];
  }

  /** Every state recover_from_log goes through means what the disk meant before; the last installs it. */
  lemma RecoverStates(lay: Layout, v: Disk, s0: seq<Disk>, w0: seq<Write>, states: seq<Disk>, writes: seq<Write>,
                      k: nat, s: nat)
    requires History(s0, w0) && History(states, writes) && s0[0] == states[0] && Shows(lay, s0[|w0|], v)
    requires k <= |RecoverWrites(lay, s0[|w0|])| && writes == w0 + RecoverWrites(lay, s0[|w0|])[..k]
    requires |w0| <= s < |states|
    ensures Shows(lay, states[s], v)
    ensures s == |w0| + |RecoverWrites(lay, s0[|w0|])| ==> Installed(lay, states[s], v)
  {
    StatesOf(s0, w0, states, writes, RecoverWrites(lay, s0[|w0|]), k, s - |w0|);
    RecoverPrefix(lay, s0[|w0|], v, s - |w0|);
  }

  /** Every state commit goes through means the old contents up to the header write and the new ones
      from it on; the last installs the new ones. */
  lemma CommitStates(lay: Layout, old': Disk, list: seq<int>, m: Disk, s0: seq<Disk>, w0: seq<Write>,
                     states: seq<Disk>, writes: seq<Write>, k: nat, s: nat)
    requires History(s0, w0) && History(states, writes) && s0[0] == states[0]
    requires Pending(lay, s0[|w0|], list, m) && Installed(lay, s0[|w0|], old')
    requires k <= |CommitWrites(lay, s0[|w0|][lay.start], list, m)|
    requires writes == w0 + CommitWrites(lay, s0[|w0|][lay.start], list, m)[..k]
    requires |w0| <= s < |states|
    ensures Shows(lay, states[s], if s - |w0| <= |list| then old' else m)
    ensures list != [] && s == |w0| + 2 * |list| + 2 ==> Installed(lay, states[s], m)
  {
    StatesOf(s0, w0, states, writes, CommitWrites(lay, s0[|w0|][lay.start], list, m), k, s - |w0|);
    if s - |w0| <= |list| {
      CutBeforePoint(lay, s0[|w0|], old', list, m, s - |w0|);
    } else {
      CutAfterPoint(lay, s0[|w0|], list, m, s - |w0|);
    }
  }

  /** After the commit point, the writes still to come are install_trans's and the erasing one. */
  lemma RestOfCommit(lay: Layout, w: seq<Write>, hd: Block, list: seq<int>, m: Disk)
    requires |hd.words| == WORDS && 0 < |list| <= LOGBLOCKS
    requires forall i :: 0 <= i < |list| ==> 0 <= list[i] < |m|
    ensures var ws := CommitWrites(lay, hd, list, m);
      var rest := HomeCopies(list, MemSlots(list, m), |list|) + [Write(lay.start, PutHead(PutHead(hd, list), []))];
      |ws| == 2 * |list| + 2 && forall t :: 0 <= t <= |list| + 1 ==>
        w + ws[..|list| + 1] + rest[..t] == w + ws[..|list| + 1 + t]
  {
    CommitWritesSplit(lay, hd, list, m);
    var ws := CommitWrites(lay, hd, list, m);
    var head := LogCopies(lay, list, m, |list|) + [Write(lay.start, PutHead(hd, list))];
    var rest := HomeCopies(list, MemSlots(list, m), |list|) + [Write(lay.start, PutHead(PutHead(hd, list), []))];
    forall t | 0 <= t <= |list| + 1 ensures w + ws[..|list| + 1] + rest[..t] == w + ws[..|list| + 1 + t] {
      Cut3(w, head, rest, t);
    }
  }

  lemma NothingToCommit(lay: Layout, hd: Block, list: seq<int>, m: Disk, refs: seq<int>)
    requires list == [] && |hd.words| == WORDS
    ensures CommitWrites(lay, hd, list, m) == [] && Left(refs, list, 0, false) == refs
  {
  }

  lemma Cut3(w: seq<Write>, a: seq<Write>, b: seq<Write>, t: nat)
    requires t <= |b|
    ensures w + (a + b)[..|a|] + b[..t] == w + (a + b)[..|a| + t]
  {
  }

  class Log {
    const lay: Layout
    const dev: nat
    var cache: BCache
    /** struct logheader in memory. */
    var n: int
    var block: seq<int>
    var outstanding: int
    var committing: bool
    /** What readers see of each block, and how often each is referenced. */
    ghost var seen: Disk
    ghost var refs: seq<int>

    ghost predicate Valid()
      reads this, cache, cache.buf
    {
      && cache.Valid() && lay.Valid() && |cache.disk| == lay.size
      && |block| == LOGBLOCKS && 0 <= n <= LOGBLOCKS
      && ListOk(lay, block[..n])
      && Abs(cache.buf[..], cache.disk, dev, seen, refs)
    }

    /** initlog up to its call of recover_from_log. */
    constructor Init(dev: nat, lay: Layout, cache: BCache)
      requires cache.Valid() && lay.Valid() && |cache.disk| == lay.size && dev != 0
      requires Clean(cache.buf[..], cache.disk) && OneDev(cache.buf[..], dev)
      ensures Valid() && this.dev == dev && this.lay == lay && this.cache == cache
      ensures n == 0 && outstanding == 0 && !committing
      ensures forall y :: 0 <= y < lay.size ==> seen[y] == Seen(cache.buf[..], cache.disk, dev, y)
    {
      this.dev, this.lay, this.cache := dev, lay, cache;
      n, block, outstanding, committing := 0, seq(LOGBLOCKS, _ => 0), 0, false;
      ghost var b, d := cache.buf[..], cache.disk;
      seen := seq(|d|, y requires 0 <= y < |d| => Seen(b, d, dev, y));
      refs := seq(|d|, y requires 0 <= y < |d| => RefOf(b, dev, y));
      new;
      assert forall y :: 0 <= y < |d| ==> AbsAt(b, d, dev, seen, refs, y);
    }

    /** One turn of write_log's loop: home block `c` is copied over log block `a`. */
    method CopyToLog(a: int, c: int) returns (ok: bool)
      requires Valid() && 0 <= a < lay.size && 0 <= c < lay.size && a != c && refs[c] >= 1
      modifies this`seen, this`refs, cache`disk, cache`writes, cache`states, cache`order, cache`stamp, cache`clock,
        cache.buf
      ensures cache.Valid() && |cache.disk| == lay.size
      ensures !ok ==> cache.writes == old(cache.writes) && cache.disk == old(cache.disk)
      ensures ok ==> Valid() && refs == old(refs) && seen == old(seen[a := seen[c]])
      ensures ok ==> cache.disk == old(cache.disk)[a := old(seen)[c]]
      ensures ok ==> cache.writes == old(cache.writes) + [Write(a, old(seen)[c])]
    {
      hide BCache.Valid, ListOk;
      var to, from;
      ghost var r := refs;
      to, ok := ReadBlock(a);
      if !ok { return; }
      from, ok := ReadBlock(c);
      if !ok { return; }
      SetData(to, a, cache.buf[from].data);
      WriteBlock(to, a);
      Release(from, c);
      Release(to, a);
      CountsBack(r, a, c);
    }

    /** One turn of install_trans's loop: log block `a` is copied over home block `c`. */
    method CopyHome(a: int, c: int, recovering: bool) returns (ok: bool)
      requires Valid() && 0 <= a < lay.size && 0 <= c < lay.size && a != c && seen[a] == cache.disk[a]
      requires !recovering ==> refs[c] >= 1
      modifies this`seen, this`refs, cache`disk, cache`writes, cache`states, cache`order, cache`stamp, cache`clock,
        cache.buf
      ensures cache.Valid() && |cache.disk| == lay.size
      ensures !ok ==> cache.writes == old(cache.writes) && cache.disk == old(cache.disk)
      ensures ok ==> Valid() && seen == old(seen[c := seen[a]])
      ensures ok ==> refs == Bump(old(refs), c, if recovering then 0 else -1)
      ensures ok ==> cache.disk == old(cache.disk)[c := old(seen)[a]]
      ensures ok ==> cache.writes == old(cache.writes) + [Write(c, old(seen)[a])]
    {
      var lbuf, dbuf;
      ghost var r := refs;
      lbuf, ok := ReadBlock(a);
      if !ok { return; }
      dbuf, ok := ReadBlock(c);
      if !ok { return; }
      InstallHeld(lbuf, dbuf, a, c, recovering);
      CountsBack(r, a, c);
    }

    /** install_trans between its reads and the end of the turn. */
    method InstallHeld(lbuf: nat, dbuf: nat, a: int, c: int, recovering: bool)
      requires Valid() && 0 <= a < lay.size && 0 <= c < lay.size && a != c && lbuf < NBUF && dbuf < NBUF
      requires Held(cache.buf[..], lbuf, dev, a) && Held(cache.buf[..], dbuf, dev, c)
      requires seen[a] == cache.disk[a] && (!recovering ==> refs[c] > 1)
      modifies this`seen, this`refs, cache`disk, cache`writes, cache`states, cache`order, cache`stamp, cache`clock,
        cache.buf
      ensures Valid() && seen == old(seen)[c := old(seen)[a]]
      ensures recovering ==> refs == Bump(Bump(old(refs), a, -1), c, -1)
      ensures !recovering ==> refs == Bump(Bump(Bump(old(refs), c, -1), a, -1), c, -1)
      ensures cache.disk == old(cache.disk)[c := old(seen)[a]]
      ensures cache.writes == old(cache.writes) + [Write(c, old(seen)[a])]
    {
      HeldFacts(cache.buf[..], cache.disk, dev, seen, refs, lbuf, a);
      SetData(dbuf, c, cache.buf[lbuf].data);
      WriteBlock(dbuf, c);
      if !recovering {
        DropPin(dbuf, c);
      }
      Release(lbuf, a);
      Release(dbuf, c);
    }

    /** bread, keeping the summary. */
    method ReadBlock(x: int) returns (i: nat, ok: bool)
      requires Valid() && 0 <= x < lay.size
      modifies this`refs, cache.buf
      ensures cache.Valid()
      ensures ok ==> Valid() && refs == Bump(old(refs), x, 1)
      ensures ok ==> Held(cache.buf[..], i, dev, x) && cache.buf[i].data == seen[x]
      ensures ok ==> KeepsHeld(old(cache.buf[..]), cache.buf[..])
    {
      ghost var b := cache.buf[..];
      i, ok := cache.Bread(dev, x);
      if ok {
        BreadAbs(b, cache.buf[..], cache.disk, dev, seen, refs, x, i);
        refs := Bump(refs, x, 1);
      }
    }

    /** memmove into a buffer. */
    method SetData(i: nat, x: int, data: Block)
      requires Valid() && Held(cache.buf[..], i, dev, x)
      modifies this`seen, cache.buf
      ensures Valid() && 0 <= x < lay.size && seen == old(seen)[x := data]
      ensures cache.buf[..] == old(cache.buf[..])[i := old(cache.buf[i]).(data := data)]
    {
      ghost var b := cache.buf[..];
      HeldFacts(b, cache.disk, dev, seen, refs, i, x);
      SetAbs(b, cache.disk, dev, seen, refs, i, x, data);
      cache.buf[i] := cache.buf[i].(data := data);
      assert cache.buf[..] == b[i := b[i].(data := data)];
      seen := seen[x := data];
      assert Linked(cache.buf[..], cache.order) by { SameLinks(b, cache.buf[..], cache.order); }
    }

    method WriteBlock(i: nat, x: int)
      requires Valid() && Held(cache.buf[..], i, dev, x)
      modifies cache`disk, cache`writes, cache`states
      ensures Valid() && 0 <= x < lay.size && cache.disk == old(cache.disk)[x := seen[x]]
      ensures cache.writes == old(cache.writes) + [Write(x, seen[x])]
    {
      HeldFacts(cache.buf[..], cache.disk, dev, seen, refs, i, x);
      WriteAbs(cache.buf[..], cache.disk, dev, seen, refs, i, x);
      cache.Bwrite(i);
    }

    /** brelse, keeping the summary. */
    method Release(i: nat, x: int)
      requires Valid() && i < NBUF && Held(cache.buf[..], i, dev, x) && 0 <= x < lay.size
      requires refs[x] > 1 || seen[x] == cache.disk[x]
      modifies this`refs, cache`order, cache`stamp, cache`clock, cache.buf
      ensures Valid() && refs == Bump(old(refs), x, -1)
      ensures forall j, y :: j != i && old(Held(cache.buf[..], j, dev, y)) ==> Held(cache.buf[..], j, dev, y)
    {
      ghost var b := cache.buf[..];
      HeldFacts(b, cache.disk, dev, seen, refs, i, x);
      cache.Brelse(i);
      RelseAbs(b, cache.buf[..], cache.disk, dev, seen, refs, i, x);
      refs := Bump(refs, x, -1);
    }

    /** bunpin of a buffer that is also held. */
    method DropPin(i: nat, x: int)
      requires Valid() && i < NBUF && Held(cache.buf[..], i, dev, x) && 0 <= x < lay.size && refs[x] > 1
      modifies this`refs, cache.buf
      ensures Valid() && refs == Bump(old(refs), x, -1)
      ensures KeepsHeld(old(cache.buf[..]), cache.buf[..])
    {
      ghost var b := cache.buf[..];
      HeldFacts(b, cache.disk, dev, seen, refs, i, x);
      cache.Bunpin(i);
      assert LetGo(b, cache.buf[..], i);
      RelseAbs(b, cache.buf[..], cache.disk, dev, seen, refs, i, x);
      refs := Bump(refs, x, -1);
    }

    method WriteLog() returns (ok: bool, ghost t: nat)
      requires Valid() && LogIs(lay, seen, seen, cache.disk) && forall i :: 0 <= i < n ==> refs[block[i]] >= 1
      modifies this`seen, this`refs, cache`disk, cache`writes, cache`states, cache`order, cache`stamp, cache`clock,
        cache.buf
      ensures cache.Valid() && |cache.disk| == lay.size
      ensures ok ==> Valid() && refs == old(refs) && seen == Logged(lay, old(seen), block[..n], n)
      ensures ok ==> LogIs(lay, seen, seen, cache.disk) && HomeSame(lay, old(cache.disk), cache.disk)
      ensures t <= n && (ok ==> t == n)
      ensures cache.writes == old(cache.writes) + LogCopies(lay, block[..n], old(seen), t)
    {
      hide HeadOk, HeadOf, PutHead, BCache.Valid, Abs, LoggedUpTo;
      ghost var m, d, r, w, list := seen, cache.disk, refs, cache.writes, block[..n];
      LoggedNone(lay, m, d, w, list);
      var tail := 0;
      while tail < n
        invariant 0 <= tail <= n && Valid() && refs == r
        invariant LoggedUpTo(lay, m, d, seen, cache.disk, w, cache.writes, list, tail)
      {
        LoggedDone(lay, m, d, seen, cache.disk, w, cache.writes, list, tail);
        LoggedNext(lay, m, d, seen, cache.disk, w, cache.writes, list, tail);
        ok := CopyToLog(lay.start + tail + 1, block[tail]);
        if !ok { return false, tail; }
        tail := tail + 1;
      }
      LoggedDone(lay, m, d, seen, cache.disk, w, cache.writes, list, tail);
      return true, tail;
    }

    method WriteHead() returns (ok: bool)
      requires Valid() && |seen[lay.start].words| == WORDS
      modifies this`seen, this`refs, cache`disk, cache`writes, cache`states, cache`order, cache`stamp, cache`clock,
        cache.buf
      ensures cache.Valid() && |cache.disk| == lay.size
      ensures !ok ==> cache.writes == old(cache.writes)
      ensures ok ==> Valid() && refs == old(refs)
      ensures ok && old(LogIs(lay, seen, seen, cache.disk)) ==> LogIs(lay, seen, seen, cache.disk)
      ensures ok ==> seen == old(seen)[lay.start := PutHead(old(seen)[lay.start], block[..n])]
      ensures ok ==> cache.disk == old(cache.disk)[lay.start := seen[lay.start]]
      ensures ok ==> cache.writes == old(cache.writes) + [Write(lay.start, seen[lay.start])]
    {
      hide BCache.Valid;
      var buf;
      buf, ok := ReadBlock(lay.start);
      if !ok { return; }
      var hd := cache.buf[buf].data;
      var words := hd.words[0 := n];
      var i := 0;
      while i < n
        invariant 0 <= i <= n && |words| == WORDS && words[0] == n
        invariant forall j :: 0 <= j < i ==> words[1 + j] == block[j]
        invariant forall j :: i < j < WORDS ==> words[j] == hd.words[j]
      {
        words := words[1 + i := block[i]];
        i := i + 1;
      }
      assert words == PutHead(hd, block[..n]).words;
      SetData(buf, lay.start, Block(words));
      WriteBlock(buf, lay.start);
      CountsBack(old(refs), lay.start, lay.start + 1);
      Release(buf, lay.start);
    }

    lemma Sizes()
      requires Valid()
      ensures |refs| == |seen| == |cache.disk| == lay.size
    {
    }

    method InstallTrans(recovering: bool) returns (ok: bool, ghost t: nat)
      requires Valid() && LogIs(lay, seen, seen, cache.disk)
      requires !recovering ==> forall i :: 0 <= i < n ==> refs[block[i]] >= 1
      modifies this`seen, this`refs, cache`disk, cache`writes, cache`states, cache`order, cache`stamp, cache`clock,
        cache.buf
      ensures cache.Valid() && |cache.disk| == lay.size
      ensures ok ==> Valid() && refs == Left(old(refs), block[..n], n, recovering)
      ensures ok ==> LogIs(lay, old(seen), seen, cache.disk)
      ensures ok ==> seen == Homed(lay, old(seen), old(seen), block[..n], n)
      ensures ok ==> cache.disk == Homed(lay, old(seen), old(cache.disk), block[..n], n)
      ensures t <= n && (ok ==> t == n)
      ensures cache.writes == old(cache.writes) + HomeCopies(block[..n], LogSlots(lay, old(seen), n), t)
    {
      hide BCache.Valid, Abs, Homed, Left, LogIs, LogSlots, HomeCopies;
      ghost var m, d, r, w, list := seen, cache.disk, refs, cache.writes, block[..n];
      Sizes();
      InstalledNone(lay, m, d, r, w, list, recovering);
      var tail := 0;
      while tail < n
        invariant 0 <= tail <= n && Valid()
        invariant InstalledUpTo(lay, m, d, seen, cache.disk, r, refs, w, cache.writes, list, tail, recovering)
      {
        ghost var v := m[lay.start + 1 + tail];
        assert block[tail] == list[tail];
        InstalledNext(lay, m, d, seen, cache.disk, r, refs, w, cache.writes, list, tail, recovering, v);
        ok := CopyHome(lay.start + tail + 1, block[tail], recovering);
        if !ok { return false, tail; }
        tail := tail + 1;
      }
      return true, tail;
    }

    method ReadHead() returns (ok: bool)
      requires Valid() && HeadOk(seen[lay.start]) && ListOk(lay, HeadOf(seen[lay.start]))
        && seen[lay.start] == cache.disk[lay.start]
      modifies this`refs, this`n, this`block, cache`order, cache`stamp, cache`clock, cache.buf
      ensures cache.Valid()
      ensures ok ==> Valid() && refs == old(refs) && block[..n] == HeadOf(seen[lay.start])
    {
      var buf;
      buf, ok := ReadBlock(lay.start);
      if !ok { return; }
      var words, b := cache.buf[buf].data.words, block;
      n := words[0];
      var i := 0;
      while i < n
        modifies {}
        invariant 0 <= i <= n && |b| == LOGBLOCKS
        invariant forall j :: 0 <= j < i ==> b[j] == words[1 + j]
      {
        b := b[i := words[1 + i]];
        i := i + 1;
      }
      block := b;
      assert block[..n] == HeadOf(seen[lay.start]);
      CountsBack(old(refs), lay.start, lay.start + 1);
      Release(buf, lay.start);
    }

    /** recover_from_log on a cache that nothing has changed yet; `k` counts its disk writes. */
    method RecoverFromLog() returns (ok: bool, ghost k: nat)
      requires Valid() && seen == cache.disk && DiskOk(lay, cache.disk)
      modifies this`seen, this`refs, this`n, this`block,
        cache`disk, cache`writes, cache`states, cache`order, cache`stamp, cache`clock, cache.buf
      ensures cache.Valid()
      ensures k <= |RecoverWrites(lay, old(cache.disk))|
      ensures cache.writes == old(cache.writes) + RecoverWrites(lay, old(cache.disk))[..k]
      ensures ok ==> Valid() && n == 0 && refs == old(refs) && k == |RecoverWrites(lay, old(cache.disk))|
      ensures ok ==> seen == cache.disk && Settled(lay, seen, cache.disk)
    {
      hide BCache.Valid, Abs, Homed;
      k := 0;
      ok := ReadHead();
      if !ok { return; }
      ghost var list, d := block[..n], cache.disk;
      ok, k := InstallTrans(true);
      assert RecoverWrites(lay, d)[..k] == HomeCopies(list, LogSlots(lay, d, |list|), k);
      if !ok { return; }
      n := 0;
      assert block[..n] == [];
      assert Left(old(refs), list, |list|, true) == old(refs);
      ok := WriteHead();
      if ok {
        k := k + 1;
      }
    }

    /** commit up to and including the write that is the commit point. */
    method Publish() returns (ok: bool, ghost k: nat)
      requires Valid() && LogIs(lay, seen, seen, cache.disk) && Pending(lay, cache.disk, block[..n], seen)
      requires n > 0 && forall i :: 0 <= i < n ==> refs[block[i]] >= 1
      modifies this`seen, this`refs, cache`disk, cache`writes, cache`states, cache`order, cache`stamp, cache`clock,
        cache.buf
      ensures cache.Valid() && |cache.disk| == lay.size
      ensures k <= n + 1 && (ok ==> k == n + 1)
      ensures cache.writes
        == old(cache.writes) + CommitWrites(lay, old(cache.disk)[lay.start], block[..n], old(seen))[..k]
      ensures ok ==> Valid() && refs == old(refs) && LogIs(lay, seen, seen, cache.disk)
      ensures ok ==> seen[lay.start] == PutHead(old(cache.disk)[lay.start], block[..n])
      ensures ok ==> LogSlots(lay, seen, n) == MemSlots(block[..n], old(seen))
      ensures ok ==> HomeSame(lay, old(seen), seen) && HomeSame(lay, old(cache.disk), cache.disk)
    {
      ghost var list, m, hd := block[..n], seen, cache.disk[lay.start];
      assert seen[lay.start] == hd;
      ok, k := WriteLog();
      CutInLog(lay, hd, list, m, k);
      if !ok { return; }
      assert LogSlots(lay, seen, n) == MemSlots(list, m);
      ok := WriteHead();
      CutInInstall(lay, hd, list, m, 0);
      if ok { k := k + 1; }
    }

    /** The rest of commit: install, then erase the transaction from the log. */
    method InstallAndErase() returns (ok: bool, ghost t: nat)
      requires Valid() && LogIs(lay, seen, seen, cache.disk) && |seen[lay.start].words| == WORDS
      requires forall i :: 0 <= i < n ==> refs[block[i]] >= 1
      modifies this`seen, this`refs, this`n,
        cache`disk, cache`writes, cache`states, cache`order, cache`stamp, cache`clock, cache.buf
      ensures cache.Valid() && |cache.disk| == lay.size
      ensures t <= old(n) + 1 && (ok ==> t == old(n) + 1)
      ensures cache.writes == old(cache.writes)
        + (HomeCopies(old(block[..n]), LogSlots(lay, old(seen), old(n)), old(n))
          + [Write(lay.start, PutHead(old(seen)[lay.start], []))])[..t]
      ensures ok ==> Valid() && n == 0 && refs == Left(old(refs), old(block[..n]), old(n), false)
      ensures ok ==> HomeSame(lay, Homed(lay, old(seen), old(seen), old(block[..n]), old(n)), seen)
      ensures ok ==> HomeSame(lay, Homed(lay, old(seen), old(cache.disk), old(block[..n]), old(n)), cache.disk)
      ensures ok ==> LogIs(lay, seen, seen, cache.disk) && HeadOk(seen[lay.start]) && HeadOf(seen[lay.start]) == []
    {
      ghost var list, slots := block[..n], LogSlots(lay, seen, n);
      ghost var all := HomeCopies(list, slots, n) + [Write(lay.start, PutHead(seen[lay.start], []))];
      ok, t := InstallTrans(false);
      assert all[..t] == HomeCopies(list, slots, t);
      if !ok { return; }
      n := 0;
      assert block[..n] == [];
      ok := WriteHead();
      if ok {
        t := t + 1;
        assert all[..t] == all;
      }
    }

    /** commit, run with no operation outstanding: `ws` are its disk writes, `k` how many it made. */
    method Commit() returns (ok: bool, ghost ws: seq<Write>, ghost k: nat)
      requires Valid() && LogIs(lay, seen, seen, cache.disk) && Pending(lay, cache.disk, block[..n], seen)
      requires forall i :: 0 <= i < n ==> refs[block[i]] >= 1
      modifies this`seen, this`refs, this`n,
        cache`disk, cache`writes, cache`states, cache`order, cache`stamp, cache`clock, cache.buf
      ensures cache.Valid()
      ensures ws == CommitWrites(lay, old(cache.disk)[lay.start], old(block[..n]), old(seen))
      ensures k <= |ws| && cache.writes == old(cache.writes) + ws[..k]
      ensures ok ==> k == |ws| && Valid() && n == 0 && refs == Left(old(refs), old(block[..n]), old(n), false)
      ensures ok ==> HomeSame(lay, old(seen), seen) && Settled(lay, seen, cache.disk)
    {
      hide HomeCopies, LogCopies, MemSlots, LogSlots, CommitWrites, Abs, Left, PutHead, BCache.Valid;
      ghost var list, w := block[..n], cache.writes;
      ws := CommitWrites(lay, cache.disk[lay.start], list, seen);
      if n == 0 {
        NothingToCommit(lay, cache.disk[lay.start], list, seen, refs);
        return true, ws, 0;
      }
      RestOfCommit(lay, w, cache.disk[lay.start], list, seen);
      ghost var d, m := cache.disk, seen;
      ok, k := Publish();
      if ok {
        AfterCommit(lay, d, list, m, cache.disk, seen);
        ghost var t;
        ok, t := InstallAndErase();
        k := k + t;
      }
    }

    /** One turn of begin_op's loop: false means it must sleep and look again. */
    method TryBeginOp() returns (begun: bool)
      modifies this`outstanding
      ensures begun <==> !committing && n + (old(outstanding) + 1) * MAXOPBLOCKS <= LOGBLOCKS
      ensures outstanding == if begun then old(outstanding) + 1 else old(outstanding)
    {
      if committing {
        return false;
      } else if n + (outstanding + 1) * MAXOPBLOCKS > LOGBLOCKS {
        return false;
      } else {
        outstanding := outstanding + 1;
        return true;
      }
    }

    /** end_op: the last operation to leave commits, and no other operation gets in until it is done. */
    method EndOp() returns (ok: bool, ghost ws: seq<Write>, ghost k: nat)
      requires Valid()
      requires !committing && outstanding == 1 ==>
        && LogIs(lay, seen, seen, cache.disk) && Pending(lay, cache.disk, block[..n], seen)
        && forall i :: 0 <= i < n ==> refs[block[i]] >= 1
      modifies this`seen, this`refs, this`n, this`outstanding, this`committing,
        cache`disk, cache`writes, cache`states, cache`order, cache`stamp, cache`clock, cache.buf
      ensures outstanding == old(outstanding) - 1
      ensures old(committing) ==> !ok && committing
      ensures k <= |ws| && cache.writes == old(cache.writes) + ws[..k]
      ensures ws == if !old(committing) && old(outstanding) == 1
        then CommitWrites(lay, old(cache.disk)[lay.start], old(block[..n]), old(seen)) else []
      ensures ok ==> Valid() && !committing && k == |ws|
      ensures old(committing) || old(outstanding) != 1 ==>
        Valid() && n == old(n) && seen == old(seen) && refs == old(refs) && cache.disk == old(cache.disk)
      ensures ok && old(outstanding) == 1 ==> n == 0 && HomeSame(lay, old(seen), seen) && Settled(lay, seen, cache.disk)
    {
      hide BCache.Valid, Abs, Pending, CommitWrites, Settled;
      ws, k := [], 0;
      var doCommit;
      doCommit, ok := LeaveOp();
      if doCommit {
        ok, ws, k := Commit();
        if ok { committing := false; }
      }
    }

    /** end_op's first critical section: false for `ok` is its panic. */
    method LeaveOp() returns (doCommit: bool, ok: bool)
      modifies this`outstanding, this`committing
      ensures outstanding == old(outstanding) - 1
      ensures ok == !old(committing)
      ensures doCommit <==> ok && outstanding == 0
      ensures committing == (old(committing) || doCommit)
    {
      doCommit := false;
      outstanding := outstanding - 1;
      if committing { return false, false; }
      if outstanding == 0 {
        doCommit := true;
        committing := true;
      }
      ok := true;
    }

    /** log_write of a held buffer. */
    method LogWrite(i: nat) returns (ok: bool)
      requires Valid() && i < NBUF && cache.buf[i].valid && cache.buf[i].refcnt >= 1 && cache.buf[i].dev == dev
      requires lay.Home(cache.buf[i].blockno)
      modifies this`n, this`block, this`refs, cache.buf
      ensures Valid()
      ensures ok <==> old(n) < LOGBLOCKS && outstanding >= 1
      ensures !ok ==> n == old(n) && block == old(block) && refs == old(refs) && cache.buf[..] == old(cache.buf[..])
      ensures var x := old(cache.buf[i].blockno);
        ok && x in old(block[..n]) ==> block[..n] == old(block[..n]) && refs == old(refs)
      ensures var x := old(cache.buf[i].blockno);
        ok && x !in old(block[..n]) ==> block[..n] == old(block[..n]) + [x] && refs == Bump(old(refs), x, 1)
    {
      if n >= LOGBLOCKS { return false; }
      if outstanding < 1 { return false; }
      ghost var list, b, x := block[..n], cache.buf[..], cache.buf[i].blockno;
      HeldFacts(b, cache.disk, dev, seen, refs, i, x);
      var j := 0;
      while j < n && block[j] != cache.buf[i].blockno
        invariant 0 <= j <= n && forall k :: 0 <= k < j ==> block[k] != x
      {
        j := j + 1;
      }
      block := block[j := cache.buf[i].blockno];
      if j == n {
        PinAbs(b, cache.disk, dev, seen, refs, i, x);
        cache.Bpin(i);
        refs := Bump(refs, x, 1);
        n := n + 1;
        assert block[..n] == list + [x];
      } else {
        assert block[..n] == list;
      }
      return true;
    }
  }
}
