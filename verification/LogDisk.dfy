/** The on-disk redo log of kernel/log.c: a header block at `start`, then LOGBLOCKS log blocks.
    A disk is a sequence of blocks, a one-block write is atomic, and a crash may fall between any
    two writes.  The functions here name the exact write sequences of commit() and
    recover_from_log(); the lemmas say what a crash inside them can leave behind. */
module LogDisk {
  import opened Params

  const WORDS: nat := 256  // BSIZE / sizeof(uint)

  /** A 1024-byte block seen as 32-bit words, which is how the log header is laid over it. */
  datatype Block = Block(words: seq<int>)
  type Disk = seq<Block>

  datatype Layout = Layout(start: nat, size: nat) {
    predicate Valid() { start + LOGBLOCKS < size }

    predicate InLog(b: int) { start <= b <= start + LOGBLOCKS }

    predicate Home(b: int) { 0 <= b < size && !InLog(b) }
  }

  /** The position of `b` in the list, or the list's length: log_write's absorption scan. */
  function Find(list: seq<int>, b: int): (i: nat)
    ensures i <= |list|
    ensures i < |list| <==> b in list
    ensures i < |list| ==> list[i] == b
    ensures forall j :: 0 <= j < i ==> list[j] != b
  {
    if list == [] then 0 else if list[0] == b then 0 else 1 + Find(list[1..], b)
  }

  ghost predicate Distinct(list: seq<int>) {
    forall i, j :: 0 <= i < j < |list| ==> list[i] != list[j]
  }

  /** What the in-memory header may list: few enough, distinct, and never the log itself. */
  ghost predicate ListOk(lay: Layout, list: seq<int>) {
    && |list| <= LOGBLOCKS
    && Distinct(list)
    && forall i :: 0 <= i < |list| ==> lay.Home(list[i])
  }

  ghost predicate HeadOk(hd: Block) {
    |hd.words| == WORDS && 0 <= hd.words[0] <= LOGBLOCKS
  }

  /** struct logheader over a block: word 0 is n, the next n words are the block numbers. */
  function HeadOf(hd: Block): (list: seq<int>)
    requires HeadOk(hd)
    ensures |list| == hd.words[0]
    ensures forall i :: 0 <= i < |list| ==> list[i] == hd.words[1 + i]
  {
    hd.words[1..1 + hd.words[0]]
  }

  /** write_head's update of the header block: words past the n listed ones are left alone. */
  function PutHead(hd: Block, list: seq<int>): (r: Block)
    requires |hd.words| == WORDS && |list| <= LOGBLOCKS
    ensures HeadOk(r) && HeadOf(r) == list
    ensures forall i :: 1 + |list| <= i < WORDS ==> r.words[i] == hd.words[i]
  {
    Block([|list|] + list + hd.words[1 + |list|..])
  }

  ghost predicate DiskOk(lay: Layout, d: Disk) {
    && lay.Valid()
    && |d| == lay.size
    && HeadOk(d[lay.start])
    && ListOk(lay, HeadOf(d[lay.start]))
  }

  /** Block `b` means `x` on disk `d`: a committed log entry overrides the home copy. */
  ghost predicate Means(lay: Layout, d: Disk, b: int, x: Block)
    requires DiskOk(lay, d) && lay.Home(b)
  {
    var list := HeadOf(d[lay.start]);
    && (forall i :: 0 <= i < |list| && list[i] == b ==> d[lay.start + 1 + i] == x)
    && (Absent(list, |list|, b) ==> d[b] == x)
  }

  /** `b` is not among the first `k` entries. */
  ghost predicate Absent(list: seq<int>, k: nat, b: int)
    requires k <= |list|
  {
    forall i :: 0 <= i < k ==> list[i] != b
  }

  /** Every home block of `d` means what `v` says. */
  ghost predicate Shows(lay: Layout, d: Disk, v: Disk) {
    && DiskOk(lay, d) && |v| == lay.size
    && forall b {:trigger Means(lay, d, b, v[b])} :: lay.Home(b) ==> Means(lay, d, b, v[b])
  }

  /** The log is empty and every home block itself holds what `v` says. */
  ghost predicate Installed(lay: Layout, d: Disk, v: Disk) {
    && DiskOk(lay, d) && |v| == lay.size && HeadOf(d[lay.start]) == []
    && forall b {:trigger v[b]} :: lay.Home(b) ==> d[b] == v[b]
  }

  datatype Write = Write(b: int, data: Block)

  ghost predicate Fits(ws: seq<Write>, n: nat) {
    forall i :: 0 <= i < |ws| ==> 0 <= ws[i].b < n
  }

  function ApplyWrites(d: Disk, ws: seq<Write>): (r: Disk)
    requires Fits(ws, |d|)
    ensures |r| == |d|
  {
    if ws == [] then d else ApplyWrites(d, ws[..|ws| - 1])[ws[|ws| - 1].b := ws[|ws| - 1].data]
  }

  /** write_log's first `k` writes: the cached copy of each listed block goes to its log slot. */
  function LogCopies(lay: Layout, list: seq<int>, mem: Disk, k: nat): (ws: seq<Write>)
    requires k <= |list| && forall i :: 0 <= i < |list| ==> 0 <= list[i] < |mem|
  {
    seq(k, i requires 0 <= i < k => Write(lay.start + 1 + i, mem[list[i]]))
  }

  /** install_trans's first `k` writes: log slot i goes home. */
  function HomeCopies(list: seq<int>, slots: seq<Block>, k: nat): (ws: seq<Write>)
    requires k <= |list| && k <= |slots|
  {
    seq(k, i requires 0 <= i < k => Write(list[i], slots[i]))
  }

  function LogSlots(lay: Layout, d: Disk, n: nat): (s: seq<Block>)
    requires lay.Valid() && |d| == lay.size && n <= LOGBLOCKS
  {
    seq(n, i requires 0 <= i < n => d[lay.start + 1 + i])
  }

  function MemSlots(list: seq<int>, mem: Disk): (s: seq<Block>)
    requires forall i :: 0 <= i < |list| ==> 0 <= list[i] < |mem|
  {
    seq(|list|, i requires 0 <= i < |list| => mem[list[i]])
  }

  /** Write number `k` of commit(): the log copies, the header write that is the commit point, the
      installs, and the erasing header write. */
  function CommitWrite(lay: Layout, hd: Block, list: seq<int>, mem: Disk, k: nat): Write
    requires |hd.words| == WORDS && |list| <= LOGBLOCKS && k < 2 * |list| + 2
    requires forall i :: 0 <= i < |list| ==> 0 <= list[i] < |mem|
  {
    var n := |list|;
    if k < n then Write(lay.start + 1 + k, mem[list[k]])
    else if k == n then Write(lay.start, PutHead(hd, list))
    else if k <= 2 * n then Write(list[k - n - 1], mem[list[k - n - 1]])
    else Write(lay.start, PutHead(PutHead(hd, list), []))
  }

  /** All writes of commit(), in order; with nothing logged it makes none. */
  function CommitWrites(lay: Layout, hd: Block, list: seq<int>, mem: Disk): (ws: seq<Write>)
    requires |hd.words| == WORDS && |list| <= LOGBLOCKS
    requires forall i :: 0 <= i < |list| ==> 0 <= list[i] < |mem|
  {
    seq(if list == [] then 0 else 2 * |list| + 2,
      k requires 0 <= k < 2 * |list| + 2 => CommitWrite(lay, hd, list, mem, k))
  }

  /** All writes of recover_from_log(), in order. */
  function RecoverWrites(lay: Layout, d: Disk): seq<Write>
    requires DiskOk(lay, d)
  {
    var list := HeadOf(d[lay.start]);
    HomeCopies(list, LogSlots(lay, d, |list|), |list|) + [Write(lay.start, PutHead(d[lay.start], []))]
  }

  // ----- what the copy loops leave on disk

  lemma ApplyLast(d: Disk, ws: seq<Write>, w: Write)
    requires Fits(ws, |d|) && 0 <= w.b < |d|
    ensures Fits(ws + [w], |d|)
    ensures ApplyWrites(d, ws + [w]) == ApplyWrites(d, ws)[w.b := w.data]
  {
    assert (ws + [w])[..|ws + [w]| - 1] == ws;
  }

  lemma {:induction false} ApplyConcat(d: Disk, a: seq<Write>, b: seq<Write>)
    requires Fits(a, |d|) && Fits(b, |d|)
    ensures Fits(a + b, |d|)
    ensures ApplyWrites(d, a + b) == ApplyWrites(ApplyWrites(d, a), b)
  {
    if b == [] {
      assert a + b == a;
    } else {
      var b' := b[..|b| - 1];
      assert (a + b)[..|a + b| - 1] == a + b';
      ApplyConcat(d, a, b');
    }
  }

  /** write_log's first `k` copies, at one block `x`. */
  lemma {:induction false} LogCopiesAt(lay: Layout, d: Disk, list: seq<int>, mem: Disk, k: nat, x: int)
    requires lay.Valid() && |d| == lay.size && k <= |list| <= LOGBLOCKS && 0 <= x < |d|
    requires forall i :: 0 <= i < |list| ==> 0 <= list[i] < |mem|
    ensures var r := ApplyWrites(d, LogCopies(lay, list, mem, k));
      r[x] == if lay.start < x <= lay.start + k then mem[list[x - lay.start - 1]] else d[x]
  {
    var ws := LogCopies(lay, list, mem, k);
    if k == 0 {
      assert ws == [];
    } else {
      LogCopiesAt(lay, d, list, mem, k - 1, x);
      assert ws == LogCopies(lay, list, mem, k - 1) + [Write(lay.start + k, mem[list[k - 1]])];
      ApplyLast(d, LogCopies(lay, list, mem, k - 1), Write(lay.start + k, mem[list[k - 1]]));
    }
  }

  /** install_trans's first `k` copies, at one block `x`. */
  lemma {:induction false} HomeCopiesAt(d: Disk, list: seq<int>, slots: seq<Block>, k: nat, x: int)
    requires k <= |list| <= |slots| && Distinct(list) && 0 <= x < |d|
    requires forall i :: 0 <= i < |list| ==> 0 <= list[i] < |d|
    ensures var r := ApplyWrites(d, HomeCopies(list, slots, k));
      && (forall i :: 0 <= i < k && list[i] == x ==> r[x] == slots[i])
      && (Absent(list, k, x) ==> r[x] == d[x])
  {
    var ws := HomeCopies(list, slots, k);
    if k == 0 {
      assert ws == [];
    } else {
      HomeCopiesAt(d, list, slots, k - 1, x);
      assert ws == HomeCopies(list, slots, k - 1) + [Write(list[k - 1], slots[k - 1])];
      ApplyLast(d, HomeCopies(list, slots, k - 1), Write(list[k - 1], slots[k - 1]));
    }
  }

  // ----- recovery

  /** The disk after recovery has copied the first `k` log slots home. */
  ghost function Copied(lay: Layout, d: Disk, k: nat): (r: Disk)
    requires DiskOk(lay, d) && k <= |HeadOf(d[lay.start])|
    ensures |r| == |d|
  {
    var list := HeadOf(d[lay.start]);
    ApplyWrites(d, HomeCopies(list, LogSlots(lay, d, |list|), k))
  }

  lemma CopiedKeepsLog(lay: Layout, d: Disk, k: nat, x: int)
    requires DiskOk(lay, d) && k <= |HeadOf(d[lay.start])| && lay.InLog(x)
    ensures Copied(lay, d, k)[x] == d[x]
  {
    var list := HeadOf(d[lay.start]);
    HomeCopiesAt(d, list, LogSlots(lay, d, |list|), k, x);
  }

  /** Copying some log slots home changes no block's meaning. */
  lemma CopiedMeans(lay: Layout, d: Disk, k: nat, b: int, x: Block)
    requires DiskOk(lay, d) && k <= |HeadOf(d[lay.start])| && lay.Home(b) && Means(lay, d, b, x)
    ensures DiskOk(lay, Copied(lay, d, k)) && Copied(lay, d, k)[lay.start] == d[lay.start]
    ensures Means(lay, Copied(lay, d, k), b, x)
    ensures k == |HeadOf(d[lay.start])| ==> Copied(lay, d, k)[b] == x
  {
    var list := HeadOf(d[lay.start]);
    var slots := LogSlots(lay, d, |list|);
    var r := Copied(lay, d, k);
    CopiedKeepsLog(lay, d, k, lay.start);
    HomeCopiesAt(d, list, slots, k, b);
    forall i | 0 <= i < |list| && list[i] == b ensures r[lay.start + 1 + i] == slots[i] == x {
      CopiedKeepsLog(lay, d, k, lay.start + 1 + i);
    }
  }

  /** A crash after any number of recovery's writes leaves every block's meaning unchanged;
      a completed recovery puts that meaning in the home blocks and empties the log. */
  lemma RecoverPrefix(lay: Layout, d: Disk, v: Disk, k: nat)
    requires Shows(lay, d, v) && k <= |RecoverWrites(lay, d)|
    ensures Fits(RecoverWrites(lay, d)[..k], |d|)
    ensures var r := ApplyWrites(d, RecoverWrites(lay, d)[..k]);
      Shows(lay, r, v) && (k == |RecoverWrites(lay, d)| ==> Installed(lay, r, v))
  {
    var list := HeadOf(d[lay.start]);
    var slots := LogSlots(lay, d, |list|);
    var ws := RecoverWrites(lay, d);
    var c := if k <= |list| then k else |list|;
    assert ws[..c] == HomeCopies(list, slots, c);
    var r := Copied(lay, d, c);
    CopiedKeepsLog(lay, d, c, lay.start);
    forall b | lay.Home(b)
      ensures Means(lay, r, b, v[b]) && (c == |list| ==> r[b] == v[b])
    {
      assert Means(lay, d, b, v[b]);
      CopiedMeans(lay, d, c, b, v[b]);
    }
    if k > |list| {
      var last := Write(lay.start, PutHead(d[lay.start], []));
      assert ws[..k] == ws[..c] + [last];
      ApplyLast(d, ws[..c], last);
      ClearedShows(lay, r, v, r[lay.start := last.data]);
    }
  }

  lemma ClearedShows(lay: Layout, r: Disk, v: Disk, r': Disk)
    requires DiskOk(lay, r) && |v| == lay.size
    requires r' == r[lay.start := PutHead(r[lay.start], [])]
    requires forall b :: lay.Home(b) ==> r[b] == v[b]
    ensures Shows(lay, r', v) && Installed(lay, r', v)
  {
    forall b | lay.Home(b) ensures Means(lay, r', b, v[b]) {
    }
  }

  /** What each block means, as a disk. */
  ghost function Meaning(lay: Layout, d: Disk): (v: Disk)
    requires DiskOk(lay, d)
    ensures Shows(lay, d, v)
  {
    var list := HeadOf(d[lay.start]);
    var v := seq(lay.size, b requires 0 <= b < lay.size =>
      if b in list then d[lay.start + 1 + Find(list, b)] else d[b]);
    assert forall b :: lay.Home(b) ==> Means(lay, d, b, v[b]);
    v
  }

  /** The disk after recovery was started |crashes| times, the i-th run being cut short after
      crashes[i] writes (or after all of them, if it makes fewer). */
  ghost function AfterCrashes(lay: Layout, d: Disk, crashes: seq<nat>): Disk
    requires DiskOk(lay, d)
    decreases |crashes|
  {
    if crashes == [] then d
    else
      var ws := RecoverWrites(lay, d);
      var k := if crashes[0] <= |ws| then crashes[0] else |ws|;
      RecoverPrefix(lay, d, Meaning(lay, d), k);
      AfterCrashes(lay, ApplyWrites(d, ws[..k]), crashes[1..])
  }

  lemma {:induction false} AfterCrashesShows(lay: Layout, d: Disk, v: Disk, crashes: seq<nat>)
    requires Shows(lay, d, v)
    ensures Shows(lay, AfterCrashes(lay, d, crashes), v)
    decreases |crashes|
  {
    if crashes != [] {
      var ws := RecoverWrites(lay, d);
      var k := if crashes[0] <= |ws| then crashes[0] else |ws|;
      RecoverPrefix(lay, d, v, k);
      AfterCrashesShows(lay, ApplyWrites(d, ws[..k]), v, crashes[1..]);
    }
  }

  // ----- commit

  /** `mem` is what the cache holds: it differs from the disk only on listed blocks. */
  ghost predicate Pending(lay: Layout, d: Disk, list: seq<int>, mem: Disk) {
    && DiskOk(lay, d) && HeadOf(d[lay.start]) == [] && ListOk(lay, list) && |mem| == lay.size
    && forall b {:trigger mem[b]} :: lay.Home(b) && Absent(list, |list|, b) ==> mem[b] == d[b]
  }

  /** The disk just after the commit point. */
  ghost function Committed(lay: Layout, d: Disk, list: seq<int>, mem: Disk): (r: Disk)
    requires Pending(lay, d, list, mem)
    ensures |r| == |d|
  {
    ApplyWrites(d, LogCopies(lay, list, mem, |list|))[lay.start := PutHead(d[lay.start], list)]
  }

  lemma CommittedAt(lay: Layout, d: Disk, list: seq<int>, mem: Disk, x: int)
    requires Pending(lay, d, list, mem) && 0 <= x < |d|
    ensures Committed(lay, d, list, mem)[x]
      == if x == lay.start then PutHead(d[x], list)
         else if lay.start < x <= lay.start + |list| then mem[list[x - lay.start - 1]] else d[x]
  {
    LogCopiesAt(lay, d, list, mem, |list|, x);
  }

  lemma CommittedMeans(lay: Layout, d: Disk, list: seq<int>, mem: Disk, b: int)
    requires Pending(lay, d, list, mem) && lay.Home(b)
    ensures DiskOk(lay, Committed(lay, d, list, mem))
    ensures Means(lay, Committed(lay, d, list, mem), b, mem[b])
  {
    var r := Committed(lay, d, list, mem);
    CommittedAt(lay, d, list, mem, lay.start);
    assert HeadOf(r[lay.start]) == list;
    forall i | 0 <= i < |list| && list[i] == b ensures r[lay.start + 1 + i] == mem[b] {
      CommittedAt(lay, d, list, mem, lay.start + 1 + i);
    }
    CommittedAt(lay, d, list, mem, b);
  }

  lemma CommittedShows(lay: Layout, d: Disk, list: seq<int>, mem: Disk)
    requires Pending(lay, d, list, mem)
    ensures Shows(lay, Committed(lay, d, list, mem), mem)
  {
    var r := Committed(lay, d, list, mem);
    CommittedAt(lay, d, list, mem, lay.start);
    forall b | lay.Home(b) ensures Means(lay, r, b, mem[b]) {
      CommittedMeans(lay, d, list, mem, b);
    }
  }

  lemma CommittedSlots(lay: Layout, d: Disk, list: seq<int>, mem: Disk)
    requires Pending(lay, d, list, mem)
    ensures LogSlots(lay, Committed(lay, d, list, mem), |list|) == MemSlots(list, mem)
  {
    var r := Committed(lay, d, list, mem);
    forall i {:trigger list[i]} | 0 <= i < |list| ensures r[lay.start + 1 + i] == mem[list[i]] {
      CommittedAt(lay, d, list, mem, lay.start + 1 + i);
    }
  }

  /** The writes up to and including the commit point. */
  ghost function PointWrites(lay: Layout, d: Disk, list: seq<int>, mem: Disk): (ws: seq<Write>)
    requires Pending(lay, d, list, mem)
    ensures |ws| == |list| + 1
  {
    LogCopies(lay, list, mem, |list|) + [Write(lay.start, PutHead(d[lay.start], list))]
  }

  lemma PointReached(lay: Layout, d: Disk, list: seq<int>, mem: Disk)
    requires Pending(lay, d, list, mem)
    ensures Fits(PointWrites(lay, d, list, mem), |d|)
    ensures ApplyWrites(d, PointWrites(lay, d, list, mem)) == Committed(lay, d, list, mem)
  {
    ApplyLast(d, LogCopies(lay, list, mem, |list|), Write(lay.start, PutHead(d[lay.start], list)));
  }

  /** commit()'s writes are those up to the commit point, then what recovery itself would do. */
  lemma CommitSplit(lay: Layout, d: Disk, list: seq<int>, mem: Disk)
    requires Pending(lay, d, list, mem) && list != []
    ensures var d1 := Committed(lay, d, list, mem);
      && Shows(lay, d1, mem)
      && CommitWrites(lay, d[lay.start], list, mem) == PointWrites(lay, d, list, mem) + RecoverWrites(lay, d1)
  {
    var d1 := Committed(lay, d, list, mem);
    var hd := PutHead(d[lay.start], list);
    CommittedShows(lay, d, list, mem);
    CommittedSlots(lay, d, list, mem);
    CommitWritesSplit(lay, d[lay.start], list, mem);
    assert RecoverWrites(lay, d1)
      == HomeCopies(list, MemSlots(list, mem), |list|) + [Write(lay.start, PutHead(hd, []))];
  }

  lemma CommitWritesSplit(lay: Layout, hd: Block, list: seq<int>, mem: Disk)
    requires |hd.words| == WORDS && 0 < |list| <= LOGBLOCKS
    requires forall i :: 0 <= i < |list| ==> 0 <= list[i] < |mem|
    ensures CommitWrites(lay, hd, list, mem)
      == LogCopies(lay, list, mem, |list|) + [Write(lay.start, PutHead(hd, list))]
         + (HomeCopies(list, MemSlots(list, mem), |list|) + [Write(lay.start, PutHead(PutHead(hd, list), []))])
  {
    Join(CommitWrites(lay, hd, list, mem), LogCopies(lay, list, mem, |list|), Write(lay.start, PutHead(hd, list)),
         HomeCopies(list, MemSlots(list, mem), |list|), Write(lay.start, PutHead(PutHead(hd, list), [])));
  }

  /** Cut inside write_log. */
  lemma CutInLog(lay: Layout, hd: Block, list: seq<int>, mem: Disk, t: nat)
    requires |hd.words| == WORDS && 0 < |list| <= LOGBLOCKS && t <= |list|
    requires forall i :: 0 <= i < |list| ==> 0 <= list[i] < |mem|
    ensures CommitWrites(lay, hd, list, mem)[..t] == LogCopies(lay, list, mem, t)
  {
  }

  /** Cut inside install_trans, or just before it. */
  lemma CutInInstall(lay: Layout, hd: Block, list: seq<int>, mem: Disk, t: nat)
    requires |hd.words| == WORDS && 0 < |list| <= LOGBLOCKS && t <= |list|
    requires forall i :: 0 <= i < |list| ==> 0 <= list[i] < |mem|
    ensures CommitWrites(lay, hd, list, mem)[..|list| + 1 + t]
      == LogCopies(lay, list, mem, |list|) + [Write(lay.start, PutHead(hd, list))]
        + HomeCopies(list, MemSlots(list, mem), t)
  {
    Join2(CommitWrites(lay, hd, list, mem)[..|list| + 1 + t], LogCopies(lay, list, mem, |list|),
          Write(lay.start, PutHead(hd, list)), HomeCopies(list, MemSlots(list, mem), t));
  }

  lemma Join2(ws: seq<Write>, a: seq<Write>, p: Write, b: seq<Write>)
    requires |ws| == |a| + 1 + |b| && ws[|a|] == p
    requires forall k :: 0 <= k < |a| ==> ws[k] == a[k]
    requires forall k {:trigger b[k]} :: 0 <= k < |b| ==> ws[|a| + 1 + k] == b[k]
    ensures ws == a + [p] + b
  {
    forall k | |a| < k < |ws| ensures ws[k] == b[k - |a| - 1] {
      assert ws[|a| + 1 + (k - |a| - 1)] == b[k - |a| - 1];
    }
  }

  lemma Join(ws: seq<Write>, a: seq<Write>, p: Write, b: seq<Write>, q: Write)
    requires |ws| == |a| + 1 + |b| + 1
    requires forall k :: 0 <= k < |a| ==> ws[k] == a[k]
    requires ws[|a|] == p
    requires forall k {:trigger b[k]} :: 0 <= k < |b| ==> ws[|a| + 1 + k] == b[k]
    requires ws[|a| + 1 + |b|] == q
    ensures ws == a + [p] + (b + [q])
  {
    forall k | |a| < k <= |a| + |b| ensures ws[k] == b[k - |a| - 1] {
      assert ws[|a| + 1 + (k - |a| - 1)] == b[k - |a| - 1];
    }
  }

  /** The disk commit() leaves if it is cut short after `k` writes. */
  ghost function CutCommit(lay: Layout, d: Disk, list: seq<int>, mem: Disk, k: nat): (r: Disk)
    requires Pending(lay, d, list, mem) && k <= |CommitWrites(lay, d[lay.start], list, mem)|
    ensures |r| == |d|
  {
    ApplyWrites(d, CommitWrites(lay, d[lay.start], list, mem)[..k])
  }

  /** Up to and including the last log copy the disk still means the old contents. */
  lemma CutBeforePoint(lay: Layout, d: Disk, old': Disk, list: seq<int>, mem: Disk, k: nat)
    requires Pending(lay, d, list, mem) && Installed(lay, d, old') && k <= |list|
    requires k <= |CommitWrites(lay, d[lay.start], list, mem)|
    ensures Shows(lay, CutCommit(lay, d, list, mem, k), old')
  {
    var ws := CommitWrites(lay, d[lay.start], list, mem);
    assert ws[..k] == LogCopies(lay, list, mem, k);
    var r := CutCommit(lay, d, list, mem, k);
    LogCopiesAt(lay, d, list, mem, k, lay.start);
    forall b | lay.Home(b) ensures Means(lay, r, b, old'[b]) {
      LogCopiesAt(lay, d, list, mem, k, b);
    }
  }

  /** Past the commit point, commit() does to the disk what recovery would. */
  lemma CutIsRecovery(lay: Layout, d: Disk, list: seq<int>, mem: Disk, k: nat)
    requires Pending(lay, d, list, mem)
    requires |list| < k <= |CommitWrites(lay, d[lay.start], list, mem)|
    ensures var d1 := Committed(lay, d, list, mem);
      && Shows(lay, d1, mem)
      && |CommitWrites(lay, d[lay.start], list, mem)| == |list| + 1 + |RecoverWrites(lay, d1)|
      && Fits(RecoverWrites(lay, d1)[..k - |list| - 1], |d1|)
      && CutCommit(lay, d, list, mem, k) == ApplyWrites(d1, RecoverWrites(lay, d1)[..k - |list| - 1])
  {
    CommitSplit(lay, d, list, mem);
    PointReached(lay, d, list, mem);
    var d1, head := Committed(lay, d, list, mem), PointWrites(lay, d, list, mem);
    var rec := RecoverWrites(lay, d1)[..k - |head|];
    TakeConcat(head, RecoverWrites(lay, d1), k);
    RecoverPrefix(lay, d1, mem, k - |head|);
    ApplyConcat(d, head, rec);
  }

  /** From the header write on it means the new contents, and at the end it holds them. */
  lemma CutAfterPoint(lay: Layout, d: Disk, list: seq<int>, mem: Disk, k: nat)
    requires Pending(lay, d, list, mem)
    requires |list| < k <= |CommitWrites(lay, d[lay.start], list, mem)|
    ensures var r := CutCommit(lay, d, list, mem, k);
      Shows(lay, r, mem) && (k == |CommitWrites(lay, d[lay.start], list, mem)| ==> Installed(lay, r, mem))
  {
    CutIsRecovery(lay, d, list, mem, k);
    RecoverPrefix(lay, Committed(lay, d, list, mem), mem, k - |list| - 1);
  }

  lemma TakeConcat(a: seq<Write>, b: seq<Write>, k: nat)
    requires |a| <= k <= |a| + |b|
    ensures (a + b)[..k] == a + b[..k - |a|]
  {
  }

  /** Crash atomicity: commit() is cut after any `k` writes, recovery is then cut short any number
      of times, and one recovery completes.  The home blocks are then wholly the old contents or
      wholly the new ones, the header write deciding which, and the on-disk log is empty. */
  lemma CommitAtomic(lay: Layout, d: Disk, old': Disk, list: seq<int>, mem: Disk, k: nat, crashes: seq<nat>)
    requires Pending(lay, d, list, mem) && Installed(lay, d, old')
    requires k <= |CommitWrites(lay, d[lay.start], list, mem)|
    ensures var cut := CutCommit(lay, d, list, mem, k);
      DiskOk(lay, cut) &&
      var again := AfterCrashes(lay, cut, crashes);
      DiskOk(lay, again) && Fits(RecoverWrites(lay, again), |again|) &&
      Installed(lay, ApplyWrites(again, RecoverWrites(lay, again)), if k <= |list| then old' else mem)
  {
    var v := if k <= |list| then old' else mem;
    var cut := CutCommit(lay, d, list, mem, k);
    if k <= |list| {
      CutBeforePoint(lay, d, old', list, mem, k);
    } else {
      CutAfterPoint(lay, d, list, mem, k);
    }
    AfterCrashesShows(lay, cut, v, crashes);
    var again := AfterCrashes(lay, cut, crashes);
    RecoverPrefix(lay, again, v, |RecoverWrites(lay, again)|);
    assert RecoverWrites(lay, again)[..|RecoverWrites(lay, again)|] == RecoverWrites(lay, again);
  }
}
