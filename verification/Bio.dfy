/** The buffer cache of kernel/bio.c: NBUF buffers on a circular doubly linked list through `head`,
    most recently released first. */
module Bio {
  import opened Params
  import opened LogDisk

  const HEAD: nat := NBUF  // bcache.head sits after bcache.buf[0..NBUF)

  /** struct buf; pointers are positions in the static array. */
  datatype Buf = Buf(valid: bool, dev: nat, blockno: int, refcnt: int, data: Block, prev: nat, next: nat)

  type Bufs = seq<Buf>

  // ----- the list

  /** The k-th stop on the way round the list; -1 and |order| are the head. */
  function Stop(order: seq<nat>, k: int): nat {
    if 0 <= k < |order| then order[k] else HEAD
  }

  /** `order` lists every buffer once. */
  ghost predicate Permutes(order: seq<nat>) {
    && |order| == NBUF
    && Once(order)
    && (forall i: nat :: i < NBUF ==> i in order)
  }

  ghost predicate Once(order: seq<nat>) {
    && (forall k :: 0 <= k < |order| ==> order[k] < NBUF)
    && (forall j, k :: 0 <= j < k < |order| ==> order[j] != order[k])
  }

  ghost predicate Linked(b: Bufs, order: seq<nat>)
    requires |b| == NBUF + 1 && forall k :: 0 <= k < |order| ==> order[k] < NBUF
  {
    forall k :: -1 <= k < |order| ==> LinkedAt(b, order, k)
  }

  /** Stops k and k + 1 point at each other. */
  ghost predicate LinkedAt(b: Bufs, order: seq<nat>, k: int)
    requires |b| == NBUF + 1 && (forall j :: 0 <= j < |order| ==> order[j] < NBUF) && -1 <= k < |order|
  {
    b[Stop(order, k)].next == Stop(order, k + 1) && b[Stop(order, k + 1)].prev == Stop(order, k)
  }

  /** The list is a ring of head and every buffer, sorted by when brelse last dropped each to zero. */
  ghost predicate RingOk(b: Bufs, order: seq<nat>, stamp: seq<nat>, clock: nat) {
    && |b| == NBUF + 1 && Permutes(order) && Linked(b, order)
    && |stamp| == NBUF
    && (forall i :: 0 <= i < NBUF ==> stamp[i] < clock)
    && (forall j, k :: 0 <= j < k < NBUF ==> stamp[order[j]] > stamp[order[k]])
  }

  predicate Is(b: Bufs, i: int, dev: nat, x: int) {
    0 <= i < NBUF < |b| && b[i].dev == dev && b[i].blockno == x
  }

  /** No two assigned buffers hold the same block (dev 0 marks a buffer never assigned). */
  ghost predicate NoTwins(b: Bufs) {
    && |b| == NBUF + 1
    && forall i, j :: 0 <= i < j < NBUF && b[i].dev != 0 ==> !(b[i].dev == b[j].dev && b[i].blockno == b[j].blockno)
  }

  /** bget's first scan: the first stop from the front that holds the block, or |order|. */
  ghost function Hit(b: Bufs, order: seq<nat>, dev: nat, x: int): (k: nat)
    requires Permutes(order) && |b| == NBUF + 1
    ensures k <= |order|
    ensures k < |order| ==> Is(b, order[k], dev, x)
    ensures forall j :: 0 <= j < k ==> !Is(b, order[j], dev, x)
  {
    HitFrom(b, order, dev, x, 0)
  }

  ghost function HitFrom(b: Bufs, order: seq<nat>, dev: nat, x: int, k: nat): (r: nat)
    requires Permutes(order) && |b| == NBUF + 1 && k <= |order|
    ensures k <= r <= |order|
    ensures r < |order| ==> Is(b, order[r], dev, x)
    ensures forall j :: k <= j < r ==> !Is(b, order[j], dev, x)
    decreases |order| - k
  {
    if k == |order| || Is(b, order[k], dev, x) then k else HitFrom(b, order, dev, x, k + 1)
  }

  /** bget's second scan: the last stop whose buffer nobody references, or -1. */
  ghost function Victim(b: Bufs, order: seq<nat>, k: int): (v: int)
    requires Permutes(order) && |b| == NBUF + 1 && -1 <= k < |order|
    ensures -1 <= v <= k
    ensures v >= 0 ==> b[order[v]].refcnt == 0
    ensures forall j :: v < j <= k ==> b[order[j]].refcnt != 0
    decreases k + 1
  {
    if k == -1 || b[order[k]].refcnt == 0 then k else Victim(b, order, k - 1)
  }

  /** bget's victim is the unreferenced buffer released longest ago. */
  lemma VictimIsOldest(b: Bufs, order: seq<nat>, stamp: seq<nat>, clock: nat, i: nat)
    requires RingOk(b, order, stamp, clock) && i < NBUF && b[i].refcnt == 0
    ensures var v := Victim(b, order, NBUF - 1);
      v >= 0 && b[order[v]].refcnt == 0 && stamp[order[v]] <= stamp[i]
  {
    assert i in order;
  }

  // ----- moving a buffer to the front

  /** brelse's first two assignments. */
  function Unlink(b: Bufs, i: nat): (r: Bufs)
    requires i < |b| && b[i].next < |b| && b[i].prev < |b| && b[i].next != i
    ensures |r| == |b|
    ensures forall j :: 0 <= j < |b| ==>
      r[j] == b[j].(next := if j == b[i].prev then b[i].next else b[j].next,
                    prev := if j == b[i].next then b[i].prev else b[j].prev)
  {
    var b1 := b[b[i].next := b[b[i].next].(prev := b[i].prev)];
    b1[b1[i].prev := b1[b1[i].prev].(next := b1[i].next)]
  }

  /** Putting a buffer behind the head, as binit and brelse do. */
  function PushFront(b: Bufs, i: nat): (r: Bufs)
    requires i < HEAD < |b| && b[HEAD].next < |b| && b[HEAD].next != i
    ensures |r| == |b|
    ensures forall j :: 0 <= j < |b| ==>
      r[j] == b[j].(next := if j == i then b[HEAD].next else if j == HEAD then i else b[j].next,
                    prev := if j == i then HEAD else if j == b[HEAD].next then i else b[j].prev)
  {
    var b1 := b[i := b[i].(next := b[HEAD].next, prev := HEAD)];
    var b2 := b1[b1[HEAD].next := b1[b1[HEAD].next].(prev := i)];
    b2[HEAD := b2[HEAD].(next := i)]
  }

  function Without(order: seq<nat>, p: nat): (r: seq<nat>)
    requires p < |order|
    ensures |r| == |order| - 1
    ensures forall k :: 0 <= k < |r| ==> r[k] == if k < p then order[k] else order[k + 1]
  {
    order[..p] + order[p + 1..]
  }

  lemma StopsDiffer(order: seq<nat>, j: int, k: int)
    requires Once(order) && -1 <= j <= |order| && -1 <= k <= |order|
    requires Stop(order, j) == Stop(order, k)
    ensures j == k || (j in {-1, |order|} && k in {-1, |order|})
  {
  }

  lemma Neighbours(b: Bufs, order: seq<nat>, p: nat)
    requires |b| == NBUF + 1 && Once(order) && Linked(b, order) && p < |order|
    ensures b[order[p]].next == Stop(order, p + 1) != order[p] && b[order[p]].prev == Stop(order, p - 1) != order[p]
    ensures b[order[p]].next < |b| && b[order[p]].prev < |b|
  {
    assert LinkedAt(b, order, p) && LinkedAt(b, order, p - 1);
  }

  lemma UnlinkNext(b: Bufs, order: seq<nat>, p: nat, k: int)
    requires |b| == NBUF + 1 && Once(order) && Linked(b, order) && p < |order| && -1 <= k < |order| - 1
    requires b[order[p]].next == Stop(order, p + 1) != order[p] && b[order[p]].prev == Stop(order, p - 1) < |b|
    requires b[order[p]].next < |b|
    ensures Unlink(b, order[p])[Stop(Without(order, p), k)].next == Stop(Without(order, p), k + 1)
  {
    var m := if k < p then k else k + 1;
    assert LinkedAt(b, order, m);
    assert Stop(Without(order, p), k) == Stop(order, m);
    if Stop(order, m) == Stop(order, p - 1) {
      StopsDiffer(order, m, p - 1);
    }
  }

  lemma UnlinkPrev(b: Bufs, order: seq<nat>, p: nat, k: int)
    requires |b| == NBUF + 1 && Once(order) && Linked(b, order) && p < |order| && -1 <= k < |order| - 1
    requires b[order[p]].next == Stop(order, p + 1) != order[p] && b[order[p]].prev == Stop(order, p - 1) < |b|
    requires b[order[p]].next < |b|
    ensures Unlink(b, order[p])[Stop(Without(order, p), k + 1)].prev == Stop(Without(order, p), k)
  {
    var n := if k + 1 < p then k + 1 else k + 2;
    assert Stop(Without(order, p), k + 1) == Stop(order, n);
    assert LinkedAt(b, order, n - 1);
    if Stop(order, n) == Stop(order, p + 1) {
      StopsDiffer(order, n, p + 1);
    }
  }

  /** Unlinking a buffer leaves a ring of the others. */
  lemma UnlinkKeeps(b: Bufs, order: seq<nat>, p: nat)
    requires |b| == NBUF + 1 && Once(order) && Linked(b, order) && p < |order|
    ensures b[order[p]].next < |b| && b[order[p]].prev < |b| && b[order[p]].next != order[p]
    ensures Once(Without(order, p)) && order[p] !in Without(order, p)
    ensures Linked(Unlink(b, order[p]), Without(order, p))
  {
    Neighbours(b, order, p);
    var r, o := Unlink(b, order[p]), Without(order, p);
    forall k | -1 <= k < |o| ensures LinkedAt(r, o, k) {
      UnlinkNext(b, order, p, k);
      UnlinkPrev(b, order, p, k);
    }
  }

  /** Pushing a buffer that is not on the ring puts it first. */
  lemma PushFrontKeeps(b: Bufs, order: seq<nat>, i: nat)
    requires |b| == NBUF + 1 && Once(order) && Linked(b, order) && i < NBUF && i !in order
    ensures b[HEAD].next == Stop(order, 0) < |b| && b[HEAD].next != i
    ensures Once([i] + order) && Linked(PushFront(b, i), [i] + order)
  {
    var o := [i] + order;
    assert LinkedAt(b, order, -1);
    var r := PushFront(b, i);
    assert Once(o);
    forall k | -1 <= k < |o| ensures LinkedAt(r, o, k) {
      if k >= 1 {
        assert LinkedAt(b, order, k - 1);
        if Stop(order, k) == Stop(order, 0) { StopsDiffer(order, k, 0); }
      }
    }
  }

  // ----- what a lookup returns and what it keeps

  /** bget: share the buffer that has the block, else take over the victim, else panic. */
  ghost function BgetBufs(b: Bufs, order: seq<nat>, dev: nat, x: int): (r: (Bufs, nat, bool))
    requires Permutes(order) && |b| == NBUF + 1
    ensures |r.0| == |b| && (r.2 ==> r.1 < NBUF) && (!r.2 ==> r.0 == b)
  {
    var k, v := Hit(b, order, dev, x), Victim(b, order, NBUF - 1);
    if k < NBUF then (b[order[k] := b[order[k]].(refcnt := b[order[k]].refcnt + 1)], order[k], true)
    else if v >= 0 then
      (b[order[v] := b[order[v]].(dev := dev, blockno := x, valid := false, refcnt := 1)], order[v], true)
    else (b, NBUF, false)
  }

  ghost function BreadBufs(b: Bufs, order: seq<nat>, disk: Disk, dev: nat, x: int): (r: (Bufs, nat, bool))
    requires Permutes(order) && |b| == NBUF + 1 && 0 <= x < |disk|
    ensures |r.0| == |b| && (r.2 ==> r.1 < NBUF)
  {
    var g := BgetBufs(b, order, dev, x);
    if g.2 && !g.0[g.1].valid then (g.0[g.1 := g.0[g.1].(valid := true, data := disk[x])], g.1, true) else g
  }

  /** The buffer assigned to a block, or NBUF. */
  ghost function Slot(b: Bufs, dev: nat, x: int): (i: nat)
    ensures i <= NBUF && (i < NBUF ==> Is(b, i, dev, x))
    ensures i == NBUF ==> forall j :: !Is(b, j, dev, x)
  {
    if exists j :: Is(b, j, dev, x) then var j :| Is(b, j, dev, x); j else NBUF
  }

  /** What a process that reads block `x` through the cache sees. */
  ghost function Seen(b: Bufs, disk: Disk, dev: nat, x: int): Block
    requires |b| == NBUF + 1 && 0 <= x < |disk|
  {
    var i := Slot(b, dev, x);
    if i < NBUF && b[i].valid then b[i].data else disk[x]
  }

  ghost function RefOf(b: Bufs, dev: nat, x: int): int
    requires |b| == NBUF + 1
  {
    var i := Slot(b, dev, x);
    if i < NBUF then b[i].refcnt else 0
  }

  /** Counts are sane, and a buffer nobody references agrees with the disk. */
  ghost predicate Clean(b: Bufs, disk: Disk) {
    && |b| == NBUF + 1
    && (forall i :: 0 <= i < NBUF ==> CleanAt(b[i], disk))
  }

  ghost predicate CleanAt(f: Buf, disk: Disk) {
    && f.refcnt >= 0
    && (f.dev != 0 ==> 0 <= f.blockno < |disk| && (f.refcnt == 0 && f.valid ==> f.data == disk[f.blockno]))
  }

  lemma SlotUnique(b: Bufs, i: nat, dev: nat, x: int)
    requires NoTwins(b) && dev != 0 && Is(b, i, dev, x)
    ensures Slot(b, dev, x) == i
  {
    var j := Slot(b, dev, x);
    assert Is(b, i, dev, x) && j < NBUF;
  }

  /** bread's promise: buffer `i` holds block `x` with the contents it had to have; no block changes
      for anyone, only x's count moves, and buffers in use stay put. */
  ghost predicate Got(b: Bufs, b': Bufs, disk: Disk, dev: nat, x: int, i: nat)
    requires |b| == |b'| == NBUF + 1 && 0 <= x < |disk|
  {
    && NoTwins(b') && Clean(b', disk)
    && Is(b', i, dev, x) && b'[i].valid && b'[i].refcnt >= 1 && b'[i].data == Seen(b, disk, dev, x)
    && (forall y :: 0 <= y < |disk| ==> Seen(b', disk, dev, y) == Seen(b, disk, dev, y))
    && (forall y :: RefOf(b', dev, y) == RefOf(b, dev, y) + if y == x then 1 else 0)
    && (forall j :: 0 <= j < NBUF && j != i && b[j].refcnt > 0 ==> b'[j] == b[j])
    && (b[i].refcnt > 0 ==> Is(b, i, dev, x))
    && (forall j :: 0 <= j < NBUF ==> b'[j].dev == b[j].dev || b'[j].dev == dev)
  }

  lemma BreadTwins(b: Bufs, order: seq<nat>, disk: Disk, dev: nat, x: int)
    requires Permutes(order) && NoTwins(b) && Clean(b, disk) && dev != 0 && 0 <= x < |disk|
    requires BreadBufs(b, order, disk, dev, x).2
    ensures var (b', i, _) := BreadBufs(b, order, disk, dev, x);
      && NoTwins(b') && Clean(b', disk) && Is(b', i, dev, x) && b'[i].valid && b'[i].refcnt >= 1
      && (forall j :: 0 <= j < NBUF && j != i ==> b'[j] == b[j])
      && (Slot(b, dev, x) < NBUF ==> Slot(b, dev, x) == i)
      && (Slot(b, dev, x) == NBUF ==> b[i].refcnt == 0 && b'[i].refcnt == 1)
      && (Slot(b, dev, x) == NBUF || !b[i].valid ==> b'[i].data == disk[x])
      && (Slot(b, dev, x) < NBUF ==> b'[i].refcnt == b[i].refcnt + 1 && (b[i].valid ==> b'[i].data == b[i].data))
  {
    var k := Hit(b, order, dev, x);
    if k < NBUF {
      SlotUnique(b, order[k], dev, x);
    } else {
      forall t: nat | t < NBUF ensures !Is(b, t, dev, x) && (b[t].dev != dev || b[t].blockno != x) {
        assert t in order;
      }
    }
  }

  lemma BreadSeen(b: Bufs, order: seq<nat>, disk: Disk, dev: nat, x: int, y: int)
    requires Permutes(order) && NoTwins(b) && Clean(b, disk) && dev != 0 && 0 <= x < |disk|
    requires BreadBufs(b, order, disk, dev, x).2
    ensures var b' := BreadBufs(b, order, disk, dev, x).0;
      && (0 <= y < |disk| ==> Seen(b', disk, dev, y) == Seen(b, disk, dev, y))
      && RefOf(b', dev, y) == RefOf(b, dev, y) + if y == x then 1 else 0
  {
    BreadTwins(b, order, disk, dev, x);
    var (b', i, _) := BreadBufs(b, order, disk, dev, x);
    if y == x {
      SlotUnique(b', i, dev, x);
    } else {
      var s, s' := Slot(b, dev, y), Slot(b', dev, y);
      if s' < NBUF {
        assert Is(b, s', dev, y);
        SlotUnique(b, s', dev, y);
      } else if s < NBUF {
        assert s != i ==> Is(b', s, dev, y);
        assert CleanAt(b[i], disk);
      }
    }
  }

  lemma BreadGot(b: Bufs, order: seq<nat>, disk: Disk, dev: nat, x: int)
    requires Permutes(order) && NoTwins(b) && Clean(b, disk) && dev != 0 && 0 <= x < |disk|
    requires BreadBufs(b, order, disk, dev, x).2
    ensures Got(b, BreadBufs(b, order, disk, dev, x).0, disk, dev, x, BreadBufs(b, order, disk, dev, x).1)
  {
    BreadTwins(b, order, disk, dev, x);
    forall y ensures RefOf(BreadBufs(b, order, disk, dev, x).0, dev, y) == RefOf(b, dev, y) + if y == x then 1 else 0 {
      BreadSeen(b, order, disk, dev, x, y);
    }
    forall y | 0 <= y < |disk|
      ensures Seen(BreadBufs(b, order, disk, dev, x).0, disk, dev, y) == Seen(b, disk, dev, y)
    {
      BreadSeen(b, order, disk, dev, x, y);
    }
  }

  /** `i` is now first and the others keep their places. */
  ghost predicate MovedFirst(order: seq<nat>, order': seq<nat>, i: nat) {
    exists p :: 0 <= p < |order| && order[p] == i && order' == [i] + Without(order, p)
  }

  /** Only links differ. */
  ghost predicate Relinked(b: Bufs, b': Bufs)
    requires |b| == |b'| == NBUF + 1
  {
    forall j :: 0 <= j < NBUF ==> b'[j] == b[j].(prev := b'[j].prev, next := b'[j].next)
  }

  /** brelse's promise: only buffer i's count moves, whatever happens to the links. */
  ghost predicate LetGo(b: Bufs, b': Bufs, i: nat)
    requires |b| == |b'| == NBUF + 1 && i < NBUF
  {
    forall j :: 0 <= j < NBUF ==>
      b'[j] == b[j].(refcnt := if j == i then b[i].refcnt - 1 else b[j].refcnt, prev := b'[j].prev, next := b'[j].next)
  }

  lemma CountThenLinks(b: Bufs, b1: Bufs, b': Bufs, i: nat)
    requires |b| == |b1| == |b'| == NBUF + 1 && i < NBUF
    requires b1 == b[i := b[i].(refcnt := b[i].refcnt - 1)] && Relinked(b1, b')
    ensures LetGo(b, b', i)
  {
  }

  lemma LetGoSeen(b: Bufs, b': Bufs, disk: Disk, i: nat, dev: nat, y: int)
    requires |b| == |b'| == NBUF + 1 && i < NBUF && NoTwins(b) && LetGo(b, b', i) && dev != 0
    ensures NoTwins(b')
    ensures RefOf(b', dev, y) == RefOf(b, dev, y) - if Is(b, i, dev, y) then 1 else 0
    ensures 0 <= y < |disk| ==> Seen(b', disk, dev, y) == Seen(b, disk, dev, y)
  {
    var s, s' := Slot(b, dev, y), Slot(b', dev, y);
    if s < NBUF {
      assert Is(b', s, dev, y);
      SlotUnique(b', s, dev, y);
    } else if s' < NBUF {
      assert Is(b, s', dev, y);
    }
    if Is(b, i, dev, y) {
      SlotUnique(b, i, dev, y);
    }
  }

  lemma DataSeen(b: Bufs, disk: Disk, i: nat, dev: nat, x: int, data: Block, y: int)
    requires NoTwins(b) && Clean(b, disk) && dev != 0 && Is(b, i, dev, x) && b[i].valid && b[i].refcnt > 0
    requires 0 <= y < |disk|
    ensures NoTwins(b[i := b[i].(data := data)]) && Clean(b[i := b[i].(data := data)], disk)
    ensures Seen(b[i := b[i].(data := data)], disk, dev, y) == if y == x then data else Seen(b, disk, dev, y)
    ensures RefOf(b[i := b[i].(data := data)], dev, y) == RefOf(b, dev, y)
  {
    var b' := b[i := b[i].(data := data)];
    var s, s' := Slot(b, dev, y), Slot(b', dev, y);
    if s < NBUF {
      assert Is(b', s, dev, y);
      SlotUnique(b', s, dev, y);
    } else if s' < NBUF {
      assert Is(b, s', dev, y);
    }
    SlotUnique(b, i, dev, x);
    SlotUnique(b', i, dev, x);
  }

  /** Writing a buffer's own data to its block changes what nobody sees. */
  lemma WriteSeen(b: Bufs, disk: Disk, i: nat, dev: nat, x: int, y: int)
    requires NoTwins(b) && Clean(b, disk) && dev != 0 && Is(b, i, dev, x) && b[i].valid && 0 <= x < |disk|
    requires forall j :: 0 <= j < NBUF && b[j].dev != 0 ==> b[j].dev == dev
    requires 0 <= y < |disk|
    ensures Clean(b, disk[x := b[i].data])
    ensures Seen(b, disk[x := b[i].data], dev, y) == Seen(b, disk, dev, y)
  {
    SlotUnique(b, i, dev, x);
    forall j | 0 <= j < NBUF ensures CleanAt(b[j], disk[x := b[i].data]) {
      assert CleanAt(b[j], disk);
      if j != i && b[j].dev != 0 {
        assert !(b[j].blockno == x);
      }
    }
  }

  /** Each write takes the device from one state to the next. */
  ghost predicate History(states: seq<Disk>, writes: seq<Write>) {
    && |states| == |writes| + 1
    && forall k :: 0 <= k < |writes| ==> StepAt(states, writes, k)
  }

  ghost predicate StepAt(states: seq<Disk>, writes: seq<Write>, k: nat)
    requires k < |writes| == |states| - 1
  {
    0 <= writes[k].b < |states[k]| && states[k + 1] == states[k][writes[k].b := writes[k].data]
  }

  lemma HistoryNext(states: seq<Disk>, writes: seq<Write>, w: Write)
    requires History(states, writes) && 0 <= w.b < |states[|writes|]|
    ensures History(states + [states[|writes|][w.b := w.data]], writes + [w])
  {
    var s, ws := states + [states[|writes|][w.b := w.data]], writes + [w];
    forall k | 0 <= k < |ws| ensures StepAt(s, ws, k) {
      if k < |writes| { assert StepAt(states, writes, k); }
    }
  }

  /** From state `k` on, the device is that state with the writes since applied. */
  lemma {:induction false} StatesReplay(states: seq<Disk>, writes: seq<Write>, k: nat, n: nat)
    requires History(states, writes) && k + n <= |writes|
    ensures Fits(writes[k..k + n], |states[k]|) && |states[k + n]| == |states[k]|
    ensures states[k + n] == ApplyWrites(states[k], writes[k..k + n])
  {
    if n > 0 {
      StatesReplay(states, writes, k, n - 1);
      assert StepAt(states, writes, k + n - 1);
      assert writes[k..k + n] == writes[k..k + n - 1] + [writes[k + n - 1]];
      ApplyLast(states[k], writes[k..k + n - 1], writes[k + n - 1]);
    }
  }

  /** More writes do not change the states already passed. */
  lemma {:induction false} HistoryExtends(s1: seq<Disk>, w1: seq<Write>, s2: seq<Disk>, w2: seq<Write>, k: nat)
    requires History(s1, w1) && History(s2, w2) && s1[0] == s2[0] && w1 <= w2 && k <= |w1|
    ensures s2[k] == s1[k]
  {
    if k > 0 {
      HistoryExtends(s1, w1, s2, w2, k - 1);
      assert StepAt(s1, w1, k - 1) && StepAt(s2, w2, k - 1);
    }
  }

  class BCache {
    /** bcache.buf and, in the last place, bcache.head. */
    var buf: array<Buf>
    /** The device behind virtio_disk_rw, every block write made to it so far, and the states it has
        been through: a crash leaves the last of them. */
    var disk: Disk
    ghost var writes: seq<Write>
    ghost var states: seq<Disk>
    ghost const first: Disk
    ghost var order: seq<nat>
    ghost var stamp: seq<nat>
    ghost var clock: nat

    ghost predicate Valid()
      reads this, buf
    {
      && buf.Length == NBUF + 1 && RingOk(buf[..], order, stamp, clock) && NoTwins(buf[..])
      && History(states, writes) && states[0] == first && disk == states[|writes|]
    }

    /** binit. */
    constructor Binit(d: Disk, zero: Block)
      ensures Valid() && fresh(buf) && disk == d && first == d && writes == []
      ensures forall i :: 0 <= i < NBUF ==> buf[i].dev == 0 && buf[i].refcnt == 0 && order[i] == NBUF - 1 - i
    {
      buf := new Buf[NBUF + 1](_ => Buf(false, 0, 0, 0, zero, 0, 0));
      disk, first, writes, states := d, d, [], [d];
      new;
      buf[HEAD] := buf[HEAD].(prev := HEAD, next := HEAD);
      order := [];
      var b := 0;
      assert LinkedAt(buf[..], order, -1);
      while b < NBUF
        modifies this`order, buf
        invariant b <= NBUF && |order| == b
        invariant forall k :: 0 <= k < b ==> order[k] == b - 1 - k
        invariant Once(order) && Linked(buf[..], order)
        invariant forall i :: 0 <= i < NBUF ==> buf[i].dev == 0 && buf[i].refcnt == 0
      {
        PushFrontKeeps(buf[..], order, b);
        LinkFirst(b);
        order := [b] + order;
        b := b + 1;
      }
      stamp := seq(NBUF, i => i);
      clock := NBUF;
      FirstRing(buf[..], order);
    }

    /** The four assignments with which binit and brelse put a buffer behind the head. */
    method LinkFirst(b: nat)
      requires buf.Length == NBUF + 1 && b < NBUF && buf[HEAD].next < buf.Length && buf[HEAD].next != b
      modifies buf
      ensures buf[..] == PushFront(old(buf[..]), b)
    {
      buf[b] := buf[b].(next := buf[HEAD].next);
      buf[b] := buf[b].(prev := HEAD);
      buf[buf[HEAD].next] := buf[buf[HEAD].next].(prev := b);
      buf[HEAD] := buf[HEAD].(next := b);
    }

    /** bget's first scan, from the front; it stops at the head if the block is not cached. */
    method ScanForBlock(dev: nat, blockno: int) returns (i: nat)
      requires Valid()
      ensures i == Stop(order, Hit(buf[..], order, dev, blockno))
    {
      ghost var k := 0;
      assert LinkedAt(buf[..], order, -1);
      i := buf[HEAD].next;
      while i != HEAD && !(buf[i].dev == dev && buf[i].blockno == blockno)
        invariant 0 <= k <= NBUF && i == Stop(order, k)
        invariant forall j :: 0 <= j < k ==> !Is(buf[..], order[j], dev, blockno)
        decreases NBUF - k
      {
        assert LinkedAt(buf[..], order, k);
        i := buf[i].next;
        k := k + 1;
      }
    }

    /** bget's second scan, from the back; it stops at the head if every buffer is in use. */
    method ScanForVictim() returns (i: nat)
      requires Valid()
      ensures i == Stop(order, Victim(buf[..], order, NBUF - 1))
    {
      ghost var k := NBUF - 1;
      assert LinkedAt(buf[..], order, NBUF - 1);
      i := buf[HEAD].prev;
      while i != HEAD && buf[i].refcnt != 0
        invariant -1 <= k < NBUF && i == Stop(order, k)
        invariant forall j :: k < j < NBUF ==> buf[order[j]].refcnt != 0
        decreases k + 1
      {
        assert LinkedAt(buf[..], order, k - 1);
        i := buf[i].prev;
        k := k - 1;
      }
    }

    /** bget.  `ok` is false where the source panics for want of a buffer. */
    method Bget(dev: nat, blockno: int) returns (i: nat, ok: bool)
      requires Valid() && dev != 0
      modifies buf
      ensures Valid()
      ensures (buf[..], i, ok) == BgetBufs(old(buf[..]), order, dev, blockno)
    {
      ghost var b := buf[..];
      i := ScanForBlock(dev, blockno);
      if i != HEAD {
        buf[i] := buf[i].(refcnt := buf[i].refcnt + 1);
        assert buf[..] == b[i := b[i].(refcnt := b[i].refcnt + 1)];
        CountKeeps(b, order, stamp, clock, i, b[i].refcnt + 1);
        return i, true;
      }
      i := ScanForVictim();
      if i != HEAD {
        buf[i] := buf[i].(dev := dev, blockno := blockno, valid := false, refcnt := 1);
        assert buf[..] == b[i := b[i].(dev := dev, blockno := blockno, valid := false, refcnt := 1)];
        SameLinks(b, buf[..], order);
        RecycleTwins(b, order, dev, blockno, i);
        return i, true;
      }
      return NBUF, false;
    }

    /** bread. */
    method Bread(dev: nat, blockno: int) returns (i: nat, ok: bool)
      requires Valid() && dev != 0 && 0 <= blockno < |disk|
      modifies buf
      ensures Valid()
      ensures (buf[..], i, ok) == BreadBufs(old(buf[..]), order, disk, dev, blockno)
      ensures ok && old(Clean(buf[..], disk)) ==> Got(old(buf[..]), buf[..], disk, dev, blockno, i)
    {
      i, ok := Bget(dev, blockno);
      if ok && !buf[i].valid {
        ghost var was := buf[..];
        buf[i] := buf[i].(data := disk[blockno]);
        buf[i] := buf[i].(valid := true);
        assert buf[..] == was[i := was[i].(valid := true, data := disk[blockno])];
        SameLinks(was, buf[..], order);
      }
      if ok && old(Clean(buf[..], disk)) {
        BreadGot(old(buf[..]), order, disk, dev, blockno);
      }
    }

    /** bwrite of a locked buffer. */
    method Bwrite(i: nat)
      requires Valid() && i < NBUF && 0 <= buf[i].blockno < |disk|
      modifies this`disk, this`writes, this`states
      ensures Valid() && states == old(states) + [disk]
      ensures disk == old(disk)[buf[i].blockno := buf[i].data]
      ensures writes == old(writes) + [Write(buf[i].blockno, buf[i].data)]
    {
      disk := disk[buf[i].blockno := buf[i].data];
      writes := writes + [Write(buf[i].blockno, buf[i].data)];
      states := states + [disk];
      HistoryNext(old(states), old(writes), Write(buf[i].blockno, buf[i].data));
    }

    /** The part of brelse done when no one is waiting for the buffer. */
    method Requeue(i: nat)
      requires Valid() && i < NBUF
      modifies this`order, this`stamp, this`clock, buf
      ensures Valid() && Relinked(old(buf[..]), buf[..])
      ensures MovedFirst(old(order), order, i) && stamp == old(stamp)[i := old(clock)] && clock == old(clock) + 1
    {
      ghost var b := buf[..];
      assert i in order;
      ghost var p :| 0 <= p < NBUF && order[p] == i;
      ToFront(b, order, stamp, clock, p);
      buf[buf[i].next] := buf[buf[i].next].(prev := buf[i].prev);
      buf[buf[i].prev] := buf[buf[i].prev].(next := buf[i].next);
      assert buf[..] == Unlink(b, i);
      LinkFirst(i);
      order := [i] + Without(order, p);
      stamp := stamp[i := clock];
      clock := clock + 1;
    }

    /** brelse of a locked buffer: the last reference moves it to the front. */
    method Brelse(i: nat)
      requires Valid() && i < NBUF && buf[i].refcnt > 0
      modifies this`order, this`stamp, this`clock, buf
      ensures Valid() && LetGo(old(buf[..]), buf[..], i)
      ensures old(buf[i].refcnt) > 1 ==> order == old(order) && stamp == old(stamp) && clock == old(clock)
      ensures old(buf[i].refcnt) == 1 ==>
        MovedFirst(old(order), order, i) && stamp == old(stamp)[i := old(clock)] && clock == old(clock) + 1
    {
      ghost var b := buf[..];
      buf[i] := buf[i].(refcnt := buf[i].refcnt - 1);
      assert buf[..] == b[i := b[i].(refcnt := b[i].refcnt - 1)];
      CountKeeps(b, order, stamp, clock, i, b[i].refcnt - 1);
      ghost var b1 := buf[..];
      if buf[i].refcnt == 0 {
        Requeue(i);
      }
      CountThenLinks(b, b1, buf[..], i);
    }

    method Bpin(i: nat)
      requires Valid() && i < NBUF
      modifies buf
      ensures Valid() && buf[..] == old(buf[..])[i := old(buf[i]).(refcnt := old(buf[i].refcnt) + 1)]
    {
      buf[i] := buf[i].(refcnt := buf[i].refcnt + 1);
      assert buf[..] == old(buf[..])[i := old(buf[i]).(refcnt := old(buf[i].refcnt) + 1)];
      CountKeeps(old(buf[..]), order, stamp, clock, i, old(buf[i].refcnt) + 1);
    }

    method Bunpin(i: nat)
      requires Valid() && i < NBUF && buf[i].refcnt > 0
      modifies buf
      ensures Valid() && buf[..] == old(buf[..])[i := old(buf[i]).(refcnt := old(buf[i].refcnt) - 1)]
    {
      buf[i] := buf[i].(refcnt := buf[i].refcnt - 1);
      assert buf[..] == old(buf[..])[i := old(buf[i]).(refcnt := old(buf[i].refcnt) - 1)];
      CountKeeps(old(buf[..]), order, stamp, clock, i, old(buf[i].refcnt) - 1);
    }
  }

  lemma SameLinks(b: Bufs, b': Bufs, order: seq<nat>)
    requires |b| == |b'| == NBUF + 1 && Once(order) && Linked(b, order)
    requires forall j :: 0 <= j < |b| ==> b'[j].prev == b[j].prev && b'[j].next == b[j].next
    ensures Linked(b', order)
  {
    forall k | -1 <= k < |order| ensures LinkedAt(b', order, k) {
      assert LinkedAt(b, order, k);
    }
  }

  lemma FirstRing(b: Bufs, order: seq<nat>)
    requires |b| == NBUF + 1 && |order| == NBUF && Once(order) && Linked(b, order)
    requires forall k :: 0 <= k < NBUF ==> order[k] == NBUF - 1 - k
    requires forall i :: 0 <= i < NBUF ==> b[i].dev == 0
    ensures RingOk(b, order, seq(NBUF, i => i), NBUF) && NoTwins(b)
  {
    forall i: nat | i < NBUF ensures i in order {
      assert order[NBUF - 1 - i] == i;
    }
  }

  lemma CountKeeps(b: Bufs, order: seq<nat>, stamp: seq<nat>, clock: nat, i: nat, c: int)
    requires RingOk(b, order, stamp, clock) && NoTwins(b) && i < NBUF
    ensures RingOk(b[i := b[i].(refcnt := c)], order, stamp, clock) && NoTwins(b[i := b[i].(refcnt := c)])
  {
    SameLinks(b, b[i := b[i].(refcnt := c)], order);
  }

  /** brelse's six assignments keep the ring, and keep it sorted by release time. */
  lemma ToFront(b: Bufs, order: seq<nat>, stamp: seq<nat>, clock: nat, p: nat)
    requires RingOk(b, order, stamp, clock) && NoTwins(b) && p < NBUF
    ensures var i := order[p];
      && b[i].next < |b| && b[i].prev < |b| && b[i].next != i
      && var cut := Unlink(b, i);
      && cut[HEAD].next < |b| && cut[HEAD].next != i
      && RingOk(PushFront(cut, i), [i] + Without(order, p), stamp[i := clock], clock + 1)
      && NoTwins(PushFront(cut, i))
      && Relinked(b, PushFront(cut, i))
  {
    var i := order[p];
    UnlinkKeeps(b, order, p);
    PushFrontKeeps(Unlink(b, i), Without(order, p), i);
    MoveToFront(order, p);
  }

  lemma RecycleTwins(b: Bufs, order: seq<nat>, dev: nat, x: int, i: nat)
    requires Permutes(order) && NoTwins(b) && i < NBUF
    requires forall j :: 0 <= j < NBUF ==> !Is(b, order[j], dev, x)
    ensures NoTwins(b[i := b[i].(dev := dev, blockno := x, valid := false, refcnt := 1)])
  {
    forall t: nat | t < NBUF ensures b[t].dev != dev || b[t].blockno != x {
      assert t in order;
    }
  }

  lemma MoveToFront(order: seq<nat>, p: nat)
    requires Permutes(order) && p < NBUF
    ensures Permutes([order[p]] + Without(order, p))
  {
    var o := [order[p]] + Without(order, p);
    forall i: nat | i < NBUF ensures i in o {
      assert i in order;
      var k :| 0 <= k < NBUF && order[k] == i;
      if k < p { assert o[k + 1] == i; } else if k > p { assert o[k] == i; }
    }
  }
}
