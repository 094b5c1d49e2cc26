/** kernel/fs.c: the block allocator, bmap, itrunc, readi and writei over one file system, and the
    chunking loop of kernel/file.c's filewrite. */
module Fs {
  import opened Params
  import opened Basics
  import opened FsModel

  lemma TwoMore<T>(a: set<T>, x: T, y: T)
    ensures |a + {x, y}| <= |a| + 2
  {
    var c := a + {x};
    assert a + {x, y} == c + {y};
    assert |c| <= |a| + 1;
  }

  lemma ThreeMore<T>(a: set<T>, x: T, y: T, z: T)
    ensures |a + {x, y}| <= |a + {x, y} + {z}| <= |a| + 3
    ensures z in a ==> |a + {x, y} + {z}| <= |a| + 2
  {
    TwoMore(a, x, y);
    var c := a + {x, y};
    if z in c {
      assert c + {z} == c;
    }
  }

  lemma GrowsByOne<T>(a: set<T>, x: T)
    ensures |a| <= |a + {x}| <= |a| + 1
    ensures x in a ==> a + {x} == a
  {
    if x in a {
      assert a + {x} == a;
    }
  }

  lemma Grows<T>(a: set<T>, x: T, y: T)
    ensures a + {x} + {y} == a + {x, y}
    ensures |a| <= |a + {x}| <= |a + {x, y}|
  {
    var b := a + {x};
    assert b + {y} == a + {x, y};
    if x in a {
      assert b == a;
    }
    if y in b {
      assert b + {y} == b;
    }
  }

  predicate KeepsAt(data: seq<Bytes>, ip: Inode, data': seq<Bytes>, ip': Inode, k: nat)
    requires InodeOk(data, ip) && InodeOk(data', ip') && k < NSLOTS
  {
    Slot(data, ip, k) != 0 ==> Slot(data', ip', k) == Slot(data, ip, k)
  }

  ghost predicate AllOk(data: seq<Bytes>, inodes: seq<Inode>) {
    forall j :: 0 <= j < |inodes| ==> InodeOk(data, inodes[j])
  }

  /** What a write to inode i leaves alone: the other inodes and their files, i's size, and the slots of i
      that hold a block. */
  ghost predicate Others(data: seq<Bytes>, inodes: seq<Inode>, data': seq<Bytes>, inodes': seq<Inode>, i: nat)
    requires AllOk(data, inodes) && AllOk(data', inodes')
  {
    && i < |inodes| == |inodes'| && inodes'[i].size == inodes[i].size
    && (forall j :: 0 <= j < |inodes| && j != i ==> inodes'[j] == inodes[j])
    && (forall j, bn :: 0 <= j < |inodes| && 0 <= bn < MAXFILE && j != i ==>
      SamePage(data, inodes, data', inodes', j, bn))
    && (forall k :: 0 <= k < NSLOTS ==> KeepsAt(data, inodes[i], data', inodes'[i], k))
  }

  /** What allocating for inode i may do: on top of that, no byte of i's file changes. */
  ghost predicate Grown(data: seq<Bytes>, inodes: seq<Inode>, data': seq<Bytes>, inodes': seq<Inode>, i: nat)
    requires AllOk(data, inodes) && AllOk(data', inodes')
  {
    Others(data, inodes, data', inodes', i) && SamePages(data, inodes, data', inodes')
  }

  lemma OthersTwice(data: seq<Bytes>, inodes: seq<Inode>, data1: seq<Bytes>, inodes1: seq<Inode>,
                    data2: seq<Bytes>, inodes2: seq<Inode>, i: nat)
    requires AllOk(data, inodes) && AllOk(data1, inodes1) && AllOk(data2, inodes2)
    requires Others(data, inodes, data1, inodes1, i) && Others(data1, inodes1, data2, inodes2, i)
    ensures Others(data, inodes, data2, inodes2, i)
  {
    forall j, bn | 0 <= j < |inodes| && 0 <= bn < MAXFILE && j != i
      ensures SamePage(data, inodes, data2, inodes2, j, bn)
    {
      assert SamePage(data, inodes, data1, inodes1, j, bn) && SamePage(data1, inodes1, data2, inodes2, j, bn);
    }
    forall k | 0 <= k < NSLOTS ensures KeepsAt(data, inodes[i], data2, inodes2[i], k) {
      assert KeepsAt(data, inodes[i], data1, inodes1[i], k) && KeepsAt(data1, inodes1[i], data2, inodes2[i], k);
    }
  }

  lemma GrownTwice(data: seq<Bytes>, inodes: seq<Inode>, data1: seq<Bytes>, inodes1: seq<Inode>,
                   data2: seq<Bytes>, inodes2: seq<Inode>, i: nat)
    requires AllOk(data, inodes) && AllOk(data1, inodes1) && AllOk(data2, inodes2)
    requires Grown(data, inodes, data1, inodes1, i) && Grown(data1, inodes1, data2, inodes2, i)
    ensures Grown(data, inodes, data2, inodes2, i)
  {
    OthersTwice(data, inodes, data1, inodes1, data2, inodes2, i);
    forall j, bn | 0 <= j < |inodes| && 0 <= bn < MAXFILE ensures SamePage(data, inodes, data2, inodes2, j, bn) {
      assert SamePage(data, inodes, data1, inodes1, j, bn) && SamePage(data1, inodes1, data2, inodes2, j, bn);
    }
  }

  lemma GrownByOne(data: seq<Bytes>, inodes: seq<Inode>, data': seq<Bytes>, inodes': seq<Inode>, i: nat, k: nat)
    requires AllOk(data, inodes) && AllOk(data', inodes')
    requires SameSlotsBut(data, inodes, data', inodes', i, k) && SamePages(data, inodes, data', inodes')
    requires i < |inodes| && k < NSLOTS && Slot(data, inodes[i], k) == 0 && inodes'[i].size == inodes[i].size
    requires forall j :: 0 <= j < |inodes| && j != i ==> inodes'[j] == inodes[j]
    ensures Grown(data, inodes, data', inodes', i)
  {
    forall l | 0 <= l < NSLOTS ensures KeepsAt(data, inodes[i], data', inodes'[i], l) {
      if l != k {
        assert SameSlot(data, inodes, data', inodes', i, l);
      }
    }
  }

  /** Every data block is taken. */
  ghost predicate Full(sb: Super, bits: seq<bv8>)
    requires sb.size <= 8 * |bits|
  {
    forall b :: 0 <= b < sb.size ==> Bit(bits, b)
  }

  /** A fresh block in an entry of the indirect block. */
  lemma EntryFilled(sb: Super, bits: seq<bv8>, data: seq<Bytes>, inodes: seq<Inode>, owner: Owner, i: nat, e: nat,
                    b: int)
    requires Owned(sb, bits, data, inodes, owner) && AllMapped(data, inodes)
    requires 0 <= b < sb.size && !Bit(bits, b)
    requires i < |inodes| && e < NINDIRECT && inodes[i].addrs[NDIRECT] != 0
    requires Slot(data, inodes[i], NDIRECT + 1 + e) == 0
    ensures inodes[i].addrs[NDIRECT] != b
    ensures var data' := SetEntry(data[b := Zeroed()], inodes[i].addrs[NDIRECT], e, b);
      && Owned(sb, SetBit(bits, b), data', inodes, owner[b := (i, NDIRECT + 1 + e)])
      && AllMapped(data', inodes)
      && Slot(data', inodes[i], NDIRECT + 1 + e) == b
      && Grown(data, inodes, data', inodes, i)
  {
    var k, data1 := NDIRECT + 1 + e, data[b := Zeroed()];
    FreeInNoSlot(sb, bits, data, inodes, owner, b, i, NDIRECT);
    ZeroFree(sb, bits, data, inodes, owner, b);
    assert SameSlot(data, inodes, data1, inodes, i, k);
    AllocEntry(sb, bits, data1, inodes, owner, i, e, b);
    var data2 := SetEntry(data1, inodes[i].addrs[NDIRECT], e, b);
    GrownByOne(data, inodes, data1, inodes, i, k);
    GrownByOne(data1, inodes, data2, inodes, i, k);
    GrownTwice(data, inodes, data1, inodes, data2, inodes, i);
  }

  /** A chunk spliced into block bn of inode i, after the allocation that made room for it. */
  lemma ChunkWritten(sb: Super, bits: seq<bv8>, data0: seq<Bytes>, inodes0: seq<Inode>, data: seq<Bytes>,
                     inodes: seq<Inode>,
                     owner: Owner, i: nat, at: nat, chunk: Bytes)
    requires AllOk(data0, inodes0) && Owned(sb, bits, data, inodes, owner) && AllMapped(data, inodes)
    requires Grown(data0, inodes0, data, inodes, i)
    requires at / BSIZE < MAXFILE && at % BSIZE + |chunk| <= BSIZE && Slot(data, inodes[i], FileSlot(at / BSIZE)) != 0
    ensures var v := Slot(data, inodes[i], FileSlot(at / BSIZE));
      && 0 < v < |data| && |data[v]| == BSIZE
      && (var data' := data[v := Splice(data[v], at % BSIZE, chunk)];
      && Owned(sb, bits, data', inodes, owner) && AllMapped(data', inodes)
      && Slot(data', inodes[i], FileSlot(at / BSIZE)) == v
      && Others(data0, inodes0, data', inodes, i)
      && StampedAll(data0, inodes0[i], data', inodes[i], at, chunk))
  {
    var bn := at / BSIZE;
    var v := Slot(data, inodes[i], FileSlot(bn));
    assert Holds(data, inodes, i, FileSlot(bn), v);
    HeldIsOwned(sb, bits, data, inodes, owner, i, FileSlot(bn), v);
    var data' := data[v := Splice(data[v], at % BSIZE, chunk)];
    WritePage(sb, bits, data, inodes, owner, i, bn, Splice(data[v], at % BSIZE, chunk));
    forall k | 0 <= k < NSLOTS ensures KeepsAt(data, inodes[i], data', inodes[i], k) {
      assert SameSlot(data, inodes, data', inodes, i, k);
    }
    OthersTwice(data0, inodes0, data, inodes, data', inodes, i);
    forall m | 0 <= m < MAXFILE ensures Stamped(data0, inodes0[i], data', inodes[i], at, chunk, m) {
      assert SamePage(data0, inodes0, data, inodes, i, m);
      if m != bn {
        assert SamePage(data, inodes, data', inodes, i, m);
      }
    }
  }

  lemma NothingWritten(data0: seq<Bytes>, inodes0: seq<Inode>, data: seq<Bytes>, inodes: seq<Inode>, i: nat, at: nat)
    requires AllOk(data0, inodes0) && AllOk(data, inodes) && Grown(data0, inodes0, data, inodes, i)
    ensures StampedAll(data0, inodes0[i], data, inodes[i], at, [])
  {
    forall m | 0 <= m < MAXFILE ensures Stamped(data0, inodes0[i], data, inodes[i], at, [], m) {
      assert SamePage(data0, inodes0, data, inodes, i, m);
      if m == at / BSIZE {
        assert Splice(Page(data0, inodes0[i], m), at % BSIZE, []) == Page(data0, inodes0[i], m);
      }
    }
  }

  /** Blocks below position `at` are all there. */
  ghost predicate MappedTo(data: seq<Bytes>, ip: Inode, at: nat)
    requires InodeOk(data, ip)
  {
    forall bn :: 0 <= bn < MAXFILE ==> MappedAt(data, ip.(size := at), bn)
  }

  lemma MappedBelow(data: seq<Bytes>, ip: Inode, at: nat)
    requires InodeOk(data, ip) && Mapped(data, ip) && at <= ip.size
    ensures MappedTo(data, ip, at)
  {
    forall bn | 0 <= bn < MAXFILE ensures MappedAt(data, ip.(size := at), bn) {
      assert MappedAt(data, ip, bn);
    }
  }

  lemma MappedMore(data: seq<Bytes>, inodes: seq<Inode>, data': seq<Bytes>, inodes': seq<Inode>, i: nat, at: nat,
                   m: nat)
    requires AllOk(data, inodes) && AllOk(data', inodes') && Others(data, inodes, data', inodes', i)
    requires MappedTo(data, inodes[i], at) && at / BSIZE < MAXFILE && at % BSIZE + m <= BSIZE
    requires m > 0 ==> Slot(data', inodes'[i], FileSlot(at / BSIZE)) != 0
    ensures MappedTo(data', inodes'[i], at + m)
  {
    var ip := inodes'[i].(size := at + m);
    forall bn | 0 <= bn < MAXFILE ensures MappedAt(data', ip, bn) {
      assert MappedAt(data, inodes[i].(size := at), bn);
      assert KeepsAt(data, inodes[i], data', inodes'[i], FileSlot(bn));
    }
  }

  lemma SetSize(sb: Super, bits: seq<bv8>, data: seq<Bytes>, inodes: seq<Inode>, owner: Owner, i: nat, at: nat)
    requires Owned(sb, bits, data, inodes, owner) && AllMapped(data, inodes)
    requires i < |inodes| && MappedTo(data, inodes[i], at) && at <= MAXFILE * BSIZE
    ensures var inodes' := inodes[i := inodes[i].(size := at)];
      && Owned(sb, bits, data, inodes', owner) && AllMapped(data, inodes')
      && SamePages(data, inodes, data, inodes')
  {
    var inodes' := inodes[i := inodes[i].(size := at)];
    forall j | 0 <= j < |inodes'| ensures InodeOk(data, inodes'[j]) {
      assert InodeOk(data, inodes[j]);
    }
    assert SameSlotsBut(data, inodes, data, inodes', -1, -1);
    KeepSlots(sb, bits, data, inodes, owner, data, inodes');
    forall j | 0 <= j < |inodes'| ensures Mapped(data, inodes'[j]) {
      assert Mapped(data, inodes[j]);
    }
  }

  /** The blocks that writing `tot` bytes from `off` may log, besides the indirect block and the inode:
      two per block, but a write that starts inside a block starts in one that is already there. */
  function Cost(off: nat, tot: nat): nat {
    if off % BSIZE != 0 && tot > 0 then 2 * Blocks(off, tot) - 1 else 2 * Blocks(off, tot)
  }

  /** writei's loop after `tot` bytes: those bytes are in inode i's file, nothing else has changed, and
      every block up to the position reached is there. */
  ghost predicate Progress(data0: seq<Bytes>, inodes0: seq<Inode>, data: seq<Bytes>, inodes: seq<Inode>,
                           i: nat, off: nat, src: Bytes, tot: nat)
    requires AllOk(data0, inodes0) && AllOk(data, inodes)
  {
    && Others(data0, inodes0, data, inodes, i) && tot <= |src|
    && Wrote(data0, inodes0[i], data, inodes[i], off, src, tot)
    && MappedTo(data, inodes[i], off + tot)
  }

  lemma ProgressStart(data: seq<Bytes>, inodes: seq<Inode>, i: nat, off: nat, src: Bytes)
    requires AllOk(data, inodes) && AllMapped(data, inodes) && i < |inodes| && off <= inodes[i].size
    ensures Progress(data, inodes, data, inodes, i, off, src, 0)
    ensures off % BSIZE != 0 ==> off / BSIZE < MAXFILE && Slot(data, inodes[i], FileSlot(off / BSIZE)) != 0
    ensures inodes[i].size <= MAXFILE * BSIZE
  {
    MappedBelow(data, inodes[i], off);
    if off % BSIZE != 0 {
      assert MappedAt(data, inodes[i], off / BSIZE);
    }
  }

  lemma ProgressStep(data0: seq<Bytes>, inodes0: seq<Inode>, data: seq<Bytes>, inodes: seq<Inode>,
                     data': seq<Bytes>, inodes': seq<Inode>, i: nat, off: nat, src: Bytes, tot: nat, m: nat)
    requires AllOk(data0, inodes0) && AllOk(data, inodes) && AllOk(data', inodes')
    requires Progress(data0, inodes0, data, inodes, i, off, src, tot) && Others(data, inodes, data', inodes', i)
    requires tot + m <= |src| && (off + tot) / BSIZE < MAXFILE && (off + tot) % BSIZE + m <= BSIZE
    requires StampedAll(data, inodes[i], data', inodes'[i], off + tot, src[tot..tot + m])
    requires m > 0 ==> Slot(data', inodes'[i], FileSlot((off + tot) / BSIZE)) != 0
    ensures Progress(data0, inodes0, data', inodes', i, off, src, tot + m)
  {
    OthersTwice(data0, inodes0, data, inodes, data', inodes', i);
    WroteMore(data0, inodes0[i], data, inodes[i], data', inodes'[i], off, src, tot, m);
    MappedMore(data, inodes, data', inodes', i, off + tot, m);
  }

  lemma SameFile(data: seq<Bytes>, ip: Inode, data': seq<Bytes>, ip': Inode)
    requires InodeOk(data, ip) && InodeOk(data', ip') && ip'.size == ip.size <= MAXFILE * BSIZE
    requires forall bn :: 0 <= bn < MAXFILE ==> Page(data', ip', bn) == Page(data, ip, bn)
    ensures File(data', ip') == File(data, ip)
  {
    var f, g := File(data', ip'), File(data, ip);
    forall p | 0 <= p < |f| ensures f[p] == g[p] {
      assert Page(data', ip', p / BSIZE) == Page(data, ip, p / BSIZE);
    }
  }

  /** Inode i with its size raised to the position reached. */
  function Resized(inodes: seq<Inode>, i: nat, at: nat): (r: seq<Inode>)
    requires i < |inodes|
    ensures |r| == |inodes|
  {
    if at > inodes[i].size then inodes[i := inodes[i].(size := at)] else inodes
  }

  ghost predicate OtherFiles(data0: seq<Bytes>, inodes0: seq<Inode>, data: seq<Bytes>, inodes: seq<Inode>, i: nat)
    requires AllOk(data0, inodes0) && AllOk(data, inodes) && AllMapped(data0, inodes0) && AllMapped(data, inodes)
  {
    && |inodes| == |inodes0|
    && (forall j :: 0 <= j < |inodes| && j != i ==>
      inodes[j] == inodes0[j] && File(data, inodes[j]) == File(data0, inodes0[j]))
  }

  /** When the loop is over and the size is set, the file is the old one with the bytes spliced in. */
  lemma ProgressEnd(sb: Super, bits: seq<bv8>, data0: seq<Bytes>, inodes0: seq<Inode>, data: seq<Bytes>,
                    inodes: seq<Inode>,
                    owner: Owner, i: nat, off: nat, src: Bytes, tot: nat)
    requires AllOk(data0, inodes0) && AllMapped(data0, inodes0)
    requires Owned(sb, bits, data, inodes, owner) && AllMapped(data, inodes)
    requires Progress(data0, inodes0, data, inodes, i, off, src, tot)
    requires off <= inodes0[i].size && off + tot <= MAXFILE * BSIZE
    ensures var inodes' := Resized(inodes, i, off + tot);
      && Owned(sb, bits, data, inodes', owner) && AllMapped(data, inodes')
      && inodes0[i].size <= MAXFILE * BSIZE
      && File(data, inodes'[i]) == Splice(File(data0, inodes0[i]), off, src[..tot])
      && OtherFiles(data0, inodes0, data, inodes', i)
  {
    var inodes' := Resized(inodes, i, off + tot);
    if off + tot > inodes[i].size {
      SetSize(sb, bits, data, inodes, owner, i, off + tot);
      forall p | 0 <= p < MAXFILE * BSIZE ensures WroteAt(data0, inodes0[i], data, inodes'[i], off, src, tot, p) {
        assert WroteAt(data0, inodes0[i], data, inodes[i], off, src, tot, p);
        assert SamePage(data, inodes, data, inodes', i, p / BSIZE);
      }
    }
    assert Mapped(data0, inodes0[i]) && Mapped(data, inodes'[i]);
    WroteFile(data0, inodes0[i], data, inodes'[i], off, src, tot);
    forall j | 0 <= j < |inodes'| && j != i
      ensures inodes'[j] == inodes0[j] && File(data, inodes'[j]) == File(data0, inodes0[j])
    {
      assert Mapped(data0, inodes0[j]);
      forall bn | 0 <= bn < MAXFILE ensures Page(data, inodes'[j], bn) == Page(data0, inodes0[j], bn) {
        assert SamePage(data0, inodes0, data, inodes, j, bn);
      }
      SameFile(data0, inodes0[j], data, inodes'[j]);
    }
  }

  lemma CostStep(off: nat, tot: nat, n: nat)
    requires tot < n && (tot == 0 || (off + tot) % BSIZE == 0)
    ensures var q := off + tot; var m := Min(n - tot, BSIZE - q % BSIZE);
      && m > 0 && q % BSIZE + m <= BSIZE && (tot + m == n || (q + m) % BSIZE == 0)
      && Cost(off, tot + m) == Cost(off, tot) + if tot == 0 && off % BSIZE != 0 then 1 else 2
  {
    BlocksStep(off, tot, n);
  }

  lemma CostRises(off: nat, a: nat, b: nat)
    requires a <= b
    ensures Cost(off, a) <= Cost(off, b)
  {
  }

  /** One more piece of a file, taken from the block it lies in. */
  lemma ReadStep(data: seq<Bytes>, ip: Inode, off: nat, q: nat, m: nat)
    requires InodeOk(data, ip) && Mapped(data, ip)
    requires off <= q && q + m <= ip.size && q % BSIZE + m <= BSIZE
    ensures q / BSIZE < MAXFILE || m == 0
    ensures m > 0 ==>
      File(data, ip)[off..q] + Page(data, ip, q / BSIZE)[q % BSIZE..q % BSIZE + m] == File(data, ip)[off..q + m]
  {
    if m > 0 {
      var f, piece := File(data, ip), Page(data, ip, q / BSIZE)[q % BSIZE..q % BSIZE + m];
      forall x | 0 <= x < m ensures f[q + x] == piece[x] {
        InBlock(q + x, q, m);
      }
      assert f[q..q + m] == piece;
      assert f[off..q] + f[q..q + m] == f[off..q + m];
    }
  }

  lemma PageIsBlock(sb: Super, bits: seq<bv8>, data: seq<Bytes>, inodes: seq<Inode>, owner: Owner, i: nat, bn: nat)
    requires Owned(sb, bits, data, inodes, owner) && AllMapped(data, inodes)
    requires i < |inodes| && bn < MAXFILE && bn * BSIZE < inodes[i].size
    ensures var v := Slot(data, inodes[i], FileSlot(bn));
      0 < v < |data| && data[v] == Page(data, inodes[i], bn)
  {
    assert Mapped(data, inodes[i]);
    assert MappedAt(data, inodes[i], bn);
    HeldIsOwned(sb, bits, data, inodes, owner, i, FileSlot(bn), Slot(data, inodes[i], FileSlot(bn)));
  }

  /** The blocks of inode i are gone from the owner map, nothing else is. */
  ghost predicate Dropped(owner0: Owner, owner: Owner, i: nat) {
    && (forall b :: b in owner ==> b in owner0 && owner[b] == owner0[b])
    && (forall b :: b in owner0 && b !in owner ==> owner0[b].0 == i)
  }

  lemma DropOne(owner0: Owner, owner: Owner, i: nat, b: int)
    requires Dropped(owner0, owner, i) && b in owner && owner[b].0 == i
    ensures Dropped(owner0, owner - {b}, i)
  {
  }

  lemma DropTwice(owner0: Owner, owner1: Owner, owner: Owner, i: nat)
    requires Dropped(owner0, owner1, i) && Dropped(owner1, owner, i)
    ensures Dropped(owner0, owner, i)
  {
  }

  /** itrunc's outcome: exactly the blocks that sat in inode i's slots have become free. */
  lemma TruncatedBits(sb: Super, bits0: seq<bv8>, data: seq<Bytes>, inodes0: seq<Inode>, owner0: Owner,
                      bits: seq<bv8>, inodes: seq<Inode>, owner: Owner, i: nat, b: nat)
    requires Owned(sb, bits0, data, inodes0, owner0) && Owned(sb, bits, data, inodes, owner)
    requires Dropped(owner0, owner, i) && i < |inodes| && inodes[i].addrs == Empty().addrs && b < sb.size
    ensures Bit(bits, b) <==> Bit(bits0, b) && !exists k: nat :: Holds(data, inodes0, i, k, b)
  {
    assert BlockOk(sb, bits0, data, inodes0, owner0, b) && BlockOk(sb, bits, data, inodes, owner, b);
    forall k: nat | Holds(data, inodes0, i, k, b) ensures b in owner0 && owner0[b] == (i, k) {
      HeldIsOwned(sb, bits0, data, inodes0, owner0, i, k, b);
    }
    if b in owner0 && b !in owner {
      assert Holds(data, inodes0, i, owner0[b].1, b);
    }
  }

  function Empty(): (ip: Inode)
    ensures |ip.addrs| == NDIRECT + 1 && forall k :: 0 <= k <= NDIRECT ==> ip.addrs[k] == 0
  {
    Inode(0, [0, 0, 0, 0, 0, 0, 0, 0, 0, 0, 0, 0, 0])
  }

  /** An inode with no blocks left may drop its size. */
  lemma EmptyFile(sb: Super, bits: seq<bv8>, data: seq<Bytes>, inodes0: seq<Inode>, inodes: seq<Inode>, owner: Owner,
                  i: nat)
    requires AllOk(data, inodes0) && AllMapped(data, inodes0)
    requires Owned(sb, bits, data, inodes, owner)
    requires i < |inodes| == |inodes0| && inodes == inodes0[i := inodes[i]] && inodes[i].addrs == Empty().addrs
    ensures inodes[i := inodes[i].(size := 0)] == inodes0[i := Empty()]
    ensures Owned(sb, bits, data, inodes0[i := Empty()], owner) && AllMapped(data, inodes0[i := Empty()])
  {
    var inodes' := inodes0[i := Empty()];
    assert inodes[i := inodes[i].(size := 0)] == inodes';
    forall j | 0 <= j < |inodes'| ensures InodeOk(data, inodes'[j]) && Mapped(data, inodes'[j]) {
      assert InodeOk(data, inodes[j]);
      if j != i {
        assert Mapped(data, inodes0[j]);
      }
    }
    assert SameSlotsBut(data, inodes, data, inodes', -1, -1);
    KeepSlots(sb, bits, data, inodes, owner, data, inodes');
  }

  /** Entries j and up of the indirect block are still in place, those below are cleared in `freed`. */
  ghost predicate ClearedBelow(blk: Bytes, freed: Bytes, j: nat)
    requires |blk| == BSIZE && |freed| == BSIZE
  {
    forall e :: 0 <= e < NINDIRECT ==> ClearedAt(blk, freed, j, e)
  }

  predicate ClearedAt(blk: Bytes, freed: Bytes, j: nat, e: nat)
    requires |blk| == BSIZE && |freed| == BSIZE && e < NINDIRECT
  {
    Word(freed, e) == if e < j then 0 else Word(blk, e)
  }

  lemma ClearOne(blk: Bytes, freed: Bytes, j: nat)
    requires |blk| == BSIZE && |freed| == BSIZE && j < NINDIRECT && ClearedBelow(blk, freed, j)
    ensures Word(freed, j) == Word(blk, j)
    ensures ClearedBelow(blk, SetWord(freed, j, 0), j + 1)
    ensures Word(blk, j) == 0 ==> ClearedBelow(blk, freed, j + 1)
  {
    var next := j + 1;
    assert ClearedAt(blk, freed, j, j);
    forall e | 0 <= e < NINDIRECT
      ensures ClearedAt(blk, SetWord(freed, j, 0), next, e)
      ensures Word(blk, j) == 0 ==> ClearedAt(blk, freed, next, e)
    {
      assert ClearedAt(blk, freed, j, e);
      WordRoundTrip(freed, j, 0, e);
    }
  }

  /** A chunk of at most three blocks' worth logs at most nine blocks before the inode's own. */
  lemma ChunkCost(off: nat, n: nat, tot: nat)
    requires n <= 3 * BSIZE && tot <= n
    ensures Cost(off, tot) <= 7
  {
    if tot > 0 {
      var q, last := off / BSIZE, (off + tot - 1) / BSIZE;
      assert last <= q + 3;
      if off % BSIZE == 0 {
        assert last <= q + 2;
      }
    }
  }

  lemma OtherFilesTwice(data0: seq<Bytes>, inodes0: seq<Inode>, data1: seq<Bytes>, inodes1: seq<Inode>,
                        data: seq<Bytes>, inodes: seq<Inode>, i: nat)
    requires AllOk(data0, inodes0) && AllOk(data1, inodes1) && AllOk(data, inodes)
    requires AllMapped(data0, inodes0) && AllMapped(data1, inodes1) && AllMapped(data, inodes)
    requires OtherFiles(data0, inodes0, data1, inodes1, i) && OtherFiles(data1, inodes1, data, inodes, i)
    ensures OtherFiles(data0, inodes0, data, inodes, i)
  {
  }

  /** After k bytes of a filewrite: they are spliced into i's file at `off`, and no other file has changed. */
  ghost predicate Through(data0: seq<Bytes>, inodes0: seq<Inode>, data: seq<Bytes>, inodes: seq<Inode>,
                          i: nat, off: nat, src: Bytes, k: nat)
    requires AllOk(data0, inodes0) && AllOk(data, inodes) && AllMapped(data0, inodes0) && AllMapped(data, inodes)
  {
    && i < |inodes0| == |inodes| && k <= |src|
    && OtherFiles(data0, inodes0, data, inodes, i)
    && (off <= inodes0[i].size ==> File(data, inodes[i]) == Splice(File(data0, inodes0[i]), off, src[..k]))
    && (off > inodes0[i].size ==> k == 0 && data == data0 && inodes == inodes0)
  }

  lemma ThroughStart(data: seq<Bytes>, inodes: seq<Inode>, i: nat, off: nat, src: Bytes)
    requires AllOk(data, inodes) && AllMapped(data, inodes) && i < |inodes|
    ensures Through(data, inodes, data, inodes, i, off, src, 0)
    ensures inodes[i].size <= MAXFILE * BSIZE
  {
    assert Mapped(data, inodes[i]);
    if off <= inodes[i].size {
      var f := File(data, inodes[i]);
      assert f == Splice(f, off, src[..0]);
    }
  }

  lemma ThroughStep(data0: seq<Bytes>, inodes0: seq<Inode>, data1: seq<Bytes>, inodes1: seq<Inode>,
                    data: seq<Bytes>, inodes: seq<Inode>, i: nat, off: nat, src: Bytes, k: nat, got: nat)
    requires AllOk(data0, inodes0) && AllOk(data1, inodes1) && AllOk(data, inodes)
    requires AllMapped(data0, inodes0) && AllMapped(data1, inodes1) && AllMapped(data, inodes)
    requires Through(data0, inodes0, data1, inodes1, i, off, src, k) && k + got <= |src|
    requires |inodes| == |inodes1| && Mapped(data1, inodes1[i]) && Mapped(data, inodes[i]) && off + k <= inodes1[i].size
    requires File(data, inodes[i]) == Splice(File(data1, inodes1[i]), off + k, src[k..][..got])
    requires OtherFiles(data1, inodes1, data, inodes, i)
    ensures Through(data0, inodes0, data, inodes, i, off, src, k + got)
    ensures i < |inodes0| && off <= inodes0[i].size && off + k + got <= inodes[i].size <= MAXFILE * BSIZE
  {
    OtherFilesTwice(data0, inodes0, data1, inodes1, data, inodes, i);
    assert Mapped(data0, inodes0[i]);
    if off <= inodes0[i].size {
      SpliceTwice(File(data0, inodes0[i]), off, src[..k], src[k..][..got]);
      assert src[..k] + src[k..][..got] == src[..k + got];
    }
  }

  class FileSystem {
    const sb: Super
    var bits: seq<bv8>        // the bitmap blocks, one after the other
    var data: seq<Bytes>      // contents of every block, used for data and indirect blocks
    var inodes: seq<Inode>    // in memory
    var dinodes: seq<Inode>   // in the inode blocks
    ghost var owner: Owner
    ghost var logged: set<int>  // blocks passed to log_write since begin_op
    ghost var peak: nat         // the largest |logged| a log_write found
    ghost var most: nat         // the largest |logged| at an end_op

    ghost predicate Valid()
      reads this
    {
      && Owned(sb, bits, data, inodes, owner)
      && AllMapped(data, inodes)
      && |dinodes| == |inodes|
    }

    constructor (sb: Super, bits: seq<bv8>, data: seq<Bytes>, inodes: seq<Inode>, ghost owner: Owner)
      requires Owned(sb, bits, data, inodes, owner) && AllMapped(data, inodes)
      ensures Valid()
      ensures this.sb == sb && this.bits == bits && this.data == data && this.inodes == inodes && dinodes == inodes
    {
      this.sb, this.bits, this.data, this.inodes, this.dinodes := sb, bits, data, inodes, inodes;
      this.owner, logged, peak, most := owner, {}, 0, 0;
    }

    /** The bitmap block that holds block b's bit. */
    function BBlock(b: nat): int {
      b / BPB + sb.bmapstart
    }

    /** The block that holds inode i. */
    function IBlock(i: nat): int {
      i / IPB + sb.inodestart
    }

    /** begin_op and end_op, as far as the operation's own count of blocks goes. */
    method BeginOp()
      modifies `logged
      ensures logged == {}
    {
      logged := {};
    }

    method EndOp()
      modifies `most
      ensures most == Max(old(most), |logged|)
    {
      most := Max(most, |logged|);
    }

    method LogWrite(b: int)
      modifies `logged, `peak
      ensures logged == old(logged) + {b}
      ensures peak == Max(old(peak), |old(logged)|)
    {
      peak := Max(peak, |logged|);
      logged := logged + {b};
    }

    method Bzero(b: nat)
      requires b < |data|
      modifies `data, `logged, `peak
      ensures data == old(data)[b := Zeroed()]
      ensures logged == old(logged) + {b as int}
      ensures peak == Max(old(peak), |old(logged)|)
    {
      data := data[b := Zeroed()];
      LogWrite(b);
    }

    /** Takes the first free block, marks it, zeroes it; 0 only when there is none. */
    method Balloc() returns (r: nat)
      requires Owned(sb, bits, data, inodes, owner)
      modifies `bits, `data, `logged, `peak
      ensures |bits| == |old(bits)|
      ensures r == 0 ==> Full(sb, bits)
      ensures r == 0 ==> bits == old(bits) && data == old(data) && logged == old(logged) && peak == old(peak)
      ensures r != 0 ==> r < sb.size && !Bit(old(bits), r) && forall c :: 0 <= c < r ==> Bit(old(bits), c)
      ensures r != 0 ==> bits == SetBit(old(bits), r) && data == old(data)[r := Zeroed()]
      ensures r != 0 ==> logged == old(logged) + {BBlock(r), r as int}
      ensures |old(logged)| <= |logged| && old(peak) <= peak <= Max(old(peak), |logged|)
    {
      var b := 0;
      while b < sb.size
        invariant b % BPB == 0
        invariant forall c :: 0 <= c < b && c < sb.size ==> Bit(bits, c)
      {
        var bi := 0;
        while bi < BPB && b + bi < sb.size
          invariant bi <= BPB && b + bi <= sb.size
          invariant forall c :: 0 <= c < b + bi ==> Bit(bits, c)
        {
          if !Bit(bits, b + bi) {
            r := b + bi;
            assert BlockOk(sb, bits, data, inodes, owner, 0);
            bits := SetBit(bits, r);
            LogWrite(BBlock(r));
            Bzero(r);
            Grows(old(logged), BBlock(r), r);
            return;
          }
          bi := bi + 1;
        }
        b := b + BPB;
      }
      r := 0;
    }

    /** Clears a block's bit. Callers show the block is marked, so the panic cannot happen. */
    method Bfree(b: nat)
      requires b < sb.size <= 8 * |bits| && Bit(bits, b)
      modifies `bits, `logged, `peak
      ensures bits == ClearBit(old(bits), b)
      ensures logged == old(logged) + {BBlock(b)}
      ensures peak == Max(old(peak), |old(logged)|)
    {
      if !Bit(bits, b) {
        assert false;   // panic: freeing free block
      }
      bits := ClearBit(bits, b);
      LogWrite(BBlock(b));
    }

    method Iupdate(i: nat)
      requires i < |inodes| == |dinodes|
      modifies `dinodes, `logged, `peak
      ensures dinodes == old(dinodes)[i := inodes[i]]
      ensures logged == old(logged) + {IBlock(i)}
      ensures peak == Max(old(peak), |old(logged)|)
    {
      dinodes := dinodes[i := inodes[i]];
      LogWrite(IBlock(i));
    }

    /** Inode i's indirect block is among the blocks this operation has logged. */
    ghost predicate IndLogged(i: nat)
      requires i < |inodes| && |inodes[i].addrs| == NDIRECT + 1
      reads this
    {
      inodes[i].addrs[NDIRECT] != 0 && inodes[i].addrs[NDIRECT] in logged
    }

    /** Room an operation has used, not counting the two blocks that a new indirect block may cost. */
    ghost function Used(i: nat): int
      requires i < |inodes| && |inodes[i].addrs| == NDIRECT + 1
      reads this
    {
      |logged| - if IndLogged(i) then 2 else 0
    }

    /** Fills an empty direct slot or the indirect slot with a fresh block. */
    method FillAddr(i: nat, k: nat) returns (addr: nat)
      requires Valid() && i < |inodes| && k <= NDIRECT && inodes[i].addrs[k] == 0
      modifies `bits, `data, `inodes, `owner, `logged, `peak
      ensures Valid()
      ensures addr == 0 ==> Full(sb, bits) && unchanged(this)
      ensures addr != 0 ==> inodes == SetAddr(old(inodes), i, k, addr) && addr as int in logged
      ensures Grown(old(data), old(inodes), data, inodes, i)
      ensures k == NDIRECT && addr != 0 ==> forall l :: NDIRECT < l < NSLOTS ==> Slot(data, inodes[i], l) == 0
      ensures Used(i) <= old(Used(i)) + if addr != 0 && k != NDIRECT then 2 else 0
      ensures |old(logged)| <= |logged| && old(peak) <= peak <= Max(old(peak), |logged|)
    {
      addr := Balloc();
      if addr != 0 {
        AllocDirect(sb, old(bits), old(data), inodes, owner, i, k, addr);
        GrownByOne(old(data), inodes, data, SetAddr(inodes, i, k, addr), i, k);
        TwoMore(old(logged), BBlock(addr), addr);
        inodes := SetAddr(inodes, i, k, addr);
        owner := owner[addr := (i, k)];
      }
    }

    /** Fills an empty entry of the indirect block with a fresh block. */
    method FillEntry(i: nat, e: nat) returns (addr: nat)
      requires Valid() && i < |inodes| && e < NINDIRECT
      requires inodes[i].addrs[NDIRECT] != 0 && Slot(data, inodes[i], NDIRECT + 1 + e) == 0
      modifies `bits, `data, `owner, `logged, `peak
      ensures Valid()
      ensures addr == 0 ==> Full(sb, bits) && unchanged(this)
      ensures addr != 0 ==> addr as int in logged
      ensures addr == Slot(data, inodes[i], NDIRECT + 1 + e)
      ensures Grown(old(data), inodes, data, inodes, i)
      ensures Used(i) <= old(Used(i)) + if addr != 0 then 2 else 0
      ensures |old(logged)| <= |logged| && old(peak) <= peak <= Max(old(peak), |logged|)
    {
      var ind := inodes[i].addrs[NDIRECT];
      addr := Balloc();
      if addr != 0 {
        EntryFilled(sb, old(bits), old(data), inodes, owner, i, e, addr);
        ThreeMore(old(logged), BBlock(addr), addr, ind);
        data := SetEntry(data, ind, e, addr);
        owner := owner[addr := (i, NDIRECT + 1 + e)];
        LogWrite(ind);
      }
    }

    /** The block that slot FileSlot(bn) of inode i names, allocated if there is none yet.
        Zero means the disk is full, and then no block has been lost. */
    method Bmap(i: nat, bn: nat) returns (addr: nat)
      requires Valid() && i < |inodes| && bn < MAXFILE
      modifies `bits, `data, `inodes, `owner, `logged, `peak
      ensures Valid()
      ensures |inodes| == |old(inodes)|
      ensures addr == Slot(data, inodes[i], FileSlot(bn))
      ensures old(Slot(data, inodes[i], FileSlot(bn))) != 0 ==> unchanged(this)
      ensures addr == 0 ==> Full(sb, bits)
      ensures Grown(old(data), old(inodes), data, inodes, i)
      ensures addr != 0 && old(Slot(data, inodes[i], FileSlot(bn))) == 0 ==> addr as int in logged
      ensures Used(i) <= old(Used(i)) + if addr != 0 && old(Slot(data, inodes[i], FileSlot(bn))) == 0 then 2 else 0
      ensures |old(logged)| <= |logged| && old(peak) <= peak <= Max(old(peak), |logged|)
    {
      assert SlotOk(data, inodes, owner, i, FileSlot(bn));
      if bn < NDIRECT {
        addr := inodes[i].addrs[bn];
        if addr == 0 {
          addr := FillAddr(i, bn);
        }
        return;
      }
      var e := bn - NDIRECT;
      var ind := inodes[i].addrs[NDIRECT];
      if ind == 0 {
        ind := FillAddr(i, NDIRECT);
        if ind == 0 {
          return 0;
        }
      }
      ghost var data1, inodes1, logged1 := data, inodes, logged;
      assert SlotOk(data, inodes, owner, i, FileSlot(bn));
      addr := Word(data[ind], e);
      if addr == 0 {
        addr := FillEntry(i, e);
        GrownTwice(old(data), old(inodes), data1, inodes1, data, inodes, i);
      }
    }

    /** One turn of writei's loop: put `chunk` at position `at`. Zero means the disk is full; `copied` says whether
        the user's bytes can be copied in. */
    method WriteChunk(i: nat, at: nat, chunk: Bytes, copied: bool) returns (addr: nat)
      requires Valid() && i < |inodes| && at / BSIZE < MAXFILE && at % BSIZE + |chunk| <= BSIZE
      modifies `bits, `data, `inodes, `owner, `logged, `peak
      ensures Valid()
      ensures Others(old(data), old(inodes), data, inodes, i)
      ensures StampedAll(old(data), old(inodes)[i], data, inodes[i], at, if addr == 0 || !copied then [] else chunk)
      ensures addr == Slot(data, inodes[i], FileSlot(at / BSIZE))
      ensures addr == 0 ==> Full(sb, bits)
      ensures Used(i) <= old(Used(i)) +
        if addr == 0 then 0 else if old(Slot(data, inodes[i], FileSlot(at / BSIZE))) != 0 then 1 else 2
      ensures |old(logged)| <= |logged| && old(peak) <= peak <= Max(old(peak), |logged|)
    {
      addr := Bmap(i, at / BSIZE);
      if addr != 0 && copied {
        ChunkWritten(sb, bits, old(data), old(inodes), data, inodes, owner, i, at, chunk);
        data := data[addr := Splice(data[addr], at % BSIZE, chunk)];
        GrowsByOne(logged, addr);
        LogWrite(addr);
      } else {
        NothingWritten(old(data), old(inodes), data, inodes, i, at);
      }
    }

    /** writei's loop. */
    method WriteBlocks(i: nat, src: Bytes, good: nat, off: nat, n: nat) returns (tot: nat)
      requires Valid() && i < |inodes| && n <= |src| && off <= inodes[i].size && off + n <= MAXFILE * BSIZE
      modifies `bits, `data, `inodes, `owner, `logged, `peak
      ensures Valid()
      ensures tot <= n && tot <= good && (tot < n ==> Full(sb, bits) || good < n)
      ensures Progress(old(data), old(inodes), data, inodes, i, off, src, tot)
      ensures Used(i) <= old(Used(i)) + Cost(off, n)
      ensures peak <= old(peak) || peak <= old(Used(i)) + Cost(off, n) + 2
    {
      hide SlotOk, BlockOk, AllMapped, Cost, Progress, StampedAll;
      ProgressStart(data, inodes, i, off, src);
      tot := 0;
      var at := off;
      while tot < n
        invariant 0 <= tot <= n && tot <= good && at == off + tot && Valid()
        invariant tot == 0 || tot == n || at % BSIZE == 0
        invariant Progress(old(data), old(inodes), data, inodes, i, off, src, tot)
        invariant tot == 0 && off % BSIZE != 0 ==> Slot(data, inodes[i], FileSlot(off / BSIZE)) != 0
        invariant Used(i) <= old(Used(i)) + Cost(off, tot)
        invariant peak <= old(peak) || peak <= old(Used(i)) + Cost(off, tot) + 2
      {
        ghost var data1, inodes1, used, cost := data, inodes, Used(i), Cost(off, tot);
        ghost var inside := tot == 0 && off % BSIZE != 0;
        var m := Min(n - tot, BSIZE - at % BSIZE);
        CostStep(off, tot, n);
        assert Cost(off, tot + m) == cost + if inside then 1 else 2;
        var chunk := src[tot..tot + m];
        var copied := tot + m <= good;
        var addr := WriteChunk(i, at, chunk, copied);
        assert Used(i) <= used + if addr == 0 then 0 else if inside then 1 else 2;
        ghost var done := if addr == 0 || !copied then 0 else m;
        assert src[tot..tot + done] == if addr == 0 || !copied then [] else chunk;
        ProgressStep(old(data), old(inodes), data1, inodes1, data, inodes, i, off, src, tot, done);
        CostRises(off, tot + m, n);
        if addr == 0 {
          break;
        }
        if !copied {
          return;
        }
        tot := tot + m;
        at := at + m;
      }
      CostRises(off, tot, n);
    }

    /** Writes src[..n] at `off`; tot is how many bytes went in, -1 if the range is not allowed. The first `good`
        bytes of src can be copied in; a copy fails or succeeds as a whole. */
    method Writei(i: nat, src: Bytes, good: nat, off: nat, n: nat) returns (tot: int)
      requires Valid() && i < |inodes| && n <= |src| && off < UINT && n < UINT
      modifies `bits, `data, `inodes, `dinodes, `owner, `logged, `peak
      ensures Valid() && |inodes| == |old(inodes)|
      ensures tot == -1 <==> off > old(inodes[i].size) || off + n >= UINT || off + n > MAXFILE * BSIZE
      ensures tot == -1 ==> unchanged(this)
      ensures tot != -1 ==> 0 <= tot <= n && tot <= good && (tot < n ==> Full(sb, bits) || good < n)
      ensures tot != -1 ==> File(data, inodes[i]) == Splice(old(File(data, inodes[i])), off, src[..tot])
      ensures tot != -1 ==> OtherFiles(old(data), old(inodes), data, inodes, i)
      ensures tot != -1 ==> dinodes == old(dinodes)[i := inodes[i]]
      ensures tot != -1 ==> |logged| <= old(Used(i)) + Cost(off, n) + 3
      ensures peak <= old(peak) || (tot != -1 && peak <= old(Used(i)) + Cost(off, n) + 2)
    {
      assert Mapped(data, inodes[i]);
      if off > inodes[i].size || (off + n) % UINT < off {
        return -1;
      }
      if off + n > MAXFILE * BSIZE {
        return -1;
      }
      tot := WriteBlocks(i, src, good, off, n);
      var at := off + tot;
      ProgressEnd(sb, bits, old(data), old(inodes), data, inodes, owner, i, off, src, tot);
      if at > inodes[i].size {
        inodes := inodes[i := inodes[i].(size := at)];
      }
      GrowsByOne(logged, IBlock(i));
      Iupdate(i);
    }

    /** Reads up to n bytes at `off`; dst is what has been copied out. Nothing is ever allocated on the way. The
        first `good` bytes can be copied out; a copy fails or succeeds as a whole, and -1 means it failed. */
    method Readi(i: nat, off: nat, n: nat, good: nat) returns (tot: int, dst: Bytes)
      requires Valid() && i < |inodes| && off < UINT && n < UINT
      modifies `bits, `data, `inodes, `owner, `logged, `peak
      ensures Valid() && unchanged(this) && |dst| <= good && (tot == -1 || tot == |dst|)
      ensures off > inodes[i].size || off + n >= UINT ==> tot == 0
      ensures off <= inodes[i].size && off + n < UINT ==>
        var end := Min(off + n, inodes[i].size);
        (tot == -1 <==> good < end - off) && off + |dst| <= end
        && dst == File(data, inodes[i])[off..if tot == -1 then off + |dst| else end]
    {
      tot, dst := 0, [];
      assert Mapped(data, inodes[i]);
      if off > inodes[i].size || (off + n) % UINT < off {
        return;
      }
      var left, at := n, off;
      if off + n > inodes[i].size {
        left := inodes[i].size - off;
      }
      while tot < left
        invariant 0 <= tot <= left && tot <= good && at == off + tot && |dst| == tot
        invariant unchanged(this)
        invariant dst == File(data, inodes[i])[off..at]
      {
        PageIsBlock(sb, bits, data, inodes, owner, i, at / BSIZE);
        var addr := Bmap(i, at / BSIZE);
        if addr == 0 {
          break;
        }
        var m := Min(left - tot, BSIZE - at % BSIZE);
        ReadStep(data, inodes[i], off, at, m);
        if tot + m > good {
          tot := -1;
          break;
        }
        dst := dst + data[addr][at % BSIZE..at % BSIZE + m];
        tot := tot + m;
        at := at + m;
      }
    }

    /** itrunc's loop over the direct slots. */
    method TruncDirect(i: nat)
      requires Owned(sb, bits, data, inodes, owner) && i < |inodes|
      modifies `bits, `inodes, `owner, `logged, `peak
      ensures Owned(sb, bits, data, inodes, owner)
      ensures i < |inodes| && inodes == old(inodes)[i := inodes[i]]
      ensures inodes[i].addrs[NDIRECT] == old(inodes)[i].addrs[NDIRECT]
      ensures forall k :: 0 <= k < NDIRECT ==> inodes[i].addrs[k] == 0
      ensures Dropped(old(owner), owner, i)
    {
      hide SlotOk, BlockOk;
      var k := 0;
      while k < NDIRECT
        invariant k <= NDIRECT && Owned(sb, bits, data, inodes, owner)
        invariant i < |inodes| && inodes == old(inodes)[i := inodes[i]]
        invariant inodes[i].addrs[NDIRECT] == old(inodes)[i].addrs[NDIRECT]
        invariant forall l :: 0 <= l < k ==> inodes[i].addrs[l] == 0
        invariant Dropped(old(owner), owner, i)
      {
        if inodes[i].addrs[k] != 0 {
          var b := inodes[i].addrs[k];
          FreeAddr(sb, bits, data, inodes, owner, i, k);
          Bfree(b);
          inodes := SetAddr(inodes, i, k, 0);
          DropOne(old(owner), owner, i, b);
          owner := owner - {b};
        }
        k := k + 1;
      }
    }

    /** itrunc's loop over the entries of the indirect block, and the release of that block. The entries
        themselves are never cleared; `freed` is what the block would hold if they were. */
    method TruncIndirect(i: nat)
      requires Owned(sb, bits, data, inodes, owner) && i < |inodes| && inodes[i].addrs[NDIRECT] != 0
      modifies `bits, `inodes, `owner, `logged, `peak
      ensures Owned(sb, bits, data, inodes, owner)
      ensures inodes == SetAddr(old(inodes), i, NDIRECT, 0)
      ensures Dropped(old(owner), owner, i)
    {
      hide SlotOk, BlockOk;
      var ind := inodes[i].addrs[NDIRECT];
      var a := data[ind];
      ghost var freed := a;
      assert data[ind := freed] == data;
      var j := 0;
      while j < NINDIRECT
        invariant j <= NINDIRECT && inodes == old(inodes)
        invariant |freed| == BSIZE && ClearedBelow(a, freed, j)
        invariant Owned(sb, bits, data[ind := freed], inodes, owner)
        invariant Dropped(old(owner), owner, i)
      {
        ClearOne(a, freed, j);
        if Word(a, j) != 0 {
          var b := Word(a, j);
          ghost var now := data[ind := freed];
          FreeEntry(sb, bits, now, inodes, owner, i, j);
          Bfree(b);
          freed := SetWord(freed, j, 0);
          assert SetEntry(now, ind, j, 0) == data[ind := freed];
          DropOne(old(owner), owner, i, b);
          owner := owner - {b};
        }
        j := j + 1;
      }
      ghost var now := data[ind := freed];
      forall l | NDIRECT < l < NSLOTS ensures Slot(now, inodes[i], l) == 0 {
        assert ClearedAt(a, freed, j, l - NDIRECT - 1);
      }
      FreeAddr(sb, bits, now, inodes, owner, i, NDIRECT);
      BitsChange(bits, ind, ind);
      Bfree(ind);
      inodes := SetAddr(inodes, i, NDIRECT, 0);
      DropOne(old(owner), owner, i, ind);
      owner := owner - {ind};
      ForgetBlock(sb, bits, now, inodes, owner, ind, a);
      assert now[ind := a] == data;
    }

    /** Empties inode i: its blocks become free, no other file or bit changes. */
    method Itrunc(i: nat)
      requires Valid() && i < |inodes|
      modifies `bits, `inodes, `dinodes, `owner, `logged, `peak
      ensures Valid()
      ensures inodes == old(inodes)[i := Empty()] && dinodes == old(dinodes)[i := Empty()]
      ensures forall b: nat :: b < sb.size ==>
        (Bit(bits, b) <==> Bit(old(bits), b) && !exists k: nat :: Holds(data, old(inodes), i, k, b))
    {
      TruncDirect(i);
      if inodes[i].addrs[NDIRECT] != 0 {
        ghost var mid := owner;
        TruncIndirect(i);
        DropTwice(old(owner), mid, owner, i);
      }
      assert inodes[i].addrs == Empty().addrs;
      EmptyFile(sb, bits, data, old(inodes), inodes, owner, i);
      inodes := inodes[i := inodes[i].(size := 0)];
      forall b: nat | b < sb.size
        ensures Bit(bits, b) <==> Bit(old(bits), b) && !exists k: nat :: Holds(data, old(inodes), i, k, b)
      {
        TruncatedBits(sb, old(bits), data, old(inodes), old(owner), bits, inodes, owner, i, b);
      }
      Iupdate(i);
    }

    /** file.c's filewrite on an inode: chunks of at most three blocks, one operation each. `pos` is the
        file's offset afterwards; r is n if everything was written and -1 otherwise. The first `good` bytes of
        src can be copied in. */
    method FileWrite(writable: bool, i: nat, src: Bytes, good: nat, off: nat, n: int) returns (r: int, pos: nat)
      requires Valid() && i < |inodes| && n <= |src| && off < UINT && n < UINT
      modifies this
      ensures Valid() && |inodes| == |old(inodes)|
      ensures !writable ==> r == -1 && pos == off && unchanged(this)
      ensures off <= pos && (r == n || r == -1) && (n >= 0 ==> pos <= off + n) && (n < 0 ==> pos == off)
      ensures writable && n >= 0 ==> (r == n <==> pos == off + n)
      ensures Through(old(data), old(inodes), data, inodes, i, off, src, pos - off)
      ensures writable && 0 <= n && r != n ==>
        Full(sb, bits) || good < n || off > old(inodes[i].size) || off + n > MAXFILE * BSIZE
      ensures most <= Max(old(most), MAXOPBLOCKS)
      ensures peak <= Max(old(peak), MAXOPBLOCKS - 1)
    {
      hide SlotOk, BlockOk, OtherFiles, Cost, Full, Splice, File, Through;
      var max := (MAXOPBLOCKS - 1 - 1 - 2) / 2 * BSIZE;
      var k := 0;
      pos := off;
      ThroughStart(data, inodes, i, off, src);
      if !writable {
        return -1, pos;
      }
      while k < n
        invariant 0 <= k && (n >= 0 ==> k <= n) && (n < 0 ==> k == 0)
        invariant pos == off + k && pos < UINT && Valid()
        invariant Through(old(data), old(inodes), data, inodes, i, off, src, k)
        invariant |inodes| == |old(inodes)|
        invariant if k == 0 then inodes[i] == old(inodes)[i] else off <= old(inodes)[i].size && pos <= inodes[i].size
        invariant most <= Max(old(most), MAXOPBLOCKS) && peak <= Max(old(peak), MAXOPBLOCKS - 1)
      {
        ghost var data1, inodes1 := data, inodes;
        var n1 := Min(n - k, max);
        BeginOp();
        assert Mapped(data, inodes[i]);
        var got := Writei(i, src[k..], if k <= good then good - k else 0, pos, n1);
        if got > 0 {
          pos := pos + got;
        }
        EndOp();
        if got >= 0 {
          assert Mapped(data, inodes[i]);
          ChunkCost(off + k, n1, n1);
          ThroughStep(old(data), old(inodes), data1, inodes1, data, inodes, i, off, src, k, got);
        }
        if got != n1 {
          break;
        }
        k := k + got;
      }
      r := if k == n then n else -1;
    }
  }
}
