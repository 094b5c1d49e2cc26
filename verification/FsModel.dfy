/** The values behind kernel/fs.c: bitmap bits, inode slots, who owns a block, what a file contains. */
module FsModel {
  import opened Params

  const BPB: nat := 8192     // bitmap bits per block
  const IPB: nat := 16       // inodes per block
  const NDIRECT: nat := 12
  const NINDIRECT: nat := 256
  const MAXFILE: nat := 268
  const NSLOTS: nat := 269   // direct slots, the indirect slot, and the indirect block's entries

  /** The superblock fields fs.c uses; blocks from `datastart` on are data blocks. */
  datatype Super = Super(size: nat, bmapstart: nat, inodestart: nat, datastart: nat)

  /** The part of an inode that bmap, itrunc, readi and writei touch. */
  datatype Inode = Inode(size: nat, addrs: seq<int>)

  type Bytes = seq<int>

  // ----- the free bitmap

  /** 1 << i, for a bit position in a byte. */
  function Mask(i: nat): bv8
    requires i < 8
  {
    if i == 0 then 1 else if i == 1 then 2 else if i == 2 then 4 else if i == 3 then 8
    else if i == 4 then 16 else if i == 5 then 32 else if i == 6 then 64 else 128
  }

  predicate Has(x: bv8, i: nat)
    requires i < 8
  {
    x & Mask(i) != 0
  }

  function With(x: bv8, i: nat): bv8
    requires i < 8
  {
    x | Mask(i)
  }

  function Without(x: bv8, i: nat): bv8
    requires i < 8
  {
    x & !Mask(i)
  }

  lemma ByteBits(x: bv8, i: nat, j: nat)
    requires i < 8 && j < 8
    ensures Has(With(x, i), j) == (i == j || Has(x, j))
    ensures Has(Without(x, i), j) == (i != j && Has(x, j))
  {
  }

  predicate Bit(bits: seq<bv8>, b: nat)
    requires b / 8 < |bits|
  {
    Has(bits[b / 8], b % 8)
  }

  function SetBit(bits: seq<bv8>, b: nat): (r: seq<bv8>)
    requires b / 8 < |bits|
    ensures |r| == |bits|
  {
    bits[b / 8 := With(bits[b / 8], b % 8)]
  }

  function ClearBit(bits: seq<bv8>, b: nat): (r: seq<bv8>)
    requires b / 8 < |bits|
    ensures |r| == |bits|
  {
    bits[b / 8 := Without(bits[b / 8], b % 8)]
  }

  lemma SameByteBits(b: nat, c: nat)
    requires b / 8 == c / 8
    ensures b % 8 == c % 8 <==> b == c
  {
  }

  /** Marking and freeing a block change its own bit and no other. */
  lemma BitsChange(bits: seq<bv8>, b: nat, c: nat)
    requires b / 8 < |bits| && c / 8 < |bits|
    ensures Bit(SetBit(bits, b), c) == (c == b || Bit(bits, c))
    ensures Bit(ClearBit(bits, b), c) == (c != b && Bit(bits, c))
  {
    if b / 8 == c / 8 {
      SameByteBits(b, c);
      ByteBits(bits[b / 8], b % 8, c % 8);
    } else {
      assert SetBit(bits, b)[c / 8] == bits[c / 8] == ClearBit(bits, b)[c / 8];
    }
  }

  // ----- an indirect block as 256 little-endian words

  function Word(blk: Bytes, j: nat): int
    requires 4 * j + 3 < |blk|
  {
    blk[4 * j] + 256 * blk[4 * j + 1] + 65536 * blk[4 * j + 2] + 16777216 * blk[4 * j + 3]
  }

  function SetWord(blk: Bytes, j: nat, v: nat): (r: Bytes)
    requires 4 * j + 3 < |blk|
    ensures |r| == |blk|
  {
    blk[4 * j := v % 256][4 * j + 1 := v / 256 % 256][4 * j + 2 := v / 65536 % 256][4 * j + 3 := v / 16777216]
  }

  lemma WordRoundTrip(blk: Bytes, j: nat, v: nat, l: nat)
    requires 4 * j + 3 < |blk| && 4 * l + 3 < |blk|
    ensures Word(SetWord(blk, j, v), l) == if l == j then v else Word(blk, l)
  {
    assert v == v % 256 + 256 * (v / 256) && v / 256 / 256 == v / 65536 && v / 65536 / 256 == v / 16777216;
  }

  function Zeroed(): (blk: Bytes)
    ensures |blk| == BSIZE && forall j :: 0 <= j < BSIZE ==> blk[j] == 0
  {
    seq(BSIZE, _ => 0)
  }

  // ----- slots

  predicate InodeOk(data: seq<Bytes>, ip: Inode) {
    && |ip.addrs| == NDIRECT + 1
    && 0 <= ip.addrs[NDIRECT] < |data| && |data[ip.addrs[NDIRECT]]| == BSIZE
  }

  /** Slot k of an inode: 0..11 direct, 12 the indirect block, 13.. the entries of that block. */
  function Slot(data: seq<Bytes>, ip: Inode, k: nat): int
    requires InodeOk(data, ip) && k < NSLOTS
  {
    if k <= NDIRECT then ip.addrs[k]
    else if ip.addrs[NDIRECT] == 0 then 0
    else Word(data[ip.addrs[NDIRECT]], k - NDIRECT - 1)
  }

  /** The slot of a file's n-th block. */
  function FileSlot(bn: nat): (k: nat)
    requires bn < MAXFILE
    ensures k < NSLOTS && k != NDIRECT
  {
    if bn < NDIRECT then bn else bn + 1
  }

  // ----- what a file contains

  /** Block bn of a file; one that is not there yet reads as the zeros balloc would put in it. */
  function Page(data: seq<Bytes>, ip: Inode, bn: nat): (page: Bytes)
    requires InodeOk(data, ip) && bn < MAXFILE
    ensures |page| == BSIZE
  {
    var v := Slot(data, ip, FileSlot(bn));
    if 0 < v < |data| && |data[v]| == BSIZE then data[v] else Zeroed()
  }

  function ByteAt(data: seq<Bytes>, ip: Inode, p: nat): int
    requires InodeOk(data, ip) && p / BSIZE < MAXFILE
  {
    Page(data, ip, p / BSIZE)[p % BSIZE]
  }

  /** The file as a byte sequence. */
  function File(data: seq<Bytes>, ip: Inode): (f: Bytes)
    requires InodeOk(data, ip) && ip.size <= MAXFILE * BSIZE
    ensures |f| == ip.size
  {
    seq(ip.size, p requires 0 <= p < ip.size => ByteAt(data, ip, p))
  }

  predicate SamePage(data: seq<Bytes>, inodes: seq<Inode>, data': seq<Bytes>, inodes': seq<Inode>, j: nat, bn: nat)
    requires j < |inodes| == |inodes'| && InodeOk(data, inodes[j]) && InodeOk(data', inodes'[j]) && bn < MAXFILE
  {
    Page(data', inodes'[j], bn) == Page(data, inodes[j], bn)
  }

  /** No block of any file differs between the two states, except block m of file i. */
  ghost predicate SamePagesBut(data: seq<Bytes>, inodes: seq<Inode>, data': seq<Bytes>, inodes': seq<Inode>, i: int,
                               m: int)
    requires forall j :: 0 <= j < |inodes| ==> InodeOk(data, inodes[j])
    requires forall j :: 0 <= j < |inodes'| ==> InodeOk(data', inodes'[j])
  {
    && |inodes'| == |inodes|
    && (forall j, bn :: 0 <= j < |inodes| && 0 <= bn < MAXFILE && !(j == i && bn == m) ==>
          SamePage(data, inodes, data', inodes', j, bn))
  }

  ghost predicate SamePages(data: seq<Bytes>, inodes: seq<Inode>, data': seq<Bytes>, inodes': seq<Inode>)
    requires forall j :: 0 <= j < |inodes| ==> InodeOk(data, inodes[j])
    requires forall j :: 0 <= j < |inodes'| ==> InodeOk(data', inodes'[j])
  {
    SamePagesBut(data, inodes, data', inodes', -1, -1)
  }

  /** Every block below the size is there. */
  ghost predicate Mapped(data: seq<Bytes>, ip: Inode)
    requires InodeOk(data, ip)
  {
    && ip.size <= MAXFILE * BSIZE
    && (forall bn :: 0 <= bn < MAXFILE ==> MappedAt(data, ip, bn))
  }

  predicate MappedAt(data: seq<Bytes>, ip: Inode, bn: nat)
    requires InodeOk(data, ip) && bn < MAXFILE
  {
    bn * BSIZE < ip.size ==> Slot(data, ip, FileSlot(bn)) != 0
  }

  // ----- who owns a block

  type Owner = map<int, (nat, nat)>

  ghost predicate Shape(sb: Super, bits: seq<bv8>, data: seq<Bytes>, inodes: seq<Inode>) {
    && 0 < sb.datastart <= sb.size && sb.size <= 8 * |bits| && |data| == sb.size
    && (forall b :: 0 <= b < sb.size ==> |data[b]| == BSIZE)
    && (forall i :: 0 <= i < |inodes| ==> InodeOk(data, inodes[i]))
  }

  /** Slot (i, k) is empty or its block is recorded as its own. */
  ghost predicate SlotOk(data: seq<Bytes>, inodes: seq<Inode>, owner: Owner, i: nat, k: nat)
    requires i < |inodes| && InodeOk(data, inodes[i]) && k < NSLOTS
  {
    var v := Slot(data, inodes[i], k);
    v == 0 || (v in owner && owner[v] == (i, k))
  }

  /** Block b is marked in use exactly if it is metadata or owned, and an owned block is in its slot. */
  ghost predicate BlockOk(sb: Super, bits: seq<bv8>, data: seq<Bytes>, inodes: seq<Inode>, owner: Owner, b: int)
    requires Shape(sb, bits, data, inodes) && 0 <= b < sb.size
  {
    && Bit(bits, b) == (b < sb.datastart || b in owner)
    && (b in owner ==>
          var (i, k) := owner[b];
          sb.datastart <= b && i < |inodes| && k < NSLOTS && Slot(data, inodes[i], k) == b)
  }

  ghost predicate Owned(sb: Super, bits: seq<bv8>, data: seq<Bytes>, inodes: seq<Inode>, owner: Owner) {
    && Shape(sb, bits, data, inodes)
    && (forall b :: b in owner ==> 0 <= b < sb.size)
    && (forall b :: 0 <= b < sb.size ==> BlockOk(sb, bits, data, inodes, owner, b))
    && (forall i, k :: 0 <= i < |inodes| && 0 <= k < NSLOTS ==> SlotOk(data, inodes, owner, i, k))
  }

  /** Block b sits in slot (i, k). */
  predicate Holds(data: seq<Bytes>, inodes: seq<Inode>, i: nat, k: nat, b: int) {
    i < |inodes| && k < NSLOTS && InodeOk(data, inodes[i]) && b != 0 && Slot(data, inodes[i], k) == b
  }

  lemma HeldIsOwned(sb: Super, bits: seq<bv8>, data: seq<Bytes>, inodes: seq<Inode>, owner: Owner, i: nat, k: nat,
                    b: int)
    requires Owned(sb, bits, data, inodes, owner) && Holds(data, inodes, i, k, b)
    ensures b in owner && owner[b] == (i, k) && sb.datastart <= b < sb.size && Bit(bits, b)
  {
    assert SlotOk(data, inodes, owner, i, k);
    assert BlockOk(sb, bits, data, inodes, owner, b);
  }

  /** The ownership invariant without the bookkeeping map: a block's bit is set iff the block is metadata
      or sits in a slot of an inode. */
  lemma BitMeaning(sb: Super, bits: seq<bv8>, data: seq<Bytes>, inodes: seq<Inode>, owner: Owner, b: int)
    requires Owned(sb, bits, data, inodes, owner) && 0 <= b < sb.size
    ensures Bit(bits, b) <==> b < sb.datastart || exists i: nat, k: nat :: Holds(data, inodes, i, k, b)
  {
    assert BlockOk(sb, bits, data, inodes, owner, b);
    if b in owner {
      assert Holds(data, inodes, owner[b].0, owner[b].1, b);
    }
    forall i: nat, k: nat | Holds(data, inodes, i, k, b) ensures b in owner {
      HeldIsOwned(sb, bits, data, inodes, owner, i, k, b);
    }
  }

  /** No block sits in two slots, and only data blocks sit in slots. */
  lemma HeldOnce(sb: Super, bits: seq<bv8>, data: seq<Bytes>, inodes: seq<Inode>, owner: Owner,
                 i: nat, k: nat, j: nat, l: nat, b: int)
    requires Owned(sb, bits, data, inodes, owner)
    requires Holds(data, inodes, i, k, b) && Holds(data, inodes, j, l, b)
    ensures i == j && k == l && sb.datastart <= b < sb.size
  {
    HeldIsOwned(sb, bits, data, inodes, owner, i, k, b);
    HeldIsOwned(sb, bits, data, inodes, owner, j, l, b);
  }

  // ----- how a step changes slots

  /** Slot l of inode j is the same in both states. */
  predicate SameSlot(data: seq<Bytes>, inodes: seq<Inode>, data': seq<Bytes>, inodes': seq<Inode>, j: nat, l: nat)
    requires j < |inodes| == |inodes'| && InodeOk(data, inodes[j]) && InodeOk(data', inodes'[j]) && l < NSLOTS
  {
    Slot(data', inodes'[j], l) == Slot(data, inodes[j], l)
  }

  ghost predicate SameSlotsBut(data: seq<Bytes>, inodes: seq<Inode>, data': seq<Bytes>, inodes': seq<Inode>, i: int,
                               k: int)
    requires forall j :: 0 <= j < |inodes| ==> InodeOk(data, inodes[j])
    requires forall j :: 0 <= j < |inodes'| ==> InodeOk(data', inodes'[j])
  {
    && |inodes'| == |inodes|
    && (forall j, l :: 0 <= j < |inodes| && 0 <= l < NSLOTS && !(j == i && l == k) ==>
          SameSlot(data, inodes, data', inodes', j, l))
  }

  /** Filling slot (i, k) with a block whose bit was clear keeps ownership exclusive. */
  lemma FillSlot(sb: Super, bits: seq<bv8>, data: seq<Bytes>, inodes: seq<Inode>, owner: Owner,
                 data': seq<Bytes>, inodes': seq<Inode>, i: nat, k: nat, b: int)
    requires Owned(sb, bits, data, inodes, owner)
    requires 0 <= b < sb.size && !Bit(bits, b) && i < |inodes| && k < NSLOTS
    requires Shape(sb, SetBit(bits, b), data', inodes')
    requires SameSlotsBut(data, inodes, data', inodes', i, k)
    requires Slot(data, inodes[i], k) == 0 && Slot(data', inodes'[i], k) == b
    ensures Owned(sb, SetBit(bits, b), data', inodes', owner[b := (i, k)])
  {
    var bits', owner' := SetBit(bits, b), owner[b := (i, k)];
    assert BlockOk(sb, bits, data, inodes, owner, b);
    forall c | 0 <= c < sb.size ensures BlockOk(sb, bits', data', inodes', owner', c) {
      BitsChange(bits, b, c);
      assert BlockOk(sb, bits, data, inodes, owner, c);
      if c != b && c in owner {
        assert SameSlot(data, inodes, data', inodes', owner[c].0, owner[c].1);
      }
    }
    forall j, l | 0 <= j < |inodes'| && 0 <= l < NSLOTS ensures SlotOk(data', inodes', owner', j, l) {
      assert SlotOk(data, inodes, owner, j, l);
      if !(j == i && l == k) {
        assert SameSlot(data, inodes, data', inodes', j, l);
      }
    }
  }

  /** Freeing the block of slot (i, k) and emptying the slot keeps ownership exact. */
  lemma EmptySlot(sb: Super, bits: seq<bv8>, data: seq<Bytes>, inodes: seq<Inode>, owner: Owner,
                  data': seq<Bytes>, inodes': seq<Inode>, i: nat, k: nat, b: int)
    requires Owned(sb, bits, data, inodes, owner)
    requires Holds(data, inodes, i, k, b) && 0 <= b < sb.size
    requires Shape(sb, ClearBit(bits, b), data', inodes')
    requires SameSlotsBut(data, inodes, data', inodes', i, k)
    requires Slot(data', inodes'[i], k) == 0
    ensures Owned(sb, ClearBit(bits, b), data', inodes', owner - {b})
  {
    var bits', owner' := ClearBit(bits, b), owner - {b};
    HeldIsOwned(sb, bits, data, inodes, owner, i, k, b);
    forall c | 0 <= c < sb.size ensures BlockOk(sb, bits', data', inodes', owner', c) {
      BitsChange(bits, b, c);
      assert BlockOk(sb, bits, data, inodes, owner, c);
      if c != b && c in owner {
        assert SameSlot(data, inodes, data', inodes', owner[c].0, owner[c].1);
      }
    }
    forall j, l | 0 <= j < |inodes'| && 0 <= l < NSLOTS ensures SlotOk(data', inodes', owner', j, l) {
      assert SlotOk(data, inodes, owner, j, l);
      if !(j == i && l == k) {
        assert SameSlot(data, inodes, data', inodes', j, l);
      }
    }
  }

  /** A step that changes no slot and no bit keeps ownership. */
  lemma KeepSlots(sb: Super, bits: seq<bv8>, data: seq<Bytes>, inodes: seq<Inode>, owner: Owner,
                  data': seq<Bytes>, inodes': seq<Inode>)
    requires Owned(sb, bits, data, inodes, owner)
    requires Shape(sb, bits, data', inodes')
    requires SameSlotsBut(data, inodes, data', inodes', -1, -1)
    ensures Owned(sb, bits, data', inodes', owner)
  {
    forall c | 0 <= c < sb.size ensures BlockOk(sb, bits, data', inodes', owner, c) {
      assert BlockOk(sb, bits, data, inodes, owner, c);
      if c in owner {
        assert SameSlot(data, inodes, data', inodes', owner[c].0, owner[c].1);
      }
    }
    forall j, l | 0 <= j < |inodes'| && 0 <= l < NSLOTS ensures SlotOk(data', inodes', owner, j, l) {
      assert SlotOk(data, inodes, owner, j, l);
      assert SameSlot(data, inodes, data', inodes', j, l);
    }
  }

  // ----- the steps of bmap, writei and itrunc

  function SetAddr(inodes: seq<Inode>, i: nat, k: nat, v: int): (r: seq<Inode>)
    requires i < |inodes| && k < |inodes[i].addrs|
    ensures |r| == |inodes|
  {
    inodes[i := inodes[i].(addrs := inodes[i].addrs[k := v])]
  }

  ghost predicate AllMapped(data: seq<Bytes>, inodes: seq<Inode>)
    requires forall j :: 0 <= j < |inodes| ==> InodeOk(data, inodes[j])
  {
    forall j :: 0 <= j < |inodes| ==> Mapped(data, inodes[j])
  }

  /** A block that is nobody's is in no slot. */
  lemma FreeInNoSlot(sb: Super, bits: seq<bv8>, data: seq<Bytes>, inodes: seq<Inode>, owner: Owner, b: int, j: nat,
                     l: nat)
    requires Owned(sb, bits, data, inodes, owner) && 0 <= b < sb.size && !Bit(bits, b)
    requires j < |inodes| && l < NSLOTS
    ensures Slot(data, inodes[j], l) != b && 0 < sb.datastart <= b && b !in owner
  {
    assert BlockOk(sb, bits, data, inodes, owner, b);
    assert SlotOk(data, inodes, owner, j, l);
  }

  /** Filling one slot leaves every mapped block mapped. */
  lemma StillMapped(data: seq<Bytes>, inodes: seq<Inode>, data': seq<Bytes>, inodes': seq<Inode>, i: int, k: int)
    requires forall j :: 0 <= j < |inodes| ==> InodeOk(data, inodes[j])
    requires forall j :: 0 <= j < |inodes'| ==> InodeOk(data', inodes'[j])
    requires SameSlotsBut(data, inodes, data', inodes', i, k)
    requires 0 <= i < |inodes| && 0 <= k < NSLOTS ==> Slot(data', inodes'[i], k) != 0
    requires AllMapped(data, inodes)
    requires forall j :: 0 <= j < |inodes| ==> inodes'[j].size == inodes[j].size
    ensures AllMapped(data', inodes')
  {
    forall j | 0 <= j < |inodes'| ensures Mapped(data', inodes'[j]) {
      assert Mapped(data, inodes[j]);
      forall bn | 0 <= bn < MAXFILE ensures MappedAt(data', inodes'[j], bn) {
        assert MappedAt(data, inodes[j], bn);
        if !(j == i && FileSlot(bn) == k) {
          assert SameSlot(data, inodes, data', inodes', j, FileSlot(bn));
        }
      }
    }
  }

  /** A fresh zeroed block put into a direct slot or the indirect slot. */
  lemma AllocDirect(sb: Super, bits: seq<bv8>, data: seq<Bytes>, inodes: seq<Inode>, owner: Owner, i: nat, k: nat,
                    b: int)
    requires Owned(sb, bits, data, inodes, owner) && AllMapped(data, inodes)
    requires 0 <= b < sb.size && !Bit(bits, b)
    requires i < |inodes| && k <= NDIRECT && inodes[i].addrs[k] == 0
    ensures Owned(sb, SetBit(bits, b), data[b := Zeroed()], SetAddr(inodes, i, k, b), owner[b := (i, k)])
    ensures AllMapped(data[b := Zeroed()], SetAddr(inodes, i, k, b))
    ensures SamePages(data, inodes, data[b := Zeroed()], SetAddr(inodes, i, k, b))
    ensures SameSlotsBut(data, inodes, data[b := Zeroed()], SetAddr(inodes, i, k, b), i, k)
  {
    var data', inodes' := data[b := Zeroed()], SetAddr(inodes, i, k, b);
    forall j | 0 <= j < |inodes'| ensures InodeOk(data', inodes'[j]) && inodes'[j].size == inodes[j].size {
      assert InodeOk(data, inodes[j]);
    }
    forall j, l | 0 <= j < |inodes| && 0 <= l < NSLOTS && !(j == i && l == k)
      ensures SameSlot(data, inodes, data', inodes', j, l)
    {
      FreeInNoSlot(sb, bits, data, inodes, owner, b, j, NDIRECT);
    }
    FreeInNoSlot(sb, bits, data, inodes, owner, b, i, k);
    FillSlot(sb, bits, data, inodes, owner, data', inodes', i, k, b);
    StillMapped(data, inodes, data', inodes', i, k);
    forall j, bn | 0 <= j < |inodes| && 0 <= bn < MAXFILE ensures SamePage(data, inodes, data', inodes', j, bn) {
      FreeInNoSlot(sb, bits, data, inodes, owner, b, j, FileSlot(bn));
      if !(j == i && FileSlot(bn) == k) {
        assert SameSlot(data, inodes, data', inodes', j, FileSlot(bn));
      }
    }
  }

  /** Block `ind` is the indirect block of inode i only. */
  lemma IndirectOnce(sb: Super, bits: seq<bv8>, data: seq<Bytes>, inodes: seq<Inode>, owner: Owner, i: nat, j: nat,
                     l: nat)
    requires Owned(sb, bits, data, inodes, owner) && i < |inodes| && j < |inodes| && l < NSLOTS
    requires inodes[i].addrs[NDIRECT] != 0
    ensures Slot(data, inodes[j], l) == inodes[i].addrs[NDIRECT] ==> i == j && l == NDIRECT
  {
    assert SlotOk(data, inodes, owner, i, NDIRECT);
    assert SlotOk(data, inodes, owner, j, l);
  }

  /** The disk after entry e of an indirect block is set. */
  function SetEntry(data: seq<Bytes>, ind: nat, e: nat, v: nat): (r: seq<Bytes>)
    requires ind < |data| && |data[ind]| == BSIZE && e < NINDIRECT
    ensures |r| == |data|
  {
    data[ind := SetWord(data[ind], e, v)]
  }

  /** Setting an entry changes that slot and no other. */
  lemma EntrySlots(sb: Super, bits: seq<bv8>, data: seq<Bytes>, inodes: seq<Inode>, owner: Owner, i: nat, e: nat,
                   v: nat, j: nat, l: nat)
    requires Owned(sb, bits, data, inodes, owner) && i < |inodes| && e < NINDIRECT && j < |inodes| && l < NSLOTS
    requires inodes[i].addrs[NDIRECT] != 0
    ensures var data' := SetEntry(data, inodes[i].addrs[NDIRECT], e, v);
      InodeOk(data', inodes[j])
      && Slot(data', inodes[j], l) == if j == i && l == NDIRECT + 1 + e then v else Slot(data, inodes[j], l)
  {
    IndirectOnce(sb, bits, data, inodes, owner, i, j, NDIRECT);
    if j == i && l > NDIRECT {
      WordRoundTrip(data[inodes[i].addrs[NDIRECT]], e, v, l - NDIRECT - 1);
    }
  }

  /** What a free block holds is in no slot. */
  lemma ForgetBlock(sb: Super, bits: seq<bv8>, data: seq<Bytes>, inodes: seq<Inode>, owner: Owner, b: int, blk: Bytes)
    requires Owned(sb, bits, data, inodes, owner)
    requires 0 <= b < sb.size && !Bit(bits, b) && |blk| == BSIZE
    ensures Owned(sb, bits, data[b := blk], inodes, owner)
    ensures SameSlotsBut(data, inodes, data[b := blk], inodes, -1, -1)
  {
    var data' := data[b := blk];
    forall j, l | 0 <= j < |inodes| && 0 <= l < NSLOTS ensures SameSlot(data, inodes, data', inodes, j, l) {
      FreeInNoSlot(sb, bits, data, inodes, owner, b, j, NDIRECT);
    }
    KeepSlots(sb, bits, data, inodes, owner, data', inodes);
  }

  /** Zeroing a free block on disk changes no slot and no file. */
  lemma ZeroFree(sb: Super, bits: seq<bv8>, data: seq<Bytes>, inodes: seq<Inode>, owner: Owner, b: int)
    requires Owned(sb, bits, data, inodes, owner) && AllMapped(data, inodes)
    requires 0 <= b < sb.size && !Bit(bits, b)
    ensures Owned(sb, bits, data[b := Zeroed()], inodes, owner) && AllMapped(data[b := Zeroed()], inodes)
    ensures SamePages(data, inodes, data[b := Zeroed()], inodes)
    ensures SameSlotsBut(data, inodes, data[b := Zeroed()], inodes, -1, -1)
  {
    var data' := data[b := Zeroed()];
    ForgetBlock(sb, bits, data, inodes, owner, b, Zeroed());
    StillMapped(data, inodes, data', inodes, -1, -1);
    forall j, bn | 0 <= j < |inodes| && 0 <= bn < MAXFILE ensures SamePage(data, inodes, data', inodes, j, bn) {
      FreeInNoSlot(sb, bits, data, inodes, owner, b, j, FileSlot(bn));
      assert SameSlot(data, inodes, data', inodes, j, FileSlot(bn));
    }
  }

  /** A fresh zeroed block put into an entry of the indirect block. */
  lemma AllocEntry(sb: Super, bits: seq<bv8>, data: seq<Bytes>, inodes: seq<Inode>, owner: Owner, i: nat, e: nat,
                   b: int)
    requires Owned(sb, bits, data, inodes, owner) && AllMapped(data, inodes)
    requires 0 <= b < sb.size && !Bit(bits, b) && data[b] == Zeroed()
    requires i < |inodes| && e < NINDIRECT && inodes[i].addrs[NDIRECT] != 0
    requires Slot(data, inodes[i], NDIRECT + 1 + e) == 0
    ensures var data' := SetEntry(data, inodes[i].addrs[NDIRECT], e, b);
      && Owned(sb, SetBit(bits, b), data', inodes, owner[b := (i, NDIRECT + 1 + e)])
      && AllMapped(data', inodes)
      && SamePages(data, inodes, data', inodes)
      && SameSlotsBut(data, inodes, data', inodes, i, NDIRECT + 1 + e)
      && Slot(data', inodes[i], NDIRECT + 1 + e) == b
  {
    var ind, k := inodes[i].addrs[NDIRECT], NDIRECT + 1 + e;
    var data' := SetEntry(data, ind, e, b);
    forall j | 0 <= j < |inodes| ensures InodeOk(data', inodes[j]) {
      EntrySlots(sb, bits, data, inodes, owner, i, e, b, j, 0);
    }
    forall j, l | 0 <= j < |inodes| && 0 <= l < NSLOTS && !(j == i && l == k)
      ensures SameSlot(data, inodes, data', inodes, j, l)
    {
      EntrySlots(sb, bits, data, inodes, owner, i, e, b, j, l);
    }
    EntrySlots(sb, bits, data, inodes, owner, i, e, b, i, k);
    FreeInNoSlot(sb, bits, data, inodes, owner, b, i, NDIRECT);
    FillSlot(sb, bits, data, inodes, owner, data', inodes, i, k, b);
    StillMapped(data, inodes, data', inodes, i, k);
    forall j, bn | 0 <= j < |inodes| && 0 <= bn < MAXFILE ensures SamePage(data, inodes, data', inodes, j, bn) {
      EntrySlots(sb, bits, data, inodes, owner, i, e, b, j, FileSlot(bn));
      IndirectOnce(sb, bits, data, inodes, owner, i, j, FileSlot(bn));
    }
  }

  /** Writing into block bn of file i changes that block of that file and nothing else. */
  lemma WritePage(sb: Super, bits: seq<bv8>, data: seq<Bytes>, inodes: seq<Inode>, owner: Owner, i: nat, bn: nat,
                  blk: Bytes)
    requires Owned(sb, bits, data, inodes, owner) && AllMapped(data, inodes)
    requires i < |inodes| && bn < MAXFILE && |blk| == BSIZE && Slot(data, inodes[i], FileSlot(bn)) != 0
    ensures var v := Slot(data, inodes[i], FileSlot(bn));
      && 0 < v < |data|
      && Owned(sb, bits, data[v := blk], inodes, owner)
      && AllMapped(data[v := blk], inodes)
      && Slot(data[v := blk], inodes[i], FileSlot(bn)) == v
      && Page(data[v := blk], inodes[i], bn) == blk
      && SamePagesBut(data, inodes, data[v := blk], inodes, i, bn)
      && SameSlotsBut(data, inodes, data[v := blk], inodes, -1, -1)
  {
    var k := FileSlot(bn);
    var v := Slot(data, inodes[i], k);
    assert Holds(data, inodes, i, k, v);
    HeldIsOwned(sb, bits, data, inodes, owner, i, k, v);
    var data' := data[v := blk];
    forall j, l | 0 <= j < |inodes| && 0 <= l < NSLOTS ensures SameSlot(data, inodes, data', inodes, j, l) {
      assert SlotOk(data, inodes, owner, j, NDIRECT);
    }
    KeepSlots(sb, bits, data, inodes, owner, data', inodes);
    StillMapped(data, inodes, data', inodes, -1, -1);
    assert SameSlot(data, inodes, data', inodes, i, k);
    forall j, m | 0 <= j < |inodes| && 0 <= m < MAXFILE && !(j == i && m == bn)
      ensures SamePage(data, inodes, data', inodes, j, m)
    {
      assert SlotOk(data, inodes, owner, j, FileSlot(m));
      assert SameSlot(data, inodes, data', inodes, j, FileSlot(m));
    }
  }

  // ----- the steps of itrunc

  /** Freeing the block of a direct slot, or an indirect block with no entries left. */
  lemma FreeAddr(sb: Super, bits: seq<bv8>, data: seq<Bytes>, inodes: seq<Inode>, owner: Owner, i: nat, k: nat)
    requires Owned(sb, bits, data, inodes, owner)
    requires i < |inodes| && k <= NDIRECT && inodes[i].addrs[k] != 0
    requires k == NDIRECT ==> forall l :: NDIRECT < l < NSLOTS ==> Slot(data, inodes[i], l) == 0
    ensures var b := inodes[i].addrs[k];
      && sb.datastart <= b < sb.size && Bit(bits, b) && b in owner && owner[b] == (i, k)
      && Owned(sb, ClearBit(bits, b), data, SetAddr(inodes, i, k, 0), owner - {b})
  {
    var b, inodes' := inodes[i].addrs[k], SetAddr(inodes, i, k, 0);
    assert Holds(data, inodes, i, k, b);
    HeldIsOwned(sb, bits, data, inodes, owner, i, k, b);
    forall j | 0 <= j < |inodes'| ensures InodeOk(data, inodes'[j]) {
      assert InodeOk(data, inodes[j]);
    }
    assert forall j, l :: 0 <= j < |inodes| && 0 <= l < NSLOTS && !(j == i && l == k) ==>
        SameSlot(data, inodes, data, inodes', j, l);
    EmptySlot(sb, bits, data, inodes, owner, data, inodes', i, k, b);
  }

  /** Freeing the block of an entry of the indirect block, as if the entry were cleared too. */
  lemma FreeEntry(sb: Super, bits: seq<bv8>, data: seq<Bytes>, inodes: seq<Inode>, owner: Owner, i: nat, e: nat)
    requires Owned(sb, bits, data, inodes, owner)
    requires i < |inodes| && e < NINDIRECT && inodes[i].addrs[NDIRECT] != 0
    requires Slot(data, inodes[i], NDIRECT + 1 + e) != 0
    ensures var b := Slot(data, inodes[i], NDIRECT + 1 + e);
      && sb.datastart <= b < sb.size && Bit(bits, b) && b in owner && owner[b] == (i, NDIRECT + 1 + e)
      && Owned(sb, ClearBit(bits, b), SetEntry(data, inodes[i].addrs[NDIRECT], e, 0), inodes, owner - {b})
  {
    var k := NDIRECT + 1 + e;
    var b, data' := Slot(data, inodes[i], k), SetEntry(data, inodes[i].addrs[NDIRECT], e, 0);
    assert Holds(data, inodes, i, k, b);
    HeldIsOwned(sb, bits, data, inodes, owner, i, k, b);
    forall j | 0 <= j < |inodes| ensures InodeOk(data', inodes[j]) {
      EntrySlots(sb, bits, data, inodes, owner, i, e, 0, j, 0);
    }
    forall j, l | 0 <= j < |inodes| && 0 <= l < NSLOTS && !(j == i && l == k)
      ensures SameSlot(data, inodes, data', inodes, j, l)
    {
      EntrySlots(sb, bits, data, inodes, owner, i, e, 0, j, l);
    }
    EntrySlots(sb, bits, data, inodes, owner, i, e, 0, i, k);
    EmptySlot(sb, bits, data, inodes, owner, data', inodes, i, k, b);
  }

  // ----- writing a range of bytes

  /** f with s written over it from `off` on, longer if s runs past the end. */
  function Splice(f: Bytes, off: nat, s: Bytes): (r: Bytes)
    requires off <= |f|
    ensures |r| == if off + |s| > |f| then off + |s| else |f|
    ensures r[off..off + |s|] == s
    ensures forall p :: 0 <= p < |r| && !(off <= p < off + |s|) ==> r[p] == f[p]
  {
    f[..off] + s + if off + |s| < |f| then f[off + |s|..] else []
  }

  lemma SpliceTwice(f: Bytes, off: nat, s: Bytes, t: Bytes)
    requires off <= |f|
    ensures Splice(Splice(f, off, s), off + |s|, t) == Splice(f, off, s + t)
  {
    var a, b := Splice(Splice(f, off, s), off + |s|, t), Splice(f, off, s + t);
    assert |a| == |b|;
    forall p | 0 <= p < |a| ensures a[p] == b[p] {
      if off <= p < off + |s| + |t| {
        assert b[p] == b[off..off + |s + t|][p - off] == (s + t)[p - off];
        if p < off + |s| {
          assert a[p] == Splice(f, off, s)[p] == Splice(f, off, s)[off..off + |s|][p - off] == s[p - off];
        } else {
          assert a[p] == a[off + |s|..off + |s| + |t|][p - off - |s|] == t[p - off - |s|];
        }
      }
    }
  }

  /** The number of blocks that bytes off .. off+n-1 lie in. */
  function Blocks(off: nat, n: nat): (t: nat) {
    if n == 0 then 0 else (off + n - 1) / BSIZE - off / BSIZE + 1
  }

  lemma BlocksStep(off: nat, tot: nat, n: nat)
    requires tot < n && (tot == 0 || (off + tot) % BSIZE == 0)
    ensures var q := off + tot; var m := if n - tot < BSIZE - q % BSIZE then n - tot else BSIZE - q % BSIZE;
      && m > 0 && q % BSIZE + m <= BSIZE
      && Blocks(off, tot + m) == Blocks(off, tot) + 1
      && (tot + m < n ==> (q + m) % BSIZE == 0)
  {
  }

  /** Byte p after `tot` bytes of src have been written from `off`. */
  predicate WroteAt(data0: seq<Bytes>, ip0: Inode, data: seq<Bytes>, ip: Inode, off: nat, src: Bytes, tot: nat, p: nat)
    requires InodeOk(data0, ip0) && InodeOk(data, ip) && p / BSIZE < MAXFILE && tot <= |src|
  {
    ByteAt(data, ip, p) == if off <= p < off + tot then src[p - off] else ByteAt(data0, ip0, p)
  }

  ghost predicate Wrote(data0: seq<Bytes>, ip0: Inode, data: seq<Bytes>, ip: Inode, off: nat, src: Bytes, tot: nat)
    requires InodeOk(data0, ip0) && InodeOk(data, ip) && tot <= |src|
  {
    forall p :: 0 <= p < MAXFILE * BSIZE ==> WroteAt(data0, ip0, data, ip, off, src, tot, p)
  }

  lemma InBlock(p: nat, q: nat, m: nat)
    requires q % BSIZE + m <= BSIZE
    ensures q <= p < q + m <==> p / BSIZE == q / BSIZE && q % BSIZE <= p % BSIZE < q % BSIZE + m
    ensures q <= p < q + m ==> p - q == p % BSIZE - q % BSIZE
  {
  }

  /** Page bn after the step: the chunk is spliced into the one at q, the others are as before. */
  predicate Stamped(data: seq<Bytes>, ip: Inode, data': seq<Bytes>, ip': Inode, q: nat, chunk: Bytes, bn: nat)
    requires InodeOk(data, ip) && InodeOk(data', ip') && bn < MAXFILE
  {
    var page := Page(data, ip, bn);
    Page(data', ip', bn) ==
      if bn == q / BSIZE && q % BSIZE + |chunk| <= BSIZE then Splice(page, q % BSIZE, chunk) else page
  }

  ghost predicate StampedAll(data: seq<Bytes>, ip: Inode, data': seq<Bytes>, ip': Inode, q: nat, chunk: Bytes)
    requires InodeOk(data, ip) && InodeOk(data', ip')
  {
    forall bn :: 0 <= bn < MAXFILE ==> Stamped(data, ip, data', ip', q, chunk, bn)
  }

  lemma WroteMoreAt(data0: seq<Bytes>, ip0: Inode, data: seq<Bytes>, ip: Inode, data': seq<Bytes>, ip': Inode,
                    off: nat, src: Bytes, tot: nat, m: nat, p: nat)
    requires InodeOk(data0, ip0) && InodeOk(data, ip) && InodeOk(data', ip') && tot + m <= |src|
    requires p / BSIZE < MAXFILE && (off + tot) % BSIZE + m <= BSIZE
    requires WroteAt(data0, ip0, data, ip, off, src, tot, p)
    requires Stamped(data, ip, data', ip', off + tot, src[tot..tot + m], p / BSIZE)
    ensures WroteAt(data0, ip0, data', ip', off, src, tot + m, p)
  {
    var q, chunk := off + tot, src[tot..tot + m];
    InBlock(p, q, m);
    StampByte(Page(data, ip, p / BSIZE), Page(data', ip', p / BSIZE),
      p / BSIZE == q / BSIZE, q % BSIZE, chunk, p % BSIZE);
    if q <= p < q + m {
      assert chunk[p - q] == src[p - off];
    }
  }

  lemma StampByte(page: Bytes, now: Bytes, here: bool, o: nat, chunk: Bytes, x: nat)
    requires |page| == BSIZE && x < BSIZE && o + |chunk| <= BSIZE
    requires now == if here then Splice(page, o, chunk) else page
    ensures |now| == BSIZE
    ensures now[x] == if here && o <= x < o + |chunk| then chunk[x - o] else page[x]
  {
    if here && o <= x < o + |chunk| {
      assert now[x] == now[o..o + |chunk|][x - o];
    }
  }

  /** One more block written. */
  lemma WroteMore(data0: seq<Bytes>, ip0: Inode, data: seq<Bytes>, ip: Inode, data': seq<Bytes>, ip': Inode,
                  off: nat, src: Bytes, tot: nat, m: nat)
    requires InodeOk(data0, ip0) && InodeOk(data, ip) && InodeOk(data', ip') && tot + m <= |src|
    requires Wrote(data0, ip0, data, ip, off, src, tot) && (off + tot) % BSIZE + m <= BSIZE
    requires StampedAll(data, ip, data', ip', off + tot, src[tot..tot + m])
    ensures Wrote(data0, ip0, data', ip', off, src, tot + m)
  {
    var done, q, chunk := tot + m, off + tot, src[tot..tot + m];
    forall p | 0 <= p < MAXFILE * BSIZE ensures WroteAt(data0, ip0, data', ip', off, src, done, p) {
      assert WroteAt(data0, ip0, data, ip, off, src, tot, p);
      assert Stamped(data, ip, data', ip', q, chunk, p / BSIZE);
      WroteMoreAt(data0, ip0, data, ip, data', ip', off, src, tot, m, p);
    }
  }

  /** Bytes up to the new size, put together. */
  lemma WroteFile(data0: seq<Bytes>, ip0: Inode, data: seq<Bytes>, ip: Inode, off: nat, src: Bytes, tot: nat)
    requires InodeOk(data0, ip0) && InodeOk(data, ip) && tot <= |src|
    requires Wrote(data0, ip0, data, ip, off, src, tot)
    requires off <= ip0.size <= MAXFILE * BSIZE && off + tot <= MAXFILE * BSIZE
    requires ip.size == if off + tot > ip0.size then off + tot else ip0.size
    ensures File(data, ip) == Splice(File(data0, ip0), off, src[..tot])
  {
    var f, g := File(data, ip), Splice(File(data0, ip0), off, src[..tot]);
    forall p | 0 <= p < |f| ensures f[p] == g[p] {
      assert WroteAt(data0, ip0, data, ip, off, src, tot, p);
      if off <= p < off + tot {
        assert g[p] == g[off..off + tot][p - off] == src[p - off];
      }
    }
  }
}
