/** What user memory holds: the bytes behind a page table, with pages that are not there yet reading as the
    zeros that vmfault would put in them. */
module VmBytes {
  import opened Basics
  import opened VmModel
  import opened VmSteps

  /** The byte at virtual address a of tree s. */
  function ByteOf(tables: Tables, data: map<int, Page>, s: int, a: nat): int {
    match Lookup(tables, s, a / PGSIZE)
    case None => 0
    case Some(p) => if p.frame in data && |data[p.frame]| == PGSIZE then data[p.frame][a % PGSIZE] else 0
  }

  /** The byte at a of tree s is as before, except that bytes lo.. of tree r are now those of src. */
  predicate PokedAt(tables0: Tables, data0: map<int, Page>, tables: Tables, data: map<int, Page>, r: int, lo: nat,
                    src: seq<int>, s: int, a: nat) {
    ByteOf(tables, data, s, a) == if s == r && lo <= a < lo + |src| then src[a - lo] else ByteOf(tables0, data0, s, a)
  }

  ghost predicate Poked(tables0: Tables, use0: Uses, data0: map<int, Page>, tables: Tables, data: map<int, Page>,
                        r: int, lo: nat, src: seq<int>) {
    forall s, a :: s in use0 && Root(use0, s) && 0 <= a < MAXVA ==>
      PokedAt(tables0, data0, tables, data, r, lo, src, s, a)
  }

  lemma PokedNothing(tables: Tables, use: Uses, data: map<int, Page>, r: int, lo: nat)
    ensures Poked(tables, use, data, tables, data, r, lo, [])
  {
    forall s, a | s in use && Root(use, s) && 0 <= a < MAXVA
      ensures PokedAt(tables, data, tables, data, r, lo, [], s, a)
    {
    }
  }

  lemma PokedTwice(tables0: Tables, use0: Uses, data0: map<int, Page>, tables1: Tables, use1: Uses,
                   data1: map<int, Page>,
                   tables: Tables, data: map<int, Page>, r: int, lo: nat, src: seq<int>, more: seq<int>)
    requires Poked(tables0, use0, data0, tables1, data1, r, lo, src)
    requires Poked(tables1, use1, data1, tables, data, r, lo + |src|, more)
    requires forall s :: s in use0 && Root(use0, s) ==> Root(use1, s)
    ensures Poked(tables0, use0, data0, tables, data, r, lo, src + more)
  {
    var all, next := src + more, lo + |src|;
    forall s, a | s in use0 && Root(use0, s) && 0 <= a < MAXVA
      ensures PokedAt(tables0, data0, tables, data, r, lo, all, s, a)
    {
      assert PokedAt(tables0, data0, tables1, data1, r, lo, src, s, a);
      assert PokedAt(tables1, data1, tables, data, r, next, more, s, a);
    }
  }

  /** Every user-accessible page of the tree is its own. */
  ghost predicate UserOwned(tables: Tables, use: Uses, r: int) {
    forall w :: 0 <= w < MAXPAGE ==> UserOwnedAt(tables, use, r, w)
  }

  predicate UserOwnedAt(tables: Tables, use: Uses, r: int, w: nat) {
    match Lookup(tables, r, w)
    case None => true
    case Some(p) => U(p) ==> p.frame in use && use[p.frame].Node?
  }

  /** A page that a tree maps is in use, if it is in the pool at all. */
  lemma MappedBusy(tables: Tables, use: Uses, s: int, w: nat)
    requires Ok(tables, use) && Root(use, s) && Lookup(tables, s, w).Some?
    ensures var f := Lookup(tables, s, w).value.frame; f in use ==> use[f] == Shared || use[f].Node?
  {
    LowKnows(tables, use, s, w);
    var low := LowTable(tables, s, w).value;
    assert PteOk(tables, use, low, Px(0, w));
  }

  /** A step that keeps every mapping, every use and the contents of used pages keeps every byte. */
  lemma BytesKept(tables0: Tables, use0: Uses, data0: map<int, Page>, tables: Tables, use: Uses, data: map<int, Page>,
                  r: int, lo: nat)
    requires Ok(tables0, use0) && MapsKept(tables0, use0, tables, use, r, 0, 0) && BusyKept(use0, use)
    requires DataKept(use0, data0, use, data) && use.Keys == use0.Keys == data0.Keys == data.Keys
    ensures Poked(tables0, use0, data0, tables, data, r, lo, [])
  {
    forall s, a | s in use0 && Root(use0, s) && 0 <= a < MAXVA
      ensures PokedAt(tables0, data0, tables, data, r, lo, [], s, a)
    {
      assert SameAt(tables0, tables, s, a / PGSIZE);
      if Lookup(tables0, s, a / PGSIZE).Some? {
        MappedBusy(tables0, use0, s, a / PGSIZE);
      }
    }
  }

  /** So does mapping a zeroed page where there was none. */
  lemma BytesZero(tables0: Tables, use0: Uses, data0: map<int, Page>, tables: Tables, use: Uses, data: map<int, Page>,
                  r: int, w: nat, f: int, lo: nat)
    requires Ok(tables0, use0) && MapsKept(tables0, use0, tables, use, r, w, w + 1) && BusyKept(use0, use)
    requires DataKept(use0, data0, use, data) && use.Keys == use0.Keys == data0.Keys == data.Keys
    requires Unmapped(tables0, r, w) && Lookup(tables, r, w).Some? && Lookup(tables, r, w).value.frame == f
    requires f in data && data[f] == Filled(0)
    ensures Poked(tables0, use0, data0, tables, data, r, lo, [])
  {
    forall s, a | s in use0 && Root(use0, s) && 0 <= a < MAXVA
      ensures PokedAt(tables0, data0, tables, data, r, lo, [], s, a)
    {
      if !(s == r && a / PGSIZE == w) {
        assert SameAt(tables0, tables, s, a / PGSIZE);
        if Lookup(tables0, s, a / PGSIZE).Some? {
          MappedBusy(tables0, use0, s, a / PGSIZE);
        }
      }
    }
  }

  lemma InPage(a: nat, lo: nat, n: nat)
    requires lo % PGSIZE + n <= PGSIZE
    ensures lo <= a < lo + n <==> a / PGSIZE == lo / PGSIZE && lo % PGSIZE <= a % PGSIZE < lo % PGSIZE + n
    ensures lo <= a < lo + n ==> a - lo == a % PGSIZE - lo % PGSIZE
  {
  }

  /** p with s written over it from o on. */
  function Patch(p: Page, o: nat, s: seq<int>): (r: Page)
    requires o + |s| <= |p|
    ensures |r| == |p|
    ensures forall x :: 0 <= x < |p| ==> r[x] == if o <= x < o + |s| then s[x - o] else p[x]
  {
    p[..o] + s + p[o + |s|..]
  }

  /** Writing into a page the tree owns changes those bytes of that tree and no others: no other page, and
      no other tree, maps it. */
  lemma BytesWritten(tables: Tables, use: Uses, data: map<int, Page>, r: int, lo: nat, chunk: seq<int>)
    requires Ok(tables, use) && Root(use, r) && lo < MAXVA && lo % PGSIZE + |chunk| <= PGSIZE
    requires Lookup(tables, r, lo / PGSIZE).Some?
    requires var f := Lookup(tables, r, lo / PGSIZE).value.frame;
      f in use && use[f].Node? && f in data && |data[f]| == PGSIZE
    ensures var f := Lookup(tables, r, lo / PGSIZE).value.frame;
      Poked(tables, use, data, tables, data[f := Patch(data[f], lo % PGSIZE, chunk)], r, lo, chunk)
  {
    var w := lo / PGSIZE;
    var f := Lookup(tables, r, w).value.frame;
    MappedIsFor(tables, use, r, w);
    var data' := data[f := Patch(data[f], lo % PGSIZE, chunk)];
    forall s, a | s in use && Root(use, s) && 0 <= a < MAXVA
      ensures PokedAt(tables, data, tables, data', r, lo, chunk, s, a)
    {
      var v := a / PGSIZE;
      InPage(a, lo, |chunk|);
      if Lookup(tables, s, v).Some? && Lookup(tables, s, v).value.frame == f {
        MappedIsFor(tables, use, s, v);
      }
    }
  }

  /** What walkaddr returns: the page, if user code may touch it, else 0. */
  function UserFrame(tables: Tables, r: int, va: nat): int {
    if va >= MAXVA then 0
    else match Lookup(tables, r, va / PGSIZE)
      case None => 0
      case Some(p) => if U(p) then p.frame else 0
  }

  predicate Writable(tables: Tables, r: int, va: nat) {
    Lookup(tables, r, va / PGSIZE).Some? && W(Lookup(tables, r, va / PGSIZE).value)
  }

  /** What tree r maps, it still maps. */
  ghost predicate NoneLost(tables0: Tables, tables: Tables, r: int) {
    forall w :: 0 <= w < MAXPAGE ==> NotLost(tables0, tables, r, w)
  }

  predicate NotLost(tables0: Tables, tables: Tables, r: int, w: nat) {
    Lookup(tables0, r, w).Some? ==> Lookup(tables, r, w) == Lookup(tables0, r, w)
  }

  lemma NoneLostTwice(tables0: Tables, tables1: Tables, tables: Tables, r: int)
    requires NoneLost(tables0, tables1, r) && NoneLost(tables1, tables, r)
    ensures NoneLost(tables0, tables, r)
  {
    forall w | 0 <= w < MAXPAGE ensures NotLost(tables0, tables, r, w) {
      assert NotLost(tables0, tables1, r, w) && NotLost(tables1, tables, r, w);
    }
  }

  /** After a fault that mapped nothing, or one page w of the tree's own. */
  lemma FaultKept(tables0: Tables, use0: Uses, tables: Tables, use: Uses, r: int, lo: int, hi: int)
    requires Root(use0, r) && MapsKept(tables0, use0, tables, use, r, lo, hi) && BusyKept(use0, use)
    requires Ok(tables0, use0) && UserOwned(tables0, use0, r)
    requires forall w :: lo <= w < hi && 0 <= w < MAXPAGE ==> Unmapped(tables0, r, w) && UserOwnedAt(tables, use, r, w)
    ensures NoneLost(tables0, tables, r) && UserOwned(tables, use, r)
  {
    forall w | 0 <= w < MAXPAGE ensures NotLost(tables0, tables, r, w) && UserOwnedAt(tables, use, r, w) {
      if lo <= w < hi {
        assert Unmapped(tables0, r, w);
      } else {
        assert SameAt(tables0, tables, r, w) && UserOwnedAt(tables0, use0, r, w);
      }
    }
  }

  /** copyout then copyin: the bytes that come back are the ones that went out. */
  lemma CopyRoundTrip(tables0: Tables, use0: Uses, data0: map<int, Page>, tables: Tables, data: map<int, Page>,
                      r: int, lo: nat, src: seq<int>, dst: seq<int>)
    requires Root(use0, r) && Poked(tables0, use0, data0, tables, data, r, lo, src) && lo + |src| <= MAXVA
    requires |dst| == |src| && CopiedFrom(tables, data, r, lo, dst)
    ensures dst == src
  {
    forall x | 0 <= x < |src| ensures dst[x] == src[x] {
      assert ReadAt(tables, data, r, lo, dst, x);
      var a := lo + x;
      assert PokedAt(tables0, data0, tables, data, r, lo, src, r, a);
    }
  }

  /** dst is what tree r has from lo on. */
  ghost predicate CopiedFrom(tables: Tables, data: map<int, Page>, r: int, lo: nat, dst: seq<int>) {
    forall x :: 0 <= x < |dst| ==> ReadAt(tables, data, r, lo, dst, x)
  }

  predicate ReadAt(tables: Tables, data: map<int, Page>, r: int, lo: nat, dst: seq<int>, x: nat)
    requires x < |dst|
  {
    dst[x] == ByteOf(tables, data, r, lo + x)
  }

  /** One more piece of a copy, taken from the page it lies in. */
  lemma ReadMore(tables0: Tables, use0: Uses, data0: map<int, Page>, tables: Tables, data: map<int, Page>, r: int,
                 lo: nat,
                 dst: seq<int>, n: nat)
    requires CopiedFrom(tables0, data0, r, lo, dst) && Root(use0, r)
    requires Poked(tables0, use0, data0, tables, data, r, 0, [])
    requires var at := lo + |dst|; at < MAXVA && at % PGSIZE + n <= PGSIZE && Lookup(tables, r, at / PGSIZE).Some?
    requires var f := Lookup(tables, r, (lo + |dst|) / PGSIZE).value.frame; f in data && |data[f]| == PGSIZE
    ensures var at := lo + |dst|; var f := Lookup(tables, r, at / PGSIZE).value.frame;
      CopiedFrom(tables0, data0, r, lo, dst + data[f][at % PGSIZE..at % PGSIZE + n])
  {
    var at := lo + |dst|;
    var page := data[Lookup(tables, r, at / PGSIZE).value.frame];
    var piece := page[at % PGSIZE..at % PGSIZE + n];
    var all := dst + piece;
    forall x | 0 <= x < |all| ensures ReadAt(tables0, data0, r, lo, all, x) {
      var a := lo + x;
      if x < |dst| {
        assert ReadAt(tables0, data0, r, lo, dst, x);
      } else {
        InPage(a, at, n);
        assert a < MAXVA by { SamePageBelow(a, at); }
        assert PokedAt(tables0, data0, tables, data, r, 0, [], r, a);
        assert all[x] == piece[x - |dst|] == page[a % PGSIZE];
      }
    }
  }

  lemma SamePageBelow(a: nat, at: nat)
    requires a / PGSIZE == at / PGSIZE && at < MAXVA
    ensures a < MAXVA
  {
  }

  lemma UserFlags()
    ensures var f := PTE_W + PTE_U + PTE_R;
      OrV(f) == f + PTE_V && (forall q :: Leaf(Pte(OrV(f), q)) && U(Pte(OrV(f), q)) && W(Pte(OrV(f), q)))
  {
  }

  lemma FaultedIn(tables: Tables, use: Uses, r: int, va: nat, f: int)
    requires va < MAXVA && MapsTo(tables, r, va / PGSIZE, Pte(OrV(PTE_W + PTE_U + PTE_R), f)) && f in use
      && use[f].Node?
    ensures Lookup(tables, r, va / PGSIZE).Some? && Lookup(tables, r, va / PGSIZE).value.frame == f
    ensures UserOwnedAt(tables, use, r, va / PGSIZE) && UserFrame(tables, r, va) == f && Writable(tables, r, va)
  {
    UserFlags();
  }

  /** copyout may write at a. */
  predicate CanWrite(tables: Tables, r: int, a: nat) {
    UserFrame(tables, r, a) != 0 && Writable(tables, r, a)
  }

  /** Or may once the page, which is not there yet, has been faulted in. */
  predicate CanWriteSoon(tables: Tables, r: int, sz: nat, a: nat) {
    CanWrite(tables, r, a) || (a < sz && Unmapped(tables, r, a / PGSIZE))
  }

  predicate CanReadSoon(tables: Tables, r: int, sz: nat, a: nat) {
    UserFrame(tables, r, a) != 0 || (a < sz && Unmapped(tables, r, a / PGSIZE))
  }

  /** The number of pages that n bytes from lo on lie in. */
  function Span(lo: nat, n: nat): nat {
    if n == 0 then 0 else (lo + n - 1) / PGSIZE - lo / PGSIZE + 1
  }

  lemma SpanStep(lo: nat, done: nat, len: nat)
    requires done < len && (done == 0 || (lo + done) % PGSIZE == 0)
    ensures var at := lo + done;
      var n := if PGSIZE - at % PGSIZE < len - done then PGSIZE - at % PGSIZE else len - done;
      && at / PGSIZE == lo / PGSIZE + Span(lo, done) && Span(lo, done + n) == Span(lo, done) + 1 <= Span(lo, len)
      && (done + n == len || (at + n) % PGSIZE == 0)
  {
  }

  lemma SpanNone(tables: Tables, use: Uses, r: int, lo: nat)
    ensures Span(lo, 0) == 0 && MapsKept(tables, use, tables, use, r, lo / PGSIZE, lo / PGSIZE + Span(lo, 0))
  {
  }

  /** The next page of a copy is as it was at the start. */
  lemma StillMissing(tables0: Tables, use0: Uses, tables: Tables, use: Uses, r: int, v: nat, w: nat, sz: nat, at: nat)
    requires MapsKept(tables0, use0, tables, use, r, v, w) && Root(use0, r) && at / PGSIZE == w && sz <= MAXVA
    ensures CanWriteSoon(tables0, r, sz, at) ==> CanWrite(tables, r, at) || (at < sz && Unmapped(tables, r, w))
  {
    if at < MAXVA {
      assert SameAt(tables0, tables, r, w);
    }
  }

  lemma StillUnread(tables0: Tables, use0: Uses, tables: Tables, use: Uses, r: int, v: nat, w: nat, sz: nat, at: nat)
    requires MapsKept(tables0, use0, tables, use, r, v, w) && Root(use0, r) && at / PGSIZE == w && sz <= MAXVA
    ensures CanReadSoon(tables0, r, sz, at) ==> UserFrame(tables, r, at) != 0 || (at < sz && Unmapped(tables, r, w))
  {
    if at < MAXVA {
      assert SameAt(tables0, tables, r, w);
    }
  }

  lemma LostNothing(tables: Tables, r: int)
    ensures NoneLost(tables, tables, r)
  {
    forall w | 0 <= w < MAXPAGE ensures NotLost(tables, tables, r, w) {
    }
  }

  lemma PageStart(va: nat)
    ensures var va0 := va / PGSIZE * PGSIZE;
      va0 <= va && va0 / PGSIZE == va / PGSIZE && (va < MAXVA <==> va0 < MAXVA)
  {
  }

  lemma FrameOfStart(tables: Tables, r: int, va: nat)
    ensures UserFrame(tables, r, va / PGSIZE * PGSIZE) == UserFrame(tables, r, va)
    ensures Writable(tables, r, va / PGSIZE * PGSIZE) == Writable(tables, r, va)
  {
    PageStart(va);
  }

  lemma EmptyPoke(tables0: Tables, use0: Uses, data0: map<int, Page>, tables: Tables, data: map<int, Page>, r: int,
                  lo: nat)
    requires Poked(tables0, use0, data0, tables, data, r, 0, [])
    ensures Poked(tables0, use0, data0, tables, data, r, lo, [])
  {
    forall s, a | s in use0 && Root(use0, s) && 0 <= a < MAXVA
      ensures PokedAt(tables0, data0, tables, data, r, lo, [], s, a)
    {
      assert PokedAt(tables0, data0, tables, data, r, 0, [], s, a);
    }
  }

  /** The entry behind a user page: walk finds it, and the tree owns the page. */
  lemma FrameEntry(tables: Tables, use: Uses, r: int, va: nat, low: int, f: int)
    requires Ok(tables, use) && Root(use, r) && UserOwned(tables, use, r) && va < MAXVA
    requires UserFrame(tables, r, va) == f != 0
    requires low == 0 <==> LowTable(tables, r, va / PGSIZE) == None
    requires low != 0 ==> Standing(tables, use, r, va / PGSIZE, 0, low)
    ensures low != 0 && low in tables && |tables[low]| == ENTRIES
    ensures Lookup(tables, r, va / PGSIZE) == Some(tables[low][Px(0, va / PGSIZE)])
    ensures Lookup(tables, r, va / PGSIZE).value.frame == f && f in use && use[f].Node?
  {
    assert UserOwnedAt(tables, use, r, va / PGSIZE);
  }

  lemma StillWritable(tables0: Tables, tables: Tables, r: int, a: nat)
    requires NoneLost(tables0, tables, r)
    ensures CanWrite(tables0, r, a) ==> CanWrite(tables, r, a)
  {
    if a < MAXVA {
      assert NotLost(tables0, tables, r, a / PGSIZE);
    }
  }

  lemma ChunkEnd(at: nat, n: nat)
    requires at < MAXVA && at % PGSIZE + n <= PGSIZE
    ensures at + n <= MAXVA
  {
  }

  lemma CopiedNothing(tables: Tables, data: map<int, Page>, r: int, lo: nat)
    ensures CopiedFrom(tables, data, r, lo, [])
  {
  }

  lemma StillUser(tables0: Tables, tables: Tables, r: int, a: nat)
    requires NoneLost(tables0, tables, r)
    ensures UserFrame(tables0, r, a) != 0 ==> UserFrame(tables, r, a) == UserFrame(tables0, r, a)
  {
    if a < MAXVA {
      assert NotLost(tables0, tables, r, a / PGSIZE);
    }
  }

  lemma UserPage(tables: Tables, use: Uses, r: int, va: nat, f: int)
    requires UserOwned(tables, use, r) && UserFrame(tables, r, va) == f != 0
    ensures va < MAXVA && Lookup(tables, r, va / PGSIZE).Some? && Lookup(tables, r, va / PGSIZE).value.frame == f
    ensures f in use && use[f].Node?
  {
    assert UserOwnedAt(tables, use, r, va / PGSIZE);
  }
}
