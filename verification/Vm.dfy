/** kernel/kalloc.c and kernel/vm.c over one pool of physical pages. Addresses are bytes for virtual
    memory and page numbers for physical memory; page number 0 stands for a null pointer. */
module Vm {
  import opened Basics
  import opened VmModel
  import opened VmSteps
  import opened VmBytes

  class Memory {
    var free: seq<int>               // kmem.freelist, first to last
    var tables: Tables               // contents of the pages that hold page tables
    var data: map<int, Page>         // contents of the others
    ghost var use: Uses

    /** The allocator's own part of the state. */
    ghost predicate Pool()
      reads this
    {
      && Listed(free, use)
      && use.Keys == data.Keys
      && (forall f :: f in use ==> f > 0 && |data[f]| == PGSIZE)
    }

    ghost predicate Valid()
      reads this
    {
      Ok(tables, use) && Pool()
    }

    /** A page, or 0 when none is free. */
    method Kalloc() returns (f: int)
      requires Valid()
      modifies `free, `use, `data
      ensures Valid()
      ensures f == 0 <==> old(free) == []
      ensures f == 0 ==> unchanged(this)
      ensures f != 0 ==> f in old(use) && old(use)[f] == Free && use == old(use)[f := Held] && free == old(free)[1..]
      ensures f != 0 ==> data == old(data)[f := Filled(5)]
    {
      if free == [] {
        return 0;
      }
      f := free[0];
      HeldOk(tables, use, f, Held, 0);
      TakeFirst(free, use);
      free := free[1..];
      data := data[f := Filled(5)];
      use := use[f := Held];
    }

    /** Gives a page back. Only a page that is not free can be, so no page is ever freed twice. */
    method Kfree(f: int)
      requires Pool() && f in use && use[f] != Free
      modifies `free, `use, `data
      ensures Pool()
      ensures use == old(use)[f := Free] && free == [f] + old(free) && data == old(data)[f := Filled(1)]
    {
      PutFirst(free, use, f);
      data := data[f := Filled(1)];
      free := [f] + free;
      use := use[f := Free];
    }

    /** walk's allocation of a table under the invalid entry of table p. */
    method NewTable(root: int, vpn: nat, level: nat, p: int) returns (f: int)
      requires Valid() && Root(use, root) && vpn < MAXPAGE
      requires Standing(tables, use, root, vpn, level, p) && 0 < level <= 2 && !V(tables[p][Px(level, vpn)])
      modifies `free, `use, `data, `tables
      ensures Valid() && Root(use, root)
      ensures f == 0 ==> unchanged(this) && free == []
      ensures f != 0 ==> old(free) != [] && free == old(free)[1..]
      ensures f != 0 ==> Standing(tables, use, root, vpn, level - 1, f)
      ensures MapsKept(old(tables), old(use), tables, use, root, 0, 0)
      ensures TablesGrew(old(use), use, root) && DataKept(old(use), old(data), use, data)
    {
      hide TableOk, PteOk, UseOk, Listed, Standing, LowTable, Child;
      f := Kalloc();
      if f == 0 {
        return;
      }
      var k := Px(level, vpn);
      StandingNew(tables, old(use), root, vpn, level, p, f);
      ListedStays(free, use, f, AttachUse(use, p, k, f)[f]);
      tables := tables[f := Zeros()];
      tables := Set(tables, p, k, Pte(PTE_V, f));
      assert tables == Attach(old(tables), p, k, f);
      use := AttachUse(use, p, k, f);
    }

    /** The bottom-level table and index for address va; table 0 if there is none and none can be made.
        Making tables changes no translation. */
    method Walk(root: int, va: nat, alloc: bool) returns (f: int, i: nat)
      requires Valid() && Root(use, root) && va < MAXVA
      modifies `free, `use, `data, `tables
      ensures Valid() && Root(use, root)
      ensures i < ENTRIES && i == Px(0, va / PGSIZE)
      ensures f == 0 <==> LowTable(tables, root, va / PGSIZE) == None
      ensures f != 0 ==> Standing(tables, use, root, va / PGSIZE, 0, f)
      ensures !alloc ==> unchanged(this)
      ensures alloc && f == 0 ==> free == [] && |old(free)| <= 1
      ensures |free| <= |old(free)| <= |free| + 2
      ensures old(LowTable(tables, root, va / PGSIZE)).Some? ==> unchanged(this)
      ensures MapsKept(old(tables), old(use), tables, use, root, 0, 0)
      ensures TablesGrew(old(use), use, root) && DataKept(old(use), old(data), use, data)
    {
      hide TableOk, PteOk, UseOk, Listed;
      ghost var vpn := va / PGSIZE;
      i := Px(0, va / PGSIZE);
      f := root;
      StandingStart(tables, use, root, vpn);
      var level := 2;
      while level > 0
        invariant 0 <= level <= 2 && Valid() && Root(use, root)
        invariant Standing(tables, use, root, vpn, level, f)
        invariant !alloc ==> unchanged(this)
        invariant |free| <= |old(free)| <= |free| + 2 - level
        invariant old(LowTable(tables, root, vpn)).Some? ==> unchanged(this)
        invariant MapsKept(old(tables), old(use), tables, use, root, 0, 0)
        invariant TablesGrew(old(use), use, root) && DataKept(old(use), old(data), use, data)
      {
        var k := Px(level, va / PGSIZE);
        if V(tables[f][k]) {
          StandingDown(tables, use, root, vpn, level, f);
          f := tables[f][k].frame;
        } else {
          StandingStuck(tables, use, root, vpn, level, f);
          if !alloc {
            f := 0;
            return;
          }
          ghost var tables1, use1 := tables, use;
          f := NewTable(root, va / PGSIZE, level, f);
          if f == 0 {
            return;
          }
          MapsKeptTwice(old(tables), old(use), tables1, use1, tables, use, root, 0, 0, 0, 0, 0, 0);
          TablesGrewTwice(old(use), use1, use, root);
        }
        level := level - 1;
      }
    }

    /** One turn of mappages' loop: map the page at `a` to physical page q. */
    method MapPage(root: int, a: nat, q: int, perm: nat) returns (ok: bool)
      requires Valid() && Root(use, root) && a % PGSIZE == 0 && a < MAXVA
      requires Leaf(Pte(OrV(perm), q)) && Mappable(use, q) && Unmapped(tables, root, a / PGSIZE)
      modifies `free, `use, `data, `tables
      ensures Valid() && Root(use, root)
      ensures !ok ==> free == [] && |old(free)| <= 1
      ensures |free| <= |old(free)| <= |free| + 2
      ensures ok ==> MapsTo(tables, root, a / PGSIZE, Pte(OrV(perm), q))
      ensures MapsKept(old(tables), old(use), tables, use, root, a / PGSIZE, a / PGSIZE + if ok then 1 else 0)
      ensures MappedUse(old(use), use, root, q, if ok then 1 else 0)
      ensures DataKept(old(use), old(data), use, data)
    {
      hide Ok, Listed, MapsKept, TablesGrew, MappedUse, DataKept, LowTable, Child, Lookup;
      ghost var w := a / PGSIZE;
      var f, i := Walk(root, a, true);
      ghost var tables1, use1 := tables, use;
      StillUnmapped(old(tables), old(use), tables, use, root, w);
      if f == 0 {
        MappedUseNone(old(use), use, root, q);
        WiderRange(old(tables), old(use), tables, use, root, w, w);
        return false;
      }
      EntryInvalid(tables, root, w, f);
      if V(tables[f][i]) {
        assert false;   // panic: mappages: remap
      }
      StillOneMappable(old(use), use, root, q);
      MapStep(tables, use, root, w, f, Pte(OrV(perm), q));
      MappedUseOne(old(use), use, MapUse(use, f, i, q), root, q, f, i);
      if q in use && use[q] == Held {
        ListedStays(free, use, q, Node(use[f].root, -1, f, i));
      }
      tables := Set(tables, f, i, Pte(OrV(perm), q));
      use := MapUse(use, f, i, q);
      MapUseData(old(use), old(data), use1, data, f, i, q);
      MapsKeptTwice(old(tables), old(use), tables1, use1, tables, use, root, 0, 0, w, w + 1, w, w + 1);
      ok := true;
    }

    /** Maps size/PGSIZE pages from va to physical pages from pa. -1 means memory ran out, after `done` pages. */
    method Mappages(root: int, va: nat, size: nat, pa: int, perm: nat) returns (r: int, ghost done: nat)
      requires Valid() && Root(use, root)
      requires va % PGSIZE == 0 && size % PGSIZE == 0 && size > 0 && va + size <= MAXVA
      requires Leaf(Pte(OrV(perm), pa)) && MappableFrom(use, pa, 0, size / PGSIZE)
      requires NoneMapped(tables, root, va / PGSIZE, va / PGSIZE + size / PGSIZE)
      modifies `free, `use, `data, `tables
      ensures Valid() && Root(use, root)
      ensures done <= size / PGSIZE && (r == 0 || r == -1) && (r == 0 <==> done == size / PGSIZE)
      ensures r == -1 ==> free == [] && |old(free)| < 2 * (size / PGSIZE)
      ensures r == 0 ==> |free| <= |old(free)| <= |free| + 2 * (size / PGSIZE)
      ensures MappedRun(tables, root, va / PGSIZE, pa, perm, done)
      ensures MapsKept(old(tables), old(use), tables, use, root, va / PGSIZE, va / PGSIZE + done)
      ensures MappedUse(old(use), use, root, pa, done) && DataKept(old(use), old(data), use, data)
    {
      hide TableOk, PteOk, UseOk, Listed, LowTable, Child;
      ghost var v, n := va / PGSIZE, size / PGSIZE;
      done := 0;
      var a, last, q := va, va + size - PGSIZE, pa;
      while true
        invariant done < n && a == va + done * PGSIZE && q == pa + done && Valid() && Root(use, root)
        invariant MappedRun(tables, root, v, pa, perm, done) && |free| <= |old(free)| <= |free| + 2 * done
        invariant MapsKept(old(tables), old(use), tables, use, root, v, v + done)
        invariant MappedUse(old(use), use, root, pa, done) && DataKept(old(use), old(data), use, data)
        decreases n - done
      {
        ghost var tables1, use1, data1 := tables, use, data;
        PageOf(va, done);
        ghost var w := v + done;
        assert w < MAXPAGE;
        assert Unmapped(old(tables), root, w) && SameAt(old(tables), tables, root, w);
        StillMappable(old(use), use, root, pa, done, n);
        assert MappableAt(use, pa, done);
        var ok := MapPage(root, a, q, perm);
        ghost var more := if ok then 1 else 0;
        MappedUseTwice(old(use), use1, use, root, pa, done, more);
        MappedData(old(use), old(data), use1, data1, use, data, root, pa, done, more);
        if !ok {
          MapsKeptTwice(old(tables), old(use), tables1, use1, tables, use, root, v, v + done, w, w, v, v + done);
          RunStays(tables1, use1, tables, use, root, v, pa, perm, done);
          r := -1;
          return;
        }
        MapsKeptTwice(old(tables), old(use), tables1, use1, tables, use, root, v, v + done, w, w + 1, v, v + done + 1);
        RunStep(tables1, use1, tables, use, root, v, pa, perm, done);
        done := done + 1;
        if a == last {
          break;
        }
        a := a + PGSIZE;
        q := q + 1;
      }
      r := 0;
    }

    /** One turn of uvmunmap's loop: whatever the page at `a` maps to is unmapped. */
    method UnmapPage(root: int, a: nat, doFree: bool)
      requires Valid() && Root(use, root) && a < MAXVA
      requires doFree ==> OwnsAt(tables, use, root, a / PGSIZE)
      modifies `free, `use, `data, `tables
      ensures Valid() && Root(use, root) && tables.Keys == old(tables).Keys
      ensures Unmapped(tables, root, a / PGSIZE)
      ensures MapsKept(old(tables), old(use), tables, use, root, a / PGSIZE, a / PGSIZE + 1)
      ensures old(Lookup(tables, root, a / PGSIZE)) == None ==> use == old(use)
      ensures old(Lookup(tables, root, a / PGSIZE)).Some? ==>
        var f := old(Lookup(tables, root, a / PGSIZE)).value.frame;
        use == if f in old(use) && old(use)[f].Node? then old(use)[f := if doFree then Free else Held] else old(use)
      ensures DataKept(old(use), old(data), use, data)
    {
      hide TableOk, PteOk, UseOk, Listed, LowTable, Child;
      ghost var w := a / PGSIZE;
      var f, i := Walk(root, a, false);
      if f == 0 {
        NoLowTable(tables, root, w);
        return;
      }
      if !V(tables[f][i]) {
        EntryUnmapped(tables, root, w, f);
        return;
      }
      EntryMapped(tables, root, w, f);
      var q := tables[f][i].frame;
      ClearStep(tables, use, root, w, f, if doFree then Free else Held);
      if doFree {
        Kfree(q);
      } else if q in use && use[q].Node? {
        ListedStays(free, use, q, Held);
        use := use[q := Held];
      }
      tables := Set(tables, f, i, ZERO);
    }

    /** Removes the mappings of npages pages from va; the pages themselves are freed if doFree, and left to
        the caller otherwise. Tables stay. */
    method Uvmunmap(root: int, va: nat, npages: nat, doFree: bool)
      requires Valid() && Root(use, root) && va % PGSIZE == 0 && va + npages * PGSIZE <= MAXVA
      requires doFree ==> OwnsRange(tables, use, root, va / PGSIZE, va / PGSIZE + npages)
      modifies `free, `use, `data, `tables
      ensures Valid() && Root(use, root) && tables.Keys == old(tables).Keys
      ensures NoneMapped(tables, root, va / PGSIZE, va / PGSIZE + npages)
      ensures MapsKept(old(tables), old(use), tables, use, root, va / PGSIZE, va / PGSIZE + npages)
      ensures UnmappedUse(old(use), use, root, va / PGSIZE, va / PGSIZE + npages, if doFree then Free else Held)
      ensures DataKept(old(use), old(data), use, data)
    {
      hide Ok, Listed, MapsKept, NoneMapped, UnmappedUse, DataKept, OwnsRange, OwnsAt, Lookup;
      ghost var lo, to := va / PGSIZE, if doFree then Free else Held;
      ghost var k: nat := 0;
      var a := va;
      UnmapStarts(tables, use, data, root, lo, to);
      while a < va + npages * PGSIZE
        invariant k <= npages && a == va + k * PGSIZE
        invariant Valid() && Root(use, root) && tables.Keys == old(tables).Keys
        invariant NoneMapped(tables, root, lo, lo + k)
        invariant MapsKept(old(tables), old(use), tables, use, root, lo, lo + k)
        invariant UnmappedUse(old(use), use, root, lo, lo + k, to)
        invariant DataKept(old(use), old(data), use, data)
      {
        ghost var tables1, use1, data1 := tables, use, data;
        PageOf(va, k);
        ghost var w := lo + k;
        NextToUnmap(old(tables), old(use), tables, use, root, lo, w, lo + npages, to, doFree);
        UnmapPage(root, a, doFree);
        UnmappedUseStep(old(tables), old(use), tables1, use1, use, root, lo, w, to);
        MapsKeptTwice(old(tables), old(use), tables1, use1, tables, use, root, lo, w, w, w + 1, lo, w + 1);
        NoneMappedStep(tables1, use1, tables, use, root, lo, w);
        UnmappedData(old(use), old(data), use1, data1, use, data, root, lo, w, to);
        a := a + PGSIZE;
        k := k + 1;
      }
    }

    /** Takes a page, fills it, and maps it at `a`. If that fails, the free list has run out on the way: the
        page just taken is all that is left, and has been given back. */
    method AllocPage(root: int, a: nat, flags: nat, bytes: Page) returns (f: int)
      requires Valid() && Root(use, root) && a % PGSIZE == 0 && a < MAXVA && |bytes| == PGSIZE
      requires Leaf(Pte(OrV(flags), 0)) && Unmapped(tables, root, a / PGSIZE)
      modifies `free, `use, `data, `tables
      ensures Valid() && Root(use, root)
      ensures f == 0 ==> TablesGrew(old(use), use, root) && MapsKept(old(tables), old(use), tables, use, root, 0, 0)
      ensures f == 0 ==> |free| <= 1 && |old(free)| <= 2
      ensures |free| <= |old(free)| && (f != 0 ==> |old(free)| <= |free| + 3)
      ensures f != 0 ==> OnePageUse(old(use), use, root, f) && f in data && data[f] == bytes
      ensures f != 0 ==> MapsTo(tables, root, a / PGSIZE, Pte(OrV(flags), f))
      ensures f != 0 ==> MapsKept(old(tables), old(use), tables, use, root, a / PGSIZE, a / PGSIZE + 1)
      ensures DataKept(old(use), old(data), use, data)
    {
      hide Ok, Listed, Lookup, MapsKept, OnePageUse, TablesGrew, MappedUse, DataKept;
      ghost var w := a / PGSIZE;
      ghost var tables0, use0, data0 := tables, use, data;
      f := Kalloc();
      NothingGrew(tables0, use0, data0, root);
      if f == 0 {
        return;
      }
      data := data[f := bytes];
      ghost var use1, data1 := use, data;
      Taking(tables0, use0, data0, data1, root, f);
      OnePageRun(tables, use, root, w, f);
      var r, done := Mappages(root, a, PGSIZE, f, flags);
      ghost var tables2, use2, data2 := tables, use, data;
      OnePageMapped(use0, use2, root, f, done);
      OnePageData(use0, data0, use1, data1, use2, data2, root, f, done);
      MapsKeptTwice(tables0, use0, tables0, use1, tables2, use2, root, 0, 0, w, w + done, w, w + done);
      if r != 0 {
        HeldOk(tables, use2, f, Free, root);
        MapsKeptTwice(tables0, use0, tables2, use2, tables, use2[f := Free], root, w, w + done, 0, 0, w, w + done);
        EmptyRange(tables0, use0, tables, use2[f := Free], root, w);
        DataFreed(use0, data0, use2, data2, f);
        Kfree(f);
        f := 0;
      } else {
        assert RunAt(tables, root, w, f, flags, 0);
      }
    }

    /** Shrinks a process from oldsz to newsz bytes. */
    method Uvmdealloc(root: int, oldsz: nat, newsz: nat) returns (sz: nat)
      requires Valid() && Root(use, root) && oldsz <= MAXVA
      requires OwnsRange(tables, use, root, Pages(newsz), Pages(oldsz))
      modifies `free, `use, `data, `tables
      ensures Valid() && Root(use, root) && tables.Keys == old(tables).Keys
      ensures sz == if newsz < oldsz then newsz else oldsz
      ensures NoneMapped(tables, root, Pages(newsz), Pages(oldsz)) || newsz >= oldsz
      ensures MapsKept(old(tables), old(use), tables, use, root, Pages(newsz), Pages(oldsz))
      ensures UnmappedUse(old(use), use, root, Pages(newsz), Pages(oldsz), Free)
      ensures DataKept(old(use), old(data), use, data)
    {
      hide Ok, Listed, Lookup, OwnsRange, DataKept;
      assert newsz >= oldsz ==> Pages(newsz) >= Pages(oldsz);
      NothingUnmapped(use, root, Pages(newsz), Pages(oldsz));
      DataSame(use, data);
      if newsz >= oldsz {
        return oldsz;
      }
      if RoundUp(newsz) < RoundUp(oldsz) {
        var npages := (RoundUp(oldsz) - RoundUp(newsz)) / PGSIZE;
        Uvmunmap(root, RoundUp(newsz), npages, true);
      }
      sz := newsz;
    }

    /** Grows a process from oldsz to newsz bytes with zeroed pages. If memory runs out (`ok` is false),
        everything that was mapped before is mapped as before, and nothing else is. It does not run out
        while there is a page and room for two tables for each page to be mapped. */
    method Uvmalloc(root: int, oldsz: nat, newsz: nat, xperm: nat) returns (sz: nat, ghost ok: bool)
      requires Valid() && Root(use, root) && newsz <= MAXVA
      requires xperm == 0 || xperm == PTE_W || xperm == PTE_X || xperm == PTE_W + PTE_X
      requires NoneMapped(tables, root, Pages(oldsz), Pages(newsz))
      modifies `free, `use, `data, `tables
      ensures Valid() && Root(use, root)
      ensures newsz < oldsz ==> ok && sz == oldsz && unchanged(this)
      ensures newsz >= oldsz ==> sz == if ok then newsz else 0
      ensures newsz >= oldsz && ok ==>
        && ZeroRun(tables, use, data, root, Pages(oldsz), Pages(newsz), PTE_R + PTE_U + xperm + PTE_V)
        && MapsKept(old(tables), old(use), tables, use, root, Pages(oldsz), Pages(newsz))
        && FilledUse(old(use), use, root, Pages(oldsz), Pages(newsz))
      ensures !ok ==> |old(free)| < 3 * (Pages(newsz) - Pages(oldsz))
      ensures !ok ==> MapsKept(old(tables), old(use), tables, use, root, 0, 0) && TablesGrew(old(use), use, root)
      ensures DataKept(old(use), old(data), use, data)
    {
      hide Ok, Listed, NoneMapped, MapsKept, ZeroRun, FilledUse, TablesGrew, DataKept, OnePageUse, OwnsRange,
        UnmappedUse, BusyKept, Pages, OrV;
      ok := true;
      DataSame(use, data);
      if newsz < oldsz {
        return oldsz, true;
      }
      ghost var lo, flags := Pages(oldsz), PTE_R + PTE_U + xperm;
      ghost var hi := lo;
      OrFlags(xperm);
      FillingStarts(tables, use, data, root, lo, flags + PTE_V);
      var a := RoundUp(oldsz);
      while a < newsz
        invariant lo <= hi && (hi == lo || hi <= Pages(newsz)) && a == hi * PGSIZE
        invariant Valid() && Root(use, root)
        invariant |old(free)| <= |free| + 3 * (hi - lo)
        invariant ZeroRun(tables, use, data, root, lo, hi, flags + PTE_V)
        invariant MapsKept(old(tables), old(use), tables, use, root, lo, hi)
        invariant FilledUse(old(use), use, root, lo, hi)
        invariant DataKept(old(use), old(data), use, data)
        decreases newsz - a
      {
        ghost var tables1, use1, data1 := tables, use, data;
        PageBelow(a, hi, newsz);
        NextUnmapped(old(tables), old(use), tables, use, root, lo, hi, Pages(newsz));
        FilledKeeps(old(use), use, root, lo, hi);
        var mem := AllocPage(root, a, PTE_R + PTE_U + xperm, Filled(0));
        DataKeptTwice(old(use), old(data), use1, data1, use, data);
        if mem == 0 {
          FilledTables(old(use), tables1, use1, use, root, lo, hi);
          FilledKeeps(old(use), use, root, lo, hi);
          MapsKeptTwice(old(tables), old(use), tables1, use1, tables, use, root, lo, hi, 0, 0, lo, hi);
          OwnedStays(tables1, use1, data1, tables, use, data, root, lo, hi, flags + PTE_V);
          ghost var tables2, use2, data2 := tables, use, data;
          var back := Uvmdealloc(root, a, oldsz);
          DataKeptTwice(old(use), old(data), use2, data2, use, data);
          NoneBelow(old(tables), root, lo, hi, Pages(newsz));
          Undone(old(tables), old(use), use2, use, root, lo, hi);
          UnmappedAgain(old(tables), old(use), tables2, use2, tables, use, root, lo, hi);
          return 0, false;
        }
        FilledStep(old(use), tables1, use1, tables, use, root, lo, hi, mem);
        ZeroStep(tables1, use1, data1, tables, use, data, root, lo, hi, flags + PTE_V, mem);
        MapsKeptTwice(old(tables), old(use), tables1, use1, tables, use, root, lo, hi, hi, hi + 1, lo, hi + 1);
        hi := hi + 1;
        a := a + PGSIZE;
      }
      LastPage(a, lo, hi, oldsz, newsz);
      sz := newsz;
    }

    /** A table for a new process, or 0. */
    method Uvmcreate() returns (root: int)
      requires Valid()
      modifies `free, `use, `data, `tables
      ensures Valid()
      ensures root == 0 ==> unchanged(this) && free == []
      ensures root != 0 ==> Root(use, root) && root !in old(tables) && NoneMapped(tables, root, 0, MAXPAGE)
      ensures root != 0 ==> MapsKept(old(tables), old(use), tables, use, root, 0, 0)
      ensures root != 0 ==> root in old(use) && old(use)[root] == Free && use == old(use)[root := Node(root, 2, 0, 0)]
    {
      root := Kalloc();
      if root == 0 {
        return;
      }
      NewRoot(tables, old(use), root);
      ListedStays(free, use, root, Node(root, 2, 0, 0));
      tables := tables[root := Zeros()];
      use := use[root := Node(root, 2, 0, 0)];
      assert use == old(use)[root := Node(root, 2, 0, 0)];
    }

    /** One turn of uvmcopy's loop. f is the new page, 0 if there was nothing to copy. */
    method CopyPage(from: int, to: int, a: nat) returns (ok: bool, ghost f: int)
      requires Valid() && Root(use, from) && Root(use, to) && a % PGSIZE == 0 && a < MAXVA
      requires Unmapped(tables, to, a / PGSIZE)
      requires Copyable(tables, data, from, a / PGSIZE)
      modifies `free, `use, `data, `tables
      ensures Valid() && Root(use, to)
      ensures ok ==> CopiedAt(old(tables), old(data), tables, use, data, from, to, a / PGSIZE)
      ensures ok ==> MapsKept(old(tables), old(use), tables, use, to, a / PGSIZE, a / PGSIZE + 1)
      ensures ok && f == 0 ==> unchanged(this)
      ensures ok ==>
        (f == 0 <==> old(Unmapped(tables, from, a / PGSIZE))) && |old(free)| <= |free| + if f == 0 then 0 else 3
      ensures !ok ==> old(!Unmapped(tables, from, a / PGSIZE)) && |old(free)| <= 2
      ensures ok && f != 0 ==> OnePageUse(old(use), use, to, f)
      ensures ok && f != 0 ==> Lookup(tables, to, a / PGSIZE).Some? && Lookup(tables, to, a / PGSIZE).value.frame == f
      ensures !ok ==> MapsKept(old(tables), old(use), tables, use, to, 0, 0) && TablesGrew(old(use), use, to)
      ensures DataKept(old(use), old(data), use, data)
    {
      hide Ok, Listed, MapsKept, TablesGrew, DataKept, OnePageUse, LowTable, Child, OrV;
      ghost var w := a / PGSIZE;
      FillingStarts(tables, use, data, to, w, 0);
      WiderRange(tables, use, tables, use, to, w, w + 1);
      f := 0;
      var low, i := Walk(from, a, false);
      if low == 0 {
        NoLowTable(tables, from, w);
        return true, 0;
      }
      if !V(tables[low][i]) {
        EntryUnmapped(tables, from, w, low);
        return true, 0;
      }
      EntryMapped(tables, from, w, low);
      var p := tables[low][i];
      LeafAnyFrame(p);
      var mem := AllocPage(to, a, p.flags, data[p.frame]);
      f := mem;
      ok := mem != 0;
      if ok {
        IsNode(old(use), use, to, f);
      }
    }

    /** Copies the first sz bytes' worth of pages of one process to another that has none there. If memory
        runs out, the second one ends up with none again. */
    method Uvmcopy(from: int, to: int, sz: nat) returns (r: int)
      requires Valid() && Root(use, from) && Root(use, to) && from != to && sz <= MAXVA
      requires OwnsRange(tables, use, from, 0, Pages(sz)) && NoneMapped(tables, to, 0, Pages(sz))
      modifies `free, `use, `data, `tables
      ensures Valid() && Root(use, from) && Root(use, to)
      ensures r == 0 || r == -1
      ensures r == 0 ==> CopiedTo(old(tables), old(data), tables, use, data, from, to, Pages(sz))
      ensures r == 0 ==> MapsKept(old(tables), old(use), tables, use, to, 0, Pages(sz))
      ensures r == 0 ==> FilledUse(old(use), use, to, 0, Pages(sz))
      ensures r == -1 ==> |old(free)| < 3 * MappedPages(old(tables), from, Pages(sz))
      ensures r == -1 ==> MapsKept(old(tables), old(use), tables, use, to, 0, 0) && TablesGrew(old(use), use, to)
      ensures DataKept(old(use), old(data), use, data)
    {
      hide Ok, Listed, NoneMapped, MapsKept, FilledUse, TablesGrew, DataKept, OnePageUse, OwnsRange, OwnsAt,
        UnmappedUse, BusyKept, Pages, OrV, CopiedTo, CopiedAt, LowTable, Child, Lookup,
        MappedPages;
      ghost var tables0, use0, data0 := tables, use, data;
      FillingStarts(tables, use, data, to, 0, 0);
      CopyStarts(tables, use, data, from, to);
      ghost var n: nat := 0;
      var i := 0;
      while i < sz
        invariant i == n * PGSIZE && (n == 0 || n <= Pages(sz))
        invariant Valid() && Root(use, from) && Root(use, to)
        invariant |old(free)| <= |free| + 3 * MappedPages(tables0, from, n)
        invariant CopiedTo(tables0, data0, tables, use, data, from, to, n)
        invariant MapsKept(tables0, use0, tables, use, to, 0, n)
        invariant FilledUse(use0, use, to, 0, n) && DataKept(use0, data0, use, data)
        decreases sz - i
      {
        PageBelow(i, n, sz);
        NextUnmapped(tables0, use0, tables, use, to, 0, n, Pages(sz));
        FilledKeeps(use0, use, to, 0, n);
        OwnedAt(tables0, use0, from, 0, Pages(sz), n);
        Original(tables0, use0, data0, tables, use, data, from, to, n);
        ghost var tables1, use1, data1 := tables, use, data;
        CopyableHere(tables0, use0, data0, tables, use, data, from, n);
        var ok, f := CopyPage(from, to, i);
        DataKeptTwice(use0, data0, use1, data1, use, data);
        MappedNext(tables0, tables1, from, n, Pages(sz));
        if !ok {
          FilledTables(use0, tables1, use1, use, to, 0, n);
          GrewKeeps(use1, use, to);
          MapsKeptTwice(tables0, use0, tables1, use1, tables, use, to, 0, n, 0, 0, 0, n);
          WiderRange(tables1, use1, tables, use, to, n, n + 1);
          CopyStep(tables0, data0, tables1, use1, data1, tables, use, data, from, to, n);
          CopyOwned(tables0, data0, tables, use, data, from, to, n);
          FilledKeeps(use0, use, to, 0, n);
          ghost var tables2, use2, data2 := tables, use, data;
          Uvmunmap(to, 0, i / PGSIZE, true);
          DataKeptTwice(use0, data0, use2, data2, use, data);
          NoneBelow(tables0, to, 0, n, Pages(sz));
          Undone(tables0, use0, use2, use, to, 0, n);
          UnmappedAgain(tables0, use0, tables2, use2, tables, use, to, 0, n);
          return -1;
        }
        MapsKeptTwice(tables0, use0, tables1, use1, tables, use, to, 0, n, n, n + 1, 0, n + 1);
        if f == 0 {
          FilledWider(use0, use, to, 0, n);
          NothingGrew(tables, use, data, to);
          GrewKeeps(use1, use, to);
        } else {
          FilledStep(use0, tables1, use1, tables, use, to, 0, n, f);
          OnePageKeeps(use1, use, to, f);
        }
        Recopied(tables0, data0, tables1, data1, tables, use, data, from, to, n);
        CopyStep(tables0, data0, tables1, use1, data1, tables, use, data, from, to, n);
        CopyOne(tables0, data0, tables, use, data, from, to, n);
        n := n + 1;
        i := i + PGSIZE;
      }
      LastPage(i, 0, n, 0, sz);
      r := 0;
    }

    /** Frees a tree of tables, each of them once. No leaf may be left; the panic cannot happen then. The
        entry that pointed to `f` is the caller's to clear. */
    method Freewalk(f: int)
      requires Valid() && f in tables && IsTable(use, f) && Bare(tables, use, f)
      requires use[f].level == 2 ==> use[f].parent !in use
      modifies `free, `use, `data, `tables
      ensures Pool() && OkBut(tables, use, old(use)[f].parent, old(use)[f].index)
      ensures old(use)[f].level == 2 ==> Ok(tables, use)
      ensures Freed(old(tables), old(use), tables, use, f)
      ensures DataKept(old(use), old(data), use, data)
      decreases use[f].level
    {
      hide Listed, DataKept, Shrinking, OthersStay, Freed, OkBut, Bare, UseOk;
      ghost var tables0, use0, data0 := tables, use, data;
      ShrinkStarts(tables, use, data, f);
      assert TableOk(tables, use, f);
      var i := 0;
      while i < 512
        invariant 0 <= i <= 512 && Valid() && f in tables && f in use && use[f] == use0[f] && |tables[f]| == ENTRIES
        invariant forall j :: 0 <= j < i ==> !V(tables[f][j])
        invariant Shrinking(use0, use, f) && OthersStay(tables0, tables, use, f) && DataKept(use0, data0, use, data)
        invariant Bare(tables, use, f) && use.Keys == use0.Keys
      {
        var pte := tables[f][i];
        assert PteOk(tables, use, f, i);
        BareHere(tables, use, f, i);
        if V(pte) && !Leaf(pte) {
          ghost var tables1, use1, data1 := tables, use, data;
          var child := pte.frame;
          ChildTable(tables, use, f, i);
          Freewalk(child);
          ShrinkStep(tables0, use0, tables1, use1, tables, use, f, child);
          FreedData(use0, data0, tables1, use1, data1, tables, use, data, f, child);
          CloseHole(tables, use, f, i);
          StillBare(tables1, use1, tables, use, f, child, i);
          tables := Set(tables, f, i, ZERO);
        } else if V(pte) {
          assert false;   // panic: freewalk: leaf
        }
        i := i + 1;
      }
      AllFreed(tables0, use0, tables, use, f);
      DropTable(tables, use, f);
      LastData(use0, data0, use, data, f);
      Kfree(f);
      tables := tables - {f};
    }

    /** Frees a process's memory: its pages, all below sz, and then its tables. */
    method Uvmfree(root: int, sz: nat)
      requires Valid() && Root(use, root) && sz <= MAXVA
      requires OwnsRange(tables, use, root, 0, Pages(sz)) && NoneMapped(tables, root, Pages(sz), MAXPAGE)
      modifies `free, `use, `data, `tables
      ensures Valid()
      ensures TreeFreed(old(use), use, root)
      ensures OthersKept(old(tables), old(use), tables, use, root)
      ensures DataKept(old(use), old(data), use, data)
    {
      hide Listed, MapsKept, NoneMapped, OwnsRange, UnmappedUse, DataKept, Freed, Bare, TreeFreed, OthersKept, Pages;
      ghost var tables0, use0, data0 := tables, use, data;
      ghost var hi := Pages(sz);
      NothingUnmapped(use, root, 0, 0);
      FillingStarts(tables, use, data, root, 0, 0);
      EmptyUnmapped(tables, root);
      PagesZero();
      if sz > 0 {
        Uvmunmap(root, 0, RoundUp(sz) / PGSIZE, true);
      }
      AllUnmapped(tables0, use0, tables, use, root, hi);
      NothingMappedBare(tables, use, root);
      ghost var tables1, use1, data1 := tables, use, data;
      assert UseOk(tables, use, root);
      Freewalk(root);
      TreeGone(tables0, use0, tables1, use1, tables, use, root, hi);
      OthersKeptAll(tables0, use0, tables1, use1, tables, use, root, hi);
      AllData(use0, data0, tables1, use1, data1, tables, use, data, root, hi);
    }

    /** The physical page behind a user address, or 0. */
    method Walkaddr(root: int, va: nat) returns (f: int)
      requires Valid() && Root(use, root)
      modifies `free, `use, `data, `tables
      ensures Valid() && unchanged(this)
      ensures f == UserFrame(tables, root, va)
    {
      if va >= MAXVA {
        return 0;
      }
      var low, i := Walk(root, va, false);
      if low == 0 {
        return 0;
      }
      if !V(tables[low][i]) {
        return 0;
      }
      if !U(tables[low][i]) {
        return 0;
      }
      f := tables[low][i].frame;
    }

    /** Brings in a page below sz that is not there yet, zeroed. To the process nothing changes: the page
        reads as it did. */
    method Vmfault(root: int, sz: nat, va: nat) returns (f: int)
      requires Valid() && Root(use, root) && sz <= MAXVA && UserOwned(tables, use, root)
      modifies `free, `use, `data, `tables
      ensures Valid() && Root(use, root) && UserOwned(tables, use, root)
      ensures Poked(old(tables), old(use), old(data), tables, data, root, 0, [])
      ensures NoneLost(old(tables), tables, root)
      ensures forall s :: s in old(use) && Root(old(use), s) ==> Root(use, s)
      ensures MapsKept(old(tables), old(use), tables, use, root, va / PGSIZE, va / PGSIZE + 1)
      ensures |old(free)| <= |free| + 3
      ensures f == 0 ==> va >= sz || !old(Unmapped(tables, root, va / PGSIZE)) || |old(free)| <= 2
      ensures f != 0 ==> va < sz && old(Unmapped(tables, root, va / PGSIZE))
      ensures f != 0 ==> f == UserFrame(tables, root, va) && Writable(tables, root, va)
    {
      hide Ok, Listed, Lookup, OnePageUse, TablesGrew, Poked, NoneLost, UserOwned, DataKept, BusyKept;
      NothingGrew(tables, use, data, root);
      GrewKeeps(use, use, root);
      BytesKept(tables, use, data, tables, use, data, root, 0);
      FaultKept(tables, use, tables, use, root, 0, 0);
      WiderRange(tables, use, tables, use, root, va / PGSIZE, va / PGSIZE + 1);
      if va >= sz {
        return 0;
      }
      ghost var w := va / PGSIZE;
      var page := va / PGSIZE * PGSIZE;
      PageBelow(page, w, page + 1);
      var mapped := IsMapped(root, page);
      if mapped {
        return 0;
      }
      ghost var tables0, use0, data0 := tables, use, data;
      UserFlags();
      f := AllocPage(root, page, PTE_W + PTE_U + PTE_R, Filled(0));
      if f == 0 {
        GrewKeeps(use0, use, root);
        WiderRange(tables0, use0, tables, use, root, w, w + 1);
        BytesKept(tables0, use0, data0, tables, use, data, root, 0);
        FaultKept(tables0, use0, tables, use, root, 0, 0);
      } else {
        OnePageKeeps(use0, use, root, f);
        IsNode(use0, use, root, f);
        FaultedIn(tables, use, root, va, f);
        BytesZero(tables0, use0, data0, tables, use, data, root, w, f, 0);
        FaultKept(tables0, use0, tables, use, root, w, w + 1);
      }
    }

    method IsMapped(root: int, va: nat) returns (b: bool)
      requires Valid() && Root(use, root) && va < MAXVA
      modifies `free, `use, `data, `tables
      ensures Valid() && unchanged(this)
      ensures b <==> !Unmapped(tables, root, va / PGSIZE)
    {
      var low, i := Walk(root, va, false);
      if low == 0 {
        return false;
      }
      b := V(tables[low][i]);
    }

    /** One turn of copyout's loop: a chunk that stays within one page. */
    method CopyoutPage(root: int, sz: nat, va: nat, chunk: seq<int>) returns (ok: bool)
      requires Valid() && Root(use, root) && sz <= MAXVA && UserOwned(tables, use, root)
      requires va % PGSIZE + |chunk| <= PGSIZE
      modifies `free, `use, `data, `tables
      ensures Valid() && Root(use, root) && UserOwned(tables, use, root)
      ensures Poked(old(tables), old(use), old(data), tables, data, root, va, if ok then chunk else [])
      ensures NoneLost(old(tables), tables, root)
      ensures forall s :: s in old(use) && Root(old(use), s) ==> Root(use, s)
      ensures MapsKept(old(tables), old(use), tables, use, root, va / PGSIZE, va / PGSIZE + 1)
      ensures |old(free)| <= |free| + 3
      ensures ok ==> va < MAXVA
      ensures old(CanWrite(tables, root, va)) ==> ok
      ensures va < sz && old(Unmapped(tables, root, va / PGSIZE)) && |old(free)| > 2 ==> ok
    {
      hide Ok, Listed, Poked, NoneLost, UserOwned, OwnsAt, BusyKept;
      ghost var tables0, use0, data0 := tables, use, data;
      PokedNothing(tables, use, data, root, va);
      PokedNothing(tables, use, data, root, 0);
      LostNothing(tables, root);
      NothingGrew(tables, use, data, root);
      WiderRange(tables, use, tables, use, root, va / PGSIZE, va / PGSIZE + 1);
      var va0 := va / PGSIZE * PGSIZE;
      PageStart(va);
      if va0 >= MAXVA {
        return false;
      }
      FrameOfStart(tables, root, va);
      var pa0 := Walkaddr(root, va0);
      if pa0 == 0 {
        pa0 := Vmfault(root, sz, va0);
        EmptyPoke(tables0, use0, data0, tables, data, root, va);
        if pa0 == 0 {
          return false;
        }
        FrameOfStart(tables, root, va);
      }
      var low, i := Walk(root, va0, false);
      FrameEntry(tables, use, root, va, low, pa0);
      if !W(tables[low][i]) {
        return false;
      }
      ghost var tables1, data1 := tables, data;
      BytesWritten(tables, use, data, root, va, chunk);
      data := data[pa0 := Patch(data[pa0], va % PGSIZE, chunk)];
      PokedTwice(tables0, use0, data0, tables1, use, data1, tables, data, root, va, [], chunk);
      assert [] + chunk == chunk;
      ok := true;
    }

    /** Copies src[..len] to user address dstva. On failure `done` bytes have gone out. It does not fail on
        writable pages, nor on missing ones that memory is left for. */
    method Copyout(root: int, sz: nat, dstva: nat, src: seq<int>, len: nat) returns (r: int, ghost done: nat)
      requires Valid() && Root(use, root) && sz <= MAXVA && UserOwned(tables, use, root) && len <= |src|
      modifies `free, `use, `data, `tables
      ensures Valid() && Root(use, root) && UserOwned(tables, use, root)
      ensures (r == 0 || r == -1) && done <= len && (r == 0 <==> done == len)
      ensures done > 0 ==> dstva + done <= MAXVA
      ensures Poked(old(tables), old(use), old(data), tables, data, root, dstva, src[..done])
      ensures (forall a :: dstva <= a < dstva + len ==> old(CanWrite(tables, root, a))) ==> r == 0
      ensures |old(free)| >= 3 * Span(dstva, len) ==>
        (forall a :: dstva <= a < dstva + len ==> old(CanWriteSoon(tables, root, sz, a))) ==> r == 0
    {
      hide Ok, Listed, Poked, NoneLost, UserOwned, CanWrite, CanWriteSoon, MapsKept, Lookup, Span;
      ghost var tables0, use0, data0 := tables, use, data;
      PokedNothing(tables, use, data, root, dstva);
      LostNothing(tables, root);
      NothingGrew(tables, use, data, root);
      SpanNone(tables, use, root, dstva);
      done := 0;
      var left: nat, at: nat, from: nat := len, dstva, 0;
      assert src[..0] == [];
      while left > 0
        invariant done == from && done + left == len && at == dstva + done && Valid() && Root(use, root)
          && UserOwned(tables, use, root)
        invariant done > 0 ==> at <= MAXVA
        invariant Poked(tables0, use0, data0, tables, data, root, dstva, src[..done])
        invariant NoneLost(tables0, tables, root)
        invariant forall s :: s in use0 && Root(use0, s) ==> Root(use, s)
        invariant MapsKept(tables0, use0, tables, use, root, dstva / PGSIZE, dstva / PGSIZE + Span(dstva, done))
        invariant |old(free)| <= |free| + 3 * Span(dstva, done) && (done == 0 || left == 0 || at % PGSIZE == 0)
        decreases left
      {
        var n := PGSIZE - at % PGSIZE;
        if n > left {
          n := left;
        }
        ghost var tables1, use1, data1 := tables, use, data;
        StillWritable(tables0, tables, root, at);
        SpanStep(dstva, done, len);
        ghost var v, w := dstva / PGSIZE, at / PGSIZE;
        StillMissing(tables0, use0, tables, use, root, v, w, sz, at);
        assert dstva <= at < dstva + len;
        var ok := CopyoutPage(root, sz, at, src[from..from + n]);
        PokedTwice(tables0, use0, data0, tables1, use1, data1, tables, data, root, dstva, src[..done],
          if ok then src[done..done + n] else []);
        NoneLostTwice(tables0, tables1, tables, root);
        MapsKeptTwice(tables0, use0, tables1, use1, tables, use, root, v, w, w, w + 1, v, w + 1);
        if !ok {
          assert src[..done] + [] == src[..done];
          return -1, done;
        }
        assert src[..done] + src[done..done + n] == src[..done + n];
        ChunkEnd(at, n);
        left := left - n;
        from, done := from + n, done + n;
        at := at + n;
      }
      r := 0;
    }

    /** The page that copyin is to read at va, faulted in if need be, or 0. */
    method CopyinPage(root: int, sz: nat, va: nat) returns (pa0: int)
      requires Valid() && Root(use, root) && sz <= MAXVA && UserOwned(tables, use, root)
      modifies `free, `use, `data, `tables
      ensures Valid() && Root(use, root) && UserOwned(tables, use, root)
      ensures Poked(old(tables), old(use), old(data), tables, data, root, 0, [])
      ensures NoneLost(old(tables), tables, root)
      ensures forall s :: s in old(use) && Root(old(use), s) ==> Root(use, s)
      ensures MapsKept(old(tables), old(use), tables, use, root, va / PGSIZE, va / PGSIZE + 1)
      ensures |old(free)| <= |free| + 3
      ensures pa0 != 0 ==> pa0 == UserFrame(tables, root, va)
      ensures pa0 == 0 ==> old(UserFrame(tables, root, va)) == 0
      ensures pa0 == 0 ==> va >= sz || !old(Unmapped(tables, root, va / PGSIZE)) || |old(free)| <= 2
    {
      hide Ok, Listed, Poked, NoneLost, UserOwned, BusyKept;
      PokedNothing(tables, use, data, root, 0);
      LostNothing(tables, root);
      NothingGrew(tables, use, data, root);
      WiderRange(tables, use, tables, use, root, va / PGSIZE, va / PGSIZE + 1);
      PageStart(va);
      FrameOfStart(tables, root, va);
      var va0 := va / PGSIZE * PGSIZE;
      pa0 := Walkaddr(root, va0);
      if pa0 == 0 {
        pa0 := Vmfault(root, sz, va0);
        FrameOfStart(tables, root, va);
      }
    }

    /** Copies len bytes from user address srcva; likewise. */
    method Copyin(root: int, sz: nat, srcva: nat, len: nat) returns (r: int, dst: seq<int>)
      requires Valid() && Root(use, root) && sz <= MAXVA && UserOwned(tables, use, root)
      modifies `free, `use, `data, `tables
      ensures Valid() && Root(use, root) && UserOwned(tables, use, root)
      ensures r == 0 || r == -1
      ensures r == 0 ==>
        |dst| == len && CopiedFrom(old(tables), old(data), root, srcva, dst) && (len > 0 ==> srcva + len <= MAXVA)
      ensures Poked(old(tables), old(use), old(data), tables, data, root, 0, [])
      ensures (forall a :: srcva <= a < srcva + len ==> old(UserFrame(tables, root, a)) != 0) ==> r == 0
      ensures |old(free)| >= 3 * Span(srcva, len) ==>
        (forall a :: srcva <= a < srcva + len ==> old(CanReadSoon(tables, root, sz, a))) ==> r == 0
    {
      hide Ok, Listed, Poked, NoneLost, UserOwned, BusyKept, CopiedFrom, CanReadSoon, MapsKept, Span;
      ghost var tables0, use0, data0 := tables, use, data;
      PokedNothing(tables, use, data, root, 0);
      LostNothing(tables, root);
      NothingGrew(tables, use, data, root);
      SpanNone(tables, use, root, srcva);
      CopiedNothing(tables, data, root, srcva);
      dst := [];
      var left: nat, at: nat := len, srcva;
      while left > 0
        invariant |dst| + left == len && at == srcva + |dst| && Valid() && Root(use, root)
          && UserOwned(tables, use, root)
        invariant |dst| > 0 ==> at <= MAXVA
        invariant CopiedFrom(tables0, data0, root, srcva, dst)
        invariant Poked(tables0, use0, data0, tables, data, root, 0, [])
        invariant NoneLost(tables0, tables, root)
        invariant forall s :: s in use0 && Root(use0, s) ==> Root(use, s)
        invariant MapsKept(tables0, use0, tables, use, root, srcva / PGSIZE, srcva / PGSIZE + Span(srcva, |dst|))
        invariant |old(free)| <= |free| + 3 * Span(srcva, |dst|) && (|dst| == 0 || left == 0 || at % PGSIZE == 0)
        decreases left
      {
        ghost var tables1, use1, data1 := tables, use, data;
        SpanStep(srcva, |dst|, len);
        ghost var v, w := srcva / PGSIZE, at / PGSIZE;
        StillUnread(tables0, use0, tables, use, root, v, w, sz, at);
        assert srcva <= at < srcva + len;
        StillUser(tables0, tables, root, at);
        var pa0 := CopyinPage(root, sz, at);
        PokedTwice(tables0, use0, data0, tables1, use1, data1, tables, data, root, 0, dst[..0], dst[..0]);
        assert dst[..0] + dst[..0] == dst[..0] == [];
        NoneLostTwice(tables0, tables1, tables, root);
        if pa0 == 0 {
          return -1, dst;
        }
        MapsKeptTwice(tables0, use0, tables1, use1, tables, use, root, v, w, w, w + 1, v, w + 1);
        var n: nat := PGSIZE - at % PGSIZE;
        if n > left {
          n := left;
        }
        UserPage(tables, use, root, at, pa0);
        ReadMore(tables0, use0, data0, tables, data, root, srcva, dst, n);
        ChunkEnd(at, n);
        dst := dst + data[pa0][at % PGSIZE..at % PGSIZE + n];
        left := left - n;
        at := at + n;
      }
      r := 0;
    }
  }
}
