/** How the steps of kernel/vm.c change the page tables and the uses of pages: what each one keeps, and how
    the changes of a loop add up. */
module VmSteps {
  import opened Basics
  import opened VmModel

  type Page = seq<int>

  function Filled(b: int): (p: Page)
    ensures |p| == PGSIZE && forall i :: 0 <= i < PGSIZE ==> p[i] == b
  {
    seq(PGSIZE, _ => b)
  }

  /** Page f is on the free list exactly once if it is free, and not at all otherwise. */
  ghost predicate Listed(free: seq<int>, use: Uses) {
    && (forall i :: 0 <= i < |free| ==> free[i] in use && use[free[i]] == Free)
    && (forall i, j :: 0 <= i < j < |free| ==> free[i] != free[j])
    && (forall f :: f in use && use[f] == Free ==> OnList(free, f))
  }

  predicate OnList(free: seq<int>, f: int) {
    exists i :: 0 <= i < |free| && free[i] == f
  }

  lemma TakeFirst(free: seq<int>, use: Uses)
    requires Listed(free, use) && free != []
    ensures Listed(free[1..], use[free[0] := Held])
  {
    var f, rest, use' := free[0], free[1..], use[free[0] := Held];
    forall g | g in use' && use'[g] == Free ensures OnList(rest, g) {
      assert OnList(free, g);
      var i :| 0 <= i < |free| && free[i] == g;
      assert rest[i - 1] == g;
    }
  }

  lemma PutFirst(free: seq<int>, use: Uses, f: int)
    requires Listed(free, use) && f in use && use[f] != Free
    ensures Listed([f] + free, use[f := Free])
  {
    var all, use' := [f] + free, use[f := Free];
    forall g | g in use' && use'[g] == Free ensures OnList(all, g) {
      if g == f {
        assert all[0] == g;
      } else {
        assert OnList(free, g);
        var i :| 0 <= i < |free| && free[i] == g;
        assert all[i + 1] == g;
      }
    }
  }

  /** A change of use that neither takes from nor gives to the free list. */
  lemma ListedStays(free: seq<int>, use: Uses, f: int, u: Use)
    requires Listed(free, use) && f in use && use[f] != Free && u != Free
    ensures Listed(free, use[f := u])
  {
  }

  // ----- what a step keeps

  predicate SameAt(tables0: Tables, tables: Tables, r: int, w: nat) {
    Lookup(tables, r, w) == Lookup(tables0, r, w)
  }

  /** Outside pages lo..hi of tree r, every tree still maps what it mapped. */
  ghost predicate MapsKept(tables0: Tables, use0: Uses, tables: Tables, use: Uses, r: int, lo: int, hi: int) {
    && (forall s :: s in use0 && Root(use0, s) ==> Root(use, s))
    && (forall s, w :: s in use0 && Root(use0, s) && 0 <= w < MAXPAGE && !(s == r && lo <= w < hi) ==>
      SameAt(tables0, tables, s, w))
  }

  lemma MapsKeptTwice(tables0: Tables, use0: Uses, tables1: Tables, use1: Uses, tables: Tables, use: Uses,
                      r: int, lo0: int, hi0: int, lo1: int, hi1: int, lo: int, hi: int)
    requires MapsKept(tables0, use0, tables1, use1, r, lo0, hi0) && MapsKept(tables1, use1, tables, use, r, lo1, hi1)
    requires (hi0 <= lo0 || lo <= lo0 <= hi0 <= hi) && (hi1 <= lo1 || lo <= lo1 <= hi1 <= hi)
    ensures MapsKept(tables0, use0, tables, use, r, lo, hi)
  {
    forall s, w | s in use0 && Root(use0, s) && 0 <= w < MAXPAGE && !(s == r && lo <= w < hi)
      ensures SameAt(tables0, tables, s, w)
    {
      assert SameAt(tables0, tables1, s, w);
      assert SameAt(tables1, tables, s, w);
    }
  }

  /** Pages keep their use, except that free ones may have become tables of tree r. */
  ghost predicate TablesGrew(use0: Uses, use: Uses, r: int) {
    && use.Keys == use0.Keys
    && (forall f :: f in use0 ==> GrewAt(use0, use, r, f))
  }

  predicate GrewAt(use0: Uses, use: Uses, r: int, f: int)
    requires f in use0
  {
    f in use && (use[f] == use0[f] || (use0[f] == Free && use[f].Node? && use[f].root == r && 0 <= use[f].level < 2))
  }

  lemma TablesGrewTwice(use0: Uses, use1: Uses, use: Uses, r: int)
    requires TablesGrew(use0, use1, r) && TablesGrew(use1, use, r)
    ensures TablesGrew(use0, use, r)
  {
    forall f | f in use0 ensures GrewAt(use0, use, r, f) {
      assert GrewAt(use0, use1, r, f) && GrewAt(use1, use, r, f);
    }
  }

  /** After the levels above `level`, walk's table pointer is f. */
  predicate Reaches(tables: Tables, root: int, vpn: nat, level: nat, f: int) {
    if level == 2 then f == root
    else if level == 1 then Child(tables, root, Px(2, vpn)) == Some(f)
    else LowTable(tables, root, vpn) == Some(f)
  }

  /** The table walk stands at is one of this tree's, of the right level. */
  predicate Standing(tables: Tables, use: Uses, root: int, vpn: nat, level: nat, f: int) {
    && level <= 2 && Reaches(tables, root, vpn, level, f)
    && f in tables && |tables[f]| == ENTRIES
    && IsTable(use, f) && use[f].level == level && use[f].root == root
  }

  lemma StandingStart(tables: Tables, use: Uses, root: int, vpn: nat)
    requires Ok(tables, use) && Root(use, root)
    ensures Standing(tables, use, root, vpn, 2, root)
  {
    assert UseOk(tables, use, root);
    assert TableOk(tables, use, root);
  }

  /** Following a valid entry. */
  lemma StandingDown(tables: Tables, use: Uses, root: int, vpn: nat, level: nat, f: int)
    requires Ok(tables, use) && Root(use, root) && Standing(tables, use, root, vpn, level, f) && level > 0
    requires V(tables[f][Px(level, vpn)])
    ensures Standing(tables, use, root, vpn, level - 1, tables[f][Px(level, vpn)].frame)
  {
    assert PteOk(tables, use, f, Px(level, vpn));
    var g := tables[f][Px(level, vpn)].frame;
    assert UseOk(tables, use, g);
    assert TableOk(tables, use, g);
  }

  /** Without a valid entry, walk cannot get to the bottom. */
  lemma StandingStuck(tables: Tables, use: Uses, root: int, vpn: nat, level: nat, f: int)
    requires Standing(tables, use, root, vpn, level, f) && level > 0 && !V(tables[f][Px(level, vpn)])
    ensures LowTable(tables, root, vpn) == None
  {
  }

  /** Going down through a page that has just been taken from the free list. */
  lemma StandingNew(tables: Tables, use0: Uses, root: int, vpn: nat, level: nat, p: int, f: int)
    requires Ok(tables, use0) && Root(use0, root) && f in use0 && use0[f] == Free
    requires Standing(tables, use0, root, vpn, level, p) && level > 0 && !V(tables[p][Px(level, vpn)]) && vpn < MAXPAGE
    ensures var use1 := use0[f := Held]; var i := Px(level, vpn);
      && CanAttach(tables, use1, p, i, f)
      && Ok(Attach(tables, p, i, f), AttachUse(use1, p, i, f))
      && Standing(Attach(tables, p, i, f), AttachUse(use1, p, i, f), root, vpn, level - 1, f)
      && MapsKept(tables, use0, Attach(tables, p, i, f), AttachUse(use1, p, i, f), root, 0, 0)
      && TablesGrew(use0, AttachUse(use1, p, i, f), root)
  {
    var use1, i := use0[f := Held], Px(level, vpn);
    PxTop(vpn);
    HeldOk(tables, use0, f, Held, root);
    HeldUnused(tables, use1, f, root, Px(2, vpn));
    AttachOk(tables, use1, p, i, f);
    forall s, w | s in use0 && Root(use0, s) && 0 <= w < MAXPAGE ensures SameAt(tables, Attach(tables, p, i, f), s, w) {
      AttachSame(tables, use1, p, i, f, s, w);
    }
    forall g | g in use0 ensures GrewAt(use0, AttachUse(use1, p, i, f), root, g) {
    }
  }

  /** Pages in use before and after hold the same bytes. */
  ghost predicate DataKept(use0: Uses, data0: map<int, Page>, use: Uses, data: map<int, Page>) {
    forall f :: f in use0 && f in use && f in data0 && use0[f] != Free && use[f] != Free ==>
      f in data && data[f] == data0[f]
  }

  // ----- writing bottom-level entries

  /** What mapping entry p does to the page it maps. */
  function MapUse(use: Uses, low: int, i: nat, f: int): Uses
    requires IsTable(use, low)
  {
    if f in use && use[f] == Held then use[f := Node(use[low].root, -1, low, i)] else use
  }

  predicate Mappable(use: Uses, f: int) {
    f !in use || use[f] == Shared || use[f] == Held
  }

  lemma MapStep(tables: Tables, use: Uses, root: int, vpn: nat, low: int, p: Pte)
    requires Ok(tables, use) && Root(use, root) && vpn < MAXPAGE && Standing(tables, use, root, vpn, 0, low)
    requires Lookup(tables, root, vpn) == None && V(p) && Leaf(p) && Mappable(use, p.frame)
    ensures var tables' := Set(tables, low, Px(0, vpn), p); var use' := MapUse(use, low, Px(0, vpn), p.frame);
      && Ok(tables', use') && Root(use', root)
      && Lookup(tables', root, vpn) == Some(p)
      && MapsKept(tables, use, tables', use', root, vpn, vpn + 1)
  {
    var i := Px(0, vpn);
    MapOk(tables, use, low, i, p);
    LeafSet(tables, use, root, vpn, p, root, vpn);
    var tables', use' := Set(tables, low, i, p), MapUse(use, low, i, p.frame);
    forall s, w | s in use && Root(use, s) && 0 <= w < MAXPAGE && !(s == root && vpn <= w < vpn + 1)
      ensures SameAt(tables, tables', s, w)
    {
      LeafSet(tables, use, root, vpn, p, s, w);
    }
  }

  /** What clearing entry i of table low does to the page it mapped. */
  function UnmapUse(use: Uses, f: int): Uses {
    if f in use && use[f].Node? then use[f := Held] else use
  }

  lemma UnmapStep(tables: Tables, use: Uses, root: int, vpn: nat, low: int)
    requires Ok(tables, use) && Root(use, root) && vpn < MAXPAGE && Standing(tables, use, root, vpn, 0, low)
    requires Lookup(tables, root, vpn).Some?
    ensures var f := Lookup(tables, root, vpn).value.frame;
      var tables' := Set(tables, low, Px(0, vpn), ZERO); var use' := UnmapUse(use, f);
      && Ok(tables', use') && Root(use', root)
      && Lookup(tables', root, vpn) == None
      && MapsKept(tables, use, tables', use', root, vpn, vpn + 1)
      && (f in use && use[f].Node? ==> use[f] == Node(root, -1, low, Px(0, vpn)))
  {
    var i := Px(0, vpn);
    UnmapOk(tables, use, low, i);
    assert PteOk(tables, use, low, i);
    LeafSet(tables, use, root, vpn, ZERO, root, vpn);
    var f := Lookup(tables, root, vpn).value.frame;
    var tables', use' := Set(tables, low, i, ZERO), UnmapUse(use, f);
    forall s, w | s in use && Root(use, s) && 0 <= w < MAXPAGE && !(s == root && vpn <= w < vpn + 1)
      ensures SameAt(tables, tables', s, w)
    {
      LeafSet(tables, use, root, vpn, ZERO, s, w);
    }
  }

  /** Clearing an entry whose page, if the tree owns it, is handed to the caller or freed. */
  lemma ClearStep(tables: Tables, use: Uses, root: int, vpn: nat, low: int, to: Use)
    requires Ok(tables, use) && Root(use, root) && vpn < MAXPAGE && Standing(tables, use, root, vpn, 0, low)
    requires Lookup(tables, root, vpn).Some? && (to == Free || to == Held)
    ensures var f := Lookup(tables, root, vpn).value.frame;
      var tables' := Set(tables, low, Px(0, vpn), ZERO);
      var use' := if f in use && use[f].Node? then use[f := to] else use;
      && Ok(tables', use') && Root(use', root)
      && Lookup(tables', root, vpn) == None
      && MapsKept(tables, use, tables', use', root, vpn, vpn + 1)
  {
    UnmapStep(tables, use, root, vpn, low);
    var f := Lookup(tables, root, vpn).value.frame;
    var tables' := Set(tables, low, Px(0, vpn), ZERO);
    if f in use && use[f].Node? {
      HeldOk(tables', use[f := Held], f, to, root);
      assert use[f := Held][f := to] == use[f := to];
      MapsKeptTwice(tables, use, tables', use[f := Held], tables', use[f := to], root, vpn, vpn + 1, 0, 0,
        vpn, vpn + 1);
    }
  }

  // ----- which virtual page a user page is for

  /** The page number that the indices on the way to user page f spell. */
  function Vpn(use: Uses, f: int): int
    requires f in use && use[f].Node?
  {
    var low := use[f].parent;
    if low in use && use[low].Node? && use[low].parent in use && use[use[low].parent].Node? then
      use[use[low].parent].index * 262144 + use[low].index * 512 + use[f].index
    else -1
  }

  /** User page f of tree r is for one of the pages lo..hi. */
  predicate InRange(use: Uses, r: int, lo: int, hi: int, f: int)
    requires f in use
  {
    use[f].Node? && use[f].level == -1 && use[f].root == r && lo <= Vpn(use, f) < hi
  }

  /** A page that the tree maps and owns is for the virtual page it is mapped at. */
  lemma MappedIsFor(tables: Tables, use: Uses, r: int, w: nat)
    requires Ok(tables, use) && Root(use, r) && w < MAXPAGE && Lookup(tables, r, w).Some?
    ensures var f := Lookup(tables, r, w).value.frame;
      f in use && use[f].Node? ==> use[f].level == -1 && use[f].root == r && Vpn(use, f) == w
  {
    LowKnows(tables, use, r, w);
    var low := LowTable(tables, r, w).value;
    assert PteOk(tables, use, low, Px(0, w));
    PxJoin(w);
  }

  lemma IndexSplit(a: nat, b: nat, c: nat)
    requires a < 512 && b < 512 && c < 512
    ensures var v := a * 262144 + b * 512 + c; Px(2, v) == a && Px(1, v) == b && Px(0, v) == c
  {
    var v := a * 262144 + b * 512 + c;
    assert v / 512 == a * 512 + b;
    assert v / 262144 == a;
  }

  /** And the other way round: the tree maps page f's virtual page to f. */
  lemma ForIsMapped(tables: Tables, use: Uses, f: int)
    requires Ok(tables, use) && f in use && use[f].Node? && use[f].level == -1
    ensures 0 <= Vpn(use, f) < MAXPAGE && Root(use, use[f].root)
    ensures Lookup(tables, use[f].root, Vpn(use, f)).Some? && Lookup(tables, use[f].root, Vpn(use, f)).value.frame == f
  {
    assert UseOk(tables, use, f);
    var low := use[f].parent;
    assert UseOk(tables, use, low);
    var mid := use[low].parent;
    assert UseOk(tables, use, mid);
    assert UseOk(tables, use, use[mid].parent);
    IndexSplit(use[mid].index, use[low].index, use[f].index);
  }

  // ----- uses after pages lo..hi of tree r have been unmapped

  ghost predicate UnmappedUse(use0: Uses, use: Uses, r: int, lo: int, hi: int, to: Use) {
    && use.Keys == use0.Keys
    && (forall f :: f in use0 ==> UnmappedUseAt(use0, use, r, lo, hi, to, f))
  }

  predicate UnmappedUseAt(use0: Uses, use: Uses, r: int, lo: int, hi: int, to: Use, f: int)
    requires f in use0
  {
    f in use && use[f] == if InRange(use0, r, lo, hi, f) then to else use0[f]
  }

  /** One more page: if page hi held a page of its own, that one has changed too. */
  lemma UnmappedUseStep(tables0: Tables, use0: Uses, tables: Tables, use: Uses, use': Uses, r: int, lo: int, hi: int,
                        to: Use)
    requires Ok(tables0, use0) && Ok(tables, use) && Root(use, r) && Root(use0, r)
    requires UnmappedUse(use0, use, r, lo, hi, to) && (to == Free || to == Held) && 0 <= lo <= hi < MAXPAGE
    requires SameAt(tables0, tables, r, hi)
    requires Lookup(tables, r, hi) == None ==> use' == use
    requires Lookup(tables, r, hi).Some? ==>
      var f := Lookup(tables, r, hi).value.frame; use' == if f in use && use[f].Node? then use[f := to] else use
    ensures UnmappedUse(use0, use', r, lo, hi + 1, to)
  {
    hide Ok, Lookup, InRange;
    if Lookup(tables, r, hi).Some? {
      MappedIsFor(tables0, use0, r, hi);
      MappedIsFor(tables, use, r, hi);
    }
    var next := hi + 1;
    forall g | g in use0 ensures UnmappedUseAt(use0, use', r, lo, next, to, g) {
      assert UnmappedUseAt(use0, use, r, lo, hi, to, g);
      RangeStep(tables0, use0, r, lo, hi, g);
    }
  }

  /** Page hi is the only one a longer range adds. */
  lemma RangeStep(tables: Tables, use: Uses, r: int, lo: int, hi: int, g: int)
    requires Ok(tables, use) && Root(use, r) && 0 <= lo <= hi < MAXPAGE && g in use
    ensures InRange(use, r, lo, hi + 1, g) <==>
      (InRange(use, r, lo, hi, g)
        || (use[g].Node? && Lookup(tables, r, hi).Some? && Lookup(tables, r, hi).value.frame == g))
    ensures Lookup(tables, r, hi).Some? && Lookup(tables, r, hi).value.frame == g ==> !InRange(use, r, lo, hi, g)
  {
    if use[g].Node? && use[g].level == -1 {
      ForIsMapped(tables, use, g);
    }
    if Lookup(tables, r, hi).Some? {
      MappedIsFor(tables, use, r, hi);
    }
  }

  /** Uses after `done` pages from pa have been mapped into tree r. */
  ghost predicate MappedUse(use0: Uses, use: Uses, r: int, pa: int, done: int) {
    && use.Keys == use0.Keys
    && (forall f :: f in use0 ==> MappedUseAt(use0, use, r, pa, done, f))
  }

  predicate MappedUseAt(use0: Uses, use: Uses, r: int, pa: int, done: int, f: int)
    requires f in use0
  {
    f in use &&
    if pa <= f < pa + done && use0[f] == Held then use[f].Node? && use[f].root == r && use[f].level == -1
    else use[f] == use0[f] || (use0[f] == Free && use[f].Node? && use[f].root == r && 0 <= use[f].level < 2)
  }

  lemma MappedUseOne(use0: Uses, use1: Uses, use: Uses, r: int, pa: int, low: int, i: nat)
    requires TablesGrew(use0, use1, r) && Mappable(use0, pa)
    requires IsTable(use1, low) && use1[low].root == r && use == MapUse(use1, low, i, pa)
    ensures MappedUse(use0, use, r, pa, 1)
  {
    forall f | f in use0 ensures MappedUseAt(use0, use, r, pa, 1, f) {
      assert GrewAt(use0, use1, r, f);
    }
  }

  lemma MappedUseNone(use0: Uses, use: Uses, r: int, pa: int)
    requires TablesGrew(use0, use, r)
    ensures MappedUse(use0, use, r, pa, 0)
  {
    forall f | f in use0 ensures MappedUseAt(use0, use, r, pa, 0, f) {
      assert GrewAt(use0, use, r, f);
    }
  }

  lemma MappedUseTwice(use0: Uses, use1: Uses, use: Uses, r: int, pa: int, done: nat, more: nat)
    requires MappedUse(use0, use1, r, pa, done) && MappedUse(use1, use, r, pa + done, more)
    ensures MappedUse(use0, use, r, pa, done + more)
  {
    var all, next := done + more, pa + done;
    forall f | f in use0 ensures MappedUseAt(use0, use, r, pa, all, f) {
      assert MappedUseAt(use0, use1, r, pa, done, f) && MappedUseAt(use1, use, r, next, more, f);
    }
  }

  // ----- filling pages lo..hi of tree r with new pages

  /** Pages keep their use, except that free ones may have become tables of tree r, or its pages lo..hi. */
  ghost predicate FilledUse(use0: Uses, use: Uses, r: int, lo: int, hi: int) {
    && use.Keys == use0.Keys
    && (forall f :: f in use0 ==> FilledUseAt(use0, use, r, lo, hi, f))
  }

  predicate FilledUseAt(use0: Uses, use: Uses, r: int, lo: int, hi: int, f: int)
    requires f in use0
  {
    && f in use
    && (use[f] == use0[f] ||
        (use0[f] == Free && use[f].Node? && use[f].root == r && (0 <= use[f].level < 2 || InRange(use, r, lo, hi, f))))
  }

  /** No page that is in use changes its use. */
  ghost predicate BusyKept(use0: Uses, use: Uses) {
    forall g :: g in use0 && use0[g] != Free ==> g in use && use[g] == use0[g]
  }

  /** Page f, free before, is now a page of tree r; for the rest only tables of r may have been made. */
  ghost predicate OnePageUse(use0: Uses, use: Uses, r: int, f: int) {
    && use.Keys == use0.Keys && f in use0 && use0[f] == Free
    && use[f].Node? && use[f].root == r && use[f].level == -1
    && (forall g :: g in use0 && g != f ==> GrewAt(use0, use, r, g))
  }

  /** Where a user page lies does not change while its tables stay in use. */
  lemma VpnStays(tables: Tables, use: Uses, use': Uses, r: int, f: int)
    requires Ok(tables, use) && f in use && use[f].Node? && use[f].level == -1
    requires BusyKept(use, use')
    ensures Vpn(use', f) == Vpn(use, f)
  {
    assert UseOk(tables, use, f);
    var low := use[f].parent;
    assert UseOk(tables, use, low);
    assert UseOk(tables, use, use[low].parent);
  }

  lemma FilledStep(use0: Uses, tables1: Tables, use1: Uses, tables: Tables, use: Uses, r: int, lo: int, hi: nat, f: int)
    requires Ok(tables1, use1) && Ok(tables, use) && Root(use, r) && lo <= hi < MAXPAGE
    requires FilledUse(use0, use1, r, lo, hi) && OnePageUse(use1, use, r, f)
    requires Lookup(tables, r, hi).Some? && Lookup(tables, r, hi).value.frame == f
    ensures FilledUse(use0, use, r, lo, hi + 1)
  {
    var next := hi + 1;
    MappedIsFor(tables, use, r, hi);
    forall g | g in use1 && use1[g] != Free ensures use[g] == use1[g] {
      assert GrewAt(use1, use, r, g);
    }
    forall g | g in use0 ensures FilledUseAt(use0, use, r, lo, next, g) {
      assert FilledUseAt(use0, use1, r, lo, hi, g);
      if g != f {
        assert GrewAt(use1, use, r, g);
        if use1[g].Node? && use1[g].level == -1 {
          VpnStays(tables1, use1, use, r, g);
        }
      }
    }
  }

  lemma FilledTables(use0: Uses, tables1: Tables, use1: Uses, use: Uses, r: int, lo: int, hi: int)
    requires Ok(tables1, use1) && FilledUse(use0, use1, r, lo, hi) && TablesGrew(use1, use, r)
    ensures FilledUse(use0, use, r, lo, hi)
  {
    forall g | g in use1 && use1[g] != Free ensures use[g] == use1[g] {
      assert GrewAt(use1, use, r, g);
    }
    forall g | g in use0 ensures FilledUseAt(use0, use, r, lo, hi, g) {
      assert FilledUseAt(use0, use1, r, lo, hi, g) && GrewAt(use1, use, r, g);
      if use1[g].Node? && use1[g].level == -1 {
        VpnStays(tables1, use1, use, r, g);
      }
    }
  }

  lemma OldOutside(tables: Tables, use: Uses, use': Uses, r: int, lo: nat, hi: nat, f: int)
    requires Ok(tables, use) && Root(use, r) && NoneMapped(tables, r, lo, hi) && f in use && f in use'
    requires BusyKept(use, use')
    ensures use[f] != Free ==> !InRange(use', r, lo, hi, f)
  {
    if use[f].Node? && use[f].level == -1 {
      ForIsMapped(tables, use, f);
      VpnStays(tables, use, use', r, f);
      assert lo <= Vpn(use, f) < hi ==> Unmapped(tables, r, Vpn(use, f));
    }
  }

  lemma OnePageMapped(use0: Uses, use: Uses, r: int, f: int, done: nat)
    requires f in use0 && use0[f] == Free && MappedUse(use0[f := Held], use, r, f, done) && done <= 1
    ensures done == 1 ==> OnePageUse(use0, use, r, f)
    ensures done == 0 ==> f in use && use[f] == Held && TablesGrew(use0, use[f := Free], r)
  {
    var use1 := use0[f := Held];
    assert MappedUseAt(use1, use, r, f, done, f);
    forall g | g in use0 && g != f ensures GrewAt(use0, use, r, g) {
      assert MappedUseAt(use1, use, r, f, done, g);
    }
    if done == 0 {
      forall g | g in use0 ensures GrewAt(use0, use[f := Free], r, g) {
        assert g == f || GrewAt(use0, use, r, g);
      }
    }
  }

  /** Undoing it: unmapping pages lo..hi again leaves only tables behind. */
  lemma Undone(tables0: Tables, use0: Uses, use1: Uses, use: Uses, r: int, lo: nat, hi: nat)
    requires Ok(tables0, use0) && Root(use0, r) && NoneMapped(tables0, r, lo, hi) && hi <= MAXPAGE
    requires FilledUse(use0, use1, r, lo, hi) && UnmappedUse(use1, use, r, lo, hi, Free)
    ensures TablesGrew(use0, use, r)
  {
    forall g | g in use0 && use0[g] != Free ensures use1[g] == use0[g] {
      assert FilledUseAt(use0, use1, r, lo, hi, g);
    }
    forall f | f in use0 ensures GrewAt(use0, use, r, f) {
      assert FilledUseAt(use0, use1, r, lo, hi, f) && UnmappedUseAt(use1, use, r, lo, hi, Free, f);
      OldOutside(tables0, use0, use1, r, lo, hi, f);
    }
  }

  lemma UnmappedAgain(tables0: Tables, use0: Uses, tables1: Tables, use1: Uses, tables: Tables, use: Uses, r: int,
                      lo: nat, hi: nat)
    requires Root(use0, r) && NoneMapped(tables0, r, lo, hi) && NoneMapped(tables, r, lo, hi) && hi <= MAXPAGE
    requires MapsKept(tables0, use0, tables1, use1, r, lo, hi) && MapsKept(tables1, use1, tables, use, r, lo, hi)
    ensures MapsKept(tables0, use0, tables, use, r, 0, 0)
  {
    forall s, w | s in use0 && Root(use0, s) && 0 <= w < MAXPAGE ensures SameAt(tables0, tables, s, w) {
      if s == r && lo <= w < hi {
        assert Unmapped(tables0, r, w) && Unmapped(tables, r, w);
      } else {
        assert SameAt(tables0, tables1, s, w);
        assert SameAt(tables1, tables, s, w);
      }
    }
  }

  /** PGROUNDUP, in pages. */
  function Pages(sz: nat): (n: nat)
    ensures n * PGSIZE >= sz && (n - 1) * PGSIZE < sz
  {
    (sz + PGSIZE - 1) / PGSIZE
  }

  function RoundUp(sz: nat): (r: nat)
    ensures r % PGSIZE == 0 && r / PGSIZE == Pages(sz)
  {
    Pages(sz) * PGSIZE
  }

  /** Page w of tree r is a page of its own with these flags and bytes. */
  predicate HoldsAt(tables: Tables, use: Uses, data: map<int, Page>, r: int, w: nat, flags: nat, bytes: Page) {
    match Lookup(tables, r, w)
    case None => false
    case Some(p) =>
      p.flags == flags && p.frame in use && use[p.frame].Node? && p.frame in data && data[p.frame] == bytes
  }

  ghost predicate ZeroRun(tables: Tables, use: Uses, data: map<int, Page>, r: int, lo: nat, hi: nat, flags: nat) {
    forall w :: lo <= w < hi ==> HoldsAt(tables, use, data, r, w, flags, Filled(0))
  }

  /** A page that is mapped stays as it is when another is added. */
  lemma HoldsStays(tables0: Tables, use0: Uses, data0: map<int, Page>, tables: Tables, use: Uses, data: map<int, Page>,
                   r: int, w: nat, flags: nat, bytes: Page)
    requires HoldsAt(tables0, use0, data0, r, w, flags, bytes) && SameAt(tables0, tables, r, w)
    requires DataKept(use0, data0, use, data)
    requires BusyKept(use0, use)
    ensures HoldsAt(tables, use, data, r, w, flags, bytes)
  {
  }

  lemma OnePageKeeps(use0: Uses, use: Uses, r: int, f: int)
    requires OnePageUse(use0, use, r, f)
    ensures BusyKept(use0, use) && use.Keys == use0.Keys
  {
    forall g | g in use0 && use0[g] != Free ensures use[g] == use0[g] {
      assert GrewAt(use0, use, r, g);
    }
  }

  lemma FilledKeeps(use0: Uses, use: Uses, r: int, lo: int, hi: int)
    requires FilledUse(use0, use, r, lo, hi)
    ensures BusyKept(use0, use) && use.Keys == use0.Keys
  {
    forall g | g in use0 && use0[g] != Free ensures use[g] == use0[g] {
      assert FilledUseAt(use0, use, r, lo, hi, g);
    }
  }

  lemma ZeroStep(tables0: Tables, use0: Uses, data0: map<int, Page>, tables: Tables, use: Uses, data: map<int, Page>,
                 r: int, lo: nat, hi: nat, flags: nat, f: int)
    requires ZeroRun(tables0, use0, data0, r, lo, hi, flags) && Root(use0, r) && hi < MAXPAGE
    requires MapsKept(tables0, use0, tables, use, r, hi, hi + 1) && OnePageUse(use0, use, r, f)
    requires DataKept(use0, data0, use, data) && f in data && data[f] == Filled(0)
      && MapsTo(tables, r, hi, Pte(flags, f))
    ensures ZeroRun(tables, use, data, r, lo, hi + 1, flags)
  {
    OnePageKeeps(use0, use, r, f);
    forall w | lo <= w < hi + 1 ensures HoldsAt(tables, use, data, r, w, flags, Filled(0)) {
      if w < hi {
        assert HoldsAt(tables0, use0, data0, r, w, flags, Filled(0)) && SameAt(tables0, tables, r, w);
        HoldsStays(tables0, use0, data0, tables, use, data, r, w, flags, Filled(0));
      }
    }
  }

  /** Contents carry over a step during which no page that was in use is freed. */
  lemma DataKeptTwice(use0: Uses, data0: map<int, Page>, use1: Uses, data1: map<int, Page>, use: Uses,
                      data: map<int, Page>)
    requires DataKept(use0, data0, use1, data1) && DataKept(use1, data1, use, data) && use1.Keys == use0.Keys
    requires BusyKept(use0, use1)
    ensures DataKept(use0, data0, use, data)
  {
  }

  lemma OrFlags(xperm: nat)
    requires xperm == 0 || xperm == PTE_W || xperm == PTE_X || xperm == PTE_W + PTE_X
    ensures var f := PTE_R + PTE_U + xperm; OrV(f) == f + PTE_V && forall q :: Leaf(Pte(OrV(f), q))
  {
  }

  lemma PageBelow(a: nat, hi: nat, newsz: nat)
    requires a == hi * PGSIZE && a < newsz <= MAXVA
    ensures a / PGSIZE == hi && a % PGSIZE == 0 && hi < Pages(newsz) <= MAXPAGE && a < MAXVA && Pages(a) == hi
  {
  }

  lemma LastPage(a: nat, lo: nat, hi: nat, oldsz: nat, newsz: nat)
    requires a == hi * PGSIZE && a >= newsz >= oldsz && lo == Pages(oldsz) && (hi == lo || hi <= Pages(newsz))
    ensures hi == Pages(newsz)
  {
  }

  lemma PageOf(va: nat, k: nat)
    requires va % PGSIZE == 0
    ensures (va + k * PGSIZE) / PGSIZE == va / PGSIZE + k && (va + k * PGSIZE) % PGSIZE == 0
  {
  }

  predicate MapsTo(tables: Tables, r: int, w: nat, p: Pte) {
    Lookup(tables, r, w) == Some(p)
  }

  /** Pages lo, lo+1, ... of tree r map pages pa, pa+1, ... */
  ghost predicate MappedRun(tables: Tables, r: int, lo: nat, pa: int, perm: nat, n: nat) {
    forall k :: 0 <= k < n ==> RunAt(tables, r, lo, pa, perm, k)
  }

  predicate RunAt(tables: Tables, r: int, lo: nat, pa: int, perm: nat, k: nat) {
    MapsTo(tables, r, lo + k, Pte(OrV(perm), pa + k))
  }

  predicate Unmapped(tables: Tables, r: int, w: nat) {
    Lookup(tables, r, w) == None
  }

  ghost predicate NoneMapped(tables: Tables, r: int, lo: nat, hi: nat) {
    forall w :: lo <= w < hi ==> Unmapped(tables, r, w)
  }

  /** Mapping one more page of a run. */
  lemma RunStep(tables0: Tables, use0: Uses, tables: Tables, use: Uses, r: int, lo: nat, pa: int, perm: nat, n: nat)
    requires Root(use0, r) && MappedRun(tables0, r, lo, pa, perm, n) && lo + n < MAXPAGE
    requires MapsKept(tables0, use0, tables, use, r, lo + n, lo + n + 1)
    requires MapsTo(tables, r, lo + n, Pte(OrV(perm), pa + n))
    ensures MappedRun(tables, r, lo, pa, perm, n + 1)
  {
    forall k | 0 <= k < n + 1 ensures RunAt(tables, r, lo, pa, perm, k) {
      if k < n {
        assert RunAt(tables0, r, lo, pa, perm, k);
        var w := lo + k;
        assert SameAt(tables0, tables, r, w);
      }
    }
  }

  lemma RunStays(tables0: Tables, use0: Uses, tables: Tables, use: Uses, r: int, lo: nat, pa: int, perm: nat, n: nat)
    requires Root(use0, r) && MappedRun(tables0, r, lo, pa, perm, n) && lo + n <= MAXPAGE
    requires MapsKept(tables0, use0, tables, use, r, 0, 0)
    ensures MappedRun(tables, r, lo, pa, perm, n)
  {
    forall k | 0 <= k < n ensures RunAt(tables, r, lo, pa, perm, k) {
      assert RunAt(tables0, r, lo, pa, perm, k);
      var w := lo + k;
      assert SameAt(tables0, tables, r, w);
    }
  }

  /** Pages from pa on that may still be mapped. */
  ghost predicate MappableFrom(use: Uses, pa: int, k: nat, n: nat) {
    forall j :: k <= j < n ==> MappableAt(use, pa, j)
  }

  predicate MappableAt(use: Uses, pa: int, j: nat) {
    Mappable(use, pa + j)
  }

  lemma StillMappable(use0: Uses, use: Uses, r: int, pa: int, done: nat, n: nat)
    requires MappedUse(use0, use, r, pa, done) && MappableFrom(use0, pa, 0, n)
    ensures MappableFrom(use, pa, done, n)
  {
    forall j | done <= j < n ensures MappableAt(use, pa, j) {
      assert MappableAt(use0, pa, j);
      var f := pa + j;
      if f in use0 {
        assert MappedUseAt(use0, use, r, pa, done, f);
      }
    }
  }

  lemma EntryMapped(tables: Tables, r: int, w: nat, low: int)
    requires LowTable(tables, r, w) == Some(low) && low in tables && |tables[low]| == ENTRIES
      && V(tables[low][Px(0, w)])
    ensures Lookup(tables, r, w) == Some(tables[low][Px(0, w)])
  {
  }

  lemma NextUnmapped(tables0: Tables, use0: Uses, tables: Tables, use: Uses, r: int, lo: nat, hi: nat, end: nat)
    requires Root(use0, r) && NoneMapped(tables0, r, lo, end) && lo <= hi < end <= MAXPAGE
    requires MapsKept(tables0, use0, tables, use, r, lo, hi)
    ensures Unmapped(tables, r, hi)
  {
    assert Unmapped(tables0, r, hi) && SameAt(tables0, tables, r, hi);
  }

  lemma FillingStarts(tables: Tables, use: Uses, data: map<int, Page>, r: int, lo: nat, flags: nat)
    ensures ZeroRun(tables, use, data, r, lo, lo, flags) && MapsKept(tables, use, tables, use, r, lo, lo)
    ensures FilledUse(use, use, r, lo, lo) && DataKept(use, data, use, data)
  {
    forall f | f in use ensures FilledUseAt(use, use, r, lo, lo, f) {
    }
  }

  /** Page w of the copy: nothing where the original has nothing, else a page of its own with the same
      flags and bytes. */
  predicate CopiedAt(tables0: Tables, data0: map<int, Page>, tables: Tables, use: Uses, data: map<int, Page>,
                     from: int, to: int, w: nat) {
    match Lookup(tables0, from, w)
    case None => Lookup(tables, to, w) == None
    case Some(p) => p.frame in data0 && HoldsAt(tables, use, data, to, w, p.flags, data0[p.frame])
  }

  ghost predicate CopiedTo(tables0: Tables, data0: map<int, Page>, tables: Tables, use: Uses, data: map<int, Page>,
                           from: int, to: int, n: nat) {
    forall w :: 0 <= w < n ==> CopiedAt(tables0, data0, tables, use, data, from, to, w)
  }

  /** Pages copied so far stay as they are while the next one is dealt with. */
  lemma CopyStep(tables0: Tables, data0: map<int, Page>, tables1: Tables, use1: Uses, data1: map<int, Page>,
                 tables: Tables, use: Uses, data: map<int, Page>, from: int, to: int, n: nat)
    requires CopiedTo(tables0, data0, tables1, use1, data1, from, to, n) && Root(use1, to) && n < MAXPAGE
    requires MapsKept(tables1, use1, tables, use, to, n, n + 1) && BusyKept(use1, use)
      && DataKept(use1, data1, use, data)
    ensures CopiedTo(tables0, data0, tables, use, data, from, to, n)
  {
    forall w | 0 <= w < n ensures CopiedAt(tables0, data0, tables, use, data, from, to, w) {
      assert CopiedAt(tables0, data0, tables1, use1, data1, from, to, w) && SameAt(tables1, tables, to, w);
      match Lookup(tables0, from, w)
      case None =>
      case Some(p) => HoldsStays(tables1, use1, data1, tables, use, data, to, w, p.flags, data0[p.frame]);
    }
  }

  lemma CopyOne(tables0: Tables, data0: map<int, Page>, tables: Tables, use: Uses, data: map<int, Page>, from: int,
                to: int, n: nat)
    requires CopiedTo(tables0, data0, tables, use, data, from, to, n)
    requires CopiedAt(tables0, data0, tables, use, data, from, to, n)
    ensures CopiedTo(tables0, data0, tables, use, data, from, to, n + 1)
  {
  }

  lemma CopyOwned(tables0: Tables, data0: map<int, Page>, tables: Tables, use: Uses, data: map<int, Page>, from: int,
                  to: int, n: nat)
    requires CopiedTo(tables0, data0, tables, use, data, from, to, n)
    ensures OwnsRange(tables, use, to, 0, n)
  {
    forall w | 0 <= w < n ensures OwnsAt(tables, use, to, w) {
      assert CopiedAt(tables0, data0, tables, use, data, from, to, w);
    }
  }

  /** The entry that uvmcopy finds in the original is the one that was there at the start, and so are the
      bytes of its page. */
  lemma Original(tables0: Tables, use0: Uses, data0: map<int, Page>, tables: Tables, use: Uses, data: map<int, Page>,
                 from: int, to: int, n: nat)
    requires Ok(tables0, use0) && Root(use0, from) && from != to && n < MAXPAGE && OwnsAt(tables0, use0, from, n)
    requires MapsKept(tables0, use0, tables, use, to, 0, n) && BusyKept(use0, use) && DataKept(use0, data0, use, data)
    requires forall f :: f in use0 ==> f in data0
    ensures Lookup(tables, from, n) == Lookup(tables0, from, n)
    ensures Lookup(tables, from, n).Some? ==>
      var p := Lookup(tables, from, n).value;
      p.frame in data0 && p.frame in data && data[p.frame] == data0[p.frame] && OrV(p.flags) == p.flags && Leaf(p)
  {
    assert SameAt(tables0, tables, from, n);
    if Lookup(tables0, from, n).Some? {
      LowKnows(tables0, use0, from, n);
      var low := LowTable(tables0, from, n).value;
      assert TableOk(tables0, use0, low);
      assert PteOk(tables0, use0, low, Px(0, n));
    }
  }

  /** How many of the first n pages are mapped. */
  function MappedPages(tables: Tables, r: int, n: nat): nat {
    if n == 0 then 0 else MappedPages(tables, r, n - 1) + if Unmapped(tables, r, n - 1) then 0 else 1
  }

  lemma MappedNext(tables0: Tables, tables: Tables, r: int, n: nat, hi: nat)
    requires n < hi && Lookup(tables, r, n) == Lookup(tables0, r, n)
    ensures MappedPages(tables0, r, n + 1) == MappedPages(tables0, r, n) + if Unmapped(tables, r, n) then 0 else 1
    ensures MappedPages(tables0, r, n + 1) <= MappedPages(tables0, r, hi)
  {
    MappedRises(tables0, r, n + 1, hi);
  }

  lemma {:induction false} MappedRises(tables: Tables, r: int, n: nat, hi: nat)
    requires n <= hi
    ensures MappedPages(tables, r, n) <= MappedPages(tables, r, hi)
  {
    if n < hi {
      MappedRises(tables, r, n, hi - 1);
    }
  }

  /** What uvmcopy needs of the page it copies. */
  predicate Copyable(tables: Tables, data: map<int, Page>, from: int, w: nat) {
    match Lookup(tables, from, w)
    case None => true
    case Some(p) => p.frame in data && |data[p.frame]| == PGSIZE && OrV(p.flags) == p.flags && Leaf(p)
  }

  lemma CopyableHere(tables0: Tables, use0: Uses, data0: map<int, Page>, tables: Tables, use: Uses,
                     data: map<int, Page>, from: int, n: nat)
    requires Lookup(tables, from, n) == Lookup(tables0, from, n)
    requires Lookup(tables, from, n).Some? ==>
      var p := Lookup(tables, from, n).value;
      p.frame in data0 && p.frame in data && data[p.frame] == data0[p.frame] && OrV(p.flags) == p.flags && Leaf(p)
        && p.frame in use
    requires forall f :: f in use ==> f in data && |data[f]| == PGSIZE
    ensures Copyable(tables, data, from, n)
  {
  }

  lemma Recopied(tables0: Tables, data0: map<int, Page>, tables1: Tables, data1: map<int, Page>, tables: Tables,
                 use: Uses,
                 data: map<int, Page>, from: int, to: int, n: nat)
    requires Lookup(tables1, from, n) == Lookup(tables0, from, n)
    requires Lookup(tables1, from, n).Some? ==>
      var p := Lookup(tables1, from, n).value; p.frame in data0 && p.frame in data1 && data1[p.frame] == data0[p.frame]
    requires CopiedAt(tables1, data1, tables, use, data, from, to, n)
    ensures CopiedAt(tables0, data0, tables, use, data, from, to, n)
  {
  }

  lemma CopyStarts(tables: Tables, use: Uses, data: map<int, Page>, from: int, to: int)
    ensures CopiedTo(tables, data, tables, use, data, from, to, 0)
    ensures MappedPages(tables, from, 0) == 0
  {
  }

  lemma OwnedAt(tables: Tables, use: Uses, r: int, lo: int, hi: int, w: nat)
    requires OwnsRange(tables, use, r, lo, hi) && lo <= w < hi
    ensures OwnsAt(tables, use, r, w)
  {
  }

  lemma GrewKeeps(use0: Uses, use: Uses, r: int)
    requires TablesGrew(use0, use, r)
    ensures BusyKept(use0, use) && use.Keys == use0.Keys
  {
    forall g | g in use0 && use0[g] != Free ensures use[g] == use0[g] {
      assert GrewAt(use0, use, r, g);
    }
  }

  lemma FilledWider(use0: Uses, use: Uses, r: int, lo: int, hi: int)
    requires FilledUse(use0, use, r, lo, hi)
    ensures FilledUse(use0, use, r, lo, hi + 1)
  {
    var next := hi + 1;
    forall g | g in use0 ensures FilledUseAt(use0, use, r, lo, next, g) {
      assert FilledUseAt(use0, use, r, lo, hi, g);
    }
  }

  lemma WiderRange(tables0: Tables, use0: Uses, tables: Tables, use: Uses, r: int, lo: int, hi: int)
    requires MapsKept(tables0, use0, tables, use, r, 0, 0) || MapsKept(tables0, use0, tables, use, r, lo, lo)
    ensures MapsKept(tables0, use0, tables, use, r, lo, hi)
  {
    forall s, w | s in use0 && Root(use0, s) && 0 <= w < MAXPAGE && !(s == r && lo <= w < hi)
      ensures SameAt(tables0, tables, s, w)
    {
    }
  }

  lemma LeafAnyFrame(p: Pte)
    requires Leaf(p) && OrV(p.flags) == p.flags
    ensures Leaf(Pte(OrV(p.flags), 0))
  {
  }

  lemma IsNode(use0: Uses, use: Uses, r: int, f: int)
    requires OnePageUse(use0, use, r, f)
    ensures f in use && use[f].Node?
  {
  }

  /** A fresh page as the top table of a new tree. */
  lemma NewRoot(tables: Tables, use: Uses, f: int)
    requires Ok(tables, use) && f in use && use[f] == Free
    ensures Ok(tables[f := Zeros()], use[f := Node(f, 2, 0, 0)])
    ensures f !in tables && NoneMapped(tables[f := Zeros()], f, 0, MAXPAGE)
    ensures MapsKept(tables, use, tables[f := Zeros()], use[f := Node(f, 2, 0, 0)], f, 0, 0)
  {
    var tables', use' := tables[f := Zeros()], use[f := Node(f, 2, 0, 0)];
    HeldUnused(tables, use, f, f, 0);
    forall g | g in tables' ensures TableOk(tables', use', g) {
      assert g == f || TableOk(tables, use, g);
    }
    forall g, k | g in tables' && 0 <= k < ENTRIES ensures PteOk(tables', use', g, k) {
      if g != f {
        assert TableOk(tables, use, g) && PteOk(tables, use, g, k);
        HeldUnused(tables, use, f, g, k);
      }
    }
    forall g | g in use' ensures UseOk(tables', use', g) {
      if g != f {
        assert UseOk(tables, use, g);
      }
    }
    forall s, w | s in use && Root(use, s) && 0 <= w < MAXPAGE ensures SameAt(tables, tables', s, w) {
      HeldUnused(tables, use, f, s, Px(2, w));
      if Child(tables, s, Px(2, w)).Some? {
        HeldUnused(tables, use, f, Child(tables, s, Px(2, w)).value, Px(1, w));
      }
    }
    forall w | 0 <= w < MAXPAGE ensures Unmapped(tables', f, w) {
    }
  }

  lemma NothingGrew(tables: Tables, use: Uses, data: map<int, Page>, r: int)
    ensures TablesGrew(use, use, r) && MapsKept(tables, use, tables, use, r, 0, 0) && DataKept(use, data, use, data)
  {
    forall g | g in use ensures GrewAt(use, use, r, g) {
    }
  }

  /** A page just taken and filled: no mapping and no other page has changed. */
  lemma Taking(tables: Tables, use: Uses, data: map<int, Page>, data': map<int, Page>, r: int, f: int)
    requires Ok(tables, use) && f in use && use[f] == Free && f in data' && data' == data[f := data'[f]]
    ensures Ok(tables, use[f := Held]) && MapsKept(tables, use, tables, use[f := Held], r, 0, 0)
    ensures DataKept(use, data, use[f := Held], data')
  {
    HeldOk(tables, use, f, Held, r);
  }

  lemma OnePageRun(tables: Tables, use: Uses, r: int, w: nat, f: int)
    requires f in use && use[f] == Held && Unmapped(tables, r, w)
    ensures PGSIZE / PGSIZE == 1 && PGSIZE % PGSIZE == 0 && MappableFrom(use, f, 0, 1)
      && NoneMapped(tables, r, w, w + 1)
  {
    assert MappableAt(use, f, 0);
  }

  lemma OnePageData(use0: Uses, data0: map<int, Page>, use1: Uses, data1: map<int, Page>, use: Uses,
                    data: map<int, Page>,
                    r: int, f: int, done: nat)
    requires f in use0 && use0[f] == Free && use1 == use0[f := Held] && f in data1 && done <= 1
    requires DataKept(use0, data0, use1, data1) && DataKept(use1, data1, use, data) && MappedUse(use1, use, r, f, done)
    ensures DataKept(use0, data0, use, data) && f in data && data[f] == data1[f]
  {
    assert MappedUseAt(use1, use, r, f, done, f);
  }

  lemma EmptyRange(tables0: Tables, use0: Uses, tables: Tables, use: Uses, r: int, w: int)
    requires MapsKept(tables0, use0, tables, use, r, w, w)
    ensures MapsKept(tables0, use0, tables, use, r, 0, 0)
  {
  }

  lemma DataFreed(use0: Uses, data0: map<int, Page>, use: Uses, data: map<int, Page>, f: int)
    requires DataKept(use0, data0, use, data) && f in use0 && use0[f] == Free && f in use
    ensures DataKept(use0, data0, use[f := Free], data[f := Filled(1)])
  {
  }

  lemma NothingUnmapped(use: Uses, r: int, lo: int, hi: int)
    ensures hi <= lo ==> UnmappedUse(use, use, r, lo, hi, Free)
  {
    if hi <= lo {
      forall f | f in use ensures UnmappedUseAt(use, use, r, lo, hi, Free, f) {
      }
    }
  }

  lemma DataSame(use: Uses, data: map<int, Page>)
    ensures DataKept(use, data, use, data)
  {
  }

  lemma NoneBelow(tables: Tables, r: int, lo: nat, mid: nat, hi: nat)
    requires NoneMapped(tables, r, lo, hi) && mid <= hi
    ensures NoneMapped(tables, r, lo, mid)
  {
  }

  lemma OwnedStays(tables0: Tables, use0: Uses, data0: map<int, Page>, tables: Tables, use: Uses, data: map<int, Page>,
                   r: int, lo: nat, hi: nat, flags: nat)
    requires ZeroRun(tables0, use0, data0, r, lo, hi, flags) && Root(use0, r) && hi <= MAXPAGE
    requires MapsKept(tables0, use0, tables, use, r, 0, 0) && TablesGrew(use0, use, r)
    ensures OwnsRange(tables, use, r, lo, hi)
  {
    forall w | lo <= w < hi ensures OwnsAt(tables, use, r, w) {
      assert HoldsAt(tables0, use0, data0, r, w, flags, Filled(0)) && SameAt(tables0, tables, r, w);
      assert GrewAt(use0, use, r, Lookup(tables0, r, w).value.frame);
    }
  }

  lemma NoLowTable(tables: Tables, r: int, w: nat)
    requires LowTable(tables, r, w) == None
    ensures Unmapped(tables, r, w)
  {
  }

  lemma EntryUnmapped(tables: Tables, r: int, w: nat, low: int)
    requires LowTable(tables, r, w) == Some(low) && low in tables && |tables[low]| == ENTRIES
      && !V(tables[low][Px(0, w)])
    ensures Unmapped(tables, r, w)
  {
  }

  lemma UnmappedData(use0: Uses, data0: map<int, Page>, use1: Uses, data1: map<int, Page>, use: Uses,
                     data: map<int, Page>,
                     r: int, lo: int, hi: int, to: Use)
    requires UnmappedUse(use0, use1, r, lo, hi, to) && UnmappedUse(use0, use, r, lo, hi + 1, to)
    requires DataKept(use0, data0, use1, data1) && DataKept(use1, data1, use, data)
    ensures DataKept(use0, data0, use, data)
  {
    var next := hi + 1;
    forall f | f in use0 && f in use && f in data0 && use0[f] != Free && use[f] != Free
      ensures f in data && data[f] == data0[f]
    {
      assert UnmappedUseAt(use0, use1, r, lo, hi, to, f) && UnmappedUseAt(use0, use, r, lo, next, to, f);
    }
  }

  lemma EntryInvalid(tables: Tables, r: int, w: nat, low: int)
    requires LowTable(tables, r, w) == Some(low) && low in tables && |tables[low]| == ENTRIES && Unmapped(tables, r, w)
    ensures !V(tables[low][Px(0, w)])
  {
  }

  lemma StillOneMappable(use0: Uses, use: Uses, r: int, f: int)
    requires TablesGrew(use0, use, r) && Mappable(use0, f)
    ensures Mappable(use, f)
  {
    assert f in use0 ==> GrewAt(use0, use, r, f);
  }

  /** While pages are being mapped, no page that was in use is freed, so contents carry over. */
  lemma MappedData(use0: Uses, data0: map<int, Page>, use1: Uses, data1: map<int, Page>, use: Uses,
                   data: map<int, Page>,
                   r: int, pa: int, done: nat, more: nat)
    requires MappedUse(use0, use1, r, pa, done) && MappedUse(use1, use, r, pa + done, more)
    requires DataKept(use0, data0, use1, data1) && DataKept(use1, data1, use, data)
    ensures DataKept(use0, data0, use, data)
  {
    forall f | f in use0 && f in use && f in data0 && use0[f] != Free && use[f] != Free
      ensures f in data && data[f] == data0[f]
    {
      assert MappedUseAt(use0, use1, r, pa, done, f);
    }
  }

  /** Every page mapped in lo..hi belongs to the tree. */
  ghost predicate OwnsRange(tables: Tables, use: Uses, r: int, lo: int, hi: int) {
    forall w :: lo <= w < hi && 0 <= w ==> OwnsAt(tables, use, r, w)
  }

  predicate OwnsAt(tables: Tables, use: Uses, r: int, w: nat) {
    match Lookup(tables, r, w)
    case None => true
    case Some(p) => p.frame in use && use[p.frame].Node?
  }

  lemma NoneMappedStep(tables0: Tables, use0: Uses, tables: Tables, use: Uses, r: int, lo: nat, hi: nat)
    requires Root(use0, r) && NoneMapped(tables0, r, lo, hi) && hi < MAXPAGE && lo <= hi
    requires MapsKept(tables0, use0, tables, use, r, hi, hi + 1) && Unmapped(tables, r, hi)
    ensures NoneMapped(tables, r, lo, hi + 1)
  {
    forall w | lo <= w < hi + 1 ensures Unmapped(tables, r, w) {
      if w < hi {
        assert Unmapped(tables0, r, w) && SameAt(tables0, tables, r, w);
      }
    }
  }

  lemma StillOwned(tables0: Tables, use0: Uses, tables: Tables, use: Uses, r: int, lo: nat, w: nat, to: Use)
    requires Ok(tables0, use0) && Root(use0, r) && lo <= w < MAXPAGE && OwnsAt(tables0, use0, r, w)
    requires SameAt(tables0, tables, r, w) && UnmappedUse(use0, use, r, lo, w, to)
    ensures OwnsAt(tables, use, r, w)
  {
    if Lookup(tables0, r, w).Some? {
      MappedIsFor(tables0, use0, r, w);
      assert UnmappedUseAt(use0, use, r, lo, w, to, Lookup(tables0, r, w).value.frame);
    }
  }

  /** A page that no table points to may pass between free and held. */
  lemma HeldOk(tables: Tables, use: Uses, f: int, u: Use, r: int)
    requires Ok(tables, use) && f in use && (use[f] == Free || use[f] == Held) && (u == Free || u == Held)
    ensures Ok(tables, use[f := u])
    ensures MapsKept(tables, use, tables, use[f := u], r, 0, 0)
  {
    var use' := use[f := u];
    HeldUnused(tables, use, f, f, 0);
    forall g | g in tables ensures TableOk(tables, use', g) {
      assert TableOk(tables, use, g);
    }
    forall g, k | g in tables && 0 <= k < ENTRIES ensures PteOk(tables, use', g, k) {
      assert TableOk(tables, use, g) && PteOk(tables, use, g, k);
      HeldUnused(tables, use, f, g, k);
    }
    forall g | g in use' ensures UseOk(tables, use', g) {
      assert UseOk(tables, use, g);
      assert g in use && use[g].Node? && use[g].level < 2 ==> use[g].parent != f;
    }
  }

  // ----- taking a tree apart

  /** Page g is table f or lies in the subtree below it. */
  predicate Under(use: Uses, f: int, g: int) {
    && IsTable(use, f) && IsTable(use, g)
    && (g == f || (use[g].level < use[f].level && (use[g].parent == f || Parent2(use, f, g))))
  }

  predicate Parent2(use: Uses, f: int, g: int)
    requires IsTable(use, f) && IsTable(use, g)
  {
    var p := use[g].parent;
    p in use && use[p].Node? && use[g].level < use[p].level < use[f].level && use[p].parent == f
  }

  /** No bottom-level table below f maps anything. */
  ghost predicate Bare(tables: Tables, use: Uses, f: int) {
    forall g, i :: g in tables && 0 <= i < |tables[g]| ==> BareAt(tables, use, f, g, i)
  }

  predicate BareAt(tables: Tables, use: Uses, f: int, g: int, i: nat)
    requires g in tables && i < |tables[g]|
  {
    Under(use, f, g) && use[g].level == 0 ==> !V(tables[g][i])
  }

  /** As Ok, but entry k of table h may point to a page that is gone. */
  ghost predicate OkBut(tables: Tables, use: Uses, h: int, k: int) {
    && (forall f :: f in tables ==> TableOk(tables, use, f))
    && (forall f, i :: f in tables && 0 <= i < ENTRIES && !(f == h && i == k) ==> PteOk(tables, use, f, i))
    && (forall f :: f in use ==> UseOk(tables, use, f))
    && (h in tables && 0 <= k < |tables[h]| ==> tables[h][k].frame in use && use[tables[h][k].frame] == Free)
  }

  /** Clearing the entry makes it right again. */
  lemma CloseHole(tables: Tables, use: Uses, h: int, k: nat)
    requires OkBut(tables, use, h, k) && h in tables && k < |tables[h]|
    ensures Ok(Set(tables, h, k, ZERO), use)
  {
    var tables' := Set(tables, h, k, ZERO);
    assert TableOk(tables, use, h);
    forall f | f in tables' ensures TableOk(tables', use, f) {
      assert TableOk(tables, use, f);
    }
    forall f, i | f in tables' && 0 <= i < ENTRIES ensures PteOk(tables', use, f, i) {
      if !(f == h && i == k) {
        assert TableOk(tables, use, f) && PteOk(tables, use, f, i);
      }
    }
    forall f | f in use ensures UseOk(tables', use, f) {
      assert UseOk(tables, use, f);
    }
  }

  /** A table with no valid entry may be freed; the entry that points to it is then the only wrong one. */
  lemma DropTable(tables: Tables, use: Uses, f: int)
    requires Ok(tables, use) && f in tables && IsTable(use, f)
    requires forall i :: 0 <= i < |tables[f]| ==> !V(tables[f][i])
    requires use[f].level == 2 ==> use[f].parent !in use
    ensures OkBut(tables - {f}, use[f := Free], use[f].parent, use[f].index)
    ensures use[f].level == 2 ==> Ok(tables - {f}, use[f := Free])
  {
    var tables', use' := tables - {f}, use[f := Free];
    assert TableOk(tables, use, f) && UseOk(tables, use, f);
    forall g | g in tables' ensures TableOk(tables', use', g) {
      assert TableOk(tables, use, g);
    }
    forall g, i | g in tables' && 0 <= i < ENTRIES && !(g == use[f].parent && i == use[f].index)
      ensures PteOk(tables', use', g, i)
    {
      assert TableOk(tables, use, g) && PteOk(tables, use, g, i);
    }
    forall g | g in use' ensures UseOk(tables', use', g) {
      assert UseOk(tables, use, g);
    }
    var h := use[f].parent;
    assert h in tables ==> TableOk(tables, use, h);
  }

  /** Uses while the subtree below f is being freed. */
  ghost predicate Shrinking(use0: Uses, use: Uses, f: int) {
    && use.Keys == use0.Keys
    && (forall g :: g in use0 ==> ShrinkAt(use0, use, f, g))
  }

  predicate ShrinkAt(use0: Uses, use: Uses, f: int, g: int)
    requires g in use0
  {
    g in use && (use[g] == use0[g] || (use[g] == Free && Under(use0, f, g) && g != f))
  }

  /** Tables while that happens: the others are as they were. */
  ghost predicate OthersStay(tables0: Tables, tables: Tables, use: Uses, f: int) {
    forall g :: g in tables0 && g != f && g in use && use[g] != Free ==> g in tables && tables[g] == tables0[g]
  }

  /** The subtree of f is free, everything else is as before. */
  ghost predicate Freed(tables0: Tables, use0: Uses, tables: Tables, use: Uses, f: int) {
    && use.Keys == use0.Keys
    && (forall g :: g in use0 ==> FreedAt(use0, use, f, g))
    && (forall g :: g in tables0 && !Under(use0, f, g) ==> g in tables && tables[g] == tables0[g])
  }

  predicate FreedAt(use0: Uses, use: Uses, f: int, g: int)
    requires g in use0
  {
    g in use && use[g] == if Under(use0, f, g) then Free else use0[g]
  }

  lemma UnderStep(use0: Uses, use1: Uses, f: int, c: int, g: int)
    requires Shrinking(use0, use1, f) && f in use1 && use1[f] == use0[f] && IsTable(use0, f)
    requires c in use1 && use1[c].Node? && use1[c].parent == f && use1[c].level == use0[f].level - 1
      && use0[f].level <= 2
    requires forall x :: x in use1 && use1[x].Node? ==> use1[x].level >= -1
    requires Under(use1, c, g)
    ensures Under(use0, f, g) && g != f
  {
    assert ShrinkAt(use0, use1, f, g) && ShrinkAt(use0, use1, f, c);
    var p := use1[g].parent;
    if p in use1 && p in use0 {
      assert ShrinkAt(use0, use1, f, p);
    }
  }

  /** One child subtree freed and its entry cleared. */
  lemma ShrinkStep(tables0: Tables, use0: Uses, tables1: Tables, use1: Uses, tables: Tables, use: Uses, f: int, c: int)
    requires Shrinking(use0, use1, f) && OthersStay(tables0, tables1, use1, f)
    requires Freed(tables1, use1, tables, use, c) && c != f
    requires f in use1 && use1[f] == use0[f] && IsTable(use0, f)
    requires c in use1 && use1[c].Node? && use1[c].parent == f && use1[c].level == use0[f].level - 1
    requires forall x :: x in use1 && use1[x].Node? ==> use1[x].level >= -1
    ensures Shrinking(use0, use, f) && f in use && use[f] == use0[f] && OthersStay(tables0, tables, use, f)
    ensures f in tables1 ==> f in tables && tables[f] == tables1[f]
    ensures use.Keys == use0.Keys
    ensures forall i: nat :: f in tables && i < |tables[f]| ==> OthersStay(tables0, Set(tables, f, i, ZERO), use, f)
  {
    forall g | g in use0 ensures ShrinkAt(use0, use, f, g) {
      assert ShrinkAt(use0, use1, f, g) && FreedAt(use1, use, c, g);
      if Under(use1, c, g) {
        UnderStep(use0, use1, f, c, g);
      }
    }
    assert FreedAt(use1, use, c, f);
    forall g | g in tables0 && g != f && g in use && use[g] != Free ensures g in tables && tables[g] == tables0[g] {
      assert FreedAt(use1, use, c, g);
    }
  }

  /** When no entry of f is valid any more, everything below f has been freed. */
  lemma AllFreed(tables0: Tables, use0: Uses, tables: Tables, use: Uses, f: int)
    requires Ok(tables0, use0) && Ok(tables, use) && f in tables && f in use0 && IsTable(use, f) && use[f] == use0[f]
    requires forall i :: 0 <= i < |tables[f]| ==> !V(tables[f][i])
    requires Shrinking(use0, use, f) && OthersStay(tables0, tables, use, f)
    ensures Freed(tables0, use0, tables - {f}, use[f := Free], f)
  {
    var use' := use[f := Free];
    forall g | g in use0 ensures FreedAt(use0, use', f, g) {
      assert ShrinkAt(use0, use, f, g) && UseOk(tables, use, g);
      if Under(use0, f, g) && g != f && use[g].Node? {
        var p := use[g].parent;
        assert p in use && UseOk(tables, use, p);
        assert ShrinkAt(use0, use, f, p);
      }
    }
    forall g | g in tables0 && !Under(use0, f, g) ensures g in tables && g != f && tables[g] == tables0[g] {
      assert TableOk(tables0, use0, g) && ShrinkAt(use0, use, f, g);
    }
  }

  lemma ShrinkStarts(tables: Tables, use: Uses, data: map<int, Page>, f: int)
    ensures Shrinking(use, use, f) && DataKept(use, data, use, data)
    ensures Ok(tables, use) ==> OthersStay(tables, tables, use, f)
  {
    forall g | g in use ensures ShrinkAt(use, use, f, g) {
    }
  }

  /** The child below entry i is a table of the next level, with nothing mapped below it. */
  lemma ChildTable(tables: Tables, use: Uses, f: int, i: nat)
    requires Ok(tables, use) && f in tables && IsTable(use, f) && Bare(tables, use, f)
    requires i < ENTRIES == |tables[f]| && V(tables[f][i]) && !Leaf(tables[f][i])
    ensures var c := tables[f][i].frame;
      && c in tables && IsTable(use, c) && c != f && use[c].parent == f && use[c].index == i
      && use[c].level == use[f].level - 1
      && Bare(tables, use, c)
    ensures forall x :: x in use && use[x].Node? ==> use[x].level >= -1
  {
    assert PteOk(tables, use, f, i);
    var c := tables[f][i].frame;
    assert UseOk(tables, use, c);
    forall x | x in use && use[x].Node? ensures use[x].level >= -1 {
      assert UseOk(tables, use, x);
    }
    ShrinkStarts(tables, use, map[], f);
    forall g, k | g in tables && 0 <= k < |tables[g]| ensures BareAt(tables, use, c, g, k) {
      if Under(use, c, g) {
        UnderStep(use, use, f, c, g);
        assert BareAt(tables, use, f, g, k);
      }
    }
  }

  lemma FreedData(use0: Uses, data0: map<int, Page>, tables1: Tables, use1: Uses, data1: map<int, Page>,
                  tables: Tables, use: Uses,
                  data: map<int, Page>, f: int, c: int)
    requires Shrinking(use0, use1, f) && Freed(tables1, use1, tables, use, c)
    requires DataKept(use0, data0, use1, data1) && DataKept(use1, data1, use, data)
    ensures DataKept(use0, data0, use, data)
  {
    forall g | g in use0 && g in use && g in data0 && use0[g] != Free && use[g] != Free
      ensures g in data && data[g] == data0[g]
    {
      assert ShrinkAt(use0, use1, f, g) && FreedAt(use1, use, c, g);
    }
  }

  lemma LastData(use0: Uses, data0: map<int, Page>, use: Uses, data: map<int, Page>, f: int)
    requires DataKept(use0, data0, use, data) && f in use
    ensures DataKept(use0, data0, use[f := Free], data[f := Filled(1)])
  {
  }

  lemma StillBare(tables1: Tables, use1: Uses, tables: Tables, use: Uses, f: int, c: int, i: nat)
    requires Ok(tables1, use1) && Bare(tables1, use1, f) && Freed(tables1, use1, tables, use, c)
    requires forall g :: g in tables ==> TableOk(tables, use, g)
    requires f in tables && i < |tables[f]| && f in use1 && f != c && f in use && use[f] == use1[f]
    ensures Bare(Set(tables, f, i, ZERO), use, f)
  {
    var tables' := Set(tables, f, i, ZERO);
    forall g, k | g in tables' && 0 <= k < |tables'[g]| ensures BareAt(tables', use, f, g, k) {
      if Under(use, f, g) && use[g].level == 0 {
        assert FreedAt(use1, use, c, g) && TableOk(tables, use, g);
        assert FreedAt(use1, use, c, use[g].parent);
        assert g in tables1 by { assert UseOk(tables1, use1, g); }
        assert BareAt(tables1, use1, f, g, k);
      }
    }
  }

  /** All tables of a tree lie under its root. */
  lemma UnderRoot(tables: Tables, use: Uses, r: int, g: int)
    requires Ok(tables, use) && Root(use, r) && IsTable(use, g) && use[g].root == r
    ensures Under(use, r, g)
  {
    assert UseOk(tables, use, g);
    if use[g].level < 2 {
      var p := use[g].parent;
      assert UseOk(tables, use, p);
      if use[p].level < 2 {
        assert UseOk(tables, use, use[p].parent);
      }
    }
  }

  lemma UnderHasRoot(tables: Tables, use: Uses, r: int, g: int)
    requires Ok(tables, use) && Root(use, r) && Under(use, r, g)
    ensures use[g].root == r
  {
    assert UseOk(tables, use, g) && UseOk(tables, use, r);
    if g != r && use[g].parent != r {
      assert UseOk(tables, use, use[g].parent);
    }
  }

  /** A tree that maps nothing has bare bottom tables. */
  lemma NothingMappedBare(tables: Tables, use: Uses, r: int)
    requires Ok(tables, use) && Root(use, r) && NoneMapped(tables, r, 0, MAXPAGE)
    ensures Bare(tables, use, r) && r in tables
  {
    assert UseOk(tables, use, r);
    forall g, k | g in tables && 0 <= k < |tables[g]| ensures BareAt(tables, use, r, g, k) {
      assert TableOk(tables, use, g) && UseOk(tables, use, g);
      if Under(use, r, g) && use[g].level == 0 {
        UnderHasRoot(tables, use, r, g);
        var mid := use[g].parent;
        assert UseOk(tables, use, mid);
        IndexSplit(use[mid].index, use[g].index, k);
        assert Unmapped(tables, r, use[mid].index * 262144 + use[g].index * 512 + k);
      }
    }
  }

  /** Uses after a whole tree is gone: everything it had is free, nothing else has changed. */
  ghost predicate TreeFreed(use0: Uses, use: Uses, r: int) {
    && use.Keys == use0.Keys
    && (forall g :: g in use0 ==> TreeFreedAt(use0, use, r, g))
  }

  predicate TreeFreedAt(use0: Uses, use: Uses, r: int, g: int)
    requires g in use0
  {
    g in use && use[g] == if use0[g].Node? && use0[g].root == r then Free else use0[g]
  }

  lemma TreeGone(tables0: Tables, use0: Uses, tables1: Tables, use1: Uses, tables: Tables, use: Uses, r: int, hi: nat)
    requires Ok(tables0, use0) && Ok(tables1, use1) && Root(use0, r) && Root(use1, r) && hi <= MAXPAGE
    requires NoneMapped(tables0, r, hi, MAXPAGE) && UnmappedUse(use0, use1, r, 0, hi, Free)
    requires Freed(tables1, use1, tables, use, r)
    ensures TreeFreed(use0, use, r)
  {
    forall g | g in use0 ensures TreeFreedAt(use0, use, r, g) {
      assert UnmappedUseAt(use0, use1, r, 0, hi, Free, g) && FreedAt(use1, use, r, g) && UseOk(tables0, use0, g);
      if use0[g].Node? && use0[g].level == -1 && use0[g].root == r {
        ForIsMapped(tables0, use0, g);
        assert hi <= Vpn(use0, g) < MAXPAGE ==> Unmapped(tables0, r, Vpn(use0, g));
      } else if use0[g].Node? && use0[g].level >= 0 {
        if use0[g].root == r {
          UnderRoot(tables1, use1, r, g);
        } else if Under(use1, r, g) {
          UnderHasRoot(tables1, use1, r, g);
        }
      }
    }
  }

  /** Other trees map what they mapped. */
  lemma OtherTrees(tables0: Tables, use0: Uses, tables: Tables, use: Uses, r: int, s: int, w: nat)
    requires Ok(tables0, use0) && Root(use0, r) && Root(use0, s) && s != r && w < MAXPAGE
    requires Freed(tables0, use0, tables, use, r)
    ensures Root(use, s) && SameAt(tables0, tables, s, w)
  {
    assert UseOk(tables0, use0, s) && FreedAt(use0, use, r, s);
    if Under(use0, r, s) {
      UnderHasRoot(tables0, use0, r, s);
    }
    assert TableOk(tables0, use0, s) && PteOk(tables0, use0, s, Px(2, w));
    match Child(tables0, s, Px(2, w))
    case None =>
    case Some(mid) =>
      assert UseOk(tables0, use0, mid) && TableOk(tables0, use0, mid) && PteOk(tables0, use0, mid, Px(1, w));
      if Under(use0, r, mid) {
        UnderHasRoot(tables0, use0, r, mid);
      }
      if LowTable(tables0, s, w).Some? {
        var low := LowTable(tables0, s, w).value;
        assert UseOk(tables0, use0, low);
        if Under(use0, r, low) {
          UnderHasRoot(tables0, use0, r, low);
        }
      }
  }

  /** Pages of every tree but r map what they mapped. */
  ghost predicate OthersKept(tables0: Tables, use0: Uses, tables: Tables, use: Uses, r: int) {
    && (forall s :: s in use0 && Root(use0, s) && s != r ==> Root(use, s))
    && (forall s, w :: s in use0 && Root(use0, s) && s != r && 0 <= w < MAXPAGE ==> SameAt(tables0, tables, s, w))
  }

  lemma OthersKeptAll(tables0: Tables, use0: Uses, tables1: Tables, use1: Uses, tables: Tables, use: Uses, r: int,
                      hi: nat)
    requires Ok(tables1, use1) && Root(use0, r) && Root(use1, r)
    requires MapsKept(tables0, use0, tables1, use1, r, 0, hi) && Freed(tables1, use1, tables, use, r)
    ensures OthersKept(tables0, use0, tables, use, r)
  {
    forall s | s in use0 && Root(use0, s) && s != r ensures Root(use, s) {
      OtherTrees(tables1, use1, tables, use, r, s, 0);
    }
    forall s, w | s in use0 && Root(use0, s) && s != r && 0 <= w < MAXPAGE ensures SameAt(tables0, tables, s, w) {
      assert SameAt(tables0, tables1, s, w);
      OtherTrees(tables1, use1, tables, use, r, s, w);
    }
  }

  lemma AllUnmapped(tables0: Tables, use0: Uses, tables: Tables, use: Uses, r: int, hi: nat)
    requires Root(use0, r) && NoneMapped(tables0, r, hi, MAXPAGE) && NoneMapped(tables, r, 0, hi)
    requires MapsKept(tables0, use0, tables, use, r, 0, hi)
    ensures NoneMapped(tables, r, 0, MAXPAGE)
  {
    forall w | 0 <= w < MAXPAGE ensures Unmapped(tables, r, w) {
      if w >= hi {
        assert Unmapped(tables0, r, w) && SameAt(tables0, tables, r, w);
      }
    }
  }

  lemma EmptyUnmapped(tables: Tables, r: int)
    ensures NoneMapped(tables, r, 0, 0)
  {
  }

  lemma PagesZero()
    ensures Pages(0) == 0 && forall sz: nat :: sz <= MAXVA ==> Pages(sz) <= MAXPAGE
  {
  }

  lemma AllData(use0: Uses, data0: map<int, Page>, tables1: Tables, use1: Uses, data1: map<int, Page>, tables: Tables,
                use: Uses,
                data: map<int, Page>, r: int, hi: nat)
    requires UnmappedUse(use0, use1, r, 0, hi, Free) && Freed(tables1, use1, tables, use, r)
    requires DataKept(use0, data0, use1, data1) && DataKept(use1, data1, use, data)
    ensures DataKept(use0, data0, use, data)
  {
    forall g | g in use0 && g in use && g in data0 && use0[g] != Free && use[g] != Free
      ensures g in data && data[g] == data0[g]
    {
      assert UnmappedUseAt(use0, use1, r, 0, hi, Free, g) && FreedAt(use1, use, r, g);
    }
  }

  lemma BareHere(tables: Tables, use: Uses, f: int, i: nat)
    requires Bare(tables, use, f) && f in tables && i < |tables[f]| && IsTable(use, f)
    ensures use[f].level == 0 ==> !V(tables[f][i])
  {
    assert BareAt(tables, use, f, f, i);
  }

  lemma UnmapStarts(tables: Tables, use: Uses, data: map<int, Page>, r: int, lo: nat, to: Use)
    ensures NoneMapped(tables, r, lo, lo) && MapsKept(tables, use, tables, use, r, lo, lo)
    ensures UnmappedUse(use, use, r, lo, lo, to) && DataKept(use, data, use, data)
  {
    forall f | f in use ensures UnmappedUseAt(use, use, r, lo, lo, to, f) {
    }
  }

  /** The page uvmunmap is about to deal with is as it was at the start. */
  lemma NextToUnmap(tables0: Tables, use0: Uses, tables: Tables, use: Uses, r: int, lo: nat, w: nat, end: nat, to: Use,
                    owned: bool)
    requires Ok(tables0, use0) && Root(use0, r) && lo <= w < end <= MAXPAGE
    requires MapsKept(tables0, use0, tables, use, r, lo, w) && UnmappedUse(use0, use, r, lo, w, to)
    requires owned ==> OwnsRange(tables0, use0, r, lo, end)
    ensures SameAt(tables0, tables, r, w)
    ensures owned ==> OwnsAt(tables, use, r, w)
  {
    assert SameAt(tables0, tables, r, w);
    if owned {
      assert OwnsAt(tables0, use0, r, w);
      StillOwned(tables0, use0, tables, use, r, lo, w, to);
    }
  }

  lemma StillUnmapped(tables0: Tables, use0: Uses, tables: Tables, use: Uses, r: int, w: nat)
    requires Root(use0, r) && w < MAXPAGE && MapsKept(tables0, use0, tables, use, r, 0, 0) && Unmapped(tables0, r, w)
    ensures Unmapped(tables, r, w)
  {
    assert SameAt(tables0, tables, r, w);
  }

  lemma MapUseData(use0: Uses, data0: map<int, Page>, use: Uses, data: map<int, Page>, low: int, i: nat, f: int)
    requires DataKept(use0, data0, use, data) && IsTable(use, low)
    ensures DataKept(use0, data0, MapUse(use, low, i, f), data)
  {
  }
}
