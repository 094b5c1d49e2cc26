/** The values behind kernel/vm.c and kernel/kalloc.c: page-table pages, what each physical page is used
    for, and the map from virtual pages to page-table entries that a tree of tables stands for. */
module VmModel {
  import opened Basics

  const PGSIZE: nat := 4096
  const MAXVA: nat := 0x40_0000_0000       // 2^38
  const MAXPAGE: nat := 0x400_0000         // MAXVA / PGSIZE
  const ENTRIES: nat := 512
  const PTE_V: nat := 1
  const PTE_R: nat := 2
  const PTE_W: nat := 4
  const PTE_X: nat := 8
  const PTE_U: nat := 16

  // ----- page-table entries

  /** A page-table entry: ten flag bits and a physical page number. */
  datatype Pte = Pte(flags: nat, frame: int)

  predicate V(p: Pte) { p.flags % 2 == 1 }
  predicate R(p: Pte) { p.flags / 2 % 2 == 1 }
  predicate W(p: Pte) { p.flags / 4 % 2 == 1 }
  predicate X(p: Pte) { p.flags / 8 % 2 == 1 }
  predicate U(p: Pte) { p.flags / 16 % 2 == 1 }

  /** An entry that maps a page, rather than pointing to a table. */
  predicate Leaf(p: Pte) { R(p) || W(p) || X(p) }

  const ZERO: Pte := Pte(0, 0)

  /** flags | PTE_V. */
  function OrV(flags: nat): (f: nat)
    ensures f % 2 == 1 && f / 2 == flags / 2
  {
    if flags % 2 == 1 then flags else flags + 1
  }

  /** The entry as the 64-bit word of Sv39, and what PTE2PA and PTE_FLAGS take from it. */
  function Encode(p: Pte): nat
    requires p.frame >= 0
  {
    p.frame * 1024 + p.flags
  }

  function Pa(word: nat): nat {
    word / 1024 * PGSIZE
  }

  lemma EncodeRoundTrip(p: Pte)
    requires p.flags < 1024 && 0 <= p.frame < 0x1000_0000_0000
    ensures Encode(p) < 0x40_0000_0000_0000
    ensures Pa(Encode(p)) == p.frame * PGSIZE && Encode(p) % 1024 == p.flags
  {
  }

  // ----- virtual pages and the three indices of walk

  /** PX(level, va) for the page vpn. */
  function Px(level: nat, vpn: nat): (i: nat)
    requires level <= 2
    ensures i < ENTRIES
  {
    (if level == 0 then vpn else if level == 1 then vpn / 512 else vpn / 262144) % 512
  }

  lemma PxJoin(v: nat)
    requires v < MAXPAGE
    ensures v == Px(2, v) * 262144 + Px(1, v) * 512 + Px(0, v)
  {
    assert v / 262144 < 512;
    assert v / 262144 == v / 512 / 512;
  }

  lemma PxTop(v: nat)
    requires v < MAXPAGE
    ensures Px(2, v) < 256
  {
    assert v / 262144 < 256;
  }

  lemma PxInjective(v: nat, w: nat)
    requires v < MAXPAGE && w < MAXPAGE
    requires Px(0, v) == Px(0, w) && Px(1, v) == Px(1, w) && Px(2, v) == Px(2, w)
    ensures v == w
  {
    PxJoin(v);
    PxJoin(w);
  }

  // ----- the tree

  type Table = seq<Pte>
  type Tables = map<int, Table>

  /** Where entry i of table f points, if it is valid. */
  function Child(tables: Tables, f: int, i: nat): Option<int> {
    if f in tables && i < |tables[f]| && V(tables[f][i]) then Some(tables[f][i].frame) else None
  }

  /** The bottom-level table for page vpn, if walk gets that far without allocating. */
  function LowTable(tables: Tables, root: int, vpn: nat): Option<int> {
    match Child(tables, root, Px(2, vpn))
    case None => None
    case Some(mid) => Child(tables, mid, Px(1, vpn))
  }

  /** What the tree under `root` maps page vpn to. */
  function Lookup(tables: Tables, root: int, vpn: nat): Option<Pte> {
    match LowTable(tables, root, vpn)
    case None => None
    case Some(low) =>
      if low in tables && |tables[low]| == ENTRIES && V(tables[low][Px(0, vpn)]) then
        Some(tables[low][Px(0, vpn)])
      else None
  }

  // ----- what each page of the pool is used for

  /** Free: on kalloc's list. Held: allocated, and in no table. Shared: kept by the kernel, which may map it.
      Node(root, level, parent, index): level 2, 1, 0 are tables, level -1 is a user page; `parent` and
      `index` say which entry points to it. */
  datatype Use = Free | Held | Shared | Node(root: int, level: int, parent: int, index: nat)

  type Uses = map<int, Use>

  predicate IsTable(use: Uses, f: int) {
    f in use && use[f].Node? && 0 <= use[f].level <= 2
  }

  /** Table f is one table of 512 entries, and page f knows it. */
  predicate TableOk(tables: Tables, use: Uses, f: int)
    requires f in tables
  {
    IsTable(use, f) && |tables[f]| == ENTRIES
  }

  /** Entry i of table f, if valid, points to a page that knows it, except that a bottom-level entry may
      also map a page from outside the pool or one that the kernel shares. */
  predicate PteOk(tables: Tables, use: Uses, f: int, i: nat)
    requires f in tables && TableOk(tables, use, f) && i < ENTRIES
  {
    var p, u := tables[f][i], use[f];
    V(p) ==>
      if u.level > 0 then !Leaf(p) && p.frame in use && use[p.frame] == Node(u.root, u.level - 1, f, i)
      else Leaf(p) && (p.frame !in use || use[p.frame] == Shared || use[p.frame] == Node(u.root, -1, f, i))
  }

  /** A page that is used as a table or user page is pointed to by the entry it names. */
  predicate UseOk(tables: Tables, use: Uses, f: int)
    requires f in use
  {
    var u := use[f];
    u.Node? ==>
      && -1 <= u.level <= 2
      && (u.level >= 0 ==> f in tables)
      && (u.level == 2 ==> u.root == f && u.parent == 0)
      && (u.level == 1 ==> u.index < 256)
      && (u.level < 2 ==>
            && u.parent in tables && u.parent in use && u.index < ENTRIES
            && use[u.parent].Node? && use[u.parent].level == u.level + 1 && use[u.parent].root == u.root
            && |tables[u.parent]| == ENTRIES
            && V(tables[u.parent][u.index]) && tables[u.parent][u.index].frame == f)
  }

  /** Every page of the pool has one use, and the trees agree with it. */
  ghost predicate Ok(tables: Tables, use: Uses) {
    && (forall f :: f in tables ==> TableOk(tables, use, f))
    && (forall f, i :: f in tables && 0 <= i < ENTRIES ==> PteOk(tables, use, f, i))
    && (forall f :: f in use ==> UseOk(tables, use, f))
  }

  predicate Root(use: Uses, r: int) {
    r in use && use[r].Node? && use[r].level == 2
  }

  function Set(tables: Tables, f: int, i: nat, p: Pte): (r: Tables)
    requires f in tables && i < |tables[f]|
    ensures f in r && |r[f]| == |tables[f]| && r.Keys == tables.Keys
  {
    tables[f := tables[f][i := p]]
  }

  // ----- distinct pages have distinct entries

  /** The tables on the way to page vpn know which way they lie. */
  lemma LowKnows(tables: Tables, use: Uses, root: int, vpn: nat)
    requires Ok(tables, use) && Root(use, root) && LowTable(tables, root, vpn).Some?
    ensures var low := LowTable(tables, root, vpn).value;
      && low in tables && low in use && use[low].Node? && use[low].level == 0 && use[low].root == root
      && use[low].index == Px(1, vpn)
      && var mid := use[low].parent;
      mid in use && use[mid].Node? && use[mid].level == 1 && use[mid].parent == root && use[mid].index == Px(2, vpn)
  {
    assert UseOk(tables, use, root) && TableOk(tables, use, root);
    assert PteOk(tables, use, root, Px(2, vpn));
    var mid := Child(tables, root, Px(2, vpn)).value;
    assert UseOk(tables, use, mid) && TableOk(tables, use, mid);
    assert PteOk(tables, use, mid, Px(1, vpn));
    var low := LowTable(tables, root, vpn).value;
    assert UseOk(tables, use, low) && TableOk(tables, use, low);
  }

  /** walk sends distinct pages, or the same page of distinct trees, to distinct entries. */
  lemma WalkInjective(tables: Tables, use: Uses, r: int, v: nat, s: int, w: nat)
    requires Ok(tables, use) && Root(use, r) && Root(use, s) && v < MAXPAGE && w < MAXPAGE
    requires LowTable(tables, r, v).Some? && LowTable(tables, r, v) == LowTable(tables, s, w) && Px(0, v) == Px(0, w)
    ensures r == s && v == w
  {
    LowKnows(tables, use, r, v);
    LowKnows(tables, use, s, w);
    PxInjective(v, w);
  }

  // ----- allocating in walk changes no translation

  function Zeros(): (t: Table)
    ensures |t| == ENTRIES && forall i :: 0 <= i < ENTRIES ==> t[i] == ZERO
  {
    seq(ENTRIES, _ => ZERO)
  }

  /** A fresh zeroed page f becomes the table that entry i of table p points to. */
  function Attach(tables: Tables, p: int, i: nat, f: int): Tables
    requires p in tables && i < |tables[p]|
  {
    Set(tables, p, i, Pte(PTE_V, f))[f := Zeros()]
  }

  function AttachUse(use: Uses, p: int, i: nat, f: int): Uses
    requires IsTable(use, p)
  {
    use[f := Node(use[p].root, use[p].level - 1, p, i)]
  }

  ghost predicate CanAttach(tables: Tables, use: Uses, p: int, i: nat, f: int) {
    && Ok(tables, use) && p in tables && IsTable(use, p) && use[p].level > 0
    && i < ENTRIES == |tables[p]| && !V(tables[p][i]) && (use[p].level == 2 ==> i < 256)
    && f in use && use[f] == Held
  }

  lemma HeldUnused(tables: Tables, use: Uses, f: int, g: int, i: nat)
    requires Ok(tables, use) && f in use && (use[f] == Held || use[f] == Free)
    ensures f !in tables && Child(tables, g, i) != Some(f)
  {
    assert f in tables ==> TableOk(tables, use, f);
    if g in tables && i < |tables[g]| {
      assert TableOk(tables, use, g);
      assert PteOk(tables, use, g, i);
    }
  }

  lemma AttachOk(tables: Tables, use: Uses, p: int, i: nat, f: int)
    requires CanAttach(tables, use, p, i, f)
    ensures Ok(Attach(tables, p, i, f), AttachUse(use, p, i, f))
  {
    var tables', use' := Attach(tables, p, i, f), AttachUse(use, p, i, f);
    HeldUnused(tables, use, f, f, 0);
    assert UseOk(tables, use, p);
    forall g | g in tables' ensures TableOk(tables', use', g) {
      assert g == f || TableOk(tables, use, g);
    }
    forall g, k | g in tables' && 0 <= k < ENTRIES ensures PteOk(tables', use', g, k) {
      if g != f && !(g == p && k == i) {
        assert TableOk(tables, use, g) && PteOk(tables, use, g, k);
        HeldUnused(tables, use, f, g, k);
      }
    }
    forall g | g in use' ensures UseOk(tables', use', g) {
      if g != f {
        assert UseOk(tables, use, g);
      }
    }
  }

  lemma AttachSame(tables: Tables, use: Uses, p: int, i: nat, f: int, r: int, vpn: nat)
    requires CanAttach(tables, use, p, i, f) && Root(use, r)
    ensures Lookup(Attach(tables, p, i, f), r, vpn) == Lookup(tables, r, vpn)
    ensures LowTable(tables, r, vpn).Some? ==> LowTable(Attach(tables, p, i, f), r, vpn) == LowTable(tables, r, vpn)
  {
    HeldUnused(tables, use, f, r, Px(2, vpn));
    match Child(tables, r, Px(2, vpn))
    case None =>
    case Some(mid) =>
      HeldUnused(tables, use, f, mid, Px(1, vpn));
      if LowTable(tables, r, vpn).Some? {
        LowKnows(tables, use, r, vpn);
      }
  }

  // ----- changing one bottom-level entry

  /** Writing entry Px(0, vpn) of vpn's bottom table changes what vpn maps to and nothing else. */
  lemma LeafSet(tables: Tables, use: Uses, r: int, vpn: nat, p: Pte, s: int, w: nat)
    requires Ok(tables, use) && Root(use, r) && Root(use, s) && vpn < MAXPAGE && w < MAXPAGE
    requires LowTable(tables, r, vpn).Some?
    ensures var low := LowTable(tables, r, vpn).value;
      && low in tables && |tables[low]| == ENTRIES && IsTable(use, low) && use[low].level == 0 && use[low].root == r
      && var tables' := Set(tables, low, Px(0, vpn), p);
      && LowTable(tables', s, w) == LowTable(tables, s, w)
      && Lookup(tables', s, w) == if s == r && w == vpn then (if V(p) then Some(p) else None) else Lookup(tables, s, w)
  {
    LowKnows(tables, use, r, vpn);
    var low := LowTable(tables, r, vpn).value;
    assert TableOk(tables, use, low);
    assert TableOk(tables, use, s) by { assert UseOk(tables, use, s); }
    match Child(tables, s, Px(2, w))
    case None =>
    case Some(mid) =>
      assert PteOk(tables, use, s, Px(2, w));
      if LowTable(tables, s, w) == Some(low) && Px(0, w) == Px(0, vpn) {
        WalkInjective(tables, use, r, vpn, s, w);
      }
  }

  /** Mapping a page: an owned one becomes a user page of this tree, a shared or foreign one is just mapped. */
  lemma MapOk(tables: Tables, use: Uses, low: int, i: nat, p: Pte)
    requires Ok(tables, use) && low in tables && IsTable(use, low) && use[low].level == 0
    requires i < ENTRIES == |tables[low]| && !V(tables[low][i]) && V(p) && Leaf(p)
    requires p.frame !in use || use[p.frame] == Shared || use[p.frame] == Held
    ensures Ok(Set(tables, low, i, p),
               if p.frame in use && use[p.frame] == Held then use[p.frame := Node(use[low].root, -1, low, i)] else use)
  {
    var f := p.frame;
    var owned := f in use && use[f] == Held;
    var tables', use' := Set(tables, low, i, p), if owned then use[f := Node(use[low].root, -1, low, i)] else use;
    if owned {
      HeldUnused(tables, use, f, f, 0);
    }
    forall g | g in tables' ensures TableOk(tables', use', g) {
      assert TableOk(tables, use, g);
    }
    forall g, k | g in tables' && 0 <= k < ENTRIES ensures PteOk(tables', use', g, k) {
      if !(g == low && k == i) {
        assert TableOk(tables, use, g) && PteOk(tables, use, g, k);
        if owned {
          HeldUnused(tables, use, f, g, k);
        }
      }
    }
    forall g | g in use' ensures UseOk(tables', use', g) {
      assert UseOk(tables, use, g);
    }
  }

  /** Unmapping an entry; the user page it held, if any, is held by the caller from then on. */
  lemma UnmapOk(tables: Tables, use: Uses, low: int, i: nat)
    requires Ok(tables, use) && low in tables && IsTable(use, low) && use[low].level == 0
    requires i < ENTRIES == |tables[low]| && V(tables[low][i])
    ensures var f := tables[low][i].frame;
      Ok(Set(tables, low, i, ZERO), if f in use && use[f].Node? then use[f := Held] else use)
  {
    var f := tables[low][i].frame;
    assert TableOk(tables, use, low) && PteOk(tables, use, low, i);
    var owned := f in use && use[f].Node?;
    var tables', use' := Set(tables, low, i, ZERO), if owned then use[f := Held] else use;
    if owned {
      assert f in tables ==> TableOk(tables, use, f);
    }
    forall g | g in tables' ensures TableOk(tables', use', g) {
      assert TableOk(tables, use, g);
    }
    forall g, k | g in tables' && 0 <= k < ENTRIES ensures PteOk(tables', use', g, k) {
      if !(g == low && k == i) {
        assert TableOk(tables, use, g) && PteOk(tables, use, g, k);
      }
    }
    forall g | g in use' ensures UseOk(tables', use', g) {
      assert UseOk(tables, use, g);
    }
  }
}
