/** The values behind user/umalloc.c: headers in memory, the circular free list, and who has each unit.
    Addresses count units of sizeof(Header) bytes. */
module HeapModel {
  datatype Header = Header(ptr: int, size: nat)
  type Mem = map<int, Header>

  /** Which block a unit of memory belongs to. */
  datatype Owner = Free(a: int) | Live(a: int)
  type Who = map<int, Owner>

  function Next(i: nat, n: nat): nat
    requires i < n
  {
    if i + 1 == n then 0 else i + 1
  }

  // ----- the free list: list[0] is base, addresses rise, the last node points back to base

  predicate LinkAt(mem: Mem, list: seq<int>, i: nat)
    requires i < |list|
  {
    list[i] in mem && mem[list[i]].ptr == list[Next(i, |list|)]
  }

  predicate SizeAt(mem: Mem, list: seq<int>, i: nat)
    requires i < |list|
  {
    list[i] in mem && (i == 0 <==> mem[list[i]].size == 0)
  }

  /** Node i ends at or before the start of node j. */
  predicate Before(mem: Mem, list: seq<int>, i: nat, j: nat)
    requires i < |list| && j < |list|
  {
    list[i] in mem && list[i] < list[j] && list[i] + mem[list[i]].size <= list[j]
  }

  /** Node i does not touch node i+1. */
  predicate Gap(mem: Mem, list: seq<int>, i: nat)
    requires i + 1 < |list|
  {
    list[i] in mem && list[i] + mem[list[i]].size != list[i + 1]
  }

  /** Circular and address-ordered with a single wrap point; nodes may touch. */
  ghost predicate Ring(mem: Mem, list: seq<int>, base: int) {
    && |list| > 0 && list[0] == base
    && (forall i :: 0 <= i < |list| ==> LinkAt(mem, list, i))
    && (forall i :: 0 <= i < |list| ==> SizeAt(mem, list, i))
    && (forall i, j :: 0 <= i < j < |list| ==> Before(mem, list, i, j))
  }

  /** No two neighbours could be merged, leaving out positions i and j. */
  ghost predicate CoalescedBut(mem: Mem, list: seq<int>, i: int, j: int) {
    forall k :: 0 <= k < |list| - 1 && k != i && k != j ==> Gap(mem, list, k)
  }

  /** Following a link goes up in memory everywhere but at the last node. */
  lemma OneWrap(mem: Mem, list: seq<int>, base: int, i: nat)
    requires Ring(mem, list, base) && i < |list|
    ensures list[i] in mem && (mem[list[i]].ptr <= list[i] <==> i == |list| - 1)
  {
    assert LinkAt(mem, list, i);
    if i + 1 < |list| {
      assert Before(mem, list, i, i + 1);
    } else {
      assert i == 0 || Before(mem, list, 0, i);
    }
  }

  // ----- who has each unit

  predicate InList(list: seq<int>, a: int) {
    exists i :: 1 <= i < |list| && list[i] == a
  }

  ghost predicate Has(who: Who, a: int, n: nat, o: Owner) {
    forall u :: a <= u < a + n ==> u in who && who[u] == o
  }

  ghost predicate FreeAt(mem: Mem, list: seq<int>, who: Who, i: nat)
    requires i < |list|
  {
    list[i] in mem && Has(who, list[i], mem[list[i]].size, Free(list[i]))
  }

  ghost predicate LiveAt(mem: Mem, live: map<int, nat>, who: Who, a: int)
    requires a in live
  {
    a in mem && mem[a].size == live[a] > 0 && Has(who, a, live[a], Live(a))
  }

  predicate UnitAt(mem: Mem, list: seq<int>, live: map<int, nat>, who: Who, u: int)
    requires u in who
  {
    match who[u]
    case Free(a) => a in mem && a <= u < a + mem[a].size && InList(list, a)
    case Live(a) => a in live && a <= u < a + live[a]
  }

  /** Every unit obtained so far is in exactly one free node or live block, the one `who` names. */
  ghost predicate Parted(mem: Mem, list: seq<int>, live: map<int, nat>, who: Who) {
    && (forall i :: 0 <= i < |list| ==> FreeAt(mem, list, who, i))
    && (forall a :: a in live ==> LiveAt(mem, live, who, a))
    && (forall u :: u in who ==> UnitAt(mem, list, live, who, u))
  }

  ghost predicate HeapOk(mem: Mem, list: seq<int>, live: map<int, nat>, who: Who, base: int) {
    && Ring(mem, list, base)
    && Parted(mem, list, live, who)
    && (forall u :: u in who ==> base < u)
  }

  /** Units of block `a` get a new owner. */
  function Relabel(who: Who, a: int, n: nat, o: Owner): (r: Who)
    ensures r.Keys == who.Keys
    ensures forall u :: u in who ==> r[u] == if a <= u < a + n then o else who[u]
  {
    map u | u in who :: if a <= u < a + n then o else who[u]
  }

  /** A live block is no free node, and no two live blocks are the same memory. */
  lemma LiveApart(mem: Mem, list: seq<int>, live: map<int, nat>, who: Who, base: int, a: int, i: nat)
    requires HeapOk(mem, list, live, who, base) && a in live && i < |list|
    ensures a > base && list[i] != a && list[i] in mem
    ensures i > 0 ==> a + live[a] <= list[i] || list[i] + mem[list[i]].size <= a
  {
    assert LiveAt(mem, live, who, a) && FreeAt(mem, list, who, i) && SizeAt(mem, list, i);
    assert who[a] == Live(a);
    if i > 0 {
      assert who[list[i]] == Free(list[i]);
    } else {
      assert a in who;
    }
  }

  lemma LivesApart(mem: Mem, list: seq<int>, live: map<int, nat>, who: Who, base: int, a: int, b: int)
    requires HeapOk(mem, list, live, who, base) && a in live && b in live && a != b
    ensures a + live[a] <= b || b + live[b] <= a
  {
    assert LiveAt(mem, live, who, a) && LiveAt(mem, live, who, b);
    assert who[a] == Live(a) && who[b] == Live(b);
  }

  // ----- where a freed block belongs

  /** Block bp belongs right after node k. */
  predicate Place(list: seq<int>, k: nat, bp: int)
    requires k < |list|
  {
    list[k] < bp && (k + 1 < |list| ==> bp < list[k + 1])
  }

  ghost predicate Absent(list: seq<int>, bp: int) {
    forall i :: 0 <= i < |list| ==> list[i] != bp
  }

  lemma FindPlace(list: seq<int>, bp: int, k: nat) returns (r: nat)
    requires k < |list| && list[k] < bp && Absent(list, bp)
    ensures r < |list| && Place(list, r, bp)
    decreases |list| - k
  {
    if k + 1 == |list| || bp < list[k + 1] {
      r := k;
    } else {
      r := FindPlace(list, bp, k + 1);
    }
  }

  /** The test free's loop makes at node i succeeds at the right place and nowhere else. */
  lemma StopsAtPlace(mem: Mem, list: seq<int>, base: int, bp: int, k: nat, i: nat)
    requires Ring(mem, list, base) && k < |list| && i < |list| && Place(list, k, bp) && bp > base
    ensures var p, next := list[i], list[Next(i, |list|)];
      i == k <==> (bp > p && bp < next) || (p >= next && (bp > p || bp < next))
  {
    assert Before(mem, list, 0, i) || i == 0;
    if i < k {
      assert Before(mem, list, i, i + 1);
      assert i + 1 == k || Before(mem, list, i + 1, k);
    } else if k < i {
      assert k + 1 == i || Before(mem, list, k + 1, i);
      if i + 1 < |list| {
        assert Before(mem, list, i, i + 1);
      }
    } else if k + 1 < |list| {
      assert Before(mem, list, k, k + 1);
    }
  }

  // ----- putting a block into the list, merging neighbours, taking a node out

  function Insert(list: seq<int>, k: nat, bp: int): (r: seq<int>)
    requires k < |list|
    ensures |r| == |list| + 1
    ensures forall i :: 0 <= i < |r| ==> r[i] == if i <= k then list[i] else if i == k + 1 then bp else list[i - 1]
  {
    list[..k + 1] + [bp] + list[k + 1..]
  }

  function Remove(list: seq<int>, k: nat): (r: seq<int>)
    requires k < |list|
    ensures |r| == |list| - 1
    ensures forall i :: 0 <= i < |r| ==> r[i] == if i < k then list[i] else list[i + 1]
  {
    list[..k] + list[k + 1..]
  }

  lemma StillListed(list: seq<int>, k: nat, bp: int, a: int)
    requires k < |list| && InList(list, a)
    ensures InList(Insert(list, k, bp), a)
    ensures k > 0 && a != list[k] ==> InList(Remove(list, k), a)
  {
    var i :| 1 <= i < |list| && list[i] == a;
    assert Insert(list, k, bp)[if i <= k then i else i + 1] == a;
    if i != k && k > 0 {
      assert Remove(list, k)[if i < k then i else i - 1] == a;
    }
  }

  /** Relabelling free units leaves a live block as it was. */
  lemma LiveStays(mem: Mem, mem': Mem, live: map<int, nat>, who: Who, p: int, f: int, n: nat, o: Owner, a: int)
    requires a in live && LiveAt(mem, live, who, a) && Has(who, p, n, Free(f))
    requires a in mem' && mem'[a].size == mem[a].size
    ensures LiveAt(mem', live, Relabel(who, p, n, o), a)
  {
    forall u | a <= u < a + live[a] ensures Relabel(who, p, n, o)[u] == Live(a) {
      assert who[u] == Live(a) != Free(f);
    }
  }

  /** bp linked in after node k. */
  function Linked(mem: Mem, list: seq<int>, k: nat, bp: int): Mem
    requires k < |list| && bp in mem && list[k] in mem
  {
    mem[bp := Header(list[Next(k, |list|)], mem[bp].size)][list[k] := Header(bp, mem[list[k]].size)]
  }

  /** Nodes up to k end before bp, later ones start after it. */
  lemma PlaceSplits(mem: Mem, list: seq<int>, live: map<int, nat>, who: Who, base: int, bp: int, k: nat, i: nat)
    requires HeapOk(mem, list, live, who, base) && bp in live && k < |list| && Place(list, k, bp) && i < |list|
    ensures list[i] in mem && list[i] != bp
    ensures i <= k ==> list[i] < bp && list[i] + mem[list[i]].size <= bp
    ensures i > k ==> bp < list[i] && bp + live[bp] <= list[i]
  {
    LiveApart(mem, list, live, who, base, bp, i);
    assert SizeAt(mem, list, i);
    if i < k {
      assert Before(mem, list, i, k);
    } else if i > k + 1 {
      assert Before(mem, list, k + 1, i);
      LiveApart(mem, list, live, who, base, bp, k + 1);
    }
  }

  lemma InsertRing(mem: Mem, list: seq<int>, live: map<int, nat>, who: Who, base: int, bp: int, k: nat)
    requires HeapOk(mem, list, live, who, base) && bp in live && k < |list| && Place(list, k, bp)
    ensures bp in mem && list[k] in mem
    ensures Ring(Linked(mem, list, k, bp), Insert(list, k, bp), base)
  {
    assert LinkAt(mem, list, k) && LiveAt(mem, live, who, bp);
    var mem', list' := Linked(mem, list, k, bp), Insert(list, k, bp);
    forall i | 0 <= i < |list'| ensures LinkAt(mem', list', i) && SizeAt(mem', list', i) {
      var i0 := if i <= k then i else if i == k + 1 then k else i - 1;
      assert LinkAt(mem, list, i0) && SizeAt(mem, list, i0);
      PlaceSplits(mem, list, live, who, base, bp, k, i0);
      if i != k + 1 && i0 != k {
        assert Before(mem, list, i0, k) || Before(mem, list, k, i0);
      }
    }
    forall i, j | 0 <= i < j < |list'| ensures Before(mem', list', i, j) {
      InsertBefore(mem, list, live, who, base, bp, k, i, j);
    }
  }

  lemma InsertBefore(mem: Mem, list: seq<int>, live: map<int, nat>, who: Who, base: int, bp: int, k: nat, i: nat,
                     j: nat)
    requires HeapOk(mem, list, live, who, base) && bp in live && bp in mem && mem[bp].size == live[bp]
    requires k < |list| && Place(list, k, bp) && list[k] in mem && i < j <= |list|
    ensures Before(Linked(mem, list, k, bp), Insert(list, k, bp), i, j)
  {
    if i == k + 1 {
      PlaceSplits(mem, list, live, who, base, bp, k, j - 1);
    } else if j == k + 1 {
      PlaceSplits(mem, list, live, who, base, bp, k, i);
    } else {
      var i0, j0 := if i <= k then i else i - 1, if j <= k then j else j - 1;
      assert Before(mem, list, i0, j0);
      PlaceSplits(mem, list, live, who, base, bp, k, i0);
    }
  }

  /** The freed block's units change owner, and the list now has it. */
  lemma InsertParted(mem: Mem, list: seq<int>, live: map<int, nat>, who: Who, base: int, bp: int, k: nat)
    requires HeapOk(mem, list, live, who, base) && bp in live && k < |list| && Place(list, k, bp)
    ensures bp in mem && list[k] in mem
    ensures Parted(Linked(mem, list, k, bp), Insert(list, k, bp), live - {bp}, Relabel(who, bp, live[bp], Free(bp)))
  {
    assert LinkAt(mem, list, k) && LiveAt(mem, live, who, bp);
    var n := live[bp];
    var mem', list', live', who' := Linked(mem, list, k, bp), Insert(list, k, bp), live - {bp},
      Relabel(who, bp, n, Free(bp));
    forall i | 0 <= i < |list'| ensures FreeAt(mem', list', who', i) {
      if i != k + 1 {
        var i0 := if i <= k then i else i - 1;
        assert FreeAt(mem, list, who, i0);
        PlaceSplits(mem, list, live, who, base, bp, k, i0);
      }
    }
    forall a | a in live' ensures LiveAt(mem', live', who', a) {
      assert LiveAt(mem, live, who, a);
      LivesApart(mem, list, live, who, base, a, bp);
      LiveApart(mem, list, live, who, base, a, k);
    }
    forall u | u in who' ensures UnitAt(mem', list', live', who', u) {
      assert UnitAt(mem, list, live, who, u);
      if bp <= u < bp + n {
        assert list'[k + 1] == bp;
      } else if who[u].Free? {
        var a := who[u].a;
        var i :| 1 <= i < |list| && list[i] == a;
        PlaceSplits(mem, list, live, who, base, bp, k, i);
        StillListed(list, k, bp, a);
      }
    }
  }

  lemma InsertGaps(mem: Mem, list: seq<int>, live: map<int, nat>, who: Who, base: int, bp: int, k: nat)
    requires HeapOk(mem, list, live, who, base) && bp in live && k < |list| && Place(list, k, bp)
    requires CoalescedBut(mem, list, -1, -1)
    ensures bp in mem && list[k] in mem
    ensures CoalescedBut(Linked(mem, list, k, bp), Insert(list, k, bp), k, k + 1)
  {
    assert LinkAt(mem, list, k) && LiveAt(mem, live, who, bp);
    var mem', list' := Linked(mem, list, k, bp), Insert(list, k, bp);
    forall i | 0 <= i < |list'| - 1 && i != k && i != k + 1 ensures Gap(mem', list', i) {
      var i0 := if i <= k then i else i - 1;
      assert Gap(mem, list, i0);
      PlaceSplits(mem, list, live, who, base, bp, k, i0);
    }
  }

  /** Node j swallows node j+1, which starts where it ends. */
  function Merged(mem: Mem, list: seq<int>, j: nat): Mem
    requires j + 1 < |list| && list[j] in mem && list[j + 1] in mem
  {
    mem[list[j] := Header(mem[list[j + 1]].ptr, mem[list[j]].size + mem[list[j + 1]].size)]
  }

  lemma MergeRing(mem: Mem, list: seq<int>, base: int, j: nat)
    requires Ring(mem, list, base) && 1 <= j && j + 1 < |list| && list[j] in mem && list[j + 1] in mem
    requires list[j] + mem[list[j]].size == list[j + 1]
    ensures Ring(Merged(mem, list, j), Remove(list, j + 1), base)
  {
    var mem', list' := Merged(mem, list, j), Remove(list, j + 1);
    forall i | 0 <= i < |list'| ensures LinkAt(mem', list', i) && SizeAt(mem', list', i) {
      var i0 := if i <= j then i else i + 1;
      assert LinkAt(mem, list, i0) && SizeAt(mem, list, i0) && LinkAt(mem, list, j + 1) && SizeAt(mem, list, j + 1);
      assert i0 == j || Before(mem, list, i0, j) || Before(mem, list, j, i0);
    }
    forall i, l | 0 <= i < l < |list'| ensures Before(mem', list', i, l) {
      var i0, l0 := if i <= j then i else i + 1, if l <= j then l else l + 1;
      assert Before(mem, list, i0, l0);
      assert i0 == j || Before(mem, list, i0, j) || Before(mem, list, j, i0);
      if i == j {
        assert Before(mem, list, j + 1, l0);
      }
    }
  }

  lemma MergeFree(mem: Mem, list: seq<int>, who: Who, base: int, j: nat, i: nat)
    requires Ring(mem, list, base) && 1 <= j && j + 1 < |list| && list[j] in mem && list[j + 1] in mem && i + 1 < |list|
    requires list[j] + mem[list[j]].size == list[j + 1]
    requires forall l :: 0 <= l < |list| ==> FreeAt(mem, list, who, l)
    ensures FreeAt(Merged(mem, list, j), Remove(list, j + 1),
      Relabel(who, list[j + 1], mem[list[j + 1]].size, Free(list[j])), i)
  {
    var i0 := if i <= j then i else i + 1;
    assert FreeAt(mem, list, who, i0) && FreeAt(mem, list, who, j) && FreeAt(mem, list, who, j + 1);
    if i0 < j {
      assert Before(mem, list, i0, j);
    } else if i0 > j + 1 {
      assert Before(mem, list, j + 1, i0) && Before(mem, list, j, i0);
    }
  }

  lemma MergeParted(mem: Mem, list: seq<int>, live: map<int, nat>, who: Who, base: int, j: nat)
    requires Ring(mem, list, base) && Parted(mem, list, live, who)
    requires 1 <= j && j + 1 < |list| && list[j] in mem && list[j + 1] in mem
    requires list[j] + mem[list[j]].size == list[j + 1]
    ensures Parted(Merged(mem, list, j), Remove(list, j + 1), live,
                   Relabel(who, list[j + 1], mem[list[j + 1]].size, Free(list[j])))
  {
    var p, q := list[j], list[j + 1];
    var n := mem[q].size;
    var mem', list', who' := Merged(mem, list, j), Remove(list, j + 1), Relabel(who, q, n, Free(p));
    assert FreeAt(mem, list, who, j) && FreeAt(mem, list, who, j + 1) && SizeAt(mem, list, j);
    forall i | 0 <= i < |list'| ensures FreeAt(mem', list', who', i) {
      MergeFree(mem, list, who, base, j, i);
    }
    assert who[p] == Free(p);
    forall a | a in live ensures LiveAt(mem', live, who', a) {
      assert LiveAt(mem, live, who, a);
      assert who[a] == Live(a);
      LiveStays(mem, mem', live, who, q, q, n, Free(p), a);
    }
    assert list'[j] == p;
    forall u | u in who' ensures UnitAt(mem', list', live, who', u) {
      assert UnitAt(mem, list, live, who, u);
      if !(q <= u < q + n) && who[u].Free? {
        StillListed(list, j + 1, 0, who[u].a);
      }
    }
  }

  lemma MergeGaps(mem: Mem, list: seq<int>, base: int, j: nat, l: int)
    requires Ring(mem, list, base) && 1 <= j && j + 1 < |list| && list[j] in mem && list[j + 1] in mem
    requires list[j] + mem[list[j]].size == list[j + 1] && l <= j && CoalescedBut(mem, list, l, j)
    ensures CoalescedBut(Merged(mem, list, j), Remove(list, j + 1), if l == j then -1 else l, if l == j then -1 else l)
  {
    var mem', list' := Merged(mem, list, j), Remove(list, j + 1);
    forall i | 0 <= i < |list'| - 1 && (i != l || l == j) ensures Gap(mem', list', i) {
      if i < j {
        assert Gap(mem, list, i) && Before(mem, list, i, j);
      } else {
        assert Gap(mem, list, i + 1) && Before(mem, list, j, i + 1);
      }
    }
  }

  // ----- handing a node, or its tail, to the caller

  /** Node j is unlinked: its predecessor points past it. */
  function Unlinked(mem: Mem, list: seq<int>, j: nat): Mem
    requires 1 <= j < |list| && list[j] in mem && list[j - 1] in mem
  {
    mem[list[j - 1] := Header(mem[list[j]].ptr, mem[list[j - 1]].size)]
  }

  lemma UnlinkRing(mem: Mem, list: seq<int>, base: int, j: nat)
    requires Ring(mem, list, base) && CoalescedBut(mem, list, -1, -1)
    requires 1 <= j < |list| && list[j] in mem && list[j - 1] in mem
    ensures Ring(Unlinked(mem, list, j), Remove(list, j), base)
    ensures CoalescedBut(Unlinked(mem, list, j), Remove(list, j), -1, -1)
  {
    var mem', list' := Unlinked(mem, list, j), Remove(list, j);
    forall i | 0 <= i < |list'| ensures LinkAt(mem', list', i) && SizeAt(mem', list', i) {
      var i0 := if i < j then i else i + 1;
      assert LinkAt(mem, list, i0) && SizeAt(mem, list, i0) && LinkAt(mem, list, j);
      assert i0 == j - 1 || Before(mem, list, i0, j - 1) || Before(mem, list, j - 1, i0);
    }
    forall i, l | 0 <= i < l < |list'| ensures Before(mem', list', i, l) {
      assert Before(mem, list, if i < j then i else i + 1, if l < j then l else l + 1);
    }
    forall i | 0 <= i < |list'| - 1 ensures Gap(mem', list', i) {
      var i0 := if i < j then i else i + 1;
      assert Gap(mem, list, i0);
      if i == j - 1 {
        assert Before(mem, list, j - 1, j) && Before(mem, list, j, j + 1) && SizeAt(mem, list, j);
      }
    }
  }

  lemma UnlinkFree(mem: Mem, list: seq<int>, who: Who, base: int, j: nat, i: nat)
    requires Ring(mem, list, base) && 1 <= j < |list| && list[j] in mem && list[j - 1] in mem && i + 1 < |list|
    requires forall l :: 0 <= l < |list| ==> FreeAt(mem, list, who, l)
    ensures FreeAt(Unlinked(mem, list, j), Remove(list, j), Relabel(who, list[j], mem[list[j]].size, Live(list[j])), i)
  {
    var i0 := if i < j then i else i + 1;
    assert FreeAt(mem, list, who, i0);
    assert Before(mem, list, i0, j) || Before(mem, list, j, i0);
  }

  lemma UnlinkParted(mem: Mem, list: seq<int>, live: map<int, nat>, who: Who, base: int, j: nat)
    requires Ring(mem, list, base) && Parted(mem, list, live, who)
    requires 1 <= j < |list| && list[j] in mem && list[j - 1] in mem
    ensures list[j] !in live
    ensures Parted(Unlinked(mem, list, j), Remove(list, j), live[list[j] := mem[list[j]].size],
                   Relabel(who, list[j], mem[list[j]].size, Live(list[j])))
  {
    var p := list[j];
    var n := mem[p].size;
    var mem', list', live', who' := Unlinked(mem, list, j), Remove(list, j), live[p := n], Relabel(who, p, n, Live(p));
    assert FreeAt(mem, list, who, j) && SizeAt(mem, list, j) && Before(mem, list, j - 1, j);
    assert who[p] == Free(p);
    forall i | 0 <= i < |list'| ensures FreeAt(mem', list', who', i) {
      UnlinkFree(mem, list, who, base, j, i);
    }
    forall a | a in live ensures a != p {
      assert LiveAt(mem, live, who, a);
    }
    forall a | a in live' ensures LiveAt(mem', live', who', a) {
      if a != p {
        assert LiveAt(mem, live, who, a);
        assert who[a] == Live(a);
        LiveStays(mem, mem, live, who, p, p, n, Live(p), a);
        assert mem'[a].size == mem[a].size;
      }
    }
    forall u | u in who' ensures UnitAt(mem', list', live', who', u) {
      assert UnitAt(mem, list, live, who, u);
      if !(p <= u < p + n) && who[u].Free? {
        StillListed(list, j, 0, who[u].a);
      }
    }
  }

  /** Node j keeps its front; the last n units become a block of their own. */
  function Split(mem: Mem, p: int, n: nat): Mem
    requires p in mem && n <= mem[p].size
  {
    var q := p + mem[p].size - n;
    mem[p := Header(mem[p].ptr, mem[p].size - n)][q := Header(if q in mem then mem[q].ptr else 0, n)]
  }

  lemma SplitRing(mem: Mem, list: seq<int>, live: map<int, nat>, who: Who, base: int, j: nat, n: nat)
    requires HeapOk(mem, list, live, who, base) && CoalescedBut(mem, list, -1, -1)
    requires 1 <= j < |list| && list[j] in mem && 0 < n < mem[list[j]].size
    ensures Ring(Split(mem, list[j], n), list, base)
    ensures CoalescedBut(Split(mem, list[j], n), list, -1, -1)
  {
    var p := list[j];
    var q, mem' := p + mem[p].size - n, Split(mem, p, n);
    assert FreeAt(mem, list, who, j);
    forall i | 0 <= i < |list| ensures list[i] != q && (i != j ==> list[i] != p) {
      assert i == j || Before(mem, list, i, j) || Before(mem, list, j, i);
    }
    forall i | 0 <= i < |list| ensures LinkAt(mem', list, i) && SizeAt(mem', list, i) {
      assert LinkAt(mem, list, i) && SizeAt(mem, list, i);
    }
    forall i, l | 0 <= i < l < |list| ensures Before(mem', list, i, l) {
      assert Before(mem, list, i, l);
    }
    forall i | 0 <= i < |list| - 1 ensures Gap(mem', list, i) {
      assert Gap(mem, list, i) && Before(mem, list, i, i + 1);
    }
  }

  lemma SplitParted(mem: Mem, list: seq<int>, live: map<int, nat>, who: Who, base: int, j: nat, n: nat)
    requires HeapOk(mem, list, live, who, base)
    requires 1 <= j < |list| && list[j] in mem && 0 < n < mem[list[j]].size
    ensures var q := list[j] + mem[list[j]].size - n;
      && q !in live
      && Parted(Split(mem, list[j], n), list, live[q := n], Relabel(who, q, n, Live(q)))
  {
    var p := list[j];
    var q, mem' := p + mem[p].size - n, Split(mem, p, n);
    var live', who' := live[q := n], Relabel(who, q, n, Live(q));
    assert FreeAt(mem, list, who, j);
    assert who[q] == Free(p) && who[p] == Free(p);
    forall i | 0 <= i < |list| ensures list[i] != q {
      assert FreeAt(mem, list, who, i) && SizeAt(mem, list, i);
      assert i == 0 || who[list[i]] == Free(list[i]);
      assert i > 0 || list[i] !in who;
    }
    forall a | a in live ensures a != q && a != p {
      assert LiveAt(mem, live, who, a);
      assert who[a] == Live(a);
    }
    forall i | 0 <= i < |list| ensures FreeAt(mem', list, who', i) {
      assert FreeAt(mem, list, who, i);
      assert i == j || Before(mem, list, i, j) || Before(mem, list, j, i);
    }
    forall a | a in live' ensures LiveAt(mem', live', who', a) {
      if a != q {
        assert LiveAt(mem, live, who, a);
        LiveStays(mem, mem, live, who, q, p, n, Live(q), a);
        assert mem'[a].size == mem[a].size;
      }
    }
    forall u | u in who' ensures UnitAt(mem', list, live', who', u) {
      assert UnitAt(mem, list, live, who, u);
    }
  }

  /** sbrk's memory, as a block that is about to be freed. */
  function Grown(who: Who, s: int, n: nat): (r: Who)
    ensures forall u :: u in r <==> u in who || s <= u < s + n
    ensures forall u :: u in r ==> r[u] == if s <= u < s + n then Live(s) else who[u]
  {
    if n == 0 then who else Grown(who, s, n - 1)[s + n - 1 := Live(s)]
  }

  lemma GrowOk(mem: Mem, list: seq<int>, live: map<int, nat>, who: Who, base: int, s: int, h: Header)
    requires HeapOk(mem, list, live, who, base) && h.size > 0 && s > base
    requires forall u :: u in who ==> u < s
    ensures s !in live
    ensures HeapOk(mem[s := h], list, live[s := h.size], Grown(who, s, h.size), base)
    ensures CoalescedBut(mem, list, -1, -1) ==> CoalescedBut(mem[s := h], list, -1, -1)
  {
    var mem', live', who' := mem[s := h], live[s := h.size], Grown(who, s, h.size);
    forall i | 0 <= i < |list| ensures list[i] != s {
      assert FreeAt(mem, list, who, i) && SizeAt(mem, list, i);
      if i > 0 {
        assert list[i] in who;
      }
    }
    forall a | a in live ensures a != s {
      assert LiveAt(mem, live, who, a);
      assert a in who;
    }
    forall i | 0 <= i < |list| ensures LinkAt(mem', list, i) && SizeAt(mem', list, i) && FreeAt(mem', list, who', i) {
      assert LinkAt(mem, list, i) && SizeAt(mem, list, i) && FreeAt(mem, list, who, i);
    }
    forall i, j | 0 <= i < j < |list| ensures Before(mem', list, i, j) {
      assert Before(mem, list, i, j);
    }
    forall a | a in live' ensures LiveAt(mem', live', who', a) {
      if a != s {
        assert LiveAt(mem, live, who, a);
      }
    }
    forall u | u in who' ensures UnitAt(mem', list, live', who', u) {
      if u in who && u < s {
        assert UnitAt(mem, list, live, who, u);
        if who[u].Free? {
          var i :| 1 <= i < |list| && list[i] == who[u].a;
        }
      }
    }
    if CoalescedBut(mem, list, -1, -1) {
      forall i | 0 <= i < |list| - 1 ensures Gap(mem', list, i) {
        assert Gap(mem, list, i);
      }
    }
  }

  /** The words free writes, p being the node bp belongs after. */
  function FreeMem(mem: Mem, p: int, bp: int): Mem
    requires p in mem && bp in mem && mem[p].ptr in mem
  {
    var next := mem[p].ptr;
    var b :=
      if bp + mem[bp].size == next then Header(mem[next].ptr, mem[bp].size + mem[next].size)
      else Header(next, mem[bp].size);
    if p + mem[p].size == bp then mem[bp := b][p := Header(b.ptr, mem[p].size + b.size)]
    else mem[bp := b][p := Header(bp, mem[p].size)]
  }

  /** free keeps the heap in order: the block is in the list, merged with whichever neighbours it touches. */
  lemma FreeOk(mem: Mem, list: seq<int>, live: map<int, nat>, who: Who, base: int, bp: int, k: nat)
    returns (list': seq<int>, who': Who, t: nat)
    requires HeapOk(mem, list, live, who, base) && CoalescedBut(mem, list, -1, -1)
    requires bp in live && k < |list| && Place(list, k, bp)
    ensures list[k] in mem && bp in mem && mem[list[k]].ptr in mem
    ensures var mem' := FreeMem(mem, list[k], bp);
      && HeapOk(mem', list', live - {bp}, who', base) && CoalescedBut(mem', list', -1, -1)
      && who'.Keys == who.Keys
      && 1 <= t < |list'| && list'[t] in mem'
      && list'[t] <= bp && bp + live[bp] <= list'[t] + mem'[list'[t]].size
    ensures k < |list'| && list'[k] == list[k]
  {
    assert LinkAt(mem, list, k) && LinkAt(mem, list, Next(k, |list|)) && LiveAt(mem, live, who, bp);
    assert SizeAt(mem, list, k);
    var p, n := list[k], live[bp];
    InsertRing(mem, list, live, who, base, bp, k);
    InsertParted(mem, list, live, who, base, bp, k);
    InsertGaps(mem, list, live, who, base, bp, k);
    LiveApart(mem, list, live, who, base, bp, k);
    LiveApart(mem, list, live, who, base, bp, Next(k, |list|));
    var mem1 := Linked(mem, list, k, bp);
    var live1 := live - {bp};
    list', who' := Insert(list, k, bp), Relabel(who, bp, n, Free(bp));
    if bp + mem[bp].size == mem[p].ptr {
      MergeRing(mem1, list', base, k + 1);
      MergeParted(mem1, list', live1, who', base, k + 1);
      MergeGaps(mem1, list', base, k + 1, k);
      var next, mem2 := list[k + 1], Merged(mem1, list', k + 1);
      list', who' := Remove(list', k + 2), Relabel(who', next, mem[next].size, Free(bp));
      assert FreeMem(mem, p, bp) == JoinLeft(mem2, p, bp);
      list', who', t := FreeLeft(mem2, list', live1, who', base, bp, k);
    } else {
      assert k + 1 < |list| ==> Gap(mem1, list', k + 1);
      assert FreeMem(mem, p, bp) == JoinLeft(mem1, p, bp);
      list', who', t := FreeLeft(mem1, list', live1, who', base, bp, k);
    }
  }

  function JoinLeft(mem: Mem, p: int, bp: int): Mem
    requires p in mem && bp in mem
  {
    if p + mem[p].size == bp then mem[p := Header(mem[bp].ptr, mem[p].size + mem[bp].size)] else mem
  }

  /** The second half of free: merge the block, already in the list, into the node before it. */
  lemma FreeLeft(mem: Mem, list: seq<int>, live: map<int, nat>, who: Who, base: int, bp: int, k: nat)
    returns (list': seq<int>, who': Who, t: nat)
    requires HeapOk(mem, list, live, who, base) && CoalescedBut(mem, list, k, k)
    requires k + 1 < |list| && list[k + 1] == bp && list[k] in mem && bp in mem
    ensures var mem' := JoinLeft(mem, list[k], bp);
      && HeapOk(mem', list', live, who', base) && CoalescedBut(mem', list', -1, -1)
      && who'.Keys == who.Keys
      && 1 <= t < |list'| && list'[t] in mem'
      && list'[t] <= bp && bp + mem[bp].size <= list'[t] + mem'[list'[t]].size
    ensures k < |list'| && list'[k] == list[k]
  {
    assert SizeAt(mem, list, k) && Before(mem, list, k, k + 1);
    if list[k] + mem[list[k]].size == bp {
      MergeRing(mem, list, base, k);
      MergeParted(mem, list, live, who, base, k);
      MergeGaps(mem, list, base, k, k);
      list', who', t := Remove(list, k + 1), Relabel(who, bp, mem[bp].size, Free(list[k])), k;
    } else {
      assert Gap(mem, list, k);
      list', who', t := list, who, k + 1;
    }
  }
}
