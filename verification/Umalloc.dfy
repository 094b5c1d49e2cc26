/** user/umalloc.c: malloc, free and morecore over one heap. */
module Umalloc {
  import opened Basics
  import opened HeapModel

  const HEADER: nat := 16        // sizeof(Header)
  const MORECORE: nat := 4096

  /** Units for a request: the bytes, rounded up, and one header. */
  function Units(nbytes: nat): (n: nat)
    ensures n > 0 && HEADER * (n - 1) >= nbytes && HEADER * (n - 2) < nbytes
  {
    (nbytes + HEADER - 1) / HEADER + 1
  }

  /** Steps along a circle of n nodes from i to j. */
  function Dist(i: nat, j: nat, n: nat): (d: nat)
    requires i < n && j < n
    ensures d < n && (d == 0 <==> i == j)
  {
    if i <= j then j - i else n - i + j
  }

  lemma DistStep(i: nat, j: nat, n: nat)
    requires i < n && j < n && i != j
    ensures Dist(Next(i, n), j, n) == Dist(i, j, n) - 1
  {
  }

  lemma DistFull(f: nat, j: nat, n: nat)
    requires f < n && j < n
    ensures Dist(Next(f, n), j, n) <= Dist(Next(f, n), f, n)
  {
  }

  /** Starting after node f, the walk has passed j and is now at i. */
  predicate Seen(f: nat, i: nat, j: nat) {
    if f < i then f < j < i else f < j || j < i
  }

  /** Node j is too small for n units. */
  predicate Small(mem: Mem, list: seq<int>, n: nat, j: nat)
    requires j < |list|
  {
    list[j] in mem && mem[list[j]].size < n
  }

  ghost predicate AllSmall(mem: Mem, list: seq<int>, n: nat) {
    forall j :: 0 <= j < |list| ==> Small(mem, list, n, j)
  }

  ghost predicate SmallSoFar(mem: Mem, list: seq<int>, n: nat, f: nat, i: nat) {
    forall j :: 0 <= j < |list| && Seen(f, i, j) ==> Small(mem, list, n, j)
  }

  lemma SmallStart(mem0: Mem, list0: seq<int>, mem: Mem, list: seq<int>, n: nat, f: nat)
    requires f < |list| && n > 0
    requires (mem0 == mem && list0 == list) || (list0 == [] && |list| == 1 && list[0] in mem && mem[list[0]].size == 0)
    ensures AllSmall(mem0, list0, n) <==> AllSmall(mem, list, n)
    ensures SmallSoFar(mem, list, n, f, Next(f, |list|))
    ensures AllSmall(mem, list, n) ==> forall i :: 0 <= i < |list| ==> Small(mem, list, n, i)
  {
  }

  lemma NotAllSmall(mem: Mem, list: seq<int>, n: nat, i: nat)
    requires i < |list| && !Small(mem, list, n, i)
    ensures !AllSmall(mem, list, n)
  {
  }

  lemma SmallStep(mem: Mem, list: seq<int>, n: nat, f: nat, i: nat)
    requires f < |list| && i < |list| && SmallSoFar(mem, list, n, f, i) && Small(mem, list, n, i)
    ensures i != f ==> SmallSoFar(mem, list, n, f, Next(i, |list|))
    ensures i == f ==> AllSmall(mem, list, n)
  {
    forall j | 0 <= j < |list| && j != i && (i == f || Seen(f, Next(i, |list|), j)) ensures Small(mem, list, n, j) {
      assert Seen(f, i, j);
    }
  }

  lemma SameNode(mem: Mem, list: seq<int>, base: int, i: nat, j: nat)
    requires Ring(mem, list, base) && i < |list| && j < |list|
    ensures list[i] == list[j] <==> i == j
    ensures list[i] >= base
  {
    assert i == j || Before(mem, list, i, j) || Before(mem, list, j, i);
    assert i == 0 || Before(mem, list, 0, i);
  }

  /** The list malloc starts with: the static header, linked to itself. */
  lemma FirstList(mem: Mem, base: int)
    requires base in mem && mem[base] == Header(base, 0)
    ensures HeapOk(mem, [base], map[], map[], base) && CoalescedBut(mem, [base], -1, -1)
  {
    assert LinkAt(mem, [base], 0) && SizeAt(mem, [base], 0) && FreeAt(mem, [base], map[], 0);
  }

  lemma NextNode(mem: Mem, list: seq<int>, live: map<int, nat>, who: Who, base: int, bp: int, k: nat)
    requires HeapOk(mem, list, live, who, base) && bp in live && k < |list|
    ensures list[k] in mem && mem[list[k]].ptr != bp
  {
    assert LinkAt(mem, list, k);
    LiveApart(mem, list, live, who, base, bp, Next(k, |list|));
  }

  lemma LinkOf(mem: Mem, list: seq<int>, live: map<int, nat>, who: Who, base: int, i: nat)
    requires HeapOk(mem, list, live, who, base) && i < |list|
    ensures Ring(mem, list, base) && LinkAt(mem, list, i)
  {
  }

  class Allocator {
    const base: int            // address of the static header
    var mem: Mem
    var freep: int             // 0 until the first malloc
    ghost var list: seq<int>
    ghost var at: nat          // where freep is in the list
    ghost var live: map<int, nat>
    ghost var who: Who
    ghost var top: int         // end of the memory obtained so far

    ghost predicate Valid()
      reads this
    {
      && 0 < base < top
      && (forall u :: u in who ==> u < top)
      && if freep == 0 then list == [] && live == map[] && who == map[]
         else HeapOk(mem, list, live, who, base) && CoalescedBut(mem, list, -1, -1) && at < |list| && list[at] == freep
    }

    constructor (base: int)
      requires base > 0
      ensures Valid() && this.base == base && live == map[] && who == map[] && freep == 0
    {
      this.base, mem, freep := base, map[], 0;
      list, at, live, who, top := [], 0, map[], map[], base + 1;
    }

    /** free's search: the node that bp belongs after, which is list[k]. */
    method Search(bp: int) returns (p: int, ghost k: nat)
      requires Valid() && bp in live
      ensures k < |list| && p == list[k] && Place(list, k, bp)
    {
      hide Gap, SizeAt, FreeAt, LiveAt, UnitAt, CoalescedBut;
      forall i | 0 <= i < |list| ensures list[i] != bp {
        LiveApart(mem, list, live, who, base, bp, i);
      }
      LiveApart(mem, list, live, who, base, bp, 0);
      k := FindPlace(list, bp, 0);
      ghost var i: nat := at;
      p := freep;
      assert LinkAt(mem, list, i);
      StopsAtPlace(mem, list, base, bp, k, i);
      while !(bp > p && bp < mem[p].ptr)
        invariant i < |list| && p == list[i] && LinkAt(mem, list, i)
        invariant i == k <==> (bp > p && bp < mem[p].ptr) || (p >= mem[p].ptr && (bp > p || bp < mem[p].ptr))
        decreases Dist(i, k, |list|)
      {
        if p >= mem[p].ptr && (bp > p || bp < mem[p].ptr) {
          break;
        }
        p := mem[p].ptr;
        DistStep(i, k, |list|);
        i := Next(i, |list|);
        assert LinkAt(mem, list, i);
        StopsAtPlace(mem, list, base, bp, k, i);
      }
    }

    /** Links bp in after p and joins what touches. */
    method Join(p: int, bp: int)
      requires p in mem && bp in mem && mem[p].ptr in mem && p != bp && mem[p].ptr != bp
      modifies `mem
      ensures mem == FreeMem(old(mem), p, bp)
    {
      if bp + mem[bp].size == mem[p].ptr {
        mem := mem[bp := Header(mem[mem[p].ptr].ptr, mem[bp].size + mem[mem[p].ptr].size)];
      } else {
        mem := mem[bp := Header(mem[p].ptr, mem[bp].size)];
      }
      if p + mem[p].size == bp {
        mem := mem[p := Header(mem[bp].ptr, mem[p].size + mem[bp].size)];
      } else {
        mem := mem[p := Header(bp, mem[p].size)];
      }
    }

    /** Gives a block back. Its units become free, everything else stays. Node t of the list has them. */
    method Free(ap: int) returns (ghost t: nat)
      requires Valid() && ap - 1 in live
      modifies this
      ensures Valid() && freep != 0 && top == old(top)
      ensures live == old(live) - {ap - 1} && who.Keys == old(who).Keys
      ensures 1 <= t < |list| && list[t] in mem && list[t] <= ap - 1
      ensures ap - 1 + old(live)[ap - 1] <= list[t] + mem[list[t]].size
    {
      hide Before, Gap, LinkAt, SizeAt, FreeAt, LiveAt, UnitAt, CoalescedBut, FreeMem;
      var bp := ap - 1;
      var p, k := Search(bp);
      SameNode(mem, list, base, k, k);
      ghost var list1, who1;
      list1, who1, t := FreeOk(mem, list, live, who, base, bp, k);
      LiveApart(mem, list, live, who, base, bp, k);
      NextNode(mem, list, live, who, base, bp, k);
      Join(p, bp);
      freep := p;
      list, who, live, at := list1, who1, live - {bp}, k;
    }

    /** Gets at least 4096 units from sbrk, which answers `s` (0 if it fails), and frees them. */
    method Morecore(nu: nat, s: int) returns (p: int, ghost t: nat)
      requires Valid() && freep != 0 && nu > 0 && HEADER * nu < 0x8000_0000 && (s == 0 || s >= top)
      modifies this
      ensures Valid() && freep != 0 && live == old(live)
      ensures s == 0 ==> p == 0 && unchanged(this)
      ensures s != 0 ==> p == freep && top == s + Max(nu, MORECORE)
      ensures s != 0 ==> forall u :: u in who <==> u in old(who) || s <= u < top
      ensures s != 0 ==> 1 <= t < |list| && list[t] in mem && mem[list[t]].size >= nu
    {
      hide Before, Gap, LinkAt, SizeAt, FreeAt, LiveAt, UnitAt, CoalescedBut;
      var n := Max(nu, MORECORE);
      if s == 0 {
        return 0, 0;
      }
      var hp := s;
      ghost var live0 := live;
      GrowOk(mem, list, live, who, base, hp, Header(if hp in mem then mem[hp].ptr else 0, n));
      mem := mem[hp := Header(if hp in mem then mem[hp].ptr else 0, n)];
      live, who, top := live[hp := n], Grown(who, hp, n), s + n;
      t := Free(hp + 1);
      assert live == live0;
      p := freep;
    }

    /** The header before list[i], as malloc's prevp names it. */
    ghost predicate Behind(prevp: int, p: int, i: nat)
      reads this
    {
      i < |list| && p == list[i] && prevp == list[if i == 0 then |list| - 1 else i - 1]
    }

    /** Takes the block at p, or its last `n` units. */
    method Take(prevp: int, p: int, n: nat, ghost i: nat) returns (r: int)
      requires Valid() && freep != 0 && Behind(prevp, p, i) && n > 0 && p in mem && mem[p].size >= n
      modifies this
      ensures Valid() && freep == prevp != 0 && top == old(top)
      ensures r > 0 && r - 1 !in old(live) && live == old(live)[r - 1 := n]
      ensures who.Keys == old(who).Keys
    {
      hide LinkAt, Before, Gap, FreeAt, LiveAt, UnitAt;
      var q := p;
      assert SizeAt(mem, list, i);
      SameNode(mem, list, base, i, i);
      SameNode(mem, list, base, i - 1, i);
      assert SizeAt(mem, list, i - 1);
      if mem[p].size == n {
        UnlinkRing(mem, list, base, i);
        UnlinkParted(mem, list, live, who, base, i);
        mem := mem[prevp := Header(mem[p].ptr, mem[prevp].size)];
        list := Remove(list, i);
      } else {
        SplitRing(mem, list, live, who, base, i, n);
        SplitParted(mem, list, live, who, base, i, n);
        q := p + mem[p].size - n;
        mem := mem[p := Header(mem[p].ptr, mem[p].size - n)];
        mem := mem[q := Header(if q in mem then mem[q].ptr else 0, n)];
      }
      live, who := live[q := n], Relabel(who, q, n, Live(q));
      at := i - 1;
      freep := prevp;
      r := q + 1;
    }

    /** Memory for nbytes, or 0. sbrk is asked only if no free block is large enough, and then once; it
        answers s. */
    method Malloc(nbytes: nat, s: int) returns (r: int, ghost grew: bool)
      requires Valid() && HEADER * Units(nbytes) < 0x8000_0000 && (s == 0 || s >= top)
      modifies this
      ensures Valid() && freep != 0
      ensures grew <==> AllSmall(old(mem), old(list), Units(nbytes))
      ensures r == 0 <==> grew && s == 0
      ensures r == 0 ==> live == old(live)
      ensures r != 0 ==> r - 1 !in old(live) && live == old(live)[r - 1 := Units(nbytes)]
      ensures forall u :: u in who <==> u in old(who) || (grew && s != 0 && s <= u < s + Max(Units(nbytes), MORECORE))
    {
      hide Before, Gap, FreeAt, LiveAt, UnitAt, CoalescedBut, AllSmall, SmallSoFar, Seen, Dist, HeapOk, Ring;
      var n := Units(nbytes);
      if freep == 0 {
        freep := base;
        mem := mem[base := Header(base, 0)];
        list, at := [base], 0;
        FirstList(mem, base);
      }
      ghost var mem1, list1 := mem, list;
      SmallStart(old(mem), old(list), mem, list, n, at);
      var prevp := freep;
      LinkOf(mem, list, live, who, base, at);
      var p := mem[prevp].ptr;
      ghost var i: nat, t: nat := Next(at, |list|), at;
      grew := false;
      while true
        invariant Valid() && freep != 0 && Behind(prevp, p, i) && t < |list|
        invariant live == old(live)
        invariant !grew ==> t == at && who == old(who) && top == old(top) && mem == mem1 && list == list1
        invariant !grew ==> SmallSoFar(mem, list, n, at, i)
        invariant grew ==> AllSmall(mem1, list1, n) && s != 0 && Dist(i, t, |list|) <= Dist(i, at, |list|)
        invariant grew ==> list[t] in mem && mem[list[t]].size >= n
        invariant forall u :: u in who <==> u in old(who) || (grew && s <= u < s + Max(n, MORECORE))
        decreases !grew, Dist(i, t, |list|)
      {
        LinkOf(mem, list, live, who, base, i);
        if mem[p].size >= n {
          if !grew {
            NotAllSmall(mem, list, n, i);
          }
          r := Take(prevp, p, n, i);
          return;
        }
        SameNode(mem, list, base, i, at);
        if !grew {
          SmallStep(mem, list, n, at, i);
        }
        if p == freep {
          if grew {
            assert false;
          }
          p, t := Morecore(n, s);
          grew := true;
          if p == 0 {
            return 0, true;
          }
          i := at;
          DistFull(at, t, |list|);
        } else {
          DistStep(i, t, |list|);
          DistStep(i, at, |list|);
        }
        prevp := p;
        LinkOf(mem, list, live, who, base, i);
        p := mem[p].ptr;
        i := Next(i, |list|);
      }
    }
  }
}
