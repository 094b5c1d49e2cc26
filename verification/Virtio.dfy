/** kernel/virtio_disk.c: descriptors, the avail and used rings, and a device that may complete requests in
    any order. Each method is one critical section of the driver or one action of the device. */
module Virtio {
  import opened Params
  import opened Basics
  import opened Ring

  const NUM: nat := 8
  const WRAP: nat := 0x1_0000     // the ring indices are 16 bits wide
  const NEXT: nat := 1            // VRING_DESC_F_NEXT
  const WRITE: nat := 2           // VRING_DESC_F_WRITE

  /** What a descriptor points to: nothing, a command header, a buffer's data, or a status byte. */
  datatype Addr = Null | Header(i: nat) | Data(b: int) | Status(i: nat)
  datatype Desc = Desc(addr: Addr, len: nat, flags: nat, next: nat)
  datatype Op = Op(write: bool, sector: nat)
  datatype Info = Info(b: Option<int>, status: nat)

  predicate HasNext(d: Desc) { d.flags % 2 == 1 }

  /** A request as its caller means it, with its second and third descriptors. */
  datatype Request = Request(d1: nat, d2: nat, b: int, write: bool, sector: nat)

  /** How far a request has got. The numbers are positions in the endless sequences of posted and completed
      requests, of which the rings hold the last few. */
  datatype Stage = Posted(k: nat) | Inside | Completed(k: nat) | Seen

  /** What a descriptor is for. */
  datatype Role = Unused | Held | In(h: nat)

  function FreeSet(free: seq<bool>): set<nat> {
    set i: nat | 0 <= i < |free| && free[i]
  }

  lemma FreeSetTake(free: seq<bool>, i: nat)
    requires i < |free| && free[i]
    ensures FreeSet(free[i := false]) == FreeSet(free) - {i}
    ensures |FreeSet(free[i := false])| == |FreeSet(free)| - 1
  {
    assert FreeSet(free[i := false]) == FreeSet(free) - {i};
  }

  lemma AllFree(free: seq<bool>)
    requires |free| == NUM && forall i :: 0 <= i < NUM ==> free[i]
    ensures |FreeSet(free)| == NUM
  {
    assert FreeSet(free) == {0, 1, 2, 3, 4, 5, 6, 7};
  }

  lemma FreeSetGive(free: seq<bool>, i: nat)
    requires i < |free| && !free[i]
    ensures FreeSet(free[i := true]) == FreeSet(free) + {i}
    ensures |FreeSet(free[i := true])| == |FreeSet(free)| + 1
  {
    assert FreeSet(free[i := true]) == FreeSet(free) + {i};
  }

  // ----- what a chain says

  /** The request that a device reading the chain at h finds. */
  function Decode(desc: seq<Desc>, ops: seq<Op>, h: nat): Option<(Op, int, nat, bool)>
    requires |desc| == NUM && |ops| == NUM
  {
    if h < NUM && desc[h].addr.Header? && desc[h].addr.i < NUM && HasNext(desc[h]) && desc[h].next < NUM then
      var d := desc[desc[h].next];
      if d.addr.Data? && d.len == BSIZE && HasNext(d) && d.next < NUM then
        var e := desc[d.next];
        if e.addr.Status? && e.len == 1 && !HasNext(e) then
          Some((ops[desc[h].addr.i], d.addr.b, e.addr.i, d.flags / 2 % 2 == 1))
        else None
      else None
    else None
  }

  predicate ChainOk(desc: seq<Desc>, ops: seq<Op>, info: seq<Info>, role: seq<Role>, h: nat, r: Request)
    requires |desc| == |ops| == |info| == |role| == NUM
  {
    && h < NUM && r.d1 < NUM && r.d2 < NUM && h != r.d1 && h != r.d2 && r.d1 != r.d2
    && role[h] == In(h) && role[r.d1] == In(h) && role[r.d2] == In(h)
    && desc[h] == Desc(Header(h), 16, NEXT, r.d1)
    && desc[r.d1] == Desc(Data(r.b), BSIZE, NEXT + (if r.write then 0 else WRITE), r.d2)
    && desc[r.d2] == Desc(Status(h), 1, WRITE, 0)
    && ops[h] == Op(r.write, r.sector)
    && info[h].b == Some(r.b)
  }

  /** No two requests share a descriptor. */
  lemma ChainsApart(desc: seq<Desc>, ops: seq<Op>, info: seq<Info>, role: seq<Role>, g: nat, q: Request, h: nat,
                    r: Request)
    requires |desc| == |ops| == |info| == |role| == NUM && g != h
    requires ChainOk(desc, ops, info, role, g, q) && ChainOk(desc, ops, info, role, h, r)
    ensures {g, q.d1, q.d2} !! {h, r.d1, r.d2} && |{g, q.d1, q.d2}| == 3
  {
    var mine := {g, q.d1, q.d2};
    assert forall i :: i in mine ==> role[i] == In(g);
  }

  /** A device that follows the chain finds the request that was made: its direction, sector and buffer, and
      the status byte of that very request. */
  lemma DeviceSeesRequest(desc: seq<Desc>, ops: seq<Op>, info: seq<Info>, role: seq<Role>, h: nat, r: Request)
    requires |desc| == |ops| == |info| == |role| == NUM && ChainOk(desc, ops, info, role, h, r)
    ensures Decode(desc, ops, h) == Some((Op(r.write, r.sector), r.b, h, !r.write))
  {
  }

  predicate RoleOk(free: seq<bool>, role: seq<Role>, reqs: map<nat, Request>, i: nat)
    requires |free| == |role| == NUM && i < NUM
  {
    && (free[i] <==> role[i] == Unused)
    && (role[i].In? ==> role[i].h in reqs && (i == role[i].h || i == reqs[role[i].h].d1 || i == reqs[role[i].h].d2))
  }

  /** Every descriptor is free, held, or in one chain; the chains are as they were written; and free ones,
      held ones and three for each request add up. */
  ghost predicate DescOk(desc: seq<Desc>, ops: seq<Op>, info: seq<Info>, free: seq<bool>, role: seq<Role>,
                         reqs: map<nat, Request>, held: set<nat>)
  {
    && |desc| == |ops| == |info| == |free| == |role| == NUM
    && RolesOk(free, role, reqs)
    && HeldAre(role, held)
    && ChainsOk(desc, ops, info, role, reqs)
    && Counted(free, held, reqs)
  }

  ghost predicate HeldAre(role: seq<Role>, held: set<nat>)
    requires |role| == NUM
  {
    forall i: nat :: i in held <==> i < NUM && role[i] == Held
  }

  ghost predicate RolesOk(free: seq<bool>, role: seq<Role>, reqs: map<nat, Request>)
    requires |free| == |role| == NUM
  {
    forall i :: 0 <= i < NUM ==> RoleOk(free, role, reqs, i)
  }

  ghost predicate ChainsOk(desc: seq<Desc>, ops: seq<Op>, info: seq<Info>, role: seq<Role>, reqs: map<nat, Request>)
    requires |desc| == |ops| == |info| == |role| == NUM
  {
    forall h :: h in reqs ==> ChainOk(desc, ops, info, role, h, reqs[h])
  }

  /** Free descriptors, held ones, and three for each request make up all of them. */
  predicate Counted(free: seq<bool>, held: set<nat>, reqs: map<nat, Request>) {
    |FreeSet(free)| + |held| + 3 * |reqs| == NUM
  }

  lemma TakeDesc(desc: seq<Desc>, ops: seq<Op>, info: seq<Info>, free: seq<bool>, role: seq<Role>,
                 reqs: map<nat, Request>, held: set<nat>, i: nat)
    requires DescOk(desc, ops, info, free, role, reqs, held) && i < NUM && free[i]
    ensures i !in held && DescOk(desc, ops, info, free[i := false], role[i := Held], reqs, held + {i})
  {
    assert RoleOk(free, role, reqs, i);
    FreeSetTake(free, i);
    var free', role' := free[i := false], role[i := Held];
    forall j | 0 <= j < NUM ensures RoleOk(free', role', reqs, j) {
      assert RoleOk(free, role, reqs, j);
    }
    forall h | h in reqs ensures ChainOk(desc, ops, info, role', h, reqs[h]) {
      assert ChainOk(desc, ops, info, role, h, reqs[h]);
    }
  }

  lemma GiveDesc(desc: seq<Desc>, ops: seq<Op>, info: seq<Info>, free: seq<bool>, role: seq<Role>,
                 reqs: map<nat, Request>, held: set<nat>, i: nat)
    requires DescOk(desc, ops, info, free, role, reqs, held) && i in held
    ensures i < NUM == |desc| == |free| == |role| && !free[i]
    ensures DescOk(desc[i := Desc(Null, 0, 0, 0)], ops, info, free[i := true], role[i := Unused], reqs, held - {i})
  {
    assert RoleOk(free, role, reqs, i);
    FreeSetGive(free, i);
    var desc', free', role' := desc[i := Desc(Null, 0, 0, 0)], free[i := true], role[i := Unused];
    forall j | 0 <= j < NUM ensures RoleOk(free', role', reqs, j) {
      assert RoleOk(free, role, reqs, j);
    }
    forall h | h in reqs ensures ChainOk(desc', ops, info, role', h, reqs[h]) {
      assert ChainOk(desc, ops, info, role, h, reqs[h]);
    }
  }

  lemma NoFree(desc: seq<Desc>, ops: seq<Op>, info: seq<Info>, free: seq<bool>, role: seq<Role>,
               reqs: map<nat, Request>, held: set<nat>)
    requires DescOk(desc, ops, info, free, role, reqs, held) && forall j :: 0 <= j < NUM ==> !free[j]
    ensures |FreeSet(free)| == 0
  {
    assert FreeSet(free) == {};
  }

  // ----- the queue's book-keeping

  /** Requests in flight by head descriptor, how far each is, and the true counts behind the 16-bit indices. */
  datatype Book = Book(reqs: map<nat, Request>, stage: map<nat, Stage>, inside: set<nat>, seen: set<nat>,
                       posted: nat, fetched: nat, completed: nat, noted: nat)

  /** The stage of request h agrees with the rings. */
  predicate StageOk(availRing: seq<nat>, usedRing: seq<nat>, info: seq<Info>, busy: map<int, bool>, q: Book, h: nat)
    requires |availRing| == |usedRing| == |info| == NUM && h in q.stage && h in q.reqs && h < NUM
  {
    var b := q.reqs[h].b;
    && (h in q.inside <==> q.stage[h] == Inside) && (h in q.seen <==> q.stage[h] == Seen)
    && b in busy && (busy[b] <==> q.stage[h] != Seen)
    && match q.stage[h]
       case Posted(k) => q.fetched <= k < q.posted && availRing[Slot(k, NUM)] == h
       case Inside => true
       case Completed(k) => q.noted <= k < q.completed && usedRing[Slot(k, NUM)] == h && info[h].status == 0
       case Seen => true
  }

  predicate AvailOk(availRing: seq<nat>, q: Book, k: nat)
    requires |availRing| == NUM
  {
    availRing[Slot(k, NUM)] in q.stage && q.stage[availRing[Slot(k, NUM)]] == Posted(k)
  }

  predicate UsedOk(usedRing: seq<nat>, q: Book, k: nat)
    requires |usedRing| == NUM
  {
    usedRing[Slot(k, NUM)] in q.stage && q.stage[usedRing[Slot(k, NUM)]] == Completed(k)
  }

  ghost predicate StagesOk(availRing: seq<nat>, usedRing: seq<nat>, info: seq<Info>, busy: map<int, bool>, q: Book) {
    && |availRing| == |usedRing| == |info| == NUM
    && q.stage.Keys == q.reqs.Keys && q.inside <= q.reqs.Keys && q.seen <= q.reqs.Keys
    && (forall h :: h in q.reqs ==> h < NUM)
    && (forall h :: h in q.reqs ==> StageOk(availRing, usedRing, info, busy, q, h))
    && (forall g, h :: g in q.reqs && h in q.reqs && q.reqs[g].b == q.reqs[h].b ==> g == h)
  }

  ghost predicate RingsOk(availRing: seq<nat>, usedRing: seq<nat>, q: Book) {
    && |availRing| == |usedRing| == NUM
    && (forall k :: q.fetched <= k < q.posted ==> AvailOk(availRing, q, k))
    && (forall k :: q.noted <= k < q.completed ==> UsedOk(usedRing, q, k))
  }

  predicate CountsOk(availIdx: nat, deviceIdx: nat, usedIdx: nat, q: Book) {
    && q.fetched <= q.posted && q.noted <= q.completed
    && availIdx == q.posted % WRAP && deviceIdx == q.completed % WRAP && usedIdx == q.noted % WRAP
    && q.posted - q.fetched + |q.inside| + q.completed - q.noted + |q.seen| == |q.reqs| <= 2
  }

  /** The rings, the indices and the stages agree. */
  ghost predicate QueueOk(availRing: seq<nat>, availIdx: nat, usedRing: seq<nat>, deviceIdx: nat, usedIdx: nat,
                          info: seq<Info>, busy: map<int, bool>, q: Book)
  {
    StagesOk(availRing, usedRing, info, busy, q) && RingsOk(availRing, usedRing, q)
      && CountsOk(availIdx, deviceIdx, usedIdx, q)
  }

  /** The 16-bit index selects the same slot as the true count. */
  lemma SlotOfIndex(k: nat)
    ensures Slot(k % WRAP, NUM) == Slot(k, NUM)
  {
    WrapKeepsSlot(k, NUM, 8192, WRAP);
  }

  /** And, with few requests about, it tells the counts apart. */
  lemma IndexTells(a: nat, b: nat)
    requires a <= b <= a + NUM
    ensures a % WRAP == b % WRAP <==> a == b
  {
  }

  lemma FreeCount(desc: seq<Desc>, ops: seq<Op>, info: seq<Info>, free: seq<bool>, role: seq<Role>,
                  reqs: map<nat, Request>, held: set<nat>)
    ensures DescOk(desc, ops, info, free, role, reqs, held) ==> |FreeSet(free)| + |held| + 3 * |reqs| == NUM
  {
  }

  function Elems(s: seq<nat>): set<nat> {
    set x | x in s
  }

  predicate Distinct(s: seq<nat>) {
    forall j, k :: 0 <= j < k < |s| ==> s[j] != s[k]
  }

  lemma ElemsPush(s: seq<nat>, d: nat)
    requires Distinct(s) && d !in Elems(s)
    ensures Elems(s + [d]) == Elems(s) + {d} && Distinct(s + [d]) && |Elems(s) + {d}| == |Elems(s)| + 1
  {
    assert forall x :: x in s ==> x in Elems(s);
  }

  lemma DistinctNone()
    ensures Distinct([])
  {
  }

  lemma ElemsNone(s: seq<nat>)
    requires s == []
    ensures Elems(s) == {}
  {
  }

  lemma ElemsDrop(s: seq<nat>, j: nat)
    requires Distinct(s) && j < |s|
    ensures s[j] in Elems(s[j..]) && Elems(s[j + 1..]) == Elems(s[j..]) - {s[j]}
  {
    assert s[j..] == [s[j]] + s[j + 1..];
    assert s[j] !in s[j + 1..];
  }

  lemma ElemsThree(s: seq<nat>)
    requires Distinct(s) && |s| == 3
    ensures Elems(s) == {s[0], s[1], s[2]} && s[0] != s[1] && s[0] != s[2] && s[1] != s[2]
  {
    assert s == [s[0], s[1], s[2]];
  }

  lemma TookOne(all: set<nat>, now: set<nat>, held: set<nat>, d: nat)
    requires held <= all && now == all - held && d in now
    ensures held + {d} <= all && now - {d} == all - (held + {d}) && |held + {d}| == |held| + 1
  {
  }

  lemma TookBack(all: set<nat>, now: set<nat>, held: set<nat>)
    requires held <= all && now == all - held
    ensures now + held == all
  {
  }

  // ----- posting a request

  function Added(q: Book, h: nat, r: Request): Book {
    q.(reqs := q.reqs[h := r], stage := q.stage[h := Posted(q.posted)], posted := q.posted + 1)
  }

  function Chained(desc: seq<Desc>, h: nat, r: Request): seq<Desc>
    requires |desc| == NUM && h < NUM && r.d1 < NUM && r.d2 < NUM
  {
    desc[h := Desc(Header(h), 16, NEXT, r.d1)]
        [r.d1 := Desc(Data(r.b), BSIZE, (if r.write then 0 else WRITE) + NEXT, r.d2)]
        [r.d2 := Desc(Status(h), 1, WRITE, 0)]
  }

  function Roles(role: seq<Role>, h: nat, r: Request): seq<Role>
    requires |role| == NUM && h < NUM && r.d1 < NUM && r.d2 < NUM
  {
    role[h := In(h)][r.d1 := In(h)][r.d2 := In(h)]
  }

  lemma AddChain(desc: seq<Desc>, ops: seq<Op>, info: seq<Info>, free: seq<bool>, role: seq<Role>,
                 reqs: map<nat, Request>, h: nat, r: Request)
    requires DescOk(desc, ops, info, free, role, reqs, {h, r.d1, r.d2}) && h != r.d1 && h != r.d2 && r.d1 != r.d2
    ensures h < NUM && r.d1 < NUM && r.d2 < NUM && |desc| == |role| == |ops| == |info| == NUM && h !in reqs
      && |reqs| <= 1
    ensures DescOk(Chained(desc, h, r), ops[h := Op(r.write, r.sector)], info[h := Info(Some(r.b), 255)], free,
                   Roles(role, h, r), reqs[h := r], {})
  {
    AddRoles(desc, ops, info, free, role, reqs, h, r);
    AddOthers(desc, ops, info, free, role, reqs, h, r);
    AddCounted(free, reqs, h, r);
    hide Counted, RolesOk, ChainsOk, ChainOk, HeldAre;
  }

  lemma AddRoles(desc: seq<Desc>, ops: seq<Op>, info: seq<Info>, free: seq<bool>, role: seq<Role>,
                 reqs: map<nat, Request>, h: nat, r: Request)
    requires DescOk(desc, ops, info, free, role, reqs, {h, r.d1, r.d2}) && h != r.d1 && h != r.d2 && r.d1 != r.d2
    ensures h < NUM && r.d1 < NUM && r.d2 < NUM && role[h] == Held && role[r.d1] == Held && role[r.d2] == Held
    ensures RolesOk(free, Roles(role, h, r), reqs[h := r])
    ensures HeldAre(Roles(role, h, r), {})
    ensures h !in reqs
  {
    assert h in {h, r.d1, r.d2} && r.d1 in {h, r.d1, r.d2} && r.d2 in {h, r.d1, r.d2};
    forall g | g in reqs ensures g != h {
      assert ChainOk(desc, ops, info, role, g, reqs[g]);
    }
    var role', reqs' := Roles(role, h, r), reqs[h := r];
    forall i | 0 <= i < NUM ensures RoleOk(free, role', reqs', i) {
      assert RoleOk(free, role, reqs, i);
    }
    forall i: nat | i < NUM ensures role'[i] != Held {
      assert i in {h, r.d1, r.d2} <==> role[i] == Held;
    }
  }

  lemma AddOthers(desc: seq<Desc>, ops: seq<Op>, info: seq<Info>, free: seq<bool>, role: seq<Role>,
                  reqs: map<nat, Request>, h: nat, r: Request)
    requires DescOk(desc, ops, info, free, role, reqs, {h, r.d1, r.d2}) && h != r.d1 && h != r.d2 && r.d1 != r.d2
    requires h < NUM && r.d1 < NUM && r.d2 < NUM && role[h] == Held && role[r.d1] == Held && role[r.d2] == Held
    ensures ChainsOk(Chained(desc, h, r), ops[h := Op(r.write, r.sector)], info[h := Info(Some(r.b), 255)],
      Roles(role, h, r), reqs[h := r])
  {
    var desc', ops', info', role', reqs' :=
      Chained(desc, h, r), ops[h := Op(r.write, r.sector)], info[h := Info(Some(r.b), 255)], Roles(role, h, r),
        reqs[h := r];
    forall g | g in reqs' ensures ChainOk(desc', ops', info', role', g, reqs'[g]) {
      if g != h {
        assert ChainOk(desc, ops, info, role, g, reqs[g]);
      }
    }
  }

  lemma AddCounted(free: seq<bool>, reqs: map<nat, Request>, h: nat, r: Request)
    requires Counted(free, {h, r.d1, r.d2}, reqs) && h !in reqs && h != r.d1 && h != r.d2 && r.d1 != r.d2
    ensures Counted(free, {}, reqs[h := r]) && |reqs| <= 1
  {
    assert |{h, r.d1, r.d2}| == 3;
    assert |reqs[h := r]| == |reqs| + 1;
  }

  lemma AddToQueue(availRing: seq<nat>, availIdx: nat, usedRing: seq<nat>, deviceIdx: nat, usedIdx: nat,
                   info: seq<Info>, busy: map<int, bool>, q: Book, h: nat, r: Request)
    requires QueueOk(availRing, availIdx, usedRing, deviceIdx, usedIdx, info, busy, q)
    requires h < NUM && h !in q.reqs && |q.reqs| <= 1 && forall g :: g in q.reqs ==> q.reqs[g].b != r.b
    ensures |availRing| == NUM && |info| == NUM && availIdx == q.posted % WRAP
    ensures QueueOk(availRing[Slot(q.posted, NUM) := h], (availIdx + 1) % WRAP, usedRing, deviceIdx, usedIdx,
                    info[h := Info(Some(r.b), 255)], busy[r.b := true], Added(q, h, r))
    ensures Added(q, h, r).inside == q.inside && Added(q, h, r).reqs == q.reqs[h := r]
  {
    assert |availRing| == |usedRing| == |info| == NUM;
    forall k | q.fetched <= k < q.posted ensures Slot(k, NUM) != Slot(q.posted, NUM) {
      Apart(k, q.posted, NUM);
    }
    AddStages(availRing, usedRing, info, busy, q, h, r);
    AddRings(availRing, usedRing, info, busy, q, h, r);
    AddCounts(availIdx, deviceIdx, usedIdx, q, h, r);
  }

  lemma AddStages(availRing: seq<nat>, usedRing: seq<nat>, info: seq<Info>, busy: map<int, bool>, q: Book, h: nat,
                  r: Request)
    requires StagesOk(availRing, usedRing, info, busy, q) && h < NUM && h !in q.reqs
    requires forall g :: g in q.reqs ==> q.reqs[g].b != r.b
    requires forall k :: q.fetched <= k < q.posted ==> Slot(k, NUM) != Slot(q.posted, NUM)
    requires q.fetched <= q.posted
    ensures StagesOk(availRing[Slot(q.posted, NUM) := h], usedRing, info[h := Info(Some(r.b), 255)], busy[r.b := true],
      Added(q, h, r))
  {
    hide Slot;
    var q', ring', info', busy' := Added(q, h, r), availRing[Slot(q.posted, NUM) := h], info[h := Info(Some(r.b), 255)],
      busy[r.b := true];
    forall g | g in q'.reqs ensures StageOk(ring', usedRing, info', busy', q', g) {
      if g != h {
        assert StageOk(availRing, usedRing, info, busy, q, g);
      }
    }
  }

  lemma AddRings(availRing: seq<nat>, usedRing: seq<nat>, info: seq<Info>, busy: map<int, bool>, q: Book, h: nat,
                 r: Request)
    requires StagesOk(availRing, usedRing, info, busy, q) && RingsOk(availRing, usedRing, q) && h !in q.reqs
    requires forall k :: q.fetched <= k < q.posted ==> Slot(k, NUM) != Slot(q.posted, NUM)
    ensures RingsOk(availRing[Slot(q.posted, NUM) := h], usedRing, Added(q, h, r))
  {
    hide Slot, StageOk;
    var q', ring' := Added(q, h, r), availRing[Slot(q.posted, NUM) := h];
    forall k | q'.fetched <= k < q'.posted ensures AvailOk(ring', q', k) {
      if k < q.posted {
        assert AvailOk(availRing, q, k);
      }
    }
    forall k | q'.noted <= k < q'.completed ensures UsedOk(usedRing, q', k) {
      assert UsedOk(usedRing, q, k);
    }
  }

  lemma AddCounts(availIdx: nat, deviceIdx: nat, usedIdx: nat, q: Book, h: nat, r: Request)
    requires CountsOk(availIdx, deviceIdx, usedIdx, q) && h !in q.reqs && |q.reqs| <= 1
    ensures CountsOk((availIdx + 1) % WRAP, deviceIdx, usedIdx, Added(q, h, r))
  {
    NextSlot(q.posted, WRAP);
    assert |q.reqs[h := r]| == |q.reqs| + 1;
  }

  // ----- the device's steps

  function Fetched(q: Book, h: nat): Book {
    q.(stage := q.stage[h := Inside], inside := q.inside + {h}, fetched := q.fetched + 1)
  }

  function Finished(q: Book, h: nat): Book {
    q.(stage := q.stage[h := Completed(q.completed)], inside := q.inside - {h}, completed := q.completed + 1)
  }

  lemma FetchOk(availRing: seq<nat>, availIdx: nat, usedRing: seq<nat>, deviceIdx: nat, usedIdx: nat,
                info: seq<Info>, busy: map<int, bool>, q: Book, h: nat)
    requires QueueOk(availRing, availIdx, usedRing, deviceIdx, usedIdx, info, busy, q) && q.fetched < q.posted
    requires |availRing| == NUM && h == availRing[Slot(q.fetched, NUM)]
    ensures h in q.reqs && QueueOk(availRing, availIdx, usedRing, deviceIdx, usedIdx, info, busy, Fetched(q, h))
  {
    assert AvailOk(availRing, q, q.fetched);
    assert StageOk(availRing, usedRing, info, busy, q, h);
    FetchStages(availRing, usedRing, info, busy, q, h);
    RingsStay(availRing, usedRing, q, Fetched(q, h), h);
    assert |q.inside + {h}| == |q.inside| + 1;
  }

  lemma FetchStages(availRing: seq<nat>, usedRing: seq<nat>, info: seq<Info>, busy: map<int, bool>, q: Book, h: nat)
    requires StagesOk(availRing, usedRing, info, busy, q) && h in q.reqs && q.stage[h] == Posted(q.fetched)
    ensures StagesOk(availRing, usedRing, info, busy, Fetched(q, h))
  {
    hide Slot;
    var q' := Fetched(q, h);
    forall g | g in q'.reqs ensures StageOk(availRing, usedRing, info, busy, q', g) {
      assert StageOk(availRing, usedRing, info, busy, q, g) && StageOk(availRing, usedRing, info, busy, q, h);
    }
  }

  /** The rings stay as they are while only h's stage changes, and leaves the range of its ring. */
  lemma RingsStay(availRing: seq<nat>, usedRing: seq<nat>, q: Book, q': Book, h: nat)
    requires RingsOk(availRing, usedRing, q)
    requires q.fetched <= q'.fetched && q'.posted == q.posted && q.noted <= q'.noted && q'.completed == q.completed
    requires forall g :: g in q.stage && g != h ==> g in q'.stage && q'.stage[g] == q.stage[g]
    requires h in q.stage ==> match q.stage[h]
      case Posted(k) => k < q'.fetched
      case Completed(k) => k < q'.noted
      case _ => true
    ensures RingsOk(availRing, usedRing, q')
  {
    hide Slot;
    forall k | q'.fetched <= k < q'.posted ensures AvailOk(availRing, q', k) {
      assert AvailOk(availRing, q, k);
    }
    forall k | q'.noted <= k < q'.completed ensures UsedOk(usedRing, q', k) {
      assert UsedOk(usedRing, q, k);
    }
  }

  lemma CompleteOk(availRing: seq<nat>, availIdx: nat, usedRing: seq<nat>, deviceIdx: nat, usedIdx: nat,
                   info: seq<Info>, busy: map<int, bool>, q: Book, h: nat)
    requires QueueOk(availRing, availIdx, usedRing, deviceIdx, usedIdx, info, busy, q) && h in q.inside
    ensures h in q.reqs && h < NUM && |usedRing| == |info| == NUM && deviceIdx == q.completed % WRAP
    ensures QueueOk(availRing, availIdx, usedRing[Slot(q.completed, NUM) := h], (deviceIdx + 1) % WRAP, usedIdx,
                    info[h := info[h].(status := 0)], busy, Finished(q, h))
  {
    assert StageOk(availRing, usedRing, info, busy, q, h);
    forall k | q.noted <= k < q.completed ensures Slot(k, NUM) != Slot(q.completed, NUM) {
      Apart(k, q.completed, NUM);
    }
    CompleteStages(availRing, usedRing, info, busy, q, h);
    CompleteRings(availRing, usedRing, info, busy, q, h);
    CompleteCounts(availIdx, deviceIdx, usedIdx, q, h);
  }

  lemma CompleteCounts(availIdx: nat, deviceIdx: nat, usedIdx: nat, q: Book, h: nat)
    requires CountsOk(availIdx, deviceIdx, usedIdx, q) && h in q.inside
    ensures CountsOk(availIdx, (deviceIdx + 1) % WRAP, usedIdx, Finished(q, h))
  {
    NextSlot(q.completed, WRAP);
    assert q.inside == (q.inside - {h}) + {h};
  }

  lemma CompleteStages(availRing: seq<nat>, usedRing: seq<nat>, info: seq<Info>, busy: map<int, bool>, q: Book, h: nat)
    requires StagesOk(availRing, usedRing, info, busy, q) && h in q.inside && q.noted <= q.completed
    requires forall k :: q.noted <= k < q.completed ==> Slot(k, NUM) != Slot(q.completed, NUM)
    ensures h in q.reqs && h < NUM == |info|
    ensures StagesOk(availRing, usedRing[Slot(q.completed, NUM) := h], info[h := info[h].(status := 0)], busy,
      Finished(q, h))
  {
    hide Slot;
    var q', ring', info' := Finished(q, h), usedRing[Slot(q.completed, NUM) := h], info[h := info[h].(status := 0)];
    forall g | g in q'.reqs ensures StageOk(availRing, ring', info', busy, q', g) {
      assert StageOk(availRing, usedRing, info, busy, q, g) && StageOk(availRing, usedRing, info, busy, q, h);
    }
  }

  lemma CompleteRings(availRing: seq<nat>, usedRing: seq<nat>, info: seq<Info>, busy: map<int, bool>, q: Book, h: nat)
    requires StagesOk(availRing, usedRing, info, busy, q) && RingsOk(availRing, usedRing, q) && h in q.inside
    requires forall k :: q.noted <= k < q.completed ==> Slot(k, NUM) != Slot(q.completed, NUM)
    ensures RingsOk(availRing, usedRing[Slot(q.completed, NUM) := h], Finished(q, h))
  {
    hide Slot;
    assert StageOk(availRing, usedRing, info, busy, q, h);
    var q', ring' := Finished(q, h), usedRing[Slot(q.completed, NUM) := h];
    forall k | q'.fetched <= k < q'.posted ensures AvailOk(availRing, q', k) {
      assert AvailOk(availRing, q, k);
    }
    forall k | q'.noted <= k < q'.completed ensures UsedOk(ring', q', k) {
      if k < q.completed {
        assert UsedOk(usedRing, q, k);
      }
    }
  }

  lemma Decoded(desc: seq<Desc>, ops: seq<Op>, info: seq<Info>, free: seq<bool>, role: seq<Role>,
                reqs: map<nat, Request>, h: nat)
    requires DescOk(desc, ops, info, free, role, reqs, {}) && h in reqs
    ensures |desc| == |ops| == |info| == NUM
    ensures var r := reqs[h]; Decode(desc, ops, h) == Some((Op(r.write, r.sector), r.b, h, !r.write))
  {
    assert ChainOk(desc, ops, info, role, h, reqs[h]);
    DeviceSeesRequest(desc, ops, info, role, h, reqs[h]);
  }

  lemma InfoStatus(desc: seq<Desc>, ops: seq<Op>, info: seq<Info>, free: seq<bool>, role: seq<Role>,
                   reqs: map<nat, Request>, held: set<nat>, h: nat)
    requires DescOk(desc, ops, info, free, role, reqs, held) && h < NUM
    ensures DescOk(desc, ops, info[h := info[h].(status := 0)], free, role, reqs, held)
  {
    var info' := info[h := info[h].(status := 0)];
    forall g | g in reqs ensures ChainOk(desc, ops, info', role, g, reqs[g]) {
      assert ChainOk(desc, ops, info, role, g, reqs[g]);
    }
  }

  // ----- the interrupt handler's step

  function Noted(q: Book, h: nat): Book {
    q.(stage := q.stage[h := Seen], seen := q.seen + {h}, noted := q.noted + 1)
  }

  lemma NoteOk(availRing: seq<nat>, availIdx: nat, usedRing: seq<nat>, deviceIdx: nat, usedIdx: nat,
               info: seq<Info>, busy: map<int, bool>, q: Book)
    requires QueueOk(availRing, availIdx, usedRing, deviceIdx, usedIdx, info, busy, q) && q.noted < q.completed
    ensures |usedRing| == |info| == NUM && usedIdx == q.noted % WRAP
    ensures var h := usedRing[Slot(q.noted, NUM)];
      h in q.reqs && h < NUM && h in q.stage && q.stage[h] == Completed(q.noted) && h !in q.inside
        && info[h].status == 0
      && QueueOk(availRing, availIdx, usedRing, deviceIdx, (usedIdx + 1) % WRAP, info, busy[q.reqs[h].b := false],
        Noted(q, h))
  {
    var h := usedRing[Slot(q.noted, NUM)];
    assert UsedOk(usedRing, q, q.noted);
    assert StageOk(availRing, usedRing, info, busy, q, h);
    NoteStages(availRing, usedRing, info, busy, q, h);
    RingsStay(availRing, usedRing, q, Noted(q, h), h);
    NoteCounts(availIdx, deviceIdx, usedIdx, q, h);
  }

  lemma NoteCounts(availIdx: nat, deviceIdx: nat, usedIdx: nat, q: Book, h: nat)
    requires CountsOk(availIdx, deviceIdx, usedIdx, q) && q.noted < q.completed && h !in q.seen
    ensures CountsOk(availIdx, deviceIdx, (usedIdx + 1) % WRAP, Noted(q, h))
  {
    NextSlot(q.noted, WRAP);
    assert |q.seen + {h}| == |q.seen| + 1;
  }

  lemma NoteStages(availRing: seq<nat>, usedRing: seq<nat>, info: seq<Info>, busy: map<int, bool>, q: Book, h: nat)
    requires StagesOk(availRing, usedRing, info, busy, q) && h in q.reqs && q.stage[h] == Completed(q.noted)
    ensures StagesOk(availRing, usedRing, info, busy[q.reqs[h].b := false], Noted(q, h))
  {
    hide Slot;
    var q', busy' := Noted(q, h), busy[q.reqs[h].b := false];
    forall g | g in q'.reqs ensures StageOk(availRing, usedRing, info, busy', q', g) {
      assert StageOk(availRing, usedRing, info, busy, q, g) && StageOk(availRing, usedRing, info, busy, q, h);
    }
  }

  /** The 16-bit comparison in virtio_disk_intr says whether a completion is waiting. */
  lemma CountsTell(availRing: seq<nat>, availIdx: nat, usedRing: seq<nat>, deviceIdx: nat, usedIdx: nat,
                   info: seq<Info>, busy: map<int, bool>, q: Book)
    requires QueueOk(availRing, availIdx, usedRing, deviceIdx, usedIdx, info, busy, q)
    ensures q.noted <= q.completed && (usedIdx != deviceIdx <==> q.noted < q.completed) && q.stage.Keys == q.reqs.Keys
  {
    IndexTells(q.noted, q.completed);
  }

  // ----- while the handler runs, requests are only noted and finished

  ghost predicate Later(q0: Book, q: Book) {
    && q.reqs == q0.reqs && q.stage.Keys == q0.stage.Keys == q.reqs.Keys
    && q.inside <= q0.inside && q0.completed <= q.completed
    && |q.inside| + q.completed == |q0.inside| + q0.completed
    && (forall h :: h in q0.stage ==> LaterAt(q0, q, h))
  }

  predicate LaterAt(q0: Book, q: Book, h: nat)
    requires h in q0.stage && h in q.stage
  {
    var done := q.stage[h].Completed? || q.stage[h] == Seen;
    if h in q0.inside && h !in q.inside then done
    else q.stage[h] == q0.stage[h] || (q0.stage[h].Completed? && q.stage[h] == Seen)
  }

  lemma LaterStart(q: Book)
    requires q.stage.Keys == q.reqs.Keys
    ensures Later(q, q)
  {
  }

  lemma LaterFinished(q0: Book, q: Book, h: nat)
    requires Later(q0, q) && h in q.inside && h in q.stage
    ensures Later(q0, Finished(q, h))
  {
    forall g | g in q0.stage ensures LaterAt(q0, Finished(q, h), g) {
      assert LaterAt(q0, q, g);
    }
  }

  lemma LaterNoted(q0: Book, q: Book, h: nat)
    requires Later(q0, q) && h in q.stage && q.stage[h].Completed? && h !in q.inside
    ensures Later(q0, Noted(q, h))
  {
    forall g | g in q0.stage ensures LaterAt(q0, Noted(q, h), g) {
      assert LaterAt(q0, q, g);
    }
  }

  lemma LaterSum(q0: Book, q1: Book, q: Book)
    requires Later(q0, q1) && Later(q0, q)
    ensures |q.inside| + q.completed == |q1.inside| + q1.completed
  {
  }

  lemma LaterEnd(q0: Book, q: Book)
    requires Later(q0, q) && forall h :: h in q.reqs ==> h in q.stage && !q.stage[h].Completed?
    ensures q.reqs == q0.reqs && q.completed >= q0.completed && q.inside <= q0.inside
    ensures q.stage.Keys == q0.stage.Keys == q.reqs.Keys
    ensures forall h :: h in q.reqs ==>
      q.stage[h] == if q0.stage[h].Completed? || (h in q0.inside && h !in q.inside) then Seen else q0.stage[h]
  {
    forall h | h in q.reqs
      ensures q.stage[h] == if q0.stage[h].Completed? || (h in q0.inside && h !in q.inside) then Seen else q0.stage[h]
    {
      assert LaterAt(q0, q, h);
    }
  }

  lemma StageInside(availRing: seq<nat>, availIdx: nat, usedRing: seq<nat>, deviceIdx: nat, usedIdx: nat,
                    info: seq<Info>, busy: map<int, bool>, q: Book, h: nat)
    requires QueueOk(availRing, availIdx, usedRing, deviceIdx, usedIdx, info, busy, q) && h in q.inside
    ensures h in q.stage && q.stage[h] == Inside
  {
    assert StageOk(availRing, usedRing, info, busy, q, h);
  }

  lemma NoneLeft(availRing: seq<nat>, availIdx: nat, usedRing: seq<nat>, deviceIdx: nat, usedIdx: nat,
                 info: seq<Info>, busy: map<int, bool>, q: Book)
    requires QueueOk(availRing, availIdx, usedRing, deviceIdx, usedIdx, info, busy, q) && q.noted == q.completed
    ensures forall h :: h in q.reqs ==> h in q.stage && !q.stage[h].Completed?
  {
    forall h | h in q.reqs ensures h in q.stage && !q.stage[h].Completed? {
      assert StageOk(availRing, usedRing, info, busy, q, h);
    }
  }

  lemma InfoOf(desc: seq<Desc>, ops: seq<Op>, info: seq<Info>, free: seq<bool>, role: seq<Role>,
               reqs: map<nat, Request>, h: nat)
    requires DescOk(desc, ops, info, free, role, reqs, {}) && h in reqs
    ensures h < NUM == |info| && info[h].b == Some(reqs[h].b)
  {
    assert ChainOk(desc, ops, info, role, h, reqs[h]);
  }

  // ----- freeing a finished request

  function Dropped(q: Book, h: nat): Book {
    q.(reqs := q.reqs - {h}, stage := q.stage - {h}, seen := q.seen - {h})
  }

  function Unroled(role: seq<Role>, h: nat, r: Request): (t: seq<Role>)
    requires h < |role| && r.d1 < |role| && r.d2 < |role|
    ensures |t| == |role|
  {
    role[h := Held][r.d1 := Held][r.d2 := Held]
  }

  lemma DropChain(desc: seq<Desc>, ops: seq<Op>, info: seq<Info>, free: seq<bool>, role: seq<Role>,
                  reqs: map<nat, Request>, h: nat)
    requires DescOk(desc, ops, info, free, role, reqs, {}) && h in reqs
    ensures h < NUM == |info| == |role| && reqs[h].d1 < NUM && reqs[h].d2 < NUM && |desc| == |ops| == NUM
    ensures ChainOk(desc, ops, info, role, h, reqs[h])
    ensures var r := reqs[h];
      DescOk(desc, ops, info[h := info[h].(b := None)], free, Unroled(role, h, r), reqs - {h}, {h, r.d1, r.d2})
  {
    assert ChainOk(desc, ops, info, role, h, reqs[h]);
    DropRoles(desc, ops, info, free, role, reqs, h);
    DropOthers(desc, ops, info, free, role, reqs, h);
    DropCounted(free, reqs, h, reqs[h]);
    hide Counted, RolesOk, ChainsOk, ChainOk, HeldAre;
  }

  lemma DropCounted(free: seq<bool>, reqs: map<nat, Request>, h: nat, r: Request)
    requires Counted(free, {}, reqs) && h in reqs && h != r.d1 && h != r.d2 && r.d1 != r.d2
    ensures Counted(free, {h, r.d1, r.d2}, reqs - {h})
  {
    assert |{h, r.d1, r.d2}| == 3;
    assert reqs == (reqs - {h})[h := reqs[h]];
    assert |reqs| == |reqs - {h}| + 1;
  }

  lemma DropOthers(desc: seq<Desc>, ops: seq<Op>, info: seq<Info>, free: seq<bool>, role: seq<Role>,
                   reqs: map<nat, Request>, h: nat)
    requires DescOk(desc, ops, info, free, role, reqs, {}) && h in reqs && ChainOk(desc, ops, info, role, h, reqs[h])
    ensures var r := reqs[h]; var role' := Unroled(role, h, r); var info' := info[h := info[h].(b := None)];
      ChainsOk(desc, ops, info', role', reqs - {h})
  {
    var r := reqs[h];
    var info', role' := info[h := info[h].(b := None)], Unroled(role, h, r);
    forall g | g in reqs - {h} ensures ChainOk(desc, ops, info', role', g, (reqs - {h})[g]) {
      assert ChainOk(desc, ops, info, role, g, reqs[g]);
    }
  }

  lemma ChainLinks(desc: seq<Desc>, ops: seq<Op>, info: seq<Info>, role: seq<Role>, h: nat, r: Request)
    requires |desc| == |ops| == |info| == |role| == NUM && ChainOk(desc, ops, info, role, h, r)
    ensures h < NUM && r.d1 < NUM && r.d2 < NUM && h != r.d1 && h != r.d2 && r.d1 != r.d2
    ensures HasNext(desc[h]) && desc[h].next == r.d1 && HasNext(desc[r.d1]) && desc[r.d1].next == r.d2
      && !HasNext(desc[r.d2])
  {
  }

  lemma DropRoles(desc: seq<Desc>, ops: seq<Op>, info: seq<Info>, free: seq<bool>, role: seq<Role>,
                  reqs: map<nat, Request>, h: nat)
    requires DescOk(desc, ops, info, free, role, reqs, {}) && h in reqs && ChainOk(desc, ops, info, role, h, reqs[h])
    ensures var r := reqs[h]; var role' := Unroled(role, h, r);
      && RolesOk(free, role', reqs - {h})
      && HeldAre(role', {h, r.d1, r.d2})
  {
    var r := reqs[h];
    var role', reqs' := Unroled(role, h, r), reqs - {h};
    forall i | 0 <= i < NUM ensures RoleOk(free, role', reqs', i) {
      assert RoleOk(free, role, reqs, i) && RoleOk(free, role, reqs, h) && RoleOk(free, role, reqs, r.d1)
        && RoleOk(free, role, reqs, r.d2);
    }
    var none: set<nat> := {};
    assert forall i: nat :: i in none <==> i < NUM && role[i] == Held;
  }

  lemma DropFromQueue(availRing: seq<nat>, availIdx: nat, usedRing: seq<nat>, deviceIdx: nat, usedIdx: nat,
                      info: seq<Info>, busy: map<int, bool>, q: Book, h: nat)
    requires QueueOk(availRing, availIdx, usedRing, deviceIdx, usedIdx, info, busy, q) && h in q.reqs
    requires q.reqs[h].b in busy && !busy[q.reqs[h].b]
    ensures h < NUM == |info|
    ensures QueueOk(availRing, availIdx, usedRing, deviceIdx, usedIdx, info[h := info[h].(b := None)], busy,
      Dropped(q, h))
  {
    hide StagesOk, RingsOk, CountsOk, StageOk;
    SeenWhenIdle(availRing, usedRing, info, busy, q, h);
    DropStages(availRing, usedRing, info, busy, q, h);
    RingsStay(availRing, usedRing, q, Dropped(q, h), h);
    DropCounts(availIdx, deviceIdx, usedIdx, q, h);
  }

  lemma SeenWhenIdle(availRing: seq<nat>, usedRing: seq<nat>, info: seq<Info>, busy: map<int, bool>, q: Book, h: nat)
    requires StagesOk(availRing, usedRing, info, busy, q) && h in q.reqs && q.reqs[h].b in busy && !busy[q.reqs[h].b]
    ensures h in q.stage && q.stage[h] == Seen && h in q.seen && h < NUM == |info|
  {
    assert StageOk(availRing, usedRing, info, busy, q, h);
  }

  lemma DropCounts(availIdx: nat, deviceIdx: nat, usedIdx: nat, q: Book, h: nat)
    requires CountsOk(availIdx, deviceIdx, usedIdx, q) && h in q.seen && h in q.reqs
    ensures CountsOk(availIdx, deviceIdx, usedIdx, Dropped(q, h))
  {
    assert q.seen == (q.seen - {h}) + {h};
    assert q.reqs == (q.reqs - {h})[h := q.reqs[h]];
    assert |q.reqs| == |q.reqs - {h}| + 1;
  }

  lemma DropStages(availRing: seq<nat>, usedRing: seq<nat>, info: seq<Info>, busy: map<int, bool>, q: Book, h: nat)
    requires StagesOk(availRing, usedRing, info, busy, q) && h in q.reqs && q.stage[h] == Seen
    ensures h < NUM == |info| && StagesOk(availRing, usedRing, info[h := info[h].(b := None)], busy, Dropped(q, h))
  {
    hide Slot;
    var q', info' := Dropped(q, h), info[h := info[h].(b := None)];
    forall g | g in q'.reqs ensures StageOk(availRing, usedRing, info', busy, q', g) {
      assert StageOk(availRing, usedRing, info, busy, q, g);
    }
  }

  class Disk {
    var desc: seq<Desc>
    var free: seq<bool>
    var ops: seq<Op>
    var info: seq<Info>
    var availRing: seq<nat>
    var availIdx: nat            // avail->idx, 16 bits
    var usedRing: seq<nat>
    var deviceIdx: nat           // used->idx, 16 bits, written by the device
    var usedIdx: nat             // used_idx, 16 bits
    var busy: map<int, bool>     // b->disk
    var taken: set<nat>          // the device's own: requests it has taken and not finished
    ghost var role: seq<Role>
    ghost var q: Book

    ghost predicate ValidWith(held: set<nat>)
      reads this
    {
      && DescOk(desc, ops, info, free, role, q.reqs, held)
      && QueueOk(availRing, availIdx, usedRing, deviceIdx, usedIdx, info, busy, q)
      && taken == q.inside
    }

    ghost predicate Valid()
      reads this
    {
      ValidWith({})
    }

    /** The state virtio_disk_init leaves: every descriptor free, both rings empty. */
    constructor ()
      ensures Valid() && q.reqs == map[] && |FreeSet(free)| == NUM
    {
      desc, free := seq(NUM, _ => Desc(Null, 0, 0, 0)), seq(NUM, _ => true);
      ops, info := seq(NUM, _ => Op(false, 0)), seq(NUM, _ => Info(None, 0));
      availRing, usedRing, busy := seq(NUM, _ => 0), seq(NUM, _ => 0), map[];
      availIdx, deviceIdx, usedIdx, taken := 0, 0, 0, {};
      role, q := seq(NUM, _ => Unused), Book(map[], map[], {}, {}, 0, 0, 0, 0);
      new;
      AllFree(free);
      assert forall i :: 0 <= i < NUM ==> RoleOk(free, role, q.reqs, i);
    }

    /** The first free descriptor, or -1. */
    method AllocDesc(ghost held: set<nat>) returns (i: int)
      requires ValidWith(held)
      modifies `free, `role
      ensures i == -1 ==> unchanged(this) && |FreeSet(free)| == 0
      ensures i != -1 ==> 0 <= i < NUM && i !in held && ValidWith(held + {i})
      ensures i != -1 ==> i < |old(free)| && old(free)[i] && forall j :: 0 <= j < i ==> !old(free)[j]
      ensures i != -1 ==> i in old(FreeSet(free)) && FreeSet(free) == old(FreeSet(free)) - {i}
    {
      hide QueueOk, RoleOk, ChainOk, Counted, FreeSet;
      i := 0;
      while i < NUM
        invariant 0 <= i <= NUM
        invariant forall j :: 0 <= j < i ==> !free[j]
        invariant unchanged(this)
      {
        if free[i] {
          TakeDesc(desc, ops, info, free, role, q.reqs, held, i);
          FreeSetTake(free, i);
          free := free[i := false];
          role := role[i := Held];
          return;
        }
        i := i + 1;
      }
      NoFree(desc, ops, info, free, role, q.reqs, held);
      i := -1;
    }

    /** Gives a held descriptor back; the panics cannot happen. */
    method FreeDesc(i: nat, ghost held: set<nat>)
      requires ValidWith(held) && i in held
      modifies `desc, `free, `role
      ensures ValidWith(held - {i})
      ensures desc == old(desc)[i := Desc(Null, 0, 0, 0)] && FreeSet(free) == old(FreeSet(free)) + {i}
    {
      hide DescOk, QueueOk, FreeSet;
      GiveDesc(desc, ops, info, free, role, q.reqs, held, i);
      if i >= NUM {
        assert false;   // panic: free_desc 1
      }
      if free[i] {
        assert false;   // panic: free_desc 2
      }
      desc := desc[i := Desc(Null, 0, 0, 0)];
      FreeSetGive(free, i);
      free := free[i := true];
      role := role[i := Unused];
    }

    /** alloc3_desc's loop that undoes a partial allocation. */
    method GiveBack(idx: seq<nat>, ghost held0: set<nat>)
      requires ValidWith(held0) && held0 == Elems(idx) && Distinct(idx)
      modifies `desc, `free, `role
      ensures Valid() && FreeSet(free) == old(FreeSet(free)) + held0
    {
      hide QueueOk, DescOk, Distinct, Elems, FreeSet;
      ghost var held := held0;
      var j := 0;
      assert idx[0..] == idx;
      while j < |idx|
        invariant 0 <= j <= |idx| && ValidWith(held) && held == Elems(idx[j..])
        invariant held <= held0 && FreeSet(free) == old(FreeSet(free)) + (held0 - held)
      {
        ElemsDrop(idx, j);
        FreeDesc(idx[j], held);
        held := held - {idx[j]};
        j := j + 1;
      }
      ElemsNone(idx[j..]);
    }

    /** Three descriptors, or none: then those already taken have been given back. */
    method Alloc3() returns (ok: bool, idx: seq<nat>)
      requires Valid()
      modifies `desc, `free, `role
      ensures ok ==>
        |idx| == 3 && idx[0] != idx[1] && idx[0] != idx[2] && idx[1] != idx[2] && ValidWith({idx[0], idx[1], idx[2]})
      ensures ok ==> FreeSet(free) == old(FreeSet(free)) - {idx[0], idx[1], idx[2]}
      ensures !ok ==> Valid() && FreeSet(free) == old(FreeSet(free))
      ensures ok <==> old(|FreeSet(free)|) >= 3
    {
      hide QueueOk, DescOk, Distinct, Elems, FreeSet;
      FreeCount(desc, ops, info, free, role, q.reqs, {});
      ghost var all := FreeSet(free);
      idx := [];
      ghost var held: set<nat> := {};
      ElemsNone(idx);
      DistinctNone();
      var i := 0;
      while i < 3
        invariant 0 <= i <= 3 && |idx| == i && ValidWith(held) && |held| == i && q == old(q)
        invariant held == Elems(idx) && Distinct(idx)
        invariant held <= all && FreeSet(free) == all - held
      {
        var d := AllocDesc(held);
        if d < 0 {
          FreeCount(desc, ops, info, free, role, q.reqs, held);
          TookBack(all, all - held, held);
          GiveBack(idx, held);
          return false, [];
        }
        TookOne(all, all - held, held, d);
        ElemsPush(idx, d);
        idx := idx + [d];
        held := held + {d};
        i := i + 1;
      }
      FreeCount(desc, ops, info, free, role, q.reqs, held);
      ElemsThree(idx);
      ok := true;
    }

    /** Fills in the command header, the three descriptors and the driver's own record. */
    method Format(h: nat, d1: nat, d2: nat, b: int, sector: nat, write: bool)
      requires |desc| == |ops| == |info| == NUM && h < NUM && d1 < NUM && d2 < NUM
      modifies `desc, `ops, `info, `busy
      ensures desc == Chained(old(desc), h, Request(d1, d2, b, write, sector))
      ensures ops == old(ops)[h := Op(write, sector)]
      ensures info == old(info)[h := Info(Some(b), 255)]
      ensures busy == old(busy)[b := true]
    {
      ops := ops[h := Op(write, sector)];
      desc := desc[h := Desc(Header(h), 16, NEXT, d1)];
      desc := desc[d1 := Desc(Data(b), BSIZE, (if write then 0 else WRITE) + NEXT, d2)];
      info := info[h := info[h].(status := 255)];
      desc := desc[d2 := Desc(Status(h), 1, WRITE, 0)];
      busy := busy[b := true];
      info := info[h := info[h].(b := Some(b))];
    }

    /** Makes a chain of three held descriptors and posts it. */
    method Post(h: nat, d1: nat, d2: nat, b: int, sector: nat, write: bool)
      requires ValidWith({h, d1, d2}) && h != d1 && h != d2 && d1 != d2
      requires forall g :: g in q.reqs ==> q.reqs[g].b != b
      modifies this
      ensures Valid()
      ensures h !in old(q).reqs && q == Added(old(q), h, Request(d1, d2, b, write, sector))
        && busy == old(busy)[b := true]
      ensures free == old(free)
    {
      hide DescOk, QueueOk, Chained, Roles, Slot, Added;
      ghost var r := Request(d1, d2, b, write, sector);
      AddChain(desc, ops, info, free, role, q.reqs, h, r);
      AddToQueue(availRing, availIdx, usedRing, deviceIdx, usedIdx, info, busy, q, h, r);
      Format(h, d1, d2, b, sector, write);
      SlotOfIndex(q.posted);
      availRing := availRing[Slot(availIdx, NUM) := h];
      availIdx := (availIdx + 1) % WRAP;
      role := Roles(role, h, r);
      q := Added(q, h, r);
    }

    /** The first part of virtio_disk_rw: three descriptors are filled in and posted. Not ok means that the
        caller sleeps until some are free. */
    method Submit(b: int, blockno: nat, write: bool) returns (ok: bool, h: nat, ghost r: Request)
      requires Valid() && forall g :: g in q.reqs ==> q.reqs[g].b != b
      modifies this
      ensures Valid()
      ensures ok <==> old(|FreeSet(free)|) >= 3
      ensures !ok ==> q == old(q) && busy == old(busy) && FreeSet(free) == old(FreeSet(free))
      ensures ok ==> r.b == b && r.write == write && r.sector == blockno * 2 % UINT
      ensures ok ==> h !in old(q).reqs && q == Added(old(q), h, r) && busy == old(busy)[b := true]
      ensures ok ==> FreeSet(free) == old(FreeSet(free)) - {h, r.d1, r.d2}
    {
      hide DescOk, QueueOk, Elems, Distinct, FreeSet;
      var idx;
      ok, idx := Alloc3();
      if ok {
        h := idx[0];
        var sector := blockno * (BSIZE / 512) % UINT;   // computed in 32 bits
        r := Request(idx[1], idx[2], b, write, sector);
        Post(h, idx[1], idx[2], b, sector, write);
      } else {
        h, r := 0, Request(0, 0, b, write, 0);
      }
    }

    /** The device takes the next posted request, h. */
    method DeviceFetch(h: nat)
      requires Valid() && q.fetched < q.posted && |availRing| == NUM && h == availRing[Slot(q.fetched, NUM)]
      modifies `taken, `q
      ensures Valid() && h in old(q).reqs && q == Fetched(old(q), h)
    {
      hide DescOk, Slot;
      FetchOk(availRing, availIdx, usedRing, deviceIdx, usedIdx, info, busy, q, h);
      taken := taken + {h};
      q := Fetched(q, h);
    }

    /** The device finishes any request it has taken: it follows the chain, and finds the request. */
    method DeviceComplete(h: nat) returns (op: Op, b: int, toMemory: bool)
      requires Valid() && h in q.inside
      modifies `usedRing, `deviceIdx, `info, `taken, `q
      ensures Valid() && h in old(q).reqs && q == Finished(old(q), h)
      ensures op == Op(q.reqs[h].write, q.reqs[h].sector) && b == q.reqs[h].b && toMemory == !q.reqs[h].write
    {
      hide DescOk, QueueOk, Slot, Decode;
      CompleteOk(availRing, availIdx, usedRing, deviceIdx, usedIdx, info, busy, q, h);
      Decoded(desc, ops, info, free, role, q.reqs, h);
      var found := Decode(desc, ops, h).value;
      op, b, toMemory := found.0, found.1, found.3;
      InfoStatus(desc, ops, info, free, role, q.reqs, {}, found.2);
      info := info[found.2 := info[found.2].(status := 0)];
      SlotOfIndex(q.completed);
      usedRing := usedRing[Slot(deviceIdx, NUM) := h];
      deviceIdx := (deviceIdx + 1) % WRAP;
      taken := taken - {h};
      q := Finished(q, h);
    }

    /** The device finishes those of hs that it has taken. */
    method DeviceWorks(hs: seq<nat>, ghost q0: Book)
      requires Valid() && Later(q0, q)
      modifies `usedRing, `deviceIdx, `info, `taken, `q
      ensures Valid() && Later(q0, q) && q.noted == old(q).noted
    {
      hide DescOk, QueueOk, Later;
      var i := 0;
      while i < |hs|
        invariant 0 <= i <= |hs| && Valid() && Later(q0, q) && q.noted == old(q).noted
      {
        if hs[i] in taken {
          StageInside(availRing, availIdx, usedRing, deviceIdx, usedIdx, info, busy, q, hs[i]);
          LaterFinished(q0, q, hs[i]);
          var op, b, toMemory := DeviceComplete(hs[i]);
        }
        i := i + 1;
      }
    }

    /** virtio_disk_intr: every completion in the used ring is noted and its caller released, also those that
        the device adds meanwhile: it tries to finish the requests works[k] during the k-th turn. */
    method Intr(works: seq<seq<nat>>)
      requires Valid()
      modifies `busy, `usedRing, `deviceIdx, `usedIdx, `info, `taken, `q
      ensures Valid() && q.reqs == old(q).reqs && q.noted == q.completed >= old(q).completed
        && q.inside <= old(q).inside
      ensures forall h :: h in q.reqs ==>
        q.stage[h] ==
          if old(q).stage[h].Completed? || (h in old(q).inside && h !in q.inside) then Seen else old(q).stage[h]
    {
      hide DescOk, QueueOk, Slot, Later;
      ghost var q0 := q;
      CountsTell(availRing, availIdx, usedRing, deviceIdx, usedIdx, info, busy, q);
      LaterStart(q);
      var k := 0;
      while usedIdx != deviceIdx
        invariant Valid() && Later(q0, q) && q.noted <= q.completed && k >= 0
        invariant usedIdx != deviceIdx <==> q.noted < q.completed
        decreases |q.inside| + q.completed - q.noted
      {
        SlotOfIndex(q.noted);
        NoteOk(availRing, availIdx, usedRing, deviceIdx, usedIdx, info, busy, q);
        var id := usedRing[Slot(usedIdx, NUM)];
        InfoOf(desc, ops, info, free, role, q.reqs, id);
        if info[id].status != 0 {
          assert false;   // panic: virtio_disk_intr status
        }
        var b := info[id].b.value;
        busy := busy[b := false];
        usedIdx := (usedIdx + 1) % WRAP;
        LaterNoted(q0, q, id);
        q := Noted(q, id);
        ghost var q1 := q;
        DeviceWorks(if k < |works| then works[k] else [], q0);
        LaterSum(q0, q1, q);
        k := k + 1;
        CountsTell(availRing, availIdx, usedRing, deviceIdx, usedIdx, info, busy, q);
      }
      NoneLeft(availRing, availIdx, usedRing, deviceIdx, usedIdx, info, busy, q);
      LaterEnd(q0, q);
    }

    /** Frees exactly the three descriptors of a chain. */
    method FreeChain(h: nat, ghost d1: nat, ghost d2: nat)
      requires ValidWith({h, d1, d2}) && h < NUM && d1 < NUM && d2 < NUM && |desc| == NUM && h != d1 && h != d2
        && d1 != d2
      requires HasNext(desc[h]) && desc[h].next == d1 && HasNext(desc[d1]) && desc[d1].next == d2 && !HasNext(desc[d2])
      modifies `desc, `free, `role
      ensures Valid() && FreeSet(free) == old(FreeSet(free)) + {h, d1, d2}
    {
      hide DescOk, QueueOk, FreeSet;
      ghost var held: set<nat> := {h, d1, d2};
      var i := h;
      while true
        invariant ValidWith(held) && |desc| == NUM && i < NUM
        invariant FreeSet(free) == old(FreeSet(free)) + ({h, d1, d2} - held)
        invariant (i == h && held == {h, d1, d2}) || (i == d1 && held == {d1, d2}) || (i == d2 && held == {d2})
        invariant i != d2 ==> HasNext(desc[d1]) && desc[d1].next == d2
        invariant i == h ==> HasNext(desc[h]) && desc[h].next == d1
        invariant !HasNext(desc[d2])
        decreases if i == h then 2 else if i == d1 then 1 else 0
      {
        var flag, nxt := HasNext(desc[i]), desc[i].next;
        FreeDesc(i, held);
        held := held - {i};
        if flag {
          i := nxt;
        } else {
          break;
        }
      }
      assert held == {};
    }

    /** The last part of virtio_disk_rw: the caller has seen that its request is done. */
    method Finish(h: nat, b: int)
      requires Valid() && h in q.reqs && q.reqs[h].b == b && b in busy && !busy[b]
      modifies `desc, `free, `role, `info, `q
      ensures Valid() && q == Dropped(old(q), h)
      ensures var r := old(q).reqs[h]; FreeSet(free) == old(FreeSet(free)) + {h, r.d1, r.d2}
    {
      hide DescOk, QueueOk, ChainOk, FreeSet;
      ghost var r := q.reqs[h];
      DropChain(desc, ops, info, free, role, q.reqs, h);
      DropFromQueue(availRing, availIdx, usedRing, deviceIdx, usedIdx, info, busy, q, h);
      info := info[h := info[h].(b := None)];
      role := Unroled(role, h, r);
      ChainLinks(desc, ops, old(info), old(role), h, r);
      q := Dropped(q, h);
      FreeChain(h, r.d1, r.d2);
    }
  }
}
