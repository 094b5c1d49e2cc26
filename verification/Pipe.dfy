/** kernel/pipe.c. Readers and writers give up the lock only when they sleep, so each method is what one of
    them does between taking the lock and sleeping or returning; calls in any order are an interleaving. */
module Pipe {
  import opened Basics
  import opened Ring

  const PIPESIZE: nat := 512

  /** How a turn ends: asleep on the other side's counter, or returning a value. */
  datatype Outcome = Asleep | Returns(r: int)

  /** A 32-bit counter and the true count agree on the slot. */
  lemma SlotOfCount(k: nat)
    ensures Slot(k % UINT, PIPESIZE) == Slot(k, PIPESIZE)
  {
    WrapKeepsSlot(k, PIPESIZE, 8388608, UINT);
  }

  /** With at most PIPESIZE bytes in between, the 32-bit tests for empty and full mean what they say, even
      when the counters have wrapped. */
  lemma TestsTell(read: nat, written: nat)
    requires read <= written <= read + PIPESIZE
    ensures read % UINT == written % UINT <==> read == written
    ensures written % UINT == (read % UINT + PIPESIZE) % UINT <==> written == read + PIPESIZE
  {
  }

  /** Byte j of those accepted is still in its slot. */
  predicate Holds(data: array<int>, accepted: seq<int>, j: nat)
    requires data.Length == PIPESIZE && j < |accepted|
    reads data
  {
    data[Slot(j, PIPESIZE)] == accepted[j]
  }

  class PipeBuffer {
    const data: array<int>
    var nread: nat
    var nwrite: nat
    var readopen: bool
    var writeopen: bool
    ghost var accepted: seq<int>   // every byte ever put in
    ghost var consumed: nat        // how many of them have been taken out

    ghost predicate Valid()
      reads this, data
    {
      && data.Length == PIPESIZE
      && consumed <= |accepted| <= consumed + PIPESIZE
      && nread == consumed % UINT && nwrite == |accepted| % UINT
      && (forall j :: consumed <= j < |accepted| ==> Holds(data, accepted, j))
    }

    constructor ()
      ensures Valid() && fresh(data) && accepted == [] && consumed == 0 && readopen && writeopen
    {
      data := new int[PIPESIZE];
      nread, nwrite, readopen, writeopen := 0, 0, true, true;
      accepted, consumed := [], 0;
    }

    /** One end is closed; with both closed the pipe is to be freed. */
    method Close(writable: bool) returns (free: bool)
      requires Valid()
      modifies `readopen, `writeopen
      ensures Valid()
      ensures writeopen == (old(writeopen) && !writable) && readopen == (old(readopen) && writable)
      ensures free <==> !readopen && !writeopen
    {
      if writable {
        writeopen := false;
      } else {
        readopen := false;
      }
      free := !readopen && !writeopen;
    }

    /** pi->data[pi->nwrite++ % PIPESIZE] = ch, when there is room. */
    method Put(ch: int)
      requires Valid() && |accepted| < consumed + PIPESIZE
      modifies data, `nwrite, `accepted
      ensures Valid() && accepted == old(accepted) + [ch]
    {
      hide Slot;
      ghost var k := |accepted|;
      SlotOfCount(k);
      NextSlot(k, UINT);
      forall l | consumed <= l < k ensures Slot(l, PIPESIZE) != Slot(k, PIPESIZE) {
        Apart(l, k, PIPESIZE);
      }
      data[Slot(nwrite, PIPESIZE)] := ch;
      nwrite := (nwrite + 1) % UINT;
      accepted := accepted + [ch];
      forall l | consumed <= l < |accepted| ensures Holds(data, accepted, l) {
        assert l < k ==> old(Holds(data, accepted, l));
      }
    }

    /** pipewrite from its i-th byte on. `good` bytes of src can be copied in. The bytes src[i..j] are
        accepted, in order; asleep means the pipe is full. */
    method WriteTurn(src: seq<int>, i: nat, n: int, good: nat, killed: bool) returns (j: nat, out: Outcome)
      requires Valid() && i <= good <= |src| && n <= |src| && (n < 0 || i <= n)
      modifies this, data
      ensures Valid() && consumed == old(consumed) && readopen == old(readopen) && writeopen == old(writeopen)
      ensures i <= j <= good && accepted == old(accepted) + src[i..j]
      ensures out == Asleep ==> j < n && |accepted| == consumed + PIPESIZE
      ensures out.Returns? ==> out.r == if i < n && (!readopen || killed) then -1 else j
      ensures out.Returns? && out.r == j < n ==> j == good
    {
      hide Holds;
      j := i;
      while j < n
        invariant i <= j <= good && (j > i ==> j <= n)
        invariant Valid() && consumed == old(consumed) && readopen == old(readopen) && writeopen == old(writeopen)
        invariant accepted == old(accepted) + src[i..j]
        invariant j > i ==> readopen && !killed
      {
        if !readopen || killed {
          return j, Returns(-1);
        }
        TestsTell(consumed, |accepted|);
        if nwrite == (nread + PIPESIZE) % UINT {
          return j, Asleep;
        }
        if j == good {
          break;      // copyin failed
        }
        Put(src[j]);
        assert src[i..j] + [src[j]] == src[i..j + 1];
        j := j + 1;
      }
      out := Returns(j);
    }

    /** piperead: what it takes out are the oldest bytes, in order. Asleep means the pipe is empty and a
        writer may still come. `good` is how many bytes can be copied out. */
    method ReadTurn(n: int, good: nat, killed: bool) returns (got: seq<int>, out: Outcome)
      requires Valid()
      modifies `nread, `consumed
      ensures Valid()
      ensures old(consumed) <= consumed <= |accepted| && got == accepted[old(consumed)..consumed]
      ensures out == Asleep ==> got == [] && consumed == |accepted| && writeopen && !killed
      ensures out.Returns? && old(consumed) < |accepted| && n > 0 ==> out.r == if good == 0 then -1 else |got|
      ensures out.Returns? && out.r == -1 ==> got == []
      ensures out.Returns? && out.r != -1 ==> out.r == |got|
      ensures out.Returns? && out.r != -1 && |got| < n ==> consumed == |accepted| || |got| == good
    {
      got := [];
      hide Slot;
      TestsTell(consumed, |accepted|);
      if nread == nwrite && writeopen {
        if killed {
          return [], Returns(-1);
        }
        return [], Asleep;
      }
      var i := 0;
      while i < n
        invariant 0 <= i <= good && |got| == i && (i > 0 ==> i <= n)
        invariant Valid()
        invariant old(consumed) <= consumed <= |accepted| && got == accepted[old(consumed)..consumed]
      {
        TestsTell(consumed, |accepted|);
        if nread == nwrite {
          break;
        }
        SlotOfCount(consumed);
        assert Holds(data, accepted, consumed);
        var ch := data[Slot(nread, PIPESIZE)];
        if i == good {
          // copyout failed
          return got, Returns(if i == 0 then -1 else i);
        }
        NextSlot(consumed, UINT);
        got := got + [ch];
        nread := (nread + 1) % UINT;
        consumed := consumed + 1;
        i := i + 1;
      }
      out := Returns(i);
    }
  }
}
