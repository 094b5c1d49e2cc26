/** The log of kernel/paniclog.c: log_add into a ring of LOG_SIZE entries, log_flush newest first. */
module PanicLog {
  import opened Basics
  import opened Ring
  import opened Format

  const LOG_SIZE: nat := 64
  const LOG_MSG_MAX: nat := 128
  const LOG_FILE_MAX: nat := 32

  datatype Entry = Entry(ticks: nat, level: int, file: string, line: int, msg: string)

  // ----- the file name of an entry

  predicate IsSlash(c: char) { c == '/' || c == '\\' }

  /** name is what follows the last slash of path. */
  predicate LastPart(path: string, name: string) {
    && |name| <= |path| && path[|path| - |name|..] == name
    && (forall i :: 0 <= i < |name| ==> !IsSlash(name[i]))
    && (|name| < |path| ==> IsSlash(path[|path| - |name| - 1]))
  }

  lemma LastPartUnique(path: string, a: string, b: string)
    requires LastPart(path, a) && LastPart(path, b)
    ensures a == b
  {
    if |a| < |b| {
      SlashInside(path, a, b);
    } else if |b| < |a| {
      SlashInside(path, b, a);
    }
  }

  /** A longer end of the path has the slash before the shorter one inside it. */
  lemma SlashInside(path: string, a: string, b: string)
    requires |a| < |b| <= |path| && path[|path| - |b|..] == b
    ensures b[|b| - |a| - 1] == path[|path| - |a| - 1]
  {
  }

  method Basename(path: string) returns (name: string)
    ensures LastPart(path, name)
  {
    var base, p := 0, 0;
    while p < |path|
      invariant 0 <= base <= p <= |path|
      invariant base > 0 ==> IsSlash(path[base - 1])
      invariant forall i :: base <= i < p ==> !IsSlash(path[i])
    {
      if IsSlash(path[p]) {
        base := p + 1;
      }
      p := p + 1;
    }
    name := path[base..];
  }

  /** safestrcpy into an array of n characters: as much as fits before the NUL. */
  function Truncated(s: string, n: nat): (r: string)
    requires n > 0
    ensures r == s[..Min(|s|, n - 1)] && |r| < n
  {
    s[..Min(|s|, n - 1)]
  }

  // ----- the ring

  /** The entry that log_add makes of a call. */
  function EntryOf(ticks: nat, level: int, file: string, line: int, text: string): Entry {
    Entry(ticks, level, Truncated(file, LOG_FILE_MAX), line, Truncated(text, LOG_MSG_MAX))
  }

  /** The newest `count` of all entries, newest first. */
  function Newest(all: seq<Entry>, count: nat): (r: seq<Entry>)
    requires count <= |all|
    ensures |r| == count && forall i :: 0 <= i < count ==> r[i] == all[|all| - 1 - i]
  {
    seq(count, i requires 0 <= i < count => all[|all| - 1 - i])
  }

  class LogBuffer {
    const entries: array<Entry>
    var head: nat
    var count: nat
    ghost var all: seq<Entry>   // every entry ever added

    ghost predicate Valid()
      reads this, entries
    {
      && entries.Length == LOG_SIZE
      && head == Slot(|all|, LOG_SIZE) && count == Min(|all|, LOG_SIZE)
      && (forall k :: |all| - count <= k < |all| ==> Kept(entries, all, k))
    }

    constructor ()
      ensures Valid() && fresh(entries) && all == []
    {
      entries := new Entry[LOG_SIZE](_ => Entry(0, 0, "", 0, ""));
      head, count, all := 0, 0, [];
    }

    /** log_add: the new entry replaces the oldest once the ring is full. */
    method Add(ticks: nat, level: int, file: string, line: int, fmt: string, args: seq<nat>, strings: nat -> string)
      requires Valid() && NoNul(fmt) && Needed(Parse(fmt)) <= |args| && forall k :: 0 <= k < |args| ==> args[k] < W64
      modifies this, entries
      ensures Valid()
      ensures |all| == |old(all)| + 1 && all[..|old(all)|] == old(all)
      ensures exists name ::
        LastPart(file, name) && all[|old(all)|] == EntryOf(ticks, level, name, line, Output(Parse(fmt), args, strings))
    {
      hide Slot, Parse, Output, Needed;
      var name := Basename(file);
      var msg := new char[LOG_MSG_MAX];
      var r := Vsnprintf(msg, LOG_MSG_MAX, fmt, args, strings);
      var e := Entry(ticks, level, Truncated(name, LOG_FILE_MAX), line, msg[..r]);
      ghost var k := |all|;
      assert e == EntryOf(ticks, level, name, line, Output(Parse(fmt), args, strings));
      forall j | k - count <= j < k && j > k - LOG_SIZE ensures Slot(j, LOG_SIZE) != Slot(k, LOG_SIZE) {
        Apart(j, k, LOG_SIZE);
      }
      NextSlot(k, LOG_SIZE);
      entries[head] := e;
      head := (head + 1) % LOG_SIZE;
      if count < LOG_SIZE {
        count := count + 1;
      }
      all := all + [e];
      forall j | |all| - count <= j < |all| ensures Kept(entries, all, j) {
        assert j < k ==> old(Kept(entries, all, j));
      }
      assert all[..k] == old(all);
    }

    /** log_flush: the entries it prints, in the order it prints them. */
    method Flush() returns (printed: seq<Entry>)
      requires Valid()
      ensures printed == Newest(all, Min(|all|, LOG_SIZE))
    {
      hide Slot;
      var idx, i := head, 0;
      printed := [];
      while i < count
        invariant 0 <= i <= count && idx == Slot(|all| - i, LOG_SIZE)
        invariant printed == Newest(all, i)
      {
        PreviousSlot(|all| - i, LOG_SIZE);
        idx := (idx + LOG_SIZE - 1) % LOG_SIZE;
        assert Kept(entries, all, |all| - i - 1);
        printed := printed + [entries[idx]];
        i := i + 1;
      }
    }
  }

  predicate Kept(entries: array<Entry>, all: seq<Entry>, k: int)
    requires entries.Length == LOG_SIZE && 0 <= k < |all|
    reads entries
  {
    entries[Slot(k, LOG_SIZE)] == all[k]
  }
}
