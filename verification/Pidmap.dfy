/** Process ids: the next-fit bitmap allocator of kernel/pidmap.c. Bit `i` of the page is
    element `i` of `bits` (word `i >> 5`, bit `i & 31` in the source). */
module Pidmap {
  import opened Wrappers

  const PID_MAX: nat := 0x8000

  /** `(last_pid + 1) & BITS_PER_PAGE_MASK`, for `-1 <= last_pid < PID_MAX` */
  function SearchStart(last: int): nat
    requires -1 <= last < PID_MAX
  {
    (last + 1) % PID_MAX
  }

  /** The least unused pid from `start` up. */
  function FirstUnused(used: set<nat>, start: nat): (r: Option<nat>)
    requires start <= PID_MAX
    ensures r.Some? ==> start <= r.value < PID_MAX && r.value !in used && forall j :: start <= j < r.value ==> j in used
    ensures r.None? ==> forall j :: start <= j < PID_MAX ==> j in used
    decreases PID_MAX - start
  {
    if start == PID_MAX then None
    else if start !in used then Some(start)
    else FirstUnused(used, start + 1)
  }

  /** The pid the next allocation hands out. */
  function NextPid(used: set<nat>, last: int): Option<nat>
    requires -1 <= last < PID_MAX
  {
    FirstUnused(used, SearchStart(last))
  }

  /** `pid` is the least unused number from the one behind `last` up; 0 comes behind 32767. */
  ghost predicate IsNext(used: set<nat>, last: int, pid: nat) {
    var start := if last == 0x7FFF then 0 else last + 1;
    start <= pid < 0x8000 && pid !in used && forall j :: start <= j < pid ==> j in used
  }

  ghost predicate NoneLeft(used: set<nat>, last: int) {
    var start := if last == 0x7FFF then 0 else last + 1;
    forall j :: start <= j < 0x8000 ==> j in used
  }

  /** The search does not go back to the start: it fails exactly when everything from its start up
      is in use, whatever is free below. */
  lemma NextPidFailsIff(used: set<nat>, last: int)
    requires -1 <= last < PID_MAX
    ensures NextPid(used, last).None? <==> NoneLeft(used, last)
    ensures forall pid: nat :: NextPid(used, last) == Some(pid) <==> IsNext(used, last, pid)
  {
  }

  lemma TwoPidsExhaustTheSearch()
    ensures NextPid({PID_MAX - 2, PID_MAX - 1}, PID_MAX - 3) == None
  {
  }

  /** An allocation that does not wrap around yields a pid above every earlier one. */
  lemma NextPidAscends(used: set<nat>, last: int)
    requires -1 <= last < PID_MAX - 1 && NextPid(used, last).Some?
    ensures NextPid(used, last).value > last
  {
  }

  class PidmapStruct {
    const bits: array<bool>
    var nrFree: int
    var lastPid: int

    ghost function Used(): set<nat>
      reads bits
    {
      set i: nat | i < bits.Length && bits[i]
    }

    ghost predicate Valid()
      reads this, bits
    {
      && bits.Length == PID_MAX && -1 <= lastPid < PID_MAX
      && nrFree == PID_MAX - |Used()|
    }

    constructor ()
      ensures Valid() && Used() == {} && lastPid == -1 && fresh(bits)
    {
      bits := new bool[PID_MAX](_ => false);
      nrFree := PID_MAX;
      lastPid := -1;
      new;
      assert Used() == {};
    }

    /** `find_next_zero_bit` */
    method FindNextZeroBit(offset: nat) returns (i: nat)
      requires Valid() && offset <= PID_MAX
      ensures offset <= i <= PID_MAX
      ensures FirstUnused(Used(), offset) == if i == PID_MAX then None else Some(i)
    {
      i := offset;
      while i < PID_MAX
        invariant offset <= i <= PID_MAX
        invariant FirstUnused(Used(), offset) == FirstUnused(Used(), i)
      {
        if !bits[i] {
          break;
        }
        i := i + 1;
      }
    }

    /** `alloc_pidmap`: -1 exactly when no pid from the search start up is unused, even if
        smaller ones are. */
    method Alloc() returns (pid: int)
      requires Valid()
      modifies this`nrFree, this`lastPid, bits
      ensures Valid()
      ensures pid >= -1 && NextPid(old(Used()), old(lastPid)) == if pid == -1 then None else Some(pid)
      ensures pid == -1 <==> NoneLeft(old(Used()), old(lastPid))
      ensures pid != -1 ==> IsNext(old(Used()), old(lastPid), pid)
      ensures pid == -1 ==> Used() == old(Used()) && lastPid == old(lastPid)
      ensures pid != -1 ==> 0 <= pid < PID_MAX && Used() == old(Used()) + {pid} && lastPid == pid
    {
      if nrFree == 0 {
        AllUsed(Used());
        return -1;
      }
      var offset := FindNextZeroBit((lastPid + 1) % PID_MAX);
      if offset != PID_MAX && !bits[offset] {
        bits[offset] := true;
        nrFree := nrFree - 1;
        lastPid := offset;
        assert offset !in old(Used()) && Used() == old(Used()) + {offset};
        return offset;
      }
      return -1;
    }

    /** `free_pidmap` */
    method Free(pid: nat)
      requires Valid() && pid < PID_MAX && pid in Used()
      modifies this`nrFree, bits
      ensures Valid() && Used() == old(Used()) - {pid}
    {
      nrFree := nrFree + 1;
      bits[pid] := false;
      assert Used() == old(Used()) - {pid};
    }

    lemma AllUsed(used: set<nat>)
      requires Valid() && used == Used() && nrFree == 0
      ensures forall i: nat :: i < PID_MAX ==> i in used
    {
      var all := Below(PID_MAX);
      BelowCount(PID_MAX);
      assert used <= all;
      assert all == used + (all - used);
    }
  }

  ghost function Below(n: nat): (s: set<nat>)
    ensures forall i: nat :: i in s <==> i < n
  {
    if n == 0 then {} else Below(n - 1) + {n - 1}
  }

  lemma {:induction false} BelowCount(n: nat)
    ensures |Below(n)| == n
  {
    if n > 0 { BelowCount(n - 1); }
  }
}
