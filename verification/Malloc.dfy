/** The user-space heap of lib/malloc.c: one list of chunks, in address order, in which
    free neighbours are merged. */
module Malloc {
  import opened Wrappers
  import AddressSpace
  import opened Brk

  const CHUNK_SIZE: nat := 0x400000
  const CHUNK_GAP: nat := 0x1000
  /** `sizeof(struct malloc_chunk)`: size, flag and two list links */
  const HEADER: nat := 16

  datatype Chunk = Chunk(addr: nat, size: nat, free: bool)

  function End(c: Chunk): nat {
    c.addr + HEADER + c.size
  }

  /** Header by header, the chunks cover exactly `[lo, hi)`. */
  ghost predicate Tiles(s: seq<Chunk>, lo: nat, hi: nat) {
    && (s == [] ==> lo == hi)
    && (s != [] ==> s[0].addr == lo && End(s[|s| - 1]) == hi)
    && forall i :: 0 <= i < |s| - 1 ==> s[i + 1].addr == End(s[i])
  }

  /** No two neighbours are both free. */
  ghost predicate Merged(s: seq<Chunk>) {
    forall i :: !BothFree(s, i)
  }

  ghost predicate BothFree(s: seq<Chunk>, i: int) {
    0 <= i < |s| - 1 && s[i].free && s[i + 1].free
  }

  /** The chunks in use. */
  ghost function Live(s: seq<Chunk>): set<Chunk> {
    set c | c in s && !c.free
  }

  lemma {:induction false} Ordered(s: seq<Chunk>, lo: nat, hi: nat, i: nat, j: nat)
    requires Tiles(s, lo, hi) && i < j < |s|
    ensures End(s[i]) <= s[j].addr
    decreases j - i
  {
    if i + 1 < j { Ordered(s, lo, hi, i, j - 1); }
  }

  /** Chunks in use never overlap: neither headers nor payloads. */
  lemma LiveAreDisjoint(s: seq<Chunk>, lo: nat, hi: nat, c: Chunk, d: Chunk)
    requires Tiles(s, lo, hi) && c in s && d in s && c != d
    ensures End(c) <= d.addr || End(d) <= c.addr
  {
    var i :| 0 <= i < |s| && s[i] == c;
    var j :| 0 <= j < |s| && s[j] == d;
    if i < j { Ordered(s, lo, hi, i, j); } else { Ordered(s, lo, hi, j, i); }
  }

  /** Once everything is freed, the list is one free chunk spanning the heap. */
  lemma AllFreedIsOneChunk(s: seq<Chunk>, lo: nat, hi: nat)
    requires Tiles(s, lo, hi) && Merged(s) && Live(s) == {}
    ensures s == [] || (|s| == 1 && s[0] == Chunk(lo, hi - lo - HEADER, true))
  {
    forall i | 0 <= i < |s| ensures s[i].free {
      assert s[i] in s;
      assert s[i] !in Live(s);
    }
    assert !BothFree(s, 0);
  }

  // --- Replacing a stretch of the list ---

  ghost function Spliced(s: seq<Chunk>, i: nat, n: nat, mid: seq<Chunk>): seq<Chunk>
    requires i + n <= |s|
  {
    s[..i] + mid + s[i + n..]
  }

  lemma SpliceTiles(s: seq<Chunk>, lo: nat, hi: nat, i: nat, n: nat, mid: seq<Chunk>)
    requires Tiles(s, lo, hi) && n > 0 && i + n <= |s| && mid != []
    requires Tiles(mid, s[i].addr, End(s[i + n - 1]))
    ensures Tiles(Spliced(s, i, n, mid), lo, hi)
  {
  }

  lemma SpliceMembers(s: seq<Chunk>, i: nat, n: nat, mid: seq<Chunk>)
    requires i + n <= |s|
    ensures forall c :: c in Spliced(s, i, n, mid) <==> c in s[..i] || c in mid || c in s[i + n..]
    ensures forall c :: c in s <==> c in s[..i] || c in s[i..i + n] || c in s[i + n..]
  {
  }

  /** Only pairs that involve index `i` may be unmerged. */
  ghost predicate MergedExcept(s: seq<Chunk>, i: int) {
    forall j :: BothFree(s, j) ==> j == i || j + 1 == i
  }

  /** The free chunk at `k` absorbs the free chunk behind it. */
  function Join(s: seq<Chunk>, k: nat): seq<Chunk>
    requires k + 1 < |s|
  {
    s[..k] + [Chunk(s[k].addr, s[k].size + (s[k + 1].size + HEADER), s[k].free)] + s[k + 2..]
  }

  lemma JoinKeeps(s: seq<Chunk>, lo: nat, hi: nat, k: nat)
    requires Tiles(s, lo, hi) && k + 1 < |s| && s[k].free && s[k + 1].free
    ensures Tiles(Join(s, k), lo, hi)
    ensures Live(Join(s, k)) == Live(s)
  {
  }

  lemma JoinBack(s: seq<Chunk>, i: nat)
    requires 0 < i < |s| && MergedExcept(s, i) && s[i - 1].free
    ensures MergedExcept(Join(s, i - 1), i - 1)
    ensures i > 1 ==> !Join(s, i - 1)[i - 2].free
  {
    var t := Join(s, i - 1);
    assert forall j :: 0 <= j < i - 1 ==> t[j] == s[j];
    assert forall j :: i - 1 < j < |t| ==> t[j] == s[j + 1];
    forall j ensures BothFree(t, j) ==> j == i - 1 || j + 1 == i - 1 {
      assert j < i ==> (BothFree(t, j) && j != i - 1 && j + 1 != i - 1 ==> BothFree(s, j));
      assert j >= i ==> (BothFree(t, j) ==> BothFree(s, j + 1));
    }
    assert i > 1 ==> !BothFree(s, i - 2);
  }

  lemma JoinForward(s: seq<Chunk>, i: nat)
    requires i + 1 < |s| && MergedExcept(s, i) && s[i + 1].free
    requires i > 0 ==> !s[i - 1].free
    ensures Merged(Join(s, i))
  {
    var t := Join(s, i);
    assert forall j :: 0 <= j < i ==> t[j] == s[j];
    assert forall j :: i < j < |t| ==> t[j] == s[j + 1];
    forall j ensures !BothFree(t, j) {
      assert j < i - 1 ==> (BothFree(t, j) ==> BothFree(s, j));
      assert j >= i ==> (BothFree(t, j) ==> BothFree(s, j + 1));
    }
  }

  /** `sbrk(CHUNK_SIZE)` at this break wraps around. */
  predicate Wraps(end: nat) {
    end + CHUNK_SIZE >= WORD32
  }

  /** Bytes of the free chunk at the top of the heap, header included. */
  ghost function Trailing(s: seq<Chunk>): nat {
    if s != [] && s[|s| - 1].free then s[|s| - 1].size + HEADER else 0
  }

  lemma AppendFree(s: seq<Chunk>, lo: nat, hi: nat, c: Chunk)
    requires Tiles(s, lo, hi) && Merged(s) && c.addr == hi && c.free
    ensures Tiles(s + [c], lo, End(c)) && MergedExcept(s + [c], |s|)
    ensures Live(s + [c]) == Live(s)
  {
    var t := s + [c];
    forall j ensures BothFree(t, j) ==> j == |s| || j + 1 == |s| {
      assert j + 1 < |s| ==> (BothFree(t, j) ==> BothFree(s, j));
    }
  }

  /** The chunks that `split_malloc` and the assignment of the flag put in place of a free
      chunk `c`. */
  function Carved(c: Chunk, size: nat): seq<Chunk>
    requires c.size >= size
  {
    if c.size - size < CHUNK_GAP then [c.(free := false)]
    else [Chunk(c.addr, size, false), Chunk(c.addr + size + HEADER, c.size - size - HEADER, true)]
  }

  lemma CarveKeeps(s: seq<Chunk>, lo: nat, hi: nat, i: nat, size: nat)
    requires Tiles(s, lo, hi) && Merged(s) && i < |s| && s[i].free && s[i].size >= size
    ensures var mid := Carved(s[i], size);
            && Tiles(Spliced(s, i, 1, mid), lo, hi) && Merged(Spliced(s, i, 1, mid))
            && Live(Spliced(s, i, 1, mid)) == Live(s) + {mid[0]} && mid[0] !in Live(s)
  {
    var mid := Carved(s[i], size);
    SpliceTiles(s, lo, hi, i, 1, mid);
    CarveMerged(s, i, mid);
    SpliceMembers(s, i, 1, mid);
    assert s[i..i + 1] == [s[i]];
    if mid[0] in s {
      var j :| 0 <= j < |s| && s[j] == mid[0];
      if j < i { Ordered(s, lo, hi, j, i); } else if i < j { Ordered(s, lo, hi, i, j); }
      assert false;
    }
  }

  lemma CarveMerged(s: seq<Chunk>, i: nat, mid: seq<Chunk>)
    requires Merged(s) && i < |s| && s[i].free && 1 <= |mid| <= 2 && !mid[0].free
    ensures Merged(Spliced(s, i, 1, mid))
  {
    var t := Spliced(s, i, 1, mid);
    assert t[i] == mid[0];
    assert forall j :: 0 <= j < i ==> t[j] == s[j];
    assert forall j :: i + |mid| <= j < |t| ==> t[j] == s[j - |mid| + 1];
    forall j ensures !BothFree(t, j) {
      assert j + 1 < i ==> (BothFree(t, j) ==> BothFree(s, j));
      assert j >= i + |mid| ==> (BothFree(t, j) ==> BothFree(s, j - |mid| + 1));
      assert j == i + |mid| - 1 ==> (BothFree(t, j) ==> BothFree(s, i));
    }
  }

  lemma ReleaseKeeps(s: seq<Chunk>, lo: nat, hi: nat, i: nat)
    requires Tiles(s, lo, hi) && Merged(s) && i < |s| && !s[i].free
    ensures var t := s[i := s[i].(free := true)];
            Tiles(t, lo, hi) && MergedExcept(t, i) && Live(t) == Live(s) - {s[i]}
  {
    var t := s[i := s[i].(free := true)];
    forall j ensures BothFree(t, j) ==> j == i || j + 1 == i {
      assert j != i && j + 1 != i ==> (BothFree(t, j) ==> BothFree(s, j));
    }
    forall c ensures c in Live(t) <==> c in Live(s) && c != s[i] {
      if c in Live(s) && c != s[i] {
        var j :| 0 <= j < |s| && s[j] == c;
        assert t[j] == c;
      }
      if c in Live(t) {
        var j :| 0 <= j < |t| && t[j] == c;
        if j < i { Ordered(s, lo, hi, j, i); } else if i < j { Ordered(s, lo, hi, i, j); }
      }
    }
  }

  /** From a free chunk of `top` bytes at the top, the request needs a further extension after `n`: those
      were granted without a wrap, and the chunk is still too small. */
  ghost predicate Asks(top: nat, end: nat, next: Option<nat>, size: nat, n: nat) {
    && top + n * CHUNK_SIZE < size + HEADER
    && (n > 0 ==> !Wraps(end + (n - 1) * CHUNK_SIZE) && AddressSpace.Clears(next, end + n * CHUNK_SIZE))
  }

  ghost predicate Overtakes(top: nat, end: nat, next: Option<nat>, size: nat) {
    exists n: nat :: Asks(top, end, next, size, n) && Wraps(end + n * CHUNK_SIZE)
  }

  lemma FullIsSafe(top: nat, end: nat, next: Option<nat>, size: nat, ext: nat)
    requires !Wraps(end + ext * CHUNK_SIZE) && !AddressSpace.Clears(next, end + ext * CHUNK_SIZE + CHUNK_SIZE)
    ensures !Overtakes(top, end, next, size)
  {
    forall n: nat | Asks(top, end, next, size, n) ensures !Wraps(end + n * CHUNK_SIZE) {
      assert n <= ext;
    }
  }

  lemma EnoughIsSafe(top: nat, end: nat, next: Option<nat>, size: nat, ext: nat)
    requires ext > 0 && !Wraps(end + (ext - 1) * CHUNK_SIZE) && top + ext * CHUNK_SIZE >= size + HEADER
    ensures !Overtakes(top, end, next, size)
  {
    forall n: nat | Asks(top, end, next, size, n) ensures !Wraps(end + n * CHUNK_SIZE) {
      assert n < ext;
    }
  }

  // --- What each operation leaves, chunk by chunk ---

  /** The free chunk at `i` and its free neighbours have become one. */
  ghost function Coalesced(s: seq<Chunk>, i: nat): seq<Chunk>
    requires i < |s|
  {
    var a := if i > 0 && s[i - 1].free then i - 1 else i;
    var b := if i + 1 < |s| && s[i + 1].free then i + 1 else i;
    var size := s[i].size + (if a < i then s[a].size + 16 else 0) + (if i < b then s[b].size + 16 else 0);
    s[..a] + [Chunk(s[a].addr, size, true)] + s[b + 1..]
  }

  /** The list of a heap that ended at `end`, after it has got `n` times 4 MB more at its top: a free chunk
      there has grown, or there is a new one. */
  ghost function ToppedUp(s: seq<Chunk>, end: nat, n: nat): seq<Chunk> {
    if n == 0 then s
    else if s != [] && s[|s| - 1].free then
      s[|s| - 1 := Chunk(s[|s| - 1].addr, s[|s| - 1].size + n * 0x400000, true)]
    else s + [Chunk(end, n * 0x400000 - 16, true)]
  }

  /** The chunk at `i` is the last that is free and large enough; there is none if `i` is -1. */
  ghost predicate LastFit(s: seq<Chunk>, i: int, size: nat) {
    && -1 <= i < |s| && (i >= 0 ==> s[i].free && s[i].size >= size)
    && forall j :: i < j < |s| ==> !(s[j].free && s[j].size >= size)
  }

  /** From `s` to `t` the last free chunk that is large enough, at `i`, was given out for `size` bytes: whole if
      less than a page would be left, else cut to size with a free chunk behind it. */
  ghost predicate GivenOut(s: seq<Chunk>, t: seq<Chunk>, i: int, size: nat) {
    && 0 <= i < |s| && LastFit(s, i, size)
    && var c := s[i];
       t == s[..i]
            + (if c.size < size + 0x1000 then [Chunk(c.addr, c.size, false)]
               else [Chunk(c.addr, size, false), Chunk(c.addr + 16 + size, c.size - size - 16, true)])
            + s[i + 1..]
  }

  /** From `s` to `t` the chunk at `i`, with its payload at `obj`, was marked free and merged with its free
      neighbours. */
  ghost predicate TakenBack(s: seq<Chunk>, t: seq<Chunk>, i: int, obj: nat) {
    && 0 <= i < |s| && !s[i].free && s[i].addr + 16 == obj
    && t == Coalesced(s[i := Chunk(s[i].addr, s[i].size, true)], i)
  }

  /** The list after the chunk before `i` has taken in a free chunk at `i`, and where that chunk is then */
  function JoinedBack(s: seq<Chunk>, i: nat): (seq<Chunk>, nat)
    requires i < |s|
  {
    if i > 0 && s[i - 1].free then (Join(s, i - 1), i - 1) else (s, i)
  }

  lemma CoalescedByJoins(s: seq<Chunk>, i: nat)
    requires i < |s| && s[i].free
    ensures var (t, k) := JoinedBack(s, i);
            Coalesced(s, i) == if k + 1 < |t| && t[k + 1].free then Join(t, k) else t
  {
    if i > 0 && s[i - 1].free {
      var t := Join(s, i - 1);
      assert t[i..] == s[i + 1..];
      assert i + 1 < |s| ==> t[i] == s[i + 1] && t[i + 1..] == s[i + 2..];
    }
  }

  lemma JoinedBackKeeps(s: seq<Chunk>, lo: nat, hi: nat, i: nat)
    requires i < |s| && s[i].free && MergedExcept(s, i) && Tiles(s, lo, hi)
    ensures var (t, k) := JoinedBack(s, i);
            && Tiles(t, lo, hi) && Live(t) == Live(s) && k < |t| && t[k].free && MergedExcept(t, k)
            && (k > 0 ==> !t[k - 1].free)
  {
    if i > 0 && s[i - 1].free {
      JoinKeeps(s, lo, hi, i - 1);
      JoinBack(s, i);
    }
  }

  lemma JoinedForwardKeeps(s: seq<Chunk>, lo: nat, hi: nat, k: nat)
    requires k < |s| && s[k].free && MergedExcept(s, k) && Tiles(s, lo, hi) && (k > 0 ==> !s[k - 1].free)
    ensures var t := if k + 1 < |s| && s[k + 1].free then Join(s, k) else s;
            Tiles(t, lo, hi) && Merged(t) && Live(t) == Live(s)
  {
    if k + 1 < |s| && s[k + 1].free {
      JoinKeeps(s, lo, hi, k);
      JoinForward(s, k);
    }
  }

  /** Merging restores the list, and what is in use stays. */
  lemma CoalesceKeeps(s: seq<Chunk>, lo: nat, hi: nat, i: nat)
    requires i < |s| && s[i].free && MergedExcept(s, i) && Tiles(s, lo, hi)
    ensures var t := Coalesced(s, i); Tiles(t, lo, hi) && Merged(t) && Live(t) == Live(s)
  {
    JoinedBackKeeps(s, lo, hi, i);
    CoalescedByJoins(s, i);
    var (t, k) := JoinedBack(s, i);
    JoinedForwardKeeps(t, lo, hi, k);
  }

  lemma ToppedUpOnce(s: seq<Chunk>, end: nat)
    ensures Coalesced(s + [Chunk(end, 0x400000 - 16, true)], |s|) == ToppedUp(s, end, 1)
  {
  }

  lemma ToppedUpTop(s: seq<Chunk>, end: nat)
    ensures Trailing(ToppedUp(s, end, 1)) == Trailing(s) + CHUNK_SIZE
    ensures var t := ToppedUp(s, end, 1); forall j :: 0 <= j < |t| - 1 ==> t[j] in s
  {
  }

  lemma ToppedUpAgain(s: seq<Chunk>, end: nat, n: nat)
    ensures ToppedUp(ToppedUp(s, end, n), end + n * 0x400000, 1) == ToppedUp(s, end, n + 1)
  {
  }

  /** What `malloc` comes to: NULL, a payload, or a chunk that was made beyond the break. */
  datatype Result = Null | Block(addr: nat) | Beyond(addr: nat)

  class Heap {
    var chunks: seq<Chunk>
    const brk: Break
    ghost const lo: nat

    /** The list tiles the heap obtained so far and has no free neighbours. */
    ghost predicate Valid()
      reads this, brk, brk.mm
    {
      brk.Valid() && Tiles(chunks, lo, brk.endBrk) && Merged(chunks)
    }

    constructor (b: Break)
      requires b.Valid()
      ensures Valid() && brk == b && chunks == []
    {
      chunks, brk, lo := [], b, b.endBrk;
    }

    /** `find_malloc`: the last free chunk that is large enough. */
    method Find(size: nat) returns (i: int)
      ensures LastFit(chunks, i, size)
    {
      i := |chunks| - 1;
      while i >= 0
        invariant -1 <= i < |chunks|
        invariant forall j :: i < j < |chunks| ==> !(chunks[j].free && chunks[j].size >= size)
      {
        if chunks[i].free && chunks[i].size >= size {
          return;
        }
        i := i - 1;
      }
    }

    /** `merger_malloc`: merge the free chunk at `i` with its free neighbours. */
    method Merger(i: nat, ghost hi: nat)
      requires i < |chunks| && chunks[i].free && MergedExcept(chunks, i) && Tiles(chunks, lo, hi)
      modifies this
      ensures Merged(chunks) && Tiles(chunks, lo, hi)
      ensures Live(chunks) == old(Live(chunks)) && chunks == Coalesced(old(chunks), i)
    {
      CoalesceKeeps(chunks, lo, hi, i);
      CoalescedByJoins(chunks, i);
      var k := i;
      if 0 < i && chunks[i - 1].free {
        chunks := Join(chunks, i - 1);
        k := i - 1;
      }
      if k + 1 < |chunks| && chunks[k + 1].free {
        chunks := Join(chunks, k);
      }
    }

    /** `extend_malloc`: one more `CHUNK_SIZE` at the top, merged with a free chunk there. */
    method Extend() returns (ok: bool)
      requires Valid()
      modifies this, brk, brk.mm
      // the list still tiles the heap if and only if the break did not wrap around
      ensures Valid() <==> !Wraps(old(brk.endBrk))
      ensures Live(chunks) == old(Live(chunks))
      ensures ok <==> Wraps(old(brk.endBrk)) || brk.Room(old(brk.endBrk) + CHUNK_SIZE)
      ensures ok ==> Tiles(chunks, lo, old(brk.endBrk) + CHUNK_SIZE) && Merged(chunks)
      ensures brk.endBrk == old(brk.endBrk) + if ok && !Wraps(old(brk.endBrk)) then CHUNK_SIZE else 0
      ensures ok ==> Trailing(chunks) == old(Trailing(chunks)) + CHUNK_SIZE
      ensures ok ==> forall j :: 0 <= j < |chunks| - 1 ==> chunks[j] in old(chunks)
      ensures chunks == if ok then ToppedUp(old(chunks), old(brk.endBrk), 1) else old(chunks)
    {
      var va := brk.Sbrk(CHUNK_SIZE);
      ok := va != 0;
      if ok {
        var c := Chunk(va, CHUNK_SIZE - HEADER, true);
        AppendFree(chunks, lo, va, c);
        ToppedUpOnce(chunks, va);
        ToppedUpTop(chunks, va);
        chunks := chunks + [c];
        Merger(|chunks| - 1, va + CHUNK_SIZE);
      }
    }

    /** No chunk is large enough, and an extension that the request needs wraps around. */
    ghost predicate Overruns(size: nat)
      reads this, brk
    {
      NoneFits(chunks, size) && Overtakes(Trailing(chunks), brk.endBrk, brk.ceiling, size)
    }

    /** A request cannot overrun if there is a next area far enough below 4 GB, or if it leaves that much room
        itself. */
    lemma RoomyIsSafe(size: nat)
      requires Valid()
      requires || (brk.ceiling.Some? && brk.endBrk <= brk.ceiling.value && !Wraps(brk.ceiling.value))
               || !Wraps(brk.endBrk + size + HEADER)
      ensures !Overruns(size)
    {
    }

    /** `find_malloc` again after an extension: only the chunk at the top can have become large enough. */
    lemma TopFits(before: seq<Chunk>, size: nat)
      requires NoneFits(before, size) && forall j :: 0 <= j < |chunks| - 1 ==> chunks[j] in before
      ensures NoneFits(chunks, size) <==> Trailing(chunks) < size + HEADER
    {
      forall j | 0 <= j < |chunks| - 1 ensures !(chunks[j].free && chunks[j].size >= size) {
        var k :| 0 <= k < |before| && before[k] == chunks[j];
      }
    }

    /** After `ext` extensions of the heap that had the chunks `was` and the break `end` */
    ghost predicate Extended(size: nat, ext: nat, was: seq<Chunk>, end: nat)
      reads this, brk, brk.mm
    {
      && Valid() && Live(chunks) == Live(was) && chunks == ToppedUp(was, end, ext)
      && brk.endBrk == end + ext * CHUNK_SIZE && Trailing(chunks) == Trailing(was) + ext * CHUNK_SIZE
      && (ext > 0 ==>
            && NoneFits(was, size) && Trailing(was) + (ext - 1) * CHUNK_SIZE < size + HEADER
            && !Wraps(end + (ext - 1) * CHUNK_SIZE) && brk.Room(end + ext * CHUNK_SIZE)
            && (NoneFits(chunks, size) <==> Trailing(chunks) < size + HEADER))
    }

    /** `extend_malloc` in the loop of `malloc` */
    method ExtendOnce(size: nat, ghost ext: nat, ghost was: seq<Chunk>, ghost end: nat) returns (ok: bool, beyond: bool)
      requires Extended(size, ext, was, end) && NoneFits(chunks, size)
      modifies this, brk, brk.mm
      ensures beyond ==> ok && Wraps(end + ext * CHUNK_SIZE) && brk.endBrk == end + ext * CHUNK_SIZE && !Valid()
      ensures beyond ==> Live(chunks) == Live(was) && Tiles(chunks, lo, brk.endBrk + CHUNK_SIZE)
      ensures beyond ==> chunks == ToppedUp(was, end, ext + 1)
      ensures NoneFits(was, size)
      ensures beyond ==> Overtakes(Trailing(was), end, brk.ceiling, size)
      ensures !ok ==> !Overtakes(Trailing(was), end, brk.ceiling, size)
      ensures ok && !beyond ==> Extended(size, ext + 1, was, end)
      ensures !ok ==> !brk.Room(brk.endBrk + CHUNK_SIZE) && !Wraps(brk.endBrk)
      ensures !ok ==> chunks == old(chunks) && Extended(size, ext, was, end)
    {
      assert Trailing(chunks) < size + HEADER;
      ghost var before := chunks;
      var at := brk.endBrk;
      ok := Extend();
      beyond := ok && brk.endBrk == at;
      if ok {
        TopFits(before, size);
        ToppedUpAgain(was, end, ext);
        assert beyond ==> Asks(Trailing(was), end, brk.ceiling, size, ext);
      } else {
        FullIsSafe(Trailing(was), end, brk.ceiling, size, ext);
      }
    }

    /** The loop of `malloc`: the index of a chunk that fits, or -1 when the heap cannot be extended or an
        extension has wrapped around. */
    method FindOrExtend(size: nat) returns (i: int, ghost ext: nat, beyond: bool)
      requires Valid() && size < WORD32
      modifies this, brk, brk.mm
      ensures beyond <==> old(Overruns(size))
      ensures Valid() <==> !beyond
      ensures Live(chunks) == old(Live(chunks)) && (!beyond ==> LastFit(chunks, i, size))
      ensures brk.endBrk == old(brk.endBrk) + ext * CHUNK_SIZE
      ensures chunks == ToppedUp(old(chunks), old(brk.endBrk), if beyond then ext + 1 else ext)
      ensures ext > 0 ==> (ext - 1) * CHUNK_SIZE < size + HEADER && NoneFits(old(chunks), size)
      ensures i < 0 && !beyond ==> !brk.Room(brk.endBrk + CHUNK_SIZE)
      ensures beyond ==> i < 0 && Tiles(chunks, lo, brk.endBrk + CHUNK_SIZE)
    {
      ghost var was, end := chunks, brk.endBrk;
      ext, beyond := 0, false;
      i := Find(size);
      while i < 0
        invariant Extended(size, ext, was, end) && LastFit(chunks, i, size) && !beyond
        decreases size + HEADER - Trailing(chunks)
      {
        assert Trailing(chunks) < size + HEADER;
        var ok;
        ok, beyond := ExtendOnce(size, ext, was, end);
        if !ok || beyond {
          return;
        }
        ext := ext + 1;
        i := Find(size);
      }
      if ext > 0 { EnoughIsSafe(Trailing(was), end, brk.ceiling, size, ext); }
    }

    /** `split_malloc` and the flag of the chunk */
    method Take(i: nat, size: nat) returns (r: nat)
      requires Valid() && LastFit(chunks, i, size)
      modifies this
      ensures Valid() && r != 0 && Allocated(old(Live(chunks)), Live(chunks), r, size)
      ensures GivenOut(old(chunks), chunks, i, size) && r == old(chunks)[i].addr + 16
    {
      CarveKeeps(chunks, lo, brk.endBrk, i, size);
      var mid := Carved(chunks[i], size);
      chunks := chunks[..i] + mid + chunks[i + 1..];
      r := mid[0].addr + HEADER;
      assert Allocated(old(Live(chunks)), Live(chunks), r, size);
    }

    /** `malloc`. `ext` counts the extensions of the heap. When one wraps around, `sbrk` has reported success
        and moved nothing, and the header that is written next lies beyond the break. */
    method Malloc(size: nat) returns (r: Result, ghost ext: nat)
      requires Valid() && size < WORD32
      modifies this, brk, brk.mm
      ensures r.Beyond? <==> old(Overruns(size))
      ensures r.Beyond? ==> r.addr == brk.endBrk && Tiles(chunks, lo, brk.endBrk + CHUNK_SIZE)
      ensures Valid() <==> !r.Beyond?
      ensures brk.endBrk == old(brk.endBrk) + ext * CHUNK_SIZE
      ensures ext > 0 ==> (ext - 1) * CHUNK_SIZE < size + HEADER && NoneFits(old(chunks), size)
      // chunk by chunk
      ensures !r.Block? ==> chunks == ToppedUp(old(chunks), old(brk.endBrk), if r.Beyond? then ext + 1 else ext)
      ensures r.Block? ==>
                var s := ToppedUp(old(chunks), old(brk.endBrk), ext);
                exists i :: GivenOut(s, chunks, i, size) && r.addr == s[i].addr + 16
      ensures !r.Block? ==> Live(chunks) == old(Live(chunks))
      ensures r.Null? ==> !brk.Room(brk.endBrk + CHUNK_SIZE) && NoneFits(chunks, size)
      ensures r.Block? ==> r.addr != 0 && Allocated(old(Live(chunks)), Live(chunks), r.addr, size)
    {
      var i, beyond;
      i, ext, beyond := FindOrExtend(size);
      if beyond {
        return Beyond(brk.endBrk), ext;
      }
      if i < 0 {
        return Null, ext;
      }
      var at := Take(i, size);
      r := Block(at);
    }

    /** `free`: NULL, or the address of the payload of a chunk in use. */
    method Free(obj: nat)
      requires Valid()
      requires obj != 0 ==> exists c :: c in Live(chunks) && c.addr + HEADER == obj
      modifies this
      ensures Valid() && (obj == 0 ==> chunks == old(chunks))
      ensures obj != 0 ==> exists c :: c in old(Live(chunks)) && Freed(old(Live(chunks)), Live(chunks), c, obj)
      ensures obj != 0 ==> exists i :: TakenBack(old(chunks), chunks, i, obj)
    {
      if obj == 0 {
        return;
      }
      var i: nat :| i < |chunks| && !chunks[i].free && chunks[i].addr + HEADER == obj;
      ReleaseKeeps(chunks, lo, brk.endBrk, i);
      chunks := chunks[i := chunks[i].(free := true)];
      Merger(i, brk.endBrk);
      assert old(chunks)[i] in old(Live(chunks)) && Freed(old(Live(chunks)), Live(chunks), old(chunks)[i], obj);
      assert TakenBack(old(chunks), chunks, i, obj);
    }
  }

  /** No free chunk has so many bytes. */
  ghost predicate NoneFits(s: seq<Chunk>, size: nat) {
    forall j :: 0 <= j < |s| ==> !(s[j].free && s[j].size >= size)
  }

  /** Chunk `c`, whose payload is at `obj`, is in use no longer. */
  ghost predicate Freed(before: set<Chunk>, after: set<Chunk>, c: Chunk, obj: nat) {
    c.addr + HEADER == obj && after == before - {c}
  }

  /** A new chunk of at least `size` bytes, with less than `CHUNK_GAP` to spare, is in use
      behind the header at `r`; every other chunk in use is where and what it was. */
  ghost predicate Allocated(before: set<Chunk>, after: set<Chunk>, r: nat, size: nat) {
    exists c :: c !in before && after == before + {c} && r == c.addr + HEADER && size <= c.size < size + CHUNK_GAP
  }
}
