/** The program break: the user side of lib/brk.c over the kernel's kernel/syscall/brk.c.
    Addresses are 32-bit; sums wrap. */
module Brk {
  import opened Wrappers
  import opened VmaTree
  import AddressSpace

  const WORD32: nat := AddressSpace.WORD32

  class Break {
    /** `_startbrk` and `_curbrk`, zero before the first call */
    var startBrk: nat
    var curBrk: nat
    /** the kernel's `mm->end_brk` */
    var endBrk: nat
    /** the areas of the process, with `mm->start_brk` */
    const mm: AddressSpace.Mm
    const start: nat
    /** where `vm_next` of the heap's area leads: no area is made while a program runs */
    ghost const ceiling: Option<nat>

    /** The heap is the area that the search finds for `start_brk`, and it ends at the break. */
    ghost predicate Valid()
      reads this, mm
    {
      && Housed()
      && ((startBrk == curBrk == 0) || (startBrk > 0 && curBrk == endBrk))
    }

    ghost predicate Housed()
      reads this, mm
    {
      && start < endBrk < WORD32 && mm.Valid() && Find(mm.tree, start, None) == Some(Vma(start, endBrk))
      && Hit(mm.tree, start).Some? && ceiling == Ceiling(mm.tree, mm.chain, Hit(mm.tree, start).value)
    }

    constructor (areas: AddressSpace.Mm, first: nat, end: nat)
      requires first < end < WORD32 && areas.Valid() && Find(areas.tree, first, None) == Some(Vma(first, end))
      ensures Valid() && endBrk == end && curBrk == 0 && mm == areas && start == first
      ensures Hit(mm.tree, start).Some? && ceiling == Ceiling(mm.tree, mm.chain, Hit(mm.tree, start).value)
    {
      startBrk, curBrk, endBrk, mm, start := 0, 0, end, areas, first;
      FoundIsHit(areas.tree, first, None);
      ceiling := Ceiling(areas.tree, areas.chain, Hit(areas.tree, first).value);
    }

    /** `sys_brk`: a request at or below the break reports the break; one above it is granted
        when it stays below the next area, else 0. The heap's area grows with the break. */
    method SysBrk(end: nat) returns (va: nat)
      requires Housed() && end < WORD32
      modifies this`endBrk, mm
      ensures Housed()
      ensures end <= old(endBrk) ==> va == endBrk == old(endBrk) && mm.tree == old(mm.tree)
      ensures end > old(endBrk) && Room(end) ==> va == endBrk == end && mm.tree == Grow(old(mm.tree), start, end)
      ensures end > old(endBrk) && !Room(end) ==> va == 0 && endBrk == old(endBrk) && mm.tree == old(mm.tree)
    {
      if end > endBrk {
        GrowFinds(mm.tree, start, end, None);
        GrowCeiling(mm.tree, mm.chain, start, end);
      }
      var r := mm.Brk(start, endBrk, end);
      endBrk := r.value.0;
      va := r.value.1;
    }

    ghost predicate Room(end: nat) {
      AddressSpace.Clears(ceiling, end)
    }

    /** From one call to the next the areas change only in that the heap's grows with the break. */
    ghost predicate Areal(before: Tree, was: nat, after: Tree, now: nat) {
      after == if now > was then Grow(before, start, now) else before
    }

    /** `brk` */
    method DoBrk(end: nat) returns (va: nat)
      requires Valid() && end < WORD32
      modifies this, mm
      ensures Valid() && startBrk > 0
      ensures end <= old(endBrk) ==> va == endBrk == old(endBrk)
      ensures end > old(endBrk) && Room(end) ==> va == endBrk == end
      ensures end > old(endBrk) && !Room(end) ==> va == 0 && endBrk == old(endBrk)
      ensures Areal(old(mm.tree), old(endBrk), mm.tree, endBrk)
    {
      if startBrk == 0 {
        startBrk := SysBrk(0);
        curBrk := startBrk;
      }
      va := SysBrk(end);
      if va == end {
        curBrk := va;
      }
    }

    /** `sbrk`: a non-zero result is the old break. The break has then moved up by `inc`
        exactly when the sum does not wrap around: on a wrap the kernel reports the
        unchanged break and `sbrk` takes it for success. */
    method Sbrk(inc: nat) returns (r: nat)
      requires Valid() && inc < WORD32
      modifies this, mm
      ensures Valid() && startBrk > 0
      ensures r == 0 || r == old(endBrk)
      ensures r == 0 <==> inc > 0 && old(endBrk) + inc < WORD32 && !Room(old(endBrk) + inc)
      ensures r == 0 ==> endBrk == old(endBrk)
      ensures r != 0 ==> (endBrk == r + inc <==> r + inc < WORD32)
      ensures r != 0 && r + inc >= WORD32 ==> endBrk == r
      ensures Areal(old(mm.tree), old(endBrk), mm.tree, endBrk)
    {
      if curBrk == 0 {
        var _ := DoBrk(0);
      }
      var tmp := curBrk;
      var va := DoBrk((curBrk + inc) % WORD32);
      if va != 0 {
        return tmp;
      }
      return 0;
    }
  }

  lemma {:induction false} FoundIsHit(t: Tree, addr: nat, b: Option<Vma>)
    requires b.Some? ==> b.value.start > addr
    ensures var r := Find(t, addr, b); Hit(t, addr).Some? <==> r.Some? && r.value.start <= addr
  {
    match t
    case Leaf =>
    case Branch(_, v, l, r) =>
      if v.end <= addr {
        FoundIsHit(r, addr, b);
      } else if v.start > addr {
        FoundIsHit(l, addr, Some(v));
      }
  }

  /** The next area of the one that grows stays where it is. */
  lemma GrowCeiling(t: Tree, chain: seq<nat>, addr: nat, end: nat)
    requires end > addr && Hit(t, addr).Some?
    ensures Hit(Grow(t, addr, end), addr) == Hit(t, addr)
    ensures Ceiling(Grow(t, addr, end), chain, Hit(t, addr).value) == Ceiling(t, chain, Hit(t, addr).value)
  {
    var next := After(chain, Hit(t, addr).value);
    GrowStarts(t, addr, end, if next.Some? then next.value else 0);
  }

  /** The start of the lowest area above `start`, if there is one */
  ghost predicate LowestAbove(s: set<Vma>, start: nat, next: Option<nat>) {
    && (forall a :: a in s && a.start > start ==> next.Some? && next.value <= a.start)
    && (next.Some? ==> exists a :: a in s && a.start > start && a.start == next.value)
  }

  /** If what `vm_next` leads to is the lowest area above the heap, the break moves just as far as the areas
      stay disjoint and each is found. */
  lemma GrowthIsSoundIff(t: Tree, start: nat, was: nat, next: Option<nat>, end: nat)
    requires Good(t) && NoneEmpty(Areas(t)) && Find(t, start, None) == Some(Vma(start, was)) && was <= end
    requires LowestAbove(Areas(t), start, next)
    ensures Good(Grow(t, start, end)) && Decides(Grow(t, start, end)) <==> AddressSpace.Clears(next, end)
  {
    GrowSoundIff(t, start, end, Vma(start, was));
  }

  /** A request of 3.75 GB at a break of 256 MB: `sbrk` reports success and nothing has moved. */
  method WrappingSbrk() returns (r: nat, end: nat)
    ensures r == end == 0x1000_0000
  {
    var mm := new AddressSpace.Mm();
    var heap := Vma(0xFFF_F000, 0x1000_0000);
    mm.VmLink(AddressSpace.Raw(0, None, None), heap);
    assert mm.tree == Branch(0, heap, Leaf, Leaf);
    var b := new Break(mm, 0xFFF_F000, 0x1000_0000);
    r := b.Sbrk(0xF000_0000);
    end := b.endBrk;
  }
}
