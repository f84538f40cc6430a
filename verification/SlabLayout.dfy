/** Geometry of the kmalloc caches: the size table, the slots of a slab, and how kfree
    finds a slab from an object address (kernel/mm/slab.c, include/mm/pages.h). */
module SlabLayout {
  import opened Bits
  import Buddy

  const PAGE_SIZE: nat := 4096
  const SLABORDER: nat := 10
  const SLAB_BYTES: nat := 4194304
  const KERNEL_BASE: nat := 0xC0000000
  const WORD: nat := 4
  const NCACHES: nat := 12

  const CACHE_SIZE: seq<nat> := [8, 16, 32, 64, 96, 128, 192, 256, 512, 1024, 2048, 4096]

  function RoundDown(a: nat, n: nat): nat
    requires n > 0
  {
    a - a % n
  }

  function RoundUp(a: nat, n: nat): nat
    requires n > 0
  {
    RoundDown(a + n - 1, n)
  }

  function Quotient(a: nat, n: nat): nat
    requires n > 0
  {
    a / n
  }

  /** `cstart->offset`, in words */
  function LinkOffset(g: nat): nat
    requires g < NCACHES
  {
    RoundUp(CACHE_SIZE[g], WORD) / WORD
  }

  /** `cstart->size`: the object rounded up to words, and one word for the freelist link */
  function SlotSize(g: nat): (r: nat)
    requires g < NCACHES
    ensures r >= WORD
  {
    RoundUp(CACHE_SIZE[g], WORD) + WORD
  }

  /** `cstart->objects` */
  function Objects(g: nat): nat
    requires g < NCACHES
  {
    Quotient(SLAB_BYTES, SlotSize(g))
  }

  lemma Geometry(g: nat)
    requires g < NCACHES
    ensures SlotSize(g) == CACHE_SIZE[g] + WORD && WORD * LinkOffset(g) == CACHE_SIZE[g]
    ensures 1022 <= Objects(g) && Objects(g) * SlotSize(g) <= SLAB_BYTES
  {
  }

  /** `page2virt` of the slab's first page */
  function SlabBase(pfn: nat): nat {
    KERNEL_BASE + pfn * PAGE_SIZE
  }

  function SlotAddr(g: nat, pfn: nat, i: nat): nat
    requires g < NCACHES
  {
    SlabBase(pfn) + i * SlotSize(g)
  }

  /** `get_slab`: round the address down to 4 MB and convert to a page number. */
  function GetSlab(obj: nat): nat
    requires obj >= KERNEL_BASE
  {
    (RoundDown(obj, SLAB_BYTES) - KERNEL_BASE) / PAGE_SIZE
  }

  predicate InBytes(a: nat, lo: nat, len: nat) {
    lo <= a < lo + len
  }

  ghost function Bytes(lo: nat, len: nat): iset<nat> {
    iset a: nat | InBytes(a, lo, len)
  }

  /** The bytes a slot gives its user, and the freelist word behind them. */
  ghost function Payload(g: nat, o: nat): iset<nat>
    requires g < NCACHES
  {
    Bytes(o, CACHE_SIZE[g])
  }

  ghost function LinkWord(g: nat, o: nat): iset<nat>
    requires g < NCACHES
  {
    Bytes(o + WORD * LinkOffset(g), WORD)
  }

  /** A slab is a block of the buddy allocator. */
  lemma SlabIsBlock()
    ensures Pow2(SLABORDER) * PAGE_SIZE == SLAB_BYTES
  {
    assert Pow2(10) == 1024;
  }

  lemma SlotInside(g: nat, i: nat)
    requires g < NCACHES && i < Objects(g)
    ensures (i + 1) * SlotSize(g) <= SLAB_BYTES
  {
    Geometry(g);
    assert (i + 1) * SlotSize(g) <= Objects(g) * SlotSize(g);
  }

  /** Every slot of a slab handed out by the buddy allocator (an order-10 block, hence a
      page number divisible by 1024) leads `get_slab` back to that slab's first page. */
  lemma KfreeFindsSlab(g: nat, pfn: nat, i: nat)
    requires g < NCACHES && i < Objects(g) && Buddy.WellPlaced(Buddy.Block(pfn, SLABORDER))
    ensures GetSlab(SlotAddr(g, pfn, i)) == pfn
  {
    assert Pow2(10) == 1024;
    AlignedIsModulo(pfn, 10);
    SlotInside(g, i);
    Geometry(g);
    var q := pfn / 1024;
    var off := i * SlotSize(g);
    assert 0 <= off < SLAB_BYTES;
    assert SlotAddr(g, pfn, i) == (768 + q) * SLAB_BYTES + off;
    RemainderUnique(SlotAddr(g, pfn, i), SLAB_BYTES, 768 + q, off);
  }

  /** Distinct slots share no byte, neither payload nor link word; the link word lies
      outside the caller's bytes; and each slot stays inside its slab. */
  lemma SlotsAreSeparate(g: nat, pfn: nat, i: nat, j: nat)
    requires g < NCACHES && i < j < Objects(g)
    ensures SlotAddr(g, pfn, i) + SlotSize(g) <= SlotAddr(g, pfn, j)
    ensures Payload(g, SlotAddr(g, pfn, i)) !! LinkWord(g, SlotAddr(g, pfn, i))
    ensures (Payload(g, SlotAddr(g, pfn, i)) + LinkWord(g, SlotAddr(g, pfn, i)))
         !! (Payload(g, SlotAddr(g, pfn, j)) + LinkWord(g, SlotAddr(g, pfn, j)))
    ensures SlotAddr(g, pfn, j) + SlotSize(g) <= SlabBase(pfn) + SLAB_BYTES
  {
    Geometry(g);
    SlotInside(g, j);
    assert (i + 1) * SlotSize(g) <= j * SlotSize(g);
  }

  /** The smallest cache that holds `s` bytes. */
  ghost predicate SmallestFit(s: nat, g: int) {
    && 0 <= g < NCACHES && s <= CACHE_SIZE[g]
    && forall j :: 0 <= j < g ==> CACHE_SIZE[j] < s
  }

  /** `size_map_init`: fill the table from the largest cache down, so that the smallest
      cache that fits is written last. */
  method SizeMapInit(sizeMap: array<int>)
    requires sizeMap.Length == PAGE_SIZE + 1
    modifies sizeMap
    ensures forall s :: 0 <= s <= PAGE_SIZE ==> SmallestFit(s, sizeMap[s])
  {
    var j := NCACHES;
    while j > 0
      invariant 0 <= j <= NCACHES
      invariant j < NCACHES ==> forall s :: 0 <= s <= PAGE_SIZE ==> FitFrom(j, s, sizeMap[s])
    {
      j := j - 1;
      ghost var before := sizeMap[..];
      var i := CACHE_SIZE[j] + 1;
      while i > 0
        invariant 0 <= i <= CACHE_SIZE[j] + 1
        invariant forall s :: i <= s <= CACHE_SIZE[j] ==> sizeMap[s] == j
        invariant forall s :: CACHE_SIZE[j] < s <= PAGE_SIZE ==> sizeMap[s] == before[s]
      {
        i := i - 1;
        sizeMap[i] := j;
      }
      forall s | 0 <= s <= PAGE_SIZE ensures FitFrom(j, s, sizeMap[s]) {
        if s <= CACHE_SIZE[j] {
          assert sizeMap[s] == j;
        } else {
          assert sizeMap[s] == before[s];
        }
      }
    }
    sizeMap[0] := 0;
    forall s | 0 <= s <= PAGE_SIZE ensures SmallestFit(s, sizeMap[s]) {
      assert s > 0 ==> FitFrom(0, s, sizeMap[s]);
    }
  }

  ghost predicate FitFrom(lo: nat, s: nat, g: int) {
    && lo <= g < NCACHES && s <= CACHE_SIZE[g]
    && forall j :: lo <= j < g ==> CACHE_SIZE[j] < s
  }
}
