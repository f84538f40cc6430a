/** The canonical form of a buddy allocator's free lists, independently of the code
    that maintains it: which blocks are listed is a function of which pages are free. */
module Buddy {
  import opened Wrappers
  import opened Bits

  const MAXORDER: nat := 11

  /** `2^order` consecutive pages starting at `start` (page indices within the zone). */
  datatype Block = Block(start: nat, order: nat)

  predicate InBlock(p: nat, b: Block) {
    b.start <= p < b.start + Pow2(b.order)
  }

  ghost function Pages(b: Block): (s: set<nat>)
    ensures forall p: nat :: p in s <==> InBlock(p, b)
  {
    set p: nat | p < b.start + Pow2(b.order) && InBlock(p, b)
  }

  ghost predicate WellPlaced(b: Block) {
    b.order < MAXORDER && Aligned(b.start, b.order)
  }

  /** The block that differs in bit `order` of its index. */
  function BuddyOf(b: Block): Block {
    Block(Xor(b.start, Pow2(b.order)), b.order)
  }

  function Parent(b: Block): Block {
    Block(And(b.start, BuddyOf(b).start), b.order + 1)
  }

  /** What the free lists must look like for the set `free` of free pages. */
  ghost predicate Canonical(blocks: set<Block>, free: set<nat>) {
    && (forall b :: b in blocks ==> WellPlaced(b) && Pages(b) <= free)
    && (forall p :: p in free ==> Covered(blocks, p))
    && (forall b, c :: b in blocks && c in blocks && b != c ==> Pages(b) !! Pages(c))
    && (forall b :: b in blocks && b.order < MAXORDER - 1 ==> BuddyOf(b) !in blocks)
  }

  ghost predicate Covered(blocks: set<Block>, p: nat) {
    exists b :: b in blocks && p in Pages(b)
  }

  /** An aligned run of free pages that cannot be enlarged to the next order. */
  ghost predicate Maximal(b: Block, free: set<nat>) {
    && WellPlaced(b)
    && Pages(b) <= free
    && (b.order == MAXORDER - 1 || !(Pages(Parent(b)) <= free))
  }

  lemma BuddyFacts(b: Block)
    requires Aligned(b.start, b.order)
    ensures Aligned(BuddyOf(b).start, b.order)
    ensures BuddyOf(BuddyOf(b)) == b && BuddyOf(b) != b
    ensures Aligned(Parent(b).start, b.order + 1)
    ensures Pages(Parent(b)) == Pages(b) + Pages(BuddyOf(b))
    ensures Pages(b) !! Pages(BuddyOf(b))
    ensures Parent(b).start <= b.start
  {
    XorFlipsBlock(b.start, b.order);
    AndSelectsLower(b.start, b.order);
  }

  lemma StartInPages(b: Block)
    ensures b.start in Pages(b)
  {
  }

  lemma Nested(b: Block, c: Block, p: nat)
    requires Aligned(b.start, b.order) && Aligned(c.start, c.order) && b.order <= c.order
    requires p in Pages(b) && p in Pages(c)
    ensures Pages(b) <= Pages(c)
  {
    BlocksNest(b.start, b.order, c.start, c.order, p);
  }

  /** Putting back a run of allocated pages whose buddy is not listed. */
  lemma AddBlock(blocks: set<Block>, free: set<nat>, b: Block)
    requires Canonical(blocks, free) && WellPlaced(b) && Pages(b) !! free
    requires b.order < MAXORDER - 1 ==> BuddyOf(b) !in blocks
    ensures b !in blocks
    ensures Canonical(blocks + {b}, free + Pages(b))
  {
    StartInPages(b);
    var blocks', free' := blocks + {b}, free + Pages(b);
    forall p | p in free' ensures Covered(blocks', p) {
      if p in Pages(b) {
        assert b in blocks';
      } else {
        var c :| c in blocks && p in Pages(c);
        assert c in blocks';
      }
    }
    forall c | c in blocks' && c.order < MAXORDER - 1 ensures BuddyOf(c) !in blocks' {
      BuddyFacts(c);
    }
  }

  /** Taking a listed block out of the lists. */
  lemma RemoveBlock(blocks: set<Block>, free: set<nat>, b: Block)
    requires Canonical(blocks, free) && b in blocks
    ensures Canonical(blocks - {b}, free - Pages(b))
  {
  }

  /** Every aligned run of free pages, of any order, lies inside one listed block. */
  lemma {:induction false} FreeRunIsInsideABlock(blocks: set<Block>, free: set<nat>, r: Block) returns (b: Block)
    requires Canonical(blocks, free)
    requires WellPlaced(r) && Pages(r) <= free
    ensures b in blocks && r.order <= b.order && Pages(r) <= Pages(b)
    decreases r.order
  {
    StartInPages(r);
    assert Covered(blocks, r.start);
    if r.order == 0 {
      b :| b in blocks && r.start in Pages(b);
      Nested(r, b, r.start);
    } else {
      var lo, hi := Halves(r);
      var bl := FreeRunIsInsideABlock(blocks, free, lo);
      var bh := FreeRunIsInsideABlock(blocks, free, hi);
      b := bl;
      if bl.order < r.order {
        HalvesAreNotBothListed(blocks, free, lo, hi, bl, bh);
        b := bh;
        StartInPages(hi);
        Nested(r, b, hi.start);
      } else {
        StartInPages(lo);
        Nested(r, b, lo.start);
      }
    }
  }

  lemma Halves(r: Block) returns (lo: Block, hi: Block)
    requires r.order > 0 && Aligned(r.start, r.order)
    ensures lo == Block(r.start, r.order - 1) && hi == BuddyOf(lo)
    ensures Aligned(lo.start, lo.order) && Aligned(hi.start, hi.order)
    ensures Pages(r) == Pages(lo) + Pages(hi) && Pages(lo) !! Pages(hi)
    ensures hi == Block(r.start + Pow2(r.order - 1), r.order - 1)
    ensures Parent(lo) == r
  {
    lo := Block(r.start, r.order - 1);
    hi := BuddyOf(lo);
    AlignedDown(r.start, r.order - 1, r.order);
    XorFlipsBlock(lo.start, lo.order);
    AndSelectsLower(lo.start, lo.order);
  }

  lemma HalvesAreNotBothListed(blocks: set<Block>, free: set<nat>, lo: Block, hi: Block, bl: Block, bh: Block)
    requires Canonical(blocks, free) && hi == BuddyOf(lo) && lo.order < MAXORDER - 1
    requires WellPlaced(lo) && WellPlaced(hi)
    requires bl in blocks && bl.order == lo.order && Pages(lo) <= Pages(bl)
    requires bh in blocks && hi.order <= bh.order && Pages(hi) <= Pages(bh)
    ensures bh.order > hi.order
  {
    SameOrderSamePlace(lo, bl);
    if bh.order == hi.order {
      SameOrderSamePlace(hi, bh);
      assert false;
    }
  }

  lemma SameOrderSamePlace(b: Block, c: Block)
    requires Aligned(b.start, b.order) && Aligned(c.start, c.order)
    requires b.order == c.order && Pages(b) <= Pages(c)
    ensures b == c
  {
    StartInPages(b);
    BlocksNest(c.start, c.order, b.start, b.order, b.start);
  }

  /** The listed blocks are exactly the maximal aligned free runs. */
  lemma ListedIffMaximal(blocks: set<Block>, free: set<nat>, b: Block)
    requires Canonical(blocks, free)
    ensures b in blocks <==> Maximal(b, free)
  {
    if b in blocks {
      BuddyFacts(b);
      if b.order < MAXORDER - 1 && Pages(Parent(b)) <= free {
        var c := FreeRunIsInsideABlock(blocks, free, Parent(b));
        StartInPages(b);
        assert false;
      }
    }
    if Maximal(b, free) && b !in blocks {
      var c := FreeRunIsInsideABlock(blocks, free, b);
      if c.order == b.order {
        SameOrderSamePlace(b, c);
      } else {
        ParentInside(b, c);
      }
      assert false;
    }
  }

  lemma ParentInside(b: Block, c: Block)
    requires Aligned(b.start, b.order) && Aligned(c.start, c.order)
    requires b.order < c.order && Pages(b) <= Pages(c)
    ensures Pages(Parent(b)) <= Pages(c)
  {
    BuddyFacts(b);
    StartInPages(b);
    Nested(Parent(b), c, b.start);
  }

  /** The free lists depend only on which pages are free, not on the history of
      allocations and frees that led there. */
  lemma CanonicalIsUnique(blocks: set<Block>, blocks': set<Block>, free: set<nat>)
    requires Canonical(blocks, free) && Canonical(blocks', free)
    ensures blocks == blocks'
  {
    forall b ensures b in blocks <==> b in blocks' {
      ListedIffMaximal(blocks, free, b);
      ListedIffMaximal(blocks', free, b);
    }
  }

  /** A request of order `k` can be met from the lists exactly when some aligned run of
      `2^k` pages is entirely free. */
  lemma ServableIffRunFree(blocks: set<Block>, free: set<nat>, k: nat)
    requires Canonical(blocks, free) && k < MAXORDER
    ensures (exists b :: b in blocks && k <= b.order)
        <==> (exists r: Block :: r.order == k && WellPlaced(r) && Pages(r) <= free)
  {
    if b :| b in blocks && k <= b.order {
      var r := Block(b.start, k);
      AlignedDown(b.start, k, b.order);
      StartInPages(r);
      StartInPages(b);
      Nested(r, b, r.start);
      assert WellPlaced(r) && Pages(r) <= free;
    }
    if r: Block :| r.order == k && WellPlaced(r) && Pages(r) <= free {
      var b := FreeRunIsInsideABlock(blocks, free, r);
    }
  }

  /** Single pages never fail for fragmentation: one can be served whenever any page is free. */
  lemma SinglePageServable(free: set<nat>)
    ensures (exists b: Block :: b.order == 0 && WellPlaced(b) && Pages(b) <= free) <==> free != {}
  {
    if free != {} {
      var p :| p in free;
      var b := Block(p, 0);
      assert Pages(b) == {p};
      assert b.order == 0 && WellPlaced(b) && Pages(b) <= free;
    } else {
      forall b: Block ensures !(Pages(b) <= free) { StartInPages(b); }
    }
  }

  // --- Free lists, one per order ---

  /** The blocks on the lists: `lists[k]` holds the first page of each free block of order `k`. */
  ghost function BlocksOf(lists: seq<seq<nat>>): (s: set<Block>)
    ensures forall b :: b in s <==> b.order < |lists| && b.start in lists[b.order]
  {
    set k, i | 0 <= k < |lists| && i in lists[k] :: Block(i, k)
  }

  ghost predicate Distinct(lists: seq<seq<nat>>) {
    forall k :: 0 <= k < |lists| ==> NoDuplicates(lists[k])
  }

  lemma ListRemove(lists: seq<seq<nat>>, k: nat, x: nat)
    requires k < |lists| && x in lists[k] && Distinct(lists)
    ensures Distinct(lists[k := Without(lists[k], x)])
    ensures BlocksOf(lists[k := Without(lists[k], x)]) == BlocksOf(lists) - {Block(x, k)}
  {
    WithoutFacts(lists[k], x);
  }

  lemma ListAdd(lists: seq<seq<nat>>, k: nat, x: nat)
    requires k < |lists| && x !in lists[k] && Distinct(lists)
    ensures Distinct(lists[k := [x] + lists[k]])
    ensures BlocksOf(lists[k := [x] + lists[k]]) == BlocksOf(lists) + {Block(x, k)}
  {
  }

  /** Sum over the orders of list length times block size. */
  function ListedPages(lists: seq<seq<nat>>): nat {
    if lists == [] then 0
    else var k := |lists| - 1; ListedPages(lists[..k]) + |lists[k]| * Pow2(k)
  }

  lemma {:induction false} PagesCount(b: Block)
    ensures |Pages(b)| == Pow2(b.order)
    decreases b.order
  {
    if b.order == 0 {
      assert Pages(b) == {b.start};
    } else {
      var lo, hi := Block(b.start, b.order - 1), Block(b.start + Pow2(b.order - 1), b.order - 1);
      PagesCount(lo);
      PagesCount(hi);
      assert Pages(b) == Pages(lo) + Pages(hi) && Pages(lo) !! Pages(hi);
    }
  }

  /** Accounting: the listed blocks add up to exactly the free pages. */
  lemma {:induction false} ListedPagesIsFreeCount(lists: seq<seq<nat>>, free: set<nat>)
    requires Distinct(lists) && Canonical(BlocksOf(lists), free)
    ensures ListedPages(lists) == |free|
    decreases |lists|, if lists == [] then 0 else |lists[|lists| - 1]|
  {
    if lists == [] {
      assert forall p :: p in free ==> Covered(BlocksOf(lists), p);
      assert free == {};
    } else {
      var k := |lists| - 1;
      if lists[k] == [] {
        assert BlocksOf(lists[..k]) == BlocksOf(lists);
        ListedPagesIsFreeCount(lists[..k], free);
      } else {
        var b, rest := Peel(lists, free);
        ListedPagesIsFreeCount(rest, free - Pages(b));
      }
    }
  }

  lemma Peel(lists: seq<seq<nat>>, free: set<nat>) returns (b: Block, rest: seq<seq<nat>>)
    requires Distinct(lists) && lists != [] && lists[|lists| - 1] != [] && Canonical(BlocksOf(lists), free)
    ensures |rest| == |lists| && |rest[|lists| - 1]| == |lists[|lists| - 1]| - 1
    ensures Distinct(rest) && Canonical(BlocksOf(rest), free - Pages(b))
    ensures |free| == |free - Pages(b)| + Pow2(b.order) && ListedPages(lists) == ListedPages(rest) + Pow2(b.order)
  {
    b, rest := DropFirst(lists);
    RemoveBlock(BlocksOf(lists), free, b);
    PagesCount(b);
    assert free == (free - Pages(b)) + Pages(b);
  }

  lemma DropFirst(lists: seq<seq<nat>>) returns (b: Block, rest: seq<seq<nat>>)
    requires Distinct(lists) && lists != [] && lists[|lists| - 1] != []
    ensures |rest| == |lists| && |rest[|lists| - 1]| == |lists[|lists| - 1]| - 1
    ensures Distinct(rest)
    ensures b in BlocksOf(lists) && b.order == |lists| - 1 && BlocksOf(rest) == BlocksOf(lists) - {b}
    ensures ListedPages(lists) == ListedPages(rest) + Pow2(b.order)
  {
    var k := |lists| - 1;
    var l := lists[k];
    b := Block(l[0], k);
    rest := lists[k := l[1..]];
    assert l == [l[0]] + l[1..];
    assert rest[..k] == lists[..k];
    assert |l| * Pow2(k) == (|l| - 1) * Pow2(k) + Pow2(k);
  }
}
