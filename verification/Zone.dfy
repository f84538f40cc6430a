/** The page allocator of a zone: kernel/mm/zone.c.
    The per-page fields `order`, `nref` and the reserved flag are arrays over the page
    index; the eleven free areas are arrays over the order. A free area's intrusive
    list is the sequence of its entries, head first. */
module Zone {
  import opened Wrappers
  import opened Bits
  import opened Buddy

  /** The upper half of a held block can be listed. */
  lemma Upper(blocks: set<Block>, free: set<nat>, page: nat, h: nat) returns (hi: Block)
    requires 0 < h && Canonical(blocks, free) && WellPlaced(Block(page, h)) && Pages(Block(page, h)) !! free
    ensures hi == Block(page + Pow2(h) / 2, h - 1) && hi.start in Pages(hi)
    ensures WellPlaced(Block(page, h - 1)) && Pages(Block(page, h - 1)) !! Pages(hi)
    ensures Pages(Block(page, h)) == Pages(Block(page, h - 1)) + Pages(hi)
    ensures Canonical(blocks + {hi}, free + Pages(hi))
    ensures Taken(free, Pages(Block(page, h)), Pages(Block(page, h - 1)), Pages(hi), hi.start) && h - 1 < MAXORDER
  {
    var lo;
    lo, hi := Halves(Block(page, h));
    StartInPages(hi);
    StartInPages(lo);
    BuddyFacts(lo);
    assert lo !in blocks;
    AddBlock(blocks, free, hi);
    HalfTaken(free, Pages(Block(page, h)), Pages(lo), Pages(hi), hi.start);
  }

  /** Of the pages `whole`, none of them free, `hi` can be listed and `lo` kept. */
  ghost predicate Taken(free: set<nat>, whole: set<nat>, lo: set<nat>, hi: set<nat>, start: nat) {
    && free + hi == free + (whole - lo) && lo <= whole && lo !! free + hi && hi <= whole
    && start in whole && start !in free
  }

  lemma HalfTaken(free: set<nat>, whole: set<nat>, lo: set<nat>, hi: set<nat>, start: nat)
    requires whole == lo + hi && lo !! hi && whole !! free && start in hi
    ensures Taken(free, whole, lo, hi, start)
  {
  }

  class ZoneStruct {
    const size: nat
    const order: array<int>
    const nref: array<nat>
    const reserved: array<bool>
    const freeList: array<seq<nat>>
    const nfree: array<int>
    var freePages: int
    /** The indices of the free pages. */
    ghost var free: set<nat>

    ghost predicate Shape()
      reads this
    {
      && order.Length == nref.Length == reserved.Length == size
      && freeList.Length == nfree.Length == MAXORDER
      && order != nfree
    }

    ghost function Blocks(): set<Block>
      reads freeList
    {
      BlocksOf(freeList[..])
    }

    /** The bookkeeping agrees with the lists: `page->order` is `k` exactly on the first
        pages of listed blocks of order `k`, and `nfree` counts each list. */
    ghost predicate Tied()
      reads this, order, freeList, nfree
      requires Shape()
    {
      && Distinct(freeList[..])
      && (forall k :: 0 <= k < MAXORDER ==> nfree[k] == |freeList[k]|)
      && (forall p :: 0 <= p < size ==> -1 <= order[p] < MAXORDER)
      && (forall p, k :: 0 <= p < size && 0 <= k < MAXORDER ==> (order[p] == k <==> p in freeList[k]))
    }

    ghost predicate Unused(s: set<nat>)
      reads this, nref, reserved
      requires Shape()
    {
      forall p :: p in s ==> p < size && nref[p] == 0 && !reserved[p]
    }

    ghost predicate Valid()
      reads this, order, nref, reserved, freeList, nfree
    {
      && Shape()
      && Canonical(Blocks(), free)
      && Tied()
      && Unused(free)
      && freePages == |free|
    }

    /** `list_del(&page->list)` on area `k`, with its counter and the page's order. */
    method Unlink(p: nat, k: nat)
      requires Shape() && Tied() && k < MAXORDER && p in freeList[k] && p < size
      modifies freeList, nfree, order
      ensures Tied()
      ensures Blocks() == old(Blocks()) - {Block(p, k)}
    {
      ghost var lists := freeList[..];
      freeList[k] := Without(freeList[k], p);
      nfree[k] := nfree[k] - 1;
      order[p] := -1;
      ListRemove(lists, k, p);
      WithoutFacts(lists[k], p);
      assert freeList[..] == lists[k := Without(lists[k], p)];
    }

    /** `list_add` of page `p` to area `k`, with its counter and the page's order. */
    method Link(p: nat, k: nat)
      requires Shape() && Tied() && k < MAXORDER && p < size && order[p] == -1
      modifies freeList, nfree, order
      ensures Tied()
      ensures Blocks() == old(Blocks()) + {Block(p, k)}
      ensures freeList[k][0] == p
    {
      ghost var lists := freeList[..];
      freeList[k] := [p] + freeList[k];
      nfree[k] := nfree[k] + 1;
      order[p] := k;
      ListAdd(lists, k, p);
      assert freeList[..] == lists[k := [p] + lists[k]];
    }
  
    /** A page outside every listed block carries order -1. */
    lemma UnlistedOrder(p: nat)
      requires Shape() && Tied() && Canonical(Blocks(), free) && p < size && p !in free
      ensures order[p] == -1
    {
      if order[p] != -1 {
        var b := Block(p, order[p]);
        assert b in Blocks();
        StartInPages(b);
      }
    }

    /** A block of order `h` at `page`, taken from the lists but not handed out. */
    ghost predicate Holding(page: nat, h: nat)
      reads this, order, nref, reserved, freeList, nfree
    {
      && Shape() && Tied() && Canonical(Blocks(), free) && Unused(free)
      && WellPlaced(Block(page, h)) && Pages(Block(page, h)) !! free && Unused(Pages(Block(page, h)))
    }

    /** One round of the splitting loop: list the upper half of the held block. */
    method ListUpperHalf(page: nat, h: nat)
      requires 0 < h && Holding(page, h)
      modifies this`free, order, freeList, nfree
      ensures Holding(page, h - 1)
      ensures free == old(free) + (Pages(Block(page, h)) - Pages(Block(page, h - 1)))
      ensures Pages(Block(page, h - 1)) <= Pages(Block(page, h))
    {
      ghost var hi := Upper(Blocks(), free, page, h);
      var half := Pow2(h) / 2;
      ListRest(page, h, page + half);
    }

    method ListRest(page: nat, h: nat, p: nat)
      requires 0 < h <= MAXORDER && Holding(page, h) && WellPlaced(Block(page, h - 1))
      requires Taken(free, Pages(Block(page, h)), Pages(Block(page, h - 1)), Pages(Block(p, h - 1)), p)
      requires Canonical(Blocks() + {Block(p, h - 1)}, free + Pages(Block(p, h - 1)))
      modifies this`free, order, freeList, nfree
      ensures Holding(page, h - 1)
      ensures free == old(free) + (Pages(Block(page, h)) - Pages(Block(page, h - 1)))
    {
      UnusedPart(Pages(Block(page, h)), Pages(Block(p, h - 1)));
      UnusedPart(Pages(Block(page, h)), Pages(Block(page, h - 1)));
      assert p < size;
      ListBlock(p, h - 1);
    }

    lemma UnusedPart(whole: set<nat>, part: set<nat>)
      requires Shape() && Unused(whole) && part <= whole
      ensures Unused(part)
    {
    }

    /** A block of unused pages is listed. */
    method ListBlock(p: nat, k: nat)
      requires Shape() && Tied() && Canonical(Blocks(), free) && Unused(free) && k < MAXORDER && p < size && p !in free
      requires Canonical(Blocks() + {Block(p, k)}, free + Pages(Block(p, k))) && Unused(Pages(Block(p, k)))
      modifies this`free, order, freeList, nfree
      ensures Shape() && Tied() && Canonical(Blocks(), free) && Unused(free)
      ensures free == old(free) + Pages(Block(p, k))
    {
      UnlistedOrder(p);
      Link(p, k);
      free := free + Pages(Block(p, k));
    }

    /** `__alloc_buddy`: of the block of order `high` held at `page`, keep the first
        `2^low` pages and list the rest, upper half first. */
    method Split(low: nat, high: nat, page: nat)
      requires low <= high && Holding(page, high)
      modifies this`free, order, freeList, nfree
      ensures Holding(page, low)
      ensures free == old(free) + (Pages(Block(page, high)) - Pages(Block(page, low)))
      ensures Pages(Block(page, low)) <= Pages(Block(page, high))
    {
      var h := high;
      while low < h
        invariant low <= h <= high && Holding(page, h)
        invariant Pages(Block(page, h)) <= Pages(Block(page, high))
        invariant free == old(free) + (Pages(Block(page, high)) - Pages(Block(page, h)))
      {
        ListUpperHalf(page, h);
        h := h - 1;
      }
    }

    /** The branch of `_alloc_buddy` taken at the first non-empty area. */
    method Take(k: nat, cur: nat) returns (page: nat)
      requires Valid() && k <= cur < MAXORDER && freeList[cur] != []
      modifies this`freePages, this`free, order, freeList, nfree
      ensures Valid()
      ensures page == old(freeList[cur][0])
      ensures WellPlaced(Block(page, k)) && Pages(Block(page, k)) <= old(free)
      ensures free == old(free) - Pages(Block(page, k))
    {
      page := freeList[cur][0];
      ghost var b := Block(page, cur);
      assert b in Blocks();
      StartInPages(b);
      RemoveBlock(Blocks(), free, b);
      Unlink(page, cur);
      freePages := freePages - Pow2(k);
      free := free - Pages(b);
      Split(k, cur, page);
      PagesCount(Block(page, k));
      assert old(free) == free + Pages(Block(page, k));
    }

    /** `_alloc_buddy`: the first block of the first non-empty list of order at least
        `k`, cut down to order `k`; NULL only when no aligned run of `2^k` pages is free. */
    method Alloc(k: nat) returns (r: Option<nat>)
      requires Valid() && k < MAXORDER
      modifies this`freePages, this`free, order, freeList, nfree
      ensures Valid()
      ensures r.None? <==> !exists b: Block :: b.order == k && WellPlaced(b) && Pages(b) <= old(free)
      ensures r.None? ==> free == old(free) && freeList[..] == old(freeList[..])
      ensures r.Some? ==> WellPlaced(Block(r.value, k)) && Pages(Block(r.value, k)) <= old(free)
      ensures r.Some? ==> free == old(free) - Pages(Block(r.value, k))
      ensures r.Some? ==> exists j :: k <= j < MAXORDER && FirstFit(old(freeList[..]), k, j) == Some(r.value)
    {
      ServableIffRunFree(Blocks(), free, k);
      if size == 0 {
        forall b ensures !(Pages(b) <= free) { StartInPages(b); }
        return None;
      }
      for cur := k to MAXORDER
        invariant forall j :: k <= j < cur ==> freeList[j] == []
      {
        if freeList[cur] != [] {
          assert Block(freeList[cur][0], cur) in Blocks();
          assert FirstFit(freeList[..], k, cur) == Some(freeList[cur][0]);
          var page := Take(k, cur);
          return Some(page);
        }
      }
      return None;
    }

    /** `page_is_buddy`: on the invariant, the listed blocks of that order and no others. */
    predicate IsBuddy(page: nat, k: nat)
      reads this, order, nref, reserved
      requires Shape() && page < size
    {
      order[page] == k && nref[page] == 0 && !reserved[page]
    }

    lemma IsBuddyIffListed(page: nat, k: nat)
      requires Shape() && Tied() && Canonical(Blocks(), free) && Unused(free)
      requires page < size && k < MAXORDER
      ensures IsBuddy(page, k) <==> Block(page, k) in Blocks()
    {
    }

    /** One round of the coalescing loop: absorb the listed buddy of the held block. */
    method Absorb(index: nat, k: nat, buddy: nat) returns (merged: nat)
      requires Holding(index, k) && k < MAXORDER - 1
      requires buddy == Xor(index, Pow2(k)) && buddy < size && IsBuddy(buddy, k)
      modifies this`free, order, freeList, nfree
      ensures Holding(merged, k + 1)
      ensures merged == And(index, buddy)
      ensures Pages(Block(merged, k + 1)) == Pages(Block(index, k)) + Pages(Block(buddy, k))
      ensures free == old(free) - Pages(Block(buddy, k)) && Pages(Block(buddy, k)) <= old(free)
    {
      ghost var b := Block(buddy, k);
      BuddyFacts(Block(index, k));
      IsBuddyIffListed(buddy, k);
      RemoveBlock(Blocks(), free, b);
      Unlink(buddy, k);
      free := free - Pages(b);
      merged := And(index, buddy);
    }

    /** The loop of `_free_buddy`: merge the held block with its buddy for as long as
        that is a free block of the same order. */
    method Coalesce(page: nat, k: nat) returns (index: nat, o: nat)
      requires Holding(page, k)
      modifies this`free, order, freeList, nfree
      ensures Holding(index, o)
      ensures free + Pages(Block(index, o)) == old(free) + Pages(Block(page, k))
      ensures o < MAXORDER - 1 ==> BuddyOf(Block(index, o)) !in Blocks()
    {
      index, o := page, k;
      while o < MAXORDER - 1
        invariant o < MAXORDER && Holding(index, o)
        invariant free + Pages(Block(index, o)) == old(free) + Pages(Block(page, k))
      {
        var buddy := Xor(index, Pow2(o));
        if buddy >= size || !IsBuddy(buddy, o) {
          NotListed(index, o, buddy);
          break;
        }
        index := Absorb(index, o, buddy);
        o := o + 1;
      }
    }

    /** The end of `_free_buddy`: list the held block. */
    method ListHeld(index: nat, o: nat)
      requires Holding(index, o)
      requires o < MAXORDER - 1 ==> BuddyOf(Block(index, o)) !in Blocks()
      modifies this`free, order, freeList, nfree
      ensures Shape() && Tied() && Canonical(Blocks(), free) && Unused(free)
      ensures free == old(free) + Pages(Block(index, o))
    {
      ghost var b := Block(index, o);
      StartInPages(b);
      UnlistedOrder(index);
      AddBlock(Blocks(), free, b);
      Link(index, o);
      free := free + Pages(b);
    }

    /** `_free_buddy` */
    method Free(page: nat, k: nat)
      requires Valid() && WellPlaced(Block(page, k))
      requires Pages(Block(page, k)) !! free && Unused(Pages(Block(page, k)))
      modifies this`freePages, this`free, order, freeList, nfree
      ensures Valid()
      ensures free == old(free) + Pages(Block(page, k))
    {
      freePages := freePages + Pow2(k);
      var index, o := Coalesce(page, k);
      ListHeld(index, o);
      PagesCount(Block(page, k));
    }

    lemma NotListed(index: nat, o: nat, buddy: nat)
      requires Holding(index, o) && buddy == Xor(index, Pow2(o))
      requires buddy >= size || !IsBuddy(buddy, o)
      ensures BuddyOf(Block(index, o)) !in Blocks()
    {
      if Block(buddy, o) in Blocks() {
        StartInPages(Block(buddy, o));
        IsBuddyIffListed(buddy, o);
      }
    }

    /** `free_area_init`: every available page is freed in turn. */
    method FreeAreaInit(available: seq<bool>)
      requires Valid() && free == {} && size == |available|
      requires forall p :: 0 <= p < size ==> nref[p] == 0 && reserved[p] == !available[p]
      modifies this`freePages, this`free, order, freeList, nfree
      ensures Valid()
      ensures free == set p | 0 <= p < size && available[p]
    {
      for i := 0 to size
        invariant Valid()
        invariant free == set p | 0 <= p < i && available[p]
      {
        UnlistedOrder(i);
        if order[i] == -1 && available[i] {
          assert Pages(Block(i, 0)) == {i};
          Free(i, 0);
        }
      }
    }

    /** `mempage_init` and `zone_init`: pages start unreferenced with order -1, reserved
        unless available, and the areas are empty. */
    constructor (available: seq<bool>)
      ensures Valid() && size == |available| && freeList.Length == 11
      ensures free == set p | 0 <= p < |available| && available[p]
    {
      size := |available|;
      order := new int[|available|](_ => -1);
      nref := new nat[|available|](_ => 0);
      reserved := new bool[|available|](i requires 0 <= i < |available| => !available[i]);
      freeList := new seq<nat>[MAXORDER](_ => []);
      nfree := new int[MAXORDER](_ => 0);
      freePages := 0;
      free := {};
      new;
      assert Blocks() == {};
      assert Canonical({}, {});
      FreeAreaInit(available);
    }

    /** The zone's counters: `free_pages` is the number of free pages and the sum of
        `nfree[k] * 2^k` over the orders. */
    lemma Accounting()
      requires Valid()
      ensures freePages == |free| == ListedPages(freeList[..])
    {
      ListedPagesIsFreeCount(freeList[..], free);
    }

    /** Freeing the block just allocated restores every list up to the order of its
        entries, and the counters. */
    method AllocThenFree(k: nat) returns (r: Option<nat>)
      requires Valid() && k < MAXORDER
      modifies this`freePages, this`free, order, freeList, nfree
      ensures Valid()
      ensures free == old(free) && freePages == old(freePages)
      ensures forall j :: 0 <= j < MAXORDER ==> SameEntries(freeList[..][j], old(freeList[..])[j])
    {
      r := Alloc(k);
      if r.Some? {
        Free(r.value, k);
        assert free == old(free);
      }
      HistoryIndependent(freeList[..], old(freeList[..]), free);
    }
  }

  /** The head of `lists[j]` when `j` is the first non-empty order from `k` up. */
  ghost function FirstFit(lists: seq<seq<nat>>, k: nat, j: nat): Option<nat> {
    if k <= j < |lists| && lists[j] != [] && (forall i :: k <= i < j ==> lists[i] == [])
    then Some(lists[j][0]) else None
  }

  ghost predicate SameEntries(a: seq<nat>, b: seq<nat>) {
    multiset(a) == multiset(b)
  }

  /** Two histories that leave the same pages free leave the same entries on every list,
      hence the same `nfree` counters. */
  lemma HistoryIndependent(lists: seq<seq<nat>>, lists': seq<seq<nat>>, free: set<nat>)
    requires |lists| == |lists'| && Distinct(lists) && Distinct(lists')
    requires Canonical(BlocksOf(lists), free) && Canonical(BlocksOf(lists'), free)
    ensures forall j :: 0 <= j < |lists| ==> SameEntries(lists[j], lists'[j]) && |lists[j]| == |lists'[j]|
  {
    CanonicalIsUnique(BlocksOf(lists), BlocksOf(lists'), free);
    forall j | 0 <= j < |lists| ensures SameEntries(lists[j], lists'[j]) && |lists[j]| == |lists'[j]| {
      forall x: nat ensures multiset(lists[j])[x] == multiset(lists'[j])[x] {
        assert Block(x, j) in BlocksOf(lists) <==> Block(x, j) in BlocksOf(lists');
        Multiplicity(lists[j], x);
        Multiplicity(lists'[j], x);
      }
      assert |lists[j]| == |multiset(lists[j])| && |lists'[j]| == |multiset(lists'[j])|;
    }
  }

  lemma {:induction false} Multiplicity(l: seq<nat>, x: nat)
    requires NoDuplicates(l)
    ensures multiset(l)[x] == if x in l then 1 else 0
  {
    if l != [] {
      Multiplicity(l[1..], x);
      assert l == [l[0]] + l[1..];
    }
  }
}
