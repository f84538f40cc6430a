/** The twelve kmalloc caches together: `page->slab` leads an address back to the cache that it came
    from, and no two objects in use share a byte (kernel/mm/slab.c). */
module Kmalloc {
  import opened Wrappers
  import opened SlabLayout
  import opened Freelists
  import opened Slub
  import Bits
  import Buddy

  /** Slot `x` of one cache and slot `y` of another share no byte. */
  ghost predicate Separate(g: nat, x: nat, h: nat, y: nat)
    requires g < NCACHES && h < NCACHES
  {
    x + SlotSize(g) <= y || y + SlotSize(h) <= x
  }

  lemma SlotOfSlab(g: nat, slabs: set<nat>, home: map<nat, nat>, x: nat) returns (i: nat)
    requires g < NCACHES && Laid(g, slabs, home) && x in home
    ensures home[x] in slabs && i < Objects(g) && x == SlotAddr(g, home[x], i)
  {
    i :| 0 <= i < Objects(g) && Slots(g, SlabOf(x))[i] == x;
  }

  lemma SlabAligned(p: nat)
    requires Buddy.WellPlaced(Buddy.Block(p, SLABORDER))
    ensures p % 1024 == 0
  {
    assert Bits.Pow2(10) == 1024;
    Bits.AlignedIsModulo(p, 10);
  }

  lemma Spaced(p: nat, q: nat)
    requires p % 1024 == 0 && q % 1024 == 0 && p < q
    ensures p + 1024 <= q
  {
  }

  lemma SlabsApart(p: nat, q: nat)
    requires Buddy.WellPlaced(Buddy.Block(p, SLABORDER)) && Buddy.WellPlaced(Buddy.Block(q, SLABORDER)) && p < q
    ensures SlabBase(p) + SLAB_BYTES <= SlabBase(q)
  {
    SlabAligned(p);
    SlabAligned(q);
    Spaced(p, q);
  }

  lemma FarSlots(g: nat, p: nat, i: nat, h: nat, q: nat, j: nat)
    requires g < NCACHES && h < NCACHES && i < Objects(g) && j < Objects(h) && SlabBase(p) + SLAB_BYTES <= SlabBase(q)
    ensures SlotAddr(g, p, i) + SlotSize(g) <= SlotAddr(h, q, j)
  {
    SlotInside(g, i);
    OneMore(i, SlotSize(g));
    OneMore(j, SlotSize(h));
  }

  lemma OneMore(i: nat, size: nat)
    ensures (i + 1) * size == i * size + size && i * size >= 0
  {
  }

  lemma SlotsApart(g: nat, p: nat, i: nat, h: nat, q: nat, j: nat)
    requires g < NCACHES && h < NCACHES && i < Objects(g) && j < Objects(h)
    requires if p == q then g == h && i != j else
               Buddy.WellPlaced(Buddy.Block(p, SLABORDER)) && Buddy.WellPlaced(Buddy.Block(q, SLABORDER))
    ensures Separate(g, SlotAddr(g, p, i), h, SlotAddr(h, q, j))
  {
    if p == q {
      if i < j { SlotsAreSeparate(g, p, i, j); } else { SlotsAreSeparate(g, p, j, i); }
    } else if p < q {
      SlabsApart(p, q);
      FarSlots(g, p, i, h, q, j);
    } else {
      SlabsApart(q, p);
      FarSlots(h, q, j, g, p, i);
    }
  }

  lemma LiveSlot(s: Cache, x: nat) returns (i: nat)
    requires Valid(s) && x in LiveObjects(s)
    ensures x in s.home && s.home[x] in s.inuse && Buddy.WellPlaced(Buddy.Block(s.home[x], SLABORDER))
    ensures i < Objects(s.g) && x == SlotAddr(s.g, s.home[x], i)
  {
    i := SlotOfSlab(s.g, s.inuse.Keys, s.home, x);
  }

  lemma LiveApart(s: Cache, t: Cache, x: nat, y: nat)
    requires Valid(s) && Valid(t) && x in LiveObjects(s) && y in LiveObjects(t)
    requires s.inuse.Keys !! t.inuse.Keys || (s == t && x != y)
    ensures Separate(s.g, x, t.g, y)
  {
    var i := LiveSlot(s, x);
    var j := LiveSlot(t, y);
    SlotsApart(s.g, s.home[x], i, t.g, t.home[y], j);
  }

  /** `owner` is `page->slab` for the pages with the slab flag: cache `i` has exactly the slabs that
      name it. */
  ghost predicate Owned(all: seq<Cache>, owner: map<nat, nat>) {
    forall i, p :: 0 <= i < |all| ==> (p in all[i].inuse <==> p in owner && owner[p] == i)
  }

  ghost predicate AllValid(all: seq<Cache>) {
    |all| == NCACHES && forall i {:trigger Valid(all[i])} :: 0 <= i < NCACHES ==> Valid(all[i]) && all[i].g == i
  }

  ghost predicate Kept(all: seq<Cache>, owner: map<nat, nat>) {
    AllValid(all) && Owned(all, owner)
  }

  lemma LiveInSlab(all: seq<Cache>, k: nat, o: nat)
    requires AllValid(all) && k < NCACHES && o in LiveObjects(all[k])
    ensures o >= KERNEL_BASE && GetSlab(o) in all[k].inuse
  {
    assert Valid(all[k]);
    LiveIsSlot(all[k], o);
  }

  /** `kfree` finds the cache of every object in use. */
  lemma KfreeFindsCache(all: seq<Cache>, owner: map<nat, nat>, k: nat, o: nat)
    requires Kept(all, owner) && k < NCACHES && o in LiveObjects(all[k])
    ensures o >= KERNEL_BASE && GetSlab(o) in owner && owner[GetSlab(o)] == k
  {
    LiveInSlab(all, k, o);
  }

  lemma SlabsDisjoint(all: seq<Cache>, owner: map<nat, nat>, k: nat, l: nat)
    requires Owned(all, owner) && k < |all| && l < |all| && k != l
    ensures all[k].inuse.Keys !! all[l].inuse.Keys
  {
    forall p | p in all[k].inuse.Keys ensures p !in all[l].inuse.Keys { }
  }

  /** Objects in use share no byte, in one cache or in two. */
  lemma LiveAreSeparate(all: seq<Cache>, owner: map<nat, nat>, k: nat, x: nat, l: nat, y: nat)
    requires Kept(all, owner) && k < NCACHES && l < NCACHES && (k, x) != (l, y)
    requires x in LiveObjects(all[k]) && y in LiveObjects(all[l])
    ensures Separate(k, x, l, y)
  {
    if k != l { SlabsDisjoint(all, owner, k, l); }
    assert Valid(all[k]) && Valid(all[l]);
    LiveApart(all[k], all[l], x, y);
  }

  lemma UpdateValid(all: seq<Cache>, k: nat, s': Cache)
    requires AllValid(all) && k < NCACHES && Valid(s') && s'.g == k
    ensures AllValid(all[k := s'])
  {
    var u := all[k := s'];
    forall i | 0 <= i < NCACHES ensures Valid(u[i]) && u[i].g == i {
      assert i != k ==> Valid(all[i]);
    }
  }

  /** Slab `p` has come to cache `k` or left it, and `page->slab` says so. */
  lemma OwnedAfter(all: seq<Cache>, owner: map<nat, nat>, k: nat, s': Cache, owner': map<nat, nat>, p: nat)
    requires Owned(all, owner) && k < |all| && (p in owner ==> owner[p] == k)
    requires forall q :: q != p ==> (q in s'.inuse <==> q in all[k].inuse)
    requires if p in s'.inuse then owner' == owner[p := k] else owner' == owner - {p}
    ensures Owned(all[k := s'], owner')
  {
  }

  lemma OwnedSame(all: seq<Cache>, owner: map<nat, nat>, k: nat, s': Cache)
    requires Owned(all, owner) && k < |all| && s'.inuse.Keys == all[k].inuse.Keys
    ensures Owned(all[k := s'], owner)
  {
    assert forall q :: q in s'.inuse <==> q in s'.inuse.Keys;
  }

  lemma AllocOwned(all: seq<Cache>, owner: map<nat, nat>, k: nat, s': Cache, offer: Option<nat>, nothing: bool, o: nat)
    requires Owned(all, owner) && k < |all| && Offered(offer, owner.Keys) && Outcome(all[k], s', nothing, offer, o)
    ensures Owned(all[k := s'], if nothing && offer.Some? then owner[offer.value := k] else owner)
  {
    if nothing && offer.Some? {
      assert offer.value in s'.inuse.Keys;
      OwnedAfter(all, owner, k, s', owner[offer.value := k], offer.value);
    } else {
      OwnedSame(all, owner, k, s');
    }
  }

  lemma FreeOwned(all: seq<Cache>, owner: map<nat, nat>, k: nat, s': Cache, p: nat, gone: bool)
    requires Owned(all, owner) && k < |all| && p in owner && owner[p] == k
    requires s'.inuse.Keys == all[k].inuse.Keys - if gone then {p} else {}
    ensures Owned(all[k := s'], if gone then owner - {p} else owner)
  {
    if gone {
      assert p !in s'.inuse.Keys;
      OwnedAfter(all, owner, k, s', owner - {p}, p);
    } else {
      OwnedSame(all, owner, k, s');
    }
  }

  lemma OwnerOffers(all: seq<Cache>, owner: map<nat, nat>, k: nat, offer: Option<nat>)
    requires Owned(all, owner) && k < |all| && Offered(offer, owner.Keys)
    ensures Offered(offer, all[k].inuse.Keys)
  {
  }

  lemma SlabIsNew(all: seq<Cache>, owner: map<nat, nat>, k: nat, s': Cache, offer: Option<nat>, c: nat, o: nat)
    requires Owned(all, owner) && k < |all| && Offered(offer, owner.Keys)
    requires Outcome(all[k], s', Exhausted(all[k], c), offer, o)
    ensures offer.Some? ==> (offer.value in s'.inuse <==> Exhausted(all[k], c))
  {
    OwnerOffers(all, owner, k, offer);
    assert offer.Some? ==> (offer.value in s'.inuse <==> offer.value in s'.inuse.Keys);
  }

  lemma FreeLive(all: seq<Cache>, owner: map<nat, nat>, k: nat, o: nat, s': Cache)
    requires Kept(all, owner) && SlabOf(o) in owner && owner[SlabOf(o)] == k < NCACHES
    requires LiveObjects(s') == LiveObjects(all[k]) - {o}
    ensures forall i :: 0 <= i < NCACHES ==> LiveObjects(all[k := s'][i]) == LiveObjects(all[i]) - {o}
  {
    forall i: nat | i < NCACHES && i != k ensures o !in LiveObjects(all[i]) {
      if o in LiveObjects(all[i]) { KfreeFindsCache(all, owner, i, o); }
    }
  }

  class Kmem {
    const caches: seq<MemCache>
    const sizeMap: array<int>
    /** `page->slab`, for the pages with the slab flag */
    var owner: map<nat, nat>

    ghost function Views(): (v: seq<Cache>)
      reads caches
      ensures |v| == |caches| && forall i :: 0 <= i < |v| ==> v[i] == caches[i].S()
    {
      seq(|caches|, i requires 0 <= i < |caches| reads caches => caches[i].S())
    }

    ghost predicate Counted()
      reads caches
    {
      forall i :: 0 <= i < |caches| ==> caches[i].npartial == |caches[i].partial|
    }

    ghost predicate Sound()
      reads caches
    {
      Counted() && AllValid(Views())
    }

    ghost predicate Tabled()
      reads sizeMap
    {
      sizeMap.Length == PAGE_SIZE + 1 && forall s :: 0 <= s <= PAGE_SIZE ==> SmallestFit(s, sizeMap[s])
    }

    ghost predicate Distinct() {
      |caches| == NCACHES && forall i, j :: 0 <= i < j < NCACHES ==> caches[i] != caches[j]
    }

    ghost predicate Ready()
      reads this, caches, sizeMap
    {
      Tabled() && Distinct() && Sound() && Owned(Views(), owner)
    }

    /** Cache `k` has changed, and nothing else. */
    twostate predicate Only(k: nat)
      reads caches
    {
      k < |caches| && forall i :: 0 <= i < |caches| && i != k ==> unchanged(caches[i])
    }

    twostate lemma OnlyViews(k: nat)
      requires Only(k)
      ensures Views() == old(Views())[k := caches[k].S()]
      ensures old(Counted()) && caches[k].npartial == |caches[k].partial| ==> Counted()
    {
    }

    lemma OkAt(k: nat)
      requires Distinct() && Sound() && k < NCACHES
      ensures caches[k].Ok() && caches[k].g == k
    {
      assert Valid(Views()[k]);
    }

    twostate lemma OnlyKeeps(k: nat)
      requires Distinct() && old(Sound()) && k < NCACHES && Only(k) && caches[k].Ok() && caches[k].g == k
      ensures Sound()
    {
      OnlyViews(k);
      UpdateValid(old(Views()), k, caches[k].S());
    }

    method AllocOn(k: nat, c: nat, offer: Option<nat>) returns (o: nat)
      requires Distinct() && k < NCACHES && caches[k].Ok() && c < CPUNUMS && Offered(offer, caches[k].inuse.Keys)
      modifies caches[k]
      ensures Only(k) && caches[k].Ok()
      ensures Outcome(old(caches[k].S()), caches[k].S(), Exhausted(old(caches[k].S()), c), offer, o)
    {
      o := caches[k].SlabAlloc(c, offer);
    }

    /** `slab_alloc` of cache `k` */
    method AllocFrom(k: nat, c: nat, offer: Option<nat>) returns (o: nat)
      requires Distinct() && Sound() && k < NCACHES && c < CPUNUMS && Offered(offer, caches[k].inuse.Keys)
      modifies caches[k]
      ensures Sound() && Views() == old(Views())[k := Views()[k]]
      ensures Outcome(old(Views())[k], Views()[k], Exhausted(old(Views())[k], c), offer, o)
    {
      OkAt(k);
      o := AllocOn(k, c, offer);
      OnlyKeeps(k);
      OnlyViews(k);
    }

    method FreeOn(k: nat, c: nat, o: nat)
      requires Distinct() && k < NCACHES && caches[k].Ok() && c < CPUNUMS && o in LiveObjects(caches[k].S()) && o != 0
      modifies caches[k]
      ensures Only(k) && caches[k].Ok()
      ensures LiveObjects(caches[k].S()) == old(LiveObjects(caches[k].S())) - {o}
      ensures caches[k].inuse.Keys ==
              old(caches[k].inuse.Keys) - if LastLive(old(caches[k].S()), o) then {SlabOf(o)} else {}
    {
      caches[k].Kfree(c, o);
    }

    /** `slab_free` of cache `k` */
    method FreeTo(k: nat, c: nat, o: nat)
      requires Distinct() && Sound() && k < NCACHES && c < CPUNUMS && o in LiveObjects(caches[k].S()) && o != 0
      modifies caches[k]
      ensures Sound() && Views() == old(Views())[k := Views()[k]]
      ensures LiveObjects(Views()[k]) == LiveObjects(old(Views())[k]) - {o}
      ensures Views()[k].inuse.Keys ==
              old(Views())[k].inuse.Keys - if LastLive(old(Views())[k], o) then {SlabOf(o)} else {}
    {
      OkAt(k);
      FreeOn(k, c, o);
      OnlyKeeps(k);
      OnlyViews(k);
    }

    /** `kmalloc` in cache `k`, and `pf->slab = c` for a new slab */
    method KmallocIn(k: nat, c: nat, offer: Option<nat>) returns (o: nat)
      requires Ready() && k < NCACHES && c < CPUNUMS && Offered(offer, owner.Keys)
      modifies this, caches[k]
      ensures Ready() && Views() == old(Views())[k := Views()[k]]
      ensures Outcome(old(Views())[k], Views()[k], Exhausted(old(Views())[k], c), offer, o)
    {
      ghost var all := Views();
      OwnerOffers(all, owner, k, offer);
      o := AllocFrom(k, c, offer);
      AllocOwned(all, owner, k, Views()[k], offer, Exhausted(all[k], c), o);
      SlabIsNew(all, owner, k, Views()[k], offer, c, o);
      if offer.Some? && offer.value in caches[k].inuse {
        owner := owner[offer.value := k];
      }
    }

    /** `kmalloc` on CPU `c`; `offer` is what the buddy allocator would answer. */
    method Kmalloc(size: nat, c: nat, offer: Option<nat>) returns (o: nat)
      requires Ready() && c < CPUNUMS && Offered(offer, owner.Keys)
      modifies this, caches
      ensures Ready()
      ensures !(0 < size <= PAGE_SIZE) ==> o == 0 && owner == old(owner) && Views() == old(Views())
      ensures 0 < size <= PAGE_SIZE ==>
        && SmallestFit(size, sizeMap[size])
        && var k := sizeMap[size];
        && Outcome(old(Views())[k], Views()[k], Exhausted(old(Views())[k], c), offer, o)
        && Views() == old(Views())[k := Views()[k]]
    {
      if size == 0 || size > PAGE_SIZE {
        return 0;
      }
      var k := sizeMap[size];
      o := KmallocIn(k, c, offer);
      OnlyViews(k);
    }

    /** `kfree` of an object of cache `k` */
    method KfreeIn(k: nat, c: nat, o: nat, p: nat)
      requires Ready() && k < NCACHES && c < CPUNUMS && o in LiveObjects(Views()[k]) && o != 0
      requires p == SlabOf(o) && p in owner && owner[p] == k
      modifies this, caches[k]
      ensures Ready()
      ensures forall i :: 0 <= i < NCACHES ==> LiveObjects(Views()[i]) == LiveObjects(old(Views())[i]) - {o}
    {
      ghost var all := Views();
      ghost var gone := LastLive(all[k], o);
      FreeTo(k, c, o);
      FreeOwned(all, owner, k, Views()[k], p, gone);
      FreeLive(all, owner, k, o, Views()[k]);
      assert p in all[k].inuse.Keys;
      assert p in caches[k].inuse <==> p in Views()[k].inuse.Keys;
      if p !in caches[k].inuse {
        owner := owner - {p};
      }
    }

    /** `kfree` on CPU `c`: the object leaves the cache that it is from, and no other. */
    method Kfree(c: nat, o: nat)
      requires Ready() && c < CPUNUMS
      requires o != 0 ==> exists k: nat :: k < NCACHES && o in LiveObjects(Views()[k])
      modifies this, caches
      ensures Ready()
      ensures o == 0 ==> owner == old(owner) && Views() == old(Views())
      ensures o != 0 ==> forall i :: 0 <= i < NCACHES ==> LiveObjects(Views()[i]) == LiveObjects(old(Views())[i]) - {o}
    {
      if o == 0 {
        return;
      }
      ghost var k: nat :| k < NCACHES && o in LiveObjects(Views()[k]);
      KfreeFindsCache(Views(), owner, k, o);
      var p := GetSlab(o);
      KfreeIn(owner[p], c, o, p);
    }

    /** `slab_init` */
    constructor ()
      ensures Ready() && owner == map[] && fresh(caches) && fresh(sizeMap)
      ensures forall i :: 0 <= i < NCACHES ==> LiveObjects(Views()[i]) == {}
    {
      var table := new int[PAGE_SIZE + 1];
      SizeMapInit(table);
      var all := NewCaches();
      caches, sizeMap, owner := all, table, map[];
      new;
      StartsSound();
    }

    lemma StartsSound()
      requires Distinct() && Starts(caches)
      ensures Sound() && Owned(Views(), map[])
      ensures forall i :: 0 <= i < NCACHES ==> LiveObjects(Views()[i]) == {}
    {
      forall i | 0 <= i < NCACHES ensures Valid(Views()[i]) && Views()[i].g == i && LiveObjects(Views()[i]) == {} {
        assert Blank(caches[i], i);
      }
    }
  }

  /** A cache as `kmem_cache_init` leaves it */
  ghost predicate Blank(m: MemCache, i: int)
    reads m
  {
    m.g == i && m.Ok() && m.inuse == map[] && LiveObjects(m.S()) == {}
  }

  ghost predicate Starts(all: seq<MemCache>)
    reads all
  {
    forall i :: 0 <= i < |all| ==> Blank(all[i], i)
  }

  /** `kmem_cache_init` */
  method NewCaches() returns (all: seq<MemCache>)
    ensures |all| == NCACHES && fresh(all) && Starts(all) && forall i, j :: 0 <= i < j < NCACHES ==> all[i] != all[j]
  {
    all := [];
    for k := 0 to NCACHES
      invariant |all| == k && fresh(all) && Starts(all) && forall i, j :: 0 <= i < j < k ==> all[i] != all[j]
    {
      var one := new MemCache(k);
      assert Blank(one, k);
      all := all + [one];
    }
  }
}
