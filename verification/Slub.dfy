/** The object allocator of kernel/mm/slab.c: one kmalloc cache shared by all CPUs.
    `kmalloc` and `kfree` run under one lock, so each call is one step by some CPU. */
module Slub {
  import opened Wrappers
  import opened SlabLayout
  import opened Freelists
  import Buddy

  const CPUNUMS: nat := 256

  /** The slots of slab `p`, in address order. */
  ghost function Slots(g: nat, p: nat): seq<nat>
    requires g < NCACHES
  {
    seq(Objects(g), i requires 0 <= i < Objects(g) => SlotAddr(g, p, i))
  }

  ghost function SlabOf(o: nat): nat {
    if o < KERNEL_BASE then 0 else GetSlab(o)
  }

  ghost predicate IsSlot(g: nat, o: nat)
    requires g < NCACHES
  {
    o in Slots(g, SlabOf(o))
  }

  /** `home` sends every slot of every slab, and nothing else, to that slab; it is what
      `get_slab` computes from the address. */
  ghost predicate Laid(g: nat, slabs: set<nat>, home: map<nat, nat>)
    requires g < NCACHES
  {
    forall o :: if IsSlot(g, o) && SlabOf(o) in slabs then o in home && home[o] == SlabOf(o) else o !in home
  }

  /** An object on a page freelist belongs to that page, one on a CPU freelist to that
      CPU's current page. */
  ghost predicate Homed(home: map<nat, nat>, cpuPage: seq<Option<nat>>, place: map<nat, Option<Holder>>) {
    && place.Keys == home.Keys
    && (forall o :: o in home && place[o].Some? ==> AtHome(cpuPage, place[o].value, home[o]))
  }

  ghost predicate AtHome(cpuPage: seq<Option<nat>>, h: Holder, slab: nat) {
    match h
    case Page(p) => p == slab
    case Cpu(c) => c < |cpuPage| && cpuPage[c] == Some(slab)
  }

  ghost predicate Holders(slabs: set<nat>, lists: map<Holder, seq<nat>>) {
    && (forall c: nat :: Cpu(c) in lists <==> c < CPUNUMS)
    && (forall p: nat :: Page(p) in lists <==> p in slabs)
  }

  /** `page->inuse` counts the slots that are not on the page's own freelist. */
  ghost predicate Counted(g: nat, inuse: map<nat, int>, lists: map<Holder, seq<nat>>)
    requires g < NCACHES && Holders(inuse.Keys, lists)
  {
    forall p :: p in inuse ==> inuse[p] == Objects(g) - |lists[Page(p)]|
  }

  /** A slab is frozen exactly while it is the current page of one CPU. */
  ghost predicate FrozenIffCurrent(slabs: set<nat>, frozen: set<nat>, cpuPage: seq<Option<nat>>) {
    && |cpuPage| == CPUNUMS && frozen <= slabs
    && (forall c :: 0 <= c < CPUNUMS && cpuPage[c].Some? ==> cpuPage[c].value in frozen)
    && (forall p :: p in frozen ==> Some(p) in cpuPage)
    && (forall c, d :: 0 <= c < d < CPUNUMS && cpuPage[c].Some? ==> cpuPage[c] != cpuPage[d])
  }

  /** The partial list holds exactly the unfrozen slabs with a non-empty page freelist. */
  ghost predicate PartialExact(slabs: set<nat>, frozen: set<nat>, partial: seq<nat>, lists: map<Holder, seq<nat>>)
    requires Holders(slabs, lists)
  {
    && NoDuplicates(partial)
    && (forall p :: p in partial <==> p in slabs && p !in frozen && lists[Page(p)] != [])
  }

  /** A cache's state. `lists` and `place` are the meaning of `heads` and `links`, `home`
      that of the slot addresses. */
  datatype Cache = Cache(
    g: nat,
    heads: map<Holder, nat>,        // cpu_slab[c].freelist and page->freelist
    links: map<nat, nat>,           // the link words of all slots
    cpuPage: seq<Option<nat>>,      // cpu_slab[c].page
    inuse: map<nat, int>,           // page->inuse of each slab
    frozen: set<nat>,               // slabs with the frozen flag
    partial: seq<nat>,              // node.partial
    lists: map<Holder, seq<nat>>,
    place: map<nat, Option<Holder>>,
    home: map<nat, nat>)

  /** Every slab is an order-10 block of the buddy allocator. */
  ghost predicate Buddied(slabs: set<nat>) {
    forall p :: p in slabs ==> Buddy.WellPlaced(Buddy.Block(p, SLABORDER))
  }

  ghost predicate Valid(s: Cache) {
    && s.g < NCACHES
    && Buddied(s.inuse.Keys)
    && Threaded(s.links, s.heads, s.lists, s.place)
    && Holders(s.inuse.Keys, s.lists)
    && Laid(s.g, s.inuse.Keys, s.home)
    && Homed(s.home, s.cpuPage, s.place)
    && Counted(s.g, s.inuse, s.lists)
    && FrozenIffCurrent(s.inuse.Keys, s.frozen, s.cpuPage)
    && PartialExact(s.inuse.Keys, s.frozen, s.partial, s.lists)
  }

  /** The objects in use by callers of kmalloc. */
  ghost function LiveObjects(s: Cache): set<nat> {
    set o | o in s.place && s.place[o].None?
  }

  lemma HomedUpdate(home: map<nat, nat>, cpuPage: seq<Option<nat>>, place: map<nat, Option<Holder>>, o: nat,
                    h: Option<Holder>)
    requires Homed(home, cpuPage, place) && o in place
    requires h.Some? ==> AtHome(cpuPage, h.value, home[o])
    ensures Homed(home, cpuPage, place[o := h])
  {
  }

  lemma LiveUpdate(s: Cache, s': Cache, o: nat, h: Option<Holder>)
    requires o in s.place && s'.place == s.place[o := h]
    ensures LiveObjects(s') == LiveObjects(s) - {o} + if h.None? then {o} else {}
  {
  }

  /** Changing only a CPU's freelist leaves every statement about pages alone. */
  lemma CpuListFrame(s: Cache, c: nat, l: seq<nat>)
    requires s.g < NCACHES && Holders(s.inuse.Keys, s.lists) && Counted(s.g, s.inuse, s.lists)
    requires PartialExact(s.inuse.Keys, s.frozen, s.partial, s.lists) && c < CPUNUMS
    ensures var lists := s.lists[Cpu(c) := l];
            && Holders(s.inuse.Keys, lists) && Counted(s.g, s.inuse, lists)
            && PartialExact(s.inuse.Keys, s.frozen, s.partial, lists)
  {
  }

  // --- Taking objects ---

  /** Pop the freelist of CPU `c`. */
  ghost function Popped(s: Cache, c: nat): Cache
    requires Cpu(c) in s.heads && Cpu(c) in s.lists && s.heads[Cpu(c)] in s.links && s.lists[Cpu(c)] != []
  {
    var h, o := Cpu(c), s.heads[Cpu(c)];
    Cache(s.g, s.heads[h := s.links[o]], s.links, s.cpuPage, s.inuse, s.frozen, s.partial,
          s.lists[h := s.lists[h][1..]], s.place[o := None], s.home)
  }

  lemma PopKeeps(s: Cache, c: nat)
    requires Valid(s) && c < CPUNUMS && s.heads[Cpu(c)] != 0
    ensures s.heads[Cpu(c)] in s.links && s.lists[Cpu(c)] != []
    ensures Valid(Popped(s, c))
    ensures s.heads[Cpu(c)] !in LiveObjects(s)
    ensures LiveObjects(Popped(s, c)) == LiveObjects(s) + {s.heads[Cpu(c)]}
  {
    PopThreaded(s.links, s.heads, s.lists, s.place, Cpu(c));
    HomedUpdate(s.home, s.cpuPage, s.place, s.heads[Cpu(c)], None);
    CpuListFrame(s, c, s.lists[Cpu(c)][1..]);
    LiveUpdate(s, Popped(s, c), s.heads[Cpu(c)], None);
  }

  /** Hand the freelist of a CPU's current page over to the CPU. */
  ghost function Loaded(s: Cache, c: nat, p: nat): Cache
    requires s.g < NCACHES && Page(p) in s.heads && Page(p) in s.lists
  {
    var a, b := Page(p), Cpu(c);
    Cache(s.g, s.heads[b := s.heads[a]][a := 0], s.links, s.cpuPage, s.inuse[p := Objects(s.g)], s.frozen, s.partial,
          s.lists[b := s.lists[a]][a := []], Moved(s.place, a, b), s.home)
  }

  lemma LoadKeeps(s: Cache, c: nat, p: nat)
    requires Valid(s) && c < CPUNUMS && s.heads[Cpu(c)] == 0 && s.cpuPage[c] == Some(p)
    ensures Page(p) in s.lists
    ensures Valid(Loaded(s, c, p))
    ensures LiveObjects(Loaded(s, c, p)) == LiveObjects(s)
    ensures Loaded(s, c, p).inuse.Keys == s.inuse.Keys
    ensures Loaded(s, c, p).heads[Cpu(c)] == s.heads[Page(p)]
  {
    var a, b := Page(p), Cpu(c);
    var s' := Loaded(s, c, p);
    MoveThreaded(s.links, s.heads, s.lists, s.place, a, b);
    assert s'.inuse.Keys == s.inuse.Keys;
    LoadHomed(s.home, s.cpuPage, s.place, p, c);
    LoadPages(s, c, p);
  }

  lemma LoadHomed(home: map<nat, nat>, cpuPage: seq<Option<nat>>, place: map<nat, Option<Holder>>, p: nat, c: nat)
    requires Homed(home, cpuPage, place) && c < |cpuPage| && cpuPage[c] == Some(p)
    ensures Homed(home, cpuPage, Moved(place, Page(p), Cpu(c)))
    ensures forall o :: o in place ==> (Moved(place, Page(p), Cpu(c))[o].None? <==> place[o].None?)
  {
  }

  lemma LoadPages(s: Cache, c: nat, p: nat)
    requires s.g < NCACHES && Holders(s.inuse.Keys, s.lists) && Counted(s.g, s.inuse, s.lists)
    requires PartialExact(s.inuse.Keys, s.frozen, s.partial, s.lists) && c < CPUNUMS && p in s.inuse && p in s.frozen
    requires s.heads.Keys == s.lists.Keys
    ensures var s' := Loaded(s, c, p);
            && Holders(s'.inuse.Keys, s'.lists) && Counted(s'.g, s'.inuse, s'.lists)
            && PartialExact(s'.inuse.Keys, s'.frozen, s'.partial, s'.lists)
  {
  }

  /** The CPU gives up a current page with nothing left on either freelist. */
  ghost function Deactivated(s: Cache, c: nat, p: nat): Cache
    requires c < |s.cpuPage|
  {
    Cache(s.g, s.heads, s.links, s.cpuPage[c := None], s.inuse, s.frozen - {p}, s.partial, s.lists, s.place, s.home)
  }

  lemma DeactivateKeeps(s: Cache, c: nat, p: nat)
    requires Valid(s) && c < CPUNUMS && s.cpuPage[c] == Some(p)
    requires s.heads[Cpu(c)] == 0 && s.heads[Page(p)] == 0
    ensures Valid(Deactivated(s, c, p))
    ensures s.inuse[p] == Objects(s.g) != 0
  {
    Geometry(s.g);
    assert s.lists[Cpu(c)] == [] && s.lists[Page(p)] == [];
    assert p in s.inuse;
    DeactivateHomed(s, c);
    DeactivateFrozen(s.inuse.Keys, s.frozen, s.cpuPage, c, p);
  }

  lemma DeactivateHomed(s: Cache, c: nat)
    requires Agree(s.lists, s.place) && Homed(s.home, s.cpuPage, s.place) && c < |s.cpuPage|
    requires Cpu(c) in s.lists && s.lists[Cpu(c)] == []
    ensures Homed(s.home, s.cpuPage[c := None], s.place)
  {
  }

  lemma DeactivateFrozen(slabs: set<nat>, frozen: set<nat>, cpuPage: seq<Option<nat>>, c: nat, p: nat)
    requires FrozenIffCurrent(slabs, frozen, cpuPage) && c < CPUNUMS && cpuPage[c] == Some(p)
    ensures FrozenIffCurrent(slabs, frozen - {p}, cpuPage[c := None])
  {
    var cpuPage' := cpuPage[c := None];
    forall q | q in frozen - {p} ensures Some(q) in cpuPage' {
      var d :| 0 <= d < CPUNUMS && cpuPage[d] == Some(q);
      assert cpuPage'[d] == Some(q);
    }
  }

  lemma FreezeCurrent(slabs: set<nat>, frozen: set<nat>, cpuPage: seq<Option<nat>>, c: nat, p: nat)
    requires FrozenIffCurrent(slabs, frozen, cpuPage) && c < CPUNUMS && cpuPage[c] == None
    requires p !in frozen
    ensures FrozenIffCurrent(slabs + {p}, frozen + {p}, cpuPage[c := Some(p)])
  {
    var cpuPage' := cpuPage[c := Some(p)];
    forall q | q in frozen + {p} ensures Some(q) in cpuPage' {
      if q == p {
        assert cpuPage'[c] == Some(p);
      } else {
        var d :| 0 <= d < CPUNUMS && cpuPage[d] == Some(q);
        assert cpuPage'[d] == Some(q);
      }
    }
  }

  lemma FreezeHomed(home: map<nat, nat>, cpuPage: seq<Option<nat>>, place: map<nat, Option<Holder>>, c: nat, p: nat)
    requires Homed(home, cpuPage, place) && c < |cpuPage| && cpuPage[c] == None
    ensures Homed(home, cpuPage[c := Some(p)], place)
  {
  }

  /** `get_partial_slab`: the first partial slab becomes the CPU's current page. */
  ghost function Activated(s: Cache, c: nat): Cache
    requires c < |s.cpuPage| && s.partial != []
  {
    Cache(s.g, s.heads, s.links, s.cpuPage[c := Some(s.partial[0])], s.inuse, s.frozen + {s.partial[0]},
          s.partial[1..], s.lists, s.place, s.home)
  }

  lemma FirstPartial(s: Cache)
    requires Valid(s) && s.partial != []
    ensures var p := s.partial[0];
            && p in s.inuse && p !in s.frozen && Page(p) in s.lists && s.lists[Page(p)] != []
            && Page(p) in s.heads && s.heads[Page(p)] != 0
  {
    assert s.partial[0] in s.partial;
  }

  lemma RestPartial(slabs: set<nat>, frozen: set<nat>, partial: seq<nat>, lists: map<Holder, seq<nat>>)
    requires Holders(slabs, lists) && PartialExact(slabs, frozen, partial, lists) && partial != []
    ensures PartialExact(slabs, frozen + {partial[0]}, partial[1..], lists)
  {
    assert partial == [partial[0]] + partial[1..];
  }

  lemma ActivateKeeps(s: Cache, c: nat)
    requires Valid(s) && c < CPUNUMS && s.cpuPage[c] == None && s.partial != []
    ensures Valid(Activated(s, c))
    ensures Page(s.partial[0]) in s.heads && s.heads[Page(s.partial[0])] != 0
  {
    var p := s.partial[0];
    FirstPartial(s);
    RestPartial(s.inuse.Keys, s.frozen, s.partial, s.lists);
    FreezeCurrent(s.inuse.Keys, s.frozen, s.cpuPage, c, p);
    assert s.inuse.Keys + {p} == s.inuse.Keys;
    FreezeHomed(s.home, s.cpuPage, s.place, c, p);
  }

  // --- Giving objects back ---

  /** Push object `o` on the freelist of `h`. */
  ghost function Pushed(s: Cache, h: Holder, o: nat): Cache
    requires h in s.heads && h in s.lists
  {
    Cache(s.g, s.heads[h := o], s.links[o := s.heads[h]], s.cpuPage, s.inuse, s.frozen, s.partial,
          s.lists[h := [o] + s.lists[h]], s.place[o := Some(h)], s.home)
  }

  /** Freeing on the CPU whose current page holds the object. */
  lemma PushCpuKeeps(s: Cache, c: nat, o: nat)
    requires Valid(s) && c < CPUNUMS && o in LiveObjects(s) && o != 0 && s.cpuPage[c] == Some(s.home[o])
    ensures Valid(Pushed(s, Cpu(c), o))
    ensures LiveObjects(Pushed(s, Cpu(c), o)) == LiveObjects(s) - {o}
  {
    PushThreaded(s.links, s.heads, s.lists, s.place, Cpu(c), o);
    HomedUpdate(s.home, s.cpuPage, s.place, o, Some(Cpu(c)));
    CpuListFrame(s, c, [o] + s.lists[Cpu(c)]);
    LiveUpdate(s, Pushed(s, Cpu(c), o), o, Some(Cpu(c)));
  }

  /** Freeing to the page: an unfrozen slab that was full joins the partial list. */
  ghost function Returned(s: Cache, p: nat, o: nat): Cache
    requires Page(p) in s.heads && Page(p) in s.lists && p in s.inuse
  {
    var t := Pushed(s, Page(p), o);
    Cache(t.g, t.heads, t.links, t.cpuPage, s.inuse[p := s.inuse[p] - 1], t.frozen,
          if p !in s.frozen && s.heads[Page(p)] == 0 then [p] + s.partial else s.partial, t.lists, t.place, t.home)
  }

  /** The assertion of `_slab_free`: a slab whose freelist was empty has all but one object in use. */
  lemma FirstReturned(s: Cache, p: nat, o: nat)
    requires Valid(s) && p in s.inuse
    ensures Page(p) in s.heads && Page(p) in s.lists
    ensures s.heads[Page(p)] == 0 ==> Returned(s, p, o).inuse[p] == Objects(s.g) - 1
  {
  }

  lemma ReturnKeeps(s: Cache, p: nat, o: nat)
    requires Valid(s) && o in LiveObjects(s) && o != 0 && s.home[o] == p && p in s.inuse
    ensures Valid(Returned(s, p, o))
    ensures LiveObjects(Returned(s, p, o)) == LiveObjects(s) - {o}
    ensures Returned(s, p, o).inuse.Keys == s.inuse.Keys
  {
    ReturnPages(s, p, o);
    PushThreaded(s.links, s.heads, s.lists, s.place, Page(p), o);
    HomedUpdate(s.home, s.cpuPage, s.place, o, Some(Page(p)));
    LiveUpdate(s, Returned(s, p, o), o, Some(Page(p)));
  }

  lemma HomeIsSlab(g: nat, slabs: set<nat>, home: map<nat, nat>, o: nat)
    requires g < NCACHES && Laid(g, slabs, home) && o in home
    ensures home[o] == SlabOf(o) && home[o] in slabs && o in Slots(g, home[o])
  {
  }

  lemma ReturnPages(s: Cache, p: nat, o: nat)
    requires s.g < NCACHES && Holders(s.inuse.Keys, s.lists) && Counted(s.g, s.inuse, s.lists)
    requires PartialExact(s.inuse.Keys, s.frozen, s.partial, s.lists) && p in s.inuse
    requires s.heads.Keys == s.lists.Keys && Chain(s.links, s.heads[Page(p)], s.lists[Page(p)])
    ensures var s' := Returned(s, p, o);
            && s'.inuse.Keys == s.inuse.Keys
            && Holders(s'.inuse.Keys, s'.lists) && Counted(s'.g, s'.inuse, s'.lists)
            && PartialExact(s'.inuse.Keys, s'.frozen, s'.partial, s'.lists)
  {
  }

  // --- Gaining and losing slabs ---

  /** The slots of a slab obtained from the buddy allocator: distinct, not NULL, and sent
      back to the slab by `get_slab`. */
  lemma SlotFacts(g: nat, p: nat)
    requires g < NCACHES && Buddy.WellPlaced(Buddy.Block(p, SLABORDER))
    ensures NoDuplicates(Slots(g, p)) && |Slots(g, p)| == Objects(g)
    ensures forall o :: o in Slots(g, p) ==> o != 0 && SlabOf(o) == p
  {
    var slots := Slots(g, p);
    forall i, j | 0 <= i < j < |slots| ensures slots[i] != slots[j] {
      SlotsAreSeparate(g, p, i, j);
    }
    forall o | o in slots ensures o != 0 && SlabOf(o) == p {
      var i :| 0 <= i < |slots| && slots[i] == o;
      KfreeFindsSlab(g, p, i);
    }
  }

  ghost function HomeWith(home: map<nat, nat>, slots: seq<nat>, p: nat): map<nat, nat> {
    home + map o | o in slots :: p
  }

  /** `new_slab`: all slots of page `p` are free on the page, which becomes the current
      page of CPU `c`. */
  ghost function Grown(s: Cache, links: map<nat, nat>, c: nat, p: nat): Cache
    requires s.g < NCACHES && c < |s.cpuPage|
  {
    var slots := Slots(s.g, p);
    Cache(s.g, s.heads[Page(p) := SlabBase(p)], links, s.cpuPage[c := Some(p)], s.inuse[p := 0], s.frozen + {p},
          s.partial, s.lists[Page(p) := slots], Added(s.place, slots, Page(p)), HomeWith(s.home, slots, p))
  }

  lemma GrowKeeps(s: Cache, links: map<nat, nat>, c: nat, p: nat)
    requires Valid(s) && c < CPUNUMS && s.cpuPage[c] == None
    requires p !in s.inuse && Buddy.WellPlaced(Buddy.Block(p, SLABORDER))
    requires Chain(links, SlabBase(p), Slots(s.g, p))
    requires forall o :: o in s.links && o !in Slots(s.g, p) ==> o in links && links[o] == s.links[o]
    ensures Valid(Grown(s, links, c, p))
    ensures LiveObjects(Grown(s, links, c, p)) == LiveObjects(s)
    ensures Grown(s, links, c, p).inuse.Keys == s.inuse.Keys + {p}
  {
    var slots := Slots(s.g, p);
    SlotFacts(s.g, p);
    GrowLaid(s.g, s.inuse.Keys, s.home, p);
    GrowFields(s, links, c, p);
    AddThreaded(s.links, links, s.heads, s.lists, s.place, Page(p), SlabBase(p), slots);
  }

  lemma GrowLaid(g: nat, slabs: set<nat>, home: map<nat, nat>, p: nat)
    requires g < NCACHES && Laid(g, slabs, home) && p !in slabs
    requires forall o :: o in Slots(g, p) ==> SlabOf(o) == p
    ensures Laid(g, slabs + {p}, HomeWith(home, Slots(g, p), p))
    ensures forall o :: o in Slots(g, p) ==> o !in home
  {
  }

  lemma GrowFields(s: Cache, links: map<nat, nat>, c: nat, p: nat)
    requires s.g < NCACHES && Holders(s.inuse.Keys, s.lists) && Counted(s.g, s.inuse, s.lists)
    requires FrozenIffCurrent(s.inuse.Keys, s.frozen, s.cpuPage) && Homed(s.home, s.cpuPage, s.place)
    requires PartialExact(s.inuse.Keys, s.frozen, s.partial, s.lists)
    requires p !in s.inuse && c < CPUNUMS && s.cpuPage[c] == None && |Slots(s.g, p)| == Objects(s.g)
    requires forall o :: o in Slots(s.g, p) ==> o !in s.home
    ensures var s' := Grown(s, links, c, p);
            && s'.inuse.Keys == s.inuse.Keys + {p}
            && Holders(s'.inuse.Keys, s'.lists) && Counted(s'.g, s'.inuse, s'.lists)
            && FrozenIffCurrent(s'.inuse.Keys, s'.frozen, s'.cpuPage)
            && Homed(s'.home, s'.cpuPage, s'.place)
            && PartialExact(s'.inuse.Keys, s'.frozen, s'.partial, s'.lists)
            && LiveObjects(s') == LiveObjects(s)
  {
    FreezeCurrent(s.inuse.Keys, s.frozen, s.cpuPage, c, p);
    FreezeHomed(s.home, s.cpuPage, s.place, c, p);
  }

  /** `discard_slab`: an unfrozen slab whose slots are all on its own freelist goes back to
      the buddy allocator. */
  ghost function Dropped(s: Cache, p: nat): Cache
    requires Page(p) in s.lists
  {
    var gone := set o | o in s.lists[Page(p)];
    Cache(s.g, s.heads - {Page(p)}, s.links, s.cpuPage, s.inuse - {p}, s.frozen, Without(s.partial, p),
          s.lists - {Page(p)}, s.place - gone, s.home - gone)
  }

  ghost function Elements(l: seq<nat>): set<nat> {
    set o | o in l
  }

  /** Pigeonhole: as many distinct slots as the slab has are all its slots. */
  lemma AllSlots(l: seq<nat>, slots: seq<nat>)
    requires NoDuplicates(l) && NoDuplicates(slots) && |l| == |slots|
    requires forall o :: o in l ==> o in slots
    ensures forall o :: o in slots ==> o in l
  {
    DistinctCount(l);
    DistinctCount(slots);
    var a, b := Elements(l), Elements(slots);
    assert a <= b;
    SubsetOfSameSize(a, b);
    assert forall o :: o in slots ==> o in b;
  }

  lemma SubsetOfSameSize(a: set<nat>, b: set<nat>)
    requires a <= b && |a| == |b|
    ensures a == b
  {
    assert b == a + (b - a);
  }

  lemma {:induction false} DistinctCount(l: seq<nat>)
    requires NoDuplicates(l)
    ensures |Elements(l)| == |l|
  {
    if l != [] {
      DistinctCount(l[1..]);
      assert Elements(l) == {l[0]} + Elements(l[1..]);
    }
  }

  /** The entries of a page freelist are distinct slots of that page. */
  lemma OnPageAreSlots(s: Cache, p: nat)
    requires s.g < NCACHES && Laid(s.g, s.inuse.Keys, s.home) && Homed(s.home, s.cpuPage, s.place)
    requires Agree(s.lists, s.place) && Page(p) in s.lists && Page(p) in s.heads
    requires Chain(s.links, s.heads[Page(p)], s.lists[Page(p)])
    ensures NoDuplicates(s.lists[Page(p)])
    ensures forall o :: o in s.lists[Page(p)] ==> o in Slots(s.g, p)
  {
    var l := s.lists[Page(p)];
    ChainIsDistinct(s.links, s.heads[Page(p)], l);
    forall o | o in l ensures o in Slots(s.g, p) {
      assert s.place[o] == Some(Page(p));
      assert AtHome(s.cpuPage, Page(p), s.home[o]);
      HomeIsSlab(s.g, s.inuse.Keys, s.home, o);
    }
  }

  lemma DropKeeps(s: Cache, p: nat)
    requires Valid(s) && p in s.inuse && p !in s.frozen && s.inuse[p] == 0
    ensures Page(p) in s.lists
    ensures Valid(Dropped(s, p))
    ensures LiveObjects(Dropped(s, p)) == LiveObjects(s)
    ensures Dropped(s, p).inuse.Keys == s.inuse.Keys - {p}
  {
    var l := s.lists[Page(p)];
    SlotFacts(s.g, p);
    OnPageAreSlots(s, p);
    AllSlots(l, Slots(s.g, p));
    DropLaid(s.g, s.inuse.Keys, s.home, p, l);
    DropThreaded(s.links, s.heads, s.lists, s.place, Page(p));
    DropFields(s, p);
    DropHomed(s, p);
  }

  /** `page->inuse` of a slab no CPU is using is zero exactly when none of its objects
      is live. */
  lemma EmptyIffNoneLive(s: Cache, p: nat)
    requires Valid(s) && p in s.inuse && p !in s.frozen
    ensures s.inuse[p] == 0 <==> forall o :: o in LiveObjects(s) ==> s.home[o] != p
  {
    SlotFacts(s.g, p);
    OnPageAreSlots(s, p);
    if s.inuse[p] == 0 {
      AllSlots(s.lists[Page(p)], Slots(s.g, p));
      NotLive(s, p);
    } else if forall o :: o in LiveObjects(s) ==> s.home[o] != p {
      NoneLiveAllOnPage(s, p);
      SameCount(s.lists[Page(p)], Slots(s.g, p));
    }
  }

  lemma SameCount(a: seq<nat>, b: seq<nat>)
    requires NoDuplicates(a) && NoDuplicates(b) && forall o :: o in a <==> o in b
    ensures |a| == |b|
  {
    DistinctCount(a);
    DistinctCount(b);
    assert Elements(a) == Elements(b);
  }

  lemma NotLive(s: Cache, p: nat)
    requires s.g < NCACHES && Laid(s.g, s.inuse.Keys, s.home) && Homed(s.home, s.cpuPage, s.place)
    requires Agree(s.lists, s.place) && Page(p) in s.lists
    requires forall o :: o in Slots(s.g, p) ==> o in s.lists[Page(p)]
    ensures forall o :: o in LiveObjects(s) ==> s.home[o] != p
  {
  }

  lemma NoneLiveAllOnPage(s: Cache, p: nat)
    requires s.g < NCACHES && Laid(s.g, s.inuse.Keys, s.home) && Homed(s.home, s.cpuPage, s.place)
    requires Agree(s.lists, s.place) && p in s.inuse && p !in s.frozen
    requires FrozenIffCurrent(s.inuse.Keys, s.frozen, s.cpuPage)
    requires forall o :: o in LiveObjects(s) ==> s.home[o] != p
    requires forall o :: o in Slots(s.g, p) ==> SlabOf(o) == p
    ensures forall o :: o in Slots(s.g, p) ==> Listed(s.lists, Page(p), o)
  {
    forall o | o in Slots(s.g, p) ensures Listed(s.lists, Page(p), o) {
      assert IsSlot(s.g, o) && o in s.home && s.home[o] == p;
      assert o !in LiveObjects(s);
      assert AtHome(s.cpuPage, s.place[o].value, p);
      assert Listed(s.lists, s.place[o].value, o);
    }
  }

  lemma DropLaid(g: nat, slabs: set<nat>, home: map<nat, nat>, p: nat, l: seq<nat>)
    requires g < NCACHES && Laid(g, slabs, home)
    requires forall o :: o in l <==> o in Slots(g, p)
    requires forall o :: o in Slots(g, p) ==> SlabOf(o) == p
    ensures Laid(g, slabs - {p}, home - (set o | o in l))
  {
  }

  lemma DropFields(s: Cache, p: nat)
    requires s.g < NCACHES && Holders(s.inuse.Keys, s.lists) && Counted(s.g, s.inuse, s.lists)
    requires FrozenIffCurrent(s.inuse.Keys, s.frozen, s.cpuPage)
    requires PartialExact(s.inuse.Keys, s.frozen, s.partial, s.lists)
    requires p in s.inuse && p !in s.frozen
    ensures var s' := Dropped(s, p);
            && s'.inuse.Keys == s.inuse.Keys - {p}
            && Holders(s'.inuse.Keys, s'.lists) && Counted(s'.g, s'.inuse, s'.lists)
            && FrozenIffCurrent(s'.inuse.Keys, s'.frozen, s'.cpuPage)
            && PartialExact(s'.inuse.Keys, s'.frozen, s'.partial, s'.lists)
  {
    WithoutFacts(s.partial, p);
    DropPartial(s.inuse.Keys, s.frozen, s.partial, s.lists, p);
  }

  lemma DropPartial(slabs: set<nat>, frozen: set<nat>, partial: seq<nat>, lists: map<Holder, seq<nat>>, p: nat)
    requires Holders(slabs, lists) && PartialExact(slabs, frozen, partial, lists)
    ensures Holders(slabs - {p}, lists - {Page(p)})
    ensures PartialExact(slabs - {p}, frozen, Without(partial, p), lists - {Page(p)})
  {
    WithoutFacts(partial, p);
  }

  lemma DropHomed(s: Cache, p: nat)
    requires Homed(s.home, s.cpuPage, s.place) && Agree(s.lists, s.place) && Page(p) in s.lists
    ensures Homed(Dropped(s, p).home, s.cpuPage, Dropped(s, p).place)
    ensures LiveObjects(Dropped(s, p)) == LiveObjects(s)
  {
  }

  function At(base: nat, size: nat, i: nat): nat {
    base + i * size
  }

  lemma AtNext(base: nat, size: nat, i: nat)
    ensures At(base, size, i) + size == At(base, size, i + 1)
  {
  }

  lemma {:induction false} AtAscends(base: nat, size: nat, i: nat, j: nat)
    requires size > 0 && i < j
    ensures At(base, size, i) < At(base, size, j)
    decreases j
  {
    AtNext(base, size, j - 1);
    if i < j - 1 { AtAscends(base, size, i, j - 1); }
  }

  lemma AtFacts(base: nat, size: nat, n: nat, i: nat)
    requires size > 0
    ensures At(base, size, i) + size == At(base, size, i + 1)
    ensures At(base, size, i) < At(base, size, n) <==> i < n
  {
    AtNext(base, size, i);
    if i < n { AtAscends(base, size, i, n); } else if n < i { AtAscends(base, size, n, i); }
  }

  /** `n` addresses from `base` on, `size` bytes apart. */
  ghost function Stride(base: nat, size: nat, n: nat): seq<nat> {
    seq(n, i requires 0 <= i < n => At(base, size, i))
  }

  lemma StrideFacts(base: nat, size: nat, n: nat)
    requires base > 0 && size > 0
    ensures NoDuplicates(Stride(base, size, n)) && forall o :: o in Stride(base, size, n) ==> o != 0
  {
    forall i, j | 0 <= i < j < n ensures Stride(base, size, n)[i] != Stride(base, size, n)[j] {
      AtAscends(base, size, i, j);
    }
  }

  ghost function NextOf(s: seq<nat>, n: nat, j: nat, tail: nat): nat
    requires n <= |s|
  {
    if j + 1 < n then s[j + 1] else tail
  }

  /** Slot `j` of the first `i` leads to the one behind it, the last to `tail`. */
  ghost predicate LinkedAt(links: map<nat, nat>, slots: seq<nat>, i: nat, j: int, tail: nat) {
    0 <= j < i <= |slots| && slots[j] in links && links[slots[j]] == NextOf(slots, i, j, tail)
  }

  /** The first `i` of `slots` are linked in order, the last of them to `tail`; nothing
      outside `slots` has changed. */
  ghost predicate LinkedUpTo(before: map<nat, nat>, links: map<nat, nat>, slots: seq<nat>, i: nat, tail: nat) {
    && i <= |slots|
    && (forall j {:trigger LinkedAt(links, slots, i, j, tail)} :: 0 <= j < i ==> LinkedAt(links, slots, i, j, tail))
    && (forall o :: o in before && o !in slots ==> o in links && links[o] == before[o])
  }

  lemma LinkOne(before: map<nat, nat>, links: map<nat, nat>, base: nat, size: nat, n: nat, i: nat)
    requires base > 0 && size > 0 && At(base, size, i) < At(base, size, n)
    requires LinkedUpTo(before, links, Stride(base, size, n), i, At(base, size, i))
    ensures i < n && At(base, size, i) + size == At(base, size, i + 1) && Stride(base, size, n)[i] == At(base, size, i)
    ensures LinkedUpTo(before, links[At(base, size, i) := At(base, size, i + 1)], Stride(base, size, n), i + 1,
                       At(base, size, i + 1))
  {
    AtFacts(base, size, n, i);
    StrideFacts(base, size, n);
    LinkStep(before, links, Stride(base, size, n), i, At(base, size, i + 1));
  }

  lemma LinkStep(before: map<nat, nat>, links: map<nat, nat>, slots: seq<nat>, i: nat, tail: nat)
    requires NoDuplicates(slots) && i < |slots| && LinkedUpTo(before, links, slots, i, slots[i])
    ensures LinkedUpTo(before, links[slots[i] := tail], slots, i + 1, tail)
  {
    var links' := links[slots[i] := tail];
    assert slots[i] in slots;
    forall o | o in before && o !in slots ensures o in links' && links'[o] == before[o] {
      assert o != slots[i];
    }
    var n := i + 1;
    forall j | 0 <= j < n ensures LinkedAt(links', slots, n, j, tail) {
      assert j < i ==> LinkedAt(links, slots, i, j, slots[i]);
    }
  }

  lemma LinkLast(before: map<nat, nat>, links: map<nat, nat>, slots: seq<nat>, tail: nat)
    requires slots != [] && NoDuplicates(slots) && LinkedUpTo(before, links, slots, |slots|, tail)
    requires forall j :: 0 <= j < |slots| ==> slots[j] != 0
    ensures var links' := links[slots[|slots| - 1] := 0];
            && Chain(links', slots[0], slots)
            && forall o :: o in before && o !in slots ==> o in links' && links'[o] == before[o]
  {
    var links' := links[slots[|slots| - 1] := 0];
    forall j | 0 <= j < |slots| ensures slots[j] in links' && links'[slots[j]] == NextOf(slots, |slots|, j, 0) {
      assert LinkedAt(links, slots, |slots|, j, tail);
    }
    ChainFromLinks(links', slots, 0);
    assert slots[0..] == slots;
  }

  lemma LinkEnd(before: map<nat, nat>, links: map<nat, nat>, base: nat, size: nat, n: nat)
    requires base > 0 && size > 0 && n > 0
    requires LinkedUpTo(before, links, Stride(base, size, n), n, At(base, size, n))
    ensures var done := links[At(base, size, n - 1) := 0];
            && Chain(done, base, Stride(base, size, n))
            && forall o :: o in before && o !in Stride(base, size, n) ==> o in done && done[o] == before[o]
  {
    var slots := Stride(base, size, n);
    StrideFacts(base, size, n);
    assert slots[0] == base && slots[n - 1] == At(base, size, n - 1);
    LinkLast(before, links, slots, At(base, size, n));
  }

  lemma {:induction false} ChainFromLinks(links: map<nat, nat>, s: seq<nat>, k: nat)
    requires k <= |s| && NoDuplicates(s)
    requires forall j :: 0 <= j < |s| ==> s[j] != 0 && s[j] in links
    requires forall j :: 0 <= j < |s| ==> links[s[j]] == NextOf(s, |s|, j, 0)
    ensures Chain(links, if k < |s| then s[k] else 0, s[k..])
    decreases |s| - k
  {
    if k == |s| {
      assert s[k..] == [];
    } else {
      ChainFromLinks(links, s, k + 1);
      assert s[k..] != [] && s[k..][0] == s[k] && s[k..][1..] == s[k + 1..];
      var t := s[k + 1..];
      assert forall j :: 0 <= j < |t| ==> t[j] == s[k + 1 + j] != s[k];
      assert links[s[k]] == NextOf(s, |s|, k, 0);
      assert s[k] !in t;
    }
  }

  lemma CurrentIsSlab(s: Cache, c: nat)
    requires Valid(s) && c < CPUNUMS
    ensures s.cpuPage[c].Some? ==> s.cpuPage[c].value in s.inuse && Page(s.cpuPage[c].value) in s.heads
  {
  }

  /** Nothing left for CPU `c`: its freelist, its page's freelist and the partial list
      are empty. */
  ghost predicate Exhausted(s: Cache, c: nat) {
    && s.partial == [] && (Cpu(c) in s.heads ==> s.heads[Cpu(c)] == 0)
    && (c < |s.cpuPage| && s.cpuPage[c].Some? && Page(s.cpuPage[c].value) in s.heads
        ==> s.heads[Page(s.cpuPage[c].value)] == 0)
  }

  /** With its own freelist empty, a CPU's page and the partial list decide. */
  lemma ExhaustedIff(s: Cache, c: nat)
    requires Valid(s) && c < CPUNUMS && Cpu(c) in s.heads && s.heads[Cpu(c)] == 0
    ensures s.cpuPage[c].Some? ==> s.cpuPage[c].value in s.inuse && Page(s.cpuPage[c].value) in s.heads
    ensures var full := s.cpuPage[c].Some? && s.heads[Page(s.cpuPage[c].value)] != 0;
            Exhausted(s, c) <==> !full && s.partial == []
  {
    CurrentIsSlab(s, c);
  }

  /** What the buddy allocator may return: NULL, or a fresh order-10 block. */
  ghost predicate Offered(offer: Option<nat>, slabs: set<nat>) {
    offer.Some? ==> offer.value !in slabs && Buddy.WellPlaced(Buddy.Block(offer.value, SLABORDER))
  }

  /** The result of an allocation: NULL exactly when the cache had nothing and the buddy
      allocator refused; otherwise an object that was not in use, and a new slab exactly
      when the cache had nothing. */
  ghost predicate Outcome(s: Cache, s': Cache, nothing: bool, offer: Option<nat>, o: nat) {
    && (o == 0 <==> nothing && offer.None?)
    && (o == 0 ==> LiveObjects(s') == LiveObjects(s))
    && (o != 0 ==> o !in LiveObjects(s) && LiveObjects(s') == LiveObjects(s) + {o})
    && s'.inuse.Keys == s.inuse.Keys + if nothing && offer.Some? then {offer.value} else {}
  }

  /** `o` is the only live object of a slab that is not the current page of any CPU. */
  ghost predicate LastLive(s: Cache, o: nat) {
    && o in s.home && s.home[o] !in s.frozen
    && forall x :: x in LiveObjects(s) && x in s.home && s.home[x] == s.home[o] ==> x == o
  }

  lemma EmptySlabIsPartial(s: Cache, p: nat)
    requires Valid(s) && p in s.inuse && p !in s.frozen && s.inuse[p] == 0
    ensures p in s.partial
  {
    Geometry(s.g);
  }

  lemma LiveIsSlot(s: Cache, o: nat)
    requires Valid(s) && o in LiveObjects(s)
    ensures o >= KERNEL_BASE && s.home[o] == GetSlab(o) && s.home[o] in s.inuse
  {
    HomeIsSlab(s.g, s.inuse.Keys, s.home, o);
    SlotIsKernelAddress(s.g, s.home[o], o);
  }

  lemma SlotIsKernelAddress(g: nat, p: nat, o: nat)
    requires g < NCACHES && o in Slots(g, p)
    ensures o >= KERNEL_BASE
  {
  }

  lemma LiveHaveHomes(s: Cache)
    requires Valid(s)
    ensures LiveObjects(s) <= s.home.Keys
  {
  }

  lemma LastLiveAfter(s: Cache, live': set<nat>, o: nat, p: nat)
    requires o in s.home && s.home[o] == p && p !in s.frozen
    requires live' == LiveObjects(s) - {o} && LiveObjects(s) <= s.home.Keys
    ensures LastLive(s, o) <==> forall x :: x in live' ==> s.home[x] != p
  {
  }

  // --- The code ---

  class MemCache {
    const g: nat
    var heads: map<Holder, nat>
    var links: map<nat, nat>
    var cpuPage: seq<Option<nat>>
    var inuse: map<nat, int>
    var frozen: set<nat>
    var partial: seq<nat>
    var npartial: int
    ghost var lists: map<Holder, seq<nat>>
    ghost var place: map<nat, Option<Holder>>
    ghost var home: map<nat, nat>

    ghost function S(): Cache
      reads this
    {
      Cache(g, heads, links, cpuPage, inuse, frozen, partial, lists, place, home)
    }

    /** The invariant, with the counter of the partial list. */
    ghost predicate Ok()
      reads this
    {
      Valid(S()) && npartial == |partial|
    }

    /** `kmem_cache_init` for one cache */
    constructor (cache: nat)
      requires cache < NCACHES
      ensures Ok() && g == cache && inuse == map[] && LiveObjects(S()) == {}
    {
      g := cache;
      heads := map c: nat | c < CPUNUMS :: Cpu(c) := 0;
      lists := map c: nat | c < CPUNUMS :: Cpu(c) := [];
      links, inuse, frozen, partial, npartial := map[], map[], {}, [], 0;
      cpuPage := seq(CPUNUMS, _ => None);
      place, home := map[], map[];
    }

    /** Pop the CPU's freelist. */
    method Pop(c: nat) returns (o: nat)
      requires Cpu(c) in heads && Cpu(c) in lists && heads[Cpu(c)] in links && lists[Cpu(c)] != []
      modifies this
      ensures S() == Popped(old(S()), c) && o == old(heads[Cpu(c)]) && npartial == old(npartial)
    {
      o := heads[Cpu(c)];
      heads := heads[Cpu(c) := links[o]];
      lists := lists[Cpu(c) := lists[Cpu(c)][1..]];
      place := place[o := None];
    }

    /** Label `load_slab` of `_slab_alloc`, when the page's freelist is not empty. */
    method Load(c: nat, p: nat) returns (o: nat)
      requires g < NCACHES && Page(p) in heads && Page(p) in lists && heads[Page(p)] in links && lists[Page(p)] != []
      modifies this
      ensures S() == Popped(Loaded(old(S()), c, p), c) && o == old(heads[Page(p)]) && npartial == old(npartial)
    {
      o := heads[Page(p)];
      heads := heads[Cpu(c) := links[o]][Page(p) := 0];
      inuse := inuse[p := Objects(g)];
      place := Moved(place, Page(p), Cpu(c))[o := None];
      lists := lists[Cpu(c) := lists[Page(p)][1..]][Page(p) := []];
    }

    /** `slab_alloc` when the CPU's freelist is not empty. */
    method AllocFast(c: nat) returns (o: nat)
      requires Ok() && c < CPUNUMS && heads[Cpu(c)] != 0
      modifies this
      ensures Ok() && inuse == old(inuse)
      ensures o != 0 && o !in old(LiveObjects(S())) && LiveObjects(S()) == old(LiveObjects(S())) + {o}
    {
      PopKeeps(S(), c);
      o := Pop(c);
    }

    /** The loop of `new_slab_init`: link each slot to the next. */
    method LinkSlots(base: nat, size: nat, n: nat) returns (obj: nat)
      requires base > 0 && size > 0 && n > 0
      modifies this`links
      ensures obj == At(base, size, n - 1)
      ensures LinkedUpTo(old(links), links, Stride(base, size, n), n, At(base, size, n))
    {
      var start, end := base, At(base, size, n);
      obj := 0;
      ghost var i := 0;
      while start < end
        invariant 0 <= i <= n && start == At(base, size, i)
        invariant i > 0 ==> obj == At(base, size, i - 1)
        invariant LinkedUpTo(old(links), links, Stride(base, size, n), i, At(base, size, i))
        decreases n - i
      {
        LinkOne(old(links), links, base, size, n, i);
        obj := start;
        links := links[obj := start + size];
        start := start + size;
        i := i + 1;
      }
      AtFacts(base, size, n, i);
    }

    /** The last slot links to NULL. */
    method Thread(base: nat, size: nat, n: nat)
      requires base > 0 && size > 0 && n > 0
      modifies this`links
      ensures Chain(links, base, Stride(base, size, n))
      ensures forall o :: o in old(links) && o !in Stride(base, size, n) ==> o in links && links[o] == old(links)[o]
    {
      var obj := LinkSlots(base, size, n);
      LinkEnd(old(links), links, base, size, n);
      links := links[obj := 0];
    }

    /** `new_slab_init` */
    method NewSlabInit(p: nat)
      requires g < NCACHES
      modifies this`links
      ensures Chain(links, SlabBase(p), Slots(g, p))
      ensures forall o :: o in old(links) && o !in Slots(g, p) ==> o in links && links[o] == old(links)[o]
    {
      Geometry(g);
      Thread(SlabBase(p), SlotSize(g), Objects(g));
      assert Slots(g, p) == Stride(SlabBase(p), SlotSize(g), Objects(g));
    }

    /** `get_partial_slab` and the assignment of the CPU's page. */
    method TakePartial(c: nat) returns (p: nat)
      requires c < |cpuPage| && partial != []
      modifies this
      ensures S() == Activated(old(S()), c) && p == old(partial[0]) && npartial == old(npartial) - 1
    {
      p := partial[0];
      partial := partial[1..];
      npartial := npartial - 1;
      frozen := frozen + {p};
      cpuPage := cpuPage[c := Some(p)];
    }

    /** `new_slab` and the assignment of the CPU's page. */
    method TakeNew(c: nat, p: nat)
      requires g < NCACHES && c < |cpuPage|
      modifies this
      ensures Chain(links, SlabBase(p), Slots(g, p))
      ensures forall o :: o in old(links) && o !in Slots(g, p) ==> o in links && links[o] == old(links)[o]
      ensures S() == Grown(old(S()), links, c, p) && npartial == old(npartial)
    {
      NewSlabInit(p);
      SetNew(c, p);
    }

    method SetNew(c: nat, p: nat)
      requires g < NCACHES && c < |cpuPage|
      modifies this
      ensures S() == Grown(old(S()), old(links), c, p) && npartial == old(npartial)
    {
      heads := heads[Page(p) := SlabBase(p)];
      inuse := inuse[p := 0];
      cpuPage := cpuPage[c := Some(p)];
      frozen := frozen + {p};
      lists := lists[Page(p) := Slots(g, p)];
      place := Added(place, Slots(g, p), Page(p));
      home := HomeWith(home, Slots(g, p), p);
    }

    /** `deactivate_slab` and `unfreeze_slab`: called with both freelists empty, so no
        object is moved and the full slab is left off every list. */
    method Deactivate(c: nat, p: nat)
      requires Ok() && c < CPUNUMS && cpuPage[c] == Some(p) && heads[Cpu(c)] == 0
      requires Page(p) in heads && heads[Page(p)] == 0
      modifies this`cpuPage, this`frozen
      ensures Ok() && cpuPage[c] == None && LiveObjects(S()) == old(LiveObjects(S()))
    {
      DeactivateKeeps(S(), c, p);
      assert inuse[p] != 0 && heads[Page(p)] == 0;
      DropCurrent(c, p);
    }

    method DropCurrent(c: nat, p: nat)
      requires c < |cpuPage|
      modifies this`cpuPage, this`frozen
      ensures S() == Deactivated(old(S()), c, p)
    {
      cpuPage := cpuPage[c := None];
      frozen := frozen - {p};
    }

    /** `load_slab` under the invariant */
    method LoadCurrent(c: nat, p: nat) returns (o: nat)
      requires Ok() && c < CPUNUMS && heads[Cpu(c)] == 0 && cpuPage[c] == Some(p)
      requires Page(p) in heads && heads[Page(p)] != 0
      modifies this
      ensures Ok() && inuse.Keys == old(inuse.Keys)
      ensures o != 0 && o !in old(LiveObjects(S())) && LiveObjects(S()) == old(LiveObjects(S())) + {o}
    {
      LoadKeeps(S(), c, p);
      PopKeeps(Loaded(S(), c, p), c);
      o := Load(c, p);
    }

    /** Label `new_slab` of `_slab_alloc`, when there is a partial slab. */
    method AllocFromPartial(c: nat) returns (o: nat)
      requires Ok() && c < CPUNUMS && heads[Cpu(c)] == 0 && cpuPage[c] == None && partial != []
      modifies this
      ensures Ok() && inuse.Keys == old(inuse.Keys)
      ensures o != 0 && o !in old(LiveObjects(S())) && LiveObjects(S()) == old(LiveObjects(S())) + {o}
    {
      ActivateKeeps(S(), c);
      var p := TakePartial(c);
      o := LoadCurrent(c, p);
    }

    /** Label `new_slab` of `_slab_alloc`, when the buddy allocator supplies page `p`. */
    method AllocFromNew(c: nat, p: nat) returns (o: nat)
      requires Ok() && c < CPUNUMS && heads[Cpu(c)] == 0 && cpuPage[c] == None
      requires p !in inuse && Buddy.WellPlaced(Buddy.Block(p, SLABORDER))
      modifies this
      ensures Ok() && inuse.Keys == old(inuse.Keys) + {p}
      ensures o != 0 && o !in old(LiveObjects(S())) && LiveObjects(S()) == old(LiveObjects(S())) + {o}
    {
      TakeNewKeeps(c, p);
      o := LoadCurrent(c, p);
    }

    method TakeNewKeeps(c: nat, p: nat)
      requires Ok() && c < CPUNUMS && cpuPage[c] == None
      requires p !in inuse && Buddy.WellPlaced(Buddy.Block(p, SLABORDER))
      modifies this
      ensures Ok() && inuse.Keys == old(inuse.Keys) + {p} && LiveObjects(S()) == old(LiveObjects(S()))
      ensures heads == old(heads)[Page(p) := SlabBase(p)] && cpuPage[c] == Some(p)
    {
      ghost var s := S();
      TakeNew(c, p);
      GrowKeeps(s, links, c, p);
    }

    /** Label `new_slab` of `_slab_alloc`. */
    method AllocFromNextSlab(c: nat, offer: Option<nat>) returns (o: nat)
      requires Ok() && c < CPUNUMS && heads[Cpu(c)] == 0 && cpuPage[c] == None
      requires Offered(offer, inuse.Keys)
      modifies this
      ensures Ok()
      ensures Outcome(old(S()), S(), old(partial) == [], offer, o)
    {
      if npartial != 0 {
        o := AllocFromPartial(c);
      } else if offer.Some? {
        o := AllocFromNew(c, offer.value);
      } else {
        o := 0;
      }
    }

    /** `_slab_alloc` */
    method AllocSlow(c: nat, offer: Option<nat>) returns (o: nat)
      requires Ok() && c < CPUNUMS && heads[Cpu(c)] == 0 && Offered(offer, inuse.Keys)
      modifies this
      ensures Ok()
      ensures Outcome(old(S()), S(), Exhausted(old(S()), c), offer, o)
    {
      ExhaustedIff(S(), c);
      if cpuPage[c].Some? && heads[Page(cpuPage[c].value)] != 0 {
        o := LoadCurrent(c, cpuPage[c].value);
      } else {
        o := AllocAnew(c, offer);
      }
    }

    /** The rest of `_slab_alloc`, when the CPU's page has nothing either. */
    method AllocAnew(c: nat, offer: Option<nat>) returns (o: nat)
      requires Ok() && c < CPUNUMS && heads[Cpu(c)] == 0 && Offered(offer, inuse.Keys)
      requires cpuPage[c].Some? ==> Page(cpuPage[c].value) in heads && heads[Page(cpuPage[c].value)] == 0
      modifies this
      ensures Ok()
      ensures Outcome(old(S()), S(), old(partial) == [], offer, o)
    {
      if cpuPage[c].Some? {
        Deactivate(c, cpuPage[c].value);
      }
      o := AllocFromNextSlab(c, offer);
    }

    /** `slab_alloc`. `offer` is what the buddy allocator would return for an order-10
        request. */
    method SlabAlloc(c: nat, offer: Option<nat>) returns (o: nat)
      requires Ok() && c < CPUNUMS && Offered(offer, inuse.Keys)
      modifies this
      ensures Ok()
      ensures Outcome(old(S()), S(), Exhausted(old(S()), c), offer, o)
    {
      if heads[Cpu(c)] != 0 {
        o := AllocFast(c);
      } else {
        o := AllocSlow(c, offer);
      }
    }

    /** Push on the freelist of `h`: the link word, then the head. */
    method Push(h: Holder, o: nat)
      requires h in heads && h in lists
      modifies this`links, this`heads, this`lists, this`place
      ensures S() == Pushed(old(S()), h, o)
    {
      links := links[o := heads[h]];
      heads := heads[h := o];
      lists := lists[h := [o] + lists[h]];
      place := place[o := Some(h)];
    }

    /** `slab_free` on the CPU whose current page holds the object. */
    method FreeLocal(c: nat, o: nat)
      requires Ok() && c < CPUNUMS && o in LiveObjects(S()) && o != 0 && cpuPage[c] == Some(home[o])
      modifies this
      ensures Ok() && inuse == old(inuse) && LiveObjects(S()) == old(LiveObjects(S())) - {o}
    {
      PushCpuKeeps(S(), c, o);
      Push(Cpu(c), o);
    }

    /** The first half of `_slab_free`: push on the page and, for an unfrozen slab that had
        nothing free, `add_partial`. */
    method PushOnPage(p: nat, o: nat)
      requires Page(p) in heads && Page(p) in lists && p in inuse
      requires g < NCACHES && (heads[Page(p)] == 0 ==> inuse[p] == Objects(g))
      modifies this
      ensures S() == Returned(old(S()), p, o) && npartial == old(npartial) + |partial| - |old(partial)|
    {
      var prior := heads[Page(p)];
      Push(Page(p), o);
      inuse := inuse[p := inuse[p] - 1];
      if p !in frozen && prior == 0 {
        assert inuse[p] == Objects(g) - 1;
        npartial := npartial + 1;
        partial := [p] + partial;
      }
    }

    /** `remove_partial` and `discard_slab` */
    method Discard(p: nat)
      requires Ok() && p in inuse && p !in frozen && inuse[p] == 0
      modifies this
      ensures Ok() && inuse.Keys == old(inuse.Keys) - {p} && LiveObjects(S()) == old(LiveObjects(S()))
    {
      DropKeeps(S(), p);
      EmptySlabIsPartial(S(), p);
      WithoutFacts(partial, p);
      Unlist(p);
    }

    method Unlist(p: nat)
      requires Page(p) in lists
      modifies this
      ensures S() == Dropped(old(S()), p) && npartial == old(npartial) - 1
    {
      npartial := npartial - 1;
      partial := Without(partial, p);
      ghost var gone := set o | o in lists[Page(p)];
      place, home := place - gone, home - gone;
      heads, lists := heads - {Page(p)}, lists - {Page(p)};
      inuse := inuse - {p};
    }

    /** `_slab_free`: the slab goes back to the buddy allocator exactly when no CPU is using
        it and the object was its last live one. */
    method FreeRemote(p: nat, o: nat)
      requires Ok() && o in LiveObjects(S()) && o != 0 && home[o] == p && p in inuse
      modifies this
      ensures Ok() && LiveObjects(S()) == old(LiveObjects(S())) - {o}
      ensures inuse.Keys == old(inuse.Keys) - if LastLive(old(S()), o) then {p} else {}
    {
      ghost var s := S();
      LiveHaveHomes(s);
      ReturnToPage(p, o);
      if p !in frozen {
        LastLiveAfter(s, LiveObjects(S()), o, p);
        DiscardIfEmpty(p);
      } else {
        assert !LastLive(s, o);
      }
    }

    /** The first half of `_slab_free`. */
    method ReturnToPage(p: nat, o: nat)
      requires Ok() && o in LiveObjects(S()) && o != 0 && home[o] == p && p in inuse
      modifies this
      ensures Ok() && LiveObjects(S()) == old(LiveObjects(S())) - {o}
      ensures inuse.Keys == old(inuse.Keys) && home == old(home) && frozen == old(frozen)
    {
      ReturnKeeps(S(), p, o);
      FirstReturned(S(), p, o);
      PushOnPage(p, o);
    }

    /** The second half of `_slab_free`, for an unfrozen slab. */
    method DiscardIfEmpty(p: nat)
      requires Ok() && p in inuse && p !in frozen
      modifies this
      ensures Ok() && LiveObjects(S()) == old(LiveObjects(S()))
      ensures inuse.Keys == old(inuse.Keys) -
        if forall x :: x in old(LiveObjects(S())) ==> old(home)[x] != p then {p} else {}
    {
      EmptyIffNoneLive(S(), p);
      if inuse[p] == 0 {
        Discard(p);
      }
    }

    /** `kfree`: nothing for NULL; else find the slab from the address, then free on the CPU or to
        the page. */
    method Kfree(c: nat, o: nat)
      requires Ok() && c < CPUNUMS && (o == 0 || o in LiveObjects(S()))
      modifies this
      ensures Ok()
      ensures o == 0 ==> S() == old(S())
      ensures o != 0 ==> LiveObjects(S()) == old(LiveObjects(S())) - {o}
      ensures o != 0 ==> inuse.Keys == old(inuse.Keys) - if LastLive(old(S()), o) then {SlabOf(o)} else {}
    {
      if o == 0 {
        return;
      }
      LiveIsSlot(S(), o);
      var p := GetSlab(o);
      if cpuPage[c] == Some(p) {
        FreeLocal(c, o);
      } else {
        FreeRemote(p, o);
      }
    }
  }
}
