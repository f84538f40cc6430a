/** The search tree of memory areas, as a value: which area `find_vma` returns, and when
    that decides whether an address is mapped (kernel/mm/mm.c, kernel/trap/page_fault.c). */
module VmaTree {
  import opened Wrappers

  /** The addresses `[start, end)`. */
  datatype Vma = Vma(start: nat, end: nat)

  datatype Tree = Leaf | Branch(id: nat, vma: Vma, left: Tree, right: Tree)

  ghost function Areas(t: Tree): set<Vma> {
    match t
    case Leaf => {}
    case Branch(_, v, l, r) => {v} + Areas(l) + Areas(r)
  }

  predicate Inside(addr: nat, v: Vma) {
    v.start <= addr < v.end
  }

  predicate Empty(v: Vma) {
    v.start == v.end
  }

  /** Search-tree order on `vm_end`; equal ends go right. */
  ghost predicate Sorted(t: Tree) {
    match t
    case Leaf => true
    case Branch(_, v, l, r) =>
      && Sorted(l) && Sorted(r)
      && (forall a :: a in Areas(l) ==> a.end < v.end)
      && (forall a :: a in Areas(r) ==> v.end <= a.end)
  }

  ghost predicate Apart(a: Vma, b: Vma) {
    a.end <= b.start || b.end <= a.start
  }

  /** The areas are intervals, pairwise disjoint. */
  ghost predicate Separate(s: set<Vma>) {
    && (forall a :: a in s ==> a.start <= a.end)
    && (forall a, b :: a in s && b in s && a != b ==> Apart(a, b))
  }

  /** `find_vma`, from the subtree `t` with the best area so far. */
  function Find(t: Tree, addr: nat, best: Option<Vma>): Option<Vma> {
    match t
    case Leaf => best
    case Branch(_, v, l, r) =>
      if v.end > addr then (if v.start <= addr then Some(v) else Find(l, addr, Some(v)))
      else Find(r, addr, best)
  }

  /** The insertion half of `vm_link`. */
  function Insert(t: Tree, id: nat, v: Vma): Tree {
    match t
    case Leaf => Branch(id, v, Leaf, Leaf)
    case Branch(i, u, l, r) =>
      if u.end > v.end then Branch(i, u, Insert(l, id, v), r) else Branch(i, u, l, Insert(r, id, v))
  }

  lemma {:induction false} InsertAreas(t: Tree, id: nat, v: Vma)
    ensures Areas(Insert(t, id, v)) == Areas(t) + {v}
  {
    match t
    case Leaf =>
    case Branch(i, u, l, r) =>
      if u.end > v.end { InsertAreas(l, id, v); } else { InsertAreas(r, id, v); }
  }

  lemma {:induction false} InsertSorted(t: Tree, id: nat, v: Vma)
    requires Sorted(t)
    ensures Sorted(Insert(t, id, v))
  {
    match t
    case Leaf =>
    case Branch(i, u, l, r) =>
      if u.end > v.end {
        InsertSorted(l, id, v);
        InsertAreas(l, id, v);
      } else {
        InsertSorted(r, id, v);
        InsertAreas(r, id, v);
      }
  }

  /** An empty area hides a non-empty one that ends at the same address and was linked
      below it: the search for the hidden area's addresses turns left at the empty one. */
  ghost predicate NoneHidden(t: Tree) {
    match t
    case Leaf => true
    case Branch(_, v, l, r) =>
      && NoneHidden(l) && NoneHidden(r)
      && (Empty(v) ==> forall a :: a in Areas(r) && a.end == v.end ==> Empty(a))
  }

  /** `r` is the lowest area that ends above `addr`: every other one lies entirely above it. */
  ghost predicate Lowest(s: set<Vma>, addr: nat, r: Option<Vma>) {
    match r
    case None => forall a :: a in s ==> a.end <= addr
    case Some(v) => v in s && addr < v.end && forall a :: a in s && a.end > addr && a != v ==> v.end <= a.start
  }

  lemma {:induction false} FindLowest(t: Tree, addr: nat)
    requires Sorted(t) && Separate(Areas(t)) && NoneHidden(t)
    ensures Lowest(Areas(t), addr, Find(t, addr, None))
  {
    match t
    case Leaf =>
    case Branch(_, v, l, r) =>
      if v.end <= addr {
        FindLowest(r, addr);
      } else if v.start <= addr {
        forall a | a in Areas(t) && a.end > addr && a != v ensures v.end <= a.start {
          assert Apart(a, v);
        }
      } else {
        FindLowest(l, addr);
        FindBest(l, addr, Some(v));
        if Find(l, addr, None).None? {
          LowestIsNode(t, addr);
        } else {
          LowestIsLeft(t, addr, Find(l, addr, None).value);
        }
      }
  }

  lemma LowestIsNode(t: Tree, addr: nat)
    requires t.Branch? && Sorted(t) && Separate(Areas(t)) && NoneHidden(t)
    requires addr < t.vma.start && Lowest(Areas(t.left), addr, None)
    ensures Lowest(Areas(t), addr, Some(t.vma))
  {
    forall a | a in Areas(t) && a.end > addr && a != t.vma ensures t.vma.end <= a.start {
      assert Apart(a, t.vma);
      assert a in Areas(t.right);
    }
  }

  lemma LowestIsLeft(t: Tree, addr: nat, w: Vma)
    requires t.Branch? && Sorted(t) && Separate(Areas(t)) && addr < t.vma.end
    requires Lowest(Areas(t.left), addr, Some(w))
    ensures Lowest(Areas(t), addr, Some(w))
  {
    forall a | a in Areas(t) && a.end > addr && a != w ensures w.end <= a.start {
      assert Apart(a, w);
      assert a !in Areas(t.left) ==> w.end < t.vma.end <= a.end;
    }
  }

  /** The fallback matters only when the subtree has nothing. */
  lemma {:induction false} FindBest(t: Tree, addr: nat, b: Option<Vma>)
    ensures Find(t, addr, b) == if Find(t, addr, None).None? then b else Find(t, addr, None)
  {
    match t
    case Leaf =>
    case Branch(_, v, l, r) =>
      if v.end <= addr {
        FindBest(r, addr, b);
      } else if v.start > addr {
        FindBest(l, addr, Some(v));
      }
  }

  /** The fault handler's test: the area found contains the address. */
  predicate Accepts(t: Tree, addr: nat) {
    var r := Find(t, addr, None);
    r.Some? && r.value.start <= addr
  }

  ghost predicate Mapped(t: Tree, addr: nat) {
    exists a :: a in Areas(t) && Inside(addr, a)
  }

  /** The test is right for every address. */
  ghost predicate Decides(t: Tree) {
    forall addr :: Accepts(t, addr) <==> Mapped(t, addr)
  }

  lemma {:induction false} FindFrom(t: Tree, addr: nat, b: Option<Vma>)
    ensures var r := Find(t, addr, b); r == b || (r.Some? && r.value in Areas(t) && r.value.end > addr)
  {
    match t
    case Leaf =>
    case Branch(_, v, l, r) =>
      if v.end > addr { FindFrom(l, addr, Some(v)); } else { FindFrom(r, addr, b); }
  }

  /** A non-empty area hidden below an empty one with the same end. */
  ghost predicate Hidden(t: Tree, w: Vma) {
    match t
    case Leaf => false
    case Branch(_, v, l, r) => (Empty(v) && v.end == w.end && w in Areas(r)) || Hidden(l, w) || Hidden(r, w)
  }

  lemma {:induction false} HiddenWitness(t: Tree) returns (w: Vma)
    requires !NoneHidden(t)
    ensures w in Areas(t) && !Empty(w) && Hidden(t, w)
  {
    match t
    case Branch(_, v, l, r) =>
      if !NoneHidden(l) {
        w := HiddenWitness(l);
      } else if !NoneHidden(r) {
        w := HiddenWitness(r);
      } else {
        w :| w in Areas(r) && w.end == v.end && !Empty(w);
      }
  }

  lemma {:induction false} HiddenInside(t: Tree, w: Vma)
    requires Hidden(t, w)
    ensures w in Areas(t)
  {
    match t
    case Branch(_, v, l, r) =>
      if Hidden(l, w) { HiddenInside(l, w); } else if Hidden(r, w) { HiddenInside(r, w); }
  }

  /** No non-empty area is linked twice. */
  ghost predicate Unique(t: Tree) {
    match t
    case Leaf => true
    case Branch(_, v, l, r) => Unique(l) && Unique(r) && (Empty(v) || v !in Areas(r))
  }

  ghost predicate Good(t: Tree) {
    Sorted(t) && Unique(t) && Separate(Areas(t))
  }

  /** The search for a hidden area's first address never reaches it. */
  lemma {:induction false} HiddenNotFound(t: Tree, w: Vma, b: Option<Vma>)
    requires Sorted(t) && Unique(t) && Hidden(t, w) && w.start < w.end && b != Some(w)
    ensures Find(t, w.start, b) != Some(w)
  {
    HiddenInside(t, w);
    match t
    case Branch(_, v, l, r) =>
      if Hidden(l, w) { HiddenInside(l, w); } else if Hidden(r, w) { HiddenInside(r, w); }
      if v.end > w.start && v.start > w.start {
        if Hidden(l, w) { HiddenNotFound(l, w, Some(v)); } else { FindFrom(l, w.start, Some(v)); }
      } else if v.end <= w.start {
        if Hidden(r, w) { HiddenNotFound(r, w, b); } else { FindFrom(r, w.start, b); }
      }
  }

  /** The fault handler's test decides membership exactly when no area is hidden. */
  lemma DecidesIffNoneHidden(t: Tree)
    requires Good(t)
    ensures Decides(t) <==> NoneHidden(t)
  {
    if NoneHidden(t) {
      forall addr ensures Accepts(t, addr) <==> Mapped(t, addr) {
        FindLowest(t, addr);
      }
    } else {
      var w := HiddenWitness(t);
      HiddenNotFound(t, w, None);
      FindFrom(t, w.start, None);
      assert Inside(w.start, w) && Mapped(t, w.start);
      assert Accepts(t, w.start) ==> Apart(Find(t, w.start, None).value, w);
      assert !Accepts(t, w.start);
    }
  }

  lemma {:induction false} InsertUnique(t: Tree, id: nat, v: Vma)
    requires Unique(t) && (Empty(v) || v !in Areas(t))
    ensures Unique(Insert(t, id, v))
  {
    match t
    case Leaf =>
    case Branch(i, u, l, r) =>
      if u.end > v.end {
        InsertUnique(l, id, v);
      } else {
        InsertUnique(r, id, v);
        InsertAreas(r, id, v);
      }
  }

  /** The new area is non-empty and an empty one already ends where it ends. */
  ghost predicate Clash(s: set<Vma>, v: Vma) {
    !Empty(v) && exists e :: e in s && Empty(e) && e.end == v.end
  }

  lemma {:induction false} InsertHidesIff(t: Tree, id: nat, v: Vma)
    requires Sorted(t)
    ensures NoneHidden(Insert(t, id, v)) <==> NoneHidden(t) && !Clash(Areas(t), v)
  {
    match t
    case Leaf =>
    case Branch(i, u, l, r) =>
      if u.end > v.end {
        InsertHidesIff(l, id, v);
        assert Clash(Areas(t), v) <==> Clash(Areas(l), v);
      } else {
        InsertHidesIff(r, id, v);
        InsertAreas(r, id, v);
        assert Clash(Areas(t), v) <==> Clash(Areas(r), v) || (!Empty(v) && Empty(u) && u.end == v.end);
      }
  }

  lemma {:induction false} DoubleStays(t: Tree, id: nat, v: Vma)
    requires !Unique(t)
    ensures !Unique(Insert(t, id, v))
  {
    match t
    case Branch(i, u, l, r) =>
      if u.end > v.end {
        if !Unique(l) { DoubleStays(l, id, v); }
      } else {
        if !Unique(r) { DoubleStays(r, id, v); }
        InsertAreas(r, id, v);
      }
  }

  /** A tree with overlapping or hidden areas keeps them. */
  lemma UnsoundStays(t: Tree, id: nat, v: Vma)
    requires Sorted(t) && !(Good(t) && NoneHidden(t))
    ensures !(Good(Insert(t, id, v)) && NoneHidden(Insert(t, id, v)))
  {
    InsertAreas(t, id, v);
    InsertHidesIff(t, id, v);
    if !Unique(t) { DoubleStays(t, id, v); }
  }

  /** Linking a new area keeps the fault handler's test right exactly when the area is
      empty or no empty area ends at the same address. */
  lemma LinkDecidesIff(t: Tree, id: nat, v: Vma)
    requires Good(t) && Decides(t) && v.start <= v.end && forall a :: a in Areas(t) ==> Apart(a, v)
    ensures Good(Insert(t, id, v))
    ensures Decides(Insert(t, id, v)) <==> !Clash(Areas(t), v)
  {
    LinkGood(t, id, v);
    DecidesIffNoneHidden(t);
    DecidesIffNoneHidden(Insert(t, id, v));
    InsertHidesIff(t, id, v);
  }

  lemma LinkGood(t: Tree, id: nat, v: Vma)
    requires Good(t) && v.start <= v.end && forall a :: a in Areas(t) ==> Apart(a, v)
    ensures Good(Insert(t, id, v))
  {
    InsertAreas(t, id, v);
    InsertSorted(t, id, v);
    assert v in Areas(t) ==> Apart(v, v);
    InsertUnique(t, id, v);
  }

  lemma {:induction false} InsertTwice(t: Tree, id: nat, v: Vma)
    requires Sorted(t) && v in Areas(t) && !Empty(v)
    ensures !Unique(Insert(t, id, v))
  {
    match t
    case Branch(i, u, l, r) =>
      if u.end > v.end {
        InsertTwice(l, id, v);
      } else {
        InsertAreas(r, id, v);
        if u != v { InsertTwice(r, id, v); }
      }
  }

  /** Linking an area that is inverted or meets another one breaks the tree. */
  lemma OverlapIsBad(t: Tree, id: nat, v: Vma)
    requires Good(t) && (v.start > v.end || exists a :: a in Areas(t) && !Apart(a, v))
    ensures !Good(Insert(t, id, v))
  {
    InsertAreas(t, id, v);
    assert v in Areas(Insert(t, id, v));
    if v.start <= v.end {
      var a :| a in Areas(t) && !Apart(a, v);
      if a == v { InsertTwice(t, id, v); }
      assert a in Areas(Insert(t, id, v));
    }
  }

  // ----- an area that grows in place

  /** The node whose area contains `addr`, if the search meets one */
  function Hit(t: Tree, addr: nat): Option<nat> {
    match t
    case Leaf => None
    case Branch(id, v, l, r) =>
      if v.end > addr then (if v.start <= addr then Some(id) else Hit(l, addr)) else Hit(r, addr)
  }

  /** The area that contains `addr` ends at `end` from now on. */
  function Grow(t: Tree, addr: nat, end: nat): Tree {
    match t
    case Leaf => Leaf
    case Branch(id, v, l, r) =>
      if v.end > addr then
        if v.start <= addr then Branch(id, Vma(v.start, end), l, r) else Branch(id, v, Grow(l, addr, end), r)
      else Branch(id, v, l, Grow(r, addr, end))
  }

  /** The search still finds it, in any tree. */
  lemma {:induction false} GrowFinds(t: Tree, addr: nat, end: nat, b: Option<Vma>)
    requires end > addr && (b.Some? ==> b.value.start > addr)
    ensures var r := Find(t, addr, b);
            Find(Grow(t, addr, end), addr, b) ==
            if r.Some? && r.value.start <= addr then Some(Vma(r.value.start, end)) else r
  {
    match t
    case Leaf =>
    case Branch(_, v, l, r) =>
      if v.end <= addr {
        GrowFinds(r, addr, end, b);
      } else if v.start > addr {
        GrowFinds(l, addr, end, Some(v));
      }
  }

  lemma {:induction false} GrowAreas(t: Tree, addr: nat, end: nat, h: Vma)
    requires Sorted(t) && Unique(t) && Accepts(t, addr) && Find(t, addr, None) == Some(h)
    ensures h in Areas(t) && Inside(addr, h) && Areas(Grow(t, addr, end)) == Areas(t) - {h} + {Vma(h.start, end)}
  {
    match t
    case Branch(_, v, l, r) =>
      if v.end <= addr {
        GrowAreas(r, addr, end, h);
      } else if v.start > addr {
        FindBest(l, addr, Some(v));
        GrowAreas(l, addr, end, h);
      }
  }

  /** No area above the one that grows starts below the new end. */
  ghost predicate RoomBelow(s: set<Vma>, h: Vma, end: nat) {
    forall a :: a in s && a.start > h.start ==> end <= a.start
  }

  ghost predicate NoneEmpty(s: set<Vma>) {
    forall a :: a in s ==> a.start < a.end
  }

  lemma {:induction false} GrowSorted(t: Tree, addr: nat, end: nat, h: Vma)
    requires Good(t) && NoneEmpty(Areas(t)) && Accepts(t, addr) && Find(t, addr, None) == Some(h)
    requires h.end <= end && RoomBelow(Areas(t), h, end)
    ensures Sorted(Grow(t, addr, end)) && Unique(Grow(t, addr, end)) && NoneHidden(Grow(t, addr, end))
  {
    GrowAreas(t, addr, end, h);
    match t
    case Branch(_, v, l, r) =>
      AllNoneHidden(t);
      if v.end <= addr {
        GrowAreas(r, addr, end, h);
        GrowSorted(r, addr, end, h);
      } else if v.start > addr {
        FindBest(l, addr, Some(v));
        GrowAreas(l, addr, end, h);
        GrowSorted(l, addr, end, h);
      } else {
        forall a | a in Areas(r) ensures end <= a.end && a != Vma(h.start, end) {
          assert Apart(a, h);
        }
      }
  }

  lemma {:induction false} AllNoneHidden(t: Tree)
    requires NoneEmpty(Areas(t))
    ensures NoneHidden(t)
  {
    match t
    case Leaf =>
    case Branch(_, v, l, r) =>
      AllNoneHidden(l);
      AllNoneHidden(r);
  }

  lemma GrowSeparate(s: set<Vma>, h: Vma, end: nat)
    requires Separate(s) && NoneEmpty(s) && h in s && h.end <= end
    ensures Separate(s - {h} + {Vma(h.start, end)}) <==> RoomBelow(s, h, end)
  {
    var g := Vma(h.start, end);
    var u := s - {h} + {g};
    if RoomBelow(s, h, end) {
      forall a | a in s && a != h ensures Apart(a, g) { assert Apart(a, h); }
    } else {
      var a :| a in s && a.start > h.start && end > a.start;
      assert a in u && g in u && a != g && !Apart(a, g);
    }
  }

  /** Among areas of at least one byte, the one that contains `addr` can grow to `end` and leave them
      disjoint, in order and all found, if and only if no area above it starts below `end`. */
  lemma GrowSoundIff(t: Tree, addr: nat, end: nat, h: Vma)
    requires Good(t) && NoneEmpty(Areas(t)) && Accepts(t, addr) && Find(t, addr, None) == Some(h) && h.end <= end
    ensures Good(Grow(t, addr, end)) && Decides(Grow(t, addr, end)) <==> RoomBelow(Areas(t), h, end)
  {
    GrowAreas(t, addr, end, h);
    GrowSeparate(Areas(t), h, end);
    if RoomBelow(Areas(t), h, end) {
      GrowSorted(t, addr, end, h);
      DecidesIffNoneHidden(Grow(t, addr, end));
    }
  }

  // ----- the chain of areas

  /** `find_vma_prev`, from the subtree `t` with the best node so far */
  function Prev(t: Tree, addr: nat, best: Option<nat>): Option<nat> {
    match t
    case Leaf => best
    case Branch(id, v, l, r) =>
      if v.end < addr then (if v.start <= addr then Some(id) else Prev(l, addr, Some(id)))
      else Prev(r, addr, best)
  }

  lemma {:induction false} NoPrev(t: Tree, addr: nat, b: Option<nat>)
    requires forall a :: a in Areas(t) ==> a.end >= addr
    ensures Prev(t, addr, b) == b
  {
    match t
    case Leaf =>
    case Branch(_, v, l, r) =>
      assert v in Areas(t);
      NoPrev(r, addr, b);
  }

  /** In a search tree `find_vma_prev` looks no further than the root: it is the answer or there is none. */
  lemma PrevIsRoot(t: Tree, addr: nat)
    requires t.Branch? && Sorted(t) && t.vma.start <= t.vma.end
    ensures Prev(t, addr, None) == if t.vma.end < addr then Some(t.id) else None
  {
    if t.vma.end >= addr { NoPrev(t.right, addr, None); }
  }

  /** The areas in the order of `vm_next` after `vm_link` put `id` behind `prev`, or in front */
  function Threaded(chain: seq<nat>, prev: Option<nat>, id: nat): seq<nat> {
    if prev.None? || chain == [] then [id] + chain
    else if chain[0] == prev.value then [chain[0], id] + chain[1..]
    else [chain[0]] + Threaded(chain[1..], prev, id)
  }

  /** What `vm_next` of `id` leads to */
  function After(chain: seq<nat>, id: nat): Option<nat> {
    if |chain| < 2 then None else if chain[0] == id then Some(chain[1]) else After(chain[1..], id)
  }

  /** The area of node `id` */
  function AreaOf(t: Tree, id: nat): Option<Vma> {
    match t
    case Leaf => None
    case Branch(i, v, l, r) => if i == id then Some(v) else if AreaOf(l, id).Some? then AreaOf(l, id) else AreaOf(r, id)
  }

  /** The start of the area that `vm_next` of `id` leads to */
  function Ceiling(t: Tree, chain: seq<nat>, id: nat): Option<nat> {
    var n := After(chain, id);
    if n.None? || AreaOf(t, n.value).None? then None else Some(AreaOf(t, n.value).value.start)
  }

  lemma {:induction false} InsertAreaOf(t: Tree, id: nat, v: Vma, x: nat)
    requires AreaOf(t, id).None?
    ensures AreaOf(Insert(t, id, v), x) == if x == id then Some(v) else AreaOf(t, x)
  {
    match t
    case Leaf =>
    case Branch(_, u, l, r) => if u.end > v.end { InsertAreaOf(l, id, v, x); } else { InsertAreaOf(r, id, v, x); }
  }

  /** Growing an area moves no start and no hit. */
  lemma {:induction false} GrowStarts(t: Tree, addr: nat, end: nat, x: nat)
    requires end > addr
    ensures AreaOf(Grow(t, addr, end), x).Some? <==> AreaOf(t, x).Some?
    ensures AreaOf(t, x).Some? ==> AreaOf(Grow(t, addr, end), x).value.start == AreaOf(t, x).value.start
    ensures Hit(Grow(t, addr, end), addr) == Hit(t, addr)
  {
    match t
    case Leaf =>
    case Branch(_, v, l, r) => if v.end > addr { GrowStarts(l, addr, end, x); } else { GrowStarts(r, addr, end, x); }
  }

  /** Where the test fails: an empty area, then a page that ends where it does. */
  lemma EmptyAreaHidesItsNeighbour()
    ensures var e, w := Vma(0x5000, 0x5000), Vma(0x4000, 0x5000);
            var t := Insert(Insert(Leaf, 0, e), 1, w);
            Good(t) && Mapped(t, 0x4000) && !Accepts(t, 0x4000)
  {
    var e, w := Vma(0x5000, 0x5000), Vma(0x4000, 0x5000);
    var t := Insert(Insert(Leaf, 0, e), 1, w);
    assert t == Branch(0, e, Leaf, Branch(1, w, Leaf, Leaf));
    assert w in Areas(t) && Inside(0x4000, w);
    assert Find(t, 0x4000, None) == Some(e);
  }
}
