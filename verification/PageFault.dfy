/** The page-fault handler (kernel/trap/page_fault.c). */
module PageFault {
  import opened Wrappers
  import opened PageFrames
  import opened Paging
  import opened Spaces

  /** The scratch page of an address space is never mapped between operations. */
  lemma ScratchAbsent(s: State, live: set<nat>, m: nat)
    requires Arranged(s.pte, s.mms, live)
    ensures Key(m, TEMP) !in s.pte
  {
    var k := Key(m, TEMP);
    assert m in s.mms ==> LaidOut(s.mms[m].areas);
    assert k in s.pte ==> Homed(s.mms, k);
  }

  /** `pte_mkwrite` on a frame that nobody else maps */
  lemma OnlyMapper(s: State, k: Key)
    requires Core(s) && s.held == {} && k in s.pte && s.pte[k].frame in s.nref && s.nref[s.pte[k].frame] == 1
    ensures var t := State(s.pool, s.free, s.held, s.role, s.nref, s.data, s.pte[k := Pte(s.pte[k].frame, true)],
                           s.last, s.middle, s.mms);
            Core(t) && Served(s, t, k)
  {
    RewriteKeeps(s, k, true);
    AloneOnFrame(s.role, s.nref, s.pte, k);
    assert s.pte[k].frame in s.data;
  }

  lemma AloneOnFrame(role: map<nat, Role>, nref: map<nat, nat>, pte: map<Key, Pte>, k: Key)
    requires Counted(role, nref, pte) && Used(role, pte) && k in pte && nref[pte[k].frame] == 1
    ensures forall j :: j in pte && j != k ==> pte[j].frame != pte[k].frame
  {
    var f := pte[k].frame;
    assert k in Mappers(pte, f) && |Mappers(pte, f)| == 1;
    forall j | j in pte && j != k ensures pte[j].frame != f {
      if pte[j].frame == f {
        assert {j, k} <= Mappers(pte, f);
        SubsetSize({j, k}, Mappers(pte, f));
      }
    }
  }

  /** A new frame `g` has been placed: nothing mapped before shows it. */
  lemma FramePlaced(s: State, t: State, k: Key, g: nat)
    requires Core(s) && s.held == {} && g in s.free && Placed(Allocated(s, g), t, k, g)
    ensures t.pool == s.pool && t.mms == s.mms && t.held == {} && t.pte == s.pte[k := Pte(g, true)] && SameData(s, t)
    ensures forall j :: j in s.pte ==> s.pte[j].frame != g
  {
  }

  /** `memmove` through the scratch mapping */
  ghost function Copied(t: State, g: nat, p: Page): State {
    State(t.pool, t.free, t.held, t.role, t.nref, t.data[g := p], t.pte, t.last, t.middle, t.mms)
  }

  lemma CopyKeeps(t: State, g: nat, p: Page)
    requires Core(t)
    ensures Core(Copied(t, g, p))
  {
  }

  /** The copy is in place and the scratch page is dropped. */
  lemma ShareBroken(s: State, t: State, u: State, k: Key, temp: Key, g: nat, p: Page)
    requires s.held == {} && g in s.free && Pooled(s.pool, s.free, s.held, s.role)
    requires k in s.pte && temp !in s.pte && temp != k && p == View(s, k)
    requires t.pool == s.pool && t.mms == s.mms && t.held == {} && t.pte == s.pte[temp := Pte(g, true)]
    requires SameData(s, t)
    requires forall j :: j in s.pte ==> s.pte[j].frame != g
    requires Placed(Copied(t, g, p), u, k, g) && u.data == t.data[g := p]
    ensures Served(s, Unmapped(u, temp), k)
  {
    var w := Unmapped(u, temp);
    assert u.pte == s.pte[temp := Pte(g, true)][k := Pte(g, true)];
    assert w.pte == s.pte[k := Pte(g, true)];
  }

  /** A fault gave up for lack of memory: at most the tables grew. */
  ghost predicate GaveUp(s: State, t: State, m: nat) {
    Core(t) && GrewIn(s, t, m)
  }

  /** The frames that serving a fault at `k` takes: none for the last mapper, else a new frame, and
      the tables that the page, or the scratch page to copy through, still lacks */
  ghost function Need(s: State, k: Key): nat {
    if k !in s.pte then 1 + Missing(s.last, s.middle, k)
    else if Ref(s, s.pte[k].frame) == 1 then 0
    else 1 + Missing(s.last, s.middle, Key(k.mm, TEMP))
  }

  lemma ReleasedGrew(s: State, t: State, g: nat, m: nat)
    requires Core(s) && g in s.free && Core(t) && GrewIn(Allocated(s, g), t, m)
    ensures g in t.role && t.role[g].Held? && GaveUp(s, Released(t, g), m)
  {
    assert Allocated(s, g).role[g].Held?;
    ReleaseKeeps(t, g);
    ReleasedUse(s, t, g);
  }

  lemma ReleasedUse(s: State, t: State, g: nat)
    requires Pooled(s.pool, s.free, s.held, s.role) && g in s.free && Grew(Allocated(s, g), t)
    ensures Grew(s, Released(t, g))
  {
  }

  lemma AllocatedIs(s: State, f: nat)
    requires f in s.free
    ensures var t := Allocated(s, f);
            && |t.free| == |s.free| - 1 && t.last == s.last && t.middle == s.middle && t.pte == s.pte && t.mms == s.mms
            && f in t.role && t.role[f].Held?
  {
  }

  /** `page_alloc` and `page_insert` of the new frame */
  method NewPage(t: Tables, k: Key) returns (o: Option<nat>, ok: bool)
    requires Core(t.S()) && k.mm in t.mms && k.index < USER_PAGES
    modifies t
    ensures t.live == old(t.live) && Core(t.S())
    ensures o.None? <==> old(t.free) == {}
    ensures o.None? ==> !ok && t.S() == old(t.S())
    ensures o.Some? ==> o.value in old(t.free)
    ensures ok <==> old(|t.free|) >= 1 + old(Missing(t.last, t.middle, k))
    ensures ok ==> o.Some? && Placed(Allocated(old(t.S()), o.value), t.S(), k, o.value)
    ensures ok ==> Gained(old(t.last), t.last, Up(k)) && Gained(old(t.middle), t.middle, Up(Up(k)))
    ensures ok && k !in old(t.pte) ==> |t.free| == old(|t.free|) - 1 - old(Missing(t.last, t.middle, k))
    ensures o.Some? && !ok ==> GrewIn(Allocated(old(t.S()), o.value), t.S(), k.mm)
  {
    ghost var s := t.S();
    ok := false;
    o := t.PageAlloc();
    if o.Some? {
      AllocKeeps(s, o.value);
      AllocatedIs(s, o.value);
      ok := t.PageInsert(k, o.value);
    }
  }

  /** `page_insert` of a new frame at the scratch page */
  method MapScratch(t: Tables, temp: Key) returns (o: Option<nat>)
    requires Core(t.S()) && t.held == {} && temp.mm in t.mms && temp.index < USER_PAGES && temp !in t.pte
    modifies t
    ensures t.live == old(t.live) && Core(t.S())
    ensures o.Some? <==> old(|t.free|) >= 1 + old(Missing(t.last, t.middle, temp))
    ensures o.Some? ==> |t.free| == old(|t.free|) - 1 - old(Missing(t.last, t.middle, temp))
    ensures o.None? ==> GaveUp(old(t.S()), t.S(), temp.mm)
    ensures o.Some? ==> o.value in old(t.free) && Placed(Allocated(old(t.S()), o.value), t.S(), temp, o.value)
  {
    ghost var s := t.S();
    var ok;
    o, ok := NewPage(t, temp);
    if o.None? {
      GrewSelf(s, temp.mm);
    } else if !ok {
      GiveBack(t, o.value, temp.mm, s);
      return None;
    }
  }

  /** `page_free(new)` on the way out */
  method GiveBack(t: Tables, g: nat, ghost m: nat, ghost s: State)
    requires Core(s) && g in s.free && Core(t.S()) && GrewIn(Allocated(s, g), t.S(), m)
    modifies t
    ensures t.live == old(t.live) && GaveUp(s, t.S(), m)
  {
    ReleasedGrew(s, t.S(), g, m);
    t.PageFree(g);
  }

  /** The scratch page shows the new frame `g`; everything else is as in `s`. */
  ghost predicate Scratched(s: State, t: State, k: Key, temp: Key, g: nat) {
    && t.pool == s.pool && t.mms == s.mms && t.held == {} && t.pte == s.pte[temp := Pte(g, true)] && SameData(s, t)
    && (forall j :: j in s.pte ==> s.pte[j].frame != g)
    && g in t.role && t.role[g].Data? && Up(k) in t.last
    && k in t.pte && t.pte[k].frame in t.data && t.data[t.pte[k].frame] == View(s, k)
  }

  lemma ScratchFacts(s: State, t: State, k: Key, temp: Key, g: nat)
    requires Used(s.role, s.pte) && Backed(s.role, s.data) && k in s.pte && temp != k
    requires Used(t.role, t.pte) && Up(k) in t.last
    requires t.pte == s.pte[temp := Pte(g, true)] && SameData(s, t)
    ensures g in t.role && t.role[g].Data?
    ensures t.pte[k].frame in t.data && t.data[t.pte[k].frame] == View(s, k)
  {
    assert temp in t.pte;
    assert s.role[s.pte[k].frame] == Data;
  }

  lemma ScratchIsSet(s: State, t: State, k: Key, temp: Key, g: nat)
    requires Core(s) && s.held == {} && g in s.free && k in s.pte && temp != k
    requires Core(t) && Placed(Allocated(s, g), t, temp, g)
    ensures Scratched(s, t, k, temp, g)
  {
    FramePlaced(s, t, temp, g);
    assert k in t.pte;
    ScratchFacts(s, t, k, temp, g);
  }

  /** `memmove` from the shared page to the scratch page */
  method CopyPage(t: Tables, k: Key, g: nat)
    requires Core(t.S()) && k in t.pte && t.pte[k].frame in t.data
    modifies t`data
    ensures Core(t.S()) && t.S() == Copied(old(t.S()), g, old(t.data[t.pte[k].frame]))
  {
    CopyKeeps(t.S(), g, t.data[t.pte[k].frame]);
    t.data := t.data[g := t.data[t.pte[k].frame]];
  }

  /** `page_insert` where the table exists: it cannot fail. */
  method Remap(t: Tables, k: Key, g: nat)
    requires Core(t.S()) && k.mm in t.mms && k.index < USER_PAGES && Up(k) in t.last && g in t.role && t.role[g].Data?
    modifies t
    ensures t.live == old(t.live) && Core(t.S()) && Placed(old(t.S()), t.S(), k, g) && t.data == old(t.data)
    ensures k in old(t.pte) && old(Ref(t.S(), t.pte[k].frame)) > 1 ==> |t.free| == old(|t.free|)
  {
    var _ := t.PageInsert(k, g);
  }

  method CopyAndMap(t: Tables, k: Key, g: nat, ghost p: Page)
    requires Core(t.S()) && k in t.pte && t.pte[k].frame in t.data && t.data[t.pte[k].frame] == p
    requires k.mm in t.mms && k.index < USER_PAGES && Up(k) in t.last && g in t.role && t.role[g].Data?
    requires Ref(t.S(), t.pte[k].frame) > 1
    modifies t
    ensures t.live == old(t.live) && Core(t.S()) && |t.free| == old(|t.free|)
    ensures Placed(Copied(old(t.S()), g, p), t.S(), k, g) && t.data == old(t.data)[g := p]
  {
    CopyPage(t, k, g);
    Remap(t, k, g);
  }

  /** The part of `do_wp_fault` after the scratch mapping exists: copy, remap, drop the scratch. */
  method MoveOver(t: Tables, k: Key, temp: Key, g: nat, ghost s: State)
    requires s.held == {} && g in s.free && Pooled(s.pool, s.free, s.held, s.role) && k in s.pte && temp !in s.pte
    requires temp != k
    requires Core(t.S()) && Scratched(s, t.S(), k, temp, g) && k.mm in t.mms && k.index < USER_PAGES
    requires Ref(t.S(), t.pte[k].frame) > 1
    modifies t
    ensures t.live == old(t.live) && Core(t.S()) && Served(s, t.S(), k) && |t.free| == old(|t.free|)
  {
    ghost var u := t.S();
    CopyAndMap(t, k, g, View(s, k));
    ShareBroken(s, u, t.S(), k, temp, g, View(s, k));
    TwoMappers(t.S(), k, temp);
    t.Remove(temp);
  }

  lemma TwoMappers(t: State, j: Key, k: Key)
    requires Counted(t.role, t.nref, t.pte) && Used(t.role, t.pte) && j != k && j in t.pte && k in t.pte
    requires t.pte[j].frame == t.pte[k].frame
    ensures Ref(t, t.pte[k].frame) > 1 && Unmapped(t, k).free == t.free
  {
    var f := t.pte[k].frame;
    SubsetSize({j, k}, Mappers(t.pte, f));
    assert t.role[f] == Data;
  }

  /** The scratch mapping is of another frame: the shared one is still shared. */
  lemma StillShared(s: State, t: State, k: Key, temp: Key, g: nat)
    requires Core(s) && Core(t) && k in s.pte && temp !in s.pte && t.pte == s.pte[temp := Pte(g, true)]
    requires s.pte[k].frame != g && Ref(s, s.pte[k].frame) != 1
    ensures k in t.pte && Ref(t, t.pte[k].frame) > 1
  {
    PresentIsCounted(s, k);
    PresentIsCounted(t, k);
    MapMappers(s.pte, temp, Pte(g, true), s.pte[k].frame);
    assert s.role[s.pte[k].frame] == Data;
    assert t.role[t.pte[k].frame] == Data;
  }

  /** `do_wp_fault` */
  method DoWpFault(t: Tables, k: Key) returns (ok: bool)
    requires Core(t.S()) && t.held == {} && k in t.pte && Key(k.mm, TEMP) !in t.pte && k.mm in t.mms && k.index < TEMP
    modifies t
    ensures t.live == old(t.live) && Core(t.S())
    ensures ok <==> old(|t.free|) >= old(Need(t.S(), k))
    ensures ok ==> Served(old(t.S()), t.S(), k) && |t.free| == old(|t.free|) - old(Need(t.S(), k))
    ensures !ok ==> GaveUp(old(t.S()), t.S(), k.mm)
  {
    ghost var s := t.S();
    PresentIsCounted(s, k);
    if t.nref[t.pte[k].frame] == 1 {
      OnlyMapper(s, k);
      t.pte := t.pte[k := Pte(t.pte[k].frame, true)];
      return true;
    }
    var temp := Key(k.mm, TEMP);
    var o := MapScratch(t, temp);
    if o.None? {
      return false;
    }
    ScratchIsSet(s, t.S(), k, temp, o.value);
    StillShared(s, t.S(), k, temp, o.value);
    MoveOver(t, k, temp, o.value, s);
    return true;
  }

  lemma ZeroServes(s: State, t: State, k: Key, g: nat)
    requires Core(s) && s.held == {} && g in s.free && k !in s.pte && Up(k) in s.last
    requires Placed(Allocated(s, g), t, k, g)
    ensures Served(s, t, k)
  {
  }

  /** The stack and heap branches of `handle_pte_fault` */
  method SupplyZero(t: Tables, k: Key) returns (ok: bool)
    requires Core(t.S()) && t.held == {} && k !in t.pte && Up(k) in t.last && k.mm in t.mms && k.index < TEMP
    modifies t
    ensures t.live == old(t.live) && Core(t.S())
    ensures ok ==> Served(old(t.S()), t.S(), k) && |t.free| == old(|t.free|) - 1
    ensures !ok ==> GaveUp(old(t.S()), t.S(), k.mm)
    ensures ok <==> old(t.free) != {}
    ensures ok ==> k in t.pte && t.pte[k].frame in t.data && forall i: Offset :: t.data[t.pte[k].frame][i] == 0
  {
    ghost var s := t.S();
    var o;
    o, ok := NewPage(t, k);
    if o.None? {
      GrewSelf(s, k.mm);
      return false;
    }
    if !ok {
      // the "page_insert" panics
      assert false;
    }
    ZeroServes(s, t.S(), k, o.value);
  }

  /** `handle_pte_fault`, once `page_walk` has made room for the entry. None of its panics can
      be reached. */
  method HandlePteFault(t: Tables, a: Area, k: Key, write: bool) returns (ok: bool)
    requires Core(t.S()) && t.held == {} && Key(k.mm, TEMP) !in t.pte && k.mm in t.mms && k.index < TEMP
    requires Up(k) in t.last
    requires k in t.pte ==> write && !t.pte[k].write
    requires k !in t.pte ==> Lazy(a, t.mms[k.mm].brk)
    modifies t
    ensures t.live == old(t.live) && Core(t.S())
    ensures ok <==> old(|t.free|) >= old(Need(t.S(), k))
    ensures ok ==> Served(old(t.S()), t.S(), k) && |t.free| == old(|t.free|) - old(Need(t.S(), k))
    ensures !ok ==> GaveUp(old(t.S()), t.S(), k.mm)
  {
    if k in t.pte {
      if write {
        if !t.pte[k].write {
          ok := DoWpFault(t, k);
        } else {
          // "write_access !"
          assert false;
        }
      } else {
        // "read_access !"
        assert false;
      }
    } else {
      if a.lo == STACK {
        ok := SupplyZero(t, k);
      } else if a.lo == t.mms[k.mm].brk {
        ok := SupplyZero(t, k);
      } else {
        // "extend ?!"
        assert false;
      }
    }
  }

  /** `find_vma` followed by the handler's test of `vm_start` */
  method FindArea(areas: seq<Area>, v: nat) returns (o: Option<Area>)
    ensures o.Some? <==> Covered(areas, v)
    ensures o.Some? ==> exists i :: 0 <= i < |areas| && areas[i] == o.value && areas[i].lo <= v < areas[i].hi
  {
    for i := 0 to |areas|
      invariant forall j :: 0 <= j < i ==> !(areas[j].lo <= v < areas[j].hi)
    {
      if areas[i].lo <= v < areas[i].hi {
        return Some(areas[i]);
      }
    }
    return None;
  }

  lemma HandlerReady(s: State, live: set<nat>, k: Key, a: Area)
    requires Arranged(s.pte, s.mms, live) && k.mm in live && k.mm in s.mms
    requires exists i :: 0 <= i < |s.mms[k.mm].areas| && s.mms[k.mm].areas[i] == a && a.lo <= k.index < a.hi
    ensures k.index < TEMP && Key(k.mm, TEMP) !in s.pte && Covered(s.mms[k.mm].areas, k.index)
    ensures k !in s.pte ==> Lazy(a, s.mms[k.mm].brk)
  {
    ScratchAbsent(s, live, k.mm);
    var i :| 0 <= i < |s.mms[k.mm].areas| && s.mms[k.mm].areas[i] == a && a.lo <= k.index < a.hi;
    assert Key(k.mm, k.index) == k;
    assert LaidOut(s.mms[k.mm].areas) && Populated(s.pte, k.mm, s.mms[k.mm]);
  }

  lemma NeedsTables(s: State, k: Key)
    requires Nested(s.pte, s.last, s.middle, s.mms) && |s.free| < Missing(s.last, s.middle, k)
    ensures |s.free| < Need(s, k)
  {
    assert k in s.pte ==> Up(k) in s.last && Up(Up(k)) in s.middle;
  }

  /** Making room for the entry takes the part of the need that is for its tables. */
  lemma NeedSplits(s: State, u: State, k: Key)
    requires Nested(s.pte, s.last, s.middle, s.mms) && Grew(s, u) && Up(k) in u.last && (Up(k) in s.last ==> u == s)
    requires |u.free| == |s.free| - Missing(s.last, s.middle, k) && Nested(u.pte, u.last, u.middle, u.mms)
    ensures |u.free| - Need(u, k) == |s.free| - Need(s, k)
  {
    assert Up(Up(k)) in u.middle;
    if k in s.pte { assert Up(k) in s.last; }
  }

  /** `page_fault_handler` from `page_walk` on */
  method WalkAndHandle(t: Tables, a: Area, k: Key, write: bool) returns (ok: bool)
    requires Core(t.S()) && t.held == {} && Key(k.mm, TEMP) !in t.pte && k.mm in t.mms && k.index < TEMP
    requires k in t.pte ==> write && !t.pte[k].write
    requires k !in t.pte ==> Lazy(a, t.mms[k.mm].brk)
    modifies t
    ensures t.live == old(t.live) && Core(t.S())
    ensures ok <==> old(|t.free|) >= old(Need(t.S(), k))
    ensures ok ==> Served(old(t.S()), t.S(), k) && |t.free| == old(|t.free|) - old(Need(t.S(), k))
    ensures !ok ==> GaveUp(old(t.S()), t.S(), k.mm)
  {
    ghost var s := t.S();
    ok := t.PageWalk(k, true);
    if !ok {
      NeedsTables(s, k);
      return false;
    }
    ghost var u := t.S();
    NeedSplits(s, u, k);
    ok := HandlePteFault(t, a, k, write);
    if ok {
      ServedAfterGrowth(s, u, t.S(), k);
    } else {
      GrewInTrans(s, u, t.S(), k.mm);
    }
  }

  /** `page_fault_handler` for a fault that the hardware raised at page `k`: it is served exactly
      when the page is in an area and enough frames are free; else its process has to exit. */
  method PageFaultHandler(t: Tables, k: Key, write: bool) returns (ok: bool)
    requires Valid(t.S(), t.live) && k.mm in t.live && k.mm in t.mms
    requires k in t.pte ==> write && !t.pte[k].write
    modifies t
    ensures t.live == old(t.live) && Core(t.S())
    ensures ok <==> old(Covered(t.mms[k.mm].areas, k.index)) && old(|t.free|) >= old(Need(t.S(), k))
    ensures ok ==> Served(old(t.S()), t.S(), k) && |t.free| == old(|t.free|) - old(Need(t.S(), k))
    ensures !ok ==> GrewIn(old(t.S()), t.S(), k.mm)
  {
    var o := FindArea(t.mms[k.mm].areas, k.index);
    if o.None? {
      GrewSelf(t.S(), k.mm);
      return false;
    }
    HandlerReady(t.S(), t.live, k, o.value);
    ok := WalkAndHandle(t, o.value, k, write);
  }

  lemma GrewSelf(s: State, m: nat)
    ensures GrewIn(s, s, m)
  {
  }
}
