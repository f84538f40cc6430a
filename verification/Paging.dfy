/** The page-table operations on the live tables: `page_alloc`, `page_walk`, `page_insert`,
    `page_remove`, `page_decref` (kernel/mm/page.c), each proved against PageFrames. */
module Paging {
  import opened Wrappers
  import opened PageFrames

  /** Pages below the kernel: 0xC0000000 >> 12 */
  const USER_PAGES: nat := 0xC0000

  ghost predicate Extends<K(!new), V(!new)>(a: map<K, V>, b: map<K, V>) {
    forall k :: k in a ==> k in b && b[k] == a[k]
  }

  /** A frame in use keeps its contents. */
  ghost predicate SameData(s: State, t: State) {
    forall f :: f in s.role && !s.role[f].Free? && f in s.data ==> f in t.data && t.data[f] == s.data[f]
  }

  ghost predicate SameUse(s: State, t: State) {
    forall f :: f in s.role && !s.role[f].Free? ==> f in t.role && t.role[f] == s.role[f]
  }

  /** Tables were added from the pool; every translation and every frame in use is as before. */
  ghost predicate Grew(s: State, t: State) {
    && t.pool == s.pool && t.pte == s.pte && t.mms == s.mms && t.held == s.held
    && Extends(s.last, t.last) && Extends(s.middle, t.middle)
    && SameData(s, t) && SameUse(s, t)
  }

  /** No entry of another address space than `m` was added. */
  ghost predicate Confined<V>(a: map<Key, V>, b: map<Key, V>, m: nat) {
    forall k :: k in b && k.mm != m ==> k in a
  }

  /** Only tables of address space `m` were added. */
  ghost predicate GrewIn(s: State, t: State, m: nat) {
    Grew(s, t) && Confined(s.last, t.last, m) && Confined(s.middle, t.middle, m)
  }

  /** Entry `k` was added, or was there already, and no other. */
  ghost predicate Gained<K(!new), V>(a: map<K, V>, b: map<K, V>, k: K) {
    forall j :: j in b <==> j in a || j == k
  }

  /** The tables that the entry of page `k` still lacks */
  ghost function Missing(last: map<Key, nat>, middle: map<Key, nat>, k: Key): nat {
    (if Up(Up(k)) in middle then 0 else 1) + (if Up(k) in last then 0 else 1)
  }

  lemma GrewTrans(s: State, t: State, u: State)
    requires Grew(s, t) && Grew(t, u)
    ensures Grew(s, u)
  {
  }

  lemma GrewInTrans(s: State, t: State, u: State, m: nat)
    requires GrewIn(s, t, m) && GrewIn(t, u, m)
    ensures GrewIn(s, u, m)
  {
    GrewTrans(s, t, u);
  }

  lemma MiddleGrew(s: State, k: Key, f: nat)
    requires Pooled(s.pool, s.free, s.held, s.role) && f in s.free && k !in s.middle
    ensures Grew(s, WithMiddle(Allocated(s, f), k, f))
  {
  }

  lemma NewMiddle(s: State, k: Key, f: nat)
    requires Core(s) && f in s.free && k !in s.middle && k.mm in s.mms && k.index < 3
    ensures f in s.nref && s.nref[f] == 0
    ensures Core(WithMiddle(Allocated(s, f), k, f)) && Grew(s, WithMiddle(Allocated(s, f), k, f))
  {
    AllocKeeps(s, f);
    WithMiddleKeeps(Allocated(s, f), k, f);
    MiddleGrew(s, k, f);
  }

  lemma LastGrew(s: State, k: Key, f: nat)
    requires Pooled(s.pool, s.free, s.held, s.role) && f in s.free && k !in s.last
    ensures Grew(s, WithLast(Allocated(s, f), k, f))
  {
  }

  lemma NewLast(s: State, k: Key, f: nat)
    requires Core(s) && f in s.free && k !in s.last && Up(k) in s.middle
    ensures f in s.nref && s.nref[f] == 0
    ensures Core(WithLast(Allocated(s, f), k, f)) && Grew(s, WithLast(Allocated(s, f), k, f))
  {
    AllocKeeps(s, f);
    WithLastKeeps(Allocated(s, f), k, f);
    LastGrew(s, k, f);
  }

  /** `page_insert` over a present entry takes its reference before it drops the old one. */
  ghost function Inserted(s: State, k: Key, f: nat): State {
    if k in s.pte && s.pte[k].frame == f
    then State(s.pool, s.free, s.held, s.role, s.nref, s.data, s.pte[k := Pte(f, true)], s.last, s.middle, s.mms)
    else Mapped(Unmapped(s, k), k, Pte(f, true))
  }

  /** Removing the entry at `k` leaves every other frame alone. */
  lemma UnmappedElsewhere(s: State, k: Key, f: nat)
    requires !(k in s.pte && s.pte[k].frame == f)
    ensures var t := Unmapped(s, k);
            && k !in t.pte && t.last == s.last && t.middle == s.middle && t.mms == s.mms && t.held == s.held
            && t.data == s.data && t.pool == s.pool
            && (f in s.role ==> f in t.role && t.role[f] == s.role[f]) && Ref(t, f) == Ref(s, f)
  {
  }

  lemma InsertKeeps(s: State, k: Key, f: nat)
    requires Core(s) && Up(k) in s.last && f in s.role && (s.role[f].Held? || s.role[f].Data?)
    ensures Core(Inserted(s, k, f))
  {
    if k in s.pte && s.pte[k].frame == f {
      RewriteKeeps(s, k, true);
    } else {
      UnmappedElsewhere(s, k, f);
      ReplaceKeeps(s, k, f);
    }
  }

  lemma ReplaceKeeps(s: State, k: Key, f: nat)
    requires Core(s)
    requires var t := Unmapped(s, k);
             k !in t.pte && Up(k) in t.last && f in t.role && (t.role[f].Held? || t.role[f].Data?)
    ensures Core(Mapped(Unmapped(s, k), k, Pte(f, true)))
  {
    UnmapKeeps(s, k);
    MapKeeps(Unmapped(s, k), k, Pte(f, true));
  }

  lemma InsertedFacts(s: State, k: Key, f: nat)
    ensures var t := Inserted(s, k, f);
            && t.pool == s.pool && t.pte == s.pte[k := Pte(f, true)] && t.data == s.data && t.mms == s.mms
            && t.last == s.last && t.middle == s.middle
            && (!(k in s.pte && s.pte[k].frame == f) ==> t.held == s.held - {f})
  {
    if !(k in s.pte && s.pte[k].frame == f) {
      UnmappedElsewhere(s, k, f);
      assert (s.pte - {k})[k := Pte(f, true)] == s.pte[k := Pte(f, true)];
    }
  }

  ghost function Incd(s: State, f: nat): State {
    State(s.pool, s.free, s.held, s.role, s.nref[f := Ref(s, f) + 1], s.data, s.pte, s.last, s.middle, s.mms)
  }

  /** Counting the new mapping first and the old one after comes to the same. */
  lemma IncFirst(s: State, k: Key, f: nat)
    requires f in s.nref && k in s.pte && s.pte[k].frame != f
    ensures var u := Unmapped(Incd(s, f), k);
            Inserted(s, k, f) ==
            State(u.pool, u.free, u.held - {f}, u.role[f := Data], u.nref, u.data, u.pte[k := Pte(f, true)], u.last,
                  u.middle, u.mms)
  {
    UnmappedElsewhere(s, k, f);
    var g, n := s.pte[k].frame, s.nref[f] + 1;
    var d := if Ref(s, g) > 0 then Ref(s, g) - 1 else 0;
    assert s.nref[f := n][g := d] == s.nref[g := d][f := n];
  }

  lemma IncOnly(s: State, k: Key, f: nat)
    requires f in s.nref && k in s.pte && s.pte[k].frame == f && s.nref[f] > 0
    ensures var u := Unmapped(Incd(s, f), k);
            Inserted(s, k, f) ==
            State(u.pool, u.free, u.held, u.role, u.nref, u.data, u.pte[k := Pte(f, true)], u.last, u.middle, u.mms)
  {
  }

  /** What a successful `page_insert` leaves: one entry changed, frames in use untouched. */
  ghost predicate Placed(s: State, t: State, k: Key, f: nat) {
    && t.pool == s.pool && t.pte == s.pte[k := Pte(f, true)] && t.mms == s.mms && t.held == s.held - {f}
    && Extends(s.last, t.last) && Extends(s.middle, t.middle) && Up(k) in t.last && SameData(s, t)
    && (Up(k) in s.last ==> t.data == s.data)
  }

  lemma InsertPlaces(s: State, t: State, k: Key, f: nat)
    requires Core(s) && f in s.role && (s.role[f].Held? || s.role[f].Data?)
    requires Core(t) && Grew(s, t) && Up(k) in t.last && (Up(k) in s.last ==> t == s)
    ensures f in t.nref && (k in t.pte ==> t.pte[k].frame in t.nref && t.nref[t.pte[k].frame] > 0)
    ensures Core(Inserted(t, k, f)) && Placed(s, Inserted(t, k, f), k, f)
  {
    assert t.role[f] == s.role[f];
    InsertKeeps(t, k, f);
    InsertedFacts(t, k, f);
    if k in t.pte { PresentIsCounted(t, k); }
    InsertHolds(t, k, f);
  }

  /** A frame that loses one of several mappings stays in use. */
  lemma UnmappedFree(s: State, k: Key)
    requires k in s.pte ==> Ref(s, s.pte[k].frame) > 1
    ensures Unmapped(s, k).free == s.free
  {
  }

  lemma InsertedFree(s: State, k: Key, f: nat)
    requires k in s.pte ==> Ref(s, s.pte[k].frame) > 1
    ensures Inserted(s, k, f).free == s.free
  {
    UnmappedFree(s, k);
  }

  lemma PresentIsCounted(t: State, k: Key)
    requires Counted(t.role, t.nref, t.pte) && Used(t.role, t.pte) && k in t.pte
    ensures t.pte[k].frame in t.nref && t.nref[t.pte[k].frame] > 0
  {
  }

  lemma InsertHolds(t: State, k: Key, f: nat)
    requires Pooled(t.pool, t.free, t.held, t.role) && Used(t.role, t.pte) && f in t.role
    ensures Inserted(t, k, f).held == t.held - {f}
  {
    InsertedFacts(t, k, f);
  }

  class Tables {
    var pool: Pool
    var free: set<nat>
    var nref: map<nat, nat>
    var data: map<nat, Page>
    var pte: map<Key, Pte>
    var last: map<Key, nat>
    var middle: map<Key, nat>
    var mms: map<nat, Mm>
    /** address spaces of live tasks */
    var live: set<nat>
    ghost var held: set<nat>
    ghost var role: map<nat, Role>

    ghost function S(): State
      reads this
    {
      State(pool, free, held, role, nref, data, pte, last, middle, mms)
    }

    /** All frames free, no address space */
    constructor (frames: set<nat>)
      ensures Core(S()) && pool == Pool(frames, {}) && free == frames && held == {}
      ensures pte == map[] && mms == map[] && live == {}
    {
      pool, free := Pool(frames, {}), frames;
      nref, data := map f | f in frames :: 0, map f | f in frames :: Zero();
      pte, last, middle, mms, live := map[], map[], map[], map[], {};
      held, role := {}, map f | f in frames :: Free;
      new;
      forall x | x in role ensures Reached(role[x], x, last, middle, mms) { }
    }

    /** `page_alloc(_GFP_ZERO)`: fails only when no frame is free. */
    method PageAlloc() returns (o: Option<nat>)
      modifies `free, `held, `role, `data
      ensures o.None? <==> old(free) == {}
      ensures o.None? ==> S() == old(S())
      ensures o.Some? ==> o.value in old(free) && S() == Allocated(old(S()), o.value)
      ensures o.Some? ==> o.value in data && forall i: Offset :: data[o.value][i] == 0
    {
      if free == {} {
        return None;
      }
      var f :| f in free;
      free, data := free - {f}, data[f := Zero()];
      held, role := held + {f}, role[f := Held];
      return Some(f);
    }

    /** `page_free` of a frame that was never mapped */
    method PageFree(f: nat)
      requires Core(S()) && f in role && role[f].Held?
      modifies `free, `held, `role
      ensures Core(S()) && S() == Released(old(S()), f)
    {
      ReleaseKeeps(S(), f);
      free := free + {f};
      held, role := held - {f}, role[f := Free];
    }

    /** `page_decref` */
    method PageDecref(f: nat)
      requires f in nref && nref[f] > 0
      modifies `free, `role, `nref
      ensures S() == Decref(old(S()), f)
    {
      nref := nref[f := nref[f] - 1];
      if nref[f] == 0 {
        free, role := free + {f}, role[f := Free];
      }
    }

    /** `atomic_inc` of the frame's count, then `pgd_set` */
    method PgdSet(k: Key, f: nat)
      requires f in nref && nref[f] == 0
      modifies `held, `role, `nref, `middle
      ensures S() == WithMiddle(old(S()), k, f)
    {
      nref, middle := nref[f := nref[f] + 1], middle[k := f];
      held, role := held - {f}, role[f := Middle(k)];
    }

    /** `get_pmd` */
    method GetPmd(k: Key) returns (ok: bool)
      requires Core(S()) && k !in middle && k.mm in mms && k.index < 3
      modifies `free, `held, `role, `data, `nref, `middle
      ensures Core(S()) && Grew(old(S()), S())
      ensures ok <==> old(free) != {}
      ensures ok <==> k in middle
      ensures ok ==> |free| == old(|free|) - 1 && last == old(last) && Gained(old(middle), middle, k)
      ensures !ok ==> S() == old(S())
    {
      ghost var s := S();
      var o := PageAlloc();
      if o.None? {
        return false;
      }
      NewMiddle(s, k, o.value);
      PgdSet(k, o.value);
      return true;
    }

    /** `atomic_inc` of the frame's count, then `pmd_set` */
    method PmdSet(k: Key, f: nat)
      requires f in nref && nref[f] == 0
      modifies `held, `role, `nref, `last
      ensures S() == WithLast(old(S()), k, f)
    {
      nref, last := nref[f := nref[f] + 1], last[k := f];
      held, role := held - {f}, role[f := Last(k)];
    }

    /** `get_pte` */
    method GetPte(k: Key) returns (ok: bool)
      requires Core(S()) && k !in last && Up(k) in middle
      modifies `free, `held, `role, `data, `nref, `last
      ensures Core(S()) && Grew(old(S()), S())
      ensures ok <==> old(free) != {}
      ensures ok <==> k in last
      ensures ok ==> |free| == old(|free|) - 1 && middle == old(middle) && Gained(old(last), last, k)
      ensures !ok ==> S() == old(S())
    {
      ghost var s := S();
      var o := PageAlloc();
      if o.None? {
        return false;
      }
      NewLast(s, k, o.value);
      PmdSet(k, o.value);
      return true;
    }

    /** `page_walk`: whether the entry for page `k` has a place. Creation that fails half-way
        keeps the middle table it made. */
    method PageWalk(k: Key, create: bool) returns (ok: bool)
      requires Core(S()) && k.mm in mms && k.index < USER_PAGES
      modifies `free, `held, `role, `data, `nref, `last, `middle
      ensures Core(S()) && GrewIn(old(S()), S(), k.mm)
      ensures ok <==> Up(k) in last
      ensures !create || Up(k) in old(last) ==> S() == old(S())
      ensures create && !ok ==> free == {}
      ensures create ==> (ok <==> old(|free|) >= old(Missing(last, middle, k)))
      ensures create && ok ==> |free| == old(|free|) - old(Missing(last, middle, k))
      ensures create && ok ==> Gained(old(last), last, Up(k)) && Gained(old(middle), middle, Up(Up(k)))
    {
      var p := Up(k);
      var q := Up(p);
      assert Up(k) in last ==> Up(p) in middle;
      if q !in middle {
        if !create {
          return false;
        }
        ok := GetPmd(q);
        if !ok {
          return false;
        }
      }
      if p !in last {
        if !create {
          return false;
        }
        ghost var t := S();
        ok := GetPte(p);
        GrewTrans(old(S()), t, S());
        return;
      }
      return true;
    }

    /** `page_remove` */
    method PageRemove(k: Key)
      requires k in pte ==> pte[k].frame in nref && nref[pte[k].frame] > 0
      modifies `free, `role, `nref, `pte
      ensures S() == Unmapped(old(S()), k)
    {
      if k in pte {
        PageDecref(pte[k].frame);
        pte := pte - {k};
      }
    }

    /** `page_remove`, between operations */
    method Remove(k: Key)
      requires Core(S())
      modifies `free, `role, `nref, `pte
      ensures Core(S()) && S() == Unmapped(old(S()), k)
    {
      if k in pte { PresentIsCounted(S(), k); }
      UnmapKeeps(S(), k);
      PageRemove(k);
    }

    /** The rest of `page_insert` once the entry's place is known */
    method Place(k: Key, f: nat)
      requires f in nref && (k in pte ==> pte[k].frame in nref && nref[pte[k].frame] > 0)
      modifies `free, `held, `role, `nref, `pte
      ensures S() == Inserted(old(S()), k, f)
    {
      ghost var s := S();
      nref := nref[f := nref[f] + 1];
      if k in pte {
        Exchange(k, f, s);
      } else {
        pte := pte[k := Pte(f, true)];
        held, role := held - {f}, role[f := Data];
      }
    }

    /** `page_remove` of the old mapping and `pte_set`, when the new one is already counted */
    method Exchange(k: Key, f: nat, ghost s: State)
      requires S() == Incd(s, f) && k in pte && f in s.nref && pte[k].frame in s.nref && s.nref[pte[k].frame] > 0
      modifies `free, `held, `role, `nref, `pte
      ensures S() == Inserted(s, k, f)
    {
      PageRemove(k);
      pte := pte[k := Pte(f, true)];
      if s.pte[k].frame != f {
        IncFirst(s, k, f);
        held, role := held - {f}, role[f := Data];
      } else {
        IncOnly(s, k, f);
      }
    }

    /** `page_insert` with the permissions of a user page */
    method PageInsert(k: Key, f: nat) returns (ok: bool)
      requires Core(S()) && k.mm in mms && k.index < USER_PAGES
      requires f in role && (role[f].Held? || role[f].Data?)
      modifies `free, `held, `role, `data, `nref, `last, `middle, `pte
      ensures Core(S())
      ensures ok <==> old(|free|) >= old(Missing(last, middle, k))
      ensures Up(k) in old(last) ==> ok
      ensures ok ==> Placed(old(S()), S(), k, f)
      ensures ok ==> Gained(old(last), last, Up(k)) && Gained(old(middle), middle, Up(Up(k)))
      ensures ok && (k in old(pte) ==> old(Ref(S(), pte[k].frame)) > 1) ==>
                |free| == old(|free|) - old(Missing(last, middle, k))
      ensures !ok ==> free == {} && GrewIn(old(S()), S(), k.mm)
    {
      ghost var s := S();
      ok := PageWalk(k, true);
      if ok {
        InsertPlaces(s, S(), k, f);
        if k in pte ==> Ref(S(), pte[k].frame) > 1 { InsertedFree(S(), k, f); }
        Place(k, f);
      }
    }
  }
}
