/** `exit_mm`: an address space is unmapped, its tables and frames go back to the pool
    (kernel/syscall/exit.c, kernel/mm/mm.c). */
module Teardown {
  import opened Wrappers
  import opened PageFrames
  import opened Paging
  import opened Spaces

  /** `b` is `a` with some entries of address space `m` removed. */
  ghost predicate Pruned<V(!new)>(a: map<Key, V>, b: map<Key, V>, m: nat) {
    && (forall k :: k in b ==> k in a && b[k] == a[k])
    && (forall k :: k in a && k.mm != m ==> k in b)
  }

  /** Nothing of `m` is left. */
  ghost predicate Gone<V(!new)>(a: map<Key, V>, m: nat) {
    forall k :: k in a ==> k.mm != m
  }

  /** From `s` to `t`, address space `m` disappeared and no other table or entry changed. */
  ghost predicate Vanished(s: State, t: State, m: nat) {
    && Pruned(s.pte, t.pte, m) && Gone(t.pte, m)
    && Pruned(s.last, t.last, m) && Gone(t.last, m)
    && Pruned(s.middle, t.middle, m) && Gone(t.middle, m)
    && t.pool == s.pool && t.mms == s.mms - {m} && t.held == s.held
  }

  /** From `s` to `t`, address space `m` disappeared and nothing else changed. */
  ghost predicate Torn(s: State, t: State, m: nat) {
    Vanished(s, t, m) && t.data == s.data
  }

  ghost predicate SameBelow(s: State, t: State) {
    && t.last == s.last && t.middle == s.middle && t.pool == s.pool && t.mms == s.mms && t.held == s.held
    && t.data == s.data
  }

  lemma UnmapPrunes(s: State, t: State, k: Key)
    requires Pruned(s.pte, t.pte, k.mm) && SameBelow(s, t)
    ensures Pruned(s.pte, Unmapped(t, k).pte, k.mm) && SameBelow(s, Unmapped(t, k)) && Unmapped(t, k).pte == t.pte - {k}
  {
  }

  /** `vma_unmap_page` */
  method UnmapArea(t: Tables, m: nat, a: Area, ghost s: State)
    requires Core(t.S()) && Pruned(s.pte, t.pte, m) && SameBelow(s, t.S())
    modifies t
    ensures t.live == old(t.live) && Core(t.S()) && Pruned(s.pte, t.pte, m) && SameBelow(s, t.S())
    ensures forall k :: k in t.pte <==> k in old(t.pte) && !(k.mm == m && a.lo <= k.index < a.hi)
  {
    var v := a.lo;
    while v < a.hi
      invariant v == a.lo || v <= a.hi
      invariant t.live == old(t.live) && Core(t.S()) && Pruned(s.pte, t.pte, m) && SameBelow(s, t.S())
      invariant forall k :: k in t.pte <==> k in old(t.pte) && !(k.mm == m && a.lo <= k.index < v)
    {
      UnmapPrunes(s, t.S(), Key(m, v));
      t.Remove(Key(m, v));
      v := v + 1;
    }
  }

  /** `q` holds the entries of `p` but for the pages of the areas. */
  ghost predicate Cleared(p: map<Key, Pte>, q: map<Key, Pte>, m: nat, areas: seq<Area>) {
    forall k :: k in q <==> k in p && !(k.mm == m && Covered(areas, k.index))
  }

  lemma ClearedNext(o: map<Key, Pte>, p: map<Key, Pte>, q: map<Key, Pte>, m: nat, areas: seq<Area>, i: nat)
    requires i < |areas| && Cleared(o, p, m, areas[..i])
    requires forall k :: k in q <==> k in p && !(k.mm == m && areas[i].lo <= k.index < areas[i].hi)
    ensures Cleared(o, q, m, areas[..i + 1])
  {
    forall k: Key ensures Covered(areas[..i + 1], k.index) <==>
                     Covered(areas[..i], k.index) || areas[i].lo <= k.index < areas[i].hi {
      CoveredMore(areas, i, k.index);
    }
  }

  /** Every page of `m` lies in an area of it. */
  ghost predicate Contained(p: map<Key, Pte>, m: nat, areas: seq<Area>) {
    forall k :: k in p && k.mm == m ==> Covered(areas, k.index)
  }

  lemma ContainedIff(p: map<Key, Pte>, q: map<Key, Pte>, m: nat, areas: seq<Area>)
    requires Cleared(p, q, m, areas)
    ensures Gone(q, m) <==> Contained(p, m, areas)
  {
    if !Contained(p, m, areas) {
      var k :| k in p && k.mm == m && !Covered(areas, k.index);
      assert k in q;
    }
  }

  /** `delete_all_vma` unmaps the pages of the areas, and so all pages of `m` if and only if none
      lies outside them. */
  method DeleteAllVma(t: Tables, m: nat)
    requires Core(t.S()) && m in t.mms
    modifies t
    ensures t.live == old(t.live) && Core(t.S())
    ensures Pruned(old(t.pte), t.pte, m) && SameBelow(old(t.S()), t.S())
    ensures Cleared(old(t.pte), t.pte, m, t.mms[m].areas)
    ensures Gone(t.pte, m) <==> Contained(old(t.pte), m, t.mms[m].areas)
  {
    ghost var s := t.S();
    var areas := t.mms[m].areas;
    UnmapAreas(t, m, areas, s);
    ContainedIff(s.pte, t.pte, m, areas);
  }

  method UnmapAreas(t: Tables, m: nat, areas: seq<Area>, ghost s: State)
    requires Core(t.S()) && t.S() == s
    modifies t
    ensures t.live == old(t.live) && Core(t.S()) && Pruned(s.pte, t.pte, m) && SameBelow(s, t.S())
    ensures Cleared(s.pte, t.pte, m, areas)
  {
    for i := 0 to |areas|
      invariant t.live == old(t.live) && Core(t.S()) && Pruned(s.pte, t.pte, m) && SameBelow(s, t.S())
      invariant Cleared(s.pte, t.pte, m, areas[..i])
    {
      ghost var p := t.pte;
      UnmapArea(t, m, areas[i], s);
      ClearedNext(s.pte, p, t.pte, m, areas, i);
    }
    assert areas[..|areas|] == areas;
  }

  /** What the table loops of `exit_mm` do not touch. */
  ghost predicate SameAbove(s: State, t: State, m: nat) {
    Pruned(s.pte, t.pte, m) && t.pool == s.pool && t.mms == s.mms && t.held == s.held && t.data == s.data
  }

  /** The tables of `m` with numbers below `n` are gone. */
  ghost predicate GoneBelow<V(!new)>(a: map<Key, V>, m: nat, n: nat) {
    forall k :: k in a && k.mm == m ==> n <= k.index
  }

  lemma DropLastFacts(t: State, k: Key, all: map<Key, Pte>)
    requires Ledger(t, all)
    ensures Ledger(WithoutLast(t, k), all) && WithoutLast(t, k).last == t.last - {k}
    ensures k in t.last ==> t.last[k] in t.nref && t.nref[t.last[k]] > 0
    ensures SameAbove(t, WithoutLast(t, k), k.mm) && WithoutLast(t, k).middle == t.middle
  {
    DropLastKeeps(t, k, all);
    if k !in t.last { assert t.last - {k} == t.last; }
  }

  /** `page_decref` of a page table and `pmd_set(pmd, 0, 0)`: entries left in the table go with it. */
  method DropLast(t: Tables, k: Key, ghost all: map<Key, Pte>)
    requires Ledger(t.S(), all)
    modifies t
    ensures t.live == old(t.live) && Ledger(t.S(), all) && SameAbove(old(t.S()), t.S(), k.mm)
    ensures t.middle == old(t.middle) && t.last == old(t.last) - {k}
  {
    DropLastFacts(t.S(), k, all);
    if k in t.last {
      t.PageDecref(t.last[k]);
      t.last, t.pte := t.last - {k}, Outside(t.pte, k);
    }
  }

  /** The page tables of `m` below number `n` are gone; the rest is as in `s`. */
  ghost predicate Dropped(s: State, t: State, m: nat, n: nat) {
    SameAbove(s, t, m) && Pruned(s.last, t.last, m) && GoneBelow(t.last, m, n)
  }

  lemma DroppedNext(s: State, t: State, u: State, m: nat, n: nat)
    requires Dropped(s, t, m, n) && SameAbove(t, u, m) && u.last == t.last - {Key(m, n)}
    ensures Dropped(s, u, m, n + 1)
  {
  }

  /** The inner loop: the 512 entries of the middle table that starts with page table `base` */
  method DropLasts(t: Tables, m: nat, base: nat, ghost s: State, ghost all: map<Key, Pte>)
    requires Ledger(t.S(), all) && Dropped(s, t.S(), m, base)
    modifies t
    ensures t.live == old(t.live) && Ledger(t.S(), all) && t.middle == old(t.middle) && Dropped(s, t.S(), m, base + 512)
  {
    for n := base to base + 512
      invariant t.live == old(t.live) && Ledger(t.S(), all) && t.middle == old(t.middle) && Dropped(s, t.S(), m, n)
    {
      ghost var u := t.S();
      DropLast(t, Key(m, n), all);
      DroppedNext(s, u, t.S(), m, n);
    }
  }

  lemma DropMiddleFacts(t: State, m: nat, i: nat, all: map<Key, Pte>)
    requires Ledger(t, all) && GoneBelow(t.last, m, (i + 1) * 512)
    ensures var k := Key(m, i);
            && Ledger(WithoutMiddle(t, k), all) && WithoutMiddle(t, k).middle == t.middle - {k}
            && (k in t.middle ==> t.middle[k] in t.nref && t.nref[t.middle[k]] > 0)
            && SameAbove(t, WithoutMiddle(t, k), m) && WithoutMiddle(t, k).last == t.last
  {
    var k := Key(m, i);
    forall j | j in t.last ensures Up(j) != k { }
    DropMiddleKeeps(t, k, all);
    if k !in t.middle { assert t.middle - {k} == t.middle; }
  }

  /** `page_decref` of a middle table and `pgd_set(pgd, 0, 0)` */
  method DropMiddle(t: Tables, m: nat, i: nat, ghost all: map<Key, Pte>)
    requires Ledger(t.S(), all) && GoneBelow(t.last, m, (i + 1) * 512)
    modifies t
    ensures t.live == old(t.live) && Ledger(t.S(), all) && SameAbove(old(t.S()), t.S(), m)
    ensures t.last == old(t.last) && t.middle == old(t.middle) - {Key(m, i)}
  {
    DropMiddleFacts(t.S(), m, i, all);
    if Key(m, i) in t.middle {
      t.PageDecref(t.middle[Key(m, i)]);
      t.middle := t.middle - {Key(m, i)};
    }
  }

  lemma SkipGone(t: State, m: nat, i: nat)
    requires Nested(t.pte, t.last, t.middle, t.mms) && GoneBelow(t.last, m, i * 512) && Key(m, i) !in t.middle
    ensures GoneBelow(t.last, m, (i + 1) * 512)
  {
    forall k | k in t.last && k.mm == m ensures (i + 1) * 512 <= k.index {
      assert Up(k) in t.middle;
    }
  }

  ghost predicate DroppedBoth(s: State, t: State, m: nat, i: nat) {
    Dropped(s, t, m, i * 512) && Pruned(s.middle, t.middle, m) && GoneBelow(t.middle, m, i)
  }

  lemma BothNext(s: State, t: State, u: State, m: nat, i: nat)
    requires Dropped(s, t, m, (i + 1) * 512) && Pruned(s.middle, t.middle, m) && GoneBelow(t.middle, m, i)
    requires SameAbove(t, u, m) && u.last == t.last && u.middle == t.middle - {Key(m, i)}
    ensures DroppedBoth(s, u, m, i + 1)
  {
  }

  /** One turn of the outer loop of `exit_mm` */
  method DropUnder(t: Tables, m: nat, i: nat, ghost s: State, ghost all: map<Key, Pte>)
    requires Ledger(t.S(), all) && DroppedBoth(s, t.S(), m, i)
    modifies t
    ensures t.live == old(t.live) && Ledger(t.S(), all) && DroppedBoth(s, t.S(), m, i + 1)
  {
    if Key(m, i) !in t.middle {
      SkipGone(t.S(), m, i);
      assert t.middle - {Key(m, i)} == t.middle;
      BothNext(s, t.S(), t.S(), m, i);
    } else {
      DropLasts(t, m, i * 512, s, all);
      ghost var u := t.S();
      DropMiddle(t, m, i, all);
      BothNext(s, u, t.S(), m, i);
    }
  }

  lemma TablesGone(t: State, m: nat)
    requires Nested(t.pte, t.last, t.middle, t.mms) && GoneBelow(t.middle, m, 3)
    ensures Gone(t.middle, m) && Gone(t.last, m) && Gone(t.pte, m)
  {
    forall k | k in t.last ensures k.mm != m {
      assert Up(k) in t.middle;
    }
    forall k | k in t.pte ensures k.mm != m {
      assert Up(k) in t.last;
    }
  }

  lemma TornAtLast(s: State, t: State, m: nat, all: map<Key, Pte>)
    requires Ledger(t, all) && DroppedBoth(s, t, m, 3) && m in t.mms
    ensures Ledger(WithoutTop(t, m), all) && Torn(s, WithoutTop(t, m), m)
  {
    TablesGone(t, m);
    DropTopKeeps(t, m, all);
    WithoutTopFacts(t, m);
  }

  lemma WithoutTopFacts(t: State, m: nat)
    requires m in t.mms && Pooled(t.pool, t.free, t.held, t.role) && Owned(t.role, t.last, t.middle, t.mms)
    ensures var u := WithoutTop(t, m);
            && u.pte == t.pte && u.last == t.last && u.middle == t.middle && u.data == t.data && u.held == t.held
            && u.pool == t.pool && u.mms == t.mms - {m}
  {
  }

  /** The rest of `exit_mm`: all tables of `m` are given back, with the entries they still hold. */
  method FreeTables(t: Tables, m: nat, ghost all: map<Key, Pte>)
    requires Ledger(t.S(), all) && m in t.mms
    modifies t
    ensures t.live == old(t.live) && Ledger(t.S(), all) && Torn(old(t.S()), t.S(), m)
  {
    ghost var s := t.S();
    for i := 0 to 3
      invariant t.live == old(t.live) && Ledger(t.S(), all) && DroppedBoth(s, t.S(), m, i)
    {
      DropUnder(t, m, i, s, all);
    }
    TornAtLast(s, t.S(), m, all);
    FreeTop(t, m);
  }

  /** `page_free` of the top table and `kfree(mm)` */
  method FreeTop(t: Tables, m: nat)
    requires m in t.mms
    modifies t
    ensures t.live == old(t.live) && t.S() == WithoutTop(old(t.S()), m)
  {
    var top := t.mms[m].top;
    t.free, t.mms := t.free + {top}, t.mms - {m};
    t.held, t.role := t.held - {top}, t.role[top := Free];
  }

  lemma TornTogether(s: State, t: State, u: State, m: nat)
    requires Pruned(s.pte, t.pte, m) && SameBelow(s, t) && Torn(t, u, m)
    ensures Torn(s, u, m)
  {
  }

  lemma InsideContained(p: map<Key, Pte>, mms: map<nat, Mm>, m: nat)
    requires Inside(p, mms) && m in mms
    ensures Contained(p, m, mms[m].areas)
  {
    forall k | k in p && k.mm == m ensures Covered(mms[m].areas, k.index) {
      assert Homed(mms, k);
    }
  }

  /** The entries that `delete_all_vma` leaves: those of others, and those of `m` outside its areas */
  ghost function Left(s: State, m: nat): map<Key, Pte>
    requires m in s.mms
  {
    map k | k in s.pte && !(k.mm == m && Covered(s.mms[m].areas, k.index)) :: s.pte[k]
  }

  lemma ClearedIsLeft(s: State, q: map<Key, Pte>, m: nat)
    requires m in s.mms && Cleared(s.pte, q, m, s.mms[m].areas) && Pruned(s.pte, q, m)
    ensures q == Left(s, m)
  {
  }

  /** The counts are right again if and only if no entry was left in a table of `m`. */
  lemma CoreIff(u: State, t: State, m: nat)
    requires Core(u) && Ledger(t, u.pte) && Torn(u, t, m)
    ensures Core(t) <==> Gone(u.pte, m)
  {
    if Gone(u.pte, m) {
      assert t.pte == u.pte;
    } else {
      var k :| k in u.pte && k.mm == m;
      MoreMappers(u.pte, t.pte, k);
      assert t.role[u.pte[k].frame] == Data;
      assert t.nref[u.pte[k].frame] == |Mappers(u.pte, u.pte[k].frame)|;
    }
  }

  lemma MoreMappers(p: map<Key, Pte>, q: map<Key, Pte>, k: Key)
    requires k in p && k !in q && forall j :: j in q ==> j in p && q[j] == p[j]
    ensures |Mappers(q, p[k].frame)| < |Mappers(p, p[k].frame)|
  {
    var f := p[k].frame;
    assert Mappers(q, f) + {k} <= Mappers(p, f);
    SubsetSize(Mappers(q, f) + {k}, Mappers(p, f));
  }

  /** `exit_mm`, with each area deleted once: only `m` is gone afterwards. The counts are then those of the
      entries that `delete_all_vma` left, and so exact if and only if no page lay outside the areas. */
  method ExitMm(t: Tables, m: nat)
    requires Core(t.S()) && m in t.mms
    modifies t
    ensures t.live == old(t.live) && Torn(old(t.S()), t.S(), m) && Ledger(t.S(), Left(old(t.S()), m))
    ensures Core(t.S()) <==> Contained(old(t.pte), m, old(t.mms)[m].areas)
  {
    ghost var s := t.S();
    DeleteAllVma(t, m);
    ghost var u := t.S();
    ClearedIsLeft(s, t.pte, m);
    FreeTables(t, m, u.pte);
    CoreIff(u, t.S(), m);
    TornTogether(s, u, t.S(), m);
  }
}
