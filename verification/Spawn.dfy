/** Task creation: a new address space is filled from a program's segments (kernel/task.c). */
module Spawn {
  import opened Wrappers
  import opened PageFrames
  import opened Paging
  import opened Spaces
  import opened Teardown
  import opened Fork
  import opened Eager
  import opened Program
  import opened Budget
  import PageFault
  import Processes

  function AreasOf(segs: seq<Segment>): seq<Area> {
    seq(|segs|, i requires 0 <= i < |segs| => AreaOf(segs[i]))
  }

  /** The areas of a new task: segments, stack, and one page of heap */
  function Layout(segs: seq<Segment>): seq<Area> {
    AreasOf(segs) + [Area(STACK, TEMP), Area(BrkOf(segs), BrkOf(segs) + 1)]
  }

  predicate Touches(g: Segment, v: nat) {
    Lo(g) <= v < Hi(g)
  }

  /** The pages that `region_alloc` maps for a program */
  function ProgramPages(segs: seq<Segment>): set<nat> {
    if segs == [] then {}
    else
      var g := segs[|segs| - 1];
      ProgramPages(segs[..|segs| - 1]) + (set v: nat | v < Hi(g) && Touches(g, v))
  }

  lemma {:induction false} InProgram(segs: seq<Segment>, v: nat)
    ensures v in ProgramPages(segs) <==> exists i :: 0 <= i < |segs| && Touches(segs[i], v)
  {
    if segs != [] {
      var n := |segs| - 1;
      InProgram(segs[..n], v);
      assert forall i :: 0 <= i < n ==> segs[..n][i] == segs[i];
      if v in ProgramPages(segs[..n]) {
        var i :| 0 <= i < n && Touches(segs[..n][i], v);
        assert Touches(segs[i], v);
      }
    }
  }

  /** What starting a program has to pay: a task record, two objects for files, the address space, one object
      for each segment, for the stack and for the heap, the top table, and the pages with their tables */
  function SpawnBill(segs: seq<Segment>, answers: seq<Answer>, start: Supply): Bill {
    Bill(true, answers, 4 + |segs| + 2, ProgramPages(segs), start)
  }

  /** Every segment's pages are those of its area, and it ends below the scratch page. */
  predicate Fitting(segs: seq<Segment>) {
    forall i :: 0 <= i < |segs| && segs[i].memsz > 0 ==> Tight(segs[i]) && AreaOf(segs[i]).hi <= TEMP
  }

  /** The pages that `region_alloc` has mapped for a segment are those that `delete_all_vma` finds in its
      area if and only if the segment is tight. */
  lemma SegmentContainedIff(p: map<Key, Pte>, c: nat, g: Segment)
    requires g.memsz > 0 && forall v: nat :: Key(c, v) in p <==> Lo(g) <= v < Hi(g)
    ensures Contained(p, c, [AreaOf(g)]) <==> Tight(g)
  {
    MappedInsideIff(g);
    var areas := [AreaOf(g)];
    assert forall v: nat :: Covered(areas, v) <==> areas[0].lo <= v < areas[0].hi;
    if Tight(g) {
      forall k | k in p && k.mm == c ensures Covered(areas, k.index) { assert k == Key(c, k.index); }
    } else {
      assert Key(c, AreaOf(g).hi) in p;
    }
  }

  /** Of the pages mapped for a segment exactly one is not found by `delete_all_vma`, the last, if the
      segment is not tight, and none if it is. */
  lemma StrandedPage(g: Segment, v: nat)
    requires g.memsz > 0
    ensures Touches(g, v) && !Covered([AreaOf(g)], v) <==> !Tight(g) && v == Hi(g) - 1
  {
    MappedInsideIff(g);
    var areas := [AreaOf(g)];
    assert Covered(areas, v) <==> areas[0].lo <= v < areas[0].hi;
  }

  /** Address spaces other than `c` are as in `s`. */
  ghost predicate Others(s: State, t: State, c: nat) {
    && t.held == s.held && t.pool.frames == s.pool.frames
    && (forall k: Key :: k.mm != c ==> (k in t.pte <==> k in s.pte) && (k in s.pte ==> t.pte[k] == s.pte[k]))
    && (forall k: Key {:trigger View(t, k)} :: k.mm != c ==> View(t, k) == View(s, k))
  }

  /** The pages of `g` below `v` are loaded. */
  ghost predicate Loaded(t: State, c: nat, g: Segment, v: nat) {
    forall x {:trigger Key(c, x)} :: Lo(g) <= x < v && x < Hi(g) ==>
      Key(c, x) in t.pte && View(t, Key(c, x)) == PageOf(g, x)
  }

  /** Page `k` has been given the new frame `f` with contents `p`. */
  ghost predicate Filled(s: State, t: State, k: Key, f: nat, p: Page) {
    && t.pool == s.pool && t.held == s.held && t.mms == s.mms && t.pte == s.pte[k := Pte(f, true)]
    && (forall j :: j in s.pte ==> s.pte[j].frame != f)
    && (forall j {:trigger View(t, j)} :: View(t, j) == if j == k then p else View(s, j))
  }

  lemma PlacedView(s: State, t: State, k: Key, f: nat, p: Page, j: Key)
    requires Core(s) && f in s.free && Placed(Allocated(s, f), t, k, f) && f in t.data
    ensures View(PageFault.Copied(t, f, p), j) == if j == k then p else View(s, j)
  {
  }

  lemma FillFacts(s: State, t: State, k: Key, f: nat, p: Page)
    requires Core(s) && s.held == {} && f in s.free && k !in s.pte && Core(t) && Placed(Allocated(s, f), t, k, f)
    ensures f in t.data && Core(PageFault.Copied(t, f, p)) && Filled(s, PageFault.Copied(t, f, p), k, f, p)
  {
    PageFault.FramePlaced(s, t, k, f);
    assert t.role[t.pte[k].frame] == Data;
    PageFault.CopyKeeps(t, f, p);
    forall j ensures View(PageFault.Copied(t, f, p), j) == if j == k then p else View(s, j) {
      PlacedView(s, t, k, f, p, j);
    }
  }

  /** `page_alloc`, `page_insert` and the copy of one page of the program */
  method FillPage(t: Tables, k: Key, p: Page) returns (ok: bool)
    requires Core(t.S()) && t.held == {} && k !in t.pte && k.mm in t.mms && k.index < USER_PAGES
    modifies t
    ensures t.live == old(t.live)
    ensures ok ==> Core(t.S()) && k in t.pte && Filled(old(t.S()), t.S(), k, t.pte[k].frame, p)
    ensures ok <==> old(|t.free|) >= 1 + old(Missing(t.last, t.middle, k))
    ensures ok ==> |t.free| == old(|t.free|) - 1 - old(Missing(t.last, t.middle, k))
    ensures ok ==> Gained(old(t.last), t.last, Up(k)) && Gained(old(t.middle), t.middle, Up(Up(k)))
  {
    ghost var s := t.S();
    var o;
    o, ok := PageFault.NewPage(t, k);
    if ok {
      FillFacts(s, t.S(), k, o.value, p);
      CopyInto(t, o.value, p);
    }
  }

  /** `memcpy` or `memset` of a page */
  method CopyInto(t: Tables, f: nat, p: Page)
    modifies t`data
    ensures t.S() == PageFault.Copied(old(t.S()), f, p)
  {
    t.data := t.data[f := p];
  }

  lemma FillOthers(s: State, t: State, u: State, k: Key, f: nat, p: Page)
    requires Others(s, t, k.mm) && Filled(t, u, k, f, p)
    ensures Others(s, u, k.mm)
  {
  }

  lemma FillLoaded(t: State, u: State, c: nat, v: nat, f: nat, p: Page, g: Segment, x: nat)
    requires Loaded(t, c, g, x) && Filled(t, u, Key(c, v), f, p) && Key(c, v) !in t.pte
    ensures Loaded(u, c, g, x)
    ensures x == v && Lo(g) <= v < Hi(g) && p == PageOf(g, v) ==> Loaded(u, c, g, x + 1)
  {
  }

  /** What loading keeps: the rest of memory, and the segments loaded so far */
  ghost predicate Loading(s: State, t: State, c: nat, segs: seq<Segment>, n: nat) {
    && n <= |segs| && t.held == {} && Others(s, t, c) && Single(t.pte)
    && forall i :: 0 <= i < n ==> Loaded(t, c, segs[i], Hi(segs[i]))
  }

  lemma LoadingNext(s: State, t: State, u: State, c: nat, segs: seq<Segment>, n: nat, v: nat, f: nat, p: Page)
    requires Loading(s, t, c, segs, n) && Filled(t, u, Key(c, v), f, p) && Key(c, v) !in t.pte
    ensures Loading(s, u, c, segs, n)
  {
    FillOthers(s, t, u, Key(c, v), f, p);
    ServedSingle(t.pte, u.pte, Key(c, v), f);
    forall i | 0 <= i < n ensures Loaded(u, c, segs[i], Hi(segs[i])) {
      FillLoaded(t, u, c, v, f, p, segs[i], Hi(segs[i]));
    }
  }

  /** `page_alloc`, `page_insert` and the copy of one page, with their cost */
  method FillAndPay(t: Tables, c: nat, v: nat, p: Page, ghost b: Bill, ghost i: nat) returns (ok: bool)
    requires Core(t.S()) && t.held == {} && Key(c, v) !in t.pte && c in t.mms && v < USER_PAGES
    requires Paid(t.S(), c, b, i) && v in b.pages && b.own
    modifies t
    ensures t.live == old(t.live)
    ensures ok ==> Core(t.S()) && Key(c, v) in t.pte && Filled(old(t.S()), t.S(), Key(c, v), t.pte[Key(c, v)].frame, p)
    ensures if ok then Paid(t.S(), c, b, i) else !Affordable(b)
  {
    ghost var u := t.S();
    ok := FillPage(t, Key(c, v), p);
    if ok {
      PagePaid(u, t.S(), c, b, i, v);
    } else {
      PageShort(u, c, b, i, v);
    }
  }

  /** The turn of `region_alloc` for page `v` */
  method LoadPage(t: Tables, c: nat, segs: seq<Segment>, n: nat, v: nat, ghost s: State, ghost o: map<Key, Pte>,
                  ghost b: Bill, ghost i: nat)
    returns (ok: bool)
    requires Core(t.S()) && Loading(s, t.S(), c, segs, n) && n < |segs| && c in t.mms
    requires Lo(segs[n]) <= v < Hi(segs[n]) <= USER_PAGES
    requires Loaded(t.S(), c, segs[n], v) && Adds(o, t.pte, c, MappedOf(segs[n])) && Key(c, v) !in t.pte
    requires Paid(t.S(), c, b, i) && v in b.pages && b.own
    modifies t
    ensures t.live == old(t.live)
    ensures ok ==> Core(t.S()) && Loading(s, t.S(), c, segs, n) && t.mms == old(t.mms)
    ensures ok ==> Loaded(t.S(), c, segs[n], v + 1) && Adds(o, t.pte, c, MappedOf(segs[n]))
    ensures ok ==> Gained(old(t.pte), t.pte, Key(c, v))
    ensures if ok then Paid(t.S(), c, b, i) else !Affordable(b)
  {
    ghost var u := t.S();
    var p := PageOf(segs[n], v);
    ok := FillAndPay(t, c, v, p, b, i);
    if ok {
      PageLoaded(s, u, t.S(), c, segs, n, v, t.pte[Key(c, v)].frame, o);
    }
  }

  lemma PageLoaded(s: State, t: State, u: State, c: nat, segs: seq<Segment>, n: nat, v: nat, f: nat, o: map<Key, Pte>)
    requires Loading(s, t, c, segs, n) && n < |segs| && Lo(segs[n]) <= v < Hi(segs[n]) && Key(c, v) !in t.pte
    requires Loaded(t, c, segs[n], v) && Adds(o, t.pte, c, MappedOf(segs[n]))
    requires Filled(t, u, Key(c, v), f, PageOf(segs[n], v))
    ensures Loading(s, u, c, segs, n) && u.mms == t.mms && Loaded(u, c, segs[n], v + 1)
    ensures Gained(t.pte, u.pte, Key(c, v)) && Adds(o, u.pte, c, MappedOf(segs[n]))
  {
    LoadingNext(s, t, u, c, segs, n, v, f, PageOf(segs[n], v));
    FillLoaded(t, u, c, v, f, PageOf(segs[n], v), segs[n], v);
    AddsNext(o, t.pte, u.pte, c, MappedOf(segs[n]), v);
  }

  /** No page of `g` from `v` on is mapped. */
  ghost predicate Fresh(q: map<Key, Pte>, c: nat, g: Segment, v: nat) {
    forall k :: k in q && k.mm == c ==> !(v <= k.index < Hi(g))
  }

  /** The pages of segment `n` below `v` are loaded and paid for. */
  ghost predicate Regional(s: State, t: State, c: nat, segs: seq<Segment>, n: nat, v: nat, o: State, b: Bill, i: nat) {
    && n < |segs| && Core(t) && Loading(s, t, c, segs, n) && Loaded(t, c, segs[n], v) && t.mms == o.mms
    && Adds(o.pte, t.pte, c, MappedOf(segs[n])) && Fresh(t.pte, c, segs[n], v) && Paid(t, c, b, i)
  }

  method LoadNext(t: Tables, c: nat, segs: seq<Segment>, n: nat, v: nat, ghost s: State, ghost o: State, ghost b: Bill,
                  ghost i: nat)
    returns (ok: bool)
    requires Regional(s, t.S(), c, segs, n, v, o, b, i) && Lo(segs[n]) <= v < Hi(segs[n]) <= USER_PAGES
    requires c in o.mms && v in b.pages && b.own
    modifies t
    ensures t.live == old(t.live)
    ensures if ok then Regional(s, t.S(), c, segs, n, v + 1, o, b, i) else !Affordable(b)
  {
    ghost var q := t.pte;
    assert Key(c, v) !in t.pte;
    ok := LoadPage(t, c, segs, n, v, s, o.pte, b, i);
    if ok { FreshNext(q, t.pte, c, segs[n], v); }
  }

  /** `region_alloc` and the copy of the segment */
  method RegionAlloc(t: Tables, c: nat, segs: seq<Segment>, n: nat, ghost s: State, ghost b: Bill, ghost i: nat)
    returns (ok: bool)
    requires Core(t.S()) && Loading(s, t.S(), c, segs, n) && n < |segs| && c in t.mms
    requires Hi(segs[n]) <= USER_PAGES && Fresh(t.pte, c, segs[n], Lo(segs[n]))
    requires Paid(t.S(), c, b, i) && b.own && forall v: nat :: Touches(segs[n], v) ==> v in b.pages
    modifies t
    ensures t.live == old(t.live)
    ensures ok ==> Core(t.S()) && Loading(s, t.S(), c, segs, n + 1) && t.mms == old(t.mms)
    ensures ok ==> Adds(old(t.pte), t.pte, c, MappedOf(segs[n]))
    ensures if ok then Paid(t.S(), c, b, i) else !Affordable(b)
  {
    ghost var o := t.S();
    var v := Lo(segs[n]);
    RegionStarts(s, o, c, segs, n, b, i);
    while v < Hi(segs[n])
      invariant Lo(segs[n]) <= v <= Hi(segs[n]) && t.live == old(t.live) && Regional(s, t.S(), c, segs, n, v, o, b, i)
    {
      assert Touches(segs[n], v);
      ok := LoadNext(t, c, segs, n, v, s, o, b, i);
      if !ok {
        return false;
      }
      v := v + 1;
    }
    RegionDone(s, t.S(), c, segs, n, o, b, i);
    return true;
  }

  lemma RegionStarts(s: State, o: State, c: nat, segs: seq<Segment>, n: nat, b: Bill, i: nat)
    requires Core(o) && Loading(s, o, c, segs, n) && n < |segs| && Fresh(o.pte, c, segs[n], Lo(segs[n]))
    requires Paid(o, c, b, i)
    ensures Regional(s, o, c, segs, n, Lo(segs[n]), o, b, i) && Lo(segs[n]) <= Hi(segs[n])
  {
  }

  lemma RegionDone(s: State, t: State, c: nat, segs: seq<Segment>, n: nat, o: State, b: Bill, i: nat)
    requires n < |segs| && Regional(s, t, c, segs, n, Hi(segs[n]), o, b, i)
    ensures Core(t) && Loading(s, t, c, segs, n + 1) && t.mms == o.mms && Paid(t, c, b, i)
    ensures Adds(o.pte, t.pte, c, MappedOf(segs[n]))
  {
  }

  lemma FreshNext(p: map<Key, Pte>, q: map<Key, Pte>, c: nat, g: Segment, v: nat)
    requires Fresh(p, c, g, v) && Gained(p, q, Key(c, v))
    ensures Fresh(q, c, g, v + 1)
  {
  }

  lemma LoadingQuiet(s: State, t: State, u: State, c: nat, segs: seq<Segment>, n: nat)
    requires Loading(s, t, c, segs, n) && Core(t) && Quiet(t, u) && u.pte == t.pte
    ensures Loading(s, u, c, segs, n)
  {
    forall k ensures View(u, k) == View(t, k) { QuietView(t, u, k); }
    SameLoading(s, t, u, c, segs, n);
  }

  lemma SameLoading(s: State, t: State, u: State, c: nat, segs: seq<Segment>, n: nat)
    requires Loading(s, t, c, segs, n) && u.pte == t.pte && u.held == t.held && u.pool.frames == t.pool.frames
    requires forall k {:trigger View(u, k)} :: View(u, k) == View(t, k)
    ensures Loading(s, u, c, segs, n)
  {
  }

  /** Address space `c` has the first `n` areas of the layout, and no page outside them. */
  ghost predicate Furnished(t: State, base: map<nat, Mm>, c: nat, top: nat, areas: seq<Area>, n: nat, brk: nat) {
    && n <= |areas| && LaidOut(areas[..n])
    && t.mms == base[c := Mm(top, areas[..n], brk)] && Contained(t.pte, c, areas[..n])
  }

  lemma ClearLaidOut(areas: seq<Area>, a: Area)
    requires LaidOut(areas) && Clear(areas, a) && a.lo < a.hi <= TEMP
    ensures LaidOut(areas + [a])
  {
  }

  lemma FurnishedNext(t: State, u: State, base: map<nat, Mm>, c: nat, top: nat, areas: seq<Area>, n: nat, brk: nat)
    requires Furnished(t, base, c, top, areas, n, brk) && n < |areas| && u.pte == t.pte
    requires areas[n].lo < areas[n].hi <= TEMP && Clear(areas[..n], areas[n])
    requires u.mms == t.mms[c := Mm(t.mms[c].top, t.mms[c].areas + [areas[n]], t.mms[c].brk)]
    ensures Furnished(u, base, c, top, areas, n + 1, brk)
  {
    assert areas[..n] + [areas[n]] == areas[..n + 1];
    ClearLaidOut(areas[..n], areas[n]);
    ContainedMore(t.pte, c, areas, n);
    var more := Mm(top, areas[..n + 1], brk);
    assert base[c := Mm(top, areas[..n], brk)][c := more] == base[c := more];
  }

  /** `create_vma` for the next area of the layout */
  method AddArea(t: Tables, c: nat, a: Area, answer: Answer, ghost base: map<nat, Mm>, ghost top: nat,
                 ghost areas: seq<Area>, ghost k: nat, ghost brk: nat, segs: seq<Segment>, ghost n: nat, ghost s: State,
                 ghost b: Bill, ghost i: nat)
    returns (ok: bool)
    requires Core(t.S()) && Loading(s, t.S(), c, segs, n) && Furnished(t.S(), base, c, top, areas, k, brk)
    requires k < |areas| && a == areas[k] && a.lo < a.hi <= TEMP
    requires Paid(t.S(), c, b, i) && i < b.calls && answer == Reply(b.answers, i)
    modifies t
    ensures t.live == old(t.live) && t.pte == old(t.pte) && Core(t.S()) && Loading(s, t.S(), c, segs, n)
    ensures ok ==> a.lo > 0 && Clear(areas[..k], a)
    ensures ok ==> Furnished(t.S(), base, c, top, areas, k + 1, brk) && Paid(t.S(), c, b, i + 1)
    ensures !ok ==> a.lo == 0 || !Clear(areas[..k], a) || !Affordable(b)
  {
    if a.lo == 0 || !Clear(t.mms[c].areas, a) {
      return false;
    }
    ghost var u := t.S();
    ok := CreateVma(t, c, a, answer);
    LoadingQuiet(s, u, t.S(), c, segs, n);
    if ok {
      FurnishedNext(u, t.S(), base, c, top, areas, k, brk);
      ObjectPaid(u, t.S(), c, b, i);
    } else {
      ObjectShort(u, c, b, i);
    }
  }

  lemma FreshArea(q: map<Key, Pte>, c: nat, areas: seq<Area>, n: nat, g: Segment)
    requires n < |areas| && LaidOut(areas[..n + 1]) && Contained(q, c, areas[..n]) && areas[n] == Area(Lo(g), Hi(g))
    ensures Fresh(q, c, g, Lo(g)) && Hi(g) <= USER_PAGES
  {
    assert areas[..n + 1][..n] == areas[..n] && areas[..n + 1][n] == areas[n];
    NotYet(q, c, areas[..n + 1], n);
  }

  /** One turn of the loop of `load_icode`: `create_vma`, `region_alloc`, and the test of `p_filesz` */
  method LoadSegment(t: Tables, c: nat, segs: seq<Segment>, n: nat, answers: seq<Answer>, ghost base: map<nat, Mm>,
                     ghost top: nat, ghost s: State, ghost b: Bill)
    returns (ok: bool)
    requires n < |segs| && Fitting(segs) && Core(t.S()) && Loading(s, t.S(), c, segs, n)
    requires Furnished(t.S(), base, c, top, Layout(segs), n, BrkOf(segs))
    requires Paid(t.S(), c, b, 4 + n) && b == SpawnBill(segs, answers, b.start)
    modifies t
    ensures t.live == old(t.live)
    ensures ok ==> Core(t.S()) && Loading(s, t.S(), c, segs, n + 1) && Accepted(segs[n])
    ensures ok ==> Furnished(t.S(), base, c, top, Layout(segs), n + 1, BrkOf(segs)) && Paid(t.S(), c, b, 4 + (n + 1))
    ensures !ok ==> !Startable(segs) || !Affordable(b)
  {
    if segs[n].memsz == 0 {
      assert !Accepted(segs[n]);
      return false;
    }
    ghost var areas := Layout(segs);
    TightArea(segs[n]);
    assert areas[n] == AreaOf(segs[n]) == MappedOf(segs[n]);
    ghost var p := t.pte;
    ok := AddArea(t, c, AreaOf(segs[n]), Reply(answers, 4 + n), base, top, areas, n, BrkOf(segs), segs, n, s, b, 4 + n);
    if !ok {
      RefusedArea(segs, n);
      return false;
    }
    FreshArea(p, c, areas, n, segs[n]);
    SegmentBilled(segs, n);
    ok := RegionAlloc(t, c, segs, n, s, b, 4 + n + 1);
    if !ok {
      return false;
    }
    if |segs[n].file| > segs[n].memsz {
      assert !Accepted(segs[n]);
      return false;
    }
    ContainedAdds(p, t.pte, c, areas, n);
  }

  lemma SegmentBilled(segs: seq<Segment>, n: nat)
    requires n < |segs|
    ensures forall v: nat :: Touches(segs[n], v) ==> v in ProgramPages(segs)
  {
    forall v: nat | Touches(segs[n], v) ensures v in ProgramPages(segs) {
      InProgram(segs, v);
    }
  }

  /** An area that `create_vma` would refuse is in no program that can be started. */
  lemma RefusedArea(segs: seq<Segment>, n: nat)
    requires n < |Layout(segs)|
    ensures Startable(segs) ==> 0 < Layout(segs)[n].lo && Clear(Layout(segs)[..n], Layout(segs)[n])
  {
    var areas := Layout(segs);
    if Startable(segs) {
      assert n < |segs| ==> Accepted(segs[n]) && areas[n] == AreaOf(segs[n]);
      assert n == |segs| ==> areas[n] == Area(STACK, TEMP);
      forall i | 0 <= i < n ensures areas[..n][i].hi <= areas[n].lo || areas[n].hi <= areas[..n][i].lo {
        assert areas[..n][i] == areas[i];
      }
    }
  }

  /** The loop of `load_icode` over the program headers */
  method LoadSegments(t: Tables, c: nat, segs: seq<Segment>, answers: seq<Answer>, ghost base: map<nat, Mm>,
                      ghost top: nat, ghost s: State, ghost b: Bill)
    returns (ok: bool)
    requires Core(t.S()) && Loading(s, t.S(), c, segs, 0) && Fitting(segs)
    requires Furnished(t.S(), base, c, top, Layout(segs), 0, BrkOf(segs))
    requires Paid(t.S(), c, b, 4) && b == SpawnBill(segs, answers, b.start)
    modifies t
    ensures t.live == old(t.live)
    ensures ok ==> Core(t.S()) && Loading(s, t.S(), c, segs, |segs|) && Snug(segs, |segs|)
    ensures ok ==> Furnished(t.S(), base, c, top, Layout(segs), |segs|, BrkOf(segs)) && Paid(t.S(), c, b, 4 + |segs|)
    ensures !ok ==> !Startable(segs) || !Affordable(b)
  {
    for n := 0 to |segs|
      invariant t.live == old(t.live) && Core(t.S()) && Loading(s, t.S(), c, segs, n) && Snug(segs, n)
      invariant Furnished(t.S(), base, c, top, Layout(segs), n, BrkOf(segs)) && Paid(t.S(), c, b, 4 + n)
    {
      ok := LoadSegment(t, c, segs, n, answers, base, top, s, b);
      if !ok {
        return false;
      }
    }
    return true;
  }

  /** A segment that passes the tests of `load_icode`, with its pages those of its area */
  ghost predicate Accepted(g: Segment) {
    0 < Lo(g) && |g.file| <= g.memsz && 0 < g.memsz && MappedOf(g) == AreaOf(g)
  }

  ghost predicate Snug(segs: seq<Segment>, n: nat) {
    n <= |segs| && forall i :: 0 <= i < n ==> Accepted(segs[i])
  }

  /** A program that passes all tests of `load_icode` */
  ghost predicate Startable(segs: seq<Segment>) {
    Snug(segs, |segs|) && LaidOut(Layout(segs)) && BrkOf(segs) > 0
  }

  /** The heap area lies below the stack. */
  lemma HeapIsLow(segs: seq<Segment>)
    requires Snug(segs, |segs|) && LaidOut(AreasOf(segs) + [Area(STACK, TEMP)])
    ensures BrkOf(segs) <= STACK
  {
    BrkFollowsSegment(segs);
    if BrkOf(segs) != 0 {
      var i :| 0 <= i < |segs| && BrkOf(segs) == Hi(segs[i]);
      var areas := AreasOf(segs) + [Area(STACK, TEMP)];
      assert areas[i] == AreaOf(segs[i]) && areas[|segs|] == Area(STACK, TEMP);
    }
  }

  /** What page `v` of a new task shows */
  function Content(segs: seq<Segment>, v: nat): Page {
    if segs == [] then Zero()
    else
      var g := segs[|segs| - 1];
      if Lo(g) <= v < Hi(g) then PageOf(g, v) else Content(segs[..|segs| - 1], v)
  }

  ghost function AfterSpawn(e: Memory, c: nat, segs: seq<Segment>): Memory {
    imap k: Key | (if k.mm == c then Covered(Layout(segs), k.index) else k in e) ::
      if k.mm == c then Content(segs, k.index) else e[k]
  }

  lemma {:induction false} LoadedContent(t: State, c: nat, segs: seq<Segment>, v: nat)
    requires forall i :: 0 <= i < |segs| ==> Loaded(t, c, segs[i], Hi(segs[i]))
    requires Snug(segs, |segs|)
    ensures Covered(AreasOf(segs), v) ==> Key(c, v) in t.pte && View(t, Key(c, v)) == Content(segs, v)
    ensures !Covered(AreasOf(segs), v) ==> Content(segs, v) == Zero()
  {
    if segs != [] {
      var n := |segs| - 1;
      var some := segs[..n];
      forall i | 0 <= i < |some| ensures Loaded(t, c, some[i], Hi(some[i])) {
        assert some[i] == segs[i];
      }
      LoadedContent(t, c, some, v);
      assert Loaded(t, c, segs[n], Hi(segs[n]));
      CoveredMore(AreasOf(segs), n, v);
      assert AreasOf(segs)[..n] == AreasOf(some) && AreasOf(segs)[..n + 1] == AreasOf(segs);
      assert AreasOf(segs)[n] == AreaOf(segs[n]);
    }
  }

  lemma ContentView(t: State, c: nat, segs: seq<Segment>, v: nat)
    requires forall i :: 0 <= i < |segs| ==> Loaded(t, c, segs[i], Hi(segs[i]))
    requires Snug(segs, |segs|) && Contained(t.pte, c, AreasOf(segs))
    ensures View(t, Key(c, v)) == Content(segs, v)
  {
    LoadedContent(t, c, segs, v);
    assert Key(c, v) in t.pte ==> Covered(AreasOf(segs), Key(c, v).index);
  }

  /** What loading has to get right at page `k` */
  ghost predicate SpawnRight(s: State, t: State, c: nat, segs: seq<Segment>, live: set<nat>, k: Key) {
    if k.mm == c
    then (Visible(t.mms, live + {c}, k) <==> Covered(Layout(segs), k.index)) && View(t, k) == Content(segs, k.index)
    else (Visible(t.mms, live + {c}, k) <==> Visible(s.mms, live, k)) && View(t, k) == View(s, k)
  }

  lemma SpawnKey(s: State, t: State, c: nat, segs: seq<Segment>, live: set<nat>, top: nat, k: Key)
    requires Loading(s, t, c, segs, |segs|) && c !in s.mms && Snug(segs, |segs|) && Contained(t.pte, c, AreasOf(segs))
    requires t.mms == s.mms[c := Mm(top, Layout(segs), BrkOf(segs))]
    ensures SpawnRight(s, t, c, segs, live, k)
  {
    if k.mm == c {
      assert k == Key(c, k.index);
      ContentView(t, c, segs, k.index);
    }
  }

  lemma SpawnImageFrom(s: State, t: State, c: nat, segs: seq<Segment>, live: set<nat>)
    requires forall k :: SpawnRight(s, t, c, segs, live, k)
    ensures Image(t, live + {c}) == AfterSpawn(Image(s, live), c, segs)
  {
    var e := AfterSpawn(Image(s, live), c, segs);
    forall k: Key ensures (Visible(t.mms, live + {c}, k) <==> k in e) && (k in e ==> View(t, k) == e[k]) {
      assert SpawnRight(s, t, c, segs, live, k);
    }
  }

  lemma SpawnImage(s: State, t: State, c: nat, segs: seq<Segment>, live: set<nat>, top: nat)
    requires Loading(s, t, c, segs, |segs|) && c !in s.mms && Snug(segs, |segs|) && Contained(t.pte, c, AreasOf(segs))
    requires t.mms == s.mms[c := Mm(top, Layout(segs), BrkOf(segs))]
    ensures Image(t, live + {c}) == AfterSpawn(Image(s, live), c, segs)
  {
    forall k ensures SpawnRight(s, t, c, segs, live, k) { SpawnKey(s, t, c, segs, live, top, k); }
    SpawnImageFrom(s, t, c, segs, live);
  }

  lemma SpawnPopulated(t: State, c: nat, segs: seq<Segment>, top: nat)
    requires forall i :: 0 <= i < |segs| ==> Loaded(t, c, segs[i], Hi(segs[i]))
    requires Snug(segs, |segs|)
    ensures Populated(t.pte, c, Mm(top, Layout(segs), BrkOf(segs)))
  {
  }

  lemma CoveredByLayout(segs: seq<Segment>, v: nat)
    requires Covered(AreasOf(segs), v)
    ensures Covered(Layout(segs), v)
  {
    var i :| 0 <= i < |AreasOf(segs)| && AreasOf(segs)[i].lo <= v < AreasOf(segs)[i].hi;
    assert Layout(segs)[i] == AreasOf(segs)[i];
  }

  lemma SpawnArranged(s: State, t: State, c: nat, segs: seq<Segment>, live: set<nat>, top: nat)
    requires Arranged(s.pte, s.mms, live) && Loading(s, t, c, segs, |segs|) && c !in s.mms
    requires Snug(segs, |segs|) && Contained(t.pte, c, AreasOf(segs))
    requires t.mms == s.mms[c := Mm(top, Layout(segs), BrkOf(segs))] && LaidOut(Layout(segs))
    ensures Arranged(t.pte, t.mms, live + {c})
  {
    forall k | k in t.pte ensures Homed(t.mms, k) {
      if k.mm == c { CoveredByLayout(segs, k.index); } else { assert Homed(s.mms, k); }
    }
    forall x | x in t.mms ensures LaidOut(t.mms[x].areas) {
      assert x != c ==> LaidOut(s.mms[x].areas);
    }
    SpawnPopulated(t, c, segs, top);
    forall x | x in live && x != c ensures x in t.mms && Populated(t.pte, x, t.mms[x]) {
      assert Populated(s.pte, x, s.mms[x]);
      SamePopulated(s, t, c, x, s.mms[x]);
    }
  }

  lemma SamePopulated(s: State, t: State, c: nat, x: nat, mm: Mm)
    requires Others(s, t, c) && x != c && Populated(s.pte, x, mm)
    ensures Populated(t.pte, x, mm)
  {
  }

  lemma EmptySpace(s: State, c: nat, f: nat, segs: seq<Segment>, live: set<nat>)
    requires Core(s) && s.held == {} && f in s.free && c !in s.mms && Arranged(s.pte, s.mms, live)
    ensures var t := WithTop(Allocated(s, f), c, f, BrkOf(segs));
            Core(t) && Loading(s, t, c, segs, 0) && Furnished(t, s.mms, c, f, Layout(segs), 0, BrkOf(segs))
  {
    AllocKeeps(s, f);
    WithTopKeeps(Allocated(s, f), c, f, BrkOf(segs));
    Processes.TopUse(s, c, f, BrkOf(segs));
    var t := WithTop(Allocated(s, f), c, f, BrkOf(segs));
    forall k ensures View(t, k) == View(s, k) { QuietView(s, t, k); }
    forall k | k in s.pte ensures k.mm != c { assert Homed(s.mms, k); }
  }

  /** `task_set_vm` of a task without a parent, after `alloc_mm` */
  method NewSpace(t: Tables, c: nat, segs: seq<Segment>, ghost live: set<nat>) returns (ok: bool, ghost top: nat)
    requires Core(t.S()) && t.held == {} && c !in t.mms && Arranged(t.pte, t.mms, live)
    modifies t
    ensures t.live == old(t.live) && Core(t.S())
    ensures t.pte == old(t.pte) && t.last == old(t.last) && t.middle == old(t.middle)
    ensures ok ==> Loading(old(t.S()), t.S(), c, segs, 0)
    ensures ok ==> Furnished(t.S(), old(t.mms), c, top, Layout(segs), 0, BrkOf(segs))
    ensures ok <==> old(|t.free|) >= 1
    ensures ok ==> |t.free| == old(|t.free|) - 1 && t.pool == old(t.pool)
  {
    top := 0;
    ghost var s := t.S();
    var o := t.PageAlloc();
    if o.None? {
      return false, 0;
    }
    EmptySpace(s, c, o.value, segs, live);
    Processes.SetTop(t, c, o.value, BrkOf(segs));
    return true, o.value;
  }

  /** The stack area of `load_icode` */
  method AddStack(t: Tables, c: nat, segs: seq<Segment>, answers: seq<Answer>, ghost base: map<nat, Mm>, ghost top: nat,
                  ghost s: State, ghost b: Bill)
    returns (ok: bool)
    requires Core(t.S()) && Loading(s, t.S(), c, segs, |segs|)
    requires Furnished(t.S(), base, c, top, Layout(segs), |segs|, BrkOf(segs))
    requires Paid(t.S(), c, b, 4 + |segs|) && b == SpawnBill(segs, answers, b.start)
    modifies t
    ensures t.live == old(t.live) && Core(t.S()) && Loading(s, t.S(), c, segs, |segs|) && t.pte == old(t.pte)
    ensures ok ==> Furnished(t.S(), base, c, top, Layout(segs), |segs| + 1, BrkOf(segs))
    ensures if ok then Paid(t.S(), c, b, 4 + |segs| + 1) else !Startable(segs) || !Affordable(b)
  {
    ghost var areas, n := Layout(segs), |segs|;
    assert areas[n] == Area(STACK, TEMP);
    ok := AddArea(t, c, Area(STACK, TEMP), Reply(answers, 4 + |segs|), base, top, areas, n, BrkOf(segs), segs, n, s,
                  b, 4 + n);
    if !ok { RefusedArea(segs, n); }
  }

  lemma LayoutFacts(segs: seq<Segment>)
    ensures var areas, n := Layout(segs), |segs|;
            && |areas| == n + 2 && areas[n + 1] == Area(BrkOf(segs), BrkOf(segs) + 1)
            && areas[..n] == AreasOf(segs) && areas[..n + 1] == AreasOf(segs) + [Area(STACK, TEMP)]
            && areas[..n + 2] == areas
  {
  }

  lemma HeapFits(t: State, base: map<nat, Mm>, c: nat, top: nat, segs: seq<Segment>, brk: nat)
    requires Furnished(t, base, c, top, Layout(segs), |segs| + 1, brk) && Snug(segs, |segs|) && brk == BrkOf(segs)
    ensures |Layout(segs)| == |segs| + 2 && Layout(segs)[|segs| + 1] == Area(brk, brk + 1) && brk < TEMP
  {
    LayoutFacts(segs);
    HeapIsLow(segs);
  }

  lemma HeapRefused(segs: seq<Segment>, brk: nat, b: Bill)
    requires |Layout(segs)| == |segs| + 2 && Layout(segs)[|segs| + 1] == Area(brk, brk + 1)
    requires brk == 0 || !Clear(Layout(segs)[..|segs| + 1], Area(brk, brk + 1)) || !Affordable(b)
    ensures !Startable(segs) || !Affordable(b)
  {
    RefusedArea(segs, |segs| + 1);
  }

  /** The heap area of `load_icode` */
  method AddHeap(t: Tables, c: nat, lo: nat, segs: seq<Segment>, answers: seq<Answer>, ghost areas: seq<Area>,
                 ghost base: map<nat, Mm>, ghost top: nat, ghost s: State, ghost b: Bill)
    returns (ok: bool)
    requires Core(t.S()) && Loading(s, t.S(), c, segs, |segs|) && lo < TEMP
    requires |areas| == |segs| + 2 && areas[|segs| + 1] == Area(lo, lo + 1)
    requires Furnished(t.S(), base, c, top, areas, |segs| + 1, lo)
    requires Paid(t.S(), c, b, 4 + |segs| + 1) && b.calls == 4 + |segs| + 2 && b.answers == answers
    modifies t
    ensures t.live == old(t.live) && Core(t.S()) && Loading(s, t.S(), c, segs, |segs|) && t.pte == old(t.pte)
    ensures ok ==> Furnished(t.S(), base, c, top, areas, |segs| + 2, lo) && lo > 0 && Paid(t.S(), c, b, b.calls)
    ensures !ok ==> lo == 0 || !Clear(areas[..|segs| + 1], Area(lo, lo + 1)) || !Affordable(b)
  {
    ok := AddArea(t, c, Area(lo, lo + 1), Reply(answers, 4 + |segs| + 1), base, top, areas, |segs| + 1, lo, segs,
                  |segs|, s, b, 4 + |segs| + 1);
  }

  /** The stack and heap areas of `load_icode` */
  method AddStackAndHeap(t: Tables, c: nat, segs: seq<Segment>, answers: seq<Answer>, ghost base: map<nat, Mm>,
                         ghost top: nat, ghost s: State, ghost b: Bill)
    returns (ok: bool)
    requires Core(t.S()) && Loading(s, t.S(), c, segs, |segs|) && Snug(segs, |segs|)
    requires Furnished(t.S(), base, c, top, Layout(segs), |segs|, BrkOf(segs))
    requires Paid(t.S(), c, b, 4 + |segs|) && b == SpawnBill(segs, answers, b.start)
    modifies t
    ensures t.live == old(t.live) && Core(t.S()) && Loading(s, t.S(), c, segs, |segs|) && t.pte == old(t.pte)
    ensures ok ==> t.mms == base[c := Mm(top, Layout(segs), BrkOf(segs))] && Startable(segs)
    ensures if ok then Paid(t.S(), c, b, b.calls) else !Startable(segs) || !Affordable(b)
  {
    ok := AddStack(t, c, segs, answers, base, top, s, b);
    if ok {
      var lo := BrkOf(segs);
      HeapFits(t.S(), base, c, top, segs, lo);
      ok := AddHeap(t, c, lo, segs, answers, Layout(segs), base, top, s, b);
      LayoutFacts(segs);
      if !ok { HeapRefused(segs, lo, b); }
    }
  }

  /** `load_icode` into the new address space */
  method LoadIcode(t: Tables, c: nat, segs: seq<Segment>, answers: seq<Answer>, ghost base: map<nat, Mm>,
                   ghost top: nat, ghost s: State, ghost b: Bill)
    returns (ok: bool)
    requires Core(t.S()) && Loading(s, t.S(), c, segs, 0) && Fitting(segs)
    requires Furnished(t.S(), base, c, top, Layout(segs), 0, BrkOf(segs))
    requires Paid(t.S(), c, b, 4) && b == SpawnBill(segs, answers, b.start)
    modifies t
    ensures t.live == old(t.live)
    ensures ok ==> Core(t.S()) && Loading(s, t.S(), c, segs, |segs|) && Contained(t.pte, c, AreasOf(segs))
    ensures ok ==> t.mms == base[c := Mm(top, Layout(segs), BrkOf(segs))] && Startable(segs)
    ensures if ok then Paid(t.S(), c, b, b.calls) else !Startable(segs) || !Affordable(b)
  {
    ok := LoadSegments(t, c, segs, answers, base, top, s, b);
    if ok {
      assert Layout(segs)[..|segs|] == AreasOf(segs);
      ok := AddStackAndHeap(t, c, segs, answers, base, top, s, b);
    }
  }

  /** All pages of the program are there, so the bill was paid in full. */
  lemma LoadedAll(s: State, t: State, c: nat, segs: seq<Segment>, b: Bill)
    requires Loading(s, t, c, segs, |segs|) && Paid(t, c, b, b.calls) && b.pages == ProgramPages(segs)
    ensures Affordable(b) && Spent(SupplyOf(t), 1 + Cost(b.pages, b.own), b.answers, b.calls, b.start)
  {
    forall v | v in b.pages ensures v in Pages(t.pte, c) {
      InProgram(segs, v);
      var i :| 0 <= i < |segs| && Touches(segs[i], v);
      assert Loaded(t, c, segs[i], Hi(segs[i]));
      InPages(t.pte, c, v);
    }
    assert b.pages == Pages(t.pte, c);
  }

  lemma SpawnValid(s: State, t: State, c: nat, segs: seq<Segment>, live: set<nat>, top: nat)
    requires Valid(s, live) && Core(t) && Loading(s, t, c, segs, |segs|) && c !in s.mms
    requires Snug(segs, |segs|) && Contained(t.pte, c, AreasOf(segs))
    requires t.mms == s.mms[c := Mm(top, Layout(segs), BrkOf(segs))] && LaidOut(Layout(segs))
    ensures Spawned(s, t, c, segs, live)
  {
    SpawnArranged(s, t, c, segs, live, top);
    SpawnImage(s, t, c, segs, live, top);
  }

  /** `load_icode`, and what it gives the new task */
  method FillSpace(t: Tables, c: nat, segs: seq<Segment>, answers: seq<Answer>, ghost top: nat, ghost s: State,
                   ghost b: Bill)
    returns (ok: bool)
    requires Core(t.S()) && Loading(s, t.S(), c, segs, 0) && Fitting(segs) && Valid(s, t.live) && c !in s.mms
    requires Furnished(t.S(), s.mms, c, top, Layout(segs), 0, BrkOf(segs))
    requires Paid(t.S(), c, b, 4) && b == SpawnBill(segs, answers, b.start)
    modifies t
    ensures t.live == old(t.live)
    ensures ok ==> Spawned(s, t.S(), c, segs, t.live)
    ensures ok ==> Spent(SupplyOf(t.S()), 1 + Cost(b.pages, b.own), b.answers, b.calls, b.start)
    ensures ok <==> Startable(segs) && Affordable(b)
  {
    ok := LoadIcode(t, c, segs, answers, s.mms, top, s, b);
    if ok {
      LoadedAll(s, t.S(), c, segs, b);
      SpawnValid(s, t.S(), c, segs, t.live, top);
    }
  }

  /** The new task sees its program, and nobody else sees a change. */
  ghost predicate Spawned(s: State, t: State, c: nat, segs: seq<Segment>, live: set<nat>) {
    && Valid(t, live + {c}) && t.mms.Keys == s.mms.Keys + {c} && t.pool.frames == s.pool.frames
    && Image(t, live + {c}) == AfterSpawn(Image(s, live), c, segs)
  }

  /** `task_create` once the objects of `task_alloc` are there */
  method Create(t: Tables, c: nat, segs: seq<Segment>, answers: seq<Answer>, ghost start: Supply) returns (ok: bool)
    requires Valid(t.S(), t.live) && c !in t.mms && Fitting(segs) && Spent(SupplyOf(t.S()), 0, answers, 4, start)
    modifies t
    ensures ok ==> t.live == old(t.live) + {c} && Spawned(old(t.S()), t.S(), c, segs, old(t.live))
    ensures ok ==> Spent(SupplyOf(t.S()), SpawnFrames(segs), answers, 6 + |segs|, start)
    ensures ok <==> Startable(segs) && Affordable(SpawnBill(segs, answers, start))
  {
    ghost var s := t.S();
    ghost var b := SpawnBill(segs, answers, start);
    ghost var top;
    ok, top := NewSpace(t, c, segs, t.live);
    if !ok {
      TopShort(b);
      return;
    }
    StartPaid(s, t.S(), c, b, 4);
    ok := FillSpace(t, c, segs, answers, top, s, b);
    if ok { t.live := t.live + {c}; }
  }

  lemma TopShort(b: Bill)
    requires b.calls >= 4 && Given(b.answers, 4) && Taken(b.answers, 4) == b.start.free
    ensures !Affordable(b)
  {
    TakenGrows(b.answers, 4, b.calls);
  }

  /** From `s` to `t` the first `n` objects were taken, and nobody saw a change. */
  ghost predicate Taking(s: State, t: State, live: set<nat>, answers: seq<Answer>, n: nat) {
    && Valid(t, live) && t.mms == s.mms && t.pool.frames == s.pool.frames && Image(t, live) == Image(s, live)
    && Spent(SupplyOf(t), 0, answers, n, SupplyOf(s))
  }

  method TakeObject(t: Tables, answers: seq<Answer>, n: nat, ghost s: State) returns (ok: bool)
    requires Taking(s, t.S(), t.live, answers, n)
    modifies t
    ensures t.live == old(t.live)
    ensures ok ==> Taking(s, t.S(), t.live, answers, n + 1)
    ensures ok <==> Affords(answers, n + 1, 0, |s.free|)
  {
    ghost var u := t.S();
    NextObject(SupplyOf(u), 0, answers, n, SupplyOf(s));
    ok := Kmalloc(t, Reply(answers, n));
    Processes.QuietValid(u, t.S(), t.live);
  }

  /** The objects of `task_alloc`: the record, its files and its address space */
  method TakeObjects(t: Tables, answers: seq<Answer>) returns (ok: bool)
    requires Valid(t.S(), t.live)
    modifies t
    ensures ok ==> t.live == old(t.live) && Taking(old(t.S()), t.S(), t.live, answers, 4)
    ensures ok <==> Affords(answers, 4, 0, old(|t.free|))
  {
    ghost var s := t.S();
    for n := 0 to 4
      invariant t.live == old(t.live) && Taking(s, t.S(), t.live, answers, n)
    {
      ok := TakeObject(t, answers, n, s);
      if !ok {
        Unaffordable(answers, n + 1, 0, 4, 0, |s.free|);
        return;
      }
    }
    return true;
  }

  /** The frames that a new task takes, besides those of objects */
  ghost function SpawnFrames(segs: seq<Segment>): nat {
    1 + Cost(ProgramPages(segs), true)
  }

  /** A program start succeeds exactly when there is a process number, the program passes the tests of
      `load_icode`, and the bill can be paid. */
  ghost predicate Starts(s: State, segs: seq<Segment>, pid: bool, answers: seq<Answer>) {
    pid && Startable(segs) && Affordable(SpawnBill(segs, answers, SupplyOf(s)))
  }

  /** The byte that task `c` reads at address `a`, if there is one */
  ghost function Peek(e: Memory, c: nat, a: nat): Option<Byte> {
    if Key(c, a / 4096) in e then Some(e[Key(c, a / 4096)][a % 4096]) else None
  }

  /** The bytes of the file are where the program header says, zeros follow up to the segment's size, and
      there are no other bytes but zero. */
  ghost predicate ShowsProgram(e: Memory, c: nat, segs: seq<Segment>) {
    && (forall i, a: nat :: 0 <= i < |segs| && segs[i].va <= a < segs[i].va + segs[i].memsz ==>
          Peek(e, c, a) == Some(if a < segs[i].va + |segs[i].file| then segs[i].file[a - segs[i].va] else 0))
    && (forall a: nat :: Peek(e, c, a).Some? && (forall g :: g in segs ==> !(g.va <= a < g.va + |g.file|)) ==>
          Peek(e, c, a) == Some(0))
  }

  /** The pages that a new task has: those of its segments, the stack, and one for the heap */
  ghost predicate HasPages(e: Memory, c: nat, segs: seq<Segment>) {
    forall v: nat :: Key(c, v) in e <==>
      || (exists g :: g in segs && g.va / 4096 <= v < (g.va + g.memsz + 4095) / 4096)
      || 0xBF400 <= v < 0xBF800
      || v == BrkOf(segs)
  }

  /** Nobody but `c` sees a change. */
  ghost predicate SameElsewhere(e: Memory, f: Memory, c: nat) {
    forall k: Key :: k.mm != c ==> (k in f <==> k in e) && (k in e ==> f[k] == e[k])
  }

  lemma AddressFacts(a: nat)
    ensures a / 4096 * 4096 + a % 4096 == a && (a + 4096) / 4096 == a / 4096 + 1
  {
  }

  lemma Quotients(a: nat, b: nat)
    requires a <= b
    ensures a / 4096 <= b / 4096
  {
  }

  lemma AddressTouches(g: Segment, a: nat)
    requires g.va <= a < g.va + g.memsz
    ensures Touches(g, a / 4096)
  {
    AddressFacts(a);
    Quotients(g.va, a);
    Quotients(a + 4096, g.va + g.memsz + 4095);
  }

  lemma PageByte(g: Segment, a: nat)
    ensures PageOf(g, a / 4096)[a % 4096] == if g.va <= a < g.va + |g.file| then g.file[a - g.va] else 0
  {
    AddressFacts(a);
    var o: Offset := a % 4096;
    assert PageOf(g, a / 4096)[o] == ByteAt(g, a / 4096 * 4096 + o);
  }

  lemma {:induction false} ContentOf(segs: seq<Segment>, i: nat, v: nat)
    requires i < |segs| && Touches(segs[i], v) && forall j :: i < j < |segs| ==> !Touches(segs[j], v)
    ensures Content(segs, v) == PageOf(segs[i], v)
  {
    var n := |segs| - 1;
    if i < n {
      assert !Touches(segs[n], v);
      ContentOf(segs[..n], i, v);
    }
  }

  lemma {:induction false} ContentOfNone(segs: seq<Segment>, v: nat)
    requires forall g :: g in segs ==> !Touches(g, v)
    ensures Content(segs, v) == Zero()
  {
    if segs != [] {
      assert segs[|segs| - 1] in segs;
      ContentOfNone(segs[..|segs| - 1], v);
    }
  }

  lemma OneToucher(segs: seq<Segment>, i: nat, j: nat, v: nat)
    requires Startable(segs) && i < |segs| && j < |segs| && i != j && Touches(segs[i], v)
    ensures !Touches(segs[j], v)
  {
    var areas := Layout(segs);
    assert areas[i] == AreaOf(segs[i]) == MappedOf(segs[i]) && areas[j] == AreaOf(segs[j]) == MappedOf(segs[j]);
  }

  lemma StartableContent(segs: seq<Segment>, i: nat, v: nat)
    requires Startable(segs) && i < |segs| && Touches(segs[i], v)
    ensures Content(segs, v) == PageOf(segs[i], v)
  {
    forall j | i < j < |segs| ensures !Touches(segs[j], v) { OneToucher(segs, i, j, v); }
    ContentOf(segs, i, v);
  }

  lemma LayoutCovers(segs: seq<Segment>, v: nat)
    requires Startable(segs)
    ensures Covered(Layout(segs), v) <==>
            (exists g :: g in segs && Touches(g, v)) || STACK <= v < TEMP || v == BrkOf(segs)
  {
    var areas, n := Layout(segs), |segs|;
    assert areas[n] == Area(STACK, TEMP) && areas[n + 1] == Area(BrkOf(segs), BrkOf(segs) + 1);
    forall i | 0 <= i < n ensures areas[i].lo <= v < areas[i].hi <==> Touches(segs[i], v) {
      assert areas[i] == AreaOf(segs[i]) && Accepted(segs[i]);
    }
  }

  lemma SegmentShown(e: Memory, c: nat, segs: seq<Segment>, i: nat, a: nat)
    requires Startable(segs) && i < |segs| && segs[i].va <= a < segs[i].va + segs[i].memsz
    ensures var g := segs[i];
            Peek(AfterSpawn(e, c, segs), c, a) == Some(if a < g.va + |g.file| then g.file[a - g.va] else 0)
  {
    AddressTouches(segs[i], a);
    assert segs[i] in segs;
    LayoutCovers(segs, a / 4096);
    StartableContent(segs, i, a / 4096);
    PageByte(segs[i], a);
  }

  lemma RestIsZero(e: Memory, c: nat, segs: seq<Segment>, a: nat)
    requires Startable(segs) && Peek(AfterSpawn(e, c, segs), c, a).Some?
    requires forall g :: g in segs ==> !(g.va <= a < g.va + |g.file|)
    ensures Peek(AfterSpawn(e, c, segs), c, a) == Some(0)
  {
    var v := a / 4096;
    if i :| 0 <= i < |segs| && Touches(segs[i], v) {
      StartableContent(segs, i, v);
      PageByte(segs[i], a);
    } else {
      ContentOfNone(segs, v);
    }
  }

  lemma SpawnShows(e: Memory, c: nat, segs: seq<Segment>)
    requires Startable(segs)
    ensures ShowsProgram(AfterSpawn(e, c, segs), c, segs) && HasPages(AfterSpawn(e, c, segs), c, segs)
    ensures SameElsewhere(e, AfterSpawn(e, c, segs), c)
  {
    var f := AfterSpawn(e, c, segs);
    forall i, a: nat | 0 <= i < |segs| && segs[i].va <= a < segs[i].va + segs[i].memsz
      ensures Peek(f, c, a) == Some(if a < segs[i].va + |segs[i].file| then segs[i].file[a - segs[i].va] else 0)
    {
      SegmentShown(e, c, segs, i, a);
    }
    forall a: nat | Peek(f, c, a).Some? && forall g :: g in segs ==> !(g.va <= a < g.va + |g.file|)
      ensures Peek(f, c, a) == Some(0)
    {
      RestIsZero(e, c, segs, a);
    }
    SpawnPages(e, c, segs);
  }

  lemma SpawnPages(e: Memory, c: nat, segs: seq<Segment>)
    requires Startable(segs)
    ensures HasPages(AfterSpawn(e, c, segs), c, segs)
  {
    var f := AfterSpawn(e, c, segs);
    forall v: nat ensures
        Key(c, v) in f <==>
        || (exists g :: g in segs && g.va / 4096 <= v < (g.va + g.memsz + 4095) / 4096)
        || 0xBF400 <= v < 0xBF800
        || v == BrkOf(segs)
    {
      LayoutCovers(segs, v);
      assert forall g :: Touches(g, v) <==> g.va / 4096 <= v < (g.va + g.memsz + 4095) / 4096;
    }
  }

  /** `task_create`, as far as memory goes: the new task sees its program, zeros on its stack and
      heap, and nobody else sees a change. When it returns false the kernel has panicked. */
  method TaskCreate(t: Tables, c: nat, segs: seq<Segment>, pid: bool, answers: seq<Answer>) returns (ok: bool)
    requires Valid(t.S(), t.live) && c !in t.mms && Fitting(segs)
    modifies t
    ensures ok <==> Starts(old(t.S()), segs, pid, answers)
    ensures ok ==> Valid(t.S(), t.live) && t.live == old(t.live) + {c} && t.mms.Keys == old(t.mms.Keys) + {c}
    ensures ok ==> Image(t.S(), t.live) == AfterSpawn(old(Image(t.S(), t.live)), c, segs)
    ensures ok ==> ShowsProgram(Image(t.S(), t.live), c, segs) && HasPages(Image(t.S(), t.live), c, segs)
    ensures ok ==> SameElsewhere(old(Image(t.S(), t.live)), Image(t.S(), t.live), c)
    ensures ok ==> t.pool.frames == old(t.pool.frames)
    ensures ok ==> Spent(SupplyOf(t.S()), SpawnFrames(segs), answers, 6 + |segs|, old(SupplyOf(t.S())))
  {
    ghost var b := SpawnBill(segs, answers, SupplyOf(t.S()));
    ok := TakeObjects(t, answers);
    if !ok {
      Unaffordable(answers, 4, 0, b.calls, 1 + Cost(b.pages, true), b.start.free);
      return;
    }
    if !pid {
      return false;
    }
    ok := Create(t, c, segs, answers, b.start);
    if ok {
      SpawnShows(old(Image(t.S(), t.live)), c, segs);
    }
  }

  const ONE_PAGE: seq<Segment> := [Segment(0x800000, 0x1000, [], true)]

  lemma OnePageLayout()
    ensures Fitting(ONE_PAGE) && Startable(ONE_PAGE)
  {
    var g := ONE_PAGE[0];
    assert Lo(g) == 0x800 && Hi(g) == 0x801 && AreaOf(g) == MappedOf(g) == Area(0x800, 0x801) && Accepted(g);
    assert EndOf(ONE_PAGE[..0], false) == 0 && EndOf(ONE_PAGE, false) == 0 && EndOf(ONE_PAGE, true) == 0x801000;
    assert BrkOf(ONE_PAGE) == 0x801;
    assert Layout(ONE_PAGE) == [Area(0x800, 0x801), Area(STACK, TEMP), Area(0x801, 0x802)];
  }

  lemma OnePageCost()
    ensures ProgramPages(ONE_PAGE) == {0x800} && Cost({0x800}, true) == 3
  {
    forall v: nat ensures v in ProgramPages(ONE_PAGE) <==> v == 0x800 {
      InProgram(ONE_PAGE, v);
      assert Touches(ONE_PAGE[0], v) <==> v == 0x800;
    }
    assert Over({0x800}) == {4} by { assert 0x800 / 512 == 4; }
    assert Over({4}) == {0} by { assert 4 / 512 == 0; }
  }

  /** A program of one page, when the caches have all objects at hand, takes four frames. */
  lemma OnePageStarts(s: State, answers: seq<Answer>)
    requires |answers| == 7 && forall i :: 0 <= i < 7 ==> answers[i] == Object(0)
    ensures Starts(s, ONE_PAGE, true, answers) <==> |s.free| >= 4
  {
    OnePageLayout();
    OnePageCost();
    NothingTaken(answers, 7);
  }

  lemma {:induction false} NothingTaken(answers: seq<Answer>, n: nat)
    requires n <= |answers| && forall i :: 0 <= i < n ==> answers[i] == Object(0)
    ensures Given(answers, n) && Taken(answers, n) == 0
  {
    if n > 0 { NothingTaken(answers, n - 1); }
  }
}
