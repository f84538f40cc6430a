/** `do_fork`: the child shares every present page read-only (kernel/syscall/fork.c). */
module Fork {
  import opened PageFrames
  import opened Paging
  import opened Spaces
  import opened Teardown
  import opened Budget

  // ----- object memory

  ghost function Restocked(role: map<nat, Role>, moved: set<nat>, r: Role): map<nat, Role> {
    map f | f in role :: if f in moved then r else role[f]
  }

  /** The object caches take the frames `taken` from the pool. */
  ghost function Stocked(s: State, taken: set<nat>): State {
    State(Pool(s.pool.frames, s.pool.slab + taken), s.free - taken, s.held, Restocked(s.role, taken, Slab), s.nref,
          s.data, s.pte, s.last, s.middle, s.mms)
  }

  /** The object caches return the frames `given`. */
  ghost function Unstocked(s: State, given: set<nat>): State {
    State(Pool(s.pool.frames, s.pool.slab - given), s.free + given, s.held, Restocked(s.role, given, Free), s.nref,
          s.data, s.pte, s.last, s.middle, s.mms)
  }

  lemma StockKeeps(s: State, taken: set<nat>)
    requires Core(s) && taken <= s.free
    ensures Core(Stocked(s, taken))
  {
  }

  lemma UnstockKeeps(s: State, given: set<nat>)
    requires Core(s) && given <= s.pool.slab
    ensures Core(Unstocked(s, given))
  {
  }

  /** From `s` to `t`, only frames that were free changed hands. */
  ghost predicate Quiet(s: State, t: State) {
    t.pool.frames == s.pool.frames && t.held == s.held && SameData(s, t) && SameUse(s, t)
  }

  lemma QuietTrans(s: State, t: State, u: State)
    requires Quiet(s, t) && Quiet(t, u)
    ensures Quiet(s, u)
  {
  }

  lemma StockQuiet(s: State, taken: set<nat>)
    requires Core(s) && taken <= s.free
    ensures Quiet(s, Stocked(s, taken))
  {
  }

  lemma {:induction false} SomeOf(free: set<nat>, n: nat)
    requires n <= |free|
    ensures exists taken: set<nat> :: taken <= free && |taken| == n
    decreases n
  {
    if n == 0 {
      var none: set<nat> := {};
      assert none <= free && |none| == 0;
    } else {
      SomeOf(free, n - 1);
      var some :| some <= free && |some| == n - 1;
      assert free - some == {} ==> free == some;
      var f :| f in free - some;
      assert some + {f} <= free && |some + {f}| == n;
    }
  }

  /** `kmalloc` with the answer `a`: the caches take the frames they need, if so many are free. */
  method Kmalloc(t: Tables, a: Answer) returns (ok: bool)
    requires Core(t.S())
    modifies t
    ensures t.live == old(t.live) && Core(t.S()) && Quiet(old(t.S()), t.S())
    ensures t.pte == old(t.pte) && t.last == old(t.last) && t.middle == old(t.middle) && t.mms == old(t.mms)
    ensures ok <==> a.Object? && old(|t.free|) >= a.frames
    ensures |t.free| == old(|t.free|) - if ok then Frames(a) else 0
    ensures |t.pool.slab| == old(|t.pool.slab|) + if ok then Frames(a) else 0
  {
    if a.Null? || |t.free| < a.frames {
      return false;
    }
    SomeOf(t.free, a.frames);
    var taken: set<nat> :| taken <= t.free && |taken| == a.frames;
    StockKeeps(t.S(), taken);
    StockQuiet(t.S(), taken);
    Stock(t, taken);
    return true;
  }

  method Stock(t: Tables, taken: set<nat>)
    requires taken <= t.free && taken !! t.pool.slab
    modifies t
    ensures t.live == old(t.live) && t.S() == Stocked(old(t.S()), taken) && |t.free| == old(|t.free|) - |taken|
    ensures |t.pool.slab| == old(|t.pool.slab|) + |taken|
  {
    t.free := t.free - taken;
    t.pool, t.role := Pool(t.pool.frames, t.pool.slab + taken), Restocked(t.role, taken, Slab);
  }

  // ----- sharing pages

  /** Entries outside the child `c` keep their frames and gain no right to write. */
  ghost predicate Demoted(p: map<Key, Pte>, q: map<Key, Pte>, c: nat) {
    && (forall k: Key :: k.mm != c ==> (k in p <==> k in q))
    && (forall k :: k in p && k in q && k.mm != c ==> q[k].frame == p[k].frame && (q[k].write ==> p[k].write))
  }

  /** Each of the child's entries repeats the parent's, and neither can be written. */
  ghost predicate Mirrored(q: map<Key, Pte>, m: nat, c: nat) {
    forall k :: k in q && k.mm == c ==>
      Key(m, k.index) in q && q[Key(m, k.index)] == q[k] && !q[k].write
  }

  /** The child has every page of the parent among `areas`. */
  ghost predicate Complete(q: map<Key, Pte>, m: nat, c: nat, areas: seq<Area>) {
    forall v :: Covered(areas, v) && Key(m, v) in q ==> Key(c, v) in q
  }

  /** `pte_clearwrite`, `atomic_inc` and the copy of the entry */
  ghost function PageShared(s: State, k: Key, j: Key): State
    requires k in s.pte
  {
    var f := s.pte[k].frame;
    State(s.pool, s.free, s.held, s.role, s.nref[f := Ref(s, f) + 1], s.data,
          s.pte[k := Pte(f, false)][j := Pte(f, false)], s.last, s.middle, s.mms)
  }

  lemma ShareKeeps(s: State, k: Key, j: Key)
    requires Core(s) && k in s.pte && j !in s.pte && Up(j) in s.last
    ensures Core(PageShared(s, k, j)) && Quiet(s, PageShared(s, k, j))
  {
    var f := s.pte[k].frame;
    RewriteKeeps(s, k, false);
    var t := State(s.pool, s.free, s.held, s.role, s.nref, s.data, s.pte[k := Pte(f, false)], s.last, s.middle, s.mms);
    MapKeeps(t, j, Pte(f, false));
    SharedIsMapped(s, t, k, j);
  }

  lemma SharedIsMapped(s: State, t: State, k: Key, j: Key)
    requires Pooled(s.pool, s.free, s.held, s.role) && Used(s.role, s.pte) && k in s.pte
    requires t == State(s.pool, s.free, s.held, s.role, s.nref, s.data, s.pte[k := Pte(s.pte[k].frame, false)], s.last,
                        s.middle, s.mms)
    ensures PageShared(s, k, j) == Mapped(t, j, Pte(s.pte[k].frame, false))
  {
  }

  lemma ShareDemotes(p: map<Key, Pte>, q: map<Key, Pte>, m: nat, c: nat, v: nat)
    requires m != c && Demoted(p, q, c) && Mirrored(q, m, c) && Key(m, v) in q && Key(c, v) !in q
    ensures var f := q[Key(m, v)].frame;
            var r := q[Key(m, v) := Pte(f, false)][Key(c, v) := Pte(f, false)];
            Demoted(p, r, c) && Mirrored(r, m, c)
  {
  }

  lemma ShareSingle(q: map<Key, Pte>, k: Key, j: Key)
    requires Single(q) && k in q && j !in q
    ensures Single(q[k := Pte(q[k].frame, false)][j := Pte(q[k].frame, false)])
  {
  }

  /** The child `c` shares pages of `m` and nothing else has changed since `s`. */
  ghost predicate Shares(s: State, t: State, m: nat, c: nat) {
    && Quiet(s, t) && Demoted(s.pte, t.pte, c) && Mirrored(t.pte, m, c) && Single(t.pte)
    && Confined(s.last, t.last, c) && Confined(s.middle, t.middle, c)
  }

  lemma SharesNext(s: State, t: State, m: nat, c: nat, v: nat)
    requires m != c && Core(t) && Shares(s, t, m, c) && Key(m, v) in t.pte && Key(c, v) !in t.pte
    requires Up(Key(c, v)) in t.last
    ensures var u := PageShared(t, Key(m, v), Key(c, v)); Core(u) && Shares(s, u, m, c)
  {
    ShareKeeps(t, Key(m, v), Key(c, v));
    QuietTrans(s, t, PageShared(t, Key(m, v), Key(c, v)));
    ShareDemotes(s.pte, t.pte, m, c, v);
    ShareSingle(t.pte, Key(m, v), Key(c, v));
  }

  /** Tables and the pool may change under a share. */
  lemma SharesQuietly(s: State, t: State, u: State, m: nat, c: nat)
    requires Shares(s, t, m, c) && Quiet(t, u) && u.pte == t.pte
    requires Confined(t.last, u.last, c) && Confined(t.middle, u.middle, c)
    ensures Shares(s, u, m, c)
  {
  }

  lemma GrewQuiet(s: State, t: State)
    requires Grew(s, t)
    ensures Quiet(s, t)
  {
  }

  method ShareEntry(t: Tables, k: Key, j: Key)
    requires k in t.pte && t.pte[k].frame in t.nref
    modifies t
    ensures t.live == old(t.live) && t.S() == PageShared(old(t.S()), k, j)
  {
    var f := t.pte[k].frame;
    t.pte := t.pte[k := Pte(f, false)];
    t.nref := t.nref[f := t.nref[f] + 1];
    t.pte := t.pte[j := t.pte[k]];
  }

  /** `page_walk` in the child's tables */
  method WalkChild(t: Tables, m: nat, j: Key, ghost s: State) returns (ok: bool)
    requires Core(t.S()) && Shares(s, t.S(), m, j.mm) && j.mm in t.mms && j.index < USER_PAGES
    modifies t
    ensures t.live == old(t.live) && t.mms == old(t.mms) && t.pte == old(t.pte) && Core(t.S()) && t.pool == old(t.pool)
    ensures Shares(s, t.S(), m, j.mm)
    ensures ok ==> Up(j) in t.last
    ensures ok <==> old(|t.free|) >= old(Missing(t.last, t.middle, j))
    ensures ok ==> |t.free| == old(|t.free|) - old(Missing(t.last, t.middle, j))
    ensures ok ==> Gained(old(t.last), t.last, Up(j)) && Gained(old(t.middle), t.middle, Up(Up(j)))
  {
    ghost var u := t.S();
    ok := t.PageWalk(j, true);
    GrewQuiet(u, t.S());
    SharesQuietly(s, u, t.S(), m, j.mm);
  }

  lemma SharedGains(p: map<Key, Pte>, k: Key, j: Key)
    requires k in p
    ensures Gained(p, p[k := Pte(p[k].frame, false)][j := Pte(p[k].frame, false)], j)
  {
  }

  method ShareOne(t: Tables, m: nat, c: nat, v: nat, ghost s: State)
    requires Core(t.S()) && Shares(s, t.S(), m, c) && m != c && Key(m, v) in t.pte && Key(c, v) !in t.pte
    requires Up(Key(c, v)) in t.last
    modifies t
    ensures t.live == old(t.live) && t.mms == old(t.mms) && Core(t.S()) && Shares(s, t.S(), m, c)
    ensures Gained(old(t.pte), t.pte, Key(c, v))
    ensures t.free == old(t.free) && t.last == old(t.last) && t.middle == old(t.middle) && t.pool == old(t.pool)
  {
    SharesNext(s, t.S(), m, c, v);
    PresentIsCounted(t.S(), Key(m, v));
    SharedGains(t.pte, Key(m, v), Key(c, v));
    ShareEntry(t, Key(m, v), Key(c, v));
  }

  /** The bill has the pages of the parent in area `a`. */
  ghost predicate Billed(p: map<Key, Pte>, m: nat, a: Area, b: Bill) {
    !b.own && forall v: nat :: a.lo <= v < a.hi && Key(m, v) in p ==> v in b.pages
  }

  /** The walk in the child's tables and the shared entry, with their cost */
  method ShareAndPay(t: Tables, m: nat, c: nat, v: nat, ghost s: State, ghost b: Bill, ghost i: nat) returns (ok: bool)
    requires Core(t.S()) && Shares(s, t.S(), m, c) && m != c && c in t.mms && v < USER_PAGES && Key(c, v) !in t.pte
    requires Key(m, v) in t.pte && Paid(t.S(), c, b, i) && v in b.pages && !b.own
    modifies t
    ensures t.live == old(t.live) && t.mms == old(t.mms) && Core(t.S()) && Shares(s, t.S(), m, c)
    ensures if ok then Gained(old(t.pte), t.pte, Key(c, v)) else t.pte == old(t.pte)
    ensures t.pool == old(t.pool)
    ensures if ok then Paid(t.S(), c, b, i) else !Affordable(b)
  {
    ghost var u := t.S();
    ok := WalkChild(t, m, Key(c, v), s);
    if ok {
      ShareOne(t, m, c, v, s);
      PagePaid(u, t.S(), c, b, i, v);
    } else {
      PageShort(u, c, b, i, v);
    }
  }

  /** One turn of the inner loop of `copy_task` */
  method SharePage(t: Tables, m: nat, c: nat, v: nat, ghost s: State, ghost b: Bill, ghost i: nat) returns (ok: bool)
    requires Core(t.S()) && Shares(s, t.S(), m, c) && m != c && c in t.mms && v < USER_PAGES && Key(c, v) !in t.pte
    requires Paid(t.S(), c, b, i) && !b.own && (Key(m, v) in s.pte ==> v in b.pages)
    modifies t
    ensures t.live == old(t.live) && t.mms == old(t.mms) && Core(t.S()) && Shares(s, t.S(), m, c)
    ensures t.pool == old(t.pool)
    ensures t.pte == old(t.pte) || Gained(old(t.pte), t.pte, Key(c, v))
    ensures ok && Key(m, v) in t.pte ==> Key(c, v) in t.pte
    ensures if ok then Paid(t.S(), c, b, i) else !Affordable(b)
  {
    if Key(m, v) !in t.pte {
      return true;
    }
    assert Key(m, v) in s.pte;
    ok := ShareAndPay(t, m, c, v, s, b, i);
  }

  /** The child's pages so far: those of the areas copied, and of area `a` those below `v`. */
  ghost predicate Progress(q: map<Key, Pte>, m: nat, c: nat, a: Area, v: nat) {
    forall x :: a.lo <= x < a.hi ==> if x < v then Key(m, x) in q ==> Key(c, x) in q else Key(c, x) !in q
  }

  lemma ProgressNext(p: map<Key, Pte>, q: map<Key, Pte>, m: nat, c: nat, a: Area, v: nat)
    requires Progress(p, m, c, a, v) && m != c && a.lo <= v
    requires q == p || Gained(p, q, Key(c, v))
    requires Key(m, v) in q ==> Key(c, v) in q
    ensures Progress(q, m, c, a, v + 1)
  {
  }

  /** From `p` to `q` only entries of the child in area `a` were added. */
  ghost predicate Adds(p: map<Key, Pte>, q: map<Key, Pte>, c: nat, a: Area) {
    && (forall k :: k in p ==> k in q)
    && (forall k :: k in q && k !in p ==> k.mm == c && a.lo <= k.index < a.hi)
  }

  lemma AddsNext(o: map<Key, Pte>, p: map<Key, Pte>, q: map<Key, Pte>, c: nat, a: Area, v: nat)
    requires Adds(o, p, c, a) && a.lo <= v < a.hi && (q == p || Gained(p, q, Key(c, v)))
    ensures Adds(o, q, c, a)
  {
  }

  /** Turn `v` of the inner loop, with what it keeps */
  method ShareTurn(t: Tables, m: nat, c: nat, a: Area, v: nat, ghost s: State, ghost o: map<Key, Pte>, ghost b: Bill,
                   ghost i: nat)
    returns (ok: bool)
    requires Core(t.S()) && Shares(s, t.S(), m, c) && m != c && c in t.mms && a.lo <= v < a.hi <= USER_PAGES
    requires Adds(o, t.pte, c, a) && Progress(t.pte, m, c, a, v)
    requires Paid(t.S(), c, b, i) && Billed(s.pte, m, a, b)
    modifies t
    ensures t.live == old(t.live) && t.mms == old(t.mms) && Core(t.S()) && Shares(s, t.S(), m, c)
    ensures Adds(o, t.pte, c, a) && t.pool == old(t.pool)
    ensures ok ==> Progress(t.pte, m, c, a, v + 1)
    ensures if ok then Paid(t.S(), c, b, i) else !Affordable(b)
  {
    ghost var p := t.pte;
    assert Key(c, v) !in t.pte;
    ok := SharePage(t, m, c, v, s, b, i);
    AddsNext(o, p, t.pte, c, a, v);
    if ok { ProgressNext(p, t.pte, m, c, a, v); }
  }

  /** The inner loop of `copy_task` */
  method ShareArea(t: Tables, m: nat, c: nat, a: Area, ghost s: State, ghost b: Bill, ghost i: nat) returns (ok: bool)
    requires Core(t.S()) && Shares(s, t.S(), m, c) && m != c && c in t.mms && a.lo < a.hi <= USER_PAGES
    requires forall k :: k in t.pte && k.mm == c ==> !(a.lo <= k.index < a.hi)
    requires Paid(t.S(), c, b, i) && Billed(s.pte, m, a, b)
    modifies t
    ensures t.live == old(t.live) && t.mms == old(t.mms) && Core(t.S()) && Shares(s, t.S(), m, c)
    ensures Adds(old(t.pte), t.pte, c, a) && t.pool == old(t.pool)
    ensures ok ==> Progress(t.pte, m, c, a, a.hi)
    ensures if ok then Paid(t.S(), c, b, i) else !Affordable(b)
  {
    var v := a.lo;
    while v < a.hi
      invariant a.lo <= v <= a.hi && t.pool == old(t.pool)
      invariant t.live == old(t.live) && t.mms == old(t.mms) && Core(t.S()) && Shares(s, t.S(), m, c)
      invariant Adds(old(t.pte), t.pte, c, a) && Progress(t.pte, m, c, a, v) && Paid(t.S(), c, b, i)
    {
      ok := ShareTurn(t, m, c, a, v, s, old(t.pte), b, i);
      if !ok {
        return false;
      }
      v := v + 1;
    }
    return true;
  }

  // ----- the areas

  lemma ContainedMore(q: map<Key, Pte>, c: nat, areas: seq<Area>, n: nat)
    requires n < |areas| && Contained(q, c, areas[..n])
    ensures Contained(q, c, areas[..n + 1])
  {
  }

  lemma ContainedAdds(p: map<Key, Pte>, q: map<Key, Pte>, c: nat, areas: seq<Area>, n: nat)
    requires n < |areas| && Contained(p, c, areas[..n]) && Adds(p, q, c, areas[n])
    ensures Contained(q, c, areas[..n + 1])
  {
  }

  lemma NotYet(q: map<Key, Pte>, c: nat, areas: seq<Area>, n: nat)
    requires n < |areas| && LaidOut(areas) && Contained(q, c, areas[..n])
    ensures forall k :: k in q && k.mm == c ==> !(areas[n].lo <= k.index < areas[n].hi)
  {
  }

  lemma CompleteMore(p: map<Key, Pte>, q: map<Key, Pte>, m: nat, c: nat, areas: seq<Area>, n: nat)
    requires n < |areas| && m != c && Complete(p, m, c, areas[..n]) && Adds(p, q, c, areas[n])
    requires Progress(q, m, c, areas[n], areas[n].hi)
    ensures Complete(q, m, c, areas[..n + 1])
  {
  }

  lemma AreaKeeps(s: State, c: nat, areas: seq<Area>)
    requires Core(s) && c in s.mms
    ensures var mms := s.mms[c := Mm(s.mms[c].top, areas, s.mms[c].brk)];
            Core(State(s.pool, s.free, s.held, s.role, s.nref, s.data, s.pte, s.last, s.middle, mms))
  {
    var mms := s.mms[c := Mm(s.mms[c].top, areas, s.mms[c].brk)];
    forall x | x in s.role ensures Reached(s.role[x], x, s.last, s.middle, mms) {
      assert Reached(s.role[x], x, s.last, s.middle, s.mms);
    }
    AreaOwned(s, c, mms, areas);
  }

  lemma AreaOwned(s: State, c: nat, mms: map<nat, Mm>, areas: seq<Area>)
    requires Owned(s.role, s.last, s.middle, s.mms) && Nested(s.pte, s.last, s.middle, s.mms)
    requires c in s.mms && mms == s.mms[c := Mm(s.mms[c].top, areas, s.mms[c].brk)]
    ensures Owned(s.role, s.last, s.middle, mms) && Nested(s.pte, s.last, s.middle, mms)
  {
  }

  method SetAreas(t: Tables, c: nat, areas: seq<Area>)
    requires Core(t.S()) && c in t.mms
    modifies t`mms
    ensures Core(t.S()) && t.mms == old(t.mms)[c := Mm(old(t.mms)[c].top, areas, old(t.mms)[c].brk)]
  {
    AreaKeeps(t.S(), c, areas);
    t.mms := t.mms[c := Mm(t.mms[c].top, areas, t.mms[c].brk)];
  }

  /** `create_vma` in the child: areas that are disjoint in the parent fit, so only `kmalloc` can fail. */
  method CreateVma(t: Tables, c: nat, a: Area, answer: Answer) returns (ok: bool)
    requires Core(t.S()) && c in t.mms
    modifies t
    ensures ok <==> answer.Object? && old(|t.free|) >= answer.frames
    ensures |t.free| == old(|t.free|) - (if ok then Frames(answer) else 0)
    ensures |t.pool.slab| == old(|t.pool.slab|) + (if ok then Frames(answer) else 0)
    ensures t.last == old(t.last) && t.middle == old(t.middle)
    ensures t.live == old(t.live) && Core(t.S()) && Quiet(old(t.S()), t.S()) && t.pte == old(t.pte)
    ensures !ok ==> t.mms == old(t.mms)
    ensures ok ==> t.mms == old(t.mms)[c := Mm(old(t.mms)[c].top, old(t.mms)[c].areas + [a], old(t.mms)[c].brk)]
  {
    ok := Kmalloc(t, answer);
    if ok {
      SetAreas(t, c, t.mms[c].areas + [a]);
    }
  }

  /** `n` areas of `m` have been given to the child, the last of them perhaps in part. */
  ghost predicate Copying(s: State, t: State, m: nat, c: nat, n: nat) {
    && m in s.mms && c in s.mms && n <= |s.mms[m].areas|
    && Shares(s, t, m, c) && Contained(t.pte, c, s.mms[m].areas[..n])
    && t.mms == s.mms[c := Mm(s.mms[c].top, s.mms[m].areas[..n], s.mms[c].brk)]
  }

  lemma CopyingGrows(s: State, t: State, u: State, m: nat, c: nat, n: nat)
    requires Copying(s, t, m, c, n) && n < |s.mms[m].areas| && Quiet(t, u) && u.pte == t.pte && m != c
    requires u.last == t.last && u.middle == t.middle
    requires u.mms == t.mms[c := Mm(t.mms[c].top, t.mms[c].areas + [s.mms[m].areas[n]], t.mms[c].brk)]
    ensures Copying(s, u, m, c, n + 1)
  {
    var areas := s.mms[m].areas;
    assert areas[..n] + [areas[n]] == areas[..n + 1];
    SharesQuietly(s, t, u, m, c);
    ContainedMore(t.pte, c, areas, n);
    var more := Mm(s.mms[c].top, areas[..n + 1], s.mms[c].brk);
    assert s.mms[c := Mm(s.mms[c].top, areas[..n], s.mms[c].brk)][c := more] == s.mms[c := more];
  }

  /** The job of copying the areas of `m` as they are in `s` */
  ghost predicate JobOf(s: State, m: nat, job: Job) {
    m in s.mms && job.pte == s.pte && job.m == m && job.areas == s.mms[m].areas
  }

  /** The first `n` areas are copied and paid for. */
  ghost predicate CopiedTo(s: State, t: State, m: nat, c: nat, n: nat, job: Job) {
    && JobOf(s, m, job) && n <= |job.areas|
    && Core(t) && Copying(s, t, m, c, n) && Complete(t.pte, m, c, job.areas[..n]) && Paid(t, c, Stage(job, n), 4 + n)
  }

  /** The child then has exactly the parent's pages in those areas. */
  lemma CopiedPages(s: State, t: State, m: nat, c: nat, n: nat, job: Job)
    requires CopiedTo(s, t, m, c, n, job) && m != c
    ensures Pages(t.pte, c) == Stage(job, n).pages
  {
    forall v: nat ensures v in Pages(t.pte, c) <==> v in Stage(job, n).pages {
      InPages(t.pte, c, v);
      InPages(s.pte, m, v);
      assert Key(c, v) in t.pte ==> Key(m, Key(c, v).index) in t.pte && Covered(job.areas[..n], Key(c, v).index);
      assert Key(m, v) in t.pte <==> Key(m, v) in s.pte;
    }
  }

  lemma StageBilled(s: State, m: nat, n: nat, job: Job)
    requires JobOf(s, m, job) && n < |job.areas|
    ensures Billed(s.pte, m, job.areas[n], Stage(job, n + 1))
  {
    forall v: nat | job.areas[n].lo <= v < job.areas[n].hi && Key(m, v) in s.pte ensures v in Stage(job, n + 1).pages {
      InPages(s.pte, m, v);
      assert job.areas[..n + 1][n] == job.areas[n];
    }
  }

  /** A fork that stopped: it got `got` objects, whose frames the caches hold, and could not pay for all. */
  ghost predicate Stopped(t: State, job: Job, got: nat) {
    && Obtained(job, 4 + |job.areas|, got) && !Affordable(Stage(job, |job.areas|))
    && |t.pool.slab| == job.start.slab + Taken(job.answers, got)
  }

  /** One turn of the outer loop of `copy_task` */
  method CopyArea(t: Tables, m: nat, c: nat, n: nat, a: Area, answer: Answer, ghost s: State, ghost job: Job)
    returns (ok: bool, ghost l: nat, ghost got: nat)
    requires CopiedTo(s, t.S(), m, c, n, job) && m != c
    requires n < |job.areas| && a == job.areas[n] && LaidOut(job.areas) && answer == Reply(job.answers, 4 + n)
    modifies t
    ensures t.live == old(t.live) && Core(t.S()) && Copying(s, t.S(), m, c, l)
    ensures if ok then CopiedTo(s, t.S(), m, c, n + 1, job) else Stopped(t.S(), job, got)
  {
    ghost var u := t.S();
    CopiedPages(s, u, m, c, n, job);
    StageObject(u, c, job, n);
    ok := CreateVma(t, c, a, answer);
    if !ok {
      SharesQuietly(s, u, t.S(), m, c);
      StoppedAtArea(job, n);
      return false, n, 4 + n;
    }
    CopyingGrows(s, u, t.S(), m, c, n);
    PaidMore(u, c, job, n);
    ObjectPaid(u, t.S(), c, Stage(job, n + 1), 4 + n);
    StageBilled(s, m, n, job);
    ok := SharePages(t, m, c, n, a, s, Stage(job, n + 1), 5 + n);
    l, got := n + 1, 5 + n;
    if !ok { StoppedInArea(job, n); }
  }

  /** The inner loop, and what it gives the child */
  method SharePages(t: Tables, m: nat, c: nat, n: nat, a: Area, ghost s: State, ghost b: Bill, ghost i: nat)
    returns (ok: bool)
    requires Core(t.S()) && Copying(s, t.S(), m, c, n + 1) && Complete(t.pte, m, c, s.mms[m].areas[..n]) && m != c
    requires a == s.mms[m].areas[n] && LaidOut(s.mms[m].areas) && Contained(t.pte, c, s.mms[m].areas[..n])
    requires Paid(t.S(), c, b, i) && Billed(s.pte, m, a, b)
    modifies t
    ensures t.live == old(t.live) && Core(t.S()) && Copying(s, t.S(), m, c, n + 1) && t.pool == old(t.pool)
    ensures ok ==> Complete(t.pte, m, c, s.mms[m].areas[..n + 1])
    ensures if ok then Paid(t.S(), c, b, i) else !Affordable(b)
  {
    ghost var p := t.pte;
    NotYet(p, c, s.mms[m].areas, n);
    ok := ShareArea(t, m, c, a, s, b, i);
    ContainedAdds(p, t.pte, c, s.mms[m].areas, n);
    if ok { CompleteMore(p, t.pte, m, c, s.mms[m].areas, n); }
  }

  /** The outer loop of `copy_task` */
  method CopyAreas(t: Tables, m: nat, c: nat, areas: seq<Area>, answers: seq<Answer>, ghost s: State, ghost job: Job)
    returns (ok: bool, ghost n: nat, ghost got: nat)
    requires CopiedTo(s, t.S(), m, c, 0, job) && m != c
    requires areas == job.areas && answers == job.answers && LaidOut(areas)
    modifies t
    ensures t.live == old(t.live) && Core(t.S()) && Copying(s, t.S(), m, c, n)
    ensures if ok then CopiedTo(s, t.S(), m, c, |areas|, job) else Stopped(t.S(), job, got)
  {
    for i := 0 to |areas|
      invariant t.live == old(t.live) && CopiedTo(s, t.S(), m, c, i, job)
    {
      ok, n, got := CopyArea(t, m, c, i, areas[i], Reply(answers, 4 + i), s, job);
      if !ok {
        return;
      }
    }
    return true, |areas|, 4 + |areas|;
  }

  /** `copy_task`: it completes exactly when the bill can be paid. */
  method CopyTask(t: Tables, m: nat, c: nat, answers: seq<Answer>, ghost job: Job)
    returns (ok: bool, ghost n: nat, ghost got: nat)
    requires Core(t.S()) && m in t.mms && c in t.mms && m != c && LaidOut(t.mms[m].areas)
    requires Single(t.pte) && t.mms[c].areas == [] && Gone(t.pte, c)
    requires JobOf(t.S(), m, job) && job.answers == answers && Paid(t.S(), c, Stage(job, 0), 4)
    modifies t
    ensures t.live == old(t.live) && Core(t.S()) && Copying(old(t.S()), t.S(), m, c, n)
    ensures if ok then CopiedTo(old(t.S()), t.S(), m, c, |job.areas|, job) else Stopped(t.S(), job, got)
  {
    CopyingStart(t.S(), m, c);
    ok, n, got := CopyAreas(t, m, c, t.mms[m].areas, answers, t.S(), job);
  }

  lemma CopyingStart(s: State, m: nat, c: nat)
    requires m in s.mms && c in s.mms && Single(s.pte) && s.mms[c].areas == [] && Gone(s.pte, c)
    ensures Copying(s, s, m, c, 0) && Complete(s.pte, m, c, s.mms[m].areas[..0])
  {
  }
}
