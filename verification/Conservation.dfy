/** Where every page frame is, and what exit gives back (kernel/syscall/exit.c). */
module Conservation {
  import opened PageFrames
  import opened Paging
  import opened Spaces
  import opened Teardown
  import PageFault

  ghost function DataFrames(pte: map<Key, Pte>): set<nat> {
    set k | k in pte :: pte[k].frame
  }

  /** `fs` are the values of `a`, which are all different. */
  ghost predicate Listed<K(!new)>(a: map<K, nat>, fs: set<nat>) {
    && (forall k :: k in a ==> a[k] in fs)
    && (forall f :: f in fs ==> exists k :: k in a && a[k] == f)
    && (forall j, k :: j in a && k in a && a[j] == a[k] ==> j == k)
  }

  lemma {:induction false} ListedSize<K(!new)>(a: map<K, nat>, fs: set<nat>)
    requires Listed(a, fs)
    ensures |fs| == |a|
    decreases |a|
  {
    if a == map[] {
      assert fs == {};
    } else {
      var k :| k in a;
      var b := a - {k};
      forall f | f in fs - {a[k]} ensures exists j :: j in b && b[j] == f {
        var j :| j in a && a[j] == f;
        assert j in b;
      }
      ListedSize(b, fs - {a[k]});
      assert a.Keys == b.Keys + {k};
    }
  }

  ghost function WithRole(s: State, which: Role -> bool): set<nat> {
    set f | f in s.role && which(s.role[f])
  }

  ghost function Tops(mms: map<nat, Mm>): map<nat, nat> {
    map m | m in mms :: mms[m].top
  }

  lemma TablesListed(s: State)
    requires Owned(s.role, s.last, s.middle, s.mms) && NoneLost(s.role, s.last, s.middle, s.mms)
    ensures Listed(s.last, WithRole(s, (r: Role) => r.Last?))
    ensures Listed(s.middle, WithRole(s, (r: Role) => r.Middle?))
    ensures Listed(Tops(s.mms), WithRole(s, (r: Role) => r.Top?))
  {
    forall f | f in s.role ensures Reached(s.role[f], f, s.last, s.middle, s.mms) { }
    forall f | f in s.role && s.role[f].Top? ensures exists m :: m in Tops(s.mms) && Tops(s.mms)[m] == f {
      assert s.role[f].mm in Tops(s.mms);
    }
    forall j, k | j in s.last && k in s.last && s.last[j] == s.last[k] ensures j == k { }
    forall j, k | j in s.middle && k in s.middle && s.middle[j] == s.middle[k] ensures j == k { }
    forall j, k | j in s.mms && k in s.mms && s.mms[j].top == s.mms[k].top ensures j == k { }
  }

  lemma DataListed(s: State)
    requires Used(s.role, s.pte)
    ensures DataFrames(s.pte) == WithRole(s, (r: Role) => r.Data?)
  {
    forall f | f in s.role && s.role[f].Data? ensures f in DataFrames(s.pte) {
      assert Mappers(s.pte, f) != {};
      var k :| k in Mappers(s.pte, f);
      assert s.pte[k].frame == f;
    }
  }

  lemma SixParts(all: set<nat>, a: set<nat>, b: set<nat>, c: set<nat>, d: set<nat>, e: set<nat>, f: set<nat>)
    requires all == a + b + c + d + e + f
    requires a !! b !! c !! d !! e !! f
    ensures |all| == |a| + |b| + |c| + |d| + |e| + |f|
  {
  }

  /** Frame conservation: the frames are the free ones, the object caches', the mapped data frames
      and one per table, whatever has happened. */
  lemma Accounting(s: State)
    requires Core(s) && s.held == {}
    ensures |s.pool.frames| == |s.free| + |s.pool.slab| + |DataFrames(s.pte)| + |s.last| + |s.middle| + |s.mms|
  {
    TablesListed(s);
    DataListed(s);
    var l, m := WithRole(s, (r: Role) => r.Last?), WithRole(s, (r: Role) => r.Middle?);
    var t := WithRole(s, (r: Role) => r.Top?);
    ListedSize(s.last, l);
    ListedSize(s.middle, m);
    ListedSize(Tops(s.mms), t);
    assert Tops(s.mms).Keys == s.mms.Keys;
    RolesSplit(s, l, m, t);
    SixParts(s.pool.frames, s.free, s.pool.slab, DataFrames(s.pte), l, m, t);
  }

  lemma RolesSplit(s: State, l: set<nat>, m: set<nat>, t: set<nat>)
    requires Pooled(s.pool, s.free, s.held, s.role) && s.held == {}
    requires DataFrames(s.pte) == WithRole(s, (r: Role) => r.Data?)
    requires l == WithRole(s, (r: Role) => r.Last?) && m == WithRole(s, (r: Role) => r.Middle?)
    requires t == WithRole(s, (r: Role) => r.Top?)
    ensures s.pool.frames == s.free + s.pool.slab + DataFrames(s.pte) + l + m + t
    ensures s.free !! s.pool.slab !! DataFrames(s.pte) !! l !! m !! t
  {
  }

  /** Frames that address space `m` alone holds: its tables, and the data frames nobody else maps. */
  ghost predicate Alone(s: State, m: nat, f: nat) {
    || (m in s.mms && s.mms[m].top == f)
    || (exists k :: k in s.middle && k.mm == m && s.middle[k] == f)
    || (exists k :: k in s.last && k.mm == m && s.last[k] == f)
    || (Mappers(s.pte, f) != {} && forall k :: k in Mappers(s.pte, f) ==> k.mm == m)
  }

  /** Every entry names a frame of its own role. */
  ghost predicate Roles(s: State) {
    && (forall k :: k in s.last ==> s.last[k] in s.role && s.role[s.last[k]] == Last(k))
    && (forall k :: k in s.middle ==> s.middle[k] in s.role && s.role[s.middle[k]] == Middle(k))
    && (forall m :: m in s.mms ==> s.mms[m].top in s.role && s.role[s.mms[m].top] == Top(m))
    && (forall k :: k in s.pte ==> s.pte[k].frame in s.role && s.role[s.pte[k].frame] == Data)
  }

  lemma CoreRoles(s: State)
    requires Core(s)
    ensures Roles(s)
  {
  }

  /** Frame `f` holds a table, or one of the entries `all` maps it. */
  ghost predicate InUse(s: State, all: map<Key, Pte>, f: nat) {
    || (exists k :: k in s.last && s.last[k] == f)
    || (exists k :: k in s.middle && s.middle[k] == f)
    || (exists m :: m in s.mms && s.mms[m].top == f)
    || Mappers(all, f) != {}
  }

  /** A frame is free, the object caches', or used by some entry. */
  lemma FreeOrInUse(s: State, all: map<Key, Pte>, f: nat)
    requires Ledger(s, all) && s.held == {} && f in s.role && f !in s.free && f !in s.pool.slab
    ensures InUse(s, all, f)
  {
    assert Reached(s.role[f], f, s.last, s.middle, s.mms);
    assert s.role[f].Data? ==> Mappers(all, f) != {};
    assert !s.role[f].Held?;
  }

  /** Frame `f` is on a page of `m` outside its areas. */
  ghost predicate Stranded(s: State, m: nat, f: nat)
    requires m in s.mms
  {
    exists k :: k in s.pte && k.mm == m && !Covered(s.mms[m].areas, k.index) && s.pte[k].frame == f
  }

  lemma LeftIsPresent(s: State, m: nat, f: nat)
    requires m in s.mms && Mappers(Left(s, m), f) != {}
    ensures exists k :: k in s.pte && s.pte[k].frame == f && (k.mm == m ==> Stranded(s, m, f))
  {
    var k :| k in Mappers(Left(s, m), f);
    assert k in s.pte && s.pte[k].frame == f;
  }

  lemma UsedElsewhere(s: State, t: State, m: nat, f: nat)
    requires Roles(s) && m in s.mms && Vanished(s, t, m) && InUse(t, Left(s, m), f)
    ensures f in s.role && !s.role[f].Free? && (Alone(s, m, f) ==> Stranded(s, m, f))
  {
    if Mappers(Left(s, m), f) != {} {
      LeftIsPresent(s, m, f);
      var k :| k in s.pte && s.pte[k].frame == f && (k.mm == m ==> Stranded(s, m, f));
      assert k in Mappers(s.pte, f) && s.role[f] == Data;
    } else {
      TableElsewhere(s, t, m, f);
    }
  }

  lemma TableElsewhere(s: State, t: State, m: nat, f: nat)
    requires Roles(s) && m in s.mms && Vanished(s, t, m) && InUse(t, map[], f)
    ensures f in s.role && !s.role[f].Free? && !Alone(s, m, f)
  {
    assert forall k :: k in Mappers(s.pte, f) ==> s.role[f] == Data;
  }

  lemma AloneIsFreed(s: State, t: State, m: nat, f: nat)
    requires Core(s) && m in s.mms && Ledger(t, Left(s, m)) && Vanished(s, t, m) && s.held == {}
    requires f in s.role && f !in s.pool.slab && (f in s.free || (Alone(s, m, f) && !Stranded(s, m, f)))
    ensures f in t.free
  {
    assert f in t.role;
    if f !in t.free {
      FreeOrInUse(t, Left(s, m), f);
      CoreRoles(s);
      UsedElsewhere(s, t, m, f);
    }
  }

  lemma AloneIsNoSlab(s: State, m: nat, f: nat)
    requires Core(s) && Alone(s, m, f)
    ensures f !in s.pool.slab
  {
  }

  lemma LedgerRoles(t: State, all: map<Key, Pte>)
    requires Ledger(t, all)
    ensures forall k :: k in t.last ==> t.last[k] in t.role && t.role[t.last[k]] == Last(k)
    ensures forall k :: k in t.middle ==> t.middle[k] in t.role && t.role[t.middle[k]] == Middle(k)
    ensures forall m :: m in t.mms ==> t.mms[m].top in t.role && t.role[t.mms[m].top] == Top(m)
    ensures forall k :: k in all ==> all[k].frame in t.role && t.role[all[k].frame] == Data
  {
  }

  lemma NoneLeft(s: State, m: nat, f: nat)
    requires m in s.mms && Mappers(Left(s, m), f) == {}
    ensures forall k :: k in s.pte && s.pte[k].frame == f ==> k.mm == m && Covered(s.mms[m].areas, k.index)
  {
    forall k | k in s.pte && s.pte[k].frame == f ensures k.mm == m && Covered(s.mms[m].areas, k.index) {
      assert k !in Mappers(Left(s, m), f);
    }
  }

  lemma FreeIsUnused(t: State, all: map<Key, Pte>, f: nat)
    requires Ledger(t, all) && f in t.free
    ensures f in t.role && !InUse(t, all, f)
  {
    LedgerRoles(t, all);
  }

  lemma WasAlone(s: State, t: State, m: nat, f: nat)
    requires m in s.mms && Vanished(s, t, m) && InUse(s, s.pte, f) && !InUse(t, Left(s, m), f)
    ensures Alone(s, m, f) && !Stranded(s, m, f)
  {
    NoneLeft(s, m, f);
    forall k | k in s.last && s.last[k] == f ensures k.mm == m { assert k.mm != m ==> k in t.last; }
    forall k | k in s.middle && s.middle[k] == f ensures k.mm == m { assert k.mm != m ==> k in t.middle; }
    forall x | x in s.mms && s.mms[x].top == f ensures x == m { assert x != m ==> x in t.mms; }
  }

  lemma FreedWasAlone(s: State, t: State, m: nat, f: nat)
    requires Core(s) && m in s.mms && Ledger(t, Left(s, m)) && Vanished(s, t, m) && s.held == {} && f in t.free
    ensures f in s.role && (f in s.free || (Alone(s, m, f) && !Stranded(s, m, f)))
  {
    FreeIsUnused(t, Left(s, m), f);
    assert f in s.role && f !in s.pool.slab;
    if f !in s.free {
      FreeOrInUse(s, s.pte, f);
      WasAlone(s, t, m, f);
    }
  }

  /** The entries of address space `m` in its areas that map `f` */
  ghost function Own(s: State, m: nat, f: nat): set<Key>
    requires m in s.mms
  {
    set k | k in s.pte && k.mm == m && s.pte[k].frame == f && Covered(s.mms[m].areas, k.index)
  }

  lemma MappersSplit(s: State, m: nat, f: nat)
    requires m in s.mms
    ensures |Mappers(s.pte, f)| == |Mappers(Left(s, m), f)| + |Own(s, m, f)|
  {
    assert Mappers(s.pte, f) == Mappers(Left(s, m), f) + Own(s, m, f);
    assert Mappers(Left(s, m), f) !! Own(s, m, f);
  }

  /** Exit gives the pool exactly the frames the address space alone held, but for those on pages outside
      its areas, and drops one reference for each mapping in its areas. */
  lemma ExitReturns(s: State, t: State, m: nat)
    requires Core(s) && m in s.mms && Ledger(t, Left(s, m)) && Vanished(s, t, m) && s.held == {}
    ensures forall f :: f in t.free <==> f in s.role && (f in s.free || (Alone(s, m, f) && !Stranded(s, m, f)))
    ensures forall f :: f in t.role && t.role[f].Data? ==>
              f in s.nref && f in t.nref && s.nref[f] == t.nref[f] + |Own(s, m, f)|
  {
    forall f ensures f in t.free <==> f in s.role && (f in s.free || (Alone(s, m, f) && !Stranded(s, m, f))) {
      if f in t.free {
        FreedWasAlone(s, t, m, f);
      } else if f in s.role && Alone(s, m, f) && !Stranded(s, m, f) {
        AloneIsNoSlab(s, m, f);
        AloneIsFreed(s, t, m, f);
      } else if f in s.free {
        AloneIsFreed(s, t, m, f);
      }
    }
    forall f | f in t.role && t.role[f].Data?
      ensures f in s.nref && f in t.nref && s.nref[f] == t.nref[f] + |Own(s, m, f)|
    {
      SharedLoses(s, t, m, f);
    }
  }

  lemma SharedLoses(s: State, t: State, m: nat, f: nat)
    requires Core(s) && m in s.mms && Ledger(t, Left(s, m)) && Vanished(s, t, m) && f in t.role && t.role[f].Data?
    ensures f in s.nref && f in t.nref && s.nref[f] == t.nref[f] + |Own(s, m, f)|
  {
    assert Mappers(Left(s, m), f) != {};
    LeftIsPresent(s, m, f);
    var k :| k in s.pte && s.pte[k].frame == f;
    assert s.role[s.pte[k].frame] == Data;
    MappersSplit(s, m, f);
  }

  /** A page of `m` outside its areas: after `exit_mm` its frame is not free and counts a mapping that no
      entry holds; if only `m` mapped it, nothing leads to it any more. */
  lemma StrandedFrame(s: State, t: State, m: nat, k: Key)
    requires Core(s) && m in s.mms && Ledger(t, Left(s, m)) && Vanished(s, t, m)
    requires k in s.pte && k.mm == m && !Covered(s.mms[m].areas, k.index)
    ensures var f := s.pte[k].frame;
            && f in t.role && f !in t.free && f in t.nref && t.nref[f] > |Mappers(t.pte, f)|
            && (Alone(s, m, f) ==> !InUse(t, t.pte, f))
  {
    var all := Left(s, m);
    assert k in all;
    LedgerRoles(t, all);
    assert t.nref[s.pte[k].frame] == |Mappers(all, s.pte[k].frame)|;
    MoreMappers(all, t.pte, k);
    CoreRoles(s);
    if Alone(s, m, s.pte[k].frame) { NothingLeads(s, t, m, k); }
  }

  lemma NothingLeads(s: State, t: State, m: nat, k: Key)
    requires Roles(s) && Vanished(s, t, m) && k in s.pte && Alone(s, m, s.pte[k].frame)
    ensures !InUse(t, t.pte, s.pte[k].frame)
  {
    var f := s.pte[k].frame;
    assert s.role[f] == Data;
    forall j | j in t.pte ensures t.pte[j].frame != f {
      assert t.pte[j].frame == f ==> j in Mappers(s.pte, f);
    }
  }

  /** The frames after an exit: exactly those that were free or that the address space alone held are free. */
  ghost predicate Freed(s: State, t: State, m: nat) {
    t.pool == s.pool && forall f :: f in t.free <==> f in s.free || Alone(s, m, f)
  }

  lemma VanishedLater(s: State, u: State, t: State, m: nat)
    requires GrewIn(s, u, m) && Torn(u, t, m)
    ensures Vanished(s, t, m)
  {
  }

  lemma NoneStranded(s: State, t: State, m: nat)
    requires Inside(s.pte, s.mms) && m in s.mms && Pruned(s.pte, t.pte, m) && Gone(t.pte, m)
    ensures t.pte == Left(s, m) && forall f :: !Stranded(s, m, f)
  {
    forall k | k in s.pte && k.mm == m ensures Covered(s.mms[m].areas, k.index) { assert Homed(s.mms, k); }
  }

  /** An address space with all its pages in areas exits, perhaps after its tables have grown. */
  lemma ExitFrees(s: State, u: State, t: State, m: nat)
    requires Core(s) && Inside(s.pte, s.mms) && m in s.mms && s.held == {}
    requires GrewIn(s, u, m) && Torn(u, t, m) && Core(t)
    ensures Freed(s, t, m)
  {
    VanishedLater(s, u, t, m);
    NoneStranded(s, t, m);
    ExitReturns(s, t, m);
    AloneIsFrame(s, m);
  }

  lemma AloneIsFrame(s: State, m: nat)
    requires Core(s)
    ensures forall f :: Alone(s, m, f) || f in s.free ==> f in s.role
  {
    CoreRoles(s);
    forall f | Mappers(s.pte, f) != {} ensures f in s.role {
      var k :| k in Mappers(s.pte, f);
      assert s.pte[k].frame == f;
    }
  }

  /** What is neither free nor the object caches' is in use. */
  lemma IdleOrInUse(s: State, f: nat)
    requires Core(s) && s.held == {} && f in s.role
    ensures f in s.free + s.pool.slab <==> !InUse(s, s.pte, f)
  {
    if f in s.free {
      FreeIsUnused(s, s.pte, f);
    } else if f in s.pool.slab {
      LedgerRoles(s, s.pte);
    } else {
      FreeOrInUse(s, s.pte, f);
    }
  }

  /** Two states with the same tables and the same frames under their entries have the same frames idle. */
  lemma SameIdle(s: State, t: State)
    requires Core(s) && Core(t) && s.held == {} && t.held == {} && t.pool.frames == s.pool.frames
    requires t.last == s.last && t.middle == s.middle && t.mms == s.mms
    requires forall k :: (k in s.pte <==> k in t.pte) && (k in s.pte ==> t.pte[k].frame == s.pte[k].frame)
    ensures t.free + t.pool.slab == s.free + s.pool.slab
    ensures |t.free| + |t.pool.slab| == |s.free| + |s.pool.slab|
  {
    forall f: nat ensures f in t.free + t.pool.slab <==> f in s.free + s.pool.slab {
      assert Mappers(t.pte, f) == Mappers(s.pte, f);
      assert f in t.role <==> f in s.role;
      if f in s.role {
        IdleOrInUse(s, f);
        IdleOrInUse(t, f);
      }
    }
    assert s.free !! s.pool.slab && t.free !! t.pool.slab;
    assert |s.free + s.pool.slab| == |s.free| + |s.pool.slab| && |t.free + t.pool.slab| == |t.free| + |t.pool.slab|;
  }

  lemma SingleCount(s: State, k: Key)
    requires Counted(s.role, s.nref, s.pte) && Used(s.role, s.pte) && Single(s.pte) && k in s.pte
    ensures s.pte[k].frame in s.nref && s.nref[s.pte[k].frame] == |Mappers(s.pte, s.pte[k].frame)|
    ensures s.pte[k].write ==> s.nref[s.pte[k].frame] == 1
  {
    var f := s.pte[k].frame;
    assert s.role[f] == Data;
    if s.pte[k].write {
      forall j | j in Mappers(s.pte, f) ensures j == k {
        assert s.pte[j].frame == f;
      }
      assert k in Mappers(s.pte, f);
      assert Mappers(s.pte, f) == {k};
    }
  }

  /** Between operations: a frame's count is the number of its mappings, a writable frame has one,
      the scratch pages are unmapped, and a free frame is mapped nowhere. */
  lemma StepBoundary(s: State, live: set<nat>)
    requires Valid(s, live)
    ensures forall k :: k in s.pte ==>
              s.pte[k].frame in s.nref && s.nref[s.pte[k].frame] == |Mappers(s.pte, s.pte[k].frame)|
    ensures forall k :: k in s.pte && s.pte[k].write ==> s.nref[s.pte[k].frame] == 1
    ensures forall m :: Key(m, TEMP) !in s.pte
    ensures forall f :: f in s.free ==> Mappers(s.pte, f) == {}
  {
    forall k | k in s.pte
      ensures s.pte[k].frame in s.nref && s.nref[s.pte[k].frame] == |Mappers(s.pte, s.pte[k].frame)|
      ensures s.pte[k].write ==> s.nref[s.pte[k].frame] == 1
    {
      SingleCount(s, k);
    }
    forall m ensures Key(m, TEMP) !in s.pte { PageFault.ScratchAbsent(s, live, m); }
    forall f | f in s.free ensures Mappers(s.pte, f) == {} {
      assert forall k :: k in s.pte ==> s.role[s.pte[k].frame] == Data;
    }
  }
}
