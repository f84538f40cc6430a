/** Page frames, their reference counts and the page tables of all address spaces, as a
    value: what `page_insert`, `page_remove`, `page_walk` and the teardown in `exit_mm` do to
    them (kernel/mm/page.c, kernel/syscall/exit.c). A page is named by its number `va >> 12`. */
module PageFrames {

  type Byte = b: nat | b < 256

  type Offset = o: nat | o < 4096

  type Page = p: seq<Byte> | |p| == 4096 witness Zeros()

  function Zeros(): (s: seq<Byte>)
    ensures |s| == 4096 && forall o :: 0 <= o < 4096 ==> s[o] == 0
  {
    seq(4096, _ => 0)
  }

  function Zero(): Page {
    Zeros()
  }

  /** An entry of some table of address space `mm`: a page, a page table or a middle table,
      by its number. */
  datatype Key = Key(mm: nat, index: nat)

  /** The table entry one level up. */
  function Up(k: Key): Key {
    Key(k.mm, k.index / 512)
  }

  datatype Pte = Pte(frame: nat, write: bool)

  /** Pages `lo..hi` */
  datatype Area = Area(lo: nat, hi: nat)

  /** `struct mm_struct`: the frame of the top table, the areas, and the page of `start_brk` */
  datatype Mm = Mm(top: nat, areas: seq<Area>, brk: nat)

  /** What a frame is used for. */
  datatype Role = Free | Slab | Held | Top(mm: nat) | Middle(key: Key) | Last(key: Key) | Data

  /** All page frames, and those the object caches hold. */
  datatype Pool = Pool(frames: set<nat>, slab: set<nat>)

  /** `free` is the buddy allocator's pool, `held` the frames just taken from it. */
  datatype State = State(
    pool: Pool,
    free: set<nat>,
    held: set<nat>,
    role: map<nat, Role>,
    nref: map<nat, nat>,
    data: map<nat, Page>,
    pte: map<Key, Pte>,
    last: map<Key, nat>,
    middle: map<Key, nat>,
    mms: map<nat, Mm>)

  /** Every table entry names a frame of its own role. */
  ghost predicate Owned(role: map<nat, Role>, last: map<Key, nat>, middle: map<Key, nat>, mms: map<nat, Mm>) {
    && (forall k {:trigger last[k]} :: k in last ==> last[k] in role && role[last[k]] == Last(k))
    && (forall k {:trigger middle[k]} :: k in middle ==> middle[k] in role && role[middle[k]] == Middle(k))
    && (forall m {:trigger mms[m].top} :: m in mms ==> mms[m].top in role && role[mms[m].top] == Top(m))
  }

  ghost predicate Reached(r: Role, f: nat, last: map<Key, nat>, middle: map<Key, nat>, mms: map<nat, Mm>) {
    match r
    case Last(k) => k in last && last[k] == f
    case Middle(k) => k in middle && middle[k] == f
    case Top(m) => m in mms && mms[m].top == f
    case _ => true
  }

  /** No table frame is lost: each is reached from the entry it is for. */
  ghost predicate NoneLost(role: map<nat, Role>, last: map<Key, nat>, middle: map<Key, nat>, mms: map<nat, Mm>) {
    forall f {:trigger Reached(role[f], f, last, middle, mms)} :: f in role ==> Reached(role[f], f, last, middle, mms)
  }

  /** The present entries that map frame `f`. */
  ghost function Mappers(pte: map<Key, Pte>, f: nat): set<Key> {
    set k | k in pte && pte[k].frame == f
  }

  /** The reference count a frame must have. */
  ghost function Due(r: Role, pte: map<Key, Pte>, f: nat): nat {
    match r
    case Last(_) => 1
    case Middle(_) => 1
    case Data => |Mappers(pte, f)|
    case _ => 0
  }

  ghost predicate Counted(role: map<nat, Role>, nref: map<nat, nat>, pte: map<Key, Pte>) {
    forall f {:trigger nref[f]} {:trigger f in nref} :: f in role ==> f in nref && nref[f] == Due(role[f], pte, f)
  }

  /** A frame is a data frame exactly while some entry maps it. */
  ghost predicate Used(role: map<nat, Role>, pte: map<Key, Pte>) {
    && (forall k {:trigger pte[k].frame} :: k in pte ==> pte[k].frame in role && role[pte[k].frame] == Data)
    && (forall f {:trigger Mappers(pte, f)} :: f in role && role[f] == Data ==> Mappers(pte, f) != {})
  }

  /** Every present entry sits in a table that exists. */
  ghost predicate Nested(pte: map<Key, Pte>, last: map<Key, nat>, middle: map<Key, nat>, mms: map<nat, Mm>) {
    && (forall k {:trigger Up(k) in last} :: k in pte ==> Up(k) in last)
    && (forall k {:trigger Up(k) in middle} :: k in last ==> Up(k) in middle)
    && (forall k {:trigger middle[k]} {:trigger k in middle} :: k in middle ==> k.mm in mms && k.index < 3)
  }

  ghost predicate Pooled(pool: Pool, free: set<nat>, held: set<nat>, role: map<nat, Role>) {
    && (forall f :: f in pool.frames <==> f in role)
    && (forall f :: f in pool.slab <==> f in role && role[f].Slab?)
    && (forall f :: f in free <==> f in role && role[f].Free?)
    && (forall f :: f in held <==> f in role && role[f].Held?)
  }

  ghost predicate Backed(role: map<nat, Role>, data: map<nat, Page>) {
    forall f :: f in role ==> f in data
  }

  ghost predicate Core(s: State) {
    && Pooled(s.pool, s.free, s.held, s.role)
    && Backed(s.role, s.data)
    && Owned(s.role, s.last, s.middle, s.mms)
    && NoneLost(s.role, s.last, s.middle, s.mms)
    && Counted(s.role, s.nref, s.pte)
    && Used(s.role, s.pte)
    && Nested(s.pte, s.last, s.middle, s.mms)
  }

  /** The invariant when the counts are those of the entries `all`: the present ones, and entries in
      tables that have been given up. */
  ghost predicate Ledger(s: State, all: map<Key, Pte>) {
    && Pooled(s.pool, s.free, s.held, s.role)
    && Backed(s.role, s.data)
    && Owned(s.role, s.last, s.middle, s.mms)
    && NoneLost(s.role, s.last, s.middle, s.mms)
    && Counted(s.role, s.nref, all)
    && Used(s.role, all)
    && Nested(s.pte, s.last, s.middle, s.mms)
  }

  // ----- the primitive changes

  ghost function Ref(s: State, f: nat): nat {
    if f in s.nref then s.nref[f] else 0
  }

  /** `page_alloc(_GFP_ZERO)` hands out `f`. */
  ghost function Allocated(s: State, f: nat): State {
    State(s.pool, s.free - {f}, s.held + {f}, s.role[f := Held], s.nref, s.data[f := Zero()], s.pte, s.last, s.middle,
          s.mms)
  }

  /** `page_free` of a frame nobody refers to */
  ghost function Released(s: State, f: nat): State {
    State(s.pool, s.free + {f}, s.held - {f}, s.role[f := Free], s.nref, s.data, s.pte, s.last, s.middle, s.mms)
  }

  /** `page_decref` */
  ghost function Decref(s: State, f: nat): State {
    var n := if Ref(s, f) > 0 then Ref(s, f) - 1 else 0;
    State(s.pool, if n == 0 then s.free + {f} else s.free, s.held, if n == 0 then s.role[f := Free] else s.role,
          s.nref[f := n], s.data, s.pte, s.last, s.middle, s.mms)
  }

  ghost function WithLast(s: State, k: Key, f: nat): State {
    State(s.pool, s.free, s.held - {f}, s.role[f := Last(k)], s.nref[f := 1], s.data, s.pte, s.last[k := f], s.middle,
          s.mms)
  }

  ghost function WithMiddle(s: State, k: Key, f: nat): State {
    State(s.pool, s.free, s.held - {f}, s.role[f := Middle(k)], s.nref[f := 1], s.data, s.pte, s.last, s.middle[k := f],
          s.mms)
  }

  ghost function WithTop(s: State, m: nat, f: nat, brk: nat): State {
    State(s.pool, s.free, s.held - {f}, s.role[f := Top(m)], s.nref, s.data, s.pte, s.last, s.middle,
          s.mms[m := Mm(f, [], brk)])
  }

  /** A new mapping of `f` at the absent entry `k` */
  ghost function Mapped(s: State, k: Key, e: Pte): State {
    State(s.pool, s.free, s.held - {e.frame}, s.role[e.frame := Data], s.nref[e.frame := Ref(s, e.frame) + 1], s.data,
          s.pte[k := e], s.last, s.middle, s.mms)
  }

  /** `page_remove` */
  ghost function Unmapped(s: State, k: Key): State {
    if k !in s.pte then s else
    var t := Decref(s, s.pte[k].frame);
    State(t.pool, t.free, t.held, t.role, t.nref, t.data, s.pte - {k}, t.last, t.middle, t.mms)
  }

  /** The entries that are not in page table `k` */
  function Outside(pte: map<Key, Pte>, k: Key): map<Key, Pte> {
    map j | j in pte && Up(j) != k :: pte[j]
  }

  /** A page table is given up, whatever entries it holds. */
  ghost function WithoutLast(s: State, k: Key): State {
    if k !in s.last then s else
    var t := Decref(s, s.last[k]);
    State(t.pool, t.free, t.held, t.role, t.nref, t.data, Outside(s.pte, k), s.last - {k}, t.middle, t.mms)
  }

  ghost function WithoutMiddle(s: State, k: Key): State {
    if k !in s.middle then s else
    var t := Decref(s, s.middle[k]);
    State(t.pool, t.free, t.held, t.role, t.nref, t.data, t.pte, t.last, s.middle - {k}, t.mms)
  }

  ghost function WithoutTop(s: State, m: nat): State {
    if m !in s.mms then s else
    var t := Released(s, s.mms[m].top);
    State(t.pool, t.free, t.held, t.role, t.nref, t.data, t.pte, t.last, t.middle, s.mms - {m})
  }

  // ----- each keeps the invariant

  predicate Plain(r: Role) {
    r.Free? || r.Slab? || r.Held? || r.Data?
  }

  lemma PoolFree(pool: Pool, free: set<nat>, held: set<nat>, role: map<nat, Role>, f: nat)
    requires Pooled(pool, free, held, role) && f in role && !role[f].Slab?
    ensures Pooled(pool, free + {f}, held - {f}, role[f := Free])
    ensures !role[f].Held? ==> Pooled(pool, free + {f}, held, role[f := Free])
  {
  }

  lemma PoolUse(pool: Pool, free: set<nat>, held: set<nat>, role: map<nat, Role>, f: nat, r: Role)
    requires Pooled(pool, free, held, role) && f in role && !role[f].Free? && !r.Free? && !r.Held? && !role[f].Slab?
    requires !r.Slab?
    ensures Pooled(pool, free, held - {f}, role[f := r])
  {
  }

  lemma PlainTables(role: map<nat, Role>, last: map<Key, nat>, middle: map<Key, nat>, mms: map<nat, Mm>, f: nat,
                    r: Role)
    requires Owned(role, last, middle, mms) && NoneLost(role, last, middle, mms)
    requires f in role && Plain(role[f]) && Plain(r)
    ensures Owned(role[f := r], last, middle, mms) && NoneLost(role[f := r], last, middle, mms)
  {
  }

  /** A frame that no entry maps takes another role. */
  lemma RoleCounts(role: map<nat, Role>, nref: map<nat, nat>, pte: map<Key, Pte>, f: nat, r: Role)
    requires Counted(role, nref, pte) && Used(role, pte) && f in role && role[f] != Data && r != Data
    ensures Counted(role[f := r], nref[f := Due(r, pte, f)], pte) && Used(role[f := r], pte)
  {
  }

  lemma AllocKeeps(s: State, f: nat)
    requires Core(s) && f in s.role && s.role[f] == Free
    ensures Core(Allocated(s, f))
  {
    PlainTables(s.role, s.last, s.middle, s.mms, f, Held);
    RoleCounts(s.role, s.nref, s.pte, f, Held);
    assert s.nref[f := 0] == s.nref;
  }

  lemma ReleaseKeeps(s: State, f: nat)
    requires Core(s) && f in s.role && s.role[f] == Held
    ensures Core(Released(s, f))
  {
  }

  lemma AddLastTables(role: map<nat, Role>, last: map<Key, nat>, middle: map<Key, nat>, mms: map<nat, Mm>, k: Key,
                      f: nat)
    requires Owned(role, last, middle, mms) && NoneLost(role, last, middle, mms)
    requires f in role && role[f] == Held && k !in last
    ensures Owned(role[f := Last(k)], last[k := f], middle, mms)
    ensures NoneLost(role[f := Last(k)], last[k := f], middle, mms)
  {
    var r := role[f := Last(k)];
    forall x | x in r ensures Reached(r[x], x, last[k := f], middle, mms) {
      assert x in role ==> Reached(role[x], x, last, middle, mms);
    }
  }

  lemma AddLastNested(pte: map<Key, Pte>, last: map<Key, nat>, middle: map<Key, nat>, mms: map<nat, Mm>, k: Key, f: nat)
    requires Nested(pte, last, middle, mms) && Up(k) in middle
    ensures Nested(pte, last[k := f], middle, mms)
  {
  }

  lemma WithLastKeeps(s: State, k: Key, f: nat)
    requires Core(s) && f in s.role && s.role[f] == Held && k !in s.last && Up(k) in s.middle
    ensures Core(WithLast(s, k, f))
  {
    PoolUse(s.pool, s.free, s.held, s.role, f, Last(k));
    AddLastTables(s.role, s.last, s.middle, s.mms, k, f);
    AddLastNested(s.pte, s.last, s.middle, s.mms, k, f);
    RoleCounts(s.role, s.nref, s.pte, f, Last(k));
  }

  lemma AddMiddleTables(role: map<nat, Role>, last: map<Key, nat>, middle: map<Key, nat>, mms: map<nat, Mm>, k: Key,
                        f: nat)
    requires Owned(role, last, middle, mms) && NoneLost(role, last, middle, mms)
    requires f in role && role[f] == Held && k !in middle
    ensures Owned(role[f := Middle(k)], last, middle[k := f], mms)
    ensures NoneLost(role[f := Middle(k)], last, middle[k := f], mms)
  {
    var r := role[f := Middle(k)];
    forall x | x in r ensures Reached(r[x], x, last, middle[k := f], mms) {
      assert x in role ==> Reached(role[x], x, last, middle, mms);
    }
  }

  lemma AddMiddleNested(pte: map<Key, Pte>, last: map<Key, nat>, middle: map<Key, nat>, mms: map<nat, Mm>, k: Key,
                        f: nat)
    requires Nested(pte, last, middle, mms) && k.mm in mms && k.index < 3
    ensures Nested(pte, last, middle[k := f], mms)
  {
  }

  lemma WithMiddleKeeps(s: State, k: Key, f: nat)
    requires Core(s) && f in s.role && s.role[f] == Held && k !in s.middle && k.mm in s.mms && k.index < 3
    ensures Core(WithMiddle(s, k, f))
  {
    PoolUse(s.pool, s.free, s.held, s.role, f, Middle(k));
    AddMiddleTables(s.role, s.last, s.middle, s.mms, k, f);
    AddMiddleNested(s.pte, s.last, s.middle, s.mms, k, f);
    RoleCounts(s.role, s.nref, s.pte, f, Middle(k));
  }

  lemma AddTopTables(role: map<nat, Role>, last: map<Key, nat>, middle: map<Key, nat>, mms: map<nat, Mm>, m: nat,
                     f: nat, brk: nat)
    requires Owned(role, last, middle, mms) && NoneLost(role, last, middle, mms)
    requires f in role && role[f] == Held && m !in mms
    ensures Owned(role[f := Top(m)], last, middle, mms[m := Mm(f, [], brk)])
    ensures NoneLost(role[f := Top(m)], last, middle, mms[m := Mm(f, [], brk)])
  {
    var r := role[f := Top(m)];
    forall x | x in r ensures Reached(r[x], x, last, middle, mms[m := Mm(f, [], brk)]) {
      assert x in role ==> Reached(role[x], x, last, middle, mms);
    }
  }

  lemma WithTopKeeps(s: State, m: nat, f: nat, brk: nat)
    requires Core(s) && f in s.role && s.role[f] == Held && m !in s.mms
    ensures Core(WithTop(s, m, f, brk))
  {
    PoolUse(s.pool, s.free, s.held, s.role, f, Top(m));
    AddTopTables(s.role, s.last, s.middle, s.mms, m, f, brk);
    RoleCounts(s.role, s.nref, s.pte, f, Top(m));
    assert s.nref[f := 0] == s.nref;
  }

  lemma MapMappers(pte: map<Key, Pte>, k: Key, e: Pte, f: nat)
    requires k !in pte
    ensures Mappers(pte[k := e], f) == Mappers(pte, f) + (if e.frame == f then {k} else {})
    ensures |Mappers(pte[k := e], f)| == |Mappers(pte, f)| + (if e.frame == f then 1 else 0)
  {
  }

  lemma MapCounts(role: map<nat, Role>, nref: map<nat, nat>, pte: map<Key, Pte>, k: Key, e: Pte)
    requires Counted(role, nref, pte) && Used(role, pte) && k !in pte
    requires e.frame in role && (role[e.frame].Held? || role[e.frame].Data?)
    ensures Counted(role[e.frame := Data], nref[e.frame := nref[e.frame] + 1], pte[k := e])
    ensures Used(role[e.frame := Data], pte[k := e])
  {
    forall f ensures |Mappers(pte[k := e], f)| == |Mappers(pte, f)| + (if e.frame == f then 1 else 0)
    {
      MapMappers(pte, k, e, f);
    }
    if role[e.frame] == Held { assert Mappers(pte, e.frame) == {}; }
    forall f | f in role && role[e.frame := Data][f] == Data ensures Mappers(pte[k := e], f) != {} {
      MapMappers(pte, k, e, f);
    }
  }

  lemma MappedCounts(s: State, k: Key, e: Pte)
    requires Counted(s.role, s.nref, s.pte) && Used(s.role, s.pte) && k !in s.pte
    requires e.frame in s.role && (s.role[e.frame].Held? || s.role[e.frame].Data?)
    ensures var t := Mapped(s, k, e); Counted(t.role, t.nref, t.pte) && Used(t.role, t.pte)
  {
    MapCounts(s.role, s.nref, s.pte, k, e);
  }

  lemma MapNested(pte: map<Key, Pte>, last: map<Key, nat>, middle: map<Key, nat>, mms: map<nat, Mm>, k: Key, e: Pte)
    requires Nested(pte, last, middle, mms) && Up(k) in last
    ensures Nested(pte[k := e], last, middle, mms)
  {
  }

  lemma MapKeeps(s: State, k: Key, e: Pte)
    requires Core(s) && e.frame in s.role && (s.role[e.frame].Held? || s.role[e.frame].Data?) && k !in s.pte
    requires Up(k) in s.last
    ensures Core(Mapped(s, k, e))
  {
    PoolUse(s.pool, s.free, s.held, s.role, e.frame, Data);
    PlainTables(s.role, s.last, s.middle, s.mms, e.frame, Data);
    MappedCounts(s, k, e);
    MapNested(s.pte, s.last, s.middle, s.mms, k, e);
  }

  lemma UnmapMappers(pte: map<Key, Pte>, k: Key, f: nat)
    requires k in pte
    ensures Mappers(pte - {k}, f) == Mappers(pte, f) - (if pte[k].frame == f then {k} else {})
    ensures |Mappers(pte - {k}, f)| == |Mappers(pte, f)| - (if pte[k].frame == f then 1 else 0)
  {
  }

  /** One mapping of `g` goes, and with the last one the frame. */
  lemma UnmapCounts(role: map<nat, Role>, nref: map<nat, nat>, pte: map<Key, Pte>, k: Key, g: nat)
    requires Counted(role, nref, pte) && Used(role, pte) && k in pte && pte[k].frame == g
    ensures nref[g] > 0
    ensures nref[g] > 1 ==> Counted(role, nref[g := nref[g] - 1], pte - {k}) && Used(role, pte - {k})
    ensures nref[g] == 1 ==> Counted(role[g := Free], nref[g := 0], pte - {k}) && Used(role[g := Free], pte - {k})
  {
    forall f ensures |Mappers(pte - {k}, f)| == |Mappers(pte, f)| - (if g == f then 1 else 0)
    {
      UnmapMappers(pte, k, f);
    }
    UnmapMappers(pte, k, g);
    if nref[g] == 1 {
      LastMapper(role, pte, k, g);
    } else {
      forall f | f in role && role[f] == Data ensures Mappers(pte - {k}, f) != {} {
        UnmapMappers(pte, k, f);
      }
    }
  }

  lemma LastMapper(role: map<nat, Role>, pte: map<Key, Pte>, k: Key, g: nat)
    requires Used(role, pte) && k in pte && pte[k].frame == g && |Mappers(pte - {k}, g)| == 0
    ensures Used(role[g := Free], pte - {k})
  {
    forall j | j in pte - {k} ensures pte[j].frame != g {
      assert pte[j].frame == g ==> j in Mappers(pte - {k}, g);
    }
    forall f | f in role && role[f] == Data && f != g ensures Mappers(pte - {k}, f) != {} {
      UnmapMappers(pte, k, f);
    }
  }

  lemma UnmapNested(pte: map<Key, Pte>, last: map<Key, nat>, middle: map<Key, nat>, mms: map<nat, Mm>, k: Key)
    requires Nested(pte, last, middle, mms)
    ensures Nested(pte - {k}, last, middle, mms)
  {
  }

  lemma UnmapKeeps(s: State, k: Key)
    requires Core(s)
    ensures Core(Unmapped(s, k))
  {
    if k in s.pte {
      var g := s.pte[k].frame;
      UnmapCounts(s.role, s.nref, s.pte, k, g);
      UnmapNested(s.pte, s.last, s.middle, s.mms, k);
      if s.nref[g] > 1 {
        assert Unmapped(s, k) == s.(nref := s.nref[g := s.nref[g] - 1], pte := s.pte - {k});
      } else {
        PoolFree(s.pool, s.free, s.held, s.role, g);
        PlainTables(s.role, s.last, s.middle, s.mms, g, Free);
        assert Unmapped(s, k) ==
               s.(nref := s.nref[g := 0], free := s.free + {g}, role := s.role[g := Free], pte := s.pte - {k});
      }
    }
  }

  lemma DropLastTables(role: map<nat, Role>, last: map<Key, nat>, middle: map<Key, nat>, mms: map<nat, Mm>, k: Key)
    requires Owned(role, last, middle, mms) && NoneLost(role, last, middle, mms) && k in last
    ensures Owned(role[last[k] := Free], last - {k}, middle, mms)
    ensures NoneLost(role[last[k] := Free], last - {k}, middle, mms)
  {
    var r := role[last[k] := Free];
    forall x | x in r ensures Reached(r[x], x, last - {k}, middle, mms) {
      assert x in role ==> Reached(role[x], x, last, middle, mms);
    }
  }

  lemma DropLastNested(pte: map<Key, Pte>, last: map<Key, nat>, middle: map<Key, nat>, mms: map<nat, Mm>, k: Key)
    requires Nested(pte, last, middle, mms)
    ensures Nested(Outside(pte, k), last - {k}, middle, mms)
  {
  }

  lemma DropLastKeeps(s: State, k: Key, all: map<Key, Pte>)
    requires Ledger(s, all)
    ensures Ledger(WithoutLast(s, k), all)
  {
    if k in s.last {
      PoolFree(s.pool, s.free, s.held, s.role, s.last[k]);
      DropLastTables(s.role, s.last, s.middle, s.mms, k);
      DropLastNested(s.pte, s.last, s.middle, s.mms, k);
      RoleCounts(s.role, s.nref, all, s.last[k], Free);
    }
  }

  lemma DropMiddleTables(role: map<nat, Role>, last: map<Key, nat>, middle: map<Key, nat>, mms: map<nat, Mm>, k: Key)
    requires Owned(role, last, middle, mms) && NoneLost(role, last, middle, mms) && k in middle
    ensures Owned(role[middle[k] := Free], last, middle - {k}, mms)
    ensures NoneLost(role[middle[k] := Free], last, middle - {k}, mms)
  {
    var r := role[middle[k] := Free];
    forall x | x in r ensures Reached(r[x], x, last, middle - {k}, mms) {
      assert x in role ==> Reached(role[x], x, last, middle, mms);
    }
  }

  lemma DropMiddleNested(pte: map<Key, Pte>, last: map<Key, nat>, middle: map<Key, nat>, mms: map<nat, Mm>, k: Key)
    requires Nested(pte, last, middle, mms) && forall j :: j in last ==> Up(j) != k
    ensures Nested(pte, last, middle - {k}, mms)
  {
  }

  lemma DropMiddleKeeps(s: State, k: Key, all: map<Key, Pte>)
    requires Ledger(s, all) && forall j :: j in s.last ==> Up(j) != k
    ensures Ledger(WithoutMiddle(s, k), all)
  {
    if k in s.middle {
      PoolFree(s.pool, s.free, s.held, s.role, s.middle[k]);
      DropMiddleTables(s.role, s.last, s.middle, s.mms, k);
      DropMiddleNested(s.pte, s.last, s.middle, s.mms, k);
      RoleCounts(s.role, s.nref, all, s.middle[k], Free);
    }
  }

  lemma DropTopTables(role: map<nat, Role>, last: map<Key, nat>, middle: map<Key, nat>, mms: map<nat, Mm>, m: nat)
    requires Owned(role, last, middle, mms) && NoneLost(role, last, middle, mms) && m in mms
    ensures Owned(role[mms[m].top := Free], last, middle, mms - {m})
    ensures NoneLost(role[mms[m].top := Free], last, middle, mms - {m})
  {
    var r := role[mms[m].top := Free];
    forall x | x in r ensures Reached(r[x], x, last, middle, mms - {m}) {
      assert x in role ==> Reached(role[x], x, last, middle, mms);
    }
  }

  lemma DropTopNested(pte: map<Key, Pte>, last: map<Key, nat>, middle: map<Key, nat>, mms: map<nat, Mm>, m: nat)
    requires Nested(pte, last, middle, mms) && forall k :: k in middle ==> k.mm != m
    ensures Nested(pte, last, middle, mms - {m})
  {
  }

  lemma DropTopKeeps(s: State, m: nat, all: map<Key, Pte>)
    requires Ledger(s, all) && forall k :: k in s.middle ==> k.mm != m
    ensures Ledger(WithoutTop(s, m), all)
  {
    if m in s.mms {
      PoolFree(s.pool, s.free, s.held, s.role, s.mms[m].top);
      DropTopTables(s.role, s.last, s.middle, s.mms, m);
      DropTopNested(s.pte, s.last, s.middle, s.mms, m);
      RoleCounts(s.role, s.nref, all, s.mms[m].top, Free);
      assert s.nref[s.mms[m].top := 0] == s.nref;
    }
  }

  /** Changing the write bit of a present entry */
  lemma RewriteCounts(role: map<nat, Role>, nref: map<nat, nat>, pte: map<Key, Pte>, k: Key, w: bool)
    requires Counted(role, nref, pte) && Used(role, pte) && k in pte
    ensures Counted(role, nref, pte[k := Pte(pte[k].frame, w)]) && Used(role, pte[k := Pte(pte[k].frame, w)])
  {
    var q := pte[k := Pte(pte[k].frame, w)];
    forall f ensures Mappers(q, f) == Mappers(pte, f) {
    }
    forall j | j in q ensures q[j].frame in role && role[q[j].frame] == Data {
      assert q[j].frame == pte[j].frame;
    }
  }

  lemma RewriteKeeps(s: State, k: Key, w: bool)
    requires Core(s) && k in s.pte
    ensures Core(s.(pte := s.pte[k := Pte(s.pte[k].frame, w)]))
  {
    RewriteCounts(s.role, s.nref, s.pte, k, w);
    assert Up(k) in s.last;
    MapNested(s.pte, s.last, s.middle, s.mms, k, Pte(s.pte[k].frame, w));
  }
}
