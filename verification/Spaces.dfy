/** Address spaces over shared frames: what the page tables of all tasks satisfy between
    kernel operations, and the memory each task sees. */
module Spaces {
  import opened PageFrames
  import opened Paging

  /** USER_STACKBOTT and USER_TEMPBOTT, as page numbers */
  const STACK: nat := 0xBF400
  const TEMP: nat := 0xBF800

  ghost predicate Covered(areas: seq<Area>, v: nat) {
    exists i :: 0 <= i < |areas| && areas[i].lo <= v < areas[i].hi
  }

  lemma CoveredMore(areas: seq<Area>, i: nat, v: nat)
    requires i < |areas|
    ensures Covered(areas[..i + 1], v) <==> Covered(areas[..i], v) || areas[i].lo <= v < areas[i].hi
  {
  }

  /** Areas are non-empty, disjoint and below the scratch page. */
  predicate LaidOut(areas: seq<Area>) {
    && (forall i :: 0 <= i < |areas| ==> areas[i].lo < areas[i].hi <= TEMP)
    && (forall i, j :: 0 <= i < j < |areas| ==> areas[i].hi <= areas[j].lo || areas[j].hi <= areas[i].lo)
  }

  ghost predicate AllLaidOut(mms: map<nat, Mm>) {
    forall m {:trigger LaidOut(mms[m].areas)} :: m in mms ==> LaidOut(mms[m].areas)
  }

  /** Pages of the stack and the heap are supplied on first use; all others exist from the start. */
  predicate Lazy(a: Area, brk: nat) {
    a.lo == STACK || a.lo == brk
  }

  ghost predicate Populated(pte: map<Key, Pte>, m: nat, mm: Mm) {
    forall i, v :: 0 <= i < |mm.areas| && !Lazy(mm.areas[i], mm.brk) && mm.areas[i].lo <= v < mm.areas[i].hi ==>
      Key(m, v) in pte
  }

  /** Page `k` lies in an area of its address space. */
  ghost predicate Homed(mms: map<nat, Mm>, k: Key) {
    k.mm in mms && Covered(mms[k.mm].areas, k.index)
  }

  /** Every present entry lies in an area. */
  ghost predicate Inside(pte: map<Key, Pte>, mms: map<nat, Mm>) {
    forall k {:trigger Homed(mms, k)} :: k in pte ==> Homed(mms, k)
  }

  /** A writable entry is the only one for its frame. */
  ghost predicate Single(pte: map<Key, Pte>) {
    forall j, k {:trigger pte[j].write, pte[k].frame} ::
      j in pte && k in pte && pte[j].frame == pte[k].frame && pte[j].write ==> j == k
  }

  ghost predicate AllPopulated(pte: map<Key, Pte>, mms: map<nat, Mm>, live: set<nat>) {
    forall m {:trigger Populated(pte, m, mms[m])} {:trigger m in live, m in mms} ::
      m in live ==> m in mms && Populated(pte, m, mms[m])
  }

  ghost predicate Arranged(pte: map<Key, Pte>, mms: map<nat, Mm>, live: set<nat>) {
    Inside(pte, mms) && Single(pte) && AllLaidOut(mms) && AllPopulated(pte, mms, live)
  }

  ghost predicate Valid(s: State, live: set<nat>) {
    Core(s) && s.held == {} && Arranged(s.pte, s.mms, live)
  }

  /** What address space `k.mm` shows on page `k`: an absent page shows zeros. */
  ghost function View(s: State, k: Key): Page {
    if k in s.pte && s.pte[k].frame in s.data then s.data[s.pte[k].frame] else Zero()
  }

  ghost predicate Visible(mms: map<nat, Mm>, live: set<nat>, k: Key) {
    k.mm in live && Homed(mms, k)
  }

  /** The memory of all live tasks, page by page. */
  ghost function Image(s: State, live: set<nat>): imap<Key, Page> {
    imap k | Visible(s.mms, live, k) :: View(s, k)
  }

  /** A fault at `k` was served: `k` is now writable, alone on its frame, and shows what it showed. */
  ghost predicate Served(s: State, t: State, k: Key) {
    && t.pool == s.pool && t.mms == s.mms && t.held == {} && k in t.pte
    && t.pte == s.pte[k := Pte(t.pte[k].frame, true)]
    && (forall j :: j in s.pte && j != k ==> s.pte[j].frame != t.pte[k].frame)
    && t.pte[k].frame in t.data && t.data[t.pte[k].frame] == View(s, k)
    && SameData(s, t)
  }

  lemma ServedSingle(p: map<Key, Pte>, q: map<Key, Pte>, k: Key, f: nat)
    requires Single(p) && q == p[k := Pte(f, true)] && forall j :: j in p && j != k ==> p[j].frame != f
    ensures Single(q)
  {
  }

  lemma ServedArranged(s: State, t: State, k: Key, live: set<nat>)
    requires Arranged(s.pte, s.mms, live) && Served(s, t, k) && k.mm in s.mms && Covered(s.mms[k.mm].areas, k.index)
    ensures Arranged(t.pte, t.mms, live)
  {
    ServedSingle(s.pte, t.pte, k, t.pte[k].frame);
    forall j | j in t.pte ensures Homed(t.mms, j) {
      assert j != k ==> Homed(s.mms, j);
    }
    forall m | m in live ensures m in t.mms && Populated(t.pte, m, t.mms[m]) {
      assert Populated(s.pte, m, s.mms[m]);
    }
  }

  lemma ServedView(s: State, t: State, k: Key, j: Key)
    requires Used(s.role, s.pte) && Backed(s.role, s.data) && Served(s, t, k)
    ensures View(t, j) == View(s, j)
  {
  }

  lemma SameImage(s: State, t: State, live: set<nat>)
    requires t.mms == s.mms && forall j :: View(t, j) == View(s, j)
    ensures Image(t, live) == Image(s, live)
  {
  }

  lemma ServedImage(s: State, t: State, k: Key, live: set<nat>)
    requires Core(s) && Served(s, t, k)
    ensures Image(t, live) == Image(s, live)
  {
    forall j ensures View(t, j) == View(s, j) { ServedView(s, t, k, j); }
    SameImage(s, t, live);
  }

  lemma GrownImage(s: State, t: State, live: set<nat>)
    requires Core(s) && Grew(s, t)
    ensures Image(t, live) == Image(s, live)
  {
  }

  lemma ServedAfterGrowth(s: State, t: State, u: State, k: Key)
    requires Core(s) && Grew(s, t) && Served(t, u, k)
    ensures Served(s, u, k)
  {
  }
}
