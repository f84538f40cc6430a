/** The reference semantics: every task owns its memory outright and `fork` copies it all at
    once. What `fork`, user accesses and exit on the shared frames come to in these terms. */
module Eager {
  import opened PageFrames
  import opened Spaces
  import opened Teardown
  import opened Fork

  /** What every live task reads, page by page. */
  type Memory = imap<Key, Page>

  ghost function AfterFork(e: Memory, m: nat, c: nat): Memory {
    imap k: Key | (if k.mm == c then Key(m, k.index) in e else k in e) :: if k.mm == c then e[Key(m, k.index)] else e[k]
  }

  ghost function AfterExit(e: Memory, m: nat): Memory {
    imap k: Key | k in e && k.mm != m :: e[k]
  }

  /** A byte is stored on a page. */
  function Stored(p: Page, off: Offset, b: Byte): Page {
    p[off := b]
  }

  ghost function AfterStore(e: Memory, k: Key, off: Offset, b: Byte): Memory {
    if k in e then e[k := Stored(e[k], off, b)] else e
  }

  // ----- exit

  lemma TornArranged(s: State, t: State, m: nat, live: set<nat>)
    requires Arranged(s.pte, s.mms, live) && Torn(s, t, m)
    ensures Arranged(t.pte, t.mms, live - {m})
  {
    forall k | k in t.pte ensures Homed(t.mms, k) {
      assert Homed(s.mms, k);
    }
    forall x | x in live - {m} ensures x in t.mms && Populated(t.pte, x, t.mms[x]) {
      assert Populated(s.pte, x, s.mms[x]);
    }
    forall x | x in t.mms ensures LaidOut(t.mms[x].areas) {
      assert LaidOut(s.mms[x].areas);
    }
  }

  lemma TornView(s: State, t: State, m: nat, k: Key)
    requires Torn(s, t, m) && k.mm != m
    ensures View(t, k) == View(s, k)
  {
  }

  lemma TornImage(s: State, t: State, m: nat, live: set<nat>)
    requires Torn(s, t, m)
    ensures Image(t, live - {m}) == AfterExit(Image(s, live), m)
  {
    var e := AfterExit(Image(s, live), m);
    forall k: Key ensures Visible(t.mms, live - {m}, k) <==> k in e { }
    forall k: Key | k in e ensures View(t, k) == e[k] { TornView(s, t, m, k); }
  }

  // ----- a store to a page that is the only one on its frame

  ghost function Overwritten(s: State, k: Key, p: Page): State
    requires k in s.pte
  {
    State(s.pool, s.free, s.held, s.role, s.nref, s.data[s.pte[k].frame := p], s.pte, s.last, s.middle, s.mms)
  }

  lemma StoreImage(s: State, k: Key, off: Offset, b: Byte, live: set<nat>)
    requires Single(s.pte) && k in s.pte && s.pte[k].write && Visible(s.mms, live, k)
    ensures Image(Overwritten(s, k, Stored(View(s, k), off, b)), live) == AfterStore(Image(s, live), k, off, b)
  {
  }

  // ----- fork

  /** The child's empty address space has been set up. */
  ghost predicate Prepared(s: State, t: State, m: nat, c: nat) {
    && Quiet(s, t) && t.pte == s.pte && m in s.mms && c !in s.mms && c in t.mms
    && t.mms == s.mms[c := Mm(t.mms[c].top, [], s.mms[m].brk)]
  }

  lemma QuietView(s: State, t: State, k: Key)
    requires Used(s.role, s.pte) && Backed(s.role, s.data) && Quiet(s, t)
    requires (k in s.pte <==> k in t.pte) && (k in s.pte ==> t.pte[k].frame == s.pte[k].frame)
    ensures View(t, k) == View(s, k)
  {
  }

  lemma MirrorView(s: State, t: State, m: nat, c: nat, v: nat)
    requires m in s.mms && Mirrored(t.pte, m, c) && Complete(t.pte, m, c, s.mms[m].areas) && Covered(s.mms[m].areas, v)
    ensures View(t, Key(c, v)) == View(t, Key(m, v))
  {
  }

  lemma ForkImage(s: State, u: State, t: State, m: nat, c: nat, live: set<nat>)
    requires Core(s) && Prepared(s, u, m, c) && m in live && m != c
    requires Copying(u, t, m, c, |u.mms[m].areas|) && Complete(t.pte, m, c, u.mms[m].areas)
    ensures Image(t, live + {c}) == AfterFork(Image(s, live), m, c)
  {
    var areas := s.mms[m].areas;
    assert u.mms[m].areas == areas && areas[..|areas|] == areas;
    QuietTrans(s, u, t);
    forall k: Key | k.mm != c ensures View(t, k) == View(s, k) { QuietView(s, t, k); }
    forall v | Covered(areas, v) ensures View(t, Key(c, v)) == View(s, Key(m, v)) { MirrorView(u, t, m, c, v); }
    ForkImageFrom(s, t, m, c, live);
  }

  /** What fork has to get right, key by key */
  ghost predicate ForkRight(s: State, t: State, m: nat, c: nat) {
    && m in s.mms && m != c && c in t.mms && t.mms[c].areas == s.mms[m].areas
    && (forall x :: x != c ==> (x in t.mms <==> x in s.mms) && (x in s.mms ==> t.mms[x] == s.mms[x]))
    && (forall k: Key {:trigger View(t, k)} :: k.mm != c ==> View(t, k) == View(s, k))
    && (forall v :: Covered(s.mms[m].areas, v) ==> View(t, Key(c, v)) == View(s, Key(m, v)))
  }

  lemma ForkKey(s: State, t: State, m: nat, c: nat, live: set<nat>, k: Key)
    requires ForkRight(s, t, m, c) && m in live
    ensures Visible(t.mms, live + {c}, k) <==> Visible(s.mms, live, if k.mm == c then Key(m, k.index) else k)
    ensures Visible(t.mms, live + {c}, k) ==> View(t, k) == View(s, if k.mm == c then Key(m, k.index) else k)
  {
  }

  lemma ForkImageFrom(s: State, t: State, m: nat, c: nat, live: set<nat>)
    requires ForkRight(s, t, m, c) && m in live
    ensures Image(t, live + {c}) == AfterFork(Image(s, live), m, c)
  {
    var e := AfterFork(Image(s, live), m, c);
    forall k: Key ensures (Visible(t.mms, live + {c}, k) <==> k in e) && (k in e ==> View(t, k) == e[k]) {
      ForkKey(s, t, m, c, live, k);
    }
  }

  lemma ForkInside(p: map<Key, Pte>, q: map<Key, Pte>, mms: map<nat, Mm>, nms: map<nat, Mm>, c: nat)
    requires Inside(p, mms) && Demoted(p, q, c) && c in nms && Contained(q, c, nms[c].areas)
    requires forall x :: x in mms && x != c ==> x in nms && nms[x] == mms[x]
    ensures Inside(q, nms)
  {
    forall k | k in q ensures Homed(nms, k) {
      assert k.mm != c ==> k in p && Homed(mms, k);
    }
  }

  lemma ForkPopulated(p: map<Key, Pte>, q: map<Key, Pte>, m: nat, c: nat, a: Mm, b: Mm)
    requires Populated(p, m, a) && b.areas == a.areas && b.brk == a.brk && m != c
    requires Demoted(p, q, c) && Complete(q, m, c, a.areas)
    ensures Populated(q, c, b)
  {
  }

  lemma DemotedPopulated(p: map<Key, Pte>, q: map<Key, Pte>, c: nat, x: nat, a: Mm)
    requires Populated(p, x, a) && Demoted(p, q, c) && x != c
    ensures Populated(q, x, a)
  {
  }

  lemma ForkArranged(s: State, u: State, t: State, m: nat, c: nat, live: set<nat>)
    requires Arranged(s.pte, s.mms, live) && Prepared(s, u, m, c) && m in live && m != c
    requires Copying(u, t, m, c, |u.mms[m].areas|) && Complete(t.pte, m, c, u.mms[m].areas)
    ensures Arranged(t.pte, t.mms, live + {c})
  {
    var areas := s.mms[m].areas;
    assert u.mms[m] == s.mms[m] && areas[..|areas|] == areas && t.mms[c].areas == areas;
    ForkInside(s.pte, t.pte, s.mms, t.mms, c);
    forall x | x in live + {c} ensures x in t.mms && Populated(t.pte, x, t.mms[x]) {
      if x == c {
        ForkPopulated(s.pte, t.pte, m, c, s.mms[m], t.mms[c]);
      } else {
        DemotedPopulated(s.pte, t.pte, c, x, s.mms[x]);
      }
    }
  }

  /** A fork that failed half-way and was undone by `exit_mm`: nobody can tell. */
  lemma UndoneArranged(s: State, u: State, t: State, w: State, m: nat, c: nat, n: nat, live: set<nat>)
    requires Arranged(s.pte, s.mms, live) && Prepared(s, u, m, c) && Copying(u, t, m, c, n) && Torn(t, w, c) && m != c
    ensures w.mms == s.mms && Arranged(w.pte, w.mms, live)
  {
    assert w.mms == s.mms;
    Undone(s.pte, t.pte, w.pte, s.mms, c);
    forall x | x in live ensures x in w.mms && Populated(w.pte, x, w.mms[x]) {
      DemotedPopulated(s.pte, w.pte, c, x, s.mms[x]);
    }
  }

  lemma Undone(p: map<Key, Pte>, q: map<Key, Pte>, r: map<Key, Pte>, mms: map<nat, Mm>, c: nat)
    requires Inside(p, mms) && Demoted(p, q, c) && Single(q) && Pruned(q, r, c) && Gone(r, c) && c !in mms
    ensures Demoted(p, r, c) && Single(r) && Inside(r, mms)
    ensures forall k :: (k in p <==> k in r) && (k in p ==> r[k].frame == p[k].frame)
  {
    forall k | k in p ensures k.mm in mms && k.mm != c {
      assert Homed(mms, k);
    }
    forall k | k in r ensures k in p && r[k].frame == p[k].frame && (r[k].write ==> q[k].write) {
    }
    forall k | k in r ensures Homed(mms, k) {
      assert k in p;
    }
  }

  lemma UndoneImage(s: State, u: State, t: State, w: State, m: nat, c: nat, n: nat, live: set<nat>)
    requires Core(s) && Arranged(s.pte, s.mms, live) && Prepared(s, u, m, c) && Copying(u, t, m, c, n)
    requires Torn(t, w, c) && m != c
    ensures Image(w, live) == Image(s, live)
  {
    assert w.mms == s.mms;
    Undone(s.pte, t.pte, w.pte, s.mms, c);
    QuietTrans(s, u, t);
    forall k ensures View(w, k) == View(s, k) { UndoneView(s, t, w, k); }
    SameImage(s, w, live);
  }

  lemma UndoneView(s: State, t: State, w: State, k: Key)
    requires Used(s.role, s.pte) && Backed(s.role, s.data) && Quiet(s, t) && w.data == t.data
    requires (k in s.pte <==> k in w.pte) && (k in s.pte ==> w.pte[k].frame == s.pte[k].frame)
    ensures View(w, k) == View(s, k)
  {
  }
}
