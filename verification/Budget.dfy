/** What an operation pays for: the answers of `kmalloc`, which the object caches give, and the frames
    that pages and page tables take. */
module Budget {
  import opened Wrappers
  import opened PageFrames
  import opened Paging
  import opened Spaces

  /** What a call of `kmalloc` meets: no object, or an object for which the caches first take so many
      frames from the pool (a slab, or none when an object is at hand). */
  datatype Answer = Null | Object(frames: nat)

  /** The answer to the `i`-th call; a list that has run out refuses. */
  function Reply(answers: seq<Answer>, i: nat): Answer {
    if i < |answers| then answers[i] else Null
  }

  function Frames(a: Answer): nat {
    if a.Object? then a.frames else 0
  }

  /** The frames that the first `n` calls take */
  function Taken(answers: seq<Answer>, n: nat): nat {
    if n == 0 then 0 else Taken(answers, n - 1) + Frames(Reply(answers, n - 1))
  }

  ghost predicate Given(answers: seq<Answer>, n: nat) {
    forall i: nat :: i < n ==> Reply(answers, i).Object?
  }

  /** `free` frames are enough for `n` objects and `extra` frames. */
  ghost predicate Affords(answers: seq<Answer>, n: nat, extra: nat, free: nat) {
    Given(answers, n) && extra + Taken(answers, n) <= free
  }

  lemma {:induction false} TakenGrows(answers: seq<Answer>, i: nat, n: nat)
    requires i <= n
    ensures Taken(answers, i) <= Taken(answers, n)
    decreases n
  {
    if i < n { TakenGrows(answers, i, n - 1); }
  }

  lemma AffordsLess(answers: seq<Answer>, i: nat, x: nat, n: nat, y: nat, free: nat)
    requires Affords(answers, n, y, free) && i <= n && x <= y
    ensures Affords(answers, i, x, free)
  {
    TakenGrows(answers, i, n);
  }

  lemma Unaffordable(answers: seq<Answer>, i: nat, x: nat, n: nat, y: nat, free: nat)
    requires !Affords(answers, i, x, free) && i <= n && x <= y
    ensures !Affords(answers, n, y, free)
  {
    TakenGrows(answers, i, n);
  }

  // ----- tables over pages

  /** The numbers of the tables one level up */
  function Over(pages: set<nat>): set<nat> {
    set v | v in pages :: v / 512
  }

  /** The tables that an empty address space needs for these pages */
  function TableCost(pages: set<nat>): nat {
    |Over(pages)| + |Over(Over(pages))|
  }

  /** The frames for these pages: their tables and, if each has a frame of its own, those */
  function Cost(pages: set<nat>, own: bool): nat {
    TableCost(pages) + if own then |pages| else 0
  }

  lemma OverGrows(a: set<nat>, b: set<nat>)
    requires a <= b
    ensures Over(a) <= Over(b)
  {
  }

  lemma CostGrows(a: set<nat>, b: set<nat>, own: bool)
    requires a <= b
    ensures Cost(a, own) <= Cost(b, own)
  {
    OverGrows(a, b);
    OverGrows(Over(a), Over(b));
    SubsetSize(a, b);
    SubsetSize(Over(a), Over(b));
    SubsetSize(Over(Over(a)), Over(Over(b)));
  }

  lemma OverMore(pages: set<nat>, v: nat)
    ensures Over(pages + {v}) == Over(pages) + {v / 512}
  {
    assert v in pages + {v};
    forall n | n in Over(pages) ensures n in Over(pages + {v}) {
      var w :| w in pages && n == w / 512;
      assert w in pages + {v};
    }
  }

  lemma SizeMore(a: set<nat>, x: nat)
    ensures |a + {x}| == |a| + if x in a then 0 else 1
  {
    if x in a { assert a + {x} == a; }
  }

  /** The pages that address space `m` has present */
  ghost function Pages(pte: map<Key, Pte>, m: nat): set<nat> {
    set k | k in pte && k.mm == m :: k.index
  }

  lemma InPages(pte: map<Key, Pte>, m: nat, v: nat)
    ensures v in Pages(pte, m) <==> Key(m, v) in pte
  {
    if Key(m, v) in pte { assert Key(m, v).index == v; }
  }

  /** Address space `m` has exactly the tables that these pages need. */
  ghost predicate Tabled(last: map<Key, nat>, middle: map<Key, nat>, m: nat, pages: set<nat>) {
    && (forall n: nat :: Key(m, n) in last <==> n in Over(pages))
    && (forall i: nat :: Key(m, i) in middle <==> i in Over(Over(pages)))
  }

  lemma TabledNext(last: map<Key, nat>, middle: map<Key, nat>, last': map<Key, nat>, middle': map<Key, nat>, m: nat,
                   pages: set<nat>, v: nat)
    requires Tabled(last, middle, m, pages)
    requires Gained(last, last', Up(Key(m, v))) && Gained(middle, middle', Up(Up(Key(m, v))))
    ensures Tabled(last', middle', m, pages + {v})
    ensures TableCost(pages + {v}) == TableCost(pages) + Missing(last, middle, Key(m, v))
  {
    OverMore(pages, v);
    OverMore(Over(pages), v / 512);
    SizeMore(Over(pages), v / 512);
    SizeMore(Over(Over(pages)), v / 512 / 512);
    assert Up(Key(m, v)) == Key(m, v / 512) && Up(Up(Key(m, v))) == Key(m, v / 512 / 512);
  }

  /** The cost of one more page, while the tables are exact */
  lemma CostNext(last: map<Key, nat>, middle: map<Key, nat>, m: nat, pages: set<nat>, v: nat, own: bool)
    requires Tabled(last, middle, m, pages) && v !in pages
    ensures Cost(pages + {v}, own) == Cost(pages, own) + Missing(last, middle, Key(m, v)) + if own then 1 else 0
  {
    OverMore(pages, v);
    OverMore(Over(pages), v / 512);
    SizeMore(Over(pages), v / 512);
    SizeMore(Over(Over(pages)), v / 512 / 512);
    SizeMore(pages, v);
    assert Up(Key(m, v)) == Key(m, v / 512) && Up(Up(Key(m, v))) == Key(m, v / 512 / 512);
  }

  /** How many frames are free, and how many the object caches hold */
  datatype Supply = Supply(free: nat, slab: nat)

  ghost function SupplyOf(s: State): Supply {
    Supply(|s.free|, |s.pool.slab|)
  }

  // ----- the bill of a new address space

  /** What creating an address space has to come to: so many calls of `kmalloc`, one top table, these pages
      with their tables, out of the free frames of `start` */
  datatype Bill = Bill(own: bool, answers: seq<Answer>, calls: nat, pages: set<nat>, start: Supply)

  ghost predicate Affordable(b: Bill) {
    Affords(b.answers, b.calls, 1 + Cost(b.pages, b.own), b.start.free)
  }

  /** The first `n` objects and `extra` frames have taken what is not free any more, and the caches hold
      what the objects have taken. */
  ghost predicate Spent(now: Supply, extra: nat, answers: seq<Answer>, n: nat, start: Supply) {
    && Given(answers, n) && now.free + extra + Taken(answers, n) == start.free
    && now.slab == start.slab + Taken(answers, n)
  }

  /** Whether the next object can be had decides whether one more is affordable. */
  lemma NextObject(now: Supply, extra: nat, answers: seq<Answer>, n: nat, start: Supply)
    requires Spent(now, extra, answers, n, start)
    ensures Reply(answers, n).Object? && now.free >= Frames(Reply(answers, n)) <==>
            Affords(answers, n + 1, extra, start.free)
  {
  }

  /** The first `n` objects, the top table and the pages of `c` so far are there, with their tables. */
  ghost predicate Paid(t: State, c: nat, b: Bill, n: nat) {
    && n <= b.calls && Pages(t.pte, c) <= b.pages && Tabled(t.last, t.middle, c, Pages(t.pte, c))
    && Spent(SupplyOf(t), 1 + Cost(Pages(t.pte, c), b.own), b.answers, n, b.start)
  }

  /** A call of `kmalloc` that returned NULL: the whole was not affordable. */
  lemma ObjectShort(t: State, c: nat, b: Bill, n: nat)
    requires Paid(t, c, b, n) && n < b.calls
    requires Reply(b.answers, n).Null? || |t.free| < Frames(Reply(b.answers, n))
    ensures !Affordable(b)
  {
    CostGrows(Pages(t.pte, c), b.pages, b.own);
    TakenGrows(b.answers, n + 1, b.calls);
  }

  /** A page that could not be had: the whole was not affordable. */
  lemma PageShort(t: State, c: nat, b: Bill, n: nat, v: nat)
    requires Paid(t, c, b, n) && v in b.pages && Key(c, v) !in t.pte
    requires |t.free| < Missing(t.last, t.middle, Key(c, v)) + if b.own then 1 else 0
    ensures !Affordable(b)
  {
    InPages(t.pte, c, v);
    CostNext(t.last, t.middle, c, Pages(t.pte, c), v, b.own);
    CostGrows(Pages(t.pte, c) + {v}, b.pages, b.own);
    TakenGrows(b.answers, n, b.calls);
  }

  /** One page more is there, and so are its tables. */
  lemma PagePaid(t: State, u: State, c: nat, b: Bill, n: nat, v: nat)
    requires Paid(t, c, b, n) && Key(c, v) !in t.pte && v in b.pages && Gained(t.pte, u.pte, Key(c, v))
    requires Gained(t.last, u.last, Up(Key(c, v))) && Gained(t.middle, u.middle, Up(Up(Key(c, v))))
    requires |u.free| == |t.free| - Missing(t.last, t.middle, Key(c, v)) - (if b.own then 1 else 0) && u.pool == t.pool
    ensures Paid(u, c, b, n)
  {
    InPages(t.pte, c, v);
    PagesMore(t.pte, u.pte, c, v);
    CostNext(t.last, t.middle, c, Pages(t.pte, c), v, b.own);
    TabledNext(t.last, t.middle, u.last, u.middle, c, Pages(t.pte, c), v);
  }

  lemma PagesMore(p: map<Key, Pte>, q: map<Key, Pte>, c: nat, v: nat)
    requires Gained(p, q, Key(c, v))
    ensures Pages(q, c) == Pages(p, c) + {v}
  {
    forall x: nat ensures x in Pages(q, c) <==> x in Pages(p, c) + {v} {
      InPages(p, c, x);
      InPages(q, c, x);
    }
  }

  /** One object more is there; tables and pages are as before. */
  lemma ObjectPaid(t: State, u: State, c: nat, b: Bill, n: nat)
    requires Paid(t, c, b, n) && n < b.calls && Reply(b.answers, n).Object?
    requires u.pte == t.pte && u.last == t.last && u.middle == t.middle
    requires |u.free| + Frames(Reply(b.answers, n)) == |t.free|
    requires |u.pool.slab| == |t.pool.slab| + Frames(Reply(b.answers, n))
    ensures Paid(u, c, b, n + 1)
  {
  }

  /** An address space that does not exist has no pages and no tables. */
  lemma NothingThere(s: State, c: nat)
    requires Nested(s.pte, s.last, s.middle, s.mms) && c !in s.mms
    ensures Pages(s.pte, c) == {} && Tabled(s.last, s.middle, c, {})
  {
    forall k: Key | k.mm == c ensures k !in s.middle && k !in s.last && k !in s.pte {
      assert k in s.last ==> Up(k) in s.middle;
      assert k in s.pte ==> Up(k) in s.last && Up(Up(k)) in s.middle;
    }
  }

  /** The top table is there and no page yet. */
  lemma StartPaid(s: State, t: State, c: nat, b: Bill, n: nat)
    requires Nested(s.pte, s.last, s.middle, s.mms) && c !in s.mms
    requires t.pte == s.pte && t.last == s.last && t.middle == s.middle
    requires n <= b.calls && Spent(SupplyOf(t), 1, b.answers, n, b.start)
    ensures Paid(t, c, b, n)
  {
    NothingThere(s, c);
  }

  // ----- how far a fork gets

  /** The pages of address space `m` that lie in these areas */
  ghost function PagesIn(p: map<Key, Pte>, m: nat, areas: seq<Area>): set<nat> {
    set v | v in Pages(p, m) && Covered(areas, v)
  }

  /** A fork: the entries when it starts, the parent with its areas, the answers of `kmalloc`, and what
      there is at the start */
  datatype Job = Job(pte: map<Key, Pte>, m: nat, areas: seq<Area>, answers: seq<Answer>, start: Supply)

  /** The bill up to and including the first `n` areas */
  ghost function Stage(job: Job, n: nat): Bill
    requires n <= |job.areas|
  {
    Bill(false, job.answers, 4 + n, PagesIn(job.pte, job.m, job.areas[..n]), job.start)
  }

  /** The frames that a fork has taken when it makes its `n`-th call, besides those of objects: none for the
      task record and the address space, the top table for the files, and the tables over the areas
      already copied for the next area */
  ghost function Before(job: Job, n: nat): nat
    requires n <= 4 + |job.areas|
  {
    if n < 2 then 0 else if n < 4 then 1 else 1 + Cost(Stage(job, n - 4).pages, false)
  }

  /** Of `calls` calls the first `n` give an object: the last of them can be paid for, and the next one,
      with what is due before it, cannot. */
  ghost predicate Obtained(job: Job, calls: nat, n: nat) {
    && n <= calls <= 4 + |job.areas|
    && (n > 0 ==> Affords(job.answers, n, Before(job, n - 1), job.start.free))
    && (n < calls ==> !Affords(job.answers, n + 1, Before(job, n), job.start.free))
  }

  lemma StageGrows(job: Job, i: nat, n: nat)
    requires i <= n <= |job.areas|
    ensures Stage(job, i).pages <= Stage(job, n).pages
    ensures Cost(Stage(job, i).pages, false) <= Cost(Stage(job, n).pages, false)
  {
    forall v: nat | Covered(job.areas[..i], v) ensures Covered(job.areas[..n], v) {
      var x :| 0 <= x < i && job.areas[x].lo <= v < job.areas[x].hi;
      assert job.areas[..n][x] == job.areas[x];
    }
    CostGrows(Stage(job, i).pages, Stage(job, n).pages, false);
  }

  lemma BeforeGrows(job: Job, i: nat, n: nat)
    requires i <= n <= 4 + |job.areas|
    ensures Before(job, i) <= Before(job, n)
  {
    if i >= 4 { StageGrows(job, i - 4, n - 4); }
  }

  /** How many objects a fork gets is decided by the job. */
  lemma ObtainedOnce(job: Job, calls: nat, i: nat, n: nat)
    requires Obtained(job, calls, i) && Obtained(job, calls, n)
    ensures i == n
  {
    if i < n {
      BeforeGrows(job, i, n - 1);
      AffordsLess(job.answers, i + 1, Before(job, i), n, Before(job, n - 1), job.start.free);
    } else if n < i {
      BeforeGrows(job, n, i - 1);
      AffordsLess(job.answers, n + 1, Before(job, n), i, Before(job, i - 1), job.start.free);
    }
  }

  /** A stage that cannot be paid for: nor can the whole. */
  lemma StageShort(job: Job, n: nat)
    requires n <= |job.areas| && !Affordable(Stage(job, n))
    ensures !Affordable(Stage(job, |job.areas|))
  {
    var b, all := Stage(job, n), Stage(job, |job.areas|);
    StageGrows(job, n, |job.areas|);
    Unaffordable(b.answers, b.calls, 1 + Cost(b.pages, false), all.calls, 1 + Cost(all.pages, false), b.start.free);
  }

  /** The object for area `n` can be had exactly when it can be paid for after the areas before it. */
  lemma StageObject(t: State, c: nat, job: Job, n: nat)
    requires n < |job.areas| && Paid(t, c, Stage(job, n), 4 + n) && Pages(t.pte, c) == Stage(job, n).pages
    ensures Reply(job.answers, 4 + n).Object? && |t.free| >= Frames(Reply(job.answers, 4 + n)) <==>
            Affords(job.answers, 5 + n, Before(job, 4 + n), job.start.free)
    ensures Affords(job.answers, 4 + n, Before(job, 4 + n), job.start.free)
  {
    NextObject(SupplyOf(t), Before(job, 4 + n), job.answers, 4 + n, job.start);
  }

  lemma StoppedAtArea(job: Job, n: nat)
    requires n < |job.areas| && Affords(job.answers, 4 + n, Before(job, 4 + n), job.start.free)
    requires !Affords(job.answers, 5 + n, Before(job, 4 + n), job.start.free)
    ensures Obtained(job, 4 + |job.areas|, 4 + n) && !Affordable(Stage(job, |job.areas|))
  {
    BeforeGrows(job, 3 + n, 4 + n);
    StageGrows(job, n, n + 1);
    var b := Stage(job, n + 1);
    Unaffordable(b.answers, 5 + n, Before(job, 4 + n), b.calls, 1 + Cost(b.pages, false), b.start.free);
    StageShort(job, n + 1);
  }

  lemma StoppedInArea(job: Job, n: nat)
    requires n < |job.areas| && Affords(job.answers, 5 + n, Before(job, 4 + n), job.start.free)
    requires !Affordable(Stage(job, n + 1))
    ensures Obtained(job, 4 + |job.areas|, 5 + n) && !Affordable(Stage(job, |job.areas|))
  {
    StageShort(job, n + 1);
    Unaffordable(job.answers, 5 + n, Before(job, 5 + n), 6 + n, Before(job, 5 + n), job.start.free);
  }

  /** What is paid for on a smaller bill is paid for on a larger one. */
  lemma PaidMore(t: State, c: nat, job: Job, n: nat)
    requires n < |job.areas| && Paid(t, c, Stage(job, n), 4 + n)
    ensures Paid(t, c, Stage(job, n + 1), 4 + n)
  {
    StageGrows(job, n, n + 1);
  }
}
