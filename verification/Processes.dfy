/** The memory operations of tasks: fork, user accesses with their faults, and exit, against the
    eager semantics (kernel/syscall/fork.c, kernel/syscall/exit.c, kernel/trap/page_fault.c). */
module Processes {
  import opened Wrappers
  import opened PageFrames
  import opened Paging
  import opened Spaces
  import opened Teardown
  import opened Fork
  import opened Eager
  import opened Budget
  import opened Conservation
  import PageFault

  lemma TopQuiet(s: State, m: nat, c: nat, f: nat)
    requires Core(s) && f in s.free && m in s.mms && c !in s.mms
    ensures var t := WithTop(Allocated(s, f), c, f, s.mms[m].brk); Core(t) && Prepared(s, t, m, c)
  {
    AllocKeeps(s, f);
    WithTopKeeps(Allocated(s, f), c, f, s.mms[m].brk);
    TopUse(s, c, f, s.mms[m].brk);
  }

  lemma TopUse(s: State, c: nat, f: nat, brk: nat)
    requires Pooled(s.pool, s.free, s.held, s.role) && f in s.free
    ensures Quiet(s, WithTop(Allocated(s, f), c, f, brk))
  {
  }

  method SetTop(t: Tables, c: nat, f: nat, brk: nat)
    modifies t
    ensures t.live == old(t.live) && t.S() == WithTop(old(t.S()), c, f, brk)
  {
    t.mms := t.mms[c := Mm(f, [], brk)];
    t.held, t.role := t.held - {f}, t.role[f := Top(c)];
  }

  lemma PreparedLater(s: State, t: State, u: State, m: nat, c: nat)
    requires Quiet(s, t) && t.pte == s.pte && t.mms == s.mms && Prepared(t, u, m, c)
    ensures Prepared(s, u, m, c)
  {
  }

  /** `task_set_vm`: it takes the second object and a frame for the top table. */
  method TaskSetVm(t: Tables, m: nat, c: nat, answers: seq<Answer>, ghost start: Supply)
    returns (ok: bool, ghost got: nat)
    requires Core(t.S()) && m in t.mms && c !in t.mms && Spent(SupplyOf(t.S()), 0, answers, 1, start)
    modifies t
    ensures t.live == old(t.live) && Core(t.S()) && t.last == old(t.last) && t.middle == old(t.middle)
    ensures ok ==> Prepared(old(t.S()), t.S(), m, c) && Spent(SupplyOf(t.S()), 1, answers, 2, start)
    ensures !ok ==> Quiet(old(t.S()), t.S()) && t.pte == old(t.pte) && t.mms == old(t.mms)
    ensures !ok ==> 1 <= got <= 2 && Spent(SupplyOf(t.S()), 0, answers, got, start)
    ensures !ok ==> !Affords(answers, got + 1, got - 1, start.free)
    ensures ok <==> Affords(answers, 2, 1, start.free)
  {
    got := 1;
    ghost var s := t.S();
    NextObject(SupplyOf(s), 0, answers, 1, start);
    ok := Kmalloc(t, Reply(answers, 1));
    if !ok {
      return;
    }
    got := 2;
    ghost var u := t.S();
    var o := t.PageAlloc();
    if o.None? {
      return false, 2;
    }
    TopQuiet(u, m, c, o.value);
    SetTop(t, c, o.value, t.mms[m].brk);
    PreparedLater(s, u, t.S(), m, c);
  }

  lemma PreparedThen(s: State, t: State, u: State, m: nat, c: nat)
    requires Prepared(s, t, m, c) && Quiet(t, u) && u.pte == t.pte && u.mms == t.mms
    ensures Prepared(s, u, m, c)
  {
  }

  /** `copy_files`, which needs the third and the fourth object */
  method CopyFiles(t: Tables, answers: seq<Answer>, ghost start: Supply) returns (ok: bool, ghost got: nat)
    requires Core(t.S()) && Spent(SupplyOf(t.S()), 1, answers, 2, start)
    modifies t
    ensures t.live == old(t.live) && Core(t.S()) && Quiet(old(t.S()), t.S()) && t.pte == old(t.pte)
    ensures t.mms == old(t.mms) && t.last == old(t.last) && t.middle == old(t.middle)
    ensures ok ==> got == 4
    ensures !ok ==> 2 <= got <= 3 && !Affords(answers, got + 1, 1, start.free)
    ensures Spent(SupplyOf(t.S()), 1, answers, got, start)
    ensures ok <==> Affords(answers, 4, 1, start.free)
  {
    got := 2;
    ghost var s := t.S();
    NextObject(SupplyOf(s), 1, answers, 2, start);
    ok := Kmalloc(t, Reply(answers, 2));
    if ok {
      ghost var u := t.S();
      NextObject(SupplyOf(u), 1, answers, 3, start);
      ok := Kmalloc(t, Reply(answers, 3));
      QuietTrans(s, u, t.S());
      got := if ok then 4 else 3;
    }
  }

  datatype ForkResult = Child | NoMemory | NoFiles

  lemma QuietValid(s: State, t: State, live: set<nat>)
    requires Valid(s, live) && Core(t) && Quiet(s, t) && t.pte == s.pte && t.mms == s.mms
    ensures Valid(t, live) && Image(t, live) == Image(s, live)
  {
    forall k ensures View(t, k) == View(s, k) { QuietView(s, t, k); }
    SameImage(s, t, live);
  }

  /** `copy_files` failed: the child's empty address space stays behind. */
  lemma OrphanValid(s: State, t: State, m: nat, c: nat, live: set<nat>)
    requires Valid(s, live) && Core(t) && Prepared(s, t, m, c) && c !in live
    ensures Valid(t, live) && Image(t, live) == Image(s, live)
  {
    forall k ensures View(t, k) == View(s, k) { QuietView(s, t, k); }
    OrphanArranged(s.pte, s.mms, t.mms, c, live);
    OrphanImage(s, t, c, live);
  }

  lemma OrphanArranged(p: map<Key, Pte>, mms: map<nat, Mm>, nms: map<nat, Mm>, c: nat, live: set<nat>)
    requires Arranged(p, mms, live) && c !in mms && c in nms && nms[c].areas == [] && nms == mms[c := nms[c]]
    ensures Arranged(p, nms, live)
  {
    forall k | k in p ensures Homed(nms, k) {
      assert Homed(mms, k);
    }
    forall x | x in live ensures x in nms && Populated(p, x, nms[x]) {
      assert Populated(p, x, mms[x]);
    }
    forall x | x in nms ensures LaidOut(nms[x].areas) {
      assert x != c ==> LaidOut(mms[x].areas);
    }
  }

  lemma OrphanImage(s: State, t: State, c: nat, live: set<nat>)
    requires c in t.mms && c !in live && t.mms == s.mms[c := t.mms[c]] && forall k :: View(t, k) == View(s, k)
    ensures Image(t, live) == Image(s, live)
  {
  }

  /** What `copy_task` relies on */
  ghost predicate Ready(u: State, m: nat, c: nat) {
    && m != c && m in u.mms && c in u.mms && LaidOut(u.mms[m].areas) && u.mms[c].areas == []
    && Single(u.pte) && Gone(u.pte, c) && Inside(u.pte, u.mms)
  }

  lemma PreparedIsReady(s: State, u: State, m: nat, c: nat, live: set<nat>)
    requires Arranged(s.pte, s.mms, live) && Prepared(s, u, m, c)
    ensures Ready(u, m, c)
  {
    forall k | k in u.pte ensures Homed(u.mms, k) && k.mm != c {
      assert Homed(s.mms, k);
    }
    assert LaidOut(s.mms[m].areas);
  }

  lemma ForkValid(s: State, u: State, t: State, m: nat, c: nat, live: set<nat>, job: Job)
    requires Valid(s, live) && Prepared(s, u, m, c) && m in live && m != c
    requires CopiedTo(u, t, m, c, |job.areas|, job)
    ensures Forked(s, t, m, c, live) && t.pool.frames == s.pool.frames
  {
    assert job.areas[..|job.areas|] == job.areas;
    ForkArranged(s, u, t, m, c, live);
    ForkImage(s, u, t, m, c, live);
  }

  lemma UndoneValid(s: State, u: State, t: State, w: State, m: nat, c: nat, n: nat, live: set<nat>)
    requires Valid(s, live) && Prepared(s, u, m, c) && Copying(u, t, m, c, n) && Core(w) && Torn(t, w, c) && m != c
    ensures w.mms == s.mms && Valid(w, live) && Image(w, live) == Image(s, live) && w.pool.frames == s.pool.frames
  {
    UndoneArranged(s, u, t, w, m, c, n, live);
    UndoneImage(s, u, t, w, m, c, n, live);
    assert w.held == s.held;
  }

  /** The child has only tables of its own, and they go with it. */
  lemma TablesBack(u: State, t: State, w: State, m: nat, c: nat)
    requires Core(u) && Core(t) && Shares(u, t, m, c) && Torn(t, w, c) && Gone(u.last, c) && Gone(u.middle, c)
    ensures w.last == u.last && w.middle == u.middle
  {
    TablesStay(u, t);
    EntriesBack(u.last, t.last, w.last, c);
    EntriesBack(u.middle, t.middle, w.middle, c);
  }

  lemma EntriesBack(a: map<Key, nat>, b: map<Key, nat>, d: map<Key, nat>, c: nat)
    requires Extends(a, b) && Confined(a, b, c) && Pruned(b, d, c) && Gone(d, c) && Gone(a, c)
    ensures d == a
  {
  }

  /** A table in use stays the table it is. */
  lemma TablesStay(u: State, t: State)
    requires Owned(u.role, u.last, u.middle, u.mms) && SameUse(u, t) && NoneLost(t.role, t.last, t.middle, t.mms)
    ensures Extends(u.last, t.last) && Extends(u.middle, t.middle)
  {
    forall k | k in u.last ensures k in t.last && t.last[k] == u.last[k] {
      assert Reached(t.role[u.last[k]], u.last[k], t.last, t.middle, t.mms);
    }
    forall k | k in u.middle ensures k in t.middle && t.middle[k] == u.middle[k] {
      assert Reached(t.role[u.middle[k]], u.middle[k], t.last, t.middle, t.mms);
    }
  }

  lemma NoTablesYet(s: State, c: nat)
    requires Nested(s.pte, s.last, s.middle, s.mms) && c !in s.mms
    ensures Gone(s.last, c) && Gone(s.middle, c)
  {
    forall k | k in s.last ensures k.mm != c { assert Up(k) in s.middle; }
  }

  /** A fork that failed half-way leaves the same frames to the pool and the caches together. */
  lemma UndoneFrames(s: State, u: State, t: State, w: State, m: nat, c: nat, n: nat, live: set<nat>)
    requires Valid(s, live) && Core(u) && Prepared(s, u, m, c) && u.last == s.last && u.middle == s.middle
    requires Copying(u, t, m, c, n) && Core(t) && Core(w) && Torn(t, w, c) && m != c
    ensures |w.free| + |w.pool.slab| == |s.free| + |s.pool.slab|
  {
    NoTablesYet(s, c);
    TablesBack(u, t, w, m, c);
    UndoneArranged(s, u, t, w, m, c, n, live);
    Undone(s.pte, t.pte, w.pte, s.mms, c);
    SameIdle(s, w);
  }

  /** `copy_task`, and `exit_mm` on the child when it fails */
  method CopyOrUndo(t: Tables, m: nat, c: nat, answers: seq<Answer>, ghost job: Job)
    returns (ok: bool, ghost w: State, ghost n: nat, ghost got: nat)
    requires Core(t.S()) && Ready(t.S(), m, c)
    requires JobOf(t.S(), m, job) && job.answers == answers && Paid(t.S(), c, Stage(job, 0), 4)
    modifies t
    ensures t.live == old(t.live) && Core(t.S())
    ensures ok ==> CopiedTo(old(t.S()), t.S(), m, c, |job.areas|, job)
    ensures !ok ==> Core(w) && Copying(old(t.S()), w, m, c, n) && Torn(w, t.S(), c) && Stopped(t.S(), job, got)
  {
    ghost var u := t.S();
    ok, n, got := CopyTask(t, m, c, answers, job);
    w := t.S();
    if !ok {
      assert Contained(t.pte, c, t.mms[c].areas);
      ExitMm(t, c);
    }
  }

  /** All pages of the parent lie in its areas, so the last stage of its copy is the whole bill. */
  lemma LastStage(s: State, m: nat, job: Job)
    requires Inside(s.pte, s.mms) && JobOf(s, m, job)
    ensures Stage(job, |job.areas|) == ForkBill(s, m, job.answers, job.start)
  {
    assert job.areas[..|job.areas|] == job.areas;
    forall v | v in Pages(s.pte, m) ensures Covered(job.areas, v) {
      InPages(s.pte, m, v);
      assert Homed(s.mms, Key(m, v));
    }
  }

  /** After a complete copy the child has every page of the parent, so the bill was paid in full. */
  lemma CopiedAll(s: State, u: State, t: State, m: nat, c: nat, job: Job)
    requires CopiedTo(u, t, m, c, |job.areas|, job) && m != c
    requires JobOf(s, m, job) && Inside(s.pte, s.mms)
    ensures Affordable(ForkBill(s, m, job.answers, job.start))
    ensures Spent(SupplyOf(t), 1 + Cost(Pages(s.pte, m), false), job.answers, 4 + |job.areas|, job.start)
  {
    CopiedPages(u, t, m, c, |job.areas|, job);
    LastStage(s, m, job);
  }

  /** The fork stopped and was undone: what the objects took is all that is missing. */
  lemma StoppedSpent(s: State, w: State, job: Job, got: nat)
    requires Stopped(w, job, got) && |w.free| + |w.pool.slab| == |s.free| + |s.pool.slab|
    requires |s.free| + |s.pool.slab| == job.start.free + job.start.slab
    ensures Spent(SupplyOf(w), 0, job.answers, got, job.start)
  {
  }

  /** The child is complete, and the parent's tables over again are paid for. */
  ghost predicate CopyDone(s: State, t: State, m: nat, c: nat, live: set<nat>, job: Job) {
    && Forked(s, t, m, c, live) && t.pool.frames == s.pool.frames
    && Affordable(ForkBill(s, m, job.answers, job.start)) && Obtained(job, 4 + |job.areas|, 4 + |job.areas|)
    && Spent(SupplyOf(t), 1 + Cost(Pages(s.pte, m), false), job.answers, 4 + |job.areas|, job.start)
  }

  lemma CopyIsDone(s: State, u: State, t: State, m: nat, c: nat, live: set<nat>, job: Job)
    requires Valid(s, live) && Prepared(s, u, m, c) && m in live && m != c && JobOf(s, m, job)
    requires CopiedTo(u, t, m, c, |job.areas|, job)
    ensures CopyDone(s, t, m, c, live, job)
  {
    CopiedAll(s, u, t, m, c, job);
    ForkValid(s, u, t, m, c, live, job);
    AllObtained(s, m, job);
  }

  /** Nobody sees a change, and what the objects took is all that is missing. */
  ghost predicate CopyUndone(s: State, t: State, m: nat, live: set<nat>, job: Job, got: nat) {
    && Valid(t, live) && Image(t, live) == Image(s, live) && t.mms == s.mms && t.pool.frames == s.pool.frames
    && !Affordable(ForkBill(s, m, job.answers, job.start)) && Obtained(job, 4 + |job.areas|, got)
    && Spent(SupplyOf(t), 0, job.answers, got, job.start)
  }

  lemma CopyIsUndone(s: State, u: State, w: State, t: State, m: nat, c: nat, n: nat, live: set<nat>, job: Job, got: nat)
    requires Valid(s, live) && Core(u) && Prepared(s, u, m, c) && u.last == s.last && u.middle == s.middle && m != c
    requires JobOf(s, m, job) && Spent(SupplyOf(s), 0, job.answers, 1, job.start)
    requires Core(w) && Copying(u, w, m, c, n) && Core(t) && Torn(w, t, c) && Stopped(t, job, got)
    ensures CopyUndone(s, t, m, live, job, got)
  {
    UndoneValid(s, u, w, t, m, c, n, live);
    UndoneFrames(s, u, w, t, m, c, n, live);
    LastStage(s, m, job);
    StoppedSpent(s, t, job, got);
  }

  method CopyMemory(t: Tables, m: nat, c: nat, answers: seq<Answer>, ghost s: State, ghost job: Job)
    returns (ok: bool, ghost got: nat)
    requires Valid(s, t.live) && Core(t.S()) && Prepared(s, t.S(), m, c) && t.last == s.last && t.middle == s.middle
    requires m in t.live && JobOf(s, m, job) && job.answers == answers && Paid(t.S(), c, Stage(job, 0), 4)
    requires Spent(SupplyOf(s), 0, answers, 1, job.start)
    modifies t
    ensures t.live == old(t.live)
    ensures if ok then CopyDone(s, t.S(), m, c, t.live, job) else CopyUndone(s, t.S(), m, t.live, job, got)
  {
    ghost var u := t.S();
    PreparedIsReady(s, u, m, c, t.live);
    ghost var w, n;
    ok, w, n, got := CopyOrUndo(t, m, c, answers, job);
    if ok {
      CopyIsDone(s, u, t.S(), m, c, t.live, job);
    } else {
      CopyIsUndone(s, u, w, t.S(), m, c, n, t.live, job, got);
    }
  }

  /** What a fork of `m` has to pay: a task record, the address space, two objects for files, one for each
      area, the top table, and the tables over the parent's pages */
  ghost function ForkBill(s: State, m: nat, answers: seq<Answer>, start: Supply): Bill {
    Bill(false, answers, 4 + if m in s.mms then |s.mms[m].areas| else 0, Pages(s.pte, m), start)
  }

  ghost function ForkJob(s: State, m: nat, answers: seq<Answer>): Job {
    Job(s.pte, m, if m in s.mms then s.mms[m].areas else [], answers, SupplyOf(s))
  }

  /** The child exists and sees the parent's memory; the others see what they saw. */
  ghost predicate Forked(s: State, t: State, m: nat, c: nat, live: set<nat>) {
    && Valid(t, live + {c}) && t.mms.Keys == s.mms.Keys + {c}
    && Image(t, live + {c}) == AfterFork(Image(s, live), m, c)
  }

  /** What a fork comes to: a child exactly when there is a process number and the whole bill can be
      paid; `copy_files` fails exactly when only the objects up to there can be had. */
  ghost function ForkOutcome(s: State, m: nat, pid: bool, answers: seq<Answer>): ForkResult {
    if !pid || !Affords(answers, 2, 1, |s.free|) then NoMemory
    else if !Affords(answers, 4, 1, |s.free|) then NoFiles
    else if !Affordable(ForkBill(s, m, answers, SupplyOf(s))) then NoMemory
    else Child
  }

  /** The frames that a fork leaves in use, besides those of objects: the child's tables, or the top table
      of an address space that nobody will free */
  ghost function ForkFrames(s: State, m: nat, r: ForkResult): nat {
    match r
    case Child => 1 + Cost(Pages(s.pte, m), false)
    case NoMemory => 0
    case NoFiles => 1
  }

  /** A fork got `got` objects and left as many frames as those and its result have not taken. */
  ghost predicate ForkTook(s: State, t: State, m: nat, pid: bool, answers: seq<Answer>, r: ForkResult, got: nat) {
    && Obtained(ForkJob(s, m, answers), if pid then 4 + |ForkJob(s, m, answers).areas| else 1, got)
    && Spent(SupplyOf(t), ForkFrames(s, m, r), answers, got, SupplyOf(s))
  }

  /** `do_fork` without CLONE_VM. The child sees exactly the parent's memory; a fork that fails
      changes nothing that anybody sees. Only when `copy_files` fails does the child's address
      space stay behind. */
  method DoFork(t: Tables, m: nat, c: nat, pid: bool, answers: seq<Answer>) returns (r: ForkResult, ghost got: nat)
    requires Valid(t.S(), t.live) && m in t.live && c !in t.mms
    modifies t
    ensures Valid(t.S(), t.live) && t.pool.frames == old(t.pool.frames)
    ensures r == ForkOutcome(old(t.S()), m, pid, answers)
    ensures r.Child? ==> t.live == old(t.live) + {c} && t.mms.Keys == old(t.mms.Keys) + {c}
    ensures r.Child? ==> Image(t.S(), t.live) == AfterFork(old(Image(t.S(), t.live)), m, c)
    ensures !r.Child? ==> t.live == old(t.live) && Image(t.S(), t.live) == old(Image(t.S(), t.live))
    ensures r.NoMemory? ==> t.mms.Keys == old(t.mms.Keys)
    ensures r.NoFiles? ==> t.mms.Keys == old(t.mms.Keys) + {c}
    ensures ForkTook(old(t.S()), t.S(), m, pid, answers, r, got)
  {
    ghost var s := t.S();
    ghost var job := ForkJob(s, m, answers);
    assert m in s.mms;
    NextObject(SupplyOf(s), 0, answers, 0, SupplyOf(s));
    var ok := Kmalloc(t, Reply(answers, 0));
    QuietValid(s, t.S(), t.live);
    ghost var u := t.S();
    // `alloc_task` also fails when `alloc_pidmap` has no process number
    if !ok || !pid {
      OutcomeIs(s, u, m, pid, answers, ok, NoMemory);
      return NoMemory, if ok then 1 else 0;
    }
    r, got := ForkFrom(t, m, c, answers, job);
    OutcomeIs(s, u, m, pid, answers, ok, r);
  }

  /** The first object, then the rest */
  lemma OutcomeIs(s: State, u: State, m: nat, pid: bool, answers: seq<Answer>, ok: bool, r: ForkResult)
    requires u.pte == s.pte && u.mms == s.mms && (ok <==> Affords(answers, 1, 0, |s.free|))
    requires !ok || !pid ==> r == NoMemory
    requires ok && pid ==> (r.NoFiles? <==> Affords(answers, 2, 1, |s.free|) && !Affords(answers, 4, 1, |s.free|))
    requires ok && pid ==>
               (r.Child? <==> Affords(answers, 4, 1, |s.free|) && Affordable(ForkBill(u, m, answers, SupplyOf(s))))
    ensures r == ForkOutcome(s, m, pid, answers)
  {
    if Affords(answers, 4, 1, |s.free|) { AffordsLess(answers, 2, 1, 4, 1, |s.free|); }
    if Affords(answers, 2, 1, |s.free|) { AffordsLess(answers, 1, 0, 2, 1, |s.free|); }
  }

  /** `task_set_vm` and `copy_files` */
  method PrepareChild(t: Tables, m: nat, c: nat, answers: seq<Answer>, ghost job: Job)
    returns (r: ForkResult, ghost got: nat)
    requires Core(t.S()) && m in t.mms && c !in t.mms
    requires JobOf(t.S(), m, job) && job.answers == answers && Spent(SupplyOf(t.S()), 0, answers, 1, job.start)
    modifies t
    ensures t.live == old(t.live) && Core(t.S()) && t.last == old(t.last) && t.middle == old(t.middle)
    ensures !r.NoMemory? ==> Prepared(old(t.S()), t.S(), m, c)
    ensures r.NoMemory? ==> Quiet(old(t.S()), t.S()) && t.pte == old(t.pte) && t.mms == old(t.mms)
    ensures r.NoMemory? <==> !Affords(answers, 2, 1, job.start.free)
    ensures r.Child? <==> Affords(answers, 4, 1, job.start.free)
    ensures r.Child? ==> Spent(SupplyOf(t.S()), 1, answers, 4, job.start)
    ensures !r.Child? ==> Obtained(job, 4 + |job.areas|, got)
    ensures !r.Child? ==> Spent(SupplyOf(t.S()), ForkFrames(old(t.S()), m, r), answers, got, job.start)
  {
    ghost var s := t.S();
    var ok;
    ok, got := TaskSetVm(t, m, c, answers, job.start);
    if !ok {
      Unaffordable(answers, 2, 1, 4, 1, job.start.free);
      return NoMemory, got;
    }
    ghost var u := t.S();
    ok, got := CopyFiles(t, answers, job.start);
    PreparedThen(s, u, t.S(), m, c);
    r := if ok then Child else NoFiles;
  }

  /** `do_fork` after `alloc_task` */
  method ForkFrom(t: Tables, m: nat, c: nat, answers: seq<Answer>, ghost job: Job)
    returns (r: ForkResult, ghost got: nat)
    requires Valid(t.S(), t.live) && m in t.live && c !in t.mms && m in t.mms
    requires JobOf(t.S(), m, job) && job.answers == answers && Spent(SupplyOf(t.S()), 0, answers, 1, job.start)
    modifies t
    ensures Valid(t.S(), t.live) && t.pool.frames == old(t.pool.frames)
    ensures r.Child? ==> t.live == old(t.live) + {c} && t.mms.Keys == old(t.mms.Keys) + {c}
    ensures r.Child? ==> Image(t.S(), t.live) == AfterFork(old(Image(t.S(), t.live)), m, c)
    ensures !r.Child? ==> t.live == old(t.live) && Image(t.S(), t.live) == old(Image(t.S(), t.live))
    ensures r.NoMemory? ==> t.mms.Keys == old(t.mms.Keys)
    ensures r.NoFiles? ==> t.mms.Keys == old(t.mms.Keys) + {c}
    ensures r.NoFiles? <==> Affords(answers, 2, 1, job.start.free) && !Affords(answers, 4, 1, job.start.free)
    ensures r.Child? <==>
            Affords(answers, 4, 1, job.start.free) && Affordable(ForkBill(old(t.S()), m, answers, job.start))
    ensures Obtained(job, 4 + |job.areas|, got)
    ensures Spent(SupplyOf(t.S()), ForkFrames(old(t.S()), m, r), answers, got, job.start)
  {
    ghost var s := t.S();
    r, got := PrepareChild(t, m, c, answers, job);
    if r.NoMemory? {
      QuietValid(s, t.S(), t.live);
    } else if r.NoFiles? {
      OrphanValid(s, t.S(), m, c, t.live);
    } else {
      r, got := FinishFork(t, m, c, answers, s, job);
    }
  }

  /** `copy_task` in `do_fork`, and what it comes to */
  method FinishFork(t: Tables, m: nat, c: nat, answers: seq<Answer>, ghost s: State, ghost job: Job)
    returns (r: ForkResult, ghost got: nat)
    requires Valid(s, t.live) && Core(t.S()) && Prepared(s, t.S(), m, c) && t.last == s.last && t.middle == s.middle
    requires m in t.live && JobOf(s, m, job) && job.answers == answers
    requires Spent(SupplyOf(s), 0, answers, 1, job.start) && Spent(SupplyOf(t.S()), 1, answers, 4, job.start)
    modifies t
    ensures Valid(t.S(), t.live) && t.pool.frames == s.pool.frames && !r.NoFiles?
    ensures r.Child? ==> t.live == old(t.live) + {c} && t.mms.Keys == s.mms.Keys + {c}
    ensures r.Child? ==> Image(t.S(), t.live) == AfterFork(Image(s, old(t.live)), m, c)
    ensures !r.Child? ==> t.live == old(t.live) && Image(t.S(), t.live) == Image(s, t.live) && t.mms == s.mms
    ensures r.Child? <==> Affordable(ForkBill(s, m, answers, job.start))
    ensures Obtained(job, 4 + |job.areas|, got)
    ensures Spent(SupplyOf(t.S()), ForkFrames(s, m, r), answers, got, job.start)
  {
    StartPaid(s, t.S(), c, Stage(job, 0), 4);
    var ok;
    ok, got := CopyMemory(t, m, c, answers, s, job);
    if !ok {
      return NoMemory, got;
    }
    t.live := t.live + {c};
    return Child, 4 + |job.areas|;
  }

  lemma AllObtained(s: State, m: nat, job: Job)
    requires Inside(s.pte, s.mms) && JobOf(s, m, job) && Affordable(ForkBill(s, m, job.answers, job.start))
    ensures Obtained(job, 4 + |job.areas|, 4 + |job.areas|)
  {
    LastStage(s, m, job);
    var n := 4 + |job.areas|;
    BeforeGrows(job, n - 1, n);
    AffordsLess(job.answers, n, Before(job, n - 1), n, Before(job, n), job.start.free);
  }

  lemma ExitValid(s: State, t: State, m: nat, live: set<nat>)
    requires Valid(s, live) && Core(t) && Torn(s, t, m)
    ensures Valid(t, live - {m}) && Image(t, live - {m}) == AfterExit(Image(s, live), m)
  {
    TornArranged(s, t, m, live);
    TornImage(s, t, m, live);
    assert t.held == s.held;
  }

  /** `exit`, as far as memory goes */
  method Exit(t: Tables, m: nat)
    requires Valid(t.S(), t.live) && m in t.live
    modifies t
    ensures Valid(t.S(), t.live) && t.live == old(t.live) - {m} && t.mms.Keys == old(t.mms.Keys) - {m}
    ensures Image(t.S(), t.live) == AfterExit(old(Image(t.S(), t.live)), m)
    ensures Torn(old(t.S()), t.S(), m) && Freed(old(t.S()), t.S(), m)
  {
    ghost var s := t.S();
    InsideContained(s.pte, s.mms, m);
    ExitMm(t, m);
    PageFault.GrewSelf(s, m);
    ExitFrees(s, s, t.S(), m);
    ExitValid(s, t.S(), m, t.live);
    t.live := t.live - {m};
  }

  // ----- user accesses

  lemma ServedValid(s: State, t: State, k: Key, live: set<nat>)
    requires Valid(s, live) && Core(t) && Served(s, t, k) && Visible(s.mms, live, k)
    ensures Valid(t, live) && Image(t, live) == Image(s, live)
  {
    ServedArranged(s, t, k, live);
    ServedImage(s, t, k, live);
  }

  lemma GrewValid(s: State, t: State, live: set<nat>)
    requires Valid(s, live) && Core(t) && Grew(s, t)
    ensures Valid(t, live) && Image(t, live) == Image(s, live)
  {
    GrownImage(s, t, live);
  }

  /** `exit` of a task whose fault was not served */
  method Kill(t: Tables, m: nat, ghost s: State)
    requires Valid(s, t.live) && Core(t.S()) && GrewIn(s, t.S(), m) && m in t.live
    modifies t
    ensures Valid(t.S(), t.live) && t.live == old(t.live) - {m} && t.mms.Keys == s.mms.Keys - {m}
    ensures Image(t.S(), t.live) == AfterExit(Image(s, old(t.live)), m)
    ensures Freed(s, t.S(), m)
  {
    ghost var u := t.S();
    GrewValid(s, u, t.live);
    Exit(t, m);
    ExitFrees(s, u, t.S(), m);
  }

  /** A page fault of a task: served without any task seeing a change, or that one exits. */
  method Fault(t: Tables, k: Key, write: bool) returns (alive: bool)
    requires Valid(t.S(), t.live) && k.mm in t.live
    requires k in t.pte ==> write && !t.pte[k].write
    modifies t
    ensures Valid(t.S(), t.live) && t.pool == old(t.pool)
    ensures alive <==> old(Visible(t.mms, t.live, k)) && old(|t.free|) >= old(PageFault.Need(t.S(), k))
    ensures alive ==> t.live == old(t.live) && t.mms == old(t.mms) && Image(t.S(), t.live) == old(Image(t.S(), t.live))
    ensures alive ==> k in t.pte && t.pte[k].write && Visible(t.mms, t.live, k)
    ensures !alive ==> t.live == old(t.live) - {k.mm} && t.mms.Keys == old(t.mms.Keys) - {k.mm}
    ensures !alive ==> Image(t.S(), t.live) == AfterExit(old(Image(t.S(), t.live)), k.mm)
    ensures alive ==> |t.free| == old(|t.free|) - old(PageFault.Need(t.S(), k))
    ensures !alive ==> Freed(old(t.S()), t.S(), k.mm)
  {
    ghost var s := t.S();
    alive := PageFault.PageFaultHandler(t, k, write);
    if alive {
      ServedValid(s, t.S(), k, t.live);
    } else {
      Kill(t, k.mm, s);
    }
  }

  lemma WriteKeeps(s: State, k: Key, p: Page, live: set<nat>)
    requires Valid(s, live) && k in s.pte
    ensures Valid(Overwritten(s, k, p), live)
  {
  }

  /** From `e` to `f` the byte at `off` on page `k` became `b`, and no other byte of any page changed. */
  ghost predicate OneByte(e: Memory, f: Memory, k: Key, off: Offset, b: Byte) {
    && k in e && k in f && f[k][off] == b
    && (forall o: Offset :: o != off ==> f[k][o] == e[k][o])
    && f.Keys == e.Keys
    && (forall j :: j in e && j != k ==> f[j] == e[j])
  }

  lemma StoreIsOneByte(e: Memory, k: Key, off: Offset, b: Byte)
    requires k in e
    ensures OneByte(e, AfterStore(e, k, off, b), k, off, b)
  {
  }

  /** The store itself, on a page the hardware lets its process write */
  method Write(t: Tables, k: Key, off: Offset, b: Byte)
    requires Valid(t.S(), t.live) && k in t.pte && t.pte[k].write && Visible(t.mms, t.live, k)
    requires t.pte[k].frame in t.data
    modifies t`data
    ensures Valid(t.S(), t.live) && Image(t.S(), t.live) == AfterStore(old(Image(t.S(), t.live)), k, off, b)
    ensures OneByte(old(Image(t.S(), t.live)), Image(t.S(), t.live), k, off, b)
  {
    var f := t.pte[k].frame;
    StoreIsOneByte(Image(t.S(), t.live), k, off, b);
    var p := Stored(t.data[f], off, b);
    StoreImage(t.S(), k, off, b, t.live);
    WriteKeeps(t.S(), k, p, t.live);
    t.data := t.data[f := p];
  }

  lemma PresentFacts(s: State, k: Key, live: set<nat>)
    requires Valid(s, live) && k in s.pte && k.mm in live
    ensures Visible(s.mms, live, k) && s.pte[k].frame in s.data && s.data[s.pte[k].frame] == View(s, k)
  {
  }

  /** The frames that a store to page `k` takes */
  ghost function StoreNeed(s: State, k: Key): nat {
    if k in s.pte && s.pte[k].write then 0 else PageFault.Need(s, k)
  }

  /** The frames that a load from page `k` takes */
  ghost function LoadNeed(s: State, k: Key): nat {
    if k in s.pte then 0 else PageFault.Need(s, k)
  }

  /** The hardware lets a store to page `k` pass, after a fault where there has to be one. */
  method Admit(t: Tables, k: Key) returns (alive: bool)
    requires Valid(t.S(), t.live) && k.mm in t.live
    modifies t
    ensures Valid(t.S(), t.live) && t.pool == old(t.pool)
    ensures alive <==> old(Visible(t.mms, t.live, k)) && old(|t.free|) >= old(StoreNeed(t.S(), k))
    ensures alive ==> t.live == old(t.live) && t.mms == old(t.mms) && Image(t.S(), t.live) == old(Image(t.S(), t.live))
    ensures alive ==> k in t.pte && t.pte[k].write && Visible(t.mms, t.live, k) && t.pte[k].frame in t.data
    ensures !alive ==> t.live == old(t.live) - {k.mm} && t.mms.Keys == old(t.mms.Keys) - {k.mm}
    ensures !alive ==> Image(t.S(), t.live) == AfterExit(old(Image(t.S(), t.live)), k.mm)
    ensures alive ==> |t.free| == old(|t.free|) - old(StoreNeed(t.S(), k))
    ensures !alive ==> Freed(old(t.S()), t.S(), k.mm)
  {
    alive := true;
    if !(k in t.pte && t.pte[k].write) {
      alive := Fault(t, k, true);
    }
    if alive {
      PresentFacts(t.S(), k, t.live);
    }
  }

  /** A task stores a byte: every task then sees what it would if each owned its memory. */
  method Store(t: Tables, k: Key, off: Offset, b: Byte) returns (alive: bool)
    requires Valid(t.S(), t.live) && k.mm in t.live
    modifies t
    ensures Valid(t.S(), t.live) && t.pool == old(t.pool)
    ensures alive <==> old(Visible(t.mms, t.live, k)) && old(|t.free|) >= old(StoreNeed(t.S(), k))
    ensures alive ==> t.live == old(t.live) && t.mms == old(t.mms)
    ensures alive ==> k in old(Image(t.S(), t.live))
    ensures alive ==> Image(t.S(), t.live) == AfterStore(old(Image(t.S(), t.live)), k, off, b)
    ensures alive ==> OneByte(old(Image(t.S(), t.live)), Image(t.S(), t.live), k, off, b) && k in t.pte
    ensures !alive ==> t.live == old(t.live) - {k.mm} && t.mms.Keys == old(t.mms.Keys) - {k.mm}
    ensures !alive ==> Image(t.S(), t.live) == AfterExit(old(Image(t.S(), t.live)), k.mm)
    ensures alive ==> |t.free| == old(|t.free|) - old(StoreNeed(t.S(), k))
    ensures !alive ==> Freed(old(t.S()), t.S(), k.mm)
  {
    alive := Admit(t, k);
    if alive {
      Write(t, k, off, b);
    }
  }

  /** A task loads a byte: it gets the byte it would get if it owned its memory. */
  method Load(t: Tables, k: Key, off: Offset) returns (alive: bool, b: Byte)
    requires Valid(t.S(), t.live) && k.mm in t.live
    modifies t
    ensures Valid(t.S(), t.live) && t.pool == old(t.pool)
    ensures alive <==> old(Visible(t.mms, t.live, k)) && old(|t.free|) >= old(LoadNeed(t.S(), k))
    ensures alive ==> t.live == old(t.live) && t.mms == old(t.mms) && Image(t.S(), t.live) == old(Image(t.S(), t.live))
    ensures alive ==> k in Image(t.S(), t.live) && b == Image(t.S(), t.live)[k][off] && k in t.pte
    // a page of an area that has not been touched reads zero
    ensures alive && k !in old(t.pte) ==> b == 0 && forall o: Offset :: Image(t.S(), t.live)[k][o] == 0
    ensures !alive ==> t.live == old(t.live) - {k.mm} && t.mms.Keys == old(t.mms.Keys) - {k.mm}
    ensures !alive ==> Image(t.S(), t.live) == AfterExit(old(Image(t.S(), t.live)), k.mm)
    ensures alive ==> |t.free| == old(|t.free|) - old(LoadNeed(t.S(), k))
    ensures !alive ==> Freed(old(t.S()), t.S(), k.mm)
  {
    alive, b := true, 0;
    if k !in t.pte {
      alive := Fault(t, k, false);
    }
    if alive {
      PresentFacts(t.S(), k, t.live);
      b := t.data[t.pte[k].frame][off];
    }
  }

  lemma UnstockValid(s: State, given: set<nat>, live: set<nat>)
    requires Valid(s, live) && given <= s.pool.slab
    ensures Valid(Unstocked(s, given), live) && Image(Unstocked(s, given), live) == Image(s, live)
  {
    UnstockKeeps(s, given);
    SameImage(s, Unstocked(s, given), live);
  }

  /** `kfree` may empty slabs, whose frames go back to the pool. */
  method Kfree(t: Tables, given: set<nat>)
    requires Valid(t.S(), t.live) && given <= t.pool.slab
    modifies t
    ensures Valid(t.S(), t.live) && t.live == old(t.live) && t.mms == old(t.mms)
    ensures t.pool == Pool(old(t.pool.frames), old(t.pool.slab) - given) && t.free == old(t.free) + given
    ensures Image(t.S(), t.live) == old(Image(t.S(), t.live))
  {
    UnstockValid(t.S(), given, t.live);
    Unstock(t, given);
  }

  method Unstock(t: Tables, given: set<nat>)
    modifies t
    ensures t.live == old(t.live) && t.S() == Unstocked(old(t.S()), given)
  {
    t.free, t.pool := t.free + given, Pool(t.pool.frames, t.pool.slab - given);
    t.role := Restocked(t.role, given, Free);
  }

  /** Memory before the first task */
  method Boot(frames: set<nat>) returns (t: Tables)
    ensures fresh(t) && Valid(t.S(), t.live) && t.mms.Keys == t.live == {}
    ensures t.pool == Pool(frames, {}) && t.free == frames
  {
    t := new Tables(frames);
  }
}
