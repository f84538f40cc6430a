/** Why a birth must close no cycle of parents and find its `pwait` word clear. From every state with a
    cycle the tasks can bring the kernel to the empty-queue panic while some of them are alive; a birth
    with the word set can be followed by an exit that links a queued task again. */
module Deadlock {
  import opened Wrappers
  import opened Pidmap
  import opened Sched

  /** The invariant but for the forest of parents */
  ghost predicate Going(s: State) {
    Loose(s.tasks, s.queue) && s.queue != [] && s.cur == Some(s.queue[0]) && HasCurrent(s)
  }

  ghost predicate HasChild(tasks: map<nat, Task>, ring: set<nat>, p: nat) {
    exists c :: c in ring && c in tasks && tasks[c].ppid == p
  }

  /** Every task of the set has a child in it. */
  ghost predicate Closed(tasks: map<nat, Task>, ring: set<nat>) {
    && ring != {} && ring <= tasks.Keys
    && forall p {:trigger HasChild(tasks, ring, p)} :: p in ring ==> HasChild(tasks, ring, p)
  }

  // ----- without a forest there is such a set

  ghost predicate ParentIn(tasks: map<nat, Task>, some: set<nat>, p: nat) {
    p in tasks && tasks[p].ppid >= 0 && tasks[p].ppid in some
  }

  /** Every task of the set has its parent in it. */
  ghost predicate Upward(tasks: map<nat, Task>, some: set<nat>) {
    && some != {} && some <= tasks.Keys
    && forall p {:trigger ParentIn(tasks, some, p)} :: p in some ==> ParentIn(tasks, some, p)
  }

  ghost function Parents(tasks: map<nat, Task>, some: set<nat>): set<nat> {
    set q | q in some && HasChild(tasks, some, q)
  }

  lemma ParentsUpward(tasks: map<nat, Task>, some: set<nat>)
    requires Upward(tasks, some)
    ensures Upward(tasks, Parents(tasks, some))
  {
    var up := Parents(tasks, some);
    forall p | p in some ensures ParentIn(tasks, up, p) {
      assert ParentIn(tasks, some, p);
      assert HasChild(tasks, some, tasks[p].ppid);
    }
    var p :| p in some;
    assert ParentIn(tasks, up, p);
  }

  /** A set that is its own set of parents is left after taking parents often enough. */
  lemma {:induction false} FindRing(tasks: map<nat, Task>, some: set<nat>) returns (ring: set<nat>)
    requires Upward(tasks, some)
    ensures Closed(tasks, ring)
    decreases some
  {
    ParentsUpward(tasks, some);
    if Parents(tasks, some) == some {
      ring := some;
      forall p | p in ring ensures HasChild(tasks, ring, p) {
        assert p in Parents(tasks, some);
      }
    } else {
      ring := FindRing(tasks, Parents(tasks, some));
    }
  }

  ghost predicate Above(tasks: map<nat, Task>, rank: map<nat, nat>, done: set<nat>, p: nat) {
    && p in tasks && p in rank
    && (tasks[p].ppid in tasks ==> tasks[p].ppid in done && tasks[p].ppid in rank && rank[tasks[p].ppid] < rank[p])
  }

  /** The tasks of `done` are ranked, each above its parent. */
  ghost predicate RankedBelow(tasks: map<nat, Task>, rank: map<nat, nat>, done: set<nat>) {
    forall p {:trigger Above(tasks, rank, done, p)} :: p in done ==> Above(tasks, rank, done, p)
  }

  ghost function Parental(tasks: map<nat, Task>, rank: map<nat, nat>, p: nat): nat
    requires p in tasks
  {
    if tasks[p].ppid >= 0 && tasks[p].ppid in rank then rank[tasks[p].ppid] + 1 else 0
  }

  ghost predicate Rankable(tasks: map<nat, Task>, done: set<nat>, p: nat) {
    p in tasks && p !in done && (tasks[p].ppid in tasks ==> tasks[p].ppid in done)
  }

  lemma RankOne(tasks: map<nat, Task>, rank: map<nat, nat>, done: set<nat>, p: nat)
    requires RankedBelow(tasks, rank, done) && Rankable(tasks, done, p)
    ensures RankedBelow(tasks, rank[p := Parental(tasks, rank, p)], done + {p})
  {
    var rank' := rank[p := Parental(tasks, rank, p)];
    if tasks[p].ppid in tasks { assert Above(tasks, rank, done, tasks[p].ppid); }
    forall q | q in done + {p} ensures Above(tasks, rank', done + {p}, q) {
      assert q != p ==> Above(tasks, rank, done, q);
    }
  }

  lemma AllRanked(tasks: map<nat, Task>, rank: map<nat, nat>, done: set<nat>)
    requires RankedBelow(tasks, rank, done) && tasks.Keys <= done
    ensures Forest(tasks)
  {
    forall p | p in tasks ensures Above(tasks, rank, done, p) { }
    assert Ranked(tasks, rank);
  }

  /** Rank the tasks as long as one has a ranked parent or none; what is left over is closed under parents. */
  lemma {:induction false} RankOrRing(tasks: map<nat, Task>, rank: map<nat, nat>, done: set<nat>)
    returns (left: set<nat>)
    requires RankedBelow(tasks, rank, done)
    ensures Forest(tasks) || Upward(tasks, left)
    decreases tasks.Keys - done
  {
    left := tasks.Keys - done;
    if left == {} {
      forall p | p in tasks ensures p in done {
        assert p in tasks.Keys;
        assert p !in left;
      }
      AllRanked(tasks, rank, done);
    } else if exists p :: Rankable(tasks, done, p) {
      var p :| Rankable(tasks, done, p);
      RankOne(tasks, rank, done, p);
      assert p in tasks.Keys - done && p !in tasks.Keys - (done + {p});
      left := RankOrRing(tasks, rank[p := Parental(tasks, rank, p)], done + {p});
    } else {
      forall p | p in left ensures ParentIn(tasks, left, p) {
        assert !Rankable(tasks, done, p);
      }
    }
  }

  // ----- and from there a run that ends in the panic

  /** Only tasks outside the set have gone, and all parents are as they were. */
  ghost predicate Spared(tasks: map<nat, Task>, tasks': map<nat, Task>, ring: set<nat>) {
    && ring <= tasks'.Keys
    && forall p {:trigger tasks'[p].ppid} :: p in tasks' ==> p in tasks && tasks'[p].ppid == tasks[p].ppid
  }

  lemma SparedClosed(tasks: map<nat, Task>, tasks': map<nat, Task>, ring: set<nat>)
    requires Closed(tasks, ring) && Spared(tasks, tasks', ring)
    ensures Closed(tasks', ring)
  {
    forall p | p in ring ensures HasChild(tasks', ring, p) {
      assert HasChild(tasks, ring, p);
      var c :| c in ring && c in tasks && tasks[c].ppid == p;
      assert tasks'[c].ppid == p;
    }
  }

  lemma UnflagLoose(s: State)
    requires Loose(s.tasks, s.queue)
    ensures Loose(Unflag(s), s.queue) && SameShape(s.tasks, Unflag(s))
  {
    ShapeKeeps(s.tasks, Unflag(s), s.queue);
  }

  /** `schedule` after the current task has blocked or gone */
  lemma ScheduleIs(s: State)
    requires s.cur.Some? ==> s.cur.value in s.tasks && s.tasks[s.cur.value].status == Blocked
    ensures Schedule(s) == if s.queue == [] then Panic(State(Unflag(s), s.queue, s.cur, s.last, s.freed))
                           else Go(State(Unflag(s), s.queue, Some(s.queue[0]), s.last, s.freed))
  {
  }

  /** Every task of the ring is there, and the run goes on or has panicked. */
  ghost predicate Starving(tasks: map<nat, Task>, n: Next, ring: set<nat>) {
    (n.Go? || n.Panic?) && Spared(tasks, n.state.tasks, ring) && (n.Go? ==> Going(n.state))
  }

  lemma ShapeSpares(tasks: map<nat, Task>, some: map<nat, Task>, more: map<nat, Task>, ring: set<nat>)
    requires Spared(tasks, some, ring) && SameShape(some, more)
    ensures Spared(tasks, more, ring)
  {
  }

  lemma ScheduleStarves(tasks: map<nat, Task>, s: State, ring: set<nat>)
    requires Loose(s.tasks, s.queue) && -1 <= s.last < PID_MAX && Spared(tasks, s.tasks, ring)
    requires s.cur.Some? ==> s.cur.value in s.tasks && s.tasks[s.cur.value].status == Blocked
    ensures Starving(tasks, Schedule(s), ring)
    ensures Schedule(s).state.queue == s.queue && Schedule(s).state.tasks.Keys == s.tasks.Keys
  {
    UnflagLoose(s);
    ScheduleIs(s);
    ShapeSpares(tasks, s.tasks, Unflag(s), ring);
    if s.queue != [] { FirstIsTask(Unflag(s), s.queue); }
  }

  lemma FirstIsTask(tasks: map<nat, Task>, queue: seq<nat>)
    requires Queued(tasks, queue) && queue != []
    ensures queue[0] in tasks && tasks[queue[0]].status == Running
  {
    assert queue[0] in queue;
  }

  lemma BlockingSpares(tasks: map<nat, Task>, p: nat, c: nat, ring: set<nat>)
    requires p in tasks && c in tasks && ring <= tasks.Keys
    ensures Spared(tasks, Blocking(tasks, p, c), ring)
  {
  }

  lemma WaitStarves(s: State, c: nat, ring: set<nat>)
    requires Going(s) && c in s.tasks && s.tasks[c].ppid == s.queue[0] && ring <= s.tasks.Keys
    ensures var n := Step(s, Wait(c));
            Starving(s.tasks, n, ring) && n.state.tasks.Keys == s.tasks.Keys && |n.state.queue| < |s.queue|
  {
    var p := s.queue[0];
    FirstIsTask(s.tasks, s.queue);
    LeaveQueue(s.queue);
    BlockKeeps(s.tasks, s.queue, p, c);
    BlockingFrame(s.tasks, p, c);
    BlockingSpares(s.tasks, p, c, ring);
    ChildIs(s, c);
    ScheduleStarves(s.tasks, State(Blocking(s.tasks, p, c), s.queue[1..], s.cur, s.last, s.freed), ring);
  }

  lemma ChildIs(s: State, c: nat)
    requires HasCurrent(s) && Bounded(s.tasks) && c in s.tasks && s.tasks[c].ppid == s.cur.value
    requires s.queue != [] && s.queue[0] == s.cur.value && NoDuplicates(s.queue)
    ensures var t := Blocking(s.tasks, s.cur.value, c);
            && Step(s, Wait(c)) == Schedule(State(t, s.queue[1..], s.cur, s.last, s.freed))
            && s.cur.value in t && t[s.cur.value].status == Blocked
  {
    LeaveQueue(s.queue);
    WaitBlocks(s, c);
  }

  /** The marked task's parent is blocked, and so not queued. */
  lemma ParentBlocked(tasks: map<nat, Task>, queue: seq<nat>, c: nat)
    requires Queued(tasks, queue) && Waits(tasks) && c in tasks && tasks[c].pwait
    ensures tasks[c].ppid >= 0 && tasks[c].ppid in tasks && tasks[c].ppid !in queue
  {
  }

  /** `exit` of a task that is waited for: its parent runs again. */
  lemma ExitWakes(s: State)
    requires HasCurrent(s) && s.queue != [] && s.cur.value == s.queue[0] && NoDuplicates(s.queue)
    requires var t := s.tasks[s.cur.value]; t.pwait && t.ppid >= 0 && t.ppid in s.tasks && t.ppid !in s.queue
    ensures var c, t := s.cur.value, s.tasks[s.cur.value];
            Step(s, Exit) == Schedule(State(Woken(s.tasks, t.ppid, c), s.queue[1..] + [t.ppid], None, s.last,
                                            s.freed + multiset{Record(t.pwait, t.resched)}))
  {
    LeaveQueue(s.queue);
  }

  lemma ExitQuietly(s: State)
    requires HasCurrent(s) && s.queue != [] && s.cur.value == s.queue[0] && NoDuplicates(s.queue)
    requires !s.tasks[s.cur.value].pwait
    ensures var c, t := s.cur.value, s.tasks[s.cur.value];
            Step(s, Exit) == Schedule(State(s.tasks - {c}, s.queue[1..], None, s.last,
                                            s.freed + multiset{Record(t.pwait, t.resched)}))
  {
    LeaveQueue(s.queue);
  }

  lemma WokenSpares(tasks: map<nat, Task>, p: nat, c: nat, ring: set<nat>)
    requires p in tasks && p != c && ring <= tasks.Keys && c !in ring
    ensures Spared(tasks, Woken(tasks, p, c), ring) && Woken(tasks, p, c).Keys == tasks.Keys - {c}
  {
  }

  lemma DeathSpares(tasks: map<nat, Task>, c: nat, ring: set<nat>)
    requires ring <= tasks.Keys && c !in ring
    ensures Spared(tasks, tasks - {c}, ring)
  {
  }

  lemma ExitStarves(s: State, ring: set<nat>)
    requires Going(s) && s.queue[0] !in ring && ring <= s.tasks.Keys
    ensures var n := Step(s, Exit);
            && Starving(s.tasks, n, ring) && n.state.tasks.Keys == s.tasks.Keys - {s.queue[0]}
            && |n.state.queue| <= |s.queue|
  {
    var c := s.queue[0];
    var t := s.tasks[c];
    var freed := s.freed + multiset{Record(t.pwait, t.resched)};
    FirstIsTask(s.tasks, s.queue);
    if t.pwait {
      ParentBlocked(s.tasks, s.queue, c);
      assert WaitedOn(s.tasks, t.ppid, c);
      WakeKeeps(s.tasks, s.queue, t.ppid, c);
      WokenSpares(s.tasks, t.ppid, c, ring);
      ExitWakes(s);
      ScheduleStarves(s.tasks, State(Woken(s.tasks, t.ppid, c), s.queue[1..] + [t.ppid], None, s.last, freed), ring);
    } else {
      DeathKeeps(s.tasks, s.queue, c);
      DeathSpares(s.tasks, c, ring);
      ExitQuietly(s);
      ScheduleStarves(s.tasks, State(s.tasks - {c}, s.queue[1..], None, s.last, freed), ring);
    }
  }

  /** A task of the set waits for its child in the set, any other exits. */
  lemma {:induction false} Starve(s: State, ring: set<nat>) returns (ops: seq<Op>)
    requires Going(s) && Closed(s.tasks, ring)
    ensures Run(s, ops).Panic? && ring <= Run(s, ops).state.tasks.Keys
    decreases |s.tasks.Keys|, |s.queue|
  {
    var p, op := s.queue[0], Exit;
    if p in ring {
      assert HasChild(s.tasks, ring, p);
      var c :| c in ring && c in s.tasks && s.tasks[c].ppid == p;
      op := Wait(c);
      WaitStarves(s, c, ring);
    } else {
      ExitStarves(s, ring);
      assert |s.tasks.Keys - {p}| < |s.tasks.Keys| by { assert p in s.queue && p in s.tasks.Keys; }
    }
    var n := Step(s, op);
    if n.Panic? {
      ops := [op];
    } else {
      SparedClosed(s.tasks, n.state.tasks, ring);
      var rest := Starve(n.state, ring);
      ops := [op] + rest;
      assert ops[1..] == rest;
    }
  }

  /** Every state that satisfies the invariant but for the forest of parents has a continuation that ends in
      the empty-queue panic with tasks alive. */
  lemma CycleDeadlocks(s: State) returns (ops: seq<Op>)
    requires Going(s) && !Forest(s.tasks)
    ensures Run(s, ops).Panic? && Run(s, ops).state.tasks != map[]
  {
    var left := RankOrRing(s.tasks, map[], {});
    var ring := FindRing(s.tasks, left);
    ops := Starve(s, ring);
    var p :| p in ring;
    assert p in Run(s, ops).state.tasks;
  }

  lemma ScheduleGoes(t: State)
    requires Loose(t.tasks, t.queue) && t.queue != [] && t.cur == Some(t.queue[0]) && -1 <= t.last < PID_MAX
    ensures Schedule(t).Go? && Going(Schedule(t).state) && SameShape(t.tasks, Schedule(t).state.tasks)
  {
    UnflagLoose(t);
    FirstIsTask(t.tasks, t.queue);
    FirstIsTask(Unflag(t), t.queue);
  }

  /** A birth that gives the child the number which the topmost live ancestor of the parent records: the
      kernel can then be brought to the panic with tasks alive. */
  lemma UnrootedBirthDeadlocks(s: State, op: Op, pid: nat, t: Task, freed: multiset<Record>) returns (ops: seq<Op>)
    requires Inv(s) && NextPid(s.tasks.Keys, s.last) == Some(pid) && !Rooted(s) && pid !in s.tasks && pid < PID_MAX
    requires t.status == Running && !t.pwait && t.slice == 3 && t.ppid == s.cur.value
    requires Step(s, op) == Schedule(State(s.tasks[pid := t], s.queue + [pid], s.cur, pid, freed))
    ensures ops != [] && ops[0] == op
    ensures Run(s, ops).Panic? && Run(s, ops).state.tasks != map[]
  {
    BirthKeeps(s.tasks, s.queue, s.cur.value, pid, t);
    var u := State(s.tasks[pid := t], s.queue + [pid], s.cur, pid, freed);
    ScheduleGoes(u);
    NewCycle(s.tasks, s.cur.value, pid, t, Schedule(u).state.tasks);
    var rest := CycleDeadlocks(Schedule(u).state);
    ops := [op] + rest;
    assert ops[1..] == rest;
  }

  lemma ForkIs(s: State, pid: nat)
    requires Inv(s) && NextPid(s.tasks.Keys, s.last) == Some(pid)
    ensures Step(s, Fork(NoFailure, CLEAR)) ==
            Schedule(State(s.tasks[pid := Task(s.cur.value, Running, 3, false, false)], s.queue + [pid], s.cur, pid,
                           s.freed - multiset{CLEAR}))
    ensures pid !in s.tasks && pid < PID_MAX
  {
  }

  lemma UnrootedForkDeadlocks(s: State) returns (ops: seq<Op>)
    requires Inv(s) && NextPid(s.tasks.Keys, s.last).Some? && !Rooted(s)
    ensures ops != [] && ops[0] == Fork(NoFailure, CLEAR)
    ensures Run(s, ops).Panic? && Run(s, ops).state.tasks != map[]
  {
    var pid := NextPid(s.tasks.Keys, s.last).value;
    ForkIs(s, pid);
    ops := UnrootedBirthDeadlocks(s, Fork(NoFailure, CLEAR), pid, Task(s.cur.value, Running, 3, false, false),
                                  s.freed - multiset{CLEAR});
  }

  // ----- a birth into a record whose `pwait` word is set

  /** What ticks need and keep: the running task is the first of the queue, and all queued tasks can run. */
  ghost predicate Ticking(s: State) {
    && HasCurrent(s) && s.queue != [] && s.cur == Some(s.queue[0]) && NoDuplicates(s.queue) && Sliced(s.tasks)
    && forall p :: p in s.queue ==> p in s.tasks && s.tasks[p].status == Running
  }

  /** The same tasks are queued, and no task has changed but for its slice and its flag. */
  ghost predicate SameQueued(s: State, t: State) {
    SameShape(s.tasks, t.tasks) && forall p :: p in t.queue <==> p in s.queue
  }

  lemma TickIs(s: State)
    requires Ticking(s)
    ensures var c, t := s.queue[0], s.tasks[s.queue[0]];
            Step(s, Tick) == if t.slice == 1
                             then Go(State(s.tasks[c := t.(resched := false, slice := 3)], s.queue[1..] + [c],
                                           Some((s.queue[1..] + [c])[0]), s.last, s.freed))
                             else Go(State(s.tasks[c := t.(resched := false, slice := t.slice - 1)], s.queue, s.cur,
                                           s.last, s.freed))
  {
    var c, t := s.queue[0], s.tasks[s.queue[0]];
    LeaveQueue(s.queue);
    assert s.tasks[c := t.(resched := true, slice := 3)][c := t.(resched := false, slice := 3)] ==
           s.tasks[c := t.(resched := false, slice := 3)];
    assert s.tasks[c := t.(slice := t.slice - 1)][c := t.(resched := false, slice := t.slice - 1)] ==
           s.tasks[c := t.(resched := false, slice := t.slice - 1)];
  }

  lemma TickKeepsQueued(s: State)
    requires Ticking(s)
    ensures Step(s, Tick).Go? && Ticking(Step(s, Tick).state) && SameQueued(s, Step(s, Tick).state)
  {
    TickIs(s);
    LeaveQueue(s.queue);
    JoinQueue(s.queue[1..], s.queue[0]);
  }

  lemma QueuedTrans(s: State, t: State, u: State)
    requires SameQueued(s, t) && SameQueued(t, u)
    ensures SameQueued(s, u)
  {
  }

  /** Ticks alone bring the task at position `i` to the CPU. */
  lemma {:induction false} TickUntil(s: State, i: nat) returns (ops: seq<Op>)
    requires Ticking(s) && i < |s.queue|
    ensures Run(s, ops).Go? && Ticking(Run(s, ops).state) && SameQueued(s, Run(s, ops).state)
    ensures Run(s, ops).state.queue[0] == s.queue[i]
    decreases i, s.tasks[s.queue[0]].slice
  {
    if i == 0 {
      ops := [];
    } else {
      TickIs(s);
      TickKeepsQueued(s);
      var t := Step(s, Tick).state;
      var rest := TickUntil(t, if s.tasks[s.queue[0]].slice == 1 then i - 1 else i);
      ops := [Tick] + rest;
      assert ops[1..] == rest;
      QueuedTrans(s, t, Run(t, rest).state);
    }
  }

  /** `exit` of a marked task whose parent is queued */
  lemma MarkedExit(s: State, p: nat)
    requires Ticking(s) && p in s.queue && p != s.queue[0]
    requires s.tasks[s.queue[0]].pwait && s.tasks[s.queue[0]].ppid == p
    ensures Run(s, [Exit]) == Relink(s.queue[1..], p) && p in s.queue[1..]
  {
    LeaveQueue(s.queue);
    assert Step(s, Exit) == Relink(s.queue[1..], p);
  }

  lemma StaleBirthTicks(s: State, mem: Record, pid: nat)
    requires Inv(s) && NextPid(s.tasks.Keys, s.last) == Some(pid) && Available(s, mem)
    ensures var n, c := Step(s, Spawn(mem)), s.cur.value;
            && n.Go? && Ticking(n.state) && n.state.queue == s.queue + [pid] && c in s.queue && c != pid
            && pid in n.state.tasks && n.state.tasks[pid].pwait == mem.pwait && n.state.tasks[pid].ppid == c
  {
    SpawnIs(s, mem);
    Born(s, mem, pid);
    var t := AfterCreate(s, NoFailure, mem, mem);
    ScheduleShape(t);
    assert pid !in s.queue;
    JoinQueue(s.queue, pid);
    BirthIsQueued(s, t, pid);
    ScheduleTicks(t);
  }

  lemma BirthIsQueued(s: State, t: State, pid: nat)
    requires Inv(s) && pid !in s.tasks && pid < PID_MAX && t.queue == s.queue + [pid] && t.cur == s.cur && t.last == pid
    requires t.tasks.Keys == s.tasks.Keys + {pid} && NoDuplicates(t.queue)
    requires forall p :: p in s.tasks ==> t.tasks[p] == s.tasks[p]
    requires t.tasks[pid].status == Running && t.tasks[pid].slice == 3
    ensures Ticking(t)
  {
    assert s.queue[0] in s.queue;
    assert forall p :: p in t.queue ==> p in s.queue || p == pid;
  }

  lemma ScheduleTicks(t: State)
    requires Ticking(t)
    ensures Schedule(t).Go? && Ticking(Schedule(t).state) && Schedule(t).state.queue == t.queue
  {
  }

  /** From every state of the invariant a birth into a record with `pwait` set has a continuation in which
      the new task exits before anyone waits for it, and its parent is put into the queue that it is in. */
  lemma StaleSpawnRelinks(s: State, mem: Record) returns (ops: seq<Op>)
    requires Inv(s) && NextPid(s.tasks.Keys, s.last).Some? && Available(s, mem) && mem.pwait
    ensures ops != [] && ops[0] == Spawn(mem)
    ensures Run(s, ops).Relink? && Run(s, ops).entry == s.cur.value && s.cur.value in Run(s, ops).queue
  {
    var pid := NextPid(s.tasks.Keys, s.last).value;
    StaleBirthTicks(s, mem, pid);
    var t := Step(s, Spawn(mem)).state;
    var ticks := TickUntil(t, |s.queue|);
    var u := Run(t, ticks).state;
    MarkedExit(u, s.cur.value);
    RunConcat(t, ticks, [Exit]);
    ops := [Spawn(mem)] + (ticks + [Exit]);
    assert ops[1..] == ticks + [Exit];
  }

  // ----- both ways

  lemma SpawnedIs(s: State, mem: Record, pid: nat)
    requires Inv(s) && NextPid(s.tasks.Keys, s.last) == Some(pid) && Available(s, mem)
    ensures Step(s, Spawn(mem)) ==
            Schedule(State(s.tasks[pid := Task(s.cur.value, Running, 3, mem.resched, mem.pwait)], s.queue + [pid],
                           s.cur, pid, s.freed - multiset{mem}))
    ensures pid !in s.tasks && pid < PID_MAX
  {
  }

  /** Every birth that the invariant forbids can go wrong: a run that starts with it links a queued task
      again or ends in the panic with tasks alive. (One that the invariant allows keeps it, by
      `BirthKeepsIff`.) */
  lemma ForbiddenBirthBreaks(s: State, mem: Record) returns (ops: seq<Op>)
    requires Inv(s) && NextPid(s.tasks.Keys, s.last).Some? && Available(s, mem) && !(Rooted(s) && !mem.pwait)
    ensures ops != [] && ops[0] == Spawn(mem)
    ensures Run(s, ops).Relink? || (Run(s, ops).Panic? && Run(s, ops).state.tasks != map[])
  {
    if mem.pwait {
      ops := StaleSpawnRelinks(s, mem);
    } else {
      var pid := NextPid(s.tasks.Keys, s.last).value;
      SpawnedIs(s, mem, pid);
      ops := UnrootedBirthDeadlocks(s, Spawn(mem), pid, Task(s.cur.value, Running, 3, mem.resched, false),
                                    s.freed - multiset{mem});
    }
  }
}
