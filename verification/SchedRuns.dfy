/** Runs from boot in which the process life cycle breaks. */
module SchedRuns {
  import opened Wrappers
  import opened Pidmap
  import opened Sched
  import opened IntrusiveList

  /** One step, then the rest */
  lemma RunCons(s: State, op: Op, t: State, rest: seq<Op>)
    requires Step(s, op) == Go(t)
    ensures Run(s, [op] + rest) == Run(t, rest)
  {
    assert ([op] + rest)[1..] == rest;
  }

  const SLICE := [Tick, Tick, Tick]

  /** A full time slice passes the CPU to the other of two tasks and changes nothing else. */
  lemma SliceEnds(s: State, c: nat, d: nat)
    requires HasCurrent(s) && s.queue == [c, d] && c != d && s.cur == Some(c)
    requires s.tasks[c].status == Running && !s.tasks[c].resched && s.tasks[c].slice == 3
    ensures Run(s, SLICE) == Go(State(s.tasks, [d, c], Some(d), s.last, s.freed))
  {
    var t := s.tasks[c];
    var s1 := State(s.tasks[c := t.(slice := 2)], s.queue, s.cur, s.last, s.freed);
    var s2 := State(s.tasks[c := t.(slice := 1)], s.queue, s.cur, s.last, s.freed);
    var s3 := State(s.tasks, [d, c], Some(d), s.last, s.freed);
    assert Step(s, Tick) == Go(s1);
    assert Step(s1, Tick) == Go(s2) by { assert s1.tasks[c := t.(slice := 1)] == s2.tasks; }
    assert Step(s2, Tick) == Go(s3) by {
      assert Without([c, d], c) == [d];
      assert s2.tasks[c := t.(resched := true, slice := 3)][c := t] == s.tasks;
    }
    RunCons(s2, Tick, s3, []);
    RunCons(s1, Tick, s2, [Tick]);
    RunCons(s, Tick, s1, [Tick, Tick]);
    assert [Tick] + ([Tick] + ([Tick] + [])) == SLICE;
  }

  const INIT := Task(-1, Running, 3, false, false)
  const FORK := Fork(NoFailure, CLEAR)
  const FAILED := Fork(AfterPid, CLEAR)
  const STALE := Record(true, false)

  /** A task that `p` forked and nobody has waited for */
  function Child(p: int): Task {
    Task(p, Running, 3, false, false)
  }

  /** A birth, when the running task goes on running */
  lemma ForkStep(s: State, pid: nat, t: State)
    requires HasCurrent(s) && NextPid(s.tasks.Keys, s.last) == Some(pid)
    requires s.cur.value != pid && s.tasks[s.cur.value].status == Running && !s.tasks[s.cur.value].resched
    requires t == State(s.tasks[pid := Child(s.cur.value)], s.queue + [pid], s.cur, pid, s.freed - multiset{CLEAR})
    ensures Step(s, FORK) == Go(t)
  {
  }

  lemma NothingFreed()
    ensures var none: multiset<Record> := multiset{}; none - multiset{CLEAR} == none
  {
  }

  // --- An orphan ---

  const BORN := State(map[0 := INIT, 1 := Child(0)], [0, 1], Some(0), 1, multiset{})
  const RUNNING := State(BORN.tasks, [1, 0], Some(1), 1, multiset{})
  const GRANDCHILD := State(map[0 := INIT, 1 := Child(0), 2 := Child(1)], [1, 0, 2], Some(1), 2, multiset{})

  /** Task 2 is an orphan whose dead parent had pid 1, and `last_pid` is `l`. */
  function Orphaned(l: int): State {
    State(map[0 := INIT, 2 := Child(1)], [0, 2], Some(0), l, multiset{CLEAR})
  }

  lemma FirstFork()
    ensures Step(BOOT, FORK) == Go(BORN)
  {
    assert FirstUnused(BOOT.tasks.Keys, 1) == Some(1);
    assert BOOT.tasks[1 := Child(0)] == BORN.tasks;
    NothingFreed();
    ForkStep(BOOT, 1, BORN);
  }

  lemma SecondFork()
    ensures Step(RUNNING, FORK) == Go(GRANDCHILD)
  {
    assert FirstUnused(RUNNING.tasks.Keys, 2) == Some(2);
    assert RUNNING.tasks[2 := Child(1)] == GRANDCHILD.tasks;
    NothingFreed();
    ForkStep(RUNNING, 2, GRANDCHILD);
  }

  lemma ParentExits()
    ensures Step(GRANDCHILD, Exit) == Go(Orphaned(2))
  {
    assert Without([1, 0, 2], 1) == [0, 2];
    assert GRANDCHILD.tasks - {1} == Orphaned(2).tasks;
  }

  /** Task 1 forks task 2 and exits. */
  lemma OrphanRun()
    ensures Run(BOOT, [FORK] + (SLICE + ([FORK] + [Exit]))) == Go(Orphaned(2))
  {
    FirstFork();
    SecondFork();
    ParentExits();
    SliceEnds(BORN, 0, 1);
    RunCons(GRANDCHILD, Exit, Orphaned(2), []);
    assert [Exit] + [] == [Exit];
    RunCons(RUNNING, FORK, GRANDCHILD, [Exit]);
    RunConcat(BORN, SLICE, [FORK] + [Exit]);
    RunCons(BOOT, FORK, BORN, SLICE + ([FORK] + [Exit]));
  }

  // --- Pids wrap around ---

  function Repeated(op: Op, n: nat): seq<Op> {
    if n == 0 then [] else [op] + Repeated(op, n - 1)
  }

  /** `n` pids later */
  function Later(s: State, n: nat): State {
    State(s.tasks, s.queue, s.cur, s.last + n, s.freed)
  }

  /** The current task goes on, and all pids above the last one and below `top` are free. */
  ghost predicate Climbing(s: State, top: nat) {
    && HasCurrent(s) && s.tasks[s.cur.value].status == Running && !s.tasks[s.cur.value].resched
    && 0 <= s.last && CLEAR in s.freed && forall p :: p in s.tasks ==> p <= s.last || top <= p
  }

  lemma FailedFork(s: State, top: nat)
    requires Climbing(s, top) && s.last + 1 < top <= PID_MAX
    ensures Step(s, FAILED) == Go(Later(s, 1))
  {
    assert NextPid(s.tasks.Keys, s.last) == Some(s.last + 1);
    assert s.freed - multiset{CLEAR} + multiset{CLEAR} == s.freed;
  }

  lemma RepeatOnce(s: State, t: State, u: State, op: Op, n: nat)
    requires n > 0 && Step(s, op) == Go(t) && Run(t, Repeated(op, n - 1)) == Go(u)
    ensures Run(s, Repeated(op, n)) == Go(u)
  {
    RunCons(s, op, t, Repeated(op, n - 1));
  }

  lemma {:induction false} RunAlong(op: Op, states: seq<State>)
    requires states != []
    requires forall i {:trigger Step(states[i], op)} :: 0 <= i < |states| - 1 ==>
        Step(states[i], op) == Go(states[i + 1])
    ensures Run(states[0], Repeated(op, |states| - 1)) == Go(states[|states| - 1])
    decreases |states|
  {
    if |states| > 1 {
      var rest := states[1..];
      forall i | 0 <= i < |rest| - 1 ensures Step(rest[i], op) == Go(rest[i + 1]) {
        assert Step(states[i + 1], op) == Go(states[i + 2]);
      }
      RunAlong(op, rest);
      assert Step(states[0], op) == Go(states[1]);
      RepeatOnce(states[0], states[1], states[|states| - 1], op, |states| - 1);
    }
  }

  /** Forks that fail after `alloc_pidmap` use up pids. */
  lemma FailedForks(s: State, n: nat, top: nat)
    requires Climbing(s, top) && s.last + n < top <= PID_MAX
    ensures Run(s, Repeated(FAILED, n)) == Go(Later(s, n))
  {
    var states := seq(n + 1, i requires 0 <= i => Later(s, i));
    forall i | 0 <= i < n ensures Step(states[i], FAILED) == Go(states[i + 1]) {
      FailedFork(Later(s, i), top);
    }
    RunAlong(FAILED, states);
  }

  // --- Numbers that are free and not found ---

  /** The first task alone, later */
  function Alone(l: int): State {
    State(map[0 := INIT], [0], Some(0), l, multiset{CLEAR})
  }

  const HIGH := State(map[0 := INIT, PID_MAX - 2 := Child(0)], [0, PID_MAX - 2], Some(0), PID_MAX - 2, multiset{})

  /** The first task and the two with the largest numbers */
  function Three(l: int, freed: multiset<Record>): State {
    State(map[0 := INIT, PID_MAX - 2 := Child(0), PID_MAX - 1 := Child(0)], [0, PID_MAX - 2, PID_MAX - 1], Some(0), l,
          freed)
  }

  lemma FirstFails()
    ensures Step(BOOT, FAILED) == Go(Alone(1))
  {
    assert FirstUnused(BOOT.tasks.Keys, 1) == Some(1);
    NothingFreed();
    assert multiset{} + multiset{CLEAR} == multiset{CLEAR};
  }

  lemma HighFork()
    ensures Step(Alone(PID_MAX - 3), FORK) == Go(HIGH)
  {
    assert FirstUnused({0}, PID_MAX - 2) == Some(PID_MAX - 2);
    assert Alone(PID_MAX - 3).tasks.Keys == {0};
    assert multiset{CLEAR} - multiset{CLEAR} == multiset{};
    ForkStep(Alone(PID_MAX - 3), PID_MAX - 2, HIGH);
  }

  lemma HighestFork()
    ensures Step(HIGH, FORK) == Go(Three(PID_MAX - 1, multiset{}))
  {
    assert FirstUnused(HIGH.tasks.Keys, PID_MAX - 1) == Some(PID_MAX - 1);
    assert HIGH.tasks[PID_MAX - 1 := Child(0)] == Three(PID_MAX - 1, multiset{}).tasks;
    NothingFreed();
    ForkStep(HIGH, PID_MAX - 1, Three(PID_MAX - 1, multiset{}));
  }

  lemma WrappedFails()
    ensures Step(Three(PID_MAX - 1, multiset{}), FAILED) == Go(Three(1, multiset{CLEAR}))
  {
    var s := Three(PID_MAX - 1, multiset{});
    assert FirstUnused(s.tasks.Keys, 0) == FirstUnused(s.tasks.Keys, 1) == Some(1);
    NothingFreed();
    assert multiset{} + multiset{CLEAR} == multiset{CLEAR};
  }

  lemma ThreeStop()
    ensures Step(Three(PID_MAX - 3, multiset{CLEAR}), Spawn(CLEAR)) == Stop
  {
    var s := Three(PID_MAX - 3, multiset{CLEAR});
    NextPidFailsIff(s.tasks.Keys, s.last);
    assert forall j :: PID_MAX - 2 <= j < PID_MAX ==> j in s.tasks.Keys;
  }

  const CLIMB := Repeated(FAILED, PID_MAX - 4)

  /** A run from boot in which `alloc_pidmap` finds no number, and the assert of `task_create` stops the
      kernel, although three tasks exist. */
  lemma ThreeTasksExhaustPids()
    ensures Run(BOOT, [FAILED] + (CLIMB + ([FORK] + ([FORK] + ([FAILED] + (CLIMB + [Spawn(CLEAR)])))))) == Stop
  {
    FirstFails();
    assert Later(Alone(1), PID_MAX - 4) == Alone(PID_MAX - 3);
    FailedForks(Alone(1), PID_MAX - 4, PID_MAX);
    HighFork();
    HighestFork();
    WrappedFails();
    var s := Three(1, multiset{CLEAR});
    assert Later(s, PID_MAX - 4) == Three(PID_MAX - 3, multiset{CLEAR});
    FailedForks(s, PID_MAX - 4, PID_MAX - 2);
    ThreeStop();
    LastStop(Three(PID_MAX - 3, multiset{CLEAR}), Spawn(CLEAR));
    RunConcat(s, CLIMB, [Spawn(CLEAR)]);
    RunCons(Three(PID_MAX - 1, multiset{}), FAILED, s, CLIMB + [Spawn(CLEAR)]);
    RunCons(HIGH, FORK, Three(PID_MAX - 1, multiset{}), [FAILED] + (CLIMB + [Spawn(CLEAR)]));
    RunCons(Alone(PID_MAX - 3), FORK, HIGH, [FORK] + ([FAILED] + (CLIMB + [Spawn(CLEAR)])));
    RunConcat(Alone(1), CLIMB, [FORK] + ([FORK] + ([FAILED] + (CLIMB + [Spawn(CLEAR)]))));
    RunCons(BOOT, FAILED, Alone(1), CLIMB + ([FORK] + ([FORK] + ([FAILED] + (CLIMB + [Spawn(CLEAR)])))));
  }

  lemma LastStop(s: State, op: Op)
    requires Step(s, op) == Stop
    ensures Run(s, [op]) == Stop
  {
  }

  // --- Each waits for the other ---

  const WRAPPED := State(map[0 := INIT, 2 := Child(1)], [2, 0], Some(2), PID_MAX - 1, multiset{CLEAR})
  const CYCLE := State(map[0 := INIT, 2 := Child(1), 1 := Child(2)], [2, 0, 1], Some(2), 1, multiset{})
  const ONE_WAITS := State(map[0 := INIT, 2 := Task(1, Blocked, 3, false, false),
                               1 := Task(2, Running, 3, false, true)],
                           [0, 1], Some(0), 1, multiset{})
  const TWO_LEFT := State(map[2 := Task(1, Blocked, 3, false, false), 1 := Task(2, Running, 3, false, true)],
                          [1], Some(1), 1, multiset{CLEAR})

  lemma ThirdFork()
    ensures Step(WRAPPED, FORK) == Go(CYCLE)
  {
    assert FirstUnused(WRAPPED.tasks.Keys, 0) == FirstUnused(WRAPPED.tasks.Keys, 1) == Some(1);
    assert WRAPPED.tasks[1 := Child(2)] == CYCLE.tasks;
    assert multiset{CLEAR} - multiset{CLEAR} == multiset{};
    ForkStep(WRAPPED, 1, CYCLE);
  }

  lemma OrphanWaits()
    ensures Step(CYCLE, Wait(1)) == Go(ONE_WAITS)
  {
    assert Without([2, 0, 1], 2) == [0, 1];
    assert Blocking(CYCLE.tasks, 2, 1)[2 := Task(1, Blocked, 3, false, false)] == ONE_WAITS.tasks;
  }

  lemma InitExits()
    ensures Step(ONE_WAITS, Exit) == Go(TWO_LEFT)
  {
    assert Without([0, 1], 0) == [1];
    assert ONE_WAITS.tasks - {0} == TWO_LEFT.tasks;
  }

  lemma ChildWaits()
    ensures var n := Step(TWO_LEFT, Wait(2)); n.Panic? && n.state.tasks.Keys == {1, 2}
  {
    assert Without([1], 1) == [];
  }

  lemma LastWait(s: State, op: Op)
    requires Step(s, op).Panic?
    ensures Run(s, [op]) == Step(s, op)
  {
  }

  const CLOSING := [FORK] + ([Wait(1)] + ([Exit] + [Wait(2)]))

  lemma WaitingRun()
    ensures var n := Run(WRAPPED, CLOSING); n.Panic? && n.state.tasks.Keys == {1, 2}
  {
    ThirdFork();
    OrphanWaits();
    InitExits();
    ChildWaits();
    LastWait(TWO_LEFT, Wait(2));
    RunCons(ONE_WAITS, Exit, TWO_LEFT, [Wait(2)]);
    RunCons(CYCLE, Wait(1), ONE_WAITS, [Exit] + [Wait(2)]);
    RunCons(WRAPPED, FORK, CYCLE, [Wait(1)] + ([Exit] + [Wait(2)]));
  }

  lemma PidsRunOut()
    ensures Run(Orphaned(2), Repeated(FAILED, PID_MAX - 3)) == Go(Orphaned(PID_MAX - 1))
  {
    var s := Orphaned(2);
    assert Later(s, PID_MAX - 3) == Orphaned(PID_MAX - 1);
    FailedForks(s, PID_MAX - 3, PID_MAX);
  }

  const OPENING := [FORK] + (SLICE + ([FORK] + [Exit]))

  /** A run from boot in which pids wrap around and a task is given the pid that an orphan still
      records as its parent's. The two wait for each other, the queue runs empty, and the scheduler
      panics with both still alive. */
  lemma WrappedPidsDeadlock()
    ensures var n := Run(BOOT, OPENING + (Repeated(FAILED, PID_MAX - 3) + (SLICE + CLOSING)));
            n.Panic? && n.state.tasks.Keys == {1, 2}
  {
    OrphanRun();
    PidsRunOut();
    SliceEnds(Orphaned(PID_MAX - 1), 0, 2);
    WaitingRun();
    RunConcat(Orphaned(PID_MAX - 1), SLICE, CLOSING);
    RunConcat(Orphaned(2), Repeated(FAILED, PID_MAX - 3), SLICE + CLOSING);
    RunConcat(BOOT, OPENING, Repeated(FAILED, PID_MAX - 3) + (SLICE + CLOSING));
  }

  // --- A stale record ---

  const WAITING := State(map[0 := Task(-1, Blocked, 3, false, false), 1 := Task(0, Running, 3, false, true)],
                         [1], Some(1), 1, multiset{})
  const FREED := State(map[0 := INIT], [0], Some(0), 1, multiset{STALE})
  const MARKED := State(map[0 := INIT, 2 := Task(0, Running, 3, false, true)], [0, 2], Some(0), 2, multiset{})
  const MARKED_FORKED := State(map[0 := INIT, 2 := Task(0, Running, 3, false, true), 3 := Child(2)],
                               [2, 0, 3], Some(2), 3, multiset{})
  const MARKED_RUNS := State(MARKED.tasks, [2, 0], Some(2), 2, multiset{})

  lemma FirstSpawn()
    ensures Step(BOOT, Spawn(CLEAR)) == Go(BORN)
  {
    assert FirstUnused(BOOT.tasks.Keys, 1) == Some(1);
    assert BOOT.tasks[1 := Child(0)] == BORN.tasks;
    NothingFreed();
  }

  lemma InitWaits()
    ensures Step(BORN, Wait(1)) == Go(WAITING)
  {
    assert Without([0, 1], 0) == [1];
    assert Blocking(BORN.tasks, 0, 1)[0 := Task(-1, Blocked, 3, false, false)] == WAITING.tasks;
  }

  lemma ChildExits()
    ensures Step(WAITING, Exit) == Go(FREED)
  {
    assert Without([1], 1) == [];
    assert WAITING.tasks[0 := INIT] - {1} == FREED.tasks;
    assert multiset{} + multiset{STALE} == multiset{STALE};
  }

  lemma StaleSpawn()
    ensures Step(FREED, Spawn(STALE)) == Go(MARKED)
  {
    assert FirstUnused(FREED.tasks.Keys, 2) == Some(2);
    assert FREED.tasks[2 := Task(0, Running, 3, false, true)] == MARKED.tasks;
    assert multiset{STALE} - multiset{STALE} == multiset{};
  }

  lemma MarkedForks()
    ensures Step(MARKED_RUNS, FORK) == Go(MARKED_FORKED)
  {
    assert FirstUnused(MARKED_RUNS.tasks.Keys, 3) == Some(3);
    assert MARKED_RUNS.tasks[3 := Child(2)] == MARKED_FORKED.tasks;
    ForkStep(MARKED_RUNS, 3, MARKED_FORKED);
  }

  lemma MarkedExits()
    ensures Run(MARKED_FORKED, [Exit]) == Relink([0, 3], 0)
  {
    assert Without([2, 0, 3], 2) == [0, 3];
    assert Step(MARKED_FORKED, Exit) == Relink([0, 3], 0);
  }

  /** A run from boot in which a record freed with `pwait` set is given to the next execve. The new task
      forks and exits before anyone waits for it, and its parent, which has been runnable all along, is put
      at the tail of the run queue `[0, 3]` in which it is the first. */
  lemma StaleWaitRelinksParent()
    ensures Run(BOOT, [Spawn(CLEAR)] + ([Wait(1)] + ([Exit] + ([Spawn(STALE)] + (SLICE + ([FORK] + [Exit])))))) ==
            Relink([0, 3], 0)
  {
    FirstSpawn();
    InitWaits();
    ChildExits();
    StaleSpawn();
    SliceEnds(MARKED, 0, 2);
    MarkedForks();
    MarkedExits();
    RunCons(MARKED_RUNS, FORK, MARKED_FORKED, [Exit]);
    RunConcat(MARKED, SLICE, [FORK] + [Exit]);
    RunCons(FREED, Spawn(STALE), MARKED, SLICE + ([FORK] + [Exit]));
    RunCons(WAITING, Exit, FREED, [Spawn(STALE)] + (SLICE + ([FORK] + [Exit])));
    RunCons(BORN, Wait(1), WAITING, [Exit] + ([Spawn(STALE)] + (SLICE + ([FORK] + [Exit]))));
    RunCons(BOOT, Spawn(CLEAR), BORN, [Wait(1)] + ([Exit] + ([Spawn(STALE)] + (SLICE + ([FORK] + [Exit])))));
  }

  /** What `list_add_tail` makes of that queue: from its head only the parent can be reached, and the other
      runnable task is lost. */
  method RelinkLosesTasks(head: ListHead, parent: ListHead, other: ListHead)
    requires Ring(head, [parent, other])
    modifies head, parent, other
    ensures head.next == parent && parent.next == head && parent != other && head != other
  {
    TailFacts(head, [parent, other]);
    AddTailLinked(parent, head, [parent, other], 0);
    ghost var r := [head] + [parent, other][..1];
    assert r[0] == head && r[1] == parent && r[0].next == r[1];
  }
}
