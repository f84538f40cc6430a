/** The process life cycle on one CPU: kernel/sched.c, kernel/syscall/wait.c,
    kernel/syscall/exit.c and task creation in fork.c and task.c. A step is one trap:
    the handler followed by `schedule()`. */
module Sched {
  import opened Wrappers
  import opened Pidmap

  datatype Status = Running | Blocked

  /** The fields of `struct task_struct` that the scheduler and wait/exit use. */
  datatype Task = Task(ppid: int, status: Status, slice: int, resched: bool, pwait: bool)

  /** The words of a task record that creation may find in its memory: `pwait` and the reschedule flag */
  datatype Record = Record(pwait: bool, resched: bool)

  const CLEAR := Record(false, false)

  /** `tasks` is `task_pidmap`, `queue` the run queue head first, `cur` is `curtask`; `freed` are the
      records of tasks that have gone, as their memory still holds them. */
  datatype State = State(tasks: map<nat, Task>, queue: seq<nat>, cur: Option<nat>, last: int, freed: multiset<Record>)

  /** `Panic`: the empty-queue panic. `Crash`: `exit_notify` follows a NULL parent. `Stop`:
      `task_create` finds no pid and asserts. `Relink`: `exit_notify` passes `list_add_tail` a task that
      is in the run queue already, which is then a list no longer. */
  datatype Next = Go(state: State) | Panic(state: State) | Crash | Stop | Relink(queue: seq<nat>, entry: nat)

  datatype Failure = NoFailure | BeforePid | AfterPid

  /** `Fork` clears the record in the memory `mem` it is given; `Spawn`, which is execve, does not. */
  datatype Op = Idle | Tick | Fork(failure: Failure, mem: Record) | Spawn(mem: Record) | Wait(pid: int) | Exit

  /** What `kmalloc` can return for a record: memory of a new slab, which is zero, or a freed record. */
  predicate Available(s: State, mem: Record) {
    mem == CLEAR || mem in s.freed
  }

  function Unflag(s: State): map<nat, Task> {
    if s.cur.Some? && s.cur.value in s.tasks
    then s.tasks[s.cur.value := s.tasks[s.cur.value].(resched := false)]
    else s.tasks
  }

  /** `schedule` with `get_next` */
  function Schedule(s: State): Next {
    if s.cur.Some? && s.cur.value in s.tasks && s.tasks[s.cur.value].status == Running
       && !s.tasks[s.cur.value].resched
    then Go(s)
    else if s.queue == [] then Panic(State(Unflag(s), s.queue, s.cur, s.last, s.freed))
    else Go(State(Unflag(s), s.queue, Some(s.queue[0]), s.last, s.freed))
  }

  predicate HasCurrent(s: State) {
    s.cur.Some? && s.cur.value in s.tasks && -1 <= s.last < PID_MAX
  }

  /** `schedule_tick` */
  function AfterTick(s: State): State
    requires HasCurrent(s)
  {
    var c, t := s.cur.value, s.tasks[s.cur.value];
    if t.slice - 1 <= 0
    then State(s.tasks[c := t.(resched := true, slice := 3)], Without(s.queue, c) + [c], s.cur, s.last, s.freed)
    else State(s.tasks[c := t.(slice := t.slice - 1)], s.queue, s.cur, s.last, s.freed)
  }

  /** `do_fork` or `task_create`, in memory `mem`: the child starts with the words `word`, takes the
      next pid and joins the queue's tail. */
  function AfterCreate(s: State, failure: Failure, word: Record, mem: Record): State
    requires HasCurrent(s)
  {
    var pid, freed := NextPid(s.tasks.Keys, s.last), s.freed - multiset{mem};
    if failure == BeforePid then s
    else if pid.None? then State(s.tasks, s.queue, s.cur, s.last, freed)
    else if failure == AfterPid then State(s.tasks, s.queue, s.cur, pid.value, freed + multiset{CLEAR})
    else State(s.tasks[pid.value := Task(s.cur.value, Running, 3, word.resched, word.pwait)], s.queue + [pid.value],
               s.cur, pid.value, freed)
  }

  /** Whether `wait(pid)` finds a child to wait for. */
  predicate IsChild(s: State, pid: int)
    requires HasCurrent(s)
  {
    0 <= pid <= PID_MAX && pid in s.tasks && s.tasks[pid].ppid == s.cur.value
  }

  /** `wait`: an error changes nothing; otherwise mark the child and block. */
  function AfterWait(s: State, pid: int): State
    requires HasCurrent(s)
  {
    if !IsChild(s, pid) then s
    else
      State(Blocking(s.tasks, s.cur.value, pid), Without(s.queue, s.cur.value), s.cur, s.last, s.freed)
  }

  function Blocking(tasks: map<nat, Task>, p: nat, c: nat): map<nat, Task>
    requires p in tasks && c in tasks
  {
    var marked := tasks[c := tasks[c].(pwait := true)];
    marked[p := marked[p].(status := Blocked)]
  }

  /** `exit` of the current task: leave the queue, wake a waiting parent, free the pid. */
  function AfterExit(s: State): Option<State>
    requires HasCurrent(s)
  {
    var c, t := s.cur.value, s.tasks[s.cur.value];
    var queue, freed := Without(s.queue, c), s.freed + multiset{Record(t.pwait, t.resched)};
    if !t.pwait then Some(State(s.tasks - {c}, queue, None, s.last, freed))
    else if t.ppid < 0 || t.ppid !in s.tasks then None
    else
      var woken := s.tasks[t.ppid := s.tasks[t.ppid].(status := Running)];
      Some(State(woken - {c}, queue + [t.ppid], None, s.last, freed))
  }

  /** The parent that `exit_notify` is going to queue is queued. */
  predicate Requeues(s: State)
    requires HasCurrent(s)
  {
    var t := s.tasks[s.cur.value];
    t.pwait && t.ppid >= 0 && t.ppid in Without(s.queue, s.cur.value)
  }

  /** One trap; `trap` asserts that there is a current task. */
  function Step(s: State, op: Op): Next {
    if !HasCurrent(s) then Panic(s) else
    match op
    case Idle => Schedule(s)
    case Tick => Schedule(AfterTick(s))
    case Fork(f, mem) => Schedule(if Available(s, mem) then AfterCreate(s, f, CLEAR, mem) else s)
    case Spawn(mem) =>
      if !Available(s, mem) then Schedule(s)
      else if NextPid(s.tasks.Keys, s.last).None? then Stop
      else Schedule(AfterCreate(s, NoFailure, mem, mem))
    case Wait(pid) => Schedule(AfterWait(s, pid))
    case Exit =>
      var n := AfterExit(s);
      if n.None? then Crash
      else if Requeues(s) then Relink(Without(s.queue, s.cur.value), s.tasks[s.cur.value].ppid)
      else Schedule(n.value)
  }

  // --- The invariant ---

  /** Every runnable task is queued exactly once, and nothing else is. */
  ghost predicate Queued(tasks: map<nat, Task>, queue: seq<nat>) {
    NoDuplicates(queue) && forall p :: p in queue <==> p in tasks && tasks[p].status == Running
  }

  ghost predicate Sliced(tasks: map<nat, Task>) {
    forall p :: p in tasks ==> 1 <= tasks[p].slice <= 3
  }

  ghost predicate Bounded(tasks: map<nat, Task>) {
    forall p :: p in tasks ==> p < PID_MAX && tasks[p].ppid >= -1
  }

  /** A live parent ranks below its child. */
  ghost predicate Ranked(tasks: map<nat, Task>, rank: map<nat, nat>) {
    && tasks.Keys <= rank.Keys
    && forall p {:trigger tasks[p].ppid} :: p in tasks && tasks[p].ppid in tasks ==> rank[tasks[p].ppid] < rank[p]
  }

  /** The recorded parents of live tasks form no cycle. */
  ghost predicate Forest(tasks: map<nat, Task>) {
    exists rank :: Ranked(tasks, rank)
  }

  /** `c` is a live child on which its parent `p` is waiting. */
  ghost predicate WaitedOn(tasks: map<nat, Task>, p: nat, c: nat) {
    c in tasks && tasks[c].pwait && tasks[c].ppid == p
  }

  /** A task is blocked exactly when one of its children is marked, and then only one is. */
  ghost predicate Waits(tasks: map<nat, Task>) {
    && (forall c :: c in tasks && tasks[c].pwait ==>
         tasks[c].ppid >= 0 && tasks[c].ppid in tasks && tasks[tasks[c].ppid].status == Blocked)
    && (forall p :: p in tasks && tasks[p].status == Blocked ==> exists c :: WaitedOn(tasks, p, c))
    && (forall p, c, d :: WaitedOn(tasks, p, c) && WaitedOn(tasks, p, d) ==> c == d)
  }

  /** What holds whether or not the parents form cycles */
  ghost predicate Loose(tasks: map<nat, Task>, queue: seq<nat>) {
    Queued(tasks, queue) && Sliced(tasks) && Bounded(tasks) && Waits(tasks)
  }

  ghost predicate Steady(s: State) {
    && Queued(s.tasks, s.queue) && Sliced(s.tasks) && Bounded(s.tasks) && Forest(s.tasks) && Waits(s.tasks)
    && -1 <= s.last < PID_MAX
  }

  /** At every step boundary the running task is the head of the run queue. */
  ghost predicate Inv(s: State) {
    Steady(s) && s.queue != [] && s.cur == Some(s.queue[0]) && HasCurrent(s)
  }

  /** `exit_notify` always finds its parent live and blocked. */
  lemma NotifyFindsParent(s: State, c: nat)
    requires Inv(s) && c in s.tasks && s.tasks[c].pwait
    ensures s.tasks[c].ppid >= 0 && s.tasks[c].ppid in s.tasks && s.tasks[s.tasks[c].ppid].status == Blocked
    ensures s.tasks[c].ppid !in s.queue
  {
  }

  /** A chain of waits, each task blocked on the next. */
  ghost predicate WaitChain(tasks: map<nat, Task>, chain: seq<nat>) {
    forall i :: 0 <= i < |chain| - 1 ==> WaitedOn(tasks, chain[i], chain[i + 1])
  }

  ghost function Higher(tasks: map<nat, Task>, rank: map<nat, nat>, p: nat): set<nat> {
    set q | q in tasks && q in rank && p in rank && rank[p] < rank[q]
  }

  /** Every wait chain ends at a queued task, and no task is on it twice. */
  lemma {:induction false} ChainEndsInQueue(s: State, p: nat, rank: map<nat, nat>) returns (chain: seq<nat>)
    requires Steady(s) && p in s.tasks && Ranked(s.tasks, rank)
    ensures chain != [] && chain[0] == p && WaitChain(s.tasks, chain)
    ensures chain[|chain| - 1] in s.queue
    ensures forall i :: 0 <= i < |chain| ==> chain[i] in rank && rank[p] <= rank[chain[i]]
    ensures NoDuplicates(chain)
    decreases Higher(s.tasks, rank, p)
  {
    if s.tasks[p].status == Running {
      chain := [p];
    } else {
      var c :| WaitedOn(s.tasks, p, c);
      assert rank[s.tasks[c].ppid] < rank[c];
      assert c in Higher(s.tasks, rank, p) && c !in Higher(s.tasks, rank, c);
      var rest := ChainEndsInQueue(s, c, rank);
      chain := [p] + rest;
    }
  }

  /** Deadlock freedom: while any task is left, one is runnable. */
  lemma NoDeadlock(s: State)
    requires Steady(s) && s.tasks != map[]
    ensures s.queue != []
  {
    var p :| p in s.tasks;
    var rank :| Ranked(s.tasks, rank);
    var chain := ChainEndsInQueue(s, p, rank);
  }

  // --- Births and the forest ---

  ghost predicate Within(tasks: map<nat, Task>, tasks': map<nat, Task>) {
    forall p :: p in tasks' ==> p in tasks && tasks'[p].ppid == tasks[p].ppid
  }

  lemma WithinForest(tasks: map<nat, Task>, tasks': map<nat, Task>)
    requires Forest(tasks) && Within(tasks, tasks')
    ensures Forest(tasks')
  {
    var rank :| Ranked(tasks, rank);
    assert Ranked(tasks', rank);
  }

  /** The parent recorded by the topmost live ancestor of `p`, which is not live itself */
  function Top(tasks: map<nat, Task>, p: nat): int
    requires p in tasks
    decreases |tasks|
  {
    var q, rest := tasks[p].ppid, tasks - {p};
    assert tasks.Keys == rest.Keys + {p};
    if q in rest then Top(rest, q) else q
  }

  /** Removing a task that ranks above `q` changes nothing for `q`. */
  lemma {:induction false} TopFrame(tasks: map<nat, Task>, rank: map<nat, nat>, x: nat, q: nat)
    requires Ranked(tasks, rank) && q in tasks && x in tasks && rank[q] < rank[x]
    ensures Top(tasks - {x}, q) == Top(tasks, q)
    decreases |tasks|
  {
    var p, rest := tasks[q].ppid, tasks - {q};
    assert tasks.Keys == rest.Keys + {q};
    assert (tasks - {x}) - {q} == rest - {x};
    if p in rest { TopFrame(rest, rank, x, p); }
  }

  lemma TopOfParent(tasks: map<nat, Task>, rank: map<nat, nat>, p: nat)
    requires Ranked(tasks, rank) && p in tasks && tasks[p].ppid in tasks
    ensures Top(tasks, p) == Top(tasks, tasks[p].ppid)
  {
    TopFrame(tasks, rank, p, tasks[p].ppid);
  }

  lemma {:induction false} TopRanksBelow(some: map<nat, Task>, tasks: map<nat, Task>, rank: map<nat, nat>, p: nat)
    requires Within(tasks, some) && Ranked(tasks, rank) && p in some && Top(some, p) in tasks
    ensures rank[Top(some, p)] < rank[p]
    decreases |some|
  {
    var q, rest := some[p].ppid, some - {p};
    assert some.Keys == rest.Keys + {p};
    assert tasks[p].ppid == q;
    if q in rest { TopRanksBelow(rest, tasks, rank, q); }
  }

  /** The ranks after a birth: those whose topmost ancestor records `pid` move above the new task. */
  ghost function Reranked(tasks: map<nat, Task>, rank: map<nat, nat>, cur: nat, pid: nat): map<nat, nat>
    requires Ranked(tasks, rank) && cur in tasks
  {
    map q | q in tasks.Keys + {pid} ::
      if q !in tasks then rank[cur] + 1 else if Top(tasks, q) == pid then rank[q] + rank[cur] + 2 else rank[q]
  }

  lemma RerankedRanks(tasks: map<nat, Task>, rank: map<nat, nat>, cur: nat, pid: nat, t: Task)
    requires Ranked(tasks, rank) && cur in tasks && pid !in tasks && t.ppid == cur && Top(tasks, cur) != pid
    ensures Ranked(tasks[pid := t], Reranked(tasks, rank, cur, pid))
  {
    var tasks', rank' := tasks[pid := t], Reranked(tasks, rank, cur, pid);
    forall p | p in tasks' && tasks'[p].ppid in tasks' ensures rank'[tasks'[p].ppid] < rank'[p] {
      if p != pid {
        var q := tasks[p].ppid;
        if q in tasks { TopOfParent(tasks, rank, p); } else { assert Top(tasks, p) == q == pid; }
      }
    }
  }

  /** A birth keeps the forest exactly when the new pid is not the one that the topmost live ancestor
      of its parent still records: otherwise the new task becomes its own ancestor. */
  lemma BirthForestIff(tasks: map<nat, Task>, cur: nat, pid: nat, t: Task)
    requires Forest(tasks) && cur in tasks && pid !in tasks && t.ppid == cur
    ensures Forest(tasks[pid := t]) <==> Top(tasks, cur) != pid
  {
    var tasks' := tasks[pid := t];
    assert tasks'[pid].ppid == cur;
    if Top(tasks, cur) != pid {
      var rank :| Ranked(tasks, rank);
      RerankedRanks(tasks, rank, cur, pid, t);
    } else if Forest(tasks') {
      var rank :| Ranked(tasks', rank);
      TopRanksBelow(tasks, tasks', rank, cur);
      assert false;
    }
  }

  // --- Every step keeps the invariant ---

  /** `Queued` and `Waits` speak only of `ppid`, `status` and `pwait`. */
  ghost predicate SameShape(tasks: map<nat, Task>, tasks': map<nat, Task>) {
    && tasks'.Keys == tasks.Keys
    && forall p :: p in tasks ==>
         tasks'[p].ppid == tasks[p].ppid && tasks'[p].status == tasks[p].status && tasks'[p].pwait == tasks[p].pwait
  }

  lemma ShapeKeeps(tasks: map<nat, Task>, tasks': map<nat, Task>, queue: seq<nat>)
    requires SameShape(tasks, tasks') && Waits(tasks) && Queued(tasks, queue)
    ensures Waits(tasks') && Queued(tasks', queue)
    ensures Forest(tasks) ==> Forest(tasks')
  {
    if Forest(tasks) { WithinForest(tasks, tasks'); }
    forall p, c ensures WaitedOn(tasks', p, c) <==> WaitedOn(tasks, p, c) {}
  }

  ghost predicate SlicesKept(tasks: map<nat, Task>, tasks': map<nat, Task>) {
    forall p :: p in tasks && p in tasks' ==> tasks'[p].slice == tasks[p].slice
  }

  /** `schedule` picks the head of a non-empty queue. */
  lemma ScheduleKeeps(s: State)
    requires Steady(s) && s.queue != []
    requires s.cur.Some? ==> s.cur.value in s.tasks
    requires s.cur.Some? && s.tasks[s.cur.value].status == Running && !s.tasks[s.cur.value].resched ==>
        s.cur.value == s.queue[0]
    ensures Schedule(s).Go? && Inv(Schedule(s).state)
    ensures Schedule(s).state.queue == s.queue && Schedule(s).state.tasks.Keys == s.tasks.Keys
    ensures SlicesKept(s.tasks, Schedule(s).state.tasks)
  {
    ShapeKeeps(s.tasks, Unflag(s), s.queue);
    assert s.queue[0] in s.queue;
  }

  lemma LeaveQueue(q: seq<nat>)
    requires q != [] && NoDuplicates(q)
    ensures Without(q, q[0]) == q[1..] && NoDuplicates(q[1..])
    ensures forall p :: p in q[1..] <==> p in q && p != q[0]
  {
  }

  lemma JoinQueue(q: seq<nat>, p: nat)
    requires NoDuplicates(q) && p !in q
    ensures NoDuplicates(q + [p])
    ensures forall x :: x in q + [p] <==> x in q || x == p
  {
  }

  /** A change of the slice or the flag of one task */
  lemma RetimedKeeps(tasks: map<nat, Task>, queue: seq<nat>, c: nat, t: Task)
    requires Queued(tasks, queue) && Sliced(tasks) && Bounded(tasks) && Forest(tasks) && Waits(tasks)
    requires c in tasks && t.ppid == tasks[c].ppid && t.status == tasks[c].status && t.pwait == tasks[c].pwait
    requires 1 <= t.slice <= 3
    ensures Queued(tasks[c := t], queue) && Sliced(tasks[c := t]) && Bounded(tasks[c := t])
    ensures Forest(tasks[c := t]) && Waits(tasks[c := t]) && tasks[c := t].Keys == tasks.Keys
  {
    ShapeKeeps(tasks, tasks[c := t], queue);
  }

  lemma RotateKeeps(tasks: map<nat, Task>, queue: seq<nat>)
    requires Queued(tasks, queue) && queue != []
    ensures Queued(tasks, queue[1..] + [queue[0]]) && Without(queue, queue[0]) == queue[1..]
  {
    LeaveQueue(queue);
    JoinQueue(queue[1..], queue[0]);
  }

  lemma TickKeeps(s: State)
    requires Inv(s)
    ensures Steady(AfterTick(s)) && AfterTick(s).queue != [] && AfterTick(s).cur == s.cur
    ensures AfterTick(s).queue == if s.tasks[s.queue[0]].slice == 1 then s.queue[1..] + [s.queue[0]] else s.queue
    ensures AfterTick(s).tasks.Keys == s.tasks.Keys
  {
    var c := s.queue[0];
    RetimedKeeps(s.tasks, s.queue, c, AfterTick(s).tasks[c]);
    RotateKeeps(s.tasks[c := AfterTick(s).tasks[c]], s.queue);
  }

  /** The pid a new task would get is not the one that its parent's topmost live ancestor records. */
  predicate Rooted(s: State)
    requires HasCurrent(s)
  {
    var pid := NextPid(s.tasks.Keys, s.last);
    pid.Some? ==> Top(s.tasks, s.cur.value) != pid.value
  }

  lemma CreateKeeps(s: State, failure: Failure, word: Record, mem: Record)
    requires Inv(s) && Rooted(s) && !word.pwait
    ensures Steady(AfterCreate(s, failure, word, mem))
    ensures s.queue <= AfterCreate(s, failure, word, mem).queue
    ensures AfterCreate(s, failure, word, mem).cur == s.cur
  {
    var pid := NextPid(s.tasks.Keys, s.last);
    if pid.Some? && failure == NoFailure {
      var t := Task(s.cur.value, Running, 3, word.resched, false);
      BirthKeeps(s.tasks, s.queue, s.cur.value, pid.value, t);
      BirthForestIff(s.tasks, s.cur.value, pid.value, t);
    }
  }

  lemma BirthKeeps(tasks: map<nat, Task>, queue: seq<nat>, cur: nat, pid: nat, t: Task)
    requires Loose(tasks, queue) && cur in tasks && pid !in tasks && pid < PID_MAX
    requires t.status == Running && !t.pwait && t.slice == 3 && t.ppid == cur
    ensures Loose(tasks[pid := t], queue + [pid])
  {
    JoinQueue(queue, pid);
    var tasks' := tasks[pid := t];
    forall p, c ensures WaitedOn(tasks', p, c) <==> WaitedOn(tasks, p, c) {}
  }

  lemma BlockingFrame(tasks: map<nat, Task>, p: nat, c: nat)
    requires p in tasks && c in tasks
    ensures Blocking(tasks, p, c).Keys == tasks.Keys && SlicesKept(tasks, Blocking(tasks, p, c))
    ensures Within(tasks, Blocking(tasks, p, c))
  {
  }

  lemma WaitKeeps(s: State, pid: nat)
    requires Inv(s) && IsChild(s, pid)
    ensures Steady(AfterWait(s, pid)) && AfterWait(s, pid).queue == s.queue[1..]
    ensures AfterWait(s, pid).tasks.Keys == s.tasks.Keys
    ensures SlicesKept(s.tasks, AfterWait(s, pid).tasks)
  {
    LeaveQueue(s.queue);
    BlockKeeps(s.tasks, s.queue, s.cur.value, pid);
    BlockingFrame(s.tasks, s.cur.value, pid);
    WithinForest(s.tasks, Blocking(s.tasks, s.cur.value, pid));
  }

  lemma BlockKeeps(tasks: map<nat, Task>, queue: seq<nat>, p: nat, c: nat)
    requires Loose(tasks, queue) && p in tasks && c in tasks && queue != [] && queue[0] == p
    requires tasks[p].status == Running && tasks[c].ppid == p
    ensures Loose(Blocking(tasks, p, c), queue[1..])
  {
    BlockQueued(tasks, queue, p, c);
    BlockWaits(tasks, p, c);
  }

  lemma BlockQueued(tasks: map<nat, Task>, queue: seq<nat>, p: nat, c: nat)
    requires Queued(tasks, queue) && p in tasks && c in tasks && queue != [] && queue[0] == p
    ensures Queued(Blocking(tasks, p, c), queue[1..])
  {
    LeaveQueue(queue);
  }

  lemma BlockWaits(tasks: map<nat, Task>, p: nat, c: nat)
    requires Waits(tasks) && p in tasks && c in tasks
    requires tasks[p].status == Running && tasks[c].ppid == p
    ensures Waits(Blocking(tasks, p, c))
  {
    var tasks' := Blocking(tasks, p, c);
    forall q, d ensures WaitedOn(tasks', q, d) <==> WaitedOn(tasks, q, d) || (q == p && d == c) {}
    assert forall d :: !WaitedOn(tasks, p, d);
    assert WaitedOn(tasks', p, c);
    forall q | q in tasks' && q != p && tasks'[q].status == Blocked ensures exists d :: WaitedOn(tasks', q, d) {
      var d :| WaitedOn(tasks, q, d);
      assert WaitedOn(tasks', q, d);
    }
  }

  lemma ExitKeeps(s: State)
    requires Inv(s)
    ensures AfterExit(s).Some? && Steady(AfterExit(s).value) && AfterExit(s).value.cur == None
    ensures s.queue[1..] <= AfterExit(s).value.queue
    ensures AfterExit(s).value.tasks.Keys == s.tasks.Keys - {s.queue[0]}
    ensures SlicesKept(s.tasks, AfterExit(s).value.tasks)
  {
    LeaveQueue(s.queue);
    var c := s.cur.value;
    if s.tasks[c].pwait {
      NotifyFindsParent(s, c);
      WakeKeeps(s.tasks, s.queue, s.tasks[c].ppid, c);
      WithinForest(s.tasks, Woken(s.tasks, s.tasks[c].ppid, c));
    } else {
      DeathKeeps(s.tasks, s.queue, c);
      WithinForest(s.tasks, s.tasks - {c});
    }
  }

  lemma DeathKeeps(tasks: map<nat, Task>, queue: seq<nat>, c: nat)
    requires Loose(tasks, queue) && c in tasks && tasks[c].status == Running && !tasks[c].pwait
    requires queue != [] && queue[0] == c
    ensures Loose(tasks - {c}, queue[1..])
  {
    LeaveQueue(queue);
    var tasks' := tasks - {c};
    forall p, d ensures WaitedOn(tasks', p, d) <==> WaitedOn(tasks, p, d) {}
    assert forall d :: !WaitedOn(tasks, c, d);
  }

  ghost function Woken(tasks: map<nat, Task>, p: nat, c: nat): map<nat, Task>
    requires p in tasks
  {
    tasks[p := tasks[p].(status := Running)] - {c}
  }

  lemma WakeKeeps(tasks: map<nat, Task>, queue: seq<nat>, p: nat, c: nat)
    requires Loose(tasks, queue) && WaitedOn(tasks, p, c) && p in tasks && tasks[c].status == Running
    requires queue != [] && queue[0] == c
    ensures p != c && Loose(Woken(tasks, p, c), queue[1..] + [p])
  {
    LeaveQueue(queue);
    JoinQueue(queue[1..], p);
    WakeWaits(tasks, p, c);
  }

  lemma WakeWaits(tasks: map<nat, Task>, p: nat, c: nat)
    requires Waits(tasks) && WaitedOn(tasks, p, c) && p in tasks && p != c && tasks[c].status == Running
    ensures Waits(Woken(tasks, p, c))
  {
    var tasks' := Woken(tasks, p, c);
    forall q, d ensures WaitedOn(tasks', q, d) <==> WaitedOn(tasks, q, d) && d != c {}
    assert forall d :: !WaitedOn(tasks, c, d);
    forall d | d in tasks' && tasks'[d].pwait
      ensures tasks'[d].ppid >= 0 && tasks'[d].ppid in tasks' && tasks'[tasks'[d].ppid].status == Blocked
    {
      assert WaitedOn(tasks, tasks[d].ppid, d);
    }
    forall q | q in tasks' && tasks'[q].status == Blocked ensures exists d :: WaitedOn(tasks', q, d) {
      var d :| WaitedOn(tasks, q, d);
      assert WaitedOn(tasks', q, d);
    }
  }

  // --- Whole runs ---

  /** What a run must avoid: closing a cycle of parents, spawning into memory whose stale `pwait` is
      set, and spawning when no pid is left. */
  predicate Safe(s: State, op: Op) {
    && (op.Fork? || op.Spawn? ==> HasCurrent(s) && Rooted(s))
    && (op.Spawn? ==> !op.mem.pwait && NextPid(s.tasks.Keys, s.last).Some?)
  }

  lemma IdleKeeps(s: State)
    requires Inv(s)
    ensures Schedule(s).Go? && Inv(Schedule(s).state)
    ensures Schedule(s).state.queue == s.queue && Schedule(s).state.tasks.Keys == s.tasks.Keys
    ensures SlicesKept(s.tasks, Schedule(s).state.tasks)
  {
    ScheduleKeeps(s);
  }

  lemma WaitSteps(s: State, pid: int)
    requires Inv(s)
    ensures Schedule(AfterWait(s, pid)).Go? && Inv(Schedule(AfterWait(s, pid)).state)
  {
    if IsChild(s, pid) {
      WaitChildSteps(s, pid);
    } else {
      IdleKeeps(s);
    }
  }

  lemma WaitChildSteps(s: State, pid: int)
    requires Inv(s) && IsChild(s, pid)
    ensures Schedule(AfterWait(s, pid)).Go? && Inv(Schedule(AfterWait(s, pid)).state)
    ensures Schedule(AfterWait(s, pid)).state.queue == s.queue[1..]
    ensures SlicesKept(s.tasks, Schedule(AfterWait(s, pid)).state.tasks)
  {
    WaitKeeps(s, pid);
    WaitBlocks(s, pid);
    BlockedSchedules(AfterWait(s, pid));
  }

  lemma WaitBlocks(s: State, pid: int)
    requires HasCurrent(s) && IsChild(s, pid)
    ensures var s' := AfterWait(s, pid);
            s'.cur == s.cur && s.cur.value in s'.tasks && s'.tasks[s.cur.value].status == Blocked
  {
  }

  lemma BlockedSchedules(s: State)
    requires Steady(s) && s.cur.Some? && s.cur.value in s.tasks && s.tasks[s.cur.value].status == Blocked
    ensures Schedule(s).Go? && Inv(Schedule(s).state) && Schedule(s).state.queue == s.queue
    ensures SlicesKept(s.tasks, Schedule(s).state.tasks)
  {
    NoDeadlock(s);
    ScheduleKeeps(s);
  }

  lemma ExitSteps(s: State)
    requires Inv(s)
    ensures Step(s, Exit).Go? || Step(s, Exit).Panic?
    ensures Step(s, Exit).Go? ==> Inv(Step(s, Exit).state)
    ensures Step(s, Exit).Panic? <==> s.tasks.Keys == {s.queue[0]}
    ensures Step(s, Exit).Panic? ==> Step(s, Exit).state.tasks == map[]
  {
    ExitKeeps(s);
    var s' := AfterExit(s).value;
    if s'.tasks == map[] {
      assert forall i :: 0 <= i < |s'.queue| ==> s'.queue[i] in s'.queue;
    } else {
      NoDeadlock(s');
      ScheduleKeeps(s');
    }
  }

  lemma TickSteps(s: State)
    requires Inv(s)
    ensures Step(s, Tick).Go? && Inv(Step(s, Tick).state)
  {
    TickKeeps(s);
    ScheduleKeeps(AfterTick(s));
  }

  lemma CreateSteps(s: State, failure: Failure, word: Record, mem: Record)
    requires Inv(s) && Rooted(s) && !word.pwait
    ensures Schedule(AfterCreate(s, failure, word, mem)).Go?
    ensures Inv(Schedule(AfterCreate(s, failure, word, mem)).state)
  {
    CreateKeeps(s, failure, word, mem);
    ScheduleKeeps(AfterCreate(s, failure, word, mem));
  }

  /** Every step keeps the invariant, never follows a NULL parent, and panics on an empty
      queue only when the last task exits. */
  lemma StepKeeps(s: State, op: Op)
    requires Inv(s) && Safe(s, op)
    ensures Step(s, op).Go? || Step(s, op).Panic?
    ensures Step(s, op).Go? ==> Inv(Step(s, op).state)
    ensures Step(s, op).Panic? <==> op.Exit? && s.tasks.Keys == {s.queue[0]}
    ensures Step(s, op).Panic? ==> Step(s, op).state.tasks == map[]
  {
    match op
    case Idle => IdleKeeps(s);
    case Tick => TickSteps(s);
    case Fork(f, mem) => if Available(s, mem) { CreateSteps(s, f, CLEAR, mem); } else { IdleKeeps(s); }
    case Spawn(mem) => if Available(s, mem) { CreateSteps(s, NoFailure, mem, mem); } else { IdleKeeps(s); }
    case Wait(pid) => WaitSteps(s, pid);
    case Exit => ExitSteps(s);
  }

  function Run(s: State, ops: seq<Op>): Next
    decreases |ops|
  {
    if ops == [] then Go(s)
    else
      var n := Step(s, ops[0]);
      if n.Go? then Run(n.state, ops[1..]) else n
  }

  lemma {:induction false} RunConcat(s: State, a: seq<Op>, b: seq<Op>)
    requires Run(s, a).Go?
    ensures Run(s, a + b) == Run(Run(s, a).state, b)
    decreases |a|
  {
    if a == [] {
      assert a + b == b;
    } else {
      assert (a + b)[1..] == a[1..] + b;
      RunConcat(Step(s, a[0]).state, a[1..], b);
    }
  }

  predicate SafeRun(s: State, ops: seq<Op>)
    decreases |ops|
  {
    ops == [] || (Safe(s, ops[0]) && (Step(s, ops[0]).Go? ==> SafeRun(Step(s, ops[0]).state, ops[1..])))
  }

  lemma {:induction false} RunKeeps(s: State, ops: seq<Op>)
    requires Inv(s) && SafeRun(s, ops)
    ensures Run(s, ops).Go? ==> Inv(Run(s, ops).state)
    ensures !Run(s, ops).Go? ==> Run(s, ops).Panic? && Run(s, ops).state.tasks == map[]
    decreases |ops|
  {
    if ops != [] {
      StepKeeps(s, ops[0]);
      if Step(s, ops[0]).Go? {
        RunKeeps(Step(s, ops[0]).state, ops[1..]);
      }
    }
  }

  /** The boot state: the first task has pid 0 and no parent. */
  const BOOT := State(map[0 := Task(-1, Running, 3, false, false)], [0], Some(0), 0, multiset{})

  lemma BootInv()
    ensures Inv(BOOT)
  {
    assert Ranked(BOOT.tasks, map[0 := 0]);
  }

  // --- Round robin ---

  /** The time slices still to run before `p`, in queue order. */
  function Ahead(tasks: map<nat, Task>, q: seq<nat>, p: nat): int {
    if q == [] || q[0] == p then 0
    else (if q[0] in tasks then tasks[q[0]].slice else 0) + Ahead(tasks, q[1..], p)
  }

  lemma {:induction false} AheadBound(tasks: map<nat, Task>, q: seq<nat>, i: nat)
    requires Sliced(tasks) && i < |q| && forall x :: x in q ==> x in tasks
    ensures 0 <= Ahead(tasks, q, q[i]) <= 3 * i
    ensures q[0] != q[i] ==> Ahead(tasks, q, q[i]) > 0
  {
    if q[0] != q[i] {
      assert q[i] == q[1..][i - 1] && q[0] in q;
      AheadBound(tasks, q[1..], i - 1);
    }
  }

  /** Only the slices of queued tasks matter, and only those in front of `p`. */
  lemma {:induction false} AheadFrame(tasks: map<nat, Task>, tasks': map<nat, Task>, q: seq<nat>, r: seq<nat>, p: nat)
    requires p in q && q <= r
    requires forall x :: x in q ==> x in tasks && x in tasks' && tasks'[x].slice == tasks[x].slice
    ensures p in r && Ahead(tasks', r, p) == Ahead(tasks, q, p)
    decreases |q|
  {
    assert q[0] == r[0] && q[0] in q;
    if q[0] != p {
      assert q[1..] <= r[1..];
      AheadFrame(tasks, tasks', q[1..], r[1..], p);
    }
  }

  /** What a step does for a queued task that is not running. */
  ghost predicate Closer(s: State, n: Next, p: nat, d: int) {
    n.Go? && p in n.state.queue && Ahead(n.state.tasks, n.state.queue, p) <= Ahead(s.tasks, s.queue, p) - d
  }

  lemma InQueueInTasks(s: State)
    requires Inv(s)
    ensures forall x :: x in s.queue ==> x in s.tasks
    ensures forall x :: x in s.queue[1..] ==> x in s.queue && x != s.queue[0]
    ensures 1 <= s.tasks[s.queue[0]].slice <= 3
  {
  }

  lemma CloserByLeaving(s: State, n: State, p: nat)
    requires Inv(s) && Inv(n) && p in s.queue && p != s.queue[0]
    requires s.queue[1..] <= n.queue && SlicesKept(s.tasks, n.tasks)
    ensures Closer(s, Go(n), p, 1)
  {
    InQueueInTasks(s);
    InQueueInTasks(n);
    forall x | x in s.queue[1..] ensures x in n.queue {}
    AheadFrame(s.tasks, n.tasks, s.queue[1..], n.queue, p);
  }

  lemma CloserByStaying(s: State, n: State, p: nat)
    requires Inv(s) && Inv(n) && p in s.queue
    requires s.queue <= n.queue && SlicesKept(s.tasks, n.tasks)
    ensures Closer(s, Go(n), p, 0)
  {
    InQueueInTasks(s);
    InQueueInTasks(n);
    forall x | x in s.queue ensures x in n.queue {}
    AheadFrame(s.tasks, n.tasks, s.queue, n.queue, p);
  }

  lemma CloserByTick(s: State, p: nat)
    requires Inv(s) && p in s.queue && p != s.queue[0]
    ensures Closer(s, Step(s, Tick), p, 1)
  {
    var t := AfterTick(s);
    TickKeeps(s);
    ScheduleKeeps(t);
    var n := Schedule(t).state;
    InQueueInTasks(s);
    InQueueInTasks(n);
    var rest := s.queue[1..];
    assert forall x :: x in rest ==> x in s.tasks && x in n.tasks && n.tasks[x].slice == s.tasks[x].slice;
    if s.tasks[s.queue[0]].slice == 1 {
      AheadFrame(s.tasks, n.tasks, rest, n.queue, p);
    } else {
      AheadFrame(s.tasks, n.tasks, rest, rest, p);
    }
  }

  lemma CreateSlices(s: State, failure: Failure, word: Record, mem: Record)
    requires HasCurrent(s)
    ensures SlicesKept(s.tasks, AfterCreate(s, failure, word, mem).tasks)
    ensures s.tasks.Keys <= AfterCreate(s, failure, word, mem).tasks.Keys
  {
  }

  lemma CloserByCreate(s: State, failure: Failure, word: Record, mem: Record, p: nat)
    requires Inv(s) && Rooted(s) && !word.pwait && p in s.queue
    ensures Closer(s, Schedule(AfterCreate(s, failure, word, mem)), p, 0)
  {
    var t := AfterCreate(s, failure, word, mem);
    CreateKeeps(s, failure, word, mem);
    CreateSlices(s, failure, word, mem);
    ScheduleKeeps(t);
    SlicesTrans(s.tasks, t.tasks, Schedule(t).state.tasks);
    CloserByStaying(s, Schedule(t).state, p);
  }

  lemma CloserByIdling(s: State, p: nat)
    requires Inv(s) && p in s.queue
    ensures Closer(s, Schedule(s), p, 0)
  {
    IdleKeeps(s);
    CloserByStaying(s, Schedule(s).state, p);
  }

  lemma SlicesTrans(a: map<nat, Task>, b: map<nat, Task>, c: map<nat, Task>)
    requires SlicesKept(a, b) && SlicesKept(b, c) && b.Keys >= c.Keys
    ensures SlicesKept(a, c)
  {
  }

  lemma CloserByExit(s: State, p: nat)
    requires Inv(s) && p in s.queue && p != s.queue[0]
    ensures AfterExit(s).Some? && Closer(s, Schedule(AfterExit(s).value), p, 1)
  {
    ExitKeeps(s);
    CloserAmongSurvivors(s, AfterExit(s).value, p);
  }

  lemma CloserAmongSurvivors(s: State, t: State, p: nat)
    requires Inv(s) && Steady(t) && t.cur == None && p in s.queue && p != s.queue[0]
    requires s.queue[1..] <= t.queue && SlicesKept(s.tasks, t.tasks)
    ensures Closer(s, Schedule(t), p, 1)
  {
    LeaveQueue(s.queue);
    assert p in t.queue;
    ScheduleKeeps(t);
    SlicesTrans(s.tasks, t.tasks, Schedule(t).state.tasks);
    CloserByLeaving(s, Schedule(t).state, p);
  }

  lemma CloserByWait(s: State, pid: int, p: nat)
    requires Inv(s) && p in s.queue && p != s.queue[0]
    ensures Closer(s, Schedule(AfterWait(s, pid)), p, 0)
  {
    if IsChild(s, pid) {
      WaitChildSteps(s, pid);
      CloserByLeaving(s, Schedule(AfterWait(s, pid)).state, p);
    } else {
      CloserByIdling(s, p);
    }
  }

  /** No step lets a waiting task fall back, and each timer tick brings it one slice
      closer to the head. */
  lemma StepCloser(s: State, op: Op, p: nat)
    requires Inv(s) && Safe(s, op) && p in s.queue && p != s.queue[0]
    ensures Closer(s, Step(s, op), p, if op.Tick? then 1 else 0)
  {
    match op
    case Idle => CloserByIdling(s, p);
    case Tick => CloserByTick(s, p);
    case Fork(f, mem) => if Available(s, mem) { CloserByCreate(s, f, CLEAR, mem, p); } else { CloserByIdling(s, p); }
    case Spawn(mem) =>
      if Available(s, mem) { CloserByCreate(s, NoFailure, mem, mem, p); } else { CloserByIdling(s, p); }
    case Wait(pid) => CloserByWait(s, pid, p);
    case Exit => CloserByExit(s, p);
  }

  function Ticks(ops: seq<Op>): nat {
    if ops == [] then 0 else (if ops[0].Tick? then 1 else 0) + Ticks(ops[1..])
  }

  /** `p` is the running task after the first `k` steps. */
  ghost predicate RunsAfter(s: State, ops: seq<Op>, k: nat, p: nat) {
    k <= |ops| && Run(s, ops[..k]).Go? && Run(s, ops[..k]).state.cur == Some(p)
  }

  lemma QueuedAhead(s: State, p: nat)
    requires Inv(s) && p in s.queue && p != s.queue[0]
    ensures Ahead(s.tasks, s.queue, p) > 0
  {
    InQueueInTasks(s);
    var i :| 0 <= i < |s.queue| && s.queue[i] == p;
    AheadBound(s.tasks, s.queue, i);
  }

  /** A step of a task that does not run: it stays queued, and a tick brings it closer. */
  lemma StepTowards(s: State, op: Op, p: nat)
    requires Inv(s) && Safe(s, op) && p in s.queue && p != s.queue[0]
    ensures Step(s, op).Go? && Inv(Step(s, op).state) && p in Step(s, op).state.queue
    ensures var t := Step(s, op).state;
            Ahead(t.tasks, t.queue, p) + (if op.Tick? then 1 else 0) <= Ahead(s.tasks, s.queue, p)
  {
    StepKeeps(s, op);
    StepCloser(s, op, p);
  }

  lemma RunsLater(s: State, ops: seq<Op>, k: nat, p: nat)
    requires ops != [] && Step(s, ops[0]).Go? && RunsAfter(Step(s, ops[0]).state, ops[1..], k, p)
    ensures RunsAfter(s, ops, k + 1, p)
  {
    assert ops[..k + 1][1..] == ops[1..][..k] && ops[..k + 1][0] == ops[0];
  }

  lemma {:induction false} ReachesHead(s: State, ops: seq<Op>, p: nat) returns (k: nat)
    requires Inv(s) && SafeRun(s, ops) && p in s.queue && Ticks(ops) >= Ahead(s.tasks, s.queue, p)
    ensures RunsAfter(s, ops, k, p)
    decreases |ops|
  {
    if s.queue[0] == p {
      k := 0;
      assert ops[..0] == [];
    } else {
      QueuedAhead(s, p);
      StepTowards(s, ops[0], p);
      var l := ReachesHead(Step(s, ops[0]).state, ops[1..], p);
      RunsLater(s, ops, l, p);
      k := l + 1;
    }
  }

  /** A task at position `i` of the run queue gets the CPU within `3 * i` timer ticks, whatever else
      happens meanwhile. */
  lemma SafeRoundRobin(s: State, ops: seq<Op>, i: nat)
    requires Inv(s) && SafeRun(s, ops) && i < |s.queue| && Ticks(ops) >= 3 * i
    ensures exists k :: RunsAfter(s, ops, k, s.queue[i])
  {
    InQueueInTasks(s);
    AheadBound(s.tasks, s.queue, i);
    var k := ReachesHead(s, ops, s.queue[i]);
  }

  // --- Runs before pids wrap around ---

  /** The most pids that `ops` can take */
  function Births(ops: seq<Op>): nat {
    if ops == [] then 0 else (if ops[0].Fork? || ops[0].Spawn? then 1 else 0) + Births(ops[1..])
  }

  /** What `Births` and `Ticks` count */
  lemma {:induction false} CountsAdd(a: seq<Op>, b: seq<Op>)
    ensures Births(a + b) == Births(a) + Births(b) && Ticks(a + b) == Ticks(a) + Ticks(b)
    ensures |a| == 1 ==> Births(a) == if a[0].Fork? || a[0].Spawn? then 1 else 0
    ensures |a| == 1 ==> Ticks(a) == if a[0].Tick? then 1 else 0
  {
    if a == [] {
      assert a + b == b;
    } else {
      assert (a + b)[1..] == a[1..] + b;
      CountsAdd(a[1..], b);
    }
  }

  /** After `schedule` the task that was running, if it still exists, is not marked for another switch. */
  lemma ScheduleUnflags(s: State, p: nat)
    requires Schedule(s).Go? && p in Schedule(s).state.tasks && s.cur == Some(p)
    ensures !Schedule(s).state.tasks[p].resched
  {
  }

  /** No execve gets memory in which `pwait` is still set. */
  predicate Clean(ops: seq<Op>) {
    forall i :: 0 <= i < |ops| && ops[i].Spawn? ==> !ops[i].mem.pwait
  }

  /** No live pid exceeds `last_pid`, and pids ascend from parent to child. */
  predicate Low(tasks: map<nat, Task>, last: int) {
    forall p :: p in tasks ==> p <= last && tasks[p].ppid < p
  }

  predicate Unwrapped(s: State) {
    Low(s.tasks, s.last)
  }

  lemma UnwrappedNext(s: State)
    requires Inv(s) && Unwrapped(s) && s.last < PID_MAX - 1
    ensures NextPid(s.tasks.Keys, s.last) == Some(s.last + 1)
  {
    assert s.last + 1 !in s.tasks;
  }

  lemma {:induction false} TopDescends(tasks: map<nat, Task>, p: nat)
    requires p in tasks && forall q :: q in tasks ==> tasks[q].ppid < q
    ensures Top(tasks, p) < p
    decreases |tasks|
  {
    var q, rest := tasks[p].ppid, tasks - {p};
    assert tasks.Keys == rest.Keys + {p};
    if q in rest { TopDescends(rest, q); }
  }

  /** Before the wrap every birth is safe. */
  lemma UnwrappedIsSafe(s: State, op: Op)
    requires Inv(s) && Unwrapped(s) && (op.Fork? || op.Spawn? ==> s.last < PID_MAX - 1) && (op.Spawn? ==> !op.mem.pwait)
    ensures Safe(s, op)
  {
    if op.Fork? || op.Spawn? {
      UnwrappedNext(s);
      TopDescends(s.tasks, s.cur.value);
    }
  }

  lemma ScheduleLow(s: State)
    requires Unwrapped(s) && Schedule(s).Go?
    ensures Unwrapped(Schedule(s).state) && Schedule(s).state.last == s.last
  {
  }

  lemma CreateLow(s: State, failure: Failure, word: Record, mem: Record)
    requires HasCurrent(s) && Unwrapped(s) && NextPid(s.tasks.Keys, s.last) == Some(s.last + 1)
    ensures Unwrapped(AfterCreate(s, failure, word, mem)) && AfterCreate(s, failure, word, mem).last <= s.last + 1
  {
  }

  lemma CreateStays(s: State, op: Op)
    requires Inv(s) && Unwrapped(s) && (op.Fork? || op.Spawn?) && s.last < PID_MAX - 1 && Step(s, op).Go?
    ensures Unwrapped(Step(s, op).state) && Step(s, op).state.last <= s.last + 1
  {
    UnwrappedNext(s);
    var t := if !Available(s, op.mem) then s
             else if op.Fork? then AfterCreate(s, op.failure, CLEAR, op.mem)
             else AfterCreate(s, NoFailure, op.mem, op.mem);
    CreateLow(s, if op.Fork? then op.failure else NoFailure, if op.Fork? then CLEAR else op.mem, op.mem);
    ScheduleLow(t);
  }

  lemma OtherStays(s: State, op: Op)
    requires HasCurrent(s) && Unwrapped(s) && !op.Fork? && !op.Spawn? && Step(s, op).Go?
    ensures Unwrapped(Step(s, op).state) && Step(s, op).state.last == s.last
  {
    match op
    case Idle => ScheduleLow(s);
    case Tick => ScheduleLow(AfterTick(s));
    case Wait(pid) => ScheduleLow(AfterWait(s, pid));
    case Exit => ScheduleLow(AfterExit(s).value);
  }

  lemma {:induction false} UnwrappedRun(s: State, ops: seq<Op>)
    requires Inv(s) && Unwrapped(s) && Clean(ops) && s.last + Births(ops) < PID_MAX
    ensures SafeRun(s, ops)
    ensures Run(s, ops).Go? ==> Unwrapped(Run(s, ops).state)
    decreases |ops|
  {
    if ops != [] {
      UnwrappedIsSafe(s, ops[0]);
      StepKeeps(s, ops[0]);
      if Step(s, ops[0]).Go? {
        if ops[0].Fork? || ops[0].Spawn? { CreateStays(s, ops[0]); } else { OtherStays(s, ops[0]); }
        UnwrappedRun(Step(s, ops[0]).state, ops[1..]);
      }
    }
  }

  /** Deadlock freedom: in every run from boot that takes fewer than all pids and no stale record, the
      kernel goes on until the last task has exited. At every boundary the invariant holds, and every
      blocked task waits for a live child with a larger pid. */
  lemma DeadlockFreedom(ops: seq<Op>)
    requires Clean(ops) && Births(ops) < PID_MAX
    ensures var n := Run(BOOT, ops);
            && (n.Go? || (n.Panic? && n.state.tasks == map[]))
            && (n.Go? ==> Inv(n.state) && forall p :: p in n.state.tasks && n.state.tasks[p].status == Blocked ==>
                  exists c :: c > p && WaitedOn(n.state.tasks, p, c))
  {
    BootInv();
    UnwrappedRun(BOOT, ops);
    RunKeeps(BOOT, ops);
    var n := Run(BOOT, ops);
    if n.Go? {
      forall p | p in n.state.tasks && n.state.tasks[p].status == Blocked
        ensures exists c :: c > p && WaitedOn(n.state.tasks, p, c)
      {
        var c :| WaitedOn(n.state.tasks, p, c);
        assert c > p;
      }
    }
  }

  /** The bound on waiting for the CPU, for every such run */
  lemma RoundRobinBound(s: State, ops: seq<Op>, i: nat)
    requires Inv(s) && Unwrapped(s) && Clean(ops) && s.last + Births(ops) < PID_MAX
    requires i < |s.queue| && Ticks(ops) >= 3 * i
    ensures exists k :: RunsAfter(s, ops, k, s.queue[i])
  {
    UnwrappedRun(s, ops);
    SafeRoundRobin(s, ops, i);
  }

  // --- Where the protocol breaks ---

  /** A spawned task keeps the invariant exactly when its pid closes no cycle of parents and its
      `pwait` word is clear. Fork clears the word; execve leaves what the memory held. */
  lemma BirthKeepsIff(s: State, mem: Record)
    requires Inv(s) && NextPid(s.tasks.Keys, s.last).Some? && Available(s, mem)
    ensures Step(s, Spawn(mem)).Go?
    ensures Inv(Step(s, Spawn(mem)).state) <==> Rooted(s) && !mem.pwait
  {
    SpawnIs(s, mem);
    if Rooted(s) && !mem.pwait { CreateSteps(s, NoFailure, mem, mem); } else { BirthBreaks(s, mem); }
  }

  lemma SpawnIs(s: State, mem: Record)
    requires HasCurrent(s) && NextPid(s.tasks.Keys, s.last).Some? && Available(s, mem)
    ensures Step(s, Spawn(mem)) == Schedule(AfterCreate(s, NoFailure, mem, mem))
  {
  }

  lemma ScheduleShape(t: State)
    requires t.queue != []
    ensures Schedule(t).Go? && SameShape(t.tasks, Schedule(t).state.tasks)
  {
  }

  lemma Born(s: State, mem: Record, pid: nat)
    requires Inv(s) && NextPid(s.tasks.Keys, s.last) == Some(pid)
    ensures var t := AfterCreate(s, NoFailure, mem, mem);
            && t.queue != [] && t.tasks == s.tasks[pid := Task(s.cur.value, Running, 3, mem.resched, mem.pwait)]
            && pid !in s.tasks && s.cur.value in s.tasks && s.tasks[s.cur.value].status == Running
  {
  }

  lemma BirthBreaks(s: State, mem: Record)
    requires Inv(s) && NextPid(s.tasks.Keys, s.last).Some? && (Rooted(s) ==> mem.pwait)
    ensures var n := Schedule(AfterCreate(s, NoFailure, mem, mem));
            n.Go? && !Inv(n.state)
  {
    var pid := NextPid(s.tasks.Keys, s.last).value;
    var t := AfterCreate(s, NoFailure, mem, mem);
    Born(s, mem, pid);
    ScheduleShape(t);
    if mem.pwait {
      RunningParent(Schedule(t).state.tasks, pid, s.cur.value);
    } else {
      NewCycle(s.tasks, s.cur.value, pid, t.tasks[pid], Schedule(t).state.tasks);
    }
  }

  lemma RunningParent(tasks: map<nat, Task>, c: nat, p: nat)
    requires c in tasks && p in tasks && tasks[c].pwait && tasks[c].ppid == p && tasks[p].status == Running
    ensures !Waits(tasks)
  {
  }

  lemma NewCycle(tasks: map<nat, Task>, cur: nat, pid: nat, t: Task, tasks': map<nat, Task>)
    requires Forest(tasks) && cur in tasks && pid !in tasks && t.ppid == cur && Top(tasks, cur) == pid
    requires SameShape(tasks[pid := t], tasks')
    ensures !Forest(tasks')
  {
    BirthForestIff(tasks, cur, pid, t);
    if Forest(tasks') { WithinForest(tasks', tasks[pid := t]); }
  }
}
