/** The scheduler, wait and exit as the kernel executes them, proved against the step
    functions of `Sched`. */
module Kernel {
  import opened Wrappers
  import opened Pidmap
  import opened Sched

  const EINVAL: int := 22
  const EBADP: int := 35

  /** How a trap ends: back in a task, in the empty-queue panic, at a NULL parent, in an assert, or with a
      task linked into the run queue twice */
  datatype Ending = Fine | Panicked | Crashed | Stopped | Relinked(queue: seq<nat>, entry: nat)

  ghost function Ended(r: Ending, s: State): Next {
    match r
    case Fine => Go(s)
    case Panicked => Panic(s)
    case Crashed => Crash
    case Stopped => Stop
    case Relinked(queue, entry) => Relink(queue, entry)
  }

  class Tasks {
    /** `task_pidmap` and its task records */
    var tasks: map<nat, Task>
    /** the run queue, head first */
    var queue: seq<nat>
    /** `curtask` */
    var cur: Option<nat>
    /** what the memory of freed task records still holds */
    ghost var freed: multiset<Record>
    const pidmap: PidmapStruct

    ghost function V(): State
      reads this, pidmap
    {
      State(tasks, queue, cur, pidmap.lastPid, freed)
    }

    /** The pid bitmap records exactly the live tasks. */
    ghost predicate Valid()
      reads this, pidmap, pidmap.bits
    {
      pidmap.Valid() && pidmap.Used() == tasks.Keys
    }

    /** Boot: the first task is created with no parent. */
    constructor ()
      ensures Valid() && Inv(V()) && V() == BOOT
    {
      tasks, queue, cur, freed := map[], [], None, multiset{};
      pidmap := new PidmapStruct();
      new;
      assert FirstUnused({}, 0) == Some(0);
      var pid := pidmap.Alloc();
      tasks := map[pid := Task(-1, Running, 3, false, false)];
      queue := [pid];
      cur := Some(pid);
      BootInv();
    }

    /** `schedule_tick` */
    method ScheduleTick()
      requires HasCurrent(V())
      modifies this
      ensures V() == AfterTick(old(V()))
    {
      var c := cur.value;
      tasks := tasks[c := tasks[c].(slice := tasks[c].slice - 1)];
      if tasks[c].slice <= 0 {
        tasks := tasks[c := tasks[c].(resched := true)];
        tasks := tasks[c := tasks[c].(slice := 3)];
        queue := Without(queue, c);
        queue := queue + [c];
      }
    }

    /** `schedule` with `get_next` */
    method DoSchedule() returns (panicked: bool)
      modifies this
      ensures panicked <==> Schedule(old(V())).Panic?
      ensures Schedule(old(V())) == if panicked then Panic(V()) else Go(V())
    {
      if cur.Some? && cur.value in tasks && tasks[cur.value].status == Running && !tasks[cur.value].resched {
        return false;
      }
      if cur.Some? && cur.value in tasks {
        tasks := tasks[cur.value := tasks[cur.value].(resched := false)];
      }
      if queue == [] {
        return true;
      }
      cur := Some(queue[0]);
      return false;
    }

    /** `wait`, up to its call of `schedule` */
    method DoWait(pid: int) returns (r: int)
      requires HasCurrent(V())
      modifies this
      ensures V() == AfterWait(old(V()), pid)
      ensures r == 0 <==> 0 <= pid <= 0x8000 && pid in old(tasks) && old(tasks)[pid].ppid == old(cur.value)
      ensures r == 0 ==> pid in tasks && tasks[pid].pwait && cur == old(cur) && tasks[cur.value].status == Blocked
      ensures r == -22 <==> pid < 0 || pid > 0x8000
      ensures r == 0 || r == -22 || r == -35
    {
      if pid > PID_MAX || pid < 0 {
        return -EINVAL;
      }
      if pid !in tasks || tasks[pid].ppid != cur.value {
        return -EBADP;
      }
      var c := cur.value;
      tasks := tasks[pid := tasks[pid].(pwait := true)];
      tasks := tasks[c := tasks[c].(status := Blocked)];
      queue := Without(queue, c);
      return 0;
    }

    /** Task creation by `do_fork`, which clears the record, or `task_create`, which does not, in the
        memory `mem` that `kmalloc` returned: -1 when no task results. */
    method Create(failure: Failure, word: Record, ghost mem: Record) returns (r: int)
      requires Valid() && HasCurrent(V())
      modifies this, pidmap, pidmap.bits
      ensures Valid() && V() == AfterCreate(old(V()), failure, word, mem)
      ensures r >= 0 ==> r in tasks && r !in old(tasks) && r == queue[|queue| - 1]
      ensures r < 0 ==> tasks == old(tasks) && queue == old(queue)
      // the memory of the record is in use, or cleared and free again
      ensures failure == BeforePid ==> freed == old(freed)
      ensures r >= 0 ==> freed == old(freed) - multiset{mem}
      ensures failure == AfterPid && pidmap.lastPid != old(pidmap.lastPid) ==>
                freed == old(freed) - multiset{mem} + multiset{Record(false, false)}
      ensures failure == NoFailure ==> (r < 0 <==> NextPid(old(tasks.Keys), old(pidmap.lastPid)).None?)
    {
      if failure == BeforePid {
        return -1;
      }
      freed := freed - multiset{mem};
      var pid := pidmap.Alloc();
      if pid < 0 {
        return -1;
      }
      if failure == AfterPid {
        GiveUp(pid);
        return -1;
      }
      Launch(pid, word);
      return pid;
    }

    /** A failure after `alloc_pidmap`: the number and the cleared record go back. */
    method GiveUp(pid: nat)
      requires pidmap.Valid() && pid !in tasks && pidmap.Used() == tasks.Keys + {pid} && pid < PID_MAX
      modifies this, pidmap, pidmap.bits
      ensures Valid() && tasks == old(tasks) && queue == old(queue) && cur == old(cur)
      ensures pidmap.lastPid == old(pidmap.lastPid) && freed == old(freed) + multiset{CLEAR}
    {
      pidmap.Free(pid);
      freed := freed + multiset{CLEAR};
      assert old(tasks.Keys) + {pid} - {pid} == tasks.Keys;
    }

    /** `task_pidmap[pid] = task` and `schedule_add_task` */
    method Launch(pid: nat, word: Record)
      requires pidmap.Valid() && pidmap.Used() == tasks.Keys + {pid} && cur.Some?
      modifies this
      ensures Valid() && queue == old(queue) + [pid] && cur == old(cur) && freed == old(freed)
      ensures tasks == old(tasks)[pid := Task(cur.value, Running, 3, word.resched, word.pwait)]
    {
      tasks := tasks[pid := Task(cur.value, Running, 3, word.resched, word.pwait)];
      queue := queue + [pid];
    }

    /** `exit` of the current task, up to its call of `schedule`, unless `exit_notify` follows a NULL
        parent or queues one that is queued. */
    method DoExit() returns (r: Ending)
      requires Valid() && HasCurrent(V())
      modifies this, pidmap, pidmap.bits
      ensures r == Fine ==> Valid() && AfterExit(old(V())) == Some(V()) && !Requeues(old(V()))
      ensures r != Fine ==> Step(old(V()), Exit) == Ended(r, V()) && r != Panicked
    {
      var c := cur.value;
      var t := tasks[c];
      queue := Without(queue, c);
      if t.pwait {
        if t.ppid < 0 || t.ppid !in tasks {
          return Crashed;
        }
        if t.ppid in queue {
          return Relinked(queue, t.ppid);
        }
        tasks := tasks[t.ppid := tasks[t.ppid].(status := Running)];
        queue := queue + [t.ppid];
      }
      Bury(c, t);
      return Fine;
    }

    /** The record and the number of the exiting task are given back. */
    method Bury(c: nat, t: Task)
      requires Valid() && c in tasks && c < PID_MAX
      modifies this, pidmap, pidmap.bits
      ensures Valid() && tasks == old(tasks) - {c} && queue == old(queue) && cur == None
      ensures freed == old(freed) + multiset{Record(t.pwait, t.resched)} && pidmap.lastPid == old(pidmap.lastPid)
    {
      tasks := tasks - {c};
      pidmap.Free(c);
      freed := freed + multiset{Record(t.pwait, t.resched)};
      cur := None;
    }

    /** Creation of a child by execve; false if `task_create` asserts for want of a pid. */
    method DoSpawn(mem: Record) returns (alive: bool)
      requires Valid() && HasCurrent(V())
      modifies this, pidmap, pidmap.bits
      ensures Valid() && V() == AfterCreate(old(V()), NoFailure, mem, mem)
      ensures alive <==> NextPid(old(tasks.Keys), old(pidmap.lastPid)).Some?
    {
      var r := Create(NoFailure, mem, mem);
      alive := r >= 0;
    }

    /** The handler of a trap. A creation happens in memory that `kmalloc` can return. */
    method Dispatch(op: Op) returns (r: Ending)
      requires Valid() && HasCurrent(V())
      requires op.Fork? || op.Spawn? ==> Available(V(), op.mem)
      modifies this, pidmap, pidmap.bits
      ensures r != Panicked
      ensures if r == Fine then Valid() && Step(old(V()), op) == Schedule(V()) else Step(old(V()), op) == Ended(r, V())
    {
      r := Fine;
      match op {
        case Idle =>
        case Tick => ScheduleTick();
        case Fork(f, mem) => var _ := Create(f, CLEAR, mem);
        case Spawn(mem) =>
          var alive := DoSpawn(mem);
          r := if alive then Fine else Stopped;
        case Wait(pid) => var _ := DoWait(pid);
        case Exit =>
          r := DoExit();
      }
    }

    /** One trap: the handler, then `schedule` */
    method Trap(op: Op) returns (r: Ending)
      requires Valid() && HasCurrent(V())
      requires op.Fork? || op.Spawn? ==> Available(V(), op.mem)
      modifies this, pidmap, pidmap.bits
      ensures Step(old(V()), op) == Ended(r, V())
      ensures r == Fine || r == Panicked ==> Valid()
    {
      r := Dispatch(op);
      if r == Fine {
        var panicked := DoSchedule();
        if panicked {
          r := Panicked;
        }
      }
    }

    /** A trap from a state of the invariant: it stays, and the empty-queue panic comes only
        with the exit of the last task. */
    method SafeTrap(op: Op) returns (panicked: bool)
      requires Valid() && Inv(V()) && Safe(V(), op)
      requires op.Fork? || op.Spawn? ==> Available(V(), op.mem)
      modifies this, pidmap, pidmap.bits
      ensures Valid()
      ensures panicked <==> op.Exit? && old(tasks.Keys) == {old(queue[0])}
      ensures if panicked then tasks == map[] else Inv(V())
    {
      StepKeeps(V(), op);
      var r := Trap(op);
      panicked := r == Panicked;
    }
  }
}
