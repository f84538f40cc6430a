/** Whole runs of all tasks on one memory, against the eager semantics. */
module Runs {
  import opened PageFrames
  import opened Paging
  import opened Spaces
  import opened Eager
  import opened Budget
  import opened Conservation
  import opened Processes
  import opened Program
  import opened Spawn

  datatype Op =
    | ForkOp(m: nat, c: nat, pid: bool, answers: seq<Answer>)
    | StoreOp(k: Key, off: Offset, b: Byte)
    | LoadOp(k: Key, off: Offset)
    | ExitOp(m: nat)
    | KfreeOp(given: set<nat>)
    | SpawnOp(c: nat, segs: seq<Segment>, pid: bool, answers: seq<Answer>)

  /** What an operation came to. `Skipped`: it cannot happen now, because its task does not exist,
      say. `Refused`: a fork failed. `Orphaned`: it failed in `copy_files`. `Killed`: a fault that
      could not be served. `Panicked`: a program could not be loaded, and the kernel stopped. */
  datatype Out = Skipped | Done | Value(b: Byte) | Refused | Orphaned | Killed | Panicked

  function Reported(r: ForkResult): Out {
    match r
    case Child => Done
    case NoMemory => Refused
    case NoFiles => Orphaned
  }

  /** The same operation on memory that every task owns. */
  ghost function Next(e: Memory, op: Op, out: Out): Memory {
    match op
    case ForkOp(m, c, _, _) => if out.Done? then AfterFork(e, m, c) else e
    case StoreOp(k, off, b) =>
      if out.Done? then AfterStore(e, k, off, b) else if out.Killed? then AfterExit(e, k.mm) else e
    case LoadOp(k, _) => if out.Killed? then AfterExit(e, k.mm) else e
    case ExitOp(m) => if out.Done? then AfterExit(e, m) else e
    case KfreeOp(_) => e
    case SpawnOp(c, segs, _, _) => if out.Done? then AfterSpawn(e, c, segs) else e
  }

  /** A value read is the value its reader would find in memory of its own; a byte is stored only to a
      page that is there. */
  ghost predicate Sees(e: Memory, op: Op, out: Out) {
    && (op.LoadOp? && out.Value? ==> op.k in e && out.b == e[op.k][op.off])
    && (op.StoreOp? && out.Done? ==> op.k in e)
  }

  /** What each operation has to come to in state `s`: a store or load is served exactly when its page
      is in an area and enough frames are free, else its task is killed; a fork and a program start
      succeed exactly when the answers of `kmalloc` and the free frames allow; only what cannot happen
      is skipped. */
  ghost predicate Due(s: State, was: set<nat>, op: Op, out: Out) {
    match op
    case ForkOp(m, c, pid, answers) =>
      out == if m in was && c !in s.mms then Reported(ForkOutcome(s, m, pid, answers)) else Skipped
    case StoreOp(k, _, _) =>
      if k.mm !in was then out.Skipped?
      else if Visible(s.mms, was, k) && |s.free| >= StoreNeed(s, k) then out.Done? else out.Killed?
    case LoadOp(k, _) =>
      if k.mm !in was then out.Skipped?
      else if Visible(s.mms, was, k) && |s.free| >= LoadNeed(s, k) then out.Value? else out.Killed?
    case ExitOp(m) => if m in was then out.Done? else out.Skipped?
    case KfreeOp(given) => if given <= s.pool.slab then out.Done? else out.Skipped?
    case SpawnOp(c, segs, pid, answers) =>
      if c in s.mms then out.Skipped? else if Starts(s, segs, pid, answers) then out.Done? else out.Panicked?
  }

  /** The tasks that live after an operation */
  ghost function Alive(was: set<nat>, op: Op, out: Out): set<nat> {
    match op
    case ForkOp(_, c, _, _) => if out.Done? then was + {c} else was
    case StoreOp(k, _, _) => if out.Killed? then was - {k.mm} else was
    case LoadOp(k, _) => if out.Killed? then was - {k.mm} else was
    case ExitOp(m) => if out.Done? then was - {m} else was
    case KfreeOp(_) => was
    case SpawnOp(c, _, _, _) => if out.Done? then was + {c} else was
  }

  /** The frames after an operation: an access takes what it needs, a fork and a program start what their
      bills say, and an exit gives back what its address space alone held. */
  ghost predicate Balanced(s: State, t: State, op: Op, out: Out) {
    match op
    case ForkOp(m, _, pid, answers) =>
      if out.Skipped? then t == s
      else exists got :: ForkTook(s, t, m, pid, answers, ForkOutcome(s, m, pid, answers), got)
    case StoreOp(k, _, _) =>
      if out.Skipped? then t == s
      else if out.Killed? then Freed(s, t, k.mm)
      else t.pool == s.pool && |t.free| == |s.free| - StoreNeed(s, k)
    case LoadOp(k, _) =>
      if out.Skipped? then t == s
      else if out.Killed? then Freed(s, t, k.mm)
      else t.pool == s.pool && |t.free| == |s.free| - LoadNeed(s, k)
    case ExitOp(m) => if out.Skipped? then t == s else Freed(s, t, m)
    case KfreeOp(given) =>
      if out.Skipped? then t == s
      else t.pool == Pool(s.pool.frames, s.pool.slab - given) && t.free == s.free + given
    case SpawnOp(_, segs, _, answers) =>
      if out.Skipped? then t == s
      else Spent(SupplyOf(t), SpawnFrames(segs), answers, 6 + |segs|, SupplyOf(s))
  }

  /** The operation kept the invariant, did to every task's view of memory what it does on memory that
      every task owns, and left the frames that it should. */
  ghost predicate Stepped(s: State, was: set<nat>, t: State, live: set<nat>, op: Op, out: Out) {
    && Valid(t, live) && t.pool.frames == s.pool.frames && live == Alive(was, op, out)
    && Image(t, live) == Next(Image(s, was), op, out) && Sees(Image(s, was), op, out)
    && (out.Orphaned? ==> op.ForkOp? && t.mms.Keys - live == s.mms.Keys - was + {op.c})
    && (!out.Orphaned? ==> t.mms.Keys - live == s.mms.Keys - was)
    && (op.StoreOp? && out.Done? ==> op.k in t.pte)
    && Balanced(s, t, op, out)
  }

  lemma KilledStep(s: State, was: set<nat>, t: State, live: set<nat>, op: Op)
    requires (op.StoreOp? || op.LoadOp?) && op.k.mm in was && Valid(t, live) && Freed(s, t, op.k.mm)
    requires live == was - {op.k.mm} && t.mms.Keys == s.mms.Keys - {op.k.mm}
    requires Image(t, live) == AfterExit(Image(s, was), op.k.mm)
    ensures Stepped(s, was, t, live, op, Killed)
  {
  }

  lemma LoadedStep(s: State, was: set<nat>, t: State, op: Op, b: Byte)
    requires op.LoadOp? && Valid(t, was) && t.pool == s.pool && t.mms == s.mms
    requires Image(t, was) == Image(s, was) && |t.free| == |s.free| - LoadNeed(s, op.k)
    requires op.k in Image(t, was) && b == Image(t, was)[op.k][op.off]
    ensures Stepped(s, was, t, was, op, Value(b))
  {
  }

  lemma StoredStep(s: State, was: set<nat>, t: State, op: Op)
    requires op.StoreOp? && Valid(t, was) && t.pool == s.pool && t.mms == s.mms && op.k in t.pte
    requires op.k in Image(s, was) && Image(t, was) == AfterStore(Image(s, was), op.k, op.off, op.b)
    requires |t.free| == |s.free| - StoreNeed(s, op.k)
    ensures Stepped(s, was, t, was, op, Done)
  {
  }

  method ForkStep(t: Tables, op: Op) returns (out: Out)
    requires Valid(t.S(), t.live) && op.ForkOp?
    modifies t
    ensures Due(old(t.S()), old(t.live), op, out)
    ensures Stepped(old(t.S()), old(t.live), t.S(), t.live, op, out)
  {
    if !(op.m in t.live && op.c !in t.mms) {
      return Skipped;
    }
    assert t.live <= t.mms.Keys;
    ghost var got;
    var r;
    r, got := DoFork(t, op.m, op.c, op.pid, op.answers);
    return Reported(r);
  }

  method StoreStep(t: Tables, op: Op) returns (out: Out)
    requires Valid(t.S(), t.live) && op.StoreOp?
    modifies t
    ensures Due(old(t.S()), old(t.live), op, out)
    ensures Stepped(old(t.S()), old(t.live), t.S(), t.live, op, out)
  {
    if op.k.mm !in t.live {
      return Skipped;
    }
    ghost var s, was := t.S(), t.live;
    var alive := Store(t, op.k, op.off, op.b);
    if alive {
      StoredStep(s, was, t.S(), op);
      return Done;
    }
    KilledStep(s, was, t.S(), t.live, op);
    return Killed;
  }

  method LoadStep(t: Tables, op: Op) returns (out: Out)
    requires Valid(t.S(), t.live) && op.LoadOp?
    modifies t
    ensures Due(old(t.S()), old(t.live), op, out)
    ensures Stepped(old(t.S()), old(t.live), t.S(), t.live, op, out)
  {
    if op.k.mm !in t.live {
      return Skipped;
    }
    ghost var s, was := t.S(), t.live;
    var alive, b := Load(t, op.k, op.off);
    if alive {
      LoadedStep(s, was, t.S(), op, b);
      return Value(b);
    }
    KilledStep(s, was, t.S(), t.live, op);
    return Killed;
  }

  method SpawnStep(t: Tables, op: Op) returns (out: Out)
    requires Valid(t.S(), t.live) && op.SpawnOp? && Loadable(op)
    modifies t
    ensures Due(old(t.S()), old(t.live), op, out)
    ensures out.Panicked? || Stepped(old(t.S()), old(t.live), t.S(), t.live, op, out)
  {
    if op.c in t.mms {
      return Skipped;
    }
    assert t.live <= t.mms.Keys;
    var ok := TaskCreate(t, op.c, op.segs, op.pid, op.answers);
    return if ok then Done else Panicked;
  }

  /** Every page of a program's segments is in its segment's area, below the scratch page. */
  ghost predicate Loadable(op: Op) {
    op.SpawnOp? ==> Fitting(op.segs)
  }

  /** One operation of one task */
  method Execute(t: Tables, op: Op) returns (out: Out)
    requires Valid(t.S(), t.live) && Loadable(op)
    modifies t
    ensures Due(old(t.S()), old(t.live), op, out)
    ensures out.Panicked? || Stepped(old(t.S()), old(t.live), t.S(), t.live, op, out)
  {
    match op
    case ForkOp(_, _, _, _) => out := ForkStep(t, op);
    case StoreOp(_, _, _) => out := StoreStep(t, op);
    case LoadOp(_, _) => out := LoadStep(t, op);
    case ExitOp(m) =>
      if m !in t.live {
        return Skipped;
      }
      Exit(t, m);
      return Done;
    case KfreeOp(given) =>
      if !(given <= t.pool.slab) {
        return Skipped;
      }
      Kfree(t, given);
      return Done;
    case SpawnOp(_, _, _, _) => out := SpawnStep(t, op);
  }

  /** The eager semantics of a run, given what each operation came to */
  ghost function After(e: Memory, ops: seq<Op>, outs: seq<Out>): Memory
    requires |outs| <= |ops|
  {
    var n := |outs| - 1;
    if n < 0 then e else Next(After(e, ops, outs[..n]), ops[n], outs[n])
  }

  ghost predicate AllSeen(e: Memory, ops: seq<Op>, outs: seq<Out>)
    requires |outs| <= |ops|
  {
    var n := |outs| - 1;
    n < 0 || (AllSeen(e, ops, outs[..n]) && Sees(After(e, ops, outs[..n]), ops[n], outs[n]))
  }

  lemma AfterNext(e: Memory, ops: seq<Op>, outs: seq<Out>, out: Out)
    requires |outs| < |ops|
    ensures After(e, ops, outs + [out]) == Next(After(e, ops, outs), ops[|outs|], out)
    ensures AllSeen(e, ops, outs + [out]) <==> AllSeen(e, ops, outs) && Sees(After(e, ops, outs), ops[|outs|], out)
  {
  }

  /** A state passed by a run, with its live tasks */
  datatype Snapshot = Snapshot(s: State, live: set<nat>)

  /** The operation led from one state to the next, with the outcome that was due. */
  ghost predicate Pass(was: Snapshot, now: Snapshot, op: Op, out: Out) {
    Due(was.s, was.live, op, out) && (out.Panicked? || Stepped(was.s, was.live, now.s, now.live, op, out))
  }

  ghost predicate PassAt(trace: seq<Snapshot>, ops: seq<Op>, outs: seq<Out>, i: nat)
    requires |trace| == |outs| + 1 && i < |outs| <= |ops|
  {
    Pass(trace[i], trace[i + 1], ops[i], outs[i])
  }

  ghost predicate Passes(trace: seq<Snapshot>, ops: seq<Op>, outs: seq<Out>) {
    && |trace| == |outs| + 1 && |outs| <= |ops|
    && forall i: nat :: i < |outs| ==> PassAt(trace, ops, outs, i)
  }

  lemma PassesNext(trace: seq<Snapshot>, ops: seq<Op>, outs: seq<Out>, out: Out, now: Snapshot)
    requires Passes(trace, ops, outs) && |outs| < |ops| && Pass(trace[|outs|], now, ops[|outs|], out)
    ensures Passes(trace + [now], ops, outs + [out])
  {
    var more, done := trace + [now], outs + [out];
    forall i: nat | i < |done| ensures PassAt(more, ops, done, i) {
      assert i < |outs| ==> PassAt(trace, ops, outs, i);
    }
  }

  /** The operation neither ends task `m` nor creates it. */
  ghost predicate Spares(op: Op, out: Out, m: nat) {
    match op
    case ForkOp(_, c, _, _) => out.Done? ==> c != m
    case StoreOp(k, _, _) => out.Killed? ==> k.mm != m
    case LoadOp(k, _) => out.Killed? ==> k.mm != m
    case ExitOp(x) => out.Done? ==> x != m
    case KfreeOp(_) => true
    case SpawnOp(c, _, _, _) => out.Done? ==> c != m
  }

  lemma NextKeeps(e: Memory, op: Op, out: Out, k: Key, off: Offset)
    requires k in e && Spares(op, out, k.mm) && (op.StoreOp? && out.Done? ==> (op.k, op.off) != (k, off))
    ensures k in Next(e, op, out) && Next(e, op, out)[k][off] == e[k][off]
  {
    if op.StoreOp? && out.Done? && op.k in e {
      StoreIsOneByte(e, op.k, op.off, op.b);
    }
  }

  lemma AfterOne(e: Memory, ops: seq<Op>, outs: seq<Out>, n: nat)
    requires n < |outs| <= |ops|
    ensures After(e, ops, outs[..n + 1]) == Next(After(e, ops, outs[..n]), ops[n], outs[n])
  {
    assert outs[..n + 1][..n] == outs[..n];
  }

  lemma {:induction false} SeenAt(e: Memory, ops: seq<Op>, outs: seq<Out>, n: nat)
    requires |outs| <= |ops| && AllSeen(e, ops, outs) && n < |outs|
    ensures Sees(After(e, ops, outs[..n]), ops[n], outs[n])
    decreases |outs|
  {
    var last := |outs| - 1;
    if n < last {
      SeenAt(e, ops, outs[..last], n);
      assert outs[..last][..n] == outs[..n];
    }
  }

  /** Between a store at step `i` and step `j`, no store to its place was served, and its task neither
      ended nor began. */
  ghost predicate Undisturbed(ops: seq<Op>, outs: seq<Out>, i: nat, j: nat)
    requires i < j <= |outs| <= |ops| && ops[i].StoreOp?
  {
    forall n :: i < n < j ==>
      && Spares(ops[n], outs[n], ops[i].k.mm)
      && (ops[n].StoreOp? && outs[n].Done? ==> (ops[n].k, ops[n].off) != (ops[i].k, ops[i].off))
  }

  lemma {:induction false} StoreLasts(e: Memory, ops: seq<Op>, outs: seq<Out>, i: nat, j: nat)
    requires i < j <= |outs| <= |ops| && AllSeen(e, ops, outs)
    requires ops[i].StoreOp? && outs[i].Done? && Undisturbed(ops, outs, i, j)
    ensures ops[i].k in After(e, ops, outs[..j]) && After(e, ops, outs[..j])[ops[i].k][ops[i].off] == ops[i].b
    decreases j
  {
    AfterOne(e, ops, outs, j - 1);
    if j == i + 1 {
      SeenAt(e, ops, outs, i);
      StoreIsOneByte(After(e, ops, outs[..i]), ops[i].k, ops[i].off, ops[i].b);
    } else {
      StoreLasts(e, ops, outs, i, j - 1);
      NextKeeps(After(e, ops, outs[..j - 1]), ops[j - 1], outs[j - 1], ops[i].k, ops[i].off);
    }
  }

  /** A load yields the byte that was stored last, whatever forks, exits, faults and stores of other tasks
      and to other places lie between. Every run is of this kind: see `Run`. */
  lemma LoadYieldsLastStore(e: Memory, ops: seq<Op>, outs: seq<Out>, i: nat, j: nat)
    requires i < j < |outs| <= |ops| && AllSeen(e, ops, outs)
    requires ops[i].StoreOp? && outs[i].Done? && Undisturbed(ops, outs, i, j)
    requires ops[j] == LoadOp(ops[i].k, ops[i].off) && outs[j].Value?
    ensures outs[j].b == ops[i].b
  {
    StoreLasts(e, ops, outs, i, j);
    SeenAt(e, ops, outs, j);
  }

  /** In every run, a load right after a store to its place is served, with the byte that was stored. */
  lemma LoadAfterStore(trace: seq<Snapshot>, ops: seq<Op>, outs: seq<Out>, i: nat)
    requires Passes(trace, ops, outs) && i + 1 < |outs| && ops[i].StoreOp? && outs[i].Done?
    requires ops[i + 1] == LoadOp(ops[i].k, ops[i].off)
    ensures outs[i + 1] == Value(ops[i].b)
  {
    assert PassAt(trace, ops, outs, i) && PassAt(trace, ops, outs, i + 1);
    var e := Image(trace[i].s, trace[i].live);
    StoreIsOneByte(e, ops[i].k, ops[i].off, ops[i].b);
    assert ops[i].k in Image(trace[i + 1].s, trace[i + 1].live);
  }

  /** In every run, right after a fork the child sees in each of its pages what its parent saw there, and
      nobody else sees a change. */
  lemma ChildInherits(trace: seq<Snapshot>, ops: seq<Op>, outs: seq<Out>, i: nat, k: Key)
    requires Passes(trace, ops, outs) && i < |outs| && ops[i].ForkOp? && outs[i].Done?
    ensures var e, f := Image(trace[i].s, trace[i].live), Image(trace[i + 1].s, trace[i + 1].live);
            var j := if k.mm == ops[i].c then Key(ops[i].m, k.index) else k;
            (k in f <==> j in e) && (j in e ==> f[k] == e[j])
  {
    assert PassAt(trace, ops, outs, i);
  }

  /** What a run has come to, short of a panic: the eager semantics of its operations */
  ghost predicate Reached(now: Snapshot, e: Memory, frames: set<nat>, ops: seq<Op>, outs: seq<Out>) {
    && |outs| <= |ops| && Panicked !in outs && Valid(now.s, now.live) && now.s.pool.frames == frames
    && Image(now.s, now.live) == After(e, ops, outs)
    && (now.s.mms.Keys - now.live == {} <==> Orphaned !in outs)
  }

  lemma ReachedNext(was: Snapshot, now: Snapshot, e: Memory, frames: set<nat>, ops: seq<Op>, outs: seq<Out>, out: Out)
    requires Reached(was, e, frames, ops, outs) && |outs| < |ops|
    requires Stepped(was.s, was.live, now.s, now.live, ops[|outs|], out) && !out.Panicked?
    ensures Reached(now, e, frames, ops, outs + [out])
  {
    AfterNext(e, ops, outs, out);
  }

  /** The next operation of a run */
  method Advance(t: Tables, ops: seq<Op>, outs: seq<Out>, ghost e: Memory, ghost frames: set<nat>,
                 ghost trace: seq<Snapshot>)
    returns (out: Out)
    requires |outs| < |ops| && Loadable(ops[|outs|]) && Reached(Snapshot(t.S(), t.live), e, frames, ops, outs)
    requires AllSeen(e, ops, outs) && Passes(trace, ops, outs) && trace[|outs|] == Snapshot(t.S(), t.live)
    modifies t
    ensures !out.Panicked? ==> Reached(Snapshot(t.S(), t.live), e, frames, ops, outs + [out])
    ensures AllSeen(e, ops, outs + [out]) && Passes(trace + [Snapshot(t.S(), t.live)], ops, outs + [out])
  {
    ghost var was := Snapshot(t.S(), t.live);
    out := Execute(t, ops[|outs|]);
    ghost var now := Snapshot(t.S(), t.live);
    AfterNext(e, ops, outs, out);
    PassesNext(trace, ops, outs, out, now);
    if !out.Panicked? { ReachedNext(was, now, e, frames, ops, outs, out); }
  }

  /** A run stops at its first panic and not before. */
  ghost predicate Stops(ops: seq<Op>, outs: seq<Out>) {
    && |outs| <= |ops| && (|outs| < |ops| ==> outs != [] && outs[|outs| - 1].Panicked?)
    && forall i :: 0 <= i < |outs| - 1 ==> !outs[i].Panicked?
  }

  /** Copy-on-write refines eager copying: over every run of forks, stores, loads, exits and program
      starts, with all the faults they cause, each task reads what it would read if fork had copied
      all memory at once, and is killed only when it must be. Every frame stays accounted for, and no
      address space outlives its task unless a fork failed in `copy_files`. */
  method Run(t: Tables, ops: seq<Op>) returns (outs: seq<Out>, ghost trace: seq<Snapshot>)
    requires Valid(t.S(), t.live) && t.mms.Keys == t.live
    requires forall i :: 0 <= i < |ops| ==> Loadable(ops[i])
    modifies t
    ensures Stops(ops, outs) && Passes(trace, ops, outs) && trace[0] == Snapshot(old(t.S()), old(t.live))
    ensures trace[|outs|] == Snapshot(t.S(), t.live)
    ensures AllSeen(old(Image(t.S(), t.live)), ops, outs)
    ensures Panicked !in outs ==> Valid(t.S(), t.live) && t.pool.frames == old(t.pool.frames)
    ensures Panicked !in outs ==> Image(t.S(), t.live) == After(old(Image(t.S(), t.live)), ops, outs)
    ensures Panicked !in outs ==> (t.mms.Keys - t.live == {} <==> Orphaned !in outs)
  {
    ghost var e, frames := Image(t.S(), t.live), t.pool.frames;
    outs, trace := [], [Snapshot(t.S(), t.live)];
    for i := 0 to |ops|
      invariant |outs| == i && Reached(Snapshot(t.S(), t.live), e, frames, ops, outs) && AllSeen(e, ops, outs)
      invariant Passes(trace, ops, outs) && trace[0] == Snapshot(old(t.S()), old(t.live))
      invariant trace[i] == Snapshot(t.S(), t.live)
    {
      var out := Advance(t, ops, outs, e, frames, trace);
      outs, trace := outs + [out], trace + [Snapshot(t.S(), t.live)];
      if out.Panicked? {
        assert outs[i] == Panicked;
        return;
      }
    }
  }

  /** The same from boot, when all frames are free and no task exists */
  method RunFromBoot(frames: set<nat>, ops: seq<Op>) returns (t: Tables, outs: seq<Out>, ghost trace: seq<Snapshot>)
    requires forall i :: 0 <= i < |ops| ==> Loadable(ops[i])
    ensures Stops(ops, outs) && Passes(trace, ops, outs) && trace[|outs|] == Snapshot(t.S(), t.live)
    ensures trace[0].live == {} && trace[0].s.mms == map[] && trace[0].s.free == frames
    ensures trace[0].s.pool == Pool(frames, {}) && Valid(trace[0].s, {})
    ensures AllSeen(imap[], ops, outs)
    ensures Panicked !in outs ==> Valid(t.S(), t.live) && t.pool.frames == frames
    ensures Panicked !in outs ==> Image(t.S(), t.live) == After(imap[], ops, outs)
    ensures Panicked !in outs ==> (t.mms.Keys - t.live == {} <==> Orphaned !in outs)
  {
    t := Boot(frames);
    assert Image(t.S(), t.live) == imap[];
    outs, trace := Run(t, ops);
  }
}
