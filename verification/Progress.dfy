/** Where threads resume, how long they wait, and what becomes of their memory, in every run. */
module Progress {
  import opened CpuSched
  import opened Aging
  import opened Kernel
  import opened Boot
  import opened Theorems
  import H = HeapSpec

  // ---------- every thread resumes where it left off ----------

  /** All structures with that tid hold that stack pointer. */
  ghost predicate Tracks(s: Sys, tid: nat, rsp: nat) {
    forall x :: x in s.table && s.table[x].tid == tid ==> s.table[x].rsp == rsp
  }

  /** What one step says about where the thread with that tid left off: a reschedule of the CPU it
      runs on, or its own spawn; otherwise `rsp` still stands. */
  ghost function SavedBy(s: Sys, step: Step, tid: nat, rsp: nat): nat
    requires Enabled(s, step)
  {
    match step
    case Resched(c, r, _, _) => if Get(s.table, s.cpus[c].current).tid == tid then r else rsp
    case SchedInit(_) => if s.nextTid == tid then 0 else rsp
    case SpawnBegin(user, _) =>
      if s.nextTid == tid then Carve(s.heap, user).value.2 + 8016 else rsp
    case _ => rsp
  }

  /** The stack pointer with which the thread last entered sched_reschedule, or that of its spawn
      frame, read off the run alone. */
  ghost function LastSaved(s: Sys, steps: seq<Step>, tid: nat, rsp: nat): nat
    requires ValidRun(s, steps)
    decreases |steps|
  {
    if steps == [] then rsp else LastSaved(Next(s, steps[0]), steps[1..], tid, SavedBy(s, steps[0], tid, rsp))
  }

  lemma TrackStep(s: Sys, step: Step, tid: nat, rsp: nat)
    requires KernelInv(s) && Enabled(s, step) && Tracks(s, tid, rsp)
    ensures Tracks(Next(s, step), tid, SavedBy(s, step, tid, rsp))
  {
    var z := Next(s, step);
    forall x | x in z.table && z.table[x].tid == tid ensures z.table[x].rsp == SavedBy(s, step, tid, rsp) {
      assert ThreadOk(s, x);
      match step {
        case CpuInit =>
        case SchedInit(d) => StartFresh(s, d);
        case SpawnBegin(user, priority) => SpawnMem(s, user, priority);
        case SpawnEnd(y) => assert ThreadOk(s, y);
        case Resched(c, r, wakeTick, ageTick) =>
          ReschedViews(s, c, r, wakeTick, ageTick);
          ReschedThread(s, c, r, wakeTick, ageTick, x);
          assert SameTid(s, x, s.cpus[c].current);
        case Sleep(c, ms, tick) => assert CpuOk(s, c);
        case Exit(c) => assert CpuOk(s, c);
        case Take(dest, c, y) =>
        case Put(y) => assert ThreadOk(s, y);
        case OtherMalloc(n) =>
        case OtherFree(p) =>
      }
    }
  }

  /** In every run the saved stack pointer of a thread is the one of its last reschedule, or its
      spawn frame. So the value a reschedule returns, the saved pointer of the thread it leaves
      running, is where that thread left off. */
  lemma {:induction false} ResumesWhereItStopped(s: Sys, steps: seq<Step>, tid: nat, rsp: nat)
    requires KernelInv(s) && ValidRun(s, steps) && Tracks(s, tid, rsp)
    ensures Tracks(Exec(s, steps), tid, LastSaved(s, steps, tid, rsp))
    decreases |steps|
  {
    if steps != [] {
      TrackStep(s, steps[0], tid, rsp);
      NextInv(s, steps[0]);
      ResumesWhereItStopped(Next(s, steps[0]), steps[1..], tid, SavedBy(s, steps[0], tid, rsp));
    }
  }

  // ---------- no starvation ----------

  /** x waits on CPU c. */
  ghost predicate WaitsOn(s: Sys, c: nat, x: Ptr) {
    c < |s.cpus| && x in s.table && x !in s.flight && s.table[x].state == Ready && Home(s, x) == c
  }

  ghost predicate WaitsThroughout(s: Sys, steps: seq<Step>, c: nat, x: Ptr)
    requires ValidRun(s, steps)
    decreases |steps|
  {
    WaitsOn(s, c, x) && (steps == [] || WaitsThroughout(Next(s, steps[0]), steps[1..], c, x))
  }

  /** The step is a reschedule of CPU c that carries out an aging pass. */
  predicate IsPass(s: Sys, step: Step, c: nat) {
    step.Resched? && step.c == c < |s.cpus| && AgingDue(s.cpus[c], step.ageTick)
  }

  /** How many aging passes CPU c makes in the run. */
  ghost function Passes(s: Sys, steps: seq<Step>, c: nat): nat
    requires ValidRun(s, steps)
    decreases |steps|
  {
    if steps == [] then 0
    else (if IsPass(s, steps[0], c) then 1 else 0) + Passes(Next(s, steps[0]), steps[1..], c)
  }

  lemma WaitStep(s: Sys, step: Step, c: nat, x: Ptr)
    requires KernelInv(s) && Enabled(s, step) && WaitsOn(s, c, x) && WaitsOn(Next(s, step), c, x)
    ensures Next(s, step).table[x] == if IsPass(s, step, c) then AgedOnce(s.table[x]) else s.table[x]
  {
    assert CpuOk(s, c) && ThreadOk(s, x) && x in Mine(s, c);
    match step {
      case CpuInit =>
      case SchedInit(d) => StartFresh(s, d);
      case SpawnBegin(user, priority) => SpawnMem(s, user, priority);
      case SpawnEnd(y) => assert ThreadOk(s, y);
      case Resched(d, rsp, wakeTick, ageTick) => WaitResched(s, d, rsp, wakeTick, ageTick, c, x);
      case Sleep(d, ms, tick) => assert CpuOk(s, d);
      case Exit(d) => assert CpuOk(s, d);
      case Take(dest, d, y) =>
      case Put(y) => assert ThreadOk(s, y);
      case OtherMalloc(n) =>
      case OtherFree(p) =>
    }
  }

  lemma WaitResched(s: Sys, d: nat, rsp: nat, wakeTick: nat, ageTick: nat, c: nat, x: Ptr)
    requires KernelInv(s) && Enabled(s, Resched(d, rsp, wakeTick, ageTick)) && WaitsOn(s, c, x)
    requires WaitsOn(Next(s, Resched(d, rsp, wakeTick, ageTick)), c, x)
    ensures Next(s, Resched(d, rsp, wakeTick, ageTick)).table[x]
            == if d == c && AgingDue(s.cpus[c], ageTick) then AgedOnce(s.table[x]) else s.table[x]
  {
    var mine, v1 := Mine(s, d), Save(ViewOf(s, d), rsp);
    ReschedViews(s, d, rsp, wakeTick, ageTick);
    ReschedThread(s, d, rsp, wakeTick, ageTick, x);
    if d == c {
      assert x in mine;
      AgedHere(v1, mine, wakeTick, ageTick, x);
    }
  }

  /** One CPU: a ready thread that is still ready has been aged iff a pass was due. */
  lemma AgedHere(v: View, mine: set<Ptr>, wakeTick: nat, ageTick: nat, x: Ptr)
    requires Inv(v, mine) && x in mine && Get(v.table, x).state == Ready
    requires Get(Choose(Settle(v, wakeTick, ageTick)).table, x).state == Ready
    ensures x !in Freed(Settle(v, wakeTick, ageTick)) && x != v.cpu.current
    ensures Get(Choose(Settle(v, wakeTick, ageTick)).table, x)
            == if AgingDue(v.cpu, ageTick) then AgedOnce(Get(v.table, x)) else Get(v.table, x)
  {
    SettleInv(v, mine, wakeTick, ageTick);
    SettleEffect(v, mine, wakeTick, ageTick, x);
    ChooseEffect(Settle(v, wakeTick, ageTick), mine, x);
  }

  lemma {:induction false} AgedByPasses(s: Sys, steps: seq<Step>, c: nat, x: Ptr)
    requires KernelInv(s) && ValidRun(s, steps) && WaitsThroughout(s, steps, c, x)
    ensures x in Exec(s, steps).table && Exec(s, steps).table[x] == AgedTimes(s.table[x], Passes(s, steps, c))
    decreases |steps|
  {
    if steps != [] {
      var step, next, rest := steps[0], Next(s, steps[0]), steps[1..];
      assert WaitsThroughout(next, rest, c, x);
      WaitStep(s, step, c, x);
      NextInv(s, step);
      AgedByPasses(next, rest, c, x);
      AgedBefore(s.table[x], next.table[x], IsPass(s, step, c), Passes(next, rest, c));
    }
  }

  lemma AgedBefore(t: Thread, t1: Thread, pass: bool, n: nat)
    requires t1 == if pass then AgedOnce(t) else t
    ensures AgedTimes(t1, n) == AgedTimes(t, (if pass then 1 else 0) + n)
  {
    AgedShift(t, n);
  }

  lemma {:induction false} AgedShift(t: Thread, n: nat)
    ensures AgedTimes(AgedOnce(t), n) == AgedTimes(t, n + 1)
  {
    if n > 0 { AgedShift(t, n - 1); }
  }

  /** Anti-starvation, in every run: a thread other than tid 1 that waits on one CPU throughout is
      at priority 31 exactly when that CPU has made 19 * (31 - p) + 1 - t aging passes, where p and
      t are its priority and its total_ticks at the start. */
  lemma NoStarvation(s: Sys, steps: seq<Step>, c: nat, x: Ptr)
    requires KernelInv(s) && ValidRun(s, steps) && WaitsThroughout(s, steps, c, x) && s.table[x].tid != 1
    ensures var t := s.table[x];
            && t.priority <= MAX_PRIORITY && t.age <= AGE_LIMIT && x in Exec(s, steps).table
            && (Exec(s, steps).table[x].priority == MAX_PRIORITY <==> Passes(s, steps, c) >= Remaining(t))
  {
    assert CpuOk(s, c) && x in Mine(s, c) && Located(ViewOf(s, c), x);
    AgedByPasses(s, steps, c, x);
    AgingBound(s.table[x], Passes(s, steps, c));
  }

  // ---------- priorities never fall ----------

  /** The tid has been given out, and a thread that has it has at least that priority. */
  ghost predicate AtLeast(s: Sys, tid: nat, p: nat) {
    tid < s.nextTid && forall x :: x in s.table && s.table[x].tid == tid ==> s.table[x].priority >= p
  }

  lemma PriorityStep(s: Sys, step: Step, tid: nat, p: nat)
    requires KernelInv(s) && Enabled(s, step) && AtLeast(s, tid, p)
    ensures AtLeast(Next(s, step), tid, p)
  {
    var z := Next(s, step);
    forall x | x in z.table && z.table[x].tid == tid ensures z.table[x].priority >= p {
      assert ThreadOk(s, x);
      match step {
        case CpuInit =>
        case SchedInit(d) => StartFresh(s, d);
        case SpawnBegin(user, priority) => SpawnMem(s, user, priority);
        case SpawnEnd(y) => assert ThreadOk(s, y);
        case Resched(d, rsp, wakeTick, ageTick) =>
          ReschedViews(s, d, rsp, wakeTick, ageTick);
          ReschedThread(s, d, rsp, wakeTick, ageTick, x);
        case Sleep(d, ms, tick) => assert CpuOk(s, d);
        case Exit(d) => assert CpuOk(s, d);
        case Take(dest, d, y) =>
        case Put(y) => assert ThreadOk(s, y);
        case OtherMalloc(n) =>
        case OtherFree(q) =>
      }
    }
  }

  /** In no run does the priority of a thread fall. */
  lemma {:induction false} PriorityNeverFalls(s: Sys, steps: seq<Step>, tid: nat, p: nat)
    requires KernelInv(s) && ValidRun(s, steps) && AtLeast(s, tid, p)
    ensures AtLeast(Exec(s, steps), tid, p)
    decreases |steps|
  {
    if steps != [] {
      PriorityStep(s, steps[0], tid, p);
      NextInv(s, steps[0]);
      PriorityNeverFalls(Next(s, steps[0]), steps[1..], tid, p);
    }
  }

  // ---------- thread memory ----------

  /** In every run from power-on: whatever a CPU runs, lists or hands off is a
      thread whose structure and stacks are live heap blocks, each its own and no other thread's. */
  lemma NoDanglingThread(base: nat, steps: seq<Step>, a: Slot, x: Ptr)
    requires base > 0 && base % 8 == 0 && ValidRun(PowerOn(base), steps) && Holds(Exec(PowerOn(base), steps), a, x)
    ensures var z := Exec(PowerOn(base), steps);
            && x in z.table && NoDup(Blocks(z.table[x], x)) && BlockSet(z.table[x], x) <= H.Payloads(H.Live(z.heap))
            && forall y :: y in z.table && y != x ==> BlockSet(z.table[y], y) !! BlockSet(z.table[x], x)
  {
    FromPowerOn(base, steps);
    var z := Exec(PowerOn(base), steps);
    SlotFacts(z, a, x);
    forall b | b in BlockSet(z.table[x], x) ensures b in H.Payloads(H.Live(z.heap)) {
      assert Owns(z.table, x, b);
    }
    forall y, b | y in z.table && b in BlockSet(z.table[y], y) && b in BlockSet(z.table[x], x) ensures y == x {
      assert Owns(z.table, x, b) && Owns(z.table, y, b) && Unshared(z.table, x, y, b);
    }
  }

  /** x died at priority 0 and is off its CPU. */
  ghost predicate Leaked(s: Sys, x: Ptr) {
    && x in s.table && x !in s.flight && s.table[x].state == Dead && s.table[x].priority == 0
    && Home(s, x) < |s.cpus| && s.cpus[Home(s, x)].current != x
  }

  /** A thread that is dead at priority 0 leaks with the next reschedule of its CPU. */
  lemma DeadAtZeroLeaks(s: Sys, c: nat, rsp: nat, wakeTick: nat, ageTick: nat)
    requires KernelInv(s) && Enabled(s, Resched(c, rsp, wakeTick, ageTick))
    requires Get(s.table, s.cpus[c].current).state == Dead && Get(s.table, s.cpus[c].current).priority == 0
    ensures Leaked(Next(s, Resched(c, rsp, wakeTick, ageTick)), s.cpus[c].current)
  {
    var x, v := s.cpus[c].current, Settled(s, c, rsp, wakeTick, ageTick);
    assert CpuOk(s, c);
    DeadThreadFreedIff(s, c, rsp, wakeTick, ageTick);
    RescheduleGuarantees(s, c, rsp, wakeTick, ageTick);
    ReschedViews(s, c, rsp, wakeTick, ageTick);
    ReschedThread(s, c, rsp, wakeTick, ageTick, x);
    SettleEffect(Save(ViewOf(s, c), rsp), Mine(s, c), wakeTick, ageTick, x);
    ChooseEffect(v, Mine(s, c), x);
  }

  lemma LeakedStep(s: Sys, step: Step, x: Ptr)
    requires KernelInv(s) && Enabled(s, step) && Leaked(s, x)
    ensures Leaked(Next(s, step), x)
  {
    if step.Resched? {
      LeakedResched(s, step.c, step.rsp, step.wakeTick, step.ageTick, x);
    } else {
      if step.Sleep? || step.Exit? { NotCurrent(s, x, step.c); }
      if step.Take? { TakenIsReady(s, step.dest, step.c, step.x); }
      Bystander(s, step, x, Home(s, x));
    }
  }

  lemma NotCurrent(s: Sys, x: Ptr, d: nat)
    requires SchedInv(s) && Leaked(s, x) && Online(s, d)
    ensures s.cpus[d].current != x
  {
    if s.cpus[d].current == x { SlotFacts(s, Runs(d), x); }
  }

  lemma LeakedResched(s: Sys, c: nat, rsp: nat, wakeTick: nat, ageTick: nat, x: Ptr)
    requires KernelInv(s) && Enabled(s, Resched(c, rsp, wakeTick, ageTick)) && Leaked(s, x)
    ensures Leaked(Next(s, Resched(c, rsp, wakeTick, ageTick)), x)
  {
    NotCurrent(s, x, c);
    ReschedLeavesAlone(s, c, rsp, wakeTick, ageTick, x);
  }

  /** A thread that dies at priority 0 keeps its memory for ever. */
  lemma {:induction false} LeakedForever(s: Sys, steps: seq<Step>, x: Ptr)
    requires KernelInv(s) && ValidRun(s, steps) && Leaked(s, x)
    ensures Leaked(Exec(s, steps), x)
    decreases |steps|
  {
    if steps != [] {
      LeakedStep(s, steps[0], x);
      NextInv(s, steps[0]);
      LeakedForever(Next(s, steps[0]), steps[1..], x);
    }
  }
}
