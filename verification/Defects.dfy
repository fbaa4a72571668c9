/** Runs in which the scheduler loses a thread or its memory. */
module Defects {
  import opened Common
  import opened CpuSched
  import opened Kernel
  import opened Boot
  import opened Theorems
  import opened Progress
  import H = HeapSpec

  // ---------- there is room for a few threads ----------

  /** The list ends with a free block of at least that size. */
  ghost predicate Room(h: seq<H.Block>, size: nat) {
    h != [] && h[|h| - 1].free && h[|h| - 1].size >= size
  }

  /** kmalloc takes at most its rounded size and a header from the block at the end. */
  lemma MallocRoom(h: seq<H.Block>, n: nat, left: nat)
    requires n > 0 && Room(h, H.Round(n) + H.SPLIT + 1 + left)
    ensures H.Malloc(h, n).1.Some? && Room(H.Malloc(h, n).0, left)
  {
    var k := H.FirstFit(h, H.Round(n));
    assert H.Fits(h[|h| - 1], H.Round(n));
  }

  /** So many bytes at the end are enough for a kernel thread. */
  const ENOUGH := 10000

  lemma CarveRoom(h: seq<H.Block>, left: nat)
    requires Room(h, ENOUGH + left)
    ensures Carve(h, false).Some? && Room(Carve(h, false).value.0, left)
  {
    MallocRoom(h, THREAD_SIZE, ENOUGH + left - 200);
    MallocRoom(H.Malloc(h, THREAD_SIZE).0, STACK_SIZE, left);
  }

  // ---------- a leak ----------

  /** CPU 0 runs its idle thread with nothing else to do; it is the only one that is up. */
  ghost predicate FirstUp(s: Sys) {
    && s.cpus != [] && s.nextCpu == 0 && s.flight == map[] && KernelInv(s)
    && Online(s, 0) && NothingListed(s.cpus[0]) && s.cpus[0].lastAge == 0
    && var t := Get(s.table, s.cpus[0].current); t.ticks == 0 && t.priority == 0 && t.state == Running
  }

  lemma OneCpu(base: nat) returns (s: Sys)
    requires base > 0 && base % 8 == 0
    ensures ValidRun(PowerOn(base), [CpuInit, SchedInit(0)]) && s == Exec(PowerOn(base), [CpuInit, SchedInit(0)])
    ensures FirstUp(s) && |s.cpus| == 1 && Room(s.heap, ENOUGH)
  {
    var s0 := PowerOn(base);
    var s1 := Next(s0, CpuInit);
    CarveRoom(s1.heap, ENOUGH);
    s := Next(s1, SchedInit(0));
    RunCons(s1, SchedInit(0), []);
    RunCons(s0, CpuInit, [SchedInit(0)]);
    FromPowerOn(base, [CpuInit, SchedInit(0)]);
    PowerOnInv(base);
    NextInv(s0, CpuInit);
    StartFresh(s1, 0);
  }

  lemma TopZero(ready: seq<seq<Ptr>>, n: nat)
    requires 0 < n <= |ready| && ready[0] != [] && forall p :: 0 < p < n ==> ready[p] == []
    ensures Top(ready, n) == Some(0)
  {
  }

  /** What a spawn leaves behind when nothing comes between its halves. */
  lemma SpawnLands(s: Sys, x: Ptr)
    requires KernelInv(s) && s.cpus != [] && Carve(s.heap, false).Some? && x == Carve(s.heap, false).value.1
    ensures x !in s.table && x !in s.idle
    ensures var s1 := Spawned(s, false, 0);
            var z := Land(s1, x, Get(s1.table, x));
            && z.cpus == s.cpus[s.nextCpu := Arrive(s.cpus[s.nextCpu], 0, x)] && z.idle == s.idle
            && z.nextCpu == (if s.nextCpu + 1 == |s.cpus| then 0 else s.nextCpu + 1)
            && z.heap == Carve(s.heap, false).value.0 && Holds(z, Waits(s.nextCpu, 0, 0), x)
            && forall y :: y in s.table ==> Get(z.table, y) == Get(s.table, y)
  {
    SpawnMem(s, false, 0);
    assert CpuOk(s, s.nextCpu) && ThreadOk(s, x);
  }

  /** A spawn puts its thread at the head of list 0 of the CPU whose turn it is. */
  lemma SpawnOn(s: Sys, left: nat) returns (x: Ptr, z: Sys)
    requires KernelInv(s) && s.cpus != [] && Room(s.heap, ENOUGH + left)
    ensures ValidRun(s, [SpawnBegin(false, 0), SpawnEnd(x)]) && z == Exec(s, [SpawnBegin(false, 0), SpawnEnd(x)])
    ensures KernelInv(z) && Room(z.heap, left)
    ensures z.cpus == s.cpus[s.nextCpu := Arrive(s.cpus[s.nextCpu], 0, x)]
    ensures z.nextCpu == if s.nextCpu + 1 == |s.cpus| then 0 else s.nextCpu + 1
    ensures Holds(z, Waits(s.nextCpu, 0, 0), x) && x !in z.idle && z.idle == s.idle
    ensures forall y :: y in s.table ==> Get(z.table, y) == Get(s.table, y)
  {
    CarveRoom(s.heap, left);
    x := Carve(s.heap, false).value.1;
    SpawnLands(s, x);
    var s1 := Spawned(s, false, 0);
    z := Land(s1, x, Get(s1.table, x));
    TwoSteps(s, SpawnBegin(false, 0), s1, SpawnEnd(x), z);
  }

  lemma TwoSteps(s: Sys, a: Step, s1: Sys, b: Step, z: Sys)
    requires KernelInv(s) && Enabled(s, a) && s1 == Next(s, a) && Enabled(s1, b) && z == Next(s1, b)
    ensures KernelInv(z) && ValidRun(s, [a, b]) && Exec(s, [a, b]) == z
  {
    NextInv(s, a);
    NextInv(s1, b);
    RunCons(s1, b, []);
    RunCons(s, a, [b]);
  }

  /** A thread at the head of list 0 runs after the next reschedule of a CPU that is idle. */
  lemma ZeroRuns(s: Sys, x: Ptr, rsp: nat)
    requires KernelInv(s) && Online(s, 0) && s.cpus[0].lastAge == 0 && s.cpus[0].sleep == [] && x !in s.idle
    requires s.cpus[0].ready == NoLists()[0 := [x]]
    requires var t := Get(s.table, s.cpus[0].current); t.ticks == 0 && t.priority == 0 && t.state == Running
    ensures Enabled(s, Resched(0, rsp, 0, 0))
    ensures var z := Next(s, Resched(0, rsp, 0, 0));
            && KernelInv(z) && Online(z, 0) && z.cpus[0].lastAge == 0 && z.cpus[0].current == x && x !in z.idle
            && Get(z.table, x).priority == 0
  {
    var v1 := Save(ViewOf(s, 0), rsp);
    assert CpuOk(s, 0) && ListOk(ViewOf(s, 0), Mine(s, 0), 0);
    assert x in Level(s.cpus[0].ready, 0) && ThreadOk(s, x);
    assert Wake(v1, 0, 0) == v1;
    assert Settled(s, 0, rsp, 0, 0) == Charge(v1);
    TopZero(s.cpus[0].ready, LEVELS);
    NextInv(s, Resched(0, rsp, 0, 0));
  }

  /** From power-on: one CPU comes up, a thread is spawned at priority 0 and runs. It exits, and the
      next reschedule leaks it. */
  lemma LeakReached(base: nat, rsp: nat) returns (s: Sys, x: Ptr, z: Sys)
    requires base > 0 && base % 8 == 0
    ensures ValidRun(PowerOn(base), [CpuInit, SchedInit(0)]) && s == Exec(PowerOn(base), [CpuInit, SchedInit(0)])
    ensures var steps := [SpawnBegin(false, 0), SpawnEnd(x), Resched(0, rsp, 0, 0)];
            ValidRun(s, steps) && z == Exec(s, steps)
    ensures ValidRun(z, [Exit(0), Resched(0, rsp, 0, 0)]) && Leaked(Exec(z, [Exit(0), Resched(0, rsp, 0, 0)]), x)
  {
    s := OneCpu(base);
    var a;
    x, a := SpawnOn(s, 0);
    assert [x] + Level(NoLists(), 0) == [x];
    assert CpuOk(s, 0);
    ZeroRuns(a, x, rsp);
    z := Next(a, Resched(0, rsp, 0, 0));
    Append(s, SpawnBegin(false, 0), SpawnEnd(x), Resched(0, rsp, 0, 0));
    ExitLeaks(z, 0, rsp);
  }

  /** Whatever exits at priority 0 leaks. */
  lemma ExitLeaks(s: Sys, c: nat, rsp: nat)
    requires KernelInv(s) && Enabled(s, Exit(c)) && Get(s.table, s.cpus[c].current).priority == 0
    ensures var steps := [Exit(c), Resched(c, rsp, s.cpus[c].lastAge, s.cpus[c].lastAge)];
            ValidRun(s, steps) && Leaked(Exec(s, steps), s.cpus[c].current)
  {
    var tick := s.cpus[c].lastAge;
    NextInv(s, Exit(c));
    var z := Next(s, Exit(c));
    DeadAtZeroLeaks(z, c, rsp, tick, tick);
    RunCons(z, Resched(c, rsp, tick, tick), []);
    RunCons(s, Exit(c), [Resched(c, rsp, tick, tick)]);
  }

  lemma Append(s: Sys, a: Step, b: Step, c: Step)
    requires ValidRun(s, [a, b]) && Enabled(Exec(s, [a, b]), c)
    ensures ValidRun(s, [a, b, c]) && Exec(s, [a, b, c]) == Next(Exec(s, [a, b]), c)
  {
    assert [a, b][1..] == [b] && [b][1..] == [] && [a, b, c][1..] == [b, c];
    var s1 := Next(s, a);
    assert ValidRun(s1, [b]) && Exec(s1, [b]) == Exec(s, [a, b]);
    RunCons(s1, b, []);
    RunCons(Next(s1, b), c, []);
    RunCons(s1, b, [c]);
    RunCons(s, a, [b, c]);
  }

  lemma RunCons(s: Sys, step: Step, rest: seq<Step>)
    requires Enabled(s, step) && ValidRun(Next(s, step), rest)
    ensures ValidRun(s, [step] + rest) && Exec(s, [step] + rest) == Exec(Next(s, step), rest)
  {
    assert ([step] + rest)[1..] == rest;
  }

  // ---------- a CPU that comes up late ----------

  ghost predicate Somewhere(s: Sys, x: Ptr) {
    exists a :: Holds(s, a, x)
  }

  /** sched_init empties the lists of its CPU. In every reachable state, whatever was somewhere before
      is somewhere afterwards exactly when they were empty already. */
  lemma LateInitIff(s: Sys, c: nat)
    requires KernelInv(s) && c < |s.cpus| && !Online(s, c) && Carve(s.heap, false).Some?
    ensures (forall x :: Somewhere(s, x) ==> Somewhere(StartSched(s, c), x)) <==> NothingListed(s.cpus[c])
  {
    var z := StartSched(s, c);
    assert CpuOk(s, c);
    if s.cpus[c].sleep != [] {
      Forgotten(s, c, Sleeps(c, 0), s.cpus[c].sleep[0]);
    } else if s.cpus[c].ready != NoLists() {
      var p :| 0 <= p < LEVELS && s.cpus[c].ready[p] != NoLists()[p];
      Forgotten(s, c, Waits(c, p, 0), s.cpus[c].ready[p][0]);
    } else {
      forall x | Somewhere(s, x) ensures Somewhere(z, x) {
        var a :| Holds(s, a, x);
        assert Holds(z, a, x);
      }
    }
  }

  lemma Forgotten(s: Sys, c: nat, a: Slot, x: Ptr)
    requires KernelInv(s) && c < |s.cpus| && !Online(s, c) && Carve(s.heap, false).Some?
    requires Holds(s, a, x) && (a.Waits? || a.Sleeps?) && a.c == c
    ensures Somewhere(s, x) && !Somewhere(StartSched(s, c), x)
  {
    var z := StartSched(s, c);
    SlotFacts(s, a, x);
    StartFresh(s, c);
    forall b ensures !Holds(z, b, x) {
      if Holds(s, b, x) { AtMostOnePlace(s, a, b, x); }
      assert Holds(z, b, x) ==> Holds(s, b, x) || b == Runs(c);
    }
  }

  lemma TwoCpus(base: nat) returns (s: Sys)
    requires base > 0 && base % 8 == 0
    ensures var boot := [CpuInit, CpuInit, SchedInit(0)];
            ValidRun(PowerOn(base), boot) && s == Exec(PowerOn(base), boot)
    ensures KernelInv(s) && |s.cpus| == 2 && s.nextCpu == 0 && !Online(s, 1) && Room(s.heap, 3 * ENOUGH)
  {
    var s0 := PowerOn(base);
    var s1 := Next(s0, CpuInit);
    var s2 := Next(s1, CpuInit);
    CarveRoom(s2.heap, 3 * ENOUGH);
    s := Next(s2, SchedInit(0));
    RunCons(s2, SchedInit(0), []);
    RunCons(s1, CpuInit, [SchedInit(0)]);
    RunCons(s0, CpuInit, [CpuInit, SchedInit(0)]);
    FromPowerOn(base, [CpuInit, CpuInit, SchedInit(0)]);
  }

  /** From power-on: CPU 1 has run cpu_init but is slow. CPU 0 comes up and spawns two threads, the
      second of which goes to CPU 1. When that CPU runs sched_init, the thread is in no list. */
  lemma LateInitReached(base: nat) returns (s: Sys, y: Ptr, a: Sys, x: Ptr, z: Sys)
    requires base > 0 && base % 8 == 0
    ensures var boot := [CpuInit, CpuInit, SchedInit(0)];
            ValidRun(PowerOn(base), boot) && s == Exec(PowerOn(base), boot)
    ensures ValidRun(s, [SpawnBegin(false, 0), SpawnEnd(y)]) && a == Exec(s, [SpawnBegin(false, 0), SpawnEnd(y)])
    ensures ValidRun(a, [SpawnBegin(false, 0), SpawnEnd(x)]) && z == Exec(a, [SpawnBegin(false, 0), SpawnEnd(x)])
    ensures |z.cpus| == 2 && !Online(z, 1) && Carve(z.heap, false).Some?
    ensures Holds(z, Waits(1, 0, 0), x) && !Somewhere(StartSched(z, 1), x)
  {
    s := TwoCpus(base);
    y, a := SpawnOn(s, 2 * ENOUGH);
    x, z := SpawnOn(a, ENOUGH);
    CarveRoom(z.heap, 0);
    Forgotten(z, 1, Waits(1, 0, 0), x);
  }
}
