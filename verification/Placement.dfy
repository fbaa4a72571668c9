/** Where threads end up: the exact effect of spawning, handing off, starting a CPU and rescheduling, in
    positions and numbers. */
module Placement {
  import opened Common
  import opened CpuSched
  import opened Aging
  import opened Order
  import opened Kernel
  import opened Theorems
  import H = HeapSpec

  // ---------- threads in flight ----------

  /** The step does not end the flight of x. */
  predicate LeavesAloft(step: Step, x: Ptr) { step != SpawnEnd(x) && step != Put(x) }

  lemma FlightStep(s: Sys, step: Step, x: Ptr)
    requires KernelInv(s) && Enabled(s, step) && x in s.flight && LeavesAloft(step, x)
    ensures var z := Next(s, step);
            && x in z.flight && z.flight[x] == s.flight[x] && x in s.table && x in z.table && z.table[x] == s.table[x]
            && |z.cpus| >= |s.cpus|
  {
    assert ThreadOk(s, x);
    match step {
      case SchedInit(c) => StartFresh(s, c);
      case SpawnBegin(user, priority) => SpawnMem(s, user, priority);
      case Resched(c, rsp, wakeTick, ageTick) => FlightResched(s, c, rsp, wakeTick, ageTick, x);
      case Take(dest, c, y) => TakenIsReady(s, dest, c, y);
      case Sleep(c, ms, tick) => assert CpuOk(s, c);
      case Exit(c) => assert CpuOk(s, c);
      case _ =>
    }
  }

  lemma FlightResched(s: Sys, c: nat, rsp: nat, wakeTick: nat, ageTick: nat, x: Ptr)
    requires SchedInv(s) && Enabled(s, Resched(c, rsp, wakeTick, ageTick)) && x in s.flight
    ensures var z := Next(s, Resched(c, rsp, wakeTick, ageTick));
            x in s.table && x in z.table && z.table[x] == s.table[x] && z.flight == s.flight && |z.cpus| == |s.cpus|
  {
    assert CpuOk(s, c) && ThreadOk(s, x);
    ReschedViews(s, c, rsp, wakeTick, ageTick);
    ReschedThread(s, c, rsp, wakeTick, ageTick, x);
  }

  /** Through any run that does not end its flight a thread stays in flight and nobody writes it. */
  lemma {:induction false} FlightRun(s: Sys, steps: seq<Step>, x: Ptr)
    requires KernelInv(s) && ValidRun(s, steps) && x in s.flight
    requires forall i :: 0 <= i < |steps| ==> LeavesAloft(steps[i], x)
    ensures var z := Exec(s, steps);
            && KernelInv(z) && x in z.flight && z.flight[x] == s.flight[x] && x in s.table && x in z.table
            && z.table[x] == s.table[x] && |z.cpus| >= |s.cpus|
    decreases |steps|
  {
    if steps == [] {
      assert ThreadOk(s, x);
    } else {
      FlightStep(s, steps[0], x);
      NextInv(s, steps[0]);
      FlightRun(Next(s, steps[0]), steps[1..], x);
    }
  }

  /** x, as t, is at the head of list p of CPU c; apart from that and the end of its flight nothing has
      changed. */
  ghost predicate Landed(s: Sys, z: Sys, x: Ptr, t: Thread, c: nat, p: nat) {
    && c < |s.cpus| && p < |s.cpus[c].ready|
    && z == s.(table := s.table[x := t], flight := s.flight - {x},
               cpus := s.cpus[c := s.cpus[c].(ready := s.cpus[c].ready[p := [x] + s.cpus[c].ready[p]])])
  }

  /** The second half of a spawn. */
  lemma SpawnEndIs(s: Sys, x: Ptr)
    requires SchedInv(s) && Enabled(s, SpawnEnd(x))
    ensures x in s.table && Landed(s, Next(s, SpawnEnd(x)), x, s.table[x], s.table[x].affinity, s.table[x].priority)
  {
    assert ThreadOk(s, x);
    assert CpuOk(s, s.table[x].affinity);
  }

  /** The second half of a hand-off: whatever its priority was, the thread is at the head of list 31 of
      the CPU that asked for it. */
  lemma PutIs(s: Sys, x: Ptr)
    requires SchedInv(s) && Enabled(s, Put(x))
    ensures x in s.table
    ensures var dest := s.flight[x].dest;
            Landed(s, Next(s, Put(x)), x, s.table[x].(priority := 31, affinity := dest), dest, 31)
  {
    assert ThreadOk(s, x);
    assert CpuOk(s, s.flight[x].dest);
  }

  // ---------- spawning ----------

  /** The kernel heap has a live block of at least n bytes at p. */
  ghost predicate HasRoom(h: seq<H.Block>, p: nat, n: nat) {
    exists b :: b in H.Live(h) && b.Payload() == p && b.size >= n
  }

  lemma MallocHasRoom(h: seq<H.Block>, base: nat, n: nat)
    requires H.Canonical(h, base, base + H.POOL) && base % 8 == 0 && H.Malloc(h, n).1.Some?
    ensures HasRoom(H.Malloc(h, n).0, H.Malloc(h, n).1.value, n)
    ensures forall p: nat, m: nat :: HasRoom(h, p, m) ==> HasRoom(H.Malloc(h, n).0, p, m)
  {
    H.MallocCanonical(h, base, base + H.POOL, n);
    var h', k := H.Malloc(h, n).0, H.FirstFit(h, H.Round(n));
    assert h'[k] in H.Live(h');
    forall p: nat, m: nat | HasRoom(h, p, m) ensures HasRoom(h', p, m) {
      var b :| b in H.Live(h) && b.Payload() == p && b.size >= m;
      assert b in H.Live(h');
    }
  }

  lemma CarveHasRoom(h: seq<H.Block>, base: nat, user: bool)
    requires H.Canonical(h, base, base + H.POOL) && base % 8 == 0 && Carve(h, user).Some?
    ensures var (h', x, k, u) := Carve(h, user).value;
            HasRoom(h', x, 104) && HasRoom(h', k, 8192) && (if user then HasRoom(h', u, 8192) else u == 0)
  {
    var (h1, x) := H.Malloc(h, THREAD_SIZE);
    MallocHasRoom(h, base, THREAD_SIZE);
    MallocLive(h, base, THREAD_SIZE);
    MallocHasRoom(h1, base, STACK_SIZE);
    MallocLive(h1, base, STACK_SIZE);
    if user { MallocHasRoom(H.Malloc(h1, STACK_SIZE).0, base, STACK_SIZE); }
  }

  /** A new thread's structure: a priority of at most 31, a full slice, and a stack pointer below its
      first frame. */
  function Novice(tid: nat, priority: nat, cpu: nat, stack: nat, ustack: nat): Thread {
    var p := if priority > 31 then 31 else priority;
    Thread(tid, stack + 8016, Ready, p, cpu, 2 * (32 - p), 0, 0, stack, ustack)
  }

  lemma FreshIs(tid: nat, priority: nat, cpu: nat, stack: nat, ustack: nat)
    ensures Fresh(tid, Clamp(priority), cpu, stack, ustack) == Novice(tid, priority, cpu, stack, ustack)
  {
  }

  /** The first half of a spawn: a thread that was not there before, with its own structure and stacks,
      the next tid and the CPU whose turn it is. */
  lemma SpawnBeginIs(s: Sys, user: bool, priority: nat, h: seq<H.Block>, x: Ptr, k: nat, u: nat)
    requires KernelInv(s) && Enabled(s, SpawnBegin(user, priority)) && Carve(s.heap, user) == Some((h, x, k, u))
    ensures x !in s.table && x > 0
    ensures HasRoom(h, x, 104) && HasRoom(h, k, 8192) && (if user then HasRoom(h, u, 8192) else u == 0)
    ensures Next(s, SpawnBegin(user, priority))
            == s.(heap := h, table := s.table[x := Novice(s.nextTid, priority, s.nextCpu, k, u)],
                  flight := s.flight[x := Newborn], nextTid := s.nextTid + 1,
                  nextCpu := if s.nextCpu + 1 == |s.cpus| then 0 else s.nextCpu + 1)
  {
    NewBlocks(s, user, h, x, k, u);
    SpawnedIs(s, user, priority, h, x, k, u);
  }

  lemma NewBlocks(s: Sys, user: bool, h: seq<H.Block>, x: Ptr, k: nat, u: nat)
    requires MemInv(s) && Carve(s.heap, user) == Some((h, x, k, u))
    ensures x !in s.table && x > 0
    ensures HasRoom(h, x, 104) && HasRoom(h, k, 8192) && (if user then HasRoom(h, u, 8192) else u == 0)
  {
    NewThread(s, user, h, x, k, u);
    CarveHasRoom(s.heap, s.base, user);
  }

  lemma NewThread(s: Sys, user: bool, h: seq<H.Block>, x: Ptr, k: nat, u: nat)
    requires MemInv(s) && Carve(s.heap, user) == Some((h, x, k, u))
    ensures x !in s.table && x > 0
  {
    SpawnMem(s, user, 0);
    CarveLive(s.heap, s.base, user);
  }

  lemma SpawnedIs(s: Sys, user: bool, priority: nat, h: seq<H.Block>, x: Ptr, k: nat, u: nat)
    requires Carve(s.heap, user) == Some((h, x, k, u))
    ensures Spawned(s, user, priority)
            == s.(heap := h, table := s.table[x := Novice(s.nextTid, priority, s.nextCpu, k, u)],
                  flight := s.flight[x := Newborn], nextTid := s.nextTid + 1,
                  nextCpu := if s.nextCpu + 1 == |s.cpus| then 0 else s.nextCpu + 1)
  {
    FreshIs(s.nextTid, priority, s.nextCpu, k, u);
  }

  /** A spawn from beginning to end, whatever comes between its halves: the thread waits at the head of
      the list of its priority, on the CPU whose turn it was. */
  lemma SpawnGoesTo(s: Sys, user: bool, priority: nat, h: seq<H.Block>, x: Ptr, k: nat, u: nat,
                    a: Sys, steps: seq<Step>)
    requires KernelInv(s) && Enabled(s, SpawnBegin(user, priority)) && Carve(s.heap, user) == Some((h, x, k, u))
    requires a == Next(s, SpawnBegin(user, priority)) && ValidRun(a, steps)
    requires forall i :: 0 <= i < |steps| ==> LeavesAloft(steps[i], x)
    ensures Enabled(Exec(a, steps), SpawnEnd(x))
    ensures var z, t := Next(Exec(a, steps), SpawnEnd(x)), Novice(s.nextTid, priority, s.nextCpu, k, u);
            Get(z.table, x) == t && Holds(z, Waits(s.nextCpu, t.priority, 0), x)
  {
    SpawnBeginIs(s, user, priority, h, x, k, u);
    NextInv(s, SpawnBegin(user, priority));
    FlightRun(a, steps, x);
    SpawnEndIs(Exec(a, steps), x);
  }

  /** How many threads are spawned in the run, and how many CPUs start. */
  function Spawns(steps: seq<Step>): nat {
    if steps == [] then 0 else (if steps[0].SpawnBegin? then 1 else 0) + Spawns(steps[1..])
  }

  function Starts(steps: seq<Step>): nat {
    if steps == [] then 0 else (if steps[0].SchedInit? then 1 else 0) + Starts(steps[1..])
  }

  /** The index k places on from i in a ring of n. */
  function Around(i: nat, k: nat, n: nat): nat
    decreases k
  {
    if k == 0 then i else Around(if i + 1 == n then 0 else i + 1, k - 1, n)
  }

  lemma {:induction false} AroundIsMod(i: nat, k: nat, n: nat)
    requires i < n
    ensures Around(i, k, n) == (i + k) % n
    decreases k
  {
    if k == 0 {
      Remainder(i, 0, i, n);
    } else if i + 1 == n {
      AroundIsMod(0, k - 1, n);
      Remainder(i + k, (k - 1) / n + 1, (k - 1) % n, n);
    } else {
      AroundIsMod(i + 1, k - 1, n);
    }
  }

  lemma Remainder(a: nat, q: nat, r: nat, n: nat)
    requires r < n && a == n * q + r
    ensures a % n == r
  {
    var d := a / n - q;
    assert n * d == r - a % n;
    Multiple(n, d);
  }

  lemma Multiple(n: nat, d: int)
    ensures d >= 1 ==> n * d >= n
    ensures d <= -1 ==> n * d <= 0 - n
  {
  }

  /** Spawns go round: while no CPU is added, the next thread goes to the CPU as many places on as
      threads were spawned. Each thread, idle threads included, takes one tid. */
  lemma RoundRobin(s: Sys, steps: seq<Step>)
    requires s.nextCpu < |s.cpus| && ValidRun(s, steps) && forall i :: 0 <= i < |steps| ==> !steps[i].CpuInit?
    ensures var z := Exec(s, steps);
            && |z.cpus| == |s.cpus| && z.nextTid == s.nextTid + Spawns(steps) + Starts(steps)
            && z.nextCpu == (s.nextCpu + Spawns(steps)) % |s.cpus|
  {
    GoesRound(s, steps);
    AroundIsMod(s.nextCpu, Spawns(steps), |s.cpus|);
  }

  lemma {:induction false} GoesRound(s: Sys, steps: seq<Step>)
    requires ValidRun(s, steps) && forall i :: 0 <= i < |steps| ==> !steps[i].CpuInit?
    ensures var z := Exec(s, steps);
            && |z.cpus| == |s.cpus| && z.nextTid == s.nextTid + Spawns(steps) + Starts(steps)
            && z.nextCpu == Around(s.nextCpu, Spawns(steps), |s.cpus|)
    decreases |steps|
  {
    if steps != [] {
      var z, rest := Next(s, steps[0]), steps[1..];
      Counters(s, steps[0]);
      GoesRound(z, rest);
      AroundOne(s.nextCpu, Spawns(rest), |s.cpus|, steps[0].SpawnBegin?, z.nextCpu);
      assert Exec(s, steps) == Exec(z, rest);
    }
  }

  lemma AroundOne(i: nat, k: nat, n: nat, one: bool, j: nat)
    requires j == if !one then i else if i + 1 == n then 0 else i + 1
    ensures Around(j, k, n) == Around(i, (if one then 1 else 0) + k, n)
  {
  }

  lemma Counters(s: Sys, step: Step)
    requires Enabled(s, step) && !step.CpuInit?
    ensures var z := Next(s, step);
            && |z.cpus| == |s.cpus| && z.nextTid == s.nextTid + (if step.SpawnBegin? || step.SchedInit? then 1 else 0)
            && z.nextCpu == if !step.SpawnBegin? then s.nextCpu
                            else if s.nextCpu + 1 == |s.cpus| then 0 else s.nextCpu + 1
  {
  }

  // ---------- handing off ----------

  /** The first half of a hand-off takes x out of its list, which keeps its order, and changes nothing else. */
  lemma TakeIs(s: Sys, dest: nat, c: nat, x: Ptr, i: nat)
    requires SchedInv(s) && Enabled(s, Take(dest, c, x)) && Holds(s, Waits(c, Get(s.table, x).priority, i), x)
    ensures var p := Get(s.table, x).priority;
            var l := Level(s.cpus[c].ready, p);
            p < |s.cpus[c].ready|
            && Next(s, Take(dest, c, x))
               == s.(cpus := s.cpus[c := s.cpus[c].(ready := s.cpus[c].ready[p := l[..i] + l[i + 1..]])],
                     flight := s.flight[x := Handoff(dest)])
  {
    assert CpuOk(s, c) && ListOk(ViewOf(s, c), Mine(s, c), Get(s.table, x).priority);
  }

  /** A hand-off from beginning to end, whatever comes between its halves: the thread waits at the head
      of list 31 of the CPU that asked for it, with priority 31, and is otherwise as it was. */
  lemma HandoffGoesTo(s: Sys, dest: nat, c: nat, x: Ptr, a: Sys, steps: seq<Step>)
    requires KernelInv(s) && Enabled(s, Take(dest, c, x)) && a == Next(s, Take(dest, c, x)) && ValidRun(a, steps)
    requires forall i :: 0 <= i < |steps| ==> LeavesAloft(steps[i], x)
    ensures x in s.table && Enabled(Exec(a, steps), Put(x))
    ensures var z := Next(Exec(a, steps), Put(x));
            Get(z.table, x) == s.table[x].(priority := 31, affinity := dest) && Holds(z, Waits(dest, 31, 0), x)
  {
    NextInv(s, Take(dest, c, x));
    FlightRun(a, steps, x);
    PutIs(Exec(a, steps), x);
  }

  // ---------- starting a CPU ----------

  /** sched_init: a new thread of priority 0 runs, and 32 empty lists are ready. */
  lemma StartIs(s: Sys, c: nat, h: seq<H.Block>, x: Ptr, k: nat, u: nat)
    requires KernelInv(s) && Enabled(s, SchedInit(c)) && Carve(s.heap, false) == Some((h, x, k, u))
    ensures x !in s.table && x > 0 && HasRoom(h, x, 104) && HasRoom(h, k, 8192)
    ensures Next(s, SchedInit(c))
            == s.(heap := h, table := s.table[x := Thread(s.nextTid, 0, Running, 0, 0, 0, 0, 0, k, 0)],
                  idle := s.idle[x := c], cpus := s.cpus[c := Cpu(x, seq(32, _ => []), [], s.cpus[c].lastAge)],
                  nextTid := s.nextTid + 1)
  {
    NewBlocks(s, false, h, x, k, u);
  }

  // ---------- rescheduling ----------

  /** Saving the stack pointer changes nothing that the order of the lists depends on. */
  lemma SaveLines(v: View, mine: set<Ptr>, rsp: nat, wakeTick: nat, ageTick: nat, q: nat)
    requires Inv(v, mine)
    ensures Lined(Save(v, rsp), wakeTick, ageTick, q) == Lined(v, wakeTick, ageTick, q)
    ensures Unwoken(Save(v, rsp).table, v.cpu.sleep, wakeTick) == Unwoken(v.table, v.cpu.sleep, wakeTick)
  {
    var t, t' := v.table, Save(v, rsp).table;
    WokenSame(t, t', v.cpu.sleep, wakeTick, q);
    RisenSame(t, t', Rung(v, wakeTick, q));
    if q > 0 {
      WokenSame(t, t', v.cpu.sleep, wakeTick, q - 1);
      RisenSame(t, t', Rung(v, wakeTick, q - 1));
    }
  }

  /** List q of CPU c when a reschedule makes its choice, told from the state before the reschedule. */
  ghost function Queue(s: Sys, c: nat, wakeTick: nat, ageTick: nat, q: nat): seq<Ptr>
    requires c < |s.cpus|
  {
    Lined(ViewOf(s, c), wakeTick, ageTick, q)
  }

  lemma SettledLists(s: Sys, c: nat, rsp: nat, wakeTick: nat, ageTick: nat, q: nat)
    requires SchedInv(s) && Online(s, c) && q < LEVELS
    ensures var v := Settled(s, c, rsp, wakeTick, ageTick);
            && Level(v.cpu.ready, q) == Queue(s, c, wakeTick, ageTick, q)
            && v.cpu.sleep == Unwoken(s.table, s.cpus[c].sleep, wakeTick)
  {
    var mine, v0 := Mine(s, c), ViewOf(s, c);
    assert CpuOk(s, c);
    SaveInv(v0, mine, rsp);
    SettleLists(Save(v0, rsp), mine, wakeTick, ageTick, q);
    SaveLines(v0, mine, rsp, wakeTick, ageTick, q);
  }

  /** The running thread of CPU c, after the tick it is charged. */
  lemma SettledCurrent(s: Sys, c: nat, rsp: nat, wakeTick: nat, ageTick: nat)
    requires SchedInv(s) && Online(s, c)
    ensures var x, v := s.cpus[c].current, Settled(s, c, rsp, wakeTick, ageTick);
            var t := Get(s.table, x);
            v.cpu.current == x && Get(v.table, x) == t.(rsp := rsp, ticks := if t.ticks > 0 then t.ticks - 1 else 0)
  {
    ReschedViews(s, c, rsp, wakeTick, ageTick);
    SettleEffect(Save(ViewOf(s, c), rsp), Mine(s, c), wakeTick, ageTick, s.cpus[c].current);
  }

  /** The running thread may go on although a thread of priority p is waiting: it is RUNNING, and above
      p, or level with it and its slice is not used up by this tick. */
  predicate GoesOn(t: Thread, p: nat) {
    t.state == Running && (p < t.priority || (p == t.priority && t.ticks > 1))
  }

  /** A reschedule leaves the CPU to the thread that has it exactly when it may go on in spite of every
      thread that waits. */
  lemma KeepsRunningIff(s: Sys, c: nat, rsp: nat, wakeTick: nat, ageTick: nat)
    requires SchedInv(s) && Enabled(s, Resched(c, rsp, wakeTick, ageTick))
    ensures var x, z := s.cpus[c].current, Next(s, Resched(c, rsp, wakeTick, ageTick));
            z.cpus[c].current == x
            <==> forall p: nat :: p < 32 && Queue(s, c, wakeTick, ageTick, p) != [] ==> GoesOn(Get(s.table, x), p)
  {
    var v := Settled(s, c, rsp, wakeTick, ageTick);
    ReschedViews(s, c, rsp, wakeTick, ageTick);
    SettledCurrent(s, c, rsp, wakeTick, ageTick);
    KeepsCpuIff(v, Mine(s, c));
    forall p: nat | p < LEVELS ensures Level(v.cpu.ready, p) == Queue(s, c, wakeTick, ageTick, p) {
      SettledLists(s, c, rsp, wakeTick, ageTick, p);
    }
  }

  /** sched_reschedule with p the highest list that is not empty: who runs, and who stands where in list
      q and in the sleep list afterwards. */
  lemma ReschedIs(s: Sys, c: nat, rsp: nat, wakeTick: nat, ageTick: nat, p: nat, q: nat)
    requires SchedInv(s) && Enabled(s, Resched(c, rsp, wakeTick, ageTick)) && p < 32 && q < 32
    requires Queue(s, c, wakeTick, ageTick, p) != []
    requires forall r: nat :: p < r < 32 ==> Queue(s, c, wakeTick, ageTick, r) == []
    ensures var x, cpu := s.cpus[c].current, Next(s, Resched(c, rsp, wakeTick, ageTick)).cpus[c];
            var t, l, asleep := Get(s.table, x), Queue(s, c, wakeTick, ageTick, q),
                                Unwoken(s.table, s.cpus[c].sleep, wakeTick);
            if GoesOn(t, p) then cpu.current == x && Level(cpu.ready, q) == l && cpu.sleep == asleep
            else
              && cpu.current == Queue(s, c, wakeTick, ageTick, p)[0]
              && Level(cpu.ready, q)
                 == (if q == p then l[1..] else l) + (if t.state == Running && q == t.priority then [x] else [])
              && cpu.sleep == (if t.state == Sleeping then [x] else []) + asleep
  {
    var v := Settled(s, c, rsp, wakeTick, ageTick);
    ReschedViews(s, c, rsp, wakeTick, ageTick);
    SettledCurrent(s, c, rsp, wakeTick, ageTick);
    forall r: nat | r < LEVELS ensures Level(v.cpu.ready, r) == Queue(s, c, wakeTick, ageTick, r) {
      SettledLists(s, c, rsp, wakeTick, ageTick, r);
    }
    SettledLists(s, c, rsp, wakeTick, ageTick, q);
    ChooseIs(v, Mine(s, c), p, q);
  }

  /** With nothing waiting the thread that has the CPU keeps it; it is RUNNING. */
  lemma ReschedAlone(s: Sys, c: nat, rsp: nat, wakeTick: nat, ageTick: nat, q: nat)
    requires SchedInv(s) && Enabled(s, Resched(c, rsp, wakeTick, ageTick)) && q < 32
    requires forall r: nat :: r < 32 ==> Queue(s, c, wakeTick, ageTick, r) == []
    ensures var x, cpu := s.cpus[c].current, Next(s, Resched(c, rsp, wakeTick, ageTick)).cpus[c];
            && cpu.current == x && Get(s.table, x).state == Running && Level(cpu.ready, q) == []
            && cpu.sleep == Unwoken(s.table, s.cpus[c].sleep, wakeTick)
  {
    var v := Settled(s, c, rsp, wakeTick, ageTick);
    ReschedViews(s, c, rsp, wakeTick, ageTick);
    SettledCurrent(s, c, rsp, wakeTick, ageTick);
    forall r: nat | r < LEVELS ensures Level(v.cpu.ready, r) == [] { SettledLists(s, c, rsp, wakeTick, ageTick, r); }
    SettledLists(s, c, rsp, wakeTick, ageTick, q);
    ChooseNothing(v);
    SomethingRuns(s, c, rsp, wakeTick, ageTick);
  }

  /** What a reschedule makes of the structure of thread x of the CPU. */
  lemma ReschedRecord(s: Sys, c: nat, rsp: nat, wakeTick: nat, ageTick: nat, x: Ptr)
    requires SchedInv(s) && Enabled(s, Resched(c, rsp, wakeTick, ageTick)) && x in Mine(s, c)
    ensures var z, was := Next(s, Resched(c, rsp, wakeTick, ageTick)), s.cpus[c].current;
            var t, next := SettledThread(Save(ViewOf(s, c), rsp), x, wakeTick, ageTick), z.cpus[c].current;
            t.priority <= 31 && (x in z.table ==>
              z.table[x] == if x == next != was then t.(state := Running)
                            else if x == was != next && t.state == Running
                            then t.(state := Ready, ticks := 2 * (32 - t.priority))
                            else t)
  {
    var v1, v := Save(ViewOf(s, c), rsp), Settled(s, c, rsp, wakeTick, ageTick);
    ReschedViews(s, c, rsp, wakeTick, ageTick);
    SettleEffect(v1, Mine(s, c), wakeTick, ageTick, x);
    assert Located(v, x);
    ChooseEffect(v, Mine(s, c), x);
  }
}
