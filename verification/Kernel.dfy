/** All CPUs together with the kernel heap, as a step system. A reschedule is one step, with its kfree
    calls; a spawn and a hand-off are two, with the thread in flight between them. */
module Kernel {
  import opened Common
  import opened CpuSched
  import opened Aging
  import H = HeapSpec

  const THREAD_SIZE := 104 // sizeof(thread_t)
  const STACK_SIZE := 8192
  const FRAME_SIZE := 176  // the 22 words of a fresh thread's first frame

  /** A thread that is in no list and runs nowhere: newly made, or taken by a hand-off. */
  datatype Flight = Newborn | Handoff(dest: nat)

  datatype Sys = Sys(table: Table, cpus: seq<Cpu>, flight: map<Ptr, Flight>, idle: map<Ptr, nat>,
                     nextTid: nat, nextCpu: nat, heap: seq<H.Block>, base: nat)

  datatype Step =
    | CpuInit                // cpu_init, apart from its kmalloc
    | SchedInit(c: nat)      // sched_init on CPU c
    | SpawnBegin(user: bool, priority: nat)
    | SpawnEnd(x: Ptr)
    | Resched(c: nat, rsp: nat, wakeTick: nat, ageTick: nat)
    | Sleep(c: nat, ms: nat, tick: nat)
    | Exit(c: nat)
    | Take(dest: nat, c: nat, x: Ptr)
    | Put(x: Ptr)
    | OtherMalloc(n: nat)
    | OtherFree(p: nat)

  // ---------- the steps ----------

  function ViewOf(s: Sys, c: nat): View
    requires c < |s.cpus|
  {
    View(s.table, s.cpus[c])
  }

  /** The CPU has run sched_init: it has a current thread. */
  predicate Online(s: Sys, c: nat) {
    c < |s.cpus| && s.cpus[c].current != 0
  }

  function NoLists(): seq<seq<Ptr>> { seq(LEVELS, _ => []) }

  predicate NothingListed(cpu: Cpu) {
    cpu.sleep == [] && cpu.ready == NoLists()
  }

  /** sched_init on CPU c: it allocates the idle thread, runs it and empties the lists. */
  function StartSched(s: Sys, c: nat): Sys
    requires c < |s.cpus| && Carve(s.heap, false).Some?
  {
    var (h, x, k, u) := Carve(s.heap, false).value;
    s.(heap := h, table := s.table[x := Thread(s.nextTid, 0, Running, 0, 0, 0, 0, 0, k, 0)], idle := s.idle[x := c],
       cpus := s.cpus[c := Cpu(x, NoLists(), [], s.cpus[c].lastAge)], nextTid := s.nextTid + 1)
  }

  /** A spawn up to the point where the thread goes into a list. */
  function Spawned(s: Sys, user: bool, priority: nat): Sys
    requires Carve(s.heap, user).Some?
  {
    var (h, x, k, u) := Carve(s.heap, user).value;
    s.(heap := h, table := s.table[x := Fresh(s.nextTid, Clamp(priority), s.nextCpu, k, u)],
       flight := s.flight[x := Newborn], nextTid := s.nextTid + 1,
       nextCpu := if s.nextCpu + 1 == |s.cpus| then 0 else s.nextCpu + 1)
  }

  function WithView(s: Sys, c: nat, v: View): Sys
    requires c < |s.cpus|
  {
    s.(table := v.table, cpus := s.cpus[c := v.cpu])
  }

  /** kmalloc of the structure, the kernel stack and, for a user thread, the user stack. */
  function Carve(h: seq<H.Block>, user: bool): Option<(seq<H.Block>, nat, nat, nat)> {
    var (h1, x) := H.Malloc(h, THREAD_SIZE);
    var (h2, k) := H.Malloc(h1, STACK_SIZE);
    var (h3, u) := if user then H.Malloc(h2, STACK_SIZE) else (h2, Some(0));
    if x.Some? && k.Some? && u.Some? then Some((h3, x.value, k.value, u.value)) else None
  }

  function Clamp(priority: nat): nat { if priority > MAX_PRIORITY then MAX_PRIORITY else priority }

  function Fresh(tid: nat, priority: nat, cpu: nat, stack: nat, ustack: nat): Thread {
    Thread(tid, if stack + STACK_SIZE >= FRAME_SIZE then stack + STACK_SIZE - FRAME_SIZE else 0,
           Ready, priority, cpu, Slice(priority), 0, 0, stack, ustack)
  }

  function FreePayload(h: seq<H.Block>, p: nat): seq<H.Block> {
    if H.Index(h, p) < |h| then H.Free(h, H.Index(h, p)) else h
  }

  function FreeBlocks(h: seq<H.Block>, ps: seq<nat>): seq<H.Block>
    decreases |ps|
  {
    if ps == [] then h else FreeBlocks(FreePayload(h, ps[0]), ps[1..])
  }

  ghost predicate Owns(t: Table, x: Ptr, a: nat) {
    x in t && a in Blocks(t[x], x)
  }

  /** What the kernel can do next. Of the two ticks a reschedule reads the second is the later one, and
      no earlier than the last aging pass of the CPU; between CPUs ticks are not ordered. CPUs run
      sched_init before anything is put in their lists. */
  ghost predicate Enabled(s: Sys, step: Step) {
    match step
    case CpuInit => true
    case SchedInit(c) => c < |s.cpus| && !Online(s, c) && NothingListed(s.cpus[c]) && Carve(s.heap, false).Some?
    case SpawnBegin(user, priority) => s.cpus != [] && Carve(s.heap, user).Some?
    case SpawnEnd(x) => x in s.flight && s.flight[x] == Newborn
    case Resched(c, rsp, wakeTick, ageTick) => Online(s, c) && wakeTick <= ageTick && s.cpus[c].lastAge <= ageTick
    case Sleep(c, ms, tick) => Online(s, c) && s.cpus[c].current !in s.idle
    case Exit(c) => Online(s, c) && s.cpus[c].current !in s.idle
    case Take(dest, c, x) =>
      dest < |s.cpus| && c < |s.cpus| && x !in s.idle && x in Level(s.cpus[c].ready, Get(s.table, x).priority)
    case Put(x) => x in s.flight && s.flight[x].Handoff?
    case OtherMalloc(n) => true
    case OtherFree(p) => p in H.Payloads(H.Live(s.heap)) && forall x :: !Owns(s.table, x, p)
  }

  /** sched_reschedule up to the choice of a thread. */
  function Settled(s: Sys, c: nat, rsp: nat, wakeTick: nat, ageTick: nat): View
    requires c < |s.cpus|
  {
    Settle(Save(ViewOf(s, c), rsp), wakeTick, ageTick)
  }

  ghost function Next(s: Sys, step: Step): Sys
    requires Enabled(s, step)
  {
    match step
    case CpuInit => s.(cpus := s.cpus + [Cpu(0, NoLists(), [], 0)])
    case SchedInit(c) => StartSched(s, c)
    case SpawnBegin(user, priority) => Spawned(s, user, priority)
    case SpawnEnd(x) => Land(s, x, Get(s.table, x))
    case Resched(c, rsp, wakeTick, ageTick) =>
      var v := Settled(s, c, rsp, wakeTick, ageTick);
      var x := v.cpu.current;
      WithView(s, c, Choose(v)).(
        heap := if x in Freed(v) then FreeBlocks(s.heap, Blocks(Get(v.table, x), x)) else s.heap)
    case Sleep(c, ms, tick) =>
      var x := s.cpus[c].current;
      s.(table := s.table[x := Get(s.table, x).(state := Sleeping, wakeup := tick + ms / 10)])
    case Exit(c) =>
      var x := s.cpus[c].current;
      s.(table := s.table[x := Get(s.table, x).(state := Dead)])
    case Take(dest, c, x) =>
      s.(cpus := s.cpus[c := Depart(s.cpus[c], Get(s.table, x).priority, x)], flight := s.flight[x := Handoff(dest)])
    case Put(x) => Land(s, x, Get(s.table, x).(priority := MAX_PRIORITY, affinity := s.flight[x].dest))
    case OtherMalloc(n) => s.(heap := H.Malloc(s.heap, n).0)
    case OtherFree(p) => s.(heap := FreePayload(s.heap, p))
  }

  /** A thread in flight, as t, is pushed onto the CPU it belongs to. */
  function Land(s: Sys, x: Ptr, t: Thread): Sys {
    var s' := s.(table := s.table[x := t], flight := s.flight - {x});
    if t.affinity < |s.cpus| then s'.(cpus := s.cpus[t.affinity := Arrive(s.cpus[t.affinity], t.priority, x)]) else s'
  }

  ghost predicate ValidRun(s: Sys, steps: seq<Step>)
    decreases |steps|
  {
    steps == [] || (Enabled(s, steps[0]) && ValidRun(Next(s, steps[0]), steps[1..]))
  }

  ghost function Exec(s: Sys, steps: seq<Step>): Sys
    requires ValidRun(s, steps)
    decreases |steps|
  {
    if steps == [] then s else Exec(Next(s, steps[0]), steps[1..])
  }

  // ---------- the invariant ----------

  /** The CPU a thread belongs to. The affinity field of an idle thread is never set. */
  function Home(s: Sys, x: Ptr): nat {
    if x in s.idle then s.idle[x] else Get(s.table, x).affinity
  }

  ghost function Mine(s: Sys, c: nat): set<Ptr> {
    set x | x in s.table && x !in s.flight && Home(s, x) == c
  }

  ghost predicate CpuOk(s: Sys, c: nat) {
    c < |s.cpus| ==> Listed(ViewOf(s, c), Mine(s, c)) && (Online(s, c) ==> Inv(ViewOf(s, c), Mine(s, c)))
  }

  ghost predicate ThreadOk(s: Sys, x: Ptr) {
    && (x in s.table && x !in s.flight ==> Home(s, x) < |s.cpus|)
    && (x in s.flight ==>
          && x in s.table && x !in s.idle
          && s.table[x].state == Ready && s.table[x].priority <= MAX_PRIORITY && s.table[x].age <= AGE_LIMIT
          && (if s.flight[x] == Newborn then s.table[x].affinity else s.flight[x].dest) < |s.cpus|)
    && (x in s.idle ==> x in s.table && s.idle[x] < |s.cpus| && s.table[x].state in {Running, Ready})
    && (x in s.table ==> x != 0 && s.table[x].tid < s.nextTid)
  }

  /** Every CPU that is up has an idle thread. */
  ghost predicate HasIdle(s: Sys, c: nat) {
    Online(s, c) ==> exists x :: x in s.idle && s.idle[x] == c
  }

  ghost predicate SameTid(s: Sys, x: Ptr, y: Ptr) {
    x in s.table && y in s.table && s.table[x].tid == s.table[y].tid ==> x == y
  }

  ghost predicate SchedInv(s: Sys) {
    && (s.nextCpu < |s.cpus| || (s.cpus == [] && s.nextCpu == 0))
    && (forall c: nat {:trigger CpuOk(s, c)} :: CpuOk(s, c))
    && (forall x {:trigger ThreadOk(s, x)} :: ThreadOk(s, x))
    && (forall c: nat {:trigger HasIdle(s, c)} :: HasIdle(s, c))
    && (forall x, y {:trigger SameTid(s, x, y)} :: SameTid(s, x, y))
  }

  // ---------- every step keeps the invariant ----------

  /** The threads of CPU c2 are untouched. */
  ghost predicate Quiet(s: Sys, s': Sys, c2: nat) {
    && c2 < |s.cpus| == |s'.cpus| && s'.cpus[c2] == s.cpus[c2]
    && Mine(s', c2) == Mine(s, c2)
    && forall x :: x in Mine(s, c2) ==> Get(s'.table, x) == Get(s.table, x)
  }

  lemma QuietOk(s: Sys, s': Sys, c2: nat)
    requires CpuOk(s, c2) && Quiet(s, s', c2)
    ensures CpuOk(s', c2)
  {
    FrameInv(ViewOf(s, c2), ViewOf(s', c2), Mine(s, c2));
  }

  /** A step that leaves the other CPUs alone. */
  lemma OtherCpus(s: Sys, s': Sys, c: nat)
    requires SchedInv(s) && |s'.cpus| == |s.cpus| && CpuOk(s', c)
    requires forall c2: nat {:trigger Quiet(s, s', c2)} :: c2 < |s.cpus| && c2 != c ==> Quiet(s, s', c2)
    ensures forall c2: nat {:trigger CpuOk(s', c2)} :: CpuOk(s', c2)
  {
    forall c2: nat ensures CpuOk(s', c2) {
      if c2 < |s.cpus| && c2 != c {
        assert CpuOk(s, c2) && Quiet(s, s', c2);
        QuietOk(s, s', c2);
      }
    }
  }

  lemma IdleKept(s: Sys, s': Sys)
    requires SchedInv(s) && s'.idle == s.idle
    requires forall c: nat {:trigger Online(s', c)} :: Online(s', c) ==> Online(s, c)
    ensures forall c: nat {:trigger HasIdle(s', c)} :: HasIdle(s', c)
  {
    forall c: nat ensures HasIdle(s', c) {
      assert HasIdle(s, c);
    }
  }

  lemma TouchStep(s: Sys, s': Sys, c: nat, t: Thread)
    requires SchedInv(s) && Online(s, c) && s.cpus[c].current !in s.idle
    requires s' == s.(table := s.table[s.cpus[c].current := t])
    requires var was := Get(s.table, s.cpus[c].current);
             && t.state != Ready && t.priority == was.priority && t.age == was.age
             && t.affinity == was.affinity && t.tid == was.tid
    ensures SchedInv(s')
  {
    var x := s.cpus[c].current;
    assert CpuOk(s, c) && ThreadOk(s, x);
    assert x in Mine(s, c);
    forall c2: nat ensures Mine(s', c2) == Mine(s, c2) {
    }
    TouchCurrent(ViewOf(s, c), Mine(s, c), ViewOf(s', c));
    forall c2: nat | c2 < |s.cpus| && c2 != c ensures Quiet(s, s', c2) {
    }
    OtherCpus(s, s', c);
    IdleKept(s, s');
    forall y ensures ThreadOk(s', y) { assert ThreadOk(s, y); }
    forall y, z ensures SameTid(s', y, z) { assert SameTid(s, y, z); }
  }

  lemma LandStep(s: Sys, x: Ptr, t: Thread)
    requires SchedInv(s) && x in s.flight && t.affinity < |s.cpus|
    requires var u := Get(s.table, x);
             t == u.(priority := t.priority, affinity := t.affinity) && u.priority <= t.priority <= MAX_PRIORITY
    ensures SchedInv(Land(s, x, t))
  {
    var c, s' := t.affinity, Land(s, x, t);
    assert CpuOk(s, c) && ThreadOk(s, x);
    var v := View(s'.table, s.cpus[c]);
    FrameInv(ViewOf(s, c), v, Mine(s, c));
    ArriveInv(v, Mine(s, c), t.priority, x);
    assert Mine(s', c) == Mine(s, c) + {x};
    forall c2: nat | c2 < |s.cpus| && c2 != c ensures Quiet(s, s', c2) {
      assert Mine(s', c2) == Mine(s, c2);
    }
    OtherCpus(s, s', c);
    IdleKept(s, s');
    forall y ensures ThreadOk(s', y) { assert ThreadOk(s, y); }
    forall y, z ensures SameTid(s', y, z) { assert SameTid(s, y, z); }
  }

  lemma TakeStep(s: Sys, dest: nat, c: nat, x: Ptr)
    requires SchedInv(s) && Enabled(s, Take(dest, c, x))
    ensures SchedInv(Next(s, Take(dest, c, x)))
  {
    var s', p := Next(s, Take(dest, c, x)), Get(s.table, x).priority;
    assert CpuOk(s, c);
    DepartInv(ViewOf(s, c), Mine(s, c), p, x);
    assert Mine(s', c) == Mine(s, c) - {x};
    assert Located(ViewOf(s, c), x);
    forall c2: nat | c2 < |s.cpus| && c2 != c ensures Quiet(s, s', c2) {
      assert Mine(s', c2) == Mine(s, c2);
    }
    OtherCpus(s, s', c);
    IdleKept(s, s');
    forall y ensures ThreadOk(s', y) { assert ThreadOk(s, y); }
    forall y, z ensures SameTid(s', y, z) { assert SameTid(s, y, z); }
  }

  lemma SpawnStep(s: Sys, user: bool, priority: nat)
    requires SchedInv(s) && Enabled(s, SpawnBegin(user, priority)) && Carve(s.heap, user).value.1 !in s.table
    ensures SchedInv(Next(s, SpawnBegin(user, priority)))
  {
    var s', x := Next(s, SpawnBegin(user, priority)), Carve(s.heap, user).value.1;
    assert ThreadOk(s, x);
    forall c2: nat ensures CpuOk(s', c2) {
      assert CpuOk(s, c2);
      if c2 < |s.cpus| {
        assert Mine(s', c2) == Mine(s, c2);
        QuietOk(s, s', c2);
      }
    }
    IdleKept(s, s');
    forall y ensures ThreadOk(s', y) { assert ThreadOk(s, y); }
    forall y, z ensures SameTid(s', y, z) { assert SameTid(s, y, z) && ThreadOk(s, y) && ThreadOk(s, z); }
  }

  /** The three stages of a reschedule on CPU c, with what each keeps. */
  lemma ReschedViews(s: Sys, c: nat, rsp: nat, wakeTick: nat, ageTick: nat)
    requires SchedInv(s) && Online(s, c)
    ensures var mine, v1, v2 := Mine(s, c), Save(ViewOf(s, c), rsp), Settled(s, c, rsp, wakeTick, ageTick);
            && Inv(ViewOf(s, c), mine) && Inv(v1, mine) && Inv(v2, mine) && Inv(Choose(v2), mine - Freed(v2))
            && Elsewhere(v1, v2, mine) && Elsewhere(v2, Choose(v2), mine)
            && v2.cpu.current == s.cpus[c].current && v2.table.Keys == s.table.Keys
            && Choose(v2).table.Keys == s.table.Keys - Freed(v2)
            && Choose(v2).cpu.lastAge in {s.cpus[c].lastAge, ageTick}
  {
    var mine, v0 := Mine(s, c), ViewOf(s, c);
    assert CpuOk(s, c);
    SaveInv(v0, mine, rsp);
    SettleInv(Save(v0, rsp), mine, wakeTick, ageTick);
    ChooseInv(Settled(s, c, rsp, wakeTick, ageTick), mine);
  }

  /** What becomes of thread x: the fields no reschedule touches, and threads of other CPUs. */
  lemma ReschedThread(s: Sys, c: nat, rsp: nat, wakeTick: nat, ageTick: nat, x: Ptr)
    requires SchedInv(s) && Online(s, c)
    ensures var v2 := Settled(s, c, rsp, wakeTick, ageTick);
            var t, t' := Get(s.table, x), Get(Choose(v2).table, x);
            && (x !in Mine(s, c) ==> t' == t)
            && (x in s.table && x !in Freed(v2) ==>
                  && Carried(t.(rsp := t'.rsp), t')
                  && t'.rsp == if x == s.cpus[c].current then rsp else t.rsp)
  {
    ReschedViews(s, c, rsp, wakeTick, ageTick);
    var mine, v1, v2 := Mine(s, c), Save(ViewOf(s, c), rsp), Settled(s, c, rsp, wakeTick, ageTick);
    assert Moved(v1.table, v2.table, mine, x) && Moved(v2.table, Choose(v2).table, mine, x);
  }

  /** A thread off the CPU that is dead, asleep until later or at home elsewhere is left alone. */
  lemma ReschedLeavesAlone(s: Sys, c: nat, rsp: nat, wakeTick: nat, ageTick: nat, x: Ptr)
    requires SchedInv(s) && Enabled(s, Resched(c, rsp, wakeTick, ageTick)) && x in s.table && x != s.cpus[c].current
    requires x in Mine(s, c) ==>
               s.table[x].state == Dead || (s.table[x].state == Sleeping && wakeTick < s.table[x].wakeup)
    ensures var z := Next(s, Resched(c, rsp, wakeTick, ageTick));
            x in z.table && z.table[x] == s.table[x] && z.flight == s.flight && z.idle == s.idle
            && (x in Mine(s, c) ==> z.cpus[c].current != x) && z.cpus == s.cpus[c := z.cpus[c]]
  {
    ReschedViews(s, c, rsp, wakeTick, ageTick);
    if x in Mine(s, c) {
      LeftAlone(Save(ViewOf(s, c), rsp), Mine(s, c), wakeTick, ageTick, x);
    } else {
      ReschedThread(s, c, rsp, wakeTick, ageTick, x);
    }
  }

  /** A thread that is ready or running is still one or the other after a reschedule. */
  lemma StillRunnable(s: Sys, c: nat, rsp: nat, wakeTick: nat, ageTick: nat, x: Ptr)
    requires SchedInv(s) && Online(s, c) && x in s.table && s.table[x].state in {Running, Ready}
    ensures var v2 := Settled(s, c, rsp, wakeTick, ageTick);
            x !in Freed(v2) && Get(Choose(v2).table, x).state in {Running, Ready}
  {
    ReschedViews(s, c, rsp, wakeTick, ageTick);
    ReschedThread(s, c, rsp, wakeTick, ageTick, x);
    var mine, v1, v2 := Mine(s, c), Save(ViewOf(s, c), rsp), Settled(s, c, rsp, wakeTick, ageTick);
    if x in mine {
      SettleEffect(v1, mine, wakeTick, ageTick, x);
      ChooseEffect(v2, mine, x);
    }
  }

  lemma ReschedThreadOk(s: Sys, c: nat, rsp: nat, wakeTick: nat, ageTick: nat, x: Ptr)
    requires SchedInv(s) && Enabled(s, Resched(c, rsp, wakeTick, ageTick))
    ensures var s', v2 := Next(s, Resched(c, rsp, wakeTick, ageTick)), Settled(s, c, rsp, wakeTick, ageTick);
            ThreadOk(s', x) && (x in s.table && x !in Freed(v2) ==> Home(s', x) == Home(s, x))
  {
    assert ThreadOk(s, x);
    ReschedViews(s, c, rsp, wakeTick, ageTick);
    ReschedThread(s, c, rsp, wakeTick, ageTick, x);
    if x in s.idle || x in s.flight { StillRunnable(s, c, rsp, wakeTick, ageTick, x); }
  }

  lemma ReschedStep(s: Sys, c: nat, rsp: nat, wakeTick: nat, ageTick: nat)
    requires SchedInv(s) && Enabled(s, Resched(c, rsp, wakeTick, ageTick))
    ensures SchedInv(Next(s, Resched(c, rsp, wakeTick, ageTick)))
  {
    var s' := Next(s, Resched(c, rsp, wakeTick, ageTick));
    var v2 := Settled(s, c, rsp, wakeTick, ageTick);
    ReschedViews(s, c, rsp, wakeTick, ageTick);
    assert CpuOk(s, c);
    forall x ensures ThreadOk(s', x) && (x in s.table && x !in Freed(v2) ==> Home(s', x) == Home(s, x)) {
      ReschedThreadOk(s, c, rsp, wakeTick, ageTick, x);
    }
    assert Mine(s', c) == Mine(s, c) - Freed(v2);
    forall c2: nat | c2 < |s.cpus| && c2 != c ensures Quiet(s, s', c2) {
      ReschedQuiet(s, c, rsp, wakeTick, ageTick, c2);
    }
    OtherCpus(s, s', c);
    IdleKept(s, s');
    forall y, z ensures SameTid(s', y, z) { ReschedTids(s, c, rsp, wakeTick, ageTick, y, z); }
  }

  lemma ReschedQuiet(s: Sys, c: nat, rsp: nat, wakeTick: nat, ageTick: nat, c2: nat)
    requires SchedInv(s) && Enabled(s, Resched(c, rsp, wakeTick, ageTick)) && c2 < |s.cpus| && c2 != c
    ensures Quiet(s, Next(s, Resched(c, rsp, wakeTick, ageTick)), c2)
  {
    var s' := Next(s, Resched(c, rsp, wakeTick, ageTick));
    ReschedViews(s, c, rsp, wakeTick, ageTick);
    forall x
      ensures x in Mine(s', c2) <==> x in Mine(s, c2)
      ensures x in Mine(s, c2) ==> Get(s'.table, x) == Get(s.table, x)
    {
      ReschedThread(s, c, rsp, wakeTick, ageTick, x);
      ReschedThreadOk(s, c, rsp, wakeTick, ageTick, x);
    }
  }

  lemma ReschedTids(s: Sys, c: nat, rsp: nat, wakeTick: nat, ageTick: nat, y: Ptr, z: Ptr)
    requires SchedInv(s) && Enabled(s, Resched(c, rsp, wakeTick, ageTick))
    ensures SameTid(Next(s, Resched(c, rsp, wakeTick, ageTick)), y, z)
  {
    assert SameTid(s, y, z);
    ReschedViews(s, c, rsp, wakeTick, ageTick);
    ReschedThread(s, c, rsp, wakeTick, ageTick, y);
    ReschedThread(s, c, rsp, wakeTick, ageTick, z);
  }

  // ---------- thread memory ----------

  ghost predicate Unshared(t: Table, x: Ptr, y: Ptr, a: nat) {
    Owns(t, x, a) && Owns(t, y, a) ==> x == y
  }

  /** The heap is canonical, the structure and the stacks of every thread are live blocks of it,
      and no block belongs to two threads or twice to one. */
  ghost predicate MemInv(s: Sys) {
    && s.base > 0 && s.base % 8 == 0 && H.Canonical(s.heap, s.base, s.base + H.POOL)
    && (forall x, a {:trigger Owns(s.table, x, a)} :: Owns(s.table, x, a) ==> a in H.Payloads(H.Live(s.heap)))
    && (forall x, y, a {:trigger Unshared(s.table, x, y, a)} :: Unshared(s.table, x, y, a))
    && (forall x :: x in s.table ==> NoDup(Blocks(s.table[x], x)))
  }

  lemma MallocLive(h: seq<H.Block>, base: nat, n: nat)
    requires H.Canonical(h, base, base + H.POOL) && base % 8 == 0 && H.Malloc(h, n).1.Some?
    ensures var (h', p) := H.Malloc(h, n);
            && H.Canonical(h', base, base + H.POOL)
            && H.Payloads(H.Live(h')) == H.Payloads(H.Live(h)) + {p.value}
            && p.value !in H.Payloads(H.Live(h)) && p.value > 0
  {
    H.MallocCanonical(h, base, base + H.POOL, n);
    var (h', p) := H.Malloc(h, n);
    var b := h'[H.FirstFit(h, H.Round(n))];
    H.PayloadsAdd(H.Live(h), b);
    H.PayloadsDistinct(h', base, base + H.POOL, b);
    forall q | q in H.Payloads(H.Live(h)) ensures q != p.value {
      var c :| c in H.Live(h) && c.Payload() == q;
      assert c in h' by { assert c in H.Live(h'); }
    }
  }

  lemma FreeLive(h: seq<H.Block>, base: nat, p: nat)
    requires H.Canonical(h, base, base + H.POOL) && p in H.Payloads(H.Live(h))
    ensures H.Canonical(FreePayload(h, p), base, base + H.POOL)
    ensures H.Payloads(H.Live(FreePayload(h, p))) == H.Payloads(H.Live(h)) - {p}
  {
    var b :| b in H.Live(h) && b.Payload() == p;
    H.IndexOfLive(h, base, base + H.POOL, b);
    H.FreeCanonical(h, base, base + H.POOL, H.Index(h, p));
    H.PayloadsDistinct(h, base, base + H.POOL, b);
    H.PayloadsRemove(H.Live(h), b);
  }

  ghost function Elems(ps: seq<nat>): set<nat> {
    set p | p in ps
  }

  lemma ElemsCons(ps: seq<nat>)
    requires NoDup(ps) && ps != []
    ensures Elems(ps) == {ps[0]} + Elems(ps[1..]) && ps[0] !in Elems(ps[1..]) && NoDup(ps[1..])
  {
    assert ps == [ps[0]] + ps[1..];
  }

  lemma {:induction false} FreeBlocksLive(h: seq<H.Block>, base: nat, ps: seq<nat>)
    requires H.Canonical(h, base, base + H.POOL) && NoDup(ps) && Elems(ps) <= H.Payloads(H.Live(h))
    ensures H.Canonical(FreeBlocks(h, ps), base, base + H.POOL)
    ensures H.Payloads(H.Live(FreeBlocks(h, ps))) == H.Payloads(H.Live(h)) - Elems(ps)
    decreases |ps|
  {
    if ps != [] {
      ElemsCons(ps);
      FreeLive(h, base, ps[0]);
      FreeBlocksLive(FreePayload(h, ps[0]), base, ps[1..]);
    }
  }

  /** The blocks of a new thread. */
  ghost function Made(x: Ptr, k: nat, u: nat, user: bool): set<nat> {
    if user then {x, k, u} else {x, k}
  }

  lemma CarveLive(h: seq<H.Block>, base: nat, user: bool)
    requires H.Canonical(h, base, base + H.POOL) && base % 8 == 0 && Carve(h, user).Some?
    ensures var (h', x, k, u) := Carve(h, user).value;
            var made := Made(x, k, u, user);
            && H.Canonical(h', base, base + H.POOL)
            && H.Payloads(H.Live(h')) == H.Payloads(H.Live(h)) + made
            && made !! H.Payloads(H.Live(h))
            && x != k && x > 0 && k > 0 && (if user then u > 0 && u != x && u != k else u == 0)
  {
    var (h1, x) := H.Malloc(h, THREAD_SIZE);
    MallocLive(h, base, THREAD_SIZE);
    var (h2, k) := H.Malloc(h1, STACK_SIZE);
    MallocLive(h1, base, STACK_SIZE);
    if user { MallocLive(h2, base, STACK_SIZE); }
  }

  /** Thread x, of table t', has the stacks it had in table t. */
  ghost predicate SameStacks(t: Table, t': Table, x: Ptr)
    requires x in t'
  {
    x in t && t'[x].stack == t[x].stack && t'[x].ustack == t[x].ustack
  }

  /** A change of the table that gives no thread a block it did not own. */
  lemma MemKept(s: Sys, s': Sys)
    requires MemInv(s) && s'.heap == s.heap && s'.base == s.base
    requires forall x :: x in s'.table ==> SameStacks(s.table, s'.table, x)
    ensures MemInv(s')
  {
    forall x, a ensures Owns(s'.table, x, a) ==> Owns(s.table, x, a) && a in H.Payloads(H.Live(s'.heap)) {
    }
    forall x, y, a ensures Unshared(s'.table, x, y, a) {
      assert Unshared(s.table, x, y, a);
      assert Owns(s'.table, x, a) ==> Owns(s.table, x, a);
      assert Owns(s'.table, y, a) ==> Owns(s.table, y, a);
    }
  }

  /** A new thread n with blocks that were not live before. */
  lemma GrowMem(s: Sys, s': Sys, h: seq<H.Block>, n: Ptr, t: Thread, made: set<nat>)
    requires MemInv(s) && n !in s.table && s'.table == s.table[n := t] && s'.base == s.base
    requires s'.heap == h && H.Canonical(h, s.base, s.base + H.POOL) && NoDup(Blocks(t, n))
    requires BlockSet(t, n) == made && made !! H.Payloads(H.Live(s.heap))
    requires H.Payloads(H.Live(h)) == H.Payloads(H.Live(s.heap)) + made
    ensures MemInv(s')
  {
    forall x, a | Owns(s'.table, x, a) ensures a in H.Payloads(H.Live(s'.heap)) {
      assert x != n ==> Owns(s.table, x, a);
    }
    forall x, y, a ensures Unshared(s'.table, x, y, a) {
      assert Unshared(s.table, x, y, a);
      assert x != n && Owns(s'.table, x, a) ==> Owns(s.table, x, a);
      assert y != n && Owns(s'.table, y, a) ==> Owns(s.table, y, a);
      assert x == n && Owns(s'.table, x, a) ==> a in BlockSet(t, n);
      assert y == n && Owns(s'.table, y, a) ==> a in BlockSet(t, n);
    }
  }

  lemma SpawnMem(s: Sys, user: bool, priority: nat)
    requires MemInv(s) && Carve(s.heap, user).Some?
    ensures MemInv(Spawned(s, user, priority)) && Carve(s.heap, user).value.1 !in s.table
  {
    var (h, n, k, u) := Carve(s.heap, user).value;
    CarveLive(s.heap, s.base, user);
    assert n in s.table ==> Owns(s.table, n, n);
    var s', t := Spawned(s, user, priority), Fresh(s.nextTid, Clamp(priority), s.nextCpu, k, u);
    assert s'.table == s.table[n := t] && s'.heap == h && s'.base == s.base && t.stack == k && t.ustack == u;
    ThreadBlocks(t, n, k, u, user);
    GrowMem(s, s', h, n, t, Made(n, k, u, user));
  }

  lemma ThreadBlocks(t: Thread, n: Ptr, k: nat, u: nat, user: bool)
    requires t.stack == k && t.ustack == u && n != k && (if user then u > 0 && u != n && u != k else u == 0)
    ensures BlockSet(t, n) == Made(n, k, u, user) && NoDup(Blocks(t, n))
  {
  }

  ghost function BlockSet(t: Thread, x: Ptr): set<nat> {
    Elems(Blocks(t, x))
  }

  /** Freeing the blocks of thread x, which is no longer in the table. */
  lemma ReapMem(s: Sys, s': Sys, x: Ptr)
    requires MemInv(s) && x in s.table && x !in s'.table && s'.base == s.base
    requires forall y :: y in s'.table ==> SameStacks(s.table, s'.table, y)
    requires s'.heap == FreeBlocks(s.heap, Blocks(s.table[x], x))
    ensures MemInv(s')
    ensures BlockSet(s.table[x], x) <= H.Payloads(H.Live(s.heap))
    ensures H.Payloads(H.Live(s'.heap)) == H.Payloads(H.Live(s.heap)) - BlockSet(s.table[x], x)
  {
    var ps := Blocks(s.table[x], x);
    MemKept(s, s'.(heap := s.heap));
    forall a | a in ps ensures a in H.Payloads(H.Live(s.heap)) {
      assert Owns(s.table, x, a);
    }
    FreeBlocksLive(s.heap, s.base, ps);
    forall y, a | Owns(s'.table, y, a) ensures a in H.Payloads(H.Live(s'.heap)) {
      assert Owns(s.table, y, a) && Unshared(s.table, x, y, a);
      assert a in ps ==> Owns(s.table, x, a);
    }
  }

  /** A reschedule frees at most one thread: a dead one of priority above 0, all of whose blocks
      were live and go back to the heap, each once. */
  lemma ReschedMem(s: Sys, c: nat, rsp: nat, wakeTick: nat, ageTick: nat)
    requires SchedInv(s) && MemInv(s) && Enabled(s, Resched(c, rsp, wakeTick, ageTick))
    ensures MemInv(Next(s, Resched(c, rsp, wakeTick, ageTick)))
    ensures var s', x := Next(s, Resched(c, rsp, wakeTick, ageTick)), s.cpus[c].current;
            var t := Get(s.table, x);
            x !in s'.table ==>
              && t.state == Dead && t.priority > 0 && NoDup(Blocks(t, x))
              && BlockSet(t, x) <= H.Payloads(H.Live(s.heap))
              && H.Payloads(H.Live(s'.heap)) == H.Payloads(H.Live(s.heap)) - BlockSet(t, x)
  {
    var s', x := Next(s, Resched(c, rsp, wakeTick, ageTick)), s.cpus[c].current;
    var v2 := Settled(s, c, rsp, wakeTick, ageTick);
    ReschedViews(s, c, rsp, wakeTick, ageTick);
    forall y | y in s'.table ensures SameStacks(s.table, s'.table, y) {
      ReschedThread(s, c, rsp, wakeTick, ageTick, y);
    }
    if x in Freed(v2) {
      ReapedThread(s, c, rsp, wakeTick, ageTick);
      ReapMem(s, s', x);
    } else {
      MemKept(s, s');
    }
  }

  lemma ReapedThread(s: Sys, c: nat, rsp: nat, wakeTick: nat, ageTick: nat)
    requires SchedInv(s) && Online(s, c) && s.cpus[c].current in Freed(Settled(s, c, rsp, wakeTick, ageTick))
    ensures var x, v2 := s.cpus[c].current, Settled(s, c, rsp, wakeTick, ageTick);
            && x in s.table && s.table[x].state == Dead && s.table[x].priority > 0
            && Blocks(Get(v2.table, x), x) == Blocks(s.table[x], x)
  {
    ReschedViews(s, c, rsp, wakeTick, ageTick);
    var x, v1 := s.cpus[c].current, Save(ViewOf(s, c), rsp);
    SettleEffect(v1, Mine(s, c), wakeTick, ageTick, x);
  }

  // ---------- every run ----------

  ghost predicate KernelInv(s: Sys) {
    SchedInv(s) && MemInv(s)
  }

  lemma HeapStep(s: Sys, h: seq<H.Block>)
    requires SchedInv(s)
    ensures SchedInv(s.(heap := h))
  {
    var s' := s.(heap := h);
    forall c: nat ensures CpuOk(s', c) {
      assert CpuOk(s, c);
      assert Mine(s', c) == Mine(s, c);
    }
    IdleKept(s, s');
    forall y ensures ThreadOk(s', y) { assert ThreadOk(s, y); }
    forall y, z ensures SameTid(s', y, z) { assert SameTid(s, y, z); }
  }

  lemma CpuInitStep(s: Sys)
    requires SchedInv(s)
    ensures SchedInv(Next(s, CpuInit))
  {
    var s' := Next(s, CpuInit);
    forall c: nat ensures CpuOk(s', c) {
      assert CpuOk(s, c);
      assert Mine(s', c) == Mine(s, c);
      if c < |s.cpus| {
        QuietView(s, s', c);
      } else if c == |s.cpus| {
        forall x ensures x !in Mine(s, c) { assert ThreadOk(s, x); }
      }
    }
    IdleKept(s, s');
    forall x ensures ThreadOk(s', x) { assert ThreadOk(s, x); }
    forall x, y ensures SameTid(s', x, y) { assert SameTid(s, x, y); }
  }

  lemma QuietView(s: Sys, s': Sys, c: nat)
    requires CpuOk(s, c) && c < |s.cpus| <= |s'.cpus| && ViewOf(s', c) == ViewOf(s, c) && Mine(s', c) == Mine(s, c)
    ensures CpuOk(s', c)
  {
  }

  /** sched_init on a CPU with nothing in its lists. */
  lemma StartStep(s: Sys, c: nat)
    requires KernelInv(s) && Enabled(s, SchedInit(c))
    ensures KernelInv(StartSched(s, c)) && Online(StartSched(s, c), c)
  {
    var s' := StartSched(s, c);
    var (h, x, k, u) := Carve(s.heap, false).value;
    CarveLive(s.heap, s.base, false);
    assert x in s.table ==> Owns(s.table, x, x);
    ThreadBlocks(s'.table[x], x, k, 0, false);
    GrowMem(s, s', h, x, s'.table[x], Made(x, k, 0, false));
    StartSchedInv(s, c, x);
  }

  /** The idle thread made by sched_init is a new thread. */
  lemma StartFresh(s: Sys, c: nat)
    requires MemInv(s) && c < |s.cpus| && Carve(s.heap, false).Some?
    ensures var x := StartSched(s, c).cpus[c].current; x != 0 && x !in s.table
  {
    CarveLive(s.heap, s.base, false);
    var x := Carve(s.heap, false).value.1;
    assert x in s.table ==> Owns(s.table, x, x);
  }

  lemma StartSchedInv(s: Sys, c: nat, x: Ptr)
    requires SchedInv(s) && Enabled(s, SchedInit(c)) && x == StartSched(s, c).cpus[c].current && x != 0 && x !in s.table
    ensures SchedInv(StartSched(s, c))
  {
    var s' := StartSched(s, c);
    assert ThreadOk(s, x);
    StartCpu(s, c, x);
    forall c2: nat | c2 < |s.cpus| && c2 != c ensures Quiet(s, s', c2) {
      assert Mine(s', c2) == Mine(s, c2);
    }
    OtherCpus(s, s', c);
    forall c2: nat ensures HasIdle(s', c2) {
      assert HasIdle(s, c2);
      if c2 != c && Online(s', c2) {
        var y :| y in s.idle && s.idle[y] == c2;
        assert ThreadOk(s, y);
        assert y in s'.idle && s'.idle[y] == c2;
      } else if c2 == c {
        assert s'.idle[x] == c;
      }
    }
    forall y ensures ThreadOk(s', y) { assert ThreadOk(s, y); }
    forall y, z ensures SameTid(s', y, z) { assert SameTid(s, y, z) && ThreadOk(s, y) && ThreadOk(s, z); }
  }

  lemma StartCpu(s: Sys, c: nat, x: Ptr)
    requires SchedInv(s) && Enabled(s, SchedInit(c)) && x == StartSched(s, c).cpus[c].current && x != 0 && x !in s.table
    ensures CpuOk(StartSched(s, c), c)
  {
    var s', v := StartSched(s, c), ViewOf(s, c);
    assert CpuOk(s, c) && ThreadOk(s, x);
    assert Mine(s', c) == Mine(s, c) + {x};
    forall y | y in Mine(s', c) ensures Located(ViewOf(s', c), y) {
      assert y != x ==> Located(v, y) && ThreadOk(s, y);
    }
  }

  lemma NextInv(s: Sys, step: Step)
    requires KernelInv(s) && Enabled(s, step)
    ensures KernelInv(Next(s, step))
  {
    var s' := Next(s, step);
    match step {
      case CpuInit =>
        CpuInitStep(s);
        MemKept(s, s');
      case SchedInit(c) => StartStep(s, c);
      case SpawnBegin(user, priority) =>
        SpawnMem(s, user, priority);
        SpawnStep(s, user, priority);
      case SpawnEnd(x) =>
        assert ThreadOk(s, x);
        LandStep(s, x, Get(s.table, x));
        MemKept(s, s');
      case Resched(c, rsp, wakeTick, ageTick) =>
        ReschedStep(s, c, rsp, wakeTick, ageTick);
        ReschedMem(s, c, rsp, wakeTick, ageTick);
      case Sleep(c, ms, tick) =>
        assert CpuOk(s, c);
        TouchStep(s, s', c, Get(s'.table, s.cpus[c].current));
        MemKept(s, s');
      case Exit(c) =>
        assert CpuOk(s, c);
        TouchStep(s, s', c, Get(s'.table, s.cpus[c].current));
        MemKept(s, s');
      case Take(dest, c, x) =>
        TakeStep(s, dest, c, x);
        MemKept(s, s');
      case Put(x) =>
        assert ThreadOk(s, x);
        LandStep(s, x, Get(s.table, x).(priority := MAX_PRIORITY, affinity := s.flight[x].dest));
        MemKept(s, s');
      case OtherMalloc(n) =>
        HeapStep(s, s'.heap);
        OtherMallocMem(s, n);
      case OtherFree(p) =>
        HeapStep(s, s'.heap);
        OtherFreeMem(s, p);
    }
  }

  lemma OtherMallocMem(s: Sys, n: nat)
    requires MemInv(s)
    ensures MemInv(s.(heap := H.Malloc(s.heap, n).0))
  {
    if H.Malloc(s.heap, n).1.Some? { MallocLive(s.heap, s.base, n); }
  }

  lemma OtherFreeMem(s: Sys, p: nat)
    requires MemInv(s) && Enabled(s, OtherFree(p))
    ensures MemInv(s.(heap := FreePayload(s.heap, p)))
  {
    FreeLive(s.heap, s.base, p);
  }

  /** The invariant holds after every interleaving of spawns, reschedules, sleeps, exits and
      hand-offs on any number of CPUs. */
  lemma {:induction false} AlwaysInv(s: Sys, steps: seq<Step>)
    requires KernelInv(s) && ValidRun(s, steps)
    ensures KernelInv(Exec(s, steps))
    decreases |steps|
  {
    if steps != [] {
      NextInv(s, steps[0]);
      AlwaysInv(Next(s, steps[0]), steps[1..]);
    }
  }

  /** A thread that is in no flight, and that a step other than a reschedule is not about, is left
      alone; CPUs go on with the thread they run. */
  lemma Bystander(s: Sys, step: Step, x: Ptr, c: nat)
    requires KernelInv(s) && Enabled(s, step) && x in s.table && x !in s.flight && c < |s.cpus|
    requires !step.Resched? && (step.Sleep? || step.Exit? ==> s.cpus[step.c].current != x)
    requires step.Take? ==> step.x != x
    ensures var z := Next(s, step);
            && x in z.table && z.table[x] == s.table[x] && x !in z.flight && Home(z, x) == Home(s, x)
            && c < |z.cpus| && (Online(s, c) ==> z.cpus[c].current == s.cpus[c].current)
            && (s.cpus[c].current != x ==> z.cpus[c].current != x)
  {
    match step {
      case SchedInit(d) => StartFresh(s, d);
      case SpawnBegin(user, priority) => SpawnMem(s, user, priority);
      case _ =>
    }
  }

  /** A thread that is taken out of a list is ready, and runs nowhere. */
  lemma TakenIsReady(s: Sys, dest: nat, c: nat, x: Ptr)
    requires SchedInv(s) && Enabled(s, Take(dest, c, x))
    ensures x in s.table && s.table[x].state == Ready && x !in s.flight && x != s.cpus[c].current && Home(s, x) == c
  {
    assert CpuOk(s, c) && ListOk(ViewOf(s, c), Mine(s, c), Get(s.table, x).priority);
  }
}
