/** Round robin at the top: how many reschedules a thread of priority 31 can be kept waiting. */
module Fairness {
  import opened CpuSched
  import opened Aging
  import opened Kernel
  import opened Placement

  // ---------- one CPU ----------

  /** A thread holds the CPU for its remaining slice, but for one reschedule at least. */
  function Cost(t: Thread): nat { if t.ticks > 1 then t.ticks else 1 }

  /** The running thread gives way at once unless it is RUNNING at priority 31. */
  function RunCost(t: Thread): nat {
    if t.priority == MAX_PRIORITY && t.state == Running then Cost(t) else 1
  }

  function SumCost(table: Table, l: seq<Ptr>): nat {
    if l == [] then 0 else Cost(Get(table, l[0])) + SumCost(table, l[1..])
  }

  function TopList(cpu: Cpu): seq<Ptr> { Level(cpu.ready, MAX_PRIORITY) }

  /** max(r, 1) for the running thread plus max(r_i, 1) for every thread ahead of x in list 31. */
  function Wait(v: View, x: Ptr): nat {
    RunCost(Get(v.table, v.cpu.current)) + SumCost(v.table, TopList(v.cpu)[..Position(TopList(v.cpu), x)])
  }

  lemma {:induction false} SumSame(t: Table, t': Table, l: seq<Ptr>)
    requires forall y :: y in l ==> Cost(Get(t', y)) == Cost(Get(t, y))
    ensures SumCost(t', l) == SumCost(t, l)
  {
    if l != [] { SumSame(t, t', l[1..]); }
  }

  lemma PositionIn(l: seq<Ptr>, x: Ptr, k: nat)
    requires NoDup(l) && k < |l| && l[k] == x
    ensures Position(l, x) == k
  {
  }

  /** The threads waiting at the top keep their structures through waking and aging. */
  lemma TopUntouched(v: View, mine: set<Ptr>, rsp: nat, wakeTick: nat, ageTick: nat, y: Ptr)
    requires Inv(v, mine) && y in TopList(v.cpu)
    ensures y in mine && Get(Settle(Save(v, rsp), wakeTick, ageTick).table, y) == Get(v.table, y)
  {
    assert ListOk(v, mine, MAX_PRIORITY);
    SaveInv(v, mine, rsp);
    SettleEffect(Save(v, rsp), mine, wakeTick, ageTick, y);
  }

  /** The running thread used up its slice, or was not entitled to one: the first of the list runs. */
  lemma NextTurn(v: View, mine: set<Ptr>, x: Ptr)
    requires Inv(v, mine) && x in TopList(v.cpu) && Yields(Get(v.table, v.cpu.current), MAX_PRIORITY)
    ensures var z, l := Choose(v), TopList(v.cpu);
            && z.cpu.current == l[0]
            && (x != l[0] ==> x in TopList(z.cpu) && Wait(z, x) == SumCost(v.table, l[..Position(l, x)]))
  {
    var z, l, x0 := Choose(v), TopList(v.cpu), v.cpu.current;
    var k := Position(l, x);
    SwitchInv(v, mine, MAX_PRIORITY);
    HeadFacts(v, mine, MAX_PRIORITY);
    assert ListOk(v, mine, MAX_PRIORITY) && ListOk(z, mine - Reaped(v), MAX_PRIORITY);
    assert z == Switch(v, MAX_PRIORITY);
    if k > 0 {
      var l' := TopList(z.cpu);
      assert l' == l[1..] || l' == l[1..] + [x0];
      assert l'[k - 1] == x;
      PositionIn(l', x, k - 1);
      assert l'[..k - 1] == l[..k][1..];
      forall y | y in l'[..k - 1] ensures Get(z.table, y) == Get(v.table, y) {
        assert y in l && y != l[0];
        ChooseEffect(v, mine, y);
      }
      SumSame(v.table, z.table, l'[..k - 1]);
    }
  }

  /** A reschedule with no insertion at the head of list 31 runs x or brings its turn nearer. */
  lemma TurnCloser(v: View, mine: set<Ptr>, rsp: nat, wakeTick: nat, ageTick: nat, x: Ptr)
    requires Inv(v, mine) && x in TopList(v.cpu)
    requires TopList(Settle(Save(v, rsp), wakeTick, ageTick).cpu) == TopList(v.cpu)
    ensures var z := Choose(Settle(Save(v, rsp), wakeTick, ageTick));
            z.cpu.current == x || (x in TopList(z.cpu) && Wait(z, x) + 1 <= Wait(v, x))
  {
    var v1, w, l := Save(v, rsp), Settle(Save(v, rsp), wakeTick, ageTick), TopList(v.cpu);
    SaveInv(v, mine, rsp);
    SettleInv(v1, mine, wakeTick, ageTick);
    SettleEffect(v1, mine, wakeTick, ageTick, v.cpu.current);
    var ahead := l[..Position(l, x)];
    forall y | y in ahead ensures Get(w.table, y) == Get(v.table, y) {
      assert y in l;
      TopUntouched(v, mine, rsp, wakeTick, ageTick, y);
    }
    SumSame(v.table, w.table, ahead);
    assert Located(w, w.cpu.current);
    if Yields(Get(w.table, w.cpu.current), MAX_PRIORITY) {
      NextTurn(w, mine, x);
    }
  }

  // ---------- all CPUs ----------

  /** No thread is inserted at the head of CPU c's list 31, and x is not taken out of it. */
  ghost predicate Undisturbed(s: Sys, step: Step, c: nat, x: Ptr)
    requires Enabled(s, step) && c < |s.cpus|
  {
    match step
    case SpawnEnd(y) => !(Get(s.table, y).affinity == c && Get(s.table, y).priority == MAX_PRIORITY)
    case Put(y) => s.flight[y].dest != c
    case Take(_, _, y) => y != x
    case Resched(d, rsp, wakeTick, ageTick) =>
      d == c ==> TopList(Settled(s, c, rsp, wakeTick, ageTick).cpu) == TopList(s.cpus[c])
    case _ => true
  }

  /** Nothing that x waits for has changed. */
  lemma SameWait(s: Sys, z: Sys, c: nat, x: Ptr)
    requires SchedInv(s) && c < |s.cpus| <= |z.cpus| && TopList(z.cpus[c]) == TopList(s.cpus[c])
    requires z.cpus[c].current == s.cpus[c].current
    requires forall y :: y in Mine(s, c) ==> y == s.cpus[c].current || Get(z.table, y) == Get(s.table, y)
    requires RunCost(Get(z.table, s.cpus[c].current)) <= RunCost(Get(s.table, s.cpus[c].current))
    ensures Wait(ViewOf(z, c), x) <= Wait(ViewOf(s, c), x)
  {
    var l := TopList(s.cpus[c]);
    var ahead := l[..Position(l, x)];
    assert CpuOk(s, c) && ListOk(ViewOf(s, c), Mine(s, c), MAX_PRIORITY);
    forall y | y in ahead ensures Get(z.table, y) == Get(s.table, y) { assert y in l; }
    SumSame(s.table, z.table, ahead);
  }

  lemma {:induction false} SumWithout(t: Table, l: seq<Ptr>, k: nat)
    requires k < |l|
    ensures SumCost(t, Without(l, k)) <= SumCost(t, l)
    decreases |l|
  {
    if k == 0 {
      assert Without(l, 0) == l[1..];
    } else {
      assert Without(l, k)[1..] == Without(l[1..], k - 1) && Without(l, k)[0] == l[0];
      SumWithout(t, l[1..], k - 1);
    }
  }

  /** Taking another thread out of the list does not push x back. */
  lemma TakenAway(t: Table, l: seq<Ptr>, j: nat, x: Ptr)
    requires NoDup(l) && j < |l| && x in l && l[j] != x
    ensures x in Without(l, j)
    ensures SumCost(t, Without(l, j)[..Position(Without(l, j), x)]) <= SumCost(t, l[..Position(l, x)])
  {
    var r, k := Without(l, j), Position(l, x);
    WithoutFacts(l, j);
    if j < k {
      PositionIn(r, x, k - 1);
      assert r[..k - 1] == Without(l[..k], j);
      SumWithout(t, l[..k], j);
    } else {
      PositionIn(r, x, k);
      assert r[..k] == l[..k];
    }
  }

  lemma TakeWait(s: Sys, dest: nat, d: nat, y: Ptr, c: nat, x: Ptr)
    requires KernelInv(s) && c < |s.cpus| && x in TopList(s.cpus[c]) && x != y
    requires Enabled(s, Take(dest, d, y))
    ensures var z := Next(s, Take(dest, d, y));
            x in TopList(z.cpus[c]) && Wait(ViewOf(z, c), x) <= Wait(ViewOf(s, c), x)
  {
    var l := TopList(s.cpus[c]);
    assert CpuOk(s, c) && ListOk(ViewOf(s, c), Mine(s, c), MAX_PRIORITY);
    if d == c && Get(s.table, y).priority == MAX_PRIORITY {
      TakenAway(s.table, l, Position(l, y), x);
    }
  }

  ghost function IsTurn(step: Step, c: nat): nat {
    if step.Resched? && step.c == c then 1 else 0
  }

  lemma ReschedWait(s: Sys, d: nat, rsp: nat, wakeTick: nat, ageTick: nat, c: nat, x: Ptr)
    requires KernelInv(s) && c < |s.cpus| && x in TopList(s.cpus[c]) && Enabled(s, Resched(d, rsp, wakeTick, ageTick))
    requires Undisturbed(s, Resched(d, rsp, wakeTick, ageTick), c, x)
    ensures var z := Next(s, Resched(d, rsp, wakeTick, ageTick));
            z.cpus[c].current == x
            || (x in TopList(z.cpus[c]) && Wait(ViewOf(z, c), x) + (if d == c then 1 else 0) <= Wait(ViewOf(s, c), x))
  {
    assert CpuOk(s, c);
    if d == c {
      TurnCloser(ViewOf(s, c), Mine(s, c), rsp, wakeTick, ageTick, x);
    } else {
      var z := Next(s, Resched(d, rsp, wakeTick, ageTick));
      forall y | y in Mine(s, c) ensures Get(z.table, y) == Get(s.table, y) {
        ReschedThread(s, d, rsp, wakeTick, ageTick, y);
      }
      assert ThreadOk(s, 0);
      ReschedThread(s, d, rsp, wakeTick, ageTick, s.cpus[c].current);
      SameWait(s, z, c, x);
    }
  }

  lemma LandWait(s: Sys, y: Ptr, t: Thread, c: nat, x: Ptr)
    requires KernelInv(s) && c < |s.cpus| && x in TopList(s.cpus[c]) && y in s.flight
    requires !(t.affinity == c && t.priority == MAX_PRIORITY)
    ensures var z := Land(s, y, t);
            |z.cpus| == |s.cpus| && x in TopList(z.cpus[c]) && Wait(ViewOf(z, c), x) <= Wait(ViewOf(s, c), x)
  {
    assert CpuOk(s, c) && ThreadOk(s, y);
    SameWait(s, Land(s, y, t), c, x);
  }

  lemma StartWait(s: Sys, d: nat, c: nat, x: Ptr)
    requires KernelInv(s) && c < |s.cpus| && x in TopList(s.cpus[c]) && Enabled(s, SchedInit(d))
    ensures var z := StartSched(s, d);
            |z.cpus| == |s.cpus| && x in TopList(z.cpus[c]) && Wait(ViewOf(z, c), x) <= Wait(ViewOf(s, c), x)
  {
    StartFresh(s, d);
    SameWait(s, StartSched(s, d), c, x);
  }

  /** The thread on CPU d falls asleep or dies. */
  lemma StopWait(s: Sys, z: Sys, d: nat, c: nat, x: Ptr)
    requires KernelInv(s) && c < |s.cpus| && Online(s, d) && z.cpus == s.cpus && s.cpus[d].current in z.table
    requires z.table == s.table[s.cpus[d].current := z.table[s.cpus[d].current]]
    requires z.table[s.cpus[d].current].state != Running
    ensures Wait(ViewOf(z, c), x) <= Wait(ViewOf(s, c), x)
  {
    assert CpuOk(s, c) && CpuOk(s, d);
    SameWait(s, z, c, x);
  }

  lemma WaitShrinks(s: Sys, step: Step, c: nat, x: Ptr)
    requires KernelInv(s) && Enabled(s, step) && c < |s.cpus| && x in TopList(s.cpus[c])
    requires Undisturbed(s, step, c, x)
    ensures var z := Next(s, step);
            && |z.cpus| >= |s.cpus|
            && (|| z.cpus[c].current == x
                || (x in TopList(z.cpus[c]) && Wait(ViewOf(z, c), x) + IsTurn(step, c) <= Wait(ViewOf(s, c), x)))
  {
    var z := Next(s, step);
    assert CpuOk(s, c);
    match step {
      case CpuInit => SameWait(s, z, c, x);
      case SchedInit(d) => StartWait(s, d, c, x);
      case SpawnBegin(user, priority) =>
        SpawnMem(s, user, priority);
        SameWait(s, z, c, x);
      case SpawnEnd(y) => LandWait(s, y, Get(s.table, y), c, x);
      case Resched(d, rsp, wakeTick, ageTick) =>
        ReschedWait(s, d, rsp, wakeTick, ageTick, c, x);
      case Sleep(d, ms, tick) => StopWait(s, z, d, c, x);
      case Exit(d) => StopWait(s, z, d, c, x);
      case Take(dest, d, y) => TakeWait(s, dest, d, y, c, x);
      case Put(y) => LandWait(s, y, Get(s.table, y).(priority := MAX_PRIORITY, affinity := s.flight[y].dest), c, x);
      case OtherMalloc(n) => SameWait(s, z, c, x);
      case OtherFree(p) => SameWait(s, z, c, x);
    }
  }

  ghost predicate UndisturbedRun(s: Sys, steps: seq<Step>, c: nat, x: Ptr)
    requires ValidRun(s, steps)
    decreases |steps|
  {
    || steps == []
    || (c < |s.cpus| && Undisturbed(s, steps[0], c, x) && UndisturbedRun(Next(s, steps[0]), steps[1..], c, x))
  }

  /** How many times CPU c reschedules in the run. */
  ghost function Turns(steps: seq<Step>, c: nat): nat {
    if steps == [] then 0 else IsTurn(steps[0], c) + Turns(steps[1..], c)
  }

  /** At some point of the run x runs on CPU c. */
  ghost predicate GetsCpu(s: Sys, steps: seq<Step>, c: nat, x: Ptr)
    requires ValidRun(s, steps)
    decreases |steps|
  {
    (c < |s.cpus| && s.cpus[c].current == x) || (steps != [] && GetsCpu(Next(s, steps[0]), steps[1..], c, x))
  }

  /** Bounded waiting: with no insertions at the head of list 31, a thread of that list runs within
      max(r, 1) plus the sum of max(r_i, 1) over the threads ahead of it reschedules of its CPU,
      whatever else happens in the kernel meanwhile. */
  lemma {:induction false} BoundedWaiting(s: Sys, steps: seq<Step>, c: nat, x: Ptr)
    requires KernelInv(s) && c < |s.cpus| && x in TopList(s.cpus[c])
    requires ValidRun(s, steps) && UndisturbedRun(s, steps, c, x)
    ensures GetsCpu(s, steps, c, x) || Turns(steps, c) < Wait(ViewOf(s, c), x)
    decreases |steps|
  {
    if steps != [] {
      var z := Next(s, steps[0]);
      WaitShrinks(s, steps[0], c, x);
      if z.cpus[c].current == x {
        assert GetsCpu(z, steps[1..], c, x);
      } else {
        NextInv(s, steps[0]);
        BoundedWaiting(z, steps[1..], c, x);
      }
    }
  }

  // ---------- time slices ----------

  /** The thread running on CPU c neither stops nor meets one of higher priority. */
  ghost predicate Unchallenged(s: Sys, step: Step, c: nat)
    requires Online(s, c)
  {
    match step
    case Resched(d, rsp, wakeTick, ageTick) =>
      d == c ==> forall p: nat :: Get(s.table, s.cpus[c].current).priority < p < 32 ==>
                                    Queue(s, c, wakeTick, ageTick, p) == []
    case Sleep(d, _, _) => d != c
    case Exit(d) => d != c
    case _ => true
  }

  ghost predicate UnchallengedRun(s: Sys, steps: seq<Step>, c: nat)
    requires ValidRun(s, steps)
    decreases |steps|
  {
    steps == [] || (Online(s, c) && Unchallenged(s, steps[0], c) && UnchallengedRun(Next(s, steps[0]), steps[1..], c))
  }

  /** x runs on CPU c with k ticks of its slice left. */
  ghost predicate InSlice(s: Sys, c: nat, x: Ptr, k: nat) {
    && Online(s, c) && s.cpus[c].current == x && x in s.table
    && s.table[x].state == Running && s.table[x].ticks == k
  }

  lemma SliceResched(s: Sys, d: nat, rsp: nat, wakeTick: nat, ageTick: nat, c: nat, x: Ptr, k: nat)
    requires KernelInv(s) && Enabled(s, Resched(d, rsp, wakeTick, ageTick)) && InSlice(s, c, x, k)
    requires Unchallenged(s, Resched(d, rsp, wakeTick, ageTick), c) && (d == c ==> k > 1)
    ensures InSlice(Next(s, Resched(d, rsp, wakeTick, ageTick)), c, x, if d == c then k - 1 else k)
  {
    assert CpuOk(s, c) && x in Mine(s, c);
    StillRunnable(s, d, rsp, wakeTick, ageTick, x);
    ReschedViews(s, d, rsp, wakeTick, ageTick);
    if d == c {
      KeepsRunningIff(s, c, rsp, wakeTick, ageTick);
      ReschedRecord(s, c, rsp, wakeTick, ageTick, x);
    } else {
      ReschedThread(s, d, rsp, wakeTick, ageTick, x);
    }
  }

  lemma SliceStep(s: Sys, step: Step, c: nat, x: Ptr, k: nat)
    requires KernelInv(s) && Enabled(s, step) && InSlice(s, c, x, k) && Unchallenged(s, step, c) && k > IsTurn(step, c)
    ensures InSlice(Next(s, step), c, x, k - IsTurn(step, c))
  {
    if step.Resched? {
      SliceResched(s, step.c, step.rsp, step.wakeTick, step.ageTick, c, x, k);
    } else {
      assert CpuOk(s, c) && x in Mine(s, c);
      if step.Sleep? || step.Exit? { assert CpuOk(s, step.c); }
      if step.Take? { TakenIsReady(s, step.dest, step.c, step.x); }
      Bystander(s, step, x, c);
    }
  }

  /** Time slices: a thread keeps its CPU for as many reschedules as its slice has ticks left, but for
      the last, whatever else happens in the kernel meanwhile, as long as it neither sleeps nor exits
      and no thread of higher priority turns up. */
  lemma {:induction false} SliceKept(s: Sys, steps: seq<Step>, c: nat, x: Ptr, k: nat)
    requires KernelInv(s) && ValidRun(s, steps) && InSlice(s, c, x, k) && UnchallengedRun(s, steps, c)
    requires Turns(steps, c) < k
    ensures InSlice(Exec(s, steps), c, x, k - Turns(steps, c))
    decreases |steps|
  {
    if steps != [] {
      SliceStep(s, steps[0], c, x, k);
      NextInv(s, steps[0]);
      SliceKept(Next(s, steps[0]), steps[1..], c, x, k - IsTurn(steps[0], c));
    }
  }

  /** And no longer: with the last tick it gives way to a thread of its own priority. */
  lemma SliceEnds(s: Sys, c: nat, rsp: nat, wakeTick: nat, ageTick: nat, x: Ptr)
    requires KernelInv(s) && Enabled(s, Resched(c, rsp, wakeTick, ageTick)) && InSlice(s, c, x, 1)
    requires s.table[x].priority < 32 && Queue(s, c, wakeTick, ageTick, s.table[x].priority) != []
    ensures Next(s, Resched(c, rsp, wakeTick, ageTick)).cpus[c].current != x
  {
    KeepsRunningIff(s, c, rsp, wakeTick, ageTick);
  }
}
