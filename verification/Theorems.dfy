/** What the kernel promises in every run. */
module Theorems {
  import opened CpuSched
  import opened Aging
  import opened Kernel
  import opened Boot

  // ---------- exactly one place ----------

  /** A place a thread can be: on a CPU, at a position of a ready list or of a sleep list, or in
      flight. */
  datatype Slot = Runs(c: nat) | Waits(c: nat, p: nat, i: nat) | Sleeps(c: nat, i: nat) | Flies

  ghost predicate Holds(s: Sys, slot: Slot, x: Ptr) {
    match slot
    case Runs(c) => Online(s, c) && s.cpus[c].current == x
    case Waits(c, p, i) => c < |s.cpus| && i < |Level(s.cpus[c].ready, p)| && s.cpus[c].ready[p][i] == x
    case Sleeps(c, i) => c < |s.cpus| && i < |s.cpus[c].sleep| && s.cpus[c].sleep[i] == x
    case Flies => x in s.flight
  }

  /** The slot that holds x agrees with what its structure says. */
  lemma SlotFacts(s: Sys, slot: Slot, x: Ptr)
    requires SchedInv(s) && Holds(s, slot, x)
    ensures x in s.table && (slot.Flies? <==> x in s.flight)
    ensures !slot.Flies? ==> Home(s, x) == slot.c
    ensures slot.Waits? ==> s.table[x].state == Ready && s.table[x].priority == slot.p && x != s.cpus[slot.c].current
    ensures slot.Sleeps? ==> s.table[x].state == Sleeping && x != s.cpus[slot.c].current
    ensures slot.Runs? ==> s.table[x].state != Ready
  {
    if slot.Flies? {
      assert ThreadOk(s, x);
    } else {
      assert CpuOk(s, slot.c);
      if slot.Waits? {
        assert ListOk(ViewOf(s, slot.c), Mine(s, slot.c), slot.p) && x in Level(s.cpus[slot.c].ready, slot.p);
      }
      if slot.Sleeps? { assert x in s.cpus[slot.c].sleep; }
    }
  }

  /** No thread is ever in two places, not even twice in one list. */
  lemma AtMostOnePlace(s: Sys, a: Slot, b: Slot, x: Ptr)
    requires SchedInv(s) && Holds(s, a, x) && Holds(s, b, x)
    ensures a == b
  {
    SlotFacts(s, a, x);
    SlotFacts(s, b, x);
    if !a.Flies? {
      assert CpuOk(s, a.c);
      if a.Waits? { assert ListOk(ViewOf(s, a.c), Mine(s, a.c), a.p); }
    }
  }

  lemma SomePlace(s: Sys, x: Ptr) returns (a: Slot)
    requires SchedInv(s) && x in s.table && s.table[x].state != Dead
    ensures Holds(s, a, x)
  {
    assert ThreadOk(s, x);
    if x in s.flight { return Flies; }
    var c := Home(s, x);
    assert CpuOk(s, c) && x in Mine(s, c) && Located(ViewOf(s, c), x);
    if x == s.cpus[c].current { return Runs(c); }
    if s.table[x].state == Ready {
      var l := Level(s.cpus[c].ready, s.table[x].priority);
      return Waits(c, s.table[x].priority, Position(l, x));
    }
    return Sleeps(c, Position(s.cpus[c].sleep, x));
  }

  /** In every run from power-on each live thread is in exactly one place, and the place fits its
      state: ready lists hold ready threads of that priority, sleep lists sleeping threads. */
  lemma ExactlyOnePlace(base: nat, steps: seq<Step>, x: Ptr)
    requires base > 0 && base % 8 == 0 && ValidRun(PowerOn(base), steps)
    ensures var z := Exec(PowerOn(base), steps);
            x in z.table && z.table[x].state != Dead ==>
              exists a :: Holds(z, a, x) && (forall b :: Holds(z, b, x) ==> b == a)
                && (a.Waits? ==> z.table[x].state == Ready && z.table[x].priority == a.p)
                && (a.Sleeps? ==> z.table[x].state == Sleeping)
                && (a.Runs? ==> z.table[x].state in {Running, Sleeping})
                && (a.Flies? ==> z.table[x].state == Ready)
  {
    FromPowerOn(base, steps);
    var z := Exec(PowerOn(base), steps);
    if x in z.table && z.table[x].state != Dead {
      var a := SomePlace(z, x);
      SlotFacts(z, a, x);
      assert ThreadOk(z, x);
      forall b | Holds(z, b, x) ensures b == a { AtMostOnePlace(z, a, b, x); }
    }
  }

  /** sched_is_alive: some CPU runs the thread or has it in a list. */
  ghost predicate Alive(s: Sys, tid: nat) {
    exists a, x :: Holds(s, a, x) && !a.Flies? && x in s.table && s.table[x].tid == tid
  }

  /** With no spawn or hand-off under way, sched_is_alive finds exactly the threads that are not
      dead, and dead ones that still sit on their CPU. */
  lemma AliveIff(s: Sys, tid: nat)
    requires SchedInv(s) && s.flight == map[]
    ensures Alive(s, tid)
            <==> exists x :: x in s.table && s.table[x].tid == tid
                             && (s.table[x].state != Dead || Holds(s, Runs(Home(s, x)), x))
  {
    if Alive(s, tid) {
      var a, x :| Holds(s, a, x) && !a.Flies? && x in s.table && s.table[x].tid == tid;
      SlotFacts(s, a, x);
    }
    if x :| x in s.table && s.table[x].tid == tid && (s.table[x].state != Dead || Holds(s, Runs(Home(s, x)), x)) {
      if s.table[x].state != Dead {
        var a := SomePlace(s, x);
      } else {
        assert Holds(s, Runs(Home(s, x)), x);
      }
    }
  }

  // ---------- what a reschedule guarantees on its CPU ----------

  /** Thanks to the idle thread there is always something to run. */
  lemma SomethingRuns(s: Sys, c: nat, rsp: nat, wakeTick: nat, ageTick: nat)
    requires SchedInv(s) && Online(s, c)
    ensures var v := Settled(s, c, rsp, wakeTick, ageTick);
            Get(v.table, v.cpu.current).state == Running || Waiting(v)
  {
    var mine, v1, v := Mine(s, c), Save(ViewOf(s, c), rsp), Settled(s, c, rsp, wakeTick, ageTick);
    ReschedViews(s, c, rsp, wakeTick, ageTick);
    assert HasIdle(s, c);
    var x :| x in s.idle && s.idle[x] == c;
    assert ThreadOk(s, x) && x in mine;
    SettleEffect(v1, mine, wakeTick, ageTick, x);
    assert Located(v, x) && Located(ViewOf(s, c), x);
    if x != v.cpu.current {
      assert x in Level(v.cpu.ready, Get(v.table, x).priority);
    }
  }

  /** Priority dominance and switching away, for every reschedule in every reachable state: the
      thread left running is RUNNING and no thread in the CPU's ready lists has a higher priority;
      a sleeping or dead thread has lost the CPU. */
  lemma RescheduleGuarantees(s: Sys, c: nat, rsp: nat, wakeTick: nat, ageTick: nat)
    requires SchedInv(s) && Enabled(s, Resched(c, rsp, wakeTick, ageTick))
    ensures var z, x := Next(s, Resched(c, rsp, wakeTick, ageTick)), s.cpus[c].current;
            var y := z.cpus[c].current;
            && y in z.table && z.table[y].state == Running
            && (forall p: nat :: z.table[y].priority < p ==> Level(z.cpus[c].ready, p) == [])
            && (Get(s.table, x).state != Running ==> y != x)
  {
    var v := Settled(s, c, rsp, wakeTick, ageTick);
    var mine, x := Mine(s, c), s.cpus[c].current;
    ReschedViews(s, c, rsp, wakeTick, ageTick);
    SomethingRuns(s, c, rsp, wakeTick, ageTick);
    Dominance(v, mine);
    if Get(s.table, x).state != Running {
      SettleEffect(Save(ViewOf(s, c), rsp), mine, wakeTick, ageTick, x);
      SwitchesAway(v, mine);
    }
  }

  /** A dead thread is freed by the next reschedule of its CPU exactly when its priority is not 0. */
  lemma DeadThreadFreedIff(s: Sys, c: nat, rsp: nat, wakeTick: nat, ageTick: nat)
    requires KernelInv(s) && Enabled(s, Resched(c, rsp, wakeTick, ageTick))
    requires Get(s.table, s.cpus[c].current).state == Dead
    ensures var z, x := Next(s, Resched(c, rsp, wakeTick, ageTick)), s.cpus[c].current;
            x !in z.table <==> Get(s.table, x).priority != 0
  {
    var v := Settled(s, c, rsp, wakeTick, ageTick);
    ReschedViews(s, c, rsp, wakeTick, ageTick);
    SettleEffect(Save(ViewOf(s, c), rsp), Mine(s, c), wakeTick, ageTick, s.cpus[c].current);
    SomethingRuns(s, c, rsp, wakeTick, ageTick);
    SwitchesAway(v, Mine(s, c));
  }

  // ---------- nobody wakes early ----------

  ghost predicate OnSomeCpu(s: Sys, x: Ptr) {
    exists c: nat :: Online(s, c) && s.cpus[c].current == x
  }

  /** x sleeps, off the CPU. */
  ghost predicate Asleep(s: Sys, x: Ptr) {
    && x in s.table && x !in s.flight && s.table[x].state == Sleeping
    && Home(s, x) < |s.cpus| && s.cpus[Home(s, x)].current != x
  }

  /** No reschedule of CPU c in the run reads a tick at or after w. */
  predicate Before(steps: seq<Step>, c: nat, w: nat) {
    forall i :: 0 <= i < |steps| && steps[i].Resched? && steps[i].c == c ==> steps[i].wakeTick < w
  }

  lemma AsleepStep(s: Sys, step: Step, x: Ptr)
    requires KernelInv(s) && Enabled(s, step) && Asleep(s, x)
    requires step.Resched? && step.c == Home(s, x) ==> step.wakeTick < s.table[x].wakeup
    ensures var z := Next(s, step); Asleep(z, x) && z.table[x] == s.table[x] && Home(z, x) == Home(s, x)
  {
    if step.Resched? {
      AsleepResched(s, step.c, step.rsp, step.wakeTick, step.ageTick, x);
    } else {
      if step.Sleep? || step.Exit? { OffCpu(s, x, step.c); }
      if step.Take? { TakenIsReady(s, step.dest, step.c, step.x); }
      Bystander(s, step, x, Home(s, x));
    }
  }

  /** A sleeping thread off its CPU runs nowhere. */
  lemma OffCpu(s: Sys, x: Ptr, d: nat)
    requires SchedInv(s) && Asleep(s, x) && Online(s, d)
    ensures s.cpus[d].current != x
  {
    if s.cpus[d].current == x { SlotFacts(s, Runs(d), x); }
  }

  lemma AsleepResched(s: Sys, c: nat, rsp: nat, wakeTick: nat, ageTick: nat, x: Ptr)
    requires KernelInv(s) && Enabled(s, Resched(c, rsp, wakeTick, ageTick)) && Asleep(s, x)
    requires c == Home(s, x) ==> wakeTick < s.table[x].wakeup
    ensures var z := Next(s, Resched(c, rsp, wakeTick, ageTick));
            Asleep(z, x) && z.table[x] == s.table[x] && Home(z, x) == Home(s, x)
  {
    OffCpu(s, x, c);
    ReschedLeavesAlone(s, c, rsp, wakeTick, ageTick, x);
  }

  /** A sleeper stays asleep, off every CPU, through any run in which its own CPU reschedules only
      before its wake-up tick: it never runs early, whatever the other CPUs do. */
  lemma {:induction false} NeverEarly(s: Sys, steps: seq<Step>, x: Ptr)
    requires KernelInv(s) && ValidRun(s, steps) && Asleep(s, x) && Before(steps, Home(s, x), s.table[x].wakeup)
    ensures var z := Exec(s, steps); Asleep(z, x) && z.table[x] == s.table[x] && !OnSomeCpu(z, x)
    decreases |steps|
  {
    if steps == [] {
      forall c: nat | Online(s, c) ensures s.cpus[c].current != x { OffCpu(s, x, c); }
    } else {
      assert steps[0] == steps[0];
      AsleepStep(s, steps[0], x);
      NextInv(s, steps[0]);
      NeverEarly(Next(s, steps[0]), steps[1..], x);
    }
  }

  /** sched_sleep followed by the next reschedule on that CPU puts the caller to sleep until its
      wake-up tick. */
  lemma SleepTakesEffect(s: Sys, c: nat, ms: nat, tick: nat, rsp: nat, wakeTick: nat, ageTick: nat)
    requires KernelInv(s) && Enabled(s, Sleep(c, ms, tick)) && wakeTick <= ageTick && s.cpus[c].lastAge <= ageTick
    ensures var x, a := s.cpus[c].current, Next(s, Sleep(c, ms, tick));
            var z := Next(a, Resched(c, rsp, wakeTick, ageTick));
            Asleep(z, x) && z.table[x].wakeup == tick + ms / 10
  {
    var x, a := s.cpus[c].current, Next(s, Sleep(c, ms, tick));
    NextInv(s, Sleep(c, ms, tick));
    assert CpuOk(s, c);
    GoesToSleep(a, c, rsp, wakeTick, ageTick);
  }

  /** A thread on its CPU that has been marked as sleeping is asleep after the next reschedule. */
  lemma GoesToSleep(s: Sys, c: nat, rsp: nat, wakeTick: nat, ageTick: nat)
    requires KernelInv(s) && Enabled(s, Resched(c, rsp, wakeTick, ageTick))
    requires Get(s.table, s.cpus[c].current).state == Sleeping
    ensures var x, z := s.cpus[c].current, Next(s, Resched(c, rsp, wakeTick, ageTick));
            Asleep(z, x) && z.table[x].wakeup == Get(s.table, x).wakeup
  {
    var x, mine, v := s.cpus[c].current, Mine(s, c), Settled(s, c, rsp, wakeTick, ageTick);
    RescheduleGuarantees(s, c, rsp, wakeTick, ageTick);
    ReschedViews(s, c, rsp, wakeTick, ageTick);
    SettleEffect(Save(ViewOf(s, c), rsp), mine, wakeTick, ageTick, x);
    ChooseEffect(v, mine, x);
    ReschedThread(s, c, rsp, wakeTick, ageTick, x);
  }

  /** sched_exit followed by the next reschedule on that CPU takes the caller off the CPU, and off the
      machine unless its priority is 0. */
  lemma ExitTakesEffect(s: Sys, c: nat, rsp: nat, wakeTick: nat, ageTick: nat)
    requires KernelInv(s) && Enabled(s, Exit(c)) && wakeTick <= ageTick && s.cpus[c].lastAge <= ageTick
    ensures var x, a := s.cpus[c].current, Next(s, Exit(c));
            var z := Next(a, Resched(c, rsp, wakeTick, ageTick));
            && z.cpus[c].current != x && (x in z.table <==> Get(s.table, x).priority == 0)
            && (x in z.table ==> z.table[x].state == Dead)
  {
    var x, a := s.cpus[c].current, Next(s, Exit(c));
    NextInv(s, Exit(c));
    assert CpuOk(s, c);
    RescheduleGuarantees(a, c, rsp, wakeTick, ageTick);
    DeadThreadFreedIff(a, c, rsp, wakeTick, ageTick);
    ReschedViews(a, c, rsp, wakeTick, ageTick);
    SettleEffect(Save(ViewOf(a, c), rsp), Mine(a, c), wakeTick, ageTick, x);
    ChooseEffect(Settled(a, c, rsp, wakeTick, ageTick), Mine(a, c), x);
  }
}
