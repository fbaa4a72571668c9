/** The state the kernel starts from. */
module Boot {
  import opened CpuSched
  import opened Kernel
  import H = HeapSpec

  /** Before the first cpu_init: no CPU, no thread, a fresh heap. */
  function PowerOn(base: nat): Sys {
    Sys(map[], [], map[], map[], 1, 0, H.Initial(base), base)
  }

  lemma PowerOnInv(base: nat)
    requires base > 0 && base % 8 == 0
    ensures KernelInv(PowerOn(base))
  {
    H.InitialCanonical(base);
  }

  /** From power-on, in every interleaving of cpu_init and sched_init with whatever the CPUs that are up
      already do, the invariant of all CPUs and of the memory of their threads holds. */
  lemma FromPowerOn(base: nat, steps: seq<Step>)
    requires base > 0 && base % 8 == 0 && ValidRun(PowerOn(base), steps)
    ensures KernelInv(Exec(PowerOn(base), steps))
  {
    PowerOnInv(base);
    AlwaysInv(PowerOn(base), steps);
  }

  lemma {:induction false} AgeNothing(v: View, p: nat)
    requires v.cpu.ready == NoLists()
    ensures AgeFrom(v, p) == v
    decreases LEVELS - p
  {
    if p < MAX_PRIORITY { AgeNothing(v, p + 1); }
  }

  /** One CPU with nothing but its current thread, which runs: a reschedule charges that thread and may
      note the time of an aging pass. */
  lemma NothingToDo(v: View, wakeTick: nat, ageTick: nat)
    requires v.cpu.ready == NoLists() && v.cpu.sleep == []
    ensures var w := Charge(v);
            var last := if ageTick - v.cpu.lastAge < AGE_PERIOD then v.cpu.lastAge else ageTick;
            && Settle(v, wakeTick, ageTick) == w.(cpu := w.cpu.(lastAge := last))
            && Choose(Settle(v, wakeTick, ageTick)) == Settle(v, wakeTick, ageTick)
            && Freed(Settle(v, wakeTick, ageTick)) == {}
  {
    assert Wake(v, 0, wakeTick) == v;
    var w := Charge(v);
    AgeNothing(w.(cpu := w.cpu.(lastAge := ageTick)), 0);
    NothingReady(NoLists(), LEVELS);
  }

  lemma NothingReady(ready: seq<seq<Ptr>>, n: nat)
    requires n <= |ready| && forall p :: 0 <= p < n ==> ready[p] == []
    ensures Top(ready, n).None?
  {
  }

  /** A CPU with nothing but its idle thread reschedules: only the saved stack pointer and the slice of
      that thread and the aging clock of the CPU change. */
  lemma IdleResched(s: Sys, c: nat, rsp: nat, wakeTick: nat, ageTick: nat)
    requires KernelInv(s) && Enabled(s, Resched(c, rsp, wakeTick, ageTick)) && NothingListed(s.cpus[c])
    ensures var s', x := Next(s, Resched(c, rsp, wakeTick, ageTick)), s.cpus[c].current;
            && x in s.table && s'.cpus[c].lastAge in {s.cpus[c].lastAge, ageTick}
            && s' == s.(cpus := s.cpus[c := s.cpus[c].(lastAge := s'.cpus[c].lastAge)],
                        table := s.table[x := s.table[x].(rsp := rsp, ticks := Get(s'.table, x).ticks)])
  {
    assert CpuOk(s, c);
    NothingToDo(Save(ViewOf(s, c), rsp), wakeTick, ageTick);
  }
}
