/** What waking and aging do to each thread, and how long a thread can be starved. */
module Aging {
  import opened CpuSched

  // ---------- waking ----------

  predicate Due(t: Thread, tick: nat) { t.state == Sleeping && tick >= t.wakeup }

  /** The wake-up loop makes exactly the due sleepers ready and changes nothing else. */
  lemma {:induction false} WakeEffect(v: View, mine: set<Ptr>, i: nat, tick: nat, x: Ptr)
    requires Inv(v, mine) && x in mine
    ensures Get(Wake(v, i, tick).table, x)
            == if x in v.cpu.sleep && x !in v.cpu.sleep[..if i <= |v.cpu.sleep| then i else |v.cpu.sleep|]
                  && Due(Get(v.table, x), tick)
               then Get(v.table, x).(state := Ready) else Get(v.table, x)
    decreases |v.cpu.sleep| - i
  {
    if i >= |v.cpu.sleep| {
      assert v.cpu.sleep[..|v.cpu.sleep|] == v.cpu.sleep;
    } else {
      var y := v.cpu.sleep[i];
      assert v.cpu.sleep[..i + 1] == v.cpu.sleep[..i] + [y];
      if tick >= Get(v.table, y).wakeup {
        WakeOneInv(v, mine, i);
        WithoutFacts(v.cpu.sleep, i);
        assert WakeOne(v, i).cpu.sleep[..i] == v.cpu.sleep[..i];
        WakeEffect(WakeOne(v, i), mine, i, tick, x);
      } else {
        WakeEffect(v, mine, i + 1, tick, x);
      }
    }
  }

  // ---------- one aging pass ----------

  /** What one pass does to a waiting thread. A promoted thread is visited again one level up in
      the same pass, so it starts there at 1; list 31 is never visited. */
  function AgedOnce(t: Thread): Thread {
    if t.priority >= 31 || t.tid == 1 then t
    else if t.age < 19 then t.(age := t.age + 1)
    else t.(priority := t.priority + 1, age := if t.priority + 1 < 31 then 1 else 0)
  }

  /** Whether the pass, at position i of list p, has visited x for the last time. */
  ghost predicate Visited(v: View, p: nat, i: nat, x: Ptr) {
    var t := Get(v.table, x);
    t.priority < p || (t.priority == p && i <= |Level(v.cpu.ready, p)| && x in Level(v.cpu.ready, p)[..i])
  }

  /** The state of x in the middle of the pass that started in v0. */
  ghost predicate Midway(v0: View, v: View, p: nat, i: nat, x: Ptr) {
    var t0, t := Get(v0.table, x), Get(v.table, x);
    if t0.state != Ready || !Ages(t0) then t == t0
    else if Visited(v, p, i, x) then t == AgedOnce(t0) && t.state == Ready
    else
      || t == t0
      || (t0.age >= AGE_LIMIT && t0.priority < MAX_PRIORITY && t == t0.(priority := t0.priority + 1, age := 0))
  }

  ghost predicate Passing(v0: View, v: View, mine: set<Ptr>, p: nat, i: nat) {
    forall x {:trigger Midway(v0, v, p, i, x)} :: x in mine ==> Midway(v0, v, p, i, x)
  }

  lemma SkipStep(v0: View, v: View, mine: set<Ptr>, p: nat, i: nat)
    requires Inv(v, mine) && p < MAX_PRIORITY && i < |Level(v.cpu.ready, p)| && Passing(v0, v, mine, p, i)
    requires !Ages(Get(v.table, v.cpu.ready[p][i]))
    requires forall x :: x in mine ==> Get(v.table, x).tid == Get(v0.table, x).tid
    ensures Passing(v0, v, mine, p, i + 1)
  {
    var l := v.cpu.ready[p];
    assert l[..i + 1] == l[..i] + [l[i]];
    forall x | x in mine ensures Midway(v0, v, p, i + 1, x) {
      assert Midway(v0, v, p, i, x);
    }
  }

  lemma PromoteStep(v0: View, v: View, mine: set<Ptr>, p: nat, i: nat)
    requires Inv(v, mine) && p < MAX_PRIORITY && i < |Level(v.cpu.ready, p)| && Passing(v0, v, mine, p, i)
    requires var t := Get(v.table, v.cpu.ready[p][i]); Ages(t) && t.age + 1 > AGE_LIMIT
    requires forall x :: x in mine ==> Get(v.table, x).tid == Get(v0.table, x).tid
    ensures Passing(v0, Promote(v, p, i), mine, p, i)
  {
    var l, v' := v.cpu.ready[p], Promote(v, p, i);
    assert ListOk(v, mine, p);
    assert v'.cpu.ready[p][..i] == l[..i];
    forall x | x in mine ensures Midway(v0, v', p, i, x) {
      assert Midway(v0, v, p, i, x);
    }
  }

  lemma BumpStep(v0: View, v: View, mine: set<Ptr>, p: nat, i: nat)
    requires Inv(v, mine) && p < MAX_PRIORITY && i < |Level(v.cpu.ready, p)| && Passing(v0, v, mine, p, i)
    requires var t := Get(v.table, v.cpu.ready[p][i]); Ages(t) && t.age + 1 <= AGE_LIMIT
    requires forall x :: x in mine ==> Get(v.table, x).tid == Get(v0.table, x).tid
    ensures Passing(v0, Bump(v, v.cpu.ready[p][i]), mine, p, i + 1)
  {
    var l, v' := v.cpu.ready[p], Bump(v, v.cpu.ready[p][i]);
    assert ListOk(v, mine, p);
    assert l[..i + 1] == l[..i] + [l[i]];
    forall x | x in mine ensures Midway(v0, v', p, i + 1, x) {
      assert Midway(v0, v, p, i, x);
    }
  }

  lemma LevelDone(v0: View, v: View, mine: set<Ptr>, p: nat, i: nat)
    requires Inv(v, mine) && p < MAX_PRIORITY && i == |Level(v.cpu.ready, p)| && Passing(v0, v, mine, p, i)
    ensures Passing(v0, v, mine, p + 1, 0)
  {
    assert v.cpu.ready[p][..i] == v.cpu.ready[p];
    forall x | x in mine ensures Midway(v0, v, p + 1, 0, x) {
      assert Midway(v0, v, p, i, x) && Located(v, x) && ListOk(v, mine, p);
    }
  }

  ghost predicate SameTids(v0: View, v: View, mine: set<Ptr>) {
    forall x :: x in mine ==> Get(v.table, x).tid == Get(v0.table, x).tid
  }

  lemma {:induction false} AgeLevelEffect(v0: View, v: View, mine: set<Ptr>, p: nat, i: nat)
    requires Inv(v, mine) && p < MAX_PRIORITY && i <= |Level(v.cpu.ready, p)|
    requires Passing(v0, v, mine, p, i) && SameTids(v0, v, mine)
    ensures Passing(v0, AgeLevel(v, p, i), mine, p + 1, 0) && SameTids(v0, AgeLevel(v, p, i), mine)
    decreases |Level(v.cpu.ready, p)| - i
  {
    if i >= |Level(v.cpu.ready, p)| {
      LevelDone(v0, v, mine, p, i);
    } else {
      var x := v.cpu.ready[p][i];
      var t := Get(v.table, x);
      assert ListOk(v, mine, p) && Located(v, x);
      if !Ages(t) {
        SkipStep(v0, v, mine, p, i);
        AgeLevelEffect(v0, v, mine, p, i + 1);
      } else if t.age + 1 > AGE_LIMIT {
        PromoteStep(v0, v, mine, p, i);
        PromoteInv(v, mine, p, i);
        AgeLevelEffect(v0, Promote(v, p, i), mine, p, i);
      } else {
        BumpStep(v0, v, mine, p, i);
        BumpInv(v, mine, x);
        AgeLevelEffect(v0, Bump(v, x), mine, p, i + 1);
      }
    }
  }

  lemma {:induction false} AgeFromEffect(v0: View, v: View, mine: set<Ptr>, p: nat)
    requires Inv(v, mine) && p <= MAX_PRIORITY && Passing(v0, v, mine, p, 0) && SameTids(v0, v, mine)
    ensures Passing(v0, AgeFrom(v, p), mine, MAX_PRIORITY, 0)
    decreases LEVELS - p
  {
    if p < MAX_PRIORITY {
      AgeLevelInv(v, mine, p, 0);
      AgeLevelEffect(v0, v, mine, p, 0);
      AgeFromEffect(v0, AgeLevel(v, p, 0), mine, p + 1);
    }
  }

  /** One aging pass ages every ready thread of the CPU exactly once, and at most one level, and
      touches no other thread. */
  lemma AgePassEffect(v: View, mine: set<Ptr>, x: Ptr)
    requires Inv(v, mine) && x in mine
    ensures var t := Get(v.table, x);
            Get(AgeFrom(v, 0).table, x) == if t.state == Ready then AgedOnce(t) else t
  {
    forall y | y in mine ensures Midway(v, v, 0, 0, y) {
    }
    AgeFromEffect(v, v, mine, 0);
    AgeFromInv(v, mine, 0);
    var z := AgeFrom(v, 0);
    assert Midway(v, z, MAX_PRIORITY, 0, x) && Located(z, x) && Located(v, x);
  }

  // ---------- how many passes until the top ----------

  /** The number of passes a waiting thread still needs to reach priority 31. */
  function Remaining(t: Thread): nat
    requires t.priority <= MAX_PRIORITY && t.age <= AGE_LIMIT
  {
    if t.priority == MAX_PRIORITY then 0 else 19 * (MAX_PRIORITY - t.priority) + 1 - t.age
  }

  function AgedTimes(t: Thread, n: nat): Thread {
    if n == 0 then t else AgedOnce(AgedTimes(t, n - 1))
  }

  /** Anti-starvation: a waiting thread other than tid 1 is at priority 31 after n passes exactly
      when n >= 19 * (31 - p) + 1 - t; its counter never passes 19. */
  lemma {:induction false} AgingBound(t: Thread, n: nat)
    requires t.tid != 1 && t.priority <= MAX_PRIORITY && t.age <= AGE_LIMIT
    ensures var z := AgedTimes(t, n);
            && z.tid != 1 && t.priority <= z.priority <= MAX_PRIORITY && z.age <= AGE_LIMIT
            && Remaining(z) == (if n <= Remaining(t) then Remaining(t) - n else 0)
            && (z.priority == MAX_PRIORITY <==> n >= Remaining(t))
  {
    if n > 0 { AgingBound(t, n - 1); }
  }

  // ---------- one whole reschedule, thread by thread ----------

  /** Whether an aging pass takes place. */
  predicate AgingDue(cpu: Cpu, tick: nat) { tick - cpu.lastAge >= 20 }

  /** What waking, charging and aging together make of thread x. */
  function SettledThread(v: View, x: Ptr, wakeTick: nat, ageTick: nat): Thread {
    var t := Get(v.table, x);
    if x == v.cpu.current then t.(ticks := if t.ticks > 0 then t.ticks - 1 else 0)
    else
      var w := if Due(t, wakeTick) then t.(state := Ready) else t;
      if AgingDue(v.cpu, ageTick) && w.state == Ready then AgedOnce(w) else w
  }

  lemma SettleEffect(v: View, mine: set<Ptr>, wakeTick: nat, ageTick: nat, x: Ptr)
    requires Inv(v, mine) && x in mine
    ensures Get(Settle(v, wakeTick, ageTick).table, x) == SettledThread(v, x, wakeTick, ageTick)
  {
    assert Located(v, x);
    WakeInv(v, mine, 0, wakeTick);
    WakeEffect(v, mine, 0, wakeTick, x);
    var a := Wake(v, 0, wakeTick);
    ChargeInv(a, mine);
    var b := Charge(a);
    if AgingDue(b.cpu, ageTick) {
      var c := b.(cpu := b.cpu.(lastAge := ageTick));
      ClockInv(b, mine, ageTick);
      AgePassEffect(c, mine, x);
    }
  }

  /** What the choice makes of thread x: it starts to run, it is parked, or nothing. */
  lemma ChooseEffect(v: View, mine: set<Ptr>, x: Ptr)
    requires Inv(v, mine) && x in mine
    ensures var z, t := Choose(v), Get(v.table, x);
            if z.cpu.current == v.cpu.current then z == v
            else if x == z.cpu.current then
              Get(z.table, x) == t.(state := Running) && t.state == Ready && x in Level(v.cpu.ready, t.priority)
            else if x == v.cpu.current && t.state == Running then
              Get(z.table, x) == t.(state := Ready, ticks := 2 * (32 - t.priority))
            else x !in Freed(v) ==> Get(z.table, x) == t
  {
    var top := Top(v.cpu.ready, |v.cpu.ready|);
    assert Located(v, v.cpu.current);
    if top.Some? && Yields(Get(v.table, v.cpu.current), top.value) {
      SwitchInv(v, mine, top.value);
      HeadFacts(v, mine, top.value);
    }
  }

  /** A reschedule leaves a thread off the CPU alone that is dead, or asleep until later. */
  lemma LeftAlone(v: View, mine: set<Ptr>, wakeTick: nat, ageTick: nat, x: Ptr)
    requires Inv(v, mine) && x in mine && x != v.cpu.current
    requires var t := Get(v.table, x); t.state == Dead || (t.state == Sleeping && wakeTick < t.wakeup)
    ensures var w := Settle(v, wakeTick, ageTick);
            && x !in Freed(w) && Choose(w).cpu.current != x && x in Choose(w).table
            && Get(Choose(w).table, x) == Get(v.table, x)
  {
    var w := Settle(v, wakeTick, ageTick);
    SettleInv(v, mine, wakeTick, ageTick);
    SettleEffect(v, mine, wakeTick, ageTick, x);
    ChooseInv(w, mine);
    ChooseEffect(w, mine, x);
  }
}
