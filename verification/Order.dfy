/** Who stands where: the lists of a CPU after waking and aging, in order, told from what they were
    before. */
module Order {
  import opened CpuSched
  import opened Aging

  /** The sleepers of l that are due and have priority p. Each is pushed onto the list, so the last of
      them ends up first. */
  function Woken(t: Table, l: seq<Ptr>, tick: nat, p: nat): seq<Ptr> {
    if l == [] then []
    else Woken(t, l[1..], tick, p)
         + if tick >= Get(t, l[0]).wakeup && Get(t, l[0]).priority == p then [l[0]] else []
  }

  /** The others, in the order they had. */
  function Unwoken(t: Table, l: seq<Ptr>, tick: nat): seq<Ptr> {
    if l == [] then []
    else (if tick < Get(t, l[0]).wakeup then [l[0]] else []) + Unwoken(t, l[1..], tick)
  }

  /** The threads of l whose twentieth pass this is, the last of them first: they move up. */
  function Risen(t: Table, l: seq<Ptr>): seq<Ptr> {
    if l == [] then []
    else Risen(t, l[1..]) + if Get(t, l[0]).tid != 1 && Get(t, l[0]).age >= 19 then [l[0]] else []
  }

  /** The others, in the order they had. */
  function Unrisen(t: Table, l: seq<Ptr>): seq<Ptr> {
    if l == [] then []
    else (if Get(t, l[0]).tid != 1 && Get(t, l[0]).age >= 19 then [] else [l[0]]) + Unrisen(t, l[1..])
  }

  // ---------- waking ----------

  lemma Regroup(a: seq<Ptr>, b: seq<Ptr>, c: seq<Ptr>)
    ensures a + (b + c) == a + b + c
  {
  }

  lemma {:induction false} WokenSame(t: Table, t': Table, l: seq<Ptr>, tick: nat, p: nat)
    requires forall x :: x in l ==>
               Get(t', x).wakeup == Get(t, x).wakeup && Get(t', x).priority == Get(t, x).priority
    ensures Woken(t', l, tick, p) == Woken(t, l, tick, p) && Unwoken(t', l, tick) == Unwoken(t, l, tick)
  {
    if l != [] { WokenSame(t, t', l[1..], tick, p); }
  }

  /** The wake-up loop from position i on has led from v to z: the sleep list keeps those that are not
      due, in order; list p gets those that are, at its head. */
  ghost predicate Roused(v: View, z: View, i: nat, tick: nat, p: nat)
    requires i <= |v.cpu.sleep|
  {
    var l := v.cpu.sleep[i..];
    && z.cpu.sleep == v.cpu.sleep[..i] + Unwoken(v.table, l, tick)
    && Level(z.cpu.ready, p) == Woken(v.table, l, tick, p) + Level(v.cpu.ready, p)
  }

  /** In v1 thread x, at position i of the sleep list, has gone to the head of the list of its priority. */
  ghost predicate OneUpAndAbout(v: View, v1: View, i: nat, x: Ptr, p: nat) {
    && i < |v.cpu.sleep| && v.cpu.sleep[i] == x && |v1.cpu.sleep| + 1 == |v.cpu.sleep|
    && v1.cpu.sleep[..i] == v.cpu.sleep[..i] && v1.cpu.sleep[i..] == v.cpu.sleep[i + 1..]
    && Level(v1.cpu.ready, p) == (if Get(v.table, x).priority == p then [x] else []) + Level(v.cpu.ready, p)
    && forall y :: y != x ==> Get(v1.table, y) == Get(v.table, y)
  }

  lemma WakeShape(v: View, mine: set<Ptr>, i: nat, p: nat)
    requires Inv(v, mine) && i < |v.cpu.sleep| && p < LEVELS
    ensures OneUpAndAbout(v, WakeOne(v, i), i, v.cpu.sleep[i], p)
  {
    assert Located(v, v.cpu.sleep[i]);
  }

  lemma RouseOne(v: View, v1: View, i: nat, x: Ptr, tick: nat, p: nat, z: View)
    requires OneUpAndAbout(v, v1, i, x, p) && NoDup(v.cpu.sleep) && tick >= Get(v.table, x).wakeup
    requires Roused(v1, z, i, tick, p)
    ensures Roused(v, z, i, tick, p)
  {
    var l, list := v.cpu.sleep[i..], Level(v.cpu.ready, p);
    assert l[0] == x && l[1..] == v.cpu.sleep[i + 1..];
    WokenSame(v.table, v1.table, l[1..], tick, p);
    Regroup(Woken(v.table, l[1..], tick, p), if Get(v.table, x).priority == p then [x] else [], list);
  }

  lemma LetSleep(v: View, i: nat, tick: nat, p: nat, z: View)
    requires i < |v.cpu.sleep| && tick < Get(v.table, v.cpu.sleep[i]).wakeup && Roused(v, z, i + 1, tick, p)
    ensures Roused(v, z, i, tick, p)
  {
    var y, was := v.cpu.sleep[i], v.cpu.sleep;
    var l := was[i..];
    assert l[0] == y && l[1..] == was[i + 1..] && was[..i + 1] == was[..i] + [y];
    assert was[..i] + [y] + Unwoken(v.table, l[1..], tick) == was[..i] + ([y] + Unwoken(v.table, l[1..], tick));
  }

  lemma {:induction false} WakeLists(v: View, mine: set<Ptr>, i: nat, tick: nat, p: nat)
    requires Inv(v, mine) && i <= |v.cpu.sleep| && p < LEVELS
    ensures Roused(v, Wake(v, i, tick), i, tick, p)
    decreases |v.cpu.sleep| - i
  {
    if i == |v.cpu.sleep| {
      assert v.cpu.sleep[..i] == v.cpu.sleep && v.cpu.sleep[i..] == [];
    } else if tick >= Get(v.table, v.cpu.sleep[i]).wakeup {
      WakeOneInv(v, mine, i);
      WakeShape(v, mine, i, p);
      WakeLists(WakeOne(v, i), mine, i, tick, p);
      RouseOne(v, WakeOne(v, i), i, v.cpu.sleep[i], tick, p, Wake(v, i, tick));
    } else {
      WakeLists(v, mine, i + 1, tick, p);
      LetSleep(v, i, tick, p, Wake(v, i, tick));
    }
  }

  // ---------- aging ----------

  lemma {:induction false} RisenSame(t: Table, t': Table, l: seq<Ptr>)
    requires forall x :: x in l ==> Get(t', x).tid == Get(t, x).tid && Get(t', x).age == Get(t, x).age
    ensures Risen(t', l) == Risen(t, l) && Unrisen(t', l) == Unrisen(t, l)
  {
    if l != [] { RisenSame(t, t', l[1..]); }
  }

  lemma {:induction false} RisenIn(t: Table, l: seq<Ptr>)
    ensures forall x :: x in Risen(t, l) ==> x in l
  {
    if l != [] { RisenIn(t, l[1..]); }
  }

  /** Nobody in l is due to move up. */
  lemma {:induction false} NobodyRises(t: Table, l: seq<Ptr>)
    requires forall x :: x in l ==> Get(t, x).age < 19
    ensures Risen(t, l) == [] && Unrisen(t, l) == l
  {
    if l != [] { NobodyRises(t, l[1..]); }
  }

  lemma {:induction false} RisenConcat(t: Table, k: seq<Ptr>, l: seq<Ptr>)
    ensures Risen(t, k + l) == Risen(t, l) + Risen(t, k) && Unrisen(t, k + l) == Unrisen(t, k) + Unrisen(t, l)
    decreases |k|
  {
    if k == [] {
      assert k + l == l;
    } else {
      assert (k + l)[1..] == k[1..] + l && (k + l)[0] == k[0];
      RisenConcat(t, k[1..], l);
      var one := if Get(t, k[0]).tid != 1 && Get(t, k[0]).age >= 19 then [k[0]] else [];
      Regroup(Risen(t, l), Risen(t, k[1..]), one);
      Regroup(if one == [] then [k[0]] else [], Unrisen(t, k[1..]), Unrisen(t, l));
    }
  }

  /** Aging of list p from position i on has led from v to z: who has waited long enough stands at the
      head of the next list and starts over, the others stay in order, and nobody else is written. */
  ghost predicate Aged(v: View, z: View, p: nat, i: nat)
    requires |v.cpu.ready| == LEVELS && p < MAX_PRIORITY && i <= |v.cpu.ready[p]|
  {
    && z.cpu.sleep == v.cpu.sleep
    && |z.cpu.ready| == LEVELS
    && z.cpu.ready[p] == v.cpu.ready[p][..i] + Unrisen(v.table, v.cpu.ready[p][i..])
    && z.cpu.ready[p + 1] == Risen(v.table, v.cpu.ready[p][i..]) + v.cpu.ready[p + 1]
    && (forall r: nat :: r < LEVELS && r != p && r != p + 1 ==> z.cpu.ready[r] == v.cpu.ready[r])
    && StartedOver(v.table, z.table, v.cpu.ready[p][i..])
  }

  /** Of the threads in l those that move up have age 0; no thread outside of l is written. */
  ghost predicate StartedOver(t: Table, t': Table, l: seq<Ptr>) {
    && (forall x :: x !in l ==> Get(t', x) == Get(t, x))
    && (forall x :: x in Risen(t, l) ==> Get(t', x).age == 0)
  }

  lemma StartOverCons(t: Table, t1: Table, t': Table, l: seq<Ptr>)
    requires l != [] && l[0] !in l[1..] && (forall y :: y != l[0] ==> Get(t1, y) == Get(t, y))
    requires Risen(t1, l[1..]) == Risen(t, l[1..]) && StartedOver(t1, t', l[1..])
    requires l[0] in Risen(t, l) ==> Get(t1, l[0]).age == 0
    ensures StartedOver(t, t', l)
  {
    RisenIn(t, l[1..]);
    forall x | x !in l ensures Get(t', x) == Get(t, x) {
      assert x != l[0] && x !in l[1..];
    }
    forall x | x in Risen(t, l) ensures Get(t', x).age == 0 {
      assert x in Risen(t, l[1..]) || x == l[0];
    }
  }

  lemma PassedOver(v: View, v1: View, p: nat, i: nat, x: Ptr, z: View)
    requires |v.cpu.ready| == LEVELS && p < MAX_PRIORITY && i < |v.cpu.ready[p]| && v.cpu.ready[p][i] == x
    requires NoDup(v.cpu.ready[p]) && (Get(v.table, x).tid == 1 || Get(v.table, x).age < 19)
    requires v1.cpu == v.cpu && forall y :: y != x ==> Get(v1.table, y) == Get(v.table, y)
    requires Aged(v1, z, p, i + 1)
    ensures Aged(v, z, p, i)
  {
    var was := v.cpu.ready[p];
    var l := was[i..];
    assert l[0] == x && l[1..] == was[i + 1..] && was[..i + 1] == was[..i] + [x];
    RisenSame(v.table, v1.table, l[1..]);
    RisenIn(v.table, l[1..]);
    StartOverCons(v.table, v1.table, z.table, l);
    Regroup(was[..i], [x], Unrisen(v.table, l[1..]));
  }

  /** In v1 thread x has moved from position i of list p to the head of the next list and starts over. */
  ghost predicate OneUp(v: View, v1: View, p: nat, i: nat, x: Ptr) {
    && |v.cpu.ready| == |v1.cpu.ready| == LEVELS && p < MAX_PRIORITY && i < |v.cpu.ready[p]| && v.cpu.ready[p][i] == x
    && |v1.cpu.ready[p]| + 1 == |v.cpu.ready[p]|
    && v1.cpu.ready[p][..i] == v.cpu.ready[p][..i] && v1.cpu.ready[p][i..] == v.cpu.ready[p][i + 1..]
    && v1.cpu.ready[p + 1] == [x] + v.cpu.ready[p + 1]
    && (forall r: nat :: r < LEVELS && r != p && r != p + 1 ==> v1.cpu.ready[r] == v.cpu.ready[r])
    && v1.cpu.sleep == v.cpu.sleep
    && Get(v1.table, x).age == 0 && forall y :: y != x ==> Get(v1.table, y) == Get(v.table, y)
  }

  lemma PromoteShape(v: View, p: nat, i: nat)
    requires |v.cpu.ready| == LEVELS && p < MAX_PRIORITY && i < |v.cpu.ready[p]| && NoDup(v.cpu.ready[p])
    ensures OneUp(v, Promote(v, p, i), p, i, v.cpu.ready[p][i]) && NoDup(Promote(v, p, i).cpu.ready[p])
  {
    WithoutFacts(v.cpu.ready[p], i);
  }

  lemma MovedUp(v: View, v1: View, p: nat, i: nat, x: Ptr, z: View)
    requires OneUp(v, v1, p, i, x) && NoDup(v.cpu.ready[p]) && Get(v.table, x).tid != 1 && Get(v.table, x).age >= 19
    requires Aged(v1, z, p, i)
    ensures Aged(v, z, p, i)
  {
    var l := v.cpu.ready[p][i..];
    assert l[0] == x && l[1..] == v.cpu.ready[p][i + 1..] == v1.cpu.ready[p][i..];
    RisenSame(v.table, v1.table, l[1..]);
    StartOverCons(v.table, v1.table, z.table, l);
    Regroup(Risen(v.table, l[1..]), [x], v.cpu.ready[p + 1]);
  }

  lemma {:induction false} AgeLevelLists(v: View, p: nat, i: nat)
    requires |v.cpu.ready| == LEVELS && p < MAX_PRIORITY && i <= |v.cpu.ready[p]| && NoDup(v.cpu.ready[p])
    ensures Aged(v, AgeLevel(v, p, i), p, i)
    decreases |Level(v.cpu.ready, p)| - i
  {
    if i == |v.cpu.ready[p]| {
      AtTheEnd(v, p, i);
    } else {
      var x := v.cpu.ready[p][i];
      if !Ages(Get(v.table, x)) {
        AgeLevelLists(v, p, i + 1);
        AfterPassing(v, v, p, i, x);
      } else if Get(v.table, x).age + 1 > AGE_LIMIT {
        PromoteShape(v, p, i);
        AgeLevelLists(Promote(v, p, i), p, i);
        AfterMoving(v, Promote(v, p, i), p, i, x);
      } else {
        AgeLevelLists(Bump(v, x), p, i + 1);
        AfterPassing(v, Bump(v, x), p, i, x);
      }
    }
  }

  lemma AtTheEnd(v: View, p: nat, i: nat)
    requires |v.cpu.ready| == LEVELS && p < MAX_PRIORITY && i == |v.cpu.ready[p]|
    ensures Aged(v, AgeLevel(v, p, i), p, i)
  {
    assert v.cpu.ready[p][..i] == v.cpu.ready[p] && v.cpu.ready[p][i..] == [];
  }

  lemma AfterPassing(v: View, v1: View, p: nat, i: nat, x: Ptr)
    requires |v.cpu.ready| == LEVELS && p < MAX_PRIORITY && i < |v.cpu.ready[p]| && v.cpu.ready[p][i] == x
    requires NoDup(v.cpu.ready[p]) && v1.cpu == v.cpu
    requires v1 == if !Ages(Get(v.table, x)) then v else Bump(v, x)
    requires !Ages(Get(v.table, x)) || Get(v.table, x).age < AGE_LIMIT
    requires Aged(v1, AgeLevel(v1, p, i + 1), p, i + 1)
    ensures Aged(v, AgeLevel(v, p, i), p, i)
  {
    assert AgeLevel(v, p, i) == AgeLevel(v1, p, i + 1);
    PassedOver(v, v1, p, i, x, AgeLevel(v, p, i));
  }

  lemma AfterMoving(v: View, v1: View, p: nat, i: nat, x: Ptr)
    requires OneUp(v, v1, p, i, x) && NoDup(v.cpu.ready[p]) && v1 == Promote(v, p, i)
    requires Ages(Get(v.table, x)) && Get(v.table, x).age >= AGE_LIMIT && Aged(v1, AgeLevel(v1, p, i), p, i)
    ensures Aged(v, AgeLevel(v, p, i), p, i)
  {
    assert AgeLevel(v, p, i) == AgeLevel(v1, p, i);
    MovedUp(v, v1, p, i, x, AgeLevel(v, p, i));
  }

  /** List q after a pass over lists p, ..., 30. */
  function Ascended(v: View, p: nat, q: nat): seq<Ptr> {
    var l := Level(v.cpu.ready, q);
    (if q > p then Risen(v.table, Level(v.cpu.ready, q - 1)) else [])
    + (if p <= q < 31 then Unrisen(v.table, l) else l)
  }

  /** The threads of another list are not written while list p is aged. */
  lemma ListKept(v: View, mine: set<Ptr>, p: nat, q: nat, v1: View)
    requires Inv(v, mine) && p < MAX_PRIORITY && q < LEVELS && q != p && Aged(v, v1, p, 0)
    ensures Risen(v1.table, v.cpu.ready[q]) == Risen(v.table, v.cpu.ready[q])
    ensures Unrisen(v1.table, v.cpu.ready[q]) == Unrisen(v.table, v.cpu.ready[q])
  {
    assert ListOk(v, mine, p) && ListOk(v, mine, q);
    assert v.cpu.ready[p][0..] == v.cpu.ready[p];
    RisenSame(v.table, v1.table, v.cpu.ready[q]);
  }

  /** The list above is aged next; those that just came up stay in it. */
  lemma NextList(v: View, mine: set<Ptr>, p: nat, v1: View)
    requires Inv(v, mine) && p < MAX_PRIORITY && Aged(v, v1, p, 0)
    ensures var l, up := v.cpu.ready[p + 1], Risen(v.table, v.cpu.ready[p]);
            && v1.cpu.ready[p] == Unrisen(v.table, v.cpu.ready[p]) && v1.cpu.ready[p + 1] == up + l
            && Risen(v1.table, up + l) == Risen(v.table, l) && Unrisen(v1.table, up + l) == up + Unrisen(v.table, l)
  {
    assert v.cpu.ready[p][0..] == v.cpu.ready[p] && v.cpu.ready[p][..0] == [];
    var up := Risen(v.table, v.cpu.ready[p]);
    NobodyRises(v1.table, up);
    RisenConcat(v1.table, up, v.cpu.ready[p + 1]);
    ListKept(v, mine, p, p + 1, v1);
  }

  /** After list p is done, what the rest of the pass makes of list q is what the whole pass makes of it. */
  lemma AscendOne(v: View, mine: set<Ptr>, p: nat, q: nat, v1: View)
    requires Inv(v, mine) && p < MAX_PRIORITY && q < LEVELS && Aged(v, v1, p, 0)
    ensures Ascended(v1, p + 1, q) == Ascended(v, p, q)
  {
    NextList(v, mine, p, v1);
    if q > p + 1 {
      ListKept(v, mine, p, q, v1);
      if q > p + 2 { ListKept(v, mine, p, q - 1, v1); }
    }
  }

  /** The whole pass: each list keeps, in order, those that stay, and gets at its head those that come
      up from the list below. */
  lemma {:induction false} AgeFromLists(v: View, mine: set<Ptr>, p: nat, q: nat)
    requires Inv(v, mine) && p <= MAX_PRIORITY && q < LEVELS
    ensures Level(AgeFrom(v, p).cpu.ready, q) == Ascended(v, p, q) && AgeFrom(v, p).cpu.sleep == v.cpu.sleep
    decreases LEVELS - p
  {
    if p < MAX_PRIORITY {
      var v1 := AgeLevel(v, p, 0);
      AgeLevelInv(v, mine, p, 0);
      assert ListOk(v, mine, p);
      AgeLevelLists(v, p, 0);
      AgeFromLists(v1, mine, p + 1, q);
      AscendOne(v, mine, p, q, v1);
    }
  }

  // ---------- waking and aging together ----------

  /** List q after waking. */
  function Rung(v: View, wakeTick: nat, q: nat): seq<Ptr> {
    Woken(v.table, v.cpu.sleep, wakeTick, q) + Level(v.cpu.ready, q)
  }

  /** List q when the choice is made. */
  function Lined(v: View, wakeTick: nat, ageTick: nat, q: nat): seq<Ptr> {
    var l := Rung(v, wakeTick, q);
    if ageTick - v.cpu.lastAge < 20 then l
    else (if q > 0 then Risen(v.table, Rung(v, wakeTick, q - 1)) else []) + (if q < 31 then Unrisen(v.table, l) else l)
  }

  lemma SettleLists(v: View, mine: set<Ptr>, wakeTick: nat, ageTick: nat, q: nat)
    requires Inv(v, mine) && q < LEVELS
    ensures var w := Settle(v, wakeTick, ageTick);
            Level(w.cpu.ready, q) == Lined(v, wakeTick, ageTick, q)
            && w.cpu.sleep == Unwoken(v.table, v.cpu.sleep, wakeTick)
  {
    RungLists(v, mine, wakeTick, q);
    if ageTick - v.cpu.lastAge >= 20 {
      PassLists(Charge(Wake(v, 0, wakeTick)), mine, ageTick, q);
      RungAscends(v, mine, wakeTick, q);
    }
  }

  lemma RungAscends(v: View, mine: set<Ptr>, wakeTick: nat, q: nat)
    requires Inv(v, mine) && q < LEVELS
    ensures Ascended(Charge(Wake(v, 0, wakeTick)), 0, q)
            == (if q > 0 then Risen(v.table, Rung(v, wakeTick, q - 1)) else [])
               + (if q < 31 then Unrisen(v.table, Rung(v, wakeTick, q)) else Rung(v, wakeTick, q))
  {
    RungLists(v, mine, wakeTick, q);
    if q > 0 { RungLists(v, mine, wakeTick, q - 1); }
  }

  lemma PassLists(v: View, mine: set<Ptr>, tick: nat, q: nat)
    requires Inv(v, mine) && q < LEVELS && tick - v.cpu.lastAge >= 20
    ensures Level(Age(v, tick).cpu.ready, q) == Ascended(v, 0, q) && Age(v, tick).cpu.sleep == v.cpu.sleep
  {
    ClockInv(v, mine, tick);
    AgeFromLists(v.(cpu := v.cpu.(lastAge := tick)), mine, 0, q);
  }

  /** The lists after waking and charging, and who is due to move up. */
  lemma RungLists(v: View, mine: set<Ptr>, wakeTick: nat, q: nat)
    requires Inv(v, mine) && q < LEVELS
    ensures var b, l := Charge(Wake(v, 0, wakeTick)), Rung(v, wakeTick, q);
            && Inv(b, mine) && b.cpu.lastAge == v.cpu.lastAge && b.cpu.sleep == Unwoken(v.table, v.cpu.sleep, wakeTick)
            && Level(b.cpu.ready, q) == l && Risen(b.table, l) == Risen(v.table, l)
            && Unrisen(b.table, l) == Unrisen(v.table, l)
  {
    WakeInv(v, mine, 0, wakeTick);
    ChargeInv(Wake(v, 0, wakeTick), mine);
    assert v.cpu.sleep[0..] == v.cpu.sleep && v.cpu.sleep[..0] == [];
    WakeLists(v, mine, 0, wakeTick, q);
    WakeKeepsAges(v, mine, wakeTick, q);
  }

  /** Who moves up can be told before waking and charging. */
  lemma WakeKeepsAges(v: View, mine: set<Ptr>, tick: nat, q: nat)
    requires Inv(v, mine) && Inv(Charge(Wake(v, 0, tick)), mine)
    ensures var b := Charge(Wake(v, 0, tick)); var l := Level(b.cpu.ready, q);
            Risen(b.table, l) == Risen(v.table, l) && Unrisen(b.table, l) == Unrisen(v.table, l)
  {
    var b := Charge(Wake(v, 0, tick));
    var l := Level(b.cpu.ready, q);
    assert ListOk(b, mine, q);
    forall x | x in l ensures Get(b.table, x).tid == Get(v.table, x).tid && Get(b.table, x).age == Get(v.table, x).age {
      WakeEffect(v, mine, 0, tick, x);
    }
    RisenSame(v.table, b.table, l);
  }
}
