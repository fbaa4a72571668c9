/** The scheduler of one CPU, on values: its running thread, its 32 ready lists and its sleep
    list, all holding addresses of thread structures. */
module CpuSched {
  import opened Common

  const MAX_PRIORITY := 31
  const LEVELS := 32
  const AGE_LIMIT := 19   // a ready thread moves up when total_ticks passes this
  const AGE_PERIOD := 20  // ticks between two aging passes

  type Ptr = nat

  datatype State = Ready | Running | Sleeping | Dead

  datatype Thread = Thread(tid: nat, rsp: nat, state: State, priority: nat, affinity: nat,
                           ticks: nat, age: nat, wakeup: nat, stack: nat, ustack: nat)

  type Table = map<Ptr, Thread>

  datatype Cpu = Cpu(current: Ptr, ready: seq<seq<Ptr>>, sleep: seq<Ptr>, lastAge: nat)

  /** The thread structures and one CPU. */
  datatype View = View(table: Table, cpu: Cpu)

  const NOBODY := Thread(0, 0, Dead, 0, 0, 0, 0, 0, 0, 0)

  function Get(t: Table, x: Ptr): Thread { if x in t then t[x] else NOBODY }

  function Slice(priority: nat): nat {
    if priority <= MAX_PRIORITY then (MAX_PRIORITY - priority + 1) * 2 else 0
  }

  /** List p, empty when p is out of range. */
  function Level(ready: seq<seq<Ptr>>, p: nat): seq<Ptr> { if p < |ready| then ready[p] else [] }

  function SetLevel(ready: seq<seq<Ptr>>, p: nat, l: seq<Ptr>): seq<seq<Ptr>> {
    if p < |ready| then ready[p := l] else ready
  }

  function Without(s: seq<Ptr>, i: nat): seq<Ptr>
    requires i < |s|
  {
    s[..i] + s[i + 1..]
  }

  // ---------- what sched_reschedule does, piece by piece ----------

  /** Sleeper i is due: it becomes ready, at the head of the list of its priority. */
  function WakeOne(v: View, i: nat): View
    requires i < |v.cpu.sleep|
  {
    var x := v.cpu.sleep[i];
    var p := Get(v.table, x).priority;
    View(v.table[x := Get(v.table, x).(state := Ready)],
         v.cpu.(sleep := Without(v.cpu.sleep, i), ready := SetLevel(v.cpu.ready, p, [x] + Level(v.cpu.ready, p))))
  }

  /** The wake-up loop from position i on. */
  function Wake(v: View, i: nat, tick: nat): View
    decreases |v.cpu.sleep| - i
  {
    if i >= |v.cpu.sleep| then v
    else if tick >= Get(v.table, v.cpu.sleep[i]).wakeup then Wake(WakeOne(v, i), i, tick)
    else Wake(v, i + 1, tick)
  }

  /** Only the thread with tid 1 is left out of aging. */
  predicate Ages(t: Thread) { t.tid != 1 }

  /** Thread i of list p has waited long enough and moves to the head of the next list. */
  function Promote(v: View, p: nat, i: nat): View
    requires p < MAX_PRIORITY && i < |Level(v.cpu.ready, p)|
  {
    var x := v.cpu.ready[p][i];
    var ready := v.cpu.ready[p := Without(v.cpu.ready[p], i)];
    View(v.table[x := Get(v.table, x).(age := 0, priority := p + 1)],
         v.cpu.(ready := SetLevel(ready, p + 1, [x] + Level(ready, p + 1))))
  }

  function Bump(v: View, x: Ptr): View {
    v.(table := v.table[x := Get(v.table, x).(age := Get(v.table, x).age + 1)])
  }

  /** Aging of list p from position i on. */
  function AgeLevel(v: View, p: nat, i: nat): View
    requires p < MAX_PRIORITY
    decreases |Level(v.cpu.ready, p)| - i
  {
    if i >= |Level(v.cpu.ready, p)| then v
    else
      var x := v.cpu.ready[p][i];
      var t := Get(v.table, x);
      if !Ages(t) then AgeLevel(v, p, i + 1)
      else if t.age + 1 > AGE_LIMIT then AgeLevel(Promote(v, p, i), p, i)
      else AgeLevel(Bump(v, x), p, i + 1)
  }

  /** The aging pass over lists p, ..., 30. */
  function AgeFrom(v: View, p: nat): View
    decreases LEVELS - p
  {
    if p >= MAX_PRIORITY then v else AgeFrom(AgeLevel(v, p, 0), p + 1)
  }

  /** sched_age_threads: a pass at most every 20 ticks. */
  function Age(v: View, tick: nat): View {
    if tick - v.cpu.lastAge < AGE_PERIOD then v else AgeFrom(v.(cpu := v.cpu.(lastAge := tick)), 0)
  }

  /** The running thread's stack pointer is saved on entry. */
  function Save(v: View, rsp: nat): View {
    v.(table := v.table[v.cpu.current := Get(v.table, v.cpu.current).(rsp := rsp)])
  }

  /** One tick of the running thread's time slice. */
  function Charge(v: View): View {
    var t := Get(v.table, v.cpu.current);
    v.(table := v.table[v.cpu.current := t.(ticks := if t.ticks > 0 then t.ticks - 1 else 0)])
  }

  /** The highest list below n that is not empty. */
  function Top(ready: seq<seq<Ptr>>, n: nat): (r: Option<nat>)
    requires n <= |ready|
    ensures r.Some? ==> r.value < n && ready[r.value] != [] && forall p :: r.value < p < n ==> ready[p] == []
    ensures r.None? ==> forall p :: 0 <= p < n ==> ready[p] == []
  {
    if n == 0 then None else if ready[n - 1] != [] then Some(n - 1) else Top(ready, n - 1)
  }

  /** Whether the running thread t gives way to the head of list p. */
  predicate Yields(t: Thread, p: nat) {
    p > t.priority || (p == t.priority && t.ticks == 0) || t.state != Running
  }

  /** Where the old running thread goes: to the tail of its list with a new slice, to the head of
      the sleep list, or, dead, out of the table unless it died at priority 0. */
  function Park(v: View): View {
    var x := v.cpu.current;
    var t := Get(v.table, x);
    match t.state
    case Running =>
      View(v.table[x := t.(state := Ready, ticks := Slice(t.priority))],
           v.cpu.(ready := SetLevel(v.cpu.ready, t.priority, Level(v.cpu.ready, t.priority) + [x])))
    case Sleeping => v.(cpu := v.cpu.(sleep := [x] + v.cpu.sleep))
    case Dead => if t.priority != 0 then v.(table := v.table - {x}) else v
    case Ready => v
  }

  /** The running thread gives way to the head of list p. */
  function Switch(v: View, p: nat): View
    requires Level(v.cpu.ready, p) != []
  {
    var next := v.cpu.ready[p][0];
    var parked := Park(v.(cpu := v.cpu.(ready := v.cpu.ready[p := v.cpu.ready[p][1..]])));
    View(parked.table[next := Get(parked.table, next).(state := Running)], parked.cpu.(current := next))
  }

  /** What sched_reschedule does between saving the stack pointer and choosing a thread. */
  function Settle(v: View, wakeTick: nat, ageTick: nat): View {
    Age(Charge(Wake(v, 0, wakeTick)), ageTick)
  }

  function Choose(v: View): View {
    match Top(v.cpu.ready, |v.cpu.ready|)
    case None => v
    case Some(p) => if Yields(Get(v.table, v.cpu.current), p) then Switch(v, p) else v
  }

  /** The addresses given to kfree: stacks first, then the thread structure itself. */
  function Blocks(t: Thread, x: Ptr): seq<nat> {
    (if t.ustack != 0 then [t.ustack] else []) + [t.stack, x]
  }

  /** The structure, in which the others are written, goes last. */
  lemma BlocksInOrder(t: Thread, x: Ptr)
    ensures Blocks(t, x) == if t.ustack == 0 then [t.stack, x] else [t.ustack, t.stack, x]
  {
  }

  // ---------- what holds of one CPU ----------

  ghost predicate NoDup(s: seq<Ptr>) {
    forall i, j :: 0 <= i < j < |s| ==> s[i] != s[j]
  }

  /** List p holds ready threads of priority p, none twice, and not the running one. */
  ghost predicate ListOk(v: View, mine: set<Ptr>, p: nat) {
    var l := Level(v.cpu.ready, p);
    NoDup(l) && forall x :: x in l ==>
      x in mine && Get(v.table, x).state == Ready && Get(v.table, x).priority == p && x != v.cpu.current
  }

  /** The sleep list holds sleeping threads, none twice, and not the running one. */
  ghost predicate SleepOk(v: View, mine: set<Ptr>) {
    NoDup(v.cpu.sleep) && forall x :: x in v.cpu.sleep ==>
      x in mine && Get(v.table, x).state == Sleeping && x != v.cpu.current
  }

  /** A thread of this CPU is where its state says, unless it died at priority 0. */
  ghost predicate Located(v: View, x: Ptr) {
    var t := Get(v.table, x);
    && t.priority <= MAX_PRIORITY && t.age <= AGE_LIMIT
    && match t.state
       case Running => x == v.cpu.current
       case Ready => x in Level(v.cpu.ready, t.priority)
       case Sleeping => x == v.cpu.current || x in v.cpu.sleep
       case Dead => x == v.cpu.current || t.priority == 0
  }

  /** The lists are in order; `mine` are the threads that belong to this CPU. */
  ghost predicate Listed(v: View, mine: set<Ptr>) {
    && |v.cpu.ready| == LEVELS
    && mine <= v.table.Keys
    && (forall p: nat {:trigger ListOk(v, mine, p)} :: ListOk(v, mine, p))
    && SleepOk(v, mine)
    && (forall x {:trigger Located(v, x)} :: x in mine ==> Located(v, x))
  }

  /** The CPU also has a current thread. */
  ghost predicate Inv(v: View, mine: set<Ptr>) {
    Listed(v, mine) && v.cpu.current in mine && Get(v.table, v.cpu.current).state != Ready
  }

  /** What no reschedule changes about a thread, and that its priority never falls. */
  predicate Carried(t: Thread, t': Thread) {
    && t'.tid == t.tid && t'.rsp == t.rsp && t'.affinity == t.affinity && t'.wakeup == t.wakeup
    && t'.stack == t.stack && t'.ustack == t.ustack && t'.priority >= t.priority
  }

  /** Nothing but the structures of `mine` was written, and those only in the fields that may change. */
  ghost predicate Elsewhere(v: View, v': View, mine: set<Ptr>) {
    forall x {:trigger Moved(v.table, v'.table, mine, x)} :: Moved(v.table, v'.table, mine, x)
  }

  ghost predicate Moved(t: Table, t': Table, mine: set<Ptr>, x: Ptr) {
    && (x !in mine ==> (x in t <==> x in t') && Get(t', x) == Get(t, x))
    && (x in t' ==> x in t && Carried(Get(t, x), Get(t', x)))
  }

  /** The running thread, the aging clock and the set of structures are the same. */
  predicate Same(v: View, v': View) {
    v'.cpu.current == v.cpu.current && v'.cpu.lastAge == v.cpu.lastAge && v'.table.Keys == v.table.Keys
  }

  lemma WithoutFacts(s: seq<Ptr>, i: nat)
    requires NoDup(s) && i < |s|
    ensures NoDup(Without(s, i))
    ensures forall x :: x in Without(s, i) <==> x in s && x != s[i]
  {
    var r := Without(s, i);
    forall x | x in s && x != s[i] ensures x in r {
      var k :| 0 <= k < |s| && s[k] == x;
      assert x == r[if k < i then k else k - 1];
    }
  }

  lemma WakeOneInv(v: View, mine: set<Ptr>, i: nat)
    requires Inv(v, mine) && i < |v.cpu.sleep|
    ensures Inv(WakeOne(v, i), mine) && Elsewhere(v, WakeOne(v, i), mine)
  {
    var v', x := WakeOne(v, i), v.cpu.sleep[i];
    WithoutFacts(v.cpu.sleep, i);
    assert Located(v, x);
    forall p: nat ensures ListOk(v', mine, p) {
      assert ListOk(v, mine, p);
    }
    forall y | y in mine ensures Located(v', y) {
      assert Located(v, y);
    }
  }

  lemma PromoteInv(v: View, mine: set<Ptr>, p: nat, i: nat)
    requires Inv(v, mine) && p < MAX_PRIORITY && i < |v.cpu.ready[p]|
    ensures Inv(Promote(v, p, i), mine) && Elsewhere(v, Promote(v, p, i), mine)
  {
    var v', x := Promote(v, p, i), v.cpu.ready[p][i];
    assert ListOk(v, mine, p);
    WithoutFacts(v.cpu.ready[p], i);
    forall q: nat ensures ListOk(v', mine, q) {
      assert ListOk(v, mine, q);
    }
    forall y | y in mine ensures Located(v', y) {
      assert Located(v, y);
    }
  }

  lemma BumpInv(v: View, mine: set<Ptr>, x: Ptr)
    requires Inv(v, mine) && x in mine && Get(v.table, x).age < AGE_LIMIT
    ensures Inv(Bump(v, x), mine) && Elsewhere(v, Bump(v, x), mine)
  {
    var v' := Bump(v, x);
    forall q: nat ensures ListOk(v', mine, q) {
      assert ListOk(v, mine, q);
    }
    forall y | y in mine ensures Located(v', y) {
      assert Located(v, y);
    }
  }

  lemma {:induction false} WakeInv(v: View, mine: set<Ptr>, i: nat, tick: nat)
    requires Inv(v, mine)
    ensures Inv(Wake(v, i, tick), mine) && Elsewhere(v, Wake(v, i, tick), mine) && Same(v, Wake(v, i, tick))
    decreases |v.cpu.sleep| - i
  {
    if i >= |v.cpu.sleep| {
    } else if tick >= Get(v.table, v.cpu.sleep[i]).wakeup {
      WakeOneInv(v, mine, i);
      WakeInv(WakeOne(v, i), mine, i, tick);
      ElsewhereTransitive(v, WakeOne(v, i), Wake(v, i, tick), mine);
    } else {
      WakeInv(v, mine, i + 1, tick);
    }
  }

  lemma {:induction false} AgeLevelInv(v: View, mine: set<Ptr>, p: nat, i: nat)
    requires Inv(v, mine) && p < MAX_PRIORITY
    ensures Inv(AgeLevel(v, p, i), mine) && Elsewhere(v, AgeLevel(v, p, i), mine) && Same(v, AgeLevel(v, p, i))
    decreases |Level(v.cpu.ready, p)| - i
  {
    if i >= |Level(v.cpu.ready, p)| {
    } else {
      var x := v.cpu.ready[p][i];
      var t := Get(v.table, x);
      assert ListOk(v, mine, p) && Located(v, x);
      if !Ages(t) {
        AgeLevelInv(v, mine, p, i + 1);
      } else if t.age + 1 > AGE_LIMIT {
        PromoteInv(v, mine, p, i);
        AgeLevelInv(Promote(v, p, i), mine, p, i);
        ElsewhereTransitive(v, Promote(v, p, i), AgeLevel(v, p, i), mine);
      } else {
        BumpInv(v, mine, x);
        AgeLevelInv(Bump(v, x), mine, p, i + 1);
        ElsewhereTransitive(v, Bump(v, x), AgeLevel(v, p, i), mine);
      }
    }
  }

  lemma {:induction false} AgeFromInv(v: View, mine: set<Ptr>, p: nat)
    requires Inv(v, mine)
    ensures Inv(AgeFrom(v, p), mine) && Elsewhere(v, AgeFrom(v, p), mine) && Same(v, AgeFrom(v, p))
    decreases LEVELS - p
  {
    if p < MAX_PRIORITY {
      AgeLevelInv(v, mine, p, 0);
      AgeFromInv(AgeLevel(v, p, 0), mine, p + 1);
      ElsewhereTransitive(v, AgeLevel(v, p, 0), AgeFrom(v, p), mine);
    }
  }

  lemma SaveInv(v: View, mine: set<Ptr>, rsp: nat)
    requires Inv(v, mine)
    ensures Inv(Save(v, rsp), mine)
  {
    TouchCurrent(v, mine, Save(v, rsp));
  }

  lemma ChargeInv(v: View, mine: set<Ptr>)
    requires Inv(v, mine)
    ensures Inv(Charge(v), mine) && Elsewhere(v, Charge(v), mine)
  {
    TouchCurrent(v, mine, Charge(v));
  }

  /** Writing fields of the running thread that no list depends on. */
  lemma TouchCurrent(v: View, mine: set<Ptr>, v': View)
    requires Inv(v, mine) && v'.cpu == v.cpu && v'.table.Keys == v.table.Keys
    requires forall x :: x != v.cpu.current ==> Get(v'.table, x) == Get(v.table, x)
    requires var t, t' := Get(v.table, v.cpu.current), Get(v'.table, v.cpu.current);
             t'.state != Ready && t'.priority == t.priority && t'.age == t.age
    ensures Inv(v', mine)
  {
    forall q: nat ensures ListOk(v', mine, q) {
      assert ListOk(v, mine, q);
    }
    forall y | y in mine ensures Located(v', y) {
      assert Located(v, y);
    }
  }

  lemma SettleInv(v: View, mine: set<Ptr>, wakeTick: nat, ageTick: nat)
    requires Inv(v, mine)
    ensures Inv(Settle(v, wakeTick, ageTick), mine) && Elsewhere(v, Settle(v, wakeTick, ageTick), mine)
    ensures Settle(v, wakeTick, ageTick).cpu.current == v.cpu.current
    ensures Settle(v, wakeTick, ageTick).table.Keys == v.table.Keys
    ensures Settle(v, wakeTick, ageTick).cpu.lastAge in {v.cpu.lastAge, ageTick}
  {
    WakeInv(v, mine, 0, wakeTick);
    var a := Wake(v, 0, wakeTick);
    ChargeInv(a, mine);
    var b := Charge(a);
    AgeInv(b, mine, ageTick);
    ElsewhereTransitive(v, a, b, mine);
    ElsewhereTransitive(v, b, Age(b, ageTick), mine);
  }

  lemma ElsewhereTransitive(a: View, b: View, c: View, mine: set<Ptr>)
    requires Elsewhere(a, b, mine) && Elsewhere(b, c, mine)
    ensures Elsewhere(a, c, mine)
  {
    forall x ensures Moved(a.table, c.table, mine, x) {
      assert Moved(a.table, b.table, mine, x) && Moved(b.table, c.table, mine, x);
    }
  }

  lemma ClockInv(v: View, mine: set<Ptr>, tick: nat)
    requires Inv(v, mine)
    ensures Inv(v.(cpu := v.cpu.(lastAge := tick)), mine)
  {
    var c := v.(cpu := v.cpu.(lastAge := tick));
    forall q: nat ensures ListOk(c, mine, q) {
      assert ListOk(v, mine, q);
    }
    forall y | y in mine ensures Located(c, y) {
      assert Located(v, y);
    }
  }

  lemma AgeInv(v: View, mine: set<Ptr>, tick: nat)
    requires Inv(v, mine)
    ensures Inv(Age(v, tick), mine) && Elsewhere(v, Age(v, tick), mine)
    ensures Age(v, tick).cpu.current == v.cpu.current && Age(v, tick).table.Keys == v.table.Keys
    ensures Age(v, tick).cpu.lastAge in {v.cpu.lastAge, tick}
  {
    var c := v.(cpu := v.cpu.(lastAge := tick));
    ClockInv(v, mine, tick);
    AgeFromInv(c, mine, 0);
    ElsewhereTransitive(v, c, AgeFrom(c, 0), mine);
  }

  /** The threads of this CPU after a switch away from x: all but a dead thread that is freed. */
  function Reaped(v: View): set<Ptr> {
    var t := Get(v.table, v.cpu.current);
    if t.state == Dead && t.priority != 0 then {v.cpu.current} else {}
  }

  /** Taking the head of list p out: it is ready but in no list for a moment. */
  lemma HeadFacts(v: View, mine: set<Ptr>, p: nat)
    requires Inv(v, mine) && Level(v.cpu.ready, p) != []
    ensures var next, l := v.cpu.ready[p][0], v.cpu.ready[p][1..];
            && next in mine && next != v.cpu.current && NoDup(l) && next !in l
            && Get(v.table, next).state == Ready && Get(v.table, next).priority == p <= MAX_PRIORITY
            && Located(v, v.cpu.current)
            && forall x :: x in v.cpu.ready[p] <==> x == next || x in l
  {
    var l := v.cpu.ready[p];
    assert ListOk(v, mine, p);
    assert l[1..] == Without(l, 0);
    WithoutFacts(l, 0);
  }

  /** A switch parks the old thread in the one place its state asks for and takes the new one out
      of its list; a dead thread leaves the table, except at priority 0. */
  lemma SwitchInv(v: View, mine: set<Ptr>, p: nat)
    requires Inv(v, mine) && Level(v.cpu.ready, p) != []
    ensures Inv(Switch(v, p), mine - Reaped(v)) && Elsewhere(v, Switch(v, p), mine)
    ensures Switch(v, p).table.Keys == v.table.Keys - Reaped(v)
    ensures var next := v.cpu.ready[p][0];
            && next != v.cpu.current && Switch(v, p).cpu.current == next
            && Get(Switch(v, p).table, next) == Get(v.table, next).(state := Running)
  {
    var v' := Switch(v, p);
    HeadFacts(v, mine, p);
    forall q: nat ensures ListOk(v', mine - Reaped(v), q) { SwitchList(v, mine, p, q); }
    forall y | y in mine - Reaped(v) ensures Located(v', y) { SwitchLocated(v, mine, p, y); }
    SwitchSleep(v, mine, p);
  }

  lemma SwitchList(v: View, mine: set<Ptr>, p: nat, q: nat)
    requires Inv(v, mine) && Level(v.cpu.ready, p) != []
    ensures ListOk(Switch(v, p), mine - Reaped(v), q)
  {
    HeadFacts(v, mine, p);
    assert ListOk(v, mine, q);
  }

  lemma SwitchLocated(v: View, mine: set<Ptr>, p: nat, y: Ptr)
    requires Inv(v, mine) && Level(v.cpu.ready, p) != [] && y in mine - Reaped(v)
    ensures Located(Switch(v, p), y)
  {
    HeadFacts(v, mine, p);
    assert Located(v, y);
  }

  lemma SwitchSleep(v: View, mine: set<Ptr>, p: nat)
    requires Inv(v, mine) && Level(v.cpu.ready, p) != []
    ensures SleepOk(Switch(v, p), mine - Reaped(v))
  {
    HeadFacts(v, mine, p);
  }

  // ---------- what a reschedule guarantees ----------

  /** The thread a reschedule frees, if any. */
  function Freed(v: View): set<Ptr> {
    match Top(v.cpu.ready, |v.cpu.ready|)
    case None => {}
    case Some(p) => if Yields(Get(v.table, v.cpu.current), p) then Reaped(v) else {}
  }

  lemma ChooseInv(v: View, mine: set<Ptr>)
    requires Inv(v, mine)
    ensures Inv(Choose(v), mine - Freed(v)) && Elsewhere(v, Choose(v), mine)
    ensures Choose(v).table.Keys == v.table.Keys - Freed(v) && Choose(v).cpu.lastAge == v.cpu.lastAge
  {
    var top := Top(v.cpu.ready, LEVELS);
    if top.Some? && Yields(Get(v.table, v.cpu.current), top.value) {
      SwitchInv(v, mine, top.value);
    } else {
      assert mine - Freed(v) == mine;
    }
  }

  /** Whether the running thread may go on although a thread of priority p is waiting: it must be
      RUNNING, and above p, or level with it with some of its slice left. */
  predicate Outlasts(t: Thread, p: nat) {
    t.state == Running && (p < t.priority || (p == t.priority && t.ticks > 0))
  }

  /** The running thread keeps the CPU exactly when it outlasts every thread that waits. */
  lemma KeepsCpuIff(v: View, mine: set<Ptr>)
    requires Inv(v, mine)
    ensures Choose(v).cpu.current == v.cpu.current
            <==> forall p: nat :: p < LEVELS && Level(v.cpu.ready, p) != [] ==> Outlasts(Get(v.table, v.cpu.current), p)
  {
    var top := Top(v.cpu.ready, LEVELS);
    if top.Some? {
      HeadFacts(v, mine, top.value);
      assert Level(v.cpu.ready, top.value) != [];
    }
  }

  /** Which thread runs, when list p is the highest that is not empty, and what becomes of the lists:
      a RUNNING thread that gives way goes to the tail of the list of its priority, a sleeping one to
      the head of the sleep list. */
  lemma ChooseIs(v: View, mine: set<Ptr>, p: nat, q: nat)
    requires Inv(v, mine) && p < LEVELS && Level(v.cpu.ready, p) != [] && q < LEVELS
    requires forall r: nat :: p < r < LEVELS ==> Level(v.cpu.ready, r) == []
    ensures var z, t, l := Choose(v), Get(v.table, v.cpu.current), Level(v.cpu.ready, q);
            if Outlasts(t, p) then z == v
            else
              && z.cpu.current == Level(v.cpu.ready, p)[0]
              && Level(z.cpu.ready, q) == (if q == p then l[1..] else l)
                                          + (if t.state == Running && q == t.priority then [v.cpu.current] else [])
              && z.cpu.sleep == (if t.state == Sleeping then [v.cpu.current] else []) + v.cpu.sleep
  {
    TopIs(v.cpu.ready, p);
    HeadFacts(v, mine, p);
    if !Outlasts(Get(v.table, v.cpu.current), p) { SwitchIs(v, p, q); }
  }

  lemma TopIs(ready: seq<seq<Ptr>>, p: nat)
    requires |ready| == LEVELS && p < LEVELS && Level(ready, p) != []
    requires forall r: nat :: p < r < LEVELS ==> Level(ready, r) == []
    ensures Top(ready, |ready|) == Some(p)
  {
    var top := Top(ready, LEVELS);
    assert top.Some? ==> Level(ready, top.value) != [];
  }

  lemma SwitchIs(v: View, p: nat, q: nat)
    requires |v.cpu.ready| == LEVELS && Level(v.cpu.ready, p) != [] && q < LEVELS
    requires Get(v.table, v.cpu.current).priority < LEVELS && Get(v.table, v.cpu.current).state != Ready
    ensures var z, t, l := Switch(v, p), Get(v.table, v.cpu.current), Level(v.cpu.ready, q);
            && z.cpu.current == Level(v.cpu.ready, p)[0]
            && Level(z.cpu.ready, q) == (if q == p then l[1..] else l)
                                        + (if t.state == Running && q == t.priority then [v.cpu.current] else [])
            && z.cpu.sleep == (if t.state == Sleeping then [v.cpu.current] else []) + v.cpu.sleep
  {
  }

  /** Nothing waits: nothing changes. */
  lemma ChooseNothing(v: View)
    requires |v.cpu.ready| == LEVELS && forall r: nat :: r < LEVELS ==> Level(v.cpu.ready, r) == []
    ensures Choose(v) == v
  {
    var top := Top(v.cpu.ready, LEVELS);
    assert top.Some? ==> Level(v.cpu.ready, top.value) != [];
  }

  /** Some thread is waiting in a ready list. */
  ghost predicate Waiting(v: View) {
    exists p: nat :: p < LEVELS && Level(v.cpu.ready, p) != []
  }

  /** Priority dominance: after a reschedule no thread in the ready lists has a higher priority
      than the running thread, provided something could run at all. */
  lemma Dominance(v: View, mine: set<Ptr>)
    requires Inv(v, mine)
    requires Get(v.table, v.cpu.current).state == Running || Waiting(v)
    ensures var z := Choose(v);
            && Get(z.table, z.cpu.current).state == Running
            && forall p: nat :: Get(z.table, z.cpu.current).priority < p ==> Level(z.cpu.ready, p) == []
  {
    var x := v.cpu.current;
    assert Located(v, x);
    var top := Top(v.cpu.ready, LEVELS);
    if top.Some? && Yields(Get(v.table, x), top.value) {
      var p := top.value;
      SwitchInv(v, mine, p);
      assert ListOk(v, mine, p);
    }
  }

  /** A sleeping or dead thread never keeps the CPU while another thread is ready. */
  lemma SwitchesAway(v: View, mine: set<Ptr>)
    requires Inv(v, mine) && Get(v.table, v.cpu.current).state != Running
    requires Waiting(v)
    ensures Choose(v).cpu.current != v.cpu.current
  {
    SwitchInv(v, mine, Top(v.cpu.ready, LEVELS).value);
  }

  // ---------- threads that come and go ----------

  /** A thread is pushed at the head of list p, as spawn and hand-off do. */
  function Arrive(cpu: Cpu, p: nat, x: Ptr): Cpu {
    cpu.(ready := SetLevel(cpu.ready, p, [x] + Level(cpu.ready, p)))
  }

  /** The position of x in s, |s| if it is not there. */
  function Position(s: seq<Ptr>, x: Ptr): (k: nat)
    ensures k <= |s|
    ensures k < |s| ==> s[k] == x
    ensures k == |s| ==> x !in s
  {
    if s == [] then 0 else if s[0] == x then 0 else 1 + Position(s[1..], x)
  }

  /** A thread is unlinked from list p, as hand-off does. */
  function Depart(cpu: Cpu, p: nat, x: Ptr): Cpu {
    var l := Level(cpu.ready, p);
    var k := Position(l, x);
    if k < |l| then cpu.(ready := SetLevel(cpu.ready, p, Without(l, k))) else cpu
  }

  lemma ArriveInv(v: View, mine: set<Ptr>, p: nat, x: Ptr)
    requires Listed(v, mine) && x !in mine && x in v.table && x != v.cpu.current && p < LEVELS
    requires var t := v.table[x]; t.state == Ready && t.priority == p && t.age <= AGE_LIMIT
    ensures Listed(View(v.table, Arrive(v.cpu, p, x)), mine + {x})
    ensures Inv(v, mine) ==> Inv(View(v.table, Arrive(v.cpu, p, x)), mine + {x})
  {
    var v' := View(v.table, Arrive(v.cpu, p, x));
    forall q: nat ensures ListOk(v', mine + {x}, q) {
      assert ListOk(v, mine, q);
    }
    forall y | y in mine + {x} ensures Located(v', y) {
      assert y in mine ==> Located(v, y);
    }
  }

  lemma DepartInv(v: View, mine: set<Ptr>, p: nat, x: Ptr)
    requires Listed(v, mine) && x in Level(v.cpu.ready, p)
    ensures Listed(View(v.table, Depart(v.cpu, p, x)), mine - {x})
    ensures Inv(v, mine) ==> Inv(View(v.table, Depart(v.cpu, p, x)), mine - {x})
    ensures x in mine && Get(v.table, x).state == Ready && Get(v.table, x).priority == p
  {
    var v' := View(v.table, Depart(v.cpu, p, x));
    assert ListOk(v, mine, p);
    WithoutFacts(v.cpu.ready[p], Position(v.cpu.ready[p], x));
    forall q: nat ensures ListOk(v', mine - {x}, q) {
      assert ListOk(v, mine, q);
    }
    forall y | y in mine - {x} ensures Located(v', y) {
      assert Located(v, y);
    }
  }

  /** What other CPUs do to their own threads does not concern this one. */
  lemma FrameInv(v: View, v': View, mine: set<Ptr>)
    requires Listed(v, mine) && v'.cpu == v.cpu && mine <= v'.table.Keys
    requires forall x :: x in mine ==> Get(v'.table, x) == Get(v.table, x)
    ensures Listed(v', mine) && (Inv(v, mine) ==> Inv(v', mine))
  {
    forall q: nat ensures ListOk(v', mine, q) {
      assert ListOk(v, mine, q);
    }
    forall y | y in mine ensures Located(v', y) {
      assert Located(v, y);
    }
  }
}
