/** The lists of one CPU as sched.c keeps them: linked through the `next` fields of the thread
    structures, with 0 for the null pointer. */
module ListLinks {
  import opened CpuSched

  /** The `next` fields, the heads of the ready lists and the head of the sleep list. */
  datatype Links = Links(next: map<Ptr, Ptr>, heads: seq<Ptr>, sleepHead: Ptr)

  function Head(s: seq<Ptr>): Ptr { if s == [] then 0 else s[0] }

  function After(s: seq<Ptr>, i: nat): Ptr { if i + 1 < |s| then s[i + 1] else 0 }

  lemma HeadAfter(s: seq<Ptr>, i: nat)
    requires i < |s|
    ensures Head(s[i..]) == s[i] && Head(s[i + 1..]) == After(s, i)
  {
  }

  /** The structures of s are linked in that order and the last one ends the list, so the list is
      finite and visits exactly s. */
  ghost predicate Chain(next: map<Ptr, Ptr>, s: seq<Ptr>) {
    forall i: nat {:trigger LinkAt(next, s, i)} :: LinkAt(next, s, i)
  }

  ghost predicate LinkAt(next: map<Ptr, Ptr>, s: seq<Ptr>, i: nat) {
    i < |s| ==> s[i] != 0 && s[i] in next && next[s[i]] == After(s, i)
  }

  lemma ChainFrame(next: map<Ptr, Ptr>, s: seq<Ptr>, x: Ptr, y: Ptr)
    requires Chain(next, s) && x !in s
    ensures Chain(next[x := y], s)
  {
    var next' := next[x := y];
    forall i: nat ensures LinkAt(next', s, i) { assert LinkAt(next, s, i); }
  }

  lemma ChainPush(next: map<Ptr, Ptr>, s: seq<Ptr>, x: Ptr)
    requires Chain(next, s) && x !in s && x != 0
    ensures Chain(next[x := Head(s)], [x] + s)
  {
    var next', l := next[x := Head(s)], [x] + s;
    forall i: nat ensures LinkAt(next', l, i) {
      if i > 0 { assert LinkAt(next, s, i - 1); }
    }
  }

  lemma ChainAppend(next: map<Ptr, Ptr>, s: seq<Ptr>, x: Ptr)
    requires Chain(next, s) && NoDup(s) && x !in s && x != 0
    ensures Chain(if s == [] then next[x := 0] else next[x := 0][s[|s| - 1] := x], s + [x])
  {
    var next', l := if s == [] then next[x := 0] else next[x := 0][s[|s| - 1] := x], s + [x];
    forall i: nat ensures LinkAt(next', l, i) { assert LinkAt(next, s, i); }
  }

  ghost predicate ListsOk(v: View, mine: set<Ptr>) {
    && |v.cpu.ready| == LEVELS
    && (forall p: nat {:trigger ListOk(v, mine, p)} :: ListOk(v, mine, p))
    && SleepOk(v, mine)
  }

  ghost predicate ListLinked(k: Links, v: View, p: nat) {
    p < |k.heads| ==> k.heads[p] == Head(Level(v.cpu.ready, p)) && Chain(k.next, Level(v.cpu.ready, p))
  }

  ghost predicate Linked(k: Links, v: View, mine: set<Ptr>) {
    && |k.heads| == LEVELS && 0 !in mine && mine <= k.next.Keys
    && (forall p: nat {:trigger ListLinked(k, v, p)} :: ListLinked(k, v, p))
    && k.sleepHead == Head(v.cpu.sleep) && Chain(k.next, v.cpu.sleep)
  }

  /** The `next` fields after position i of s has been bypassed. */
  function Bypass(next: map<Ptr, Ptr>, s: seq<Ptr>, i: nat): map<Ptr, Ptr>
    requires i < |s| && s[i] in next
  {
    if i == 0 then next else next[s[i - 1] := next[s[i]]]
  }

  lemma BypassChain(next: map<Ptr, Ptr>, s: seq<Ptr>, i: nat)
    requires Chain(next, s) && NoDup(s) && i < |s| && s[i] in next
    ensures Chain(Bypass(next, s, i), Without(s, i))
    ensures Head(Without(s, i)) == if i == 0 then next[s[i]] else Head(s)
  {
    var r, next' := Without(s, i), Bypass(next, s, i);
    assert LinkAt(next, s, i);
    forall j: nat ensures LinkAt(next', r, j) {
      assert LinkAt(next, s, if j < i then j else j + 1);
    }
  }

  /** Bypassing a member of s does not touch a list that shares none with s. */
  lemma BypassFrame(next: map<Ptr, Ptr>, s: seq<Ptr>, i: nat, l: seq<Ptr>)
    requires Chain(next, l) && i < |s| && s[i] in next && (i > 0 ==> s[i - 1] !in l)
    ensures Chain(Bypass(next, s, i), l)
  {
    if i > 0 { ChainFrame(next, l, s[i - 1], next[s[i]]); }
  }

  /** The links of fewer threads, or of one more. */
  lemma LinkFewer(k: Links, v: View, mine: set<Ptr>, fewer: set<Ptr>)
    requires Linked(k, v, mine) && fewer <= mine
    ensures Linked(k, v, fewer)
  {
  }

  lemma LinkMore(k: Links, v: View, mine: set<Ptr>, x: Ptr)
    requires Linked(k, v, mine) && x != 0 && x in k.next
    ensures Linked(k, v, mine + {x})
  {
  }

  /** Unlinking position i of list p. */
  lemma LinkRemove(k: Links, v: View, mine: set<Ptr>, p: nat, i: nat)
    requires ListsOk(v, mine) && Linked(k, v, mine) && p < LEVELS && i < |v.cpu.ready[p]|
    ensures var s := v.cpu.ready[p];
            && s[i] in k.next
            && Linked(Links(Bypass(k.next, s, i), if i == 0 then k.heads[p := k.next[s[i]]] else k.heads, k.sleepHead),
                      v.(cpu := v.cpu.(ready := v.cpu.ready[p := Without(s, i)])), mine)
  {
    var s := v.cpu.ready[p];
    var v' := v.(cpu := v.cpu.(ready := v.cpu.ready[p := Without(s, i)]));
    assert ListLinked(k, v, p) && ListOk(v, mine, p) && LinkAt(k.next, s, i);
    var k' := Links(Bypass(k.next, s, i), if i == 0 then k.heads[p := k.next[s[i]]] else k.heads, k.sleepHead);
    forall q: nat ensures ListLinked(k', v', q) {
      assert ListLinked(k, v, q) && ListOk(v, mine, q);
      if q == p { BypassChain(k.next, s, i); } else { BypassFrame(k.next, s, i, Level(v.cpu.ready, q)); }
    }
    BypassFrame(k.next, s, i, v.cpu.sleep);
  }

  /** Unlinking position i of the sleep list. */
  lemma LinkUnsleep(k: Links, v: View, mine: set<Ptr>, i: nat)
    requires ListsOk(v, mine) && Linked(k, v, mine) && i < |v.cpu.sleep|
    ensures var s := v.cpu.sleep;
            && s[i] in k.next
            && Linked(Links(Bypass(k.next, s, i), k.heads, if i == 0 then k.next[s[i]] else k.sleepHead),
                      v.(cpu := v.cpu.(sleep := Without(s, i))), mine)
  {
    var s := v.cpu.sleep;
    var v' := v.(cpu := v.cpu.(sleep := Without(s, i)));
    assert LinkAt(k.next, s, i);
    var k' := Links(Bypass(k.next, s, i), k.heads, if i == 0 then k.next[s[i]] else k.sleepHead);
    forall q: nat ensures ListLinked(k', v', q) {
      assert ListLinked(k, v, q) && ListOk(v, mine, q);
      BypassFrame(k.next, s, i, Level(v.cpu.ready, q));
    }
    BypassChain(k.next, s, i);
  }

  /** Links do not depend on the other fields of the structures. */
  lemma LinkSame(k: Links, v: View, v': View, mine: set<Ptr>)
    requires Linked(k, v, mine) && v'.cpu.ready == v.cpu.ready && v'.cpu.sleep == v.cpu.sleep
    ensures Linked(k, v', mine)
  {
    forall q: nat ensures ListLinked(k, v', q) {
      assert ListLinked(k, v, q);
    }
  }

  /** Pushing a thread that is in no list at the head of list p. */
  lemma LinkPush(k: Links, v: View, mine: set<Ptr>, p: nat, x: Ptr)
    requires |v.cpu.ready| == LEVELS && Linked(k, v, mine) && p < LEVELS && x != 0
    requires x !in v.cpu.sleep && forall q :: 0 <= q < LEVELS ==> x !in v.cpu.ready[q]
    ensures var k' := Links(k.next[x := k.heads[p]], k.heads[p := x], k.sleepHead);
            Linked(k', View(v.table, Arrive(v.cpu, p, x)), mine)
  {
    var k', v' := Links(k.next[x := k.heads[p]], k.heads[p := x], k.sleepHead), View(v.table, Arrive(v.cpu, p, x));
    forall q: nat ensures ListLinked(k', v', q) {
      assert ListLinked(k, v, q);
      if q == p {
        ChainPush(k.next, v.cpu.ready[p], x);
      } else {
        ChainFrame(k.next, Level(v.cpu.ready, q), x, k.heads[p]);
      }
    }
    ChainFrame(k.next, v.cpu.sleep, x, k.heads[p]);
    assert ListLinked(k, v, p);
  }

  /** Appending a thread that is in no list to list p; `last` is its last member, if any. */
  lemma LinkAppend(k: Links, v: View, mine: set<Ptr>, p: nat, x: Ptr)
    requires ListsOk(v, mine) && Linked(k, v, mine) && p < LEVELS && x != 0
    requires x !in v.cpu.sleep && forall q :: 0 <= q < LEVELS ==> x !in v.cpu.ready[q]
    ensures var s := v.cpu.ready[p];
            Linked(if s == [] then Links(k.next[x := 0], k.heads[p := x], k.sleepHead)
                   else Links(k.next[x := 0][s[|s| - 1] := x], k.heads, k.sleepHead),
                   v.(cpu := v.cpu.(ready := v.cpu.ready[p := s + [x]])), mine)
  {
    var s := v.cpu.ready[p];
    var v' := v.(cpu := v.cpu.(ready := v.cpu.ready[p := s + [x]]));
    var k' := if s == [] then Links(k.next[x := 0], k.heads[p := x], k.sleepHead)
              else Links(k.next[x := 0][s[|s| - 1] := x], k.heads, k.sleepHead);
    assert ListLinked(k, v, p) && ListOk(v, mine, p);
    forall q: nat ensures ListLinked(k', v', q) {
      assert ListLinked(k, v, q) && ListOk(v, mine, q);
      if q == p { ChainAppend(k.next, s, x); } else { AppendFrame(k.next, s, x, Level(v.cpu.ready, q)); }
    }
    AppendFrame(k.next, s, x, v.cpu.sleep);
  }

  lemma AppendFrame(next: map<Ptr, Ptr>, s: seq<Ptr>, x: Ptr, l: seq<Ptr>)
    requires Chain(next, l) && x !in l && (s != [] ==> s[|s| - 1] !in l)
    ensures Chain(if s == [] then next[x := 0] else next[x := 0][s[|s| - 1] := x], l)
  {
    ChainFrame(next, l, x, 0);
    if s != [] { ChainFrame(next[x := 0], l, s[|s| - 1], x); }
  }

  /** Pushing a thread that is in no list onto the sleep list. */
  lemma LinkSleep(k: Links, v: View, mine: set<Ptr>, x: Ptr)
    requires |v.cpu.ready| == LEVELS && Linked(k, v, mine) && x != 0
    requires x !in v.cpu.sleep && forall q :: 0 <= q < LEVELS ==> x !in v.cpu.ready[q]
    ensures Linked(Links(k.next[x := k.sleepHead], k.heads, x), v.(cpu := v.cpu.(sleep := [x] + v.cpu.sleep)), mine)
  {
    var k', v' := Links(k.next[x := k.sleepHead], k.heads, x), v.(cpu := v.cpu.(sleep := [x] + v.cpu.sleep));
    forall q: nat ensures ListLinked(k', v', q) {
      assert ListLinked(k, v, q);
      ChainFrame(k.next, Level(v.cpu.ready, q), x, k.sleepHead);
    }
    ChainPush(k.next, v.cpu.sleep, x);
  }
}

/** The scheduler of one CPU, in place. The structures are reached through `table` (their fields)
    and `next` (their links); the caller holds the CPU's lock throughout each method. */
module RunQueue {
  import opened CpuSched
  import opened ListLinks

  class RunQueue {
    var table: Table
    var next: map<Ptr, Ptr>
    var current: Ptr
    const heads: array<Ptr>
    var sleepHead: Ptr
    var lastAge: nat
    ghost var ready: seq<seq<Ptr>>
    ghost var sleep: seq<Ptr>
    ghost var mine: set<Ptr>

    ghost function Now(): View
      reads this
    {
      View(table, Cpu(current, ready, sleep, lastAge))
    }

    ghost function Wired(): Links
      reads this, heads
    {
      Links(next, heads[..], sleepHead)
    }

    /** The lists are linked as the ghost fields say, but a thread may be between two lists. */
    ghost predicate Half()
      reads this, heads
    {
      heads.Length == LEVELS && ListsOk(Now(), mine) && Linked(Wired(), Now(), mine)
    }

    ghost predicate Valid()
      reads this, heads
    {
      heads.Length == LEVELS && Inv(Now(), mine) && Linked(Wired(), Now(), mine)
    }

    /** sched_init: the CPU runs its idle thread and all lists are empty. */
    constructor (table: Table, next: map<Ptr, Ptr>, idle: Ptr)
      requires idle != 0 && idle in table && idle in next
      requires var t := table[idle]; t.state == Running && t.priority == 0 && t.age == 0
      ensures Valid() && mine == {idle} && fresh(heads)
      ensures Now() == View(table, Cpu(idle, seq(LEVELS, _ => []), [], 0))
    {
      this.table, this.next, current, sleepHead, lastAge := table, next, idle, 0, 0;
      heads := new Ptr[LEVELS](_ => 0);
      ready, sleep, mine := seq(LEVELS, _ => []), [], {idle};
    }

    // ---------- waking ----------

    /** Pushes a thread that is in no list at the head of list p. */
    method Hook(p: nat, x: Ptr)
      requires heads.Length == |ready| == LEVELS && Linked(Wired(), Now(), mine) && p < LEVELS && x != 0
      requires x !in sleep && forall q :: 0 <= q < LEVELS ==> x !in ready[q]
      modifies this`next, this`ready, heads
      ensures Linked(Wired(), Now(), mine) && ready == old(ready)[p := [x] + old(ready)[p]] && x in next
    {
      LinkPush(Wired(), Now(), mine, p, x);
      next := next[x := heads[p]];
      heads[p] := x;
      ready := ready[p := [x] + ready[p]];
    }

    /** Takes `curr`, at position i of list p and after `prev`, out of it. */
    method Unhook(p: nat, prev: Ptr, curr: Ptr, ghost i: nat) returns (after: Ptr)
      requires Half() && p < LEVELS && i < |ready[p]|
      requires curr == ready[p][i] && prev == if i == 0 then 0 else ready[p][i - 1]
      modifies this`next, this`ready, heads
      ensures Linked(Wired(), Now(), mine) && ready == old(ready)[p := Without(old(ready)[p], i)]
      ensures after == Head(ready[p][i..])
    {
      ghost var k, v, s := Wired(), Now(), ready[p];
      assert ListLinked(k, v, p) && LinkAt(next, s, i);
      if i > 0 { assert LinkAt(next, s, i - 1); }
      LinkRemove(k, v, mine, p, i);
      after := next[curr];
      if prev != 0 { next := next[prev := after]; } else { heads[p] := after; }
      ready := ready[p := Without(s, i)];
    }

    /** Moves the due sleeper `curr`, at position i, to the head of its ready list. */
    method WakeHere(prev: Ptr, curr: Ptr, ghost i: nat) returns (after: Ptr)
      requires Valid() && i < |sleep| && curr == sleep[i] && prev == if i == 0 then 0 else sleep[i - 1]
      modifies this, heads
      ensures Valid() && mine == old(mine) && Now() == WakeOne(old(Now()), i)
      ensures after == Head(sleep[i..])
    {
      ghost var k, v := Wired(), Now();
      assert Located(v, curr) && LinkAt(next, sleep, i);
      if i > 0 { assert LinkAt(next, sleep, i - 1); }
      LinkUnsleep(k, v, mine, i);
      WithoutFacts(sleep, i);
      after := next[curr];
      if prev != 0 { next := next[prev := after]; } else { sleepHead := after; }
      sleep := Without(sleep, i);
      forall q | 0 <= q < LEVELS ensures curr !in ready[q] { assert ListOk(v, mine, q); }
      ghost var v1 := Now();
      table := table[curr := table[curr].(state := Ready)];
      LinkSame(Wired(), v1, Now(), mine);
      Hook(table[curr].priority, curr);
      WakeOneInv(v, mine, i);
    }

    /** The wake-up loop of sched_reschedule. */
    method WakeSleepers(tick: nat)
      requires Valid()
      modifies this, heads
      ensures Valid() && mine == old(mine) && Now() == Wake(old(Now()), 0, tick)
    {
      ghost var i, goal := 0, Wake(Now(), 0, tick);
      var prev, curr := 0, sleepHead;
      assert sleep[0..] == sleep;
      while curr != 0
        invariant Valid() && mine == old(mine) && i <= |sleep|
        invariant curr == Head(sleep[i..]) && prev == if i == 0 then 0 else sleep[i - 1]
        invariant Wake(Now(), i, tick) == goal
        decreases |sleep| - i
      {
        assert LinkAt(next, sleep, i) && SleepOk(Now(), mine);
        if tick >= table[curr].wakeup {
          curr := WakeHere(prev, curr, i);
        } else {
          prev, curr := curr, next[curr];
          i := i + 1;
        }
      }
      assert LinkAt(next, sleep, i);
    }

    // ---------- aging ----------

    /** Moves thread `curr`, at position i of list p, to the head of the next list. */
    method PromoteHere(p: nat, prev: Ptr, curr: Ptr, ghost i: nat) returns (after: Ptr)
      requires Valid() && p < MAX_PRIORITY && i < |ready[p]|
      requires curr == ready[p][i] && prev == if i == 0 then 0 else ready[p][i - 1]
      modifies this, heads
      ensures Valid() && mine == old(mine) && Now() == Promote(old(Now()), p, i)
      ensures after == Head(ready[p][i..])
    {
      ghost var v := Now();
      assert ListOk(v, mine, p);
      assert curr in Level(ready, p) && Get(table, curr).priority == p;
      WithoutFacts(ready[p], i);
      after := Unhook(p, prev, curr, i);
      forall q | 0 <= q < LEVELS ensures curr !in ready[q] { assert ListOk(v, mine, q); }
      var t := table[curr];
      ghost var v1 := Now();
      var up := if t.priority < MAX_PRIORITY then t.priority + 1 else t.priority;
      table := table[curr := t.(age := 0, priority := up)];
      LinkSame(Wired(), v1, Now(), mine);
      Hook(table[curr].priority, curr);
      PromoteInv(v, mine, p, i);
    }

    method BumpHere(x: Ptr)
      requires Valid() && x in mine && Get(table, x).age < AGE_LIMIT
      modifies this`table
      ensures Valid() && Now() == Bump(old(Now()), x)
    {
      ghost var v := Now();
      BumpInv(v, mine, x);
      table := table[x := table[x].(age := table[x].age + 1)];
      LinkSame(Wired(), v, Now(), mine);
    }

    /** The inner loop of sched_age_threads. */
    method AgeList(p: nat)
      requires Valid() && p < MAX_PRIORITY
      modifies this, heads
      ensures Valid() && mine == old(mine) && Now() == AgeLevel(old(Now()), p, 0)
    {
      ghost var i: nat, goal := 0, AgeLevel(Now(), p, 0);
      assert ListLinked(Wired(), Now(), p);
      var prev, curr := 0, heads[p];
      assert ready[p][0..] == ready[p];
      while curr != 0
        invariant Valid() && mine == old(mine) && i <= |ready[p]|
        invariant curr == Head(ready[p][i..]) && prev == if i == 0 then 0 else ready[p][i - 1]
        invariant AgeLevel(Now(), p, i) == goal
        decreases |ready[p]| - i
      {
        prev, curr, i := AgeOne(p, prev, curr, i);
      }
      assert ListLinked(Wired(), Now(), p) && LinkAt(next, ready[p], i);
    }

    /** One turn of the inner loop of an aging pass, at position i of list p. */
    method AgeOne(p: nat, prev: Ptr, curr: Ptr, ghost i: nat) returns (prev': Ptr, curr': Ptr, ghost i': nat)
      requires Valid() && p < MAX_PRIORITY && i < |ready[p]|
      requires curr == ready[p][i] && prev == if i == 0 then 0 else ready[p][i - 1]
      modifies this, heads
      ensures Valid() && mine == old(mine) && i' <= |ready[p]| && |ready[p]| - i' < old(|ready[p]|) - i
      ensures curr' == Head(ready[p][i'..]) && prev' == if i' == 0 then 0 else ready[p][i' - 1]
      ensures AgeLevel(Now(), p, i') == AgeLevel(old(Now()), p, i)
    {
      ghost var v := Now();
      HeadAfter(ready[p], i);
      assert ListOk(v, mine, p) && ListLinked(Wired(), v, p) && LinkAt(next, ready[p], i) && Located(v, curr);
      if table[curr].tid == 1 {
        prev', curr', i' := curr, next[curr], i + 1;
      } else if table[curr].age + 1 > AGE_LIMIT {
        prev', i' := prev, i;
        curr' := PromoteHere(p, prev, curr, i);
      } else {
        BumpHere(curr);
        prev', curr', i' := curr, next[curr], i + 1;
      }
    }

    /** sched_age_threads. */
    method AgeThreads(tick: nat)
      requires Valid() && lastAge <= tick
      modifies this, heads
      ensures Valid() && mine == old(mine) && Now() == Age(old(Now()), tick)
    {
      if tick - lastAge < AGE_PERIOD { return; }
      ghost var v := Now();
      ClockInv(v, mine, tick);
      lastAge := tick;
      LinkSame(Wired(), v, Now(), mine);
      ghost var goal := AgeFrom(Now(), 0);
      for p := 0 to MAX_PRIORITY
        invariant Valid() && mine == old(mine)
        invariant AgeFrom(Now(), p) == goal
      {
        AgeList(p);
      }
    }

    // ---------- choosing ----------

    /** Takes the first thread of list p out of it. */
    method Pop(p: nat) returns (x: Ptr)
      requires Valid() && p < LEVELS && ready[p] != []
      modifies this`ready, heads
      ensures Half() && x == old(ready)[p][0] && ready == old(ready)[p := old(ready)[p][1..]]
    {
      ghost var k, v, s := Wired(), Now(), ready[p];
      assert ListLinked(k, v, p) && LinkAt(next, s, 0);
      LinkRemove(k, v, mine, p, 0);
      assert Without(s, 0) == s[1..];
      x := heads[p];
      heads[p] := next[x];
      ready := ready[p := s[1..]];
      HeadFacts(v, mine, p);
      forall q: nat ensures ListOk(Now(), mine, q) { assert ListOk(v, mine, q); }
    }

    /** Puts a thread that is in no list at the tail of list p, walking to its end. */
    method Append(p: nat, x: Ptr)
      requires Half() && p < LEVELS && x == current && x != 0
      modifies this`ready, this`next, heads
      ensures heads.Length == LEVELS && Linked(Wired(), Now(), mine)
      ensures ready == old(ready)[p := old(ready)[p] + [x]]
    {
      ghost var k, v, s := Wired(), Now(), ready[p];
      forall q | 0 <= q < LEVELS ensures x !in v.cpu.ready[q] { assert ListOk(v, mine, q); }
      assert ListLinked(k, v, p) && ListOk(v, mine, p);
      LinkAppend(k, v, mine, p, x);
      next := next[x := 0];
      if heads[p] == 0 {
        assert s == [] by { assert LinkAt(k.next, s, 0); }
        heads[p] := x;
      } else {
        var last := heads[p];
        ghost var i := 0;
        assert LinkAt(k.next, s, 0);
        while next[last] != 0
          invariant i < |s| && last == s[i] && last in next && next[last] == After(s, i)
          decreases |s| - i
        {
          last, i := next[last], i + 1;
          assert LinkAt(k.next, s, i) && LinkAt(k.next, s, i + 1);
        }
        assert LinkAt(k.next, s, i + 1);
        next := next[last := x];
      }
      ready := ready[p := s + [x]];
    }

    /** Parks the running thread where its state asks for; the addresses to free, if it is freed. */
    method ParkCurrent() returns (freed: seq<nat>)
      requires Half() && current in mine && current in table
      requires table[current].priority < LEVELS && table[current].state != Ready
      modifies this`table, this`next, this`sleepHead, this`ready, this`sleep, heads
      ensures heads.Length == LEVELS && Linked(Wired(), Now(), mine) && Now() == Park(old(Now()))
      ensures freed == if Reaped(old(Now())) == {} then [] else Blocks(old(table)[current], current)
    {
      var t := table[current];
      ghost var v := Now();
      freed := [];
      if t.state == Running {
        Append(t.priority, current);
        ghost var v1 := Now();
        table := table[current := t.(state := Ready, ticks := Slice(t.priority))];
        LinkSame(Wired(), v1, Now(), mine);
      } else if t.state == Sleeping {
        forall q | 0 <= q < LEVELS ensures current !in ready[q] { assert ListOk(v, mine, q); }
        LinkSleep(Wired(), v, mine, current);
        next := next[current := sleepHead];
        sleepHead := current;
        sleep := [current] + sleep;
      } else if t.priority != 0 {
        freed := Blocks(t, current);
        table := table - {current};
        LinkSame(Wired(), v, Now(), mine);
      }
    }

    /** The running thread gives way to the head of list p. */
    method SwitchTo(p: nat) returns (freed: seq<nat>)
      requires Valid() && p < LEVELS && ready[p] != []
      modifies this, heads
      ensures Valid() && Now() == Switch(old(Now()), p) && mine == old(mine) - Reaped(old(Now()))
      ensures freed == if Reaped(old(Now())) == {} then [] else Blocks(Get(old(table), old(current)), old(current))
    {
      ghost var v := Now();
      assert Located(v, current);
      HeadFacts(v, mine, p);
      var x := Pop(p);
      freed := ParkCurrent();
      ghost var v2 := Now();
      table := table[x := table[x].(state := Running)];
      current := x;
      mine := mine - Reaped(v);
      SwitchInv(v, old(mine), p);
      LinkSame(Wired(), v2, Now(), old(mine));
      LinkFewer(Wired(), Now(), old(mine), mine);
    }

    /** The selection loop of sched_reschedule, from the highest list down. */
    method ChooseNext() returns (freed: seq<nat>)
      requires Valid()
      modifies this, heads
      ensures Valid() && Now() == Choose(old(Now())) && mine == old(mine) - Freed(old(Now()))
      ensures freed == if Freed(old(Now())) == {} then [] else Blocks(Get(old(table), old(current)), old(current))
    {
      ghost var v := Now();
      var p: nat := LEVELS;
      while p > 0
        invariant p <= LEVELS && Valid() && Now() == v && mine == old(mine)
        invariant Top(ready, LEVELS) == Top(ready, p)
      {
        p := p - 1;
        assert ListLinked(Wired(), v, p) && LinkAt(next, ready[p], 0);
        if heads[p] != 0 {
          if Yields(table[current], p) {
            freed := SwitchTo(p);
          } else {
            freed := [];
          }
          return;
        }
      }
      freed := [];
    }

    /** sched_reschedule: the stack pointer to resume with, and the addresses given to kfree. */
    method Reschedule(rsp: nat, wakeTick: nat, ageTick: nat) returns (resume: nat, freed: seq<nat>)
      requires Valid() && lastAge <= ageTick
      modifies this, heads
      ensures Valid() && Now() == Choose(Settle(Save(old(Now()), rsp), wakeTick, ageTick))
      ensures mine == old(mine) - Freed(Settle(Save(old(Now()), rsp), wakeTick, ageTick))
      ensures current in table && resume == table[current].rsp
      ensures var w := Settle(Save(old(Now()), rsp), wakeTick, ageTick);
              freed == if Freed(w) == {} then [] else Blocks(Get(w.table, old(current)), old(current))
    {
      ghost var v := Now();
      table := table[current := table[current].(rsp := rsp)];
      SaveInv(v, mine, rsp);
      LinkSame(Wired(), v, Now(), mine);
      ghost var v1 := Now();
      WakeSleepers(wakeTick);
      WakeInv(v1, mine, 0, wakeTick);
      ghost var v2 := Now();
      var t := table[current];
      table := table[current := t.(ticks := if t.ticks > 0 then t.ticks - 1 else 0)];
      ChargeInv(v2, mine);
      LinkSame(Wired(), v2, Now(), mine);
      AgeThreads(ageTick);
      AgeInv(Charge(v2), mine, ageTick);
      freed := ChooseNext();
      resume := table[current].rsp;
    }

    /** sched_sleep up to the yield: the running thread is marked, and parked at the next reschedule. */
    method SleepCurrent(ms: nat, tick: nat)
      requires Valid()
      modifies this`table
      ensures var t := Get(old(table), current).(state := Sleeping, wakeup := tick + ms / 10);
              Valid() && Now() == old(Now()).(table := old(table)[current := t])
    {
      ghost var v := Now();
      table := table[current := table[current].(state := Sleeping, wakeup := tick + ms / 10)];
      TouchCurrent(v, mine, Now());
      LinkSame(Wired(), v, Now(), mine);
    }

    /** sched_exit: the running thread is marked, and reaped at the next reschedule. */
    method ExitCurrent()
      requires Valid()
      modifies this`table
      ensures Valid() && Now() == old(Now()).(table := old(table)[current := Get(old(table), current).(state := Dead)])
    {
      ghost var v := Now();
      table := table[current := table[current].(state := Dead)];
      TouchCurrent(v, mine, Now());
      LinkSame(Wired(), v, Now(), mine);
    }

    // ---------- threads that come and go ----------

    /** The end of sched_spawn and of sched_handoff: a thread that is in no list is pushed at the
        head of the list of its priority. */
    method Insert(x: Ptr)
      requires Valid() && x !in mine && x != 0 && x in table
      requires table[x].state == Ready && table[x].priority < LEVELS && table[x].age <= AGE_LIMIT
      modifies this`next, this`ready, this`mine, heads
      ensures Valid() && mine == old(mine) + {x}
      ensures Now() == View(old(table), Arrive(old(Now()).cpu, table[x].priority, x))
    {
      ghost var v := Now();
      forall q | 0 <= q < LEVELS ensures x !in ready[q] { assert ListOk(v, mine, q); }
      Hook(table[x].priority, x);
      mine := mine + {x};
      ArriveInv(v, old(mine), table[x].priority, x);
      LinkMore(Wired(), Now(), old(mine), x);
    }

    /** Writes a thread that is not of this CPU; its lists do not notice. */
    method Write(x: Ptr, t: Thread)
      requires Valid() && x !in mine
      modifies this`table
      ensures Valid() && table == old(table)[x := t]
    {
      ghost var v := Now();
      table := table[x := t];
      FrameInv(v, Now(), mine);
      LinkSame(Wired(), v, Now(), mine);
    }

    /** sched_spawn and sched_spawn_user from the point where the tid and the CPU are known: the thread
        is filled in and pushed at the head of the list of its priority. */
    method Admit(x: Ptr, tid: nat, priority: nat, cpu: nat, stack: nat, ustack: nat)
      requires Valid() && x !in mine && x != 0
      modifies this`table, this`next, this`ready, this`mine, heads
      ensures Valid() && mine == old(mine) + {x}
      ensures var p := if priority > 31 then 31 else priority;
              && table == old(table)[x := Thread(tid, stack + 8192 - 176, Ready, p, cpu, 2 * (32 - p), 0, 0,
                                                 stack, ustack)]
              && ready == old(ready)[p := [x] + old(ready)[p]]
    {
      var p := if priority > MAX_PRIORITY then MAX_PRIORITY else priority;
      Write(x, Thread(tid, stack + 8192 - 8 * 22, Ready, p, cpu, Slice(p), 0, 0, stack, ustack));
      Insert(x);
    }

    /** The second half of sched_handoff: the thread gets priority 31 and this CPU, and is pushed at the
        head of list 31. */
    method Adopt(x: Ptr, cpu: nat)
      requires Valid() && x !in mine && x != 0 && x in table && table[x].state == Ready && table[x].age <= AGE_LIMIT
      modifies this`table, this`next, this`ready, this`mine, heads
      ensures Valid() && mine == old(mine) + {x}
      ensures table == old(table)[x := old(table)[x].(priority := 31, affinity := cpu)]
      ensures ready == old(ready)[31 := [x] + old(ready)[31]]
    {
      Write(x, table[x].(priority := MAX_PRIORITY, affinity := cpu));
      Insert(x);
    }

    /** The position of the thread with that tid in list p, walking it from the head. */
    method Scan(p: nat, tid: nat) returns (prev: Ptr, curr: Ptr, ghost i: nat)
      requires Valid() && p < LEVELS
      ensures i <= |ready[p]| && curr == Head(ready[p][i..]) && prev == if i == 0 then 0 else ready[p][i - 1]
      ensures i < |ready[p]| ==> curr != 0 && Get(table, curr).tid == tid
      ensures curr == 0 ==> i == |ready[p]|
      ensures forall j :: 0 <= j < i ==> Get(table, ready[p][j]).tid != tid
    {
      ghost var s := ready[p];
      assert ListLinked(Wired(), Now(), p) && ListOk(Now(), mine, p);
      prev, curr, i := 0, heads[p], 0;
      assert s[0..] == s;
      while curr != 0
        invariant i <= |s| && curr == Head(s[i..]) && prev == if i == 0 then 0 else s[i - 1]
        invariant forall j :: 0 <= j < i ==> Get(table, s[j]).tid != tid
        decreases |s| - i
      {
        assert LinkAt(next, s, i);
        if table[curr].tid == tid { return; }
        prev, curr, i := curr, next[curr], i + 1;
      }
      assert LinkAt(next, s, i);
    }

    /** The first half of sched_handoff on this CPU: finds the ready thread with that tid and
        unlinks it; 0 when there is none. */
    method Detach(tid: nat) returns (x: Ptr)
      requires Valid() && forall a, b :: a in mine && b in mine && Get(table, a).tid == Get(table, b).tid ==> a == b
      modifies this`next, this`ready, this`mine, heads
      ensures Valid() && table == old(table)
      ensures x == 0 ==> Now() == old(Now()) && mine == old(mine)
      ensures x == 0 ==> forall y :: y in mine && Get(table, y).state == Ready ==> Get(table, y).tid != tid
      ensures x != 0 ==> x in old(mine) && table[x].tid == tid && table[x].state == Ready && mine == old(mine) - {x}
                         && Now().cpu == Depart(old(Now()).cpu, table[x].priority, x)
    {
      ghost var v := Now();
      var p: nat := LEVELS;
      while p > 0
        invariant p <= LEVELS && Valid() && Now() == v && mine == old(mine)
        invariant forall q: nat, y :: p <= q < LEVELS && y in Level(ready, q) ==> Get(table, y).tid != tid
      {
        p := p - 1;
        var prev, curr, i := Scan(p, tid);
        if curr != 0 {
          ghost var s := ready[p];
          assert ListOk(v, mine, p);
          assert s[Position(s, curr)] == s[i];
          var after := Unhook(p, prev, curr, i);
          mine := mine - {curr};
          DepartInv(v, old(mine), p, curr);
          LinkFewer(Wired(), Now(), old(mine), mine);
          return curr;
        }
        assert forall y :: y in Level(ready, p) ==> Get(table, y).tid != tid;
      }
      forall y | y in mine && Get(table, y).state == Ready ensures Get(table, y).tid != tid {
        assert Located(v, y);
      }
      return 0;
    }

    /** x runs here or is in one of the lists. */
    ghost predicate Present(x: Ptr)
      reads this
    {
      x == current || x in sleep || exists p: nat :: x in Level(ready, p)
    }

    /** sched_is_alive, for this CPU: whether it runs the thread or has it in one of its lists. */
    method Knows(tid: nat) returns (found: bool)
      requires Valid()
      ensures found <==> exists x :: Present(x) && Get(table, x).tid == tid
    {
      ghost var v := Now();
      if table[current].tid == tid {
        assert Present(current);
        return true;
      }
      var p: nat := 0;
      while p < LEVELS
        invariant p <= LEVELS
        invariant forall q: nat, y :: q < p && y in Level(ready, q) ==> Get(table, y).tid != tid
      {
        var prev, curr, i := Scan(p, tid);
        if curr != 0 {
          assert curr in Level(ready, p) && Present(curr);
          return true;
        }
        assert forall y :: y in Level(ready, p) ==> Get(table, y).tid != tid;
        p := p + 1;
      }
      var curr := sleepHead;
      ghost var i := 0;
      assert sleep[0..] == sleep;
      while curr != 0
        invariant i <= |sleep| && curr == Head(sleep[i..])
        invariant forall j :: 0 <= j < i ==> Get(table, sleep[j]).tid != tid
        decreases |sleep| - i
      {
        assert LinkAt(next, sleep, i) && SleepOk(v, mine);
        if table[curr].tid == tid {
          assert Present(curr);
          return true;
        }
        curr, i := next[curr], i + 1;
      }
      assert LinkAt(next, sleep, i);
      return false;
    }
  }
}
