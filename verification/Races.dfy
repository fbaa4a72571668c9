/** Calls of vmm_map that overlap. vmm_map takes no lock, so the accesses of several calls to the page
    tables interleave freely; each access is one step here. */
module Races {
  import opened Common
  import opened Paging
  import A = AddressSpace

  /** What a call does next with the entry of its page in the table it has reached. */
  datatype Phase =
    | Test           // read it to see whether it is present
    | Miss           // it was absent: take and clear a page
    | Link(n: nat)   // write the address of page n into it
    | Follow         // read it to get at the table below

  /** A call for virtual page `vpn` that has reached table t of that level; at level 0 all that is left
      is to write `entry`. */
  datatype Call = Call(vpn: nat, entry: nat, level: nat, t: nat, phase: Phase)

  /** A page that was a table of that level until another took its place. */
  datatype Lost = Lost(page: nat, level: nat)

  /** Memory, the pages in use and the calls under way. `at` and `lost` record where the tables are and
      where tables have been. */
  datatype State = State(mem: seq<nat>, root: nat, used: seq<bool>, calls: map<nat, Call>,
                         at: map<Node, nat>, lost: set<Lost>)

  datatype Step = Begin(tid: nat, vpn: nat, entry: nat) | Go(tid: nat, n: nat)

  /** The table of that level on the path of a page. */
  function On(vpn: nat, level: nat): Node { Node(level, Prefix(vpn, level + 1)) }

  /** Table d is k or lies below it. */
  predicate Under(d: Node, k: Node)
    decreases if d.level < k.level then k.level - d.level else 0
  {
    d == k || (d.level < k.level && Under(d.Parent(), k))
  }

  ghost function Prune(at: map<Node, nat>, k: Node): map<Node, nat> {
    map d | d in at && !Under(d, k) :: at[d]
  }

  ghost function Pruned(at: map<Node, nat>, k: Node): set<Lost> {
    set d | d in at && Under(d, k) :: Lost(at[d], d.level)
  }

  // ---------- the steps ----------

  predicate OnTree(s: State, c: Call) {
    On(c.vpn, c.level) in s.at && s.at[On(c.vpn, c.level)] == c.t
  }

  function Slot(c: Call): nat { ENTRIES * c.t + Index(c.vpn, c.level) }

  function Entry(s: State, c: Call): nat { Word(s.mem, c.t, Index(c.vpn, c.level)) }

  predicate Enabled(s: State, step: Step) {
    match step
    case Begin(tid, vpn, entry) => tid !in s.calls && vpn < VPNS
    case Go(tid, n) =>
      && tid in s.calls && Slot(s.calls[tid]) < |s.mem|
      && (s.calls[tid].level > 0 && s.calls[tid].phase.Miss? ==> n < |s.used| && !s.used[n])
  }

  /** The child that call c links is n from now on, whatever was there before. */
  ghost function Linking(s: State, c: Call, n: nat): State
    requires Slot(c) < |s.mem| && c.level > 0
  {
    var s' := s.(mem := s.mem[Slot(c) := n * PAGE_SIZE + TABLE_FLAGS]);
    var k := On(c.vpn, c.level - 1);
    if OnTree(s, c) then s'.(at := Prune(s.at, k)[k := n], lost := s.lost + Pruned(s.at, k))
    else s'.(lost := s.lost + {Lost(n, c.level - 1)})
  }

  ghost function Next(s: State, step: Step): State
    requires Enabled(s, step)
  {
    match step
    case Begin(tid, vpn, entry) => s.(calls := s.calls[tid := Call(vpn, entry, 3, s.root, Test)])
    case Go(tid, n) =>
      var c := s.calls[tid];
      if c.level == 0 then s.(mem := s.mem[Slot(c) := c.entry], calls := s.calls - {tid})
      else match c.phase
        case Test => s.(calls := s.calls[tid := c.(phase := if Present(Entry(s, c)) then Follow else Miss)])
        case Miss =>
          s.(mem := Cleared(s.mem, n), used := s.used[n := true], calls := s.calls[tid := c.(phase := Link(n))])
        case Link(m) => Linking(s, c, m).(calls := s.calls[tid := c.(phase := Follow)])
        case Follow => s.(calls := s.calls[tid := Call(c.vpn, c.entry, c.level - 1, Frame(Entry(s, c)), Test)])
  }

  ghost predicate ValidRun(s: State, steps: seq<Step>)
    decreases |steps|
  {
    steps == [] || (Enabled(s, steps[0]) && ValidRun(Next(s, steps[0]), steps[1..]))
  }

  ghost function Exec(s: State, steps: seq<Step>): State
    requires ValidRun(s, steps)
    decreases |steps|
  {
    if steps == [] then s else Exec(Next(s, steps[0]), steps[1..])
  }

  // ---------- the invariant ----------

  ghost predicate InUse(s: State, p: nat) { p < |s.used| && s.used[p] }

  ghost predicate Zero(s: State, n: nat) {
    forall j: nat {:trigger Word(s.mem, n, j)} :: j < ENTRIES ==> Word(s.mem, n, j) == 0
  }

  ghost predicate TableOk(s: State, k: Node) {
    k in s.at ==> InUse(s, s.at[k])
  }

  ghost predicate LostOk(s: State, x: Lost) {
    x in s.lost ==> InUse(s, x.page) && x.page !in s.at.Values
  }

  ghost predicate LostApart(s: State, x: Lost, y: Lost) {
    x in s.lost && y in s.lost && x.page == y.page ==> x == y
  }

  /** What hangs under a lost table is lost as well. */
  ghost predicate LostLinked(s: State, x: Lost, i: nat) {
    x in s.lost && x.level > 0 && i < ENTRIES && Present(Word(s.mem, x.page, i)) ==>
      Lost(Frame(Word(s.mem, x.page, i)), x.level - 1) in s.lost
  }

  /** A page that is in use, cleared and neither a table nor a lost one. */
  ghost predicate Fresh(s: State, n: nat) {
    InUse(s, n) && n !in s.at.Values && Zero(s, n) && forall x :: x in s.lost ==> x.page != n
  }

  ghost predicate CallOk(s: State, tid: nat) {
    tid in s.calls ==>
      var c := s.calls[tid];
      && c.vpn < VPNS && c.level <= 3
      && (OnTree(s, c) || Lost(c.t, c.level) in s.lost)
      && (c.level > 0 && c.phase.Follow? ==> Present(Entry(s, c)))
      && (c.level > 0 && c.phase.Link? ==> Fresh(s, c.phase.n))
  }

  ghost predicate Alone(s: State, a: nat, b: nat) {
    && a in s.calls && b in s.calls && s.calls[a].phase.Link? && s.calls[b].phase.Link?
    && s.calls[a].level > 0 && s.calls[b].level > 0 && s.calls[a].phase.n == s.calls[b].phase.n
    ==> a == b
  }

  ghost predicate Inv(s: State) {
    && ENTRIES * |s.used| <= |s.mem| && Tree(s.mem, s.at, s.root)
    && (forall k {:trigger TableOk(s, k)} :: TableOk(s, k))
    && (forall x {:trigger LostOk(s, x)} :: LostOk(s, x))
    && (forall x, y {:trigger LostApart(s, x, y)} :: LostApart(s, x, y))
    && (forall x, i: nat {:trigger LostLinked(s, x, i)} :: LostLinked(s, x, i))
    && (forall tid: nat {:trigger CallOk(s, tid)} :: CallOk(s, tid))
    && (forall a: nat, b: nat {:trigger Alone(s, a, b)} :: Alone(s, a, b))
  }

  /** A tree of tables in use with no call under way is where it starts. */
  lemma Settled(mem: seq<nat>, root: nat, used: seq<bool>, at: map<Node, nat>)
    requires ENTRIES * |used| <= |mem| && Tree(mem, at, root) && forall k :: k in at ==> at[k] < |used| && used[at[k]]
    ensures Inv(State(mem, root, used, map[], at, {}))
  {
  }

  // ---------- words and nodes ----------

  lemma WriteWord(mem: seq<nat>, t: nat, i: nat, e: nat, u: nat, j: nat)
    requires i < ENTRIES && j < ENTRIES && ENTRIES * t + i < |mem|
    ensures Word(mem[ENTRIES * t + i := e], u, j) == if u == t && j == i then e else Word(mem, u, j)
  {
  }

  lemma ClearWord(mem: seq<nat>, n: nat, u: nat, j: nat)
    requires j < ENTRIES
    ensures Word(Cleared(mem, n), u, j) == if u == n then 0 else Word(mem, u, j)
  {
  }

  lemma OnParent(vpn: nat, level: nat)
    ensures On(vpn, level).Parent() == On(vpn, level + 1)
    ensures On(vpn, level + 1).Child(Index(vpn, level + 1)) == On(vpn, level)
    ensures Index(vpn, level) < ENTRIES
  {
  }

  lemma RootOn(vpn: nat)
    requires vpn < VPNS
    ensures On(vpn, 3) == ROOT && On(vpn, 0) == LeafNode(vpn)
  {
    PrefixAboveRoot(vpn);
    assert Prefix(vpn, 1) == vpn / ENTRIES;
  }

  /** A table of the path of u lies under k exactly when k is on that path, further up. */
  lemma {:induction false} UnderPath(u: nat, low: nat, k: Node)
    requires low <= k.level
    ensures Under(On(u, low), k) <==> k == On(u, k.level)
    decreases k.level - low
  {
    if low < k.level {
      OnParent(u, low);
      UnderPath(u, low + 1, k);
    }
  }

  /** The tables below the root on the path of a page. */
  lemma PathIs(u: nat, k: Node)
    ensures k in A.Members(A.Path(u)) <==> k.level <= 2 && k == On(u, k.level)
  {
  }

  /** The children of a table under k are under k; any other table has no child there but k. */
  lemma UnderChild(m: Node, j: nat, k: Node)
    requires m.level > 0 && j < ENTRIES
    ensures m.Child(j).Parent() == m
    ensures Under(m, k) ==> Under(m.Child(j), k)
    ensures Under(m.Child(j), k) && m.Child(j) != k ==> Under(m, k)
  {
  }

  // ---------- putting a cleared page in the place of a table ----------

  lemma RelinkPlaced(mem: seq<nat>, mem': seq<nat>, at: map<Node, nat>, root: nat, q: Node, i: nat, n: nat, m: Node)
    requires Tree(mem, at, root) && q in at && q.level > 0 && i < ENTRIES && |mem'| == |mem|
    requires ENTRIES * n + ENTRIES <= |mem| && m in Prune(at, q.Child(i))[q.Child(i) := n]
    ensures Placed(mem', Prune(at, q.Child(i))[q.Child(i) := n], m)
  {
    var k := q.Child(i);
    UnderChild(q, i, k);
    assert Placed(mem, at, q);
    assert m in at ==> Placed(mem, at, m);
    assert !Under(q, k);
  }

  lemma RelinkLinked(mem: seq<nat>, mem': seq<nat>, at: map<Node, nat>, root: nat, q: Node, i: nat, n: nat,
                     m: Node, j: nat)
    requires Tree(mem, at, root) && q in at && q.level > 0 && i < ENTRIES && n !in at.Values
    requires Grown(mem, mem', at[q], i, n)
    requires m in Prune(at, q.Child(i))[q.Child(i) := n] && m.level > 0 && j < ENTRIES
    ensures Linked(mem', Prune(at, q.Child(i))[q.Child(i) := n], m, j)
  {
    var k := q.Child(i);
    UnderChild(q, i, k);
    UnderChild(m, j, k);
    if m != k {
      assert at[m] in at.Values;
      assert Linked(mem, at, m, j) && Apart(at, m, q);
      assert m.Child(j) == k <==> m == q && j == i;
    }
  }

  /** Pointing an entry at a cleared page, whether it was absent or not, keeps the tables a tree of
      distinct pages. The pages served by what hung there are no longer translated; no other
      translation changes. */
  lemma Relink(mem: seq<nat>, mem': seq<nat>, at: map<Node, nat>, root: nat, q: Node, i: nat, n: nat)
    requires Tree(mem, at, root) && q in at && q.level > 0 && i < ENTRIES && n !in at.Values
    requires Grown(mem, mem', at[q], i, n)
    ensures Tree(mem', Prune(at, q.Child(i))[q.Child(i) := n], root)
    ensures forall u: nat :: LeafView(mem', Prune(at, q.Child(i))[q.Child(i) := n], u)
                             == if Under(LeafNode(u), q.Child(i)) then None else LeafView(mem, at, u)
  {
    var k := q.Child(i);
    var at' := Prune(at, k)[k := n];
    assert forall m :: m in at ==> at[m] in at.Values;
    UnderChild(q, i, k);
    assert Placed(mem, at, q);
    assert ROOT in at' && at'[ROOT] == root by { assert !Under(ROOT, k); }
    forall m | m in at' ensures Placed(mem', at', m) { RelinkPlaced(mem, mem', at, root, q, i, n, m); }
    forall m, m2 | m in at' && m2 in at' ensures Apart(at', m, m2) {
      assert m in at && m2 in at ==> Apart(at, m, m2);
    }
    forall m, j: nat | m in at' && m.level > 0 && j < ENTRIES ensures Linked(mem', at', m, j) {
      RelinkLinked(mem, mem', at, root, q, i, n, m, j);
    }
    forall u: nat ensures LeafView(mem', at', u) == if Under(LeafNode(u), k) then None else LeafView(mem, at, u) {
      RelinkView(mem, mem', at, root, q, i, n, u);
    }
  }

  lemma RelinkView(mem: seq<nat>, mem': seq<nat>, at: map<Node, nat>, root: nat, q: Node, i: nat, n: nat, u: nat)
    requires Tree(mem, at, root) && q in at && q.level > 0 && i < ENTRIES && n !in at.Values
    requires Grown(mem, mem', at[q], i, n)
    ensures LeafView(mem', Prune(at, q.Child(i))[q.Child(i) := n], u)
            == if Under(LeafNode(u), q.Child(i)) then None else LeafView(mem, at, u)
  {
    var k, leaf := q.Child(i), LeafNode(u);
    if leaf in at {
      assert Apart(at, q, leaf) && at[leaf] in at.Values;
    }
  }

  /** A change outside the tables. */
  lemma OtherPages(mem: seq<nat>, mem': seq<nat>, at: map<Node, nat>, root: nat)
    requires Tree(mem, at, root) && |mem'| == |mem|
    requires forall k, j: nat {:trigger SameWord(mem, mem', at, k, j)} :: SameWord(mem, mem', at, k, j)
    ensures Tree(mem', at, root) && forall u: nat :: LeafView(mem', at, u) == LeafView(mem, at, u)
  {
    forall m | m in at ensures Placed(mem', at, m) { assert Placed(mem, at, m); }
    forall m, j: nat | m in at && m.level > 0 && j < ENTRIES ensures Linked(mem', at, m, j) {
      assert Linked(mem, at, m, j) && SameWord(mem, mem', at, m, j);
    }
    forall u: nat ensures LeafView(mem', at, u) == LeafView(mem, at, u) {
      assert SameWord(mem, mem', at, LeafNode(u), u % ENTRIES);
    }
  }

  ghost predicate SameWord(mem: seq<nat>, mem': seq<nat>, at: map<Node, nat>, k: Node, j: nat) {
    k in at && j < ENTRIES ==> Word(mem', at[k], j) == Word(mem, at[k], j)
  }

  // ---------- every step keeps the invariant ----------

  /** Only the call of one thread has changed. */
  lemma CallsOnly(s: State, s': State, tid: nat)
    requires Inv(s) && s' == s.(calls := s'.calls) && s'.calls - {tid} == s.calls - {tid}
    requires CallOk(s', tid) && (tid in s'.calls && s'.calls[tid].level > 0 ==> !s'.calls[tid].phase.Link?)
    ensures Inv(s')
  {
    forall k ensures TableOk(s', k) { assert TableOk(s, k); }
    forall x ensures LostOk(s', x) { assert LostOk(s, x); }
    forall x, y ensures LostApart(s', x, y) { assert LostApart(s, x, y); }
    forall x, i: nat ensures LostLinked(s', x, i) { assert LostLinked(s, x, i); }
    forall a: nat ensures CallOk(s', a) { SameCall(s, s', tid, a); }
    forall a: nat, b: nat ensures Alone(s', a, b) {
      SameCall(s, s', tid, a);
      SameCall(s, s', tid, b);
      assert Alone(s, a, b);
    }
  }

  lemma SameCall(s: State, s': State, tid: nat, a: nat)
    requires Inv(s) && s'.calls - {tid} == s.calls - {tid}
    ensures a != tid ==> (a in s'.calls <==> a in s.calls) && (a in s.calls ==> s'.calls[a] == s.calls[a])
    ensures s' == s.(calls := s'.calls) && a != tid ==> CallOk(s', a)
  {
    assert CallOk(s, a);
    if a != tid && a in s.calls {
      assert a in s.calls - {tid} && (s.calls - {tid})[a] == s.calls[a];
      assert a in s'.calls - {tid} && (s'.calls - {tid})[a] == s'.calls[a];
    }
    if a != tid && a in s'.calls {
      assert a in s'.calls - {tid};
    }
    if a != tid && a in s.calls && s' == s.(calls := s'.calls) && s.calls[a].phase.Link? && s.calls[a].level > 0 {
      assert Fresh(s, s.calls[a].phase.n) ==> Fresh(s', s.calls[a].phase.n);
    }
  }

  lemma ReadKeeps(s: State, step: Step)
    requires Inv(s) && Enabled(s, step)
    requires step.Begin? || (s.calls[step.tid].level > 0 && s.calls[step.tid].phase in {Test, Follow})
    ensures Inv(Next(s, step))
  {
    var s' := Next(s, step);
    if step.Begin? {
      RootOn(step.vpn);
      CallsOnly(s, s', step.tid);
    } else {
      var c := s.calls[step.tid];
      assert CallOk(s, step.tid);
      if c.phase == Follow {
        OnParent(c.vpn, c.level - 1);
        OnParent(c.vpn, c.level);
        if OnTree(s, c) {
          assert Linked(s.mem, s.at, On(c.vpn, c.level), Index(c.vpn, c.level));
        } else {
          assert LostLinked(s, Lost(c.t, c.level), Index(c.vpn, c.level));
        }
      }
      CallsOnly(s, s', step.tid);
    }
  }

  /** A page in use other than n is as it was when n is taken and cleared. */
  lemma MissKeeps(s: State, tid: nat, n: nat)
    requires Inv(s) && Enabled(s, Go(tid, n)) && s.calls[tid].level > 0 && s.calls[tid].phase.Miss?
    ensures Inv(Next(s, Go(tid, n)))
    ensures forall u: nat :: LeafView(Next(s, Go(tid, n)).mem, s.at, u) == LeafView(s.mem, s.at, u)
  {
    var s' := Next(s, Go(tid, n));
    forall k | k in s.at ensures s.at[k] != n { assert TableOk(s, k); }
    forall k, j: nat ensures SameWord(s.mem, s'.mem, s.at, k, j) {
      if k in s.at && j < ENTRIES { ClearWord(s.mem, n, s.at[k], j); }
    }
    OtherPages(s.mem, s'.mem, s.at, s.root);
    forall k ensures TableOk(s', k) { assert TableOk(s, k); }
    forall x ensures LostOk(s', x) && (x in s.lost ==> x.page != n) { assert LostOk(s, x); }
    forall x, y ensures LostApart(s', x, y) { assert LostApart(s, x, y); }
    forall x, i: nat ensures LostLinked(s', x, i) {
      assert LostLinked(s, x, i) && LostOk(s', x);
      if i < ENTRIES { ClearWord(s.mem, n, x.page, i); }
    }
    forall a: nat ensures CallOk(s', a) { MissCall(s, tid, n, a); }
    forall a: nat, b: nat ensures Alone(s', a, b) {
      assert Alone(s, a, b) && CallOk(s, a) && CallOk(s, b);
    }
  }

  lemma MissCall(s: State, tid: nat, n: nat, a: nat)
    requires Inv(s) && Enabled(s, Go(tid, n)) && s.calls[tid].level > 0 && s.calls[tid].phase.Miss?
    requires n !in s.at.Values && forall x :: x in s.lost ==> x.page != n
    ensures CallOk(Next(s, Go(tid, n)), a)
  {
    var s' := Next(s, Go(tid, n));
    assert CallOk(s, a);
    if a in s.calls {
      var c := s.calls[a];
      OnParent(c.vpn, c.level);
      assert OnTree(s, c) ==> c.t in s.at.Values;
      ClearWord(s.mem, n, c.t, Index(c.vpn, c.level));
      var m := if a == tid then n else if c.phase.Link? then c.phase.n else n;
      forall j: nat | j < ENTRIES ensures Word(s'.mem, m, j) == if m == n then 0 else Word(s.mem, m, j) {
        ClearWord(s.mem, n, m, j);
      }
    }
  }

  /** What call c writes goes to the word of its page in its table and to no other. */
  lemma Written(s: State, c: Call, e: nat, u: nat, j: nat)
    requires Slot(c) < |s.mem| && j < ENTRIES
    ensures Word(s.mem[Slot(c) := e], u, j) == if u == c.t && j == Index(c.vpn, c.level) then e else Word(s.mem, u, j)
  {
    OnParent(c.vpn, c.level);
    WriteWord(s.mem, c.t, Index(c.vpn, c.level), e, u, j);
  }

  /** The table of a call is no page that another call has just cleared. */
  lemma NotFresh(s: State, c: Call, n: nat)
    requires Inv(s) && (OnTree(s, c) || Lost(c.t, c.level) in s.lost) && Fresh(s, n)
    ensures n != c.t
  {
    assert OnTree(s, c) ==> c.t in s.at.Values;
  }

  /** Such a page stays cleared. */
  lemma StillZero(s: State, c: Call, e: nat, n: nat)
    requires Inv(s) && (OnTree(s, c) || Lost(c.t, c.level) in s.lost) && Fresh(s, n) && Slot(c) < |s.mem|
    ensures Zero(s.(mem := s.mem[Slot(c) := e]), n)
  {
    var z := s.(mem := s.mem[Slot(c) := e]);
    NotFresh(s, c, n);
    forall j: nat | j < ENTRIES ensures Word(z.mem, n, j) == 0 { Written(s, c, e, n, j); }
  }

  /** A link in the tree, whether the entry was still absent or not. */
  lemma LinkTree(s: State, tid: nat)
    requires Inv(s) && Enabled(s, Go(tid, 0)) && s.calls[tid].level > 0 && s.calls[tid].phase.Link?
    requires OnTree(s, s.calls[tid])
    ensures Inv(Next(s, Go(tid, 0)))
    ensures var s', k := Next(s, Go(tid, 0)), On(s.calls[tid].vpn, s.calls[tid].level - 1);
            forall u: nat ::
              LeafView(s'.mem, s'.at, u) == if Under(LeafNode(u), k) then None else LeafView(s.mem, s.at, u)
  {
    var s', c := Next(s, Go(tid, 0)), s.calls[tid];
    var n, q, i, k := c.phase.n, On(c.vpn, c.level), Index(c.vpn, c.level), On(c.vpn, c.level - 1);
    assert CallOk(s, tid);
    OnParent(c.vpn, c.level - 1);
    LinkGrows(s, tid);
    Relink(s.mem, s'.mem, s.at, s.root, q, i, n);
    forall d ensures TableOk(s', d) { assert TableOk(s, d); }
    forall x ensures LostOk(s', x) { LinkLostOk(s, tid, x); }
    forall x, y ensures LostApart(s', x, y) { LinkLostApart(s, tid, x, y); }
    forall x, j: nat ensures LostLinked(s', x, j) { LinkLostLinked(s, tid, x, j); }
    forall a: nat ensures CallOk(s', a) { LinkCall(s, tid, a); }
    forall a: nat, b: nat ensures Alone(s', a, b) { assert Alone(s, a, b); }
  }

  lemma LinkGrows(s: State, tid: nat)
    requires Inv(s) && Enabled(s, Go(tid, 0)) && s.calls[tid].level > 0 && s.calls[tid].phase.Link?
    requires OnTree(s, s.calls[tid])
    ensures var c := s.calls[tid];
            Grown(s.mem, s.mem[Slot(c) := c.phase.n * PAGE_SIZE + TABLE_FLAGS], c.t, Index(c.vpn, c.level), c.phase.n)
  {
    var c := s.calls[tid];
    var n, e := c.phase.n, c.phase.n * PAGE_SIZE + TABLE_FLAGS;
    var mem' := s.mem[Slot(c) := e];
    assert CallOk(s, tid) && TableOk(s, On(c.vpn, c.level));
    OnParent(c.vpn, c.level);
    NotFresh(s, c, n);
    LinkOpens(n);
    forall j: nat | j < ENTRIES ensures Word(mem', n, j) == 0 { Written(s, c, e, n, j); }
    forall u: nat, j: nat | u != n && j < ENTRIES && !(u == c.t && j == Index(c.vpn, c.level))
      ensures Word(mem', u, j) == Word(s.mem, u, j)
    {
      Written(s, c, e, u, j);
    }
    Written(s, c, e, c.t, Index(c.vpn, c.level));
  }

  lemma LinkLostOk(s: State, tid: nat, x: Lost)
    requires Inv(s) && Enabled(s, Go(tid, 0)) && s.calls[tid].level > 0 && s.calls[tid].phase.Link?
    requires OnTree(s, s.calls[tid])
    ensures LostOk(Next(s, Go(tid, 0)), x)
  {
    var s', k := Next(s, Go(tid, 0)), On(s.calls[tid].vpn, s.calls[tid].level - 1);
    assert CallOk(s, tid) && LostOk(s, x);
    if x in Pruned(s.at, k) {
      var d :| d in s.at && Under(d, k) && x == Lost(s.at[d], d.level);
      assert TableOk(s, d);
      forall m | m in s'.at ensures s'.at[m] != x.page {
        assert s.at[d] in s.at.Values;
        if m != k { assert Apart(s.at, m, d); }
      }
    } else if x in s.lost {
      forall m | m in s'.at ensures s'.at[m] != x.page {
        assert m != k ==> s.at[m] in s.at.Values;
      }
    }
  }

  lemma LinkLostApart(s: State, tid: nat, x: Lost, y: Lost)
    requires Inv(s) && Enabled(s, Go(tid, 0)) && s.calls[tid].level > 0 && s.calls[tid].phase.Link?
    requires OnTree(s, s.calls[tid])
    ensures LostApart(Next(s, Go(tid, 0)), x, y)
  {
    var k := On(s.calls[tid].vpn, s.calls[tid].level - 1);
    assert LostApart(s, x, y) && LostOk(s, x) && LostOk(s, y);
    assert forall d :: d in s.at ==> s.at[d] in s.at.Values;
    if x in Pruned(s.at, k) && y in Pruned(s.at, k) {
      var d :| d in s.at && Under(d, k) && x == Lost(s.at[d], d.level);
      var e :| e in s.at && Under(e, k) && y == Lost(s.at[e], e.level);
      assert Apart(s.at, d, e);
    }
  }

  lemma LinkLostLinked(s: State, tid: nat, x: Lost, j: nat)
    requires Inv(s) && Enabled(s, Go(tid, 0)) && s.calls[tid].level > 0 && s.calls[tid].phase.Link?
    requires OnTree(s, s.calls[tid])
    ensures LostLinked(Next(s, Go(tid, 0)), x, j)
  {
    var s', c := Next(s, Go(tid, 0)), s.calls[tid];
    var k, q := On(c.vpn, c.level - 1), On(c.vpn, c.level);
    assert CallOk(s, tid) && LostLinked(s, x, j) && LostOk(s, x);
    if j < ENTRIES { Written(s, c, c.phase.n * PAGE_SIZE + TABLE_FLAGS, x.page, j); }
    OnParent(c.vpn, c.level - 1);
    assert s.at[q] in s.at.Values;
    if x in Pruned(s.at, k) && x.level > 0 && j < ENTRIES {
      var d :| d in s.at && Under(d, k) && x == Lost(s.at[d], d.level);
      UnderChild(d, j, k);
      assert Apart(s.at, d, q) && !Under(q, k);
      assert Linked(s.mem, s.at, d, j);
      if d.Child(j) in s.at { assert Lost(s.at[d.Child(j)], d.level - 1) in Pruned(s.at, k); }
    }
  }

  lemma LinkCall(s: State, tid: nat, a: nat)
    requires Inv(s) && Enabled(s, Go(tid, 0)) && s.calls[tid].level > 0 && s.calls[tid].phase.Link?
    requires OnTree(s, s.calls[tid])
    ensures CallOk(Next(s, Go(tid, 0)), a)
  {
    assert CallOk(s, tid) && CallOk(s, a);
    if a in s.calls {
      LinkReached(s, tid, a);
      LinkEntry(s, tid, a);
      if a != tid && s.calls[a].level > 0 && s.calls[a].phase.Link? {
        assert Alone(s, a, tid);
        LinkFresh(s, tid, s.calls[a].phase.n);
      }
    }
  }

  /** A link makes no entry absent, and the one it writes is present. */
  lemma LinkEntry(s: State, tid: nat, a: nat)
    requires Inv(s) && Enabled(s, Go(tid, 0)) && s.calls[tid].level > 0 && s.calls[tid].phase.Link? && a in s.calls
    ensures var s' := Next(s, Go(tid, 0));
            Present(Entry(s, s.calls[a])) || a == tid ==> a in s'.calls && Present(Entry(s', s'.calls[a]))
  {
    var c, b := s.calls[tid], s.calls[a];
    LinkWord(c.phase.n);
    EntryWritten(s, c, c.phase.n * PAGE_SIZE + TABLE_FLAGS, b);
  }

  lemma EntryWritten(s: State, c: Call, e: nat, b: Call)
    requires Slot(c) < |s.mem|
    ensures var z := s.(mem := s.mem[Slot(c) := e]);
            && Word(z.mem, b.t, Index(b.vpn, b.level)) in {e, Entry(s, b)}
            && (b.t == c.t && b.vpn == c.vpn && b.level == c.level ==> Word(z.mem, b.t, Index(b.vpn, b.level)) == e)
  {
    OnParent(b.vpn, b.level);
    Written(s, c, e, b.t, Index(b.vpn, b.level));
  }

  /** The table a call has reached is still in the tree, or is lost now. */
  lemma LinkReached(s: State, tid: nat, a: nat)
    requires Inv(s) && Enabled(s, Go(tid, 0)) && s.calls[tid].level > 0 && s.calls[tid].phase.Link?
    requires OnTree(s, s.calls[tid]) && a in s.calls
    ensures var s', b := Next(s, Go(tid, 0)), s.calls[a];
            OnTree(s', b) || Lost(b.t, b.level) in s'.lost
  {
    var c, b := s.calls[tid], s.calls[a];
    var k, d := On(c.vpn, c.level - 1), On(b.vpn, b.level);
    assert CallOk(s, tid) && CallOk(s, a);
    if OnTree(s, b) && Under(d, k) {
      assert Lost(s.at[d], d.level) in Pruned(s.at, k);
    }
  }

  lemma LinkFresh(s: State, tid: nat, m: nat)
    requires Inv(s) && Enabled(s, Go(tid, 0)) && s.calls[tid].level > 0 && s.calls[tid].phase.Link?
    requires OnTree(s, s.calls[tid]) && Fresh(s, m) && m != s.calls[tid].phase.n
    ensures Fresh(Next(s, Go(tid, 0)), m)
  {
    var s', c := Next(s, Go(tid, 0)), s.calls[tid];
    var k := On(c.vpn, c.level - 1);
    assert CallOk(s, tid);
    StillZero(s, c, c.phase.n * PAGE_SIZE + TABLE_FLAGS, m);
    assert Zero(s', m);
    assert forall d :: d in s.at ==> s.at[d] in s.at.Values;
    forall x | x in s'.lost ensures x.page != m {
      if x in Pruned(s.at, k) { var d :| d in s.at && Under(d, k) && x == Lost(s.at[d], d.level); }
    }
  }

  /** A link in a table that is lost: no translation changes. */
  lemma LinkAway(s: State, tid: nat)
    requires Inv(s) && Enabled(s, Go(tid, 0)) && s.calls[tid].level > 0 && s.calls[tid].phase.Link?
    requires !OnTree(s, s.calls[tid])
    ensures Inv(Next(s, Go(tid, 0)))
    ensures forall u: nat :: LeafView(Next(s, Go(tid, 0)).mem, s.at, u) == LeafView(s.mem, s.at, u)
  {
    var s', c := Next(s, Go(tid, 0)), s.calls[tid];
    var n, here := c.phase.n, Lost(c.t, c.level);
    assert CallOk(s, tid) && LostOk(s, here);
    assert forall d :: d in s.at ==> s.at[d] in s.at.Values;
    forall k, j: nat ensures SameWord(s.mem, s'.mem, s.at, k, j) {
      if k in s.at && j < ENTRIES { Written(s, c, n * PAGE_SIZE + TABLE_FLAGS, s.at[k], j); }
    }
    OtherPages(s.mem, s'.mem, s.at, s.root);
    forall d ensures TableOk(s', d) { assert TableOk(s, d); }
    forall x ensures LostOk(s', x) { assert LostOk(s, x); }
    forall x, y ensures LostApart(s', x, y) { assert LostApart(s, x, y); }
    forall x, j: nat ensures LostLinked(s', x, j) { AwayLinked(s, tid, x, j); }
    forall a: nat ensures CallOk(s', a) { AwayCall(s, tid, a); }
    forall a: nat, b: nat ensures Alone(s', a, b) { assert Alone(s, a, b); }
  }

  lemma AwayLinked(s: State, tid: nat, x: Lost, j: nat)
    requires Inv(s) && Enabled(s, Go(tid, 0)) && s.calls[tid].level > 0 && s.calls[tid].phase.Link?
    requires !OnTree(s, s.calls[tid])
    ensures LostLinked(Next(s, Go(tid, 0)), x, j)
  {
    var s', c := Next(s, Go(tid, 0)), s.calls[tid];
    var n := c.phase.n;
    assert CallOk(s, tid) && LostLinked(s, x, j) && LostApart(s, x, Lost(c.t, c.level));
    NotFresh(s, c, n);
    if j < ENTRIES { Written(s, c, n * PAGE_SIZE + TABLE_FLAGS, x.page, j); }
  }

  lemma AwayFresh(s: State, tid: nat, m: nat)
    requires Inv(s) && Enabled(s, Go(tid, 0)) && s.calls[tid].level > 0 && s.calls[tid].phase.Link?
    requires !OnTree(s, s.calls[tid]) && Fresh(s, m) && m != s.calls[tid].phase.n
    ensures Fresh(Next(s, Go(tid, 0)), m)
  {
    var s', c := Next(s, Go(tid, 0)), s.calls[tid];
    assert CallOk(s, tid);
    StillZero(s, c, c.phase.n * PAGE_SIZE + TABLE_FLAGS, m);
    assert Zero(s', m);
  }

  lemma AwayCall(s: State, tid: nat, a: nat)
    requires Inv(s) && Enabled(s, Go(tid, 0)) && s.calls[tid].level > 0 && s.calls[tid].phase.Link?
    requires !OnTree(s, s.calls[tid])
    ensures CallOk(Next(s, Go(tid, 0)), a)
  {
    var s', c := Next(s, Go(tid, 0)), s.calls[tid];
    assert CallOk(s, tid) && CallOk(s, a);
    if a in s.calls {
      LinkEntry(s, tid, a);
      if a != tid && s.calls[a].level > 0 && s.calls[a].phase.Link? {
        assert Alone(s, a, tid);
        AwayFresh(s, tid, s.calls[a].phase.n);
      }
    }
  }

  /** The last access of a call: it maps its page, unless the table it writes to is lost. */
  lemma LeafKeeps(s: State, tid: nat, n: nat)
    requires Inv(s) && Enabled(s, Go(tid, n)) && s.calls[tid].level == 0
    ensures Inv(Next(s, Go(tid, n)))
    ensures var s', c := Next(s, Go(tid, n)), s.calls[tid];
            forall u: nat :: LeafView(s'.mem, s'.at, u)
                             == if u == c.vpn && OnTree(s, c) then Seen(c.entry) else LeafView(s.mem, s.at, u)
  {
    var s', c := Next(s, Go(tid, n)), s.calls[tid];
    var here := Lost(c.t, 0);
    assert CallOk(s, tid) && LostOk(s, here);
    OnParent(c.vpn, 0);
    RootOn(c.vpn);
    assert forall d :: d in s.at ==> s.at[d] in s.at.Values;
    if OnTree(s, c) {
      assert Placed(s.mem, s.at, LeafNode(c.vpn));
      WriteLeaf(s.mem, s'.mem, s.at, s.root, c.vpn, Index(c.vpn, 0), c.entry);
    } else {
      forall k, j: nat ensures SameWord(s.mem, s'.mem, s.at, k, j) {
        if k in s.at && j < ENTRIES { Written(s, c, c.entry, s.at[k], j); }
      }
      OtherPages(s.mem, s'.mem, s.at, s.root);
    }
    forall d ensures TableOk(s', d) { assert TableOk(s, d); }
    forall x ensures LostOk(s', x) { assert LostOk(s, x); }
    forall x, y ensures LostApart(s', x, y) { assert LostApart(s, x, y); }
    forall x, j: nat ensures LostLinked(s', x, j) {
      assert LostLinked(s, x, j) && LostApart(s, x, here) && LostOk(s, x);
      if j < ENTRIES { Written(s, c, c.entry, x.page, j); }
    }
    forall a: nat ensures CallOk(s', a) { LeafCall(s, tid, n, a); }
    forall a: nat, b: nat ensures Alone(s', a, b) { assert Alone(s, a, b); }
  }

  lemma LeafCall(s: State, tid: nat, n: nat, a: nat)
    requires Inv(s) && Enabled(s, Go(tid, n)) && s.calls[tid].level == 0
    ensures CallOk(Next(s, Go(tid, n)), a)
  {
    var s', c := Next(s, Go(tid, n)), s.calls[tid];
    assert CallOk(s, a) && CallOk(s, tid);
    if a in s.calls && a != tid {
      var b := s.calls[a];
      OnParent(b.vpn, b.level);
      Written(s, c, c.entry, b.t, Index(b.vpn, b.level));
      assert OnTree(s, c) && OnTree(s, b) ==> Apart(s.at, On(c.vpn, 0), On(b.vpn, b.level));
      assert LostApart(s, Lost(c.t, 0), Lost(b.t, b.level)) && LostOk(s, Lost(c.t, 0)) && LostOk(s, Lost(b.t, b.level));
      assert forall d :: d in s.at ==> s.at[d] in s.at.Values;
      if b.level > 0 && b.phase.Link? {
        StillZero(s, c, c.entry, b.phase.n);
        assert Zero(s', b.phase.n) && Fresh(s', b.phase.n);
      }
    }
  }

  lemma StepKeeps(s: State, step: Step)
    requires Inv(s) && Enabled(s, step)
    ensures Inv(Next(s, step))
  {
    if step.Begin? {
      ReadKeeps(s, step);
    } else {
      var c := s.calls[step.tid];
      if c.level == 0 {
        LeafKeeps(s, step.tid, step.n);
      } else if c.phase.Miss? {
        MissKeeps(s, step.tid, step.n);
      } else if c.phase.Link? {
        assert Next(s, step) == Next(s, Go(step.tid, 0));
        if OnTree(s, c) { LinkTree(s, step.tid); } else { LinkAway(s, step.tid); }
      } else {
        ReadKeeps(s, step);
      }
    }
  }

  /** In every interleaving of the accesses of any number of calls the tables stay a tree of distinct
      pages in use, and no call ever reads or writes a page that is not a table or has not been one. */
  lemma {:induction false} RacesKeep(s: State, steps: seq<Step>)
    requires Inv(s) && ValidRun(s, steps)
    ensures Inv(Exec(s, steps))
    decreases |steps|
  {
    if steps != [] {
      StepKeeps(s, steps[0]);
      RacesKeep(Next(s, steps[0]), steps[1..]);
    }
  }

  // ---------- what becomes of a mapped page ----------

  /** The step links a table on the path of u where there is one already: the call that takes it
      saw the entry absent, and another call has filled it since. */
  ghost predicate LateLink(s: State, step: Step, u: nat) {
    && step.Go? && step.tid in s.calls
    && var c := s.calls[step.tid];
       && c.level > 0 && c.phase.Link? && OnTree(s, c)
       && var k := On(c.vpn, c.level - 1);
          k in s.at && k in A.Members(A.Path(u))
  }

  /** The step maps page u. */
  ghost predicate Maps(s: State, step: Step, u: nat) {
    step.Go? && step.tid in s.calls && var c := s.calls[step.tid]; c.level == 0 && c.vpn == u && OnTree(s, c)
  }

  function View(s: State, u: nat): Option<Leaf> { Translate(s.mem, s.root, u) }

  /** One access: it maps a page, or loses the pages below a table it replaces, or changes nothing. */
  lemma StepView(s: State, step: Step, u: nat)
    requires Inv(s) && Enabled(s, step) && u < VPNS
    ensures View(Next(s, step), u)
            == if Maps(s, step, u) then Seen(s.calls[step.tid].entry)
               else if LateLink(s, step, u) then None
               else View(s, u)
  {
    var z := Next(s, step);
    StepKeeps(s, step);
    TranslateIsLeaf(s.mem, s.at, s.root, u);
    TranslateIsLeaf(z.mem, z.at, z.root, u);
    if step.Go? {
      var c := s.calls[step.tid];
      if c.level == 0 {
        LeafKeeps(s, step.tid, step.n);
      } else if c.phase.Miss? {
        MissKeeps(s, step.tid, step.n);
      } else if c.phase.Link? {
        assert z == Next(s, Go(step.tid, 0));
        if OnTree(s, c) { LinkView(s, step.tid, u); } else { LinkAway(s, step.tid); }
      }
    }
  }

  lemma LinkView(s: State, tid: nat, u: nat)
    requires Inv(s) && Enabled(s, Go(tid, 0)) && s.calls[tid].level > 0 && s.calls[tid].phase.Link?
    requires OnTree(s, s.calls[tid]) && u < VPNS
    ensures var s' := Next(s, Go(tid, 0));
            LeafView(s'.mem, s'.at, u) == if LateLink(s, Go(tid, 0), u) then None else LeafView(s.mem, s.at, u)
  {
    var c := s.calls[tid];
    var k := On(c.vpn, c.level - 1);
    assert CallOk(s, tid);
    LinkTree(s, tid);
    RootOn(u);
    UnderPath(u, 0, k);
    PathIs(u, k);
    if Under(LeafNode(u), k) && k !in s.at && LeafNode(u) in s.at {
      Ancestors(s.mem, s.at, s.root, u, 0, k.level);
    }
  }

  /** Some step of the run links over a table on the path of u. */
  ghost predicate LinkedOver(s: State, steps: seq<Step>, u: nat)
    requires ValidRun(s, steps)
    decreases |steps|
  {
    steps != [] && (LateLink(s, steps[0], u) || LinkedOver(Next(s, steps[0]), steps[1..], u))
  }

  /** No step of the run maps page u: its one call is over. */
  ghost predicate Unmapped(s: State, steps: seq<Step>, u: nat)
    requires ValidRun(s, steps)
    decreases |steps|
  {
    steps == [] || (!Maps(s, steps[0], u) && Unmapped(Next(s, steps[0]), steps[1..], u))
  }

  /** Over every interleaving of accesses, a mapped page stays mapped as it was exactly when no call
      links over a table on its path; otherwise it ends up mapped to nothing. */
  lemma {:induction false} MappedPageKeptIff(s: State, steps: seq<Step>, u: nat)
    requires Inv(s) && ValidRun(s, steps) && u < VPNS && Unmapped(s, steps, u)
    ensures View(Exec(s, steps), u) == if LinkedOver(s, steps, u) then None else View(s, u)
    decreases |steps|
  {
    if steps != [] {
      var z := Next(s, steps[0]);
      StepKeeps(s, steps[0]);
      StepView(s, steps[0], u);
      MappedPageKeptIff(z, steps[1..], u);
    }
  }

  // ---------- what becomes of a call under way ----------

  /** The step links over the table a call has reached, or over one above it. */
  ghost predicate CutOff(s: State, step: Step, tid: nat)
    requires tid in s.calls
  {
    && step.Go? && step.tid in s.calls && step.tid != tid
    && LateLink(s, step, s.calls[tid].vpn) && s.calls[tid].level <= s.calls[step.tid].level - 1
  }

  /** A call that has reached a table of the tree is still in the tree after any step, its own or
      another's, unless the step cuts it off; and a call that is cut off never gets back. */
  lemma CutOffIff(s: State, step: Step, tid: nat)
    requires Inv(s) && Enabled(s, step) && tid in s.calls && tid in Next(s, step).calls
    ensures OnTree(Next(s, step), Next(s, step).calls[tid]) <==> OnTree(s, s.calls[tid]) && !CutOff(s, step, tid)
  {
    var z, c := Next(s, step), s.calls[tid];
    StepKeeps(s, step);
    assert CallOk(s, tid) && CallOk(z, tid);
    if OnTree(s, c) {
      StillOnTree(s, step, tid);
    } else {
      var b := z.calls[tid];
      var x := Lost(b.t, b.level);
      OnParent(c.vpn, c.level);
      assert LostLinked(s, Lost(c.t, c.level), Index(c.vpn, c.level));
      assert x in z.lost && LostOk(z, x);
      assert OnTree(z, b) ==> b.t in z.at.Values;
    }
  }

  lemma StillOnTree(s: State, step: Step, tid: nat)
    requires Inv(s) && Enabled(s, step) && tid in s.calls && tid in Next(s, step).calls && OnTree(s, s.calls[tid])
    ensures OnTree(Next(s, step), Next(s, step).calls[tid]) <==> !CutOff(s, step, tid)
  {
    var c := s.calls[tid];
    assert CallOk(s, tid);
    OnParent(c.vpn, c.level);
    if step.Go? && step.tid == tid && c.level > 0 && c.phase == Follow { FollowsTree(s, tid); }
    if step.Go? && s.calls[step.tid].level > 0 && s.calls[step.tid].phase.Link? && OnTree(s, s.calls[step.tid]) {
      LinkPosition(s, step, tid);
    }
  }

  /** What a call in the tree reads to go down leads to a table of the tree. */
  lemma FollowsTree(s: State, tid: nat)
    requires Inv(s) && tid in s.calls && OnTree(s, s.calls[tid])
    requires s.calls[tid].level > 0 && s.calls[tid].phase == Follow
    ensures var c := s.calls[tid];
            var d := On(c.vpn, c.level - 1); d in s.at && s.at[d] == Frame(Entry(s, c))
  {
    var c := s.calls[tid];
    assert CallOk(s, tid);
    OnParent(c.vpn, c.level);
    OnParent(c.vpn, c.level - 1);
    assert Linked(s.mem, s.at, On(c.vpn, c.level), Index(c.vpn, c.level));
  }

  lemma LinkPosition(s: State, step: Step, tid: nat)
    requires Inv(s) && Enabled(s, step) && tid in s.calls && OnTree(s, s.calls[tid])
    requires step.Go? && s.calls[step.tid].level > 0 && s.calls[step.tid].phase.Link? && OnTree(s, s.calls[step.tid])
    ensures OnTree(Next(s, step), Next(s, step).calls[tid]) <==> !CutOff(s, step, tid)
  {
    var c, b := s.calls[tid], s.calls[step.tid];
    var d, k := On(c.vpn, c.level), On(b.vpn, b.level - 1);
    assert CallOk(s, tid) && CallOk(s, step.tid);
    assert s.at[d] in s.at.Values;
    PathIs(c.vpn, k);
    if c.level <= k.level {
      UnderPath(c.vpn, c.level, k);
      if Under(d, k) { Ancestors(s.mem, s.at, s.root, c.vpn, c.level, k.level); }
    }
  }

  /** Some step of the run cuts the call off. */
  ghost predicate CutOffIn(s: State, steps: seq<Step>, tid: nat)
    requires ValidRun(s, steps) && Throughout(s, steps, tid)
    decreases |steps|
  {
    steps != [] && (CutOff(s, steps[0], tid) || CutOffIn(Next(s, steps[0]), steps[1..], tid))
  }

  /** The call is under way all the time. */
  ghost predicate Throughout(s: State, steps: seq<Step>, tid: nat)
    requires ValidRun(s, steps)
    decreases |steps|
  {
    tid in s.calls && (steps == [] || Throughout(Next(s, steps[0]), steps[1..], tid))
  }

  lemma {:induction false} StaysLost(s: State, steps: seq<Step>, tid: nat)
    requires Inv(s) && ValidRun(s, steps) && Throughout(s, steps, tid) && !OnTree(s, s.calls[tid])
    ensures tid in Exec(s, steps).calls && !OnTree(Exec(s, steps), Exec(s, steps).calls[tid])
    decreases |steps|
  {
    if steps != [] {
      var z := Next(s, steps[0]);
      StepKeeps(s, steps[0]);
      assert Throughout(z, steps[1..], tid);
      CutOffIff(s, steps[0], tid);
      StaysLost(z, steps[1..], tid);
    }
  }

  /** Over every interleaving of accesses, a call under way is still in the tree, so that its last
      access will map its page, exactly when no other call has linked over a table it has passed. */
  lemma {:induction false} CallKeptIff(s: State, steps: seq<Step>, tid: nat)
    requires Inv(s) && ValidRun(s, steps) && Throughout(s, steps, tid) && OnTree(s, s.calls[tid])
    ensures tid in Exec(s, steps).calls
    ensures OnTree(Exec(s, steps), Exec(s, steps).calls[tid]) <==> !CutOffIn(s, steps, tid)
    decreases |steps|
  {
    if steps != [] {
      var z := Next(s, steps[0]);
      StepKeeps(s, steps[0]);
      assert Throughout(z, steps[1..], tid);
      CutOffIff(s, steps[0], tid);
      if CutOff(s, steps[0], tid) {
        StaysLost(z, steps[1..], tid);
      } else {
        CallKeptIff(z, steps[1..], tid);
      }
    }
  }

  // ---------- a call that nobody overlaps ----------

  lemma RunCons(s: State, step: Step, rest: seq<Step>)
    requires Enabled(s, step) && ValidRun(Next(s, step), rest)
    ensures ValidRun(s, [step] + rest) && Exec(s, [step] + rest) == Exec(Next(s, step), rest)
  {
    assert ([step] + rest)[1..] == rest;
  }

  /** Distinct pages that are free. */
  ghost predicate Spare(s: State, pages: seq<nat>) {
    && (forall i :: 0 <= i < |pages| ==> pages[i] < |s.used| && !s.used[pages[i]])
    && forall i, j :: 0 <= i < j < |pages| ==> pages[i] != pages[j]
  }

  lemma InMemory(s: State, tid: nat)
    requires Inv(s) && tid in s.calls
    ensures Slot(s.calls[tid]) < |s.mem|
  {
    var c := s.calls[tid];
    assert CallOk(s, tid);
    OnParent(c.vpn, c.level);
    if OnTree(s, c) { assert TableOk(s, On(c.vpn, c.level)); } else { assert LostOk(s, Lost(c.t, c.level)); }
  }

  /** One level down, with nobody in between: to the table below, which is made when it is missing. */
  lemma Descends(s: State, tid: nat, n: nat) returns (steps: seq<Step>, z: State)
    requires Inv(s) && tid in s.calls && OnTree(s, s.calls[tid]) && s.calls[tid].level > 0 && s.calls[tid].phase == Test
    requires n < |s.used| && !s.used[n]
    ensures ValidRun(s, steps) && z == Exec(s, steps) && Inv(z)
    ensures tid in z.calls && OnTree(z, z.calls[tid])
    ensures z.calls == s.calls[tid := s.calls[tid].(level := s.calls[tid].level - 1, t := z.calls[tid].t)]
    ensures z.root == s.root && (z.used == s.used || z.used == s.used[n := true]) && s.at.Keys <= z.at.Keys
  {
    var c, go := s.calls[tid], Go(tid, n);
    assert CallOk(s, tid);
    InMemory(s, tid);
    StepKeeps(s, go);
    CutOffIff(s, go, tid);
    var s1 := Next(s, go);
    InMemory(s1, tid);
    if Present(Entry(s, c)) {
      StepKeeps(s1, go);
      CutOffIff(s1, go, tid);
      z := Next(s1, go);
      RunCons(s1, go, []);
      RunCons(s, go, [go]);
      steps := [go, go];
    } else {
      z := HangsTable(s1, tid, n);
      RunCons(s, go, [go, go, go]);
      steps := [go, go, go, go];
    }
  }

  /** A call that has seen an absent entry takes a page, links it and follows it, with nobody in between. */
  lemma HangsTable(s: State, tid: nat, n: nat) returns (z: State)
    requires Inv(s) && tid in s.calls && OnTree(s, s.calls[tid]) && s.calls[tid].level > 0 && s.calls[tid].phase == Miss
    requires n < |s.used| && !s.used[n] && !Present(Entry(s, s.calls[tid]))
    ensures var steps := [Go(tid, n), Go(tid, n), Go(tid, n)]; ValidRun(s, steps) && z == Exec(s, steps) && Inv(z)
    ensures tid in z.calls && OnTree(z, z.calls[tid])
    ensures z.calls
            == s.calls[tid := s.calls[tid].(level := s.calls[tid].level - 1, t := z.calls[tid].t, phase := Test)]
    ensures z.root == s.root && z.used == s.used[n := true] && s.at.Keys <= z.at.Keys
  {
    var c, go := s.calls[tid], Go(tid, n);
    assert CallOk(s, tid);
    InMemory(s, tid);
    assert Linked(s.mem, s.at, On(c.vpn, c.level), Index(c.vpn, c.level)) by { OnParent(c.vpn, c.level); }
    OnParent(c.vpn, c.level - 1);
    var k := On(c.vpn, c.level - 1);
    StepKeeps(s, go);
    CutOffIff(s, go, tid);
    var s2 := Next(s, go);
    InMemory(s2, tid);
    StepKeeps(s2, go);
    CutOffIff(s2, go, tid);
    var s3 := Next(s2, go);
    NothingBelow(s2, k);
    InMemory(s3, tid);
    StepKeeps(s3, go);
    CutOffIff(s3, go, tid);
    z := Next(s3, go);
    RunCons(s3, go, []);
    RunCons(s2, go, [go]);
    RunCons(s, go, [go, go]);
  }

  /** Where there is no table, there is none below either. */
  lemma NothingBelow(s: State, k: Node)
    requires Inv(s) && k !in s.at && k.level <= 2
    ensures forall d :: d in s.at ==> !Under(d, k)
  {
    forall d | d in s.at ensures !Under(d, k) { NotBelow(s, d, k); }
  }

  lemma {:induction false} NotBelow(s: State, d: Node, k: Node)
    requires Inv(s) && d in s.at && k !in s.at && k.level <= 2
    ensures !Under(d, k)
    decreases if d.level < k.level then k.level - d.level else 0
  {
    if d.level < k.level {
      assert Placed(s.mem, s.at, d);
      NotBelow(s, d.Parent(), k);
    }
  }

  lemma {:induction false} RunConcat(s: State, a: seq<Step>, b: seq<Step>)
    requires ValidRun(s, a) && ValidRun(Exec(s, a), b)
    ensures ValidRun(s, a + b) && Exec(s, a + b) == Exec(Exec(s, a), b)
    decreases |a|
  {
    if a == [] {
      assert a + b == b;
    } else {
      RunConcat(Next(s, a[0]), a[1..], b);
      RunCons(s, a[0], a[1..] + b);
      assert [a[0]] + (a[1..] + b) == a + b;
    }
  }

  lemma SpareRest(s: State, z: State, pages: seq<nat>)
    requires Spare(s, pages) && pages != [] && (z.used == s.used || z.used == s.used[pages[0] := true])
    ensures Spare(z, pages[1..]) && |z.used| == |s.used|
  {
  }

  /** A call that nobody overlaps maps its page, whatever other calls are halfway through. */
  lemma {:induction false} CallAlone(s: State, tid: nat, pages: seq<nat>) returns (steps: seq<Step>, z: State)
    requires Inv(s) && tid in s.calls && OnTree(s, s.calls[tid]) && s.calls[tid].phase == Test
    requires Spare(s, pages) && |pages| >= s.calls[tid].level
    ensures ValidRun(s, steps) && z == Exec(s, steps) && Inv(z) && z.root == s.root
    ensures z.calls == s.calls - {tid} && View(z, s.calls[tid].vpn) == Seen(s.calls[tid].entry)
    ensures Spare(z, pages[s.calls[tid].level..]) && |z.used| == |s.used|
    ensures s.calls[tid].level > 0 ==> On(s.calls[tid].vpn, s.calls[tid].level - 1) in z.at
    ensures s.at.Keys <= z.at.Keys
    decreases s.calls[tid].level
  {
    var c := s.calls[tid];
    assert CallOk(s, tid);
    if c.level == 0 {
      InMemory(s, tid);
      var go := Go(tid, 0);
      StepKeeps(s, go);
      StepView(s, go, c.vpn);
      z := Next(s, go);
      RunCons(s, go, []);
      steps := [go];
    } else {
      var down, m := Descends(s, tid, pages[0]);
      SpareRest(s, m, pages);
      var rest;
      rest, z := CallAlone(m, tid, pages[1..]);
      RunConcat(s, down, rest);
      steps := down + rest;
      assert On(c.vpn, c.level - 1) in m.at.Keys;
      assert pages[1..][c.level - 1..] == pages[c.level..];
    }
  }

  // ---------- two calls that overlap ----------

  /** Pages v and u share an entry of the root, and it is absent. Thread a begins to map v and sees
      that. Thread b maps u, from beginning to end. Then a writes the entry, and u is mapped to
      nothing. */
  lemma LateLinkHappens(s: State, a: nat, b: nat, v: nat, u: nat, e: nat, f: nat, pages: seq<nat>)
    returns (first: seq<Step>, m: State, last: seq<Step>)
    requires Inv(s) && a !in s.calls && b !in s.calls && a != b && v < VPNS && u < VPNS && Present(f)
    requires On(v, 2) == On(u, 2) && On(u, 2) !in s.at && |pages| == 4 && Spare(s, pages)
    ensures ValidRun(s, first) && m == Exec(s, first) && b !in m.calls && View(m, u) == Seen(f) != None
    ensures ValidRun(m, last) && |last| == 2 && View(Exec(m, last), u) == None
  {
    var s1 := Next(s, Begin(a, v, e));
    StepKeeps(s, Begin(a, v, e));
    RootOn(v);
    RootOn(u);
    InMemory(s1, a);
    assert OnTree(s1, s1.calls[a]);
    var go := Go(a, pages[3]);
    StepKeeps(s1, go);
    SeesNothing(s1, a);
    var s2 := Next(s1, go);
    var s3 := Next(s2, Begin(b, u, f));
    StepKeeps(s2, Begin(b, u, f));
    assert OnTree(s3, s3.calls[b]);
    var steps;
    steps, m := CallAlone(s3, b, pages);
    RunCons(s2, Begin(b, u, f), steps);
    RunCons(s1, go, [Begin(b, u, f)] + steps);
    first := [Begin(a, v, e)] + ([go] + ([Begin(b, u, f)] + steps));
    RunCons(s, Begin(a, v, e), [go] + ([Begin(b, u, f)] + steps));
    assert m.calls[a] == s2.calls[a];
    last := [go, go];
    LinksLate(m, a, pages[3], u);
  }

  lemma SeesNothing(s: State, tid: nat)
    requires Inv(s) && tid in s.calls && OnTree(s, s.calls[tid]) && s.calls[tid].level > 0
    requires On(s.calls[tid].vpn, s.calls[tid].level - 1) !in s.at
    ensures !Present(Entry(s, s.calls[tid]))
  {
    var c := s.calls[tid];
    assert CallOk(s, tid);
    OnParent(c.vpn, c.level);
    OnParent(c.vpn, c.level - 1);
    assert Linked(s.mem, s.at, On(c.vpn, c.level), Index(c.vpn, c.level));
  }

  /** A call that missed a table which is there by now takes a page and links it all the same. */
  lemma LinksLate(s: State, tid: nat, n: nat, u: nat)
    requires Inv(s) && tid in s.calls && s.calls[tid].level == 3 && s.calls[tid].phase == Miss && u < VPNS
    requires n < |s.used| && !s.used[n] && OnTree(s, s.calls[tid])
    requires On(s.calls[tid].vpn, 2) == On(u, 2) && On(u, 2) in s.at
    ensures ValidRun(s, [Go(tid, n), Go(tid, n)]) && View(Exec(s, [Go(tid, n), Go(tid, n)]), u) == None
  {
    var go := Go(tid, n);
    InMemory(s, tid);
    var s1 := Next(s, go);
    StepKeeps(s, go);
    InMemory(s1, tid);
    StepView(s1, go, u);
    PathIs(u, On(u, 2));
    assert LateLink(s1, go, u);
    RunCons(s1, go, []);
    RunCons(s, go, [go]);
  }
}
