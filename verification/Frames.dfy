/** What the physical page allocator computes, on values: next-fit over a bitmap,
    with the free counter kept beside it. `used` may be longer than `total`: the
    bits past `total` stand for whatever memory follows the bitmap. */
module Frames {
  import opened Common

  datatype Frames = Frames(used: seq<bool>, total: nat, hint: nat, free: int)

  predicate FreeRun(used: seq<bool>, i: nat, n: nat) {
    i + n <= |used| && forall p :: i <= p < i + n ==> !used[p]
  }

  /** The naive search: the lowest start in [lo, hi) of a free run of n pages. */
  function FirstRun(used: seq<bool>, lo: nat, hi: int, n: nat): (r: Option<nat>)
    ensures r.Some? ==> lo <= r.value < hi && FreeRun(used, r.value, n)
    ensures r.Some? ==> forall k :: lo <= k < r.value ==> !FreeRun(used, k, n)
    ensures r.None? ==> forall k :: lo <= k < hi ==> !FreeRun(used, k, n)
    decreases hi - lo
  {
    if lo >= hi then None
    else if FreeRun(used, lo, n) then Some(lo)
    else FirstRun(used, lo + 1, hi, n)
  }

  /** Next-fit: from the hint up, never trying start total - n, then from 0 up to the hint. */
  function NextFit(f: Frames, n: nat): Option<nat>
    requires n <= f.total
  {
    var first := FirstRun(f.used, f.hint, f.total - n, n);
    if first.Some? then first else FirstRun(f.used, 0, f.hint, n)
  }

  function Mark(used: seq<bool>, i: nat, n: nat, v: bool): (r: seq<bool>)
    requires i + n <= |used|
    ensures |r| == |used|
    ensures forall p :: 0 <= p < |used| ==> r[p] == if i <= p < i + n then v else used[p]
  {
    seq(|used|, p requires 0 <= p < |used| => if i <= p < i + n then v else used[p])
  }

  function Alloc(f: Frames, n: nat): (Frames, Option<nat>)
    requires n <= f.total
  {
    match NextFit(f, n)
    case None => (f, None)
    case Some(i) =>
      (f.(used := Mark(f.used, i, n, true), free := f.free - n, hint := i + n), Some(i))
  }

  function Release(f: Frames, i: nat, n: nat): Frames
    requires i + n <= |f.used|
  {
    f.(used := Mark(f.used, i, n, false), free := f.free + n)
  }

  /** The number of clear bits among the first n. */
  function CountClear(used: seq<bool>, n: nat): nat
    requires n <= |used|
  {
    if n == 0 then 0 else CountClear(used, n - 1) + if used[n - 1] then 0 else 1
  }

  /** Page 0 is never free and the counter tells the truth. */
  ghost predicate Sound(f: Frames) {
    && 0 < f.total <= |f.used|
    && f.hint <= f.total
    && f.used[0]
    && f.free == CountClear(f.used, f.total)
  }

  /** The bit just past the bitmap reads as set, so no run crosses the end of memory. */
  predicate Guarded(f: Frames) {
    f.total < |f.used| && f.used[f.total]
  }

  /** The starts that the two passes together look at. */
  predicate Covered(f: Frames, n: nat, k: nat)
    requires n <= f.total
  {
    f.hint <= k < f.total - n || k < f.hint
  }

  /** Some run inside memory starts where the two passes look. */
  ghost predicate Contained(f: Frames, n: nat)
    requires n <= f.total
  {
    exists k: nat :: Covered(f, n, k) && k + n <= f.total && FreeRun(f.used, k, n)
  }

  // ---------- counting ----------

  lemma {:induction false} CountMark(used: seq<bool>, i: nat, n: nat, v: bool, m: nat)
    requires i + n <= |used| && m <= |used|
    requires forall p :: i <= p < i + n ==> used[p] == !v
    ensures var hit := if m <= i then 0 else if m <= i + n then m - i else n;
            CountClear(Mark(used, i, n, v), m) == CountClear(used, m) + if v then -hit else hit
  {
    if m > 0 { CountMark(used, i, n, v, m - 1); }
  }

  lemma {:induction false} CountZero(used: seq<bool>, n: nat)
    requires n <= |used| && CountClear(used, n) == 0
    ensures forall p :: 0 <= p < n ==> used[p]
  {
    if n > 0 { CountZero(used, n - 1); }
  }

  /** Counting bits is counting pages. */
  lemma {:induction false} CountIsCard(used: seq<bool>, n: nat)
    requires n <= |used|
    ensures CountClear(used, n) == |set p | 0 <= p < n && !used[p]|
  {
    var now := set p | 0 <= p < n && !used[p];
    if n > 0 {
      CountIsCard(used, n - 1);
      var before := set p | 0 <= p < n - 1 && !used[p];
      assert now == if used[n - 1] then before else before + {n - 1};
    }
  }

  // ---------- one call ----------

  /** A run is found exactly when one starts at an index the two passes cover. */
  lemma NextFitComplete(f: Frames, n: nat)
    requires n <= f.total
    ensures NextFit(f, n).Some? <==> exists k: nat :: Covered(f, n, k) && FreeRun(f.used, k, n)
  {
    if NextFit(f, n).Some? {
      assert Covered(f, n, NextFit(f, n).value);
    }
  }

  /** A free run of n pages starts at k, and none starts between lo and k. */
  ghost predicate Lowest(used: seq<bool>, lo: nat, k: nat, n: nat) {
    lo <= k && FreeRun(used, k, n) && forall j: nat :: lo <= j < k ==> !FreeRun(used, j, n)
  }

  /** Which run is taken: the lowest from the hint up that starts before total - n; only if there is
      none, the lowest of all below the hint. */
  lemma NextFitIs(f: Frames, n: nat, i: nat)
    requires n <= f.total
    ensures NextFit(f, n) == Some(i) <==>
            || (Lowest(f.used, f.hint, i, n) && i < f.total - n)
            || (Lowest(f.used, 0, i, n) && i < f.hint
                && forall k: nat :: f.hint <= k < f.total - n ==> !FreeRun(f.used, k, n))
  {
    var first := FirstRun(f.used, f.hint, f.total - n, n);
    if Lowest(f.used, f.hint, i, n) && i < f.total - n {
      assert first == Some(i);
    } else if Lowest(f.used, 0, i, n) && i < f.hint {
      assert first.None? ==> FirstRun(f.used, 0, f.hint, n) == Some(i);
    }
  }

  /** The second pass has no end check of its own. The run it returns stays inside
      memory exactly when some covered run does: an overrun needs the in-bounds
      candidates to be used up and a free run straddling the end of the bitmap. */
  lemma OverrunIff(f: Frames, n: nat)
    requires n <= f.total && f.hint <= f.total && NextFit(f, n).Some?
    ensures NextFit(f, n).value + n <= f.total <==> Contained(f, n)
  {
    var i := NextFit(f, n).value;
    assert Covered(f, n, i);
  }

  /** From `f` an allocation of all but one of the pages from lo up is granted and given back,
      which leaves everything in order. Then a request for one page more than there are from lo up
      is granted as well, and the counter is wrong. */
  ghost predicate Overruns(f: Frames, lo: nat) {
    && lo + 2 <= f.total < |f.used| && Sound(f)
    && var n := f.total - lo - 1;
       && Alloc(f, n).1 == Some(lo)
       && var h := Release(Alloc(f, n).0, lo, n);
          && Sound(h) && n + 2 <= h.total
          && NextFit(h, n + 2) == Some(lo) && lo + n + 2 > h.total && !Sound(Alloc(h, n + 2).0)
  }

  lemma {:induction false} CountRun(used: seq<bool>, lo: nat, n: nat)
    requires lo <= n <= |used| && forall p :: 0 <= p < n ==> used[p] == (p < lo)
    ensures CountClear(used, n) == n - lo
  {
    if n > 0 {
      if n > lo { CountRun(used, lo, n - 1); } else { CountRun(used, lo - 1, n - 1); }
    }
  }

  /** When everything below lo is used, the search finds the run at lo if it looks there at all. */
  lemma OnlyFrom(f: Frames, lo: nat, n: nat)
    requires 0 < n <= f.total && FreeRun(f.used, lo, n) && Covered(f, n, lo)
    requires (forall p :: 0 <= p < lo ==> f.used[p]) && (f.hint <= lo || f.hint >= f.total - n)
    ensures NextFit(f, n) == Some(lo)
  {
    forall k: nat | k < lo ensures !FreeRun(f.used, k, n) { assert f.used[k]; }
  }

  /** Such an overrun happens in every memory whose pages from lo up are free, when the bit after
      the last page reads as zero. */
  lemma OverrunHappens(used: seq<bool>, lo: nat, total: nat)
    requires 0 < lo && lo + 2 <= total < |used|
    requires forall p :: 0 <= p <= total ==> used[p] == (p < lo)
    ensures Overruns(Frames(used, total, 0, total - lo), lo)
  {
    var f, n := Frames(used, total, 0, total - lo), total - lo - 1;
    CountRun(used, lo, total);
    OnlyFrom(f, lo, n);
    var h := Release(Alloc(f, n).0, lo, n);
    assert h.used == used;
    OnlyFrom(h, lo, n + 2);
  }

  /** With one page or with a guard bit whatever is found is inside memory. */
  lemma GuardedContained(f: Frames, n: nat)
    requires Sound(f) && n <= f.total && (n <= 1 || Guarded(f)) && NextFit(f, n).Some?
    ensures Contained(f, n)
  {
    var i := NextFit(f, n).value;
    assert Covered(f, n, i) && i + n <= f.total;
  }

  /** A successful allocation keeps the allocator sound exactly when some covered run lies inside
      memory; the run is then free, inside memory and never holds page 0. */
  lemma AllocSoundIff(f: Frames, n: nat)
    requires Sound(f) && n <= f.total && NextFit(f, n).Some?
    ensures Sound(Alloc(f, n).0) <==> Contained(f, n)
    ensures Guarded(f) && Contained(f, n) ==> Guarded(Alloc(f, n).0)
    ensures var i := NextFit(f, n).value;
            FreeRun(f.used, i, n) && (Contained(f, n) ==> i + n <= f.total && (n > 0 ==> i > 0))
  {
    var i := NextFit(f, n).value;
    OverrunIff(f, n);
    CountMark(f.used, i, n, true, f.total);
  }

  /** Allocation keeps the counter true, unless it leaves memory. */
  lemma AllocSound(f: Frames, n: nat)
    requires Sound(f) && n <= f.total && (NextFit(f, n).Some? ==> Contained(f, n))
    ensures Sound(Alloc(f, n).0)
    ensures Guarded(f) ==> Guarded(Alloc(f, n).0)
    ensures var r := Alloc(f, n).1;
            r.Some? ==> r.value + n <= f.total && FreeRun(f.used, r.value, n) && (n > 0 ==> r.value > 0)
  {
    if NextFit(f, n).Some? { AllocSoundIff(f, n); }
  }

  lemma ReleaseSound(f: Frames, i: nat, n: nat)
    requires Sound(f) && 0 < i && i + n <= f.total
    requires forall p :: i <= p < i + n ==> f.used[p]
    ensures Sound(Release(f, i, n))
    ensures Guarded(f) ==> Guarded(Release(f, i, n))
  {
    CountMark(f.used, i, n, false, f.total);
  }

  /** A single page is refused exactly when nothing is free but, at most, the last page,
      which the first pass never tries. */
  lemma SinglePageIff(f: Frames)
    requires 0 < f.total <= |f.used| && f.hint <= f.total
    ensures NextFit(f, 1).Some?
            <==> exists p :: 0 <= p < f.total && !f.used[p] && (p != f.total - 1 || f.hint == f.total)
  {
    NextFitComplete(f, 1);
    if p: nat :| p < f.total && !f.used[p] && (p != f.total - 1 || f.hint == f.total) {
      assert Covered(f, 1, p) && FreeRun(f.used, p, 1);
    }
    if k: nat :| Covered(f, 1, k) && FreeRun(f.used, k, 1) {
      assert !f.used[k];
    }
  }

  lemma SinglePageSucceeds(f: Frames)
    requires Sound(f) && f.free >= 2
    ensures NextFit(f, 1).Some?
  {
    SinglePageIff(f);
    SomeClear(f.used, f.total - 1);
  }

  lemma {:induction false} SomeClear(used: seq<bool>, n: nat)
    requires n <= |used| && CountClear(used, n) > 0
    ensures exists p :: 0 <= p < n && !used[p]
  {
    if used[n - 1] { SomeClear(used, n - 1); }
  }

  // ---------- every run of allocations and frees ----------

  datatype Run = Run(start: nat, count: nat) {
    predicate Covers(p: int) { start <= p < start + count }
  }

  datatype Op = Take(count: nat) | Give(run: Run)

  /** The allocator together with the runs its callers hold. */
  datatype Ledger = Ledger(frames: Frames, held: set<Run>)

  ghost predicate Enabled(l: Ledger, op: Op) {
    match op
    case Take(n) => 0 < n <= l.frames.total && (NextFit(l.frames, n).Some? ==> Contained(l.frames, n))
    case Give(r) => r in l.held && r.start + r.count <= |l.frames.used|
  }

  ghost function Apply(l: Ledger, op: Op): Ledger
    requires Enabled(l, op)
  {
    match op
    case Take(n) =>
      var (f, r) := Alloc(l.frames, n);
      if r.None? then Ledger(f, l.held) else Ledger(f, l.held + {Run(r.value, n)})
    case Give(r) => Ledger(Release(l.frames, r.start, r.count), l.held - {r})
  }

  ghost predicate ValidOps(l: Ledger, ops: seq<Op>)
    decreases |ops|
  {
    ops == [] || (Enabled(l, ops[0]) && ValidOps(Apply(l, ops[0]), ops[1..]))
  }

  ghost function Exec(l: Ledger, ops: seq<Op>): Ledger
    requires ValidOps(l, ops)
    decreases |ops|
  {
    if ops == [] then l else Exec(Apply(l, ops[0]), ops[1..])
  }

  /** `base` are the pages in use before the first allocation. */
  ghost predicate LedgerInv(base: seq<bool>, l: Ledger) {
    && Sound(l.frames)
    && |base| == |l.frames.used|
    && base[0]
    && (forall r :: r in l.held ==> 0 < r.count && r.start + r.count <= l.frames.total)
    && (forall r, q, p :: r in l.held && q in l.held && r.Covers(p) && q.Covers(p) ==> r == q)
    && (forall r, p :: r in l.held && r.Covers(p) ==> !base[p] && l.frames.used[p])
    && (forall p :: 0 <= p < |base| && l.frames.used[p] && !base[p] ==> exists r :: r in l.held && r.Covers(p))
    && (forall p :: 0 <= p < |base| && base[p] ==> l.frames.used[p])
  }

  lemma TakeInv(base: seq<bool>, l: Ledger, n: nat)
    requires LedgerInv(base, l) && Enabled(l, Take(n))
    ensures LedgerInv(base, Apply(l, Take(n)))
  {
    AllocSound(l.frames, n);
    var (f, r) := Alloc(l.frames, n);
    if r.Some? {
      var run := Run(r.value, n);
      var l' := Apply(l, Take(n));
      assert forall p :: run.Covers(p) ==> !l.frames.used[p];
      forall p | 0 <= p < |base| && l'.frames.used[p] && !base[p]
        ensures exists q :: q in l'.held && q.Covers(p)
      {
        if run.Covers(p) {
          assert run in l'.held;
        } else {
          var q :| q in l.held && q.Covers(p);
          assert q in l'.held;
        }
      }
    }
  }

  lemma GiveInv(base: seq<bool>, l: Ledger, r: Run)
    requires LedgerInv(base, l) && Enabled(l, Give(r))
    ensures LedgerInv(base, Apply(l, Give(r)))
  {
    assert r.Covers(r.start);
    assert forall p :: r.start <= p < r.start + r.count ==> r.Covers(p);
    ReleaseSound(l.frames, r.start, r.count);
    var l' := Apply(l, Give(r));
    forall p | 0 <= p < |base| && l'.frames.used[p] && !base[p]
      ensures exists q :: q in l'.held && q.Covers(p)
    {
      var q :| q in l.held && q.Covers(p);
      assert q in l'.held;
    }
  }

  /** Over every run of allocations and of frees of held runs: the held runs are pairwise
      disjoint, none of them holds a page in use at the start, page 0 in particular, and
      the counter equals the number of free pages. */
  lemma {:induction false} HeldRunsDisjoint(base: seq<bool>, l: Ledger, ops: seq<Op>)
    requires LedgerInv(base, l) && ValidOps(l, ops)
    ensures LedgerInv(base, Exec(l, ops))
    ensures forall r :: r in Exec(l, ops).held ==> !r.Covers(0)
    decreases |ops|
  {
    if ops != [] {
      match ops[0] {
        case Take(n) => TakeInv(base, l, n);
        case Give(r) => GiveInv(base, l, r);
      }
      HeldRunsDisjoint(base, Apply(l, ops[0]), ops[1..]);
    }
  }

  /** Giving back a run just taken restores which pages are used and the counter; only
      the search hint has moved. */
  lemma TakeThenGive(f: Frames, n: nat)
    requires Sound(f) && n <= f.total && Alloc(f, n).1.Some? && Contained(f, n)
    ensures var (g, r) := Alloc(f, n);
            r.value + n <= |g.used| && Release(g, r.value, n) == f.(hint := r.value + n)
  {
    AllocSound(f, n);
    var (g, r) := Alloc(f, n);
    assert Release(g, r.value, n).used == f.used;
  }

  /** The next allocation starts behind the one before, even if that has been given back, as long as
      there is room behind it: pages rest before they are used again. */
  lemma MovesOn(f: Frames, n: nat, m: nat, k: nat)
    requires Sound(f) && n <= f.total && m <= f.total && Alloc(f, n).1.Some? && Contained(f, n)
    requires var i := Alloc(f, n).1.value; Lowest(f.used, i + n, k, m) && k < f.total - m
    ensures var (g, r) := Alloc(f, n);
            && r.value + n <= |g.used|
            && Alloc(Release(g, r.value, n), m).1 == Some(k) && k >= r.value + n
            && Alloc(Release(g, r.value, n), m).0.hint == k + m
  {
    TakeThenGive(f, n);
    NextFitIs(f.(hint := Alloc(f, n).1.value + n), m, k);
  }
}
