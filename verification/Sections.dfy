/** What the shared sections of alpc.c promise, on values: which frames each section owns and
    which virtual windows show them. */
module SectionSpec {
  import opened Common
  import opened Paging
  import A = AddressSpace
  import F = Frames

  /** One slot of the section table; id 0 marks a free slot, phys 0 a failed allocation. */
  datatype Section = Section(id: nat, phys: nat, size: nat, owner: nat) {
    function First(): nat { phys / PAGE_SIZE }
    function Pages(): nat { size / PAGE_SIZE }
    predicate Granted() { id != 0 && phys != 0 }
  }

  const FREE_SLOT := Section(0, 0, 0, 0)
  const SHARED_FLAGS := 7 // PRESENT | WRITABLE | USER

  /** The virtual pages first, first + 1, ... given out by one call of alpc_map_section, and how many
      of them it has mapped so far. */
  datatype Window = Window(first: nat, target: nat, pages: nat, id: nat, shown: nat)

  /** What alpc_create_section holds between taking pages and filing them. */
  datatype Grant = Grant(phys: nat, pages: nat) {
    function First(): nat { phys / PAGE_SIZE }
  }

  /** `pending` are the grants of the threads inside alpc_create_section. */
  datatype World = World(slots: seq<Section>, pending: map<nat, Grant>, windows: seq<Window>, next: nat,
                         trans: map<nat, Leaf>, used: seq<bool>, tables: set<nat>)

  /** Who owns a frame: a filed section, or a thread that has yet to file it. */
  datatype Holder = Slot(i: nat) | Caller(tid: nat)

  ghost predicate FrameOwned(w: World, h: Holder, p: int) {
    match h
    case Slot(i) =>
      && i < |w.slots| && w.slots[i].Granted()
      && w.slots[i].First() <= p < w.slots[i].First() + w.slots[i].Pages()
    case Caller(tid) =>
      && tid in w.pending && w.pending[tid].phys != 0
      && w.pending[tid].First() <= p < w.pending[tid].First() + w.pending[tid].pages
  }

  ghost predicate Backs(w: World, win: Window, i: int) {
    && 0 <= i < |w.slots| && w.slots[i].id == win.id != 0
    && w.slots[i].First() == win.target && w.slots[i].Pages() == win.pages
  }

  ghost predicate Backed(w: World, m: int)
    requires 0 <= m < |w.windows|
  {
    w.windows[m].shown <= w.windows[m].pages && exists i :: Backs(w, w.windows[m], i)
  }

  /** Page j of the window, once mapped, goes to frame j of its section. */
  ghost predicate Shows(w: World, win: Window, j: int) {
    0 <= j < win.shown ==> win.first + j in w.trans && w.trans[win.first + j] == Leaf(win.target + j, SHARED_FLAGS)
  }

  ghost predicate TableInUse(w: World, t: nat) {
    t in w.tables ==> t < |w.used| && w.used[t]
  }

  ghost predicate OwnIds(w: World, i: int, k: int) {
    0 <= i < k < |w.slots| && w.slots[i].id == w.slots[k].id ==> w.slots[i].id == 0
  }

  ghost predicate InOrder(w: World, m: int, n: int) {
    0 <= m < n < |w.windows| ==> w.windows[m].first + w.windows[m].pages <= w.windows[n].first
  }

  ghost predicate EndsBelow(w: World, m: int) {
    0 <= m < |w.windows| ==> w.windows[m].first + w.windows[m].pages <= w.next
  }

  ghost predicate Inv(w: World) {
    // an owned frame is in use, is no page table and has one owner
    && (forall h, p {:trigger FrameOwned(w, h, p)} ::
          FrameOwned(w, h, p) ==> p < |w.used| && w.used[p] && p !in w.tables)
    && (forall h, k, p {:trigger FrameOwned(w, h, p), FrameOwned(w, k, p)} ::
          FrameOwned(w, h, p) && FrameOwned(w, k, p) ==> h == k)
    && (forall t {:trigger TableInUse(w, t)} :: TableInUse(w, t))
    && (forall i, k {:trigger OwnIds(w, i, k)} :: OwnIds(w, i, k))
    // windows lie one after the other below the next free address
    && (forall m, n {:trigger InOrder(w, m, n)} :: InOrder(w, m, n))
    && (forall m {:trigger EndsBelow(w, m)} :: EndsBelow(w, m))
    && (forall m, j {:trigger Shows(w, w.windows[m], j)} :: 0 <= m < |w.windows| ==> Shows(w, w.windows[m], j))
    && (forall m {:trigger Backed(w, m)} :: 0 <= m < |w.windows| ==> Backed(w, m))
  }

  // ---------- the steps ----------

  /** The first half of alpc_create_section: thread tid takes n pages, or none when the search fails. */
  ghost predicate Reserved(a: World, b: World, tid: nat, run: Option<nat>, n: nat) {
    && tid !in a.pending
    && b == a.(used := b.used, pending := a.pending[tid := Grant(if run.Some? then run.value * PAGE_SIZE else 0, n)])
    && (run.Some? ==> F.FreeRun(a.used, run.value, n) && b.used == F.Mark(a.used, run.value, n, true))
    && (run.None? ==> b.used == a.used)
  }

  /** The second half: the grant of thread tid goes into a free slot, or is lost when there is none. */
  ghost predicate Filed(a: World, b: World, tid: nat, k: Option<nat>, s: Section) {
    && tid in a.pending
    && s.id != 0 && (forall i :: 0 <= i < |a.slots| ==> a.slots[i].id != s.id)
    && s.phys == a.pending[tid].phys && s.Pages() == a.pending[tid].pages && s.owner == tid
    && (k.Some? ==> k.value < |a.slots| && a.slots[k.value].id == 0)
    && b == a.(pending := a.pending - {tid}, slots := if k.Some? then a.slots[k.value := s] else a.slots)
  }

  /** The first half of alpc_map_section: a range of addresses is set aside for the section in slot k. */
  ghost predicate Opened(a: World, b: World, k: int) {
    && 0 <= k < |a.slots| && a.slots[k].id != 0
    && b == a.(windows := a.windows + [Window(a.next, a.slots[k].First(), a.slots[k].Pages(), a.slots[k].id, 0)],
               next := a.next + a.slots[k].Pages())
  }

  /** New page tables lie on pages that were free; nothing in use becomes free. */
  ghost predicate TablesGrew(a: World, b: World) {
    && |b.used| == |a.used|
    && (forall p {:trigger PageKept(a, b, p)} :: PageKept(a, b, p))
    && (forall t {:trigger TableFrom(a, b, t)} :: TableFrom(a, b, t))
    && (forall t {:trigger TableInUse(b, t)} :: TableInUse(b, t))
  }

  ghost predicate PageKept(a: World, b: World, p: int) {
    0 <= p < |a.used| == |b.used| && a.used[p] ==> b.used[p]
  }

  ghost predicate TableFrom(a: World, b: World, t: nat) {
    t in b.tables ==> t in a.tables || (t < |a.used| && !a.used[t])
  }

  /** One turn of the loop of alpc_map_section: the next page of window m is mapped. */
  ghost predicate PageShown(a: World, b: World, m: int) {
    && 0 <= m < |a.windows| && a.windows[m].shown < a.windows[m].pages
    && var w := a.windows[m];
       && b == a.(windows := a.windows[m := w.(shown := w.shown + 1)], used := b.used, tables := b.tables,
                  trans := a.trans[w.first + w.shown := Leaf(w.target + w.shown, SHARED_FLAGS)])
       && TablesGrew(a, b)
  }

  /** Anything else in the kernel: it maps only pages outside the windows, and takes and gives back
      only pages that are neither page tables nor owned by a section. */
  ghost predicate Elsewhere(a: World, b: World) {
    && b == a.(trans := b.trans, used := b.used, tables := b.tables)
    && (forall m, v :: InWindow(a, m, v) ==> Lookup(b.trans, v) == Lookup(a.trans, v))
    && |b.used| == |a.used|
    && (forall h, p {:trigger FrameOwned(a, h, p)} :: FrameOwned(a, h, p) && p < |a.used| ==> b.used[p] == a.used[p])
    && (forall t {:trigger TableFrom(a, b, t)} :: TableFrom(a, b, t))
    && (forall t {:trigger TableInUse(b, t)} :: TableInUse(b, t))
  }

  /** Virtual page v belongs to window m. */
  ghost predicate InWindow(w: World, m: int, v: nat) {
    0 <= m < |w.windows| && w.windows[m].first <= v < w.windows[m].first + w.windows[m].pages
  }

  // ---------- each step keeps the invariant ----------

  /** Slots, windows and tables are as they were, or have grown at the end. */
  lemma SameOrder(a: World, b: World)
    requires Inv(a) && |b.slots| == |a.slots| && |b.windows| == |a.windows| && b.next == a.next
    requires forall i :: 0 <= i < |a.slots| ==> b.slots[i].id == a.slots[i].id
    requires forall m :: 0 <= m < |a.windows| ==> b.windows[m] == a.windows[m].(shown := b.windows[m].shown)
    ensures forall i, k {:trigger OwnIds(b, i, k)} :: OwnIds(b, i, k)
    ensures forall m, n {:trigger InOrder(b, m, n)} :: InOrder(b, m, n)
    ensures forall m {:trigger EndsBelow(b, m)} :: EndsBelow(b, m)
  {
    forall i, k ensures OwnIds(b, i, k) { assert OwnIds(a, i, k); }
    forall m, n ensures InOrder(b, m, n) { assert InOrder(a, m, n); }
    forall m ensures EndsBelow(b, m) { assert EndsBelow(a, m); }
  }

  lemma ReserveKeeps(a: World, b: World, tid: nat, run: Option<nat>, n: nat)
    requires Inv(a) && Reserved(a, b, tid, run, n)
    ensures Inv(b)
  {
    forall h, p | FrameOwned(b, h, p) ensures p < |b.used| && b.used[p] && p !in b.tables {
      assert h != Caller(tid) ==> FrameOwned(a, h, p);
      assert TableInUse(a, p);
    }
    forall t ensures TableInUse(b, t) { assert TableInUse(a, t); }
    SameOrder(a, b);
    forall h, k, p | FrameOwned(b, h, p) && FrameOwned(b, k, p) ensures h == k {
      assert h != Caller(tid) ==> FrameOwned(a, h, p);
      assert k != Caller(tid) ==> FrameOwned(a, k, p);
    }
    SameWindows(a, b);
  }

  /** The windows and what they show are as they were, and the slots that back them too. */
  lemma SameWindows(a: World, b: World)
    requires Inv(a) && b.windows == a.windows && |b.slots| == |a.slots|
    requires forall m, v :: InWindow(a, m, v) ==> Lookup(b.trans, v) == Lookup(a.trans, v)
    requires forall i :: 0 <= i < |a.slots| && a.slots[i].id != 0 ==> b.slots[i] == a.slots[i]
    ensures forall m, j {:trigger Shows(b, b.windows[m], j)} :: 0 <= m < |b.windows| ==> Shows(b, b.windows[m], j)
    ensures forall m {:trigger Backed(b, m)} :: 0 <= m < |b.windows| ==> Backed(b, m)
  {
    forall m, j | 0 <= m < |b.windows| ensures Shows(b, b.windows[m], j) {
      assert Shows(a, a.windows[m], j) && Backed(a, m);
      assert 0 <= j < a.windows[m].shown ==> InWindow(a, m, a.windows[m].first + j);
    }
    forall m | 0 <= m < |b.windows| ensures Backed(b, m) {
      assert Backed(a, m);
      var i :| Backs(a, a.windows[m], i);
      assert Backs(b, b.windows[m], i);
    }
  }

  lemma FileKeeps(a: World, b: World, tid: nat, k: Option<nat>, s: Section)
    requires Inv(a) && Filed(a, b, tid, k, s)
    ensures Inv(b)
  {
    forall h, p | FrameOwned(b, h, p) ensures FrameOwned(a, Before(h, tid, k), p) {}
    forall h, p | FrameOwned(b, h, p) ensures p < |b.used| && b.used[p] && p !in b.tables {
      assert FrameOwned(a, Before(h, tid, k), p);
    }
    forall h, g, p | FrameOwned(b, h, p) && FrameOwned(b, g, p) ensures h == g {
      assert FrameOwned(a, Before(h, tid, k), p) && FrameOwned(a, Before(g, tid, k), p);
      assert h != Caller(tid) && g != Caller(tid);
    }
    SameWindows(a, b);
    forall i, j ensures OwnIds(b, i, j) { assert OwnIds(a, i, j); }
    forall m, n ensures InOrder(b, m, n) { assert InOrder(a, m, n); }
    forall m ensures EndsBelow(b, m) { assert EndsBelow(a, m); }
    forall t ensures TableInUse(b, t) { assert TableInUse(a, t); }
  }

  /** Who held the frames of h before thread tid filed its grant in slot k. */
  ghost function Before(h: Holder, tid: nat, k: Option<nat>): Holder {
    if k.Some? && h == Slot(k.value) then Caller(tid) else h
  }

  lemma OpenKeeps(a: World, b: World, k: int)
    requires Inv(a) && Opened(a, b, k)
    ensures Inv(b)
  {
    forall t ensures TableFrom(a, b, t) && TableInUse(b, t) { assert TableInUse(a, t); }
    SameOwners(a, b);
    var last := |a.windows|;
    forall i, j ensures OwnIds(b, i, j) { assert OwnIds(a, i, j); }
    forall m, n ensures InOrder(b, m, n) { assert InOrder(a, m, n) && EndsBelow(a, m); }
    forall m ensures EndsBelow(b, m) { assert EndsBelow(a, m); }
    forall m, j | 0 <= m < |b.windows| ensures Shows(b, b.windows[m], j) {
      assert m < last ==> Shows(a, a.windows[m], j);
    }
    forall m | 0 <= m < |b.windows| ensures Backed(b, m) {
      if m < last {
        assert Backed(a, m);
        var i :| Backs(a, a.windows[m], i);
        assert Backs(b, b.windows[m], i);
      } else {
        assert Backs(b, b.windows[m], k);
      }
    }
  }

  lemma SameOwners(a: World, b: World)
    requires Inv(a) && b.slots == a.slots && b.pending == a.pending && |b.used| == |a.used|
    requires forall h, p {:trigger FrameOwned(a, h, p)} ::
               FrameOwned(a, h, p) && p < |a.used| ==> b.used[p] == a.used[p]
    requires forall t {:trigger TableFrom(a, b, t)} :: TableFrom(a, b, t)
    ensures forall h, p {:trigger FrameOwned(b, h, p)} ::
              FrameOwned(b, h, p) ==> p < |b.used| && b.used[p] && p !in b.tables
    ensures forall h, k, p {:trigger FrameOwned(b, h, p), FrameOwned(b, k, p)} ::
              FrameOwned(b, h, p) && FrameOwned(b, k, p) ==> h == k
  {
    forall h, p | FrameOwned(b, h, p) ensures p < |b.used| && b.used[p] && p !in b.tables {
      assert FrameOwned(a, h, p) && TableFrom(a, b, p);
    }
    forall h, k, p | FrameOwned(b, h, p) && FrameOwned(b, k, p) ensures h == k {
      assert FrameOwned(a, h, p) && FrameOwned(a, k, p);
    }
  }

  lemma ShowKeeps(a: World, b: World, m: int)
    requires Inv(a) && PageShown(a, b, m)
    ensures Inv(b)
  {
    forall h, p | FrameOwned(a, h, p) && p < |a.used| ensures b.used[p] == a.used[p] { assert PageKept(a, b, p); }
    SameOwners(a, b);
    SameOrder(a, b);
    forall n, j | 0 <= n < |b.windows| ensures Shows(b, b.windows[n], j) {
      assert Shows(a, a.windows[n], j) && Backed(a, n) && Backed(a, m) && InOrder(a, m, n) && InOrder(a, n, m);
    }
    forall n | 0 <= n < |b.windows| ensures Backed(b, n) {
      assert Backed(a, n);
      var i :| Backs(a, a.windows[n], i);
      assert Backs(b, b.windows[n], i);
    }
  }

  lemma ElsewhereKeeps(a: World, b: World)
    requires Inv(a) && Elsewhere(a, b)
    ensures Inv(b)
  {
    SameOrder(a, b);
    SameOwners(a, b);
    SameWindows(a, b);
  }

  // ---------- every interleaving of the steps ----------

  ghost predicate Step(a: World, b: World) {
    || (exists tid, run, n :: Reserved(a, b, tid, run, n))
    || (exists tid, k, s :: Filed(a, b, tid, k, s))
    || (exists k :: Opened(a, b, k))
    || (exists m :: PageShown(a, b, m))
    || Elsewhere(a, b)
  }

  ghost predicate Run(ws: seq<World>) {
    |ws| > 0 && forall i :: 0 <= i < |ws| - 1 ==> Step(ws[i], ws[i + 1])
  }

  /** Window m of the first world is still there, with at least as many pages mapped. */
  ghost predicate Remains(a: World, b: World, m: int)
    requires 0 <= m < |a.windows|
  {
    m < |b.windows| && a.windows[m].shown <= b.windows[m].shown
    && b.windows[m] == a.windows[m].(shown := b.windows[m].shown)
  }

  lemma StepKeeps(a: World, b: World)
    requires Inv(a) && Step(a, b)
    ensures Inv(b) && forall m :: 0 <= m < |a.windows| ==> Remains(a, b, m)
  {
    if tid, run, n :| Reserved(a, b, tid, run, n) {
      ReserveKeeps(a, b, tid, run, n);
    } else if tid, k, s :| Filed(a, b, tid, k, s) {
      FileKeeps(a, b, tid, k, s);
    } else if k :| Opened(a, b, k) {
      OpenKeeps(a, b, k);
    } else if m :| PageShown(a, b, m) {
      ShowKeeps(a, b, m);
    } else {
      ElsewhereKeeps(a, b);
    }
  }

  /** In every run the invariant is kept, and windows stay and lose no page. */
  lemma {:induction false} RunKeeps(ws: seq<World>)
    requires Run(ws) && Inv(ws[0])
    ensures var a, z := ws[0], ws[|ws| - 1];
            Inv(z) && forall m :: 0 <= m < |a.windows| ==> Remains(a, z, m)
    decreases |ws|
  {
    if |ws| > 1 {
      var front := ws[..|ws| - 1];
      var a, b := ws[|ws| - 2], ws[|ws| - 1];
      assert forall i :: 0 <= i < |front| - 1 ==> Step(front[i], front[i + 1]);
      RunKeeps(front);
      assert front[|front| - 1] == a && Step(a, b);
      StepKeeps(a, b);
      forall m | 0 <= m < |ws[0].windows| ensures Remains(ws[0], b, m) {
        assert Remains(ws[0], a, m) && Remains(a, b, m);
      }
    }
  }

  /** The frame seen through page j of window m. */
  ghost function SeenThrough(w: World, m: nat, j: nat): Option<Leaf>
    requires m < |w.windows|
  {
    Lookup(w.trans, w.windows[m].first + j)
  }

  /** Stability: in every run, whatever other threads create and map meanwhile, a window that exists
      stays, and a page of it that was mapped still goes to its frame of the section. */
  lemma WindowsStable(ws: seq<World>, m: nat, j: nat)
    requires Run(ws) && Inv(ws[0]) && m < |ws[0].windows| && j < ws[0].windows[m].shown
    ensures var z := ws[|ws| - 1];
            && Remains(ws[0], z, m)
            && SeenThrough(z, m, j) == SeenThrough(ws[0], m, j) == Some(Leaf(ws[0].windows[m].target + j, 7))
  {
    RunKeeps(ws);
    assert Remains(ws[0], ws[|ws| - 1], m);
    assert Shows(ws[0], ws[0].windows[m], j);
    assert Shows(ws[|ws| - 1], ws[|ws| - 1].windows[m], j);
  }

  /** Isolation, in every run: windows of different calls have no virtual page in common, two
      windows of one section alias page by page as far as both are mapped, and no frame belongs to
      two sections. */
  lemma SectionsIsolated(ws: seq<World>)
    requires Run(ws) && Inv(ws[0])
    ensures var z := ws[|ws| - 1];
            && (forall m, n, v :: InWindow(z, m, v) && InWindow(z, n, v) ==> m == n)
            && (forall h, k, p :: FrameOwned(z, h, p) && FrameOwned(z, k, p) ==> h == k)
            && forall m: nat, n: nat, j: nat :: m < |z.windows| && n < |z.windows| && z.windows[m].id == z.windows[n].id
                 ==> j < z.windows[m].shown && j < z.windows[n].shown ==> SeenThrough(z, m, j) == SeenThrough(z, n, j)
  {
    RunKeeps(ws);
    var z := ws[|ws| - 1];
    forall m, n, v | InWindow(z, m, v) && InWindow(z, n, v) ensures m == n {
      assert InOrder(z, m, n) && InOrder(z, n, m);
    }
    forall m: nat, n: nat, j: nat | m < |z.windows| && n < |z.windows| && z.windows[m].id == z.windows[n].id
      && j < z.windows[m].shown && j < z.windows[n].shown
      ensures SeenThrough(z, m, j) == SeenThrough(z, n, j)
    {
      assert Backed(z, m) && Backed(z, n);
      var i :| Backs(z, z.windows[m], i);
      var k :| Backs(z, z.windows[n], k);
      assert OwnIds(z, i, k) && OwnIds(z, k, i);
      assert Shows(z, z.windows[m], j) && Shows(z, z.windows[n], j);
    }
  }

  ghost predicate SlotCovers(s: Section, p: int) {
    s.First() <= p < s.First() + s.Pages()
  }

  /** A failed allocation is not refused: its section claims the frames from 0 up. Two sections
      in use share a frame exactly when one of them failed and reaches up to the other. */
  lemma SharedFrameIff(w: World, i: nat, k: nat)
    requires Inv(w) && i < |w.slots| && k < |w.slots| && i != k
    requires w.slots[i].id != 0 && w.slots[i].Pages() > 0 && w.slots[k].id != 0 && w.slots[k].Pages() > 0
    ensures (exists p :: SlotCovers(w.slots[i], p) && SlotCovers(w.slots[k], p))
            <==> || (w.slots[i].phys == 0 && w.slots[k].First() < w.slots[i].Pages())
                 || (w.slots[k].phys == 0 && w.slots[i].First() < w.slots[k].Pages())
  {
    var a, b := w.slots[i], w.slots[k];
    if p :| SlotCovers(a, p) && SlotCovers(b, p) {
      if a.phys != 0 && b.phys != 0 { assert FrameOwned(w, Slot(i), p) && FrameOwned(w, Slot(k), p); }
    }
    if a.phys == 0 && b.First() < a.Pages() { assert SlotCovers(a, b.First()) && SlotCovers(b, b.First()); }
    if b.phys == 0 && a.First() < b.Pages() { assert SlotCovers(b, a.First()) && SlotCovers(a, a.First()); }
  }

  /** Once the last free page is taken every request for pages fails, wherever the search starts. */
  lemma LastPage(used: seq<bool>, total: nat, q: nat, n: nat, hint: nat)
    requires 0 < q < total - 1 && 0 < n <= total && hint <= total
    requires |used| == total && (forall p :: 0 <= p < total ==> used[p] == (p != q))
    ensures F.FreeRun(used, q, 1) && F.NextFit(F.Frames(used, total, hint, 1), 1) == Some(q)
    ensures F.NextFit(F.Frames(F.Mark(used, q, 1, true), total, q + 1, 0), n) == None
  {
    var f, full := F.Frames(used, total, hint, 1), F.Mark(used, q, 1, true);
    F.NextFitComplete(f, 1);
    assert F.Covered(f, 1, q) && F.FreeRun(used, q, 1);
    assert forall k: nat :: F.FreeRun(used, k, 1) ==> !used[k];
    F.NextFitComplete(F.Frames(full, total, q + 1, 0), n);
    assert forall k: nat :: F.FreeRun(full, k, n) ==> !full[k];
  }

  lemma EmptyInv(w: World)
    requires w.slots == seq(|w.slots|, _ => FREE_SLOT) && w.pending == map[] && w.windows == []
    requires forall t :: t in w.tables ==> t < |w.used| && w.used[t]
    ensures Inv(w)
  {
  }

  /** Two sections that share a frame: one free page q is left. The first section gets it; the
      second asks for q + 1 pages, gets none and claims the frames from 0 to q. */
  lemma SharedFrameHappens(a: World, total: nat, q: nat, n: nat, tid: nat, hint: nat) returns (ws: seq<World>)
    requires 0 < q < total - 1 && hint <= total && n >= 2 && a.slots == seq(n, _ => FREE_SLOT)
    requires a.windows == [] && a.pending == map[]
    requires |a.used| == total && (forall p :: 0 <= p < total ==> a.used[p] == (p != q))
    requires forall t :: t in a.tables ==> t < total && t != q
    ensures |ws| == 5 && ws[0] == a && Run(ws) && Inv(a)
    ensures F.NextFit(F.Frames(a.used, total, hint, 1), 1) == Some(q)
    ensures F.NextFit(F.Frames(ws[2].used, total, q + 1, 0), q + 1) == None
    ensures |ws[4].slots| == n
    ensures ws[4].slots[..2] == [Section(1, q * PAGE_SIZE, PAGE_SIZE, tid), Section(2, 0, (q + 1) * PAGE_SIZE, tid)]
    ensures SlotCovers(ws[4].slots[0], q) && SlotCovers(ws[4].slots[1], q)
  {
    var s1, s2 := Section(1, q * PAGE_SIZE, PAGE_SIZE, tid), Section(2, 0, (q + 1) * PAGE_SIZE, tid);
    LastPage(a.used, total, q, q + 1, hint);
    EmptyInv(a);
    var b := a.(pending := map[tid := Grant(q * PAGE_SIZE, 1)], used := F.Mark(a.used, q, 1, true));
    var c := b.(pending := map[], slots := a.slots[0 := s1]);
    var d := c.(pending := map[tid := Grant(0, q + 1)]);
    var e := d.(pending := map[], slots := c.slots[1 := s2]);
    ws := [a, b, c, d, e];
    SharedSizes(q, s1, s2);
    assert Reserved(a, b, tid, Some(q), 1);
    assert Filed(b, c, tid, Some(0), s1);
    assert Reserved(c, d, tid, None, q + 1);
    assert Filed(d, e, tid, Some(1), s2);
  }

  lemma SharedSizes(q: nat, s1: Section, s2: Section)
    requires q > 0 && s1.phys == q * PAGE_SIZE && s1.size == PAGE_SIZE && s2.phys == 0 && s2.size == (q + 1) * PAGE_SIZE
    ensures s1.First() == q && s1.Pages() == 1 && s2.First() == 0 && s2.Pages() == q + 1
    ensures SlotCovers(s1, q) && SlotCovers(s2, q)
  {
  }

  // ---------- pages set aside ----------

  /** Page p is in use and neither a page table nor part of a section. */
  ghost predicate SetAside(w: World, p: nat) {
    p < |w.used| && w.used[p] && p !in w.tables && forall h {:trigger FrameOwned(w, h, p)} :: !FrameOwned(w, h, p)
  }

  /** Pages handed out for something else, such as the heap's pool, are set aside from then on. */
  lemma TakenAside(w: World, f: F.Frames, n: nat, p: nat)
    requires Inv(w) && f.used == w.used && n <= f.total && F.NextFit(f, n).Some?
    requires F.NextFit(f, n).value <= p < F.NextFit(f, n).value + n
    ensures var z := w.(used := F.Alloc(f, n).0.used);
            Elsewhere(w, z) && Inv(z) && SetAside(z, p)
  {
    var z := w.(used := F.Alloc(f, n).0.used);
    assert !w.used[p];
    forall h ensures !FrameOwned(z, h, p) { assert FrameOwned(z, h, p) ==> FrameOwned(w, h, p); }
    forall t ensures TableFrom(w, z, t) && TableInUse(z, t) { assert TableInUse(w, t); }
    assert TableInUse(w, p);
    assert Elsewhere(w, z);
    ElsewhereKeeps(w, z);
  }

  lemma AsideStep(a: World, b: World, p: nat)
    requires Inv(a) && Step(a, b) && SetAside(a, p) && p < |b.used| && b.used[p]
    ensures SetAside(b, p)
  {
    assert TableFrom(a, b, p);
    forall h ensures !FrameOwned(b, h, p) {
      assert !FrameOwned(a, h, p);
      if tid, k, s :| Filed(a, b, tid, k, s) { assert !FrameOwned(a, Before(h, tid, k), p); }
    }
  }

  /** In every run pages set aside stay so until they are given back: neither a section nor a page
      table ever comes to lie on the heap. */
  lemma {:induction false} AsideForever(ws: seq<World>, p: nat)
    requires Run(ws) && Inv(ws[0]) && SetAside(ws[0], p)
    requires forall i :: 0 <= i < |ws| ==> p < |ws[i].used| && ws[i].used[p]
    ensures SetAside(ws[|ws| - 1], p)
    decreases |ws|
  {
    if |ws| > 1 {
      var init := ws[..|ws| - 1];
      assert Run(init);
      AsideForever(init, p);
      RunKeeps(init);
      assert Step(ws[|ws| - 2], ws[|ws| - 1]);
      AsideStep(ws[|ws| - 2], ws[|ws| - 1], p);
    }
  }
}

/** The section half of alpc.c: the table of 64 slots, the id counter and the next address. */
module Sections {
  import opened Common
  import opened Paging
  import opened SectionSpec
  import A = AddressSpace
  import F = Frames

  const SLOTS := 64
  const FIRST_VIRT := 0x80_0000_0000

  /** Ids are below the counter, and phys and size are whole pages. */
  ghost predicate Orderly(slots: seq<Section>, nextId: nat) {
    && nextId > 0
    && forall i {:trigger slots[i]} :: 0 <= i < |slots| ==>
         && slots[i].id < nextId && slots[i].size % PAGE_SIZE == 0 && slots[i].phys % PAGE_SIZE == 0
         && (slots[i].id == 0 ==> slots[i].size == 0)
  }

  /** What growing the page tables means for the frames in use. */
  lemma TablesKept(a: World, b: World, c: A.Snapshot, d: A.Snapshot)
    requires A.Grew(c, d) && a.used == c.used && b.used == d.used && a.tables == c.at.Values && b.tables == d.at.Values
    requires forall k {:trigger A.TableUsed(d.at, d.used, d.total, k)} :: A.TableUsed(d.at, d.used, d.total, k)
    ensures TablesGrew(a, b)
  {
    forall p: int ensures PageKept(a, b, p) {
      if p >= 0 { assert A.PageKept(c, d, p); }
    }
    forall t: nat ensures TableFrom(a, b, t) && TableInUse(b, t) {
      if t in b.tables {
        var k :| k in d.at && d.at[k] == t;
        assert A.TableKept(c, d, k) && A.TableFresh(c, d, k) && A.TableUsed(d.at, d.used, d.total, k);
      }
    }
  }

  /** What ShowPage does, on values. */
  lemma FiledKeeps(a: World, b: World, tid: nat, k: Option<nat>, s: Section)
    requires Inv(a) && exists nextId: nat :: Orderly(a.slots, nextId) && s.id == nextId
    requires tid in a.pending && s.phys == a.pending[tid].phys && s.owner == tid
    requires s.size == a.pending[tid].pages * PAGE_SIZE
    requires k.Some? ==> k.value < |a.slots| && a.slots[k.value].id == 0
    requires b == a.(pending := a.pending - {tid}, slots := if k.Some? then a.slots[k.value := s] else a.slots)
    ensures Filed(a, b, tid, k, s) && Inv(b)
  {
    FileKeeps(a, b, tid, k, s);
  }

  /** The section in slot k has a window after all others, and the first j pages of it are mapped. */
  ghost predicate Exposed(a: World, b: World, k: int, j: nat) {
    && 0 <= k < |a.slots| && b.slots == a.slots && b.pending == a.pending
    && var s := a.slots[k];
       && b.windows == a.windows + [Window(a.next, s.First(), s.Pages(), s.id, j)]
       && b.next == a.next + s.Pages()
       && b.trans == A.Shown(a.trans, a.next, s.First(), j, SHARED_FLAGS)
  }

  lemma ExposedMore(a: World, b: World, c: World, k: int, j: nat)
    requires Exposed(a, b, k, j) && PageShown(b, c, |a.windows|)
    ensures Exposed(a, c, k, j + 1)
  {
    var w := b.windows[|a.windows|];
    assert c.windows == a.windows + [w.(shown := j + 1)];
  }

  ghost function Extend(ws: seq<World>, w: World): (r: seq<World>)
    requires Run(ws) && Step(ws[|ws| - 1], w)
    ensures Run(r) && r == ws + [w]
  {
    ws + [w]
  }

  /** The window of a section: its first page, the section's frames and its length in bytes. */
  lemma WindowBytes(a: World, b: World, k: int, virt: nat)
    requires Opened(a, b, k) && a.next == Frame(virt) && a.slots[k].size % PAGE_SIZE == 0
    ensures var w := b.windows[|a.windows|];
            && w.first == Frame(virt) && w.target == Frame(a.slots[k].phys) && w.shown == 0
            && w.pages == a.slots[k].Pages() && PAGE_SIZE * w.pages == a.slots[k].size
            && Exposed(a, b, k, 0)
  {
  }

  class Sections {
    const space: A.AddressSpace
    const slots: array<Section>
    var nextId: nat
    var nextVirt: nat
    ghost var windows: seq<Window>
    ghost var pending: map<nat, Grant>

    ghost function Now(): World
      reads this, slots, space, space.ram, space.pmm, space.pmm.bitmap
    {
      World(slots[..], pending, windows, nextVirt / PAGE_SIZE, space.trans, space.pmm.Bits(), space.at.Values)
    }

    ghost predicate Valid()
      reads this, slots, space, space.ram, space.pmm, space.pmm.bitmap
    {
      && slots.Length == SLOTS
      && slots as object != space.ram && slots as object != space.pmm.bitmap
      && space.Valid()
      && nextVirt % PAGE_SIZE == 0 && nextVirt >= FIRST_VIRT && Orderly(slots[..], nextId)
      && Inv(Now())
    }

    /** alpc_init. */
    constructor (space: A.AddressSpace)
      requires space.Valid()
      ensures Valid() && this.space == space && nextId == 1 && nextVirt == 0x80_0000_0000
      ensures windows == [] && pending == map[] && slots[..] == seq(64, _ => Section(0, 0, 0, 0))
    {
      this.space := space;
      slots := new Section[SLOTS](_ => FREE_SLOT);
      nextId, nextVirt, windows, pending := 1, FIRST_VIRT, [], map[];
      new;
      forall t ensures TableInUse(Now(), t) {
        if t in space.at.Values {
          var k :| k in space.at && space.at[k] == t;
          assert A.TableUsed(space.at, space.pmm.Bits(), space.pmm.totalPages, k);
        }
      }
    }

    /** The first slot with the given id. */
    method Find(id: nat) returns (k: Option<nat>)
      requires slots.Length == SLOTS
      ensures k.Some? ==> k.value < SLOTS && slots[k.value].id == id
      ensures k.Some? ==> forall i :: 0 <= i < k.value ==> slots[i].id != id
      ensures k.None? ==> forall i :: 0 <= i < SLOTS ==> slots[i].id != id
    {
      for i := 0 to SLOTS
        invariant forall j :: 0 <= j < i ==> slots[j].id != id
      {
        if slots[i].id == id { return Some(i); }
      }
      return None;
    }

    /** Takes n pages; the address space is not disturbed. */
    method TakeRun(n: nat) returns (phys: nat, ghost run: Option<nat>)
      requires space.Valid() && n <= space.pmm.totalPages && space.pmm.lastSearch + n <= 8 * space.pmm.bitmap.Length + 1
      requires F.NextFit(space.pmm.Model(), n).Some? ==> F.Contained(space.pmm.Model(), n)
      modifies space.pmm, space.pmm.bitmap
      ensures space.Valid() && space.pmm.totalPages == old(space.pmm.totalPages)
      ensures run == F.NextFit(old(space.pmm.Model()), n) && space.pmm.Model() == F.Alloc(old(space.pmm.Model()), n).0
      ensures phys == if run.Some? then run.value * PAGE_SIZE else 0
      ensures run.Some? ==> F.FreeRun(old(space.pmm.Bits()), run.value, n)
      ensures run.Some? ==> space.pmm.Bits() == F.Mark(old(space.pmm.Bits()), run.value, n, true)
      ensures run.None? ==> space.pmm.Bits() == old(space.pmm.Bits())
    {
      ghost var f := space.pmm.Model();
      F.AllocSound(f, n);
      run := F.NextFit(f, n);
      phys := space.pmm.Alloc(n);
      forall k ensures A.TableUsed(space.at, space.pmm.Bits(), space.pmm.totalPages, k) {
        assert A.TableUsed(space.at, f.used, space.pmm.totalPages, k);
      }
    }

    /** The first half of alpc_create_section: n pages for thread tid. A failed search is not noticed. */
    method Reserve(n: nat, tid: nat) returns (phys: nat, ghost run: Option<nat>)
      requires Valid() && tid !in pending && n <= space.pmm.totalPages
      requires space.pmm.lastSearch + n <= 8 * space.pmm.bitmap.Length + 1
      requires F.NextFit(space.pmm.Model(), n).Some? ==> F.Contained(space.pmm.Model(), n)
      modifies this`pending, space.pmm, space.pmm.bitmap
      ensures Valid() && space.pmm.totalPages == old(space.pmm.totalPages)
      ensures run == F.NextFit(old(space.pmm.Model()), n) && space.pmm.Model() == F.Alloc(old(space.pmm.Model()), n).0
      ensures phys == (if run.Some? then run.value * PAGE_SIZE else 0) && pending == old(pending)[tid := Grant(phys, n)]
      ensures Reserved(old(Now()), Now(), tid, run, n)
    {
      ghost var before := Now();
      phys, run := TakeRun(n);
      pending := pending[tid := Grant(phys, n)];
      ReserveKeeps(before, Now(), tid, run, n);
    }

    /** Files a section of n pages at phys in the first free slot. */
    method File(n: nat, phys: nat, tid: nat) returns (id: nat, ghost k: Option<nat>, ghost s: Section)
      requires slots.Length == SLOTS && Orderly(slots[..], nextId) && phys % PAGE_SIZE == 0
      modifies this`nextId, slots
      ensures Orderly(slots[..], nextId)
      ensures nextId == old(nextId) + 1 && s == Section(old(nextId), phys, n * PAGE_SIZE, tid)
      ensures k.Some? ==> k.value < SLOTS && old(slots[k.value].id) == 0 && id == s.id
      ensures k.Some? ==> slots[..] == old(slots[..])[k.value := s]
      ensures k.Some? ==> forall i :: 0 <= i < k.value ==> old(slots[i].id) != 0
      ensures k.None? ==> forall i :: 0 <= i < SLOTS ==> old(slots[i].id) != 0
      ensures k.None? ==> slots[..] == old(slots[..]) && id == 0
    {
      id := nextId;
      nextId := nextId + 1;
      s := Section(id, phys, n * PAGE_SIZE, tid);
      var slot := Find(0);
      k := slot;
      if slot.Some? {
        slots[slot.value] := Section(id, phys, n * PAGE_SIZE, tid);
      } else {
        id := 0;
      }
    }

    /** The second half of alpc_create_section. */
    method Enter(n: nat, phys: nat, tid: nat) returns (id: nat, ghost k: Option<nat>, ghost s: Section)
      requires Valid() && tid in pending && pending[tid] == Grant(phys, n) && phys % PAGE_SIZE == 0
      modifies this`nextId, this`pending, slots
      ensures Valid() && nextId == old(nextId) + 1 && s == Section(old(nextId), phys, n * PAGE_SIZE, tid)
      ensures Filed(old(Now()), Now(), tid, k, s) && id == if k.Some? then s.id else 0
      ensures forall i :: 0 <= i < (if k.Some? then k.value else SLOTS) ==> old(slots[i].id) != 0
    {
      ghost var before := Now();
      id, k, s := File(n, phys, tid);
      pending := pending - {tid};
      ghost var filed := if k.Some? then before.slots[k.value := s] else before.slots;
      ghost var after := before.(slots := filed, pending := pending);
      assert Now() == after;
      FiledKeeps(before, after, tid, k, s);
    }

    /** alpc_create_section, when nothing comes between its halves: 0 when the table is full. A full
        table loses the pages taken. */
    method Create(size: nat, tid: nat)
      returns (id: nat, ghost run: Option<nat>, ghost k: Option<nat>, ghost s: Section, ghost mid: World)
      requires Valid() && tid !in pending
      requires var n := (size + 4095) / PAGE_SIZE;
               && n <= space.pmm.totalPages && space.pmm.lastSearch + n <= 8 * space.pmm.bitmap.Length + 1
               && (F.NextFit(space.pmm.Model(), n).Some? ==> F.Contained(space.pmm.Model(), n))
      modifies this`nextId, this`pending, slots, space.pmm, space.pmm.bitmap
      ensures Valid() && nextId == old(nextId) + 1
      ensures run == F.NextFit(old(space.pmm.Model()), (size + 4095) / PAGE_SIZE)
      ensures space.pmm.Model() == F.Alloc(old(space.pmm.Model()), (size + 4095) / PAGE_SIZE).0
      ensures s.id == old(nextId) && s.size == (size + 4095) / PAGE_SIZE * PAGE_SIZE
      ensures Reserved(old(Now()), mid, tid, run, (size + 4095) / PAGE_SIZE) && Filed(mid, Now(), tid, k, s)
      ensures id == if k.Some? then s.id else 0
      ensures forall i :: 0 <= i < (if k.Some? then k.value else SLOTS) ==> old(slots[i].id) != 0
    {
      var n := (size + 4095) / PAGE_SIZE;
      var phys;
      phys, run := Reserve(n, tid);
      mid := Now();
      id, k, s := Enter(n, phys, tid);
    }

    /** The first half of alpc_map_section, for the section in slot k. */
    method Open(k: nat) returns (virt: nat)
      requires Valid() && k < SLOTS && slots[k].id != 0
      modifies this`nextVirt, this`windows
      ensures Valid() && virt == old(nextVirt) && nextVirt == old(nextVirt) + slots[k].size
      ensures Opened(old(Now()), Now(), k)
    {
      ghost var before := Now();
      var s := slots[k];
      virt := nextVirt;
      nextVirt := nextVirt + s.size;
      windows := windows + [Window(virt / PAGE_SIZE, s.First(), s.Pages(), s.id, 0)];
      OpenKeeps(before, Now(), k);
    }

    /** The call of vmm_map in one turn of the loop of alpc_map_section. */
    method Turn(virt: nat, phys: nat, j: nat, ghost m: nat, ghost w: Window, ghost all: set<Node>)
      requires space.Valid() && m < |windows| && windows[m] == w && w.shown == j < w.pages
      requires w.first == Frame(virt) && w.target == Frame(phys) && virt + PAGE_SIZE * w.pages <= VPNS * PAGE_SIZE
      requires A.Serves(all, w.first, w.pages) && space.pmm.freePages > |all - space.at.Keys|
      requires slots as object != space.ram && slots as object != space.pmm.bitmap
      modifies this`windows, space`at, space`trans, space.ram, space.pmm, space.pmm.bitmap
      ensures space.Valid() && TablesGrew(old(Now()), Now()) && space.pmm.freePages > |all - space.at.Keys|
      ensures Now() == old(Now()).(windows := old(windows)[m := w.(shown := j + 1)],
                                   used := Now().used, tables := Now().tables,
                                   trans := old(space.trans)[w.first + j := Leaf(w.target + j, SHARED_FLAGS)])
    {
      ghost var before, was := Now(), space.Now();
      space.MapAt(virt, phys, j, w.pages, SHARED_FLAGS, all, w.first, w.target);
      windows := windows[m := w.(shown := j + 1)];
      TablesKept(before, Now(), was, space.Now());
    }

    /** One turn of the loop of alpc_map_section: the next page of window m. */
    method ShowPage(virt: nat, phys: nat, j: nat, ghost m: nat, ghost w: Window, ghost all: set<Node>)
      requires Valid() && m < |windows| && windows[m] == w && w.shown == j < w.pages
      requires w.first == Frame(virt) && w.target == Frame(phys) && virt + PAGE_SIZE * w.pages <= VPNS * PAGE_SIZE
      requires A.Serves(all, w.first, w.pages) && space.pmm.freePages > |all - space.at.Keys|
      modifies this`windows, space`at, space`trans, space.ram, space.pmm, space.pmm.bitmap
      ensures Valid() && PageShown(old(Now()), Now(), m) && space.pmm.freePages > |all - space.at.Keys|
    {
      ghost var before := Now();
      assert Inv(before);
      Turn(virt, phys, j, m, w, all);
      ShowKeeps(before, Now(), m);
    }

    /** alpc_map_section for the section in slot k, when nothing comes between its steps: one step
        opens the window, and then one step shows each page. */
    method Expose(k: nat, ghost all: set<Node>) returns (virt: nat, ghost ws: seq<World>)
      requires Valid() && k < SLOTS && slots[k].id != 0
      requires nextVirt + slots[k].size <= VPNS * PAGE_SIZE && A.Serves(all, nextVirt / PAGE_SIZE, slots[k].Pages())
      requires space.pmm.freePages > |all - space.at.Keys|
      modifies this`nextVirt, this`windows, space`at, space`trans, space.ram, space.pmm, space.pmm.bitmap
      ensures Valid() && virt == old(nextVirt)
      ensures Run(ws) && ws[0] == old(Now()) && ws[|ws| - 1] == Now()
      ensures Exposed(old(Now()), Now(), k, old(slots[k].Pages()))
    {
      var s := slots[k];
      ghost var a := Now();
      virt := Open(k);
      WindowBytes(a, Now(), k, virt);
      ws := ShowAll(a, k, windows[|a.windows|], virt, s.phys, s.size, all, Extend([a], Now()));
    }

    /** The loop of alpc_map_section, entered in world `a` for the section in slot k and its window w. */
    method ShowAll(ghost a: World, ghost k: nat, ghost w: Window, virt: nat, phys: nat, size: nat,
                   ghost all: set<Node>, ghost ws: seq<World>)
      returns (ghost ws': seq<World>)
      requires Valid() && Exposed(a, Now(), k, 0) && windows[|a.windows|] == w && PAGE_SIZE * w.pages == size
      requires w.first == Frame(virt) && w.target == Frame(phys) && virt + size <= VPNS * PAGE_SIZE
      requires A.Serves(all, w.first, w.pages) && space.pmm.freePages > |all - space.at.Keys|
      requires Run(ws) && ws[0] == a && ws[|ws| - 1] == Now()
      modifies this`windows, space`at, space`trans, space.ram, space.pmm, space.pmm.bitmap
      ensures Valid() && Exposed(a, Now(), k, w.pages)
      ensures Run(ws') && ws'[0] == a && ws'[|ws'| - 1] == Now()
    {
      var j := 0;
      ws' := ws;
      while PAGE_SIZE * j < size
        invariant Valid() && j <= w.pages && Exposed(a, Now(), k, j) && space.pmm.freePages > |all - space.at.Keys|
        invariant Run(ws') && ws'[0] == a && ws'[|ws'| - 1] == Now()
      {
        ws' := ShowNext(a, k, w, virt, phys, j, all, ws');
        j := j + 1;
      }
    }

    method ShowNext(ghost a: World, ghost k: nat, ghost w: Window, virt: nat, phys: nat, j: nat,
                    ghost all: set<Node>, ghost ws: seq<World>)
      returns (ghost ws': seq<World>)
      requires Valid() && Exposed(a, Now(), k, j) && windows[|a.windows|] == w.(shown := j) && j < w.pages
      requires w.first == Frame(virt) && w.target == Frame(phys) && virt + PAGE_SIZE * w.pages <= VPNS * PAGE_SIZE
      requires A.Serves(all, w.first, w.pages) && space.pmm.freePages > |all - space.at.Keys|
      requires Run(ws) && ws[0] == a && ws[|ws| - 1] == Now()
      modifies this`windows, space`at, space`trans, space.ram, space.pmm, space.pmm.bitmap
      ensures Valid() && Exposed(a, Now(), k, j + 1) && space.pmm.freePages > |all - space.at.Keys|
      ensures Run(ws') && ws'[0] == a && ws'[|ws'| - 1] == Now()
    {
      ghost var b := Now();
      ShowPage(virt, phys, j, |a.windows|, w.(shown := j), all);
      ExposedMore(a, b, Now(), k, j);
      ws' := Extend(ws, Now());
    }

    /** alpc_map_section: 0 when no slot has the id. Id 0 matches a free slot; its size is 0, so
        the caller gets an address with nothing behind it. */
    method Show(id: nat, ghost all: set<Node>) returns (virt: nat, ghost k: Option<nat>, ghost ws: seq<World>)
      requires Valid()
      requires forall i :: 0 <= i < SLOTS && slots[i].id == id ==>
        nextVirt + slots[i].size <= VPNS * PAGE_SIZE && A.Serves(all, nextVirt / PAGE_SIZE, slots[i].Pages())
      requires space.pmm.freePages > |all - space.at.Keys|
      modifies this`nextVirt, this`windows, space`at, space`trans, space.ram, space.pmm, space.pmm.bitmap
      ensures Valid()
      ensures Run(ws) && ws[0] == old(Now()) && ws[|ws| - 1] == Now()
      ensures k.None? <==> forall i :: 0 <= i < SLOTS ==> slots[i].id != id
      ensures k.None? ==> virt == 0
      ensures k.Some? ==> 0 < virt == old(nextVirt) && k.value < SLOTS && slots[k.value].id == id
      ensures k.None? || id == 0 ==> Now() == old(Now())
      ensures k.Some? && id != 0 ==> Exposed(old(Now()), Now(), k.value, slots[k.value].Pages())
    {
      var slot := Find(id);
      k := slot;
      if slot.None? { return 0, k, [Now()]; }
      if id == 0 { return nextVirt, k, [Now()]; }
      virt, ws := Expose(slot.value, all);
    }
  }
}
