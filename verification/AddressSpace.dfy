/** The kernel address space of vmm.c: page tables grown in physical memory with pages
    from the page allocator. */
module AddressSpace {
  import opened Common
  import opened Paging
  import F = Frames
  import opened MemoryMap
  import P = PageAllocator

  /** The path from the root to the last-level table of a page. */
  ghost function Path(vpn: nat): seq<Node> {
    [Node(2, Prefix(vpn, 3)), Node(1, Prefix(vpn, 2)), Node(0, Prefix(vpn, 1))]
  }

  ghost function Members(path: seq<Node>): set<Node>
    requires |path| == 3
  {
    {path[0], path[1], path[2]}
  }

  ghost function Absent(keys: set<Node>, k: Node): nat {
    if k in keys then 0 else 1
  }

  /** How many tables of a path must still be allocated. */
  ghost function Missing(keys: set<Node>, path: seq<Node>): nat
    requires |path| == 3
  {
    Absent(keys, path[0]) + Absent(keys, path[1]) + Absent(keys, path[2])
  }

  lemma ThreeSteps(k0: set<Node>, k1: set<Node>, k2: set<Node>, k3: set<Node>, path: seq<Node>)
    requires |path| == 3 && path[0].level == 2 && path[1].level == 1 && path[2].level == 0
    requires k1 == k0 + {path[0]} && k2 == k1 + {path[1]} && k3 == k2 + {path[2]}
    ensures k3 == k0 + Members(path)
    ensures Missing(k0, path) == Absent(k0, path[0]) + Absent(k1, path[1]) + Absent(k2, path[2])
  {
  }

  /** Mapping one more page uses up exactly the tables it adds. */
  lemma Budget(keys: set<Node>, path: seq<Node>, all: set<Node>)
    requires |path| == 3 && path[0].level == 2 && path[1].level == 1 && path[2].level == 0
    requires Members(path) <= all
    ensures |all - (keys + Members(path))| == |all - keys| - Missing(keys, path)
  {
    var left := all - keys;
    var gone0 := left - {path[0]};
    var gone1 := gone0 - {path[1]};
    var gone2 := gone1 - {path[2]};
    assert gone2 == all - (keys + Members(path));
  }

  /** The page numbers of consecutive addresses, as long as they stay below 2^48. */
  lemma ConsecutivePages(addr: nat, j: nat)
    ensures Frame(addr + PAGE_SIZE * j) == Frame(addr) + j
    ensures addr + PAGE_SIZE * j < VPNS * PAGE_SIZE ==> Vpn(addr + PAGE_SIZE * j) == Frame(addr) + j < VPNS
  {
  }

  ghost predicate Served(all: set<Node>, p: nat) {
    Members(Path(p)) <= all
  }

  lemma SamePage(addr: nat)
    ensures Vpn(addr / PAGE_SIZE * PAGE_SIZE) == Vpn(addr)
  {
  }

  /** The tables in `all` serve the n pages from `first` up. */
  ghost predicate Serves(all: set<Node>, first: nat, n: nat) {
    forall p: nat {:trigger Served(all, p)} :: first <= p < first + n ==> Served(all, p)
  }

  /** The map with frames target, target + 1, ... shown through pages first, first + 1, ... */
  ghost function Shown(trans: map<nat, Leaf>, first: nat, target: nat, n: nat, flags: nat): map<nat, Leaf> {
    if n == 0 then trans else Shown(trans, first, target, n - 1, flags)[first + n - 1 := Leaf(target + n - 1, flags)]
  }

  lemma {:induction false} ShownAt(trans: map<nat, Leaf>, first: nat, target: nat, n: nat, flags: nat, v: nat)
    ensures Lookup(Shown(trans, first, target, n, flags), v)
            == if first <= v < first + n then Some(Leaf(target + (v - first), flags)) else Lookup(trans, v)
  {
    if n > 0 { ShownAt(trans, first, target, n - 1, flags, v); }
  }

  /** The same pages are mapped, to the same frames. */
  ghost predicate SameFrames(a: map<nat, Leaf>, b: map<nat, Leaf>) {
    a.Keys == b.Keys && forall v :: v in a ==> b[v].frame == a[v].frame
  }

  /** PRESENT | WRITABLE | USER, and PWT | PCD for memory that is not ordinary memory. */
  function MemoryFlags(cached: bool): (f: nat)
    ensures f < PAGE_SIZE && Present(f)
  {
    if cached then 7 else 31
  }

  /** Loader, boot services and conventional memory. */
  predicate Ordinary(kind: nat) { 1 <= kind <= 4 || kind == CONVENTIONAL }

  /** What vmm_init makes of a memory map: each descriptor in turn, later ones over earlier ones. */
  ghost function BootMap(descs: seq<Desc>): map<nat, Leaf> {
    if descs == [] then map[]
    else
      var d := descs[|descs| - 1];
      Shown(BootMap(descs[..|descs| - 1]), MappedFrom(d), MappedFrom(d), MappedCount(d), MemoryFlags(Ordinary(d.kind)))
  }

  /** Turn j of vmm_init's loop over a descriptor maps page v; the page at address 0 is passed over. */
  predicate MappedInTurn(d: Desc, j: nat, v: nat) {
    j < d.pages && d.start + 4096 * j != 0 && (d.start + 4096 * j) / 4096 == v
  }

  ghost predicate Visits(d: Desc, v: nat) {
    exists j: nat :: MappedInTurn(d, j, v)
  }

  /** Descriptor i is the last that maps page v. */
  ghost predicate LastVisit(descs: seq<Desc>, i: int, v: nat) {
    0 <= i < |descs| && Visits(descs[i], v) && forall k :: i < k < |descs| ==> !Visits(descs[k], v)
  }

  lemma VisitsIff(d: Desc, v: nat)
    ensures Visits(d, v) <==> MappedFrom(d) <= v < MappedFrom(d) + MappedCount(d)
  {
    if MappedFrom(d) <= v < MappedFrom(d) + MappedCount(d) {
      assert MappedInTurn(d, v - d.First(), v);
    }
  }

  /** The descriptor visited last decides: each page is mapped to itself, ordinary memory with the
      flags PRESENT, WRITABLE and USER, everything else with PWT and PCD as well. */
  lemma {:induction false} BootMapIs(descs: seq<Desc>, v: nat)
    ensures Lookup(BootMap(descs), v).None? <==> forall i :: 0 <= i < |descs| ==> !Visits(descs[i], v)
    ensures forall i :: LastVisit(descs, i, v)
              ==> Lookup(BootMap(descs), v) == Some(Leaf(v, if descs[i].kind in {1, 2, 3, 4, 7} then 7 else 31))
  {
    if descs != [] {
      var front, d := descs[..|descs| - 1], descs[|descs| - 1];
      BootMapIs(front, v);
      VisitsIff(d, v);
      ShownAt(BootMap(front), MappedFrom(d), MappedFrom(d), MappedCount(d), MemoryFlags(Ordinary(d.kind)), v);
      assert forall i :: 0 <= i < |front| ==> descs[i] == front[i];
      assert Visits(descs[|descs| - 1], v) <==> Visits(d, v);
    }
  }

  /** The whole map after vmm_init, framebuffer included. */
  ghost function InitialMap(descs: seq<Desc>, fbBase: nat, fbPages: nat): map<nat, Leaf> {
    Shown(BootMap(descs), Frame(fbBase), Frame(fbBase), fbPages, MemoryFlags(false))
  }

  /** Page v holds part of the framebuffer. */
  ghost predicate OnScreen(fbBase: nat, fbSize: nat, v: nat) {
    exists j: nat :: ScreenPage(fbBase, fbSize, j, v)
  }

  predicate ScreenPage(fbBase: nat, fbSize: nat, j: nat, v: nat) {
    4096 * j < fbSize && (fbBase + 4096 * j) / 4096 == v
  }

  lemma OnScreenIff(fbBase: nat, fbSize: nat, v: nat)
    ensures OnScreen(fbBase, fbSize, v) <==> Frame(fbBase) <= v < Frame(fbBase) + (fbSize + 4095) / PAGE_SIZE
  {
    if Frame(fbBase) <= v < Frame(fbBase) + (fbSize + 4095) / PAGE_SIZE {
      assert ScreenPage(fbBase, fbSize, v - Frame(fbBase), v);
    }
  }

  /** What every page is mapped to after vmm_init: a page of the framebuffer to itself, uncached; any
      other page as the descriptors say; and nothing else is mapped. */
  lemma InitialMapIs(descs: seq<Desc>, fbBase: nat, fbSize: nat, v: nat)
    ensures var z := Lookup(InitialMap(descs, fbBase, (fbSize + 4095) / PAGE_SIZE), v);
            if OnScreen(fbBase, fbSize, v) then z == Some(Leaf(v, 31))
            else
              && (z.None? <==> forall i :: 0 <= i < |descs| ==> !Visits(descs[i], v))
              && forall i :: LastVisit(descs, i, v) ==>
                    z == Some(Leaf(v, if descs[i].kind in {1, 2, 3, 4, 7} then 7 else 31))
  {
    BootMapIs(descs, v);
    OnScreenIff(fbBase, fbSize, v);
    ShownAt(BootMap(descs), Frame(fbBase), Frame(fbBase), (fbSize + 4095) / PAGE_SIZE, MemoryFlags(false), v);
  }

  /** A cleared root translates nothing. */
  lemma FreshRoot(mem: seq<nat>, root: nat)
    requires ENTRIES * root + ENTRIES <= |mem|
    ensures Tree(Cleared(mem, root), map[ROOT := root], root)
    ensures Refines(Cleared(mem, root), root, map[])
  {
    var mem', at := Cleared(mem, root), map[ROOT := root];
    forall k, i: nat | k in at && k.level > 0 && i < ENTRIES ensures Linked(mem', at, k, i) {
      assert Word(mem', root, i) == 0;
    }
    forall v: nat | v < VPNS ensures Translate(mem', root, v) == None {
      assert Word(mem', root, Index(v, 3)) == 0;
    }
  }

  ghost function Updated(trans: map<nat, Leaf>, v: nat, seen: Option<Leaf>): map<nat, Leaf> {
    if seen.Some? then trans[v := seen.value] else trans - {v}
  }

  /** The indices i4, i3, i2 lead from the root down the path to the table of page v. */
  ghost predicate Leads(path: seq<Node>, i4: nat, i3: nat, i2: nat, v: nat) {
    && |path| == 3 && path[0].level == 2 && path[1].level == 1
    && i4 < ENTRIES && i3 < ENTRIES && i2 < ENTRIES
    && ROOT.Child(i4) == path[0] && path[0].Child(i3) == path[1] && path[1].Child(i2) == path[2] == LeafNode(v)
  }

  lemma PathLeads(vpn: nat)
    requires vpn < VPNS
    ensures Leads(Path(vpn), Index(vpn, 3), Index(vpn, 2), Index(vpn, 1), vpn)
  {
    PrefixAboveRoot(vpn);
    assert Prefix(vpn, 1) == vpn / ENTRIES;
    assert Prefix(vpn, 2) == Prefix(vpn, 1) / ENTRIES;
    assert Prefix(vpn, 3) == Prefix(vpn, 2) / ENTRIES;
    assert Prefix(vpn, 4) == Prefix(vpn, 3) / ENTRIES;
  }

  /** A table on the path implies the tables above it. */
  lemma PathClosed(mem: seq<nat>, at: map<Node, nat>, root: nat, path: seq<Node>, i4: nat, i3: nat, i2: nat, v: nat)
    requires Tree(mem, at, root) && Leads(path, i4, i3, i2, v)
    ensures path[2] in at ==> path[1] in at
    ensures path[1] in at ==> path[0] in at
  {
    assert path[2] in at ==> Placed(mem, at, path[2]);
    assert path[1] in at ==> Placed(mem, at, path[1]);
    assert path[2].Parent() == path[1];
    assert path[1].Parent() == path[0];
  }

  /** The four table indices of an address. */
  method Indices(virt: nat) returns (i4: nat, i3: nat, i2: nat, i1: nat)
    ensures Leads(Path(Vpn(virt)), i4, i3, i2, Vpn(virt))
    ensures i1 == Vpn(virt) % ENTRIES < ENTRIES
  {
    i4, i3, i2, i1 := virt / 0x80_0000_0000 % ENTRIES, virt / 0x4000_0000 % ENTRIES,
                      virt / 0x20_0000 % ENTRIES, virt / 0x1000 % ENTRIES;
    IndexOfAddress(virt);
    PathLeads(Vpn(virt));
  }

  /** The page address with the flag bits or-ed in; they do not overlap. */
  method MakeEntry(phys: nat, flags: nat) returns (e: nat)
    requires flags < PAGE_SIZE
    ensures Frame(e) == Frame(phys) && Present(e) == Present(flags) && e % PAGE_SIZE == flags
  {
    e := phys / PAGE_SIZE * PAGE_SIZE + flags;
  }

  lemma ServesPart(all: set<Node>, first: nat, n: nat, sub: nat, m: nat)
    requires Serves(all, first, n) && (m == 0 || (first <= sub && sub + m <= first + n))
    ensures Serves(all, sub, m)
  {
  }

  /** Where vmm_init's loop over a descriptor starts mapping and how many pages it maps. */
  method Extent(d: Desc) returns (addr: nat, n: nat)
    ensures Frame(addr) == MappedFrom(d) && n == MappedCount(d)
    ensures n == 0 || (d.First() <= Frame(addr) && Frame(addr) + n <= d.First() + d.pages)
    ensures d.End() <= VPNS * PAGE_SIZE ==> addr + PAGE_SIZE * n <= VPNS * PAGE_SIZE
  {
    addr, n := d.start, d.pages;
    if d.start == 0 && d.pages > 0 {
      addr, n := PAGE_SIZE, d.pages - 1;
    }
  }

  /** Memory, tables and page bitmap at one moment. */
  datatype Snapshot = Snapshot(mem: seq<nat>, at: map<Node, nat>, used: seq<bool>, total: nat)

  /** A page in use stays in use. */
  ghost predicate PageKept(a: Snapshot, b: Snapshot, p: nat) {
    p < |a.used| == |b.used| && a.used[p] ==> b.used[p]
  }

  /** A table stays where it is. */
  ghost predicate TableKept(a: Snapshot, b: Snapshot, k: Node) {
    k in a.at ==> k in b.at && b.at[k] == a.at[k]
  }

  /** A new table sits on a page that was free. */
  ghost predicate TableFresh(a: Snapshot, b: Snapshot, k: Node) {
    k in b.at && k !in a.at ==> b.at[k] < |a.used| && !a.used[b.at[k]]
  }

  /** A page that is no table keeps its contents. */
  ghost predicate WordKept(a: Snapshot, b: Snapshot, t: nat, i: nat) {
    t !in b.at.Values && i < ENTRIES ==> Word(b.mem, t, i) == Word(a.mem, t, i)
  }

  ghost predicate TableUsed(at: map<Node, nat>, used: seq<bool>, total: nat, k: Node) {
    k in at ==> at[k] < total && at[k] < |used| && used[at[k]]
  }

  /** From a to b only table pages were written, the new tables sit on pages that were free,
      and pages in use stayed in use. */
  ghost predicate Grew(a: Snapshot, b: Snapshot) {
    && |a.mem| == |b.mem| && |a.used| == |b.used| && a.total == b.total
    && (forall p {:trigger PageKept(a, b, p)} :: PageKept(a, b, p))
    && (forall k {:trigger TableKept(a, b, k)} :: TableKept(a, b, k))
    && (forall k {:trigger TableFresh(a, b, k)} :: TableFresh(a, b, k))
    && (forall t, i {:trigger WordKept(a, b, t, i)} :: WordKept(a, b, t, i))
  }

  ghost predicate SameView(a: Snapshot, b: Snapshot) {
    forall v: nat :: LeafView(b.mem, b.at, v) == LeafView(a.mem, a.at, v)
  }

  lemma GrewTransitive(a: Snapshot, b: Snapshot, c: Snapshot)
    requires Grew(a, b) && Grew(b, c)
    ensures Grew(a, c)
  {
    forall p ensures PageKept(a, c, p) {
      assert PageKept(a, b, p) && PageKept(b, c, p);
    }
    forall k ensures TableKept(a, c, k) && TableFresh(a, c, k) {
      assert TableKept(a, b, k) && TableKept(b, c, k) && TableFresh(a, b, k) && TableFresh(b, c, k);
      if k in c.at { assert PageKept(a, b, c.at[k]); }
    }
    forall t, i ensures WordKept(a, c, t, i) {
      assert WordKept(a, b, t, i) && WordKept(b, c, t, i);
      if t in b.at.Values {
        var k :| k in b.at && b.at[k] == t;
        assert TableKept(b, c, k);
      }
    }
  }

  lemma GrewByOne(a: Snapshot, b: Snapshot, k: Node, i: nat, n: nat)
    requires k in a.at && k.level > 0 && k.Child(i) !in a.at && n < |a.used| && !a.used[n]
    requires b.at == a.at[k.Child(i) := n] && b.used == a.used[n := true] && b.total == a.total
    requires Grown(a.mem, b.mem, a.at[k], i, n)
    ensures Grew(a, b)
  {
    assert b.at[k] == a.at[k] && b.at[k.Child(i)] == n;
    assert a.at[k] in b.at.Values && n in b.at.Values;
  }

  lemma GrewByWrite(a: Snapshot, b: Snapshot, c: Snapshot, k: Node, i: nat, w: nat, e: nat)
    requires Grew(a, b) && k in b.at && i < ENTRIES && ENTRIES * b.at[k] + ENTRIES <= |b.mem|
    requires w == ENTRIES * b.at[k] + i && c == b.(mem := b.mem[w := e])
    ensures Grew(a, c)
  {
    assert b.at[k] in b.at.Values;
    forall p ensures PageKept(a, c, p) { assert PageKept(a, b, p); }
    forall m ensures TableKept(a, c, m) && TableFresh(a, c, m) { assert TableKept(a, b, m) && TableFresh(a, b, m); }
    forall t, j ensures WordKept(a, c, t, j) { assert WordKept(a, b, t, j); }
  }

  /** Growing the tree and then writing one last-level entry changes one translation. */
  lemma LeafWritten(a: Snapshot, b: Snapshot, c: Snapshot, root: nat, v: nat, i: nat, e: nat, trans: map<nat, Leaf>)
    requires Refines(a.mem, root, trans)
    requires Tree(a.mem, a.at, root) && Tree(b.mem, b.at, root) && v < VPNS && LeafNode(v) in b.at
    requires Grew(a, b) && SameView(a, b) && i == v % ENTRIES < ENTRIES
    requires ENTRIES * b.at[LeafNode(v)] + ENTRIES <= |b.mem|
    requires c == b.(mem := b.mem[ENTRIES * b.at[LeafNode(v)] + i := e])
    ensures Grew(a, c) && Refines(c.mem, root, Updated(trans, v, Seen(e)))
  {
    GrewByWrite(a, b, c, LeafNode(v), i, ENTRIES * b.at[LeafNode(v)] + i, e);
    WriteLeaf(b.mem, c.mem, b.at, root, v, i, e);
    forall u: nat | u < VPNS
      ensures Translate(c.mem, root, u) == Lookup(Updated(trans, v, Seen(e)), u)
    {
      TranslateIsLeaf(a.mem, a.at, root, u);
      TranslateIsLeaf(c.mem, c.at, root, u);
      assert LeafView(b.mem, b.at, u) == LeafView(a.mem, a.at, u);
    }
  }

  class AddressSpace {
    const pmm: P.PageAllocator
    const ram: array<nat>
    var root: nat
    ghost var at: map<Node, nat>
    ghost var trans: map<nat, Leaf>

    constructor (pmm: P.PageAllocator, ram: array<nat>)
      ensures this.pmm == pmm && this.ram == ram
    {
      this.pmm, this.ram, root, at, trans := pmm, ram, 0, map[], map[];
    }

    ghost predicate Allocating()
      reads this, pmm, pmm.bitmap
    {
      && pmm.bitmap as object != ram
      && F.Sound(pmm.Model())
      && pmm.totalPages <= 8 * pmm.bitmap.Length
      && ENTRIES * pmm.totalPages <= ram.Length
    }

    /** Every table is a page of its own that the page bitmap marks as used. */
    ghost predicate Planted()
      reads this, ram, pmm, pmm.bitmap
    {
      && Allocating()
      && Tree(ram[..], at, root)
      && forall k {:trigger TableUsed(at, pmm.Bits(), pmm.totalPages, k)} ::
           TableUsed(at, pmm.Bits(), pmm.totalPages, k)
    }

    /** The tables in memory stand for the map `trans` from page to frame and flags. */
    ghost predicate Valid()
      reads this, ram, pmm, pmm.bitmap
    {
      Planted() && Refines(ram[..], root, trans)
    }

    method ClearPage(t: nat)
      requires ENTRIES * t + ENTRIES <= ram.Length
      modifies ram
      ensures ram[..] == Cleared(old(ram[..]), t)
    {
      for i := 0 to ENTRIES
        invariant forall w :: 0 <= w < ram.Length ==>
          ram[w] == if ENTRIES * t <= w < ENTRIES * t + i then 0 else old(ram[w])
      {
        ram[ENTRIES * t + i] := 0;
      }
    }

    /** A page that was free before and is used now. */
    method TakePage() returns (n: nat)
      requires Allocating() && pmm.freePages >= 2
      modifies pmm, pmm.bitmap
      ensures pmm.totalPages == old(pmm.totalPages)
      ensures Allocating() && pmm.freePages == old(pmm.freePages) - 1
      ensures 0 < n < pmm.totalPages && !old(pmm.Bits())[n]
      ensures pmm.Bits() == old(pmm.Bits())[n := true]
    {
      ghost var f := pmm.Model();
      F.SinglePageSucceeds(f);
      F.GuardedContained(f, 1);
      F.AllocSound(f, 1);
      var addr := pmm.Alloc(1);
      n := addr / PAGE_SIZE;
      assert F.Mark(f.used, n, 1, true) == f.used[n := true];
    }

    ghost function Now(): Snapshot
      reads this, ram, pmm, pmm.bitmap
    {
      Snapshot(ram[..], at, pmm.Bits(), pmm.totalPages)
    }

    /** User mode may reach a page, and a store may change it, exactly when it is mapped with that flag. */
    lemma Access(v: nat, bit: nat)
      requires Valid() && v < VPNS && bit in {WRITE, USER}
      ensures Allowed(ram[..], root, 3, v, bit) <==> v in trans && Grants(trans[v].flags, bit)
    {
      AllowedIsLeaf(ram[..], at, root, v, bit);
    }

    /** Takes a page, clears it and points word i of page t at it. */
    method Hang(t: nat, i: nat) returns (n: nat)
      requires Allocating() && pmm.freePages >= 2
      requires t < pmm.totalPages && pmm.Bits()[t] && i < ENTRIES
      modifies ram, pmm, pmm.bitmap
      ensures pmm.totalPages == old(pmm.totalPages)
      ensures Allocating() && pmm.freePages == old(pmm.freePages) - 1
      ensures 0 < n < pmm.totalPages && !old(pmm.Bits())[n] && pmm.Bits() == old(pmm.Bits())[n := true]
      ensures Grown(old(ram[..]), ram[..], t, i, n)
    {
      ghost var mem := ram[..];
      n := TakePage();
      ClearPage(n);
      ram[ENTRIES * t + i] := n * PAGE_SIZE + TABLE_FLAGS;
      assert ram[..] == Cleared(mem, n)[ENTRIES * t + i := n * PAGE_SIZE + TABLE_FLAGS];
      ClearedThenLinked(mem, t, i, n);
    }

    /** Grows the tree by the absent child i of table k. */
    method Adopt(ghost k: Node, t: nat, i: nat)
      requires Planted() && k in at && k.level > 0 && at[k] == t && i < ENTRIES
      requires k.Child(i) !in at && pmm.freePages >= 2
      modifies this`at, ram, pmm, pmm.bitmap
      ensures Planted() && k.Child(i) in at && at.Keys == old(at).Keys + {k.Child(i)}
      ensures pmm.freePages == old(pmm.freePages) - 1
      ensures Grew(old(Now()), Now()) && SameView(old(Now()), Now())
    {
      ghost var before := Now();
      assert TableUsed(before.at, before.used, pmm.totalPages, k);
      var n := Hang(t, i);
      assert n !in at.Values by {
        forall m | m in at ensures at[m] != n { assert TableUsed(before.at, before.used, pmm.totalPages, m); }
      }
      GrowTree(before.mem, ram[..], at, root, k, i, n);
      at := at[k.Child(i) := n];
      GrewByOne(before, Now(), k, i, n);
      forall m ensures TableUsed(at, pmm.Bits(), pmm.totalPages, m) {
        assert TableUsed(before.at, before.used, pmm.totalPages, m);
      }
    }

    /** vmm_map's three identical steps: the table below word i of table t, allocated and
        cleared on the spot when the entry is absent. */
    method Descend(ghost k: Node, t: nat, i: nat) returns (child: nat)
      requires Planted() && k in at && k.level > 0 && at[k] == t && i < ENTRIES
      requires k.Child(i) in at || pmm.freePages >= 2
      modifies this`at, ram, pmm, pmm.bitmap
      ensures Planted() && k.Child(i) in at && child == at[k.Child(i)]
      ensures at.Keys == old(at).Keys + {k.Child(i)}
      ensures pmm.freePages == old(pmm.freePages) - Absent(old(at.Keys), k.Child(i))
      ensures Grew(old(Now()), Now()) && SameView(old(Now()), Now())
    {
      ghost var before := Now();
      assert Placed(ram[..], at, k) && Linked(ram[..], at, k, i);
      if !Present(ram[ENTRIES * t + i]) {
        Adopt(k, t, i);
        assert TableKept(before, Now(), k);
      }
      assert Placed(ram[..], at, k) && Linked(ram[..], at, k, i);
      child := Frame(ram[ENTRIES * t + i]);
    }

    /** The walk of vmm_map down to the last-level table, growing the tree on the way. */
    method LastTable(ghost v: nat, ghost path: seq<Node>, i4: nat, i3: nat, i2: nat) returns (pt: nat)
      requires Planted() && v < VPNS && Leads(path, i4, i3, i2, v)
      requires Missing(at.Keys, path) == 0 || pmm.freePages > Missing(at.Keys, path)
      modifies this`at, ram, pmm, pmm.bitmap
      ensures Planted() && LeafNode(v) in at && pt == at[LeafNode(v)] && ENTRIES * pt + ENTRIES <= ram.Length
      ensures pmm.freePages == old(pmm.freePages) - old(Missing(at.Keys, path))
      ensures at.Keys == old(at).Keys + Members(path)
      ensures Grew(old(Now()), Now()) && SameView(old(Now()), Now())
    {
      ghost var s0 := Now();
      PathClosed(ram[..], at, root, path, i4, i3, i2, v);
      var pdpt := Descend(ROOT, root, i4);
      ghost var s1 := Now();
      var pd := Descend(path[0], pdpt, i3);
      ghost var s2 := Now();
      GrewTransitive(s0, s1, s2);
      pt := Descend(path[1], pd, i2);
      ghost var s3 := Now();
      GrewTransitive(s0, s2, s3);
      assert Placed(ram[..], at, path[2]);
      ThreeSteps(s0.at.Keys, s1.at.Keys, s2.at.Keys, s3.at.Keys, path);
    }

    /** Writes word i of the last-level table of page v. */
    method Store(ghost before: Snapshot, ghost v: nat, pt: nat, i: nat, e: nat) returns (ghost after: Snapshot)
      requires Planted() && LeafNode(v) in at && pt == at[LeafNode(v)] && i == v % ENTRIES < ENTRIES && before == Now()
      requires ENTRIES * pt + ENTRIES <= ram.Length
      modifies ram
      ensures Planted() && pmm.Model() == old(pmm.Model()) && Now() == after
      ensures after == before.(mem := before.mem[ENTRIES * before.at[LeafNode(v)] + i := e])
    {
      var w := ENTRIES * pt + i;
      after := before.(mem := before.mem[w := e]);
      ram[w] := e;
      assert ram[..] == after.mem;
      WriteLeaf(before.mem, after.mem, at, root, v, i, e);
    }

    /** Maps page v with entry e. */
    method Install(ghost v: nat, ghost path: seq<Node>, i4: nat, i3: nat, i2: nat, i1: nat, e: nat)
      requires Valid() && v < VPNS && Leads(path, i4, i3, i2, v) && i1 == v % ENTRIES < ENTRIES
      requires Missing(at.Keys, path) == 0 || pmm.freePages > Missing(at.Keys, path)
      modifies this`at, this`trans, ram, pmm, pmm.bitmap
      ensures Valid() && Grew(old(Now()), Now())
      ensures pmm.freePages == old(pmm.freePages) - Missing(old(at.Keys), path)
      ensures at.Keys == old(at).Keys + Members(path)
      ensures trans == Updated(old(trans), v, Seen(e))
    {
      ghost var s0 := Now();
      var pt := LastTable(v, path, i4, i3, i2);
      ghost var s1 := Now();
      ghost var s2 := Store(s1, v, pt, i1, e);
      LeafWritten(s0, s1, s2, root, v, i1, e, trans);
      trans := Updated(trans, v, Seen(e));
    }

    /** vmm_map: one page is remapped, every other page keeps its translation, and only
        table pages are written. */
    method Map(virt: nat, phys: nat, flags: nat)
      requires Valid() && flags < PAGE_SIZE
      requires var gap := Missing(at.Keys, Path(Vpn(virt))); gap == 0 || pmm.freePages > gap
      modifies this`at, this`trans, ram, pmm, pmm.bitmap
      ensures Valid() && Grew(old(Now()), Now())
      ensures pmm.freePages == old(pmm.freePages) - Missing(old(at.Keys), Path(Vpn(virt)))
      ensures at.Keys == old(at).Keys + Members(Path(Vpn(virt)))
      ensures trans == Updated(old(trans), Vpn(virt), if Present(flags) then Some(Leaf(Frame(phys), flags)) else None)
    {
      var i4, i3, i2, i1 := Indices(virt);
      var e := MakeEntry(phys, flags);
      Install(Vpn(virt), Path(Vpn(virt)), i4, i3, i2, i1, e);
    }

    /** Maps n pages in a row, as alpc_map_section and the framebuffer loop of vmm_init do. */
    method MapRun(virt: nat, phys: nat, n: nat, flags: nat, ghost all: set<Node>)
      requires Valid() && flags < PAGE_SIZE && Present(flags) && virt + PAGE_SIZE * n <= VPNS * PAGE_SIZE
      requires Serves(all, Frame(virt), n) && pmm.freePages > |all - at.Keys|
      modifies this`at, this`trans, ram, pmm, pmm.bitmap
      ensures Valid() && Grew(old(Now()), Now())
      ensures pmm.freePages - |all - at.Keys| == old(pmm.freePages - |all - at.Keys|)
      ensures trans == Shown(old(trans), Frame(virt), Frame(phys), n, flags)
    {
      ghost var s0, t0, spare := Now(), trans, pmm.freePages - |all - at.Keys|;
      ghost var first, target := Frame(virt), Frame(phys);
      for j := 0 to n
        invariant Valid() && Grew(s0, Now())
        invariant pmm.freePages - |all - at.Keys| == spare
        invariant trans == Shown(t0, first, target, j, flags)
      {
        MapNext(s0, t0, virt, phys, j, n, flags, all, first, target);
      }
    }

    /** The j-th of n calls of vmm_map in a loop that started in state s0. */
    method MapNext(ghost s0: Snapshot, ghost t0: map<nat, Leaf>, virt: nat, phys: nat, j: nat, ghost n: nat,
                   flags: nat, ghost all: set<Node>, ghost first: nat, ghost target: nat)
      requires first == Frame(virt) && target == Frame(phys) && trans == Shown(t0, first, target, j, flags)
      requires Valid() && flags < PAGE_SIZE && Present(flags) && j < n && virt + PAGE_SIZE * n <= VPNS * PAGE_SIZE
      requires Serves(all, first, n) && pmm.freePages > |all - at.Keys|
      requires Grew(s0, Now())
      modifies this`at, this`trans, ram, pmm, pmm.bitmap
      ensures Valid() && Grew(s0, Now())
      ensures pmm.freePages - |all - at.Keys| == old(pmm.freePages - |all - at.Keys|)
      ensures trans == Shown(t0, first, target, j + 1, flags)
    {
      ghost var s1 := Now();
      MapAt(virt, phys, j, n, flags, all, first, target);
      GrewTransitive(s0, s1, Now());
    }

    /** Maps page j of a range. */
    method MapAt(virt: nat, phys: nat, j: nat, ghost n: nat, flags: nat, ghost all: set<Node>,
                 ghost first: nat, ghost target: nat)
      requires first == Frame(virt) && target == Frame(phys)
      requires Valid() && flags < PAGE_SIZE && Present(flags) && j < n && virt + PAGE_SIZE * n <= VPNS * PAGE_SIZE
      requires Serves(all, first, n) && pmm.freePages > |all - at.Keys|
      modifies this`at, this`trans, ram, pmm, pmm.bitmap
      ensures Valid() && Grew(old(Now()), Now())
      ensures pmm.freePages - |all - at.Keys| == old(pmm.freePages - |all - at.Keys|)
      ensures trans == old(trans)[first + j := Leaf(target + j, flags)]
    {
      ghost var v := first + j;
      ConsecutivePages(virt, j);
      ConsecutivePages(phys, j);
      assert Served(all, v);
      MapServed(virt + PAGE_SIZE * j, phys + PAGE_SIZE * j, flags, v, target + j, all);
    }

    /** Maps a page whose tables are among those that are counted in. */
    method MapServed(virt: nat, phys: nat, flags: nat, ghost v: nat, ghost frame: nat, ghost all: set<Node>)
      requires Valid() && flags < PAGE_SIZE && Present(flags) && v == Vpn(virt) && frame == Frame(phys)
      requires Served(all, v) && pmm.freePages > |all - at.Keys|
      modifies this`at, this`trans, ram, pmm, pmm.bitmap
      ensures Valid() && Grew(old(Now()), Now())
      ensures pmm.freePages - |all - at.Keys| == old(pmm.freePages - |all - at.Keys|)
      ensures trans == old(trans)[v := Leaf(frame, flags)]
    {
      Budget(at.Keys, Path(v), all);
      Map(virt, phys, flags);
    }

    /** The tables of a mapped page are all there. */
    lemma MappedHasTables(v: nat)
      requires Valid() && v in trans
      ensures Missing(at.Keys, Path(v)) == 0
    {
      TranslateIsLeaf(ram[..], at, root, v);
      assert Translate(ram[..], root, v) == Lookup(trans, v);
      PathLeads(v);
      PathClosed(ram[..], at, root, Path(v), Index(v, 3), Index(v, 2), Index(v, 1), v);
    }

    /** The page-fault handler in test mode maps the page again to where it already goes. Every
        page then goes to the same frame as before exactly when the page was mapped; an unmapped
        page is sent to frame 0. The remapped page is left present and writable, no longer for
        user mode. */
    method Remap(fault: nat)
      requires Valid()
      requires Vpn(fault) !in trans ==> var gap := Missing(at.Keys, Path(Vpn(fault))); gap == 0 || pmm.freePages > gap
      modifies this`at, this`trans, ram, pmm, pmm.bitmap
      ensures Valid() && Grew(old(Now()), Now())
      ensures SameFrames(old(trans), trans) <==> Vpn(fault) in old(trans)
      ensures var frame := if Vpn(fault) in old(trans) then old(trans)[Vpn(fault)].frame else 0;
              trans == old(trans)[Vpn(fault) := Leaf(frame, 3)]
    {
      var phys := GetPhys(ram[..], root, fault);
      GetPhysIsTranslate(ram[..], root, fault);
      assert Translate(ram[..], root, Vpn(fault)) == Lookup(trans, Vpn(fault));
      SamePage(fault);
      if Vpn(fault) in trans { MappedHasTables(Vpn(fault)); }
      Map(fault / PAGE_SIZE * PAGE_SIZE, phys, 3);
    }

    /** Maps the pages of one memory descriptor to themselves, except the page at address 0. */
    method MapDescriptor(d: Desc, ghost all: set<Node>)
      requires Valid() && d.End() <= VPNS * PAGE_SIZE
      requires Serves(all, d.First(), d.pages) && pmm.freePages > |all - at.Keys|
      modifies this`at, this`trans, ram, pmm, pmm.bitmap
      ensures Valid() && pmm.freePages - |all - at.Keys| == old(pmm.freePages - |all - at.Keys|)
      ensures trans == Shown(old(trans), MappedFrom(d), MappedFrom(d), MappedCount(d), MemoryFlags(Ordinary(d.kind)))
    {
      var addr, n := Extent(d);
      ServesPart(all, d.First(), d.pages, Frame(addr), n);
      MapRun(addr, addr, n, MemoryFlags(Ordinary(d.kind)), all);
    }

    method PlantRoot()
      requires Allocating() && pmm.freePages >= 2
      modifies this, ram, pmm, pmm.bitmap
      ensures Valid() && at.Keys == {ROOT} && trans == map[]
      ensures pmm.freePages == old(pmm.freePages) - 1
    {
      root := TakePage();
      FreshRoot(ram[..], root);
      ClearPage(root);
      at, trans := map[ROOT := root], map[];
      forall k ensures TableUsed(at, pmm.Bits(), pmm.totalPages, k) {
      }
    }

    /** vmm_init. */
    method Init(descs: seq<Desc>, fbBase: nat, fbSize: nat, ghost all: set<Node>)
      requires Allocating() && pmm.freePages >= |all| + 2
      requires forall i :: 0 <= i < |descs| ==>
        descs[i].End() <= VPNS * PAGE_SIZE && Serves(all, descs[i].First(), descs[i].pages)
      requires fbBase + (fbSize + 4095) / PAGE_SIZE * PAGE_SIZE <= VPNS * PAGE_SIZE
      requires Serves(all, Frame(fbBase), (fbSize + 4095) / PAGE_SIZE)
      modifies this, ram, pmm, pmm.bitmap
      ensures Valid() && trans == InitialMap(descs, fbBase, (fbSize + 4095) / PAGE_SIZE)
    {
      PlantRoot();
      ghost var spare := pmm.freePages - |all - at.Keys|;
      assert spare > 0;
      for i := 0 to |descs|
        invariant Valid() && trans == BootMap(descs[..i])
        invariant pmm.freePages - |all - at.Keys| == spare
      {
        assert descs[..i + 1][..i] == descs[..i];
        MapDescriptor(descs[i], all);
      }
      assert descs[..|descs|] == descs;
      MapRun(fbBase, fbBase, (fbSize + 4095) / PAGE_SIZE, MemoryFlags(false), all);
    }
  }
}
