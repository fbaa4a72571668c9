/** Four-level page tables laid out in physical memory, as the MMU and vmm.c walk them.
    Memory is a sequence of 64-bit words; page t holds words 512 * t up to 512 * t + 511.
    An entry is present when bit 0 is set and points at the page entry / 4096. */
module Paging {
  import opened Common

  const ENTRIES := 512
  const VPNS := 0x10_0000_0000 // 2^36 virtual page numbers
  const TABLE_FLAGS := 7        // PRESENT | WRITABLE | USER

  function Vpn(virt: nat): nat { virt / PAGE_SIZE % VPNS }

  predicate Present(e: nat) { e % 2 == 1 }

  function Frame(e: nat): nat { e / PAGE_SIZE }

  const WRITE := 2
  const USER := 4

  /** The entry has that flag. */
  predicate Grants(e: nat, bit: nat)
    requires bit > 0
  {
    e / bit % 2 == 1
  }

  /** An upper entry that stands in the way of no access. */
  predicate Opens(e: nat) { Grants(e, WRITE) && Grants(e, USER) }

  /** What a last-level entry says: a frame and the low twelve bits. */
  datatype Leaf = Leaf(frame: nat, flags: nat)

  function Seen(e: nat): Option<Leaf> {
    if Present(e) then Some(Leaf(Frame(e), e % PAGE_SIZE)) else None
  }

  function Word(mem: seq<nat>, t: nat, i: nat): nat {
    if ENTRIES * t + i < |mem| then mem[ENTRIES * t + i] else 0
  }

  /** What is left of a page number above the indices of the levels below. */
  function Prefix(vpn: nat, level: nat): nat {
    if level == 0 then vpn else Prefix(vpn, level - 1) / ENTRIES
  }

  function Index(vpn: nat, level: nat): nat { Prefix(vpn, level) % ENTRIES }

  /** The walk the MMU performs from the table t of the given level. */
  function Resolve(mem: seq<nat>, t: nat, level: nat, vpn: nat): Option<Leaf>
    decreases level
  {
    var e := Word(mem, t, Index(vpn, level));
    if level == 0 then Seen(e)
    else if !Present(e) then None
    else Resolve(mem, Frame(e), level - 1, vpn)
  }

  /** Whether the processor lets user mode (USER) or a store (WRITE) through: every entry on the walk
      must be present and have the flag (section 4.6 of the Intel SDM volume 3A). */
  predicate Allowed(mem: seq<nat>, t: nat, level: nat, vpn: nat, bit: nat)
    requires bit > 0
    decreases level
  {
    var e := Word(mem, t, Index(vpn, level));
    Present(e) && Grants(e, bit) && (level == 0 || Allowed(mem, Frame(e), level - 1, vpn, bit))
  }

  function Translate(mem: seq<nat>, root: nat, vpn: nat): Option<Leaf> {
    Resolve(mem, root, 3, vpn)
  }

  /** vmm_get_phys, with its four levels written out. */
  function GetPhys(mem: seq<nat>, root: nat, virt: nat): nat {
    var e4 := Word(mem, root, virt / 0x80_0000_0000 % ENTRIES);
    if !Present(e4) then 0 else
    var e3 := Word(mem, Frame(e4), virt / 0x4000_0000 % ENTRIES);
    if !Present(e3) then 0 else
    var e2 := Word(mem, Frame(e3), virt / 0x20_0000 % ENTRIES);
    if !Present(e2) then 0 else
    var e1 := Word(mem, Frame(e2), virt / 0x1000 % ENTRIES);
    if !Present(e1) then 0 else Frame(e1) * PAGE_SIZE
  }

  lemma IndexOfAddress(virt: nat)
    ensures Index(Vpn(virt), 3) == virt / 0x80_0000_0000 % ENTRIES
    ensures Index(Vpn(virt), 2) == virt / 0x4000_0000 % ENTRIES
    ensures Index(Vpn(virt), 1) == virt / 0x20_0000 % ENTRIES
    ensures Index(Vpn(virt), 0) == virt / 0x1000 % ENTRIES
  {
    var v := virt / 0x1000;
    assert virt / 0x20_0000 == v / 512;
    assert virt / 0x4000_0000 == v / 512 / 512;
    assert virt / 0x80_0000_0000 == v / 512 / 512 / 512;
    var hi, lo := v / VPNS, v % VPNS;
    assert v == hi * VPNS + lo;
    assert v / 512 == hi * 0x800_0000 + lo / 512;
    assert v / 512 / 512 == hi * 0x4_0000 + lo / 512 / 512;
    assert v / 512 / 512 / 512 == hi * 512 + lo / 512 / 512 / 512;
    assert Prefix(lo, 1) == lo / 512;
    assert Prefix(lo, 2) == lo / 512 / 512;
    assert Prefix(lo, 3) == lo / 512 / 512 / 512;
  }

  /** vmm_get_phys agrees with the hardware walk, except that its 0 stands both for "not
      mapped" and for frame 0. */
  lemma GetPhysIsTranslate(mem: seq<nat>, root: nat, virt: nat)
    ensures GetPhys(mem, root, virt)
            == match Translate(mem, root, Vpn(virt)) case None => 0 case Some(l) => l.frame * PAGE_SIZE
  {
    IndexOfAddress(virt);
    var v := Vpn(virt);
    var e4 := Word(mem, root, Index(v, 3));
    if Present(e4) {
      assert Translate(mem, root, v) == Resolve(mem, Frame(e4), 2, v);
      var e3 := Word(mem, Frame(e4), Index(v, 2));
      if Present(e3) {
        assert Resolve(mem, Frame(e4), 2, v) == Resolve(mem, Frame(e3), 1, v);
      }
    }
  }

  function Lookup(trans: map<nat, Leaf>, vpn: nat): Option<Leaf> {
    if vpn in trans then Some(trans[vpn]) else None
  }

  /** The tables in memory translate pages exactly as the map says. */
  ghost predicate Refines(mem: seq<nat>, root: nat, trans: map<nat, Leaf>) {
    && (forall v :: v in trans ==> v < VPNS)
    && (forall v: nat {:trigger Translate(mem, root, v)} :: v < VPNS ==> Translate(mem, root, v) == Lookup(trans, v))
  }

  // ---------- the tree of tables ----------

  /** A table is named by its level and by the page-number prefix it serves. */
  datatype Node = Node(level: nat, prefix: nat) {
    function Child(i: nat): Node
      requires level > 0
    {
      Node(level - 1, prefix * ENTRIES + i)
    }

    function Parent(): Node { Node(level + 1, prefix / ENTRIES) }
  }

  const ROOT := Node(3, 0)

  /** Word i of table k is present exactly when child i exists, and then points at it. */
  ghost predicate Linked(mem: seq<nat>, at: map<Node, nat>, k: Node, i: nat)
    requires k in at && k.level > 0
  {
    var e := Word(mem, at[k], i);
    && (Present(e) <==> k.Child(i) in at)
    && (k.Child(i) in at ==> Frame(e) == at[k.Child(i)] && Opens(e))
  }

  /** Table k lies in memory and, unless it is the root, hangs under its parent. */
  ghost predicate Placed(mem: seq<nat>, at: map<Node, nat>, k: Node)
    requires k in at
  {
    && k.level <= 3
    && ENTRIES * at[k] + ENTRIES <= |mem|
    && (k.level == 3 ==> k == ROOT)
    && (k.level < 3 ==> k.Parent() in at)
  }

  /** Two tables never share a page. */
  ghost predicate Apart(at: map<Node, nat>, k: Node, m: Node)
    requires k in at && m in at
  {
    at[k] == at[m] ==> k == m
  }

  /** The tables form a tree of distinct pages: `at` gives the page of every table. */
  ghost predicate Tree(mem: seq<nat>, at: map<Node, nat>, root: nat) {
    && ROOT in at && at[ROOT] == root
    && (forall k {:trigger Placed(mem, at, k)} :: k in at ==> Placed(mem, at, k))
    && (forall k, m {:trigger Apart(at, k, m)} :: k in at && m in at ==> Apart(at, k, m))
    && (forall k, i: nat {:trigger Linked(mem, at, k, i)} ::
          k in at && k.level > 0 && i < ENTRIES ==> Linked(mem, at, k, i))
  }

  /** The table of the last level that serves a page number. */
  function LeafNode(vpn: nat): Node { Node(0, vpn / ENTRIES) }

  /** The translation read off the last-level tables alone. */
  ghost function LeafView(mem: seq<nat>, at: map<Node, nat>, vpn: nat): Option<Leaf> {
    if LeafNode(vpn) !in at then None
    else
      Seen(Word(mem, at[LeafNode(vpn)], vpn % ENTRIES))
  }

  lemma {:induction false} Ancestors(mem: seq<nat>, at: map<Node, nat>, root: nat, vpn: nat, low: nat, high: nat)
    requires Tree(mem, at, root) && low <= high <= 3
    requires Node(low, Prefix(vpn, low + 1)) in at
    ensures Node(high, Prefix(vpn, high + 1)) in at
    decreases high
  {
    if low < high {
      Ancestors(mem, at, root, vpn, low, high - 1);
      var k := Node(high - 1, Prefix(vpn, high));
      assert Placed(mem, at, k);
      assert k.Parent() == Node(high, Prefix(vpn, high + 1));
    }
  }

  /** The walk from any table on the path of vpn ends where the last-level table says. */
  lemma {:induction false} ResolveIsLeaf(mem: seq<nat>, at: map<Node, nat>, root: nat, vpn: nat, level: nat)
    requires Tree(mem, at, root) && level <= 3
    requires Node(level, Prefix(vpn, level + 1)) in at
    ensures Resolve(mem, at[Node(level, Prefix(vpn, level + 1))], level, vpn) == LeafView(mem, at, vpn)
    decreases level
  {
    var k := Node(level, Prefix(vpn, level + 1));
    var i := Index(vpn, level);
    assert Prefix(vpn, 1) == vpn / ENTRIES;
    if level > 0 {
      assert Linked(mem, at, k, i);
      var child := k.Child(i);
      assert child == Node(level - 1, Prefix(vpn, level)) by {
        assert Prefix(vpn, level + 1) == Prefix(vpn, level) / ENTRIES;
      }
      if child in at {
        ResolveIsLeaf(mem, at, root, vpn, level - 1);
      } else if LeafNode(vpn) in at {
        Ancestors(mem, at, root, vpn, 0, level - 1);
      }
    }
  }

  lemma PrefixAboveRoot(vpn: nat)
    requires vpn < VPNS
    ensures Prefix(vpn, 4) == 0
  {
    assert Prefix(vpn, 1) == vpn / 512;
    assert Prefix(vpn, 2) == vpn / 512 / 512;
    assert Prefix(vpn, 3) == vpn / 512 / 512 / 512;
  }

  lemma TranslateIsLeaf(mem: seq<nat>, at: map<Node, nat>, root: nat, vpn: nat)
    requires Tree(mem, at, root) && vpn < VPNS
    ensures Translate(mem, root, vpn) == LeafView(mem, at, vpn)
  {
    PrefixAboveRoot(vpn);
    ResolveIsLeaf(mem, at, root, vpn, 3);
  }

  lemma GrantsIsFlag(e: nat, bit: nat)
    requires bit in {WRITE, USER}
    ensures Grants(e, bit) == Grants(e % PAGE_SIZE, bit)
  {
    LowBits(e / PAGE_SIZE, e % PAGE_SIZE);
  }

  /** A multiple of the page size does not touch the flags. */
  lemma LowBits(q: nat, r: nat)
    ensures (q * PAGE_SIZE + r) / 2 % 2 == r / 2 % 2 && (q * PAGE_SIZE + r) / 4 % 2 == r / 4 % 2
  {
    Halve(q * 2048, r);
    Even(q * 1024, r / 2);
    Quarter(q * 1024, r);
    Even(q * 512, r / 4);
  }

  lemma Halve(a: nat, r: nat)
    ensures (2 * a + r) / 2 == a + r / 2
  {
  }

  lemma Quarter(a: nat, r: nat)
    ensures (4 * a + r) / 4 == a + r / 4
  {
  }

  lemma Even(a: nat, r: nat)
    ensures (2 * a + r) % 2 == r % 2
  {
  }

  lemma {:induction false} AllowedBelow(mem: seq<nat>, at: map<Node, nat>, root: nat, vpn: nat, level: nat, bit: nat)
    requires Tree(mem, at, root) && level <= 3 && bit in {WRITE, USER}
    requires Node(level, Prefix(vpn, level + 1)) in at
    ensures Allowed(mem, at[Node(level, Prefix(vpn, level + 1))], level, vpn, bit)
            <==> LeafView(mem, at, vpn).Some? && Grants(LeafView(mem, at, vpn).value.flags, bit)
    decreases level
  {
    var k := Node(level, Prefix(vpn, level + 1));
    var i := Index(vpn, level);
    assert Prefix(vpn, 1) == vpn / ENTRIES;
    if level == 0 {
      GrantsIsFlag(Word(mem, at[k], i), bit);
    } else {
      assert Linked(mem, at, k, i);
      assert k.Child(i) == Node(level - 1, Prefix(vpn, level)) by {
        assert Prefix(vpn, level + 1) == Prefix(vpn, level) / ENTRIES;
      }
      if k.Child(i) in at {
        AllowedBelow(mem, at, root, vpn, level - 1, bit);
      } else if LeafNode(vpn) in at {
        Ancestors(mem, at, root, vpn, 0, level - 1);
      }
    }
  }

  /** The tables of a tree take nothing away: user mode may reach a page, and a store may change it,
      exactly when it is mapped and its own entry says so. */
  lemma AllowedIsLeaf(mem: seq<nat>, at: map<Node, nat>, root: nat, vpn: nat, bit: nat)
    requires Tree(mem, at, root) && vpn < VPNS && bit in {WRITE, USER}
    ensures var leaf := Translate(mem, root, vpn);
            Allowed(mem, root, 3, vpn, bit) <==> leaf.Some? && Grants(leaf.value.flags, bit)
  {
    TranslateIsLeaf(mem, at, root, vpn);
    PrefixAboveRoot(vpn);
    AllowedBelow(mem, at, root, vpn, 3, bit);
  }

  function Cleared(mem: seq<nat>, t: nat): (r: seq<nat>)
    ensures |r| == |mem|
  {
    seq(|mem|, w requires 0 <= w < |mem| => if ENTRIES * t <= w < ENTRIES * t + ENTRIES then 0 else mem[w])
  }

  lemma ClearedThenLinked(mem: seq<nat>, t: nat, i: nat, n: nat)
    requires t != n && i < ENTRIES && ENTRIES * n + ENTRIES <= |mem| && ENTRIES * t + ENTRIES <= |mem|
    ensures Grown(mem, Cleared(mem, n)[ENTRIES * t + i := n * PAGE_SIZE + TABLE_FLAGS], t, i, n)
  {
    LinkOpens(n);
  }

  lemma LinkWord(n: nat)
    ensures Present(n * PAGE_SIZE + TABLE_FLAGS) && Frame(n * PAGE_SIZE + TABLE_FLAGS) == n
  {
  }

  lemma LinkOpens(n: nat)
    ensures Opens(n * PAGE_SIZE + TABLE_FLAGS)
  {
    LowBits(n, TABLE_FLAGS);
  }

  /** mem' is mem with page n cleared and word i of page t pointing at page n. */
  ghost predicate Grown(mem: seq<nat>, mem': seq<nat>, t: nat, i: nat, n: nat) {
    && |mem'| == |mem|
    && t != n && i < ENTRIES
    && ENTRIES * n + ENTRIES <= |mem| && ENTRIES * t + ENTRIES <= |mem|
    && (forall j: nat :: j < ENTRIES ==> Word(mem', n, j) == 0)
    && Word(mem', t, i) == n * PAGE_SIZE + TABLE_FLAGS && Opens(Word(mem', t, i))
    && (forall u: nat, j: nat :: u != n && j < ENTRIES && !(u == t && j == i) ==> Word(mem', u, j) == Word(mem, u, j))
  }

  /** Hanging a fresh, cleared page under an absent entry keeps the tree a tree and
      changes no translation. */
  lemma GrowTree(mem: seq<nat>, mem': seq<nat>, at: map<Node, nat>, root: nat, k: Node, i: nat, n: nat)
    requires Tree(mem, at, root) && k in at && k.level > 0 && i < ENTRIES
    requires k.Child(i) !in at && n !in at.Values
    requires Grown(mem, mem', at[k], i, n)
    ensures Tree(mem', at[k.Child(i) := n], root)
    ensures forall vpn: nat :: LeafView(mem', at[k.Child(i) := n], vpn) == LeafView(mem, at, vpn)
  {
    var child, at' := k.Child(i), at[k.Child(i) := n];
    assert child.Parent() == k;
    assert forall m :: m in at ==> at[m] in at.Values;
    forall m | m in at' ensures Placed(mem', at', m) {
      assert Placed(mem, at, k);
      assert m in at ==> Placed(mem, at, m);
    }
    forall m, m2 | m in at' && m2 in at' ensures Apart(at', m, m2) {
      assert m in at && m2 in at ==> Apart(at, m, m2);
    }
    forall m, j: nat | m in at' && m.level > 0 && j < ENTRIES
      ensures Linked(mem', at', m, j)
    {
      GrowLinked(mem, mem', at, root, k, i, n, m, j);
    }
    forall vpn: nat ensures LeafView(mem', at', vpn) == LeafView(mem, at, vpn) {
      if LeafNode(vpn) in at { assert Apart(at, k, LeafNode(vpn)); }
    }
  }

  lemma GrowLinked(mem: seq<nat>, mem': seq<nat>, at: map<Node, nat>, root: nat,
                   k: Node, i: nat, n: nat, m: Node, j: nat)
    requires Tree(mem, at, root) && k in at && k.level > 0 && i < ENTRIES
    requires k.Child(i) !in at && n !in at.Values
    requires Grown(mem, mem', at[k], i, n)
    requires m in at[k.Child(i) := n] && m.level > 0 && j < ENTRIES
    ensures Linked(mem', at[k.Child(i) := n], m, j)
  {
    var child := k.Child(i);
    assert m.Child(j).Parent() == m;
    if m == child {
      assert Placed(mem, at, k);
      assert child.Child(j) in at ==> Placed(mem, at, child.Child(j));
      assert child.Child(j) !in at;
    } else {
      assert at[m] in at.Values;
      assert Linked(mem, at, m, j) && Apart(at, m, k);
      assert m.Child(j) == child <==> m == k && j == i;
    }
  }

  /** Writing one last-level entry changes the translation of that one page. */
  lemma WriteLeaf(mem: seq<nat>, mem': seq<nat>, at: map<Node, nat>, root: nat, vpn: nat, i: nat, e: nat)
    requires Tree(mem, at, root) && LeafNode(vpn) in at && i == vpn % ENTRIES
    requires ENTRIES * at[LeafNode(vpn)] + ENTRIES <= |mem| && mem' == mem[ENTRIES * at[LeafNode(vpn)] + i := e]
    ensures Tree(mem', at, root)
    ensures forall v: nat :: LeafView(mem', at, v) == if v == vpn then Seen(e) else LeafView(mem, at, v)
  {
    var leaf := LeafNode(vpn);
    assert Placed(mem, at, leaf);
    forall m | m in at ensures Placed(mem', at, m) {
      assert Placed(mem, at, m);
    }
    forall m, j: nat | m in at && m.level > 0 && j < ENTRIES
      ensures Linked(mem', at, m, j)
    {
      assert Linked(mem, at, m, j) && Apart(at, m, leaf);
    }
    forall v: nat
      ensures LeafView(mem', at, v) == if v == vpn then Seen(e) else LeafView(mem, at, v)
    {
      if LeafNode(v) in at { assert Apart(at, LeafNode(v), leaf); }
    }
  }
}
