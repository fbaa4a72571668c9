/** The kernel heap of heap.c as a list of blocks in address order: first-fit with splitting,
    and a coalescing sweep on every free. */
module HeapSpec {
  import opened Common

  const HEADER := 24
  const POOL := 1024 * 4096
  const SPLIT := HEADER + 16 // a block is split only when more than this would be left over

  /** A block is a header at `addr` followed by `size` bytes. */
  datatype Block = Block(addr: nat, size: nat, free: bool) {
    function End(): nat { addr + HEADER + size }
    function Payload(): nat { addr + HEADER }
  }

  /** The blocks fill [lo, hi) exactly, in address order. */
  ghost predicate Tiled(bs: seq<Block>, lo: nat, hi: nat)
    decreases |bs|
  {
    if bs == [] then lo == hi else bs[0].addr == lo && Tiled(bs[1..], bs[0].End(), hi)
  }

  ghost predicate NoFreeNeighbours(bs: seq<Block>) {
    forall k :: 0 <= k < |bs| - 1 ==> !(bs[k].free && bs[k + 1].free)
  }

  ghost predicate Sized(bs: seq<Block>) {
    forall k :: 0 <= k < |bs| ==> bs[k].size % 8 == 0 && bs[k].size > 0
  }

  ghost predicate Canonical(bs: seq<Block>, lo: nat, hi: nat) {
    Tiled(bs, lo, hi) && Sized(bs) && NoFreeNeighbours(bs)
  }

  function Initial(lo: nat): seq<Block> {
    [Block(lo, POOL - HEADER, true)]
  }

  /** The blocks handed out. */
  ghost function Live(bs: seq<Block>): set<Block> {
    set b | b in bs && !b.free
  }

  // ---------- the operations ----------

  function Round(n: nat): nat { (n + 7) / 8 * 8 }

  predicate Fits(b: Block, size: nat) { b.free && b.size >= size }

  /** The chosen block, split when the rest is worth a block of its own. */
  function Carve(b: Block, size: nat): seq<Block>
    requires Fits(b, size)
  {
    if b.size > size + SPLIT
    then [Block(b.addr, size, false), Block(b.addr + HEADER + size, b.size - size - HEADER, true)]
    else [b.(free := false)]
  }

  /** The index of the first block that fits, |bs| if there is none. */
  function FirstFit(bs: seq<Block>, size: nat): (k: nat)
    ensures k <= |bs|
    ensures k < |bs| ==> Fits(bs[k], size)
    ensures forall i :: 0 <= i < k ==> !Fits(bs[i], size)
  {
    if bs == [] then 0 else if Fits(bs[0], size) then 0 else 1 + FirstFit(bs[1..], size)
  }

  /** kmalloc: the new list and the address of the payload. */
  function Malloc(bs: seq<Block>, n: nat): (seq<Block>, Option<nat>) {
    var size, k := Round(n), FirstFit(bs, Round(n));
    if n == 0 || k == |bs| then (bs, None)
    else (bs[..k] + Carve(bs[k], size) + bs[k + 1..], Some(bs[k].Payload()))
  }

  function Merge(a: Block, b: Block): Block {
    Block(a.addr, a.size + b.size + HEADER, true)
  }

  /** The coalescing sweep: two free neighbours become one block, which is looked at again. */
  function Sweep(bs: seq<Block>): seq<Block>
    decreases |bs|
  {
    if |bs| < 2 then bs
    else if bs[0].free && bs[1].free then Sweep([Merge(bs[0], bs[1])] + bs[2..])
    else [bs[0]] + Sweep(bs[1..])
  }

  /** kfree of the block with index k. */
  function Free(bs: seq<Block>, k: nat): seq<Block>
    requires k < |bs|
  {
    Sweep(bs[k := bs[k].(free := true)])
  }

  // ---------- tilings ----------

  /** Block k starts after every earlier block has ended. */
  lemma {:induction false} Ordered(bs: seq<Block>, lo: nat, hi: nat)
    requires Tiled(bs, lo, hi)
    ensures lo <= hi
    ensures forall k :: 0 <= k < |bs| ==> lo <= bs[k].addr && bs[k].End() <= hi
    ensures forall i, j :: 0 <= i < j < |bs| ==> bs[i].End() <= bs[j].addr
    decreases |bs|
  {
    if bs != [] { Ordered(bs[1..], bs[0].End(), hi); }
  }

  lemma {:induction false} Adjacent(bs: seq<Block>, lo: nat, hi: nat)
    requires Tiled(bs, lo, hi)
    ensures forall k :: 0 <= k < |bs| - 1 ==> bs[k + 1].addr == bs[k].End()
    ensures bs != [] ==> bs[0].addr == lo && bs[|bs| - 1].End() == hi
    decreases |bs|
  {
    if bs != [] {
      Adjacent(bs[1..], bs[0].End(), hi);
      forall k | 0 <= k < |bs| - 1 ensures bs[k + 1].addr == bs[k].End() {
        if k > 0 { assert bs[1..][k] == bs[k + 1] && bs[1..][k - 1] == bs[k]; }
      }
    }
  }

  /** A piece of a tiling can be replaced by another tiling of the same stretch. */
  lemma {:induction false} Splice(xs: seq<Block>, was: seq<Block>, now: seq<Block>, ys: seq<Block>,
                                  lo: nat, hi: nat, mid: nat, end: nat)
    requires Tiled(xs + was + ys, lo, hi)
    requires Tiled(was, mid, end) && Tiled(now, mid, end) && was != []
    ensures xs == [] ==> lo == mid
    ensures Tiled(xs + now + ys, lo, hi)
    decreases |xs|
  {
    if xs == [] {
      assert xs + was + ys == was + ys && xs + now + ys == now + ys;
      Adjacent(was, mid, end);
      TiledAppend(was, ys, lo, hi, end);
      TiledJoin(now, ys, mid, end, hi);
    } else {
      assert (xs + was + ys)[1..] == xs[1..] + was + ys;
      Splice(xs[1..], was, now, ys, xs[0].End(), hi, mid, end);
      assert (xs + now + ys)[1..] == xs[1..] + now + ys;
    }
  }

  lemma {:induction false} TiledAppend(xs: seq<Block>, ys: seq<Block>, lo: nat, hi: nat, end: nat)
    requires Tiled(xs + ys, lo, hi) && xs != [] && xs[|xs| - 1].End() == end
    ensures Tiled(ys, end, hi)
    decreases |xs|
  {
    assert (xs + ys)[1..] == xs[1..] + ys;
    if |xs| == 1 {
      assert xs[1..] + ys == ys;
    } else {
      TiledAppend(xs[1..], ys, xs[0].End(), hi, end);
    }
  }

  lemma {:induction false} TiledJoin(xs: seq<Block>, ys: seq<Block>, lo: nat, mid: nat, hi: nat)
    requires Tiled(xs, lo, mid) && Tiled(ys, mid, hi)
    ensures Tiled(xs + ys, lo, hi)
    decreases |xs|
  {
    if xs == [] {
      assert xs + ys == ys;
    } else {
      assert (xs + ys)[1..] == xs[1..] + ys;
      TiledJoin(xs[1..], ys, xs[0].End(), mid, hi);
    }
  }

  // ---------- the canonical form ----------

  /** The first block is the one at lo, so it is live exactly when some live block starts there. */
  lemma HeadIsLive(bs: seq<Block>, lo: nat, hi: nat)
    requires Tiled(bs, lo, hi) && bs != []
    ensures forall b :: b in Live(bs) ==>
              b.addr >= lo && (b.addr == lo ==> b == bs[0]) && (b != bs[0] ==> b.addr >= bs[0].End())
  {
    Ordered(bs, lo, hi);
  }

  lemma LiveTail(bs: seq<Block>, lo: nat, hi: nat)
    requires Tiled(bs, lo, hi) && bs != []
    ensures Live(bs[1..]) == Live(bs) - {bs[0]}
  {
    Ordered(bs, lo, hi);
    forall b | b in Live(bs) && b != bs[0] ensures b in bs[1..] {
      var k :| 0 <= k < |bs| && bs[k] == b;
      assert bs[1..][k - 1] == b;
    }
  }

  /** The end of a free first block is fixed by the live blocks: it cannot stop short of where
      another list says the free stretch ends. */
  lemma FreeHeadReaches(cs: seq<Block>, bs: seq<Block>, lo: nat, hi: nat)
    requires Canonical(cs, lo, hi) && Canonical(bs, lo, hi) && cs != [] && bs != []
    requires Live(cs) == Live(bs) && cs[0].free && bs[0].free
    ensures cs[0].End() >= bs[0].End()
  {
    Ordered(bs, lo, hi);
    if |cs| == 1 {
      assert Tiled(cs[1..], cs[0].End(), hi);
    } else {
      assert cs[1].addr == cs[0].End() by { Adjacent(cs, lo, hi); }
      assert !cs[1].free;
      assert cs[1] in Live(cs);
      HeadIsLive(bs, lo, hi);
    }
  }

  /** Two canonical lists over the same pool with the same live blocks are the same list: the
      whole heap is determined by what is handed out. */
  lemma {:induction false} CanonicalUnique(cs: seq<Block>, bs: seq<Block>, lo: nat, hi: nat)
    requires Canonical(cs, lo, hi) && Canonical(bs, lo, hi) && Live(cs) == Live(bs)
    ensures cs == bs
    decreases |cs|
  {
    Ordered(cs, lo, hi);
    Ordered(bs, lo, hi);
    if cs == [] || bs == [] {
      assert cs == [] && bs == [];
    } else {
      SameHead(cs, bs, lo, hi);
      LiveTail(cs, lo, hi);
      LiveTail(bs, lo, hi);
      CanonicalTail(cs, lo, hi);
      CanonicalTail(bs, lo, hi);
      CanonicalUnique(cs[1..], bs[1..], cs[0].End(), hi);
    }
  }

  lemma CanonicalTail(bs: seq<Block>, lo: nat, hi: nat)
    requires Canonical(bs, lo, hi) && bs != []
    ensures Canonical(bs[1..], bs[0].End(), hi)
  {
    forall k | 0 <= k < |bs[1..]| - 1 ensures !(bs[1..][k].free && bs[1..][k + 1].free) {
      assert bs[1..][k] == bs[k + 1] && bs[1..][k + 1] == bs[k + 2];
    }
  }

  lemma SameHead(cs: seq<Block>, bs: seq<Block>, lo: nat, hi: nat)
    requires Canonical(cs, lo, hi) && Canonical(bs, lo, hi) && Live(cs) == Live(bs)
    requires cs != [] && bs != []
    ensures cs[0] == bs[0]
  {
    HeadIsLive(cs, lo, hi);
    HeadIsLive(bs, lo, hi);
    assert !cs[0].free ==> cs[0] in Live(bs);
    assert !bs[0].free ==> bs[0] in Live(cs);
    if cs[0].free && bs[0].free {
      FreeHeadReaches(cs, bs, lo, hi);
      FreeHeadReaches(bs, cs, lo, hi);
    }
  }

  // ---------- one call ----------

  lemma LiveConcat(xs: seq<Block>, ys: seq<Block>)
    ensures Live(xs + ys) == Live(xs) + Live(ys)
  {
  }

  lemma LiveSplit(bs: seq<Block>, k: nat)
    requires k < |bs|
    ensures bs == bs[..k] + [bs[k]] + bs[k + 1..]
    ensures Live(bs) == Live(bs[..k]) + Live([bs[k]]) + Live(bs[k + 1..])
  {
    assert bs == bs[..k] + [bs[k]] + bs[k + 1..];
    LiveConcat(bs[..k] + [bs[k]], bs[k + 1..]);
    LiveConcat(bs[..k], [bs[k]]);
  }

  lemma MergeFacts(bs: seq<Block>, lo: nat, hi: nat)
    requires Tiled(bs, lo, hi) && Sized(bs) && |bs| >= 2 && bs[0].free && bs[1].free
    ensures var ms := [Merge(bs[0], bs[1])] + bs[2..];
            Tiled(ms, lo, hi) && Sized(ms) && Live(ms) == Live(bs)
  {
    var ms := [Merge(bs[0], bs[1])] + bs[2..];
    assert bs[1..][0] == bs[1] && bs[1..][1..] == bs[2..] == ms[1..];
    assert bs == [bs[0], bs[1]] + bs[2..];
    LiveConcat([bs[0], bs[1]], bs[2..]);
    LiveConcat([Merge(bs[0], bs[1])], bs[2..]);
  }

  /** The sweep moves no live block, keeps the tiling and leaves no two free neighbours,
      whatever list it starts from. */
  lemma {:induction false} SweepFacts(bs: seq<Block>, lo: nat, hi: nat)
    requires Tiled(bs, lo, hi) && Sized(bs)
    ensures Canonical(Sweep(bs), lo, hi) && Live(Sweep(bs)) == Live(bs)
    ensures bs != [] ==> Sweep(bs) != [] && Sweep(bs)[0].free == bs[0].free
    decreases |bs|
  {
    if |bs| < 2 {
    } else if bs[0].free && bs[1].free {
      MergeFacts(bs, lo, hi);
      SweepFacts([Merge(bs[0], bs[1])] + bs[2..], lo, hi);
    } else {
      var rest := Sweep(bs[1..]);
      SweepFacts(bs[1..], bs[0].End(), hi);
      assert ([bs[0]] + rest)[1..] == rest;
      assert bs == [bs[0]] + bs[1..];
      LiveConcat([bs[0]], bs[1..]);
      LiveConcat([bs[0]], rest);
    }
  }

  /** The list with block k replaced by the blocks c. */
  function Replace(bs: seq<Block>, k: nat, c: seq<Block>): seq<Block>
    requires k < |bs|
  {
    bs[..k] + c + bs[k + 1..]
  }

  lemma ReplaceFacts(bs: seq<Block>, lo: nat, hi: nat, k: nat, c: seq<Block>)
    requires Tiled(bs, lo, hi) && Sized(bs) && k < |bs|
    requires Tiled(c, bs[k].addr, bs[k].End()) && Sized(c)
    ensures Tiled(Replace(bs, k, c), lo, hi) && Sized(Replace(bs, k, c))
    ensures Live(Replace(bs, k, c)) == Live(bs) - {bs[k]} + Live(c)
  {
    var xs, b, ys := bs[..k], bs[k], bs[k + 1..];
    LiveSplit(bs, k);
    assert Tiled([b], b.addr, b.End());
    Splice(xs, [b], c, ys, lo, hi, b.addr, b.End());
    LiveConcat(xs + c, ys);
    LiveConcat(xs, c);
    OnlyOnce(bs, lo, hi, k);
    ReplaceSized(bs, k, c);
  }

  lemma OnlyOnce(bs: seq<Block>, lo: nat, hi: nat, k: nat)
    requires Tiled(bs, lo, hi) && k < |bs|
    ensures bs[k] !in Live(bs[..k]) && bs[k] !in Live(bs[k + 1..])
  {
    Ordered(bs, lo, hi);
  }

  lemma ReplaceSized(bs: seq<Block>, k: nat, c: seq<Block>)
    requires Sized(bs) && Sized(c) && k < |bs|
    ensures Sized(Replace(bs, k, c))
  {
    var r := Replace(bs, k, c);
    forall i | 0 <= i < |r| ensures r[i].size % 8 == 0 && r[i].size > 0 {
      assert r[i] == if i < k then bs[i] else if i < k + |c| then c[i - k] else bs[i - |c| + 1];
    }
  }

  /** kfree of a live block: the heap stays canonical and exactly that block stops being live. */
  lemma FreeCanonical(bs: seq<Block>, lo: nat, hi: nat, k: nat)
    requires Canonical(bs, lo, hi) && k < |bs| && !bs[k].free
    ensures Canonical(Free(bs, k), lo, hi)
    ensures Live(Free(bs, k)) == Live(bs) - {bs[k]}
  {
    var b := bs[k].(free := true);
    assert bs[k := b] == Replace(bs, k, [b]);
    assert Tiled([b], b.addr, b.End());
    ReplaceFacts(bs, lo, hi, k, [b]);
    SweepFacts(bs[k := b], lo, hi);
  }

  lemma RoundFacts(n: nat)
    ensures Round(n) % 8 == 0 && n <= Round(n) <= n + 7 && (n > 0 ==> Round(n) > 0)
  {
  }

  lemma CarveFacts(b: Block, size: nat)
    requires Fits(b, size) && b.size % 8 == 0 && size % 8 == 0 && size > 0
    ensures var c := Carve(b, size);
            && Tiled(c, b.addr, b.End()) && Sized(c) && Live(c) == {c[0]}
            && c[0].addr == b.addr && size <= c[0].size <= size + SPLIT
  {
    var c := Carve(b, size);
    if |c| == 2 {
      assert c[1..][0] == c[1] && c[1..][1..] == [];
    }
  }

  lemma CarveNeighbours(bs: seq<Block>, size: nat, k: nat)
    requires NoFreeNeighbours(bs) && k < |bs| && Fits(bs[k], size)
    ensures NoFreeNeighbours(Replace(bs, k, Carve(bs[k], size)))
  {
    var c := Carve(bs[k], size);
    var r := Replace(bs, k, c);
    forall i | 0 <= i < |r| - 1 ensures !(r[i].free && r[i + 1].free) {
      if i + 1 < k {
        assert r[i] == bs[i] && r[i + 1] == bs[i + 1];
      } else if i >= k + |c| {
        assert r[i] == bs[i - |c| + 1] && r[i + 1] == bs[i - |c| + 2];
      } else if i == k + |c| - 1 {
        assert r[i + 1] == bs[k + 1];
      }
    }
  }

  lemma ApartFromLive(bs: seq<Block>, lo: nat, hi: nat, k: nat)
    requires Tiled(bs, lo, hi) && k < |bs| && bs[k].free
    ensures forall b :: b in Live(bs) ==> b.End() <= bs[k].addr || bs[k].End() <= b.addr
    ensures lo <= bs[k].addr && bs[k].End() <= hi
  {
    Ordered(bs, lo, hi);
  }

  /** kmalloc that succeeds: the heap stays canonical and exactly one block becomes live. It is
      aligned like the pool, lies in the pool, overlaps no live block, and exceeds the request by
      at most 47 bytes. */
  lemma MallocCanonical(bs: seq<Block>, lo: nat, hi: nat, n: nat)
    requires Canonical(bs, lo, hi) && lo % 8 == 0 && Malloc(bs, n).1.Some?
    ensures Canonical(Malloc(bs, n).0, lo, hi)
    ensures var (bs', p) := Malloc(bs, n);
            var k := FirstFit(bs, Round(n));
            && k < |bs'| && !bs'[k].free && bs'[k].Payload() == p.value && Live(bs') == Live(bs) + {bs'[k]}
            && bs'[k] !in Live(bs) && n <= bs'[k].size <= n + 47
            && lo < p.value && p.value + bs'[k].size <= hi && p.value % 8 == 0
            && forall b :: b in Live(bs) ==> b.End() <= bs'[k].addr || bs'[k].End() <= b.addr
  {
    var size, k := Round(n), FirstFit(bs, Round(n));
    RoundFacts(n);
    var c := Carve(bs[k], size);
    assert Malloc(bs, n).0 == Replace(bs, k, c) && Replace(bs, k, c)[k] == c[0];
    CarveInPlace(bs, lo, hi, k, size);
    ApartFromLive(bs, lo, hi, k);
    AlignedAt(bs, lo, hi, k);
    PayloadAligned(bs[k]);
  }

  lemma PayloadAligned(b: Block)
    requires b.addr % 8 == 0
    ensures b.Payload() % 8 == 0
  {
  }

  /** Carving a block out of a free one in the list. */
  lemma CarveInPlace(bs: seq<Block>, lo: nat, hi: nat, k: nat, size: nat)
    requires Canonical(bs, lo, hi) && k < |bs| && Fits(bs[k], size) && size % 8 == 0 && size > 0
    ensures var c := Carve(bs[k], size);
            && Canonical(Replace(bs, k, c), lo, hi) && Live(Replace(bs, k, c)) == Live(bs) + {c[0]}
            && !c[0].free && c[0].addr == bs[k].addr && c[0].End() <= bs[k].End() && size <= c[0].size <= size + SPLIT
  {
    var c := Carve(bs[k], size);
    CarveFacts(bs[k], size);
    ReplaceFacts(bs, lo, hi, k, c);
    CarveNeighbours(bs, size, k);
    assert bs[k] !in Live(bs);
  }

  lemma {:induction false} AlignedAt(bs: seq<Block>, lo: nat, hi: nat, k: nat)
    requires Tiled(bs, lo, hi) && Sized(bs) && lo % 8 == 0 && k < |bs|
    ensures bs[k].addr % 8 == 0
    decreases |bs|
  {
    if k > 0 { AlignedAt(bs[1..], bs[0].End(), hi, k - 1); }
  }

  /** kmalloc and then kfree of the result gives back the very same list, from any canonical heap. */
  lemma MallocThenFree(bs: seq<Block>, lo: nat, hi: nat, n: nat)
    requires Canonical(bs, lo, hi) && lo % 8 == 0 && Malloc(bs, n).1.Some?
    ensures var (bs', p) := Malloc(bs, n);
            var k := FirstFit(bs, Round(n));
            k < |bs'| && bs'[k].Payload() == p.value && Free(bs', k) == bs
  {
    var (bs', p) := Malloc(bs, n);
    var k := FirstFit(bs, Round(n));
    MallocCanonical(bs, lo, hi, n);
    FreeCanonical(bs', lo, hi, k);
    CanonicalUnique(Free(bs', k), bs, lo, hi);
  }

  // ---------- first fit is complete ----------

  /** A longest stretch of the pool that no live block touches. */
  ghost predicate Gap(live: set<Block>, lo: nat, hi: nat, a: nat, e: nat) {
    && lo <= a < e <= hi
    && (forall b :: b in live ==> b.End() <= a || e <= b.addr)
    && (a == lo || exists b :: b in live && b.End() == a)
    && (e == hi || exists b :: b in live && b.addr == e)
  }

  lemma FreeBlockIsGap(bs: seq<Block>, lo: nat, hi: nat, k: nat)
    requires Canonical(bs, lo, hi) && k < |bs| && bs[k].free
    ensures Gap(Live(bs), lo, hi, bs[k].addr, bs[k].End())
  {
    Ordered(bs, lo, hi);
    Adjacent(bs, lo, hi);
    if k > 0 { assert !bs[k - 1].free && bs[k - 1] in Live(bs); }
    if k + 1 < |bs| { assert !bs[k + 1].free && bs[k + 1] in Live(bs); }
  }

  lemma GapStart(bs: seq<Block>, lo: nat, hi: nat, a: nat, e: nat) returns (k: nat)
    requires Canonical(bs, lo, hi) && Gap(Live(bs), lo, hi, a, e)
    ensures k < |bs| && bs[k].free && bs[k].addr == a
  {
    Ordered(bs, lo, hi);
    Adjacent(bs, lo, hi);
    if a == lo {
      k := 0;
    } else {
      var b :| b in Live(bs) && b.End() == a;
      var i :| 0 <= i < |bs| && bs[i] == b;
      k := i + 1;
    }
    assert bs[k].addr == a && bs[k] in bs;
  }

  lemma GapIsFreeBlock(bs: seq<Block>, lo: nat, hi: nat, a: nat, e: nat) returns (k: nat)
    requires Canonical(bs, lo, hi) && Gap(Live(bs), lo, hi, a, e)
    ensures k < |bs| && bs[k].free && bs[k].addr == a && bs[k].End() == e
  {
    k := GapStart(bs, lo, hi, a, e);
    FreeBlockIsGap(bs, lo, hi, k);
  }

  /** kmalloc fails exactly when no gap between live blocks has room for a header and the
      rounded size, and otherwise takes the lowest such gap. */
  lemma MallocComplete(bs: seq<Block>, lo: nat, hi: nat, n: nat)
    requires Canonical(bs, lo, hi) && n > 0
    ensures Malloc(bs, n).1.None?
            <==> forall a: nat, e: nat :: Gap(Live(bs), lo, hi, a, e) ==> e - a < HEADER + Round(n)
    ensures Malloc(bs, n).1.Some? ==>
      forall a: nat, e: nat :: Gap(Live(bs), lo, hi, a, e) && e - a >= HEADER + Round(n) ==>
        Malloc(bs, n).1.value <= a + HEADER
  {
    var k := FirstFit(bs, Round(n));
    Ordered(bs, lo, hi);
    if k < |bs| { FreeBlockIsGap(bs, lo, hi, k); }
    forall a: nat, e: nat | Gap(Live(bs), lo, hi, a, e) && e - a >= HEADER + Round(n)
      ensures k < |bs| && bs[k].Payload() <= a + HEADER
    {
      var i := GapIsFreeBlock(bs, lo, hi, a, e);
      assert Fits(bs[i], Round(n));
    }
  }

  /** The block handed out for a request, out of a free block with that room. */
  function Granted(addr: nat, room: nat, size: nat): Block {
    Block(addr, if room > size + 40 then size else room, false)
  }

  /** What kmalloc hands out, to the byte: the lowest gap with room for the 24 bytes of a header and
      the size rounded up to 8; all of it, unless more than 40 bytes would be left over, and then just
      the rounded size. */
  lemma MallocExact(bs: seq<Block>, lo: nat, hi: nat, n: nat, a: nat, e: nat)
    requires Canonical(bs, lo, hi) && lo % 8 == 0 && n > 0
    requires Gap(Live(bs), lo, hi, a, e) && e - a >= 24 + (n + 7) / 8 * 8
    requires forall b: nat, f: nat :: Gap(Live(bs), lo, hi, b, f) && f - b >= 24 + (n + 7) / 8 * 8 ==> a <= b
    ensures var size := (n + 7) / 8 * 8;
            && Malloc(bs, n).1 == Some(a + 24)
            && Live(Malloc(bs, n).0) == Live(bs) + {Granted(a, e - a - 24, size)}
  {
    var size := (n + 7) / 8 * 8;
    RoundFacts(n);
    CarvedGap(bs, lo, hi, size, a, e);
    MallocReplaces(bs, n, size);
  }

  lemma MallocReplaces(bs: seq<Block>, n: nat, size: nat)
    requires n > 0 && size == Round(n) && FirstFit(bs, size) < |bs|
    ensures var k := FirstFit(bs, size);
            Malloc(bs, n) == (Replace(bs, k, Carve(bs[k], size)), Some(bs[k].addr + HEADER))
  {
  }

  lemma CarvedGap(bs: seq<Block>, lo: nat, hi: nat, size: nat, a: nat, e: nat)
    requires Canonical(bs, lo, hi) && Gap(Live(bs), lo, hi, a, e) && e - a >= 24 + size && size > 0 && size % 8 == 0
    requires forall b: nat, f: nat :: Gap(Live(bs), lo, hi, b, f) && f - b >= 24 + size ==> a <= b
    ensures var k := FirstFit(bs, size);
            && k < |bs| && Fits(bs[k], size) && bs[k].addr == a
            && Live(Replace(bs, k, Carve(bs[k], size))) == Live(bs) + {Granted(a, e - a - 24, size)}
  {
    LowestGap(bs, lo, hi, size, a, e);
    var k := FirstFit(bs, size);
    CarveExact(bs, lo, hi, k, size);
    assert Granted(bs[k].addr, bs[k].size, size) == Granted(a, e - a - 24, size);
  }

  lemma CarveExact(bs: seq<Block>, lo: nat, hi: nat, k: nat, size: nat)
    requires Canonical(bs, lo, hi) && k < |bs| && Fits(bs[k], size) && size % 8 == 0 && size > 0
    ensures Live(Replace(bs, k, Carve(bs[k], size))) == Live(bs) + {Granted(bs[k].addr, bs[k].size, size)}
  {
    CarveInPlace(bs, lo, hi, k, size);
  }

  /** First fit finds the lowest gap that is large enough. */
  lemma LowestGap(bs: seq<Block>, lo: nat, hi: nat, size: nat, a: nat, e: nat)
    requires Canonical(bs, lo, hi) && Gap(Live(bs), lo, hi, a, e) && e - a >= HEADER + size
    requires forall b: nat, f: nat :: Gap(Live(bs), lo, hi, b, f) && f - b >= HEADER + size ==> a <= b
    ensures var k := FirstFit(bs, size); k < |bs| && bs[k] == Block(a, e - a - HEADER, true)
  {
    var i := GapIsFreeBlock(bs, lo, hi, a, e);
    var k := FirstFit(bs, size);
    assert Fits(bs[i], size);
    FreeBlockIsGap(bs, lo, hi, k);
    if k < i { Ordered(bs, lo, hi); }
  }

  // ---------- every run of kmalloc and kfree ----------

  datatype Op = Take(n: nat) | Give(p: nat)

  /** The index of the block with the given payload address, |bs| if there is none. */
  function Index(bs: seq<Block>, p: nat): (k: nat)
    ensures k <= |bs|
    ensures k < |bs| ==> bs[k].Payload() == p
    ensures forall i :: 0 <= i < k ==> bs[i].Payload() != p
  {
    if bs == [] then 0 else if bs[0].Payload() == p then 0 else 1 + Index(bs[1..], p)
  }

  /** A caller may free what it holds, and nothing else. */
  predicate Enabled(bs: seq<Block>, op: Op) {
    op.Give? ==> Index(bs, op.p) < |bs| && !bs[Index(bs, op.p)].free
  }

  function Apply(bs: seq<Block>, op: Op): seq<Block>
    requires Enabled(bs, op)
  {
    match op
    case Take(n) => Malloc(bs, n).0
    case Give(p) => Free(bs, Index(bs, p))
  }

  predicate ValidOps(bs: seq<Block>, ops: seq<Op>)
    decreases |ops|
  {
    ops == [] || (Enabled(bs, ops[0]) && ValidOps(Apply(bs, ops[0]), ops[1..]))
  }

  function Exec(bs: seq<Block>, ops: seq<Op>): seq<Block>
    requires ValidOps(bs, ops)
    decreases |ops|
  {
    if ops == [] then bs else Exec(Apply(bs, ops[0]), ops[1..])
  }

  /** The heap is in canonical form after every run. */
  lemma {:induction false} AlwaysCanonical(bs: seq<Block>, lo: nat, hi: nat, ops: seq<Op>)
    requires Canonical(bs, lo, hi) && lo % 8 == 0 && ValidOps(bs, ops)
    ensures Canonical(Exec(bs, ops), lo, hi)
    decreases |ops|
  {
    if ops != [] {
      match ops[0] {
        case Take(n) => if Malloc(bs, n).1.Some? { MallocCanonical(bs, lo, hi, n); }
        case Give(p) => FreeCanonical(bs, lo, hi, Index(bs, p));
      }
      AlwaysCanonical(Apply(bs, ops[0]), lo, hi, ops[1..]);
    }
  }

  lemma InitialCanonical(lo: nat)
    ensures Canonical(Initial(lo), lo, lo + POOL) && Live(Initial(lo)) == {}
  {
    assert Initial(lo)[1..] == [];
  }

  /** History does not matter: two runs from the fresh heap that leave the same blocks live leave
      the same list; in particular, once everything is freed the heap is the fresh heap again. */
  lemma HistoryIndependent(lo: nat, ops: seq<Op>, ops': seq<Op>)
    requires lo % 8 == 0 && ValidOps(Initial(lo), ops) && ValidOps(Initial(lo), ops')
    ensures Live(Exec(Initial(lo), ops)) == Live(Exec(Initial(lo), ops')) ==>
              Exec(Initial(lo), ops) == Exec(Initial(lo), ops')
    ensures Live(Exec(Initial(lo), ops)) == {} ==> Exec(Initial(lo), ops) == Initial(lo)
  {
    InitialCanonical(lo);
    AlwaysCanonical(Initial(lo), lo, lo + POOL, ops);
    AlwaysCanonical(Initial(lo), lo, lo + POOL, ops');
    if Live(Exec(Initial(lo), ops)) == Live(Exec(Initial(lo), ops')) {
      CanonicalUnique(Exec(Initial(lo), ops), Exec(Initial(lo), ops'), lo, lo + POOL);
    }
    if Live(Exec(Initial(lo), ops)) == {} {
      CanonicalUnique(Exec(Initial(lo), ops), Initial(lo), lo, lo + POOL);
    }
  }

  ghost function Payloads(live: set<Block>): set<nat> {
    set b | b in live :: b.Payload()
  }

  lemma PayloadsAdd(live: set<Block>, b: Block)
    ensures Payloads(live + {b}) == Payloads(live) + {b.Payload()}
  {
    forall c | c in live + {b} ensures c.Payload() in Payloads(live) + {b.Payload()} {
    }
    assert b in live + {b};
  }

  lemma PayloadsRemove(live: set<Block>, b: Block)
    requires b in live && forall c :: c in live && c.Payload() == b.Payload() ==> c == b
    ensures Payloads(live - {b}) == Payloads(live) - {b.Payload()}
  {
    forall p | p in Payloads(live) - {b.Payload()} ensures p in Payloads(live - {b}) {
      var c :| c in live && c.Payload() == p;
      assert c in live - {b};
    }
  }

  lemma PayloadsDistinct(bs: seq<Block>, lo: nat, hi: nat, b: Block)
    requires Tiled(bs, lo, hi) && b in bs
    ensures forall c :: c in bs && c.Payload() == b.Payload() ==> c == b
  {
    Ordered(bs, lo, hi);
  }

  function Gives(ps: seq<nat>): seq<Op> {
    if ps == [] then [] else [Give(ps[0])] + Gives(ps[1..])
  }

  lemma IndexOfLive(bs: seq<Block>, lo: nat, hi: nat, b: Block)
    requires Tiled(bs, lo, hi) && b in Live(bs)
    ensures Index(bs, b.Payload()) < |bs| && bs[Index(bs, b.Payload())] == b
  {
    Ordered(bs, lo, hi);
    var i :| 0 <= i < |bs| && bs[i] == b;
  }

  /** Freeing all live blocks, in any order at all, restores the single initial block. */
  lemma {:induction false} FreeAll(bs: seq<Block>, lo: nat, ps: seq<nat>)
    requires Canonical(bs, lo, lo + POOL) && lo % 8 == 0
    requires forall i, j :: 0 <= i < j < |ps| ==> ps[i] != ps[j]
    requires (set p | p in ps) == Payloads(Live(bs))
    ensures ValidOps(bs, Gives(ps)) && Exec(bs, Gives(ps)) == Initial(lo)
    decreases |ps|
  {
    if ps == [] {
      InitialCanonical(lo);
      assert forall b :: b in Live(bs) ==> b.Payload() in Payloads(Live(bs));
      CanonicalUnique(bs, Initial(lo), lo, lo + POOL);
    } else {
      var p := ps[0];
      assert p in Payloads(Live(bs));
      var b :| b in Live(bs) && b.Payload() == p;
      IndexOfLive(bs, lo, lo + POOL, b);
      var next := Free(bs, Index(bs, p));
      FreeCanonical(bs, lo, lo + POOL, Index(bs, p));
      OthersRemain(bs, lo, lo + POOL, b, ps);
      assert Gives(ps)[0] == Give(p) && Gives(ps)[1..] == Gives(ps[1..]);
      FreeAll(next, lo, ps[1..]);
    }
  }

  lemma OthersRemain(bs: seq<Block>, lo: nat, hi: nat, b: Block, ps: seq<nat>)
    requires Tiled(bs, lo, hi) && b in Live(bs) && ps != [] && ps[0] == b.Payload()
    requires forall i, j :: 0 <= i < j < |ps| ==> ps[i] != ps[j]
    requires (set p | p in ps) == Payloads(Live(bs))
    ensures (set p | p in ps[1..]) == Payloads(Live(bs) - {b})
  {
    forall p | p in ps[1..] ensures p in Payloads(Live(bs) - {b}) {
      assert p in Payloads(Live(bs));
      var c :| c in Live(bs) && c.Payload() == p;
      assert c != b;
    }
    forall p | p in Payloads(Live(bs) - {b}) ensures p in ps[1..] {
      var c :| c in Live(bs) - {b} && c.Payload() == p;
      assert p in Payloads(Live(bs));
      assert p in ps;
      IndexOfLive(bs, lo, hi, c);
      IndexOfLive(bs, lo, hi, b);
    }
  }
}
