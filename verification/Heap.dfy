/** How the block list lies in the pool: each block starts with three words, its size, the
    address of the next header (0 at the end) and the free flag below the magic number. */
module HeapLayout {
  import opened HeapSpec

  const MAGIC := 0xBA41_0101
  const HALF := 0x1_0000_0000
  const ADDRESS_LIMIT := 0x1_0000_0000_0000

  function Flag(free: bool): nat { MAGIC * HALF + if free then 1 else 0 }

  /** The pool word at an address. */
  function Slot(base: nat, addr: nat): nat
    requires base <= addr
  {
    (addr - base) / 8
  }

  ghost predicate HeaderAt(words: seq<nat>, base: nat, b: Block, next: nat) {
    && base <= b.addr && (b.addr - base) % 8 == 0
    && var w := Slot(base, b.addr);
       w + 2 < |words| && words[w] == b.size && words[w + 1] == next && words[w + 2] == Flag(b.free)
  }

  /** The address of block k, 0 past the end of the list. */
  function AddrOf(bs: seq<Block>, k: nat): nat {
    if k < |bs| then bs[k].addr else 0
  }

  ghost predicate HeaderOf(words: seq<nat>, base: nat, bs: seq<Block>, k: nat)
    requires k < |bs|
  {
    HeaderAt(words, base, bs[k], AddrOf(bs, k + 1))
  }

  ghost predicate Laid(words: seq<nat>, base: nat, bs: seq<Block>) {
    forall k: nat {:trigger HeaderOf(words, base, bs, k)} :: k < |bs| ==> HeaderOf(words, base, bs, k)
  }

  /** A tiled list laid out in a pool of that size. */
  ghost predicate Stored(words: seq<nat>, base: nat, bs: seq<Block>) {
    && base > 0 && base % 8 == 0 && |words| == POOL / 8
    && Tiled(bs, base, base + POOL) && Sized(bs)
    && Laid(words, base, bs)
  }

  function Put(words: seq<nat>, base: nat, b: Block, next: nat): seq<nat>
    requires base <= b.addr && Slot(base, b.addr) + 2 < |words|
  {
    var w := Slot(base, b.addr);
    words[w := b.size][w + 1 := next][w + 2 := Flag(b.free)]
  }

  lemma PutHeader(words: seq<nat>, base: nat, b: Block, next: nat)
    requires base <= b.addr && (b.addr - base) % 8 == 0 && Slot(base, b.addr) + 2 < |words|
    ensures HeaderAt(Put(words, base, b, next), base, b, next)
  {
  }

  /** Writing one header leaves the header of any other block alone. */
  lemma PutElsewhere(words: seq<nat>, base: nat, b: Block, next: nat, c: Block, cnext: nat)
    requires base <= b.addr && (b.addr - base) % 8 == 0 && Slot(base, b.addr) + 2 < |words|
    requires HeaderAt(words, base, c, cnext)
    requires b.addr + HEADER <= c.addr || c.addr + HEADER <= b.addr
    ensures HeaderAt(Put(words, base, b, next), base, c, cnext)
  {
  }

  /** Every header of the list is inside the pool and aligned. */
  lemma Inside(base: nat, bs: seq<Block>, k: nat)
    requires Tiled(bs, base, base + POOL) && Sized(bs) && base % 8 == 0 && k < |bs|
    ensures base <= bs[k].addr && (bs[k].addr - base) % 8 == 0
    ensures Slot(base, bs[k].addr) + 2 < POOL / 8
    ensures bs[k].addr + HEADER + bs[k].size <= base + POOL
  {
    Ordered(bs, base, base + POOL);
    AlignedAt(bs, base, base + POOL, k);
  }

  /** Two blocks of a tiling leave room for each other's headers. */
  lemma HeadersApart(base: nat, bs: seq<Block>, i: nat, k: nat)
    requires Tiled(bs, base, base + POOL) && i < |bs| && k < |bs| && i != k
    ensures bs[i].addr + HEADER <= bs[k].addr || bs[k].addr + HEADER <= bs[i].addr
  {
    Ordered(bs, base, base + POOL);
  }

  /** Rewriting the header of block k, at the same place and with the same successor. */
  lemma LaidPut(words: seq<nat>, base: nat, bs: seq<Block>, k: nat, b: Block)
    requires Stored(words, base, bs) && k < |bs| && base <= b.addr == bs[k].addr && Slot(base, b.addr) + 2 < |words|
    ensures Laid(Put(words, base, b, AddrOf(bs, k + 1)), base, bs[k := b])
  {
    var bs', words' := bs[k := b], Put(words, base, b, AddrOf(bs, k + 1));
    Inside(base, bs, k);
    PutHeader(words, base, b, AddrOf(bs, k + 1));
    forall i: nat | i < |bs'| ensures HeaderOf(words', base, bs', i) {
      assert AddrOf(bs', i + 1) == AddrOf(bs, i + 1);
      if i != k {
        HeadersApart(base, bs, i, k);
        assert HeaderOf(words, base, bs, i);
        PutElsewhere(words, base, b, AddrOf(bs, k + 1), bs[i], AddrOf(bs, i + 1));
      }
    }
  }

  /** Marking block k free or used rewrites one word. */
  lemma StoreFlag(words: seq<nat>, base: nat, bs: seq<Block>, k: nat, free: bool, w: nat)
    requires Stored(words, base, bs) && k < |bs| && base <= bs[k].addr && w == Slot(base, bs[k].addr) && w + 2 < |words|
    ensures Stored(words[w + 2 := Flag(free)], base, bs[k := bs[k].(free := free)])
  {
    var b := bs[k].(free := free);
    assert HeaderOf(words, base, bs, k);
    assert words[w + 2 := Flag(free)] == Put(words, base, b, AddrOf(bs, k + 1));
    LaidPut(words, base, bs, k, b);
    assert bs[k := b] == Replace(bs, k, [b]) && Tiled([b], b.addr, b.End());
    ReplaceFacts(bs, base, base + POOL, k, [b]);
  }

  /** Splitting block k: the header of the rest is written first, then that of the block. */
  lemma StoreSplit(words: seq<nat>, base: nat, bs: seq<Block>, k: nat, size: nat, rest: Block, b: Block)
    requires Stored(words, base, bs) && k < |bs| && Fits(bs[k], size) && bs[k].size > size + SPLIT
    requires size % 8 == 0 && size > 0
    requires Carve(bs[k], size) == [b, rest]
    ensures base <= b.addr <= rest.addr && Slot(base, rest.addr) + 2 < |words| && Slot(base, b.addr) + 2 < |words|
    ensures Stored(Put(Put(words, base, rest, AddrOf(bs, k + 1)), base, b, rest.addr), base, Replace(bs, k, [b, rest]))
  {
    var bs' := Replace(bs, k, [b, rest]);
    CarveFacts(bs[k], size);
    ReplaceFacts(bs, base, base + POOL, k, [b, rest]);
    assert bs'[k] == b && bs'[k + 1] == rest;
    Inside(base, bs', k);
    Inside(base, bs', k + 1);
    var words1 := Put(words, base, rest, AddrOf(bs, k + 1));
    var words2 := Put(words1, base, b, rest.addr);
    PutHeader(words, base, rest, AddrOf(bs, k + 1));
    PutHeader(words1, base, b, rest.addr);
    forall i: nat | i < |bs'| ensures HeaderOf(words2, base, bs', i) {
      if i == k {
      } else if i == k + 1 {
        assert AddrOf(bs', k + 2) == AddrOf(bs, k + 1);
        PutElsewhere(words1, base, b, rest.addr, rest, AddrOf(bs, k + 1));
      } else {
        SplitOther(words, base, bs, k, rest, b, i);
      }
    }
  }

  /** The header of another block is as it was. */
  lemma SplitOther(words: seq<nat>, base: nat, bs: seq<Block>, k: nat, rest: Block, b: Block, i: nat)
    requires Stored(words, base, bs) && k < |bs| && Tiled(Replace(bs, k, [b, rest]), base, base + POOL)
    requires i < |bs| + 1 && i != k && i != k + 1 && b.addr == bs[k].addr
    requires base <= b.addr && (b.addr - base) % 8 == 0 && Slot(base, b.addr) + 2 < |words|
    requires base <= rest.addr && (rest.addr - base) % 8 == 0 && Slot(base, rest.addr) + 2 < |words|
    ensures i < |Replace(bs, k, [b, rest])|
    ensures HeaderOf(Put(Put(words, base, rest, AddrOf(bs, k + 1)), base, b, rest.addr), base,
                     Replace(bs, k, [b, rest]), i)
  {
    var bs', j := Replace(bs, k, [b, rest]), if i < k then i else i - 1;
    assert bs'[k] == b && bs'[k + 1] == rest && bs'[i] == bs[j];
    assert AddrOf(bs', i + 1) == AddrOf(bs, j + 1);
    assert HeaderOf(words, base, bs, j);
    HeadersApart(base, bs', i, k + 1);
    HeadersApart(base, bs', i, k);
    PutElsewhere(words, base, rest, AddrOf(bs, k + 1), bs[j], AddrOf(bs, j + 1));
    PutElsewhere(Put(words, base, rest, AddrOf(bs, k + 1)), base, b, rest.addr, bs[j], AddrOf(bs, j + 1));
  }

  /** The list with the free blocks k and k + 1 merged. */
  function Merged(bs: seq<Block>, k: nat): seq<Block>
    requires k + 1 < |bs|
  {
    bs[..k] + [Merge(bs[k], bs[k + 1])] + bs[k + 2..]
  }

  lemma MergedTiled(base: nat, bs: seq<Block>, k: nat)
    requires Tiled(bs, base, base + POOL) && Sized(bs) && k + 1 < |bs|
    ensures Tiled(Merged(bs, k), base, base + POOL) && Sized(Merged(bs, k))
  {
    var m := Merge(bs[k], bs[k + 1]);
    var pair := [bs[k], bs[k + 1]];
    Adjacent(bs, base, base + POOL);
    assert pair[1..] == [bs[k + 1]] && pair[1..][1..] == [];
    assert bs == bs[..k] + pair + bs[k + 2..];
    assert Tiled(pair, m.addr, m.End()) && Tiled([m], m.addr, m.End());
    Splice(bs[..k], pair, [m], bs[k + 2..], base, base + POOL, m.addr, m.End());
  }

  /** Merging rewrites the size and the successor of the first block. */
  lemma StoreMerge(words: seq<nat>, base: nat, bs: seq<Block>, k: nat, w: nat)
    requires Stored(words, base, bs) && k + 1 < |bs| && bs[k].free && bs[k + 1].free
    requires base <= bs[k].addr && w == Slot(base, bs[k].addr) && w + 2 < |words|
    ensures Stored(words[w := bs[k].size + bs[k + 1].size + HEADER][w + 1 := AddrOf(bs, k + 2)], base, Merged(bs, k))
  {
    var m, bs' := Merge(bs[k], bs[k + 1]), Merged(bs, k);
    var words' := words[w := bs[k].size + bs[k + 1].size + HEADER][w + 1 := AddrOf(bs, k + 2)];
    MergedTiled(base, bs, k);
    Inside(base, bs, k);
    assert HeaderOf(words, base, bs, k);
    assert words' == Put(words, base, m, AddrOf(bs, k + 2));
    PutHeader(words, base, m, AddrOf(bs, k + 2));
    forall i: nat | i < |bs'| ensures HeaderOf(words', base, bs', i) {
      assert AddrOf(bs', k + 1) == AddrOf(bs, k + 2);
      if i != k {
        var j := if i < k then i else i + 1;
        assert bs'[i] == bs[j] && AddrOf(bs', i + 1) == AddrOf(bs, j + 1);
        assert HeaderOf(words, base, bs, j);
        HeadersApart(base, bs, j, k);
        PutElsewhere(words, base, m, AddrOf(bs, k + 2), bs[j], AddrOf(bs, j + 1));
      }
    }
  }
}

/** What the allocator leaves to its callers, and what they may do with it. */
module HeapUse {
  import opened HeapSpec
  import opened HeapLayout

  /** Pool word i belongs to the payload of b. */
  ghost predicate Holds(b: Block, base: nat, i: nat) {
    b.Payload() <= base + 8 * i < b.End()
  }

  /** No word in the payload of a block of `live` has changed. */
  ghost predicate Kept(words: seq<nat>, words': seq<nat>, base: nat, live: set<Block>) {
    |words'| == |words| &&
    forall b, i: nat {:trigger Holds(b, base, i)} ::
      b in live && Holds(b, base, i) && i < |words| ==> words'[i] == words[i]
  }

  /** A word of a free block, or of the header of any block, belongs to no live payload. */
  lemma KeptWord(words: seq<nat>, base: nat, bs: seq<Block>, k: nat, i: nat, v: nat)
    requires Tiled(bs, base, base + POOL) && k < |bs| && i < |words| && bs[k].addr <= base + 8 * i < bs[k].End()
    requires bs[k].free || base + 8 * i < bs[k].Payload()
    ensures Kept(words, words[i := v], base, Live(bs))
  {
    Ordered(bs, base, base + POOL);
  }

  lemma KeptPut(words: seq<nat>, base: nat, bs: seq<Block>, k: nat, b: Block, next: nat)
    requires Tiled(bs, base, base + POOL) && k < |bs| && bs[k].free
    requires base <= bs[k].addr <= b.addr && b.addr + HEADER <= bs[k].End()
    requires (b.addr - base) % 8 == 0 && Slot(base, b.addr) + 2 < |words|
    ensures Kept(words, Put(words, base, b, next), base, Live(bs))
  {
    var w := Slot(base, b.addr);
    var words1 := words[w := b.size];
    var words2 := words1[w + 1 := next];
    KeptWord(words, base, bs, k, w, b.size);
    KeptWord(words1, base, bs, k, w + 1, next);
    KeptWord(words2, base, bs, k, w + 2, Flag(b.free));
    KeptTwice(words, words1, words2, base, Live(bs));
    KeptTwice(words, words2, words2[w + 2 := Flag(b.free)], base, Live(bs));
  }

  /** Handing out or freeing block k rewrites its flag only. */
  lemma KeptFlag(words: seq<nat>, base: nat, bs: seq<Block>, k: nat, w: nat, v: nat)
    requires Stored(words, base, bs) && k < |bs| && base <= bs[k].addr && w == Slot(base, bs[k].addr) && w + 2 < |words|
    ensures Kept(words, words[w + 2 := v], base, Live(bs))
  {
    Inside(base, bs, k);
    KeptWord(words, base, bs, k, w + 2, v);
  }

  lemma KeptSplit(words: seq<nat>, base: nat, bs: seq<Block>, k: nat, size: nat, rest: Block, b: Block)
    requires Stored(words, base, bs) && k < |bs| && Fits(bs[k], size) && bs[k].size > size + SPLIT && size % 8 == 0
    requires Carve(bs[k], size) == [b, rest]
    requires base <= b.addr <= rest.addr && Slot(base, rest.addr) + 2 < |words| && Slot(base, b.addr) + 2 < |words|
    ensures Kept(words, Put(Put(words, base, rest, AddrOf(bs, k + 1)), base, b, rest.addr), base, Live(bs))
  {
    Inside(base, bs, k);
    SplitPlace(bs[k], size, rest, b, base);
    KeptPuts(words, base, bs, k, rest, b, AddrOf(bs, k + 1));
  }

  lemma SplitPlace(f: Block, size: nat, rest: Block, b: Block, base: nat)
    requires Fits(f, size) && f.size > size + SPLIT && size % 8 == 0 && Carve(f, size) == [b, rest]
    requires base <= f.addr && (f.addr - base) % 8 == 0
    ensures b.addr == f.addr <= rest.addr && b.addr + HEADER <= f.End() && rest.addr + HEADER <= f.End()
    ensures base <= rest.addr && (rest.addr - base) % 8 == 0
  {
    assert Carve(f, size)[0] == b && Carve(f, size)[1] == rest;
  }

  lemma KeptPuts(words: seq<nat>, base: nat, bs: seq<Block>, k: nat, rest: Block, b: Block, next: nat)
    requires Tiled(bs, base, base + POOL) && k < |bs| && bs[k].free && base <= bs[k].addr == b.addr <= rest.addr
    requires b.addr + HEADER <= bs[k].End() && rest.addr + HEADER <= bs[k].End()
    requires (b.addr - base) % 8 == 0 && Slot(base, b.addr) + 2 < |words|
    requires (rest.addr - base) % 8 == 0 && Slot(base, rest.addr) + 2 < |words|
    ensures Kept(words, Put(Put(words, base, rest, next), base, b, rest.addr), base, Live(bs))
  {
    var words1 := Put(words, base, rest, next);
    KeptPut(words, base, bs, k, rest, next);
    KeptPut(words1, base, bs, k, b, rest.addr);
    KeptTwice(words, words1, Put(words1, base, b, rest.addr), base, Live(bs));
  }

  lemma KeptTwice(a: seq<nat>, b: seq<nat>, c: seq<nat>, base: nat, live: set<Block>)
    requires Kept(a, b, base, live) && Kept(b, c, base, live)
    ensures Kept(a, c, base, live)
  {
  }

  lemma KeptMerge(start: seq<nat>, words: seq<nat>, base: nat, bs: seq<Block>, k: nat, w: nat, sum: nat, next: nat)
    requires Stored(words, base, bs) && k + 1 < |bs| && bs[k].free && bs[k + 1].free
    requires base <= bs[k].addr && w == Slot(base, bs[k].addr) && w + 2 < |words|
    requires Kept(start, words, base, Live(bs))
    ensures Kept(start, words[w := sum][w + 1 := next], base, Live(bs)) && Live(Merged(bs, k)) == Live(bs)
  {
    Inside(base, bs, k);
    KeptWord(words, base, bs, k, w, sum);
    KeptWord(words[w := sum], base, bs, k, w + 1, next);
    MergedLive(bs, k);
  }

  lemma MergedLive(bs: seq<Block>, k: nat)
    requires k + 1 < |bs| && bs[k].free && bs[k + 1].free
    ensures Live(Merged(bs, k)) == Live(bs)
  {
    assert bs == bs[..k] + [bs[k], bs[k + 1]] + bs[k + 2..];
    LiveConcat(bs[..k] + [bs[k], bs[k + 1]], bs[k + 2..]);
    LiveConcat(bs[..k], [bs[k], bs[k + 1]]);
    LiveConcat(bs[..k] + [Merge(bs[k], bs[k + 1])], bs[k + 2..]);
    LiveConcat(bs[..k], [Merge(bs[k], bs[k + 1])]);
  }

  /** A word that looks like the flag of a header but is not before any payload of the list is in
      no header: sizes and addresses are too small to be taken for it. */
  lemma StrayFlag(words: seq<nat>, base: nat, bs: seq<Block>, p: nat, w: nat, v: nat)
    requires Stored(words, base, bs) && base + POOL <= MAGIC * HALF
    requires base + HEADER <= p && (p - base) % 8 == 0 && w == Slot(base, p - HEADER) && w + 2 < |words|
    requires Index(bs, p) == |bs| && words[w + 2] / HALF == MAGIC
    ensures Stored(words[w + 2 := v], base, bs)
  {
    var words' := words[w + 2 := v];
    forall j: nat | j < |bs| ensures HeaderOf(words', base, bs, j) {
      assert HeaderOf(words, base, bs, j);
      Inside(base, bs, j);
      if j + 1 < |bs| { Inside(base, bs, j + 1); }
      assert bs[j].Payload() != p;
      SmallWord(bs[j].size);
      SmallWord(AddrOf(bs, j + 1));
    }
  }

  /** Pool word i belongs to the payload of some block of `live`. */
  ghost predicate Held(live: set<Block>, base: nat, i: nat) {
    exists b :: b in live && Holds(b, base, i)
  }

  /** Storing `v` in word i leaves the live payloads alone exactly when it was there already or
      the word belongs to none of them. */
  lemma KeptIff(words: seq<nat>, base: nat, live: set<Block>, i: nat, v: nat)
    requires i < |words|
    ensures Kept(words, words[i := v], base, live) <==> words[i] == v || !Held(live, base, i)
  {
    if Held(live, base, i) {
      var b :| b in live && Holds(b, base, i);
    }
  }

  /** The header of a block that has been merged away still says "free", so freeing the block
      a second time stores what is there already. */
  lemma StaleHeader(words: seq<nat>, base: nat, bs: seq<Block>, k: nat, w: nat)
    requires Stored(words, base, bs) && k + 1 < |bs| && bs[k].free && bs[k + 1].free
    requires base <= bs[k].addr && w == Slot(base, bs[k].addr) && w + 2 < |words|
    ensures var q := bs[k + 1].Payload();
            var words' := words[w := bs[k].size + bs[k + 1].size + HEADER][w + 1 := AddrOf(bs, k + 2)];
            && Index(Merged(bs, k), q) == |Merged(bs, k)|
            && base + HEADER <= q && Slot(base, q - HEADER) + 2 < |words'|
            && words'[Slot(base, q - HEADER) + 2] == Flag(true)
  {
    var ms := Merged(bs, k);
    assert HeaderOf(words, base, bs, k + 1);
    Inside(base, bs, k);
    Inside(base, bs, k + 1);
    HeadersApart(base, bs, k, k + 1);
    Ordered(bs, base, base + POOL);
    forall i | 0 <= i < |ms| ensures ms[i].Payload() != bs[k + 1].Payload() {
      assert ms[i].addr == if i <= k then bs[i].addr else bs[i + 1].addr;
    }
  }

  /** A word that is damaged: after kmalloc(64) from a fresh heap the caller stores the magic number
      with a zero below it in its first word. The pointer 8 bytes further on is no payload, and
      freeing it changes that word. */
  lemma ForgedWord(base: nat) returns (words: seq<nat>, bs: seq<Block>, p: nat)
    requires base > 0 && base % 8 == 0
    ensures bs == Malloc(Initial(base), 64).0 && Stored(words, base, bs)
    ensures base + HEADER <= p == Malloc(Initial(base), 64).1.value + 8 && Index(bs, p) == |bs|
    ensures var i := Slot(base, p - HEADER) + 2;
            && i < |words| && words[i] / HALF == MAGIC && Held(Live(bs), base, i)
            && !Kept(words, words[i := Flag(true)], base, Live(bs))
  {
    var first := Initial(base)[0];
    var zeros: seq<nat> := seq(POOL / 8, _ => 0);
    var laid := Put(zeros, base, first, 0);
    InitialCanonical(base);
    PutHeader(zeros, base, first, 0);
    assert Laid(laid, base, Initial(base)) by {
      assert HeaderOf(laid, base, Initial(base), 0);
    }
    var c := Carve(first, 64);
    StoreSplit(laid, base, Initial(base), 0, 64, c[1], c[0]);
    bs := Replace(Initial(base), 0, [c[0], c[1]]);
    assert c == [c[0], c[1]] && bs == c;
    words := Put(Put(laid, base, c[1], 0), base, c[0], c[1].addr);
    PayloadStore(words, base, bs, 0, 3, MAGIC * HALF);
    words := words[3 := MAGIC * HALF];
    p := base + HEADER + 8;
    assert bs[0] in Live(bs) && Holds(bs[0], base, 3);
    KeptIff(words, base, Live(bs), 3, Flag(true));
  }

  lemma SmallWord(x: nat)
    ensures x < MAGIC * HALF ==> x / HALF != MAGIC
  {
  }

  /** Sweeping a list without free neighbours changes nothing. */
  lemma SweepIdle(bs: seq<Block>, lo: nat, hi: nat)
    requires Canonical(bs, lo, hi)
    ensures Sweep(bs) == bs
  {
    SweepFacts(bs, lo, hi);
    CanonicalUnique(Sweep(bs), bs, lo, hi);
  }

  /** Freeing block k, whether it was live or free already. */
  lemma FreeAgain(bs: seq<Block>, lo: nat, hi: nat, k: nat)
    requires Canonical(bs, lo, hi) && k < |bs|
    ensures Canonical(Free(bs, k), lo, hi) && Live(Free(bs, k)) <= Live(bs[k := bs[k].(free := true)]) <= Live(bs)
    ensures bs[k].free ==> Free(bs, k) == bs
  {
    if bs[k].free {
      assert bs[k := bs[k].(free := true)] == bs;
      SweepIdle(bs, lo, hi);
    } else {
      FreeCanonical(bs, lo, hi, k);
      LiveSplit(bs, k);
      OnlyOnce(bs, lo, hi, k);
      LiveSplit(bs[k := bs[k].(free := true)], k);
    }
  }

  /** Storing into the payload of a live block cannot damage the list, although the headers lie
      in the same pool. */
  lemma PayloadStore(words: seq<nat>, base: nat, bs: seq<Block>, k: nat, i: nat, v: nat)
    requires Stored(words, base, bs) && k < |bs| && !bs[k].free
    requires bs[k].Payload() <= base + 8 * i < bs[k].End() && i < |words|
    ensures Stored(words[i := v], base, bs)
  {
    Ordered(bs, base, base + POOL);
    Inside(base, bs, k);
    var words' := words[i := v];
    forall j: nat | j < |bs| ensures HeaderOf(words', base, bs, j) {
      assert HeaderOf(words, base, bs, j);
      Inside(base, bs, j);
    }
  }
}

/** The heap of heap.c, in place in its pool. */
module Heap {
  import opened Common
  import opened HeapSpec
  import opened HeapLayout
  import opened HeapUse

  class Heap {
    const base: nat
    const pool: array<nat>
    ghost var blocks: seq<Block>

    ghost predicate Valid()
      reads this, pool
    {
      Stored(pool[..], base, blocks) && NoFreeNeighbours(blocks) && base + POOL <= MAGIC * HALF
    }

    /** heap_init, on a pool of 1024 pages at address `base`. */
    constructor (base: nat, pool: array<nat>)
      requires base > 0 && base % PAGE_SIZE == 0 && base + POOL <= ADDRESS_LIMIT && pool.Length == POOL / 8
      modifies pool
      ensures Valid() && this.base == base && this.pool == pool && blocks == Initial(base)
      ensures pool.Length == 524288 && pool[0] == 4194280 && pool[1] == 0 && pool[2] == 0xBA41_0101_0000_0001
    {
      this.base, this.pool, this.blocks := base, pool, Initial(base);
      new;
      pool[0], pool[1], pool[2] := POOL - HEADER, 0, Flag(true);
      InitialCanonical(base);
      assert HeaderOf(pool[..], base, blocks, 0);
    }

    /** What the header of block k says. */
    method Read(words: seq<nat>, cur: nat, ghost bs: seq<Block>, ghost k: nat)
      returns (w: nat, size: nat, next: nat, free: bool)
      requires Stored(words, base, bs) && k < |bs| && cur == bs[k].addr && words == pool[..]
      ensures base <= cur && w == Slot(base, cur) && w + 2 < |words|
      ensures size == bs[k].size && next == AddrOf(bs, k + 1) && free == bs[k].free
      ensures next == 0 <==> k + 1 == |bs|
    {
      assert HeaderOf(words, base, bs, k);
      w := Slot(base, cur);
      size, next, free := pool[w], pool[w + 1], pool[w + 2] % HALF != 0;
      Inside(base, bs, k);
      if k + 1 < |bs| { Inside(base, bs, k + 1); }
    }

    /** Hands out block k, split when it is much larger than needed. */
    method Claim(ghost k: nat, cur: nat, size: nat)
      requires Stored(pool[..], base, blocks) && k < |blocks| && cur == blocks[k].addr && Fits(blocks[k], size)
      requires size % 8 == 0 && size > 0
      modifies this`blocks, pool
      ensures Stored(pool[..], base, blocks)
      ensures blocks == Replace(old(blocks), k, Carve(old(blocks)[k], size))
      ensures Kept(old(pool[..]), pool[..], base, Live(old(blocks)))
    {
      ghost var words, c := pool[..], Carve(blocks[k], size);
      var w, bsize, next, free := Read(pool[..], cur, blocks, k);
      if bsize > size + SPLIT {
        StoreSplit(words, base, blocks, k, size, c[1], c[0]);
        KeptSplit(words, base, blocks, k, size, c[1], c[0]);
        var v := Slot(base, cur + HEADER + size);
        pool[v], pool[v + 1], pool[v + 2] := bsize - size - HEADER, next, Flag(true);
        ghost var words1 := Put(words, base, c[1], next);
        assert pool[..] == words1;
        pool[w], pool[w + 1] := size, cur + HEADER + size;
        pool[w + 2] := Flag(false);
        assert pool[..] == Put(words1, base, c[0], c[1].addr);
      } else {
        StoreFlag(words, base, blocks, k, false, w);
        KeptFlag(words, base, blocks, k, w, Flag(false));
        pool[w + 2] := Flag(false);
        assert pool[..] == words[w + 2 := Flag(false)];
        assert Replace(blocks, k, c) == blocks[k := blocks[k].(free := false)];
      }
      blocks := Replace(blocks, k, c);
    }

    /** kmalloc: the payload address, 0 on failure. */
    method Malloc(n: nat) returns (p: nat)
      requires Valid() && n + 7 < 0x1_0000_0000_0000_0000
      modifies this`blocks, pool
      ensures Valid()
      ensures blocks == HeapSpec.Malloc(old(blocks), n).0
      ensures var r := HeapSpec.Malloc(old(blocks), n).1; p == if r.Some? then r.value else 0
      ensures Kept(old(pool[..]), pool[..], base, Live(old(blocks)))
    {
      if n == 0 { return 0; }
      var size := Round(n);
      RoundFacts(n);
      var cur, k := base, 0;
      Adjacent(blocks, base, base + POOL);
      while cur != 0
        invariant Valid() && blocks == old(blocks) && pool[..] == old(pool[..])
        invariant k <= |blocks| && cur == AddrOf(blocks, k) && (cur == 0 <==> k == |blocks|)
        invariant forall i :: 0 <= i < k ==> !Fits(blocks[i], size)
        decreases |blocks| - k
      {
        var w, bsize, next, free := Read(pool[..], cur, blocks, k);
        if free && bsize >= size {
          CarveNeighbours(blocks, size, k);
          Claim(k, cur, size);
          return cur + HEADER;
        }
        cur, k := next, k + 1;
      }
      return 0;
    }

    /** Block k takes in its free successor. */
    method Absorb(ghost start: seq<nat>, ghost k: nat, w: nat, sum: nat, next: nat)
      requires Stored(pool[..], base, blocks) && k + 1 < |blocks| && blocks[k].free && blocks[k + 1].free
      requires base <= blocks[k].addr && w == Slot(base, blocks[k].addr) && w + 2 < pool.Length
      requires sum == blocks[k].size + blocks[k + 1].size + HEADER && next == AddrOf(blocks, k + 2)
      requires Kept(start, pool[..], base, Live(blocks))
      modifies this`blocks, pool
      ensures Stored(pool[..], base, blocks) && blocks == Merged(old(blocks), k)
      ensures Kept(start, pool[..], base, Live(blocks)) && Live(blocks) == Live(old(blocks))
    {
      ghost var words: seq<nat> := pool[..];
      StoreMerge(words, base, blocks, k, w);
      KeptMerge(start, words, base, blocks, k, w, sum, next);
      pool[w], pool[w + 1] := sum, next;
      assert pool[..] == words[w := sum][w + 1 := next];
      blocks := Merged(blocks, k);
    }

    /** The loop of kfree: merges free neighbours until it reaches the end of the list. The list
        after `cur` shrinks in both branches. */
    method Coalesce()
      requires Stored(pool[..], base, blocks)
      modifies this`blocks, pool
      ensures Stored(pool[..], base, blocks) && blocks == Sweep(old(blocks))
      ensures NoFreeNeighbours(old(blocks)) ==> pool[..] == old(pool[..])
      ensures Kept(old(pool[..]), pool[..], base, Live(old(blocks)))
    {
      ghost var goal, start, live := Sweep(blocks), pool[..], Live(blocks);
      ghost var k := 0;
      var cur := base;
      Adjacent(blocks, base, base + POOL);
      assert blocks[0..] == blocks;
      while cur != 0
        invariant Stored(pool[..], base, blocks)
        invariant k <= |blocks| && cur == AddrOf(blocks, k) && (cur == 0 <==> k == |blocks|)
        invariant blocks[..k] + Sweep(blocks[k..]) == goal
        invariant Kept(start, pool[..], base, live) && Live(blocks) == live
        invariant NoFreeNeighbours(old(blocks)) ==> blocks == old(blocks) && pool[..] == start
        decreases |blocks| - k
      {
        var w, size, next, free := Read(pool[..], cur, blocks, k);
        var merge := false;
        if free && next != 0 {
          var w2, size2, next2, free2 := Read(pool[..], next, blocks, k + 1);
          if free2 {
            SweepMerge(blocks, k);
            Absorb(start, k, w, size + size2 + HEADER, next2);
            merge := true;
          }
        }
        if !merge {
          SweepAdvance(blocks, k);
          cur, k := next, k + 1;
        }
      }
    }

    /** A pointer into the pool with room for a header before it, aligned as every payload is. */
    predicate InPool(p: nat) {
      base + HEADER <= p < base + POOL && (p - base) % 8 == 0
    }

    /** Where kfree looks for the magic number. */
    function FlagSlot(p: nat): nat
      requires InPool(p)
    {
      Slot(base, p - HEADER) + 2
    }

    /** kfree. The list changes only when p is the payload of a live block: null, a block already
        free and pointers without the magic number are ignored. Any other pointer costs a live
        payload one word exactly when the word read as flag belongs to that payload, holds the magic
        number in its upper half and something else than 1 in its lower half. A header left over
        from a merge holds 1 there, so a second kfree through it is harmless. */
    method Free(p: nat)
      requires Valid() && (p == 0 || InPool(p))
      modifies this`blocks, pool
      ensures Valid()
      ensures var k := Index(old(blocks), p);
              var live := p != 0 && k < |old(blocks)| && !old(blocks)[k].free;
              blocks == if live then HeapSpec.Free(old(blocks), k) else old(blocks)
      ensures p == 0 ==> pool[..] == old(pool[..])
      ensures p != 0 && Index(old(blocks), p) < |old(blocks)| ==> Kept(old(pool[..]), pool[..], base, Live(blocks))
      ensures p != 0 && Index(old(blocks), p) == |old(blocks)| ==>
        var was, i := old(pool[..]), FlagSlot(p);
        pool[..] == if was[i] / HALF == MAGIC then was[i := Flag(true)] else was
      ensures p != 0 && Index(old(blocks), p) == |old(blocks)| ==>
        var word := old(pool[FlagSlot(p)]);
        Kept(old(pool[..]), pool[..], base, Live(blocks))
        <==> word / HALF != MAGIC || word == Flag(true) || !Held(Live(blocks), base, FlagSlot(p))
    {
      if p == 0 { return; }
      ghost var words, k := pool[..], Index(blocks, p);
      var w := Slot(base, p - HEADER);
      if k < |blocks| { assert HeaderOf(words, base, blocks, k); }
      if pool[w + 2] / HALF != MAGIC { return; }
      pool[w + 2] := pool[w + 2] / HALF * HALF + 1;
      assert pool[..] == words[w + 2 := Flag(true)];
      if k == |blocks| {
        StrayFlag(words, base, blocks, p, w, Flag(true));
        KeptIff(words, base, Live(blocks), w + 2, Flag(true));
        SweepIdle(blocks, base, base + POOL);
      } else {
        StoreFlag(words, base, blocks, k, true, w);
        KeptFlag(words, base, blocks, k, w, Flag(true));
        FreeAgain(blocks, base, base + POOL, k);
        blocks := blocks[k := blocks[k].(free := true)];
      }
      Coalesce();
    }
  }

  lemma SweepMerge(bs: seq<Block>, k: nat)
    requires k + 1 < |bs| && bs[k].free && bs[k + 1].free
    ensures bs[..k] + Sweep(bs[k..]) == Merged(bs, k)[..k] + Sweep(Merged(bs, k)[k..])
  {
    assert Merged(bs, k)[..k] == bs[..k];
    assert Merged(bs, k)[k..] == [Merge(bs[k], bs[k + 1])] + bs[k..][2..];
  }

  lemma SweepAdvance(bs: seq<Block>, k: nat)
    requires k < |bs| && (k + 1 == |bs| || !bs[k].free || !bs[k + 1].free)
    ensures bs[..k] + Sweep(bs[k..]) == bs[..k + 1] + Sweep(bs[k + 1..])
  {
    assert bs[k..][1..] == bs[k + 1..];
    assert bs[..k + 1] == bs[..k] + [bs[k]];
    assert Sweep(bs[k..]) == [bs[k]] + Sweep(bs[k + 1..]);
  }
}
