/** The UEFI memory map as pmm.c and vmm.c read it. */
module MemoryMap {
  import opened Common

  /** EfiConventionalMemory. */
  const CONVENTIONAL := 7

  /** Memory below 16 MiB is never handed out. */
  const LOW_MEMORY := 0x1000000
  const LOW_PAGES := LOW_MEMORY / PAGE_SIZE

  datatype Desc = Desc(kind: nat, start: nat, pages: nat) {
    function First(): nat { start / PAGE_SIZE }
    function End(): nat { start + pages * PAGE_SIZE }
    function Range(): set<nat> { Interval(First(), pages) }
  }

  /** The n pages from lo up. */
  function Interval(lo: nat, n: nat): (s: set<nat>)
    ensures forall p :: p in s <==> lo <= p < lo + n
    ensures |s| == n
  {
    if n == 0 then {} else Interval(lo, n - 1) + {lo + n - 1}
  }

  /** The pages of s that are not below lo. */
  function From(s: set<nat>, lo: nat): set<nat> {
    set p | p in s && lo <= p
  }

  function MemoryEnd(descs: seq<Desc>): nat {
    if descs == [] then 0
    else
      var d, rest := descs[|descs| - 1], MemoryEnd(descs[..|descs| - 1]);
      if d.kind == CONVENTIONAL && d.End() > rest then d.End() else rest
  }

  /** Every page some conventional descriptor describes. */
  function FreeSet(descs: seq<Desc>): set<nat> {
    if descs == [] then {}
    else
      var d := descs[|descs| - 1];
      FreeSet(descs[..|descs| - 1]) + if d.kind == CONVENTIONAL then d.Range() else {}
  }

  /** The first page vmm_init maps for a descriptor, and how many: it passes over address 0. */
  function MappedFrom(d: Desc): nat { if d.start == 0 && d.pages > 0 then 1 else d.First() }

  function MappedCount(d: Desc): nat { if d.start == 0 && d.pages > 0 then d.pages - 1 else d.pages }

  /** No page is described twice as conventional memory. */
  ghost predicate Disjoint(descs: seq<Desc>) {
    forall i, j :: 0 <= i < j < |descs| && descs[i].kind == descs[j].kind == CONVENTIONAL
                   ==> descs[i].Range() !! descs[j].Range()
  }

  lemma {:induction false} FreeSetMember(descs: seq<Desc>, p: nat)
    ensures p in FreeSet(descs)
            <==> exists i :: 0 <= i < |descs| && descs[i].kind == CONVENTIONAL && p in descs[i].Range()
  {
    if descs != [] {
      var last := |descs| - 1;
      FreeSetMember(descs[..last], p);
      if p in FreeSet(descs[..last]) {
        var i :| 0 <= i < last && descs[..last][i].kind == CONVENTIONAL && p in descs[..last][i].Range();
        assert descs[i] == descs[..last][i];
      } else {
        forall i | 0 <= i < last && descs[i].kind == CONVENTIONAL
          ensures p !in descs[i].Range()
        {
          assert descs[i] == descs[..last][i];
        }
      }
    }
  }

  lemma {:induction false} MemoryEndBounds(descs: seq<Desc>, i: nat)
    requires i < |descs| && descs[i].kind == CONVENTIONAL
    ensures descs[i].End() <= MemoryEnd(descs)
    ensures descs[i].First() + descs[i].pages <= MemoryEnd(descs) / PAGE_SIZE
  {
    var last := |descs| - 1;
    if i < last {
      MemoryEndBounds(descs[..last], i);
      assert descs[..last][i] == descs[i];
    }
    assert descs[i].First() + descs[i].pages == descs[i].End() / PAGE_SIZE;
  }

  /** Some conventional descriptor reaches the end of memory, unless there is none at all. */
  lemma {:induction false} MemoryEndReached(descs: seq<Desc>)
    ensures || MemoryEnd(descs) == 0
            || exists i :: 0 <= i < |descs| && descs[i].kind == CONVENTIONAL && descs[i].End() == MemoryEnd(descs)
  {
    if descs != [] {
      var last := |descs| - 1;
      var rest := descs[..last];
      MemoryEndReached(rest);
      if i :| 0 <= i < last && rest[i].kind == CONVENTIONAL && rest[i].End() == MemoryEnd(rest) {
        assert descs[i] == rest[i];
      }
      assert descs[last] == descs[|descs| - 1];
    }
  }

  /** How many pages the conventional descriptors describe, each page as often as it is described. */
  function Described(descs: seq<Desc>): nat {
    if descs == [] then 0
    else
      var d := descs[|descs| - 1];
      Described(descs[..|descs| - 1]) + if d.kind == CONVENTIONAL then d.pages else 0
  }

  lemma DescribedGrows(descs: seq<Desc>, k: nat)
    requires k < |descs|
    ensures var d, rest, more := descs[k], descs[..k], descs[..k + 1];
            && Described(more) == Described(rest) + (if d.kind == CONVENTIONAL then d.pages else 0)
            && FreeSet(more) == FreeSet(rest) + if d.kind == CONVENTIONAL then d.Range() else {}
  {
    assert descs[..k + 1][..k] == descs[..k];
  }

  lemma UnionCard(a: set<nat>, b: set<nat>)
    ensures |a + b| <= |a| + |b| && (|a + b| == |a| + |b| <==> a !! b)
  {
    assert a + b == a + (b - a) && b == (b - a) + (a * b);
    assert |a * b| == 0 <==> a !! b;
  }

  lemma DisjointFromRest(rest: seq<Desc>, d: Desc)
    requires Disjoint(rest + [d]) && d.kind == CONVENTIONAL
    ensures FreeSet(rest) !! d.Range()
  {
    var descs := rest + [d];
    forall p | p in FreeSet(rest) ensures p !in d.Range() {
      FreeSetMember(rest, p);
      var i :| 0 <= i < |rest| && rest[i].kind == CONVENTIONAL && p in rest[i].Range();
      assert descs[i] == rest[i] && descs[|rest|] == d;
    }
  }

  lemma RangeInFreeSet(descs: seq<Desc>, i: nat)
    requires i < |descs| && descs[i].kind == CONVENTIONAL
    ensures descs[i].Range() <= FreeSet(descs)
  {
    forall p | p in descs[i].Range() ensures p in FreeSet(descs) { FreeSetMember(descs, p); }
  }

  lemma DisjointRest(rest: seq<Desc>, d: Desc)
    requires Disjoint(rest + [d])
    ensures Disjoint(rest)
  {
    var descs := rest + [d];
    assert forall i :: 0 <= i < |rest| ==> descs[i] == rest[i];
  }

  lemma DisjointAdd(rest: seq<Desc>, d: Desc)
    requires Disjoint(rest) && (d.kind == CONVENTIONAL ==> FreeSet(rest) !! d.Range())
    ensures Disjoint(rest + [d])
  {
    var descs := rest + [d];
    forall i, j | 0 <= i < j < |descs| && descs[i].kind == descs[j].kind == CONVENTIONAL
      ensures descs[i].Range() !! descs[j].Range()
    {
      if j == |rest| { RangeInFreeSet(rest, i); }
    }
  }

  /** No page is counted twice exactly when no two conventional descriptors overlap. */
  lemma {:induction false} DescribedOnceIff(descs: seq<Desc>)
    ensures |FreeSet(descs)| <= Described(descs)
    ensures |FreeSet(descs)| == Described(descs) <==> Disjoint(descs)
  {
    if descs != [] {
      var rest, d := descs[..|descs| - 1], descs[|descs| - 1];
      assert descs == rest + [d];
      DescribedOnceIff(rest);
      UnionCard(FreeSet(rest), d.Range());
      if Disjoint(descs) {
        DisjointRest(rest, d);
        if d.kind == CONVENTIONAL { DisjointFromRest(rest, d); }
      } else if Disjoint(rest) && (d.kind == CONVENTIONAL ==> FreeSet(rest) !! d.Range()) {
        DisjointAdd(rest, d);
      }
    }
  }
}

/** The physical page allocator of pmm.c. */
module PageAllocator {
  import opened Common
  import opened Bitmap
  import F = Frames
  import opened MemoryMap

  method FindMemoryEnd(descs: seq<Desc>) returns (end: nat)
    ensures end == MemoryEnd(descs)
    ensures end == 0 || exists i :: 0 <= i < |descs| && descs[i].kind == CONVENTIONAL && descs[i].End() == end
    ensures forall i :: 0 <= i < |descs| && descs[i].kind == CONVENTIONAL ==> descs[i].End() <= end
  {
    end := 0;
    for i := 0 to |descs|
      invariant end == MemoryEnd(descs[..i])
    {
      assert descs[..i + 1][..i] == descs[..i];
      if descs[i].kind == CONVENTIONAL && descs[i].End() > end {
        end := descs[i].End();
      }
    }
    assert descs[..|descs|] == descs;
    MemoryEndReached(descs);
    forall i | 0 <= i < |descs| && descs[i].kind == CONVENTIONAL ensures descs[i].End() <= end {
      MemoryEndBounds(descs, i);
    }
  }

  predicate CanHold(d: Desc, bytes: nat) {
    d.kind == CONVENTIONAL && d.pages * PAGE_SIZE >= bytes && d.start >= LOW_MEMORY
  }

  /** The first descriptor with room for the bitmap at or above 16 MiB. */
  method ChooseHome(descs: seq<Desc>, bytes: nat) returns (home: Option<nat>)
    ensures home.Some? ==> home.value < |descs|
    ensures home.Some? ==> var d := descs[home.value]; d.kind == 7 && d.pages * 4096 >= bytes && d.start >= 0x100_0000
    ensures forall k :: 0 <= k < (if home.Some? then home.value else |descs|) ==>
              descs[k].kind != 7 || descs[k].pages * 4096 < bytes || descs[k].start < 0x100_0000
    ensures home.Some? ==> CanHold(descs[home.value], bytes)
                           && forall k :: 0 <= k < home.value ==> !CanHold(descs[k], bytes)
    ensures home.None? ==> forall k :: 0 <= k < |descs| ==> !CanHold(descs[k], bytes)
  {
    for i := 0 to |descs|
      invariant forall k :: 0 <= k < i ==> !CanHold(descs[k], bytes)
    {
      if CanHold(descs[i], bytes) { return Some(i); }
    }
    return None;
  }

  /** How many pages a bitmap of that many bytes takes up. */
  function HomePages(bytes: nat): nat {
    (bytes + 4095) / PAGE_SIZE
  }

  /** Enough for all its bytes, and not one page more. */
  lemma HomeCovers(bytes: nat)
    ensures bytes <= HomePages(bytes) * PAGE_SIZE < bytes + PAGE_SIZE
  {
  }

  /** The pages that are free once the bitmap sits on the k pages from `first` up. */
  function Usable(descs: seq<Desc>, first: nat, k: nat): set<nat> {
    From(FreeSet(descs) - Interval(first, k), LOW_PAGES)
  }

  /** A page is free iff the map calls it conventional, it is not low and the bitmap does
      not sit on it; past the last whole byte of the bitmap the old contents show through. */
  ghost predicate Populated(descs: seq<Desc>, first: nat, k: nat, bytes: nat, before: seq<bool>, after: seq<bool>) {
    |before| == |after| &&
    forall p: nat {:trigger PageSet(descs, first, k, bytes, before, after, p)} ::
      p < |after| ==> PageSet(descs, first, k, bytes, before, after, p)
  }

  ghost predicate PageSet(descs: seq<Desc>, first: nat, k: nat, bytes: nat,
                          before: seq<bool>, after: seq<bool>, p: nat)
    requires |before| == |after| && p < |after|
  {
    !after[p] <==>
      && (p in FreeSet(descs) || (p >= 8 * bytes && !before[p]))
      && p >= LOW_PAGES && p !in Interval(first, k)
  }

  /** The chosen descriptor holds the whole bitmap, above low memory. */
  lemma HomeFits(descs: seq<Desc>, i: nat, total: nat, k: nat)
    requires i < |descs| && total == MemoryEnd(descs) / PAGE_SIZE && CanHold(descs[i], total / 8)
    requires k == HomePages(total / 8)
    ensures Interval(descs[i].First(), k) <= FreeSet(descs)
    ensures LOW_PAGES <= descs[i].First() && descs[i].First() + k <= total
    ensures LOW_PAGES <= 8 * (total / 8)
  {
    MemoryEndBounds(descs, i);
    HomeArithmetic(descs[i], total, total / 8, k);
    RunInFreeSet(descs, i, k);
  }

  /** The page under byte b of a bitmap that starts at that address. */
  function PageUnder(start: nat, b: nat): nat { (start + b) / PAGE_SIZE }

  /** The pages set aside for the bitmap are all it lies on exactly when it does not reach past them,
      as it never does from an address at the start of a page. */
  lemma BitmapCoveredIff(d: Desc, bytes: nat)
    requires bytes > 0
    ensures (forall b: nat :: b < bytes ==> PageUnder(d.start, b) in Interval(d.First(), HomePages(bytes)))
            <==> d.start % PAGE_SIZE + bytes <= HomePages(bytes) * PAGE_SIZE
    ensures d.start % PAGE_SIZE == 0 ==> d.start % PAGE_SIZE + bytes <= HomePages(bytes) * PAGE_SIZE
  {
    var k := HomePages(bytes);
    HomeCovers(bytes);
    forall b: nat | b < bytes
      ensures d.start % PAGE_SIZE + bytes <= k * PAGE_SIZE ==> PageUnder(d.start, b) in Interval(d.First(), k)
    {
      PageAt(d.start, b, bytes, k);
    }
    PageAt(d.start, bytes - 1, bytes, k);
  }

  lemma PageAt(start: nat, b: nat, bytes: nat, k: nat)
    requires b < bytes
    ensures start / 4096 <= PageUnder(start, b)
    ensures start % 4096 + bytes <= k * 4096 ==> PageUnder(start, b) < start / 4096 + k
    ensures b + 1 == bytes && PageUnder(start, b) < start / 4096 + k ==> start % 4096 + bytes <= k * 4096
  {
  }

  /** A page under the bitmap is in use after pmm_init and ever after: over every run of allocations
      and frees of what was allocated nobody is given it. */
  lemma BitmapNeverHandedOut(descs: seq<Desc>, i: nat, total: nat, before: seq<bool>, after: seq<bool>,
                             l: F.Ledger, ops: seq<F.Op>, b: nat)
    requires i < |descs| && total == MemoryEnd(descs) / PAGE_SIZE <= |after| && CanHold(descs[i], total / 8)
    requires Populated(descs, descs[i].First(), HomePages(total / 8), total / 8, before, after)
    requires F.LedgerInv(after, l) && F.ValidOps(l, ops)
    requires b < total / 8 && descs[i].start % PAGE_SIZE == 0
    ensures var p := PageUnder(descs[i].start, b);
            && p < |after| == |F.Exec(l, ops).frames.used| && after[p] && F.Exec(l, ops).frames.used[p]
            && forall r :: r in F.Exec(l, ops).held ==> !r.Covers(p)
  {
    HomeFits(descs, i, total, HomePages(total / 8));
    BitmapCoveredIff(descs[i], total / 8);
    UnderBitmap(descs, descs[i], total / 8, before, after, b);
    F.HeldRunsDisjoint(after, l, ops);
  }

  lemma UnderBitmap(descs: seq<Desc>, d: Desc, bytes: nat, before: seq<bool>, after: seq<bool>, b: nat)
    requires Populated(descs, d.First(), HomePages(bytes), bytes, before, after) && b < bytes
    requires d.First() + HomePages(bytes) <= |after|
    requires d.start % PAGE_SIZE + bytes <= HomePages(bytes) * PAGE_SIZE
    ensures PageUnder(d.start, b) < |after| && after[PageUnder(d.start, b)]
  {
    BitmapCoveredIff(d, bytes);
    var p := PageUnder(d.start, b);
    assert p in Interval(d.First(), HomePages(bytes));
    assert PageSet(descs, d.First(), HomePages(bytes), bytes, before, after, p);
  }

  lemma RunInFreeSet(descs: seq<Desc>, i: nat, k: nat)
    requires i < |descs| && descs[i].kind == CONVENTIONAL && k <= descs[i].pages
    ensures Interval(descs[i].First(), k) <= FreeSet(descs)
  {
    forall p | p in Interval(descs[i].First(), k) ensures p in FreeSet(descs) {
      assert p in descs[i].Range();
      FreeSetMember(descs, p);
    }
  }

  lemma HomeArithmetic(d: Desc, total: nat, bytes: nat, k: nat)
    requires d.start >= LOW_MEMORY && d.pages * 4096 >= bytes && d.First() + d.pages <= total
    requires bytes == total / 8 && k == (bytes + 4095) / 4096
    ensures LOW_PAGES <= d.First() && LOW_PAGES <= 8 * bytes && k <= d.pages
  {
  }

  lemma FreeSetBelowEnd(descs: seq<Desc>, p: nat)
    requires p in FreeSet(descs)
    ensures p < MemoryEnd(descs) / PAGE_SIZE
  {
    FreeSetMember(descs, p);
    var i :| 0 <= i < |descs| && descs[i].kind == CONVENTIONAL && p in descs[i].Range();
    MemoryEndBounds(descs, i);
  }

  /** What pmm_init leaves in free_pages: a page described twice is counted twice. */
  function Counted(descs: seq<Desc>, first: nat, k: nat): int {
    |Usable(descs, first, k)| + Described(descs) - |FreeSet(descs)|
  }

  /** The pages between the last whole byte of the bitmap and the end of memory that read as free
      without the memory map saying so. */
  function StrayPages(descs: seq<Desc>, first: nat, k: nat, bytes: nat, total: nat, before: seq<bool>): set<nat>
    requires total <= |before|
  {
    set p: nat |
      8 * bytes <= p < total && LOW_PAGES <= p && p !in Interval(first, k) && !before[p] && p !in FreeSet(descs)
  }

  function ClearPages(used: seq<bool>, n: nat): set<nat>
    requires n <= |used|
  {
    set p | 0 <= p < n && !used[p]
  }

  lemma ClearIsUsableOrStray(descs: seq<Desc>, first: nat, k: nat, bytes: nat, total: nat,
                             before: seq<bool>, after: seq<bool>)
    requires total == MemoryEnd(descs) / PAGE_SIZE <= |after| && Populated(descs, first, k, bytes, before, after)
    ensures var usable, stray := Usable(descs, first, k), StrayPages(descs, first, k, bytes, total, before);
            ClearPages(after, total) == usable + stray && usable !! stray
  {
    var usable, stray := Usable(descs, first, k), StrayPages(descs, first, k, bytes, total, before);
    forall p: nat ensures p in ClearPages(after, total) <==> p in usable + stray {
      if p in usable { FreeSetBelowEnd(descs, p); }
      assert p < |after| ==> PageSet(descs, first, k, bytes, before, after, p);
    }
  }

  /** pmm_init's counter is the number of clear bits exactly when as many pages are described twice
      as are stray. With a map free of overlaps: exactly when there is no stray page. */
  lemma CounterTrueIff(descs: seq<Desc>, first: nat, k: nat, bytes: nat, total: nat,
                       before: seq<bool>, after: seq<bool>)
    requires total == MemoryEnd(descs) / PAGE_SIZE <= |after| && Populated(descs, first, k, bytes, before, after)
    ensures var stray := StrayPages(descs, first, k, bytes, total, before);
            var right := Counted(descs, first, k) == F.CountClear(after, total);
            && (right <==> Described(descs) - |FreeSet(descs)| == |stray|)
            && (Disjoint(descs) ==> (right <==> stray == {}))
  {
    ClearIsUsableOrStray(descs, first, k, bytes, total, before, after);
    F.CountIsCard(after, total);
    DescribedOnceIff(descs);
  }

  /** With a whole number of bytes the allocator starts sound (its counter true, page 0 taken)
      exactly when no two conventional descriptors overlap. */
  lemma InitSound(descs: seq<Desc>, first: nat, k: nat, total: nat, before: seq<bool>, after: seq<bool>)
    requires 0 < total == MemoryEnd(descs) / PAGE_SIZE <= |after| && total % 8 == 0
    requires Populated(descs, first, k, total / 8, before, after)
    ensures F.Sound(F.Frames(after, total, 0, Counted(descs, first, k))) <==> Disjoint(descs)
  {
    assert PageSet(descs, first, k, total / 8, before, after, 0);
    CounterTrueIff(descs, first, k, total / 8, total, before, after);
    assert StrayPages(descs, first, k, total / 8, total, before) == {};
    DescribedOnceIff(descs);
  }

  // ---------- memory maps on which it goes wrong ----------

  /** n conventional pages from 16 MiB up, a hole of one page, and one page more; unless n % 8 is 6
      or 7 the bitmap ends before the bit of the hole. The counter is then wrong whenever that bit,
      which nobody writes, reads as zero. */
  lemma CounterWrong(n: nat, descs: seq<Desc>, total: nat, first: nat, k: nat, before: seq<bool>, after: seq<bool>)
    requires n > 0 && n % 8 < 6
    requires descs == [Desc(CONVENTIONAL, LOW_MEMORY, n), Desc(CONVENTIONAL, LOW_MEMORY + (n + 1) * PAGE_SIZE, 1)]
    requires total == MemoryEnd(descs) / PAGE_SIZE && first == descs[0].First() && k == HomePages(total / 8)
    requires total <= |before| && !before[first + n] && Populated(descs, first, k, total / 8, before, after)
    ensures CanHold(descs[0], total / 8) && Disjoint(descs)
    ensures Counted(descs, first, k) != F.CountClear(after, total)
  {
    HoledMap(n, descs);
    HoleArithmetic(n, total, k);
    HoleIsStray(n, descs, first, k, total / 8, total, before);
    CounterTrueIff(descs, first, k, total / 8, total, before, after);
  }

  lemma HoleIsStray(n: nat, descs: seq<Desc>, first: nat, k: nat, bytes: nat, total: nat, before: seq<bool>)
    requires first == LOW_PAGES && k <= n && 8 * bytes <= first + n < total <= |before| && !before[first + n]
    requires first + n !in FreeSet(descs)
    ensures StrayPages(descs, first, k, bytes, total, before) != {}
  {
    assert first + n in StrayPages(descs, first, k, bytes, total, before);
  }

  lemma HoleArithmetic(n: nat, total: nat, k: nat)
    requires n > 0 && n % 8 < 6 && total == LOW_PAGES + n + 2 && k == HomePages(total / 8)
    ensures k <= n && 8 * (total / 8) <= LOW_PAGES + n && total / 8 <= n * PAGE_SIZE
  {
  }

  lemma HoledMap(n: nat, descs: seq<Desc>)
    requires descs == [Desc(CONVENTIONAL, LOW_MEMORY, n), Desc(CONVENTIONAL, LOW_MEMORY + (n + 1) * PAGE_SIZE, 1)]
    ensures MemoryEnd(descs) / PAGE_SIZE == LOW_PAGES + n + 2 && Disjoint(descs) && LOW_PAGES + n !in FreeSet(descs)
  {
    assert descs[..1] == [descs[0]] && descs[..1][..0] == [];
    assert MemoryEnd(descs[..1]) == descs[0].End();
    FreeSetMember(descs, LOW_PAGES + n);
    assert descs[1].First() == LOW_PAGES + n + 1;
  }

  /** n conventional pages from 16 MiB up, a whole number of bytes: the pages after the bitmap's own
      are free. If the bit after the last page reads as zero, an allocation, its release and a
      larger allocation leave memory. */
  lemma OverrunAfterBoot(n: nat, descs: seq<Desc>, total: nat, first: nat, k: nat, before: seq<bool>, after: seq<bool>)
    requires n > 0 && n % 8 == 0 && descs == [Desc(CONVENTIONAL, LOW_MEMORY, n)]
    requires total == MemoryEnd(descs) / PAGE_SIZE && first == descs[0].First() && k == HomePages(total / 8)
    requires total < |before| && !before[total] && Populated(descs, first, k, total / 8, before, after)
    ensures CanHold(descs[0], total / 8)
    ensures F.Overruns(F.Frames(after, total, 0, Counted(descs, first, k)), first + k)
  {
    FlatMap(n, descs);
    FlatArithmetic(n, total, k);
    forall p: nat | p <= total ensures after[p] == (p < first + k) {
      FlatPage(n, descs, total, k, before, after, p);
    }
    FlatCount(n, descs, total, k, before, after);
    FlatFrames(after, first, k, total, Counted(descs, first, k));
  }

  lemma FlatFrames(used: seq<bool>, first: nat, k: nat, total: nat, free: int)
    requires 0 < k && first + k + 2 <= total < |used| && free == total - (first + k)
    requires forall p: nat :: p <= total ==> used[p] == (p < first + k)
    ensures F.Overruns(F.Frames(used, total, 0, free), first + k)
  {
    F.OverrunHappens(used, first + k, total);
  }

  lemma FlatPage(n: nat, descs: seq<Desc>, total: nat, k: nat, before: seq<bool>, after: seq<bool>, p: nat)
    requires FreeSet(descs) == Interval(LOW_PAGES, n) && p <= total == LOW_PAGES + n && total % 8 == 0 && k <= n
    requires total < |before| && !before[total] && Populated(descs, LOW_PAGES, k, total / 8, before, after)
    ensures after[p] == (p < LOW_PAGES + k)
  {
    assert PageSet(descs, LOW_PAGES, k, total / 8, before, after, p);
    FlatBit(n, total, k, p, before[p], after[p]);
  }

  lemma FlatCount(n: nat, descs: seq<Desc>, total: nat, k: nat, before: seq<bool>, after: seq<bool>)
    requires 0 < total == MemoryEnd(descs) / PAGE_SIZE == LOW_PAGES + n && total % 8 == 0 && k <= n && Disjoint(descs)
    requires total < |after| && Populated(descs, LOW_PAGES, k, total / 8, before, after)
    requires forall p :: 0 <= p < total ==> after[p] == (p < LOW_PAGES + k)
    ensures Counted(descs, LOW_PAGES, k) == total - (LOW_PAGES + k)
  {
    InitSound(descs, LOW_PAGES, k, total, before, after);
    F.CountRun(after, LOW_PAGES + k, total);
  }

  lemma FlatArithmetic(n: nat, total: nat, k: nat)
    requires n > 0 && n % 8 == 0 && total == LOW_PAGES + n && k == HomePages(total / 8)
    ensures 0 < k && k + 2 <= n && total % 8 == 0 && total / 8 <= n * PAGE_SIZE
  {
  }

  lemma FlatBit(n: nat, total: nat, k: nat, p: nat, before: bool, after: bool)
    requires p <= total == LOW_PAGES + n && total % 8 == 0 && k <= n && (p == total ==> !before)
    requires !after <==> && (LOW_PAGES <= p < LOW_PAGES + n || (p >= 8 * (total / 8) && !before))
                         && p >= LOW_PAGES && !(LOW_PAGES <= p < LOW_PAGES + k)
    ensures after == (p < LOW_PAGES + k)
  {
  }

  lemma FlatMap(n: nat, descs: seq<Desc>)
    requires descs == [Desc(CONVENTIONAL, LOW_MEMORY, n)]
    ensures MemoryEnd(descs) / PAGE_SIZE == LOW_PAGES + n && Disjoint(descs) && FreeSet(descs) == Interval(LOW_PAGES, n)
  {
    assert descs[..0] == [];
    assert descs[0].First() == LOW_PAGES;
  }

  /** The state after the bitmap's own pages are marked, with low memory still free. */
  ghost predicate Prepared(descs: seq<Desc>, first: nat, k: nat, bytes: nat, before: seq<bool>, after: seq<bool>) {
    |before| == |after| &&
    forall p: nat :: p < |after| ==>
      (!after[p] <==> (p in FreeSet(descs) || (p >= 8 * bytes && !before[p])) && p !in Interval(first, k))
  }

  lemma PrepareFacts(descs: seq<Desc>, first: nat, k: nat, bytes: nat,
                     before: seq<bool>, filled: seq<bool>, released: seq<bool>, marked: seq<bool>)
    requires |filled| == |before| && forall p :: 0 <= p < |before| ==> filled[p] == (p < 8 * bytes || before[p])
    requires Released(filled, released, FreeSet(descs))
    requires first + k <= |released| && marked == F.Mark(released, first, k, true)
    ensures Prepared(descs, first, k, bytes, before, marked)
  {
  }

  /** The pages of `free` are now free; no other page has changed. */
  ghost predicate Released(before: seq<bool>, after: seq<bool>, free: set<nat>) {
    |after| == |before| && forall p :: 0 <= p < |after| ==> after[p] == (before[p] && p !in free)
  }

  lemma ReleaseMore(before: seq<bool>, after: seq<bool>, free: set<nat>, d: Desc)
    requires Released(before, after, free) && d.First() + d.pages <= |after|
    ensures Released(before, F.Mark(after, d.First(), d.pages, false), free + d.Range())
  {
  }

  class PageAllocator {
    const bitmap: array<bv8>
    var totalPages: nat
    var usablePages: nat
    var freePages: int
    var lastSearch: nat

    ghost function Bits(): seq<bool>
      reads this, bitmap
    {
      Unpack(bitmap[..])
    }

    ghost function Model(): F.Frames
      reads this, bitmap
    {
      F.Frames(Bits(), totalPages, lastSearch, freePages)
    }

    /** `memory` is the memory the bitmap will be laid over, with whatever it holds. */
    constructor (memory: array<bv8>)
      ensures bitmap == memory && totalPages == 0 && usablePages == 0 && freePages == 0 && lastSearch == 0
    {
      bitmap, totalPages, usablePages, freePages, lastSearch := memory, 0, 0, 0, 0;
    }

    method SetPage(p: nat)
      requires p < 8 * bitmap.Length
      modifies bitmap
      ensures Bits() == old(Bits())[p := true]
    {
      SetBit(bitmap[..], p);
      ghost var bytes := bitmap[..];
      bitmap[p / 8] := SetByte(bitmap[p / 8], p % 8);
      assert bitmap[..] == bytes[p / 8 := SetByte(bytes[p / 8], p % 8)];
    }

    method ClearPage(p: nat)
      requires p < 8 * bitmap.Length
      modifies bitmap
      ensures Bits() == old(Bits())[p := false]
    {
      ClearBit(bitmap[..], p);
      ghost var bytes := bitmap[..];
      bitmap[p / 8] := ClearByte(bitmap[p / 8], p % 8);
      assert bitmap[..] == bytes[p / 8 := ClearByte(bytes[p / 8], p % 8)];
    }

    method TestPage(p: nat) returns (taken: bool)
      requires p < 8 * bitmap.Length
      ensures taken == Bits()[p]
    {
      taken := TestBit(bitmap[..], p);
    }

    method SetRun(i: nat, n: nat)
      requires i + n <= 8 * bitmap.Length
      modifies bitmap
      ensures Bits() == F.Mark(old(Bits()), i, n, true)
    {
      for j := 0 to n
        invariant Bits() == F.Mark(old(Bits()), i, j, true)
      {
        SetPage(i + j);
      }
    }

    /** One pass of the search. On the first used page i + j of a candidate the search
        skips to i + j + 1; it still finds the lowest free run. */
    method Search(lo: nat, hi: int, n: nat) returns (r: Option<nat>)
      requires hi + n <= 8 * bitmap.Length + 1
      ensures r == F.FirstRun(Bits(), lo, hi, n)
    {
      var i := lo;
      while i < hi
        invariant lo <= i
        invariant forall k :: lo <= k < i && k < hi ==> !F.FreeRun(Bits(), k, n)
      {
        var found, j := true, 0;
        while j < n
          invariant j <= n && F.FreeRun(Bits(), i, j)
        {
          var taken := TestPage(i + j);
          if taken {
            found := false;
            break;
          }
          j := j + 1;
        }
        if found {
          assert F.FreeRun(Bits(), i, n);
          return Some(i);
        }
        i := i + j + 1;
      }
      return None;
    }

    /** Fills the first `bytes` bytes with ones: every page is in use to begin with. */
    method Fill(bytes: nat)
      requires bytes <= bitmap.Length
      modifies bitmap
      ensures forall p :: 0 <= p < 8 * bitmap.Length ==> Bits()[p] == (p < 8 * bytes || old(Bits())[p])
    {
      ghost var before := bitmap[..];
      for i := 0 to bytes
        invariant forall k :: 0 <= k < bitmap.Length ==> bitmap[k] == if k < i then 0xFF else before[k]
      {
        bitmap[i] := 0xFF;
      }
      forall p | 0 <= p < 8 * bitmap.Length ensures Bits()[p] == (p < 8 * bytes || Unpack(before)[p]) {
        AllOnes(p % 8);
        assert TestBit(bitmap[..], p) == Bits()[p] && TestBit(before, p) == Unpack(before)[p];
      }
    }

    /** Clears and counts the pages of every conventional descriptor. */
    method ReleaseConventional(descs: seq<Desc>)
      requires freePages == 0 && usablePages == 0
      requires MemoryEnd(descs) / PAGE_SIZE <= 8 * bitmap.Length
      modifies this`freePages, this`usablePages, bitmap
      ensures Released(old(Bits()), Bits(), FreeSet(descs))
      ensures freePages == usablePages == Described(descs)
    {
      ghost var before := Bits();
      for i := 0 to |descs|
        invariant Released(before, Bits(), FreeSet(descs[..i]))
        invariant freePages == usablePages == Described(descs[..i])
      {
        ReleaseNext(before, descs, i);
      }
      assert descs[..|descs|] == descs;
    }

    method ReleaseNext(ghost before: seq<bool>, descs: seq<Desc>, i: nat)
      requires i < |descs| && freePages == usablePages == Described(descs[..i])
      requires MemoryEnd(descs) / PAGE_SIZE <= 8 * bitmap.Length && Released(before, Bits(), FreeSet(descs[..i]))
      modifies this`freePages, this`usablePages, bitmap
      ensures Released(before, Bits(), FreeSet(descs[..i + 1])) && freePages == usablePages == Described(descs[..i + 1])
    {
      DescribedGrows(descs, i);
      if descs[i].kind == CONVENTIONAL {
        MemoryEndBounds(descs, i);
        ReleaseMore(before, Bits(), FreeSet(descs[..i]), descs[i]);
        usablePages := usablePages + descs[i].pages;
        ClearDescriptor(descs[i]);
      }
    }

    method ClearDescriptor(d: Desc)
      requires d.First() + d.pages <= 8 * bitmap.Length
      modifies this`freePages, bitmap
      ensures Bits() == F.Mark(old(Bits()), d.First(), d.pages, false)
      ensures freePages == old(freePages) + d.pages
    {
      for j := 0 to d.pages
        invariant Bits() == F.Mark(old(Bits()), d.First(), j, false)
        invariant freePages == old(freePages) + j
      {
        ClearPage(d.First() + j);
        freePages := freePages + 1;
      }
    }

    /** Takes back the free pages below 16 MiB, counting only those still free. */
    method ReserveLow(ghost free: set<nat>)
      requires LOW_PAGES <= 8 * bitmap.Length
      requires forall p :: 0 <= p < LOW_PAGES ==> (p in free <==> !Bits()[p])
      modifies this`freePages, bitmap
      ensures forall p :: 0 <= p < 8 * bitmap.Length ==> Bits()[p] == (old(Bits())[p] || p < LOW_PAGES)
      ensures freePages == old(freePages) - |free| + |From(free, LOW_PAGES)|
    {
      assert From(free, 0) == free;
      for i := 0 to LOW_PAGES
        invariant forall p :: 0 <= p < 8 * bitmap.Length ==> Bits()[p] == (old(Bits())[p] || p < i)
        invariant freePages == old(freePages) - |free| + |From(free, i)|
      {
        assert From(free, i + 1) == From(free, i) - {i};
        var taken := TestPage(i);
        if !taken {
          SetPage(i);
          freePages := freePages - 1;
        }
      }
    }

    /** pmm_init once the bitmap has its home, k pages from `first`. */
    method Populate(descs: seq<Desc>, first: nat, k: nat, bytes: nat)
      requires MemoryEnd(descs) / PAGE_SIZE <= 8 * bitmap.Length
      requires LOW_PAGES <= first && first + k <= 8 * bitmap.Length && LOW_PAGES <= 8 * bytes <= 8 * bitmap.Length
      requires Interval(first, k) <= FreeSet(descs)
      modifies this`freePages, this`usablePages, bitmap
      ensures Populated(descs, first, k, bytes, old(Bits()), Bits())
      ensures freePages == Counted(descs, first, k) && usablePages == Described(descs)
    {
      ghost var before := Bits();
      Fill(bytes);
      ghost var filled := Bits();
      freePages, usablePages := 0, 0;
      ReleaseConventional(descs);
      ghost var released := Bits();
      SetRun(first, k);
      freePages := freePages - k;
      PrepareFacts(descs, first, k, bytes, before, filled, released, Bits());
      ghost var free := FreeSet(descs) - Interval(first, k);
      assert FreeSet(descs) == free + Interval(first, k);
      ReserveLow(free);
    }

    /** pmm_init. */
    method Init(descs: seq<Desc>) returns (home: Option<nat>)
      requires MemoryEnd(descs) / PAGE_SIZE <= 8 * bitmap.Length
      modifies this`totalPages, this`freePages, this`usablePages, bitmap
      ensures totalPages == MemoryEnd(descs) / PAGE_SIZE
      ensures home.None? ==> forall k :: 0 <= k < |descs| ==> !CanHold(descs[k], totalPages / 8)
      ensures home.None? ==> Bits() == old(Bits()) && freePages == old(freePages) && usablePages == old(usablePages)
      ensures home.Some? ==> home.value < |descs| && CanHold(descs[home.value], totalPages / 8)
                             && forall k :: 0 <= k < home.value ==> !CanHold(descs[k], totalPages / 8)
      ensures home.Some? ==>
        var first, bytes := descs[home.value].First(), totalPages / 8;
        && Populated(descs, first, HomePages(bytes), bytes, old(Bits()), Bits())
        && freePages == Counted(descs, first, HomePages(bytes)) && usablePages == Described(descs)
      ensures home.Some? ==>
        var start, bytes := descs[home.value].start, totalPages / 8;
        start % PAGE_SIZE + bytes <= HomePages(bytes) * PAGE_SIZE ==>
          forall b: nat :: b < bytes ==> PageUnder(start, b) < |Bits()| && Bits()[PageUnder(start, b)]
    {
      var end := FindMemoryEnd(descs);
      totalPages := end / PAGE_SIZE;
      var bytes := totalPages / 8;
      home := ChooseHome(descs, bytes);
      if home.None? { return; }
      var first, k := descs[home.value].First(), HomePages(bytes);
      HomeFits(descs, home.value, totalPages, k);
      ghost var before := Bits();
      Populate(descs, first, k, bytes);
      ghost var d := descs[home.value];
      forall b: nat | b < bytes && d.start % PAGE_SIZE + bytes <= k * PAGE_SIZE
        ensures PageUnder(d.start, b) < |Bits()| && Bits()[PageUnder(d.start, b)]
      {
        UnderBitmap(descs, d, bytes, before, Bits(), b);
      }
    }

    /** pmm_alloc: address of the run, 0 when there is none. */
    method Alloc(n: nat) returns (addr: nat)
      requires n <= totalPages <= 8 * bitmap.Length + 1 && lastSearch + n <= 8 * bitmap.Length + 1
      modifies this`freePages, this`lastSearch, bitmap
      ensures Model() == F.Alloc(old(Model()), n).0
      ensures var r := F.Alloc(old(Model()), n).1;
              addr == if r.Some? then r.value * PAGE_SIZE else 0
    {
      var r := Search(lastSearch, totalPages - n, n);
      if r.None? {
        r := Search(0, lastSearch, n);
      }
      if r.None? { return 0; }
      SetRun(r.value, n);
      freePages := freePages - n;
      lastSearch := r.value + n;
      return r.value * PAGE_SIZE;
    }

    /** pmm_free. */
    method Free(addr: nat, n: nat)
      requires addr / PAGE_SIZE + n <= 8 * bitmap.Length
      modifies this`freePages, bitmap
      ensures Model() == F.Release(old(Model()), addr / PAGE_SIZE, n)
    {
      var page := addr / PAGE_SIZE;
      for i := 0 to n
        invariant Bits() == F.Mark(old(Bits()), page, i, false)
        invariant freePages == old(freePages) + i
      {
        ClearPage(page + i);
        freePages := freePages + 1;
      }
    }
  }
}
