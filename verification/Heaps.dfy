/** Order and rounding in the allocator: how much a growth takes, and in what order free regions are used. */
module Heaps {
  import opened Memory

  /** init_mm. */
  lemma FirstMemory()
    ensures var mm := NewMm();
            && mm == Mm(mm.pt, mm.sym, [Region(0, 0)], 0, [], [], [], 0) && |mm.pt| == 512 && |mm.sym| == 30
            && (forall e :: 0 <= e < 512 ==> mm.pt[e] == 0)
            && forall v :: 0 <= v < 30 ==> mm.sym[v] == Region(0, 0)
  {
  }

  /** PAGING64_PAGE_ALIGNSZ: the least multiple of 4096 that is large enough. */
  lemma AlignsUp(size: nat)
    ensures size <= AlignUp(size) < size + 4096 && AlignUp(size) % 4096 == 0
    ensures AlignUp(size) == Pages(size) * 4096
  {
  }

  /** A growth by nothing maps one page at sbrk, which stays, if there is a heap and a frame, and else does nothing. */
  lemma GrowsByNothing(mm: Mm, ram: Phy)
    requires mm.Wf()
    ensures Grow(mm, ram, 0)
         == if mm.sbrk == 0 || ram.free == [] then (mm, ram)
            else (MapPage(mm, mm.sbrk / 4096, ram.free[0]), ram.(free := ram.free[1..]))
  {
    assert AlignUp(0) == 0;
    if mm.sbrk != 0 && ram.free != [] {
      var one := ram.free[..1];
      assert one[..0] == [] && one[0] == ram.free[0];
      assert MapPages(mm, Top(mm), one[..0]) == mm;
    }
  }

  /** The regions of a list that have bytes, in order. */
  function NonEmpty(l: seq<Region>): seq<Region> {
    if l == [] then [] else (if l[0].start < l[0].end then [l[0]] else []) + NonEmpty(l[1..])
  }

  lemma {:induction false} NonEmptyBoth(l: seq<Region>, k: seq<Region>)
    ensures NonEmpty(l + k) == NonEmpty(l) + NonEmpty(k)
    decreases |l|
  {
    if l == [] {
      assert l + k == k;
    } else {
      assert (l + k)[1..] == l[1..] + k;
      NonEmptyBoth(l[1..], k);
    }
  }

  lemma NonEmptyOne(r: Region)
    ensures NonEmpty([r]) == if r.start < r.end then [r] else []
  {
    assert [r][1..] == [];
  }

  lemma NonEmptyAround(l: seq<Region>, r: Region, k: seq<Region>)
    ensures NonEmpty(l + [r] + k) == NonEmpty(l) + (if r.start < r.end then [r] else []) + NonEmpty(k)
  {
    NonEmptyBoth(l + [r], k);
    NonEmptyBoth(l, [r]);
    NonEmptyOne(r);
  }

  /** Carving keeps the order of the free regions: what is left of the one carved takes its place. */
  lemma CarveKeepsOrder(free: seq<Region>, i: nat, size: nat)
    requires i < |free| && free[i].start + size <= free[i].end
    ensures NonEmpty(Carve(free, i, size))
         == NonEmpty(free[..i])
            + (if free[i].start + size < free[i].end then [Region(free[i].start + size, free[i].end)] else [])
            + NonEmpty(free[i + 1..])
  {
    var r := free[i];
    if r.start + size < r.end {
      assert Carve(free, i, size) == free[..i] + [Region(r.start + size, r.end)] + free[i + 1..];
      NonEmptyAround(free[..i], Region(r.start + size, r.end), free[i + 1..]);
    } else if i + 1 < |free| {
      NonEmptyBoth(free[..i], free[i + 1..]);
    } else {
      assert Carve(free, i, size) == free[..i] + [Region(r.end, r.end)] + free[i + 1..];
      NonEmptyAround(free[..i], Region(r.end, r.end), free[i + 1..]);
    }
  }

  /** The region freed last is the first to be used again: a request that it has room for starts where it starts. */
  lemma FreedIsReused(mm: Mm, ram: Phy, rgid: nat, other: nat, size: nat)
    requires mm.Wf() && rgid < 30 && other < 30 && mm.sym[rgid].start + size <= mm.sym[rgid].end
    requires mm.sym[rgid].start < mm.sym[rgid].end
    ensures var m := Free(mm, rgid).1;
            var (a, m', r) := Alloc(m, ram, other, size);
            && a == mm.sym[rgid].start && r == ram && m'.sbrk == mm.sbrk && m'.pt == mm.pt && m'.fifo == mm.fifo
            && m'.sym[other] == Region(a, a + size)
  {
  }
}
