/** Safety and accounting of the region allocator. */
module Regions {
  import opened Memory

  function In(r: Region, a: nat): nat {
    if r.start <= a < r.end then 1 else 0
  }

  /** How many regions of a list hold address a. */
  function Covers(l: seq<Region>, a: nat): nat {
    if l == [] then 0 else In(l[0], a) + Covers(l[1..], a)
  }

  function Len(r: Region): nat {
    if r.start < r.end then r.end - r.start else 0
  }

  /** The bytes of a list of regions. */
  function Total(l: seq<Region>): nat {
    if l == [] then 0 else Len(l[0]) + Total(l[1..])
  }

  lemma {:induction false} UpdateCovers(l: seq<Region>, i: nat, r: Region, a: nat)
    requires i < |l|
    ensures Covers(l[i := r], a) + In(l[i], a) == Covers(l, a) + In(r, a)
    ensures Total(l[i := r]) + Len(l[i]) == Total(l) + Len(r)
    decreases |l|
  {
    if i == 0 {
      assert l[i := r][1..] == l[1..];
    } else {
      assert l[i := r][1..] == l[1..][i - 1 := r];
      UpdateCovers(l[1..], i - 1, r, a);
    }
  }

  lemma {:induction false} RemoveCovers(l: seq<Region>, i: nat, a: nat)
    requires i < |l|
    ensures Covers(l[..i] + l[i + 1..], a) + In(l[i], a) == Covers(l, a)
    ensures Total(l[..i] + l[i + 1..]) + Len(l[i]) == Total(l)
    decreases |l|
  {
    if i == 0 {
      assert l[..i] + l[i + 1..] == l[1..];
    } else {
      assert (l[..i] + l[i + 1..])[1..] == l[1..][..i - 1] + l[1..][i..];
      RemoveCovers(l[1..], i - 1, a);
    }
  }

  /** Carving takes exactly the carved bytes off the free list. */
  lemma CarveCovers(free: seq<Region>, i: nat, size: nat, a: nat)
    requires i < |free| && free[i].start + size <= free[i].end
    ensures Covers(Carve(free, i, size), a) + In(Region(free[i].start, free[i].start + size), a) == Covers(free, a)
    ensures Total(Carve(free, i, size)) + size == Total(free)
  {
    var r := free[i];
    if r.start + size < r.end {
      UpdateCovers(free, i, Region(r.start + size, r.end), a);
    } else if i + 1 < |free| {
      RemoveCovers(free, i, a);
    } else {
      UpdateCovers(free, i, Region(r.end, r.end), a);
    }
  }

  /** A request is met from the free list exactly when some free region has room, and then by the first that has. */
  lemma FitsExactly(mm: Mm, size: nat)
    ensures Fits(mm, size) <==> exists i :: 0 <= i < |mm.free| && mm.free[i].start + size <= mm.free[i].end
    ensures Fits(mm, size) ==>
              var i := FirstFit(mm.free, size);
              mm.free[i].start + size <= mm.free[i].end
              && forall j :: 0 <= j < |mm.free| && mm.free[j].start + size <= mm.free[j].end ==> i <= j
  {
  }

  // ---- The invariant ----

  /** An address below sbrk belongs to at most one region, one above to none, and no byte is unaccounted for. */
  ghost predicate RegionInv(mm: Mm) {
    && mm.Wf() && mm.sbrk % PAGE == 0
    && (forall a: nat :: Covers(mm.sym, a) + Covers(mm.free, a) <= if a < mm.sbrk then 1 else 0)
    && Total(mm.sym) + Total(mm.free) + mm.lost == mm.sbrk
  }

  lemma {:induction false} EmptyCovers(l: seq<Region>, a: nat)
    requires forall i :: 0 <= i < |l| ==> l[i] == Region(0, 0)
    ensures Covers(l, a) == 0 && Total(l) == 0
    decreases |l|
  {
    if l != [] {
      EmptyCovers(l[1..], a);
    }
  }

  lemma NewCovers(mm: Mm, a: nat)
    requires forall i :: 0 <= i < |mm.sym| ==> mm.sym[i] == Region(0, 0)
    requires forall i :: 0 <= i < |mm.free| ==> mm.free[i] == Region(0, 0)
    ensures Covers(mm.sym, a) + Covers(mm.free, a) == 0 && Total(mm.sym) + Total(mm.free) == 0
  {
    EmptyCovers(mm.sym, a);
    EmptyCovers(mm.free, a);
  }

  lemma NewInv()
    ensures RegionInv(NewMm())
  {
    var mm := NewMm();
    forall a: nat {
      NewCovers(mm, a);
    }
    NewCovers(mm, 0);
  }

  /** Paging moves no region. */
  lemma {:induction false} MapPagesRegions(mm: Mm, first: nat, frames: seq<nat>)
    requires mm.Wf()
    ensures var m := MapPages(mm, first, frames);
            m.sym == mm.sym && m.free == mm.free && m.sbrk == mm.sbrk && m.lost == mm.lost
    decreases |frames|
  {
    if frames != [] {
      MapPagesRegions(mm, first, frames[..|frames| - 1]);
    }
  }

  lemma GrowRegions(mm: Mm, ram: Phy, size: nat)
    requires mm.Wf()
    ensures var m := Grow(mm, ram, size).0;
            m.sym == mm.sym && m.free == mm.free && m.sbrk == mm.sbrk + AlignUp(size) && m.lost == mm.lost
  {
    MapPagesRegions(mm.(sbrk := mm.sbrk + AlignUp(size)), Top(mm),
                    if |ram.free| < NewPages(size) then [] else ram.free[..NewPages(size)]);
  }

  /** Variable rgid of mm has got size bytes at addr, from the first free region with room or else from above sbrk. */
  predicate AllocStep(mm: Mm, m: Mm, addr: nat, rgid: nat, size: nat)
    requires mm.Wf() && rgid < SYMBOLS
  {
    && m.sym == mm.sym[rgid := Region(addr, addr + size)]
    && m.lost == mm.lost + Loss(mm, rgid, size)
    && m.free == (if Fits(mm, size) then Carve(mm.free, FirstFit(mm.free, size), size) else mm.free)
    && m.sbrk == (if Fits(mm, size) then mm.sbrk else mm.sbrk + AlignUp(size))
    && addr == (if Fits(mm, size) then mm.free[FirstFit(mm.free, size)].start else mm.sbrk)
  }

  /** What an allocation does to the regions, whether or not there were frames for it. */
  lemma AllocRegions(mm: Mm, ram: Phy, rgid: nat, size: nat)
    requires mm.Wf() && rgid < SYMBOLS
    ensures AllocStep(mm, Alloc(mm, ram, rgid, size).1, Alloc(mm, ram, rgid, size).0, rgid, size)
  {
    if !Fits(mm, size) {
      GrowRegions(mm, ram, size);
    }
  }

  /** Giving variable rgid the bytes from addr on. */
  lemma CoversStep(sym: seq<Region>, rgid: nat, addr: nat, size: nat, a: nat)
    requires rgid < |sym| && sym[rgid].start <= sym[rgid].end
    ensures Covers(sym[rgid := Region(addr, addr + size)], a) <= Covers(sym, a) + In(Region(addr, addr + size), a)
    ensures Total(sym[rgid := Region(addr, addr + size)]) + (sym[rgid].end - sym[rgid].start) == Total(sym) + size
  {
    UpdateCovers(sym, rgid, Region(addr, addr + size), a);
  }

  lemma AllocCovers(mm: Mm, m: Mm, addr: nat, rgid: nat, size: nat, a: nat)
    requires RegionInv(mm) && rgid < SYMBOLS && AllocStep(mm, m, addr, rgid, size)
    ensures Covers(m.sym, a) + Covers(m.free, a) <= (if a < m.sbrk then 1 else 0)
    ensures Total(m.sym) + Total(m.free) + m.lost == m.sbrk
  {
    CoversStep(mm.sym, rgid, addr, size, a);
    if Fits(mm, size) {
      CarveCovers(mm.free, FirstFit(mm.free, size), size, a);
    }
  }

  lemma AllocInv(mm: Mm, ram: Phy, rgid: nat, size: nat)
    requires RegionInv(mm) && rgid < SYMBOLS
    ensures RegionInv(Alloc(mm, ram, rgid, size).1)
  {
    AllocRegions(mm, ram, rgid, size);
    AllocStepInv(mm, Alloc(mm, ram, rgid, size).1, Alloc(mm, ram, rgid, size).0, rgid, size);
  }

  lemma AllocStepInv(mm: Mm, m: Mm, addr: nat, rgid: nat, size: nat)
    requires RegionInv(mm) && rgid < SYMBOLS && m.Wf() && AllocStep(mm, m, addr, rgid, size)
    ensures RegionInv(m)
  {
    forall a: nat {
      AllocCovers(mm, m, addr, rgid, size, a);
    }
    AllocCovers(mm, m, addr, rgid, size, 0);
  }

  lemma FreeCovers(mm: Mm, rgid: int, a: nat)
    requires RegionInv(mm) && rgid != SYMBOLS
    ensures var m := Free(mm, rgid).1;
            && Covers(m.sym, a) + Covers(m.free, a) == Covers(mm.sym, a) + Covers(mm.free, a)
            && Total(m.sym) + Total(m.free) == Total(mm.sym) + Total(mm.free)
  {
    if 0 <= rgid < SYMBOLS {
      UpdateCovers(mm.sym, rgid, Region(0, 0), a);
      assert ([mm.sym[rgid]] + mm.free)[1..] == mm.free;
    }
  }

  lemma FreeInv(mm: Mm, rgid: int)
    requires RegionInv(mm) && rgid != SYMBOLS
    ensures RegionInv(Free(mm, rgid).1)
  {
    forall a: nat
      ensures Covers(Free(mm, rgid).1.sym, a) + Covers(Free(mm, rgid).1.free, a)
           == Covers(mm.sym, a) + Covers(mm.free, a)
    {
      FreeCovers(mm, rgid, a);
    }
    FreeCovers(mm, rgid, 0);
  }

  /** A fault changes no region. */
  lemma GetPageRegions(mm: Mm, ram: Phy, swp: Phy, pgn: nat)
    requires mm.Wf()
    ensures var m := GetPage(mm, ram, swp, pgn).mm;
            m.sym == mm.sym && m.free == mm.free && m.sbrk == mm.sbrk && m.lost == mm.lost
  {
  }

  // ---- What the invariant says about pairs of regions ----

  lemma {:induction false} CoversOne(l: seq<Region>, i: nat, a: nat)
    requires i < |l| && l[i].start <= a < l[i].end
    ensures Covers(l, a) >= 1
    decreases |l|
  {
    if i > 0 {
      CoversOne(l[1..], i - 1, a);
    }
  }

  lemma {:induction false} CoversTwo(l: seq<Region>, i: nat, j: nat, a: nat)
    requires i < j < |l| && l[i].start <= a < l[i].end && l[j].start <= a < l[j].end
    ensures Covers(l, a) >= 2
    decreases |l|
  {
    if i > 0 {
      CoversTwo(l[1..], i - 1, j - 1, a);
    } else {
      CoversOne(l[1..], j - 1, a);
    }
  }

  lemma {:induction false} CoversBoth(l: seq<Region>, k: seq<Region>, a: nat)
    ensures Covers(l + k, a) == Covers(l, a) + Covers(k, a)
    decreases |l|
  {
    if l == [] {
      assert l + k == k;
    } else {
      assert (l + k)[1..] == l[1..] + k;
      CoversBoth(l[1..], k, a);
    }
  }

  /** Live variables and free regions are pairwise disjoint and lie below sbrk. */
  lemma Disjoint(mm: Mm, i: nat, j: nat, a: nat)
    requires RegionInv(mm) && i < j < |mm.sym + mm.free|
    ensures !((mm.sym + mm.free)[i].start <= a < (mm.sym + mm.free)[i].end
              && (mm.sym + mm.free)[j].start <= a < (mm.sym + mm.free)[j].end)
  {
    var l := mm.sym + mm.free;
    CoversBoth(mm.sym, mm.free, a);
    if l[i].start <= a < l[i].end && l[j].start <= a < l[j].end {
      CoversTwo(l, i, j, a);
    }
  }

  lemma BelowBreak(mm: Mm, i: nat)
    requires RegionInv(mm) && i < |mm.sym + mm.free| && (mm.sym + mm.free)[i].start < (mm.sym + mm.free)[i].end
    ensures (mm.sym + mm.free)[i].end <= mm.sbrk
  {
    var r := (mm.sym + mm.free)[i];
    CoversBoth(mm.sym, mm.free, r.end - 1);
    CoversOne(mm.sym + mm.free, i, r.end - 1);
  }

  /** An offset the allocator lets through is an address below sbrk. */
  lemma ResolvesBelow(mm: Mm, rgid: int, offset: nat)
    requires RegionInv(mm) && rgid != SYMBOLS && Resolve(mm, rgid, offset).Some?
    ensures Resolve(mm, rgid, offset).value < mm.sbrk
  {
    BelowBreak(mm, rgid);
    assert (mm.sym + mm.free)[rgid] == mm.sym[rgid];
  }

  /** Some address lies in both regions. */
  ghost predicate Shares(r: Region, s: Region) {
    exists a: nat :: In(r, a) == 1 && In(s, a) == 1
  }

  /** No two of the live variables and free regions share an address, and all lie below sbrk. */
  ghost predicate Separate(mm: Mm) {
    var all := mm.sym + mm.free;
    && (forall x, y :: 0 <= x < y < |all| ==> !Shares(all[x], all[y]))
    && (forall x :: 0 <= x < |all| && all[x].start < all[x].end ==> all[x].end <= mm.sbrk)
  }

  lemma RegionsSeparate(mm: Mm)
    requires RegionInv(mm)
    ensures Separate(mm)
  {
    var all := mm.sym + mm.free;
    forall x, y | 0 <= x < y < |all|
      ensures !Shares(all[x], all[y])
    {
      forall a: nat
        ensures !(In(all[x], a) == 1 && In(all[y], a) == 1)
      {
        Disjoint(mm, x, y, a);
      }
    }
    forall x | 0 <= x < |all| && all[x].start < all[x].end
      ensures all[x].end <= mm.sbrk
    {
      BelowBreak(mm, x);
    }
  }
}
