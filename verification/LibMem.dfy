/** libmem.c, mm64.c and mm-vm.c: a process's memory, changed in place. */
module LibMem {
  import opened Common
  import opened Ptes
  import opened Memory
  import opened Memphys

  /** vmap_page_range takes the position in the range for the frame number once the frames have run out. */
  function Padded(frames: seq<nat>, n: nat): (s: seq<nat>)
    ensures |s| == n
    ensures |frames| == n ==> s == frames
    ensures forall i :: 0 <= i < n ==> s[i] == if i < |frames| then frames[i] else i
  {
    seq(n, i requires 0 <= i < n => if i < |frames| then frames[i] else i)
  }

  /** One more page of a range. */
  lemma MapPagesNext(mm: Mm, first: nat, frames: seq<nat>, k: nat, m: Mm)
    requires mm.Wf() && m.Wf() && k < |frames| && m == MapPages(mm, first, frames[..k])
    ensures MapPages(mm, first, frames[..k + 1]) == MapPage(m, first + k, frames[k])
  {
    assert frames[..k + 1][..k] == frames[..k];
  }

  lemma WholePages(size: nat, amount: nat)
    requires amount == AlignUp(size)
    ensures amount / PAGE == Pages(size) && (amount == 0 <==> Pages(size) == 0)
  {
  }

  class MmStruct {
    const pt: array<bv64>
    const symrgtbl: array<Region>
    var freerg: seq<Region>
    var sbrk: nat
    var fifo: seq<nat>
    ghost var mapped: seq<nat>
    ghost var victims: seq<nat>
    ghost var lost: nat

    ghost function View(): Mm
      reads this, pt, symrgtbl
    {
      Mm(pt[..], symrgtbl[..], freerg, sbrk, fifo, mapped, victims, lost)
    }

    ghost predicate Valid()
      reads this, pt, symrgtbl
    {
      View().Wf()
    }

    /** A device's bytes are not this process's tables. */
    ghost predicate Apart(phy: Memphy)
    {
      phy.storage as object != symrgtbl && phy.storage as object != pt
    }

    /** init_mm. */
    constructor ()
      ensures Valid() && View() == NewMm() && fresh(pt) && fresh(symrgtbl)
    {
      pt := new bv64[TABLE](i => 0);
      symrgtbl := new Region[SYMBOLS](i => Region(0, 0));
      freerg, sbrk, fifo := [Region(0, 0)], 0, [];
      mapped, victims, lost := [], [], 0;
      new;
      assert pt[..] == NewMm().pt;
      assert symrgtbl[..] == NewMm().sym;
    }

    // ---- Page-table entries and the FIFO ----

    /** get_pd_from_pagenum, of whose five indices only the last is used. */
    method EntryIndex(pgn: nat) returns (e: nat)
      ensures e == pgn % TABLE
    {
      e := PtIndex(pgn);
      PtIndexMod(pgn);
    }

    /** pte_get_entry: the low 32 bits of the page's entry. */
    method PteGetEntry(pgn: nat) returns (pte: bv64)
      requires Valid()
      ensures pte == Entry(pt[pgn % TABLE])
    {
      var e := EntryIndex(pgn);
      pte := Entry(pt[e]);
    }

    /** pte_set_fpn. */
    method PteSetFpn(pgn: nat, fpn: nat)
      requires Valid()
      modifies pt
      ensures pt[..] == old(pt[..])[pgn % TABLE := SetFpn(old(pt[pgn % TABLE]), Word(fpn))]
    {
      var e := EntryIndex(pgn);
      pt[e] := SetBit(pt[e], PRESENT);
      pt[e] := ClrBit(pt[e], SWAPPED);
      pt[e] := SetVal(pt[e], Word(fpn), FPN_MASK, 0);
    }

    /** pte_set_swap. */
    method PteSetSwap(pgn: nat, swptyp: bv64, swpoff: nat)
      requires Valid()
      modifies pt
      ensures pt[..] == old(pt[..])[pgn % TABLE := SetSwap(old(pt[pgn % TABLE]), swptyp, Word(swpoff))]
    {
      var e := EntryIndex(pgn);
      pt[e] := SetBit(pt[e], PRESENT);
      pt[e] := SetBit(pt[e], SWAPPED);
      pt[e] := SetVal(pt[e], swptyp, SWPTYP_MASK, 0);
      pt[e] := SetVal(pt[e], Word(swpoff), SWPOFF_MASK, 5);
    }

    /** enlist_pgn_node. */
    method EnlistPgn(pgn: nat)
      modifies this
      ensures View() == old(View()).(fifo := [pgn] + old(fifo), mapped := old(mapped) + [pgn])
    {
      fifo := [pgn] + fifo;
      mapped := mapped + [pgn];
    }

    /** pte_set_fpn and enlist_pgn_node, as both callers use them. */
    method Map(pgn: nat, fpn: nat)
      requires Valid()
      modifies this, pt
      ensures Valid() && View() == MapPage(old(View()), pgn, fpn)
    {
      PteSetFpn(pgn, fpn);
      EnlistPgn(pgn);
    }

    /** find_victim_page: a walk to the end of the list, which is then cut off. */
    method FindVictimPage() returns (pgn: Option<nat>)
      requires Valid()
      modifies this
      ensures Valid()
      ensures old(fifo) == [] ==> pgn == None && View() == old(View())
      ensures old(fifo) != [] ==> pgn == Some(old(fifo)[|old(fifo)| - 1]) && View() == TakeVictim(old(View()))
    {
      if fifo == [] {
        return None;
      }
      var pg := 0;
      while pg + 1 < |fifo|
        invariant pg < |fifo|
      {
        pg := pg + 1;
      }
      pgn := Some(fifo[pg]);
      victims := victims + [fifo[pg]];
      fifo := fifo[..pg];
    }

    // ---- Growth ----

    /** alloc_pages_range: frames popped one by one; when they run out, those popped are lost. */
    method AllocPagesRange(ram: Memphy, n: nat) returns (frames: seq<nat>, ok: bool)
      modifies ram
      ensures ok <==> n <= |old(ram.free)|
      ensures ok ==> frames == old(ram.free)[..n] && ram.free == old(ram.free)[n..]
      ensures !ok ==> ram.free == []
    {
      frames := [];
      var pgit := 0;
      while pgit < n
        invariant pgit <= n && pgit <= |old(ram.free)|
        invariant frames == old(ram.free)[..pgit] && ram.free == old(ram.free)[pgit..]
      {
        var fpn := ram.GetFreefp();
        if fpn.None? {
          return frames, false;
        }
        frames := frames + [fpn.value];
        pgit := pgit + 1;
      }
      ok := true;
    }

    /** One turn of vmap_page_range's loop. */
    method MapNext(first: nat, k: nat, fpn: nat, ghost was: Mm, ghost all: seq<nat>)
      requires Valid() && was.Wf() && k < |all| && all[k] == fpn && View() == MapPages(was, first, all[..k])
      modifies this, pt
      ensures Valid() && View() == MapPages(was, first, all[..k + 1])
    {
      MapPagesNext(was, first, all, k, View());
      Map(first + k, fpn);
    }

    /** vmap_page_range. */
    method VmapPageRange(first: nat, n: nat, frames: seq<nat>)
      requires Valid()
      modifies this, pt
      ensures Valid() && View() == MapPages(old(View()), first, Padded(frames, n))
    {
      ghost var all := Padded(frames, n);
      ghost var was := View();
      for pgit := 0 to n
        invariant Valid() && View() == MapPages(was, first, all[..pgit])
      {
        MapNext(first, pgit, if pgit < |frames| then frames[pgit] else pgit, was, all);
      }
      assert all[..n] == all;
    }

    /** vm_map_ram: whether there were enough frames. */
    method VmMapRam(ram: Memphy, first: nat, n: nat) returns (ok: bool)
      requires Valid()
      modifies this, pt, ram
      ensures Valid() && (ok <==> n <= |old(ram.free)|)
      ensures View() == if ok then MapPages(old(View()), first, old(ram.free)[..n]) else old(View())
      ensures ram.View() == Phy(if ok then old(ram.free)[n..] else [], old(ram.storage[..]))
    {
      var frames;
      frames, ok := AllocPagesRange(ram, n);
      if ok {
        VmapPageRange(first, n, frames);
      }
    }

    /**
     * inc_vma_limit. The overlap check fails for an area that is still empty, and then sbrk is taken back. The
     * result of vm_map_ram is unsigned, so its error is not noticed and sbrk stays where it has been moved.
     */
    method IncVmaLimit(ram: Memphy, size: nat) returns (ok: bool)
      requires Valid()
      modifies this, pt, ram
      ensures Valid() && (ok <==> old(sbrk) + AlignUp(size) > 0)
      ensures (View(), ram.View()) == Grow(old(View()), old(ram.View()), size)
    {
      var incAmt := AlignUp(size);
      var incnumpage := incAmt / PAGE;
      WholePages(size, incAmt);
      if incnumpage == 0 {
        incnumpage := 1;
      }
      var oldSbrk := sbrk;
      sbrk := oldSbrk + incAmt;
      if sbrk <= 0 {
        sbrk := oldSbrk;
        return false;
      }
      var _ := VmMapRam(ram, oldSbrk / PAGE, incnumpage);
      ok := true;
    }

    // ---- Regions ----

    /** enlist_vm_freerg_list: an empty region is not enlisted. */
    method EnlistFreerg(rg: Region)
      modifies this
      ensures View() == old(View()).(free := if rg.start < rg.end then [rg] + old(freerg) else old(freerg))
    {
      if rg.start >= rg.end {
        return;
      }
      freerg := [rg] + freerg;
    }

    /** get_free_vmrg_area: the start of the area found. */
    method GetFreeVmrgArea(size: nat) returns (start: Option<nat>)
      requires Valid()
      modifies this
      ensures start.Some? <==> Fits(old(View()), size)
      ensures start == None ==> View() == old(View())
      ensures start.Some? ==>
                var i := FirstFit(old(freerg), size);
                start == Some(old(freerg)[i].start) && View() == old(View()).(free := Carve(old(freerg), i, size))
    {
      var rgit := 0;
      while rgit < |freerg|
        invariant rgit <= |freerg| && View() == old(View())
        invariant forall j :: 0 <= j < rgit ==> freerg[j].start + size > freerg[j].end
      {
        var r := freerg[rgit];
        if r.start + size <= r.end {
          start := Some(r.start);
          if r.start + size < r.end {
            freerg := freerg[rgit := Region(r.start + size, r.end)];
          } else if rgit + 1 < |freerg| {
            freerg := freerg[..rgit] + freerg[rgit + 1..];
          } else {
            freerg := freerg[rgit := Region(r.end, r.end)];
          }
          return;
        }
        rgit := rgit + 1;
      }
      start := None;
    }

    /** The entry of the symbol table and the history of lost bytes. */
    method SetSymbol(rgid: nat, start: nat, size: nat, ghost loss: nat)
      requires Valid() && rgid < SYMBOLS
      modifies this, symrgtbl
      ensures Valid()
      ensures View() == old(View()).(sym := old(symrgtbl[..])[rgid := Region(start, start + size)],
                                     lost := old(lost) + loss)
    {
      symrgtbl[rgid] := Region(start, start + size);
      lost := lost + loss;
    }

    /** The two ways in which __alloc finds a place. */
    method Area(ram: Memphy, size: nat) returns (addr: nat)
      requires Valid()
      modifies this, pt, ram
      ensures Valid() && (addr, View(), ram.View()) == Memory.Area(old(View()), old(ram.View()), size)
    {
      var found := GetFreeVmrgArea(size);
      if found.Some? {
        addr := found.value;
      } else {
        addr := sbrk;
        GrowthIsPositive(View(), size);
        var ok := IncVmaLimit(ram, size);
        assert ok;
      }
    }

    /** __alloc: the address. */
    method Alloc(ram: Memphy, rgid: nat, size: nat) returns (addr: nat)
      requires Valid() && Apart(ram) && rgid < SYMBOLS
      modifies this, pt, symrgtbl, ram
      ensures Valid() && (addr, View(), ram.View()) == Memory.Alloc(old(View()), old(ram.View()), rgid, size)
    {
      ghost var loss := Loss(View(), rgid, size);
      addr := Area(ram, size);
      SetSymbol(rgid, addr, size, loss);
    }

    /** __free: whether the variable was allocated. */
    method Free(rgid: int) returns (ok: bool)
      requires Valid() && rgid != SYMBOLS
      modifies this, symrgtbl
      ensures Valid() && (ok, View()) == Memory.Free(old(View()), rgid)
    {
      if rgid < 0 || rgid > SYMBOLS {
        return false;
      }
      var rgnode := symrgtbl[rgid];
      if rgnode.start == 0 && rgnode.end == 0 {
        return false;
      }
      symrgtbl[rgid] := Region(0, 0);
      EnlistFreerg(rgnode);
      ok := true;
    }

    // ---- Faults ----

    /**
     * The swap device's part in bringing a page "back": SYSMEM_SWP_OP copies from RAM to swap whatever it is asked,
     * and the page's swap frame is freed.
     */
    method SwapBack(pte: bv64, f: nat, ram: Memphy, swp: Memphy)
      requires swp.storage != ram.storage && swp != ram
      modifies swp, swp.storage
      ensures swp.View() ==
                if Swapped(pte) then SwapIn(old(ram.View()), old(swp.View()), Num(SwpBits(pte)), f) else old(swp.View())
    {
      if Swapped(pte) {
        swp.SwapCpPage(ram, Num(SwpBits(pte)), f);
        swp.PutFreefp(Num(SwpBits(pte)));
      }
    }

    /** The end of both ways to get a page in: from swap if need be, then into the table and the FIFO. */
    method Install(pgn: nat, f: nat, pte: bv64, ram: Memphy, swp: Memphy)
      requires Valid() && Apart(swp) && swp.storage != ram.storage && swp != ram
      modifies this, pt, swp, swp.storage
      ensures Valid() && View() == MapPage(old(View()), pgn, f)
      ensures swp.View() ==
                if Swapped(pte) then SwapIn(old(ram.View()), old(swp.View()), Num(SwpBits(pte)), f) else old(swp.View())
    {
      SwapBack(pte, f, ram, swp);
      Map(pgn, f);
    }

    /** The oldest page goes to swap: the frame it leaves, or None if there is no page or no room on the device. */
    method MakeRoom(ram: Memphy, swp: Memphy) returns (vicfpn: Option<nat>)
      requires Valid() && Apart(swp) && swp.storage != ram.storage && swp != ram
      modifies this, pt, swp, swp.storage
      ensures Valid()
      ensures (vicfpn, View(), swp.View()) == Memory.MakeRoom(old(View()), old(ram.View()), old(swp.View()))
    {
      var vicpgn := FindVictimPage();
      if vicpgn.None? {
        return None;
      }
      var swpfpn := swp.GetFreefp();
      if swpfpn.None? {
        return None;
      }
      var vicpte := PteGetEntry(vicpgn.value);
      vicfpn := Some(Num(FpnBits(vicpte)));
      swp.SwapCpPage(ram, vicfpn.value, swpfpn.value);
      PteSetSwap(vicpgn.value, 0, swpfpn.value);
    }

    method Obtain(ram: Memphy, swp: Memphy) returns (fpn: Option<nat>)
      requires Valid() && Apart(ram) && Apart(swp) && swp.storage != ram.storage && swp != ram
      modifies this, pt, ram, swp, swp.storage
      ensures Valid()
      ensures Fetched(fpn, View(), ram.View(), swp.View())
           == Memory.Obtain(old(View()), old(ram.View()), old(swp.View()))
    {
      fpn := ram.GetFreefp();
      if fpn.None? {
        fpn := MakeRoom(ram, swp);
      }
    }

    /** pg_getpage: the page's frame, or None. */
    method PgGetpage(pgn: nat, ram: Memphy, swp: Memphy) returns (fpn: Option<nat>)
      requires Valid() && Apart(ram) && Apart(swp) && swp.storage != ram.storage && swp != ram
      modifies this, pt, ram, swp, swp.storage
      ensures Valid()
      ensures Fetched(fpn, View(), ram.View(), swp.View())
           == GetPage(old(View()), old(ram.View()), old(swp.View()), pgn)
    {
      var pte := PteGetEntry(pgn);
      if !Present(pte) {
        var tgtfpn := Obtain(ram, swp);
        if tgtfpn.None? {
          return None;
        }
        Install(pgn, tgtfpn.value, pte, ram, swp);
      }
      pte := PteGetEntry(pgn);
      fpn := Some(Num(FpnBits(pte)));
    }

    // ---- Reading and writing ----

    /** The address of a variable's byte, as both __read and __write check it. */
    method Address(rgid: int, offset: nat) returns (addr: Option<nat>)
      requires Valid() && rgid != SYMBOLS
      ensures addr == Resolve(View(), rgid, offset)
    {
      if rgid < 0 || rgid > SYMBOLS {
        return None;
      }
      var currg := symrgtbl[rgid];
      if currg.start + offset >= currg.end {
        return None;
      }
      addr := Some(currg.start + offset);
    }

    /** __read and pg_getval. */
    method Read(rgid: int, offset: nat, ram: Memphy, swp: Memphy) returns (r: ReadResult)
      requires Valid() && Apart(ram) && Apart(swp) && swp.storage != ram.storage && swp != ram && rgid != SYMBOLS
      modifies this, pt, ram, swp, swp.storage
      ensures Valid()
      ensures var (r0, g) := Memory.Read(old(View()), old(ram.View()), old(swp.View()), rgid, offset);
              r == r0 && View() == g.mm && ram.View() == g.ram && swp.View() == g.swp
    {
      var addr := Address(rgid, offset);
      if addr.None? {
        return Refused;
      }
      var fpn := PgGetpage(addr.value / PAGE, ram, swp);
      if fpn.None? {
        return Unset;
      }
      var data := ram.ReadByte(Physical(fpn.value, addr.value));
      r := if data.Some? then Value(data.value) else Unset;
    }

    /** __write and pg_setval. */
    method Write(rgid: int, offset: nat, b: bv8, ram: Memphy, swp: Memphy) returns (r: WriteResult)
      requires Valid() && Apart(ram) && Apart(swp) && swp.storage != ram.storage && swp != ram && rgid != SYMBOLS
      modifies this, pt, ram, ram.storage, swp, swp.storage
      ensures Valid()
      ensures var (r0, g) := Memory.Write(old(View()), old(ram.View()), old(swp.View()), rgid, offset, b);
              r == r0 && View() == g.mm && ram.View() == g.ram && swp.View() == g.swp
    {
      var addr := Address(rgid, offset);
      if addr.None? {
        return WriteRefused;
      }
      var fpn := PgGetpage(addr.value / PAGE, ram, swp);
      if fpn.None? {
        return Dropped;
      }
      var ok := ram.WriteByte(Physical(fpn.value, addr.value), b);
      r := if ok then Done else Dropped;
    }
  }
}
