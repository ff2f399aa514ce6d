/** The memory of one process, the frame pools, and what the operations of libmem.c do to them. */
module Memory {
  import opened Common
  import opened Ptes

  const PAGE := 4096
  const CELLS := 256
  const TABLE := 512
  const SYMBOLS := 30
  /** The frame field of an entry is 13 bits wide. */
  const MAX_FRAMES := 8192

  /** vm_rg_struct; as a symbol, (0, 0) means that the variable is not allocated. */
  datatype Region = Region(start: nat, end: nat)

  /**
   * mm_struct with its one vm_area: the page table, the symbol table, the free regions in list order,
   * sbrk, and fifo_pgn in list order (newest first). History: every page ever enlisted in fifo_pgn, in
   * order; every page find_victim_page took out, in order; and the bytes lost to page rounding and to
   * variables that were allocated again without being freed.
   */
  datatype Mm = Mm(
    pt: seq<bv64>, sym: seq<Region>, free: seq<Region>, sbrk: nat, fifo: seq<nat>,
    mapped: seq<nat>, victims: seq<nat>, lost: nat)
  {
    predicate Wf() {
      |pt| == TABLE && |sym| == SYMBOLS && free != []
      && (forall i :: 0 <= i < |sym| ==> sym[i].start <= sym[i].end)
      && (forall i :: 0 <= i < |free| ==> free[i].start <= free[i].end)
    }
  }

  /** memphy_struct: the free frames in list order and the storage. */
  datatype Phy = Phy(free: seq<nat>, bytes: seq<bv8>)

  /** init_mm: one empty free region, nothing mapped. */
  function NewMm(): (mm: Mm)
    ensures mm.Wf()
  {
    Mm(seq(TABLE, i => 0), seq(SYMBOLS, i => Region(0, 0)), [Region(0, 0)], 0, [], [], [], 0)
  }

  /** init_memphy: zeroed storage, all frames free in ascending order. */
  function NewPhy(size: nat): (p: Phy)
    ensures |p.bytes| == size && |p.free| == size / PAGE
  {
    Phy(seq(size / PAGE, i => i), seq(size, i => 0))
  }

  // ---- Regions ----

  /** The pages that size bytes need. */
  function Pages(size: nat): nat {
    (size + PAGE - 1) / PAGE
  }

  function AlignUp(size: nat): (n: nat)
    ensures n >= size && n % PAGE == 0
  {
    Pages(size) * PAGE
  }

  /** The pages below sbrk. */
  function Top(mm: Mm): nat {
    mm.sbrk / PAGE
  }

  /** The first free region with room for size bytes; |free| when there is none. */
  function FirstFit(free: seq<Region>, size: nat): (i: nat)
    ensures i <= |free|
    ensures i < |free| ==> free[i].start + size <= free[i].end
    ensures forall j :: 0 <= j < i ==> free[j].start + size > free[j].end
  {
    if free == [] || free[0].start + size <= free[0].end then 0 else 1 + FirstFit(free[1..], size)
  }

  /** Region i gives up its first size bytes; used up, it goes, unless it is the last one, which stays empty. */
  function Carve(free: seq<Region>, i: nat, size: nat): (r: seq<Region>)
    requires i < |free| && free[i].start + size <= free[i].end
    ensures r != []
  {
    if free[i].start + size < free[i].end then free[i := Region(free[i].start + size, free[i].end)]
    else if i + 1 < |free| then free[..i] + free[i + 1..]
    else free[i := Region(free[i].end, free[i].end)]
  }

  // ---- Pages ----

  /** pte_set_fpn and enlist_pgn_node. */
  function MapPage(mm: Mm, pgn: nat, fpn: nat): Mm
    requires mm.Wf()
  {
    var e := pgn % TABLE;
    mm.(pt := mm.pt[e := SetFpn(mm.pt[e], Word(fpn))], fifo := [pgn] + mm.fifo, mapped := mm.mapped + [pgn])
  }

  /** vmap_page_range: the pages from `first` on get the frames in order. */
  function MapPages(mm: Mm, first: nat, frames: seq<nat>): (mm': Mm)
    requires mm.Wf()
    ensures mm'.Wf()
    decreases |frames|
  {
    if frames == [] then mm
    else
      var i := |frames| - 1;
      MapPage(MapPages(mm, first, frames[..i]), first + i, frames[i])
  }

  /** The bytes an allocation puts out of reach. */
  function Loss(mm: Mm, rgid: nat, size: nat): nat
    requires mm.Wf() && rgid < SYMBOLS
  {
    mm.sym[rgid].end - mm.sym[rgid].start + if Fits(mm, size) then 0 else AlignUp(size) - size
  }

  /** Whether a request is met from the free list or by raising sbrk. */
  predicate Fits(mm: Mm, size: nat) {
    FirstFit(mm.free, size) < |mm.free|
  }

  /** The pages that a growth maps: one at least. */
  function NewPages(size: nat): nat {
    if Pages(size) == 0 then 1 else Pages(size)
  }

  /**
   * inc_vma_limit. With too few frames the ones there are get popped and lost, no page is mapped, and sbrk has
   * moved all the same. An area that would still be empty is refused.
   */
  function Grow(mm: Mm, ram: Phy, size: nat): (r: (Mm, Phy))
    requires mm.Wf()
    ensures r.0.Wf()
  {
    var up := mm.(sbrk := mm.sbrk + AlignUp(size));
    if up.sbrk == 0 then (mm, ram)
    else if |ram.free| < NewPages(size) then (up, ram.(free := []))
    else (MapPages(up, Top(mm), ram.free[..NewPages(size)]), ram.(free := ram.free[NewPages(size)..]))
  }

  /** __alloc raises sbrk for requests of at least one byte only, and so by at least one page. */
  lemma GrowthIsPositive(mm: Mm, size: nat)
    requires mm.Wf() && !Fits(mm, size)
    ensures size > 0 && Pages(size) > 0
  {
    assert mm.free[0].start <= mm.free[0].end;
  }

  /** The place for a request: from the first free region with room, or else at sbrk. */
  function Area(mm: Mm, ram: Phy, size: nat): (r: (nat, Mm, Phy))
    requires mm.Wf()
    ensures r.1.Wf()
  {
    if Fits(mm, size) then
      var i := FirstFit(mm.free, size);
      CarveWf(mm.free, i, size);
      (mm.free[i].start, mm.(free := Carve(mm.free, i, size)), ram)
    else
      var (m, r) := Grow(mm, ram, size);
      (mm.sbrk, m, r)
  }

  /** __alloc: the address, the process's memory and the RAM after it. */
  function Alloc(mm: Mm, ram: Phy, rgid: nat, size: nat): (r: (nat, Mm, Phy))
    requires mm.Wf() && rgid < SYMBOLS
    ensures r.1.Wf()
  {
    var (a, m, r) := Area(mm, ram, size);
    (a, m.(sym := m.sym[rgid := Region(a, a + size)], lost := m.lost + Loss(mm, rgid, size)), r)
  }

  lemma CarveWf(free: seq<Region>, i: nat, size: nat)
    requires i < |free| && free[i].start + size <= free[i].end
    requires forall j :: 0 <= j < |free| ==> free[j].start <= free[j].end
    ensures forall j :: 0 <= j < |Carve(free, i, size)| ==> Carve(free, i, size)[j].start <= Carve(free, i, size)[j].end
  {
  }

  /** __free: whether the variable was allocated, and the memory after it. */
  function Free(mm: Mm, rgid: int): (r: (bool, Mm))
    requires mm.Wf() && rgid != SYMBOLS
    ensures r.1.Wf()
  {
    if rgid < 0 || rgid > SYMBOLS then (false, mm)
    else
      var g := mm.sym[rgid];
      if g == Region(0, 0) then (false, mm)
      else (true, mm.(sym := mm.sym[rgid := Region(0, 0)], free := if g.start < g.end then [g] + mm.free else mm.free))
  }

  // ---- Faults ----

  /** The byte copies of __swap_cp_page from cell i on; both devices are cut into 256-byte pages here. */
  function SwapCopy(src: seq<bv8>, srcfpn: nat, dst: seq<bv8>, dstfpn: nat, i: nat): (d: seq<bv8>)
    requires i <= CELLS
    ensures |d| == |dst|
    decreases CELLS - i
  {
    if i == CELLS then dst
    else
      var from, to := srcfpn * CELLS + i, dstfpn * CELLS + i;
      SwapCopy(src, srcfpn, if from < |src| && to < |dst| then dst[to := src[from]] else dst, dstfpn, i + 1)
  }

  /** find_victim_page: the last page of fifo_pgn leaves the list. */
  function TakeVictim(mm: Mm): (m: Mm)
    requires mm.Wf() && mm.fifo != []
    ensures m.Wf()
  {
    var v := mm.fifo[|mm.fifo| - 1];
    mm.(fifo := mm.fifo[..|mm.fifo| - 1], victims := mm.victims + [v])
  }

  /** The victim's entry after it has gone to frame s of the swap device. */
  function SwapOut(mm: Mm, v: nat, s: nat): (m: Mm)
    requires mm.Wf()
    ensures m.Wf()
  {
    mm.(pt := mm.pt[v % TABLE := SetSwap(mm.pt[v % TABLE], 0, Word(s))])
  }

  /** What getting a page in leaves: the frame, when there is one, the process's memory, the RAM and the swap device. */
  datatype Fetched = Fetched(frame: Option<nat>, mm: Mm, ram: Phy, swp: Phy)

  /** PAGING_FPN of a page's entry. */
  function FrameOf(mm: Mm, pgn: nat): nat
    requires mm.Wf()
  {
    Fpn(mm.pt[pgn % TABLE])
  }

  /** The swap device after a page has been "brought back" from swap frame o to frame f: the copy goes the other way. */
  function SwapIn(ram: Phy, swp: Phy, o: nat, f: nat): Phy {
    Phy([o] + swp.free, SwapCopy(ram.bytes, o, swp.bytes, f, 0))
  }

  /** The swap device after page pgn has got frame f. */
  function Back(mm: Mm, ram: Phy, swp: Phy, pgn: nat, f: nat): Phy
    requires mm.Wf()
  {
    var e := mm.pt[pgn % TABLE];
    if Swapped(Entry(e)) then SwapIn(ram, swp, Swp(e), f) else swp
  }

  /** Room made in RAM by sending the oldest page to swap: the frame it leaves, the memory and the swap device. */
  function MakeRoom(mm: Mm, ram: Phy, swp: Phy): (r: (Option<nat>, Mm, Phy))
    requires mm.Wf()
    ensures r.1.Wf()
  {
    if mm.fifo == [] then (None, mm, swp)
    else if swp.free == [] then (None, TakeVictim(mm), swp)
    else
      var v, s := mm.fifo[|mm.fifo| - 1], swp.free[0];
      (Some(FrameOf(mm, v)), SwapOut(TakeVictim(mm), v, s),
       Phy(swp.free[1..], SwapCopy(ram.bytes, FrameOf(mm, v), swp.bytes, s, 0)))
  }

  /** A frame for a page: a free one, or one that is made free. */
  function Obtain(mm: Mm, ram: Phy, swp: Phy): (r: Fetched)
    requires mm.Wf()
    ensures r.mm.Wf()
  {
    if ram.free != [] then Fetched(Some(ram.free[0]), mm, ram.(free := ram.free[1..]), swp)
    else
      var (f, m, s) := MakeRoom(mm, ram, swp);
      Fetched(f, m, ram, s)
  }

  /**
   * pg_getpage: a page that is not present takes a free frame, or else the frame of the process's
   * oldest page, which goes to swap.
   */
  function GetPage(mm: Mm, ram: Phy, swp: Phy, pgn: nat): (r: Fetched)
    requires mm.Wf()
    ensures r.mm.Wf()
  {
    if Present(Entry(mm.pt[pgn % TABLE])) then Fetched(Some(FrameOf(mm, pgn)), mm, ram, swp)
    else
      var g := Obtain(mm, ram, swp);
      if g.frame.None? then g
      else
        var m := MapPage(g.mm, pgn, g.frame.value);
        Fetched(Some(FrameOf(m, pgn)), m, g.ram, Back(mm, g.ram, g.swp, pgn, g.frame.value))
  }

  // ---- Reading and writing ----

  /** The address of a region offset, when the variable has such an offset. */
  function Resolve(mm: Mm, rgid: int, offset: nat): Option<nat>
    requires mm.Wf() && rgid != SYMBOLS
  {
    if rgid < 0 || rgid > SYMBOLS then None
    else if mm.sym[rgid].start + offset >= mm.sym[rgid].end then None
    else Some(mm.sym[rgid].start + offset)
  }

  /** get_phyaddr. */
  function Physical(frame: nat, addr: nat): nat {
    frame * PAGE + addr % CELLS
  }

  /** Refused is the error return. Unset is a success return without a value: __read ignores pg_getval's result. */
  datatype ReadResult = Refused | Unset | Value(b: bv8)

  /** Done covers a store that hit storage, Dropped one that did not; the caller cannot tell them apart. */
  datatype WriteResult = WriteRefused | Dropped | Done

  function Read(mm: Mm, ram: Phy, swp: Phy, rgid: int, offset: nat): (r: (ReadResult, Fetched))
    requires mm.Wf() && rgid != SYMBOLS
    ensures r.1.mm.Wf()
  {
    var a := Resolve(mm, rgid, offset);
    if a.None? then (Refused, Fetched(None, mm, ram, swp))
    else
      var g := GetPage(mm, ram, swp, a.value / PAGE);
      if g.frame.None? then (Unset, g)
      else
        var phys := Physical(g.frame.value, a.value);
        (if phys < |g.ram.bytes| then Value(g.ram.bytes[phys]) else Unset, g)
  }

  function Write(mm: Mm, ram: Phy, swp: Phy, rgid: int, offset: nat, b: bv8): (r: (WriteResult, Fetched))
    requires mm.Wf() && rgid != SYMBOLS
    ensures r.1.mm.Wf()
  {
    var a := Resolve(mm, rgid, offset);
    if a.None? then (WriteRefused, Fetched(None, mm, ram, swp))
    else
      var g := GetPage(mm, ram, swp, a.value / PAGE);
      if g.frame.None? then (Dropped, g)
      else
        var phys := Physical(g.frame.value, a.value);
        if phys < |g.ram.bytes| then (Done, g.(ram := g.ram.(bytes := g.ram.bytes[phys := b]))) else (Dropped, g)
  }
}
