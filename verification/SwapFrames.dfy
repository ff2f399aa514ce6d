/** Who owns which frame of the swap device: the evicted pages, one each, and the device's free list. */
module SwapFrames {
  import opened Common
  import opened Ptes
  import opened Memory
  import opened Accesses
  import opened Tables
  import opened Paging
  import opened Frames
  import opened Worlds
  import I = Instructions

  /** The swap offset field is 21 bits wide. */
  const MAX_SWAP := 0x20_0000

  /** What an entry says about the swap device: whether the page is there, and in which frame. */
  function SlotOf(v: bv64): Mark {
    if Swapped(Entry(v)) then Mark(true, false, Swp(v)) else Mark(false, false, 0)
  }

  function SlotsOf(pt: seq<bv64>): (s: seq<Mark>)
    ensures |s| == |pt|
  {
    seq(|pt|, i requires 0 <= i < |pt| => SlotOf(pt[i]))
  }

  /** A process's hold on the swap device, as a table whose frames are swap frames. */
  function SlotTable(mm: Mm): Table {
    Table(SlotsOf(mm.pt), 0, [], [], [])
  }

  lemma SlotsUpdate(pt: seq<bv64>, e: nat, v: bv64)
    requires e < |pt|
    ensures SlotsOf(pt[e := v]) == SlotsOf(pt)[e := SlotOf(v)]
  {
  }

  /** An entry that gets a frame of RAM is not on the swap device. */
  lemma SlotSetFpn(v: bv64, f: nat)
    ensures SlotOf(SetFpn(v, Word(f))) == Mark(false, false, 0)
  {
    FpnMarks(v, Word(f));
  }

  /** An entry that goes to swap frame s says so. */
  lemma SlotSetSwap(v: bv64, s: nat)
    requires s < MAX_SWAP
    ensures SlotOf(SetSwap(v, 0, Word(s))) == Mark(true, false, s)
  {
    var w := SetSwapMod(v, s);
    SwapMarks(v, 0, w);
    SlotIs(SetSwap(v, 0, w), s);
  }

  lemma SlotIs(x: bv64, s: nat)
    requires Swapped(Entry(x)) && Swp(x) == s % MAX_SWAP && s < MAX_SWAP
    ensures SlotOf(x) == Mark(true, false, s)
  {
  }

  /** A page that is not present has no swap frame. */
  lemma AbsentSlot(mm: Mm, pgn: nat)
    requires mm.Wf() && PageInv(TableOf(mm)) && pgn < TABLE && !TableOf(mm).marks[pgn].present
    ensures SlotsOf(mm.pt)[pgn] == Mark(false, false, 0)
  {
    MarkIs(mm, pgn);
    if TableOf(mm).marks[pgn].swapped {
      NeverSwappedIn(TableOf(mm), pgn);
    }
  }

  lemma MapSlots(mm: Mm, pgn: nat, f: nat)
    requires mm.Wf() && pgn < TABLE && SlotsOf(mm.pt)[pgn] == Mark(false, false, 0)
    ensures SlotsOf(MapPage(mm, pgn, f).pt) == SlotsOf(mm.pt)
  {
    SlotSetFpn(mm.pt[pgn], f);
    SlotsUpdate(mm.pt, pgn, SetFpn(mm.pt[pgn], Word(f)));
  }

  lemma {:induction false} MapPagesSlots(mm: Mm, first: nat, frames: seq<nat>)
    requires mm.Wf() && first + |frames| <= TABLE
    requires forall e :: first <= e < first + |frames| ==> SlotsOf(mm.pt)[e] == Mark(false, false, 0)
    ensures SlotsOf(MapPages(mm, first, frames).pt) == SlotsOf(mm.pt)
    decreases |frames|
  {
    if frames != [] {
      var i := |frames| - 1;
      MapPagesSlots(mm, first, frames[..i]);
      MapSlots(MapPages(mm, first, frames[..i]), first + i, frames[i]);
    }
  }

  // ---- Operations ----

  /** The victim's entry gets the head of the free list, the other entries stay. */
  lemma SwapOutSlots(mm: Mm, v: nat, s: nat)
    requires mm.Wf() && v < TABLE && s < MAX_SWAP
    ensures SlotsOf(SwapOut(mm, v, s).pt) == SlotsOf(mm.pt)[v := Mark(true, false, s)]
  {
    SlotSetSwap(mm.pt[v], s);
    SlotsUpdate(mm.pt, v, SetSwap(mm.pt[v], 0, Word(s)));
  }

  /** Whether an access evicts a page. */
  predicate Evicts(mm: Mm, ram: Phy, swp: Phy, pgn: nat)
    requires mm.Wf() && pgn < TABLE
  {
    !TableOf(mm).marks[pgn].present && ram.free == [] && mm.fifo != [] && swp.free != []
  }

  /** The accesses that evict nothing leave the swap device and every process's hold on it alone. */
  lemma StaysSlots(mm: Mm, ram: Phy, swp: Phy, pgn: nat)
    requires mm.Wf() && PageInv(TableOf(mm)) && pgn < TABLE && !Evicts(mm, ram, swp, pgn)
    ensures var g := GetPage(mm, ram, swp, pgn); SlotsOf(g.mm.pt) == SlotsOf(mm.pt) && g.swp == swp
  {
    MarkIs(mm, pgn);
    if !TableOf(mm).marks[pgn].present {
      AbsentSlot(mm, pgn);
      if ram.free != [] {
        MapSlots(mm, pgn, ram.free[0]);
      }
    }
  }

  /** An access that evicts. */
  lemma EvictionSlots(mm: Mm, ram: Phy, swp: Phy, pgn: nat)
    requires mm.Wf() && PageInv(TableOf(mm)) && pgn < TABLE && Evicts(mm, ram, swp, pgn) && swp.free[0] < MAX_SWAP
    ensures mm.fifo[|mm.fifo| - 1] < TABLE
    ensures var g := GetPage(mm, ram, swp, pgn);
            && SlotsOf(g.mm.pt) == SlotsOf(mm.pt)[mm.fifo[|mm.fifo| - 1] := Mark(true, false, swp.free[0])]
            && g.swp.free == swp.free[1..]
            && g.swp.bytes == SwapCopy(ram.bytes, FrameOf(mm, mm.fifo[|mm.fifo| - 1]), swp.bytes, swp.free[0], 0)
  {
    var v := mm.fifo[|mm.fifo| - 1];
    InFifo(TableOf(mm), |mm.fifo| - 1);
    MarkIs(mm, pgn);
    AbsentSlot(mm, pgn);
    SwapOutSlots(TakeVictim(mm), v, swp.free[0]);
    assert v != pgn;
    MapSlots(SwapOut(TakeVictim(mm), v, swp.free[0]), pgn, FrameOf(mm, v));
  }

  // ---- All processes ----

  function SlotTablesOf(w: World): map<nat, Table> {
    map p | p in w.mms :: SlotTable(w.mms[p])
  }

  /** The device has n frames; each is behind at most one evicted page of at most one process, or free, once. */
  ghost predicate SwapInv(w: World, n: nat) {
    n <= MAX_SWAP && Own(SlotTablesOf(w), w.swp.free, n)
  }

  lemma SlotAt(w: World, n: nat, pid: nat)
    requires SwapInv(w, n) && pid in w.mms
    ensures var t := SlotTable(w.mms[pid]);
            && Distinct(t) && Clear(t, w.swp.free, n) && NoDup(w.swp.free)
            && forall i :: 0 <= i < |w.swp.free| ==> w.swp.free[i] < n
  {
    assert SlotTablesOf(w)[pid] == SlotTable(w.mms[pid]);
  }

  lemma UpdateSwap(w: World, w': World, n: nat, pid: nat)
    requires SwapInv(w, n) && pid in w.mms && pid in w'.mms && w'.mms == w.mms[pid := w'.mms[pid]]
    requires Takes(SlotTable(w.mms[pid]), SlotTable(w'.mms[pid]), w.swp.free, w'.swp.free)
    ensures SwapInv(w', n)
  {
    assert SlotTablesOf(w') == SlotTablesOf(w)[pid := SlotTable(w'.mms[pid])];
    TakesOwn(SlotTablesOf(w), w.swp.free, n, pid, SlotTable(w'.mms[pid]), w'.swp.free);
  }

  /** The step of a process that evicts nothing. */
  lemma SameSwap(w: World, w': World, n: nat, pid: nat)
    requires SwapInv(w, n) && pid in w.mms && pid in w'.mms && w'.mms == w.mms[pid := w'.mms[pid]]
    requires SlotsOf(w'.mms[pid].pt) == SlotsOf(w.mms[pid].pt) && w'.swp.free == w.swp.free
    ensures SwapInv(w', n)
  {
    SlotAt(w, n, pid);
    SameFrames(SlotTable(w.mms[pid]), SlotTable(w'.mms[pid]), w.swp.free);
    UpdateSwap(w, w', n, pid);
  }

  /** One more page takes the head of the pool. */
  lemma HeadTakes(t: Table, u: Table, v: nat, pool: seq<nat>)
    requires v < |t.marks| && pool != [] && u.marks == t.marks[v := Mark(true, false, pool[0])]
    requires Distinct(t) && NoDup(pool) && forall f: nat :: Holds(t, f) ==> f !in pool
    ensures Takes(t, u, pool, pool[1..])
  {
    var m := Map(t, v, pool[0]);
    MapTakes(t, v, pool);
    forall e: nat
      ensures FrameAt(u, e) == FrameAt(m, e)
    {
    }
  }

  lemma EvictedSwap(w: World, w': World, n: nat, pid: nat, v: nat)
    requires SwapInv(w, n) && pid in w.mms && pid in w'.mms && w'.mms == w.mms[pid := w'.mms[pid]]
    requires w.swp.free != [] && w'.swp.free == w.swp.free[1..] && v < |w.mms[pid].pt|
    requires SlotsOf(w'.mms[pid].pt) == SlotsOf(w.mms[pid].pt)[v := Mark(true, false, w.swp.free[0])]
    ensures SwapInv(w', n)
  {
    SlotAt(w, n, pid);
    HeadTakes(SlotTable(w.mms[pid]), SlotTable(w'.mms[pid]), v, w.swp.free);
    UpdateSwap(w, w', n, pid);
  }

  lemma NewSlots()
    ensures forall e: nat :: FrameAt(SlotTable(NewMm()), e) == None
  {
    NewTable();
    assert forall e :: 0 <= e < TABLE ==> TableOf(NewMm()).marks[e] == MarkOf(NewMm().pt[e]);
  }

  lemma LoadSwap(w: World, n: nat, pid: nat, m: Mm)
    requires SwapInv(w, n) && pid !in w.mms && forall e: nat :: FrameAt(SlotTable(m), e) == None
    ensures SwapInv(Update(w, pid, m, w.ram, w.swp), n)
  {
    assert SlotTablesOf(Update(w, pid, m, w.ram, w.swp)) == SlotTablesOf(w)[pid := SlotTable(m)];
    LoadOwn(SlotTablesOf(w), w.swp.free, n, pid, SlotTable(m));
  }

  /** Growth maps pages that were never anywhere. */
  lemma AllocSlots(mm: Mm, ram: Phy, rgid: nat, size: nat)
    requires mm.Wf() && rgid < SYMBOLS && PageInv(TableOf(mm)) && (Fits(mm, size) || Top(mm) + Pages(size) <= TABLE)
    ensures SlotsOf(Alloc(mm, ram, rgid, size).1.pt) == SlotsOf(mm.pt)
  {
    if !Fits(mm, size) {
      GrowthIsPositive(mm, size);
      GrowSlots(mm, ram, size);
    }
  }

  lemma GrowSlots(mm: Mm, ram: Phy, size: nat)
    requires mm.Wf() && PageInv(TableOf(mm)) && size > 0 && Top(mm) + Pages(size) <= TABLE
    ensures SlotsOf(Grow(mm, ram, size).0.pt) == SlotsOf(mm.pt)
  {
    forall e | Top(mm) <= e < Top(mm) + Pages(size)
      ensures SlotsOf(mm.pt)[e] == Mark(false, false, 0)
    {
      NothingAbove(TableOf(mm), e);
      AbsentSlot(mm, e);
    }
    if |ram.free| >= Pages(size) {
      MapPagesSlots(mm.(sbrk := mm.sbrk + AlignUp(size)), Top(mm), ram.free[..Pages(size)]);
    }
  }

  /** A read, or what a write does before it stores. */
  lemma ReadSwap(w: World, w': World, n: nat, k: nat, pid: nat, rgid: nat, offset: nat)
    requires Inv(w, n) && SwapInv(w, k) && pid in w.mms && rgid != SYMBOLS
    requires w'.mms == w.mms[pid := Read(w.mms[pid], w.ram, w.swp, rgid, offset).1.mm]
    requires w'.swp == Read(w.mms[pid], w.ram, w.swp, rgid, offset).1.swp
    ensures SwapInv(w', k)
  {
    var mm := w.mms[pid];
    ReadExactly(mm, w.ram, w.swp, rgid, offset);
    if InVariable(mm, rgid, offset) {
      PageOf(mm, rgid, offset);
      FetchSwap(w, w', n, k, pid, AddressIn(mm, rgid, offset) / PAGE);
    } else {
      SameSwap(w, w', k, pid);
    }
  }

  lemma FetchSwap(w: World, w': World, n: nat, k: nat, pid: nat, pgn: nat)
    requires Inv(w, n) && SwapInv(w, k) && pid in w.mms && pgn < Top(w.mms[pid])
    requires w'.mms == w.mms[pid := GetPage(w.mms[pid], w.ram, w.swp, pgn).mm]
    requires w'.swp == GetPage(w.mms[pid], w.ram, w.swp, pgn).swp
    ensures SwapInv(w', k)
  {
    var mm := w.mms[pid];
    Single(w, n, pid);
    SlotAt(w, k, pid);
    if Evicts(mm, w.ram, w.swp, pgn) {
      EvictionSlots(mm, w.ram, w.swp, pgn);
      EvictedSwap(w, w', k, pid, mm.fifo[|mm.fifo| - 1]);
    } else {
      StaysSlots(mm, w.ram, w.swp, pgn);
      SameSwap(w, w', k, pid);
    }
  }

  lemma StepSwap(w: World, n: nat, k: nat, op: Op)
    requires Inv(w, n) && SwapInv(w, k) && Legal(w, op)
    ensures SwapInv(Do(w, op), k)
  {
    match op
    case Load(pid) =>
      NewSlots();
      LoadSwap(w, k, pid, NewMm());
    case Exec(pid, inst) => ExecSwap(w, n, k, pid, inst);
  }

  lemma ExecSwap(w: World, n: nat, k: nat, pid: nat, inst: I.Inst)
    requires Inv(w, n) && SwapInv(w, k) && Legal(w, Exec(pid, inst))
    ensures SwapInv(Do(w, Exec(pid, inst)), k)
  {
    var w' := Do(w, Exec(pid, inst));
    Single(w, n, pid);
    match inst
    case Calc =>
    case Alloc(size, rgid) =>
      AllocSlots(w.mms[pid], w.ram, rgid, size);
      SameSwap(w, w', k, pid);
    case Free(rgid) => SameSwap(w, w', k, pid);
    case Read(rgid, offset, _) => ReadSwap(w, w', n, k, pid, rgid, offset);
    case Write(data, rgid, offset) =>
      WriteIs(w.mms[pid], w.ram, w.swp, rgid, offset, data);
      ReadSwap(w, w', n, k, pid, rgid, offset);
  }

  lemma BootSwap(ramSize: nat, swpSize: nat)
    requires swpSize / PAGE <= MAX_SWAP
    ensures SwapInv(Boot(ramSize, swpSize), swpSize / PAGE)
  {
  }

  lemma {:induction false} RunSwap(ws: seq<World>, ops: seq<Op>, ramSize: nat, swpSize: nat, i: nat)
    requires IsRun(ws, ops, ramSize, swpSize) && ramSize / PAGE <= MAX_FRAMES && swpSize / PAGE <= MAX_SWAP && i < |ws|
    ensures SwapInv(ws[i], swpSize / PAGE)
  {
    if i == 0 {
      BootSwap(ramSize, swpSize);
    } else {
      RunSwap(ws, ops, ramSize, swpSize, i - 1);
      RunInv(ws, ops, ramSize, swpSize, i - 1);
      StepSwap(ws[i - 1], ramSize / PAGE, swpSize / PAGE, ops[i - 1]);
    }
  }

  // ---- Theorems ----

  /** Page e of process p has been evicted. */
  predicate OnSwap(w: World, p: nat, e: nat)
    requires p in w.mms && w.mms[p].Wf() && e < TABLE
  {
    Swapped(Entry(w.mms[p].pt[e]))
  }

  /**
   * In every run no two evicted pages, of one process or of two, have the same swap frame; none of their frames is
   * free; all exist; and no swap frame is free twice.
   */
  lemma SwapOwnership(ws: seq<World>, ops: seq<Op>, ramSize: nat, swpSize: nat, i: nat, p: nat, a: nat, q: nat, b: nat)
    requires IsRun(ws, ops, ramSize, swpSize) && ramSize / PAGE <= MAX_FRAMES && swpSize / PAGE <= MAX_SWAP && i < |ws|
    requires p in ws[i].mms && q in ws[i].mms && ws[i].mms[p].Wf() && ws[i].mms[q].Wf() && a < TABLE && b < TABLE
    requires OnSwap(ws[i], p, a)
    ensures OnSwap(ws[i], q, b) && Swp(ws[i].mms[q].pt[b]) == Swp(ws[i].mms[p].pt[a]) ==> p == q && a == b
    ensures Swp(ws[i].mms[p].pt[a]) !in ws[i].swp.free && Swp(ws[i].mms[p].pt[a]) < swpSize / PAGE
    ensures NoDup(ws[i].swp.free)
  {
    RunSwap(ws, ops, ramSize, swpSize, i);
    var w, n := ws[i], swpSize / PAGE;
    SlotAt(w, n, p);
    SlotAt(w, n, q);
    var t, u, o := SlotTable(w.mms[p]), SlotTable(w.mms[q]), Swp(w.mms[p].pt[a]);
    HoldsAt(t, a, o);
    if OnSwap(w, q, b) && Swp(w.mms[q].pt[b]) == o {
      HoldsAt(u, b, o);
      assert SlotTablesOf(w)[p] == t && SlotTablesOf(w)[q] == u;
      assert p != q ==> Apart(t, u);
    }
  }

  /** The byte i of a device after a page has been copied to its frame `to` from another's frame `from`. */
  lemma {:induction false} CopyAt(src: seq<bv8>, from: nat, dst: seq<bv8>, to: nat, k: nat, i: nat)
    requires k <= 256 && i < |dst|
    ensures SwapCopy(src, from, dst, to, k)[i]
         == if to * 256 + k <= i < to * 256 + 256 && from * 256 + (i - to * 256) < |src| then
              src[from * 256 + (i - to * 256)]
            else dst[i]
    decreases 256 - k
  {
    if k < 256 {
      var x, y := from * CELLS + k, to * CELLS + k;
      CopyAt(src, from, if x < |src| && y < |dst| then dst[y := src[x]] else dst, to, k + 1, i);
    }
  }

  /** The page-table entry of page v notes swap frame s; as far as swap goes the other entries are as they were. */
  predicate Notes(pt: seq<bv64>, pt': seq<bv64>, v: nat, s: nat) {
    && v < |pt| == |pt'| && Swapped(Entry(pt'[v])) && Swp(pt'[v]) == s
    && forall e :: 0 <= e < |pt| && e != v ==> SlotOf(pt'[e]) == SlotOf(pt[e])
  }

  lemma SlotsNote(pt: seq<bv64>, pt': seq<bv64>, v: nat, s: nat)
    requires v < |pt| == |pt'| && SlotsOf(pt') == SlotsOf(pt)[v := Mark(true, false, s)]
    ensures Notes(pt, pt', v, s)
  {
    assert SlotsOf(pt')[v] == SlotOf(pt'[v]);
    forall e | 0 <= e < |pt| && e != v
      ensures SlotOf(pt'[e]) == SlotOf(pt[e])
    {
      assert SlotsOf(pt')[e] == SlotsOf(pt)[e];
    }
  }

  /** Frame s of a device holds the 256 bytes of frame f of another; the rest is as it was. */
  predicate CopyOf(src: seq<bv8>, f: nat, dst: seq<bv8>, dst': seq<bv8>, s: nat) {
    && |dst'| == |dst| && f * 256 + 256 <= |src|
    && forall i :: 0 <= i < |dst| ==>
         dst'[i] == if s * 256 <= i < s * 256 + 256 then src[f * 256 + (i - s * 256)] else dst[i]
  }

  lemma CopiesAll(src: seq<bv8>, f: nat, dst: seq<bv8>, s: nat)
    requires f * 256 + 256 <= |src|
    ensures CopyOf(src, f, dst, SwapCopy(src, f, dst, s, 0), s)
  {
    forall i | 0 <= i < |dst|
      ensures SwapCopy(src, f, dst, s, 0)[i]
           == if s * 256 <= i < s * 256 + 256 then src[f * 256 + (i - s * 256)] else dst[i]
    {
      CopyAt(src, f, dst, s, 0, i);
    }
  }

  /** A page in the FIFO has its 256 bytes inside RAM. */
  lemma VictimInside(mm: Mm, pool: seq<nat>, n: nat)
    requires mm.Wf() && PageInv(TableOf(mm)) && Clear(TableOf(mm), pool, n) && mm.fifo != []
    ensures mm.fifo[|mm.fifo| - 1] < TABLE && FrameOf(mm, mm.fifo[|mm.fifo| - 1]) < n
  {
    var t, v := TableOf(mm), mm.fifo[|mm.fifo| - 1];
    InFifo(t, |mm.fifo| - 1);
    MarkIs(mm, v);
    HoldsAt(t, v, t.marks[v].frame);
  }

  /** The oldest page is in the first free swap frame, and that frame is no longer free. */
  predicate HeadGone(mm: Mm, ram: Phy, swp: Phy, g: Fetched)
    requires mm.Wf() && mm.fifo != [] && swp.free != []
  {
    var v, s := mm.fifo[|mm.fifo| - 1], swp.free[0];
    && Notes(mm.pt, g.mm.pt, v, s) && g.swp.free == swp.free[1..]
    && CopyOf(ram.bytes, FrameOf(mm, v), swp.bytes, g.swp.bytes, s)
  }

  lemma HeadTaken(mm: Mm, ram: Phy, swp: Phy, pgn: nat, g: Fetched)
    requires mm.Wf() && PageInv(TableOf(mm)) && pgn < TABLE && Evicts(mm, ram, swp, pgn) && swp.free[0] < MAX_SWAP
    requires FrameOf(mm, mm.fifo[|mm.fifo| - 1]) * 256 + 256 <= |ram.bytes| && g == GetPage(mm, ram, swp, pgn)
    ensures HeadGone(mm, ram, swp, g)
  {
    var v := mm.fifo[|mm.fifo| - 1];
    EvictionSlots(mm, ram, swp, pgn);
    SlotsNote(mm.pt, g.mm.pt, v, swp.free[0]);
    CopiesAll(ram.bytes, FrameOf(mm, v), swp.bytes, swp.free[0]);
  }

  /**
   * An access that finds its page absent and no frame free sends the oldest page to the first free swap frame: that
   * frame leaves the list and is noted in the page's entry, the other entries keep theirs, and its 256 bytes become
   * those at the page's frame of RAM.
   */
  lemma EvictionTakesHead(w: World, n: nat, k: nat, pid: nat, pgn: nat)
    requires Inv(w, n) && SwapInv(w, k) && pid in w.mms && pgn < Top(w.mms[pid]) && w.mms[pid].Wf() && pgn < TABLE
    requires !Present(Entry(w.mms[pid].pt[pgn])) && w.ram.free == [] && w.mms[pid].fifo != [] && w.swp.free != []
    ensures HeadGone(w.mms[pid], w.ram, w.swp, GetPage(w.mms[pid], w.ram, w.swp, pgn))
  {
    var mm := w.mms[pid];
    Single(w, n, pid);
    SlotAt(w, k, pid);
    VictimInside(mm, w.ram.free, n);
    MarkIs(mm, pgn);
    HeadTaken(mm, w.ram, w.swp, pgn, GetPage(mm, w.ram, w.swp, pgn));
  }

  /** Any other access leaves the swap device and what the entries say of it alone; a full device gives no frame. */
  lemma OthersLeaveSwap(w: World, n: nat, pid: nat, pgn: nat)
    requires Inv(w, n) && pid in w.mms && pgn < Top(w.mms[pid]) && w.mms[pid].Wf() && pgn < TABLE
    requires Present(Entry(w.mms[pid].pt[pgn])) || w.ram.free != [] || w.mms[pid].fifo == [] || w.swp.free == []
    ensures var mm := w.mms[pid];
            var g := GetPage(mm, w.ram, w.swp, pgn);
            && g.swp == w.swp && SlotsOf(g.mm.pt) == SlotsOf(mm.pt)
            && (!Present(Entry(mm.pt[pgn])) && w.ram.free == [] ==> g.frame == None)
  {
    Single(w, n, pid);
    MarkIs(w.mms[pid], pgn);
    StaysSlots(w.mms[pid], w.ram, w.swp, pgn);
  }

  /**
   * What the code for bringing a page back would do, were it reached: copy from RAM to the swap device, not the other
   * way, with the page's swap frame as the source, and put that frame at the head of the free list.
   */
  lemma WouldBringBack(mm: Mm, ram: Phy, swp: Phy, pgn: nat)
    requires mm.Wf() && pgn < TABLE && !Present(Entry(mm.pt[pgn])) && Swapped(Entry(mm.pt[pgn])) && ram.free != []
    ensures var g := GetPage(mm, ram, swp, pgn);
            && g.swp.free == [Swp(mm.pt[pgn])] + swp.free
            && (Swp(mm.pt[pgn]) * 256 + 256 <= |ram.bytes| ==>
                  CopyOf(ram.bytes, Swp(mm.pt[pgn]), swp.bytes, g.swp.bytes, ram.free[0]))
  {
    if Swp(mm.pt[pgn]) * 256 + 256 <= |ram.bytes| {
      CopiesAll(ram.bytes, Swp(mm.pt[pgn]), swp.bytes, ram.free[0]);
    }
  }
}
