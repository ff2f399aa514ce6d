/** What every sequence of memory operations guarantees. */
module MemTheorems {
  import opened Common
  import opened Memory
  import opened Regions
  import opened Tables
  import opened Paging
  import opened Frames
  import opened Isolation
  import opened Worlds
  import I = Instructions

  /** Loading a process touches nothing but its own memory. */
  lemma LoadsOnly(w: World, pid: nat)
    requires pid !in w.mms
    ensures Do(w, Load(pid)) == World(w.mms[pid := NewMm()], w.ram, w.swp)
  {
  }

  // ---- Frames ----

  lemma TableAt(w: World, p: nat)
    requires p in w.mms
    ensures p in TablesOf(w) && TablesOf(w)[p] == TableOf(w.mms[p])
  {
  }

  /**
   * In every run, whatever faults, evictions and failed growths it has: two resident pages never share a frame,
   * a resident page's frame is not free, no frame is free twice, and all frames exist.
   */
  lemma FrameOwnership(ws: seq<World>, ops: seq<Op>, ramSize: nat, swpSize: nat, i: nat, p: nat, a: nat, q: nat, b: nat)
    requires IsRun(ws, ops, ramSize, swpSize) && ramSize / PAGE <= MAX_FRAMES && i < |ws|
    requires p in ws[i].mms && q in ws[i].mms
    requires FrameAt(TableOf(ws[i].mms[p]), a).Some?
    ensures FrameAt(TableOf(ws[i].mms[p]), a) == FrameAt(TableOf(ws[i].mms[q]), b) ==> p == q && a == b
    ensures var f := FrameAt(TableOf(ws[i].mms[p]), a).value; f !in ws[i].ram.free && f < ramSize / PAGE
    ensures NoDup(ws[i].ram.free)
  {
    RunInv(ws, ops, ramSize, swpSize, i);
    TableAt(ws[i], p);
    TableAt(ws[i], q);
    var ts := TablesOf(ws[i]);
    HoldsAt(ts[p], a, FrameAt(ts[p], a).value);
    if FrameAt(ts[p], a) == FrameAt(ts[q], b) {
      HoldsAt(ts[q], b, FrameAt(ts[p], a).value);
      assert p != q ==> Apart(ts[p], ts[q]);
    }
  }

  ghost predicate Located(w: World, f: nat) {
    f in w.ram.free || exists p :: p in w.mms && Holds(TableOf(w.mms[p]), f)
  }

  /** Every one of the n frames is free or behind a resident page. */
  ghost predicate Accounted(w: World, n: nat) {
    forall f: nat :: f < n ==> Located(w, f)
  }

  /** The pages an operation has to grow the heap by. */
  function Growth(w: World, op: Op): Option<nat>
    requires Legal(w, op)
  {
    if op.Exec? && op.inst.Alloc? && !Fits(w.mms[op.pid], op.inst.size) then Some(Pages(op.inst.size)) else None
  }

  /** The operation asks for more pages than there are free frames. */
  predicate Starves(w: World, op: Op)
    requires Legal(w, op)
  {
    Growth(w, op).Some? && |w.ram.free| < Growth(w, op).value
  }

  /** Every page below any process's sbrk has a frame. */
  ghost predicate Backed(w: World) {
    forall p :: p in w.mms ==> BackedTable(TableOf(w.mms[p]))
  }

  /** What an instruction does to the table of the process that executes it. */
  ghost predicate Changes(t: Table, t': Table, pool: seq<nat>, pool': seq<nat>, growth: Option<nat>) {
    && (Kept(t, t', pool, pool') <==> !(growth.Some? && pool != [] && |pool| < growth.value))
    && (BackedTable(t) ==> (BackedTable(t') <==> !(growth.Some? && |pool| < growth.value)))
  }

  lemma SameChanges(t: Table, t': Table, pool: seq<nat>)
    requires t'.marks == t.marks && t'.top == t.top
    ensures Changes(t, t', pool, pool, None)
  {
    SameKept(t, t', pool);
    forall e: nat
      ensures FrameAt(t', e) == FrameAt(t, e)
    {
    }
  }

  lemma GrownChanges(t: Table, pool: seq<nat>, n: nat)
    requires PageInv(t) && t.top + n <= |t.marks| && forall f: nat :: Holds(t, f) ==> f !in pool
    ensures Changes(t, Grown(t, pool, n).0, pool, Grown(t, pool, n).1, Some(n))
  {
    GrownKept(t, pool, n);
    if BackedTable(t) {
      GrownBacked(t, pool, n);
    }
  }

  lemma AccessChanges(t: Table, pool: seq<nat>, swp: seq<nat>, pgn: nat, field: nat)
    requires PageInv(t) && pgn < t.top
    ensures Changes(t, Accessed(t, pool, swp, pgn, field), pool,
                    if FaultOf(t, pool, swp, pgn).TookFree? then pool[1..] else pool, None)
  {
    AccessKept(t, pool, swp, pgn, field);
    if BackedTable(t) {
      assert FrameAt(t, pgn).Some?;
    }
  }

  /** A read of process pid acts on its table as Accessed says, or not at all. */
  lemma ReadChanges(w: World, n: nat, pid: nat, rgid: nat, offset: nat)
    requires Inv(w, n) && pid in w.mms && rgid != SYMBOLS
    ensures var g := Read(w.mms[pid], w.ram, w.swp, rgid, offset).1;
            Changes(TableOf(w.mms[pid]), TableOf(g.mm), w.ram.free, g.ram.free, None)
  {
    var mm := w.mms[pid];
    var a := Resolve(mm, rgid, offset);
    if a.None? {
      SameChanges(TableOf(mm), TableOf(mm), w.ram.free);
    } else {
      PageOf(mm, rgid, offset);
      Single(w, n, pid);
      var field := GetPageTable(mm, w.ram, w.swp, a.value / PAGE);
      AccessChanges(TableOf(mm), w.ram.free, w.swp.free, a.value / PAGE, field);
    }
  }

  lemma AllocChanges(w: World, n: nat, pid: nat, size: nat, rgid: nat)
    requires Inv(w, n) && Legal(w, Exec(pid, I.Alloc(size, rgid)))
    ensures var (_, m, ram) := Alloc(w.mms[pid], w.ram, rgid, size);
            Changes(TableOf(w.mms[pid]), TableOf(m), w.ram.free, ram.free, Growth(w, Exec(pid, I.Alloc(size, rgid))))
  {
    var mm := w.mms[pid];
    Single(w, n, pid);
    AllocTable(mm, w.ram, rgid, size);
    if Fits(mm, size) {
      SameChanges(TableOf(mm), TableOf(mm), w.ram.free);
    } else {
      GrownChanges(TableOf(mm), w.ram.free, Pages(size));
    }
  }

  lemma FreeChanges(mm: Mm, pool: seq<nat>, rgid: nat)
    requires mm.Wf() && rgid != SYMBOLS
    ensures Changes(TableOf(mm), TableOf(Free(mm, rgid).1), pool, pool, None)
  {
    FreeTable(mm, rgid);
    SameChanges(TableOf(mm), TableOf(Free(mm, rgid).1), pool);
  }

  lemma WriteChanges(w: World, n: nat, pid: nat, data: bv8, rgid: nat, offset: nat)
    requires Inv(w, n) && pid in w.mms && rgid != SYMBOLS
    ensures var g := Write(w.mms[pid], w.ram, w.swp, rgid, offset, data).1;
            Changes(TableOf(w.mms[pid]), TableOf(g.mm), w.ram.free, g.ram.free, None)
  {
    ReadChanges(w, n, pid, rgid, offset);
    WriteIs(w.mms[pid], w.ram, w.swp, rgid, offset, data);
  }

  /** The instruction leaves the other processes alone and acts on the table of its own as Changes says. */
  ghost predicate OneChanges(w: World, w': World, pid: nat, growth: Option<nat>)
    requires pid in w.mms
  {
    && w'.mms.Keys == w.mms.Keys && (forall q :: q in w.mms && q != pid ==> w'.mms[q] == w.mms[q])
    && Changes(TableOf(w.mms[pid]), TableOf(w'.mms[pid]), w.ram.free, w'.ram.free, growth)
  }

  lemma UpdateChanges(w: World, pid: nat, m: Mm, ram: Phy, swp: Phy, growth: Option<nat>)
    requires pid in w.mms && Changes(TableOf(w.mms[pid]), TableOf(m), w.ram.free, ram.free, growth)
    ensures OneChanges(w, Update(w, pid, m, ram, swp), pid, growth)
  {
  }

  lemma ExecChanges(w: World, n: nat, pid: nat, inst: I.Inst)
    requires Inv(w, n) && Legal(w, Exec(pid, inst))
    ensures OneChanges(w, Do(w, Exec(pid, inst)), pid, Growth(w, Exec(pid, inst)))
  {
    var mm := w.mms[pid];
    match inst
    case Calc => SameChanges(TableOf(mm), TableOf(mm), w.ram.free);
    case Alloc(size, rgid) =>
      AllocChanges(w, n, pid, size, rgid);
      var (_, m, ram) := Alloc(mm, w.ram, rgid, size);
      UpdateChanges(w, pid, m, ram, w.swp, Growth(w, Exec(pid, inst)));
    case Free(rgid) =>
      FreeChanges(mm, w.ram.free, rgid);
      UpdateChanges(w, pid, Free(mm, rgid).1, w.ram, w.swp, None);
    case Read(rgid, offset, _) =>
      ReadChanges(w, n, pid, rgid, offset);
      var g := Read(mm, w.ram, w.swp, rgid, offset).1;
      UpdateChanges(w, pid, g.mm, g.ram, g.swp, None);
    case Write(data, rgid, offset) =>
      WriteChanges(w, n, pid, data, rgid, offset);
      var g := Write(mm, w.ram, w.swp, rgid, offset, data).1;
      UpdateChanges(w, pid, g.mm, g.ram, g.swp, None);
  }

  /** If one process's step keeps its frames and the free ones, no frame is missing; else one is. */
  lemma KeptAccounted(w: World, w': World, n: nat, pid: nat)
    requires Inv(w, n) && Accounted(w, n) && pid in w.mms
    requires w'.mms.Keys == w.mms.Keys && forall q :: q in w.mms && q != pid ==> w'.mms[q] == w.mms[q]
    ensures Accounted(w', n) <==> Kept(TableOf(w.mms[pid]), TableOf(w'.mms[pid]), w.ram.free, w'.ram.free)
  {
    var t, t' := TableOf(w.mms[pid]), TableOf(w'.mms[pid]);
    if Kept(t, t', w.ram.free, w'.ram.free) {
      forall f: nat | f < n
        ensures Located(w', f)
      {
        StillLocated(w, w', pid, f);
      }
    } else {
      var f: nat :| (Holds(t, f) || f in w.ram.free) && !Holds(t', f) && f !in w'.ram.free;
      NowhereElse(w, n, pid, f);
      Gone(w, w', pid, f);
    }
  }

  lemma Gone(w: World, w': World, pid: nat, f: nat)
    requires pid in w.mms && f !in w'.ram.free
    requires w'.mms.Keys == w.mms.Keys && forall q :: q in w.mms && q != pid ==> w'.mms[q] == w.mms[q]
    requires !Holds(TableOf(w'.mms[pid]), f) && forall q :: q in w.mms && q != pid ==> !Holds(TableOf(w.mms[q]), f)
    ensures !Located(w', f)
  {
    forall p | p in w'.mms
      ensures !Holds(TableOf(w'.mms[p]), f)
    {
    }
  }

  lemma StillLocated(w: World, w': World, pid: nat, f: nat)
    requires Located(w, f) && pid in w.mms
    requires w'.mms.Keys == w.mms.Keys && forall q :: q in w.mms && q != pid ==> w'.mms[q] == w.mms[q]
    requires Kept(TableOf(w.mms[pid]), TableOf(w'.mms[pid]), w.ram.free, w'.ram.free)
    ensures Located(w', f)
  {
    if f !in w.ram.free {
      var p :| p in w.mms && Holds(TableOf(w.mms[p]), f);
      assert p in w'.mms;
    }
  }

  /** A frame of process pid, or a free one, is nobody else's. */
  lemma NowhereElse(w: World, n: nat, pid: nat, f: nat)
    requires Inv(w, n) && pid in w.mms && (Holds(TableOf(w.mms[pid]), f) || f in w.ram.free)
    ensures f < n && forall q :: q in w.mms && q != pid ==> !Holds(TableOf(w.mms[q]), f)
  {
    var ts := TablesOf(w);
    TableAt(w, pid);
    forall q | q in w.mms && q != pid
      ensures !Holds(TableOf(w.mms[q]), f)
    {
      TableAt(w, q);
      assert Apart(ts[pid], ts[q]) && Clear(ts[q], w.ram.free, n);
    }
    assert Clear(ts[pid], w.ram.free, n);
  }

  /**
   * Frames are conserved by every operation except a growth that finds some free frames, but too few: that one
   * loses them. So without such growths the frames are always split between the free list and the resident pages.
   */
  lemma FramesConserved(w: World, n: nat, op: Op)
    requires Inv(w, n) && Accounted(w, n) && Legal(w, op)
    ensures Accounted(Do(w, op), n) <==> !(Starves(w, op) && w.ram.free != [])
  {
    match op
    case Load(pid) =>
      forall f: nat | f < n
        ensures Located(Do(w, op), f)
      {
        LoadLocates(w, pid, NewMm(), f);
      }
    case Exec(pid, inst) =>
      ExecChanges(w, n, pid, inst);
      KeptAccounted(w, Do(w, op), n, pid);
  }

  lemma LoadLocates(w: World, pid: nat, m: Mm, f: nat)
    requires Located(w, f) && pid !in w.mms
    ensures Located(Update(w, pid, m, w.ram, w.swp), f)
  {
    if f !in w.ram.free {
      var p :| p in w.mms && Holds(TableOf(w.mms[p]), f);
      assert p in Update(w, pid, m, w.ram, w.swp).mms;
    }
  }

  /** All heaps stay backed by frames exactly as long as every growth finds enough of them. */
  lemma BackedExactly(w: World, n: nat, op: Op)
    requires Inv(w, n) && Backed(w) && Legal(w, op)
    ensures Backed(Do(w, op)) <==> !Starves(w, op)
  {
    match op
    case Load(pid) => LoadBacked(w, pid, NewMm());
    case Exec(pid, inst) =>
      ExecChanges(w, n, pid, inst);
      OneBacked(w, Do(w, op), pid, Growth(w, op));
  }

  lemma LoadBacked(w: World, pid: nat, m: Mm)
    requires Backed(w) && m == NewMm()
    ensures Backed(Update(w, pid, m, w.ram, w.swp))
  {
    NewTable();
  }

  lemma OneBacked(w: World, w': World, pid: nat, growth: Option<nat>)
    requires pid in w.mms && Backed(w) && OneChanges(w, w', pid, growth)
    ensures Backed(w') <==> !(growth.Some? && |w.ram.free| < growth.value)
  {
  }

  // ---- Regions ----

  /**
   * In every run, live variables and free regions of a process never overlap, all lie below its sbrk, sbrk is page
   * aligned, and every byte below it is live, free, or accounted for as lost.
   */
  lemma RegionsInRun(ws: seq<World>, ops: seq<Op>, ramSize: nat, swpSize: nat, i: nat, p: nat)
    requires IsRun(ws, ops, ramSize, swpSize) && ramSize / PAGE <= MAX_FRAMES && i < |ws| && p in ws[i].mms
    ensures var mm := ws[i].mms[p];
            Separate(mm) && mm.sbrk % PAGE == 0 && Total(mm.sym) + Total(mm.free) + mm.lost == mm.sbrk
  {
    RunInv(ws, ops, ramSize, swpSize, i);
    RegionsSeparate(ws[i].mms[p]);
  }

  // ---- Replacement ----

  /**
   * In every run fifo_pgn holds distinct resident pages of its own process below sbrk, newest first, and no entry is
   * swapped without being present.
   */
  lemma FifoInRun(ws: seq<World>, ops: seq<Op>, ramSize: nat, swpSize: nat, i: nat, p: nat)
    requires IsRun(ws, ops, ramSize, swpSize) && ramSize / PAGE <= MAX_FRAMES && i < |ws| && p in ws[i].mms
    ensures FifoOk(TableOf(ws[i].mms[p]))
  {
    RunInv(ws, ops, ramSize, swpSize, i);
    TableFifo(TableOf(ws[i].mms[p]));
  }

  ghost predicate FifoOk(t: Table) {
    && |t.fifo| <= |t.mapped|
    && (forall j :: 0 <= j < |t.fifo| ==>
          t.fifo[j] < t.top && FrameAt(t, t.fifo[j]).Some? && t.fifo[j] == t.mapped[|t.mapped| - 1 - j])
    && NoDup(t.fifo)
    && (forall e: nat :: e < |t.marks| && t.marks[e].swapped ==> t.marks[e].present)
  }

  lemma TableFifo(t: Table)
    requires PageInv(t)
    ensures FifoOk(t)
  {
    FifoResident(t);
    forall e: nat | e < |t.marks| && t.marks[e].swapped
      ensures t.marks[e].present
    {
      NeverSwappedIn(t, e);
    }
  }

  /**
   * The page that pg_getpage evicts is the one enlisted earliest among those not yet evicted. It evicts exactly when
   * the wanted page is not present, no frame is free and some page of the process is left; the wanted page then gets
   * the victim's frame, if the swap device has room.
   */
  lemma EvictsOldest(mm: Mm, ram: Phy, swp: Phy, pgn: nat)
    requires mm.Wf() && PageInv(TableOf(mm)) && pgn < Top(mm) && Small(ram.free)
    ensures var g := GetPage(mm, ram, swp, pgn);
            var t := TableOf(mm);
            var evicts := !t.marks[pgn].present && ram.free == [] && mm.fifo != [];
            && (evicts ==> |mm.victims| < |mm.mapped|)
            && g.mm.victims == (if evicts then mm.victims + [mm.mapped[|mm.victims|]] else mm.victims)
            && (evicts && swp.free != [] ==>
                  && FrameAt(TableOf(g.mm), pgn) == FrameAt(t, mm.mapped[|mm.victims|])
                  && FrameAt(t, mm.mapped[|mm.victims|]).Some?)
  {
    var t := TableOf(mm);
    var field := GetPageTable(mm, ram, swp, pgn);
    FifoReplacement(t, ram.free, swp.free, pgn, field);
    FifoResident(t);
    if mm.fifo != [] {
      TakeInv(t);
      Oldest(t);
    }
  }

  lemma Oldest(t: Table)
    requires PageInv(t) && t.fifo != []
    ensures |t.victims| < |t.mapped| && t.mapped[|t.victims|] == t.fifo[|t.fifo| - 1]
    ensures t.mapped[..|t.victims| + 1] == t.victims + [t.mapped[|t.victims|]]
  {
    FifoResident(t);
  }

  /** The copy of an evicted page to swap reads inside RAM: all 256 addresses of any page in a FIFO lie there. */
  lemma EvictsFromRam(ws: seq<World>, ops: seq<Op>, ramSize: nat, swpSize: nat, i: nat, p: nat, j: nat, c: nat)
    requires IsRun(ws, ops, ramSize, swpSize) && ramSize / PAGE <= MAX_FRAMES && i < |ws| && p in ws[i].mms
    requires j < |ws[i].mms[p].fifo| && c < CELLS
    ensures ws[i].mms[p].Wf() && FrameOf(ws[i].mms[p], ws[i].mms[p].fifo[j]) * CELLS + c < |ws[i].ram.bytes|
  {
    RunInv(ws, ops, ramSize, swpSize, i);
    Single(ws[i], ramSize / PAGE, p);
    FifoInside(ws[i].mms[p], ws[i].ram.free, ramSize / PAGE, j);
  }

  lemma FifoInside(mm: Mm, pool: seq<nat>, n: nat, j: nat)
    requires mm.Wf() && PageInv(TableOf(mm)) && Clear(TableOf(mm), pool, n) && j < |mm.fifo|
    ensures FrameOf(mm, mm.fifo[j]) < n
  {
    var t := TableOf(mm);
    InFifo(t, j);
    MarkIs(mm, mm.fifo[j]);
    HoldsAt(t, mm.fifo[j], t.marks[mm.fifo[j]].frame);
  }
}
