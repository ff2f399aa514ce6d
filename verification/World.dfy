/** All processes' memories over one RAM and one swap device; every operation runs alone, under mmvm_lock. */
module Worlds {
  import opened Common
  import opened Memory
  import opened Regions
  import opened Tables
  import opened Paging
  import opened Frames
  import I = Instructions

  datatype World = World(mms: map<nat, Mm>, ram: Phy, swp: Phy)

  /** The loader gives a process its memory; a process executes an instruction. */
  datatype Op = Load(pid: nat) | Exec(pid: nat, inst: I.Inst)

  function Boot(ramSize: nat, swpSize: nat): World {
    World(map[], NewPhy(ramSize), NewPhy(swpSize))
  }

  /**
   * What the operations may be asked: a pid is loaded once and before it runs, variables are 0 to 29, registers
   * 0 to 9, and a heap grows to 512 pages at most. (Freeing, reading or writing a variable from 31 on is allowed,
   * and refused.)
   */
  predicate Legal(w: World, op: Op) {
    match op
    case Load(pid) => pid !in w.mms
    case Exec(pid, inst) =>
      && pid in w.mms && w.mms[pid].Wf()
      && match inst
         case Calc => true
         case Alloc(size, rgid) => rgid < SYMBOLS && (Fits(w.mms[pid], size) || Top(w.mms[pid]) + Pages(size) <= TABLE)
         case Free(rgid) => rgid != SYMBOLS
         case Read(rgid, _, dest) => rgid != SYMBOLS && dest < I.REGISTERS
         case Write(_, rgid, _) => rgid != SYMBOLS
  }

  function Update(w: World, pid: nat, m: Mm, ram: Phy, swp: Phy): World {
    World(w.mms[pid := m], ram, swp)
  }

  function Do(w: World, op: Op): World
    requires Legal(w, op)
  {
    match op
    case Load(pid) => Update(w, pid, NewMm(), w.ram, w.swp)
    case Exec(pid, inst) =>
      var mm := w.mms[pid];
      match inst
      case Calc => w
      case Alloc(size, rgid) =>
        var (_, m, ram) := Alloc(mm, w.ram, rgid, size);
        Update(w, pid, m, ram, w.swp)
      case Free(rgid) => Update(w, pid, Free(mm, rgid).1, w.ram, w.swp)
      case Read(rgid, offset, _) =>
        var g := Read(mm, w.ram, w.swp, rgid, offset).1;
        Update(w, pid, g.mm, g.ram, g.swp)
      case Write(data, rgid, offset) =>
        var g := Write(mm, w.ram, w.swp, rgid, offset, data).1;
        Update(w, pid, g.mm, g.ram, g.swp)
  }

  ghost predicate IsRun(ws: seq<World>, ops: seq<Op>, ramSize: nat, swpSize: nat) {
    && |ws| == |ops| + 1 && ws[0] == Boot(ramSize, swpSize)
    && forall i :: 0 <= i < |ops| ==> Legal(ws[i], ops[i]) && ws[i + 1] == Do(ws[i], ops[i])
  }

  function TablesOf(w: World): map<nat, Table> {
    map p | p in w.mms :: TableOf(w.mms[p])
  }

  lemma TablesUpdate(w: World, pid: nat, m: Mm, ram: Phy, swp: Phy)
    ensures TablesOf(Update(w, pid, m, ram, swp)) == TablesOf(w)[pid := TableOf(m)]
  {
  }

  // ---- The invariant ----

  ghost predicate MmInv(mm: Mm) {
    RegionInv(mm) && PageInv(TableOf(mm))
  }

  /** n frames of RAM; every process's regions and pages are in order, and the frames have one owner each. */
  ghost predicate Inv(w: World, n: nat) {
    && n <= MAX_FRAMES && n * PAGE <= |w.ram.bytes|
    && (forall p :: p in w.mms ==> MmInv(w.mms[p]))
    && Own(TablesOf(w), w.ram.free, n)
  }

  lemma OwnSmall(ts: map<nat, Table>, pool: seq<nat>, n: nat)
    requires Own(ts, pool, n) && n <= MAX_FRAMES
    ensures Small(pool)
  {
  }

  lemma UpdateInv(w: World, n: nat, pid: nat, m: Mm, ram: Phy, swp: Phy)
    requires Inv(w, n) && pid in w.mms && MmInv(m) && |ram.bytes| == |w.ram.bytes|
    requires Takes(TableOf(w.mms[pid]), TableOf(m), w.ram.free, ram.free)
    ensures Inv(Update(w, pid, m, ram, swp), n)
  {
    TablesUpdate(w, pid, m, ram, swp);
    TakesOwn(TablesOf(w), w.ram.free, n, pid, TableOf(m), ram.free);
  }

  /** What the invariant gives about one process. */
  lemma Single(w: World, n: nat, pid: nat)
    requires Inv(w, n) && pid in w.mms
    ensures var t := TableOf(w.mms[pid]);
            && MmInv(w.mms[pid]) && Distinct(t) && Clear(t, w.ram.free, n) && NoDup(w.ram.free) && Small(w.ram.free)
  {
    OwnSmall(TablesOf(w), w.ram.free, n);
    assert TablesOf(w)[pid] == TableOf(w.mms[pid]);
  }

  lemma BootInv(ramSize: nat, swpSize: nat)
    requires ramSize / PAGE <= MAX_FRAMES
    ensures Inv(Boot(ramSize, swpSize), ramSize / PAGE)
  {
  }

  /** A process that has just been loaded. */
  ghost predicate Blank(mm: Mm) {
    MmInv(mm) && forall e: nat :: FrameAt(TableOf(mm), e) == None
  }

  lemma NewHolds()
    ensures MmInv(NewMm())
  {
    Regions.NewInv();
    NewTable();
  }

  lemma NewFrames()
    ensures forall e: nat :: FrameAt(TableOf(NewMm()), e) == None
  {
    NewTable();
  }

  lemma NewIsBlank()
    ensures Blank(NewMm())
  {
    NewHolds();
    NewFrames();
  }

  lemma AddInv(w: World, n: nat, pid: nat, m: Mm)
    requires Inv(w, n) && pid !in w.mms && Blank(m)
    ensures Inv(Update(w, pid, m, w.ram, w.swp), n)
  {
    TablesUpdate(w, pid, m, w.ram, w.swp);
    LoadOwn(TablesOf(w), w.ram.free, n, pid, TableOf(m));
  }

  lemma LoadInv(w: World, n: nat, pid: nat)
    requires Inv(w, n) && pid !in w.mms
    ensures Inv(Update(w, pid, NewMm(), w.ram, w.swp), n)
  {
    NewIsBlank();
    AddInv(w, n, pid, NewMm());
  }

  lemma AllocInv(w: World, n: nat, pid: nat, rgid: nat, size: nat)
    requires Inv(w, n) && Legal(w, Exec(pid, I.Alloc(size, rgid)))
    ensures Inv(Do(w, Exec(pid, I.Alloc(size, rgid))), n)
  {
    var mm := w.mms[pid];
    Single(w, n, pid);
    Regions.AllocInv(mm, w.ram, rgid, size);
    AllocTable(mm, w.ram, rgid, size);
    var (_, m, ram) := Alloc(mm, w.ram, rgid, size);
    AllocatedTakes(TableOf(mm), w.ram.free, n, Fits(mm, size), Pages(size));
    UpdateInv(w, n, pid, m, ram, w.swp);
  }

  lemma AllocatedTakes(t: Table, pool: seq<nat>, n: nat, fits: bool, k: nat)
    requires PageInv(t) && Distinct(t) && Clear(t, pool, n) && NoDup(pool) && (fits || t.top + k <= |t.marks|)
    ensures var (t', pool') := Allocated(t, pool, fits, k); PageInv(t') && Takes(t, t', pool, pool')
  {
    if fits {
      SameFrames(t, t, pool);
    } else {
      GrownInv(t, pool, k);
      GrownTakes(t, pool, k);
    }
  }

  lemma FreeInv(w: World, n: nat, pid: nat, rgid: nat)
    requires Inv(w, n) && Legal(w, Exec(pid, I.Free(rgid)))
    ensures Inv(Do(w, Exec(pid, I.Free(rgid))), n)
  {
    Single(w, n, pid);
    Regions.FreeInv(w.mms[pid], rgid);
    FreeTable(w.mms[pid], rgid);
    SameFrames(TableOf(w.mms[pid]), TableOf(Free(w.mms[pid], rgid).1), w.ram.free);
    UpdateInv(w, n, pid, Free(w.mms[pid], rgid).1, w.ram, w.swp);
  }

  // ---- Accesses ----

  /** The page an access goes to lies below sbrk. */
  lemma PageOf(mm: Mm, rgid: int, offset: nat)
    requires RegionInv(mm) && rgid != SYMBOLS && Resolve(mm, rgid, offset).Some?
    ensures Resolve(mm, rgid, offset).value / PAGE < Top(mm)
  {
    ResolvesBelow(mm, rgid, offset);
  }

  lemma SameRegions(mm: Mm, m: Mm)
    requires RegionInv(mm) && m.Wf() && m.sym == mm.sym && m.free == mm.free && m.sbrk == mm.sbrk && m.lost == mm.lost
    ensures RegionInv(m)
  {
  }

  lemma FaultInv(w: World, n: nat, pid: nat, pgn: nat, g: Fetched)
    requires Inv(w, n) && pid in w.mms && pgn < Top(w.mms[pid])
    requires g == GetPage(w.mms[pid], w.ram, w.swp, pgn)
    ensures MmInv(g.mm) && Takes(TableOf(w.mms[pid]), TableOf(g.mm), w.ram.free, g.ram.free)
    ensures g.ram.bytes == w.ram.bytes
  {
    var mm := w.mms[pid];
    Single(w, n, pid);
    GetPageRegions(mm, w.ram, w.swp, pgn);
    SameRegions(mm, g.mm);
    var field := GetPageTable(mm, w.ram, w.swp, pgn);
    AccessedInv(TableOf(mm), w.ram.free, w.swp.free, pgn, field);
    AccessTakes(TableOf(mm), w.ram.free, w.swp.free, pgn, field);
  }

  lemma StayInv(w: World, n: nat, pid: nat)
    requires Inv(w, n) && pid in w.mms
    ensures Inv(Update(w, pid, w.mms[pid], w.ram, w.swp), n)
  {
    Single(w, n, pid);
    SameFrames(TableOf(w.mms[pid]), TableOf(w.mms[pid]), w.ram.free);
    UpdateInv(w, n, pid, w.mms[pid], w.ram, w.swp);
  }

  lemma ReadInv(w: World, n: nat, pid: nat, rgid: nat, offset: nat, dest: nat)
    requires Inv(w, n) && Legal(w, Exec(pid, I.Read(rgid, offset, dest)))
    ensures Inv(Do(w, Exec(pid, I.Read(rgid, offset, dest))), n)
  {
    var mm := w.mms[pid];
    if Resolve(mm, rgid, offset).None? {
      StayInv(w, n, pid);
    } else {
      PageOf(mm, rgid, offset);
      var g := GetPage(mm, w.ram, w.swp, Resolve(mm, rgid, offset).value / PAGE);
      FaultInv(w, n, pid, Resolve(mm, rgid, offset).value / PAGE, g);
      UpdateInv(w, n, pid, g.mm, g.ram, g.swp);
    }
  }

  /** A write gets the page in as a read does, and then at most stores one byte. */
  lemma WriteIs(mm: Mm, ram: Phy, swp: Phy, rgid: nat, offset: nat, b: bv8)
    requires mm.Wf() && rgid != SYMBOLS
    ensures var g := Write(mm, ram, swp, rgid, offset, b).1;
            var g0 := Read(mm, ram, swp, rgid, offset).1;
            g.mm == g0.mm && g.swp == g0.swp && g.ram.free == g0.ram.free && |g.ram.bytes| == |g0.ram.bytes|
  {
  }

  lemma WriteInv(w: World, n: nat, pid: nat, data: bv8, rgid: nat, offset: nat)
    requires Inv(w, n) && Legal(w, Exec(pid, I.Write(data, rgid, offset)))
    ensures Inv(Do(w, Exec(pid, I.Write(data, rgid, offset))), n)
  {
    ReadInv(w, n, pid, rgid, offset, 0);
    WriteIs(w.mms[pid], w.ram, w.swp, rgid, offset, data);
    var w0, w' := Do(w, Exec(pid, I.Read(rgid, offset, 0))), Do(w, Exec(pid, I.Write(data, rgid, offset)));
    BytesInv(w0, w', n);
  }

  lemma BytesInv(w: World, w': World, n: nat)
    requires Inv(w, n) && w'.mms == w.mms && w'.ram.free == w.ram.free && |w'.ram.bytes| >= n * PAGE
    ensures Inv(w', n)
  {
    assert TablesOf(w') == TablesOf(w);
  }

  lemma StepInv(w: World, n: nat, op: Op)
    requires Inv(w, n) && Legal(w, op)
    ensures Inv(Do(w, op), n)
  {
    match op
    case Load(pid) => LoadInv(w, n, pid);
    case Exec(pid, inst) =>
      match inst
      case Calc =>
      case Alloc(size, rgid) => AllocInv(w, n, pid, rgid, size);
      case Free(rgid) => FreeInv(w, n, pid, rgid);
      case Read(rgid, offset, dest) => ReadInv(w, n, pid, rgid, offset, dest);
      case Write(data, rgid, offset) => WriteInv(w, n, pid, data, rgid, offset);
  }

  lemma {:induction false} RunInv(ws: seq<World>, ops: seq<Op>, ramSize: nat, swpSize: nat, i: nat)
    requires IsRun(ws, ops, ramSize, swpSize) && ramSize / PAGE <= MAX_FRAMES && i < |ws|
    ensures Inv(ws[i], ramSize / PAGE)
  {
    if i == 0 {
      BootInv(ramSize, swpSize);
    } else {
      RunInv(ws, ops, ramSize, swpSize, i - 1);
      StepInv(ws[i - 1], ramSize / PAGE, ops[i - 1]);
    }
  }
}
