/** Private memory: what programs read, in runs where every growth finds its frames. */
module Private {
  import opened Common
  import opened Memory
  import opened Accesses
  import opened Tables
  import opened Paging
  import opened Isolation
  import opened Worlds
  import opened MemTheorems
  import I = Instructions

  /** The byte that an offset of a variable stands for. */
  function KeyOf(w: World, pid: nat, rgid: nat, offset: nat): Option<Key>
    requires pid in w.mms && w.mms[pid].Wf() && rgid != SYMBOLS
  {
    if InVariable(w.mms[pid], rgid, offset) then
      var a := AddressIn(w.mms[pid], rgid, offset);
      Some(Key(pid, a / 4096, a % 256))
    else None
  }

  /** The byte an operation writes, if any. */
  function Target(w: World, op: Op): Option<Key>
    requires Legal(w, op)
  {
    if op.Exec? && op.inst.Write? then KeyOf(w, op.pid, op.inst.rgid, op.inst.offset) else None
  }

  /** The reference memory after an operation. */
  function RefAfter(w: World, op: Op, ref: map<Key, bv8>): map<Key, bv8>
    requires Legal(w, op)
  {
    var k := Target(w, op);
    if k.None? then ref else ref[k.value := op.inst.data]
  }

  ghost predicate IsoInv(w: World, ref: map<Key, bv8>, n: nat) {
    Inv(w, n) && Iso(TablesOf(w), w.ram.free, w.ram.bytes, ref, n)
  }

  lemma IsoBacked(w: World, ref: map<Key, bv8>, n: nat, pid: nat)
    requires IsoInv(w, ref, n) && pid in w.mms
    ensures BackedTable(TableOf(w.mms[pid])) && Agrees(pid, TableOf(w.mms[pid]), w.ram.bytes, ref)
  {
    TableAt(w, pid);
  }

  /** A page that has its frame is found without a fault. */
  lemma Hits(mm: Mm, ram: Phy, swp: Phy, pgn: nat)
    requires mm.Wf() && pgn < TABLE && FrameAt(TableOf(mm), pgn).Some?
    ensures GetPage(mm, ram, swp, pgn) == Fetched(FrameAt(TableOf(mm), pgn), mm, ram, swp)
  {
    GetPageHits(mm, ram, swp, pgn);
  }

  lemma GetPageHits(mm: Mm, ram: Phy, swp: Phy, pgn: nat)
    requires mm.Wf() && pgn < TABLE && TableOf(mm).marks[pgn].present
    ensures GetPage(mm, ram, swp, pgn) == Fetched(Some(TableOf(mm).marks[pgn].frame), mm, ram, swp)
  {
    MarkIs(mm, pgn);
  }

  /** Reading and writing without faults: where in RAM the byte of a key is. */
  lemma KeyCell(w: World, ref: map<Key, bv8>, n: nat, pid: nat, rgid: nat, offset: nat)
    requires IsoInv(w, ref, n) && pid in w.mms && rgid != SYMBOLS && KeyOf(w, pid, rgid, offset).Some?
    ensures var k := KeyOf(w, pid, rgid, offset).value;
            var t := TableOf(w.mms[pid]);
            && k.pid == pid && k.page < t.top && k.cell < CELLS && FrameAt(t, k.page).Some?
            && Cell(FrameAt(t, k.page).value, k.cell) < |w.ram.bytes|
            && w.ram.bytes[Cell(FrameAt(t, k.page).value, k.cell)] == Look(ref, k)
            && GetPage(w.mms[pid], w.ram, w.swp, k.page) == Fetched(FrameAt(t, k.page), w.mms[pid], w.ram, w.swp)
  {
    var k := KeyOf(w, pid, rgid, offset).value;
    PageOf(w.mms[pid], rgid, offset);
    IsoBacked(w, ref, n, pid);
    Hits(w.mms[pid], w.ram, w.swp, k.page);
  }

  lemma ReadHit(mm: Mm, ram: Phy, swp: Phy, rgid: nat, offset: nat, a: nat, f: nat)
    requires mm.Wf() && rgid != SYMBOLS && Resolve(mm, rgid, offset) == Some(a)
    requires GetPage(mm, ram, swp, a / PAGE) == Fetched(Some(f), mm, ram, swp) && Physical(f, a) < |ram.bytes|
    ensures Read(mm, ram, swp, rgid, offset) == (Value(ram.bytes[Physical(f, a)]), Fetched(Some(f), mm, ram, swp))
  {
  }

  lemma WriteHit(mm: Mm, ram: Phy, swp: Phy, rgid: nat, offset: nat, b: bv8, a: nat, f: nat)
    requires mm.Wf() && rgid != SYMBOLS && Resolve(mm, rgid, offset) == Some(a)
    requires GetPage(mm, ram, swp, a / PAGE) == Fetched(Some(f), mm, ram, swp) && Physical(f, a) < |ram.bytes|
    ensures Write(mm, ram, swp, rgid, offset, b)
         == (Done, Fetched(Some(f), mm, ram.(bytes := ram.bytes[Physical(f, a) := b]), swp))
  {
  }

  /**
   * Read your write: a read is refused exactly when the offset is outside the variable, and otherwise gives the
   * reference memory's byte. It changes nothing.
   */
  lemma ReadsReference(w: World, ref: map<Key, bv8>, n: nat, pid: nat, rgid: nat, offset: nat)
    requires IsoInv(w, ref, n) && pid in w.mms && rgid != SYMBOLS
    ensures var k := KeyOf(w, pid, rgid, offset);
            var (r, g) := Read(w.mms[pid], w.ram, w.swp, rgid, offset);
            && r == (if k.None? then Refused else Value(Look(ref, k.value)))
            && g.mm == w.mms[pid] && g.ram == w.ram && g.swp == w.swp
  {
    if KeyOf(w, pid, rgid, offset).Some? {
      KeyCell(w, ref, n, pid, rgid, offset);
      var k := KeyOf(w, pid, rgid, offset).value;
      ReadHit(w.mms[pid], w.ram, w.swp, rgid, offset, Resolve(w.mms[pid], rgid, offset).value,
              FrameAt(TableOf(w.mms[pid]), k.page).value);
    }
  }

  /** A write stores its byte inside RAM, unless it is refused. */
  lemma WritesCell(w: World, ref: map<Key, bv8>, n: nat, pid: nat, rgid: nat, offset: nat, b: bv8)
    requires IsoInv(w, ref, n) && pid in w.mms && rgid != SYMBOLS
    ensures var k := KeyOf(w, pid, rgid, offset);
            var (r, g) := Write(w.mms[pid], w.ram, w.swp, rgid, offset, b);
            && g.mm == w.mms[pid] && g.swp == w.swp && g.ram.free == w.ram.free
            && (k.None? ==> r == WriteRefused && g.ram == w.ram)
            && (k.Some? ==>
                  && r == Done && FrameAt(TableOf(w.mms[pid]), k.value.page).Some?
                  && var c := Cell(FrameAt(TableOf(w.mms[pid]), k.value.page).value, k.value.cell);
                     c < |w.ram.bytes| && g.ram.bytes == w.ram.bytes[c := b])
  {
    if KeyOf(w, pid, rgid, offset).Some? {
      KeyCell(w, ref, n, pid, rgid, offset);
      var k := KeyOf(w, pid, rgid, offset).value;
      WriteHit(w.mms[pid], w.ram, w.swp, rgid, offset, b, Resolve(w.mms[pid], rgid, offset).value,
               FrameAt(TableOf(w.mms[pid]), k.page).value);
    }
  }

  // ---- Every operation follows the reference ----

  lemma LoadStep(w: World, ref: map<Key, bv8>, n: nat, pid: nat)
    requires IsoInv(w, ref, n) && pid !in w.mms
    ensures IsoInv(Update(w, pid, NewMm(), w.ram, w.swp), ref, n)
  {
    LoadInv(w, n, pid);
    NewFrames();
    NewTop();
    TablesUpdate(w, pid, NewMm(), w.ram, w.swp);
    LoadIso(TablesOf(w), w.ram.free, w.ram.bytes, ref, n, pid, TableOf(NewMm()));
  }

  lemma NewTop()
    ensures TableOf(NewMm()).top == 0
  {
    NewTable();
  }

  lemma UpdateIso(w: World, w': World, ref: map<Key, bv8>, n: nat, pid: nat, m: Mm)
    requires Inv(w', n) && w'.mms == w.mms[pid := m]
    requires Iso(TablesOf(w)[pid := TableOf(m)], w'.ram.free, w'.ram.bytes, ref, n)
    ensures IsoInv(w', ref, n)
  {
    TablesFollow(w, w', pid, m);
  }

  lemma TablesFollow(w: World, w': World, pid: nat, m: Mm)
    requires w'.mms == w.mms[pid := m]
    ensures TablesOf(w') == TablesOf(w)[pid := TableOf(m)]
  {
  }

  lemma SameTable(w: World, pid: nat, m: Mm)
    requires pid in w.mms && TableOf(m) == TableOf(w.mms[pid])
    ensures TablesOf(w)[pid := TableOf(m)] == TablesOf(w)
  {
    TableAt(w, pid);
  }

  /** Only the regions of a process change. */
  lemma RegionsIso(w: World, w': World, ref: map<Key, bv8>, n: nat, pid: nat, m: Mm)
    requires IsoInv(w, ref, n) && pid in w.mms && TableOf(m) == TableOf(w.mms[pid])
    requires Inv(w', n) && w'.mms == w.mms[pid := m] && w'.ram == w.ram
    ensures IsoInv(w', ref, n)
  {
    SameTable(w, pid, m);
    UpdateIso(w, w', ref, n, pid, m);
  }

  lemma AllocStep(w: World, ref: map<Key, bv8>, n: nat, pid: nat, size: nat, rgid: nat)
    requires IsoInv(w, ref, n)
    requires Legal(w, Exec(pid, I.Alloc(size, rgid))) && !Starves(w, Exec(pid, I.Alloc(size, rgid)))
    ensures IsoInv(Do(w, Exec(pid, I.Alloc(size, rgid))), ref, n)
  {
    var mm := w.mms[pid];
    Worlds.AllocInv(w, n, pid, rgid, size);
    Single(w, n, pid);
    AllocTable(mm, w.ram, rgid, size);
    var (_, m, ram) := Alloc(mm, w.ram, rgid, size);
    AllocatedIso(w, Do(w, Exec(pid, I.Alloc(size, rgid))), ref, n, pid, Fits(mm, size), Pages(size), m);
  }

  lemma AllocatedIso(w: World, w': World, ref: map<Key, bv8>, n: nat, pid: nat, fits: bool, k: nat, m: Mm)
    requires IsoInv(w, ref, n) && pid in w.mms && w'.ram.bytes == w.ram.bytes
    requires fits || (Top(w.mms[pid]) + k <= TABLE && k <= |w.ram.free|)
    requires PageInv(TableOf(w.mms[pid])) && w.mms[pid].Wf()
    requires (TableOf(m), w'.ram.free) == Allocated(TableOf(w.mms[pid]), w.ram.free, fits, k)
    requires Inv(w', n) && w'.mms == w.mms[pid := m]
    ensures IsoInv(w', ref, n)
  {
    if fits {
      SameTable(w, pid, m);
    } else {
      TableAt(w, pid);
      GrowIso(TablesOf(w), w.ram.free, w.ram.bytes, ref, n, pid, k);
    }
    UpdateIso(w, w', ref, n, pid, m);
  }

  lemma StoreIso(w: World, w': World, ref: map<Key, bv8>, n: nat, k: Key, b: bv8)
    requires IsoInv(w, ref, n) && k.pid in w.mms && k.cell < CELLS
    requires k.page < TableOf(w.mms[k.pid]).top && FrameAt(TableOf(w.mms[k.pid]), k.page).Some?
    requires Cell(FrameAt(TableOf(w.mms[k.pid]), k.page).value, k.cell) < |w.ram.bytes|
    requires w'.ram.free == w.ram.free && w'.mms == w.mms && Inv(w', n)
    requires w'.ram.bytes == w.ram.bytes[Cell(FrameAt(TableOf(w.mms[k.pid]), k.page).value, k.cell) := b]
    ensures IsoInv(w', ref[k := b], n)
  {
    TableAt(w, k.pid);
    WriteIso(TablesOf(w), w.ram.free, w.ram.bytes, ref, n, k.pid, k.page, k.cell, b);
    SameTable(w, k.pid, w.mms[k.pid]);
    assert Key(k.pid, k.page, k.cell) == k;
    UpdateIso(w, w', ref[k := b], n, k.pid, w.mms[k.pid]);
  }

  /** What a write does to the world. */
  lemma WriteDoes(w: World, ref: map<Key, bv8>, n: nat, pid: nat, data: bv8, rgid: nat, offset: nat)
    requires IsoInv(w, ref, n) && pid in w.mms && rgid != SYMBOLS
    ensures Legal(w, Exec(pid, I.Write(data, rgid, offset)))
    ensures var w' := Do(w, Exec(pid, I.Write(data, rgid, offset)));
            var k := KeyOf(w, pid, rgid, offset);
            && w'.mms == w.mms && w'.ram.free == w.ram.free
            && (k.None? ==> w'.ram == w.ram)
            && (k.Some? ==>
                  && k.value.pid == pid && k.value.page < TableOf(w.mms[pid]).top && k.value.cell < CELLS
                  && FrameAt(TableOf(w.mms[pid]), k.value.page).Some?
                  && var c := Cell(FrameAt(TableOf(w.mms[pid]), k.value.page).value, k.value.cell);
                     c < |w.ram.bytes| && w'.ram.bytes == w.ram.bytes[c := data])
  {
    WritesCell(w, ref, n, pid, rgid, offset, data);
    if KeyOf(w, pid, rgid, offset).Some? {
      KeyCell(w, ref, n, pid, rgid, offset);
    }
  }

  lemma WriteStep(w: World, w': World, ref: map<Key, bv8>, n: nat, pid: nat, data: bv8, rgid: nat, offset: nat)
    requires IsoInv(w, ref, n) && Legal(w, Exec(pid, I.Write(data, rgid, offset)))
    requires w' == Do(w, Exec(pid, I.Write(data, rgid, offset)))
    ensures var k := KeyOf(w, pid, rgid, offset); IsoInv(w', if k.None? then ref else ref[k.value := data], n)
  {
    WriteInv(w, n, pid, data, rgid, offset);
    WriteDoes(w, ref, n, pid, data, rgid, offset);
    var k := KeyOf(w, pid, rgid, offset);
    if k.Some? {
      StoreIso(w, w', ref, n, k.value, data);
    } else {
      SameWorldIso(w, w', ref, n);
    }
  }

  lemma SameWorldIso(w: World, w': World, ref: map<Key, bv8>, n: nat)
    requires IsoInv(w, ref, n) && w'.mms == w.mms && w'.ram == w.ram
    ensures IsoInv(w', ref, n)
  {
    assert TablesOf(w') == TablesOf(w);
  }

  lemma FreeStep(w: World, ref: map<Key, bv8>, n: nat, pid: nat, rgid: nat)
    requires IsoInv(w, ref, n) && Legal(w, Exec(pid, I.Free(rgid)))
    ensures IsoInv(Do(w, Exec(pid, I.Free(rgid))), ref, n)
  {
    Worlds.FreeInv(w, n, pid, rgid);
    FreeTable(w.mms[pid], rgid);
    RegionsIso(w, Do(w, Exec(pid, I.Free(rgid))), ref, n, pid, Free(w.mms[pid], rgid).1);
  }

  lemma ReadStep(w: World, ref: map<Key, bv8>, n: nat, pid: nat, rgid: nat, offset: nat, dest: nat)
    requires IsoInv(w, ref, n) && Legal(w, Exec(pid, I.Read(rgid, offset, dest)))
    ensures Do(w, Exec(pid, I.Read(rgid, offset, dest))) == w
  {
    ReadsReference(w, ref, n, pid, rgid, offset);
    assert w.mms[pid := w.mms[pid]] == w.mms;
  }

  lemma StepIso(w: World, ref: map<Key, bv8>, n: nat, op: Op)
    requires IsoInv(w, ref, n) && Legal(w, op) && !Starves(w, op)
    ensures IsoInv(Do(w, op), RefAfter(w, op, ref), n)
  {
    match op
    case Load(pid) => LoadStep(w, ref, n, pid);
    case Exec(pid, inst) =>
      match inst
      case Calc =>
      case Alloc(size, rgid) => AllocStep(w, ref, n, pid, size, rgid);
      case Free(rgid) => FreeStep(w, ref, n, pid, rgid);
      case Read(rgid, offset, dest) => ReadStep(w, ref, n, pid, rgid, offset, dest);
      case Write(data, rgid, offset) => WriteStep(w, Do(w, op), ref, n, pid, data, rgid, offset);
  }

  // ---- Runs ----

  /** Every growth of the run finds enough free frames. */
  ghost predicate Supplied(ws: seq<World>, ops: seq<Op>)
    requires |ws| == |ops| + 1
    requires forall i :: 0 <= i < |ops| ==> Legal(ws[i], ops[i])
  {
    forall i :: 0 <= i < |ops| ==> !Starves(ws[i], ops[i])
  }

  /** The last value the run has written to k before state i; zero if it has not written there. */
  ghost function LastWritten(ws: seq<World>, ops: seq<Op>, i: nat, k: Key): bv8
    requires |ws| == |ops| + 1 && i < |ws|
    requires forall i :: 0 <= i < |ops| ==> Legal(ws[i], ops[i])
  {
    if i == 0 then 0
    else if Target(ws[i - 1], ops[i - 1]) == Some(k) then ops[i - 1].inst.data
    else LastWritten(ws, ops, i - 1, k)
  }

  ghost function RefAt(ws: seq<World>, ops: seq<Op>, i: nat): map<Key, bv8>
    requires |ws| == |ops| + 1 && i < |ws|
    requires forall i :: 0 <= i < |ops| ==> Legal(ws[i], ops[i])
  {
    if i == 0 then map[] else RefAfter(ws[i - 1], ops[i - 1], RefAt(ws, ops, i - 1))
  }

  lemma {:induction false} RefIsLast(ws: seq<World>, ops: seq<Op>, i: nat, k: Key)
    requires |ws| == |ops| + 1 && i < |ws|
    requires forall i :: 0 <= i < |ops| ==> Legal(ws[i], ops[i])
    ensures Look(RefAt(ws, ops, i), k) == LastWritten(ws, ops, i, k)
  {
    if i > 0 {
      RefIsLast(ws, ops, i - 1, k);
    }
  }

  lemma BootIso(ramSize: nat, swpSize: nat)
    requires ramSize / PAGE <= MAX_FRAMES
    ensures IsoInv(Boot(ramSize, swpSize), map[], ramSize / PAGE)
  {
    BootInv(ramSize, swpSize);
  }

  lemma {:induction false} RunIso(ws: seq<World>, ops: seq<Op>, ramSize: nat, swpSize: nat, i: nat)
    requires IsRun(ws, ops, ramSize, swpSize) && ramSize / PAGE <= MAX_FRAMES && Supplied(ws, ops) && i < |ws|
    ensures IsoInv(ws[i], RefAt(ws, ops, i), ramSize / PAGE)
  {
    if i == 0 {
      BootIso(ramSize, swpSize);
    } else {
      RunIso(ws, ops, ramSize, swpSize, i - 1);
      StepIso(ws[i - 1], RefAt(ws, ops, i - 1), ramSize / PAGE, ops[i - 1]);
    }
  }

  /**
   * In a run where every growth finds its frames, a read anywhere inside a variable gives the byte last written, by
   * any instruction of the run, to that byte of that page of that process: other processes, other pages and other
   * bytes of the page have no effect on it. Only an offset outside the variable is refused.
   */
  lemma ReadsLastWrite(ws: seq<World>, ops: seq<Op>, ramSize: nat, swpSize: nat, i: nat,
                       pid: nat, rgid: nat, offset: nat)
    requires IsRun(ws, ops, ramSize, swpSize) && ramSize / PAGE <= MAX_FRAMES && Supplied(ws, ops) && i < |ws|
    requires pid in ws[i].mms && ws[i].mms[pid].Wf() && rgid != SYMBOLS
    ensures var k := KeyOf(ws[i], pid, rgid, offset);
            Read(ws[i].mms[pid], ws[i].ram, ws[i].swp, rgid, offset).0
              == if k.None? then Refused else Value(LastWritten(ws, ops, i, k.value))
  {
    RunIso(ws, ops, ramSize, swpSize, i);
    ReadsReference(ws[i], RefAt(ws, ops, i), ramSize / PAGE, pid, rgid, offset);
    if KeyOf(ws[i], pid, rgid, offset).Some? {
      RefIsLast(ws, ops, i, KeyOf(ws[i], pid, rgid, offset).value);
    }
  }

  /** In such a run a write is either refused, and changes nothing, or hits storage: never is one silently dropped. */
  lemma WritesHitStorage(ws: seq<World>, ops: seq<Op>, ramSize: nat, swpSize: nat, i: nat,
                         pid: nat, rgid: nat, offset: nat, b: bv8)
    requires IsRun(ws, ops, ramSize, swpSize) && ramSize / PAGE <= MAX_FRAMES && Supplied(ws, ops) && i < |ws|
    requires pid in ws[i].mms && ws[i].mms[pid].Wf() && rgid != SYMBOLS
    ensures Write(ws[i].mms[pid], ws[i].ram, ws[i].swp, rgid, offset, b).0
         == if KeyOf(ws[i], pid, rgid, offset).None? then WriteRefused else Done
  {
    RunIso(ws, ops, ramSize, swpSize, i);
    WritesCell(ws[i], RefAt(ws, ops, i), ramSize / PAGE, pid, rgid, offset, b);
  }

  /**
   * Two accesses go to the same byte: both are inside their variables, of one process, and their addresses have the
   * same page number and agree under the offset mask.
   */
  predicate Meet(w: World, p: nat, g: nat, o: nat, q: nat, h: nat, u: nat)
    requires p in w.mms && q in w.mms && w.mms[p].Wf() && w.mms[q].Wf()
  {
    && p == q && InVariable(w.mms[p], g, o) && InVariable(w.mms[q], h, u)
    && AddressIn(w.mms[p], g, o) / 4096 == AddressIn(w.mms[q], h, u) / 4096
    && Kept(AddressIn(w.mms[p], g, o)) == Kept(AddressIn(w.mms[q], h, u))
  }

  lemma MeetKeys(w: World, p: nat, g: nat, o: nat, q: nat, h: nat, u: nat)
    requires p in w.mms && q in w.mms && w.mms[p].Wf() && w.mms[q].Wf() && g != SYMBOLS && h != SYMBOLS
    ensures Meet(w, p, g, o, q, h, u) <==> KeyOf(w, p, g, o).Some? && KeyOf(w, q, h, u) == KeyOf(w, p, g, o)
  {
    if InVariable(w.mms[p], g, o) && InVariable(w.mms[q], h, u) {
      KeptExactly(AddressIn(w.mms[p], g, o), AddressIn(w.mms[q], h, u));
    }
  }

  /** One write changes what a read gives exactly when the two go to the same byte and the value is new. */
  lemma WriteInterferesExactly(w: World, w': World, ref: map<Key, bv8>, n: nat,
                               p: nat, g: nat, o: nat, b: bv8, q: nat, h: nat, u: nat)
    requires IsoInv(w, ref, n) && p in w.mms && q in w.mms && g != SYMBOLS && h != SYMBOLS
    requires w.mms[p].Wf() && w.mms[q].Wf() && w' == Do(w, Exec(p, I.Write(b, g, o)))
    ensures w'.mms == w.mms
    ensures Gets(w, q, h, u) != Gets(w', q, h, u) <==> Meet(w, p, g, o, q, h, u) && Gets(w, q, h, u) != Value(b)
  {
    WriteStep(w, w', ref, n, p, b, g, o);
    WriteDoes(w, ref, n, p, b, g, o);
    var k := KeyOf(w, p, g, o);
    Interferes(w, w', ref, if k.None? then ref else ref[k.value := b], n, k, b, q, h, u);
    MeetKeys(w, p, g, o, q, h, u);
  }

  lemma Interferes(w: World, w': World, ref: map<Key, bv8>, ref': map<Key, bv8>, n: nat, k: Option<Key>, b: bv8,
                   q: nat, h: nat, u: nat)
    requires IsoInv(w, ref, n) && IsoInv(w', ref', n) && q in w.mms && h != SYMBOLS && w'.mms == w.mms
    requires ref' == if k.None? then ref else ref[k.value := b]
    ensures Gets(w, q, h, u) != Gets(w', q, h, u)
       <==> k.Some? && KeyOf(w, q, h, u) == k && Gets(w, q, h, u) != Value(b)
  {
    GetsReference(w, ref, n, q, h, u);
    GetsReference(w', ref', n, q, h, u);
    Differ(ref, ref', k, b, KeyOf(w, q, h, u), Gets(w, q, h, u), Gets(w', q, h, u));
  }

  lemma Differ(ref: map<Key, bv8>, ref': map<Key, bv8>, k: Option<Key>, b: bv8, k2: Option<Key>,
               r: ReadResult, r': ReadResult)
    requires ref' == if k.None? then ref else ref[k.value := b]
    requires r == if k2.None? then Refused else Value(Look(ref, k2.value))
    requires r' == if k2.None? then Refused else Value(Look(ref', k2.value))
    ensures r != r' <==> k.Some? && k2 == k && r != Value(b)
  {
  }

  /** What process q reads at an offset of variable h. */
  function Gets(w: World, q: nat, h: nat, u: nat): ReadResult
    requires q in w.mms && w.mms[q].Wf() && h != SYMBOLS
  {
    Read(w.mms[q], w.ram, w.swp, h, u).0
  }

  lemma GetsReference(w: World, ref: map<Key, bv8>, n: nat, q: nat, h: nat, u: nat)
    requires IsoInv(w, ref, n) && q in w.mms && h != SYMBOLS
    ensures Gets(w, q, h, u) == if KeyOf(w, q, h, u).None? then Refused else Value(Look(ref, KeyOf(w, q, h, u).value))
  {
    ReadsReference(w, ref, n, q, h, u);
  }
}
