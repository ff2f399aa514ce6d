/** Why private memory needs the frames: a run in which one growth finds none lets a process write another's memory. */
module Exhaustion {
  import opened Common
  import opened Ptes
  import opened Memory
  import opened Regions
  import opened Tables
  import opened Paging
  import opened Worlds
  import opened Private
  import I = Instructions

  // ---- Evicted pages ----

  /**
   * A page that has gone to swap frame s is still found present, and an access to it goes to frame
   * 32 * (s % 256) of RAM, not to its bytes.
   */
  lemma EvictedAliases(mm: Mm, ram: Phy, swp: Phy, v: nat, s: nat)
    requires mm.Wf() && v < TABLE
    ensures var m := SwapOut(mm, v, s);
            GetPage(m, ram, swp, v) == Fetched(Some(32 * (s % 256)), m, ram, swp)
  {
    var w := SwapSpells(mm.pt[v], s);
    SwapMarks(mm.pt[v], 0, w);
    EvictedPresent(SwapOut(mm, v, s), ram, swp, v);
  }

  lemma EvictedPresent(m: Mm, ram: Phy, swp: Phy, v: nat)
    requires m.Wf() && v < TABLE && Present(Entry(m.pt[v % TABLE]))
    ensures GetPage(m, ram, swp, v) == Fetched(Some(FrameOf(m, v)), m, ram, swp)
  {
  }

  // ---- A run that runs out of frames ----

  /** A first page for variable 0. */
  lemma FirstAlloc(mm: Mm, ram: Phy)
    requires mm.Wf() && mm.free == [Region(0, 0)] && mm.sbrk == 0 && mm.fifo == [] && ram.free != [] && Small(ram.free)
    ensures !Fits(mm, PAGE) && Pages(PAGE) == 1
    ensures var (_, m, r) := Alloc(mm, ram, 0, PAGE);
            && m.sym == mm.sym[0 := Region(0, PAGE)] && m.free == mm.free && m.sbrk == PAGE && m.fifo == [0]
            && TableOf(m).marks == TableOf(mm).marks[0 := Mark(true, false, ram.free[0])]
            && r == ram.(free := ram.free[1..])
  {
    AllocRegions(mm, ram, 0, PAGE);
    AllocTable(mm, ram, 0, PAGE);
    OnePage(TableOf(mm), ram.free);
  }

  lemma OnePage(t: Table, pool: seq<nat>)
    requires t.top == 0 && 1 <= |t.marks| && pool != []
    ensures var t' := Grown(t, pool, 1).0;
            t'.marks == t.marks[0 := Mark(true, false, pool[0])] && t'.fifo == [0] + t.fifo
  {
    var one := pool[..1];
    assert one[..0] == [] && MapRun(Raise(t, 1), 0, one[..0]) == Raise(t, 1);
  }

  /** A second page, for variable 1, when there are no frames left. */
  lemma SecondAlloc(mm: Mm, ram: Phy)
    requires mm.Wf() && mm.free == [Region(0, 0)] && mm.sbrk == PAGE && ram.free == []
    ensures !Fits(mm, PAGE) && Pages(PAGE) == 1
    ensures var (_, m, r) := Alloc(mm, ram, 1, PAGE);
            m.sym == mm.sym[1 := Region(PAGE, 2 * PAGE)] && m.fifo == mm.fifo && m.pt == mm.pt && r == ram
  {
    AllocRegions(mm, ram, 1, PAGE);
  }

  /** Writing to that page takes the frame of page 0, whose entry then spells frame 0. */
  lemma WriteEvicts(mm: Mm, ram: Phy, swp: Phy, b: bv8)
    requires mm.Wf() && mm.fifo == [0] && mm.sym[1] == Region(PAGE, 2 * PAGE)
    requires TableOf(mm).marks[0] == Mark(true, false, 1) && !TableOf(mm).marks[1].present
    requires ram.free == [] && swp.free != [] && swp.free[0] == 0
    ensures var g := Write(mm, ram, swp, 1, 0, b).1;
            && g.mm.sym == mm.sym && TableOf(g.mm).marks[0] == Mark(true, true, 0)
            && |g.ram.bytes| == |ram.bytes|
  {
    WriteGets(mm, ram, swp, 1, 0, b, PAGE, GetPage(mm, ram, swp, 1));
    EvictsZero(mm, ram, swp);
  }

  lemma WriteGets(mm: Mm, ram: Phy, swp: Phy, rgid: nat, offset: nat, b: bv8, a: nat, g: Fetched)
    requires mm.Wf() && rgid != SYMBOLS && Resolve(mm, rgid, offset) == Some(a) && g == GetPage(mm, ram, swp, a / PAGE)
    ensures var g' := Write(mm, ram, swp, rgid, offset, b).1; g'.mm == g.mm && |g'.ram.bytes| == |g.ram.bytes|
  {
  }

  lemma EvictsZero(mm: Mm, ram: Phy, swp: Phy)
    requires mm.Wf() && mm.fifo == [0] && TableOf(mm).marks[0] == Mark(true, false, 1) && !TableOf(mm).marks[1].present
    requires ram.free == [] && swp.free != [] && swp.free[0] == 0
    ensures var g := GetPage(mm, ram, swp, 1);
            && g.mm.sym == mm.sym && TableOf(g.mm).marks[0] == Mark(true, true, 0) && g.ram == ram
  {
    MarkIs(mm, 0);
    MarkIs(mm, 1);
    var m := SwapOut(TakeVictim(mm), 0, 0);
    MarkSetSwap(mm.pt[0], 0);
    var w := SwapSpells(mm.pt[0], 0);
    MarksUpdate(mm.pt, 0, SetSwap(mm.pt[0], 0, Word(0)));
    MapPageTable(m, 1, 1);
  }

  /** Process 2's write to its page 0 then goes to frame 0. */
  lemma WriteStrays(mm: Mm, ram: Phy, swp: Phy, b: bv8)
    requires mm.Wf() && mm.sym[0] == Region(0, PAGE) && TableOf(mm).marks[0] == Mark(true, true, 0) && |ram.bytes| > 0
    ensures var g := Write(mm, ram, swp, 0, 0, b).1; g.ram.bytes == ram.bytes[0 := b]
  {
    GetPageHits(mm, ram, swp, 0);
  }

  lemma ReadsZero(mm: Mm, ram: Phy, swp: Phy)
    requires mm.Wf() && mm.sym[0] == Region(0, PAGE) && TableOf(mm).marks[0] == Mark(true, false, 0) && |ram.bytes| > 0
    ensures Read(mm, ram, swp, 0, 0).0 == Value(ram.bytes[0])
  {
    GetPageHits(mm, ram, swp, 0);
  }

  /** What the run needs to know of a process that has just been loaded. */
  predicate Untouched(m: Mm) {
    && m.Wf() && m.free == [Region(0, 0)] && m.sbrk == 0 && m.fifo == []
    && !TableOf(m).marks[1].present
  }

  lemma NewUntouched()
    ensures Untouched(NewMm())
  {
    NewTable();
  }

  /** One page, on frame f. */
  predicate OnePaged(m: Mm, f: nat) {
    && m.Wf() && m.free == [Region(0, 0)] && m.sbrk == PAGE && m.fifo == [0] && m.sym[0] == Region(0, PAGE)
    && TableOf(m).marks[0] == Mark(true, false, f) && !TableOf(m).marks[1].present
  }

  predicate Both(w: World) {
    1 in w.mms && 2 in w.mms && w.ram.bytes != [] && w.swp.free != [] && w.swp.free[0] == 0
  }

  lemma Loads(w: World) returns (w': World)
    requires w.mms == map[] && w.ram.bytes != [] && w.swp.free != [] && w.swp.free[0] == 0
    ensures Legal(w, Load(1)) && Legal(Do(w, Load(1)), Load(2)) && w' == Do(Do(w, Load(1)), Load(2))
    ensures Both(w') && Untouched(w'.mms[1]) && Untouched(w'.mms[2]) && w'.ram == w.ram
  {
    NewUntouched();
    w' := Do(Do(w, Load(1)), Load(2));
  }

  lemma FirstPage(w: World, pid: nat)
    requires Both(w) && pid in w.mms && Untouched(w.mms[pid]) && w.ram.free != [] && Small(w.ram.free)
    ensures Legal(w, Exec(pid, I.Alloc(PAGE, 0)))
    ensures var w' := Do(w, Exec(pid, I.Alloc(PAGE, 0)));
            && Both(w') && OnePaged(w'.mms[pid], w.ram.free[0]) && w'.ram.free == w.ram.free[1..]
            && forall q :: q in w.mms && q != pid ==> q in w'.mms && w'.mms[q] == w.mms[q]
  {
    FirstAlloc(w.mms[pid], w.ram);
  }

  lemma Overreach(w: World)
    requires Both(w) && OnePaged(w.mms[1], 0) && OnePaged(w.mms[2], 1) && w.ram.free == []
    ensures Legal(w, Exec(2, I.Alloc(PAGE, 1)))
    ensures var w' := Do(w, Exec(2, I.Alloc(PAGE, 1)));
            && Both(w') && w'.mms[1] == w.mms[1] && w'.ram.free == [] && w'.mms[2].Wf() && w'.mms[2].fifo == [0]
            && w'.mms[2].sym == w.mms[2].sym[1 := Region(PAGE, 2 * PAGE)]
            && TableOf(w'.mms[2]).marks == TableOf(w.mms[2]).marks
  {
    SecondAlloc(w.mms[2], w.ram);
  }

  lemma Eviction(w: World)
    requires Both(w) && w.mms[2].Wf() && w.mms[2].fifo == [0] && w.mms[2].sym[1] == Region(PAGE, 2 * PAGE)
    requires TableOf(w.mms[2]).marks[0] == Mark(true, false, 1)
    requires !TableOf(w.mms[2]).marks[1].present && w.ram.free == []
    ensures Legal(w, Exec(2, I.Write(7, 1, 0)))
    ensures var w' := Do(w, Exec(2, I.Write(7, 1, 0)));
            && 1 in w'.mms && w'.mms[1] == w.mms[1] && 2 in w'.mms && w'.mms[2].Wf() && w'.mms[2].sym == w.mms[2].sym
            && TableOf(w'.mms[2]).marks[0] == Mark(true, true, 0) && |w'.ram.bytes| == |w.ram.bytes|
  {
    WriteEvicts(w.mms[2], w.ram, w.swp, 7);
  }

  lemma Stray(w: World)
    requires 1 in w.mms && 2 in w.mms && w.mms[2].Wf() && w.mms[2].sym[0] == Region(0, PAGE) && |w.ram.bytes| > 0
    requires TableOf(w.mms[2]).marks[0] == Mark(true, true, 0)
    ensures Legal(w, Exec(2, I.Write(9, 0, 0)))
    ensures var w' := Do(w, Exec(2, I.Write(9, 0, 0)));
            1 in w'.mms && w'.mms[1] == w.mms[1] && |w'.ram.bytes| > 0 && w'.ram.bytes[0] == 9
  {
    WriteStrays(w.mms[2], w.ram, w.swp, 9);
  }

  /** From two processes with a page each and no free frame, process 2 changes what process 1 reads. */
  lemma Strays(w: World) returns (w5: World, w6: World, w7: World)
    requires Both(w) && OnePaged(w.mms[1], 0) && OnePaged(w.mms[2], 1) && w.ram.free == []
    ensures Legal(w, Exec(2, I.Alloc(PAGE, 1))) && w5 == Do(w, Exec(2, I.Alloc(PAGE, 1)))
    ensures Legal(w5, Exec(2, I.Write(7, 1, 0))) && w6 == Do(w5, Exec(2, I.Write(7, 1, 0)))
    ensures Legal(w6, Exec(2, I.Write(9, 0, 0))) && w7 == Do(w6, Exec(2, I.Write(9, 0, 0)))
    ensures 1 in w7.mms && w7.mms[1].Wf() && Gets(w7, 1, 0, 0) == Value(9)
  {
    Overreach(w);
    w5 := Do(w, Exec(2, I.Alloc(PAGE, 1)));
    Eviction(w5);
    w6 := Do(w5, Exec(2, I.Write(7, 1, 0)));
    Stray(w6);
    w7 := Do(w6, Exec(2, I.Write(9, 0, 0)));
    ReadsZero(w7.mms[1], w7.ram, w7.swp);
  }

  lemma Boots()
    ensures var w := Boot(2 * PAGE, PAGE);
            w.mms == map[] && w.ram.bytes != [] && w.ram.free == [0, 1] && w.swp.free == [0]
  {
  }

  /** Two processes get the two frames. */
  lemma Fills(w: World) returns (w3: World, w4: World)
    requires Both(w) && Untouched(w.mms[1]) && Untouched(w.mms[2]) && w.ram.free == [0, 1]
    ensures Legal(w, Exec(1, I.Alloc(PAGE, 0))) && w3 == Do(w, Exec(1, I.Alloc(PAGE, 0)))
    ensures Legal(w3, Exec(2, I.Alloc(PAGE, 0))) && w4 == Do(w3, Exec(2, I.Alloc(PAGE, 0)))
    ensures Both(w4) && OnePaged(w4.mms[1], 0) && OnePaged(w4.mms[2], 1) && w4.ram.free == []
  {
    FirstPage(w, 1);
    w3 := Do(w, Exec(1, I.Alloc(PAGE, 0)));
    assert w3.ram.free == [1];
    FirstPage(w3, 2);
    w4 := Do(w3, Exec(2, I.Alloc(PAGE, 0)));
  }

  predicate NeverWrites(ops: seq<Op>, pid: nat) {
    forall i :: 0 <= i < |ops| && ops[i].Exec? && ops[i].inst.Write? ==> ops[i].pid != pid
  }

  /** One more operation, not a write of process 1. */
  lemma Extend(ws: seq<World>, ops: seq<Op>, ramSize: nat, swpSize: nat, op: Op, w: World, w': World)
    returns (vs: seq<World>, os: seq<Op>)
    requires IsRun(ws, ops, ramSize, swpSize) && NeverWrites(ops, 1) && ws[|ops|] == w
    requires Legal(w, op) && w' == Do(w, op) && !(op.Exec? && op.inst.Write? && op.pid == 1)
    ensures IsRun(vs, os, ramSize, swpSize) && NeverWrites(os, 1) && vs[|os|] == w'
  {
    vs, os := ws + [w'], ops + [op];
    forall i | 0 <= i < |os|
      ensures Legal(vs[i], os[i]) && vs[i + 1] == Do(vs[i], os[i])
    {
      if i < |ops| {
        assert Legal(ws[i], ops[i]) && ws[i + 1] == Do(ws[i], ops[i]);
      }
    }
  }

  lemma Begin(ramSize: nat, swpSize: nat)
    ensures IsRun([Boot(ramSize, swpSize)], [], ramSize, swpSize) && NeverWrites([], 1)
  {
  }

  /** Any run that has come to w2 can go on to where process 1 reads what process 2 wrote. */
  lemma GoOn(ws: seq<World>, ops: seq<Op>, ramSize: nat, swpSize: nat, w: World)
    returns (vs: seq<World>, os: seq<Op>)
    requires IsRun(ws, ops, ramSize, swpSize) && NeverWrites(ops, 1) && ws[|ops|] == w
    requires Both(w) && Untouched(w.mms[1]) && Untouched(w.mms[2]) && w.ram.free == [0, 1]
    ensures IsRun(vs, os, ramSize, swpSize) && NeverWrites(os, 1)
    ensures var w' := vs[|os|]; 1 in w'.mms && w'.mms[1].Wf() && Gets(w', 1, 0, 0) == Value(9)
  {
    var w3, w4 := Fills(w);
    var w5, w6, w7 := Strays(w4);
    vs, os := Extend(ws, ops, ramSize, swpSize, Exec(1, I.Alloc(PAGE, 0)), w, w3);
    vs, os := Extend(vs, os, ramSize, swpSize, Exec(2, I.Alloc(PAGE, 0)), w3, w4);
    vs, os := Extend(vs, os, ramSize, swpSize, Exec(2, I.Alloc(PAGE, 1)), w4, w5);
    vs, os := Extend(vs, os, ramSize, swpSize, Exec(2, I.Write(7, 1, 0)), w5, w6);
    vs, os := Extend(vs, os, ramSize, swpSize, Exec(2, I.Write(9, 0, 0)), w6, w7);
  }

  /**
   * Two frames, two processes with a page each, one growth too many: then process 1, which never writes, reads a
   * byte that process 2 has written. So the condition that every growth finds its frames cannot be dropped.
   */
  lemma IsolationNeedsFrames() returns (ws: seq<World>, ops: seq<Op>)
    ensures IsRun(ws, ops, 2 * PAGE, PAGE) && NeverWrites(ops, 1)
    ensures var w := ws[|ops|]; 1 in w.mms && w.mms[1].Wf() && Gets(w, 1, 0, 0) == Value(9)
  {
    Boots();
    var w0 := Boot(2 * PAGE, PAGE);
    Begin(2 * PAGE, PAGE);
    var w2 := Loads(w0);
    ws, ops := Extend([w0], [], 2 * PAGE, PAGE, Load(1), w0, Do(w0, Load(1)));
    ws, ops := Extend(ws, ops, 2 * PAGE, PAGE, Load(2), Do(w0, Load(1)), w2);
    ws, ops := GoOn(ws, ops, 2 * PAGE, PAGE, w2);
  }
}
