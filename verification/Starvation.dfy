/** What a program reads of a variable whose allocation found too few frames, and when that is still new memory. */
module Starvation {
  import opened Common
  import opened Memory
  import opened Regions
  import opened Tables
  import opened Paging
  import opened Isolation
  import opened Worlds
  import opened MemTheorems
  import opened Private
  import I = Instructions

  /** The variable is there, no page of it is, and no frame is free. */
  ghost predicate Starved(w: World, w': World, pid: nat, rgid: nat, size: nat)
    requires pid in w.mms
  {
    && pid in w'.mms && w'.mms[pid].Wf() && rgid < SYMBOLS
    && w'.ram == w.ram.(free := []) && w'.swp == w.swp
    && w'.mms[pid].sym[rgid] == Region(w.mms[pid].sbrk, w.mms[pid].sbrk + size)
    && TableOf(w'.mms[pid]) == Raise(TableOf(w.mms[pid]), Pages(size)) && PageInv(TableOf(w'.mms[pid]))
  }

  lemma LeavesStarved(w: World, n: nat, pid: nat, rgid: nat, size: nat)
    requires Inv(w, n) && Legal(w, Exec(pid, I.Alloc(size, rgid))) && Starves(w, Exec(pid, I.Alloc(size, rgid)))
    ensures Starved(w, Do(w, Exec(pid, I.Alloc(size, rgid))), pid, rgid, size)
  {
    Single(w, n, pid);
    AllocRegions(w.mms[pid], w.ram, rgid, size);
    AllocTable(w.mms[pid], w.ram, rgid, size);
    RaiseInv(TableOf(w.mms[pid]), Pages(size));
  }

  /** Where the variable's bytes would be. */
  lemma NewPage(sbrk: nat, size: nat, off: nat)
    requires sbrk % PAGE == 0 && off < size
    ensures sbrk / PAGE <= (sbrk + off) / PAGE < sbrk / PAGE + Pages(size)
  {
  }

  lemma ReadGets(mm: Mm, ram: Phy, swp: Phy, rgid: nat, offset: nat, a: nat, g: Fetched)
    requires mm.Wf() && rgid != SYMBOLS && Resolve(mm, rgid, offset) == Some(a) && g == GetPage(mm, ram, swp, a / PAGE)
    ensures Read(mm, ram, swp, rgid, offset).0
         == if g.frame.None? || Physical(g.frame.value, a) >= |g.ram.bytes| then Unset
            else Value(g.ram.bytes[Physical(g.frame.value, a)])
  {
  }

  /** An access to a page that is not present, when no frame is free. */
  lemma Famished(mm: Mm, ram: Phy, swp: Phy, pgn: nat)
    requires mm.Wf() && PageInv(TableOf(mm)) && pgn < TABLE && !TableOf(mm).marks[pgn].present && ram.free == []
    ensures var g := GetPage(mm, ram, swp, pgn);
            && g.ram == ram
            && (if mm.fifo == [] || swp.free == [] then g.frame == None
                else FrameAt(TableOf(mm), mm.fifo[|mm.fifo| - 1]).Some?
                     && g.frame == FrameAt(TableOf(mm), mm.fifo[|mm.fifo| - 1]))
  {
    if mm.fifo == [] || swp.free == [] {
      GetPageStays(mm, ram, swp, pgn);
    } else {
      InFifo(TableOf(mm), |mm.fifo| - 1);
      var field := GetPageEvicts(mm, ram, swp, pgn);
    }
  }

  /** What reading address a of the new variable gives, where ref is the reference memory. */
  function Leftover(fifo: seq<nat>, swp: seq<nat>, pid: nat, a: nat, ref: map<Key, bv8>): ReadResult {
    if fifo == [] || swp == [] then Unset else Value(Look(ref, Key(pid, fifo[|fifo| - 1], a % CELLS)))
  }

  lemma FamishedReads(t: Table, m: Mm, ram: Phy, swp: Phy, ref: map<Key, bv8>, pid: nat, rgid: nat, off: nat,
                      a: nat, k: nat)
    requires m.Wf() && rgid != SYMBOLS && Resolve(m, rgid, off) == Some(a) && ram.free == []
    requires PageInv(t) && TableOf(m) == Raise(t, k) && PageInv(TableOf(m)) && Agrees(pid, t, ram.bytes, ref)
    requires t.top <= a / PAGE < TABLE
    ensures Read(m, ram, swp, rgid, off).0 == Leftover(t.fifo, swp.free, pid, a, ref)
  {
    NothingAbove(t, a / PAGE);
    Famished(m, ram, swp, a / PAGE);
    ReadGets(m, ram, swp, rgid, off, a, GetPage(m, ram, swp, a / PAGE));
    SameFrame(t, k);
    if t.fifo != [] && swp.free != [] {
      ByteLeft(t, ram.bytes, swp.free, ref, pid, a);
    }
  }

  /** The byte behind the oldest page is the reference memory's. */
  lemma ByteLeft(t: Table, bytes: seq<bv8>, swp: seq<nat>, ref: map<Key, bv8>, pid: nat, a: nat)
    requires Agrees(pid, t, bytes, ref) && t.fifo != [] && swp != [] && FrameAt(t, t.fifo[|t.fifo| - 1]).Some?
    ensures var f := FrameAt(t, t.fifo[|t.fifo| - 1]).value;
            Physical(f, a) < |bytes| && Value(bytes[Physical(f, a)]) == Leftover(t.fifo, swp, pid, a, ref)
  {
    var f := FrameAt(t, t.fifo[|t.fifo| - 1]).value;
    assert Physical(f, a) == Cell(f, a % CELLS);
  }

  lemma SameFrame(t: Table, k: nat)
    ensures forall e: nat :: FrameAt(Raise(t, k), e) == FrameAt(t, e)
  {
  }

  /** The starved state, seen by the process alone. */
  lemma StarvedLocal(w: World, w': World, pid: nat, rgid: nat, size: nat, off: nat)
    requires pid in w.mms && w.mms[pid].sbrk % PAGE == 0 && Starved(w, w', pid, rgid, size) && off < size
    ensures var a := w.mms[pid].sbrk + off;
            && Resolve(w'.mms[pid], rgid, off) == Some(a) && TableOf(w.mms[pid]).top <= a / PAGE < TABLE
  {
    NewPage(w.mms[pid].sbrk, size, off);
  }

  lemma StarvedGets(w: World, w': World, ref: map<Key, bv8>, n: nat, pid: nat, rgid: nat, size: nat, off: nat)
    requires IsoInv(w, ref, n) && pid in w.mms && Starved(w, w', pid, rgid, size) && off < size
    ensures Gets(w', pid, rgid, off) == Leftover(w.mms[pid].fifo, w.swp.free, pid, w.mms[pid].sbrk + off, ref)
  {
    IsoBacked(w, ref, n, pid);
    Single(w, n, pid);
    StarvedLocal(w, w', pid, rgid, size, off);
    FamishedReads(TableOf(w.mms[pid]), w'.mms[pid], w'.ram, w'.swp, ref, pid, rgid, off,
                  w.mms[pid].sbrk + off, Pages(size));
  }

  /**
   * After an allocation that finds too few frames, a read of the new variable gives the byte of the process's oldest
   * page at the same place in the page, if there is such a page and room for it on the swap device, and else no
   * value at all.
   */
  lemma StarvedReads(w: World, w': World, ref: map<Key, bv8>, n: nat, pid: nat, rgid: nat, size: nat, off: nat)
    requires IsoInv(w, ref, n) && Legal(w, Exec(pid, I.Alloc(size, rgid))) && Starves(w, Exec(pid, I.Alloc(size, rgid)))
    requires w' == Do(w, Exec(pid, I.Alloc(size, rgid))) && off < size
    ensures pid in w'.mms && w'.mms[pid].Wf()
    ensures Gets(w', pid, rgid, off) == Leftover(w.mms[pid].fifo, w.swp.free, pid, w.mms[pid].sbrk + off, ref)
  {
    LeavesStarved(w, n, pid, rgid, size);
    StarvedGets(w, w', ref, n, pid, rgid, size, off);
  }

  /** The reference memory knows nothing of pages that are not there yet: they are new, and zero. */
  lemma NewIsZero(w: World, ref: map<Key, bv8>, n: nat, pid: nat, a: nat)
    requires IsoInv(w, ref, n) && pid in w.mms && a >= w.mms[pid].sbrk
    ensures Look(ref, Key(pid, a / PAGE, a % CELLS)) == 0
  {
    TableAt(w, pid);
    assert a / PAGE >= Top(w.mms[pid]);
  }

  /**
   * Exactly when such a variable still reads as the reference memory says: the process has a page in its FIFO, the
   * swap device has a free frame, and the oldest page's byte at that place happens to be zero.
   */
  lemma ReadsAsNewExactly(w: World, w': World, ref: map<Key, bv8>, n: nat, pid: nat, rgid: nat, size: nat, off: nat)
    requires IsoInv(w, ref, n) && Legal(w, Exec(pid, I.Alloc(size, rgid))) && Starves(w, Exec(pid, I.Alloc(size, rgid)))
    requires w' == Do(w, Exec(pid, I.Alloc(size, rgid))) && off < size
    ensures pid in w'.mms && w'.mms[pid].Wf() && KeyOf(w', pid, rgid, off).Some?
    ensures Gets(w', pid, rgid, off) == Value(Look(ref, KeyOf(w', pid, rgid, off).value))
       <==> OldestIsZero(w.mms[pid].fifo, w.swp.free, pid, w.mms[pid].sbrk + off, ref)
  {
    LeavesStarved(w, n, pid, rgid, size);
    StarvedAsNew(w, w', ref, n, pid, rgid, size, off);
  }

  /** There is an oldest page, swap has room for it, and its byte at address a's place in the page is zero. */
  predicate OldestIsZero(fifo: seq<nat>, swp: seq<nat>, pid: nat, a: nat, ref: map<Key, bv8>) {
    fifo != [] && swp != [] && Look(ref, Key(pid, fifo[|fifo| - 1], a % CELLS)) == 0
  }

  lemma StarvedAsNew(w: World, w': World, ref: map<Key, bv8>, n: nat, pid: nat, rgid: nat, size: nat, off: nat)
    requires IsoInv(w, ref, n) && pid in w.mms && Starved(w, w', pid, rgid, size) && off < size
    ensures KeyOf(w', pid, rgid, off).Some?
    ensures Gets(w', pid, rgid, off) == Value(Look(ref, KeyOf(w', pid, rgid, off).value))
       <==> OldestIsZero(w.mms[pid].fifo, w.swp.free, pid, w.mms[pid].sbrk + off, ref)
  {
    StarvedGets(w, w', ref, n, pid, rgid, size, off);
    NewIsZero(w, ref, n, pid, w.mms[pid].sbrk + off);
  }
}
