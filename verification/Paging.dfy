/** The operations of libmem.c seen on page tables without bits: each acts on a Table as the code's bits do. */
module Paging {
  import opened Common
  import opened Ptes
  import opened Memory
  import opened Tables

  function MarkOf(v: bv64): Mark {
    Mark(Present(Entry(v)), Swapped(Entry(v)), Fpn(v))
  }

  function MarksOf(pt: seq<bv64>): (s: seq<Mark>)
    ensures |s| == |pt|
  {
    seq(|pt|, i requires 0 <= i < |pt| => MarkOf(pt[i]))
  }

  function TableOf(mm: Mm): (t: Table)
    ensures mm.Wf() ==> |t.marks| == TABLE
  {
    Table(MarksOf(mm.pt), Top(mm), mm.fifo, mm.mapped, mm.victims)
  }

  /** Frame numbers that fit the frame field. */
  predicate Small(frames: seq<nat>) {
    forall i :: 0 <= i < |frames| ==> frames[i] < MAX_FRAMES
  }

  lemma MarkSetFpn(v: bv64, f: nat)
    requires f < MAX_FRAMES
    ensures MarkOf(SetFpn(v, Word(f))) == Mark(true, false, f)
  {
    var w := SetFpnReads(v, f);
  }

  lemma MarkSetSwap(v: bv64, s: nat)
    ensures MarkOf(SetSwap(v, 0, Word(s))) == Mark(true, true, Fpn(SetSwap(v, 0, Word(s))))
  {
    SwapMarks(v, 0, Word(s));
  }

  lemma MarksUpdate(pt: seq<bv64>, e: nat, v: bv64)
    requires e < |pt|
    ensures MarksOf(pt[e := v]) == MarksOf(pt)[e := MarkOf(v)]
  {
  }

  lemma EmptyMark()
    ensures MarkOf(0) == Mark(false, false, 0)
  {
    assert FpnBits(Entry(0)) == 0;
  }

  lemma NewTable()
    ensures TableOf(NewMm()) == Table(seq(TABLE, i => Mark(false, false, 0)), 0, [], [], [])
    ensures PageInv(TableOf(NewMm()))
  {
    EmptyMark();
    assert TableOf(NewMm()).marks == seq(TABLE, i => Mark(false, false, 0));
  }

  // ---- Growth ----

  lemma MapPageTable(mm: Mm, pgn: nat, f: nat)
    requires mm.Wf() && pgn < TABLE && f < MAX_FRAMES
    ensures TableOf(MapPage(mm, pgn, f)) == Map(TableOf(mm), pgn, f)
  {
    MarkSetFpn(mm.pt[pgn], f);
    MarksUpdate(mm.pt, pgn, SetFpn(mm.pt[pgn], Word(f)));
  }

  lemma {:induction false} MapPagesTable(mm: Mm, first: nat, frames: seq<nat>)
    requires mm.Wf() && first + |frames| <= TABLE && Small(frames)
    ensures TableOf(MapPages(mm, first, frames)) == MapRun(TableOf(mm), first, frames)
    decreases |frames|
  {
    if frames != [] {
      var i := |frames| - 1;
      MapPagesTable(mm, first, frames[..i]);
      LastPageTable(mm, first, frames, MapPages(mm, first, frames[..i]));
    }
  }

  lemma LastPageTable(mm: Mm, first: nat, frames: seq<nat>, m: Mm)
    requires mm.Wf() && m.Wf() && frames != [] && first + |frames| <= TABLE && Small(frames)
    requires m == MapPages(mm, first, frames[..|frames| - 1])
    ensures TableOf(MapPages(mm, first, frames)) == Map(TableOf(m), first + |frames| - 1, frames[|frames| - 1])
  {
    MapPageTable(m, first + |frames| - 1, frames[|frames| - 1]);
  }

  lemma TopUp(sbrk: nat, n: nat)
    ensures (sbrk + n * PAGE) / PAGE == sbrk / PAGE + n
  {
  }

  /** The pages and the free frames after a growth by n pages. */
  function Grown(t: Table, pool: seq<nat>, n: nat): (Table, seq<nat>)
    requires t.top + n <= |t.marks|
  {
    if |pool| < n then (Raise(t, n), []) else (MapRun(Raise(t, n), t.top, pool[..n]), pool[n..])
  }

  /**
   * Mapping correctness: growth with enough frames gives the i-th new page the i-th frame popped and leaves every
   * other entry as it was; growth without enough frames changes no entry, but sbrk has moved and the frames are gone.
   */
  lemma GrowTable(mm: Mm, ram: Phy, size: nat)
    requires mm.Wf() && size > 0 && Top(mm) + Pages(size) <= TABLE && Small(ram.free)
    ensures (TableOf(Grow(mm, ram, size).0), Grow(mm, ram, size).1.free) == Grown(TableOf(mm), ram.free, Pages(size))
    ensures Grow(mm, ram, size).1.bytes == ram.bytes
  {
    var n := Pages(size);
    var up := mm.(sbrk := mm.sbrk + AlignUp(size));
    TopUp(mm.sbrk, n);
    assert TableOf(up) == Raise(TableOf(mm), n);
    if |ram.free| >= n {
      MapPagesTable(up, Top(mm), ram.free[..n]);
    }
  }

  /** Page by page: what a growth leaves in every entry of the table. */
  lemma GrownMarks(t: Table, pool: seq<nat>, n: nat, e: nat)
    requires t.top + n <= |t.marks| && e < |t.marks|
    ensures var (t', pool') := Grown(t, pool, n);
            && t'.top == t.top + n && |t'.marks| == |t.marks|
            && t'.marks[e] == (if t.top <= e < t.top + n && |pool| >= n then Mark(true, false, pool[e - t.top])
                               else t.marks[e])
            && pool' == (if |pool| >= n then pool[n..] else [])
  {
    if |pool| >= n {
      RunMarks(Raise(t, n), t.top, pool[..n], e);
    }
  }

  lemma GrownInv(t: Table, pool: seq<nat>, n: nat)
    requires PageInv(t) && t.top + n <= |t.marks|
    ensures PageInv(Grown(t, pool, n).0)
  {
    RaiseInv(t, n);
    if |pool| >= n {
      GrowthInv(t, pool[..n]);
    }
  }

  /** The table and the free frames after __alloc. */
  function Allocated(t: Table, pool: seq<nat>, fits: bool, n: nat): (Table, seq<nat>)
    requires fits || t.top + n <= |t.marks|
  {
    if fits then (t, pool) else Grown(t, pool, n)
  }

  lemma AllocTable(mm: Mm, ram: Phy, rgid: nat, size: nat)
    requires mm.Wf() && rgid < SYMBOLS && Small(ram.free)
    requires Fits(mm, size) || Top(mm) + Pages(size) <= TABLE
    ensures var (_, m, r) := Alloc(mm, ram, rgid, size);
            && (TableOf(m), r.free) == Allocated(TableOf(mm), ram.free, Fits(mm, size), Pages(size))
            && r.bytes == ram.bytes
  {
    if !Fits(mm, size) {
      GrowthIsPositive(mm, size);
      GrowTable(mm, ram, size);
      var (m, r) := Grow(mm, ram, size);
      assert TableOf(Alloc(mm, ram, rgid, size).1) == TableOf(m);
    }
  }

  lemma FreeTable(mm: Mm, rgid: int)
    requires mm.Wf() && rgid != SYMBOLS
    ensures TableOf(Free(mm, rgid).1) == TableOf(mm)
  {
  }

  // ---- Faults ----

  /** What happens on an access to a page below sbrk. */
  datatype Fault = Hit | TookFree | Evicted | NoVictim | NoSwap

  function FaultOf(t: Table, pool: seq<nat>, swp: seq<nat>, pgn: nat): Fault
    requires pgn < |t.marks|
  {
    if t.marks[pgn].present then Hit
    else if pool != [] then TookFree
    else if t.fifo == [] then NoVictim
    else if swp == [] then NoSwap
    else Evicted
  }

  /** The table after an access; `field` is what the frame field of a page that goes to swap shows. */
  function Accessed(t: Table, pool: seq<nat>, swp: seq<nat>, pgn: nat, field: nat): Table
    requires PageInv(t) && pgn < t.top
  {
    match FaultOf(t, pool, swp, pgn)
    case Hit => t
    case TookFree => Map(t, pgn, pool[0])
    case NoVictim => t
    case NoSwap => Take(t)
    case Evicted => InFifo(t, |t.fifo| - 1); Replace(t, pgn, field)
  }

  /** The frame an access ends up with. */
  function AccessedFrame(t: Table, pool: seq<nat>, swp: seq<nat>, pgn: nat): Option<nat>
    requires PageInv(t) && pgn < t.top
  {
    match FaultOf(t, pool, swp, pgn)
    case Hit => Some(t.marks[pgn].frame)
    case TookFree => Some(pool[0])
    case NoVictim => None
    case NoSwap => None
    case Evicted => InFifo(t, |t.fifo| - 1); Some(t.marks[t.fifo[|t.fifo| - 1]].frame)
  }

  lemma MarkIs(mm: Mm, pgn: nat)
    requires mm.Wf() && pgn < TABLE
    ensures TableOf(mm).marks[pgn] == MarkOf(mm.pt[pgn % TABLE]) && FrameOf(mm, pgn) == TableOf(mm).marks[pgn].frame
  {
  }

  lemma SwapOutTable(mm: Mm, v: nat, s: nat) returns (field: nat)
    requires mm.Wf() && v < TABLE
    ensures TableOf(SwapOut(mm, v, s)) == Out(TableOf(mm), v, field)
  {
    field := Fpn(SetSwap(mm.pt[v], 0, Word(s)));
    MarkSetSwap(mm.pt[v], s);
    MarksUpdate(mm.pt, v, SetSwap(mm.pt[v], 0, Word(s)));
  }

  lemma GetPageFree(mm: Mm, ram: Phy, swp: Phy, pgn: nat)
    requires mm.Wf() && pgn < TABLE && !TableOf(mm).marks[pgn].present && ram.free != [] && ram.free[0] < MAX_FRAMES
    ensures var g := GetPage(mm, ram, swp, pgn);
            && TableOf(g.mm) == Map(TableOf(mm), pgn, ram.free[0]) && g.frame == Some(ram.free[0])
            && g.ram == ram.(free := ram.free[1..])
  {
    MarkIs(mm, pgn);
    MapPageTable(mm, pgn, ram.free[0]);
    MarkIs(MapPage(mm, pgn, ram.free[0]), pgn);
  }

  lemma GetPageEvicts(mm: Mm, ram: Phy, swp: Phy, pgn: nat) returns (field: nat)
    requires mm.Wf() && pgn < TABLE && !TableOf(mm).marks[pgn].present
    requires ram.free == [] && mm.fifo != [] && mm.fifo[|mm.fifo| - 1] < TABLE && swp.free != []
    ensures var g := GetPage(mm, ram, swp, pgn);
            && TableOf(g.mm) == Replace(TableOf(mm), pgn, field) && g.ram == ram
            && g.frame == Some(TableOf(mm).marks[mm.fifo[|mm.fifo| - 1]].frame)
  {
    var v, s := mm.fifo[|mm.fifo| - 1], swp.free[0];
    MarkIs(mm, pgn);
    MarkIs(mm, v);
    FpnSmall(mm.pt[v % TABLE]);
    assert TableOf(TakeVictim(mm)) == Take(TableOf(mm));
    field := SwapOutTable(TakeVictim(mm), v, s);
    var m := SwapOut(TakeVictim(mm), v, s);
    MapPageTable(m, pgn, FrameOf(mm, v));
    MarkIs(MapPage(m, pgn, FrameOf(mm, v)), pgn);
  }

  /** The accesses that map no page. */
  lemma GetPageStays(mm: Mm, ram: Phy, swp: Phy, pgn: nat)
    requires mm.Wf() && pgn < TABLE
    requires TableOf(mm).marks[pgn].present || (ram.free == [] && (mm.fifo == [] || swp.free == []))
    ensures var g := GetPage(mm, ram, swp, pgn);
            && TableOf(g.mm) == (if TableOf(mm).marks[pgn].present || mm.fifo == [] then TableOf(mm)
                                 else Take(TableOf(mm)))
            && g.frame == (if TableOf(mm).marks[pgn].present then Some(TableOf(mm).marks[pgn].frame) else None)
            && g.ram == ram
  {
    MarkIs(mm, pgn);
  }

  /** What an access to page pgn leaves of table t and pool, and the frame it gets. */
  ghost predicate AccessIs(t: Table, pool: seq<nat>, swp: seq<nat>, pgn: nat, field: nat,
                           t': Table, pool': seq<nat>, frame: Option<nat>)
    requires PageInv(t) && pgn < t.top
  {
    && t' == Accessed(t, pool, swp, pgn, field)
    && frame == AccessedFrame(t, pool, swp, pgn)
    && pool' == if FaultOf(t, pool, swp, pgn).TookFree? then pool[1..] else pool
  }

  lemma AccessCases(t: Table, pool: seq<nat>, swp: seq<nat>, pgn: nat, field: nat,
                    t': Table, pool': seq<nat>, frame: Option<nat>)
    requires PageInv(t) && pgn < t.top
    requires t.marks[pgn].present ==> t' == t && pool' == pool && frame == Some(t.marks[pgn].frame)
    requires !t.marks[pgn].present && pool != [] ==>
               t' == Map(t, pgn, pool[0]) && pool' == pool[1..] && frame == Some(pool[0])
    requires !t.marks[pgn].present && pool == [] ==>
               && pool' == pool
               && (t.fifo == [] ==> t' == t && frame == None)
               && (t.fifo != [] && swp == [] ==> t' == Take(t) && frame == None)
               && (t.fifo != [] && swp != [] ==>
                     && t.fifo[|t.fifo| - 1] < |t.marks|
                     && t' == Replace(t, pgn, field) && frame == Some(t.marks[t.fifo[|t.fifo| - 1]].frame))
    ensures AccessIs(t, pool, swp, pgn, field, t', pool', frame)
  {
  }

  /** pg_getpage acts on the table as Accessed says, gets the frame AccessedFrame says, and touches no byte of RAM. */
  lemma GetPageTable(mm: Mm, ram: Phy, swp: Phy, pgn: nat) returns (field: nat)
    requires mm.Wf() && PageInv(TableOf(mm)) && pgn < Top(mm) && Small(ram.free)
    ensures var g := GetPage(mm, ram, swp, pgn);
            && AccessIs(TableOf(mm), ram.free, swp.free, pgn, field, TableOf(g.mm), g.ram.free, g.frame)
            && g.ram.bytes == ram.bytes
  {
    field := 0;
    var t := TableOf(mm);
    if !t.marks[pgn].present && ram.free != [] {
      GetPageFree(mm, ram, swp, pgn);
    } else if t.marks[pgn].present || mm.fifo == [] || swp.free == [] {
      GetPageStays(mm, ram, swp, pgn);
    } else {
      InFifo(t, |mm.fifo| - 1);
      field := GetPageEvicts(mm, ram, swp, pgn);
    }
    var g := GetPage(mm, ram, swp, pgn);
    AccessCases(t, ram.free, swp.free, pgn, field, TableOf(g.mm), g.ram.free, g.frame);
  }

  lemma AccessedInv(t: Table, pool: seq<nat>, swp: seq<nat>, pgn: nat, field: nat)
    requires PageInv(t) && pgn < t.top
    ensures PageInv(Accessed(t, pool, swp, pgn, field))
  {
    match FaultOf(t, pool, swp, pgn)
    case Hit =>
    case TookFree => MapInv(t, pgn, pool[0]);
    case NoVictim =>
    case NoSwap => TakeInv(t);
    case Evicted => ReplaceInv(t, pgn, field);
  }

  /**
   * FIFO replacement: an access that needs a victim takes the resident page enlisted earliest among those not yet
   * taken, whether or not there is room for it on the swap device.
   */
  lemma FifoReplacement(t: Table, pool: seq<nat>, swp: seq<nat>, pgn: nat, field: nat)
    requires PageInv(t) && pgn < t.top
    ensures var t' := Accessed(t, pool, swp, pgn, field);
            var k := FaultOf(t, pool, swp, pgn);
            && t'.victims == (if k.Evicted? || k.NoSwap? then t.mapped[..|t.victims| + 1] else t.victims)
            && t'.mapped == (if k.Evicted? || k.TookFree? then t.mapped + [pgn] else t.mapped)
            && (k.Evicted? ==>
                  t'.marks[t.mapped[|t.victims|]].swapped && FrameAt(t', pgn) == FrameAt(t, t.mapped[|t.victims|]))
  {
    var k := FaultOf(t, pool, swp, pgn);
    if t.fifo != [] {
      TakeInv(t);
      FifoResident(t);
      assert t.mapped[|t.victims|] == t.fifo[|t.fifo| - 1];
      if k == Evicted {
        Passes(t, pgn, field);
      }
    }
  }

  /** What replacement does to the victim's entry and the newcomer's. */
  lemma Passes(t: Table, pgn: nat, field: nat)
    requires PageInv(t) && t.fifo != [] && pgn < t.top && !t.marks[pgn].present
    ensures var v := t.fifo[|t.fifo| - 1];
            && v < t.top && Replace(t, pgn, field).marks[v].swapped
            && FrameAt(Replace(t, pgn, field), pgn) == FrameAt(t, v)
  {
    InFifo(t, |t.fifo| - 1);
  }
}
