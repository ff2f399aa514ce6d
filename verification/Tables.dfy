/** A process's pages without the bits: what the page table says of each page, and the FIFO of resident pages. */
module Tables {
  import opened Common

  /** What an entry tells: whether the page is present, whether it is swapped, and its frame field. */
  datatype Mark = Mark(present: bool, swapped: bool, frame: nat)

  /**
   * The page table, the pages below sbrk, fifo_pgn (newest first), every page ever enlisted and every page
   * taken out by the replacement policy, both in order.
   */
  datatype Table = Table(marks: seq<Mark>, top: nat, fifo: seq<nat>, mapped: seq<nat>, victims: seq<nat>)

  /** The frame behind a page, when the page is resident. */
  function FrameAt(t: Table, e: nat): Option<nat> {
    if e < |t.marks| && t.marks[e].present && !t.marks[e].swapped then Some(t.marks[e].frame) else None
  }

  /**
   * A page is enlisted at most once, when it becomes present; the pages taken out by the replacement
   * policy are a prefix of those enlisted, in the same order, and only they can be swapped.
   */
  ghost predicate PageInv(t: Table) {
    && t.top <= |t.marks|
    && t.mapped == t.victims + Reverse(t.fifo)
    && NoDup(t.mapped)
    && (forall i :: 0 <= i < |t.mapped| ==> t.mapped[i] < t.top)
    && (forall e :: 0 <= e < |t.marks| ==> (t.marks[e].present <==> e in t.mapped))
    && (forall e :: 0 <= e < |t.marks| && t.marks[e].swapped ==> e in t.victims)
  }

  /** sbrk moves up by n pages. */
  function Raise(t: Table, n: nat): Table {
    t.(top := t.top + n)
  }

  /** Page pgn gets frame f. */
  function Map(t: Table, pgn: nat, f: nat): Table
    requires pgn < |t.marks|
  {
    t.(marks := t.marks[pgn := Mark(true, false, f)], fifo := [pgn] + t.fifo, mapped := t.mapped + [pgn])
  }

  /** The pages from `first` on get the frames in order. */
  function MapRun(t: Table, first: nat, frames: seq<nat>): (t': Table)
    requires first + |frames| <= |t.marks|
    ensures |t'.marks| == |t.marks| && t'.top == t.top
    decreases |frames|
  {
    if frames == [] then t
    else
      var i := |frames| - 1;
      Map(MapRun(t, first, frames[..i]), first + i, frames[i])
  }

  /** The last page of the FIFO is taken out of it. */
  function Take(t: Table): Table
    requires t.fifo != []
  {
    t.(fifo := t.fifo[..|t.fifo| - 1], victims := t.victims + [t.fifo[|t.fifo| - 1]])
  }

  /** Page v goes to swap; `field` is what its frame field shows from then on. */
  function Out(t: Table, v: nat, field: nat): Table
    requires v < |t.marks|
  {
    t.(marks := t.marks[v := Mark(true, true, field)])
  }

  // ---- Mapping ----

  lemma RaiseInv(t: Table, n: nat)
    requires PageInv(t) && t.top + n <= |t.marks|
    ensures PageInv(Raise(t, n))
  {
  }

  lemma MapInv(t: Table, pgn: nat, f: nat)
    requires PageInv(t) && pgn < t.top && !t.marks[pgn].present
    ensures PageInv(Map(t, pgn, f))
  {
    var m := Map(t, pgn, f);
    assert m.fifo[1..] == t.fifo;
    assert m.mapped == m.victims + Reverse(m.fifo);
  }

  /** Mapping a run of pages touches no other entry, and the i-th page of the run gets the i-th frame. */
  lemma {:induction false} RunMarks(t: Table, first: nat, frames: seq<nat>, e: nat)
    requires first + |frames| <= |t.marks| && e < |t.marks|
    ensures MapRun(t, first, frames).marks[e]
         == if first <= e < first + |frames| then Mark(true, false, frames[e - first]) else t.marks[e]
    decreases |frames|
  {
    if frames != [] {
      RunMarks(t, first, frames[..|frames| - 1], e);
    }
  }

  lemma {:induction false} MapRunInv(t: Table, first: nat, frames: seq<nat>)
    requires PageInv(t) && first + |frames| <= t.top
    requires forall e :: first <= e < first + |frames| ==> !t.marks[e].present
    ensures PageInv(MapRun(t, first, frames))
    decreases |frames|
  {
    if frames != [] {
      var i := |frames| - 1;
      MapRunInv(t, first, frames[..i]);
      RunMarks(t, first, frames[..i], first + i);
      RunNext(t, MapRun(t, first, frames[..i]), first, frames);
    }
  }

  lemma RunNext(t: Table, m: Table, first: nat, frames: seq<nat>)
    requires frames != [] && first + |frames| <= t.top <= |t.marks| && m == MapRun(t, first, frames[..|frames| - 1])
    requires PageInv(m) && !m.marks[first + |frames| - 1].present
    ensures PageInv(MapRun(t, first, frames))
  {
    MapInv(m, first + |frames| - 1, frames[|frames| - 1]);
  }

  lemma NothingAbove(t: Table, e: nat)
    requires PageInv(t) && t.top <= e < |t.marks|
    ensures !t.marks[e].present
  {
  }

  lemma GrowthInv(t: Table, frames: seq<nat>)
    requires PageInv(t) && t.top + |frames| <= |t.marks|
    ensures PageInv(MapRun(Raise(t, |frames|), t.top, frames))
  {
    RaiseInv(t, |frames|);
    forall e | t.top <= e < t.top + |frames|
      ensures !t.marks[e].present
    {
      NothingAbove(t, e);
    }
    MapRunInv(Raise(t, |frames|), t.top, frames);
  }

  // ---- Replacement ----

  lemma {:induction false} ReverseLast<T>(s: seq<T>)
    requires s != []
    ensures Reverse(s) == [s[|s| - 1]] + Reverse(s[..|s| - 1])
    decreases |s|
  {
    if |s| > 1 {
      ReverseLast(s[1..]);
      assert s[1..][..|s| - 2] == s[..|s| - 1][1..];
    }
  }

  lemma NotInPrefix(a: seq<nat>, b: seq<nat>, j: nat)
    requires NoDup(a + b) && j < |b|
    ensures b[j] !in a && b[j] in a + b
  {
    assert (a + b)[|a| + j] == b[j];
    forall i | 0 <= i < |a|
      ensures a[i] != b[j]
    {
      assert (a + b)[i] == a[i];
    }
  }

  /** A page in the FIFO has not been taken out, so it is resident. */
  lemma InFifo(t: Table, j: nat)
    requires PageInv(t) && j < |t.fifo|
    ensures t.fifo[j] < t.top && t.fifo[j] in t.mapped && t.fifo[j] !in t.victims && FrameAt(t, t.fifo[j]).Some?
  {
    assert Reverse(t.fifo)[|t.fifo| - 1 - j] == t.fifo[j];
    NotInPrefix(t.victims, Reverse(t.fifo), |t.fifo| - 1 - j);
  }

  /** The FIFO holds distinct, resident pages of the process in mapping order, oldest last. */
  lemma FifoResident(t: Table)
    requires PageInv(t)
    ensures forall j :: 0 <= j < |t.fifo| ==> t.fifo[j] < t.top && FrameAt(t, t.fifo[j]).Some?
    ensures forall j :: 0 <= j < |t.fifo| ==> t.fifo[j] == t.mapped[|t.mapped| - 1 - j]
    ensures NoDup(t.fifo)
  {
    forall j | 0 <= j < |t.fifo|
      ensures t.fifo[j] < t.top && FrameAt(t, t.fifo[j]).Some? && t.fifo[j] == t.mapped[|t.mapped| - 1 - j]
    {
      InFifo(t, j);
    }
  }

  lemma TakeInv(t: Table)
    requires PageInv(t) && t.fifo != []
    ensures PageInv(Take(t)) && Take(t).victims == t.mapped[..|t.victims| + 1]
  {
    ReverseLast(t.fifo);
    var v := t.fifo[|t.fifo| - 1];
    assert t.mapped == (t.victims + [v]) + Reverse(t.fifo[..|t.fifo| - 1]);
  }

  lemma OutInv(t: Table, v: nat, field: nat)
    requires PageInv(t) && v in t.victims && v < |t.marks|
    ensures PageInv(Out(t, v, field))
  {
    VictimsMapped(t, v);
  }

  lemma VictimsMapped(t: Table, v: nat)
    requires PageInv(t) && v in t.victims
    ensures v in t.mapped
  {
  }

  /** No entry is swapped without being present, so no fault finds a page to bring back from swap. */
  lemma NeverSwappedIn(t: Table, e: nat)
    requires PageInv(t) && e < |t.marks| && t.marks[e].swapped
    ensures t.marks[e].present
  {
    VictimsMapped(t, e);
  }

  /** The oldest resident page goes to swap and leaves its frame to page pgn. */
  function Replace(t: Table, pgn: nat, field: nat): Table
    requires t.fifo != [] && t.fifo[|t.fifo| - 1] < |t.marks| && pgn < |t.marks|
  {
    var v := t.fifo[|t.fifo| - 1];
    Map(Out(Take(t), v, field), pgn, t.marks[v].frame)
  }

  lemma ReplaceInv(t: Table, pgn: nat, field: nat)
    requires PageInv(t) && t.fifo != [] && pgn < t.top && !t.marks[pgn].present
    ensures t.fifo[|t.fifo| - 1] < t.top
    ensures PageInv(Replace(t, pgn, field))
  {
    InFifo(t, |t.fifo| - 1);
    TakeInv(t);
    OutInv(Take(t), t.fifo[|t.fifo| - 1], field);
    MapInv(Out(Take(t), t.fifo[|t.fifo| - 1], field), pgn, t.marks[t.fifo[|t.fifo| - 1]].frame);
  }
}
