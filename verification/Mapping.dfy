/** Mapping a range of pages anywhere in the address space: only the last of the five table levels is ever consulted. */
module Mapping {
  import opened Ptes
  import opened Memory
  import opened Tables
  import opened Paging

  lemma ModsDiffer(a: nat, b: nat)
    requires a < b < a + 512
    ensures a % 512 != b % 512
  {
  }

  /** The table entry of the i-th page of a range; PtIndexMod is why. */
  function EntryOf(first: nat, i: nat): (e: nat)
    ensures e < TABLE
  {
    (first + i) % TABLE
  }

  /** Pages less than 512 apart have table entries of their own. */
  lemma EntriesDiffer(first: nat, i: nat, j: nat)
    requires i < j < TABLE
    ensures EntryOf(first, i) != EntryOf(first, j)
  {
    ModsDiffer(first + i, first + j);
  }

  /** The pages of a heap of n pages have table entries of their own exactly when there are at most 512. */
  lemma OwnEntriesExactly(n: nat)
    ensures (forall i: nat, j: nat :: i < j < n ==> PtIndex(i) != PtIndex(j)) <==> n <= TABLE
  {
    if n <= TABLE {
      forall i: nat, j: nat | i < j < n
        ensures PtIndex(i) != PtIndex(j)
      {
        PtIndexMod(i);
        PtIndexMod(j);
        ModsDiffer(i, j);
      }
    } else {
      PtIndexMod(0);
      PtIndexMod(TABLE);
    }
  }

  // ---- Ranges ----

  /** The marks after the i-th page of the range has got the i-th frame, for all i. */
  function Marked(marks: seq<Mark>, first: nat, frames: seq<nat>): (r: seq<Mark>)
    requires |marks| == TABLE
    ensures |r| == TABLE
    decreases |frames|
  {
    if frames == [] then marks
    else
      var k := |frames| - 1;
      Marked(marks, first, frames[..k])[EntryOf(first, k) := Mark(true, false, frames[k])]
  }

  lemma {:induction false} MarkedAt(marks: seq<Mark>, first: nat, frames: seq<nat>, i: nat)
    requires |marks| == TABLE && i < |frames| <= TABLE
    ensures Marked(marks, first, frames)[EntryOf(first, i)] == Mark(true, false, frames[i])
    decreases |frames|
  {
    var k := |frames| - 1;
    if i < k {
      EntriesDiffer(first, i, k);
      MarkedAt(marks, first, frames[..k], i);
    }
  }

  lemma MapMarks(mm: Mm, pgn: nat, f: nat)
    requires mm.Wf() && f < MAX_FRAMES
    ensures MarksOf(MapPage(mm, pgn, f).pt) == MarksOf(mm.pt)[pgn % TABLE := Mark(true, false, f)]
  {
    MarkSetFpn(mm.pt[pgn % TABLE], f);
    MarksUpdate(mm.pt, pgn % TABLE, SetFpn(mm.pt[pgn % TABLE], Word(f)));
  }

  lemma {:induction false} RangeMarks(mm: Mm, first: nat, frames: seq<nat>)
    requires mm.Wf() && Small(frames)
    ensures MarksOf(MapPages(mm, first, frames).pt) == Marked(MarksOf(mm.pt), first, frames)
    decreases |frames|
  {
    if frames != [] {
      var k := |frames| - 1;
      var m := MapPages(mm, first, frames[..k]);
      RangeMarks(mm, first, frames[..k]);
      MapMarks(m, first + k, frames[k]);
      LastMark(MarksOf(mm.pt), first, frames, MarksOf(m.pt));
    }
  }

  lemma LastMark(marks: seq<Mark>, first: nat, frames: seq<nat>, before: seq<Mark>)
    requires |marks| == TABLE && frames != [] && before == Marked(marks, first, frames[..|frames| - 1])
    ensures Marked(marks, first, frames)
         == before[(first + |frames| - 1) % TABLE := Mark(true, false, frames[|frames| - 1])]
  {
  }

  /**
   * Mapping correctness: after vmap_page_range over up to 512 pages from any page on, looking up the i-th page
   * yields the i-th frame and a resident page, whatever its entry held before.
   */
  lemma LookUp(mm: Mm, first: nat, frames: seq<nat>, i: nat)
    requires mm.Wf() && i < |frames| <= TABLE && Small(frames)
    ensures MarksOf(MapPages(mm, first, frames).pt)[EntryOf(first, i)] == Mark(true, false, frames[i])
  {
    RangeMarks(mm, first, frames);
    MarkedAt(MarksOf(mm.pt), first, frames, i);
  }

  /** Entries of no page of the range are as they were. */
  lemma {:induction false} Untouched(mm: Mm, first: nat, frames: seq<nat>, e: nat)
    requires mm.Wf() && e < TABLE && forall i :: 0 <= i < |frames| ==> EntryOf(first, i) != e
    ensures MapPages(mm, first, frames).pt[e] == mm.pt[e]
    decreases |frames|
  {
    if frames != [] {
      var k := |frames| - 1;
      assert EntryOf(first, k) != e;
      Untouched(mm, first, frames[..k], e);
    }
  }
}
