/** While every page below sbrk is backed by a frame, the bytes of RAM hold a memory of its own for every process. */
module Isolation {
  import opened Common
  import opened Memory
  import opened Tables
  import opened Paging
  import opened Frames

  /** A byte as a program can tell it apart: addresses of one page that agree in their low eight bits are one byte. */
  datatype Key = Key(pid: nat, page: nat, cell: nat)

  /** The reference memory: bytes that have been written; all others are zero. */
  function Look(ref: map<Key, bv8>, k: Key): bv8 {
    if k in ref then ref[k] else 0
  }

  function Cell(f: nat, c: nat): nat {
    f * PAGE + c
  }

  lemma CellsDiffer(f: nat, c: nat, g: nat, d: nat)
    requires c < CELLS && d < CELLS && Cell(f, c) == Cell(g, d)
    ensures f == g && c == d
  {
  }

  /** Every page of t below sbrk has a frame. */
  ghost predicate BackedTable(t: Table) {
    forall e: nat :: e < t.top ==> FrameAt(t, e).Some?
  }

  /** The bytes behind the pages of process p are those of the reference memory. */
  ghost predicate Agrees(p: nat, t: Table, bytes: seq<bv8>, ref: map<Key, bv8>) {
    forall e: nat, c: nat :: FrameAt(t, e).Some? && c < CELLS ==>
      Cell(FrameAt(t, e).value, c) < |bytes| && bytes[Cell(FrameAt(t, e).value, c)] == Look(ref, Key(p, e, c))
  }

  /** The frames of a pool hold zeroes. */
  ghost predicate Zeroed(pool: seq<nat>, bytes: seq<bv8>) {
    forall i: nat, c: nat :: i < |pool| && c < CELLS ==> Cell(pool[i], c) < |bytes| && bytes[Cell(pool[i], c)] == 0
  }

  ghost predicate Iso(ts: map<nat, Table>, pool: seq<nat>, bytes: seq<bv8>, ref: map<Key, bv8>, n: nat) {
    && Own(ts, pool, n)
    && (forall p :: p in ts ==> BackedTable(ts[p]) && Agrees(p, ts[p], bytes, ref))
    && (forall k :: k in ref ==> k.pid in ts && k.page < ts[k.pid].top && k.cell < CELLS)
    && Zeroed(pool, bytes)
  }

  // ---- A new process ----

  lemma LoadIso(ts: map<nat, Table>, pool: seq<nat>, bytes: seq<bv8>, ref: map<Key, bv8>, n: nat, p: nat, t': Table)
    requires Iso(ts, pool, bytes, ref, n) && p !in ts && t'.top == 0 && forall e: nat :: FrameAt(t', e) == None
    ensures Iso(ts[p := t'], pool, bytes, ref, n)
  {
    LoadOwn(ts, pool, n, p, t');
  }

  // ---- Growth ----

  /** The pages that have just got frames hold zeroes, and nothing has been written to them yet. */
  lemma GrownAgrees(p: nat, t: Table, pool: seq<nat>, n: nat, bytes: seq<bv8>, ref: map<Key, bv8>)
    requires t.top + n <= |t.marks| && n <= |pool|
    requires Agrees(p, t, bytes, ref) && Zeroed(pool, bytes)
    requires forall k :: k in ref && k.pid == p ==> k.page < t.top
    ensures Agrees(p, Grown(t, pool, n).0, bytes, ref)
  {
    var t' := Grown(t, pool, n).0;
    forall e: nat, c: nat | FrameAt(t', e).Some? && c < CELLS
      ensures Cell(FrameAt(t', e).value, c) < |bytes|
      ensures bytes[Cell(FrameAt(t', e).value, c)] == Look(ref, Key(p, e, c))
    {
      GrownFrame(t, pool, n, e);
      if t.top <= e < t.top + n {
        assert Key(p, e, c) !in ref;
      }
    }
  }

  /** A growth keeps every page backed exactly when there are enough free frames. */
  lemma GrownBacked(t: Table, pool: seq<nat>, n: nat)
    requires PageInv(t) && t.top + n <= |t.marks| && BackedTable(t)
    ensures BackedTable(Grown(t, pool, n).0) <==> n <= |pool|
  {
    var t' := Grown(t, pool, n).0;
    if n <= |pool| {
      forall e: nat | e < t'.top
        ensures FrameAt(t', e).Some?
      {
        GrownFrame(t, pool, n, e);
      }
    } else {
      NothingAbove(t, t.top);
      assert FrameAt(t', t.top) == None;
    }
  }

  lemma StillAgrees(q: nat, u: Table, bytes: seq<bv8>, ref: map<Key, bv8>, addr: nat, b: bv8, k: Key)
    requires Agrees(q, u, bytes, ref) && addr < |bytes| && k.pid != q
    requires forall e: nat, c: nat :: FrameAt(u, e).Some? && c < CELLS ==> Cell(FrameAt(u, e).value, c) != addr
    ensures Agrees(q, u, bytes[addr := b], ref[k := b])
  {
    var bytes', ref' := bytes[addr := b], ref[k := b];
    forall e: nat, c: nat | FrameAt(u, e).Some? && c < CELLS
      ensures Cell(FrameAt(u, e).value, c) < |bytes'|
      ensures bytes'[Cell(FrameAt(u, e).value, c)] == Look(ref', Key(q, e, c))
    {
      assert Key(q, e, c) != k;
    }
  }

  lemma GrowIso(ts: map<nat, Table>, pool: seq<nat>, bytes: seq<bv8>, ref: map<Key, bv8>, n: nat, p: nat, k: nat)
    requires Iso(ts, pool, bytes, ref, n) && p in ts && PageInv(ts[p]) && ts[p].top + k <= |ts[p].marks| && k <= |pool|
    ensures Iso(ts[p := Grown(ts[p], pool, k).0], Grown(ts[p], pool, k).1, bytes, ref, n)
  {
    var t := ts[p];
    var (t', pool') := Grown(t, pool, k);
    assert Clear(t, pool, n);
    GrownTakes(t, pool, k);
    TakesOwn(ts, pool, n, p, t', pool');
    GrownAgrees(p, t, pool, k, bytes, ref);
    GrownBacked(t, pool, k);
    GrownTop(t, pool, k);
  }

  lemma GrownTop(t: Table, pool: seq<nat>, n: nat)
    requires t.top + n <= |t.marks|
    ensures Grown(t, pool, n).0.top == t.top + n
  {
  }

  // ---- Writing ----

  /** No other process, and no other page of the same process, has a byte at a resident page's addresses. */
  lemma NotMine(t: Table, u: Table, e: nat, c: nat, d: nat, g: nat)
    requires FrameAt(t, e).Some? && c < CELLS && FrameAt(u, g).Some? && d < CELLS
    requires Apart(t, u) || (t == u && Distinct(t) && (e != g || c != d))
    ensures Cell(FrameAt(t, e).value, c) != Cell(FrameAt(u, g).value, d)
  {
    if Cell(FrameAt(t, e).value, c) == Cell(FrameAt(u, g).value, d) {
      CellsDiffer(FrameAt(t, e).value, c, FrameAt(u, g).value, d);
      assert Holds(t, FrameAt(t, e).value);
    }
  }

  lemma WriteOthers(ts: map<nat, Table>, pool: seq<nat>, bytes: seq<bv8>, ref: map<Key, bv8>, n: nat,
                    p: nat, e: nat, c: nat, b: bv8, q: nat)
    requires Iso(ts, pool, bytes, ref, n) && p in ts && e < ts[p].top && c < CELLS && q in ts && q != p
    ensures FrameAt(ts[p], e).Some? && Cell(FrameAt(ts[p], e).value, c) < |bytes|
    ensures Agrees(q, ts[q], bytes[Cell(FrameAt(ts[p], e).value, c) := b], ref[Key(p, e, c) := b])
  {
    assert Agrees(p, ts[p], bytes, ref);
    forall g: nat, d: nat | FrameAt(ts[q], g).Some? && d < CELLS
      ensures Cell(FrameAt(ts[q], g).value, d) != Cell(FrameAt(ts[p], e).value, c)
    {
      NotMine(ts[p], ts[q], e, c, d, g);
    }
    StillAgrees(q, ts[q], bytes, ref, Cell(FrameAt(ts[p], e).value, c), b, Key(p, e, c));
  }

  lemma WriteOwn(p: nat, t: Table, bytes: seq<bv8>, ref: map<Key, bv8>, e: nat, c: nat, b: bv8)
    requires Distinct(t) && Agrees(p, t, bytes, ref) && FrameAt(t, e).Some? && c < CELLS
    ensures Cell(FrameAt(t, e).value, c) < |bytes|
    ensures Agrees(p, t, bytes[Cell(FrameAt(t, e).value, c) := b], ref[Key(p, e, c) := b])
  {
    var addr := Cell(FrameAt(t, e).value, c);
    var bytes', ref' := bytes[addr := b], ref[Key(p, e, c) := b];
    forall g: nat, d: nat | FrameAt(t, g).Some? && d < CELLS
      ensures Cell(FrameAt(t, g).value, d) < |bytes'|
      ensures bytes'[Cell(FrameAt(t, g).value, d)] == Look(ref', Key(p, g, d))
    {
      if g != e || d != c {
        NotMine(t, t, e, c, d, g);
        assert Key(p, g, d) != Key(p, e, c);
      }
    }
  }

  lemma WriteZeroed(t: Table, pool: seq<nat>, bytes: seq<bv8>, n: nat, e: nat, c: nat, b: bv8)
    requires Clear(t, pool, n) && Zeroed(pool, bytes) && FrameAt(t, e).Some? && c < CELLS
    requires Cell(FrameAt(t, e).value, c) < |bytes|
    ensures Zeroed(pool, bytes[Cell(FrameAt(t, e).value, c) := b])
  {
    var bytes' := bytes[Cell(FrameAt(t, e).value, c) := b];
    assert Holds(t, FrameAt(t, e).value);
    forall i: nat, d: nat | i < |pool| && d < CELLS
      ensures Cell(pool[i], d) < |bytes'| && bytes'[Cell(pool[i], d)] == 0
    {
      if Cell(pool[i], d) == Cell(FrameAt(t, e).value, c) {
        CellsDiffer(pool[i], d, FrameAt(t, e).value, c);
      }
    }
  }

  /** A store to a process's page changes that byte of the reference memory and no other. */
  lemma WriteIso(ts: map<nat, Table>, pool: seq<nat>, bytes: seq<bv8>, ref: map<Key, bv8>, n: nat,
                 p: nat, e: nat, c: nat, b: bv8)
    requires Iso(ts, pool, bytes, ref, n) && p in ts && e < ts[p].top && c < CELLS
    ensures FrameAt(ts[p], e).Some? && Cell(FrameAt(ts[p], e).value, c) < |bytes|
    ensures Iso(ts, pool, bytes[Cell(FrameAt(ts[p], e).value, c) := b], ref[Key(p, e, c) := b], n)
  {
    var t := ts[p];
    assert BackedTable(t) && Agrees(p, t, bytes, ref);
    WriteOwn(p, t, bytes, ref, e, c, b);
    forall q | q in ts && q != p
      ensures Agrees(q, ts[q], bytes[Cell(FrameAt(t, e).value, c) := b], ref[Key(p, e, c) := b])
    {
      WriteOthers(ts, pool, bytes, ref, n, p, e, c, b, q);
    }
    WriteZeroed(t, pool, bytes, n, e, c, b);
  }
}
