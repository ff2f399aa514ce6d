/** Who owns which frame: the processes' tables and the list of free frames. */
module Frames {
  import opened Common
  import opened Tables
  import opened Paging

  ghost predicate Holds(t: Table, f: nat) {
    exists e: nat :: FrameAt(t, e) == Some(f)
  }

  ghost predicate Distinct(t: Table) {
    forall a: nat, b: nat :: FrameAt(t, a).Some? && FrameAt(t, a) == FrameAt(t, b) ==> a == b
  }

  /** The frames of t are among the first n and not free. */
  ghost predicate Clear(t: Table, pool: seq<nat>, n: nat) {
    forall f: nat :: Holds(t, f) ==> f < n && f !in pool
  }

  ghost predicate Apart(t: Table, u: Table) {
    forall f: nat :: Holds(t, f) ==> !Holds(u, f)
  }

  /** n frames: each is behind at most one resident page of at most one process, or else may be free, once. */
  ghost predicate Own(ts: map<nat, Table>, pool: seq<nat>, n: nat) {
    && NoDup(pool)
    && (forall i :: 0 <= i < |pool| ==> pool[i] < n)
    && (forall p :: p in ts ==> Distinct(ts[p]) && Clear(ts[p], pool, n))
    && (forall p, q :: p in ts && q in ts && p != q ==> Apart(ts[p], ts[q]))
  }

  /** One process's table goes from t to t' with frames of its own or from the pool, which shrinks to pool'. */
  ghost predicate Takes(t: Table, t': Table, pool: seq<nat>, pool': seq<nat>) {
    && Distinct(t')
    && NoDup(pool')
    && (forall i :: 0 <= i < |pool'| ==> pool'[i] in pool)
    && (forall f: nat :: Holds(t', f) ==> f !in pool' && (Holds(t, f) || f in pool))
  }

  lemma TakesClear(t: Table, t': Table, pool: seq<nat>, pool': seq<nat>, n: nat)
    requires Takes(t, t', pool, pool') && Clear(t, pool, n) && forall i :: 0 <= i < |pool| ==> pool[i] < n
    ensures Clear(t', pool', n) && forall i :: 0 <= i < |pool'| ==> pool'[i] < n
  {
    forall f: nat | Holds(t', f)
      ensures f < n
    {
      assert Holds(t, f) || f in pool;
    }
  }

  lemma TakesApart(t: Table, t': Table, pool: seq<nat>, pool': seq<nat>, n: nat, u: Table)
    requires Takes(t, t', pool, pool') && Clear(u, pool, n) && Apart(t, u)
    ensures Apart(t', u) && Apart(u, t') && Clear(u, pool', n)
  {
    forall f: nat | Holds(t', f)
      ensures !Holds(u, f)
    {
      assert Holds(t, f) || f in pool;
    }
  }

  /** One process at a time: the other processes' frames are safe because they were neither its own nor free. */
  lemma TakesOwn(ts: map<nat, Table>, pool: seq<nat>, n: nat, p: nat, t': Table, pool': seq<nat>)
    requires Own(ts, pool, n) && p in ts && Takes(ts[p], t', pool, pool')
    ensures Own(ts[p := t'], pool', n)
  {
    TakesClear(ts[p], t', pool, pool', n);
    forall q | q in ts && q != p
      ensures Apart(t', ts[q]) && Apart(ts[q], t') && Clear(ts[q], pool', n)
    {
      TakesApart(ts[p], t', pool, pool', n, ts[q]);
    }
  }

  lemma LoadOwn(ts: map<nat, Table>, pool: seq<nat>, n: nat, p: nat, t': Table)
    requires Own(ts, pool, n) && p !in ts && forall e: nat :: FrameAt(t', e) == None
    ensures Own(ts[p := t'], pool, n)
  {
    assert forall f: nat :: !Holds(t', f);
  }

  lemma SameFrames(t: Table, t': Table, pool: seq<nat>)
    requires t'.marks == t.marks && Distinct(t) && NoDup(pool) && forall f: nat :: Holds(t, f) ==> f !in pool
    ensures Takes(t, t', pool, pool)
  {
    forall e: nat
      ensures FrameAt(t', e) == FrameAt(t, e)
    {
    }
  }

  /** A page gets the first free frame. */
  lemma MapTakes(t: Table, pgn: nat, pool: seq<nat>)
    requires pgn < |t.marks| && pool != [] && Distinct(t) && NoDup(pool) && forall f: nat :: Holds(t, f) ==> f !in pool
    ensures Takes(t, Map(t, pgn, pool[0]), pool, pool[1..])
  {
    var t' := Map(t, pgn, pool[0]);
    assert FrameAt(t', pgn) == Some(pool[0]);
    forall e: nat | e != pgn
      ensures FrameAt(t', e) == FrameAt(t, e)
    {
    }
    forall e: nat | FrameAt(t, e).Some?
      ensures FrameAt(t, e).value !in pool
    {
      assert Holds(t, FrameAt(t, e).value);
    }
  }

  /** The victim's frame passes to page pgn within the process. */
  lemma ReplaceTakes(t: Table, pgn: nat, field: nat, pool: seq<nat>)
    requires PageInv(t) && t.fifo != [] && pgn < t.top && !t.marks[pgn].present
    requires Distinct(t) && NoDup(pool) && forall f: nat :: Holds(t, f) ==> f !in pool
    ensures t.fifo[|t.fifo| - 1] < t.top
    ensures Takes(t, Replace(t, pgn, field), pool, pool)
  {
    InFifo(t, |t.fifo| - 1);
    var v := t.fifo[|t.fifo| - 1];
    var t' := Replace(t, pgn, field);
    assert v != pgn;
    assert FrameAt(t', pgn) == FrameAt(t, v) && FrameAt(t', v) == None;
    forall e: nat | e != pgn && e != v
      ensures FrameAt(t', e) == FrameAt(t, e)
    {
    }
  }

  lemma AccessTakes(t: Table, pool: seq<nat>, swp: seq<nat>, pgn: nat, field: nat)
    requires PageInv(t) && pgn < t.top && Distinct(t) && NoDup(pool) && forall f: nat :: Holds(t, f) ==> f !in pool
    ensures Takes(t, Accessed(t, pool, swp, pgn, field), pool,
                  if FaultOf(t, pool, swp, pgn).TookFree? then pool[1..] else pool)
  {
    match FaultOf(t, pool, swp, pgn)
    case Hit => SameFrames(t, t, pool);
    case TookFree => MapTakes(t, pgn, pool);
    case NoVictim => SameFrames(t, t, pool);
    case NoSwap => SameFrames(t, Take(t), pool);
    case Evicted => ReplaceTakes(t, pgn, field, pool);
  }

  /** After a growth a page's frame is the one it had, or the one at its place in the pool. */
  lemma GrownFrame(t: Table, pool: seq<nat>, n: nat, e: nat)
    requires t.top + n <= |t.marks|
    ensures var t' := Grown(t, pool, n).0;
            FrameAt(t', e) == if t.top <= e < t.top + n && |pool| >= n then Some(pool[e - t.top]) else FrameAt(t, e)
  {
    if e < |t.marks| {
      GrownMarks(t, pool, n, e);
    } else {
      GrownSize(t, pool, n);
    }
  }

  lemma GrownSize(t: Table, pool: seq<nat>, n: nat)
    requires t.top + n <= |t.marks|
    ensures |Grown(t, pool, n).0.marks| == |t.marks|
  {
  }

  lemma GrownTakes(t: Table, pool: seq<nat>, n: nat)
    requires t.top + n <= |t.marks| && Distinct(t) && NoDup(pool) && forall f: nat :: Holds(t, f) ==> f !in pool
    ensures Takes(t, Grown(t, pool, n).0, pool, Grown(t, pool, n).1)
  {
    var (t', pool') := Grown(t, pool, n);
    if |pool| < n {
      LoseTakes(t, t', pool);
    } else {
      forall e: nat
        ensures FrameAt(t', e) == if t.top <= e < t.top + n then Some(pool[e - t.top]) else FrameAt(t, e)
      {
        GrownFrame(t, pool, n, e);
      }
      RunTakes(t, t', pool, n);
    }
  }

  lemma LoseTakes(t: Table, t': Table, pool: seq<nat>)
    requires t'.marks == t.marks && Distinct(t) && NoDup(pool) && forall f: nat :: Holds(t, f) ==> f !in pool
    ensures Takes(t, t', pool, [])
  {
    forall e: nat
      ensures FrameAt(t', e) == FrameAt(t, e)
    {
    }
  }

  /** Consecutive pages get the first n free frames. */
  lemma RunTakes(t: Table, t': Table, pool: seq<nat>, n: nat)
    requires Distinct(t) && NoDup(pool) && n <= |pool| && forall f: nat :: Holds(t, f) ==> f !in pool
    requires forall e: nat ::
               FrameAt(t', e) == if t.top <= e < t.top + n then Some(pool[e - t.top]) else FrameAt(t, e)
    ensures Takes(t, t', pool, pool[n..])
  {
    forall e: nat | FrameAt(t, e).Some?
      ensures FrameAt(t, e).value !in pool
    {
      assert Holds(t, FrameAt(t, e).value);
    }
  }

  // ---- No frame disappears, except when a growth fails ----

  /** Every frame that was held or free still is one or the other. */
  ghost predicate Kept(t: Table, t': Table, pool: seq<nat>, pool': seq<nat>) {
    forall f: nat :: Holds(t, f) || f in pool ==> Holds(t', f) || f in pool'
  }

  lemma HoldsAt(t: Table, e: nat, f: nat)
    requires FrameAt(t, e) == Some(f)
    ensures Holds(t, f)
  {
  }

  /** A growth loses frames exactly when there are some, but too few: then it loses them all. */
  lemma GrownKept(t: Table, pool: seq<nat>, n: nat)
    requires PageInv(t) && t.top + n <= |t.marks| && forall f: nat :: Holds(t, f) ==> f !in pool
    ensures Kept(t, Grown(t, pool, n).0, pool, Grown(t, pool, n).1) <==> n <= |pool| || pool == []
  {
    var (t', pool') := Grown(t, pool, n);
    if n <= |pool| {
      RunKept(t, pool, n);
    } else {
      forall e: nat
        ensures FrameAt(t', e) == FrameAt(t, e)
      {
        GrownFrame(t, pool, n, e);
      }
      if pool != [] {
        assert pool[0] in pool && !Holds(t, pool[0]);
      }
    }
  }

  lemma RunKept(t: Table, pool: seq<nat>, n: nat)
    requires PageInv(t) && t.top + n <= |t.marks| && n <= |pool|
    ensures Kept(t, Grown(t, pool, n).0, pool, pool[n..])
  {
    var t' := Grown(t, pool, n).0;
    forall f: nat | Holds(t, f)
      ensures Holds(t', f)
    {
      var e: nat :| FrameAt(t, e) == Some(f);
      ResidentBelow(t, e);
      GrownFrame(t, pool, n, e);
      HoldsAt(t', e, f);
    }
    forall i | 0 <= i < |pool|
      ensures Holds(t', pool[i]) || pool[i] in pool[n..]
    {
      if i < n {
        GrownFrame(t, pool, n, t.top + i);
        HoldsAt(t', t.top + i, pool[i]);
      } else {
        assert pool[n..][i - n] == pool[i];
      }
    }
  }

  lemma ResidentBelow(t: Table, e: nat)
    requires PageInv(t) && FrameAt(t, e).Some?
    ensures e < t.top
  {
    if e >= t.top {
      NothingAbove(t, e);
    }
  }

  lemma MapKept(t: Table, pgn: nat, pool: seq<nat>)
    requires pgn < |t.marks| && !t.marks[pgn].present && pool != []
    ensures Kept(t, Map(t, pgn, pool[0]), pool, pool[1..])
  {
    var t' := Map(t, pgn, pool[0]);
    HoldsAt(t', pgn, pool[0]);
    forall f: nat | Holds(t, f)
      ensures Holds(t', f)
    {
      var e: nat :| FrameAt(t, e) == Some(f);
      HoldsAt(t', e, f);
    }
  }

  lemma ReplaceKept(t: Table, pgn: nat, field: nat, pool: seq<nat>)
    requires PageInv(t) && t.fifo != [] && pgn < t.top && !t.marks[pgn].present
    ensures t.fifo[|t.fifo| - 1] < t.top
    ensures Kept(t, Replace(t, pgn, field), pool, pool)
  {
    InFifo(t, |t.fifo| - 1);
    var v := t.fifo[|t.fifo| - 1];
    var t' := Replace(t, pgn, field);
    HoldsAt(t', pgn, t.marks[v].frame);
    forall f: nat | Holds(t, f)
      ensures Holds(t', f)
    {
      var e: nat :| FrameAt(t, e) == Some(f);
      if e != v {
        HoldsAt(t', e, f);
      }
    }
  }

  lemma SameKept(t: Table, t': Table, pool: seq<nat>)
    requires t'.marks == t.marks
    ensures Kept(t, t', pool, pool)
  {
    forall f: nat | Holds(t, f)
      ensures Holds(t', f)
    {
      var e: nat :| FrameAt(t, e) == Some(f);
      HoldsAt(t', e, f);
    }
  }

  /** An access never loses a frame. */
  lemma AccessKept(t: Table, pool: seq<nat>, swp: seq<nat>, pgn: nat, field: nat)
    requires PageInv(t) && pgn < t.top
    ensures Kept(t, Accessed(t, pool, swp, pgn, field), pool,
                 if FaultOf(t, pool, swp, pgn).TookFree? then pool[1..] else pool)
  {
    match FaultOf(t, pool, swp, pgn)
    case Hit => SameKept(t, t, pool);
    case TookFree => MapKept(t, pgn, pool);
    case NoVictim => SameKept(t, t, pool);
    case NoSwap => SameKept(t, Take(t), pool);
    case Evicted => ReplaceKept(t, pgn, field, pool);
  }
}
