/** What each scheduler call does, level by level and entry by entry, in the numbers of the source. */
module Policy {
  import opened Common
  import opened Queues
  import opened Mlqs

  /** init_scheduler. */
  lemma InitExactly()
    ensures Init().running == [] && Init().cur == 0 && |Init().ready| == |Init().used| == 140
    ensures forall p :: 0 <= p < 140 ==> Init().ready[p] == [] && Init().used[p] == 0 && Slot(p) == 140 - p
  {
  }

  /** No level before q, in cyclic order from level `from`, has work. */
  predicate NothingBefore(ready: seq<seq<Pcb>>, from: nat, q: nat)
    requires |ready| == 140 && from < 140 && q < 140
  {
    if from <= q then forall p :: from <= p < q ==> ready[p] == []
    else forall p :: 0 <= p < 140 && (from <= p || p < q) ==> ready[p] == []
  }

  /** How far the scan goes. */
  lemma ScanEnds(ready: seq<seq<Pcb>>, from: nat, q: nat)
    requires |ready| == 140 && from < 140 && q < 140 && ready[q] != [] && NothingBefore(ready, from, q)
    ensures Distance(ready, from, 0) == if from <= q then q - from else q + 140 - from
  {
    var s := Steps(from, q);
    forall k | 0 <= k < s
      ensures ready[At(from, k)] == []
    {
    }
    assert ready[At(from, s)] != [];
  }

  /** A call that finds every queue empty clears all counters and starts the next scan at level 0. */
  lemma EmptyGet(m: Mlq)
    requires m.Wf() && forall p :: 0 <= p < 140 ==> m.ready[p] == []
    ensures Served(m) == None
    ensures var m' := Get(m);
            && m'.ready == m.ready && m'.running == m.running && m'.cur == 0
            && |m'.used| == 140 && forall p :: 0 <= p < 140 ==> m'.used[p] == 0
  {
    WorkConserving(m);
  }

  /** The entry joins a queue of up to 50. */
  function Joined(s: seq<Pcb>, p: Pcb): seq<Pcb> {
    if |s| < 50 then s + [p] else s
  }

  /** What a dispatch of level q leaves: all of it, with and without a wrap, also of level 139. */
  predicate DispatchOf(m: Mlq, m': Mlq, q: nat)
    requires m.Wf() && m'.Wf() && q < 140 && m.ready[q] != []
  {
    var wrapped := q < m.cur;
    var turn := (if wrapped then 0 else m.used[q]) + 1;
    var last := turn == 140 - q;
    && m'.ready[q] == m.ready[q][1..] && (forall p :: 0 <= p < 140 && p != q ==> m'.ready[p] == m.ready[p])
    && m'.running == Joined(m.running, m.ready[q][0])
    && m'.used[q] == (if last then 0 else turn)
    && (forall p :: 0 <= p < 140 && p != q ==> m'.used[p] == if wrapped then 0 else m.used[p])
    && m'.cur == if last then (if q == 139 then 0 else q + 1) else if wrapped then 0 else m.cur
  }

  /** get_mlq_proc on the level q that comes first in cyclic order. */
  lemma GetExactly(m: Mlq, q: nat)
    requires m.Wf() && q < 140 && m.ready[q] != [] && NothingBefore(m.ready, m.cur, q)
    ensures Served(m) == Some(m.ready[q][0]) && DispatchOf(m, Get(m), q)
  {
    ScanEnds(m.ready, m.cur, q);
    assert Pick(m) == q;
    DispatchedExactly(m, q);
  }

  /** There is such a level unless all queues are empty. */
  lemma FirstLevel(m: Mlq, p: nat) returns (q: nat)
    requires m.Wf() && p < 140 && m.ready[p] != []
    ensures q < 140 && m.ready[q] != [] && NothingBefore(m.ready, m.cur, q)
  {
    WorkConserving(m);
    q := Pick(m);
    forall l | 0 <= l < 140 && Steps(m.cur, l) < Steps(m.cur, q)
      ensures m.ready[l] == []
    {
      if m.ready[l] != [] {
        ServesFirstInCyclicOrder(m, l);
      }
    }
    assert forall l :: 0 <= l < 140 && Steps(m.cur, l) < Steps(m.cur, q) ==> m.ready[l] == [];
    forall l | 0 <= l < 140 && (if m.cur <= q then m.cur <= l < q else m.cur <= l || l < q)
      ensures m.ready[l] == []
    {
      assert Steps(m.cur, l) < Steps(m.cur, q);
    }
  }

  lemma DispatchedExactly(m: Mlq, q: nat)
    requires m.Wf() && q < 140 && m.ready[q] != []
    ensures DispatchOf(m, Dispatched(if q < m.cur then m.(used := Zeros(), cur := 0) else m, q), q)
  {
  }

  /** add_mlq_proc: the process comes last in the queue of its priority, if that has room, and nothing else changes. */
  lemma AddExactly(m: Mlq, p: Pcb)
    requires m.Wf()
    ensures var m' := Add(m, p);
            && m'.running == m.running && m'.used == m.used && m'.cur == m.cur && |m'.ready| == 140
            && forall l :: 0 <= l < 140 ==> m'.ready[l] == if l == p.prio then Joined(m.ready[l], p) else m.ready[l]
  {
  }

  /** The list without its entry i. */
  function Without(s: seq<Pcb>, i: nat): seq<Pcb>
    requires i < |s|
  {
    s[..i] + s[i + 1..]
  }

  /** finish_proc: the first entry with the pid leaves the running list, the others keep their order. */
  lemma FinishExactly(m: Mlq, p: Pcb, i: nat)
    requires m.Wf() && i <= |m.running| && (i < |m.running| ==> m.running[i].pid == p.pid)
    requires forall j :: 0 <= j < i ==> m.running[j].pid != p.pid
    ensures Finish(m, p) == m.(running := if i == |m.running| then m.running else Without(m.running, i))
  {
    assert Find(m.running, p.pid) == i;
  }

  /** put_mlq_proc: out of the running list, and last in the queue of its priority. */
  lemma PutExactly(m: Mlq, p: Pcb, i: nat)
    requires m.Wf() && i <= |m.running| && (i < |m.running| ==> m.running[i].pid == p.pid)
    requires forall j :: 0 <= j < i ==> m.running[j].pid != p.pid
    ensures var m' := Put(m, p);
            && m'.running == (if i == |m.running| then m.running else Without(m.running, i))
            && m'.used == m.used && m'.cur == m.cur && |m'.ready| == 140
            && forall l :: 0 <= l < 140 ==> m'.ready[l] == if l == p.prio then Joined(m.ready[l], p) else m.ready[l]
  {
    FinishExactly(m, p, i);
    AddExactly(Finish(m, p), p);
  }

  /** find_process_by_pid prefers the running list, and in each list the first entry. */
  lemma LookupRunning(m: Mlq, pid: nat, i: nat)
    requires i < |m.running| && m.running[i].pid == pid && forall j :: 0 <= j < i ==> m.running[j].pid != pid
    ensures Lookup(m, pid) == Some(m.running[i])
  {
    assert Find(m.running, pid) == i;
  }

  /** Then the lowest level, and there the first entry. */
  lemma {:induction false} LookupQueued(ready: seq<seq<Pcb>>, l: nat, k: nat, i: nat, pid: nat)
    requires l <= k < |ready| && i < |ready[k]| && ready[k][i].pid == pid
    requires forall j :: 0 <= j < i ==> ready[k][j].pid != pid
    requires forall n, j :: l <= n < k && 0 <= j < |ready[n]| ==> ready[n][j].pid != pid
    ensures LookupReady(ready, l, pid) == Some(ready[k][i])
    decreases |ready| - l
  {
    if l < k {
      LookupQueued(ready, l + 1, k, i, pid);
    } else {
      assert Find(ready[k], pid) == i;
    }
  }

  lemma LookupReadyFirst(m: Mlq, pid: nat, k: nat, i: nat)
    requires forall j :: 0 <= j < |m.running| ==> m.running[j].pid != pid
    requires k < |m.ready| && i < |m.ready[k]| && m.ready[k][i].pid == pid
    requires forall j :: 0 <= j < i ==> m.ready[k][j].pid != pid
    requires forall n, j :: 0 <= n < k && 0 <= j < |m.ready[n]| ==> m.ready[n][j].pid != pid
    ensures Lookup(m, pid) == Some(m.ready[k][i])
  {
    LookupQueued(m.ready, 0, k, i, pid);
  }
}
