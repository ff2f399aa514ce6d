/** The multi-level queue policy of sched.c as a function of its state. */
module Mlqs {
  import opened Common
  import opened Queues

  const MAX_PRIO := 140

  /** Dispatches a level may receive before the scan has to move on. */
  function Slot(p: nat): nat
    requires p < MAX_PRIO
  {
    MAX_PRIO - p
  }

  /** `used` is current_slot and `cur` is current_prio. */
  datatype Mlq = Mlq(ready: seq<seq<Pcb>>, running: seq<Pcb>, used: seq<nat>, cur: nat) {
    predicate Wf() {
      && |ready| == MAX_PRIO && |used| == MAX_PRIO && cur < MAX_PRIO
      && forall p :: 0 <= p < MAX_PRIO ==> used[p] < Slot(p)
    }
  }

  function Zeros(): (z: seq<nat>)
    ensures |z| == MAX_PRIO && forall p :: 0 <= p < MAX_PRIO ==> z[p] == 0
  {
    seq(MAX_PRIO, i => 0)
  }

  function Empties(): (e: seq<seq<Pcb>>)
    ensures |e| == MAX_PRIO && forall p :: 0 <= p < MAX_PRIO ==> e[p] == []
  {
    seq(MAX_PRIO, i => [])
  }

  function Init(): (m: Mlq)
    ensures m.Wf()
  {
    Mlq(Empties(), [], Zeros(), 0)
  }

  /** The level that lies d places after `from` on the circle of levels. */
  function At(from: nat, d: nat): (p: nat)
    requires from < MAX_PRIO && d <= MAX_PRIO
    ensures p < MAX_PRIO
  {
    if from + d < MAX_PRIO then from + d else from + d - MAX_PRIO
  }

  /** How many places after `from` level p lies. */
  function Steps(from: nat, p: nat): (d: nat)
    requires from < MAX_PRIO && p < MAX_PRIO
    ensures d < MAX_PRIO && At(from, d) == p
  {
    if p >= from then p - from else p + MAX_PRIO - from
  }

  /** The least distance, from d on, at which a non-empty level lies; MAX_PRIO when there is none. */
  function Distance(ready: seq<seq<Pcb>>, from: nat, d: nat): (r: nat)
    requires |ready| == MAX_PRIO && from < MAX_PRIO && d <= MAX_PRIO
    ensures d <= r <= MAX_PRIO
    ensures r < MAX_PRIO ==> ready[At(from, r)] != []
    ensures forall k :: d <= k < r ==> ready[At(from, k)] == []
    decreases MAX_PRIO - d
  {
    if d == MAX_PRIO || ready[At(from, d)] != [] then d else Distance(ready, from, d + 1)
  }

  /** The level the next dispatch takes; MAX_PRIO when every queue is empty. */
  function Pick(m: Mlq): (q: nat)
    requires m.Wf()
    ensures q < MAX_PRIO ==> m.ready[q] != []
  {
    var d := Distance(m.ready, m.cur, 0);
    if d == MAX_PRIO then MAX_PRIO else At(m.cur, d)
  }

  /** The scan runs off level 139 before it finds work, which clears every slot counter. */
  predicate Crosses(m: Mlq)
    requires m.Wf()
  {
    m.cur + Distance(m.ready, m.cur, 0) >= MAX_PRIO
  }

  function Served(m: Mlq): Option<Pcb>
    requires m.Wf()
  {
    var q := Pick(m);
    if q == MAX_PRIO then None else Some(m.ready[q][0])
  }

  /** The dispatch of level q's first process, which may use up q's slots. */
  function Dispatched(m: Mlq, q: nat): (m': Mlq)
    requires m.Wf() && q < MAX_PRIO && m.ready[q] != []
    ensures m'.Wf()
  {
    var rest := m.ready[q := m.ready[q][1..]];
    var running := Enqueued(m.running, m.ready[q][0]);
    if m.used[q] + 1 >= Slot(q) then Mlq(rest, running, m.used[q := 0], (q + 1) % MAX_PRIO)
    else Mlq(rest, running, m.used[q := m.used[q] + 1], m.cur)
  }

  /** The state after the scan has moved on over d levels. */
  function ScannedOver(m: Mlq, d: nat): (m': Mlq)
    requires m.Wf()
    ensures m'.Wf()
  {
    if m.cur + d >= MAX_PRIO then m.(used := Zeros(), cur := 0) else m
  }

  /** One move of the scan: the level after place d, and what moving there does to the counters. */
  lemma ScanStep(m: Mlq, d: nat)
    requires m.Wf() && d < MAX_PRIO
    ensures (At(m.cur, d) + 1) % MAX_PRIO == At(m.cur, d + 1)
    ensures ScannedOver(m, d + 1)
         == if At(m.cur, d + 1) == 0 then m.(used := Zeros(), cur := 0) else ScannedOver(m, d)
  {
    var p := At(m.cur, d);
    assert (p + 1) % MAX_PRIO == if p == MAX_PRIO - 1 then 0 else p + 1;
  }

  /** The state in which the scan reaches its level. */
  function Scanned(m: Mlq): (m': Mlq)
    requires m.Wf()
    ensures m'.Wf()
  {
    ScannedOver(m, Distance(m.ready, m.cur, 0))
  }

  /** get_mlq_proc. */
  function Get(m: Mlq): (m': Mlq)
    requires m.Wf()
    ensures m'.Wf()
  {
    if Pick(m) == MAX_PRIO then Scanned(m) else Dispatched(Scanned(m), Pick(m))
  }

  /** add_mlq_proc: a priority past the last level is refused. */
  function Add(m: Mlq, p: Pcb): (m': Mlq)
    requires m.Wf()
    ensures m'.Wf()
  {
    if p.prio < MAX_PRIO then m.(ready := m.ready[p.prio := Enqueued(m.ready[p.prio], p)]) else m
  }

  /** finish_proc. */
  function Finish(m: Mlq, p: Pcb): (m': Mlq)
    requires m.Wf()
    ensures m'.Wf()
  {
    m.(running := Purged(m.running, p.pid))
  }

  /** put_mlq_proc. */
  function Put(m: Mlq, p: Pcb): (m': Mlq)
    requires m.Wf()
    ensures m'.Wf()
  {
    Add(Finish(m, p), p)
  }

  /** Work conservation: nothing is dispatched exactly when every queue is empty. */
  lemma WorkConserving(m: Mlq)
    requires m.Wf()
    ensures Served(m) == None <==> forall p :: 0 <= p < MAX_PRIO ==> m.ready[p] == []
  {
    var d := Distance(m.ready, m.cur, 0);
    forall p | 0 <= p < MAX_PRIO && d == MAX_PRIO
      ensures m.ready[p] == []
    {
      var _ := Steps(m.cur, p);
    }
  }

  /** No level that comes earlier in cyclic order from current_prio than the served one has work. */
  lemma ServesFirstInCyclicOrder(m: Mlq, p: nat)
    requires m.Wf() && Served(m).Some? && p < MAX_PRIO && m.ready[p] != []
    ensures Steps(m.cur, Pick(m)) <= Steps(m.cur, p)
    ensures Served(m) == Some(m.ready[Pick(m)][0])
  {
    var d := Distance(m.ready, m.cur, 0);
  }

  /** The first entry of this pid on levels l and up. */
  function LookupReady(ready: seq<seq<Pcb>>, l: nat, pid: nat): Option<Pcb>
    requires l <= |ready|
    decreases |ready| - l
  {
    if l == |ready| then None
    else
      var i := Find(ready[l], pid);
      if i < |ready[l]| then Some(ready[l][i]) else LookupReady(ready, l + 1, pid)
  }

  /** find_process_by_pid: the running list first, then the ready queues level by level. */
  function Lookup(m: Mlq, pid: nat): Option<Pcb> {
    var i := Find(m.running, pid);
    if i < |m.running| then Some(m.running[i]) else LookupReady(m.ready, 0, pid)
  }

  /** A lookup fails exactly when no queue and not the running list knows the pid. */
  lemma {:induction false} LookupReadyFinds(ready: seq<seq<Pcb>>, l: nat, pid: nat)
    requires l <= |ready|
    ensures LookupReady(ready, l, pid).None? <==>
              forall k, i :: l <= k < |ready| && 0 <= i < |ready[k]| ==> ready[k][i].pid != pid
    ensures LookupReady(ready, l, pid).Some? ==> LookupReady(ready, l, pid).value.pid == pid
    decreases |ready| - l
  {
    if l < |ready| {
      LookupReadyFinds(ready, l + 1, pid);
    }
  }

  lemma LookupFinds(m: Mlq, pid: nat)
    ensures Lookup(m, pid).None? <==>
              (forall i :: 0 <= i < |m.running| ==> m.running[i].pid != pid)
              && forall l, i :: 0 <= l < |m.ready| && 0 <= i < |m.ready[l]| ==> m.ready[l][i].pid != pid
    ensures Lookup(m, pid).Some? ==> Lookup(m, pid).value.pid == pid
  {
    LookupReadyFinds(m.ready, 0, pid);
  }
}
