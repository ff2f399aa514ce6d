/** The scheduler of sched.c over its static arrays, refining the policy of Mlqs. */
module Schedulers {
  import opened Common
  import opened Queues
  import opened Mlqs

  class Scheduler {
    const ready: seq<Queue>
    const running: Queue
    const slot: array<int>
    const used: array<int>
    var cur: int
    /** The abstract state that the arrays hold. */
    ghost var m: Mlq

    ghost function Repr(): set<object>
    {
      {this, used, running, running.proc}
      + (set p | 0 <= p < |ready| :: ready[p] as object)
      + (set p | 0 <= p < |ready| :: ready[p].proc as object)
    }

    /** No two queues share an object, and no array serves two purposes. */
    ghost predicate Separate()
    {
      && |ready| == MAX_PRIO
      && slot.Length == MAX_PRIO && used.Length == MAX_PRIO && slot != used
      && (forall p, q :: 0 <= p < q < MAX_PRIO ==> ready[p] != ready[q] && ready[p].proc != ready[q].proc)
      && (forall p :: 0 <= p < MAX_PRIO ==> ready[p] != running && ready[p].proc != running.proc)
    }

    ghost predicate Valid()
      reads this, slot, Repr()
    {
      && Separate() && m.Wf() && running.Valid()
      && running.Contents() == m.running
      && (forall p :: 0 <= p < MAX_PRIO ==> ready[p].Valid() && ready[p].Contents() == m.ready[p])
      && (forall p :: 0 <= p < MAX_PRIO ==> slot[p] == Slot(p) && used[p] == m.used[p])
      && cur == m.cur
    }

    constructor ()
      ensures Valid() && m == Init()
      ensures fresh(Repr()) && fresh(slot)
    {
      var qs: seq<Queue> := [];
      var i := 0;
      while i < MAX_PRIO
        invariant 0 <= i <= MAX_PRIO && |qs| == i
        invariant forall p :: 0 <= p < i ==>
                    fresh(qs[p]) && fresh(qs[p].proc) && qs[p].Valid() && qs[p].Contents() == []
        invariant forall p, q :: 0 <= p < q < i ==> qs[p] != qs[q] && qs[p].proc != qs[q].proc
      {
        var q := new Queue();
        qs := qs + [q];
        i := i + 1;
      }
      var r := new Queue();
      ready, running := qs, r;
      slot := new int[MAX_PRIO](p requires 0 <= p < MAX_PRIO => MAX_PRIO - p);
      used := new int[MAX_PRIO](p => 0);
      cur := 0;
      m := Init();
    }

    /** The scan runs off the last level. */
    method Wrap()
      requires Valid()
      modifies used, this`m, this`cur
      ensures Valid() && m == old(m).(used := Zeros(), cur := 0)
    {
      var i := 0;
      while i < MAX_PRIO
        invariant 0 <= i <= MAX_PRIO
        invariant forall p :: 0 <= p < i ==> used[p] == 0
        modifies used
      {
        used[i] := 0;
        i := i + 1;
      }
      cur := 0;
      m := m.(used := Zeros(), cur := 0);
    }

    method Dispatch(prio: int) returns (proc: Option<Pcb>)
      requires Valid() && 0 <= prio < MAX_PRIO && m.ready[prio] != []
      modifies Repr()
      ensures Valid() && m == Dispatched(old(m), prio) && proc == Some(old(m).ready[prio][0])
    {
      proc := ready[prio].Dequeue();
      used[prio] := used[prio] + 1;
      running.Enqueue(proc.value);
      if used[prio] >= slot[prio] {
        used[prio] := 0;
        cur := (prio + 1) % MAX_PRIO;
      }
      m := Dispatched(m, prio);
    }

    /** The scan moves from the level d places on to the next one. */
    method NextLevel(prio: int, ghost start: Mlq, ghost d: nat) returns (next: int)
      requires Valid() && start.Wf() && d < MAX_PRIO
      requires prio == At(start.cur, d) && m == ScannedOver(start, d)
      modifies used, this`m, this`cur
      ensures Valid() && next == At(start.cur, d + 1) && m == ScannedOver(start, d + 1)
    {
      ScanStep(start, d);
      next := (prio + 1) % MAX_PRIO;
      if next == 0 {
        Wrap();
      }
    }

    method HasTurn(prio: int) returns (b: bool)
      requires Valid() && 0 <= prio < MAX_PRIO
      ensures b <==> m.ready[prio] != []
    {
      var none := ready[prio].Empty();
      b := !none && used[prio] < slot[prio];
    }

    /** The scan of get_mlq_proc: where the next dispatch comes from, if anywhere. */
    method ScanLevels() returns (prio: int, found: bool)
      requires Valid()
      modifies used, this`m, this`cur
      ensures Valid() && m == Scanned(old(m))
      ensures found <==> Pick(old(m)) < MAX_PRIO
      ensures found ==> prio == Pick(old(m))
    {
      prio := cur;
      var attempts := 0;
      ghost var d := Distance(m.ready, m.cur, 0);
      while attempts < MAX_PRIO
        invariant 0 <= attempts <= d
        invariant prio == At(old(m).cur, attempts)
        invariant Valid()
        invariant m == ScannedOver(old(m), attempts)
      {
        found := HasTurn(prio);
        if found {
          return;
        }
        assert attempts != d;
        prio := NextLevel(prio, old(m), attempts);
        attempts := attempts + 1;
      }
      found := false;
    }

    method GetMlqProc() returns (proc: Option<Pcb>)
      requires Valid()
      modifies Repr()
      ensures Valid() && m == Get(old(m)) && proc == Served(old(m))
    {
      var prio, found := ScanLevels();
      if !found {
        return None;
      }
      proc := Dispatch(prio);
    }

    method AddMlqProc(p: Pcb)
      requires Valid()
      modifies Repr()
      ensures Valid() && m == Add(old(m), p)
    {
      if p.prio < MAX_PRIO {
        ready[p.prio].Enqueue(p);
      }
      m := Add(m, p);
    }

    method FinishProc(p: Pcb)
      requires Valid()
      modifies Repr()
      ensures Valid() && m == Finish(old(m), p)
    {
      var _ := running.Purge(p);
      m := Finish(m, p);
    }

    method PutMlqProc(p: Pcb)
      requires Valid()
      modifies Repr()
      ensures Valid() && m == Put(old(m), p)
    {
      FinishProc(p);
      AddMlqProc(p);
    }

    method FindProcessByPid(pid: nat) returns (r: Option<Pcb>)
      requires Valid()
      ensures r == Lookup(m, pid)
    {
      var i := running.IndexOf(pid);
      if i < running.size {
        return Some(running.proc[i]);
      }
      var prio := 0;
      while prio < MAX_PRIO
        invariant 0 <= prio <= MAX_PRIO
        invariant LookupReady(m.ready, 0, pid) == LookupReady(m.ready, prio, pid)
      {
        i := ready[prio].IndexOf(pid);
        if i < ready[prio].size {
          return Some(ready[prio].proc[i]);
        }
        prio := prio + 1;
      }
      r := None;
    }
  }
}
