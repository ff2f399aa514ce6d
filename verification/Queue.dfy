/** The bounded process queue of queue.c: a 50-entry array and a size. */
module Queues {
  import opened Common

  const MAX_QUEUE_SIZE := 50

  /** What the scheduler reads of a process control block. */
  datatype Pcb = Pcb(pid: nat, prio: nat)

  /** enqueue: a full queue drops the process. */
  function Enqueued(q: seq<Pcb>, p: Pcb): seq<Pcb> {
    if |q| >= MAX_QUEUE_SIZE then q else q + [p]
  }

  /** Position of the first entry with this pid, |q| when there is none. */
  function Find(q: seq<Pcb>, pid: nat): (i: nat)
    ensures i <= |q|
    ensures i < |q| ==> q[i].pid == pid
    ensures forall j :: 0 <= j < i ==> q[j].pid != pid
  {
    if q == [] || q[0].pid == pid then 0 else 1 + Find(q[1..], pid)
  }

  /** The queue without its first entry of this pid. */
  function Purged(q: seq<Pcb>, pid: nat): seq<Pcb> {
    var i := Find(q, pid);
    if i == |q| then q else q[..i] + q[i + 1..]
  }

  /** Purging removes exactly one copy of an entry whose pid no other entry has. */
  lemma PurgedBag(q: seq<Pcb>, p: Pcb)
    requires p in q
    requires forall x :: x in q && x.pid == p.pid ==> x == p
    ensures multiset(Purged(q, p.pid)) == multiset(q) - multiset{p}
    ensures |Purged(q, p.pid)| == |q| - 1
  {
    var i := Find(q, p.pid);
    assert i < |q| && q[i] in q;
    assert q == q[..i] + [q[i]] + q[i + 1..];
  }

  class Queue {
    const proc: array<Pcb>
    var size: nat

    ghost predicate Valid()
      reads this
    {
      proc.Length == MAX_QUEUE_SIZE && size <= MAX_QUEUE_SIZE
    }

    ghost function Contents(): (s: seq<Pcb>)
      requires Valid()
      reads this, proc
    {
      proc[..size]
    }

    constructor ()
      ensures Valid() && Contents() == [] && fresh(proc)
    {
      proc := new Pcb[MAX_QUEUE_SIZE](i => Pcb(0, 0));
      size := 0;
    }

    method Empty() returns (b: bool)
      requires Valid()
      ensures b <==> Contents() == []
    {
      b := size == 0;
    }

    method Enqueue(p: Pcb)
      requires Valid()
      modifies this, proc
      ensures Valid() && Contents() == Enqueued(old(Contents()), p)
    {
      if size >= MAX_QUEUE_SIZE {
        return;
      }
      proc[size] := p;
      size := size + 1;
    }

    /** The search loop shared by purgequeue and find_process_by_pid. */
    method IndexOf(pid: nat) returns (i: nat)
      requires Valid()
      ensures i == Find(Contents(), pid)
    {
      i := 0;
      while i < size
        invariant 0 <= i <= size
        invariant forall k :: 0 <= k < i ==> proc[k].pid != pid
      {
        if proc[i].pid == pid {
          return;
        }
        i := i + 1;
      }
    }

    /** Moves every entry after `from` one place to the front and shrinks the queue. */
    method CloseGap(from: nat)
      requires Valid() && from < size
      modifies this, proc
      ensures Valid() && Contents() == old(Contents())[..from] + old(Contents())[from + 1..]
    {
      var i := from;
      while i < size - 1
        invariant from <= i <= size - 1 && size == old(size)
        invariant forall k :: 0 <= k < from ==> proc[k] == old(proc[k])
        invariant forall k :: from <= k < i ==> proc[k] == old(proc[k + 1])
        invariant forall k :: i < k < size ==> proc[k] == old(proc[k])
      {
        proc[i] := proc[i + 1];
        i := i + 1;
      }
      size := size - 1;
    }

    method Dequeue() returns (r: Option<Pcb>)
      requires Valid()
      modifies this, proc
      ensures Valid()
      ensures old(Contents()) == [] ==> r == None && Contents() == []
      ensures old(Contents()) != [] ==> r == Some(old(Contents())[0]) && Contents() == old(Contents())[1..]
    {
      if size == 0 {
        return None;
      }
      r := Some(proc[0]);
      CloseGap(0);
    }

    method Purge(p: Pcb) returns (r: Option<Pcb>)
      requires Valid()
      modifies this, proc
      ensures Valid() && Contents() == Purged(old(Contents()), p.pid)
      ensures r == (var i := Find(old(Contents()), p.pid);
                    if i == |old(Contents())| then None else Some(old(Contents())[i]))
    {
      var i := IndexOf(p.pid);
      if i == size {
        return None;
      }
      r := Some(proc[i]);
      CloseGap(i);
    }
  }
}
