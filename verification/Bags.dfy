/** Where processes are, counted with multiplicity. */
module Bags {
  import opened Common
  import opened Queues
  import opened Mlqs
  import opened Kernels

  /** Every process in some ready queue. */
  function ReadyBag(ready: seq<seq<Pcb>>): multiset<Pcb> {
    if ready == [] then multiset{} else multiset(ready[0]) + ReadyBag(ready[1..])
  }

  function Hand(v: Cpu): multiset<Pcb> {
    if v.proc.Some? then multiset{v.proc.value} else multiset{}
  }

  /** Every process in some CPU's hands. */
  function HeldBag(cpus: seq<Cpu>): multiset<Pcb> {
    if cpus == [] then multiset{} else Hand(cpus[0]) + HeldBag(cpus[1..])
  }

  /** CPUs between put_proc and the get_proc that follows it. */
  function PutCount(cpus: seq<Cpu>): nat {
    if cpus == [] then 0 else (if cpus[0].loc == AfterPut then 1 else 0) + PutCount(cpus[1..])
  }

  /** The first n processes of the configuration. */
  function LoadedBag(cfg: Config, n: nat): multiset<Pcb>
    requires n <= |cfg.jobs|
  {
    if n == 0 then multiset{} else LoadedBag(cfg, n - 1) + multiset{cfg.Pcb(n - 1)}
  }

  lemma AddBefore<T>(h: multiset<T>, r1: multiset<T>, o: multiset<T>, r: multiset<T>, n: multiset<T>)
    requires r1 + o == r + n
    ensures (h + r1) + o == (h + r) + n
  {
    assert h + (r1 + o) == (h + r1) + o;
    assert h + (r + n) == (h + r) + n;
  }

  lemma {:induction false} ReadyUpdate(ready: seq<seq<Pcb>>, l: nat, q: seq<Pcb>)
    requires l < |ready|
    ensures ReadyBag(ready[l := q]) + multiset(ready[l]) == ReadyBag(ready) + multiset(q)
    decreases |ready|
  {
    var r := ready[l := q];
    if l == 0 {
      assert r[1..] == ready[1..];
      assert ReadyBag(r) == multiset(q) + ReadyBag(ready[1..]);
    } else {
      assert r[1..] == ready[1..][l - 1 := q];
      ReadyUpdate(ready[1..], l - 1, q);
      AddBefore(multiset(ready[0]), ReadyBag(r[1..]), multiset(ready[l]), ReadyBag(ready[1..]), multiset(q));
    }
  }

  lemma {:induction false} ReadyHas(ready: seq<seq<Pcb>>, l: nat)
    requires l < |ready|
    ensures multiset(ready[l]) <= ReadyBag(ready)
    decreases |ready|
  {
    if l > 0 {
      ReadyHas(ready[1..], l - 1);
    }
  }

  lemma {:induction false} ReadyEmpty(ready: seq<seq<Pcb>>)
    requires forall l :: 0 <= l < |ready| ==> ready[l] == []
    ensures ReadyBag(ready) == multiset{}
    decreases |ready|
  {
    if ready != [] {
      ReadyEmpty(ready[1..]);
    }
  }

  lemma {:induction false} ReadyWhere(ready: seq<seq<Pcb>>, p: Pcb) returns (l: nat)
    requires p in ReadyBag(ready)
    ensures l < |ready| && p in ready[l]
    decreases |ready|
  {
    if p in multiset(ready[0]) {
      l := 0;
    } else {
      l := ReadyWhere(ready[1..], p);
      l := l + 1;
    }
  }

  lemma {:induction false} HeldUpdate(cpus: seq<Cpu>, c: nat, v: Cpu)
    requires c < |cpus|
    ensures HeldBag(cpus[c := v]) + Hand(cpus[c]) == HeldBag(cpus) + Hand(v)
    decreases |cpus|
  {
    var r := cpus[c := v];
    if c == 0 {
      assert r[1..] == cpus[1..];
      assert HeldBag(r) == Hand(v) + HeldBag(cpus[1..]);
    } else {
      assert r[1..] == cpus[1..][c - 1 := v];
      HeldUpdate(cpus[1..], c - 1, v);
      AddBefore(Hand(cpus[0]), HeldBag(r[1..]), Hand(cpus[c]), HeldBag(cpus[1..]), Hand(v));
    }
  }

  lemma {:induction false} HeldHas(cpus: seq<Cpu>, c: nat, p: Pcb)
    requires c < |cpus| && cpus[c].proc == Some(p)
    ensures HeldBag(cpus)[p] >= 1
    decreases |cpus|
  {
    if c > 0 {
      HeldHas(cpus[1..], c - 1, p);
    }
  }

  lemma {:induction false} HeldTwice(cpus: seq<Cpu>, c: nat, e: nat, p: Pcb)
    requires c < e < |cpus| && cpus[c].proc == cpus[e].proc == Some(p)
    ensures HeldBag(cpus)[p] >= 2
    decreases |cpus|
  {
    if c > 0 {
      HeldTwice(cpus[1..], c - 1, e - 1, p);
    } else {
      HeldHas(cpus[1..], e - 1, p);
    }
  }

  lemma {:induction false} HeldWhere(cpus: seq<Cpu>, p: Pcb) returns (c: nat)
    requires p in HeldBag(cpus)
    ensures c < |cpus| && cpus[c].proc == Some(p)
    decreases |cpus|
  {
    if p in Hand(cpus[0]) {
      c := 0;
    } else {
      c := HeldWhere(cpus[1..], p);
      c := c + 1;
    }
  }

  lemma {:induction false} HeldEmpty(cpus: seq<Cpu>)
    requires forall c :: 0 <= c < |cpus| ==> cpus[c].proc.None?
    ensures HeldBag(cpus) == multiset{}
    decreases |cpus|
  {
    if cpus != [] {
      HeldEmpty(cpus[1..]);
    }
  }

  lemma {:induction false} PutUpdate(cpus: seq<Cpu>, c: nat, v: Cpu)
    requires c < |cpus|
    ensures PutCount(cpus[c := v]) + (if cpus[c].loc == AfterPut then 1 else 0)
         == PutCount(cpus) + (if v.loc == AfterPut then 1 else 0)
    decreases |cpus|
  {
    var r := cpus[c := v];
    if c == 0 {
      assert r[1..] == cpus[1..];
    } else {
      assert r[1..] == cpus[1..][c - 1 := v];
      PutUpdate(cpus[1..], c - 1, v);
    }
  }

  lemma {:induction false} PutNone(cpus: seq<Cpu>)
    requires forall c :: 0 <= c < |cpus| ==> cpus[c].loc != AfterPut
    ensures PutCount(cpus) == 0
    decreases |cpus|
  {
    if cpus != [] {
      PutNone(cpus[1..]);
    }
  }

  /** A loaded process is counted once, and it is the one of its pid. */
  lemma {:induction false} LoadedOnce(cfg: Config, n: nat, p: Pcb)
    requires n <= |cfg.jobs|
    ensures LoadedBag(cfg, n)[p] == if cfg.Known(p) && p.pid <= n then 1 else 0
    ensures |LoadedBag(cfg, n)| == n
    decreases n
  {
    if n > 0 {
      LoadedOnce(cfg, n - 1, p);
    }
  }

  // ---- What the scheduler's operations move ----

  /** Each queue holds processes of its own priority. */
  predicate OwnLevels(m: Mlq)
    requires m.Wf()
  {
    forall l, i :: 0 <= l < MAX_PRIO && 0 <= i < |m.ready[l]| ==> m.ready[l][i].prio == l
  }

  lemma Cancel<T>(r1: multiset<T>, a: multiset<T>, r: multiset<T>, p: multiset<T>)
    requires r1 + a == r + (a + p)
    ensures r1 == r + p
  {
    forall x
      ensures r1[x] == (r + p)[x]
    {
      assert (r1 + a)[x] == (r + (a + p))[x];
    }
  }

  lemma CancelFrom<T>(r1: multiset<T>, a: multiset<T>, r: multiset<T>, p: multiset<T>)
    requires r1 + (p + a) == r + a
    ensures r1 + p == r
  {
    forall x
      ensures (r1 + p)[x] == r[x]
    {
      assert (r1 + (p + a))[x] == (r + a)[x];
    }
  }

  /** Taking the head off a queue. */
  lemma HeadBag(ready: seq<seq<Pcb>>, q: nat)
    requires q < |ready| && ready[q] != []
    ensures ReadyBag(ready) == ReadyBag(ready[q := ready[q][1..]]) + multiset{ready[q][0]}
  {
    var p, rest := ready[q][0], ready[q][1..];
    assert ready[q] == [p] + rest;
    ReadyUpdate(ready, q, rest);
    assert multiset(ready[q]) == multiset{p} + multiset(rest);
    CancelFrom(ReadyBag(ready[q := rest]), multiset(rest), ReadyBag(ready), multiset{p});
  }

  /** A dispatch takes one process out of the ready queues. */
  lemma GetBag(m: Mlq)
    requires m.Wf()
    ensures Served(m).None? ==>
              ReadyBag(m.ready) == multiset{} && Get(m).ready == m.ready && Get(m).running == m.running
    ensures Served(m).Some? ==>
              && ReadyBag(m.ready) == ReadyBag(Get(m).ready) + multiset{Served(m).value}
              && Get(m).running == Enqueued(m.running, Served(m).value)
    ensures OwnLevels(m) ==> OwnLevels(Get(m))
  {
    GetLists(m);
    var q := Pick(m);
    if q == MAX_PRIO {
      WorkConserving(m);
      ReadyEmpty(m.ready);
    } else {
      HeadBag(m.ready, q);
      HeadLevels(m, Get(m), q);
    }
  }

  /** What a dispatch does to the ready queues and the running list. */
  lemma GetLists(m: Mlq)
    requires m.Wf()
    ensures Pick(m) == MAX_PRIO ==> Get(m).ready == m.ready && Get(m).running == m.running
    ensures Pick(m) < MAX_PRIO ==>
              && Get(m).ready == m.ready[Pick(m) := m.ready[Pick(m)][1..]]
              && Get(m).running == Enqueued(m.running, m.ready[Pick(m)][0])
  {
  }

  lemma HeadLevels(m: Mlq, m1: Mlq, q: nat)
    requires m.Wf() && m1.Wf() && q < MAX_PRIO && m.ready[q] != [] && m1.ready == m.ready[q := m.ready[q][1..]]
    ensures OwnLevels(m) ==> OwnLevels(m1)
  {
  }

  /** add_proc on a queue with room. */
  lemma AddBag(m: Mlq, p: Pcb)
    requires m.Wf() && p.prio < MAX_PRIO && |m.ready[p.prio]| < MAX_QUEUE_SIZE
    ensures ReadyBag(Add(m, p).ready) == ReadyBag(m.ready) + multiset{p}
  {
    var q := m.ready[p.prio];
    ReadyUpdate(m.ready, p.prio, q + [p]);
    assert multiset(q + [p]) == multiset(q) + multiset{p};
    Cancel(ReadyBag(m.ready[p.prio := q + [p]]), multiset(q), ReadyBag(m.ready), multiset{p});
  }

  lemma AddLevels(m: Mlq, p: Pcb)
    requires m.Wf() && OwnLevels(m)
    ensures OwnLevels(Add(m, p))
  {
  }

  /** add_proc loses the process exactly when its queue is full or its priority is past the last level. */
  lemma AddLosesExactlyWhenFull(m: Mlq, p: Pcb)
    requires m.Wf()
    ensures ReadyBag(Add(m, p).ready) == ReadyBag(m.ready) + multiset{p}
        <==> p.prio < MAX_PRIO && |m.ready[p.prio]| < MAX_QUEUE_SIZE
  {
    if p.prio < MAX_PRIO && |m.ready[p.prio]| < MAX_QUEUE_SIZE {
      AddBag(m, p);
    } else {
      assert Add(m, p).ready == m.ready;
      assert (ReadyBag(m.ready) + multiset{p})[p] == ReadyBag(m.ready)[p] + 1;
    }
  }
}
