/** What every run of the simulator's threads guarantees. */
module OsTheorems {
  import opened Common
  import opened Queues
  import opened Mlqs
  import opened Kernels
  import opened Bags
  import B = Barriers
  import F = Fairness
  import O = Ownership
  import S = Stranded
  import P = Programs

  // ---- Ownership ----

  predicate Queued(k: Kernel, p: Pcb)
    requires k.mlq.Wf()
  {
    exists l :: 0 <= l < MAX_PRIO && p in k.mlq.ready[l]
  }

  predicate Holds(k: Kernel, c: nat, p: Pcb) {
    c < |k.cpus| && k.cpus[c].proc == Some(p)
  }

  ghost predicate Held(k: Kernel, p: Pcb) {
    exists c :: Holds(k, c, p)
  }

  lemma QueuedIsReady(k: Kernel, p: Pcb)
    requires k.mlq.Wf()
    ensures Queued(k, p) <==> ReadyBag(k.mlq.ready)[p] >= 1
  {
    if Queued(k, p) {
      var l :| 0 <= l < MAX_PRIO && p in k.mlq.ready[l];
      ReadyHas(k.mlq.ready, l);
      assert p in multiset(k.mlq.ready[l]);
    }
    if p in ReadyBag(k.mlq.ready) {
      var l := ReadyWhere(k.mlq.ready, p);
    }
  }

  lemma HeldIsInHand(k: Kernel, p: Pcb)
    ensures Held(k, p) <==> HeldBag(k.cpus)[p] >= 1
  {
    if Held(k, p) {
      var c :| Holds(k, c, p);
      HeldHas(k.cpus, c, p);
    }
    if p in HeldBag(k.cpus) {
      var c := HeldWhere(k.cpus, p);
      assert Holds(k, c, p);
    }
  }

  /**
   * At every moment a process that has been loaded is queued, held by a CPU, or finished, and only one
   * of these; a process that has not been loaded is nowhere. The running list is what the CPUs hold.
   */
  lemma ExactlyOnePlace(cfg: Config, ks: seq<Kernel>, acts: seq<Act>, i: nat, p: Pcb)
    requires cfg.Ok() && IsRun(cfg, ks, acts) && i < |ks|
    ensures ks[i].mlq.Wf()
    ensures (if Queued(ks[i], p) then 1 else 0) + (if Held(ks[i], p) then 1 else 0)
            + (if p in ks[i].finished then 1 else 0)
         == if cfg.Known(p) && p.pid <= ks[i].ldr.next then 1 else 0
    ensures p in ks[i].mlq.running <==> Held(ks[i], p)
  {
    O.RunInv(cfg, ks, acts, i);
    var k := ks[i];
    QueuedIsReady(k, p);
    HeldIsInHand(k, p);
    LoadedOnce(cfg, k.ldr.next, p);
    assert (ReadyBag(k.mlq.ready) + HeldBag(k.cpus) + k.finished)[p] == LoadedBag(cfg, k.ldr.next)[p];
    assert p in k.mlq.running <==> p in multiset(k.mlq.running);
  }

  /** No two CPUs hold one process, and a queue holds its own priority and no process twice. */
  lemma NoDuplicates(cfg: Config, ks: seq<Kernel>, acts: seq<Act>, i: nat, p: Pcb)
    requires cfg.Ok() && IsRun(cfg, ks, acts) && i < |ks|
    ensures forall c, e :: Holds(ks[i], c, p) && Holds(ks[i], e, p) ==> c == e
    ensures ks[i].mlq.Wf() && forall l :: 0 <= l < MAX_PRIO ==>
              multiset(ks[i].mlq.ready[l])[p] <= (if l == p.prio then 1 else 0)
    ensures multiset(ks[i].mlq.running)[p] <= 1
  {
    O.RunInv(cfg, ks, acts, i);
    var k := ks[i];
    LoadedOnce(cfg, k.ldr.next, p);
    assert (ReadyBag(k.mlq.ready) + HeldBag(k.cpus) + k.finished)[p] == LoadedBag(cfg, k.ldr.next)[p];
    forall c, e | Holds(k, c, p) && Holds(k, e, p)
      ensures c == e
    {
      if c < e {
        HeldTwice(k.cpus, c, e, p);
      } else if e < c {
        HeldTwice(k.cpus, e, c, p);
      }
    }
    forall l | 0 <= l < MAX_PRIO
      ensures multiset(k.mlq.ready[l])[p] <= if l == p.prio then 1 else 0
    {
      ReadyHas(k.mlq.ready, l);
      if l != p.prio {
        assert p !in k.mlq.ready[l];
      }
    }
  }

  /** A memory system call of a running process resolves its pid to that very process. */
  lemma SelfLookup(cfg: Config, ks: seq<Kernel>, acts: seq<Act>, i: nat, c: nat)
    requires cfg.Ok() && IsRun(cfg, ks, acts) && i < |ks| && c < |ks[i].cpus| && ks[i].cpus[c].loc == Run
    ensures ks[i].cpus[c].proc.Some?
    ensures Lookup(ks[i].mlq, ks[i].cpus[c].proc.value.pid) == ks[i].cpus[c].proc
  {
    O.RunInv(cfg, ks, acts, i);
    var k := ks[i];
    assert O.Shape(k, c);
    var p := k.cpus[c].proc.value;
    O.HeldIsRunning(cfg, k, c, p);
    var j := Find(k.mlq.running, p.pid);
    assert j < |k.mlq.running| && k.mlq.running[j] in k.mlq.running;
  }

  // ---- Shutdown ----

  /** When all CPUs have stopped, every process of the configuration has been loaded and run to its end. */
  lemma NoProcessStranded(cfg: Config, ks: seq<Kernel>, acts: seq<Act>, i: nat)
    requires cfg.Ok() && IsRun(cfg, ks, acts) && i < |ks| && |ks[i].bar.devs| == |ks[i].cpus| + 1
    requires forall c :: 0 <= c < |ks[i].cpus| ==> !S.Present(ks[i], c)
    ensures ks[i].ldr.done && ks[i].finished == LoadedBag(cfg, |cfg.jobs|)
    ensures |ks[i].pc| == |cfg.jobs| && forall j :: 0 <= j < |cfg.jobs| ==>
              ks[i].pc[j] == |cfg.jobs[j].code| && P.Executed(ks[i].log, j + 1) == cfg.jobs[j].code
  {
    S.RunInv(cfg, ks, acts, i);
    P.RunInv(cfg, ks, acts, i);
    S.AllGone(cfg, ks[i]);
    S.QuitMeansDone(cfg, ks[i]);
    AllFinished(cfg, ks[i]);
  }

  lemma AllFinished(cfg: Config, k: Kernel)
    requires P.Inv(cfg, k) && k.ldr.next == |cfg.jobs|
    requires ReadyBag(k.mlq.ready) == multiset{} && HeldBag(k.cpus) == multiset{}
    ensures k.finished == LoadedBag(cfg, |cfg.jobs|)
    ensures forall j :: 0 <= j < |cfg.jobs| ==>
              k.pc[j] == |cfg.jobs[j].code| && P.Executed(k.log, j + 1) == cfg.jobs[j].code
  {
    OnlyFinished(ReadyBag(k.mlq.ready), HeldBag(k.cpus), k.finished);
    forall j | 0 <= j < |cfg.jobs|
      ensures k.pc[j] == |cfg.jobs[j].code| && P.Executed(k.log, j + 1) == cfg.jobs[j].code
    {
      LoadedOnce(cfg, |cfg.jobs|, cfg.Pcb(j));
      FinishedAt(cfg, k, j);
    }
  }

  lemma OnlyFinished<T>(r: multiset<T>, h: multiset<T>, f: multiset<T>)
    requires r == multiset{} && h == multiset{}
    ensures r + h + f == f
  {
  }

  lemma FinishedAt(cfg: Config, k: Kernel, j: nat)
    requires P.Inv(cfg, k) && j < |cfg.jobs| && cfg.Pcb(j) in k.finished
    ensures k.pc[j] == |cfg.jobs[j].code| && P.Executed(k.log, j + 1) == cfg.jobs[j].code
  {
    assert cfg.jobs[j].code[..|cfg.jobs[j].code|] == cfg.jobs[j].code;
  }

  /** A CPU that sees `done` after an empty get_proc made that call after the last add_proc. */
  lemma EmptyGetIsLate(cfg: Config, ks: seq<Kernel>, acts: seq<Act>, i: nat, c: nat)
    requires cfg.Ok() && IsRun(cfg, ks, acts) && i < |ks| && c < |ks[i].cpus|
    requires S.SawNothing(ks[i].cpus[c]) && ks[i].ldr.done
    ensures ks[i].cpus[c].late
  {
    S.RunInv(cfg, ks, acts, i);
    S.DoneMeansLate(cfg, ks[i], c);
  }

  // ---- Programs ----

  /** The step is a put_proc of process p by CPU c. */
  predicate Preempts(cfg: Config, k: Kernel, act: Act, c: nat, p: Pcb)
    requires Wf(cfg, k)
  {
    && act == CpuAct(c) && Holds(k, c, p) && cfg.Known(p) && k.cpus[c].loc == Top && k.cpus[c].timeLeft == 0
    && k.pc[p.pid - 1] != cfg.Size(p)
  }

  /** A preempted process has executed exactly one quantum since it was dispatched. */
  lemma QuantumExact(cfg: Config, ks: seq<Kernel>, acts: seq<Act>, i: nat, c: nat, p: Pcb)
    requires cfg.Ok() && IsRun(cfg, ks, acts) && i < |acts| && Preempts(cfg, ks[i], acts[i], c, p)
    ensures ks[i].pc[p.pid - 1] == ks[i].cpus[c].start + cfg.quantum
    ensures p in ReadyBag(ks[i + 1].mlq.ready)
  {
    P.RunInv(cfg, ks, acts, i);
    assert P.CpuOk(cfg, ks[i].pc, ks[i].turns, ks[i].cpus[c]);
    QuantumUsed(cfg, ks[i].pc, ks[i].turns, ks[i].cpus[c], p);
    PutQueues(cfg, ks[i], c, p);
    PutStep(cfg, ks[i], acts[i], c, p);
    assert ks[i + 1] == Step(cfg, ks[i], acts[i]);
  }

  lemma PutStep(cfg: Config, k: Kernel, act: Act, c: nat, p: Pcb)
    requires Wf(cfg, k) && Preempts(cfg, k, act, c, p) && Enabled(cfg, k, act)
    ensures Step(cfg, k, act) == PutProc(k, c, p)
  {
  }

  lemma QuantumUsed(cfg: Config, pc: seq<nat>, turns: seq<nat>, v: Cpu, p: Pcb)
    requires |pc| == |turns| == |cfg.jobs| && P.CpuOk(cfg, pc, turns, v) && v.proc == Some(p) && cfg.Known(p)
    requires v.loc == Top && v.timeLeft == 0 && pc[p.pid - 1] < cfg.Size(p)
    ensures pc[p.pid - 1] == v.start + cfg.quantum
  {
  }

  lemma PutQueues(cfg: Config, k: Kernel, c: nat, p: Pcb)
    requires cfg.Ok() && Wf(cfg, k) && O.Owned(cfg, k) && Live(k) <= MAX_QUEUE_SIZE && Holds(k, c, p)
    ensures p in ReadyBag(Put(k.mlq, p).ready)
  {
    O.HeldIsRunning(cfg, k, c, p);
    O.Room(cfg, k);
    O.PutBag(k.mlq, p);
  }

  /** A process executes its own program in order, from the start, without gaps or repetitions. */
  lemma ExecutedPrefix(cfg: Config, ks: seq<Kernel>, acts: seq<Act>, i: nat, j: nat)
    requires cfg.Ok() && IsRun(cfg, ks, acts) && i < |ks| && j < |cfg.jobs|
    ensures |ks[i].pc| == |cfg.jobs| && ks[i].pc[j] <= |cfg.jobs[j].code|
    ensures P.Executed(ks[i].log, j + 1) == cfg.jobs[j].code[..ks[i].pc[j]]
    ensures cfg.Pcb(j) in ks[i].finished ==> P.Executed(ks[i].log, j + 1) == cfg.jobs[j].code
  {
    P.RunInv(cfg, ks, acts, i);
    ExecutedAt(cfg, ks[i], j);
  }

  lemma ExecutedAt(cfg: Config, k: Kernel, j: nat)
    requires |k.pc| == |k.turns| == |cfg.jobs| && P.LogOk(cfg, k) && P.FinishedOk(cfg, k) && j < |cfg.jobs|
    ensures k.pc[j] <= |cfg.jobs[j].code|
    ensures P.Executed(k.log, j + 1) == cfg.jobs[j].code[..k.pc[j]]
    ensures cfg.Pcb(j) in k.finished ==> P.Executed(k.log, j + 1) == cfg.jobs[j].code
  {
    assert cfg.jobs[j].code[..|cfg.jobs[j].code|] == cfg.jobs[j].code;
  }

  // ---- The threads as a whole ----

  /** As long as a thread has not detached, some step other than a spurious wake-up is enabled. */
  lemma NeverStuck(cfg: Config, ks: seq<Kernel>, acts: seq<Act>, i: nat, d: nat) returns (act: Act)
    requires cfg.Ok() && IsRun(cfg, ks, acts) && i < |ks| && d < |ks[i].bar.devs| && B.Live(ks[i].bar.devs[d])
    ensures Wf(cfg, ks[i]) && Enabled(cfg, ks[i], act)
    ensures act.Bar? ==> !act.a.Wake? && !act.a.TimerWake? && !act.a.Stop?
  {
    O.RunInv(cfg, ks, acts, i);
    act := WhoMoves(cfg, ks[i], d);
  }

  /** The barrier's next step, or a step of the thread that has still to call next_slot. */
  lemma WhoMoves(cfg: Config, k: Kernel, d: nat) returns (act: Act)
    requires Wf(cfg, k) && B.Inv(k.bar) && d < |k.bar.devs| && B.Live(k.bar.devs[d])
    ensures Enabled(cfg, k, act)
    ensures act.Bar? ==> !act.a.Wake? && !act.a.TimerWake? && !act.a.Stop?
  {
    var a := B.SomethingMoves(k.bar, d);
    act := if !a.Announce? then Bar(a) else if a.d == 0 then LdAct else CpuAct(a.d - 1);
  }

  /** The threads keep lock step with the clock. */
  lemma ThreadsInLockStep(cfg: Config, ks: seq<Kernel>, acts: seq<Act>, i: nat)
    requires cfg.Ok() && IsRun(cfg, ks, acts) && i < |ks|
    ensures B.LockStep(ks[i].bar)
  {
    O.RunInv(cfg, ks, acts, i);
    B.InvLockStep(ks[i].bar);
  }

  // ---- Bounded waiting of the threads' scheduler calls ----

  /** The scheduler operation a step performs. */
  function OpOf(cfg: Config, k: Kernel, act: Act): Option<F.Op>
    requires Wf(cfg, k)
  {
    match act
    case Bar(_) => None
    case LdAct => if k.ldr.loc == LdLoad && k.ldr.next < |cfg.jobs| then Some(F.AddOp(cfg.Pcb(k.ldr.next))) else None
    case CpuAct(c) =>
      if c >= |k.cpus| then None
      else
        var v := k.cpus[c];
        if v.loc == AfterFinish || v.loc == AfterPut || (v.loc == Top && v.proc.None?) then Some(F.GetOp)
        else if v.loc != Top then None
        else if k.pc[v.proc.value.pid - 1] == cfg.Size(v.proc.value) then Some(F.FinishOp(v.proc.value))
        else if v.timeLeft == 0 then Some(F.PutOp(v.proc.value))
        else None
  }

  lemma OpStep(cfg: Config, k: Kernel, act: Act)
    requires Wf(cfg, k) && Enabled(cfg, k, act)
    ensures Step(cfg, k, act).mlq == if OpOf(cfg, k, act).Some? then F.Do(k.mlq, OpOf(cfg, k, act).value) else k.mlq
  {
  }

  ghost predicate Asks(cfg: Config, k: Kernel, act: Act)
    requires Wf(cfg, k)
  {
    OpOf(cfg, k, act) == Some(F.GetOp)
  }

  /** How many get_proc calls a run makes between states i and j. */
  ghost function Requests(cfg: Config, ks: seq<Kernel>, acts: seq<Act>, i: nat, j: nat): nat
    requires IsRun(cfg, ks, acts) && i <= j < |ks|
    decreases j - i
  {
    if i == j then 0 else (if Asks(cfg, ks[i], acts[i]) then 1 else 0) + Requests(cfg, ks, acts, i + 1, j)
  }

  /** A step that is not the dispatch of the waiting process shortens its wait if it asks for work. */
  lemma StepWaits(cfg: Config, k: Kernel, act: Act, q: nat, n: nat) returns (n1: nat)
    requires Wf(cfg, k) && Enabled(cfg, k, act) && q < MAX_PRIO && n < |k.mlq.ready[q]|
    requires !(Asks(cfg, k, act) && Pick(k.mlq) == q && n == 0)
    ensures var m' := Step(cfg, k, act).mlq;
            && m'.Wf() && n1 < |m'.ready[q]| && m'.ready[q][n1] == k.mlq.ready[q][n]
            && F.Wait(m', q, n1) + (if Asks(cfg, k, act) then 1 else 0) <= F.Wait(k.mlq, q, n)
  {
    OpStep(cfg, k, act);
    if OpOf(cfg, k, act).Some? {
      n1 := F.WaitsOn(k.mlq, OpOf(cfg, k, act).value, q, n);
    } else {
      n1 := n;
    }
  }

  lemma {:induction false} ServedInRun(cfg: Config, ks: seq<Kernel>, acts: seq<Act>, i: nat, j: nat, q: nat, n: nat)
    returns (t: nat)
    requires IsRun(cfg, ks, acts) && i <= j < |ks| && q < MAX_PRIO
    requires ks[i].mlq.Wf() && n < |ks[i].mlq.ready[q]|
    requires Requests(cfg, ks, acts, i, j) > F.Wait(ks[i].mlq, q, n)
    ensures i <= t < j && Asks(cfg, ks[t], acts[t]) && Served(ks[t].mlq) == Some(ks[i].mlq.ready[q][n])
    ensures Requests(cfg, ks, acts, i, t) <= F.Wait(ks[i].mlq, q, n)
    decreases j - i
  {
    if Asks(cfg, ks[i], acts[i]) && Pick(ks[i].mlq) == q && n == 0 {
      return i;
    }
    assert ks[i + 1] == Step(cfg, ks[i], acts[i]);
    var n1 := StepWaits(cfg, ks[i], acts[i], q, n);
    t := ServedInRun(cfg, ks, acts, i + 1, j, q, n1);
  }

  /**
   * In any interleaving of the threads, the process at position n of level q is dispatched after at most
   * (n + 1) * (9730 + q) + n further get_proc calls.
   */
  lemma DispatchedInTime(cfg: Config, ks: seq<Kernel>, acts: seq<Act>, i: nat, j: nat, q: nat, n: nat)
    requires IsRun(cfg, ks, acts) && i <= j < |ks| && q < MAX_PRIO
    requires ks[i].mlq.Wf() && n < |ks[i].mlq.ready[q]|
    requires Requests(cfg, ks, acts, i, j) > (n + 1) * (9730 + q) + n
    ensures exists t :: i <= t < j && Asks(cfg, ks[t], acts[t]) && Served(ks[t].mlq) == Some(ks[i].mlq.ready[q][n])
  {
    F.WaitBound(ks[i].mlq, q, n);
    var t := ServedInRun(cfg, ks, acts, i, j, q, n);
  }
}
