/** What the CPUs make of the programs: instruction order, quantum, and completion. */
module Programs {
  import opened Common
  import opened Queues
  import opened Mlqs
  import opened Instructions
  import opened Kernels
  import opened Bags
  import B = Barriers
  import O = Ownership

  /** The instructions of one process in a log. */
  function Executed(log: seq<(nat, Inst)>, pid: nat): seq<Inst> {
    if log == [] then []
    else
      var e := log[|log| - 1];
      Executed(log[..|log| - 1], pid) + if e.0 == pid then [e.1] else []
  }

  /** A process that may be put on a ready queue or run: it has turns left. */
  predicate Runnable(cfg: Config, turns: seq<nat>, p: Pcb)
    requires |turns| == |cfg.jobs|
  {
    cfg.Known(p) && turns[p.pid - 1] < cfg.Turns(p.pid - 1)
  }

  predicate AllRunnable(cfg: Config, turns: seq<nat>, ready: seq<seq<Pcb>>)
    requires |turns| == |cfg.jobs|
  {
    forall l, i :: 0 <= l < |ready| && 0 <= i < |ready[l]| ==> Runnable(cfg, turns, ready[l][i])
  }

  /** A turn executes an instruction, unless there is none. */
  predicate TurnsOk(cfg: Config, pc: seq<nat>, turns: seq<nat>)
    requires |pc| == |turns| == |cfg.jobs|
  {
    forall j :: 0 <= j < |cfg.jobs| ==>
      turns[j] <= cfg.Turns(j) && (cfg.jobs[j].code != [] ==> turns[j] == pc[j])
  }

  /** A process starts at its first instruction. */
  predicate FreshOk(cfg: Config, k: Kernel)
    requires |k.pc| == |k.turns| == |cfg.jobs|
  {
    forall j :: k.ldr.next <= j < |k.pc| ==> k.pc[j] == 0 && k.turns[j] == 0
  }

  /** The process has come to its end. */
  predicate AtEnd(cfg: Config, pc: seq<nat>, turns: seq<nat>, p: Pcb)
    requires |pc| == |turns| == |cfg.jobs|
  {
    cfg.Known(p) && pc[p.pid - 1] == cfg.Size(p) && turns[p.pid - 1] == cfg.Turns(p.pid - 1)
  }

  ghost predicate FinishedOk(cfg: Config, k: Kernel)
    requires |k.pc| == |k.turns| == |cfg.jobs|
  {
    forall p :: p in k.finished ==> AtEnd(cfg, k.pc, k.turns, p)
  }

  /** What a CPU with a process has done with it since it dispatched it. */
  predicate CpuOk(cfg: Config, pc: seq<nat>, turns: seq<nat>, v: Cpu)
    requires |pc| == |turns| == |cfg.jobs|
  {
    v.proc.Some? ==>
      var p := v.proc.value;
      && cfg.Known(p)
      && (if v.loc == Check || v.loc == Run then Runnable(cfg, turns, p)
          else cfg.Size(p) == 0 ==> turns[p.pid - 1] == 1)
      && (v.loc == Run ==> v.timeLeft >= 1)
      && (v.loc != Check || v.timeLeft > 0 ==>
            v.timeLeft <= cfg.quantum && (cfg.Size(p) > 0 ==> pc[p.pid - 1] == v.start + cfg.quantum - v.timeLeft))
  }

  ghost predicate LogOk(cfg: Config, k: Kernel)
    requires |k.pc| == |cfg.jobs|
  {
    forall j :: 0 <= j < |cfg.jobs| ==>
      k.pc[j] <= |cfg.jobs[j].code| && Executed(k.log, j + 1) == cfg.jobs[j].code[..k.pc[j]]
  }

  ghost predicate Facts(cfg: Config, k: Kernel)
    requires Wf(cfg, k)
  {
    && AllRunnable(cfg, k.turns, k.mlq.ready) && TurnsOk(cfg, k.pc, k.turns)
    && FinishedOk(cfg, k) && FreshOk(cfg, k) && LogOk(cfg, k)
    && forall c :: 0 <= c < |k.cpus| ==> CpuOk(cfg, k.pc, k.turns, k.cpus[c])
  }

  ghost predicate Inv(cfg: Config, k: Kernel) {
    O.Inv(cfg, k) && Facts(cfg, k)
  }

  lemma BootFacts(cfg: Config)
    requires Wf(cfg, Boot(cfg))
    ensures Facts(cfg, Boot(cfg))
  {
  }

  lemma BootInv(cfg: Config)
    ensures Inv(cfg, Boot(cfg))
  {
    O.BootInv(cfg);
    BootFacts(cfg);
  }

  // ---- Steps that execute nothing ----

  lemma GetReady(cfg: Config, k: Kernel, c: nat, timeLeft: nat, none: Loc)
    requires Wf(cfg, k) && AllRunnable(cfg, k.turns, k.mlq.ready) && c < |k.cpus|
    requires Wf(cfg, GetProc(cfg, k, c, timeLeft, none))
    ensures AllRunnable(cfg, k.turns, Get(k.mlq).ready)
    ensures Served(k.mlq).Some? ==> Runnable(cfg, k.turns, Served(k.mlq).value)
  {
    var m' := Get(k.mlq);
    forall l, i | 0 <= l < |m'.ready| && 0 <= i < |m'.ready[l]|
      ensures Runnable(cfg, k.turns, m'.ready[l][i])
    {
      assert m'.ready[l][i] in k.mlq.ready[l];
    }
  }

  lemma GetFacts(cfg: Config, k: Kernel, c: nat, timeLeft: nat, none: Loc)
    requires Inv(cfg, k) && c < |k.cpus| && Wf(cfg, GetProc(cfg, k, c, timeLeft, none)) && timeLeft == 0
    ensures Facts(cfg, GetProc(cfg, k, c, timeLeft, none))
  {
    GetReady(cfg, k, c, timeLeft, none);
    var k' := GetProc(cfg, k, c, timeLeft, none);
    assert CpuOk(cfg, k'.pc, k'.turns, k'.cpus[c]);
  }

  /** A process found at its end has had all its turns. */
  lemma Ends(cfg: Config, pc: seq<nat>, turns: seq<nat>, v: Cpu, p: Pcb)
    requires |pc| == |turns| == |cfg.jobs| && TurnsOk(cfg, pc, turns) && CpuOk(cfg, pc, turns, v)
    requires v.proc == Some(p) && v.loc == Top && pc[p.pid - 1] == cfg.Size(p)
    ensures AtEnd(cfg, pc, turns, p)
  {
  }

  lemma FinishFacts(cfg: Config, k: Kernel, c: nat, p: Pcb)
    requires Inv(cfg, k) && c < |k.cpus| && k.cpus[c].proc == Some(p) && k.pc[p.pid - 1] == cfg.Size(p)
    requires k.cpus[c].loc == Top && Wf(cfg, FinishProc(k, c, p))
    ensures Facts(cfg, FinishProc(k, c, p))
  {
    var k' := FinishProc(k, c, p);
    assert CpuOk(cfg, k.pc, k.turns, k.cpus[c]);
    Ends(cfg, k.pc, k.turns, k.cpus[c], p);
    assert CpuOk(cfg, k'.pc, k'.turns, k'.cpus[c]);
  }

  lemma AddReady(cfg: Config, turns: seq<nat>, m: Mlq, p: Pcb)
    requires m.Wf() && |turns| == |cfg.jobs| && Runnable(cfg, turns, p)
    requires AllRunnable(cfg, turns, m.ready)
    ensures AllRunnable(cfg, turns, Add(m, p).ready)
  {
  }

  lemma PutFacts(cfg: Config, k: Kernel, c: nat, p: Pcb)
    requires Inv(cfg, k) && c < |k.cpus| && k.cpus[c].proc == Some(p) && k.pc[p.pid - 1] != cfg.Size(p)
    requires Wf(cfg, PutProc(k, c, p))
    ensures Facts(cfg, PutProc(k, c, p))
  {
    var k' := PutProc(k, c, p);
    assert CpuOk(cfg, k'.pc, k'.turns, k'.cpus[c]);
    AddReady(cfg, k.turns, Finish(k.mlq, p), p);
  }

  /** A step that only moves CPU c on in its loop. */
  lemma MoveFacts(cfg: Config, k: Kernel, k': Kernel, c: nat)
    requires Inv(cfg, k) && Wf(cfg, k') && c < |k.cpus| && k'.cpus == k.cpus[c := k'.cpus[c]]
    requires k'.mlq == k.mlq && k'.ldr == k.ldr && k'.pc == k.pc && k'.turns == k.turns
    requires k'.finished == k.finished && k'.log == k.log
    requires CpuOk(cfg, k.pc, k.turns, k'.cpus[c])
    ensures Facts(cfg, k')
  {
    forall e | 0 <= e < |k'.cpus|
      ensures CpuOk(cfg, k'.pc, k'.turns, k'.cpus[e])
    {
      assert CpuOk(cfg, k.pc, k.turns, k.cpus[e]);
    }
  }

  // ---- The step that executes an instruction ----

  /** The program counters and turns differ at most for the process CPU c holds. */
  predicate OnlyOf(k: Kernel, c: nat, p: Pcb, pc: seq<nat>, turns: seq<nat>) {
    && c < |k.cpus| && k.cpus[c].proc == Some(p) && |pc| == |k.pc| == |turns| == |k.turns|
    && forall j :: 0 <= j < |pc| && j != p.pid - 1 ==> pc[j] == k.pc[j] && turns[j] == k.turns[j]
  }

  /** The queued processes do not depend on the turns of one that is not queued. */
  lemma QueuesIgnore(cfg: Config, ready: seq<seq<Pcb>>, p: Pcb, turns: seq<nat>, turns1: seq<nat>)
    requires |turns| == |turns1| == |cfg.jobs| && cfg.Known(p) && ReadyBag(ready)[p] == 0
    requires forall j :: 0 <= j < |turns| && j != p.pid - 1 ==> turns1[j] == turns[j]
    requires AllRunnable(cfg, turns, ready)
    ensures AllRunnable(cfg, turns1, ready)
  {
    forall l, i | 0 <= l < |ready| && 0 <= i < |ready[l]|
      ensures Runnable(cfg, turns1, ready[l][i])
    {
      ReadyHas(ready, l);
      var q := ready[l][i];
      assert q in multiset(ready[l]);
      assert q != p && Runnable(cfg, turns, q);
    }
  }

  lemma RunQueues(cfg: Config, k: Kernel, c: nat, p: Pcb, pc: seq<nat>, turns: seq<nat>)
    requires Inv(cfg, k) && OnlyOf(k, c, p, pc, turns)
    ensures AllRunnable(cfg, turns, k.mlq.ready)
  {
    O.HeldIsRunning(cfg, k, c, p);
    QueuesIgnore(cfg, k.mlq.ready, p, k.turns, turns);
  }

  /** Nor do the finished ones and those still to come. */
  lemma RunElsewhere(cfg: Config, k: Kernel, c: nat, p: Pcb, pc: seq<nat>, turns: seq<nat>)
    requires Inv(cfg, k) && OnlyOf(k, c, p, pc, turns)
    ensures forall q :: q in k.finished ==> AtEnd(cfg, pc, turns, q)
    ensures forall j :: k.ldr.next <= j < |pc| ==> pc[j] == 0 && turns[j] == 0
  {
    O.HeldIsRunning(cfg, k, c, p);
    FinishedIgnore(cfg, k, c, p, pc, turns);
  }

  lemma FinishedIgnore(cfg: Config, k: Kernel, c: nat, p: Pcb, pc: seq<nat>, turns: seq<nat>)
    requires |k.pc| == |cfg.jobs| && OnlyOf(k, c, p, pc, turns) && cfg.Known(p)
    requires FinishedOk(cfg, k) && FreshOk(cfg, k) && k.finished[p] == 0 && p.pid <= k.ldr.next
    ensures forall q :: q in k.finished ==> AtEnd(cfg, pc, turns, q)
    ensures forall j :: k.ldr.next <= j < |pc| ==> pc[j] == 0 && turns[j] == 0
  {
    forall q | q in k.finished
      ensures AtEnd(cfg, pc, turns, q)
    {
      assert q != p && AtEnd(cfg, k.pc, k.turns, q);
    }
  }

  /** Nor does any other CPU. */
  lemma RunOthers(cfg: Config, k: Kernel, c: nat, p: Pcb, pc: seq<nat>, turns: seq<nat>)
    requires Inv(cfg, k) && OnlyOf(k, c, p, pc, turns)
    ensures forall e :: 0 <= e < |k.cpus| && e != c ==> CpuOk(cfg, pc, turns, k.cpus[e])
  {
    O.HeldIsRunning(cfg, k, c, p);
    forall e | 0 <= e < |k.cpus| && e != c
      ensures CpuOk(cfg, pc, turns, k.cpus[e])
    {
      assert CpuOk(cfg, k.pc, k.turns, k.cpus[e]);
      if k.cpus[e].proc == Some(p) {
        HeldTwice(k.cpus, if e < c then e else c, if e < c then c else e, p);
      }
      OtherOk(cfg, k, c, p, pc, turns, k.cpus[e]);
    }
  }

  lemma OtherOk(cfg: Config, k: Kernel, c: nat, p: Pcb, pc: seq<nat>, turns: seq<nat>, v: Cpu)
    requires |k.pc| == |cfg.jobs| && OnlyOf(k, c, p, pc, turns) && cfg.Known(p) && v.proc != Some(p)
    requires CpuOk(cfg, k.pc, k.turns, v)
    ensures CpuOk(cfg, pc, turns, v)
  {
  }

  lemma RunLog(cfg: Config, k: Kernel, c: nat, p: Pcb)
    requires Wf(cfg, k) && LogOk(cfg, k) && c < |k.cpus| && cfg.Known(p)
    ensures LogOk(cfg, RunProc(cfg, k, c, p))
  {
    var j := p.pid - 1;
    if k.pc[j] < cfg.Size(p) {
      var k' := RunProc(cfg, k, c, p);
      forall i | 0 <= i < |cfg.jobs|
        ensures k'.pc[i] <= |cfg.jobs[i].code| && Executed(k'.log, i + 1) == cfg.jobs[i].code[..k'.pc[i]]
      {
        LogGrows(k.log, k'.log, (p.pid, cfg.jobs[j].code[k.pc[j]]), i + 1);
        if i == j {
          NextPrefix(cfg.jobs[j].code, k.pc[j]);
        }
      }
    }
  }

  lemma LogGrows(log: seq<(nat, Inst)>, log': seq<(nat, Inst)>, e: (nat, Inst), pid: nat)
    requires log' == log + [e]
    ensures Executed(log', pid) == Executed(log, pid) + if e.0 == pid then [e.1] else []
  {
    assert log'[..|log|] == log;
  }

  lemma NextPrefix<T>(s: seq<T>, n: nat)
    requires n < |s|
    ensures s[..n + 1] == s[..n] + [s[n]]
  {
  }

  /** The turn of the process that is run. */
  lemma RunTurns(cfg: Config, k: Kernel, c: nat)
    requires Wf(cfg, k) && c < |k.cpus| && k.cpus[c].loc == Run && k.cpus[c].proc.Some?
    requires CpuOk(cfg, k.pc, k.turns, k.cpus[c]) && TurnsOk(cfg, k.pc, k.turns)
    ensures var k' := RunProc(cfg, k, c, k.cpus[c].proc.value);
            && |k'.cpus| == |k.cpus| && |k'.pc| == |k'.turns| == |cfg.jobs|
            && TurnsOk(cfg, k'.pc, k'.turns) && CpuOk(cfg, k'.pc, k'.turns, k'.cpus[c])
  {
  }

  lemma RunFacts(cfg: Config, k: Kernel, c: nat)
    requires Inv(cfg, k) && c < |k.cpus| && k.cpus[c].loc == Run && k.cpus[c].proc.Some?
    requires Wf(cfg, RunProc(cfg, k, c, k.cpus[c].proc.value))
    ensures Facts(cfg, RunProc(cfg, k, c, k.cpus[c].proc.value))
  {
    var p := k.cpus[c].proc.value;
    var k' := RunProc(cfg, k, c, p);
    assert CpuOk(cfg, k.pc, k.turns, k.cpus[c]);
    RunQueues(cfg, k, c, p, k'.pc, k'.turns);
    RunElsewhere(cfg, k, c, p, k'.pc, k'.turns);
    RunOthers(cfg, k, c, p, k'.pc, k'.turns);
    RunLog(cfg, k, c, p);
    RunTurns(cfg, k, c);
    RunLeaves(cfg, k, k', c);
  }

  lemma RunLeaves(cfg: Config, k: Kernel, k': Kernel, c: nat)
    requires Wf(cfg, k) && Wf(cfg, k') && c < |k.cpus| && k'.cpus == k.cpus[c := k'.cpus[c]]
    requires k'.mlq == k.mlq && k'.ldr == k.ldr && k'.finished == k.finished && LogOk(cfg, k')
    requires AllRunnable(cfg, k'.turns, k.mlq.ready) && TurnsOk(cfg, k'.pc, k'.turns)
    requires forall q :: q in k.finished ==> AtEnd(cfg, k'.pc, k'.turns, q)
    requires forall j :: k.ldr.next <= j < |k'.pc| ==> k'.pc[j] == 0 && k'.turns[j] == 0
    requires forall e :: 0 <= e < |k.cpus| && e != c ==> CpuOk(cfg, k'.pc, k'.turns, k.cpus[e])
    requires CpuOk(cfg, k'.pc, k'.turns, k'.cpus[c])
    ensures Facts(cfg, k')
  {
  }

  // ---- Every step, every run ----

  lemma MovesOn(cfg: Config, k: Kernel, c: nat)
    requires cfg.Ok() && Inv(cfg, k) && Enabled(cfg, k, CpuAct(c)) && CpuOk(cfg, k.pc, k.turns, k.cpus[c])
    requires k.cpus[c].loc == Check || k.cpus[c].loc == Yield || k.cpus[c].loc == Quit
    ensures var k' := CpuStep(cfg, k, c);
            k'.pc == k.pc && k'.turns == k.turns && k'.log == k.log && |k'.cpus| == |k.cpus|
            && CpuOk(cfg, k.pc, k.turns, k'.cpus[c])
  {
    assert O.Shape(k, c);
  }

  lemma FactsTop(cfg: Config, k: Kernel, c: nat)
    requires cfg.Ok() && Inv(cfg, k) && Enabled(cfg, k, CpuAct(c)) && k.cpus[c].loc == Top && k.cpus[c].proc.Some?
    requires Wf(cfg, CpuStep(cfg, k, c))
    ensures Facts(cfg, CpuStep(cfg, k, c))
  {
    var v := k.cpus[c];
    var p := v.proc.value;
    assert CpuOk(cfg, k.pc, k.turns, v);
    if k.pc[p.pid - 1] == cfg.Size(p) {
      FinishFacts(cfg, k, c, p);
    } else if v.timeLeft == 0 {
      PutFacts(cfg, k, c, p);
    } else {
      var k' := SetCpu(k, c, v.(loc := Check));
      assert CpuStep(cfg, k, c) == k';
      MoveFacts(cfg, k, k', c);
    }
  }

  lemma FactsCpu(cfg: Config, k: Kernel, c: nat)
    requires cfg.Ok() && Inv(cfg, k) && Enabled(cfg, k, CpuAct(c)) && Wf(cfg, CpuStep(cfg, k, c))
    ensures Facts(cfg, CpuStep(cfg, k, c))
  {
    var v := k.cpus[c];
    assert O.Shape(k, c) && CpuOk(cfg, k.pc, k.turns, v);
    if v.loc == Top && v.proc.Some? {
      FactsTop(cfg, k, c);
    } else if v.loc == Top {
      GetFacts(cfg, k, c, v.timeLeft, Yield);
    } else if v.loc == AfterFinish {
      GetFacts(cfg, k, c, 0, Check);
    } else if v.loc == AfterPut {
      GetFacts(cfg, k, c, v.timeLeft, Check);
    } else if v.loc == Run {
      RunFacts(cfg, k, c);
    } else {
      O.CpuFrames(cfg, k, c);
      O.RestKeeps(cfg, k, c);
      MovesOn(cfg, k, c);
      MoveFacts(cfg, k, CpuStep(cfg, k, c), c);
    }
  }

  /** The process the loader adds is at its first instruction. */
  lemma LoadFacts(cfg: Config, k: Kernel)
    requires Wf(cfg, k) && FreshOk(cfg, k) && AllRunnable(cfg, k.turns, k.mlq.ready) && Enabled(cfg, k, LdAct)
    ensures AllRunnable(cfg, k.turns, LdStep(cfg, k).mlq.ready)
    ensures LdStep(cfg, k).ldr.next >= k.ldr.next
  {
    if k.ldr.loc == LdLoad && k.ldr.next < |cfg.jobs| {
      AddReady(cfg, k.turns, k.mlq, cfg.Pcb(k.ldr.next));
    }
  }

  lemma FactsLd(cfg: Config, k: Kernel)
    requires Inv(cfg, k) && Enabled(cfg, k, LdAct) && Wf(cfg, LdStep(cfg, k))
    ensures Facts(cfg, LdStep(cfg, k))
  {
    O.LdFrames(cfg, k);
    LoadFacts(cfg, k);
  }

  lemma FactsBar(cfg: Config, k: Kernel, a: B.Act)
    requires Inv(cfg, k) && Enabled(cfg, k, Bar(a)) && Wf(cfg, Step(cfg, k, Bar(a)))
    ensures Facts(cfg, Step(cfg, k, Bar(a)))
  {
    assert forall c :: 0 <= c < |k.cpus| ==> CpuOk(cfg, k.pc, k.turns, k.cpus[c]);
  }

  lemma StepInv(cfg: Config, k: Kernel, act: Act)
    requires cfg.Ok() && Inv(cfg, k) && Enabled(cfg, k, act)
    requires Live(k) <= MAX_QUEUE_SIZE && Live(Step(cfg, k, act)) <= MAX_QUEUE_SIZE
    ensures Inv(cfg, Step(cfg, k, act))
  {
    O.StepInv(cfg, k, act);
    match act
    case Bar(a) => FactsBar(cfg, k, a);
    case CpuAct(c) => FactsCpu(cfg, k, c);
    case LdAct => FactsLd(cfg, k);
  }

  lemma {:induction false} RunInv(cfg: Config, ks: seq<Kernel>, acts: seq<Act>, i: nat)
    requires cfg.Ok() && IsRun(cfg, ks, acts) && i < |ks|
    ensures Inv(cfg, ks[i])
    decreases i
  {
    if i == 0 {
      BootInv(cfg);
    } else {
      RunInv(cfg, ks, acts, i - 1);
      assert ks[i] == Step(cfg, ks[i - 1], acts[i - 1]);
      StepInv(cfg, ks[i - 1], acts[i - 1]);
    }
  }
}
