/** When the loader adds each process: not before its start time, and in a slot that the start times determine. */
module Loading {
  import opened Queues
  import opened Mlqs
  import opened Kernels
  import B = Barriers
  import O = Ownership
  import S = Stranded

  /** The slot in which process j is added: its start time, or, if later, the slot after that of the one before it. */
  function LoadSlot(jobs: seq<Job>, j: nat): nat
    requires j < |jobs|
  {
    if j == 0 then jobs[0].start
    else
      var next := LoadSlot(jobs, j - 1) + 1;
      if next < jobs[j].start then jobs[j].start else next
  }

  /** Start times are respected, and the slots follow each other. */
  lemma {:induction false} SlotsRise(jobs: seq<Job>, i: nat, j: nat)
    requires i <= j < |jobs|
    ensures jobs[i].start <= LoadSlot(jobs, i) && LoadSlot(jobs, i) + (j - i) <= LoadSlot(jobs, j)
    decreases j
  {
    if i < j {
      SlotsRise(jobs, i, j - 1);
    }
  }

  /** The slots that the loader has been through, against those it should load in. */
  predicate OnTime(cfg: Config, k: Kernel)
    requires |k.bar.devs| > 0 && k.ldr.next <= |cfg.jobs|
  {
    var a, next := k.bar.devs[0].announced, k.ldr.next;
    && (next > 0 ==> LoadSlot(cfg.jobs, next - 1) <= k.bar.time)
    && (next > 0 && k.ldr.loc == LdTop ==> LoadSlot(cfg.jobs, next - 1) < a)
    && (next > 0 && k.ldr.loc == LdYield ==> LoadSlot(cfg.jobs, next - 1) <= a)
    && (next < |cfg.jobs| && k.ldr.loc == LdTop ==> a <= LoadSlot(cfg.jobs, next))
    && (next < |cfg.jobs| && k.ldr.loc == LdYield ==> a < LoadSlot(cfg.jobs, next))
    && (k.ldr.loc == LdLoad ==> next < |cfg.jobs| && a == LoadSlot(cfg.jobs, next))
  }

  lemma BootOnTime(cfg: Config)
    ensures OnTime(cfg, Boot(cfg))
  {
  }

  /** The loader's step in terms of its own fields. */
  predicate LdMove(cfg: Config, k: Kernel, k': Kernel)
    requires |k.bar.devs| == |k'.bar.devs| > 0
  {
    && k'.bar.time == k.bar.time
    && k'.bar.devs[0].announced == k.bar.devs[0].announced + (if k.ldr.loc == LdYield then 1 else 0)
    && match k.ldr.loc
       case LdTop =>
         && k'.ldr.next == k.ldr.next
         && (k.ldr.next < |cfg.jobs| ==>
               k'.ldr.loc == if k.bar.time < cfg.jobs[k.ldr.next].start then LdYield else LdLoad)
         && (k.ldr.next >= |cfg.jobs| ==> k'.ldr.loc == LdQuit)
       case LdLoad => k.ldr.next < |cfg.jobs| ==> k'.ldr.next == k.ldr.next + 1 && k'.ldr.loc == LdYield
       case LdYield => k'.ldr.next == k.ldr.next && k'.ldr.loc == LdTop
       case LdQuit => k'.ldr.next == k.ldr.next && k'.ldr.loc == LdQuit
  }

  lemma LdMoves(cfg: Config, k: Kernel)
    requires Wf(cfg, k) && Enabled(cfg, k, LdAct)
    ensures |LdStep(cfg, k).bar.devs| == |k.bar.devs| && LdMove(cfg, k, LdStep(cfg, k))
  {
  }

  lemma LdOnTime(cfg: Config, k: Kernel, k': Kernel)
    requires |k.bar.devs| == |k'.bar.devs| > 0 && k.ldr.next <= |cfg.jobs| && k'.ldr.next <= |cfg.jobs|
    requires OnTime(cfg, k) && k.bar.devs[0].announced == k.bar.time && LdMove(cfg, k, k')
    ensures OnTime(cfg, k')
  {
  }

  lemma StepOnTime(cfg: Config, k: Kernel, act: Act, k': Kernel)
    requires O.Inv(cfg, k) && Enabled(cfg, k, act) && k' == Step(cfg, k, act) && Wf(cfg, k') && OnTime(cfg, k)
    ensures OnTime(cfg, k')
  {
    match act
    case LdAct => LdStepOnTime(cfg, k, k');
    case CpuAct(c) => CpuStepOnTime(cfg, k, c, k');
    case Bar(a) =>
      B.QuietStep(k.bar, a, 0);
      StaysOnTime(cfg, k, k');
  }

  lemma LdStepOnTime(cfg: Config, k: Kernel, k': Kernel)
    requires Wf(cfg, k) && B.Inv(k.bar) && Enabled(cfg, k, LdAct) && k' == LdStep(cfg, k) && Wf(cfg, k')
    requires OnTime(cfg, k)
    ensures OnTime(cfg, k')
  {
    S.WorkingSlot(k.bar, 0);
    LdMoves(cfg, k);
    LdOnTime(cfg, k, k');
  }

  lemma CpuStepOnTime(cfg: Config, k: Kernel, c: nat, k': Kernel)
    requires Wf(cfg, k) && Enabled(cfg, k, CpuAct(c)) && k' == CpuStep(cfg, k, c) && Wf(cfg, k') && OnTime(cfg, k)
    ensures OnTime(cfg, k')
  {
    O.CpuFrames(cfg, k, c);
    StaysOnTime(cfg, k, k');
  }

  lemma StaysOnTime(cfg: Config, k: Kernel, k': Kernel)
    requires |k.bar.devs| == |k'.bar.devs| > 0 && k.ldr.next <= |cfg.jobs| && OnTime(cfg, k)
    requires k'.ldr == k.ldr && k'.bar.devs[0].announced == k.bar.devs[0].announced && k'.bar.time >= k.bar.time
    ensures OnTime(cfg, k')
  {
  }

  lemma {:induction false} RunOnTime(cfg: Config, ks: seq<Kernel>, acts: seq<Act>, i: nat)
    requires cfg.Ok() && IsRun(cfg, ks, acts) && i < |ks|
    ensures O.Inv(cfg, ks[i]) && OnTime(cfg, ks[i])
    decreases i
  {
    O.RunInv(cfg, ks, acts, i);
    if i == 0 {
      BootOnTime(cfg);
    } else {
      RunOnTime(cfg, ks, acts, i - 1);
      assert ks[i] == Step(cfg, ks[i - 1], acts[i - 1]);
      StepOnTime(cfg, ks[i - 1], acts[i - 1], ks[i]);
    }
  }

  /** The step in which the loader adds its next process. */
  predicate Adds(k: Kernel, act: Act) {
    act == LdAct && k.ldr.loc == LdLoad
  }

  /**
   * In every run process j is added in the slot LoadSlot(j), no sooner and no later, with the pid and the priority
   * of its place in the configuration.
   */
  lemma AddedInSlot(cfg: Config, ks: seq<Kernel>, acts: seq<Act>, i: nat)
    requires cfg.Ok() && IsRun(cfg, ks, acts) && i < |acts| && Adds(ks[i], acts[i])
    ensures ks[i].ldr.next < |cfg.jobs| && ks[i].bar.time == LoadSlot(cfg.jobs, ks[i].ldr.next)
    ensures ks[i + 1].ldr.next == ks[i].ldr.next + 1 && ks[i].mlq.Wf()
    ensures ks[i + 1].mlq == Add(ks[i].mlq, Pcb(ks[i].ldr.next + 1, cfg.jobs[ks[i].ldr.next].prio))
  {
    RunOnTime(cfg, ks, acts, i);
    O.LdEffect(cfg, ks[i]);
    assert ks[i + 1] == Step(cfg, ks[i], acts[i]);
    S.WorkingSlot(ks[i].bar, 0);
    LdMoves(cfg, ks[i]);
  }

  /** No other step adds one. */
  lemma OnlyAdds(cfg: Config, ks: seq<Kernel>, acts: seq<Act>, i: nat)
    requires cfg.Ok() && IsRun(cfg, ks, acts) && i < |acts| && !Adds(ks[i], acts[i])
    ensures ks[i + 1].ldr.next == ks[i].ldr.next
  {
    O.RunInv(cfg, ks, acts, i);
    OtherKeeps(cfg, ks[i], acts[i], ks[i + 1]);
  }

  lemma OtherKeeps(cfg: Config, k: Kernel, act: Act, k': Kernel)
    requires Wf(cfg, k) && Enabled(cfg, k, act) && k' == Step(cfg, k, act) && !Adds(k, act)
    ensures k'.ldr.next == k.ldr.next
  {
    match act
    case LdAct => LdMoves(cfg, k);
    case CpuAct(c) => O.CpuFrames(cfg, k, c);
    case Bar(a) =>
  }

  /**
   * So at every moment the processes loaded are, up to the current slot, exactly those whose slot has come: one is
   * never loaded before its start time or its slot, and always once its slot has passed.
   */
  lemma LoadedExactly(cfg: Config, ks: seq<Kernel>, acts: seq<Act>, i: nat, j: nat)
    requires cfg.Ok() && IsRun(cfg, ks, acts) && i < |ks| && j < |cfg.jobs|
    ensures j < ks[i].ldr.next ==> cfg.jobs[j].start <= LoadSlot(cfg.jobs, j) <= ks[i].bar.time
    ensures LoadSlot(cfg.jobs, j) < ks[i].bar.time ==> j < ks[i].ldr.next
  {
    RunOnTime(cfg, ks, acts, i);
    if j < ks[i].ldr.next {
      SlotsRise(cfg.jobs, j, ks[i].ldr.next - 1);
    } else if LoadSlot(cfg.jobs, j) < ks[i].bar.time {
      SlotsRise(cfg.jobs, ks[i].ldr.next, j);
      Overslept(cfg, ks[i]);
    }
  }

  /** While something is left to load the clock does not pass its slot. */
  lemma Overslept(cfg: Config, k: Kernel)
    requires O.Inv(cfg, k) && OnTime(cfg, k) && k.ldr.next < |cfg.jobs|
    ensures k.bar.time <= LoadSlot(cfg.jobs, k.ldr.next)
  {
    assert B.DevOk(k.bar.devs[0]) && B.SlotOk(k.bar, 0) && O.LdShape(cfg, k);
  }
}
