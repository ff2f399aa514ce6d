/**
 * Which CPUs come to an end: a CPU that has been given nothing at its loop head goes on to the next slot without a
 * look at `done`, so once there is nothing left to be given it never stops; every other CPU does.
 */
module Stopping {
  import opened Mlqs
  import opened Kernels
  import opened Bags
  import B = Barriers
  import O = Ownership
  import S = Stranded
  import P = Programs
  import opened Completion
  import T = OsTheorems

  /** At the loop head, or on the way there, with empty hands. */
  predicate Idle(v: Cpu) {
    v.proc.None? && (v.loc == Top || v.loc == Yield)
  }

  /** Then nothing is queued. */
  lemma NothingQueued(cfg: Config, k: Kernel)
    requires P.Inv(cfg, k) && Over(cfg, k)
    ensures Served(k.mlq).None?
  {
  }

  /** And a CPU that still holds a process is about to finish it. */
  lemma HoldsEnded(cfg: Config, k: Kernel, c: nat)
    requires P.Inv(cfg, k) && Over(cfg, k) && c < |k.cpus| && k.cpus[c].proc.Some?
    ensures k.pc[k.cpus[c].proc.value.pid - 1] == cfg.Size(k.cpus[c].proc.value)
    ensures k.cpus[c].loc == Top || k.cpus[c].loc == Yield
  {
    assert O.Shape(k, c) && P.CpuOk(cfg, k.pc, k.turns, k.cpus[c]);
    var j := k.cpus[c].proc.value.pid - 1;
    assert k.turns[j] >= cfg.Turns(j);
    assert k.pc[j] <= |cfg.jobs[j].code|;
  }

  // ---- One step ----

  /** The next_slot calls that a CPU with something in its hands has still to make. */
  function Calls(v: Cpu): nat {
    if v.loc == Yield then 1 else 0
  }

  /** An idle CPU stays idle; another does not become idle, calls next_slot at most once more, and once gone is gone. */
  predicate Drifts(k: Kernel, k': Kernel, c: nat)
    requires c < |k.cpus| == |k'.cpus| && c + 1 < |k.bar.devs| == |k'.bar.devs|
  {
    && (Idle(k'.cpus[c]) <==> Idle(k.cpus[c]))
    && (!Idle(k.cpus[c]) ==>
          k'.bar.devs[c + 1].announced + Calls(k'.cpus[c]) <= k.bar.devs[c + 1].announced + Calls(k.cpus[c]))
    && (B.Live(k'.bar.devs[c + 1]) ==> B.Live(k.bar.devs[c + 1]))
  }

  /** Where a CPU goes when nothing is queued and its process, if it has one, is at its end. */
  predicate Goes(v: Cpu, v': Cpu) {
    match v.loc
    case Top => v'.proc.None? && v'.loc == if v.proc.Some? then AfterFinish else Yield
    case Yield => v'.proc == v.proc && v'.loc == Top
    case Quit => v' == v
    case Check => v'.proc == v.proc && v'.loc == Quit
    case _ => v'.proc.None? && v'.loc == Check
  }

  lemma CpuGoes(cfg: Config, k: Kernel, c: nat)
    requires Wf(cfg, k) && k.ldr.done && Enabled(cfg, k, CpuAct(c)) && O.Shape(k, c) && Served(k.mlq).None?
    requires k.cpus[c].proc.Some? ==>
               && k.pc[k.cpus[c].proc.value.pid - 1] == cfg.Size(k.cpus[c].proc.value)
               && (k.cpus[c].loc == Top || k.cpus[c].loc == Yield)
    ensures |CpuStep(cfg, k, c).cpus| == |k.cpus| && Goes(k.cpus[c], CpuStep(cfg, k, c).cpus[c])
  {
  }

  lemma CpuDrifts(k: Kernel, k': Kernel, c: nat)
    requires c < |k.cpus| == |k'.cpus| && |k.bar.devs| == |k'.bar.devs| == |k.cpus| + 1 && O.Shape(k, c)
    requires k.bar.devs[c + 1].phase == B.Working && Goes(k.cpus[c], k'.cpus[c])
    requires k.cpus[c].proc.Some? ==> k.cpus[c].loc == Top || k.cpus[c].loc == Yield
    requires if k.cpus[c].loc == Yield then k'.bar == B.Step(k.bar, B.Announce(c + 1))
             else if k.cpus[c].loc == Quit then k'.bar == B.Step(k.bar, B.Detach(c + 1))
             else k'.bar == k.bar
    ensures Drifts(k, k', c)
  {
  }

  lemma OwnDrifts(cfg: Config, k: Kernel, c: nat)
    requires P.Inv(cfg, k) && Over(cfg, k) && Enabled(cfg, k, CpuAct(c)) && O.Shape(k, c)
    requires O.CpuFrame(k, CpuStep(cfg, k, c), c)
    ensures Drifts(k, CpuStep(cfg, k, c), c)
  {
    NothingQueued(cfg, k);
    if k.cpus[c].proc.Some? {
      HoldsEnded(cfg, k, c);
    }
    CpuGoes(cfg, k, c);
    CpuMoves(cfg, k, c);
    CpuDrifts(k, CpuStep(cfg, k, c), c);
  }

  /** A step that leaves the CPU and its device alone. */
  lemma OtherDrifts(k: Kernel, k': Kernel, c: nat)
    requires c < |k.cpus| == |k'.cpus| && c + 1 < |k.bar.devs| == |k'.bar.devs|
    requires k'.cpus[c] == k.cpus[c] && k'.bar.devs[c + 1] == k.bar.devs[c + 1]
    ensures Drifts(k, k', c)
  {
  }

  lemma BarDrifts(k: Kernel, a: B.Act, k': Kernel, c: nat)
    requires B.Inv(k.bar) && B.Enabled(k.bar, a) && !a.Announce? && !a.Detach?
    requires c < |k.cpus| && |k.bar.devs| == |k.cpus| + 1 && k'.cpus == k.cpus && k'.bar == B.Step(k.bar, a)
    ensures Drifts(k, k', c)
  {
    B.QuietStep(k.bar, a, c + 1);
  }

  lemma StepDrifts(cfg: Config, k: Kernel, act: Act, k': Kernel, c: nat)
    requires P.Inv(cfg, k) && Over(cfg, k) && Enabled(cfg, k, act) && k' == Step(cfg, k, act) && c < |k.cpus|
    ensures |k'.cpus| == |k.cpus| && |k'.bar.devs| == |k.bar.devs| == |k.cpus| + 1 && Drifts(k, k', c)
  {
    match act
    case Bar(a) => BarDrifts(k, a, k', c);
    case LdAct =>
      O.LdFrames(cfg, k);
      OtherDrifts(k, k', c);
    case CpuAct(e) =>
      O.CpuFrames(cfg, k, e);
      if e == c {
        assert O.Shape(k, c);
        OwnDrifts(cfg, k, c);
      } else {
        OtherDrifts(k, k', c);
      }
  }

  lemma StaysOver(cfg: Config, k: Kernel, act: Act, k': Kernel)
    requires P.Inv(cfg, k) && Over(cfg, k) && Enabled(cfg, k, act) && k' == Step(cfg, k, act) && Wf(cfg, k')
    ensures Over(cfg, k')
  {
    if Unfinished(cfg, k') {
      WasUnfinished(cfg, k, act);
    }
    match act
    case Bar(a) =>
    case LdAct => DoneStays(cfg, k);
    case CpuAct(c) => O.CpuFrames(cfg, k, c);
  }

  lemma DoneStays(cfg: Config, k: Kernel)
    requires Wf(cfg, k) && Enabled(cfg, k, LdAct) && O.LdShape(cfg, k) && k.ldr.done
    ensures LdStep(cfg, k).ldr.done
  {
  }

  // ---- Runs ----

  ghost predicate Onward(cfg: Config, k: Kernel, act: Act, k': Kernel, c: nat) {
    Over(cfg, k) && c < cfg.cpus ==> Over(cfg, k') && Drifts(k, k', c)
  }

  ghost predicate Drifting(cfg: Config, ks: seq<Kernel>, acts: seq<Act>, c: nat) {
    |ks| == |acts| + 1 && forall i :: 0 <= i < |acts| ==> Onward(cfg, ks[i], acts[i], ks[i + 1], c)
  }

  lemma RunDrifts(cfg: Config, ks: seq<Kernel>, acts: seq<Act>, c: nat)
    requires cfg.Ok() && IsRun(cfg, ks, acts)
    ensures Drifting(cfg, ks, acts, c)
  {
    forall i | 0 <= i < |acts|
      ensures Onward(cfg, ks[i], acts[i], ks[i + 1], c)
    {
      P.RunInv(cfg, ks, acts, i);
      P.RunInv(cfg, ks, acts, i + 1);
      StepOnward(cfg, ks[i], acts[i], ks[i + 1], c);
    }
  }

  lemma StepOnward(cfg: Config, k: Kernel, act: Act, k': Kernel, c: nat)
    requires P.Inv(cfg, k) && Enabled(cfg, k, act) && k' == Step(cfg, k, act) && Wf(cfg, k')
    ensures Onward(cfg, k, act, k', c)
  {
    if Over(cfg, k) && c < cfg.cpus {
      StepDrifts(cfg, k, act, k', c);
      StaysOver(cfg, k, act, k');
    }
  }

  lemma {:induction false} DriftsFar(cfg: Config, ks: seq<Kernel>, acts: seq<Act>, i: nat, j: nat, c: nat)
    requires Drifting(cfg, ks, acts, c) && i <= j < |ks| && Over(cfg, ks[i]) && c < cfg.cpus
    ensures Over(cfg, ks[j]) && Drifts(ks[i], ks[j], c)
    decreases j
  {
    if i < j {
      DriftsFar(cfg, ks, acts, i, j - 1, c);
      assert Onward(cfg, ks[j - 1], acts[j - 1], ks[j], c);
    }
  }

  /** A CPU that calls next_slot at most once more sees at most one more tick. */
  lemma OneTick(k: Kernel, k': Kernel, c: nat)
    requires c < |k.cpus| == |k'.cpus| && |k.bar.devs| == |k'.bar.devs| == |k.cpus| + 1
    requires B.Inv(k.bar) && B.Inv(k'.bar) && O.Shape(k, c) && !Idle(k.cpus[c]) && Drifts(k, k', c)
    requires B.Live(k.bar.devs[c + 1]) && B.Live(k'.bar.devs[c + 1])
    ensures k'.bar.time <= k.bar.time + 1
  {
    assert B.DevOk(k.bar.devs[c + 1]) && B.SlotOk(k.bar, c + 1);
    assert B.DevOk(k'.bar.devs[c + 1]) && B.SlotOk(k'.bar, c + 1);
  }

  lemma OneTickInRun(cfg: Config, ks: seq<Kernel>, acts: seq<Act>, i: nat, j: nat, c: nat)
    requires cfg.Ok() && IsRun(cfg, ks, acts) && i <= j < |ks| && Over(cfg, ks[i]) && c < cfg.cpus
    requires !Idle(ks[i].cpus[c]) && c + 1 < |ks[j].bar.devs| && B.Live(ks[j].bar.devs[c + 1])
    ensures ks[j].bar.time <= ks[i].bar.time + 1
  {
    RunDrifts(cfg, ks, acts, c);
    DriftsFar(cfg, ks, acts, i, j, c);
    O.RunInv(cfg, ks, acts, i);
    O.RunInv(cfg, ks, acts, j);
    assert O.Shape(ks[i], c);
    OneTick(ks[i], ks[j], c);
  }

  /** A run in which a thread is left and the clock ticks at most once is short. */
  lemma ShortRun(cfg: Config, ks: seq<Kernel>, acts: seq<Act>, i: nat, j: nat)
    requires cfg.Ok() && IsRun(cfg, ks, acts) && i <= j < |ks| && Alive(ks[j])
    requires ks[j].bar.time <= ks[i].bar.time + 1
    ensures j - i < 2 * SlotSteps(cfg) + 2 * WakesIn(acts, i, j)
  {
    RunAdvances(cfg, ks, acts);
    TimeCounts(cfg, ks, acts, i, j);
    StepsWithin(cfg, ks, acts, i, j);
    Overdue(cfg, ks, acts, i, j, 2);
  }

  /** A CPU that is not idle when everything is over leaves within two slots. */
  lemma Leaves(cfg: Config, ks: seq<Kernel>, acts: seq<Act>, i: nat, j: nat, c: nat)
    requires cfg.Ok() && IsRun(cfg, ks, acts) && i <= j < |ks| && Over(cfg, ks[i]) && c < cfg.cpus
    requires j - i >= 2 * SlotSteps(cfg) + 2 * WakesIn(acts, i, j) && !Idle(ks[i].cpus[c])
    ensures Wf(cfg, ks[j]) && ks[j].bar.devs[c + 1].phase == B.Detached
  {
    RunDrifts(cfg, ks, acts, c);
    DriftsFar(cfg, ks, acts, i, j, c);
    if B.Live(ks[j].bar.devs[c + 1]) {
      OneTickInRun(cfg, ks, acts, i, j, c);
      ShortRun(cfg, ks, acts, i, j);
    }
  }

  /** An idle CPU is not gone. */
  lemma IdleIsLive(cfg: Config, k: Kernel, c: nat)
    requires O.Inv(cfg, k) && c < |k.cpus| && Idle(k.cpus[c])
    ensures k.bar.devs[c + 1].phase != B.Detached
  {
    assert O.Shape(k, c);
  }

  /**
   * When everything has been loaded and run and `done` is set, the CPUs that ever stop are exactly those that are
   * not idle, and they do so within two slots. An idle one never does.
   */
  lemma StopsExactly(cfg: Config, ks: seq<Kernel>, acts: seq<Act>, i: nat, j: nat, c: nat)
    requires cfg.Ok() && IsRun(cfg, ks, acts) && i <= j < |ks| && Over(cfg, ks[i]) && c < cfg.cpus
    requires j - i >= 2 * SlotSteps(cfg) + 2 * WakesIn(acts, i, j)
    ensures Wf(cfg, ks[j]) && (ks[j].bar.devs[c + 1].phase == B.Detached <==> !Idle(ks[i].cpus[c]))
  {
    if Idle(ks[i].cpus[c]) {
      RunDrifts(cfg, ks, acts, c);
      DriftsFar(cfg, ks, acts, i, j, c);
      O.RunInv(cfg, ks, acts, j);
      IdleIsLive(cfg, ks[j], c);
    } else {
      Leaves(cfg, ks, acts, i, j, c);
    }
  }

  // ---- The loader and the timer ----

  /** The loader, once done, calls next_slot no more. */
  predicate LdDrifts(k: Kernel, k': Kernel)
    requires |k.bar.devs| > 0 && |k'.bar.devs| > 0
  {
    && k'.ldr.done
    && k'.bar.devs[0].announced == k.bar.devs[0].announced
    && (B.Live(k'.bar.devs[0]) ==> B.Live(k.bar.devs[0]))
  }

  lemma LdStepDrifts(cfg: Config, k: Kernel, act: Act, k': Kernel)
    requires O.Inv(cfg, k) && k.ldr.done && Enabled(cfg, k, act) && k' == Step(cfg, k, act)
    ensures |k'.bar.devs| == |k.bar.devs| > 0 && LdDrifts(k, k')
  {
    match act
    case Bar(a) => B.QuietStep(k.bar, a, 0);
    case LdAct => LdQuits(cfg, k);
    case CpuAct(c) => O.CpuFrames(cfg, k, c);
  }

  lemma LdQuits(cfg: Config, k: Kernel)
    requires Wf(cfg, k) && Enabled(cfg, k, LdAct) && O.LdShape(cfg, k) && k.ldr.done
    ensures LdStep(cfg, k).ldr == k.ldr && LdStep(cfg, k).bar == B.Step(k.bar, B.Detach(0))
  {
  }

  ghost predicate LdOnward(cfg: Config, k: Kernel, act: Act, k': Kernel) {
    && |k.bar.devs| > 0 && |k'.bar.devs| > 0
    && (k.ldr.done ==> LdDrifts(k, k'))
  }

  ghost predicate LdDrifting(cfg: Config, ks: seq<Kernel>, acts: seq<Act>) {
    |ks| == |acts| + 1 && forall i :: 0 <= i < |acts| ==> LdOnward(cfg, ks[i], acts[i], ks[i + 1])
  }

  lemma RunLdDrifts(cfg: Config, ks: seq<Kernel>, acts: seq<Act>)
    requires cfg.Ok() && IsRun(cfg, ks, acts)
    ensures LdDrifting(cfg, ks, acts)
  {
    forall i | 0 <= i < |acts|
      ensures LdOnward(cfg, ks[i], acts[i], ks[i + 1])
    {
      O.RunInv(cfg, ks, acts, i);
      O.RunInv(cfg, ks, acts, i + 1);
      if ks[i].ldr.done {
        LdStepDrifts(cfg, ks[i], acts[i], ks[i + 1]);
      }
    }
  }

  lemma {:induction false} LdDriftsFar(cfg: Config, ks: seq<Kernel>, acts: seq<Act>, i: nat, j: nat)
    requires LdDrifting(cfg, ks, acts) && i <= j < |ks| && ks[i].ldr.done && |ks[i].bar.devs| > 0
    ensures |ks[j].bar.devs| > 0 && LdDrifts(ks[i], ks[j])
    decreases j
  {
    if i < j {
      LdDriftsFar(cfg, ks, acts, i, j - 1);
      assert LdOnward(cfg, ks[j - 1], acts[j - 1], ks[j]);
    }
  }

  /** While the loader has still to detach, the clock stands still. */
  lemma NoTick(cfg: Config, k: Kernel, k': Kernel)
    requires O.Inv(cfg, k) && O.Inv(cfg, k') && k.ldr.done && LdDrifts(k, k') && B.Live(k'.bar.devs[0])
    ensures k'.bar.time == k.bar.time
  {
    assert O.LdShape(cfg, k) && O.LdShape(cfg, k');
    S.WorkingSlot(k.bar, 0);
    S.WorkingSlot(k'.bar, 0);
  }

  lemma LoaderLeaves(cfg: Config, ks: seq<Kernel>, acts: seq<Act>, i: nat, j: nat)
    requires cfg.Ok() && IsRun(cfg, ks, acts) && i <= j < |ks| && ks[i].ldr.done
    requires j - i >= 2 * SlotSteps(cfg) + 2 * WakesIn(acts, i, j)
    ensures |ks[j].bar.devs| > 0 && ks[j].bar.devs[0].phase == B.Detached
  {
    O.RunInv(cfg, ks, acts, i);
    O.RunInv(cfg, ks, acts, j);
    RunLdDrifts(cfg, ks, acts);
    LdDriftsFar(cfg, ks, acts, i, j);
    if B.Live(ks[j].bar.devs[0]) {
      NoTick(cfg, ks[i], ks[j]);
      ShortRun(cfg, ks, acts, i, j);
    }
  }

  /** When no CPU is idle all threads are gone within two slots. */
  lemma AllLeave(cfg: Config, ks: seq<Kernel>, acts: seq<Act>, i: nat, j: nat)
    requires cfg.Ok() && IsRun(cfg, ks, acts) && i <= j < |ks| && Over(cfg, ks[i])
    requires j - i >= 2 * SlotSteps(cfg) + 2 * WakesIn(acts, i, j)
    requires forall c :: 0 <= c < cfg.cpus ==> !Idle(ks[i].cpus[c])
    ensures !Alive(ks[j])
  {
    LoaderLeaves(cfg, ks, acts, i, j);
    O.RunInv(cfg, ks, acts, j);
    forall d | 0 < d < |ks[j].bar.devs|
      ensures ks[j].bar.devs[d].phase == B.Detached
    {
      Leaves(cfg, ks, acts, i, j, d - 1);
    }
  }

  /** main's stop_timer between states i and j. */
  function StopsIn(acts: seq<Act>, i: nat, j: nat): nat
    requires i <= j <= |acts|
    decreases j
  {
    if i == j then 0 else StopsIn(acts, i, j - 1) + if acts[j - 1] == Bar(B.Stop) then 1 else 0
  }

  ghost predicate Nears(k: Kernel, act: Act, k': Kernel) {
    !Alive(k) ==>
      && !Alive(k')
      && B.ExitRank(k'.bar) + 1 <= B.ExitRank(k.bar) + if act == Bar(B.Stop) then 1 else 0
  }

  lemma StepNears(cfg: Config, k: Kernel, act: Act, k': Kernel)
    requires O.Inv(cfg, k) && Enabled(cfg, k, act) && k' == Step(cfg, k, act)
    ensures Nears(k, act, k')
  {
    if !Alive(k) {
      assert act.Bar?;
      B.ExitSinks(k.bar, act.a);
    }
  }

  ghost predicate Nearing(ks: seq<Kernel>, acts: seq<Act>) {
    |ks| == |acts| + 1 && forall i :: 0 <= i < |acts| ==> Nears(ks[i], acts[i], ks[i + 1])
  }

  lemma RunNears(cfg: Config, ks: seq<Kernel>, acts: seq<Act>)
    requires cfg.Ok() && IsRun(cfg, ks, acts)
    ensures Nearing(ks, acts)
  {
    forall i | 0 <= i < |acts|
      ensures Nears(ks[i], acts[i], ks[i + 1])
    {
      O.RunInv(cfg, ks, acts, i);
      StepNears(cfg, ks[i], acts[i], ks[i + 1]);
    }
  }

  lemma {:induction false} TimerNears(ks: seq<Kernel>, acts: seq<Act>, i: nat, j: nat)
    requires Nearing(ks, acts) && i <= j < |ks| && !Alive(ks[i])
    ensures !Alive(ks[j]) && B.ExitRank(ks[j].bar) + (j - i) <= B.ExitRank(ks[i].bar) + StopsIn(acts, i, j)
    decreases j
  {
    if i < j {
      TimerNears(ks, acts, i, j - 1);
      assert Nears(ks[j - 1], acts[j - 1], ks[j]);
    }
  }

  /** After the last thread has detached the timer exits within 4 cpus + 10 steps. */
  lemma TimerFollows(cfg: Config, ks: seq<Kernel>, acts: seq<Act>, i: nat, j: nat)
    requires cfg.Ok() && IsRun(cfg, ks, acts) && i <= j < |ks| && !Alive(ks[i])
    requires j - i >= 4 * cfg.cpus + 10 + StopsIn(acts, i, j)
    ensures ks[j].bar.timer.Exited?
  {
    O.RunInv(cfg, ks, acts, i);
    O.RunInv(cfg, ks, acts, j);
    RunNears(cfg, ks, acts);
    TimerNears(ks, acts, i, j);
    B.ExitRankBound(ks[i].bar);
    B.ExitRankBound(ks[j].bar);
  }

  /** The timer does not exit while a CPU is idle, for that one has not detached. */
  lemma IdleHoldsTimer(cfg: Config, k: Kernel, c: nat)
    requires O.Inv(cfg, k) && c < |k.cpus| && Idle(k.cpus[c])
    ensures Alive(k) && !k.bar.timer.Exited?
  {
    IdleIsLive(cfg, k, c);
  }

  /**
   * So from the state in which all work is sure to be done, the simulation comes to an end if no CPU is idle then,
   * all threads within two slots and the timer within 4 cpus + 10 steps more, and never does otherwise.
   */
  lemma EndsExactly(cfg: Config, ks: seq<Kernel>, acts: seq<Act>, i: nat, m: nat, j: nat)
    requires cfg.Ok() && IsRun(cfg, ks, acts) && i <= m <= j < |ks|
    requires i >= SlotSteps(cfg) * SlotsNeeded(cfg) + 2 * WakesIn(acts, 0, i)
    requires m - i >= 2 * SlotSteps(cfg) + 2 * WakesIn(acts, i, m)
    requires j - m >= 4 * cfg.cpus + 10 + StopsIn(acts, m, j)
    ensures Wf(cfg, ks[i])
    ensures (forall c :: 0 <= c < cfg.cpus ==> !Idle(ks[i].cpus[c])) <==> !Alive(ks[m])
    ensures (forall c :: 0 <= c < cfg.cpus ==> !Idle(ks[i].cpus[c])) <==> ks[j].bar.timer.Exited?
  {
    Completes(cfg, ks, acts, i);
    if forall c :: 0 <= c < cfg.cpus ==> !Idle(ks[i].cpus[c]) {
      AllLeave(cfg, ks, acts, i, m);
      TimerFollows(cfg, ks, acts, m, j);
    } else {
      var c :| 0 <= c < cfg.cpus && Idle(ks[i].cpus[c]);
      StaysIdle(cfg, ks, acts, i, m, c);
      StaysIdle(cfg, ks, acts, i, j, c);
    }
  }

  lemma StaysIdle(cfg: Config, ks: seq<Kernel>, acts: seq<Act>, i: nat, j: nat, c: nat)
    requires cfg.Ok() && IsRun(cfg, ks, acts) && i <= j < |ks| && Over(cfg, ks[i]) && c < cfg.cpus
    requires Idle(ks[i].cpus[c])
    ensures Alive(ks[j]) && !ks[j].bar.timer.Exited?
  {
    RunDrifts(cfg, ks, acts, c);
    DriftsFar(cfg, ks, acts, i, j, c);
    O.RunInv(cfg, ks, acts, j);
    IdleHoldsTimer(cfg, ks[j], c);
  }

  // ---- Configurations that never come to an end ----

  function Engaged(cpus: seq<Cpu>): nat {
    if cpus == [] then 0 else (if Idle(cpus[0]) then 0 else 1) + Engaged(cpus[1..])
  }

  lemma {:induction false} EngagedUpdate(cpus: seq<Cpu>, c: nat, v: Cpu)
    requires c < |cpus|
    ensures Engaged(cpus[c := v]) + (if Idle(cpus[c]) then 0 else 1) == Engaged(cpus) + (if Idle(v) then 0 else 1)
    decreases |cpus|
  {
    var r := cpus[c := v];
    if c == 0 {
      assert r[1..] == cpus[1..];
    } else {
      assert r[1..] == cpus[1..][c - 1 := v];
      EngagedUpdate(cpus[1..], c - 1, v);
    }
  }

  lemma {:induction false} SomeIdle(cpus: seq<Cpu>) returns (c: nat)
    requires Engaged(cpus) < |cpus|
    ensures c < |cpus| && Idle(cpus[c])
    decreases |cpus|
  {
    if Idle(cpus[0]) {
      c := 0;
    } else {
      c := SomeIdle(cpus[1..]);
      c := c + 1;
    }
  }

  /** Every program is done within its first quantum. */
  predicate Short(cfg: Config) {
    forall j :: 0 <= j < |cfg.jobs| ==> |cfg.jobs[j].code| <= cfg.quantum
  }

  /** Each process keeps at most one CPU from being idle. */
  predicate Few(k: Kernel) {
    k.mlq.Wf() && Engaged(k.cpus) + |ReadyBag(k.mlq.ready)| <= k.ldr.next
  }

  /** No process is put back on a queue. */
  lemma NoPut(cfg: Config, k: Kernel, c: nat)
    requires Short(cfg) && P.Inv(cfg, k) && c < |k.cpus| && k.cpus[c].loc == Top && k.cpus[c].proc.Some?
    requires k.cpus[c].timeLeft == 0
    ensures k.pc[k.cpus[c].proc.value.pid - 1] == cfg.Size(k.cpus[c].proc.value)
  {
    assert P.CpuOk(cfg, k.pc, k.turns, k.cpus[c]);
    var p := k.cpus[c].proc.value;
    assert k.pc[p.pid - 1] <= |cfg.jobs[p.pid - 1].code|;
    if k.pc[p.pid - 1] < cfg.Size(p) {
      T.QuantumUsed(cfg, k.pc, k.turns, k.cpus[c], p);
    }
  }

  /** A step other than a dispatch and a put_proc, which leaves the queues alone and makes no CPU busy. */
  lemma FewRest(cfg: Config, k: Kernel, c: nat)
    requires Wf(cfg, k) && Few(k) && Enabled(cfg, k, CpuAct(c)) && O.Shape(k, c)
    requires O.CpuFrame(k, CpuStep(cfg, k, c), c)
    requires CpuStep(cfg, k, c).mlq.ready == k.mlq.ready && CpuStep(cfg, k, c).mlq.Wf()
    requires Idle(k.cpus[c]) ==> Idle(CpuStep(cfg, k, c).cpus[c])
    ensures Few(CpuStep(cfg, k, c))
  {
    EngagedUpdate(k.cpus, c, CpuStep(cfg, k, c).cpus[c]);
  }

  lemma FewGet(cfg: Config, k: Kernel, c: nat, timeLeft: nat, none: Loc)
    requires Wf(cfg, k) && Few(k) && c < |k.cpus|
    requires Idle(k.cpus[c]) ==> none == Yield
    ensures Few(GetProc(cfg, k, c, timeLeft, none))
  {
    var k' := GetProc(cfg, k, c, timeLeft, none);
    GetBag(k.mlq);
    EngagedUpdate(k.cpus, c, k'.cpus[c]);
    if Served(k.mlq).Some? {
      assert |ReadyBag(k.mlq.ready)| == |ReadyBag(k'.mlq.ready)| + 1;
    }
  }

  lemma FewTop(cfg: Config, k: Kernel, c: nat)
    requires Short(cfg) && P.Inv(cfg, k) && Few(k) && Enabled(cfg, k, CpuAct(c))
    requires k.cpus[c].loc == Top && k.cpus[c].proc.Some?
    ensures Few(CpuStep(cfg, k, c))
  {
    assert O.Shape(k, c);
    O.CpuFrames(cfg, k, c);
    if k.cpus[c].timeLeft == 0 {
      NoPut(cfg, k, c);
    }
    FewRest(cfg, k, c);
  }

  lemma FewCpu(cfg: Config, k: Kernel, c: nat)
    requires Short(cfg) && P.Inv(cfg, k) && Few(k) && Enabled(cfg, k, CpuAct(c))
    ensures Few(CpuStep(cfg, k, c))
  {
    var v := k.cpus[c];
    if v.loc == Top && v.proc.Some? {
      FewTop(cfg, k, c);
    } else if v.loc == Top {
      FewGet(cfg, k, c, v.timeLeft, Yield);
    } else if v.loc == AfterFinish {
      FewGet(cfg, k, c, 0, Check);
    } else if v.loc == AfterPut {
      FewGet(cfg, k, c, v.timeLeft, Check);
    } else {
      assert O.Shape(k, c);
      O.CpuFrames(cfg, k, c);
      O.RestKeeps(cfg, k, c);
      FewRest(cfg, k, c);
    }
  }

  lemma FewLd(cfg: Config, k: Kernel)
    requires P.Inv(cfg, k) && Few(k) && Enabled(cfg, k, LdAct)
    ensures Few(LdStep(cfg, k))
  {
    O.LdEffect(cfg, k);
    if k.ldr.loc == LdLoad && k.ldr.next < |cfg.jobs| {
      S.AddAtMostOne(k.mlq, cfg.Pcb(k.ldr.next));
    }
  }

  lemma FewStep(cfg: Config, k: Kernel, act: Act)
    requires Short(cfg) && P.Inv(cfg, k) && Few(k) && Enabled(cfg, k, act)
    ensures Few(Step(cfg, k, act))
  {
    match act
    case Bar(a) =>
    case CpuAct(c) => FewCpu(cfg, k, c);
    case LdAct => FewLd(cfg, k);
  }

  lemma {:induction false} NoneEngaged(cpus: seq<Cpu>)
    requires forall c :: 0 <= c < |cpus| ==> Idle(cpus[c])
    ensures Engaged(cpus) == 0
    decreases |cpus|
  {
    if cpus != [] {
      NoneEngaged(cpus[1..]);
    }
  }

  lemma FewAtBoot(cfg: Config)
    ensures Few(Boot(cfg))
  {
    NoneEngaged(Boot(cfg).cpus);
    ReadyEmpty(Boot(cfg).mlq.ready);
  }

  lemma FewNext(cfg: Config, ks: seq<Kernel>, acts: seq<Act>, i: nat)
    requires cfg.Ok() && Short(cfg) && IsRun(cfg, ks, acts) && i < |acts| && Few(ks[i])
    ensures Few(ks[i + 1])
  {
    P.RunInv(cfg, ks, acts, i);
    assert ks[i + 1] == Step(cfg, ks[i], acts[i]);
    FewStep(cfg, ks[i], acts[i]);
  }

  lemma {:induction false} FewInRun(cfg: Config, ks: seq<Kernel>, acts: seq<Act>, i: nat)
    requires cfg.Ok() && Short(cfg) && IsRun(cfg, ks, acts) && i < |ks|
    ensures Few(ks[i])
    decreases i
  {
    if i == 0 {
      FewAtBoot(cfg);
    } else {
      FewInRun(cfg, ks, acts, i - 1);
      FewNext(cfg, ks, acts, i - 1);
    }
  }

  /**
   * With more CPUs than processes, and every program done within its first quantum, the simulation never comes to
   * an end: in every state of every run some CPU is idle, and so has not stopped.
   */
  lemma NeverStops(cfg: Config, ks: seq<Kernel>, acts: seq<Act>, i: nat) returns (c: nat)
    requires cfg.Ok() && Short(cfg) && |cfg.jobs| < cfg.cpus && IsRun(cfg, ks, acts) && i < |ks|
    ensures Wf(cfg, ks[i]) && c < cfg.cpus && Idle(ks[i].cpus[c]) && B.Live(ks[i].bar.devs[c + 1])
  {
    O.RunInv(cfg, ks, acts, i);
    FewInRun(cfg, ks, acts, i);
    c := SomeIdle(ks[i].cpus);
    IdleIsLive(cfg, ks[i], c);
  }
}
