/**
 * Every time slot that starts after loading with work left gets some of it done, so the number of such slots is
 * bounded by the work left: the instructions, and one turn for every program that has none.
 */
module Progress {
  import opened Queues
  import opened Mlqs
  import opened Kernels
  import opened Bags
  import B = Barriers
  import O = Ownership
  import S = Stranded
  import P = Programs

  /** No work has been done since the last tick, and it found some. */
  predicate Pending(cfg: Config, k: Kernel)
    requires Wf(cfg, k)
  {
    k.tick.busy && Work(cfg, k) == k.tick.work
  }

  /** CPU c has still to fetch or run a process in this slot. */
  predicate Due(k: Kernel, c: nat)
    requires c < |k.cpus| && |k.bar.devs| == |k.cpus| + 1
  {
    var v := k.cpus[c];
    && B.Live(k.bar.devs[c + 1]) && k.bar.devs[c + 1].announced == k.bar.time
    && v.loc != Yield && v.loc != Quit && !S.SawNothing(v)
  }

  predicate HoldsWork(cfg: Config, k: Kernel, c: nat)
    requires Wf(cfg, k) && c < |k.cpus|
  {
    k.cpus[c].proc.Some? && P.Runnable(cfg, k.turns, k.cpus[c].proc.value)
  }

  ghost predicate SomeoneDue(k: Kernel)
    requires |k.bar.devs| == |k.cpus| + 1
  {
    exists c :: 0 <= c < |k.cpus| && Due(k, c)
  }

  ghost predicate WillRun(cfg: Config, k: Kernel)
    requires Wf(cfg, k)
  {
    && (k.tick.busy ==> k.ldr.next == |cfg.jobs| && Work(cfg, k) <= k.tick.work)
    && (Pending(cfg, k) ==>
          && Busy(cfg, k)
          && (forall c :: 0 <= c < |k.cpus| && HoldsWork(cfg, k, c) ==> Due(k, c))
          && (ReadyBag(k.mlq.ready) != multiset{} ==> SomeoneDue(k)))
  }

  ghost predicate Inv(cfg: Config, k: Kernel) {
    S.Inv(cfg, k) && P.Inv(cfg, k) && WillRun(cfg, k)
  }

  lemma BootInv(cfg: Config)
    requires cfg.Ok()
    ensures Inv(cfg, Boot(cfg))
  {
    S.BootInv(cfg);
    P.BootInv(cfg);
  }

  // ---- Barrier steps ----

  /** When the clock ticks every live CPU waits at the barrier at its loop head. */
  lemma TickWaits(cfg: Config, k: Kernel, c: nat)
    requires O.Inv(cfg, k) && Ticks(k, Bar(B.TimerStep)) && c < |k.cpus| && B.Live(k.bar.devs[c + 1])
    ensures k.bar.devs[c + 1].announced == k.bar.time + 1 && k.cpus[c].loc == Top
  {
    assert B.DevOk(k.bar.devs[c + 1]) && B.SlotOk(k.bar, c + 1);
    assert O.Shape(k, c);
  }

  /** As long as work is queued somebody stays to fetch it. */
  lemma SomeoneStays(cfg: Config, k: Kernel) returns (c: nat)
    requires cfg.Ok() && S.Inv(cfg, k) && ReadyBag(k.mlq.ready) != multiset{}
    ensures c < |k.cpus| && S.Present(k, c)
  {
    if forall e :: 0 <= e < |k.cpus| ==> !S.Present(k, e) {
      S.AllGone(cfg, k);
    }
    c :| 0 <= c < |k.cpus| && S.Present(k, c);
  }

  /** After a tick every CPU still there is due. */
  lemma TickDue(cfg: Config, k: Kernel, k': Kernel, c: nat)
    requires O.Inv(cfg, k) && Ticks(k, Bar(B.TimerStep)) && c < |k.cpus| && S.Present(k, c)
    requires k'.cpus == k.cpus && k'.bar == B.TimerMove(k.bar)
    ensures Due(k', c)
  {
    TickWaits(cfg, k, c);
  }

  lemma TickRuns(cfg: Config, k: Kernel)
    requires cfg.Ok() && Inv(cfg, k) && Enabled(cfg, k, Bar(B.TimerStep)) && Ticks(k, Bar(B.TimerStep))
    requires Wf(cfg, Step(cfg, k, Bar(B.TimerStep)))
    ensures WillRun(cfg, Step(cfg, k, Bar(B.TimerStep)))
  {
    var k' := Step(cfg, k, Bar(B.TimerStep));
    forall c | 0 <= c < |k'.cpus| && HoldsWork(cfg, k', c)
      ensures Due(k', c)
    {
      assert O.Shape(k, c);
      TickDue(cfg, k, k', c);
    }
    if ReadyBag(k'.mlq.ready) != multiset{} {
      var c := SomeoneStays(cfg, k);
      TickDue(cfg, k, k', c);
    }
  }

  lemma BarDue(k: Kernel, k': Kernel, a: B.Act, c: nat)
    requires B.Inv(k.bar) && B.Enabled(k.bar, a) && !a.Announce? && !a.Detach? && !Ticks(k, Bar(a))
    requires |k.bar.devs| == |k.cpus| + 1 && c < |k.cpus|
    requires k'.bar == B.Step(k.bar, a) && k'.cpus == k.cpus
    ensures Due(k, c) ==> Due(k', c)
  {
    B.QuietStep(k.bar, a, c + 1);
  }

  lemma BarRuns(cfg: Config, k: Kernel, a: B.Act)
    requires Inv(cfg, k) && Enabled(cfg, k, Bar(a)) && !Ticks(k, Bar(a)) && Wf(cfg, Step(cfg, k, Bar(a)))
    ensures WillRun(cfg, Step(cfg, k, Bar(a)))
  {
    StillRuns(cfg, k, Step(cfg, k, Bar(a)), a);
  }

  lemma StillRuns(cfg: Config, k: Kernel, k': Kernel, a: B.Act)
    requires Wf(cfg, k) && Wf(cfg, k') && WillRun(cfg, k)
    requires B.Inv(k.bar) && B.Enabled(k.bar, a) && !a.Announce? && !a.Detach? && !Ticks(k, Bar(a))
    requires k' == k.(bar := B.Step(k.bar, a))
    ensures WillRun(cfg, k')
  {
    forall c | 0 <= c < |k.cpus|
      ensures (Due(k, c) ==> Due(k', c)) && (HoldsWork(cfg, k', c) ==> HoldsWork(cfg, k, c))
    {
      BarDue(k, k', a, c);
    }
    if Pending(cfg, k') && ReadyBag(k'.mlq.ready) != multiset{} {
      var c :| 0 <= c < |k.cpus| && Due(k, c);
      assert Due(k', c);
    }
  }

  // ---- Thread steps ----

  lemma {:induction false} WorkDrops(cfg: Config, turns: seq<nat>, j: nat, n: nat)
    requires n <= |cfg.jobs| == |turns| && j < |turns|
    ensures WorkOf(cfg, turns[j := turns[j] + 1], n) == WorkOf(cfg, turns, n) - if j < n then 1 else 0
    decreases n
  {
    if n > 0 {
      WorkDrops(cfg, turns, j, n - 1);
    }
  }

  /** What a CPU's step does to the turns. */
  lemma CpuTurns(cfg: Config, k: Kernel, c: nat)
    requires Wf(cfg, k) && Enabled(cfg, k, CpuAct(c)) && O.Shape(k, c)
    ensures var k' := CpuStep(cfg, k, c);
            if k.cpus[c].loc == Run then var j := k.cpus[c].proc.value.pid - 1; k'.turns == k.turns[j := k.turns[j] + 1]
            else k'.turns == k.turns
  {
  }

  /** A CPU that was due and has not executed anything is still due, or has found the queues empty. */
  lemma CpuDue(cfg: Config, k: Kernel, c: nat)
    requires Wf(cfg, k) && Enabled(cfg, k, CpuAct(c)) && k.cpus[c].loc != Run
    requires O.Shape(k, c) && k.bar.devs[c + 1].announced == k.bar.time
    requires k.cpus[c].loc != Yield && k.cpus[c].loc != Quit && !S.SawNothing(k.cpus[c])
    ensures var k' := CpuStep(cfg, k, c);
            k'.bar == k.bar && |k'.cpus| == |k.cpus|
            && (Due(k', c) || (k'.cpus[c].proc.None? && Served(k.mlq).None? && k'.mlq == Get(k.mlq)))
  {
  }

  /** A CPU that is not due and holds no work stays without work. */
  lemma CpuEmpty(cfg: Config, k: Kernel, c: nat)
    requires Wf(cfg, k) && Enabled(cfg, k, CpuAct(c)) && Wf(cfg, CpuStep(cfg, k, c))
    requires k.cpus[c].loc == Yield || k.cpus[c].loc == Quit || S.SawNothing(k.cpus[c])
    requires !HoldsWork(cfg, k, c)
    ensures !HoldsWork(cfg, CpuStep(cfg, k, c), c) && CpuStep(cfg, k, c).mlq == k.mlq
  {
  }

  lemma CpuRuns(cfg: Config, k: Kernel, c: nat)
    requires Wf(cfg, k) && WillRun(cfg, k) && B.Inv(k.bar)
    requires Enabled(cfg, k, CpuAct(c)) && O.Shape(k, c) && Wf(cfg, CpuStep(cfg, k, c))
    ensures WillRun(cfg, CpuStep(cfg, k, c))
  {
    CpuTurns(cfg, k, c);
    O.CpuFrames(cfg, k, c);
    if k.cpus[c].loc == Run {
      RunRuns(cfg, k, CpuStep(cfg, k, c), k.cpus[c].proc.value.pid - 1);
    } else if k.cpus[c].loc == Yield || k.cpus[c].loc == Quit || S.SawNothing(k.cpus[c]) {
      PassRuns(cfg, k, c);
    } else {
      S.WorkingSlot(k.bar, c + 1);
      FetchRuns(cfg, k, c);
    }
  }

  /** The step that runs a process. */
  lemma RunRuns(cfg: Config, k: Kernel, k': Kernel, j: nat)
    requires Wf(cfg, k) && Wf(cfg, k') && WillRun(cfg, k)
    requires k'.ldr == k.ldr && k'.tick == k.tick && j < |cfg.jobs| && k'.turns == k.turns[j := k.turns[j] + 1]
    ensures WillRun(cfg, k')
  {
    WorkDrops(cfg, k.turns, j, |cfg.jobs|);
  }

  /** A step of a CPU that is not due. */
  lemma PassRuns(cfg: Config, k: Kernel, c: nat)
    requires Wf(cfg, k) && WillRun(cfg, k) && Enabled(cfg, k, CpuAct(c)) && Wf(cfg, CpuStep(cfg, k, c))
    requires k.cpus[c].loc == Yield || k.cpus[c].loc == Quit || S.SawNothing(k.cpus[c])
    requires O.CpuFrame(k, CpuStep(cfg, k, c), c)
    requires CpuStep(cfg, k, c).turns == k.turns
    ensures WillRun(cfg, CpuStep(cfg, k, c))
  {
    if Pending(cfg, k) {
      CpuEmpty(cfg, k, c);
      OtherDue(cfg, k, CpuStep(cfg, k, c), c);
    }
  }

  /** A step of a CPU that is due, other than running its process. */
  lemma FetchRuns(cfg: Config, k: Kernel, c: nat)
    requires Wf(cfg, k) && WillRun(cfg, k) && Enabled(cfg, k, CpuAct(c)) && Wf(cfg, CpuStep(cfg, k, c))
    requires O.Shape(k, c) && k.cpus[c].loc != Run && k.bar.devs[c + 1].announced == k.bar.time
    requires k.cpus[c].loc != Yield && k.cpus[c].loc != Quit && !S.SawNothing(k.cpus[c])
    requires O.CpuFrame(k, CpuStep(cfg, k, c), c)
    requires CpuStep(cfg, k, c).turns == k.turns
    ensures WillRun(cfg, CpuStep(cfg, k, c))
  {
    if Pending(cfg, k) {
      CpuDue(cfg, k, c);
      OtherDue(cfg, k, CpuStep(cfg, k, c), c);
      GetBag(k.mlq);
      FetchLeaves(cfg, k, CpuStep(cfg, k, c), c);
    }
  }

  lemma FetchLeaves(cfg: Config, k: Kernel, k': Kernel, c: nat)
    requires Wf(cfg, k) && Wf(cfg, k') && WillRun(cfg, k) && Pending(cfg, k) && c < |k.cpus| && O.CpuFrame(k, k', c)
    requires k'.turns == k.turns
    requires forall e :: 0 <= e < |k'.cpus| && e != c && HoldsWork(cfg, k', e) ==> Due(k', e)
    requires Due(k', c) || (k'.cpus[c].proc.None? && ReadyBag(k'.mlq.ready) == multiset{})
    ensures WillRun(cfg, k')
  {
  }

  lemma OtherDue(cfg: Config, k: Kernel, k': Kernel, c: nat)
    requires Wf(cfg, k) && Wf(cfg, k') && WillRun(cfg, k) && Pending(cfg, k) && c < |k.cpus| && O.CpuFrame(k, k', c)
    requires k'.turns == k.turns
    ensures forall e :: 0 <= e < |k'.cpus| && e != c && HoldsWork(cfg, k', e) ==> Due(k', e)
    ensures forall e :: 0 <= e < |k'.cpus| && e != c && Due(k, e) ==> Due(k', e)
    ensures ReadyBag(k.mlq.ready) != multiset{} && !Due(k, c) ==> SomeoneDue(k')
  {
    forall e | 0 <= e < |k'.cpus| && e != c && HoldsWork(cfg, k', e)
      ensures Due(k', e)
    {
      assert HoldsWork(cfg, k, e);
    }
    if ReadyBag(k.mlq.ready) != multiset{} && !Due(k, c) {
      var e :| 0 <= e < |k.cpus| && Due(k, e);
      assert Due(k', e);
    }
  }

  lemma LdRuns(cfg: Config, k: Kernel)
    requires Wf(cfg, k) && WillRun(cfg, k) && Enabled(cfg, k, LdAct) && Wf(cfg, LdStep(cfg, k))
    ensures WillRun(cfg, LdStep(cfg, k))
  {
    O.LdFrames(cfg, k);
    O.LdEffect(cfg, k);
    LdLeaves(cfg, k, LdStep(cfg, k));
  }

  /** Once loading is complete the loader's steps make no difference. */
  lemma LdLeaves(cfg: Config, k: Kernel, k': Kernel)
    requires Wf(cfg, k) && Wf(cfg, k') && WillRun(cfg, k) && O.LdFrame(k, k')
    requires k.ldr.next == |cfg.jobs| ==> k'.mlq == k.mlq && k'.ldr.next == k.ldr.next
    ensures WillRun(cfg, k')
  {
    if Pending(cfg, k') {
      forall c | 0 <= c < |k.cpus|
        ensures (Due(k, c) ==> Due(k', c)) && (HoldsWork(cfg, k', c) ==> HoldsWork(cfg, k, c))
      {
      }
      if ReadyBag(k'.mlq.ready) != multiset{} {
        var c :| 0 <= c < |k.cpus| && Due(k, c);
        assert Due(k', c);
      }
    }
  }

  lemma StepRuns(cfg: Config, k: Kernel, act: Act)
    requires cfg.Ok() && Inv(cfg, k) && Enabled(cfg, k, act) && Wf(cfg, Step(cfg, k, act))
    ensures WillRun(cfg, Step(cfg, k, act))
  {
    match act
    case Bar(a) =>
      if Ticks(k, act) {
        TickRuns(cfg, k);
      } else {
        BarRuns(cfg, k, a);
      }
    case CpuAct(c) =>
      assert O.Shape(k, c);
      CpuRuns(cfg, k, c);
    case LdAct => LdRuns(cfg, k);
  }

  lemma StepInv(cfg: Config, k: Kernel, act: Act)
    requires cfg.Ok() && Inv(cfg, k) && Enabled(cfg, k, act)
    requires Live(k) <= MAX_QUEUE_SIZE && Live(Step(cfg, k, act)) <= MAX_QUEUE_SIZE
    ensures Inv(cfg, Step(cfg, k, act))
  {
    S.StepInv(cfg, k, act);
    P.StepInv(cfg, k, act);
    StepRuns(cfg, k, act);
  }

  lemma {:induction false} RunInv(cfg: Config, ks: seq<Kernel>, acts: seq<Act>, i: nat)
    requires cfg.Ok() && IsRun(cfg, ks, acts) && i < |ks|
    ensures Inv(cfg, ks[i])
    decreases i
  {
    if i == 0 {
      BootInv(cfg);
    } else {
      RunInv(cfg, ks, acts, i - 1);
      assert ks[i] == Step(cfg, ks[i - 1], acts[i - 1]);
      StepInv(cfg, ks[i - 1], acts[i - 1]);
    }
  }

  /** A process with turns left that is not queued is in some CPU's hands. */
  lemma WorkHolder(cfg: Config, k: Kernel) returns (c: nat)
    requires Wf(cfg, k) && ReadyBag(k.mlq.ready) + HeldBag(k.cpus) + k.finished == LoadedBag(cfg, k.ldr.next)
    requires |k.turns| == |cfg.jobs| && P.FinishedOk(cfg, k) && Busy(cfg, k) && ReadyBag(k.mlq.ready) == multiset{}
    ensures c < |k.cpus| && HoldsWork(cfg, k, c)
  {
    var j :| 0 <= j < k.ldr.next && k.turns[j] < cfg.Turns(j);
    var p := cfg.Pcb(j);
    LoadedOnce(cfg, k.ldr.next, p);
    assert p !in k.finished;
    OnlyHeld(ReadyBag(k.mlq.ready), HeldBag(k.cpus), k.finished, p);
    c := HeldWhere(k.cpus, p);
  }

  lemma OnlyHeld<T>(r: multiset<T>, h: multiset<T>, f: multiset<T>, x: T)
    requires x in r + h + f && r == multiset{} && x !in f
    ensures x in h
  {
  }

  lemma SomeoneIsDue(cfg: Config, k: Kernel) returns (c: nat)
    requires Inv(cfg, k) && Pending(cfg, k)
    ensures c < |k.cpus| && Due(k, c)
  {
    if ReadyBag(k.mlq.ready) != multiset{} {
      c :| 0 <= c < |k.cpus| && Due(k, c);
    } else {
      c := WorkHolder(cfg, k);
    }
  }

  lemma TickNotDue(cfg: Config, k: Kernel, c: nat)
    requires O.Inv(cfg, k) && Ticks(k, Bar(B.TimerStep)) && c < |k.cpus|
    ensures !Due(k, c)
  {
    if B.Live(k.bar.devs[c + 1]) {
      TickWaits(cfg, k, c);
    }
  }

  /** A slot that started with work left has done some of it by the time it ends. */
  lemma SlotExecutes(cfg: Config, k: Kernel)
    requires cfg.Ok() && Inv(cfg, k) && Ticks(k, Bar(B.TimerStep)) && k.tick.busy
    ensures Work(cfg, k) < k.tick.work
  {
    if Pending(cfg, k) {
      var c := SomeoneIsDue(cfg, k);
      TickNotDue(cfg, k, c);
    }
  }

  // ---- Counting slots ----

  /** Work left somewhere makes the total positive. */
  lemma {:induction false} WorkPositive(cfg: Config, turns: seq<nat>, n: nat)
    requires n <= |cfg.jobs| == |turns| && forall j :: 0 <= j < n ==> turns[j] <= cfg.Turns(j)
    ensures WorkOf(cfg, turns, n) >= 0
    ensures (exists j :: 0 <= j < n && turns[j] < cfg.Turns(j)) ==> WorkOf(cfg, turns, n) >= 1
    decreases n
  {
    if n > 0 {
      WorkPositive(cfg, turns, n - 1);
    }
  }

  /** The slots that have begun with work left, and the work left, less what the current slot is bound to do. */
  function Potential(cfg: Config, k: Kernel): int
    requires Wf(cfg, k)
  {
    k.tick.count + Work(cfg, k) - if Pending(cfg, k) then 1 else 0
  }

  lemma PotentialBounds(cfg: Config, k: Kernel)
    requires Inv(cfg, k)
    ensures k.tick.count <= Potential(cfg, k) <= k.tick.count + Work(cfg, k)
  {
    WorkPositive(cfg, k.turns, |cfg.jobs|);
    if Pending(cfg, k) {
      var j :| 0 <= j < k.ldr.next && k.turns[j] < cfg.Turns(j);
      assert 0 <= j < |cfg.jobs| && k.turns[j] < cfg.Turns(j);
    }
  }

  lemma PotentialCpu(cfg: Config, k: Kernel, c: nat)
    requires Wf(cfg, k) && Enabled(cfg, k, CpuAct(c)) && Wf(cfg, CpuStep(cfg, k, c))
    requires O.Shape(k, c) && (k.tick.busy ==> Work(cfg, k) <= k.tick.work)
    ensures Potential(cfg, CpuStep(cfg, k, c)) <= Potential(cfg, k)
  {
    CpuTurns(cfg, k, c);
    if k.cpus[c].loc == Run {
      WorkDrops(cfg, k.turns, k.cpus[c].proc.value.pid - 1, |cfg.jobs|);
    }
    CpuTick(cfg, k, c);
  }

  lemma CpuTick(cfg: Config, k: Kernel, c: nat)
    requires Wf(cfg, k) && Enabled(cfg, k, CpuAct(c))
    ensures CpuStep(cfg, k, c).tick == k.tick
  {
  }

  lemma PotentialStep(cfg: Config, k: Kernel, act: Act)
    requires cfg.Ok() && Inv(cfg, k) && Enabled(cfg, k, act) && Wf(cfg, Step(cfg, k, act))
    ensures Potential(cfg, Step(cfg, k, act)) <= Potential(cfg, k)
  {
    match act
    case Bar(a) =>
      if Ticks(k, act) && k.tick.busy {
        SlotExecutes(cfg, k);
      }
    case CpuAct(c) =>
      assert O.Shape(k, c);
      PotentialCpu(cfg, k, c);
    case LdAct => O.LdFrames(cfg, k);
  }

  lemma PotentialAlong(cfg: Config, ks: seq<Kernel>, acts: seq<Act>, i: nat)
    requires cfg.Ok() && IsRun(cfg, ks, acts) && i < |acts|
    ensures Wf(cfg, ks[i]) && Wf(cfg, ks[i + 1]) && Potential(cfg, ks[i + 1]) <= Potential(cfg, ks[i])
  {
    RunInv(cfg, ks, acts, i);
    RunInv(cfg, ks, acts, i + 1);
    assert ks[i + 1] == Step(cfg, ks[i], acts[i]);
    PotentialStep(cfg, ks[i], acts[i]);
  }

  lemma {:induction false} PotentialFalls(cfg: Config, ks: seq<Kernel>, acts: seq<Act>, i: nat, j: nat)
    requires cfg.Ok() && IsRun(cfg, ks, acts) && i < j < |ks|
    ensures Wf(cfg, ks[i]) && Wf(cfg, ks[j]) && Potential(cfg, ks[j]) <= Potential(cfg, ks[i])
    decreases j
  {
    PotentialAlong(cfg, ks, acts, j - 1);
    if i < j - 1 {
      PotentialFalls(cfg, ks, acts, i, j - 1);
    }
  }

  /**
   * Global progress: from any state on, no more slots begin with everything loaded and work left than there is
   * work left, in any order of the CPUs.
   */
  lemma WorkBoundsSlots(cfg: Config, ks: seq<Kernel>, acts: seq<Act>, i: nat, j: nat)
    requires cfg.Ok() && IsRun(cfg, ks, acts) && i <= j < |ks|
    ensures Wf(cfg, ks[i]) && ks[j].tick.count - ks[i].tick.count <= Work(cfg, ks[i])
  {
    RunInv(cfg, ks, acts, i);
    RunInv(cfg, ks, acts, j);
    if i < j {
      PotentialFalls(cfg, ks, acts, i, j);
    }
    PotentialBounds(cfg, ks[i]);
    PotentialBounds(cfg, ks[j]);
  }

  /**
   * Between two ticks, of which the first finds everything loaded and work left, an instruction is executed, or a
   * program without any has its turn.
   */
  lemma EverySlotExecutes(cfg: Config, ks: seq<Kernel>, acts: seq<Act>, i: nat)
    requires cfg.Ok() && IsRun(cfg, ks, acts) && i < |acts|
    requires Ticks(ks[i], acts[i]) && ks[i].tick.busy
    ensures Wf(cfg, ks[i]) && Work(cfg, ks[i]) < ks[i].tick.work
  {
    RunInv(cfg, ks, acts, i);
    SlotExecutes(cfg, ks[i]);
  }
}
