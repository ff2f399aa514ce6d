/** How much of a process a CPU executes between taking it up and letting it go. */
module Quanta {
  import opened Common
  import opened Queues
  import opened Kernels
  import opened Bags
  import opened Completion
  import B = Barriers
  import O = Ownership
  import P = Programs
  import G = Progress
  import T = OsTheorems

  /** What CPU c, holding p, has to do with the program counter p had when it was taken up. */
  predicate Since(cfg: Config, k: Kernel, c: nat, p: Pcb, base: nat)
    requires |k.pc| == |cfg.jobs|
  {
    && T.Holds(k, c, p) && cfg.Known(p)
    && var v := k.cpus[c];
       if v.loc == Check && v.timeLeft == 0 then k.pc[p.pid - 1] == base else cfg.Size(p) > 0 ==> v.start == base
  }

  /** A step of another thread does not execute p. */
  lemma OthersLeavePc(cfg: Config, k: Kernel, act: Act, k': Kernel, c: nat, p: Pcb)
    requires O.Inv(cfg, k) && Enabled(cfg, k, act) && k' == Step(cfg, k, act) && T.Holds(k, c, p) && act != CpuAct(c)
    ensures |k'.cpus| == |k.cpus| && k'.cpus[c] == k.cpus[c] && k'.pc[p.pid - 1] == k.pc[p.pid - 1]
  {
    match act
    case Bar(a) =>
    case LdAct => O.LdFrames(cfg, k);
    case CpuAct(e) =>
      O.CpuFrames(cfg, k, e);
      assert O.Shape(k, e);
      if k.cpus[e].loc == Run {
        NotTwice(cfg, k, c, e, p);
        PcOf(cfg, k, e, p);
      } else {
        PcStays(cfg, k, e);
      }
  }

  lemma NotTwice(cfg: Config, k: Kernel, c: nat, e: nat, p: Pcb)
    requires O.Inv(cfg, k) && T.Holds(k, c, p) && e < |k.cpus| && e != c
    ensures k.cpus[e].proc != Some(p)
  {
    O.HeldIsRunning(cfg, k, c, p);
    if k.cpus[e].proc == Some(p) {
      HeldTwice(k.cpus, if e < c then e else c, if e < c then c else e, p);
    }
  }

  lemma PcOf(cfg: Config, k: Kernel, e: nat, p: Pcb)
    requires Wf(cfg, k) && Enabled(cfg, k, CpuAct(e)) && k.cpus[e].loc == Run && cfg.Known(p)
    requires k.cpus[e].proc.Some? && k.cpus[e].proc != Some(p)
    ensures CpuStep(cfg, k, e).pc[p.pid - 1] == k.pc[p.pid - 1]
  {
  }

  lemma PcStays(cfg: Config, k: Kernel, e: nat)
    requires Wf(cfg, k) && Enabled(cfg, k, CpuAct(e)) && k.cpus[e].loc != Run
    ensures CpuStep(cfg, k, e).pc == k.pc
  {
  }

  /** A step of the CPU itself that keeps the process. */
  lemma OwnStep(cfg: Config, k: Kernel, c: nat, p: Pcb, base: nat)
    requires Wf(cfg, k) && Enabled(cfg, k, CpuAct(c)) && Since(cfg, k, c, p, base) && O.Shape(k, c)
    requires P.CpuOk(cfg, k.pc, k.turns, k.cpus[c]) && T.Holds(CpuStep(cfg, k, c), c, p)
    requires |CpuStep(cfg, k, c).pc| == |cfg.jobs|
    ensures Since(cfg, CpuStep(cfg, k, c), c, p, base)
  {
  }

  lemma SinceStep(cfg: Config, k: Kernel, act: Act, k': Kernel, c: nat, p: Pcb, base: nat)
    requires P.Inv(cfg, k) && Enabled(cfg, k, act) && k' == Step(cfg, k, act) && Wf(cfg, k')
    requires Since(cfg, k, c, p, base) && T.Holds(k', c, p)
    ensures Since(cfg, k', c, p, base)
  {
    if act == CpuAct(c) {
      assert O.Shape(k, c) && P.CpuOk(cfg, k.pc, k.turns, k.cpus[c]);
      OwnStep(cfg, k, c, p, base);
    } else {
      OthersLeavePc(cfg, k, act, k', c, p);
    }
  }

  /** CPU c takes p up. */
  predicate TakesUp(k: Kernel, act: Act, k': Kernel, c: nat, p: Pcb) {
    act == CpuAct(c) && c < |k.cpus| && k.cpus[c].proc.None? && T.Holds(k', c, p)
  }

  lemma TakenUp(cfg: Config, k: Kernel, c: nat, p: Pcb)
    requires O.Inv(cfg, k) && Enabled(cfg, k, CpuAct(c)) && Wf(cfg, CpuStep(cfg, k, c))
    requires TakesUp(k, CpuAct(c), CpuStep(cfg, k, c), c, p)
    ensures CpuStep(cfg, k, c).pc == k.pc && cfg.Known(p) && Since(cfg, CpuStep(cfg, k, c), c, p, k.pc[p.pid - 1])
  {
    assert O.Shape(k, c);
  }

  /** CPU c holds p in all states from i through j. */
  predicate Keeps(ks: seq<Kernel>, i: nat, j: nat, c: nat, p: Pcb)
    requires i <= j < |ks|
  {
    forall t :: i <= t <= j ==> T.Holds(ks[t], c, p)
  }

  ghost predicate StaysSince(cfg: Config, k: Kernel, act: Act, k': Kernel, c: nat, p: Pcb, base: nat) {
    && |k.pc| == |k'.pc| == |cfg.jobs|
    && (Since(cfg, k, c, p, base) && T.Holds(k', c, p) ==> Since(cfg, k', c, p, base))
  }

  ghost predicate AllSince(cfg: Config, ks: seq<Kernel>, acts: seq<Act>, c: nat, p: Pcb, base: nat) {
    |ks| == |acts| + 1 && forall t :: 0 <= t < |acts| ==> StaysSince(cfg, ks[t], acts[t], ks[t + 1], c, p, base)
  }

  lemma RunSince(cfg: Config, ks: seq<Kernel>, acts: seq<Act>, c: nat, p: Pcb, base: nat)
    requires cfg.Ok() && IsRun(cfg, ks, acts)
    ensures AllSince(cfg, ks, acts, c, p, base)
  {
    forall t | 0 <= t < |acts|
      ensures StaysSince(cfg, ks[t], acts[t], ks[t + 1], c, p, base)
    {
      P.RunInv(cfg, ks, acts, t);
      P.RunInv(cfg, ks, acts, t + 1);
      if Since(cfg, ks[t], c, p, base) && T.Holds(ks[t + 1], c, p) {
        SinceStep(cfg, ks[t], acts[t], ks[t + 1], c, p, base);
      }
    }
  }

  lemma {:induction false} SinceFar(cfg: Config, ks: seq<Kernel>, acts: seq<Act>, i: nat, j: nat,
                                    c: nat, p: Pcb, base: nat)
    requires AllSince(cfg, ks, acts, c, p, base) && i <= j < |ks| && |ks[i].pc| == |cfg.jobs|
    requires Since(cfg, ks[i], c, p, base) && Keeps(ks, i, j, c, p)
    ensures |ks[j].pc| == |cfg.jobs| && Since(cfg, ks[j], c, p, base)
    decreases j
  {
    if i < j {
      SinceFar(cfg, ks, acts, i, j - 1, c, p, base);
      assert StaysSince(cfg, ks[j - 1], acts[j - 1], ks[j], c, p, base);
    }
  }

  lemma SinceInRun(cfg: Config, ks: seq<Kernel>, acts: seq<Act>, i: nat, j: nat, c: nat, p: Pcb) returns (base: nat)
    requires cfg.Ok() && IsRun(cfg, ks, acts) && i < j < |ks| && TakesUp(ks[i], acts[i], ks[i + 1], c, p)
    requires Keeps(ks, i + 1, j, c, p)
    ensures |ks[i].pc| == |ks[j].pc| == |cfg.jobs| && cfg.Known(p) && base == ks[i].pc[p.pid - 1]
    ensures Since(cfg, ks[j], c, p, base)
  {
    P.RunInv(cfg, ks, acts, i);
    P.RunInv(cfg, ks, acts, i + 1);
    TakenUp(cfg, ks[i], c, p);
    base := ks[i].pc[p.pid - 1];
    RunSince(cfg, ks, acts, c, p, base);
    SinceFar(cfg, ks, acts, i + 1, j, c, p, base);
  }

  /** What the program counter has done meanwhile. */
  lemma Used(cfg: Config, k: Kernel, c: nat, p: Pcb, base: nat)
    requires P.Inv(cfg, k) && Since(cfg, k, c, p, base)
    ensures base <= k.pc[p.pid - 1] <= base + cfg.quantum || cfg.Size(p) == 0
  {
    assert P.CpuOk(cfg, k.pc, k.turns, k.cpus[c]);
  }

  /** Only the CPU itself lets go of p. */
  lemma OnlyItself(cfg: Config, k: Kernel, act: Act, k': Kernel, c: nat, p: Pcb)
    requires O.Inv(cfg, k) && Enabled(cfg, k, act) && k' == Step(cfg, k, act) && T.Holds(k, c, p) && !T.Holds(k', c, p)
    ensures act == CpuAct(c)
  {
    if act != CpuAct(c) {
      OthersLeavePc(cfg, k, act, k', c, p);
    }
  }

  /** And only at its loop head, at the end of the program or when time_left has run out. */
  lemma OnlyAtTop(cfg: Config, k: Kernel, c: nat, p: Pcb)
    requires Wf(cfg, k) && Enabled(cfg, k, CpuAct(c)) && T.Holds(k, c, p) && cfg.Known(p) && O.Shape(k, c)
    requires !T.Holds(CpuStep(cfg, k, c), c, p)
    ensures k.cpus[c].loc == Top && (k.pc[p.pid - 1] == cfg.Size(p) || k.cpus[c].timeLeft == 0)
  {
    O.CpuFrames(cfg, k, c);
  }

  lemma Reckon(cfg: Config, k: Kernel, c: nat, p: Pcb, base: nat)
    requires |k.pc| == |k.turns| == |cfg.jobs| && Since(cfg, k, c, p, base) && P.CpuOk(cfg, k.pc, k.turns, k.cpus[c])
    requires k.cpus[c].loc == Top && (k.pc[p.pid - 1] == cfg.Size(p) || k.cpus[c].timeLeft == 0)
    ensures k.pc[p.pid - 1] < |cfg.jobs[p.pid - 1].code| ==> k.pc[p.pid - 1] == base + cfg.quantum
  {
  }

  lemma LetGo(cfg: Config, k: Kernel, act: Act, k': Kernel, c: nat, p: Pcb, base: nat)
    requires P.Inv(cfg, k) && Since(cfg, k, c, p, base) && Enabled(cfg, k, act) && k' == Step(cfg, k, act)
    requires !T.Holds(k', c, p)
    ensures k.pc[p.pid - 1] < |cfg.jobs[p.pid - 1].code| ==> k.pc[p.pid - 1] == base + cfg.quantum
  {
    OnlyItself(cfg, k, act, k', c, p);
    assert O.Shape(k, c) && P.CpuOk(cfg, k.pc, k.turns, k.cpus[c]);
    OnlyAtTop(cfg, k, c, p);
    Reckon(cfg, k, c, p, base);
  }

  /** In every run a CPU executes at most one quantum of a process before it lets go of it. */
  lemma OneQuantum(cfg: Config, ks: seq<Kernel>, acts: seq<Act>, i: nat, j: nat, c: nat, p: Pcb)
    requires cfg.Ok() && IsRun(cfg, ks, acts) && i < j < |ks| && TakesUp(ks[i], acts[i], ks[i + 1], c, p)
    requires Keeps(ks, i + 1, j, c, p)
    ensures cfg.Known(p) && |ks[i].pc| == |ks[j].pc| == |cfg.jobs|
    ensures |cfg.jobs[p.pid - 1].code| > 0 ==>
              ks[i].pc[p.pid - 1] <= ks[j].pc[p.pid - 1] <= ks[i].pc[p.pid - 1] + cfg.quantum
  {
    var base := SinceInRun(cfg, ks, acts, i, j, c, p);
    UsedInRun(cfg, ks, acts, j, c, p, base);
  }

  /** If it lets go before the program's end, it has executed exactly one. */
  lemma ExactlyOneQuantum(cfg: Config, ks: seq<Kernel>, acts: seq<Act>, i: nat, j: nat, c: nat, p: Pcb)
    requires cfg.Ok() && IsRun(cfg, ks, acts) && i < j < |acts| && TakesUp(ks[i], acts[i], ks[i + 1], c, p)
    requires Keeps(ks, i + 1, j, c, p) && !T.Holds(ks[j + 1], c, p)
    ensures cfg.Known(p) && |ks[i].pc| == |ks[j].pc| == |cfg.jobs|
    ensures ks[j].pc[p.pid - 1] < |cfg.jobs[p.pid - 1].code| ==>
              ks[j].pc[p.pid - 1] == ks[i].pc[p.pid - 1] + cfg.quantum
  {
    var base := SinceInRun(cfg, ks, acts, i, j, c, p);
    LetGoInRun(cfg, ks, acts, j, c, p, base);
  }

  lemma UsedInRun(cfg: Config, ks: seq<Kernel>, acts: seq<Act>, j: nat, c: nat, p: Pcb, base: nat)
    requires cfg.Ok() && IsRun(cfg, ks, acts) && j < |ks| && |ks[j].pc| == |cfg.jobs| && Since(cfg, ks[j], c, p, base)
    ensures |cfg.jobs[p.pid - 1].code| > 0 ==> base <= ks[j].pc[p.pid - 1] <= base + cfg.quantum
  {
    P.RunInv(cfg, ks, acts, j);
    Used(cfg, ks[j], c, p, base);
  }

  lemma LetGoInRun(cfg: Config, ks: seq<Kernel>, acts: seq<Act>, j: nat, c: nat, p: Pcb, base: nat)
    requires cfg.Ok() && IsRun(cfg, ks, acts) && j < |acts| && |ks[j].pc| == |cfg.jobs| && Since(cfg, ks[j], c, p, base)
    requires !T.Holds(ks[j + 1], c, p)
    ensures ks[j].pc[p.pid - 1] < |cfg.jobs[p.pid - 1].code| ==> ks[j].pc[p.pid - 1] == base + cfg.quantum
  {
    P.RunInv(cfg, ks, acts, j);
    LetGo(cfg, ks[j], acts[j], ks[j + 1], c, p, base);
  }

  // ---- One instruction per slot ----

  /** The step executes CPU c's process: one instruction of it, the next one, goes into the log. */
  predicate Runs(k: Kernel, act: Act, c: nat) {
    act == CpuAct(c) && c < |k.cpus| && k.cpus[c].loc == Run
  }

  /** The next instruction of CPU c's process is executed and logged. */
  predicate ExecutesNext(cfg: Config, k: Kernel, k': Kernel, c: nat) {
    && c < |k.cpus| && k.cpus[c].proc.Some?
    && var p := k.cpus[c].proc.value;
       && 1 <= p.pid <= |cfg.jobs| == |k.pc| && k.pc[p.pid - 1] < |cfg.jobs[p.pid - 1].code|
       && k'.log == k.log + [(p.pid, cfg.jobs[p.pid - 1].code[k.pc[p.pid - 1]])]
       && k'.pc == k.pc[p.pid - 1 := k.pc[p.pid - 1] + 1]
  }

  /** What a step executes: the next instruction of the process of the CPU that runs it, or nothing. */
  lemma StepExecutes(cfg: Config, k: Kernel, act: Act, k': Kernel)
    requires O.Inv(cfg, k) && Enabled(cfg, k, act) && k' == Step(cfg, k, act)
    ensures (k'.log == k.log && k'.pc == k.pc)
         || (act.CpuAct? && Runs(k, act, act.c) && ExecutesNext(cfg, k, k', act.c))
  {
    match act
    case Bar(a) =>
    case LdAct => O.LdFrames(cfg, k);
    case CpuAct(c) =>
      assert O.Shape(k, c);
      CpuExecutes(cfg, k, c);
  }

  lemma CpuExecutes(cfg: Config, k: Kernel, c: nat)
    requires Wf(cfg, k) && Enabled(cfg, k, CpuAct(c)) && O.Shape(k, c)
    ensures var k' := CpuStep(cfg, k, c);
            (k'.log == k.log && k'.pc == k.pc) || (k.cpus[c].loc == Run && ExecutesNext(cfg, k, k', c))
  {
  }

  /** How often CPU c runs a process between states i and j. */
  function RunsIn(ks: seq<Kernel>, acts: seq<Act>, c: nat, i: nat, j: nat): nat
    requires |ks| == |acts| + 1 && i <= j < |ks|
    decreases j
  {
    if i == j then 0 else RunsIn(ks, acts, c, i, j - 1) + if Runs(ks[j - 1], acts[j - 1], c) then 1 else 0
  }

  /** The slots CPU c is done with, counting the one it is about to leave. */
  function Slots(k: Kernel, c: nat): nat
    requires c < |k.cpus| && |k.bar.devs| == |k.cpus| + 1
  {
    k.bar.devs[c + 1].announced + if k.cpus[c].loc == Yield then 1 else 0
  }

  predicate SlotsRun(k: Kernel, act: Act, k': Kernel, c: nat) {
    && c < |k.cpus| == |k'.cpus| && |k.bar.devs| == |k'.bar.devs| == |k.cpus| + 1
    && Slots(k, c) + (if Runs(k, act, c) then 1 else 0) <= Slots(k', c)
    && (B.Live(k'.bar.devs[c + 1]) ==> B.Live(k.bar.devs[c + 1]))
    && (Runs(k, act, c) ==> B.Live(k'.bar.devs[c + 1]))
  }

  lemma StepSlots(cfg: Config, k: Kernel, act: Act, k': Kernel, c: nat)
    requires O.Inv(cfg, k) && Enabled(cfg, k, act) && k' == Step(cfg, k, act) && c < |k.cpus|
    ensures SlotsRun(k, act, k', c)
  {
    match act
    case Bar(a) => B.QuietStep(k.bar, a, c + 1);
    case LdAct => O.LdFrames(cfg, k);
    case CpuAct(e) =>
      O.CpuFrames(cfg, k, e);
      if e == c {
        assert O.Shape(k, c);
        OwnSlots(cfg, k, c);
      }
  }

  lemma OwnSlots(cfg: Config, k: Kernel, c: nat)
    requires Wf(cfg, k) && Enabled(cfg, k, CpuAct(c)) && O.Shape(k, c)
    ensures SlotsRun(k, CpuAct(c), CpuStep(cfg, k, c), c)
  {
  }

  ghost predicate AllSlotsRun(ks: seq<Kernel>, acts: seq<Act>, c: nat) {
    |ks| == |acts| + 1 && forall t :: 0 <= t < |acts| ==> SlotsRun(ks[t], acts[t], ks[t + 1], c)
  }

  lemma RunSlots(cfg: Config, ks: seq<Kernel>, acts: seq<Act>, c: nat)
    requires cfg.Ok() && IsRun(cfg, ks, acts) && c < cfg.cpus
    ensures AllSlotsRun(ks, acts, c)
  {
    forall t | 0 <= t < |acts|
      ensures SlotsRun(ks[t], acts[t], ks[t + 1], c)
    {
      O.RunInv(cfg, ks, acts, t);
      StepSlots(cfg, ks[t], acts[t], ks[t + 1], c);
    }
  }

  lemma {:induction false} SlotsFar(ks: seq<Kernel>, acts: seq<Act>, c: nat, i: nat, j: nat)
    requires AllSlotsRun(ks, acts, c) && i <= j < |ks| && c < |ks[i].cpus| && |ks[i].bar.devs| == |ks[i].cpus| + 1
    ensures c < |ks[j].cpus| && |ks[j].bar.devs| == |ks[j].cpus| + 1
    ensures Slots(ks[i], c) + RunsIn(ks, acts, c, i, j) <= Slots(ks[j], c)
    ensures B.Live(ks[j].bar.devs[c + 1]) ==> B.Live(ks[i].bar.devs[c + 1])
    decreases j
  {
    if i < j {
      SlotsFar(ks, acts, c, i, j - 1);
      assert SlotsRun(ks[j - 1], acts[j - 1], ks[j], c);
    }
  }

  /** How a live CPU stands against the clock. */
  lemma SlotsTime(cfg: Config, k: Kernel, c: nat)
    requires O.Inv(cfg, k) && c < |k.cpus| && B.Live(k.bar.devs[c + 1])
    ensures k.bar.time <= Slots(k, c) <= k.bar.time + 1
  {
    assert B.DevOk(k.bar.devs[c + 1]) && B.SlotOk(k.bar, c + 1) && O.Shape(k, c);
  }

  lemma SlotsTimeInRun(cfg: Config, ks: seq<Kernel>, acts: seq<Act>, c: nat, i: nat)
    requires cfg.Ok() && IsRun(cfg, ks, acts) && c < cfg.cpus && i < |ks|
    ensures c < |ks[i].cpus| && |ks[i].bar.devs| == |ks[i].cpus| + 1
    ensures B.Live(ks[i].bar.devs[c + 1]) ==> ks[i].bar.time <= Slots(ks[i], c) <= ks[i].bar.time + 1
  {
    O.RunInv(cfg, ks, acts, i);
    if B.Live(ks[i].bar.devs[c + 1]) {
      SlotsTime(cfg, ks[i], c);
    }
  }

  lemma OnePerSlotLive(cfg: Config, ks: seq<Kernel>, acts: seq<Act>, c: nat, i: nat, j: nat)
    requires cfg.Ok() && IsRun(cfg, ks, acts) && c < cfg.cpus && i <= j < |ks|
    requires AllSlotsRun(ks, acts, c) && Advancing(cfg, ks, acts)
    requires c + 1 < |ks[j].bar.devs| && B.Live(ks[j].bar.devs[c + 1])
    ensures RunsIn(ks, acts, c, i, j) <= TicksIn(ks, acts, i, j) + 1
  {
    TimeCounts(cfg, ks, acts, i, j);
    SlotsTimeInRun(cfg, ks, acts, c, i);
    SlotsTimeInRun(cfg, ks, acts, c, j);
    SlotsFar(ks, acts, c, i, j);
  }

  lemma {:induction false} OnePerSlotBoth(cfg: Config, ks: seq<Kernel>, acts: seq<Act>, c: nat, i: nat, j: nat)
    requires cfg.Ok() && IsRun(cfg, ks, acts) && c < cfg.cpus && i <= j < |ks|
    requires AllSlotsRun(ks, acts, c) && Advancing(cfg, ks, acts)
    ensures RunsIn(ks, acts, c, i, j) <= TicksIn(ks, acts, i, j) + 1
    decreases j
  {
    SlotsTimeInRun(cfg, ks, acts, c, j);
    if B.Live(ks[j].bar.devs[c + 1]) {
      OnePerSlotLive(cfg, ks, acts, c, i, j);
    } else if i < j {
      OnePerSlotBoth(cfg, ks, acts, c, i, j - 1);
      assert SlotsRun(ks[j - 1], acts[j - 1], ks[j], c);
    }
  }

  /**
   * A CPU executes at most one instruction in every slot: in any stretch of a run it runs no more often than the
   * stretch has ticks, and once more.
   */
  lemma OnePerSlot(cfg: Config, ks: seq<Kernel>, acts: seq<Act>, c: nat, i: nat, j: nat)
    requires cfg.Ok() && IsRun(cfg, ks, acts) && c < cfg.cpus && i <= j < |ks|
    ensures RunsIn(ks, acts, c, i, j) <= TicksIn(ks, acts, i, j) + 1
  {
    RunSlots(cfg, ks, acts, c);
    RunAdvances(cfg, ks, acts);
    OnePerSlotBoth(cfg, ks, acts, c, i, j);
  }

  // ---- And with work left, some CPU does execute one ----

  /** Every program has instructions. */
  predicate NonEmpty(cfg: Config) {
    forall j :: 0 <= j < |cfg.jobs| ==> cfg.jobs[j].code != []
  }

  /** What a step adds to the log it takes off the work left. */
  ghost predicate Reckons(cfg: Config, k: Kernel, act: Act, k': Kernel) {
    Wf(cfg, k) && Wf(cfg, k') && |k'.log| + Work(cfg, k') == |k.log| + Work(cfg, k)
  }

  lemma StepReckons(cfg: Config, k: Kernel, act: Act, k': Kernel)
    requires NonEmpty(cfg) && P.Inv(cfg, k) && Enabled(cfg, k, act) && k' == Step(cfg, k, act) && Wf(cfg, k')
    ensures Reckons(cfg, k, act, k')
  {
    match act
    case Bar(a) =>
    case LdAct => O.LdFrames(cfg, k);
    case CpuAct(c) =>
      assert O.Shape(k, c) && P.CpuOk(cfg, k.pc, k.turns, k.cpus[c]);
      CpuReckons(cfg, k, c);
  }

  lemma CpuReckons(cfg: Config, k: Kernel, c: nat)
    requires NonEmpty(cfg) && Wf(cfg, k) && Enabled(cfg, k, CpuAct(c)) && O.Shape(k, c) && Wf(cfg, CpuStep(cfg, k, c))
    requires P.CpuOk(cfg, k.pc, k.turns, k.cpus[c]) && P.TurnsOk(cfg, k.pc, k.turns)
    ensures Reckons(cfg, k, CpuAct(c), CpuStep(cfg, k, c))
  {
    G.CpuTurns(cfg, k, c);
    CpuLogs(cfg, k, c);
    if k.cpus[c].loc == Run {
      G.WorkDrops(cfg, k.turns, k.cpus[c].proc.value.pid - 1, |cfg.jobs|);
    }
  }

  lemma CpuLogs(cfg: Config, k: Kernel, c: nat)
    requires NonEmpty(cfg) && Wf(cfg, k) && Enabled(cfg, k, CpuAct(c)) && O.Shape(k, c)
    requires P.CpuOk(cfg, k.pc, k.turns, k.cpus[c]) && P.TurnsOk(cfg, k.pc, k.turns)
    ensures |CpuStep(cfg, k, c).log| == |k.log| + if k.cpus[c].loc == Run then 1 else 0
  {
  }

  ghost predicate AllReckon(cfg: Config, ks: seq<Kernel>, acts: seq<Act>) {
    |ks| == |acts| + 1 && forall t :: 0 <= t < |acts| ==> Reckons(cfg, ks[t], acts[t], ks[t + 1])
  }

  lemma RunReckons(cfg: Config, ks: seq<Kernel>, acts: seq<Act>)
    requires cfg.Ok() && NonEmpty(cfg) && IsRun(cfg, ks, acts)
    ensures AllReckon(cfg, ks, acts)
  {
    forall t | 0 <= t < |acts|
      ensures Reckons(cfg, ks[t], acts[t], ks[t + 1])
    {
      P.RunInv(cfg, ks, acts, t);
      P.RunInv(cfg, ks, acts, t + 1);
      StepReckons(cfg, ks[t], acts[t], ks[t + 1]);
    }
  }

  lemma {:induction false} ReckonsFar(cfg: Config, ks: seq<Kernel>, acts: seq<Act>, i: nat, j: nat)
    requires AllReckon(cfg, ks, acts) && i <= j < |ks| && Wf(cfg, ks[i])
    ensures Wf(cfg, ks[j]) && |ks[j].log| + Work(cfg, ks[j]) == |ks[i].log| + Work(cfg, ks[i])
    decreases j
  {
    if i < j {
      ReckonsFar(cfg, ks, acts, i, j - 1);
      assert Reckons(cfg, ks[j - 1], acts[j - 1], ks[j]);
    }
  }

  /** What a tick notes stays until the next one. */
  predicate Notes(k: Kernel, act: Act, k': Kernel) {
    !Ticks(k, act) ==> k'.tick == k.tick
  }

  lemma StepNotes(cfg: Config, k: Kernel, act: Act)
    requires Wf(cfg, k) && Enabled(cfg, k, act)
    ensures Notes(k, act, Step(cfg, k, act))
  {
    match act
    case Bar(a) =>
    case LdAct => O.LdFrames(cfg, k);
    case CpuAct(c) => O.CpuFrames(cfg, k, c);
  }

  ghost predicate AllNote(ks: seq<Kernel>, acts: seq<Act>) {
    |ks| == |acts| + 1 && forall t :: 0 <= t < |acts| ==> Notes(ks[t], acts[t], ks[t + 1])
  }

  lemma RunNotes(cfg: Config, ks: seq<Kernel>, acts: seq<Act>)
    requires cfg.Ok() && IsRun(cfg, ks, acts)
    ensures AllNote(ks, acts)
  {
    forall t | 0 <= t < |acts|
      ensures Notes(ks[t], acts[t], ks[t + 1])
    {
      StepNotes(cfg, ks[t], acts[t]);
    }
  }

  lemma {:induction false} NotesFar(ks: seq<Kernel>, acts: seq<Act>, i: nat, j: nat)
    requires AllNote(ks, acts) && i <= j < |ks| && TicksIn(ks, acts, i, j) == 0
    ensures ks[j].tick == ks[i].tick
    decreases j
  {
    if i < j {
      NotesFar(ks, acts, i, j - 1);
      assert Notes(ks[j - 1], acts[j - 1], ks[j]);
    }
  }

  /** Some process has instructions left. */
  ghost predicate InstructionsLeft(cfg: Config, k: Kernel)
    requires |k.pc| == |cfg.jobs|
  {
    exists j :: 0 <= j < |cfg.jobs| && k.pc[j] < |cfg.jobs[j].code|
  }

  lemma TickNotes(cfg: Config, k: Kernel, act: Act)
    requires P.Inv(cfg, k) && Enabled(cfg, k, act) && Ticks(k, act) && Loaded(cfg, k) && InstructionsLeft(cfg, k)
    ensures Step(cfg, k, act).tick.busy && Step(cfg, k, act).tick.work == Work(cfg, k)
  {
    var j :| 0 <= j < |cfg.jobs| && k.pc[j] < |cfg.jobs[j].code|;
    assert k.turns[j] < cfg.Turns(j);
  }

  lemma TickNotesInRun(cfg: Config, ks: seq<Kernel>, acts: seq<Act>, s: nat)
    requires cfg.Ok() && IsRun(cfg, ks, acts) && s < |acts| && Ticks(ks[s], acts[s]) && Loaded(cfg, ks[s])
    requires |ks[s].pc| == |cfg.jobs| && InstructionsLeft(cfg, ks[s])
    ensures Wf(cfg, ks[s]) && ks[s + 1].tick.busy && ks[s + 1].tick.work == Work(cfg, ks[s])
  {
    P.RunInv(cfg, ks, acts, s);
    TickNotes(cfg, ks[s], acts[s]);
  }

  /**
   * No slot is wasted: when the clock ticks with everything loaded and instructions left, some CPU has executed an
   * instruction by the time it ticks again.
   */
  lemma NoSlotWasted(cfg: Config, ks: seq<Kernel>, acts: seq<Act>, s: nat, t: nat)
    requires cfg.Ok() && NonEmpty(cfg) && IsRun(cfg, ks, acts) && s < t < |acts|
    requires Ticks(ks[s], acts[s]) && Ticks(ks[t], acts[t]) && TicksIn(ks, acts, s + 1, t) == 0
    requires Loaded(cfg, ks[s]) && |ks[s].pc| == |cfg.jobs| && InstructionsLeft(cfg, ks[s])
    ensures |ks[t].log| > |ks[s].log|
  {
    TickNotesInRun(cfg, ks, acts, s);
    RunNotes(cfg, ks, acts);
    NotesFar(ks, acts, s + 1, t);
    G.EverySlotExecutes(cfg, ks, acts, t);
    RunReckons(cfg, ks, acts);
    ReckonsFar(cfg, ks, acts, s, t);
  }
}
