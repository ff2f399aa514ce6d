/**
 * The threads of os.c over the scheduler and the barrier.
 * One step is one critical section, or one unlocked access, of one thread; any interleaving is a run.
 */
module Kernels {
  import opened Common
  import opened Queues
  import opened Mlqs
  import opened Instructions
  import B = Barriers

  /** One line of the configuration file: when to load which program at which priority. */
  datatype Job = Job(prio: nat, start: nat, code: seq<Inst>)

  datatype Config = Config(cpus: nat, quantum: nat, jobs: seq<Job>) {
    predicate Ok() {
      && cpus >= 1 && quantum >= 1
      && forall j :: 0 <= j < |jobs| ==> jobs[j].prio < MAX_PRIO
    }

    /** The loader numbers processes from 1 in loading order. */
    function Pcb(j: nat): Pcb
      requires j < |jobs|
    {
      Queues.Pcb.Pcb(j + 1, jobs[j].prio)
    }

    predicate Known(p: Pcb) {
      1 <= p.pid <= |jobs| && p == Pcb(p.pid - 1)
    }

    function Size(p: Pcb): nat
      requires Known(p)
    {
      |jobs[p.pid - 1].code|
    }

    /** How often process j has to be run: once for every instruction, and once if it has none. */
    function Turns(j: nat): nat
      requires j < |jobs|
    {
      if jobs[j].code == [] then 1 else |jobs[j].code|
    }
  }

  /** Program points of cpu_routine. Yield is a call of next_slot, Quit the way out after the loop. */
  datatype Loc = Top | AfterFinish | AfterPut | Check | Run | Yield | Quit

  /**
   * The locals of a CPU thread, and two history variables: `start` is the program counter its process
   * had when dispatched, `late` says that every job had been added at this CPU's last get_proc.
   */
  datatype Cpu = Cpu(loc: Loc, proc: Option<Pcb>, timeLeft: nat, start: nat, late: bool)

  /** Program points of ld_routine. */
  datatype LdLoc = LdTop | LdLoad | LdYield | LdQuit

  /** The loader's program point, its i, the global `done`, and as history the slot of the last add_proc. */
  datatype Loader = Loader(loc: LdLoc, next: nat, done: bool, addSlot: nat)

  /**
   * What the last clock tick saw: the work that was left, and whether loading was complete with some
   * left; `count` is the number of ticks that saw that.
   */
  datatype Tick = Tick(work: int, busy: bool, count: nat)

  /**
   * `pc` holds the program counters by job; `turns`, the number of times each has been run, `finished`, `log`
   * and `tick` are history.
   */
  datatype Kernel = Kernel(
    bar: B.Barrier, mlq: Mlq, cpus: seq<Cpu>, ldr: Loader, pc: seq<nat>,
    turns: seq<nat>, finished: multiset<Pcb>, log: seq<(nat, Inst)>, tick: Tick)

  /** A step of a thread's barrier call, of the timer or of main; or of CPU c; or of the loader. */
  datatype Act = Bar(a: B.Act) | CpuAct(c: nat) | LdAct

  function Boot(cfg: Config): Kernel {
    Kernel(B.Start(cfg.cpus + 1), Mlqs.Init(), seq(cfg.cpus, i => Cpu(Top, None, 0, 0, false)),
           Loader(LdTop, 0, false, 0), seq(|cfg.jobs|, j => 0),
           seq(|cfg.jobs|, j => 0), multiset{}, [], Tick(0, false, 0))
  }

  /** Shapes that no step changes. */
  predicate Wf(cfg: Config, k: Kernel) {
    && |k.cpus| == cfg.cpus && |k.bar.devs| == cfg.cpus + 1
    && k.mlq.Wf() && |k.pc| == |k.turns| == |cfg.jobs| && k.ldr.next <= |cfg.jobs|
    && (forall c :: 0 <= c < |k.cpus| && k.cpus[c].proc.Some? ==> cfg.Known(k.cpus[c].proc.value))
    && (forall l, i :: 0 <= l < MAX_PRIO && 0 <= i < |k.mlq.ready[l]| ==> cfg.Known(k.mlq.ready[l][i]))
  }

  /** Some loaded process has still to be run. */
  ghost predicate Busy(cfg: Config, k: Kernel)
    requires Wf(cfg, k)
  {
    exists j :: 0 <= j < k.ldr.next && k.turns[j] < cfg.Turns(j)
  }

  /** How often the first n processes have still to be run. */
  function WorkOf(cfg: Config, turns: seq<nat>, n: nat): int
    requires n <= |cfg.jobs| == |turns|
  {
    if n == 0 then 0 else WorkOf(cfg, turns, n - 1) + cfg.Turns(n - 1) - turns[n - 1]
  }

  /** The instructions that are left, and one for every program without any that has not had its turn. */
  function Work(cfg: Config, k: Kernel): int
    requires Wf(cfg, k)
  {
    WorkOf(cfg, k.turns, |cfg.jobs|)
  }

  /** Device 0 is the loader's, device c + 1 is that of CPU c. */
  ghost predicate Enabled(cfg: Config, k: Kernel, act: Act)
    requires Wf(cfg, k)
  {
    match act
    case Bar(a) => B.Enabled(k.bar, a) && !a.Announce? && !a.Detach?
    case CpuAct(c) => c < |k.cpus| && k.bar.devs[c + 1].phase == B.Working
    case LdAct => k.bar.devs[0].phase == B.Working
  }

  function SetCpu(k: Kernel, c: nat, v: Cpu): Kernel
    requires c < |k.cpus|
  {
    k.(cpus := k.cpus[c := v])
  }

  /** get_proc, after which the CPU goes on at `some` or at `none`. */
  function GetProc(cfg: Config, k: Kernel, c: nat, timeLeft: nat, none: Loc): Kernel
    requires Wf(cfg, k) && c < |k.cpus|
  {
    var r := Served(k.mlq);
    var v := k.cpus[c].(loc := if r.Some? then Check else none, proc := r, timeLeft := timeLeft,
                        late := k.ldr.next == |cfg.jobs|);
    SetCpu(k, c, v).(mlq := Get(k.mlq))
  }

  function FinishProc(k: Kernel, c: nat, p: Pcb): Kernel
    requires c < |k.cpus| && k.mlq.Wf()
  {
    SetCpu(k, c, k.cpus[c].(loc := AfterFinish, proc := None)).(
      mlq := Finish(k.mlq, p), finished := k.finished + multiset{p})
  }

  function PutProc(k: Kernel, c: nat, p: Pcb): Kernel
    requires c < |k.cpus| && k.mlq.Wf()
  {
    SetCpu(k, c, k.cpus[c].(loc := AfterPut, proc := None)).(mlq := Put(k.mlq, p))
  }

  /** run: one instruction, unless the program counter is past the end. */
  function RunProc(cfg: Config, k: Kernel, c: nat, p: Pcb): Kernel
    requires Wf(cfg, k) && c < |k.cpus| && cfg.Known(p)
  {
    var j := p.pid - 1;
    var v := k.cpus[c];
    var k1 := SetCpu(k, c, v.(loc := Yield, timeLeft := if v.timeLeft == 0 then 0 else v.timeLeft - 1)).(
                turns := k.turns[j := k.turns[j] + 1]);
    if k.pc[j] < cfg.Size(p) then
      k1.(pc := k.pc[j := k.pc[j] + 1], log := k.log + [(p.pid, cfg.jobs[j].code[k.pc[j]])])
    else k1
  }

  function CpuStep(cfg: Config, k: Kernel, c: nat): Kernel
    requires Wf(cfg, k) && Enabled(cfg, k, CpuAct(c))
  {
    var v := k.cpus[c];
    match v.loc
    case Top =>
      if v.proc.None? then GetProc(cfg, k, c, v.timeLeft, Yield)
      else if k.pc[v.proc.value.pid - 1] == cfg.Size(v.proc.value) then FinishProc(k, c, v.proc.value)
      else if v.timeLeft == 0 then PutProc(k, c, v.proc.value)
      else SetCpu(k, c, v.(loc := Check))
    case AfterFinish => GetProc(cfg, k, c, 0, Check)
    case AfterPut => GetProc(cfg, k, c, v.timeLeft, Check)
    case Check =>
      if v.proc.None? then SetCpu(k, c, v.(loc := if k.ldr.done then Quit else Yield))
      else if v.timeLeft == 0 then
        SetCpu(k, c, v.(loc := Run, timeLeft := cfg.quantum, start := k.pc[v.proc.value.pid - 1]))
      else SetCpu(k, c, v.(loc := Run))
    case Run => if v.proc.None? then k else RunProc(cfg, k, c, v.proc.value)
    case Yield => SetCpu(k, c, v.(loc := Top)).(bar := B.Step(k.bar, B.Announce(c + 1)))
    case Quit => k.(bar := B.Step(k.bar, B.Detach(c + 1)))
  }

  function LdStep(cfg: Config, k: Kernel): Kernel
    requires Wf(cfg, k) && Enabled(cfg, k, LdAct)
  {
    var v := k.ldr;
    match v.loc
    case LdTop =>
      if v.next == |cfg.jobs| then k.(ldr := v.(done := true, loc := LdQuit))
      else if k.bar.time < cfg.jobs[v.next].start then k.(ldr := v.(loc := LdYield))
      else k.(ldr := v.(loc := LdLoad))
    case LdLoad =>
      if v.next == |cfg.jobs| then k
      else k.(mlq := Add(k.mlq, cfg.Pcb(v.next)),
              ldr := v.(next := v.next + 1, loc := LdYield, addSlot := k.bar.devs[0].released))
    case LdYield => k.(ldr := v.(loc := LdTop), bar := B.Step(k.bar, B.Announce(0)))
    case LdQuit => k.(bar := B.Step(k.bar, B.Detach(0)))
  }

  /** The step in which the timer advances the clock. */
  predicate Ticks(k: Kernel, act: Act) {
    act == Bar(B.TimerStep) && k.bar.timer.Scan? && k.bar.timer.i >= |k.bar.devs|
  }

  ghost function NewTick(cfg: Config, k: Kernel): Tick
    requires Wf(cfg, k)
  {
    var busy := k.ldr.next == |cfg.jobs| && Busy(cfg, k);
    Tick(Work(cfg, k), busy, if busy then k.tick.count + 1 else k.tick.count)
  }

  ghost function Step(cfg: Config, k: Kernel, act: Act): Kernel
    requires Wf(cfg, k) && Enabled(cfg, k, act)
  {
    match act
    case Bar(a) =>
      var k1 := k.(bar := B.Step(k.bar, a));
      if Ticks(k, act) then k1.(tick := NewTick(cfg, k)) else k1
    case CpuAct(c) => CpuStep(cfg, k, c)
    case LdAct => LdStep(cfg, k)
  }

  /** Processes loaded and not finished. */
  function Live(k: Kernel): int {
    k.ldr.next - |k.finished|
  }

  /** Runs that never have more than 50 live processes, the capacity of a queue. */
  ghost predicate IsRun(cfg: Config, ks: seq<Kernel>, acts: seq<Act>) {
    && |ks| == |acts| + 1 && ks[0] == Boot(cfg)
    && (forall i :: 0 <= i < |acts| ==>
          Wf(cfg, ks[i]) && Enabled(cfg, ks[i], acts[i]) && ks[i + 1] == Step(cfg, ks[i], acts[i]))
    && (forall i :: 0 <= i < |ks| ==> Live(ks[i]) <= MAX_QUEUE_SIZE)
  }
}
