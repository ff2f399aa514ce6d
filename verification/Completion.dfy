/**
 * Completion: between two ticks of the clock the threads take a bounded number of steps, and the number of ticks
 * before every program has been executed is bounded, so every program is executed after a bounded number of steps.
 */
module Completion {
  import opened Kernels
  import opened Bags
  import B = Barriers
  import O = Ownership
  import S = Stranded
  import P = Programs
  import G = Progress
  import T = OsTheorems

  // ---- How many steps are left before the next tick ----

  /** Steps a CPU at work takes at most until it has called next_slot or detached. */
  function CpuLeft(loc: Loc): nat {
    match loc
    case Top => 5
    case AfterFinish => 4
    case AfterPut => 4
    case Check => 3
    case Run => 2
    case Yield => 1
    case Quit => 1
  }

  function LdLeft(loc: LdLoc): nat {
    match loc
    case LdTop => 3
    case LdLoad => 2
    case LdYield => 1
    case LdQuit => 1
  }

  /** The release sweep has still to come to device d. */
  predicate Owed(t: B.TimerPc, d: nat) {
    t.Release? && t.i <= d
  }

  function Left(k: Kernel, d: nat): nat
    requires d < |k.bar.devs| == |k.cpus| + 1
  {
    if d == 0 then LdLeft(k.ldr.loc) else CpuLeft(k.cpus[d - 1].loc)
  }

  function PhaseRank(v: B.Dev, left: nat): nat {
    match v.phase
    case Working => left + 2
    case Waiting => if v.done then 1 else 8
    case Sleeping => 0
    case Detached => 0
  }

  function RankAt(k: Kernel, d: nat): nat
    requires d < |k.bar.devs| == |k.cpus| + 1
  {
    PhaseRank(k.bar.devs[d], Left(k, d)) + if Owed(k.bar.timer, d) && B.Live(k.bar.devs[d]) then 8 else 0
  }

  function TimerRank(t: B.TimerPc, n: nat): int {
    match t
    case Head => 2 * n + 2
    case Scan(i, _, _) => 2 * (n - i) + 1
    case ScanSleep(i, _, _) => 2 * (n - i)
    case Release(i, _, _) => (n - i) + 1 + (2 * n + 2)
    case Exited => 0
  }

  function SumRank(k: Kernel, n: nat): nat
    requires n <= |k.bar.devs| == |k.cpus| + 1
  {
    if n == 0 then 0 else SumRank(k, n - 1) + RankAt(k, n - 1)
  }

  function Rank(k: Kernel): int
    requires |k.bar.devs| == |k.cpus| + 1
  {
    TimerRank(k.bar.timer, |k.bar.devs|) + SumRank(k, |k.bar.devs|)
  }

  /** The most steps from one tick to the next, that tick included, when nobody is woken spuriously. */
  function SlotSteps(cfg: Config): nat {
    12 * cfg.cpus + 16
  }

  lemma {:induction false} SumBound(k: Kernel, n: nat)
    requires n <= |k.bar.devs| == |k.cpus| + 1 && B.Inv(k.bar)
    ensures SumRank(k, n) <= 9 * n
    decreases n
  {
    if n > 0 {
      SumBound(k, n - 1);
      assert B.DevOk(k.bar.devs[n - 1]) && B.SlotOk(k.bar, n - 1);
    }
  }

  lemma RankBound(cfg: Config, k: Kernel)
    requires Wf(cfg, k) && B.Inv(k.bar)
    ensures 0 <= Rank(k) < SlotSteps(cfg)
  {
    SumBound(k, |k.bar.devs|);
  }

  /** Only device d changes its rank. */
  predicate OnlyAt(k: Kernel, k': Kernel, d: nat)
    requires |k'.bar.devs| == |k.bar.devs| == |k.cpus| + 1 == |k'.cpus| + 1
  {
    forall e :: 0 <= e < |k.bar.devs| && e != d ==> RankAt(k', e) == RankAt(k, e)
  }

  lemma {:induction false} SumChange(k: Kernel, k': Kernel, d: nat, n: nat)
    requires n <= |k'.bar.devs| == |k.bar.devs| == |k.cpus| + 1 == |k'.cpus| + 1 && d < |k.bar.devs|
    requires OnlyAt(k, k', d)
    ensures SumRank(k', n) - SumRank(k, n) == if d < n then RankAt(k', d) - RankAt(k, d) else 0
    decreases n
  {
    if n > 0 {
      SumChange(k, k', d, n - 1);
      if n - 1 != d {
        assert RankAt(k', n - 1) == RankAt(k, n - 1);
      }
    }
  }

  // ---- Every step but a tick and a spurious wake-up comes nearer to the next tick ----

  lemma RecheckSinks(k: Kernel, k': Kernel, d: nat)
    requires B.Inv(k.bar) && d < |k.bar.devs| == |k.cpus| + 1 && k.bar.devs[d].phase == B.Waiting
    requires k' == k.(bar := B.Step(k.bar, B.Recheck(d))) && Left(k, d) <= 5
    ensures Rank(k') < Rank(k)
  {
    assert B.DevOk(k.bar.devs[d]) && B.SlotOk(k.bar, d);
    SumChange(k, k', d, |k.bar.devs|);
  }

  lemma WakeLifts(k: Kernel, k': Kernel, d: nat)
    requires B.Inv(k.bar) && d < |k.bar.devs| == |k.cpus| + 1 && k.bar.devs[d].phase == B.Sleeping
    requires k' == k.(bar := B.Step(k.bar, B.Wake(d)))
    ensures Rank(k') == Rank(k) + 1
  {
    assert B.DevOk(k.bar.devs[d]);
    SumChange(k, k', d, |k.bar.devs|);
  }

  lemma ReleaseSinks(k: Kernel, k': Kernel)
    requires B.Inv(k.bar) && |k.bar.devs| == |k.cpus| + 1 && k.bar.timer.Release?
    requires k' == k.(bar := B.TimerMove(k.bar))
    ensures Rank(k') < Rank(k)
  {
    var i := k.bar.timer.i;
    if i < |k.bar.devs| {
      assert B.DevOk(k.bar.devs[i]) && B.SlotOk(k.bar, i);
      SumChange(k, k', i, |k.bar.devs|);
    } else {
      assert OnlyAt(k, k', 0) && RankAt(k', 0) == RankAt(k, 0);
      SumChange(k, k', 0, |k.bar.devs|);
    }
  }

  lemma ScanSinks(k: Kernel, k': Kernel)
    requires |k.bar.devs| == |k.cpus| + 1 && (k.bar.timer.Head? || (k.bar.timer.Scan? && k.bar.timer.i < |k.bar.devs|))
    requires k' == k.(bar := B.TimerMove(k.bar))
    ensures Rank(k') < Rank(k)
  {
    assert OnlyAt(k, k', 0) && RankAt(k', 0) == RankAt(k, 0);
    SumChange(k, k', 0, |k.bar.devs|);
  }

  lemma TimerWakeLifts(k: Kernel, k': Kernel)
    requires |k.bar.devs| == |k.cpus| + 1 && k.bar.timer.ScanSleep?
    requires k' == k.(bar := B.Step(k.bar, B.TimerWake))
    ensures Rank(k') == Rank(k) + 1
  {
    assert OnlyAt(k, k', 0) && RankAt(k', 0) == RankAt(k, 0);
    SumChange(k, k', 0, |k.bar.devs|);
  }

  /** A thread that goes on inside its slot, or leaves it and may wake the timer. */
  lemma WorkSinks(k: Kernel, k': Kernel, d: nat)
    requires B.Inv(k.bar) && d < |k'.bar.devs| == |k.bar.devs| == |k.cpus| + 1 == |k'.cpus| + 1
    requires k.bar.devs[d].phase == B.Working
    requires forall e :: 0 <= e < |k.bar.devs| && e != d ==>
               k'.bar.devs[e] == k.bar.devs[e] && Left(k', e) == Left(k, e)
    requires (k'.bar == k.bar && Left(k', d) < Left(k, d))
          || k'.bar == B.Step(k.bar, B.Announce(d)) || k'.bar == B.Step(k.bar, B.Detach(d))
    requires Left(k, d) >= 1
    ensures Rank(k') < Rank(k)
  {
    assert B.DevOk(k.bar.devs[d]) && B.SlotOk(k.bar, d);
    assert forall e :: Owed(k'.bar.timer, e) == Owed(k.bar.timer, e);
    SumChange(k, k', d, |k.bar.devs|);
  }

  /** What a CPU's step does to its program point and to the barrier. */
  lemma CpuMoves(cfg: Config, k: Kernel, c: nat)
    requires Wf(cfg, k) && Enabled(cfg, k, CpuAct(c)) && O.Shape(k, c)
    ensures var k' := CpuStep(cfg, k, c);
            && |k'.cpus| == |k.cpus|
            && if k.cpus[c].loc == Yield then k'.bar == B.Step(k.bar, B.Announce(c + 1))
               else if k.cpus[c].loc == Quit then k'.bar == B.Step(k.bar, B.Detach(c + 1))
               else k'.bar == k.bar && CpuLeft(k'.cpus[c].loc) < CpuLeft(k.cpus[c].loc)
  {
  }

  lemma CpuSinks(cfg: Config, k: Kernel, c: nat)
    requires O.Inv(cfg, k) && Enabled(cfg, k, CpuAct(c))
    ensures |CpuStep(cfg, k, c).bar.devs| == |CpuStep(cfg, k, c).cpus| + 1
    ensures Rank(CpuStep(cfg, k, c)) < Rank(k)
  {
    assert O.Shape(k, c);
    CpuMoves(cfg, k, c);
    O.CpuFrames(cfg, k, c);
    WorkSinks(k, CpuStep(cfg, k, c), c + 1);
  }

  lemma LdMoves(cfg: Config, k: Kernel)
    requires Wf(cfg, k) && Enabled(cfg, k, LdAct) && O.LdShape(cfg, k)
    ensures var k' := LdStep(cfg, k);
            if k.ldr.loc == LdYield then k'.bar == B.Step(k.bar, B.Announce(0))
            else if k.ldr.loc == LdQuit then k'.bar == B.Step(k.bar, B.Detach(0))
            else k'.bar == k.bar && LdLeft(k'.ldr.loc) < LdLeft(k.ldr.loc)
  {
  }

  lemma LdSinks(cfg: Config, k: Kernel)
    requires O.Inv(cfg, k) && Enabled(cfg, k, LdAct)
    ensures |LdStep(cfg, k).bar.devs| == |LdStep(cfg, k).cpus| + 1
    ensures Rank(LdStep(cfg, k)) < Rank(k)
  {
    LdMoves(cfg, k);
    O.LdFrames(cfg, k);
    WorkSinks(k, LdStep(cfg, k), 0);
  }

  predicate Wakes(act: Act) {
    act.Bar? && (act.a.Wake? || act.a.TimerWake?)
  }

  /** Any step but a tick, a spurious wake-up and main's stop_timer. */
  lemma StepSinks(cfg: Config, k: Kernel, act: Act)
    requires O.Inv(cfg, k) && Enabled(cfg, k, act) && act != Bar(B.Stop) && !Ticks(k, act)
    ensures var k' := Step(cfg, k, act);
            |k'.bar.devs| == |k'.cpus| + 1 && if Wakes(act) then Rank(k') == Rank(k) + 1 else Rank(k') < Rank(k)
  {
    match act
    case CpuAct(c) => CpuSinks(cfg, k, c);
    case LdAct => LdSinks(cfg, k);
    case Bar(a) => BarSinks(cfg, k, a);
  }

  lemma BarSinks(cfg: Config, k: Kernel, a: B.Act)
    requires O.Inv(cfg, k) && Enabled(cfg, k, Bar(a)) && !a.Stop? && !Ticks(k, Bar(a))
    ensures var k' := Step(cfg, k, Bar(a));
            |k'.bar.devs| == |k'.cpus| + 1 && if Wakes(Bar(a)) then Rank(k') == Rank(k) + 1 else Rank(k') < Rank(k)
  {
    var k' := Step(cfg, k, Bar(a));
    match a
    case Recheck(d) => RecheckSinks(k, k', d);
    case Wake(d) => WakeLifts(k, k', d);
    case TimerWake => TimerWakeLifts(k, k');
    case TimerStep =>
      if k.bar.timer.Release? {
        ReleaseSinks(k, k');
      } else {
        ScanSinks(k, k');
      }
  }

  // ---- Counting the steps of a run ----

  /** Clock ticks between states i and j. */
  function TicksIn(ks: seq<Kernel>, acts: seq<Act>, i: nat, j: nat): nat
    requires |ks| == |acts| + 1 && i <= j < |ks|
    decreases j
  {
    if i == j then 0 else TicksIn(ks, acts, i, j - 1) + if Ticks(ks[j - 1], acts[j - 1]) then 1 else 0
  }

  /** Spurious wake-ups between states i and j. */
  function WakesIn(acts: seq<Act>, i: nat, j: nat): nat
    requires i <= j <= |acts|
    decreases j
  {
    if i == j then 0 else WakesIn(acts, i, j - 1) + if Wakes(acts[j - 1]) then 1 else 0
  }

  /** Some thread has not detached. */
  predicate Alive(k: Kernel) {
    !B.AllDetached(k.bar)
  }

  lemma StaysDetached(cfg: Config, k: Kernel, act: Act)
    requires O.Inv(cfg, k) && Enabled(cfg, k, act) && !Alive(k)
    ensures !Alive(Step(cfg, k, act))
  {
    if act.Bar? {
      forall d | 0 <= d < |k.bar.devs|
        ensures Step(cfg, k, act).bar.devs[d].phase == B.Detached
      {
        B.QuietStep(k.bar, act.a, d);
      }
    }
  }

  /** One more step of a run, whose tick pays for the whole slot that it opens and a wake-up for one more step. */
  lemma StepPays(cfg: Config, ks: seq<Kernel>, acts: seq<Act>, j: nat)
    requires cfg.Ok() && IsRun(cfg, ks, acts) && j < |acts| && Alive(ks[j + 1])
    ensures Wf(cfg, ks[j]) && Wf(cfg, ks[j + 1]) && Alive(ks[j])
    ensures 1 + Rank(ks[j + 1]) <=
              Rank(ks[j]) + (if Ticks(ks[j], acts[j]) then SlotSteps(cfg) else 0) + (if Wakes(acts[j]) then 2 else 0)
  {
    O.RunInv(cfg, ks, acts, j);
    O.RunInv(cfg, ks, acts, j + 1);
    assert ks[j + 1] == Step(cfg, ks[j], acts[j]);
    if !Alive(ks[j]) {
      StaysDetached(cfg, ks[j], acts[j]);
    }
    if Ticks(ks[j], acts[j]) {
      RankBound(cfg, ks[j]);
      RankBound(cfg, ks[j + 1]);
    } else {
      StepSinks(cfg, ks[j], acts[j]);
    }
  }

  /** What the ticks and the spurious wake-ups between states i and j pay for. */
  function Paid(cfg: Config, ks: seq<Kernel>, acts: seq<Act>, i: nat, j: nat): nat
    requires |ks| == |acts| + 1 && i <= j < |ks|
    decreases j
  {
    if i == j then 0
    else
      Paid(cfg, ks, acts, i, j - 1)
      + (if Ticks(ks[j - 1], acts[j - 1]) then SlotSteps(cfg) else 0) + (if Wakes(acts[j - 1]) then 2 else 0)
  }

  lemma {:induction false} PaidIs(cfg: Config, ks: seq<Kernel>, acts: seq<Act>, i: nat, j: nat)
    requires |ks| == |acts| + 1 && i <= j < |ks|
    ensures Paid(cfg, ks, acts, i, j) == SlotSteps(cfg) * TicksIn(ks, acts, i, j) + 2 * WakesIn(acts, i, j)
    decreases j
  {
    if i < j {
      PaidIs(cfg, ks, acts, i, j - 1);
      OneMore(SlotSteps(cfg), TicksIn(ks, acts, i, j - 1));
    }
  }

  lemma OneMore(a: nat, t: nat)
    ensures a * (t + 1) == a * t + a
  {
  }

  /** As long as a thread is left, the steps of a run are paid for by its ticks and wake-ups. */
  lemma {:induction false} StepsPaid(cfg: Config, ks: seq<Kernel>, acts: seq<Act>, i: nat, j: nat)
    requires cfg.Ok() && IsRun(cfg, ks, acts) && i <= j < |ks| && Alive(ks[j])
    ensures Wf(cfg, ks[i]) && Wf(cfg, ks[j])
    ensures (j - i) + Rank(ks[j]) <= Rank(ks[i]) + Paid(cfg, ks, acts, i, j)
    decreases j
  {
    if i == j {
      O.RunInv(cfg, ks, acts, i);
    } else {
      StepPays(cfg, ks, acts, j - 1);
      StepsPaid(cfg, ks, acts, i, j - 1);
    }
  }

  lemma RankInRun(cfg: Config, ks: seq<Kernel>, acts: seq<Act>, i: nat)
    requires cfg.Ok() && IsRun(cfg, ks, acts) && i < |ks|
    ensures Wf(cfg, ks[i]) && 0 <= Rank(ks[i]) < SlotSteps(cfg)
  {
    O.RunInv(cfg, ks, acts, i);
    RankBound(cfg, ks[i]);
  }

  lemma StepsWithin(cfg: Config, ks: seq<Kernel>, acts: seq<Act>, i: nat, j: nat)
    requires cfg.Ok() && IsRun(cfg, ks, acts) && i <= j < |ks| && Alive(ks[j])
    ensures j - i < SlotSteps(cfg) + Paid(cfg, ks, acts, i, j)
  {
    StepsPaid(cfg, ks, acts, i, j);
    RankInRun(cfg, ks, acts, i);
    RankInRun(cfg, ks, acts, j);
  }

  /** A stretch with at most m - 1 ticks is shorter than m slots, apart from spurious wake-ups. */
  lemma Overdue(cfg: Config, ks: seq<Kernel>, acts: seq<Act>, i: nat, j: nat, m: int)
    requires |ks| == |acts| + 1 && i <= j < |ks| && j - i < SlotSteps(cfg) + Paid(cfg, ks, acts, i, j)
    requires TicksIn(ks, acts, i, j) < m
    ensures j - i < SlotSteps(cfg) * m + 2 * WakesIn(acts, i, j)
  {
    PaidIs(cfg, ks, acts, i, j);
    SlotsUpTo(SlotSteps(cfg), TicksIn(ks, acts, i, j), m);
  }

  lemma SlotsUpTo(a: nat, t: nat, m: int)
    requires t < m
    ensures a + a * t <= a * m
  {
    OneMore(a, t);
    assert a * (t + 1) <= a * m;
  }

  lemma {:induction false} SomeTick(ks: seq<Kernel>, acts: seq<Act>, i: nat, j: nat) returns (t: nat)
    requires |ks| == |acts| + 1 && i <= j < |ks| && TicksIn(ks, acts, i, j) > 0
    ensures i <= t < j && Ticks(ks[t], acts[t])
    decreases j
  {
    if Ticks(ks[j - 1], acts[j - 1]) {
      t := j - 1;
    } else {
      t := SomeTick(ks, acts, i, j - 1);
    }
  }

  /**
   * The clock does not stop: among any 12 * cpus + 16 steps, and two more for every spurious wake-up among them,
   * there is a tick, in every interleaving, as long as some thread has not detached.
   */
  lemma TickComes(cfg: Config, ks: seq<Kernel>, acts: seq<Act>, i: nat, j: nat)
    requires cfg.Ok() && IsRun(cfg, ks, acts) && i <= j < |ks| && Alive(ks[j])
    requires j - i >= SlotSteps(cfg) + 2 * WakesIn(acts, i, j)
    ensures exists t :: i <= t < j && Ticks(ks[t], acts[t])
  {
    StepsWithin(cfg, ks, acts, i, j);
    if TicksIn(ks, acts, i, j) == 0 {
      Overdue(cfg, ks, acts, i, j, 1);
      assert false;
    }
    var t := SomeTick(ks, acts, i, j);
  }

  // ---- How many ticks it takes to load everything ----

  /** The last slot in which a process is to be loaded. */
  function LastStart(jobs: seq<Job>): (m: nat)
    ensures forall j :: 0 <= j < |jobs| ==> jobs[j].start <= m
  {
    if jobs == [] then 0
    else
      var m := LastStart(jobs[..|jobs| - 1]);
      var s := jobs[|jobs| - 1].start;
      if s > m then s else m
  }

  predicate Loaded(cfg: Config, k: Kernel) {
    k.ldr.next == |cfg.jobs|
  }

  /** Once every start time has come, the loader loads one process in each slot, and then it is done. */
  predicate OnSchedule(cfg: Config, k: Kernel)
    requires |k.bar.devs| > 0
  {
    k.ldr.done ||
    k.bar.devs[0].announced + (if k.ldr.loc == LdYield then 1 else 0) <= LastStart(cfg.jobs) + k.ldr.next
  }

  /** What the loader's step does to its program point and its count of slots. */
  lemma LdGoes(cfg: Config, k: Kernel)
    requires Wf(cfg, k) && Enabled(cfg, k, LdAct) && O.LdShape(cfg, k)
    ensures var k' := LdStep(cfg, k);
            && |k'.bar.devs| == |k.bar.devs|
            && k'.bar.devs[0].announced == k.bar.devs[0].announced + (if k.ldr.loc == LdYield then 1 else 0)
            && k'.ldr.next == k.ldr.next + (if k.ldr.loc == LdLoad && !Loaded(cfg, k) then 1 else 0)
            && (k.ldr.done ==> k'.ldr.done)
            && (k'.ldr.loc == LdYield ==>
                  (k.ldr.loc == LdLoad && !Loaded(cfg, k))
                  || (k.ldr.loc == LdTop && !Loaded(cfg, k) && k.bar.time < cfg.jobs[k.ldr.next].start))
  {
  }

  lemma ScheduleLd(cfg: Config, k: Kernel)
    requires Wf(cfg, k) && Enabled(cfg, k, LdAct) && O.LdShape(cfg, k)
    requires OnSchedule(cfg, k) && k.bar.devs[0].announced == k.bar.time
    ensures |LdStep(cfg, k).bar.devs| > 0 && OnSchedule(cfg, LdStep(cfg, k))
  {
    LdGoes(cfg, k);
  }

  lemma ScheduleStep(cfg: Config, k: Kernel, act: Act)
    requires O.Inv(cfg, k) && Enabled(cfg, k, act) && OnSchedule(cfg, k)
    ensures |Step(cfg, k, act).bar.devs| > 0 && OnSchedule(cfg, Step(cfg, k, act))
  {
    match act
    case LdAct =>
      S.WorkingSlot(k.bar, 0);
      ScheduleLd(cfg, k);
    case CpuAct(c) => O.CpuFrames(cfg, k, c);
    case Bar(a) => B.QuietStep(k.bar, a, 0);
  }

  lemma {:induction false} ScheduleRun(cfg: Config, ks: seq<Kernel>, acts: seq<Act>, i: nat)
    requires cfg.Ok() && IsRun(cfg, ks, acts) && i < |ks|
    ensures O.Inv(cfg, ks[i]) && OnSchedule(cfg, ks[i])
    decreases i
  {
    O.RunInv(cfg, ks, acts, i);
    if i > 0 {
      ScheduleRun(cfg, ks, acts, i - 1);
      assert ks[i] == Step(cfg, ks[i - 1], acts[i - 1]);
      ScheduleStep(cfg, ks[i - 1], acts[i - 1]);
    }
  }

  /** Everything is loaded, and the loader done, by the slot LastStart + |jobs|, in every run. */
  lemma LoadedInTime(cfg: Config, ks: seq<Kernel>, acts: seq<Act>, i: nat)
    requires cfg.Ok() && IsRun(cfg, ks, acts) && i < |ks|
    requires ks[i].bar.time > LastStart(cfg.jobs) + |cfg.jobs|
    ensures Loaded(cfg, ks[i]) && ks[i].ldr.done
  {
    ScheduleRun(cfg, ks, acts, i);
    var k := ks[i];
    assert B.DevOk(k.bar.devs[0]) && B.SlotOk(k.bar, 0) && O.LdShape(cfg, k);
  }

  // ---- How many ticks it takes to execute everything ----

  /** Something is still to be loaded or executed. */
  ghost predicate Unfinished(cfg: Config, k: Kernel)
    requires Wf(cfg, k)
  {
    !Loaded(cfg, k) || Busy(cfg, k)
  }

  /** Every program has been loaded and executed from its first instruction to its last. */
  predicate Complete(cfg: Config, k: Kernel) {
    && Loaded(cfg, k)
    && forall j :: 0 <= j < |cfg.jobs| ==> P.Executed(k.log, j + 1) == cfg.jobs[j].code
  }

  lemma NothingLeft(cfg: Config, k: Kernel)
    requires P.Inv(cfg, k) && !Unfinished(cfg, k)
    ensures Complete(cfg, k)
  {
    forall j | 0 <= j < |cfg.jobs|
      ensures P.Executed(k.log, j + 1) == cfg.jobs[j].code
    {
      T.ExecutedAt(cfg, k, j);
      assert k.turns[j] >= cfg.Turns(j);
      assert cfg.jobs[j].code[..|cfg.jobs[j].code|] == cfg.jobs[j].code;
    }
  }

  /** With work left, somebody is there to do it. */
  lemma WorkKeepsAlive(cfg: Config, k: Kernel)
    requires cfg.Ok() && S.Inv(cfg, k) && P.Inv(cfg, k) && Unfinished(cfg, k)
    ensures Alive(k)
  {
    if !Alive(k) {
      assert forall c :: 0 <= c < |k.cpus| ==> !S.Present(k, c);
      S.AllGone(cfg, k);
      T.AllFinished(cfg, k);
      NoneLeft(cfg, k);
    }
  }

  lemma NoneLeft(cfg: Config, k: Kernel)
    requires Wf(cfg, k) && P.FinishedOk(cfg, k) && Loaded(cfg, k) && k.finished == LoadedBag(cfg, |cfg.jobs|)
    ensures !Busy(cfg, k)
  {
    forall j | 0 <= j < |cfg.jobs|
      ensures k.turns[j] == cfg.Turns(j)
    {
      LoadedOnce(cfg, |cfg.jobs|, cfg.Pcb(j));
      assert P.AtEnd(cfg, k.pc, k.turns, cfg.Pcb(j));
    }
  }

  /** Work that is left was there before. */
  lemma WasUnfinished(cfg: Config, k: Kernel, act: Act)
    requires P.Inv(cfg, k) && Enabled(cfg, k, act) && Wf(cfg, Step(cfg, k, act))
    requires Unfinished(cfg, Step(cfg, k, act))
    ensures Unfinished(cfg, k)
    ensures Loaded(cfg, k) ==> Loaded(cfg, Step(cfg, k, act))
  {
    match act
    case Bar(a) =>
    case LdAct => O.LdFrames(cfg, k);
    case CpuAct(c) =>
      assert O.Shape(k, c);
      G.CpuTurns(cfg, k, c);
      O.CpuFrames(cfg, k, c);
  }

  /** A tick while work is left is counted, unless loading is not complete. */
  lemma CountedTick(cfg: Config, k: Kernel, act: Act)
    requires P.Inv(cfg, k) && Enabled(cfg, k, act)
    ensures var k' := Step(cfg, k, act);
            && k'.bar.time == k.bar.time + (if Ticks(k, act) then 1 else 0)
            && k'.tick.count == k.tick.count + if Ticks(k, act) && Loaded(cfg, k) && Busy(cfg, k) then 1 else 0
  {
    match act
    case Bar(a) => B.QuietStep(k.bar, a, 0);
    case LdAct => O.LdFrames(cfg, k);
    case CpuAct(c) => O.CpuFrames(cfg, k, c);
  }

  /** How a step moves the clock, and what it says about work that is left after it. */
  ghost predicate Advances(cfg: Config, k: Kernel, act: Act, k': Kernel) {
    && k'.bar.time == k.bar.time + (if Ticks(k, act) then 1 else 0)
    && Wf(cfg, k) && Wf(cfg, k')
    && (Unfinished(cfg, k') ==>
          && Unfinished(cfg, k) && (Loaded(cfg, k) ==> Loaded(cfg, k'))
          && k'.tick.count == k.tick.count + if Ticks(k, act) && Loaded(cfg, k) then 1 else 0)
  }

  ghost predicate Advancing(cfg: Config, ks: seq<Kernel>, acts: seq<Act>) {
    |ks| == |acts| + 1 && forall i :: 0 <= i < |acts| ==> Advances(cfg, ks[i], acts[i], ks[i + 1])
  }

  lemma RunAdvances(cfg: Config, ks: seq<Kernel>, acts: seq<Act>)
    requires cfg.Ok() && IsRun(cfg, ks, acts)
    ensures Advancing(cfg, ks, acts)
  {
    forall i | 0 <= i < |acts|
      ensures Advances(cfg, ks[i], acts[i], ks[i + 1])
    {
      P.RunInv(cfg, ks, acts, i);
      P.RunInv(cfg, ks, acts, i + 1);
      StepAdvances(cfg, ks[i], acts[i], ks[i + 1]);
    }
  }

  lemma StepAdvances(cfg: Config, k: Kernel, act: Act, k': Kernel)
    requires P.Inv(cfg, k) && Enabled(cfg, k, act) && k' == Step(cfg, k, act) && Wf(cfg, k')
    ensures Advances(cfg, k, act, k')
  {
    CountedTick(cfg, k, act);
    if Unfinished(cfg, k') {
      WasUnfinished(cfg, k, act);
    }
  }

  /** The clock counts the ticks. */
  lemma {:induction false} TimeCounts(cfg: Config, ks: seq<Kernel>, acts: seq<Act>, i: nat, j: nat)
    requires Advancing(cfg, ks, acts) && i <= j < |ks|
    ensures TicksIn(ks, acts, i, j) == ks[j].bar.time - ks[i].bar.time
    decreases j
  {
    if i < j {
      TimeCounts(cfg, ks, acts, i, j - 1);
      assert Advances(cfg, ks[j - 1], acts[j - 1], ks[j]);
    }
  }

  /** Between states with work left after loading, every tick is counted. */
  lemma {:induction false} TicksCounted(cfg: Config, ks: seq<Kernel>, acts: seq<Act>, i: nat, j: nat)
    requires Advancing(cfg, ks, acts) && i <= j < |ks| && Loaded(cfg, ks[i])
    requires Wf(cfg, ks[j]) && Unfinished(cfg, ks[j])
    ensures Loaded(cfg, ks[j]) && ks[j].bar.time - ks[i].bar.time == ks[j].tick.count - ks[i].tick.count
    decreases j
  {
    if i < j {
      assert Advances(cfg, ks[j - 1], acts[j - 1], ks[j]);
      TicksCounted(cfg, ks, acts, i, j - 1);
    }
  }

  /**
   * From any state with everything loaded, every program has been executed to its end after
   * (work left + 1) * (12 * cpus + 16) steps, and two more for every spurious wake-up.
   */
  lemma CompletesAfterLoading(cfg: Config, ks: seq<Kernel>, acts: seq<Act>, i: nat, j: nat)
    requires cfg.Ok() && IsRun(cfg, ks, acts) && i <= j < |ks|
    requires Wf(cfg, ks[i]) && Loaded(cfg, ks[i])
    requires j - i >= SlotSteps(cfg) * (Work(cfg, ks[i]) + 1) + 2 * WakesIn(acts, i, j)
    ensures Complete(cfg, ks[j])
  {
    S.RunInv(cfg, ks, acts, j);
    P.RunInv(cfg, ks, acts, j);
    if Unfinished(cfg, ks[j]) {
      RunAdvances(cfg, ks, acts);
      TicksCounted(cfg, ks, acts, i, j);
      TimeCounts(cfg, ks, acts, i, j);
      G.WorkBoundsSlots(cfg, ks, acts, i, j);
      WorkKeepsAlive(cfg, ks[j]);
      StepsWithin(cfg, ks, acts, i, j);
      Overdue(cfg, ks, acts, i, j, Work(cfg, ks[i]) + 1);
    } else {
      NothingLeft(cfg, ks[j]);
    }
  }

  // ---- From the start ----

  /** The slots that are not counted are those before loading is complete. */
  lemma {:induction false} TimeBounded(cfg: Config, ks: seq<Kernel>, acts: seq<Act>, j: nat)
    requires cfg.Ok() && IsRun(cfg, ks, acts) && Advancing(cfg, ks, acts) && j < |ks|
    requires Wf(cfg, ks[j]) && Unfinished(cfg, ks[j])
    ensures ks[j].bar.time <= ks[j].tick.count + LastStart(cfg.jobs) + |cfg.jobs| + 1
    decreases j
  {
    if j > 0 {
      assert Advances(cfg, ks[j - 1], acts[j - 1], ks[j]);
      TimeBounded(cfg, ks, acts, j - 1);
      if !Loaded(cfg, ks[j - 1]) && ks[j - 1].bar.time > LastStart(cfg.jobs) + |cfg.jobs| {
        LoadedInTime(cfg, ks, acts, j - 1);
      }
    }
  }

  /** All instructions of the first n programs, and one for each of them that has none. */
  function TotalWork(cfg: Config, n: nat): nat
    requires n <= |cfg.jobs|
  {
    if n == 0 then 0 else TotalWork(cfg, n - 1) + cfg.Turns(n - 1)
  }

  lemma {:induction false} WorkAtBoot(cfg: Config, n: nat)
    requires n <= |cfg.jobs|
    ensures WorkOf(cfg, Boot(cfg).turns, n) == TotalWork(cfg, n)
    decreases n
  {
    if n > 0 {
      WorkAtBoot(cfg, n - 1);
    }
  }

  /** The slots in which everything is sure to be loaded and executed. */
  function SlotsNeeded(cfg: Config): nat {
    LastStart(cfg.jobs) + |cfg.jobs| + TotalWork(cfg, |cfg.jobs|) + 2
  }

  lemma SlotsFromBoot(cfg: Config, ks: seq<Kernel>, acts: seq<Act>, j: nat)
    requires cfg.Ok() && IsRun(cfg, ks, acts) && j < |ks|
    requires Wf(cfg, ks[j]) && Unfinished(cfg, ks[j])
    ensures TicksIn(ks, acts, 0, j) < SlotsNeeded(cfg)
  {
    RunAdvances(cfg, ks, acts);
    TimeBounded(cfg, ks, acts, j);
    TimeCounts(cfg, ks, acts, 0, j);
    G.WorkBoundsSlots(cfg, ks, acts, 0, j);
    WorkAtBoot(cfg, |cfg.jobs|);
  }

  /** As long as the loader is not done, the CPUs and the loader are there. */
  lemma LoadingKeepsAlive(cfg: Config, k: Kernel)
    requires cfg.Ok() && O.Inv(cfg, k) && !k.ldr.done
    ensures Alive(k)
  {
    assert O.LdShape(cfg, k);
  }

  /** After that many slots the loader is done. */
  lemma DoneByThen(cfg: Config, ks: seq<Kernel>, acts: seq<Act>, j: nat)
    requires cfg.Ok() && IsRun(cfg, ks, acts) && j < |ks|
    requires j >= SlotSteps(cfg) * SlotsNeeded(cfg) + 2 * WakesIn(acts, 0, j)
    ensures ks[j].ldr.done
  {
    if !ks[j].ldr.done {
      if ks[j].bar.time > LastStart(cfg.jobs) + |cfg.jobs| {
        LoadedInTime(cfg, ks, acts, j);
        assert false;
      }
      O.RunInv(cfg, ks, acts, j);
      LoadingKeepsAlive(cfg, ks[j]);
      RunAdvances(cfg, ks, acts);
      TimeCounts(cfg, ks, acts, 0, j);
      StepsWithin(cfg, ks, acts, 0, j);
      Overdue(cfg, ks, acts, 0, j, SlotsNeeded(cfg));
    }
  }

  lemma RunByThen(cfg: Config, ks: seq<Kernel>, acts: seq<Act>, j: nat)
    requires cfg.Ok() && IsRun(cfg, ks, acts) && j < |ks|
    requires j >= SlotSteps(cfg) * SlotsNeeded(cfg) + 2 * WakesIn(acts, 0, j)
    ensures Wf(cfg, ks[j]) && !Unfinished(cfg, ks[j])
  {
    S.RunInv(cfg, ks, acts, j);
    P.RunInv(cfg, ks, acts, j);
    if Unfinished(cfg, ks[j]) {
      SlotsFromBoot(cfg, ks, acts, j);
      WorkKeepsAlive(cfg, ks[j]);
      StepsWithin(cfg, ks, acts, 0, j);
      Overdue(cfg, ks, acts, 0, j, SlotsNeeded(cfg));
    }
  }

  /** Everything has been loaded and run, and the loader has said so. */
  ghost predicate Over(cfg: Config, k: Kernel) {
    Wf(cfg, k) && k.ldr.done && Loaded(cfg, k) && !Busy(cfg, k)
  }

  /**
   * The simulation does its job in bounded time: in any interleaving of the threads, after at most
   * last start time + number of processes + work + 2 slots of 12 * cpus + 16 steps each, not counting two for
   * every spurious wake-up, every process has been loaded and executed completely, and `done` is set.
   */
  lemma Completes(cfg: Config, ks: seq<Kernel>, acts: seq<Act>, j: nat)
    requires cfg.Ok() && IsRun(cfg, ks, acts) && j < |ks|
    requires j >= SlotSteps(cfg) * SlotsNeeded(cfg) + 2 * WakesIn(acts, 0, j)
    ensures Complete(cfg, ks[j]) && Over(cfg, ks[j])
  {
    DoneByThen(cfg, ks, acts, j);
    RunByThen(cfg, ks, acts, j);
    P.RunInv(cfg, ks, acts, j);
    NothingLeft(cfg, ks[j]);
  }
}
