/**
 * Shutdown: the barrier separates the last add_proc from `done = 1`, so a CPU that leaves its loop
 * has seen empty queues after everything was loaded, and nobody leaves a process behind.
 */
module Stranded {
  import opened Common
  import opened Queues
  import opened Mlqs
  import opened Kernels
  import opened Bags
  import B = Barriers
  import O = Ownership

  /** Between an empty get_proc and the test of `done`. */
  predicate SawNothing(v: Cpu) {
    v.loc == Check && v.proc.None?
  }

  /** Sure to stop, once it sees `done`. */
  predicate Leaving(v: Cpu) {
    v.loc == Quit || (SawNothing(v) && v.late)
  }

  ghost predicate SomeoneLeaving(cpus: seq<Cpu>) {
    exists c :: 0 <= c < |cpus| && Leaving(cpus[c])
  }

  /** Once a CPU is leaving, what is left in the queues is matched by CPUs about to fetch it. */
  ghost predicate Matched(cfg: Config, k: Kernel) {
    SomeoneLeaving(k.cpus) ==> k.ldr.next == |cfg.jobs| && |ReadyBag(k.mlq.ready)| <= PutCount(k.cpus)
  }

  /** An empty get_proc from before the last add_proc is still in the loader's slot. */
  predicate SameSlot(cfg: Config, k: Kernel, c: nat)
    requires c < |k.cpus| && |k.bar.devs| == |k.cpus| + 1
  {
    SawNothing(k.cpus[c]) && !k.cpus[c].late && k.ldr.next == |cfg.jobs| ==>
      k.ldr.next > 0 && k.bar.devs[0].released == k.ldr.addSlot == k.bar.devs[c + 1].released
  }

  /** The loader is past the slot of its last add_proc when it comes back to its loop head. */
  predicate LoaderPast(k: Kernel)
    requires |k.bar.devs| > 0
  {
    && (k.ldr.next > 0 && (k.ldr.loc == LdTop || k.ldr.loc == LdLoad) ==> k.bar.devs[0].announced > k.ldr.addSlot)
    && (k.ldr.next > 0 && k.ldr.loc == LdQuit ==> k.bar.devs[0].released > k.ldr.addSlot)
    && (k.ldr.next > 0 ==> k.ldr.addSlot <= k.bar.devs[0].released)
  }

  /** The loader and the CPUs agree on the slot of the last add_proc. */
  predicate SlotsAgree(cfg: Config, k: Kernel) {
    && |k.bar.devs| == |k.cpus| + 1 && LoaderPast(k)
    && forall c :: 0 <= c < |k.cpus| ==> SameSlot(cfg, k, c)
  }

  ghost predicate Shutdown(cfg: Config, k: Kernel) {
    SlotsAgree(cfg, k) && Matched(cfg, k)
  }

  ghost predicate Inv(cfg: Config, k: Kernel) {
    O.Inv(cfg, k) && Shutdown(cfg, k)
  }

  lemma BootInv(cfg: Config)
    requires cfg.Ok()
    ensures Inv(cfg, Boot(cfg))
  {
    O.BootInv(cfg);
    BootShutdown(cfg);
  }

  lemma BootShutdown(cfg: Config)
    ensures Shutdown(cfg, Boot(cfg))
  {
  }

  /** Two devices at work are in the same slot. */
  lemma WorkingSlot(b: B.Barrier, d: nat)
    requires B.Inv(b) && d < |b.devs| && b.devs[d].phase == B.Working
    ensures b.devs[d].released == b.devs[d].announced == b.time
    ensures b.timer.Release? ==> b.timer.i > d
  {
    assert B.DevOk(b.devs[d]) && B.SlotOk(b, d);
  }

  lemma DoneMeansLate(cfg: Config, k: Kernel, c: nat)
    requires Inv(cfg, k) && k.ldr.done && c < |k.cpus| && SawNothing(k.cpus[c])
    ensures k.cpus[c].late
  {
    assert SameSlot(cfg, k, c);
  }

  // ---- The barrier argument ----

  lemma PastBar(k: Kernel, k': Kernel, a: B.Act)
    requires |k.bar.devs| > 0 && B.Inv(k.bar) && LoaderPast(k) && B.Enabled(k.bar, a) && !a.Announce? && !a.Detach?
    requires k'.bar == B.Step(k.bar, a) && k'.ldr == k.ldr
    ensures LoaderPast(k')
  {
    B.QuietStep(k.bar, a, 0);
    assert B.DevOk(k.bar.devs[0]) && B.SlotOk(k.bar, 0);
  }

  /** The loader cannot be released into a new slot while a CPU is still at work in the old one. */
  lemma SlotBar(cfg: Config, k: Kernel, k': Kernel, a: B.Act, c: nat)
    requires B.Inv(k.bar) && B.Enabled(k.bar, a) && !a.Announce? && !a.Detach?
    requires |k.bar.devs| == |k.cpus| + 1 && c < |k.cpus| && O.Shape(k, c) && SameSlot(cfg, k, c)
    requires k'.bar == B.Step(k.bar, a) && k'.ldr == k.ldr && k'.cpus == k.cpus
    ensures SameSlot(cfg, k', c)
  {
    if SawNothing(k.cpus[c]) {
      WorkingSlot(k.bar, c + 1);
      B.QuietStep(k.bar, a, 0);
      B.QuietStep(k.bar, a, c + 1);
      assert B.SlotOk(k.bar, 0);
    }
  }

  lemma SlotsBar(cfg: Config, k: Kernel, a: B.Act)
    requires Inv(cfg, k) && Enabled(cfg, k, Bar(a))
    ensures var k' := Step(cfg, k, Bar(a));
            LoaderPast(k') && forall c :: 0 <= c < |k'.cpus| ==> SameSlot(cfg, k', c)
  {
    var k' := Step(cfg, k, Bar(a));
    PastBar(k, k', a);
    forall c | 0 <= c < |k'.cpus|
      ensures SameSlot(cfg, k', c)
    {
      assert O.Shape(k, c) && SameSlot(cfg, k, c);
      SlotBar(cfg, k, k', a, c);
    }
  }

  lemma SlotCpu(cfg: Config, k: Kernel, c: nat, e: nat)
    requires Wf(cfg, k) && Enabled(cfg, k, CpuAct(c)) && e < |k.cpus| && SameSlot(cfg, k, e)
    requires O.CpuFrame(k, CpuStep(cfg, k, c), c)
    ensures SameSlot(cfg, CpuStep(cfg, k, c), e)
  {
    if e == c {
      LateOf(cfg, k, c);
    }
  }

  lemma SlotsCpu(cfg: Config, k: Kernel, c: nat)
    requires Inv(cfg, k) && Enabled(cfg, k, CpuAct(c))
    ensures SlotsAgree(cfg, CpuStep(cfg, k, c))
  {
    O.CpuFrames(cfg, k, c);
    forall e | 0 <= e < |k.cpus|
      ensures SameSlot(cfg, CpuStep(cfg, k, c), e)
    {
      assert SameSlot(cfg, k, e);
      SlotCpu(cfg, k, c, e);
    }
  }

  /** A CPU that has just seen nothing knows whether loading was complete. */
  lemma LateOf(cfg: Config, k: Kernel, c: nat)
    requires Wf(cfg, k) && Enabled(cfg, k, CpuAct(c))
    ensures var v' := CpuStep(cfg, k, c).cpus[c];
            SawNothing(v') ==> v'.late == (k.ldr.next == |cfg.jobs|) || v' == k.cpus[c]
  {
  }

  lemma PastLd(cfg: Config, k: Kernel)
    requires Wf(cfg, k) && B.Inv(k.bar) && LoaderPast(k) && Enabled(cfg, k, LdAct)
    ensures LoaderPast(LdStep(cfg, k))
  {
    WorkingSlot(k.bar, 0);
  }

  /** The last add_proc falls into the slot in which any CPU at work is. */
  lemma SlotLd(cfg: Config, k: Kernel, c: nat)
    requires Wf(cfg, k) && B.Inv(k.bar) && Enabled(cfg, k, LdAct)
    requires c < |k.cpus| && O.Shape(k, c) && SameSlot(cfg, k, c) && O.LdFrame(k, LdStep(cfg, k))
    ensures SameSlot(cfg, LdStep(cfg, k), c)
  {
    WorkingSlot(k.bar, 0);
    if SawNothing(k.cpus[c]) {
      WorkingSlot(k.bar, c + 1);
    }
  }

  lemma SlotsLd(cfg: Config, k: Kernel)
    requires cfg.Ok() && Inv(cfg, k) && Enabled(cfg, k, LdAct)
    ensures SlotsAgree(cfg, LdStep(cfg, k))
  {
    var k' := LdStep(cfg, k);
    O.LdFrames(cfg, k);
    PastLd(cfg, k);
    forall c | 0 <= c < |k'.cpus|
      ensures SameSlot(cfg, k', c)
    {
      assert O.Shape(k, c) && SameSlot(cfg, k, c);
      SlotLd(cfg, k, c);
    }
  }

  // ---- The counting argument ----

  /** A step of CPU c that makes nobody new leave. */
  lemma StillMatched(cfg: Config, k: Kernel, k': Kernel, c: nat)
    requires Matched(cfg, k) && c < |k.cpus| && |k'.cpus| == |k.cpus| && k'.cpus == k.cpus[c := k'.cpus[c]]
    requires k'.ldr == k.ldr
    requires Leaving(k'.cpus[c]) ==> Leaving(k.cpus[c])
    requires |ReadyBag(k'.mlq.ready)| + PutCount(k.cpus) <= |ReadyBag(k.mlq.ready)| + PutCount(k'.cpus)
    ensures Matched(cfg, k')
  {
    if SomeoneLeaving(k'.cpus) {
      var e :| 0 <= e < |k'.cpus| && Leaving(k'.cpus[e]);
      assert Leaving(k.cpus[e]);
    }
  }

  lemma MatchedGet(cfg: Config, k: Kernel, c: nat, timeLeft: nat, none: Loc)
    requires Matched(cfg, k) && Wf(cfg, k) && c < |k.cpus| && none != Quit && none != AfterPut && k.cpus[c].proc.None?
    ensures Matched(cfg, GetProc(cfg, k, c, timeLeft, none))
  {
    var k' := GetProc(cfg, k, c, timeLeft, none);
    GetBag(k.mlq);
    PutUpdate(k.cpus, c, k'.cpus[c]);
    if Served(k.mlq).Some? {
      assert |ReadyBag(k.mlq.ready)| == |ReadyBag(k'.mlq.ready)| + 1;
      StillMatched(cfg, k, k', c);
    } else if SomeoneLeaving(k'.cpus) {
      assert |ReadyBag(k'.mlq.ready)| == 0;
      if !Leaving(k'.cpus[c]) {
        var e :| 0 <= e < |k'.cpus| && Leaving(k'.cpus[e]);
        assert Leaving(k.cpus[e]);
      }
    }
  }

  lemma MatchedPut(cfg: Config, k: Kernel, c: nat, p: Pcb)
    requires Matched(cfg, k) && Wf(cfg, k) && c < |k.cpus| && k.cpus[c].proc == Some(p) && k.cpus[c].loc == Top
    ensures Matched(cfg, PutProc(k, c, p)) && Matched(cfg, FinishProc(k, c, p))
  {
    var k' := PutProc(k, c, p);
    PutUpdate(k.cpus, c, k'.cpus[c]);
    AddAtMostOne(Finish(k.mlq, p), p);
    StillMatched(cfg, k, k', c);
    var k2 := FinishProc(k, c, p);
    PutUpdate(k.cpus, c, k2.cpus[c]);
    StillMatched(cfg, k, k2, c);
  }

  lemma AddAtMostOne(m: Mlq, p: Pcb)
    requires m.Wf()
    ensures |ReadyBag(Add(m, p).ready)| <= |ReadyBag(m.ready)| + 1
  {
    if p.prio < MAX_PRIO && |m.ready[p.prio]| < MAX_QUEUE_SIZE {
      AddBag(m, p);
    } else {
      assert Add(m, p).ready == m.ready;
    }
  }

  lemma MatchedRest(cfg: Config, k: Kernel, c: nat)
    requires Matched(cfg, k) && Wf(cfg, k) && Enabled(cfg, k, CpuAct(c))
    requires SawNothing(k.cpus[c]) && k.ldr.done ==> k.cpus[c].late
    requires k.cpus[c].loc == Check || k.cpus[c].loc == Run || k.cpus[c].loc == Yield || k.cpus[c].loc == Quit
    ensures Matched(cfg, CpuStep(cfg, k, c))
  {
    var k' := CpuStep(cfg, k, c);
    O.RestKeeps(cfg, k, c);
    O.CpuFrames(cfg, k, c);
    PutUpdate(k.cpus, c, k'.cpus[c]);
    RestLeaves(cfg, k, c);
    StillMatched(cfg, k, k', c);
  }

  lemma RestLeaves(cfg: Config, k: Kernel, c: nat)
    requires Wf(cfg, k) && Enabled(cfg, k, CpuAct(c))
    requires k.cpus[c].loc == Check || k.cpus[c].loc == Run || k.cpus[c].loc == Yield || k.cpus[c].loc == Quit
    requires SawNothing(k.cpus[c]) && k.ldr.done ==> k.cpus[c].late
    ensures var v' := CpuStep(cfg, k, c).cpus[c];
            v'.loc != AfterPut && (Leaving(v') ==> Leaving(k.cpus[c]))
  {
  }

  lemma MatchedTop(cfg: Config, k: Kernel, c: nat)
    requires Matched(cfg, k) && Wf(cfg, k) && Enabled(cfg, k, CpuAct(c)) && k.cpus[c].loc == Top && k.cpus[c].proc.Some?
    ensures Matched(cfg, CpuStep(cfg, k, c))
  {
    var v := k.cpus[c];
    if k.pc[v.proc.value.pid - 1] == cfg.Size(v.proc.value) || v.timeLeft == 0 {
      MatchedPut(cfg, k, c, v.proc.value);
    } else {
      var k' := SetCpu(k, c, v.(loc := Check));
      assert CpuStep(cfg, k, c) == k';
      PutUpdate(k.cpus, c, k'.cpus[c]);
      StillMatched(cfg, k, k', c);
    }
  }

  lemma MatchedCpu(cfg: Config, k: Kernel, c: nat)
    requires Inv(cfg, k) && Enabled(cfg, k, CpuAct(c))
    ensures Matched(cfg, CpuStep(cfg, k, c))
  {
    var v := k.cpus[c];
    assert O.Shape(k, c);
    if v.loc == Top && v.proc.Some? {
      MatchedTop(cfg, k, c);
    } else if v.loc == Top {
      MatchedGet(cfg, k, c, v.timeLeft, Yield);
    } else if v.loc == AfterFinish {
      MatchedGet(cfg, k, c, 0, Check);
    } else if v.loc == AfterPut {
      MatchedGet(cfg, k, c, v.timeLeft, Check);
    } else {
      if SawNothing(k.cpus[c]) && k.ldr.done {
        DoneMeansLate(cfg, k, c);
      }
      MatchedRest(cfg, k, c);
    }
  }

  /** The loader adds only while nobody is leaving, for then loading is not complete. */
  lemma MatchedLd(cfg: Config, k: Kernel)
    requires Inv(cfg, k) && Enabled(cfg, k, LdAct)
    ensures Matched(cfg, LdStep(cfg, k))
  {
    O.LdFrames(cfg, k);
    var k' := LdStep(cfg, k);
    assert k.ldr.next == |cfg.jobs| ==> k'.ldr.next == k.ldr.next && k'.mlq == k.mlq;
  }

  lemma ShutdownBar(cfg: Config, k: Kernel, a: B.Act)
    requires Inv(cfg, k) && Enabled(cfg, k, Bar(a))
    ensures Shutdown(cfg, Step(cfg, k, Bar(a)))
  {
    SlotsBar(cfg, k, a);
  }

  lemma StepInv(cfg: Config, k: Kernel, act: Act)
    requires cfg.Ok() && Inv(cfg, k) && Enabled(cfg, k, act)
    requires Live(k) <= MAX_QUEUE_SIZE && Live(Step(cfg, k, act)) <= MAX_QUEUE_SIZE
    ensures Inv(cfg, Step(cfg, k, act))
  {
    O.StepInv(cfg, k, act);
    match act
    case Bar(a) => ShutdownBar(cfg, k, a);
    case CpuAct(c) =>
      SlotsCpu(cfg, k, c);
      MatchedCpu(cfg, k, c);
    case LdAct =>
      SlotsLd(cfg, k);
      MatchedLd(cfg, k);
  }

  lemma {:induction false} RunInv(cfg: Config, ks: seq<Kernel>, acts: seq<Act>, i: nat)
    requires cfg.Ok() && IsRun(cfg, ks, acts) && i < |ks|
    ensures Inv(cfg, ks[i])
    decreases i
  {
    if i == 0 {
      BootInv(cfg);
    } else {
      RunInv(cfg, ks, acts, i - 1);
      assert ks[i] == Step(cfg, ks[i - 1], acts[i - 1]);
      StepInv(cfg, ks[i - 1], acts[i - 1]);
    }
  }

  /** CPU c has not left the barrier for good. */
  predicate Present(k: Kernel, c: nat)
    requires c < |k.cpus| && |k.bar.devs| == |k.cpus| + 1
  {
    B.Live(k.bar.devs[c + 1])
  }

  /** When every CPU has left, no process is queued and no one holds one. */
  lemma AllGone(cfg: Config, k: Kernel)
    requires cfg.Ok() && Inv(cfg, k) && forall c :: 0 <= c < |k.cpus| ==> !Present(k, c)
    ensures k.ldr.next == |cfg.jobs| && ReadyBag(k.mlq.ready) == multiset{} && HeldBag(k.cpus) == multiset{}
  {
    forall c | 0 <= c < |k.cpus|
      ensures k.cpus[c].loc == Quit && k.cpus[c].proc.None?
    {
      assert O.Shape(k, c) && !Present(k, c);
    }
    assert Leaving(k.cpus[0]);
    PutNone(k.cpus);
    HeldEmpty(k.cpus);
  }

  /** A CPU that has left its loop has seen `done`. */
  lemma QuitMeansDone(cfg: Config, k: Kernel)
    requires cfg.Ok() && Inv(cfg, k) && forall c :: 0 <= c < |k.cpus| ==> !Present(k, c)
    ensures k.ldr.done
  {
    assert O.Shape(k, 0) && !Present(k, 0);
  }
}
