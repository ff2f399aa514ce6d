/** Every loaded process is in exactly one place. */
module Ownership {
  import opened Common
  import opened Queues
  import opened Mlqs
  import opened Kernels
  import opened Bags
  import B = Barriers

  /** What the program point of a CPU says about its locals and its device. */
  predicate Shape(k: Kernel, c: nat)
    requires c < |k.cpus| && |k.bar.devs| == |k.cpus| + 1
  {
    var v := k.cpus[c];
    var phase := k.bar.devs[c + 1].phase;
    && (v.loc == AfterFinish || v.loc == AfterPut || v.loc == Quit ==> v.proc.None?)
    && (v.loc == Run ==> v.proc.Some?)
    && (v.loc == Quit ==> k.ldr.done)
    && (v.proc.None? && v.loc != AfterFinish ==> v.timeLeft == 0)
    && (phase == B.Detached ==> v.loc == Quit)
    && (phase != B.Working && phase != B.Detached ==> v.loc == Top)
  }

  predicate LdShape(cfg: Config, k: Kernel)
    requires |k.bar.devs| >= 1
  {
    var phase := k.bar.devs[0].phase;
    && (k.ldr.loc == LdLoad ==> k.ldr.next < |cfg.jobs|)
    && (k.ldr.done <==> k.ldr.loc == LdQuit)
    && (k.ldr.loc == LdQuit ==> k.ldr.next == |cfg.jobs|)
    && (phase == B.Detached ==> k.ldr.loc == LdQuit)
    && (phase != B.Working && phase != B.Detached ==> k.ldr.loc == LdTop)
  }

  predicate Shapes(cfg: Config, k: Kernel)
    requires Wf(cfg, k)
  {
    B.Inv(k.bar) && LdShape(cfg, k) && forall c :: 0 <= c < |k.cpus| ==> Shape(k, c)
  }

  /** Conservation, with the running list being what the CPUs hold and each queue holding its own priority. */
  predicate Owned(cfg: Config, k: Kernel)
    requires Wf(cfg, k)
  {
    && ReadyBag(k.mlq.ready) + HeldBag(k.cpus) + k.finished == LoadedBag(cfg, k.ldr.next)
    && multiset(k.mlq.running) == HeldBag(k.cpus)
    && OwnLevels(k.mlq)
  }

  ghost predicate Inv(cfg: Config, k: Kernel) {
    Wf(cfg, k) && Shapes(cfg, k) && Owned(cfg, k)
  }

  lemma BootOwned(cfg: Config)
    ensures Wf(cfg, Boot(cfg)) && Owned(cfg, Boot(cfg))
  {
    var k := Boot(cfg);
    ReadyEmpty(k.mlq.ready);
    HeldEmpty(k.cpus);
    OwnedFrom(cfg, k, multiset{}, multiset{});
  }

  lemma BootInv(cfg: Config)
    ensures Inv(cfg, Boot(cfg))
  {
    BootOwned(cfg);
    BootShapes(cfg);
  }

  lemma BootShapes(cfg: Config)
    requires Wf(cfg, Boot(cfg))
    ensures Shapes(cfg, Boot(cfg))
  {
    B.StartInv(cfg.cpus + 1);
  }

  // ---- Shapes ----

  /** The scheduler hands out loaded processes only. */
  lemma GetWf(cfg: Config, k: Kernel, c: nat, timeLeft: nat, none: Loc)
    requires Wf(cfg, k) && c < |k.cpus|
    ensures Wf(cfg, GetProc(cfg, k, c, timeLeft, none))
  {
    var m' := Get(k.mlq);
    forall l, i | 0 <= l < MAX_PRIO && 0 <= i < |m'.ready[l]|
      ensures cfg.Known(m'.ready[l][i])
    {
      assert m'.ready[l][i] in k.mlq.ready[l];
    }
  }

  lemma PutWf(cfg: Config, k: Kernel, c: nat, p: Pcb)
    requires Wf(cfg, k) && c < |k.cpus| && cfg.Known(p)
    ensures Wf(cfg, PutProc(k, c, p))
    ensures Wf(cfg, FinishProc(k, c, p))
  {
  }

  lemma CpuWf(cfg: Config, k: Kernel, c: nat)
    requires Wf(cfg, k) && Enabled(cfg, k, CpuAct(c))
    ensures Wf(cfg, CpuStep(cfg, k, c))
  {
    var v := k.cpus[c];
    match v.loc
    case Top =>
      if v.proc.None? {
        GetWf(cfg, k, c, v.timeLeft, Yield);
      } else {
        PutWf(cfg, k, c, v.proc.value);
      }
    case AfterFinish => GetWf(cfg, k, c, 0, Check);
    case AfterPut => GetWf(cfg, k, c, v.timeLeft, Check);
    case _ =>
  }

  /** What a CPU's step leaves alone. */
  predicate CpuFrame(k: Kernel, k': Kernel, c: nat)
    requires c < |k.cpus| && c + 1 < |k.bar.devs|
  {
    && |k'.cpus| == |k.cpus| && k'.cpus == k.cpus[c := k'.cpus[c]]
    && |k'.bar.devs| == |k.bar.devs| && k'.bar.devs == k.bar.devs[c + 1 := k'.bar.devs[c + 1]]
    && k'.bar.time == k.bar.time
    && k'.ldr == k.ldr && k'.tick == k.tick
    && (k'.bar == k.bar || k.cpus[c].loc == Yield || k.cpus[c].loc == Quit)
  }

  lemma CpuFrames(cfg: Config, k: Kernel, c: nat)
    requires Wf(cfg, k) && Enabled(cfg, k, CpuAct(c))
    ensures CpuFrame(k, CpuStep(cfg, k, c), c)
  {
    assert k.cpus == k.cpus[c := k.cpus[c]];
    assert k.bar.devs == k.bar.devs[c + 1 := k.bar.devs[c + 1]];
  }

  lemma ShapeOf(cfg: Config, k: Kernel, c: nat)
    requires cfg.Ok() && Wf(cfg, k) && Enabled(cfg, k, CpuAct(c)) && Shape(k, c)
    requires CpuFrame(k, CpuStep(cfg, k, c), c)
    ensures Shape(CpuStep(cfg, k, c), c)
  {
  }

  lemma ShapesCpu(cfg: Config, k: Kernel, c: nat)
    requires cfg.Ok() && Wf(cfg, k) && Shapes(cfg, k) && Enabled(cfg, k, CpuAct(c))
    ensures Wf(cfg, CpuStep(cfg, k, c)) && Shapes(cfg, CpuStep(cfg, k, c))
  {
    CpuWf(cfg, k, c);
    CpuFrames(cfg, k, c);
    ShapeOf(cfg, k, c);
    ShapesRest(cfg, k, CpuStep(cfg, k, c), c);
    assert B.Inv(CpuStep(cfg, k, c).bar) by {
      if k.cpus[c].loc == Yield {
        B.StepInv(k.bar, B.Announce(c + 1));
      } else if k.cpus[c].loc == Quit {
        B.StepInv(k.bar, B.Detach(c + 1));
      }
    }
  }

  lemma ShapesRest(cfg: Config, k: Kernel, k': Kernel, c: nat)
    requires Wf(cfg, k) && Shapes(cfg, k) && c < |k.cpus| && CpuFrame(k, k', c) && Shape(k', c)
    ensures LdShape(cfg, k') && forall e :: 0 <= e < |k'.cpus| ==> Shape(k', e)
  {
    forall e | 0 <= e < |k'.cpus|
      ensures Shape(k', e)
    {
      assert Shape(k, e);
    }
  }

  /** What the loader's step leaves alone. */
  predicate LdFrame(k: Kernel, k': Kernel)
    requires |k.bar.devs| > 0
  {
    && k'.cpus == k.cpus && k'.pc == k.pc && k'.turns == k.turns
    && k'.finished == k.finished && k'.log == k.log && k'.tick == k.tick
    && |k'.bar.devs| == |k.bar.devs| && k'.bar.devs == k.bar.devs[0 := k'.bar.devs[0]]
    && k'.bar.time == k.bar.time
    && (k'.bar == k.bar || k.ldr.loc == LdYield || k.ldr.loc == LdQuit)
  }

  lemma LdFrames(cfg: Config, k: Kernel)
    requires Wf(cfg, k) && Enabled(cfg, k, LdAct)
    ensures LdFrame(k, LdStep(cfg, k))
  {
    assert k.bar.devs == k.bar.devs[0 := k.bar.devs[0]];
  }

  /** The queues hold known processes after one more is added. */
  lemma AddKnown(cfg: Config, m: Mlq, p: Pcb)
    requires m.Wf() && cfg.Known(p)
    requires forall l, i :: 0 <= l < MAX_PRIO && 0 <= i < |m.ready[l]| ==> cfg.Known(m.ready[l][i])
    ensures forall l, i :: 0 <= l < MAX_PRIO && 0 <= i < |Add(m, p).ready[l]| ==> cfg.Known(Add(m, p).ready[l][i])
  {
  }

  lemma LdWf(cfg: Config, k: Kernel)
    requires Wf(cfg, k) && Enabled(cfg, k, LdAct)
    ensures Wf(cfg, LdStep(cfg, k))
  {
    LdEffect(cfg, k);
    LdFrames(cfg, k);
    if k.ldr.loc == LdLoad && k.ldr.next < |cfg.jobs| {
      AddKnown(cfg, k.mlq, cfg.Pcb(k.ldr.next));
    }
  }

  lemma LdShapeOf(cfg: Config, k: Kernel)
    requires Wf(cfg, k) && Enabled(cfg, k, LdAct) && LdShape(cfg, k)
    ensures LdShape(cfg, LdStep(cfg, k))
  {
  }

  lemma ShapesLd(cfg: Config, k: Kernel)
    requires Wf(cfg, k) && Shapes(cfg, k) && Enabled(cfg, k, LdAct)
    ensures Wf(cfg, LdStep(cfg, k)) && Shapes(cfg, LdStep(cfg, k))
  {
    LdWf(cfg, k);
    LdFrames(cfg, k);
    LdShapeOf(cfg, k);
    var k' := LdStep(cfg, k);
    forall e | 0 <= e < |k'.cpus|
      ensures Shape(k', e)
    {
      assert Shape(k, e);
    }
    assert B.Inv(k'.bar) by {
      if k.ldr.loc == LdYield {
        B.StepInv(k.bar, B.Announce(0));
      } else if k.ldr.loc == LdQuit {
        B.StepInv(k.bar, B.Detach(0));
      }
    }
  }

  lemma ShapesBar(cfg: Config, k: Kernel, a: B.Act)
    requires Wf(cfg, k) && Shapes(cfg, k) && Enabled(cfg, k, Bar(a))
    ensures Wf(cfg, Step(cfg, k, Bar(a))) && Shapes(cfg, Step(cfg, k, Bar(a)))
  {
    var k' := Step(cfg, k, Bar(a));
    B.StepInv(k.bar, a);
    B.QuietStep(k.bar, a, 0);
    forall e | 0 <= e < |k'.cpus|
      ensures Shape(k', e)
    {
      ShapeBar(k, k', a, e);
    }
  }

  lemma ShapeBar(k: Kernel, k': Kernel, a: B.Act, e: nat)
    requires e < |k.cpus| && |k.bar.devs| == |k.cpus| + 1 && Shape(k, e) && B.Inv(k.bar)
    requires B.Enabled(k.bar, a) && !a.Announce? && !a.Detach?
    requires k'.cpus == k.cpus && k'.ldr == k.ldr && k'.bar == B.Step(k.bar, a)
    ensures Shape(k', e)
  {
    B.QuietStep(k.bar, a, e + 1);
    assert B.DevOk(k.bar.devs[e + 1]);
  }

  // ---- Conservation ----

  /** How many processes each place can hold while at most 50 are live. */
  lemma Room(cfg: Config, k: Kernel)
    requires Wf(cfg, k) && Owned(cfg, k) && Live(k) <= MAX_QUEUE_SIZE
    ensures |k.mlq.running| + |ReadyBag(k.mlq.ready)| <= MAX_QUEUE_SIZE
    ensures |ReadyBag(k.mlq.ready)| + |HeldBag(k.cpus)| == Live(k)
    ensures forall l :: 0 <= l < MAX_PRIO ==> |k.mlq.ready[l]| <= |ReadyBag(k.mlq.ready)|
  {
    var r, h := ReadyBag(k.mlq.ready), HeldBag(k.cpus);
    LoadedOnce(cfg, k.ldr.next, Pcb(0, 0));
    assert |r + h + k.finished| == |r| + |h| + |k.finished|;
    assert |multiset(k.mlq.running)| == |k.mlq.running|;
    forall l | 0 <= l < MAX_PRIO
      ensures |k.mlq.ready[l]| <= |r|
    {
      ReadyHas(k.mlq.ready, l);
      var q := multiset(k.mlq.ready[l]);
      assert |q| == |k.mlq.ready[l]|;
      assert r == q + (r - q);
    }
  }

  /** A process some CPU holds is on the running list, and is the only one there with its pid. */
  lemma HeldIsRunning(cfg: Config, k: Kernel, c: nat, p: Pcb)
    requires Wf(cfg, k) && Owned(cfg, k) && c < |k.cpus| && k.cpus[c].proc == Some(p)
    ensures p in k.mlq.running && cfg.Known(p) && p.pid <= k.ldr.next
    ensures forall x :: x in k.mlq.running && x.pid == p.pid ==> x == p
    ensures HeldBag(k.cpus)[p] == 1 && ReadyBag(k.mlq.ready)[p] == 0 && k.finished[p] == 0
  {
    HeldHas(k.cpus, c, p);
    LoadedOnce(cfg, k.ldr.next, p);
    assert p in multiset(k.mlq.running);
    forall x | x in k.mlq.running && x.pid == p.pid
      ensures x == p
    {
      RunningIsKnown(cfg, k, x);
    }
  }

  lemma RunningIsKnown(cfg: Config, k: Kernel, x: Pcb)
    requires Wf(cfg, k) && Owned(cfg, k) && x in k.mlq.running
    ensures cfg.Known(x)
  {
    assert x in multiset(k.mlq.running);
    OneOfThree(ReadyBag(k.mlq.ready), HeldBag(k.cpus), k.finished, x);
    LoadedOnce(cfg, k.ldr.next, x);
  }

  lemma OneOfThree<T>(r: multiset<T>, h: multiset<T>, f: multiset<T>, x: T)
    requires x in h
    ensures x in r + h + f
  {
  }

  lemma MoveBag<T>(r: multiset<T>, h: multiset<T>, f: multiset<T>, p: multiset<T>,
                   r1: multiset<T>, h1: multiset<T>, f1: multiset<T>)
    requires (r1 + p == r && h1 == h + p && f1 == f) || (r1 == r + p && h1 + p == h && f1 == f)
          || (r1 == r && h1 + p == h && f1 == f + p)
    ensures r1 + h1 + f1 == r + h + f
  {
  }

  /** A CPU with empty hands takes p. */
  lemma Takes(cpus: seq<Cpu>, c: nat, v: Cpu, p: Pcb)
    requires c < |cpus| && cpus[c].proc.None? && v.proc == Some(p)
    ensures HeldBag(cpus[c := v]) == HeldBag(cpus) + multiset{p}
  {
    HeldUpdate(cpus, c, v);
  }

  /** A CPU that holds p lets go of it. */
  lemma Drops(cpus: seq<Cpu>, c: nat, v: Cpu, p: Pcb)
    requires c < |cpus| && cpus[c].proc == Some(p) && v.proc.None?
    ensures HeldBag(cpus[c := v]) + multiset{p} == HeldBag(cpus)
  {
    HeldUpdate(cpus, c, v);
  }

  lemma Keeps(cpus: seq<Cpu>, c: nat, v: Cpu)
    requires c < |cpus| && cpus[c].proc == v.proc
    ensures HeldBag(cpus[c := v]) == HeldBag(cpus)
  {
    HeldUpdate(cpus, c, v);
    assert HeldBag(cpus) + multiset{} == HeldBag(cpus);
    Cancel(HeldBag(cpus[c := v]), Hand(v), HeldBag(cpus), multiset{});
  }

  lemma GetOwned(cfg: Config, k: Kernel, c: nat, timeLeft: nat, none: Loc)
    requires Wf(cfg, k) && Owned(cfg, k) && Live(k) <= MAX_QUEUE_SIZE
    requires c < |k.cpus| && k.cpus[c].proc.None? && Wf(cfg, GetProc(cfg, k, c, timeLeft, none))
    ensures Owned(cfg, GetProc(cfg, k, c, timeLeft, none))
  {
    var k' := GetProc(cfg, k, c, timeLeft, none);
    var v := k'.cpus[c];
    assert k'.cpus == k.cpus[c := v];
    GetBag(k.mlq);
    if Served(k.mlq).Some? {
      var p := Served(k.mlq).value;
      Room(cfg, k);
      Takes(k.cpus, c, v, p);
      MoveBag(ReadyBag(k.mlq.ready), HeldBag(k.cpus), k.finished, multiset{p},
              ReadyBag(k'.mlq.ready), HeldBag(k'.cpus), k'.finished);
    } else {
      Keeps(k.cpus, c, v);
    }
  }

  lemma FinishOwned(cfg: Config, k: Kernel, c: nat, p: Pcb)
    requires Wf(cfg, k) && Owned(cfg, k) && c < |k.cpus| && k.cpus[c].proc == Some(p)
    requires Wf(cfg, FinishProc(k, c, p))
    ensures Owned(cfg, FinishProc(k, c, p))
  {
    var k' := FinishProc(k, c, p);
    HeldIsRunning(cfg, k, c, p);
    PurgedBag(k.mlq.running, p);
    Drops(k.cpus, c, k'.cpus[c], p);
    MoveBag(ReadyBag(k.mlq.ready), HeldBag(k.cpus), k.finished, multiset{p},
            ReadyBag(k'.mlq.ready), HeldBag(k'.cpus), k'.finished);
  }

  /** put_proc takes p off the running list and, given room, queues it. */
  lemma PutBag(m: Mlq, p: Pcb)
    requires m.Wf() && OwnLevels(m) && p.prio < MAX_PRIO && |m.ready[p.prio]| < MAX_QUEUE_SIZE
    requires p in m.running && forall x :: x in m.running && x.pid == p.pid ==> x == p
    ensures multiset(Put(m, p).running) == multiset(m.running) - multiset{p}
    ensures ReadyBag(Put(m, p).ready) == ReadyBag(m.ready) + multiset{p}
    ensures OwnLevels(Put(m, p))
  {
    PurgedBag(m.running, p);
    AddBag(Finish(m, p), p);
    AddLevels(Finish(m, p), p);
  }

  lemma PutOwned(cfg: Config, k: Kernel, c: nat, p: Pcb)
    requires cfg.Ok() && Wf(cfg, k) && Owned(cfg, k) && Live(k) <= MAX_QUEUE_SIZE
    requires c < |k.cpus| && k.cpus[c].proc == Some(p)
    requires Wf(cfg, PutProc(k, c, p))
    ensures Owned(cfg, PutProc(k, c, p))
  {
    var k' := PutProc(k, c, p);
    HeldIsRunning(cfg, k, c, p);
    Room(cfg, k);
    PutBag(k.mlq, p);
    Drops(k.cpus, c, k'.cpus[c], p);
    MoveBag(ReadyBag(k.mlq.ready), HeldBag(k.cpus), k.finished, multiset{p},
            ReadyBag(k'.mlq.ready), HeldBag(k'.cpus), k'.finished);
  }

  /** What add_proc by the loader does; its other steps move no process. */
  lemma LdEffect(cfg: Config, k: Kernel)
    requires Wf(cfg, k) && Enabled(cfg, k, LdAct)
    ensures var k' := LdStep(cfg, k);
            && k'.cpus == k.cpus && k'.finished == k.finished
            && (if k.ldr.loc == LdLoad && k.ldr.next < |cfg.jobs|
                then k'.mlq == Add(k.mlq, cfg.Pcb(k.ldr.next)) && k'.ldr.next == k.ldr.next + 1
                else k'.mlq == k.mlq && k'.ldr.next == k.ldr.next)
  {
  }

  lemma AddedOwned(cfg: Config, k: Kernel, m: Mlq, p: Pcb, n: nat, loaded: multiset<Pcb>)
    requires cfg.Ok() && Wf(cfg, k) && Owned(cfg, k) && Live(k) < MAX_QUEUE_SIZE
    requires k.ldr.next < |cfg.jobs| && p == cfg.Pcb(k.ldr.next) && m == Add(k.mlq, p) && m.Wf()
    requires n == k.ldr.next + 1 && loaded == LoadedBag(cfg, n)
    ensures ReadyBag(m.ready) + HeldBag(k.cpus) + k.finished == loaded
    ensures m.running == k.mlq.running && OwnLevels(m)
  {
    Room(cfg, k);
    AddBag(k.mlq, p);
    AddLevels(k.mlq, p);
    AddFourth(ReadyBag(k.mlq.ready), HeldBag(k.cpus), k.finished, multiset{p}, ReadyBag(m.ready),
              LoadedBag(cfg, k.ldr.next), loaded);
  }

  lemma AddFourth<T>(r: multiset<T>, h: multiset<T>, f: multiset<T>, p: multiset<T>, r1: multiset<T>,
                     l: multiset<T>, l1: multiset<T>)
    requires r + h + f == l && r1 == r + p && l1 == l + p
    ensures r1 + h + f == l1
  {
  }

  lemma AddOwned(cfg: Config, k: Kernel)
    requires cfg.Ok() && Wf(cfg, k) && Owned(cfg, k) && Enabled(cfg, k, LdAct)
    requires Live(k) <= MAX_QUEUE_SIZE && Live(LdStep(cfg, k)) <= MAX_QUEUE_SIZE
    requires Wf(cfg, LdStep(cfg, k))
    ensures Owned(cfg, LdStep(cfg, k))
  {
    LdEffect(cfg, k);
    if k.ldr.loc == LdLoad && k.ldr.next < |cfg.jobs| {
      OneMoreOwned(cfg, k, LdStep(cfg, k), cfg.Pcb(k.ldr.next), k.ldr.next + 1);
    } else {
      NoMoreOwned(cfg, k, LdStep(cfg, k));
    }
  }

  lemma OneMoreOwned(cfg: Config, k: Kernel, k': Kernel, p: Pcb, n: nat)
    requires cfg.Ok() && Wf(cfg, k) && Owned(cfg, k) && Live(k) < MAX_QUEUE_SIZE && Wf(cfg, k')
    requires k.ldr.next < |cfg.jobs| && p == cfg.Pcb(k.ldr.next) && k'.mlq == Add(k.mlq, p)
    requires n == k.ldr.next + 1 == k'.ldr.next && k'.cpus == k.cpus && k'.finished == k.finished
    ensures Owned(cfg, k')
  {
    var loaded := LoadedBag(cfg, n);
    AddedOwned(cfg, k, k'.mlq, p, n, loaded);
    OwnedFrom(cfg, k', loaded, HeldBag(k.cpus));
  }

  lemma NoMoreOwned(cfg: Config, k: Kernel, k': Kernel)
    requires Wf(cfg, k) && Owned(cfg, k) && Wf(cfg, k') && k'.ldr.next == k.ldr.next && k'.mlq == k.mlq
    requires k'.cpus == k.cpus && k'.finished == k.finished
    ensures Owned(cfg, k')
  {
  }

  lemma OwnedFrom(cfg: Config, k: Kernel, loaded: multiset<Pcb>, held: multiset<Pcb>)
    requires Wf(cfg, k) && loaded == LoadedBag(cfg, k.ldr.next) && held == HeldBag(k.cpus)
    requires ReadyBag(k.mlq.ready) + held + k.finished == loaded && multiset(k.mlq.running) == held && OwnLevels(k.mlq)
    ensures Owned(cfg, k)
  {
  }

  lemma RestOwned(cfg: Config, k: Kernel, c: nat)
    requires Wf(cfg, k) && Owned(cfg, k) && Enabled(cfg, k, CpuAct(c)) && Wf(cfg, CpuStep(cfg, k, c))
    requires k.cpus[c].loc == Check || k.cpus[c].loc == Run || k.cpus[c].loc == Yield || k.cpus[c].loc == Quit
    ensures Owned(cfg, CpuStep(cfg, k, c))
  {
    RestKeeps(cfg, k, c);
    CpuFrames(cfg, k, c);
    var v := CpuStep(cfg, k, c).cpus[c];
    Keeps(k.cpus, c, v);
  }

  /** Away from the scheduler calls a CPU moves no process. */
  lemma RestKeeps(cfg: Config, k: Kernel, c: nat)
    requires Wf(cfg, k) && Enabled(cfg, k, CpuAct(c))
    requires k.cpus[c].loc == Check || k.cpus[c].loc == Run || k.cpus[c].loc == Yield || k.cpus[c].loc == Quit
    ensures var k' := CpuStep(cfg, k, c);
            |k'.cpus| == |k.cpus| && k'.mlq == k.mlq && k'.finished == k.finished && k'.cpus[c].proc == k.cpus[c].proc
  {
  }

  /** The loop head of a CPU that holds a process. */
  lemma OwnedTop(cfg: Config, k: Kernel, c: nat)
    requires cfg.Ok() && Wf(cfg, k) && Owned(cfg, k) && Enabled(cfg, k, CpuAct(c)) && Live(k) <= MAX_QUEUE_SIZE
    requires k.cpus[c].loc == Top && k.cpus[c].proc.Some? && Wf(cfg, CpuStep(cfg, k, c))
    ensures Owned(cfg, CpuStep(cfg, k, c))
  {
    var v := k.cpus[c];
    if k.pc[v.proc.value.pid - 1] == cfg.Size(v.proc.value) {
      FinishOwned(cfg, k, c, v.proc.value);
    } else if v.timeLeft == 0 {
      PutOwned(cfg, k, c, v.proc.value);
    } else {
      Keeps(k.cpus, c, v.(loc := Check));
    }
  }

  /** The program points at which a CPU asks for a process. */
  lemma OwnedGet(cfg: Config, k: Kernel, c: nat)
    requires cfg.Ok() && Wf(cfg, k) && Owned(cfg, k) && Enabled(cfg, k, CpuAct(c)) && Live(k) <= MAX_QUEUE_SIZE
    requires k.cpus[c].proc.None? && Wf(cfg, CpuStep(cfg, k, c))
    requires k.cpus[c].loc == Top || k.cpus[c].loc == AfterFinish || k.cpus[c].loc == AfterPut
    ensures Owned(cfg, CpuStep(cfg, k, c))
  {
    var v := k.cpus[c];
    GetOwned(cfg, k, c, if v.loc == AfterFinish then 0 else v.timeLeft, if v.loc == Top then Yield else Check);
  }

  lemma OwnedCpu(cfg: Config, k: Kernel, c: nat)
    requires cfg.Ok() && Inv(cfg, k) && Enabled(cfg, k, CpuAct(c)) && Live(k) <= MAX_QUEUE_SIZE
    requires Wf(cfg, CpuStep(cfg, k, c))
    ensures Owned(cfg, CpuStep(cfg, k, c))
  {
    assert Shape(k, c);
    match k.cpus[c].loc
    case Top =>
      if k.cpus[c].proc.Some? {
        OwnedTop(cfg, k, c);
      } else {
        OwnedGet(cfg, k, c);
      }
    case AfterFinish => OwnedGet(cfg, k, c);
    case AfterPut => OwnedGet(cfg, k, c);
    case _ => RestOwned(cfg, k, c);
  }

  lemma StepInv(cfg: Config, k: Kernel, act: Act)
    requires cfg.Ok() && Inv(cfg, k) && Enabled(cfg, k, act)
    requires Live(k) <= MAX_QUEUE_SIZE && Live(Step(cfg, k, act)) <= MAX_QUEUE_SIZE
    ensures Inv(cfg, Step(cfg, k, act))
  {
    match act
    case Bar(a) => ShapesBar(cfg, k, a);
    case CpuAct(c) =>
      ShapesCpu(cfg, k, c);
      OwnedCpu(cfg, k, c);
    case LdAct =>
      ShapesLd(cfg, k);
      AddOwned(cfg, k);
  }

  lemma {:induction false} RunInv(cfg: Config, ks: seq<Kernel>, acts: seq<Act>, i: nat)
    requires cfg.Ok() && IsRun(cfg, ks, acts) && i < |ks|
    ensures Inv(cfg, ks[i])
    decreases i
  {
    if i == 0 {
      BootInv(cfg);
    } else {
      RunInv(cfg, ks, acts, i - 1);
      assert ks[i] == Step(cfg, ks[i - 1], acts[i - 1]);
      StepInv(cfg, ks[i - 1], acts[i - 1]);
    }
  }
}
