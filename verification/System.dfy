/** The threads and the memory together: what the processes of a run do to memory is a run of memory operations. */
module Systems {
  import opened Common
  import opened Kernels
  import W = Worlds
  import M = Memory
  import I = Instructions
  import T = OsTheorems
  import MT = MemTheorems
  import R = Private
  import G = Regions
  import opened Tables
  import opened Paging

  /** The memory operation in a step: init_mm of a process being loaded, or the instruction a CPU executes. */
  function OpOf(cfg: Config, k: Kernel, act: Act): Option<W.Op>
    requires Wf(cfg, k) && Enabled(cfg, k, act)
  {
    match act
    case Bar(_) => None
    case LdAct => if k.ldr.loc == LdLoad && k.ldr.next < |cfg.jobs| then Some(W.Load(cfg.Pcb(k.ldr.next).pid)) else None
    case CpuAct(c) =>
      var v := k.cpus[c];
      if v.loc == Run && v.proc.Some? && k.pc[v.proc.value.pid - 1] < cfg.Size(v.proc.value) then
        Some(W.Exec(v.proc.value.pid, cfg.jobs[v.proc.value.pid - 1].code[k.pc[v.proc.value.pid - 1]]))
      else None
  }

  /** What is asked of the programs: variables 0 to 29, and heaps of at most 512 pages. */
  predicate Reasonable(w: W.World, op: W.Op) {
    op.Exec? && op.pid in w.mms ==> W.Legal(w, op)
  }

  function After(w: W.World, op: Option<W.Op>): W.World {
    if op.Some? && W.Legal(w, op.value) then W.Do(w, op.value) else w
  }

  /** A run of the threads together with the memory it works on. */
  ghost predicate IsSystemRun(cfg: Config, ks: seq<Kernel>, acts: seq<Act>, ws: seq<W.World>,
                              ramSize: nat, swpSize: nat) {
    && IsRun(cfg, ks, acts) && |ws| == |ks| && ws[0] == W.Boot(ramSize, swpSize)
    && forall i :: 0 <= i < |acts| ==> MemoryFollows(cfg, ks[i], acts[i], ws[i], ws[i + 1])
  }

  predicate MemoryFollows(cfg: Config, k: Kernel, act: Act, w: W.World, w': W.World)
    requires Wf(cfg, k) && Enabled(cfg, k, act)
  {
    var op := OpOf(cfg, k, act);
    w' == After(w, op) && (op.Some? ==> Reasonable(w, op.value))
  }

  /** The instructions among the operations, as the log has them. */
  function Execs(ops: seq<W.Op>): seq<(nat, I.Inst)> {
    if ops == [] then []
    else
      var last := ops[|ops| - 1];
      Execs(ops[..|ops| - 1]) + if last.Exec? then [(last.pid, last.inst)] else []
  }

  /** The processes with a memory are those loaded. */
  ghost predicate LoadedHaveMemory(k: Kernel, w: W.World) {
    forall p :: p in w.mms <==> 1 <= p <= k.ldr.next
  }

  /** An instruction is executed for a process that has been loaded, and no process is loaded twice. */
  lemma OpLegal(cfg: Config, ks: seq<Kernel>, acts: seq<Act>, i: nat, w: W.World)
    requires cfg.Ok() && IsRun(cfg, ks, acts) && i < |acts| && LoadedHaveMemory(ks[i], w)
    requires OpOf(cfg, ks[i], acts[i]).Some? && Reasonable(w, OpOf(cfg, ks[i], acts[i]).value)
    ensures W.Legal(w, OpOf(cfg, ks[i], acts[i]).value)
  {
    if acts[i].CpuAct? {
      var p := ks[i].cpus[acts[i].c].proc.value;
      T.ExactlyOnePlace(cfg, ks, acts, i, p);
      assert T.Holds(ks[i], acts[i].c, p);
    }
  }

  lemma StepMemory(cfg: Config, k: Kernel, act: Act, w: W.World)
    requires Wf(cfg, k) && Enabled(cfg, k, act) && LoadedHaveMemory(k, w)
    requires OpOf(cfg, k, act).Some? ==> W.Legal(w, OpOf(cfg, k, act).value)
    ensures LoadedHaveMemory(Step(cfg, k, act), After(w, OpOf(cfg, k, act)))
    ensures Step(cfg, k, act).log == k.log +
              match OpOf(cfg, k, act) case None => [] case Some(op) => if op.Exec? then [(op.pid, op.inst)] else []
  {
  }

  /** A legal sequence of memory operations makes w; the instructions in it are those in the log, in order. */
  ghost predicate Makes(vs: seq<W.World>, ops: seq<W.Op>, ramSize: nat, swpSize: nat,
                        w: W.World, log: seq<(nat, I.Inst)>) {
    W.IsRun(vs, ops, ramSize, swpSize) && vs[|ops|] == w && Execs(ops) == log
  }

  /** The operation, if there is one, finds the frames it asks for. */
  predicate Fed(w: W.World, op: Option<W.Op>) {
    op.Some? && W.Legal(w, op.value) ==> !MT.Starves(w, op.value)
  }

  /** So do all operations before state i. */
  ghost predicate AllFed(cfg: Config, ks: seq<Kernel>, acts: seq<Act>, ws: seq<W.World>,
                         ramSize: nat, swpSize: nat, i: nat)
    requires IsSystemRun(cfg, ks, acts, ws, ramSize, swpSize) && i < |ks|
  {
    forall j :: 0 <= j < i ==> Fed(ws[j], OpOf(cfg, ks[j], acts[j]))
  }

  /**
   * The memory at any moment of a run of the threads is what a legal sequence of memory operations makes of it,
   * and the instructions of that sequence are those in the log, in order. If no operation of the threads starves,
   * none of the sequence does.
   */
  lemma {:induction false} MemoryRun(cfg: Config, ks: seq<Kernel>, acts: seq<Act>, ws: seq<W.World>,
                                     ramSize: nat, swpSize: nat, i: nat)
    returns (vs: seq<W.World>, ops: seq<W.Op>)
    requires cfg.Ok() && IsSystemRun(cfg, ks, acts, ws, ramSize, swpSize) && i < |ks|
    ensures Makes(vs, ops, ramSize, swpSize, ws[i], ks[i].log) && LoadedHaveMemory(ks[i], ws[i])
    ensures AllFed(cfg, ks, acts, ws, ramSize, swpSize, i) ==> R.Supplied(vs, ops)
  {
    if i == 0 {
      vs, ops := [ws[0]], [];
      NothingYet(cfg, ramSize, swpSize);
    } else {
      vs, ops := MemoryRun(cfg, ks, acts, ws, ramSize, swpSize, i - 1);
      Next(cfg, ks, acts, ws, ramSize, swpSize, i - 1);
      FedBefore(cfg, ks, acts, ws, ramSize, swpSize, i - 1);
      vs, ops := MemoryStep(cfg, ks, acts, i - 1, ws[i - 1], ws[i], ramSize, swpSize, vs, ops);
    }
  }

  lemma NothingYet(cfg: Config, ramSize: nat, swpSize: nat)
    ensures Kernels.Boot(cfg).log == [] && LoadedHaveMemory(Kernels.Boot(cfg), W.Boot(ramSize, swpSize))
  {
  }

  lemma Next(cfg: Config, ks: seq<Kernel>, acts: seq<Act>, ws: seq<W.World>, ramSize: nat, swpSize: nat, i: nat)
    requires IsSystemRun(cfg, ks, acts, ws, ramSize, swpSize) && i < |acts|
    ensures MemoryFollows(cfg, ks[i], acts[i], ws[i], ws[i + 1]) && ks[i + 1] == Step(cfg, ks[i], acts[i])
  {
  }

  lemma FedBefore(cfg: Config, ks: seq<Kernel>, acts: seq<Act>, ws: seq<W.World>, ramSize: nat, swpSize: nat, i: nat)
    requires IsSystemRun(cfg, ks, acts, ws, ramSize, swpSize) && i < |acts|
    ensures AllFed(cfg, ks, acts, ws, ramSize, swpSize, i + 1)
        ==> AllFed(cfg, ks, acts, ws, ramSize, swpSize, i) && Fed(ws[i], OpOf(cfg, ks[i], acts[i]))
  {
  }

  lemma MemoryStep(cfg: Config, ks: seq<Kernel>, acts: seq<Act>, i: nat, w: W.World, w': W.World,
                   ramSize: nat, swpSize: nat, vs: seq<W.World>, ops: seq<W.Op>)
    returns (us: seq<W.World>, os: seq<W.Op>)
    requires cfg.Ok() && IsRun(cfg, ks, acts) && i < |acts| && LoadedHaveMemory(ks[i], w)
    requires MemoryFollows(cfg, ks[i], acts[i], w, w') && Makes(vs, ops, ramSize, swpSize, w, ks[i].log)
    ensures Makes(us, os, ramSize, swpSize, w', Step(cfg, ks[i], acts[i]).log)
    ensures LoadedHaveMemory(Step(cfg, ks[i], acts[i]), w')
    ensures R.Supplied(vs, ops) && Fed(w, OpOf(cfg, ks[i], acts[i])) ==> R.Supplied(us, os)
  {
    us, os := vs, ops;
    var op := OpOf(cfg, ks[i], acts[i]);
    if op.Some? {
      OpLegal(cfg, ks, acts, i, w);
      us, os := Longer(vs, ops, ramSize, swpSize, op.value, w, ks[i].log);
    }
    StepMemory(cfg, ks[i], acts[i], w);
  }

  lemma Longer(vs: seq<W.World>, ops: seq<W.Op>, ramSize: nat, swpSize: nat,
               op: W.Op, w: W.World, log: seq<(nat, I.Inst)>)
    returns (us: seq<W.World>, os: seq<W.Op>)
    requires Makes(vs, ops, ramSize, swpSize, w, log) && W.Legal(w, op)
    ensures Makes(us, os, ramSize, swpSize, W.Do(w, op), log + if op.Exec? then [(op.pid, op.inst)] else [])
    ensures R.Supplied(vs, ops) && !MT.Starves(w, op) ==> R.Supplied(us, os)
  {
    us, os := vs + [W.Do(w, op)], ops + [op];
    assert os[..|os| - 1] == ops;
    forall i | 0 <= i < |os|
      ensures W.Legal(us[i], os[i]) && us[i + 1] == W.Do(us[i], os[i])
      ensures R.Supplied(vs, ops) && !MT.Starves(w, op) ==> !MT.Starves(us[i], os[i])
    {
      if i < |ops| {
        assert us[i] == vs[i] && us[i + 1] == vs[i + 1] && os[i] == ops[i];
        assert W.Legal(vs[i], ops[i]) && vs[i + 1] == W.Do(vs[i], ops[i]);
      }
    }
  }

  // ---- What holds of memory in any interleaving of any number of CPUs ----

  /** Frame ownership. */
  lemma FramesInSystem(cfg: Config, ks: seq<Kernel>, acts: seq<Act>, ws: seq<W.World>,
                       ramSize: nat, swpSize: nat, i: nat, p: nat, a: nat, q: nat, b: nat)
    requires cfg.Ok() && IsSystemRun(cfg, ks, acts, ws, ramSize, swpSize) && i < |ks|
    requires ramSize / M.PAGE <= M.MAX_FRAMES
    requires p in ws[i].mms && q in ws[i].mms && FrameAt(TableOf(ws[i].mms[p]), a).Some?
    ensures FrameAt(TableOf(ws[i].mms[p]), a) == FrameAt(TableOf(ws[i].mms[q]), b) ==> p == q && a == b
    ensures var f := FrameAt(TableOf(ws[i].mms[p]), a).value; f !in ws[i].ram.free && f < ramSize / M.PAGE
  {
    var vs, ops := MemoryRun(cfg, ks, acts, ws, ramSize, swpSize, i);
    MT.FrameOwnership(vs, ops, ramSize, swpSize, |ops|, p, a, q, b);
  }

  /** Disjoint regions below sbrk, and no byte unaccounted for. */
  lemma RegionsInSystem(cfg: Config, ks: seq<Kernel>, acts: seq<Act>, ws: seq<W.World>,
                        ramSize: nat, swpSize: nat, i: nat, p: nat)
    requires cfg.Ok() && IsSystemRun(cfg, ks, acts, ws, ramSize, swpSize) && i < |ks|
    requires ramSize / M.PAGE <= M.MAX_FRAMES
    requires p in ws[i].mms
    ensures var mm := ws[i].mms[p];
            G.Separate(mm) && mm.sbrk % M.PAGE == 0 && G.Total(mm.sym) + G.Total(mm.free) + mm.lost == mm.sbrk
  {
    var vs, ops := MemoryRun(cfg, ks, acts, ws, ramSize, swpSize, i);
    MT.RegionsInRun(vs, ops, ramSize, swpSize, |ops|, p);
  }

  /**
   * While growths find frames, a read gives the byte last written by an instruction in the log to that byte of that
   * page of that process, else zero, and is refused exactly outside the variable. (The operations are those of the
   * log, with the loads in between.)
   */
  lemma ReadsLastWriteInSystem(cfg: Config, ks: seq<Kernel>, acts: seq<Act>, ws: seq<W.World>,
                               ramSize: nat, swpSize: nat, i: nat, pid: nat, rgid: nat, offset: nat)
    returns (vs: seq<W.World>, ops: seq<W.Op>)
    requires cfg.Ok() && IsSystemRun(cfg, ks, acts, ws, ramSize, swpSize) && i < |ks|
    requires ramSize / M.PAGE <= M.MAX_FRAMES
    requires AllFed(cfg, ks, acts, ws, ramSize, swpSize, i)
    requires pid in ws[i].mms && ws[i].mms[pid].Wf() && rgid != M.SYMBOLS
    ensures Makes(vs, ops, ramSize, swpSize, ws[i], ks[i].log)
    ensures var k := R.KeyOf(ws[i], pid, rgid, offset);
            R.Gets(ws[i], pid, rgid, offset)
              == if k.None? then M.Refused else M.Value(R.LastWritten(vs, ops, |ops|, k.value))
  {
    vs, ops := MemoryRun(cfg, ks, acts, ws, ramSize, swpSize, i);
    R.ReadsLastWrite(vs, ops, ramSize, swpSize, |ops|, pid, rgid, offset);
  }

  /** While growths find frames, every write inside a variable reaches an address inside RAM. */
  lemma WritesHitStorageInSystem(cfg: Config, ks: seq<Kernel>, acts: seq<Act>, ws: seq<W.World>,
                                 ramSize: nat, swpSize: nat, i: nat, pid: nat, rgid: nat, offset: nat, b: bv8)
    requires cfg.Ok() && IsSystemRun(cfg, ks, acts, ws, ramSize, swpSize) && i < |ks|
    requires ramSize / M.PAGE <= M.MAX_FRAMES
    requires AllFed(cfg, ks, acts, ws, ramSize, swpSize, i)
    requires pid in ws[i].mms && ws[i].mms[pid].Wf() && rgid != M.SYMBOLS
    ensures M.Write(ws[i].mms[pid], ws[i].ram, ws[i].swp, rgid, offset, b).0
         == if R.KeyOf(ws[i], pid, rgid, offset).None? then M.WriteRefused else M.Done
  {
    var vs, ops := MemoryRun(cfg, ks, acts, ws, ramSize, swpSize, i);
    R.WritesHitStorage(vs, ops, ramSize, swpSize, |ops|, pid, rgid, offset, b);
  }
}
