/** Fairness of the scheduler over every run of its four operations. */
module Fairness {
  import opened Common
  import opened Queues
  import opened Mlqs

  datatype Op = GetOp | PutOp(p: Pcb) | AddOp(p: Pcb) | FinishOp(p: Pcb)

  function Do(m: Mlq, op: Op): (m': Mlq)
    requires m.Wf()
    ensures m'.Wf()
  {
    match op
    case GetOp => Get(m)
    case PutOp(p) => Put(m, p)
    case AddOp(p) => Add(m, p)
    case FinishOp(p) => Finish(m, p)
  }

  /** The state before the i-th operation of a run. */
  function StateAt(m: Mlq, ops: seq<Op>, i: nat): (m': Mlq)
    requires m.Wf() && i <= |ops|
    ensures m'.Wf()
    decreases i
  {
    if i == 0 then m else StateAt(Do(m, ops[0]), ops[1..], i - 1)
  }

  function Gets(ops: seq<Op>): nat {
    if ops == [] then 0 else (if ops[0].GetOp? then 1 else 0) + Gets(ops[1..])
  }

  // ---- Slots left on a stretch of levels ----

  ghost predicate Budget(used: seq<nat>) {
    |used| == MAX_PRIO && forall p :: 0 <= p < MAX_PRIO ==> used[p] < Slot(p)
  }

  /** Slots not yet used on levels lo..hi-1. */
  function Left(used: seq<nat>, lo: nat, hi: nat): (n: nat)
    requires |used| == MAX_PRIO && hi <= MAX_PRIO
    requires forall p :: 0 <= p < MAX_PRIO ==> used[p] < Slot(p)
    ensures lo < hi ==> n >= 1
    decreases hi - lo
  {
    if lo >= hi then 0 else Slot(lo) - used[lo] + Left(used, lo + 1, hi)
  }

  lemma {:induction false} LeftSplit(used: seq<nat>, lo: nat, mid: nat, hi: nat)
    requires Budget(used) && lo <= mid <= hi <= MAX_PRIO
    ensures Left(used, lo, hi) == Left(used, lo, mid) + Left(used, mid, hi)
    decreases mid - lo
  {
    if lo < mid {
      LeftSplit(used, lo + 1, mid, hi);
    }
  }

  lemma {:induction false} LeftSame(a: seq<nat>, b: seq<nat>, lo: nat, hi: nat)
    requires Budget(a) && Budget(b) && hi <= MAX_PRIO
    requires forall p :: lo <= p < hi ==> a[p] == b[p]
    ensures Left(a, lo, hi) == Left(b, lo, hi)
    decreases hi - lo
  {
    if lo < hi {
      LeftSame(a, b, lo + 1, hi);
    }
  }

  /** Less used means more left; nothing has more left than a fresh stretch. */
  lemma {:induction false} LeftAtMostFresh(used: seq<nat>, lo: nat, hi: nat)
    requires Budget(used) && hi <= MAX_PRIO
    ensures Left(used, lo, hi) <= Left(Zeros(), lo, hi)
    decreases hi - lo
  {
    if lo < hi {
      LeftAtMostFresh(used, lo + 1, hi);
    }
  }

  /** Twice the sum of the slots of levels lo..hi-1, in closed form. */
  lemma {:induction false} FreshTotal(lo: nat, hi: nat)
    requires lo <= hi <= MAX_PRIO
    ensures 2 * Left(Zeros(), lo, hi) == (hi - lo) * (281 - lo - hi)
    decreases hi - lo
  {
    if lo < hi {
      FreshTotal(lo + 1, hi);
      NextTotal(hi - lo - 1, 280 - lo - hi);
    }
  }

  lemma NextTotal(a: int, b: int)
    ensures (a + 1) * (b + 1) == a * b + a + b + 1
  {
  }

  /** A round has 9870 slots. */
  lemma AllSlots(lo: nat, hi: nat)
    requires lo == 0 && hi == MAX_PRIO
    ensures Left(Zeros(), lo, hi) == 9870
  {
    FreshTotal(lo, hi);
    Halve(Left(Zeros(), lo, hi), hi);
  }

  lemma Halve(n: int, hi: int)
    requires hi == 140 && 2 * n == hi * (281 - hi)
    ensures n == 9870
  {
  }

  /** The slots of all levels but q add up to 9730 + q. */
  lemma FreshAllButOne(q: nat)
    requires q < MAX_PRIO
    ensures Left(Zeros(), 0, q) + Left(Zeros(), q + 1, MAX_PRIO) == 9730 + q
  {
    var lo, hi := 0, MAX_PRIO;
    AllSlots(lo, hi);
    LeftServed(Zeros(), lo, q, hi);
  }

  lemma LeftServed(used: seq<nat>, lo: nat, r: nat, hi: nat)
    requires Budget(used) && lo <= r < hi <= MAX_PRIO
    ensures Left(used, lo, hi) == Left(used, lo, r) + Slot(r) - used[r] + Left(used, r + 1, hi)
  {
    LeftSplit(used, lo, r, hi);
  }

  // ---- Bounded waiting ----

  /** Slots that other levels may still use before the scan reaches level q. */
  function Ahead(m: Mlq, q: nat): nat
    requires m.Wf() && q < MAX_PRIO
  {
    if m.cur <= q then Left(m.used, m.cur, q)
    else Left(m.used, m.cur, MAX_PRIO) + Left(Zeros(), 0, q)
  }

  lemma AheadBound(m: Mlq, q: nat)
    requires m.Wf() && q < MAX_PRIO
    ensures Ahead(m, q) <= 9730 + q
  {
    FreshAllButOne(q);
    if m.cur <= q {
      LeftAtMostFresh(m.used, m.cur, q);
      LeftSplit(Zeros(), 0, m.cur, q);
    } else {
      LeftAtMostFresh(m.used, m.cur, MAX_PRIO);
      LeftSplit(Zeros(), q + 1, m.cur, MAX_PRIO);
    }
  }

  /** One more dispatch of level r of [lo, hi), whether or not it uses up r's slots. */
  lemma ServeShrinks(used: seq<nat>, lo: nat, r: nat, hi: nat)
    requires Budget(used) && lo <= r < hi <= MAX_PRIO
    ensures Left(used, r + 1, hi) < Left(used, lo, hi)
    ensures used[r] + 1 < Slot(r) ==> Left(used[r := used[r] + 1], lo, hi) == Left(used, lo, hi) - 1
    ensures Left(used[r := 0], r + 1, hi) == Left(used, r + 1, hi)
  {
    LeftServed(used, lo, r, hi);
    LeftSame(used, used[r := 0], r + 1, hi);
    if used[r] + 1 < Slot(r) {
      var u := used[r := used[r] + 1];
      LeftServed(u, lo, r, hi);
      LeftSame(used, u, lo, r);
      LeftSame(used, u, r + 1, hi);
    }
  }

  /** Where the served level lies when level q has work. */
  lemma PickBefore(m: Mlq, q: nat)
    requires m.Wf() && q < MAX_PRIO && m.ready[q] != []
    ensures Pick(m) < MAX_PRIO
    ensures !Crosses(m) ==> m.cur <= Pick(m) && (m.cur <= q ==> Pick(m) <= q)
    ensures Crosses(m) ==> Pick(m) <= q < m.cur
  {
    var _ := Steps(m.cur, q);
  }

  lemma DispatchNearer(m: Mlq, r: nat, q: nat)
    requires m.Wf() && q < MAX_PRIO && m.cur <= r < MAX_PRIO && r != q && m.ready[r] != []
    requires m.cur <= q ==> r < q
    ensures Ahead(Dispatched(m, r), q) < Ahead(m, q)
  {
    if m.cur <= q {
      ServeShrinks(m.used, m.cur, r, q);
    } else {
      ServeShrinks(m.used, m.cur, r, MAX_PRIO);
      if r == MAX_PRIO - 1 {
        LeftAtMostFresh(m.used[r := 0], 0, q);
      }
    }
  }

  /** While level q waits with work, a dispatch of any other level brings its turn nearer. */
  lemma OthersBringItNearer(m: Mlq, q: nat)
    requires m.Wf() && q < MAX_PRIO && m.ready[q] != [] && Pick(m) != q
    ensures Ahead(Get(m), q) < Ahead(m, q)
    ensures Get(m).ready[q] == m.ready[q]
  {
    PickBefore(m, q);
    DispatchNearer(Scanned(m), Pick(m), q);
    assert Ahead(Scanned(m), q) <= Ahead(m, q);
  }

  /** Dispatches that can still precede the process at FIFO position k of level q. */
  function Wait(m: Mlq, q: nat, k: nat): nat
    requires m.Wf() && q < MAX_PRIO
  {
    k * (9731 + q) + Ahead(m, q)
  }

  /** Additions and completions leave a waiting process where it is. */
  lemma KeepsPlace(m: Mlq, op: Op, q: nat, k: nat)
    requires m.Wf() && q < MAX_PRIO && k < |m.ready[q]| && !op.GetOp?
    ensures k < |Do(m, op).ready[q]| && Do(m, op).ready[q][k] == m.ready[q][k]
    ensures Do(m, op).used == m.used && Do(m, op).cur == m.cur
  {
  }

  /** A process that waits behind k others of its level, after the first of them is dispatched. */
  lemma TurnTaken(m: Mlq, q: nat, k: nat)
    requires m.Wf() && q < MAX_PRIO && 0 < k < |m.ready[q]| && Pick(m) == q
    ensures Get(m).ready[q] == m.ready[q][1..]
    ensures Wait(Get(m), q, k - 1) < Wait(m, q, k)
  {
    AheadBound(Get(m), q);
    assert k * (9731 + q) == (k - 1) * (9731 + q) + 9731 + q;
  }

  /** Every operation but its own dispatch leaves the process waiting, and each dispatch shortens the wait. */
  lemma WaitsOn(m: Mlq, op: Op, q: nat, k: nat) returns (k1: nat)
    requires m.Wf() && q < MAX_PRIO && k < |m.ready[q]| && !(op.GetOp? && Pick(m) == q && k == 0)
    ensures k1 < |Do(m, op).ready[q]| && Do(m, op).ready[q][k1] == m.ready[q][k]
    ensures Wait(Do(m, op), q, k1) + (if op.GetOp? then 1 else 0) <= Wait(m, q, k)
  {
    k1 := if op.GetOp? && Pick(m) == q then k - 1 else k;
    if !op.GetOp? {
      KeepsPlace(m, op, q, k);
    } else if Pick(m) == q {
      TurnTaken(m, q, k);
    } else {
      OthersBringItNearer(m, q);
    }
  }

  lemma {:induction false} GetsOfPrefix(ops: seq<Op>, i: nat)
    requires i < |ops|
    ensures Gets(ops[..i + 1]) == (if ops[0].GetOp? then 1 else 0) + Gets(ops[1..][..i])
  {
    assert ops[..i + 1][1..] == ops[1..][..i];
  }

  /**
   * The process at position k of level q is dispatched no later than the dispatch request after
   * Wait(m, q, k) others, whatever is added, put back or finished meanwhile.
   */
  lemma {:induction false} ServedWithin(m: Mlq, ops: seq<Op>, q: nat, k: nat) returns (i: nat)
    requires m.Wf() && q < MAX_PRIO && k < |m.ready[q]|
    requires Gets(ops) > Wait(m, q, k)
    ensures i < |ops| && ops[i].GetOp?
    ensures Served(StateAt(m, ops, i)) == Some(m.ready[q][k])
    ensures Gets(ops[..i]) <= Wait(m, q, k)
    decreases |ops|
  {
    if ops[0].GetOp? && Pick(m) == q && k == 0 {
      return 0;
    }
    var k1 := WaitsOn(m, ops[0], q, k);
    i := ServedWithin(Do(m, ops[0]), ops[1..], q, k1);
    GetsOfPrefix(ops, i);
    i := i + 1;
  }

  lemma WaitBound(m: Mlq, q: nat, k: nat)
    requires m.Wf() && q < MAX_PRIO
    ensures Wait(m, q, k) <= (k + 1) * (9730 + q) + k
  {
    AheadBound(m, q);
    assert k * (9731 + q) + 9730 + q == (k + 1) * (9730 + q) + k;
  }

  /** No starvation: a fixed bound, whatever the other processes do. */
  lemma BoundedWaiting(m: Mlq, ops: seq<Op>, q: nat, k: nat)
    requires m.Wf() && q < MAX_PRIO && k < |m.ready[q]|
    requires Gets(ops) > (k + 1) * (9730 + q) + k
    ensures exists i :: 0 <= i < |ops| && ops[i].GetOp? && Gets(ops[..i]) <= (k + 1) * (9730 + q) + k
                        && Served(StateAt(m, ops, i)) == Some(m.ready[q][k])
  {
    WaitBound(m, q, k);
    var i := ServedWithin(m, ops, q, k);
  }

  // ---- Round quota ----

  /** How often a run dispatches level p. */
  function Dispatches(m: Mlq, ops: seq<Op>, p: nat): nat
    requires m.Wf()
    decreases |ops|
  {
    if ops == [] then 0
    else (if ops[0].GetOp? && Pick(m) == p then 1 else 0) + Dispatches(Do(m, ops[0]), ops[1..], p)
  }

  /** How often a run dispatches any level. */
  function AllDispatches(m: Mlq, ops: seq<Op>): nat
    requires m.Wf()
    decreases |ops|
  {
    if ops == [] then 0
    else (if ops[0].GetOp? && Pick(m) < MAX_PRIO then 1 else 0) + AllDispatches(Do(m, ops[0]), ops[1..])
  }

  /** A stretch of a run in which the scan does not wrap, except by its last operation serving level 139. */
  predicate OneRound(m: Mlq, ops: seq<Op>)
    requires m.Wf()
    decreases |ops|
  {
    ops == [] ||
    ((ops[0].GetOp? ==> !Crosses(m) && (Pick(m) == MAX_PRIO - 1 ==> |ops| == 1))
     && OneRound(Do(m, ops[0]), ops[1..]))
  }

  lemma OneRoundGet(m: Mlq)
    requires m.Wf() && !Crosses(m)
    ensures m.cur <= Pick(m) < MAX_PRIO
    ensures forall p :: m.cur <= p < Pick(m) ==> m.ready[p] == []
  {
    forall p | m.cur <= p < Pick(m)
      ensures m.ready[p] == []
    {
      assert At(m.cur, p - m.cur) == p;
    }
  }

  /** The slots that level p may still use before the scan wraps. */
  function Quota(m: Mlq, p: nat): int
    requires m.Wf() && p < MAX_PRIO
  {
    if m.cur <= p then Slot(p) - m.used[p] else 0
  }

  lemma QuotaGet(m: Mlq, p: nat)
    requires m.Wf() && !Crosses(m) && p < MAX_PRIO
    ensures (if Pick(m) == p then 1 else 0) + (if Pick(m) == MAX_PRIO - 1 then 0 else Quota(Get(m), p)) <= Quota(m, p)
  {
    OneRoundGet(m);
  }

  /** Within a round a level gets at most its unused slots, and the levels behind the scan get none. */
  lemma {:induction false} LevelQuota(m: Mlq, ops: seq<Op>, p: nat)
    requires m.Wf() && OneRound(m, ops) && p < MAX_PRIO
    ensures Dispatches(m, ops, p) <= Quota(m, p)
    decreases |ops|
  {
    if ops != [] {
      var m1 := Do(m, ops[0]);
      if ops[0].GetOp? {
        QuotaGet(m, p);
      }
      if ops[0].GetOp? && Pick(m) == MAX_PRIO - 1 {
        assert ops[1..] == [];
        assert Dispatches(m1, [], p) == 0;
      } else {
        LevelQuota(m1, ops[1..], p);
      }
    }
  }

  /** A dispatch within a round uses up at least one of the slots the scan still has before it. */
  lemma RoundShrinks(m: Mlq)
    requires m.Wf() && !Crosses(m) && Pick(m) != MAX_PRIO - 1
    ensures Left(Get(m).used, Get(m).cur, MAX_PRIO) < Left(m.used, m.cur, MAX_PRIO)
  {
    OneRoundGet(m);
    var lo, r, hi := m.cur, Pick(m), MAX_PRIO;
    ServeShrinks(m.used, lo, r, hi);
    RoundGet(m);
  }

  /** The counters after a dispatch within a round. */
  lemma RoundGet(m: Mlq)
    requires m.Wf() && !Crosses(m) && Pick(m) < MAX_PRIO - 1
    ensures var r := Pick(m);
            if m.used[r] + 1 < Slot(r) then Get(m).used == m.used[r := m.used[r] + 1] && Get(m).cur == m.cur
            else Get(m).used == m.used[r := 0] && Get(m).cur == r + 1
  {
  }

  lemma {:induction false} RoundTotal(m: Mlq, ops: seq<Op>)
    requires m.Wf() && OneRound(m, ops)
    ensures AllDispatches(m, ops) <= Left(m.used, m.cur, MAX_PRIO)
    decreases |ops|
  {
    if ops != [] {
      var m1 := Do(m, ops[0]);
      if ops[0].GetOp? && Pick(m) == MAX_PRIO - 1 {
        assert ops[1..] == [];
        assert AllDispatches(m1, []) == 0;
      } else {
        RoundTotal(m1, ops[1..]);
        if ops[0].GetOp? {
          RoundShrinks(m);
        } else {
          assert m1.used == m.used && m1.cur == m.cur;
        }
      }
    }
  }

  /** One operation of a round that does not dispatch level 139 takes current_prio forward, if anywhere. */
  lemma MovesForward(m: Mlq, op: Op)
    requires m.Wf() && (op.GetOp? ==> !Crosses(m) && Pick(m) != MAX_PRIO - 1)
    ensures m.cur <= Do(m, op).cur
  {
    if op.GetOp? {
      OneRoundGet(m);
    }
  }

  /** current_prio moves forward only, as long as no dispatch of level 139 takes it back to 0. */
  lemma {:induction false} RoundMovesForward(m: Mlq, ops: seq<Op>)
    requires m.Wf() && OneRound(m, ops)
    ensures m.cur <= StateAt(m, ops, |ops|).cur || Dispatches(m, ops, MAX_PRIO - 1) == 1
    decreases |ops|
  {
    if ops != [] {
      var m1 := Do(m, ops[0]);
      if ops[0].GetOp? && Pick(m) == MAX_PRIO - 1 {
        assert ops[1..] == [];
        assert Dispatches(m1, [], MAX_PRIO - 1) == 0;
      } else {
        MovesForward(m, ops[0]);
        RoundMovesForward(m1, ops[1..]);
      }
    }
  }

  lemma RoundAll(m: Mlq, ops: seq<Op>)
    requires m.Wf() && OneRound(m, ops)
    ensures AllDispatches(m, ops) <= 9870
  {
    var lo, hi := 0, MAX_PRIO;
    RoundTotal(m, ops);
    LeftAtMostFresh(m.used, m.cur, hi);
    LeftSplit(Zeros(), lo, m.cur, hi);
    AllSlots(lo, hi);
  }

  lemma RoundQuota(m: Mlq, ops: seq<Op>)
    requires m.Wf() && OneRound(m, ops)
    ensures forall p :: 0 <= p < MAX_PRIO ==> Dispatches(m, ops, p) <= MAX_PRIO - p
    ensures AllDispatches(m, ops) <= 9870
  {
    forall p | 0 <= p < MAX_PRIO
      ensures Dispatches(m, ops, p) <= MAX_PRIO - p
    {
      LevelQuota(m, ops, p);
    }
    RoundAll(m, ops);
  }
}
