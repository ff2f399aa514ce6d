/**
 * The time-slot barrier of timer.c: one timer thread and any number of devices.
 * Each step is one critical section (or one unlocked access) of the C code; a thread blocked on a
 * condition variable has a phase of its own, so a signal that comes too early would be lost here too.
 */
module Barriers {
  /**
   * Working: inside its slot. Waiting: in next_slot, about to test `done` under timer_lock.
   * Sleeping: blocked on timer_cond. Detached: past detach_event.
   */
  datatype Phase = Working | Waiting | Sleeping | Detached

  /** released and announced count the slots handed to the device and the next_slot calls it made. */
  datatype Dev = Dev(done: bool, fsh: bool, phase: Phase, released: nat, announced: nat)

  /** Where timer_routine stands; fin and seen are its locals `fsh` and `event`. */
  datatype TimerPc =
    | Head
    | Scan(i: nat, fin: nat, seen: nat)
    | ScanSleep(i: nat, fin: nat, seen: nat)
    | Release(i: nat, fin: nat, seen: nat)
    | Exited

  datatype Barrier = Barrier(devs: seq<Dev>, timer: TimerPc, time: nat, stop: bool)

  /** Steps. Wake and TimerWake are spurious wake-ups; Stop is main's stop_timer after joining every thread. */
  datatype Act =
    | Announce(d: nat)
    | Recheck(d: nat)
    | Wake(d: nat)
    | Detach(d: nat)
    | TimerStep
    | TimerWake
    | Stop

  function Start(n: nat): (b: Barrier)
    ensures |b.devs| == n
  {
    Barrier(seq(n, i => Dev(false, false, Working, 0, 0)), Head, 0, false)
  }

  predicate Enabled(b: Barrier, a: Act) {
    match a
    case Announce(d) => d < |b.devs| && b.devs[d].phase == Working
    case Recheck(d) => d < |b.devs| && b.devs[d].phase == Waiting
    case Wake(d) => d < |b.devs| && b.devs[d].phase == Sleeping
    case Detach(d) => d < |b.devs| && b.devs[d].phase == Working
    case TimerStep => !b.timer.ScanSleep? && !b.timer.Exited?
    case TimerWake => b.timer.ScanSleep?
    case Stop => forall d :: 0 <= d < |b.devs| ==> b.devs[d].phase == Detached
  }

  /** pthread_cond_signal on device d's event_cond. */
  function Signalled(t: TimerPc, d: nat): TimerPc {
    if t.ScanSleep? && t.i == d then Scan(t.i, t.fin, t.seen) else t
  }

  function TimerMove(b: Barrier): Barrier
    requires Enabled(b, TimerStep)
  {
    match b.timer
    case Head => b.(timer := if b.stop then Exited else Scan(0, 0, 0))
    case Scan(i, fin, seen) =>
      if i >= |b.devs| then b.(time := b.time + 1, timer := Release(0, fin, seen))
      else if b.devs[i].done || b.devs[i].fsh then
        b.(timer := Scan(i + 1, if b.devs[i].fsh then fin + 1 else fin, seen + 1))
      else b.(timer := ScanSleep(i, fin, seen))
    case Release(i, fin, seen) =>
      if i >= |b.devs| then b.(timer := if fin == seen then Exited else Head)
      else
        var v := b.devs[i];
        var phase := if v.phase == Sleeping then Waiting else v.phase;
        b.(devs := b.devs[i := v.(done := false, phase := phase, released := v.released + 1)],
           timer := Release(i + 1, fin, seen))
  }

  function Step(b: Barrier, a: Act): (b': Barrier)
    requires Enabled(b, a)
    ensures |b'.devs| == |b.devs|
  {
    match a
    case Announce(d) =>
      var v := b.devs[d];
      b.(devs := b.devs[d := v.(done := true, phase := Waiting, announced := v.announced + 1)],
         timer := Signalled(b.timer, d))
    case Recheck(d) =>
      var v := b.devs[d];
      b.(devs := b.devs[d := v.(phase := if v.done then Sleeping else Working)])
    case Wake(d) => b.(devs := b.devs[d := b.devs[d].(phase := Waiting)])
    case Detach(d) =>
      b.(devs := b.devs[d := b.devs[d].(fsh := true, phase := Detached)], timer := Signalled(b.timer, d))
    case TimerStep => TimerMove(b)
    case TimerWake => b.(timer := Scan(b.timer.i, b.timer.fin, b.timer.seen))
    case Stop => b.(stop := true)
  }

  predicate Live(v: Dev) {
    v.phase != Detached
  }

  // ---- What every step keeps ----

  predicate DevOk(v: Dev) {
    && (v.fsh <==> v.phase == Detached)
    && (v.done ==> v.phase == Waiting || v.phase == Sleeping)
    && (v.phase == Sleeping ==> v.done)
    && (Live(v) ==> v.announced == v.released + if v.done then 1 else 0)
  }

  predicate AllDetached(b: Barrier) {
    forall d :: 0 <= d < |b.devs| ==> b.devs[d].phase == Detached
  }

  /** The timer has counted i devices, fin of them detached. */
  predicate Counted(b: Barrier, i: nat, fin: nat, seen: nat) {
    && i <= |b.devs| && seen == i && fin <= i
    && (fin == i ==> forall d :: 0 <= d < i ==> b.devs[d].phase == Detached)
  }

  /** Slot counters during and outside the release sweep. */
  predicate SlotOk(b: Barrier, d: nat)
    requires d < |b.devs|
  {
    if b.timer.Release? && b.timer.i <= d then
      b.devs[d].released + 1 == b.time && (b.devs[d].done || b.devs[d].fsh)
    else b.devs[d].released == b.time
  }

  predicate TimerOk(b: Barrier) {
    match b.timer
    case Head => true
    case Scan(i, fin, seen) =>
      Counted(b, i, fin, seen) && forall d :: 0 <= d < i ==> b.devs[d].done || b.devs[d].fsh
    case ScanSleep(i, fin, seen) =>
      && Counted(b, i, fin, seen) && i < |b.devs| && !b.devs[i].done && !b.devs[i].fsh
      && forall d :: 0 <= d < i ==> b.devs[d].done || b.devs[d].fsh
    case Release(i, fin, seen) => Counted(b, |b.devs|, fin, seen) && i <= |b.devs|
    case Exited => AllDetached(b)
  }

  predicate Inv(b: Barrier) {
    && (forall d :: 0 <= d < |b.devs| ==> DevOk(b.devs[d]) && SlotOk(b, d))
    && TimerOk(b)
    && (b.stop ==> AllDetached(b))
  }

  lemma StartInv(n: nat)
    ensures Inv(Start(n))
  {
  }

  /** One device of the release sweep. */
  lemma ReleaseInv(b: Barrier)
    requires Inv(b) && b.timer.Release? && b.timer.i < |b.devs|
    ensures Inv(TimerMove(b))
  {
    var b' := TimerMove(b);
    var i := b.timer.i;
    assert DevOk(b.devs[i]) && SlotOk(b, i) && DevOk(b'.devs[i]);
    assert forall d :: 0 <= d < |b.devs| && d != i ==> b'.devs[d] == b.devs[d];
    forall d | 0 <= d < |b'.devs|
      ensures DevOk(b'.devs[d]) && SlotOk(b', d)
    {
      assert DevOk(b.devs[d]) && SlotOk(b, d);
    }
  }

  lemma TimerMoveInv(b: Barrier)
    requires Inv(b) && Enabled(b, TimerStep)
    ensures Inv(TimerMove(b))
  {
    var b' := TimerMove(b);
    if b.timer.Release? && b.timer.i < |b.devs| {
      ReleaseInv(b);
    } else {
      forall d | 0 <= d < |b'.devs|
        ensures DevOk(b'.devs[d]) && SlotOk(b', d)
      {
        assert DevOk(b.devs[d]) && SlotOk(b, d);
      }
    }
  }

  /** A device's own step keeps its counters consistent and, if it signals, wakes the timer. */
  lemma DeviceStepInv(b: Barrier, a: Act)
    requires Inv(b) && Enabled(b, a) && !a.TimerStep? && !a.TimerWake? && !a.Stop?
    ensures Inv(Step(b, a))
  {
    var b' := Step(b, a);
    DeviceMoves(b, a);
    forall d | 0 <= d < |b'.devs|
      ensures DevOk(b'.devs[d]) && SlotOk(b', d)
    {
      assert DevOk(b.devs[d]) && SlotOk(b, d);
    }
    TimerStays(b, b', a.d);
  }

  /** A device's own step touches only its own fields, and the timer only to wake it. */
  lemma DeviceMoves(b: Barrier, a: Act)
    requires Inv(b) && Enabled(b, a) && !a.TimerStep? && !a.TimerWake? && !a.Stop?
    ensures var b' := Step(b, a);
            && |b'.devs| == |b.devs| && b'.time == b.time && b'.stop == b.stop
            && DevOk(b'.devs[a.d]) && b'.devs[a.d].released == b.devs[a.d].released
            && (b.devs[a.d].done ==> b'.devs[a.d].done) && (b.devs[a.d].fsh ==> b'.devs[a.d].fsh)
            && (b.devs[a.d].phase == Detached ==> b'.devs[a.d].phase == Detached)
            && (forall d :: 0 <= d < |b.devs| && d != a.d ==> b'.devs[d] == b.devs[d])
            && (b'.timer == b.timer || b'.timer == Signalled(b.timer, a.d))
            && (b.timer.ScanSleep? && b.timer.i == a.d && b'.timer == b.timer ==>
                  b'.devs[a.d].done == b.devs[a.d].done && b'.devs[a.d].fsh == b.devs[a.d].fsh)
  {
    assert DevOk(b.devs[a.d]);
  }

  lemma TimerStays(b: Barrier, b': Barrier, e: nat)
    requires TimerOk(b) && (b.stop ==> AllDetached(b)) && e < |b.devs| == |b'.devs| && b'.stop == b.stop
    requires (b.devs[e].done ==> b'.devs[e].done) && (b.devs[e].fsh ==> b'.devs[e].fsh)
    requires b.devs[e].phase == Detached ==> b'.devs[e].phase == Detached
    requires forall d :: 0 <= d < |b.devs| && d != e ==> b'.devs[d] == b.devs[d]
    requires b'.timer == b.timer || b'.timer == Signalled(b.timer, e)
    requires b.timer.ScanSleep? && b.timer.i == e && b'.timer == b.timer ==>
               b'.devs[e].done == b.devs[e].done && b'.devs[e].fsh == b.devs[e].fsh
    ensures TimerOk(b') && (b'.stop ==> AllDetached(b'))
  {
  }

  lemma StepInv(b: Barrier, a: Act)
    requires Inv(b) && Enabled(b, a)
    ensures Inv(Step(b, a))
  {
    match a
    case TimerStep => TimerMoveInv(b);
    case TimerWake =>
      assert forall d :: 0 <= d < |b.devs| ==> SlotOk(b, d);
    case Stop =>
      assert forall d :: 0 <= d < |b.devs| ==> SlotOk(b, d);
    case _ => DeviceStepInv(b, a);
  }

  /** What a step that is no device's next_slot or detach_event call leaves as it was. */
  lemma QuietStep(b: Barrier, a: Act, d: nat)
    requires Inv(b) && Enabled(b, a) && !a.Announce? && !a.Detach? && d < |b.devs|
    ensures var v, v' := b.devs[d], Step(b, a).devs[d];
            && v'.announced == v.announced
            && (v.phase == Detached <==> v'.phase == Detached)
            && (v.phase == Working ==> v' == v)
            && (v'.released == v.released
                || (a == TimerStep && b.timer.Release? && b.timer.i == d && v'.released == b.time))
    ensures Step(b, a).time == b.time || (a == TimerStep && b.timer.Scan? && b.timer.i >= |b.devs|)
  {
    assert DevOk(b.devs[d]) && SlotOk(b, d);
  }

  // ---- Runs ----

  ghost predicate IsRun(n: nat, bs: seq<Barrier>, acts: seq<Act>) {
    && |bs| == |acts| + 1 && bs[0] == Start(n)
    && forall i :: 0 <= i < |acts| ==> Enabled(bs[i], acts[i]) && bs[i + 1] == Step(bs[i], acts[i])
  }

  lemma {:induction false} RunInv(n: nat, bs: seq<Barrier>, acts: seq<Act>, i: nat)
    requires IsRun(n, bs, acts) && i < |bs|
    ensures Inv(bs[i]) && |bs[i].devs| == n
    decreases i
  {
    if i == 0 {
      StartInv(n);
    } else {
      RunInv(n, bs, acts, i - 1);
      StepInv(bs[i - 1], acts[i - 1]);
    }
  }

  /** Two live devices are at most one slot apart, and no one enters a slot before all have left the one before. */
  ghost predicate LockStep(b: Barrier) {
    && (forall d :: 0 <= d < |b.devs| && Live(b.devs[d]) ==>
         (b.devs[d].released == b.time || b.devs[d].released + 1 == b.time)
         && (b.devs[d].phase == Working ==> b.devs[d].released == b.time))
    && (forall d, e :: 0 <= d < |b.devs| && 0 <= e < |b.devs| && Live(b.devs[d]) && Live(b.devs[e]) ==>
         b.devs[d].released <= b.devs[e].released + 1)
    && (forall d, e :: 0 <= d < |b.devs| && 0 <= e < |b.devs| && Live(b.devs[d]) && Live(b.devs[e]) ==>
         b.devs[d].released <= b.devs[e].announced)
  }

  lemma InvLockStep(b: Barrier)
    requires Inv(b)
    ensures LockStep(b)
  {
    assert forall d :: 0 <= d < |b.devs| ==> DevOk(b.devs[d]) && SlotOk(b, d);
  }

  lemma BarrierSafety(n: nat, bs: seq<Barrier>, acts: seq<Act>, i: nat)
    requires IsRun(n, bs, acts) && i < |bs|
    ensures LockStep(bs[i])
  {
    RunInv(n, bs, acts, i);
    InvLockStep(bs[i]);
  }

  /** A device sleeps only while the timer still owes it a signal, and the timer only while the device owes one. */
  lemma NoLostWakeUp(n: nat, bs: seq<Barrier>, acts: seq<Act>, i: nat)
    requires IsRun(n, bs, acts) && i < |bs|
    ensures forall d :: 0 <= d < |bs[i].devs| && bs[i].devs[d].phase == Sleeping ==> bs[i].devs[d].done
    ensures bs[i].timer.ScanSleep? ==>
              bs[i].timer.i < |bs[i].devs| && !bs[i].devs[bs[i].timer.i].done && !bs[i].devs[bs[i].timer.i].fsh
    ensures bs[i].timer.Exited? ==> AllDetached(bs[i])
  {
    RunInv(n, bs, acts, i);
  }

  lemma SomethingMoves(b: Barrier, d: nat) returns (a: Act)
    requires Inv(b) && d < |b.devs| && Live(b.devs[d])
    ensures Enabled(b, a) && (a == TimerStep || a.Recheck? || a.Announce?)
  {
    if Enabled(b, TimerStep) {
      a := TimerStep;
    } else {
      var e := b.timer.i;
      assert DevOk(b.devs[e]) && !b.devs[e].done && !b.devs[e].fsh;
      a := if b.devs[e].phase == Working then Announce(e) else Recheck(e);
    }
  }

  /** A step other than a spurious wake-up is enabled, as long as some device is live. */
  lemma NoDeadlock(n: nat, bs: seq<Barrier>, acts: seq<Act>, i: nat, d: nat) returns (a: Act)
    requires IsRun(n, bs, acts) && i < |bs| && d < |bs[i].devs| && Live(bs[i].devs[d])
    ensures Enabled(bs[i], a) && (a == TimerStep || a.Recheck? || a.Announce?)
  {
    RunInv(n, bs, acts, i);
    a := SomethingMoves(bs[i], d);
  }

  // ---- The end of the timer ----

  /** Steps the timer takes at most until it exits, once every device has detached. */
  function ExitRank(b: Barrier): int {
    var n := |b.devs|;
    var again := 2 * n + 3;
    match b.timer
    case Head => if b.stop then 1 else again
    case Scan(i, fin, _) => (n - i) + 1 + (n + 1) + if fin == i then 0 else again
    case ScanSleep(i, fin, _) => (n - i) + 2 + (n + 1) + if fin == i then 0 else again
    case Release(i, fin, seen) => (n - i) + 1 + if fin == seen then 0 else again
    case Exited => 0
  }

  lemma ExitRankBound(b: Barrier)
    requires Inv(b)
    ensures 0 <= ExitRank(b) <= 4 * |b.devs| + 6
    ensures ExitRank(b) == 0 <==> b.timer.Exited?
  {
  }

  /** A timer at its loop head that finds timer_stop set exits with its next step. */
  lemma StopExits(b: Barrier)
    requires b.timer.Head? && b.stop
    ensures Enabled(b, TimerStep) && Step(b, TimerStep).timer == Exited
  {
  }

  /** With every device detached the timer is never blocked, and each of its steps brings it nearer to its end. */
  lemma ExitSinks(b: Barrier, a: Act)
    requires Inv(b) && AllDetached(b) && Enabled(b, a)
    ensures a == TimerStep || a == Stop
    ensures AllDetached(Step(b, a))
    ensures ExitRank(Step(b, a)) <= ExitRank(b) - if a == TimerStep then 1 else 0
  {
    assert forall d :: 0 <= d < |b.devs| ==> DevOk(b.devs[d]);
  }

  lemma NeverBlocked(b: Barrier)
    requires Inv(b) && AllDetached(b)
    ensures Enabled(b, TimerStep) <==> !b.timer.Exited?
  {
    assert forall d :: 0 <= d < |b.devs| ==> DevOk(b.devs[d]);
  }

  /** Calls of stop_timer between states i and j. */
  function Stops(acts: seq<Act>, i: nat, j: nat): nat
    requires i <= j <= |acts|
    decreases j
  {
    if i == j then 0 else Stops(acts, i, j - 1) + if acts[j - 1] == Stop then 1 else 0
  }

  lemma {:induction false} ExitNears(n: nat, bs: seq<Barrier>, acts: seq<Act>, i: nat, j: nat)
    requires IsRun(n, bs, acts) && i <= j < |bs| && AllDetached(bs[i])
    ensures AllDetached(bs[j]) && ExitRank(bs[j]) + (j - i) <= ExitRank(bs[i]) + Stops(acts, i, j)
    decreases j
  {
    if i < j {
      ExitNears(n, bs, acts, i, j - 1);
      RunInv(n, bs, acts, j - 1);
      ExitSinks(bs[j - 1], acts[j - 1]);
    }
  }

  /**
   * Once every device has detached, the timer exits within 4 n + 6 steps of the n devices' barrier, not counting
   * calls of stop_timer; and only then.
   */
  lemma TimerExits(n: nat, bs: seq<Barrier>, acts: seq<Act>, i: nat, j: nat)
    requires IsRun(n, bs, acts) && i <= j < |bs|
    ensures AllDetached(bs[i]) && j - i >= 4 * n + 6 + Stops(acts, i, j) ==> bs[j].timer.Exited?
    ensures bs[j].timer.Exited? ==> AllDetached(bs[j])
  {
    RunInv(n, bs, acts, i);
    RunInv(n, bs, acts, j);
    if AllDetached(bs[i]) {
      ExitNears(n, bs, acts, i, j);
      ExitRankBound(bs[i]);
      ExitRankBound(bs[j]);
    }
  }

  /** What stop_timer has set stays set. */
  lemma {:induction false} StopStays(n: nat, bs: seq<Barrier>, acts: seq<Act>, i: nat, j: nat)
    requires IsRun(n, bs, acts) && i < j < |bs| && acts[i] == Stop
    ensures bs[j].stop
    decreases j
  {
    if i < j - 1 {
      StopStays(n, bs, acts, i, j - 1);
    }
    assert bs[j] == Step(bs[j - 1], acts[j - 1]);
  }

  /** After stop_timer the timer takes one step at its loop head at most: it exits, and looks at no device again. */
  lemma StoppedTimer(n: nat, bs: seq<Barrier>, acts: seq<Act>, i: nat, j: nat)
    requires IsRun(n, bs, acts) && i < j < |acts| && acts[i] == Stop && bs[j].timer.Head? && acts[j] == TimerStep
    ensures bs[j + 1].timer.Exited?
  {
    StopStays(n, bs, acts, i, j);
    StopExits(bs[j]);
  }
}
