/** Exactly when the door lock's destructor can hang: it clears the running flag and notifies the timer thread
    without taking the timer's mutex, so the thread can miss both. */
module DoorLockShutdown {
  import opened DoorLock
  import opened DoorLockTiming

  /** The destructor waits for the timer thread, which is blocked with nobody about to notify it. */
  predicate Hung(s: Lock) {
    !s.running && s.notified && s.timer.Blocked? && s.unlocker.Idle?
  }

  /** A blocked thread wakes up for nothing, or a new unlock is accepted although the lock is being destroyed. */
  predicate Rescues(t: Timing, s: Lock, a: Action) {
    a.SpuriousWakeUp? || (a.Attempt? && !InCooldown(t, s))
  }

  /** A continuation in which nothing of the kind happens. */
  ghost predicate Unrescued(t: Timing, s: Lock, acts: seq<Action>)
    decreases |acts|
  {
    acts == [] || (Enabled(t, s, acts[0]) && !Rescues(t, s, acts[0]) && Unrescued(t, Next(t, s, acts[0]), acts[1..]))
  }

  ghost function After(t: Timing, s: Lock, acts: seq<Action>): Lock
    requires Unrescued(t, s, acts)
    decreases |acts|
  {
    if acts == [] then s else After(t, Next(t, s, acts[0]), acts[1..])
  }

  lemma HungStep(t: Timing, s: Lock, a: Action)
    requires Enabled(t, s, a) && Hung(s)
    ensures !a.FinalLow? && !a.TimerStep?
    ensures !Rescues(t, s, a) ==> Hung(Next(t, s, a))
  {
  }

  /** A hung destructor hangs for good unless something unforeseen rescues it: the timer thread never moves again,
      and the destructor never gets past its join. */
  lemma {:induction false} HungForGood(t: Timing, s: Lock, acts: seq<Action>)
    requires Hung(s) && Unrescued(t, s, acts)
    ensures Hung(After(t, s, acts))
    ensures forall a :: a in acts ==> !a.FinalLow? && !a.TimerStep?
    decreases |acts|
  {
    if acts != [] {
      HungStep(t, s, acts[0]);
      HungForGood(t, Next(t, s, acts[0]), acts[1..]);
      assert acts == [acts[0]] + acts[1..];
    }
  }

  /** At least it hangs with the relay low. */
  lemma HungIsLow(t: Timing, b: seq<Lock>, acts: seq<Action>, k: nat)
    requires Behaviour(t, b, acts) && k < |b| && Hung(b[k])
    ensures !b[k].relay
  {
    RelockAlwaysOwed(t, b, acts, k);
  }

  ghost predicate HangsVia(t: Timing, s: Lock, acts: seq<Action>)
    decreases |acts|
  {
    if acts == [] then Hung(s) else Enabled(t, s, acts[0]) && HangsVia(t, Next(t, s, acts[0]), acts[1..])
  }

  ghost predicate CanHang(t: Timing, s: Lock) {
    exists acts :: HangsVia(t, s, acts)
  }

  /** The thread is bound to leave: it will look again after the flag was cleared, or an unlock under way will
      wake it. */
  ghost predicate WillLeave(s: Lock) {
    && !s.running
    && (s.timer.Checked? ==> Unlocking(s))
    && (s.timer.Blocked? ==> !s.notified || Unlocking(s) || s.unlocker.Armed?)
  }

  lemma WillLeaveKept(t: Timing, s: Lock, a: Action)
    requires WillLeave(s) && Enabled(t, s, a)
    ensures WillLeave(Next(t, s, a))
  {
  }

  lemma {:induction false} NeverHangs(t: Timing, s: Lock, acts: seq<Action>)
    requires WillLeave(s)
    ensures !HangsVia(t, s, acts)
    decreases |acts|
  {
    if acts != [] && Enabled(t, s, acts[0]) {
      WillLeaveKept(t, s, acts[0]);
      NeverHangs(t, Next(t, s, acts[0]), acts[1..]);
    }
  }

  lemma OneStepEarlier(t: Timing, s: Lock, a: Action)
    requires Enabled(t, s, a) && CanHang(t, Next(t, s, a))
    ensures CanHang(t, s)
  {
    var acts :| HangsVia(t, Next(t, s, a), acts);
    assert ([a] + acts)[1..] == acts;
    assert HangsVia(t, s, [a] + acts);
  }

  /** From a stopped lock whose thread has looked in vain, notifying before it blocks loses the wake-up. */
  lemma WakeUpLost(t: Timing, s: Lock)
    requires !s.running && !s.notified && s.timer.Checked? && (s.unlocker.Idle? || s.unlocker.Armed?)
    ensures CanHang(t, s)
    decreases s.unlocker.Armed?
  {
    if s.unlocker.Armed? {
      WakeUpLost(t, Next(t, s, UnlockStep));
      OneStepEarlier(t, s, UnlockStep);
    } else {
      var n := Next(t, s, NotifyStop);
      assert HangsVia(t, Next(t, n, TimerStep), []);
      OneStepEarlier(t, n, TimerStep);
      OneStepEarlier(t, s, NotifyStop);
    }
  }

  /** The destructor can hang if and only if, when it clears the flag, the timer thread has looked and not yet
      blocked, and no unlock is on its way to arm the timer. */
  lemma HangIff(t: Timing, s: Lock)
    requires s.running && !s.notified
    ensures CanHang(t, Next(t, s, Stop)) <==> s.timer.Checked? && !Unlocking(s)
  {
    var stopped := Next(t, s, Stop);
    if s.timer.Checked? && !Unlocking(s) {
      WakeUpLost(t, stopped);
    } else if CanHang(t, stopped) {
      var acts :| HangsVia(t, stopped, acts);
      NeverHangs(t, stopped, acts);
    }
  }

  /** It can hang even if the lock has never been used. */
  lemma UnusedLockCanHang(t: Timing) returns (b: seq<Lock>, acts: seq<Action>)
    ensures Behaviour(t, b, acts) && b[|acts|].intervals == [] && b[|acts|].firstUnlock
    ensures Enabled(t, b[|acts|], Stop) && CanHang(t, Next(t, b[|acts|], Stop))
  {
    var s := Start(0);
    var waiting := Next(t, s, TimerStep);
    var checked := Next(t, waiting, TimerStep);
    b, acts := [s, waiting, checked], [TimerStep, TimerStep];
    HangIff(t, checked);
  }
}
