/** What the buzzer does.  After every event that leaves the alarm active, the control loop starts a detached
    flasher, which switches the buzzer on, sleeps for a second and switches it off again, alarm or not. */
module Buzzer {
  import opened Events
  import opened AlarmFsm
  import opened AlarmSystem
  import opened AlarmInvariants

  /** A flasher, with the time of the event it was started for; once it has switched the buzzer on, it sleeps
      until the given time. */
  datatype Flasher = Flasher(origin: int, wakeAt: Option<int>)

  /** The system with its buzzer.  After handling an event the control loop still has to read the state; check is
      the time at which it finished handling. */
  datatype Loud = Loud(sys: Sys, buzzer: bool, check: Option<int>, flashers: seq<Flasher>)

  /** The steps of the system, the control loop's reading of the state, a flasher's two steps, and the beeps of
      the tag reader's refusals. */
  datatype Step = Base(a: Action) | ReadState | FlashOn(i: nat) | FlashOff(i: nat) | Refusal(on: bool)

  const FLASH_MS := 1000

  /** Reading the state and starting and waking the flasher are at most this late in all. */
  ghost predicate InTime(late: nat, l: Loud, clock: int) {
    && (l.check.Some? ==> clock <= l.check.value + late)
    && forall i :: 0 <= i < |l.flashers| ==>
         clock <= l.flashers[i].origin + late + if l.flashers[i].wakeAt.Some? then FLASH_MS else 0
  }

  predicate Can(l: Loud, e: Step) {
    match e
    case Base(a) => Enabled(l.sys, a) && (a.ControlStep? && l.sys.control.Waiting? ==> l.check.None?)
    case ReadState => l.check.Some?
    case FlashOn(i) => i < |l.flashers| && l.flashers[i].wakeAt.None?
    case FlashOff(i) =>
      i < |l.flashers| && l.flashers[i].wakeAt.Some? && l.flashers[i].wakeAt.value <= l.sys.clock
    case Refusal(_) => true
  }

  ghost predicate LoudEnabled(late: nat, l: Loud, e: Step) {
    Can(l, e) && (e.Base? && e.a.Tick? ==> InTime(late, l, l.sys.clock + e.a.dt))
  }

  predicate FinishesHandling(s: Sys, a: Action) {
    a.ControlStep? && s.control.InHandler?
  }

  /** What a step of the system writes to the buzzer: the alarm manager's writes. */
  function Driven(s: Sys, a: Action, buzzer: bool): bool {
    if FinishesHandling(s, a) then ActiveAfter(buzzer, s.control.op)
    else if a.TimerStep? && Silences(s) then false
    else buzzer
  }

  function LoudNext(l: Loud, e: Step): Loud
    requires Can(l, e)
  {
    match e
    case Base(a) =>
      l.(sys := Next(l.sys, a), buzzer := Driven(l.sys, a, l.buzzer),
         check := if FinishesHandling(l.sys, a) then Some(l.sys.clock) else l.check)
    case ReadState =>
      l.(check := None,
         flashers := if l.sys.fsm.state == AlarmActive then l.flashers + [Flasher(l.check.value, None)]
                     else l.flashers)
    case FlashOn(i) =>
      l.(buzzer := true, flashers := l.flashers[i := l.flashers[i].(wakeAt := Some(l.sys.clock + FLASH_MS))])
    case FlashOff(i) => l.(buzzer := false, flashers := l.flashers[..i] + l.flashers[i + 1..])
    case Refusal(on) => l.(buzzer := on)
  }

  function Quiet(window: int, clock: int): Loud {
    Loud(Start(window, clock), false, None, [])
  }

  ghost predicate LoudBehaviour(late: nat, window: int, ls: seq<Loud>, es: seq<Step>) {
    && |ls| == |es| + 1
    && ls[0] == Quiet(window, ls[0].sys.clock)
    && forall k {:trigger es[k]} :: 0 <= k < |es| ==>
         LoudEnabled(late, ls[k], es[k]) && ls[k + 1] == LoudNext(ls[k], es[k])
  }

  ghost predicate LoudReachable(late: nat, window: int, l: Loud) {
    exists ls, es :: LoudBehaviour(late, window, ls, es) && ls[|es|] == l
  }

  // What holds throughout.

  /** Moreover a flasher sleeps for a full second, and not before the event it was started for. */
  ghost predicate Sane(late: nat, l: Loud) {
    && Agreement(l.sys) && InTime(late, l, l.sys.clock)
    && (l.check.Some? ==> l.check.value <= l.sys.clock)
    && forall i :: 0 <= i < |l.flashers| ==>
         && l.flashers[i].origin <= l.sys.clock
         && (l.flashers[i].wakeAt.Some? ==> l.flashers[i].origin + 1000 <= l.flashers[i].wakeAt.value)
  }

  lemma SaneKept(late: nat, l: Loud, e: Step)
    requires LoudEnabled(late, l, e) && Sane(late, l)
    ensures Sane(late, LoudNext(l, e))
  {
    match e
    case Base(a) => AgreementKept(l.sys, a); ClockMoves(l.sys, a);
    case _ =>
  }

  lemma ClockMoves(s: Sys, a: Action)
    requires Enabled(s, a)
    ensures Next(s, a).clock == if a.Tick? then s.clock + a.dt else s.clock
  {
  }

  lemma {:induction false} AlwaysSane(late: nat, window: int, ls: seq<Loud>, es: seq<Step>, k: nat)
    requires LoudBehaviour(late, window, ls, es) && k <= |es|
    ensures Sane(late, ls[k])
  {
    if k > 0 {
      AlwaysSane(late, window, ls, es, k - 1);
      assert LoudEnabled(late, ls[k - 1], es[k - 1]) && ls[k] == LoudNext(ls[k - 1], es[k - 1]);
      SaneKept(late, ls[k - 1], es[k - 1]);
    }
  }

  // Every alarm's buzzer is switched off by its own flasher.

  /** Step e raises the alarm. */
  predicate RaisesAlarm(l: Loud, e: Step) {
    e == Base(ControlStep) && l.sys.control.InHandler? && l.sys.control.op.Trigger?
  }

  /** The flasher of an alarm raised at the given time is still to be started, or has not finished. */
  ghost predicate FlasherOwed(l: Loud, raisedAt: int) {
    || (l.check == Some(raisedAt) && l.sys.fsm.state == AlarmActive
        && !l.sys.control.InHandler? && !l.sys.control.Took?)
    || exists i :: 0 <= i < |l.flashers| && l.flashers[i].origin == raisedAt
  }

  /** Step e is the switching off by a flasher started for an alarm raised at the given time. */
  predicate CutsOff(l: Loud, e: Step, raisedAt: int) {
    e.FlashOff? && e.i < |l.flashers| && l.flashers[e.i].origin == raisedAt
  }

  lemma UncheckedStays(s: Sys, a: Action)
    requires Enabled(s, a) && !s.control.InHandler? && !s.control.Took?
    requires a.ControlStep? ==> !s.control.Waiting?
    ensures Next(s, a).fsm.state == s.fsm.state && Next(s, a).control == s.control
  {
  }

  lemma OwedKept(late: nat, l: Loud, e: Step, raisedAt: int)
    requires LoudEnabled(late, l, e) && FlasherOwed(l, raisedAt) && !CutsOff(l, e, raisedAt)
    ensures FlasherOwed(LoudNext(l, e), raisedAt)
  {
    var t := LoudNext(l, e);
    if i :| 0 <= i < |l.flashers| && l.flashers[i].origin == raisedAt {
      if e.FlashOff? && e.i < i {
        assert t.flashers[i - 1].origin == raisedAt;
      } else {
        assert t.flashers[i].origin == raisedAt;
      }
    } else if e.Base? {
      UncheckedStays(l.sys, e.a);
    } else if e.ReadState? {
      assert t.flashers[|l.flashers|].origin == raisedAt;
    }
  }

  ghost predicate CutOffBy(ls: seq<Loud>, es: seq<Step>, k: int, m: int, j: int, raisedAt: int) {
    0 <= k < j < m <= |es| < |ls| && CutsOff(ls[j], es[j], raisedAt)
  }

  lemma RaiseOwes(late: nat, l: Loud, e: Step)
    requires LoudEnabled(late, l, e) && Sane(late, l) && RaisesAlarm(l, e)
    ensures FlasherOwed(LoudNext(l, e), l.sys.clock) && LoudNext(l, e).buzzer
  {
  }

  lemma {:induction false} CutOffOrOwed(late: nat, window: int, ls: seq<Loud>, es: seq<Step>, k: nat, m: nat)
    requires LoudBehaviour(late, window, ls, es) && k < m <= |es| && RaisesAlarm(ls[k], es[k])
    ensures (exists j :: CutOffBy(ls, es, k, m, j, ls[k].sys.clock)) || FlasherOwed(ls[m], ls[k].sys.clock)
    decreases m
  {
    var n := m - 1;
    assert LoudEnabled(late, ls[n], es[n]) && ls[m] == LoudNext(ls[n], es[n]);
    if n == k {
      AlwaysSane(late, window, ls, es, k);
      RaiseOwes(late, ls[k], es[k]);
    } else {
      CutOffOrOwed(late, window, ls, es, k, n);
      if j :| CutOffBy(ls, es, k, n, j, ls[k].sys.clock) {
        assert CutOffBy(ls, es, k, m, j, ls[k].sys.clock);
      } else if CutsOff(ls[n], es[n], ls[k].sys.clock) {
        assert CutOffBy(ls, es, k, m, n, ls[k].sys.clock);
      } else {
        OwedKept(late, ls[n], es[n], ls[k].sys.clock);
      }
    }
  }

  /** The buzzer of an alarm does not last until somebody ends the alarm.  In every run that gets past the time,
      a flasher started for the alarm itself switches it off, not before a second has passed but within a second
      and the latency. */
  lemma BuzzerCutOff(late: nat, window: int, ls: seq<Loud>, es: seq<Step>, k: nat, m: nat) returns (j: nat)
    requires LoudBehaviour(late, window, ls, es) && k < m <= |es| && RaisesAlarm(ls[k], es[k])
    requires ls[k].sys.clock + 1000 + late < ls[m].sys.clock
    ensures ls[k + 1].buzzer
    ensures k < j < m && CutsOff(ls[j], es[j], ls[k].sys.clock) && !ls[j + 1].buzzer
    ensures ls[k].sys.clock + 1000 <= ls[j].sys.clock <= ls[k].sys.clock + 1000 + late
  {
    AlwaysSane(late, window, ls, es, k);
    AlwaysSane(late, window, ls, es, m);
    assert LoudEnabled(late, ls[k], es[k]) && ls[k + 1] == LoudNext(ls[k], es[k]);
    RaiseOwes(late, ls[k], es[k]);
    CutOffOrOwed(late, window, ls, es, k, m);
    j :| CutOffBy(ls, es, k, m, j, ls[k].sys.clock);
    AlwaysSane(late, window, ls, es, j);
    assert LoudEnabled(late, ls[j], es[j]) && ls[j + 1] == LoudNext(ls[j], es[j]);
  }
}
