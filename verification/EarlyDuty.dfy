/** The timer's two duties about a state that has lasted: clearing the flag of an alarm after five seconds, and
    resetting an authorised entry after one.  Exactly when it can do them early: when it still counts from an
    earlier alarm or entry, because it never saw the state change in between.  What the buzzer does meanwhile is
    another matter; see Buzzer. */
module EarlyDuty {
  import opened Events
  import opened AlarmFsm
  import opened AlarmSystem
  import opened AlarmInvariants
  import opened AlarmRuns

  // What the timer's locals say.

  /** The state the timer is acting on. */
  function Acting(pc: Timer): Option<State> {
    match pc
    case Stamped(cur) => Some(cur)
    case Measured(cur, _) => Some(cur)
    case PastSilence(cur, _) => Some(cur)
    case PastReset(cur) => Some(cur)
    case Read(cur, _) => Some(cur)
    case _ => None
  }

  ghost predicate TimerSane(s: Sys) {
    && s.timer.since <= s.clock
    && (Acting(s.timer.pc).Some? ==> Acting(s.timer.pc).value == s.timer.lastState)
    && (s.timer.pc.Measured? ==> s.timer.pc.elapsed <= s.clock - s.timer.since)
    && (s.timer.pc.PastSilence? ==> s.timer.pc.elapsed <= s.clock - s.timer.since)
  }

  lemma TimerSaneKept(s: Sys, a: Action)
    requires Enabled(s, a) && TimerSane(s)
    ensures TimerSane(Next(s, a))
  {
  }

  lemma {:induction false} AlwaysTimerSane(window: int, b: seq<Sys>, acts: seq<Action>, k: nat)
    requires Behaviour(window, b, acts) && k <= |acts|
    ensures TimerSane(b[k])
  {
    if k > 0 {
      AlwaysTimerSane(window, b, acts, k - 1);
      assert Enabled(b[k - 1], acts[k - 1]) && b[k] == Next(b[k - 1], acts[k - 1]);
      TimerSaneKept(b[k - 1], acts[k - 1]);
    }
  }

  /** The two states the timer limits, and how long each may last, in milliseconds. */
  predicate Limited(x: State) {
    x == AlarmActive || x == AuthorizedEntry
  }

  function Patience(x: State): nat {
    if x == AlarmActive then 5000 else 1000
  }

  /** The timer does its duty about the state. */
  predicate DoesDuty(s: Sys, a: Action, x: State) {
    a.TimerStep? && if x == AlarmActive then Silences(s) else AutoResets(s)
  }

  /** A continuation: in the state all along, until in its last step the timer does its duty, no later than the
      given time. */
  ghost predicate DoesBy(s: Sys, acts: seq<Action>, x: State, latest: int)
    decreases |acts|
  {
    && acts != [] && s.fsm.state == x && Enabled(s, acts[0])
    && if |acts| == 1 then DoesDuty(s, acts[0], x) && s.clock <= latest
       else DoesBy(Next(s, acts[0]), acts[1..], x, latest)
  }

  ghost predicate CanDoBy(s: Sys, x: State, latest: int) {
    exists acts :: DoesBy(s, acts, x, latest)
  }

  /** The timer counts from an earlier stay in the state, has not noticed another state since, and will measure
      once more or has already measured enough and not yet acted. */
  predicate OldCount(s: Sys, x: State, start: int) {
    && s.timer.lastState == x && s.timer.since < start
    && match s.timer.pc
       case Sleeping => true
       case Saw(cur) => cur == x
       case Stamped(_) => true
       case Measured(_, elapsed) => s.running || elapsed > Patience(x)
       case PastSilence(_, elapsed) => s.running || (x == AuthorizedEntry && elapsed > Patience(x))
       case Stopped => false
       case _ => s.running
  }

  // With an old count some continuation is early: no later than the state is to last.

  lemma OneStepEarlier(s: Sys, a: Action, x: State, latest: int)
    requires s.fsm.state == x && Enabled(s, a) && CanDoBy(Next(s, a), x, latest)
    ensures CanDoBy(s, x, latest)
  {
    var acts :| DoesBy(Next(s, a), acts, x, latest);
    assert ([a] + acts)[1..] == acts;
    assert DoesBy(s, [a] + acts, x, latest);
  }

  /** How many timer steps are left until it does its duty. */
  function StepsLeft(pc: Timer, x: State): nat {
    match pc
    case Measured(_, elapsed) => if elapsed <= Patience(x) then 10 else if x == AlarmActive then 0 else 1
    case PastSilence(_, elapsed) => if x == AuthorizedEntry && elapsed > Patience(x) then 0 else 9
    case Stamped(_) => 2
    case Saw(_) => 3
    case Sleeping => 4
    case AtHead => 5
    case Due(_) => 6
    case Read(_, _) => 7
    case PastReset(_) => 8
    case Stopped => 11
  }

  lemma {:induction false} OldCountDoes(s: Sys, x: State, start: int, latest: int)
    requires Limited(x) && s.fsm.state == x && TimerSane(s) && latest == start + Patience(x)
    requires OldCount(s, x, start) && s.clock <= latest
    ensures CanDoBy(s, x, latest)
    decreases s.control.InHandler?, StepsLeft(s.timer.pc, x)
  {
    if DoesDuty(s, TimerStep, x) {
      assert DoesBy(s, [TimerStep], x, latest);
    } else if s.control.InHandler? {
      OldCountDoes(Next(s, ControlStep), x, start, latest);
      OneStepEarlier(s, ControlStep, x, latest);
    } else if s.timer.pc.Stamped? {
      var enough := s.timer.since + Patience(x) + 1;
      var wait := Tick(if s.clock < enough then enough - s.clock else 0);
      var t := Next(s, wait);
      TimerSaneKept(s, wait);
      TimerSaneKept(t, TimerStep);
      OldCountDoes(Next(t, TimerStep), x, start, latest);
      OneStepEarlier(t, TimerStep, x, latest);
      OneStepEarlier(s, wait, x, latest);
    } else {
      OldCountStep(s, x, start);
      OldCountDoes(Next(s, TimerStep), x, start, latest);
      OneStepEarlier(s, TimerStep, x, latest);
    }
  }

  lemma OldCountStep(s: Sys, x: State, start: int)
    requires Limited(x) && s.fsm.state == x && FsmFree(s) && TimerSane(s)
    requires OldCount(s, x, start) && !DoesDuty(s, TimerStep, x) && !s.timer.pc.Stamped?
    ensures var t := Next(s, TimerStep);
            && t.fsm == s.fsm && FsmFree(t) && TimerSane(t) && t.clock == s.clock
            && OldCount(t, x, start) && StepsLeft(t.timer.pc, x) < StepsLeft(s.timer.pc, x)
  {
  }

  // Without one no continuation is.

  lemma NoOldCountKept(s: Sys, a: Action, x: State, start: int)
    requires Limited(x) && Enabled(s, a) && TimerSane(s) && start <= s.clock <= start + Patience(x)
    requires s.fsm.state == x && !OldCount(s, x, start)
    ensures !OldCount(Next(s, a), x, start)
  {
  }

  lemma {:induction false} NeverEarly(s: Sys, acts: seq<Action>, x: State, start: int, latest: int)
    requires Limited(x) && TimerSane(s) && start <= s.clock && latest == start + Patience(x)
    requires !OldCount(s, x, start)
    ensures !DoesBy(s, acts, x, latest)
    decreases |acts|
  {
    if acts != [] && s.fsm.state == x && Enabled(s, acts[0]) && |acts| > 1 {
      if s.clock <= latest {
        NoOldCountKept(s, acts[0], x, start);
        TimerSaneKept(s, acts[0]);
        NeverEarly(Next(s, acts[0]), acts[1..], x, start, latest);
      } else {
        TooLate(s, acts, x, latest);
      }
    }
  }

  lemma {:induction false} TooLate(s: Sys, acts: seq<Action>, x: State, latest: int)
    requires s.clock > latest
    ensures !DoesBy(s, acts, x, latest)
    decreases |acts|
  {
    if |acts| > 1 && Enabled(s, acts[0]) {
      TooLate(Next(s, acts[0]), acts[1..], x, latest);
    }
  }

  lemma EarlyIff(s: Sys, x: State, latest: int)
    requires Limited(x) && s.fsm.state == x && TimerSane(s) && latest == s.clock + Patience(x)
    ensures CanDoBy(s, x, latest) <==> OldCount(s, x, s.clock)
  {
    if OldCount(s, x, s.clock) {
      OldCountDoes(s, x, s.clock, latest);
    } else if CanDoBy(s, x, latest) {
      var more :| DoesBy(s, more, x, latest);
      NeverEarly(s, more, x, s.clock, latest);
    }
  }

  /** Whenever an alarm is raised, in any run: in some continuation the timer clears its flag within five seconds,
      with no other alarm raised meanwhile, if and only if the timer still counts from an earlier alarm. */
  lemma EarlyClearIff(window: int, b: seq<Sys>, acts: seq<Action>, k: nat)
    requires Behaviour(window, b, acts) && k < |acts| && Raises(b[k], acts[k])
    ensures CanDoBy(b[k + 1], AlarmActive, b[k + 1].clock + 5000) <==>
            OldCount(b[k + 1], AlarmActive, b[k + 1].clock)
  {
    AlwaysInvariant(window, b, acts, k);
    AlwaysTimerSane(window, b, acts, k + 1);
    assert Enabled(b[k], acts[k]) && b[k + 1] == Next(b[k], acts[k]);
    EarlyIff(b[k + 1], AlarmActive, b[k + 1].clock + 5000);
  }

  /** Whenever an entry is authorised, in any run: in some continuation the automatic reset comes within one
      second, the entry lasting until then, if and only if the timer still counts from an earlier entry. */
  lemma EarlyResetIff(window: int, b: seq<Sys>, acts: seq<Action>, k: nat)
    requires Behaviour(window, b, acts) && k < |acts|
    requires b[k].fsm.state != AuthorizedEntry && b[k + 1].fsm.state == AuthorizedEntry
    ensures CanDoBy(b[k + 1], AuthorizedEntry, b[k + 1].clock + 1000) <==>
            OldCount(b[k + 1], AuthorizedEntry, b[k + 1].clock)
  {
    AlwaysTimerSane(window, b, acts, k + 1);
    EarlyIff(b[k + 1], AuthorizedEntry, b[k + 1].clock + 1000);
  }
}
