/** How soon the timer does its two other duties, with a bound on its rounds: clearing the flag of an alarm that has
    lasted five seconds, and resetting an authorised entry that has lasted one. */
module TimerBounds {
  import opened Events
  import opened AlarmFsm
  import opened AlarmSystem
  import opened AlarmRuns
  import opened EarlyDuty
  import opened BoundedResponse

  /** The timer counts the time in this state and looks at no other. */
  predicate OnState(th: TimerThread, x: State) {
    && th.lastState == x && !th.pc.Due? && !th.pc.Stopped?
    && (th.pc.Saw? ==> th.pc.cur == x)
    && (Acting(th.pc).Some? ==> Acting(th.pc).value == x)
  }

  /** In this round the timer has found the state to last long enough, as far as it has measured, and has not
      passed the point of its duty. */
  predicate Ripe(pc: Timer, x: State) {
    match pc
    case Measured(_, elapsed) => elapsed > Patience(x)
    case PastSilence(_, elapsed) => elapsed > Patience(x) && x == AuthorizedEntry
    case PastReset(_) => false
    case Read(_, _) => false
    case _ => true
  }

  /** The state has lasted from start.  The timer's round is from before; or it is the first since and has not
      stamped; or it counts, from at most two rounds after start; or the count is certain to be long enough. */
  ghost predicate Counting(w: Pace, p: Paced, x: State, start: int) {
    var th, counted := p.sys.timer, start + 2 * w.round;
    || p.roundAt <= start
    || (p.roundAt <= start + w.round && (th.pc.AtHead? || th.pc.Sleeping? || th.pc == Saw(x)))
    || (OnState(th, x) && th.since <= counted && p.roundAt <= counted + Patience(x))
    || (OnState(th, x) && th.since <= counted < p.roundAt - Patience(x) && p.roundAt <= counted + w.round + Patience(x)
        && Ripe(th.pc, x))
  }

  function DutyBy(w: Pace, x: State, start: int): int {
    start + Patience(x) + 4 * w.round
  }

  lemma CountingByTimer(w: Pace, p: Paced, x: State, start: int)
    requires OnTime(w, p) && PacedEnabled(w, p, TimerStep) && TimerSane(p.sys) && p.sys.running
    requires Limited(x) && p.sys.fsm.state == x && start <= p.sys.clock
    requires Counting(w, p, x, start) && !DoesDuty(p.sys, TimerStep, x)
    ensures Counting(w, PacedNext(p, TimerStep), x, start)
  {
    TimerStepClock(p.sys);
  }

  lemma TimerStepClock(s: Sys)
    requires Enabled(s, TimerStep)
    ensures Next(s, TimerStep).clock == s.clock && Next(s, TimerStep).timer == TimerMoves(s)
  {
  }

  lemma CountingByOthers(w: Pace, p: Paced, a: Action, x: State, start: int)
    requires Enabled(p.sys, a) && !a.TimerStep? && Counting(w, p, x, start)
    ensures Counting(w, PacedNext(p, a), x, start)
  {
    OthersLeaveTimer(p.sys, a);
  }

  lemma CountingInTime(w: Pace, p: Paced, x: State, start: int)
    requires OnTime(w, p) && !p.sys.timer.pc.Stopped? && Counting(w, p, x, start)
    ensures p.sys.clock <= DutyBy(w, x, start)
  {
  }

  lemma {:induction false} AlwaysSane(w: Pace, window: int, ps: seq<Paced>, acts: seq<Action>, k: nat)
    requires PacedBehaviour(w, window, ps, acts) && k <= |acts|
    ensures TimerSane(ps[k].sys)
  {
    if k > 0 {
      AlwaysSane(w, window, ps, acts, k - 1);
      assert PacedEnabled(w, ps[k - 1], acts[k - 1]) && ps[k] == PacedNext(ps[k - 1], acts[k - 1]);
      TimerSaneKept(ps[k - 1].sys, acts[k - 1]);
    }
  }

  /** One more step in the state: the timer does its duty, in time, or goes on counting. */
  lemma CountStep(w: Pace, window: int, ps: seq<Paced>, acts: seq<Action>, n: nat, x: State, start: int)
    requires PacedBehaviour(w, window, ps, acts) && n < |acts| && Live(ps[n].sys)
    requires Limited(x) && ps[n].sys.fsm.state == x && start <= ps[n].sys.clock
    requires Counting(w, ps[n], x, start)
    ensures ps[n].sys.clock <= DutyBy(w, x, start)
    ensures DoesDuty(ps[n].sys, acts[n], x) || Counting(w, ps[n + 1], x, start)
  {
    AlwaysOnTime(w, window, ps, acts, n);
    AlwaysSane(w, window, ps, acts, n);
    TimerRuns(w, window, ps, acts, n);
    CountingInTime(w, ps[n], x, start);
    assert PacedEnabled(w, ps[n], acts[n]) && ps[n + 1] == PacedNext(ps[n], acts[n]);
    if !acts[n].TimerStep? {
      CountingByOthers(w, ps[n], acts[n], x, start);
    } else if !DoesDuty(ps[n].sys, acts[n], x) {
      CountingByTimer(w, ps[n], x, start);
    }
  }

  lemma {:induction false} Later(w: Pace, window: int, ps: seq<Paced>, acts: seq<Action>, i: nat, k: nat)
    requires PacedBehaviour(w, window, ps, acts) && i <= k <= |acts|
    ensures ps[i].sys.clock <= ps[k].sys.clock
    decreases k
  {
    if i < k {
      Later(w, window, ps, acts, i, k - 1);
      assert PacedEnabled(w, ps[k - 1], acts[k - 1]) && ps[k] == PacedNext(ps[k - 1], acts[k - 1]);
      ClockGrows(ps[k - 1].sys, acts[k - 1]);
    }
  }

  lemma ClockGrows(s: Sys, a: Action)
    requires Enabled(s, a)
    ensures s.clock <= Next(s, a).clock
  {
  }

  // The alarm flag.

  /** Step j ends the alarm, or the timer clears its flag. */
  ghost predicate AlarmEnds(ps: seq<Paced>, acts: seq<Action>, f: int, m: int, j: int, limit: int) {
    && 0 <= f <= j < m <= |acts| < |ps| && ps[j].sys.clock <= limit
    && (ps[j + 1].sys.fsm.state != AlarmActive || DoesDuty(ps[j].sys, acts[j], AlarmActive))
  }

  lemma {:induction false} EndedOrCounting(w: Pace, window: int, ps: seq<Paced>, acts: seq<Action>, f: nat, m: nat)
    requires PacedBehaviour(w, window, ps, acts) && f <= m <= |acts| && Live(ps[m].sys)
    requires ps[f].sys.fsm.state == AlarmActive
    ensures var start := ps[f].sys.clock;
            || (exists j :: AlarmEnds(ps, acts, f, m, j, DutyBy(w, AlarmActive, start)))
            || (ps[m].sys.fsm.state == AlarmActive && Counting(w, ps[m], AlarmActive, start))
    decreases m
  {
    var start, limit := ps[f].sys.clock, DutyBy(w, AlarmActive, ps[f].sys.clock);
    if m == f {
      AlwaysOnTime(w, window, ps, acts, f);
    } else {
      var n := m - 1;
      StillLive(w, window, ps, acts, n, m);
      EndedOrCounting(w, window, ps, acts, f, n);
      if j :| AlarmEnds(ps, acts, f, n, j, limit) {
        assert AlarmEnds(ps, acts, f, m, j, limit);
      } else {
        Later(w, window, ps, acts, f, n);
        CountStep(w, window, ps, acts, n, AlarmActive, start);
        if !(ps[m].sys.fsm.state == AlarmActive && Counting(w, ps[m], AlarmActive, start)) {
          assert AlarmEnds(ps, acts, f, m, n, limit);
        }
      }
    }
  }

  /** An alarm's flag does not stay set for ever.  In every run that keeps the pace, at most five seconds and four
      rounds after an alarm is raised it has been ended, or the timer has cleared its flag. */
  lemma AlarmFlagCleared(w: Pace, window: int, ps: seq<Paced>, acts: seq<Action>, k: nat, m: nat) returns (j: nat)
    requires PacedBehaviour(w, window, ps, acts) && k < m <= |acts| && Live(ps[m].sys)
    requires Raises(ps[k].sys, acts[k])
    requires ps[k].sys.clock + 5000 + 4 * w.round < ps[m].sys.clock
    ensures k < j < m && ps[j].sys.clock <= ps[k].sys.clock + 5000 + 4 * w.round
    ensures ps[j + 1].sys.fsm.state != AlarmActive
         || (acts[j].TimerStep? && Silences(ps[j].sys) && !ps[j + 1].sys.alarmActive)
  {
    var start := ps[k].sys.clock;
    AlwaysOnTime(w, window, ps, acts, k);
    assert PacedEnabled(w, ps[k], acts[k]) && ps[k + 1] == PacedNext(ps[k], acts[k]);
    EndedOrCounting(w, window, ps, acts, k + 1, m);
    AlwaysOnTime(w, window, ps, acts, m);
    TimerRuns(w, window, ps, acts, m);
    if Counting(w, ps[m], AlarmActive, start) {
      CountingInTime(w, ps[m], AlarmActive, start);
    }
    j :| AlarmEnds(ps, acts, k + 1, m, j, DutyBy(w, AlarmActive, start));
    assert PacedEnabled(w, ps[j], acts[j]) && ps[j + 1] == PacedNext(ps[j], acts[j]);
  }

  // The authorised entry.

  ghost predicate ClosePosted(w: Pace, p: Paced, i: int, start: int)
    requires |p.postedAt| == |InFlight(p.sys)|
  {
    InFlightBy(p, DoorClosed, i, DutyBy(w, AuthorizedEntry, start))
  }

  /** The timer counts, or its reset is in flight. */
  ghost predicate ResetComing(w: Pace, p: Paced, start: int) {
    && p.sys.fsm.state == AuthorizedEntry && |p.postedAt| == |InFlight(p.sys)|
    && (Counting(w, p, AuthorizedEntry, start) || exists i :: ClosePosted(w, p, i, start))
  }

  function ResetBy(w: Pace, start: int): int {
    DutyBy(w, AuthorizedEntry, start) + w.handling
  }

  lemma ResetPosted(w: Pace, p: Paced, start: int)
    requires OnTime(w, p) && PacedEnabled(w, p, TimerStep) && Live(p.sys)
    requires DoesDuty(p.sys, TimerStep, AuthorizedEntry) && p.sys.clock <= DutyBy(w, AuthorizedEntry, start)
    requires OnTime(w, PacedNext(p, TimerStep))
    ensures exists i :: ClosePosted(w, PacedNext(p, TimerStep), i, start)
  {
    var q := PacedNext(p, TimerStep);
    assert InFlight(q.sys) == InFlight(p.sys) + [AUTO_RESET];
    assert ClosePosted(w, q, |p.postedAt|, start);
  }

  lemma CloseEndsEntry(s: Sys, a: Action)
    requires Enabled(s, a) && s.fsm.state == AuthorizedEntry && Next(s, a).fsm.state == AuthorizedEntry
    ensures !(a.ControlStep? && s.control.Took? && s.control.post.event.kind == DoorClosed)
  {
  }

  lemma ResetStep(w: Pace, window: int, ps: seq<Paced>, acts: seq<Action>, n: nat, start: int)
    requires PacedBehaviour(w, window, ps, acts) && n < |acts| && Live(ps[n].sys)
    requires start <= ps[n].sys.clock && ResetComing(w, ps[n], start)
    ensures ps[n].sys.clock <= ResetBy(w, start)
    ensures ps[n + 1].sys.fsm.state == AuthorizedEntry ==> ResetComing(w, ps[n + 1], start)
  {
    AlwaysOnTime(w, window, ps, acts, n);
    AlwaysOnTime(w, window, ps, acts, n + 1);
    NothingStops(ps[n].sys);
    assert PacedEnabled(w, ps[n], acts[n]) && ps[n + 1] == PacedNext(ps[n], acts[n]);
    if ps[n + 1].sys.fsm.state == AuthorizedEntry {
      CloseEndsEntry(ps[n].sys, acts[n]);
    }
    if i :| ClosePosted(w, ps[n], i, start) {
      if ps[n + 1].sys.fsm.state == AuthorizedEntry {
        var j := PostMovesUp(ps[n], acts[n], DoorClosed, i, DutyBy(w, AuthorizedEntry, start));
        assert ClosePosted(w, ps[n + 1], j, start);
      }
    } else {
      CountStep(w, window, ps, acts, n, AuthorizedEntry, start);
      if DoesDuty(ps[n].sys, acts[n], AuthorizedEntry) {
        ResetPosted(w, ps[n], start);
      }
    }
  }

  /** Step j ends the authorised entry. */
  ghost predicate EntryEnds(ps: seq<Paced>, acts: seq<Action>, f: int, m: int, j: int, limit: int) {
    && 0 <= f <= j < m <= |acts| < |ps| && ps[j].sys.clock <= limit
    && ps[j + 1].sys.fsm.state != AuthorizedEntry
  }

  lemma {:induction false} EndedOrComing(w: Pace, window: int, ps: seq<Paced>, acts: seq<Action>, f: nat, m: nat)
    requires PacedBehaviour(w, window, ps, acts) && f <= m <= |acts| && Live(ps[m].sys)
    requires ps[f].sys.fsm.state == AuthorizedEntry
    ensures var start := ps[f].sys.clock;
            (exists j :: EntryEnds(ps, acts, f, m, j, ResetBy(w, start))) || ResetComing(w, ps[m], start)
    decreases m
  {
    var start, limit := ps[f].sys.clock, ResetBy(w, ps[f].sys.clock);
    if m == f {
      AlwaysOnTime(w, window, ps, acts, f);
    } else {
      var n := m - 1;
      StillLive(w, window, ps, acts, n, m);
      EndedOrComing(w, window, ps, acts, f, n);
      if j :| EntryEnds(ps, acts, f, n, j, limit) {
        assert EntryEnds(ps, acts, f, m, j, limit);
      } else {
        Later(w, window, ps, acts, f, n);
        ResetStep(w, window, ps, acts, n, start);
        if ps[m].sys.fsm.state != AuthorizedEntry {
          assert EntryEnds(ps, acts, f, m, n, limit);
        }
      }
    }
  }

  /** An authorised entry does not stay open for ever.  In every run that keeps the pace, the state machine has left
      it at most one second, four rounds and one handling after entering it, whatever else happens. */
  lemma EntryReset(w: Pace, window: int, ps: seq<Paced>, acts: seq<Action>, k: nat, m: nat) returns (j: nat)
    requires PacedBehaviour(w, window, ps, acts) && k < m <= |acts| && Live(ps[m].sys)
    requires ps[k].sys.fsm.state != AuthorizedEntry && ps[k + 1].sys.fsm.state == AuthorizedEntry
    requires ps[k].sys.clock + 1000 + 4 * w.round + w.handling < ps[m].sys.clock
    ensures k < j < m && ps[j + 1].sys.fsm.state != AuthorizedEntry
    ensures ps[j].sys.clock <= ps[k].sys.clock + 1000 + 4 * w.round + w.handling
  {
    var start := ps[k].sys.clock;
    assert PacedEnabled(w, ps[k], acts[k]) && ps[k + 1] == PacedNext(ps[k], acts[k]);
    EndedOrComing(w, window, ps, acts, k + 1, m);
    if ResetComing(w, ps[m], start) {
      AlwaysOnTime(w, window, ps, acts, m);
      NothingStops(ps[m].sys);
      TimerRuns(w, window, ps, acts, m);
      if Counting(w, ps[m], AuthorizedEntry, start) {
        CountingInTime(w, ps[m], AuthorizedEntry, start);
      }
    }
    j :| EntryEnds(ps, acts, k + 1, m, j, ResetBy(w, start));
  }
}
