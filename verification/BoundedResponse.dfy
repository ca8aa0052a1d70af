/** No missed alarm: with a bound on the timer's rounds and on the time a post waits to be handled, every
    opening that starts an episode is resolved in bounded time, as long as the system is not being stopped. */
module BoundedResponse {
  import opened Events
  import opened AlarmFsm
  import opened AlarmSystem
  import opened AlarmInvariants

  /** A timer round takes at most round, and a post is handled at most handling after it was accepted. */
  datatype Pace = Pace(round: nat, handling: nat)

  /** The system, when the timer's current round began, and when each post in flight was accepted. */
  datatype Paced = Paced(sys: Sys, roundAt: int, postedAt: seq<int>)

  /** Time cannot pass what is due. */
  ghost predicate PacedEnabled(w: Pace, p: Paced, a: Action) {
    && Enabled(p.sys, a)
    && (a.Tick? ==>
          && (!p.sys.timer.pc.Stopped? ==> p.sys.clock + a.dt <= p.roundAt + w.round)
          && (!p.sys.control.Exited? ==>
                forall i :: 0 <= i < |p.postedAt| ==> p.sys.clock + a.dt <= p.postedAt[i] + w.handling))
  }

  function PacedNext(p: Paced, a: Action): Paced
    requires Enabled(p.sys, a)
  {
    var t := Next(p.sys, a);
    Paced(t,
          if a.TimerStep? && t.timer.pc.AtHead? then t.clock else p.roundAt,
          if |InFlight(t)| > |p.postedAt| then p.postedAt + [t.clock]
          else if |InFlight(t)| < |p.postedAt| then p.postedAt[1..]
          else p.postedAt)
  }

  ghost predicate PacedBehaviour(w: Pace, window: int, ps: seq<Paced>, acts: seq<Action>) {
    && |ps| == |acts| + 1
    && ps[0] == Paced(Start(window, ps[0].sys.clock), ps[0].sys.clock, [])
    && forall k {:trigger acts[k]} :: 0 <= k < |acts| ==>
         PacedEnabled(w, ps[k], acts[k]) && ps[k + 1] == PacedNext(ps[k], acts[k])
  }

  /** Nobody has begun to stop the system. */
  ghost predicate Live(s: Sys) {
    s.running && !s.queue.closed && NoShutdown(s.hist.accepted)
  }

  lemma LiveBefore(s: Sys, a: Action)
    requires Enabled(s, a) && Live(Next(s, a))
    ensures Live(s)
  {
    assert s.hist.accepted <= Next(s, a).hist.accepted;
    assert forall k :: 0 <= k < |s.hist.accepted| ==> Next(s, a).hist.accepted[k] == s.hist.accepted[k];
  }

  // Both clocks are kept.

  ghost predicate OnTime(w: Pace, p: Paced) {
    && |p.postedAt| == |InFlight(p.sys)|
    && p.roundAt <= p.sys.clock
    && (!p.sys.timer.pc.Stopped? ==> p.sys.clock <= p.roundAt + w.round)
    && (!p.sys.control.Exited? ==> forall i :: 0 <= i < |p.postedAt| ==> p.sys.clock <= p.postedAt[i] + w.handling)
  }

  lemma FlightStep(s: Sys, a: Action)
    requires Enabled(s, a)
    ensures var (x, y) := (InFlight(s), InFlight(Next(s, a)));
            || y == x
            || (|y| == |x| + 1 && y[..|x|] == x)
            || (a.ControlStep? && !s.control.InHandler? && x != [] && y == x[1..])
  {
    if a.ControlStep? && s.control.Waiting? && s.queue.items != [] {
      assert s.queue.items == [s.queue.items[0]] + s.queue.items[1..];
    }
  }

  lemma OnTimeKept(w: Pace, p: Paced, a: Action)
    requires PacedEnabled(w, p, a) && OnTime(w, p)
    ensures OnTime(w, PacedNext(p, a))
  {
    FlightStep(p.sys, a);
  }

  lemma {:induction false} AlwaysOnTime(w: Pace, window: int, ps: seq<Paced>, acts: seq<Action>, k: nat)
    requires PacedBehaviour(w, window, ps, acts) && k <= |acts|
    ensures OnTime(w, ps[k]) && Invariant(ps[k].sys) && ps[k].sys.fsm.window == window
  {
    if k > 0 {
      AlwaysOnTime(w, window, ps, acts, k - 1);
      assert PacedEnabled(w, ps[k - 1], acts[k - 1]) && ps[k] == PacedNext(ps[k - 1], acts[k - 1]);
      OnTimeKept(w, ps[k - 1], acts[k - 1]);
      InvariantKept(ps[k - 1].sys, acts[k - 1]);
    }
  }

  // How an episode stays under watch.

  /** The handling of a close, a disarm, an authorisation that is let through, or a timeout that raises the
      alarm. */
  predicate Resolves(s: Sys, a: Action) {
    && a.ControlStep? && s.control.Took?
    && match s.control.post.event.kind
       case DoorClosed => true
       case DisarmSystem => true
       case AuthorizedByNfc => Next(s, a).fsm.state == AuthorizedEntry
       case AuthorizedByApp => Next(s, a).fsm.state == AuthorizedEntry
       case VerificationTimeout => Next(s, a).fsm.state == AlarmActive
       case _ => false
  }

  lemma StaysPending(s: Sys, a: Action)
    requires Enabled(s, a) && s.fsm.state == PendingVerification && !Resolves(s, a)
    ensures Next(s, a).fsm.state == PendingVerification && Next(s, a).fsm.deadline == s.fsm.deadline
  {
  }

  /** The timer's locals belong to the pending episode. */
  predicate Watching(pc: Timer, deadline: int) {
    match pc
    case AtHead => true
    case Sleeping => true
    case Saw(cur) => cur == PendingVerification
    case Stamped(cur) => cur == PendingVerification
    case Measured(cur, _) => cur == PendingVerification
    case PastSilence(cur, _) => cur == PendingVerification
    case PastReset(cur) => cur == PendingVerification
    case Read(cur, d) => cur == PendingVerification && d == Some(deadline)
    case Due(due) => due == deadline
    case Stopped => false
  }

  /** Post i in flight is of the given kind and was accepted by the given time. */
  ghost predicate InFlightBy(p: Paced, kind: EventType, i: int, time: int)
    requires |p.postedAt| == |InFlight(p.sys)|
  {
    0 <= i < |p.postedAt| && InFlight(p.sys)[i].event.kind == kind && p.postedAt[i] <= time
  }

  ghost predicate TimeoutPosted(w: Pace, p: Paced, i: int, latest: int)
    requires |p.postedAt| == |InFlight(p.sys)|
  {
    InFlightBy(p, VerificationTimeout, i, latest + 2 * w.round)
  }

  /** The timer's round began in time for another one; or it began after the deadline, in time to report it;
      or the report is on its way. */
  ghost predicate Watched(w: Pace, p: Paced, deadline: int, latest: int)
    requires |p.postedAt| == |InFlight(p.sys)|
  {
    || p.roundAt <= latest
    || (p.roundAt <= latest + w.round && Watching(p.sys.timer.pc, deadline))
    || exists i :: TimeoutPosted(w, p, i, latest)
  }

  lemma WatchedByTimer(w: Pace, p: Paced, deadline: int, latest: int)
    requires OnTime(w, p) && PacedEnabled(w, p, TimerStep)
    requires Live(p.sys) && p.sys.fsm.state == PendingVerification && p.sys.fsm.deadline == Some(deadline)
    requires deadline <= latest && Watched(w, p, deadline, latest)
    requires |PacedNext(p, TimerStep).postedAt| == |InFlight(PacedNext(p, TimerStep).sys)|
    ensures Watched(w, PacedNext(p, TimerStep), deadline, latest)
  {
    var (s, q) := (p.sys, PacedNext(p, TimerStep));
    if i :| TimeoutPosted(w, p, i, latest) {
      TimerAppends(s);
      assert TimeoutPosted(w, q, i, latest);
    } else if latest < p.roundAt && s.timer.pc.Due? {
      assert InFlight(q.sys) == InFlight(s) + [TimeoutPost(s.timer.pc.due)];
      assert TimeoutPosted(w, q, |p.postedAt|, latest);
    }
  }

  lemma TimerAppends(s: Sys)
    requires Enabled(s, TimerStep)
    ensures var (x, y) := (InFlight(s), InFlight(Next(s, TimerStep)));
            y == x || (|y| == |x| + 1 && y[..|x|] == x)
  {
  }

  lemma WatchedByOthers(w: Pace, p: Paced, a: Action, deadline: int, latest: int)
    requires OnTime(w, p) && PacedEnabled(w, p, a) && !a.TimerStep?
    requires NoShutdown(InFlight(p.sys))
    requires p.sys.fsm.state == PendingVerification && !Resolves(p.sys, a)
    requires Watched(w, p, deadline, latest)
    requires |PacedNext(p, a).postedAt| == |InFlight(PacedNext(p, a).sys)|
    ensures Watched(w, PacedNext(p, a), deadline, latest)
  {
    OthersLeaveTimer(p.sys, a);
    if i :| TimeoutPosted(w, p, i, latest) {
      TimeoutResolves(p.sys, a);
      var j := PostMovesUp(p, a, VerificationTimeout, i, latest + 2 * w.round);
      assert TimeoutPosted(w, PacedNext(p, a), j, latest);
    }
  }

  lemma OthersLeaveTimer(s: Sys, a: Action)
    requires Enabled(s, a) && !a.TimerStep?
    ensures Next(s, a).timer == s.timer
  {
  }

  lemma TimeoutResolves(s: Sys, a: Action)
    requires Enabled(s, a) && s.fsm.state == PendingVerification && !Resolves(s, a)
    ensures !(a.ControlStep? && s.control.Took? && s.control.post.event.kind == VerificationTimeout)
  {
  }

  /** Posts and their times move together: nothing changes, one comes in behind, or the first leaves. */
  ghost predicate Follows(p: Paced, q: Paced) {
    var (x, y) := (InFlight(p.sys), InFlight(q.sys));
    || (y == x && q.postedAt == p.postedAt)
    || (|y| == |x| + 1 && y[..|x|] == x && q.postedAt == p.postedAt + [q.sys.clock])
    || HeadLeft(p, q)
  }

  ghost predicate HeadLeft(p: Paced, q: Paced) {
    && InFlight(p.sys) != [] && InFlight(q.sys) == InFlight(p.sys)[1..]
    && p.postedAt != [] && q.postedAt == p.postedAt[1..]
  }

  lemma TimesFollow(p: Paced, a: Action)
    requires Enabled(p.sys, a) && |p.postedAt| == |InFlight(p.sys)|
    ensures Follows(p, PacedNext(p, a)) && (HeadLeft(p, PacedNext(p, a)) ==> a.ControlStep?)
  {
    FlightStep(p.sys, a);
  }

  lemma StillInFlight(p: Paced, q: Paced, kind: EventType, i: nat, time: int) returns (j: nat)
    requires |p.postedAt| == |InFlight(p.sys)| && |q.postedAt| == |InFlight(q.sys)| && Follows(p, q)
    requires InFlightBy(p, kind, i, time) && (HeadLeft(p, q) ==> i > 0)
    ensures InFlightBy(q, kind, j, time)
  {
    j := if HeadLeft(p, q) then i - 1 else i;
    assert InFlight(q.sys)[j] == InFlight(p.sys)[i] && q.postedAt[j] == p.postedAt[i];
  }

  lemma OtherHead(s: Sys, a: Action, kind: EventType)
    requires Enabled(s, a) && NoShutdown(InFlight(s)) && a.ControlStep?
    requires !(s.control.Took? && s.control.post.event.kind == kind)
    requires |InFlight(Next(s, a))| < |InFlight(s)|
    ensures InFlight(s)[0].event.kind != kind
  {
    HeadHandled(s);
  }

  /** A post in flight stays in flight, perhaps one place further up, until it is handled itself. */
  lemma PostMovesUp(p: Paced, a: Action, kind: EventType, i: nat, time: int) returns (j: nat)
    requires |p.postedAt| == |InFlight(p.sys)| && Enabled(p.sys, a) && NoShutdown(InFlight(p.sys))
    requires !(a.ControlStep? && p.sys.control.Took? && p.sys.control.post.event.kind == kind)
    requires InFlightBy(p, kind, i, time)
    requires |PacedNext(p, a).postedAt| == |InFlight(PacedNext(p, a).sys)|
    ensures InFlightBy(PacedNext(p, a), kind, j, time)
  {
    TimesFollow(p, a);
    if HeadLeft(p, PacedNext(p, a)) {
      OtherHead(p.sys, a, kind);
    }
    j := StillInFlight(p, PacedNext(p, a), kind, i, time);
  }

  /** Taking a post that is no Shutdown keeps it in flight. */
  lemma TakenStaysInFlight(s: Sys)
    requires Enabled(s, ControlStep) && NoShutdown(InFlight(s)) && s.control.Waiting?
    ensures InFlight(Next(s, ControlStep)) == InFlight(s)
  {
    assert s.queue.items != [] ==> InFlight(s)[0] == s.queue.items[0];
  }

  /** Without a Shutdown in flight, a post only leaves by being handled. */
  lemma HeadHandled(s: Sys)
    requires Enabled(s, ControlStep) && NoShutdown(InFlight(s))
    requires |InFlight(Next(s, ControlStep))| < |InFlight(s)|
    ensures s.control.Took? && InFlight(s)[0] == s.control.post
  {
    if s.control.Waiting? {
      TakenStaysInFlight(s);
    }
  }

  // Every opening is resolved in bounded time.

  ghost predicate Opens(ps: seq<Paced>, acts: seq<Action>, k: int) {
    0 <= k < |acts| && k < |ps| && acts[k].ControlStep? && TakesOpening(ps[k].sys)
  }

  /** The later of an opening and its deadline. */
  function Latest(openedAt: int, window: int): int {
    if window >= 0 then openedAt + window else openedAt
  }

  /** Two rounds for the timer to notice and one handling for its report. */
  function Limit(w: Pace, latest: int): int {
    latest + 2 * w.round + w.handling
  }

  ghost predicate ResolvedBy(ps: seq<Paced>, acts: seq<Action>, k: int, m: int, j: int, limit: int) {
    0 <= k < j < m <= |acts| < |ps| && Resolves(ps[j].sys, acts[j]) && ps[j].sys.clock <= limit
  }

  ghost predicate UnderWatch(w: Pace, p: Paced, deadline: int, latest: int) {
    && |p.postedAt| == |InFlight(p.sys)|
    && p.sys.fsm.state == PendingVerification && p.sys.fsm.deadline == Some(deadline)
    && Watched(w, p, deadline, latest)
  }

  lemma OpeningWatched(w: Pace, p: Paced, window: int)
    requires OnTime(w, p) && Enabled(p.sys, ControlStep) && TakesOpening(p.sys) && p.sys.fsm.window == window
    requires OnTime(w, PacedNext(p, ControlStep))
    ensures UnderWatch(w, PacedNext(p, ControlStep), p.sys.clock + window, Latest(p.sys.clock, window))
  {
  }

  lemma UnderWatchKept(w: Pace, p: Paced, a: Action, deadline: int, latest: int)
    requires OnTime(w, p) && Conserved(p.sys) && PacedEnabled(w, p, a) && Live(p.sys)
    requires UnderWatch(w, p, deadline, latest) && deadline <= latest && !Resolves(p.sys, a)
    ensures UnderWatch(w, PacedNext(p, a), deadline, latest)
  {
    OnTimeKept(w, p, a);
    StaysPending(p.sys, a);
    if a.TimerStep? {
      WatchedByTimer(w, p, deadline, latest);
    } else {
      NothingStops(p.sys);
      WatchedByOthers(w, p, a, deadline, latest);
    }
  }

  lemma NothingStops(s: Sys)
    requires Conserved(s) && Live(s)
    ensures !s.control.Exited? && NoShutdown(InFlight(s))
  {
    if !s.control.Exited? {
      var n := |s.hist.handled|;
      forall i | 0 <= i < |InFlight(s)| ensures InFlight(s)[i].event.kind != Shutdown {
        assert s.hist.accepted[n + i] == InFlight(s)[i];
      }
    }
  }

  /** While watched, time has not run out. */
  lemma NotYetLate(w: Pace, p: Paced, deadline: int, latest: int)
    requires OnTime(w, p) && Conserved(p.sys) && Live(p.sys) && UnderWatch(w, p, deadline, latest)
    requires !p.sys.timer.pc.Stopped?
    ensures p.sys.clock <= Limit(w, latest)
  {
    NothingStops(p.sys);
  }

  lemma {:induction false} TimerRuns(w: Pace, window: int, ps: seq<Paced>, acts: seq<Action>, k: nat)
    requires PacedBehaviour(w, window, ps, acts) && k <= |acts| && ps[k].sys.running
    ensures !ps[k].sys.timer.pc.Stopped?
  {
    if k > 0 {
      assert PacedEnabled(w, ps[k - 1], acts[k - 1]) && ps[k] == PacedNext(ps[k - 1], acts[k - 1]);
      TimerRuns(w, window, ps, acts, k - 1);
    }
  }

  /** One more step of a watched episode resolves it in time or leaves it under watch. */
  lemma WatchStep(w: Pace, window: int, ps: seq<Paced>, acts: seq<Action>, k: nat, n: nat, deadline: int, latest: int)
    requires PacedBehaviour(w, window, ps, acts) && k < n < |acts| && Live(ps[n].sys)
    requires UnderWatch(w, ps[n], deadline, latest) && deadline <= latest
    ensures ResolvedBy(ps, acts, k, n + 1, n, Limit(w, latest)) || UnderWatch(w, ps[n + 1], deadline, latest)
  {
    AlwaysOnTime(w, window, ps, acts, n);
    TimerRuns(w, window, ps, acts, n);
    NotYetLate(w, ps[n], deadline, latest);
    assert PacedEnabled(w, ps[n], acts[n]) && ps[n + 1] == PacedNext(ps[n], acts[n]);
    if !Resolves(ps[n].sys, acts[n]) {
      UnderWatchKept(w, ps[n], acts[n], deadline, latest);
    }
  }

  lemma FirstWatch(w: Pace, window: int, ps: seq<Paced>, acts: seq<Action>, k: nat)
    requires PacedBehaviour(w, window, ps, acts) && Opens(ps, acts, k)
    ensures UnderWatch(w, ps[k + 1], ps[k].sys.clock + window, Latest(ps[k].sys.clock, window))
  {
    AlwaysOnTime(w, window, ps, acts, k);
    AlwaysOnTime(w, window, ps, acts, k + 1);
    assert PacedEnabled(w, ps[k], acts[k]) && ps[k + 1] == PacedNext(ps[k], acts[k]);
    OpeningWatched(w, ps[k], window);
  }

  lemma {:induction false} StillLive(w: Pace, window: int, ps: seq<Paced>, acts: seq<Action>, n: nat, m: nat)
    requires PacedBehaviour(w, window, ps, acts) && n <= m <= |acts| && Live(ps[m].sys)
    ensures Live(ps[n].sys)
    decreases m
  {
    if n < m {
      assert PacedEnabled(w, ps[m - 1], acts[m - 1]) && ps[m] == PacedNext(ps[m - 1], acts[m - 1]);
      LiveBefore(ps[m - 1].sys, acts[m - 1]);
      StillLive(w, window, ps, acts, n, m - 1);
    }
  }

  lemma StaysResolved(ps: seq<Paced>, acts: seq<Action>, k: nat, m: nat, j: int, limit: int)
    requires ResolvedBy(ps, acts, k, m, j, limit) && m < |acts|
    ensures ResolvedBy(ps, acts, k, m + 1, j, limit)
  {
  }

  /** Up to step m, the opening at k has been resolved in time or is still under watch. */
  lemma {:induction false} ResolvedOrWatched(w: Pace, window: int, ps: seq<Paced>, acts: seq<Action>, k: nat, m: nat)
    requires PacedBehaviour(w, window, ps, acts) && Opens(ps, acts, k) && k < m <= |acts| && Live(ps[m].sys)
    ensures var latest := Latest(ps[k].sys.clock, window);
            || (exists j :: ResolvedBy(ps, acts, k, m, j, Limit(w, latest)))
            || UnderWatch(w, ps[m], ps[k].sys.clock + window, latest)
    decreases m
  {
    var deadline, latest := ps[k].sys.clock + window, Latest(ps[k].sys.clock, window);
    var n := m - 1;
    if n == k {
      FirstWatch(w, window, ps, acts, k);
    } else {
      StillLive(w, window, ps, acts, n, m);
      ResolvedOrWatched(w, window, ps, acts, k, n);
      if j :| ResolvedBy(ps, acts, k, n, j, Limit(w, latest)) {
        StaysResolved(ps, acts, k, n, j, Limit(w, latest));
      } else {
        WatchStep(w, window, ps, acts, k, n, deadline, latest);
      }
    }
  }

  /** No missed alarm.  In every run whose timer rounds and handling keep their bounds, an opening handled in
      ArmedIdle is followed, at most two rounds and one handling after its deadline, by a handled close, a
      disarm, an authorisation let through, or the alarm - unless the system is being stopped. */
  lemma NoMissedAlarm(w: Pace, window: int, ps: seq<Paced>, acts: seq<Action>, k: nat, m: nat) returns (j: nat)
    requires PacedBehaviour(w, window, ps, acts) && Opens(ps, acts, k) && k < m <= |acts| && Live(ps[m].sys)
    requires Limit(w, Latest(ps[k].sys.clock, window)) < ps[m].sys.clock
    ensures k < j < m && Resolves(ps[j].sys, acts[j])
    ensures ps[j].sys.clock <= Limit(w, Latest(ps[k].sys.clock, window))
  {
    var deadline, latest := ps[k].sys.clock + window, Latest(ps[k].sys.clock, window);
    ResolvedOrWatched(w, window, ps, acts, k, m);
    if UnderWatch(w, ps[m], deadline, latest) {
      AlwaysOnTime(w, window, ps, acts, m);
      TimerRuns(w, window, ps, acts, m);
      NotYetLate(w, ps[m], deadline, latest);
    }
    j :| ResolvedBy(ps, acts, k, m, j, Limit(w, latest));
  }
}
