/** Properties of whole runs of the interleaved alarm system. */
module AlarmRuns {
  import opened Events
  import opened AlarmFsm
  import opened AlarmSystem
  import opened AlarmInvariants

  /** At step j the timer clears the alarm flag, and up to k no alarm has been raised since. */
  ghost predicate SilencedSince(b: seq<Sys>, acts: seq<Action>, k: int, j: int) {
    && 0 <= j < k <= |acts| < |b| && acts[j].TimerStep? && Silences(b[j])
    && forall i :: j < i < k ==> !Raises(b[i], acts[i])
  }

  /** The step is the alarm operation of a timeout. */
  predicate Raises(s: Sys, a: Action) {
    a.ControlStep? && s.control.InHandler? && s.control.op.Trigger?
  }

  lemma {:induction false} SilencedHistory(window: int, b: seq<Sys>, acts: seq<Action>, k: nat)
    requires Behaviour(window, b, acts) && k <= |acts|
    ensures b[k].hist.silenced <==> exists j :: SilencedSince(b, acts, k, j)
  {
    if k > 0 {
      SilencedHistory(window, b, acts, k - 1);
      SilencedStep(b[k - 1], acts[k - 1]);
      SilencedExtended(b, acts, k - 1, k);
    }
  }

  lemma SilencedExtended(b: seq<Sys>, acts: seq<Action>, k: nat, next: nat)
    requires k < |acts| < |b| && next == k + 1
    ensures (exists j :: SilencedSince(b, acts, next, j)) <==>
            || (acts[k].TimerStep? && Silences(b[k]))
            || (!Raises(b[k], acts[k]) && exists j :: SilencedSince(b, acts, k, j))
  {
    if acts[k].TimerStep? && Silences(b[k]) {
      assert SilencedSince(b, acts, next, k);
    } else if j :| SilencedSince(b, acts, next, j) {
      assert SilencedSince(b, acts, k, j);
    } else if j :| SilencedSince(b, acts, k, j) {
      assert !Raises(b[k], acts[k]) ==> SilencedSince(b, acts, next, j);
    }
  }

  lemma SilencedStep(s: Sys, a: Action)
    requires Enabled(s, a)
    ensures Next(s, a).hist.silenced <==> (a.TimerStep? && Silences(s)) || (s.hist.silenced && !Raises(s, a))
  {
  }

  /** In every reachable state a deadline is set exactly while pending, Fault is never entered, and
      whenever the state machine's mutex is free the alarm flag is set exactly in AlarmActive unless the timer
      has cleared it since it was last raised. */
  lemma AlarmAgreesWithState(window: int, b: seq<Sys>, acts: seq<Action>, k: nat)
    requires Behaviour(window, b, acts) && k <= |acts|
    ensures b[k].fsm.state != Fault
    ensures b[k].fsm.deadline.Some? <==> b[k].fsm.state == PendingVerification
    ensures FsmFree(b[k]) ==>
      (b[k].alarmActive <==> b[k].fsm.state == AlarmActive && !exists j :: SilencedSince(b, acts, k, j))
  {
    AlwaysInvariant(window, b, acts, k);
    SilencedHistory(window, b, acts, k);
  }

  /** Step j is the handling of a door opening that starts an episode. */
  ghost predicate Opens(b: seq<Sys>, acts: seq<Action>, j: int) {
    0 <= j < |acts| && j < |b| && acts[j].ControlStep? && TakesOpening(b[j])
  }

  /** From just after step j up to k, verification has been pending with one and the same deadline. */
  ghost predicate SameEpisode(b: seq<Sys>, j: int, k: int, deadline: int) {
    forall i :: 0 <= i < |b| && j < i <= k ==>
      b[i].fsm.state == PendingVerification && b[i].fsm.deadline == Some(deadline)
  }

  /** Whenever verification is pending, one opening started this episode, the deadline is that
      opening's time plus the window, and it has not moved since. */
  lemma {:induction false} EpisodeDeadline(window: int, b: seq<Sys>, acts: seq<Action>, k: nat) returns (j: nat)
    requires Behaviour(window, b, acts) && k <= |acts|
    requires b[k].fsm.state == PendingVerification
    ensures j < k && Opens(b, acts, j) && SameEpisode(b, j, k, b[j].clock + window)
  {
    var s := b[k - 1];
    AlwaysInvariant(window, b, acts, k - 1);
    assert Enabled(s, acts[k - 1]) && b[k] == Next(s, acts[k - 1]);
    if s.fsm.state == PendingVerification {
      j := EpisodeDeadline(window, b, acts, k - 1);
      PendingKeepsDeadline(s, acts[k - 1]);
    } else {
      PendingStartsWithOpening(s, acts[k - 1]);
      j := k - 1;
    }
  }

  lemma PendingKeepsDeadline(s: Sys, a: Action)
    requires Enabled(s, a)
    requires s.fsm.state == PendingVerification && Next(s, a).fsm.state == PendingVerification
    ensures Next(s, a).fsm.deadline == s.fsm.deadline
  {
  }

  lemma PendingStartsWithOpening(s: Sys, a: Action)
    requires Enabled(s, a)
    requires s.fsm.state != PendingVerification && Next(s, a).fsm.state == PendingVerification
    ensures a.ControlStep? && TakesOpening(s) && Next(s, a).fsm.deadline == Some(s.clock + s.fsm.window)
  {
  }

  lemma AlarmStartsWithTimeout(s: Sys, a: Action)
    requires Enabled(s, a)
    requires s.fsm.state != AlarmActive && Next(s, a).fsm.state == AlarmActive
    ensures a.ControlStep? && s.control.Took? && s.control.post.event.kind == VerificationTimeout
    ensures s.fsm.state == PendingVerification
  {
  }

  /** The recorded opening times are those of earlier openings in the run. */
  lemma {:induction false} OpeningHappened(window: int, b: seq<Sys>, acts: seq<Action>, k: nat, o: int)
    returns (j: nat)
    requires Behaviour(window, b, acts) && k <= |acts| && o in b[k].hist.openings
    ensures j < k && Opens(b, acts, j) && b[j].clock == o
  {
    var s, a := b[k - 1], acts[k - 1];
    assert Enabled(s, a) && b[k] == Next(s, a);
    if o in s.hist.openings {
      j := OpeningHappened(window, b, acts, k - 1, o);
    } else {
      NewOpening(s, a, o);
      j := k - 1;
    }
  }

  lemma NewOpening(s: Sys, a: Action, o: int)
    requires Enabled(s, a) && o !in s.hist.openings && o in Next(s, a).hist.openings
    ensures a.ControlStep? && TakesOpening(s) && s.clock == o
  {
  }

  /** No alarm without a full window: in every interleaving, a step that enters AlarmActive comes at
      least the whole window after some opening that started an episode. */
  lemma NoAlarmWithoutFullWindow(window: int, b: seq<Sys>, acts: seq<Action>, k: nat) returns (j: nat)
    requires Behaviour(window, b, acts) && k < |acts|
    requires b[k].fsm.state != AlarmActive && b[k + 1].fsm.state == AlarmActive
    ensures j < k && Opens(b, acts, j) && b[j].clock + window <= b[k].clock
  {
    AlwaysInvariant(window, b, acts, k);
    AlarmStartsWithTimeout(b[k], acts[k]);
    var p := b[k].control.post;
    assert p in InFlight(b[k]) && Based(p, EpisodesOf(b[k]), b[k].clock);
    j := OpeningHappened(window, b, acts, k, p.basis.value - window);
  }

  /** If the timeout was posted for the very deadline now pending, that deadline has passed.  So an
      alarm before the pending deadline always stems from an earlier, already closed episode. */
  lemma AlarmRespectsItsOwnDeadline(window: int, b: seq<Sys>, acts: seq<Action>, k: nat)
    requires Behaviour(window, b, acts) && k < |acts|
    requires b[k].fsm.state != AlarmActive && b[k + 1].fsm.state == AlarmActive
    ensures b[k].control.Took? && b[k].fsm.deadline.Some? && b[k].control.post.basis.Some?
    ensures b[k].control.post.basis == b[k].fsm.deadline ==> b[k].fsm.deadline.value <= b[k].clock
    ensures b[k].clock < b[k].fsm.deadline.value
            ==> exists j, i :: 0 <= j < i < k && Opens(b, acts, j) && Opens(b, acts, i)
                  && b[j].clock + window == b[k].control.post.basis.value
                  && b[i].clock + window == b[k].fsm.deadline.value
  {
    AlwaysInvariant(window, b, acts, k);
    AlarmStartsWithTimeout(b[k], acts[k]);
    var p := b[k].control.post;
    assert p in InFlight(b[k]) && Based(p, EpisodesOf(b[k]), b[k].clock);
    if b[k].clock < b[k].fsm.deadline.value {
      var i := EpisodeDeadline(window, b, acts, k);
      assert SameEpisode(b, i, k, b[i].clock + window) && b[k].fsm.deadline == Some(b[i].clock + window);
      var j := OpeningHappened(window, b, acts, k, p.basis.value - window);
      ClockMonotone(window, b, acts, i, k);
      if i <= j {
        ClockMonotone(window, b, acts, i, j);
      }
      assert b[j].clock < b[i].clock;
      assert j < i;
    }
  }

  lemma {:induction false} ClockMonotone(window: int, b: seq<Sys>, acts: seq<Action>, i: nat, k: nat)
    requires Behaviour(window, b, acts) && i <= k <= |acts|
    ensures b[i].clock <= b[k].clock
    decreases k
  {
    if i < k {
      ClockMonotone(window, b, acts, i, k - 1);
      assert Enabled(b[k - 1], acts[k - 1]) && b[k] == Next(b[k - 1], acts[k - 1]);
    }
  }

  /** Until the control loop exits, what it has handled followed by what is in flight is exactly what
      the queue accepted, in order; when it exits, it has handled exactly the accepted events before
      the first Shutdown, or all of them if there is none. */
  lemma EventsConserved(window: int, b: seq<Sys>, acts: seq<Action>, k: nat)
    requires Behaviour(window, b, acts) && k <= |acts|
    ensures !b[k].control.Exited? ==> b[k].hist.accepted == b[k].hist.handled + InFlight(b[k])
    ensures b[k].control.Exited? ==> b[k].hist.handled == BeforeShutdown(b[k].hist.accepted)
  {
    AlwaysInvariant(window, b, acts, k);
    if b[k].control.Exited? {
      StopsAtShutdown(b[k].hist.handled, b[k].hist.accepted);
    }
  }

  /** What a step posts, by whom and why. */
  function PostOf(s: Sys, a: Action): seq<Post> {
    match a
    case ReedPush =>
      if s.reed == Reported(true) then [Post(Event(DoorOpened, "ReedSwitch"), None)]
      else [Post(Event(DoorClosed, "ReedSwitch"), None)]
    case External(e) => [Post(e, None)]
    case TimerStep =>
      if AutoResets(s) then [Post(Event(DoorClosed, "AutoReset"), None)]
      else if s.timer.pc.Due? then [Post(Event(VerificationTimeout, "timer"), Some(s.timer.pc.due))]
      else []
    case _ => []
  }

  ghost predicate NeverClosed(acts: seq<Action>, k: int) {
    forall j :: 0 <= j < k <= |acts| ==> !acts[j].CloseQueue?
  }

  /** Everything posted in the first k steps, up to the closing of the queue. */
  ghost function PostedBy(b: seq<Sys>, acts: seq<Action>, k: nat): seq<Post>
    requires k <= |acts| < |b|
  {
    if k == 0 then []
    else PostedBy(b, acts, k - 1) + if NeverClosed(acts, k - 1) then PostOf(b[k - 1], acts[k - 1]) else []
  }

  /** The queue accepts exactly what is posted before it is closed, in order. */
  lemma {:induction false} AcceptedIsPosted(window: int, b: seq<Sys>, acts: seq<Action>, k: nat)
    requires Behaviour(window, b, acts) && k <= |acts|
    ensures b[k].hist.accepted == PostedBy(b, acts, k)
    ensures b[k].queue.closed <==> !NeverClosed(acts, k)
  {
    if k > 0 {
      AcceptedIsPosted(window, b, acts, k - 1);
      assert Enabled(b[k - 1], acts[k - 1]) && b[k] == Next(b[k - 1], acts[k - 1]);
      PostStep(b[k - 1], acts[k - 1]);
      assert NeverClosed(acts, k) <==> NeverClosed(acts, k - 1) && !acts[k - 1].CloseQueue?;
    }
  }

  lemma PostStep(s: Sys, a: Action)
    requires Enabled(s, a)
    ensures Next(s, a).hist.accepted == s.hist.accepted + if s.queue.closed then [] else PostOf(s, a)
    ensures Next(s, a).queue.closed <==> s.queue.closed || a.CloseQueue?
  {
  }

  lemma {:induction false} StopsAtShutdown(handled: seq<Post>, accepted: seq<Post>)
    requires handled <= accepted && NoShutdown(handled)
    requires handled == accepted || accepted[|handled|].event.kind == Shutdown
    ensures handled == BeforeShutdown(accepted)
  {
    if handled != [] {
      StopsAtShutdown(handled[1..], accepted[1..]);
      assert handled == [handled[0]] + handled[1..];
    }
  }
}
