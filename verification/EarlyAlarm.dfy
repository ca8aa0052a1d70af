/** Exactly when an alarm can come before the pending deadline: when a timeout left over from an earlier
    episode is still on its way and nothing queued before it ends the present one. */
module EarlyAlarm {
  import opened Events
  import opened AlarmFsm
  import opened AlarmSystem

  /** Events whose handling ends a pending episode, or the control loop. */
  predicate Closing(k: EventType) {
    k == DoorClosed || k == DisarmSystem || k == Shutdown
  }

  ghost predicate NoClosing(ps: seq<Post>) {
    forall k :: 0 <= k < |ps| ==> !Closing(ps[k].event.kind)
  }

  /** A timeout waits at position i with nothing before it to end the episode. */
  ghost predicate TimeoutAhead(ps: seq<Post>, i: int) {
    && 0 <= i < |ps| && ps[i].event.kind == VerificationTimeout
    && forall k :: 0 <= k < i ==> !Closing(ps[k].event.kind)
  }

  ghost predicate SomeTimeoutAhead(ps: seq<Post>) {
    exists i :: TimeoutAhead(ps, i)
  }

  /** The timer is about to post a timeout for a deadline before the given one. */
  predicate TimerHolds(t: Timer, deadline: int) {
    t.Due? || (t.Read? && t.cur == PendingVerification && t.deadline.Some? && t.deadline.value < deadline)
  }

  ghost predicate TimerAhead(s: Sys, deadline: int) {
    !s.queue.closed && NoClosing(InFlight(s)) && TimerHolds(s.timer.pc, deadline)
  }

  ghost predicate LeftOver(s: Sys, deadline: int) {
    !s.control.Exited? &&
    (SomeTimeoutAhead(InFlight(s)) || TimerAhead(s, deadline))
  }

  /** Verification is pending with this deadline still to come (the control loop never holds a Shutdown). */
  ghost predicate PendingUntil(s: Sys, deadline: int) {
    && s.fsm.state == PendingVerification && s.fsm.deadline == Some(deadline) && s.clock < deadline
    && (s.control.Took? ==> s.control.post.event.kind != Shutdown)
  }

  /** A continuation: pending with this deadline all along, until the last step enters AlarmActive early. */
  ghost predicate AlarmsEarly(s: Sys, acts: seq<Action>, deadline: int)
    decreases |acts|
  {
    && acts != [] && PendingUntil(s, deadline) && Enabled(s, acts[0])
    && if |acts| == 1 then Next(s, acts[0]).fsm.state == AlarmActive
       else AlarmsEarly(Next(s, acts[0]), acts[1..], deadline)
  }

  ghost predicate CanAlarmEarly(s: Sys, deadline: int) {
    exists acts :: AlarmsEarly(s, acts, deadline)
  }

  // A left-over timeout does alarm early in some continuation.

  lemma LastStep(s: Sys, deadline: int)
    requires PendingUntil(s, deadline) && s.control.Took? && s.control.post.event.kind == VerificationTimeout
    ensures CanAlarmEarly(s, deadline)
  {
    assert AlarmsEarly(s, [ControlStep], deadline);
  }

  lemma OneStepEarlier(s: Sys, a: Action, deadline: int)
    requires PendingUntil(s, deadline) && Enabled(s, a) && CanAlarmEarly(Next(s, a), deadline)
    ensures CanAlarmEarly(s, deadline)
  {
    var acts :| AlarmsEarly(Next(s, a), acts, deadline);
    assert ([a] + acts)[1..] == acts;
    assert AlarmsEarly(s, [a] + acts, deadline);
  }

  /** With the door open, handling what is queued before the timeout keeps the episode. */
  lemma {:induction false} QueuedTimeoutAlarms(s: Sys, deadline: int, i: nat)
    requires PendingUntil(s, deadline) && s.fsm.doorOpen && !s.control.Exited? && TimeoutAhead(InFlight(s), i)
    ensures CanAlarmEarly(s, deadline)
    decreases i, if s.control.Took? then 0 else if s.control.Waiting? then 1 else 2
  {
    var t := Next(s, ControlStep);
    match s.control
    case InHandler(_) =>
      QueuedTimeoutAlarms(t, deadline, i);
      OneStepEarlier(s, ControlStep, deadline);
    case Waiting =>
      assert InFlight(s) == s.queue.items && !(i > 0 && Closing(s.queue.items[0].event.kind));
      assert InFlight(t) == InFlight(s);
      QueuedTimeoutAlarms(t, deadline, i);
      OneStepEarlier(s, ControlStep, deadline);
    case Took(p) =>
      if p.event.kind == VerificationTimeout {
        LastStep(s, deadline);
      } else {
        HeadKeepsEpisode(s, deadline, i);
        QueuedTimeoutAlarms(t, deadline, i - 1);
        OneStepEarlier(s, ControlStep, deadline);
      }
  }

  lemma HeadKeepsEpisode(s: Sys, deadline: int, i: nat)
    requires PendingUntil(s, deadline) && s.fsm.doorOpen && s.control.Took?
    requires TimeoutAhead(InFlight(s), i) && s.control.post.event.kind != VerificationTimeout
    ensures i > 0
    ensures var t := Next(s, ControlStep);
            PendingUntil(t, deadline) && t.fsm.doorOpen && t.control.InHandler? && TimeoutAhead(InFlight(t), i - 1)
  {
    assert InFlight(s)[0] == s.control.post;
    assert !Closing(s.control.post.event.kind);
    assert forall k :: 0 <= k < |s.queue.items| ==> s.queue.items[k] == InFlight(s)[k + 1];
  }

  /** The reed can always open the door first. */
  lemma {:induction false} AnyQueuedTimeoutAlarms(s: Sys, deadline: int, i: nat)
    requires PendingUntil(s, deadline) && !s.control.Exited? && TimeoutAhead(InFlight(s), i)
    ensures CanAlarmEarly(s, deadline)
    decreases s.control.InHandler?, s.reed.Reported?
  {
    if s.fsm.doorOpen {
      QueuedTimeoutAlarms(s, deadline, i);
    } else if s.control.InHandler? {
      AnyQueuedTimeoutAlarms(Next(s, ControlStep), deadline, i);
      OneStepEarlier(s, ControlStep, deadline);
    } else if s.reed.Reported? {
      var t := Next(s, ReedPush);
      AheadAfterPost(s, Post(ReedEvent(s.reed.isOpen), None), i);
      AnyQueuedTimeoutAlarms(t, deadline, i);
      OneStepEarlier(s, ReedPush, deadline);
    } else {
      QueuedTimeoutAlarms(Next(s, ReedSet(true)), deadline, i);
      OneStepEarlier(s, ReedSet(true), deadline);
    }
  }

  lemma AheadAfterPost(s: Sys, p: Post, i: nat)
    requires TimeoutAhead(InFlight(s), i)
    ensures TimeoutAhead(InFlight(Posted(s, p)), i)
  {
    if !s.queue.closed {
      assert InFlight(Posted(s, p)) == InFlight(s) + [p];
    }
  }

  /** A timer about to post will post in time. */
  lemma {:induction false} TimerAlarms(s: Sys, deadline: int)
    requires PendingUntil(s, deadline) && !s.control.Exited? && TimerAhead(s, deadline)
    ensures CanAlarmEarly(s, deadline)
    decreases s.timer.pc.Read?, if s.timer.pc.Read? then s.clock < s.timer.pc.deadline.value else false
  {
    if s.timer.pc.Due? {
      var t := Next(s, TimerStep);
      var q := InFlight(s);
      assert InFlight(t) == q + [TimeoutPost(s.timer.pc.due)];
      assert TimeoutAhead(InFlight(t), |q|);
      AnyQueuedTimeoutAlarms(t, deadline, |q|);
      OneStepEarlier(s, TimerStep, deadline);
    } else if s.clock < s.timer.pc.deadline.value {
      var wait := Tick(s.timer.pc.deadline.value - s.clock);
      TimerAlarms(Next(s, wait), deadline);
      OneStepEarlier(s, wait, deadline);
    } else {
      TimerAlarms(Next(s, TimerStep), deadline);
      OneStepEarlier(s, TimerStep, deadline);
    }
  }

  // Without a left-over timeout no continuation does.

  /** Nothing becomes left over while the episode lasts. */
  lemma NothingLeftOverKept(s: Sys, a: Action, deadline: int)
    requires PendingUntil(s, deadline) && Enabled(s, a) && !LeftOver(s, deadline)
    requires PendingUntil(Next(s, a), deadline)
    ensures !LeftOver(Next(s, a), deadline)
  {
    match a
    case ReedPush => NotLeftOverByPost(s, Post(ReedEvent(s.reed.isOpen), None), deadline);
    case External(e) => NotLeftOverByPost(s, Post(e, None), deadline);
    case ControlStep => NotLeftOverByControl(s, deadline);
    case TimerStep => NotLeftOverByTimer(s, deadline);
    case _ =>
  }

  /** A timeout ahead in a longer queue was ahead before, or is the new post with nothing to stop it. */
  lemma AheadOfAppended(q: seq<Post>, p: Post)
    ensures SomeTimeoutAhead(q + [p]) ==>
      SomeTimeoutAhead(q) || (p.event.kind == VerificationTimeout && NoClosing(q))
    ensures NoClosing(q + [p]) ==> NoClosing(q)
  {
    assert forall k :: 0 <= k < |q| ==> (q + [p])[k] == q[k];
    if i :| TimeoutAhead(q + [p], i) {
      assert TimeoutAhead(q, i) || i == |q|;
    }
  }

  /** A timeout ahead behind a head that ends nothing was ahead already. */
  lemma AheadOfTail(p: Post, q: seq<Post>)
    requires !Closing(p.event.kind)
    ensures SomeTimeoutAhead(q) ==> SomeTimeoutAhead([p] + q)
    ensures NoClosing(q) ==> NoClosing([p] + q)
  {
    if i :| TimeoutAhead(q, i) {
      assert TimeoutAhead([p] + q, i + 1);
    }
  }

  lemma NotLeftOverByPost(s: Sys, p: Post, deadline: int)
    requires !LeftOver(s, deadline)
    requires p.event.kind == VerificationTimeout ==> TimerHolds(s.timer.pc, deadline)
    ensures !LeftOver(Posted(s, p), deadline)
  {
    if !s.queue.closed {
      assert InFlight(Posted(s, p)) == InFlight(s) + [p];
      AheadOfAppended(InFlight(s), p);
    }
  }

  lemma NotLeftOverByControl(s: Sys, deadline: int)
    requires PendingUntil(s, deadline) && Enabled(s, ControlStep) && !LeftOver(s, deadline)
    requires PendingUntil(Next(s, ControlStep), deadline)
    ensures !LeftOver(Next(s, ControlStep), deadline)
  {
    var t := Next(s, ControlStep);
    if s.control.Took? {
      assert InFlight(t) == s.queue.items && InFlight(s) == [s.control.post] + s.queue.items;
      assert !Closing(s.control.post.event.kind);
      AheadOfTail(s.control.post, s.queue.items);
    } else if !t.control.Exited? {
      assert InFlight(t) == InFlight(s);
    }
  }

  lemma NotLeftOverByTimer(s: Sys, deadline: int)
    requires PendingUntil(s, deadline) && Enabled(s, TimerStep) && !LeftOver(s, deadline)
    ensures !LeftOver(Next(s, TimerStep), deadline)
  {
    NotLeftOverByPost(s, AUTO_RESET, deadline);
    if s.timer.pc.Due? {
      NotLeftOverByPost(s, TimeoutPost(s.timer.pc.due), deadline);
    }
    var x, t := TimerActs(s), Next(s, TimerStep);
    assert !LeftOver(x, deadline);
    assert InFlight(t) == InFlight(x);
    assert TimerHolds(t.timer.pc, deadline) ==> TimerHolds(s.timer.pc, deadline);
  }

  lemma {:induction false} NoEarlyAlarm(s: Sys, acts: seq<Action>, deadline: int)
    requires !LeftOver(s, deadline)
    ensures !AlarmsEarly(s, acts, deadline)
    decreases |acts|
  {
    if acts != [] && PendingUntil(s, deadline) && Enabled(s, acts[0]) {
      var t := Next(s, acts[0]);
      if |acts| == 1 {
        if t.fsm.state == AlarmActive {
          EntersByTimeout(s, acts[0], deadline);
        }
      } else if PendingUntil(t, deadline) {
        NothingLeftOverKept(s, acts[0], deadline);
        NoEarlyAlarm(t, acts[1..], deadline);
      }
    }
  }

  lemma EntersByTimeout(s: Sys, a: Action, deadline: int)
    requires Enabled(s, a) && s.fsm.state == PendingVerification && Next(s, a).fsm.state == AlarmActive
    ensures LeftOver(s, deadline)
  {
    assert s.control.Took? && TimeoutAhead(InFlight(s), 0);
  }

  /** While an episode is pending, some continuation raises its alarm before its deadline if and only if
      a timeout left over from an earlier episode is queued, or about to be posted by the timer, with
      nothing ahead of it that ends the episode. */
  lemma EarlyAlarmIff(s: Sys, deadline: int)
    requires PendingUntil(s, deadline)
    ensures CanAlarmEarly(s, deadline) <==> LeftOver(s, deadline)
  {
    if LeftOver(s, deadline) {
      if i :| TimeoutAhead(InFlight(s), i) {
        AnyQueuedTimeoutAlarms(s, deadline, i);
      } else {
        TimerAlarms(s, deadline);
      }
    } else if CanAlarmEarly(s, deadline) {
      var acts :| AlarmsEarly(s, acts, deadline);
      NoEarlyAlarm(s, acts, deadline);
    }
  }
}
