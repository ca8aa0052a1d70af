/** Concrete runs that show where the guarantees of the alarm system stop. */
module AlarmCounterexamples {
  import opened Events
  import opened AlarmFsm
  import opened Queues
  import opened AlarmSystem
  import opened AlarmRuns
  import opened EarlyDuty
  import opened DoorReports

  ghost predicate Leads(window: int, b: seq<Sys>, acts: seq<Action>, s: Sys, reed: bool) {
    Behaviour(window, b, acts) && b[|acts|] == s && LastReed(acts, |acts|) == reed
  }

  /** Some run ends in this state with the reed having last said this. */
  ghost predicate Reaches(window: int, s: Sys, reed: bool) {
    exists b, acts :: Leads(window, b, acts, s, reed)
  }

  lemma Begin(window: int) returns (s: Sys)
    ensures s == Start(window, 0) && Reaches(window, s, false)
  {
    s := Start(window, 0);
    assert Leads(window, [s], [], s, false);
  }

  lemma Step(window: int, s: Sys, reed: bool, a: Action) returns (t: Sys)
    requires Reaches(window, s, reed) && Enabled(s, a)
    ensures t == Next(s, a) && Reaches(window, t, if a.ReedSet? then a.isOpen else reed)
  {
    t := Next(s, a);
    var b, acts :| Leads(window, b, acts, s, reed);
    var b', acts' := b + [t], acts + [a];
    forall k {:trigger acts'[k]} | 0 <= k < |acts'|
      ensures Enabled(b'[k], acts'[k]) && b'[k + 1] == Next(b'[k], acts'[k])
    {
      assert k < |acts| ==> acts'[k] == acts[k] && b'[k + 1] == b[k + 1];
    }
    LastReedExtended(acts, a, |acts|);
    assert Leads(window, b', acts', t, if a.ReedSet? then a.isOpen else reed);
  }

  lemma {:induction false} LastReedExtended(acts: seq<Action>, a: Action, k: nat)
    requires k <= |acts|
    ensures LastReed(acts + [a], k) == LastReed(acts, k)
  {
    if k > 0 {
      LastReedExtended(acts, a, k - 1);
    }
  }

  /** The control loop takes the next post and handles it to the end. */
  lemma HandleNext(window: int, s: Sys, reed: bool) returns (t: Sys)
    requires Reaches(window, s, reed) && s.control.Waiting? && s.queue.items != []
    requires s.queue.items[0].event.kind != Shutdown
    ensures Reaches(window, t, reed) && t.control == Waiting && t.queue == Popped(s.queue)
    ensures var (f, op) := Update(s.fsm, s.queue.items[0].event, s.clock);
            t.fsm == f && t.alarmActive == ActiveAfter(s.alarmActive, op)
    ensures t.clock == s.clock && t.running == s.running && t.reed == s.reed && t.timer == s.timer
  {
    t := Step(window, s, reed, ControlStep);
    t := Step(window, t, reed, ControlStep);
    t := Step(window, t, reed, ControlStep);
  }

  /** The reed reports and posts. */
  lemma ReedReports(window: int, s: Sys, reed: bool, isOpen: bool) returns (t: Sys)
    requires Reaches(window, s, reed) && s.reed.ReedIdle? && FsmFree(s) && !s.queue.closed
    ensures Reaches(window, t, isOpen)
    ensures t.queue == Contents(s.queue.items + [Post(ReedEvent(isOpen), None)], false)
    ensures t.fsm == s.fsm.(doorOpen := isOpen) && t.reed == ReedIdle
    ensures t.clock == s.clock && t.running == s.running && t.control == s.control && t.timer == s.timer
    ensures t.alarmActive == s.alarmActive
  {
    t := Step(window, s, reed, ReedSet(isOpen));
    t := Step(window, t, isOpen, ReedPush);
  }

  /** The timer runs from its head until it has measured how long the current state has lasted. */
  lemma TimerMeasures(window: int, s: Sys, reed: bool) returns (t: Sys)
    requires Reaches(window, s, reed) && s.timer.pc == AtHead && s.running && s.control.Waiting?
    ensures Reaches(window, t, reed)
    ensures var since := if s.fsm.state != s.timer.lastState then s.clock else s.timer.since;
            t == s.(timer := TimerThread(Measured(s.fsm.state, s.clock - since), s.fsm.state, since))
  {
    t := Step(window, s, reed, TimerStep);
    t := Step(window, t, reed, TimerStep);
    t := Step(window, t, reed, TimerStep);
    t := Step(window, t, reed, TimerStep);
  }

  /** The rest of the timer's round when it has nothing to silence or reset. */
  lemma TimerFinishes(window: int, s: Sys, reed: bool) returns (t: Sys)
    requires Reaches(window, s, reed) && s.timer.pc.Measured? && s.control.Waiting?
    requires !Silences(s) && (s.timer.pc.cur == AuthorizedEntry ==> s.timer.pc.elapsed <= RESET_AFTER_MS)
    ensures Reaches(window, t, reed)
    ensures var due := s.timer.pc.cur == PendingVerification && s.fsm.deadline.Some? && s.clock >= s.fsm.deadline.value;
            t == s.(timer := s.timer.(pc := if due then Due(s.fsm.deadline.value) else AtHead))
  {
    t := Step(window, s, reed, TimerStep);
    t := Step(window, t, reed, TimerStep);
    t := Step(window, t, reed, TimerStep);
    t := Step(window, t, reed, TimerStep);
  }

  lemma ReachesReachable(window: int, s: Sys, reed: bool)
    requires Reaches(window, s, reed)
    ensures Reachable(window, s)
  {
    var b, acts :| Leads(window, b, acts, s, reed);
    assert Behaviour(window, b, acts) && b[|acts|] == s;
  }

  const W := 5000

  /** A verification is pending and the timer is about to post its timeout. */
  lemma TimeoutIsDue() returns (s: Sys)
    ensures Reaches(W, s, true)
    ensures s.clock == 5000 && s.fsm == Fsm(PendingVerification, true, W, Some(5000))
    ensures s.queue == Contents([], false) && s.running && s.reed == ReedIdle && s.control == Waiting
    ensures s.timer.pc == Due(5000)
  {
    s := Begin(W);
    s := ReedReports(W, s, false, true);
    s := HandleNext(W, s, true);
    s := Step(W, s, true, Tick(5000));
    s := TimerMeasures(W, s, true);
    s := TimerFinishes(W, s, true);
  }

  /** The door is closed and opened again before the timer gets to post its timeout. */
  lemma TimeoutQueuedBehindReopening() returns (s: Sys)
    ensures Reaches(W, s, true)
    ensures s.clock == 5000 && s.fsm.state == PendingVerification && s.fsm.window == W
    ensures s.control == Waiting
    ensures s.queue.items == [Post(ReedEvent(false), None), Post(ReedEvent(true), None), TimeoutPost(5000)]
  {
    s := TimeoutIsDue();
    s := ReedReports(W, s, true, false);
    s := ReedReports(W, s, false, true);
    s := Step(W, s, true, TimerStep);
  }

  /** The close and the re-opening are handled: a new episode has begun, and the old timeout is next. */
  lemma OldTimeoutIsNext() returns (s: Sys)
    ensures Reaches(W, s, true) && s.control == Waiting
    ensures s.fsm.state == PendingVerification && s.fsm.deadline == Some(s.clock + W)
    ensures s.queue.items == [TimeoutPost(5000)]
  {
    s := TimeoutQueuedBehindReopening();
    s := HandleNext(W, s, true);
    assert s.queue.items == [Post(ReedEvent(true), None), TimeoutPost(5000)];
    s := HandleNext(W, s, true);
  }

  /** A timeout can outlive its episode: handled after the close and the re-opening, it starts the
      alarm with the whole new window still to run. */
  lemma StaleTimeoutAlarms() returns (s: Sys)
    ensures Reachable(W, s)
    ensures s.fsm.state == PendingVerification && s.fsm.deadline == Some(s.clock + W)
    ensures Enabled(s, ControlStep) && Next(s, ControlStep).fsm.state == AlarmActive
  {
    s := OldTimeoutIsNext();
    s := Step(W, s, true, ControlStep);
    ReachesReachable(W, s, true);
  }

  /** The timeout has been posted, and the timer is about to post it again. */
  lemma TimeoutIsDueAgain() returns (s: Sys)
    ensures Reaches(W, s, true)
    ensures s.clock == 5000 && s.fsm == Fsm(PendingVerification, true, W, Some(5000))
    ensures s.queue == Contents([TimeoutPost(5000)], false) && s.running && s.reed == ReedIdle && s.control == Waiting
    ensures s.timer.pc == Due(5000) && s.timer.lastState == PendingVerification
  {
    s := TimeoutIsDue();
    s := Step(W, s, true, TimerStep);
    s := TimerMeasures(W, s, true);
    s := TimerFinishes(W, s, true);
  }

  /** Two timeouts of one deadline are queued, with a close and a re-opening between them. */
  lemma TwoTimeouts() returns (s: Sys)
    ensures Reaches(W, s, true)
    ensures s.clock == 5000 && s.fsm.state == PendingVerification && s.fsm.window == W
    ensures s.control == Waiting && s.running && s.timer.pc == AtHead && s.timer.lastState == PendingVerification
    ensures s.queue == Contents([TimeoutPost(5000), Post(ReedEvent(false), None), Post(ReedEvent(true), None),
                                 TimeoutPost(5000)], false)
  {
    s := TimeoutIsDueAgain();
    s := ReedReports(W, s, true, false);
    s := ReedReports(W, s, false, true);
    s := Step(W, s, true, TimerStep);
  }

  /** The first timeout has raised an alarm, and the timer counts from it. */
  lemma FirstAlarmSeen() returns (s: Sys)
    ensures Reaches(W, s, true)
    ensures s.clock == 5001 && s.fsm.state == AlarmActive && s.fsm.window == W
    ensures s.control == Waiting && s.running && s.timer == TimerThread(AtHead, AlarmActive, 5000)
    ensures s.queue.items == [Post(ReedEvent(false), None), Post(ReedEvent(true), None), TimeoutPost(5000)]
  {
    s := TwoTimeouts();
    s := HandleNext(W, s, true);
    s := TimerMeasures(W, s, true);
    s := TimerFinishes(W, s, true);
    s := Step(W, s, true, Tick(1));
  }

  /** A second alarm is raised between two rounds of the timer, which still counts from the first. */
  lemma SecondAlarmUnseen() returns (s: Sys)
    ensures Reaches(W, s, true)
    ensures s.clock == 5001 && s.fsm.state == AlarmActive
    ensures Raises(s, ControlStep) && s.running && s.timer == TimerThread(AtHead, AlarmActive, 5000)
  {
    s := FirstAlarmSeen();
    s := HandleNext(W, s, true);
    assert s.queue.items == [Post(ReedEvent(true), None), TimeoutPost(5000)];
    s := HandleNext(W, s, true);
    assert s.queue.items == [TimeoutPost(5000)];
    s := Step(W, s, true, ControlStep);
    s := Step(W, s, true, ControlStep);
  }

  /** The timer can clear an alarm's flag within five seconds of its being set. */
  lemma OldCountCutsAlarmShort() returns (s: Sys)
    ensures Reachable(W, s) && Raises(s, ControlStep)
    ensures Enabled(s, ControlStep) && CanDoBy(Next(s, ControlStep), AlarmActive, s.clock + 5000)
  {
    s := SecondAlarmUnseen();
    ReachesReachable(W, s, true);
    var t := Next(s, ControlStep);
    OldCountDoes(t, AlarmActive, t.clock, t.clock + 5000);
  }

  /** The door has been closed behind one entry, and the next authorisation is taken before the timer's next
      round. */
  lemma EntryAgain() returns (s: Sys)
    ensures Reaches(W, s, false)
    ensures s.clock == 1 && s.fsm == Fsm(ArmedIdle, false, W, None) && s.running
    ensures s.control == Took(Post(Event(AuthorizedByNfc, "tag"), None))
    ensures s.timer == TimerThread(AtHead, AuthorizedEntry, 0)
  {
    s := AuthorizedAndOpen();
    s := Step(W, s, true, Tick(1));
    s := ReedReports(W, s, true, false);
    s := HandleNext(W, s, false);
    s := Step(W, s, false, External(Event(AuthorizedByNfc, "tag")));
    s := Step(W, s, false, ControlStep);
  }

  /** The automatic reset can come within one second of the entry. */
  lemma OldCountCutsEntryShort() returns (s: Sys)
    ensures Reachable(W, s) && s.fsm.state == ArmedIdle
    ensures Enabled(s, ControlStep) && Next(s, ControlStep).fsm.state == AuthorizedEntry
    ensures CanDoBy(Next(s, ControlStep), AuthorizedEntry, s.clock + 1000)
  {
    s := EntryAgain();
    ReachesReachable(W, s, false);
    var t := Next(s, ControlStep);
    OldCountDoes(t, AuthorizedEntry, t.clock, t.clock + 1000);
  }

  lemma DoorOpened() returns (s: Sys)
    ensures Reaches(W, s, true)
    ensures s.fsm == Fsm(PendingVerification, true, W, Some(W)) && s.queue == Contents([], false)
    ensures s.reed == ReedIdle && s.control == Waiting
  {
    s := Begin(W);
    s := ReedReports(W, s, false, true);
    s := HandleNext(W, s, true);
  }

  /** The state machine's own rule is that an open door rejects authorisation, yet the reed's early
      report lets an authorisation queued behind an opening through while verification is pending.  The tag's
      reader checks the door before it posts: the run is one in which that check precedes the first report. */
  lemma PendingCanBeAuthorized() returns (s: Sys)
    ensures Reachable(W, s)
    ensures s.fsm.state == PendingVerification
    ensures Enabled(s, ControlStep) && Next(s, ControlStep).fsm.state == AuthorizedEntry
  {
    s := DoorOpened();
    s := Step(W, s, true, External(Event(AuthorizedByNfc, "tag")));
    s := Step(W, s, true, ReedSet(false));
    s := Step(W, s, false, ControlStep);
    ReachesReachable(W, s, false);
  }

  /** Entry has been authorised, the reed has reported the door open, and the timer knows the state. */
  lemma AuthorizedAndOpen() returns (s: Sys)
    ensures Reaches(W, s, true)
    ensures s.fsm == Fsm(AuthorizedEntry, true, W, None) && s.queue == Contents([], false)
    ensures s.running && s.reed == ReedIdle && s.control == Waiting
    ensures s.clock == 0 && s.timer == TimerThread(AtHead, AuthorizedEntry, 0)
  {
    s := Begin(W);
    s := Step(W, s, false, External(Event(AuthorizedByNfc, "tag")));
    s := HandleNext(W, s, false);
    s := ReedReports(W, s, false, true);
    s := HandleNext(W, s, true);
    s := TimerMeasures(W, s, true);
    s := TimerFinishes(W, s, true);
  }

  /** A second later the timer posts its automatic reset. */
  lemma AutoResetPosted() returns (s: Sys)
    ensures Reaches(W, s, true) && s.queue == Contents([AUTO_RESET], false)
    ensures s.fsm == Fsm(AuthorizedEntry, true, W, None) && s.control == Waiting && s.reed == ReedIdle
  {
    s := AuthorizedAndOpen();
    s := Step(W, s, true, Tick(1001));
    s := TimerMeasures(W, s, true);
    s := Step(W, s, true, TimerStep);
    s := Step(W, s, true, TimerStep);
  }

  /** The automatic reset reports a close whatever the reed says: this run ends drained, armed and idle,
      and takes the door for closed although the reed's last report was open. */
  lemma AutoResetHidesOpenDoor() returns (b: seq<Sys>, acts: seq<Action>)
    ensures Behaviour(W, b, acts)
    ensures LastReed(acts, |acts|) && Drained(b[|acts|])
    ensures b[|acts|].fsm == Fsm(ArmedIdle, false, W, None)
  {
    var s := AutoResetPosted();
    s := HandleNext(W, s, true);
    b, acts :| Leads(W, b, acts, s, true);
  }
}
