/** A run in which the very first alarm's buzzer falls silent while the alarm is still active. */
module BuzzerExample {
  import opened Events
  import opened AlarmFsm
  import opened Queues
  import opened AlarmSystem
  import opened Buzzer

  const W := 5000

  lemma Go(late: nat, l: Loud, e: Step) returns (t: Loud)
    requires LoudReachable(late, W, l) && LoudEnabled(late, l, e)
    ensures t == LoudNext(l, e) && LoudReachable(late, W, t)
  {
    t := LoudNext(l, e);
    var ls, es :| LoudBehaviour(late, W, ls, es) && ls[|es|] == l;
    var ls', es' := ls + [t], es + [e];
    forall k {:trigger es'[k]} | 0 <= k < |es'|
      ensures LoudEnabled(late, ls'[k], es'[k]) && ls'[k + 1] == LoudNext(ls'[k], es'[k])
    {
      assert k < |es| ==> es'[k] == es[k] && ls'[k + 1] == ls[k + 1];
    }
    assert LoudBehaviour(late, W, ls', es') && ls'[|es'|] == t;
  }

  /** A step of the system that leaves the buzzer alone. */
  lemma GoQuietly(late: nat, l: Loud, a: Action) returns (t: Loud)
    requires LoudReachable(late, W, l) && LoudEnabled(late, l, Base(a))
    requires !FinishesHandling(l.sys, a) && !(a.TimerStep? && Silences(l.sys))
    ensures t == l.(sys := Next(l.sys, a)) && LoudReachable(late, W, t)
  {
    t := Go(late, l, Base(a));
  }

  /** The control loop handles the next post and reads the state. */
  lemma GoHandle(late: nat, l: Loud) returns (t: Loud)
    requires LoudReachable(late, W, l) && l.sys.control == Waiting && l.check == None && l.flashers == []
    requires l.sys.queue.items != [] && l.sys.queue.items[0].event.kind != Shutdown
    ensures LoudReachable(late, W, t) && t.sys.control == Waiting && t.check == None
    ensures t.sys.queue == Popped(l.sys.queue)
    ensures var (f, op) := Update(l.sys.fsm, l.sys.queue.items[0].event, l.sys.clock);
            && t.sys.fsm == f && t.sys.alarmActive == ActiveAfter(l.sys.alarmActive, op)
            && t.flashers == if f.state == AlarmActive then [Flasher(l.sys.clock, None)] else []
    ensures t.sys.clock == l.sys.clock && t.sys.running == l.sys.running && t.sys.timer == l.sys.timer
  {
    t := GoQuietly(late, l, ControlStep);
    t := GoQuietly(late, t, ControlStep);
    t := Go(late, t, Base(ControlStep));
    t := Go(late, t, ReadState);
  }

  lemma DoorOpens(late: nat) returns (l: Loud)
    ensures LoudReachable(late, W, l) && l.check == None && l.flashers == []
    ensures l.sys == Start(W, 0).(fsm := Fsm(ArmedIdle, true, W, None),
                                  queue := Contents([Post(ReedEvent(true), None)], false),
                                  hist := History([Post(ReedEvent(true), None)], [], [], false))
  {
    l := Quiet(W, 0);
    var es: seq<Step> := [];
    assert LoudBehaviour(late, W, [l], es) && [l][|es|] == l;
    l := GoQuietly(late, l, ReedSet(true));
    l := GoQuietly(late, l, ReedPush);
  }

  lemma WindowPasses(late: nat) returns (l: Loud)
    ensures LoudReachable(late, W, l) && l.check == None && l.flashers == []
    ensures l.sys.clock == 5000 && l.sys.fsm == Fsm(PendingVerification, true, W, Some(5000))
    ensures l.sys.queue == Contents([], false) && l.sys.running && l.sys.control == Waiting
    ensures l.sys.timer == TimerThread(AtHead, ArmedIdle, 0)
  {
    l := DoorOpens(late);
    l := GoHandle(late, l);
    l := GoQuietly(late, l, Tick(5000));
  }

  /** Between two looks of the timer thread, with nothing to silence, reset or post. */
  lemma GoTimer(late: nat, l: Loud) returns (t: Loud)
    requires LoudReachable(late, W, l) && Enabled(l.sys, TimerStep)
    requires !Silences(l.sys) && !AutoResets(l.sys) && !l.sys.timer.pc.Due?
    ensures LoudReachable(late, W, t) && t == l.(sys := l.sys.(timer := TimerMoves(l.sys)))
  {
    t := GoQuietly(late, l, TimerStep);
  }

  ghost predicate Overdue(late: nat, l: Loud) {
    && LoudReachable(late, W, l) && l.check == None && l.flashers == []
    && l.sys.clock == 5000 && l.sys.fsm == Fsm(PendingVerification, true, W, Some(5000))
    && l.sys.queue == Contents([], false) && l.sys.running && l.sys.control == Waiting
  }

  lemma TimerLooks(late: nat) returns (l: Loud)
    ensures Overdue(late, l) && l.sys.timer == TimerThread(Saw(PendingVerification), ArmedIdle, 0)
  {
    l := WindowPasses(late);
    l := GoTimer(late, l);
    l := GoTimer(late, l);
  }

  lemma TimerMeasures(late: nat) returns (l: Loud)
    ensures Overdue(late, l) && l.sys.timer.pc == Measured(PendingVerification, 0)
  {
    l := TimerLooks(late);
    l := GoTimer(late, l);
    l := GoTimer(late, l);
  }

  lemma TimerPassesBy(late: nat) returns (l: Loud)
    ensures Overdue(late, l) && l.sys.timer.pc == PastReset(PendingVerification)
  {
    l := TimerMeasures(late);
    l := GoTimer(late, l);
    l := GoTimer(late, l);
  }

  lemma TimerIsDue(late: nat) returns (l: Loud)
    ensures Overdue(late, l) && l.sys.timer.pc == Due(5000)
  {
    l := TimerPassesBy(late);
    l := GoTimer(late, l);
    l := GoTimer(late, l);
  }

  lemma TimeoutPosted(late: nat) returns (l: Loud)
    ensures LoudReachable(late, W, l) && l.check == None && l.flashers == []
    ensures l.sys.clock == 5000 && l.sys.fsm == Fsm(PendingVerification, true, W, Some(5000))
    ensures l.sys.queue == Contents([TimeoutPost(5000)], false) && l.sys.control == Waiting
  {
    l := TimerIsDue(late);
    l := GoQuietly(late, l, TimerStep);
  }

  /** One second after its first alarm the system is in alarm, flag and all, and the buzzer is off. */
  lemma FirstAlarmFallsSilent(late: nat) returns (l: Loud)
    ensures LoudReachable(late, W, l) && l.sys.clock == 6000
    ensures l.sys.fsm.state == AlarmActive && l.sys.alarmActive && !l.buzzer
  {
    l := TimeoutPosted(late);
    l := GoHandle(late, l);
    l := Go(late, l, FlashOn(0));
    l := GoQuietly(late, l, Tick(1000));
    l := Go(late, l, FlashOff(0));
  }
}
