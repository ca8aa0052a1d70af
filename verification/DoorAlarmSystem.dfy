/** The orchestrator as an object: its callbacks and the bodies of its thread loops, run without
    interference, are exactly the corresponding sequences of steps of the interleaved system. */
module DoorAlarmOrchestrator {
  import opened Events
  import opened AlarmFsm
  import opened Queues
  import opened DoorAlarmObjects
  import opened AlarmSystem
  import opened AlarmInvariants
  import opened Buzzer

  function TimerMove(l: Loud): Loud
    requires Enabled(l.sys, TimerStep)
  {
    LoudNext(l, Base(TimerStep))
  }

  function Wait(l: Loud, dt: nat): (t: Loud)
    ensures t == l.(sys := l.sys.(clock := l.sys.clock + dt))
  {
    LoudNext(l, Base(Tick(dt)))
  }

  /** One round of the timer thread; the clock advances by the given amounts before its three readings. */
  function TimerRound(l: Loud, d1: nat, d2: nat, d3: nat): Loud
    requires l.sys.timer.pc.AtHead? && FsmFree(l.sys)
  {
    if !l.sys.running then TimerMove(l) else SecondHalf(FirstHalf(l, d1, d2), d3)
  }

  function FirstHalf(l: Loud, d1: nat, d2: nat): (t: Loud)
    requires l.sys.timer.pc.AtHead? && FsmFree(l.sys) && l.sys.running
    ensures t.sys.timer.pc.Measured? && FsmFree(t.sys)
  {
    TimerMove(Wait(TimerMove(Wait(TimerMove(TimerMove(l)), d1)), d2))
  }

  function SecondHalf(l: Loud, d3: nat): Loud
    requires l.sys.timer.pc.Measured? && FsmFree(l.sys)
  {
    Reporting(Wait(Checking(l), d3))
  }

  /** From the measurement to the reading of the deadline. */
  function Checking(l: Loud): (t: Loud)
    requires l.sys.timer.pc.Measured? && FsmFree(l.sys)
    ensures t.sys.timer.pc.Read? && FsmFree(t.sys)
  {
    TimerMove(TimerMove(TimerMove(l)))
  }

  function Reporting(l: Loud): Loud
    requires l.sys.timer.pc.Read? && FsmFree(l.sys)
  {
    var u := TimerMove(l);
    if u.sys.timer.pc.Due? then TimerMove(u) else u
  }

  /** One round of the control loop: take an event and, unless that ends the loop, handle it and read the
      state. */
  function ControlRound(l: Loud): Loud
    requires l.sys.control.Waiting? && (l.sys.queue.items != [] || l.sys.queue.closed) && l.check.None?
  {
    var l1 := LoudNext(l, Base(ControlStep));
    if l1.sys.control.Exited? then l1
    else LoudNext(LoudNext(LoudNext(l1, Base(ControlStep)), Base(ControlStep)), ReadState)
  }

  /** A post handled to the end, with its alarm operation and its place in the history. */
  function Consumed(s: Sys, p: Post): Sys {
    var (f, op) := Update(s.fsm, p.event, s.clock);
    var opens := p.event.kind == DoorOpened && s.fsm.state == ArmedIdle;
    s.(fsm := f, alarmActive := ActiveAfter(s.alarmActive, op),
       hist := History(s.hist.accepted, s.hist.handled + [p],
                       if opens then s.hist.openings + [s.clock] else s.hist.openings,
                       s.hist.silenced && !op.Trigger?))
  }

  /** The control round in one go: the next event leaves the queue and ends the loop or is consumed. */
  function ControlOutcome(s: Sys): Sys
    requires s.control.Waiting? && (s.queue.items != [] || s.queue.closed)
  {
    match Front(s.queue)
    case None => s.(control := Exited)
    case Some(p) =>
      if p.event.kind == Shutdown then s.(queue := Popped(s.queue), control := Exited)
      else Consumed(s.(queue := Popped(s.queue)), p)
  }

  /** The first half of the timer round in one go: the state seen, since when it has been the same, and
      how long that is. */
  function TimerObserved(s: Sys, d1: nat, d2: nat): Sys {
    var cur := s.fsm.state;
    var since := if cur == s.timer.lastState then s.timer.since else s.clock + d1;
    var now := s.clock + d1 + d2;
    s.(clock := now, timer := TimerThread(Measured(cur, now - since), cur, since))
  }

  /** The second half in one go: whether what was seen calls for silence or a reset, and whether the
      deadline has passed. */
  function TimerActed(s: Sys, d3: nat): Sys
    requires s.timer.pc.Measured?
  {
    var (cur, elapsed) := (s.timer.pc.cur, s.timer.pc.elapsed);
    var t := s.(clock := s.clock + d3, timer := s.timer.(pc := AtHead));
    if cur == AlarmActive && elapsed > SILENCE_AFTER_MS
    then t.(alarmActive := false, hist := t.hist.(silenced := true))
    else if cur == AuthorizedEntry && elapsed > RESET_AFTER_MS then Posted(t, AUTO_RESET)
    else if cur == PendingVerification && s.fsm.deadline.Some? && t.clock >= s.fsm.deadline.value
    then Posted(t, TimeoutPost(s.fsm.deadline.value))
    else t
  }

  function TimerOutcome(s: Sys, d1: nat, d2: nat, d3: nat): Sys {
    if !s.running then s.(timer := s.timer.(pc := Stopped))
    else TimerActed(TimerObserved(s, d1, d2), d3)
  }

  /** A round that starts here clears the alarm. */
  predicate RoundClears(s: Sys, d1: nat, d2: nat) {
    && s.running && s.fsm.state == AlarmActive
    && (if s.timer.lastState == AlarmActive then s.clock + d1 + d2 - s.timer.since else d2) > 5000
  }

  lemma RoundSilences(s: Sys, d1: nat, d2: nat)
    requires s.running
    ensures RoundClears(s, d1, d2) <==> Silences(TimerObserved(s, d1, d2))
  {
  }

  /** With the buzzer: the round that clears the alarm switches it off. */
  function LoudTimerOutcome(l: Loud, d1: nat, d2: nat, d3: nat): Loud {
    l.(sys := TimerOutcome(l.sys, d1, d2, d3), buzzer := l.buzzer && !RoundClears(l.sys, d1, d2))
  }

  /** With the buzzer: an alarm raised switches it on, an alarm cleared off; an event that leaves the alarm
      active starts a flasher. */
  function LoudControlOutcome(l: Loud): Loud
    requires l.sys.control.Waiting? && (l.sys.queue.items != [] || l.sys.queue.closed)
  {
    var t := ControlOutcome(l.sys);
    if t.control.Exited? then l.(sys := t)
    else
      var (_, op) := Update(l.sys.fsm, l.sys.queue.items[0].event, l.sys.clock);
      l.(sys := t, buzzer := if op.Trigger? then true else if op.Clear? then false else l.buzzer,
         flashers := l.flashers + if t.fsm.state == AlarmActive then [Flasher(t.clock, None)] else [])
  }

  /** Run without interference, the steps of one control round have exactly that outcome. */
  lemma ControlRoundOutcome(l: Loud)
    requires l.sys.control.Waiting? && (l.sys.queue.items != [] || l.sys.queue.closed) && l.check.None?
    ensures ControlRound(l) == LoudControlOutcome(l)
  {
  }

  /** Run without interference, the steps of one timer round have exactly that outcome. */
  lemma TimerRoundOutcome(l: Loud, d1: nat, d2: nat, d3: nat)
    requires l.sys.timer.pc.AtHead? && FsmFree(l.sys)
    ensures TimerRound(l, d1, d2, d3) == LoudTimerOutcome(l, d1, d2, d3)
  {
    if l.sys.running {
      TimerObserves(l, d1, d2);
      TimerFollowsUp(l.(sys := TimerObserved(l.sys, d1, d2)), d3);
    }
  }

  lemma TimerObserves(l: Loud, d1: nat, d2: nat)
    requires l.sys.timer.pc.AtHead? && FsmFree(l.sys) && l.sys.running
    ensures FirstHalf(l, d1, d2) == l.(sys := TimerObserved(l.sys, d1, d2))
  {
  }

  lemma TimerFollowsUp(l: Loud, d3: nat)
    requires l.sys.timer.pc.Measured? && FsmFree(l.sys)
    ensures SecondHalf(l, d3) == l.(sys := TimerActed(l.sys, d3), buzzer := l.buzzer && !Silences(l.sys))
  {
    TimerChecks(l);
    TimerReports(Wait(Checked(l), d3));
    ActedInTwo(l, d3);
  }

  /** Silence or a reset, as called for. */
  function Checked(l: Loud): (t: Loud)
    requires l.sys.timer.pc.Measured?
    ensures t.sys.timer.pc.Read? && t.sys.control == l.sys.control
  {
    var (cur, elapsed, s) := (l.sys.timer.pc.cur, l.sys.timer.pc.elapsed, l.sys);
    var t := if Silences(s) then s.(alarmActive := false, hist := s.hist.(silenced := true))
             else if cur == AuthorizedEntry && elapsed > RESET_AFTER_MS then Posted(s, AUTO_RESET)
             else s;
    l.(buzzer := l.buzzer && !Silences(s), sys := t.(timer := s.timer.(pc := Read(cur, s.fsm.deadline))))
  }

  /** The timeout, if the deadline has passed. */
  function Reported(l: Loud): Loud
    requires l.sys.timer.pc.Read?
  {
    var (pc, s) := (l.sys.timer.pc, l.sys.(timer := l.sys.timer.(pc := AtHead)));
    if pc.cur == PendingVerification && pc.deadline.Some? && s.clock >= pc.deadline.value
    then l.(sys := Posted(s, TimeoutPost(pc.deadline.value)))
    else l.(sys := s)
  }

  lemma TimerChecks(l: Loud)
    requires l.sys.timer.pc.Measured? && FsmFree(l.sys)
    ensures Checking(l) == Checked(l)
  {
    var m := TimerMove(l);
    assert m.sys.timer.pc == PastSilence(l.sys.timer.pc.cur, l.sys.timer.pc.elapsed);
  }

  lemma TimerReports(l: Loud)
    requires l.sys.timer.pc.Read? && FsmFree(l.sys)
    ensures Reporting(l) == Reported(l)
  {
  }

  lemma ActedInTwo(l: Loud, d3: nat)
    requires l.sys.timer.pc.Measured?
    ensures Reported(Wait(Checked(l), d3)) ==
      l.(sys := TimerActed(l.sys, d3), buzzer := l.buzzer && !Silences(l.sys))
  {
  }

  /** A state machine and its alarm, apart from the green line. */
  function Greenless(u: Unit): Unit {
    u.(alarm := u.alarm.(lines := u.alarm.lines.(green := false)))
  }

  /** With claimed lines, the alarm manager's buzzer is the one of the system with its buzzer. */
  lemma LoudHandled(l: Loud, u: Unit, l': Loud, u': Unit)
    requires l.sys.control.Waiting? && l.sys.queue.items != [] && l.check == l'.check
    requires l'.sys == ControlOutcome(l.sys) && !l'.sys.control.Exited?
    requires l.sys.fsm == u.fsm && l.buzzer == u.alarm.lines.buzzer && l'.buzzer == u'.alarm.lines.buzzer
    requires u.alarm.lines.claimed
    requires Greenless(u') == Greenless(Handled(u, l.sys.queue.items[0].event, l.sys.clock))
    requires l'.flashers == l.flashers
                            + if l'.sys.fsm.state == AlarmActive then [Flasher(l'.sys.clock, None)] else []
    ensures l' == LoudControlOutcome(l)
  {
    assert u'.alarm.lines.buzzer == Greenless(u').alarm.lines.buzzer;
  }

  lemma HandledGreenless(u: Unit, e: Event, now: int)
    ensures Greenless(Handled(u, e, now)) == Handled(Greenless(u), e, now)
  {
  }

  lemma HandledCore(u: Unit, e: Event, now: int)
    ensures var (f, op) := Update(u.fsm, e, now);
            Handled(u, e, now).fsm == f && Handled(u, e, now).alarm.active == ActiveAfter(u.alarm.active, op)
  {
  }

  /** The trace consists of the posted events in order, handled at times that never decrease. */
  ghost predicate HandledInOrder(posts: seq<Post>, t: seq<Timed>, start: int, end: int) {
    && |t| == |posts| && start <= end
    && (forall k :: 0 <= k < |t| ==> t[k].event == posts[k].event && start <= t[k].now <= end)
    && (forall j, k :: 0 <= j < k < |t| ==> t[j].now <= t[k].now)
  }

  /** Since s0 the posts done were handled as the trace t; of all that was coming, what is still to be handled
      before the first Shutdown is still coming. */
  ghost predicate Progress(s0: Sys, all: seq<Post>, s: Sys, rest: seq<seq<Post>>, done: seq<Post>, t: seq<Timed>) {
    && s.hist.handled == s0.hist.handled + done
    && BeforeShutdown(all) == done + (if s.control.Exited? then [] else BeforeShutdown(Coming(s.queue, rest)))
    && HandledInOrder(done, t, s0.clock, s.clock)
  }

  lemma ProgressStarts(s: Sys, rest: seq<seq<Post>>)
    requires !s.control.Exited?
    ensures Progress(s, Coming(s.queue, rest), s, rest, [], [])
  {
  }

  lemma ProgressEnds(s0: Sys, all: seq<Post>, s: Sys, rest: seq<seq<Post>>, done: seq<Post>, t: seq<Timed>)
    requires Progress(s0, all, s, rest, done, t) && s.control.Exited?
    ensures done == BeforeShutdown(all) && s.hist.handled == s0.hist.handled + BeforeShutdown(all)
    ensures HandledInOrder(BeforeShutdown(all), t, s0.clock, s.clock)
  {
  }

  lemma InOrderExtended(posts: seq<Post>, t: seq<Timed>, start: int, end: int, p: Post, now: int)
    requires HandledInOrder(posts, t, start, end) && end <= now
    ensures HandledInOrder(posts + [p], t + [Timed(p.event, now)], start, now)
    ensures HandledInOrder(posts, t, start, now)
  {
  }

  /** The units passed through when handling a trace. */
  ghost predicate Chain(us: seq<Unit>, t: seq<Timed>) {
    && |us| == |t| + 1
    && forall i {:trigger t[i]} :: 0 <= i < |t| ==> us[i + 1] == Handled(us[i], t[i].event, t[i].now)
  }

  lemma ChainJoined(us: seq<Unit>, t: seq<Timed>, vs: seq<Unit>, te: seq<Timed>)
    requires Chain(us, t) && Chain(vs, te) && us[|t|] == vs[0]
    ensures Chain(us + vs[1..], t + te)
    ensures (us + vs[1..])[0] == us[0] && (us + vs[1..])[|t + te|] == vs[|te|]
  {
    var (ws, tt) := (us + vs[1..], t + te);
    forall i {:trigger tt[i]} | 0 <= i < |tt| ensures ws[i + 1] == Handled(ws[i], tt[i].event, tt[i].now) {
      if i < |t| {
        assert tt[i] == t[i] && ws[i] == us[i] && ws[i + 1] == us[i + 1];
      } else {
        var k := i - |t|;
        assert tt[i] == te[k] && ws[i] == vs[k] && ws[i + 1] == vs[k + 1];
      }
    }
  }

  lemma {:induction false} ChainIsRun(us: seq<Unit>, t: seq<Timed>)
    requires Chain(us, t)
    ensures RunFrom(us[0], t) == us[|t|]
  {
    if t != [] {
      var n := |t| - 1;
      ChainIsRun(us[..n + 1], t[..n]);
      assert t[n] == t[|t| - 1] && us[n + 1] == Handled(us[n], t[n].event, t[n].now);
    }
  }

  /** Others post the next batch, or close the queue once there is none, and time passes. */
  lemma ProgressByArrival(s0: Sys, all: seq<Post>, s: Sys, rest: seq<seq<Post>>, done: seq<Post>, t: seq<Timed>,
                          s1: Sys)
    requires Progress(s0, all, s, rest, done, t) && s.control.Waiting? && s1.control.Waiting?
    requires s1.queue == Arrived(s.queue, rest) && s1.hist.handled == s.hist.handled && s.clock <= s1.clock
    ensures Progress(s0, all, s1, Later(rest), done, t)
  {
    InOrderExtended(done, t, s0.clock, s.clock, AUTO_RESET, s1.clock);
    ComingArrived(s.queue, rest);
  }

  lemma PassOutcome(s: Sys)
    requires s.control.Waiting? && (s.queue.items != [] || s.queue.closed)
    ensures var (s1, items) := (ControlOutcome(s), s.queue.items);
            && s1.clock == s.clock && (s1.control.Exited? || s1.control.Waiting?)
            && (s1.control.Exited? <==> items == [] || items[0].event.kind == Shutdown)
            && s1.queue == (if items == [] then s.queue else s.queue.(items := items[1..]))
            && s1.hist.handled == s.hist.handled + if s1.control.Exited? then [] else [items[0]]
  {
  }

  /** One pass of the control loop handles the first post coming, or finds a Shutdown or nothing. */
  lemma ProgressByPass(s0: Sys, all: seq<Post>, s: Sys, rest: seq<seq<Post>>, done: seq<Post>, t: seq<Timed>, s1: Sys)
    requires Progress(s0, all, s, rest, done, t) && s.control.Waiting? && s1.clock == s.clock
    requires s.queue.items != [] || s.queue.closed
    requires s1.control.Exited? <==> s.queue.items == [] || s.queue.items[0].event.kind == Shutdown
    requires s1.queue == if s.queue.items == [] then s.queue else s.queue.(items := s.queue.items[1..])
    requires s1.hist.handled == s.hist.handled + if s1.control.Exited? then [] else [s.queue.items[0]]
    ensures s1.control.Exited? ==> Progress(s0, all, s1, rest, done, t)
    ensures !s1.control.Exited? ==>
              var p := s.queue.items[0];
              Progress(s0, all, s1, rest, done + [p], t + [Timed(p.event, s.clock)])
  {
    if s.queue.items != [] {
      FirstComing(s.queue, rest);
    }
    if !s1.control.Exited? {
      var p := s.queue.items[0];
      InOrderExtended(done, t, s0.clock, s.clock, p, s.clock);
      OneMore(s0.hist.handled, done, p, []);
      OneMore([], done, p, BeforeShutdown(Coming(s1.queue, rest)));
    }
  }

  lemma OneMore(before: seq<Post>, done: seq<Post>, p: Post, more: seq<Post>)
    ensures before + done + [p] == before + (done + [p])
    ensures done + ([p] + more) == done + [p] + more
  {
  }

  lemma FirstComing(q: Contents<Post>, rest: seq<seq<Post>>)
    requires q.items != []
    ensures var (p, later) := (q.items[0], q.(items := q.items[1..]));
            BeforeShutdown(Coming(q, rest)) ==
              if p.event.kind == Shutdown then [] else [p] + BeforeShutdown(Coming(later, rest))
  {
    ComingPopped(q, rest);
  }

  class DoorAlarmSystem {
    const fsm: DoorAlarmFSM
    const alarmManager: AlarmManager
    const outputs: OutputController
    const eventQueue: EventQueue<Post>
    var running: bool
    var cameraActive: bool
    // The timer thread's locals.
    var timerStopped: bool
    var lastState: State
    var stateStartTime: int
    // The monotone clock, moved only by the passing of time.
    var clock: int
    /** The detached flashers of a denied entry that the control loop has started and that have yet to begin. */
    var flashers: seq<Flasher>
    // The control thread's exit, and history.
    ghost var controlExited: bool
    ghost var hist: History

    ghost predicate Wired()
    {
      fsm.alarmManager == alarmManager && alarmManager.outputs == outputs
    }

    ghost function View(): Sys
      reads this, fsm, alarmManager, eventQueue
    {
      Sys(clock, Fsm(fsm.state, fsm.doorOpen, fsm.window, fsm.deadline), alarmManager.alarmActive,
          eventQueue.View(), running, ReedIdle, if controlExited then Exited else Waiting,
          TimerThread(if timerStopped then Stopped else AtHead, lastState, stateStartTime), hist)
    }

    /** The system with its buzzer. */
    ghost function LoudView(): Loud
      reads this, fsm, alarmManager, eventQueue, outputs
    {
      Loud(View(), outputs.buzzer, None, flashers)
    }

    /** The green line by its rule: an authorised entry with the door closed, or the camera's signal. */
    ghost predicate GreenByRule()
      reads this, fsm, outputs
    {
      outputs.claimed ==> (outputs.green <==> (fsm.state == AuthorizedEntry && !fsm.doorOpen) || cameraActive)
    }

    constructor (now: int)
      ensures Wired() && View() == Start(5000, now).(running := false)
      ensures outputs.View() == Lines(false, false, false, false) && flashers == [] && !cameraActive
      ensures fresh(fsm) && fresh(alarmManager) && fresh(outputs) && fresh(eventQueue)
    {
      var oc := new OutputController();
      var am := new AlarmManager(oc);
      outputs := oc;
      alarmManager := am;
      fsm := new DoorAlarmFSM(am);
      eventQueue := new EventQueue<Post>();
      running, cameraActive, timerStopped := false, false, false;
      lastState, stateStartTime := ArmedIdle, now;
      clock, flashers, controlExited, hist := now, [], false, History([], [], [], false);
    }

    /** Starting claims the output lines, fixes the window and lets the threads run; starting a running
        system does nothing. */
    method Startup(hardwareOk: bool)
      requires Wired()
      modifies this`running, fsm`window, outputs
      ensures View() == if hardwareOk && !old(running)
                        then old(View()).(running := true, fsm := old(View()).fsm.(window := 5000))
                        else old(View())
      ensures outputs.View() == if hardwareOk && !old(running) then Lines(true, false, false, false)
                                else old(outputs.View())
    {
      if running {
        return;
      }
      var ok := outputs.Init(hardwareOk);
      if !ok {
        return;
      }
      running := true;
      fsm.SetAuthorizationWindow(5000);
    }

    method PostEvent(p: Post)
      modifies eventQueue, this`hist
      ensures View() == Posted(old(View()), p)
    {
      if !eventQueue.isShutdown {
        hist := hist.(accepted := hist.accepted + [p]);
      }
      eventQueue.Push(p);
    }

    method UpdateGreenLedLogic()
      modifies outputs
      ensures GreenByRule()
      ensures outputs.View() == old(outputs.View()).(green := outputs.green)
      ensures !outputs.claimed ==> outputs.green == old(outputs.green)
    {
      if (fsm.state == AuthorizedEntry && !fsm.doorOpen) || cameraActive {
        outputs.SetGreenLed(true);
      } else {
        outputs.SetGreenLed(false);
      }
    }

    /** The camera's signal, on a change only. */
    method OnCameraTrigger(value: int)
      modifies this`cameraActive, outputs
      ensures cameraActive == (value == 1)
      ensures cameraActive != old(cameraActive) ==> GreenByRule()
      ensures outputs.View() == old(outputs.View()).(green := outputs.green)
      ensures cameraActive == old(cameraActive) || !outputs.claimed ==> outputs.green == old(outputs.green)
    {
      var signalHigh := value == 1;
      if signalHigh != cameraActive {
        cameraActive := signalHigh;
        UpdateGreenLedLogic();
      }
    }

    method OnReedSwitchChange(value: int)
      requires Wired()
      modifies fsm`doorOpen, outputs, eventQueue, this`hist
      ensures View() == Next(Next(old(View()), ReedSet(value == 1)), ReedPush)
      ensures GreenByRule() && (outputs.claimed ==> outputs.red == (value == 1))
      ensures outputs.View() == old(outputs.View()).(red := outputs.red, green := outputs.green)
      ensures !outputs.claimed ==> outputs.View() == old(outputs.View())
    {
      var isOpen := value == 1;
      fsm.SetDoorState(isOpen);
      UpdateGreenLedLogic();
      if isOpen {
        outputs.SetRedLed(true);
        PostEvent(Post(Event(DoorOpened, "ReedSwitch"), None));
      } else {
        outputs.SetRedLed(false);
        PostEvent(Post(Event(DoorClosed, "ReedSwitch"), None));
      }
    }

    /** One pass of the control loop; go says whether the loop continues.  With claimed lines it is one control
        round of the system with its buzzer; the other lines and the reason go as the state machine's, except
        for the green line, which goes by its rule. */
    method ControlPass() returns (go: bool)
      requires Wired() && !controlExited && (eventQueue.queue != [] || eventQueue.isShutdown)
      modifies this`controlExited, this`hist, this`flashers, fsm, alarmManager, outputs, eventQueue
      ensures View() == ControlOutcome(old(View()))
      ensures go == !controlExited
      ensures outputs.claimed ==> LoudView() == LoudControlOutcome(old(LoudView()))
      ensures go ==> GreenByRule() && old(eventQueue.queue) != []
      ensures go ==> Greenless(fsm.View()) == Greenless(Handled(old(fsm.View()), old(eventQueue.queue)[0].event, clock))
      ensures !go ==> fsm.View() == old(fsm.View())
    {
      ghost var l, u := LoudView(), fsm.View();
      go := TakeAndHandle();
      if go && outputs.claimed {
        LoudHandled(l, u, LoudView(), fsm.View());
      }
    }

    method TakeAndHandle() returns (go: bool)
      requires Wired() && !controlExited && (eventQueue.queue != [] || eventQueue.isShutdown)
      modifies this`controlExited, this`hist, this`flashers, fsm, alarmManager, outputs, eventQueue
      ensures View() == ControlOutcome(old(View())) && go == !controlExited
      ensures go ==>
        && GreenByRule() && old(eventQueue.queue) != []
        && Greenless(fsm.View()) == Greenless(Handled(old(fsm.View()), old(eventQueue.queue)[0].event, clock))
        && flashers == old(flashers) + if fsm.state == AlarmActive then [Flasher(clock, None)] else []
      ensures !go ==> fsm.View() == old(fsm.View()) && flashers == old(flashers)
    {
      var p := eventQueue.WaitAndPop();
      if p == None || p.value.event.kind == Shutdown {
        controlExited := true;
        return false;
      }
      Consume(p.value);
      var state := fsm.GetState();
      if state == AlarmActive {
        flashers := flashers + [Flasher(clock, None)];
      }
      go := true;
    }

    method Consume(p: Post)
      requires Wired()
      modifies this`hist, fsm, alarmManager, outputs
      ensures View() == Consumed(old(View()), p)
      ensures GreenByRule()
      ensures Greenless(fsm.View()) == Greenless(Handled(old(fsm.View()), p.event, clock))
      ensures !outputs.claimed ==> outputs.View() == old(outputs.View())
    {
      ghost var before := View();
      ghost var (f, op) := Update(before.fsm, p.event, clock);
      HandledCore(fsm.View(), p.event, clock);
      fsm.HandleEvent(p.event, clock);
      hist := Consumed(before, p).hist;
      UpdateGreenLedLogic();
    }

    /** Others post the next batch, or close the queue when there is none. */
    method Arrive(rest: seq<seq<Post>>) returns (later: seq<seq<Post>>)
      modifies eventQueue, this`hist
      ensures View() == old(View()).(queue := Arrived(old(eventQueue.View()), rest), hist := View().hist)
      ensures hist.handled == old(hist.handled) && later == Later(rest)
    {
      if rest == [] {
        eventQueue.Shutdown();
        return [];
      }
      for i := 0 to |rest[0]|
        invariant eventQueue.View() == if old(eventQueue.isShutdown) then old(eventQueue.View())
                                       else Contents(old(eventQueue.queue) + rest[0][..i], false)
        invariant hist.handled == old(hist.handled)
      {
        assert rest[0][..i + 1] == rest[0][..i] + [rest[0][i]];
        PostEvent(rest[0][i]);
      }
      assert rest[0][..|rest[0]|] == rest[0];
      later := rest[1..];
    }

    /** Others post, time passes, and the control loop, unless it still has to wait, makes one pass; te is the
        event it handles, if any, and us are the state machine and alarm before and after. */
    method Advance(rest: seq<seq<Post>>, ghost s0: Sys, ghost all: seq<Post>, ghost done: seq<Post>,
                   ghost t: seq<Timed>)
      returns (go: bool, later: seq<seq<Post>>, ghost done': seq<Post>, ghost te: seq<Timed>, ghost us: seq<Unit>)
      requires Wired() && !controlExited && Progress(s0, all, View(), rest, done, t)
      modifies this`clock, this`controlExited, this`hist, this`flashers, fsm, alarmManager, outputs, eventQueue
      ensures go == !controlExited && later == Later(rest) && Progress(s0, all, View(), later, done', t + te)
      ensures Chain(us, te) && us[0] == Greenless(old(fsm.View())) && us[|te|] == Greenless(fsm.View())
      ensures if te == [] then fsm.View() == old(fsm.View()) else GreenByRule()
      ensures go && rest == [] ==> |eventQueue.queue| < old(|eventQueue.queue|)
    {
      ghost var s := View();
      var now: int := *;
      clock := if now < clock then clock else now;
      later := Arrive(rest);
      ProgressByArrival(s0, all, s, rest, done, t, View());
      if eventQueue.queue == [] && !eventQueue.isShutdown {
        us := [Greenless(fsm.View())];
        assert t + [] == t;
        return true, later, done, [], us;
      }
      go, done', te, us := ReadyPass(later, s0, all, done, t);
    }

    method ReadyPass(rest: seq<seq<Post>>, ghost s0: Sys, ghost all: seq<Post>, ghost done: seq<Post>,
                     ghost t: seq<Timed>)
      returns (go: bool, ghost done': seq<Post>, ghost te: seq<Timed>, ghost us: seq<Unit>)
      requires Wired() && !controlExited && Progress(s0, all, View(), rest, done, t)
      requires eventQueue.queue != [] || eventQueue.isShutdown
      modifies this`controlExited, this`hist, this`flashers, fsm, alarmManager, outputs, eventQueue
      ensures go == !controlExited && Progress(s0, all, View(), rest, done', t + te)
      ensures Chain(us, te) && us[0] == Greenless(old(fsm.View())) && us[|te|] == Greenless(fsm.View())
      ensures if te == [] then fsm.View() == old(fsm.View()) else GreenByRule()
      ensures eventQueue.View() == Popped(old(eventQueue.View())) && (go ==> old(eventQueue.queue) != [])
    {
      ghost var waiting := View();
      ghost var first := if eventQueue.queue == [] then AUTO_RESET else eventQueue.queue[0];
      us := [Greenless(fsm.View())];
      HandledGreenless(fsm.View(), first.event, clock);
      go := ControlPass();
      PassOutcome(waiting);
      ProgressByPass(s0, all, waiting, rest, done, t, View());
      done', te := done, [];
      if go {
        done', te, us := done + [first], [Timed(first.event, clock)], us + [Greenless(fsm.View())];
      }
      assert t + [] == t;
    }

    /** The control loop's progress since s0, at which so much was coming and the green line was as given: the
        posts done, handled as the trace t, took the state machine and its alarm through us. */
    ghost predicate Underway(s0: Sys, green0: bool, all: seq<Post>, rest: seq<seq<Post>>, done: seq<Post>,
                             t: seq<Timed>, us: seq<Unit>)
      reads this, fsm, fsm.alarmManager, fsm.alarmManager.outputs, alarmManager, outputs, eventQueue
    {
      && Wired() && Progress(s0, all, View(), rest, done, t)
      && Chain(us, t) && us[|t|] == Greenless(fsm.View())
      && if t == [] then outputs.green == green0 else GreenByRule()
    }

    method Round(rest: seq<seq<Post>>, ghost s0: Sys, ghost green0: bool, ghost all: seq<Post>,
                 ghost done: seq<Post>, ghost t: seq<Timed>, ghost us: seq<Unit>)
      returns (go: bool, later: seq<seq<Post>>, ghost done': seq<Post>, ghost t': seq<Timed>, ghost us': seq<Unit>)
      requires !controlExited && Underway(s0, green0, all, rest, done, t, us)
      modifies this`clock, this`controlExited, this`hist, this`flashers, fsm, alarmManager, outputs, eventQueue
      ensures go == !controlExited && later == Later(rest)
      ensures Underway(s0, green0, all, later, done', t', us') && us'[0] == us[0]
      ensures go && rest == [] ==> |eventQueue.queue| < old(|eventQueue.queue|)
    {
      ghost var te, vs;
      go, later, done', te, vs := Advance(rest, s0, all, done, t);
      ChainJoined(us, t, vs, te);
      t', us' := t + te, us + vs[1..];
    }

    /** The control loop from start to exit, while other threads post the given batches, one before each of
        its passes, and then close the queue: it hands the state machine exactly the events queued and posted
        before the first Shutdown, in order, and exits. */
    method ControlLoop(batches: seq<seq<Post>>) returns (ghost handled: seq<Timed>)
      requires Wired() && !controlExited
      modifies this`clock, this`controlExited, this`hist, this`flashers, fsm, alarmManager, outputs, eventQueue
      ensures controlExited
      ensures var events := BeforeShutdown(Coming(old(eventQueue.View()), batches));
              && hist.handled == old(hist.handled) + events
              && HandledInOrder(events, handled, old(clock), clock)
      ensures Greenless(fsm.View()) == RunFrom(Greenless(old(fsm.View())), handled)
      ensures if handled == [] then outputs.green == old(outputs.green) else GreenByRule()
    {
      ghost var s0, all := View(), Coming(eventQueue.View(), batches);
      ghost var u0, green0 := Greenless(fsm.View()), outputs.green;
      ghost var done, us := [], [u0];
      handled := [];
      var go, rest := true, batches;
      ProgressStarts(s0, batches);
      while go
        invariant go == !controlExited && Underway(s0, green0, all, rest, done, handled, us) && us[0] == u0
        decreases |rest|, if go then 1 + |eventQueue.queue| else 0
      {
        go, rest, done, handled, us := Round(rest, s0, green0, all, done, handled, us);
      }
      ProgressEnds(s0, all, View(), rest, done, handled);
      ChainIsRun(us, handled);
    }

    /** One pass of the timer loop.  The only line it ever writes is the buzzer, which it switches off when it
        clears the alarm; with claimed lines it is one timer round of the system with its buzzer. */
    method TimerPass(d1: nat, d2: nat, d3: nat)
      requires Wired() && !timerStopped
      modifies this`clock, this`timerStopped, this`lastState, this`stateStartTime, this`hist
      modifies alarmManager, outputs, eventQueue
      ensures View() == TimerOutcome(old(View()), d1, d2, d3)
      ensures outputs.claimed ==> LoudView() == LoudTimerOutcome(old(LoudView()), d1, d2, d3)
      ensures outputs.claimed && RoundClears(old(View()), d1, d2) ==> !outputs.buzzer && !alarmManager.alarmActive
      ensures outputs.View() ==
        if RoundClears(old(View()), d1, d2) then old(outputs.View()).(buzzer := outputs.buzzer) else old(outputs.View())
      ensures !outputs.claimed ==> outputs.View() == old(outputs.View())
      ensures alarmManager.lastReason == old(alarmManager.lastReason)
    {
      if !running {
        timerStopped := true;
        return;
      }
      RoundSilences(View(), d1, d2);
      var currentState, elapsed := ObserveState(d1, d2);
      ActOnState(currentState, elapsed, d3);
    }

    /** What the timer sees: the state, and how long it has been the same. */
    method ObserveState(d1: nat, d2: nat) returns (currentState: State, elapsed: int)
      requires Wired() && !timerStopped
      modifies this`clock, this`lastState, this`stateStartTime
      ensures View().(timer := TimerThread(Measured(currentState, elapsed), lastState, stateStartTime))
           == TimerObserved(old(View()), d1, d2)
    {
      currentState := fsm.GetState();
      clock := clock + d1;
      if currentState != lastState {
        stateStartTime := clock;
        lastState := currentState;
      }
      clock := clock + d2;
      elapsed := clock - stateStartTime;
    }

    /** What the timer does about the state it has seen: silence the alarm, reset an expired entry,
        report an expired grace period. */
    method ActOnState(currentState: State, elapsed: int, d3: nat)
      requires Wired() && !timerStopped
      modifies this`clock, this`hist, alarmManager, outputs, eventQueue
      ensures var s := old(View());
              View() == TimerActed(s.(timer := s.timer.(pc := Measured(currentState, elapsed))), d3)
      ensures outputs.View() ==
        if currentState == AlarmActive && elapsed > 5000 && old(outputs.claimed)
        then old(outputs.View()).(buzzer := false) else old(outputs.View())
      ensures alarmManager.lastReason == old(alarmManager.lastReason)
    {
      if currentState == AlarmActive && elapsed > 5000 {
        alarmManager.ClearAlarm();
        hist := hist.(silenced := true);
      }
      if currentState == AuthorizedEntry && elapsed > 1000 {
        PostEvent(Post(Event(DoorClosed, "AutoReset"), None));
      }
      var deadline := fsm.GetVerificationDeadline();
      clock := clock + d3;
      if currentState == PendingVerification && deadline.Some? {
        if clock >= deadline.value {
          PostEvent(Post(Event(VerificationTimeout, "timer"), Some(deadline.value)));
        }
      }
    }

    /** Stopping clears the running flag, posts a Shutdown and closes the queue; stopping twice does nothing. */
    method SignalStop()
      modifies this`running, this`hist, eventQueue
      ensures var s := old(View());
              View() == if !s.running then s
                        else Next(Next(Next(s, ClearRunning), External(Event(Shutdown, "main"))), CloseQueue)
    {
      if !running {
        return;
      }
      running := false;
      PostEvent(Post(Event(Shutdown, "main"), None));
      eventQueue.Shutdown();
    }
  }
}
