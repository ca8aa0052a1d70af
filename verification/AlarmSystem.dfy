/** The running alarm system as an interleaving of its threads.  A step is one critical section or
    one clock reading; the state machine's mutex is held from the moment a handler has updated the
    fields until its alarm operation is done, and everyone who needs that mutex waits. */
module AlarmSystem {
  import opened Events
  import opened AlarmFsm
  import opened Queues

  /** A queued event.  For a timeout, basis is the deadline its poster had read. */
  datatype Post = Post(event: Event, basis: Option<int>)

  /** The reed callback reports to the state machine first and posts afterwards. */
  datatype Reed = ReedIdle | Reported(isOpen: bool)

  datatype Control = Waiting | Took(post: Post) | InHandler(op: AlarmOp) | Exited

  /** Where the timer thread stands in its loop body, with the locals still in use. */
  datatype Timer =
    | AtHead
    | Sleeping
    | Saw(cur: State)
    | Stamped(cur: State)
    | Measured(cur: State, elapsed: int)
    | PastSilence(cur: State, elapsed: int)
    | PastReset(cur: State)
    | Read(cur: State, deadline: Option<int>)
    | Due(due: int)
    | Stopped

  /** The timer thread: program counter, lastState and stateStartTime. */
  datatype TimerThread = TimerThread(pc: Timer, lastState: State, since: int)

  /** Posts accepted by the queue, posts handled, the times at which episodes were opened, and whether
      the timer has silenced the alarm since it was last triggered. */
  datatype History = History(accepted: seq<Post>, handled: seq<Post>, openings: seq<int>, silenced: bool)

  datatype Sys = Sys(
    clock: int,
    fsm: Fsm,
    alarmActive: bool,
    queue: Contents<Post>,
    running: bool,
    reed: Reed,
    control: Control,
    timer: TimerThread,
    hist: History)

  datatype Action =
    | Tick(dt: nat)
    | ReedSet(isOpen: bool)
    | ReedPush
    | External(e: Event)
    | ClearRunning
    | CloseQueue
    | ControlStep
    | TimerStep

  const SILENCE_AFTER_MS := 5000
  const RESET_AFTER_MS := 1000

  function Start(window: int, clock: int): Sys {
    Sys(clock, Initial(window, true).fsm, false, Contents([], false), true, ReedIdle, Waiting,
        TimerThread(AtHead, ArmedIdle, clock), History([], [], [], false))
  }

  predicate FsmFree(s: Sys) {
    !s.control.InHandler?
  }

  /** NFC, the exit button and other callers post events of any kind except timeouts, which only the
      timer posts. */
  predicate Enabled(s: Sys, a: Action) {
    match a
    case Tick(_) => true
    case ReedSet(_) => s.reed.ReedIdle? && FsmFree(s)
    case ReedPush => s.reed.Reported?
    case External(e) => e.kind != VerificationTimeout
    case ClearRunning => true
    case CloseQueue => true
    case ControlStep => !s.control.Exited? && (s.control.Waiting? ==> s.queue.items != [] || s.queue.closed)
    case TimerStep => !s.timer.pc.Stopped? && (s.timer.pc.Sleeping? || s.timer.pc.PastReset? ==> FsmFree(s))
  }

  function ReedEvent(isOpen: bool): Event {
    Event(if isOpen then DoorOpened else DoorClosed, "ReedSwitch")
  }

  function Posted(s: Sys, p: Post): Sys {
    if s.queue.closed then s
    else s.(queue := Pushed(s.queue, p), hist := s.hist.(accepted := s.hist.accepted + [p]))
  }

  function ActiveAfter(active: bool, op: AlarmOp): bool {
    match op
    case Keep => active
    case Clear => false
    case Trigger(_) => true
  }

  predicate TakesOpening(s: Sys) {
    s.control.Took? && s.control.post.event.kind == DoorOpened && s.fsm.state == ArmedIdle
  }

  function ControlNext(s: Sys): Sys
    requires Enabled(s, ControlStep)
  {
    match s.control
    case Waiting =>
      (match Front(s.queue)
       case None => s.(control := Exited)
       case Some(p) =>
         s.(queue := Popped(s.queue), control := if p.event.kind == Shutdown then Exited else Took(p)))
    case Took(p) =>
      var (f, op) := Update(s.fsm, p.event, s.clock);
      var openings := if TakesOpening(s) then s.hist.openings + [s.clock] else s.hist.openings;
      s.(fsm := f, control := InHandler(op),
         hist := s.hist.(handled := s.hist.handled + [p], openings := openings))
    case InHandler(op) =>
      s.(alarmActive := ActiveAfter(s.alarmActive, op), control := Waiting,
         hist := s.hist.(silenced := s.hist.silenced && !op.Trigger?))
  }

  predicate Silences(s: Sys) {
    s.timer.pc.Measured? && s.timer.pc.cur == AlarmActive && s.timer.pc.elapsed > SILENCE_AFTER_MS
  }

  predicate AutoResets(s: Sys) {
    s.timer.pc.PastSilence? && s.timer.pc.cur == AuthorizedEntry && s.timer.pc.elapsed > RESET_AFTER_MS
  }

  /** The timer's own step, given what it sees of the rest. */
  function TimerMoves(s: Sys): TimerThread
    requires Enabled(s, TimerStep)
  {
    match s.timer.pc
    case AtHead => s.timer.(pc := if s.running then Sleeping else Stopped)
    case Sleeping => s.timer.(pc := Saw(s.fsm.state))
    case Saw(cur) =>
      if cur != s.timer.lastState
      then TimerThread(Stamped(cur), cur, s.clock)
      else s.timer.(pc := Stamped(cur))
    case Stamped(cur) => s.timer.(pc := Measured(cur, s.clock - s.timer.since))
    case Measured(cur, elapsed) => s.timer.(pc := PastSilence(cur, elapsed))
    case PastSilence(cur, elapsed) => s.timer.(pc := PastReset(cur))
    case PastReset(cur) => s.timer.(pc := Read(cur, s.fsm.deadline))
    case Read(cur, deadline) =>
      if cur == PendingVerification && deadline.Some? && s.clock >= deadline.value
      then s.timer.(pc := Due(deadline.value))
      else s.timer.(pc := AtHead)
    case Due(due) => s.timer.(pc := AtHead)
  }

  const AUTO_RESET := Post(Event(DoorClosed, "AutoReset"), None)

  function TimeoutPost(due: int): Post {
    Post(Event(VerificationTimeout, "timer"), Some(due))
  }

  /** What a timer step does to the rest of the system before it moves on. */
  function TimerActs(s: Sys): Sys {
    if Silences(s) then s.(alarmActive := false, hist := s.hist.(silenced := true))
    else if AutoResets(s) then Posted(s, AUTO_RESET)
    else if s.timer.pc.Due? then Posted(s, TimeoutPost(s.timer.pc.due))
    else s
  }

  function TimerNext(s: Sys): Sys
    requires Enabled(s, TimerStep)
  {
    TimerActs(s).(timer := TimerMoves(s))
  }

  function Next(s: Sys, a: Action): Sys
    requires Enabled(s, a)
  {
    match a
    case Tick(dt) => s.(clock := s.clock + dt)
    case ReedSet(isOpen) => s.(fsm := s.fsm.(doorOpen := isOpen), reed := Reported(isOpen))
    case ReedPush => Posted(s, Post(ReedEvent(s.reed.isOpen), None)).(reed := ReedIdle)
    case External(e) => Posted(s, Post(e, None))
    case ClearRunning => s.(running := false)
    case CloseQueue => s.(queue := s.queue.(closed := true))
    case ControlStep => ControlNext(s)
    case TimerStep => TimerNext(s)
  }

  /** b is the sequence of states visited by the actions, from the moment the threads start. */
  ghost predicate Behaviour(window: int, b: seq<Sys>, acts: seq<Action>) {
    && |b| == |acts| + 1
    && b[0] == Start(window, b[0].clock)
    && forall k {:trigger acts[k]} :: 0 <= k < |acts| ==> Enabled(b[k], acts[k]) && b[k + 1] == Next(b[k], acts[k])
  }

  ghost predicate Reachable(window: int, s: Sys) {
    exists b, acts :: Behaviour(window, b, acts) && b[|acts|] == s
  }

  /** Posts the control loop has not handled yet, oldest first. */
  function InFlight(s: Sys): seq<Post> {
    (if s.control.Took? then [s.control.post] else []) + s.queue.items
  }
}
