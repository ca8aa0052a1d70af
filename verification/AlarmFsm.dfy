/** Specification of the door alarm state machine and of the alarm it drives, on values.
    Time is an integer number of milliseconds on the monotone clock. */
module AlarmFsm {
  import opened Events

  datatype State =
    | Disarmed
    | ArmedIdle
    | PendingVerification
    | AuthorizedEntry
    | AlarmActive
    | Fault

  /** The fields guarded by the state machine's mutex. */
  datatype Fsm = Fsm(state: State, doorOpen: bool, window: int, deadline: Option<int>)

  /** The three output lines; writes are dropped until the lines have been claimed. */
  datatype Lines = Lines(claimed: bool, red: bool, green: bool, buzzer: bool)

  datatype Alarm = Alarm(active: bool, reason: string, lines: Lines)

  /** What a handler asks of the alarm manager after it has updated the state machine's own fields. */
  datatype AlarmOp = Keep | Clear | Trigger(reason: string)

  datatype Unit = Unit(fsm: Fsm, alarm: Alarm)

  function Secured(f: Fsm): Fsm {
    f.(state := ArmedIdle, deadline := None)
  }

  /** The field updates of one handler, under the mutex, and the alarm operation that follows them. */
  function Update(f: Fsm, e: Event, now: int): (Fsm, AlarmOp) {
    match e.kind
    case ArmSystem =>
      if f.state in {Disarmed, AuthorizedEntry} then (Secured(f), Clear) else (f, Keep)
    case DisarmSystem =>
      (f.(state := Disarmed, deadline := None), Clear)
    case DoorOpened =>
      if f.state == ArmedIdle
      then (f.(doorOpen := true, state := PendingVerification, deadline := Some(now + f.window)), Keep)
      else (f.(doorOpen := true), Keep)
    case DoorClosed =>
      if f.state in {AuthorizedEntry, PendingVerification, AlarmActive}
      then (Secured(f.(doorOpen := false)), Clear)
      else (f.(doorOpen := false), Keep)
    case AuthorizedByNfc => Authorize(f)
    case AuthorizedByApp => Authorize(f)
    case VerificationTimeout =>
      if f.state == PendingVerification
      then (f.(state := AlarmActive, deadline := None), Trigger("Timeout triggered by: " + e.source))
      else (f, Keep)
    case PrintStatus => (f, Keep)
    case Shutdown => (f, Keep)
  }

  function Authorize(f: Fsm): (Fsm, AlarmOp) {
    if !f.doorOpen && f.state in {ArmedIdle, PendingVerification, AlarmActive}
    then (f.(state := AuthorizedEntry, deadline := None), Clear)
    else (f, Keep)
  }

  function WithBuzzer(l: Lines, on: bool): Lines {
    if l.claimed then l.(buzzer := on) else l
  }

  function WithRed(l: Lines, on: bool): Lines {
    if l.claimed then l.(red := on) else l
  }

  function Operated(a: Alarm, op: AlarmOp): Alarm {
    match op
    case Keep => a
    case Clear => a.(active := false, lines := WithBuzzer(a.lines, false))
    case Trigger(reason) => Alarm(true, reason, WithRed(WithBuzzer(a.lines, true), true))
  }

  /** One event handled without interference. */
  function Handled(u: Unit, e: Event, now: int): Unit {
    var (f, op) := Update(u.fsm, e, now);
    Unit(f, Operated(u.alarm, op))
  }

  /** The state machine as constructed, with all output lines off. */
  function Initial(window: int, claimed: bool): Unit {
    Unit(Fsm(ArmedIdle, false, window, None),
         Alarm(false, "unknown", Lines(claimed, false, false, false)))
  }

  /** An event together with the clock reading its handler sees. */
  datatype Timed = Timed(event: Event, now: int)

  function RunFrom(u: Unit, t: seq<Timed>): Unit {
    if t == [] then u
    else
      var last := t[|t| - 1];
      Handled(RunFrom(u, t[..|t| - 1]), last.event, last.now)
  }
}
