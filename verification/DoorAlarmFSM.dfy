/** The state machine, its alarm manager and the output lines as the objects the program updates in
    place.  Every method is tied to the specification in AlarmFsm. */
module DoorAlarmObjects {
  import opened Events
  import opened AlarmFsm

  class OutputController {
    var claimed: bool
    var red: bool
    var green: bool
    var buzzer: bool

    ghost function View(): Lines
      reads this
    {
      Lines(claimed, red, green, buzzer)
    }

    constructor ()
      ensures View() == Lines(false, false, false, false)
    {
      claimed, red, green, buzzer := false, false, false, false;
    }

    /** Claims the lines with every output inactive; a hardware error leaves them as they were. */
    method Init(hardwareOk: bool) returns (ok: bool)
      modifies this
      ensures ok == hardwareOk
      ensures View() == if ok then Lines(true, false, false, false) else old(View())
    {
      if hardwareOk {
        claimed, red, green, buzzer := true, false, false, false;
      }
      ok := hardwareOk;
    }

    method SetRedLed(on: bool)
      modifies this
      ensures View() == WithRed(old(View()), on)
    {
      if claimed {
        red := on;
      }
    }

    method SetGreenLed(on: bool)
      modifies this
      ensures View() == if old(claimed) then old(View()).(green := on) else old(View())
    {
      if claimed {
        green := on;
      }
    }

    method SetBuzzer(on: bool)
      modifies this
      ensures View() == WithBuzzer(old(View()), on)
    {
      if claimed {
        buzzer := on;
      }
    }
  }

  class AlarmManager {
    const outputs: OutputController
    var alarmActive: bool
    var lastReason: string

    ghost function View(): Alarm
      reads this, outputs
    {
      Alarm(alarmActive, lastReason, outputs.View())
    }

    constructor (outputs: OutputController)
      ensures this.outputs == outputs
      ensures View() == Alarm(false, "unknown", outputs.View())
    {
      this.outputs := outputs;
      alarmActive, lastReason := false, "unknown";
    }

    method TriggerAlarm(reason: string)
      modifies this, outputs
      ensures View() == Operated(old(View()), Trigger(reason))
    {
      alarmActive := true;
      lastReason := reason;
      outputs.SetBuzzer(true);
      outputs.SetRedLed(true);
    }

    method ClearAlarm()
      modifies this, outputs
      ensures View() == Operated(old(View()), Clear)
    {
      alarmActive := false;
      outputs.SetBuzzer(false);
    }

    /** Stopping silences the alarm whatever was going on. */
    method Stop()
      modifies this, outputs
      ensures View() == Operated(old(View()), Clear)
      ensures !alarmActive
    {
      ClearAlarm();
    }
  }

  class DoorAlarmFSM {
    const alarmManager: AlarmManager
    var state: State
    var doorOpen: bool
    var window: int
    var deadline: Option<int>

    ghost function View(): Unit
      reads this, alarmManager, alarmManager.outputs
    {
      Unit(Fsm(state, doorOpen, window, deadline), alarmManager.View())
    }

    constructor (alarmManager: AlarmManager)
      ensures this.alarmManager == alarmManager
      ensures View() == Unit(Initial(5000, false).fsm, alarmManager.View())
    {
      this.alarmManager := alarmManager;
      state, doorOpen, window, deadline := ArmedIdle, false, 5000, None;
    }

    method HandleEvent(e: Event, now: int)
      modifies this, alarmManager, alarmManager.outputs
      ensures View() == Handled(old(View()), e, now)
    {
      match e.kind {
        case ArmSystem => HandleArm();
        case DisarmSystem => HandleDisarm();
        case DoorOpened => HandleDoorOpened(now);
        case DoorClosed => HandleDoorClosed();
        case AuthorizedByNfc => HandleAuthorization(e);
        case AuthorizedByApp => HandleAuthorization(e);
        case VerificationTimeout => HandleVerificationTimeout(e.source);
        case PrintStatus =>
        case Shutdown =>
      }
    }

    method HandleDoorOpened(now: int)
      modifies this
      ensures forall source :: View() == Handled(old(View()), Event(DoorOpened, source), now)
    {
      doorOpen := true;
      if state == ArmedIdle {
        state := PendingVerification;
        deadline := Some(now + window);
      }
    }

    method HandleDoorClosed()
      modifies this, alarmManager, alarmManager.outputs
      ensures forall source, now :: View() == Handled(old(View()), Event(DoorClosed, source), now)
    {
      doorOpen := false;
      if state == AuthorizedEntry || state == PendingVerification || state == AlarmActive {
        state := ArmedIdle;
        ClearAuthorizationWindow();
        alarmManager.ClearAlarm();
      }
    }

    method HandleAuthorization(e: Event)
      requires IsAuthorization(e.kind)
      modifies this, alarmManager, alarmManager.outputs
      ensures forall now :: View() == Handled(old(View()), e, now)
    {
      if doorOpen {
        return;
      }
      if state == ArmedIdle || state == PendingVerification || state == AlarmActive {
        state := AuthorizedEntry;
        ClearAuthorizationWindow();
        alarmManager.ClearAlarm();
      }
    }

    method HandleVerificationTimeout(source: string)
      modifies this, alarmManager, alarmManager.outputs
      ensures forall now :: View() == Handled(old(View()), Event(VerificationTimeout, source), now)
    {
      if state == PendingVerification {
        state := AlarmActive;
        ClearAuthorizationWindow();
        alarmManager.TriggerAlarm("Timeout triggered by: " + source);
      }
    }

    method HandleArm()
      modifies this, alarmManager, alarmManager.outputs
      ensures forall source, now :: View() == Handled(old(View()), Event(ArmSystem, source), now)
    {
      if state == Disarmed || state == AuthorizedEntry {
        state := ArmedIdle;
        ClearAuthorizationWindow();
        alarmManager.ClearAlarm();
      }
    }

    method HandleDisarm()
      modifies this, alarmManager, alarmManager.outputs
      ensures forall source, now :: View() == Handled(old(View()), Event(DisarmSystem, source), now)
    {
      state := Disarmed;
      ClearAuthorizationWindow();
      alarmManager.ClearAlarm();
    }

    method ClearAuthorizationWindow()
      modifies this`deadline
      ensures deadline == None
    {
      deadline := None;
    }

    method SetDoorState(isOpen: bool)
      modifies this`doorOpen
      ensures doorOpen == isOpen
    {
      doorOpen := isOpen;
    }

    method SetAuthorizationWindow(ms: int)
      modifies this`window
      ensures window == ms
    {
      window := ms;
    }

    method GetState() returns (s: State)
      ensures s == state
    {
      s := state;
    }

    method GetVerificationDeadline() returns (d: Option<int>)
      ensures d == deadline
    {
      d := deadline;
    }

    /** Feeds a whole trace to the state machine. */
    method HandleAll(t: seq<Timed>)
      modifies this, alarmManager, alarmManager.outputs
      ensures View() == RunFrom(old(View()), t)
    {
      for i := 0 to |t|
        invariant View() == RunFrom(old(View()), t[..i])
      {
        HandleEvent(t[i].event, t[i].now);
        assert t[..i + 1][..i] == t[..i];
      }
      assert t[..|t|] == t;
    }
  }
}
