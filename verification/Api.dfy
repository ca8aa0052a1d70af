/** The web API's system state: its meaning on values, and the server object whose handlers update it
    under one lock. */
module Api {
  import opened Events

  datatype LogEntry = LogEntry(id: string, time: string, kind: string, message: string, extra: string)

  /** The fields that decide about the alarm. */
  datatype Guard = Guard(
    systemArmed: bool,
    alarmActive: bool,
    doorOpen: bool,
    pending: bool,
    intrusion: bool,
    buzzerOn: bool,
    led: string)

  datatype Access = Access(accessMethod: string, user: string, time: string)

  datatype Devices = Devices(camera: bool, nfc: bool, gpio: bool, api: bool)

  datatype Status = Status(guard: Guard, lockState: string, access: Access, devices: Devices)

  datatype Request =
    | Arm
    | Disarm
    | LockDoor
    | UnlockDoor
    | Authorize(accessMethod: string, user: string)
    | OpenDoor
    | CloseDoor
    | TriggerAlarm(reason: string)
    | ClearAlarm
    | UpdateDevices(gpio: Option<bool>, nfc: Option<bool>, camera: Option<bool>)
    | TestEmail

  const WINDOW_MS := 5000

  const RED := "red"
  const YELLOW := "yellow"
  const GREEN := "green"

  function LedFor(alarmActive: bool, pending: bool): string {
    if alarmActive then RED else if pending then YELLOW else GREEN
  }

  predicate KnownMethod(m: string) {
    m == "nfc" || m == "face" || m == "api"
  }

  /** At the start: armed, and nothing else. */
  function Boot(): Guard {
    Guard(true, false, false, false, false, false, GREEN)
  }

  function Alarmed(g: Guard): Guard {
    g.(alarmActive := true, intrusion := true, buzzerOn := true, pending := false, led := RED)
  }

  function Cleared(g: Guard): Guard {
    g.(alarmActive := false, intrusion := false, buzzerOn := false, led := LedFor(false, g.pending))
  }

  /** The effect of a request on the guard fields. */
  function Guarded(g: Guard, r: Request): Guard {
    match r
    case Arm => g.(systemArmed := true, led := LedFor(g.alarmActive, g.pending))
    case Disarm => Cleared(g.(systemArmed := false, pending := false))
    case LockDoor => g
    case UnlockDoor => g
    case Authorize(m, _) =>
      if KnownMethod(m) then g.(pending := false, intrusion := false, led := LedFor(g.alarmActive, false)) else g
    case OpenDoor =>
      if g.systemArmed then g.(doorOpen := true, pending := true, led := LedFor(g.alarmActive, true))
      else g.(doorOpen := true)
    case CloseDoor => g.(doorOpen := false, pending := false, led := LedFor(g.alarmActive, false))
    case TriggerAlarm(_) => Alarmed(g)
    case ClearAlarm => Cleared(g)
    case UpdateDevices(_, _, _) => g
    case TestEmail => g
  }

  /** The check a verification thread makes when its sleep is over. */
  predicate Expired(g: Guard) {
    g.doorOpen && g.systemArmed && g.pending
  }

  function Checked(g: Guard): Guard {
    if Expired(g) then Alarmed(g) else g
  }

  // The log.

  /** The identity and time stamp a log entry is given. */
  datatype Stamp = Stamp(id: string, time: string)

  function Entry(at: Stamp, kind: string, message: string, extra: string): LogEntry {
    LogEntry(at.id, at.time, kind, message, extra)
  }

  class ApiServer {
    var systemArmed: bool
    var alarmActive: bool
    var doorOpen: bool
    var pending: bool
    var intrusion: bool
    var buzzerOn: bool
    var led: string
    var lockState: string
    var access: Access
    var devices: Devices
    var logs: seq<LogEntry>
    /** Every entry ever logged, newest first. */
    ghost var history: seq<LogEntry>
    /** When the detached verification threads still asleep are due, in the order they were spawned. */
    var checkers: seq<int>
    /** Email threads that have not reported back yet: those of alarms, and those of test requests. */
    var emails: nat
    var testEmails: nat

    ghost function Guards(): Guard
      reads this
    {
      Guard(systemArmed, alarmActive, doorOpen, pending, intrusion, buzzerOn, led)
    }

    ghost function View(): Status
      reads this
    {
      Status(Guards(), lockState, access, devices)
    }

    /** The in-memory log is the newest part of the history, up to the maximum. */
    ghost predicate LogValid()
      reads this
    {
      |logs| == (if |history| < 300 then |history| else 300) && logs == history[..|logs|]
    }

    constructor ()
      ensures Guards() == Boot() && LogValid() && history == [] && checkers == []
      ensures lockState == "locked" && access == Access("null", "null", "null")
      ensures devices == Devices(true, true, true, true)
      ensures emails == 0 && testEmails == 0
    {
      systemArmed, alarmActive, doorOpen := true, false, false;
      pending, intrusion, buzzerOn, led := false, false, false, "green";
      lockState, access, devices := "locked", Access("null", "null", "null"), Devices(true, true, true, true);
      logs, history, checkers := [], [], [];
      emails, testEmails := 0, 0;
    }

    /** The entries logged when the server starts. */
    method LogStart(emailConfigured: bool, at: Stamp, at2: Stamp)
      requires LogValid()
      modifies `logs, `history
      ensures LogValid()
      ensures history ==
        [Entry(at2, "email", if emailConfigured then "Email alert configured" else "Email alert not configured", ""),
         Entry(at, "system", "API server started on port 3000", "")]
        + old(history)
    {
      AddLog(at, "system", "API server started on port 3000", "");
      if emailConfigured {
        AddLog(at2, "email", "Email alert configured", "");
      } else {
        AddLog(at2, "email", "Email alert not configured", "");
      }
    }

    method AddLog(at: Stamp, kind: string, message: string, extra: string)
      requires LogValid()
      modifies this`logs, this`history
      ensures LogValid() && history == [LogEntry(at.id, at.time, kind, message, extra)] + old(history)
    {
      var entry := Entry(at, kind, message, extra);
      history := [entry] + history;
      logs := [entry] + logs;
      if |logs| > 300 {
        logs := logs[..|logs| - 1];
      }
    }

    method UpdateLedStatus()
      modifies this`led
      ensures led == if alarmActive then "red" else if pending then "yellow" else "green"
    {
      if alarmActive {
        led := "red";
      } else if pending {
        led := "yellow";
      } else {
        led := "green";
      }
    }

    method RaiseAlarm(reason: string, at: Stamp)
      requires LogValid()
      modifies `alarmActive, `intrusion, `buzzerOn, `pending, `led, `logs, `history, `emails
      ensures Guards() == Alarmed(old(Guards())) && LogValid()
      ensures history == [Entry(at, "alarm", "Alarm triggered", reason)] + old(history)
      ensures emails == old(emails) + 1
    {
      alarmActive := true;
      intrusion := true;
      buzzerOn := true;
      pending := false;
      UpdateLedStatus();
      AddLog(at, "alarm", "Alarm triggered", reason);
      emails := emails + 1;
    }

    method SilenceAlarm(at: Stamp)
      requires LogValid()
      modifies `alarmActive, `intrusion, `buzzerOn, `led, `logs, `history
      ensures Guards() == Cleared(old(Guards())) && LogValid()
      ensures history == [Entry(at, "alarm", "Alarm cleared", "")] + old(history)
    {
      alarmActive := false;
      intrusion := false;
      buzzerOn := false;
      UpdateLedStatus();
      AddLog(at, "alarm", "Alarm cleared", "");
    }

    method HandleArm(at: Stamp)
      requires LogValid()
      modifies `systemArmed, `led, `logs, `history
      ensures Guards() == Guarded(old(Guards()), Arm) && LogValid()
      ensures history == [Entry(at, "system", "System armed", "")] + old(history)
    {
      systemArmed := true;
      UpdateLedStatus();
      AddLog(at, "system", "System armed", "");
    }

    method HandleDisarm(at: Stamp, at2: Stamp)
      requires LogValid()
      modifies `systemArmed, `pending, `alarmActive, `intrusion, `buzzerOn, `led, `logs, `history
      ensures Guards() == Guarded(old(Guards()), Disarm) && LogValid()
      ensures history ==
        [Entry(at2, "system", "System disarmed", ""), Entry(at, "alarm", "Alarm cleared", "")] + old(history)
    {
      systemArmed := false;
      pending := false;
      SilenceAlarm(at);
      UpdateLedStatus();
      AddLog(at2, "system", "System disarmed", "");
    }

    method HandleLock(at: Stamp)
      requires LogValid()
      modifies `lockState, `logs, `history
      ensures Guards() == Guarded(old(Guards()), LockDoor) && LogValid()
      ensures lockState == "locked"
      ensures history == [Entry(at, "system", "Door locked", "")] + old(history)
    {
      lockState := "locked";
      AddLog(at, "system", "Door locked", "");
    }

    method HandleUnlock(at: Stamp)
      requires LogValid()
      modifies `lockState, `logs, `history
      ensures Guards() == Guarded(old(Guards()), UnlockDoor) && LogValid()
      ensures lockState == "unlocked"
      ensures history == [Entry(at, "system", "Door unlocked", "")] + old(history)
    {
      lockState := "unlocked";
      AddLog(at, "system", "Door unlocked", "");
    }

    /** An unknown method is refused and changes nothing. */
    method HandleAuthorize(accessMethod: string, user: string, time: string, at: Stamp) returns (status: int)
      requires LogValid()
      modifies `access, `pending, `intrusion, `led, `logs, `history
      ensures Guards() == Guarded(old(Guards()), Authorize(accessMethod, user)) && LogValid()
      ensures status == if accessMethod in {"nfc", "face", "api"} then 200 else 400
      ensures status == 200 ==> access == Access(accessMethod, if user == "" then "unknown" else user, time)
      ensures status == 400 ==> history == old(history) && access == old(access) && Guards() == old(Guards())
      ensures status == 200 ==>
        var name := if user == "" then "unknown" else user;
        history == [Entry(at, "access", "Access authorized", accessMethod + ":" + name)] + old(history)
    {
      if accessMethod != "nfc" && accessMethod != "face" && accessMethod != "api" {
        return 400;
      }
      var name := user;
      if name == "" {
        name := "unknown";
      }
      access := Access(accessMethod, name, time);
      pending := false;
      intrusion := false;
      UpdateLedStatus();
      AddLog(at, "access", "Access authorized", accessMethod + ":" + name);
      status := 200;
    }

    /** Every opening, armed or not, leaves a verification thread behind. */
    method HandleOpenDoor(now: int, at: Stamp, at2: Stamp)
      requires LogValid()
      modifies `doorOpen, `pending, `led, `checkers, `logs, `history
      ensures Guards() == Guarded(old(Guards()), OpenDoor) && LogValid()
      ensures history ==
        (if systemArmed then [Entry(at2, "system", "Verification window started", "5 seconds")] else [])
        + [Entry(at, "door", "Door opened", "")] + old(history)
      ensures checkers == old(checkers) + [now + 5000]
    {
      doorOpen := true;
      AddLog(at, "door", "Door opened", "");
      if systemArmed {
        pending := true;
        UpdateLedStatus();
        AddLog(at2, "system", "Verification window started", "5 seconds");
      }
      checkers := checkers + [now + 5 * 1000];
    }

    method HandleCloseDoor(at: Stamp)
      requires LogValid()
      modifies `doorOpen, `pending, `led, `logs, `history
      ensures Guards() == Guarded(old(Guards()), CloseDoor) && LogValid()
      ensures history == [Entry(at, "door", "Door closed", "")] + old(history)
    {
      doorOpen := false;
      pending := false;
      UpdateLedStatus();
      AddLog(at, "door", "Door closed", "");
    }

    method HandleTriggerAlarm(reason: string, at: Stamp)
      requires LogValid()
      modifies `alarmActive, `intrusion, `buzzerOn, `pending, `led, `emails, `logs, `history
      ensures Guards() == Guarded(old(Guards()), TriggerAlarm(reason)) && LogValid()
      ensures history ==
        [Entry(at, "alarm", "Alarm triggered", if reason == "" then "Manual alarm trigger" else reason)] + old(history)
      ensures emails == old(emails) + 1
    {
      RaiseAlarm(if reason == "" then "Manual alarm trigger" else reason, at);
    }

    method HandleClearAlarm(at: Stamp)
      requires LogValid()
      modifies `alarmActive, `intrusion, `buzzerOn, `led, `logs, `history
      ensures Guards() == Guarded(old(Guards()), ClearAlarm) && LogValid()
      ensures history == [Entry(at, "alarm", "Alarm cleared", "")] + old(history)
    {
      SilenceAlarm(at);
    }

    method HandleUpdateDevices(gpio: Option<bool>, nfc: Option<bool>, camera: Option<bool>, at: Stamp)
      requires LogValid()
      modifies `devices, `logs, `history
      ensures Guards() == Guarded(old(Guards()), UpdateDevices(gpio, nfc, camera)) && LogValid()
      ensures devices ==
        old(devices).(camera := if camera.Some? then camera.value else old(devices.camera),
                      nfc := if nfc.Some? then nfc.value else old(devices.nfc),
                      gpio := if gpio.Some? then gpio.value else old(devices.gpio))
      ensures history == [Entry(at, "device", "Device status updated", "")] + old(history)
    {
      if gpio.Some? {
        devices := devices.(gpio := gpio.value);
      }
      if nfc.Some? {
        devices := devices.(nfc := nfc.value);
      }
      if camera.Some? {
        devices := devices.(camera := camera.value);
      }
      AddLog(at, "device", "Device status updated", "");
    }

    /** A verification thread wakes up. */
    method VerificationExpires(i: nat, at: Stamp)
      requires LogValid() && i < |checkers|
      modifies `alarmActive, `intrusion, `buzzerOn, `pending, `led, `emails, `checkers, `logs, `history
      ensures Guards() == Checked(old(Guards())) && LogValid()
      ensures checkers == old(checkers)[..i] + old(checkers)[i + 1..]
      ensures history ==
        (if Expired(old(Guards()))
         then [Entry(at, "alarm", "Alarm triggered", "Door opened without valid authorization in time window")]
         else [])
        + old(history)
      ensures emails == old(emails) + if Expired(old(Guards())) then 1 else 0
    {
      checkers := checkers[..i] + checkers[i + 1..];
      if doorOpen && systemArmed && pending {
        RaiseAlarm("Door opened without valid authorization in time window", at);
      }
    }

    method HandleTestEmail()
      modifies `testEmails
      ensures Guards() == Guarded(old(Guards()), TestEmail)
      ensures testEmails == old(testEmails) + 1
    {
      testEmails := testEmails + 1;
    }

    /** A test request's email thread reports its outcome. */
    method TestEmailReports(ok: bool, at: Stamp)
      requires LogValid() && testEmails > 0
      modifies `logs, `history, `testEmails
      ensures LogValid() && testEmails == old(testEmails) - 1
      ensures history == [Entry(at, "email", if ok then "Test email sent" else "Test email failed", "")] + old(history)
    {
      testEmails := testEmails - 1;
      AddLog(at, "email", if ok then "Test email sent" else "Test email failed", "");
    }

    /** An alarm's email thread reports its outcome; the system state is only read. */
    method EmailReports(ok: bool, at: Stamp)
      requires LogValid() && emails > 0
      modifies this`logs, this`history, this`emails
      ensures LogValid() && emails == old(emails) - 1
      ensures history ==
        [Entry(at, "email", if ok then "Email alert sent" else "Email alert failed", "")] + old(history)
    {
      emails := emails - 1;
      AddLog(at, "email", if ok then "Email alert sent" else "Email alert failed", "");
    }
  }
}
