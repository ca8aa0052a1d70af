/** What the state of the alarm says about the past: each state is characterised exactly by the
    trace of handled events, and repeated or inert events can be dropped from a trace. */
module FsmHistory {
  import opened Events
  import opened AlarmFsm

  function Run(window: int, claimed: bool, t: seq<Timed>): Unit {
    RunFrom(Initial(window, claimed), t)
  }

  /** The state just before event i of the trace. */
  function Before(window: int, claimed: bool, t: seq<Timed>, i: nat): Unit
    requires i <= |t|
  {
    Run(window, claimed, t[..i])
  }

  /** No event of the given kinds after position i. */
  ghost predicate NoneAfter(t: seq<Timed>, i: int, kinds: set<EventType>) {
    forall k :: 0 <= k && i < k < |t| ==> t[k].event.kind !in kinds
  }

  /** Event i is a door opening taken while armed and idle: the start of an alarm episode. */
  ghost predicate OpensEpisode(w: int, c: bool, t: seq<Timed>, i: int) {
    0 <= i < |t| && t[i].event.kind == DoorOpened && Before(w, c, t, i).fsm.state == ArmedIdle
  }

  ghost predicate Pending(w: int, c: bool, t: seq<Timed>, i: int) {
    OpensEpisode(w, c, t, i) && NoneAfter(t, i, {DoorClosed, DisarmSystem, VerificationTimeout})
  }

  /** An episode opened at i timed out at j, and nothing has ended it since. */
  ghost predicate TimedOut(w: int, c: bool, t: seq<Timed>, i: int, j: int) {
    && OpensEpisode(w, c, t, i)
    && i < j < |t| && t[j].event.kind == VerificationTimeout
    && NoneAfter(t, i, {DoorClosed, DisarmSystem})
  }

  /** Event i is an authorisation taken while idle with the door closed, and nothing has ended the entry since. */
  ghost predicate Admitted(w: int, c: bool, t: seq<Timed>, i: int) {
    && 0 <= i < |t| && IsAuthorization(t[i].event.kind)
    && Before(w, c, t, i).fsm.state == ArmedIdle && !Before(w, c, t, i).fsm.doorOpen
    && NoneAfter(t, i, {DoorClosed, DisarmSystem, ArmSystem})
  }

  ghost predicate DisarmedSince(t: seq<Timed>, i: int) {
    0 <= i < |t| && t[i].event.kind == DisarmSystem && NoneAfter(t, i, {ArmSystem})
  }

  /** Position i holds the last door report of the trace. */
  ghost predicate LastReport(t: seq<Timed>, i: int) {
    0 <= i < |t| && IsDoorReport(t[i].event.kind) && NoneAfter(t, i, {DoorOpened, DoorClosed})
  }

  /** The facts every run keeps. */
  ghost predicate Consistent(u: Unit) {
    && u.fsm.state != Fault
    && (u.fsm.deadline.Some? <==> u.fsm.state == PendingVerification)
    && (u.fsm.state in {PendingVerification, AlarmActive} ==> u.fsm.doorOpen)
    && (u.alarm.active <==> u.fsm.state == AlarmActive)
    && (u.alarm.lines.claimed ==> u.alarm.lines.buzzer == u.alarm.active)
    && (u.alarm.active && u.alarm.lines.claimed ==> u.alarm.lines.red)
  }

  /** In every run the deadline exists exactly while verification is pending, an episode implies an
      open door, and the alarm manager, driven by the state machine alone, has its flag set and its buzzer
      on exactly in AlarmActive. */
  lemma {:induction false} RunConsistent(w: int, c: bool, t: seq<Timed>)
    ensures Consistent(Run(w, c, t))
    ensures Run(w, c, t).fsm.window == w && Run(w, c, t).alarm.lines.claimed == c
  {
    if t != [] {
      RunConsistent(w, c, t[..|t| - 1]);
    }
  }

  /** Taking the prefix before the last event. */
  lemma PrefixOf(w: int, c: bool, t: seq<Timed>)
    requires t != []
    ensures var p := t[..|t| - 1];
            && Before(w, c, t, |t| - 1) == Run(w, c, p)
            && (forall i {:trigger Before(w, c, t, i)} :: 0 <= i < |p| ==> Before(w, c, t, i) == Before(w, c, p, i))
            && (forall i {:trigger OpensEpisode(w, c, t, i)} :: 0 <= i < |p| ==>
                  OpensEpisode(w, c, t, i) == OpensEpisode(w, c, p, i))
  {
    var p := t[..|t| - 1];
    forall i | 0 <= i < |p|
      ensures Before(w, c, t, i) == Before(w, c, p, i)
      ensures OpensEpisode(w, c, t, i) == OpensEpisode(w, c, p, i)
    {
      assert t[..i] == p[..i];
    }
  }

  /** Verification is pending exactly when an episode was opened and neither a close, a disarm nor a
      timeout has come since; the deadline is then that opening's time plus the window. */
  lemma {:induction false} PendingHistory(w: int, c: bool, t: seq<Timed>)
    ensures Run(w, c, t).fsm.state == PendingVerification <==> exists i :: Pending(w, c, t, i)
    ensures forall i :: Pending(w, c, t, i) ==> Run(w, c, t).fsm.deadline == Some(t[i].now + w)
  {
    if t != [] {
      var n := |t| - 1;
      var p := t[..n];
      PendingHistory(w, c, p);
      PrefixOf(w, c, t);
      RunConsistent(w, c, p);
      forall i | Pending(w, c, t, i)
        ensures Run(w, c, t).fsm.state == PendingVerification
        ensures Run(w, c, t).fsm.deadline == Some(t[i].now + w)
      {
        assert i < n ==> Pending(w, c, p, i) && t[n].event.kind !in {DoorClosed, DisarmSystem, VerificationTimeout};
      }
      if Run(w, c, t).fsm.state == PendingVerification {
        if Run(w, c, p).fsm.state == PendingVerification {
          var i :| Pending(w, c, p, i);
          assert Pending(w, c, t, i);
        } else {
          assert Pending(w, c, t, n);
        }
      }
    }
  }

  /** A timed-out episode, seen from the trace without its last event. */
  lemma TimedOutBefore(w: int, c: bool, t: seq<Timed>, i: int, j: int)
    requires TimedOut(w, c, t, i, j)
    ensures var p := t[..|t| - 1];
            (exists k :: TimedOut(w, c, p, i, k))
            || (Pending(w, c, p, i) && t[|t| - 1].event.kind == VerificationTimeout)
  {
    var n := |t| - 1;
    var p := t[..n];
    PrefixOf(w, c, t);
    if j < n {
      assert TimedOut(w, c, p, i, j);
    } else if k :| i < k < n && t[k].event.kind == VerificationTimeout {
      assert TimedOut(w, c, p, i, k);
    } else {
      assert Pending(w, c, p, i);
    }
  }

  /** The alarm is active exactly when an opened episode timed out and no close or disarm has come
      since that opening; authorisations and arming cannot silence it. */
  lemma {:induction false} AlarmHistory(w: int, c: bool, t: seq<Timed>)
    ensures Run(w, c, t).fsm.state == AlarmActive <==> exists i, j :: TimedOut(w, c, t, i, j)
  {
    if t != [] {
      var n := |t| - 1;
      var p := t[..n];
      AlarmHistory(w, c, p);
      PendingHistory(w, c, p);
      PrefixOf(w, c, t);
      RunConsistent(w, c, p);
      forall i, j | TimedOut(w, c, t, i, j)
        ensures Run(w, c, t).fsm.state == AlarmActive
      {
        TimedOutBefore(w, c, t, i, j);
        assert t[n].event.kind !in {DoorClosed, DisarmSystem};
      }
      if Run(w, c, t).fsm.state == AlarmActive {
        if Run(w, c, p).fsm.state == AlarmActive {
          var i, j :| TimedOut(w, c, p, i, j);
          assert TimedOut(w, c, t, i, j);
        } else {
          var i :| Pending(w, c, p, i);
          assert TimedOut(w, c, t, i, n);
        }
      }
    }
  }

  /** The first timeout of the episode is the one the alarm's reason names. */
  lemma {:induction false} AlarmReason(w: int, c: bool, t: seq<Timed>, i: int, j: int)
    requires TimedOut(w, c, t, i, j)
    requires forall k :: i < k < j ==> t[k].event.kind != VerificationTimeout
    ensures Run(w, c, t).alarm.reason == "Timeout triggered by: " + t[j].event.source
    decreases |t|
  {
    var n := |t| - 1;
    var p := t[..n];
    PrefixOf(w, c, t);
    RunConsistent(w, c, p);
    if j < n {
      assert TimedOut(w, c, p, i, j);
      AlarmReason(w, c, p, i, j);
      AlarmHistory(w, c, p);
    } else {
      assert Pending(w, c, p, i);
      PendingHistory(w, c, p);
    }
  }

  /** Event j is a timeout that raises the alarm. */
  ghost predicate Raising(w: int, c: bool, t: seq<Timed>, j: int) {
    && 0 <= j < |t| && t[j].event.kind == VerificationTimeout
    && Before(w, c, t, j).fsm.state == PendingVerification
  }

  /** It is the last one so far. */
  ghost predicate LastRaising(w: int, c: bool, t: seq<Timed>, j: int) {
    Raising(w, c, t, j) && forall k :: j < k < |t| ==> !Raising(w, c, t, k)
  }

  lemma RaisingBefore(w: int, c: bool, t: seq<Timed>)
    requires t != []
    ensures var (p, n) := (t[..|t| - 1], |t| - 1);
            forall j :: LastRaising(w, c, t, j) <==> if Raising(w, c, t, n) then j == n else LastRaising(w, c, p, j)
  {
    var (p, n) := (t[..|t| - 1], |t| - 1);
    PrefixOf(w, c, t);
    assert forall j :: 0 <= j < n ==> (Raising(w, c, t, j) <==> Raising(w, c, p, j));
    forall j ensures LastRaising(w, c, t, j) <==> if Raising(w, c, t, n) then j == n else LastRaising(w, c, p, j) {
      if LastRaising(w, c, t, j) && j != n {
        assert !Raising(w, c, t, n);
      }
    }
  }

  /** What the alarm leaves behind: once claimed, the red line is on, and the reason names a timeout, exactly if
      an alarm was ever raised; the reason is that of the last one, whatever has ended it since.  The state
      machine never touches the green line, and no line before they are claimed. */
  lemma {:induction false} TracesOfAlarms(w: int, c: bool, t: seq<Timed>)
    ensures var a := Run(w, c, t).alarm;
            && (a.lines.red <==> c && exists j :: LastRaising(w, c, t, j))
            && (forall j :: LastRaising(w, c, t, j) ==> a.reason == "Timeout triggered by: " + t[j].event.source)
            && ((forall j :: !LastRaising(w, c, t, j)) ==> a.reason == "unknown")
            && !a.lines.green && (!c ==> !a.lines.buzzer)
  {
    if t != [] {
      var (p, n) := (t[..|t| - 1], |t| - 1);
      TracesOfAlarms(w, c, p);
      RunConsistent(w, c, p);
      PrefixOf(w, c, t);
      RaisingBefore(w, c, t);
      if Raising(w, c, t, n) {
        assert LastRaising(w, c, t, n);
      } else if j :| LastRaising(w, c, p, j) {
        assert LastRaising(w, c, t, j);
      }
    }
  }

  /** Entry is authorised exactly when an authorisation was taken in ArmedIdle with the door closed
      and no close, disarm or arm has come since.  In particular opening the door keeps the entry. */
  lemma {:induction false} AuthorizedHistory(w: int, c: bool, t: seq<Timed>)
    ensures Run(w, c, t).fsm.state == AuthorizedEntry <==> exists i :: Admitted(w, c, t, i)
  {
    if t != [] {
      var n := |t| - 1;
      var p := t[..n];
      AuthorizedHistory(w, c, p);
      PrefixOf(w, c, t);
      RunConsistent(w, c, p);
      forall i | Admitted(w, c, t, i)
        ensures Run(w, c, t).fsm.state == AuthorizedEntry
      {
        assert i < n ==> Admitted(w, c, p, i) && t[n].event.kind !in {DoorClosed, DisarmSystem, ArmSystem};
      }
      if Run(w, c, t).fsm.state == AuthorizedEntry {
        if Run(w, c, p).fsm.state == AuthorizedEntry {
          var i :| Admitted(w, c, p, i);
          assert Admitted(w, c, t, i);
        } else {
          assert Admitted(w, c, t, n);
        }
      }
    }
  }

  /** The system is disarmed exactly when a disarm has not been followed by an arm. */
  lemma {:induction false} DisarmedHistory(w: int, c: bool, t: seq<Timed>)
    ensures Run(w, c, t).fsm.state == Disarmed <==> exists i :: DisarmedSince(t, i)
  {
    if t != [] {
      var n := |t| - 1;
      var p := t[..n];
      DisarmedHistory(w, c, p);
      forall i | DisarmedSince(t, i)
        ensures Run(w, c, t).fsm.state == Disarmed
      {
        assert i < n ==> DisarmedSince(p, i) && t[n].event.kind != ArmSystem;
      }
      if Run(w, c, t).fsm.state == Disarmed {
        if Run(w, c, p).fsm.state == Disarmed {
          var i :| DisarmedSince(p, i);
          assert DisarmedSince(t, i);
        } else {
          assert DisarmedSince(t, n);
        }
      }
    }
  }

  /** The remaining state: ArmedIdle is what is left when none of the four histories applies. */
  lemma ArmedIdleHistory(w: int, c: bool, t: seq<Timed>)
    ensures Run(w, c, t).fsm.state == ArmedIdle
       <==> && !(exists i :: Pending(w, c, t, i)) && !(exists i, j :: TimedOut(w, c, t, i, j))
            && !(exists i :: Admitted(w, c, t, i)) && !(exists i :: DisarmedSince(t, i))
  {
    PendingHistory(w, c, t);
    AlarmHistory(w, c, t);
    AuthorizedHistory(w, c, t);
    DisarmedHistory(w, c, t);
    RunConsistent(w, c, t);
  }

  /** The door flag is the last door report, whatever else was handled. */
  lemma {:induction false} DoorFlagHistory(w: int, c: bool, t: seq<Timed>)
    ensures Run(w, c, t).fsm.doorOpen <==> exists i :: LastReport(t, i) && t[i].event.kind == DoorOpened
  {
    if t != [] {
      var n := |t| - 1;
      var p := t[..n];
      DoorFlagHistory(w, c, p);
      if IsDoorReport(t[n].event.kind) {
        assert LastReport(t, n);
      } else {
        forall i ensures LastReport(t, i) <==> LastReport(p, i) {}
      }
    }
  }

  /** An authorisation changes anything at all exactly when it finds ArmedIdle with the door closed:
      once an episode has begun it is rejected, contrary to the state diagram in the documentation. */
  lemma AuthorizationTakesEffect(w: int, c: bool, t: seq<Timed>, e: Event, now: int)
    requires IsAuthorization(e.kind)
    ensures var u := Run(w, c, t);
            Handled(u, e, now) != u <==> u.fsm.state == ArmedIdle && !u.fsm.doorOpen
  {
    RunConsistent(w, c, t);
  }

  /** The documented happy path (open, then authorise) leaves verification pending. */
  lemma OpenThenAuthorizeStaysPending(w: int, c: bool, now: int)
    ensures var t := [Timed(Event(DoorOpened, "Sensor"), now), Timed(Event(AuthorizedByNfc, "UID_123"), now)];
            Run(w, c, t).fsm.state == PendingVerification
  {
    var o := Timed(Event(DoorOpened, "Sensor"), now);
    var a := Timed(Event(AuthorizedByNfc, "UID_123"), now);
    assert [o, a][..1] == [o];
    assert [o][..0] == [];
    assert RunFrom(Initial(w, c), [o]) == Handled(Initial(w, c), o.event, o.now);
    assert Run(w, c, [o]).fsm.state == PendingVerification;
  }

  // Repeated posts.

  predicate Inert(k: EventType) {
    k == PrintStatus || k == Shutdown
  }

  predicate SameKind(a: EventType, b: EventType) {
    a == b || (IsAuthorization(a) && IsAuthorization(b))
  }

  /** Drops inert events and every event that repeats the kind of the one kept before it. */
  function Collapse(t: seq<Timed>): (r: seq<Timed>)
    ensures forall k :: 0 <= k < |r| ==> !Inert(r[k].event.kind)
    ensures forall k :: 0 <= k < |r| - 1 ==> !SameKind(r[k].event.kind, r[k + 1].event.kind)
    ensures |r| <= |t|
  {
    if t == [] then []
    else
      var last := t[|t| - 1];
      var r := Collapse(t[..|t| - 1]);
      if Inert(last.event.kind) || (r != [] && SameKind(r[|r| - 1].event.kind, last.event.kind))
      then r
      else r + [last]
  }

  lemma HandledTwice(u: Unit, a: Timed, b: Timed)
    requires SameKind(a.event.kind, b.event.kind)
    ensures Handled(Handled(u, a.event, a.now), b.event, b.now) == Handled(u, a.event, a.now)
  {
  }

  /** Repeated posts are harmless from any state: the collapsed trace reaches the same state, door
      flag, deadline, alarm flag, reason and output lines. */
  lemma {:induction false} CollapseSound(u: Unit, t: seq<Timed>)
    ensures RunFrom(u, Collapse(t)) == RunFrom(u, t)
  {
    if t != [] {
      var last := t[|t| - 1];
      var r := Collapse(t[..|t| - 1]);
      CollapseSound(u, t[..|t| - 1]);
      if Inert(last.event.kind) {
      } else if r != [] && SameKind(r[|r| - 1].event.kind, last.event.kind) {
        HandledTwice(RunFrom(u, r[..|r| - 1]), r[|r| - 1], last);
      } else {
        assert (r + [last])[..|r|] == r;
      }
    }
  }

  /** A trace with nothing to drop is its own collapse, so collapsing is a normal form. */
  lemma {:induction false} CollapseFixed(t: seq<Timed>)
    requires forall k :: 0 <= k < |t| ==> !Inert(t[k].event.kind)
    requires forall k :: 0 <= k < |t| - 1 ==> !SameKind(t[k].event.kind, t[k + 1].event.kind)
    ensures Collapse(t) == t
  {
    if t != [] {
      var p := t[..|t| - 1];
      CollapseFixed(p);
      assert p != [] ==> !SameKind(t[|t| - 2].event.kind, t[|t| - 1].event.kind);
      assert p + [t[|t| - 1]] == t;
    }
  }
}
