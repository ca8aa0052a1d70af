/** Runs of the web API: requests, the passing of time, and any number of detached verification threads,
    each of which wakes between five seconds and five seconds plus the latency after its opening. */
module ApiRuns {
  import opened Api

  /** due lists the wake-up times of the verification threads still asleep, in spawning order. */
  datatype World = World(clock: int, guard: Guard, due: seq<int>)

  datatype Action = Tick(dt: nat) | Serve(r: Request) | Wake(i: nat)

  function Start(clock: int): World {
    World(clock, Boot(), [])
  }

  predicate Enabled(latency: nat, w: World, a: Action) {
    match a
    case Tick(dt) => forall i :: 0 <= i < |w.due| ==> w.clock + dt <= w.due[i] + latency
    case Serve(_) => true
    case Wake(i) => i < |w.due| && w.due[i] <= w.clock
  }

  function Next(latency: nat, w: World, a: Action): World
    requires Enabled(latency, w, a)
  {
    match a
    case Tick(dt) => w.(clock := w.clock + dt)
    case Serve(r) =>
      w.(guard := Guarded(w.guard, r), due := if r.OpenDoor? then w.due + [w.clock + WINDOW_MS] else w.due)
    case Wake(i) => w.(guard := Checked(w.guard), due := w.due[..i] + w.due[i + 1..])
  }

  /** ws is the sequence of worlds visited by the actions from its first one. */
  ghost predicate Path(latency: nat, ws: seq<World>, acts: seq<Action>) {
    && |ws| == |acts| + 1
    && forall k {:trigger acts[k]} :: 0 <= k < |acts| ==>
         Enabled(latency, ws[k], acts[k]) && ws[k + 1] == Next(latency, ws[k], acts[k])
  }

  ghost predicate Behaviour(latency: nat, ws: seq<World>, acts: seq<Action>) {
    Path(latency, ws, acts) && ws[0] == Start(ws[0].clock)
  }

  // What every step keeps.

  ghost predicate Consistent(g: Guard) {
    && (g.pending ==> g.doorOpen && g.systemArmed)
    && (g.buzzerOn <==> g.alarmActive)
    && (g.intrusion ==> g.alarmActive)
    && (g.led == "red" <==> g.alarmActive)
    && (g.led == "yellow" <==> g.pending && !g.alarmActive)
    && (g.led == "green" <==> !g.pending && !g.alarmActive)
  }

  ghost predicate Scheduled(latency: nat, w: World) {
    && (forall i :: 0 <= i < |w.due| ==> w.clock - latency <= w.due[i] <= w.clock + WINDOW_MS)
    && (forall i, j :: 0 <= i < j < |w.due| ==> w.due[i] <= w.due[j])
  }

  lemma ScheduledKept(latency: nat, w: World, a: Action)
    requires Scheduled(latency, w) && Enabled(latency, w, a)
    ensures Scheduled(latency, Next(latency, w, a))
  {
    var v := Next(latency, w, a);
    match a
    case Tick(_) =>
    case Serve(_) =>
    case Wake(i) =>
      forall j | 0 <= j < |v.due| ensures v.due[j] == w.due[if j < i then j else j + 1] {}
  }

  lemma ConsistentKept(latency: nat, w: World, a: Action)
    requires Consistent(w.guard) && Enabled(latency, w, a)
    ensures Consistent(Next(latency, w, a).guard)
  {
  }

  /** Over every run of requests and wake-ups: pending implies the door open and the system armed, so a
      verification thread's three-part guard is pending alone; the buzzer is the alarm; an intrusion
      implies the alarm; and the light is always the colour of alarm and pending. */
  lemma {:induction false} AlwaysConsistent(latency: nat, ws: seq<World>, acts: seq<Action>, k: nat)
    requires Behaviour(latency, ws, acts) && k < |ws|
    ensures Consistent(ws[k].guard) && Scheduled(latency, ws[k])
    ensures Expired(ws[k].guard) <==> ws[k].guard.pending
  {
    if k > 0 {
      AlwaysConsistent(latency, ws, acts, k - 1);
      var w, a := ws[k - 1], acts[k - 1];
      assert Enabled(latency, w, a) && ws[k] == Next(latency, w, a);
      ScheduledKept(latency, w, a);
      ConsistentKept(latency, w, a);
    }
  }

  /** Whoever wakes, and however many are outstanding: a verification thread leaves nothing pending. */
  lemma WakeLeavesNothingPending(latency: nat, ws: seq<World>, acts: seq<Action>, k: nat)
    requires Behaviour(latency, ws, acts) && k < |acts| && acts[k].Wake?
    ensures !ws[k + 1].guard.pending
    ensures ws[k].guard.pending ==> ws[k + 1].guard.alarmActive && ws[k + 1].guard.intrusion
  {
    AlwaysConsistent(latency, ws, acts, k);
    assert Enabled(latency, ws[k], acts[k]) && ws[k + 1] == Next(latency, ws[k], acts[k]);
  }

  // Exact histories.

  ghost predicate RaisesAlarm(w: World, a: Action) {
    (a.Serve? && a.r.TriggerAlarm?) || (a.Wake? && Expired(w.guard))
  }

  ghost predicate ClearsAlarm(a: Action) {
    a.Serve? && (a.r.ClearAlarm? || a.r.Disarm?)
  }

  ghost predicate Authorizes(a: Action) {
    a.Serve? && a.r.Authorize? && a.r.accessMethod in {"nfc", "face", "api"}
  }

  ghost predicate OpensWhileArmed(w: World, a: Action) {
    a.Serve? && a.r.OpenDoor? && w.guard.systemArmed
  }

  /** The four ways an opening is resolved: close, disarm, authorisation, or the alarm. */
  ghost predicate Resolves(w: World, a: Action) {
    (a.Serve? && (a.r.CloseDoor? || a.r.Disarm?)) || Authorizes(a) || RaisesAlarm(w, a)
  }

  /** Among the first k steps, step i sets a flag and no later one ends it. */
  ghost predicate SetSince(sets: seq<bool>, ends: seq<bool>, k: int, i: int) {
    && 0 <= i < k <= |sets| && |sets| == |ends| && sets[i]
    && forall j :: i < j < k ==> !ends[j]
  }

  /** A flag that is set by some steps and ended by others is up exactly if it was set and not ended since. */
  lemma {:induction false} LatchHistory(flags: seq<bool>, sets: seq<bool>, ends: seq<bool>, k: nat)
    requires |flags| == |sets| + 1 && |ends| == |sets| && k < |flags| && !flags[0]
    requires forall n {:trigger sets[n]} :: 0 <= n < |sets| ==> flags[n + 1] == (sets[n] || (flags[n] && !ends[n]))
    ensures flags[k] <==> exists i :: SetSince(sets, ends, k, i)
  {
    if k > 0 {
      var n := k - 1;
      LatchHistory(flags, sets, ends, n);
      assert flags[k] == (sets[n] || (flags[n] && !ends[n]));
      if sets[n] {
        assert SetSince(sets, ends, k, n);
      } else if flags[n] && !ends[n] {
        var i :| SetSince(sets, ends, n, i);
        assert SetSince(sets, ends, k, i);
      } else if i :| SetSince(sets, ends, k, i) {
        assert SetSince(sets, ends, n, i);
      }
    }
  }

  /** The steps that raise the alarm. */
  ghost function Raised(ws: seq<World>, acts: seq<Action>): (r: seq<bool>)
    requires |ws| == |acts| + 1
    ensures |r| == |acts| && forall n {:trigger r[n]} :: 0 <= n < |r| ==> r[n] == (RaisesAlarm(ws[n], acts[n]))
  {
    seq(|acts|, n requires 0 <= n < |acts| => RaisesAlarm(ws[n], acts[n]))
  }

  /** The steps that clear it. */
  ghost function AlarmEnds(acts: seq<Action>): (r: seq<bool>)
    ensures |r| == |acts| && forall n {:trigger r[n]} :: 0 <= n < |r| ==> r[n] == (ClearsAlarm(acts[n]))
  {
    seq(|acts|, n requires 0 <= n < |acts| => ClearsAlarm(acts[n]))
  }

  /** The steps that end an intrusion. */
  ghost function IntrusionEnds(acts: seq<Action>): (r: seq<bool>)
    ensures |r| == |acts|
    ensures forall n {:trigger r[n]} :: 0 <= n < |r| ==> r[n] == (ClearsAlarm(acts[n]) || Authorizes(acts[n]))
  {
    seq(|acts|, n requires 0 <= n < |acts| => ClearsAlarm(acts[n]) || Authorizes(acts[n]))
  }

  /** The openings handled while armed. */
  ghost function Started(ws: seq<World>, acts: seq<Action>): (r: seq<bool>)
    requires |ws| == |acts| + 1
    ensures |r| == |acts| && forall n {:trigger r[n]} :: 0 <= n < |r| ==> r[n] == (OpensWhileArmed(ws[n], acts[n]))
  {
    seq(|acts|, n requires 0 <= n < |acts| => OpensWhileArmed(ws[n], acts[n]))
  }

  /** The steps that resolve an opening. */
  ghost function Resolved(ws: seq<World>, acts: seq<Action>): (r: seq<bool>)
    requires |ws| == |acts| + 1
    ensures |r| == |acts| && forall n {:trigger r[n]} :: 0 <= n < |r| ==> r[n] == (Resolves(ws[n], acts[n]))
  {
    seq(|acts|, n requires 0 <= n < |acts| => Resolves(ws[n], acts[n]))
  }

  /** One step as seen by the three flags. */
  lemma FlagStep(latency: nat, w: World, a: Action)
    requires Enabled(latency, w, a) && Consistent(w.guard)
    ensures var g := Next(latency, w, a).guard;
            && g.alarmActive == (RaisesAlarm(w, a) || (w.guard.alarmActive && !ClearsAlarm(a)))
            && g.intrusion == (RaisesAlarm(w, a) || (w.guard.intrusion && !(ClearsAlarm(a) || Authorizes(a))))
            && g.pending == (OpensWhileArmed(w, a) || (w.guard.pending && !Resolves(w, a)))
  {
  }

  /** Step j serves the last request to arm or disarm among the first k steps. */
  ghost predicate LastSwitch(acts: seq<Action>, k: int, j: int) {
    && 0 <= j < k <= |acts| && acts[j].Serve? && (acts[j].r.Arm? || acts[j].r.Disarm?)
    && forall i :: j < i < k && acts[i].Serve? ==> !acts[i].r.Arm? && !acts[i].r.Disarm?
  }

  /** The system was armed last, or never disarmed: it starts armed. */
  ghost predicate ArmedLast(acts: seq<Action>, k: int) {
    forall j :: LastSwitch(acts, k, j) ==> acts[j].r.Arm?
  }

  /** Step j serves the last report of the door among the first k steps. */
  ghost predicate LastDoor(acts: seq<Action>, k: int, j: int) {
    && 0 <= j < k <= |acts| && acts[j].Serve? && (acts[j].r.OpenDoor? || acts[j].r.CloseDoor?)
    && forall i :: j < i < k && acts[i].Serve? ==> !acts[i].r.OpenDoor? && !acts[i].r.CloseDoor?
  }

  ghost predicate OpenedLast(acts: seq<Action>, k: int) {
    exists j :: LastDoor(acts, k, j) && acts[j].r.OpenDoor?
  }

  lemma LastsExtended(acts: seq<Action>, k: nat)
    requires k < |acts|
    ensures var a := acts[k];
            && (ArmedLast(acts, k + 1) <==>
                  if a.Serve? && (a.r.Arm? || a.r.Disarm?) then a.r.Arm? else ArmedLast(acts, k))
            && (OpenedLast(acts, k + 1) <==>
                  if a.Serve? && (a.r.OpenDoor? || a.r.CloseDoor?) then a.r.OpenDoor? else OpenedLast(acts, k))
  {
    var a := acts[k];
    if a.Serve? && (a.r.Arm? || a.r.Disarm?) {
      assert LastSwitch(acts, k + 1, k);
    } else {
      forall j ensures LastSwitch(acts, k + 1, j) <==> LastSwitch(acts, k, j) {}
    }
    if a.Serve? && (a.r.OpenDoor? || a.r.CloseDoor?) {
      assert LastDoor(acts, k + 1, k);
    } else {
      forall j ensures LastDoor(acts, k + 1, j) <==> LastDoor(acts, k, j) {}
    }
  }

  lemma SwitchStep(latency: nat, w: World, a: Action)
    requires Enabled(latency, w, a)
    ensures var g := Next(latency, w, a).guard;
            && (g.systemArmed <==> if a.Serve? && (a.r.Arm? || a.r.Disarm?) then a.r.Arm? else w.guard.systemArmed)
            && (g.doorOpen <==>
                  if a.Serve? && (a.r.OpenDoor? || a.r.CloseDoor?) then a.r.OpenDoor? else w.guard.doorOpen)
  {
  }

  /** The system is armed exactly if the last request to arm or disarm, if any, was to arm; and the door is taken
      for open exactly if the last report of the door was of an opening. */
  lemma {:induction false} SwitchHistories(latency: nat, ws: seq<World>, acts: seq<Action>, k: nat)
    requires Behaviour(latency, ws, acts) && k < |ws|
    ensures ws[k].guard.systemArmed <==> ArmedLast(acts, k)
    ensures ws[k].guard.doorOpen <==> OpenedLast(acts, k)
  {
    if k > 0 {
      SwitchHistories(latency, ws, acts, k - 1);
      assert Enabled(latency, ws[k - 1], acts[k - 1]) && ws[k] == Next(latency, ws[k - 1], acts[k - 1]);
      SwitchStep(latency, ws[k - 1], acts[k - 1]);
      LastsExtended(acts, k - 1);
    }
  }

  lemma FlagsAt(latency: nat, ws: seq<World>, acts: seq<Action>, n: nat)
    requires Behaviour(latency, ws, acts) && n < |acts|
    ensures var (g, h) := (ws[n].guard, ws[n + 1].guard);
            && h.alarmActive == (Raised(ws, acts)[n] || (g.alarmActive && !AlarmEnds(acts)[n]))
            && h.intrusion == (Raised(ws, acts)[n] || (g.intrusion && !IntrusionEnds(acts)[n]))
            && h.pending == (Started(ws, acts)[n] || (g.pending && !Resolved(ws, acts)[n]))
  {
    AlwaysConsistent(latency, ws, acts, n);
    assert Enabled(latency, ws[n], acts[n]) && ws[n + 1] == Next(latency, ws[n], acts[n]);
    FlagStep(latency, ws[n], acts[n]);
  }

  lemma AlarmHistory(latency: nat, ws: seq<World>, acts: seq<Action>, k: nat)
    requires Behaviour(latency, ws, acts) && k < |ws|
    ensures ws[k].guard.alarmActive <==> exists i :: SetSince(Raised(ws, acts), AlarmEnds(acts), k, i)
  {
    var flags := seq(|ws|, n requires 0 <= n < |ws| => ws[n].guard.alarmActive);
    var (sets, ends) := (Raised(ws, acts), AlarmEnds(acts));
    forall n | 0 <= n < |acts| ensures flags[n + 1] == (sets[n] || (flags[n] && !ends[n])) {
      FlagsAt(latency, ws, acts, n);
    }
    LatchHistory(flags, sets, ends, k);
  }

  lemma IntrusionHistory(latency: nat, ws: seq<World>, acts: seq<Action>, k: nat)
    requires Behaviour(latency, ws, acts) && k < |ws|
    ensures ws[k].guard.intrusion <==> exists i :: SetSince(Raised(ws, acts), IntrusionEnds(acts), k, i)
  {
    var flags := seq(|ws|, n requires 0 <= n < |ws| => ws[n].guard.intrusion);
    var (sets, ends) := (Raised(ws, acts), IntrusionEnds(acts));
    forall n | 0 <= n < |acts| ensures flags[n + 1] == (sets[n] || (flags[n] && !ends[n])) {
      FlagsAt(latency, ws, acts, n);
    }
    LatchHistory(flags, sets, ends, k);
  }

  lemma PendingHistory(latency: nat, ws: seq<World>, acts: seq<Action>, k: nat)
    requires Behaviour(latency, ws, acts) && k < |ws|
    ensures ws[k].guard.pending <==> exists i :: SetSince(Started(ws, acts), Resolved(ws, acts), k, i)
  {
    var flags := seq(|ws|, n requires 0 <= n < |ws| => ws[n].guard.pending);
    var (sets, ends) := (Started(ws, acts), Resolved(ws, acts));
    forall n | 0 <= n < |acts| ensures flags[n + 1] == (sets[n] || (flags[n] && !ends[n])) {
      FlagsAt(latency, ws, acts, n);
    }
    LatchHistory(flags, sets, ends, k);
  }

  /** The alarm is active exactly when it was raised, by hand or by a verification thread, and neither
      cleared nor disarmed since; an authorisation ends the intrusion but not the alarm; verification is
      pending exactly when the door was opened while armed and nothing resolved it; and the system is armed
      and the door open exactly by the last request and the last report. */
  lemma FlagHistories(latency: nat, ws: seq<World>, acts: seq<Action>, k: nat)
    requires Behaviour(latency, ws, acts) && k < |ws|
    ensures ws[k].guard.alarmActive <==> exists i :: SetSince(Raised(ws, acts), AlarmEnds(acts), k, i)
    ensures ws[k].guard.intrusion <==> exists i :: SetSince(Raised(ws, acts), IntrusionEnds(acts), k, i)
    ensures ws[k].guard.pending <==> exists i :: SetSince(Started(ws, acts), Resolved(ws, acts), k, i)
    ensures ws[k].guard.systemArmed <==> ArmedLast(acts, k)
    ensures ws[k].guard.doorOpen <==> OpenedLast(acts, k)
  {
    AlarmHistory(latency, ws, acts, k);
    IntrusionHistory(latency, ws, acts, k);
    PendingHistory(latency, ws, acts, k);
    SwitchHistories(latency, ws, acts, k);
  }

  // Every armed opening is resolved in bounded time.

  /** Step j, after opening k, resolves it in time. */
  ghost predicate ResolvedBy(latency: nat, ws: seq<World>, acts: seq<Action>, k: int, m: int, j: int) {
    && 0 <= k < j < m <= |acts| < |ws| && Resolves(ws[j], acts[j])
    && ws[j].clock <= ws[k].clock + WINDOW_MS + latency
  }

  /** Up to step m, the opening at k was resolved in time, or it is still pending with its own
      verification thread asleep and not overdue. */
  lemma {:induction false} ResolvedOrWatched(latency: nat, ws: seq<World>, acts: seq<Action>, k: nat, m: nat)
    requires Behaviour(latency, ws, acts) && k < m < |ws| && OpensWhileArmed(ws[k], acts[k])
    ensures || (exists j :: ResolvedBy(latency, ws, acts, k, m, j))
            || (ws[m].guard.pending && ws[k].clock + WINDOW_MS in ws[m].due
                && ws[m].clock <= ws[k].clock + WINDOW_MS + latency)
    decreases m
  {
    var n := m - 1;
    assert Enabled(latency, ws[n], acts[n]) && ws[m] == Next(latency, ws[n], acts[n]);
    if n == k {
      assert ws[m].due[|ws[k].due|] == ws[k].clock + WINDOW_MS;
    } else {
      ResolvedOrWatched(latency, ws, acts, k, n);
      if j :| ResolvedBy(latency, ws, acts, k, n, j) {
        assert ResolvedBy(latency, ws, acts, k, m, j);
      } else if Resolves(ws[n], acts[n]) {
        assert ResolvedBy(latency, ws, acts, k, m, n);
      } else {
        AlwaysConsistent(latency, ws, acts, n);
        assert !acts[n].Wake?;
      }
    }
  }

  /** An opening at t, while armed by the last request to arm or disarm, is followed, by t plus the window plus the
      latency, by a close, a disarm, an authorisation or an alarm, in every run that gets past that time. */
  lemma EveryOpeningIsResolved(latency: nat, ws: seq<World>, acts: seq<Action>, k: nat, m: nat) returns (j: nat)
    requires Behaviour(latency, ws, acts) && k < m < |ws| && acts[k] == Serve(OpenDoor) && ArmedLast(acts, k)
    requires ws[k].clock + 5000 + latency < ws[m].clock
    ensures k < j < m && Resolves(ws[j], acts[j]) && ws[j].clock <= ws[k].clock + 5000 + latency
  {
    SwitchHistories(latency, ws, acts, k);
    ResolvedOrWatched(latency, ws, acts, k, m);
    j :| ResolvedBy(latency, ws, acts, k, m, j);
  }

  // Exactly when an opening can be cut short.

  ghost predicate NoneDueBefore(due: seq<int>, time: int) {
    forall i :: 0 <= i < |due| ==> time <= due[i]
  }

  /** From w, step i of some path has a verification thread raise the alarm before the given time. */
  ghost predicate EarlyAlarm(latency: nat, w: World, before: int, ws: seq<World>, acts: seq<Action>, i: int) {
    && Path(latency, ws, acts) && ws[0] == w
    && 0 <= i < |acts| && acts[i].Wake? && Expired(ws[i].guard) && ws[i].clock < before
  }

  ghost predicate CanAlarmEarly(latency: nat, w: World, before: int) {
    exists ws, acts, i :: EarlyAlarm(latency, w, before, ws, acts, i)
  }

  /** Threads spawned from some time on are due no earlier than a window after it. */
  lemma {:induction false} NobodyDueBefore(latency: nat, ws: seq<World>, acts: seq<Action>, k: nat, start: int)
    requires Path(latency, ws, acts) && k < |ws| && start <= ws[0].clock
    requires NoneDueBefore(ws[0].due, start + WINDOW_MS)
    ensures start <= ws[k].clock && NoneDueBefore(ws[k].due, start + WINDOW_MS)
  {
    if k > 0 {
      NobodyDueBefore(latency, ws, acts, k - 1, start);
      var w, a := ws[k - 1], acts[k - 1];
      assert Enabled(latency, w, a) && ws[k] == Next(latency, w, a);
      if a.Wake? {
        forall j | 0 <= j < |ws[k].due| ensures ws[k].due[j] == w.due[if j < a.i then j else j + 1] {}
      }
    }
  }

  lemma WakesWhenDue(latency: nat, ws: seq<World>, acts: seq<Action>, i: nat)
    requires Path(latency, ws, acts) && i < |acts| && acts[i].Wake?
    ensures acts[i].i < |ws[i].due| && ws[i].due[acts[i].i] <= ws[i].clock
  {
    assert Enabled(latency, ws[i], acts[i]);
  }

  lemma NotEarly(latency: nat, w: World, ws: seq<World>, acts: seq<Action>, i: nat)
    requires NoneDueBefore(w.due, w.clock + WINDOW_MS)
    ensures !EarlyAlarm(latency, w, w.clock + WINDOW_MS, ws, acts, i)
  {
    if Path(latency, ws, acts) && ws[0] == w && i < |acts| && acts[i].Wake? {
      WakesWhenDue(latency, ws, acts, i);
      NobodyDueBefore(latency, ws, acts, i, w.clock);
    }
  }

  /** The five seconds can be cut short: some continuation, with or without further requests, has a
      verification thread raise the alarm less than the window after this opening, if and only if a
      thread left over from an earlier opening is due before the window ends. */
  lemma CutShortIff(latency: nat, w: World)
    requires Scheduled(latency, w) && Consistent(w.guard) && w.guard.systemArmed
    ensures CanAlarmEarly(latency, Next(latency, w, Serve(OpenDoor)), w.clock + 5000)
            <==> w.due != [] && w.due[0] < w.clock + 5000
  {
    var after := Next(latency, w, Serve(OpenDoor));
    if w.due != [] && w.due[0] < w.clock + WINDOW_MS {
      ScheduledKept(latency, w, Serve(OpenDoor));
      var wait: nat := if w.due[0] > w.clock then w.due[0] - w.clock else 0;
      var later := Next(latency, after, Tick(wait));
      var alarmed := Next(latency, later, Wake(0));
      var ws, acts := [after, later, alarmed], [Tick(wait), Wake(0)];
      assert EarlyAlarm(latency, after, w.clock + WINDOW_MS, ws, acts, 1);
    } else {
      assert NoneDueBefore(after.due, w.clock + WINDOW_MS);
      var before := w.clock + WINDOW_MS;
      if CanAlarmEarly(latency, after, before) {
        var ws, acts, i :| EarlyAlarm(latency, after, before, ws, acts, i);
        NotEarly(latency, after, ws, acts, i);
      }
    }
  }

  /** A run after which the next opening can be cut short: the door was opened a millisecond before. */
  lemma ReopeningCutShort(latency: nat) returns (ws: seq<World>, acts: seq<Action>)
    ensures Behaviour(latency, ws, acts)
    ensures var w := ws[|acts|];
            && w.guard.systemArmed
            && CanAlarmEarly(latency, Next(latency, w, Serve(OpenDoor)), w.clock + 5000)
  {
    var start := Start(0);
    var first := Next(latency, start, Serve(OpenDoor));
    var later := Next(latency, first, Tick(1));
    ws, acts := [start, first, later], [Serve(OpenDoor), Tick(1)];
    AlwaysConsistent(latency, ws, acts, 2);
    CutShortIff(latency, later);
  }
}
