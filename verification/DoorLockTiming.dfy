/** What every run of the door lock keeps, with and without assumptions on timing. */
module DoorLockTiming {
  import opened DoorLock
  import opened UnlockBudget

  // Without any timing assumption.

  /** Somebody is on the way to lower the relay; once the timer thread has left, that is the destructor. */
  ghost predicate RelockOwed(s: Lock) {
    && (s.relay ==> s.unlocker == Opened || s.armed || s.timer.Asleep? || s.timer.Done?)
    && (s.timer.Done? ==> !s.running)
  }

  /** An armed timer never goes unnoticed: its thread has not looked in vain, and if it is blocked its
      notification is still to come. */
  ghost predicate WakeUpOwed(s: Lock) {
    s.armed ==> !s.timer.Checked? && (s.timer.Blocked? ==> s.unlocker == Armed)
  }

  /** While the system runs, a high relay always has its relock owed: the unlocker has yet to arm the
      timer, or the timer is armed, or the timer thread has taken the flag and not yet lowered the relay.
      And an armed timer's wake-up is never lost. */
  lemma {:induction false} RelockAlwaysOwed(t: Timing, b: seq<Lock>, acts: seq<Action>, k: nat)
    requires Behaviour(t, b, acts) && k < |b|
    ensures RelockOwed(b[k]) && WakeUpOwed(b[k])
  {
    if k > 0 {
      RelockAlwaysOwed(t, b, acts, k - 1);
      RelockOwedKept(t, b[k - 1], acts[k - 1]);
    }
  }

  lemma RelockOwedKept(t: Timing, s: Lock, a: Action)
    requires Enabled(t, s, a) && RelockOwed(s) && WakeUpOwed(s)
    ensures RelockOwed(Next(t, s, a)) && WakeUpOwed(Next(t, s, a))
  {
  }

  // With the latency bound.

  ghost predicate TimerIdle(s: Lock) {
    s.timer.AtHead? || s.timer.Waiting? || s.timer.Checked? || s.timer.Blocked?
  }

  /** The current unlock, if any, is at exactly one place, and within its due time. */
  ghost predicate Phase(t: Timing, s: Lock) {
    && !s.timer.Done?
    && (s.firstUnlock ==> !Owed(s) && s.intervals == [])
    && (Owed(s) ==> s.lastUnlock <= s.clock <= s.lastUnlock + t.duration + t.latency)
    && (Unlocking(s) || s.armed ==> TimerIdle(s))
    && (Unlocking(s) ==> !s.armed)
    && (s.relay <==> s.unlocker == Opened || s.armed || s.timer.Asleep?)
    && (s.bolt == Unlocked <==> s.relay || s.unlocker == Declared || s.timer.Lowered?)
    && (s.relay ==> s.lastUnlock <= s.highAt <= s.clock)
    && (s.timer.Asleep? ==> s.highAt + t.duration <= s.timer.wakeAt)
    && (!s.firstUnlock && !Unlocking(s) && !s.relay ==> s.lastUnlock + t.duration <= s.clock)
  }

  ghost predicate FullInterval(t: Timing, iv: Interval) {
    iv.accepted <= iv.high && iv.high + t.duration <= iv.low <= iv.accepted + t.duration + t.latency
  }

  /** The current unlock has not been relocked yet. */
  predicate OpenNow(s: Lock) {
    Unlocking(s) || s.armed || s.timer.Asleep?
  }

  ghost predicate Recorded(t: Timing, s: Lock) {
    RecordedUpTo(t, s.intervals, s.lastUnlock, OpenNow(s))
  }

  /** Full, spaced intervals, before the last unlock if that is still open. */
  ghost predicate RecordedUpTo(t: Timing, ivs: seq<Interval>, lastUnlock: int, open: bool) {
    && (forall i :: 0 <= i < |ivs| ==> FullInterval(t, ivs[i]))
    && (forall i, j :: 0 <= i < j < |ivs| ==> ivs[i].accepted + t.cooldown <= ivs[j].accepted)
    && (forall i :: 0 <= i < |ivs| ==> ivs[i].accepted + (if open then t.cooldown else 0) <= lastUnlock)
  }

  ghost predicate Safe(t: Timing) {
    t.duration >= 0 && t.latency >= 0 && t.duration + t.latency < t.cooldown
  }

  lemma PhaseKept(t: Timing, s: Lock, a: Action)
    requires Safe(t) && Enabled(t, s, a) && s.running && Next(t, s, a).running && Phase(t, s)
    ensures Phase(t, Next(t, s, a))
  {
  }

  /** A step adds a full interval when the relay goes low; otherwise it may accept a new unlock. */
  lemma RecordStep(t: Timing, s: Lock, a: Action)
    requires Safe(t) && Enabled(t, s, a) && s.running && Phase(t, s)
    ensures var u := Next(t, s, a);
            if a.TimerStep? && s.timer.Asleep? then
              && u.intervals == s.intervals + [Interval(s.lastUnlock, s.highAt, s.clock)]
              && FullInterval(t, Interval(s.lastUnlock, s.highAt, s.clock))
              && u.lastUnlock == s.lastUnlock && OpenNow(s) && !OpenNow(u)
            else if a.Attempt? && !InCooldown(t, s) then
              u.intervals == s.intervals && (s.firstUnlock || s.lastUnlock + t.cooldown <= u.lastUnlock)
            else u.intervals == s.intervals && u.lastUnlock == s.lastUnlock && OpenNow(u) == OpenNow(s)
  {
  }

  lemma RecordedKept(t: Timing, s: Lock, a: Action)
    requires Safe(t) && Enabled(t, s, a) && s.running && Phase(t, s) && Recorded(t, s)
    ensures Recorded(t, Next(t, s, a))
  {
    RecordStep(t, s, a);
  }

  lemma {:induction false} AlwaysInPhase(t: Timing, b: seq<Lock>, acts: seq<Action>, k: nat)
    requires Behaviour(t, b, acts) && Safe(t) && k < |b| && b[k].running
    ensures Phase(t, b[k]) && Recorded(t, b[k])
  {
    if k > 0 {
      assert Enabled(t, b[k - 1], acts[k - 1]) && b[k] == Next(t, b[k - 1], acts[k - 1]);
      AlwaysInPhase(t, b, acts, k - 1);
      PhaseKept(t, b[k - 1], acts[k - 1]);
      RecordedKept(t, b[k - 1], acts[k - 1]);
    }
  }

  /** The duty cycle.  If duration plus latency is below the cooldown then, while running: every relocked
      unlock was high for at least the duration and low again within duration plus latency of its
      acceptance; the unlocked intervals are pairwise disjoint; and relay and bolt agree except between
      the two writes of an unlock or of a relock. */
  lemma DutyCycle(t: Timing, b: seq<Lock>, acts: seq<Action>, k: nat)
    requires Behaviour(t, b, acts) && Safe(t) && k < |b| && b[k].running
    ensures forall i :: 0 <= i < |b[k].intervals| ==> FullInterval(t, b[k].intervals[i])
    ensures forall i, j :: 0 <= i < j < |b[k].intervals| ==> b[k].intervals[i].low < b[k].intervals[j].high
    ensures forall i :: 0 <= i < |b[k].intervals| && b[k].relay ==> b[k].intervals[i].low < b[k].highAt
    ensures b[k].unlocker != Declared && !b[k].timer.Lowered? ==> (b[k].relay <==> b[k].bolt == Unlocked)
    ensures b[k].relay ==> b[k].clock <= b[k].lastUnlock + t.duration + t.latency
  {
    AlwaysInPhase(t, b, acts, k);
  }

  /** The relocked intervals and the one still open. */
  function Spans(s: Lock): seq<Interval> {
    s.intervals + if s.relay then [Interval(s.lastUnlock, s.highAt, s.clock)] else []
  }

  /** In any window of w milliseconds the relay is high for at most the budget, and so for at most one
      duration plus latency per started cooldown period. */
  lemma UnlockedTimeBounded(t: Timing, b: seq<Lock>, acts: seq<Action>, k: nat, from: int, w: nat)
    requires Behaviour(t, b, acts) && Safe(t) && k < |b| && b[k].running
    ensures var d := t.duration + t.latency;
            && UnlockedTime(Spans(b[k]), from, from + w) <= Budget(w, t.cooldown, d)
            && Budget(w, t.cooldown, d) <= (w / t.cooldown + 1) * d
  {
    AlwaysInPhase(t, b, acts, k);
    WithinBudget(Spans(b[k]), from, from + w, t.cooldown, t.duration + t.latency);
    BudgetBound(w, t.cooldown, t.duration + t.latency);
  }

  // Exactly when an unlock lasts its full duration.

  /** While running, every relocked unlock held the relay high for the whole duration. */
  ghost predicate FullDuration(t: Timing, s: Lock) {
    s.running ==> forall i :: 0 <= i < |s.intervals| ==> s.intervals[i].high + t.duration <= s.intervals[i].low
  }

  lemma Begin(t: Timing) returns (s: Lock)
    ensures s == Start(0) && Reachable(t, s)
  {
    s := Start(0);
    var acts: seq<Action> := [];
    assert Behaviour(t, [s], acts) && [s][|acts|] == s;
  }

  lemma Step(t: Timing, s: Lock, a: Action) returns (u: Lock)
    requires Reachable(t, s) && Enabled(t, s, a)
    ensures u == Next(t, s, a) && Reachable(t, u)
  {
    u := Next(t, s, a);
    var b, acts :| Behaviour(t, b, acts) && b[|acts|] == s;
    var b', acts' := b + [u], acts + [a];
    forall k {:trigger acts'[k]} | 0 <= k < |acts'|
      ensures Enabled(t, b'[k], acts'[k]) && b'[k + 1] == Next(t, b'[k], acts'[k])
    {
      assert k < |acts| ==> acts'[k] == acts[k] && b'[k + 1] == b[k + 1];
    }
    assert Behaviour(t, b', acts') && b'[|acts'|] == u;
  }

  /** Without the slack, a relock that is as late as allowed can cut the next unlock short. */
  lemma CutShort(t: Timing) returns (s: Lock)
    requires t.duration > 0 && t.latency >= 0 && t.duration + t.latency >= t.cooldown
    ensures Reachable(t, s) && !FullDuration(t, s)
  {
    s := Begin(t);
    s := Step(t, s, Attempt);
    s := Step(t, s, UnlockStep);
    s := Step(t, s, UnlockStep);
    s := Step(t, s, UnlockStep);
    s := Step(t, s, UnlockStep);
    s := Step(t, s, TimerStep);
    s := Step(t, s, TimerStep);
    s := Step(t, s, Tick(t.duration + t.latency));
    s := Step(t, s, Attempt);
    s := Step(t, s, UnlockStep);
    s := Step(t, s, UnlockStep);
    s := Step(t, s, UnlockStep);
    s := Step(t, s, UnlockStep);
    s := Step(t, s, TimerStep);
    assert s.intervals[0].high + t.duration > s.intervals[0].low;
  }

  /** Every unlock of every run holds the relay high for its full duration if and only if duration plus latency
      is below the cooldown; for the configured 3 s and 5 s, if and only if the timer is less than 2 s late. */
  lemma FullDurationIff(t: Timing)
    requires t.duration > 0 && t.latency >= 0
    ensures (forall s :: Reachable(t, s) ==> FullDuration(t, s)) <==> t.duration + t.latency < t.cooldown
    ensures t.duration == 3000 && t.cooldown == 5000
            ==> ((forall s :: Reachable(t, s) ==> FullDuration(t, s)) <==> t.latency < 2000)
  {
    if Safe(t) {
      forall s | Reachable(t, s) ensures FullDuration(t, s) {
        var b, acts :| Behaviour(t, b, acts) && b[|acts|] == s;
        if s.running {
          AlwaysInPhase(t, b, acts, |acts|);
        }
      }
    } else {
      var s := CutShort(t);
    }
  }
}
