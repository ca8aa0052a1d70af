/** The timed door lock: unlock attempts race a relock timer thread that sleeps.  Attempts come from
    bus callbacks, which the bus runs one at a time. */
module DoorLock {

  datatype Bolt = Locked | Unlocked

  /** How far the current unlock has come; Idle between attempts.  Once Armed, only the notification of the
      timer thread is left. */
  datatype Unlocker = Idle | Accepted | Declared | Opened | Armed

  /** The timer thread: about to look whether it is armed or stopped; having looked in vain, still with the
      timer's mutex; blocked without it; sleeping until the given time; or between its two relock writes. */
  datatype Timer = AtHead | Waiting | Checked | Blocked | Asleep(wakeAt: int) | Lowered | Done

  /** An unlock that was relocked: when it was accepted, when the relay went high and when low. */
  datatype Interval = Interval(accepted: int, high: int, low: int)

  /** Unlock duration, cooldown, and the latency bound: a relock is complete at most this long after
      the unlock's time plus the duration. */
  datatype Timing = Timing(duration: int, cooldown: int, latency: int)

  /** running and notified are the destructor's first two steps, which it takes without the timer's mutex.
      highAt is when the relay was last set high, and intervals the relocked unlocks so far (history). */
  datatype Lock = Lock(
    clock: int,
    bolt: Bolt,
    relay: bool,
    firstUnlock: bool,
    lastUnlock: int,
    armed: bool,
    running: bool,
    notified: bool,
    unlocker: Unlocker,
    timer: Timer,
    highAt: int,
    intervals: seq<Interval>)

  datatype Action =
    | Tick(dt: nat)
    | Attempt
    | UnlockStep
    | TimerStep
    | SpuriousWakeUp
    | Stop
    | NotifyStop
    | FinalLow

  function Start(clock: int): Lock {
    Lock(clock, Locked, false, true, 0, false, true, false, Idle, AtHead, clock, [])
  }

  /** An unlock has been accepted and its relock is not complete. */
  predicate Owed(s: Lock) {
    Unlocking(s) || s.armed || s.timer.Asleep? || s.timer.Lowered?
  }

  /** An unlock has been accepted and has yet to arm the timer. */
  predicate Unlocking(s: Lock) {
    s.unlocker.Accepted? || s.unlocker.Declared? || s.unlocker.Opened?
  }

  predicate InCooldown(t: Timing, s: Lock) {
    !s.firstUnlock && s.clock - s.lastUnlock < t.cooldown
  }

  /** While running, time cannot pass a relock's due time.  Arming takes the timer's mutex. */
  predicate Enabled(t: Timing, s: Lock, a: Action) {
    match a
    case Tick(dt) => s.running && Owed(s) ==> s.clock + dt <= s.lastUnlock + t.duration + t.latency
    case Attempt => s.unlocker.Idle?
    case UnlockStep => !s.unlocker.Idle? && (s.unlocker.Opened? ==> !s.timer.Checked?)
    case TimerStep =>
      (match s.timer
       case Blocked => false
       case Asleep(wakeAt) => s.clock >= wakeAt
       case Done => false
       case _ => true)
    case SpuriousWakeUp => s.timer.Blocked?
    case Stop => s.running
    case NotifyStop => !s.running && !s.notified
    case FinalLow => s.notified && s.timer.Done?
  }

  /** A notification wakes the timer thread only if it is blocked. */
  function Notified(timer: Timer): Timer {
    if timer.Blocked? then Waiting else timer
  }

  function UnlockNext(s: Lock): Lock
    requires !s.unlocker.Idle?
  {
    match s.unlocker
    case Accepted => s.(bolt := Unlocked, unlocker := Declared)
    case Declared => s.(relay := true, unlocker := Opened, highAt := s.clock)
    case Opened => s.(armed := true, unlocker := Armed)
    case Armed => s.(timer := Notified(s.timer), unlocker := Idle)
  }

  function TimerNext(t: Timing, s: Lock): Lock
    requires Enabled(t, s, TimerStep)
  {
    match s.timer
    case AtHead => s.(timer := if s.running then Waiting else Done)
    case Waiting =>
      if !s.running then s.(timer := Done)
      else if s.armed then s.(armed := false, timer := Asleep(s.clock + t.duration))
      else s.(timer := Checked)
    case Checked => s.(timer := Blocked)
    case Asleep(_) =>
      s.(relay := false, timer := Lowered,
         intervals := s.intervals + [Interval(s.lastUnlock, s.highAt, s.clock)])
    case Lowered => s.(bolt := Locked, timer := AtHead)
  }

  function Next(t: Timing, s: Lock, a: Action): Lock
    requires Enabled(t, s, a)
  {
    match a
    case Tick(dt) => s.(clock := s.clock + dt)
    case Attempt =>
      if InCooldown(t, s) then s
      else s.(firstUnlock := false, lastUnlock := s.clock, unlocker := Accepted)
    case UnlockStep => UnlockNext(s)
    case TimerStep => TimerNext(t, s)
    case SpuriousWakeUp => s.(timer := Waiting)
    case Stop => s.(running := false)
    case NotifyStop => s.(notified := true, timer := Notified(s.timer))
    case FinalLow => s.(relay := false)
  }

  ghost predicate Behaviour(t: Timing, b: seq<Lock>, acts: seq<Action>) {
    && |b| == |acts| + 1
    && b[0] == Start(b[0].clock)
    && forall k {:trigger acts[k]} :: 0 <= k < |acts| ==>
         Enabled(t, b[k], acts[k]) && b[k + 1] == Next(t, b[k], acts[k])
  }

  ghost predicate Reachable(t: Timing, s: Lock) {
    exists b, acts :: Behaviour(t, b, acts) && b[|acts|] == s
  }

  /** All the steps of an unlock attempt without interference, except that the timer thread, if it holds its
      mutex, blocks before the timer is armed. */
  function Attempted(t: Timing, s: Lock): Lock
    requires s.unlocker.Idle?
  {
    if InCooldown(t, s) then Next(t, s, Attempt)
    else
      var high := UnlockNext(UnlockNext(Next(t, s, Attempt)));
      var free := if high.timer.Checked? then TimerNext(t, high) else high;
      UnlockNext(UnlockNext(free))
  }

  /** The thread's place after an accepted unlock: woken if it was or came to be blocked. */
  function Woken(timer: Timer): Timer {
    if timer.Checked? then Waiting else Notified(timer)
  }

  /** All the steps of a timer pass, from its wake-up and without interference: it leaves when the system is
      stopping, and otherwise relocks at the given time. */
  function Relocked(t: Timing, s: Lock, later: int): Lock
    requires s.timer.Waiting? && (s.armed || !s.running) && s.clock + t.duration <= later
  {
    var woken := TimerNext(t, s);
    if woken.timer.Done? then woken else TimerNext(t, TimerNext(t, woken.(clock := later)))
  }

  /** The rest of the timer thread's loop once the system is stopping and has said so. */
  function Leaves(t: Timing, s: Lock, later: int): (r: Lock)
    requires !s.running && !s.timer.Checked? && !s.timer.Blocked?
    requires s.timer.Asleep? ==> s.timer.wakeAt <= later
    ensures r.timer.Done? && r.notified == s.notified
  {
    var low := if s.timer.Asleep? then TimerNext(t, s.(clock := later)) else s;
    var head := if low.timer.Lowered? then TimerNext(t, low) else low;
    if head.timer.Done? then head else TimerNext(t, head)
  }

  /** The destructor without interference: it clears the flag, notifies, and waits for the timer thread to
      leave; a thread that had looked and not yet blocked never leaves. */
  function Destroyed(t: Timing, s: Lock, later: int): Lock
    requires s.running && !s.notified && (s.timer.Asleep? ==> s.timer.wakeAt <= later)
  {
    var n := Next(t, Next(t, s, Stop), NotifyStop);
    if n.timer.Checked? then TimerNext(t, n) else Next(t, Leaves(t, n, later), FinalLow)
  }

  // What these come to.

  lemma AttemptedOutcome(t: Timing, s: Lock)
    requires s.unlocker.Idle?
    ensures Attempted(t, s) ==
      if InCooldown(t, s) then s
      else s.(firstUnlock := false, lastUnlock := s.clock, bolt := Unlocked, relay := true, highAt := s.clock,
              armed := true, timer := Woken(s.timer))
  {
  }

  lemma RelockedOutcome(t: Timing, s: Lock, later: int)
    requires s.timer.Waiting? && (s.armed || !s.running) && s.clock + t.duration <= later
    ensures Relocked(t, s, later) ==
      if !s.running then s.(timer := Done)
      else s.(armed := false, clock := later, relay := false, bolt := Locked, timer := AtHead,
              intervals := s.intervals + [Interval(s.lastUnlock, s.highAt, later)])
  {
  }

  /** A thread still to finish its relock does so before the destructor is done. */
  lemma DestroyedOutcome(t: Timing, s: Lock, later: int)
    requires s.running && !s.notified && (s.timer.Asleep? ==> s.timer.wakeAt <= later)
    ensures Destroyed(t, s, later) ==
      if s.timer.Checked? then s.(running := false, notified := true, timer := Blocked)
      else if s.timer.Asleep? then
        s.(running := false, notified := true, timer := Done, clock := later, relay := false, bolt := Locked,
           intervals := s.intervals + [Interval(s.lastUnlock, s.highAt, later)])
      else
        s.(running := false, notified := true, timer := Done, relay := false,
           bolt := if s.timer.Lowered? then Locked else s.bolt)
  {
  }

  // The controller object, whose methods run these steps without interference.

  datatype AuthResult = Granted | Denied | Override

  class DoorController {
    var bolt: Bolt
    var relay: bool
    var greenLed: bool
    var redLed: bool
    var firstUnlock: bool
    var lastUnlock: int
    var timerArmed: bool
    var running: bool
    var notified: bool
    ghost var highAt: int
    ghost var intervals: seq<Interval>

    /** The lock between attempts, with the timer thread at the given place. */
    ghost function View(clock: int, timer: Timer): Lock
      reads this
    {
      Lock(clock, bolt, relay, firstUnlock, lastUnlock, timerArmed, running, notified, Idle, timer, highAt, intervals)
    }

    constructor (clock: int)
      ensures View(clock, AtHead) == Start(clock)
      ensures !greenLed && !redLed
    {
      bolt, relay, greenLed, redLed := Locked, false, false, false;
      firstUnlock, lastUnlock, timerArmed, running, notified := true, 0, false, true, false;
      highAt, intervals := clock, [];
    }

    /** An unlock attempt changes the lock exactly when the cooldown is over; wherever the timer thread
        stands and whatever its latency, it runs the five steps of an accepted unlock. */
    method TryUnlock(now: int, ghost t: Timing, ghost timer: Timer) returns (ok: bool)
      requires t.duration == 3000 && t.cooldown == 5000
      modifies this`bolt, this`relay, this`firstUnlock, this`lastUnlock, this`timerArmed, this`highAt
      ensures ok == !InCooldown(t, old(View(now, timer)))
      ensures View(now, if ok then Woken(timer) else timer) == Attempted(t, old(View(now, timer)))
    {
      AttemptedOutcome(t, View(now, timer));
      if !firstUnlock {
        var ms := now - lastUnlock;
        if ms < 5000 {
          return false;
        }
      }
      firstUnlock := false;
      lastUnlock := now;
      bolt := Unlocked;
      relay := true;
      highAt := now;
      timerArmed := true;
      ok := true;
    }

    /** A denied event never touches the lock; any other result is an unlock attempt. */
    method OnAccessEvent(result: AuthResult, now: int, ghost t: Timing, ghost timer: Timer) returns (unlocked: bool)
      requires t.duration == 3000 && t.cooldown == 5000
      modifies this
      ensures unlocked == (result != Denied && !InCooldown(t, old(View(now, timer))))
      ensures View(now, if unlocked then Woken(timer) else timer) ==
        if result == Denied then old(View(now, timer)) else Attempted(t, old(View(now, timer)))
      ensures redLed == (result == Denied)
      ensures greenLed == (unlocked || (result != Denied && old(greenLed)))
    {
      if result == Denied {
        redLed := true;
        greenLed := false;
        return false;
      }
      redLed := false;
      unlocked := TryUnlock(now, t, timer);
      if unlocked {
        greenLed := true;
      }
    }

    /** One pass of the timer loop from its wake-up, armed or stopped, to the relock, sleeping from now until
        later; go says whether the loop continues. */
    method TimerPass(now: int, later: int, ghost t: Timing) returns (go: bool)
      requires t.duration == 3000
      requires (timerArmed || !running) && now + 3000 <= later
      modifies this
      ensures go == old(running)
      ensures Relocked(t, old(View(now, Waiting)), later)
           == if go then View(later, AtHead) else View(now, Done)
      ensures if go then !greenLed && !redLed else greenLed == old(greenLed) && redLed == old(redLed)
    {
      RelockedOutcome(t, View(now, Waiting), later);
      if !running {
        return false;
      }
      timerArmed := false;
      relay := false;
      intervals := intervals + [Interval(lastUnlock, highAt, later)];
      bolt := Locked;
      greenLed := false;
      redLed := false;
      go := true;
    }

    /** Destruction, with the timer thread standing at the given place, asleep until later at most.  It returns
        unless that thread has just looked and not yet blocked; otherwise the relay ends low. */
    method Destroy(now: int, timer: Timer, later: int, ghost t: Timing) returns (returned: bool)
      requires running && !notified && (timer.Asleep? ==> timer.wakeAt <= later)
      modifies this
      ensures returned == !timer.Checked?
      ensures Destroyed(t, old(View(now, timer)), later)
           == View(if timer.Asleep? then later else now, if returned then Done else Blocked)
      ensures returned ==> !relay
    {
      DestroyedOutcome(t, View(now, timer), later);
      running := false;
      notified := true;
      if timer.Checked? {
        return false;
      }
      if timer.Asleep? || timer.Lowered? {
        if timer.Asleep? {
          relay := false;
          intervals := intervals + [Interval(lastUnlock, highAt, later)];
        }
        bolt := Locked;
        greenLed := false;
        redLed := false;
      }
      relay := false;
      returned := true;
    }
  }
}
