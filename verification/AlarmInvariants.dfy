/** What every step of the interleaved alarm system keeps. */
module AlarmInvariants {
  import opened Events
  import opened AlarmFsm
  import opened Queues
  import opened AlarmSystem

  // Agreement of state, deadline and alarm.

  ghost predicate Agreement(s: Sys) {
    && s.fsm.state != Fault
    && (s.fsm.deadline.Some? <==> s.fsm.state == PendingVerification)
    && match s.control
       case InHandler(Trigger(_)) => s.fsm.state == AlarmActive
       case InHandler(Clear) => s.fsm.state != AlarmActive
       case _ => s.alarmActive <==> s.fsm.state == AlarmActive && !s.hist.silenced
  }

  lemma AgreementKept(s: Sys, a: Action)
    requires Enabled(s, a) && Agreement(s)
    ensures Agreement(Next(s, a))
  {
    if a.ControlStep? && s.control.InHandler? {
      match s.control.op
      case Keep =>
      case Clear =>
      case Trigger(_) =>
    }
  }

  // Conservation of events.

  function BeforeShutdown(ps: seq<Post>): seq<Post> {
    if ps == [] || ps[0].event.kind == Shutdown then [] else [ps[0]] + BeforeShutdown(ps[1..])
  }

  ghost predicate NoShutdown(ps: seq<Post>) {
    forall k :: 0 <= k < |ps| ==> ps[k].event.kind != Shutdown
  }

  /** Until the loop exits, handled posts followed by those in flight are the accepted ones.  It exits
      either on a Shutdown or with a closed, empty queue. */
  ghost predicate Conserved(s: Sys) {
    && NoShutdown(s.hist.handled) && (s.control.Took? ==> s.control.post.event.kind != Shutdown)
    && if s.control.Exited?
       then || (s.queue == Contents([], true) && s.hist.accepted == s.hist.handled)
            || (s.hist.handled < s.hist.accepted && s.hist.accepted[|s.hist.handled|].event.kind == Shutdown
                && s.hist.accepted == s.hist.handled + [s.hist.accepted[|s.hist.handled|]] + s.queue.items)
       else s.hist.accepted == s.hist.handled + InFlight(s)
  }

  lemma ConservedByPost(s: Sys, p: Post)
    requires Conserved(s)
    ensures Conserved(Posted(s, p))
  {
    if !s.queue.closed {
      if s.control.Exited? {
        assert s.hist.handled < s.hist.accepted;
        assert (s.hist.accepted + [p])[|s.hist.handled|] == s.hist.accepted[|s.hist.handled|];
      } else {
        assert InFlight(Posted(s, p)) == InFlight(s) + [p];
      }
    }
  }

  lemma ConservedByControl(s: Sys)
    requires Enabled(s, ControlStep) && Conserved(s)
    ensures Conserved(Next(s, ControlStep))
  {
    if s.control.Waiting? && s.queue.items != [] {
      assert s.queue.items == [s.queue.items[0]] + s.queue.items[1..];
      assert s.hist.accepted[|s.hist.handled|] == s.queue.items[0];
    }
  }

  lemma ConservedByTimer(s: Sys)
    requires Enabled(s, TimerStep) && Conserved(s)
    ensures Conserved(TimerNext(s))
  {
    ConservedByPost(s, AUTO_RESET);
    if s.timer.pc.Due? {
      ConservedByPost(s, TimeoutPost(s.timer.pc.due));
    }
    assert Conserved(TimerActs(s));
  }

  lemma ConservedKept(s: Sys, a: Action)
    requires Enabled(s, a) && Conserved(s)
    ensures Conserved(Next(s, a))
  {
    match a
    case ReedPush => ConservedByPost(s, Post(ReedEvent(s.reed.isOpen), None));
    case External(e) => ConservedByPost(s, Post(e, None));
    case ControlStep => ConservedByControl(s);
    case TimerStep => ConservedByTimer(s);
    case _ =>
  }

  // Where timeouts come from.

  /** Episodes so far: the window in force and the times at which they were opened. */
  datatype Episodes = Episodes(window: int, openings: seq<int>)

  function EpisodesOf(s: Sys): Episodes {
    Episodes(s.fsm.window, s.hist.openings)
  }

  /** d is the deadline of some episode opened so far. */
  ghost predicate IsDeadline(e: Episodes, d: int) {
    d - e.window in e.openings
  }

  /** A timeout rests on an episode's deadline that has already passed. */
  ghost predicate Based(p: Post, e: Episodes, clock: int) {
    p.event.kind == VerificationTimeout ==> p.basis.Some? && IsDeadline(e, p.basis.value) && p.basis.value <= clock
  }

  ghost predicate AllBased(ps: seq<Post>, e: Episodes, clock: int) {
    forall p :: p in ps ==> Based(p, e, clock)
  }

  ghost predicate Grounded(s: Sys) {
    && AllBased(InFlight(s), EpisodesOf(s), s.clock)
    && (s.fsm.deadline.Some? ==> IsDeadline(EpisodesOf(s), s.fsm.deadline.value))
    && (s.timer.pc.Read? && s.timer.pc.deadline.Some? ==> IsDeadline(EpisodesOf(s), s.timer.pc.deadline.value))
    && (s.timer.pc.Due? ==> IsDeadline(EpisodesOf(s), s.timer.pc.due) && s.timer.pc.due <= s.clock)
  }

  lemma AllBasedLater(ps: seq<Post>, e: Episodes, clock: int, qs: seq<Post>, o: int, later: int)
    requires AllBased(ps, e, clock) && clock <= later
    requires forall q :: q in qs ==> q in ps
    ensures AllBased(qs, e, later)
    ensures AllBased(qs, e.(openings := e.openings + [o]), later)
  {
    forall q | q in qs ensures Based(q, e, later) && Based(q, e.(openings := e.openings + [o]), later) {
      assert Based(q, e, clock);
    }
  }

  lemma GroundedByPost(s: Sys, p: Post)
    requires Grounded(s) && Based(p, EpisodesOf(s), s.clock)
    ensures Grounded(Posted(s, p))
  {
    var t := Posted(s, p);
    assert forall q :: q in InFlight(t) ==> q in InFlight(s) || q == p;
  }

  lemma GroundedByTake(s: Sys)
    requires Enabled(s, ControlStep) && s.control.Waiting? && Grounded(s)
    ensures Grounded(ControlNext(s))
  {
    AllBasedLater(InFlight(s), EpisodesOf(s), s.clock, InFlight(ControlNext(s)), 0, s.clock);
  }

  lemma GroundedByUpdate(s: Sys)
    requires s.control.Took? && Grounded(s)
    ensures Grounded(ControlNext(s))
  {
    var t := ControlNext(s);
    AllBasedLater(InFlight(s), EpisodesOf(s), s.clock, InFlight(t), s.clock, s.clock);
    if TakesOpening(s) {
      assert t.hist.openings[|s.hist.openings|] == s.clock;
    }
  }

  lemma GroundedByTimer(s: Sys)
    requires Enabled(s, TimerStep) && Grounded(s)
    ensures Grounded(TimerNext(s))
  {
    GroundedByPost(s, AUTO_RESET);
    if s.timer.pc.Due? {
      GroundedByPost(s, TimeoutPost(s.timer.pc.due));
    }
    assert Grounded(TimerActs(s));
  }

  lemma GroundedKept(s: Sys, a: Action)
    requires Enabled(s, a) && Grounded(s)
    ensures Grounded(Next(s, a))
  {
    match a
    case Tick(dt) => AllBasedLater(InFlight(s), EpisodesOf(s), s.clock, InFlight(s), 0, s.clock + dt);
    case ReedPush => GroundedByPost(s, Post(ReedEvent(s.reed.isOpen), None));
    case External(e) => GroundedByPost(s, Post(e, None));
    case ControlStep =>
      if s.control.Waiting? {
        GroundedByTake(s);
      } else if s.control.Took? {
        GroundedByUpdate(s);
      }
    case TimerStep => GroundedByTimer(s);
    case _ =>
  }

  // The door as the state machine sees it.

  /** The door flag after the given posts, starting from b. */
  function DoorFold(b: bool, ps: seq<Post>): bool {
    if ps == [] then b
    else if IsDoorReport(ps[|ps| - 1].event.kind) then ps[|ps| - 1].event.kind == DoorOpened
    else DoorFold(b, ps[..|ps| - 1])
  }

  /** The report made to the state machine whose post is still to come. */
  function ReedPending(s: Sys): seq<Post> {
    if s.reed.Reported? then [Post(ReedEvent(s.reed.isOpen), None)] else []
  }

  /** While the queue accepts posts, the flag carried through everything in flight is the latest report. */
  ghost predicate DoorView(s: Sys) {
    !s.queue.closed ==>
      DoorFold(s.fsm.doorOpen, InFlight(s) + ReedPending(s)) == DoorFold(false, s.hist.accepted + ReedPending(s))
  }

  lemma FoldSnoc(b: bool, ps: seq<Post>, p: Post)
    ensures DoorFold(b, ps + [p]) == if IsDoorReport(p.event.kind) then p.event.kind == DoorOpened else DoorFold(b, ps)
  {
    assert (ps + [p])[..|ps|] == ps;
  }

  lemma {:induction false} FoldHead(b: bool, p: Post, ps: seq<Post>)
    ensures DoorFold(b, [p] + ps) == DoorFold(DoorFold(b, [p]), ps)
    decreases |ps|
  {
    if ps == [] {
      assert [p] + ps == [p];
    } else {
      FoldHead(b, p, ps[..|ps| - 1]);
      assert ([p] + ps)[..|ps|] == [p] + ps[..|ps| - 1];
    }
  }

  lemma DoorViewByPost(s: Sys, p: Post)
    requires DoorView(s) && s.reed.ReedIdle?
    ensures DoorView(Posted(s, p))
  {
    assert !s.queue.closed ==> InFlight(Posted(s, p)) + [] == InFlight(s) + [p];
    assert InFlight(s) + [] == InFlight(s) && s.hist.accepted + [] == s.hist.accepted;
    assert Posted(s, p).hist.accepted + [] == Posted(s, p).hist.accepted;
    FoldSnoc(s.fsm.doorOpen, InFlight(s), p);
    FoldSnoc(false, s.hist.accepted, p);
  }

  /** A report not yet posted decides the view by itself. */
  lemma PendingDecides(s: Sys)
    requires s.reed.Reported?
    ensures DoorView(s)
  {
    FoldSnoc(s.fsm.doorOpen, InFlight(s), ReedPending(s)[0]);
    FoldSnoc(false, s.hist.accepted, ReedPending(s)[0]);
  }

  lemma FoldOne(b: bool, p: Post)
    ensures DoorFold(b, [p]) == if IsDoorReport(p.event.kind) then p.event.kind == DoorOpened else b
  {
    FoldSnoc(b, [], p);
    assert [] + [p] == [p];
  }

  lemma DoorViewByTake(s: Sys)
    requires Enabled(s, ControlStep) && s.control.Waiting? && DoorView(s)
    ensures DoorView(ControlNext(s))
  {
    if s.queue.items != [] {
      var t := ControlNext(s);
      var p := s.queue.items[0];
      var rest := s.queue.items[1..] + ReedPending(s);
      assert InFlight(s) + ReedPending(s) == [p] + rest;
      FoldHead(s.fsm.doorOpen, p, rest);
      FoldOne(s.fsm.doorOpen, p);
      assert InFlight(t) + ReedPending(t) == if t.control.Took? then [p] + rest else rest;
    }
  }

  lemma DoorViewByUpdate(s: Sys)
    requires s.control.Took? && DoorView(s)
    ensures DoorView(ControlNext(s))
  {
    var t := ControlNext(s);
    var p := s.control.post;
    var rest := s.queue.items + ReedPending(s);
    assert InFlight(s) + ReedPending(s) == [p] + rest;
    assert InFlight(t) + ReedPending(t) == rest;
    FoldHead(s.fsm.doorOpen, p, rest);
    FoldOne(s.fsm.doorOpen, p);
  }

  lemma DoorViewByTimer(s: Sys)
    requires Enabled(s, TimerStep) && DoorView(s) && s.reed.ReedIdle?
    ensures DoorView(TimerNext(s))
  {
    DoorViewByPost(s, AUTO_RESET);
    if s.timer.pc.Due? {
      DoorViewByPost(s, TimeoutPost(s.timer.pc.due));
    }
    assert DoorView(TimerActs(s));
  }

  lemma DoorViewKept(s: Sys, a: Action)
    requires Enabled(s, a) && DoorView(s)
    ensures DoorView(Next(s, a))
  {
    if Next(s, a).reed.Reported? {
      PendingDecides(Next(s, a));
    } else {
      match a
      case ReedPush =>
        var t := Next(s, a);
        var p := Post(ReedEvent(s.reed.isOpen), None);
        assert !s.queue.closed ==> InFlight(t) + ReedPending(t) == InFlight(s) + [p];
        assert t.hist.accepted + ReedPending(t) == t.hist.accepted;
      case External(e) => DoorViewByPost(s, Post(e, None));
      case ControlStep =>
        if s.control.Waiting? {
          DoorViewByTake(s);
        } else if s.control.Took? {
          DoorViewByUpdate(s);
        }
      case TimerStep => DoorViewByTimer(s);
      case _ =>
    }
  }

  // Every reachable state.

  ghost predicate Invariant(s: Sys) {
    && Agreement(s) && Conserved(s) && Grounded(s) && DoorView(s)
  }

  lemma InvariantKept(s: Sys, a: Action)
    requires Enabled(s, a) && Invariant(s)
    ensures Invariant(Next(s, a)) && Next(s, a).fsm.window == s.fsm.window
  {
    AgreementKept(s, a);
    ConservedKept(s, a);
    GroundedKept(s, a);
    DoorViewKept(s, a);
  }

  lemma {:induction false} AlwaysInvariant(window: int, b: seq<Sys>, acts: seq<Action>, k: nat)
    requires Behaviour(window, b, acts) && k < |b|
    ensures Invariant(b[k]) && b[k].fsm.window == window
  {
    if k > 0 {
      AlwaysInvariant(window, b, acts, k - 1);
      InvariantKept(b[k - 1], acts[k - 1]);
    }
  }
}
