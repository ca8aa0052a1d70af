/** The door as the alarm system sees it: what writes the door flag, what that lets an authorisation do, and
    when the flag is what the reed switch last said. */
module DoorReports {
  import opened Events
  import opened AlarmFsm
  import opened Queues
  import opened AlarmSystem
  import opened AlarmInvariants

  // Who writes the door flag.

  /** The reed's own report, or the handling of a queued door report. */
  predicate WritesDoor(s: Sys, a: Action) {
    a.ReedSet? || (a.ControlStep? && s.control.Took? && IsDoorReport(s.control.post.event.kind))
  }

  predicate Written(s: Sys, a: Action)
    requires WritesDoor(s, a)
  {
    if a.ReedSet? then a.isOpen else s.control.post.event.kind == DoorOpened
  }

  /** Step j is the last one before state k to write the door flag. */
  ghost predicate LastWrite(b: seq<Sys>, acts: seq<Action>, k: int, j: int) {
    && 0 <= j < k <= |acts| < |b| && WritesDoor(b[j], acts[j])
    && forall i :: j < i < k ==> !WritesDoor(b[i], acts[i])
  }

  lemma {:induction false} FlagIsLastWrite(window: int, b: seq<Sys>, acts: seq<Action>, k: nat)
    requires Behaviour(window, b, acts) && k <= |acts|
    ensures forall j :: LastWrite(b, acts, k, j) ==> b[k].fsm.doorOpen == Written(b[j], acts[j])
    ensures (forall j :: !LastWrite(b, acts, k, j)) ==> !b[k].fsm.doorOpen
  {
    if k > 0 {
      FlagIsLastWrite(window, b, acts, k - 1);
      LastWriteExtended(b, acts, k - 1);
      WriteStep(b[k - 1], acts[k - 1]);
    }
  }

  lemma LastWriteExtended(b: seq<Sys>, acts: seq<Action>, k: nat)
    requires k < |acts| < |b|
    ensures WritesDoor(b[k], acts[k]) ==> LastWrite(b, acts, k + 1, k)
    ensures forall j :: LastWrite(b, acts, k + 1, j) <==>
      if WritesDoor(b[k], acts[k]) then j == k else LastWrite(b, acts, k, j)
  {
    forall j
      ensures LastWrite(b, acts, k + 1, j) <==> if WritesDoor(b[k], acts[k]) then j == k else LastWrite(b, acts, k, j)
    {
      if LastWrite(b, acts, k + 1, j) && j != k {
        assert !WritesDoor(b[k], acts[k]) && LastWrite(b, acts, k, j);
      }
    }
  }

  lemma WriteStep(s: Sys, a: Action)
    requires Enabled(s, a)
    ensures Next(s, a).fsm.doorOpen == if WritesDoor(s, a) then Written(s, a) else s.fsm.doorOpen
  {
  }

  // What an authorisation meets.

  predicate HandlesAuthorization(s: Sys, a: Action) {
    a.ControlStep? && s.control.Took? && IsAuthorization(s.control.post.event.kind)
  }

  /** In every interleaving, a step enters AuthorizedEntry if and only if it handles an authorisation, in
      one of the three states that admit one, and the last write of the door flag, if any, said closed. */
  lemma EntryAuthorizedIff(window: int, b: seq<Sys>, acts: seq<Action>, k: nat)
    requires Behaviour(window, b, acts) && k < |acts| && b[k].fsm.state != AuthorizedEntry
    ensures b[k + 1].fsm.state == AuthorizedEntry <==>
            && HandlesAuthorization(b[k], acts[k])
            && b[k].fsm.state in {ArmedIdle, PendingVerification, AlarmActive}
            && forall j :: LastWrite(b, acts, k, j) ==> !Written(b[j], acts[j])
  {
    FlagIsLastWrite(window, b, acts, k);
    assert Enabled(b[k], acts[k]) && b[k + 1] == Next(b[k], acts[k]);
    AuthorizedStep(b[k], acts[k]);
  }

  lemma AuthorizedStep(s: Sys, a: Action)
    requires Enabled(s, a) && s.fsm.state != AuthorizedEntry
    ensures Next(s, a).fsm.state == AuthorizedEntry <==>
            && HandlesAuthorization(s, a) && s.fsm.state in {ArmedIdle, PendingVerification, AlarmActive}
            && !s.fsm.doorOpen
  {
  }

  /** An opening is under verification or has raised the alarm. */
  predicate InEpisode(s: Sys) {
    s.fsm.state == PendingVerification || s.fsm.state == AlarmActive
  }

  /** Step j is the reed reporting a close, and nothing has written the door flag since. */
  ghost predicate ReedShut(b: seq<Sys>, acts: seq<Action>, k: int, j: int) {
    LastWrite(b, acts, k, j) && acts[j] == ReedSet(false)
  }

  lemma EpisodeStep(s: Sys, a: Action)
    requires Enabled(s, a) && InEpisode(Next(s, a)) && !Next(s, a).fsm.doorOpen
    ensures WritesDoor(s, a) ==> a == ReedSet(false)
    ensures InEpisode(s) && (!WritesDoor(s, a) ==> !s.fsm.doorOpen)
  {
  }

  lemma {:induction false} ShutByReed(window: int, b: seq<Sys>, acts: seq<Action>, k: nat) returns (j: nat)
    requires Behaviour(window, b, acts) && k <= |acts| && InEpisode(b[k]) && !b[k].fsm.doorOpen
    ensures ReedShut(b, acts, k, j)
  {
    EpisodeStep(b[k - 1], acts[k - 1]);
    LastWriteExtended(b, acts, k - 1);
    if WritesDoor(b[k - 1], acts[k - 1]) {
      j := k - 1;
    } else {
      j := ShutByReed(window, b, acts, k - 1);
    }
  }

  /** During an episode the state machine takes the door for closed exactly when the reed's early report
      says so and nothing has written the door flag since. */
  lemma ShutDuringEpisode(window: int, b: seq<Sys>, acts: seq<Action>, k: nat)
    requires Behaviour(window, b, acts) && k <= |acts| && InEpisode(b[k])
    ensures !b[k].fsm.doorOpen <==> exists j :: ReedShut(b, acts, k, j)
  {
    FlagIsLastWrite(window, b, acts, k);
    if !b[k].fsm.doorOpen {
      var j := ShutByReed(window, b, acts, k);
    }
  }

  /** The documented rule that an authorisation cannot end a pending verification or an alarm, made exact for
      every interleaving: it does end the episode if and only if the reed has reported a close and neither
      the reed nor a handled door report has said anything since; otherwise it changes nothing. */
  lemma AuthorizationEndsEpisodeIff(window: int, b: seq<Sys>, acts: seq<Action>, k: nat)
    requires Behaviour(window, b, acts) && k < |acts|
    requires InEpisode(b[k]) && HandlesAuthorization(b[k], acts[k])
    ensures b[k + 1].fsm.state == AuthorizedEntry <==> exists j :: ReedShut(b, acts, k, j)
    ensures b[k + 1].fsm.state != AuthorizedEntry ==> b[k + 1].fsm == b[k].fsm
  {
    ShutDuringEpisode(window, b, acts, k);
    assert Enabled(b[k], acts[k]) && b[k + 1] == Next(b[k], acts[k]);
  }

  /** A close is queued, being taken, or about to be posted by the reed. */
  ghost predicate CloseComing(s: Sys) {
    exists p :: p in InFlight(s) + ReedPending(s) && p.event.kind == DoorClosed
  }

  /** An episode in which the door is taken for closed is about to end by itself: while the queue is open and
      the control loop runs, the matching close is on its way. */
  lemma {:induction false} CloseIsComing(window: int, b: seq<Sys>, acts: seq<Action>, k: nat)
    requires Behaviour(window, b, acts) && k <= |acts|
    requires InEpisode(b[k]) && !b[k].fsm.doorOpen && !b[k].queue.closed && !b[k].control.Exited?
    ensures CloseComing(b[k])
  {
    var s, a := b[k - 1], acts[k - 1];
    assert Enabled(s, a) && b[k] == Next(s, a);
    EpisodeStep(s, a);
    if WritesDoor(s, a) {
      assert ReedPending(b[k]) == [Post(ReedEvent(false), None)];
      assert Post(ReedEvent(false), None) in InFlight(b[k]) + ReedPending(b[k]);
    } else {
      WriteStep(s, a);
      CloseIsComing(window, b, acts, k - 1);
      StillComing(s, a);
    }
  }

  lemma StillComing(s: Sys, a: Action)
    requires Enabled(s, a) && CloseComing(s) && !s.queue.closed
    requires !WritesDoor(s, a) && !Next(s, a).control.Exited?
    ensures CloseComing(Next(s, a))
  {
    var t := Next(s, a);
    var p :| p in InFlight(s) + ReedPending(s) && p.event.kind == DoorClosed;
    if a.ReedPush? {
      assert !t.queue.closed ==> InFlight(t) == InFlight(s) + ReedPending(s);
    } else if a.ControlStep? {
      FlightByControl(s);
    } else if a.TimerStep? {
      FlightByTimer(s);
    } else {
      assert InFlight(s) <= InFlight(t) && ReedPending(t) == ReedPending(s);
    }
    assert p in InFlight(t) + ReedPending(t);
  }

  lemma FlightByControl(s: Sys)
    requires Enabled(s, ControlStep) && !ControlNext(s).control.Exited?
    ensures InFlight(ControlNext(s)) == if s.control.Took? then InFlight(s)[1..] else InFlight(s)
    ensures s.control.Took? ==> InFlight(s) == [s.control.post] + s.queue.items
  {
  }

  lemma FlightByTimer(s: Sys)
    requires Enabled(s, TimerStep)
    ensures InFlight(s) <= InFlight(TimerNext(s)) && TimerNext(s).reed == s.reed
  {
  }

  // Whose report the flag shows once everything is handled.

  ghost predicate Drained(s: Sys) {
    s.control.Waiting? && s.queue == Contents([], false) && s.reed.ReedIdle?
  }

  /** A door report that does not come from the reed: an automatic reset, or an outside caller's. */
  predicate Foreign(s: Sys, a: Action) {
    (a.TimerStep? && AutoResets(s)) || (a.External? && IsDoorReport(a.e.kind))
  }

  predicate PostsDoor(s: Sys, a: Action) {
    a.ReedPush? || Foreign(s, a)
  }

  predicate Told(s: Sys, a: Action)
    requires Enabled(s, a) && PostsDoor(s, a)
  {
    match a
    case ReedPush => s.reed.isOpen
    case External(e) => e.kind == DoorOpened
    case _ => false
  }

  /** Step j is the last one before state k to post a door report. */
  ghost predicate LastPost(b: seq<Sys>, acts: seq<Action>, k: int, j: int) {
    && 0 <= j < k <= |acts| < |b| && PostsDoor(b[j], acts[j])
    && forall i :: j < i < k ==> !PostsDoor(b[i], acts[i])
  }

  lemma PostStep(s: Sys, a: Action)
    requires Enabled(s, a) && !Next(s, a).queue.closed
    ensures !s.queue.closed
    ensures DoorFold(false, Next(s, a).hist.accepted)
         == if PostsDoor(s, a) then Told(s, a) else DoorFold(false, s.hist.accepted)
  {
    var (before, after) := (s.hist.accepted, Next(s, a).hist.accepted);
    if |after| > |before| {
      assert after == before + [after[|before|]];
      FoldSnoc(false, before, after[|before|]);
    }
  }

  /** While the queue is open, the accepted posts fold to what the last poster of a door report said. */
  lemma {:induction false} FoldIsLastPost(window: int, b: seq<Sys>, acts: seq<Action>, k: nat)
    requires Behaviour(window, b, acts) && k <= |acts| && !b[k].queue.closed
    ensures forall j :: LastPost(b, acts, k, j) ==>
      Enabled(b[j], acts[j]) && DoorFold(false, b[k].hist.accepted) == Told(b[j], acts[j])
    ensures (forall j :: !LastPost(b, acts, k, j)) ==> !DoorFold(false, b[k].hist.accepted)
  {
    if k > 0 {
      PostStep(b[k - 1], acts[k - 1]);
      FoldIsLastPost(window, b, acts, k - 1);
      LastPostExtended(b, acts, k - 1);
    }
  }

  lemma LastPostExtended(b: seq<Sys>, acts: seq<Action>, k: nat)
    requires k < |acts| < |b|
    ensures PostsDoor(b[k], acts[k]) ==> LastPost(b, acts, k + 1, k)
    ensures forall j :: LastPost(b, acts, k + 1, j) <==>
      if PostsDoor(b[k], acts[k]) then j == k else LastPost(b, acts, k, j)
  {
    forall j
      ensures LastPost(b, acts, k + 1, j) <==> if PostsDoor(b[k], acts[k]) then j == k else LastPost(b, acts, k, j)
    {
      if LastPost(b, acts, k + 1, j) && j != k {
        assert !PostsDoor(b[k], acts[k]) && LastPost(b, acts, k, j);
      }
    }
  }

  /** What the reed switch last said, among the first k steps. */
  function LastReed(acts: seq<Action>, k: nat): bool
    requires k <= |acts|
  {
    if k == 0 then false
    else if acts[k - 1].ReedSet? then acts[k - 1].isOpen
    else LastReed(acts, k - 1)
  }

  /** The reed posts what it last said: its post, once made, stands until it speaks again. */
  lemma {:induction false} ReedPostsLastReed(window: int, b: seq<Sys>, acts: seq<Action>, k: nat)
    requires Behaviour(window, b, acts) && k <= |acts|
    ensures b[k].reed.Reported? ==> b[k].reed.isOpen == LastReed(acts, k)
    ensures b[k].reed.ReedIdle? ==>
      forall j :: LastPost(b, acts, k, j) && acts[j].ReedPush? ==> b[j].reed == Reported(LastReed(acts, k))
    ensures b[k].reed.ReedIdle? && LastReed(acts, k) ==> exists j :: LastPost(b, acts, k, j)
  {
    if k > 0 {
      ReedPostsLastReed(window, b, acts, k - 1);
      LastPostExtended(b, acts, k - 1);
      ReedStep(b[k - 1], acts[k - 1]);
    }
  }

  lemma ReedStep(s: Sys, a: Action)
    requires Enabled(s, a)
    ensures a.ReedPush? ==> s.reed.Reported?
    ensures Next(s, a).reed == if a.ReedSet? then Reported(a.isOpen) else if a.ReedPush? then ReedIdle else s.reed
  {
  }

  /** Step j is the last to post a door report; it is not the reed's and contradicts it. */
  ghost predicate Hides(b: seq<Sys>, acts: seq<Action>, k: nat, j: int)
    requires k <= |acts|
  {
    && LastPost(b, acts, k, j) && Foreign(b[j], acts[j])
    && Enabled(b[j], acts[j]) && Told(b[j], acts[j]) != LastReed(acts, k)
  }

  lemma DrainedFlag(window: int, b: seq<Sys>, acts: seq<Action>, k: nat)
    requires Behaviour(window, b, acts) && k <= |acts| && Drained(b[k])
    ensures b[k].fsm.doorOpen == DoorFold(false, b[k].hist.accepted)
  {
    AlwaysInvariant(window, b, acts, k);
    assert InFlight(b[k]) + ReedPending(b[k]) == [];
    assert b[k].hist.accepted + ReedPending(b[k]) == b[k].hist.accepted;
  }

  /** Once drained, the door flag is what the reed last said if and only if the last door report posted is
      not a foreign one - an automatic reset or an outside caller's - that says otherwise. */
  lemma DrainedSeesReedIff(window: int, b: seq<Sys>, acts: seq<Action>, k: nat)
    requires Behaviour(window, b, acts) && k <= |acts| && Drained(b[k])
    ensures b[k].fsm.doorOpen == LastReed(acts, k) <==> !exists j :: Hides(b, acts, k, j)
  {
    DrainedFlag(window, b, acts, k);
    FoldIsLastPost(window, b, acts, k);
    ReedPostsLastReed(window, b, acts, k);
    if j :| LastPost(b, acts, k, j) {
      assert forall i :: LastPost(b, acts, k, i) ==> i == j;
      assert Hides(b, acts, k, j) <==> Foreign(b[j], acts[j]) && Told(b[j], acts[j]) != LastReed(acts, k);
    }
  }

  /** No door report but the reed's: neither an automatic reset nor an outside caller posts one. */
  ghost predicate OnlyReedReports(b: seq<Sys>, acts: seq<Action>, k: nat)
    requires k <= |acts| && |b| == |acts| + 1
  {
    forall j :: 0 <= j < k ==> !Foreign(b[j], acts[j])
  }

  /** In runs where only the reed reports the door, a drained system sees the door as the reed last
      reported it. */
  lemma DrainedSeesReed(window: int, b: seq<Sys>, acts: seq<Action>, k: nat)
    requires Behaviour(window, b, acts) && k <= |acts| && Drained(b[k]) && OnlyReedReports(b, acts, k)
    ensures b[k].fsm.doorOpen == LastReed(acts, k)
  {
    DrainedSeesReedIff(window, b, acts, k);
  }

  /** Position i holds the last door report among the posts. */
  ghost predicate LastDoorPost(ps: seq<Post>, i: int) {
    && 0 <= i < |ps| && IsDoorReport(ps[i].event.kind)
    && forall k :: i < k < |ps| ==> !IsDoorReport(ps[k].event.kind)
  }

  lemma {:induction false} FoldIsLastReport(b: bool, ps: seq<Post>)
    ensures forall i :: LastDoorPost(ps, i) ==> DoorFold(b, ps) == (ps[i].event.kind == DoorOpened)
    ensures (forall i :: !LastDoorPost(ps, i)) ==> DoorFold(b, ps) == b
  {
    if ps != [] {
      var n := |ps| - 1;
      FoldIsLastReport(b, ps[..n]);
      if IsDoorReport(ps[n].event.kind) {
        assert LastDoorPost(ps, n);
      } else {
        forall i ensures LastDoorPost(ps, i) <==> LastDoorPost(ps[..n], i) {}
      }
    }
  }

  /** Once drained, the door flag is the last accepted door report, whoever posted it, or closed. */
  lemma DrainedDoorView(window: int, b: seq<Sys>, acts: seq<Action>, k: nat)
    requires Behaviour(window, b, acts) && k <= |acts| && Drained(b[k])
    ensures b[k].fsm.doorOpen <==>
            exists i :: LastDoorPost(b[k].hist.accepted, i) && b[k].hist.accepted[i].event.kind == DoorOpened
  {
    DrainedFlag(window, b, acts, k);
    FoldIsLastReport(false, b[k].hist.accepted);
  }
}
