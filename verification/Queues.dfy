/** The two thread-safe queues.  Each method is one critical section, so one atomic step. */
module Queues {
  import opened Events

  /** A queue's contents, oldest first, and whether it has been shut down. */
  datatype Contents<+T> = Contents(items: seq<T>, closed: bool)

  /** The last n items. */
  function Newest<T>(s: seq<T>, n: nat): (r: seq<T>)
    ensures |r| == if |s| < n then |s| else n
    ensures r == s[|s| - |r|..]
  {
    if |s| <= n then s else s[|s| - n..]
  }

  lemma NewestOfTail<T>(s: seq<T>, n: nat)
    requires n < |s|
    ensures Newest(s[1..], n) == Newest(s, n)
  {
    assert s[1..][|s| - 1 - n..] == s[|s| - n..];
  }

  function Pushed<T>(q: Contents<T>, x: T): Contents<T> {
    if q.closed then q else q.(items := q.items + [x])
  }

  /** Room is made for the new item by dropping the oldest ones. */
  function PushedBounded<T>(q: Contents<T>, x: T, max: nat): Contents<T>
    requires max >= 1
  {
    if q.closed then q else q.(items := Newest(q.items, max - 1) + [x])
  }

  function Popped<T>(q: Contents<T>): Contents<T> {
    if q.items == [] then q else q.(items := q.items[1..])
  }

  function Front<T>(q: Contents<T>): Option<T> {
    if q.items == [] then None else Some(q.items[0])
  }

  // A consumer's loop, seen from its own thread: before each of its passes other threads push a batch, and
  // once there is none left they shut the queue down.

  function Flat<T>(batches: seq<seq<T>>): seq<T> {
    if batches == [] then [] else batches[0] + Flat(batches[1..])
  }

  function Arrived<T>(q: Contents<T>, rest: seq<seq<T>>): Contents<T> {
    if rest == [] then q.(closed := true)
    else if q.closed then q
    else q.(items := q.items + rest[0])
  }

  function Later<T>(rest: seq<seq<T>>): seq<seq<T>> {
    if rest == [] then [] else rest[1..]
  }

  /** What the consumer will be offered: what is queued and, unless the queue is shut down, what others
      will push. */
  function Coming<T>(q: Contents<T>, rest: seq<seq<T>>): seq<T> {
    q.items + if q.closed then [] else Flat(rest)
  }

  lemma ComingArrived<T>(q: Contents<T>, rest: seq<seq<T>>)
    ensures Coming(Arrived(q, rest), Later(rest)) == Coming(q, rest)
  {
    if rest != [] && !q.closed {
      assert q.items + (rest[0] + Flat(rest[1..])) == q.items + rest[0] + Flat(rest[1..]);
    }
  }

  lemma ComingPopped<T>(q: Contents<T>, rest: seq<seq<T>>)
    requires q.items != []
    ensures Coming(q, rest) == [q.items[0]] + Coming(Popped(q), rest)
  {
    assert q.items == [q.items[0]] + q.items[1..];
  }

  class ThreadSafeQueue<T> {
    var queue: seq<T>
    var isShutdown: bool

    ghost function View(): Contents<T>
      reads this
    {
      Contents(queue, isShutdown)
    }

    constructor ()
      ensures View() == Contents([], false)
    {
      queue, isShutdown := [], false;
    }

    method Push(x: T)
      modifies this
      ensures View() == Pushed(old(View()), x)
    {
      if isShutdown {
        return;
      }
      queue := queue + [x];
    }

    /** Drop-oldest push.  A bound of zero would make the eviction loop run past the empty queue. */
    method PushBounded(x: T, maxSize: nat)
      requires maxSize >= 1
      modifies this
      ensures View() == PushedBounded(old(View()), x, maxSize)
      ensures !isShutdown ==> queue != [] && queue[|queue| - 1] == x
    {
      if isShutdown {
        return;
      }
      while |queue| >= maxSize
        invariant Newest(queue, maxSize - 1) == Newest(old(queue), maxSize - 1)
        invariant isShutdown == old(isShutdown)
        decreases |queue|
      {
        NewestOfTail(queue, maxSize - 1);
        queue := queue[1..];
      }
      queue := queue + [x];
    }

    /** Blocking pop: the wait ends once there is an item or the queue is shut down. */
    method Pop() returns (r: Option<T>)
      requires queue != [] || isShutdown
      modifies this
      ensures r == Front(old(View())) && View() == Popped(old(View()))
    {
      r := TryPop();
    }

    method TryPop() returns (r: Option<T>)
      modifies this
      ensures r == Front(old(View())) && View() == Popped(old(View()))
    {
      if queue == [] {
        return None;
      }
      r := Some(queue[0]);
      queue := queue[1..];
    }

    method Shutdown()
      modifies this
      ensures View() == old(View()).(closed := true)
    {
      isShutdown := true;
    }
  }

  /** The control loop's queue: the same discipline, with a timed wait as well. */
  class EventQueue<T> {
    var queue: seq<T>
    var isShutdown: bool

    ghost function View(): Contents<T>
      reads this
    {
      Contents(queue, isShutdown)
    }

    constructor ()
      ensures View() == Contents([], false)
    {
      queue, isShutdown := [], false;
    }

    method Push(x: T)
      modifies this
      ensures View() == Pushed(old(View()), x)
    {
      if isShutdown {
        return;
      }
      queue := queue + [x];
    }

    method WaitAndPop() returns (r: Option<T>)
      requires queue != [] || isShutdown
      modifies this
      ensures r == Front(old(View())) && View() == Popped(old(View()))
    {
      r := TryPop();
    }

    /** The wait may also end by timing out; it then finds the queue empty. */
    method WaitForAndPop() returns (r: Option<T>)
      modifies this
      ensures r == Front(old(View())) && View() == Popped(old(View()))
    {
      r := TryPop();
    }

    method TryPop() returns (r: Option<T>)
      modifies this
      ensures r == Front(old(View())) && View() == Popped(old(View()))
    {
      if queue == [] {
        return None;
      }
      r := Some(queue[0]);
      queue := queue[1..];
    }

    method Shutdown()
      modifies this
      ensures View() == old(View()).(closed := true)
    {
      isShutdown := true;
    }
  }
}

/** Whole runs of a queue: every interleaving of critical sections is some sequence of operations. */
module QueueRuns {
  import opened Queues

  datatype Op<+T> = Push(x: T) | PushBounded(x: T, max: nat) | Pop | Close

  /** The queue with its history: everything accepted, and the positions among the accepted items
      of those handed out, in the order they were handed out. */
  datatype Run<+T> = Run(q: Contents<T>, accepted: seq<T>, popped: seq<int>)

  predicate Legal<T>(op: Op<T>) {
    op.PushBounded? ==> op.max >= 1
  }

  function Next<T>(r: Run<T>, op: Op<T>): Run<T>
    requires Legal(op)
  {
    match op
    case Push(x) =>
      Run(Pushed(r.q, x), if r.q.closed then r.accepted else r.accepted + [x], r.popped)
    case PushBounded(x, max) =>
      Run(PushedBounded(r.q, x, max), if r.q.closed then r.accepted else r.accepted + [x], r.popped)
    case Pop =>
      if r.q.items == [] then r
      else Run(Popped(r.q), r.accepted, r.popped + [|r.accepted| - |r.q.items|])
    case Close => r.(q := r.q.(closed := true))
  }

  function After<T>(ops: seq<Op<T>>): Run<T>
    requires forall k :: 0 <= k < |ops| ==> Legal(ops[k])
  {
    if ops == [] then Run(Contents([], false), [], [])
    else Next(After(ops[..|ops| - 1]), ops[|ops| - 1])
  }

  ghost predicate IsSuffix<T>(s: seq<T>, whole: seq<T>) {
    |s| <= |whole| && s == whole[|whole| - |s|..]
  }

  /** Increasing positions, all below the bound. */
  ghost predicate InOrder(positions: seq<int>, bound: int) {
    && (forall k :: 0 <= k < |positions| ==> 0 <= positions[k] < bound)
    && (forall j, k :: 0 <= j < k < |positions| ==> positions[j] < positions[k])
  }

  /** The queue is the fresh end of what was accepted, and what was handed out lies before it, in order. */
  ghost predicate Suffix<T>(r: Run<T>) {
    IsSuffix(r.q.items, r.accepted) && InOrder(r.popped, |r.accepted| - |r.q.items|)
  }

  lemma SuffixPush<T>(s: seq<T>, whole: seq<T>, x: T)
    requires IsSuffix(s, whole)
    ensures IsSuffix(s + [x], whole + [x])
  {
    assert (whole + [x])[|whole| - |s|..] == whole[|whole| - |s|..] + [x];
  }

  lemma SuffixNewest<T>(s: seq<T>, whole: seq<T>, n: nat)
    requires IsSuffix(s, whole)
    ensures IsSuffix(Newest(s, n), whole)
  {
    if n < |s| {
      assert whole[|whole| - |s|..][|s| - n..] == whole[|whole| - n..];
    }
  }

  lemma SuffixKept<T>(r: Run<T>, op: Op<T>)
    requires Legal(op) && Suffix(r)
    ensures Suffix(Next(r, op))
  {
    match op
    case Push(x) => SuffixPush(r.q.items, r.accepted, x);
    case PushBounded(x, max) =>
      SuffixNewest(r.q.items, r.accepted, max - 1);
      SuffixPush(Newest(r.q.items, max - 1), r.accepted, x);
    case Pop =>
      if r.q.items != [] {
        SuffixNewest(r.q.items, r.accepted, |r.q.items| - 1);
      }
    case Close =>
  }

  lemma {:induction false} AlwaysSuffix<T>(ops: seq<Op<T>>)
    requires forall k :: 0 <= k < |ops| ==> Legal(ops[k])
    ensures Suffix(After(ops))
  {
    if ops != [] {
      AlwaysSuffix(ops[..|ops| - 1]);
      SuffixKept(After(ops[..|ops| - 1]), ops[|ops| - 1]);
    }
  }

  /** With bounded pushes only, the queue never outgrows the bound. */
  lemma {:induction false} NeverOverfull<T>(ops: seq<Op<T>>, max: nat)
    requires max >= 1
    requires forall k :: 0 <= k < |ops| ==> !ops[k].Push? && (ops[k].PushBounded? ==> 1 <= ops[k].max <= max)
    ensures |After(ops).q.items| <= max
  {
    if ops != [] {
      NeverOverfull(ops[..|ops| - 1], max);
    }
  }

  /** With bounded pushes only, an item handed out is the oldest queued one and is among the last
      max accepted at that moment: the consumer never sees a stale frame. */
  lemma PoppedIsFresh<T>(ops: seq<Op<T>>, max: nat)
    requires max >= 1
    requires forall k :: 0 <= k < |ops| ==> !ops[k].Push? && (ops[k].PushBounded? ==> 1 <= ops[k].max <= max)
    requires After(ops).q.items != []
    ensures var r := After(ops);
            var s := After(ops + [Pop]);
            && |s.popped| == |r.popped| + 1
            && 0 <= s.popped[|r.popped|]
            && |r.accepted| - max <= s.popped[|r.popped|] < |r.accepted|
            && r.accepted[s.popped[|r.popped|]] == r.q.items[0]
  {
    assert (ops + [Pop])[..|ops|] == ops;
    AlwaysSuffix(ops);
    NeverOverfull(ops, max);
  }

  // What is accepted, kept and dropped, told from the operations alone.

  ghost predicate NoClose<T>(ops: seq<Op<T>>) {
    forall k :: 0 <= k < |ops| ==> !ops[k].Close?
  }

  /** The items offered before the queue was shut down, by either kind of push. */
  ghost function Offered<T>(ops: seq<Op<T>>): seq<T> {
    if ops == [] then []
    else
      var (before, last) := (ops[..|ops| - 1], ops[|ops| - 1]);
      Offered(before) + if (last.Push? || last.PushBounded?) && NoClose(before) then [last.x] else []
  }

  /** Exactly the items offered before the shutdown are accepted, in order. */
  lemma {:induction false} AcceptedIsOffered<T>(ops: seq<Op<T>>)
    requires forall k :: 0 <= k < |ops| ==> Legal(ops[k])
    ensures After(ops).accepted == Offered(ops)
    ensures After(ops).q.closed <==> !NoClose(ops)
  {
    if ops != [] {
      AcceptedIsOffered(ops[..|ops| - 1]);
    }
  }

  /** A bounded push on an open queue leaves one item more, up to the bound: the newest of those queued, in
      order, and then the new one. */
  lemma BoundedPushKeeps<T>(ops: seq<Op<T>>, x: T, max: nat)
    requires (forall k :: 0 <= k < |ops| ==> Legal(ops[k])) && max >= 1 && NoClose(ops)
    ensures var before := After(ops).q.items;
            var after := After(ops + [PushBounded(x, max)]).q.items;
            && |after| == (if |before| < max then |before| + 1 else max)
            && after[|after| - 1] == x
            && forall k :: 0 <= k < |after| - 1 ==> after[k] == before[|before| + 1 - |after| + k]
  {
    assert (ops + [PushBounded(x, max)])[..|ops|] == ops;
    AcceptedIsOffered(ops);
  }

  /** Position p among the accepted items is queued. */
  predicate Queued<T>(r: Run<T>, p: int) {
    |r.accepted| - |r.q.items| <= p < |r.accepted|
  }

  /** A queued item leaves the queue by being handed out, or by being dropped: exactly when a bounded push
      comes to the open queue and as many newer items are queued as there is room for beside the new one. */
  lemma DroppedIff<T>(ops: seq<Op<T>>, op: Op<T>, p: int)
    requires (forall k :: 0 <= k < |ops| ==> Legal(ops[k])) && Legal(op) && Queued(After(ops), p)
    ensures var (r, s) := (After(ops), After(ops + [op]));
            var dropped := !Queued(s, p) && !(|s.popped| > |r.popped| && s.popped[|r.popped|] == p);
            && (dropped <==> op.PushBounded? && NoClose(ops) && |r.accepted| - 1 - p >= op.max - 1)
            && (dropped && |r.q.items| <= op.max ==> |r.q.items| == op.max && p == |r.accepted| - op.max)
  {
    assert (ops + [op])[..|ops|] == ops;
    AcceptedIsOffered(ops);
    AlwaysSuffix(ops);
  }

  /** Push k is a bounded one that finds the open queue at its bound. */
  ghost predicate Overflows<T>(ops: seq<Op<T>>, k: int)
    requires forall i :: 0 <= i < |ops| ==> Legal(ops[i])
  {
    0 <= k < |ops| && ops[k].PushBounded? && NoClose(ops[..k]) && |After(ops[..k]).q.items| >= ops[k].max
  }

  ghost function Lost<T>(r: Run<T>): int {
    |r.accepted| - |r.q.items| - |r.popped|
  }

  lemma LostStep<T>(ops: seq<Op<T>>)
    requires ops != [] && forall i :: 0 <= i < |ops| ==> Legal(ops[i])
    ensures var before := ops[..|ops| - 1];
            && Lost(After(before)) <= Lost(After(ops))
            && (Lost(After(before)) < Lost(After(ops)) <==> Overflows(ops, |ops| - 1))
  {
    AcceptedIsOffered(ops[..|ops| - 1]);
  }

  lemma OverflowsBefore<T>(ops: seq<Op<T>>, k: nat)
    requires k < |ops| - 1 && forall i :: 0 <= i < |ops| ==> Legal(ops[i])
    ensures Overflows(ops, k) <==> Overflows(ops[..|ops| - 1], k)
  {
    assert ops[..|ops| - 1][..k] == ops[..k];
  }

  /** Nothing is ever lost, so that the k-th item handed out is the k-th accepted, if and only if no bounded
      push ever finds the open queue at its bound. */
  lemma {:induction false} LosslessIff<T>(ops: seq<Op<T>>)
    requires forall k :: 0 <= k < |ops| ==> Legal(ops[k])
    ensures var r := After(ops);
            && Lost(r) >= 0
            && (Lost(r) == 0 <==> forall k :: !Overflows(ops, k))
            && (Lost(r) == 0 ==> forall k :: 0 <= k < |r.popped| ==> r.popped[k] == k)
  {
    if ops != [] {
      var before := ops[..|ops| - 1];
      LosslessIff(before);
      LostStep(ops);
      AlwaysSuffix(before);
      forall k: nat | k < |ops| - 1 ensures Overflows(ops, k) <==> Overflows(before, k) {
        OverflowsBefore(ops, k);
      }
      if k :| Overflows(before, k) {
        assert Overflows(ops, k);
      }
    }
  }

  /** Without bounded pushes nothing is ever dropped: the k-th item handed out is the k-th accepted. */
  lemma UnboundedIsLossless<T>(ops: seq<Op<T>>)
    requires forall k :: 0 <= k < |ops| ==> !ops[k].PushBounded?
    ensures var r := After(ops);
            |r.popped| + |r.q.items| == |r.accepted| && forall k :: 0 <= k < |r.popped| ==> r.popped[k] == k
  {
    LosslessIff(ops);
  }
}

/** The access logger: producers queue entries, one worker moves them to the in-memory list. */
module LoggerDrain {
  import opened Queues

  class AsyncLoggerCam<T> {
    const queue: ThreadSafeQueue<T>
    var entries: seq<T>

    constructor ()
      ensures fresh(queue) && queue.View() == Contents([], false) && entries == []
    {
      queue := new ThreadSafeQueue<T>();
      entries := [];
    }

    method Log(ev: T)
      modifies queue
      ensures queue.View() == Pushed(old(queue.View()), ev)
    {
      queue.Push(ev);
    }

    /** Others log the next batch, or shut the queue down when there is none. */
    method Arrive(rest: seq<seq<T>>) returns (later: seq<seq<T>>)
      modifies queue
      ensures queue.View() == Arrived(old(queue.View()), rest) && later == Later(rest)
    {
      if rest == [] {
        queue.Shutdown();
        return [];
      }
      for i := 0 to |rest[0]|
        invariant queue.View() == if old(queue.isShutdown) then old(queue.View())
                                  else Contents(old(queue.queue) + rest[0][..i], false)
      {
        assert rest[0][..i + 1] == rest[0][..i] + [rest[0][i]];
        Log(rest[0][i]);
      }
      assert rest[0][..|rest[0]|] == rest[0];
      later := rest[1..];
    }

    /** The worker from start to exit, while others log the given batches and then shut the queue down: it
        stores everything queued and logged, in order. */
    method WorkerLoop(batches: seq<seq<T>>)
      modifies this, queue
      ensures entries == old(entries) + Coming(old(queue.View()), batches)
      ensures queue.View() == Contents([], true)
    {
      var done, rest := false, batches;
      while !done
        invariant entries + Coming(queue.View(), rest) == old(entries) + Coming(old(queue.View()), batches)
        invariant done ==> queue.View() == Contents([], true)
        decreases |rest|, if done then 0 else 1 + |queue.queue|
      {
        ComingArrived(queue.View(), rest);
        rest := Arrive(rest);
        if queue.queue != [] || queue.isShutdown {
          done := WorkerPass(rest);
        }
      }
    }

    /** One pass of the worker's loop: it stores the next event, or leaves. */
    method WorkerPass(ghost rest: seq<seq<T>>) returns (done: bool)
      requires queue.queue != [] || queue.isShutdown
      modifies this, queue
      ensures done <==> old(queue.queue) == []
      ensures queue.View() == Popped(old(queue.View()))
      ensures !done ==> entries + Coming(queue.View(), rest) == old(entries) + Coming(old(queue.View()), rest)
      ensures done ==> entries == old(entries)
    {
      ghost var q := queue.View();
      var ev := queue.Pop();
      match ev {
        case None => done := true;
        case Some(e) =>
          ComingPopped(q, rest);
          assert entries + ([e] + Coming(queue.View(), rest)) == entries + [e] + Coming(queue.View(), rest);
          entries := entries + [e];
          done := false;
      }
    }
  }

  datatype Worker<+T> = Waiting | Storing(ev: T) | Exited

  datatype Sys<+T> = Sys(q: Contents<T>, worker: Worker<T>, entries: seq<T>, accepted: seq<T>)

  datatype Action<+T> = Log(ev: T) | Close | Work

  /** The worker blocks while the queue is empty and open. */
  predicate Enabled<T>(s: Sys<T>, a: Action<T>) {
    a.Work? ==> !s.worker.Exited? && (s.worker.Waiting? ==> s.q.items != [] || s.q.closed)
  }

  function Next<T>(s: Sys<T>, a: Action<T>): Sys<T>
    requires Enabled(s, a)
  {
    match a
    case Log(ev) => s.(q := Pushed(s.q, ev), accepted := if s.q.closed then s.accepted else s.accepted + [ev])
    case Close => s.(q := s.q.(closed := true))
    case Work =>
      match s.worker
      case Waiting =>
        (match Front(s.q)
         case None => s.(worker := Exited)
         case Some(ev) => s.(worker := Storing(ev), q := Popped(s.q)))
      case Storing(ev) => s.(worker := Waiting, entries := s.entries + [ev])
  }

  ghost predicate Behaviour<T>(b: seq<Sys<T>>, acts: seq<Action<T>>) {
    && |b| == |acts| + 1
    && b[0] == Sys(Contents([], false), Waiting, [], [])
    && forall k :: 0 <= k < |acts| ==> Enabled(b[k], acts[k]) && b[k + 1] == Next(b[k], acts[k])
  }

  function InHand<T>(w: Worker<T>): seq<T> {
    if w.Storing? then [w.ev] else []
  }

  lemma {:induction false} NothingLost<T>(b: seq<Sys<T>>, acts: seq<Action<T>>, k: nat)
    requires Behaviour(b, acts) && k < |b|
    ensures b[k].entries + InHand(b[k].worker) + b[k].q.items == b[k].accepted
    ensures b[k].worker.Exited? ==> b[k].q == Contents([], true)
  {
    if k > 0 {
      NothingLost(b, acts, k - 1);
      assert b[k] == Next(b[k - 1], acts[k - 1]);
    }
  }

  ghost predicate NoClose<T>(acts: seq<Action<T>>) {
    forall k :: 0 <= k < |acts| ==> !acts[k].Close?
  }

  /** The events logged before the shutdown. */
  ghost function Logged<T>(acts: seq<Action<T>>): seq<T> {
    if acts == [] then []
    else
      var (before, last) := (acts[..|acts| - 1], acts[|acts| - 1]);
      Logged(before) + if last.Log? && NoClose(before) then [last.ev] else []
  }

  lemma {:induction false} AcceptedIsLogged<T>(b: seq<Sys<T>>, acts: seq<Action<T>>, k: nat)
    requires Behaviour(b, acts) && k < |b|
    ensures b[k].accepted == Logged(acts[..k]) && (b[k].q.closed <==> !NoClose(acts[..k]))
  {
    if k > 0 {
      AcceptedIsLogged(b, acts, k - 1);
      assert b[k] == Next(b[k - 1], acts[k - 1]);
      assert acts[..k][..k - 1] == acts[..k - 1];
      assert acts[..k] == acts[..k - 1] + [acts[k - 1]];
    }
  }

  /** However log calls and shutdown interleave with the worker, once it exits the stored entries are
      exactly the events logged before the shutdown, in order, then and at every later moment. */
  lemma DrainIsLossFree<T>(b: seq<Sys<T>>, acts: seq<Action<T>>, k: nat)
    requires Behaviour(b, acts) && k < |b| && b[k].worker.Exited?
    ensures b[k].entries == b[k].accepted == Logged(acts[..k])
  {
    NothingLost(b, acts, k);
    AcceptedIsLogged(b, acts, k);
  }
}
