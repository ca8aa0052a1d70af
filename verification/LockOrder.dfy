/** Deadlock freedom: every thread takes the mutexes in rank order, so some unfinished thread can
    always move, however many threads there are. */
module LockOrder {

  datatype Mutex = Bus | RelockTimer | Fsm | Alarm | Output | Log | AccessLog | EventQueue | Api

  const MAX_RANK := 8

  function Rank(m: Mutex): (r: nat)
    ensures r <= MAX_RANK
  {
    match m
    case Bus => 0
    case RelockTimer => 1
    case Fsm => 2
    case Alarm => 3
    case Output => 4
    case Log => 5
    case AccessLog => 6
    case EventQueue => 7
    case Api => 8
  }

  datatype Op = Acquire(m: Mutex) | Release(m: Mutex)

  /** A script takes each mutex only above those already held, and gives every one back. */
  ghost predicate Ordered(script: seq<Op>, held: set<Mutex>)
    decreases |script|
  {
    if script == [] then held == {}
    else
      match script[0]
      case Acquire(m) => (forall h :: h in held ==> Rank(h) < Rank(m)) && Ordered(script[1..], held + {m})
      case Release(m) => m in held && Ordered(script[1..], held - {m})
  }

  // The critical sections of the source, innermost last.

  datatype Call =
    | QueueOp
    | LogMessage
    | SetLine
    | UseFsm(logsBefore: nat, alarmOps: nat, lines: nat, alarmLogs: nat, logsAfter: nat)
    | AlarmByTimer(lines: nat, logs: nat)
    | PublishUnlock
    | ArmTimer
    | LogAccess
    | ApiHandler

  function Section(m: Mutex, body: seq<Op>): seq<Op> {
    [Acquire(m)] + body + [Release(m)]
  }

  function Repeated(ops: seq<Op>, n: nat): seq<Op> {
    if n == 0 then [] else ops + Repeated(ops, n - 1)
  }

  /** The alarm manager writes some output lines and, once it has a logger, logs, all under its own mutex. */
  function AlarmSection(lines: nat, logs: nat): seq<Op> {
    Section(Alarm, Repeated(Section(Output, []), lines) + Repeated(Section(Log, []), logs))
  }

  /** A handler or accessor of the state machine: it logs, works the alarm and logs again under its mutex. */
  function FsmBody(before: nat, alarmOps: nat, lines: nat, alarmLogs: nat, after: nat): seq<Op> {
    Repeated(Section(Log, []), before) + Repeated(AlarmSection(lines, alarmLogs), alarmOps)
      + Repeated(Section(Log, []), after)
  }

  function Script(c: Call): seq<Op> {
    match c
    case QueueOp => Section(EventQueue, [])
    case LogMessage => Section(Log, [])
    case SetLine => Section(Output, [])
    case UseFsm(before, alarmOps, lines, alarmLogs, after) =>
      Section(Fsm, FsmBody(before, alarmOps, lines, alarmLogs, after))
    case AlarmByTimer(lines, logs) => AlarmSection(lines, logs)
    case PublishUnlock => Section(Bus, Section(RelockTimer, []) + Section(AccessLog, []))
    case ArmTimer => Section(RelockTimer, [])
    case LogAccess => Section(AccessLog, [])
    case ApiHandler => Section(Api, [])
  }

  lemma RaisingNestings()
    ensures AlarmSection(2, 1) ==
      [Acquire(Alarm), Acquire(Output), Release(Output), Acquire(Output), Release(Output),
       Acquire(Log), Release(Log), Release(Alarm)]
  {
    var (line, log) := ([Acquire(Output), Release(Output)], [Acquire(Log), Release(Log)]);
    assert Section(Output, []) == line && Section(Log, []) == log;
    assert Repeated(line, 1) == line && Repeated(line, 2) == line + line && Repeated(log, 1) == log;
    assert line + line == [Acquire(Output), Release(Output), Acquire(Output), Release(Output)];
  }

  lemma TimeoutNestings(raising: seq<Op>)
    requires raising == AlarmSection(2, 1)
    ensures Script(UseFsm(0, 1, 2, 1, 1)) == [Acquire(Fsm)] + raising + [Acquire(Log), Release(Log), Release(Fsm)]
  {
    var log := [Acquire(Log), Release(Log)];
    assert Section(Log, []) == log && Repeated(log, 0) == [] && Repeated(log, 1) == log;
    assert Repeated(raising, 1) == raising;
    assert FsmBody(0, 1, 2, 1, 1) == raising + log;
  }

  /** The two deepest nestings, spelled out: a timeout handled to the alarm, with two lines written and two
      messages logged, and an unlock on the bus. */
  lemma DeepestNestings()
    ensures Script(UseFsm(0, 1, 2, 1, 1)) ==
      [Acquire(Fsm), Acquire(Alarm), Acquire(Output), Release(Output), Acquire(Output), Release(Output),
       Acquire(Log), Release(Log), Release(Alarm), Acquire(Log), Release(Log), Release(Fsm)]
    ensures Script(PublishUnlock) ==
      [Acquire(Bus), Acquire(RelockTimer), Release(RelockTimer), Acquire(AccessLog), Release(AccessLog), Release(Bus)]
  {
    RaisingNestings();
    TimeoutNestings(AlarmSection(2, 1));
  }

  /** A thread's whole life: calls one after the other. */
  function Program(calls: seq<Call>): seq<Op> {
    if calls == [] then [] else Script(calls[0]) + Program(calls[1..])
  }

  /** Nothing but mutexes above the given rank, all given back: it can run inside any section below. */
  ghost predicate Above(ops: seq<Op>, r: int) {
    forall rest: seq<Op>, held: set<Mutex> {:trigger Ordered(ops + rest, held)} ::
      Ordered(rest, held) && (forall h :: h in held ==> Rank(h) <= r) ==> Ordered(ops + rest, held)
  }

  lemma EmptyAbove(r: int)
    ensures Above([], r)
  {
    forall rest: seq<Op>, held: set<Mutex> | Ordered(rest, held) ensures Ordered([] + rest, held) {
      assert [] + rest == rest;
    }
  }

  lemma SectionAbove(m: Mutex, body: seq<Op>, r: int)
    requires r < Rank(m) && Above(body, Rank(m))
    ensures Above(Section(m, body), r)
  {
    forall rest: seq<Op>, held: set<Mutex> | Ordered(rest, held) && forall h :: h in held ==> Rank(h) <= r
      ensures Ordered(Section(m, body) + rest, held)
    {
      assert held + {m} - {m} == held;
      var closing := [Release(m)] + rest;
      assert closing[1..] == rest;
      assert Ordered(closing, held + {m});
      assert Ordered(body + closing, held + {m});
      var whole := Section(m, body) + rest;
      assert whole[1..] == body + closing;
    }
  }

  lemma ConcatAbove(a: seq<Op>, b: seq<Op>, r: int)
    requires Above(a, r) && Above(b, r)
    ensures Above(a + b, r)
  {
    forall rest: seq<Op>, held: set<Mutex> | Ordered(rest, held) && forall h :: h in held ==> Rank(h) <= r
      ensures Ordered((a + b) + rest, held)
    {
      assert Ordered(b + rest, held);
      assert Ordered(a + (b + rest), held);
      assert (a + b) + rest == a + (b + rest);
    }
  }

  lemma {:induction false} RepeatedAbove(ops: seq<Op>, n: nat, r: int)
    requires Above(ops, r)
    ensures Above(Repeated(ops, n), r)
  {
    if n == 0 {
      EmptyAbove(r);
    } else {
      RepeatedAbove(ops, n - 1, r);
      ConcatAbove(ops, Repeated(ops, n - 1), r);
    }
  }

  lemma LeafAbove(m: Mutex, r: int)
    requires r < Rank(m)
    ensures Above(Section(m, []), r)
  {
    EmptyAbove(Rank(m));
    SectionAbove(m, [], r);
  }

  lemma AlarmSectionAbove(lines: nat, logs: nat, r: int)
    requires r < Rank(Alarm)
    ensures Above(AlarmSection(lines, logs), r)
  {
    LeafAbove(Output, Rank(Alarm));
    RepeatedAbove(Section(Output, []), lines, Rank(Alarm));
    LeafAbove(Log, Rank(Alarm));
    RepeatedAbove(Section(Log, []), logs, Rank(Alarm));
    ConcatAbove(Repeated(Section(Output, []), lines), Repeated(Section(Log, []), logs), Rank(Alarm));
    SectionAbove(Alarm, Repeated(Section(Output, []), lines) + Repeated(Section(Log, []), logs), r);
  }

  lemma FsmBodyAbove(before: nat, alarmOps: nat, lines: nat, alarmLogs: nat, after: nat)
    ensures Above(FsmBody(before, alarmOps, lines, alarmLogs, after), Rank(Fsm))
  {
    LeafAbove(Log, Rank(Fsm));
    RepeatedAbove(Section(Log, []), before, Rank(Fsm));
    RepeatedAbove(Section(Log, []), after, Rank(Fsm));
    AlarmSectionAbove(lines, alarmLogs, Rank(Fsm));
    RepeatedAbove(AlarmSection(lines, alarmLogs), alarmOps, Rank(Fsm));
    ConcatAbove(Repeated(Section(Log, []), before), Repeated(AlarmSection(lines, alarmLogs), alarmOps), Rank(Fsm));
    ConcatAbove(Repeated(Section(Log, []), before) + Repeated(AlarmSection(lines, alarmLogs), alarmOps),
                Repeated(Section(Log, []), after), Rank(Fsm));
  }

  /** Every critical section of the source keeps the rank order. */
  lemma ScriptAbove(c: Call)
    ensures Above(Script(c), -1)
  {
    match c
    case QueueOp => LeafAbove(EventQueue, -1);
    case LogMessage => LeafAbove(Log, -1);
    case SetLine => LeafAbove(Output, -1);
    case UseFsm(before, alarmOps, lines, alarmLogs, after) =>
      FsmBodyAbove(before, alarmOps, lines, alarmLogs, after);
      SectionAbove(Fsm, FsmBody(before, alarmOps, lines, alarmLogs, after), -1);
    case AlarmByTimer(lines, logs) => AlarmSectionAbove(lines, logs, -1);
    case PublishUnlock =>
      LeafAbove(RelockTimer, Rank(Bus));
      LeafAbove(AccessLog, Rank(Bus));
      ConcatAbove(Section(RelockTimer, []), Section(AccessLog, []), Rank(Bus));
      SectionAbove(Bus, Section(RelockTimer, []) + Section(AccessLog, []), -1);
    case ArmTimer => LeafAbove(RelockTimer, -1);
    case LogAccess => LeafAbove(AccessLog, -1);
    case ApiHandler => LeafAbove(Api, -1);
  }

  /** So does every thread made of them. */
  lemma {:induction false} ProgramOrdered(calls: seq<Call>)
    ensures Ordered(Program(calls), {})
  {
    if calls != [] {
      ProgramOrdered(calls[1..]);
      ScriptAbove(calls[0]);
      assert Ordered(Script(calls[0]) + Program(calls[1..]), {});
    }
  }

  // Any number of threads.

  datatype Thread = Thread(held: set<Mutex>, rest: seq<Op>)

  predicate CanMove(ts: seq<Thread>, i: nat)
    requires i < |ts|
  {
    && ts[i].rest != []
    && (ts[i].rest[0].Acquire? ==> forall k :: 0 <= k < |ts| ==> ts[i].rest[0].m !in ts[k].held)
  }

  function Moved(t: Thread): Thread
    requires t.rest != []
  {
    match t.rest[0]
    case Acquire(m) => Thread(t.held + {m}, t.rest[1..])
    case Release(m) => Thread(t.held - {m}, t.rest[1..])
  }

  /** A thread moves, or a new thread with some program appears. */
  ghost predicate Step(ts: seq<Thread>, us: seq<Thread>) {
    || (exists i :: 0 <= i < |ts| && CanMove(ts, i) && us == ts[i := Moved(ts[i])])
    || (exists calls: seq<Call> :: us == ts + [Thread({}, Program(calls))])
  }

  ghost predicate Behaviour(tss: seq<seq<Thread>>) {
    && tss != [] && tss[0] == []
    && forall k :: 0 <= k < |tss| - 1 ==> Step(tss[k], tss[k + 1])
  }

  ghost predicate Disciplined(ts: seq<Thread>) {
    && (forall i :: 0 <= i < |ts| ==> Ordered(ts[i].rest, ts[i].held))
    && (forall i, j :: 0 <= i < j < |ts| ==> ts[i].held !! ts[j].held)
  }

  lemma {:induction false} AlwaysDisciplined(tss: seq<seq<Thread>>, k: nat)
    requires Behaviour(tss) && k < |tss|
    ensures Disciplined(tss[k])
  {
    if k > 0 {
      AlwaysDisciplined(tss, k - 1);
      assert Step(tss[k - 1], tss[k]);
      if calls: seq<Call> :| tss[k] == tss[k - 1] + [Thread({}, Program(calls))] {
        ProgramOrdered(calls);
      }
    }
  }

  /** From a thread that is not finished, waiting leads to ever higher mutexes, so it leads to a thread
      that can move. */
  lemma {:induction false} SomeoneMoves(ts: seq<Thread>, i: nat) returns (k: nat)
    requires Disciplined(ts) && i < |ts| && ts[i].rest != []
    ensures k < |ts| && CanMove(ts, k)
    decreases if ts[i].rest[0].Acquire? then MAX_RANK + 1 - Rank(ts[i].rest[0].m) else MAX_RANK + 2
  {
    k := i;
    if !CanMove(ts, i) {
      var m := ts[i].rest[0].m;
      var j :| 0 <= j < |ts| && m in ts[j].held;
      assert Ordered(ts[i].rest, ts[i].held) && Ordered(ts[j].rest, ts[j].held);
      if ts[j].rest[0].Acquire? {
        k := SomeoneMoves(ts, j);
      } else {
        k := j;
      }
    }
  }

  /** No deadlock: in every reachable state of any number of threads, if one is not finished, then some
      thread can move. */
  lemma DeadlockFree(tss: seq<seq<Thread>>, n: nat, i: nat) returns (k: nat)
    requires Behaviour(tss) && n < |tss| && i < |tss[n]| && tss[n][i].rest != []
    ensures k < |tss[n]| && CanMove(tss[n], k)
  {
    AlwaysDisciplined(tss, n);
    k := SomeoneMoves(tss[n], i);
  }

  /** Waiting never closes a cycle: a thread waiting for a mutex whose holder waits too waits for a lower one. */
  lemma WaitingClimbs(tss: seq<seq<Thread>>, n: nat, i: nat, j: nat)
    requires Behaviour(tss) && n < |tss| && i < |tss[n]| && j < |tss[n]|
    requires tss[n][i].rest != [] && tss[n][i].rest[0].Acquire? && tss[n][i].rest[0].m in tss[n][j].held
    requires tss[n][j].rest != [] && tss[n][j].rest[0].Acquire?
    ensures i != j && Rank(tss[n][i].rest[0].m) < Rank(tss[n][j].rest[0].m)
  {
    AlwaysDisciplined(tss, n);
    assert Ordered(tss[n][i].rest, tss[n][i].held) && Ordered(tss[n][j].rest, tss[n][j].held);
  }
}
