# Smart door system: a verified model

This project models the deciding parts of the smart door system and proves what they keep.

* **Alarm.** A six-state machine with a verification deadline, its alarm manager and output lines
  (`DoorAlarmFSM.dfy`, specified on values in `AlarmFsm.dfy`). `FsmHistory.dfy` says exactly what each state
  means about the events handled so far.
* **Alarm system.** The reed callback, the posting threads, the control loop and the timer thread as an
  interleaving of critical sections and clock readings (`AlarmSystem.dfy`). `AlarmInvariants.dfy` and
  `AlarmRuns.dfy` prove what holds in every reachable state and over every run, `DoorReports.dfy` what the door
  flag shows and what it lets an authorisation do, `BoundedResponse.dfy` that no opening goes unresolved, and
  `TimerBounds.dfy` how soon an alarm's flag is cleared and an entry reset. `EarlyAlarm.dfy` and `EarlyDuty.dfy`
  say exactly when an alarm can come before its deadline, have its flag cleared within five seconds, or an entry be
  reset within one; `Buzzer.dfy` what the buzzer does meanwhile, and `AlarmCounterexamples.dfy` and `BuzzerExample.dfy` give runs
  that show where the guarantees stop. `DoorAlarmSystem.dfy` is the orchestrator object, whose methods are tied
  to those steps.
* **Door lock.** Cooldown-limited unlocks racing a relock timer thread that waits, is notified and sleeps
  (`DoorLock.dfy`), with and without timing assumptions (`DoorLockTiming.dfy`), a bound on unlocked time
  (`UnlockBudget.dfy`), and when the destructor hangs (`DoorLockShutdown.dfy`). `EventBus.dfy` is the bus that
  runs its callbacks one at a time.
* **Web API.** The server object and its log (`Api.dfy`), runs with any number of detached verification
  threads (`ApiRuns.dfy`), a JSON printer and parser with their round trip (`Json.dfy`) and the hand-written
  printers (`ApiJson.dfy`).
* **Queues, log drain, face matching, lock order** (`Queues.dfy`, `FaceMatch.dfy`, `LockOrder.dfy`).

Time is an integer number of milliseconds on one monotone clock. A mutex-protected section is one atomic step,
except that the alarm state machine's mutex is held across two steps, so that the timer can silence the alarm
in between, as in the code. Foreign calls (GPIO, serial, camera, network, mail, clock formatting, square root,
embeddings) are parameters.

Where the code and its documentation disagree, the model follows the code. The state diagram
(`README.md:118-123`) and `tests/tests.cpp:28-33` let an authorisation end a pending verification with the door
open; `src/DoorAlarmFSM.cpp:109-112` rejects it, and `FsmHistory.OpenThenAuthorizeStaysPending` and
`FsmHistory.AuthorizationTakesEffect` state what happens instead, event by event. The diagram also starts in Disarmed and lets only a
disarm end an alarm; the code starts in ArmedIdle, and closing the door ends the alarm too.

Nine expectations do not hold of the code, and the project says exactly when they do:

* An authorisation can end a pending verification or an alarm, because the reed reports a close to the state
  machine before the close is queued: exactly when such a report is the last word on the door
  (`DoorReports.AuthorizationEndsEpisodeIff`; example `AlarmCounterexamples.PendingCanBeAuthorized`).
* A system at rest can take an open door for closed, because the automatic reset reports a close whatever the
  reed says: exactly when the last door report posted is not the reed's and contradicts it
  (`DoorReports.DrainedSeesReedIff`; example `AlarmCounterexamples.AutoResetHidesOpenDoor`).
* An alarm can start before the pending deadline, when a timeout of an earlier episode is still under way
  (`EarlyAlarm.EarlyAlarmIff`; example `AlarmCounterexamples.StaleTimeoutAlarms`).
* The timer can clear an alarm's flag within five seconds of its being set, when it still counts from an earlier
  alarm (`EarlyDuty.EarlyClearIff`; example `AlarmCounterexamples.OldCountCutsAlarmShort`).
* The automatic reset can come within one second of an authorised entry, when the timer still counts from an
  earlier entry (`EarlyDuty.EarlyResetIff`; example `AlarmCounterexamples.OldCountCutsEntryShort`).
* The buzzer does not sound until somebody ends the alarm: in every run, a flasher that the control loop starts for
  the alarm itself switches it off after a second and the latency (`Buzzer.BuzzerCutOff`; example
  `BuzzerExample.FirstAlarmFallsSilent`). What the other results say of an alarm is said of its flag.
* The web API can raise its alarm less than five seconds after an opening, when a verification thread of an
  earlier opening is still asleep (`ApiRuns.CutShortIff`; example `ApiRuns.ReopeningCutShort`).
* An unlock can be cut short unless duration plus timer latency is below the cooldown
  (`DoorLockTiming.FullDurationIff`; example `DoorLockTiming.CutShort`).
* The door lock's destructor can hang, because it clears the flag and notifies without the timer's mutex: exactly
  when the timer thread has looked and not yet blocked, and no unlock is on its way to arm the timer
  (`DoorLockShutdown.HangIff`; example `DoorLockShutdown.UnusedLockCanHang`).

## Model

| member | source | states |
|---|---|---|
| DoorAlarmObjects.OutputController.Init | src/OutputController.cpp:8-32 | claiming the lines switches them all off; a hardware error leaves them as they were |
| DoorAlarmObjects.OutputController.SetBuzzer | src/OutputController.cpp:50-56 | a write reaches the line only once the lines are claimed |
| DoorAlarmObjects.AlarmManager.TriggerAlarm | src/AlarmManager.cpp:48-60 | the whole new alarm state: active, the reason, buzzer and red line on if claimed |
| DoorAlarmObjects.AlarmManager.ClearAlarm | src/AlarmManager.cpp:66-76 | inactive and buzzer off, reason and other lines unchanged |
| DoorAlarmObjects.AlarmManager.Stop | src/AlarmManager.cpp:35-40 | stopping clears whatever alarm was on |
| DoorAlarmObjects.DoorAlarmFSM.constructor | src/DoorAlarmFSM.cpp:14-21 | starts armed and idle, door closed, five-second window, no deadline |
| DoorAlarmObjects.DoorAlarmFSM.HandleEvent | src/DoorAlarmFSM.cpp:28-62 | the new state machine and alarm are those of the specification for every event kind |
| DoorAlarmObjects.DoorAlarmFSM.HandleDoorOpened | src/DoorAlarmFSM.cpp:67-81 | as specified for an opening, from any state and any source |
| DoorAlarmObjects.DoorAlarmFSM.HandleDoorClosed | src/DoorAlarmFSM.cpp:86-98 | as specified for a close, from any state, source and time |
| DoorAlarmObjects.DoorAlarmFSM.HandleAuthorization | src/DoorAlarmFSM.cpp:104-121 | as specified for either kind of authorisation |
| DoorAlarmObjects.DoorAlarmFSM.HandleVerificationTimeout | src/DoorAlarmFSM.cpp:126-135 | as specified for a timeout, with the reason naming the source |
| DoorAlarmObjects.DoorAlarmFSM.HandleArm | src/DoorAlarmFSM.cpp:137-146 | as specified for arming |
| DoorAlarmObjects.DoorAlarmFSM.HandleDisarm | src/DoorAlarmFSM.cpp:148-154 | as specified for disarming |
| DoorAlarmObjects.DoorAlarmFSM.HandleAll | src/DoorAlarmFSM.cpp:28-62 | feeding a trace one event at a time reaches the state the histories below speak about |
| FsmHistory.RunConsistent | src/DoorAlarmFSM.cpp:28-154 | in every run: no Fault, a deadline exactly while pending, an open door in pending and alarm; and the alarm manager, driven by the state machine alone, has flag and buzzer on exactly in AlarmActive |
| FsmHistory.PendingHistory | src/DoorAlarmFSM.cpp:67-135 | pending iff an opening taken in ArmedIdle has had no close, disarm or timeout since; the deadline is that opening plus the window |
| FsmHistory.AlarmHistory | src/DoorAlarmFSM.cpp:67-154 | alarm iff such an opening was followed by a timeout, with no close or disarm since the opening |
| FsmHistory.AlarmReason | src/DoorAlarmFSM.cpp:126-135 | the recorded reason names the first timeout of the episode, however many follow |
| FsmHistory.TracesOfAlarms | src/AlarmManager.cpp:48-76 | what alarms leave behind: the red line stays on once any was raised, the reason stays the last one's, the green line is never touched and no line before they are claimed |
| FsmHistory.AuthorizedHistory | src/DoorAlarmFSM.cpp:86-154 | entry authorised iff an authorisation was taken in ArmedIdle with the door closed and no close, disarm or arm since |
| FsmHistory.DisarmedHistory | src/DoorAlarmFSM.cpp:137-154 | disarmed iff a disarm has had no arm since |
| FsmHistory.ArmedIdleHistory | src/DoorAlarmFSM.cpp:28-154 | armed and idle iff none of the other four histories applies |
| FsmHistory.DoorFlagHistory | src/DoorAlarmFSM.cpp:67-98 | the door flag is the last door report of the trace |
| FsmHistory.AuthorizationTakesEffect | src/DoorAlarmFSM.cpp:104-121 | an authorisation changes anything iff it finds ArmedIdle with the door closed |
| FsmHistory.OpenThenAuthorizeStaysPending | tests/tests.cpp:18-38 | the documented happy path leaves verification pending |
| FsmHistory.CollapseSound | src/DoorAlarmFSM.cpp:28-154 | dropping status requests and repeated posts of one kind from any trace, from any state, changes nothing in the outcome |
| FsmHistory.CollapseFixed | src/DoorAlarmFSM.cpp:28-154 | a trace without repeats or inert events is its own normal form |
| Queues.EventQueue.Push | include/EventQueue.h:42-70 | appended unless shut down, then dropped |
| Queues.EventQueue.WaitAndPop | include/EventQueue.h:78-93 | oldest first; nothing only when shut down and empty |
| Queues.EventQueue.TryPop | include/EventQueue.h:101-113 | oldest first, never blocks |
| Queues.EventQueue.WaitForAndPop | include/EventQueue.h:125-141 | oldest first, nothing if the wait ends with an empty queue |
| Queues.EventQueue.Shutdown | include/EventQueue.h:146-153 | keeps what is queued, accepts no more |
| Queues.ThreadSafeQueue.Push | include/ThreadSafeQueue.h:12-19 | appended unless shut down |
| Queues.ThreadSafeQueue.Pop | include/ThreadSafeQueue.h:22-31 | oldest first; nothing only when shut down and empty |
| Queues.ThreadSafeQueue.PushBounded | include/ThreadSafeQueue.h:43-52 | the eviction loop ends and leaves exactly the newest items below the bound, then the new one; closed, nothing changes |
| QueueRuns.BoundedPushKeeps | include/ThreadSafeQueue.h:43-52 | a bounded push on an open queue leaves one item more, up to the bound: the newest queued, in order, and the new one |
| QueueRuns.DroppedIff | include/ThreadSafeQueue.h:43-52 | an item leaves without being handed out iff a bounded push comes to the open queue and as many newer items are queued as there is room for beside the new one: within the bound, iff it is the oldest of a full queue |
| QueueRuns.LosslessIff | include/ThreadSafeQueue.h:12-52 | nothing is ever lost, and the k-th item handed out is the k-th accepted, iff no bounded push ever finds the open queue at its bound |
| QueueRuns.AcceptedIsOffered | include/ThreadSafeQueue.h:12-52 | exactly the items pushed before the shutdown are accepted, in order |
| QueueRuns.AlwaysSuffix | include/ThreadSafeQueue.h:12-52 | after any operations the queue is the end of what was accepted, and what was handed out lies before it in order |
| QueueRuns.NeverOverfull | include/ThreadSafeQueue.h:43-52 | with bounded pushes only, the size never exceeds the bound |
| QueueRuns.PoppedIsFresh | include/ThreadSafeQueue.h:22-52 | an item handed out is the oldest queued and among the last accepted up to the bound |
| QueueRuns.UnboundedIsLossless | include/ThreadSafeQueue.h:12-41 | without bounded pushes the k-th item handed out is the k-th accepted |
| LoggerDrain.AsyncLoggerCam.WorkerLoop | src/LoggerCam.cpp:35-63 | whatever others log before each of its passes until they shut down, it stores everything queued and logged, in order, and exits |
| LoggerDrain.DrainIsLossFree | src/LoggerCam.cpp:24-63 | in every interleaving of logging and shutdown, an exited worker has stored exactly the events logged before the shutdown, in order |
| AlarmInvariants.InvariantKept | src/DoorAlarmSystem.cpp:131-265 | every step of every thread keeps agreement, conservation, grounded timeouts and the door view together |
| AlarmRuns.AlarmAgreesWithState | src/DoorAlarmSystem.cpp:204-265 | in every interleaving: no Fault, deadline iff pending, and the alarm flag is set iff the state is AlarmActive and the timer has not cleared it since it was last set |
| DoorReports.EntryAuthorizedIff | src/DoorAlarmFSM.cpp:104-121 | in every interleaving, entry becomes authorised iff an authorisation is handled in one of three states and the last write of the door flag, by the reed or a handled report, said closed |
| DoorReports.AuthorizationEndsEpisodeIff | src/DoorAlarmSystem.cpp:131-149 | an authorisation handled while pending or in alarm ends the episode iff the reed has reported a close and nothing has written the door flag since; otherwise it changes nothing |
| DoorReports.CloseIsComing | src/DoorAlarmSystem.cpp:131-149 | in such an episode a close is always in flight or about to be posted, until the queue closes or the loop exits |
| AlarmRuns.EpisodeDeadline | src/DoorAlarmSystem.cpp:226-265 | while pending, one opening started the episode, the deadline is its time plus the window, and it has not moved |
| AlarmRuns.NoAlarmWithoutFullWindow | src/DoorAlarmSystem.cpp:226-265 | a step that enters AlarmActive comes at least a full window after an opening that started an episode |
| AlarmRuns.AlarmRespectsItsOwnDeadline | src/DoorAlarmSystem.cpp:255-263 | a timeout posted for the pending deadline is never early; an early alarm stems from an earlier opening |
| AlarmRuns.EventsConserved | src/DoorAlarmSystem.cpp:204-220 | handled then in flight is what was accepted; at exit exactly the accepted events before the first Shutdown were handled |
| AlarmRuns.AcceptedIsPosted | src/DoorAlarmSystem.cpp:131-149 | the queue accepts exactly what the reed, the timer and the other callers post before it is closed, in order, each with its kind and source |
| DoorReports.DrainedDoorView | src/DoorAlarmSystem.cpp:131-149 | drained, the door flag is the last accepted door report, whoever posted it |
| DoorReports.DrainedSeesReedIff | src/DoorAlarmSystem.cpp:248-253 | drained, the door flag is what the reed last said iff the last door report posted is not a foreign one that says otherwise |
| DoorReports.DrainedSeesReed | src/DoorAlarmSystem.cpp:131-149 | hence always so in runs in which only the reed reports the door |
| BoundedResponse.NoMissedAlarm | src/DoorAlarmSystem.cpp:204-265 | with bounds on a timer round and on handling a post, every opening that starts an episode is closed, disarmed, authorised or alarmed within its window, two rounds and one handling, unless the system is stopping |
| TimerBounds.AlarmFlagCleared | src/DoorAlarmSystem.cpp:231-246 | at the same pace, within five seconds and four rounds of being raised an alarm has been ended or the timer has cleared its flag |
| TimerBounds.EntryReset | src/DoorAlarmSystem.cpp:248-253 | at the same pace, an authorised entry has been left within one second, four rounds and one handling |
| EarlyAlarm.EarlyAlarmIff | src/DoorAlarmSystem.cpp:255-263 | some continuation alarms before the pending deadline iff a left-over timeout is queued or about to be posted with nothing ahead that ends the episode |
| EarlyDuty.EarlyClearIff | src/DoorAlarmSystem.cpp:231-246 | when an alarm is raised, in some continuation the timer clears its flag within five seconds iff it still counts from an earlier alarm and has a measurement left to make or to act on |
| EarlyDuty.EarlyResetIff | src/DoorAlarmSystem.cpp:248-253 | when an entry is authorised, in some continuation the automatic reset comes within one second iff the timer still counts from an earlier entry and has a measurement left to make or to act on |
| Buzzer.BuzzerCutOff | src/OutputController.cpp:70-82 | in every run, whatever else writes the buzzer, a flasher started for an alarm switches it off no sooner than one second after the alarm was raised, and within a second and the latency |
| AlarmCounterexamples.StaleTimeoutAlarms | src/DoorAlarmSystem.cpp:255-263 | a reachable state whose next step alarms a full window early |
| AlarmCounterexamples.PendingCanBeAuthorized | src/DoorAlarmSystem.cpp:131-149 | a reachable state in which the reed's early report lets a queued authorisation end a pending verification |
| AlarmCounterexamples.AutoResetHidesOpenDoor | src/DoorAlarmSystem.cpp:248-253 | a run that ends at rest and armed, with the reed having last said open and the door flag saying closed |
| AlarmCounterexamples.OldCountCutsAlarmShort | src/DoorAlarmSystem.cpp:231-246 | a reachable state in which an alarm is raised whose flag the timer clears within five seconds in some continuation |
| AlarmCounterexamples.OldCountCutsEntryShort | src/DoorAlarmSystem.cpp:248-253 | a reachable state in which an entry is authorised that the automatic reset ends within one second in some continuation |
| BuzzerExample.FirstAlarmFallsSilent | src/DoorAlarmSystem.cpp:217-219 | a reachable state, a second after the first alarm, in alarm with its flag set and the buzzer off |
| DoorAlarmOrchestrator.ControlRoundOutcome | src/DoorAlarmSystem.cpp:204-220 | the steps of one control round of the system with its buzzer, uninterrupted, have the outcome the method promises |
| DoorAlarmOrchestrator.TimerRoundOutcome | src/DoorAlarmSystem.cpp:226-265 | the steps of one timer round of the system with its buzzer, uninterrupted, have the outcome the method promises, whatever time passes between them |
| DoorAlarmOrchestrator.DoorAlarmSystem.Startup | src/DoorAlarmSystem.cpp:38-84 | starts, with a five-second window and all lines off, iff it is not running yet and the output lines could be claimed |
| DoorAlarmOrchestrator.DoorAlarmSystem.UpdateGreenLedLogic | src/DoorAlarmSystem.cpp:115-125 | green iff authorised with the door closed, or the camera signal is high |
| DoorAlarmOrchestrator.DoorAlarmSystem.OnReedSwitchChange | src/DoorAlarmSystem.cpp:131-149 | exactly the report step followed by the post step; the red line follows the door, the green line its rule, the buzzer stays |
| DoorAlarmOrchestrator.DoorAlarmSystem.OnCameraTrigger | src/DoorAlarmSystem.cpp:60-73 | the signal is kept, and on a change the green line follows its rule; no other line changes |
| DoorAlarmOrchestrator.DoorAlarmSystem.ControlPass | src/DoorAlarmSystem.cpp:204-220 | one control round of the system with its buzzer: the next event leaves the queue and is handled, or ends the loop; one flasher if the alarm is then active; red line, buzzer and reason go as the state machine's, the green line by its rule |
| DoorAlarmOrchestrator.DoorAlarmSystem.ControlLoop | src/DoorAlarmSystem.cpp:204-220 | whatever others post before each pass until they close the queue, the state machine consumes exactly the events queued and posted before the first Shutdown, in order and at non-decreasing times, with their effect on alarm and lines |
| DoorAlarmOrchestrator.DoorAlarmSystem.TimerPass | src/DoorAlarmSystem.cpp:226-265 | one timer round of the system with its buzzer, with time passing between its three clock readings: a round that clears the alarm switches the buzzer off, and no other line, nor the reason, ever changes |
| DoorAlarmOrchestrator.DoorAlarmSystem.SignalStop | src/DoorAlarmSystem.cpp:89-96 | flag, Shutdown post and queue closing in that order; a second stop does nothing |
| EventBus.EventBus.Publish | include/EventBus.h:26-30 | the callbacks run once each, in subscription order, after all earlier ones, and so every subscriber has heard everything published since it subscribed |
| EventBus.HearsEveryEventOnce | include/EventBus.h:19-30 | after any subscriptions and publications, each subscriber has heard every event published since it subscribed, once and in order |
| DoorLock.DoorController.TryUnlock | src/DoorLock.cpp:51-75 | succeeds iff the cooldown is over, and then runs the steps of an unlock, waking the timer thread wherever it waits |
| DoorLock.DoorController.OnAccessEvent | src/DoorLock.cpp:30-49 | a denied event never touches the lock; any other is an unlock attempt, and the lights follow |
| DoorLock.DoorController.TimerPass | src/DoorLock.cpp:77-102 | the steps of one relock, with the sleep in between, or leaving the loop when the system is stopping |
| DoorLock.DoorController.Destroy | src/DoorLock.cpp:22-28 | without interference: returns iff the timer thread is not between looking and blocking, after that thread has finished its relock and left, with the relay low |
| DoorLockTiming.RelockAlwaysOwed | src/DoorLock.cpp:62-96 | with no timing assumption: while the timer thread has not left, a high relay has its relock under way, and the wake-up of an armed timer is never lost |
| DoorLockShutdown.HangIff | src/DoorLock.cpp:22-28 | the destructor can come to hang iff, when it clears the flag, the timer thread has looked and not yet blocked and no unlock is on its way to arm the timer |
| DoorLockShutdown.HungForGood | src/DoorLock.cpp:77-85 | a hung destructor never gets past its join, unless the thread wakes up for nothing or a new unlock is accepted |
| DoorLockShutdown.HungIsLow | src/DoorLock.cpp:22-28 | in every run, a destructor that hangs leaves the relay low |
| DoorLockShutdown.UnusedLockCanHang | src/DoorLock.cpp:77-85 | a run in which a lock never used can hang when destroyed |
| DoorLockTiming.DutyCycle | src/DoorLock.cpp:51-103 | with enough slack: every unlock lasts its duration and no more than the latency longer, unlocks are disjoint, and relay and bolt agree between write pairs |
| DoorLockTiming.UnlockedTimeBounded | src/DoorLock.cpp:51-103 | in any window the unlocked time stays within the budget, at most one unlock per started cooldown period |
| DoorLockTiming.FullDurationIff | include/DoorLock.h:17-18 | every relocked unlock of every run held the relay high for its full duration iff duration plus latency is below the cooldown; for 3 s and 5 s, iff the latency is below 2 s |
| DoorLockTiming.CutShort | src/DoorLock.cpp:51-103 | a run in which a late relock cuts the next unlock short |
| UnlockBudget.WithinBudget | src/DoorLock.cpp:53-60 | unlocks spaced by the cooldown fit any window within the budget for its length |
| UnlockBudget.BudgetBound | include/DoorLock.h:17-18 | the budget is at most one unlock per started cooldown period |
| Api.ApiServer.AddLog | src/main_api.cpp:129-152 | the log is always the newest three hundred entries of the whole history |
| Api.ApiServer.RaiseAlarm | src/main_api.cpp:164-198 | alarm, intrusion, buzzer and light on, nothing pending, one entry logged, one mail thread started |
| Api.ApiServer.SilenceAlarm | src/main_api.cpp:200-206 | alarm, intrusion and buzzer off, light by what is pending, one entry logged |
| Api.ApiServer.HandleArm | src/main_api.cpp:400-412 | armed, with its log entry, nothing else |
| Api.ApiServer.HandleDisarm | src/main_api.cpp:414-428 | disarmed, nothing pending, alarm cleared, two log entries in order |
| Api.ApiServer.HandleAuthorize | src/main_api.cpp:456-482 | an unknown method is refused with 400 and changes nothing; otherwise who and how is recorded and nothing stays pending |
| Api.ApiServer.HandleOpenDoor | src/main_api.cpp:484-513 | pending if armed, and in any case one more verification thread due in five seconds |
| Api.ApiServer.HandleCloseDoor | src/main_api.cpp:515-528 | door closed and nothing pending, alarm untouched |
| Api.ApiServer.HandleTriggerAlarm | src/main_api.cpp:530-545 | the alarm as raised, with a default reason |
| Api.ApiServer.HandleClearAlarm | src/main_api.cpp:547-557 | the alarm as silenced |
| Api.ApiServer.HandleUpdateDevices | src/main_api.cpp:559-580 | only the devices mentioned change |
| Api.ApiServer.VerificationExpires | src/main_api.cpp:504-512 | the waking thread raises the alarm iff open, armed and pending, and is gone |
| Api.ApiServer.EmailReports | src/main_api.cpp:189-196 | the mail outcome of an alarm is logged without touching the state |
| Api.ApiServer.TestEmailReports | src/main_api.cpp:582-598 | the mail outcome of a test request likewise |
| Api.ApiServer.LogStart | src/main_api.cpp:606-614 | the two entries logged at start, in order |
| ApiRuns.AlwaysConsistent | src/main_api.cpp:154-216 | in every run: pending implies open and armed, buzzer equals alarm, intrusion implies alarm, light is the colour of alarm and pending |
| ApiRuns.WakeLeavesNothingPending | src/main_api.cpp:504-512 | any verification thread waking leaves nothing pending, and turns anything pending into an alarm |
| ApiRuns.FlagHistories | src/main_api.cpp:400-557 | alarm, intrusion and pending each hold iff a step set them and no step ended them since; armed and door open go by the last request and the last report |
| ApiRuns.SwitchHistories | src/main_api.cpp:400-528 | the system is armed iff the last request to arm or disarm, if any, was to arm; the door is taken for open iff the last door report was of an opening |
| ApiRuns.EveryOpeningIsResolved | src/main_api.cpp:484-513 | an opening while the last request to arm or disarm, if any, was to arm is closed, disarmed, authorised or alarmed within five seconds plus latency, however many threads are outstanding |
| ApiRuns.CutShortIff | src/main_api.cpp:504-512 | some continuation alarms within five seconds of an opening iff a thread of an earlier opening is due by then |
| ApiRuns.ReopeningCutShort | src/main_api.cpp:484-513 | a run, whatever the latency, after which the next opening can be alarmed within five seconds |
| Json.StringRoundTrip | src/main_api.cpp:94-116 | reading an escaped string gives it back with unnamed control characters as spaces |
| Json.CleanIsIdentityIff | src/main_api.cpp:106-111 | a string comes back exactly iff it has no unnamed control character |
| Json.CleanAt | src/main_api.cpp:94-116 | cleaning replaces exactly the control characters without an escape of their own by spaces, one by one |
| Json.EscapeNotation | src/main_api.cpp:94-116 | a reader takes the seven escapes for the characters section 7 of RFC 8259 gives them |
| Json.DecimalNotation | src/main_api.cpp:218-271 | numbers are decimal: one more digit is ten times the number and that digit |
| Json.Notation | src/main_api.cpp:218-271 | literal names, strings, arrays and objects are written as in sections 3 to 5 and 7 of RFC 8259 |
| Json.ValueRoundTrip | src/main_api.cpp:218-271 | parsing any printed value gives it back and leaves the rest of the text |
| Json.TextRoundTrip | src/main_api.cpp:218-271 | the same for whole texts |
| ApiJson.JsonEscape | src/main_api.cpp:94-116 | the loop computes the escape that the parser is proved to undo |
| ApiJson.StateJsonRecovered | src/main_api.cpp:218-241 | a JSON reader finds the sixteen keys in order and nothing else, each field of the state under its own key, and the uptime |
| ApiJson.BuildLogsJson | src/main_api.cpp:243-271 | for every log and limit a JSON reader finds exactly the first entries up to the limit, each part of an entry under its own key, and a count that is their number |
| ApiJson.GetLogs | src/main_api.cpp:386-398 | a JSON reader finds the newest entries of everything the server ever logged, fifty by default and never more than two hundred |
| ApiJson.LogsExactIff | src/main_api.cpp:94-116 | the entries come back exactly as logged iff none holds an unnamed control character |
| FaceMatch.CauchySchwarz | src/FaceRecognizer.cpp:101-104 | dot squared is at most the product of the squared norms, for all vectors of one length |
| FaceMatch.DotLinear | src/FaceRecognizer.cpp:101-104 | the accumulated product is linear in its first argument |
| FaceMatch.DotSymmetric | src/FaceRecognizer.cpp:101-104 | and symmetric, so linear in the second |
| FaceMatch.DotUnit | src/FaceRecognizer.cpp:101-104 | against a unit vector it gives back the coordinate: every coordinate counts, once |
| FaceMatch.EqualityCase | src/FaceRecognizer.cpp:101-104 | only multiples reach the Cauchy-Schwarz bound |
| FaceMatch.ScoreOneIff | src/FaceRecognizer.cpp:98-106 | two embeddings whose norms do not vanish score 1 iff one is a positive multiple of the other |
| FaceMatch.DirectionCosine | src/FaceRecognizer.cpp:98-106 | the scores against the unit vectors give back the embedding, over its norm |
| FaceMatch.NoComparison | src/FaceRecognizer.cpp:100-100 | unequal lengths or no coordinates score zero |
| FaceMatch.VanishingNorms | src/FaceRecognizer.cpp:105-106 | norms with a product below one billionth score zero |
| FaceMatch.ScoreBounded | src/FaceRecognizer.cpp:98-106 | every similarity lies between -1 and 1 |
| FaceMatch.SelfScore | src/FaceRecognizer.cpp:98-106 | an embedding with a norm scores 1 against itself |
| FaceMatch.FaceRecognizer.CosineSimilarity | src/FaceRecognizer.cpp:98-106 | the loop computes the score, zero for unequal or empty vectors and vanishing norms |
| FaceMatch.FaceRecognizer.Match | src/FaceRecognizer.cpp:65-73 | the name of the first best entry iff its score reaches the threshold, else unknown, for any database |
| FaceMatch.FaceRecognizer.Process | src/FaceRecognizer.cpp:44-86 | detection on every third frame; one right outcome per face, in order, with overrides skipping recognition |
| FaceMatch.GrantedIff | src/FaceRecognizer.cpp:75-84 | access granted iff the first best entry reaches the threshold and is not itself named unknown |
| FaceMatch.AccessIff | src/FaceRecognizer.cpp:51-84 | a face is recognised unless the override is active, and let in iff its first best entry reaches 0.45 and is not called unknown |
| FaceMatch.ConfidenceIsBest | src/FaceRecognizer.cpp:65-79 | the confidence is the best score of all, or zero if none is positive |
| FaceMatch.EnrolledFaceScoresFull | src/FaceRecognizer.cpp:65-73 | an enrolled embedding is matched with full score, by its own or an earlier entry |
| LockOrder.DeepestNestings | src/DoorAlarmFSM.cpp:126-135 | the two deepest nestings, mutex by mutex: a timeout raising the alarm, and an unlock on the bus |
| LockOrder.ScriptAbove | src/AlarmManager.cpp:48-76 | every critical section, with the sections nested in it, takes mutexes in rank order |
| LockOrder.DeadlockFree | src/DoorAlarmFSM.cpp:28-154 | for any number of threads, in every reachable state with an unfinished thread some thread can move |
| LockOrder.WaitingClimbs | src/OutputController.cpp:34-56 | a waiting thread's holder, if it waits too, waits for a higher mutex, so no cycle closes |

## Left out

- GPIO, serial, camera, neural network, HTTP, SMTP and socket calls: foreign code; outputs are booleans and inputs are parameters.
- Red and green lines in the interleaved alarm system: several threads and detached timers write them from stale reads, so claims about them are made for the alarm manager and the orchestrator's own methods only; the buzzer is modelled in `Buzzer.dfy`.
- What `OutputController::denied` does to the red and green lines, `granted`, and the detached threads that switch lights off later: delayed writers of lines only.
- NFC polling and the exit button: covered by posts of any kind but timeouts at any time, which includes every post they make; their own check of the door before posting is not modelled.
- Logger texts, console output, CSV and timestamps: text plumbing; the API log keeps each entry's type, message and extra text as logged.
- `getJsonStringField` and `getJsonBoolField`: request fields arrive decoded; the naive search for keys in request bodies is not modelled.
- Reply texts around the state and log texts, `/api/health` and the route list: fixed prefixes and suffixes.
- `AccessController`, `GUIServer`, `system_state.cpp`, `api_server.cpp`, `DoorController.cpp`, `OutputHandler.cpp`: membership tests, setters and wrappers.
- Leaf mutexes never held with another (log entries, frame queue, shutdown flag): they cannot take part in a cycle.
- Restart after `stop()`: the code does not support it (the queue stays shut down).
- DoorLockTiming.DutyCycle: only while running, because the destructor lowers the relay whatever is under way.
- FaceMatch.FaceRecognizer.CosineSimilarity: over real numbers, without floating-point rounding; the square root is any function that is one.
- Json.ValueRoundTrip: numbers are integers; the parser refuses fractions, exponents and escaped surrogate pairs, none of which the printers write.
- Integer overflow of the frame counter and of clock arithmetic: counters and times are unbounded.
