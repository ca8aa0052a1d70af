/** Events exchanged between the threads of the door alarm system, and an optional value. */
module Events {

  datatype Option<+T> = None | Some(value: T)

  datatype EventType =
    | ArmSystem
    | DisarmSystem
    | DoorOpened
    | DoorClosed
    | AuthorizedByNfc
    | AuthorizedByApp
    | VerificationTimeout
    | PrintStatus
    | Shutdown

  datatype Event = Event(kind: EventType, source: string)

  predicate IsAuthorization(k: EventType) {
    k == AuthorizedByNfc || k == AuthorizedByApp
  }

  predicate IsDoorReport(k: EventType) {
    k == DoorOpened || k == DoorClosed
  }
}
