/** Composite events as the client hands them on (`events.rs`). */
module EventTypes {
  import opened Wrappers
  import opened Bytes
  import opened Values

  datatype Location = Location(typeTag: u8, classId: u64, methodId: u64, index: u64)
  datatype MonitorEvent = MonitorEvent(thread: u64, location: Location, monitor: u64)
  datatype FieldEvent = FieldEvent(thread: u64, location: Location, refType: u64, fieldId: u64, instance: u64)

  datatype EventKind =
    | VMStart(thread: u64)
    | VMDeath
    | ThreadStart(thread: u64)
    | ThreadDeath(thread: u64)
    | ClassPrepare(thread: u64, refType: u64, signature: Text, status: i32)
    | Breakpoint(thread: u64, location: Location)
    | Step(thread: u64, location: Location)
    | Exception(thread: u64, location: Location, exception: u64, catchLocation: Option<Location>)
    | MethodExit(thread: u64, location: Location, returnValue: Option<Value>)
    | FieldAccess(field: FieldEvent)
    | FieldModification(field: FieldEvent, newValue: Value)
    | MonitorContendedEnter(monitor: MonitorEvent)
    | MonitorContendedEntered(monitor: MonitorEvent)
    | MonitorWait(monitor: MonitorEvent, timeout: i64)
    | MonitorWaited(monitor: MonitorEvent, timedOut: bool)
    | Unknown(kind: u8)

  datatype Event = Event(kind: u8, requestId: i32, details: EventKind)
  datatype EventSet = EventSet(suspendPolicy: u8, events: seq<Event>)
}
