/** Composite event packets (`events.rs`): Event command set (64), Composite command (100).

    The parser drops some bytes it reads: reference-type tags, object tags, and the tag of an all-zero
    catch location. `Wire` is an event together with those bytes, which is what a JVM writes. */
module Events {
  import opened Wrappers
  import opened Bytes
  import opened Values
  import opened EventTypes

  const SINGLE_STEP: u8 := 1
  const BREAKPOINT: u8 := 2
  const EXCEPTION: u8 := 4
  const THREAD_START: u8 := 6
  const THREAD_DEATH: u8 := 7
  const CLASS_PREPARE: u8 := 8
  const FIELD_ACCESS: u8 := 20
  const FIELD_MODIFICATION: u8 := 21
  const METHOD_EXIT: u8 := 41
  const METHOD_EXIT_WITH_RETURN_VALUE: u8 := 42
  const MONITOR_CONTENDED_ENTER: u8 := 43
  const MONITOR_CONTENDED_ENTERED: u8 := 44
  const MONITOR_WAIT: u8 := 45
  const MONITOR_WAITED: u8 := 46
  const VM_START: u8 := 90
  const VM_DEATH: u8 := 99

  // ----- parsing -----

  function ParseLocation(b: bytes): Parsed<Location> {
    var (typeTag, b1) :- ReadU8(b);
    var (classId, b2) :- ReadU64(b1);
    var (methodId, b3) :- ReadU64(b2);
    var (index, b4) :- ReadU64(b3);
    Success((Location(typeTag, classId, methodId, index), b4))
  }

  /** The prefix of both field events: the location comes before the object. */
  function ParseFieldHead(b: bytes): Parsed<FieldEvent> {
    var (thread, b1) :- ReadU64(b);
    var (location, b2) :- ParseLocation(b1);
    var (refTypeTag, b3) :- ReadU8(b2);
    var (refType, b4) :- ReadU64(b3);
    var (fieldId, b5) :- ReadU64(b4);
    var (objectTag, b6) :- ReadU8(b5);
    var (instance, b7) :- ReadU64(b6);
    Success((FieldEvent(thread, location, refType, fieldId, instance), b7))
  }

  /** The prefix of all four monitor events: the object comes before the location. */
  function ParseMonitorHead(b: bytes): Parsed<MonitorEvent> {
    var (thread, b1) :- ReadU64(b);
    var (monitorTag, b2) :- ReadU8(b1);
    var (monitor, b3) :- ReadU64(b2);
    var (location, b4) :- ParseLocation(b3);
    Success((MonitorEvent(thread, location, monitor), b4))
  }

  function ParseThreadAndLocation(b: bytes): Parsed<(u64, Location)> {
    var (thread, b1) :- ReadU64(b);
    var (location, b2) :- ParseLocation(b1);
    Success(((thread, location), b2))
  }

  function ParseClassPrepare(b: bytes): Parsed<EventKind> {
    var (thread, b1) :- ReadU64(b);
    var (refTypeTag, b2) :- ReadU8(b1);
    var (refType, b3) :- ReadU64(b2);
    var (signature, b4) :- ReadString(b3);
    var (status, b5) :- ReadI32(b4);
    Success((ClassPrepare(thread, refType, signature, status), b5))
  }

  predicate AllZero(l: Location) {
    l.classId == 0 && l.methodId == 0 && l.index == 0
  }

  function ParseException(b: bytes): Parsed<EventKind> {
    var (head, b1) :- ParseThreadAndLocation(b);
    var (exceptionTag, b2) :- ReadU8(b1);
    var (exception, b3) :- ReadU64(b2);
    var (catch, b4) :- ParseLocation(b3);
    Success((Exception(head.0, head.1, exception, if AllZero(catch) then None else Some(catch)), b4))
  }

  /** The VM's own notifications: none of them carries a location. */
  function ParseVmLifecycle(kind: u8, b: bytes): Option<Parsed<EventKind>> {
    if kind == VM_START then Some(var (thread, r) :- ReadU64(b); Success((VMStart(thread), r)))
    else if kind == VM_DEATH then Some(Success((VMDeath, b)))
    else if kind == THREAD_START then Some(var (thread, r) :- ReadU64(b); Success((ThreadStart(thread), r)))
    else if kind == THREAD_DEATH then Some(var (thread, r) :- ReadU64(b); Success((ThreadDeath(thread), r)))
    else if kind == CLASS_PREPARE then Some(ParseClassPrepare(b))
    else None
  }

  function ParseMonitor(kind: u8, b: bytes): Option<Parsed<EventKind>> {
    if kind == MONITOR_CONTENDED_ENTER then
      Some(var (monitor, r) :- ParseMonitorHead(b); Success((MonitorContendedEnter(monitor), r)))
    else if kind == MONITOR_CONTENDED_ENTERED then
      Some(var (monitor, r) :- ParseMonitorHead(b); Success((MonitorContendedEntered(monitor), r)))
    else if kind == MONITOR_WAIT then
      Some(var (monitor, b1) :- ParseMonitorHead(b);
           var (timeout, r) :- ReadI64(b1);
           Success((MonitorWait(monitor, timeout), r)))
    else if kind == MONITOR_WAITED then
      Some(var (monitor, b1) :- ParseMonitorHead(b);
           var (flag, r) :- ReadU8(b1);
           Success((MonitorWaited(monitor, flag != 0), r)))
    else None
  }

  function ParseStopPoint(kind: u8, b: bytes): Parsed<EventKind> {
    if kind == BREAKPOINT then
      var (head, r) :- ParseThreadAndLocation(b); Success((Breakpoint(head.0, head.1), r))
    else if kind == SINGLE_STEP then
      var (head, r) :- ParseThreadAndLocation(b); Success((Step(head.0, head.1), r))
    else if kind == EXCEPTION then ParseException(b)
    else if kind == FIELD_ACCESS then
      var (field, r) :- ParseFieldHead(b); Success((FieldAccess(field), r))
    else if kind == FIELD_MODIFICATION then
      var (field, b1) :- ParseFieldHead(b);
      var (newValue, r) :- ReadTagged(b1);
      Success((FieldModification(field, newValue), r))
    else if kind == METHOD_EXIT then
      var (head, r) :- ParseThreadAndLocation(b); Success((MethodExit(head.0, head.1, None), r))
    else if kind == METHOD_EXIT_WITH_RETURN_VALUE then
      var (head, b1) :- ParseThreadAndLocation(b);
      var (value, r) :- ReadTagged(b1);
      Success((MethodExit(head.0, head.1, Some(value)), r))
    else Success((Unknown(kind), b)) // its payload stays unread
  }

  function ParseEventDetails(kind: u8, b: bytes): Parsed<EventKind> {
    match ParseVmLifecycle(kind, b)
    case Some(parsed) => parsed
    case None =>
      match ParseMonitor(kind, b)
      case Some(parsed) => parsed
      case None => ParseStopPoint(kind, b)
  }

  /** The kind byte, as the protocol numbers the kinds, decides what an event is parsed to. */
  lemma KindDecides(kind: u8, b: bytes)
    ensures ParseEventDetails(kind, b).Success? ==>
      var d := ParseEventDetails(kind, b).value.0;
      && (d.Step? <==> kind == 1) && (d.Breakpoint? <==> kind == 2) && (d.Exception? <==> kind == 4)
      && (d.ThreadStart? <==> kind == 6) && (d.ThreadDeath? <==> kind == 7) && (d.ClassPrepare? <==> kind == 8)
      && (d.FieldAccess? <==> kind == 20) && (d.FieldModification? <==> kind == 21)
      && (d.MethodExit? && d.returnValue.None? <==> kind == 41)
      && (d.MethodExit? && d.returnValue.Some? <==> kind == 42)
      && (d.MonitorContendedEnter? <==> kind == 43) && (d.MonitorContendedEntered? <==> kind == 44)
      && (d.MonitorWait? <==> kind == 45) && (d.MonitorWaited? <==> kind == 46)
      && (d.VMStart? <==> kind == 90) && (d.VMDeath? <==> kind == 99)
      && (d.Unknown? <==> kind !in {1, 2, 4, 6, 7, 8, 20, 21, 41, 42, 43, 44, 45, 46, 90, 99})
      && (d.Unknown? ==> d.kind == kind && ParseEventDetails(kind, b).value.1 == b)
    ensures Supported(kind) <==> kind in {1, 2, 4, 6, 7, 8, 20, 21, 41, 42, 43, 44, 45, 46, 90, 99}
  {
    hide ParseThreadAndLocation, ParseFieldHead, ParseMonitorHead, ReadTagged, ReadU8, ReadU64, ReadI64, ReadI32,
         ReadString, ParseLocation;
  }

  function ParseEvent(b: bytes): Parsed<Event> {
    var (kind, b1) :- ReadU8(b);
    var (requestId, b2) :- ReadI32(b1);
    var (details, b3) :- ParseEventDetails(kind, b2);
    Success((Event(kind, requestId, details), b3))
  }

  function ParseEvents(count: nat, b: bytes): Parsed<seq<Event>> {
    if count == 0 then Success(([], b))
    else
      var (event, b1) :- ParseEvent(b);
      var (events, b2) :- ParseEvents(count - 1, b1);
      Success(([event] + events, b2))
  }

  /** A wait is reported timed out for every flag but 0. */
  lemma TimedOutUnlessZero(b: bytes)
    requires ParseMonitorHead(b).Success? && ParseMonitorHead(b).value.1 != []
    ensures var (monitor, flags) := ParseMonitorHead(b).value;
      ParseEventDetails(46, b) == Success((MonitorWaited(monitor, flags[0] != 0), flags[1..]))
  {
    hide ParseMonitorHead;
  }

  /** A negative count means no iteration, as in the source's `0..event_count`. */
  function ParseEventSet(b: bytes): Parsed<EventSet> {
    var (policy, b1) :- ReadU8(b);
    var (count, b2) :- ReadI32(b1);
    var (events, b3) :- ParseEvents(if count < 0 then 0 else count, b2);
    Success((EventSet(policy, events), b3))
  }

  /** A count below zero announces no events. */
  lemma NegativeCountIsEmpty(policy: u8, count: i32, rest: bytes)
    requires count < 0
    ensures ParseEventSet(U8(policy) + (I32(count) + rest)) == Success((EventSet(policy, []), rest))
  {
    ReadU8Written(policy, I32(count) + rest);
    ReadI32Written(count, rest);
  }

  /** `parse_event_packet`: bytes after the last event are not looked at. */
  function ParseEventPacket(b: bytes): Result<EventSet> {
    var (events, rest) :- ParseEventSet(b);
    Success(events)
  }

  // ----- the JVM's half -----

  datatype Wire = Wire(event: Event, tag1: u8, tag2: u8, payload: bytes)

  function PutLocation(l: Location, rest: bytes): bytes {
    U8(l.typeTag) + (U64(l.classId) + (U64(l.methodId) + (U64(l.index) + rest)))
  }

  function PutFieldHead(f: FieldEvent, tag1: u8, tag2: u8, rest: bytes): bytes {
    U64(f.thread) + PutLocation(f.location,
      U8(tag1) + (U64(f.refType) + (U64(f.fieldId) + (U8(tag2) + (U64(f.instance) + rest)))))
  }

  function PutMonitorHead(m: MonitorEvent, tag1: u8, rest: bytes): bytes {
    U64(m.thread) + (U8(tag1) + (U64(m.monitor) + PutLocation(m.location, rest)))
  }

  function PutDetails(w: Wire, rest: bytes): bytes {
    match w.event.details
    case VMStart(thread) => U64(thread) + rest
    case VMDeath => rest
    case ThreadStart(thread) => U64(thread) + rest
    case ThreadDeath(thread) => U64(thread) + rest
    case ClassPrepare(thread, refType, signature, status) =>
      U64(thread) + (U8(w.tag1) + (U64(refType) + (Str(signature) + (I32(status) + rest))))
    case Breakpoint(thread, location) => U64(thread) + PutLocation(location, rest)
    case Step(thread, location) => U64(thread) + PutLocation(location, rest)
    case Exception(thread, location, exception, catch) =>
      U64(thread) + PutLocation(location, U8(w.tag1) + (U64(exception) + PutLocation(WireCatch(w, catch), rest)))
    case MethodExit(thread, location, value) =>
      U64(thread) + PutLocation(location, if value.Some? then PutTagged(value.value, rest) else rest)
    case FieldAccess(field) => PutFieldHead(field, w.tag1, w.tag2, rest)
    case FieldModification(field, newValue) => PutFieldHead(field, w.tag1, w.tag2, PutTagged(newValue, rest))
    case MonitorContendedEnter(monitor) => PutMonitorHead(monitor, w.tag1, rest)
    case MonitorContendedEntered(monitor) => PutMonitorHead(monitor, w.tag1, rest)
    case MonitorWait(monitor, timeout) => PutMonitorHead(monitor, w.tag1, I64(timeout) + rest)
    case MonitorWaited(monitor, timedOut) => PutMonitorHead(monitor, w.tag1, U8(if timedOut then 1 else 0) + rest)
    case Unknown(_) => w.payload + rest
  }

  /** An uncaught exception is written with an all-zero catch location. */
  function WireCatch(w: Wire, catch: Option<Location>): Location {
    match catch
    case None => Location(w.tag2, 0, 0, 0)
    case Some(l) => l
  }

  function PutEvent(w: Wire, rest: bytes): bytes {
    U8(w.event.kind) + (I32(w.event.requestId) + PutDetails(w, rest))
  }

  function PutEvents(ws: seq<Wire>, rest: bytes): bytes {
    if ws == [] then rest else PutEvent(ws[0], PutEvents(ws[1..], rest))
  }

  function PutEventSet(policy: u8, ws: seq<Wire>, rest: bytes): bytes
    requires |ws| < 0x8000_0000
  {
    U8(policy) + (I32(|ws|) + PutEvents(ws, rest))
  }

  predicate Supported(kind: u8) {
    kind == SINGLE_STEP || kind == BREAKPOINT || kind == EXCEPTION || kind == THREAD_START || kind == THREAD_DEATH
    || kind == CLASS_PREPARE || kind == FIELD_ACCESS || kind == FIELD_MODIFICATION || kind == METHOD_EXIT
    || kind == METHOD_EXIT_WITH_RETURN_VALUE || kind == MONITOR_CONTENDED_ENTER
    || kind == MONITOR_CONTENDED_ENTERED || kind == MONITOR_WAIT || kind == MONITOR_WAITED
    || kind == VM_START || kind == VM_DEATH
  }

  /** The kind byte announces the payload that follows, values fit their tags, a real catch location is
      not all-zero, and only an event the client does not know has an opaque payload. */
  predicate WellFormed(w: Wire) {
    var kind := w.event.kind;
    match w.event.details
    case VMStart(_) => kind == VM_START
    case VMDeath => kind == VM_DEATH
    case ThreadStart(_) => kind == THREAD_START
    case ThreadDeath(_) => kind == THREAD_DEATH
    case ClassPrepare(_, _, _, _) => kind == CLASS_PREPARE
    case Breakpoint(_, _) => kind == BREAKPOINT
    case Step(_, _) => kind == SINGLE_STEP
    case Exception(_, _, _, catch) =>
      kind == EXCEPTION
      && (catch.Some? ==> catch.value.classId != 0 || catch.value.methodId != 0 || catch.value.index != 0)
    case MethodExit(_, _, value) =>
      if value.Some? then kind == METHOD_EXIT_WITH_RETURN_VALUE && WellTyped(value.value.tag, value.value.data)
      else kind == METHOD_EXIT
    case FieldAccess(_) => kind == FIELD_ACCESS
    case FieldModification(_, value) => kind == FIELD_MODIFICATION && WellTyped(value.tag, value.data)
    case MonitorContendedEnter(_) => kind == MONITOR_CONTENDED_ENTER
    case MonitorContendedEntered(_) => kind == MONITOR_CONTENDED_ENTERED
    case MonitorWait(_, _) => kind == MONITOR_WAIT
    case MonitorWaited(_, _) => kind == MONITOR_WAITED
    case Unknown(k) => kind == k && !Supported(k)
  }

  // ----- round trips -----

  lemma LocationWritten(l: Location, rest: bytes)
    ensures ParseLocation(PutLocation(l, rest)) == Success((l, rest))
  {
    var b3 := U64(l.index) + rest;
    var b2 := U64(l.methodId) + b3;
    ReadU64Written(l.index, rest);
    ReadU64Written(l.methodId, b3);
    ReadU64Written(l.classId, b2);
    ReadU8Written(l.typeTag, U64(l.classId) + b2);
  }

  lemma FieldHeadWritten(f: FieldEvent, tag1: u8, tag2: u8, rest: bytes)
    ensures ParseFieldHead(PutFieldHead(f, tag1, tag2, rest)) == Success((f, rest))
  {
    var b6 := U64(f.instance) + rest;
    var b5 := U8(tag2) + b6;
    var b4 := U64(f.fieldId) + b5;
    var b3 := U64(f.refType) + b4;
    var b2 := U8(tag1) + b3;
    ReadU64Written(f.instance, rest);
    ReadU8Written(tag2, b6);
    ReadU64Written(f.fieldId, b5);
    ReadU64Written(f.refType, b4);
    ReadU8Written(tag1, b3);
    LocationWritten(f.location, b2);
    ReadU64Written(f.thread, PutLocation(f.location, b2));
  }

  lemma MonitorHeadWritten(m: MonitorEvent, tag1: u8, rest: bytes)
    ensures ParseMonitorHead(PutMonitorHead(m, tag1, rest)) == Success((m, rest))
  {
    var b3 := PutLocation(m.location, rest);
    var b2 := U64(m.monitor) + b3;
    LocationWritten(m.location, rest);
    ReadU64Written(m.monitor, b3);
    ReadU8Written(tag1, b2);
    ReadU64Written(m.thread, U8(tag1) + b2);
  }

  lemma ThreadAndLocationWritten(thread: u64, l: Location, rest: bytes)
    ensures ParseThreadAndLocation(U64(thread) + PutLocation(l, rest)) == Success(((thread, l), rest))
  {
    LocationWritten(l, rest);
    ReadU64Written(thread, PutLocation(l, rest));
  }

  lemma ClassPrepareWritten(w: Wire, rest: bytes)
    requires w.event.details.ClassPrepare?
    ensures ParseClassPrepare(PutDetails(w, rest)) == Success((w.event.details, rest))
  {
    var d := w.event.details;
    var b4 := I32(d.status) + rest;
    var b3 := Str(d.signature) + b4;
    var b2 := U64(d.refType) + b3;
    ReadI32Written(d.status, rest);
    ReadStringWritten(d.signature, b4);
    ReadU64Written(d.refType, b3);
    ReadU8Written(w.tag1, b2);
    ReadU64Written(d.thread, U8(w.tag1) + b2);
  }

  lemma ExceptionWritten(w: Wire, rest: bytes)
    requires w.event.details.Exception? && WellFormed(w)
    ensures ParseException(PutDetails(w, rest)) == Success((w.event.details, rest))
  {
    var d := w.event.details;
    var b3 := PutLocation(WireCatch(w, d.catchLocation), rest);
    var b2 := U64(d.exception) + b3;
    LocationWritten(WireCatch(w, d.catchLocation), rest);
    ReadU64Written(d.exception, b3);
    ReadU8Written(w.tag1, b2);
    ThreadAndLocationWritten(d.thread, d.location, U8(w.tag1) + b2);
  }

  lemma ReadI64Written(x: i64, rest: bytes)
    ensures ReadI64(I64(x) + rest) == Success((x, rest))
  {
    Widths();
    ReadWrittenInt(8, x, rest);
  }

  lemma MonitorWritten(w: Wire, rest: bytes)
    requires WellFormed(w) && ParseMonitor(w.event.kind, []).Some?
    ensures ParseMonitor(w.event.kind, PutDetails(w, rest)) == Some(Success((w.event.details, rest)))
  {
    hide ParseMonitorHead, PutMonitorHead, ReadU8, U8, ReadI64, I64;
    match w.event.details {
      case MonitorContendedEnter(monitor) => MonitorHeadWritten(monitor, w.tag1, rest);
      case MonitorContendedEntered(monitor) => MonitorHeadWritten(monitor, w.tag1, rest);
      case MonitorWait(monitor, timeout) =>
        ReadI64Written(timeout, rest);
        MonitorHeadWritten(monitor, w.tag1, I64(timeout) + rest);
      case MonitorWaited(monitor, timedOut) =>
        ReadU8Written(if timedOut then 1 else 0, rest);
        MonitorHeadWritten(monitor, w.tag1, U8(if timedOut then 1 else 0) + rest);
    }
  }

  lemma StopPointWritten(w: Wire, rest: bytes)
    requires WellFormed(w) && ParseMonitor(w.event.kind, []).None? && ParseVmLifecycle(w.event.kind, []).None?
    ensures ParseStopPoint(w.event.kind, PutDetails(w, rest))
            == Success((w.event.details, if w.event.details.Unknown? then w.payload + rest else rest))
  {
    hide ParseThreadAndLocation, ParseFieldHead, ParseException, PutFieldHead, PutLocation, PutTagged, ReadTagged;
    match w.event.details {
      case Breakpoint(thread, location) => ThreadAndLocationWritten(thread, location, rest);
      case Step(thread, location) => ThreadAndLocationWritten(thread, location, rest);
      case Exception(_, _, _, _) => ExceptionWritten(w, rest);
      case MethodExit(thread, location, value) =>
        if value.Some? {
          TaggedWritten(value.value, rest);
          ThreadAndLocationWritten(thread, location, PutTagged(value.value, rest));
        } else {
          ThreadAndLocationWritten(thread, location, rest);
        }
      case FieldAccess(field) => FieldHeadWritten(field, w.tag1, w.tag2, rest);
      case FieldModification(field, value) =>
        TaggedWritten(value, rest);
        FieldHeadWritten(field, w.tag1, w.tag2, PutTagged(value, rest));
      case Unknown(_) =>
    }
  }

  /** Each event consumes exactly its own bytes; an unsupported one consumes none of its payload. */
  lemma DetailsWritten(w: Wire, rest: bytes)
    requires WellFormed(w)
    ensures ParseEventDetails(w.event.kind, PutDetails(w, rest))
            == Success((w.event.details, if w.event.details.Unknown? then w.payload + rest else rest))
  {
    if ParseMonitor(w.event.kind, []).Some? {
      MonitorWritten(w, rest);
    } else if ParseVmLifecycle(w.event.kind, []).None? {
      StopPointWritten(w, rest);
    } else {
      match w.event.details {
        case VMStart(thread) => ReadU64Written(thread, rest);
        case ThreadStart(thread) => ReadU64Written(thread, rest);
        case ThreadDeath(thread) => ReadU64Written(thread, rest);
        case ClassPrepare(_, _, _, _) => ClassPrepareWritten(w, rest);
        case VMDeath =>
      }
    }
  }

  function EventsOf(ws: seq<Wire>): (es: seq<Event>)
    ensures |es| == |ws|
  {
    if ws == [] then [] else [ws[0].event] + EventsOf(ws[1..])
  }

  /** Every event is well formed, and only the last may leave payload bytes unread. */
  ghost predicate Parsable(ws: seq<Wire>) {
    forall i :: 0 <= i < |ws| ==>
      WellFormed(ws[i]) && (ws[i].event.details.Unknown? && i < |ws| - 1 ==> ws[i].payload == [])
  }

  /** What parsing leaves: the payload of a last event that is unsupported, and `rest`. */
  function Unread(ws: seq<Wire>, rest: bytes): bytes {
    if ws == [] then rest
    else if |ws| == 1 then if ws[0].event.details.Unknown? then ws[0].payload + rest else rest
    else Unread(ws[1..], rest)
  }

  lemma EventWritten(w: Wire, rest: bytes)
    requires WellFormed(w)
    ensures ParseEvent(PutEvent(w, rest))
            == Success((w.event, if w.event.details.Unknown? then w.payload + rest else rest))
  {
    ReadU8Written(w.event.kind, I32(w.event.requestId) + PutDetails(w, rest));
    ReadI32Written(w.event.requestId, PutDetails(w, rest));
    DetailsWritten(w, rest);
  }

  lemma {:induction false} EventsWritten(ws: seq<Wire>, rest: bytes)
    requires Parsable(ws)
    ensures ParseEvents(|ws|, PutEvents(ws, rest)) == Success((EventsOf(ws), Unread(ws, rest)))
  {
    hide PutEvent, ParseEvent;
    if ws != [] {
      var tail := PutEvents(ws[1..], rest);
      EventWritten(ws[0], tail);
      EventsWritten(ws[1..], rest);
      assert [] + tail == tail;
    }
  }

  /** The composite codec: parsing what a JVM writes gives back its events, in order, and stops where
      the last of them ends. */
  lemma {:induction false} EventSetRoundTrip(policy: u8, ws: seq<Wire>, rest: bytes)
    requires Parsable(ws) && |ws| < 0x8000_0000
    ensures ParseEventSet(PutEventSet(policy, ws, rest))
            == Success((EventSet(policy, EventsOf(ws)), Unread(ws, rest)))
  {
    SetHeaderWritten(policy, ws, rest);
    EventsWritten(ws, rest);
  }

  lemma {:induction false} SetHeaderWritten(policy: u8, ws: seq<Wire>, rest: bytes)
    requires |ws| < 0x8000_0000
    ensures ParseEventSet(PutEventSet(policy, ws, rest))
            == ParseEvents(|ws|, PutEvents(ws, rest)).Map((p: (seq<Event>, bytes)) => (EventSet(policy, p.0), p.1))
  {
    ReadU8Written(policy, I32(|ws|) + PutEvents(ws, rest));
    ReadI32Written(|ws|, PutEvents(ws, rest));
  }

  // ----- prefixes -----

  lemma FieldsExtendAll(more: bytes)
    ensures forall b: bytes {:trigger ReadU8(b + more)} :: Extends(ReadU8(b), ReadU8(b + more), more)
    ensures forall b: bytes {:trigger ReadU64(b + more)} :: Extends(ReadU64(b), ReadU64(b + more), more)
    ensures forall b: bytes {:trigger ReadI64(b + more)} :: Extends(ReadI64(b), ReadI64(b + more), more)
    ensures forall b: bytes {:trigger ReadI32(b + more)} :: Extends(ReadI32(b), ReadI32(b + more), more)
    ensures forall b: bytes {:trigger ReadString(b + more)} :: Extends(ReadString(b), ReadString(b + more), more)
    ensures forall b: bytes {:trigger ReadTagged(b + more)} :: Extends(ReadTagged(b), ReadTagged(b + more), more)
  {
    forall b: bytes
      ensures Extends(ReadU8(b), ReadU8(b + more), more) && Extends(ReadU64(b), ReadU64(b + more), more)
      ensures Extends(ReadI64(b), ReadI64(b + more), more) && Extends(ReadI32(b), ReadI32(b + more), more)
      ensures Extends(ReadString(b), ReadString(b + more), more)
      ensures Extends(ReadTagged(b), ReadTagged(b + more), more)
    {
      FieldsExtend(b, more);
      UintExtends(8, b, more);
      StringExtends(b, more);
      TaggedExtends(b, more);
    }
  }

  lemma HeadsExtend(b: bytes, more: bytes)
    ensures Extends(ParseLocation(b), ParseLocation(b + more), more)
    ensures Extends(ParseThreadAndLocation(b), ParseThreadAndLocation(b + more), more)
  {
    FieldsExtendAll(more);
  }

  lemma FieldHeadExtends(b: bytes, more: bytes)
    ensures Extends(ParseFieldHead(b), ParseFieldHead(b + more), more)
  {
    hide ReadU8, ReadU64, ParseLocation;
    FieldsExtendAll(more);
    forall b: bytes {:trigger ParseLocation(b + more)}
      ensures Extends(ParseLocation(b), ParseLocation(b + more), more)
    {
      HeadsExtend(b, more);
    }
  }

  lemma MonitorHeadExtends(b: bytes, more: bytes)
    ensures Extends(ParseMonitorHead(b), ParseMonitorHead(b + more), more)
  {
    hide ReadU8, ReadU64, ParseLocation;
    FieldsExtendAll(more);
    forall b: bytes {:trigger ParseLocation(b + more)}
      ensures Extends(ParseLocation(b), ParseLocation(b + more), more)
    {
      HeadsExtend(b, more);
    }
  }

  lemma ClassPrepareExtends(b: bytes, more: bytes)
    ensures Extends(ParseClassPrepare(b), ParseClassPrepare(b + more), more)
  {
    FieldsExtendAll(more);
  }

  lemma ExceptionExtends(b: bytes, more: bytes)
    ensures Extends(ParseException(b), ParseException(b + more), more)
  {
    hide ReadU8, ReadU64, ParseLocation, ParseThreadAndLocation;
    FieldsExtendAll(more);
    forall b: bytes {:trigger ParseLocation(b + more)}
      ensures Extends(ParseLocation(b), ParseLocation(b + more), more)
    {
      HeadsExtend(b, more);
    }
    HeadsExtend(b, more);
  }

  lemma MonitorExtends(kind: u8, b: bytes, more: bytes)
    requires ParseMonitor(kind, []).Some?
    ensures Extends(ParseMonitor(kind, b).value, ParseMonitor(kind, b + more).value, more)
  {
    MonitorHeadExtends(b, more);
    if ParseMonitorHead(b).Success? {
      var rest := ParseMonitorHead(b).value.1;
      if kind == MONITOR_WAITED {
        FieldsExtend(rest, more);
      } else {
        UintExtends(8, rest, more);
      }
    }
  }

  lemma StopPointExtends(kind: u8, b: bytes, more: bytes)
    ensures Extends(ParseStopPoint(kind, b), ParseStopPoint(kind, b + more), more)
  {
    HeadsExtend(b, more);
    FieldHeadExtends(b, more);
    if kind == EXCEPTION {
      ExceptionExtends(b, more);
    } else if kind == FIELD_MODIFICATION && ParseFieldHead(b).Success? {
      TaggedExtends(ParseFieldHead(b).value.1, more);
    } else if kind == METHOD_EXIT_WITH_RETURN_VALUE && ParseThreadAndLocation(b).Success? {
      TaggedExtends(ParseThreadAndLocation(b).value.1, more);
    }
  }

  lemma DetailsExtend(kind: u8, b: bytes, more: bytes)
    ensures Extends(ParseEventDetails(kind, b), ParseEventDetails(kind, b + more), more)
  {
    FieldsExtend(b, more);
    if ParseMonitor(kind, []).Some? {
      MonitorExtends(kind, b, more);
    } else {
      StopPointExtends(kind, b, more);
      ClassPrepareExtends(b, more);
    }
  }

  lemma EventExtends(b: bytes, more: bytes)
    ensures Extends(ParseEvent(b), ParseEvent(b + more), more)
  {
    FieldsExtend(b, more);
    if |b| >= 1 {
      FieldsExtend(b[1..], more);
      if ReadI32(b[1..]).Success? {
        DetailsExtend(b[0], ReadI32(b[1..]).value.1, more);
      }
    }
  }

  lemma {:induction false} EventsExtend(count: nat, b: bytes, more: bytes)
    ensures Extends(ParseEvents(count, b), ParseEvents(count, b + more), more)
  {
    if count > 0 && ParseEvent(b).Success? {
      EventExtends(b, more);
      EventsExtend(count - 1, ParseEvent(b).value.1, more);
    }
  }

  lemma EventSetExtends(b: bytes, more: bytes)
    ensures Extends(ParseEventSet(b), ParseEventSet(b + more), more)
  {
    FieldsExtendAll(more);
    if |b| >= 1 && ReadI32(b[1..]).Success? {
      var (count, b2) := ReadI32(b[1..]).value;
      EventsExtend(if count < 0 then 0 else count, b2, more);
    }
  }

  function MethodEntryHidingVmDeath(): seq<Wire> {
    [Wire(Event(40, 1, Unknown(40)), 0, 0, [99, 0, 0, 0, 7]), Wire(Event(99, 0, VMDeath), 0, 0, [])]
  }

  /** The limit of the round trip: an unsupported event with a payload, anywhere but last, makes the
      parser read its payload as the next event. Here METHOD_ENTRY (40) hides a VMDeath. */
  lemma UnsupportedEventDesynchronises()
    ensures forall w :: w in MethodEntryHidingVmDeath() ==> WellFormed(w)
    ensures ParseEventPacket(PutEventSet(0, MethodEntryHidingVmDeath(), []))
            == Success(EventSet(0, [Event(40, 1, Unknown(40)), Event(99, 7, VMDeath)]))
  {
    var ws := MethodEntryHidingVmDeath();
    var last := PutEvents(ws[1..], []);
    HiddenEvent(last);
    TwoEvents(ws[0], Wire(Event(99, 7, VMDeath), 0, 0, []), last);
    SetHeaderWritten(0, ws, []);
  }

  lemma HiddenEvent(rest: bytes)
    ensures PutEvent(Wire(Event(99, 7, VMDeath), 0, 0, []), rest) == [99, 0, 0, 0, 7] + rest
  {
    BigEndianSmall(7);
  }

  lemma TwoEvents(first: Wire, second: Wire, rest: bytes)
    requires WellFormed(first) && first.event.details.Unknown?
    requires WellFormed(second) && second.event.details.VMDeath?
    requires PutEvent(second, rest) == first.payload + rest
    ensures ParseEvents(2, PutEvent(first, rest)) == Success(([first.event, second.event], rest))
  {
    hide ParseEvent, PutEvent;
    EventWritten(first, rest);
    EventWritten(second, rest);
    assert ParseEvents(0, rest) == Success(([], rest));
    assert [second.event] + [] == [second.event];
    assert ParseEvents(1, first.payload + rest) == Success(([second.event], rest));
    assert [first.event] + [second.event] == [first.event, second.event];
  }

  lemma BigEndianSmall(x: u8)
    ensures I32(x) == [0, 0, 0, x]
  {
    Widths();
    assert Unsigned(4, x) == x;
    assert BigEndian(1, 0) == [0] && BigEndian(2, 0) == [0, 0] && BigEndian(3, 0) == [0, 0, 0];
    assert BigEndian(4, x) == BigEndian(3, 0) + [x];
  }
}
