/** Truncated composite packets: which prefixes of what a JVM writes are read, and as what. */
module EventPrefixes {
  import opened Wrappers
  import opened Bytes
  import opened Values
  import opened EventTypes
  import opened Events

  // ----- what follows a packet is not part of it -----

  lemma Longer(a: bytes, rest: bytes, more: bytes)
    ensures a + (rest + more) == (a + rest) + more
  {
  }

  lemma LocationLonger(l: Location, rest: bytes, more: bytes)
    ensures PutLocation(l, rest + more) == PutLocation(l, rest) + more
  {
    Longer(U64(l.index), rest, more);
    Longer(U64(l.methodId), U64(l.index) + rest, more);
    Longer(U64(l.classId), U64(l.methodId) + (U64(l.index) + rest), more);
    Longer(U8(l.typeTag), U64(l.classId) + (U64(l.methodId) + (U64(l.index) + rest)), more);
  }

  lemma ThreadAndLocationLonger(thread: u64, l: Location, rest: bytes, more: bytes)
    ensures U64(thread) + PutLocation(l, rest + more) == (U64(thread) + PutLocation(l, rest)) + more
  {
    LocationLonger(l, rest, more);
    Longer(U64(thread), PutLocation(l, rest), more);
  }

  lemma TaggedLonger(v: Value, rest: bytes, more: bytes)
    ensures PutTagged(v, rest + more) == PutTagged(v, rest) + more
  {
    hide WriteUntagged;
    Longer(WriteUntagged(v.data), rest, more);
    Longer(U8(v.tag), WriteUntagged(v.data) + rest, more);
  }

  lemma FieldHeadLonger(f: FieldEvent, tag1: u8, tag2: u8, rest: bytes, more: bytes)
    ensures PutFieldHead(f, tag1, tag2, rest + more) == PutFieldHead(f, tag1, tag2, rest) + more
  {
    hide PutLocation;
    var b1 := U64(f.instance) + rest;
    var b2 := U8(tag2) + b1;
    var b3 := U64(f.fieldId) + b2;
    var b4 := U64(f.refType) + b3;
    Longer(U64(f.instance), rest, more);
    Longer(U8(tag2), b1, more);
    Longer(U64(f.fieldId), b2, more);
    Longer(U64(f.refType), b3, more);
    Longer(U8(tag1), b4, more);
    ThreadAndLocationLonger(f.thread, f.location, U8(tag1) + b4, more);
  }

  lemma MonitorHeadLonger(m: MonitorEvent, tag1: u8, rest: bytes, more: bytes)
    ensures PutMonitorHead(m, tag1, rest + more) == PutMonitorHead(m, tag1, rest) + more
  {
    LocationLonger(m.location, rest, more);
    hide PutLocation;
    var b1 := PutLocation(m.location, rest);
    Longer(U64(m.monitor), b1, more);
    Longer(U8(tag1), U64(m.monitor) + b1, more);
    Longer(U64(m.thread), U8(tag1) + (U64(m.monitor) + b1), more);
  }

  lemma ClassPrepareLonger(w: Wire, rest: bytes, more: bytes)
    requires w.event.details.ClassPrepare?
    ensures PutDetails(w, rest + more) == PutDetails(w, rest) + more
  {
    var d := w.event.details;
    var b1 := I32(d.status) + rest;
    var b2 := Str(d.signature) + b1;
    var b3 := U64(d.refType) + b2;
    Longer(I32(d.status), rest, more);
    Longer(Str(d.signature), b1, more);
    Longer(U64(d.refType), b2, more);
    Longer(U8(w.tag1), b3, more);
    Longer(U64(d.thread), U8(w.tag1) + b3, more);
  }

  lemma ExceptionLonger(w: Wire, rest: bytes, more: bytes)
    requires w.event.details.Exception?
    ensures PutDetails(w, rest + more) == PutDetails(w, rest) + more
  {
    var d := w.event.details;
    LocationLonger(WireCatch(w, d.catchLocation), rest, more);
    hide PutLocation, WireCatch;
    var b1 := PutLocation(WireCatch(w, d.catchLocation), rest);
    Longer(U64(d.exception), b1, more);
    Longer(U8(w.tag1), U64(d.exception) + b1, more);
    ThreadAndLocationLonger(d.thread, d.location, U8(w.tag1) + (U64(d.exception) + b1), more);
  }

  lemma DetailsLonger(w: Wire, rest: bytes, more: bytes)
    ensures PutDetails(w, rest + more) == PutDetails(w, rest) + more
  {
    hide PutLocation, PutTagged, PutFieldHead, PutMonitorHead, U8, U64, I32, I64, WireCatch;
    match w.event.details {
      case VMStart(thread) => Longer(U64(thread), rest, more);
      case VMDeath =>
      case ThreadStart(thread) => Longer(U64(thread), rest, more);
      case ThreadDeath(thread) => Longer(U64(thread), rest, more);
      case ClassPrepare(_, _, _, _) => ClassPrepareLonger(w, rest, more);
      case Breakpoint(thread, location) => ThreadAndLocationLonger(thread, location, rest, more);
      case Step(thread, location) => ThreadAndLocationLonger(thread, location, rest, more);
      case Exception(_, _, _, _) => ExceptionLonger(w, rest, more);
      case MethodExit(thread, location, value) =>
        if value.Some? {
          TaggedLonger(value.value, rest, more);
        }
        ThreadAndLocationLonger(thread, location, if value.Some? then PutTagged(value.value, rest) else rest, more);
      case FieldAccess(field) => FieldHeadLonger(field, w.tag1, w.tag2, rest, more);
      case FieldModification(field, newValue) =>
        TaggedLonger(newValue, rest, more);
        FieldHeadLonger(field, w.tag1, w.tag2, PutTagged(newValue, rest), more);
      case MonitorContendedEnter(monitor) => MonitorHeadLonger(monitor, w.tag1, rest, more);
      case MonitorContendedEntered(monitor) => MonitorHeadLonger(monitor, w.tag1, rest, more);
      case MonitorWait(monitor, timeout) =>
        Longer(I64(timeout), rest, more);
        MonitorHeadLonger(monitor, w.tag1, I64(timeout) + rest, more);
      case MonitorWaited(monitor, timedOut) =>
        Longer(U8(if timedOut then 1 else 0), rest, more);
        MonitorHeadLonger(monitor, w.tag1, U8(if timedOut then 1 else 0) + rest, more);
      case Unknown(_) => Longer(w.payload, rest, more);
    }
  }

  lemma EventLonger(w: Wire, rest: bytes, more: bytes)
    ensures PutEvent(w, rest + more) == PutEvent(w, rest) + more
  {
    DetailsLonger(w, rest, more);
    hide PutDetails;
    Longer(I32(w.event.requestId), PutDetails(w, rest), more);
    Longer(U8(w.event.kind), I32(w.event.requestId) + PutDetails(w, rest), more);
  }

  lemma {:induction false} EventsLonger(ws: seq<Wire>, rest: bytes, more: bytes)
    ensures PutEvents(ws, rest + more) == PutEvents(ws, rest) + more
  {
    hide PutEvent;
    if ws != [] {
      EventsLonger(ws[1..], rest, more);
      EventLonger(ws[0], PutEvents(ws[1..], rest), more);
    }
  }

  lemma EventSetLonger(policy: u8, ws: seq<Wire>, rest: bytes, more: bytes)
    requires |ws| < 0x8000_0000
    ensures PutEventSet(policy, ws, rest + more) == PutEventSet(policy, ws, rest) + more
  {
    hide PutEvents;
    EventsLonger(ws, rest, more);
    Longer(I32(|ws|), PutEvents(ws, rest), more);
    Longer(U8(policy), I32(|ws|) + PutEvents(ws, rest), more);
  }

  // ----- prefixes -----

  /** The packet up to where the parser stops: without the payload of a last event it does not know. */
  function Bare(ws: seq<Wire>): (bare: seq<Wire>)
    ensures |bare| == |ws|
  {
    if ws == [] then []
    else if |ws| == 1 then [if ws[0].event.details.Unknown? then ws[0].(payload := []) else ws[0]]
    else [ws[0]] + Bare(ws[1..])
  }

  lemma SamePayload(w: Wire, rest: bytes)
    requires w.event.details.Unknown?
    ensures PutEvent(w, rest) == PutEvent(w.(payload := []), w.payload + rest)
    ensures WellFormed(w) ==> WellFormed(w.(payload := []))
  {
    assert [] + (w.payload + rest) == w.payload + rest;
  }

  lemma {:induction false} BareReadsAlike(ws: seq<Wire>, rest: bytes)
    requires Parsable(ws)
    ensures Parsable(Bare(ws)) && EventsOf(Bare(ws)) == EventsOf(ws) && Unread(Bare(ws), rest) == rest
    ensures PutEvents(ws, rest) == PutEvents(Bare(ws), Unread(ws, rest))
  {
    hide PutEvent, WellFormed, U8, I32;
    if |ws| == 1 {
      if ws[0].event.details.Unknown? {
        SamePayload(ws[0], rest);
      }
      assert [] + rest == rest && [] + Unread(ws, rest) == Unread(ws, rest);
    } else if ws != [] {
      BareReadsAlike(ws[1..], rest);
      assert Bare(ws)[1..] == Bare(ws[1..]);
    }
  }

  /** A truncated packet is an error, unless only bytes that the parser does not look at were cut off; then it
      is read as the whole packet is. */
  lemma {:induction false} TruncatedSetFails(policy: u8, ws: seq<Wire>, rest: bytes, prefix: bytes, missing: bytes)
    requires Parsable(ws) && |ws| < 0x8000_0000 && prefix + missing == PutEventSet(policy, ws, rest)
    ensures ParseEventPacket(prefix).Success? <==> |missing| <= |Unread(ws, rest)|
    ensures |missing| <= |Unread(ws, rest)| ==> ParseEventPacket(prefix) == Success(EventSet(policy, EventsOf(ws)))
  {
    EventSetRoundTrip(policy, ws, rest);
    EventSetExtends(prefix, missing);
    if |missing| <= |Unread(ws, rest)| {
      CutUnread(policy, ws, rest, prefix, missing);
    }
  }

  lemma {:induction false} CutUnread(policy: u8, ws: seq<Wire>, rest: bytes, prefix: bytes, missing: bytes)
    requires Parsable(ws) && |ws| < 0x8000_0000 && prefix + missing == PutEventSet(policy, ws, rest)
    requires |missing| <= |Unread(ws, rest)|
    ensures ParseEventPacket(prefix) == Success(EventSet(policy, EventsOf(ws)))
  {
    hide PutEvents, ParseEvents, Parsable, Unread, EventsOf;
    var unread := Unread(ws, rest);
    var left := unread[..|unread| - |missing|];
    var cut := unread[|unread| - |missing|..];
    assert unread == left + cut;
    BareReadsAlike(ws, rest);
    EventSetLonger(policy, Bare(ws), left, cut);
    assert prefix + missing == PutEventSet(policy, Bare(ws), left) + cut;
    SameLengthTail(prefix, missing, PutEventSet(policy, Bare(ws), left), cut);
    BareReadsAlike(ws, left);
    EventSetRoundTrip(policy, Bare(ws), left);
  }

  lemma SameLengthTail(a: bytes, b: bytes, c: bytes, d: bytes)
    requires a + b == c + d && |b| == |d|
    ensures a == c
  {
    assert a == (a + b)[..|a|] && c == (c + d)[..|c|];
  }
}
