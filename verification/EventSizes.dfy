/** How many bytes of a composite packet each event takes, and from that exactly which packets the parser
    reads as their JVM meant them. */
module EventSizes {
  import opened Wrappers
  import opened Bytes
  import opened Values
  import opened EventTypes
  import opened Events

  /** A read that succeeds takes `n` bytes. */
  ghost predicate Takes<T>(b: bytes, r: Parsed<T>, n: nat) {
    r.Success? ==> |b| == n + |r.value.1|
  }

  function TaggedSize(v: Value): nat {
    1 + (if ValueWidth(v.tag).Some? then ValueWidth(v.tag).value else 0)
  }

  /** The bytes the parser takes for an event's details, which depend on the event alone. */
  function DetailsSize(d: EventKind): nat {
    match d
    case VMStart(_) => 8
    case VMDeath => 0
    case ThreadStart(_) => 8
    case ThreadDeath(_) => 8
    case ClassPrepare(_, _, signature, _) => 25 + |signature|
    case Breakpoint(_, _) => 33
    case Step(_, _) => 33
    case Exception(_, _, _, _) => 67
    case MethodExit(_, _, value) => 33 + (if value.Some? then TaggedSize(value.value) else 0)
    case FieldAccess(_) => 59
    case FieldModification(_, value) => 59 + TaggedSize(value)
    case MonitorContendedEnter(_) => 42
    case MonitorContendedEntered(_) => 42
    case MonitorWait(_, _) => 50
    case MonitorWaited(_, _) => 43
    case Unknown(_) => 0
  }

  function EventSize(e: Event): nat {
    5 + DetailsSize(e.details)
  }

  function EventsSize(es: seq<Event>): nat {
    if es == [] then 0 else EventSize(es[0]) + EventsSize(es[1..])
  }

  lemma LocationTakes(b: bytes)
    ensures Takes(b, ParseLocation(b), 25)
  {
  }

  lemma ThreadAndLocationTakes(b: bytes)
    ensures Takes(b, ParseThreadAndLocation(b), 33)
  {
    if |b| >= 8 {
      LocationTakes(b[8..]);
    }
  }

  lemma FieldHeadTakes(b: bytes)
    ensures Takes(b, ParseFieldHead(b), 59)
  {
    if |b| >= 8 {
      LocationTakes(b[8..]);
    }
  }

  lemma MonitorHeadTakes(b: bytes)
    ensures Takes(b, ParseMonitorHead(b), 42)
  {
    if |b| >= 17 {
      assert b[8..][1..][8..] == b[17..];
      LocationTakes(b[17..]);
    }
  }

  lemma TaggedTakes(b: bytes)
    ensures ReadTagged(b).Success? ==> Takes(b, ReadTagged(b), TaggedSize(ReadTagged(b).value.0))
  {
  }

  /** What the details parsed to says how many bytes they took. */
  ghost predicate Sized(b: bytes, r: Parsed<EventKind>) {
    r.Success? ==> |b| == DetailsSize(r.value.0) + |r.value.1|
  }

  lemma ClassPrepareSized(b: bytes)
    ensures Sized(b, ParseClassPrepare(b))
  {
  }

  lemma ExceptionSized(b: bytes)
    ensures Sized(b, ParseException(b))
  {
    ThreadAndLocationTakes(b);
    if ParseThreadAndLocation(b).Success? {
      var b1 := ParseThreadAndLocation(b).value.1;
      if |b1| >= 9 {
        assert b1[1..][8..] == b1[9..];
        LocationTakes(b1[9..]);
      }
    }
  }

  lemma MonitorSized(kind: u8, b: bytes)
    requires ParseMonitor(kind, b).Some?
    ensures Sized(b, ParseMonitor(kind, b).value)
  {
    hide ParseMonitorHead;
    MonitorHeadTakes(b);
  }

  lemma LifecycleSized(kind: u8, b: bytes)
    requires ParseVmLifecycle(kind, b).Some?
    ensures Sized(b, ParseVmLifecycle(kind, b).value)
  {
    hide ParseClassPrepare;
    ClassPrepareSized(b);
  }

  lemma {:induction false} StopPointSized(kind: u8, b: bytes)
    ensures Sized(b, ParseStopPoint(kind, b))
  {
    hide ParseThreadAndLocation, ParseFieldHead, ParseException, ReadTagged;
    ThreadAndLocationTakes(b);
    FieldHeadTakes(b);
    ExceptionSized(b);
    if ParseFieldHead(b).Success? {
      TaggedTakes(ParseFieldHead(b).value.1);
    }
    if ParseThreadAndLocation(b).Success? {
      TaggedTakes(ParseThreadAndLocation(b).value.1);
    }
  }

  lemma {:induction false} DetailsSized(kind: u8, b: bytes)
    ensures Sized(b, ParseEventDetails(kind, b))
  {
    hide ParseStopPoint, Sized;
    if ParseVmLifecycle(kind, b).Some? {
      LifecycleSized(kind, b);
    } else if ParseMonitor(kind, b).Some? {
      MonitorSized(kind, b);
    } else {
      StopPointSized(kind, b);
    }
  }

  lemma {:induction false} EventSized(b: bytes)
    ensures ParseEvent(b).Success? ==> |b| == EventSize(ParseEvent(b).value.0) + |ParseEvent(b).value.1|
  {
    hide ParseEventDetails;
    if |b| >= 5 {
      assert b[1..][4..] == b[5..];
      DetailsSized(b[0], b[5..]);
    }
  }

  lemma {:induction false} EventsSized(count: nat, b: bytes)
    ensures ParseEvents(count, b).Success? ==>
      |b| == EventsSize(ParseEvents(count, b).value.0) + |ParseEvents(count, b).value.1|
  {
    hide ParseEvent;
    if count > 0 && ParseEvent(b).Success? {
      EventSized(b);
      EventsSized(count - 1, ParseEvent(b).value.1);
    }
  }

  // ----- what a JVM writes -----

  /** The payload bytes of unsupported events, which no event's size accounts for. */
  function Opaque(ws: seq<Wire>): nat {
    if ws == [] then 0 else (if ws[0].event.details.Unknown? then |ws[0].payload| else 0) + Opaque(ws[1..])
  }

  lemma {:induction false} WrittenSize(ws: seq<Wire>, rest: bytes)
    requires forall i :: 0 <= i < |ws| ==> WellFormed(ws[i])
    ensures |PutEvents(ws, rest)| == EventsSize(EventsOf(ws)) + Opaque(ws) + |rest|
  {
    hide PutEvent, ParseEvent;
    if ws != [] {
      var tail := PutEvents(ws[1..], rest);
      WrittenSize(ws[1..], rest);
      EventWritten(ws[0], tail);
      EventSized(PutEvent(ws[0], tail));
    }
  }

  lemma {:induction false} UnreadSize(ws: seq<Wire>, rest: bytes)
    ensures |Unread(ws, rest)| <= Opaque(ws) + |rest|
    ensures |Unread(ws, rest)| == Opaque(ws) + |rest| ==>
      forall i :: 0 <= i < |ws| - 1 && ws[i].event.details.Unknown? ==> ws[i].payload == []
  {
    if |ws| > 1 {
      UnreadSize(ws[1..], rest);
      if |Unread(ws, rest)| == Opaque(ws) + |rest| {
        forall i | 0 <= i < |ws| - 1 && ws[i].event.details.Unknown? ensures ws[i].payload == [] {
          if i > 0 {
            assert ws[1..][i - 1] == ws[i];
          }
        }
      }
    }
  }

  /** The parser gives back a JVM's events, and stops where their encoding stops, if and only if no unsupported
      event but the last has a payload. The unread bytes are part of the statement: the list alone can come
      out right by accident, when a payload happens to read as the event that follows it. */
  lemma {:induction false} ReadBackIfAndOnlyIfParsable(policy: u8, ws: seq<Wire>, rest: bytes)
    requires |ws| < 0x8000_0000 && forall i :: 0 <= i < |ws| ==> WellFormed(ws[i])
    ensures ParseEventSet(PutEventSet(policy, ws, rest)) == Success((EventSet(policy, EventsOf(ws)), Unread(ws, rest)))
            <==> Parsable(ws)
  {
    if Parsable(ws) {
      EventSetRoundTrip(policy, ws, rest);
    }
    if ParseEventSet(PutEventSet(policy, ws, rest)) == Success((EventSet(policy, EventsOf(ws)), Unread(ws, rest))) {
      ReadBackIsParsable(policy, ws, rest);
    }
  }

  lemma {:induction false} ReadBackIsParsable(policy: u8, ws: seq<Wire>, rest: bytes)
    requires |ws| < 0x8000_0000 && forall i :: 0 <= i < |ws| ==> WellFormed(ws[i])
    requires ParseEventSet(PutEventSet(policy, ws, rest)) == Success((EventSet(policy, EventsOf(ws)), Unread(ws, rest)))
    ensures Parsable(ws)
  {
    hide ParseEvents, PutEvents, ParseEventSet;
    SetHeaderWritten(policy, ws, rest);
    var b := PutEvents(ws, rest);
    assert ParseEvents(|ws|, b) == Success((EventsOf(ws), Unread(ws, rest)));
    EventsSized(|ws|, b);
    WrittenSize(ws, rest);
    UnreadSize(ws, rest);
  }
}
