/** What becomes of the packets a JVM sends: the loop takes them in the order they were sent, and the consumer gets
    every event set that the loop took while the consumer was there and had room for it, in order and no other. */
module EventDelivery {
  import opened Wrappers
  import opened Bytes
  import opened Packets
  import opened EventTypes
  import opened Events
  import opened Loop
  import opened Engine
  import opened EngineInvariant
  import opened EngineHistory
  import EventLoop

  // ----- packets are taken in the order they were sent -----

  function SentNow(s: State, a: Action): seq<Frame>
    requires Enabled(s, a)
  {
    match a
    case PeerAnswer(t, errorCode, data) => [ReplyFrame(ReplyPacket(IdOf(t), errorCode, data))]
    case PeerEvent(id, data) => [EventFrame(id, data)]
    case _ => []
  }

  function TakenNow(s: State, a: Action): seq<Frame>
    requires Enabled(s, a)
  {
    if a.TakePacket? && s.channel[0].Success? then [s.channel[0].value] else []
  }

  function SentBy(s: State, actions: seq<Action>): seq<Frame>
    requires Legal(s, actions)
    decreases |actions|
  {
    if actions == [] then [] else SentNow(s, actions[0]) + SentBy(Apply(s, actions[0]), actions[1..])
  }

  function TakenBy(s: State, actions: seq<Action>): seq<Frame>
    requires Legal(s, actions)
    decreases |actions|
  {
    if actions == [] then [] else TakenNow(s, actions[0]) + TakenBy(Apply(s, actions[0]), actions[1..])
  }

  lemma FlightStep(s: State, a: Action)
    requires Framing(s) && Enabled(s, a)
    ensures s.flight + SentNow(s, a) == TakenNow(s, a) + Apply(s, a).flight
  {
    hide FrameOf, EventFrame, ReplyFrame, Complete, Wanted, HandlePacket, Owed, AllWellFramed;
    if !MovesFlight(a) {
      FlightUntouched(s, a);
    } else if a.TakePacket? && s.channel[0].Success? {
      assert s.channel[0] == Success(s.flight[0]);
    }
  }

  /** However the bytes were split and whatever ran in between, the packets the loop took are the first of those
      the JVM sent, in order, and the others are still in flight. */
  lemma {:induction false} TakenInOrder(s: State, actions: seq<Action>)
    requires Framing(s) && Legal(s, actions)
    ensures s.flight + SentBy(s, actions) == TakenBy(s, actions) + After(s, actions).flight
    decreases |actions|
  {
    hide Framing;
    if actions != [] {
      var a, s' := actions[0], Apply(s, actions[0]);
      FlightStep(s, a);
      FramingKept(s, a);
      TakenInOrder(s', actions[1..]);
      InStep(s.flight, SentNow(s, a), TakenNow(s, a), s'.flight, SentBy(s', actions[1..]), TakenBy(s', actions[1..]),
             After(s, actions).flight);
    }
  }

  lemma InStep<T>(before: seq<T>, added: seq<T>, taken: seq<T>, after: seq<T>, more: seq<T>, takenLater: seq<T>,
                  left: seq<T>)
    requires before + added == taken + after && after + more == takenLater + left
    ensures before + (added + more) == (taken + takenLater) + left
  {
    assert before + (added + more) == (before + added) + more;
    assert (taken + after) + more == taken + (after + more);
  }

  // ----- events reach the consumer -----

  /** The loop takes an event's packet for what it parses to. */
  predicate Parses(s: State, a: Action) {
    a.TakePacket? && s.channel != [] && s.channel[0].Success? ==>
      a.event == EventLoop.ParsedEvent(s.channel[0].value.full)
  }

  predicate ParsesAll(s: State, actions: seq<Action>)
    requires Legal(s, actions)
    decreases |actions|
  {
    actions != [] ==> Parses(s, actions[0]) && ParsesAll(Apply(s, actions[0]), actions[1..])
  }

  /** The event set of the packet taken now, if the consumer is there and fewer than 256 are waiting for it. */
  function Due(s: State, a: Action): seq<EventSet>
    requires Enabled(s, a)
  {
    var taken := TakenNow(s, a);
    if taken == [] || taken[0].isReply || s.loop.consumerGone || |s.loop.events| >= 256 then []
    else
      var full := taken[0].full;
      match ParseEventPacket(if |full| >= 11 then full[11..] else [])
      case Success(events) => [events]
      case Failure(_) => []
  }

  function Received(s: State, a: Action): seq<EventSet>
    requires Enabled(s, a)
  {
    if a.TakeEvent? then [s.loop.events[0]] else []
  }

  function DueBy(s: State, actions: seq<Action>): seq<EventSet>
    requires Legal(s, actions)
    decreases |actions|
  {
    if actions == [] then [] else Due(s, actions[0]) + DueBy(Apply(s, actions[0]), actions[1..])
  }

  function ReceivedBy(s: State, actions: seq<Action>): seq<EventSet>
    requires Legal(s, actions)
    decreases |actions|
  {
    if actions == [] then [] else Received(s, actions[0]) + ReceivedBy(Apply(s, actions[0]), actions[1..])
  }

  lemma EventsUntouched(s: State, a: Action)
    requires Enabled(s, a) && !a.TakePacket? && !a.TakeEvent?
    ensures Apply(s, a).loop.events == s.loop.events
  {
    hide LapsedIds, LapsedTickets, PendingTickets, FrameOf, EventFrame, ReplyFrame, ReadError, Complete, Wanted;
  }

  lemma EventTaken(s: State, event: Option<EventSet>)
    requires CanTake(s) && Parses(s, TakePacket(event))
    ensures Took(s, event).loop.events == s.loop.events + Due(s, TakePacket(event))
  {
  }

  lemma EventsStep(s: State, a: Action)
    requires Enabled(s, a) && Parses(s, a)
    ensures s.loop.events + Due(s, a) == Received(s, a) + Apply(s, a).loop.events
  {
    if a.TakePacket? {
      EventTaken(s, a.event);
    } else if !a.TakeEvent? {
      EventsUntouched(s, a);
    }
  }

  /** For every run: what the consumer has received, followed by what waits for it, is exactly the event sets of
      the packets taken while it was there and had room, in the order they were taken. */
  lemma {:induction false} ConsumerGetsWhatIsDue(s: State, actions: seq<Action>)
    requires Legal(s, actions) && ParsesAll(s, actions)
    ensures s.loop.events + DueBy(s, actions) == ReceivedBy(s, actions) + After(s, actions).loop.events
    decreases |actions|
  {
    if actions != [] {
      var a, s' := actions[0], Apply(s, actions[0]);
      EventsStep(s, a);
      ConsumerGetsWhatIsDue(s', actions[1..]);
      hide Due, Received, Apply, Parses;
      InStep(s.loop.events, Due(s, a), Received(s, a), s'.loop.events, DueBy(s', actions[1..]),
             ReceivedBy(s', actions[1..]), After(s, actions).loop.events);
    }
  }

  /** A composite event the JVM sent is due as the events it was sent for. */
  lemma SentEventIsDue(s: State, a: Action, id: u32, policy: u8, ws: seq<Wire>, rest: bytes)
    requires Enabled(s, a) && Parsable(ws) && |ws| < 0x8000_0000
    requires HEADER_SIZE + |PutEventSet(policy, ws, rest)| <= MAX_PACKET_SIZE
    requires TakenNow(s, a) == [EventFrame(id, PutEventSet(policy, ws, rest))]
    requires !s.loop.consumerGone && |s.loop.events| < 256
    ensures Due(s, a) == [EventSet(policy, EventsOf(ws))]
  {
    EventLoop.EventPacketParses(id, policy, ws, rest);
  }
}
