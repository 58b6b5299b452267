/** The event loop's own code (`eventloop.rs`): the methods `event_loop_task` calls, each changing the
    loop's state in place and proved to do what `Loop` says. */
module EventLoop {
  import opened Wrappers
  import opened Bytes
  import opened Packets
  import opened EventTypes
  import opened Events
  import opened Loop
  import opened Engine

  /** What others do between two turns: callers and the consumer of events. */
  datatype Other = CommandQueued(ticket: nat) | CallerLeaves(ticket: nat) | ConsumerLeaves | EventTaken

  /** What one turn of the loop's `select!` finds ready, or what somebody else did since the last. */
  datatype Branch =
    | Outgoing(ticket: nat, packet: CommandPacket, writes: bool, flushes: bool, now: nat)
    | Interval(now: nat)
    | Incoming(received: Result<Frame>)
    | ChannelClosed
    | Meanwhile(other: Other)

  predicate Fits(b: Branch) {
    match b
    case Outgoing(t, packet, _, _, _) => packet.id == IdOf(t)
    case Interval(_) => true
    case Incoming(_) => true
    case ChannelClosed => true
    case Meanwhile(_) => true
  }

  /** What a packet, taken for an event's, parses to: the bytes after the header, or none if there are none. */
  function Announced(received: Result<Frame>): Option<EventSet> {
    if received.Failure? then None else ParsedEvent(received.value.full)
  }

  function ParsedEvent(full: bytes): Option<EventSet> {
    match ParseEventPacket(if |full| >= HEADER_SIZE then full[HEADER_SIZE..] else [])
    case Success(events) => Some(events)
    case Failure(_) => None
  }

  /** What a JVM writes for a composite event. */
  function EventPacket(id: u32, policy: u8, ws: seq<Wire>, rest: bytes): bytes
    requires |ws| < 0x8000_0000
  {
    EncodeCommand(CommandPacket(id, 64, 100, PutEventSet(policy, ws, rest)))
  }

  lemma EventPacketParses(id: u32, policy: u8, ws: seq<Wire>, rest: bytes)
    requires Parsable(ws) && |ws| < 0x8000_0000
    ensures |EventPacket(id, policy, ws, rest)| >= 11
    ensures ParseEventPacket(EventPacket(id, policy, ws, rest)[11..]) == Success(EventSet(policy, EventsOf(ws)))
  {
    var data := PutEventSet(policy, ws, rest);
    assert EventPacket(id, policy, ws, rest)[11..] == data;
    EventSetRoundTrip(policy, ws, rest);
  }

  function Elsewhere(l: LoopState, other: Other): LoopState {
    match other
    case CommandQueued(t) => l.(cells := l.cells[t := Waiting])
    case CallerLeaves(t) => l.(deaf := l.deaf + {t})
    case ConsumerLeaves => l.(consumerGone := true)
    case EventTaken => if l.events == [] then l else l.(events := l.events[1..])
  }

  /** One turn: the new state, and the cause if the loop stops. */
  function Turn(l: LoopState, b: Branch): (LoopState, Option<Cause>)
    requires Fits(b)
  {
    match b
    case Outgoing(t, _, writes, flushes, now) =>
      (if writes && flushes then Insert(l, t, now) else Tell(l, t, Failure(Io)), None)
    case Interval(now) => (Cleanup(l, now), None)
    case Incoming(received) => HandlePacket(l, received, Announced(received))
    case ChannelClosed => (l, Some(ReaderVanished))
    case Meanwhile(other) => (Elsewhere(l, other), None)
  }

  /** What the loop leaves behind once it stops: the cause first, then no pending entry. */
  function Stopped(l: LoopState, cause: Cause): LoopState {
    DropSenders(l.(shutdown := Some(cause)), PendingTickets(l)).(pending := map[])
  }

  function Turns(l: LoopState, branches: seq<Branch>): LoopState
    requires forall i :: 0 <= i < |branches| ==> Fits(branches[i])
    decreases |branches|
  {
    if branches == [] then l
    else
      var (l', cause) := Turn(l, branches[0]);
      if cause.Some? then Stopped(l', cause.value) else Turns(l', branches[1..])
  }

  /** What those turns write, command after command, up to the one that stops the loop. */
  function Output(l: LoopState, branches: seq<Branch>): bytes
    requires forall i :: 0 <= i < |branches| ==> Fits(branches[i])
    decreases |branches|
  {
    if branches == [] then []
    else
      var (l', cause) := Turn(l, branches[0]);
      var b := branches[0];
      (if b.Outgoing? && b.writes then EncodeCommand(b.packet) else [])
      + (if cause.Some? then [] else Output(l', branches[1..]))
  }

  class EventLoop {
    var pendingReplies: map<u32, Pending>
    var replies: map<nat, Cell>
    var deaf: set<nat>
    var shutdown: Option<Cause>
    var events: seq<EventSet>
    var consumerGone: bool
    var written: bytes

    function View(): LoopState
      reads this
    {
      LoopState(pendingReplies, replies, deaf, shutdown, events, consumerGone)
    }

    constructor (l: LoopState)
      ensures View() == l && written == []
    {
      pendingReplies, replies, deaf := l.pending, l.cells, l.deaf;
      shutdown, events, consumerGone := l.shutdown, l.events, l.consumerGone;
      written := [];
    }

    /** `oneshot::Sender::send(..).ok()`. */
    method Send(ticket: nat, outcome: Result<ReplyPacket>)
      modifies this`replies
      ensures View() == Tell(old(View()), ticket, outcome)
    {
      replies := replies[ticket := if ticket in deaf then Discarded else Done(outcome)];
    }

    /** Write, flush, and only then enter the command in the pending map. */
    method HandleOutgoingCommand(ticket: nat, packet: CommandPacket, writes: bool, flushes: bool, now: nat)
      requires packet.id == IdOf(ticket)
      modifies this
      ensures View() == Turn(old(View()), Outgoing(ticket, packet, writes, flushes, now)).0
      ensures written == old(written) + if writes then EncodeCommand(packet) else []
    {
      var encoded := EncodeCommand(packet);
      if !writes {
        Send(ticket, Failure(Io));
        return;
      }
      written := written + encoded;
      if !flushes {
        Send(ticket, Failure(Io));
        return;
      }
      if packet.id in pendingReplies {
        replies := replies[pendingReplies[packet.id].ticket := Dropped];
      }
      pendingReplies := pendingReplies[packet.id := Pending(ticket, now)];
    }

    /** The lapsed entries are listed first, so that none loses its sender before it is told. */
    method ListLapsed(now: nat) returns (lapsed: seq<u32>)
      ensures Among(lapsed) == LapsedIds(View(), now)
    {
      lapsed := [];
      var unseen := pendingReplies.Keys;
      while unseen != {}
        invariant unseen <= pendingReplies.Keys
        invariant forall id :: id in lapsed <==> id in LapsedIds(View(), now) && id !in unseen
        decreases |unseen|
      {
        var id :| id in unseen;
        unseen := unseen - {id};
        if now - pendingReplies[id].sentAt > REPLY_TIMEOUT_MS {
          lapsed := lapsed + [id];
        }
      }
    }

    method CleanupPendingReplies(now: nat)
      modifies this`pendingReplies, this`replies
      ensures View() == Cleanup(old(View()), now)
    {
      ghost var before := View();
      var lapsed := ListLapsed(now);
      var i := 0;
      while i < |lapsed|
        invariant 0 <= i <= |lapsed|
        invariant View() == CleanedUp(before, Among(lapsed[..i]))
      {
        var packetId := lapsed[i];
        if packetId in pendingReplies {
          var ticket := pendingReplies[packetId].ticket;
          pendingReplies := pendingReplies - {packetId};
          Send(ticket, Failure(ReplyTimeout(REPLY_TIMEOUT_SECS)));
        }
        CleanUpOne(before, Among(lapsed[..i]), packetId);
        assert Among(lapsed[..i + 1]) == Among(lapsed[..i]) + {packetId};
        i := i + 1;
      }
      assert lapsed[..i] == lapsed;
      CleanedUpAll(before, now);
    }

    method RouteReplyTo(packetId: u32, full: bytes)
      modifies this`pendingReplies, this`replies
      ensures View() == RouteReply(old(View()), packetId, full)
    {
      if packetId in pendingReplies {
        var pending := pendingReplies[packetId];
        pendingReplies := pendingReplies - {packetId};
        var decoded := DecodeReply(full);
        match decoded {
          case Success(reply) => Send(pending.ticket, Success(reply));
          case Failure(e) => Send(pending.ticket, Failure(e));
        }
      }
    }

    /** Never waits for the consumer: an event that does not fit is dropped, and so is one that does not parse. */
    method HandleEventPacket(full: bytes) returns (cause: Option<Cause>)
      modifies this`events
      ensures (View(), cause) == HandleEvent(old(View()), ParsedEvent(full))
      ensures var parsed := ParseEventPacket(if |full| >= 11 then full[11..] else []);
        && events == old(events)
                     + (if parsed.Success? && !consumerGone && |old(events)| < 256 then [parsed.value] else [])
        && cause == (if parsed.Success? && consumerGone then Some(ConsumerDropped) else None)
      ensures forall id: u32, policy: u8, ws: seq<Wire>, rest: bytes ::
        Parsable(ws) && |ws| < 0x8000_0000 && full == EventPacket(id, policy, ws, rest)
        && !consumerGone && |old(events)| < 256 ==>
          events == old(events) + [EventSet(policy, EventsOf(ws))]
    {
      forall id: u32, policy: u8, ws: seq<Wire>, rest: bytes |
        Parsable(ws) && |ws| < 0x8000_0000 && full == EventPacket(id, policy, ws, rest)
        ensures |full| >= 11 && ParseEventPacket(full[11..]) == Success(EventSet(policy, EventsOf(ws)))
      {
        EventPacketParses(id, policy, ws, rest);
      }
      hide EventPacket, ParseEventPacket, Parsable, EventsOf;
      cause := None;
      match ParseEventPacket(if |full| >= HEADER_SIZE then full[HEADER_SIZE..] else []) {
        case Failure(_) =>
        case Success(eventSet) =>
          if consumerGone {
            cause := Some(ConsumerDropped);
          } else if |events| < EVENT_CHANNEL_DEPTH {
            events := events + [eventSet];
          }
      }
    }

    method HandleIncomingPacket(received: Result<Frame>) returns (cause: Option<Cause>)
      modifies this`pendingReplies, this`replies, this`events
      ensures (View(), cause) == HandlePacket(old(View()), received, Announced(received))
    {
      match received {
        case Success(frame) =>
          if frame.isReply {
            RouteReplyTo(frame.id, frame.full);
            cause := None;
          } else {
            cause := HandleEventPacket(frame.full);
          }
        case Failure(e) => cause := Some(ReadFailed(e));
      }
    }

    /** Not the loop's code: what the callers and the consumer do to what they share with it. */
    method Share(other: Other)
      modifies this`replies, this`deaf, this`consumerGone, this`events
      ensures View() == Elsewhere(old(View()), other)
    {
      match other {
        case CommandQueued(t) => replies := replies[t := Waiting];
        case CallerLeaves(t) => deaf := deaf + {t};
        case ConsumerLeaves => consumerGone := true;
        case EventTaken =>
          if events != [] {
            events := events[1..];
          }
      }
    }

    /** One turn of `select!`. */
    method TakeTurn(b: Branch) returns (cause: Option<Cause>)
      requires Fits(b)
      modifies this
      ensures (View(), cause) == Turn(old(View()), b)
      ensures written == old(written) + if b.Outgoing? && b.writes then EncodeCommand(b.packet) else []
    {
      cause := None;
      match b {
        case Outgoing(ticket, packet, writes, flushes, now) =>
          HandleOutgoingCommand(ticket, packet, writes, flushes, now);
        case Interval(now) => CleanupPendingReplies(now);
        case Incoming(received) => cause := HandleIncomingPacket(received);
        case ChannelClosed => cause := Some(ReaderVanished);
        case Meanwhile(other) => Share(other);
      }
    }

    /** After the loop: the cause is recorded before the pending map is dropped. */
    method Stop(cause: Cause)
      modifies this`shutdown, this`replies, this`pendingReplies
      ensures View() == Stopped(old(View()), cause)
    {
      shutdown := Some(cause);
      replies := map t | t in replies :: if t in PendingTickets(View()) then Dropped else replies[t];
      pendingReplies := map[];
    }

    /** `event_loop_task`, over the branches its `select!` found ready. */
    method Task(branches: seq<Branch>)
      requires forall i :: 0 <= i < |branches| ==> Fits(branches[i])
      modifies this
      ensures View() == Turns(old(View()), branches) && written == old(written) + Output(old(View()), branches)
    {
      hide Turn, EncodeCommand, Stopped, Fits;
      var turn := 0;
      while turn < |branches|
        invariant 0 <= turn <= |branches|
        invariant Turns(old(View()), branches) == Turns(View(), branches[turn..])
        invariant old(written) + Output(old(View()), branches) == written + Output(View(), branches[turn..])
      {
        assert branches[turn..][0] == branches[turn] && branches[turn..][1..] == branches[turn + 1..];
        TurnOutput(View(), branches, turn);
        ghost var out, more := written, Output(View(), branches[turn..]);
        var cause := TakeTurn(branches[turn]);
        OutputSoFar(out, written, more, if cause.Some? then [] else Output(View(), branches[turn + 1..]));
        if cause.Some? {
          Stop(cause.value);
          return;
        }
        turn := turn + 1;
      }
    }
  }

  lemma OutputSoFar(out: bytes, out': bytes, more: bytes, rest: bytes)
    requires |out'| >= |out| && out' == out + out'[|out|..] && more == out'[|out|..] + rest
    ensures out + more == out' + rest
  {
  }

  lemma TurnOutput(l: LoopState, branches: seq<Branch>, turn: nat)
    requires turn < |branches| && forall i :: 0 <= i < |branches| ==> Fits(branches[i])
    ensures var b := branches[turn];
      Output(l, branches[turn..])
      == (if b.Outgoing? && b.writes then EncodeCommand(b.packet) else [])
         + (if Turn(l, b).1.Some? then [] else Output(Turn(l, b).0, branches[turn + 1..]))
  {
    assert branches[turn..][0] == branches[turn] && branches[turn..][1..] == branches[turn + 1..];
  }

  function Among(ids: seq<u32>): set<u32> {
    set id | id in ids
  }

  lemma CleanedUpAll(l: LoopState, now: nat)
    ensures CleanedUp(l, LapsedIds(l, now)) == Cleanup(l, now)
  {
    assert Told(l, LapsedIds(l, now)) == LapsedTickets(l, now);
  }

  function Told(l: LoopState, ids: set<u32>): set<nat> {
    set id | id in ids && id in l.pending :: l.pending[id].ticket
  }

  lemma ToldGrows(l: LoopState, ids: set<u32>, id: u32)
    ensures Told(l, ids + {id}) == Told(l, ids) + (if id in l.pending then {l.pending[id].ticket} else {})
  {
  }

  /** Cleanup of the entries under `ids` alone. */
  function CleanedUp(l: LoopState, ids: set<u32>): LoopState {
    var told := Told(l, ids);
    l.(pending := l.pending - ids,
       cells := map t | t in l.cells.Keys + told ::
         if t !in told then l.cells[t]
         else if t in l.deaf then Discarded
         else Done(Failure(ReplyTimeout(REPLY_TIMEOUT_SECS))))
  }

  lemma CleanUpOne(l: LoopState, ids: set<u32>, id: u32)
    ensures var l' := CleanedUp(l, ids);
      CleanedUp(l, ids + {id}) ==
        if id in l'.pending
          then Tell(l'.(pending := l'.pending - {id}), l'.pending[id].ticket, Failure(ReplyTimeout(REPLY_TIMEOUT_SECS)))
          else l'
  {
    ToldGrows(l, ids, id);
    hide Told;
    if id in ids {
      assert ids + {id} == ids;
    } else if id !in l.pending {
      assert l.pending - (ids + {id}) == l.pending - ids;
    } else {
      assert l.pending - (ids + {id}) == l.pending - ids - {id};
    }
  }

  // ----- turns of the loop are steps of the engine -----

  /** The engine steps a branch stands for: a command is written and entered before the next packet. */
  function Steps(s: State, b: Branch): seq<Action> {
    match b
    case Outgoing(_, _, writes, flushes, _) =>
      if writes && flushes then [Dequeue, Write, Register] else [Dequeue, FailWrite(writes)]
    case Interval(_) => [Tick]
    case Incoming(received) => [TakePacket(Announced(received))]
    case ChannelClosed => [FindClosed]
    case Meanwhile(CommandQueued(t)) => [Issue(t)]
    case Meanwhile(CallerLeaves(t)) => [Abandon(t)]
    case Meanwhile(ConsumerLeaves) => [DropConsumer]
    case Meanwhile(EventTaken) => [TakeEvent]
  }

  /** The branch is what the engine's state offers. */
  predicate Offered(s: State, b: Branch) {
    && s.phase == Running && s.hand == Empty && Fits(b)
    && match b
       case Outgoing(t, _, _, _, now) => s.queue != [] && t == s.queue[0] && now == s.now
       case Interval(now) => now == s.now
       case Incoming(received) => s.channel != [] && received == s.channel[0]
       case ChannelClosed => s.channel == [] && s.readerDone
       case Meanwhile(_) => Enabled(s, Steps(s, b)[0])
  }

  lemma {:induction false} TurnIsSteps(s: State, b: Branch)
    requires Offered(s, b)
    ensures Legal(s, Steps(s, b))
    ensures After(s, Steps(s, b)).loop == Turn(s.loop, b).0
    ensures After(s, Steps(s, b)).hand == Empty
    ensures After(s, Steps(s, b)).phase
            == (if Turn(s.loop, b).1.Some? then Stopping(Turn(s.loop, b).1.value) else Running)
  {
    match b {
      case Outgoing(_, _, _, _, _) => OutgoingIsSteps(s, b);
      case Interval(_) => OneStep(s, Tick);
      case Incoming(received) => OneStep(s, TakePacket(Announced(received)));
      case ChannelClosed => OneStep(s, FindClosed);
      case Meanwhile(other) => MeanwhileIsStep(s, other);
    }
  }

  lemma {:induction false} OutgoingIsSteps(s: State, b: Branch)
    requires Offered(s, b) && b.Outgoing?
    ensures Legal(s, Steps(s, b)) && After(s, Steps(s, b)).loop == Turn(s.loop, b).0
    ensures After(s, Steps(s, b)).hand == Empty && After(s, Steps(s, b)).phase == Running
  {
    hide Legal, After;
    if b.writes && b.flushes {
      ThreeSteps(s, Dequeue, Write, Register);
    } else {
      TwoSteps(s, Dequeue, FailWrite(b.writes));
    }
  }

  lemma {:induction false} MeanwhileIsStep(s: State, other: Other)
    requires Offered(s, Meanwhile(other))
    ensures var a := Steps(s, Meanwhile(other))[0];
      && Legal(s, [a]) && After(s, [a]).loop == Elsewhere(s.loop, other)
      && After(s, [a]).hand == Empty && After(s, [a]).phase == Running
  {
    OneStep(s, Steps(s, Meanwhile(other))[0]);
  }

  lemma {:induction false} OneStep(s: State, a: Action)
    requires Enabled(s, a)
    ensures Legal(s, [a]) && After(s, [a]) == Apply(s, a)
  {
    assert [a][1..] == [];
  }

  lemma {:induction false} TwoSteps(s: State, a: Action, b: Action)
    requires Enabled(s, a) && Enabled(Apply(s, a), b)
    ensures Legal(s, [a, b]) && After(s, [a, b]) == Apply(Apply(s, a), b)
  {
    assert [a, b][1..] == [b];
    OneStep(Apply(s, a), b);
  }

  lemma {:induction false} ThreeSteps(s: State, a: Action, b: Action, c: Action)
    requires Enabled(s, a) && Enabled(Apply(s, a), b) && Enabled(Apply(Apply(s, a), b), c)
    ensures Legal(s, [a, b, c]) && After(s, [a, b, c]) == Apply(Apply(Apply(s, a), b), c)
  {
    assert [a, b, c][1..] == [b, c];
    TwoSteps(Apply(s, a), b, c);
  }

  /** What `Stopped` says is what the engine does once it has a cause, up to closing the queue. */
  lemma {:induction false} StopIsSteps(s: State)
    requires s.phase.Stopping?
    ensures Legal(s, [RecordCause, DropPending])
    ensures After(s, [RecordCause, DropPending]).loop == Stopped(s.loop, s.phase.cause)
  {
    TwoSteps(s, RecordCause, DropPending);
  }
}
