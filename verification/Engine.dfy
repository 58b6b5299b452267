/** The request/reply engine as a transition system: callers, the loop's `select!`, the reader task, the
    byte stream and the JVM, interleaved in every possible way. */
module Engine {
  import opened Wrappers
  import opened Bytes
  import opened Packets
  import opened EventTypes
  import opened Loop

  const COMMAND_CHANNEL_DEPTH := 32
  const PACKET_CHANNEL_DEPTH := 8

  /** The command the loop's current `select!` branch is on: no packet is routed until it is done. */
  datatype Hand = Empty | Writing(ticket: nat) | Written(ticket: nat)

  /** Exit order: break with a cause, record it, drop the pending map, drop the command channel. */
  datatype Phase = Running | Stopping(cause: Cause) | Recorded | Emptied | Exited

  datatype State = State(
    loop: LoopState,
    now: nat,
    drawn: nat,             // ids drawn from the counter
    queue: seq<nat>,            // the command channel
    hand: Hand,
    phase: Phase,
    toPeer: seq<nat>,           // written, not yet read by the JVM
    atPeer: set<nat>,           // read by the JVM, not yet answered
    answers: map<nat, ReplyPacket>,
    stream: bytes,              // sent by the JVM, not yet read
    partial: bytes,             // the reader's buffer
    channel: seq<Result<Frame>>,
    hungUp: Option<bytes>,      // the bytes after the JVM's last whole packet, once it is gone
    readerDone: bool,
    // history
    flight: seq<Frame>,         // packets sent and not yet taken by the loop
    askers: seq<Option<nat>>,   // which command each of them answers, if it is a reply
    framed: nat,                // how many of them have reached the channel
    received: bytes,            // everything the reader has read
    emitted: seq<Frame>,        // everything the reader has put on the channel
    lapsed: set<nat>,           // told ReplyTimeout
    failed: set<nat>)           // told Io

  datatype Action =
    | Draw
    | Issue(t: nat)
    | Abandon(t: nat)
    | Dequeue
    | Write
    | FailWrite(reached: bool)
    | Register
    | Tick
    | Advance(ms: nat)
    | PeerRead
    | PeerAnswer(t: nat, errorCode: u16, data: bytes)
    | PeerEvent(id: u32, data: bytes)
    | PeerHangUp(junk: bytes)
    | ReaderRead(n: nat)
    | ReaderEmit
    | ReaderFail
    | TakePacket(event: Option<EventSet>) // what the packet parses to, if it is an event's
    | FindClosed
    | RecordCause
    | DropPending
    | CloseQueue
    | DropConsumer
    | TakeEvent

  function Init(): State {
    State(LoopState(map[], map[], {}, None, [], false), 0, 0, [], Empty, Running,
          [], {}, map[], [], [], [], None, false, [], [], 0, [], [], {}, {})
  }

  function EventFrame(id: u32, data: bytes): Frame
    requires HEADER_SIZE + |data| <= MAX_PACKET_SIZE
  {
    Frame(false, id, EncodeCommand(CommandPacket(id, 64, 100, data)))
  }

  function ReplyFrame(r: ReplyPacket): Frame
    requires HEADER_SIZE + |r.data| <= MAX_PACKET_SIZE
  {
    Frame(true, r.id, EncodeReply(r))
  }

  predicate Enabled(s: State, a: Action) {
    match a
    case Draw => true
    case Issue(t) => t < s.drawn && t !in s.loop.cells && (s.phase != Exited ==> |s.queue| < COMMAND_CHANNEL_DEPTH)
    case Abandon(t) => t in s.loop.cells
    case Dequeue => s.phase == Running && s.hand == Empty && s.queue != []
    case Write => s.hand.Writing?
    case FailWrite(_) => s.hand.Writing?
    case Register => s.hand.Written?
    case Tick => s.phase == Running && s.hand == Empty
    case Advance(_) => true
    case PeerRead => s.toPeer != []
    case PeerAnswer(t, _, data) => t in s.atPeer && s.hungUp.None? && HEADER_SIZE + |data| <= MAX_PACKET_SIZE
    case PeerEvent(_, data) => s.hungUp.None? && HEADER_SIZE + |data| <= MAX_PACKET_SIZE
    case PeerHangUp(junk) => s.hungUp.None? && !Complete(junk)
    case ReaderRead(n) => !s.readerDone && 0 < n <= |s.stream| && |s.partial| + n <= Wanted(s.partial)
    case ReaderEmit => !s.readerDone && Complete(s.partial) && |s.channel| < PACKET_CHANNEL_DEPTH
    case ReaderFail =>
      && !s.readerDone && |s.channel| < PACKET_CHANNEL_DEPTH && !Complete(s.partial)
      && (Foreign(s.partial) || s.hungUp.Some?) // a reset loses what was not read
    case TakePacket(_) => CanTake(s)
    // the reader is gone and nothing is left of what it sent
    case FindClosed => s.phase == Running && s.hand == Empty && s.channel == [] && s.readerDone
    case RecordCause => s.phase.Stopping?
    case DropPending => s.phase == Recorded
    case CloseQueue => s.phase == Emptied
    case DropConsumer => true
    case TakeEvent => s.loop.events != []
  }

  function Send(s: State, f: Frame, asker: Option<nat>): State {
    s.(stream := s.stream + f.full, flight := s.flight + [f], askers := s.askers + [asker])
  }

  function Issued(s: State, t: nat): State {
    if s.phase == Exited then s.(loop := s.loop.(cells := s.loop.cells[t := Dropped]))
    else s.(loop := s.loop.(cells := s.loop.cells[t := Waiting]), queue := s.queue + [t])
  }

  function Dequeued(s: State): State
    requires s.queue != []
  {
    s.(hand := Writing(s.queue[0]), queue := s.queue[1..])
  }

  function Wrote(s: State): State
    requires s.hand.Writing?
  {
    s.(hand := Written(s.hand.ticket), toPeer := s.toPeer + [s.hand.ticket])
  }

  function FailedWrite(s: State, reached: bool): State
    requires s.hand.Writing?
  {
    s.(loop := Tell(s.loop, s.hand.ticket, Failure(Io)), hand := Empty, failed := s.failed + {s.hand.ticket},
       toPeer := if reached then s.toPeer + [s.hand.ticket] else s.toPeer)
  }

  function Registered(s: State): State
    requires s.hand.Written?
  {
    s.(loop := Insert(s.loop, s.hand.ticket, s.now), hand := Empty)
  }

  function Ticked(s: State): State {
    s.(loop := Cleanup(s.loop, s.now), lapsed := s.lapsed + LapsedTickets(s.loop, s.now))
  }

  function Answered(s: State, t: nat, errorCode: u16, data: bytes): State
    requires HEADER_SIZE + |data| <= MAX_PACKET_SIZE
  {
    var reply := ReplyPacket(IdOf(t), errorCode, data);
    Send(s.(atPeer := s.atPeer - {t}, answers := s.answers[t := reply]), ReplyFrame(reply), Some(t))
  }

  function Received(s: State, n: nat): State
    requires n <= |s.stream|
  {
    s.(partial := s.partial + s.stream[..n], received := s.received + s.stream[..n], stream := s.stream[n..])
  }

  function Emitted(s: State): State
    requires Complete(s.partial)
  {
    var f := FrameOf(s.partial);
    s.(channel := s.channel + [Success(f)], partial := [], framed := s.framed + 1, emitted := s.emitted + [f])
  }

  function ReadError(s: State): JdwpError {
    if Foreign(s.partial) then NotJdwpFramed else Io
  }

  function ReaderFailed(s: State): State {
    s.(channel := s.channel + [Failure(ReadError(s))], readerDone := true)
  }

  predicate CanTake(s: State) {
    s.phase == Running && s.hand == Empty && s.channel != []
  }

  function Took(s: State, event: Option<EventSet>): State
    requires CanTake(s)
  {
    var (loop, cause) := HandlePacket(s.loop, s.channel[0], event);
    var fromFlight := s.channel[0].Success? && s.flight != [] && s.framed > 0;
    s.(loop := loop, channel := s.channel[1..], phase := if cause.Some? then Stopping(cause.value) else Running,
       flight := if fromFlight then s.flight[1..] else s.flight,
       askers := if fromFlight && s.askers != [] then s.askers[1..] else s.askers,
       framed := if fromFlight then s.framed - 1 else s.framed)
  }

  function DroppedPending(s: State): State {
    s.(phase := Emptied, loop := DropSenders(s.loop, PendingTickets(s.loop)).(pending := map[]))
  }

  function ClosedQueue(s: State): State {
    s.(phase := Exited, queue := [], loop := DropSenders(s.loop, set t | t in s.queue))
  }

  function Apply(s: State, a: Action): State
    requires Enabled(s, a)
  {
    match a
    case Draw => s.(drawn := s.drawn + 1)
    case Issue(t) => Issued(s, t)
    case Abandon(t) => s.(loop := s.loop.(deaf := s.loop.deaf + {t}))
    case Dequeue => Dequeued(s)
    case Write => Wrote(s)
    case FailWrite(reached) => FailedWrite(s, reached)
    case Register => Registered(s)
    case Tick => Ticked(s)
    case Advance(ms) => s.(now := s.now + ms)
    case PeerRead => s.(atPeer := s.atPeer + {s.toPeer[0]}, toPeer := s.toPeer[1..])
    case PeerAnswer(t, errorCode, data) => Answered(s, t, errorCode, data)
    case PeerEvent(id, data) => Send(s, EventFrame(id, data), None)
    case PeerHangUp(junk) => s.(hungUp := Some(junk), stream := s.stream + junk)
    case ReaderRead(n) => Received(s, n)
    case ReaderEmit => Emitted(s)
    case ReaderFail => ReaderFailed(s)
    case TakePacket(event) => Took(s, event)
    case FindClosed => s.(phase := Stopping(ReaderVanished))
    case RecordCause => s.(phase := Recorded, loop := s.loop.(shutdown := Some(s.phase.cause)))
    case DropPending => DroppedPending(s)
    case CloseQueue => ClosedQueue(s)
    case DropConsumer => s.(loop := s.loop.(consumerGone := true))
    case TakeEvent => s.(loop := s.loop.(events := s.loop.events[1..]))
  }

  /** The actions can be taken one after the other. */
  predicate Legal(s: State, actions: seq<Action>)
    decreases |actions|
  {
    actions == [] || (Enabled(s, actions[0]) && Legal(Apply(s, actions[0]), actions[1..]))
  }

  function After(s: State, actions: seq<Action>): State
    requires Legal(s, actions)
    decreases |actions|
  {
    if actions == [] then s else After(Apply(s, actions[0]), actions[1..])
  }

  lemma {:induction false} LegalThen(s: State, first: seq<Action>, a: Action)
    requires Legal(s, first) && Enabled(After(s, first), a)
    ensures Legal(s, first + [a]) && After(s, first + [a]) == Apply(After(s, first), a)
    decreases |first|
  {
    if first == [] {
      assert [a][1..] == [] && Legal(Apply(s, a), [a][1..]);
      assert first + [a] == [a];
    } else {
      LegalThen(Apply(s, first[0]), first[1..], a);
      assert (first + [a])[0] == first[0] && (first + [a])[1..] == first[1..] + [a];
    }
  }
}
