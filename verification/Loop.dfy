/** What the event loop does with its own state (`eventloop.rs`): the pending map, the oneshot cell behind
    each issued command, the shutdown cause and the event channel.

    A command is named by its ticket, the number of ids drawn before its own; `IdOf` is the packet id the
    32-bit counter gave it. */
module Loop {
  import opened Wrappers
  import opened Bytes
  import opened Packets
  import opened EventTypes

  const REPLY_TIMEOUT_SECS := 30
  const REPLY_TIMEOUT_MS := 30_000
  const EVENT_CHANNEL_DEPTH := 256
  const ID_SPACE := 0x1_0000_0000

  /** `next_id`: a u32 that starts at 1 and wraps. */
  function IdOf(ticket: nat): u32 {
    (1 + ticket) % ID_SPACE
  }

  /** The oneshot of one command: sender alive, answered, sender dropped, or answered to nobody. */
  datatype Cell = Waiting | Done(outcome: Result<ReplyPacket>) | Dropped | Discarded

  datatype Pending = Pending(ticket: nat, sentAt: nat)

  datatype LoopState = LoopState(
    pending: map<u32, Pending>,
    cells: map<nat, Cell>,
    deaf: set<nat>, // commands whose caller stopped waiting
    shutdown: Option<Cause>,
    events: seq<EventSet>,
    consumerGone: bool)

  /** `sender.send(outcome).ok()`. */
  function Tell(l: LoopState, t: nat, outcome: Result<ReplyPacket>): LoopState {
    l.(cells := l.cells[t := if t in l.deaf then Discarded else Done(outcome)])
  }

  /** `pending_replies.insert`: an entry already under this id loses its sender without a word. */
  function Insert(l: LoopState, t: nat, now: nat): LoopState {
    var cells := if IdOf(t) in l.pending then l.cells[l.pending[IdOf(t)].ticket := Dropped] else l.cells;
    l.(pending := l.pending[IdOf(t) := Pending(t, now)], cells := cells)
  }

  function LapsedIds(l: LoopState, now: nat): set<u32> {
    set id | id in l.pending && now - l.pending[id].sentAt > REPLY_TIMEOUT_MS
  }

  function LapsedTickets(l: LoopState, now: nat): set<nat> {
    set id | id in LapsedIds(l, now) :: l.pending[id].ticket
  }

  /** `cleanup_pending_replies`: exactly the entries older than the budget go, and each is told so. */
  function Cleanup(l: LoopState, now: nat): LoopState {
    var lapsed := LapsedTickets(l, now);
    l.(pending := l.pending - LapsedIds(l, now),
       cells := map t | t in l.cells.Keys + lapsed ::
         if t !in lapsed then l.cells[t]
         else if t in l.deaf then Discarded
         else Done(Failure(ReplyTimeout(REPLY_TIMEOUT_SECS))))
  }

  /** `route_reply`: the id the framing layer read decides, and nothing else. */
  function RouteReply(l: LoopState, id: u32, full: bytes): LoopState {
    if id in l.pending then Tell(l.(pending := l.pending - {id}), l.pending[id].ticket, DecodeReply(full)) else l
  }

  /** `handle_event_packet`, for what the packet parses to, if it parses: never blocks, so a full channel drops
      the event. */
  function HandleEvent(l: LoopState, event: Option<EventSet>): (r: (LoopState, Option<Cause>))
    ensures r.0 == l.(events := r.0.events) // no event touches a command
    ensures |r.0.events| <= |l.events| + 1
  {
    match event
    case None => (l, None)
    case Some(events) =>
      if l.consumerGone then (l, Some(ConsumerDropped))
      else if |l.events| >= EVENT_CHANNEL_DEPTH then (l, None)
      else (l.(events := l.events + [events]), None)
  }

  /** `handle_incoming_packet`: a cause means the loop stops. `event` is what the packet parses to if it is an
      event's. */
  function HandlePacket(l: LoopState, received: Result<Frame>, event: Option<EventSet>): (r: (LoopState, Option<Cause>))
    ensures received.Success? && received.value.isReply ==>
      r == (RouteReply(l, received.value.id, received.value.full), None)
    ensures received.Failure? || !received.value.isReply ==> r.0 == l.(events := r.0.events)
    ensures received.Failure? ==> r.1 == Some(ReadFailed(received.error))
  {
    match received
    case Success(f) => if f.isReply then (RouteReply(l, f.id, f.full), None) else HandleEvent(l, event)
    case Failure(e) => (l, Some(ReadFailed(e)))
  }

  /** `drop(pending_replies)`, and the queue's senders when the receiver goes. */
  function DropSenders(l: LoopState, tickets: set<nat>): LoopState {
    l.(cells := map t | t in l.cells :: if t in tickets then Dropped else l.cells[t])
  }

  function PendingTickets(l: LoopState): set<nat> {
    set id | id in l.pending :: l.pending[id].ticket
  }

  /** `lost`: the error of a command that will never be answered. */
  function Lost(shutdown: Option<Cause>): JdwpError {
    match shutdown
    case None => NoReasonRecorded
    case Some(cause) => ConnectionClosed(cause)
  }

  /** What `InFlight::reply` returns by now, if anything. */
  function Observe(l: LoopState, t: nat): Option<Result<ReplyPacket>>
    requires t in l.cells
  {
    match l.cells[t]
    case Done(outcome) => Some(outcome)
    case Dropped => Some(Failure(Lost(l.shutdown)))
    case Waiting => None
    case Discarded => None
  }
}
