/** What every reachable state of the engine satisfies, step by step, as long as ids are not shared; and they
    are not while no more than 2^32 of them have been drawn. */
module EngineInvariant {
  import opened Wrappers
  import opened Bytes
  import opened Packets
  import opened EventTypes
  import opened Loop
  import opened Engine

  type Cells = map<nat, Cell>
  type PendingMap = map<u32, Pending>

  predicate Live(cells: Cells, t: nat) {
    t in cells && cells[t] == Waiting
  }

  predicate InHand(hand: Hand, t: nat) {
    hand != Empty && hand.ticket == t
  }

  predicate IsPending(pending: PendingMap, t: nat) {
    IdOf(t) in pending && pending[IdOf(t)].ticket == t
  }

  ghost predicate NoDuplicates(q: seq<nat>) {
    forall i, j :: 0 <= i < j < |q| ==> q[i] != q[j]
  }

  /** Every live command is in exactly one place: queue, hand or pending map. */
  ghost predicate Placed(cells: Cells, pending: PendingMap, drawn: nat, queue: seq<nat>, hand: Hand) {
    && (forall t :: t in cells ==> t < drawn)
    && NoDuplicates(queue)
    && (forall t :: t in queue ==> Live(cells, t) && !InHand(hand, t))
    && (hand != Empty ==> Live(cells, hand.ticket))
    && (forall id :: id in pending ==> PendingPlaced(cells, pending, queue, hand, id))
    && (forall t :: Live(cells, t) ==> t in queue || InHand(hand, t) || IsPending(pending, t))
  }

  ghost predicate PendingPlaced(cells: Cells, pending: PendingMap, queue: seq<nat>, hand: Hand, id: u32)
    requires id in pending
  {
    var t := pending[id].ticket;
    IdOf(t) == id && Live(cells, t) && t !in queue && !InHand(hand, t)
  }

  lemma PlacedDequeue(cells: Cells, pending: PendingMap, drawn: nat, queue: seq<nat>)
    requires Placed(cells, pending, drawn, queue, Empty) && queue != []
    ensures Placed(cells, pending, drawn, queue[1..], Writing(queue[0]))
  {
    forall id | id in pending ensures PendingPlaced(cells, pending, queue[1..], Writing(queue[0]), id) {
      assert PendingPlaced(cells, pending, queue, Empty, id);
    }
  }

  /** Entering a command under an id nobody outstanding has displaces nobody. */
  lemma PlacedRegister(l: LoopState, drawn: nat, queue: seq<nat>, t: nat, now: nat)
    requires Placed(l.cells, l.pending, drawn, queue, Written(t)) && IdOf(t) !in l.pending
    ensures Placed(Insert(l, t, now).cells, Insert(l, t, now).pending, drawn, queue, Empty)
    ensures Insert(l, t, now).cells == l.cells
  {
    forall id | id in Insert(l, t, now).pending
      ensures PendingPlaced(l.cells, Insert(l, t, now).pending, queue, Empty, id)
    {
      if id != IdOf(t) {
        assert PendingPlaced(l.cells, l.pending, queue, Written(t), id);
      }
    }
  }

  /** Removing a pending entry and completing its command. */
  lemma PlacedComplete(cells: Cells, pending: PendingMap, drawn: nat, queue: seq<nat>, id: u32, c: Cell)
    requires Placed(cells, pending, drawn, queue, Empty) && id in pending && c != Waiting
    ensures Placed(cells[pending[id].ticket := c], pending - {id}, drawn, queue, Empty)
  {
    assert PendingPlaced(cells, pending, queue, Empty, id);
    forall other | other in pending - {id}
      ensures PendingPlaced(cells[pending[id].ticket := c], pending - {id}, queue, Empty, other)
    {
      assert PendingPlaced(cells, pending, queue, Empty, other);
    }
  }

  lemma LapsedAreTheirTickets(l: LoopState, drawn: nat, queue: seq<nat>, now: nat, t: nat)
    requires Placed(l.cells, l.pending, drawn, queue, Empty)
    ensures t in LapsedTickets(l, now) <==> IsPending(l.pending, t) && IdOf(t) in LapsedIds(l, now)
  {
    if t in LapsedTickets(l, now) {
      var id :| id in LapsedIds(l, now) && l.pending[id].ticket == t;
      assert PendingPlaced(l.cells, l.pending, queue, Empty, id);
    }
  }

  lemma PlacedTick(l: LoopState, drawn: nat, queue: seq<nat>, now: nat)
    requires Placed(l.cells, l.pending, drawn, queue, Empty)
    ensures Placed(Cleanup(l, now).cells, Cleanup(l, now).pending, drawn, queue, Empty)
    ensures Cleanup(l, now).cells.Keys == l.cells.Keys
    ensures forall t :: t in LapsedTickets(l, now) ==> Live(l.cells, t)
  {
    var l' := Cleanup(l, now);
    forall t ensures t in LapsedTickets(l, now) <==> IsPending(l.pending, t) && IdOf(t) in LapsedIds(l, now) {
      LapsedAreTheirTickets(l, drawn, queue, now, t);
    }
    forall t | t in LapsedTickets(l, now) ensures Live(l.cells, t) && t !in queue {
      assert PendingPlaced(l.cells, l.pending, queue, Empty, IdOf(t));
    }
    forall id | id in l'.pending ensures PendingPlaced(l'.cells, l'.pending, queue, Empty, id) {
      assert PendingPlaced(l.cells, l.pending, queue, Empty, id);
    }
  }

  lemma PlacedDropPending(l: LoopState, drawn: nat, queue: seq<nat>)
    requires Placed(l.cells, l.pending, drawn, queue, Empty)
    ensures Placed(DropSenders(l, PendingTickets(l)).cells, map[], drawn, queue, Empty)
  {
    forall id | id in l.pending ensures l.pending[id].ticket !in queue {
      assert PendingPlaced(l.cells, l.pending, queue, Empty, id);
    }
    forall t | IsPending(l.pending, t) ensures t in PendingTickets(l) {
      assert IdOf(t) in l.pending;
    }
  }

  lemma PlacedCloseQueue(l: LoopState, drawn: nat, queue: seq<nat>)
    requires Placed(l.cells, map[], drawn, queue, Empty)
    ensures Placed(DropSenders(l, set t | t in queue).cells, map[], drawn, [], Empty)
  {
  }

  ghost predicate SPlaced(s: State) {
    Placed(s.loop.cells, s.loop.pending, s.drawn, s.queue, s.hand)
  }

  // ----- why a command may have lost its sender -----

  ghost predicate Explained(l: LoopState, phase: Phase, hand: Hand, queue: seq<nat>) {
    && (l.shutdown.Some? <==> phase.Recorded? || phase.Emptied? || phase.Exited?)
    && (forall t :: t in l.cells && l.cells[t] == Dropped ==> l.shutdown.Some?)
    && (!phase.Running? ==> hand == Empty)
    && (phase.Emptied? || phase.Exited? ==> l.pending == map[])
    && (phase.Exited? ==> queue == [])
  }

  ghost predicate SExplained(s: State) {
    Explained(s.loop, s.phase, s.hand, s.queue)
  }

  // ----- what an action leaves alone -----

  predicate MovesCommands(a: Action) {
    a.Issue? || a.Dequeue? || a.Write? || a.FailWrite? || a.Register? || a.Tick? || a.TakePacket? || a.FindClosed?
    || a.RecordCause? || a.DropPending? || a.CloseQueue?
  }

  ghost predicate SameCommands(s: State, s': State) {
    && s'.loop.cells == s.loop.cells && s'.loop.pending == s.loop.pending && s'.queue == s.queue && s'.hand == s.hand
    && s'.phase == s.phase && s'.loop.shutdown == s.loop.shutdown
  }

  /** A command about to be entered in the pending map has an id that nobody outstanding has. */
  predicate FreeId(s: State, a: Action) {
    a.Register? && s.hand.Written? ==> IdOf(s.hand.ticket) !in s.loop.pending
  }

  /** The JVM has yet to read the command, or to answer it, or its answer is in flight. */
  predicate Unresolved(s: State, t: nat) {
    t in s.toPeer || t in s.atPeer || Some(t) in s.askers
  }

  /** No command is entered in the pending map under an id that another command has there, or that an
      unresolved one has; and none whose write failed reaches the JVM under an id in the pending map. */
  ghost predicate UnsharedId(s: State, a: Action) {
    && FreeId(s, a)
    && (a.Register? && s.hand.Written? ==>
          forall u :: Unresolved(s, u) && IdOf(u) == IdOf(s.hand.ticket) ==> u == s.hand.ticket)
    && (a.FailWrite? && s.hand.Writing? ==> a.reached ==> IdOf(s.hand.ticket) !in s.loop.pending)
  }

  lemma IdsAreUnique(t: nat, u: nat)
    requires t < ID_SPACE && u < ID_SPACE && IdOf(t) == IdOf(u)
    ensures t == u
  {
  }

  lemma CommandsUntouched(s: State, a: Action)
    requires Enabled(s, a) && !MovesCommands(a)
    ensures SameCommands(s, Apply(s, a)) && s.drawn <= Apply(s, a).drawn
  {
  }

  predicate MovesPeer(a: Action) {
    a.Write? || a.FailWrite? || a.PeerRead? || a.PeerAnswer?
  }

  ghost predicate SamePeer(s: State, s': State) {
    s'.toPeer == s.toPeer && s'.atPeer == s.atPeer && s'.answers == s.answers
  }

  lemma PeerUntouched(s: State, a: Action)
    requires Enabled(s, a) && !MovesPeer(a)
    ensures SamePeer(s, Apply(s, a))
  {
    hide HandlePacket, Cleanup, Insert, Tell, DropSenders, FrameOf, EventFrame, ReadError;
  }

  lemma PlacedKept(s: State, a: Action)
    requires SPlaced(s) && SExplained(s) && Enabled(s, a) && FreeId(s, a)
    ensures SPlaced(Apply(s, a)) && SExplained(Apply(s, a))
  {
    if !MovesCommands(a) {
      CommandsUntouched(s, a);
    } else {
      match a {
        case Issue(t) => IssueKept(s, t);
        case Dequeue => PlacedDequeue(s.loop.cells, s.loop.pending, s.drawn, s.queue);
        case Write => WriteKept(s);
        case FailWrite(reached) => FailWriteKept(s, reached);
        case Register => PlacedRegister(s.loop, s.drawn, s.queue, s.hand.ticket, s.now);
        case Tick => PlacedTick(s.loop, s.drawn, s.queue, s.now);
        case TakePacket(event) => TakeKept(s, event);
        case FindClosed =>
        case RecordCause =>
        case DropPending => PlacedDropPending(s.loop, s.drawn, s.queue);
        case CloseQueue => PlacedCloseQueue(s.loop, s.drawn, s.queue);
      }
    }
  }

  lemma IssueKept(s: State, t: nat)
    requires SPlaced(s) && SExplained(s) && Enabled(s, Issue(t))
    ensures SPlaced(Issued(s, t)) && SExplained(Issued(s, t))
  {
    var s' := Issued(s, t);
    forall id | id in s.loop.pending ensures PendingPlaced(s'.loop.cells, s.loop.pending, s'.queue, s.hand, id) {
      assert PendingPlaced(s.loop.cells, s.loop.pending, s.queue, s.hand, id);
    }
    if s.phase.Exited? {
      assert s'.queue == s.queue && s'.loop.cells == s.loop.cells[t := Dropped];
    } else {
      assert s'.loop.cells == s.loop.cells[t := Waiting];
      assert NoDuplicates(s'.queue) by {
        assert t !in s.queue;
      }
      forall x | x in s'.queue ensures Live(s'.loop.cells, x) && !InHand(s.hand, x) {
        assert x in s.queue || x == t;
      }
      forall x | Live(s'.loop.cells, x) ensures x in s'.queue || InHand(s.hand, x) || IsPending(s.loop.pending, x) {
        if x == t {
          assert s'.queue[|s.queue|] == t;
        } else {
          assert Live(s.loop.cells, x);
        }
      }
    }
  }

  lemma WriteKept(s: State)
    requires SPlaced(s) && SExplained(s) && s.hand.Writing?
    ensures SPlaced(Wrote(s)) && SExplained(Wrote(s))
  {
    forall id | id in s.loop.pending
      ensures PendingPlaced(s.loop.cells, s.loop.pending, s.queue, Written(s.hand.ticket), id)
    {
      assert PendingPlaced(s.loop.cells, s.loop.pending, s.queue, s.hand, id);
    }
  }

  lemma FailWriteKept(s: State, reached: bool)
    requires SPlaced(s) && SExplained(s) && s.hand.Writing?
    ensures SPlaced(FailedWrite(s, reached)) && SExplained(FailedWrite(s, reached))
  {
    var s' := FailedWrite(s, reached);
    forall id | id in s.loop.pending ensures PendingPlaced(s'.loop.cells, s.loop.pending, s.queue, Empty, id) {
      assert PendingPlaced(s.loop.cells, s.loop.pending, s.queue, s.hand, id);
    }
  }

  lemma TakeKept(s: State, event: Option<EventSet>)
    requires SPlaced(s) && SExplained(s) && CanTake(s)
    ensures SPlaced(Took(s, event)) && SExplained(Took(s, event))
  {
    var l, received := s.loop, s.channel[0];
    assert Took(s, event).loop == HandlePacket(l, received, event).0;
    if received.Success? && received.value.isReply && received.value.id in l.pending {
      var t := l.pending[received.value.id].ticket;
      PlacedComplete(l.cells, l.pending, s.drawn, s.queue, received.value.id,
                     if t in l.deaf then Discarded else Done(DecodeReply(received.value.full)));
    }
  }

  // ----- where outcomes come from -----

  /** The peer's own answer, a lapsed budget, a failed write, or a dropped sender: nothing else. */
  ghost predicate Sourced(l: LoopState, answers: map<nat, ReplyPacket>, lapsed: set<nat>, failed: set<nat>) {
    forall t :: t in l.cells ==> SourceOf(l.cells[t], t, l.deaf, answers, lapsed, failed)
  }

  ghost predicate SourceOf(c: Cell, t: nat, deaf: set<nat>, answers: map<nat, ReplyPacket>, lapsed: set<nat>,
                           failed: set<nat>) {
    match c
    case Waiting => true
    case Dropped => true
    case Discarded => t in deaf && (t in answers || t in lapsed || t in failed)
    case Done(Success(r)) => t in answers && answers[t] == r
    case Done(Failure(e)) => (e == ReplyTimeout(REPLY_TIMEOUT_SECS) && t in lapsed) || (e == Io && t in failed)
  }

  ghost predicate SSourced(s: State) {
    Sourced(s.loop, s.answers, s.lapsed, s.failed)
  }

  // ----- commands at the JVM -----

  predicate OnWire(toPeer: seq<nat>, atPeer: set<nat>, answers: map<nat, ReplyPacket>, t: nat) {
    t in toPeer || t in atPeer || t in answers
  }

  /** The JVM holds each command it was sent once: unread, unanswered or answered. */
  ghost predicate Held(toPeer: seq<nat>, atPeer: set<nat>, answers: map<nat, ReplyPacket>) {
    && NoDuplicates(toPeer)
    && (forall t :: t in toPeer ==> t !in atPeer && t !in answers)
    && (forall t :: t in atPeer ==> t !in answers)
    && (forall t :: t in answers ==> answers[t].id == IdOf(t) && HEADER_SIZE + |answers[t].data| <= MAX_PACKET_SIZE)
  }

  ghost predicate SHeld(s: State) {
    Held(s.toPeer, s.atPeer, s.answers)
  }

  /** Nothing reaches the JVM before the loop writes it, and nothing is pending that was not written. */
  ghost predicate SentOnly(s: State) {
    && (forall t :: OnWire(s.toPeer, s.atPeer, s.answers, t) ==> Sent(s.loop.cells, s.queue, s.hand, t))
    && (forall id :: id in s.loop.pending ==> OnWire(s.toPeer, s.atPeer, s.answers, s.loop.pending[id].ticket))
    && (s.hand.Written? ==> OnWire(s.toPeer, s.atPeer, s.answers, s.hand.ticket))
  }

  predicate Sent(cells: Cells, queue: seq<nat>, hand: Hand, t: nat) {
    t in cells && t !in queue && hand != Writing(t)
  }

  lemma HeldSend(toPeer: seq<nat>, atPeer: set<nat>, answers: map<nat, ReplyPacket>, t: nat)
    requires Held(toPeer, atPeer, answers) && !OnWire(toPeer, atPeer, answers, t)
    ensures Held(toPeer + [t], atPeer, answers)
  {
    assert forall x :: x in toPeer + [t] <==> x in toPeer || x == t;
  }

  lemma HeldRead(toPeer: seq<nat>, atPeer: set<nat>, answers: map<nat, ReplyPacket>)
    requires Held(toPeer, atPeer, answers) && toPeer != []
    ensures Held(toPeer[1..], atPeer + {toPeer[0]}, answers)
  {
    assert toPeer[0] in toPeer;
  }

  lemma HeldKept(s: State, a: Action)
    requires SHeld(s) && SentOnly(s) && SPlaced(s) && Enabled(s, a)
    ensures SHeld(Apply(s, a))
  {
    if !MovesPeer(a) {
      PeerUntouched(s, a);
    } else {
      match a {
        case Write => HeldSend(s.toPeer, s.atPeer, s.answers, s.hand.ticket);
        case FailWrite(_) => HeldSend(s.toPeer, s.atPeer, s.answers, s.hand.ticket);
        case PeerRead => HeldRead(s.toPeer, s.atPeer, s.answers);
        case PeerAnswer(_, _, _) =>
      }
    }
  }

  lemma {:induction false} SentOnlyKept(s: State, a: Action)
    requires SHeld(s) && SentOnly(s) && SPlaced(s) && SExplained(s) && Enabled(s, a) && FreeId(s, a)
    ensures SentOnly(Apply(s, a))
  {
    if !MovesCommands(a) {
      CommandsUntouched(s, a);
      OnWireKept(s, a);
    } else {
      match a {
        case Issue(t) => SentOnlyIssue(s, t);
        case Dequeue => SentOnlyDequeue(s);
        case Write => SentOnlyWrite(s);
        case FailWrite(reached) => SentOnlyFail(s, reached);
        case Register => SentOnlyRegister(s);
        case Tick => SentOnlyTick(s);
        case TakePacket(event) => SentOnlyTake(s, event);
        case FindClosed =>
        case RecordCause =>
        case DropPending =>
        case CloseQueue =>
      }
    }
  }

  lemma OnWireKept(s: State, a: Action)
    requires Enabled(s, a) && !MovesCommands(a)
    ensures forall t :: OnWire(s.toPeer, s.atPeer, s.answers, t) <==>
      (var s' := Apply(s, a); OnWire(s'.toPeer, s'.atPeer, s'.answers, t))
  {
    if a.PeerRead? {
      assert forall t :: t in s.toPeer <==> t == s.toPeer[0] || t in s.toPeer[1..];
    } else if !MovesPeer(a) {
      PeerUntouched(s, a);
    }
  }

  lemma SentOnlyIssue(s: State, t: nat)
    requires SentOnly(s) && t !in s.loop.cells
    ensures SentOnly(Issued(s, t))
  {
  }

  lemma SentOnlyDequeue(s: State)
    requires SentOnly(s) && s.hand == Empty && s.queue != []
    ensures SentOnly(Dequeued(s))
  {
    assert s.queue[0] in s.queue;
  }

  lemma OnWireAppend(toPeer: seq<nat>, atPeer: set<nat>, answers: map<nat, ReplyPacket>, t: nat)
    ensures forall x :: OnWire(toPeer + [t], atPeer, answers, x) <==> OnWire(toPeer, atPeer, answers, x) || x == t
  {
    assert forall x :: x in toPeer + [t] <==> x in toPeer || x == t;
  }

  lemma SentOnlyWrite(s: State)
    requires SentOnly(s) && SPlaced(s) && s.hand.Writing?
    ensures SentOnly(Wrote(s))
  {
    OnWireAppend(s.toPeer, s.atPeer, s.answers, s.hand.ticket);
  }

  lemma SentOnlyFail(s: State, reached: bool)
    requires SentOnly(s) && SPlaced(s) && s.hand.Writing?
    ensures SentOnly(FailedWrite(s, reached))
  {
    OnWireAppend(s.toPeer, s.atPeer, s.answers, s.hand.ticket);
  }

  lemma SentOnlyRegister(s: State)
    requires SentOnly(s) && SPlaced(s) && s.hand.Written? && FreeId(s, Register)
    ensures SentOnly(Registered(s))
  {
    PlacedRegister(s.loop, s.drawn, s.queue, s.hand.ticket, s.now);
  }

  lemma SentOnlyTick(s: State)
    requires SentOnly(s) && SPlaced(s) && s.hand == Empty
    ensures SentOnly(Ticked(s))
  {
    PlacedTick(s.loop, s.drawn, s.queue, s.now);
  }

  lemma SentOnlyTake(s: State, event: Option<EventSet>)
    requires SentOnly(s) && SPlaced(s) && CanTake(s)
    ensures SentOnly(Took(s, event))
  {
    var s' := Took(s, event);
    assert s'.loop == HandlePacket(s.loop, s.channel[0], event).0;
    assert s.loop.cells.Keys <= s'.loop.cells.Keys;
  }

  // ----- the byte stream -----

  function Junk(hungUp: Option<bytes>): bytes {
    match hungUp
    case None => []
    case Some(junk) => junk
  }

  /** The channel holds, in order, the first `framed` packets in flight, and an error at most at the end. */
  ghost predicate Channelled(channel: seq<Result<Frame>>, flight: seq<Frame>, framed: nat) {
    && framed <= |flight| && framed <= |channel| <= framed + 1
    && (forall i :: 0 <= i < framed ==> channel[i] == Success(flight[i]))
    && (forall i :: framed <= i < |channel| ==> channel[i].Failure?)
  }

  ghost predicate AllWellFramed(flight: seq<Frame>) {
    forall i :: 0 <= i < |flight| ==> WellFramed(flight[i])
  }

  /** The reader's buffer and the unread bytes hold exactly the packets it has not yet handed over. */
  ghost predicate Owed(partial: bytes, stream: bytes, owed: seq<Frame>, junk: bytes) {
    |partial| <= Wanted(partial) && partial + stream == Stream(owed) + junk && !Complete(junk)
  }

  ghost predicate Framing(s: State) {
    && Channelled(s.channel, s.flight, s.framed)
    && (!s.readerDone ==> |s.channel| == s.framed)
    && (s.readerDone && s.phase.Running? ==> s.framed < |s.channel|)
    && AllWellFramed(s.flight)
    && Owed(s.partial, s.stream, s.flight[s.framed..], Junk(s.hungUp))
  }

  /** What `Framing` looks at, for the actions that leave all of it alone. */
  ghost predicate SameWire(s: State, s': State) {
    && s'.framed == s.framed && s'.channel == s.channel && s'.flight == s.flight && s'.readerDone == s.readerDone
    && s'.partial == s.partial && s'.stream == s.stream && s'.hungUp == s.hungUp
    && (s'.phase.Running? ==> s.phase.Running?)
  }

  predicate MovesWire(a: Action) {
    a.PeerAnswer? || a.PeerEvent? || a.PeerHangUp? || a.ReaderRead? || a.ReaderEmit? || a.ReaderFail? || a.TakePacket?
  }

  lemma WireUntouched(s: State, a: Action)
    requires Enabled(s, a) && !MovesWire(a)
    ensures SameWire(s, Apply(s, a))
  {
  }

  lemma FramingKept(s: State, a: Action)
    requires Framing(s) && Enabled(s, a)
    ensures Framing(Apply(s, a))
  {
    if !MovesWire(a) {
      WireUntouched(s, a);
    } else {
      match a {
        case PeerAnswer(t, errorCode, data) => FramingAnswer(s, t, errorCode, data);
        case PeerEvent(id, data) =>
          CommandIsWellFramed(CommandPacket(id, 64, 100, data));
          FramingSend(s, EventFrame(id, data), None);
        case PeerHangUp(junk) => OwedHangUp(s.partial, s.stream, s.flight[s.framed..], junk);
        case ReaderRead(n) => OwedRead(s.partial, s.stream, s.flight[s.framed..], Junk(s.hungUp), n);
        case ReaderEmit => FramingEmit(s);
        case ReaderFail =>
        case TakePacket(event) => FramingTake(s, event);
      }
    }
  }

  lemma OwedSend(partial: bytes, stream: bytes, owed: seq<Frame>, f: Frame)
    requires Owed(partial, stream, owed, [])
    ensures Owed(partial, stream + f.full, owed + [f], [])
  {
    StreamAppend(owed, f);
    assert partial + (stream + f.full) == partial + stream + f.full;
  }

  lemma OwedHangUp(partial: bytes, stream: bytes, owed: seq<Frame>, junk: bytes)
    requires Owed(partial, stream, owed, []) && !Complete(junk)
    ensures Owed(partial, stream + junk, owed, junk)
  {
    assert partial + (stream + junk) == partial + stream + junk;
    assert Stream(owed) + [] == Stream(owed);
  }

  lemma OwedRead(partial: bytes, stream: bytes, owed: seq<Frame>, junk: bytes, n: nat)
    requires Owed(partial, stream, owed, junk) && 0 < n <= |stream| && |partial| + n <= Wanted(partial)
    ensures Owed(partial + stream[..n], stream[n..], owed, junk)
  {
    assert stream == stream[..n] + stream[n..];
    assert partial + stream[..n] + stream[n..] == partial + stream;
    if |partial| >= HEADER_SIZE {
      HeaderStable(partial, stream[..n]);
    }
  }

  lemma OwedEmit(partial: bytes, stream: bytes, owed: seq<Frame>, junk: bytes)
    requires Owed(partial, stream, owed, junk) && Complete(partial) && AllWellFramed(owed)
    ensures owed != [] && FrameOf(partial) == owed[0] && Owed([], stream, owed[1..], junk)
  {
    FirstPacket(partial, stream, owed, junk);
    assert [] + stream == stream;
  }

  lemma FramingAnswer(s: State, t: nat, errorCode: u16, data: bytes)
    requires Framing(s) && s.hungUp.None? && HEADER_SIZE + |data| <= MAX_PACKET_SIZE
    ensures Framing(Answered(s, t, errorCode, data))
  {
    var reply := ReplyPacket(IdOf(t), errorCode, data);
    ReplyIsWellFramed(reply);
    FramingSend(s.(atPeer := s.atPeer - {t}, answers := s.answers[t := reply]), ReplyFrame(reply), Some(t));
  }

  lemma FramingSend(s: State, f: Frame, asker: Option<nat>)
    requires Framing(s) && s.hungUp.None? && WellFramed(f)
    ensures Framing(Send(s, f, asker))
  {
    OwedSend(s.partial, s.stream, s.flight[s.framed..], f);
    assert (s.flight + [f])[s.framed..] == s.flight[s.framed..] + [f];
  }

  lemma FramingEmit(s: State)
    requires Framing(s) && Complete(s.partial) && !s.readerDone
    ensures Framing(Emitted(s))
  {
    OwedEmit(s.partial, s.stream, s.flight[s.framed..], Junk(s.hungUp));
    assert s.flight[s.framed..][1..] == s.flight[s.framed + 1..];
  }

  lemma FramingTake(s: State, event: Option<EventSet>)
    requires Framing(s) && CanTake(s)
    ensures Framing(Took(s, event))
  {
    hide HandlePacket, Owed, WellFramed;
    if s.channel[0].Success? {
      assert s.flight[1..][s.framed - 1..] == s.flight[s.framed..];
    }
  }

  // ----- replies in flight -----

  function ReplyFrameOf(r: ReplyPacket): Frame {
    if HEADER_SIZE + |r.data| <= MAX_PACKET_SIZE then ReplyFrame(r) else Frame(true, r.id, [])
  }

  /** Every reply in flight is the JVM's answer to one command, and no command has two of them. */
  ghost predicate Genuine(flight: seq<Frame>, askers: seq<Option<nat>>, answers: map<nat, ReplyPacket>) {
    && |askers| == |flight|
    && (forall i :: 0 <= i < |flight| ==> GenuineAt(flight[i], askers[i], answers))
    && (forall i, j :: 0 <= i < j < |askers| && askers[i].Some? ==> askers[i] != askers[j])
  }

  predicate GenuineAt(f: Frame, asker: Option<nat>, answers: map<nat, ReplyPacket>) {
    match asker
    case None => !f.isReply
    case Some(t) => t in answers && f == ReplyFrameOf(answers[t])
  }

  /** The answer to a command somebody waits for is in flight. */
  ghost predicate Expected(cells: Cells, askers: seq<Option<nat>>, answers: map<nat, ReplyPacket>) {
    forall t :: t in answers && Live(cells, t) ==> Some(t) in askers
  }

  predicate Awaited(s: State, t: nat) {
    Live(s.loop.cells, t) || t in s.lapsed || t in s.failed
  }

  /** A reply in flight that nobody waits for belongs to a command that timed out or failed to be written. */
  ghost predicate NoStrays(s: State) {
    s.phase.Running? ==> forall t :: Some(t) in s.askers ==> Awaited(s, t)
  }

  ghost predicate SAirborne(s: State) {
    Genuine(s.flight, s.askers, s.answers) && Expected(s.loop.cells, s.askers, s.answers) && NoStrays(s)
  }

  /** An unresolved command whose id is in the pending map is the one entered there, unless it is about to be. */
  ghost predicate Owned(s: State) {
    forall u :: Unresolved(s, u) && IdOf(u) in s.loop.pending ==>
      s.loop.pending[IdOf(u)].ticket == u || s.hand == Written(u)
  }

  ghost predicate Inv(s: State) {
    SPlaced(s) && SExplained(s) && SSourced(s) && SHeld(s) && SentOnly(s) && Framing(s) && SAirborne(s) && Owned(s)
  }

  /** While no more ids have been drawn than there are, none is shared. */
  lemma BoundedIdIsUnshared(s: State, a: Action)
    requires Inv(s) && s.drawn <= ID_SPACE
    ensures UnsharedId(s, a)
  {
    hide Framing, SSourced, Owned, SExplained;
    if s.hand != Empty {
      var t := s.hand.ticket;
      assert Live(s.loop.cells, t);
      forall u | Unresolved(s, u) && IdOf(u) == IdOf(t) ensures u == t {
        UnresolvedIsKnown(s, u);
        IdsAreUnique(u, t);
      }
      if IdOf(t) in s.loop.pending {
        assert PendingPlaced(s.loop.cells, s.loop.pending, s.queue, s.hand, IdOf(t));
        IdsAreUnique(t, s.loop.pending[IdOf(t)].ticket);
        assert false;
      }
    }
  }

  lemma UnresolvedIsKnown(s: State, u: nat)
    requires SentOnly(s) && SAirborne(s) && Unresolved(s, u)
    ensures u in s.loop.cells
  {
    if Some(u) in s.askers {
      var i :| 0 <= i < |s.askers| && s.askers[i] == Some(u);
      assert GenuineAt(s.flight[i], s.askers[i], s.answers);
    }
    assert OnWire(s.toPeer, s.atPeer, s.answers, u);
  }

  /** The packet the loop takes next is the first in flight; if it is a reply, it answers this command. */
  lemma TakenReply(s: State) returns (t: nat)
    requires Inv(s) && CanTake(s) && s.channel[0].Success? && s.channel[0].value.isReply
    ensures s.framed > 0 && s.flight[0] == s.channel[0].value
    ensures s.askers != [] && s.askers[0] == Some(t) && t in s.answers && s.flight[0].id == IdOf(t)
    ensures DecodeReply(s.flight[0].full) == Success(s.answers[t])
    ensures IdOf(t) in s.loop.pending ==> s.loop.pending[IdOf(t)].ticket == t && Live(s.loop.cells, t)
    ensures IdOf(t) !in s.loop.pending ==> !Live(s.loop.cells, t)
  {
    assert s.channel[0] == Success(s.flight[0]);
    assert GenuineAt(s.flight[0], s.askers[0], s.answers);
    t := s.askers[0].value;
    ReplyRoundTrip(s.answers[t]);
    assert OnWire(s.toPeer, s.atPeer, s.answers, t);
    assert Unresolved(s, t);
    if IdOf(t) in s.loop.pending {
      assert PendingPlaced(s.loop.cells, s.loop.pending, s.queue, s.hand, IdOf(t));
    }
  }

  // ----- outcomes keep their source -----

  /** Cells either keep their value or get one with a source, and what counts as a source only grows. */
  lemma SourcedGrows(l: LoopState, l': LoopState, answers: map<nat, ReplyPacket>, answers': map<nat, ReplyPacket>,
                     lapsed: set<nat>, lapsed': set<nat>, failed: set<nat>, failed': set<nat>)
    requires Sourced(l, answers, lapsed, failed)
    requires l.deaf <= l'.deaf && lapsed <= lapsed' && failed <= failed'
    requires forall t :: t in answers ==> t in answers' && answers'[t] == answers[t]
    requires forall t :: t in l'.cells ==>
      (t in l.cells && l'.cells[t] == l.cells[t]) || SourceOf(l'.cells[t], t, l'.deaf, answers', lapsed', failed')
    ensures Sourced(l', answers', lapsed', failed')
  {
    forall t | t in l'.cells ensures SourceOf(l'.cells[t], t, l'.deaf, answers', lapsed', failed') {
      if t in l.cells && l'.cells[t] == l.cells[t] {
        assert SourceOf(l.cells[t], t, l.deaf, answers, lapsed, failed);
      }
    }
  }

  ghost predicate SourcesGrow(s: State, s': State) {
    && s.loop.deaf <= s'.loop.deaf && s.lapsed <= s'.lapsed && s.failed <= s'.failed
    && (forall t :: t in s.answers ==> t in s'.answers && s'.answers[t] == s.answers[t])
    && (forall t :: t in s'.loop.cells ==>
          || (t in s.loop.cells && s'.loop.cells[t] == s.loop.cells[t])
          || SourceOf(s'.loop.cells[t], t, s'.loop.deaf, s'.answers, s'.lapsed, s'.failed))
  }

  lemma {:induction false} SourcedKept(s: State, a: Action)
    requires Inv(s) && Enabled(s, a) && UnsharedId(s, a)
    ensures SSourced(Apply(s, a)) && SourcesGrow(s, Apply(s, a))
  {
    SourcesGrowStep(s, a);
    var s' := Apply(s, a);
    SourcedGrows(s.loop, s'.loop, s.answers, s'.answers, s.lapsed, s'.lapsed, s.failed, s'.failed);
  }

  predicate MovesOutcomes(a: Action) {
    a.Issue? || a.Abandon? || a.FailWrite? || a.Register? || a.Tick? || a.PeerAnswer? || a.TakePacket? || a.DropPending?
    || a.CloseQueue?
  }

  ghost predicate SameOutcomes(s: State, s': State) {
    s'.loop.cells == s.loop.cells && s'.loop.deaf == s.loop.deaf && s'.answers == s.answers && s'.lapsed == s.lapsed
    && s'.failed == s.failed
  }

  lemma OutcomesUntouched(s: State, a: Action)
    requires Enabled(s, a) && !MovesOutcomes(a)
    ensures SameOutcomes(s, Apply(s, a))
  {
  }

  lemma SourcesGrowStep(s: State, a: Action)
    requires Inv(s) && Enabled(s, a) && UnsharedId(s, a)
    ensures SourcesGrow(s, Apply(s, a))
  {
    if !MovesOutcomes(a) {
      OutcomesUntouched(s, a);
      SameOutcomesGrow(s, Apply(s, a));
    } else {
      hide SourcesGrow, Sourced, Framing, SAirborne, Owned, Placed;
      match a {
        case Issue(t) => SourcesGrowIssue(s, t);
        case Abandon(t) => SourcesGrowAbandon(s, t);
        case FailWrite(reached) => SourcesGrowFail(s, reached);
        case Register => SourcesGrowRegister(s);
        case Tick => SourcesGrowTick(s);
        case PeerAnswer(t, errorCode, data) => SourcesGrowAnswer(s, t, errorCode, data);
        case TakePacket(event) => SourcesGrowTake(s, event);
        case DropPending => SourcesGrowDrop(s);
        case CloseQueue => SourcesGrowClose(s);
      }
    }
  }

  lemma SameOutcomesGrow(s: State, s': State)
    requires SameOutcomes(s, s')
    ensures SourcesGrow(s, s')
  {
  }

  lemma SourcesGrowAbandon(s: State, t: nat)
    ensures SourcesGrow(s, s.(loop := s.loop.(deaf := s.loop.deaf + {t})))
  {
  }

  lemma SourcesGrowIssue(s: State, t: nat)
    requires t !in s.loop.cells
    ensures SourcesGrow(s, Issued(s, t))
  {
  }

  lemma SourcesGrowRegister(s: State)
    requires SPlaced(s) && s.hand.Written? && FreeId(s, Register)
    ensures SourcesGrow(s, Registered(s))
  {
    PlacedRegister(s.loop, s.drawn, s.queue, s.hand.ticket, s.now);
  }

  lemma SourcesGrowAnswer(s: State, t: nat, errorCode: u16, data: bytes)
    requires SHeld(s) && t in s.atPeer && HEADER_SIZE + |data| <= MAX_PACKET_SIZE
    ensures SourcesGrow(s, Answered(s, t, errorCode, data))
  {
  }

  lemma SourcesGrowDrop(s: State)
    ensures SourcesGrow(s, DroppedPending(s))
  {
  }

  lemma SourcesGrowClose(s: State)
    ensures SourcesGrow(s, ClosedQueue(s))
  {
  }

  lemma SourcesGrowFail(s: State, reached: bool)
    requires SSourced(s) && s.hand.Writing?
    ensures SourcesGrow(s, FailedWrite(s, reached))
  {
  }

  lemma SourcesGrowTick(s: State)
    requires SPlaced(s) && s.hand == Empty
    ensures SourcesGrow(s, Ticked(s))
  {
    PlacedTick(s.loop, s.drawn, s.queue, s.now);
  }

  lemma SourcesGrowTake(s: State, event: Option<EventSet>)
    requires Inv(s) && CanTake(s)
    ensures SourcesGrow(s, Took(s, event))
  {
    hide Framing, SPlaced, SExplained, SHeld, SentOnly, SAirborne, Owned;
    var received := s.channel[0];
    assert Took(s, event).loop == HandlePacket(s.loop, received, event).0;
    if received.Success? && received.value.isReply {
      var t := TakenReply(s);
    }
  }

  // ----- replies in flight keep their meaning -----

  lemma GenuineAnswer(flight: seq<Frame>, askers: seq<Option<nat>>, answers: map<nat, ReplyPacket>, t: nat,
                      r: ReplyPacket)
    requires Genuine(flight, askers, answers) && t !in answers && HEADER_SIZE + |r.data| <= MAX_PACKET_SIZE
    ensures Genuine(flight + [ReplyFrame(r)], askers + [Some(t)], answers[t := r])
  {
    assert ReplyFrame(r) == ReplyFrameOf(r);
    forall i | 0 <= i < |flight| ensures GenuineAt(flight[i], askers[i], answers[t := r]) && askers[i] != Some(t) {
      assert GenuineAt(flight[i], askers[i], answers);
    }
  }

  lemma GenuineTake(flight: seq<Frame>, askers: seq<Option<nat>>, answers: map<nat, ReplyPacket>)
    requires Genuine(flight, askers, answers) && flight != []
    ensures Genuine(flight[1..], askers[1..], answers)
    ensures askers[0].Some? ==> askers[0] !in askers[1..]
  {
    forall i | 0 <= i < |flight[1..]| ensures GenuineAt(flight[1..][i], askers[1..][i], answers) {
      assert GenuineAt(flight[i + 1], askers[i + 1], answers);
    }
  }

  lemma InAppended(askers: seq<Option<nat>>, asker: Option<nat>, x: Option<nat>)
    ensures x in askers + [asker] <==> x in askers || x == asker
  {
  }

  lemma InHeadOrTail(askers: seq<Option<nat>>, x: Option<nat>)
    requires askers != []
    ensures x in askers <==> x == askers[0] || x in askers[1..]
  {
  }

  /** Nothing moves in flight; nobody newly waits for an answer already given; nobody is forgotten. */
  ghost predicate Settles(s: State, s': State) {
    && s'.flight == s.flight && s'.askers == s.askers && s'.answers == s.answers
    && (forall t :: Live(s'.loop.cells, t) ==> Live(s.loop.cells, t) || t !in s.answers)
    && (s'.phase.Running? ==> s.phase.Running? && (forall t :: Awaited(s, t) ==> Awaited(s', t)))
  }

  lemma SettlesIsEnough(s: State, s': State)
    requires SAirborne(s) && Settles(s, s')
    ensures SAirborne(s')
  {
  }

  predicate MovesFlight(a: Action) {
    a.PeerAnswer? || a.PeerEvent? || a.TakePacket?
  }

  lemma FlightUntouched(s: State, a: Action)
    requires Enabled(s, a) && !MovesFlight(a)
    ensures Apply(s, a).flight == s.flight && Apply(s, a).askers == s.askers && Apply(s, a).answers == s.answers
    ensures Apply(s, a).phase.Running? ==> s.phase.Running?
  {
  }

  lemma AirborneKept(s: State, a: Action)
    requires Inv(s) && Enabled(s, a) && UnsharedId(s, a)
    ensures SAirborne(Apply(s, a))
  {
    if MovesFlight(a) {
      match a {
        case PeerAnswer(t, errorCode, data) => AirborneAnswer(s, t, errorCode, data);
        case PeerEvent(id, data) => AirborneEvent(s, EventFrame(id, data));
        case TakePacket(event) => AirborneTake(s, event);
      }
    } else {
      FlightUntouched(s, a);
      SettlesStep(s, a);
      SettlesIsEnough(s, Apply(s, a));
    }
  }

  lemma SettlesStep(s: State, a: Action)
    requires Inv(s) && Enabled(s, a) && UnsharedId(s, a) && !MovesFlight(a)
    requires Apply(s, a).flight == s.flight && Apply(s, a).askers == s.askers && Apply(s, a).answers == s.answers
    requires Apply(s, a).phase.Running? ==> s.phase.Running?
    ensures Settles(s, Apply(s, a))
  {
    if !MovesOutcomes(a) {
      OutcomesUntouched(s, a);
    } else {
      hide Settles, Placed, Framing, SAirborne, Sourced, Owned;
      match a {
        case Issue(t) => SettlesIssue(s, t);
        case Abandon(t) => SettlesAbandon(s, t);
        case FailWrite(reached) => SettlesFail(s, reached);
        case Register => SettlesRegister(s);
        case Tick => SettlesTick(s);
        case DropPending => SettlesDrop(s);
        case CloseQueue => SettlesClose(s);
      }
    }
  }

  lemma SettlesAbandon(s: State, t: nat)
    ensures Settles(s, s.(loop := s.loop.(deaf := s.loop.deaf + {t})))
  {
  }

  lemma SettlesDrop(s: State)
    requires s.phase == Recorded
    ensures Settles(s, DroppedPending(s))
  {
  }

  lemma SettlesClose(s: State)
    requires s.phase == Emptied
    ensures Settles(s, ClosedQueue(s))
  {
  }

  lemma SettlesIssue(s: State, t: nat)
    requires SentOnly(s) && t !in s.loop.cells
    ensures Settles(s, Issued(s, t))
  {
    assert !OnWire(s.toPeer, s.atPeer, s.answers, t);
  }

  lemma SettlesRegister(s: State)
    requires SPlaced(s) && s.hand.Written? && FreeId(s, Register)
    ensures Settles(s, Registered(s))
  {
    PlacedRegister(s.loop, s.drawn, s.queue, s.hand.ticket, s.now);
  }

  lemma SettlesFail(s: State, reached: bool)
    requires s.hand.Writing?
    ensures Settles(s, FailedWrite(s, reached))
  {
  }

  lemma SettlesTick(s: State)
    requires SPlaced(s) && s.hand == Empty
    ensures Settles(s, Ticked(s))
  {
    PlacedTick(s.loop, s.drawn, s.queue, s.now);
  }

  lemma StillAwaited(s: State, t: nat)
    requires SSourced(s) && SExplained(s) && SHeld(s) && SentOnly(s) && t in s.atPeer && s.phase.Running?
    ensures Awaited(s, t)
  {
    assert OnWire(s.toPeer, s.atPeer, s.answers, t);
    assert SourceOf(s.loop.cells[t], t, s.loop.deaf, s.answers, s.lapsed, s.failed);
  }

  lemma AirborneAnswer(s: State, t: nat, errorCode: u16, data: bytes)
    requires Inv(s) && t in s.atPeer && HEADER_SIZE + |data| <= MAX_PACKET_SIZE
    ensures SAirborne(Answered(s, t, errorCode, data))
  {
    hide Framing, SPlaced, Owned;
    var r, s' := ReplyPacket(IdOf(t), errorCode, data), Answered(s, t, errorCode, data);
    assert OnWire(s.toPeer, s.atPeer, s.answers, t);
    GenuineAnswer(s.flight, s.askers, s.answers, t, r);
    forall x | Some(x) in s'.askers && s.phase.Running? ensures Awaited(s, x) {
      InAppended(s.askers, Some(t), Some(x));
      if x == t {
        StillAwaited(s, t);
      }
    }
  }

  lemma AirborneEvent(s: State, f: Frame)
    requires SAirborne(s) && !f.isReply
    ensures SAirborne(Send(s, f, None))
  {
  }

  lemma AirborneTake(s: State, event: Option<EventSet>)
    requires Inv(s) && CanTake(s)
    ensures SAirborne(Took(s, event))
  {
    hide Framing, SPlaced, SExplained, SSourced, SHeld, SentOnly, Owned;
    if s.channel[0].Success? {
      TakeSettles(s, event);
      GenuineTake(s.flight, s.askers, s.answers);
    }
  }

  /** Taking a packet settles at most the command it answers. */
  lemma TakeSettles(s: State, event: Option<EventSet>)
    requires Inv(s) && CanTake(s) && s.channel[0].Success?
    ensures s.flight != [] && s.framed > 0
    ensures forall t: nat :: Live(Took(s, event).loop.cells, t) ==> Live(s.loop.cells, t) && s.askers[0] != Some(t)
    ensures forall t: nat :: Live(s.loop.cells, t) && !Live(Took(s, event).loop.cells, t) ==> s.askers[0] == Some(t)
  {
    hide AllWellFramed, Owed, SHeld, SentOnly, SSourced, Owned;
    assert Took(s, event).loop == HandlePacket(s.loop, s.channel[0], event).0;
    assert s.channel[0] == Success(s.flight[0]);
    assert GenuineAt(s.flight[0], s.askers[0], s.answers);
    if s.flight[0].isReply {
      var t := TakenReply(s);
    }
  }

  // ----- ids stay unshared -----

  /** No new unresolved command, no new entry, and none about to be entered. */
  ghost predicate Dwindles(s: State, s': State) {
    && (forall u :: Unresolved(s', u) ==> Unresolved(s, u))
    && (forall id :: id in s'.loop.pending ==> id in s.loop.pending && s'.loop.pending[id] == s.loop.pending[id])
    && (s.hand.Written? ==> s'.hand == s.hand)
  }

  lemma DwindlesIsEnough(s: State, s': State)
    requires Owned(s) && Dwindles(s, s')
    ensures Owned(s')
  {
  }

  predicate MovesIds(a: Action) {
    MovesPeer(a) || MovesFlight(a) || a.Register? || a.Dequeue? || a.Tick? || a.DropPending?
  }

  lemma IdsUntouched(s: State, a: Action)
    requires Enabled(s, a) && !MovesIds(a)
    ensures Dwindles(s, Apply(s, a))
  {
  }

  lemma OwnedKept(s: State, a: Action)
    requires Inv(s) && Enabled(s, a) && UnsharedId(s, a)
    ensures Owned(Apply(s, a))
  {
    if !MovesIds(a) {
      IdsUntouched(s, a);
      DwindlesIsEnough(s, Apply(s, a));
    } else {
      hide Owned, Placed, Framing, SAirborne, Sourced;
      match a {
        case Dequeue => OwnedDequeue(s);
        case Write => OwnedWrite(s);
        case FailWrite(reached) => OwnedFail(s, reached);
        case Register => OwnedRegister(s);
        case Tick => OwnedTick(s);
        case DropPending => OwnedDrop(s);
        case PeerRead => OwnedRead(s);
        case PeerAnswer(t, errorCode, data) => OwnedAnswer(s, t, errorCode, data);
        case PeerEvent(id, data) => OwnedEvent(s, EventFrame(id, data));
        case TakePacket(event) => OwnedTake(s, event);
      }
    }
  }

  lemma OwnedDequeue(s: State)
    requires Owned(s) && s.hand == Empty && s.queue != []
    ensures Owned(Dequeued(s))
  {
  }

  lemma OwnedTick(s: State)
    requires Owned(s)
    ensures Owned(Ticked(s))
  {
    DwindlesIsEnough(s, Ticked(s));
  }

  lemma OwnedDrop(s: State)
    requires Owned(s)
    ensures Owned(DroppedPending(s))
  {
  }

  lemma OwnedEvent(s: State, f: Frame)
    requires Owned(s)
    ensures Owned(Send(s, f, None))
  {
    DwindlesIsEnough(s, Send(s, f, None));
  }

  lemma OwnedWrite(s: State)
    requires Owned(s) && s.hand.Writing?
    ensures Owned(Wrote(s))
  {
  }

  lemma OwnedFail(s: State, reached: bool)
    requires Owned(s) && s.hand.Writing? && UnsharedId(s, FailWrite(reached))
    ensures Owned(FailedWrite(s, reached))
  {
  }

  lemma OwnedRegister(s: State)
    requires Owned(s) && s.hand.Written? && UnsharedId(s, Register)
    ensures Owned(Registered(s))
  {
    forall u | Unresolved(Registered(s), u) ensures Unresolved(s, u) {
    }
  }

  lemma OwnedRead(s: State)
    requires Owned(s) && s.toPeer != []
    ensures Owned(Apply(s, PeerRead))
  {
    DwindlesIsEnough(s, Apply(s, PeerRead));
  }

  lemma OwnedAnswer(s: State, t: nat, errorCode: u16, data: bytes)
    requires Owned(s) && t in s.atPeer && HEADER_SIZE + |data| <= MAX_PACKET_SIZE
    ensures Owned(Answered(s, t, errorCode, data))
  {
    var s' := Answered(s, t, errorCode, data);
    forall u | Unresolved(s', u) ensures Unresolved(s, u) {
      InAppended(s.askers, Some(t), Some(u));
    }
    DwindlesIsEnough(s, s');
  }

  lemma OwnedTake(s: State, event: Option<EventSet>)
    requires Owned(s) && CanTake(s)
    ensures Owned(Took(s, event))
  {
    DwindlesIsEnough(s, Took(s, event));
  }

  // ----- the invariant -----

  lemma InitInv()
    ensures Inv(Init())
  {
  }

  lemma {:induction false} InvKept(s: State, a: Action)
    requires Inv(s) && Enabled(s, a) && UnsharedId(s, a)
    ensures Inv(Apply(s, a))
  {
    PlacedKept(s, a);
    SourcedKept(s, a);
    HeldKept(s, a);
    SentOnlyKept(s, a);
    FramingKept(s, a);
    AirborneKept(s, a);
    OwnedKept(s, a);
  }

  lemma DrawnGrows(s: State, a: Action)
    requires Enabled(s, a)
    ensures s.drawn <= Apply(s, a).drawn
  {
  }

  lemma {:induction false} DrawnGrowsAlong(s: State, actions: seq<Action>)
    requires Legal(s, actions)
    ensures s.drawn <= After(s, actions).drawn
    decreases |actions|
  {
    if actions != [] {
      DrawnGrows(s, actions[0]);
      DrawnGrowsAlong(Apply(s, actions[0]), actions[1..]);
    }
  }

  /** No step of the run shares an id. */
  ghost predicate Unshared(s: State, actions: seq<Action>)
    requires Legal(s, actions)
    decreases |actions|
  {
    actions != [] ==> UnsharedId(s, actions[0]) && Unshared(Apply(s, actions[0]), actions[1..])
  }

  /** Every run in which ids are not shared keeps the invariant. */
  lemma {:induction false} InvAlong(s: State, actions: seq<Action>)
    requires Inv(s) && Legal(s, actions) && Unshared(s, actions)
    ensures Inv(After(s, actions))
    decreases |actions|
  {
    hide Inv, UnsharedId;
    if actions != [] {
      InvKept(s, actions[0]);
      InvAlong(Apply(s, actions[0]), actions[1..]);
    }
  }

  /** Every run that draws at most 2^32 ids is one. */
  lemma {:induction false} BoundedIsUnshared(s: State, actions: seq<Action>)
    requires Inv(s) && Legal(s, actions) && After(s, actions).drawn <= ID_SPACE
    ensures Unshared(s, actions)
    decreases |actions|
  {
    hide Inv, UnsharedId;
    if actions != [] {
      DrawnGrows(s, actions[0]);
      DrawnGrowsAlong(Apply(s, actions[0]), actions[1..]);
      BoundedIdIsUnshared(s, actions[0]);
      InvKept(s, actions[0]);
      BoundedIsUnshared(Apply(s, actions[0]), actions[1..]);
    }
  }
}
