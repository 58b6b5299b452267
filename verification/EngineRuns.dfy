/** What holds in every run of the engine, whatever the interleaving: where commands are and what becomes of
    them as long as no two outstanding commands share an id, and which reply answers which as long as none is
    entered under the id of another whose reply may still come. Both hold while no more than 2^32 ids have been
    drawn. */
module EngineRuns {
  import opened Wrappers
  import opened Bytes
  import opened Packets
  import opened EventTypes
  import opened Loop
  import opened Engine
  import opened EngineInvariant

  // ----- ids unique among the outstanding -----

  /** No command is entered in the pending map under the id of another that is still there. */
  ghost predicate Unique(s: State, actions: seq<Action>)
    requires Legal(s, actions)
    decreases |actions|
  {
    actions != [] ==> FreeId(s, actions[0]) && Unique(Apply(s, actions[0]), actions[1..])
  }

  ghost predicate Runs(actions: seq<Action>, s: State) {
    Legal(Init(), actions) && After(Init(), actions) == s && Unique(Init(), actions)
  }

  lemma {:induction false} UniqueThen(s: State, first: seq<Action>, a: Action)
    requires Legal(s, first) && Enabled(After(s, first), a) && Unique(s, first) && FreeId(After(s, first), a)
    ensures Legal(s, first + [a]) && Unique(s, first + [a])
    decreases |first|
  {
    LegalThen(s, first, a);
    if first == [] {
      assert first + [a] == [a];
    } else {
      assert (first + [a])[0] == first[0] && (first + [a])[1..] == first[1..] + [a];
      UniqueThen(Apply(s, first[0]), first[1..], a);
    }
  }

  lemma {:induction false} RunsThen(run: seq<Action>, s: State, a: Action)
    requires Runs(run, s) && Enabled(s, a) && FreeId(s, a)
    ensures Runs(run + [a], Apply(s, a))
  {
    LegalThen(Init(), run, a);
    UniqueThen(Init(), run, a);
  }

  lemma {:induction false} PlacedAlong(s: State, actions: seq<Action>)
    requires SPlaced(s) && SExplained(s) && Legal(s, actions) && Unique(s, actions)
    ensures SPlaced(After(s, actions)) && SExplained(After(s, actions))
    decreases |actions|
  {
    hide SPlaced, SExplained;
    if actions != [] {
      PlacedKept(s, actions[0]);
      PlacedAlong(Apply(s, actions[0]), actions[1..]);
    }
  }

  lemma {:induction false} RunPlaced(actions: seq<Action>, s: State)
    requires Runs(actions, s)
    ensures SPlaced(s) && SExplained(s)
  {
    InitInv();
    PlacedAlong(Init(), actions);
  }

  // ----- ids not shared with anything that may still be answered -----

  ghost predicate UnsharedRun(actions: seq<Action>, s: State) {
    Legal(Init(), actions) && After(Init(), actions) == s && Unshared(Init(), actions)
  }

  lemma {:induction false} UnsharedInv(actions: seq<Action>, s: State)
    requires UnsharedRun(actions, s)
    ensures Inv(s)
  {
    InitInv();
    InvAlong(Init(), actions);
  }

  lemma {:induction false} UnsharedIsUnique(s: State, actions: seq<Action>)
    requires Legal(s, actions) && Unshared(s, actions)
    ensures Unique(s, actions)
    decreases |actions|
  {
    if actions != [] {
      UnsharedIsUnique(Apply(s, actions[0]), actions[1..]);
    }
  }

  lemma {:induction false} UnsharedRunsAreUnique(actions: seq<Action>, s: State)
    requires UnsharedRun(actions, s)
    ensures Runs(actions, s)
  {
    UnsharedIsUnique(Init(), actions);
  }

  /** While no more ids have been drawn than there are, none is shared. */
  lemma {:induction false} BoundedRunsAreUnshared(actions: seq<Action>, s: State)
    requires Legal(Init(), actions) && After(Init(), actions) == s && s.drawn <= ID_SPACE
    ensures UnsharedRun(actions, s)
  {
    InitInv();
    BoundedIsUnshared(Init(), actions);
  }

  /** Some command has lost its sender and no reason is recorded. */
  ghost predicate SilentLoss(s: State) {
    exists t :: t in s.loop.cells && s.loop.cells[t] == Dropped && Observe(s.loop, t) == Some(Failure(NoReasonRecorded))
  }

  ghost predicate NeverSilent(s: State, actions: seq<Action>)
    requires Legal(s, actions)
    decreases |actions|
  {
    !SilentLoss(s) && (actions != [] ==> NeverSilent(Apply(s, actions[0]), actions[1..]))
  }

  lemma DuplicateIsSilent(s: State)
    requires SPlaced(s) && SExplained(s) && s.hand.Written? && !FreeId(s, Register)
    ensures SilentLoss(Registered(s))
  {
    var id := IdOf(s.hand.ticket);
    assert PendingPlaced(s.loop.cells, s.loop.pending, s.queue, s.hand, id);
    var t := s.loop.pending[id].ticket;
    assert Registered(s).loop.cells[t] == Dropped && Observe(Registered(s).loop, t) == Some(Failure(NoReasonRecorded));
  }

  /** The arm of `lost` for a missing reason is unreachable exactly in the runs where ids are unique among
      the outstanding commands: every duplicate takes a command's place without a word. */
  lemma {:induction false} SilentIffDuplicate(s: State, actions: seq<Action>)
    requires SPlaced(s) && SExplained(s) && Legal(s, actions)
    ensures NeverSilent(s, actions) <==> Unique(s, actions)
    decreases |actions|, 1
  {
    NotSilent(s);
    if actions != [] {
      SilentStep(s, actions);
    }
  }

  lemma NotSilent(s: State)
    requires SExplained(s)
    ensures !SilentLoss(s)
  {
  }

  lemma {:induction false} SilentStep(s: State, actions: seq<Action>)
    requires SPlaced(s) && SExplained(s) && Legal(s, actions) && actions != [] && !SilentLoss(s)
    ensures NeverSilent(s, actions) <==> Unique(s, actions)
    decreases |actions|, 0
  {
    hide SPlaced, SExplained, SilentLoss;
    if FreeId(s, actions[0]) {
      PlacedKept(s, actions[0]);
      SilentIffDuplicate(Apply(s, actions[0]), actions[1..]);
    } else {
      DuplicateIsSilent(s);
    }
  }

  /** Never may a reply come, now or later, under an id that leads to a command it does not answer. */
  ghost predicate NeverAmbiguous(s: State, actions: seq<Action>)
    requires Legal(s, actions)
    decreases |actions|
  {
    Owned(s) && (actions != [] ==> NeverAmbiguous(Apply(s, actions[0]), actions[1..]))
  }

  lemma PendingIsUnresolved(s: State, id: u32)
    requires SPlaced(s) && SentOnly(s) && SAirborne(s) && id in s.loop.pending
    ensures var u := s.loop.pending[id].ticket; Unresolved(s, u) && IdOf(u) == id && !InHand(s.hand, u)
  {
    assert PendingPlaced(s.loop.cells, s.loop.pending, s.queue, s.hand, id);
    assert OnWire(s.toPeer, s.atPeer, s.answers, s.loop.pending[id].ticket);
  }

  lemma SharedIdIsAmbiguous(s: State, a: Action)
    requires Inv(s) && Enabled(s, a) && !UnsharedId(s, a)
    ensures !Owned(Apply(s, a))
  {
    hide Inv, Placed, SentOnly, SAirborne, Framing, SSourced;
    var t, s' := s.hand.ticket, Apply(s, a);
    if IdOf(t) in s.loop.pending {
      InvParts(s);
      PendingIsUnresolved(s, IdOf(t));
      var u := s.loop.pending[IdOf(t)].ticket;
      assert Unresolved(s', if a.Register? then u else t);
    } else {
      var u :| Unresolved(s, u) && IdOf(u) == IdOf(t) && u != t;
      assert Unresolved(s', u);
    }
  }

  lemma InvParts(s: State)
    requires Inv(s)
    ensures SPlaced(s) && SExplained(s) && SentOnly(s) && SAirborne(s) && Owned(s)
  {
  }

  /** For every run: what is entered under an id is always the only command whose reply may still come under it
      if and only if no step shares an id. */
  lemma {:induction false} AmbiguousIffShared(s: State, actions: seq<Action>)
    requires Inv(s) && Legal(s, actions)
    ensures NeverAmbiguous(s, actions) <==> Unshared(s, actions)
    decreases |actions|
  {
    InvParts(s);
    hide Inv, Owned, UnsharedId;
    if actions != [] {
      if UnsharedId(s, actions[0]) {
        InvKept(s, actions[0]);
        AmbiguousIffShared(Apply(s, actions[0]), actions[1..]);
      } else {
        SharedIdIsAmbiguous(s, actions[0]);
      }
    }
  }

  // ----- exactly once -----

  function HolderIds(l: LoopState, t: nat): set<u32> {
    set id | id in l.pending && l.pending[id].ticket == t
  }

  /** In how many places the command is: queued, being written, pending, completed. */
  function Places(s: State, t: nat): nat
    requires t in s.loop.cells
  {
    multiset(s.queue)[t] + (if InHand(s.hand, t) then 1 else 0) + |HolderIds(s.loop, t)|
    + (if s.loop.cells[t] == Waiting then 0 else 1)
  }

  lemma {:induction false} QueuedOnce(queue: seq<nat>, t: nat)
    requires NoDuplicates(queue)
    ensures multiset(queue)[t] == if t in queue then 1 else 0
  {
    if queue != [] {
      assert queue == [queue[0]] + queue[1..];
      QueuedOnce(queue[1..], t);
    }
  }

  lemma {:induction false} InOnePlace(actions: seq<Action>, s: State, t: nat)
    requires Runs(actions, s) && t in s.loop.cells
    ensures Places(s, t) == 1
  {
    RunPlaced(actions, s);
    QueuedOnce(s.queue, t);
    forall id | id in HolderIds(s.loop, t) ensures id == IdOf(t) && Live(s.loop.cells, t) {
      assert PendingPlaced(s.loop.cells, s.loop.pending, s.queue, s.hand, id);
    }
    if IsPending(s.loop.pending, t) {
      assert HolderIds(s.loop, t) == {IdOf(t)};
      assert PendingPlaced(s.loop.cells, s.loop.pending, s.queue, s.hand, IdOf(t));
    } else {
      assert HolderIds(s.loop, t) == {};
    }
  }

  /** Settled commands stay as they are. */
  ghost predicate StayPut(cells: Cells, cells': Cells) {
    forall t :: t in cells ==> t in cells' && (cells[t] != Waiting ==> cells'[t] == cells[t])
  }

  ghost predicate SettledStay(s: State, s': State) {
    StayPut(s.loop.cells, s'.loop.cells)
  }

  lemma SettledStep(s: State, a: Action)
    requires SPlaced(s) && SExplained(s) && Enabled(s, a) && FreeId(s, a)
    ensures SettledStay(s, Apply(s, a))
  {
    if !MovesOutcomes(a) {
      OutcomesUntouched(s, a);
    } else {
      match a {
        case Issue(t) => SettledIssue(s, t);
        case Abandon(_) =>
        case FailWrite(reached) => SettledFail(s, reached);
        case Register => SettledRegister(s);
        case Tick => SettledTick(s);
        case PeerAnswer(t, errorCode, data) => SettledAnswer(s, t, errorCode, data);
        case TakePacket(event) => SettledTake(s, event);
        case DropPending => SettledDrop(s);
        case CloseQueue => SettledClose(s);
      }
    }
  }

  lemma SettledIssue(s: State, t: nat)
    requires t !in s.loop.cells
    ensures SettledStay(s, Issued(s, t))
  {
  }

  lemma SettledRegister(s: State)
    requires SPlaced(s) && s.hand.Written? && FreeId(s, Register)
    ensures SettledStay(s, Registered(s))
  {
    PlacedRegister(s.loop, s.drawn, s.queue, s.hand.ticket, s.now);
  }

  lemma SettledAnswer(s: State, t: nat, errorCode: u16, data: bytes)
    requires HEADER_SIZE + |data| <= MAX_PACKET_SIZE
    ensures SettledStay(s, Answered(s, t, errorCode, data))
  {
  }

  lemma SettledFail(s: State, reached: bool)
    requires SPlaced(s) && s.hand.Writing?
    ensures SettledStay(s, FailedWrite(s, reached))
  {
  }

  lemma SettledTick(s: State)
    requires SPlaced(s) && s.hand == Empty
    ensures SettledStay(s, Ticked(s))
  {
    PlacedTick(s.loop, s.drawn, s.queue, s.now);
  }

  lemma RoutedStay(l: LoopState, received: Result<Frame>, event: Option<EventSet>)
    requires forall id :: id in l.pending ==> Live(l.cells, l.pending[id].ticket)
    ensures StayPut(l.cells, HandlePacket(l, received, event).0.cells)
  {
  }

  lemma SettledTake(s: State, event: Option<EventSet>)
    requires SPlaced(s) && CanTake(s)
    ensures SettledStay(s, Took(s, event))
  {
    forall id | id in s.loop.pending ensures Live(s.loop.cells, s.loop.pending[id].ticket) {
      assert PendingPlaced(s.loop.cells, s.loop.pending, s.queue, s.hand, id);
    }
    RoutedStay(s.loop, s.channel[0], event);
  }

  lemma SettledDrop(s: State)
    requires SPlaced(s)
    ensures SettledStay(s, DroppedPending(s))
  {
    forall id | id in s.loop.pending ensures Live(s.loop.cells, s.loop.pending[id].ticket) {
      assert PendingPlaced(s.loop.cells, s.loop.pending, s.queue, s.hand, id);
    }
  }

  lemma SettledClose(s: State)
    requires SPlaced(s)
    ensures SettledStay(s, ClosedQueue(s))
  {
  }

  /** A command completes at most once: from then on nothing any task does changes its outcome. */
  lemma {:induction false} CompletesOnce(s: State, actions: seq<Action>, t: nat)
    requires SPlaced(s) && SExplained(s) && Legal(s, actions) && Unique(s, actions)
    requires t in s.loop.cells && s.loop.cells[t] != Waiting
    ensures t in After(s, actions).loop.cells && After(s, actions).loop.cells[t] == s.loop.cells[t]
    decreases |actions|
  {
    hide SPlaced, SExplained;
    if actions != [] {
      SettledStep(s, actions[0]);
      PlacedKept(s, actions[0]);
      CompletesOnce(Apply(s, actions[0]), actions[1..], t);
    }
  }

  // ----- what a caller can be told -----

  /** The only outcomes there are: the JVM's own answer under the command's own id, a lapsed budget, a
      failed write, or the recorded cause of the shutdown. "No reason recorded" is not among them. */
  lemma {:induction false} OutcomesAreExplained(actions: seq<Action>, s: State, t: nat)
    requires UnsharedRun(actions, s) && t in s.loop.cells && Observe(s.loop, t).Some?
    ensures match Observe(s.loop, t).value
      case Success(r) => t in s.answers && r == s.answers[t] && r.id == IdOf(t)
      case Failure(e) =>
        || (e == ReplyTimeout(30) && t in s.lapsed)
        || (e == Io && t in s.failed)
        || (s.loop.shutdown.Some? && e == ConnectionClosed(s.loop.shutdown.value))
  {
    UnsharedInv(actions, s);
    assert SourceOf(s.loop.cells[t], t, s.loop.deaf, s.answers, s.lapsed, s.failed);
  }

  /** An answer is discarded only if its caller has left. */
  ghost predicate Heard(l: LoopState) {
    l.deaf <= l.cells.Keys && forall t :: t in l.cells && l.cells[t] == Discarded ==> t in l.deaf
  }

  lemma HeardRouted(l: LoopState, received: Result<Frame>, event: Option<EventSet>)
    requires Heard(l)
    ensures Heard(HandlePacket(l, received, event).0)
  {
  }

  lemma HeardTick(l: LoopState, now: nat)
    requires Heard(l)
    ensures Heard(Cleanup(l, now))
  {
    hide LapsedTickets;
  }

  lemma HeardStep(s: State, a: Action)
    requires Heard(s.loop) && Enabled(s, a)
    ensures Heard(Apply(s, a).loop)
  {
    if !MovesOutcomes(a) {
      OutcomesUntouched(s, a);
    } else {
      match a {
        case Issue(t) =>
        case Abandon(_) =>
        case FailWrite(_) =>
        case Register =>
        case Tick => HeardTick(s.loop, s.now);
        case PeerAnswer(_, _, _) =>
        case TakePacket(event) => HeardRouted(s.loop, s.channel[0], event);
        case DropPending =>
        case CloseQueue =>
      }
    }
  }

  lemma {:induction false} HeardAlong(s: State, actions: seq<Action>)
    requires Heard(s.loop) && Legal(s, actions)
    ensures Heard(After(s, actions).loop)
    decreases |actions|
  {
    hide Heard;
    if actions != [] {
      HeardStep(s, actions[0]);
      HeardAlong(Apply(s, actions[0]), actions[1..]);
    }
  }

  /** Once the loop is gone nobody is left waiting, and whoever has no other answer, asking then or later, is
      told the one recorded cause. */
  lemma {:induction false} NobodyWaitsAfterExit(actions: seq<Action>, s: State, t: nat)
    requires Runs(actions, s) && s.phase.Exited? && t in s.loop.cells
    ensures s.loop.cells[t] != Waiting && s.loop.shutdown.Some?
    ensures s.loop.cells[t] == Dropped ==> Observe(s.loop, t) == Some(Failure(ConnectionClosed(s.loop.shutdown.value)))
    ensures t !in s.loop.deaf ==> Observe(s.loop, t).Some?
  {
    RunPlaced(actions, s);
    HeardAlong(Init(), actions);
    assert !Live(s.loop.cells, t);
  }

  /** A tick tells exactly the commands written more than 30 s ago and still unanswered, and no others. */
  lemma {:induction false} TickIsExact(actions: seq<Action>, s: State, t: nat)
    requires Runs(actions, s) && Enabled(s, Tick) && t in s.loop.cells
    ensures var late := IsPending(s.loop.pending, t) && s.now - s.loop.pending[IdOf(t)].sentAt > 30_000;
      && Ticked(s).loop.cells[t] ==
           (if !late then s.loop.cells[t]
            else if t in s.loop.deaf then Discarded
            else Done(Failure(ReplyTimeout(30))))
      && IsPending(Ticked(s).loop.pending, t) == (IsPending(s.loop.pending, t) && !late)
  {
    RunPlaced(actions, s);
    LapsedAreTheirTickets(s.loop, s.drawn, s.queue, s.now, t);
  }

  /** An entry of the pending map stays as it is until it goes. */
  lemma PendingKept(s: State, a: Action)
    requires Enabled(s, a) && FreeId(s, a)
    ensures forall id :: id in s.loop.pending && id in Apply(s, a).loop.pending ==>
      Apply(s, a).loop.pending[id] == s.loop.pending[id]
  {
    if !MovesCommands(a) {
      CommandsUntouched(s, a);
    } else {
      hide DecodeReply, FrameOf, LapsedTickets, PendingTickets, Complete;
    }
  }

  /** A command in the pending map waits nowhere else. */
  lemma WaitsHere(s: State, a: Action, t: nat)
    requires SPlaced(s) && SExplained(s) && Enabled(s, a) && FreeId(s, a) && IsPending(s.loop.pending, t)
    ensures t !in Apply(s, a).queue && !InHand(Apply(s, a).hand, t)
  {
    assert PendingPlaced(s.loop.cells, s.loop.pending, s.queue, s.hand, IdOf(t));
    if a.Issue? || a.Dequeue? || a.CloseQueue? || a.Write? || a.FailWrite? || a.Register? {
      hide Explained;
    } else {
      QueueUntouched(s, a);
      HandUntouched(s, a);
    }
  }

  lemma HandUntouched(s: State, a: Action)
    requires Enabled(s, a) && !a.Dequeue? && !a.Write? && !a.FailWrite? && !a.Register?
    ensures Apply(s, a).hand == s.hand
  {
    hide HandlePacket, Cleanup, Insert, Tell, DropSenders, FrameOf, EventFrame, ReplyFrame, ReadError, Complete, Wanted;
  }

  /** The command was entered at `at`, or is settled. */
  predicate EnteredAt(s: State, t: nat, at: nat) {
    && t in s.loop.cells
    && (Live(s.loop.cells, t) ==> IsPending(s.loop.pending, t) && s.loop.pending[IdOf(t)].sentAt == at)
  }

  lemma EnteredStep(s: State, a: Action, t: nat, at: nat)
    requires SPlaced(s) && SExplained(s) && Enabled(s, a) && FreeId(s, a) && EnteredAt(s, t, at)
    ensures EnteredAt(Apply(s, a), t, at)
  {
    SettledStep(s, a);
    PlacedKept(s, a);
    if Live(s.loop.cells, t) {
      PendingKept(s, a);
      WaitsHere(s, a, t);
    }
  }

  lemma {:induction false} EnteredAlong(s: State, actions: seq<Action>, t: nat, at: nat)
    requires SPlaced(s) && SExplained(s) && Legal(s, actions) && Unique(s, actions) && EnteredAt(s, t, at)
    ensures EnteredAt(After(s, actions), t, at)
    decreases |actions|
  {
    hide SPlaced, SExplained, EnteredAt;
    if actions != [] {
      EnteredStep(s, actions[0], t, at);
      PlacedKept(s, actions[0]);
      EnteredAlong(Apply(s, actions[0]), actions[1..], t, at);
    }
  }

  /** The budget runs from the moment a command was written: whatever happens in between, a tick gives up a
      command that is still waiting if and only if that was more than 30 s ago. */
  lemma {:induction false} BudgetRunsFromWriting(s: State, actions: seq<Action>, t: nat)
    requires SPlaced(s) && SExplained(s) && s.hand == Written(t) && FreeId(s, Register)
    requires Legal(Registered(s), actions) && Unique(Registered(s), actions)
    ensures var s' := After(Registered(s), actions);
      t in s'.loop.cells && s'.loop.cells[t] == Waiting && Enabled(s', Tick) ==>
        (t in Ticked(s').loop.cells && (Ticked(s').loop.cells[t] != Waiting <==> s'.now - s.now > 30_000))
  {
    var s1, s' := Registered(s), After(Registered(s), actions);
    PlacedKept(s, Register);
    assert EnteredAt(s1, t, s.now);
    hide Placed, Explained, Cleanup, Insert;
    EnteredAlong(s1, actions, t, s.now);
    PlacedAlong(s1, actions);
    if Live(s'.loop.cells, t) && Enabled(s', Tick) {
      LapsedAreTheirTickets(s'.loop, s'.drawn, s'.queue, s'.now, t);
    }
  }

  // ----- correlation -----

  /** A reply completes the command it answers and no other, unless nobody waits for that one any more;
      and then only because it timed out or its write failed. */
  lemma {:induction false} ReplyFindsItsCommand(actions: seq<Action>, s: State, event: Option<EventSet>)
    returns (t: nat)
    requires UnsharedRun(actions, s) && CanTake(s) && s.channel[0].Success? && s.channel[0].value.isReply
    ensures t in s.answers && t in s.loop.cells && s.channel[0].value.id == IdOf(t)
    ensures Took(s, event).loop == s.loop.(pending := Took(s, event).loop.pending, cells := Took(s, event).loop.cells)
    ensures IdOf(t) in s.loop.pending ==>
      && s.loop.pending[IdOf(t)].ticket == t && Took(s, event).loop.pending == s.loop.pending - {IdOf(t)}
      && Took(s, event).loop.cells
           == s.loop.cells[t := if t in s.loop.deaf then Discarded else Done(Success(s.answers[t]))]
    ensures IdOf(t) !in s.loop.pending ==> (t in s.lapsed || t in s.failed) && Took(s, event).loop == s.loop
  {
    UnsharedInv(actions, s);
    t := TakenReply(s);
    assert OnWire(s.toPeer, s.atPeer, s.answers, t);
    assert Took(s, event).loop == HandlePacket(s.loop, s.channel[0], event).0;
    assert Awaited(s, t);
  }

  /** Nothing queued, written, unanswered or unread. */
  predicate Quiet(s: State) {
    && s.queue == [] && s.hand == Empty && s.toPeer == [] && s.atPeer == {}
    && s.stream == [] && s.partial == [] && s.channel == []
  }

  lemma NothingLeftInFlight(s: State)
    requires Framing(s) && Quiet(s)
    ensures s.flight == []
  {
    assert s.flight[s.framed..] == s.flight;
    StreamOfNothing(s.flight);
  }

  lemma StreamOfNothing(frames: seq<Frame>)
    requires AllWellFramed(frames) && Stream(frames) == []
    ensures frames == []
  {
    assert frames != [] ==> WellFramed(frames[0]);
  }

  /** Once all is quiet nobody is left waiting. */
  lemma {:induction false} QuietMeansSettled(actions: seq<Action>, s: State, t: nat)
    requires UnsharedRun(actions, s) && Quiet(s) && s.phase.Running? && t in s.loop.cells
    ensures s.loop.cells[t] != Waiting
  {
    UnsharedInv(actions, s);
    NothingLeftInFlight(s);
    assert IsPending(s.loop.pending, t) ==> OnWire(s.toPeer, s.atPeer, s.answers, t);
    assert !Live(s.loop.cells, t);
  }

  /** And a command that did not itself time out or fail to be written has its own answer, whatever became of
      the others and however replies, errors, events, ticks and other callers were interleaved. */
  lemma {:induction false} QuietMeansAnswered(actions: seq<Action>, s: State, t: nat)
    requires UnsharedRun(actions, s) && Quiet(s) && s.phase.Running? && t !in s.lapsed && t !in s.failed
    requires t in s.loop.cells && t !in s.loop.deaf
    ensures t in s.answers && s.answers[t].id == IdOf(t)
    ensures Observe(s.loop, t) == Some(Success(s.answers[t]))
  {
    QuietMeansSettled(actions, s, t);
    UnsharedInv(actions, s);
    assert SourceOf(s.loop.cells[t], t, s.loop.deaf, s.answers, s.lapsed, s.failed);
  }

  // ----- write order is issue order -----

  /** The command this action puts on the queue, and the one it takes off to be written. */
  function Added(s: State, a: Action): seq<nat> {
    if a.Issue? && !s.phase.Exited? then [a.t] else []
  }

  function TakenOff(s: State, a: Action): seq<nat> {
    if a.Dequeue? && s.queue != [] then [s.queue[0]] else []
  }

  function QueuedBy(s: State, actions: seq<Action>): seq<nat>
    requires Legal(s, actions)
    decreases |actions|
  {
    if actions == [] then [] else Added(s, actions[0]) + QueuedBy(Apply(s, actions[0]), actions[1..])
  }

  function WrittenBy(s: State, actions: seq<Action>): seq<nat>
    requires Legal(s, actions)
    decreases |actions|
  {
    if actions == [] then [] else TakenOff(s, actions[0]) + WrittenBy(Apply(s, actions[0]), actions[1..])
  }

  predicate Closed(s: State) {
    s.phase.Exited? && s.queue == []
  }

  lemma QueueStep(s: State, a: Action)
    requires Enabled(s, a)
    ensures Closed(s) ==> Closed(Apply(s, a)) && Added(s, a) == [] == TakenOff(s, a)
    ensures a.CloseQueue? ==> Closed(Apply(s, a))
    ensures !a.CloseQueue? ==> s.queue + Added(s, a) == TakenOff(s, a) + Apply(s, a).queue
  {
    if !a.Issue? && !a.Dequeue? && !a.CloseQueue? {
      QueueUntouched(s, a);
    }
  }

  lemma QueueUntouched(s: State, a: Action)
    requires Enabled(s, a) && !a.Issue? && !a.Dequeue? && !a.CloseQueue?
    ensures Apply(s, a).queue == s.queue && (s.phase.Exited? ==> Apply(s, a).phase.Exited?)
  {
    hide HandlePacket, Cleanup, Insert, Tell, DropSenders, FrameOf, EventFrame, ReplyFrame, ReadError, Complete, Wanted;
  }

  lemma {:induction false} NothingAfterExit(s: State, actions: seq<Action>)
    requires Legal(s, actions) && Closed(s)
    ensures QueuedBy(s, actions) == [] && WrittenBy(s, actions) == [] && Closed(After(s, actions))
    decreases |actions|
  {
    if actions != [] {
      QueueStep(s, actions[0]);
      NothingAfterExit(Apply(s, actions[0]), actions[1..]);
    }
  }

  /** `written` is the front of `issued`, and `left` is the rest of it. */
  predicate InOrder(issued: seq<nat>, written: seq<nat>, left: seq<nat>, closed: bool) {
    written <= issued && (!closed ==> issued == written + left)
  }

  lemma InOrderStep(queue: seq<nat>, added: seq<nat>, taken: seq<nat>, queue': seq<nat>, more: seq<nat>,
                    written: seq<nat>, left: seq<nat>, closed: bool)
    requires queue + added == taken + queue' && InOrder(queue' + more, written, left, closed)
    ensures InOrder(queue + (added + more), taken + written, left, closed)
  {
    assert queue + (added + more) == (queue + added) + more;
    assert (taken + queue') + more == taken + (queue' + more);
  }

  /** Commands are written in the order they were issued, none skipped and none twice; what is not written
      yet is still queued until the queue is closed. */
  lemma {:induction false} WriteOrderIsIssueOrder(s: State, actions: seq<Action>)
    requires Legal(s, actions)
    ensures InOrder(s.queue + QueuedBy(s, actions), WrittenBy(s, actions), After(s, actions).queue,
                    Closed(After(s, actions)))
    decreases |actions|
  {
    if actions != [] {
      var a, s' := actions[0], Apply(s, actions[0]);
      QueueStep(s, a);
      if a.CloseQueue? {
        NothingAfterExit(s', actions[1..]);
      } else {
        WriteOrderIsIssueOrder(s', actions[1..]);
        InOrderStep(s.queue, Added(s, a), TakenOff(s, a), s'.queue, QueuedBy(s', actions[1..]),
                    WrittenBy(s', actions[1..]), After(s, actions).queue, Closed(After(s, actions)));
      }
    }
  }
}
