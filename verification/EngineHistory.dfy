/** What the runs of the engine say about the byte stream, the shutdown cause and abandoned commands. */
module EngineHistory {
  import opened Wrappers
  import opened Bytes
  import opened Packets
  import opened EventTypes
  import opened Loop
  import opened Engine
  import opened EngineInvariant

  // ----- framing -----

  /** All that was read is the packets handed over and the reader's buffer. */
  ghost predicate Remembered(received: bytes, emitted: seq<Frame>, partial: bytes) {
    AllWellFramed(emitted) && received == Stream(emitted) + partial && |partial| <= Wanted(partial)
  }

  lemma RememberedRead(received: bytes, emitted: seq<Frame>, partial: bytes, got: bytes)
    requires Remembered(received, emitted, partial) && got != [] && |partial| + |got| <= Wanted(partial)
    ensures Remembered(received + got, emitted, partial + got)
  {
    assert Stream(emitted) + partial + got == Stream(emitted) + (partial + got);
    if |partial| >= HEADER_SIZE {
      HeaderStable(partial, got);
    }
  }

  lemma RememberedEmit(received: bytes, emitted: seq<Frame>, partial: bytes)
    requires Remembered(received, emitted, partial) && Complete(partial)
    ensures Remembered(received, emitted + [FrameOf(partial)], [])
  {
    StreamAppend(emitted, FrameOf(partial));
    assert Stream(emitted) + partial + [] == Stream(emitted) + partial;
  }

  predicate MovesHistory(a: Action) {
    a.ReaderRead? || a.ReaderEmit?
  }

  lemma HistoryUntouched(s: State, a: Action)
    requires Enabled(s, a) && !MovesHistory(a)
    ensures Apply(s, a).received == s.received && Apply(s, a).emitted == s.emitted && Apply(s, a).partial == s.partial
  {
  }

  lemma RememberedStep(s: State, a: Action)
    requires Enabled(s, a) && Remembered(s.received, s.emitted, s.partial)
    ensures var s' := Apply(s, a); Remembered(s'.received, s'.emitted, s'.partial)
  {
    if !MovesHistory(a) {
      HistoryUntouched(s, a);
    } else {
      match a {
        case ReaderRead(n) => RememberedRead(s.received, s.emitted, s.partial, s.stream[..n]);
        case ReaderEmit => RememberedEmit(s.received, s.emitted, s.partial);
      }
    }
  }

  lemma {:induction false} RememberedAlong(s: State, actions: seq<Action>)
    requires Legal(s, actions) && Remembered(s.received, s.emitted, s.partial)
    ensures var s' := After(s, actions); Remembered(s'.received, s'.emitted, s'.partial)
    decreases |actions|
  {
    if actions != [] {
      RememberedStep(s, actions[0]);
      RememberedAlong(Apply(s, actions[0]), actions[1..]);
    }
  }

  /** However the bytes were split into reads, and whatever ran in between, the packets handed to the loop
      are the framing of everything read, short of a last packet that is complete but still held. */
  lemma {:induction false} FramingIsExact(actions: seq<Action>, s: State)
    requires Legal(Init(), actions) && After(Init(), actions) == s
    ensures Scan(s.received).frames == s.emitted + Scan(s.partial).frames
    ensures Scan(s.received).foreign == Scan(s.partial).foreign
    ensures !Complete(s.partial) ==> Scan(s.received).frames == s.emitted
  {
    RememberedAlong(Init(), actions);
    ScanStream(s.emitted, s.partial);
  }

  // ----- the cause of a shutdown is what happened -----

  /** Why the reader reported an error: bytes that are not JDWP, or the JVM hung up. */
  ghost predicate TrueError(s: State, e: JdwpError) {
    && s.readerDone && !Complete(s.partial)
    && ((e == NotJdwpFramed && Foreign(s.partial)) || (e == Io && s.hungUp.Some? && !Foreign(s.partial)))
  }

  ghost predicate TrueCause(s: State, cause: Cause) {
    (cause == ConsumerDropped && s.loop.consumerGone) || (cause.ReadFailed? && TrueError(s, cause.error))
  }

  ghost predicate Truthful(s: State) {
    && (forall i :: 0 <= i < |s.channel| && s.channel[i].Failure? ==> TrueError(s, s.channel[i].error))
    && (s.phase.Stopping? ==> TrueCause(s, s.phase.cause))
    && (s.loop.shutdown.Some? ==> TrueCause(s, s.loop.shutdown.value))
  }

  /** Errors and causes stay true. */
  lemma TruthStays(s: State, a: Action)
    requires Enabled(s, a)
    ensures s.readerDone ==> Apply(s, a).readerDone && Apply(s, a).partial == s.partial
    ensures s.hungUp.Some? ==> Apply(s, a).hungUp.Some?
    ensures s.loop.consumerGone ==> Apply(s, a).loop.consumerGone
  {
    ReaderStaysDone(s, a);
    if s.loop.consumerGone {
      ConsumerStaysGone(s, a);
    }
  }

  lemma ReaderStaysDone(s: State, a: Action)
    requires Enabled(s, a)
    ensures s.readerDone ==> Apply(s, a).readerDone && Apply(s, a).partial == s.partial
    ensures s.hungUp.Some? ==> Apply(s, a).hungUp.Some?
  {
    hide HandlePacket, FrameOf, ReplyFrame, EventFrame, Cleanup, Insert, Tell, DropSenders, ReadError, Complete, Wanted;
  }

  lemma ConsumerStaysGone(s: State, a: Action)
    requires Enabled(s, a) && s.loop.consumerGone
    ensures Apply(s, a).loop.consumerGone
  {
    hide FrameOf, ReplyFrame, EventFrame, ReadError, LapsedIds, LapsedTickets, PendingTickets, Complete, Wanted;
    if a.TakePacket? {
      hide Took;
      TakeLeavesTheRest(s, a.event);
    }
  }

  lemma TakeLeavesTheRest(s: State, event: Option<EventSet>)
    requires CanTake(s)
    ensures Took(s, event).loop.consumerGone == s.loop.consumerGone
  {
  }

  predicate MovesCause(a: Action) {
    a.ReaderEmit? || a.ReaderFail? || a.TakePacket? || a.FindClosed? || a.RecordCause? || a.DropPending?
    || a.CloseQueue?
  }

  lemma CauseUntouched(s: State, a: Action)
    requires Enabled(s, a) && !MovesCause(a)
    ensures Apply(s, a).channel == s.channel && Apply(s, a).phase == s.phase
    ensures Apply(s, a).loop.shutdown == s.loop.shutdown
  {
  }

  /** The reader's last word, an error, is in the channel until the loop takes it and stops. */
  lemma NeverFindsItClosed(s: State)
    requires Framing(s)
    ensures !Enabled(s, FindClosed)
  {
  }

  lemma TruthfulStep(s: State, a: Action)
    requires Truthful(s) && Framing(s) && Enabled(s, a)
    ensures Truthful(Apply(s, a))
  {
    NeverFindsItClosed(s);
    hide Framing, Truthful;
    if !MovesCause(a) {
      TruthfulUntouched(s, a);
    } else {
      match a {
        case ReaderEmit => TruthfulEmit(s);
        case ReaderFail => TruthfulFail(s);
        case TakePacket(event) => TruthfulTake(s, event);
        case RecordCause => TruthfulExit(s, a);
        case DropPending => TruthfulExit(s, a);
        case CloseQueue => TruthfulExit(s, a);
      }
    }
  }

  lemma TruthfulUntouched(s: State, a: Action)
    requires Truthful(s) && Enabled(s, a) && !MovesCause(a)
    ensures Truthful(Apply(s, a))
  {
    TruthStays(s, a);
    CauseUntouched(s, a);
  }

  lemma TruthfulExit(s: State, a: Action)
    requires Truthful(s) && Enabled(s, a) && (a.RecordCause? || a.DropPending? || a.CloseQueue?)
    ensures Truthful(Apply(s, a))
  {
  }

  lemma TruthfulEmit(s: State)
    requires Truthful(s) && !s.readerDone && Complete(s.partial)
    ensures Truthful(Emitted(s))
  {
  }

  lemma TruthfulFail(s: State)
    requires Truthful(s) && Enabled(s, ReaderFail)
    ensures Truthful(ReaderFailed(s))
  {
  }

  lemma TruthfulTake(s: State, event: Option<EventSet>)
    requires Truthful(s) && CanTake(s)
    ensures Truthful(Took(s, event))
  {
    var (loop, cause) := HandlePacket(s.loop, s.channel[0], event);
    assert loop.shutdown == s.loop.shutdown && loop.consumerGone == s.loop.consumerGone;
    assert cause.Some? ==> TrueCause(s, cause.value);
  }

  lemma {:induction false} TruthfulAlong(s: State, actions: seq<Action>)
    requires Truthful(s) && Framing(s) && Legal(s, actions)
    ensures Truthful(After(s, actions))
    decreases |actions|
  {
    if actions != [] {
      TruthfulStep(s, actions[0]);
      FramingKept(s, actions[0]);
      TruthfulAlong(Apply(s, actions[0]), actions[1..]);
    }
  }

  /** The recorded cause is what happened: the consumer went, the stream turned out not to be JDWP, or the
      JVM hung up. The arm for a reader that ended without reporting is never taken. */
  lemma {:induction false} CauseIsTrue(actions: seq<Action>, s: State)
    requires Legal(Init(), actions) && After(Init(), actions) == s && s.loop.shutdown.Some?
    ensures match s.loop.shutdown.value
      case ConsumerDropped => s.loop.consumerGone
      case ReadFailed(e) =>
        (e == NotJdwpFramed && Scan(s.received).foreign) || (e == Io && s.hungUp.Some? && !Scan(s.received).foreign)
      case ReaderVanished => false
  {
    TruthfulAlong(Init(), actions);
    FramingIsExact(actions, s);
  }

  /** While the loop runs it cannot find the channel closed and empty. */
  lemma {:induction false} ReaderReportsBeforeItEnds(actions: seq<Action>, s: State)
    requires Legal(Init(), actions) && After(Init(), actions) == s && s.phase.Running? && s.readerDone
    ensures s.channel != [] && !Enabled(s, FindClosed)
  {
    FramingAlong(Init(), actions);
  }

  lemma {:induction false} FramingAlong(s: State, actions: seq<Action>)
    requires Framing(s) && Legal(s, actions)
    ensures Framing(After(s, actions))
    decreases |actions|
  {
    if actions != [] {
      FramingKept(s, actions[0]);
      FramingAlong(Apply(s, actions[0]), actions[1..]);
    }
  }

  // ----- abandoning a command -----

  /** The same but for one command whose caller has stopped waiting. */
  ghost predicate TwinLoop(l: LoopState, l': LoopState, t: nat) {
    && l' == l.(deaf := l.deaf + {t}, cells := l'.cells)
    && TwinCells(l.cells, l'.cells, t)
  }

  ghost predicate TwinCells(cells: Cells, cells': Cells, t: nat) {
    && cells'.Keys == cells.Keys
    && (forall u :: u in cells && u != t ==> cells'[u] == cells[u])
    && (t in cells ==> cells'[t] == cells[t] || (cells[t].Done? && cells'[t] == Discarded))
  }

  ghost predicate Twins(s: State, s': State, t: nat) {
    s' == s.(loop := s'.loop) && TwinLoop(s.loop, s'.loop, t)
  }

  lemma TwinTell(l: LoopState, l': LoopState, t: nat, u: nat, outcome: Result<ReplyPacket>)
    requires TwinLoop(l, l', t)
    ensures TwinLoop(Tell(l, u, outcome), Tell(l', u, outcome), t)
  {
  }

  lemma TwinInsert(l: LoopState, l': LoopState, t: nat, u: nat, now: nat)
    requires TwinLoop(l, l', t)
    ensures TwinLoop(Insert(l, u, now), Insert(l', u, now), t)
  {
  }

  lemma TwinCleanup(l: LoopState, l': LoopState, t: nat, now: nat)
    requires TwinLoop(l, l', t)
    ensures TwinLoop(Cleanup(l, now), Cleanup(l', now), t)
    ensures LapsedTickets(l', now) == LapsedTickets(l, now)
  {
    assert LapsedIds(l', now) == LapsedIds(l, now);
    assert LapsedTickets(l', now) == LapsedTickets(l, now);
  }

  lemma TwinDrop(l: LoopState, l': LoopState, t: nat, tickets: set<nat>)
    requires TwinLoop(l, l', t)
    ensures TwinLoop(DropSenders(l, tickets), DropSenders(l', tickets), t)
  {
  }

  lemma TwinHandle(l: LoopState, l': LoopState, t: nat, received: Result<Frame>, event: Option<EventSet>)
    requires TwinLoop(l, l', t)
    ensures TwinLoop(HandlePacket(l, received, event).0, HandlePacket(l', received, event).0, t)
    ensures HandlePacket(l', received, event).1 == HandlePacket(l, received, event).1
  {
  }

  lemma TwinsEnable(s: State, s': State, t: nat, a: Action)
    requires Twins(s, s', t)
    ensures Enabled(s, a) <==> Enabled(s', a)
  {
  }

  predicate MovesTwins(a: Action) {
    a.Issue? || a.FailWrite? || a.Register? || a.Tick? || a.TakePacket? || a.DropPending? || a.CloseQueue?
  }

  lemma TwinsUntouched(s: State, s': State, t: nat, a: Action)
    requires Twins(s, s', t) && Enabled(s, a) && Enabled(s', a) && !MovesTwins(a)
    ensures Twins(Apply(s, a), Apply(s', a), t)
  {
    hide Took, Complete, Scan, FrameOf, Cleanup, Insert, DropSenders;
  }

  lemma TwinsStep(s: State, s': State, t: nat, a: Action)
    requires Twins(s, s', t) && Enabled(s, a) && Enabled(s', a)
    ensures Twins(Apply(s, a), Apply(s', a), t)
  {
    if !MovesTwins(a) {
      TwinsUntouched(s, s', t, a);
    } else {
      match a {
        case Issue(u) => TwinsIssue(s, s', t, u);
        case FailWrite(_) => TwinTell(s.loop, s'.loop, t, s.hand.ticket, Failure(Io));
        case Register => TwinInsert(s.loop, s'.loop, t, s.hand.ticket, s.now);
        case Tick => TwinCleanup(s.loop, s'.loop, t, s.now);
        case TakePacket(event) => TwinsTake(s, s', t, event);
        case DropPending => TwinDrop(s.loop, s'.loop, t, PendingTickets(s.loop));
        case CloseQueue => TwinDrop(s.loop, s'.loop, t, set u | u in s.queue);
      }
    }
  }

  lemma TwinsIssue(s: State, s': State, t: nat, u: nat)
    requires Twins(s, s', t)
    ensures Twins(Issued(s, u), Issued(s', u), t)
  {
  }

  lemma TwinsTake(s: State, s': State, t: nat, event: Option<EventSet>)
    requires Twins(s, s', t) && CanTake(s)
    ensures Twins(Took(s, event), Took(s', event), t)
  {
    TwinHandle(s.loop, s'.loop, t, s.channel[0], event);
  }

  lemma {:induction false} TwinsAlong(s: State, s': State, t: nat, actions: seq<Action>)
    requires Twins(s, s', t)
    ensures Legal(s, actions) <==> Legal(s', actions)
    ensures Legal(s, actions) ==> Twins(After(s, actions), After(s', actions), t)
    decreases |actions|
  {
    if actions != [] {
      TwinsEnable(s, s', t, actions[0]);
      if Enabled(s, actions[0]) {
        TwinsStep(s, s', t, actions[0]);
        TwinsAlong(Apply(s, actions[0]), Apply(s', actions[0]), t, actions[1..]);
      }
    }
  }

  /** Abandoning a command changes nothing for anybody else: the same runs are possible afterwards, and in
      each the JVM sees the same, the same packets arrive, and every other command ends the same. */
  lemma {:induction false} AbandonTouchesNobodyElse(s: State, t: nat, actions: seq<Action>, u: nat)
    requires t in s.loop.cells && u != t
    ensures Legal(s, actions) <==> Legal(Apply(s, Abandon(t)), actions)
    ensures Legal(s, actions) ==>
      var kept, left := After(s, actions), After(Apply(s, Abandon(t)), actions);
      && left == kept.(loop := kept.loop.(deaf := kept.loop.deaf + {t}, cells := left.loop.cells))
      && (u in kept.loop.cells <==> u in left.loop.cells)
      && (u in kept.loop.cells ==> Observe(left.loop, u) == Observe(kept.loop, u))
  {
    TwinsAlong(s, Apply(s, Abandon(t)), t, actions);
  }
}
