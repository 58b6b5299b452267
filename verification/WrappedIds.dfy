/** The two runs in which the 32-bit id counter comes round: the bound on ids in `EngineRuns` is exact. */
module WrappedIds {
  import opened Wrappers
  import opened Bytes
  import opened Packets
  import opened EventTypes
  import opened Loop
  import opened Engine
  import opened EngineInvariant
  import opened EngineRuns

  function Draws(n: nat): seq<Action> {
    if n == 0 then [] else Draws(n - 1) + [Draw]
  }

  lemma {:induction false} DrawsReach(n: nat)
    ensures Runs(Draws(n), Init().(drawn := n))
  {
    if n > 0 {
      DrawsReach(n - 1);
      RunsThen(Draws(n - 1), Init().(drawn := n - 1), Draw);
    }
  }

  /** A command that has been written and not yet entered in the pending map. */
  function Underway(s: State, t: nat): State {
    s.(loop := s.loop.(cells := s.loop.cells[t := Waiting]), toPeer := s.toPeer + [t], hand := Written(t))
  }

  /** An idle loop takes one command and writes it. */
  lemma {:induction false} WriteOne(s: State, run: seq<Action>, t: nat) returns (run': seq<Action>)
    requires Runs(run, s) && s.phase == Running && s.hand == Empty && s.queue == []
    requires t < s.drawn && t !in s.loop.cells
    ensures Runs(run', Underway(s, t))
  {
    hide Runs;
    RunsThen(run, s, Issue(t));
    RunsThen(run + [Issue(t)], Issued(s, t), Dequeue);
    var s2, run2 := Dequeued(Issued(s, t)), run + [Issue(t)] + [Dequeue];
    RunsThen(run2, s2, Write);
    run' := run2 + [Write];
    assert s2.queue == [];
    assert Wrote(s2) == Underway(s, t);
  }

  /** And enters it in the pending map, under an id that is not there. */
  lemma {:induction false} SendOne(s: State, run: seq<Action>, t: nat) returns (s': State, run': seq<Action>)
    requires Runs(run, s) && s.phase == Running && s.hand == Empty && s.queue == []
    requires t < s.drawn && t !in s.loop.cells && IdOf(t) !in s.loop.pending
    ensures Runs(run', s')
    ensures s' == s.(loop := Insert(s.loop.(cells := s.loop.cells[t := Waiting]), t, s.now), toPeer := s.toPeer + [t])
  {
    hide Runs;
    run' := WriteOne(s, run, t);
    RunsThen(run', Underway(s, t), Register);
    s', run' := Registered(Underway(s, t)), run' + [Register];
  }

  /** One draw more than there are ids, and a second command outstanding under the id of the first takes its
      place in the pending map, so the first loses its sender with no reason recorded. */
  lemma WrappedIdLosesACommand() returns (s: State, run: seq<Action>)
    ensures Legal(Init(), run) && After(Init(), run) == s && s.drawn == ID_SPACE + 1
    ensures 0 in s.loop.cells && Observe(s.loop, 0) == Some(Failure(NoReasonRecorded))
  {
    DrawsReach(ID_SPACE + 1);
    var s1, run1 := SendOne(Init().(drawn := ID_SPACE + 1), Draws(ID_SPACE + 1), 0);
    var run2 := WriteOne(s1, run1, ID_SPACE);
    var s2 := Underway(s1, ID_SPACE);
    LegalThen(Init(), run2, Register);
    s, run := Registered(s2), run2 + [Register];
  }

  /** The JVM reads the first command it was sent and answers it. */
  lemma {:induction false} JvmAnswersFirst(s: State, run: seq<Action>, t: nat, r: ReplyPacket)
    returns (s': State, run': seq<Action>)
    requires Runs(run, s)
    requires s.toPeer != [] && s.toPeer[0] == t && s.hungUp.None? && s.stream == [] && r == ReplyPacket(IdOf(t), 0, [])
    ensures Runs(run', s')
    ensures s' == s.(toPeer := s'.toPeer, atPeer := s'.atPeer, flight := s'.flight, askers := s'.askers,
                     stream := EncodeReply(r), answers := s.answers[t := r])
  {
    hide Runs;
    RunsThen(run, s, PeerRead);
    var s1, run1 := Apply(s, PeerRead), run + [PeerRead];
    RunsThen(run1, s1, PeerAnswer(t, 0, []));
    s', run' := Answered(s1, t, 0, []), run1 + [PeerAnswer(t, 0, [])];
    assert [] + EncodeReply(r) == EncodeReply(r);
  }

  /** An empty reply is as long as a header, so one read completes it. */
  lemma OneReadCompletes(r: ReplyPacket)
    requires r.data == []
    ensures |EncodeReply(r)| == HEADER_SIZE == Wanted([])
    ensures Complete(EncodeReply(r)) && FrameOf(EncodeReply(r)) == ReplyFrame(r)
  {
    ReplyIsWellFramed(r);
  }

  /** An empty reply takes one read and is handed over. */
  lemma {:induction false} ReaderHandsOver(s: State, run: seq<Action>, r: ReplyPacket)
    returns (s': State, run': seq<Action>)
    requires Runs(run, s) && r.data == []
    requires s.stream == EncodeReply(r) && s.partial == [] && s.channel == [] && !s.readerDone
    ensures Runs(run', s')
    ensures s'.loop == s.loop && s'.answers == s.answers && s'.drawn == s.drawn
    ensures s'.phase == s.phase && s'.hand == s.hand && s'.channel == [Success(ReplyFrame(r))]
  {
    hide Runs, Complete, FrameOf, ReplyFrame, EncodeReply, Wanted;
    OneReadCompletes(r);
    var full := s.stream;
    assert full[..HEADER_SIZE] == full && [] + full == full;
    RunsThen(run, s, ReaderRead(HEADER_SIZE));
    var s1, run1 := Received(s, HEADER_SIZE), run + [ReaderRead(HEADER_SIZE)];
    assert s1.partial == full;
    RunsThen(run1, s1, ReaderEmit);
    s', run' := Emitted(s1), run1 + [ReaderEmit];
  }

  lemma {:induction false} TakesReply(s: State, run: seq<Action>, f: Frame) returns (s': State, run': seq<Action>)
    requires Runs(run, s) && s.phase == Running && s.hand == Empty
    requires s.channel == [Success(f)] && f.isReply
    ensures Runs(run', s')
    ensures s'.loop == RouteReply(s.loop, f.id, f.full) && s'.answers == s.answers && s'.drawn == s.drawn
  {
    hide Runs;
    RunsThen(run, s, TakePacket(None));
    s', run' := Took(s, None), run + [TakePacket(None)];
  }

  /** Cleaning up a lone entry that has lapsed. */
  lemma CleansUpOne(l: LoopState, t: nat, now: nat)
    requires t !in l.deaf && l.cells == map[t := Waiting] && l.pending == map[IdOf(t) := Pending(t, 0)]
    requires now > REPLY_TIMEOUT_MS
    ensures Cleanup(l, now)
            == l.(pending := map[], cells := map[t := Done(Failure(ReplyTimeout(REPLY_TIMEOUT_SECS)))])
  {
    assert LapsedIds(l, now) == {IdOf(t)};
    assert LapsedTickets(l, now) == {t} by {
      assert IdOf(t) in LapsedIds(l, now);
    }
  }

  /** 30 s and a bit after a lone command was written, a tick gives it up. */
  lemma {:induction false} GivesUp(s: State, run: seq<Action>, t: nat) returns (s': State, run': seq<Action>)
    requires Runs(run, s)
    requires s.phase == Running && s.hand == Empty && s.now == 0 && t !in s.loop.deaf
    requires s.loop.cells == map[t := Waiting]
    requires s.loop.pending == map[IdOf(t) := Pending(t, 0)]
    ensures Runs(run', s')
    ensures s' == s.(loop := s'.loop, now := s'.now, lapsed := s'.lapsed)
    ensures s'.loop == s.loop.(pending := map[], cells := map[t := Done(Failure(ReplyTimeout(REPLY_TIMEOUT_SECS)))])
  {
    hide Runs, Cleanup, LapsedTickets;
    RunsThen(run, s, Advance(REPLY_TIMEOUT_MS + 1));
    var s1, run1 := s.(now := REPLY_TIMEOUT_MS + 1), run + [Advance(REPLY_TIMEOUT_MS + 1)];
    CleansUpOne(s.loop, t, s1.now);
    RunsThen(run1, s1, Tick);
    s', run' := Ticked(s1), run1 + [Tick];
  }

  /** Unique among the outstanding is not enough for correlation. With one draw more than there are ids, the
      late answer to a command that timed out reaches a later command that has its id, and is taken for an
      answer the JVM never gave. */
  lemma WrappedIdMisroutesALateReply() returns (s: State, run: seq<Action>)
    ensures Runs(run, s) && !UnsharedRun(run, s) && s.drawn == ID_SPACE + 1
    ensures ID_SPACE in s.loop.cells && ID_SPACE !in s.answers && 0 in s.answers
    ensures Observe(s.loop, ID_SPACE) == Some(Success(s.answers[0]))
  {
    hide Runs;
    DrawsReach(ID_SPACE + 1);
    var s1, run1 := SendOne(Init().(drawn := ID_SPACE + 1), Draws(ID_SPACE + 1), 0);
    var s2, run2 := GivesUp(s1, run1, 0);
    var s3, run3 := SendOne(s2, run2, ID_SPACE);
    var r := ReplyPacket(IdOf(0), 0, []);
    var s4, run4 := JvmAnswersFirst(s3, run3, 0, r);
    var s5, run5 := ReaderHandsOver(s4, run4, r);
    s, run := TakesReply(s5, run5, ReplyFrame(r));
    ReplyRoundTrip(r);
    if UnsharedRun(run, s) {
      OutcomesAreExplained(run, s, ID_SPACE);
      assert false;
    }
  }
}
