/** The other half of `Liveness`: if some window's worth of commands does not fit the send buffer, the wave can
    come to a state where everybody waits for somebody else. */
module Deadlock {
  import opened Liveness

  ghost predicate Reached(c: Setting, s: Net) {
    exists steps :: CanAll(c, Start(), steps) && DoAll(c, Start(), steps) == s
  }

  lemma {:induction false} CanAllThen(c: Setting, s: Net, steps: seq<Step>, step: Step)
    requires CanAll(c, s, steps) && Can(c, DoAll(c, s, steps), step)
    ensures CanAll(c, s, steps + [step]) && DoAll(c, s, steps + [step]) == Do(c, DoAll(c, s, steps), step)
    decreases |steps|
  {
    if steps == [] {
      assert CanAll(c, Do(c, s, step), []) && [step][1..] == [];
      assert steps + [step] == [step];
    } else {
      CanAllThen(c, Do(c, s, steps[0]), steps[1..], step);
      assert (steps + [step])[0] == steps[0] && (steps + [step])[1..] == steps[1..] + [step];
    }
  }

  lemma ReachedThen(c: Setting, s: Net, step: Step)
    requires Reached(c, s) && Can(c, s, step)
    ensures Reached(c, Do(c, s, step))
  {
    var steps :| CanAll(c, Start(), steps) && DoAll(c, Start(), steps) == s;
    CanAllThen(c, Start(), steps, step);
  }

  // ----- the wave served one command at a time -----

  /** How many commands are issued once `k` have been awaited. */
  function Ahead(c: Setting, k: nat): nat {
    if k + Wave.MAX_READS_IN_FLIGHT <= |c.commands| then k + Wave.MAX_READS_IN_FLIGHT else |c.commands|
  }

  function Answers(k: nat): (outs: seq<Out>)
    ensures |outs| == k && Reply(k) !in outs && forall i: nat :: i < k ==> outs[i] == Reply(i)
  {
    if k == 0 then [] else Answers(k - 1) + [Reply(k - 1)]
  }

  /** `k` commands written, read, answered, delivered and awaited; nothing under way. */
  function Served(c: Setting, k: nat): Net
    requires Sane(c) && k <= |c.commands|
  {
    Net(Ahead(c, k), k, false, k, UpTo(c.commands, k), UpTo(c.commands, k), Answers(k), c.replies[..k], 0,
        UpTo(c.replies, k), UpTo(c.replies, k), k, k)
  }

  lemma {:induction false} UpToPrefix(sizes: seq<nat>, n: nat, k: nat)
    requires k <= n <= |sizes|
    ensures UpTo(sizes[..n], k) == UpTo(sizes, k)
  {
    if k > 0 {
      UpToPrefix(sizes, n, k - 1);
    }
  }

  lemma {:induction false} IssueAll(c: Setting, n: nat)
    requires n <= |c.commands| && n <= Wave.MAX_READS_IN_FLIGHT
    ensures Reached(c, Start().(issued := n))
  {
    if n == 0 {
      assert CanAll(c, Start(), []) && DoAll(c, Start(), []) == Start();
    } else {
      IssueAll(c, n - 1);
      ReachedThen(c, Start().(issued := n - 1), Issue);
    }
  }

  lemma ServedNone(c: Setting)
    requires Sane(c)
    ensures Reached(c, Served(c, 0))
  {
    IssueAll(c, Ahead(c, 0));
    assert Served(c, 0) == Start().(issued := Ahead(c, 0));
  }

  /** Command `k` goes out and the JVM begins its reply. */
  function Underway(c: Setting, k: nat): Net
    requires Sane(c) && k < |c.commands|
  {
    Served(c, k).(written := k + 1, sent := UpTo(c.commands, k + 1), read := UpTo(c.commands, k + 1),
                  outs := Answers(k + 1), sizes := c.replies[..k + 1])
  }

  lemma WriteOne(c: Setting, k: nat)
    requires Sane(c) && k < |c.commands| && c.commands[k] <= c.sendRoom && Reached(c, Served(c, k))
    ensures Reached(c, Served(c, k).(written := k + 1, sent := UpTo(c.commands, k + 1)))
  {
    hide Reached;
    var s, n := Served(c, k), c.commands[k];
    ReachedThen(c, s, BeginWrite);
    ReachedThen(c, s.(busy := true), Write(n));
    ReachedThen(c, s.(busy := true, sent := s.sent + n), EndWrite);
  }

  lemma SendOne(c: Setting, k: nat)
    requires Sane(c) && k < |c.commands| && c.commands[k] <= c.sendRoom && Reached(c, Served(c, k))
    ensures Reached(c, Underway(c, k))
  {
    hide Reached;
    WriteOne(c, k);
    UpToPrefix(c.replies, k, k);
    var s := Served(c, k).(written := k + 1, sent := UpTo(c.commands, k + 1));
    ReachedThen(c, s, Step.PeerRead(c.commands[k]));
    ReachedThen(c, s.(read := s.sent), PeerReply(k));
    assert c.replies[..k] + [c.replies[k]] == c.replies[..k + 1];
  }

  /** `m` bytes of the packet being written reach the reader one by one. */
  lemma {:induction false} Ferry(c: Setting, s: Net, m: nat)
    requires Sane(c) && Reached(c, s) && s.fetched == s.replied && s.emitted < |s.sizes|
    requires s.replied + m <= UpTo(s.sizes, |s.sizes|) && s.fetched + m <= UpTo(s.sizes, s.emitted + 1)
    ensures Reached(c, s.(replied := s.replied + m, fetched := s.fetched + m))
    decreases m
  {
    hide Reached;
    if m > 0 {
      ReachedThen(c, s, PeerWrite(1));
      ReachedThen(c, s.(replied := s.replied + 1), Step.ReaderRead(1));
      Ferry(c, s.(replied := s.replied + 1, fetched := s.fetched + 1), m - 1);
    }
  }

  lemma ServeOne(c: Setting, k: nat)
    requires Sane(c) && k < |c.commands| && c.commands[k] <= c.sendRoom && Reached(c, Served(c, k))
    ensures Reached(c, Served(c, k + 1))
  {
    SendOne(c, k);
    UpToPrefix(c.replies, k + 1, k + 1);
    Ferry(c, Underway(c, k), c.replies[k]);
    var s := Underway(c, k).(replied := UpTo(c.replies, k + 1), fetched := UpTo(c.replies, k + 1));
    DeliverOne(c, k, s);
  }

  lemma DeliverOne(c: Setting, k: nat, s: Net)
    requires Sane(c) && k < |c.commands| && Reached(c, s)
    requires s == Served(c, k + 1).(issued := Ahead(c, k), got := k, emitted := k, taken := k)
    ensures Reached(c, Served(c, k + 1))
  {
    hide Reached, UpTo;
    UpToPrefix(c.replies, k + 1, k + 1);
    ReachedThen(c, s, Step.ReaderEmit);
    ReachedThen(c, s.(emitted := k + 1), Take);
    var t := s.(emitted := k + 1, taken := k + 1);
    assert t.outs[..k + 1][k] == Reply(k);
    ReachedThen(c, t, Await);
    if Ahead(c, k) < |c.commands| {
      ReachedThen(c, t.(got := k + 1), Issue);
    }
  }

  // ----- the jam -----

  /** The loop writes up to command `k` while the JVM reads nothing. */
  function Wrote(c: Setting, i: nat, k: nat): Net
    requires Sane(c) && i <= k <= |c.commands|
  {
    Served(c, i).(written := k, sent := UpTo(c.commands, k))
  }

  lemma {:induction false} WriteSome(c: Setting, i: nat, k: nat)
    requires Sane(c) && i <= k <= Ahead(c, i) && i <= |c.commands| && Fits(c, i, k) && Reached(c, Served(c, i))
    ensures Reached(c, Wrote(c, i, k))
  {
    hide Reached;
    if k > i {
      WriteSome(c, i, k - 1);
      UpToGrows(c.commands, i, k - 1);
      var s := Wrote(c, i, k - 1);
      ReachedThen(c, s, BeginWrite);
      ReachedThen(c, s.(busy := true), Write(c.commands[k - 1]));
      ReachedThen(c, s.(busy := true, sent := UpTo(c.commands, k)), EndWrite);
    }
  }

  /** The send buffer is full and the loop is in the middle of command `k`. */
  function Jammed(c: Setting, i: nat, k: nat): Net
    requires Sane(c) && i <= |c.commands|
  {
    Served(c, i).(written := k, busy := true, sent := UpTo(c.commands, i) + c.sendRoom)
  }

  lemma {:induction false} WriteUntilFull(c: Setting, i: nat, k: nat, j: nat) returns (full: nat)
    requires Sane(c) && i <= k <= j <= Ahead(c, i) && i <= |c.commands| && Reached(c, Served(c, i))
    requires Fits(c, i, k) && !Fits(c, i, j)
    ensures i <= full < Ahead(c, i) && !Fits(c, i, full + 1) && Reached(c, Jammed(c, i, full))
    decreases j - k
  {
    hide Reached;
    if Fits(c, i, k + 1) {
      full := WriteUntilFull(c, i, k + 1, j);
    } else {
      full := k;
      WriteSome(c, i, k);
      UpToGrows(c.commands, i, k);
      var s := Wrote(c, i, k);
      ReachedThen(c, s, BeginWrite);
      if s.sent < s.read + c.sendRoom {
        ReachedThen(c, s.(busy := true), Write(s.read + c.sendRoom - s.sent));
      }
    }
  }

  function SomeEvents(n: nat): (outs: seq<Out>)
    ensures |outs| == n && forall k: nat :: Reply(k) !in outs
  {
    if n == 0 then [] else SomeEvents(n - 1) + [Event(n - 1)]
  }

  function Ones(n: nat): (sizes: seq<nat>)
    ensures |sizes| == n && forall i :: 0 <= i < n ==> sizes[i] == 1
  {
    seq(n, i => 1)
  }

  lemma {:induction false} UpToConcat(a: seq<nat>, b: seq<nat>, k: nat)
    requires k <= |b|
    ensures UpTo(a + b, |a| + k) == UpTo(a, |a|) + UpTo(b, k)
  {
    if k == 0 {
      assert (a + b)[..|a|] == a;
      UpToPrefix(a + b, |a|, |a|);
    } else {
      UpToConcat(a, b, k - 1);
    }
  }

  lemma {:induction false} UpToOnes(n: nat, k: nat)
    requires k <= n
    ensures UpTo(Ones(n), k) == k
  {
    if k > 0 {
      UpToOnes(n, k - 1);
    }
  }

  /** Events enough to fill the channel, park the reader, and fill the receive buffer. */
  function Crowd(receiveRoom: nat): seq<nat> {
    Ones(Engine.PACKET_CHANNEL_DEPTH + 1) + [receiveRoom + 1]
  }

  /** All that was begun has been delivered, and no event yet. */
  predicate Clear(s: Net) {
    && s.events == 0 && |s.outs| == |s.sizes| == s.emitted == s.taken
    && s.replied == s.fetched == UpTo(s.sizes, |s.sizes|)
  }

  /** Then `n` events of one byte each have reached the reader, and the first `handed` of them the channel. */
  function Crowded(s: Net, n: nat, handed: nat): Net {
    s.(outs := s.outs + SomeEvents(n), sizes := s.sizes + Ones(n), events := n, replied := s.replied + n,
       fetched := s.fetched + n, emitted := s.emitted + handed)
  }

  lemma CrowdedSizes(s: Net, n: nat, k: nat)
    requires Clear(s) && k <= n
    ensures UpTo(Crowded(s, n, 0).sizes, |s.sizes| + k) == s.replied + k
  {
    UpToConcat(s.sizes, Ones(n), k);
    UpToOnes(n, k);
  }

  /** The JVM begins another event. */
  function Begun(s: Net, n: nat): Net {
    Crowded(s, n + 1, n).(replied := s.replied + n, fetched := s.fetched + n)
  }

  lemma OneMoreEvent(outs: seq<Out>, sizes: seq<nat>, n: nat)
    ensures outs + SomeEvents(n) + [Event(n)] == outs + SomeEvents(n + 1)
    ensures sizes + Ones(n) + [1] == sizes + Ones(n + 1)
  {
  }

  lemma BeginOne(c: Setting, s: Net, n: nat)
    requires Sane(c) && Clear(s) && n < |c.events| && c.events[n] == 1 && Reached(c, Crowded(s, n, n))
    ensures Reached(c, Begun(s, n))
  {
    hide Reached, SomeEvents, Ones, UpTo;
    CrowdedSizes(s, n, n);
    OneMoreEvent(s.outs, s.sizes, n);
    ReachedThen(c, Crowded(s, n, n), Step.PeerEvent);
  }

  lemma HearOne(c: Setting, s: Net, n: nat)
    requires Sane(c) && Clear(s) && n < |c.events| && c.events[n] == 1 && Reached(c, Crowded(s, n, n))
    ensures Reached(c, Crowded(s, n + 1, n))
  {
    hide Reached, SomeEvents, Ones, UpTo;
    BeginOne(c, s, n);
    CrowdedSizes(s, n + 1, n + 1);
    Ferry(c, Begun(s, n), 1);
  }

  lemma HearNext(c: Setting, s: Net, n: nat)
    requires Sane(c) && Clear(s) && n < Engine.PACKET_CHANNEL_DEPTH && n < |c.events| && c.events[n] == 1
    requires Reached(c, Crowded(s, n, n))
    ensures Reached(c, Crowded(s, n + 1, n + 1))
  {
    hide Reached, SomeEvents, Ones, UpTo;
    HearOne(c, s, n);
    CrowdedSizes(s, n + 1, n + 1);
    ReachedThen(c, Crowded(s, n + 1, n), Step.ReaderEmit);
  }

  lemma {:induction false} HearMany(c: Setting, s: Net, n: nat)
    requires Sane(c) && Clear(s) && n <= Engine.PACKET_CHANNEL_DEPTH && n <= |c.events| && Reached(c, s)
    requires forall i :: 0 <= i < n ==> c.events[i] == 1
    ensures Reached(c, Crowded(s, n, n))
  {
    if n == 0 {
      assert s.outs + [] == s.outs && s.sizes + [] == s.sizes;
      assert Crowded(s, 0, 0) == s;
    } else {
      HearMany(c, s, n - 1);
      HearNext(c, s, n - 1);
    }
  }

  /** Everybody waits: the loop for the send buffer, the JVM for ours, the reader for the channel, and the
      caller for a reply that none of them can bring. */
  ghost predicate Jam(c: Setting, s: Net) {
    && !Wave.MayIssue(Progress(c, s)) && !Delivered(s, s.got) && s.busy
    && s.written < |c.commands| && s.sent == s.read + c.sendRoom < UpTo(c.commands, s.written + 1)
    && s.fetched + c.receiveRoom == s.replied < UpTo(s.sizes, |s.sizes|)
    && s.emitted == s.taken + Engine.PACKET_CHANNEL_DEPTH < |s.sizes| && s.fetched == UpTo(s.sizes, s.emitted + 1)
  }

  lemma JamIsStuck(c: Setting, s: Net, step: Step)
    requires Jam(c, s)
    ensures !Can(c, s, step)
  {
  }

  lemma JammedIsClear(c: Setting, i: nat, k: nat)
    requires Sane(c) && i <= |c.commands|
    ensures Clear(Jammed(c, i, k))
  {
    UpToPrefix(c.replies, i, i);
  }

  /** With the reader parked, one event too large for our receive buffer, as much of it as fits. */
  function Crammed(c: Setting, i: nat, k: nat): Net
    requires Sane(c) && i <= |c.commands|
  {
    var n := Engine.PACKET_CHANNEL_DEPTH;
    var s := Crowded(Jammed(c, i, k), n + 1, n);
    s.(outs := s.outs + [Event(n + 1)], sizes := s.sizes + [c.receiveRoom + 1], events := n + 2,
       replied := s.replied + c.receiveRoom)
  }

  lemma OneMoreSize(sizes: seq<nat>, n: nat)
    ensures UpTo(sizes + [n], |sizes| + 1) == UpTo(sizes, |sizes|) + n
    ensures UpTo(sizes + [n], |sizes|) == UpTo(sizes, |sizes|)
  {
    UpToAppend(sizes, n, |sizes|);
  }

  lemma CrammedIsReached(c: Setting, i: nat, k: nat)
    requires Sane(c) && i <= |c.commands| && c.events == Crowd(c.receiveRoom)
    requires Reached(c, Crowded(Jammed(c, i, k), Engine.PACKET_CHANNEL_DEPTH + 1, Engine.PACKET_CHANNEL_DEPTH))
    ensures Reached(c, Crammed(c, i, k))
  {
    hide Reached, SomeEvents, Answers, UpTo;
    var n, base := Engine.PACKET_CHANNEL_DEPTH, Jammed(c, i, k);
    var parked := Crowded(base, n + 1, n);
    JammedIsClear(c, i, k);
    CrowdedSizes(base, n + 1, n + 1);
    OneMoreSize(parked.sizes, c.receiveRoom + 1);
    ReachedThen(c, parked, Step.PeerEvent);
    ReachedThen(c, Do(c, parked, Step.PeerEvent), PeerWrite(c.receiveRoom));
  }

  lemma CrammedIsJam(c: Setting, i: nat, k: nat)
    requires Sane(c) && i <= k < Ahead(c, i) && i < |c.commands| && !Fits(c, i, k + 1)
    ensures Jam(c, Crammed(c, i, k))
  {
    hide SomeEvents, UpTo;
    var n, base := Engine.PACKET_CHANNEL_DEPTH, Jammed(c, i, k);
    JammedIsClear(c, i, k);
    CrowdedSizes(base, n + 1, n + 1);
    OneMoreSize(Crowded(base, n + 1, n).sizes, c.receiveRoom + 1);
    assert Crammed(c, i, k).outs[..i] == Answers(i);
  }

  lemma JamAt(c: Setting, i: nat, j: nat) returns (s: Net)
    requires Sane(c) && i <= |c.commands| && i <= j <= Ahead(c, i) && !Fits(c, i, j)
    requires c.events == Crowd(c.receiveRoom) && Reached(c, Served(c, i))
    ensures Reached(c, s) && Jam(c, s) && s.got < |c.commands|
  {
    var k := WriteUntilFull(c, i, i, j);
    var base, n := Jammed(c, i, k), Engine.PACKET_CHANNEL_DEPTH;
    JammedIsClear(c, i, k);
    HearMany(c, base, n);
    HearOne(c, base, n);
    CrammedIsReached(c, i, k);
    CrammedIsJam(c, i, k);
    s := Crammed(c, i, k);
  }

  /** Serve the wave until its window no longer fits, then jam it. */
  lemma {:induction false} ServeUntilJam(c: Setting, i: nat, i': nat, j': nat) returns (s: Net)
    requires Sane(c) && i <= i' <= |c.commands| && j' <= |c.commands| && j' <= i' + Wave.MAX_READS_IN_FLIGHT
    requires !Fits(c, i', j') && c.events == Crowd(c.receiveRoom) && Reached(c, Served(c, i))
    ensures Reached(c, s) && Jam(c, s) && s.got < |c.commands|
    decreases |c.commands| - i
  {
    if j' < i' {
      UpToGrows(c.commands, j', i');
      assert false;
    }
    if i == i' {
      s := JamAt(c, i, j');
    } else if Fits(c, i, i + 1) {
      ServeOne(c, i);
      s := ServeUntilJam(c, i + 1, i', j');
    } else {
      s := JamAt(c, i, i + 1);
    }
  }

  // ----- exactly when a wave is safe -----

  /** Whatever events the JVM sends, somebody can always bring an unfinished wave further. */
  ghost predicate Safe(commands: seq<nat>, replies: seq<nat>, sendRoom: nat, receiveRoom: nat) {
    forall events: seq<nat>, s: Net ::
      Reached(Setting(commands, replies, events, sendRoom, receiveRoom), s) && s.got < |commands| ==>
        Moves(Setting(commands, replies, events, sendRoom, receiveRoom), s)
  }

  ghost predicate Moves(c: Setting, s: Net) {
    exists step :: Can(c, s, step) && !step.PeerEvent?
  }

  lemma ReachedMoves(c: Setting, s: Net)
    requires Sane(c) && Roomy(c) && Reached(c, s) && s.got < |c.commands|
    ensures Moves(c, s)
  {
    var steps :| CanAll(c, Start(), steps) && DoAll(c, Start(), steps) == s;
    StartInv(c);
    RunsKeep(c, Start(), steps);
    NeverStuck(c, s);
  }

  /** A wave of any length is free of deadlock if and only if each window's worth of its commands fits the
      send buffer: sixteen in a row, and no fewer will do. */
  lemma SafeIfAndOnlyIfRoomy(commands: seq<nat>, replies: seq<nat>, sendRoom: nat, receiveRoom: nat)
    requires Sane(Setting(commands, replies, [], sendRoom, receiveRoom))
    ensures Safe(commands, replies, sendRoom, receiveRoom)
            <==> Roomy(Setting(commands, replies, [], sendRoom, receiveRoom))
  {
    var c0 := Setting(commands, replies, [], sendRoom, receiveRoom);
    if Roomy(c0) {
      forall events: seq<nat>, s: Net | Reached(c0.(events := events), s) && s.got < |commands|
        ensures Moves(c0.(events := events), s)
      {
        SameFits(c0, events);
        ReachedMoves(c0.(events := events), s);
      }
    } else {
      UnroomyJams(c0);
    }
  }

  lemma SameFits(c: Setting, events: seq<nat>)
    requires Roomy(c)
    ensures Roomy(c.(events := events))
  {
    forall i, j | 0 <= i <= |c.commands| && 0 <= j <= |c.commands| && j <= i + Wave.MAX_READS_IN_FLIGHT
      ensures Fits(c.(events := events), i, j)
    {
      assert Fits(c, i, j);
    }
  }

  lemma UnroomyJams(c0: Setting)
    requires Sane(c0) && !Roomy(c0)
    ensures !Safe(c0.commands, c0.replies, c0.sendRoom, c0.receiveRoom)
  {
    var i, j :| 0 <= i <= |c0.commands| && 0 <= j <= |c0.commands| && j <= i + Wave.MAX_READS_IN_FLIGHT
      && !Fits(c0, i, j);
    var c := c0.(events := Crowd(c0.receiveRoom));
    assert !Fits(c, i, j);
    ServedNone(c);
    var s := ServeUntilJam(c, 0, i, j);
    forall step ensures !Can(c, s, step) {
      JamIsStuck(c, s, step);
    }
    assert !Moves(c, s);
    assert c == Setting(c0.commands, c0.replies, Crowd(c0.receiveRoom), c0.sendRoom, c0.receiveRoom);
  }
}
