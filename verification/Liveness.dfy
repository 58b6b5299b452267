/** Why a wave cannot deadlock: the engine's buffers, counted in bytes (`connection.rs`, `eventloop.rs`).

    The loop may block writing into the send buffer, the JVM may block writing into our receive buffer, and
    the reader may be parked on a full channel. What breaks the cycle is that everything the window allows
    to be outstanding fits the send buffer. */
module Liveness {
  import Engine
  import Wave

  /** One wave and its surroundings: sizes of its commands, of their replies and of the events the JVM may
      send in between, and the room in the two socket buffers. */
  datatype Setting = Setting(commands: seq<nat>, replies: seq<nat>, events: seq<nat>, sendRoom: nat, receiveRoom: nat)

  ghost predicate Sane(c: Setting) {
    |c.replies| == |c.commands| && c.receiveRoom > 0 && forall i :: 0 <= i < |c.commands| ==> c.commands[i] > 0
  }

  function UpTo(sizes: seq<nat>, k: nat): nat
    requires k <= |sizes|
  {
    if k == 0 then 0 else UpTo(sizes, k - 1) + sizes[k - 1]
  }

  /** The commands `i` up to `j`, a window's worth at most, fit the send buffer. */
  predicate Fits(c: Setting, i: nat, j: nat)
    requires i <= |c.commands| && j <= |c.commands|
  {
    UpTo(c.commands, j) <= UpTo(c.commands, i) + c.sendRoom
  }

  ghost predicate Roomy(c: Setting) {
    forall i, j :: 0 <= i <= |c.commands| && 0 <= j <= |c.commands| && j <= i + 16 ==> Fits(c, i, j)
  }

  datatype Out = Reply(command: nat) | Event(n: nat)

  datatype Net = Net(
    issued: nat,    // by the wave
    got: nat,       // replies the wave has awaited, oldest first
    busy: bool,     // the loop is writing command number `written`
    written: nat,
    sent: nat,      // bytes into the send buffer
    read: nat,      // bytes out of it
    outs: seq<Out>, // packets the JVM has begun to write
    sizes: seq<nat>,
    events: nat,    // of which events
    replied: nat,   // bytes into the receive buffer
    fetched: nat,   // bytes out of it
    emitted: nat,   // packets onto the channel
    taken: nat)     // packets off it

  datatype Step =
    | Issue
    | Await
    | BeginWrite
    | Write(n: nat)
    | EndWrite
    | PeerRead(n: nat)
    | PeerReply(command: nat)
    | PeerEvent
    | PeerWrite(n: nat)
    | ReaderRead(n: nat)
    | ReaderEmit
    | Take

  function Start(): Net {
    Net(0, 0, false, 0, 0, 0, [], [], 0, 0, 0, 0, 0)
  }

  predicate Idle(s: Net) {
    s.replied == UpTo(s.sizes, |s.sizes|)
  }

  predicate Delivered(s: Net, command: nat) {
    s.taken <= |s.outs| && Reply(command) in s.outs[..s.taken]
  }

  /** Where the wave's caller is. */
  function Progress(c: Setting, s: Net): Wave.Control {
    Wave.Control(|c.commands|, s.issued, s.got, false)
  }

  predicate Can(c: Setting, s: Net, step: Step) {
    match step
    case Issue => Wave.MayIssue(Progress(c, s))
    case Await => Wave.MayAwait(Progress(c, s)) && Delivered(s, s.got)
    case BeginWrite => !s.busy && s.written < s.issued
    case Write(n) =>
      && s.busy && s.written < |c.commands| && n > 0
      && s.sent + n <= UpTo(c.commands, s.written + 1) && s.sent + n <= s.read + c.sendRoom
    case EndWrite => s.busy && s.written < |c.commands| && s.sent == UpTo(c.commands, s.written + 1)
    // The JVM reads and writes on one thread: while a packet does not fit, it reads nothing.
    case PeerRead(n) => Idle(s) && n > 0 && s.read + n <= s.sent
    case PeerReply(k) =>
      Idle(s) && k < |c.commands| == |c.replies| && UpTo(c.commands, k + 1) <= s.read && Reply(k) !in s.outs
    case PeerEvent => Idle(s) && s.events < |c.events|
    case PeerWrite(n) =>
      n > 0 && s.replied + n <= UpTo(s.sizes, |s.sizes|) && s.replied + n <= s.fetched + c.receiveRoom
    case ReaderRead(n) =>
      && s.emitted < |s.sizes| && n > 0
      && s.fetched + n <= s.replied && s.fetched + n <= UpTo(s.sizes, s.emitted + 1)
    case ReaderEmit =>
      && s.emitted < |s.sizes| && s.fetched == UpTo(s.sizes, s.emitted + 1)
      && s.emitted < s.taken + Engine.PACKET_CHANNEL_DEPTH
    case Take => !s.busy && s.taken < s.emitted
  }

  function Do(c: Setting, s: Net, step: Step): Net
    requires Can(c, s, step)
  {
    match step
    case Issue => s.(issued := s.issued + 1)
    case Await => s.(got := s.got + 1)
    case BeginWrite => s.(busy := true)
    case Write(n) => s.(sent := s.sent + n)
    case EndWrite => s.(busy := false, written := s.written + 1)
    case PeerRead(n) => s.(read := s.read + n)
    case PeerReply(k) => s.(outs := s.outs + [Reply(k)], sizes := s.sizes + [c.replies[k]])
    case PeerEvent =>
      s.(outs := s.outs + [Event(s.events)], sizes := s.sizes + [c.events[s.events]], events := s.events + 1)
    case PeerWrite(n) => s.(replied := s.replied + n)
    case ReaderRead(n) => s.(fetched := s.fetched + n)
    case ReaderEmit => s.(emitted := s.emitted + 1)
    case Take => s.(taken := s.taken + 1)
  }

  // ----- the invariant -----

  ghost predicate Sending(c: Setting, s: Net) {
    && s.got <= s.issued <= |c.commands| && s.issued <= s.got + Wave.MAX_READS_IN_FLIGHT
    && s.written <= s.issued && (s.busy ==> s.written < s.issued)
    && UpTo(c.commands, s.written) <= s.sent <= UpTo(c.commands, if s.busy then s.written + 1 else s.written)
    && s.read <= s.sent
  }

  ghost predicate Answering(c: Setting, s: Net) {
    && |s.outs| == |s.sizes| && s.events <= |c.events|
    && (forall k: nat :: Reply(k) in s.outs ==> k < |c.commands| && UpTo(c.commands, k + 1) <= s.read)
    && (forall k: nat :: k < s.got ==> Reply(k) in s.outs)
  }

  ghost predicate Receiving(s: Net) {
    && s.fetched <= s.replied <= UpTo(s.sizes, |s.sizes|)
    && s.taken <= s.emitted <= |s.sizes|
    && UpTo(s.sizes, s.emitted) <= s.fetched
    && (s.emitted < |s.sizes| ==> s.fetched <= UpTo(s.sizes, s.emitted + 1))
  }

  /** What is begun and what is not make up all there is to send. */
  ghost predicate Conserved(c: Setting, s: Net) {
    |c.replies| == |c.commands| && s.events <= |c.events|
    && |s.sizes| + UpTo(s.sizes, |s.sizes|) + Unanswered(c, s.outs, |c.replies|) + Unsent(c, s.events) == Budget(c)
  }

  function Unanswered(c: Setting, outs: seq<Out>, k: nat): nat
    requires k <= |c.replies|
  {
    if k == 0 then 0 else Unanswered(c, outs, k - 1) + (if Reply(k - 1) in outs then 0 else 1 + c.replies[k - 1])
  }

  function Unsent(c: Setting, events: nat): nat
    requires events <= |c.events|
    decreases |c.events| - events
  {
    if events == |c.events| then 0 else 1 + c.events[events] + Unsent(c, events + 1)
  }

  function Budget(c: Setting): nat {
    Unanswered(c, [], |c.replies|) + Unsent(c, 0)
  }

  ghost predicate Inv(c: Setting, s: Net) {
    Sending(c, s) && Answering(c, s) && Receiving(s) && Conserved(c, s)
  }

  lemma {:induction false} UpToGrows(sizes: seq<nat>, i: nat, j: nat)
    requires i <= j <= |sizes|
    ensures UpTo(sizes, i) <= UpTo(sizes, j)
  {
    if i < j {
      UpToGrows(sizes, i, j - 1);
    }
  }

  lemma {:induction false} UpToAppend(sizes: seq<nat>, n: nat, k: nat)
    requires k <= |sizes|
    ensures UpTo(sizes + [n], k) == UpTo(sizes, k)
  {
    if k > 0 {
      UpToAppend(sizes, n, k - 1);
    }
  }

  lemma {:induction false} UnansweredLess(c: Setting, outs: seq<Out>, i: nat, k: nat)
    requires k <= |c.replies| && i < |c.replies| && Reply(i) !in outs
    ensures Unanswered(c, outs, k) == Unanswered(c, outs + [Reply(i)], k) + (if i < k then 1 + c.replies[i] else 0)
  {
    if k > 0 {
      UnansweredLess(c, outs, i, k - 1);
    }
  }

  lemma {:induction false} UnansweredSame(c: Setting, outs: seq<Out>, n: nat, k: nat)
    requires k <= |c.replies|
    ensures Unanswered(c, outs + [Event(n)], k) == Unanswered(c, outs, k)
  {
    if k > 0 {
      UnansweredSame(c, outs, n, k - 1);
    }
  }

  lemma StartInv(c: Setting)
    requires Sane(c)
    ensures Inv(c, Start())
  {
  }

  lemma {:induction false} InvKept(c: Setting, s: Net, step: Step)
    requires Inv(c, s) && Can(c, s, step)
    ensures Inv(c, Do(c, s, step))
  {
    match step {
      case PeerReply(k) => PeerReplyKept(c, s, k);
      case PeerEvent => PeerEventKept(c, s);
      case Await => AwaitKept(c, s);
      case Issue => SenderKept(c, s, step);
      case BeginWrite => SenderKept(c, s, step);
      case Write(_) => SenderKept(c, s, step);
      case EndWrite => SenderKept(c, s, step);
      case PeerRead(_) => SenderKept(c, s, step);
      case PeerWrite(_) => ReceiverKept(c, s, step);
      case ReaderRead(_) => ReceiverKept(c, s, step);
      case ReaderEmit => ReceiverKept(c, s, step);
      case Take => ReceiverKept(c, s, step);
    }
  }

  lemma SenderKept(c: Setting, s: Net, step: Step)
    requires Inv(c, s) && Can(c, s, step)
    requires step.Issue? || step.BeginWrite? || step.Write? || step.EndWrite? || step.PeerRead?
    ensures Inv(c, Do(c, s, step))
  {
    hide Receiving, Conserved, Idle;
    SameReceiving(s, Do(c, s, step));
    SameConserved(c, s, Do(c, s, step));
  }

  lemma ReceiverKept(c: Setting, s: Net, step: Step)
    requires Inv(c, s) && Can(c, s, step)
    requires step.PeerWrite? || step.ReaderRead? || step.ReaderEmit? || step.Take?
    ensures Inv(c, Do(c, s, step))
  {
    hide Sending, Answering, Conserved;
    SameSending(c, s, Do(c, s, step));
    SameConserved(c, s, Do(c, s, step));
  }

  lemma SameSending(c: Setting, s: Net, s': Net)
    requires Sending(c, s) && Answering(c, s)
    requires s' == s.(replied := s'.replied, fetched := s'.fetched, emitted := s'.emitted, taken := s'.taken)
    ensures Sending(c, s') && Answering(c, s')
  {
  }

  lemma SameReceiving(s: Net, s': Net)
    requires Receiving(s)
    requires s' == s.(issued := s'.issued, got := s'.got, busy := s'.busy, written := s'.written, sent := s'.sent,
                      read := s'.read)
    ensures Receiving(s')
  {
  }

  lemma SameConserved(c: Setting, s: Net, s': Net)
    requires Conserved(c, s) && s'.outs == s.outs && s'.sizes == s.sizes && s'.events == s.events
    ensures Conserved(c, s')
  {
  }

  lemma AwaitKept(c: Setting, s: Net)
    requires Inv(c, s) && Can(c, s, Await)
    ensures Inv(c, Do(c, s, Await))
  {
  }

  lemma PacketBegun(s: Net, n: nat, s': Net)
    requires Receiving(s) && Idle(s) && s' == s.(sizes := s.sizes + [n], outs := s'.outs, events := s'.events)
    ensures Receiving(s') && UpTo(s'.sizes, |s'.sizes|) == UpTo(s.sizes, |s.sizes|) + n
  {
    UpToAppend(s.sizes, n, |s.sizes|);
    UpToAppend(s.sizes, n, s.emitted);
    if s.emitted < |s.sizes| {
      UpToAppend(s.sizes, n, s.emitted + 1);
    }
  }

  lemma PeerReplyKept(c: Setting, s: Net, k: nat)
    requires Inv(c, s) && Can(c, s, PeerReply(k))
    ensures Inv(c, Do(c, s, PeerReply(k)))
  {
    PacketBegun(s, c.replies[k], Do(c, s, PeerReply(k)));
    UnansweredLess(c, s.outs, k, |c.replies|);
  }

  lemma PeerEventKept(c: Setting, s: Net)
    requires Inv(c, s) && Can(c, s, PeerEvent)
    ensures Inv(c, Do(c, s, PeerEvent))
  {
    PacketBegun(s, c.events[s.events], Do(c, s, PeerEvent));
    UnansweredSame(c, s.outs, s.events, |c.replies|);
  }

  // ----- no deadlock -----

  function Times(n: nat, most: nat): nat {
    if n == 0 then 0 else Times(n - 1, most) + most
  }

  lemma {:induction false} TimesIs(n: nat, most: nat)
    ensures Times(n, most) == n * most
  {
    if n > 0 {
      TimesIs(n - 1, most);
      assert (n - 1) * most + most == n * most;
    }
  }

  lemma {:induction false} SpanFits(sizes: seq<nat>, i: nat, j: nat, span: nat, most: nat)
    requires i <= |sizes| && j <= |sizes| && j <= i + span
    requires forall k :: 0 <= k < |sizes| ==> sizes[k] <= most
    ensures UpTo(sizes, j) <= UpTo(sizes, i) + Times(span, most)
  {
    if j <= i {
      UpToGrows(sizes, j, i);
    } else {
      SpanFits(sizes, i, j - 1, span - 1, most);
    }
  }

  /** The source's own argument: sixteen commands of bounded size against the size of the buffer. */
  lemma SmallCommandsAreRoomy(c: Setting, most: nat)
    requires forall k :: 0 <= k < |c.commands| ==> c.commands[k] <= most
    requires 16 * most <= c.sendRoom
    ensures Roomy(c)
  {
    TimesIs(Wave.MAX_READS_IN_FLIGHT, most);
    forall i, j | 0 <= i <= |c.commands| && 0 <= j <= |c.commands| && j <= i + Wave.MAX_READS_IN_FLIGHT
      ensures Fits(c, i, j)
    {
      SpanFits(c.commands, i, j, Wave.MAX_READS_IN_FLIGHT, most);
    }
  }

  lemma AwaitedWereRead(c: Setting, s: Net)
    requires Inv(c, s)
    ensures UpTo(c.commands, s.got) <= s.read
  {
    if s.got > 0 {
      assert Reply(s.got - 1) in s.outs;
    }
  }

  /** Everything written and unread belongs to commands the window still holds, so it fits. */
  lemma SendBufferNeverFills(c: Setting, s: Net)
    requires Inv(c, s) && Roomy(c) && s.busy
    ensures UpTo(c.commands, s.written + 1) <= s.read + c.sendRoom
  {
    AwaitedWereRead(c, s);
    assert Fits(c, s.got, s.written + 1);
  }

  /** A step that can be taken now, other than another event, while a reply is owed. */
  function Helpful(c: Setting, s: Net): Step {
    if Wave.MayIssue(Progress(c, s)) then Issue
    else if s.busy then
      if s.written < |c.commands| && s.sent < UpTo(c.commands, s.written + 1) then Write(1) else EndWrite
    else if s.taken < s.emitted then Take
    else if s.emitted < |s.sizes| then
      if s.fetched == UpTo(s.sizes, s.emitted + 1) then ReaderEmit
      else if s.fetched < s.replied then ReaderRead(1)
      else PeerWrite(1)
    else if s.read < s.sent then PeerRead(1)
    else if Reply(s.got) !in s.outs && s.got < s.written then PeerReply(s.got)
    else if s.written < s.issued then BeginWrite
    else Await
  }

  /** No deadlock: in every state the wave can reach with a reply still owed, somebody can move. */
  lemma NeverStuck(c: Setting, s: Net)
    requires Inv(c, s) && Sane(c) && Roomy(c) && s.got < |c.commands|
    ensures Can(c, s, Helpful(c, s)) && !Helpful(c, s).PeerEvent?
  {
    if s.busy {
      SendBufferNeverFills(c, s);
    } else if s.taken == s.emitted {
      if s.emitted < |s.sizes| {
        UpToGrows(s.sizes, s.emitted + 1, |s.sizes|);
      } else {
        assert s.outs[..s.taken] == s.outs;
        if s.got < s.written {
          UpToGrows(c.commands, s.got + 1, s.written);
        }
      }
    }
  }

  // ----- termination -----

  function Work(s: Net): nat {
    s.issued + s.got + (if s.busy then 1 else 0) + 2 * s.written + s.sent + s.read
    + |s.sizes| + s.replied + s.fetched + s.emitted + s.taken
  }

  function Limit(c: Setting): nat {
    4 * |c.commands| + 2 * UpTo(c.commands, |c.commands|) + 5 * Budget(c)
  }

  lemma WorkGrows(c: Setting, s: Net, step: Step)
    requires Can(c, s, step)
    ensures Work(s) < Work(Do(c, s, step))
  {
    hide UpTo, Idle, Wave.MayIssue, Wave.MayAwait, Delivered;
  }

  lemma WorkIsBounded(c: Setting, s: Net)
    requires Inv(c, s)
    ensures Work(s) <= Limit(c)
  {
    UpToGrows(c.commands, if s.busy then s.written + 1 else s.written, |c.commands|);
  }

  predicate CanAll(c: Setting, s: Net, steps: seq<Step>)
    decreases |steps|
  {
    steps == [] || (Can(c, s, steps[0]) && CanAll(c, Do(c, s, steps[0]), steps[1..]))
  }

  function DoAll(c: Setting, s: Net, steps: seq<Step>): Net
    requires CanAll(c, s, steps)
    decreases |steps|
  {
    if steps == [] then s else DoAll(c, Do(c, s, steps[0]), steps[1..])
  }

  lemma {:induction false} RunsKeep(c: Setting, s: Net, steps: seq<Step>)
    requires Inv(c, s) && CanAll(c, s, steps)
    ensures Inv(c, DoAll(c, s, steps)) && Work(s) + |steps| <= Work(DoAll(c, s, steps))
    decreases |steps|
  {
    if steps != [] {
      InvKept(c, s, steps[0]);
      WorkGrows(c, s, steps[0]);
      RunsKeep(c, Do(c, s, steps[0]), steps[1..]);
    }
  }

  /** The wave finishes: no run is longer than `Limit`, and one that cannot go on has every reply. Whatever
      the JVM's order of answers, its events, and the scheduling. */
  lemma {:induction false} WaveFinishes(c: Setting, steps: seq<Step>)
    requires Sane(c) && Roomy(c) && CanAll(c, Start(), steps)
    ensures |steps| <= Limit(c)
    ensures var s := DoAll(c, Start(), steps);
      s.got == |c.commands| || (Can(c, s, Helpful(c, s)) && !Helpful(c, s).PeerEvent?)
    ensures var s := DoAll(c, Start(), steps);
      forall k: nat :: k < s.got ==> Reply(k) in s.outs
  {
    StartInv(c);
    RunsKeep(c, Start(), steps);
    var s := DoAll(c, Start(), steps);
    WorkIsBounded(c, s);
    if s.got < |c.commands| {
      NeverStuck(c, s);
    }
  }

  /** The command channel has room for the whole window, so `issue` itself never waits. */
  lemma {:induction false} IssueNeverWaits(c: Setting, steps: seq<Step>)
    requires Sane(c) && CanAll(c, Start(), steps)
    ensures var s := DoAll(c, Start(), steps); Can(c, s, Issue) ==> s.issued - s.written < 32
  {
    StartInv(c);
    RunsKeep(c, Start(), steps);
    InOrder(c, DoAll(c, Start(), steps));
  }

  lemma InOrder(c: Setting, s: Net)
    requires Inv(c, s) && Sane(c)
    ensures s.got <= s.written + 1
  {
    AwaitedWereRead(c, s);
    if s.got > s.written + 1 {
      UpToGrows(c.commands, s.written + 1, s.got - 1);
      assert false;
    }
  }

  /** From every state of every run the wave can still be brought to its end. */
  lemma {:induction false} CanFinish(c: Setting, s: Net) returns (steps: seq<Step>)
    requires Sane(c) && Roomy(c) && Inv(c, s)
    ensures CanAll(c, s, steps) && DoAll(c, s, steps).got == |c.commands|
    decreases Limit(c) - Work(s)
  {
    if s.got == |c.commands| {
      steps := [];
    } else {
      NeverStuck(c, s);
      var step := Helpful(c, s);
      InvKept(c, s, step);
      WorkGrows(c, s, step);
      WorkIsBounded(c, Do(c, s, step));
      var more := CanFinish(c, Do(c, s, step));
      steps := [step] + more;
    }
  }
}
