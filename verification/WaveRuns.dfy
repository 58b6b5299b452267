/** A wave as one of the engine's callers: its own steps, in the order `Wave` allows, between any steps of
    everybody else. */
module WaveRuns {
  import opened Wrappers
  import opened Packets
  import opened EventTypes
  import opened Loop
  import opened Engine
  import opened EngineInvariant
  import opened EngineRuns
  import opened Wave

  type Reply = Result<ReplyPacket>

  /** The engine with the run that led to it, and a wave's commands, progress and results. */
  datatype Caller = Caller(
    s: State,
    run: seq<Action>,
    tickets: seq<nat>,
    control: Control,
    refusal: Option<JdwpError>, // what `issue` returned for the last command, if it failed
    results: seq<Reply>)

  datatype Step = Env(a: Action) | IssueNext | AwaitOldest | PushError

  /** The others do anything but issue the wave's commands or stop waiting for them. */
  predicate Meddles(a: Action, tickets: seq<nat>) {
    (a.Issue? && a.t in tickets) || (a.Abandon? && a.t in tickets)
  }

  predicate Answerable(s: State, t: nat) {
    t in s.loop.cells && Observe(s.loop, t).Some?
  }

  predicate Can(w: Caller, step: Step) {
    && w.control.n == |w.tickets|
    && match step
       case Env(a) => Enabled(w.s, a) && !Meddles(a, w.tickets)
       case IssueNext => MayIssue(w.control) && Enabled(w.s, Issue(w.tickets[w.control.sent]))
       case AwaitOldest =>
         MayAwait(w.control) && w.control.got < |w.tickets| && Answerable(w.s, w.tickets[w.control.got])
       case PushError => MayPushError(w.control) && w.refusal.Some?
  }

  function Do(w: Caller, step: Step): Caller
    requires Can(w, step)
  {
    var c := w.control;
    match step
    case Env(a) => w.(s := Apply(w.s, a), run := w.run + [a])
    case IssueNext =>
      var a, gone := Issue(w.tickets[c.sent]), w.s.phase.Exited?;
      w.(s := Apply(w.s, a), run := w.run + [a], control := c.(sent := c.sent + 1, draining := gone),
         refusal := if gone then Some(Lost(w.s.loop.shutdown)) else None)
    case AwaitOldest =>
      w.(results := w.results + [Observe(w.s.loop, w.tickets[c.got]).value], control := c.(got := c.got + 1))
    case PushError =>
      w.(results := w.results + [Failure(w.refusal.value)], control := c.(got := c.got + 1, draining := false),
         refusal := None)
  }

  predicate CanAll(w: Caller, steps: seq<Step>)
    decreases |steps|
  {
    steps == [] || (Can(w, steps[0]) && CanAll(Do(w, steps[0]), steps[1..]))
  }

  function DoAll(w: Caller, steps: seq<Step>): Caller
    requires CanAll(w, steps)
    decreases |steps|
  {
    if steps == [] then w else DoAll(Do(w, steps[0]), steps[1..])
  }

  /** A wave about to start, anywhere in a run: its commands have ids, and nobody has issued them. */
  ghost predicate Starts(w: Caller) {
    && Runs(w.run, w.s) && w.control == Control(|w.tickets|, 0, 0, false) && w.refusal == None && w.results == []
    && (forall i, j :: 0 <= i < j < |w.tickets| ==> w.tickets[i] != w.tickets[j])
    && (forall i :: 0 <= i < |w.tickets| ==> w.tickets[i] < w.s.drawn && w.tickets[i] !in w.s.loop.cells)
  }

  // ----- what was seen stays so -----

  lemma ShutdownStays(s: State, a: Action)
    requires SExplained(s) && Enabled(s, a) && s.loop.shutdown.Some?
    ensures Apply(s, a).loop.shutdown == s.loop.shutdown
  {
    hide HandlePacket;
  }

  /** Once a command has an outcome its caller sees the same one whenever it looks. */
  lemma SeenStays(s: State, a: Action, t: nat)
    requires SPlaced(s) && SExplained(s) && Enabled(s, a) && FreeId(s, a) && Answerable(s, t)
    ensures Answerable(Apply(s, a), t) && Observe(Apply(s, a).loop, t) == Observe(s.loop, t)
  {
    SettledStep(s, a);
    if s.loop.cells[t] == Dropped {
      ShutdownStays(s, a);
    }
  }

  // ----- the invariant -----

  ghost predicate Given(s: State, tickets: seq<nat>, results: seq<Reply>) {
    |results| <= |tickets| && forall k :: 0 <= k < |results| ==> GivenAt(s, tickets[k], results[k])
  }

  predicate GivenAt(s: State, t: nat, r: Reply) {
    Answerable(s, t) && Observe(s.loop, t).value == r
  }

  ghost predicate Steady(w: Caller) {
    && SPlaced(w.s) && SExplained(w.s)
    && Proper(w.control) && w.control.n == |w.tickets| && w.control.got == |w.results|
    && Given(w.s, w.tickets, w.results)
    && (w.control.draining <==> w.refusal.Some?)
    && (w.refusal.Some? ==> GivenAt(w.s, w.tickets[w.control.sent - 1], Failure(w.refusal.value)))
  }

  /** No step of this run enters a command in the pending map under the id of one that is still there. */
  ghost predicate FreeStep(w: Caller, step: Step) {
    step.Env? ==> FreeId(w.s, step.a)
  }

  ghost predicate FreeSteps(w: Caller, steps: seq<Step>)
    requires CanAll(w, steps)
    decreases |steps|
  {
    steps != [] ==> FreeStep(w, steps[0]) && FreeSteps(Do(w, steps[0]), steps[1..])
  }

  lemma GivenStays(s: State, a: Action, tickets: seq<nat>, results: seq<Reply>)
    requires SPlaced(s) && SExplained(s) && Enabled(s, a) && FreeId(s, a) && Given(s, tickets, results)
    ensures Given(Apply(s, a), tickets, results)
  {
    hide SPlaced, SExplained;
    forall k | 0 <= k < |results| ensures GivenAt(Apply(s, a), tickets[k], results[k]) {
      assert GivenAt(s, tickets[k], results[k]);
      SeenStays(s, a, tickets[k]);
    }
  }

  lemma {:induction false} EnvSteady(w: Caller, a: Action)
    requires Steady(w) && Can(w, Env(a)) && FreeId(w.s, a)
    ensures Steady(Do(w, Env(a)))
  {
    hide SPlaced, SExplained, Given;
    PlacedKept(w.s, a);
    GivenStays(w.s, a, w.tickets, w.results);
    if w.refusal.Some? {
      SeenStays(w.s, a, w.tickets[w.control.sent - 1]);
    }
  }

  lemma IssueSteady(w: Caller)
    requires Steady(w) && Can(w, IssueNext)
    ensures Steady(Do(w, IssueNext))
  {
    var t := w.tickets[w.control.sent];
    IssueKept(w.s, t);
    GivenStays(w.s, Issue(t), w.tickets, w.results);
    hide SPlaced, Given;
    assert Apply(w.s, Issue(t)) == Issued(w.s, t);
    if w.s.phase.Exited? {
      assert Observe(Issued(w.s, t).loop, t) == Some(Failure(Lost(w.s.loop.shutdown)));
    }
  }

  lemma {:induction false} SteadyStep(w: Caller, step: Step)
    requires Steady(w) && Can(w, step) && FreeStep(w, step)
    ensures Steady(Do(w, step))
  {
    match step {
      case Env(a) => EnvSteady(w, a);
      case IssueNext => IssueSteady(w);
      case AwaitOldest => AwaitSteady(w);
      case PushError => PushSteady(w);
    }
  }

  lemma AwaitSteady(w: Caller)
    requires Steady(w) && Can(w, AwaitOldest)
    ensures Steady(Do(w, AwaitOldest))
  {
    hide SPlaced, SExplained;
  }

  lemma PushSteady(w: Caller)
    requires Steady(w) && Can(w, PushError)
    ensures Steady(Do(w, PushError))
  {
    hide SPlaced, SExplained;
  }

  /** Nobody else has issued what the wave has still to issue, or given up what it waits for. */
  ghost predicate Private(s: State, tickets: seq<nat>, sent: nat) {
    && sent <= |tickets| && Heard(s.loop)
    && (forall i, j :: 0 <= i < j < |tickets| ==> tickets[i] != tickets[j])
    && (forall i :: 0 <= i < |tickets| ==> tickets[i] < s.drawn && tickets[i] !in s.loop.deaf)
    && (forall i :: 0 <= i < |tickets| ==> (tickets[i] in s.loop.cells <==> i < sent))
  }

  lemma RoutedKnown(l: LoopState, received: Result<Frame>, event: Option<EventSet>)
    requires forall id :: id in l.pending ==> l.pending[id].ticket in l.cells
    ensures HandlePacket(l, received, event).0.cells.Keys == l.cells.Keys
  {
  }

  lemma TakeKnown(s: State, event: Option<EventSet>)
    requires SPlaced(s) && CanTake(s)
    ensures Took(s, event).loop.cells.Keys == s.loop.cells.Keys
  {
    hide HandlePacket;
    forall id | id in s.loop.pending ensures s.loop.pending[id].ticket in s.loop.cells {
      assert PendingPlaced(s.loop.cells, s.loop.pending, s.queue, s.hand, id);
    }
    RoutedKnown(s.loop, s.channel[0], event);
  }

  /** Commands become known by being issued, and in no other way. */
  lemma KnownByIssue(s: State, a: Action)
    requires SPlaced(s) && Enabled(s, a) && FreeId(s, a)
    ensures Apply(s, a).loop.cells.Keys == s.loop.cells.Keys + (if a.Issue? then {a.t} else {})
  {
    hide HandlePacket;
    if !MovesOutcomes(a) {
      OutcomesUntouched(s, a);
    } else {
      match a {
        case Issue(t) =>
        case Abandon(_) =>
        case FailWrite(_) => assert Live(s.loop.cells, s.hand.ticket);
        case Register => PlacedRegister(s.loop, s.drawn, s.queue, s.hand.ticket, s.now);
        case Tick => PlacedTick(s.loop, s.drawn, s.queue, s.now);
        case PeerAnswer(_, _, _) =>
        case TakePacket(event) => TakeKnown(s, event);
        case DropPending =>
        case CloseQueue =>
      }
    }
  }

  lemma DeafByLeaving(s: State, a: Action)
    requires Enabled(s, a)
    ensures Apply(s, a).loop.deaf == s.loop.deaf + (if a.Abandon? then {a.t} else {})
  {
    hide HandlePacket, LapsedIds, LapsedTickets, PendingTickets, FrameOf, EventFrame, ReplyFrame, ReadError;
    if !MovesOutcomes(a) && !a.Abandon? {
      OutcomesUntouched(s, a);
    }
  }

  lemma {:induction false} PrivateStep(w: Caller, step: Step)
    requires Steady(w) && Private(w.s, w.tickets, w.control.sent) && Can(w, step) && FreeStep(w, step)
    ensures Private(Do(w, step).s, w.tickets, Do(w, step).control.sent)
  {
    if step.Env? || step.IssueNext? {
      var a := if step.Env? then step.a else Issue(w.tickets[w.control.sent]);
      PrivateAction(w.s, a, w.tickets, w.control.sent);
    }
  }

  lemma {:induction false} PrivateAction(s: State, a: Action, tickets: seq<nat>, sent: nat)
    requires SPlaced(s) && Private(s, tickets, sent) && Enabled(s, a) && FreeId(s, a)
    requires Meddles(a, tickets) ==> sent < |tickets| && a == Issue(tickets[sent])
    ensures Private(Apply(s, a), tickets, if Meddles(a, tickets) then sent + 1 else sent)
  {
    hide SPlaced;
    KnownByIssue(s, a);
    DeafByLeaving(s, a);
    HeardStep(s, a);
    DrawnGrows(s, a);
  }

  /** All of it together, for any run of the wave. */
  ghost predicate Underway(w: Caller) {
    Steady(w) && Private(w.s, w.tickets, w.control.sent) && Runs(w.run, w.s)
  }

  lemma StartsUnderway(w: Caller)
    requires Starts(w)
    ensures Underway(w)
  {
    RunPlaced(w.run, w.s);
    HeardAlong(Init(), w.run);
  }

  lemma {:induction false} UnderwayStep(w: Caller, step: Step)
    requires Underway(w) && Can(w, step) && FreeStep(w, step)
    ensures Underway(Do(w, step))
  {
    SteadyStep(w, step);
    PrivateStep(w, step);
    hide Steady, Private;
    match step {
      case Env(a) => RunsThen(w.run, w.s, a);
      case IssueNext => RunsThen(w.run, w.s, Issue(w.tickets[w.control.sent]));
      case AwaitOldest =>
      case PushError =>
    }
  }

  lemma {:induction false} UnderwayAlong(w: Caller, steps: seq<Step>)
    requires Underway(w) && CanAll(w, steps) && FreeSteps(w, steps)
    ensures Underway(DoAll(w, steps)) && DoAll(w, steps).tickets == w.tickets
    decreases |steps|
  {
    hide Underway;
    if steps != [] {
      UnderwayStep(w, steps[0]);
      UnderwayAlong(Do(w, steps[0]), steps[1..]);
    }
  }

  // ----- what the wave returns -----

  /** For every run of a wave among any other callers, events, ticks, timeouts, failures and a shutdown, with
      ids unique among the outstanding commands: result `k` is what has become of command `k`, when it was
      awaited and ever after, and no more than sixteen commands are in flight. */
  lemma {:induction false} WaveIsPositional(w: Caller, steps: seq<Step>, k: nat)
    requires Starts(w) && CanAll(w, steps) && FreeSteps(w, steps) && k < |DoAll(w, steps).results|
    ensures var w' := DoAll(w, steps);
      && w'.control.got == |w'.results| <= w'.control.sent <= |w'.results| + 16
      && w'.control.sent <= |w.tickets| && w'.tickets == w.tickets
      && w.tickets[k] in w'.s.loop.cells && Observe(w'.s.loop, w.tickets[k]) == Some(w'.results[k])
  {
    StartsUnderway(w);
    UnderwayAlong(w, steps);
    assert GivenAt(DoAll(w, steps).s, w.tickets[k], DoAll(w, steps).results[k]);
  }

  /** A run without shared ids shares none at its step `k`. */
  lemma {:induction false} UnsharedAt(s: State, run: seq<Action>, k: nat)
    requires Legal(s, run) && Unshared(s, run) && k < |run|
    ensures Legal(s, run[..k]) && UnsharedId(After(s, run[..k]), run[k])
    decreases k
  {
    if k > 0 {
      UnsharedAt(Apply(s, run[0]), run[1..], k - 1);
      assert run[..k][1..] == run[1..][..k - 1];
    }
  }

  lemma {:induction false} RunExtends(w: Caller, steps: seq<Step>)
    requires CanAll(w, steps)
    ensures w.run <= DoAll(w, steps).run
    decreases |steps|
  {
    if steps != [] {
      RunExtends(Do(w, steps[0]), steps[1..]);
    }
  }

  /** A wave in whose run no id is shared has ids unique among the outstanding commands. */
  lemma {:induction false} UnsharedStepsAreFree(w: Caller, steps: seq<Step>)
    requires Legal(Init(), w.run) && After(Init(), w.run) == w.s && CanAll(w, steps)
    requires UnsharedRun(DoAll(w, steps).run, DoAll(w, steps).s)
    ensures FreeSteps(w, steps)
    decreases |steps|
  {
    hide UnsharedId, FreeId;
    if steps != [] {
      var w1, run := Do(w, steps[0]), DoAll(w, steps).run;
      if w1.run != w.run {
        var a := w1.run[|w.run|];
        LegalThen(Init(), w.run, a);
        RunExtends(w1, steps[1..]);
        UnsharedAt(Init(), run, |w.run|);
        assert run[..|w.run|] == w.run && run[|w.run|] == a;
        UnsharedIsFree(w.s, a);
      }
      UnsharedStepsAreFree(w1, steps[1..]);
    }
  }

  lemma UnsharedIsFree(s: State, a: Action)
    requires UnsharedId(s, a)
    ensures FreeId(s, a)
  {
  }

  /** So it is in every run of the wave that draws at most 2^32 ids. */
  lemma {:induction false} BoundedWaveIsUnshared(w: Caller, steps: seq<Step>)
    requires Starts(w) && CanAll(w, steps) && DoAll(w, steps).s.drawn <= ID_SPACE
    ensures UnsharedRun(DoAll(w, steps).run, DoAll(w, steps).s) && FreeSteps(w, steps)
  {
    RunIsLegal(w, steps);
    BoundedRunsAreUnshared(DoAll(w, steps).run, DoAll(w, steps).s);
    UnsharedStepsAreFree(w, steps);
  }

  lemma {:induction false} RunIsLegal(w: Caller, steps: seq<Step>)
    requires Legal(Init(), w.run) && After(Init(), w.run) == w.s && CanAll(w, steps)
    ensures Legal(Init(), DoAll(w, steps).run) && After(Init(), DoAll(w, steps).run) == DoAll(w, steps).s
    decreases |steps|
  {
    if steps != [] {
      match steps[0] {
        case Env(a) => LegalThen(Init(), w.run, a);
        case IssueNext => LegalThen(Init(), w.run, Issue(w.tickets[w.control.sent]));
        case AwaitOldest =>
        case PushError =>
      }
      RunIsLegal(Do(w, steps[0]), steps[1..]);
    }
  }

  /** End to end, for every run of the wave in which no id is shared: result `k` is the JVM's answer to command
      `k` under its own id, unless command `k` itself timed out, failed to be written or met the shutdown,
      which is then what the result says. */
  lemma {:induction false} WaveGetsItsAnswers(w: Caller, steps: seq<Step>, k: nat)
    requires Starts(w) && CanAll(w, steps) && UnsharedRun(DoAll(w, steps).run, DoAll(w, steps).s)
    requires k < |DoAll(w, steps).results|
    ensures k < |w.tickets|
    ensures var w', t := DoAll(w, steps), w.tickets[k];
      match w'.results[k]
      case Success(r) => t in w'.s.answers && r == w'.s.answers[t] && r.id == IdOf(t)
      case Failure(e) =>
        || (e == ReplyTimeout(30) && t in w'.s.lapsed)
        || (e == Io && t in w'.s.failed)
        || (w'.s.loop.shutdown.Some? && e == ConnectionClosed(w'.s.loop.shutdown.value))
  {
    StartsUnderway(w);
    UnsharedStepsAreFree(w, steps);
    UnderwayAlong(w, steps);
    var w' := DoAll(w, steps);
    WaveIsPositional(w, steps, k);
    OutcomesAreExplained(w'.run, w'.s, w.tickets[k]);
  }

  /** The wave does not get stuck by itself: once the engine is quiet, or gone, it can go on until it has a
      result for every command. */
  lemma {:induction false} WaveGoesOn(w: Caller, steps: seq<Step>)
    requires Starts(w) && CanAll(w, steps) && UnsharedRun(DoAll(w, steps).run, DoAll(w, steps).s)
    requires var s := DoAll(w, steps).s; (Quiet(s) && s.phase.Running?) || s.phase.Exited?
    ensures var w' := DoAll(w, steps);
      |w'.results| == |w.tickets| || Can(w', IssueNext) || Can(w', AwaitOldest) || Can(w', PushError)
  {
    StartsUnderway(w);
    UnsharedStepsAreFree(w, steps);
    UnderwayAlong(w, steps);
    var w' := DoAll(w, steps);
    if |w'.results| < |w.tickets| {
      AlwaysOneThingToDo(w'.control);
      if MayIssue(w'.control) {
        IssueGoesOn(w');
      } else if MayAwait(w'.control) {
        AwaitGoesOn(w');
      }
    }
  }

  lemma IssueGoesOn(w: Caller)
    requires Underway(w) && MayIssue(w.control) && (Quiet(w.s) || w.s.phase.Exited?)
    ensures Can(w, IssueNext)
  {
  }

  lemma AwaitGoesOn(w: Caller)
    requires Underway(w) && MayAwait(w.control) && UnsharedRun(w.run, w.s)
    requires (Quiet(w.s) && w.s.phase.Running?) || w.s.phase.Exited?
    ensures Can(w, AwaitOldest)
  {
    var t := w.tickets[w.control.got];
    if w.s.phase.Exited? {
      NobodyWaitsAfterExit(w.run, w.s, t);
    } else {
      QuietMeansSettled(w.run, w.s, t);
    }
  }

  // ----- how often it waits -----

  /** The calls of the steps. */
  function Calls(steps: seq<Step>): seq<Call> {
    if steps == [] then []
    else (if steps[0].IssueNext? then [Issues] else if steps[0].AwaitOldest? then [Awaits] else []) + Calls(steps[1..])
  }

  predicate NeverRefused(w: Caller, steps: seq<Step>)
    requires CanAll(w, steps)
    decreases |steps|
  {
    !w.control.draining && (steps != [] ==> NeverRefused(Do(w, steps[0]), steps[1..]))
  }

  /** What a step of a wave that is not draining does to its progress. */
  lemma ControlOf(w: Caller, step: Step)
    requires Can(w, step) && !w.control.draining && !Do(w, step).control.draining
    ensures step.Env? ==> Do(w, step).control == w.control
    ensures step.IssueNext? ==> MayIssue(w.control) && Do(w, step).control == Called(w.control, Issues)
    ensures step.AwaitOldest? ==> MayAwait(w.control) && Do(w, step).control == Called(w.control, Awaits)
    ensures !step.PushError?
  {
    hide Apply, Enabled;
  }

  lemma {:induction false} CallsOf(steps: seq<Step>)
    requires steps != []
    ensures var call := if steps[0].IssueNext? then Issues else Awaits;
      Calls(steps) == (if steps[0].IssueNext? || steps[0].AwaitOldest? then [call] else []) + Calls(steps[1..])
  {
  }

  lemma {:induction false} CallsAreScheduled(w: Caller, steps: seq<Step>)
    requires CanAll(w, steps) && NeverRefused(w, steps) && DoAll(w, steps).control.got == w.control.n
    ensures Schedule(w.control, Calls(steps))
    decreases |steps|
  {
    hide Do, Can, Calls;
    if steps == [] {
      assert Calls(steps) == [] by { CallsOfNone(); }
    } else {
      ControlOf(w, steps[0]);
      CallsOf(steps);
      CallsAreScheduled(Do(w, steps[0]), steps[1..]);
      if steps[0].IssueNext? || steps[0].AwaitOldest? {
        assert Calls(steps)[1..] == Calls(steps[1..]);
      } else {
        assert Calls(steps) == Calls(steps[1..]);
      }
    }
  }

  lemma CallsOfNone()
    ensures Calls([]) == []
  {
  }

  /** A finished wave none of whose commands was refused has blocked, in lockstep, once per window's worth. */
  lemma {:induction false} WaveBlocksPerWindow(w: Caller, steps: seq<Step>)
    requires Starts(w) && CanAll(w, steps) && NeverRefused(w, steps) && DoAll(w, steps).control.got == |w.tickets|
    ensures Blocked(w.control, 0, Calls(steps)) == (|w.tickets| + 15) / 16
  {
    CallsAreScheduled(w, steps);
    OneWaitPerWindow(|w.tickets|, Calls(steps));
  }
}
