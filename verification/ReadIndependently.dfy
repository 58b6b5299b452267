/** `read_independently` as the source has it, over the running engine: whatever it does is a run of the wave. */
module ReadIndependently {
  import opened Wrappers
  import opened Loop
  import opened Engine
  import opened Wave
  import opened WaveRuns

  /** What the scheduler runs next: somebody else's step, or the wave. */
  datatype Turn = Other(a: Action) | Ours

  datatype InFlight = InFlight(command: nat)

  lemma {:induction false} CanAllThen(w: Caller, steps: seq<Step>, step: Step)
    requires CanAll(w, steps) && Can(DoAll(w, steps), step)
    ensures CanAll(w, steps + [step]) && DoAll(w, steps + [step]) == Do(DoAll(w, steps), step)
    decreases |steps|
  {
    if steps == [] {
      assert steps + [step] == [step] && [step][1..] == [];
    } else {
      CanAllThen(Do(w, steps[0]), steps[1..], step);
      assert (steps + [step])[0] == steps[0] && (steps + [step])[1..] == steps[1..] + [step];
    }
  }

  // ----- what the code comes to under a schedule -----

  /** The wave's turn: it issues the next command if it may and there is room, or takes the oldest reply if it must
      wait for that and it is there. */
  function Taken(w: Caller): Caller {
    if Can(w, IssueNext) then Do(w, IssueNext)
    else if Can(w, AwaitOldest) then Do(w, AwaitOldest)
    else w
  }

  function Passed(w: Caller, a: Action): Caller {
    if Can(w, Env(a)) then Do(w, Env(a)) else w
  }

  predicate Busy(w: Caller) {
    MayIssue(w.control) || MayAwait(w.control)
  }

  /** The wave uses every turn it gets until it has all its results, and a refusal becomes a result as soon as its
      turn in the order has come; what is left of the schedule then is not its own any more. */
  function Driven(w: Caller, world: seq<Turn>): (Caller, seq<Turn>)
    decreases |world|, if w.control.draining then 1 else 0
  {
    if Can(w, PushError) then Driven(Do(w, PushError), world)
    else if !Busy(w) || world == [] then (w, world)
    else
      match world[0]
      case Other(a) => Driven(Passed(w, a), world[1..])
      case Ours => Driven(Taken(w), world[1..])
  }

  lemma BusyPushesNothing(w: Caller)
    requires Busy(w)
    ensures !Can(w, PushError)
  {
  }

  /** `EventLoopHandle`, with the engine behind it and the schedule ahead. The ghost fields record the run. */
  class EventLoopHandle {
    var s: State
    var world: seq<Turn>
    const tickets: seq<nat>
    var issued: nat
    ghost const first: Caller
    ghost var steps: seq<Step>
    ghost var w: Caller

    ghost predicate Valid()
      reads this
    {
      CanAll(first, steps) && DoAll(first, steps) == w && w.s == s
      && w.tickets == tickets && w.control.n == |tickets| && issued == w.control.sent
    }

    constructor (ghost first: Caller, s: State, tickets: seq<nat>, world: seq<Turn>)
      requires first.s == s && first.tickets == tickets && first.control.n == |tickets|
      requires first.control.sent == 0
      ensures Valid() && this.first == first == w && steps == [] && this.tickets == tickets && this.world == world
    {
      this.s, this.world, this.tickets, this.first := s, world, tickets, first;
      issued := 0;
      w, steps := first, [];
    }

    ghost method Record(step: Step)
      requires CanAll(first, steps) && DoAll(first, steps) == w && Can(w, step) && s == Do(w, step).s
      requires w.tickets == tickets && w.control.n == |tickets| && issued == Do(w, step).control.sent
      modifies this`w, this`steps
      ensures Valid() && w == Do(old(w), step)
    {
      CanAllThen(first, steps, step);
      steps, w := steps + [step], Do(w, step);
    }

    method Pass(a: Action)
      requires Valid()
      modifies this`s, this`w, this`steps
      ensures Valid() && w == Passed(old(w), a) && w.control == old(w.control) && w.results == old(w.results)
      ensures w.refusal == old(w.refusal)
    {
      if Enabled(s, a) && !Meddles(a, tickets) {
        s := Apply(s, a);
        Record(Env(a));
      }
    }

    /** The others run until the wave's turn comes, or never does. */
    method Yield() returns (ours: bool)
      requires Valid() && Busy(w)
      modifies this
      ensures Valid() && w.control == old(w.control) && w.results == old(w.results) && w.refusal == old(w.refusal)
      ensures if ours then |world| < |old(world)| else world == []
      ensures old(Driven(w, world)) == if ours then Driven(Taken(w), world) else Driven(w, world)
    {
      hide Can, Do;
      while world != []
        invariant Busy(w) && Driven(w, world) == old(Driven(w, world))
        invariant Valid() && |world| <= |old(world)|
        invariant w.control == old(w.control) && w.results == old(w.results) && w.refusal == old(w.refusal)
        decreases |world|
      {
        BusyPushesNothing(w);
        var turn := world[0];
        world := world[1..];
        match turn {
          case Ours => return true;
          case Other(a) => Pass(a);
        }
      }
      ours := false;
    }

    /** `issue`: waits for room in the command channel; an error if the loop is gone. Nothing if the wave's
        turn never comes again. */
    method Issue() returns (r: Option<Result<InFlight>>)
      requires Valid() && MayIssue(w.control)
      modifies this
      ensures Valid() && w.results == old(w.results) && |world| <= |old(world)|
      ensures r.Some? ==> w.control == old(w.control).(sent := old(w.control.sent) + 1, draining := r.value.Failure?)
      ensures r.Some? && r.value.Success? ==> r.value.value == InFlight(old(w.control.sent))
      ensures r.Some? && r.value.Failure? ==> w.refusal == Some(r.value.error)
      ensures r.None? ==> world == [] && w.control == old(w.control)
      ensures Driven(w, world) == old(Driven(w, world))
    {
      hide Driven;
      ghost var control := w.control;
      var ours := true;
      while ours
        invariant Valid() && w.control == control && w.results == old(w.results) && |world| <= |old(world)|
        invariant Driven(w, world) == old(Driven(w, world))
        invariant !ours ==> world == []
        decreases ours, |world|
      {
        ours := Yield();
        if ours && issued < |tickets| && Enabled(s, Action.Issue(tickets[issued])) {
          var t, gone := tickets[issued], s.phase.Exited?;
          r := Some(if gone then Failure(Lost(s.loop.shutdown)) else Success(InFlight(issued)));
          s := Apply(s, Action.Issue(t));
          issued := issued + 1;
          Record(IssueNext);
          return;
        }
      }
      r := None;
    }

    /** `InFlight::reply`. */
    method Await(f: InFlight) returns (r: Option<Reply>)
      requires Valid() && MayAwait(w.control) && f.command == w.control.got && f.command < |tickets|
      modifies this
      ensures Valid() && |world| <= |old(world)|
      ensures r.Some? ==> w.control == old(w.control).(got := old(w.control.got) + 1) && w.refusal == old(w.refusal)
      ensures r.Some? ==> w.results == old(w.results) + [r.value]
      ensures r.None? ==> world == [] && w.results == old(w.results) && w.control == old(w.control)
      ensures Driven(w, world) == old(Driven(w, world))
    {
      hide Driven;
      ghost var control := w.control;
      var ours := true;
      while ours
        invariant Driven(w, world) == old(Driven(w, world))
        invariant Valid() && w.control == control && w.results == old(w.results) && w.refusal == old(w.refusal)
        invariant |world| <= |old(world)| && (!ours ==> world == [])
        decreases ours, |world|
      {
        ours := Yield();
        if ours && Answerable(s, tickets[f.command]) {
          r := Some(Observe(s.loop, tickets[f.command]).value);
          Record(AwaitOldest);
          return;
        }
      }
      r := None;
    }

    /** `results.push(Err(e))`, after the window has been drained. */
    ghost method PushedError()
      requires Valid() && MayPushError(w.control) && w.refusal.Some?
      modifies this`w, this`steps
      ensures Valid() && Driven(w, world) == old(Driven(w, world))
      ensures w.control == old(w.control).(got := old(w.control.got) + 1, draining := false)
      ensures w.results == old(w.results) + [Failure(old(w.refusal.value))] && w.refusal == None
    {
      Record(PushError);
    }
  }

  /** The window holds the commands from `from` on, in issue order. */
  ghost predicate Holds(window: seq<InFlight>, from: nat) {
    forall k :: 0 <= k < |window| ==> window[k] == InFlight(from + k)
  }

  /** Await what is in the window, oldest first. */
  method Drain(h: EventLoopHandle, window0: seq<InFlight>, results0: seq<Reply>)
    returns (results: seq<Reply>, done: bool)
    requires h.Valid() && Proper(h.w.control) && h.w.control.got == |results0| && h.w.results == results0
    requires Holds(window0, |results0|) && (h.w.control.draining ==> h.w.refusal.Some?)
    requires |results0| + |window0| == if h.w.control.draining then h.w.control.sent - 1 else h.w.control.sent
    requires h.w.control.draining || h.w.control.sent == h.w.control.n
    modifies h
    ensures h.Valid() && results == h.w.results
    ensures done ==> |results| == |results0| + |window0| && h.w.refusal == old(h.w.refusal)
    ensures done ==> h.w.control == old(h.w.control).(got := |results|)
    ensures !done ==> h.world == [] && Busy(h.w)
    ensures Driven(h.w, h.world) == old(Driven(h.w, h.world))
  {
    hide Driven;
    results, done := results0, true;
    var window := window0;
    while window != []
      invariant h.Valid() && results == h.w.results && h.w.control == old(h.w.control).(got := |results|)
      invariant Holds(window, |results|) && |results| + |window| == |results0| + |window0|
      invariant h.w.refusal == old(h.w.refusal) && Driven(h.w, h.world) == old(Driven(h.w, h.world))
      decreases |window|
    {
      var reply := h.Await(window[0]);
      match reply {
        case None => return results, false;
        case Some(r) =>
          results := results + [r];
          window := window[1..];
      }
    }
  }

  /** The code. It is a run of the wave, so what is proved of all of them holds of it: result `k` is what became
      of command `k`. It stops short only if it is never scheduled again. */
  method ReadIndependently(h: EventLoopHandle) returns (results: seq<Reply>, done: bool)
    requires h.Valid() && h.w == h.first && h.steps == [] && Starts(h.first)
    modifies h
    ensures h.Valid() && results == h.w.results
    ensures if done then |results| == |h.tickets| else h.world == []
    ensures (h.w, h.world) == old(Driven(h.w, h.world))
    ensures FreeSteps(h.first, h.steps) ==> |results| <= |h.tickets| && forall k :: 0 <= k < |results| ==>
      h.tickets[k] in h.s.loop.cells && Observe(h.s.loop, h.tickets[k]) == Some(results[k])
  {
    results, done := ReadAll(h);
    DrivenToTheEnd(h.w, h.world);
    if FreeSteps(h.first, h.steps) {
      StartsUnderway(h.first);
      UnderwayAlong(h.first, h.steps);
      forall k | 0 <= k < |results|
        ensures h.tickets[k] in h.s.loop.cells && Observe(h.s.loop, h.tickets[k]) == Some(results[k])
      {
        WaveIsPositional(h.first, h.steps, k);
      }
    }
  }

  lemma DrivenToTheEnd(w: Caller, world: seq<Turn>)
    requires (world == [] && Busy(w)) || (!Busy(w) && !MayPushError(w.control))
    ensures Driven(w, world) == (w, world)
  {
    if Busy(w) {
      BusyPushesNothing(w);
    }
  }

  method ReadAll(h: EventLoopHandle) returns (results: seq<Reply>, done: bool)
    requires h.Valid() && h.w.control == Control(|h.tickets|, 0, 0, false) && h.w.results == []
    modifies h
    ensures h.Valid() && results == h.w.results
    ensures if done then |results| == |h.tickets| else h.world == []
    ensures Driven(h.w, h.world) == old(Driven(h.w, h.world))
    ensures if done then !Busy(h.w) && !MayPushError(h.w.control) else Busy(h.w)
  {
    hide Driven, Can, Do, CanAll, DoAll;
    results := [];
    var window: seq<InFlight> := [];
    for sent := 0 to |h.tickets|
      invariant h.Valid() && results == h.w.results
      invariant h.w.control == Control(|h.tickets|, sent, |results|, false)
      invariant Driven(h.w, h.world) == old(Driven(h.w, h.world))
      invariant Holds(window, |results|) && |results| + |window| == sent && |window| <= MAX_READS_IN_FLIGHT
    {
      if |window| >= MAX_READS_IN_FLIGHT {
        var reply := h.Await(window[0]);
        match reply {
          case None => return results, false;
          case Some(r) =>
            results := results + [r];
            window := window[1..];
        }
      }
      var issued := h.Issue();
      match issued {
        case None => return results, false;
        case Some(Success(inFlight)) => window := window + [inFlight];
        case Some(Failure(e)) =>
          var drained: bool;
          results, drained := Drain(h, window, results);
          if !drained {
            return results, false;
          }
          window := [];
          h.PushedError();
          results := results + [Failure(e)];
      }
    }
    results, done := Drain(h, window, results);
  }
}
