/** Independent reads (`read_independently` in `connection.rs`): when its caller may issue the next command and
    when it must wait for the oldest, what that costs in waits, and the connection's two counters. */
module Wave {
  import opened Bytes
  import opened Loop

  const MAX_READS_IN_FLIGHT := 16

  /** How far the caller is with its `n` commands. It drains its window once the loop has refused one. */
  datatype Control = Control(n: nat, sent: nat, got: nat, draining: bool)

  /** There is room in the window for the next command. */
  predicate MayIssue(c: Control) {
    !c.draining && c.sent < c.n && c.sent < c.got + MAX_READS_IN_FLIGHT
  }

  /** The window is full, or everything is issued, or a refusal is waiting for its turn. */
  predicate MayAwait(c: Control) {
    if c.draining then c.got + 1 < c.sent
    else c.got < c.sent && (c.sent == c.n || c.sent == c.got + MAX_READS_IN_FLIGHT)
  }

  /** The window is drained: the refused command's error is the next result. */
  predicate MayPushError(c: Control) {
    c.draining && c.got + 1 == c.sent
  }

  predicate Proper(c: Control) {
    c.got <= c.sent <= c.n && c.sent <= c.got + MAX_READS_IN_FLIGHT && (c.draining ==> c.got < c.sent)
  }

  /** Until all is done there is exactly one thing for the caller to do. */
  lemma AlwaysOneThingToDo(c: Control)
    requires Proper(c) && c.got < c.n
    ensures MayIssue(c) || MayAwait(c) || MayPushError(c)
    ensures !(MayIssue(c) && MayAwait(c)) && !(MayIssue(c) && MayPushError(c)) && !(MayAwait(c) && MayPushError(c))
  {
  }

  // ----- how many waits block -----

  datatype Call = Issues | Awaits

  function Called(c: Control, call: Call): Control {
    match call
    case Issues => c.(sent := c.sent + 1)
    case Awaits => c.(got := c.got + 1)
  }

  /** The calls of a wave none of whose commands is refused. */
  predicate Schedule(c: Control, calls: seq<Call>)
    decreases |calls|
  {
    if calls == [] then c.got == c.n
    else (if calls[0].Issues? then MayIssue(c) else MayAwait(c)) && Schedule(Called(c, calls[0]), calls[1..])
  }

  /** The waits that block in lockstep: one that does ends when everything issued so far has been answered.
      Commands below `answered` have been. */
  function Blocked(c: Control, answered: nat, calls: seq<Call>): nat
    decreases |calls|
  {
    if calls == [] then 0
    else if calls[0].Issues? || c.got < answered then Blocked(Called(c, calls[0]), answered, calls[1..])
    else 1 + Blocked(Called(c, calls[0]), c.sent, calls[1..])
  }

  function Windows(n: nat): nat {
    (n + MAX_READS_IN_FLIGHT - 1) / MAX_READS_IN_FLIGHT
  }

  /** So far one wait in sixteen has blocked, and the last that did left a window's worth answered, or all. */
  predicate Counted(c: Control, answered: nat) {
    && Proper(c) && !c.draining
    && (c.got > 0 && c.sent < c.n ==> c.sent + 1 >= c.got + MAX_READS_IN_FLIGHT)
    && (if c.got == 0 then answered == 0
        else answered == MAX_READS_IN_FLIGHT * Windows(c.got)
             || (answered == c.sent == c.n && answered <= MAX_READS_IN_FLIGHT * Windows(c.got)))
  }

  lemma CountedStep(c: Control, answered: nat, call: Call)
    requires Counted(c, answered) && if call.Issues? then MayIssue(c) else MayAwait(c)
    ensures call.Issues? ==> Counted(Called(c, call), answered)
    ensures call.Awaits? && c.got < answered ==>
      Counted(Called(c, call), answered) && Windows(c.got + 1) == Windows(c.got)
    ensures call.Awaits? && c.got >= answered ==>
      Counted(Called(c, call), c.sent) && Windows(c.got + 1) == Windows(c.got) + 1
  {
  }

  lemma {:induction false} BlockedFrom(c: Control, answered: nat, calls: seq<Call>)
    requires Counted(c, answered) && Schedule(c, calls)
    ensures Windows(c.got) + Blocked(c, answered, calls) == Windows(c.n)
    decreases |calls|
  {
    if calls != [] {
      CountedStep(c, answered, calls[0]);
      var answered' := if calls[0].Issues? || c.got < answered then answered else c.sent;
      BlockedFrom(Called(c, calls[0]), answered', calls[1..]);
    }
  }

  /** In lockstep a wave of `n` blocks exactly once per window's worth. */
  lemma {:induction false} OneWaitPerWindow(n: nat, calls: seq<Call>)
    requires Schedule(Control(n, 0, 0, false), calls)
    ensures Blocked(Control(n, 0, 0, false), 0, calls) == (n + 15) / 16
  {
    BlockedFrom(Control(n, 0, 0, false), 0, calls);
  }

  // ----- the cost figures -----

  /** The connection's two counters, as wide as the source has them. */
  class Counters {
    var nextId: u32
    var roundTrips: u32
    ghost var drawn: nat
    ghost var waited: nat

    ghost predicate Valid()
      reads this
    {
      nextId == (1 + drawn) % ID_SPACE && roundTrips == waited % ID_SPACE
    }

    constructor ()
      ensures Valid() && drawn == 0 && waited == 0
    {
      nextId, roundTrips, drawn, waited := 1, 0, 0, 0;
    }

    method NextId() returns (id: u32)
      requires Valid()
      modifies this`nextId, this`drawn
      ensures Valid() && drawn == old(drawn) + 1 && id == IdOf(old(drawn)) == (1 + old(drawn)) % 0x1_0000_0000
    {
      id := nextId;
      nextId := if nextId + 1 == ID_SPACE then 0 else nextId + 1;
      drawn := drawn + 1;
    }

    /** Exact until the counter comes round to 0, and never again. */
    method PacketsSent() returns (n: u32)
      requires Valid()
      ensures n == drawn <==> drawn < 0xFFFF_FFFF
    {
      n := if nextId == 0 then 0 else nextId - 1;
    }

    /** A wave counts one round trip per window's worth, before anything is issued. The count of one wave
        saturates, the total wraps. */
    method CountWave(n: nat)
      requires Valid()
      modifies this`roundTrips, this`waited
      ensures Valid() && waited == old(waited) + (if (n + 15) / 16 < 0xFFFF_FFFF then (n + 15) / 16 else 0xFFFF_FFFF)
    {
      var waves := if Windows(n) < ID_SPACE then Windows(n) else ID_SPACE - 1;
      var sum := roundTrips + waves;
      roundTrips := if sum < ID_SPACE then sum else sum - ID_SPACE;
      waited := waited + waves;
    }
  }

  /** One id per command of a wave, drawn in order, and none besides. */
  method DrawIds(c: Counters, n: nat) returns (ids: seq<u32>)
    requires c.Valid()
    modifies c
    ensures c.Valid() && c.drawn == old(c.drawn) + n && c.waited == old(c.waited)
    ensures |ids| == n && forall i :: 0 <= i < n ==> ids[i] == IdOf(old(c.drawn) + i)
  {
    ids := [];
    while |ids| < n
      invariant |ids| <= n && c.Valid() && c.drawn == old(c.drawn) + |ids| && c.waited == old(c.waited)
      invariant forall i :: 0 <= i < |ids| ==> ids[i] == IdOf(old(c.drawn) + i)
      decreases n - |ids|
    {
      var id := c.NextId();
      ids := ids + [id];
    }
  }
}
