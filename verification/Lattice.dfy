/** `implements_interface` (`reftype.rs`): a walk up superclasses and interfaces, cut off after 500 pops.

    The source calls it breadth-first; it pops the end of its vector, so it is depth-first. */
module Lattice {
  import opened Wrappers
  import opened Bytes
  import opened TypeCaches

  const MAX_STEPS := 500

  /** What the walk pushes for a type: a failed read counts as nothing. */
  function Ups(jvm: Jvm, id: TypeKey): seq<TypeKey> {
    var interfaces := About(jvm, id).interfaces;
    var parent := AskSuperclass(jvm, id);
    (if interfaces.Success? then interfaces.value else [])
    + (if parent.Success? && parent.value.Some? then [parent.value.value] else [])
  }

  predicate Matches(jvm: Jvm, id: TypeKey, wanted: Text) {
    About(jvm, id).signature == Success(wanted)
  }

  /** One step up, from what the JVM says about a type: one of its interfaces, or its superclass. */
  predicate OneUp(jvm: Jvm, id: TypeKey, up: TypeKey) {
    || (About(jvm, id).interfaces.Success? && up in About(jvm, id).interfaces.value)
    || (About(jvm, id).superclass == Success(up) && up != 0)
  }

  /** How many steps lead up from a type, an interface listed twice counting twice. */
  function OutDegree(jvm: Jvm, id: TypeKey): nat {
    (if About(jvm, id).interfaces.Success? then |About(jvm, id).interfaces.value| else 0)
    + (if About(jvm, id).superclass.Success? && About(jvm, id).superclass.value != 0 then 1 else 0)
  }

  lemma UpsAreStepsUp(jvm: Jvm, id: TypeKey)
    ensures forall up :: up in Ups(jvm, id) <==> OneUp(jvm, id, up)
    ensures |Ups(jvm, id)| == OutDegree(jvm, id)
  {
  }

  lemma UnknownTypesEndTheWalk(jvm: Jvm, id: TypeKey)
    ensures id !in jvm ==> Ups(jvm, id) == []
  {
  }

  // ----- reachability -----

  ghost predicate IsPath(jvm: Jvm, path: seq<TypeKey>) {
    path != [] && forall i :: 0 <= i < |path| - 1 ==> OneUp(jvm, path[i], path[i + 1])
  }

  ghost predicate Above(jvm: Jvm, start: TypeKey, id: TypeKey) {
    exists path :: IsPath(jvm, path) && path[0] == start && path[|path| - 1] == id
  }

  lemma AboveItself(jvm: Jvm, id: TypeKey)
    ensures Above(jvm, id, id)
  {
    assert IsPath(jvm, [id]);
  }

  lemma AboveStep(jvm: Jvm, start: TypeKey, id: TypeKey, up: TypeKey)
    requires Above(jvm, start, id) && OneUp(jvm, id, up)
    ensures Above(jvm, start, up)
  {
    var path :| IsPath(jvm, path) && path[0] == start && path[|path| - 1] == id;
    var longer := path + [up];
    forall i | 0 <= i < |longer| - 1 ensures OneUp(jvm, longer[i], longer[i + 1]) {
      if i < |path| - 1 {
        assert longer[i + 1] == path[i + 1] && longer[i] == path[i];
      }
    }
    assert IsPath(jvm, longer);
  }

  ghost predicate Closed(jvm: Jvm, s: set<TypeKey>) {
    forall id, up :: id in s && OneUp(jvm, id, up) ==> up in s
  }

  lemma {:induction false} ClosedHoldsAll(jvm: Jvm, s: set<TypeKey>, path: seq<TypeKey>)
    requires Closed(jvm, s) && IsPath(jvm, path) && path[0] in s
    ensures path[|path| - 1] in s
    decreases |path|
  {
    if |path| > 1 {
      assert OneUp(jvm, path[0], path[0 + 1]);
      forall i | 0 <= i < |path[1..]| - 1 ensures OneUp(jvm, path[1..][i], path[1..][i + 1]) {
        assert OneUp(jvm, path[i + 1], path[i + 1 + 1]);
      }
      ClosedHoldsAll(jvm, s, path[1..]);
    }
  }

  // ----- the walk without its bound -----

  function Popped(jvm: Jvm, stack: seq<TypeKey>, seen: set<TypeKey>): (pops: seq<TypeKey>)
    ensures stack != [] ==> pops != [] && pops[0] == stack[|stack| - 1]
    decreases jvm.Keys - seen, |stack|
  {
    if stack == [] then []
    else
      var id, rest := stack[|stack| - 1], stack[..|stack| - 1];
      [id] + (if id in seen then Popped(jvm, rest, seen)
              else
                UnknownTypesEndTheWalk(jvm, id);
                assert id in jvm ==> id in jvm.Keys - seen;
                assert id in jvm ==> jvm.Keys - (seen + {id}) < jvm.Keys - seen;
                assert id !in jvm ==> jvm.Keys - (seen + {id}) == jvm.Keys - seen;
                Popped(jvm, rest + Ups(jvm, id), seen + {id}))
  }

  /** Everything on the stack is popped in the end, and so is everything above a type popped for the first
      time. */
  lemma {:induction false} PopsEverything(jvm: Jvm, stack: seq<TypeKey>, seen: set<TypeKey>)
    ensures forall id :: id in stack ==> id in Popped(jvm, stack, seen)
    ensures forall id, up :: id in Popped(jvm, stack, seen) && id !in seen && OneUp(jvm, id, up) ==>
      up in Popped(jvm, stack, seen)
    decreases jvm.Keys - seen, |stack|
  {
    if stack != [] {
      var id, rest := stack[|stack| - 1], stack[..|stack| - 1];
      assert stack == rest + [id];
      if id in seen {
        PopsEverything(jvm, rest, seen);
      } else {
        UnknownTypesEndTheWalk(jvm, id);
        UpsAreStepsUp(jvm, id);
        assert id in jvm ==> id in jvm.Keys - seen;
        PopsEverything(jvm, rest + Ups(jvm, id), seen + {id});
      }
    }
  }

  lemma {:induction false} PopsOnlyAbove(jvm: Jvm, start: TypeKey, stack: seq<TypeKey>, seen: set<TypeKey>)
    requires forall id :: id in stack ==> Above(jvm, start, id)
    ensures forall id :: id in Popped(jvm, stack, seen) ==> Above(jvm, start, id)
    decreases jvm.Keys - seen, |stack|
  {
    if stack != [] {
      var id, rest := stack[|stack| - 1], stack[..|stack| - 1];
      if id in seen {
        PopsOnlyAbove(jvm, start, rest, seen);
      } else {
        UpsAreStepsUp(jvm, id);
        forall up | up in Ups(jvm, id) ensures Above(jvm, start, up) {
          AboveStep(jvm, start, id, up);
        }
        UnknownTypesEndTheWalk(jvm, id);
        assert id in jvm ==> id in jvm.Keys - seen;
        PopsOnlyAbove(jvm, start, rest + Ups(jvm, id), seen + {id});
      }
    }
  }

  function Pops(jvm: Jvm, start: TypeKey): seq<TypeKey> {
    Popped(jvm, [start], {})
  }

  /** The unbounded walk pops exactly the types above the first one. */
  lemma {:induction false} PopsAreWhatIsAbove(jvm: Jvm, start: TypeKey, id: TypeKey)
    ensures id in Pops(jvm, start) <==> Above(jvm, start, id)
  {
    AboveItself(jvm, start);
    PopsOnlyAbove(jvm, start, [start], {});
    PopsEverything(jvm, [start], {});
    if Above(jvm, start, id) {
      var path :| IsPath(jvm, path) && path[0] == start && path[|path| - 1] == id;
      ClosedHoldsAll(jvm, SetOf(Pops(jvm, start)), path);
    }
  }

  // ----- in which order -----

  /** The stack after popping its top, and what has been seen then. */
  function Onward(jvm: Jvm, stack: seq<TypeKey>, seen: set<TypeKey>): seq<TypeKey>
    requires stack != []
  {
    var id, rest := stack[|stack| - 1], stack[..|stack| - 1];
    if id in seen then rest else rest + Ups(jvm, id)
  }

  lemma PoppedOnward(jvm: Jvm, stack: seq<TypeKey>, seen: set<TypeKey>)
    requires stack != []
    ensures var id := stack[|stack| - 1];
      && Popped(jvm, stack, seen) == [id] + Popped(jvm, Onward(jvm, stack, seen), seen + {id})
      && SetOf(Popped(jvm, stack, seen)) == {id} + SetOf(Popped(jvm, Onward(jvm, stack, seen), seen + {id}))
      && jvm.Keys - (seen + {id}) <= jvm.Keys - seen
      && (jvm.Keys - (seen + {id}) == jvm.Keys - seen ==> |Onward(jvm, stack, seen)| < |stack|)
  {
    var id := stack[|stack| - 1];
    UnknownTypesEndTheWalk(jvm, id);
    assert id in seen ==> seen + {id} == seen;
    assert id in jvm && id !in seen ==> id in jvm.Keys - seen;
  }

  lemma PoppedNothing(jvm: Jvm, seen: set<TypeKey>)
    ensures Popped(jvm, [], seen) == [] && SetOf([]) == {}
  {
  }

  lemma OnwardBelow(jvm: Jvm, below: seq<TypeKey>, top: seq<TypeKey>, seen: set<TypeKey>)
    requires top != []
    ensures Onward(jvm, below + top, seen) == below + Onward(jvm, top, seen)
  {
    hide Ups;
    assert (below + top)[..|below + top| - 1] == below + top[..|top| - 1];
  }

  /** Depth first: all that the top of the stack leads to is popped before anything below it. */
  lemma {:induction false} PopsDepthFirst(jvm: Jvm, below: seq<TypeKey>, top: seq<TypeKey>, seen: set<TypeKey>)
    ensures Popped(jvm, below + top, seen)
            == Popped(jvm, top, seen) + Popped(jvm, below, seen + SetOf(Popped(jvm, top, seen)))
    decreases jvm.Keys - seen, |top|
  {
    hide Popped, Ups, SetOf, Onward;
    if top == [] {
      PoppedNothing(jvm, seen);
      assert below + top == below && seen + {} == seen;
    } else {
      var id, both := top[|top| - 1], below + top;
      PoppedOnward(jvm, both, seen);
      PoppedOnward(jvm, top, seen);
      OnwardBelow(jvm, below, top, seen);
      var next, seen' := Onward(jvm, top, seen), seen + {id};
      PopsDepthFirst(jvm, below, next, seen');
      assert seen' + SetOf(Popped(jvm, next, seen')) == seen + SetOf(Popped(jvm, top, seen));
      var x, y := Popped(jvm, next, seen'), Popped(jvm, below, seen + SetOf(Popped(jvm, top, seen)));
      assert [id] + (x + y) == ([id] + x) + y;
    }
  }

  /** After a type comes all that is above its superclass, and only then its interfaces. */
  lemma {:induction false} SuperclassComesFirst(jvm: Jvm, id: TypeKey)
    requires About(jvm, id).superclass.Success? && About(jvm, id).superclass.value != 0
    requires About(jvm, id).interfaces.Success?
    ensures var above := Popped(jvm, [About(jvm, id).superclass.value], {id});
      Pops(jvm, id) == [id] + above + Popped(jvm, About(jvm, id).interfaces.value, {id} + SetOf(above))
  {
    var interfaces, parent := About(jvm, id).interfaces.value, About(jvm, id).superclass.value;
    assert [id][..0] + Ups(jvm, id) == interfaces + [parent];
    PopsDepthFirst(jvm, interfaces, [parent], {id});
    assert {} + {id} == {id};
  }

  // ----- how long it is -----

  /** The out-degrees of the types in `s`, added up. */
  ghost function Edges(jvm: Jvm, s: set<TypeKey>): nat
    decreases |s|
  {
    if s == {} then 0
    else
      var id :| id in s;
      OutDegree(jvm, id) + Edges(jvm, s - {id})
  }

  lemma {:induction false} EdgesTake(jvm: Jvm, s: set<TypeKey>, id: TypeKey)
    requires id in s
    ensures Edges(jvm, s) == OutDegree(jvm, id) + Edges(jvm, s - {id})
    decreases |s|
  {
    var other :| other in s && Edges(jvm, s) == OutDegree(jvm, other) + Edges(jvm, s - {other});
    if other != id {
      EdgesTake(jvm, s - {other}, id);
      EdgesTake(jvm, s - {id}, other);
      assert s - {other} - {id} == s - {id} - {other};
    }
  }

  function SetOf(ids: seq<TypeKey>): set<TypeKey> {
    set id | id in ids
  }

  /** Duplicates count: every edge out of a type is popped once. */
  lemma {:induction false} PoppedLength(jvm: Jvm, stack: seq<TypeKey>, seen: set<TypeKey>)
    ensures |Popped(jvm, stack, seen)| == |stack| + Edges(jvm, SetOf(Popped(jvm, stack, seen)) - seen)
    decreases jvm.Keys - seen, |stack|
  {
    var pops := Popped(jvm, stack, seen);
    if stack != [] {
      var id, rest := stack[|stack| - 1], stack[..|stack| - 1];
      if id in seen {
        var more := Popped(jvm, rest, seen);
        PoppedLength(jvm, rest, seen);
        assert SetOf(pops) - seen == SetOf(more) - seen;
      } else {
        UnknownTypesEndTheWalk(jvm, id);
        assert id in jvm ==> id in jvm.Keys - seen;
        var more := Popped(jvm, rest + Ups(jvm, id), seen + {id});
        UpsAreStepsUp(jvm, id);
        PoppedLength(jvm, rest + Ups(jvm, id), seen + {id});
        var firsts := SetOf(pops) - seen;
        assert firsts - {id} == SetOf(more) - (seen + {id});
        EdgesTake(jvm, firsts, id);
      }
    }
  }

  lemma PopsAsSet(jvm: Jvm, start: TypeKey, above: set<TypeKey>)
    requires forall id :: id in above <==> Above(jvm, start, id)
    ensures SetOf(Pops(jvm, start)) == above
  {
    hide Pops, Above;
    forall id ensures id in Pops(jvm, start) <==> id in above {
      PopsAreWhatIsAbove(jvm, start, id);
    }
  }

  /** One pop for the start and one for every edge above it. */
  lemma PopsLength(jvm: Jvm, start: TypeKey, above: set<TypeKey>)
    requires forall id :: id in above <==> Above(jvm, start, id)
    ensures |Pops(jvm, start)| == 1 + Edges(jvm, above)
  {
    hide Popped, Above, Edges;
    PoppedLength(jvm, [start], {});
    PopsAsSet(jvm, start, above);
    assert above - {} == above;
  }

  // ----- the code -----

  /** Some type among the first `n` popped has the wanted signature. */
  ghost predicate FoundWithin(jvm: Jvm, start: TypeKey, wanted: Text, n: nat) {
    exists k :: 0 <= k < n && k < |Pops(jvm, start)| && Matches(jvm, Pops(jvm, start)[k], wanted)
  }

  /** `steps` pops are behind, none of them a match, and the rest of the walk is still ahead. */
  ghost predicate Walking(jvm: Jvm, all: seq<TypeKey>, steps: nat, queue: seq<TypeKey>, seen: set<TypeKey>,
                          wanted: Text) {
    && steps <= |all| && all[steps..] == Popped(jvm, queue, seen)
    && (forall k :: 0 <= k < steps ==> !Matches(jvm, all[k], wanted))
    && (forall id :: id in seen ==> !Matches(jvm, id, wanted))
  }

  lemma WalkBegins(jvm: Jvm, start: TypeKey, wanted: Text)
    ensures Walking(jvm, Pops(jvm, start), 0, [start], {}, wanted)
  {
    assert Pops(jvm, start)[0..] == Popped(jvm, [start], {});
  }

  lemma WalkEnds(jvm: Jvm, all: seq<TypeKey>, steps: nat, seen: set<TypeKey>, wanted: Text)
    requires Walking(jvm, all, steps, [], seen, wanted)
    ensures steps == |all|
  {
  }

  lemma WalkStep(jvm: Jvm, all: seq<TypeKey>, steps: nat, queue: seq<TypeKey>, seen: set<TypeKey>, wanted: Text)
    requires Walking(jvm, all, steps, queue, seen, wanted) && queue != []
    ensures var current, rest := queue[|queue| - 1], queue[..|queue| - 1];
      && steps < |all| && all[steps] == current
      && (current in seen ==> Walking(jvm, all, steps + 1, rest, seen, wanted))
      && (current !in seen && !Matches(jvm, current, wanted) ==>
           Walking(jvm, all, steps + 1, rest + Ups(jvm, current), seen + {current}, wanted))
  {
    var current, rest := queue[|queue| - 1], queue[..|queue| - 1];
    assert all[steps..][1..] == all[steps + 1..] && all[steps..][0] == all[steps];
    var more := if current in seen then Popped(jvm, rest, seen)
                else Popped(jvm, rest + Ups(jvm, current), seen + {current});
    assert Popped(jvm, queue, seen) == [current] + more;
    assert ([current] + more)[1..] == more;
  }

  /** `queue.extend(..)` and `queue.push(..)`: what a type adds to the queue. */
  method ReadUps(c: Connection, id: TypeKey) returns (pushed: seq<TypeKey>)
    requires c.Coherent()
    modifies c`interfaces, c`superclasses, c`packets
    ensures c.Coherent() && pushed == Ups(c.jvm, id)
    ensures |pushed| == OutDegree(c.jvm, id) && forall up :: up in pushed <==> OneUp(c.jvm, id, up)
  {
    UpsAreStepsUp(c.jvm, id);
    var interfaces := c.GetInterfaces(id);
    pushed := if interfaces.Success? then interfaces.value else [];
    var parent := c.GetSuperclass(id);
    if parent.Success? && parent.value.Some? {
      pushed := pushed + [parent.value.value];
    }
  }

  method ImplementsInterface(c: Connection, typeId: TypeKey, wanted: Text) returns (found: bool)
    requires c.Coherent()
    modifies c
    ensures c.Coherent() && c.jvm == old(c.jvm)
    ensures found <==> FoundWithin(c.jvm, typeId, wanted, 500)
    ensures found ==> exists id :: Above(c.jvm, typeId, id) && About(c.jvm, id).signature == Success(wanted)
  {
    hide Walking, Pops, Popped, Above;
    ghost var jvm, all := c.jvm, Pops(c.jvm, typeId);
    var seen: set<TypeKey> := {};
    var queue := [typeId];
    var steps := 0;
    WalkBegins(jvm, typeId, wanted);
    while queue != []
      invariant c.Coherent() && c.jvm == jvm && 0 <= steps <= MAX_STEPS
      invariant Walking(jvm, all, steps, queue, seen, wanted)
      decreases MAX_STEPS - steps
    {
      WalkStep(jvm, all, steps, queue, seen, wanted);
      ghost var before := queue;
      var current := queue[|queue| - 1];
      queue := queue[..|queue| - 1];
      steps := steps + 1;
      if steps > MAX_STEPS {
        NothingWithin(jvm, typeId, wanted, steps - 1, before, seen);
        return false;
      }
      if current in seen {
        continue;
      }
      seen := seen + {current};
      var signature := c.GetSignature(current);
      if signature == Success(wanted) {
        assert FoundWithin(jvm, typeId, wanted, MAX_STEPS) by {
          assert Matches(jvm, all[steps - 1], wanted);
        }
        FoundIsAbove(jvm, typeId, wanted, MAX_STEPS);
        return true;
      }
      var pushed := ReadUps(c, current);
      queue := queue + pushed;
    }
    NothingWithin(jvm, typeId, wanted, steps, [], seen);
    found := false;
  }

  /** Either all is popped or the bound is reached: there was no match among the pops that count. */
  lemma NothingWithin(jvm: Jvm, start: TypeKey, wanted: Text, steps: nat, queue: seq<TypeKey>, seen: set<TypeKey>)
    requires Walking(jvm, Pops(jvm, start), steps, queue, seen, wanted)
    requires queue == [] || steps >= MAX_STEPS
    ensures !FoundWithin(jvm, start, wanted, MAX_STEPS)
  {
    if queue == [] {
      WalkEnds(jvm, Pops(jvm, start), steps, seen, wanted);
    }
  }

  /** `true` is always right. */
  lemma {:induction false} FoundIsAbove(jvm: Jvm, start: TypeKey, wanted: Text, n: nat)
    requires FoundWithin(jvm, start, wanted, n)
    ensures exists id :: Above(jvm, start, id) && Matches(jvm, id, wanted)
  {
    var k :| 0 <= k < n && k < |Pops(jvm, start)| && Matches(jvm, Pops(jvm, start)[k], wanted);
    PopsAreWhatIsAbove(jvm, start, Pops(jvm, start)[k]);
  }

  /** `false` is right whenever the edges above the type, and one more, are within the bound. */
  lemma ExactWithinTheBound(jvm: Jvm, start: TypeKey, wanted: Text, above: set<TypeKey>)
    requires forall id :: id in above <==> Above(jvm, start, id)
    requires 1 + Edges(jvm, above) <= 500
    ensures Exact(jvm, start, wanted)
  {
    PopsLength(jvm, start, above);
    forall id | Above(jvm, start, id) ensures id in Front(jvm, start) {
      PopsAreWhatIsAbove(jvm, start, id);
    }
    CoveredIsExact(jvm, start, wanted);
  }

  ghost predicate Exact(jvm: Jvm, start: TypeKey, wanted: Text) {
    FoundWithin(jvm, start, wanted, 500)
    <==> exists id :: Above(jvm, start, id) && About(jvm, id).signature == Success(wanted)
  }

  /** The pops that count. */
  function Front(jvm: Jvm, start: TypeKey): seq<TypeKey> {
    var pops := Pops(jvm, start);
    if |pops| <= MAX_STEPS then pops else pops[..MAX_STEPS]
  }

  ghost predicate Covered(jvm: Jvm, start: TypeKey) {
    forall id :: Above(jvm, start, id) ==> id in Front(jvm, start)
  }

  /** The signatures above can be read and tell the types apart, as those of one class loader do. */
  ghost predicate DistinctlySigned(jvm: Jvm, start: TypeKey) {
    && (forall id :: Above(jvm, start, id) ==> About(jvm, id).signature.Success?)
    && (forall a, b ::
          Above(jvm, start, a) && Above(jvm, start, b) && About(jvm, a).signature == About(jvm, b).signature ==> a == b)
  }

  /** Every question about a type is answered exactly if, and only if, all that is above it is among the
      first 500 popped. */
  lemma {:induction false} ExactIfAndOnlyIfCovered(jvm: Jvm, start: TypeKey)
    requires DistinctlySigned(jvm, start)
    ensures Covered(jvm, start) <==> forall wanted: Text :: Exact(jvm, start, wanted)
  {
    if Covered(jvm, start) {
      forall wanted: Text ensures Exact(jvm, start, wanted) {
        CoveredIsExact(jvm, start, wanted);
      }
    }
    if forall wanted: Text :: Exact(jvm, start, wanted) {
      forall id | Above(jvm, start, id) ensures id in Front(jvm, start) {
        var wanted := About(jvm, id).signature.value;
        assert Matches(jvm, id, wanted) && Exact(jvm, start, wanted);
        var k :| 0 <= k < MAX_STEPS && k < |Pops(jvm, start)| && Matches(jvm, Pops(jvm, start)[k], wanted);
        PopsAreWhatIsAbove(jvm, start, Pops(jvm, start)[k]);
        assert Front(jvm, start)[k] == id;
      }
    }
  }

  lemma {:induction false} CoveredIsExact(jvm: Jvm, start: TypeKey, wanted: Text)
    requires Covered(jvm, start)
    ensures Exact(jvm, start, wanted)
  {
    if FoundWithin(jvm, start, wanted, MAX_STEPS) {
      FoundIsAbove(jvm, start, wanted, MAX_STEPS);
    }
    if id :| Above(jvm, start, id) && Matches(jvm, id, wanted) {
      var k :| 0 <= k < |Front(jvm, start)| && Front(jvm, start)[k] == id;
      assert Pops(jvm, start)[k] == id;
    }
  }

  // ----- a chain too long -----

  /** Decimal digits. */
  function Digits(n: nat): (d: bytes)
    ensures |d| > 0 && forall i :: 0 <= i < |d| ==> d[i] < 0x80
  {
    if n < 10 then [48 + n] else Digits(n / 10) + [48 + n % 10]
  }

  lemma {:induction false} DigitsTellApart(a: nat, b: nat)
    requires Digits(a) == Digits(b)
    ensures a == b
  {
    assert Digits(a)[|Digits(a)| - 1] == 48 + a % 10 && Digits(b)[|Digits(b)| - 1] == 48 + b % 10;
    if a >= 10 && b >= 10 {
      assert Digits(a)[..|Digits(a)| - 1] == Digits(a / 10) && Digits(b)[..|Digits(b)| - 1] == Digits(b / 10);
      DigitsTellApart(a / 10, b / 10);
    }
  }

  function TenTo(k: nat): nat {
    if k == 0 then 1 else 10 * TenTo(k - 1)
  }

  lemma {:induction false} FewDigits(n: nat, k: nat)
    requires 0 < k && n < TenTo(k)
    ensures |Digits(n)| <= k
  {
    if n >= 10 {
      FewDigits(n / 10, k - 1);
    }
  }

  lemma TenToTwenty()
    ensures TenTo(20) == 100_000_000_000_000_000_000
  {
    assert TenTo(4) == 10_000;
    assert TenTo(8) == 10_000 * TenTo(4) && TenTo(12) == 10_000 * TenTo(8);
    assert TenTo(16) == 10_000 * TenTo(12) && TenTo(20) == 10_000 * TenTo(16);
  }

  /** The signature of class `id` of the chain, such as `LC42;`. */
  function Name(id: u64): Text {
    var name: bytes := [76, 67] + Digits(id) + [59];
    PlainIsText(name);
    TenToTwenty();
    FewDigits(id, 20);
    name
  }

  lemma NamesTellApart(a: u64, b: u64)
    requires Name(a) == Name(b)
    ensures a == b
  {
    assert Digits(a) == Name(a)[2..|Name(a)| - 1] && Digits(b) == Name(b)[2..|Name(b)| - 1];
    DigitsTellApart(a, b);
  }

  lemma {:induction false} PlainIsText(b: bytes)
    requires forall i :: 0 <= i < |b| ==> b[i] < 0x80
    ensures IsText(b)
  {
    if b != [] {
      PlainIsText(b[1..]);
    }
  }

  /** Classes `1` to `n`, each the superclass of the one before, each with a signature of its own. */
  function Chain(n: u64): Jvm {
    map id: u64 | 1 <= id <= n :: Link(n, id)
  }

  function Link(n: u64, id: u64): Facts
    requires id <= n
  {
    Facts(Success(Name(id)), Success(if id == n then 0 else id + 1), Success([]),
          Success([]), Success([]), Success([]), Success([]))
  }

  lemma LinkUp(n: u64, id: TypeKey)
    requires 1 <= id <= n
    ensures Ups(Chain(n), id) == if id == n then [] else [id + 1]
  {
    hide Name;
    assert Chain(n)[id] == Link(n, id);
  }

  lemma {:induction false} ChainPops(n: u64, id: TypeKey, seen: set<TypeKey>)
    requires 1 <= id <= n && forall s :: s in seen ==> s < id
    ensures var pops := Popped(Chain(n), [id], seen);
      |pops| == n - id + 1 && forall k :: 0 <= k < |pops| ==> pops[k] == id + k
    decreases n - id
  {
    hide Chain, Ups;
    LinkUp(n, id);
    assert [id][..0] + Ups(Chain(n), id) == Ups(Chain(n), id);
    if id < n {
      ChainPops(n, id + 1, seen + {id});
    }
  }

  lemma AboveInChain(n: u64, id: TypeKey)
    requires 1 <= n
    ensures Above(Chain(n), 1, id) <==> 1 <= id <= n
  {
    hide Above, Chain;
    ChainPops(n, 1, {});
    PopsAreWhatIsAbove(Chain(n), 1, id);
    if 1 <= id <= n {
      assert Pops(Chain(n), 1)[id - 1] == id;
    }
  }

  lemma ChainIsDistinctlySigned(n: u64)
    requires 1 <= n
    ensures DistinctlySigned(Chain(n), 1)
  {
    hide Above, Name;
    forall id: TypeKey ensures Above(Chain(n), 1, id) <==> 1 <= id <= n {
      AboveInChain(n, id);
    }
    forall a: TypeKey, b: TypeKey | 1 <= a <= n && 1 <= b <= n && Name(a) == Name(b) ensures a == b {
      NamesTellApart(a, b);
    }
  }

  /** The bound is tight among ordinary types: in every chain of 501 classes or more, each with its own
      signature, the last is above the first and is not found. */
  lemma LongChainIsCutOff(n: u64)
    requires 500 < n
    ensures DistinctlySigned(Chain(n), 1) && !Covered(Chain(n), 1)
    ensures Above(Chain(n), 1, n) && Matches(Chain(n), n, Name(n)) && !FoundWithin(Chain(n), 1, Name(n), 500)
  {
    hide Above, Name;
    ChainIsDistinctlySigned(n);
    ChainPops(n, 1, {});
    AboveInChain(n, n);
    assert n !in Front(Chain(n), 1);
    if FoundWithin(Chain(n), 1, Name(n), MAX_STEPS) {
      var k :| 0 <= k < MAX_STEPS && k < |Pops(Chain(n), 1)| && Matches(Chain(n), Pops(Chain(n), 1)[k], Name(n));
      NamesTellApart(k + 1, n);
      assert false;
    }
  }
}
