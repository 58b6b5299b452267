/** EventRequest.Set (set 15, command 1): the request builders of `eventrequest.rs` and `extra.rs`, and the
    JVM's decoder, after "Set Command (1)" of the Java Debug Wire Protocol. */
module EventRequests {
  import opened Wrappers
  import opened Bytes
  import opened EventTypes
  import opened Events

  datatype Modifier =
    | Count(count: i32)                                               // 1
    | Conditional(exprId: i32)                                        // 2
    | ThreadOnly(thread: u64)                                         // 3
    | ClassOnly(class_: u64)                                          // 4
    | ClassMatch(pattern: Text)                                       // 5
    | ClassExclude(pattern: Text)                                     // 6
    | LocationOnly(location: Location)                                // 7
    | ExceptionOnly(exception: u64, caught: bool, uncaught: bool)     // 8
    | FieldOnly(declaring: u64, fieldId: u64)                         // 9
    | StepOnly(thread: u64, size: i32, depth: i32)                    // 10
    | InstanceOnly(instance: u64)                                     // 11
    | SourceNameMatch(pattern: Text)                                  // 12

  datatype Request = Request(kind: u8, suspendPolicy: u8, modifiers: seq<Modifier>)

  // ----- the JVM's half -----

  function DecodeModifier(b: bytes): Parsed<Modifier> {
    var (kind, b1) :- ReadU8(b);
    match kind
    case 1 => (var (count, b2) :- ReadI32(b1); Success((Count(count), b2)))
    case 2 => (var (expr, b2) :- ReadI32(b1); Success((Conditional(expr), b2)))
    case 3 => (var (thread, b2) :- ReadU64(b1); Success((ThreadOnly(thread), b2)))
    case 4 => (var (cls, b2) :- ReadU64(b1); Success((ClassOnly(cls), b2)))
    case 5 => (var (pattern, b2) :- ReadString(b1); Success((ClassMatch(pattern), b2)))
    case 6 => (var (pattern, b2) :- ReadString(b1); Success((ClassExclude(pattern), b2)))
    case 7 => (var (location, b2) :- ParseLocation(b1); Success((LocationOnly(location), b2)))
    case 8 => DecodeExceptionOnly(b1)
    case 9 =>
      (var (declaring, b2) :- ReadU64(b1); var (field, b3) :- ReadU64(b2); Success((FieldOnly(declaring, field), b3)))
    case 10 => DecodeStepOnly(b1)
    case 11 => (var (instance, b2) :- ReadU64(b1); Success((InstanceOnly(instance), b2)))
    case 12 => (var (pattern, b2) :- ReadString(b1); Success((SourceNameMatch(pattern), b2)))
    case _ => Failure(Protocol)
  }

  function DecodeExceptionOnly(b: bytes): Parsed<Modifier> {
    var (exception, b1) :- ReadU64(b);
    var (caught, b2) :- ReadU8(b1);
    var (uncaught, b3) :- ReadU8(b2);
    Success((ExceptionOnly(exception, caught != 0, uncaught != 0), b3))
  }

  function DecodeStepOnly(b: bytes): Parsed<Modifier> {
    var (thread, b1) :- ReadU64(b);
    var (size, b2) :- ReadI32(b1);
    var (depth, b3) :- ReadI32(b2);
    Success((StepOnly(thread, size, depth), b3))
  }

  function DecodeModifiers(count: nat, b: bytes): Parsed<seq<Modifier>> {
    if count == 0 then Success(([], b))
    else
      var (modifier, b1) :- DecodeModifier(b);
      var (modifiers, b2) :- DecodeModifiers(count - 1, b1);
      Success(([modifier] + modifiers, b2))
  }

  function DecodeSet(b: bytes): Parsed<Request> {
    var (kind, b1) :- ReadU8(b);
    var (suspendPolicy, b2) :- ReadU8(b1);
    var (count, b3) :- ReadI32(b2);
    if count < 0 then Failure(Protocol)
    else
      var (modifiers, b4) :- DecodeModifiers(count, b3);
      Success((Request(kind, suspendPolicy, modifiers), b4))
  }

  // ----- modifiers as bytes -----

  function Flag(x: bool): u8 {
    if x then 1 else 0
  }

  function LocationBytes(l: Location): bytes {
    U8(l.typeTag) + U64(l.classId) + U64(l.methodId) + U64(l.index)
  }

  function ModifierBytes(m: Modifier): bytes {
    match m
    case Count(count) => U8(1) + I32(count)
    case Conditional(expr) => U8(2) + I32(expr)
    case ThreadOnly(thread) => U8(3) + U64(thread)
    case ClassOnly(cls) => U8(4) + U64(cls)
    case ClassMatch(pattern) => U8(5) + Str(pattern)
    case ClassExclude(pattern) => U8(6) + Str(pattern)
    case LocationOnly(location) => U8(7) + LocationBytes(location)
    case ExceptionOnly(exception, caught, uncaught) => U8(8) + U64(exception) + U8(Flag(caught)) + U8(Flag(uncaught))
    case FieldOnly(declaring, field) => U8(9) + U64(declaring) + U64(field)
    case StepOnly(thread, size, depth) => U8(10) + U64(thread) + I32(size) + I32(depth)
    case InstanceOnly(instance) => U8(11) + U64(instance)
    case SourceNameMatch(pattern) => U8(12) + Str(pattern)
  }

  /** The modifier kinds of the protocol, by number. */
  lemma ModifierNumbers(m: Modifier)
    ensures ModifierBytes(m) != [] && ModifierBytes(m)[0] == match m
      case Count(_) => 1 case Conditional(_) => 2 case ThreadOnly(_) => 3 case ClassOnly(_) => 4
      case ClassMatch(_) => 5 case ClassExclude(_) => 6 case LocationOnly(_) => 7 case ExceptionOnly(_, _, _) => 8
      case FieldOnly(_, _) => 9 case StepOnly(_, _, _) => 10 case InstanceOnly(_) => 11 case SourceNameMatch(_) => 12
  {
  }

  function ModifiersBytes(ms: seq<Modifier>): bytes {
    if ms == [] then [] else ModifierBytes(ms[0]) + ModifiersBytes(ms[1..])
  }

  function SetBytes(kind: u8, suspendPolicy: u8, count: i32, ms: seq<Modifier>): bytes {
    U8(kind) + U8(suspendPolicy) + I32(count) + ModifiersBytes(ms)
  }

  lemma Join2(a: bytes, b: bytes, c: bytes)
    ensures a + b + c == a + (b + c)
  {
  }

  lemma Join3(a: bytes, b: bytes, c: bytes, d: bytes)
    ensures a + b + c + d == a + (b + (c + d)) == a + (b + c + d)
  {
  }

  lemma Join4(a: bytes, b: bytes, c: bytes, d: bytes, e: bytes)
    ensures a + b + c + d + e == a + (b + (c + (d + e))) == a + (b + c + d + e)
  {
  }

  lemma LocationDecoded(l: Location, rest: bytes)
    ensures ParseLocation(LocationBytes(l) + rest) == Success((l, rest))
  {
    LocationWritten(l, rest);
    Join4(U8(l.typeTag), U64(l.classId), U64(l.methodId), U64(l.index), rest);
  }

  lemma ExceptionOnlyDecoded(exception: u64, caught: bool, uncaught: bool, rest: bytes)
    ensures DecodeModifier(ModifierBytes(ExceptionOnly(exception, caught, uncaught)) + rest)
            == Success((ExceptionOnly(exception, caught, uncaught), rest))
  {
    hide U8, U64, ReadU8, ReadU64;
    var b2 := U8(Flag(uncaught)) + rest;
    var b1 := U8(Flag(caught)) + b2;
    Join4(U8(8), U64(exception), U8(Flag(caught)), U8(Flag(uncaught)), rest);
    ReadU8Written(Flag(uncaught), rest);
    ReadU8Written(Flag(caught), b2);
    ReadU64Written(exception, b1);
    ReadU8Written(8, U64(exception) + b1);
  }

  lemma StepOnlyDecoded(thread: u64, size: i32, depth: i32, rest: bytes)
    ensures DecodeModifier(ModifierBytes(StepOnly(thread, size, depth)) + rest)
            == Success((StepOnly(thread, size, depth), rest))
  {
    hide U8, U64, I32, ReadU8, ReadU64, ReadI32;
    var b2 := I32(depth) + rest;
    var b1 := I32(size) + b2;
    Join4(U8(10), U64(thread), I32(size), I32(depth), rest);
    ReadI32Written(depth, rest);
    ReadI32Written(size, b2);
    ReadU64Written(thread, b1);
    ReadU8Written(10, U64(thread) + b1);
  }

  lemma FieldOnlyDecoded(declaring: u64, field: u64, rest: bytes)
    ensures DecodeModifier(ModifierBytes(FieldOnly(declaring, field)) + rest)
            == Success((FieldOnly(declaring, field), rest))
  {
    hide U8, U64, ReadU8, ReadU64;
    Join3(U8(9), U64(declaring), U64(field), rest);
    ReadU64Written(field, rest);
    ReadU64Written(declaring, U64(field) + rest);
    ReadU8Written(9, U64(declaring) + (U64(field) + rest));
  }

  /** A modifier with one operand: its kind, then the operand's bytes. */
  lemma TagThenBody(kind: u8, body: bytes, rest: bytes)
    ensures ReadU8(U8(kind) + body + rest) == Success((kind, body + rest))
  {
    Join2(U8(kind), body, rest);
    ReadU8Written(kind, body + rest);
  }

  lemma PatternDecoded(m: Modifier, rest: bytes)
    requires m.ClassMatch? || m.ClassExclude? || m.SourceNameMatch?
    ensures DecodeModifier(ModifierBytes(m) + rest) == Success((m, rest))
  {
    hide U8, Str, ReadU8, ReadString;
    ReadStringWritten(m.pattern, rest);
    TagThenBody(5, Str(m.pattern), rest);
    TagThenBody(6, Str(m.pattern), rest);
    TagThenBody(12, Str(m.pattern), rest);
  }

  lemma WordDecoded(m: Modifier, rest: bytes)
    requires m.Count? || m.Conditional?
    ensures DecodeModifier(ModifierBytes(m) + rest) == Success((m, rest))
  {
    hide U8, I32, ReadU8, ReadI32;
    match m {
      case Count(x) => TagThenBody(1, I32(x), rest); ReadI32Written(x, rest);
      case Conditional(x) => TagThenBody(2, I32(x), rest); ReadI32Written(x, rest);
    }
  }

  lemma IdDecoded(m: Modifier, rest: bytes)
    requires m.ThreadOnly? || m.ClassOnly? || m.InstanceOnly?
    ensures DecodeModifier(ModifierBytes(m) + rest) == Success((m, rest))
  {
    hide U8, U64, ReadU8, ReadU64;
    match m {
      case ThreadOnly(x) => TagThenBody(3, U64(x), rest); ReadU64Written(x, rest);
      case ClassOnly(x) => TagThenBody(4, U64(x), rest); ReadU64Written(x, rest);
      case InstanceOnly(x) => TagThenBody(11, U64(x), rest); ReadU64Written(x, rest);
    }
  }

  lemma LocationOnlyDecoded(l: Location, rest: bytes)
    ensures DecodeModifier(ModifierBytes(LocationOnly(l)) + rest) == Success((LocationOnly(l), rest))
  {
    hide ParseLocation, LocationBytes, U8, ReadU8, ReadString;
    TagThenBody(7, LocationBytes(l), rest);
    LocationDecoded(l, rest);
  }

  /** The JVM's reading of each modifier is the one the client means, and takes exactly its bytes. */
  lemma ModifierDecoded(m: Modifier, rest: bytes)
    ensures DecodeModifier(ModifierBytes(m) + rest) == Success((m, rest))
  {
    hide DecodeModifier, ModifierBytes;
    match m {
      case Count(_) => WordDecoded(m, rest);
      case Conditional(_) => WordDecoded(m, rest);
      case ThreadOnly(_) => IdDecoded(m, rest);
      case ClassOnly(_) => IdDecoded(m, rest);
      case InstanceOnly(_) => IdDecoded(m, rest);
      case ClassMatch(_) => PatternDecoded(m, rest);
      case ClassExclude(_) => PatternDecoded(m, rest);
      case SourceNameMatch(_) => PatternDecoded(m, rest);
      case LocationOnly(l) => LocationOnlyDecoded(l, rest);
      case ExceptionOnly(x, caught, uncaught) => ExceptionOnlyDecoded(x, caught, uncaught, rest);
      case FieldOnly(x, field) => FieldOnlyDecoded(x, field, rest);
      case StepOnly(x, size, depth) => StepOnlyDecoded(x, size, depth, rest);
    }
  }

  /** Modifiers beyond those counted are not read. */
  lemma {:induction false} ModifiersDecoded(ms: seq<Modifier>, more: seq<Modifier>)
    ensures DecodeModifiers(|ms|, ModifiersBytes(ms + more)) == Success((ms, ModifiersBytes(more)))
  {
    hide DecodeModifier, ModifierBytes;
    if ms == [] {
      assert ms + more == more;
    } else {
      assert (ms + more)[1..] == ms[1..] + more && (ms + more)[0] == ms[0];
      ModifierDecoded(ms[0], ModifiersBytes(ms[1..] + more));
      ModifiersDecoded(ms[1..], more);
      assert ms == [ms[0]] + ms[1..];
    }
  }

  lemma {:induction false} SetDecoded(kind: u8, suspendPolicy: u8, ms: seq<Modifier>, more: seq<Modifier>)
    requires |ms| < 0x8000_0000
    ensures DecodeSet(SetBytes(kind, suspendPolicy, |ms|, ms + more))
            == Success((Request(kind, suspendPolicy, ms), ModifiersBytes(more)))
  {
    var b3 := ModifiersBytes(ms + more);
    var b2 := I32(|ms|) + b3;
    hide DecodeModifiers;
    Join3(U8(kind), U8(suspendPolicy), I32(|ms|), b3);
    ReadU8Written(kind, U8(suspendPolicy) + b2);
    ReadU8Written(suspendPolicy, b2);
    ReadI32Written(|ms|, b3);
    ModifiersDecoded(ms, more);
  }

  lemma {:induction false} ModifiersAppend(ms: seq<Modifier>, m: Modifier)
    ensures ModifiersBytes(ms + [m]) == ModifiersBytes(ms) + ModifierBytes(m)
  {
    if ms == [] {
      assert ms + [m] == [m];
      assert ModifiersBytes([m]) == ModifierBytes(m) + ModifiersBytes([]);
    } else {
      assert (ms + [m])[1..] == ms[1..] + [m] && (ms + [m])[0] == ms[0];
      ModifiersAppend(ms[1..], m);
    }
  }

  // ----- the builders -----

  datatype EventFilters = EventFilters(count: Option<i32>, thread: Option<u64>, instance: Option<u64>)
  datatype MonitorKind = Blocked | Acquired | Wait | Waited
  datatype WatchKind = Access | Modify
  datatype StepDepth = Into | Over | Out

  function MonitorEventKind(kind: MonitorKind): u8 {
    match kind
    case Blocked => MONITOR_CONTENDED_ENTER
    case Acquired => MONITOR_CONTENDED_ENTERED
    case Wait => MONITOR_WAIT
    case Waited => MONITOR_WAITED
  }

  function WatchEventKind(kind: WatchKind): u8 {
    match kind
    case Access => FIELD_ACCESS
    case Modify => FIELD_MODIFICATION
  }

  function MethodExitKind(withReturnValue: bool): u8 {
    if withReturnValue then METHOD_EXIT_WITH_RETURN_VALUE else METHOD_EXIT
  }

  const SUSPEND_ALL: u8 := 2
  const STEP_LINE: i32 := 1

  function DepthCode(depth: StepDepth): i32 {
    match depth
    case Into => 0
    case Over => 1
    case Out => 2
  }

  function CountThread(f: EventFilters): seq<Modifier> {
    (if f.count.Some? then [Count(f.count.value)] else [])
    + (if f.thread.Some? then [ThreadOnly(f.thread.value)] else [])
  }

  function Instance(f: EventFilters): seq<Modifier> {
    if f.instance.Some? then [InstanceOnly(f.instance.value)] else []
  }

  function Filters(f: EventFilters): seq<Modifier> {
    CountThread(f) + Instance(f)
  }

  function One<T>(o: Option<T>): nat {
    if o.Some? then 1 else 0
  }

  function Excludes(patterns: seq<Text>): (ms: seq<Modifier>)
    ensures |ms| == |patterns| && forall i :: 0 <= i < |ms| ==> ms[i] == ClassExclude(patterns[i])
  {
    if patterns == [] then [] else Excludes(patterns[..|patterns| - 1]) + [ClassExclude(patterns[|patterns| - 1])]
  }

  function Matches(patterns: seq<Text>): (ms: seq<Modifier>)
    ensures |ms| == |patterns| && forall i :: 0 <= i < |ms| ==> ms[i] == ClassMatch(patterns[i])
  {
    if patterns == [] then [] else Matches(patterns[..|patterns| - 1]) + [ClassMatch(patterns[|patterns| - 1])]
  }

  lemma NoPatterns(patterns: seq<Text>)
    ensures Excludes(patterns[..0]) == [] == Matches(patterns[..0])
  {
  }

  lemma PatternsGrow(patterns: seq<Text>, i: nat)
    requires i < |patterns|
    ensures Excludes(patterns[..i + 1]) == Excludes(patterns[..i]) + [ClassExclude(patterns[i])]
    ensures Matches(patterns[..i + 1]) == Matches(patterns[..i]) + [ClassMatch(patterns[i])]
  {
    assert patterns[..i + 1][..i] == patterns[..i];
  }

  /** `CommandPacket` while its data is being written. What it holds is always a header and some modifiers. */
  class SetRequest {
    var data: bytes
    ghost var kind: u8
    ghost var suspendPolicy: u8
    ghost var count: i32
    ghost var modifiers: seq<Modifier>

    ghost predicate Valid()
      reads this
    {
      data == SetBytes(kind, suspendPolicy, count, modifiers)
    }

    constructor (kind: u8, suspendPolicy: u8, count: i32)
      ensures Valid() && this.kind == kind && this.suspendPolicy == suspendPolicy && this.count == count
      ensures modifiers == []
    {
      data := U8(kind) + U8(suspendPolicy) + I32(count);
      this.kind, this.suspendPolicy, this.count, modifiers := kind, suspendPolicy, count, [];
      new;
      assert U8(kind) + U8(suspendPolicy) + I32(count) + [] == U8(kind) + U8(suspendPolicy) + I32(count);
    }

    method PutU8(x: u8)
      modifies this`data
      ensures data == old(data) + U8(x)
    {
      data := data + U8(x);
    }

    method PutI32(x: i32)
      modifies this`data
      ensures data == old(data) + I32(x)
    {
      data := data + I32(x);
    }

    method PutU64(x: u64)
      modifies this`data
      ensures data == old(data) + U64(x)
    {
      data := data + U64(x);
    }

    /** `write_jdwp_string`. */
    method PutString(t: Text)
      modifies this`data
      ensures data == old(data) + Str(t)
    {
      data := data + U32(|t|);
      data := data + t;
    }

    /** The modifier just written counts as the next of the list. */
    ghost method Written(before: bytes, m: Modifier)
      requires before == SetBytes(kind, suspendPolicy, count, modifiers) && data == before + ModifierBytes(m)
      modifies this`modifiers
      ensures Valid() && modifiers == old(modifiers) + [m]
    {
      hide ModifierBytes;
      ModifiersAppend(modifiers, m);
      Join2(U8(kind) + U8(suspendPolicy) + I32(count), ModifiersBytes(modifiers), ModifierBytes(m));
      modifiers := modifiers + [m];
    }

    method WriteCount(n: i32)
      requires Valid()
      modifies this`data, this`modifiers
      ensures Valid() && modifiers == old(modifiers) + [Count(n)]
    {
      ghost var before := data;
      PutU8(1);
      PutI32(n);
      Join2(before, U8(1), I32(n));
      Written(before, Count(n));
    }

    /** The modifiers that are one id: `ThreadOnly`, `ClassOnly` and `InstanceOnly`. */
    method WriteId(kind: u8, id: u64, ghost m: Modifier)
      requires Valid() && ModifierBytes(m) == U8(kind) + U64(id)
      modifies this`data, this`modifiers
      ensures Valid() && modifiers == old(modifiers) + [m]
    {
      ghost var before := data;
      PutU8(kind);
      PutU64(id);
      Join2(before, U8(kind), U64(id));
      Written(before, m);
    }

    /** `write_count_thread`. */
    method WriteCountThread(f: EventFilters)
      requires Valid()
      modifies this`data, this`modifiers
      ensures Valid() && modifiers == old(modifiers) + CountThread(f)
    {
      if f.count.Some? {
        WriteCount(f.count.value);
      }
      if f.thread.Some? {
        WriteId(3, f.thread.value, ThreadOnly(f.thread.value));
      }
    }

    /** `write_instance_only`. */
    method WriteInstanceOnly(f: EventFilters)
      requires Valid()
      modifies this`data, this`modifiers
      ensures Valid() && modifiers == old(modifiers) + Instance(f)
    {
      if f.instance.Some? {
        WriteId(11, f.instance.value, InstanceOnly(f.instance.value));
      }
    }

    method WriteClassOnly(class_: Option<u64>)
      requires Valid()
      modifies this`data, this`modifiers
      ensures Valid() && modifiers == old(modifiers) + MonitorClass(class_)
    {
      if class_.Some? {
        WriteId(4, class_.value, ClassOnly(class_.value));
      }
    }

    method WritePattern(kind: u8, pattern: Text, ghost m: Modifier)
      requires Valid() && ModifierBytes(m) == U8(kind) + Str(pattern)
      modifies this`data, this`modifiers
      ensures Valid() && modifiers == old(modifiers) + [m]
    {
      ghost var before := data;
      PutU8(kind);
      PutString(pattern);
      Join2(before, U8(kind), Str(pattern));
      Written(before, m);
    }

    method WriteClassExcludes(patterns: seq<Text>)
      requires Valid()
      modifies this`data, this`modifiers
      ensures Valid() && modifiers == old(modifiers) + Excludes(patterns)
    {
      NoPatterns(patterns);
      hide Matches, Excludes, SetRequest.Valid;
      for i := 0 to |patterns|
        invariant Valid() && modifiers == old(modifiers) + Excludes(patterns[..i])
      {
        WritePattern(6, patterns[i], ClassExclude(patterns[i]));
        PatternsGrow(patterns, i);
      }
      assert patterns[..|patterns|] == patterns;
    }

    method WriteClassMatches(patterns: seq<Text>)
      requires Valid()
      modifies this`data, this`modifiers
      ensures Valid() && modifiers == old(modifiers) + Matches(patterns)
    {
      NoPatterns(patterns);
      hide Matches, Excludes, SetRequest.Valid;
      for i := 0 to |patterns|
        invariant Valid() && modifiers == old(modifiers) + Matches(patterns[..i])
      {
        WritePattern(5, patterns[i], ClassMatch(patterns[i]));
        PatternsGrow(patterns, i);
      }
      assert patterns[..|patterns|] == patterns;
    }

    method WriteLocationOnly(classId: u64, methodId: u64, index: u64)
      requires Valid()
      modifies this`data, this`modifiers
      ensures Valid() && modifiers == old(modifiers) + [LocationOnly(Location(1, classId, methodId, index))]
    {
      ghost var before, l := data, Location(1, classId, methodId, index);
      PutU8(7);
      PutU8(1);
      PutU64(classId);
      PutU64(methodId);
      PutU64(index);
      Join4(before + U8(7), U8(1), U64(classId), U64(methodId), U64(index));
      Join2(before, U8(7), LocationBytes(l));
      Written(before, LocationOnly(l));
    }

    method WriteExceptionOnly(exception: u64, caught: bool, uncaught: bool)
      requires Valid()
      modifies this`data, this`modifiers
      ensures Valid() && modifiers == old(modifiers) + [ExceptionOnly(exception, caught, uncaught)]
    {
      ghost var before := data;
      PutU8(8);
      PutU64(exception);
      PutU8(Flag(caught));
      PutU8(Flag(uncaught));
      Join4(before, U8(8), U64(exception), U8(Flag(caught)), U8(Flag(uncaught)));
      Written(before, ExceptionOnly(exception, caught, uncaught));
    }

    method WriteFieldOnly(declaring: u64, fieldId: u64)
      requires Valid()
      modifies this`data, this`modifiers
      ensures Valid() && modifiers == old(modifiers) + [FieldOnly(declaring, fieldId)]
    {
      ghost var before := data;
      PutU8(9);
      PutU64(declaring);
      PutU64(fieldId);
      Join3(before, U8(9), U64(declaring), U64(fieldId));
      Written(before, FieldOnly(declaring, fieldId));
    }

    method WriteStepOnly(thread: u64, size: i32, depth: i32)
      requires Valid()
      modifies this`data, this`modifiers
      ensures Valid() && modifiers == old(modifiers) + [StepOnly(thread, size, depth)]
    {
      ghost var before := data;
      PutU8(10);
      PutU64(thread);
      PutI32(size);
      PutI32(depth);
      Join4(before, U8(10), U64(thread), I32(size), I32(depth));
      Written(before, StepOnly(thread, size, depth));
    }

    /** The packet goes out; it says what was asked if every modifier was counted. */
    method Finish(ghost kind: u8, ghost suspendPolicy: u8, ghost asked: seq<Modifier>) returns (data: bytes)
      requires Valid() && this.kind == kind && this.suspendPolicy == suspendPolicy
      requires modifiers == asked && count == |modifiers|
      ensures Means(data, kind, suspendPolicy, asked)
    {
      CountedInFull(kind, suspendPolicy, modifiers);
      data := this.data;
    }
  }

  /** What the JVM makes of a request: exactly these modifiers, and not a byte more. */
  ghost predicate Means(data: bytes, kind: u8, suspendPolicy: u8, ms: seq<Modifier>) {
    DecodeSet(data) == Success((Request(kind, suspendPolicy, ms), []))
  }

  lemma {:induction false} CountedInFull(kind: u8, suspendPolicy: u8, ms: seq<Modifier>)
    requires |ms| < 0x8000_0000
    ensures Means(SetBytes(kind, suspendPolicy, |ms|, ms), kind, suspendPolicy, ms)
  {
    SetDecoded(kind, suspendPolicy, ms, []);
    assert ms + [] == ms;
  }

  function MonitorClass(monitorClass: Option<u64>): (ms: seq<Modifier>)
    ensures |ms| <= 1 && forall id: u64 :: ClassOnly(id) in ms <==> monitorClass == Some(id)
  {
    if monitorClass.Some? then [ClassOnly(monitorClass.value)] else []
  }

  // ----- what was asked for is what is reported -----

  /** Every event the client accepts for a watch is an access or a modification, as asked. */
  lemma WatchReports(kind: WatchKind, b: bytes)
    ensures var parsed := ParseEventDetails(if kind.Access? then 20 else 21, b);
      parsed.Success? ==> if kind.Access? then parsed.value.0.FieldAccess? else parsed.value.0.FieldModification?
  {
    KindDecides(if kind.Access? then 20 else 21, b);
  }

  lemma MonitorReports(kind: MonitorKind, b: bytes)
    ensures var parsed := ParseEventDetails(match kind case Blocked => 43 case Acquired => 44 case Wait => 45
                                            case Waited => 46, b);
      parsed.Success? ==>
        match kind
        case Blocked => parsed.value.0.MonitorContendedEnter?
        case Acquired => parsed.value.0.MonitorContendedEntered?
        case Wait => parsed.value.0.MonitorWait?
        case Waited => parsed.value.0.MonitorWaited?
  {
    KindDecides(MonitorEventKind(kind), b);
  }

  /** With the return value, if that was asked for. */
  lemma MethodExitReports(withReturnValue: bool, b: bytes)
    ensures var parsed := ParseEventDetails(if withReturnValue then 42 else 41, b);
      parsed.Success? ==> parsed.value.0.MethodExit? && parsed.value.0.returnValue.Some? == withReturnValue
  {
    KindDecides(MethodExitKind(withReturnValue), b);
  }

  // ----- the filters -----

  /** Exactly the filters given are asked for, each once: the count first, then the thread, then the instance. */
  lemma FiltersAsked(f: EventFilters)
    ensures var ms := Filters(f);
      && (forall n: i32 :: Count(n) in ms <==> f.count == Some(n))
      && (forall id: u64 :: ThreadOnly(id) in ms <==> f.thread == Some(id))
      && (forall id: u64 :: InstanceOnly(id) in ms <==> f.instance == Some(id))
      && (forall m :: m in ms ==> m.Count? || m.ThreadOnly? || m.InstanceOnly?)
      && (forall i, j :: 0 <= i < j < |ms| ==>
            (ms[i].Count? && !ms[j].Count?) || (ms[i].ThreadOnly? && ms[j].InstanceOnly?))
  {
  }

  method SetBreakpointEx(classId: u64, methodId: u64, index: u64, suspendPolicy: u8, filters: EventFilters)
    returns (data: bytes)
    ensures Means(data, 2, suspendPolicy,
                  [LocationOnly(Location(1, classId, methodId, index))] + Filters(filters))
  {
    hide Means, SetBytes;
    var p := new SetRequest(BREAKPOINT, suspendPolicy,
                            1 + One(filters.count) + One(filters.thread) + One(filters.instance));
    p.WriteLocationOnly(classId, methodId, index);
    p.WriteCountThread(filters);
    p.WriteInstanceOnly(filters);
    data := p.Finish(BREAKPOINT, suspendPolicy,
                     [LocationOnly(Location(1, classId, methodId, index))] + Filters(filters));
  }

  method SetExceptionRequestEx(refType: Option<u64>, caught: bool, uncaught: bool, suspendPolicy: u8,
                               filters: EventFilters)
    returns (data: bytes)
    ensures Means(data, 4, suspendPolicy,
                  [ExceptionOnly(if refType.Some? then refType.value else 0, caught, uncaught)] + Filters(filters))
  {
    hide Means, SetBytes;
    var p := new SetRequest(EXCEPTION, suspendPolicy,
                            1 + One(filters.count) + One(filters.thread) + One(filters.instance));
    var exception := if refType.Some? then refType.value else 0;
    p.WriteExceptionOnly(exception, caught, uncaught);
    p.WriteCountThread(filters);
    p.WriteInstanceOnly(filters);
    data := p.Finish(EXCEPTION, suspendPolicy, [ExceptionOnly(exception, caught, uncaught)] + Filters(filters));
  }

  method SetFieldWatchEx(refType: u64, fieldId: u64, kind: WatchKind, suspendPolicy: u8, filters: EventFilters)
    returns (data: bytes)
    ensures Means(data, if kind.Access? then 20 else 21, suspendPolicy,
                  [FieldOnly(refType, fieldId)] + Filters(filters))
  {
    hide Means, SetBytes;
    var p := new SetRequest(WatchEventKind(kind), suspendPolicy,
                            1 + One(filters.count) + One(filters.thread) + One(filters.instance));
    p.WriteFieldOnly(refType, fieldId);
    p.WriteCountThread(filters);
    p.WriteInstanceOnly(filters);
    data := p.Finish(WatchEventKind(kind), suspendPolicy, [FieldOnly(refType, fieldId)] + Filters(filters));
  }

  method SetMonitorRequest(kind: MonitorKind, suspendPolicy: u8, monitorClass: Option<u64>, filters: EventFilters)
    returns (data: bytes)
    ensures Means(data, match kind case Blocked => 43 case Acquired => 44 case Wait => 45 case Waited => 46,
                  suspendPolicy, MonitorClass(monitorClass) + Filters(filters))
  {
    hide Means, SetBytes;
    var p := new SetRequest(MonitorEventKind(kind), suspendPolicy,
                            One(monitorClass) + One(filters.count) + One(filters.thread) + One(filters.instance));
    p.WriteClassOnly(monitorClass);
    p.WriteCountThread(filters);
    p.WriteInstanceOnly(filters);
    data := p.Finish(MonitorEventKind(kind), suspendPolicy, MonitorClass(monitorClass) + Filters(filters));
  }

  method SetClassPrepare(pattern: Text, suspendPolicy: u8) returns (data: bytes)
    ensures Means(data, 8, suspendPolicy, [ClassMatch(pattern)])
  {
    hide Means, SetBytes;
    var p := new SetRequest(CLASS_PREPARE, suspendPolicy, 1);
    p.WritePattern(5, pattern, ClassMatch(pattern));
    assert p.modifiers == [ClassMatch(pattern)];
    data := p.Finish(CLASS_PREPARE, suspendPolicy, [ClassMatch(pattern)]);
  }

  /** `i32::try_from(n).unwrap_or(i32::MAX)`. */
  function Saturated(n: nat): i32 {
    if n < 0x8000_0000 then n else 0x7FFF_FFFF
  }

  /** The request means what was asked exactly if its modifiers can be counted. `only` is written before
      `exclude`, and each pattern is a modifier of its own. */
  method SetStepEx(thread: u64, depth: StepDepth, exclude: seq<Text>, only: seq<Text>) returns (data: bytes)
    ensures Means(data, 1, 2,
                  [StepOnly(thread, 1, match depth case Into => 0 case Over => 1 case Out => 2)]
                  + Matches(only) + Excludes(exclude))
            <==> 1 + |exclude| + |only| < 0x8000_0000
  {
    hide Means, SetBytes;
    var count := Saturated(1 + |exclude| + |only|);
    var p := new SetRequest(SINGLE_STEP, SUSPEND_ALL, count);
    p.WriteStepOnly(thread, STEP_LINE, DepthCode(depth));
    p.WriteClassMatches(only);
    p.WriteClassExcludes(exclude);
    data := p.data;
    ghost var asked := [StepOnly(thread, STEP_LINE, DepthCode(depth))] + Matches(only) + Excludes(exclude);
    assert p.modifiers == asked;
    CountDecides(SINGLE_STEP, SUSPEND_ALL, count, asked);
  }

  function MethodExitCounted(pattern: Text, exclude: seq<Text>, filters: EventFilters): (ms: seq<Modifier>)
    ensures |ms| == 1 + |exclude| + One(filters.count) + One(filters.thread)
    ensures ms[0] == ClassMatch(pattern) && ms[1..1 + |exclude|] == Excludes(exclude)
    ensures ms[1 + |exclude|..] == CountThread(filters)
  {
    [ClassMatch(pattern)] + Excludes(exclude) + CountThread(filters)
  }

  /** `1 + .. + i32::try_from(exclude.len()).unwrap_or(0)`, with the sum wrapping at 32 bits. */
  function MethodExitCount(filters: EventFilters, excluded: nat): i32 {
    var sum := 1 + One(filters.count) + One(filters.thread) + (if excluded < 0x8000_0000 then excluded else 0);
    if sum < 0x8000_0000 then sum else sum - 0x1_0000_0000
  }

  /** The request means what was asked exactly when no instance filter was asked for and the modifiers can be
      counted. An instance filter is written but not counted, so the JVM drops it without a word and finds
      bytes left over. */
  method SetMethodExitRequestEx(pattern: Text, withReturnValue: bool, suspendPolicy: u8, exclude: seq<Text>,
                                filters: EventFilters)
    returns (data: bytes)
    ensures Means(data, if withReturnValue then 42 else 41, suspendPolicy,
                  MethodExitCounted(pattern, exclude, filters) + Instance(filters))
            <==> filters.instance.None? && |MethodExitCounted(pattern, exclude, filters)| < 0x8000_0000
    ensures |MethodExitCounted(pattern, exclude, filters)| < 0x8000_0000 ==>
      DecodeSet(data) == Success((Request(if withReturnValue then 42 else 41, suspendPolicy,
                                          MethodExitCounted(pattern, exclude, filters)),
                                  ModifiersBytes(Instance(filters))))
  {
    hide DecodeSet, SetBytes, Means, ModifiersBytes, Excludes;
    var kind, count := MethodExitKind(withReturnValue), MethodExitCount(filters, |exclude|);
    var p := new SetRequest(kind, suspendPolicy, count);
    p.WritePattern(5, pattern, ClassMatch(pattern));
    p.WriteClassExcludes(exclude);
    p.WriteCountThread(filters);
    p.WriteInstanceOnly(filters);
    data := p.data;
    ghost var counted := MethodExitCounted(pattern, exclude, filters);
    assert [] + [ClassMatch(pattern)] == [ClassMatch(pattern)];
    assert p.modifiers == counted + Instance(filters);
    CountDecides(kind, suspendPolicy, count, counted + Instance(filters));
    if |counted| < 0x8000_0000 {
      SetDecoded(kind, suspendPolicy, counted, Instance(filters));
    }
  }

  /** A request that counts fewer modifiers than it holds does not mean all of them, whatever the count. */
  lemma {:induction false} CountDecides(kind: u8, suspendPolicy: u8, count: i32, ms: seq<Modifier>)
    requires count <= |ms|
    ensures Means(SetBytes(kind, suspendPolicy, count, ms), kind, suspendPolicy, ms) <==> count == |ms|
  {
    if count == |ms| {
      CountedInFull(kind, suspendPolicy, ms);
    } else if count < 0 {
      NegativeCount(kind, suspendPolicy, count, ms);
    } else {
      assert ms == ms[..count] + ms[count..];
      SetDecoded(kind, suspendPolicy, ms[..count], ms[count..]);
    }
  }

  lemma {:induction false} NegativeCount(kind: u8, suspendPolicy: u8, count: i32, ms: seq<Modifier>)
    requires count < 0
    ensures DecodeSet(SetBytes(kind, suspendPolicy, count, ms)).Failure?
  {
    var b3 := ModifiersBytes(ms);
    Join3(U8(kind), U8(suspendPolicy), I32(count), b3);
    ReadU8Written(kind, U8(suspendPolicy) + (I32(count) + b3));
    ReadU8Written(suspendPolicy, I32(count) + b3);
    ReadI32Written(count, b3);
  }
}
