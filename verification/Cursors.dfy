/** The parsers as the source runs them: each advances a cursor over the reply's bytes, counted loops push
    into a vector, and an error leaves whatever was read so far behind. */
module Cursors {
  import opened Wrappers
  import opened Bytes
  import opened Values
  import opened EventTypes
  import opened Events
  import opened Tables

  /** A read that succeeds gives the parsed value and leaves the unread bytes; one that fails, the error. */
  ghost predicate Agrees<T>(r: Result<T>, rest: bytes, parsed: Parsed<T>) {
    match parsed
    case Success(p) => r == Success(p.0) && rest == p.1
    case Failure(e) => r == Failure(e)
  }

  /** A counted loop: what is in the vector, and what parsing the remaining entries gives, make up the whole. */
  ghost predicate SoFar<T>(whole: Parsed<seq<T>>, items: seq<T>, more: Parsed<seq<T>>) {
    match more
    case Success(p) => whole == Success((items + p.0, p.1))
    case Failure(e) => whole == Failure(e)
  }

  lemma NothingSoFar<T>(whole: Parsed<seq<T>>)
    ensures SoFar(whole, [], whole)
  {
    if whole.Success? {
      assert [] + whole.value.0 == whole.value.0;
    }
  }

  lemma AllSoFar<T>(whole: Parsed<seq<T>>, items: seq<T>, rest: bytes)
    requires SoFar(whole, items, Success(([], rest)))
    ensures whole == Success((items, rest))
  {
    assert items + [] == items;
  }

  /** `&mut &[u8]`. */
  class Cursor {
    var rest: bytes

    constructor (b: bytes)
      ensures rest == b
    {
      rest := b;
    }

    /** `ensure` and `advance`. */
    method Take(n: nat) returns (r: Result<bytes>)
      modifies this
      ensures old(|rest|) >= n ==> r == Success(old(rest)[..n]) && rest == old(rest)[n..]
      ensures old(|rest|) < n ==> r == Failure(Protocol) && rest == old(rest)
    {
      if |rest| < n {
        return Failure(Protocol);
      }
      r := Success(rest[..n]);
      rest := rest[n..];
    }

    /** `get_u8`, `get_u16`, `get_u32`, `get_u64`: one byte at a time, most significant first. */
    method TakeUint(n: nat) returns (r: Result<nat>)
      modifies this
      ensures Agrees(r, rest, ReadUint(n, old(rest)))
    {
      var word :- Take(n);
      var value: nat, i := 0, 0;
      while i < n
        invariant 0 <= i <= n == |word| && value == FromBigEndian(word[..i])
      {
        assert word[..i + 1][..i] == word[..i];
        value := value * 256 + word[i];
        i := i + 1;
      }
      assert word[..n] == word;
      r := Success(value);
    }

    method TakeInt(n: nat) returns (r: Result<int>)
      modifies this
      ensures Agrees(r, rest, ReadInt(n, old(rest)))
    {
      var word :- TakeUint(n);
      r := Success(Signed(n, word));
    }

    method TakeU8() returns (r: Result<u8>)
      modifies this
      ensures Agrees(r, rest, ReadU8(old(rest)))
    {
      var b :- Take(1);
      r := Success(b[0]);
    }

    method TakeU32() returns (r: Result<u32>)
      modifies this
      ensures Agrees(r, rest, ReadU32(old(rest)))
    {
      Widths();
      var x :- TakeUint(4);
      r := Success(x);
    }

    method TakeU64() returns (r: Result<u64>)
      modifies this
      ensures Agrees(r, rest, ReadU64(old(rest)))
    {
      Widths();
      var x :- TakeUint(8);
      r := Success(x);
    }

    method TakeI32() returns (r: Result<i32>)
      modifies this
      ensures Agrees(r, rest, ReadI32(old(rest)))
    {
      Widths();
      var x :- TakeInt(4);
      r := Success(x);
    }

    method TakeI64() returns (r: Result<i64>)
      modifies this
      ensures Agrees(r, rest, ReadI64(old(rest)))
    {
      Widths();
      var x :- TakeInt(8);
      r := Success(x);
    }

    /** `read_string`: the length is checked against what is left before it is believed. */
    method TakeString() returns (r: Result<Text>)
      modifies this
      ensures Agrees(r, rest, ReadString(old(rest)))
    {
      var len :- TakeU32();
      var body :- Take(len);
      if !IsText(body) {
        return Failure(Protocol);
      }
      r := Success(body);
    }

    /** `read_value_by_tag`: an unknown tag fails before the buffer is touched. */
    method TakeValue(tag: u8) returns (r: Result<ValueData>)
      modifies this
      ensures Agrees(r, rest, ReadValueByTag(tag, old(rest)))
    {
      var width := ValueWidth(tag);
      if width.None? || |rest| < width.value {
        return Failure(Protocol);
      }
      // checked above, so no read below can fail
      Widths();
      if tag == BYTE || tag == SHORT || tag == INT || tag == LONG {
        var word := TakeInt(width.value);
        var x := word.value;
        r := Success(if tag == BYTE then Byte(x) else if tag == SHORT then Short(x) else if tag == INT then Int(x)
                     else Long(x));
      } else if tag == VOID {
        r := Success(Void);
      } else {
        var word := TakeUint(width.value);
        var x := word.value;
        r := Success(if tag == CHAR then Char(x) else if tag == DOUBLE then Double(x) else if tag == FLOAT then Float(x)
                     else if tag == BOOLEAN then Boolean(x != 0) else Object(x));
      }
    }

    method TakeTagged() returns (r: Result<Value>)
      modifies this
      ensures Agrees(r, rest, ReadTagged(old(rest)))
    {
      var tag :- TakeU8();
      var data :- TakeValue(tag);
      r := Success(Value(tag, data));
    }
  }

  // ----- events.rs -----

  method TakeLocation(c: Cursor) returns (r: Result<Location>)
    modifies c
    ensures Agrees(r, c.rest, ParseLocation(old(c.rest)))
  {
    var typeTag :- c.TakeU8();
    var classId :- c.TakeU64();
    var methodId :- c.TakeU64();
    var index :- c.TakeU64();
    r := Success(Location(typeTag, classId, methodId, index));
  }

  method TakeThreadAndLocation(c: Cursor) returns (r: Result<(u64, Location)>)
    modifies c
    ensures Agrees(r, c.rest, ParseThreadAndLocation(old(c.rest)))
  {
    var thread :- c.TakeU64();
    var location :- TakeLocation(c);
    r := Success((thread, location));
  }

  method TakeFieldHead(c: Cursor) returns (r: Result<FieldEvent>)
    modifies c
    ensures Agrees(r, c.rest, ParseFieldHead(old(c.rest)))
  {
    var thread :- c.TakeU64();
    var location :- TakeLocation(c);
    var refTypeTag :- c.TakeU8();
    var refType :- c.TakeU64();
    var fieldId :- c.TakeU64();
    var objectTag :- c.TakeU8();
    var instance :- c.TakeU64();
    r := Success(FieldEvent(thread, location, refType, fieldId, instance));
  }

  method TakeMonitorHead(c: Cursor) returns (r: Result<MonitorEvent>)
    modifies c
    ensures Agrees(r, c.rest, ParseMonitorHead(old(c.rest)))
  {
    var thread :- c.TakeU64();
    var monitorTag :- c.TakeU8();
    var monitor :- c.TakeU64();
    var location :- TakeLocation(c);
    r := Success(MonitorEvent(thread, location, monitor));
  }

  method TakeClassPrepare(c: Cursor) returns (r: Result<EventKind>)
    modifies c
    ensures Agrees(r, c.rest, ParseClassPrepare(old(c.rest)))
  {
    var thread :- c.TakeU64();
    var refTypeTag :- c.TakeU8();
    var refType :- c.TakeU64();
    var signature :- c.TakeString();
    var status :- c.TakeI32();
    r := Success(ClassPrepare(thread, refType, signature, status));
  }

  method TakeException(c: Cursor) returns (r: Result<EventKind>)
    modifies c
    ensures Agrees(r, c.rest, ParseException(old(c.rest)))
  {
    var head :- TakeThreadAndLocation(c);
    var exceptionTag :- c.TakeU8();
    var exception :- c.TakeU64();
    var catch :- TakeLocation(c);
    r := Success(Exception(head.0, head.1, exception, if AllZero(catch) then None else Some(catch)));
  }

  method TakeMonitor(c: Cursor, kind: u8) returns (r: Result<EventKind>)
    requires ParseMonitor(kind, []).Some?
    modifies c
    ensures Agrees(r, c.rest, ParseMonitor(kind, old(c.rest)).value)
  {
    var monitor :- TakeMonitorHead(c);
    if kind == MONITOR_CONTENDED_ENTER {
      r := Success(MonitorContendedEnter(monitor));
    } else if kind == MONITOR_CONTENDED_ENTERED {
      r := Success(MonitorContendedEntered(monitor));
    } else if kind == MONITOR_WAIT {
      var timeout :- c.TakeI64();
      r := Success(MonitorWait(monitor, timeout));
    } else {
      var flag :- c.TakeU8();
      r := Success(MonitorWaited(monitor, flag != 0));
    }
  }

  method TakeVmLifecycle(c: Cursor, kind: u8) returns (r: Result<EventKind>)
    requires ParseVmLifecycle(kind, []).Some?
    modifies c
    ensures Agrees(r, c.rest, ParseVmLifecycle(kind, old(c.rest)).value)
  {
    if kind == VM_DEATH {
      r := Success(VMDeath);
    } else if kind == CLASS_PREPARE {
      r := TakeClassPrepare(c);
    } else {
      var thread :- c.TakeU64();
      r := Success(if kind == VM_START then VMStart(thread)
                   else if kind == THREAD_START then ThreadStart(thread)
                   else ThreadDeath(thread));
    }
  }

  method TakeStopPoint(c: Cursor, kind: u8) returns (r: Result<EventKind>)
    modifies c
    ensures Agrees(r, c.rest, ParseStopPoint(kind, old(c.rest)))
  {
    if kind == BREAKPOINT || kind == SINGLE_STEP || kind == METHOD_EXIT {
      var head :- TakeThreadAndLocation(c);
      r := Success(if kind == BREAKPOINT then Breakpoint(head.0, head.1)
                   else if kind == SINGLE_STEP then Step(head.0, head.1)
                   else MethodExit(head.0, head.1, None));
    } else if kind == EXCEPTION {
      r := TakeException(c);
    } else if kind == FIELD_ACCESS {
      var field :- TakeFieldHead(c);
      r := Success(FieldAccess(field));
    } else if kind == FIELD_MODIFICATION {
      var field :- TakeFieldHead(c);
      var newValue :- c.TakeTagged();
      r := Success(FieldModification(field, newValue));
    } else if kind == METHOD_EXIT_WITH_RETURN_VALUE {
      var head :- TakeThreadAndLocation(c);
      var value :- c.TakeTagged();
      r := Success(MethodExit(head.0, head.1, Some(value)));
    } else {
      r := Success(Unknown(kind));
    }
  }

  method TakeEventDetails(c: Cursor, kind: u8) returns (r: Result<EventKind>)
    modifies c
    ensures Agrees(r, c.rest, ParseEventDetails(kind, old(c.rest)))
  {
    if kind == VM_START || kind == VM_DEATH || kind == THREAD_START || kind == THREAD_DEATH || kind == CLASS_PREPARE {
      r := TakeVmLifecycle(c, kind);
    } else if kind == MONITOR_CONTENDED_ENTER || kind == MONITOR_CONTENDED_ENTERED || kind == MONITOR_WAIT
              || kind == MONITOR_WAITED {
      r := TakeMonitor(c, kind);
    } else {
      r := TakeStopPoint(c, kind);
    }
  }

  method TakeEvent(c: Cursor) returns (r: Result<Event>)
    modifies c
    ensures Agrees(r, c.rest, ParseEvent(old(c.rest)))
  {
    var kind :- c.TakeU8();
    var requestId :- c.TakeI32();
    var details :- TakeEventDetails(c, kind);
    r := Success(Event(kind, requestId, details));
  }

  lemma OneMoreEvent(parsed: Parsed<seq<Event>>, events: seq<Event>, count: nat, b: bytes)
    requires count > 0 && SoFar(parsed, events, ParseEvents(count, b))
    ensures ParseEvent(b).Failure? ==> parsed == Failure(ParseEvent(b).error)
    ensures ParseEvent(b).Success? ==>
      SoFar(parsed, events + [ParseEvent(b).value.0], ParseEvents(count - 1, ParseEvent(b).value.1))
  {
    hide ParseEvent;
    if ParseEvent(b).Success? {
      var (event, b1) := ParseEvent(b).value;
      if ParseEvents(count - 1, b1).Success? {
        var es := ParseEvents(count - 1, b1).value.0;
        assert events + ([event] + es) == events + [event] + es;
      }
    }
  }

  /** `parse_event_packet`. */
  method TakeEventPacket(buf: bytes) returns (r: Result<EventSet>)
    ensures r == ParseEventPacket(buf)
  {
    hide ParseEvent;
    var c := new Cursor(buf);
    var suspendPolicy :- c.TakeU8();
    var count :- c.TakeI32();
    var events: seq<Event> := [];
    var i := 0;
    ghost var n := if count < 0 then 0 else count;
    ghost var parsed := ParseEvents(n, c.rest);
    NothingSoFar(parsed);
    while i < count
      invariant 0 <= i <= n
      invariant SoFar(parsed, events, ParseEvents(n - i, c.rest))
    {
      OneMoreEvent(parsed, events, n - i, c.rest);
      var event :- TakeEvent(c);
      events := events + [event];
      i := i + 1;
    }
    AllSoFar(parsed, events, c.rest);
    r := Success(EventSet(suspendPolicy, events));
  }

  // ----- tables -----

  method TakeHead(c: Cursor, generic: bool) returns (r: Result<Head>)
    modifies c
    ensures Agrees(r, c.rest, ReadHead(generic, old(c.rest)))
  {
    var number :- c.TakeU64();
    var name :- c.TakeString();
    var signature :- c.TakeString();
    var genericSignature := None;
    if generic {
      var g :- c.TakeString();
      genericSignature := SomeIfPresent(g);
    }
    r := Success(Head(number, name, signature, genericSignature));
  }

  method TakeRow(c: Cursor, layout: Layout) returns (r: Result<Row>)
    modifies c
    ensures Agrees(r, c.rest, ReadRow(layout, old(c.rest)))
  {
    match layout {
      case Members(generic) =>
        var head :- TakeHead(c, generic);
        var modBits :- c.TakeI32();
        r := Success(Member(head.number, head.name, head.signature, head.generic, modBits));
      case Variables(generic) =>
        var head :- TakeHead(c, generic);
        var length :- c.TakeU32();
        var slot :- c.TakeU32();
        r := Success(Variable(head.number, head.name, head.signature, head.generic, length, slot));
      case Lines =>
        var codeIndex :- c.TakeU64();
        var number :- c.TakeI32();
        r := Success(Line(codeIndex, number));
      case TypeIds =>
        var id :- c.TakeU64();
        r := Success(TypeId(id));
      case Elements(regionTag) =>
        if IsReference(regionTag) {
          var value :- c.TakeTagged();
          r := Success(Element(value));
        } else {
          var data :- c.TakeValue(regionTag);
          r := Success(Element(Value(regionTag, data)));
        }
    }
  }

  lemma OneMoreRow(parsed: Parsed<seq<Row>>, rows: seq<Row>, layout: Layout, count: nat, b: bytes)
    requires count > 0 && SoFar(parsed, rows, ReadRows(layout, count, b))
    ensures ReadRow(layout, b).Failure? ==> parsed == Failure(ReadRow(layout, b).error)
    ensures ReadRow(layout, b).Success? ==>
      SoFar(parsed, rows + [ReadRow(layout, b).value.0], ReadRows(layout, count - 1, ReadRow(layout, b).value.1))
  {
    hide ReadRow;
    if ReadRow(layout, b).Success? {
      var (row, b1) := ReadRow(layout, b).value;
      if ReadRows(layout, count - 1, b1).Success? {
        var more := ReadRows(layout, count - 1, b1).value.0;
        assert rows + ([row] + more) == rows + [row] + more;
      }
    }
  }

  /** The counted loop every table reader has. */
  method TakeTable(c: Cursor, layout: Layout) returns (r: Result<seq<Row>>)
    modifies c
    ensures Agrees(r, c.rest, ReadTable(layout, old(c.rest)))
  {
    hide ReadRow;
    var count :- c.TakeI32();
    var rows: seq<Row> := [];
    var i := 0;
    ghost var n := if count < 0 then 0 else count;
    ghost var parsed := ReadRows(layout, n, c.rest);
    NothingSoFar(parsed);
    while i < count
      invariant 0 <= i <= n
      invariant SoFar(parsed, rows, ReadRows(layout, n - i, c.rest))
    {
      OneMoreRow(parsed, rows, layout, n - i, c.rest);
      var row :- TakeRow(c, layout);
      rows := rows + [row];
      i := i + 1;
    }
    AllSoFar(parsed, rows, c.rest);
    r := Success(rows);
  }

  /** `decode_line_table`. */
  method TakeLineTable(c: Cursor) returns (r: Result<LineTable>)
    modifies c
    ensures Agrees(r, c.rest, ReadLineTable(old(c.rest)))
  {
    var start :- c.TakeU64();
    var end :- c.TakeU64();
    var lines :- TakeTable(c, Lines);
    r := Success(LineTable(start, end, lines));
  }

  /** `decode_variable_table`. */
  method TakeVariableTable(c: Cursor, generic: bool) returns (r: Result<seq<Row>>)
    modifies c
    ensures Agrees(r, c.rest, ReadVariableTable(generic, old(c.rest)))
  {
    var argCount :- c.TakeI32();
    r := TakeTable(c, Variables(generic));
  }

  method TakeArrayRegion(c: Cursor) returns (r: Result<seq<Row>>)
    modifies c
    ensures Agrees(r, c.rest, ReadArrayRegion(old(c.rest)))
  {
    var regionTag :- c.TakeU8();
    r := TakeTable(c, Elements(regionTag));
  }

  method TakeInvokeReply(c: Cursor) returns (r: Result<(Value, u64)>)
    modifies c
    ensures Agrees(r, c.rest, ReadInvokeReply(old(c.rest)))
  {
    var value :- c.TakeTagged();
    var exceptionTag :- c.TakeU8();
    var exception :- c.TakeU64();
    r := Success((value, exception));
  }
}
