/** Counted tables in replies: methods and fields (`reftype.rs`), variables and lines (`method.rs`),
    interfaces (`reftype.rs`) and array regions (`extra.rs`), with their encoders. */
module Tables {
  import opened Wrappers
  import opened Bytes
  import opened Values

  /** The layout is fixed by the command that was sent: the generic commands add one string per row. */
  datatype Layout = Members(generic: bool) | Variables(generic: bool) | Lines | TypeIds | Elements(regionTag: u8)

  datatype Row =
    | Member(id: u64, name: Text, signature: Text, genericSignature: Option<Text>, modBits: i32)
    | Variable(codeIndex: u64, name: Text, signature: Text, genericSignature: Option<Text>, length: u32, slot: u32)
    | Line(lineCodeIndex: u64, lineNumber: i32)
    | TypeId(typeId: u64)
    | Element(value: Value)

  /** `some_if_present`: an empty generic signature means there is none. */
  function SomeIfPresent(t: Text): Option<Text> {
    if t == [] then None else Some(t)
  }

  function ReadGeneric(generic: bool, b: bytes): Parsed<Option<Text>> {
    if !generic then Success((None, b))
    else
      var (t, rest) :- ReadString(b);
      Success((SomeIfPresent(t), rest))
  }

  /** Id or code index, name, signature and, in the generic layouts, the generic signature. */
  datatype Head = Head(number: u64, name: Text, signature: Text, generic: Option<Text>)

  function ReadHead(generic: bool, b: bytes): Parsed<Head> {
    var (number, b1) :- ReadU64(b);
    var (name, b2) :- ReadString(b1);
    var (signature, b3) :- ReadString(b2);
    var (generics, b4) :- ReadGeneric(generic, b3);
    Success((Head(number, name, signature, generics), b4))
  }

  /** Object elements carry their own tag; primitive elements share the region's. */
  function ReadElement(regionTag: u8, b: bytes): Parsed<Value> {
    if IsReference(regionTag) then ReadTagged(b)
    else
      var (data, rest) :- ReadValueByTag(regionTag, b);
      Success((Value(regionTag, data), rest))
  }

  function ReadRow(layout: Layout, b: bytes): Parsed<Row> {
    match layout
    case Members(generic) =>
      var (head, b1) :- ReadHead(generic, b);
      var (modBits, b2) :- ReadI32(b1);
      Success((Member(head.number, head.name, head.signature, head.generic, modBits), b2))
    case Variables(generic) =>
      var (head, b1) :- ReadHead(generic, b);
      var (length, b2) :- ReadU32(b1);
      var (slot, b3) :- ReadU32(b2);
      Success((Variable(head.number, head.name, head.signature, head.generic, length, slot), b3))
    case Lines =>
      var (codeIndex, b1) :- ReadU64(b);
      var (number, b2) :- ReadI32(b1);
      Success((Line(codeIndex, number), b2))
    case TypeIds =>
      var (id, b1) :- ReadU64(b);
      Success((TypeId(id), b1))
    case Elements(regionTag) =>
      var (value, b1) :- ReadElement(regionTag, b);
      Success((Element(value), b1))
  }

  function ReadRows(layout: Layout, count: nat, b: bytes): Parsed<seq<Row>> {
    if count == 0 then Success(([], b))
    else
      var (row, b1) :- ReadRow(layout, b);
      var (rows, b2) :- ReadRows(layout, count - 1, b1);
      Success(([row] + rows, b2))
  }

  /** A negative count means no rows. */
  function ReadTable(layout: Layout, b: bytes): Parsed<seq<Row>> {
    var (count, b1) :- ReadI32(b);
    ReadRows(layout, if count < 0 then 0 else count, b1)
  }

  /** A count below zero announces no rows. */
  lemma NegativeCountIsEmpty(layout: Layout, count: i32, rest: bytes)
    requires count < 0
    ensures ReadTable(layout, I32(count) + rest) == Success(([], rest))
  {
    ReadI32Written(count, rest);
  }

  // ----- the JVM's half -----

  function PutGeneric(generic: bool, t: Option<Text>, rest: bytes): bytes {
    if !generic then rest else Str(if t.Some? then t.value else []) + rest
  }

  function PutHead(generic: bool, h: Head, rest: bytes): bytes {
    U64(h.number) + (Str(h.name) + (Str(h.signature) + PutGeneric(generic, h.generic, rest)))
  }

  function PutRow(layout: Layout, row: Row, rest: bytes): bytes
    requires Belongs(layout, row)
  {
    match row
    case Member(id, name, signature, g, modBits) =>
      PutHead(layout.generic, Head(id, name, signature, g), I32(modBits) + rest)
    case Variable(codeIndex, name, signature, g, length, slot) =>
      PutHead(layout.generic, Head(codeIndex, name, signature, g), U32(length) + (U32(slot) + rest))
    case Line(codeIndex, number) => U64(codeIndex) + (I32(number) + rest)
    case TypeId(id) => U64(id) + rest
    case Element(value) =>
      if IsReference(layout.regionTag) then PutTagged(value, rest) else WriteUntagged(value.data) + rest
  }

  /** The rows a JVM can put in this layout. A generic signature is never present and empty, and has no
      place in the plain layouts; a primitive element has the region's type. */
  ghost predicate Belongs(layout: Layout, row: Row) {
    match layout
    case Members(generic) => row.Member? && Generics(generic, row.genericSignature)
    case Variables(generic) => row.Variable? && Generics(generic, row.genericSignature)
    case Lines => row.Line?
    case TypeIds => row.TypeId?
    case Elements(regionTag) =>
      && row.Element? && WellTyped(row.value.tag, row.value.data)
      && (!IsReference(regionTag) ==> row.value.tag == regionTag)
  }

  predicate Generics(generic: bool, t: Option<Text>) {
    t.Some? ==> generic && t.value != []
  }

  ghost predicate AllBelong(layout: Layout, rows: seq<Row>) {
    forall i :: 0 <= i < |rows| ==> Belongs(layout, rows[i])
  }

  function PutRows(layout: Layout, rows: seq<Row>, rest: bytes): bytes
    requires AllBelong(layout, rows)
  {
    if rows == [] then rest else PutRow(layout, rows[0], PutRows(layout, rows[1..], rest))
  }

  function PutTable(layout: Layout, rows: seq<Row>, rest: bytes): bytes
    requires AllBelong(layout, rows) && |rows| < 0x8000_0000
  {
    I32(|rows|) + PutRows(layout, rows, rest)
  }

  // ----- round trips -----

  lemma GenericWritten(generic: bool, t: Option<Text>, rest: bytes)
    requires Generics(generic, t)
    ensures ReadGeneric(generic, PutGeneric(generic, t, rest)) == Success((t, rest))
  {
    if generic {
      ReadStringWritten(if t.Some? then t.value else [], rest);
    }
  }

  lemma HeadWritten(generic: bool, h: Head, rest: bytes)
    requires Generics(generic, h.generic)
    ensures ReadHead(generic, PutHead(generic, h, rest)) == Success((h, rest))
  {
    var b3 := PutGeneric(generic, h.generic, rest);
    GenericWritten(generic, h.generic, rest);
    ReadStringWritten(h.signature, b3);
    ReadStringWritten(h.name, Str(h.signature) + b3);
    ReadU64Written(h.number, Str(h.name) + (Str(h.signature) + b3));
  }

  lemma RowWritten(layout: Layout, row: Row, rest: bytes)
    requires Belongs(layout, row)
    ensures ReadRow(layout, PutRow(layout, row, rest)) == Success((row, rest))
  {
    match row {
      case Member(id, name, signature, g, modBits) =>
        ReadI32Written(modBits, rest);
        HeadWritten(layout.generic, Head(id, name, signature, g), I32(modBits) + rest);
      case Variable(codeIndex, name, signature, g, length, slot) =>
        ReadU32Written(slot, rest);
        ReadU32Written(length, U32(slot) + rest);
        HeadWritten(layout.generic, Head(codeIndex, name, signature, g), U32(length) + (U32(slot) + rest));
      case Line(codeIndex, number) =>
        ReadI32Written(number, rest);
        ReadU64Written(codeIndex, I32(number) + rest);
      case TypeId(id) => ReadU64Written(id, rest);
      case Element(value) =>
        if IsReference(layout.regionTag) {
          TaggedWritten(value, rest);
        } else {
          ValueWritten(value.tag, value.data, rest);
        }
    }
  }

  lemma {:induction false} RowsWritten(layout: Layout, rows: seq<Row>, rest: bytes)
    requires AllBelong(layout, rows)
    ensures ReadRows(layout, |rows|, PutRows(layout, rows, rest)) == Success((rows, rest))
  {
    hide ReadRow, PutRow, Belongs;
    if rows != [] {
      RowsWritten(layout, rows[1..], rest);
      RowWritten(layout, rows[0], PutRows(layout, rows[1..], rest));
      assert rows == [rows[0]] + rows[1..];
    }
  }

  /** Every layout round-trips, and the table takes exactly its own bytes. */
  lemma {:induction false} TableRoundTrip(layout: Layout, rows: seq<Row>, rest: bytes)
    requires AllBelong(layout, rows) && |rows| < 0x8000_0000
    ensures ReadTable(layout, PutTable(layout, rows, rest)) == Success((rows, rest))
  {
    ReadI32Written(|rows|, PutRows(layout, rows, rest));
    RowsWritten(layout, rows, rest);
  }

  // ----- prefixes -----

  lemma GenericExtends(generic: bool, b: bytes, more: bytes)
    ensures Extends(ReadGeneric(generic, b), ReadGeneric(generic, b + more), more)
  {
    StringExtends(b, more);
  }

  lemma HeadExtends(generic: bool, b: bytes, more: bytes)
    ensures Extends(ReadHead(generic, b), ReadHead(generic, b + more), more)
  {
    FieldsExtend(b, more);
    if ReadHead(generic, b).Success? {
      var b1 := ReadU64(b).value.1;
      StringExtends(b1, more);
      var b2 := ReadString(b1).value.1;
      StringExtends(b2, more);
      GenericExtends(generic, ReadString(b2).value.1, more);
    }
  }

  lemma MemberExtends(generic: bool, b: bytes, more: bytes)
    ensures Extends(ReadRow(Members(generic), b), ReadRow(Members(generic), b + more), more)
  {
    HeadExtends(generic, b, more);
    if ReadHead(generic, b).Success? {
      FieldsExtend(ReadHead(generic, b).value.1, more);
    }
  }

  lemma VariableExtends(generic: bool, b: bytes, more: bytes)
    ensures Extends(ReadRow(Variables(generic), b), ReadRow(Variables(generic), b + more), more)
  {
    HeadExtends(generic, b, more);
    if ReadHead(generic, b).Success? {
      var b1 := ReadHead(generic, b).value.1;
      FieldsExtend(b1, more);
      if ReadU32(b1).Success? {
        FieldsExtend(ReadU32(b1).value.1, more);
      }
    }
  }

  lemma RowExtends(layout: Layout, b: bytes, more: bytes)
    ensures Extends(ReadRow(layout, b), ReadRow(layout, b + more), more)
  {
    match layout {
      case Members(generic) => MemberExtends(generic, b, more);
      case Variables(generic) => VariableExtends(generic, b, more);
      case Lines =>
        FieldsExtend(b, more);
        if ReadU64(b).Success? {
          FieldsExtend(ReadU64(b).value.1, more);
        }
      case TypeIds => FieldsExtend(b, more);
      case Elements(regionTag) =>
        TaggedExtends(b, more);
        ValueExtends(regionTag, b, more);
    }
  }

  lemma {:induction false} RowsExtend(layout: Layout, count: nat, b: bytes, more: bytes)
    ensures Extends(ReadRows(layout, count, b), ReadRows(layout, count, b + more), more)
  {
    hide ReadRow;
    if count > 0 && ReadRow(layout, b).Success? {
      RowExtends(layout, b, more);
      RowsExtend(layout, count - 1, ReadRow(layout, b).value.1, more);
    }
  }

  /** A table cut short anywhere is an error in every layout. */
  lemma {:induction false} TruncatedTableFails(layout: Layout, rows: seq<Row>, prefix: bytes, missing: bytes)
    requires AllBelong(layout, rows) && |rows| < 0x8000_0000
    requires prefix + missing == PutTable(layout, rows, []) && missing != []
    ensures ReadTable(layout, prefix).Failure?
  {
    TableRoundTrip(layout, rows, []);
    FieldsExtend(prefix, missing);
    if ReadI32(prefix).Success? {
      var (count, b1) := ReadI32(prefix).value;
      RowsExtend(layout, if count < 0 then 0 else count, b1, missing);
      assert forall left: bytes :: |left + missing| > 0;
    }
  }

  // ----- whole replies -----

  datatype LineTable = LineTable(start: u64, end: u64, lines: seq<Row>)

  function ReadLineTable(b: bytes): Parsed<LineTable> {
    var (start, b1) :- ReadU64(b);
    var (end, b2) :- ReadU64(b1);
    var (lines, b3) :- ReadTable(Lines, b2);
    Success((LineTable(start, end, lines), b3))
  }

  lemma LineTableRoundTrip(t: LineTable, rest: bytes)
    requires AllBelong(Lines, t.lines) && |t.lines| < 0x8000_0000
    ensures ReadLineTable(U64(t.start) + (U64(t.end) + PutTable(Lines, t.lines, rest))) == Success((t, rest))
  {
    var table := PutTable(Lines, t.lines, rest);
    TableRoundTrip(Lines, t.lines, rest);
    ReadU64Written(t.end, table);
    ReadU64Written(t.start, U64(t.end) + table);
  }

  /** The argument count comes first and is dropped. */
  function ReadVariableTable(generic: bool, b: bytes): Parsed<seq<Row>> {
    var (argCount, b1) :- ReadI32(b);
    ReadTable(Variables(generic), b1)
  }

  lemma VariableTableRoundTrip(generic: bool, argCount: i32, rows: seq<Row>, rest: bytes)
    requires AllBelong(Variables(generic), rows) && |rows| < 0x8000_0000
    ensures ReadVariableTable(generic, I32(argCount) + PutTable(Variables(generic), rows, rest))
            == Success((rows, rest))
  {
    TableRoundTrip(Variables(generic), rows, rest);
    ReadI32Written(argCount, PutTable(Variables(generic), rows, rest));
  }

  function ReadArrayRegion(b: bytes): Parsed<seq<Row>> {
    var (regionTag, b1) :- ReadU8(b);
    ReadTable(Elements(regionTag), b1)
  }

  lemma ArrayRegionRoundTrip(regionTag: u8, rows: seq<Row>, rest: bytes)
    requires AllBelong(Elements(regionTag), rows) && |rows| < 0x8000_0000
    ensures ReadArrayRegion(U8(regionTag) + PutTable(Elements(regionTag), rows, rest)) == Success((rows, rest))
  {
    TableRoundTrip(Elements(regionTag), rows, rest);
    ReadU8Written(regionTag, PutTable(Elements(regionTag), rows, rest));
  }

  /** `read_invoke_reply`: the returned value, and the exception whose tag is dropped. */
  function ReadInvokeReply(b: bytes): Parsed<(Value, u64)> {
    var (value, b1) :- ReadTagged(b);
    var (tag, b2) :- ReadU8(b1);
    var (exception, b3) :- ReadU64(b2);
    Success(((value, exception), b3))
  }

  lemma InvokeReplyRoundTrip(value: Value, tag: u8, exception: u64, rest: bytes)
    requires WellTyped(value.tag, value.data)
    ensures ReadInvokeReply(PutTagged(value, U8(tag) + (U64(exception) + rest))) == Success(((value, exception), rest))
  {
    ReadU64Written(exception, rest);
    ReadU8Written(tag, U64(exception) + rest);
    TaggedWritten(value, U8(tag) + (U64(exception) + rest));
  }
}
