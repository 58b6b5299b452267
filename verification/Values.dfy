/** Tagged values (`reader.rs`, `eval.rs`): the JDWP "value" and "tagged-objectID" types.

    Encoders here and below put a thing in front of the bytes that follow it, so that parsing what was
    put gives the thing back together with exactly those bytes. */
module Values {
  import opened Wrappers
  import opened Bytes

  const BYTE: u8 := 66
  const CHAR: u8 := 67
  const DOUBLE: u8 := 68
  const FLOAT: u8 := 70
  const INT: u8 := 73
  const LONG: u8 := 74
  const OBJECT: u8 := 76
  const SHORT: u8 := 83
  const VOID: u8 := 86
  const BOOLEAN: u8 := 90
  const ARRAY: u8 := 91
  const CLASS_OBJECT: u8 := 99
  const THREAD_GROUP: u8 := 103
  const CLASS_LOADER: u8 := 108
  const STRING: u8 := 115
  const THREAD: u8 := 116

  type i8 = x: int | -0x80 <= x < 0x80
  type i16 = x: int | -0x8000 <= x < 0x8000
  type i64 = x: int | -0x8000_0000_0000_0000 <= x < 0x8000_0000_0000_0000

  /** `float` and `double` are kept as their bit patterns. */
  datatype ValueData =
    | Byte(b: i8) | Char(c: u16) | Float(bits32: u32) | Double(bits64: u64) | Int(i: i32)
    | Long(l: i64) | Short(s: i16) | Boolean(z: bool) | Object(id: u64) | Void
  datatype Value = Value(tag: u8, data: ValueData)

  predicate IsReference(tag: u8) {
    tag == OBJECT || tag == STRING || tag == THREAD || tag == THREAD_GROUP || tag == CLASS_LOADER
    || tag == CLASS_OBJECT || tag == ARRAY
  }

  function ValueWidth(tag: u8): Option<nat> {
    if tag == VOID then Some(0)
    else if tag == BYTE || tag == BOOLEAN then Some(1)
    else if tag == CHAR || tag == SHORT then Some(2)
    else if tag == FLOAT || tag == INT then Some(4)
    else if tag == DOUBLE || tag == LONG || IsReference(tag) then Some(8)
    else None
  }

  /** The data a tag announces, as the JDWP tag table has it. */
  predicate WellTyped(tag: u8, data: ValueData) {
    match data
    case Byte(_) => tag == BYTE
    case Char(_) => tag == CHAR
    case Float(_) => tag == FLOAT
    case Double(_) => tag == DOUBLE
    case Int(_) => tag == INT
    case Long(_) => tag == LONG
    case Short(_) => tag == SHORT
    case Boolean(_) => tag == BOOLEAN
    case Object(_) => IsReference(tag)
    case Void => tag == VOID
  }

  function ReadI64(b: bytes): (r: Parsed<i64>)
    ensures r.Success? <==> |b| >= 8
  {
    Widths(); ReadInt(8, b)
  }

  function I64(x: i64): bytes {
    Widths(); BigEndian(8, Unsigned(8, x))
  }

  function ReadValueByTag(tag: u8, b: bytes): (r: Parsed<ValueData>)
    ensures r.Success? <==> ValueWidth(tag).Some? && |b| >= ValueWidth(tag).value
    ensures r.Success? ==> WellTyped(tag, r.value.0) && r.value.1 == b[ValueWidth(tag).value..]
  {
    Widths();
    match ValueWidth(tag)
    case None => Failure(Protocol)
    case Some(width) =>
      if |b| < width then Failure(Protocol)
      // checked above, so no read below can fail
      else if tag == BYTE then Success((Byte(ReadInt(1, b).value.0), b[width..]))
      else if tag == CHAR then Success((Char(ReadUint(2, b).value.0), b[width..]))
      else if tag == DOUBLE then Success((Double(ReadU64(b).value.0), b[width..]))
      else if tag == FLOAT then Success((Float(ReadU32(b).value.0), b[width..]))
      else if tag == INT then Success((Int(ReadI32(b).value.0), b[width..]))
      else if tag == LONG then Success((Long(ReadI64(b).value.0), b[width..]))
      else if tag == SHORT then Success((Short(ReadInt(2, b).value.0), b[width..]))
      else if tag == BOOLEAN then Success((Boolean(b[0] != 0), b[width..]))
      else if tag == VOID then Success((Void, b))
      else Success((Object(ReadU64(b).value.0), b[width..]))
  }

  /** The tags of the protocol, by number, and what each announces. */
  lemma TagDecides(tag: u8, b: bytes)
    ensures ReadValueByTag(tag, b).Success? ==>
      var d := ReadValueByTag(tag, b).value.0;
      && (d.Byte? <==> tag == 66) && (d.Char? <==> tag == 67) && (d.Double? <==> tag == 68)
      && (d.Float? <==> tag == 70) && (d.Int? <==> tag == 73) && (d.Long? <==> tag == 74)
      && (d.Short? <==> tag == 83) && (d.Void? <==> tag == 86) && (d.Boolean? <==> tag == 90)
      && (d.Object? <==> tag in {76, 91, 99, 103, 108, 115, 116})
    ensures tag == 90 && b != [] ==> ReadValueByTag(tag, b) == Success((Boolean(b[0] != 0), b[1..]))
    ensures |b| >= 8 ==> (ReadValueByTag(tag, b).Success? <==>
      tag in {66, 67, 68, 70, 73, 74, 76, 83, 86, 90, 91, 99, 103, 108, 115, 116})
    ensures IsReference(tag) <==> tag in {76, 91, 99, 103, 108, 115, 116}
  {
  }

  /** `write_untagged_value`. */
  function WriteUntagged(data: ValueData): bytes {
    Widths();
    match data
    case Byte(x) => BigEndian(1, Unsigned(1, x))
    case Char(x) => U16(x)
    case Float(x) => U32(x)
    case Double(x) => U64(x)
    case Int(x) => I32(x)
    case Long(x) => I64(x)
    case Short(x) => BigEndian(2, Unsigned(2, x))
    case Boolean(x) => U8(if x then 1 else 0)
    case Object(x) => U64(x)
    case Void => []
  }

  /** Write, then read by tag: the value comes back, at exactly its width. */
  lemma ValueWritten(tag: u8, data: ValueData, rest: bytes)
    requires WellTyped(tag, data)
    ensures ReadValueByTag(tag, WriteUntagged(data) + rest) == Success((data, rest))
    ensures ValueWidth(tag) == Some(|WriteUntagged(data)|)
  {
    Widths();
    match data {
      case Byte(x) => ReadWrittenInt(1, x, rest);
      case Char(x) => ReadWritten(2, x, rest);
      case Float(x) => ReadU32Written(x, rest);
      case Double(x) => ReadU64Written(x, rest);
      case Int(x) => ReadI32Written(x, rest);
      case Long(x) => ReadWrittenInt(8, x, rest);
      case Short(x) => ReadWrittenInt(2, x, rest);
      case Boolean(x) => ReadU8Written(if x then 1 else 0, rest);
      case Object(x) => ReadU64Written(x, rest);
      case Void => assert WriteUntagged(data) + rest == rest;
    }
  }

  lemma ValueExtends(tag: u8, b: bytes, more: bytes)
    ensures Extends(ReadValueByTag(tag, b), ReadValueByTag(tag, b + more), more)
  {
    FieldsExtend(b, more);
    UintExtends(1, b, more);
    UintExtends(2, b, more);
    UintExtends(8, b, more);
  }

  function ReadTagged(b: bytes): Parsed<Value> {
    var (tag, b1) :- ReadU8(b);
    var (data, b2) :- ReadValueByTag(tag, b1);
    Success((Value(tag, data), b2))
  }

  function PutTagged(v: Value, rest: bytes): bytes {
    U8(v.tag) + (WriteUntagged(v.data) + rest)
  }

  lemma TaggedWritten(v: Value, rest: bytes)
    requires WellTyped(v.tag, v.data)
    ensures ReadTagged(PutTagged(v, rest)) == Success((v, rest))
  {
    ReadU8Written(v.tag, WriteUntagged(v.data) + rest);
    ValueWritten(v.tag, v.data, rest);
  }

  lemma TaggedExtends(b: bytes, more: bytes)
    ensures Extends(ReadTagged(b), ReadTagged(b + more), more)
  {
    FieldsExtend(b, more);
    if |b| >= 1 {
      ValueExtends(b[0], b[1..], more);
    }
  }
}
