/** Big-endian integers, two's complement and JDWP strings over byte sequences (`reader.rs`, `bytes::Buf`).

    A parser is a function from the unread bytes to a value and the bytes still unread. The encoders are
    the half the source leaves to the peer; the two are inverse to each other. */
module Bytes {
  import opened Wrappers

  type byte = x: int | 0 <= x < 256
  type bytes = seq<byte>
  type u8 = byte
  type u16 = x: int | 0 <= x < 0x1_0000
  type u32 = x: int | 0 <= x < 0x1_0000_0000
  type u64 = x: int | 0 <= x < 0x1_0000_0000_0000_0000
  type i32 = x: int | -0x8000_0000 <= x < 0x8000_0000
  type Parsed<+T> = Result<(T, bytes)>

  function Pow256(n: nat): (p: int)
    ensures p > 0
  {
    if n == 0 then 1 else 256 * Pow256(n - 1)
  }

  lemma Widths()
    ensures Pow256(1) == 0x100 && Pow256(2) == 0x1_0000 && Pow256(4) == 0x1_0000_0000
    ensures Pow256(8) == 0x1_0000_0000_0000_0000
  {
    assert Pow256(3) == 0x100_0000;
    assert Pow256(5) == 0x100_0000_0000;
    assert Pow256(6) == 0x1_0000_0000_0000;
    assert Pow256(7) == 0x100_0000_0000_0000;
  }

  /** `x` as `n` bytes, most significant first. */
  function BigEndian(n: nat, x: nat): (b: bytes)
    requires x < Pow256(n)
    ensures |b| == n
  {
    if n == 0 then [] else BigEndian(n - 1, x / 256) + [x % 256]
  }

  function FromBigEndian(b: bytes): (x: nat)
    ensures x < Pow256(|b|)
  {
    if b == [] then 0 else FromBigEndian(b[..|b| - 1]) * 256 + b[|b| - 1]
  }

  lemma {:induction false} BigEndianRoundTrip(n: nat, x: nat)
    requires x < Pow256(n)
    ensures FromBigEndian(BigEndian(n, x)) == x
  {
    if n > 0 {
      BigEndianRoundTrip(n - 1, x / 256);
      assert BigEndian(n, x)[..n - 1] == BigEndian(n - 1, x / 256);
    }
  }

  lemma {:induction false} FromBigEndianRoundTrip(b: bytes)
    ensures BigEndian(|b|, FromBigEndian(b)) == b
  {
    if b != [] {
      FromBigEndianRoundTrip(b[..|b| - 1]);
      assert b == b[..|b| - 1] + [b[|b| - 1]];
    }
  }

  /** The signed reading of an `n`-byte word. */
  function Signed(n: nat, word: nat): (x: int)
    requires word < Pow256(n)
    ensures -Pow256(n) <= 2 * x < Pow256(n)
  {
    if 2 * word < Pow256(n) then word else word - Pow256(n)
  }

  function Unsigned(n: nat, x: int): (word: nat)
    requires n > 0 && -Pow256(n) <= 2 * x < Pow256(n)
    ensures word < Pow256(n) && Signed(n, word) == x
  {
    if x >= 0 then x else x + Pow256(n)
  }

  lemma Shifted(x: int, p: int, y: int)
    ensures (x * p + y) * 256 == x * (256 * p) + y * 256
  {
  }

  /** Network byte order: the first byte counts most. */
  lemma {:induction false} FirstByteCountsMost(b: bytes)
    requires b != []
    ensures FromBigEndian(b) == b[0] * Pow256(|b| - 1) + FromBigEndian(b[1..])
  {
    if |b| == 1 {
      assert Pow256(0) == 1 && b[..0] == [] == b[1..];
    } else {
      var front, last := b[..|b| - 1], b[|b| - 1];
      FirstByteCountsMost(front);
      var tail := b[1..];
      assert tail[..|tail| - 1] == front[1..] && tail[|tail| - 1] == last;
      Shifted(b[0], Pow256(|front| - 1), FromBigEndian(front[1..]));
    }
  }

  // ----- fixed-width fields -----

  function ReadUint(n: nat, b: bytes): (r: Parsed<nat>)
    ensures r.Success? <==> |b| >= n
    ensures r.Success? ==> r.value.0 < Pow256(n) && r.value.1 == b[n..]
  {
    if |b| < n then Failure(Protocol) else Success((FromBigEndian(b[..n]), b[n..]))
  }

  function ReadInt(n: nat, b: bytes): (r: Parsed<int>)
    ensures r.Success? <==> |b| >= n
    ensures r.Success? ==> -Pow256(n) <= 2 * r.value.0 < Pow256(n) && r.value.1 == b[n..]
  {
    var (word, rest) :- ReadUint(n, b);
    Success((Signed(n, word), rest))
  }

  /** Two's complement: the top bit counts negative. */
  lemma {:induction false} TopBitCountsNegative(n: nat, b: bytes)
    requires 0 < n <= |b|
    ensures ReadInt(n, b).value.0 == FromBigEndian(b[..n]) - (if b[0] >= 0x80 then Pow256(n) else 0)
  {
    FirstByteCountsMost(b[..n]);
    assert b[..n][1..] == b[1..n];
    TopByte(b[0], Pow256(n - 1), FromBigEndian(b[1..n]));
  }

  lemma TopByte(x: byte, p: int, y: nat)
    requires y < p
    ensures 2 * (x * p + y) < 256 * p <==> x < 0x80
  {
    if x < 0x80 {
      assert x * p <= 127 * p;
    } else {
      assert x * p >= 128 * p;
    }
  }

  function U8(x: u8): bytes { [x] }

  function U16(x: u16): (b: bytes)
    ensures |b| == 2
  {
    Widths(); BigEndian(2, x)
  }

  function U32(x: u32): (b: bytes)
    ensures |b| == 4
  {
    Widths(); BigEndian(4, x)
  }

  function U64(x: u64): (b: bytes)
    ensures |b| == 8
  {
    Widths(); BigEndian(8, x)
  }

  function I32(x: i32): (b: bytes)
    ensures |b| == 4
  {
    Widths(); BigEndian(4, Unsigned(4, x))
  }

  function ReadU8(b: bytes): (r: Parsed<u8>)
    ensures r.Success? ==> b == U8(r.value.0) + r.value.1
    ensures r.Success? <==> |b| >= 1
  {
    if |b| < 1 then Failure(Protocol) else Success((b[0], b[1..]))
  }

  function ReadU32(b: bytes): (r: Parsed<u32>)
    ensures r.Success? <==> |b| >= 4
  {
    Widths(); ReadUint(4, b)
  }

  function ReadU64(b: bytes): (r: Parsed<u64>)
    ensures r.Success? <==> |b| >= 8
  {
    Widths(); ReadUint(8, b)
  }

  function ReadI32(b: bytes): (r: Parsed<i32>)
    ensures r.Success? <==> |b| >= 4
  {
    Widths(); ReadInt(4, b)
  }

  /** What is written at width `n` is read back, and nothing after it is touched. */
  lemma ReadWritten(n: nat, x: nat, rest: bytes)
    requires x < Pow256(n)
    ensures ReadUint(n, BigEndian(n, x) + rest) == Success((x, rest))
  {
    BigEndianRoundTrip(n, x);
    assert (BigEndian(n, x) + rest)[..n] == BigEndian(n, x);
    assert (BigEndian(n, x) + rest)[n..] == rest;
  }

  lemma ReadWrittenInt(n: nat, x: int, rest: bytes)
    requires n > 0 && -Pow256(n) <= 2 * x < Pow256(n)
    ensures ReadInt(n, BigEndian(n, Unsigned(n, x)) + rest) == Success((x, rest))
  {
    ReadWritten(n, Unsigned(n, x), rest);
  }

  lemma ReadU8Written(x: u8, rest: bytes)
    ensures ReadU8(U8(x) + rest) == Success((x, rest))
  {
    assert (U8(x) + rest)[1..] == rest;
  }

  lemma ReadU32Written(x: u32, rest: bytes)
    ensures ReadU32(U32(x) + rest) == Success((x, rest))
  {
    Widths(); ReadWritten(4, x, rest);
  }

  lemma ReadU64Written(x: u64, rest: bytes)
    ensures ReadU64(U64(x) + rest) == Success((x, rest))
  {
    Widths(); ReadWritten(8, x, rest);
  }

  lemma ReadI32Written(x: i32, rest: bytes)
    ensures ReadI32(I32(x) + rest) == Success((x, rest))
  {
    Widths(); ReadWrittenInt(4, x, rest);
  }

  // ----- strings: a u32 length, then that many bytes of UTF-8 -----

  /** Bytes of the well-formed UTF-8 character `b` starts with, or 0 (Table 3-7 of the Unicode Standard). */
  function CharWidth(b: bytes): (n: nat)
    ensures n <= |b| && n <= 4
  {
    if b == [] then 0
    else if b[0] < 0x80 then 1
    else if 0xC2 <= b[0] < 0xE0 then if |b| >= 2 && Continues(b[1]) then 2 else 0
    else if 0xE0 <= b[0] < 0xF0 then
      if |b| >= 3 && Continues(b[1]) && Continues(b[2])
         && (b[0] == 0xE0 ==> b[1] >= 0xA0) && (b[0] == 0xED ==> b[1] < 0xA0) then 3 else 0
    else if 0xF0 <= b[0] < 0xF5 then
      if |b| >= 4 && Continues(b[1]) && Continues(b[2]) && Continues(b[3])
         && (b[0] == 0xF0 ==> b[1] >= 0x90) && (b[0] == 0xF4 ==> b[1] < 0x90) then 4 else 0
    else 0
  }

  predicate Continues(c: byte) { 0x80 <= c < 0xC0 }

  predicate IsText(b: bytes) {
    b == [] || (CharWidth(b) > 0 && IsText(b[CharWidth(b)..]))
  }

  /** A JDWP string, kept as its UTF-8 bytes; the length field caps its size. */
  type Text = t: bytes | IsText(t) && |t| < 0x1_0000_0000 witness []

  function Str(t: Text): (b: bytes)
    ensures |b| == 4 + |t|
  {
    U32(|t|) + t
  }

  function ReadString(b: bytes): (r: Parsed<Text>) {
    var (len, body) :- ReadU32(b);
    if |body| < len || !IsText(body[..len]) then Failure(Protocol) else Success((body[..len], body[len..]))
  }

  lemma ReadStringWritten(t: Text, rest: bytes)
    ensures ReadString(Str(t) + rest) == Success((t, rest))
  {
    ReadU32Written(|t|, t + rest);
    assert Str(t) + rest == U32(|t|) + (t + rest);
    assert (t + rest)[..|t|] == t && (t + rest)[|t|..] == rest;
  }

  // ----- later input never changes what was already parsed -----

  ghost predicate Extends<T>(short: Parsed<T>, long: Parsed<T>, more: bytes) {
    short.Success? ==> long == Success((short.value.0, short.value.1 + more))
  }

  lemma UintExtends(n: nat, b: bytes, more: bytes)
    ensures Extends(ReadUint(n, b), ReadUint(n, b + more), more)
    ensures Extends(ReadInt(n, b), ReadInt(n, b + more), more)
  {
    if |b| >= n {
      assert (b + more)[..n] == b[..n];
      assert (b + more)[n..] == b[n..] + more;
    }
  }

  lemma FieldsExtend(b: bytes, more: bytes)
    ensures Extends(ReadU8(b), ReadU8(b + more), more)
    ensures Extends(ReadU32(b), ReadU32(b + more), more)
    ensures Extends(ReadU64(b), ReadU64(b + more), more)
    ensures Extends(ReadI32(b), ReadI32(b + more), more)
  {
    UintExtends(4, b, more);
    UintExtends(8, b, more);
    if |b| >= 1 {
      assert (b + more)[1..] == b[1..] + more;
    }
  }

  lemma StringExtends(b: bytes, more: bytes)
    ensures Extends(ReadString(b), ReadString(b + more), more)
  {
    if ReadString(b).Success? {
      FieldsExtend(b, more);
      var (len, body) := ReadU32(b).value;
      assert (body + more)[..len] == body[..len];
      assert (body + more)[len..] == body[len..] + more;
    }
  }
}
