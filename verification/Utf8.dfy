/** What `String::from_utf8` accepts (`reader.rs`): exactly the encodings of sequences of Unicode scalar values, after
    section 3 of RFC 3629. */
module Utf8 {
  import opened Bytes

  /** A code point that is not a surrogate. */
  type Scalar = c: int | 0 <= c < 0xD800 || 0xE000 <= c < 0x11_0000

  function Encode(c: Scalar): (b: bytes)
    ensures 1 <= |b| <= 4
  {
    if c < 0x80 then [c]
    else if c < 0x800 then [0xC0 + c / 0x40, 0x80 + c % 0x40]
    else if c < 0x1_0000 then [0xE0 + c / 0x1000, 0x80 + c / 0x40 % 0x40, 0x80 + c % 0x40]
    else [0xF0 + c / 0x4_0000, 0x80 + c / 0x1000 % 0x40, 0x80 + c / 0x40 % 0x40, 0x80 + c % 0x40]
  }

  function EncodeAll(cs: seq<Scalar>): bytes {
    if cs == [] then [] else Encode(cs[0]) + EncodeAll(cs[1..])
  }

  /** Six bits of each continuation byte. */
  function Decode(b: bytes): (c: int)
    requires CharWidth(b) > 0
  {
    match CharWidth(b)
    case 1 => b[0]
    case 2 => (b[0] as int - 0xC0) * 0x40 + (b[1] as int - 0x80)
    case 3 => ((b[0] as int - 0xE0) * 0x40 + (b[1] as int - 0x80)) * 0x40 + (b[2] as int - 0x80)
    case _ =>
      (((b[0] as int - 0xF0) * 0x40 + (b[1] as int - 0x80)) * 0x40 + (b[2] as int - 0x80)) * 0x40
      + (b[3] as int - 0x80)
  }

  lemma Sextet(x: int, y: int)
    requires 0 <= y < 0x40
    ensures (x * 0x40 + y) / 0x40 == x && (x * 0x40 + y) % 0x40 == y
  {
  }

  lemma Sextets(c: nat)
    ensures c / 0x1000 == c / 0x40 / 0x40 && c / 0x4_0000 == c / 0x40 / 0x40 / 0x40
  {
  }

  lemma ThreeWide(c: Scalar, rest: bytes)
    requires 0x800 <= c < 0x1_0000
    ensures CharWidth(Encode(c) + rest) == 3
  {
    Sextets(c);
    var b := Encode(c) + rest;
    assert b[0] == 0xE0 + c / 0x1000 && b[1] == 0x80 + c / 0x40 % 0x40 && b[2] == 0x80 + c % 0x40;
  }

  lemma FourWide(c: Scalar, rest: bytes)
    requires 0x1_0000 <= c
    ensures CharWidth(Encode(c) + rest) == 4
  {
    Sextets(c);
    var b := Encode(c) + rest;
    assert b[0] == 0xF0 + c / 0x4_0000 && b[1] == 0x80 + c / 0x1000 % 0x40;
    assert b[2] == 0x80 + c / 0x40 % 0x40 && b[3] == 0x80 + c % 0x40;
  }

  lemma EncodedWidth(c: Scalar, rest: bytes)
    ensures CharWidth(Encode(c) + rest) == |Encode(c)|
  {
    if c >= 0x1_0000 {
      FourWide(c, rest);
    } else if c >= 0x800 {
      ThreeWide(c, rest);
    } else if c >= 0x80 {
      var b := Encode(c) + rest;
      assert b[0] == 0xC0 + c / 0x40 && b[1] == 0x80 + c % 0x40;
    }
  }

  lemma TwoRead(b: bytes)
    requires CharWidth(b) == 2
    ensures 0x80 <= Decode(b) < 0x800 && Encode(Decode(b)) == b[..2]
  {
    Sextet(b[0] as int - 0xC0, b[1] as int - 0x80);
  }

  lemma ThreeRead(b: bytes)
    requires CharWidth(b) == 3
    ensures (0x800 <= Decode(b) < 0xD800 || 0xE000 <= Decode(b) < 0x1_0000) && Encode(Decode(b)) == b[..3]
  {
    var x, y, z := b[0] as int - 0xE0, b[1] as int - 0x80, b[2] as int - 0x80;
    Sextet(x * 0x40 + y, z);
    Sextet(x, y);
    Sextets(Decode(b));
  }

  lemma FourRead(b: bytes)
    requires CharWidth(b) == 4
    ensures 0x1_0000 <= Decode(b) < 0x11_0000 && Encode(Decode(b)) == b[..4]
  {
    var w, x, y, z := b[0] as int - 0xF0, b[1] as int - 0x80, b[2] as int - 0x80, b[3] as int - 0x80;
    Sextet((w * 0x40 + x) * 0x40 + y, z);
    Sextet(w * 0x40 + x, y);
    Sextet(w, x);
    Sextets(Decode(b));
  }

  lemma DecodedAgain(b: bytes)
    requires CharWidth(b) > 0
    ensures (0 <= Decode(b) < 0xD800 || 0xE000 <= Decode(b) < 0x11_0000) && Encode(Decode(b)) == b[..CharWidth(b)]
  {
    var n := CharWidth(b);
    if n == 1 {
      assert b[..1] == [b[0]] && b[0] < 0x80;
    } else {
      hide Decode, Encode;
      if n == 2 {
        TwoRead(b);
      } else if n == 3 {
        ThreeRead(b);
      } else {
        FourRead(b);
      }
    }
  }

  lemma {:induction false} EncodedIsText(cs: seq<Scalar>)
    ensures IsText(EncodeAll(cs))
  {
    hide CharWidth, Encode;
    if cs != [] {
      EncodedIsText(cs[1..]);
      EncodedWidth(cs[0], EncodeAll(cs[1..]));
      assert EncodeAll(cs)[|Encode(cs[0])|..] == EncodeAll(cs[1..]);
    }
  }

  lemma {:induction false} TextIsEncoded(b: bytes) returns (cs: seq<Scalar>)
    requires IsText(b)
    ensures EncodeAll(cs) == b
    decreases |b|
  {
    hide CharWidth, Encode, Decode;
    if b == [] {
      cs := [];
    } else {
      var n := CharWidth(b);
      var rest := TextIsEncoded(b[n..]);
      DecodedAgain(b);
      cs := [Decode(b)] + rest;
      assert cs[1..] == rest && b == b[..n] + b[n..];
    }
  }

  /** A string is accepted if and only if it is UTF-8. */
  lemma {:induction false} TextIsUtf8(b: bytes)
    ensures IsText(b) <==> exists cs: seq<Scalar> :: EncodeAll(cs) == b
  {
    if IsText(b) {
      var cs := TextIsEncoded(b);
    }
    if cs: seq<Scalar> :| EncodeAll(cs) == b {
      EncodedIsText(cs);
    }
  }
}
