/** Packet framing (`protocol.rs`, `read_packet` and `spawn_packet_reader` in `eventloop.rs`), after the
    section "JDWP Packets" of the Java Debug Wire Protocol. */
module Packets {
  import opened Wrappers
  import opened Bytes

  const HEADER_SIZE := 11
  const MAX_PACKET_SIZE := 10 * 1024 * 1024
  const REPLY_FLAG: u8 := 0x80

  datatype CommandPacket = CommandPacket(id: u32, commandSet: u8, command: u8, data: bytes)
  datatype ReplyPacket = ReplyPacket(id: u32, errorCode: u16, data: bytes)
  datatype Frame = Frame(isReply: bool, id: u32, full: bytes)

  // ----- one packet -----

  function EncodeCommand(c: CommandPacket): (b: bytes)
    ensures |b| == HEADER_SIZE + |c.data|
  {
    var length := HEADER_SIZE + |c.data|;
    U32(if length < 0x1_0000_0000 then length else 0xFFFF_FFFF) + (U32(c.id) + ([0, c.commandSet, c.command] + c.data))
  }

  /** The JVM's half: one command off the front of what it has received. */
  function DecodeCommand(b: bytes): Parsed<CommandPacket> {
    var (length, b1) :- ReadU32(b);
    var (id, b2) :- ReadU32(b1);
    if length < HEADER_SIZE || |b| < length || b2[0] != 0 then Failure(Protocol)
    else Success((CommandPacket(id, b2[1], b2[2], b[HEADER_SIZE..length]), b[length..]))
  }

  /** A command stream is unambiguous: the JVM gets back each command, and starts the next where it ends. */
  lemma CommandRoundTrip(c: CommandPacket, rest: bytes)
    requires HEADER_SIZE + |c.data| < 0x1_0000_0000
    ensures DecodeCommand(EncodeCommand(c) + rest) == Success((c, rest))
  {
    var length := HEADER_SIZE + |c.data|;
    var tail := [0, c.commandSet, c.command] + c.data + rest;
    var b := EncodeCommand(c) + rest;
    assert b == U32(length) + (U32(c.id) + tail);
    ReadU32Written(length, U32(c.id) + tail);
    ReadU32Written(c.id, tail);
    assert b[HEADER_SIZE..length] == c.data && b[length..] == rest;
  }

  function EncodeReply(r: ReplyPacket): (b: bytes)
    requires HEADER_SIZE + |r.data| < 0x1_0000_0000
    ensures |b| == HEADER_SIZE + |r.data|
  {
    U32(HEADER_SIZE + |r.data|) + (U32(r.id) + ([REPLY_FLAG] + (U16(r.errorCode) + r.data)))
  }

  function DecodeReply(b: bytes): Result<ReplyPacket> {
    if |b| < HEADER_SIZE then Failure(Protocol)
    else
      var id := ReadU32(b[4..]).value.0;
      if b[8] != REPLY_FLAG then Failure(Protocol)
      else
        Widths();
        Success(ReplyPacket(id, ReadUint(2, b[9..]).value.0, b[HEADER_SIZE..]))
  }

  lemma ReplyRoundTrip(r: ReplyPacket)
    requires HEADER_SIZE + |r.data| < 0x1_0000_0000
    ensures DecodeReply(EncodeReply(r)) == Success(r)
  {
    var b := EncodeReply(r);
    var tail := [REPLY_FLAG] + (U16(r.errorCode) + r.data);
    assert b[4..] == U32(r.id) + tail;
    ReadU32Written(r.id, tail);
    assert b[9..] == U16(r.errorCode) + r.data;
    Widths();
    ReadWritten(2, r.errorCode, r.data);
    assert b[8] == (U32(HEADER_SIZE + |r.data|) + U32(r.id) + tail)[8];
  }

  /** Every reply that is long enough and flagged as one is decoded, field by field, and nothing else is. */
  lemma RepliesDecoded(b: bytes)
    ensures DecodeReply(b).Success? <==> |b| >= 11 && b[8] == 0x80
    ensures DecodeReply(b).Success? ==>
      DecodeReply(b).value == ReplyPacket(FromBigEndian(b[4..8]), FromBigEndian(b[9..11]), b[11..])
  {
    if |b| >= 11 {
      assert b[4..][..4] == b[4..8] && b[9..][..2] == b[9..11];
    }
  }

  lemma HeaderLayout(x: u32, y: u32, tail: bytes)
    ensures var b := U32(x) + (U32(y) + tail);
      FromBigEndian(b[..4]) == x && FromBigEndian(b[4..8]) == y && b[8..] == tail
  {
    var b := U32(x) + (U32(y) + tail);
    ReadU32Written(x, U32(y) + tail);
    ReadU32Written(y, tail);
    assert b[..4] == U32(x) && b[4..8] == U32(y);
  }

  /** Where the fields of a command are: length, id, flags, command set, command, data. */
  lemma CommandLayout(c: CommandPacket)
    requires 11 + |c.data| < 0x1_0000_0000
    ensures var b := EncodeCommand(c);
      && FromBigEndian(b[..4]) == |b| && FromBigEndian(b[4..8]) == c.id
      && b[8] == 0 && b[9] == c.commandSet && b[10] == c.command && b[11..] == c.data
  {
    HeaderLayout(11 + |c.data|, c.id, [0, c.commandSet, c.command] + c.data);
    assert EncodeCommand(c)[8..] == [0, c.commandSet, c.command] + c.data;
  }

  /** Where the fields of a reply are: length, id, flags, error code, data. */
  lemma ReplyLayout(r: ReplyPacket)
    requires 11 + |r.data| < 0x1_0000_0000
    ensures var b := EncodeReply(r);
      && FromBigEndian(b[..4]) == |b| && FromBigEndian(b[4..8]) == r.id
      && b[8] == 0x80 && FromBigEndian(b[9..11]) == r.errorCode && b[11..] == r.data
  {
    var tail := [REPLY_FLAG] + (U16(r.errorCode) + r.data);
    HeaderLayout(11 + |r.data|, r.id, tail);
    assert EncodeReply(r)[8..] == tail;
    assert EncodeReply(r)[9..11] == U16(r.errorCode);
    Widths();
    BigEndianRoundTrip(2, r.errorCode);
  }

  // ----- the byte stream -----

  function LengthField(b: bytes): u32
    requires |b| >= HEADER_SIZE
  {
    ReadU32(b).value.0
  }

  function IdField(b: bytes): u32
    requires |b| >= HEADER_SIZE
  {
    ReadU32(b[4..]).value.0
  }

  predicate HeaderIsJdwp(b: bytes)
    requires |b| >= HEADER_SIZE
  {
    (b[8] == 0 || b[8] == REPLY_FLAG) && HEADER_SIZE <= LengthField(b) <= MAX_PACKET_SIZE
  }

  predicate Complete(b: bytes) {
    |b| >= HEADER_SIZE && HeaderIsJdwp(b) && LengthField(b) <= |b|
  }

  /** A whole header, and not one of a JDWP packet. */
  predicate Foreign(b: bytes) {
    |b| >= HEADER_SIZE && !HeaderIsJdwp(b)
  }

  function FrameOf(b: bytes): Frame
    requires |b| >= HEADER_SIZE
  {
    Frame(b[8] == REPLY_FLAG, IdField(b), b)
  }

  /** The packets a stream holds, what follows the last one, and whether that is a header no reader accepts. */
  datatype Scanned = Scanned(frames: seq<Frame>, rest: bytes, foreign: bool)

  function Scan(b: bytes): (s: Scanned)
    ensures !Complete(s.rest) && s.foreign == Foreign(s.rest)
    decreases |b|
  {
    if !Complete(b) then Scanned([], b, Foreign(b))
    else
      var n := LengthField(b);
      var more := Scan(b[n..]);
      Scanned([FrameOf(b[..n])] + more.frames, more.rest, more.foreign)
  }

  lemma ScanStep(b: bytes)
    requires Complete(b)
    ensures Scan(b) == Scanned([FrameOf(b[..LengthField(b)])] + Scan(b[LengthField(b)..]).frames,
                               Scan(b[LengthField(b)..]).rest, Scan(b[LengthField(b)..]).foreign)
  {
  }

  lemma HeaderStable(a: bytes, b: bytes)
    requires |a| >= HEADER_SIZE
    ensures LengthField(a + b) == LengthField(a) && IdField(a + b) == IdField(a)
    ensures HeaderIsJdwp(a + b) == HeaderIsJdwp(a)
  {
    FieldsExtend(a, b);
    FieldsExtend(a[4..], b);
    assert (a + b)[4..] == a[4..] + b;
  }

  lemma CompleteStable(a: bytes, b: bytes)
    requires Complete(a)
    ensures Complete(a + b) && LengthField(a + b) == LengthField(a)
    ensures (a + b)[..LengthField(a)] == a[..LengthField(a)]
    ensures (a + b)[LengthField(a)..] == a[LengthField(a)..] + b
  {
    HeaderStable(a, b);
  }

  /** Chunks do not matter: scanning a piece, then what it left plus the next piece, scans the whole. */
  lemma {:induction false} ScanInPieces(a: bytes, b: bytes)
    ensures Scan(a + b).frames == Scan(a).frames + Scan(Scan(a).rest + b).frames
    ensures Scan(a + b).rest == Scan(Scan(a).rest + b).rest
    ensures Scan(a + b).foreign == Scan(Scan(a).rest + b).foreign
    decreases |a|
  {
    if Complete(a) {
      CompleteStable(a, b);
      ScanInPieces(a[LengthField(a)..], b);
    }
  }

  /** A frame some peer could legitimately have written. */
  ghost predicate WellFramed(f: Frame) {
    |f.full| >= HEADER_SIZE && HeaderIsJdwp(f.full) && LengthField(f.full) == |f.full| && FrameOf(f.full) == f
  }

  function Stream(frames: seq<Frame>): bytes {
    if frames == [] then [] else frames[0].full + Stream(frames[1..])
  }

  /** Scanning `b` gives `frames` and then whatever scanning `junk` gives. */
  ghost predicate ScansTo(b: bytes, frames: seq<Frame>, junk: bytes) {
    Scan(b).frames == frames + Scan(junk).frames && Scan(b).rest == Scan(junk).rest
    && Scan(b).foreign == Scan(junk).foreign
  }

  lemma ScansToCons(f: Frame, tail: bytes, frames: seq<Frame>, junk: bytes)
    requires WellFramed(f) && ScansTo(tail, frames, junk)
    ensures ScansTo(f.full + tail, [f] + frames, junk)
  {
    CompleteStable(f.full, tail);
    ScanStep(f.full + tail);
    assert f.full[..|f.full|] == f.full && f.full[|f.full|..] + tail == tail;
    assert [f] + (frames + Scan(junk).frames) == [f] + frames + Scan(junk).frames;
  }

  /** Framing is unique: what was written packet by packet is read back packet by packet. */
  lemma ScansToNothing(junk: bytes)
    ensures ScansTo(junk, [], junk)
  {
  }

  lemma {:induction false} ScanStream(frames: seq<Frame>, junk: bytes)
    requires forall i :: 0 <= i < |frames| ==> WellFramed(frames[i])
    ensures ScansTo(Stream(frames) + junk, frames, junk)
  {
    hide ScansTo, WellFramed;
    if frames == [] {
      assert Stream(frames) + junk == junk;
      ScansToNothing(junk);
    } else {
      var tail := Stream(frames[1..]) + junk;
      ScanStream(frames[1..], junk);
      ScansToCons(frames[0], tail, frames[1..], junk);
      assert Stream(frames) + junk == frames[0].full + tail && frames == [frames[0]] + frames[1..];
    }
  }

  lemma ReplyIsWellFramed(r: ReplyPacket)
    requires HEADER_SIZE + |r.data| <= MAX_PACKET_SIZE
    ensures WellFramed(Frame(true, r.id, EncodeReply(r)))
  {
    var b := EncodeReply(r);
    var tail := [REPLY_FLAG] + (U16(r.errorCode) + r.data);
    assert b == U32(|b|) + (U32(r.id) + tail);
    ReadU32Written(|b|, U32(r.id) + tail);
    assert b[4..] == U32(r.id) + tail;
    ReadU32Written(r.id, tail);
  }

  lemma CommandIsWellFramed(c: CommandPacket)
    requires HEADER_SIZE + |c.data| <= MAX_PACKET_SIZE
    ensures WellFramed(Frame(false, c.id, EncodeCommand(c)))
  {
    var b := EncodeCommand(c);
    var tail := [0, c.commandSet, c.command] + c.data;
    assert b == U32(|b|) + (U32(c.id) + tail);
    ReadU32Written(|b|, U32(c.id) + tail);
    assert b[4..] == U32(c.id) + tail;
    ReadU32Written(c.id, tail);
    assert b[8] == tail[0];
  }

  lemma {:induction false} StreamAppend(frames: seq<Frame>, f: Frame)
    ensures Stream(frames + [f]) == Stream(frames) + f.full
  {
    if frames == [] {
      assert frames + [f] == [f];
    } else {
      assert (frames + [f])[1..] == frames[1..] + [f];
      StreamAppend(frames[1..], f);
    }
  }

  lemma Cancel(a: bytes, b: bytes, x: bytes, y: bytes)
    requires a + x == b + y && |a| == |b|
    ensures a == b && x == y
  {
    assert a == (a + x)[..|a|] && b == (b + y)[..|b|];
    assert x == (a + x)[|a|..] && y == (b + y)[|b|..];
  }

  lemma FrontIsFirst(b: bytes, rest: bytes, f: Frame, tail: bytes)
    requires Complete(b) && LengthField(b) == |b| && WellFramed(f) && b + rest == f.full + tail
    ensures b == f.full && rest == tail
  {
    HeaderStable(b, rest);
    HeaderStable(f.full, tail);
    Cancel(b, f.full, rest, tail);
  }

  /** A complete packet at the front of a stream of packets is the first of them. */
  lemma FirstPacket(b: bytes, rest: bytes, frames: seq<Frame>, junk: bytes)
    requires Complete(b) && LengthField(b) == |b| && b + rest == Stream(frames) + junk && !Complete(junk)
    requires frames != [] ==> WellFramed(frames[0])
    ensures frames != [] && FrameOf(b) == frames[0] && rest == Stream(frames[1..]) + junk
  {
    CompleteStable(b, rest);
    assert [] + junk == junk;
    if frames == [] {
      assert false;
    }
    var tail := Stream(frames[1..]) + junk;
    assert b + rest == frames[0].full + tail;
    FrontIsFirst(b, rest, frames[0], tail);
  }

  /** How many bytes `read_packet` wants in its buffer before it does anything more. */
  function Wanted(partial: bytes): nat {
    if |partial| < HEADER_SIZE then HEADER_SIZE
    else if HeaderIsJdwp(partial) then LengthField(partial)
    else |partial|
  }

  lemma HeaderBytes(b: bytes)
    ensures |b| >= 11 ==> LengthField(b) == FromBigEndian(b[..4]) && IdField(b) == FromBigEndian(b[4..8])
    ensures |b| >= 11 && LengthField(b) >= 11 && LengthField(b) <= |b| ==> IdField(b[..LengthField(b)]) == IdField(b)
  {
    if |b| >= 11 {
      assert b[4..][..4] == b[4..8];
      if 11 <= LengthField(b) <= |b| {
        assert b[..LengthField(b)][4..][..4] == b[4..8];
      }
    }
  }

  // ----- the reader task -----

  /** The socket's read half. Every read returns at most what `arrivals` says has arrived by then. */
  class Socket {
    var unread: bytes
    var arrivals: seq<nat>

    constructor (unread: bytes, arrivals: seq<nat>)
      ensures this.unread == unread && this.arrivals == arrivals
    {
      this.unread, this.arrivals := unread, arrivals;
    }

    /** One `read`: between 1 and `want` bytes, or none at end of stream. */
    method Read(want: nat) returns (got: bytes)
      requires want > 0
      modifies this
      ensures old(unread) == got + unread && |got| <= want
      ensures got == [] <==> old(unread) == []
    {
      var ready := if arrivals == [] || arrivals[0] == 0 then 1 else arrivals[0];
      var n := if ready < want then ready else want;
      n := if n < |unread| then n else |unread|;
      arrivals := if arrivals == [] then [] else arrivals[1..];
      got := unread[..n];
      unread := unread[n..];
    }

    /** `read_exact`: the split of the stream into reads never shows in the result. */
    method ReadExact(n: nat) returns (r: Result<bytes>)
      modifies this
      ensures |old(unread)| >= n ==> r == Success(old(unread)[..n]) && unread == old(unread)[n..]
      ensures |old(unread)| < n ==> r == Failure(Io)
    {
      var buf: bytes := [];
      while |buf| < n
        invariant |buf| <= n && old(unread) == buf + unread
        decreases n - |buf|
      {
        var got := Read(n - |buf|);
        if got == [] {
          return Failure(Io);
        }
        buf := buf + got;
      }
      r := Success(buf);
    }

    method ReadPacket() returns (r: Result<Frame>)
      modifies this
      ensures Complete(old(unread)) ==>
        && r == Success(FrameOf(old(unread)[..LengthField(old(unread))]))
        && unread == old(unread)[LengthField(old(unread))..]
      ensures !Complete(old(unread)) ==> r == Failure(if Scan(old(unread)).foreign then NotJdwpFramed else Io)
      // The same from the bytes alone.
      ensures |old(unread)| < 11 ==> r == Failure(Io)
      ensures |old(unread)| >= 11 ==>
        var b := old(unread);
        var length := FromBigEndian(b[..4]);
        if (b[8] != 0 && b[8] != 0x80) || length < 11 || length > 10_485_760 then r == Failure(NotJdwpFramed)
        else if length > |b| then r == Failure(Io)
        else r == Success(Frame(b[8] == 0x80, FromBigEndian(b[4..8]), b[..length])) && unread == b[length..]
    {
      HeaderBytes(unread);
      ghost var all := unread;
      var header :- ReadExact(HEADER_SIZE);
      assert all == header + unread;
      HeaderStable(header, unread);
      if !HeaderIsJdwp(header) {
        return Failure(NotJdwpFramed);
      }
      var full := header;
      if LengthField(header) > HEADER_SIZE {
        var data :- ReadExact(LengthField(header) - HEADER_SIZE);
        full := full + data;
      }
      assert full == all[..LengthField(all)] && unread == all[LengthField(all)..];
      assert all == full + unread;
      HeaderStable(header, full[HEADER_SIZE..]);
      assert full == header + full[HEADER_SIZE..];
      r := Success(Frame(header[8] == REPLY_FLAG, IdField(header), full));
    }

    /** `spawn_packet_reader`: whole packets until the first error, and nothing after it. */
    method ReaderTask() returns (sent: seq<Result<Frame>>)
      modifies this
      ensures sent == Delivered(Scan(old(unread)))
      ensures var s := Scan(old(unread));
        && |sent| == |s.frames| + 1 && (forall i :: 0 <= i < |s.frames| ==> sent[i] == Success(s.frames[i]))
        && sent[|s.frames|] == Failure(if s.foreign then NotJdwpFramed else Io)
    {
      sent := [];
      var fatal := false;
      while !fatal
        invariant !fatal ==> Delivered(Scan(old(unread))) == sent + Delivered(Scan(unread))
        invariant fatal ==> Delivered(Scan(old(unread))) == sent
        decreases !fatal, |unread|
      {
        DeliveredStep(unread);
        var result := ReadPacket();
        fatal := result.Failure?;
        sent := sent + [result];
      }
    }
  }

  lemma {:induction false} DeliveredStep(b: bytes)
    ensures Complete(b) ==>
      Delivered(Scan(b)) == [Success(FrameOf(b[..LengthField(b)]))] + Delivered(Scan(b[LengthField(b)..]))
    ensures !Complete(b) ==> Delivered(Scan(b)) == [Failure(if Scan(b).foreign then NotJdwpFramed else Io)]
  {
    if Complete(b) {
      ScanStep(b);
      DeliveredCons(FrameOf(b[..LengthField(b)]), Scan(b[LengthField(b)..]));
    }
  }

  lemma {:induction false} DeliveredCons(f: Frame, s: Scanned)
    ensures Delivered(Scanned([f] + s.frames, s.rest, s.foreign)) == [Success(f)] + Delivered(s)
  {
    assert Ok([f] + s.frames) == [Success(f)] + Ok(s.frames);
  }

  function Ok(frames: seq<Frame>): seq<Result<Frame>> {
    seq(|frames|, i requires 0 <= i < |frames| => Success(frames[i]))
  }

  /** What the loop is handed for a stream that has ended: its packets, then one error. */
  function Delivered(s: Scanned): seq<Result<Frame>> {
    Ok(s.frames) + [Failure(if s.foreign then NotJdwpFramed else Io)]
  }
}
