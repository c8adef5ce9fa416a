/** A transport stream, reduced to the bytes that have arrived and are not yet read. */
module Transport {
  import opened Common

  class ByteStream {
    var pending: Bytes

    constructor (bytes: Bytes)
      ensures pending == bytes
    {
      pending := bytes;
    }

    /** `read_exact`: all or nothing; a stream that ends early is drained and reported. */
    method ReadExact(n: nat) returns (r: Result<Bytes>)
      modifies this
      ensures n <= |old(pending)| ==> r == Ok(old(pending)[..n]) && pending == old(pending)[n..]
      ensures n > |old(pending)| ==> r == Err(InvalidSocket) && pending == []
    {
      if n <= |pending| {
        r := Ok(pending[..n]);
        pending := pending[n..];
      } else {
        r := Err(InvalidSocket);
        pending := [];
      }
    }
  }
}

/** ZMTP framing: `ZmtpFrame` of transport.rs and the frame readers of socket.rs
    (the Framing part of ZeroMQ RFC 37/ZMTP 3.1 and RFC 23/ZMTP 3.0). */
module ZmtpFrame {
  import opened Common
  import opened Transport

  datatype Frame = Frame(body: Bytes, more: bool, command: bool)

  const MORE: nat := 1
  const LONG: nat := 2
  const COMMAND: nat := 4

  /** `flags & mask != 0` for a one-bit mask. */
  predicate Has(flags: byte, mask: nat)
    requires mask > 0
  {
    flags as nat / mask % 2 == 1
  }

  function Flags(f: Frame, includeCommand: bool, long: bool): byte {
    ((if f.more then MORE else 0) + (if long then LONG else 0) +
     (if includeCommand && f.command then COMMAND else 0)) as byte
  }

  function Header(f: Frame, includeCommand: bool): Bytes {
    if |f.body| <= 255 then [Flags(f, includeCommand, false), |f.body| as byte]
    else [Flags(f, includeCommand, true)] + BigEndian(|f.body|, 8)
  }

  /** `encode_with_command_bit`; `includeCommand` is false for versions 1 and 2, true for version 3. */
  function Encode(f: Frame, includeCommand: bool := true): Bytes {
    Header(f, includeCommand) + f.body
  }

  /** Lengths of the header and of the body announced by it, once the header is complete. */
  function Announced(bytes: Bytes): (r: Option<(nat, nat)>)
    ensures r.Some? ==> 0 < r.value.0 <= |bytes|
  {
    if |bytes| < 2 then None
    else if Has(bytes[0], LONG) then
      if |bytes| < 9 then None else Some((9, FromBigEndian(bytes[1..9])))
    else Some((2, bytes[1] as nat))
  }

  /** `decode_with_command_bit`. */
  function Decode(bytes: Bytes, includeCommand: bool := true): Result<Frame> {
    match Announced(bytes)
    case None => Err(InvalidArgument)
    case Some((headerLen, bodyLen)) =>
      if |bytes| != headerLen + bodyLen then Err(InvalidArgument)
      else Ok(Frame(bytes[headerLen..], Has(bytes[0], MORE), includeCommand && Has(bytes[0], COMMAND)))
  }

  /** One frame off the front of a stream: its bytes and the remaining stream. */
  function TakeFrame(stream: Bytes): (r: Result<(Bytes, Bytes)>)
    ensures r.Ok? ==> |r.value.1| < |stream| && r.value.0 + r.value.1 == stream
  {
    match Announced(stream)
    case None => Err(InvalidSocket)
    case Some((headerLen, bodyLen)) =>
      if |stream| < headerLen + bodyLen then Err(InvalidSocket)
      else Ok((stream[..headerLen + bodyLen], stream[headerLen + bodyLen..]))
  }

  /** `read_zmtp_frame_tcp`: take a frame and decode it. */
  function ReadFrame(stream: Bytes): (r: Result<(Frame, Bytes)>)
    ensures r.Ok? ==> |r.value.1| < |stream|
  {
    var (encoded, rest) :- TakeFrame(stream);
    var frame :- Decode(encoded);
    Ok((frame, rest))
  }

  /** Reading frame after frame until the stream is used up. */
  function ReadFrames(stream: Bytes): Result<seq<Frame>>
    decreases |stream|
  {
    if stream == [] then Ok([]) else
      var (frame, rest) :- ReadFrame(stream);
      var frames :- ReadFrames(rest);
      Ok([frame] + frames)
  }

  function EncodeAll(frames: seq<Frame>): Bytes {
    if frames == [] then [] else Encode(frames[0]) + EncodeAll(frames[1..])
  }

  /** `read_zmtp_frame_bytes_tcp`: flags, length field, then the body; the header is rebuilt from
      the parsed length. */
  method ReadFrameBytes(stream: ByteStream) returns (r: Result<Bytes>)
    modifies stream
    ensures match TakeFrame(old(stream.pending))
            case Ok((encoded, rest)) => r == Ok(encoded) && stream.pending == rest
            case Err(_) => r == Err(InvalidSocket)
  {
    ghost var all := stream.pending;
    var flags := stream.ReadExact(1);
    if flags.Err? { return Err(InvalidSocket); }
    var long := Has(flags.value[0], LONG);
    var field := stream.ReadExact(if long then 8 else 1);
    if field.Err? { return Err(InvalidSocket); }
    var bodyLen := FromBigEndian(field.value);
    var header := flags.value + BigEndian(bodyLen, if long then 8 else 1);
    BigEndianWrite(field.value);
    var body := stream.ReadExact(bodyLen);
    HeaderRead(all, field.value);
    if body.Err? { return Err(InvalidSocket); }
    assert header == all[..|header|];
    assert header + body.value == all[..|header| + bodyLen];
    r := Ok(header + body.value);
  }

  lemma HeaderRead(all: Bytes, field: Bytes)
    requires |all| >= 1 + |field| && field == all[1..1 + |field|]
    requires |field| == if Has(all[0], LONG) then 8 else 1
    ensures Announced(all) == Some((1 + |field|, FromBigEndian(field)))
  {
    if |field| == 1 {
      assert FromBigEndian(field[..0]) == 0;
    }
  }

  lemma FlagBits(f: Frame, includeCommand: bool, long: bool)
    ensures Has(Flags(f, includeCommand, long), LONG) == long
    ensures Has(Flags(f, includeCommand, long), MORE) == f.more
    ensures Has(Flags(f, includeCommand, long), COMMAND) == (includeCommand && f.command)
  {
  }

  predicate BitSet(b: byte, mask: nat)
    requires mask > 0
  {
    b as nat / mask % 2 == 1
  }

  /** The flags byte in bits (bit 0 more, bit 1 long, bit 2 command, the rest clear), the length in one byte
      or in eight in network order, then the body. */
  lemma EncodeLayout(f: Frame, includeCommand: bool)
    requires |f.body| < U64_LIMIT
    ensures var b := Encode(f, includeCommand);
            && |b| >= 2 && b[0] < 8
            && (BitSet(b[0], 1) <==> f.more)
            && (BitSet(b[0], 2) <==> |f.body| > 255)
            && (BitSet(b[0], 4) <==> includeCommand && f.command)
            && (|f.body| <= 255 ==> |b| == 2 + |f.body| && b[1] as nat == |f.body| && b[2..] == f.body)
            && (|f.body| > 255 ==> |b| == 9 + |f.body| && FromBigEndian(b[1..9]) == |f.body| && b[9..] == f.body)
  {
    hide BigEndian, FromBigEndian;
    var b := Encode(f, includeCommand);
    FieldLimits();
    if |f.body| > 255 {
      BigEndianRead(|f.body|, 8);
      assert b[1..9] == BigEndian(|f.body|, 8);
      assert b[9..] == f.body;
    } else {
      assert b[2..] == f.body;
    }
  }

  /** What the decoder accepts, and how it reads the flags. */
  lemma DecodeLayout(b: Bytes, includeCommand: bool)
    ensures Decode(b, includeCommand).Ok? <==>
            if |b| >= 2 && BitSet(b[0], 2) then |b| >= 9 && |b| == 9 + FromBigEndian(b[1..9])
            else |b| >= 2 && |b| == 2 + b[1] as nat
    ensures Decode(b, includeCommand).Ok? ==>
              var f := Decode(b, includeCommand).value;
              && (f.more <==> BitSet(b[0], 1)) && (f.command <==> includeCommand && BitSet(b[0], 4))
              && f.body == b[if BitSet(b[0], 2) then 9 else 2..]
    ensures Decode(b, includeCommand).Err? ==> Decode(b, includeCommand) == Err(InvalidArgument)
  {
    hide FromBigEndian;
  }

  /** The header of an encoded frame announces exactly that frame, whatever follows it. */
  lemma HeaderAnnounces(f: Frame, includeCommand: bool, rest: Bytes)
    requires |f.body| < U64_LIMIT
    ensures Announced(Header(f, includeCommand) + rest) == Some((|Header(f, includeCommand)|, |f.body|))
  {
    hide Has, Flags, BigEndian, FromBigEndian;
    var long := |f.body| > 255;
    FlagBits(f, includeCommand, long);
    var bytes := Header(f, includeCommand) + rest;
    assert bytes[0] == Flags(f, includeCommand, long);
    if long {
      FieldLimits();
      BigEndianRead(|f.body|, 8);
      assert bytes[1..9] == BigEndian(|f.body|, 8);
    }
  }

  /** Decoding an encoding returns the frame; versions 1 and 2 drop the command bit. */
  lemma DecodeAfterEncode(f: Frame, includeCommand: bool)
    requires |f.body| < U64_LIMIT
    ensures Decode(Encode(f, includeCommand), includeCommand) ==
            Ok(f.(command := includeCommand && f.command))
  {
    hide Has, Flags, Announced;
    HeaderAnnounces(f, includeCommand, f.body);
    FlagBits(f, includeCommand, |f.body| > 255);
    ConcatSplit(Header(f, includeCommand), f.body);
  }

  /** A frame at the front of a stream is read whole, and nothing beyond it. */
  lemma ReadAfterEncode(f: Frame, rest: Bytes)
    requires |f.body| < U64_LIMIT
    ensures TakeFrame(Encode(f) + rest) == Ok((Encode(f), rest))
    ensures ReadFrame(Encode(f) + rest) == Ok((f, rest))
  {
    hide Announced, Header, Decode;
    HeaderAnnounces(f, true, f.body + rest);
    ConcatAssociative(Header(f, true), f.body, rest);
    ConcatSplit(Encode(f), rest);
    DecodeAfterEncode(f, true);
  }

  /** Framing is self-delimiting: the concatenated encodings of any list of frames read back as
      exactly that list, with no bytes left over. */
  lemma {:induction false} FramesRoundTrip(frames: seq<Frame>)
    requires forall i :: 0 <= i < |frames| ==> |frames[i].body| < U64_LIMIT
    ensures ReadFrames(EncodeAll(frames)) == Ok(frames)
  {
    hide ReadFrame, Encode;
    if frames != [] {
      FramesRoundTrip(frames[1..]);
      ReadAfterEncode(frames[0], EncodeAll(frames[1..]));
      ReadFrameNonEmpty(EncodeAll(frames));
      assert frames == [frames[0]] + frames[1..];
    }
  }

  lemma ReadFrameNonEmpty(stream: Bytes)
    requires ReadFrame(stream).Ok?
    ensures stream != []
  {
  }

  /** No frame is a proper prefix of the stream it needs: a truncated frame is never accepted. */
  lemma TruncatedFrameRejected(f: Frame, cut: nat)
    requires |f.body| < U64_LIMIT && cut < |Encode(f)|
    ensures TakeFrame(Encode(f)[..cut]).Err?
  {
    var whole, part := Encode(f), Encode(f)[..cut];
    HeaderAnnounces(f, true, f.body);
    if Announced(part).Some? {
      AnnouncedStable(part, whole);
    }
  }

  /** More input never changes what a complete header announces. */
  lemma AnnouncedStable(part: Bytes, whole: Bytes)
    requires part <= whole && Announced(part).Some?
    ensures Announced(whole) == Announced(part)
  {
    assert part[0] == whole[0] && part[1] == whole[1];
    if Has(part[0], LONG) {
      assert part[1..9] == whole[1..9];
    }
  }

  /** Whatever the reader takes off a stream, the decoder accepts. */
  lemma TakenFrameDecodes(stream: Bytes)
    requires TakeFrame(stream).Ok?
    ensures Decode(TakeFrame(stream).value.0).Ok?
    ensures ReadFrame(stream).Ok?
  {
    hide Announced, Has;
    var (encoded, rest) := TakeFrame(stream).value;
    TakenAnnounced(stream);
  }

  lemma TakenAnnounced(stream: Bytes)
    requires TakeFrame(stream).Ok?
    ensures Announced(TakeFrame(stream).value.0) == Announced(stream)
  {
    var encoded := TakeFrame(stream).value.0;
    assert encoded[0] == stream[0] && encoded[1] == stream[1];
    if Has(stream[0], LONG) {
      assert encoded[1..9] == stream[1..9];
    }
  }

  /** Re-encoding an accepted frame gives the same bytes exactly when the reserved flag bits are
      clear and the long form is used only for bodies that need it. */
  lemma ReencodeIff(bytes: Bytes)
    requires Decode(bytes).Ok?
    ensures Encode(Decode(bytes).value) == bytes <==>
            bytes[0] < 8 && (Has(bytes[0], LONG) <==> |Decode(bytes).value.body| > 255)
  {
    hide BigEndian, FromBigEndian;
    var f := Decode(bytes).value;
    var headerLen := Announced(bytes).value.0;
    SplitConcat(bytes, headerLen);
    ConcatSplit(Header(f, true), f.body);
    FlagsOfBits(bytes[0], f);
    if Has(bytes[0], LONG) {
      BigEndianWrite(bytes[1..9]);
      assert bytes[..9] == [bytes[0]] + bytes[1..9];
    } else {
      assert bytes[..2] == [bytes[0], bytes[1]];
    }
    if Encode(f) == bytes {
      FlagBits(f, true, |f.body| > 255);
      assert bytes[0] == Flags(f, true, |f.body| > 255);
    }
  }

  lemma FlagsOfBits(flags: byte, f: Frame)
    requires f.more == Has(flags, MORE) && f.command == Has(flags, COMMAND)
    ensures flags < 8 ==> Flags(f, true, Has(flags, LONG)) == flags
  {
  }

  // The body readers of socket.rs keep only the body of the frame they take.

  function TakeBody(stream: Bytes): (r: Result<(Bytes, Bytes)>)
    ensures r.Ok? ==> |r.value.1| < |stream|
  {
    match Announced(stream)
    case None => Err(InvalidSocket)
    case Some((headerLen, bodyLen)) =>
      if |stream| < headerLen + bodyLen then Err(InvalidSocket)
      else Ok((stream[headerLen..headerLen + bodyLen], stream[headerLen + bodyLen..]))
  }

  lemma TakeBodyAfterEncode(f: Frame, rest: Bytes)
    requires |f.body| < U64_LIMIT
    ensures TakeBody(Encode(f) + rest) == Ok((f.body, rest))
  {
    hide Announced, Header;
    HeaderAnnounces(f, true, f.body + rest);
    ConcatAssociative(Header(f, true), f.body, rest);
    ConcatSplit(Encode(f), rest);
    ConcatSplit(Header(f, true), f.body);
    var h := |Header(f, true)|;
    assert (Encode(f) + rest)[h..h + |f.body|] == (Encode(f) + rest)[..|Encode(f)|][h..];
  }
}
