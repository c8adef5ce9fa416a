/** WebSocket binary frames of socket.rs (sections 5.2 and 5.3 of RFC 6455), carrying one ZMTP
    frame each. */
module WebSocket {
  import opened Common
  import opened Transport
  import ZmtpFrame

  /** Exclusive or of the low `bits` bits. */
  function Xor(a: nat, b: nat, bits: nat): (c: nat)
    decreases bits
  {
    if bits == 0 then 0 else (if a % 2 == b % 2 then 0 else 1) + 2 * Xor(a / 2, b / 2, bits - 1)
  }

  function Pow2(bits: nat): (p: nat)
    ensures p > 0
  {
    if bits == 0 then 1 else 2 * Pow2(bits - 1)
  }

  lemma {:induction false} XorBound(a: nat, b: nat, bits: nat)
    ensures Xor(a, b, bits) < Pow2(bits)
    decreases bits
  {
    if bits > 0 { XorBound(a / 2, b / 2, bits - 1); }
  }

  lemma LowBit(low: nat, high: nat)
    requires low < 2
    ensures (low + 2 * high) / 2 == high && (low + 2 * high) % 2 == low
  {
  }

  lemma {:induction false} XorTwice(a: nat, b: nat, bits: nat)
    requires a < Pow2(bits)
    ensures Xor(Xor(a, b, bits), b, bits) == a
    decreases bits
  {
    if bits > 0 {
      XorTwice(a / 2, b / 2, bits - 1);
      LowBit(if a % 2 == b % 2 then 0 else 1, Xor(a / 2, b / 2, bits - 1));
    }
  }

  /** Bit `i` of a number, the lowest being bit 0. */
  predicate Bit(n: nat, i: nat) {
    n / Pow2(i) % 2 == 1
  }

  lemma HalveTwice(n: nat, p: nat)
    requires p > 0
    ensures n / 2 / p == n / (2 * p)
  {
    var q, s, t := n / 2 / p, n / 2 % p, n % 2;
    assert n == 2 * (p * q + s) + t;
    assert n == (2 * p) * q + (2 * s + t) && 2 * s + t < 2 * p;
    QuotientOf(n, 2 * p, q, 2 * s + t);
  }

  /** A bit of the exclusive or is set exactly if it is set in one of the two and not in the other. */
  lemma {:induction false} XorBits(a: nat, b: nat, bits: nat, i: nat)
    requires i < bits
    ensures Bit(Xor(a, b, bits), i) <==> Bit(a, i) != Bit(b, i)
    decreases bits
  {
    var low, high := if a % 2 == b % 2 then 0 else 1, Xor(a / 2, b / 2, bits - 1);
    LowBit(low, high);
    if i > 0 {
      XorBits(a / 2, b / 2, bits - 1, i - 1);
      HalveTwice(a, Pow2(i - 1));
      HalveTwice(b, Pow2(i - 1));
      HalveTwice(low + 2 * high, Pow2(i - 1));
    }
  }

  function MaskByte(a: byte, key: byte): byte {
    XorBound(a as nat, key as nat, 8);
    assert Pow2(8) == 16 * Pow2(4);
    Xor(a as nat, key as nat, 8) as byte
  }

  lemma MaskByteTwice(a: byte, key: byte)
    ensures MaskByte(MaskByte(a, key), key) == a
  {
    assert Pow2(8) == 16 * Pow2(4);
    XorTwice(a as nat, key as nat, 8);
  }

  /** The two bytes differ exactly in the bits that the key has set. */
  ghost predicate FlippedBy(a: byte, b: byte, key: byte) {
    forall i: nat :: i < 8 ==> (BitOf(b, i) <==> BitOf(a, i) != BitOf(key, i))
  }

  predicate BitOf(b: byte, i: nat) {
    Bit(b as nat, i)
  }

  lemma MaskByteFlips(a: byte, key: byte)
    ensures FlippedBy(a, MaskByte(a, key), key)
  {
    hide Xor, Bit;
    forall i: nat | i < 8 ensures BitOf(MaskByte(a, key), i) <==> BitOf(a, i) != BitOf(key, i) {
      XorBits(a as nat, key as nat, 8, i);
    }
  }

  lemma {:induction false} XorZero(a: nat, bits: nat)
    requires a < Pow2(bits)
    ensures Xor(a, 0, bits) == a
    decreases bits
  {
    if bits > 0 { XorZero(a / 2, bits - 1); }
  }

  type MaskKey = k: Bytes | |k| == 4 witness [0, 0, 0, 0]

  /** The payload with every byte masked by the key, the key repeating every four bytes. */
  function Masked(payload: Bytes, key: MaskKey): (r: Bytes)
    ensures |r| == |payload|
  {
    seq(|payload|, i requires 0 <= i < |payload| => MaskByte(payload[i], key[i % 4]))
  }

  lemma MaskedTwice(payload: Bytes, key: MaskKey)
    ensures Masked(Masked(payload, key), key) == payload
  {
    forall i | 0 <= i < |payload| ensures Masked(Masked(payload, key), key)[i] == payload[i] {
      MaskByteTwice(payload[i], key[i % 4]);
    }
  }

  /** A key of zeros leaves the payload alone. */
  lemma MaskedByZero(payload: Bytes)
    ensures Masked(payload, [0, 0, 0, 0]) == payload
  {
    forall i | 0 <= i < |payload| ensures MaskByte(payload[i], 0) == payload[i] {
      assert Pow2(8) == 16 * Pow2(4);
      XorZero(payload[i] as nat, 8);
    }
  }

  /** First two header bytes and the extended length, for the three length bands. */
  function Header(len: nat, masked: bool): Bytes {
    var maskBit: nat := if masked then 128 else 0;
    if len <= 125 then [0x82, (maskBit + len) as byte]
    else if len <= 0xFFFF then [0x82, (maskBit + 126) as byte] + BigEndian(len, 2)
    else [0x82, (maskBit + 127) as byte] + BigEndian(len, 8)
  }

  /** `websocket_binary_frame`; the random mask key is a parameter. */
  function BinaryFrame(payload: Bytes, mask: Option<MaskKey>): Bytes {
    match mask
    case None => Header(|payload|, false) + payload
    case Some(key) => Header(|payload|, true) + (key + Masked(payload, key))
  }

  /** What a complete frame header says: its length, whether a key follows, and the payload length. */
  datatype Announcement = Announcement(headerLen: nat, masked: bool, len: nat)

  /** Parsing of the fixed header and extended length of `read_websocket_binary_frame`. */
  function Announced(stream: Bytes): (r: Result<Announcement>)
    ensures r.Ok? ==> 2 <= r.value.headerLen <= |stream|
  {
    if |stream| < 2 then Err(InvalidSocket) else
      var opcode := stream[0] % 16;
      if opcode == 8 then Err(Again)
      else if opcode != 2 then Err(InvalidArgument) else
        var masked, short := stream[1] >= 128, stream[1] as nat % 128;
        if short == 126 then
          if |stream| < 4 then Err(InvalidSocket)
          else Ok(Announcement(4, masked, FromBigEndian(stream[2..4])))
        else if short == 127 then
          if |stream| < 10 then Err(InvalidSocket)
          else Ok(Announcement(10, masked, FromBigEndian(stream[2..10])))
        else Ok(Announcement(2, masked, short))
  }

  /** `read_websocket_binary_frame` on a byte sequence: the unmasked payload and what follows. */
  function TakeBinaryFrame(stream: Bytes): (r: Result<(Bytes, Bytes)>)
    ensures r.Ok? ==> |r.value.1| < |stream|
  {
    var a :- Announced(stream);
    var at := if a.masked then a.headerLen + 4 else a.headerLen;
    if |stream| < at + a.len then Err(InvalidSocket) else
      var body := stream[at..at + a.len];
      var payload := if a.masked then Masked(body, stream[a.headerLen..at]) else body;
      Ok((payload, stream[at + a.len..]))
  }

  /** The in-place unmasking loop of the reader. */
  method Unmask(payload: array<byte>, key: MaskKey)
    modifies payload
    ensures payload[..] == Masked(old(payload[..]), key)
    ensures forall j :: 0 <= j < payload.Length ==> FlippedBy(old(payload[j]), payload[j], key[j % 4])
  {
    var index := 0;
    while index < payload.Length
      invariant 0 <= index <= payload.Length
      invariant forall j :: 0 <= j < index ==> payload[j] == MaskByte(old(payload[j]), key[j % 4])
      invariant forall j :: index <= j < payload.Length ==> payload[j] == old(payload[j])
    {
      payload[index] := MaskByte(payload[index], key[index % 4]);
      index := index + 1;
    }
    forall j | 0 <= j < payload.Length ensures FlippedBy(old(payload[j]), payload[j], key[j % 4]) {
      MaskByteFlips(old(payload[j]), key[j % 4]);
    }
  }

  /** The header part of `read_websocket_binary_frame`: opcode, mask bit and length. */
  method ReadHeader(stream: ByteStream) returns (r: Result<Announcement>)
    modifies stream
    ensures r == Announced(old(stream.pending))
    ensures r.Ok? ==> stream.pending == old(stream.pending)[r.value.headerLen..]
  {
    hide FromBigEndian;
    ghost var all := stream.pending;
    var header := stream.ReadExact(2);
    if header.Err? { return Err(InvalidSocket); }
    var opcode := header.value[0] % 16;
    if opcode == 8 { return Err(Again); }
    if opcode != 2 { return Err(InvalidArgument); }
    var masked := header.value[1] >= 128;
    var len := header.value[1] as nat % 128;
    if len == 126 {
      var field := stream.ReadExact(2);
      if field.Err? { return Err(InvalidSocket); }
      assert field.value == all[2..4];
      r := Ok(Announcement(4, masked, FromBigEndian(field.value)));
    } else if len == 127 {
      var field := stream.ReadExact(8);
      if field.Err? { return Err(InvalidSocket); }
      assert field.value == all[2..10];
      r := Ok(Announcement(10, masked, FromBigEndian(field.value)));
    } else {
      r := Ok(Announcement(2, masked, len));
    }
  }

  /** `read_websocket_binary_frame`. */
  method ReadBinaryFrame(stream: ByteStream) returns (r: Result<Bytes>)
    modifies stream
    ensures match TakeBinaryFrame(old(stream.pending))
            case Ok((payload, rest)) => r == Ok(payload) && stream.pending == rest
            case Err(e) => r == Err(e)
  {
    hide Announced, Masked;
    ghost var all := stream.pending;
    var a := ReadHeader(stream);
    if a.Err? { return Err(a.error); }
    var key: MaskKey := [0, 0, 0, 0];
    ghost var at := a.value.headerLen;
    if a.value.masked {
      var k := stream.ReadExact(4);
      if k.Err? { return Err(InvalidSocket); }
      key, at := k.value, at + 4;
      assert key == all[a.value.headerLen..at];
      assert stream.pending == all[at..];
    }
    var body := stream.ReadExact(a.value.len);
    if body.Err? { return Err(InvalidSocket); }
    assert body.value == all[at..at + a.value.len];
    assert stream.pending == all[at + a.value.len..];
    var payload := new byte[|body.value|](i requires 0 <= i < |body.value| => body.value[i]);
    assert payload[..] == body.value;
    if a.value.masked {
      Unmask(payload, key);
    }
    r := Ok(payload[..]);
  }

  lemma HeaderAnnounces(len: nat, masked: bool, rest: Bytes)
    requires len < U64_LIMIT
    ensures Announced(Header(len, masked) + rest) == Ok(Announcement(|Header(len, masked)|, masked, len))
  {
    hide BigEndian, FromBigEndian;
    var stream := Header(len, masked) + rest;
    assert stream[0] == 0x82;
    FieldLimits();
    if 125 < len <= 0xFFFF {
      BigEndianRead(len, 2);
      assert stream[2..4] == BigEndian(len, 2);
    } else if len > 0xFFFF {
      BigEndianRead(len, 8);
      assert stream[2..10] == BigEndian(len, 8);
    }
  }

  /** The second byte holds the mask bit and the length, or 126 or 127 before a length of 2 or 8 bytes in
      network order; the first byte is FIN with opcode 2. */
  lemma HeaderLayout(len: nat, masked: bool)
    requires len < U64_LIMIT
    ensures var h := Header(len, masked);
            && |h| >= 2 && h[0] == 0x82 && (h[1] >= 0x80 <==> masked)
            && (len <= 125 ==> |h| == 2 && h[1] as nat % 128 == len)
            && (125 < len <= 0xFFFF ==> |h| == 4 && h[1] as nat % 128 == 126 && FromBigEndian(h[2..]) == len)
            && (0xFFFF < len ==> |h| == 10 && h[1] as nat % 128 == 127 && FromBigEndian(h[2..]) == len)
  {
    hide BigEndian, FromBigEndian;
    var h := Header(len, masked);
    FieldLimits();
    if 125 < len <= 0xFFFF {
      BigEndianRead(len, 2);
      assert h[2..] == BigEndian(len, 2);
    } else if len > 0xFFFF {
      BigEndianRead(len, 8);
      assert h[2..] == BigEndian(len, 8);
    }
  }

  /** Which headers are refused, and how: a close frame asks to try again, any other opcode than binary is an
      error, and a header that ends early is a broken connection. */
  lemma HeaderRefusedIff(stream: Bytes)
    ensures Announced(stream) == Err(InvalidSocket) <==>
            || |stream| < 2
            || (stream[0] % 16 == 2 && stream[1] % 128 == 126 && |stream| < 4)
            || (stream[0] % 16 == 2 && stream[1] % 128 == 127 && |stream| < 10)
    ensures Announced(stream) == Err(Again) <==> |stream| >= 2 && stream[0] % 16 == 8
    ensures Announced(stream) == Err(InvalidArgument) <==>
            |stream| >= 2 && stream[0] % 16 != 8 && stream[0] % 16 != 2
  {
    hide FromBigEndian;
  }

  lemma HelloH()
    ensures MaskByte(0x7f, 0x37) == 72
  {
    assert Xor(1, 0, 2) == 1;
    assert Xor(3, 1, 3) == 2;
    assert Xor(7, 3, 4) == 4;
    assert Xor(15, 6, 5) == 9;
    assert Xor(31, 13, 6) == 18;
    assert Xor(63, 27, 7) == 36;
  }

  lemma HelloE()
    ensures MaskByte(0x9f, 0xfa) == 101
  {
    assert Xor(2, 3, 2) == 1;
    assert Xor(4, 7, 3) == 3;
    assert Xor(9, 15, 4) == 6;
    assert Xor(19, 31, 5) == 12;
    assert Xor(39, 62, 6) == 25;
    assert Xor(79, 125, 7) == 50;
  }

  lemma HelloL()
    ensures MaskByte(0x4d, 0x21) == 108
  {
    assert Xor(1, 0, 2) == 1;
    assert Xor(2, 1, 3) == 3;
    assert Xor(4, 2, 4) == 6;
    assert Xor(9, 4, 5) == 13;
    assert Xor(19, 8, 6) == 27;
    assert Xor(38, 16, 7) == 54;
  }

  lemma HelloL2()
    ensures MaskByte(0x51, 0x3d) == 108
  {
    assert Xor(1, 0, 2) == 1;
    assert Xor(2, 1, 3) == 3;
    assert Xor(5, 3, 4) == 6;
    assert Xor(10, 7, 5) == 13;
    assert Xor(20, 15, 6) == 27;
    assert Xor(40, 30, 7) == 54;
  }

  lemma HelloO()
    ensures MaskByte(0x58, 0x37) == 111
  {
    assert Xor(1, 0, 2) == 1;
    assert Xor(2, 1, 3) == 3;
    assert Xor(5, 3, 4) == 6;
    assert Xor(11, 6, 5) == 13;
    assert Xor(22, 13, 6) == 27;
    assert Xor(44, 27, 7) == 55;
  }

  /** The masked "Hello" of section 5.7 of RFC 6455. */
  lemma MaskedHello()
    ensures Masked([0x7F, 0x9F, 0x4D, 0x51, 0x58], [0x37, 0xFA, 0x21, 0x3D]) == Ascii("Hello")
  {
    hide MaskByte;
    HelloH();
    HelloE();
    HelloL();
    HelloL2();
    HelloO();
  }

  /** Read as a binary frame. */
  lemma MaskedHelloRead()
    ensures TakeBinaryFrame([0x82, 0x85, 0x37, 0xFA, 0x21, 0x3D, 0x7F, 0x9F, 0x4D, 0x51, 0x58]) ==
            Ok((Ascii("Hello"), []))
  {
    hide Masked, Ascii;
    MaskedHello();
    var stream: Bytes := [0x82, 0x85, 0x37, 0xFA, 0x21, 0x3D, 0x7F, 0x9F, 0x4D, 0x51, 0x58];
    assert stream[2..6] == [0x37, 0xFA, 0x21, 0x3D];
    assert stream[6..11] == [0x7F, 0x9F, 0x4D, 0x51, 0x58];
    assert stream[11..] == [];
  }

  /** The headers of the binary examples there: 256 bytes and 64 KiB, unmasked. */
  lemma HeaderExamples()
    ensures Header(256, false) == [0x82, 0x7E, 0x01, 0x00]
    ensures Header(0x1_0000, false) == [0x82, 0x7F, 0, 0, 0, 0, 0, 1, 0, 0]
  {
    assert BigEndian(256, 2) == [1, 0];
    var three := BigEndian(1, 6);
    assert BigEndian(0, 5) == [0, 0, 0, 0, 0] by {
      assert BigEndian(0, 1) == [0];
      assert BigEndian(0, 2) == [0, 0];
      assert BigEndian(0, 3) == [0, 0, 0];
      assert BigEndian(0, 4) == [0, 0, 0, 0];
    }
    assert three == [0, 0, 0, 0, 0, 1];
    assert BigEndian(256, 7) == [0, 0, 0, 0, 0, 1, 0];
  }

  /** A written frame is read whole and unmasked, in all three length bands, masked or not. */
  lemma TakeAfterWrite(payload: Bytes, mask: Option<MaskKey>, rest: Bytes)
    requires |payload| < U64_LIMIT
    ensures TakeBinaryFrame(BinaryFrame(payload, mask) + rest) == Ok((payload, rest))
  {
    hide Announced, Header, Masked;
    var frame := BinaryFrame(payload, mask);
    var stream := frame + rest;
    var header := Header(|payload|, mask.Some?);
    HeaderAnnounces(|payload|, mask.Some?, frame[|header|..] + rest);
    assert stream == header + (frame[|header|..] + rest);
    ConcatSplit(frame, rest);
    match mask
    case None =>
      assert stream[|header|..|header| + |payload|] == payload;
    case Some(key) =>
      var at := |header| + 4;
      assert stream[|header|..at] == key;
      assert stream[at..at + |payload|] == Masked(payload, key);
      MaskedTwice(payload, key);
  }

  /** A message as the WebSocket transport sees it. */
  datatype Message = Message(data: Bytes, more: bool)

  /** `send_ws_frame`: the message as a version-3 ZMTP frame inside a binary frame. */
  function Send(m: Message, mask: Option<MaskKey>): Bytes {
    BinaryFrame(ZmtpFrame.Encode(ZmtpFrame.Frame(m.data, m.more, false)), mask)
  }

  /** `recv_ws_frame`. */
  function Recv(stream: Bytes): (r: Result<(Message, Bytes)>)
    ensures r.Ok? ==> |r.value.1| < |stream|
  {
    var (payload, rest) :- TakeBinaryFrame(stream);
    var frame :- ZmtpFrame.Decode(payload);
    Ok((Message(frame.body, frame.more), rest))
  }

  function SendAll(ms: seq<Message>, masks: seq<Option<MaskKey>>): Bytes
    requires |ms| == |masks|
  {
    if ms == [] then [] else Send(ms[0], masks[0]) + SendAll(ms[1..], masks[1..])
  }

  function RecvAll(stream: Bytes): Result<seq<Message>>
    decreases |stream|
  {
    if stream == [] then Ok([]) else
      var (m, rest) :- Recv(stream);
      var ms :- RecvAll(rest);
      Ok([m] + ms)
  }

  lemma RecvAfterSend(m: Message, mask: Option<MaskKey>, rest: Bytes)
    requires |m.data| + 9 < U64_LIMIT
    ensures Recv(Send(m, mask) + rest) == Ok((m, rest))
    ensures Send(m, mask) != []
  {
    hide TakeBinaryFrame, BinaryFrame, ZmtpFrame.Decode;
    var frame := ZmtpFrame.Frame(m.data, m.more, false);
    TakeAfterWrite(ZmtpFrame.Encode(frame), mask, rest);
    ZmtpFrame.DecodeAfterEncode(frame, true);
    TakeAfterWrite(ZmtpFrame.Encode(frame), mask, []);
    ConcatEmpty(Send(m, mask));
    assert |TakeBinaryFrame(Send(m, mask)).value.1| < |Send(m, mask)|;
  }

  /** Any sequence of messages, each masked with its own key or not at all, reads back as the
      original sequence. */
  lemma {:induction false} MessagesRoundTrip(ms: seq<Message>, masks: seq<Option<MaskKey>>)
    requires |ms| == |masks|
    requires forall i :: 0 <= i < |ms| ==> |ms[i].data| + 9 < U64_LIMIT
    ensures RecvAll(SendAll(ms, masks)) == Ok(ms)
  {
    hide Recv, Send;
    if ms != [] {
      MessagesRoundTrip(ms[1..], masks[1..]);
      RecvAfterSend(ms[0], masks[0], SendAll(ms[1..], masks[1..]));
      assert ms == [ms[0]] + ms[1..];
    }
  }
}
