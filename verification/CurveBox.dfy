/** The building blocks of CURVE in socket.rs (ZeroMQ RFC 26/CurveZMQ): boxes, nonces, command bodies
    and the metadata they carry. */
module CurveBox {
  import opened Common
  import opened SocketTypes
  import Metadata
  import Utf8
  import Z85
  import ZmtpFrame

  /** The primitives, as parameters: public key of a secret, box key of a (public, secret) pair, and
      sealing and opening under a key and nonce. */
  datatype Crypto = Crypto(
    public: Bytes -> Bytes,
    shared: (Bytes, Bytes) -> Bytes,
    seal: (Bytes, Bytes, Bytes) -> Bytes,
    open: (Bytes, Bytes, Bytes) -> Option<Bytes>)

  /** What the handshake needs of them: keys have 32 bytes, the two sides of a key exchange agree, a box
      adds 16 bytes, and what was sealed opens under the same key and nonce. */
  ghost predicate Ideal(c: Crypto) {
    && (forall s :: |s| == 32 ==> |c.public(s)| == 32)
    && (forall a, b :: |a| == 32 && |b| == 32 ==> c.shared(c.public(a), b) == c.shared(c.public(b), a))
    && (forall k, n, p :: |c.seal(k, n, p)| == |p| + 16)
    && (forall k, n, p :: c.open(k, n, c.seal(k, n, p)) == Some(p))
  }

  /** Nothing opens except what was sealed under the same key and nonce. */
  ghost predicate Tight(c: Crypto) {
    Ideal(c) && forall k, n, x :: c.open(k, n, x).Some? ==> x == c.seal(k, n, c.open(k, n, x).value)
  }

  /** Boxes sealed under `k` do not open under `k'`. Boxes of 16 extra bytes cannot have this for all pairs
      of keys, so it is asked only of the two keys at hand. */
  ghost predicate Foreign(c: Crypto, k: Bytes, k': Bytes) {
    forall nonce, plaintext :: c.open(k', nonce, c.seal(k, nonce, plaintext)).None?
  }

  function AddBytes(a: Bytes, b: Bytes): (r: Bytes)
    ensures |r| == Min(|a|, |b|)
  {
    seq(Min(|a|, |b|), i requires 0 <= i < |a| && i < |b| => ((a[i] as int + b[i] as int) % 256) as byte)
  }

  /** Sixteen bytes that start with the first byte of the key. */
  function Tag(k: Bytes): (t: Bytes)
    ensures |t| == 16 && t[0] == if k == [] then 0 else k[0]
  {
    [if k == [] then 0 else k[0]] + seq(15, _ => 0)
  }

  function Untag(k: Bytes, x: Bytes): Option<Bytes> {
    if |x| < 16 || x[..16] != Tag(k) then None else Some(x[16..])
  }

  lemma UntagTag(k: Bytes, k': Bytes, p: Bytes)
    ensures Untag(k', Tag(k) + p) == if Tag(k) == Tag(k') then Some(p) else None
  {
    ConcatSplit(Tag(k), p);
  }

  /** The laws can be met, and by boxes that tell keys apart. */
  lemma IdealExists() returns (c: Crypto)
    ensures Tight(c)
    ensures forall k, k' :: |k| > 0 && |k'| > 0 && k[0] != k'[0] ==> Foreign(c, k, k')
    ensures forall s :: c.public(s) == s
    ensures forall a, b :: c.shared(a, b) == AddBytes(a, b)
  {
    c := Crypto(
      (s: Bytes) => s,
      (p: Bytes, s: Bytes) => AddBytes(p, s),
      (k: Bytes, n: Bytes, p: Bytes) => Tag(k) + p,
      (k: Bytes, n: Bytes, x: Bytes) => Untag(k, x));
    assert forall a, b :: AddBytes(a, b) == AddBytes(b, a);
    forall k, k', p ensures Untag(k', Tag(k) + p) == if Tag(k) == Tag(k') then Some(p) else None {
      UntagTag(k, k', p);
    }
    forall k, x | Untag(k, x).Some? ensures x == Tag(k) + Untag(k, x).value {
      SplitConcat(x, 16);
    }
  }

  // Nonce prefixes and command names.

  const HELLO_NONCE: Bytes := [67, 117, 114, 118, 101, 90, 77, 81, 72, 69, 76, 76, 79, 45, 45, 45]  // CurveZMQHELLO---
  // CurveZMQINITIATE
  const INITIATE_NONCE: Bytes := [67, 117, 114, 118, 101, 90, 77, 81, 73, 78, 73, 84, 73, 65, 84, 69]
  const READY_NONCE: Bytes := [67, 117, 114, 118, 101, 90, 77, 81, 82, 69, 65, 68, 89, 45, 45, 45]  // CurveZMQREADY---
  // CurveZMQMESSAGEC
  const MESSAGE_C_NONCE: Bytes := [67, 117, 114, 118, 101, 90, 77, 81, 77, 69, 83, 83, 65, 71, 69, 67]
  // CurveZMQMESSAGES
  const MESSAGE_S_NONCE: Bytes := [67, 117, 114, 118, 101, 90, 77, 81, 77, 69, 83, 83, 65, 71, 69, 83]
  const WELCOME_NONCE: Bytes := [87, 69, 76, 67, 79, 77, 69, 45]  // WELCOME-
  const COOKIE_NONCE: Bytes := [67, 79, 79, 75, 73, 69, 45, 45]  // COOKIE--
  const VOUCH_NONCE: Bytes := [86, 79, 85, 67, 72, 45, 45, 45]  // VOUCH---
  const HELLO: Bytes := [72, 69, 76, 76, 79]  // HELLO
  const WELCOME: Bytes := [87, 69, 76, 67, 79, 77, 69]  // WELCOME
  const INITIATE: Bytes := [73, 78, 73, 84, 73, 65, 84, 69]  // INITIATE
  const READY: Bytes := [82, 69, 65, 68, 89]  // READY
  const MESSAGE: Bytes := [77, 69, 83, 83, 65, 71, 69]  // MESSAGE

  /** `curve_nonce`: a 16-byte prefix and a counter. */
  function ShortNonce(prefix: Bytes, counter: nat): Bytes {
    prefix + BigEndian(counter, 8)
  }

  /** `curve_long_nonce`: an 8-byte prefix and 16 random bytes. */
  function LongNonce(prefix: Bytes, tail: Bytes): Bytes {
    prefix + tail
  }

  /** `saturating_add(1)` on a 64-bit counter. */
  function NextNonce(n: nat): nat {
    if n < U64_MAX then n + 1 else n
  }

  /** `command_body`. */
  function CommandBody(name: Bytes, tail: Bytes): Bytes
    requires |name| <= 255
  {
    [|name| as byte] + name + tail
  }

  /** `command_tail_body`. */
  function CommandTailBody(body: Bytes, expected: Bytes): Result<Bytes> {
    if body == [] then Err(InvalidArgument)
    else
      var nameLen := body[0] as nat;
      if |body| < 1 + nameLen || body[1..1 + nameLen] != expected then Err(InvalidArgument)
      else Ok(body[1 + nameLen..])
  }

  /** `command_tail`. */
  function CommandTail(frame: ZmtpFrame.Frame, expected: Bytes): Result<Bytes> {
    if !frame.command then Err(InvalidArgument) else CommandTailBody(frame.body, expected)
  }

  function CommandFrame(body: Bytes): ZmtpFrame.Frame {
    ZmtpFrame.Frame(body, false, true)
  }

  lemma CommandRoundTrip(name: Bytes, tail: Bytes)
    requires |name| <= 255
    ensures CommandTailBody(CommandBody(name, tail), name) == Ok(tail)
    ensures CommandTail(CommandFrame(CommandBody(name, tail)), name) == Ok(tail)
  {
    var body := CommandBody(name, tail);
    assert body[1..1 + |name|] == name;
    assert body[1 + |name|..] == tail;
  }

  /** `curve_option_key`: 32 raw bytes, or 40 characters of Z85. Text that is not UTF-8 is refused by
      the Z85 decoder as well, since the alphabet is ASCII. */
  function OptionKey(value: Bytes): (r: Result<Bytes>)
    ensures r.Ok? ==> |r.value| == 32
  {
    var bytes :- if |value| == 40 then Z85.DecodeText(value) else Ok(value);
    if |bytes| != 32 then Err(InvalidArgument) else Ok(bytes)
  }

  /** A key option names the same key in raw form and in Z85. */
  lemma OptionKeyForms(key: Bytes)
    requires |key| == 32
    ensures OptionKey(key) == Ok(key) && OptionKey(Z85.EncodeText(key)) == Ok(key)
  {
    hide Z85.EncodeText, Z85.DecodeText;
    Z85.EncodedLength(key);
    Z85.DecodeAfterEncode(key);
  }

  /** `socket_type_name`; types without a name of their own present themselves as PAIR. */
  function TypeName(t: SocketType): Bytes {
    match t
    case Pair => [80, 65, 73, 82]  // PAIR
    case Pull => [80, 85, 76, 76]  // PULL
    case Push => [80, 85, 83, 72]  // PUSH
    case Req => [82, 69, 81]  // REQ
    case Rep => [82, 69, 80]  // REP
    case Dealer => [68, 69, 65, 76, 69, 82]  // DEALER
    case Router => [82, 79, 85, 84, 69, 82]  // ROUTER
    case Server => [83, 69, 82, 86, 69, 82]  // SERVER
    case Client => [67, 76, 73, 69, 78, 84]  // CLIENT
    case Peer => [80, 69, 69, 82]  // PEER
    case Dgram => [68, 71, 82, 65, 77]  // DGRAM
    case Pub => [80, 85, 66]  // PUB
    case Sub => [83, 85, 66]  // SUB
    case Channel => [67, 72, 65, 78, 78, 69, 76]  // CHANNEL
    case Scatter => [83, 67, 65, 84, 84, 69, 82]  // SCATTER
    case Gather => [71, 65, 84, 72, 69, 82]  // GATHER
    case Radio => [82, 65, 68, 73, 79]  // RADIO
    case Dish => [68, 73, 83, 72]  // DISH
    case _ => [80, 65, 73, 82]  // PAIR
  }

  /** The type as a peer sees it. */
  function Presented(t: SocketType): SocketType {
    if t == Xpub || t == Xsub || t == Stream then Pair else t
  }

  /** The type that a name stands for, told from its length, first and third byte. */
  function Named(length: nat, first: byte, third: byte): SocketType {
    if length == 3 then
      if first == 80 then Pub else if first == 83 then Sub else if third == 81 then Req else Rep
    else if length == 4 then
      if first == 68 then Dish
      else if third == 73 then Pair else if third == 76 then Pull else if third == 83 then Push else Peer
    else if length == 5 then
      if first == 68 then Dgram else Radio
    else if length == 6 then
      if first == 68 then Dealer
      else if first == 82 then Router
      else if first == 83 then Server else if first == 67 then Client else Gather
    else
      if first == 67 then Channel else Scatter
  }

  lemma NameTellsType(t: SocketType)
    ensures |TypeName(t)| >= 3 && Named(|TypeName(t)|, TypeName(t)[0], TypeName(t)[2]) == Presented(t)
    ensures TypeName(t) == TypeName(Presented(t))
  {
  }

  /** Two types have the same name exactly when they are the same or both present themselves as PAIR;
      that is all a peer can tell from the metadata. */
  lemma TypeNameTellsApart(a: SocketType, b: SocketType)
    ensures TypeName(a) == TypeName(b) <==> a == b || {a, b} <= {Pair, Xpub, Xsub, Stream}
    ensures SocketMetadata(a, []) == SocketMetadata(b, []) <==> TypeName(a) == TypeName(b)
  {
    hide TypeName, Named;
    NameTellsType(a);
    NameTellsType(b);
    assert TypeName(a) == TypeName(b) <==> Presented(a) == Presented(b);
    assert SocketMetadata(a, [])[0] == Metadata.Property(SOCKET_TYPE, TypeName(a));
    assert SocketMetadata(b, [])[0] == Metadata.Property(SOCKET_TYPE, TypeName(b));
  }

  const SOCKET_TYPE: Bytes := [83, 111, 99, 107, 101, 116, 45, 84, 121, 112, 101]  // Socket-Type
  const IDENTITY: Bytes := [73, 100, 101, 110, 116, 105, 116, 121]  // Identity

  /** `socket_type_metadata_with_identity`, as a list. */
  function SocketMetadata(t: SocketType, identity: Bytes): seq<Metadata.Property> {
    [Metadata.Property(SOCKET_TYPE, TypeName(t))] +
    if identity == [] then [] else [Metadata.Property(IDENTITY, identity)]
  }

  lemma SocketMetadataFits(t: SocketType, identity: Bytes)
    requires |identity| < U32_LIMIT
    ensures Metadata.AllFit(SocketMetadata(t, identity)) && Metadata.NamesAreText(SocketMetadata(t, identity))
  {
    NamesFit();
    TypeNameShort(t);
    hide TypeName, Utf8.Valid;
    var ps := SocketMetadata(t, identity);
    assert ps[0] == Metadata.Property(SOCKET_TYPE, TypeName(t));
    assert |ps| > 1 ==> ps[1] == Metadata.Property(IDENTITY, identity);
  }

  lemma NamesFit()
    ensures Utf8.Valid(SOCKET_TYPE) && |SOCKET_TYPE| <= 255
    ensures Utf8.Valid(IDENTITY) && |IDENTITY| <= 255
  {
    hide Utf8.Valid;
    AsciiIsText(SOCKET_TYPE);
    AsciiIsText(IDENTITY);
  }

  lemma TypeNameShort(t: SocketType)
    ensures |TypeName(t)| <= 7
  {
  }

  lemma AsciiIsText(a: Bytes)
    requires forall i :: 0 <= i < |a| ==> a[i] < 0x80
    ensures Utf8.Valid(a)
  {
    Utf8.AsciiPrefix(a, []);
    ConcatEmpty(a);
  }

  /** What a peer reads from the metadata is what was written. */
  lemma MetadataRoundTrip(t: SocketType, identity: Bytes)
    requires |identity| < U32_LIMIT
    ensures Metadata.DecodeProperties(Metadata.EncodeProperties(SocketMetadata(t, identity))) ==
            Ok(SocketMetadata(t, identity))
  {
    hide SocketMetadata, Metadata.DecodeProperties, Metadata.EncodeProperties;
    SocketMetadataFits(t, identity);
    Metadata.DecodeAfterEncode(SocketMetadata(t, identity));
  }
}
