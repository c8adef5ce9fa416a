/** The four CURVE commands: what each side writes and what the other side reads. Random values are
    parameters. */
module CurveCommands {
  import opened Common
  import opened CurveBox
  import Metadata
  import ZmtpFrame

  datatype ClientKeys = ClientKeys(
    publicKey: Bytes, secretKey: Bytes, serverKey: Bytes, transientSecret: Bytes, transientPublic: Bytes)

  datatype ServerKeys = ServerKeys(
    publicKey: Bytes, secretKey: Bytes, transientSecret: Bytes, transientPublic: Bytes,
    clientTransientPublic: Bytes, cookieKey: Bytes)

  function Zeros(n: nat): Bytes {
    seq(n, _ => 0)
  }

  // HELLO

  function HelloTail(transientPublic: Bytes, counter: nat, signature: Bytes): Bytes {
    [1, 0] + Zeros(72) + transientPublic + BigEndian(counter, 8) + signature
  }

  function HelloSignature(c: Crypto, k: ClientKeys, counter: nat): Bytes {
    c.seal(c.shared(k.serverKey, k.transientSecret), ShortNonce(HELLO_NONCE, counter), Zeros(64))
  }

  /** `hello_body`. */
  function WriteHello(c: Crypto, k: ClientKeys, counter: nat): Result<Bytes> {
    var signature := HelloSignature(c, k, counter);
    if |signature| != 80 then Err(InvalidArgument)
    else Ok(CommandBody(HELLO, HelloTail(k.transientPublic, counter, signature)))
  }

  /** `parse_curve_hello`: the client's transient key and its counter. */
  function ReadHello(c: Crypto, frame: ZmtpFrame.Frame, secretKey: Bytes): Result<(Bytes, nat)> {
    var tail :- CommandTail(frame, HELLO);
    if |tail| != 194 || tail[..2] != [1, 0] then Err(InvalidArgument)
    else
      var clientTransientPublic, counter := tail[74..106], FromBigEndian(tail[106..114]);
      var boxKey := c.shared(clientTransientPublic, secretKey);
      var plaintext := c.open(boxKey, ShortNonce(HELLO_NONCE, counter), tail[114..194]);
      if plaintext != Some(Zeros(64)) then Err(InvalidArgument) else Ok((clientTransientPublic, counter))
  }

  // WELCOME

  function Cookie(c: Crypto, k: ServerKeys, cookieTail: Bytes): Bytes {
    cookieTail + c.seal(k.cookieKey, LongNonce(COOKIE_NONCE, cookieTail), k.clientTransientPublic + k.transientSecret)
  }

  function WelcomeBox(c: Crypto, k: ServerKeys, cookie: Bytes, welcomeTail: Bytes): Bytes {
    c.seal(c.shared(k.clientTransientPublic, k.secretKey), LongNonce(WELCOME_NONCE, welcomeTail),
           k.transientPublic + cookie)
  }

  /** `curve_welcome_body`. */
  function WriteWelcome(c: Crypto, k: ServerKeys, cookieTail: Bytes, welcomeTail: Bytes): Result<Bytes> {
    var cookie := Cookie(c, k, cookieTail);
    if |cookie| != |cookieTail| + 80 then Err(InvalidArgument)
    else
      var box := WelcomeBox(c, k, cookie, welcomeTail);
      if |box| != 144 then Err(InvalidArgument) else Ok(CommandBody(WELCOME, welcomeTail + box))
  }

  /** `process_welcome`: the server's transient key and the cookie. */
  function ReadWelcome(c: Crypto, frame: ZmtpFrame.Frame, k: ClientKeys): Result<(Bytes, Bytes)> {
    var tail :- CommandTail(frame, WELCOME);
    if |tail| != 160 then Err(InvalidArgument)
    else
      match c.open(c.shared(k.serverKey, k.transientSecret), LongNonce(WELCOME_NONCE, tail[..16]), tail[16..])
      case None => Err(InvalidArgument)
      case Some(plaintext) =>
        if |plaintext| != 128 then Err(InvalidArgument) else Ok((plaintext[..32], plaintext[32..128]))
  }

  // INITIATE

  function Vouch(c: Crypto, k: ClientKeys, serverTransientPublic: Bytes, vouchTail: Bytes): Bytes {
    c.seal(c.shared(serverTransientPublic, k.secretKey), LongNonce(VOUCH_NONCE, vouchTail),
           k.transientPublic + k.serverKey)
  }

  function InitiatePlaintext(publicKey: Bytes, vouchTail: Bytes, vouch: Bytes, metadata: Bytes): Bytes {
    publicKey + vouchTail + vouch + metadata
  }

  /** `initiate_body`. */
  function WriteInitiate(c: Crypto, k: ClientKeys, serverTransientPublic: Bytes, cookie: Bytes, vouchTail: Bytes,
                         counter: nat, metadata: Bytes): Result<Bytes> {
    var vouch := Vouch(c, k, serverTransientPublic, vouchTail);
    if |vouch| != 80 then Err(InvalidArgument)
    else
      var box := c.seal(c.shared(serverTransientPublic, k.transientSecret), ShortNonce(INITIATE_NONCE, counter),
                        InitiatePlaintext(k.publicKey, vouchTail, vouch, metadata));
      Ok(CommandBody(INITIATE, cookie + BigEndian(counter, 8) + box))
  }

  /** The cookie check of `parse_curve_initiate`. */
  predicate CookieAccepted(c: Crypto, k: ServerKeys, cookie: Bytes)
    requires |cookie| == 96
  {
    c.open(k.cookieKey, LongNonce(COOKIE_NONCE, cookie[..16]), cookie[16..]) ==
    Some(k.clientTransientPublic + k.transientSecret)
  }

  /** The inside of the INITIATE box: the client's long-term key, vouched for, and its metadata. */
  function ReadInitiatePlaintext(c: Crypto, k: ServerKeys, plaintext: Bytes): Result<(Bytes, seq<Metadata.Property>)> {
    if |plaintext| < 128 then Err(InvalidArgument)
    else
      var clientKey := plaintext[..32];
      var boxKey := c.shared(clientKey, k.transientSecret);
      var vouch := c.open(boxKey, LongNonce(VOUCH_NONCE, plaintext[32..48]), plaintext[48..128]);
      if vouch != Some(k.clientTransientPublic + k.publicKey) then Err(InvalidArgument)
      else
        var metadata :- Metadata.DecodeProperties(plaintext[128..]);
        Ok((clientKey, metadata))
  }

  /** `parse_curve_initiate`: the remembered counter, and the client's key and metadata. The counter is
      remembered before the box is opened. */
  function ReadInitiate(c: Crypto, k: ServerKeys, frame: ZmtpFrame.Frame, peerNonce: nat)
    : (nat, Result<(Bytes, seq<Metadata.Property>)>) {
    match CommandTail(frame, INITIATE)
    case Err(e) => (peerNonce, Err(e))
    case Ok(tail) =>
      if |tail| < 248 || !CookieAccepted(c, k, tail[..96]) then (peerNonce, Err(InvalidArgument))
      else
        var counter := FromBigEndian(tail[96..104]);
        if counter <= peerNonce then (peerNonce, Err(InvalidArgument))
        else
          var boxKey := c.shared(k.clientTransientPublic, k.transientSecret);
          match c.open(boxKey, ShortNonce(INITIATE_NONCE, counter), tail[104..])
          case None => (counter, Err(InvalidArgument))
          case Some(plaintext) => (counter, ReadInitiatePlaintext(c, k, plaintext))
  }

  // READY

  /** `curve_ready_body`. */
  function WriteReady(c: Crypto, key: Bytes, counter: nat, metadata: Bytes): Bytes {
    CommandBody(READY, BigEndian(counter, 8) + c.seal(key, ShortNonce(READY_NONCE, counter), metadata))
  }

  /** `process_ready`, once the server's transient key is known. */
  function ReadReady(c: Crypto, frame: ZmtpFrame.Frame, key: Bytes, recvNonce: nat)
    : (nat, Result<seq<Metadata.Property>>) {
    match CommandTail(frame, READY)
    case Err(e) => (recvNonce, Err(e))
    case Ok(tail) =>
      if |tail| < 24 then (recvNonce, Err(InvalidArgument))
      else
        var counter := FromBigEndian(tail[..8]);
        if counter <= recvNonce then (recvNonce, Err(InvalidArgument))
        else
          match c.open(key, ShortNonce(READY_NONCE, counter), tail[8..])
          case None => (counter, Err(InvalidArgument))
          case Some(plaintext) => (counter, Metadata.DecodeProperties(plaintext))
  }

  // Each command is read as it was written.

  /** The client knows the server, and the server has the client's transient key. The client's long-term
      public key may be anything of the right length. */
  ghost predicate Acquainted(c: Crypto, k: ClientKeys, s: ServerKeys) {
    && Ideal(c)
    && |k.secretKey| == 32 && |k.transientSecret| == 32 && |s.secretKey| == 32 && |s.transientSecret| == 32
    && |k.publicKey| == 32 && k.transientPublic == c.public(k.transientSecret)
    && s.publicKey == c.public(s.secretKey) && s.transientPublic == c.public(s.transientSecret)
    && k.serverKey == s.publicKey && s.clientTransientPublic == k.transientPublic
  }

  /** The key material of the two sides belongs together. */
  ghost predicate Matching(c: Crypto, k: ClientKeys, s: ServerKeys) {
    Acquainted(c, k, s) && k.publicKey == c.public(k.secretKey)
  }

  lemma HelloFields(transientPublic: Bytes, counter: nat, signature: Bytes)
    requires |transientPublic| == 32 && |signature| == 80 && counter < U64_LIMIT
    ensures var t := HelloTail(transientPublic, counter, signature);
            && |t| == 194 && t[..2] == [1, 0] && t[74..106] == transientPublic
            && FromBigEndian(t[106..114]) == counter && t[114..194] == signature
  {
    hide BigEndian, FromBigEndian;
    FieldLimits();
    BigEndianRead(counter, 8);
    var t := HelloTail(transientPublic, counter, signature);
    assert t[106..114] == BigEndian(counter, 8);
  }

  lemma HelloIsRead(c: Crypto, k: ClientKeys, secretKey: Bytes, counter: nat)
    requires Ideal(c) && |k.transientSecret| == 32 && |secretKey| == 32 && counter < U64_LIMIT
    requires k.transientPublic == c.public(k.transientSecret) && k.serverKey == c.public(secretKey)
    ensures WriteHello(c, k, counter).Ok?
    ensures ReadHello(c, CommandFrame(WriteHello(c, k, counter).value), secretKey) == Ok((k.transientPublic, counter))
  {
    hide HelloTail, CommandBody, CommandTail, ShortNonce, FromBigEndian;
    var signature := HelloSignature(c, k, counter);
    HelloFields(k.transientPublic, counter, signature);
    CommandRoundTrip(HELLO, HelloTail(k.transientPublic, counter, signature));
  }

  lemma WelcomeIsRead(c: Crypto, k: ClientKeys, s: ServerKeys, cookieTail: Bytes, welcomeTail: Bytes)
    requires Acquainted(c, k, s) && |cookieTail| == 16 && |welcomeTail| == 16
    ensures WriteWelcome(c, s, cookieTail, welcomeTail).Ok?
    ensures ReadWelcome(c, CommandFrame(WriteWelcome(c, s, cookieTail, welcomeTail).value), k) ==
            Ok((s.transientPublic, Cookie(c, s, cookieTail)))
  {
    hide CommandBody, CommandTail, LongNonce;
    var cookie := Cookie(c, s, cookieTail);
    var box := WelcomeBox(c, s, cookie, welcomeTail);
    CommandRoundTrip(WELCOME, welcomeTail + box);
    ConcatSplit(welcomeTail, box);
    ConcatSplit(s.transientPublic, cookie);
    assert (s.transientPublic + cookie)[32..128] == (s.transientPublic + cookie)[32..];
  }

  lemma CookieIsAccepted(c: Crypto, k: ServerKeys, cookieTail: Bytes)
    requires Ideal(c) && |cookieTail| == 16 && |k.clientTransientPublic| == 32 && |k.transientSecret| == 32
    ensures |Cookie(c, k, cookieTail)| == 96 && CookieAccepted(c, k, Cookie(c, k, cookieTail))
  {
    hide LongNonce;
    ConcatSplit(cookieTail,
                c.seal(k.cookieKey, LongNonce(COOKIE_NONCE, cookieTail), k.clientTransientPublic + k.transientSecret));
  }

  lemma InitiatePlaintextIsRead(c: Crypto, k: ClientKeys, s: ServerKeys, vouchTail: Bytes, metadata: Bytes)
    requires Matching(c, k, s) && |vouchTail| == 16
    ensures var vouch := Vouch(c, k, s.transientPublic, vouchTail);
            && |vouch| == 80
            && |InitiatePlaintext(k.publicKey, vouchTail, vouch, metadata)| == 128 + |metadata|
            && ReadInitiatePlaintext(c, s, InitiatePlaintext(k.publicKey, vouchTail, vouch, metadata)) ==
               match Metadata.DecodeProperties(metadata)
               case Ok(ps) => Ok((k.publicKey, ps))
               case Err(e) => Err(e)
  {
    hide LongNonce, Metadata.DecodeProperties;
    var vouch := Vouch(c, k, s.transientPublic, vouchTail);
    var p := InitiatePlaintext(k.publicKey, vouchTail, vouch, metadata);
    assert p[..32] == k.publicKey && p[32..48] == vouchTail && p[48..128] == vouch && p[128..] == metadata;
  }

  lemma InitiateFields(cookie: Bytes, counter: nat, box: Bytes)
    requires |cookie| == 96 && counter < U64_LIMIT
    ensures var t := cookie + BigEndian(counter, 8) + box;
            t[..96] == cookie && FromBigEndian(t[96..104]) == counter && t[104..] == box
  {
    hide BigEndian, FromBigEndian;
    FieldLimits();
    BigEndianRead(counter, 8);
    var t := cookie + BigEndian(counter, 8) + box;
    assert t[96..104] == BigEndian(counter, 8);
    assert t[..96] == cookie && t[104..] == box;
  }

  lemma InitiateIsRead(c: Crypto, k: ClientKeys, s: ServerKeys, cookieTail: Bytes, vouchTail: Bytes,
                       counter: nat, peerNonce: nat, metadata: Bytes)
    requires Matching(c, k, s) && |cookieTail| == 16 && |vouchTail| == 16 && peerNonce < counter < U64_LIMIT
    requires Metadata.DecodeProperties(metadata).Ok?
    ensures var cookie := Cookie(c, s, cookieTail);
            var written := WriteInitiate(c, k, s.transientPublic, cookie, vouchTail, counter, metadata);
            && written.Ok?
            && ReadInitiate(c, s, CommandFrame(written.value), peerNonce) ==
               (counter, Ok((k.publicKey, Metadata.DecodeProperties(metadata).value)))
  {
    hide Cookie, CookieAccepted, CommandBody, CommandTail, ShortNonce, InitiatePlaintext, ReadInitiatePlaintext,
      Metadata.DecodeProperties, BigEndian, FromBigEndian, Vouch;
    var cookie := Cookie(c, s, cookieTail);
    CookieIsAccepted(c, s, cookieTail);
    InitiatePlaintextIsRead(c, k, s, vouchTail, metadata);
    var vouch := Vouch(c, k, s.transientPublic, vouchTail);
    var box := c.seal(c.shared(s.transientPublic, k.transientSecret), ShortNonce(INITIATE_NONCE, counter),
                      InitiatePlaintext(k.publicKey, vouchTail, vouch, metadata));
    InitiateFields(cookie, counter, box);
    CommandRoundTrip(INITIATE, cookie + BigEndian(counter, 8) + box);
  }

  lemma ReadyIsRead(c: Crypto, key: Bytes, counter: nat, recvNonce: nat, metadata: Bytes)
    requires Ideal(c) && recvNonce < counter < U64_LIMIT
    ensures ReadReady(c, CommandFrame(WriteReady(c, key, counter, metadata)), key, recvNonce) ==
            (counter, Metadata.DecodeProperties(metadata))
  {
    hide CommandBody, CommandTail, ShortNonce, BigEndian, FromBigEndian, Metadata.DecodeProperties;
    var box := c.seal(key, ShortNonce(READY_NONCE, counter), metadata);
    FieldLimits();
    BigEndianRead(counter, 8);
    ConcatSplit(BigEndian(counter, 8), box);
    CommandRoundTrip(READY, BigEndian(counter, 8) + box);
  }

  // Wrong keys are refused.

  /** A server whose public key is not the one the client was given refuses its HELLO. */
  lemma WrongServerRefuses(c: Crypto, k: ClientKeys, secretKey: Bytes, counter: nat)
    requires Ideal(c) && |k.transientPublic| == 32 && counter < U64_LIMIT
    requires Foreign(c, c.shared(k.serverKey, k.transientSecret), c.shared(k.transientPublic, secretKey))
    ensures WriteHello(c, k, counter).Ok?
    ensures ReadHello(c, CommandFrame(WriteHello(c, k, counter).value), secretKey) == Err(InvalidArgument)
  {
    hide HelloTail, CommandBody, CommandTail, ShortNonce, FromBigEndian;
    var signature := HelloSignature(c, k, counter);
    HelloFields(k.transientPublic, counter, signature);
    CommandRoundTrip(HELLO, HelloTail(k.transientPublic, counter, signature));
  }

  lemma InitiateSize(c: Crypto, k: ClientKeys, s: ServerKeys, vouchTail: Bytes, metadata: Bytes)
    requires Acquainted(c, k, s) && |vouchTail| == 16
    ensures var vouch := Vouch(c, k, s.transientPublic, vouchTail);
            |vouch| == 80 && |InitiatePlaintext(k.publicKey, vouchTail, vouch, metadata)| == 128 + |metadata|
  {
    hide LongNonce;
  }

  /** A vouch made with another secret than that of the claimed public key does not open. */
  lemma WrongIdentityInside(c: Crypto, k: ClientKeys, s: ServerKeys, vouchTail: Bytes, metadata: Bytes)
    requires Acquainted(c, k, s) && |vouchTail| == 16
    requires Foreign(c, c.shared(s.transientPublic, k.secretKey), c.shared(k.publicKey, s.transientSecret))
    ensures var vouch := Vouch(c, k, s.transientPublic, vouchTail);
            ReadInitiatePlaintext(c, s, InitiatePlaintext(k.publicKey, vouchTail, vouch, metadata)) ==
            Err(InvalidArgument)
  {
    hide LongNonce, Metadata.DecodeProperties;
    var vouch := Vouch(c, k, s.transientPublic, vouchTail);
    var p := InitiatePlaintext(k.publicKey, vouchTail, vouch, metadata);
    assert p[..32] == k.publicKey && p[32..48] == vouchTail && p[48..128] == vouch;
  }

  /** The server refuses the INITIATE of a client that claims a public key it has no secret for. */
  lemma WrongIdentityRefused(c: Crypto, k: ClientKeys, s: ServerKeys, cookieTail: Bytes, vouchTail: Bytes,
                             counter: nat, peerNonce: nat, metadata: Bytes)
    requires Acquainted(c, k, s) && |cookieTail| == 16 && |vouchTail| == 16 && peerNonce < counter < U64_LIMIT
    requires Foreign(c, c.shared(s.transientPublic, k.secretKey), c.shared(k.publicKey, s.transientSecret))
    ensures var cookie := Cookie(c, s, cookieTail);
            var written := WriteInitiate(c, k, s.transientPublic, cookie, vouchTail, counter, metadata);
            && written.Ok?
            && ReadInitiate(c, s, CommandFrame(written.value), peerNonce) == (counter, Err(InvalidArgument))
  {
    hide Cookie, CookieAccepted, CommandBody, CommandTail, ShortNonce, InitiatePlaintext, ReadInitiatePlaintext,
      Metadata.DecodeProperties, BigEndian, FromBigEndian, Vouch;
    var cookie := Cookie(c, s, cookieTail);
    CookieIsAccepted(c, s, cookieTail);
    InitiateSize(c, k, s, vouchTail, metadata);
    WrongIdentityInside(c, k, s, vouchTail, metadata);
    var vouch := Vouch(c, k, s.transientPublic, vouchTail);
    var box := c.seal(c.shared(s.transientPublic, k.transientSecret), ShortNonce(INITIATE_NONCE, counter),
                      InitiatePlaintext(k.publicKey, vouchTail, vouch, metadata));
    InitiateFields(cookie, counter, box);
    CommandRoundTrip(INITIATE, cookie + BigEndian(counter, 8) + box);
  }
}

/** The two sides of the CURVE handshake as objects, and the handshake as
    `write_curve_handshake_tcp` runs it on both ends of a connection. */
module CurveHandshake {
  import opened Common
  import opened CurveBox
  import opened CurveCommands
  import opened SocketTypes
  import opened Transport
  import CurveSession
  import Metadata
  import ZmtpFrame

  class CurveClient {
    const crypto: Crypto
    const keys: ClientKeys
    var serverTransientPublic: Option<Bytes>
    var cookie: Option<Bytes>
    var sendNonce: nat
    var recvNonce: nat

    constructor (crypto: Crypto, keys: ClientKeys)
      ensures this.crypto == crypto && this.keys == keys
      ensures serverTransientPublic == None && cookie == None && sendNonce == 1 && recvNonce == 0
    {
      this.crypto, this.keys := crypto, keys;
      serverTransientPublic, cookie, sendNonce, recvNonce := None, None, 1, 0;
    }

    method NextSendNonce() returns (nonce: nat)
      modifies this`sendNonce
      ensures nonce == old(sendNonce) && sendNonce == NextNonce(old(sendNonce))
    {
      nonce := sendNonce;
      sendNonce := if sendNonce < U64_MAX then sendNonce + 1 else sendNonce;
    }

    /** `hello_body`: a box of 64 zero bytes for the server, behind version, padding, key and counter. */
    method HelloBody() returns (r: Result<Bytes>)
      modifies this`sendNonce
      ensures sendNonce == NextNonce(old(sendNonce)) && r == WriteHello(crypto, keys, old(sendNonce))
    {
      var counter := NextSendNonce();
      var signature := crypto.seal(crypto.shared(keys.serverKey, keys.transientSecret),
                                   ShortNonce(HELLO_NONCE, counter), Zeros(64));
      if |signature| != 80 { return Err(InvalidArgument); }
      var tail: Bytes := [1, 0];
      tail := tail + Zeros(72);
      tail := tail + keys.transientPublic;
      tail := tail + BigEndian(counter, 8);
      tail := tail + signature;
      r := Ok(CommandBody(HELLO, tail));
    }

    /** `process_welcome`: opens the box and keeps its two parts; a refused frame changes nothing. */
    method ProcessWelcome(frame: ZmtpFrame.Frame) returns (r: Result<()>)
      modifies this`serverTransientPublic, this`cookie
      ensures match ReadWelcome(crypto, frame, keys)
              case Ok((key, c)) => r == Ok(()) && serverTransientPublic == Some(key) && cookie == Some(c)
              case Err(e) =>
                r == Err(e) && serverTransientPublic == old(serverTransientPublic) && cookie == old(cookie)
    {
      var tail := CommandTail(frame, WELCOME);
      if tail.Err? { return Err(InvalidArgument); }
      if |tail.value| != 160 { return Err(InvalidArgument); }
      var nonce := LongNonce(WELCOME_NONCE, tail.value[..16]);
      var plaintext := crypto.open(crypto.shared(keys.serverKey, keys.transientSecret), nonce, tail.value[16..]);
      if plaintext.None? { return Err(InvalidArgument); }
      if |plaintext.value| != 128 { return Err(InvalidArgument); }
      serverTransientPublic := Some(plaintext.value[..32]);
      cookie := Some(plaintext.value[32..128]);
      r := Ok(());
    }

    method InitiateBody(socketType: SocketType, identity: Bytes, vouchTail: Bytes) returns (r: Result<Bytes>)
      modifies this`sendNonce
      ensures serverTransientPublic.None? || cookie.None? ==> r == Err(InvalidArgument) && sendNonce == old(sendNonce)
      ensures serverTransientPublic.Some? && cookie.Some? ==>
                r == WriteInitiate(crypto, keys, serverTransientPublic.value, cookie.value, vouchTail, old(sendNonce),
                                   Metadata.EncodeProperties(SocketMetadata(socketType, identity)))
      ensures sendNonce == if r.Ok? then NextNonce(old(sendNonce)) else old(sendNonce)
    {
      if serverTransientPublic.None? || cookie.None? { return Err(InvalidArgument); }
      var serverKey := serverTransientPublic.value;
      var vouch := crypto.seal(crypto.shared(serverKey, keys.secretKey), LongNonce(VOUCH_NONCE, vouchTail),
                               keys.transientPublic + keys.serverKey);
      if |vouch| != 80 { return Err(InvalidArgument); }
      var metadata := Metadata.Encode(SocketMetadata(socketType, identity));
      var plaintext := keys.publicKey + vouchTail + vouch + metadata;
      var counter := NextSendNonce();
      var box := crypto.seal(crypto.shared(serverKey, keys.transientSecret),
                             ShortNonce(INITIATE_NONCE, counter), plaintext);
      r := Ok(CommandBody(INITIATE, cookie.value + BigEndian(counter, 8) + box));
    }

    method ProcessReady(frame: ZmtpFrame.Frame) returns (r: Result<seq<Metadata.Property>>)
      modifies this`recvNonce
      ensures serverTransientPublic.Some? ==>
                var boxKey := crypto.shared(serverTransientPublic.value, keys.transientSecret);
                (recvNonce, r) == ReadReady(crypto, frame, boxKey, old(recvNonce))
      ensures serverTransientPublic.None? ==>
                r == Err(InvalidArgument) && recvNonce == ReadReady(crypto, frame, [], old(recvNonce)).0
    {
      var tail := CommandTail(frame, READY);
      if tail.Err? { return Err(InvalidArgument); }
      if |tail.value| < 24 { return Err(InvalidArgument); }
      var counter := FromBigEndian(tail.value[..8]);
      if counter <= recvNonce { return Err(InvalidArgument); }
      recvNonce := counter;
      if serverTransientPublic.None? { return Err(InvalidArgument); }
      var plaintext := crypto.open(crypto.shared(serverTransientPublic.value, keys.transientSecret),
                                   ShortNonce(READY_NONCE, counter), tail.value[8..]);
      if plaintext.None? { return Err(InvalidArgument); }
      r := Metadata.Decode(plaintext.value);
    }
  }

  class CurveServer {
    const crypto: Crypto
    const keys: ServerKeys
    var peerNonce: nat

    constructor (crypto: Crypto, keys: ServerKeys, peerNonce: nat)
      ensures this.crypto == crypto && this.keys == keys && this.peerNonce == peerNonce
    {
      this.crypto, this.keys, this.peerNonce := crypto, keys, peerNonce;
    }

    /** The cookie must open to the client's transient key and this server's own transient secret. */
    method CheckCookie(cookie: Bytes) returns (ok: bool)
      requires |cookie| == 96
      ensures ok <==> CookieAccepted(crypto, keys, cookie)
    {
      var plaintext := crypto.open(keys.cookieKey, LongNonce(COOKIE_NONCE, cookie[..16]), cookie[16..]);
      if plaintext.None? { return false; }
      ok := PairIs(plaintext.value, keys.clientTransientPublic, keys.transientSecret);
    }

    /** The vouch must bind the client's long-term key to the two keys of this handshake. */
    method CheckVouch(clientKey: Bytes, nonceTail: Bytes, box: Bytes) returns (ok: bool)
      ensures var key := crypto.shared(clientKey, keys.transientSecret);
              ok <==> crypto.open(key, LongNonce(VOUCH_NONCE, nonceTail), box) ==
                      Some(keys.clientTransientPublic + keys.publicKey)
    {
      var key := crypto.shared(clientKey, keys.transientSecret);
      var plaintext := crypto.open(key, LongNonce(VOUCH_NONCE, nonceTail), box);
      if plaintext.None? { return false; }
      ok := PairIs(plaintext.value, keys.clientTransientPublic, keys.publicKey);
    }

    /** `parse_curve_initiate`: cookie, counter, box, vouch, metadata. The counter is remembered before the
        box is opened. */
    method ParseInitiate(frame: ZmtpFrame.Frame) returns (r: Result<(Bytes, seq<Metadata.Property>)>)
      modifies this`peerNonce
      ensures (peerNonce, r) == ReadInitiate(crypto, keys, frame, old(peerNonce))
    {
      hide FromBigEndian, CookieAccepted, Metadata.DecodeProperties, LongNonce, ShortNonce, CommandTail;
      var tail := CommandTail(frame, INITIATE);
      if tail.Err? { return Err(tail.error); }
      if |tail.value| < 248 { return Err(InvalidArgument); }
      var cookieOk := CheckCookie(tail.value[..96]);
      if !cookieOk { return Err(InvalidArgument); }
      var counter := FromBigEndian(tail.value[96..104]);
      if counter <= peerNonce { return Err(InvalidArgument); }
      peerNonce := counter;
      var plaintext := crypto.open(crypto.shared(keys.clientTransientPublic, keys.transientSecret),
                                   ShortNonce(INITIATE_NONCE, counter), tail.value[104..]);
      if plaintext.None? { return Err(InvalidArgument); }
      if |plaintext.value| < 128 { return Err(InvalidArgument); }
      var clientKey := plaintext.value[..32];
      var vouched := CheckVouch(clientKey, plaintext.value[32..48], plaintext.value[48..128]);
      if !vouched { return Err(InvalidArgument); }
      var metadata := Metadata.Decode(plaintext.value[128..]);
      if metadata.Err? { return Err(metadata.error); }
      r := Ok((clientKey, metadata.value));
    }
  }

  /** The two-half comparison of the source, where each half is a key. */
  method PairIs(plaintext: Bytes, a: Bytes, b: Bytes) returns (same: bool)
    ensures same <==> plaintext == a + b
  {
    if |plaintext| != |a| + |b| { return false; }
    same := plaintext[..|a|] == a && plaintext[|a|..] == b;
    SplitConcat(plaintext, |a|);
    ConcatSplit(a, b);
  }

  /** A command crosses the connection: encoded as a ZMTP frame, read off the stream, decoded. */
  method Transmit(body: Bytes) returns (r: Result<ZmtpFrame.Frame>)
    ensures |body| < U64_LIMIT ==> r == Ok(CommandFrame(body))
  {
    hide ZmtpFrame.TakeFrame, ZmtpFrame.Decode, ZmtpFrame.Encode;
    var encoded := ZmtpFrame.Encode(CommandFrame(body));
    var stream := new ByteStream(encoded);
    if |body| < U64_LIMIT {
      ZmtpFrame.ReadAfterEncode(CommandFrame(body), []);
      ZmtpFrame.DecodeAfterEncode(CommandFrame(body), true);
      ConcatEmpty(encoded);
    }
    var bytes := ZmtpFrame.ReadFrameBytes(stream);
    if bytes.Err? { return Err(InvalidSocket); }
    r := ZmtpFrame.Decode(bytes.value);
  }

  /** The key options of both sides, raw or in Z85. */
  datatype Options = Options(clientSecret: Bytes, clientPublic: Bytes, serverKey: Bytes, serverSecret: Bytes)

  /** The random values both sides draw. */
  datatype Random = Random(
    clientTransient: Bytes, serverTransient: Bytes, cookieKey: Bytes,
    cookieTail: Bytes, welcomeTail: Bytes, vouchTail: Bytes)

  datatype Side = Side(socketType: SocketType, identity: Bytes)

  /** What the two sides hold when the handshake is over. */
  datatype Outcome = Outcome(
    client: CurveSession.Session,
    server: CurveSession.Session,
    clientKey: Bytes,
    clientMetadata: seq<Metadata.Property>,
    serverMetadata: seq<Metadata.Property>)

  ghost predicate RandomFits(r: Random) {
    && |r.clientTransient| == 32 && |r.serverTransient| == 32 && |r.cookieKey| == 32
    && |r.cookieTail| == 16 && |r.welcomeTail| == 16 && |r.vouchTail| == 16
  }

  /** Every option that is looked at is a key. */
  ghost predicate OptionsParse(o: Options) {
    && OptionKey(o.clientSecret).Ok? && OptionKey(o.serverKey).Ok? && OptionKey(o.serverSecret).Ok?
    && (o.clientPublic == [] || OptionKey(o.clientPublic).Ok?)
  }

  /** The client knows the server's public key. */
  ghost predicate ServerKnown(c: Crypto, o: Options) {
    OptionsParse(o) && OptionKey(o.serverKey) == Ok(c.public(OptionKey(o.serverSecret).value))
  }

  /** The options name one key pair each, and the client knows the server's public key. */
  ghost predicate OptionsMatch(c: Crypto, o: Options) {
    && ServerKnown(c, o)
    && (o.clientPublic == [] || OptionKey(o.clientPublic) == Ok(c.public(OptionKey(o.clientSecret).value)))
  }

  /** The client was given the public key of another server, and boxes tell the two apart. */
  ghost predicate WrongServer(c: Crypto, o: Options, r: Random) {
    && OptionsParse(o)
    && Foreign(c, c.shared(OptionKey(o.serverKey).value, r.clientTransient),
               c.shared(c.public(r.clientTransient), OptionKey(o.serverSecret).value))
  }

  /** The client was given a public key that does not belong to its secret, and boxes tell the two apart. */
  ghost predicate WrongIdentity(c: Crypto, o: Options, r: Random) {
    && OptionsParse(o) && o.clientPublic != []
    && Foreign(c, c.shared(c.public(r.serverTransient), OptionKey(o.clientSecret).value),
               c.shared(OptionKey(o.clientPublic).value, r.serverTransient))
  }

  /** `CurveClientHandshake::new`: the client's keys from its options. */
  function ClientKeysOf(c: Crypto, o: Options, transientSecret: Bytes): Result<ClientKeys> {
    var secretKey :- OptionKey(o.clientSecret);
    var publicKey :- if o.clientPublic == [] then Ok(c.public(secretKey)) else OptionKey(o.clientPublic);
    var serverKey :- OptionKey(o.serverKey);
    Ok(ClientKeys(publicKey, secretKey, serverKey, transientSecret, c.public(transientSecret)))
  }

  /** The server's keys once it has read a HELLO. */
  function ServerKeysOf(c: Crypto, secretKey: Bytes, r: Random, clientTransientPublic: Bytes): ServerKeys {
    ServerKeys(c.public(secretKey), secretKey, r.serverTransient, c.public(r.serverTransient),
               clientTransientPublic, r.cookieKey)
  }

  lemma KeysMatch(c: Crypto, o: Options, r: Random)
    requires Ideal(c) && ServerKnown(c, o) && RandomFits(r)
    ensures ClientKeysOf(c, o, r.clientTransient).Ok?
    ensures var k := ClientKeysOf(c, o, r.clientTransient).value;
            var s := ServerKeysOf(c, OptionKey(o.serverSecret).value, r, k.transientPublic);
            && k.secretKey == OptionKey(o.clientSecret).value && k.transientSecret == r.clientTransient
            && (o.clientPublic != [] ==> k.publicKey == OptionKey(o.clientPublic).value)
            && Acquainted(c, k, s) && (OptionsMatch(c, o) ==> Matching(c, k, s))
  {
    hide OptionKey;
    OptionKeyLength(o.clientSecret);
    OptionKeyLength(o.clientPublic);
    OptionKeyLength(o.serverSecret);
  }

  lemma OptionKeyLength(value: Bytes)
    ensures OptionKey(value).Ok? ==> |OptionKey(value).value| == 32
  {
  }

  lemma ReadyBodyLength(c: Crypto, key: Bytes, counter: nat, metadata: Bytes)
    requires Ideal(c)
    ensures |WriteReady(c, key, counter, metadata)| == 30 + |metadata|
  {
  }

  lemma MetadataLength(side: Side)
    requires |side.identity| < U32_LIMIT
    ensures |Metadata.EncodeProperties(SocketMetadata(side.socketType, side.identity))| < U64_LIMIT - 1000
  {
    TypeNameShort(side.socketType);
    hide TypeName, BigEndian;
    var ps := SocketMetadata(side.socketType, side.identity);
    assert |Metadata.EncodeProperty(ps[0])| <= 23;
    if |ps| == 1 {
      assert Metadata.EncodeProperties(ps[1..]) == [];
    } else {
      assert |Metadata.EncodeProperty(ps[1])| == 13 + |side.identity|;
      assert ps[1..] == [ps[1]];
      assert Metadata.EncodeProperties(ps[1..][1..]) == [];
    }
  }

  lemma WelcomeLength(c: Crypto, k: ServerKeys, cookieTail: Bytes, welcomeTail: Bytes)
    requires |welcomeTail| == 16
    ensures WriteWelcome(c, k, cookieTail, welcomeTail).Ok? ==>
              |WriteWelcome(c, k, cookieTail, welcomeTail).value| == 168
  {
  }

  lemma HelloLength(c: Crypto, k: ClientKeys, counter: nat)
    requires |k.transientPublic| == 32
    ensures WriteHello(c, k, counter).Ok? ==> |WriteHello(c, k, counter).value| == 200
  {
  }

  lemma InitiateLength(c: Crypto, k: ClientKeys, s: ServerKeys, cookieTail: Bytes, vouchTail: Bytes, counter: nat,
                       metadata: Bytes)
    requires Acquainted(c, k, s) && |cookieTail| == 16 && |vouchTail| == 16
    ensures var w := WriteInitiate(c, k, s.transientPublic, Cookie(c, s, cookieTail), vouchTail, counter, metadata);
            w.Ok? ==> |w.value| == 257 + |metadata|
  {
    hide Cookie, ShortNonce, InitiatePlaintext, Vouch, BigEndian;
    CookieIsAccepted(c, s, cookieTail);
    InitiateSize(c, k, s, vouchTail, metadata);
  }

  /** Everything both sides are entitled to expect. */
  ghost function Expected(c: Crypto, o: Options, r: Random, client: Side, server: Side): Outcome
    requires OptionsMatch(c, o)
  {
    var key := c.shared(c.public(r.serverTransient), r.clientTransient);
    Outcome(
      CurveSession.Session(key, 3, 1, MESSAGE_C_NONCE, MESSAGE_S_NONCE),
      CurveSession.Session(key, 2, 2, MESSAGE_S_NONCE, MESSAGE_C_NONCE),
      c.public(OptionKey(o.clientSecret).value),
      SocketMetadata(client.socketType, client.identity),
      SocketMetadata(server.socketType, server.identity))
  }

  /** The two sides after HELLO and WELCOME. */
  ghost predicate Greeted(client: CurveClient, server: CurveServer, cookieTail: Bytes)
    reads client, server
  {
    && client.crypto == server.crypto
    && Acquainted(client.crypto, client.keys, server.keys)
    && client.serverTransientPublic == Some(server.keys.transientPublic)
    && client.cookie == Some(Cookie(client.crypto, server.keys, cookieTail))
    && client.sendNonce == 2 && client.recvNonce == 0 && server.peerNonce == 1
  }

  function Key(first: byte): (k: Bytes)
    ensures |k| == 32 && OptionKey(k) == Ok(k)
  {
    [first] + Zeros(31)
  }

  /** There are such clients: one that takes server 3 for server 2, and one with the secret of 1 that claims
      to be 4. */
  lemma WrongKeysExist() returns (c: Crypto, stranger: Options, impostor: Options, r: Random)
    ensures Tight(c) && RandomFits(r) && WrongServer(c, stranger, r)
    ensures ServerKnown(c, impostor) && WrongIdentity(c, impostor, r)
  {
    hide OptionKey, Tight;
    c := IdealExists();
    hide Foreign;
    stranger := Options(Key(1), [], Key(2), Key(3));
    impostor := Options(Key(1), Key(4), Key(3), Key(3));
    r := Random(Key(5), Key(6), Zeros(32), Zeros(16), Zeros(16), Zeros(16));
  }

  /** HELLO and WELCOME. */
  method FirstRound(c: Crypto, o: Options, r: Random) returns (result: Result<(CurveClient, CurveServer)>)
    requires RandomFits(r)
    ensures result.Ok? ==> fresh(result.value.0) && fresh(result.value.1)
    ensures !OptionsParse(o) || (Ideal(c) && WrongServer(c, o, r)) ==> result.Err?
    ensures Ideal(c) && ServerKnown(c, o) ==>
              && result.Ok?
              && var (client, server) := result.value;
                 && Greeted(client, server, r.cookieTail) && client.crypto == c
                 && ClientKeysOf(c, o, r.clientTransient) == Ok(client.keys)
                 && server.keys == ServerKeysOf(c, OptionKey(o.serverSecret).value, r, client.keys.transientPublic)
  {
    hide OptionKey, WriteHello, ReadHello, WriteWelcome, ReadWelcome, Cookie, Acquainted, Ideal, ClientKeysOf,
      Foreign, WrongServer;
    ghost var good := Ideal(c) && ServerKnown(c, o);
    if good { KeysMatch(c, o, r); }
    KeysNeeded(c, o, r);
    var keys := ClientKeysOf(c, o, r.clientTransient);
    if keys.Err? { return Err(InvalidArgument); }
    var client := new CurveClient(c, keys.value);
    var hello := client.HelloBody();
    if good { HelloGood(c, o, r); }
    if Ideal(c) && WrongServer(c, o, r) { HelloBad(c, o, r); }
    if hello.Err? { return Err(InvalidArgument); }
    var helloFrame := Transmit(hello.value);
    if helloFrame.Err? { return Err(InvalidArgument); }
    var secretKey := OptionKey(o.serverSecret);
    if secretKey.Err? { return Err(InvalidArgument); }
    var read := ReadHello(c, helloFrame.value, secretKey.value);
    if read.Err? { return Err(InvalidArgument); }
    var server := new CurveServer(c, ServerKeysOf(c, secretKey.value, r, read.value.0), read.value.1);
    var welcome := WriteWelcome(c, server.keys, r.cookieTail, r.welcomeTail);
    if good {
      WelcomeIsRead(c, client.keys, server.keys, r.cookieTail, r.welcomeTail);
      WelcomeLength(c, server.keys, r.cookieTail, r.welcomeTail);
    }
    if welcome.Err? { return Err(InvalidArgument); }
    var welcomeFrame := Transmit(welcome.value);
    if welcomeFrame.Err? { return Err(InvalidArgument); }
    var processed := client.ProcessWelcome(welcomeFrame.value);
    if processed.Err? { return Err(InvalidArgument); }
    result := Ok((client, server));
  }

  lemma KeysNeeded(c: Crypto, o: Options, r: Random)
    ensures ClientKeysOf(c, o, r.clientTransient).Ok? && OptionKey(o.serverSecret).Ok? <==> OptionsParse(o)
  {
    hide OptionKey;
  }

  lemma HelloGood(c: Crypto, o: Options, r: Random)
    requires Ideal(c) && ServerKnown(c, o) && RandomFits(r) && ClientKeysOf(c, o, r.clientTransient).Ok?
    ensures var k := ClientKeysOf(c, o, r.clientTransient).value;
            && WriteHello(c, k, 1).Ok? && |WriteHello(c, k, 1).value| < U64_LIMIT
            && ReadHello(c, CommandFrame(WriteHello(c, k, 1).value), OptionKey(o.serverSecret).value) ==
               Ok((k.transientPublic, 1))
  {
    hide OptionKey, WriteHello, ReadHello;
    OptionKeyLength(o.serverSecret);
    var k := ClientKeysOf(c, o, r.clientTransient).value;
    HelloIsRead(c, k, OptionKey(o.serverSecret).value, 1);
    HelloLength(c, k, 1);
  }

  lemma HelloBad(c: Crypto, o: Options, r: Random)
    requires Ideal(c) && WrongServer(c, o, r) && RandomFits(r) && ClientKeysOf(c, o, r.clientTransient).Ok?
    ensures OptionKey(o.serverSecret).Ok?
    ensures var k := ClientKeysOf(c, o, r.clientTransient).value;
            && WriteHello(c, k, 1).Ok? && |WriteHello(c, k, 1).value| < U64_LIMIT
            && ReadHello(c, CommandFrame(WriteHello(c, k, 1).value), OptionKey(o.serverSecret).value).Err?
  {
    hide OptionKey, WriteHello, ReadHello, Foreign;
    var k := ClientKeysOf(c, o, r.clientTransient).value;
    WrongServerRefuses(c, k, OptionKey(o.serverSecret).value, 1);
    HelloLength(c, k, 1);
  }

  /** The client's secret is that of another key than the one it claims. */
  ghost predicate Impostor(c: Crypto, k: ClientKeys, s: ServerKeys) {
    Foreign(c, c.shared(s.transientPublic, k.secretKey), c.shared(k.publicKey, s.transientSecret))
  }

  /** INITIATE: what the server learns. */
  method SecondRound(client: CurveClient, server: CurveServer, side: Side, vouchTail: Bytes, ghost cookieTail: Bytes)
    returns (learned: Result<(Bytes, seq<Metadata.Property>)>)
    requires |side.identity| < U32_LIMIT && |vouchTail| == 16 && |cookieTail| == 16
    modifies client`sendNonce, server`peerNonce
    ensures old(Greeted(client, server, cookieTail)) && Matching(client.crypto, client.keys, server.keys) ==>
              && learned == Ok((client.keys.publicKey, SocketMetadata(side.socketType, side.identity)))
              && client.sendNonce == 3 && server.peerNonce == 2
    ensures old(Greeted(client, server, cookieTail)) && Impostor(client.crypto, client.keys, server.keys) ==>
              learned.Err?
  {
    hide ReadInitiate, WriteInitiate, Cookie, SocketMetadata, Acquainted, Impostor, Metadata.EncodeProperties,
      Metadata.DecodeProperties;
    ghost var metadata := Metadata.EncodeProperties(SocketMetadata(side.socketType, side.identity));
    MetadataRoundTrip(side.socketType, side.identity);
    MetadataLength(side);
    if Greeted(client, server, cookieTail) {
      InitiateLength(client.crypto, client.keys, server.keys, cookieTail, vouchTail, 2, metadata);
      if Matching(client.crypto, client.keys, server.keys) {
        InitiateIsRead(client.crypto, client.keys, server.keys, cookieTail, vouchTail, 2, 1, metadata);
      }
      if Impostor(client.crypto, client.keys, server.keys) {
        ImpostorRefused(client.crypto, client.keys, server.keys, cookieTail, vouchTail, metadata);
      }
    }
    var initiate := client.InitiateBody(side.socketType, side.identity, vouchTail);
    if initiate.Err? { return Err(InvalidArgument); }
    var frame := Transmit(initiate.value);
    if frame.Err? { return Err(InvalidArgument); }
    learned := server.ParseInitiate(frame.value);
  }

  lemma ImpostorRefused(c: Crypto, k: ClientKeys, s: ServerKeys, cookieTail: Bytes, vouchTail: Bytes, metadata: Bytes)
    requires Acquainted(c, k, s) && Impostor(c, k, s) && |cookieTail| == 16 && |vouchTail| == 16
    ensures var cookie := Cookie(c, s, cookieTail);
            var written := WriteInitiate(c, k, s.transientPublic, cookie, vouchTail, 2, metadata);
            written.Ok? && ReadInitiate(c, s, CommandFrame(written.value), 1).1.Err?
  {
    hide Foreign, ReadInitiate, WriteInitiate, Cookie;
    WrongIdentityRefused(c, k, s, cookieTail, vouchTail, 2, 1, metadata);
  }

  /** READY: both sessions, and what the client learns. */
  method ThirdRound(client: CurveClient, server: CurveServer, side: Side)
    returns (r: Result<(CurveSession.Session, CurveSession.Session, seq<Metadata.Property>)>)
    requires |side.identity| < U32_LIMIT
    modifies client`recvNonce
    ensures client.crypto == server.crypto && Matching(client.crypto, client.keys, server.keys) &&
            old(client.recvNonce) == 0 &&
            client.serverTransientPublic == Some(server.keys.transientPublic) ==>
              var key := client.crypto.shared(server.keys.transientPublic, client.keys.transientSecret);
              r == Ok((CurveSession.Session(key, client.sendNonce, 1, MESSAGE_C_NONCE, MESSAGE_S_NONCE),
                       CurveSession.Session(key, 2, server.peerNonce, MESSAGE_S_NONCE, MESSAGE_C_NONCE),
                       SocketMetadata(side.socketType, side.identity)))
  {
    hide ReadReady, WriteReady, SocketMetadata, Metadata.EncodeProperties, Metadata.DecodeProperties;
    var c := server.crypto;
    var forServer := new CurveSession.CurveSessionObject(
      c, server.keys.transientSecret, server.keys.clientTransientPublic, 1, server.peerNonce,
      MESSAGE_S_NONCE, MESSAGE_C_NONCE);
    var counter := forServer.NextSendNonce();
    var own := Metadata.Encode(SocketMetadata(side.socketType, side.identity));
    var ready := WriteReady(c, forServer.key, counter, own);
    MetadataRoundTrip(side.socketType, side.identity);
    MetadataLength(side);
    if Ideal(c) {
      ReadyIsRead(c, forServer.key, 1, 0, own);
      ReadyBodyLength(c, forServer.key, 1, own);
    }
    var frame := Transmit(ready);
    if frame.Err? { return Err(InvalidArgument); }
    var metadata := client.ProcessReady(frame.value);
    if metadata.Err? || client.serverTransientPublic.None? { return Err(InvalidArgument); }
    var forClient := new CurveSession.CurveSessionObject(
      client.crypto, client.keys.transientSecret, client.serverTransientPublic.value,
      client.sendNonce, client.recvNonce,
      MESSAGE_C_NONCE, MESSAGE_S_NONCE);
    r := Ok((CurveSession.Session(forClient.key, forClient.sendNonce, forClient.recvNonce,
                                  forClient.sendPrefix, forClient.recvPrefix),
             CurveSession.Session(forServer.key, forServer.sendNonce, forServer.recvNonce,
                                  forServer.sendPrefix, forServer.recvPrefix),
             metadata.value));
  }

  /** `write_curve_handshake_tcp` on both ends: HELLO, WELCOME, INITIATE and READY in order. With
      matching key material it succeeds exactly if the client key is authorized; then each side learns
      exactly the other's data, and the two sessions fit together. A client that was given another server's
      key, or a public key that does not belong to its secret, is refused. */
  method Handshake(c: Crypto, o: Options, r: Random, clientSide: Side, serverSide: Side, authorize: Bytes -> bool)
    returns (result: Result<Outcome>)
    requires RandomFits(r) && |clientSide.identity| < U32_LIMIT && |serverSide.identity| < U32_LIMIT
    ensures Ideal(c) && OptionsMatch(c, o) && authorize(c.public(OptionKey(o.clientSecret).value)) ==>
              result == Ok(Expected(c, o, r, clientSide, serverSide))
    ensures result.Ok? ==> authorize(result.value.clientKey)
    ensures Ideal(c) && OptionsMatch(c, o) && !authorize(c.public(OptionKey(o.clientSecret).value)) ==> result.Err?
    ensures !OptionsParse(o) || (Ideal(c) && WrongServer(c, o, r)) ==> result.Err?
    ensures Ideal(c) && ServerKnown(c, o) && WrongIdentity(c, o, r) ==> result.Err?
  {
    hide OptionKey, OptionsParse, Cookie, SocketMetadata, Ideal, Foreign, ClientKeysOf, Acquainted;
    if Ideal(c) && ServerKnown(c, o) { KeysMatch(c, o, r); }
    var round := FirstRound(c, o, r);
    if round.Err? { return Err(InvalidArgument); }
    var (client, server) := round.value;
    var learned := SecondRound(client, server, clientSide, r.vouchTail, r.cookieTail);
    if learned.Err? { return Err(InvalidArgument); }
    if !authorize(learned.value.0) { return Err(InvalidArgument); }
    var sessions := ThirdRound(client, server, serverSide);
    if sessions.Err? { return Err(InvalidArgument); }
    result := Ok(Outcome(sessions.value.0, sessions.value.1, learned.value.0, learned.value.1, sessions.value.2));
  }

  /** After the handshake each direction is paired, each receive counter is one behind the other side's
      send counter, and a stream of messages from either side arrives whole. */
  lemma HandshakeThenMessages(c: Crypto, o: Options, r: Random, client: Side, server: Side,
                              ms: seq<CurveSession.Message>)
    requires Ideal(c) && OptionsMatch(c, o)
    requires |ms| < U64_MAX - 3 && forall i :: 0 <= i < |ms| ==> |ms[i].data| + 33 < U64_LIMIT
    ensures var e := Expected(c, o, r, client, server);
            && e.server.recvNonce == e.client.sendNonce - 1 && e.client.recvNonce == e.server.sendNonce - 1
            && var up := CurveSession.ReadBodies(CurveSession.Concat(CurveSession.SendAll(c, e.client, ms).1));
            && var down := CurveSession.ReadBodies(CurveSession.Concat(CurveSession.SendAll(c, e.server, ms).1));
            && up.Ok? && CurveSession.ReceiveAll(c, e.server, up.value).1 == ms
            && down.Ok? && CurveSession.ReceiveAll(c, e.client, down.value).1 == ms
  {
    hide CurveSession.ReadBodies, CurveSession.Concat, CurveSession.SendAll, CurveSession.ReceiveAll, Ideal,
      SocketMetadata, OptionKey;
    var e := Expected(c, o, r, client, server);
    CurveSession.StreamRoundTrip(c, e.client, e.server, ms);
    CurveSession.StreamRoundTrip(c, e.server, e.client, ms);
    assert ms[..|ms|] == ms;
  }
}
