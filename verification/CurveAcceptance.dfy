/** What the CURVE readers of socket.rs accept. Under boxes that open only what was sealed, a command or
    message is accepted exactly when it is, byte for byte, what the holder of the keys would write. */
module CurveAcceptance {
  import opened Common
  import opened CurveBox
  import opened CurveCommands
  import CurveSession
  import Metadata
  import ZmtpFrame

  lemma TailSplit(body: Bytes, name: Bytes, tail: Bytes)
    requires |name| <= 255
    ensures CommandTailBody(body, name) == Ok(tail) <==> body == CommandBody(name, tail)
  {
    if body != [] && |body| >= 1 + body[0] as nat {
      var n := 1 + body[0] as nat;
      assert body == [body[0]] + body[1..n] + body[n..];
    }
    CommandRoundTrip(name, tail);
  }

  lemma TailIff(frame: ZmtpFrame.Frame, name: Bytes, tail: Bytes)
    requires |name| <= 255
    ensures CommandTail(frame, name) == Ok(tail) <==> frame.command && frame.body == CommandBody(name, tail)
  {
    hide CommandBody, CommandTailBody;
    TailSplit(frame.body, name, tail);
  }

  /** A list that the metadata codec can carry. */
  ghost predicate Writable(ps: seq<Metadata.Property>) {
    Metadata.AllFit(ps) && Metadata.NamesAreText(ps)
  }

  lemma MetadataIff(body: Bytes, ps: seq<Metadata.Property>)
    ensures Metadata.DecodeProperties(body) == Ok(ps) <==> Writable(ps) && body == Metadata.EncodeProperties(ps)
  {
    hide Metadata.DecodeProperties, Metadata.EncodeProperties;
    if Metadata.DecodeProperties(body) == Ok(ps) { Metadata.EncodeAfterDecode(body); }
    if Writable(ps) { Metadata.DecodeAfterEncode(ps); }
  }

  lemma OpenIff(c: Crypto, key: Bytes, nonce: Bytes, box: Bytes, plaintext: Bytes)
    requires Tight(c)
    ensures c.open(key, nonce, box) == Some(plaintext) <==> box == c.seal(key, nonce, plaintext)
  {
  }

  lemma CounterBytes(field: Bytes)
    requires |field| == 8
    ensures FromBigEndian(field) < U64_LIMIT && BigEndian(FromBigEndian(field), 8) == field
  {
    FieldLimits();
    FromBigEndianBound(field);
    BigEndianWrite(field);
  }

  // HELLO

  /** A HELLO as the server computes it; its padding is not looked at. */
  function HelloFrom(c: Crypto, secretKey: Bytes, padding: Bytes, transientPublic: Bytes, counter: nat): Bytes {
    [1, 0] + padding + transientPublic + BigEndian(counter, 8) +
    c.seal(c.shared(transientPublic, secretKey), ShortNonce(HELLO_NONCE, counter), Zeros(64))
  }

  ghost predicate IsHello(c: Crypto, frame: ZmtpFrame.Frame, secretKey: Bytes, key: Bytes, counter: nat) {
    && frame.command && |key| == 32 && counter < U64_LIMIT
    && exists padding ::
         |padding| == 72 && frame.body == CommandBody(HELLO, HelloFrom(c, secretKey, padding, key, counter))
  }

  lemma HelloParts(tail: Bytes)
    requires |tail| == 194
    ensures tail == tail[..2] + tail[2..74] + tail[74..106] + tail[106..114] + tail[114..194]
  {
  }

  lemma HelloFromFields(padding: Bytes, key: Bytes, field: Bytes, box: Bytes)
    requires |padding| == 72 && |key| == 32 && |field| == 8 && |box| == 80
    ensures var t := [1, 0] + padding + key + field + box;
            |t| == 194 && t[..2] == [1, 0] && t[74..106] == key && t[106..114] == field && t[114..194] == box
  {
  }

  lemma HelloOnlyIf(c: Crypto, frame: ZmtpFrame.Frame, secretKey: Bytes, key: Bytes, counter: nat)
    requires Tight(c) && ReadHello(c, frame, secretKey) == Ok((key, counter))
    ensures IsHello(c, frame, secretKey, key, counter)
  {
    hide Tight, Ideal, CommandTail, CommandBody, ShortNonce, FromBigEndian, BigEndian;
    var tail := CommandTail(frame, HELLO).value;
    TailIff(frame, HELLO, tail);
    CounterBytes(tail[106..114]);
    OpenIff(c, c.shared(key, secretKey), ShortNonce(HELLO_NONCE, counter), tail[114..194], Zeros(64));
    HelloParts(tail);
    assert tail == HelloFrom(c, secretKey, tail[2..74], key, counter);
  }

  lemma HelloIf(c: Crypto, frame: ZmtpFrame.Frame, secretKey: Bytes, key: Bytes, counter: nat)
    requires Tight(c) && IsHello(c, frame, secretKey, key, counter)
    ensures ReadHello(c, frame, secretKey) == Ok((key, counter))
  {
    hide CommandTail, CommandBody, ShortNonce, FromBigEndian, BigEndian;
    var padding :| |padding| == 72 && frame.body == CommandBody(HELLO, HelloFrom(c, secretKey, padding, key, counter));
    var box := c.seal(c.shared(key, secretKey), ShortNonce(HELLO_NONCE, counter), Zeros(64));
    TailIff(frame, HELLO, HelloFrom(c, secretKey, padding, key, counter));
    FieldLimits();
    BigEndianRead(counter, 8);
    HelloFromFields(padding, key, BigEndian(counter, 8), box);
  }

  /** The server accepts a HELLO exactly when it is version 1.0 and its signature box is the client's
      sealing of 64 zero bytes for this server; the 72 padding bytes are free. */
  lemma HelloAcceptedIff(c: Crypto, frame: ZmtpFrame.Frame, secretKey: Bytes, key: Bytes, counter: nat)
    requires Tight(c)
    ensures ReadHello(c, frame, secretKey) == Ok((key, counter)) <==> IsHello(c, frame, secretKey, key, counter)
  {
    hide Tight, ReadHello, IsHello;
    if ReadHello(c, frame, secretKey) == Ok((key, counter)) { HelloOnlyIf(c, frame, secretKey, key, counter); }
    if IsHello(c, frame, secretKey, key, counter) { HelloIf(c, frame, secretKey, key, counter); }
  }

  // WELCOME

  ghost predicate IsWelcome(c: Crypto, frame: ZmtpFrame.Frame, k: ClientKeys, serverKey: Bytes, cookie: Bytes) {
    && frame.command && |serverKey| == 32 && |cookie| == 96
    && exists nonce :: |nonce| == 16 && frame.body == CommandBody(WELCOME, WelcomeFrom(c, k, nonce, serverKey, cookie))
  }

  /** A WELCOME as the client computes it. */
  function WelcomeFrom(c: Crypto, k: ClientKeys, nonce: Bytes, serverKey: Bytes, cookie: Bytes): Bytes {
    nonce + c.seal(c.shared(k.serverKey, k.transientSecret), LongNonce(WELCOME_NONCE, nonce), serverKey + cookie)
  }

  lemma WelcomeOnlyIf(c: Crypto, frame: ZmtpFrame.Frame, k: ClientKeys, serverKey: Bytes, cookie: Bytes)
    requires Tight(c) && ReadWelcome(c, frame, k) == Ok((serverKey, cookie))
    ensures IsWelcome(c, frame, k, serverKey, cookie)
  {
    hide Tight, Ideal, CommandTail, CommandBody, LongNonce;
    var tail := CommandTail(frame, WELCOME).value;
    var nonce := tail[..16];
    var boxKey := c.shared(k.serverKey, k.transientSecret);
    var plaintext := c.open(boxKey, LongNonce(WELCOME_NONCE, nonce), tail[16..]).value;
    TailIff(frame, WELCOME, tail);
    OpenIff(c, c.shared(k.serverKey, k.transientSecret), LongNonce(WELCOME_NONCE, nonce), tail[16..], plaintext);
    SplitConcat(tail, 16);
    SplitConcat(plaintext, 32);
    assert plaintext[32..] == plaintext[32..128];
    assert tail == WelcomeFrom(c, k, nonce, serverKey, cookie);
  }

  lemma WelcomeIf(c: Crypto, frame: ZmtpFrame.Frame, k: ClientKeys, serverKey: Bytes, cookie: Bytes)
    requires Tight(c) && IsWelcome(c, frame, k, serverKey, cookie)
    ensures ReadWelcome(c, frame, k) == Ok((serverKey, cookie))
  {
    hide CommandTail, CommandBody, LongNonce;
    var nonce :| |nonce| == 16 && frame.body == CommandBody(WELCOME, WelcomeFrom(c, k, nonce, serverKey, cookie));
    TailIff(frame, WELCOME, WelcomeFrom(c, k, nonce, serverKey, cookie));
    var boxKey := c.shared(k.serverKey, k.transientSecret);
    ConcatSplit(nonce, c.seal(boxKey, LongNonce(WELCOME_NONCE, nonce), serverKey + cookie));
    ConcatSplit(serverKey, cookie);
    assert (serverKey + cookie)[32..128] == (serverKey + cookie)[32..];
  }

  /** The client accepts a WELCOME exactly when its box is sealed for the client's transient key by the
      configured server. */
  lemma WelcomeAcceptedIff(c: Crypto, frame: ZmtpFrame.Frame, k: ClientKeys, serverKey: Bytes, cookie: Bytes)
    requires Tight(c)
    ensures ReadWelcome(c, frame, k) == Ok((serverKey, cookie)) <==> IsWelcome(c, frame, k, serverKey, cookie)
  {
    hide Tight, ReadWelcome, IsWelcome;
    if ReadWelcome(c, frame, k) == Ok((serverKey, cookie)) { WelcomeOnlyIf(c, frame, k, serverKey, cookie); }
    if IsWelcome(c, frame, k, serverKey, cookie) { WelcomeIf(c, frame, k, serverKey, cookie); }
  }

  // INITIATE

  /** The cookie check lets through exactly the cookies this server made for this client. */
  lemma CookieAcceptedIff(c: Crypto, s: ServerKeys, cookie: Bytes)
    requires Tight(c) && |cookie| == 96
    ensures CookieAccepted(c, s, cookie) <==> cookie == Cookie(c, s, cookie[..16])
  {
    hide Tight, Ideal, LongNonce;
    var nonce := LongNonce(COOKIE_NONCE, cookie[..16]);
    var inside := s.clientTransientPublic + s.transientSecret;
    OpenIff(c, s.cookieKey, nonce, cookie[16..], inside);
    SplitConcat(cookie, 16);
    ConcatSplit(cookie[..16], c.seal(s.cookieKey, nonce, inside));
  }

  /** The inside of an INITIATE box as the server computes it. */
  function VouchedFor(c: Crypto, s: ServerKeys, clientKey: Bytes, vouchTail: Bytes, metadata: Bytes): Bytes {
    InitiatePlaintext(clientKey, vouchTail,
                      c.seal(c.shared(clientKey, s.transientSecret), LongNonce(VOUCH_NONCE, vouchTail),
                             s.clientTransientPublic + s.publicKey),
                      metadata)
  }

  /** An INITIATE as the server computes it. */
  function InitiateFrom(c: Crypto, s: ServerKeys, clientKey: Bytes, cookieTail: Bytes, vouchTail: Bytes, counter: nat,
                        ps: seq<Metadata.Property>): Bytes {
    Cookie(c, s, cookieTail) + BigEndian(counter, 8) +
    c.seal(c.shared(s.clientTransientPublic, s.transientSecret), ShortNonce(INITIATE_NONCE, counter),
           VouchedFor(c, s, clientKey, vouchTail, Metadata.EncodeProperties(ps)))
  }

  /** For matching keys this is what the client writes. */
  lemma InitiateFromClient(c: Crypto, k: ClientKeys, s: ServerKeys, cookieTail: Bytes, vouchTail: Bytes, counter: nat,
                           ps: seq<Metadata.Property>)
    requires Matching(c, k, s) && |cookieTail| == 16 && |vouchTail| == 16
    ensures var metadata := Metadata.EncodeProperties(ps);
            WriteInitiate(c, k, s.transientPublic, Cookie(c, s, cookieTail), vouchTail, counter, metadata) ==
            Ok(CommandBody(INITIATE, InitiateFrom(c, s, k.publicKey, cookieTail, vouchTail, counter, ps)))
  {
    hide Cookie, CommandBody, LongNonce, ShortNonce, BigEndian, Metadata.EncodeProperties;
  }

  lemma PlaintextOnlyIf(c: Crypto, s: ServerKeys, plaintext: Bytes, clientKey: Bytes, ps: seq<Metadata.Property>)
    returns (vouchTail: Bytes)
    requires Tight(c) && ReadInitiatePlaintext(c, s, plaintext) == Ok((clientKey, ps))
    ensures |clientKey| == 32 && |vouchTail| == 16 && Writable(ps)
    ensures plaintext == VouchedFor(c, s, clientKey, vouchTail, Metadata.EncodeProperties(ps))
  {
    hide Tight, Ideal, LongNonce, Metadata.DecodeProperties, Metadata.EncodeProperties;
    vouchTail := plaintext[32..48];
    OpenIff(c, c.shared(clientKey, s.transientSecret), LongNonce(VOUCH_NONCE, vouchTail), plaintext[48..128],
            s.clientTransientPublic + s.publicKey);
    MetadataIff(plaintext[128..], ps);
    assert plaintext == plaintext[..32] + plaintext[32..48] + plaintext[48..128] + plaintext[128..];
  }

  lemma PlaintextIf(c: Crypto, s: ServerKeys, clientKey: Bytes, vouchTail: Bytes, ps: seq<Metadata.Property>)
    requires Tight(c) && |clientKey| == 32 && |vouchTail| == 16 && Writable(ps)
    requires |s.clientTransientPublic| == 32 && |s.publicKey| == 32
    ensures var plaintext := VouchedFor(c, s, clientKey, vouchTail, Metadata.EncodeProperties(ps));
            |plaintext| >= 128 && ReadInitiatePlaintext(c, s, plaintext) == Ok((clientKey, ps))
  {
    hide LongNonce, Metadata.DecodeProperties, Metadata.EncodeProperties;
    var metadata := Metadata.EncodeProperties(ps);
    MetadataIff(metadata, ps);
    var vouch := c.seal(c.shared(clientKey, s.transientSecret), LongNonce(VOUCH_NONCE, vouchTail),
                        s.clientTransientPublic + s.publicKey);
    var p := VouchedFor(c, s, clientKey, vouchTail, metadata);
    assert p[..32] == clientKey && p[32..48] == vouchTail && p[48..128] == vouch && p[128..] == metadata;
  }

  ghost predicate IsInitiate(c: Crypto, frame: ZmtpFrame.Frame, s: ServerKeys, counter: nat, clientKey: Bytes,
                             ps: seq<Metadata.Property>) {
    && frame.command && |clientKey| == 32 && counter < U64_LIMIT && Writable(ps)
    && exists cookieTail, vouchTail ::
         && |cookieTail| == 16 && |vouchTail| == 16
         && frame.body == CommandBody(INITIATE, InitiateFrom(c, s, clientKey, cookieTail, vouchTail, counter, ps))
  }

  lemma InitiateOnlyIf(c: Crypto, frame: ZmtpFrame.Frame, s: ServerKeys, peerNonce: nat, counter: nat, clientKey: Bytes,
                       ps: seq<Metadata.Property>)
    requires Tight(c) && ReadInitiate(c, s, frame, peerNonce) == (counter, Ok((clientKey, ps)))
    ensures counter > peerNonce && IsInitiate(c, frame, s, counter, clientKey, ps)
  {
    hide Tight, Ideal, CommandTail, CommandBody, ShortNonce, FromBigEndian, BigEndian, CookieAccepted, Cookie,
      ReadInitiatePlaintext, VouchedFor, Metadata.DecodeProperties, Metadata.EncodeProperties;
    var tail := CommandTail(frame, INITIATE).value;
    TailIff(frame, INITIATE, tail);
    var cookie, field, box := tail[..96], tail[96..104], tail[104..];
    CookieAcceptedIff(c, s, cookie);
    CounterBytes(field);
    var boxKey := c.shared(s.clientTransientPublic, s.transientSecret);
    var plaintext := c.open(boxKey, ShortNonce(INITIATE_NONCE, counter), box).value;
    OpenIff(c, boxKey, ShortNonce(INITIATE_NONCE, counter), box, plaintext);
    var vouchTail := PlaintextOnlyIf(c, s, plaintext, clientKey, ps);
    assert tail == cookie + field + box;
    assert tail == InitiateFrom(c, s, clientKey, cookie[..16], vouchTail, counter, ps);
  }

  lemma InitiateIf(c: Crypto, frame: ZmtpFrame.Frame, s: ServerKeys, peerNonce: nat, counter: nat, clientKey: Bytes,
                   ps: seq<Metadata.Property>)
    requires Tight(c) && counter > peerNonce && IsInitiate(c, frame, s, counter, clientKey, ps)
    requires |s.clientTransientPublic| == 32 && |s.publicKey| == 32 && |s.transientSecret| == 32
    ensures ReadInitiate(c, s, frame, peerNonce) == (counter, Ok((clientKey, ps)))
  {
    hide CommandTail, CommandBody, ShortNonce, FromBigEndian, BigEndian, CookieAccepted, Cookie,
      ReadInitiatePlaintext, VouchedFor, Metadata.DecodeProperties, Metadata.EncodeProperties;
    var cookieTail, vouchTail :|
      && |cookieTail| == 16 && |vouchTail| == 16
      && frame.body == CommandBody(INITIATE, InitiateFrom(c, s, clientKey, cookieTail, vouchTail, counter, ps));
    TailIff(frame, INITIATE, InitiateFrom(c, s, clientKey, cookieTail, vouchTail, counter, ps));
    CookieIsAccepted(c, s, cookieTail);
    PlaintextIf(c, s, clientKey, vouchTail, ps);
    InitiateFields(Cookie(c, s, cookieTail), counter,
                   c.seal(c.shared(s.clientTransientPublic, s.transientSecret), ShortNonce(INITIATE_NONCE, counter),
                          VouchedFor(c, s, clientKey, vouchTail, Metadata.EncodeProperties(ps))));
  }

  /** The server accepts an INITIATE, and with it a client key and metadata, exactly when the counter
      has grown, the cookie is one it made for this client, the box is sealed between the two transient
      keys, and the vouch inside binds the client key to them. */
  lemma InitiateAcceptedIff(c: Crypto, frame: ZmtpFrame.Frame, s: ServerKeys, peerNonce: nat, counter: nat,
                            clientKey: Bytes, ps: seq<Metadata.Property>)
    requires Tight(c) && |s.clientTransientPublic| == 32 && |s.publicKey| == 32 && |s.transientSecret| == 32
    ensures ReadInitiate(c, s, frame, peerNonce) == (counter, Ok((clientKey, ps))) <==>
            counter > peerNonce && IsInitiate(c, frame, s, counter, clientKey, ps)
  {
    hide Tight, ReadInitiate, IsInitiate;
    if ReadInitiate(c, s, frame, peerNonce) == (counter, Ok((clientKey, ps))) {
      InitiateOnlyIf(c, frame, s, peerNonce, counter, clientKey, ps);
    }
    if counter > peerNonce && IsInitiate(c, frame, s, counter, clientKey, ps) {
      InitiateIf(c, frame, s, peerNonce, counter, clientKey, ps);
    }
  }

  // READY and MESSAGE

  /** The client accepts a READY exactly when the counter has grown and it is what the server writes. */
  lemma ReadyAcceptedIff(c: Crypto, frame: ZmtpFrame.Frame, key: Bytes, recvNonce: nat, counter: nat,
                         ps: seq<Metadata.Property>)
    requires Tight(c)
    ensures ReadReady(c, frame, key, recvNonce) == (counter, Ok(ps)) <==>
            && recvNonce < counter < U64_LIMIT && Writable(ps)
            && frame.command && frame.body == WriteReady(c, key, counter, Metadata.EncodeProperties(ps))
  {
    hide Tight, Ideal, CommandTail, CommandBody, ShortNonce, FromBigEndian, BigEndian, Metadata.DecodeProperties,
      Metadata.EncodeProperties;
    var metadata := Metadata.EncodeProperties(ps);
    if ReadReady(c, frame, key, recvNonce) == (counter, Ok(ps)) {
      var tail := CommandTail(frame, READY).value;
      TailIff(frame, READY, tail);
      CounterBytes(tail[..8]);
      var plaintext := c.open(key, ShortNonce(READY_NONCE, counter), tail[8..]).value;
      OpenIff(c, key, ShortNonce(READY_NONCE, counter), tail[8..], plaintext);
      MetadataIff(plaintext, ps);
      SplitConcat(tail, 8);
    }
    if recvNonce < counter < U64_LIMIT && Writable(ps) && frame.command &&
       frame.body == WriteReady(c, key, counter, metadata) {
      ReadyIf(c, frame, key, recvNonce, counter, metadata);
      MetadataIff(metadata, ps);
    }
  }

  lemma ReadyIf(c: Crypto, frame: ZmtpFrame.Frame, key: Bytes, recvNonce: nat, counter: nat, metadata: Bytes)
    requires Tight(c) && recvNonce < counter < U64_LIMIT
    requires frame.command && frame.body == WriteReady(c, key, counter, metadata)
    ensures ReadReady(c, frame, key, recvNonce) == (counter, Metadata.DecodeProperties(metadata))
  {
    assert CommandTail(frame, READY) == CommandTail(CommandFrame(frame.body), READY);
    ReadyIsRead(c, key, counter, recvNonce, metadata);
  }

  /** The other end of a session's receiving direction. */
  function Mirror(r: CurveSession.Session): CurveSession.Session {
    CurveSession.Session(r.key, 1, 0, r.recvPrefix, r.sendPrefix)
  }

  lemma PayloadIff(plaintext: Bytes, m: CurveSession.Message)
    ensures CurveSession.ReadPayload(plaintext) == Ok(m) <==> plaintext == CurveSession.Payload(m)
  {
    CurveSession.PayloadRoundTrip(m);
    if plaintext != [] {
      SplitConcat(plaintext, 1);
    }
  }

  lemma MessageTailIs(body: Bytes)
    requires CurveSession.MessageTail(body).Ok?
    ensures body == CommandBody(MESSAGE, CurveSession.MessageTail(body).value)
  {
    CurveSession.MessageTailIsCommandTail(body);
    TailSplit(body, MESSAGE, CurveSession.MessageTail(body).value);
  }

  /** A message is accepted exactly when its counter has grown and its body is what the other end writes
      for that message and counter. */
  lemma MessageAcceptedIff(c: Crypto, r: CurveSession.Session, body: Bytes, counter: nat, m: CurveSession.Message)
    requires Tight(c)
    ensures CurveSession.ReceiveMessage(c, r, body) == (r.(recvNonce := counter), Ok(m)) <==>
            r.recvNonce < counter < U64_LIMIT && body == CurveSession.MessageBody(c, Mirror(r), counter, m)
  {
    hide Tight, Ideal, CommandBody, CurveSession.MessageTail, ShortNonce, FromBigEndian, BigEndian,
      CurveSession.Payload, CurveSession.ReadPayload;
    if CurveSession.ReceiveMessage(c, r, body) == (r.(recvNonce := counter), Ok(m)) {
      var tail := CurveSession.MessageTail(body).value;
      MessageTailIs(body);
      CounterBytes(tail[..8]);
      var plaintext := c.open(r.key, ShortNonce(r.recvPrefix, counter), tail[8..]).value;
      OpenIff(c, r.key, ShortNonce(r.recvPrefix, counter), tail[8..], plaintext);
      PayloadIff(plaintext, m);
      SplitConcat(tail, 8);
    }
    if r.recvNonce < counter < U64_LIMIT && body == CurveSession.MessageBody(c, Mirror(r), counter, m) {
      TightIsIdeal(c);
      CurveSession.SentBodyReceived(c, Mirror(r), r, counter, m);
    }
  }

  lemma TightIsIdeal(c: Crypto)
    requires Tight(c)
    ensures Ideal(c)
  {
  }
}
