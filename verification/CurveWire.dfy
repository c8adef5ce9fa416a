/** The CURVE commands byte by byte, as ZeroMQ RFC 26/CurveZMQ lays them out,
    and the nonces that one connection uses. */
module CurveWire {
  import opened Common
  import opened CurveBox
  import opened CurveCommands
  import opened CurveHandshake
  import CurveSession
  import ST = SocketTypes
  import Z85
  import Metadata

  // Spelling.

  lemma HelloSpelled()
    ensures HELLO_NONCE == Ascii("CurveZMQHELLO---") && HELLO == Ascii("HELLO")
  {
  }

  lemma WelcomeSpelled()
    ensures WELCOME_NONCE == Ascii("WELCOME-") && COOKIE_NONCE == Ascii("COOKIE--") && WELCOME == Ascii("WELCOME")
  {
  }

  lemma InitiateSpelled()
    ensures INITIATE_NONCE == Ascii("CurveZMQINITIATE") && VOUCH_NONCE == Ascii("VOUCH---")
    ensures INITIATE == Ascii("INITIATE")
  {
  }

  lemma ReadySpelled()
    ensures READY_NONCE == Ascii("CurveZMQREADY---") && READY == Ascii("READY")
  {
  }

  lemma MessageCSpelled()
    ensures MESSAGE_C_NONCE == Ascii("CurveZMQMESSAGEC") && MESSAGE == Ascii("MESSAGE")
  {
  }

  lemma MessageSSpelled()
    ensures MESSAGE_S_NONCE == Ascii("CurveZMQMESSAGES")
  {
  }

  lemma ThreeLetterTypes()
    ensures TypeName(ST.Req) == Ascii("REQ")
    ensures TypeName(ST.Rep) == Ascii("REP")
    ensures TypeName(ST.Pub) == Ascii("PUB")
    ensures TypeName(ST.Sub) == Ascii("SUB")
  {
  }

  lemma FourLetterTypes()
    ensures TypeName(ST.Pair) == Ascii("PAIR")
    ensures TypeName(ST.Pull) == Ascii("PULL")
    ensures TypeName(ST.Push) == Ascii("PUSH")
    ensures TypeName(ST.Peer) == Ascii("PEER")
    ensures TypeName(ST.Dish) == Ascii("DISH")
  {
  }

  lemma FiveLetterTypes()
    ensures TypeName(ST.Radio) == Ascii("RADIO")
    ensures TypeName(ST.Dgram) == Ascii("DGRAM")
  {
  }

  lemma DealerAndRouter()
    ensures TypeName(ST.Dealer) == Ascii("DEALER")
    ensures TypeName(ST.Router) == Ascii("ROUTER")
  {
  }

  lemma ServerAndClient()
    ensures TypeName(ST.Server) == Ascii("SERVER")
    ensures TypeName(ST.Client) == Ascii("CLIENT")
  {
  }

  lemma GatherAndScatter()
    ensures TypeName(ST.Gather) == Ascii("GATHER")
    ensures TypeName(ST.Scatter) == Ascii("SCATTER")
  {
  }

  lemma OtherTypes()
    ensures TypeName(ST.Channel) == Ascii("CHANNEL")
    ensures TypeName(ST.Xpub) == Ascii("PAIR")
    ensures TypeName(ST.Xsub) == Ascii("PAIR")
    ensures TypeName(ST.Stream) == Ascii("PAIR")
  {
  }

  /** Each type by its name; XPUB, XSUB and STREAM say PAIR. */
  lemma TypeNamesSpelled()
    ensures TypeName(ST.Req) == Ascii("REQ") && TypeName(ST.Rep) == Ascii("REP")
    ensures TypeName(ST.Pub) == Ascii("PUB") && TypeName(ST.Sub) == Ascii("SUB")
    ensures TypeName(ST.Pair) == Ascii("PAIR") && TypeName(ST.Pull) == Ascii("PULL")
    ensures TypeName(ST.Push) == Ascii("PUSH") && TypeName(ST.Peer) == Ascii("PEER")
    ensures TypeName(ST.Dish) == Ascii("DISH") && TypeName(ST.Radio) == Ascii("RADIO")
    ensures TypeName(ST.Dgram) == Ascii("DGRAM") && TypeName(ST.Dealer) == Ascii("DEALER")
    ensures TypeName(ST.Router) == Ascii("ROUTER") && TypeName(ST.Server) == Ascii("SERVER")
    ensures TypeName(ST.Client) == Ascii("CLIENT") && TypeName(ST.Gather) == Ascii("GATHER")
    ensures TypeName(ST.Channel) == Ascii("CHANNEL") && TypeName(ST.Scatter) == Ascii("SCATTER")
    ensures TypeName(ST.Xpub) == Ascii("PAIR") && TypeName(ST.Xsub) == Ascii("PAIR")
    ensures TypeName(ST.Stream) == Ascii("PAIR")
  {
    hide TypeName, Ascii;
    ThreeLetterTypes();
    FourLetterTypes();
    FiveLetterTypes();
    DealerAndRouter();
    ServerAndClient();
    GatherAndScatter();
    OtherTypes();
  }

  /** The metadata names the type, and the identity if there is one. */
  lemma MetadataSpelled(t: ST.SocketType, identity: Bytes)
    ensures var ps := SocketMetadata(t, identity);
            && |ps| == (if identity == [] then 1 else 2)
            && ps[0] == Metadata.Property(Ascii("Socket-Type"), TypeName(t))
            && (identity != [] ==> ps[1] == Metadata.Property(Ascii("Identity"), identity))
  {
    hide TypeName;
    assert SOCKET_TYPE == Ascii("Socket-Type");
    assert IDENTITY == Ascii("Identity");
  }

  /** A key option is accepted exactly if it is 32 bytes, which are the key, or the 40 characters that Z85 writes
      for a key of 32 bytes. */
  lemma OptionKeyIff(value: Bytes, key: Bytes)
    ensures OptionKey(value) == Ok(key) <==> |key| == 32 && (value == key || value == Z85.EncodeText(key))
  {
    hide Z85.EncodeText, Z85.DecodeText;
    if |key| == 32 {
      Z85.EncodedLength(key);
      Z85.DecodeAfterEncode(key);
    }
    if |value| == 40 && Z85.DecodeText(value).Ok? {
      Z85.EncodeAfterDecode(value);
    }
  }

  // Nonces.

  /** 24 bytes: a 16-byte text and a 64-bit counter in network order. */
  ghost predicate IsNonce(n: Bytes, text: string, counter: nat) {
    |n| == 24 && n[..16] == Ascii(text) && FromBigEndian(n[16..]) == counter
  }

  /** 24 bytes: an 8-byte text and 16 random bytes. */
  ghost predicate IsLongNonce(n: Bytes, text: string, tail: Bytes) {
    |n| == 24 && n[..8] == Ascii(text) && n[8..] == tail
  }

  lemma NonceLayout(prefix: Bytes, text: string, counter: nat)
    requires prefix == Ascii(text) && |prefix| == 16 && counter < U64_LIMIT
    ensures IsNonce(ShortNonce(prefix, counter), text, counter)
  {
    hide BigEndian, FromBigEndian, Ascii;
    FieldLimits();
    BigEndianRead(counter, 8);
    ConcatSplit(prefix, BigEndian(counter, 8));
  }

  lemma LongNonceLayout(prefix: Bytes, text: string, tail: Bytes)
    requires prefix == Ascii(text) && |prefix| == 8 && |tail| == 16
    ensures IsLongNonce(LongNonce(prefix, tail), text, tail)
  {
    hide Ascii;
    ConcatSplit(prefix, tail);
  }

  /** Nonces of two commands are the same exactly if text and counter are. */
  lemma NonceTellsApart(n: Bytes, text: string, counter: nat, n': Bytes, text': string, counter': nat)
    requires IsNonce(n, text, counter) && IsNonce(n', text', counter')
    ensures n == n' <==> Ascii(text) == Ascii(text') && counter == counter'
  {
    hide Ascii, FromBigEndian;
    BigEndianWrite(n[16..]);
    BigEndianWrite(n'[16..]);
    SplitConcat(n, 16);
    SplitConcat(n', 16);
  }

  // Commands.

  /** A command body: the length of its name, the name, and the rest. */
  lemma CommandLayout(name: Bytes, text: string, tail: Bytes)
    requires name == Ascii(text) && |text| <= 255
    ensures var b := CommandBody(name, tail);
            && |b| == 1 + |text| + |tail| && b[0] as int == |text| && b[1..1 + |text|] == Ascii(text)
            && b[1 + |text|..] == tail
  {
    hide Ascii;
    var b := CommandBody(name, tail);
    assert b[1..1 + |name|] == name;
    assert b[1 + |name|..] == tail;
  }

  /** HELLO: 200 bytes. */
  lemma HelloLayout(c: Crypto, k: ClientKeys, counter: nat)
    returns (nonce: Bytes)
    requires Ideal(c) && |k.transientPublic| == 32 && counter < U64_LIMIT
    ensures IsNonce(nonce, "CurveZMQHELLO---", counter) && WriteHello(c, k, counter).Ok?
    ensures var b := WriteHello(c, k, counter).value;
            && |b| == 200 && b[0] == 5 && b[1..6] == Ascii("HELLO") && b[6] == 1 && b[7] == 0
            && (forall i :: 8 <= i < 80 ==> b[i] == 0)
            && b[80..112] == k.transientPublic && FromBigEndian(b[112..120]) == counter
            && b[120..] == c.seal(c.shared(k.serverKey, k.transientSecret), nonce, seq(64, _ => 0))
  {
    hide BigEndian, FromBigEndian, Ascii, CommandBody, HelloTail;
    HelloSpelled();
    nonce := ShortNonce(HELLO_NONCE, counter);
    NonceLayout(HELLO_NONCE, "CurveZMQHELLO---", counter);
    var tail := HelloTail(k.transientPublic, counter, HelloSignature(c, k, counter));
    CommandLayout(HELLO, "HELLO", tail);
    HelloTailLayout(k.transientPublic, counter, HelloSignature(c, k, counter));
    var b := CommandBody(HELLO, tail);
    assert forall i :: 6 <= i < 200 ==> b[i] == tail[i - 6];
    assert b[80..112] == tail[74..106];
    assert b[112..120] == tail[106..114];
    assert b[120..] == tail[114..];
    assert Zeros(64) == seq(64, _ => 0);
  }

  lemma HelloTailLayout(transientPublic: Bytes, counter: nat, signature: Bytes)
    requires |transientPublic| == 32 && |signature| == 80 && counter < U64_LIMIT
    ensures var t := HelloTail(transientPublic, counter, signature);
            && |t| == 194 && t[0] == 1 && t[1] == 0 && (forall i :: 2 <= i < 74 ==> t[i] == 0)
            && t[74..106] == transientPublic && FromBigEndian(t[106..114]) == counter && t[114..] == signature
  {
    hide BigEndian, FromBigEndian;
    HelloFields(transientPublic, counter, signature);
    var t := HelloTail(transientPublic, counter, signature);
    assert t[114..] == t[114..194];
  }

  /** WELCOME: 168 bytes; the cookie inside the box is 16 random bytes and a box for the server itself. */
  lemma WelcomeLayout(c: Crypto, k: ServerKeys, cookieTail: Bytes, welcomeTail: Bytes)
    returns (nonce: Bytes, cookieNonce: Bytes)
    requires Ideal(c) && |cookieTail| == 16 && |welcomeTail| == 16
    requires |k.clientTransientPublic| == 32 && |k.transientSecret| == 32 && |k.transientPublic| == 32
    ensures IsLongNonce(nonce, "WELCOME-", welcomeTail) && IsLongNonce(cookieNonce, "COOKIE--", cookieTail)
    ensures WriteWelcome(c, k, cookieTail, welcomeTail).Ok?
    ensures var b := WriteWelcome(c, k, cookieTail, welcomeTail).value;
            && |b| == 168 && b[0] == 7 && b[1..8] == Ascii("WELCOME") && b[8..24] == welcomeTail
            && b[24..] == c.seal(c.shared(k.clientTransientPublic, k.secretKey), nonce,
                                 k.transientPublic +
                                 (cookieTail + c.seal(k.cookieKey, cookieNonce,
                                                      k.clientTransientPublic + k.transientSecret)))
  {
    hide Ascii, CommandBody, LongNonce;
    WelcomeSpelled();
    nonce, cookieNonce := LongNonce(WELCOME_NONCE, welcomeTail), LongNonce(COOKIE_NONCE, cookieTail);
    LongNonceLayout(WELCOME_NONCE, "WELCOME-", welcomeTail);
    LongNonceLayout(COOKIE_NONCE, "COOKIE--", cookieTail);
    var box := WelcomeBox(c, k, Cookie(c, k, cookieTail), welcomeTail);
    CommandLayout(WELCOME, "WELCOME", welcomeTail + box);
    var b := CommandBody(WELCOME, welcomeTail + box);
    ConcatSplit(welcomeTail, box);
    assert b[8..][..16] == b[8..24] && b[8..][16..] == b[24..];
  }

  /** INITIATE: the cookie, the counter, and a box with the client's key, its vouch and the metadata. */
  lemma InitiateLayout(c: Crypto, k: ClientKeys, serverTransientPublic: Bytes, cookie: Bytes, vouchTail: Bytes,
                       counter: nat, metadata: Bytes)
    returns (nonce: Bytes, vouchNonce: Bytes)
    requires Ideal(c) && |cookie| == 96 && |vouchTail| == 16 && counter < U64_LIMIT
    requires |k.transientPublic| == 32 && |k.serverKey| == 32
    ensures IsNonce(nonce, "CurveZMQINITIATE", counter) && IsLongNonce(vouchNonce, "VOUCH---", vouchTail)
    ensures WriteInitiate(c, k, serverTransientPublic, cookie, vouchTail, counter, metadata).Ok?
    ensures var b := WriteInitiate(c, k, serverTransientPublic, cookie, vouchTail, counter, metadata).value;
            && |b| >= 113 && b[0] == 8 && b[1..9] == Ascii("INITIATE") && b[9..105] == cookie
            && FromBigEndian(b[105..113]) == counter
            && b[113..] == c.seal(c.shared(serverTransientPublic, k.transientSecret), nonce,
                                  k.publicKey + vouchTail +
                                  c.seal(c.shared(serverTransientPublic, k.secretKey), vouchNonce,
                                         k.transientPublic + k.serverKey) + metadata)
  {
    hide Ascii, CommandBody, LongNonce, ShortNonce, BigEndian, FromBigEndian;
    InitiateSpelled();
    nonce, vouchNonce := ShortNonce(INITIATE_NONCE, counter), LongNonce(VOUCH_NONCE, vouchTail);
    NonceLayout(INITIATE_NONCE, "CurveZMQINITIATE", counter);
    LongNonceLayout(VOUCH_NONCE, "VOUCH---", vouchTail);
    var vouch := Vouch(c, k, serverTransientPublic, vouchTail);
    var box := c.seal(c.shared(serverTransientPublic, k.transientSecret), nonce,
                      InitiatePlaintext(k.publicKey, vouchTail, vouch, metadata));
    var tail := cookie + BigEndian(counter, 8) + box;
    InitiateFields(cookie, counter, box);
    CommandLayout(INITIATE, "INITIATE", tail);
    var b := CommandBody(INITIATE, tail);
    assert b[9..][..96] == b[9..105] && b[9..][96..104] == b[105..113] && b[9..][104..] == b[113..];
  }

  /** A counter and a box, as READY and MESSAGE carry them. */
  lemma CounterAndBox(counter: nat, box: Bytes)
    requires counter < U64_LIMIT
    ensures var t := BigEndian(counter, 8) + box;
            |t| == 8 + |box| && FromBigEndian(t[..8]) == counter && t[8..] == box
  {
    hide BigEndian, FromBigEndian;
    FieldLimits();
    BigEndianRead(counter, 8);
    ConcatSplit(BigEndian(counter, 8), box);
  }

  /** READY: the counter and a box with the metadata. */
  lemma ReadyLayout(c: Crypto, key: Bytes, counter: nat, metadata: Bytes) returns (nonce: Bytes)
    requires counter < U64_LIMIT
    ensures IsNonce(nonce, "CurveZMQREADY---", counter)
    ensures var b := WriteReady(c, key, counter, metadata);
            && |b| >= 14 && b[0] == 5 && b[1..6] == Ascii("READY") && FromBigEndian(b[6..14]) == counter
            && b[14..] == c.seal(key, nonce, metadata)
  {
    hide Ascii, CommandBody, ShortNonce, BigEndian, FromBigEndian;
    ReadySpelled();
    nonce := ShortNonce(READY_NONCE, counter);
    NonceLayout(READY_NONCE, "CurveZMQREADY---", counter);
    var tail := BigEndian(counter, 8) + c.seal(key, nonce, metadata);
    CounterAndBox(counter, c.seal(key, nonce, metadata));
    CommandLayout(READY, "READY", tail);
    var b := CommandBody(READY, tail);
    assert b[6..][..8] == b[6..14] && b[6..][8..] == b[14..];
  }

  /** MESSAGE: the counter and a box with one flag byte and the data. */
  lemma MessageLayout(c: Crypto, s: CurveSession.Session, text: string, counter: nat, m: CurveSession.Message)
    returns (nonce: Bytes)
    requires s.sendPrefix == Ascii(text) && |text| == 16 && counter < U64_LIMIT
    ensures IsNonce(nonce, text, counter)
    ensures var b := CurveSession.MessageBody(c, s, counter, m);
            && |b| >= 16 && b[0] == 7 && b[1..8] == Ascii("MESSAGE") && FromBigEndian(b[8..16]) == counter
            && b[16..] == c.seal(s.key, nonce, [if m.more then 1 else 0] + m.data)
  {
    hide Ascii, CommandBody, ShortNonce, BigEndian, FromBigEndian;
    MessageCSpelled();
    nonce := ShortNonce(s.sendPrefix, counter);
    NonceLayout(s.sendPrefix, text, counter);
    var box := c.seal(s.key, nonce, CurveSession.Payload(m));
    CounterAndBox(counter, box);
    CommandLayout(MESSAGE, "MESSAGE", BigEndian(counter, 8) + box);
    var b := CommandBody(MESSAGE, BigEndian(counter, 8) + box);
    assert b[8..][..8] == b[8..16] && b[8..][8..] == b[16..];
  }

  /** The frame of a body: two bytes of header for at most 255 bytes, else nine, with no flag but LONG. */
  lemma MessageFrameLayout(body: Bytes)
    requires |body| < U64_LIMIT
    ensures var f := CurveSession.MessageFrame(body);
            if |body| <= 255 then |f| == 2 + |body| && f[0] == 0 && f[1] as int == |body| && f[2..] == body
            else |f| == 9 + |body| && f[0] == 2 && FromBigEndian(f[1..9]) == |body| && f[9..] == body
  {
    hide BigEndian, FromBigEndian;
    FieldLimits();
    BigEndianRead(|body|, 8);
    var f := CurveSession.MessageFrame(body);
    if |body| > 255 {
      assert f[1..9] == BigEndian(|body|, 8);
      assert f[9..] == body;
    } else {
      assert f[2..] == body;
    }
  }

  // No nonce is used twice.

  ghost predicate EndsIn(bytes: Bytes, box: Bytes) {
    |box| <= |bytes| && bytes[|bytes| - |box|..] == box
  }

  ghost predicate Distinct(nonces: seq<Bytes>) {
    forall i, j :: 0 <= i < j < |nonces| ==> nonces[i] != nonces[j]
  }

  /** The bytes end in a box of `plaintext` under the key and nonce. */
  ghost predicate SealedWith(c: Crypto, key: Bytes, bytes: Bytes, nonce: Bytes, plaintext: Bytes) {
    EndsIn(bytes, c.seal(key, nonce, plaintext))
  }

  function Plain(m: CurveSession.Message): Bytes {
    [if m.more then 1 else 0] + m.data
  }

  /** The nonces of the messages one side sends, in order, and what they hold. */
  lemma MessageNonces(c: Crypto, s: CurveSession.Session, text: string, ms: seq<CurveSession.Message>)
    returns (nonces: seq<Bytes>)
    requires s.sendPrefix == Ascii(text) && |text| == 16 && s.sendNonce <= U64_MAX
    ensures |nonces| == |ms| == |CurveSession.SendAll(c, s, ms).1|
    ensures forall i :: 0 <= i < |ms| ==>
              && IsNonce(nonces[i], text, Min(s.sendNonce + i, U64_MAX))
              && SealedWith(c, s.key, CurveSession.SendAll(c, s, ms).1[i], nonces[i], Plain(ms[i]))
  {
    hide Ascii, CurveSession.SendAll, CurveSession.MessageBody, CurveSession.MessageFrame, IsNonce, SealedWith;
    CurveSession.SendAllBodies(c, s, ms);
    nonces := [];
    while |nonces| < |ms|
      invariant |nonces| <= |ms|
      invariant forall i :: 0 <= i < |nonces| ==>
                  && IsNonce(nonces[i], text, Min(s.sendNonce + i, U64_MAX))
                  && SealedWith(c, s.key, CurveSession.SendAll(c, s, ms).1[i], nonces[i], Plain(ms[i]))
    {
      var i := |nonces|;
      var nonce := FrameNonce(c, s, text, CurveSession.CounterAt(s, i), ms[i]);
      nonces := nonces + [nonce];
    }
  }

  lemma FrameNonce(c: Crypto, s: CurveSession.Session, text: string, counter: nat, m: CurveSession.Message)
    returns (nonce: Bytes)
    requires s.sendPrefix == Ascii(text) && |text| == 16 && counter < U64_LIMIT
    ensures IsNonce(nonce, text, counter)
    ensures SealedWith(c, s.key, CurveSession.MessageFrame(CurveSession.MessageBody(c, s, counter, m)), nonce, Plain(m))
  {
    hide Ascii, CurveSession.MessageBody, IsNonce;
    nonce := MessageLayout(c, s, text, counter, m);
    var body := CurveSession.MessageBody(c, s, counter, m);
    var f := CurveSession.MessageFrame(body);
    assert f[|f| - |body|..] == body;
    assert f[|f| - |body| + 16..] == body[16..];
  }

  lemma TextsDiffer()
    ensures Ascii("CurveZMQINITIATE") != Ascii("CurveZMQREADY---")
    ensures Ascii("CurveZMQINITIATE") != Ascii("CurveZMQMESSAGEC")
    ensures Ascii("CurveZMQREADY---") != Ascii("CurveZMQMESSAGEC")
    ensures Ascii("CurveZMQINITIATE") != Ascii("CurveZMQMESSAGES")
    ensures Ascii("CurveZMQREADY---") != Ascii("CurveZMQMESSAGES")
    ensures Ascii("CurveZMQMESSAGEC") != Ascii("CurveZMQMESSAGES")
  {
    assert Ascii("CurveZMQINITIATE")[8] == 73 && Ascii("CurveZMQREADY---")[8] == 82;
    assert Ascii("CurveZMQMESSAGEC")[8] == 77 && Ascii("CurveZMQMESSAGES")[8] == 77;
    assert Ascii("CurveZMQMESSAGEC")[15] == 67 && Ascii("CurveZMQMESSAGES")[15] == 83;
  }

  /** The counters of `n` messages from `first` on, none above the 64-bit maximum. */
  ghost predicate CountFrom(nonces: seq<Bytes>, text: string, first: nat) {
    forall i :: 0 <= i < |nonces| ==> IsNonce(nonces[i], text, Min(first + i, U64_MAX))
  }

  /** One direction repeats a nonce exactly when its counter has reached the maximum and stays there. */
  lemma DirectionDistinctIff(nonces: seq<Bytes>, text: string, first: nat)
    requires CountFrom(nonces, text, first) && first <= U64_MAX
    ensures Distinct(nonces) <==> first + |nonces| <= U64_LIMIT
  {
    hide IsNonce, Ascii;
    forall i, j | 0 <= i < j < |nonces| ensures nonces[i] == nonces[j] <==> first + i >= U64_MAX {
      NonceTellsApart(nonces[i], text, Min(first + i, U64_MAX), nonces[j], text, Min(first + j, U64_MAX));
    }
    if first + |nonces| > U64_LIMIT {
      var last := |nonces| - 1;
      assert nonces[last - 1] == nonces[last];
    }
  }

  lemma DirectionsDiffer(a: seq<Bytes>, text: string, first: nat, b: seq<Bytes>, text': string, first': nat)
    requires CountFrom(a, text, first) && CountFrom(b, text', first') && Ascii(text) != Ascii(text')
    ensures forall i, j :: 0 <= i < |a| && 0 <= j < |b| ==> a[i] != b[j]
  {
    hide IsNonce, Ascii;
    forall i, j | 0 <= i < |a| && 0 <= j < |b| ensures a[i] != b[j] {
      NonceTellsApart(a[i], text, Min(first + i, U64_MAX), b[j], text', Min(first' + j, U64_MAX));
    }
  }

  lemma DistinctConcat(a: seq<Bytes>, b: seq<Bytes>)
    requires forall i, j :: 0 <= i < |a| && 0 <= j < |b| ==> a[i] != b[j]
    ensures Distinct(a + b) <==> Distinct(a) && Distinct(b)
  {
    var ab := a + b;
    if Distinct(ab) {
      forall i, j | 0 <= i < j < |a| ensures a[i] != a[j] {
        assert ab[i] != ab[j];
      }
      forall i, j | 0 <= i < j < |b| ensures b[i] != b[j] {
        assert ab[|a| + i] != ab[|a| + j];
      }
    }
  }

  lemma OneNonce(nonce: Bytes, text: string, counter: nat)
    requires IsNonce(nonce, text, counter) && counter <= U64_MAX
    ensures CountFrom([nonce], text, counter)
  {
    hide IsNonce;
  }

  lemma AllDistinctIff(initiate: Bytes, ready: Bytes, up: seq<Bytes>, down: seq<Bytes>)
    requires IsNonce(initiate, "CurveZMQINITIATE", 2) && IsNonce(ready, "CurveZMQREADY---", 1)
    requires CountFrom(up, "CurveZMQMESSAGEC", 3) && CountFrom(down, "CurveZMQMESSAGES", 2)
    ensures Distinct([initiate] + [ready] + up + down) <==> |up| <= U64_MAX - 2 && |down| <= U64_MAX - 1
  {
    hide IsNonce, Ascii, CountFrom, Distinct;
    TextsDiffer();
    OneNonce(initiate, "CurveZMQINITIATE", 2);
    OneNonce(ready, "CurveZMQREADY---", 1);
    DirectionDistinctIff([initiate], "CurveZMQINITIATE", 2);
    DirectionDistinctIff([ready], "CurveZMQREADY---", 1);
    DirectionDistinctIff(up, "CurveZMQMESSAGEC", 3);
    DirectionDistinctIff(down, "CurveZMQMESSAGES", 2);
    DirectionsDiffer([initiate], "CurveZMQINITIATE", 2, [ready], "CurveZMQREADY---", 1);
    DirectionsDiffer([initiate], "CurveZMQINITIATE", 2, up, "CurveZMQMESSAGEC", 3);
    DirectionsDiffer([initiate], "CurveZMQINITIATE", 2, down, "CurveZMQMESSAGES", 2);
    DirectionsDiffer([ready], "CurveZMQREADY---", 1, up, "CurveZMQMESSAGEC", 3);
    DirectionsDiffer([ready], "CurveZMQREADY---", 1, down, "CurveZMQMESSAGES", 2);
    DirectionsDiffer(up, "CurveZMQMESSAGEC", 3, down, "CurveZMQMESSAGES", 2);
    DistinctConcat([initiate], [ready]);
    DistinctConcat([initiate] + [ready], up);
    DistinctConcat([initiate] + [ready] + up, down);
  }

  lemma PublicLength(c: Crypto, secret: Bytes)
    requires Ideal(c) && |secret| == 32
    ensures |c.public(secret)| == 32
  {
  }

  lemma InitiateNonce(c: Crypto, k: ClientKeys, serverTransientPublic: Bytes, cookie: Bytes, vouchTail: Bytes,
                      metadata: Bytes)
    returns (nonce: Bytes, p: Bytes)
    requires Ideal(c) && |cookie| == 96 && |vouchTail| == 16 && |k.transientPublic| == 32 && |k.serverKey| == 32
    ensures IsNonce(nonce, "CurveZMQINITIATE", 2)
    ensures WriteInitiate(c, k, serverTransientPublic, cookie, vouchTail, 2, metadata).Ok?
    ensures var b := WriteInitiate(c, k, serverTransientPublic, cookie, vouchTail, 2, metadata).value;
            SealedWith(c, c.shared(serverTransientPublic, k.transientSecret), b, nonce, p)
  {
    hide WriteInitiate, Ascii, IsNonce, IsLongNonce, Ideal;
    var vouchNonce;
    nonce, vouchNonce := InitiateLayout(c, k, serverTransientPublic, cookie, vouchTail, 2, metadata);
    var b := WriteInitiate(c, k, serverTransientPublic, cookie, vouchTail, 2, metadata).value;
    p := k.publicKey + vouchTail + c.seal(c.shared(serverTransientPublic, k.secretKey), vouchNonce,
                                          k.transientPublic + k.serverKey) + metadata;
  }

  /** After a handshake between matching keys, everything either side seals under the session key (INITIATE,
      READY, the client's messages and the server's) ends in a box under one of `nonces`, and no two of these
      are the same if and only if neither side has sent more messages than its counter can number. */
  lemma NoNonceReusedIff(c: Crypto, o: Options, r: Random, client: Side, server: Side,
                         up: seq<CurveSession.Message>, down: seq<CurveSession.Message>)
    returns (nonces: seq<Bytes>)
    requires Ideal(c) && OptionsMatch(c, o) && RandomFits(r)
    ensures ClientKeysOf(c, o, r.clientTransient).Ok? && |nonces| == 2 + |up| + |down|
    ensures forall i :: 0 <= i < |nonces| ==> |nonces[i]| == 24
    ensures var e := Expected(c, o, r, client, server);
            var k := ClientKeysOf(c, o, r.clientTransient).value;
            var s := ServerKeysOf(c, OptionKey(o.serverSecret).value, r, k.transientPublic);
            var initiate := WriteInitiate(c, k, s.transientPublic, Cookie(c, s, r.cookieTail), r.vouchTail, 2,
                                          Metadata.EncodeProperties(e.clientMetadata));
            var ready := WriteReady(c, e.server.key, 1, Metadata.EncodeProperties(e.serverMetadata));
            var sent, answered := CurveSession.SendAll(c, e.client, up).1, CurveSession.SendAll(c, e.server, down).1;
            && e.client.key == e.server.key && |sent| == |up| && |answered| == |down|
            && initiate.Ok? && (exists p :: SealedWith(c, e.client.key, initiate.value, nonces[0], p))
            && SealedWith(c, e.client.key, ready, nonces[1], Metadata.EncodeProperties(e.serverMetadata))
            && (forall i :: 0 <= i < |up| ==> SealedWith(c, e.client.key, sent[i], nonces[2 + i], Plain(up[i])))
            && (forall i :: 0 <= i < |down| ==>
                              SealedWith(c, e.client.key, answered[i], nonces[2 + |up| + i], Plain(down[i])))
    ensures Distinct(nonces) <==> |up| <= U64_MAX - 2 && |down| <= U64_MAX - 1
  {
    hide OptionKey, Ascii, Metadata.EncodeProperties, WriteInitiate, WriteReady, CurveSession.SendAll, Cookie,
      SocketMetadata, Ideal, ClientKeysOf;
    KeysMatch(c, o, r);
    var e := Expected(c, o, r, client, server);
    var k := ClientKeysOf(c, o, r.clientTransient).value;
    var s := ServerKeysOf(c, OptionKey(o.serverSecret).value, r, k.transientPublic);
    PublicLength(c, r.clientTransient);
    PublicLength(c, OptionKey(o.serverSecret).value);
    CookieIsAccepted(c, s, r.cookieTail);
    var first, p := InitiateNonce(c, k, s.transientPublic, Cookie(c, s, r.cookieTail), r.vouchTail,
                                  Metadata.EncodeProperties(e.clientMetadata));
    var second := ReadyLayout(c, e.server.key, 1, Metadata.EncodeProperties(e.serverMetadata));
    MessageCSpelled();
    MessageSSpelled();
    var rest := MessageNonces(c, e.client, "CurveZMQMESSAGEC", up);
    var last := MessageNonces(c, e.server, "CurveZMQMESSAGES", down);
    nonces := [first] + [second] + rest + last;
    AllDistinctIff(first, second, rest, last);
    assert nonces[0] == first;
    assert SealedWith(c, e.client.key,
                      WriteInitiate(c, k, s.transientPublic, Cookie(c, s, r.cookieTail), r.vouchTail, 2,
                                    Metadata.EncodeProperties(e.clientMetadata)).value, nonces[0], p);
  }
}
