/** The CURVE message phase of socket.rs: counters as nonces, and a receive check that only lets the
    counter grow. */
module CurveSession {
  import opened Common
  import opened CurveBox
  import ZmtpFrame

  datatype Message = Message(data: Bytes, more: bool)

  datatype Session = Session(key: Bytes, sendNonce: nat, recvNonce: nat, sendPrefix: Bytes, recvPrefix: Bytes)

  function Payload(m: Message): Bytes {
    [if m.more then 1 else 0] + m.data
  }

  /** The body of the message frame with the given counter. */
  function MessageBody(c: Crypto, s: Session, counter: nat, m: Message): Bytes {
    CommandBody(MESSAGE, BigEndian(counter, 8) + c.seal(s.key, ShortNonce(s.sendPrefix, counter), Payload(m)))
  }

  /** The frame around a message body: short or long length, no flags. */
  function MessageFrame(body: Bytes): Bytes {
    if |body| <= 255 then [0, |body| as byte] + body else [2] + BigEndian(|body|, 8) + body
  }

  /** `curve_message_frame`. */
  function SendMessage(c: Crypto, s: Session, m: Message): (Session, Bytes) {
    (s.(sendNonce := NextNonce(s.sendNonce)), MessageFrame(MessageBody(c, s, s.sendNonce, m)))
  }

  /** `curve_message_tail`. */
  function MessageTail(body: Bytes): Result<Bytes> {
    if |body| < 8 || body[0] != 7 || body[1..8] != MESSAGE then Err(InvalidArgument) else Ok(body[8..])
  }

  /** The message reader looks for the same prefix as the command reader, without the command flag. */
  lemma MessageTailIsCommandTail(body: Bytes)
    ensures MessageTail(body) == CommandTailBody(body, MESSAGE)
  {
    if body != [] && |body| >= 1 + body[0] as nat {
      assert |body[1..1 + body[0] as nat]| == body[0] as nat;
    }
  }

  function ReadPayload(plaintext: Bytes): Result<Message> {
    if plaintext == [] || plaintext[0] > 1 then Err(InvalidArgument)
    else Ok(Message(plaintext[1..], plaintext[0] == 1))
  }

  /** `curve_message_from_body`: a counter that does not grow is refused; one that does is remembered
      even if the box then fails to open. */
  function ReceiveMessage(c: Crypto, s: Session, body: Bytes): (Session, Result<Message>) {
    match MessageTail(body)
    case Err(e) => (s, Err(e))
    case Ok(tail) =>
      if |tail| < 25 then (s, Err(InvalidArgument))
      else
        var counter := FromBigEndian(tail[..8]);
        if counter <= s.recvNonce then (s, Err(InvalidArgument))
        else
          var s' := s.(recvNonce := counter);
          match c.open(s.key, ShortNonce(s.recvPrefix, counter), tail[8..])
          case None => (s', Err(InvalidArgument))
          case Some(plaintext) => (s', ReadPayload(plaintext))
  }

  class CurveSessionObject {
    const crypto: Crypto
    const key: Bytes
    const sendPrefix: Bytes
    const recvPrefix: Bytes
    var sendNonce: nat
    var recvNonce: nat

    ghost function View(): Session
      reads this
    {
      Session(key, sendNonce, recvNonce, sendPrefix, recvPrefix)
    }

    /** `curve_session`. */
    constructor (crypto: Crypto, localTransientSecret: Bytes, peerTransientPublic: Bytes,
                 sendNonce: nat, recvNonce: nat, sendPrefix: Bytes, recvPrefix: Bytes)
      ensures this.crypto == crypto
      ensures View() == Session(crypto.shared(peerTransientPublic, localTransientSecret),
                                sendNonce, recvNonce, sendPrefix, recvPrefix)
    {
      this.crypto, this.key := crypto, crypto.shared(peerTransientPublic, localTransientSecret);
      this.sendNonce, this.recvNonce := sendNonce, recvNonce;
      this.sendPrefix, this.recvPrefix := sendPrefix, recvPrefix;
    }

    method NextSendNonce() returns (nonce: nat)
      modifies this`sendNonce
      ensures nonce == old(sendNonce) && sendNonce == NextNonce(old(sendNonce))
    {
      nonce := sendNonce;
      sendNonce := if sendNonce < U64_MAX then sendNonce + 1 else sendNonce;
    }

    method Send(m: Message) returns (frame: Bytes)
      modifies this`sendNonce
      ensures (View(), frame) == SendMessage(crypto, old(View()), m)
    {
      var counter := NextSendNonce();
      var plaintext := [if m.more then 1 else 0] + m.data;
      var ciphertext := crypto.seal(key, ShortNonce(sendPrefix, counter), plaintext);
      var body := [|MESSAGE| as byte] + MESSAGE + (BigEndian(counter, 8) + ciphertext);
      frame := if |body| <= 255 then [0, |body| as byte] + body else [2] + BigEndian(|body|, 8) + body;
    }

    method Receive(body: Bytes) returns (r: Result<Message>)
      modifies this`recvNonce
      ensures (View(), r) == ReceiveMessage(crypto, old(View()), body)
    {
      var tail := MessageTail(body);
      if tail.Err? { return Err(tail.error); }
      if |tail.value| < 25 { return Err(InvalidArgument); }
      var counter := FromBigEndian(tail.value[..8]);
      if counter <= recvNonce { return Err(InvalidArgument); }
      recvNonce := counter;
      var plaintext := crypto.open(key, ShortNonce(recvPrefix, counter), tail.value[8..]);
      if plaintext.None? || plaintext.value == [] || plaintext.value[0] > 1 { return Err(InvalidArgument); }
      r := Ok(Message(plaintext.value[1..], plaintext.value[0] == 1));
    }
  }

  // One message.

  /** The two ends of one direction. */
  ghost predicate Paired(c: Crypto, sender: Session, receiver: Session) {
    Ideal(c) && receiver.key == sender.key && receiver.recvPrefix == sender.sendPrefix
  }

  lemma PayloadRoundTrip(m: Message)
    ensures ReadPayload(Payload(m)) == Ok(m)
  {
    ConcatSplit([if m.more then 1 else 0 as byte], m.data);
  }

  lemma MessageBodyFields(tail: Bytes)
    ensures MessageTail(CommandBody(MESSAGE, tail)) == Ok(tail)
  {
    var body := CommandBody(MESSAGE, tail);
    assert body[1..8] == MESSAGE;
    assert body[8..] == tail;
  }

  /** A sent frame is accepted, with its data and more flag, exactly when its counter exceeds the
      receiver's; either way the receiver remembers the larger one. */
  lemma SentBodyReceived(c: Crypto, sender: Session, receiver: Session, counter: nat, m: Message)
    requires Paired(c, sender, receiver) && counter < U64_LIMIT
    ensures ReceiveMessage(c, receiver, MessageBody(c, sender, counter, m)) ==
            if counter > receiver.recvNonce then (receiver.(recvNonce := counter), Ok(m))
            else (receiver, Err(InvalidArgument))
  {
    hide CommandBody, MessageTail, BigEndian, FromBigEndian, ShortNonce, Payload, ReadPayload;
    var box := c.seal(sender.key, ShortNonce(sender.sendPrefix, counter), Payload(m));
    MessageBodyFields(BigEndian(counter, 8) + box);
    FieldLimits();
    BigEndianRead(counter, 8);
    ConcatSplit(BigEndian(counter, 8), box);
    PayloadRoundTrip(m);
    PayloadNonEmpty(m);
  }

  lemma PayloadNonEmpty(m: Message)
    ensures |Payload(m)| > 0
  {
  }

  // Many messages.

  /** The counter of the i-th message sent from here; it stops growing at the 64-bit maximum. */
  function CounterAt(sender: Session, i: nat): nat {
    Min(sender.sendNonce + i, U64_MAX)
  }

  function BodyAt(c: Crypto, sender: Session, ms: seq<Message>, i: nat): Bytes
    requires i < |ms|
  {
    MessageBody(c, sender, CounterAt(sender, i), ms[i])
  }

  /** The frames of the messages sent one after the other. */
  function SendAll(c: Crypto, sender: Session, ms: seq<Message>): (Session, seq<Bytes>)
    decreases |ms|
  {
    if ms == [] then (sender, [])
    else
      var (s', frame) := SendMessage(c, sender, ms[0]);
      var (s'', frames) := SendAll(c, s', ms[1..]);
      (s'', [frame] + frames)
  }

  /** The receiver after a list of arriving bodies, and the messages it accepted. */
  function ReceiveAll(c: Crypto, receiver: Session, bodies: seq<Bytes>): (Session, seq<Message>) {
    if bodies == [] then (receiver, [])
    else
      var (s, accepted) := ReceiveAll(c, receiver, bodies[..|bodies| - 1]);
      var (s', r) := ReceiveMessage(c, s, bodies[|bodies| - 1]);
      (s', if r.Ok? then accepted + [r.value] else accepted)
  }

  /** The sender's session only moves its counter, and its frames carry the expected bodies. */
  lemma {:induction false} SendAllBodies(c: Crypto, sender: Session, ms: seq<Message>)
    requires sender.sendNonce <= U64_MAX
    ensures |SendAll(c, sender, ms).1| == |ms|
    ensures forall i :: 0 <= i < |ms| ==> SendAll(c, sender, ms).1[i] == MessageFrame(BodyAt(c, sender, ms, i))
    ensures SendAll(c, sender, ms).0 == sender.(sendNonce := CounterAt(sender, |ms|))
    decreases |ms|
  {
    hide MessageFrame, MessageBody;
    if ms != [] {
      var next := SendMessage(c, sender, ms[0]).0;
      SendAllBodies(c, next, ms[1..]);
      forall i | 1 <= i < |ms| ensures BodyAt(c, next, ms[1..], i - 1) == BodyAt(c, sender, ms, i) {
        assert CounterAt(next, i - 1) == CounterAt(sender, i);
        SameSender(c, sender, next, CounterAt(sender, i), ms[i]);
      }
    }
  }

  lemma SameSender(c: Crypto, s: Session, s': Session, counter: nat, m: Message)
    requires s'.key == s.key && s'.sendPrefix == s.sendPrefix
    ensures MessageBody(c, s', counter, m) == MessageBody(c, s, counter, m)
  {
  }

  /** The messages at the given positions. */
  function Pick(ms: seq<Message>, at: seq<nat>): (r: seq<Message>)
    requires forall k :: 0 <= k < |at| ==> at[k] < |ms|
    ensures |r| == |at|
  {
    seq(|at|, k requires 0 <= k < |at| => ms[at[k]])
  }

  ghost predicate Increasing(at: seq<nat>) {
    forall j, k :: 0 <= j < k < |at| ==> at[j] < at[k]
  }

  ghost predicate WasSent(c: Crypto, sender: Session, ms: seq<Message>, body: Bytes) {
    exists i :: 0 <= i < |ms| && body == BodyAt(c, sender, ms, i)
  }

  /** The box of this body does not open for the receiver, whatever counter it holds. */
  ghost predicate Unopenable(c: Crypto, receiver: Session, body: Bytes) {
    MessageTail(body).Ok? && |MessageTail(body).value| >= 25 ==>
      var tail := MessageTail(body).value;
      c.open(receiver.key, ShortNonce(receiver.recvPrefix, FromBigEndian(tail[..8])), tail[8..]).None?
  }

  /** Nobody else can produce a box that opens: whatever arrives was sent or does not open. */
  ghost predicate Unforged(c: Crypto, sender: Session, receiver: Session, ms: seq<Message>, bodies: seq<Bytes>) {
    forall j :: 0 <= j < |bodies| ==> WasSent(c, sender, ms, bodies[j]) || Unopenable(c, receiver, bodies[j])
  }

  lemma UnopenableRefused(c: Crypto, receiver: Session, body: Bytes)
    requires Unopenable(c, receiver, body)
    ensures var (s, r) := ReceiveMessage(c, receiver, body);
            r.Err? && s == receiver.(recvNonce := s.recvNonce) && s.recvNonce >= receiver.recvNonce
  {
  }

  lemma PickOneMore(ms: seq<Message>, at: seq<nat>, i: nat)
    requires i < |ms| && forall k :: 0 <= k < |at| ==> at[k] < |ms|
    ensures Pick(ms, at + [i]) == Pick(ms, at) + [ms[i]]
  {
  }

  /** However the sent frames are reordered, repeated, dropped or mixed with frames that do not open,
      the accepted messages are sent messages, in sending order, none of them twice. */
  lemma {:induction false} AcceptedInOrder(c: Crypto, sender: Session, receiver: Session, ms: seq<Message>,
                                           bodies: seq<Bytes>)
    returns (at: seq<nat>)
    requires Paired(c, sender, receiver) && Unforged(c, sender, receiver, ms, bodies)
    ensures Increasing(at) && forall k :: 0 <= k < |at| ==> at[k] < |ms|
    ensures ReceiveAll(c, receiver, bodies).1 == Pick(ms, at)
    ensures var s := ReceiveAll(c, receiver, bodies).0;
            && s == receiver.(recvNonce := s.recvNonce)
            && forall k :: 0 <= k < |at| ==> CounterAt(sender, at[k]) <= s.recvNonce
    decreases |bodies|
  {
    hide ReceiveMessage, MessageBody, Unopenable, Ideal, Pick;
    if bodies == [] {
      at := [];
      assert Pick(ms, []) == [];
    } else {
      var front, body := bodies[..|bodies| - 1], bodies[|bodies| - 1];
      at := AcceptedInOrder(c, sender, receiver, ms, front);
      var s := ReceiveAll(c, receiver, front).0;
      if WasSent(c, sender, ms, body) {
        var i :| 0 <= i < |ms| && body == BodyAt(c, sender, ms, i);
        SentBodyReceived(c, sender, s, CounterAt(sender, i), ms[i]);
        if CounterAt(sender, i) > s.recvNonce {
          PickOneMore(ms, at, i);
          at := at + [i];
        }
      } else {
        UnopenableElsewhere(c, receiver, s, body);
        UnopenableRefused(c, s, body);
      }
    }
  }

  lemma UnopenableElsewhere(c: Crypto, r: Session, r': Session, body: Bytes)
    requires Unopenable(c, r, body) && r'.key == r.key && r'.recvPrefix == r.recvPrefix
    ensures Unopenable(c, r', body)
  {
  }

  /** What arrives: the body of the i-th message sent, or a body that does not open here. */
  datatype Arrival = Sent(i: nat) | Foreign(body: Bytes)

  function ArrivingBody(c: Crypto, sender: Session, ms: seq<Message>, a: Arrival): Bytes
    requires a.Sent? ==> a.i < |ms|
  {
    match a
    case Sent(i) => BodyAt(c, sender, ms, i)
    case Foreign(body) => body
  }

  function ArrivingBodies(c: Crypto, sender: Session, ms: seq<Message>, arrivals: seq<Arrival>): seq<Bytes>
    requires forall k :: 0 <= k < |arrivals| && arrivals[k].Sent? ==> arrivals[k].i < |ms|
  {
    seq(|arrivals|, k requires 0 <= k < |arrivals| => ArrivingBody(c, sender, ms, arrivals[k]))
  }

  /** The counter a body announces; zero if it is too short or not a message at all. */
  function AnnouncedCounter(body: Bytes): nat {
    match MessageTail(body)
    case Err(_) => 0
    case Ok(tail) => if |tail| < 25 then 0 else FromBigEndian(tail[..8])
  }

  /** Which sent messages carry a counter above everything announced before them, by whomever, and the
      highest counter announced. */
  function Records(sender: Session, arrivals: seq<Arrival>, top: nat): (seq<nat>, nat) {
    if arrivals == [] then ([], top)
    else
      var (kept, high) := Records(sender, arrivals[..|arrivals| - 1], top);
      match arrivals[|arrivals| - 1]
      case Sent(i) => if CounterAt(sender, i) > high then (kept + [i], CounterAt(sender, i)) else (kept, high)
      case Foreign(body) => (kept, if AnnouncedCounter(body) > high then AnnouncedCounter(body) else high)
  }

  lemma {:induction false} RecordsArePositions(sender: Session, arrivals: seq<Arrival>, top: nat, limit: nat)
    requires forall k :: 0 <= k < |arrivals| && arrivals[k].Sent? ==> arrivals[k].i < limit
    ensures forall k :: 0 <= k < |Records(sender, arrivals, top).0| ==> Records(sender, arrivals, top).0[k] < limit
  {
    if arrivals != [] { RecordsArePositions(sender, arrivals[..|arrivals| - 1], top, limit); }
  }

  /** A body that does not open is refused, and still raises the receiver's counter to its own. */
  lemma UnopenableSilences(c: Crypto, receiver: Session, body: Bytes)
    requires Unopenable(c, receiver, body)
    ensures var counter := AnnouncedCounter(body);
            var (s, r) := ReceiveMessage(c, receiver, body);
            r.Err? && s == receiver.(recvNonce := if counter > receiver.recvNonce then counter else receiver.recvNonce)
  {
  }

  /** Whatever arrives, in any order, with repeats, gaps and bodies that do not open: accepted is exactly
      each sent message whose counter exceeds every counter that was announced before it. */
  lemma {:induction false} AcceptedAreRecords(c: Crypto, sender: Session, receiver: Session, ms: seq<Message>,
                                              arrivals: seq<Arrival>)
    requires Paired(c, sender, receiver)
    requires forall k :: 0 <= k < |arrivals| && arrivals[k].Sent? ==> arrivals[k].i < |ms|
    requires forall k :: 0 <= k < |arrivals| && arrivals[k].Foreign? ==> Unopenable(c, receiver, arrivals[k].body)
    ensures var (kept, high) := Records(sender, arrivals, receiver.recvNonce);
            && (forall k :: 0 <= k < |kept| ==> kept[k] < |ms|)
            && ReceiveAll(c, receiver, ArrivingBodies(c, sender, ms, arrivals)) ==
               (receiver.(recvNonce := high), Pick(ms, kept))
  {
    hide ReceiveMessage, MessageBody, Ideal, Pick, Unopenable, AnnouncedCounter;
    RecordsArePositions(sender, arrivals, receiver.recvNonce, |ms|);
    if arrivals == [] {
      assert Pick(ms, []) == [];
    } else {
      var front, last := arrivals[..|arrivals| - 1], arrivals[|arrivals| - 1];
      AcceptedAreRecords(c, sender, receiver, ms, front);
      var (kept, high) := Records(sender, front, receiver.recvNonce);
      var bodies, s := ArrivingBodies(c, sender, ms, arrivals), receiver.(recvNonce := high);
      assert bodies[..|bodies| - 1] == ArrivingBodies(c, sender, ms, front);
      match last
      case Sent(i) =>
        SentBodyReceived(c, sender, s, CounterAt(sender, i), ms[i]);
        PickOneMore(ms, kept, i);
      case Foreign(body) =>
        UnopenableElsewhere(c, receiver, s, body);
        UnopenableSilences(c, s, body);
    }
  }

  /** The bodies of all messages, in order. */
  function Bodies(c: Crypto, sender: Session, ms: seq<Message>): (r: seq<Bytes>)
    ensures |r| == |ms|
  {
    seq(|ms|, i requires 0 <= i < |ms| => BodyAt(c, sender, ms, i))
  }

  /** How many messages can be sent before two would carry the same counter. */
  function Room(sender: Session): nat {
    if sender.sendNonce <= U64_MAX then U64_MAX - sender.sendNonce + 1 else 0
  }

  /** On a lossless, ordered channel the receiver gets exactly the messages sent before the counter
      saturates. */
  lemma {:induction false} LosslessReceive(c: Crypto, sender: Session, receiver: Session, ms: seq<Message>, n: nat)
    requires Paired(c, sender, receiver) && receiver.recvNonce < sender.sendNonce <= U64_MAX && n <= |ms|
    ensures ReceiveAll(c, receiver, Bodies(c, sender, ms)[..n]) ==
            (receiver.(recvNonce := if n == 0 then receiver.recvNonce else CounterAt(sender, n - 1)),
             ms[..Min(n, Room(sender))])
    decreases n
  {
    hide ReceiveMessage, MessageBody, Ideal;
    var bodies := Bodies(c, sender, ms);
    if n == 0 {
      assert bodies[..0] == [] && ms[..0] == [];
    } else {
      LosslessReceive(c, sender, receiver, ms, n - 1);
      assert bodies[..n][..n - 1] == bodies[..n - 1];
      var s := ReceiveAll(c, receiver, bodies[..n - 1]).0;
      SentBodyReceived(c, sender, s, CounterAt(sender, n - 1), ms[n - 1]);
      if n <= Room(sender) {
        assert ms[..n - 1] + [ms[n - 1]] == ms[..n];
      }
    }
  }

  /** On such a channel everything is received exactly when the counters do not run out. */
  lemma LosslessIff(c: Crypto, sender: Session, receiver: Session, ms: seq<Message>)
    requires Paired(c, sender, receiver) && receiver.recvNonce < sender.sendNonce <= U64_MAX
    ensures ReceiveAll(c, receiver, Bodies(c, sender, ms)).1 == ms <==> |ms| <= U64_MAX - sender.sendNonce + 1
  {
    hide ReceiveAll, Bodies, Ideal;
    LosslessReceive(c, sender, receiver, ms, |ms|);
    assert Bodies(c, sender, ms)[..|ms|] == Bodies(c, sender, ms);
    assert ms[..|ms|] == ms;
  }

  // The same over a byte stream.

  /** The bodies of the frames on a stream. */
  function ReadBodies(stream: Bytes): Result<seq<Bytes>>
    decreases |stream|
  {
    if stream == [] then Ok([])
    else
      var (body, rest) :- ZmtpFrame.TakeBody(stream);
      var bodies :- ReadBodies(rest);
      Ok([body] + bodies)
  }

  function Concat(frames: seq<Bytes>): Bytes {
    if frames == [] then [] else frames[0] + Concat(frames[1..])
  }

  lemma MessageFrameIsZmtp(body: Bytes)
    ensures MessageFrame(body) == ZmtpFrame.Encode(ZmtpFrame.Frame(body, false, false)) && MessageFrame(body) != []
  {
    hide BigEndian;
    assert ZmtpFrame.Flags(ZmtpFrame.Frame(body, false, false), true, |body| > 255) == if |body| > 255 then 2 else 0;
  }

  lemma {:induction false} FramesCarryBodies(frames: seq<Bytes>, bodies: seq<Bytes>)
    requires |frames| == |bodies|
    requires forall i :: 0 <= i < |frames| ==> frames[i] == MessageFrame(bodies[i]) && |bodies[i]| < U64_LIMIT
    ensures ReadBodies(Concat(frames)) == Ok(bodies)
  {
    hide MessageFrame, ZmtpFrame.TakeBody, ZmtpFrame.Encode;
    if frames != [] {
      FramesCarryBodies(frames[1..], bodies[1..]);
      MessageFrameIsZmtp(bodies[0]);
      ZmtpFrame.TakeBodyAfterEncode(ZmtpFrame.Frame(bodies[0], false, false), Concat(frames[1..]));
      assert bodies == [bodies[0]] + bodies[1..];
    }
  }

  /** Sending messages as frames on one stream and reading the stream back gives exactly the messages
      sent before the counter saturates. */
  lemma StreamRoundTrip(c: Crypto, sender: Session, receiver: Session, ms: seq<Message>)
    requires Paired(c, sender, receiver) && receiver.recvNonce < sender.sendNonce <= U64_MAX
    requires forall i :: 0 <= i < |ms| ==> |ms[i].data| + 33 < U64_LIMIT
    ensures var bodies := ReadBodies(Concat(SendAll(c, sender, ms).1));
            bodies.Ok? && ReceiveAll(c, receiver, bodies.value).1 == ms[..Min(|ms|, Room(sender))]
  {
    hide ReceiveAll, MessageFrame, SendAll, ReadBodies, Concat, MessageBody;
    var frames, bodies := SendAll(c, sender, ms).1, Bodies(c, sender, ms);
    SendAllBodies(c, sender, ms);
    forall i | 0 <= i < |ms| ensures |bodies[i]| < U64_LIMIT {
      BodyLength(c, sender, CounterAt(sender, i), ms[i]);
    }
    FramesCarryBodies(frames, bodies);
    LosslessReceive(c, sender, receiver, ms, |ms|);
    assert bodies[..|ms|] == bodies;
  }

  lemma BodyLength(c: Crypto, s: Session, counter: nat, m: Message)
    requires Ideal(c)
    ensures |MessageBody(c, s, counter, m)| == |m.data| + 33
  {
  }
}
