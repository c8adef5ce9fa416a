/** What an XPUB application can conclude from the messages it receives. They are plain bytes: a
    notification is a frame that starts with 1 or 0, and nothing marks it as one. */
module XpubReading {
  import opened Common
  import opened XpubHub
  import opened XpubRuns
  import opened XpubCommands
  import Endpoint
  import Subscriptions

  /** Everything the XPUB application has received or will receive from its inbox, as messages. */
  function Received(h: Hub): seq<Endpoint.Message> {
    Endpoint.WireAll(Emitted(h))
  }

  predicate SpeaksOf(m: Endpoint.Message, topic: Bytes) {
    SpellsCall(m.data) && m.data[1..] == topic
  }

  /** Last-wins reading of the bytes: is the topic on? */
  function ReadsOn(ms: seq<Endpoint.Message>, topic: Bytes): bool {
    if ms == [] then false
    else
      var last := ms[|ms| - 1];
      if SpeaksOf(last, topic) then last.data[0] == 1 else ReadsOn(ms[..|ms| - 1], topic)
  }

  /** The on/off values read for one topic, in order. */
  function ReadNotes(ms: seq<Endpoint.Message>, topic: Bytes): seq<bool> {
    if ms == [] then []
    else
      var last := ms[|ms| - 1];
      ReadNotes(ms[..|ms| - 1], topic) + if SpeaksOf(last, topic) then [last.data[0] == 1] else []
  }

  // The bytes say what the endpoint means, as long as no data frame imitates a notification.

  ghost predicate NoImitation(items: seq<Item>) {
    forall i :: 0 <= i < |items| && items[i].Data? ==> !SpellsCall(items[i].bytes)
  }

  lemma WireSpeaks(item: Item, topic: Bytes)
    requires item.Data? ==> !SpellsCall(item.bytes)
    ensures SpeaksOf(Endpoint.Wire(item), topic) <==> item.Change? && item.topic == topic
    ensures item.Change? ==> Endpoint.Wire(item).data[0] == if item.on then 1 else 0
  {
    if item.Change? {
      ConcatSplit([if item.on then 1 else 0 as byte], item.topic);
    }
  }

  lemma {:induction false} BytesSayTheSame(items: seq<Item>, topic: Bytes)
    requires NoImitation(items)
    ensures ReadsOn(Endpoint.WireAll(items), topic) == IsOn(items, topic)
    ensures ReadNotes(Endpoint.WireAll(items), topic) == NotesOf(items, topic)
  {
    if items != [] {
      var front, ms := items[..|items| - 1], Endpoint.WireAll(items);
      BytesSayTheSame(front, topic);
      assert ms[..|ms| - 1] == Endpoint.WireAll(front);
      hide Endpoint.Wire, SpeaksOf;
      WireSpeaks(items[|items| - 1], topic);
    }
  }

  /** The first-part option is never turned on. */
  predicate AllPartsStep(step: Step) {
    (step.Open? || step.SetOptions?) ==> !step.onlyFirst
  }

  ghost predicate PlainRun(steps: seq<Step>) {
    forall i :: 0 <= i < |steps| ==> QuietStep(steps[i]) && AllPartsStep(steps[i])
  }

  lemma EnqueuePlain(h: Hub, item: Item)
    requires NoImitation(Emitted(h)) && (item.Data? ==> !SpellsCall(item.bytes))
    ensures NoImitation(Emitted(Enqueue(h, item)))
  {
    ConcatAssociative(h.seen, h.inbox, [item]);
  }

  lemma AnnouncesPlain(h: Hub, h': Hub, id: nat)
    requires NoImitation(Emitted(h)) && Announces(h, h', id)
    ensures NoImitation(Emitted(h'))
  {
    SplitConcat(h'.inbox, |h.inbox|);
    ConcatAssociative(h.seen, h.inbox, h'.inbox[|h.inbox|..]);
    assert Emitted(h') == Emitted(h) + h'.inbox[|h.inbox|..];
  }

  lemma StepPlain(w: World, step: Step)
    requires Consistent(w) && AllParts(w, w.sockets.Keys) && NoImitation(Emitted(w.hub))
    ensures NoImitation(Emitted(Apply(w, step).hub))
  {
    if BySocket(step) {
      StepAnnounces(w, step);
      hide Apply, Consistent;
      var h' := Apply(w, step).hub;
      if Announces(w.hub, h', step.id) {
        AnnouncesPlain(w.hub, h', step.id);
      } else {
        EnqueuePlain(w.hub, Data(step.data, step.more));
      }
    } else if step.XpubReceive? {
      ReceiveReads(w);
    }
  }

  /** While the first-part option stays off, no forwarded frame starts with 0 or 1. */
  lemma {:induction false} RunPlain(steps: seq<Step>)
    requires forall i :: 0 <= i < |steps| ==> AllPartsStep(steps[i])
    ensures NoImitation(Emitted(Run(steps).hub))
  {
    if steps != [] {
      var before := steps[..|steps| - 1];
      RunPlain(before);
      RunConsistent(before);
      RunAllParts(before, Run(before).sockets.Keys);
      hide Apply, Consistent, NoImitation, AllParts;
      StepPlain(Run(before), steps[|steps| - 1]);
    }
  }

  // What the bytes of a run tell.

  /** Folding the received bytes of any plain run, last one wins, rebuilds exactly the union of the
      attached sockets' topics; an application that has drained its inbox knows that union. */
  lemma NotificationsRebuildUnion(steps: seq<Step>, topic: Bytes)
    requires PlainRun(steps)
    ensures ReadsOn(Received(Run(steps).hub), topic) <==> Wanted(Run(steps), topic)
    ensures var h := Run(steps).hub;
            h.inbox == [] ==> (ReadsOn(Endpoint.WireAll(h.seen), topic) <==> Wanted(Run(steps), topic))
  {
    hide Run, IsOn, ReadsOn;
    RunReadsRight(steps);
    RunConsistent(steps);
    WantedIsListed(Run(steps), topic);
    RunPlain(steps);
    BytesSayTheSame(Emitted(Run(steps).hub), topic);
    ConcatEmpty(Run(steps).hub.seen);
  }

  /** With verbose subscribing off as well, the bytes about each topic go on, off, on, off, ... */
  lemma NotificationsAlternate(steps: seq<Step>, topic: Bytes)
    requires PlainRun(steps) && forall i :: 0 <= i < |steps| ==> SilentStep(steps[i])
    ensures Alternates(ReadNotes(Received(Run(steps).hub), topic))
  {
    hide Run, NotesOf, ReadNotes;
    RunReadsStrictly(steps);
    RunPlain(steps);
    BytesSayTheSame(Emitted(Run(steps).hub), topic);
  }

  /** What an application that forwards what it reads upstream asks for. */
  ghost predicate AsksFor(ms: seq<Endpoint.Message>, data: Bytes) {
    exists topic :: topic <= data && ReadsOn(ms, topic)
  }

  /** Some attached socket's own index matches the data. */
  ghost predicate SomeoneMatches(w: World, data: Bytes) {
    exists id :: id in w.sockets && w.sockets[id].attached && Subscriptions.Matches(w.sockets[id].subs.refs, data)
  }

  /** A proxy that subscribes upstream to the topics it reads as on gets exactly the messages that some
      attached socket accepts. */
  lemma ProxyAsksForWhatIsAccepted(steps: seq<Step>, data: Bytes)
    requires PlainRun(steps)
    ensures AsksFor(Received(Run(steps).hub), data) <==> SomeoneMatches(Run(steps), data)
  {
    hide Run, ReadsOn, PlainRun;
    var w := Run(steps);
    if AsksFor(Received(w.hub), data) {
      var topic :| topic <= data && ReadsOn(Received(w.hub), topic);
      NotificationsRebuildUnion(steps, topic);
      var id :| Holds(w, id, topic);
    }
    if SomeoneMatches(w, data) {
      var id :| id in w.sockets && w.sockets[id].attached && Subscriptions.Matches(w.sockets[id].subs.refs, data);
      var topic :| topic in w.sockets[id].subs.refs && topic <= data;
      assert Holds(w, id, topic);
      NotificationsRebuildUnion(steps, topic);
    }
  }

  // Which modes can be read at all.

  /** The endpoint's policy and the sockets' options, fixed for a whole run. */
  datatype Mode = Mode(policy: Policy, verboseUnsubscribe: bool, onlyFirst: bool)

  predicate InMode(step: Step, mode: Mode) {
    match step
    case Open(_, onlyFirst, verbose, _) => verbose == mode.verboseUnsubscribe && onlyFirst == mode.onlyFirst
    case SetOptions(_, onlyFirst, verbose, _) => verbose == mode.verboseUnsubscribe && onlyFirst == mode.onlyFirst
    case XpubSetPolicy(p) => p == mode.policy
    case _ => true
  }

  ghost predicate ModeRun(steps: seq<Step>, mode: Mode) {
    steps != [] && steps[0] == XpubSetPolicy(mode.policy) && forall i :: 0 <= i < |steps| ==> InMode(steps[i], mode)
  }

  /** The bytes tell for every topic whether some attached socket wants it. */
  ghost predicate ReadsRightly(w: World) {
    forall topic :: ReadsOn(Received(w.hub), topic) <==> Wanted(w, topic)
  }

  /** In this mode, every run can be read last-wins. */
  ghost predicate Readable(mode: Mode) {
    forall steps :: ModeRun(steps, mode) ==> ReadsRightly(Run(steps))
  }

  const DEMO_TOPIC: Bytes := [65]

  function Opening(mode: Mode): seq<Step> {
    [XpubSetPolicy(mode.policy)] + [Open(1, mode.onlyFirst, mode.verboseUnsubscribe, 0)] + [Connect(1)]
  }

  /** One attached socket without subscriptions. */
  lemma AfterOpening(mode: Mode)
    ensures Run(Opening(mode)) ==
            World(START.hub.(policy := mode.policy),
                  map[1 := Xsub(Subscriptions.EMPTY, true, false, false, mode.onlyFirst, mode.verboseUnsubscribe, 0)])
    ensures ModeRun(Opening(mode), mode)
  {
    assert Run([]) == START;
    hide Run;
    var s0 := [XpubSetPolicy(mode.policy)];
    RunExtend([], s0[0]);
    ConcatEmpty(s0);
    RunExtend(s0, Open(1, mode.onlyFirst, mode.verboseUnsubscribe, 0));
    var s1 := s0 + [Open(1, mode.onlyFirst, mode.verboseUnsubscribe, 0)];
    RunExtend(s1, Connect(1));
  }

  lemma ExtendMode(steps: seq<Step>, step: Step, mode: Mode)
    requires ModeRun(steps, mode) && InMode(step, mode)
    ensures ModeRun(steps + [step], mode) && Run(steps + [step]) == Apply(Run(steps), step)
  {
    RunExtend(steps, step);
  }

  function Meeting(mode: Mode): seq<Step> {
    Opening(mode) + [Open(2, mode.onlyFirst, mode.verboseUnsubscribe, 0)] + [Connect(2)]
  }

  /** Two attached sockets without subscriptions. */
  lemma AfterMeeting(mode: Mode)
    ensures var w, s := Run(Meeting(mode)),
                        Xsub(Subscriptions.EMPTY, true, false, false, mode.onlyFirst, mode.verboseUnsubscribe, 0);
            w == World(START.hub.(policy := mode.policy), map[1 := s, 2 := s])
    ensures ModeRun(Meeting(mode), mode)
  {
    hide Run;
    AfterOpening(mode);
    var open := Open(2, mode.onlyFirst, mode.verboseUnsubscribe, 0);
    ExtendMode(Opening(mode), open, mode);
    ExtendMode(Opening(mode) + [open], Connect(2), mode);
  }

  /** A last message that says the opposite of the truth about its topic. */
  lemma LastWordWrong(w: World, item: Item, topic: Bytes)
    requires w.hub.inbox != [] && w.hub.inbox[|w.hub.inbox| - 1] == item
    requires SpeaksOf(Endpoint.Wire(item), topic)
    requires Endpoint.Wire(item).data[0] == 1 <==> !Wanted(w, topic)
    ensures !ReadsRightly(w)
  {
    var items := Emitted(w.hub);
    assert items[|items| - 1] == item;
    assert Received(w.hub)[|items| - 1] == Endpoint.Wire(item);
    assert ReadsOn(Received(w.hub), topic) <==> !Wanted(w, topic);
  }

  /** With the first-part option on, a frame that spells a subscription is passed on and read as one. */
  lemma ImitationMisreads(mode: Mode)
    requires mode.onlyFirst
    ensures exists steps :: ModeRun(steps, mode) && !ReadsRightly(Run(steps))
  {
    hide Run, DoSend;
    var s, step := Opening(mode), Send(1, [1, 65], false);
    AfterOpening(mode);
    var w := Run(s);
    ExtendMode(s, step, mode);
    DataEffect(w, 1, [1, 65], false);
    var w' := Run(s + [step]);
    assert forall id :: !Holds(w', id, DEMO_TOPIC);
    LastWordWrong(w', Data([1, 65], false), DEMO_TOPIC);
  }

  /** In manual or verboser mode, one of two subscribers leaving is announced as off. */
  lemma LeavingOneOfTwoMisreads(mode: Mode)
    requires !Quiet(mode.policy)
    ensures exists steps :: ModeRun(steps, mode) && !ReadsRightly(Run(steps))
  {
    hide Run, ReadsRightly, Consistent, DoSubscribe, DoUnsubscribe;
    var s2, t := Meeting(mode), DEMO_TOPIC;
    AfterMeeting(mode);
    ExtendMode(s2, SubscribeTo(1, t), mode);
    var s3 := s2 + [SubscribeTo(1, t)];
    ExtendMode(s3, SubscribeTo(2, t), mode);
    var s4 := s3 + [SubscribeTo(2, t)];
    ExtendMode(s4, UnsubscribeFrom(1, t), mode);
    SubscribeKeepsRest(Run(s2), 1, t);
    TwoSubscribe(Run(s2), t);
    RunConsistent(s4);
    LeaveMisreads(Run(s4), 1, 2, t);
  }

  lemma TwoSubscribe(w: World, t: Bytes)
    requires 1 in w.sockets && 2 in w.sockets && w.sockets[1].attached && w.sockets[2].attached
    requires w.sockets[1].subs == Subscriptions.EMPTY && w.sockets[2].subs == Subscriptions.EMPTY
    ensures var w' := DoSubscribe(DoSubscribe(w, 1, t), 2, t);
            && Holds(w', 1, t) && Holds(w', 2, t) && w'.sockets[1].subs.refs[t] == 1 && w'.hub.policy == w.hub.policy
  {
    SubscribeKeepsRest(w, 1, t);
    SubscribeKeepsRest(DoSubscribe(w, 1, t), 2, t);
  }

  lemma LeaveMisreads(w: World, a: nat, b: nat, t: Bytes)
    requires Consistent(w) && a != b && Holds(w, a, t) && Holds(w, b, t) && w.sockets[a].subs.refs[t] == 1
    requires !Quiet(w.hub.policy)
    ensures !ReadsRightly(Apply(w, UnsubscribeFrom(a, t)))
  {
    hide ReadsRightly;
    var w' := DoUnsubscribe(w, a, t);
    assert a in PeersOf(w.hub.topics, t) <==> Holds(w, a, t);
    assert w'.hub == Unsubscribe(w.hub, a, t, false);
    assert w'.hub.inbox == w.hub.inbox + [Change(false, t)];
    assert Holds(w', b, t);
    WireSpeaks(Change(false, t), t);
    LastWordWrong(w', Change(false, t), t);
  }

  /** With XSUB verbose unsubscribing, leaving a topic one never joined is announced as off. */
  lemma LeavingUnjoinedMisreads(mode: Mode)
    requires mode.verboseUnsubscribe
    ensures exists steps :: ModeRun(steps, mode) && !ReadsRightly(Run(steps))
  {
    hide Run, ReadsRightly, Consistent, DoSubscribe, DoUnsubscribe;
    var s2, t := Meeting(mode), DEMO_TOPIC;
    AfterMeeting(mode);
    ExtendMode(s2, SubscribeTo(1, t), mode);
    var s3 := s2 + [SubscribeTo(1, t)];
    ExtendMode(s3, UnsubscribeFrom(2, t), mode);
    SubscribeKeepsRest(Run(s2), 1, t);
    UnjoinedMisreads(Run(s3), 1, 2, t);
  }

  lemma UnjoinedMisreads(w: World, a: nat, b: nat, t: Bytes)
    requires a != b && Holds(w, a, t) && b in w.sockets && w.sockets[b].attached && w.sockets[b].verboseUnsubscribe
    requires t !in w.sockets[b].subs.refs
    ensures !ReadsRightly(Apply(w, UnsubscribeFrom(b, t)))
  {
    hide ReadsRightly;
    var w' := DoUnsubscribe(w, b, t);
    assert Holds(w', a, t);
    WireSpeaks(Change(false, t), t);
    LastWordWrong(w', Change(false, t), t);
  }

  /** The bytes can be read last-wins in every run of a mode exactly when manual mode, XPUB verbose
      unsubscribing, XSUB verbose unsubscribing and the first-part option are all off. */
  lemma ReadableIff(mode: Mode)
    ensures Readable(mode) <==> Quiet(mode.policy) && !mode.verboseUnsubscribe && !mode.onlyFirst
  {
    hide Run, ReadsOn;
    if !Quiet(mode.policy) {
      LeavingOneOfTwoMisreads(mode);
    } else if mode.verboseUnsubscribe {
      LeavingUnjoinedMisreads(mode);
    } else if mode.onlyFirst {
      ImitationMisreads(mode);
    } else {
      forall steps, topic | ModeRun(steps, mode)
        ensures ReadsOn(Received(Run(steps).hub), topic) <==> Wanted(Run(steps), topic)
      {
        NotificationsRebuildUnion(steps, topic);
      }
    }
  }

  /** No other reading would help: with the first-part option, two quiet runs give the XPUB the same bytes,
      and the topic is wanted in only one of them. */
  lemma NoReadingCanTell()
    ensures exists one, other ::
              && (forall i :: 0 <= i < |one| ==> QuietStep(one[i])) &&
                 (forall i :: 0 <= i < |other| ==> QuietStep(other[i]))
              && Received(Run(one).hub) == Received(Run(other).hub)
              && !Wanted(Run(one), DEMO_TOPIC) && Wanted(Run(other), DEMO_TOPIC)
  {
    hide Run, DoSend, Received;
    var on, off := Mode(SILENT, false, true), Mode(SILENT, false, false);
    AfterOpening(on);
    AfterOpening(off);
    var frame, call := Send(1, [1, 65], false), SubscribeTo(1, DEMO_TOPIC);
    var one, other := Opening(on) + [frame], Opening(off) + [call];
    ExtendMode(Opening(on), frame, on);
    ExtendMode(Opening(off), call, off);
    DataEffect(Run(Opening(on)), 1, [1, 65], false);
    SameBytes(Run(one).hub, Run(other).hub);
    assert forall id :: !Holds(Run(one), id, DEMO_TOPIC);
    assert Holds(Run(other), 1, DEMO_TOPIC);
  }

  lemma SameBytes(h: Hub, h': Hub)
    requires h.seen == [] && h'.seen == [] && h.inbox == [Data([1, 65], false)] &&
             h'.inbox == [Change(true, DEMO_TOPIC)]
    ensures Received(h) == Received(h')
  {
    assert Endpoint.Wire(h.inbox[0]) == Endpoint.Wire(h'.inbox[0]);
  }
}
