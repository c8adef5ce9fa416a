/** Runs of one bound XPUB endpoint with any number of XSUB sockets: the subscribe, unsubscribe and
    send paths of socket.rs on top of the endpoint of context.rs. */
module XpubRuns {
  import opened Common
  import opened Subscriptions
  import opened XpubHub

  /** One XSUB socket. `attached` says that it is connected to the endpoint. */
  datatype Xsub = Xsub(
    subs: Subs,
    attached: bool,
    sendMore: bool,
    processSubscribe: bool,
    onlyFirst: bool,
    verboseUnsubscribe: bool,
    sndhwm: nat)

  datatype World = World(hub: Hub, sockets: map<nat, Xsub>)

  datatype Step =
    | Open(id: nat, onlyFirst: bool, verboseUnsubscribe: bool, sndhwm: nat)
    | SetOptions(id: nat, onlyFirst: bool, verboseUnsubscribe: bool, sndhwm: nat)
    | Connect(id: nat)
    | Disconnect(id: nat)
    | SubscribeTo(id: nat, topic: Bytes)
    | UnsubscribeFrom(id: nat, topic: Bytes)
    | Send(id: nat, data: Bytes, more: bool)
    | XpubReceive
    | XpubPublish  // the endpoint's part: the outboxes are looked up
    | XpubSetPolicy(policy: Policy)
    | XpubSubscribe(topic: Bytes)
    | XpubUnsubscribe(topic: Bytes)

  const SILENT: Policy := Policy(false, false, false, false)

  const START: World := World(Hub(SILENT, map[], map[], None, [], []), map[])

  /** `subscribe` of an XSUB. */
  function DoSubscribe(w: World, id: nat, topic: Bytes): World
    requires id in w.sockets
  {
    var s := w.sockets[id];
    var (subs, inserted) := Insert(s.subs, topic);
    World(if s.attached then Subscribe(w.hub, id, topic, !inserted) else w.hub,
          w.sockets[id := s.(subs := subs)])
  }

  /** `unsubscribe` of an XSUB. */
  function DoUnsubscribe(w: World, id: nat, topic: Bytes): World
    requires id in w.sockets
  {
    var s := w.sockets[id];
    var (subs, removed) := Remove(s.subs, topic);
    var replay := s.attached && (removed || s.verboseUnsubscribe);
    World(if replay then Unsubscribe(w.hub, id, topic, s.verboseUnsubscribe && !removed) else w.hub,
          w.sockets[id := s.(subs := subs)])
  }

  /** An XSUB frame that is not a subscription command goes to the XPUB inbox, unless the sender's
      high-water mark is reached. */
  function Forward(w: World, id: nat, data: Bytes, more: bool): World
    requires id in w.sockets
  {
    var hwm := w.sockets[id].sndhwm;
    if hwm > 0 && |w.hub.inbox| >= hwm then w else w.(hub := Enqueue(w.hub, Data(data, more)))
  }

  /** The frame is taken as a subscription command by `try_process_xsub_subscription_send`. */
  predicate ReadAsCommand(s: Xsub, data: Bytes) {
    !s.onlyFirst && (!s.sendMore || s.processSubscribe) && data != [] && data[0] <= 1
  }

  /** The bookkeeping of every send attempt of an attached XSUB. */
  function Noted(s: Xsub, more: bool): Xsub {
    s.(processSubscribe := if s.sendMore then s.processSubscribe else !s.onlyFirst, sendMore := more)
  }

  /** `send` of an attached XSUB, with `try_process_xsub_subscription_send`; a detached one fails. */
  function DoSend(w: World, id: nat, data: Bytes, more: bool): World
    requires id in w.sockets
  {
    var s := w.sockets[id];
    if !s.attached then w
    else if !ReadAsCommand(s, data) then Forward(w.(sockets := w.sockets[id := Noted(s, more)]), id, data, more)
    else
      var w1 := w.(sockets := w.sockets[id := Noted(s, more).(processSubscribe := true)]);
      if data[0] == 1 then DoSubscribe(w1, id, data[1..]) else DoUnsubscribe(w1, id, data[1..])
  }

  /** What that send returns. */
  function SendResult(w: World, id: nat, data: Bytes): Result<()>
    requires id in w.sockets
  {
    var s := w.sockets[id];
    if !s.attached || (!ReadAsCommand(s, data) && s.sndhwm > 0 && |w.hub.inbox| >= s.sndhwm) then Err(Again)
    else Ok(())
  }

  /** One public call, taken as atomic; a call that fails leaves the world as the code does. */
  function Apply(w: World, step: Step): World {
    match step
    case Open(id, onlyFirst, verbose, hwm) =>
      if id in w.sockets then w
      else w.(sockets := w.sockets[id := Xsub(EMPTY, false, false, false, onlyFirst, verbose, hwm)])
    case SetOptions(id, onlyFirst, verbose, hwm) =>
      if id !in w.sockets then w
      else
        var s := w.sockets[id].(onlyFirst := onlyFirst, verboseUnsubscribe := verbose, sndhwm := hwm);
        w.(sockets := w.sockets[id := s])
    case Connect(id) =>
      if id !in w.sockets || w.sockets[id].attached then w
      else World(ReplayAll(w.hub, id, w.sockets[id].subs.order),
                 w.sockets[id := w.sockets[id].(attached := true)])
    case Disconnect(id) =>
      if id !in w.sockets || !w.sockets[id].attached then w
      else World(Detach(w.hub, id, w.sockets[id].subs.order),
                 w.sockets[id := w.sockets[id].(attached := false)])
    case SubscribeTo(id, topic) => if id !in w.sockets then w else DoSubscribe(w, id, topic)
    case UnsubscribeFrom(id, topic) => if id !in w.sockets then w else DoUnsubscribe(w, id, topic)
    case Send(id, data, more) => if id !in w.sockets then w else DoSend(w, id, data, more)
    case XpubReceive =>
      if w.hub.inbox == [] then w
      else w.(hub := w.hub.(seen := w.hub.seen + [w.hub.inbox[0]], inbox := w.hub.inbox[1..]))
    case XpubPublish =>
      if w.hub.policy.manual && w.hub.policy.manualLastValue then w.(hub := w.hub.(lastPeer := None)) else w
    case XpubSetPolicy(policy) => w.(hub := w.hub.(policy := policy))
    case XpubSubscribe(topic) =>
      if w.hub.policy.manual then w.(hub := ManualSubscribe(w.hub, topic)) else w
    case XpubUnsubscribe(topic) =>
      if w.hub.policy.manual then w.(hub := ManualUnsubscribe(w.hub, topic)) else w
  }

  function Run(steps: seq<Step>): World {
    if steps == [] then START else Apply(Run(steps[..|steps| - 1]), steps[|steps| - 1])
  }

  /** The socket is attached and its own reference count for the topic is positive. */
  ghost predicate Holds(w: World, id: nat, topic: Bytes) {
    id in w.sockets && w.sockets[id].attached && topic in w.sockets[id].subs.refs
  }

  ghost predicate SubsWellFormed(w: World) {
    forall id :: id in w.sockets ==> WellFormed(w.sockets[id].subs)
  }

  /** The table lists, for every topic, exactly the attached sockets that hold it. */
  ghost predicate TableAgrees(w: World) {
    && NoEmptyEntries(w.hub.topics)
    && forall topic, id :: id in PeersOf(w.hub.topics, topic) <==> Holds(w, id, topic)
  }

  ghost predicate Consistent(w: World) {
    SubsWellFormed(w) && TableAgrees(w)
  }

  /** Only what matters for the table is compared. */
  ghost predicate SameHoldings(w: World, w': World) {
    && w'.hub.topics == w.hub.topics
    && w'.sockets.Keys == w.sockets.Keys
    && forall id :: id in w.sockets ==>
                      w'.sockets[id].subs == w.sockets[id].subs && w'.sockets[id].attached == w.sockets[id].attached
  }

  lemma SameHoldingsConsistent(w: World, w': World)
    requires Consistent(w) && SameHoldings(w, w')
    ensures Consistent(w')
  {
    forall topic, id ensures Holds(w', id, topic) <==> Holds(w, id, topic) {
    }
  }

  lemma SubscribeConsistent(w: World, id: nat, topic: Bytes)
    requires Consistent(w) && id in w.sockets
    ensures Consistent(DoSubscribe(w, id, topic))
  {
    hide Subscribe, WellFormed;
    var s, w' := w.sockets[id], DoSubscribe(w, id, topic);
    InsertWellFormed(s.subs, topic);
    PeersAfterSubscribe(w.hub, id, topic, topic in s.subs.refs, topic);
    forall t, k ensures k in PeersOf(w'.hub.topics, t) <==> Holds(w', k, t) {
      PeersAfterSubscribe(w.hub, id, topic, topic in s.subs.refs, t);
      assert k in PeersOf(w.hub.topics, t) <==> Holds(w, k, t);
    }
  }

  lemma UnsubscribeConsistent(w: World, id: nat, topic: Bytes)
    requires Consistent(w) && id in w.sockets
    ensures Consistent(DoUnsubscribe(w, id, topic))
  {
    hide Unsubscribe, WellFormed;
    var s, w' := w.sockets[id], DoUnsubscribe(w, id, topic);
    var removed := Remove(s.subs, topic).1;
    RemoveWellFormed(s.subs, topic);
    PeersAfterUnsubscribe(w.hub, id, topic, !removed, topic);
    forall t, k ensures k in PeersOf(w'.hub.topics, t) <==> Holds(w', k, t) {
      PeersAfterUnsubscribe(w.hub, id, topic, !removed, t);
      assert k in PeersOf(w.hub.topics, t) <==> Holds(w, k, t);
    }
  }

  lemma ConnectConsistent(w: World, id: nat)
    requires Consistent(w) && id in w.sockets && !w.sockets[id].attached
    ensures Consistent(Apply(w, Connect(id)))
  {
    var w', order := Apply(w, Connect(id)), w.sockets[id].subs.order;
    ReplayKeepsEntries(w.hub, id, order);
    forall topic, k ensures k in PeersOf(w'.hub.topics, topic) <==> Holds(w', k, topic) {
      PeersAfterReplay(w.hub, id, order, topic);
      assert k in PeersOf(w.hub.topics, topic) <==> Holds(w, k, topic);
    }
  }

  lemma DisconnectConsistent(w: World, id: nat)
    requires Consistent(w) && id in w.sockets && w.sockets[id].attached
    ensures Consistent(Apply(w, Disconnect(id)))
  {
    var w', order := Apply(w, Disconnect(id)), w.sockets[id].subs.order;
    RetractKeepsEntries(w.hub, id, order);
    forall topic, k ensures k in PeersOf(w'.hub.topics, topic) <==> Holds(w', k, topic) {
      PeersAfterRetract(w.hub, id, order, topic);
      assert k in PeersOf(w.hub.topics, topic) <==> Holds(w, k, topic);
    }
  }

  /** The world a send hands to the subscription code: only the frame bookkeeping has changed. */
  ghost predicate Prepared(w: World, w': World) {
    SameHoldings(w, w') && w'.hub == w.hub &&
    forall id :: id in w.sockets ==> w'.sockets[id].verboseUnsubscribe == w.sockets[id].verboseUnsubscribe
  }

  /** A send is a subscribe, an unsubscribe or plain data, after the bookkeeping. */
  lemma SendCases(w: World, id: nat, data: Bytes, more: bool) returns (w1: World)
    requires id in w.sockets
    ensures Prepared(w, w1) && id in w1.sockets
    ensures var w' := DoSend(w, id, data, more);
            || w' == w1
            || w' == w1.(hub := Enqueue(w1.hub, Data(data, more)))
            || (|data| > 0 && w1.sockets[id].attached && w' == DoSubscribe(w1, id, data[1..]))
            || (|data| > 0 && w1.sockets[id].attached && w' == DoUnsubscribe(w1, id, data[1..]))
  {
    hide DoSubscribe, DoUnsubscribe;
    var s := w.sockets[id];
    w1 := if !s.attached then w
          else if ReadAsCommand(s, data) then w.(sockets := w.sockets[id := Noted(s, more).(processSubscribe := true)])
          else w.(sockets := w.sockets[id := Noted(s, more)]);
  }

  /** Every call keeps the table in agreement with the sockets. */
  lemma ApplyConsistent(w: World, step: Step)
    requires Consistent(w)
    ensures Consistent(Apply(w, step))
  {
    hide Consistent, DoSend, DoSubscribe, DoUnsubscribe, Detach, ReplayAll;
    match step
    case Open(id, _, _, _) =>
      if id !in w.sockets { OpenConsistent(w, step); }
    case Connect(id) =>
      if id in w.sockets && !w.sockets[id].attached { ConnectConsistent(w, id); }
    case Disconnect(id) =>
      if id in w.sockets && w.sockets[id].attached { DisconnectConsistent(w, id); }
    case SubscribeTo(id, topic) =>
      if id in w.sockets { SubscribeConsistent(w, id, topic); }
    case UnsubscribeFrom(id, topic) =>
      if id in w.sockets { UnsubscribeConsistent(w, id, topic); }
    case Send(id, data, more) =>
      if id in w.sockets { SendConsistent(w, id, data, more); }
    case _ =>
      SameHoldingsConsistent(w, Apply(w, step));
  }

  lemma OpenConsistent(w: World, step: Step)
    requires Consistent(w) && step.Open? && step.id !in w.sockets
    ensures Consistent(Apply(w, step))
  {
    var w' := Apply(w, step);
    forall topic, id ensures Holds(w', id, topic) <==> Holds(w, id, topic) {
    }
  }

  lemma SendConsistent(w: World, id: nat, data: Bytes, more: bool)
    requires Consistent(w) && id in w.sockets
    ensures Consistent(DoSend(w, id, data, more))
  {
    hide Consistent, DoSend, DoSubscribe, DoUnsubscribe;
    var w1 := SendCases(w, id, data, more);
    SameHoldingsConsistent(w, w1);
    SameHoldingsConsistent(w1, w1.(hub := Enqueue(w1.hub, Data(data, more))));
    if |data| > 0 {
      SubscribeConsistent(w1, id, data[1..]);
      UnsubscribeConsistent(w1, id, data[1..]);
    }
  }

  /** Over every run, under every policy, the table lists for each topic exactly the attached sockets
      whose own count is positive, with no empty entries. */
  lemma {:induction false} RunConsistent(steps: seq<Step>)
    ensures Consistent(Run(steps))
  {
    if steps != [] {
      RunConsistent(steps[..|steps| - 1]);
      ApplyConsistent(Run(steps[..|steps| - 1]), steps[|steps| - 1]);
    }
  }

  // Reading the notifications.

  /** No notification mode that speaks of single peers is on, or will be turned on. */
  predicate QuietStep(step: Step) {
    match step
    case Open(_, _, verbose, _) => !verbose
    case SetOptions(_, _, verbose, _) => !verbose
    case XpubSetPolicy(policy) => Quiet(policy)
    case _ => true
  }

  predicate SilentStep(step: Step) {
    QuietStep(step) && (step.XpubSetPolicy? ==> !step.policy.verboseSubscribe)
  }

  ghost predicate QuietModes(w: World) {
    Quiet(w.hub.policy) && forall id :: id in w.sockets ==> !w.sockets[id].verboseUnsubscribe
  }

  /** The reading is right; with verbose subscribing off it is also strict. */
  ghost predicate ReadsRight(w: World) {
    QuietModes(w) && Rebuilds(w.hub)
  }

  ghost predicate ReadsStrictly(w: World) {
    QuietModes(w) && !w.hub.policy.verboseSubscribe && Strict(w.hub)
  }

  lemma SubscribeStepReads(w: World, id: nat, topic: Bytes)
    requires Consistent(w) && id in w.sockets
    ensures ReadsRight(w) ==> ReadsRight(DoSubscribe(w, id, topic))
    ensures ReadsStrictly(w) ==> ReadsStrictly(DoSubscribe(w, id, topic))
  {
    hide Rebuilds, Strict, WellFormed;
    var s := w.sockets[id];
    if s.attached && Quiet(w.hub.policy) {
      assert id in PeersOf(w.hub.topics, topic) <==> Holds(w, id, topic);
      SubscribeReads(w.hub, id, topic, topic in s.subs.refs);
    }
  }

  lemma UnsubscribeStepReads(w: World, id: nat, topic: Bytes)
    requires Consistent(w) && id in w.sockets
    ensures ReadsRight(w) ==> ReadsRight(DoUnsubscribe(w, id, topic))
    ensures ReadsStrictly(w) ==> ReadsStrictly(DoUnsubscribe(w, id, topic))
  {
    hide Rebuilds, Strict, WellFormed;
    var s := w.sockets[id];
    if s.attached && QuietModes(w) && Remove(s.subs, topic).1 {
      assert id in PeersOf(w.hub.topics, topic) <==> Holds(w, id, topic);
      UnsubscribeReads(w.hub, id, topic);
    }
  }

  lemma ConnectReads(w: World, id: nat)
    requires Consistent(w) && id in w.sockets && !w.sockets[id].attached
    ensures ReadsRight(w) ==> ReadsRight(Apply(w, Connect(id)))
    ensures ReadsStrictly(w) ==> ReadsStrictly(Apply(w, Connect(id)))
  {
    hide Rebuilds, Strict;
    var order := w.sockets[id].subs.order;
    if Quiet(w.hub.policy) {
      forall i | 0 <= i < |order| ensures id !in PeersOf(w.hub.topics, order[i]) {
        assert id in PeersOf(w.hub.topics, order[i]) <==> Holds(w, id, order[i]);
      }
      ReplayReads(w.hub, id, order);
      PeersAfterReplay(w.hub, id, order, []);
    }
  }

  lemma DisconnectReads(w: World, id: nat)
    requires Consistent(w) && id in w.sockets && w.sockets[id].attached
    ensures ReadsRight(w) ==> ReadsRight(Apply(w, Disconnect(id)))
    ensures ReadsStrictly(w) ==> ReadsStrictly(Apply(w, Disconnect(id)))
  {
    hide Rebuilds, Strict;
    var order := w.sockets[id].subs.order;
    if Quiet(w.hub.policy) {
      forall i | 0 <= i < |order| ensures id in PeersOf(w.hub.topics, order[i]) {
        assert order[i] in order;
        assert id in PeersOf(w.hub.topics, order[i]) <==> Holds(w, id, order[i]);
      }
      RetractReads(w.hub, id, order);
      PeersAfterRetract(w.hub, id, order, []);
      SameReading(RetractAll(w.hub, id, order), Detach(w.hub, id, order));
    }
  }

  lemma SendReads(w: World, id: nat, data: Bytes, more: bool)
    requires Consistent(w) && id in w.sockets
    ensures ReadsRight(w) ==> ReadsRight(DoSend(w, id, data, more))
    ensures ReadsStrictly(w) ==> ReadsStrictly(DoSend(w, id, data, more))
  {
    hide Consistent, Rebuilds, Strict, DoSend, DoSubscribe, DoUnsubscribe;
    var w1 := SendCases(w, id, data, more);
    SameHoldingsConsistent(w, w1);
    EnqueueDataHarmless(w1.hub, Data(data, more));
    if |data| > 0 {
      SubscribeStepReads(w1, id, data[1..]);
      UnsubscribeStepReads(w1, id, data[1..]);
    }
  }

  lemma ReceiveReads(w: World)
    ensures Emitted(Apply(w, XpubReceive).hub) == Emitted(w.hub)
  {
    if w.hub.inbox != [] {
      assert w.hub.inbox == [w.hub.inbox[0]] + w.hub.inbox[1..];
      ConcatAssociative(w.hub.seen, [w.hub.inbox[0]], w.hub.inbox[1..]);
    }
  }

  lemma ApplyReads(w: World, step: Step)
    requires Consistent(w)
    ensures ReadsRight(w) && QuietStep(step) ==> ReadsRight(Apply(w, step))
    ensures ReadsStrictly(w) && SilentStep(step) ==> ReadsStrictly(Apply(w, step))
  {
    hide Consistent, Rebuilds, Strict, DoSend, DoSubscribe, DoUnsubscribe, Detach, ReplayAll;
    match step
    case Connect(id) =>
      if id in w.sockets && !w.sockets[id].attached { ConnectReads(w, id); }
    case Disconnect(id) =>
      if id in w.sockets && w.sockets[id].attached { DisconnectReads(w, id); }
    case SubscribeTo(id, topic) =>
      if id in w.sockets { SubscribeStepReads(w, id, topic); }
    case UnsubscribeFrom(id, topic) =>
      if id in w.sockets { UnsubscribeStepReads(w, id, topic); }
    case Send(id, data, more) =>
      if id in w.sockets { SendReads(w, id, data, more); }
    case XpubReceive =>
      ReceiveReads(w);
      SameReading(w.hub, Apply(w, step).hub);
    case _ =>
      SameReading(w.hub, Apply(w, step).hub);
  }

  /** With manual mode and both verbose-unsubscribe modes off, the last notification of each topic
      says whether it is in the table. */
  lemma {:induction false} RunReadsRight(steps: seq<Step>)
    requires forall i :: 0 <= i < |steps| ==> QuietStep(steps[i])
    ensures ReadsRight(Run(steps))
  {
    if steps != [] {
      var before := steps[..|steps| - 1];
      RunReadsRight(before);
      RunConsistent(before);
      ApplyReads(Run(before), steps[|steps| - 1]);
    }
  }

  /** With verbose subscribing off as well, each topic's notifications go on, off, on, off, ... */
  lemma {:induction false} RunReadsStrictly(steps: seq<Step>)
    requires forall i :: 0 <= i < |steps| ==> SilentStep(steps[i])
    ensures ReadsStrictly(Run(steps))
  {
    if steps != [] {
      var before := steps[..|steps| - 1];
      RunReadsStrictly(before);
      RunConsistent(before);
      ApplyReads(Run(before), steps[|steps| - 1]);
    }
  }

  /** Some attached socket holds the topic. */
  ghost predicate Wanted(w: World, topic: Bytes) {
    exists id :: Holds(w, id, topic)
  }

  lemma WantedIsListed(w: World, topic: Bytes)
    requires Consistent(w)
    ensures Wanted(w, topic) <==> topic in w.hub.topics
  {
    if topic in w.hub.topics {
      var id :| id in w.hub.topics[topic];
      assert id in PeersOf(w.hub.topics, topic);
      assert Holds(w, id, topic);
    }
    if Wanted(w, topic) {
      var id :| Holds(w, id, topic);
      assert id in PeersOf(w.hub.topics, topic);
    }
  }

  lemma RunExtend(steps: seq<Step>, step: Step)
    ensures Run(steps + [step]) == Apply(Run(steps), step)
  {
    ConcatSplit(steps, [step]);
  }

  // What each call announces.

  /** The inbox grew by announcements of changes, and if it grew at all `id` is now the last peer. */
  ghost predicate Announces(h: Hub, h': Hub, id: nat) {
    && h'.seen == h.seen && |h.inbox| <= |h'.inbox| && h'.inbox[..|h.inbox|] == h.inbox
    && (forall i :: |h.inbox| <= i < |h'.inbox| ==> h'.inbox[i].Change?)
    && h'.lastPeer == (if |h'.inbox| == |h.inbox| then h.lastPeer else Some(id))
  }

  lemma AnnouncesTransitive(h: Hub, mid: Hub, h': Hub, id: nat)
    requires Announces(h, mid, id) && Announces(mid, h', id)
    ensures Announces(h, h', id)
  {
    assert h'.inbox[..|h.inbox|] == h'.inbox[..|mid.inbox|][..|h.inbox|];
    forall i | |h.inbox| <= i < |h'.inbox| ensures h'.inbox[i].Change? {
      if i < |mid.inbox| { assert h'.inbox[i] == h'.inbox[..|mid.inbox|][i]; }
    }
  }

  lemma SubscribeAnnounces(h: Hub, peer: nat, topic: Bytes, duplicate: bool)
    ensures Announces(h, Subscribe(h, peer, topic, duplicate), peer)
  {
  }

  lemma UnsubscribeAnnounces(h: Hub, peer: nat, topic: Bytes, unmatched: bool)
    requires unmatched || peer in PeersOf(h.topics, topic)
    ensures Announces(h, Unsubscribe(h, peer, topic, unmatched), peer)
  {
  }

  lemma {:induction false} ReplayAnnounces(h: Hub, peer: nat, order: seq<Bytes>)
    ensures Announces(h, ReplayAll(h, peer, order), peer)
  {
    if order != [] {
      var front, last := order[..|order| - 1], order[|order| - 1];
      ReplayAnnounces(h, peer, front);
      var mid := ReplayAll(h, peer, front);
      SubscribeAnnounces(mid, peer, last, false);
      AnnouncesTransitive(h, mid, Subscribe(mid, peer, last, false), peer);
    }
  }

  lemma {:induction false} RetractAnnounces(h: Hub, peer: nat, order: seq<Bytes>)
    requires forall i, j :: 0 <= i < j < |order| ==> order[i] != order[j]
    requires forall i :: 0 <= i < |order| ==> peer in PeersOf(h.topics, order[i])
    ensures Announces(h, RetractAll(h, peer, order), peer)
  {
    if order != [] {
      var front, last := order[..|order| - 1], order[|order| - 1];
      RetractAnnounces(h, peer, front);
      var mid := RetractAll(h, peer, front);
      PeersAfterRetract(h, peer, front, last);
      assert peer in PeersOf(h.topics, last) && last !in front;
      UnsubscribeAnnounces(mid, peer, last, false);
      AnnouncesTransitive(h, mid, Unsubscribe(mid, peer, last, false), peer);
    }
  }

  lemma DoSubscribeAnnounces(w: World, id: nat, topic: Bytes)
    requires id in w.sockets
    ensures Announces(w.hub, DoSubscribe(w, id, topic).hub, id)
  {
    hide Subscribe, Insert;
    SubscribeAnnounces(w.hub, id, topic, !Insert(w.sockets[id].subs, topic).1);
  }

  lemma DoUnsubscribeAnnounces(w: World, id: nat, topic: Bytes)
    requires Consistent(w) && id in w.sockets
    ensures Announces(w.hub, DoUnsubscribe(w, id, topic).hub, id)
  {
    hide WellFormed, Unsubscribe;
    var s := w.sockets[id];
    var removed := Remove(s.subs, topic).1;
    assert id in PeersOf(w.hub.topics, topic) <==> Holds(w, id, topic);
    if s.attached && (removed || s.verboseUnsubscribe) {
      UnsubscribeAnnounces(w.hub, id, topic, s.verboseUnsubscribe && !removed);
    }
  }

  lemma DisconnectAnnounces(w: World, id: nat)
    requires Consistent(w) && id in w.sockets && w.sockets[id].attached
    ensures Announces(w.hub, Detach(w.hub, id, w.sockets[id].subs.order), id)
  {
    var order := w.sockets[id].subs.order;
    forall i | 0 <= i < |order| ensures id in PeersOf(w.hub.topics, order[i]) {
      assert order[i] in order;
      assert id in PeersOf(w.hub.topics, order[i]) <==> Holds(w, id, order[i]);
    }
    RetractAnnounces(w.hub, id, order);
  }

  /** The XPUB inbox got one frame that an XSUB sent as data, and nothing else changed at the endpoint. */
  ghost predicate Forwards(h: Hub, h': Hub, item: Item) {
    item.Data? && h' == Enqueue(h, item)
  }

  predicate BySocket(step: Step) {
    step.Connect? || step.Disconnect? || step.SubscribeTo? || step.UnsubscribeFrom? || step.Send?
  }

  /** A socket's call announces changes, and then the socket is the last peer, or forwards one data
      frame, or leaves inbox and last peer alone. */
  lemma StepAnnounces(w: World, step: Step)
    requires Consistent(w) && BySocket(step)
    ensures var h' := Apply(w, step).hub;
            || Announces(w.hub, h', step.id)
            || (step.Send? && step.id in w.sockets && !ReadAsCommand(w.sockets[step.id], step.data) &&
                Forwards(w.hub, h', Data(step.data, step.more)))
  {
    hide Consistent, DoUnsubscribe, DoSubscribe, Detach, ReplayAll;
    match step
    case Connect(id) => if id in w.sockets { ReplayAnnounces(w.hub, id, w.sockets[id].subs.order); }
    case Disconnect(id) => if id in w.sockets && w.sockets[id].attached { DisconnectAnnounces(w, id); }
    case SubscribeTo(id, topic) => if id in w.sockets { DoSubscribeAnnounces(w, id, topic); }
    case UnsubscribeFrom(id, topic) => if id in w.sockets { DoUnsubscribeAnnounces(w, id, topic); }
    case Send(id, data, more) =>
      if id in w.sockets && w.sockets[id].attached && ReadAsCommand(w.sockets[id], data) {
        CommandAnnounces(w, id, data, more);
      }
  }

  lemma CommandAnnounces(w: World, id: nat, data: Bytes, more: bool)
    requires Consistent(w) && id in w.sockets && w.sockets[id].attached && ReadAsCommand(w.sockets[id], data)
    ensures Announces(w.hub, DoSend(w, id, data, more).hub, id)
  {
    hide Consistent, DoUnsubscribe, DoSubscribe;
    var s := w.sockets[id];
    var w1 := w.(sockets := w.sockets[id := Noted(s, more).(processSubscribe := true)]);
    SameHoldingsConsistent(w, w1);
    DoSubscribeAnnounces(w1, id, data[1..]);
    DoUnsubscribeAnnounces(w1, id, data[1..]);
  }
}
