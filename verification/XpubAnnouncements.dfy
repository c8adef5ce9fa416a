/** Exactly which announcements each call queues for the XPUB application, said with who wants a topic
    before and after the call. */
module XpubAnnouncements {
  import opened Common
  import opened XpubHub
  import opened XpubRuns
  import opened XpubCommands
  import Endpoint
  import Subscriptions

  /** A new subscription is announced when nobody wanted the topic, and always in verbose or manual mode. */
  ghost predicate JoinIsNews(w: World, topic: Bytes) {
    !Wanted(w, topic) || w.hub.policy.verboseSubscribe || w.hub.policy.manual
  }

  /** A dropped subscription is announced when nobody wants the topic any more, and always in
      verbose-unsubscribe or manual mode. */
  ghost predicate LeaveIsNews(w: World, after: World, topic: Bytes) {
    !Wanted(after, topic) || w.hub.policy.verboseUnsubscribe || w.hub.policy.manual
  }

  // Calls.

  /** The subscribe call of an attached socket queues exactly one announcement if it is news, else none. */
  lemma SubscribeAnnouncedIff(w: World, id: nat, topic: Bytes)
    requires Consistent(w) && id in w.sockets
    ensures DoSubscribe(w, id, topic).hub.inbox ==
            w.hub.inbox + If(w.sockets[id].attached && JoinIsNews(w, topic), Change(true, topic))
  {
    hide Subscribe, Subscriptions.WellFormed;
    var s := w.sockets[id];
    ConcatEmpty(w.hub.inbox);
    WantedIsListed(w, topic);
    if s.attached {
      assert id in PeersOf(w.hub.topics, topic) <==> Holds(w, id, topic);
      SubscribeInbox(w.hub, id, topic, topic in s.subs.refs);
      AloneIff(w.hub.topics, topic, id);
    }
  }

  /** It is the socket's only reference to the topic. */
  predicate LastReference(w: World, id: nat, topic: Bytes)
    requires id in w.sockets
  {
    topic in w.sockets[id].subs.refs && w.sockets[id].subs.refs[topic] == 1
  }

  ghost predicate DropIsNews(w: World, id: nat, after: World, topic: Bytes)
    requires id in w.sockets
  {
    w.sockets[id].attached &&
    if LastReference(w, id, topic) then LeaveIsNews(w, after, topic) else w.sockets[id].verboseUnsubscribe
  }

  /** The unsubscribe call of an attached socket queues exactly one announcement if it drops the last
      reference and that is news, or if it does not and the socket unsubscribes verbosely; else none. */
  lemma UnsubscribeAnnouncedIff(w: World, id: nat, topic: Bytes)
    requires Consistent(w) && id in w.sockets
    ensures var after := DoUnsubscribe(w, id, topic);
            after.hub.inbox == w.hub.inbox + If(DropIsNews(w, id, after, topic), Change(false, topic))
  {
    hide Subscriptions.WellFormed, WithoutPeer;
    var s, after := w.sockets[id], DoUnsubscribe(w, id, topic);
    ConcatEmpty(w.hub.inbox);
    assert Subscriptions.WellFormed(s.subs);
    ReferenceDropped(s.subs, topic);
    if s.attached && LastReference(w, id, topic) {
      assert id in PeersOf(w.hub.topics, topic) <==> Holds(w, id, topic);
      UnsubscribeInbox(w.hub, id, topic);
      UnsubscribeConsistent(w, id, topic);
      WantedIsListed(after, topic);
      PeersAfterUnsubscribe(w.hub, id, topic, false, topic);
      EntryGone(after.hub.topics, topic);
    }
  }

  lemma ReferenceDropped(s: Subscriptions.Subs, topic: Bytes)
    requires Subscriptions.WellFormed(s)
    ensures Subscriptions.Remove(s, topic).1 <==> topic in s.refs && s.refs[topic] == 1
  {
  }

  lemma AloneIff(topics: Topics, topic: Bytes, id: nat)
    requires NoEmptyEntries(topics)
    ensures id !in PeersOf(topics, topic) ==> (PeersOf(topics, topic) <= {id} <==> topic !in topics)
  {
  }

  lemma EntryGone(topics: Topics, topic: Bytes)
    requires NoEmptyEntries(topics)
    ensures topic in topics <==> PeersOf(topics, topic) != {}
  {
  }

  /** One announcement per prefix that is news, in stored order. */
  ghost function JoinNews(w: World, order: seq<Bytes>): seq<Item> {
    if order == [] then []
    else
      var last := order[|order| - 1];
      JoinNews(w, order[..|order| - 1]) + If(JoinIsNews(w, last), Change(true, last))
  }

  ghost function LeaveNews(w: World, after: World, order: seq<Bytes>): seq<Item> {
    if order == [] then []
    else
      var last := order[|order| - 1];
      LeaveNews(w, after, order[..|order| - 1]) + If(LeaveIsNews(w, after, last), Change(false, last))
  }

  lemma {:induction false} JoiningIsNews(w: World, id: nat, order: seq<Bytes>)
    requires Consistent(w) && id in w.sockets && !w.sockets[id].attached
    ensures Joining(w.hub, id, order) == JoinNews(w, order)
  {
    hide If, Wanted, Subscriptions.WellFormed;
    if order != [] {
      var last := order[|order| - 1];
      JoiningIsNews(w, id, order[..|order| - 1]);
      WantedIsListed(w, last);
      assert id in PeersOf(w.hub.topics, last) <==> Holds(w, id, last);
      AloneIff(w.hub.topics, last, id);
    }
  }

  /** Connecting announces every prefix the socket holds under the same rule. */
  lemma ConnectAnnouncesIff(w: World, id: nat)
    requires Consistent(w) && id in w.sockets && !w.sockets[id].attached
    ensures Apply(w, Connect(id)).hub.inbox == w.hub.inbox + JoinNews(w, w.sockets[id].subs.order)
  {
    hide ReplayAll, JoinNews, Joining;
    var order := w.sockets[id].subs.order;
    ReplayInbox(w.hub, id, order);
    JoiningIsNews(w, id, order);
  }

  lemma {:induction false} LeavingIsNews(w: World, id: nat, after: World, order: seq<Bytes>)
    requires forall i :: 0 <= i < |order| ==> (PeersOf(w.hub.topics, order[i]) <= {id} <==> !Wanted(after, order[i]))
    ensures Leaving(w.hub, id, order) == LeaveNews(w, after, order)
  {
    hide If, Wanted;
    if order != [] {
      var front := order[..|order| - 1];
      assert forall i :: 0 <= i < |front| ==> front[i] == order[i];
      LeavingIsNews(w, id, after, front);
    }
  }

  /** Disconnecting announces every prefix the socket held under the same rule. */
  lemma DisconnectAnnouncesIff(w: World, id: nat)
    requires Consistent(w) && id in w.sockets && w.sockets[id].attached
    ensures var after := Apply(w, Disconnect(id));
            after.hub.inbox == w.hub.inbox + LeaveNews(w, after, w.sockets[id].subs.order)
  {
    hide RetractAll, ReplayAll, LeaveNews, Leaving;
    var order, after := w.sockets[id].subs.order, Apply(w, Disconnect(id));
    DisconnectConsistent(w, id);
    forall i | 0 <= i < |order|
      ensures id in PeersOf(w.hub.topics, order[i])
      ensures PeersOf(w.hub.topics, order[i]) <= {id} <==> !Wanted(after, order[i])
    {
      assert order[i] in order;
      assert id in PeersOf(w.hub.topics, order[i]) <==> Holds(w, id, order[i]);
      PeersAfterRetract(w.hub, id, order, order[i]);
      WantedIsListed(after, order[i]);
      EntryGone(after.hub.topics, order[i]);
    }
    RetractInbox(w.hub, id, order);
    LeavingIsNews(w, id, after, order);
  }

  // Runs.

  /** What a step of an attached socket queues, `command` saying that a sent frame is taken as the call it
      spells. */
  ghost function Due(w: World, step: Step, command: bool): seq<Item>
    requires BySocket(step) && step.id in w.sockets
    requires command ==> step.Send? && SpellsCall(step.data)
  {
    var id, after := step.id, Apply(w, step);
    var s := w.sockets[id];
    match if command then CallOf(id, step.data) else step
    case Connect(_) => if s.attached then [] else JoinNews(w, s.subs.order)
    case Disconnect(_) => if s.attached then LeaveNews(w, after, s.subs.order) else []
    case SubscribeTo(_, topic) => If(s.attached && JoinIsNews(w, topic), Change(true, topic))
    case UnsubscribeFrom(_, topic) => If(DropIsNews(w, id, after, topic), Change(false, topic))
    case Send(_, data, more) => If(s.attached && (s.sndhwm == 0 || |w.hub.inbox| < s.sndhwm), Data(data, more))
    case _ => []
  }

  lemma SameWants(w: World, w': World, topic: Bytes)
    requires Alike(w, w')
    ensures Wanted(w, topic) <==> Wanted(w', topic)
  {
    if Wanted(w, topic) {
      var id :| Holds(w, id, topic);
      assert Holds(w', id, topic);
    }
    if Wanted(w', topic) {
      var id :| Holds(w', id, topic);
      assert Holds(w, id, topic);
    }
  }

  lemma CallAnnounces(w: World, step: Step)
    requires Consistent(w) && BySocket(step) && step.id in w.sockets && !step.Send?
    ensures Apply(w, step).hub.inbox == w.hub.inbox + Due(w, step, false)
  {
    hide Consistent, DoSubscribe, DoUnsubscribe, JoinNews, LeaveNews, Detach, ReplayAll, DropIsNews, If;
    ConcatEmpty(w.hub.inbox);
    match step
    case Connect(id) => if !w.sockets[id].attached { ConnectAnnouncesIff(w, id); }
    case Disconnect(id) => if w.sockets[id].attached { DisconnectAnnouncesIff(w, id); }
    case SubscribeTo(id, topic) => SubscribeAnnouncedIff(w, id, topic);
    case UnsubscribeFrom(id, topic) => UnsubscribeAnnouncedIff(w, id, topic);
  }

  lemma CommandAnnounces(w: World, step: Step)
    requires Consistent(w) && step.Send? && step.id in w.sockets && w.sockets[step.id].attached
    requires SpellsCall(step.data) && Alike(Apply(w, step), Apply(w, CallOf(step.id, step.data)))
    ensures Apply(w, step).hub.inbox == w.hub.inbox + Due(w, step, true)
  {
    hide Consistent, DoSubscribe, DoUnsubscribe, DoSend, Wanted;
    CallAnnounces(w, CallOf(step.id, step.data));
    SameWants(Apply(w, step), Apply(w, CallOf(step.id, step.data)), step.data[1..]);
  }

  lemma DataAnnounces(w: World, step: Step)
    requires step.Send? && step.id in w.sockets
    requires w.sockets[step.id].attached ==> SentAs(w, step.id, step.data, step.more, false)
    ensures Apply(w, step).hub.inbox == w.hub.inbox + Due(w, step, false)
  {
    hide DoSubscribe, DoUnsubscribe;
    ConcatEmpty(w.hub.inbox);
  }

  /** A frame of the socket is taken as a subscription command. */
  ghost predicate TakenAsCommand(steps: seq<Step>, step: Step)
    requires BySocket(step) && step.id in Run(steps).sockets
  {
    && step.Send? && Run(steps).sockets[step.id].attached && SpellsCall(step.data)
    && OffThroughout(steps, step.id)
  }

  /** In every run, under every policy, each call of a socket queues for the XPUB application exactly what
      is due: a subscription, by call or by frame, is announced if and only if the socket is attached and
      nobody wanted the topic before or verbose-subscribe or manual is on; a dropped last reference if and
      only if nobody wants the topic afterwards or verbose-unsubscribe or manual is on; connecting and
      disconnecting do this for every stored prefix in order. */
  lemma RunAnnounces(steps: seq<Step>, step: Step)
    requires BySocket(step) && step.id in Run(steps).sockets
    ensures Run(steps + [step]).hub.inbox ==
            Run(steps).hub.inbox + Due(Run(steps), step, TakenAsCommand(steps, step))
  {
    RunConsistent(steps);
    RunExtend(steps, step);
    var w := Run(steps);
    hide Run, Consistent, Due, OffThroughout;
    if !step.Send? {
      CallAnnounces(w, step);
    } else if !w.sockets[step.id].attached {
      DataAnnounces(w, step);
    } else {
      ForwardedIff(steps, step.id, step.data, step.more);
      if TakenAsCommand(steps, step) {
        CommandAnnounces(w, step);
      } else {
        DataAnnounces(w, step);
      }
    }
  }

  /** With verbose-subscribe on, a second subscriber is announced as well. */
  lemma SecondSubscriberAnnounced(steps: seq<Step>, id: nat, topic: Bytes)
    requires id in Run(steps).sockets && Run(steps).sockets[id].attached
    requires Run(steps).hub.policy.verboseSubscribe
    ensures Run(steps + [SubscribeTo(id, topic)]).hub.inbox == Run(steps).hub.inbox + [Change(true, topic)]
  {
    RunAnnounces(steps, SubscribeTo(id, topic));
  }

  // In bytes.

  lemma WireMore(items: seq<Item>, item: Item)
    ensures Endpoint.WireAll(items + [item]) == Endpoint.WireAll(items) + [Endpoint.Wire(item)]
    ensures items + [] == items
  {
  }

  /** What the XPUB application will receive for a subscription that is announced: byte 1 and the topic, as one
      whole message; for one that is not, nothing. */
  lemma SubscriptionArrives(steps: seq<Step>, id: nat, topic: Bytes)
    requires id in Run(steps).sockets && Run(steps).sockets[id].attached
    ensures var h, h' := Run(steps).hub, Run(steps + [SubscribeTo(id, topic)]).hub;
            Endpoint.WireAll(h'.inbox) ==
            Endpoint.WireAll(h.inbox) +
            if JoinIsNews(Run(steps), topic) then [Endpoint.Message([1] + topic, false, 0, None)] else []
  {
    RunAnnounces(steps, SubscribeTo(id, topic));
    hide Run, JoinIsNews;
    WireMore(Run(steps).hub.inbox, Change(true, topic));
    ConcatEmpty(Endpoint.WireAll(Run(steps).hub.inbox));
  }

  /** A frame that is no command arrives as it was sent, more flag included, if there is room. */
  lemma FrameArrives(steps: seq<Step>, id: nat, data: Bytes, more: bool)
    requires id in Run(steps).sockets && Run(steps).sockets[id].attached
    requires !TakenAsCommand(steps, Send(id, data, more))
    ensures var w, h' := Run(steps), Run(steps + [Send(id, data, more)]).hub;
            var room := w.sockets[id].sndhwm == 0 || |w.hub.inbox| < w.sockets[id].sndhwm;
            Endpoint.WireAll(h'.inbox) ==
            Endpoint.WireAll(w.hub.inbox) + if room then [Endpoint.Message(data, more, 0, None)] else []
  {
    RunAnnounces(steps, Send(id, data, more));
    hide Run, TakenAsCommand;
    WireMore(Run(steps).hub.inbox, Data(data, more));
    ConcatEmpty(Endpoint.WireAll(Run(steps).hub.inbox));
  }
}
