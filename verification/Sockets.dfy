/** The socket side of socket.rs that drives an in-process endpoint: XSUB subscription calls, and the
    REQ and REP send and receive paths. */
module Sockets {
  import opened Common
  import opened Endpoint
  import opened Pattern
  import opened Subscriptions
  import ST = SocketTypes
  import Hubs = XpubHub
  import Runs = XpubRuns

  /** An XSUB socket and the XPUB endpoint that it connects to. Its calls are the steps of module XpubRuns,
      seen from one socket. */
  class XsubSocket {
    const id: nat
    const subs: SubscriptionState
    const inbox: MessageQueue
    const endpoint: InprocEndpoint
    var attached: bool
    var sendMore: bool
    var processSubscribe: bool
    var onlyFirst: bool
    var verboseUnsubscribe: bool
    var sndhwm: nat

    ghost predicate Valid()
      reads subs, subs.firstBytes, endpoint, endpoint.binderInbox
    {
      subs.Valid() && endpoint.Valid() && endpoint.binderType == ST.Xpub && inbox != endpoint.binderInbox
    }

    /** Everything a call may change. */
    ghost function Footprint(): set<object>
      reads subs
    {
      {this, subs, subs.firstBytes, endpoint, endpoint.binderInbox, inbox}
    }

    /** The index has its old first-byte table or a new one. */
    twostate predicate KeepsTable()
      reads subs
    {
      subs.firstBytes == old(subs.firstBytes) || fresh(subs.firstBytes)
    }

    ghost function Socket(): Runs.Xsub
      reads this, subs
    {
      Runs.Xsub(subs.View(), attached, sendMore, processSubscribe, onlyFirst, verboseUnsubscribe, sndhwm)
    }

    ghost function View(): Runs.World
      reads this, subs, endpoint
    {
      Runs.World(endpoint.View(), map[id := Socket()])
    }

    constructor (id: nat, endpoint: InprocEndpoint, onlyFirst: bool, verboseUnsubscribe: bool, sndhwm: nat)
      requires endpoint.Valid() && endpoint.binderType == ST.Xpub
      ensures Valid() && this.id == id && this.endpoint == endpoint
      ensures fresh(subs) && fresh(subs.firstBytes) && fresh(inbox) && inbox.items == []
      ensures Socket() == Runs.Xsub(EMPTY, false, false, false, onlyFirst, verboseUnsubscribe, sndhwm)
    {
      this.id, this.endpoint, attached := id, endpoint, false;
      sendMore, processSubscribe := false, false;
      this.onlyFirst, this.verboseUnsubscribe, this.sndhwm := onlyFirst, verboseUnsubscribe, sndhwm;
      subs := new SubscriptionState();
      inbox := new MessageQueue();
    }

    /** What the endpoint sends to a socket that connects. */
    function Greeting(): seq<Message> {
      if endpoint.welcome.Some? then [Message(endpoint.welcome.value, false, 0, None)] else []
    }

    /** Connects to the bound XPUB: the endpoint takes in the socket's subscriptions and greets it. */
    method Connect()
      requires Valid() && !attached
      modifies this`attached, endpoint`peers, endpoint`peerTopics, endpoint`lastPeer, endpoint`pending
      modifies endpoint.binderInbox, inbox
      ensures Valid() && Socket() == old(Socket()).(attached := true)
      ensures endpoint.View() == Hubs.ReplayAll(old(endpoint.View()), id, subs.prefixes)
      ensures endpoint.peers == old(endpoint.peers) + [InprocPeer(id, inbox, ST.Xsub, subs)]
      ensures inbox.items == old(inbox.items) + Greeting()
    {
      hide SubscriptionState.Valid;
      var added := endpoint.AddPeer(InprocPeer(id, inbox, ST.Xsub, subs));
      attached := true;
    }

    /** Disconnects: the endpoint forgets the socket and what it holds. */
    method Disconnect()
      requires Valid() && attached && FirstWithId(endpoint.peers, id).Some?
      requires var peer := FirstWithId(endpoint.peers, id).value; peer.subs == subs && peer.socketType == ST.Xsub
      modifies this`attached, endpoint`peers, endpoint`peerTopics, endpoint`manualTopics, endpoint`lastPeer
      modifies endpoint`pending, endpoint.binderInbox
      ensures Valid() && Socket() == old(Socket()).(attached := false)
      ensures endpoint.View() == Hubs.Detach(old(endpoint.View()), id, subs.prefixes)
      ensures endpoint.peers == Others(old(endpoint.peers), id)
    {
      hide SubscriptionState.Valid;
      var removed := endpoint.RemovePeer(id);
      attached := false;
    }

    /** `subscribe`. */
    method Subscribe(topic: Bytes)
      requires Valid()
      modifies subs, subs.firstBytes
      modifies endpoint`peerTopics, endpoint`lastPeer, endpoint`pending, endpoint.binderInbox
      ensures Valid() && View() == Runs.DoSubscribe(old(View()), id, topic)
      ensures subs.firstBytes == old(subs.firstBytes)
    {
      hide Runs.DoSubscribe, SubscriptionState.Valid, Insert, InprocEndpoint.Valid, InprocEndpoint.View;
      SubscribeAlone(endpoint.View(), Socket(), id, topic);
      var inserted := subs.Add(topic);
      if attached {
        endpoint.ReplaySubscription(id, topic, !inserted);
      }
    }

    /** `unsubscribe`. */
    method Unsubscribe(topic: Bytes)
      requires Valid()
      modifies subs, subs.firstBytes
      modifies endpoint`peerTopics, endpoint`lastPeer, endpoint`pending, endpoint.binderInbox
      ensures Valid() && View() == Runs.DoUnsubscribe(old(View()), id, topic)
      ensures KeepsTable()
    {
      hide Runs.DoUnsubscribe, SubscriptionState.Valid, Remove, InprocEndpoint.Valid, InprocEndpoint.View;
      UnsubscribeAlone(endpoint.View(), Socket(), id, topic);
      var removed := subs.Drop(topic);
      if attached && (removed || verboseUnsubscribe) {
        endpoint.ReplayUnsubscription(id, topic, verboseUnsubscribe && !removed);
      }
    }

    /** The fall-through of `send`: the frame is queued for the XPUB unless the mark is reached. */
    method Forward(data: Bytes, more: bool) returns (r: Result<()>)
      requires Valid()
      modifies endpoint`pending, endpoint.binderInbox
      ensures Valid() && View() == Runs.Forward(old(View()), id, data, more)
      ensures r == if sndhwm > 0 && |old(endpoint.pending)| >= sndhwm then Err(Again) else Ok(())
    {
      hide SubscriptionState.Valid;
      if sndhwm > 0 && |endpoint.binderInbox.items| >= sndhwm {
        return Err(Again);
      }
      endpoint.binderInbox.items := endpoint.binderInbox.items + [Message(data, more, 0, None)];
      endpoint.pending := endpoint.pending + [Hubs.Data(data, more)];
      r := Ok(());
    }

    /** The command branches of `try_process_xsub_subscription_send`. */
    method RunCommand(on: bool, topic: Bytes)
      requires Valid()
      modifies this`processSubscribe, subs, subs.firstBytes
      modifies endpoint`peerTopics, endpoint`lastPeer, endpoint`pending, endpoint.binderInbox
      ensures Valid()
      ensures var w := old(View());
              var marked := w.(sockets := w.sockets[id := old(Socket()).(processSubscribe := true)]);
              View() == if on then Runs.DoSubscribe(marked, id, topic) else Runs.DoUnsubscribe(marked, id, topic)
      ensures KeepsTable()
    {
      hide SubscriptionState.Valid, Runs.DoSubscribe, Runs.DoUnsubscribe;
      processSubscribe := true;
      assert View() == old(View()).(sockets := old(View()).sockets[id := Socket()]);
      if on {
        Subscribe(topic);
      } else {
        Unsubscribe(topic);
      }
    }

    /** The bookkeeping of a send attempt: may this part be a command? */
    method NoteFrame(more: bool) returns (process: bool)
      modifies this`sendMore, this`processSubscribe
      ensures process == (!old(sendMore) || old(processSubscribe))
      ensures Socket() == Runs.Noted(old(Socket()), more)
    {
      var firstPart := !sendMore;
      process := firstPart || processSubscribe;
      if firstPart {
        processSubscribe := !onlyFirst;
      }
      sendMore := more;
    }

    /** `send` with `try_process_xsub_subscription_send`. */
    method Send(data: Bytes, more: bool) returns (r: Result<()>)
      requires Valid()
      modifies this`sendMore, this`processSubscribe, subs, subs.firstBytes
      modifies endpoint`peerTopics, endpoint`lastPeer, endpoint`pending, endpoint.binderInbox
      ensures Valid() && View() == Runs.DoSend(old(View()), id, data, more)
      ensures r == Runs.SendResult(old(View()), id, data)
      ensures KeepsTable()
    {
      hide SubscriptionState.Valid, Runs.DoSubscribe, Runs.DoUnsubscribe, Runs.Forward, Runs.DoSend, Runs.Noted;
      SendParts(View(), id, data, more);
      if !attached {
        return Err(Again);
      }
      var process := NoteFrame(more);
      assert View() == NotedWorld(old(View()), id, more);
      if onlyFirst || !process || data == [] || data[0] > 1 {
        r := Forward(data, more);
        return;
      }
      RunCommand(data[0] == 1, data[1..]);
      r := Ok(());
    }

    /** While attached, the endpoint knows the socket by its own index. */
    ghost predicate Joined()
      reads this, endpoint
    {
      attached ==>
        var peer := FirstWithId(endpoint.peers, id);
        peer.Some? && peer.value.subs == subs && peer.value.socketType == ST.Xsub
    }

    /** The endpoint's peers after a step of this socket. */
    ghost function PeersAfter(step: Runs.Step): seq<InprocPeer>
      reads this, endpoint
    {
      if step.Connect? && !attached then endpoint.peers + [InprocPeer(id, inbox, ST.Xsub, subs)]
      else if step.Disconnect? && attached then Others(endpoint.peers, id)
      else endpoint.peers
    }

    /** The socket's inbox after a step of its own. */
    ghost function InboxAfter(step: Runs.Step): seq<Message>
      reads this, inbox
    {
      inbox.items + if step.Connect? && !attached then Greeting() else []
    }

    /** The step has had its effect. */
    twostate predicate Done(step: Runs.Step)
      reads this, subs, subs.firstBytes, inbox, endpoint, endpoint.binderInbox
    {
      && Valid() && View() == Runs.Apply(old(View()), step) && KeepsTable()
      && endpoint.peers == old(PeersAfter(step)) && inbox.items == old(InboxAfter(step))
    }

    method SetOptions(onlyFirst: bool, verboseUnsubscribe: bool, sndhwm: nat)
      modifies this`onlyFirst, this`verboseUnsubscribe, this`sndhwm
      ensures Socket() == old(Socket()).(
                onlyFirst := onlyFirst, verboseUnsubscribe := verboseUnsubscribe, sndhwm := sndhwm)
    {
      this.onlyFirst, this.verboseUnsubscribe, this.sndhwm := onlyFirst, verboseUnsubscribe, sndhwm;
    }

    /** Carries out a step of a run that is this socket's own. */
    method Do(step: Runs.Step)
      requires (Runs.BySocket(step) || step.SetOptions?) && step.id == id && Joined() && Valid()
      modifies Footprint()
      ensures Done(step)
    {
      hide Runs.DoSubscribe, Runs.DoUnsubscribe, Runs.DoSend, Runs.Apply, SubscriptionState.Valid,
        InprocEndpoint.Valid, InprocEndpoint.View, Hubs.ReplayAll, Hubs.Detach;
      SwitchAlone(endpoint.View(), Socket(), step);
      CallAlone(endpoint.View(), Socket(), step);
      match step {
        case SetOptions(_, onlyFirst, verbose, hwm) => SetOptions(onlyFirst, verbose, hwm);
        case Connect(_) =>
          if !attached {
            Connect();
          }
        case Disconnect(_) =>
          if attached {
            Disconnect();
          }
        case SubscribeTo(_, topic) => Subscribe(topic);
        case UnsubscribeFrom(_, topic) => Unsubscribe(topic);
        case Send(_, data, more) => var r := Send(data, more);
      }
    }
  }

  /** The subscribe step of a socket that is alone in the world. */
  lemma SubscribeAlone(h: Hubs.Hub, s: Runs.Xsub, id: nat, topic: Bytes)
    ensures var (after, inserted) := Insert(s.subs, topic);
            Runs.DoSubscribe(Runs.World(h, map[id := s]), id, topic) ==
            Runs.World(if s.attached then Hubs.Subscribe(h, id, topic, !inserted) else h, map[id := s.(subs := after)])
  {
    hide Hubs.Subscribe, Insert;
  }

  /** The unsubscribe step of a socket that is alone in the world. */
  lemma UnsubscribeAlone(h: Hubs.Hub, s: Runs.Xsub, id: nat, topic: Bytes)
    ensures var (after, removed) := Remove(s.subs, topic);
            var replay := s.attached && (removed || s.verboseUnsubscribe);
            Runs.DoUnsubscribe(Runs.World(h, map[id := s]), id, topic) ==
            Runs.World(if replay then Hubs.Unsubscribe(h, id, topic, s.verboseUnsubscribe && !removed) else h,
                       map[id := s.(subs := after)])
  {
    hide Hubs.Unsubscribe, Remove;
  }

  /** Connecting and disconnecting of a socket that is alone in the world. */
  lemma SwitchAlone(h: Hubs.Hub, s: Runs.Xsub, step: Runs.Step)
    ensures step.Connect? && !s.attached ==>
              Runs.Apply(Runs.World(h, map[step.id := s]), step) ==
              Runs.World(Hubs.ReplayAll(h, step.id, s.subs.order), map[step.id := s.(attached := true)])
    ensures step.Disconnect? && s.attached ==>
              Runs.Apply(Runs.World(h, map[step.id := s]), step) ==
              Runs.World(Hubs.Detach(h, step.id, s.subs.order), map[step.id := s.(attached := false)])
    ensures (step.Connect? && s.attached) || (step.Disconnect? && !s.attached) ==>
              Runs.Apply(Runs.World(h, map[step.id := s]), step) == Runs.World(h, map[step.id := s])
  {
    hide Hubs.ReplayAll, Hubs.Detach;
  }

  /** The other steps of a socket that is alone in the world. */
  lemma CallAlone(h: Hubs.Hub, s: Runs.Xsub, step: Runs.Step)
    ensures step.SetOptions? ==>
              var s' := s.(onlyFirst := step.onlyFirst, verboseUnsubscribe := step.verboseUnsubscribe,
                           sndhwm := step.sndhwm);
              Runs.Apply(Runs.World(h, map[step.id := s]), step) == Runs.World(h, map[step.id := s'])
    ensures step.SubscribeTo? ==>
              var w := Runs.World(h, map[step.id := s]);
              Runs.Apply(w, step) == Runs.DoSubscribe(w, step.id, step.topic)
    ensures step.UnsubscribeFrom? ==>
              var w := Runs.World(h, map[step.id := s]);
              Runs.Apply(w, step) == Runs.DoUnsubscribe(w, step.id, step.topic)
    ensures step.Send? ==>
              var w := Runs.World(h, map[step.id := s]);
              Runs.Apply(w, step) == Runs.DoSend(w, step.id, step.data, step.more)
  {
    hide Runs.DoSubscribe, Runs.DoUnsubscribe, Runs.DoSend;
  }

  ghost function NotedWorld(w: Runs.World, id: nat, more: bool): Runs.World
    requires id in w.sockets
  {
    w.(sockets := w.sockets[id := Runs.Noted(w.sockets[id], more)])
  }

  /** A send in the order of the code: bookkeeping, then data or command. */
  lemma SendParts(w: Runs.World, id: nat, data: Bytes, more: bool)
    requires id in w.sockets
    ensures !w.sockets[id].attached ==> Runs.DoSend(w, id, data, more) == w
    ensures w.sockets[id].attached ==>
              var noted := NotedWorld(w, id, more);
              var marked := noted.(sockets := noted.sockets[id := noted.sockets[id].(processSubscribe := true)]);
              Runs.DoSend(w, id, data, more) ==
              if !Runs.ReadAsCommand(w.sockets[id], data) then Runs.Forward(noted, id, data, more)
              else if data[0] == 1 then Runs.DoSubscribe(marked, id, data[1..])
              else Runs.DoUnsubscribe(marked, id, data[1..])
  {
    hide Runs.DoSubscribe, Runs.DoUnsubscribe, Runs.Forward;
    var s := Runs.Noted(w.sockets[id], more);
    assert w.sockets[id := s][id := s.(processSubscribe := true)] == w.sockets[id := s.(processSubscribe := true)];
  }

  /** A REQ socket connected to a bound REP, or a REP socket that has bound; `endpoint` is the endpoint
      behind the name in both cases. */
  class LockstepSocket {
    const id: nat
    const socketType: ST.SocketType
    const inbox: MessageQueue
    const endpoint: InprocEndpoint
    const sndhwm: nat
    var patternState: Option<PatternState>
    var reqRelaxed: bool
    var lastRecvRoutingId: Option<nat>

    constructor (id: nat, socketType: ST.SocketType, inbox: MessageQueue, endpoint: InprocEndpoint, sndhwm: nat)
      requires Lockstep(socketType)
      ensures this.id == id && this.socketType == socketType && this.inbox == inbox && this.endpoint == endpoint
      ensures this.sndhwm == sndhwm && patternState == InitialState(socketType) && !reqRelaxed &&
              lastRecvRoutingId == None
    {
      this.id, this.socketType, this.inbox, this.endpoint, this.sndhwm := id, socketType, inbox, endpoint, sndhwm;
      patternState, reqRelaxed, lastRecvRoutingId := InitialState(socketType), false, None;
    }

    /** `after_pattern_send`. */
    method AfterPatternSend(more: bool) returns (r: Result<()>)
      modifies this`patternState
      ensures (patternState, r) == AfterSend(socketType, old(patternState), more, reqRelaxed)
    {
      if socketType != ST.Req && socketType != ST.Rep {
        return Ok(());
      }
      match patternState {
        case Some(ReadyToSend) =>
          if !more {
            patternState := Some(ReadyToRecv);
          }
        case Some(ReadyToRecv) =>
          if !(socketType == ST.Req && reqRelaxed) {
            return Err(InvalidState);
          }
        case None =>
      }
      r := Ok(());
    }

    /** `after_pattern_recv`. */
    method AfterPatternRecv(more: bool) returns (r: Result<()>)
      modifies this`patternState
      ensures (patternState, r) == AfterRecv(socketType, old(patternState), more)
    {
      if socketType != ST.Req && socketType != ST.Rep {
        return Ok(());
      }
      match patternState {
        case Some(ReadyToRecv) =>
          if !more {
            patternState := Some(ReadyToSend);
          }
        case Some(ReadyToSend) => return Err(InvalidState);
        case None =>
      }
      r := Ok(());
    }

    /** `apply_reply_routing_id`, then `apply_outgoing_routing_id`. */
    function Stamp(m: Message): Message
      reads this
    {
      if socketType == ST.Req then m.(routingId := id % U32_LIMIT)
      else if m.routingId == 0 && lastRecvRoutingId.Some? then m.(routingId := lastRecvRoutingId.value)
      else m
    }

    /** `resolve_outboxes`: from a REQ to the binder; from a REP to the peer named by the routing id, or to
        the first peer when there is none. */
    function Outbox(m: Message): Option<MessageQueue>
      reads this, endpoint
    {
      if socketType == ST.Req then Some(endpoint.binderInbox)
      else if m.routingId != 0 then endpoint.PeerById(m.routingId)
      else if endpoint.peers != [] then Some(endpoint.peers[0].inbox) else None
    }

    /** Where a REP's reply goes and what it carries: a routing id of the message's own counts first, then the one
        received last; the first attached peer of that id gets it, or nobody; without any id the earliest
        attached peer does. */
    lemma ReplyOutbox(m: Message)
      requires socketType == ST.Rep
      ensures Stamp(m) == m.(routingId := Stamp(m).routingId)
      ensures var id := Stamp(m).routingId;
              && (m.routingId != 0 ==> id == m.routingId)
              && (m.routingId == 0 && lastRecvRoutingId.Some? ==> id == lastRecvRoutingId.value)
              && (m.routingId == 0 && lastRecvRoutingId.None? ==> id == 0)
              && (Outbox(Stamp(m)).None? <==>
                  forall i :: 0 <= i < |endpoint.peers| ==> id != 0 && endpoint.peers[i].id != id)
              && (Outbox(Stamp(m)).Some? ==>
                    exists i ::
                      && 0 <= i < |endpoint.peers| && Outbox(Stamp(m)).value == endpoint.peers[i].inbox
                      && if id == 0 then i == 0 else FirstAt(endpoint.peers, id, i))
    {
      if Stamp(m).routingId == 0 && endpoint.peers != [] {
        assert Outbox(Stamp(m)).value == endpoint.peers[0].inbox;
      }
    }

    /** `send`: guard, stamp, resolve, high-water mark, queue, update. A failed send changes nothing. */
    method Send(message: Message) returns (r: Result<nat>)
      requires Lockstep(socketType)
      modifies this`patternState
      modifies match Outbox(Stamp(message)) case Some(q) => {q} case None => {}
      ensures r.Err? ==> patternState == old(patternState)
      ensures r.Ok? <==> CanSend(socketType, old(patternState), reqRelaxed).Ok? && old(Outbox(Stamp(message))).Some? &&
                         !(sndhwm > 0 && |old(Outbox(Stamp(message)).value.items)| >= sndhwm)
      ensures r.Ok? ==> r.value == |message.data| &&
                        patternState == AfterSend(socketType, old(patternState), message.more, reqRelaxed).0
      ensures r.Err? && CanSend(socketType, old(patternState), reqRelaxed).Err? ==> r == Err(InvalidState)
      ensures r.Err? && CanSend(socketType, old(patternState), reqRelaxed).Ok? ==> r == Err(Again)
      ensures old(Outbox(Stamp(message))).Some? ==>
                old(Outbox(Stamp(message))).value.items ==
                old(Outbox(Stamp(message)).value.items) + if r.Ok? then [old(Stamp(message))] else []
    {
      if CanSend(socketType, patternState, reqRelaxed).Err? {
        return Err(InvalidState);
      }
      var m := Stamp(message);
      var outbox := Outbox(m);
      if outbox.None? {
        return Err(Again);
      }
      if sndhwm > 0 && |outbox.value.items| >= sndhwm {
        return Err(Again);
      }
      outbox.value.items := outbox.value.items + [m];
      GuardedUpdateSucceeds(socketType, patternState, m.more, reqRelaxed);
      var updated := AfterPatternSend(m.more);
      r := Ok(|message.data|);
    }

    /** `recv`: guard, pop, remember a non-zero routing id, update. A failed receive changes nothing. */
    method Recv() returns (r: Result<Message>)
      requires Lockstep(socketType)
      modifies this`patternState, this`lastRecvRoutingId, inbox
      ensures CanRecv(socketType, old(patternState)).Err? ==> r == Err(InvalidState)
      ensures CanRecv(socketType, old(patternState)).Ok? ==>
                r == if old(inbox.items) == [] then Err(Again) else Ok(old(inbox.items)[0])
      ensures r.Err? ==> inbox.items == old(inbox.items) && patternState == old(patternState) &&
                         lastRecvRoutingId == old(lastRecvRoutingId)
      ensures r.Ok? ==> inbox.items == old(inbox.items)[1..] &&
                        patternState == AfterRecv(socketType, old(patternState), r.value.more).0 &&
                        lastRecvRoutingId == if r.value.routingId != 0 then Some(r.value.routingId)
                                             else old(lastRecvRoutingId)
    {
      if CanRecv(socketType, patternState).Err? {
        return Err(InvalidState);
      }
      if inbox.items == [] {
        return Err(Again);
      }
      var m := inbox.items[0];
      inbox.items := inbox.items[1..];
      if m.routingId != 0 {
        lastRecvRoutingId := Some(m.routingId);
      }
      GuardedUpdateSucceeds(socketType, patternState, m.more, reqRelaxed);
      var updated := AfterPatternRecv(m.more);
      r := Ok(m);
    }
  }

  /** A bound PUSH or SCATTER (round robin) or PAIR or CHANNEL (first peer). */
  class BalancedSocket {
    const socketType: ST.SocketType
    const endpoint: InprocEndpoint
    const sndhwm: nat
    var fastEnabled: bool

    constructor (socketType: ST.SocketType, endpoint: InprocEndpoint, sndhwm: nat)
      ensures this.socketType == socketType && this.endpoint == endpoint && this.sndhwm == sndhwm && fastEnabled
    {
      this.socketType, this.endpoint, this.sndhwm, fastEnabled := socketType, endpoint, sndhwm, true;
    }

    predicate RoundRobin() {
      socketType == ST.Push || socketType == ST.Scatter
    }

    /** The inbox that the next message goes to. */
    function Target(): Option<MessageQueue>
      reads endpoint
    {
      if endpoint.peers == [] then None
      else Some(endpoint.peers[if RoundRobin() then endpoint.nextPeer % |endpoint.peers| else 0].inbox)
    }

    /** `first_peer` or `next_peer`, as `resolve_outboxes` and `try_send_inproc_fast` choose. */
    method Choose() returns (q: Option<MessageQueue>)
      requires endpoint.nextPeer < U64_LIMIT
      modifies endpoint`nextPeer
      ensures q == old(Target())
      ensures endpoint.nextPeer == if RoundRobin() && q.Some? then Advanced(old(endpoint.nextPeer))
                                   else old(endpoint.nextPeer)
    {
      if RoundRobin() {
        q := endpoint.NextPeer();
      } else {
        q := if endpoint.peers == [] then None else Some(endpoint.peers[0].inbox);
      }
    }

    /** What is already queued there. */
    function Backlog(): seq<Message>
      reads endpoint, if Target().Some? then {Target().value} else {}
    {
      if Target().Some? then Target().value.items else []
    }

    /** No peer, or a full queue; the fast path, which SCATTER never takes, does not look at the mark. */
    predicate Refuses()
      reads this, endpoint, if Target().Some? then {Target().value} else {}
    {
      var fast := fastEnabled && socketType != ST.Scatter;
      Target().None? || (!fast && sndhwm > 0 && |Backlog()| >= sndhwm)
    }

    /** `send`: one frame is queued on one peer, or none at all. */
    method Send(m: Message) returns (r: Result<nat>)
      requires RoundRobin() || socketType == ST.Pair || socketType == ST.Channel
      requires endpoint.nextPeer < U64_LIMIT
      modifies endpoint`nextPeer, if Target().Some? then {Target().value} else {}
      ensures r == if old(Refuses()) then Err(Again) else Ok(|m.data|)
      ensures old(Target()).Some? ==>
                old(Target()).value.items == old(Backlog()) + if old(Refuses()) then [] else [m]
      ensures endpoint.nextPeer == if RoundRobin() && old(Target()).Some? then Advanced(old(endpoint.nextPeer))
                                   else old(endpoint.nextPeer)
    {
      var target := Choose();
      if target.None? {
        return Err(Again);
      }
      var fast := fastEnabled && socketType != ST.Scatter;
      if !fast && sndhwm > 0 && |target.value.items| >= sndhwm {
        return Err(Again);
      }
      target.value.items := target.value.items + [m];
      r := Ok(|m.data|);
    }
  }
}
