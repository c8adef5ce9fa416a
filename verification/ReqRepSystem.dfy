/** The network of module ReqRepNet made of real parts: one bound REP, its endpoint and any number of
    connected REQ sockets, with their queues. Every call on them is a step of that network. */
module ReqRepSystem {
  import opened Common
  import opened Endpoint
  import opened Pattern
  import opened ReqRepNet
  import opened Sockets
  import ST = SocketTypes
  import Hubs = XpubHub
  import Subscriptions

  function Queueable(m: Msg): Message {
    Message(m.data, false, m.routingId, None)
  }

  function Queueables(ms: seq<Msg>): (r: seq<Message>)
    ensures |r| == |ms|
  {
    seq(|ms|, i requires 0 <= i < |ms| => Queueable(ms[i]))
  }

  lemma QueueablesAppend(ms: seq<Msg>, m: Msg)
    ensures Queueables(ms + [m]) == Queueables(ms) + [Queueable(m)]
  {
  }

  lemma NothingQueued()
    ensures Queueables([]) == []
  {
  }

  lemma QueueablesRest(ms: seq<Msg>)
    requires ms != []
    ensures Queueables(ms[1..]) == Queueables(ms)[1..] && Queueables(ms)[0] == Queueable(ms[0])
  {
  }

  lemma {:induction false} PeerFound(peers: seq<InprocPeer>, ids: seq<nat>, id: nat)
    requires |peers| == |ids| && forall i :: 0 <= i < |ids| ==> peers[i].id == ids[i]
    ensures FirstWithId(peers, id).Some? <==> id in ids
    ensures FirstWithId(peers, id).Some? ==>
              exists i :: 0 <= i < |peers| && peers[i] == FirstWithId(peers, id).value && ids[i] == id
  {
    if peers != [] && peers[0].id != id {
      PeerFound(peers[1..], ids[1..], id);
      assert ids == [ids[0]] + ids[1..];
      if FirstWithId(peers, id).Some? {
        var i :| 0 <= i < |peers| - 1 && peers[1..][i] == FirstWithId(peers, id).value && ids[1..][i] == id;
        assert peers[i + 1] == FirstWithId(peers, id).value && ids[i + 1] == id;
      }
    }
  }

  // What the steps do, seen from the parts they touch.

  ghost predicate SameShape(n: Net, n': Net) {
    && n'.reqs.Keys == n.reqs.Keys && n'.peers == n.peers && n'.repHwm == n.repHwm
    && forall id :: id in n.reqs ==> n'.reqs[id].hwm == n.reqs[id].hwm
  }

  ghost predicate OthersKept(n: Net, n': Net, id: nat) {
    SameShape(n, n') && forall k :: k in n.reqs && k != id ==> n'.reqs[k] == n.reqs[k]
  }

  lemma FullMeans(queue: seq<Msg>, hwm: nat)
    ensures Full(queue, hwm) <==> hwm > 0 && |Queueables(queue)| >= hwm
  {
  }

  lemma AskEffect(n: Net, id: nat, data: Bytes)
    requires id in n.reqs
    ensures var (n', r) := DoAsk(n, id, data);
            var guard := CanSend(ST.Req, Some(n.reqs[id].state), false);
            && OthersKept(n, n', id) && (r.Err? ==> n' == n)
            && r == (if guard.Err? then Err(InvalidState)
                     else if Full(n.rep.inbox, n.reqs[id].hwm) then Err(Again) else Ok(()))
            && (r.Ok? ==>
                  && n'.rep == n.rep.(inbox := n.rep.inbox + [Msg(data, id % U32_LIMIT)])
                  && n'.reqs[id].inbox == n.reqs[id].inbox
                  && Some(n'.reqs[id].state) == AfterSend(ST.Req, Some(n.reqs[id].state), false, false).0)
  {
  }

  lemma TakeReplyEffect(n: Net, id: nat)
    requires id in n.reqs
    ensures var (n', r) := DoTakeReply(n, id);
            var guard := CanRecv(ST.Req, Some(n.reqs[id].state));
            && OthersKept(n, n', id) && n'.rep == n.rep && (r.Err? ==> n' == n)
            && r == (if guard.Err? then Err(InvalidState) else if n.reqs[id].inbox == [] then Err(Again) else Ok(()))
            && (r.Ok? ==>
                  && n'.reqs[id].inbox == n.reqs[id].inbox[1..]
                  && Some(n'.reqs[id].state) == AfterRecv(ST.Req, Some(n.reqs[id].state), false).0)
  {
  }

  lemma ReplyEffect(n: Net, data: Bytes)
    ensures var (n', r) := DoReply(n, data);
            var guard := CanSend(ST.Rep, Some(n.rep.state), false);
            && SameShape(n, n') && (r.Err? ==> n' == n)
            && r == (if guard.Err? then Err(InvalidState)
                     else if Destination(n).Some? && Destination(n).value in n.reqs &&
                             !Full(n.reqs[Destination(n).value].inbox, n.repHwm) then Ok(())
                     else Err(Again))
            && (r.Ok? ==>
                  var id := Destination(n).value;
                  && OthersKept(n, n', id)
                  && n'.rep.inbox == n.rep.inbox && n'.rep.lastRoutingId == n.rep.lastRoutingId
                  && n'.reqs[id] == n.reqs[id].(inbox := n.reqs[id].inbox + [Msg(data, ReplyRoutingId(n))])
                  && Some(n'.rep.state) == AfterSend(ST.Rep, Some(n.rep.state), false, false).0)
  {
  }

  lemma ReplyShape(n: Net, data: Bytes)
    ensures SameShape(n, DoReply(n, data).0)
  {
    hide DoReply;
    ReplyEffect(n, data);
  }

  lemma JoinEffect(n: Net, id: nat, hwm: nat)
    ensures var (n', r) := DoJoin(n, id, hwm);
            var fits := 0 < id < U32_LIMIT && id !in n.reqs;
            && r == (if fits then Ok(()) else Err(InvalidArgument))
            && n' == if !fits then n
                     else n.(reqs := n.reqs[id := Requester(ReadyToSend, [], [], [], hwm)], peers := n.peers + [id])
  {
  }

  class System {
    const endpoint: InprocEndpoint
    const rep: LockstepSocket
    var reqs: map<nat, LockstepSocket>
    ghost var net: Net

    ghost predicate Connected(q: LockstepSocket, id: nat) {
      && q != rep && q.id == id && q.socketType == ST.Req && q.endpoint == endpoint
      && q.inbox != rep.inbox
    }

    /** Who is connected to whom; no two sockets share an inbox. */
    ghost predicate Wired(n: Net, sockets: map<nat, LockstepSocket>, peers: seq<InprocPeer>) {
      && endpoint.binderType == ST.Rep
      && rep.socketType == ST.Rep && rep.endpoint == endpoint && rep.inbox == endpoint.binderInbox
      && rep.sndhwm == n.repHwm
      && sockets.Keys == n.reqs.Keys
      && (forall id :: id in sockets ==> Connected(sockets[id], id) && sockets[id].sndhwm == n.reqs[id].hwm)
      && (forall a, b :: a in sockets && b in sockets && a != b ==> sockets[a].inbox != sockets[b].inbox)
      && PeersWired(n.peers, sockets, peers)
    }

    ghost predicate PeersWired(ids: seq<nat>, sockets: map<nat, LockstepSocket>, peers: seq<InprocPeer>) {
      && |peers| == |ids|
      && forall i :: 0 <= i < |ids| ==>
                       peers[i].id == ids[i] && ids[i] in sockets && peers[i].inbox == sockets[ids[i]].inbox
    }

    ghost predicate RepAgrees(r: Replier)
      reads rep, rep.inbox
    {
      && rep.patternState == Some(r.state) && !rep.reqRelaxed
      && rep.lastRecvRoutingId == r.lastRoutingId
      && rep.inbox.items == Queueables(r.inbox)
    }

    ghost predicate ReqAgrees(socket: LockstepSocket, q: Requester)
      reads socket, socket.inbox
    {
      && socket.patternState == Some(q.state) && !socket.reqRelaxed
      && socket.inbox.items == Queueables(q.inbox)
    }

    ghost predicate Valid()
      reads this, endpoint, rep, rep.inbox
      reads set id | id in reqs :: reqs[id], set id | id in reqs :: reqs[id].inbox
    {
      && endpoint.nextPeer < U64_LIMIT && Wired(net, reqs, endpoint.peers)
      && RepAgrees(net.rep) && forall id :: id in reqs ==> ReqAgrees(reqs[id], net.reqs[id])
    }

    constructor (repHwm: nat)
      ensures Valid() && net == Start(repHwm) && reqs == map[]
      ensures fresh(endpoint) && fresh(rep) && fresh(rep.inbox)
    {
      var inbox := new MessageQueue();
      var e := new InprocEndpoint(ST.Rep, inbox, None, Hubs.Policy(false, false, false, false));
      rep := new LockstepSocket(1, ST.Rep, inbox, e, repHwm);
      endpoint := e;
      reqs, net := map[], Start(repHwm);
    }

    /** Creates a REQ socket and attaches it to the endpoint. */
    method NewRequester(id: nat, hwm: nat) returns (q: LockstepSocket, peer: InprocPeer)
      requires endpoint.Valid() && endpoint.binderType == ST.Rep
      modifies endpoint, endpoint.binderInbox
      ensures fresh(q) && fresh(q.inbox) && q.id == id && q.socketType == ST.Req && q.endpoint == endpoint &&
              q.sndhwm == hwm
      ensures q.patternState == Some(ReadyToSend) && !q.reqRelaxed && q.inbox.items == []
      ensures endpoint.nextPeer < U64_LIMIT && endpoint.binderInbox.items == old(endpoint.binderInbox.items)
      ensures endpoint.peers == old(endpoint.peers) + [peer] && peer.id == id && peer.inbox == q.inbox
    {
      var inbox := new MessageQueue();
      var subs := new Subscriptions.SubscriptionState();
      q := new LockstepSocket(id, ST.Req, inbox, endpoint, hwm);
      peer := InprocPeer(id, inbox, ST.Req, subs);
      var added := endpoint.AddPeer(peer);
    }

    lemma JoinWired(n: Net, sockets: map<nat, LockstepSocket>, peers: seq<InprocPeer>, id: nat, hwm: nat,
                    q: LockstepSocket, peer: InprocPeer)
      requires Wired(n, sockets, peers) && id !in sockets && Connected(q, id) && q.sndhwm == hwm && 0 < id < U32_LIMIT
      requires forall k :: k in sockets ==> sockets[k].inbox != q.inbox
      requires peer.id == id && peer.inbox == q.inbox
      ensures Wired(DoJoin(n, id, hwm).0, sockets[id := q], peers + [peer])
    {
    }

    /** A new REQ socket connects. */
    method Connect(id: nat, hwm: nat) returns (r: Result<()>)
      requires Valid()
      modifies this`reqs, this`net, endpoint, rep.inbox
      ensures Valid() && (net, r) == DoJoin(old(net), id, hwm)
      ensures r.Err? ==> reqs == old(reqs)
      ensures r.Ok? ==> id !in old(reqs) && id in reqs && reqs == old(reqs)[id := reqs[id]]
      ensures r.Ok? ==> fresh(reqs[id]) && fresh(reqs[id].inbox)
    {
      JoinEffect(net, id, hwm);
      if id == 0 || id >= U32_LIMIT || id in reqs {
        return Err(InvalidArgument);
      }
      Enter(id, hwm);
      r := Ok(());
    }

    method Enter(id: nat, hwm: nat)
      requires Valid() && id !in reqs && 0 < id < U32_LIMIT
      modifies this`reqs, this`net, endpoint, rep.inbox
      ensures Valid() && net == DoJoin(old(net), id, hwm).0
      ensures id in reqs && reqs == old(reqs)[id := reqs[id]] && fresh(reqs[id]) && fresh(reqs[id].inbox)
    {
      hide Queueables, Wired, DoJoin;
      ghost var n, sockets, peers := net, reqs, endpoint.peers;
      JoinEffect(n, id, hwm);
      Apart(0);
      NothingQueued();
      var q, peer := NewRequester(id, hwm);
      JoinWired(n, sockets, peers, id, hwm, q, peer);
      reqs := reqs[id := q];
      net := DoJoin(n, id, hwm).0;
    }

    lemma WiredShape(n: Net, n': Net)
      requires SameShape(n, n')
      ensures Wired(n, reqs, endpoint.peers) ==> Wired(n', reqs, endpoint.peers)
    {
    }

    /** A requester shares no state with the REP or with another requester. */
    lemma Apart(id: nat)
      requires Wired(net, reqs, endpoint.peers)
      ensures endpoint.binderType == ST.Rep && rep.socketType == ST.Rep && rep.inbox == endpoint.binderInbox &&
              reqs.Keys == net.reqs.Keys
      ensures rep.sndhwm == net.repHwm
      ensures id in reqs ==> Connected(reqs[id], id) && reqs[id].sndhwm == net.reqs[id].hwm
      ensures forall k :: k in reqs ==> reqs[k].inbox != rep.inbox && reqs[k] != rep
      ensures forall k :: k in reqs && id in reqs && k != id ==> reqs[k] != reqs[id] && reqs[k].inbox != reqs[id].inbox
    {
    }

    /** The sockets are in the state that `n` says. */
    ghost predicate Follows(n: Net)
      reads this`reqs, rep, rep.inbox
      reads set id | id in reqs :: reqs[id], set id | id in reqs :: reqs[id].inbox
    {
      RepAgrees(n.rep) && forall k :: k in reqs ==> k in n.reqs && ReqAgrees(reqs[k], n.reqs[k])
    }

    /** What a call on the requester `id` will see and what it must leave alone. */
    lemma BeforeCall(id: nat)
      requires Valid() && id in reqs
      ensures id in net.reqs && reqs.Keys == net.reqs.Keys && RepAgrees(net.rep)
      ensures Connected(reqs[id], id) && reqs[id].sndhwm == net.reqs[id].hwm && rep.inbox == endpoint.binderInbox
      ensures reqs[id].patternState == Some(net.reqs[id].state) && !reqs[id].reqRelaxed
      ensures reqs[id].inbox.items == Queueables(net.reqs[id].inbox)
      ensures rep.inbox.items == Queueables(net.rep.inbox)
      ensures forall k :: k in reqs && k != id ==>
                && ReqAgrees(reqs[k], net.reqs[k]) && reqs[k] != reqs[id] && reqs[k] != rep
                && reqs[k].inbox != reqs[id].inbox && reqs[k].inbox != rep.inbox
    {
      hide Queueables, Wired;
      Apart(id);
    }

    /** The requester `id` has put a request into the REP's inbox, or has done nothing. */
    lemma AskFollows(id: nat, data: Bytes, ok: bool)
      requires id in reqs && reqs.Keys == net.reqs.Keys && ok == DoAsk(net, id, data).1.Ok?
      requires rep.patternState == Some(net.rep.state) && !rep.reqRelaxed
      requires rep.lastRecvRoutingId == net.rep.lastRoutingId
      requires rep.inbox.items == Queueables(net.rep.inbox) +
                                  if ok then [Queueable(Msg(data, id % U32_LIMIT))] else []
      requires !reqs[id].reqRelaxed && reqs[id].inbox.items == Queueables(net.reqs[id].inbox)
      requires reqs[id].patternState == if ok then AfterSend(ST.Req, Some(net.reqs[id].state), false, false).0
                                        else Some(net.reqs[id].state)
      requires forall k :: k in reqs && k != id ==> ReqAgrees(reqs[k], net.reqs[k])
      ensures Follows(DoAsk(net, id, data).0)
    {
      hide DoAsk, Queueables, CanSend, AfterSend, Full;
      AskEffect(net, id, data);
      QueueablesAppend(net.rep.inbox, Msg(data, id % U32_LIMIT));
    }

    method SendRequest(id: nat, data: Bytes) returns (r: Result<()>)
      requires Valid() && id in reqs
      modifies reqs[id], rep.inbox
      ensures r == DoAsk(net, id, data).1
      ensures Follows(DoAsk(net, id, data).0)
    {
      hide DoAsk, Queueables, CanSend, AfterSend, Wired, ReqAgrees, Full, Follows;
      BeforeCall(id);
      AskEffect(net, id, data);
      FullMeans(net.rep.inbox, net.reqs[id].hwm);
      var sent := reqs[id].Send(Message(data, false, 0, None));
      AskFollows(id, data, sent.Ok?);
      r := if sent.Ok? then Ok(()) else Err(sent.error);
    }

    /** `send` on a REQ. */
    method Ask(id: nat, data: Bytes) returns (r: Result<()>)
      requires Valid() && id in reqs
      modifies this`net, reqs[id], rep.inbox
      ensures Valid() && (net, r) == DoAsk(old(net), id, data)
    {
      hide DoAsk, Wired, RepAgrees, ReqAgrees;
      ghost var n := net;
      Apart(id);
      r := SendRequest(id, data);
      AskEffect(n, id, data);
      net := DoAsk(n, id, data).0;
      WiredShape(n, net);
    }

    /** `recv` on the REP. */
    method TakeRequest() returns (r: Result<Bytes>)
      requires Valid()
      modifies this`net, rep, rep.inbox
      ensures Valid() && net == DoTakeRequest(old(net)).0
      ensures r == match DoTakeRequest(old(net)).1
                   case Ok(_) => Ok(old(net).rep.inbox[0].data)
                   case Err(e) => Err(e)
    {
      hide Queueables, Wired;
      Apart(0);
      ghost var n := net;
      if net.rep.inbox != [] { QueueablesRest(net.rep.inbox); }
      var got := rep.Recv();
      net := DoTakeRequest(n).0;
      WiredShape(n, net);
      r := if got.Ok? then Ok(got.value.data) else Err(got.error);
    }

    /** The inbox a reply will be put into. */
    lemma ReplyOutbox(data: Bytes)
      requires Valid()
      ensures var m := Message(data, false, 0, None);
              && rep.Stamp(m) == Queueable(Msg(data, ReplyRoutingId(net)))
              && match rep.Outbox(rep.Stamp(m))
                 case Some(q) => Destination(net).Some? && Destination(net).value in reqs &&
                     q == reqs[Destination(net).value].inbox
                 case None => Destination(net).None?
    {
      PeerFound(endpoint.peers, net.peers, ReplyRoutingId(net));
    }

    /** The REP has put a reply into the inbox of `id`, or has done nothing. */
    lemma ReplyFollows(data: Bytes, id: nat, ok: bool)
      requires reqs.Keys == net.reqs.Keys && ok == DoReply(net, data).1.Ok?
      requires Destination(net).Some? ==> id == Destination(net).value
      requires !rep.reqRelaxed && rep.lastRecvRoutingId == net.rep.lastRoutingId
      requires rep.inbox.items == Queueables(net.rep.inbox)
      requires rep.patternState == if ok then AfterSend(ST.Rep, Some(net.rep.state), false, false).0
               else Some(net.rep.state)
      requires forall k :: k in reqs && k != id ==> ReqAgrees(reqs[k], net.reqs[k])
      requires id in reqs ==> reqs[id].patternState == Some(net.reqs[id].state) && !reqs[id].reqRelaxed
      requires id in reqs ==> reqs[id].inbox.items == Queueables(net.reqs[id].inbox) +
                              if ok then [Queueable(Msg(data, ReplyRoutingId(net)))] else []
      ensures Follows(DoReply(net, data).0)
    {
      hide DoReply, AfterSend, CanSend, Queueables, Destination, Full;
      ReplyEffect(net, data);
      if id in reqs { QueueablesAppend(net.reqs[id].inbox, Msg(data, ReplyRoutingId(net))); }
    }

    /** What the call will see and what it must leave alone. */
    lemma BeforeReply(data: Bytes, id: nat)
      requires Valid() && (Destination(net).Some? ==> id == Destination(net).value)
      ensures rep.socketType == ST.Rep && rep.sndhwm == net.repHwm && reqs.Keys == net.reqs.Keys
      ensures !rep.reqRelaxed && rep.patternState == Some(net.rep.state)
      ensures rep.lastRecvRoutingId == net.rep.lastRoutingId && rep.inbox.items == Queueables(net.rep.inbox)
      ensures rep.Stamp(Message(data, false, 0, None)) == Queueable(Msg(data, ReplyRoutingId(net)))
      ensures rep.Outbox(rep.Stamp(Message(data, false, 0, None))) ==
              if Destination(net).Some? && id in reqs then Some(reqs[id].inbox) else None
      ensures Destination(net).Some? ==> id in reqs
      ensures id in reqs ==> reqs[id].patternState == Some(net.reqs[id].state) && !reqs[id].reqRelaxed
      ensures id in reqs ==> reqs[id] != rep && reqs[id].inbox != rep.inbox
      ensures id in reqs ==> reqs[id].inbox.items == Queueables(net.reqs[id].inbox)
      ensures forall k :: k in reqs && k != id ==> ReqAgrees(reqs[k], net.reqs[k]) && reqs[k] != rep
      ensures forall k :: k in reqs && k != id && id in reqs ==> reqs[k].inbox != reqs[id].inbox
    {
      hide Queueables, Wired, Destination, ReplyRoutingId, FirstWithId, LockstepSocket.Outbox, LockstepSocket.Stamp;
      ReplyOutbox(data);
      Apart(id);
    }

    method SendReply(data: Bytes) returns (r: Result<()>)
      requires Valid()
      modifies rep, set id | id in reqs :: reqs[id].inbox
      ensures r == DoReply(net, data).1
      ensures Follows(DoReply(net, data).0)
    {
      hide DoReply, Queueables, CanSend, AfterSend, Wired, RepAgrees, ReqAgrees, Destination, ReplyRoutingId, Full,
        Follows, LockstepSocket.Outbox, LockstepSocket.Stamp;
      ghost var id := if Destination(net).Some? then Destination(net).value else 0;
      BeforeReply(data, id);
      ReplyEffect(net, data);
      if id in net.reqs { FullMeans(net.reqs[id].inbox, net.repHwm); }
      var sent := rep.Send(Message(data, false, 0, None));
      ReplyFollows(data, id, sent.Ok?);
      r := if sent.Ok? then Ok(()) else Err(sent.error);
    }

    /** `send` on the REP. */
    method Reply(data: Bytes) returns (r: Result<()>)
      requires Valid()
      modifies this`net, rep, set id | id in reqs :: reqs[id].inbox
      ensures Valid() && (net, r) == DoReply(old(net), data)
    {
      hide DoReply, Wired, RepAgrees, ReqAgrees;
      ghost var n := net;
      ReplyShape(n, data);
      r := SendReply(data);
      net := DoReply(n, data).0;
      WiredShape(n, net);
    }

    method RecvReply(id: nat) returns (r: Result<Bytes>)
      requires Valid() && id in reqs
      modifies reqs[id], reqs[id].inbox
      ensures r == match DoTakeReply(net, id).1
                   case Ok(_) => Ok(net.reqs[id].inbox[0].data)
                   case Err(e) => Err(e)
      ensures Follows(DoTakeReply(net, id).0)
    {
      hide DoTakeReply, Queueables, CanRecv, AfterRecv, Wired, RepAgrees;
      BeforeCall(id);
      TakeReplyEffect(net, id);
      if net.reqs[id].inbox != [] { QueueablesRest(net.reqs[id].inbox); }
      var got := reqs[id].Recv();
      r := if got.Ok? then Ok(got.value.data) else Err(got.error);
    }

    /** `recv` on a REQ. */
    method TakeReply(id: nat) returns (r: Result<Bytes>)
      requires Valid() && id in reqs
      modifies this`net, reqs[id], reqs[id].inbox
      ensures Valid() && net == DoTakeReply(old(net), id).0
      ensures r == match DoTakeReply(old(net), id).1
                   case Ok(_) => Ok(old(net).reqs[id].inbox[0].data)
                   case Err(e) => Err(e)
    {
      hide DoTakeReply, Wired, RepAgrees, ReqAgrees;
      ghost var n := net;
      Apart(id);
      TakeReplyEffect(n, id);
      r := RecvReply(id);
      net := DoTakeReply(n, id).0;
      WiredShape(n, net);
    }
  }

  /** One send or receive call on the sockets. */
  method Perform(s: System, step: Step)
    requires s.Valid() && !step.Join?
    modifies s`net, s.rep, s.rep.inbox
    modifies set id | id in s.reqs :: s.reqs[id], set id | id in s.reqs :: s.reqs[id].inbox
    ensures s.Valid() && s.net == Apply(old(s.net), step).0
  {
    s.Apart(0);
    hide DoAsk, DoTakeRequest, DoReply, DoTakeReply, System.Valid, System.Wired;
    match step {
      case Ask(id, data) =>
        if id in s.reqs {
          var r := s.Ask(id, data);
        }
      case TakeRequest =>
        var r := s.TakeRequest();
      case Reply(data) =>
        var r := s.Reply(data);
      case TakeReply(id) =>
        if id in s.reqs {
          var r := s.TakeReply(id);
        }
    }
  }

  /** Real sockets carry out any run exactly as the network does, so whatever holds of every run holds of
      them. */
  method Execute(repHwm: nat, steps: seq<Step>) returns (s: System)
    ensures fresh(s) && s.Valid() && s.net == Run(repHwm, steps) && Sound(s.net)
  {
    hide Run, Sound, DoJoin, System.Valid;
    s := new System(repHwm);
    RunFrom(repHwm, steps);
    var i := 0;
    while i < |steps|
      invariant 0 <= i <= |steps| && s.Valid()
      invariant fresh(s) && fresh(s.endpoint) && fresh(s.rep) && fresh(s.rep.inbox)
      invariant forall id :: id in s.reqs ==> fresh(s.reqs[id]) && fresh(s.reqs[id].inbox)
      invariant s.net == Run(repHwm, steps[..i])
    {
      if steps[i].Join? {
        var r := s.Connect(steps[i].id, steps[i].hwm);
      } else {
        Perform(s, steps[i]);
      }
      RunStep(repHwm, steps, i);
      i := i + 1;
    }
    assert steps[..i] == steps;
    RunSound(repHwm, steps);
  }

  lemma RunFrom(repHwm: nat, steps: seq<Step>)
    ensures Run(repHwm, steps[..0]) == Start(repHwm)
  {
  }

  lemma RunStep(repHwm: nat, steps: seq<Step>, i: nat)
    requires i < |steps|
    ensures Run(repHwm, steps[..i + 1]) == Apply(Run(repHwm, steps[..i]), steps[i]).0
  {
    assert steps[..i + 1][..i] == steps[..i];
  }
}
