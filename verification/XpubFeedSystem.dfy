/** The runs of module XpubDelivery carried out by real parts: the sockets of module XpubSystem, their
    inboxes, and the publisher's fan-out loop. */
module XpubFeedSystem {
  import opened Common
  import opened Endpoint
  import opened Sockets
  import opened Runs = XpubRuns
  import opened XpubDelivery
  import opened XpubSystem
  import ST = SocketTypes
  import Hubs = XpubHub
  import Subscriptions

  // Peers and inboxes.

  function PeerOf(q: XsubSocket): InprocPeer {
    InprocPeer(q.id, q.inbox, ST.Xsub, q.subs)
  }

  /** The peers are the sockets `ids`, in that order. */
  ghost predicate InOrder(ids: seq<nat>, qs: map<nat, XsubSocket>, peers: seq<InprocPeer>) {
    && |peers| == |ids|
    && forall i :: 0 <= i < |ids| ==> ids[i] in qs && qs[ids[i]].id == ids[i] && peers[i] == PeerOf(qs[ids[i]])
  }

  lemma {:induction false} OthersInOrder(ids: seq<nat>, qs: map<nat, XsubSocket>, peers: seq<InprocPeer>, id: nat)
    requires InOrder(ids, qs, peers)
    ensures InOrder(Without(ids, id), qs, Others(peers, id))
  {
    if ids != [] {
      assert InOrder(ids[1..], qs, peers[1..]);
      OthersInOrder(ids[1..], qs, peers[1..], id);
    }
  }

  /** The endpoint's peers follow the attach order through a step of the socket `q`. */
  lemma OrderAfter(f: Feed, step: Step, qs: map<nat, XsubSocket>, peers: seq<InprocPeer>, q: XsubSocket)
    requires Own(step) && step.id == q.id && q.id in qs && qs[q.id] == q && q.id in f.world.sockets
    requires InOrder(f.order, qs, peers)
    ensures var attached := f.world.sockets[q.id].attached;
            InOrder(DoAct(f, step).order, qs,
                    if step.Connect? && !attached then peers + [PeerOf(q)]
                    else if step.Disconnect? && attached then Others(peers, q.id) else peers)
  {
    hide Apply;
    if Disconnects(f.world, step) { OthersInOrder(f.order, qs, peers, q.id); }
  }

  ghost predicate OwnInboxes(qs: map<nat, XsubSocket>) {
    forall a, b :: a in qs && b in qs && a != b ==> qs[a].inbox != qs[b].inbox
  }

  /** The inboxes hold what `inboxes` says. */
  ghost predicate InboxesHold(qs: map<nat, XsubSocket>, inboxes: map<nat, seq<Message>>)
    reads set id | id in qs :: qs[id].inbox
  {
    && (forall id :: id in qs ==> qs[id].inbox.items == At(inboxes, id))
    && forall id :: id !in qs ==> At(inboxes, id) == []
  }

  // Selection.

  /** The slow path of `matching_peers` picks the selected sockets, in order. */
  lemma {:induction false} AcceptingInOrder(w: World, order: seq<nat>, qs: map<nat, XsubSocket>,
                                            peers: seq<InprocPeer>, refs: seq<map<Bytes, nat>>, m: Message)
    requires InOrder(order, qs, peers) && |refs| == |peers| && !w.hub.policy.manual
    requires forall i :: 0 <= i < |order| ==> order[i] in w.sockets && refs[i] == w.sockets[order[i]].subs.refs
    ensures InOrder(Selected(w, order, m.data), qs, Accepting(peers, refs, m))
  {
    if order != [] {
      var n := |order| - 1;
      assert forall i :: 0 <= i < n ==> order[..n][i] == order[i] && refs[..n][i] == refs[i];
      AcceptingInOrder(w, order[..n], qs, peers[..n], refs[..n], m);
      assert Accepts(peers[n].socketType, refs[n], m) <==> Chosen(w, order[n], m.data);
    }
  }

  /** So does manual mode. */
  lemma {:induction false} WithIdsInOrder(w: World, order: seq<nat>, qs: map<nat, XsubSocket>,
                                          peers: seq<InprocPeer>, data: Bytes)
    requires InOrder(order, qs, peers) && w.hub.policy.manual
    ensures InOrder(Selected(w, order, data), qs, WithIds(peers, ManualSelection(w.hub, data)))
  {
    hide ManualSelection;
    if order != [] {
      var n := |order| - 1;
      WithIdsInOrder(w, order[..n], qs, peers[..n], data);
    }
  }

  lemma SelectionIgnoresRead(h: Hubs.Hub, seen: seq<Hubs.Item>, data: Bytes)
    ensures ManualSelection(h.(seen := seen), data) == ManualSelection(h, data)
  {
  }

  class FeedSystem {
    const system: System
    const sndhwm: nat
    const nodrop: bool

    /** The real parts are in the state that `f` says. */
    ghost predicate Carries(f: Feed, tables: Tables)
      reads this, system, system.endpoint, system.endpoint.binderInbox
      reads set id | id in system.sockets :: system.sockets[id]
      reads set id | id in system.sockets :: system.sockets[id].subs
      reads set id | id in system.sockets :: system.sockets[id].subs.firstBytes
      reads set id | id in system.sockets :: system.sockets[id].inbox
    {
      && system.Agrees(f.world, tables) && InOrder(f.order, system.sockets, system.endpoint.peers)
      && OwnInboxes(system.sockets) && InboxesHold(system.sockets, f.inboxes)
      && f.sndhwm == sndhwm && f.nodrop == nodrop && f.welcome == system.endpoint.welcome
    }

    constructor (sndhwm: nat, nodrop: bool, welcome: Option<Bytes>)
      ensures Carries(NewFeed(sndhwm, nodrop, welcome), map[]) && system.sockets == map[]
      ensures fresh(system) && fresh(system.endpoint) && fresh(system.endpoint.binderInbox)
    {
      system := new System(welcome);
      this.sndhwm, this.nodrop := sndhwm, nodrop;
    }

    /** Every socket's inbox is its own, and none is the XPUB's. */
    lemma InboxesSeparate(f: Feed, tables: Tables)
      requires Carries(f, tables)
      ensures forall id :: id in system.sockets ==>
                             system.sockets[id].id == id && system.sockets[id].inbox != system.endpoint.binderInbox
    {
      hide Subscriptions.SubscriptionState.Valid;
    }

    /** The fan-out loop of `send`. */
    method Deliver(outboxes: seq<MessageQueue>, m: Message, ghost ids: seq<nat>, ghost inboxes: map<nat, seq<Message>>)
      returns (r: Result<()>)
      requires OwnInboxes(system.sockets) && InboxesHold(system.sockets, inboxes) && |outboxes| == |ids|
      requires forall i :: 0 <= i < |ids| ==> ids[i] in system.sockets && outboxes[i] == system.sockets[ids[i]].inbox
      modifies set id | id in system.sockets :: system.sockets[id].inbox
      ensures r == FanOut(inboxes, ids, m, sndhwm).1 && InboxesHold(system.sockets, FanOut(inboxes, ids, m, sndhwm).0)
    {
      var i := 0;
      ghost var now: map<nat, seq<Message>> := inboxes;
      assert ids[0..] == ids;
      while i < |outboxes|
        invariant 0 <= i <= |outboxes| && InboxesHold(system.sockets, now)
        invariant FanOut(now, ids[i..], m, sndhwm) == FanOut(inboxes, ids, m, sndhwm)
      {
        var outbox := outboxes[i];
        assert outbox.items == At(now, ids[i]);
        if sndhwm > 0 && |outbox.items| >= sndhwm {
          return Err(Again);
        }
        assert ids[i..][1..] == ids[i + 1..];
        outbox.items := outbox.items + [m];
        now := now[ids[i] := At(now, ids[i]) + [m]];
        i := i + 1;
      }
      r := Ok(());
    }

    /** Which inboxes a publish goes to; the endpoint's side of it is over with that. */
    method Choose(m: Message, ghost w: World, ghost order: seq<nat>) returns (outboxes: seq<MessageQueue>)
      requires system.HubOk(w.hub) && system.endpoint.PeersValid()
      requires InOrder(order, system.sockets, system.endpoint.peers)
      requires forall i :: 0 <= i < |order| ==>
                             order[i] in w.sockets && w.sockets[order[i]].subs == system.sockets[order[i]].subs.View()
      modifies system.endpoint`lastPeer
      ensures system.HubOk(Apply(w, XpubPublish).hub)
      ensures var ids := Selected(w, order, m.data);
              && |outboxes| == |ids|
              && forall i :: 0 <= i < |ids| ==> ids[i] in system.sockets && outboxes[i] == system.sockets[ids[i]].inbox
    {
      hide Selected, Accepting, WithIds, ManualSelection, InprocEndpoint.PeersValid;
      ghost var peers := system.endpoint.peers;
      if w.hub.policy.manual {
        WithIdsInOrder(w, order, system.sockets, peers, m.data);
        SelectionIgnoresRead(system.endpoint.View(), w.hub.seen, m.data);
      } else {
        AcceptingInOrder(w, order, system.sockets, peers, Snapshot(peers), m);
      }
      outboxes := system.endpoint.MatchingPeers(m);
    }

    lemma ReadyToPublish(f: Feed, tables: Tables)
      requires Carries(f, tables)
      ensures system.HubOk(f.world.hub) && system.endpoint.PeersValid()
      ensures forall i :: 0 <= i < |f.order| ==>
                && f.order[i] in f.world.sockets && f.order[i] in system.sockets
                && f.world.sockets[f.order[i]].subs == system.sockets[f.order[i]].subs.View()
    {
      hide Subscriptions.SubscriptionState.Valid;
      system.IndexesValid(f.world, tables);
    }

    /** `send` of the XPUB. */
    method Publish(m: Message, ghost f: Feed, ghost tables: Tables) returns (r: Result<()>)
      requires Carries(f, tables)
      modifies system.endpoint`lastPeer, set id | id in system.sockets :: system.sockets[id].inbox
      ensures r == DoPublish(f, m).1 && Carries(DoPublish(f, m).0, tables)
    {
      hide System.HubOk, System.SocketsOk, XpubSystem.PeersWired, XpubSystem.Apart, InprocEndpoint.PeersValid, Apply,
        Selected, FanOut;
      ReadyToPublish(f, tables);
      system.ApplicationKeepsSockets(f.world, XpubPublish);
      InboxesSeparate(f, tables);
      ghost var ids := Selected(f.world, f.order, m.data);
      var outboxes := Choose(m, f.world, f.order);
      r := Deliver(outboxes, m, ids, f.inboxes);
      if outboxes == [] && nodrop {
        r := Err(Again);
      }
    }

    /** `recv` of the XSUB `id`. */
    method Take(id: nat, ghost f: Feed, ghost tables: Tables) returns (r: Option<Message>)
      requires id in system.sockets && Carries(f, tables)
      modifies system.sockets[id].inbox
      ensures r == if At(f.inboxes, id) == [] then None else Some(At(f.inboxes, id)[0])
      ensures Carries(Advance(f, Move.Take(id)), tables)
    {
      hide System.HubOk, System.SocketsOk, XpubSystem.PeersWired, XpubSystem.Apart, InOrder;
      InboxesSeparate(f, tables);
      var inbox := system.sockets[id].inbox;
      if inbox.items == [] {
        return None;
      }
      r := Some(inbox.items[0]);
      inbox.items := inbox.items[1..];
    }

    // Steps of the sockets and of the application.

    /** A step concerns no inbox but that of a socket that connects, and none of the options. */
    lemma ActEffect(f: Feed, step: Step)
      ensures var f' := DoAct(f, step);
              && f'.world == Apply(f.world, step) && f'.sndhwm == f.sndhwm && f'.nodrop == f.nodrop
              && f'.welcome == f.welcome && (!Own(step) ==> f'.order == f.order)
              && forall k: nat :: At(f'.inboxes, k) == At(f.inboxes, k) + Greeted(f, step, k)
    {
      hide Apply;
      forall k: nat ensures At(DoAct(f, step).inboxes, k) == At(f.inboxes, k) + Greeted(f, step, k) {
        ConcatEmpty(At(f.inboxes, k));
      }
    }

    ghost function Greeted(f: Feed, step: Step, k: nat): seq<Message> {
      if Connects(f.world, step) && k == step.id then XpubDelivery.Greeting(f) else []
    }

    /** What a step of `q` will do to the peers and the inboxes. */
    lemma BeforeAct(q: XsubSocket, step: Step, f: Feed, tables: Tables)
      requires Own(step) && step.id == q.id && system.Has(q) && q.id in f.world.sockets && Carries(f, tables)
      ensures InOrder(DoAct(f, step).order, system.sockets, q.PeersAfter(step)) && q.endpoint == system.endpoint
      ensures q.InboxAfter(step) == At(DoAct(f, step).inboxes, q.id)
      ensures forall k: nat :: k != q.id ==> At(DoAct(f, step).inboxes, k) == At(f.inboxes, k)
      ensures system !in q.Footprint()
      ensures forall k :: k in system.sockets && k != q.id ==> system.sockets[k].inbox !in q.Footprint()
    {
      hide System.HubOk, System.SocketsOk, XpubSystem.PeersWired, XpubSystem.Apart, System.OthersOk, Apply, InOrder,
        XsubSocket.Valid, XsubSocket.View, XsubSocket.Joined, LocalWorld;
      InboxesSeparate(f, tables);
      system.LocalView(f.world, tables, q);
      OrderAfter(f, step, system.sockets, system.endpoint.peers, q);
      ActEffect(f, step);
    }

    /** A step of the socket `q`. */
    method ActOn(q: XsubSocket, step: Step, ghost f: Feed, ghost tables: Tables) returns (ghost after: Tables)
      requires Own(step) && step.id == q.id && system.Has(q) && q.id in f.world.sockets && Carries(f, tables)
      modifies q.Footprint()
      ensures Kept(tables, after) && Carries(DoAct(f, step), after)
    {
      hide System.Agrees, XsubSocket.Valid, XsubSocket.View, XsubSocket.PeersAfter, XsubSocket.InboxAfter,
        XsubSocket.Footprint, Apply, InOrder, DoAct, At, Kept;
      BeforeAct(q, step, f, tables);
      ActEffect(f, step);
      after := system.Call(q, step, f.world, tables);
    }

    lemma OneMoreSocket(f: Feed, qs: map<nat, XsubSocket>, peers: seq<InprocPeer>, q: XsubSocket)
      requires InOrder(f.order, qs, peers) && OwnInboxes(qs) && InboxesHold(qs, f.inboxes)
      requires q.id !in qs && q.inbox.items == [] && forall k :: k in qs ==> qs[k].inbox != q.inbox
      ensures var qs' := qs[q.id := q];
              InOrder(f.order, qs', peers) && OwnInboxes(qs') && InboxesHold(qs', f.inboxes)
    {
    }

    /** A new socket. */
    method OpenSocket(step: Step, ghost f: Feed, ghost tables: Tables) returns (q: XsubSocket, ghost after: Tables)
      requires step.Open? && step.id !in system.sockets && step.id !in f.world.sockets && Carries(f, tables)
      modifies system`sockets
      ensures system.sockets == old(system.sockets)[step.id := q] && NewSocket(q)
      ensures after == tables[step.id := q.subs.firstBytes] && fresh(q.subs.firstBytes)
      ensures Carries(DoAct(f, step), after)
    {
      hide System.Agrees, InOrder, OwnInboxes, InboxesHold, DoAct, Apply;
      ghost var qs, peers := system.sockets, system.endpoint.peers;
      OpenKeepsFeed(f, step);
      q, after := system.Open(step.id, step.onlyFirst, step.verboseUnsubscribe, step.sndhwm, f.world, tables);
      OneMoreSocket(f, qs, peers, q);
    }

    lemma OpenKeepsFeed(f: Feed, step: Step)
      requires !Own(step)
      ensures DoAct(f, step) == f.(world := Apply(f.world, step))
    {
      hide Apply;
    }

    /** A step of the XPUB application; a poll for events looks at the outboxes of an empty message. */
    method ServeStep(step: Step, ghost f: Feed, ghost tables: Tables)
      requires system.ByApplication(step) && Carries(f, tables)
      modifies system.endpoint`policy, system.endpoint`manualTopics, system.endpoint`lastPeer, system.endpoint`pending
      modifies system.endpoint.binderInbox
      ensures Carries(DoAct(f, step), tables)
    {
      hide System.Agrees, InOrder, OwnInboxes, DoAct, Apply, At;
      InboxesSeparate(f, tables);
      OpenKeepsFeed(f, step);
      system.Serve(step, Message([], false, 0, None), f.world, tables);
    }
  }

  // Whole runs.

  /** The system and all its parts are new. */
  twostate predicate AllNew(new s: System, new tables: Tables)
    reads s
  {
    && fresh(s) && fresh(s.endpoint) && fresh(s.endpoint.binderInbox)
    && (forall id :: id in s.sockets ==> NewSocket(s.sockets[id]))
    && forall id :: id in tables ==> fresh(tables[id])
  }

  lemma RunFeedStep(begin: Feed, moves: seq<Move>, i: nat)
    requires i < |moves|
    ensures RunFeed(begin, moves[..i + 1]) == Advance(RunFeed(begin, moves[..i]), moves[i])
  {
    assert moves[..i + 1][..i] == moves[..i];
  }

  lemma NoMoves(begin: Feed, moves: seq<Move>)
    ensures RunFeed(begin, moves[..0]) == begin
  {
  }

  lemma ActNothing(f: Feed, step: Step)
    requires (step.Open? && step.id in f.world.sockets) || (Own(step) && step.id !in f.world.sockets)
    ensures DoAct(f, step) == f
  {
    NothingHappens(f.world, step);
    hide Apply;
  }

  /** A socket that does not exist has nothing to receive. */
  lemma NothingToTake(s: FeedSystem, f: Feed, tables: Tables, id: nat)
    requires s.Carries(f, tables) && id !in s.system.sockets
    ensures Advance(f, Move.Take(id)) == f
  {
    hide System.Agrees, InOrder;
  }

  lemma SameSockets(s: FeedSystem, f: Feed, tables: Tables, id: nat)
    requires s.Carries(f, tables)
    ensures id in s.system.sockets <==> id in f.world.sockets
    ensures id in s.system.sockets ==>
              var q := s.system.sockets[id];
              && s.system.Has(q) && q.id == id && q.endpoint == s.system.endpoint
              && id in tables && q.subs.firstBytes == tables[id]
  {
    hide System.Agrees, InOrder, InboxesHold;
    SameIds(s.system, f.world, tables, id);
  }

  /** Real sockets, indexes, inboxes, queues and endpoint carry out any run exactly as the specification
      does, so whatever holds of every run holds of them. */
  method Execute(sndhwm: nat, nodrop: bool, welcome: Option<Bytes>, moves: seq<Move>)
    returns (s: FeedSystem, ghost tables: Tables)
    ensures fresh(s) && s.Carries(RunFeed(NewFeed(sndhwm, nodrop, welcome), moves), tables)
  {
    hide RunFeed, FeedSystem.Carries, DoAct, DoPublish, Apply, At;
    ghost var begin := NewFeed(sndhwm, nodrop, welcome);
    s := new FeedSystem(sndhwm, nodrop, welcome);
    tables := map[];
    NoMoves(begin, moves);
    var i := 0;
    while i < |moves|
      invariant 0 <= i <= |moves| && fresh(s) && AllNew(s.system, tables)
      invariant s.Carries(RunFeed(begin, moves[..i]), tables)
    {
      ghost var f := RunFeed(begin, moves[..i]);
      var move := moves[i];
      RunFeedStep(begin, moves, i);
      match move {
        case Publish(m) =>
          var r := s.Publish(m, f, tables);
        case Take(id) =>
          SameSockets(s, f, tables, id);
          if id in s.system.sockets {
            var r := s.Take(id, f, tables);
          } else {
            NothingToTake(s, f, tables, id);
          }
        case Act(step) =>
          if s.system.ByApplication(step) {
            s.ServeStep(step, f, tables);
          } else {
            SameSockets(s, f, tables, step.id);
            if step.Open? && step.id !in s.system.sockets {
              var q;
              q, tables := s.OpenSocket(step, f, tables);
            } else if step.Open? || step.id !in s.system.sockets {
              ActNothing(f, step);
            } else {
              tables := s.ActOn(s.system.sockets[step.id], step, f, tables);
            }
          }
      }
      i := i + 1;
    }
    assert moves[..i] == moves;
  }
}
