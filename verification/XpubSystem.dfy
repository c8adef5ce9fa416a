/** The steps of module XpubRuns carried out by real parts: one bound XPUB endpoint and any number of XSUB
    sockets with their prefix indexes and queues. Every call on them is a step of a run. */
module XpubSystem {
  import opened Common
  import opened Endpoint
  import opened Sockets
  import opened Runs = XpubRuns
  import ST = SocketTypes
  import Hubs = XpubHub
  import Subscriptions

  // One socket's view of a world.

  /** What the socket's own view shows: its record, and the endpoint without what was already read. */
  ghost function LocalWorld(w: World, id: nat): World
    requires id in w.sockets
  {
    World(w.hub.(seen := []), map[id := w.sockets[id]])
  }

  /** The call that turned the local world into `local` turns the whole one into `w'`. */
  ghost predicate Lifts(w: World, id: nat, local: World, w': World)
    requires id in w.sockets
  {
    && id in local.sockets && w'.sockets == w.sockets[id := local.sockets[id]]
    && w'.hub == local.hub.(seen := w.hub.seen)
  }

  lemma SubscribeLifts(w: World, id: nat, topic: Bytes)
    requires id in w.sockets
    ensures Lifts(w, id, DoSubscribe(LocalWorld(w, id), id, topic), DoSubscribe(w, id, topic))
  {
    hide Subscriptions.Insert;
  }

  lemma UnsubscribeLifts(w: World, id: nat, topic: Bytes)
    requires id in w.sockets
    ensures Lifts(w, id, DoUnsubscribe(LocalWorld(w, id), id, topic), DoUnsubscribe(w, id, topic))
  {
    hide Subscriptions.Remove, Hubs.WithoutPeer;
  }

  lemma SendLifts(w: World, id: nat, data: Bytes, more: bool)
    requires id in w.sockets
    ensures Lifts(w, id, DoSend(LocalWorld(w, id), id, data, more), DoSend(w, id, data, more))
  {
    hide DoSubscribe, DoUnsubscribe;
    var s := w.sockets[id];
    if s.attached && ReadAsCommand(s, data) {
      var w1 := w.(sockets := w.sockets[id := Noted(s, more).(processSubscribe := true)]);
      SubscribeLifts(w1, id, data[1..]);
      UnsubscribeLifts(w1, id, data[1..]);
      var local := LocalWorld(w, id);
      assert LocalWorld(w1, id) == local.(sockets := local.sockets[id := Noted(s, more).(processSubscribe := true)]);
    }
  }

  lemma {:induction false} ReplayLifts(h: Hubs.Hub, seen: seq<Hubs.Item>, id: nat, order: seq<Bytes>)
    ensures Hubs.ReplayAll(h.(seen := seen), id, order) == Hubs.ReplayAll(h, id, order).(seen := seen)
    decreases |order|
  {
    if order != [] { ReplayLifts(h, seen, id, order[..|order| - 1]); }
  }

  lemma {:induction false} RetractLifts(h: Hubs.Hub, seen: seq<Hubs.Item>, id: nat, order: seq<Bytes>)
    ensures Hubs.RetractAll(h.(seen := seen), id, order) == Hubs.RetractAll(h, id, order).(seen := seen)
    decreases |order|
  {
    hide Hubs.WithoutPeer;
    if order != [] { RetractLifts(h, seen, id, order[..|order| - 1]); }
  }

  /** A step of one socket. */
  predicate Own(step: Step) {
    BySocket(step) || step.SetOptions?
  }

  lemma StepLifts(w: World, step: Step)
    requires Own(step) && step.id in w.sockets
    ensures Lifts(w, step.id, Apply(LocalWorld(w, step.id), step), Apply(w, step))
  {
    hide DoSubscribe, DoUnsubscribe, DoSend, Hubs.ReplayAll, Hubs.RetractAll;
    var id, h := step.id, w.hub.(seen := []);
    assert h.(seen := w.hub.seen) == w.hub;
    match step
    case SetOptions(_, _, _, _) =>
    case Connect(_) => ReplayLifts(h, w.hub.seen, id, w.sockets[id].subs.order);
    case Disconnect(_) => RetractLifts(h, w.hub.seen, id, w.sockets[id].subs.order);
    case SubscribeTo(_, topic) => SubscribeLifts(w, id, topic);
    case UnsubscribeFrom(_, topic) => UnsubscribeLifts(w, id, topic);
    case Send(_, data, more) => SendLifts(w, id, data, more);
  }

  // Who is connected.

  ghost predicate Listed(peers: seq<InprocPeer>, id: nat) {
    exists p :: p in peers && p.id == id
  }

  ghost predicate PeerOk(p: InprocPeer, records: map<nat, Xsub>, sockets: map<nat, XsubSocket>) {
    && p.id in sockets && p.id in records && records[p.id].attached
    && p.subs == sockets[p.id].subs && p.socketType == ST.Xsub
  }

  /** The endpoint's peers are exactly the attached sockets. */
  ghost predicate PeersWired(records: map<nat, Xsub>, sockets: map<nat, XsubSocket>, peers: seq<InprocPeer>) {
    && (forall p :: p in peers ==> PeerOk(p, records, sockets))
    && (forall id :: id in records && records[id].attached ==> Listed(peers, id))
  }

  lemma {:induction false} OthersMembers(peers: seq<InprocPeer>, id: nat, p: InprocPeer)
    ensures p in Others(peers, id) <==> p in peers && p.id != id
  {
    if peers != [] {
      OthersMembers(peers[1..], id, p);
      assert peers == [peers[0]] + peers[1..];
    }
  }

  /** The same sockets are attached. */
  lemma WiredSame(records: map<nat, Xsub>, records': map<nat, Xsub>, sockets: map<nat, XsubSocket>,
                  peers: seq<InprocPeer>)
    requires PeersWired(records, sockets, peers) && records'.Keys == records.Keys
    requires forall id :: id in records ==> records'[id].attached == records[id].attached
    ensures PeersWired(records', sockets, peers)
  {
  }

  lemma WiredJoined(records: map<nat, Xsub>, records': map<nat, Xsub>, sockets: map<nat, XsubSocket>,
                    peers: seq<InprocPeer>, peer: InprocPeer)
    requires PeersWired(records, sockets, peers) && peer.id in records && peer.id in sockets
    requires peer.subs == sockets[peer.id].subs && peer.socketType == ST.Xsub && records'.Keys == records.Keys
    requires forall id :: id in records ==> records'[id].attached == (records[id].attached || id == peer.id)
    ensures PeersWired(records', sockets, peers + [peer])
  {
    forall id | id in records' && records'[id].attached ensures Listed(peers + [peer], id) {
      if id == peer.id {
        assert peer in peers + [peer];
      } else {
        var p :| p in peers && p.id == id;
        assert p in peers + [peer];
      }
    }
  }

  lemma WiredLeft(records: map<nat, Xsub>, records': map<nat, Xsub>, sockets: map<nat, XsubSocket>,
                  peers: seq<InprocPeer>, left: nat)
    requires PeersWired(records, sockets, peers) && records'.Keys == records.Keys
    requires forall id :: id in records ==> records'[id].attached == (records[id].attached && id != left)
    ensures PeersWired(records', sockets, Others(peers, left))
  {
    forall p | p in Others(peers, left) ensures PeerOk(p, records', sockets) {
      OthersMembers(peers, left, p);
      assert PeerOk(p, records, sockets);
    }
    forall id | id in records' && records'[id].attached ensures Listed(Others(peers, left), id) {
      var p :| p in peers && p.id == id;
      OthersMembers(peers, left, p);
    }
  }

  lemma WiredJoins(records: map<nat, Xsub>, sockets: map<nat, XsubSocket>, peers: seq<InprocPeer>, id: nat)
    requires PeersWired(records, sockets, peers) && id in records && records[id].attached && id in sockets
    ensures var peer := FirstWithId(peers, id);
            peer.Some? && peer.value.subs == sockets[id].subs && peer.value.socketType == ST.Xsub
  {
    FirstIsFirst(peers, id);
    var p :| p in peers && p.id == id;
    var i :| 0 <= i < |peers| && FirstAt(peers, id, i) && FirstWithId(peers, id).value == peers[i];
    assert PeerOk(peers[i], records, sockets);
  }

  /** The first-byte tables of the sockets' indexes. */
  type Tables = map<nat, array<bool>>

  /** No two sockets share an index or a table. */
  ghost predicate Apart(sockets: map<nat, XsubSocket>, tables: Tables) {
    && tables.Keys == sockets.Keys
    && forall a, b :: a in sockets && b in sockets && a != b ==>
                        sockets[a].subs != sockets[b].subs && tables[a] != tables[b]
  }

  lemma TablesStayApart(qs: map<nat, XsubSocket>, tables: Tables, id: nat, table: array<bool>)
    requires Apart(qs, tables) && id in qs && (table == tables[id] || forall k :: k in tables ==> tables[k] != table)
    ensures Apart(qs, tables[id := table])
  {
  }

  lemma StaysWired(w: World, step: Step, sockets: map<nat, XsubSocket>, peers: seq<InprocPeer>, peer: InprocPeer)
    requires Own(step) && step.id in w.sockets && step.id in sockets && PeersWired(w.sockets, sockets, peers)
    requires peer.id == step.id && peer.subs == sockets[step.id].subs && peer.socketType == ST.Xsub
    ensures var attached := w.sockets[step.id].attached;
            PeersWired(Apply(w, step).sockets, sockets,
                       if step.Connect? && !attached then peers + [peer]
                       else if step.Disconnect? && attached then Others(peers, step.id)
                       else peers)
  {
    var records, records' := w.sockets, Apply(w, step).sockets;
    StepAttaches(w, step);
    hide Apply, PeersWired;
    if step.Connect? && !records[step.id].attached {
      WiredJoined(records, records', sockets, peers, peer);
    } else if step.Disconnect? && records[step.id].attached {
      WiredLeft(records, records', sockets, peers, step.id);
    } else {
      WiredSame(records, records', sockets, peers);
    }
  }

  /** Only connecting and disconnecting change who is attached. */
  lemma StepAttaches(w: World, step: Step)
    requires Own(step) && step.id in w.sockets
    ensures Apply(w, step).sockets.Keys == w.sockets.Keys
    ensures forall id :: id in w.sockets ==>
                           Apply(w, step).sockets[id].attached ==
                           if id != step.id then w.sockets[id].attached
                           else (w.sockets[id].attached || step.Connect?) && !step.Disconnect?
  {
    hide Hubs.Subscribe, Hubs.Unsubscribe, Subscriptions.Insert, Subscriptions.Remove, Hubs.ReplayAll, Hubs.Detach;
  }

  class System {
    const endpoint: InprocEndpoint
    var sockets: map<nat, XsubSocket>

    ghost predicate SocketOk(q: XsubSocket, s: Xsub)
      reads q, q.subs, q.subs.firstBytes
    {
      q.endpoint == endpoint && q.inbox != endpoint.binderInbox && q.subs.Valid() && q.Socket() == s
    }

    ghost predicate HubOk(h: Hubs.Hub)
      reads endpoint, endpoint.binderInbox
    {
      endpoint.Valid() && endpoint.binderType == ST.Xpub && h == endpoint.View().(seen := h.seen)
    }

    ghost predicate SocketsOk(qs: map<nat, XsubSocket>, records: map<nat, Xsub>, tables: Tables)
      reads set id | id in qs :: qs[id], set id | id in qs :: qs[id].subs, set id | id in qs :: qs[id].subs.firstBytes
    {
      && qs.Keys == records.Keys && qs.Keys == tables.Keys
      && forall id :: id in qs ==>
                        qs[id].id == id && qs[id].subs.firstBytes == tables[id] && SocketOk(qs[id], records[id])
    }

    /** The real parts are in the state that `w` says. */
    ghost predicate Agrees(w: World, tables: Tables)
      reads this`sockets, endpoint, endpoint.binderInbox, set id | id in sockets :: sockets[id]
      reads set id | id in sockets :: sockets[id].subs, set id | id in sockets :: sockets[id].subs.firstBytes
    {
      && HubOk(w.hub) && SocketsOk(sockets, w.sockets, tables) && Apart(sockets, tables)
      && PeersWired(w.sockets, sockets, endpoint.peers)
    }

    constructor (welcome: Option<Bytes>)
      ensures Agrees(START, map[]) && sockets == map[] && endpoint.peers == [] && endpoint.welcome == welcome
      ensures fresh(endpoint) && fresh(endpoint.binderInbox)
    {
      var inbox := new MessageQueue();
      endpoint := new InprocEndpoint(ST.Xpub, inbox, welcome, SILENT);
      sockets := map[];
    }

    // Calls on one socket.

    /** `q` is one of the sockets. */
    ghost predicate Has(q: XsubSocket)
      reads this`sockets
    {
      q.id in sockets && sockets[q.id] == q
    }

    /** The sockets other than `q` are as `records` says. */
    ghost predicate OthersOk(records: map<nat, Xsub>, tables: Tables, q: XsubSocket)
      reads this`sockets, set k | k in sockets :: sockets[k], set k | k in sockets :: sockets[k].subs
      reads set k | k in sockets :: sockets[k].subs.firstBytes
    {
      && sockets.Keys == records.Keys && sockets.Keys == tables.Keys
      && forall k :: k in sockets && k != q.id ==>
                       && sockets[k].id == k && sockets[k].subs.firstBytes == tables[k]
                       && SocketOk(sockets[k], records[k])
    }

    /** `q` can be called without disturbing the others. */
    ghost predicate Ready(q: XsubSocket, records: map<nat, Xsub>, tables: Tables)
      reads this`sockets, endpoint, endpoint.binderInbox, q, q.subs, q.subs.firstBytes
      reads set k | k in sockets :: sockets[k], set k | k in sockets :: sockets[k].subs
      reads set k | k in sockets :: sockets[k].subs.firstBytes
    {
      && q.endpoint == endpoint && Has(q) && q.Valid() && q.Joined() && OthersOk(records, tables, q)
      && Apart(sockets, tables) && q.subs.firstBytes == tables[q.id]
    }

    /** A socket's own view is the local part of the world. */
    lemma LocalView(w: World, tables: Tables, q: XsubSocket)
      requires Agrees(w, tables) && Has(q)
      ensures Ready(q, w.sockets, tables)
      ensures q.id in w.sockets && q.attached == w.sockets[q.id].attached && q.View() == LocalWorld(w, q.id)
      ensures PeersWired(w.sockets, sockets, endpoint.peers)
    {
      hide Subscriptions.SubscriptionState.Valid, Apart;
      if q.attached { WiredJoins(w.sockets, sockets, endpoint.peers, q.id); }
    }

    /** A call on `q` took its view to `local` and left the other sockets alone. */
    lemma AfterCall(w: World, tables: Tables, q: XsubSocket, local: World, w': World)
      requires Has(q) && q.id in w.sockets && Lifts(w, q.id, local, w') && OthersOk(w.sockets, tables, q)
      requires q.endpoint == endpoint && q.Valid() && q.View() == local
      ensures HubOk(w'.hub) && SocketsOk(sockets, w'.sockets, tables[q.id := q.subs.firstBytes])
    {
      hide Subscriptions.SubscriptionState.Valid, InprocEndpoint.Valid, InprocEndpoint.View;
    }

    /** The call itself: only what belongs to `q` and the endpoint changes. */
    method Touch(q: XsubSocket, step: Step, ghost records: map<nat, Xsub>, ghost tables: Tables)
      requires Own(step) && step.id == q.id && Ready(q, records, tables)
      modifies q.Footprint()
      ensures q.Done(step) && OthersOk(records, tables, q)
    {
      hide SocketOk, XsubSocket.Valid, XsubSocket.View, XsubSocket.Done, XsubSocket.Joined;
      ghost var touched := q.Footprint();
      assert forall k :: k in sockets && k != q.id ==>
                           sockets[k] !in touched && sockets[k].subs !in touched && tables[k] !in touched;
      assert q.Valid() && q.Joined() && OthersOk(records, tables, q);
      hide XsubSocket.Footprint, Apart, Ready;
      q.Do(step);
    }

    /** A step of the socket `q`. */
    method Call(q: XsubSocket, step: Step, ghost w: World, ghost tables: Tables) returns (ghost after: Tables)
      requires Own(step) && step.id == q.id && q.id in w.sockets && Has(q) && Agrees(w, tables)
      modifies q.Footprint()
      ensures q.Done(step) && Kept(tables, after) && Agrees(Apply(w, step), after)
    {
      hide XsubSocket.Valid, XsubSocket.View, HubOk, SocketsOk, OthersOk, PeersWired, Lifts, Apply, LocalWorld;
      ghost var id, peer := q.id, InprocPeer(q.id, q.inbox, ST.Xsub, q.subs);
      LocalView(w, tables, q);
      StepLifts(w, step);
      StaysWired(w, step, sockets, endpoint.peers, peer);
      ghost var local, w' := Apply(LocalWorld(w, id), step), Apply(w, step);
      Touch(q, step, w.sockets, tables);
      ghost var table := q.subs.firstBytes;
      after := tables[id := table];
      TablesStayApart(sockets, tables, id, table);
      AfterCall(w, tables, q, local, w');
    }

    // Opening sockets.

    /** The new socket belongs to nobody else. */
    lemma ApartOneMore(qs: map<nat, XsubSocket>, tables: Tables, q: XsubSocket)
      requires Apart(qs, tables) && q.id !in qs
      requires forall k :: k in qs ==> qs[k].subs != q.subs && tables[k] != q.subs.firstBytes
      ensures Apart(qs[q.id := q], tables[q.id := q.subs.firstBytes])
    {
    }

    lemma WiredOneMore(records: map<nat, Xsub>, qs: map<nat, XsubSocket>, peers: seq<InprocPeer>, q: XsubSocket,
                       s: Xsub)
      requires PeersWired(records, qs, peers) && q.id !in qs && q.id !in records && !s.attached
      ensures PeersWired(records[q.id := s], qs[q.id := q], peers)
    {
    }

    lemma OkOneMore(qs: map<nat, XsubSocket>, records: map<nat, Xsub>, tables: Tables, q: XsubSocket, s: Xsub)
      requires SocketsOk(qs, records, tables) && q.id !in qs && SocketOk(q, s)
      ensures SocketsOk(qs[q.id := q], records[q.id := s], tables[q.id := q.subs.firstBytes])
    {
      hide SocketOk;
    }

    /** A new socket, not yet connected. */
    method Open(id: nat, onlyFirst: bool, verbose: bool, hwm: nat, ghost w: World, ghost tables: Tables)
      returns (q: XsubSocket, ghost after: Tables)
      requires id !in sockets && id !in w.sockets && Agrees(w, tables)
      modifies this`sockets
      ensures sockets == old(sockets)[id := q] && q.id == id && NewSocket(q) && q.inbox.items == []
      ensures after == tables[id := q.subs.firstBytes] && fresh(q.subs.firstBytes)
      ensures Agrees(Apply(w, Step.Open(id, onlyFirst, verbose, hwm)), after)
    {
      hide PeersWired, SocketsOk, Subscriptions.SubscriptionState.Valid, InprocEndpoint.Valid, InprocEndpoint.View;
      q := new XsubSocket(id, endpoint, onlyFirst, verbose, hwm);
      ghost var record := Xsub(Subscriptions.EMPTY, false, false, false, onlyFirst, verbose, hwm);
      assert SocketOk(q, record);
      hide SocketOk, HubOk;
      OkOneMore(sockets, w.sockets, tables, q, record);
      ApartOneMore(sockets, tables, q);
      WiredOneMore(w.sockets, sockets, endpoint.peers, q, record);
      hide Apart;
      after := tables[id := q.subs.firstBytes];
      sockets := sockets[id := q];
    }

    // Calls of the XPUB application.

    /** `recv` of the XPUB: the first queued message, if any. */
    method Receive(ghost h: Hubs.Hub) returns (r: Option<Message>)
      requires HubOk(h)
      modifies endpoint`pending, endpoint.binderInbox
      ensures h.inbox == [] ==> r == None && HubOk(h)
      ensures h.inbox != [] ==>
                && r == Some(Wire(h.inbox[0]))
                && HubOk(h.(seen := h.seen + [h.inbox[0]], inbox := h.inbox[1..]))
    {
      if endpoint.binderInbox.items == [] {
        return None;
      }
      assert WireAll(endpoint.pending[1..]) == WireAll(endpoint.pending)[1..];
      r := Some(endpoint.binderInbox.items[0]);
      endpoint.binderInbox.items := endpoint.binderInbox.items[1..];
      endpoint.pending := endpoint.pending[1..];
    }

    predicate ByApplication(step: Step) {
      !Own(step) && !step.Open?
    }

    /** A step of the application; `XpubPublish` looks at the outboxes of `m` and queues nothing yet. */
    method ServeHub(step: Step, m: Message, ghost w: World)
      requires ByApplication(step) && HubOk(w.hub) && endpoint.PeersValid()
      modifies endpoint`policy, endpoint`manualTopics, endpoint`lastPeer, endpoint`pending, endpoint.binderInbox
      ensures HubOk(Apply(w, step).hub)
    {
      hide Hubs.WithPeer, Hubs.WithoutPeer, ManualSelection, Accepting, WithIds, InprocEndpoint.PeersValid;
      match step {
        case XpubReceive => var r := Receive(w.hub);
        case XpubPublish => var outboxes := endpoint.MatchingPeers(m);
        case XpubSetPolicy(policy) => endpoint.policy := policy;
        case XpubSubscribe(topic) =>
          if endpoint.policy.manual {
            var r := endpoint.ManualSubscribeLastPeer(topic);
          }
        case XpubUnsubscribe(topic) =>
          if endpoint.policy.manual {
            var r := endpoint.ManualUnsubscribeLastPeer(topic);
          }
      }
    }

    lemma IndexesValid(w: World, tables: Tables)
      requires Agrees(w, tables)
      ensures endpoint.PeersValid()
    {
      forall p | p in endpoint.peers ensures p.subs.Valid() {
        assert PeerOk(p, w.sockets, sockets);
        assert SocketOk(sockets[p.id], w.sockets[p.id]);
      }
    }

    lemma ApplicationKeepsSockets(w: World, step: Step)
      requires ByApplication(step)
      ensures Apply(w, step).sockets == w.sockets
    {
    }

    method Serve(step: Step, m: Message, ghost w: World, ghost tables: Tables)
      requires ByApplication(step) && Agrees(w, tables)
      modifies endpoint`policy, endpoint`manualTopics, endpoint`lastPeer, endpoint`pending, endpoint.binderInbox
      ensures Agrees(Apply(w, step), tables)
    {
      hide HubOk, SocketsOk, PeersWired, Apart, Apply, InprocEndpoint.PeersValid;
      IndexesValid(w, tables);
      ApplicationKeepsSockets(w, step);
      ServeHub(step, m, w);
    }
  }

  /** A first-byte table is the old one or a new one. */
  twostate predicate Kept(tables: Tables, new after: Tables) {
    after.Keys == tables.Keys && forall id :: id in tables ==> after[id] == tables[id] || fresh(after[id])
  }

  /** The socket and everything it keeps for good is new. */
  twostate predicate NewSocket(new q: XsubSocket) {
    fresh(q) && fresh(q.subs) && fresh(q.inbox)
  }

  lemma NothingHappens(w: World, step: Step)
    requires (step.Open? && step.id in w.sockets) || (Own(step) && step.id !in w.sockets)
    ensures Apply(w, step) == w
  {
  }

  lemma SameIds(s: System, w: World, tables: Tables, id: nat)
    requires s.Agrees(w, tables)
    ensures id in s.sockets <==> id in w.sockets
    ensures id in s.sockets ==> s.Has(s.sockets[id]) && s.sockets[id].id == id && s.sockets[id].endpoint == s.endpoint
    ensures id in s.sockets ==> id in tables && s.sockets[id].subs.firstBytes == tables[id]
  {
  }
}
