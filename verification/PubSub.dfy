/** A bound PUB with any number of SUB sockets: the real endpoint, subscription indexes and inboxes carry
    out any run of calls, and each socket gets exactly the messages it is subscribed to. */
module PubSub {
  import opened Common
  import opened Endpoint
  import opened Subscriptions
  import ST = SocketTypes
  import Hubs = XpubHub

  datatype Move =
    | Connect(id: nat)
    | Disconnect(id: nat)
    | SubscribeTo(id: nat, prefix: Bytes)
    | UnsubscribeFrom(id: nat, prefix: Bytes)
    | Publish(m: Message)
    | Take(id: nat)

  // What a socket is owed, from its own calls and the published messages alone.

  /** One socket's record: its subscription calls, the messages it is owed, and how many it has received. */
  datatype Row = Row(attached: bool, calls: seq<Op>, owed: seq<Message>, taken: nat)

  /** More subscribe than unsubscribe calls count for some beginning of the data. */
  ghost predicate Subscribed(calls: seq<Op>, data: Bytes) {
    exists n :: 0 <= n <= |data| && RefCount(calls, data[..n]) > 0
  }

  ghost function Next(row: Row, id: nat, move: Move): Row {
    match move
    case Connect(k) => if k == id then row.(attached := true) else row
    case Disconnect(k) => if k == id then row.(attached := false) else row
    case SubscribeTo(k, p) => if k == id then row.(calls := row.calls + [Ins(p)]) else row
    case UnsubscribeFrom(k, p) => if k == id then row.(calls := row.calls + [Rem(p)]) else row
    case Publish(m) =>
      if row.attached && Subscribed(row.calls, m.data) then row.(owed := row.owed + [m]) else row
    case Take(k) => if k == id && row.taken < |row.owed| then row.(taken := row.taken + 1) else row
  }

  ghost function RowOf(moves: seq<Move>, id: nat): (row: Row)
    ensures row.taken <= |row.owed|
  {
    if moves == [] then Row(false, [], [], 0) else Next(RowOf(moves[..|moves| - 1], id), id, moves[|moves| - 1])
  }

  lemma RowExtend(moves: seq<Move>, move: Move, id: nat)
    ensures RowOf(moves + [move], id) == Next(RowOf(moves, id), id, move)
  {
    ConcatSplit(moves, [move]);
  }

  lemma Unattached(sockets: seq<InprocPeer>)
    ensures Lists([], sockets)
    ensures forall id :: 0 <= id < |sockets| ==> !RowOf([], id).attached && !Attached([], id)
  {
  }

  /** The index built by the calls takes what the calls have subscribed to. */
  lemma SubscribedIsStored(calls: seq<Op>, data: Bytes)
    ensures StartsWithStored(RunOps(calls).refs, data) <==> Subscribed(calls, data)
  {
    hide RunOps, RefCount;
    RunCounts(calls);
  }

  lemma OneMoreCall(calls: seq<Op>, op: Op)
    ensures RunOps(calls + [op]) == Apply(RunOps(calls), op).0
  {
    ConcatSplit(calls, [op]);
  }

  // The real parts.

  /** The socket `q` is in the state that `row` says. */
  ghost predicate Is(q: InprocPeer, id: nat, row: Row, received: seq<Message>)
    reads q.subs, q.subs.firstBytes, q.inbox
  {
    Known(q, id, row, received) && q.inbox.items == row.owed[row.taken..]
  }

  /** All of it but the inbox. */
  ghost predicate Known(q: InprocPeer, id: nat, row: Row, received: seq<Message>)
    reads q.subs, q.subs.firstBytes
  {
    && q.id == id && q.socketType == ST.Sub && row.taken <= |row.owed|
    && q.subs.Valid() && q.subs.View() == RunOps(row.calls) && received == row.owed[..row.taken]
  }

  ghost predicate Apart(q: InprocPeer, q': InprocPeer)
    reads q.subs, q'.subs
  {
    q.inbox != q'.inbox && q.subs != q'.subs && q.subs.firstBytes != q'.subs.firstBytes
  }

  /** The peers are sockets, once each. */
  ghost predicate Lists(peers: seq<InprocPeer>, sockets: seq<InprocPeer>) {
    && (forall i :: 0 <= i < |peers| ==> peers[i].id < |sockets| && peers[i] == sockets[peers[i].id])
    && forall i, j :: 0 <= i < j < |peers| ==> peers[i].id != peers[j].id
  }

  ghost predicate Attached(peers: seq<InprocPeer>, id: nat) {
    exists i :: 0 <= i < |peers| && peers[i].id == id
  }

  lemma AttachedMore(peer: InprocPeer, rest: seq<InprocPeer>, k: nat)
    ensures Attached([peer] + rest, k) <==> Attached(rest, k) || k == peer.id
    ensures Attached(rest + [peer], k) <==> Attached(rest, k) || k == peer.id
  {
    var before, after := [peer] + rest, rest + [peer];
    if Attached(rest, k) {
      var i :| 0 <= i < |rest| && rest[i].id == k;
      assert before[i + 1].id == k && after[i].id == k;
    }
    assert before[0] == peer && after[|rest|] == peer;
  }

  lemma ListsMore(peer: InprocPeer, rest: seq<InprocPeer>, sockets: seq<InprocPeer>)
    requires Lists(rest, sockets) && peer.id < |sockets| && peer == sockets[peer.id] && !Attached(rest, peer.id)
    ensures Lists([peer] + rest, sockets) && Lists(rest + [peer], sockets)
  {
  }

  lemma {:induction false} OthersList(peers: seq<InprocPeer>, sockets: seq<InprocPeer>, id: nat)
    requires Lists(peers, sockets)
    ensures Lists(Others(peers, id), sockets)
    ensures forall k :: Attached(Others(peers, id), k) <==> Attached(peers, k) && k != id
  {
    if peers != [] {
      var first, rest := peers[0], Others(peers[1..], id);
      OthersList(peers[1..], sockets, id);
      assert peers == [first] + peers[1..];
      assert !Attached(peers[1..], first.id);
      hide Attached, Lists;
      forall k ensures Attached(Others(peers, id), k) <==> Attached(peers, k) && k != id {
        AttachedMore(first, peers[1..], k);
        AttachedMore(first, rest, k);
      }
      if first.id != id { ListsOne(peers, sockets); ListsMore(first, rest, sockets); }
    }
  }

  lemma ListsOne(peers: seq<InprocPeer>, sockets: seq<InprocPeer>)
    requires Lists(peers, sockets) && peers != []
    ensures peers[0].id < |sockets| && peers[0] == sockets[peers[0].id]
  {
  }

  /** The row after a publish, with the stored prefixes in place of the calls. */
  ghost function Published(row: Row, m: Message): Row {
    if row.attached && StartsWithStored(RunOps(row.calls).refs, m.data) then row.(owed := row.owed + [m]) else row
  }

  lemma RowPublished(moves: seq<Move>, m: Message, id: nat)
    ensures RowOf(moves + [Publish(m)], id) == Published(RowOf(moves, id), m)
  {
    RowExtend(moves, Publish(m), id);
    SubscribedIsStored(RowOf(moves, id).calls, m.data);
  }

  lemma PublishKeeps(row: Row, m: Message)
    ensures Published(row, m).attached == row.attached
  {
  }

  lemma Gets(q: InprocPeer, id: nat, row: Row, received: seq<Message>, m: Message)
    requires Known(q, id, row, received)
    requires if row.attached then Grew(q, row.owed[row.taken..], q.subs.exact, m)
             else q.inbox.items == row.owed[row.taken..]
    ensures Is(q, id, Published(row, m), received)
  {
    hide RunOps, SubscriptionState.Valid, StartsWithStored;
  }

  /** All parts were made since. */
  twostate predicate NewSockets(new sockets: seq<InprocPeer>)
    reads set q | q in sockets :: q.subs
  {
    forall a :: 0 <= a < |sockets| ==>
                  fresh(sockets[a].inbox) && fresh(sockets[a].subs) && fresh(sockets[a].subs.firstBytes)
  }

  ghost predicate OwnParts(sockets: seq<InprocPeer>)
    reads set q | q in sockets :: q.subs
  {
    forall a, b :: 0 <= a < b < |sockets| ==> Apart(sockets[a], sockets[b])
  }

  /** No table of first bytes is replaced but by a new one. */
  twostate predicate TablesKept(sockets: seq<InprocPeer>)
    reads set q | q in sockets :: q.subs
  {
    forall a :: 0 <= a < |sockets| ==>
                  sockets[a].subs.firstBytes == old(sockets[a].subs.firstBytes) || fresh(sockets[a].subs.firstBytes)
  }

  method MakeSocket(id: nat) returns (q: InprocPeer)
    ensures fresh(q.inbox) && fresh(q.subs) && fresh(q.subs.firstBytes) && Is(q, id, RowOf([], id), [])
  {
    var inbox := new MessageQueue();
    var subs := new SubscriptionState();
    q := InprocPeer(id, inbox, ST.Sub, subs);
  }

  /** `n` SUB sockets with the ids from 0. */
  method MakeSockets(n: nat) returns (sockets: seq<InprocPeer>)
    ensures |sockets| == n && NewSockets(sockets) && OwnParts(sockets)
    ensures forall id :: 0 <= id < n ==> Is(sockets[id], id, RowOf([], id), [])
  {
    hide RowOf, SubscriptionState.Valid;
    sockets := [];
    while |sockets| < n
      invariant |sockets| <= n && NewSockets(sockets) && OwnParts(sockets)
      invariant forall id :: 0 <= id < |sockets| ==> Is(sockets[id], id, RowOf([], id), [])
    {
      var q := MakeSocket(|sockets|);
      sockets := sockets + [q];
    }
  }

  /** One insert or removal in the index of the socket. */
  method ChangeIndex(q: InprocPeer, prefix: Bytes, on: bool, ghost row: Row, ghost received: seq<Message>)
    returns (changed: bool)
    requires Is(q, q.id, row, received)
    modifies q.subs, q.subs.firstBytes
    ensures Is(q, q.id, row.(calls := row.calls + [if on then Ins(prefix) else Rem(prefix)]), received)
    ensures q.subs.firstBytes == old(q.subs.firstBytes) || fresh(q.subs.firstBytes)
  {
    hide RunOps, SubscriptionState.Valid;
    OneMoreCall(row.calls, if on then Ins(prefix) else Rem(prefix));
    if on {
      changed := q.subs.Add(prefix);
    } else {
      changed := q.subs.Drop(prefix);
    }
  }

  class PubSystem {
    const endpoint: InprocEndpoint
    const sockets: seq<InprocPeer>
    var received: seq<seq<Message>>

    /** Every socket has its own parts. */
    ghost predicate AllApart()
      reads set q | q in sockets :: q.subs
    {
      && OwnParts(sockets)
      && forall a :: 0 <= a < |sockets| ==> sockets[a].inbox != endpoint.binderInbox
    }

    /** The endpoint is a PUB's and lists each attached socket once. */
    ghost predicate Wired(moves: seq<Move>)
      reads endpoint, endpoint.binderInbox
    {
      && endpoint.binderType == ST.Pub && endpoint.Valid() && Lists(endpoint.peers, sockets)
      && forall id :: 0 <= id < |sockets| ==> (RowOf(moves, id).attached <==> Attached(endpoint.peers, id))
    }

    /** The real parts are in the state that the run says. */
    ghost predicate Carries(moves: seq<Move>)
      reads this, endpoint, endpoint.binderInbox
      reads set q | q in sockets :: q.subs
      reads set q | q in sockets :: q.subs.firstBytes
      reads set q | q in sockets :: q.inbox
    {
      && Wired(moves) && AllApart() && |received| == |sockets|
      && forall id :: 0 <= id < |sockets| ==> Is(sockets[id], id, RowOf(moves, id), received[id])
    }

    constructor (n: nat)
      ensures |sockets| == n && Carries([]) && NewSockets(sockets) && fresh(endpoint) && fresh(endpoint.binderInbox)
    {
      hide RowOf, Is, OwnParts, Lists, Attached;
      var inbox := new MessageQueue();
      endpoint := new InprocEndpoint(ST.Pub, inbox, None, Hubs.Policy(false, false, false, false));
      var made := MakeSockets(n);
      sockets, received := made, seq(n, _ => []);
      Unattached(made);
    }

    /** A socket that is connected once has its inbox to itself. */
    lemma ListedApart(i: nat)
      requires AllApart() && Lists(endpoint.peers, sockets) && i < |endpoint.peers|
      ensures OwnInbox(endpoint.peers, i)
    {
      forall j | 0 <= j < |endpoint.peers| && j != i ensures endpoint.peers[j].inbox != endpoint.peers[i].inbox {
        assert Apart(sockets[endpoint.peers[j].id], sockets[endpoint.peers[i].id]);
      }
    }

    lemma Elsewhere(id: nat)
      requires AllApart() && Lists(endpoint.peers, sockets) && id < |sockets| && !Attached(endpoint.peers, id)
      ensures forall p :: p in endpoint.peers ==> p.inbox != sockets[id].inbox
    {
      forall p | p in endpoint.peers ensures p.inbox != sockets[id].inbox {
        assert Apart(sockets[p.id], sockets[id]);
      }
    }

    lemma IndexOf(id: nat) returns (i: nat)
      requires Lists(endpoint.peers, sockets) && id < |sockets| && Attached(endpoint.peers, id)
      ensures i < |endpoint.peers| && endpoint.peers[i] == sockets[id]
    {
      i :| 0 <= i < |endpoint.peers| && endpoint.peers[i].id == id;
    }

    /** Every attached socket's inbox grows by what it gets of the message, and no other does. */
    method Deliver(m: Message)
      requires AllApart() && Lists(endpoint.peers, sockets) && endpoint.PeersValid()
      modifies set p | p in endpoint.peers :: p.inbox
      ensures forall id :: 0 <= id < |sockets| ==>
                if Attached(endpoint.peers, id)
                then Grew(sockets[id], old(sockets[id].inbox.items), sockets[id].subs.exact, m)
                else sockets[id].inbox.items == old(sockets[id].inbox.items)
    {
      hide SubscriptionState.Valid, Accepting, HaveCopies, Grew, Attached, OwnInbox;
      forall i | 0 <= i < |endpoint.peers| ensures OwnInbox(endpoint.peers, i) {
        ListedApart(i);
      }
      forall id | 0 <= id < |sockets| && !Attached(endpoint.peers, id)
        ensures forall p :: p in endpoint.peers ==> p.inbox != sockets[id].inbox
      {
        Elsewhere(id);
      }
      var sent := endpoint.SendOwnedToMatchingPeers(m);
      forall id | 0 <= id < |sockets| && Attached(endpoint.peers, id)
        ensures Grew(sockets[id], old(sockets[id].inbox.items), sockets[id].subs.exact, m)
      {
        var i := IndexOf(id);
      }
    }

    lemma AmongSockets()
      requires Lists(endpoint.peers, sockets)
      ensures forall p :: p in endpoint.peers ==> p in sockets
    {
    }

    /** `send` of the PUB. */
    method Send(m: Message, ghost moves: seq<Move>)
      requires Carries(moves)
      modifies set q | q in sockets :: q.inbox
      ensures Carries(moves + [Publish(m)])
    {
      hide SubscriptionState.Valid, RowOf, Grew, Apart, Lists, Known, Published, Attached;
      ghost var w := moves + [Publish(m)];
      forall id: nat
        ensures RowOf(w, id) == Published(RowOf(moves, id), m) && RowOf(w, id).attached == RowOf(moves, id).attached
      {
        RowPublished(moves, m, id);
        PublishKeeps(RowOf(moves, id), m);
      }
      AllValid(moves);
      AmongSockets();
      Deliver(m);
      forall id | 0 <= id < |sockets| ensures Is(sockets[id], id, RowOf(w, id), received[id]) {
        Gets(sockets[id], id, RowOf(moves, id), received[id], m);
      }
    }

    lemma AllValid(moves: seq<Move>)
      requires Carries(moves)
      ensures endpoint.PeersValid()
    {
      hide SubscriptionState.Valid;
    }

    /** The move concerns the row `id` alone and does not attach or detach. */
    lemma RowsKept(moves: seq<Move>, move: Move, id: nat)
      requires !move.Publish? && move.id == id
      ensures forall k: nat :: k != id ==> RowOf(moves + [move], k) == RowOf(moves, k)
      ensures RowOf(moves + [move], id) == Next(RowOf(moves, id), id, move)
    {
      hide RowOf;
      forall k: nat ensures RowOf(moves + [move], k) == Next(RowOf(moves, k), k, move) {
        RowExtend(moves, move, k);
      }
    }

    lemma Ledger(moves: seq<Move>)
      requires Carries(moves)
      ensures |received| == |sockets|
      ensures forall id :: 0 <= id < |sockets| ==> received[id] + sockets[id].inbox.items == RowOf(moves, id).owed
      ensures forall id :: 0 <= id < |sockets| ==> |received[id]| == RowOf(moves, id).taken
    {
      hide SubscriptionState.Valid, RowOf;
      forall id | 0 <= id < |sockets|
        ensures received[id] + sockets[id].inbox.items == RowOf(moves, id).owed
        ensures |received[id]| == RowOf(moves, id).taken
      {
        SplitConcat(RowOf(moves, id).owed, RowOf(moves, id).taken);
      }
    }

    /** `recv` of the SUB `id`. */
    method Receive(id: nat, ghost moves: seq<Move>) returns (r: Option<Message>)
      requires id < |sockets| && Carries(moves)
      modifies this`received, sockets[id].inbox
      ensures Carries(moves + [Take(id)])
      ensures var row := RowOf(moves, id); r == if row.taken < |row.owed| then Some(row.owed[row.taken]) else None
    {
      hide SubscriptionState.Valid, RunOps, RowOf, Wired;
      RowsKept(moves, Take(id), id);
      WiredKept(id, Take(id), moves);
      var inbox := sockets[id].inbox;
      if inbox.items == [] {
        return None;
      }
      r := Some(inbox.items[0]);
      received := received[id := received[id] + [inbox.items[0]]];
      inbox.items := inbox.items[1..];
    }

    /** `connect` of the SUB `id`, unless it is connected. */
    method Attach(id: nat, ghost moves: seq<Move>)
      requires id < |sockets| && Carries(moves)
      modifies endpoint`peers, endpoint`peerTopics, endpoint`lastPeer, endpoint`pending, endpoint.binderInbox
      modifies sockets[id].inbox
      ensures Carries(moves + [Connect(id)])
    {
      hide SubscriptionState.Valid, RowOf, Lists, Attached;
      RowsKept(moves, Connect(id), id);
      AttachedById(id);
      if endpoint.PeerById(id).None? {
        ListsMore(sockets[id], endpoint.peers, sockets);
        forall k: nat ensures Attached(endpoint.peers + [sockets[id]], k) <==> Attached(endpoint.peers, k) || k == id {
          AttachedMore(sockets[id], endpoint.peers, k);
        }
        assert Is(sockets[id], id, RowOf(moves, id), received[id]);
        var r := endpoint.AddPeer(sockets[id]);
        ConcatEmpty(old(sockets[id].inbox.items));
      }
    }

    lemma AttachedById(id: nat)
      ensures endpoint.PeerById(id).None? <==> !Attached(endpoint.peers, id)
    {
    }

    /** `disconnect` of the SUB `id`. */
    method Detach(id: nat, ghost moves: seq<Move>)
      requires id < |sockets| && Carries(moves)
      modifies endpoint`peers, endpoint`peerTopics, endpoint`manualTopics, endpoint`lastPeer, endpoint`pending
      modifies endpoint.binderInbox
      ensures Carries(moves + [Disconnect(id)])
    {
      hide SubscriptionState.Valid, RowOf, Lists, Attached, FirstWithId;
      RowsKept(moves, Disconnect(id), id);
      OthersList(endpoint.peers, sockets, id);
      var removed := endpoint.RemovePeer(id);
    }

    /** The endpoint is told of a subscription change; a PUB's does nothing with it. */
    method Replay(id: nat, prefix: Bytes, on: bool, duplicate: bool, ghost moves: seq<Move>)
      requires Carries(moves)
      modifies endpoint`peerTopics, endpoint`lastPeer, endpoint`pending, endpoint.binderInbox
      ensures Carries(moves)
    {
      hide RowOf, Lists, Attached, Known, Apart;
      if on {
        endpoint.ReplaySubscription(id, prefix, duplicate);
      } else {
        endpoint.ReplayUnsubscription(id, prefix, false);
      }
    }

    lemma SocketAt(id: nat, moves: seq<Move>)
      requires id < |sockets| && Carries(moves)
      ensures Is(sockets[id], sockets[id].id, RowOf(moves, id), received[id]) && sockets[id].id == id
    {
    }

    lemma WiredKept(id: nat, step: Move, moves: seq<Move>)
      requires (step.SubscribeTo? || step.UnsubscribeFrom? || step.Take?) && step.id == id && Wired(moves)
      ensures Wired(moves + [step])
    {
      hide RowOf, Lists, Attached;
      RowsKept(moves, step, id);
    }

    /** One change of the index of the SUB `id`. */
    method Change(id: nat, step: Move, ghost moves: seq<Move>) returns (changed: bool)
      requires id < |sockets| && Carries(moves) && (step.SubscribeTo? || step.UnsubscribeFrom?) && step.id == id
      modifies sockets[id].subs, sockets[id].subs.firstBytes
      ensures Carries(moves + [step]) && TablesKept(sockets)
    {
      hide RowOf, RunOps, Wired, Known, SubscriptionState.Valid;
      RowsKept(moves, step, id);
      SocketAt(id, moves);
      WiredKept(id, step, moves);
      changed := ChangeIndex(sockets[id], step.prefix, step.SubscribeTo?, RowOf(moves, id), received[id]);
    }

    /** `subscribe` of the SUB `id`. */
    method Subscribe(id: nat, prefix: Bytes, ghost moves: seq<Move>)
      requires id < |sockets| && Carries(moves)
      modifies sockets[id].subs, sockets[id].subs.firstBytes
      modifies endpoint`peerTopics, endpoint`lastPeer, endpoint`pending, endpoint.binderInbox
      ensures Carries(moves + [SubscribeTo(id, prefix)]) && TablesKept(sockets)
    {
      hide Carries;
      var added := Change(id, SubscribeTo(id, prefix), moves);
      if endpoint.PeerById(id).Some? {
        Replay(id, prefix, true, !added, moves + [SubscribeTo(id, prefix)]);
      }
    }

    /** `unsubscribe` of the SUB `id`. */
    method Unsubscribe(id: nat, prefix: Bytes, ghost moves: seq<Move>)
      requires id < |sockets| && Carries(moves)
      modifies sockets[id].subs, sockets[id].subs.firstBytes
      modifies endpoint`peerTopics, endpoint`lastPeer, endpoint`pending, endpoint.binderInbox
      ensures Carries(moves + [UnsubscribeFrom(id, prefix)]) && TablesKept(sockets)
    {
      hide Carries;
      var removed := Change(id, UnsubscribeFrom(id, prefix), moves);
      if removed && endpoint.PeerById(id).Some? {
        Replay(id, prefix, false, false, moves + [UnsubscribeFrom(id, prefix)]);
      }
    }
  }

  lemma OneMoreMove(moves: seq<Move>, i: nat)
    requires i < |moves|
    ensures moves[..i + 1] == moves[..i] + [moves[i]]
  {
  }

  /** Real endpoint, indexes and inboxes carry out any run over `n` SUB sockets: what each has received and
      what is queued for it are together the messages published while it was attached and subscribed, in
      order and once each. */
  method Execute(n: nat, moves: seq<Move>) returns (s: PubSystem)
    requires forall i :: 0 <= i < |moves| && !moves[i].Publish? ==> moves[i].id < n
    ensures |s.sockets| == n == |s.received|
    ensures forall id :: 0 <= id < n ==> s.received[id] + s.sockets[id].inbox.items == RowOf(moves, id).owed
    ensures forall id :: 0 <= id < n ==> |s.received[id]| == RowOf(moves, id).taken
  {
    hide PubSystem.Carries, RowOf;
    s := new PubSystem(n);
    assert moves[..0] == [];
    var i := 0;
    while i < |moves|
      invariant 0 <= i <= |moves| && fresh(s) && |s.sockets| == n
      invariant fresh(s.endpoint) && fresh(s.endpoint.binderInbox) && NewSockets(s.sockets)
      invariant s.Carries(moves[..i])
    {
      OneMoreMove(moves, i);
      match moves[i] {
        case Publish(m) => s.Send(m, moves[..i]);
        case Take(id) => var r := s.Receive(id, moves[..i]);
        case Connect(id) => s.Attach(id, moves[..i]);
        case Disconnect(id) => s.Detach(id, moves[..i]);
        case SubscribeTo(id, p) => s.Subscribe(id, p, moves[..i]);
        case UnsubscribeFrom(id, p) => s.Unsubscribe(id, p, moves[..i]);
      }
      i := i + 1;
    }
    assert moves[..i] == moves;
    s.Ledger(moves);
  }
}
