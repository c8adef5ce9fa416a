/** The load balancing of module LoadBalance carried out by a real endpoint and real queues: successive
    `next_peer` calls, and whole runs of attach, detach, send and receive. */
module BalancedSystem {
  import opened Common
  import opened Endpoint
  import opened LoadBalance
  import opened Sockets
  import ST = SocketTypes
  import Hubs = XpubHub
  import Subscriptions

  // Turns.

  ghost predicate OwnInboxes(peers: seq<InprocPeer>) {
    forall i, j :: 0 <= i < j < |peers| ==> peers[i].inbox != peers[j].inbox
  }

  lemma NextTurn(c: nat, i: nat)
    ensures ((c + i) % U64_LIMIT + 1) % U64_LIMIT == (c + i + 1) % U64_LIMIT
  {
    var q, r := (c + i) / U64_LIMIT, (c + i) % U64_LIMIT;
    if r + 1 == U64_LIMIT {
      ModOf(c + i + 1, q + 1, 0, U64_LIMIT);
    } else {
      ModOf(c + i + 1, q, r + 1, U64_LIMIT);
    }
  }

  /** `k` calls of `next_peer`: each peer is picked as often as `Picks` counts, so, unless the counter
      wraps, `k / n` times rounded down or up. */
  method TakeTurns(e: InprocEndpoint, k: nat) returns (picked: seq<MessageQueue>)
    requires e.nextPeer < U64_LIMIT && e.peers != [] && OwnInboxes(e.peers)
    modifies e`nextPeer
    ensures |picked| == k && e.nextPeer == (old(e.nextPeer) + k) % U64_LIMIT
    ensures forall j :: 0 <= j < |e.peers| ==>
                          multiset(picked)[e.peers[j].inbox] == Picks(old(e.nextPeer), k, |e.peers|, j)
    ensures forall j :: 0 <= j < |e.peers| && old(e.nextPeer) + k <= U64_LIMIT ==>
                          var n := |e.peers|;
                          k / n <= multiset(picked)[e.peers[j].inbox] <= k / n + if k % n == 0 then 0 else 1
  {
    var c, n := e.nextPeer, |e.peers|;
    picked := [];
    ModOf(c, 0, c, U64_LIMIT);
    var i := 0;
    while i < k
      invariant 0 <= i <= k && |picked| == i && e.nextPeer == (c + i) % U64_LIMIT
      invariant forall j :: 0 <= j < n ==> multiset(picked)[e.peers[j].inbox] == Picks(c, i, n, j)
    {
      ghost var turn, before := (c + i) % U64_LIMIT % n, picked;
      var q := e.NextPeer();
      NextTurn(c, i);
      picked := picked + [q.value];
      forall j | 0 <= j < n ensures multiset(picked)[e.peers[j].inbox] == Picks(c, i + 1, n, j) {
        assert q.value == e.peers[j].inbox <==> turn == j;
        assert multiset(picked) == multiset(before) + multiset{q.value};
      }
      i := i + 1;
    }
    hide Picks;
    forall j | 0 <= j < n && c + k <= U64_LIMIT
      ensures k / n <= multiset(picked)[e.peers[j].inbox] <= k / n + if k % n == 0 then 0 else 1
    {
      RoundRobinFair(c, k, n, j);
    }
  }

  // Runs.

  predicate Balances(t: ST.SocketType) {
    t == ST.Push || t == ST.Scatter || t == ST.Pair || t == ST.Channel
  }

  /** The type of socket that can connect. */
  function Counterpart(t: ST.SocketType): ST.SocketType {
    if t == ST.Push then ST.Pull else if t == ST.Scatter then ST.Gather else t
  }

  ghost predicate PeersWired(ids: seq<nat>, queues: map<nat, MessageQueue>, peers: seq<InprocPeer>) {
    && |peers| == |ids|
    && forall i :: 0 <= i < |ids| ==> peers[i].id == ids[i] && ids[i] in queues && peers[i].inbox == queues[ids[i]]
  }

  ghost predicate Apart(queues: map<nat, MessageQueue>) {
    forall a, b :: a in queues && b in queues && a != b ==> queues[a] != queues[b]
  }

  lemma {:induction false} WiredWithout(ids: seq<nat>, queues: map<nat, MessageQueue>, peers: seq<InprocPeer>, id: nat)
    requires PeersWired(ids, queues, peers)
    ensures PeersWired(Without(ids, id), queues, Others(peers, id))
  {
    if ids != [] {
      assert PeersWired(ids[1..], queues, peers[1..]);
      WiredWithout(ids[1..], queues, peers[1..], id);
    }
  }

  lemma WiredOneMore(ids: seq<nat>, queues: map<nat, MessageQueue>, peers: seq<InprocPeer>, peer: InprocPeer)
    requires PeersWired(ids, queues, peers)
    requires peer.id in queues ==> queues[peer.id] == peer.inbox
    ensures PeersWired(ids + [peer.id], queues[peer.id := peer.inbox], peers + [peer])
  {
  }

  /** A send, seen from the queues. */
  lemma SendEffect(f: Fan<Message>, frame: Message, fast: bool)
    ensures var (f', r) := DoSend(f, frame, fast);
            var full := Target(f).Some? && !fast && f.sndhwm > 0 && |At(f.inboxes, Target(f).value)| >= f.sndhwm;
            && r == (if Target(f).None? || full then Err(Again) else Ok(()))
            && f'.peers == f.peers && f'.roundRobin == f.roundRobin && f'.sndhwm == f.sndhwm
            && f'.counter == (if f.roundRobin && Target(f).Some? then Advanced(f.counter) else f.counter)
            && forall id: nat :: At(f'.inboxes, id) ==
                            At(f.inboxes, id) + if r.Ok? && Target(f) == Some(id) then [frame] else []
  {
  }

  class System {
    const socket: BalancedSocket
    const endpoint: InprocEndpoint
    var queues: map<nat, MessageQueue>
    ghost var fan: Fan<Message>

    ghost predicate Wired(f: Fan<Message>, qs: map<nat, MessageQueue>, peers: seq<InprocPeer>) {
      && Balances(socket.socketType) && endpoint.binderType == socket.socketType && socket.endpoint == endpoint
      && f.roundRobin == socket.RoundRobin() && f.sndhwm == socket.sndhwm && f.counter < U64_LIMIT
      && PeersWired(f.peers, qs, peers) && Apart(qs)
      && forall id :: id in qs ==> qs[id] != endpoint.binderInbox
    }

    /** The queues hold what the fan says. */
    ghost predicate Holds(f: Fan<Message>)
      reads this`queues, set id | id in queues :: queues[id]
    {
      forall id :: if id in queues then queues[id].items == At(f.inboxes, id) else At(f.inboxes, id) == []
    }

    ghost predicate Valid()
      reads this, endpoint, set id | id in queues :: queues[id]
    {
      Wired(fan, queues, endpoint.peers) && endpoint.nextPeer == fan.counter && Holds(fan)
    }

    constructor (socketType: ST.SocketType, sndhwm: nat)
      requires Balances(socketType)
      ensures Valid() && socket.socketType == socketType && fan == Init(socket.RoundRobin(), sndhwm)
      ensures queues == map[] && fresh(socket) && fresh(endpoint) && fresh(endpoint.binderInbox)
    {
      var inbox := new MessageQueue();
      var e := new InprocEndpoint(socketType, inbox, None, Hubs.Policy(false, false, false, false));
      var s := new BalancedSocket(socketType, e, sndhwm);
      endpoint, socket := e, s;
      queues, fan := map[], Init(s.RoundRobin(), sndhwm);
    }

    /** Attaches a socket with this inbox to the endpoint. */
    method Link(id: nat, inbox: MessageQueue) returns (peer: InprocPeer)
      requires Balances(socket.socketType) && endpoint.binderType == socket.socketType
      requires endpoint.nextPeer < U64_LIMIT && inbox != endpoint.binderInbox
      modifies endpoint`peers, endpoint`peerTopics, endpoint`lastPeer, endpoint`pending, endpoint.binderInbox, inbox
      ensures peer.id == id && peer.inbox == inbox && endpoint.peers == old(endpoint.peers) + [peer]
      ensures inbox.items == old(inbox.items)
    {
      var subs := new Subscriptions.SubscriptionState();
      peer := InprocPeer(id, inbox, Counterpart(socket.socketType), subs);
      var added := endpoint.AddPeer(peer);
    }

    lemma OneMoreQueue(f: Fan<Message>, qs: map<nat, MessageQueue>, peers: seq<InprocPeer>, id: nat, q: MessageQueue)
      requires Wired(f, qs, peers) && id !in qs && q != endpoint.binderInbox
      requires forall k :: k in qs ==> qs[k] != q
      ensures Wired(f, qs[id := q], peers)
    {
    }

    /** A socket with an empty inbox comes into being. */
    method Open(id: nat)
      requires Valid() && id !in queues
      modifies this`queues
      ensures Valid() && id in queues && fresh(queues[id]) && queues == old(queues)[id := queues[id]]
    {
      var inbox := new MessageQueue();
      OneMoreQueue(fan, queues, endpoint.peers, id, inbox);
      hide Wired;
      queues := queues[id := inbox];
    }

    /** A compatible socket connects, perhaps once more. */
    method Attach(id: nat)
      requires Valid() && id in queues
      modifies this`fan, endpoint`peers, endpoint`peerTopics, endpoint`lastPeer, endpoint`pending
      modifies endpoint.binderInbox, queues[id]
      ensures Valid() && fan == Apply(old(fan), Step<Message>.Attach(id))
    {
      var peer := Link(id, queues[id]);
      WiredOneMore(fan.peers, queues, old(endpoint.peers), peer);
      assert queues[id := queues[id]] == queues;
      hide PeersWired;
      fan := fan.(peers := fan.peers + [id]);
    }

    /** A socket disconnects; what is queued for it stays. */
    method Detach(id: nat)
      requires Valid()
      modifies this`fan, endpoint`peers, endpoint`peerTopics, endpoint`manualTopics, endpoint`lastPeer, endpoint`pending
      modifies endpoint.binderInbox
      ensures Valid() && fan == Apply(old(fan), Step<Message>.Detach(id))
    {
      WiredWithout(fan.peers, queues, endpoint.peers, id);
      hide PeersWired;
      var removed := endpoint.RemovePeer(id);
      fan := fan.(peers := Without(fan.peers, id));
    }

    lemma ChosenQueue()
      requires Wired(fan, queues, endpoint.peers) && endpoint.nextPeer == fan.counter
      ensures socket.endpoint == endpoint && Balances(socket.socketType) && Apart(queues)
      ensures fan.roundRobin == socket.RoundRobin() && fan.sndhwm == socket.sndhwm && fan.counter < U64_LIMIT
      ensures endpoint.peers == [] <==> Target(fan).None?
      ensures Target(fan).Some? ==> Target(fan).value in queues
      ensures socket.Target() == if Target(fan).None? then None else Some(queues[Target(fan).value])
    {
    }

    /** Only the chosen queue has grown. */
    lemma HoldsAfterSend(frame: Message, fast: bool)
      requires forall id :: id !in queues ==> At(fan.inboxes, id) == []
      requires Target(fan).Some? ==> Target(fan).value in queues
      requires forall id :: id in queues ==>
                              queues[id].items == At(fan.inboxes, id) +
                                                  if DoSend(fan, frame, fast).1.Ok? && Target(fan) == Some(id)
                                                  then [frame] else []
      ensures Holds(DoSend(fan, frame, fast).0)
    {
      hide DoSend, Target;
      SendEffect(fan, frame, fast);
    }

    /** The socket will do what the specification says. */
    lemma ReadyToSend(frame: Message, fast: bool)
      requires Valid() && (socket.socketType == ST.Scatter ==> !fast) && socket.fastEnabled == fast
      ensures socket.Refuses() <==> DoSend(fan, frame, fast).1.Err?
      ensures Target(fan).Some? ==> socket.Backlog() == At(fan.inboxes, Target(fan).value)
    {
      hide PeersWired, Target, Wired;
      ChosenQueue();
    }

    /** The send itself: queues and counter end as the specification says. */
    method Deliver(frame: Message, fast: bool) returns (r: Result<()>)
      requires Valid() && (socket.socketType == ST.Scatter ==> !fast)
      modifies socket, endpoint`nextPeer, set id | id in queues :: queues[id]
      ensures r == DoSend(fan, frame, fast).1 && endpoint.nextPeer == DoSend(fan, frame, fast).0.counter
      ensures forall id :: id in queues ==>
                             queues[id].items == At(fan.inboxes, id) +
                                                 if r.Ok? && Target(fan) == Some(id) then [frame] else []
    {
      hide PeersWired, Target, DoSend, Wired, Advanced, At, BalancedSocket.Target, BalancedSocket.Backlog,
        BalancedSocket.Refuses;
      ChosenQueue();
      SendEffect(fan, frame, fast);
      socket.fastEnabled := fast;
      ReadyToSend(frame, fast);
      var sent := socket.Send(frame);
      r := if sent.Ok? then Ok(()) else Err(sent.error);
    }

    /** `send`; `fast` says whether the fast path is taken, which SCATTER never does. */
    method Send(frame: Message, fast: bool) returns (r: Result<()>)
      requires Valid() && (socket.socketType == ST.Scatter ==> !fast)
      modifies this`fan, socket, endpoint`nextPeer, set id | id in queues :: queues[id]
      ensures Valid() && (fan, r) == DoSend(old(fan), frame, fast)
    {
      hide DoSend, PeersWired, Apart, At;
      ghost var f := fan;
      ChosenQueue();
      SendEffect(f, frame, fast);
      hide Target;
      r := Deliver(frame, fast);
      HoldsAfterSend(frame, fast);
      hide Holds;
      fan := DoSend(f, frame, fast).0;
    }

    /** The socket `id` takes its next message. */
    method Receive(id: nat) returns (r: Option<Message>)
      requires Valid()
      modifies this`fan, if id in queues then {queues[id]} else {}
      ensures Valid() && fan == Apply(old(fan), Step<Message>.Receive(id))
      ensures r == if At(old(fan).inboxes, id) == [] then None else Some(At(old(fan).inboxes, id)[0])
    {
      ghost var f := fan;
      fan := Apply(f, Step<Message>.Receive(id));
      if id !in queues || queues[id].items == [] {
        return None;
      }
      r := Some(queues[id].items[0]);
      queues[id].items := queues[id].items[1..];
    }
  }

  /** One send, receive or disconnect on the real sockets. */
  method Perform(s: System, step: Step<Message>)
    requires s.Valid() && !step.Attach? && (s.socket.socketType == ST.Scatter && step.Send? ==> !step.fast)
    modifies s`fan, s.socket, s.endpoint, s.endpoint.binderInbox, set id | id in s.queues :: s.queues[id]
    ensures s.Valid() && s.fan == Apply(old(s.fan), step)
  {
    hide System.Valid, DoSend;
    match step {
      case Detach(id) => s.Detach(id);
      case Send(frame, fast) => var r := s.Send(frame, fast);
      case Receive(id) => var r := s.Receive(id);
    }
  }

  /** A bound sender with real queues carries out any run exactly as the specification does, so in it the
      messages sent to each peer are those received followed by those queued, in order. */
  method Execute(socketType: ST.SocketType, sndhwm: nat, steps: seq<Step<Message>>) returns (s: System)
    requires Balances(socketType)
    requires socketType == ST.Scatter ==> forall i :: 0 <= i < |steps| && steps[i].Send? ==> !steps[i].fast
    ensures fresh(s) && s.Valid() && s.socket.socketType == socketType
    ensures s.fan == Run(socketType == ST.Push || socketType == ST.Scatter, sndhwm, steps) && Conserved(s.fan)
  {
    hide Run, System.Valid, Conserved;
    s := new System(socketType, sndhwm);
    RunFrom<Message>(s.socket.RoundRobin(), sndhwm, steps);
    var i := 0;
    while i < |steps|
      invariant 0 <= i <= |steps| && s.Valid() && s.socket.socketType == socketType
      invariant fresh(s) && fresh(s.socket) && fresh(s.endpoint) && fresh(s.endpoint.binderInbox)
      invariant forall id :: id in s.queues ==> fresh(s.queues[id])
      invariant s.fan == Run(s.socket.RoundRobin(), sndhwm, steps[..i])
    {
      if steps[i].Attach? {
        if steps[i].id !in s.queues {
          s.Open(steps[i].id);
        }
        s.Attach(steps[i].id);
      } else {
        Perform(s, steps[i]);
      }
      RunStep(s.socket.RoundRobin(), sndhwm, steps, i);
      i := i + 1;
    }
    assert steps[..i] == steps;
    RunConserves(s.socket.RoundRobin(), sndhwm, steps);
  }

  lemma RunFrom<T>(roundRobin: bool, sndhwm: nat, steps: seq<Step<T>>)
    ensures Run(roundRobin, sndhwm, steps[..0]) == Init(roundRobin, sndhwm)
  {
  }

  lemma RunStep<T>(roundRobin: bool, sndhwm: nat, steps: seq<Step<T>>, i: nat)
    requires i < |steps|
    ensures Run(roundRobin, sndhwm, steps[..i + 1]) == Apply(Run(roundRobin, sndhwm, steps[..i]), steps[i])
  {
    assert steps[..i + 1][..i] == steps[..i];
  }
}
