/** `InprocEndpoint` of context.rs: the mutable endpoint behind a bound in-process name. Its table and
    notifications are those of module XpubHub; it also fans messages out to its peers. */
module Endpoint {
  import opened Common
  import opened SocketTypes
  import opened Subscriptions
  import opened XpubHub

  datatype Message = Message(data: Bytes, more: bool, routingId: nat, group: Option<Bytes>)

  class MessageQueue {
    var items: seq<Message>

    constructor ()
      ensures items == []
    {
      items := [];
    }
  }

  datatype InprocPeer = InprocPeer(id: nat, inbox: MessageQueue, socketType: SocketType, subs: SubscriptionState)

  /** The queued message that stands for an item of the XPUB inbox. */
  function Wire(item: Item): Message {
    match item
    case Change(on, topic) => Message([if on then 1 else 0] + topic, false, 0, None)
    case Data(bytes, more) => Message(bytes, more, 0, None)
  }

  function WireAll(items: seq<Item>): (r: seq<Message>)
    ensures |r| == |items|
  {
    seq(|items|, i requires 0 <= i < |items| => Wire(items[i]))
  }

  /** `socket_type_accepts_message`, read as the naive prefix match. */
  ghost predicate Accepts(socketType: SocketType, refs: map<Bytes, nat>, m: Message) {
    match socketType
    case Sub => Matches(refs, m.data)
    case Xsub => Matches(refs, m.data)
    case Dish => m.group.Some? && m.group.value in refs
    case _ => true
  }

  /** One of the first parts of the data, the empty and the whole one included, is a stored prefix. */
  ghost predicate StartsWithStored(refs: map<Bytes, nat>, data: Bytes) {
    exists n :: 0 <= n <= |data| && data[..n] in refs
  }

  /** A SUB or XSUB takes what starts with a stored prefix, a DISH what is for a stored group, and every
      other type everything. */
  lemma AcceptsMeaning(socketType: SocketType, refs: map<Bytes, nat>, m: Message)
    ensures socketType == Sub || socketType == Xsub ==>
              (Accepts(socketType, refs, m) <==> StartsWithStored(refs, m.data))
    ensures socketType == Dish ==>
              (Accepts(socketType, refs, m) <==> exists group :: group in refs && m.group == Some(group))
    ensures socketType != Sub && socketType != Xsub && socketType != Dish ==> Accepts(socketType, refs, m)
  {
    if Matches(refs, m.data) {
      var p :| p in refs && p <= m.data;
      assert m.data[..|p|] == p;
    }
    if StartsWithStored(refs, m.data) {
      var n :| 0 <= n <= |m.data| && m.data[..n] in refs;
      assert m.data[..n] <= m.data;
    }
  }

  method AcceptsMessage(peer: InprocPeer, m: Message) returns (r: bool)
    requires peer.subs.Valid()
    ensures r <==> Accepts(peer.socketType, peer.subs.exact, m)
    ensures peer.socketType == Sub || peer.socketType == Xsub ==> (r <==> StartsWithStored(peer.subs.exact, m.data))
    ensures peer.socketType == Dish ==> (r <==> exists group :: group in peer.subs.exact && m.group == Some(group))
    ensures peer.socketType != Sub && peer.socketType != Xsub && peer.socketType != Dish ==> r
  {
    AcceptsMeaning(peer.socketType, peer.subs.exact, m);
    match peer.socketType {
      case Sub => r := peer.subs.MatchesPrefixOf(m.data);
      case Xsub => r := peer.subs.MatchesPrefixOf(m.data);
      case Dish => r := m.group.Some? && m.group.value in peer.subs.exact;
      case _ => r := true;
    }
  }

  /** The subscriptions of the peers at this moment. */
  ghost function Snapshot(peers: seq<InprocPeer>): (r: seq<map<Bytes, nat>>)
    reads set p | p in peers :: p.subs
    ensures |r| == |peers| && forall i :: 0 <= i < |peers| ==> r[i] == peers[i].subs.exact
  {
    if peers == [] then [] else Snapshot(peers[..|peers| - 1]) + [peers[|peers| - 1].subs.exact]
  }

  /** The peers a message goes to, in attach order. */
  ghost function Accepting(peers: seq<InprocPeer>, refs: seq<map<Bytes, nat>>, m: Message): seq<InprocPeer>
    requires |refs| == |peers|
  {
    if peers == [] then []
    else
      var n := |peers| - 1;
      Accepting(peers[..n], refs[..n], m) + if Accepts(peers[n].socketType, refs[n], m) then [peers[n]] else []
  }

  /** How many of `selected` use this inbox; a socket connected twice is listed twice. */
  ghost function Times(selected: seq<InprocPeer>, inbox: MessageQueue): nat {
    if selected == [] then 0
    else Times(selected[..|selected| - 1], inbox) + if selected[|selected| - 1].inbox == inbox then 1 else 0
  }

  ghost function Copies(m: Message, n: nat): seq<Message> {
    seq(n, _ => m)
  }

  /** The ids that manual mode sends a message to, without last-value mode. */
  ghost function ManualMatches(topics: Topics, data: Bytes): set<nat> {
    set t, id | t in topics && t <= data && id in topics[t] :: id
  }

  /** `manual_matching_peer_ids`; last-value mode considers only the last peer, once. */
  ghost function ManualSelection(h: Hub, data: Bytes): set<nat> {
    if h.policy.manualLastValue && h.lastPeer.Some?
    then ManualMatches(h.manualTopics, data) * {h.lastPeer.value}
    else ManualMatches(h.manualTopics, data)
  }

  ghost function WithIds(peers: seq<InprocPeer>, ids: set<nat>): seq<InprocPeer> {
    if peers == [] then []
    else
      var last := peers[|peers| - 1];
      WithIds(peers[..|peers| - 1], ids) + if last.id in ids then [last] else []
  }

  function Inboxes(peers: seq<InprocPeer>): (r: seq<MessageQueue>)
    ensures |r| == |peers|
  {
    seq(|peers|, i requires 0 <= i < |peers| => peers[i].inbox)
  }

  function FirstWithId(peers: seq<InprocPeer>, id: nat): Option<InprocPeer> {
    if peers == [] then None
    else if peers[0].id == id then Some(peers[0])
    else FirstWithId(peers[1..], id)
  }

  ghost predicate FirstAt(peers: seq<InprocPeer>, id: nat, i: nat)
    requires i < |peers|
  {
    peers[i].id == id && forall j :: 0 <= j < i ==> peers[j].id != id
  }

  lemma {:induction false} FirstIsFirst(peers: seq<InprocPeer>, id: nat)
    ensures FirstWithId(peers, id).None? <==> forall i :: 0 <= i < |peers| ==> peers[i].id != id
    ensures FirstWithId(peers, id).Some? ==>
              exists i :: 0 <= i < |peers| && FirstAt(peers, id, i) && FirstWithId(peers, id).value == peers[i]
  {
    if peers != [] {
      if peers[0].id == id {
        assert FirstAt(peers, id, 0);
      } else {
        FirstIsFirst(peers[1..], id);
        if FirstWithId(peers, id).Some? {
          var i :| 0 <= i < |peers| - 1 && FirstAt(peers[1..], id, i) && FirstWithId(peers, id).value == peers[1..][i];
          assert forall j :: 0 < j <= i ==> peers[j] == peers[1..][j - 1];
          assert FirstAt(peers, id, i + 1);
        }
      }
    }
  }

  function Others(peers: seq<InprocPeer>, id: nat): seq<InprocPeer> {
    if peers == [] then []
    else if peers[0].id == id then Others(peers[1..], id)
    else [peers[0]] + Others(peers[1..], id)
  }

  /** The rest keeps its order: dropping acts on each part of the list by itself. */
  lemma {:induction false} OthersConcat(a: seq<InprocPeer>, b: seq<InprocPeer>, id: nat)
    ensures Others(a + b, id) == Others(a, id) + Others(b, id)
    ensures (forall i :: 0 <= i < |a| ==> a[i].id != id) ==> Others(a, id) == a
    ensures (forall i :: 0 <= i < |a| ==> a[i].id == id) ==> Others(a, id) == []
  {
    if a == [] {
      ConcatEmpty(b);
    } else {
      OthersConcat(a[1..], b, id);
      assert (a + b)[1..] == a[1..] + b;
      assert a == [a[0]] + a[1..];
    }
  }

  lemma {:induction false} OthersShorter(peers: seq<InprocPeer>, id: nat)
    ensures |Others(peers, id)| <= |peers|
    ensures |Others(peers, id)| != |peers| <==> FirstWithId(peers, id).Some?
  {
    if peers != [] { OthersShorter(peers[1..], id); }
  }

  /** The topic matches the data and lists the id (in last-value mode, the last peer). */
  ghost predicate Selects(topics: Topics, t: Bytes, data: Bytes, last: Option<nat>, id: nat)
    requires t in topics
  {
    t <= data && id in topics[t] && (last.Some? ==> id == last.value)
  }

  lemma SelectionMeaning(h: Hub, data: Bytes, last: Option<nat>, ids: set<nat>)
    requires last == if h.policy.manualLastValue then h.lastPeer else None
    requires forall id :: id in ids <==>
                            exists t :: t in h.manualTopics && Selects(h.manualTopics, t, data, last, id)
    ensures ids == ManualSelection(h, data)
  {
    forall id ensures id in ids <==> id in ManualSelection(h, data) {
    }
  }

  lemma SinglePeer(peer: InprocPeer, refs: map<Bytes, nat>, m: Message)
    ensures var accepts := Accepts(peer.socketType, refs, m);
            && Accepting([peer], [refs], m) == (if accepts then [peer] else [])
            && Copies(m, Times(Accepting([peer], [refs], m), peer.inbox)) == (if accepts then [m] else [])
  {
    assert Accepting([peer][..0], [refs][..0], m) == [];
    assert Times([peer][..0], peer.inbox) == 0;
  }

  lemma SelectedNone(m: Message, ids: set<nat>)
    ensures Accepting([], [], m) == [] && WithIds([], ids) == [] && Inboxes([]) == []
    ensures forall q: MessageQueue :: Copies(m, Times([], q)) == []
  {
  }

  lemma SelectedStep(peers: seq<InprocPeer>, refs: seq<map<Bytes, nat>>, at: nat, m: Message, ids: set<nat>)
    requires at < |peers| == |refs|
    ensures Accepting(peers[..at + 1], refs[..at + 1], m) ==
            Accepting(peers[..at], refs[..at], m) +
            if Accepts(peers[at].socketType, refs[at], m) then [peers[at]] else []
    ensures WithIds(peers[..at + 1], ids) == WithIds(peers[..at], ids) + if peers[at].id in ids then [peers[at]] else []
  {
    assert peers[..at + 1][..at] == peers[..at] && refs[..at + 1][..at] == refs[..at];
  }

  lemma InboxesOneMore(selected: seq<InprocPeer>, peer: InprocPeer)
    ensures Inboxes(selected + [peer]) == Inboxes(selected) + [peer.inbox]
  {
  }

  lemma CopiesOneMore(before: seq<InprocPeer>, peer: InprocPeer, m: Message, was: seq<Message>)
    ensures (was + Copies(m, Times(before, peer.inbox))) + [m] == was + Copies(m, Times(before + [peer], peer.inbox))
    ensures forall q :: q != peer.inbox ==> Times(before + [peer], q) == Times(before, q)
  {
    ConcatSplit(before, [peer]);
  }

  /** No other entry shares the inbox of entry `i`: the socket is connected once. */
  ghost predicate OwnInbox(peers: seq<InprocPeer>, i: nat)
    requires i < |peers|
  {
    forall j :: 0 <= j < |peers| && j != i ==> peers[j].inbox != peers[i].inbox
  }

  lemma TimesOneMore(selected: seq<InprocPeer>, peer: InprocPeer, inbox: MessageQueue)
    ensures Times(selected + [peer], inbox) == Times(selected, inbox) + if peer.inbox == inbox then 1 else 0
    ensures selected + [] == selected
  {
    ConcatSplit(selected, [peer]);
  }

  lemma {:induction false} NoTimes(peers: seq<InprocPeer>, refs: seq<map<Bytes, nat>>, m: Message, inbox: MessageQueue)
    requires |refs| == |peers| && forall j :: 0 <= j < |peers| ==> peers[j].inbox != inbox
    ensures Times(Accepting(peers, refs, m), inbox) == 0
  {
    hide Accepts;
    if peers != [] {
      var n := |peers| - 1;
      NoTimes(peers[..n], refs[..n], m, inbox);
      TimesOneMore(Accepting(peers[..n], refs[..n], m), peers[n], inbox);
    }
  }

  /** An entry with its own inbox gets the message once if it accepts it, and otherwise not. */
  lemma {:induction false} OwnInboxTimes(peers: seq<InprocPeer>, refs: seq<map<Bytes, nat>>, m: Message, i: nat)
    requires |refs| == |peers| && i < |peers| && OwnInbox(peers, i)
    ensures Times(Accepting(peers, refs, m), peers[i].inbox) ==
            if Accepts(peers[i].socketType, refs[i], m) then 1 else 0
  {
    hide Accepts;
    var n := |peers| - 1;
    if i < n {
      assert OwnInbox(peers[..n], i);
      OwnInboxTimes(peers[..n], refs[..n], m, i);
    } else {
      NoTimes(peers[..n], refs[..n], m, peers[i].inbox);
    }
    TimesOneMore(Accepting(peers[..n], refs[..n], m), peers[n], peers[i].inbox);
  }

  /** What entry `i` of the peers gets of a message: by type and stored prefixes or groups. */
  ghost predicate Receives(socketType: SocketType, refs: map<Bytes, nat>, m: Message, got: seq<Message>) {
    && (socketType == Sub || socketType == Xsub ==> got == if StartsWithStored(refs, m.data) then [m] else [])
    && (socketType == Dish ==> got == if exists group :: group in refs && m.group == Some(group) then [m] else [])
    && (socketType != Sub && socketType != Xsub && socketType != Dish ==> got == [m])
  }

  /** Its inbox has grown by what the entry gets of the message. */
  ghost predicate Grew(peer: InprocPeer, was: seq<Message>, refs: map<Bytes, nat>, m: Message)
    reads peer.inbox
  {
    was <= peer.inbox.items && Receives(peer.socketType, refs, m, peer.inbox.items[|was|..])
  }

  lemma GrewBy(peers: seq<InprocPeer>, i: nat, was: seq<Message>, refs: seq<map<Bytes, nat>>, m: Message)
    requires |refs| == |peers| && i < |peers| && OwnInbox(peers, i)
    requires peers[i].inbox.items == was + Copies(m, Times(Accepting(peers, refs, m), peers[i].inbox))
    ensures Grew(peers[i], was, refs[i], m)
  {
    hide Accepting, Times, Copies, Receives;
    OwnInboxReceives(peers, refs, m, i);
    ConcatSplit(was, Copies(m, Times(Accepting(peers, refs, m), peers[i].inbox)));
  }

  lemma OwnInboxReceives(peers: seq<InprocPeer>, refs: seq<map<Bytes, nat>>, m: Message, i: nat)
    requires |refs| == |peers| && i < |peers| && OwnInbox(peers, i)
    ensures Receives(peers[i].socketType, refs[i], m, Copies(m, Times(Accepting(peers, refs, m), peers[i].inbox)))
  {
    hide Accepting, Times, Accepts;
    OwnInboxTimes(peers, refs, m, i);
    AcceptsMeaning(peers[i].socketType, refs[i], m);
    assert Copies(m, 0) == [] && Copies(m, 1) == [m];
  }

  /** An inbox is listed exactly when one of its entries accepts the message. */
  lemma ListedIff(peers: seq<InprocPeer>, refs: seq<map<Bytes, nat>>, m: Message, i: nat)
    requires |refs| == |peers| && i < |peers| && OwnInbox(peers, i)
    ensures peers[i].inbox in Inboxes(Accepting(peers, refs, m)) <==>
            Receives(peers[i].socketType, refs[i], m, [m])
  {
    hide Accepts, Accepting;
    AcceptsMeaning(peers[i].socketType, refs[i], m);
    var selected := Accepting(peers, refs, m);
    AcceptingMembers(peers, refs, m, peers[i]);
    if Accepts(peers[i].socketType, refs[i], m) {
      var k :| 0 <= k < |selected| && selected[k] == peers[i];
      assert Inboxes(selected)[k] == peers[i].inbox;
    } else if peers[i].inbox in Inboxes(selected) {
      var k :| 0 <= k < |selected| && selected[k].inbox == peers[i].inbox;
      AcceptingMembers(peers, refs, m, selected[k]);
      assert false;
    }
  }

  method DeliverIfAccepted(peer: InprocPeer, m: Message) returns (accepts: bool)
    requires peer.subs.Valid()
    modifies peer.inbox
    ensures accepts <==> Accepts(peer.socketType, old(peer.subs.exact), m)
    ensures peer.inbox.items == if accepts then old(peer.inbox.items) + [m] else old(peer.inbox.items)
  {
    accepts := AcceptsMessage(peer, m);
    if accepts {
      peer.inbox.items := peer.inbox.items + [m];
    }
  }

  /** What the peers' inboxes hold at this moment. */
  ghost function Queued(peers: seq<InprocPeer>): (r: seq<seq<Message>>)
    reads set p | p in peers :: p.inbox
    ensures |r| == |peers| && forall i :: 0 <= i < |peers| ==> r[i] == peers[i].inbox.items
  {
    if peers == [] then [] else Queued(peers[..|peers| - 1]) + [peers[|peers| - 1].inbox.items]
  }

  lemma NoCopies(peers: seq<InprocPeer>, m: Message)
    ensures HaveCopies(peers, Queued(peers), m, [])
  {
    hide Queued;
    assert Copies(m, 0) == [];
    forall i | 0 <= i < |peers| ensures peers[i].inbox.items == Queued(peers)[i] + Copies(m, 0) {
      ConcatEmpty(peers[i].inbox.items);
    }
  }

  /** Every inbox holds what it held and one copy per entry of `selected` that uses it. */
  ghost predicate HaveCopies(peers: seq<InprocPeer>, was: seq<seq<Message>>, m: Message, selected: seq<InprocPeer>)
    reads set p | p in peers :: p.inbox
  {
    && |was| == |peers|
    && forall i :: 0 <= i < |peers| ==> peers[i].inbox.items == was[i] + Copies(m, Times(selected, peers[i].inbox))
  }

  /** One round of the clone loop. */
  method DeliverOne(peers: seq<InprocPeer>, at: nat, m: Message, ghost was: seq<seq<Message>>,
                    ghost selected: seq<InprocPeer>)
    returns (accepts: bool)
    requires at < |peers| && peers[at].subs.Valid() && HaveCopies(peers, was, m, selected)
    modifies peers[at].inbox
    ensures accepts <==> Accepts(peers[at].socketType, old(peers[at].subs.exact), m)
    ensures HaveCopies(peers, was, m, if accepts then selected + [peers[at]] else selected)
  {
    hide Accepts, Times, Copies, SubscriptionState.Valid;
    var peer := peers[at];
    accepts := DeliverIfAccepted(peer, m);
    if accepts {
      forall i | 0 <= i < |peers|
        ensures peers[i].inbox.items == was[i] + Copies(m, Times(selected + [peer], peers[i].inbox))
      {
        CopiesOneMore(selected, peer, m, was[i]);
      }
    }
  }

  class InprocEndpoint {
    const binderType: SocketType
    const binderInbox: MessageQueue
    const welcome: Option<Bytes>
    var policy: Policy
    var peerTopics: Topics
    var manualTopics: Topics
    var lastPeer: Option<nat>
    var peers: seq<InprocPeer>
    var nextPeer: nat
    ghost var pending: seq<Item>

    ghost predicate Valid()
      reads this, binderInbox
    {
      (binderType == Xpub ==> binderInbox.items == WireAll(pending)) && nextPeer < U64_LIMIT
    }

    ghost predicate PeersValid()
      reads this, set p | p in peers :: p.subs, set p | p in peers :: p.subs.firstBytes
    {
      forall p :: p in peers ==> p.subs.Valid()
    }

    ghost function View(): Hub
      reads this
    {
      Hub(policy, peerTopics, manualTopics, lastPeer, [], pending)
    }

    constructor (binderType: SocketType, binderInbox: MessageQueue, welcome: Option<Bytes>, policy: Policy)
      requires binderType == Xpub ==> binderInbox.items == []
      ensures Valid() && peers == [] && nextPeer == 0 && View() == Hub(policy, map[], map[], None, [], [])
      ensures this.binderType == binderType && this.binderInbox == binderInbox && this.welcome == welcome
    {
      this.binderType, this.binderInbox, this.welcome, this.policy := binderType, binderInbox, welcome, policy;
      peerTopics, manualTopics, lastPeer, peers, nextPeer, pending := map[], map[], None, [], 0, [];
    }

    /** `should_replay_subscription`. */
    method ShouldReplaySubscription(peer: nat, topic: Bytes, duplicate: bool) returns (notify: bool)
      requires binderType == Xpub
      modifies this`peerTopics, this`lastPeer
      ensures (View(), notify) == RecordSubscribe(old(View()), peer, topic, duplicate)
    {
      if duplicate {
        notify := policy.verboseSubscribe || policy.manual;
      } else {
        var entry := if topic in peerTopics then peerTopics[topic] else {};
        peerTopics := peerTopics[topic := entry + {peer}];
        notify := |peerTopics[topic]| == 1 || policy.verboseSubscribe || policy.manual;
      }
      if notify {
        lastPeer := Some(peer);
      }
    }

    /** `should_replay_unsubscription`. */
    method ShouldReplayUnsubscription(peer: nat, topic: Bytes, unmatched: bool) returns (notify: bool)
      requires binderType == Xpub
      modifies this`peerTopics, this`lastPeer
      ensures (View(), notify) == RecordUnsubscribe(old(View()), peer, topic, unmatched)
    {
      if unmatched {
        lastPeer := Some(peer);
        return true;
      }
      if topic !in peerTopics {
        return true;
      }
      var entry := peerTopics[topic] - {peer};
      if entry == {} {
        peerTopics := peerTopics - {topic};
        lastPeer := Some(peer);
        return true;
      }
      peerTopics := peerTopics[topic := entry];
      notify := policy.verboseUnsubscribe || policy.manual;
      if notify {
        lastPeer := Some(peer);
      }
    }

    /** `replay_subscription_change`: queues the one-byte command followed by the topic. */
    method ReplayChange(on: bool, topic: Bytes)
      requires Valid() && binderType == Xpub
      modifies this`pending, binderInbox
      ensures Valid() && View() == Enqueue(old(View()), Change(on, topic))
    {
      var frame := [if on then 1 else 0] + topic;
      binderInbox.items := binderInbox.items + [Message(frame, false, 0, None)];
      pending := pending + [Change(on, topic)];
    }

    /** `replay_subscription` and `replay_duplicate_subscription`. */
    method ReplaySubscription(peer: nat, topic: Bytes, duplicate: bool)
      requires Valid()
      modifies this`peerTopics, this`lastPeer, this`pending, binderInbox
      ensures Valid()
      ensures View() == if binderType == Xpub then Subscribe(old(View()), peer, topic, duplicate) else old(View())
      ensures binderType != Xpub ==> binderInbox.items == old(binderInbox.items)
    {
      if binderType != Xpub {
        return;
      }
      var notify := ShouldReplaySubscription(peer, topic, duplicate);
      if notify {
        ReplayChange(true, topic);
      }
    }

    /** `replay_unsubscription`. */
    method ReplayUnsubscription(peer: nat, topic: Bytes, unmatched: bool)
      requires Valid()
      modifies this`peerTopics, this`lastPeer, this`pending, binderInbox
      ensures Valid()
      ensures View() == if binderType == Xpub then Unsubscribe(old(View()), peer, topic, unmatched) else old(View())
      ensures binderType != Xpub ==> binderInbox.items == old(binderInbox.items)
    {
      if binderType != Xpub {
        return;
      }
      var notify := ShouldReplayUnsubscription(peer, topic, unmatched);
      if notify {
        ReplayChange(false, topic);
      }
    }

    /** `replay_xsub_subscriptions`. */
    method ReplayPeer(id: nat, order: seq<Bytes>)
      requires Valid() && binderType == Xpub
      modifies this`peerTopics, this`lastPeer, this`pending, binderInbox
      ensures Valid() && View() == ReplayAll(old(View()), id, order)
    {
      hide Subscribe, WireAll;
      var at := 0;
      while at < |order|
        invariant 0 <= at <= |order| && Valid()
        invariant View() == ReplayAll(old(View()), id, order[..at])
      {
        ReplaySubscription(id, order[at], false);
        assert order[..at + 1][..at] == order[..at];
        at := at + 1;
      }
      assert order[..at] == order;
    }

    /** `add_peer`: append, replay the peer's prefixes, then greet it. */
    method AddPeer(peer: InprocPeer) returns (r: Result<()>)
      requires Valid() && peer.subs.Valid() && (binderType == Xpub ==> peer.inbox != binderInbox)
      modifies this`peers, this`peerTopics, this`lastPeer, this`pending, binderInbox, peer.inbox
      ensures Valid()
      ensures r == if Compatible(binderType, peer.socketType) then Ok(()) else Err(NotSupported)
      ensures r.Err? ==> peers == old(peers) && View() == old(View()) && peer.inbox.items == old(peer.inbox.items)
      ensures r.Ok? ==> peers == old(peers) + [peer]
      ensures r.Ok? ==> View() == if binderType == Xpub then ReplayAll(old(View()), peer.id, peer.subs.prefixes)
                                  else old(View())
      ensures r.Ok? ==> peer.inbox.items == old(peer.inbox.items) +
                                            if binderType == Xpub && welcome.Some?
                                            then [Message(welcome.value, false, 0, None)] else []
      ensures binderType != Xpub ==> binderInbox.items == old(binderInbox.items)
    {
      if !Compatible(binderType, peer.socketType) {
        return Err(NotSupported);
      }
      peers := peers + [peer];
      if binderType == Xpub {
        ReplayPeer(peer.id, peer.subs.prefixes);
        if welcome.Some? {
          peer.inbox.items := peer.inbox.items + [Message(welcome.value, false, 0, None)];
        }
      }
      r := Ok(());
    }

    /** `remove_xsub_peer_subscriptions`. */
    method RetractPeer(id: nat, order: seq<Bytes>)
      requires Valid() && binderType == Xpub
      modifies this`peerTopics, this`manualTopics, this`lastPeer, this`pending, binderInbox
      ensures Valid() && View() == Detach(old(View()), id, order)
    {
      hide Unsubscribe, WithoutPeer, WireAll;
      var at := 0;
      while at < |order|
        invariant 0 <= at <= |order| && Valid()
        invariant View() == RetractAll(old(View()), id, order[..at])
      {
        ReplayUnsubscription(id, order[at], false);
        assert order[..at + 1][..at] == order[..at];
        at := at + 1;
      }
      assert order[..at] == order;
      ghost var retracted := View();
      at := 0;
      while at < |order|
        invariant 0 <= at <= |order| && Valid()
        invariant View() == retracted.(manualTopics := ForgetManual(retracted.manualTopics, id, order[..at]))
      {
        assert order[..at + 1][..at] == order[..at];
        manualTopics := WithoutPeer(manualTopics, order[at], id);
        at := at + 1;
      }
      assert order[..at] == order;
    }

    /** `remove_peer`, without the disconnect message: drops every entry of the id and retracts the
        first one's subscriptions. */
    method RemovePeer(id: nat) returns (removed: bool)
      requires Valid()
      modifies this`peers, this`peerTopics, this`manualTopics, this`lastPeer, this`pending, binderInbox
      ensures Valid() && peers == Others(old(peers), id)
      ensures removed <==> FirstWithId(old(peers), id).Some?
      ensures View() == if removed && binderType == Xpub && FirstWithId(old(peers), id).value.socketType == Xsub
                        then Detach(old(View()), id, old(FirstWithId(peers, id).value.subs.prefixes))
                        else old(View())
      ensures binderType != Xpub ==> binderInbox.items == old(binderInbox.items)
    {
      var found := FirstWithId(peers, id);
      var before := |peers|;
      OthersShorter(peers, id);
      peers := Others(peers, id);
      removed := |peers| != before;
      assert View() == old(View());
      if found.Some? && found.value.socketType == Xsub && binderType == Xpub {
        RetractPeer(id, found.value.subs.prefixes);
      }
    }

    /** `peer_by_id`: the inbox of the first attached peer with the id, if there is one. */
    function PeerById(id: nat): (r: Option<MessageQueue>)
      reads this`peers
      ensures r.None? <==> forall i :: 0 <= i < |peers| ==> peers[i].id != id
      ensures r.Some? ==> exists i :: 0 <= i < |peers| && FirstAt(peers, id, i) && r.value == peers[i].inbox
    {
      FirstIsFirst(peers, id);
      match FirstWithId(peers, id)
      case Some(p) => Some(p.inbox)
      case None => None
    }

    /** `next_peer`: round robin over the attached peers; the counter wraps like a 64-bit atomic. */
    method NextPeer() returns (r: Option<MessageQueue>)
      requires nextPeer < U64_LIMIT
      modifies this`nextPeer
      ensures nextPeer < U64_LIMIT
      ensures peers == [] ==> r == None && nextPeer == old(nextPeer)
      ensures peers != [] ==> r == Some(peers[old(nextPeer) % |peers|].inbox) &&
                              nextPeer == Advanced(old(nextPeer))
    {
      if peers == [] {
        return None;
      }
      var index := nextPeer % |peers|;
      nextPeer := (nextPeer + 1) % U64_LIMIT;
      r := Some(peers[index].inbox);
    }

    /** `manual_matching_peer_ids`. */
    method ManualMatchingPeerIds(m: Message) returns (ids: set<nat>)
      modifies this`lastPeer
      ensures ids == ManualSelection(old(View()), m.data)
      ensures lastPeer == if policy.manualLastValue then None else old(lastPeer)
    {
      var last := None;
      if policy.manualLastValue {
        last, lastPeer := lastPeer, None;
      }
      var todo := manualTopics.Keys;
      ids := {};
      while todo != {}
        invariant todo <= manualTopics.Keys
        invariant forall id :: id in ids <==>
                                 exists t ::
                                   t in manualTopics && t !in todo && Selects(manualTopics, t, m.data, last, id)
        decreases |todo|
      {
        var t :| t in todo;
        if t <= m.data {
          if last.Some? {
            if last.value in manualTopics[t] {
              ids := ids + {last.value};
            }
          } else {
            ids := ids + manualTopics[t];
          }
        }
        todo := todo - {t};
      }
      SelectionMeaning(old(View()), m.data, last, ids);
    }

    /** `matching_peers`: the inboxes of the selected peers, in attach order. */
    method MatchingPeers(m: Message) returns (outboxes: seq<MessageQueue>)
      requires PeersValid()
      modifies this`lastPeer
      ensures outboxes == Inboxes(if binderType == Xpub && policy.manual
                                  then WithIds(peers, ManualSelection(old(View()), m.data))
                                  else Accepting(peers, Snapshot(peers), m))
      ensures lastPeer == if binderType == Xpub && policy.manual && policy.manualLastValue then None else old(lastPeer)
      ensures !(binderType == Xpub && policy.manual) ==>
                forall i :: 0 <= i < |peers| && OwnInbox(peers, i) ==>
                  (peers[i].inbox in outboxes <==> Receives(peers[i].socketType, peers[i].subs.exact, m, [m]))
    {
      hide Accepting, WithIds, Accepts, ManualSelection, Inboxes, Receives;
      var manual := binderType == Xpub && policy.manual;
      var ids: set<nat> := {};
      if manual {
        ids := ManualMatchingPeerIds(m);
      }
      outboxes := [];
      ghost var selected: seq<InprocPeer> := [];
      ghost var refs := Snapshot(peers);
      SelectedNone(m, ids);
      assert peers[..0] == [] && refs[..0] == [];
      var at := 0;
      while at < |peers|
        invariant 0 <= at <= |peers|
        invariant selected == if manual then WithIds(peers[..at], ids) else Accepting(peers[..at], refs[..at], m)
        invariant outboxes == Inboxes(selected)
        invariant lastPeer == if manual && policy.manualLastValue then None else old(lastPeer)
      {
        var accepts: bool;
        if manual {
          accepts := peers[at].id in ids;
        } else {
          accepts := AcceptsMessage(peers[at], m);
        }
        SelectedStep(peers, refs, at, m, ids);
        if accepts {
          InboxesOneMore(selected, peers[at]);
          outboxes := outboxes + [peers[at].inbox];
          selected := selected + [peers[at]];
        }
        at := at + 1;
      }
      assert peers[..at] == peers && refs[..at] == refs;
      forall i | 0 <= i < |peers| && OwnInbox(peers, i)
        ensures peers[i].inbox in Inboxes(Accepting(peers, refs, m)) <==>
                Receives(peers[i].socketType, peers[i].subs.exact, m, [m])
      {
        ListedIff(peers, refs, m, i);
      }
    }

    /** The clone loop of `send_owned_to_matching_peers`. */
    method SendClones(m: Message) returns (sent: nat)
      requires PeersValid()
      modifies set p | p in peers :: p.inbox
      ensures sent == |Accepting(peers, old(Snapshot(peers)), m)|
      ensures HaveCopies(peers, old(Queued(peers)), m, Accepting(peers, old(Snapshot(peers)), m))
    {
      hide Accepting, Accepts, Times, Copies, Snapshot, Queued, HaveCopies, SubscriptionState.Valid;
      sent := 0;
      ghost var refs, was := Snapshot(peers), Queued(peers);
      ghost var selected: seq<InprocPeer> := [];
      SelectedNone(m, {});
      NoCopies(peers, m);
      assert peers[..0] == [] && refs[..0] == [];
      var at := 0;
      while at < |peers|
        invariant 0 <= at <= |peers| && PeersValid()
        invariant forall i :: 0 <= i < |peers| ==> peers[i].subs.exact == refs[i]
        invariant selected == Accepting(peers[..at], refs[..at], m) && sent == |selected|
        invariant HaveCopies(peers, was, m, selected)
      {
        SelectedStep(peers, refs, at, m, {});
        var accepts := DeliverOne(peers, at, m, was, selected);
        if accepts {
          sent := sent + 1;
          selected := selected + [peers[at]];
        }
        at := at + 1;
      }
      assert peers[..at] == peers && refs[..at] == refs;
    }

    /** `send_owned_to_matching_peers`: a single peer gets the message itself, several get clones. */
    method SendOwnedToMatchingPeers(m: Message) returns (sent: nat)
      requires PeersValid()
      modifies set p | p in peers :: p.inbox
      ensures sent == |Accepting(peers, old(Snapshot(peers)), m)|
      ensures HaveCopies(peers, old(Queued(peers)), m, Accepting(peers, old(Snapshot(peers)), m))
      ensures forall i :: 0 <= i < |peers| && OwnInbox(peers, i) ==>
                            Grew(peers[i], old(peers[i].inbox.items), old(peers[i].subs.exact), m)
    {
      hide Accepting, Accepts, Times, Copies, Snapshot, Queued, Grew, Receives;
      ghost var refs, was := Snapshot(peers), Queued(peers);
      if |peers| != 1 {
        sent := SendClones(m);
      } else {
        var peer := peers[0];
        SinglePeer(peer, peer.subs.exact, m);
        assert peers == [peer] && Snapshot(peers) == [peer.subs.exact];
        var accepts := DeliverIfAccepted(peer, m);
        sent := if accepts then 1 else 0;
      }
      forall i | 0 <= i < |peers| && OwnInbox(peers, i)
        ensures Grew(peers[i], old(peers[i].inbox.items), refs[i], m)
      {
        GrewBy(peers, i, was[i], refs, m);
      }
    }

    /** `manual_subscribe_last_peer`. */
    method ManualSubscribeLastPeer(topic: Bytes) returns (r: Result<()>)
      modifies this`manualTopics
      ensures binderType != Xpub ==> r == Err(NotSupported) && View() == old(View())
      ensures binderType == Xpub ==> r == Ok(()) && View() == ManualSubscribe(old(View()), topic)
    {
      if binderType != Xpub {
        return Err(NotSupported);
      }
      if lastPeer.Some? {
        var entry := if topic in manualTopics then manualTopics[topic] else {};
        manualTopics := manualTopics[topic := entry + {lastPeer.value}];
      }
      r := Ok(());
    }

    /** `manual_unsubscribe_last_peer`. */
    method ManualUnsubscribeLastPeer(topic: Bytes) returns (r: Result<()>)
      modifies this`manualTopics
      ensures binderType != Xpub ==> r == Err(NotSupported) && View() == old(View())
      ensures binderType == Xpub ==> r == Ok(()) && View() == ManualUnsubscribe(old(View()), topic)
    {
      if binderType != Xpub {
        return Err(NotSupported);
      }
      if lastPeer.Some? && topic in manualTopics {
        var entry := manualTopics[topic] - {lastPeer.value};
        manualTopics := if entry == {} then manualTopics - {topic} else manualTopics[topic := entry];
      }
      r := Ok(());
    }
  }

  // What selection means.

  /** The fast path's copies per inbox are the occurrences of that inbox in the slow path's list. */
  lemma {:induction false} TimesIsMultiplicity(selected: seq<InprocPeer>, inbox: MessageQueue)
    ensures Times(selected, inbox) == multiset(Inboxes(selected))[inbox]
  {
    if selected != [] {
      var n := |selected| - 1;
      TimesIsMultiplicity(selected[..n], inbox);
      SplitConcat(selected, n);
      InboxesOneMore(selected[..n], selected[n]);
      assert selected == selected[..n] + [selected[n]];
    }
  }

  lemma {:induction false} AcceptingMembers(peers: seq<InprocPeer>, refs: seq<map<Bytes, nat>>, m: Message,
                                            p: InprocPeer)
    requires |refs| == |peers|
    ensures p in Accepting(peers, refs, m) <==>
            exists i :: 0 <= i < |peers| && peers[i] == p && Accepts(p.socketType, refs[i], m)
  {
    hide Accepts;
    if peers != [] {
      var n := |peers| - 1;
      AcceptingMembers(peers[..n], refs[..n], m, p);
      assert forall i :: 0 <= i < n ==> peers[..n][i] == peers[i] && refs[..n][i] == refs[i];
    }
  }

  lemma {:induction false} WithIdsMembers(peers: seq<InprocPeer>, ids: set<nat>, p: InprocPeer)
    ensures p in WithIds(peers, ids) <==> p in peers && p.id in ids
  {
    if peers != [] {
      WithIdsMembers(peers[..|peers| - 1], ids, p);
      SplitConcat(peers, |peers| - 1);
    }
  }

  /** In manual mode the selection is exactly the attached peers that hold an accepted prefix of the
      message; in last-value mode, while there is a last peer, only that one. */
  lemma ManualSelectionExact(peers: seq<InprocPeer>, h: Hub, data: Bytes, p: InprocPeer)
    ensures p in WithIds(peers, ManualSelection(h, data)) <==>
            && p in peers && (exists t :: t <= data && p.id in PeersOf(h.manualTopics, t))
            && (h.policy.manualLastValue && h.lastPeer.Some? ==> p.id == h.lastPeer.value)
  {
    WithIdsMembers(peers, ManualSelection(h, data), p);
    if exists t :: t <= data && p.id in PeersOf(h.manualTopics, t) {
      var t :| t <= data && p.id in PeersOf(h.manualTopics, t);
      assert p.id in ManualMatches(h.manualTopics, data);
    }
    if p.id in ManualSelection(h, data) {
      var t :| t in h.manualTopics && t <= data && p.id in h.manualTopics[t];
      assert p.id in PeersOf(h.manualTopics, t);
    }
  }
}
