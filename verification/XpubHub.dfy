/** The bound XPUB endpoint of context.rs as a value: its topic table and the notifications it
    queues for the XPUB application (the XPUB/XSUB parts of ZeroMQ RFC 29/PUBSUB). */
module XpubHub {
  import opened Common

  datatype Policy = Policy(verboseSubscribe: bool, verboseUnsubscribe: bool, manual: bool, manualLastValue: bool)

  /** What can sit in the XPUB inbox: a subscription change (byte 1 or 0, then the topic), or a frame
      that an XSUB sent as ordinary data. */
  datatype Item = Change(on: bool, topic: Bytes) | Data(bytes: Bytes, more: bool)

  type Topics = map<Bytes, set<nat>>

  /** `seen` are the items the XPUB application has received, `inbox` those still queued. */
  datatype Hub = Hub(
    policy: Policy,
    topics: Topics,
    manualTopics: Topics,
    lastPeer: Option<nat>,
    seen: seq<Item>,
    inbox: seq<Item>)

  function Emitted(h: Hub): seq<Item> {
    h.seen + h.inbox
  }

  function Enqueue(h: Hub, item: Item): Hub {
    h.(inbox := h.inbox + [item])
  }

  /** The peers recorded for a topic; a missing entry means none. */
  function PeersOf(topics: Topics, topic: Bytes): set<nat> {
    if topic in topics then topics[topic] else {}
  }

  function WithPeer(topics: Topics, topic: Bytes, peer: nat): Topics {
    topics[topic := PeersOf(topics, topic) + {peer}]
  }

  /** The peer is dropped from the entry, and an entry left empty is dropped too. */
  function WithoutPeer(topics: Topics, topic: Bytes, peer: nat): Topics {
    if topic !in topics then topics
    else if topics[topic] - {peer} == {} then topics - {topic}
    else topics[topic := topics[topic] - {peer}]
  }

  /** `should_replay_subscription`: the recorded change and whether to notify. */
  function RecordSubscribe(h: Hub, peer: nat, topic: Bytes, duplicate: bool): (Hub, bool) {
    if duplicate then
      var notify := h.policy.verboseSubscribe || h.policy.manual;
      (if notify then h.(lastPeer := Some(peer)) else h, notify)
    else
      var topics := WithPeer(h.topics, topic, peer);
      var notify := |topics[topic]| == 1 || h.policy.verboseSubscribe || h.policy.manual;
      (h.(topics := topics, lastPeer := if notify then Some(peer) else h.lastPeer), notify)
  }

  /** `replay_subscription` and `replay_duplicate_subscription`. */
  function Subscribe(h: Hub, peer: nat, topic: Bytes, duplicate: bool): Hub {
    var (recorded, notify) := RecordSubscribe(h, peer, topic, duplicate);
    if notify then Enqueue(recorded, Change(true, topic)) else recorded
  }

  /** `should_replay_unsubscription`. */
  function RecordUnsubscribe(h: Hub, peer: nat, topic: Bytes, unmatched: bool): (Hub, bool) {
    if unmatched then (h.(lastPeer := Some(peer)), true)
    else if topic !in h.topics then (h, true)
    else
      var topics := WithoutPeer(h.topics, topic, peer);
      var notify := topic !in topics || h.policy.verboseUnsubscribe || h.policy.manual;
      (h.(topics := topics, lastPeer := if notify then Some(peer) else h.lastPeer), notify)
  }

  /** `replay_unsubscription`. */
  function Unsubscribe(h: Hub, peer: nat, topic: Bytes, unmatched: bool): Hub {
    var (recorded, notify) := RecordUnsubscribe(h, peer, topic, unmatched);
    if notify then Enqueue(recorded, Change(false, topic)) else recorded
  }

  /** `replay_xsub_subscriptions`: the prefixes of a newly attached peer, in stored order. */
  function ReplayAll(h: Hub, peer: nat, order: seq<Bytes>): Hub
    decreases |order|
  {
    if order == [] then h
    else Subscribe(ReplayAll(h, peer, order[..|order| - 1]), peer, order[|order| - 1], false)
  }

  function RetractAll(h: Hub, peer: nat, order: seq<Bytes>): Hub
    decreases |order|
  {
    if order == [] then h
    else Unsubscribe(RetractAll(h, peer, order[..|order| - 1]), peer, order[|order| - 1], false)
  }

  function ForgetManual(topics: Topics, peer: nat, order: seq<Bytes>): Topics
    decreases |order|
  {
    if order == [] then topics
    else WithoutPeer(ForgetManual(topics, peer, order[..|order| - 1]), order[|order| - 1], peer)
  }

  /** `remove_xsub_peer_subscriptions`. */
  function Detach(h: Hub, peer: nat, order: seq<Bytes>): Hub {
    var retracted := RetractAll(h, peer, order);
    retracted.(manualTopics := ForgetManual(retracted.manualTopics, peer, order))
  }

  /** `manual_subscribe_last_peer`. */
  function ManualSubscribe(h: Hub, topic: Bytes): Hub {
    match h.lastPeer
    case None => h
    case Some(peer) => h.(manualTopics := WithPeer(h.manualTopics, topic, peer))
  }

  /** `manual_unsubscribe_last_peer`. */
  function ManualUnsubscribe(h: Hub, topic: Bytes): Hub {
    match h.lastPeer
    case None => h
    case Some(peer) => h.(manualTopics := WithoutPeer(h.manualTopics, topic, peer))
  }

  ghost predicate NoEmptyEntries(topics: Topics) {
    forall t :: t in topics ==> topics[t] != {}
  }

  // How each operation changes the table.

  lemma PeersAfterWith(topics: Topics, topic: Bytes, peer: nat, t: Bytes)
    ensures PeersOf(WithPeer(topics, topic, peer), t) ==
            PeersOf(topics, t) + if t == topic then {peer} else {}
  {
  }

  lemma PeersAfterWithout(topics: Topics, topic: Bytes, peer: nat, t: Bytes)
    ensures PeersOf(WithoutPeer(topics, topic, peer), t) ==
            PeersOf(topics, t) - if t == topic then {peer} else {}
  {
  }

  lemma WithoutKeepsEntries(topics: Topics, topic: Bytes, peer: nat)
    requires NoEmptyEntries(topics)
    ensures NoEmptyEntries(WithoutPeer(topics, topic, peer))
  {
  }

  lemma PeersAfterSubscribe(h: Hub, peer: nat, topic: Bytes, duplicate: bool, t: Bytes)
    ensures PeersOf(Subscribe(h, peer, topic, duplicate).topics, t) ==
            PeersOf(h.topics, t) + if t == topic && !duplicate then {peer} else {}
    ensures NoEmptyEntries(h.topics) ==> NoEmptyEntries(Subscribe(h, peer, topic, duplicate).topics)
  {
    PeersAfterWith(h.topics, topic, peer, t);
    var topics := if duplicate then h.topics else WithPeer(h.topics, topic, peer);
    assert Subscribe(h, peer, topic, duplicate).topics == topics;
  }

  lemma PeersAfterUnsubscribe(h: Hub, peer: nat, topic: Bytes, unmatched: bool, t: Bytes)
    ensures PeersOf(Unsubscribe(h, peer, topic, unmatched).topics, t) ==
            PeersOf(h.topics, t) - if t == topic && !unmatched then {peer} else {}
    ensures NoEmptyEntries(h.topics) ==> NoEmptyEntries(Unsubscribe(h, peer, topic, unmatched).topics)
  {
  }

  lemma {:induction false} PeersAfterReplay(h: Hub, peer: nat, order: seq<Bytes>, t: Bytes)
    ensures PeersOf(ReplayAll(h, peer, order).topics, t) ==
            PeersOf(h.topics, t) + if t in order then {peer} else {}
    ensures ReplayAll(h, peer, order).policy == h.policy
  {
    if order != [] {
      var front, last := order[..|order| - 1], order[|order| - 1];
      PeersAfterReplay(h, peer, front, t);
      assert t in order <==> t in front || t == last;
      PeersAfterWith(ReplayAll(h, peer, front).topics, last, peer, t);
    }
  }

  lemma {:induction false} PeersAfterRetract(h: Hub, peer: nat, order: seq<Bytes>, t: Bytes)
    ensures PeersOf(RetractAll(h, peer, order).topics, t) ==
            PeersOf(h.topics, t) - if t in order then {peer} else {}
    ensures RetractAll(h, peer, order).policy == h.policy
  {
    if order != [] {
      var front, last := order[..|order| - 1], order[|order| - 1];
      PeersAfterRetract(h, peer, front, t);
      assert t in order <==> t in front || t == last;
      PeersAfterWithout(RetractAll(h, peer, front).topics, last, peer, t);
    }
  }

  lemma {:induction false} ReplayKeepsEntries(h: Hub, peer: nat, order: seq<Bytes>)
    requires NoEmptyEntries(h.topics)
    ensures NoEmptyEntries(ReplayAll(h, peer, order).topics)
  {
    if order != [] { ReplayKeepsEntries(h, peer, order[..|order| - 1]); }
  }

  lemma {:induction false} RetractKeepsEntries(h: Hub, peer: nat, order: seq<Bytes>)
    requires NoEmptyEntries(h.topics)
    ensures NoEmptyEntries(RetractAll(h, peer, order).topics)
  {
    if order != [] {
      RetractKeepsEntries(h, peer, order[..|order| - 1]);
      WithoutKeepsEntries(RetractAll(h, peer, order[..|order| - 1]).topics, order[|order| - 1], peer);
    }
  }

  // What each operation queues.

  function If(news: bool, item: Item): seq<Item> {
    if news then [item] else []
  }

  /** A peer's subscription is announced when no other peer is recorded for the topic, and always in verbose
      or manual mode, where its duplicates are announced too. */
  lemma SubscribeInbox(h: Hub, peer: nat, topic: Bytes, duplicate: bool)
    requires duplicate ==> topic in h.topics
    ensures Subscribe(h, peer, topic, duplicate).inbox ==
            h.inbox + If((!duplicate && PeersOf(h.topics, topic) <= {peer}) || h.policy.verboseSubscribe ||
                         h.policy.manual, Change(true, topic))
  {
    ConcatEmpty(h.inbox);
    if !duplicate {
      var peers := WithPeer(h.topics, topic, peer)[topic];
      SingletonEntry(peers, peer);
      assert |peers| == 1 <==> PeersOf(h.topics, topic) <= {peer};
    }
  }

  /** Dropping a recorded peer is announced when no other peer is recorded, and always in
      verbose-unsubscribe or manual mode. */
  lemma UnsubscribeInbox(h: Hub, peer: nat, topic: Bytes)
    requires peer in PeersOf(h.topics, topic)
    ensures Unsubscribe(h, peer, topic, false).inbox ==
            h.inbox + If(PeersOf(h.topics, topic) <= {peer} || h.policy.verboseUnsubscribe || h.policy.manual,
                         Change(false, topic))
  {
    ConcatEmpty(h.inbox);
    assert h.topics[topic] - {peer} == {} <==> h.topics[topic] <= {peer};
  }

  /** The announcements of a peer that joins with the prefixes `order`. */
  function Joining(h: Hub, peer: nat, order: seq<Bytes>): seq<Item> {
    if order == [] then []
    else
      var last := order[|order| - 1];
      Joining(h, peer, order[..|order| - 1]) +
      If(PeersOf(h.topics, last) <= {peer} || h.policy.verboseSubscribe || h.policy.manual, Change(true, last))
  }

  lemma {:induction false} ReplayInbox(h: Hub, peer: nat, order: seq<Bytes>)
    requires forall i, j :: 0 <= i < j < |order| ==> order[i] != order[j]
    ensures ReplayAll(h, peer, order).inbox == h.inbox + Joining(h, peer, order)
  {
    hide Subscribe, If;
    if order == [] {
      ConcatEmpty(h.inbox);
    } else {
      var front, last := order[..|order| - 1], order[|order| - 1];
      ReplayInbox(h, peer, front);
      PeersAfterReplay(h, peer, front, last);
      SubscribeInbox(ReplayAll(h, peer, front), peer, last, false);
      ConcatAssociative(h.inbox, Joining(h, peer, front),
                        If(PeersOf(h.topics, last) <= {peer} || h.policy.verboseSubscribe || h.policy.manual,
                           Change(true, last)));
    }
  }

  /** The announcements of a peer that leaves with the prefixes `order`. */
  function Leaving(h: Hub, peer: nat, order: seq<Bytes>): seq<Item> {
    if order == [] then []
    else
      var last := order[|order| - 1];
      Leaving(h, peer, order[..|order| - 1]) +
      If(PeersOf(h.topics, last) <= {peer} || h.policy.verboseUnsubscribe || h.policy.manual, Change(false, last))
  }

  lemma {:induction false} RetractInbox(h: Hub, peer: nat, order: seq<Bytes>)
    requires forall i, j :: 0 <= i < j < |order| ==> order[i] != order[j]
    requires forall i :: 0 <= i < |order| ==> peer in PeersOf(h.topics, order[i])
    ensures RetractAll(h, peer, order).inbox == h.inbox + Leaving(h, peer, order)
  {
    hide Unsubscribe, If;
    if order == [] {
      ConcatEmpty(h.inbox);
    } else {
      var front, last := order[..|order| - 1], order[|order| - 1];
      RetractInbox(h, peer, front);
      PeersAfterRetract(h, peer, front, last);
      assert last !in front;
      UnsubscribeInbox(RetractAll(h, peer, front), peer, last);
      ConcatAssociative(h.inbox, Leaving(h, peer, front),
                        If(PeersOf(h.topics, last) <= {peer} || h.policy.verboseUnsubscribe || h.policy.manual,
                           Change(false, last)));
    }
  }

  /** The last peer is the one whose replay or retraction announced something; manual entries stay. */
  lemma {:induction false} ReplayLastPeer(h: Hub, peer: nat, order: seq<Bytes>)
    requires forall i, j :: 0 <= i < j < |order| ==> order[i] != order[j]
    ensures ReplayAll(h, peer, order).lastPeer == if Joining(h, peer, order) == [] then h.lastPeer else Some(peer)
    ensures ReplayAll(h, peer, order).manualTopics == h.manualTopics
  {
    if order != [] {
      var front, last := order[..|order| - 1], order[|order| - 1];
      ReplayLastPeer(h, peer, front);
      PeersAfterReplay(h, peer, front, last);
      hide Joining, PeersOf, WithPeer;
      SubscribeLastPeer(ReplayAll(h, peer, front), peer, last);
      JoiningOneMore(h, peer, order);
    }
  }

  lemma SubscribeLastPeer(h: Hub, peer: nat, topic: Bytes)
    ensures var news := PeersOf(h.topics, topic) <= {peer} || h.policy.verboseSubscribe || h.policy.manual;
            Subscribe(h, peer, topic, false).lastPeer == if news then Some(peer) else h.lastPeer
    ensures Subscribe(h, peer, topic, false).manualTopics == h.manualTopics
  {
    var peers := WithPeer(h.topics, topic, peer)[topic];
    SingletonEntry(peers, peer);
    assert |peers| == 1 <==> PeersOf(h.topics, topic) <= {peer};
  }

  lemma JoiningOneMore(h: Hub, peer: nat, order: seq<Bytes>)
    requires order != []
    ensures var last := order[|order| - 1];
            Joining(h, peer, order) == [] <==>
            Joining(h, peer, order[..|order| - 1]) == [] &&
            !(PeersOf(h.topics, last) <= {peer} || h.policy.verboseSubscribe || h.policy.manual)
  {
  }

  // What the notifications say.

  /** Last-wins reading of the notifications: is the topic on after `items`? */
  function IsOn(items: seq<Item>, topic: Bytes): bool {
    if items == [] then false
    else
      var last := items[|items| - 1];
      if last.Change? && last.topic == topic then last.on else IsOn(items[..|items| - 1], topic)
  }

  /** The on/off values notified for one topic, in order. */
  function NotesOf(items: seq<Item>, topic: Bytes): seq<bool> {
    if items == [] then []
    else
      var last := items[|items| - 1];
      NotesOf(items[..|items| - 1], topic) + if last.Change? && last.topic == topic then [last.on] else []
  }

  /** on, off, on, off, ... */
  ghost predicate Alternates(notes: seq<bool>) {
    forall i :: 0 <= i < |notes| ==> (notes[i] <==> i % 2 == 0)
  }

  /** Last-wins reading of everything emitted rebuilds the table's topics. */
  ghost predicate Rebuilds(h: Hub) {
    forall t :: IsOn(Emitted(h), t) <==> t in h.topics
  }

  /** Each topic's notifications alternate, starting with on, and the table knows the next one. */
  ghost predicate Strict(h: Hub) {
    forall t :: Alternates(NotesOf(Emitted(h), t)) && (|NotesOf(Emitted(h), t)| % 2 == 1 <==> t in h.topics)
  }

  predicate Quiet(p: Policy) {
    !p.manual && !p.verboseUnsubscribe
  }

  lemma EnqueueExtends(h: Hub, item: Item, t: Bytes)
    ensures IsOn(Emitted(Enqueue(h, item)), t) ==
            if item.Change? && item.topic == t then item.on else IsOn(Emitted(h), t)
    ensures NotesOf(Emitted(Enqueue(h, item)), t) ==
            NotesOf(Emitted(h), t) + if item.Change? && item.topic == t then [item.on] else []
  {
    ConcatAssociative(h.seen, h.inbox, [item]);
    ConcatSplit(Emitted(h), [item]);
  }

  lemma EnqueueDataHarmless(h: Hub, item: Item)
    requires item.Data?
    ensures Rebuilds(h) ==> Rebuilds(Enqueue(h, item))
    ensures Strict(h) ==> Strict(Enqueue(h, item))
  {
    forall t ensures IsOn(Emitted(Enqueue(h, item)), t) == IsOn(Emitted(h), t) {
      EnqueueExtends(h, item, t);
    }
    forall t ensures NotesOf(Emitted(Enqueue(h, item)), t) == NotesOf(Emitted(h), t) {
      EnqueueExtends(h, item, t);
    }
  }

  /** A table change from `h` to `h'` that concerns one topic. */
  ghost predicate ChangesOnly(h: Hub, h': Hub, on: bool, topic: Bytes) {
    && Emitted(h') == Emitted(h)
    && (forall t :: t != topic ==> (t in h'.topics <==> t in h.topics))
    && (topic in h'.topics <==> on)
  }

  lemma EnqueueChangeRebuilds(h: Hub, h': Hub, on: bool, topic: Bytes)
    requires ChangesOnly(h, h', on, topic) && Rebuilds(h)
    ensures Rebuilds(Enqueue(h', Change(on, topic)))
  {
    hide IsOn, NotesOf;
    var after := Enqueue(h', Change(on, topic));
    forall t ensures IsOn(Emitted(after), t) <==> t in after.topics {
      EnqueueExtends(h', Change(on, topic), t);
    }
  }

  lemma EnqueueChangeStrict(h: Hub, h': Hub, on: bool, topic: Bytes)
    requires ChangesOnly(h, h', on, topic) && Strict(h) && (topic in h.topics <==> !on)
    ensures Strict(Enqueue(h', Change(on, topic)))
  {
    hide IsOn, NotesOf;
    var after := Enqueue(h', Change(on, topic));
    forall t
      ensures Alternates(NotesOf(Emitted(after), t))
      ensures |NotesOf(Emitted(after), t)| % 2 == 1 <==> t in after.topics
    {
      EnqueueExtends(h', Change(on, topic), t);
      var notes := NotesOf(Emitted(h), t);
      if t == topic {
        AlternatesOneMore(notes, on);
      } else {
        ConcatEmpty(notes);
      }
    }
  }

  lemma AlternatesOneMore(notes: seq<bool>, on: bool)
    requires Alternates(notes) && (on <==> |notes| % 2 == 0)
    ensures Alternates(notes + [on]) && (|notes + [on]| % 2 == 1 <==> on)
  {
  }

  /** A table change together with its notification. */
  lemma EnqueueChange(h: Hub, h': Hub, on: bool, topic: Bytes)
    requires ChangesOnly(h, h', on, topic)
    ensures Rebuilds(h) ==> Rebuilds(Enqueue(h', Change(on, topic)))
    ensures Strict(h) && (topic in h.topics <==> !on) ==> Strict(Enqueue(h', Change(on, topic)))
  {
    hide Rebuilds, Strict;
    if Rebuilds(h) { EnqueueChangeRebuilds(h, h', on, topic); }
    if Strict(h) && (topic in h.topics <==> !on) { EnqueueChangeStrict(h, h', on, topic); }
  }

  lemma SingletonEntry(peers: set<nat>, peer: nat)
    requires peer in peers
    ensures |peers| == 1 <==> peers == {peer}
  {
    if |peers| == 1 {
      assert |peers - {peer}| == 0;
      assert peers == {peer} + (peers - {peer});
    }
  }

  /** Subscribing keeps the reading right under a quiet policy, and strict without verbose. */
  lemma SubscribeReads(h: Hub, peer: nat, topic: Bytes, duplicate: bool)
    requires Quiet(h.policy) && NoEmptyEntries(h.topics)
    requires if duplicate then topic in h.topics else peer !in PeersOf(h.topics, topic)
    ensures Rebuilds(h) ==> Rebuilds(Subscribe(h, peer, topic, duplicate))
    ensures Strict(h) && !h.policy.verboseSubscribe ==> Strict(Subscribe(h, peer, topic, duplicate))
  {
    hide Rebuilds, Strict;
    var (recorded, notify) := RecordSubscribe(h, peer, topic, duplicate);
    if !duplicate {
      SingletonEntry(recorded.topics[topic], peer);
      assert |recorded.topics[topic]| == 1 <==> topic !in h.topics;
    }
    if notify {
      EnqueueChange(h, recorded, true, topic);
    } else {
      SameReading(h, recorded);
    }
  }

  lemma SameReading(h: Hub, h': Hub)
    requires Emitted(h') == Emitted(h) && h'.topics.Keys == h.topics.Keys
    ensures Rebuilds(h) ==> Rebuilds(h')
    ensures Strict(h) ==> Strict(h')
  {
  }

  /** Dropping a recorded peer keeps the reading right under a quiet policy. */
  lemma UnsubscribeReads(h: Hub, peer: nat, topic: Bytes)
    requires Quiet(h.policy) && peer in PeersOf(h.topics, topic)
    ensures Rebuilds(h) ==> Rebuilds(Unsubscribe(h, peer, topic, false))
    ensures Strict(h) ==> Strict(Unsubscribe(h, peer, topic, false))
  {
    hide Rebuilds, Strict;
    var (recorded, notify) := RecordUnsubscribe(h, peer, topic, false);
    if notify {
      EnqueueChange(h, recorded, false, topic);
    } else {
      SameReading(h, recorded);
    }
  }

  lemma {:induction false} ReplayReads(h: Hub, peer: nat, order: seq<Bytes>)
    requires Quiet(h.policy) && NoEmptyEntries(h.topics)
    requires forall i, j :: 0 <= i < j < |order| ==> order[i] != order[j]
    requires forall i :: 0 <= i < |order| ==> peer !in PeersOf(h.topics, order[i])
    ensures Rebuilds(h) ==> Rebuilds(ReplayAll(h, peer, order))
    ensures Strict(h) && !h.policy.verboseSubscribe ==> Strict(ReplayAll(h, peer, order))
  {
    hide Rebuilds, Strict;
    if order != [] {
      var front, last := order[..|order| - 1], order[|order| - 1];
      ReplayReads(h, peer, front);
      var mid := ReplayAll(h, peer, front);
      PeersAfterReplay(h, peer, front, last);
      ReplayKeepsEntries(h, peer, front);
      SubscribeReads(mid, peer, last, false);
    }
  }

  lemma {:induction false} RetractReads(h: Hub, peer: nat, order: seq<Bytes>)
    requires Quiet(h.policy)
    requires forall i, j :: 0 <= i < j < |order| ==> order[i] != order[j]
    requires forall i :: 0 <= i < |order| ==> peer in PeersOf(h.topics, order[i])
    ensures Rebuilds(h) ==> Rebuilds(RetractAll(h, peer, order))
    ensures Strict(h) ==> Strict(RetractAll(h, peer, order))
  {
    hide Rebuilds, Strict;
    if order != [] {
      var front, last := order[..|order| - 1], order[|order| - 1];
      RetractReads(h, peer, front);
      PeersAfterRetract(h, peer, front, last);
      UnsubscribeReads(RetractAll(h, peer, front), peer, last);
    }
  }
}
