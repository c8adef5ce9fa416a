/** Manual mode: for whom the answer of an XPUB application is recorded. */
module XpubAnswers {
  import opened Common
  import opened XpubHub
  import opened XpubRuns
  import Subscriptions
  import Reading = XpubReading

  // Who announced what.

  /** How many items a step added to what the XPUB has been sent. */
  function Added(before: World, after: World): nat {
    var n, n' := |Emitted(before.hub)|, |Emitted(after.hub)|;
    if n' >= n then n' - n else 0
  }

  /** The socket behind each item the XPUB has been sent, read or not. */
  function Authors(steps: seq<Step>): seq<nat> {
    if steps == [] then []
    else
      var before, step := steps[..|steps| - 1], steps[|steps| - 1];
      Authors(before) + seq(Added(Run(before), Run(steps)), _ => if BySocket(step) then step.id else 0)
  }

  /** The place of the latest announcement. */
  function LatestChange(items: seq<Item>): (r: Option<nat>)
    ensures r.Some? ==> r.value < |items| && items[r.value].Change?
  {
    if items == [] then None
    else if items[|items| - 1].Change? then Some(|items| - 1)
    else LatestChange(items[..|items| - 1])
  }

  /** A publish in last-value mode. */
  predicate Consumes(w: World, step: Step) {
    step.XpubPublish? && w.hub.policy.manual && w.hub.policy.manualLastValue
  }

  /** A last-value publish came since the latest announcement. */
  function Consumed(steps: seq<Step>): bool {
    if steps == [] then false
    else
      var before, step := steps[..|steps| - 1], steps[|steps| - 1];
      if Consumes(Run(before), step) then true
      else if LatestChange(Emitted(Run(steps).hub)) != LatestChange(Emitted(Run(before).hub)) then false
      else Consumed(before)
  }

  /** What a step does to the items sent to the XPUB and to the last peer. */
  ghost predicate Advances(h: Hub, h': Hub, step: Step, consumes: bool) {
    var e, e' := Emitted(h), Emitted(h');
    && |e| <= |e'| && e'[..|e|] == e
    && (|e'| > |e| ==> BySocket(step) && !consumes)
    && (   (|e'| > |e| && (forall i :: |e| <= i < |e'| ==> e'[i].Change?) && h'.lastPeer == Some(step.id))
        || (|e'| == |e| && h'.lastPeer == if consumes then None else h.lastPeer)
        || (|e'| == |e| + 1 && e'[|e|].Data? && h'.lastPeer == h.lastPeer))
  }

  lemma AnnouncesAdvances(h: Hub, h': Hub, step: Step)
    requires BySocket(step) && Announces(h, h', step.id)
    ensures Advances(h, h', step, false)
  {
    var e, e' := Emitted(h), Emitted(h');
    SplitConcat(h'.inbox, |h.inbox|);
    ConcatAssociative(h.seen, h.inbox, h'.inbox[|h.inbox|..]);
    assert e' == e + h'.inbox[|h.inbox|..];
  }

  lemma ForwardsAdvances(h: Hub, item: Item, step: Step)
    requires BySocket(step) && item.Data?
    ensures Advances(h, Enqueue(h, item), step, false)
  {
    ConcatAssociative(h.seen, h.inbox, [item]);
  }

  lemma StepAdvances(w: World, step: Step)
    requires Consistent(w)
    ensures Advances(w.hub, Apply(w, step).hub, step, Consumes(w, step))
  {
    if BySocket(step) {
      StepAnnounces(w, step);
      hide Apply;
      var h' := Apply(w, step).hub;
      if Announces(w.hub, h', step.id) {
        AnnouncesAdvances(w.hub, h', step);
      } else {
        ForwardsAdvances(w.hub, Data(step.data, step.more), step);
      }
    } else if step.XpubReceive? {
      ReceiveReads(w);
    }
  }

  lemma {:induction false} LatestAfter(e: seq<Item>, e': seq<Item>)
    requires |e| <= |e'| && e'[..|e|] == e && (forall i :: |e| <= i < |e'| ==> e'[i].Change?)
    ensures LatestChange(e') == if |e'| > |e| then Some(|e'| - 1) else LatestChange(e)
  {
    if |e'| == |e| { assert e' == e; }
  }

  /** The announcer an answer is for: the author of the latest announcement, unless a last-value publish
      came since. */
  function Answered(steps: seq<Step>): set<nat> {
    var latest := LatestChange(Emitted(Run(steps).hub));
    if latest.Some? && !Consumed(steps) && latest.value < |Authors(steps)| then {Authors(steps)[latest.value]} else {}
  }

  /** An announcing step makes its last item the latest announcement; any other leaves the latest one. */
  lemma LatestUnder(h: Hub, h': Hub, step: Step, consumes: bool)
    requires Advances(h, h', step, consumes)
    ensures var e, e' := Emitted(h), Emitted(h');
            if |e'| > |e| && e'[|e|].Change?
            then LatestChange(e') == Some(|e'| - 1) && h'.lastPeer == Some(step.id) && BySocket(step) && !consumes
            else LatestChange(e') == LatestChange(e) && h'.lastPeer == if consumes then None else h.lastPeer
  {
    var e, e' := Emitted(h), Emitted(h');
    if |e'| == |e| + 1 && e'[|e|].Data? {
      assert e'[..|e'| - 1] == e;
    } else {
      LatestAfter(e, e');
    }
  }

  lemma RunAdvances(steps: seq<Step>)
    requires steps != []
    ensures var before, step := steps[..|steps| - 1], steps[|steps| - 1];
            Advances(Run(before).hub, Run(steps).hub, step, Consumes(Run(before), step))
  {
    var before, step := steps[..|steps| - 1], steps[|steps| - 1];
    RunConsistent(before);
    StepAdvances(Run(before), step);
  }

  /** The history names an author for every item. */
  lemma {:induction false} AuthorsComplete(steps: seq<Step>)
    ensures |Authors(steps)| == |Emitted(Run(steps).hub)|
  {
    if steps != [] {
      AuthorsComplete(steps[..|steps| - 1]);
      RunAdvances(steps);
    }
  }

  lemma AuthorsGrow(steps: seq<Step>)
    requires steps != []
    ensures var before, step := steps[..|steps| - 1], steps[|steps| - 1];
            && |Authors(before)| <= |Authors(steps)|
            && (forall i :: 0 <= i < |Authors(before)| ==> Authors(steps)[i] == Authors(before)[i])
            && (BySocket(step) ==>
                  forall i :: |Authors(before)| <= i < |Authors(steps)| ==> Authors(steps)[i] == step.id)
  {
    hide Run;
  }

  /** In every run the history is complete, and the stored last peer is the one it names. */
  lemma {:induction false} LastPeerMeaning(steps: seq<Step>)
    ensures |Authors(steps)| == |Emitted(Run(steps).hub)|
    ensures Answered(steps) == match Run(steps).hub.lastPeer case Some(p) => {p} case None => {}
  {
    AuthorsComplete(steps);
    if steps != [] {
      var before, step := steps[..|steps| - 1], steps[|steps| - 1];
      LastPeerMeaning(before);
      RunAdvances(steps);
      AuthorsGrow(steps);
      hide Run, Authors, Consumes;
      LatestUnder(Run(before).hub, Run(steps).hub, step, Consumes(Run(before), step));
      hide Advances, LatestChange;
    }
  }

  // Answers.

  /** An answer changes the place of the latest announcer in the answered topic, and nothing else; with no
      announcer, or a last-value publish since, it changes nothing. */
  lemma AnswerMeaning(steps: seq<Step>, answer: Bytes, topic: Bytes)
    requires Run(steps).hub.policy.manual
    ensures var w := Run(steps);
            var one := if topic == answer then Answered(steps) else {};
            && PeersOf(Apply(w, XpubSubscribe(answer)).hub.manualTopics, topic) ==
               PeersOf(w.hub.manualTopics, topic) + one
            && PeersOf(Apply(w, XpubUnsubscribe(answer)).hub.manualTopics, topic) ==
               PeersOf(w.hub.manualTopics, topic) - one
  {
    LastPeerMeaning(steps);
    hide Run, Answered, WithPeer, WithoutPeer;
    var h := Run(steps).hub;
    if h.lastPeer.Some? {
      PeersAfterWith(h.manualTopics, answer, h.lastPeer.value, topic);
      PeersAfterWithout(h.manualTopics, answer, h.lastPeer.value, topic);
    }
  }

  /** The peer whose announcement the application read last. */
  ghost predicate JustRead(steps: seq<Step>, p: nat) {
    var seen := Run(steps).hub.seen;
    seen != [] && seen[|seen| - 1].Change? && |seen| <= |Authors(steps)| && Authors(steps)[|seen| - 1] == p
  }

  /** The latest announcement was made by `p`, and no last-value publish came since. */
  ghost predicate LatestBy(steps: seq<Step>, p: nat) {
    var latest := LatestChange(Emitted(Run(steps).hub));
    latest.Some? && latest.value < |Authors(steps)| && Authors(steps)[latest.value] == p && !Consumed(steps)
  }

  /** After reading an announcement of `p`, the answer is recorded for `p` if and only if `p` made the latest
      announcement of all, read or queued, and no last-value publish came since it was made. */
  lemma AnswerReachesReaderIff(steps: seq<Step>, p: nat, answer: Bytes)
    requires Run(steps).hub.policy.manual && JustRead(steps, p)
    ensures var w := Run(steps);
            var was := p in PeersOf(w.hub.manualTopics, answer);
            && (!was ==> (p in PeersOf(Apply(w, XpubSubscribe(answer)).hub.manualTopics, answer)
               <==> LatestBy(steps, p)))
            && (was ==> (p !in PeersOf(Apply(w, XpubUnsubscribe(answer)).hub.manualTopics, answer)
               <==> LatestBy(steps, p)))
  {
    hide Run, Answered, Apply, LatestBy;
    AnswerMeaning(steps, answer, answer);
    AnsweredIs(steps, p);
  }

  lemma AnsweredIs(steps: seq<Step>, p: nat)
    ensures p in Answered(steps) <==> LatestBy(steps, p)
  {
    hide Run, Authors, Consumed;
  }

  /** The i-th queued item is an announcement by someone else. */
  ghost predicate QueuedByOther(steps: seq<Step>, p: nat, i: nat) {
    var h := Run(steps).hub;
    && i < |h.inbox| && h.inbox[i].Change?
    && |h.seen| + i < |Authors(steps)| && Authors(steps)[|h.seen| + i] != p
  }

  lemma {:induction false} LatestIsLast(items: seq<Item>, i: nat)
    requires i < |items| && items[i].Change?
    ensures LatestChange(items).Some? && LatestChange(items).value >= i
  {
    if !items[|items| - 1].Change? { LatestIsLast(items[..|items| - 1], i); }
  }

  /** What a caller can look at: if no announcement by another peer is queued and no last-value publish came
      since the latest announcement, the answer goes to the peer just read. */
  lemma AnswerReachesReader(steps: seq<Step>, p: nat)
    requires JustRead(steps, p) && !Consumed(steps) && forall i :: !QueuedByOther(steps, p, i)
    ensures LatestBy(steps, p)
  {
    LastPeerMeaning(steps);
    hide Run, Authors, Consumed;
    var h := Run(steps).hub;
    var items := Emitted(h);
    LatestIsLast(items, |h.seen| - 1);
    var j := LatestChange(items).value;
    if j >= |h.seen| {
      assert h.inbox[j - |h.seen|] == items[j];
      assert !QueuedByOther(steps, p, j - |h.seen|);
    }
  }

  lemma ManualSubscribeAnnounces(w: World, id: nat, topic: Bytes)
    requires w.hub.policy.manual && id in w.sockets && w.sockets[id].attached
    ensures var h := DoSubscribe(w, id, topic).hub;
            h == w.hub.(topics := h.topics, lastPeer := Some(id), inbox := w.hub.inbox + [Change(true, topic)])
    ensures forall k :: k in w.sockets && k != id ==>
                          k in DoSubscribe(w, id, topic).sockets && DoSubscribe(w, id, topic).sockets[k] == w.sockets[k]
  {
  }

  /** The failing input: when `b` subscribes before the application reads the announcement of `a`, the
      answer to `a` is recorded for `b`. */
  lemma AnswerMissesAsker(w: World, a: nat, b: nat, topic: Bytes)
    requires Consistent(w) && w.hub.policy.manual && w.hub.inbox == [] && w.hub.manualTopics == map[]
    requires a != b && a in w.sockets && b in w.sockets && w.sockets[a].attached && w.sockets[b].attached
    ensures var w1 := Apply(Apply(w, SubscribeTo(a, topic)), SubscribeTo(b, topic));
            var w2 := Apply(w1, XpubReceive);
            && w2.hub.seen == w.hub.seen + [Change(true, topic)] && w2.hub.inbox == [Change(true, topic)]
            && PeersOf(Apply(w2, XpubSubscribe(topic)).hub.manualTopics, topic) == {b}
  {
    hide DoSubscribe, Consistent, WithPeer;
    ManualSubscribeAnnounces(w, a, topic);
    var w0 := Apply(w, SubscribeTo(a, topic));
    ManualSubscribeAnnounces(w0, b, topic);
    var w1 := Apply(w0, SubscribeTo(b, topic));
    assert w1.hub.inbox == [Change(true, topic), Change(true, topic)];
    PeersAfterWith(map[], topic, b, topic);
  }

  /** Manual mode, two sockets, both subscribe, one announcement is read. */
  function AskedTwice(policy: Policy): seq<Step> {
    Reading.Meeting(Reading.Mode(policy, false, false)) + [SubscribeTo(1, Reading.DEMO_TOPIC)] +
    [SubscribeTo(2, Reading.DEMO_TOPIC)] + [XpubReceive]
  }

  /** The run that leads there from the start: after reading the announcement of 1, the answer is
      recorded for 2. */
  lemma AnswerMissesAskerRun(policy: Policy)
    requires policy.manual
    ensures JustRead(AskedTwice(policy), 1)
    ensures var topic := Reading.DEMO_TOPIC;
            PeersOf(Run(AskedTwice(policy) + [XpubSubscribe(topic)]).hub.manualTopics, topic) == {2}
  {
    hide Run, Consistent, DoSubscribe, Reading.Meeting, Authors, PeersOf;
    var mode, topic := Reading.Mode(policy, false, false), Reading.DEMO_TOPIC;
    var s0 := Reading.Meeting(mode);
    var s1 := s0 + [SubscribeTo(1, topic)];
    var s2 := s1 + [SubscribeTo(2, topic)];
    Reading.AfterMeeting(mode);
    RunConsistent(s0);
    AnswerMissesAsker(Run(s0), 1, 2, topic);
    RunExtend(s0, SubscribeTo(1, topic));
    RunExtend(s1, SubscribeTo(2, topic));
    RunExtend(s2, XpubReceive);
    RunExtend(s2 + [XpubReceive], XpubSubscribe(topic));
    ManualSubscribeAnnounces(Run(s0), 1, topic);
    FirstAuthor(s0, SubscribeTo(1, topic), 1);
    AuthorKept(s1, SubscribeTo(2, topic));
    AuthorKept(s2, XpubReceive);
  }

  /** The first item that a socket makes the XPUB receive has that socket as its author. */
  lemma FirstAuthor(steps: seq<Step>, step: Step, id: nat)
    requires Emitted(Run(steps).hub) == [] && BySocket(step) && step.id == id
    requires |Emitted(Run(steps + [step]).hub)| == 1
    ensures |Authors(steps + [step])| == 1 && Authors(steps + [step])[0] == id
  {
    ConcatSplit(steps, [step]);
    AuthorsComplete(steps);
    AuthorsComplete(steps + [step]);
  }

  lemma AuthorKept(steps: seq<Step>, step: Step)
    ensures |Authors(steps)| <= |Authors(steps + [step])|
    ensures forall i :: 0 <= i < |Authors(steps)| ==> Authors(steps + [step])[i] == Authors(steps)[i]
  {
    ConcatSplit(steps, [step]);
    AuthorsGrow(steps + [step]);
  }

  // Disconnecting.

  lemma {:induction false} PeersAfterForget(topics: Topics, peer: nat, order: seq<Bytes>, t: Bytes)
    ensures PeersOf(ForgetManual(topics, peer, order), t) ==
            PeersOf(topics, t) - if t in order then {peer} else {}
  {
    if order != [] {
      var front, last := order[..|order| - 1], order[|order| - 1];
      PeersAfterForget(topics, peer, front, t);
      assert t in order <==> t in front || t == last;
      PeersAfterWithout(ForgetManual(topics, peer, front), last, peer, t);
    }
  }

  lemma {:induction false} RetractKeepsManual(h: Hub, peer: nat, order: seq<Bytes>)
    ensures RetractAll(h, peer, order).manualTopics == h.manualTopics
  {
    if order != [] { RetractKeepsManual(h, peer, order[..|order| - 1]); }
  }

  /** After a disconnect a manual entry still names the socket exactly when it did before and the socket
      did not subscribe to that topic itself; every other socket keeps its entries. */
  lemma ManualEntriesAfterDisconnect(w: World, id: nat, topic: Bytes, other: nat)
    requires Consistent(w) && id in w.sockets && w.sockets[id].attached
    ensures other in PeersOf(Apply(w, Disconnect(id)).hub.manualTopics, topic) <==>
            other in PeersOf(w.hub.manualTopics, topic) && !(other == id && Holds(w, id, topic))
  {
    hide ForgetManual, RetractAll;
    var order := w.sockets[id].subs.order;
    RetractKeepsManual(w.hub, id, order);
    PeersAfterForget(w.hub.manualTopics, id, order, topic);
    assert topic in order <==> Holds(w, id, topic);
  }
}
