/** What an XPUB publishes and what each XSUB gets of it: the runs of module XpubRuns together with the
    sockets' inboxes, in attach order, under the publisher's high-water mark. */
module XpubDelivery {
  import opened Common
  import opened XpubHub
  import opened Runs = XpubRuns
  import opened Endpoint
  import Subscriptions

  /** `order` lists the attached sockets as they connected. */
  datatype Feed = Feed(
    world: World,
    order: seq<nat>,
    inboxes: map<nat, seq<Message>>,
    sndhwm: nat,
    nodrop: bool,
    welcome: Option<Bytes>)

  /** A call of a run, a publish, or a receive by the socket `id`. The step `XpubPublish` alone is a look at
      the outboxes without a message, as a poll for events does. */
  datatype Move = Act(step: Step) | Publish(message: Message) | Take(id: nat)

  function NewFeed(sndhwm: nat, nodrop: bool, welcome: Option<Bytes>): Feed {
    Feed(START, [], map[], sndhwm, nodrop, welcome)
  }

  function At(inboxes: map<nat, seq<Message>>, id: nat): seq<Message> {
    if id in inboxes then inboxes[id] else []
  }

  predicate Connects(w: World, step: Step) {
    step.Connect? && step.id in w.sockets && !w.sockets[step.id].attached
  }

  predicate Disconnects(w: World, step: Step) {
    step.Disconnect? && step.id in w.sockets && w.sockets[step.id].attached
  }

  function Greeting(f: Feed): seq<Message> {
    if f.welcome.Some? then [Message(f.welcome.value, false, 0, None)] else []
  }

  function DoAct(f: Feed, step: Step): Feed {
    f.(world := Apply(f.world, step),
       order := if Connects(f.world, step) then f.order + [step.id]
                else if Disconnects(f.world, step) then Without(f.order, step.id) else f.order,
       inboxes := if Connects(f.world, step) then f.inboxes[step.id := At(f.inboxes, step.id) + Greeting(f)]
                  else f.inboxes)
  }

  /** `matching_peers` for one attached socket. */
  ghost predicate Chosen(w: World, id: nat, data: Bytes) {
    if w.hub.policy.manual then id in ManualSelection(w.hub, data)
    else id in w.sockets && Subscriptions.Matches(w.sockets[id].subs.refs, data)
  }

  /** The sockets a message is sent to, in attach order. */
  ghost function Selected(w: World, order: seq<nat>, data: Bytes): seq<nat> {
    if order == [] then []
    else
      var last := order[|order| - 1];
      Selected(w, order[..|order| - 1], data) + if Chosen(w, last, data) then [last] else []
  }

  predicate Full(queue: seq<Message>, hwm: nat) {
    hwm > 0 && |queue| >= hwm
  }

  /** The loop of `send`: the first full inbox ends it, after those before it were served. */
  function FanOut(inboxes: map<nat, seq<Message>>, ids: seq<nat>, m: Message, hwm: nat)
    : (map<nat, seq<Message>>, Result<()>)
    decreases |ids|
  {
    if ids == [] then (inboxes, Ok(()))
    else if Full(At(inboxes, ids[0]), hwm) then (inboxes, Err(Again))
    else FanOut(inboxes[ids[0] := At(inboxes, ids[0]) + [m]], ids[1..], m, hwm)
  }

  /** `send` of the XPUB. */
  ghost function DoPublish(f: Feed, m: Message): (Feed, Result<()>) {
    var ids := Selected(f.world, f.order, m.data);
    var (inboxes, r) := FanOut(f.inboxes, ids, m, f.sndhwm);
    (f.(world := Apply(f.world, XpubPublish), inboxes := inboxes), if ids == [] && f.nodrop then Err(Again) else r)
  }

  ghost function Advance(f: Feed, move: Move): Feed {
    match move
    case Act(step) => DoAct(f, step)
    case Publish(m) => DoPublish(f, m).0
    case Take(id) => if At(f.inboxes, id) == [] then f else f.(inboxes := f.inboxes[id := f.inboxes[id][1..]])
  }

  ghost function RunFeed(begin: Feed, moves: seq<Move>): Feed {
    if moves == [] then begin else Advance(RunFeed(begin, moves[..|moves| - 1]), moves[|moves| - 1])
  }

  // The attach order.

  ghost predicate NoRepeats(s: seq<nat>) {
    forall i, j :: 0 <= i < j < |s| ==> s[i] != s[j]
  }

  /** The order lists exactly the attached sockets, each once. */
  ghost predicate Orderly(f: Feed) {
    && NoRepeats(f.order)
    && forall id :: id in f.order <==> id in f.world.sockets && f.world.sockets[id].attached
  }

  lemma {:induction false} WithoutNoRepeats(s: seq<nat>, x: nat)
    requires NoRepeats(s)
    ensures NoRepeats(Without(s, x))
  {
    if s != [] {
      WithoutNoRepeats(s[1..], x);
      assert s[0] !in s[1..];
    }
  }

  /** Only connecting, disconnecting and opening touch attachment. */
  lemma WhoIsAttached(w: World, step: Step, id: nat)
    ensures id in Apply(w, step).sockets && Apply(w, step).sockets[id].attached <==>
            (id in w.sockets && w.sockets[id].attached && !(Disconnects(w, step) && id == step.id)) ||
            (Connects(w, step) && id == step.id)
  {
    hide Subscribe, Unsubscribe, Subscriptions.Insert, Subscriptions.Remove, ReplayAll, Detach;
  }

  lemma ActOrderly(f: Feed, step: Step)
    requires Orderly(f)
    ensures Orderly(DoAct(f, step))
  {
    hide Apply;
    forall id ensures id in Apply(f.world, step).sockets && Apply(f.world, step).sockets[id].attached <==>
                      (id in f.order && !(Disconnects(f.world, step) && id == step.id)) ||
                      (Connects(f.world, step) && id == step.id)
    {
      WhoIsAttached(f.world, step, id);
    }
    if Disconnects(f.world, step) { WithoutNoRepeats(f.order, step.id); }
  }

  /** In every run the order lists exactly the attached sockets, each once. */
  lemma {:induction false} RunOrderly(begin: Feed, moves: seq<Move>)
    requires Orderly(begin)
    ensures Orderly(RunFeed(begin, moves))
  {
    if moves != [] {
      var f, move := RunFeed(begin, moves[..|moves| - 1]), moves[|moves| - 1];
      RunOrderly(begin, moves[..|moves| - 1]);
      match move
      case Act(step) => ActOrderly(f, step);
      case Publish(m) =>
        hide FanOut, Selected;
        assert Apply(f.world, XpubPublish).sockets == f.world.sockets;
      case Take(_) =>
    }
  }

  // One publish.

  lemma {:induction false} SelectedMembers(w: World, order: seq<nat>, data: Bytes, id: nat)
    ensures id in Selected(w, order, data) <==> id in order && Chosen(w, id, data)
  {
    hide Chosen;
    if order != [] {
      SelectedMembers(w, order[..|order| - 1], data, id);
      SplitConcat(order, |order| - 1);
    }
  }

  lemma {:induction false} SelectedNoRepeats(w: World, order: seq<nat>, data: Bytes)
    requires NoRepeats(order)
    ensures NoRepeats(Selected(w, order, data))
  {
    hide Chosen;
    if order != [] {
      var front, last := order[..|order| - 1], order[|order| - 1];
      SelectedNoRepeats(w, front, data);
      SelectedMembers(w, front, data, last);
      assert last !in front;
    }
  }

  /** The message gets to `id`: it is selected, and neither its inbox nor one selected before it is full. */
  ghost predicate Reaches(inboxes: map<nat, seq<Message>>, ids: seq<nat>, hwm: nat, id: nat) {
    exists i :: 0 <= i < |ids| && ids[i] == id && RoomUpTo(inboxes, ids, hwm, i)
  }

  ghost predicate RoomUpTo(inboxes: map<nat, seq<Message>>, ids: seq<nat>, hwm: nat, i: nat)
    requires i < |ids|
  {
    forall j :: 0 <= j <= i ==> HasRoom(At(inboxes, ids[j]), hwm)
  }

  /** There is no mark, or the inbox is below it. */
  predicate HasRoom(queue: seq<Message>, hwm: nat) {
    hwm == 0 || |queue| < hwm
  }

  lemma RoomIsNotFull()
    ensures forall queue: seq<Message>, hwm: nat :: Full(queue, hwm) <==> !HasRoom(queue, hwm)
  {
  }

  lemma ReachesNext(inboxes: map<nat, seq<Message>>, inboxes': map<nat, seq<Message>>, ids: seq<nat>, hwm: nat, id: nat)
    requires NoRepeats(ids) && ids != [] && !Full(At(inboxes, ids[0]), hwm)
    requires forall k: nat :: k != ids[0] ==> At(inboxes', k) == At(inboxes, k)
    ensures Reaches(inboxes, ids, hwm, id) <==> id == ids[0] || Reaches(inboxes', ids[1..], hwm, id)
    ensures Reaches(inboxes', ids[1..], hwm, id) ==> id != ids[0]
  {
    hide Full, HasRoom;
    RoomIsNotFull();
    var rest := ids[1..];
    forall i | 0 <= i < |rest| ensures RoomUpTo(inboxes', rest, hwm, i) <==> RoomUpTo(inboxes, ids, hwm, i + 1) {
      assert forall j :: 0 <= j < |rest| ==> rest[j] == ids[j + 1] && rest[j] != ids[0];
      if RoomUpTo(inboxes', rest, hwm, i) {
        forall j | 0 <= j <= i + 1 ensures !Full(At(inboxes, ids[j]), hwm) {
          if j > 0 { assert !Full(At(inboxes', rest[j - 1]), hwm); }
        }
      }
      if RoomUpTo(inboxes, ids, hwm, i + 1) {
        forall j | 0 <= j <= i ensures !Full(At(inboxes', rest[j]), hwm) {
          assert !Full(At(inboxes, ids[j + 1]), hwm);
        }
      }
    }
    if Reaches(inboxes, ids, hwm, id) {
      var i :| 0 <= i < |ids| && ids[i] == id && RoomUpTo(inboxes, ids, hwm, i);
      if i > 0 { assert rest[i - 1] == id && RoomUpTo(inboxes', rest, hwm, i - 1); }
    }
    if id == ids[0] { assert RoomUpTo(inboxes, ids, hwm, 0); }
    if Reaches(inboxes', rest, hwm, id) {
      var i :| 0 <= i < |rest| && rest[i] == id && RoomUpTo(inboxes', rest, hwm, i);
      assert ids[i + 1] == id && RoomUpTo(inboxes, ids, hwm, i + 1);
    }
  }

  /** The loop adds one copy to exactly the inboxes that the message reaches, and succeeds exactly when no
      selected inbox is full. */
  lemma {:induction false} FanOutReaches(inboxes: map<nat, seq<Message>>, ids: seq<nat>, m: Message, hwm: nat, id: nat)
    requires NoRepeats(ids)
    ensures At(FanOut(inboxes, ids, m, hwm).0, id) ==
            At(inboxes, id) + if Reaches(inboxes, ids, hwm, id) then [m] else []
    ensures FanOut(inboxes, ids, m, hwm).1 ==
            if forall i :: 0 <= i < |ids| ==> HasRoom(At(inboxes, ids[i]), hwm) then Ok(()) else Err(Again)
    decreases |ids|
  {
    hide Full, HasRoom, Reaches;
    RoomIsNotFull();
    if ids == [] {
      assert !Reaches(inboxes, ids, hwm, id) by { NobodyToReach(inboxes, hwm, id); }
      ConcatEmpty(At(inboxes, id));
    } else if Full(At(inboxes, ids[0]), hwm) {
      assert !Reaches(inboxes, ids, hwm, id) by { FirstIsFull(inboxes, ids, hwm, id); }
      ConcatEmpty(At(inboxes, id));
    } else {
      var inboxes' := inboxes[ids[0] := At(inboxes, ids[0]) + [m]];
      FanOutReaches(inboxes', ids[1..], m, hwm, id);
      ReachesNext(inboxes, inboxes', ids, hwm, id);
      assert forall i :: 0 < i < |ids| ==> ids[i] == ids[1..][i - 1] && At(inboxes', ids[i]) == At(inboxes, ids[i]);
      ConcatEmpty(At(inboxes', id));
    }
  }

  lemma NobodyToReach(inboxes: map<nat, seq<Message>>, hwm: nat, id: nat)
    ensures !Reaches(inboxes, [], hwm, id)
  {
  }

  lemma FirstIsFull(inboxes: map<nat, seq<Message>>, ids: seq<nat>, hwm: nat, id: nat)
    requires ids != [] && Full(At(inboxes, ids[0]), hwm)
    ensures !Reaches(inboxes, ids, hwm, id)
  {
    hide Full, HasRoom;
    RoomIsNotFull();
    forall i | 0 <= i < |ids| ensures !RoomUpTo(inboxes, ids, hwm, i) {
    }
  }

  // What each socket gets.

  /** What one move owes to the socket `id`: a greeting if it connects, or a published message that
      reaches it. */
  ghost function OwedBy(f: Feed, move: Move, id: nat): seq<Message> {
    match move
    case Act(step) => if Connects(f.world, step) && step.id == id then Greeting(f) else []
    case Publish(m) => if Reaches(f.inboxes, Selected(f.world, f.order, m.data), f.sndhwm, id) then [m] else []
    case Take(_) => []
  }

  /** Everything the socket `id` is owed: a greeting for each time it connected, and each published message
      that reached it. */
  ghost function Owed(begin: Feed, moves: seq<Move>, id: nat): seq<Message> {
    if moves == [] then []
    else
      var before, move := moves[..|moves| - 1], moves[|moves| - 1];
      Owed(begin, before, id) + OwedBy(RunFeed(begin, before), move, id)
  }

  /** The messages the socket has received. */
  ghost function TakenBy(begin: Feed, moves: seq<Move>, id: nat): seq<Message> {
    if moves == [] then []
    else
      var before, move := moves[..|moves| - 1], moves[|moves| - 1];
      var queue := At(RunFeed(begin, before).inboxes, id);
      TakenBy(begin, before, id) + if move == Take(id) && queue != [] then [queue[0]] else []
  }

  lemma ActDelivers(f: Feed, step: Step, id: nat)
    ensures At(DoAct(f, step).inboxes, id) == At(f.inboxes, id) + OwedBy(f, Act(step), id)
  {
    hide Apply;
    ConcatEmpty(At(f.inboxes, id));
  }

  lemma PublishDelivers(f: Feed, m: Message, id: nat)
    requires Orderly(f)
    ensures At(DoPublish(f, m).0.inboxes, id) == At(f.inboxes, id) + OwedBy(f, Publish(m), id)
  {
    hide Apply, FanOut, Selected, Reaches;
    SelectedNoRepeats(f.world, f.order, m.data);
    FanOutReaches(f.inboxes, Selected(f.world, f.order, m.data), m, f.sndhwm, id);
  }

  lemma TakeDelivers(f: Feed, taker: nat, id: nat)
    ensures var queue, queue' := At(f.inboxes, id), At(Advance(f, Take(taker)).inboxes, id);
            queue == (if taker == id && queue != [] then [queue[0]] else []) + queue'
  {
    var queue := At(f.inboxes, id);
    ConcatEmpty(queue);
    if queue != [] { assert queue == [queue[0]] + queue[1..]; }
  }

  /** A move adds to an inbox what it owes, and only a receive takes from it, at the front. */
  lemma MoveDelivers(f: Feed, move: Move, id: nat)
    requires Orderly(f)
    ensures var queue, queue' := At(f.inboxes, id), At(Advance(f, move).inboxes, id);
            if move == Take(id) && queue != [] then queue == [queue[0]] + queue'
            else queue' == queue + OwedBy(f, move, id)
  {
    match move
    case Act(step) =>
      hide At, DoAct, OwedBy;
      ActDelivers(f, step, id);
    case Publish(m) =>
      hide At, DoPublish, OwedBy;
      PublishDelivers(f, m, id);
    case Take(taker) =>
      TakeDelivers(f, taker, id);
      hide At, Advance;
      ConcatEmpty(At(f.inboxes, id));
      ConcatEmpty(At(Advance(f, move).inboxes, id));
  }

  /** In every run, what a socket was owed is what it has received followed by what is queued for it, in
      order: nothing is lost, repeated, reordered or misdirected. */
  lemma {:induction false} EachGetsItsOwn(begin: Feed, moves: seq<Move>, id: nat)
    requires Orderly(begin) && begin.inboxes == map[]
    ensures Owed(begin, moves, id) == TakenBy(begin, moves, id) + At(RunFeed(begin, moves).inboxes, id)
  {
    if moves != [] {
      var before, move := moves[..|moves| - 1], moves[|moves| - 1];
      var f := RunFeed(begin, before);
      EachGetsItsOwn(begin, before, id);
      RunOrderly(begin, before);
      MoveDelivers(f, move, id);
      hide Advance, Reaches, Selected, Greeting;
      var taken, queue := TakenBy(begin, before, id), At(f.inboxes, id);
      var queue' := At(RunFeed(begin, moves).inboxes, id);
      if move == Take(id) && queue != [] {
        ConcatAssociative(taken, [queue[0]], queue');
        ConcatEmpty(taken + queue);
      } else {
        ConcatAssociative(taken, queue, OwedBy(f, move, id));
        ConcatEmpty(taken);
      }
    }
  }

  // Who is selected.

  lemma {:induction false} RunFeedConsistent(begin: Feed, moves: seq<Move>)
    requires Consistent(begin.world)
    ensures Consistent(RunFeed(begin, moves).world)
  {
    if moves != [] {
      RunFeedConsistent(begin, moves[..|moves| - 1]);
      hide Consistent, Apply;
      var f, move := RunFeed(begin, moves[..|moves| - 1]), moves[|moves| - 1];
      match move
      case Act(step) => ApplyConsistent(f.world, step);
      case Publish(_) => ApplyConsistent(f.world, XpubPublish);
      case Take(_) =>
    }
  }

  /** Without manual mode a message is sent to exactly the attached sockets whose own index matches it, and
      these are exactly the ones the topic table lists under a prefix of it. */
  lemma SelectedBySubscription(f: Feed, data: Bytes, id: nat)
    requires Orderly(f) && Consistent(f.world) && !f.world.hub.policy.manual
    ensures id in Selected(f.world, f.order, data) <==>
            && id in f.world.sockets && f.world.sockets[id].attached
            && Subscriptions.Matches(f.world.sockets[id].subs.refs, data)
    ensures id in Selected(f.world, f.order, data) <==>
            exists topic :: topic <= data && id in PeersOf(f.world.hub.topics, topic)
  {
    hide Selected, Subscriptions.WellFormed;
    SelectedMembers(f.world, f.order, data, id);
    if exists topic :: topic <= data && id in PeersOf(f.world.hub.topics, topic) {
      var topic :| topic <= data && id in PeersOf(f.world.hub.topics, topic);
      assert Holds(f.world, id, topic);
    }
    if id in Selected(f.world, f.order, data) {
      var topic :| topic in f.world.sockets[id].subs.refs && topic <= data;
      assert Holds(f.world, id, topic);
    }
  }

  /** In manual mode it is sent to exactly the attached sockets that hold an accepted prefix of it; in
      last-value mode, while there is a last peer, only to that one. */
  lemma SelectedByAnswer(f: Feed, data: Bytes, id: nat)
    requires Orderly(f) && f.world.hub.policy.manual
    ensures var h := f.world.hub;
            id in Selected(f.world, f.order, data) <==>
            && id in f.world.sockets && f.world.sockets[id].attached
            && (exists topic :: topic <= data && id in PeersOf(h.manualTopics, topic))
            && (h.policy.manualLastValue && h.lastPeer.Some? ==> id == h.lastPeer.value)
  {
    hide Selected;
    SelectedMembers(f.world, f.order, data, id);
    ManualMatchesMeaning(f.world.hub.manualTopics, data, id);
  }

  lemma ManualMatchesMeaning(topics: Topics, data: Bytes, id: nat)
    ensures id in ManualMatches(topics, data) <==> exists topic :: topic <= data && id in PeersOf(topics, topic)
  {
    if exists topic :: topic <= data && id in PeersOf(topics, topic) {
      var topic :| topic <= data && id in PeersOf(topics, topic);
      assert topic in topics && id in topics[topic];
    }
    if id in ManualMatches(topics, data) {
      var topic :| topic in topics && topic <= data && id in topics[topic];
      assert id in PeersOf(topics, topic);
    }
  }

  /** Without a high-water mark everyone selected is reached. */
  lemma UnlimitedReaches(inboxes: map<nat, seq<Message>>, ids: seq<nat>, id: nat)
    ensures Reaches(inboxes, ids, 0, id) <==> id in ids
  {
    if id in ids {
      var i :| 0 <= i < |ids| && ids[i] == id;
      assert RoomUpTo(inboxes, ids, 0, i);
    }
  }

  /** In every run of an XPUB without manual mode and high-water mark, a publish reaches exactly the attached
      sockets whose subscriptions match it, and succeeds unless it reaches nobody and must not be dropped. */
  lemma PublishReachesSubscribers(begin: Feed, moves: seq<Move>, m: Message, id: nat)
    requires Orderly(begin) && Consistent(begin.world) && begin.sndhwm == 0
    requires !RunFeed(begin, moves).world.hub.policy.manual
    ensures var f := RunFeed(begin, moves);
            var wanted := id in f.world.sockets && f.world.sockets[id].attached &&
                          Subscriptions.Matches(f.world.sockets[id].subs.refs, m.data);
            At(DoPublish(f, m).0.inboxes, id) == At(f.inboxes, id) + if wanted then [m] else []
    ensures var f := RunFeed(begin, moves);
            DoPublish(f, m).1.Ok? <==> !(f.nodrop && Selected(f.world, f.order, m.data) == [])
  {
    hide RunFeed, FanOut, Selected, Reaches, Apply, Consistent;
    var f := RunFeed(begin, moves);
    RunOrderly(begin, moves);
    RunFeedConsistent(begin, moves);
    MarkStays(begin, moves);
    SelectedBySubscription(f, m.data, id);
    MoveDelivers(f, Publish(m), id);
    UnlimitedReaches(f.inboxes, Selected(f.world, f.order, m.data), id);
    SelectedNoRepeats(f.world, f.order, m.data);
    FanOutReaches(f.inboxes, Selected(f.world, f.order, m.data), m, 0, id);
  }

  lemma {:induction false} MarkStays(begin: Feed, moves: seq<Move>)
    ensures RunFeed(begin, moves).sndhwm == begin.sndhwm
  {
    if moves != [] { MarkStays(begin, moves[..|moves| - 1]); }
  }

  // The runs without inboxes.

  /** The calls behind the moves: a publish looks at the outboxes, a receive is no call on the endpoint. */
  function StepsOf(moves: seq<Move>): seq<Step> {
    if moves == [] then []
    else
      var move := moves[|moves| - 1];
      StepsOf(moves[..|moves| - 1]) +
      match move
      case Act(step) => [step]
      case Publish(_) => [XpubPublish]
      case Take(_) => []
  }

  /** The world of a run with inboxes is that of the run of its calls, so every theorem about runs is one
      about these. */
  lemma {:induction false} WorldIsRun(sndhwm: nat, nodrop: bool, welcome: Option<Bytes>, moves: seq<Move>)
    ensures RunFeed(NewFeed(sndhwm, nodrop, welcome), moves).world == Run(StepsOf(moves))
  {
    if moves != [] {
      var before, move := moves[..|moves| - 1], moves[|moves| - 1];
      WorldIsRun(sndhwm, nodrop, welcome, before);
      hide Apply;
      match move
      case Act(step) => RunExtend(StepsOf(before), step);
      case Publish(_) => RunExtend(StepsOf(before), XpubPublish);
      case Take(_) => ConcatEmpty(StepsOf(before));
    }
  }
}
