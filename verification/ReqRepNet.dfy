/** Any number of strict REQ sockets connected in-process to one bound REP, exchanging single-frame
    messages: the send and recv paths of socket.rs with their routing ids. */
module ReqRepNet {
  import opened Common
  import opened Pattern
  import SocketTypes

  datatype Msg = Msg(data: Bytes, routingId: nat)

  /** `asked` and `log` are history: the last request sent, and the completed exchanges. */
  datatype Requester = Requester(
    state: PatternState, inbox: seq<Msg>, asked: Bytes, log: seq<(Bytes, Bytes)>, hwm: nat)

  /** `held` and `log` are history: the request being answered, and every (requester, request, reply). */
  datatype Replier = Replier(
    state: PatternState,
    inbox: seq<Msg>,
    lastRoutingId: Option<nat>,
    held: Bytes,
    log: seq<(nat, Bytes, Bytes)>)

  /** `peers` lists the attached requesters in attach order. */
  datatype Net = Net(rep: Replier, reqs: map<nat, Requester>, peers: seq<nat>, repHwm: nat)

  datatype Step =
    | Join(id: nat, hwm: nat)
    | Ask(id: nat, data: Bytes)
    | TakeRequest
    | Reply(data: Bytes)
    | TakeReply(id: nat)

  function Start(repHwm: nat): Net {
    Net(Replier(ReadyToRecv, [], None, [], []), map[], [], repHwm)
  }

  predicate Full(queue: seq<Msg>, hwm: nat) {
    hwm > 0 && |queue| >= hwm
  }

  /** A new REQ socket connects; socket ids are positive and below 2^32. */
  function DoJoin(n: Net, id: nat, hwm: nat): (Net, Result<()>) {
    if id == 0 || id >= U32_LIMIT || id in n.reqs then (n, Err(InvalidArgument))
    else (n.(reqs := n.reqs[id := Requester(ReadyToSend, [], [], [], hwm)], peers := n.peers + [id]), Ok(()))
  }

  /** `send` on a REQ: the message is stamped with the sender's id. */
  function DoAsk(n: Net, id: nat, data: Bytes): (Net, Result<()>)
    requires id in n.reqs
  {
    var q := n.reqs[id];
    var guard := CanSend(SocketTypes.Req, Some(q.state), false);
    if guard.Err? then (n, guard)
    else if Full(n.rep.inbox, q.hwm) then (n, Err(Again))
    else
      var state := AfterSend(SocketTypes.Req, Some(q.state), false, false).0.value;
      (n.(rep := n.rep.(inbox := n.rep.inbox + [Msg(data, id % U32_LIMIT)]),
          reqs := n.reqs[id := q.(state := state, asked := data)]), Ok(()))
  }

  /** `recv` on the REP: a non-zero routing id is remembered for the reply. */
  function DoTakeRequest(n: Net): (Net, Result<()>) {
    var guard := CanRecv(SocketTypes.Rep, Some(n.rep.state));
    if guard.Err? then (n, guard)
    else if n.rep.inbox == [] then (n, Err(Again))
    else
      var m := n.rep.inbox[0];
      var state := AfterRecv(SocketTypes.Rep, Some(n.rep.state), false).0.value;
      (n.(rep := n.rep.(
            state := state,
            inbox := n.rep.inbox[1..],
            lastRoutingId := if m.routingId != 0 then Some(m.routingId) else n.rep.lastRoutingId,
            held := m.data)), Ok(()))
  }

  /** The routing id stamped on a reply; zero when none is remembered. */
  function ReplyRoutingId(n: Net): nat {
    if n.rep.lastRoutingId.Some? then n.rep.lastRoutingId.value else 0
  }

  /** Where a reply goes: to the remembered routing id, or to the first peer if there is none. */
  function Destination(n: Net): Option<nat> {
    var routingId := ReplyRoutingId(n);
    if routingId != 0 then if routingId in n.peers then Some(routingId) else None
    else if n.peers != [] then Some(n.peers[0]) else None
  }

  /** `send` on the REP. */
  function DoReply(n: Net, data: Bytes): (Net, Result<()>) {
    var guard := CanSend(SocketTypes.Rep, Some(n.rep.state), false);
    if guard.Err? then (n, guard)
    else
      match Destination(n)
      case None => (n, Err(Again))
      case Some(id) =>
        if id !in n.reqs || Full(n.reqs[id].inbox, n.repHwm) then (n, Err(Again))
        else
          var q := n.reqs[id];
          var state := AfterSend(SocketTypes.Rep, Some(n.rep.state), false, false).0.value;
          (n.(rep := n.rep.(state := state, log := n.rep.log + [(id, n.rep.held, data)]),
              reqs := n.reqs[id := q.(inbox := q.inbox + [Msg(data, ReplyRoutingId(n))])]), Ok(()))
  }

  /** `recv` on a REQ. */
  function DoTakeReply(n: Net, id: nat): (Net, Result<()>)
    requires id in n.reqs
  {
    var q := n.reqs[id];
    var guard := CanRecv(SocketTypes.Req, Some(q.state));
    if guard.Err? then (n, guard)
    else if q.inbox == [] then (n, Err(Again))
    else
      var state := AfterRecv(SocketTypes.Req, Some(q.state), false).0.value;
      var log := q.log + [(q.asked, q.inbox[0].data)];
      (n.(reqs := n.reqs[id := q.(state := state, inbox := q.inbox[1..], log := log)]), Ok(()))
  }

  function Apply(n: Net, step: Step): (Net, Result<()>) {
    match step
    case Join(id, hwm) => DoJoin(n, id, hwm)
    case Ask(id, data) => if id in n.reqs then DoAsk(n, id, data) else (n, Err(InvalidSocket))
    case TakeRequest => DoTakeRequest(n)
    case Reply(data) => DoReply(n, data)
    case TakeReply(id) => if id in n.reqs then DoTakeReply(n, id) else (n, Err(InvalidSocket))
  }

  function Run(repHwm: nat, steps: seq<Step>): Net {
    if steps == [] then Start(repHwm)
    else Apply(Run(repHwm, steps[..|steps| - 1]), steps[|steps| - 1]).0
  }

  /** Requests of one requester in the REP's inbox. */
  function Queued(inbox: seq<Msg>, id: nat): nat {
    if inbox == [] then 0 else (if inbox[0].routingId == id then 1 else 0) + Queued(inbox[1..], id)
  }

  function Held(rep: Replier, id: nat): nat {
    if rep.state == ReadyToSend && rep.lastRoutingId == Some(id) then 1 else 0
  }

  predicate Waiting(q: Requester) {
    q.state == ReadyToRecv
  }

  /** The exchanges the REP has had with one requester. */
  function ExchangesWith(log: seq<(nat, Bytes, Bytes)>, id: nat): seq<(Bytes, Bytes)> {
    if log == [] then []
    else
      var last := log[|log| - 1];
      ExchangesWith(log[..|log| - 1], id) + if last.0 == id then [(last.1, last.2)] else []
  }

  /** What the exchanges with a requester must be: those it has completed, and the one whose reply is
      in its inbox. */
  function Served(q: Requester): seq<(Bytes, Bytes)> {
    q.log + if q.inbox == [] then [] else [(q.asked, q.inbox[0].data)]
  }

  ghost predicate Known(n: Net) {
    && (forall id :: id in n.reqs ==> 0 < id < U32_LIMIT && id in n.peers)
    && (forall i :: 0 <= i < |n.rep.inbox| ==> n.rep.inbox[i].routingId in n.reqs)
    && (n.rep.state == ReadyToSend ==> n.rep.lastRoutingId.Some? && n.rep.lastRoutingId.value in n.reqs)
  }

  /** Each requester has exactly one message in flight while it waits, and none otherwise. */
  ghost predicate OneInFlight(n: Net) {
    forall id :: id in n.reqs ==>
                   Queued(n.rep.inbox, id) + Held(n.rep, id) + |n.reqs[id].inbox| ==
                   if Waiting(n.reqs[id]) then 1 else 0
  }

  /** Requests in flight carry what their sender asked, and replies reach the one who asked. */
  ghost predicate Faithful(n: Net) {
    && (forall i :: 0 <= i < |n.rep.inbox| && n.rep.inbox[i].routingId in n.reqs ==>
                      n.rep.inbox[i].data == n.reqs[n.rep.inbox[i].routingId].asked)
    && (forall id :: id in n.reqs && Held(n.rep, id) == 1 ==> n.rep.held == n.reqs[id].asked)
    && (forall id :: id in n.reqs ==> ExchangesWith(n.rep.log, id) == Served(n.reqs[id]))
    && (forall id :: id !in n.reqs ==> ExchangesWith(n.rep.log, id) == [])
  }

  ghost predicate Sound(n: Net) {
    Known(n) && OneInFlight(n) && Faithful(n)
  }

  lemma {:induction false} QueuedAppend(inbox: seq<Msg>, m: Msg, id: nat)
    ensures Queued(inbox + [m], id) == Queued(inbox, id) + if m.routingId == id then 1 else 0
  {
    if inbox != [] {
      QueuedAppend(inbox[1..], m, id);
      assert (inbox + [m])[1..] == inbox[1..] + [m];
    }
  }

  lemma {:induction false} QueuedPresent(inbox: seq<Msg>, i: nat)
    requires i < |inbox|
    ensures Queued(inbox, inbox[i].routingId) > 0
  {
    if i > 0 { QueuedPresent(inbox[1..], i - 1); }
  }

  lemma {:induction false} QueuedNone(inbox: seq<Msg>, id: nat)
    requires forall i :: 0 <= i < |inbox| ==> inbox[i].routingId != id
    ensures Queued(inbox, id) == 0
  {
    if inbox != [] { QueuedNone(inbox[1..], id); }
  }

  lemma ExchangesAppend(log: seq<(nat, Bytes, Bytes)>, e: (nat, Bytes, Bytes), id: nat)
    ensures ExchangesWith(log + [e], id) == ExchangesWith(log, id) + if e.0 == id then [(e.1, e.2)] else []
  {
    ConcatSplit(log, [e]);
  }

  lemma JoinSound(n: Net, id: nat, hwm: nat)
    requires Sound(n) && id !in n.reqs && 0 < id < U32_LIMIT
    ensures Sound(DoJoin(n, id, hwm).0)
  {
    hide ExchangesWith, Queued;
    var n' := DoJoin(n, id, hwm).0;
    QueuedNone(n.rep.inbox, id);
    assert forall k :: k in n'.reqs && k != id ==> n'.reqs[k] == n.reqs[k];
    assert id in n'.peers;
  }

  lemma AskSound(n: Net, id: nat, data: Bytes)
    requires Sound(n) && id in n.reqs && DoAsk(n, id, data).1.Ok?
    ensures Sound(DoAsk(n, id, data).0)
  {
    hide ExchangesWith, Queued;
    var n', m := DoAsk(n, id, data).0, Msg(data, id);
    assert n'.rep.inbox == n.rep.inbox + [m];
    forall k ensures Queued(n'.rep.inbox, k) == Queued(n.rep.inbox, k) + if k == id then 1 else 0 {
      QueuedAppend(n.rep.inbox, m, k);
    }
    forall i | 0 <= i < |n.rep.inbox| ensures n.rep.inbox[i].routingId != id {
      QueuedPresent(n.rep.inbox, i);
    }
  }

  lemma TakeRequestSound(n: Net)
    requires Sound(n) && DoTakeRequest(n).1.Ok?
    ensures Sound(DoTakeRequest(n).0)
  {
    hide ExchangesWith;
    var n', m := DoTakeRequest(n).0, n.rep.inbox[0];
    assert m.routingId in n.reqs && m.routingId != 0;
    forall k ensures Queued(n'.rep.inbox, k) + Held(n'.rep, k) == Queued(n.rep.inbox, k) + Held(n.rep, k) {
    }
    assert forall i :: 0 <= i < |n'.rep.inbox| ==> n'.rep.inbox[i] == n.rep.inbox[i + 1];
  }

  lemma ReplyGoesToAsker(n: Net, data: Bytes)
    requires Sound(n) && n.rep.state == ReadyToSend
    ensures var id := n.rep.lastRoutingId.value;
            id in n.reqs && Destination(n) == Some(id) && n.reqs[id].inbox == [] && DoReply(n, data).1.Ok?
  {
    hide ExchangesWith, Queued, Faithful;
    assert Held(n.rep, n.rep.lastRoutingId.value) == 1;
  }

  lemma ReplySound(n: Net, data: Bytes)
    requires Sound(n) && n.rep.state == ReadyToSend
    ensures Sound(DoReply(n, data).0)
  {
    hide ExchangesWith, Queued;
    ReplyGoesToAsker(n, data);
    var id, n' := n.rep.lastRoutingId.value, DoReply(n, data).0;
    forall k ensures ExchangesWith(n'.rep.log, k) ==
                     ExchangesWith(n.rep.log, k) + if k == id then [(n.rep.held, data)] else []
    {
      ExchangesAppend(n.rep.log, (id, n.rep.held, data), k);
    }
    ConcatEmpty(n.reqs[id].log);
    assert n'.reqs[id].inbox == [Msg(data, id)];
  }

  lemma TakeReplySound(n: Net, id: nat)
    requires Sound(n) && id in n.reqs && DoTakeReply(n, id).1.Ok?
    ensures Sound(DoTakeReply(n, id).0)
  {
    hide ExchangesWith, Queued;
    var q := n.reqs[id];
    assert |q.inbox| == 1;
    assert q.inbox[1..] == [];
    ConcatEmpty(q.log + [(q.asked, q.inbox[0].data)]);
  }

  /** Every call keeps the network sound; a failed call changes nothing. */
  lemma ApplySound(n: Net, step: Step)
    requires Sound(n)
    ensures Sound(Apply(n, step).0)
    ensures Apply(n, step).1.Err? ==> Apply(n, step).0 == n
  {
    hide Sound;
    if Apply(n, step).1.Ok? {
      match step
      case Join(id, hwm) => JoinSound(n, id, hwm);
      case Ask(id, data) => AskSound(n, id, data);
      case TakeRequest => TakeRequestSound(n);
      case Reply(data) => ReplySound(n, data);
      case TakeReply(id) => TakeReplySound(n, id);
    }
  }

  /** In every run, each requester has one message in flight exactly while it waits, and the exchanges
      the REP has had with it are those it has completed plus the reply it has not picked up. */
  lemma {:induction false} RunSound(repHwm: nat, steps: seq<Step>)
    ensures Sound(Run(repHwm, steps))
  {
    if steps != [] {
      hide Sound;
      RunSound(repHwm, steps[..|steps| - 1]);
      ApplySound(Run(repHwm, steps[..|steps| - 1]), steps[|steps| - 1]);
    }
  }

  /** No deadlock: while anyone waits, a receive or reply step succeeds, and a reply always fits. */
  lemma SomeoneCanMove(repHwm: nat, steps: seq<Step>, id: nat, data: Bytes)
    requires var n := Run(repHwm, steps); id in n.reqs && Waiting(n.reqs[id])
    ensures var n := Run(repHwm, steps);
            || Apply(n, TakeRequest).1.Ok?
            || Apply(n, Reply(data)).1.Ok?
            || Apply(n, TakeReply(id)).1.Ok?
  {
    hide Run, ExchangesWith, Faithful;
    var n := Run(repHwm, steps);
    RunSound(repHwm, steps);
    if n.rep.state == ReadyToSend {
      ReplyGoesToAsker(n, data);
    } else if n.rep.inbox == [] {
      assert Queued(n.rep.inbox, id) == 0;
      assert |n.reqs[id].inbox| == 1;
    }
  }

  /** A requester's completed exchanges are, in order, the REP's exchanges with it; only the last one
      may still be on its way. */
  lemma RepliesAnswerRequests(repHwm: nat, steps: seq<Step>, id: nat)
    requires id in Run(repHwm, steps).reqs
    ensures var n := Run(repHwm, steps);
            && n.reqs[id].log <= ExchangesWith(n.rep.log, id)
            && |ExchangesWith(n.rep.log, id)| <= |n.reqs[id].log| + 1
            && (!Waiting(n.reqs[id]) ==> n.reqs[id].log == ExchangesWith(n.rep.log, id))
  {
    hide Run, ExchangesWith;
    RunSound(repHwm, steps);
    ConcatEmpty(Run(repHwm, steps).reqs[id].log);
  }

  /** A REP that keeps receiving and answering until its inbox is empty; its i-th reply ever is
      `replies(i)`, whatever that is. */
  function Drain(n: Net, replies: nat -> Bytes): Net
    decreases 2 * |n.rep.inbox| + if n.rep.state == ReadyToSend then 1 else 0
  {
    if n.rep.state == ReadyToSend then
      var (n', r) := DoReply(n, replies(|n.rep.log|));
      if r.Ok? then Drain(n', replies) else n
    else if n.rep.inbox == [] then n
    else Drain(DoTakeRequest(n).0, replies)
  }

  /** The exchanges since `log`, each with the reply of its place. */
  ghost predicate AnsweredSince(log: seq<(nat, Bytes, Bytes)>, log': seq<(nat, Bytes, Bytes)>, replies: nat -> Bytes) {
    log <= log' && forall i :: |log| <= i < |log'| ==> log'[i].2 == replies(i)
  }

  /** The same sockets are attached, and the same ones wait. */
  ghost predicate SameWaiters(n: Net, n': Net) {
    && n'.reqs.Keys == n.reqs.Keys
    && forall id :: id in n.reqs ==> Waiting(n'.reqs[id]) == Waiting(n.reqs[id])
  }

  lemma StepsKeepWaiters(n: Net, data: Bytes)
    ensures SameWaiters(n, DoReply(n, data).0) && SameWaiters(n, DoTakeRequest(n).0)
    ensures var (n', r) := DoReply(n, data);
            n.rep.state == ReadyToSend && r.Ok? ==>
              && n'.rep.inbox == n.rep.inbox && n'.rep.state == ReadyToRecv
              && |n'.rep.log| == |n.rep.log| + 1 && n.rep.log <= n'.rep.log && n'.rep.log[|n.rep.log|].2 == data
    ensures n.rep.state == ReadyToRecv && n.rep.inbox != [] ==>
              && DoTakeRequest(n).1.Ok? && |DoTakeRequest(n).0.rep.inbox| == |n.rep.inbox| - 1
              && DoTakeRequest(n).0.rep.log == n.rep.log
  {
  }

  ghost predicate RepliesReady(n: Net) {
    forall id :: id in n.reqs && Waiting(n.reqs[id]) ==> DoTakeReply(n, id).1.Ok?
  }

  lemma NothingLeftToAnswer(n: Net)
    requires Sound(n) && n.rep.state == ReadyToRecv && n.rep.inbox == []
    ensures RepliesReady(n)
  {
    hide Faithful;
    assert forall id :: Queued(n.rep.inbox, id) == 0;
  }

  /** Such a REP gets its replies to every requester that waits, whatever was queued and whatever it
      answers. */
  lemma {:induction false} DrainServesEveryone(n: Net, replies: nat -> Bytes)
    requires Sound(n)
    ensures var n' := Drain(n, replies);
            && Sound(n') && SameWaiters(n, n') && RepliesReady(n') && AnsweredSince(n.rep.log, n'.rep.log, replies)
    decreases 2 * |n.rep.inbox| + if n.rep.state == ReadyToSend then 1 else 0
  {
    hide Sound, RepliesReady, DoReply, DoTakeRequest;
    var data := replies(|n.rep.log|);
    StepsKeepWaiters(n, data);
    if n.rep.state == ReadyToSend {
      ReplyGoesToAsker(n, data);
      ReplySound(n, data);
      DrainServesEveryone(DoReply(n, data).0, replies);
    } else if n.rep.inbox != [] {
      TakeRequestSound(n);
      DrainServesEveryone(DoTakeRequest(n).0, replies);
    } else {
      NothingLeftToAnswer(n);
    }
  }

  // Which calls succeed, and in which order requests are answered.

  /** A request is accepted exactly if the socket is not waiting and the REP's queue is below the mark. */
  lemma AskSucceedsIff(n: Net, id: nat, data: Bytes)
    requires id in n.reqs
    ensures var q := n.reqs[id];
            DoAsk(n, id, data).1 ==
            if q.state == ReadyToRecv then Err(InvalidState)
            else if q.hwm == 0 || |n.rep.inbox| < q.hwm then Ok(()) else Err(Again)
    ensures DoTakeReply(n, id).1 ==
            if n.reqs[id].state == ReadyToSend then Err(InvalidState)
            else if |n.reqs[id].inbox| > 0 then Ok(()) else Err(Again)
    ensures DoTakeRequest(n).1 ==
            if n.rep.state == ReadyToSend then Err(InvalidState)
            else if |n.rep.inbox| > 0 then Ok(()) else Err(Again)
  {
  }

  /** Every request ever accepted, with its sender, in order. */
  function Asked(repHwm: nat, steps: seq<Step>): seq<(nat, Bytes)> {
    if steps == [] then []
    else
      var before, step := steps[..|steps| - 1], steps[|steps| - 1];
      Asked(repHwm, before) +
      if step.Ask? && Apply(Run(repHwm, before), step).1.Ok? then [(step.id, step.data)] else []
  }

  function Answered(log: seq<(nat, Bytes, Bytes)>): (r: seq<(nat, Bytes)>)
    ensures |r| == |log|
  {
    seq(|log|, i requires 0 <= i < |log| => (log[i].0, log[i].1))
  }

  function Pending(inbox: seq<Msg>): (r: seq<(nat, Bytes)>)
    ensures |r| == |inbox|
  {
    seq(|inbox|, i requires 0 <= i < |inbox| => (inbox[i].routingId, inbox[i].data))
  }

  function InHand(rep: Replier): seq<(nat, Bytes)> {
    if rep.state == ReadyToSend && rep.lastRoutingId.Some? then [(rep.lastRoutingId.value, rep.held)] else []
  }

  /** The requests the REP has answered, the one it holds, and those queued. */
  function Accounted(rep: Replier): seq<(nat, Bytes)> {
    Answered(rep.log) + InHand(rep) + Pending(rep.inbox)
  }

  lemma StepAccounts(n: Net, step: Step)
    requires Sound(n)
    ensures Accounted(Apply(n, step).0.rep) ==
            Accounted(n.rep) + if step.Ask? && Apply(n, step).1.Ok? then [(step.id, step.data)] else []
  {
    hide ExchangesWith, Queued, Faithful, OneInFlight;
    var (n', r) := Apply(n, step);
    ConcatEmpty(Accounted(n.rep));
    if r.Ok? {
      match step
      case Join(_, _) =>
      case Ask(id, data) =>
        assert n'.rep.inbox == n.rep.inbox + [Msg(data, id)];
        assert Pending(n'.rep.inbox) == Pending(n.rep.inbox) + [(id, data)];
        ConcatAssociative(Answered(n.rep.log) + InHand(n.rep), Pending(n.rep.inbox), [(id, data)]);
      case TakeRequest =>
        var m := n.rep.inbox[0];
        assert m.routingId in n.reqs && m.routingId != 0;
        assert Pending(n.rep.inbox) == [(m.routingId, m.data)] + Pending(n'.rep.inbox);
        assert InHand(n'.rep) == [(m.routingId, m.data)];
        ConcatEmpty(Answered(n.rep.log));
        ConcatAssociative(Answered(n.rep.log), InHand(n'.rep), Pending(n'.rep.inbox));
      case Reply(data) =>
        assert Known(n);
        var id := n.rep.lastRoutingId.value;
        assert n'.rep.log == n.rep.log + [(id, n.rep.held, data)];
        assert Answered(n'.rep.log) == Answered(n.rep.log) + [(id, n.rep.held)];
        ConcatEmpty(Answered(n'.rep.log));
      case TakeReply(_) =>
    }
  }

  /** First come, first served: in every run the accepted requests are, in order, those the REP has answered,
      the one it holds and those in its queue. */
  lemma {:induction false} RunFirstComeFirstServed(repHwm: nat, steps: seq<Step>)
    ensures Asked(repHwm, steps) == Accounted(Run(repHwm, steps).rep)
  {
    if steps != [] {
      RunFirstComeFirstServed(repHwm, steps[..|steps| - 1]);
      RunSound(repHwm, steps[..|steps| - 1]);
      hide Sound, Apply;
      StepAccounts(Run(repHwm, steps[..|steps| - 1]), steps[|steps| - 1]);
    } else {
      assert Accounted(Start(repHwm).rep) == [];
    }
  }
}
