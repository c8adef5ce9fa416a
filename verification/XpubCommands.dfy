/** Subscribing by a raw frame: exactly when a frame that starts with 0 or 1 is the call it spells. */
module XpubCommands {
  import opened Common
  import opened XpubHub
  import opened XpubRuns
  import Subscriptions

  /** The worlds differ only in the sockets' multipart bookkeeping. */
  ghost predicate Alike(w: World, w': World) {
    && w.hub == w'.hub && w.sockets.Keys == w'.sockets.Keys
    && forall id :: id in w.sockets ==> AlikeSockets(w.sockets[id], w'.sockets[id])
  }

  ghost predicate AlikeSockets(s: Xsub, s': Xsub) {
    s' == s.(sendMore := s'.sendMore, processSubscribe := s'.processSubscribe)
  }

  predicate SpellsCall(data: Bytes) {
    data != [] && data[0] <= 1
  }

  /** The call that a frame spells. */
  function CallOf(id: nat, data: Bytes): Step
    requires SpellsCall(data)
  {
    if data[0] == 1 then SubscribeTo(id, data[1..]) else UnsubscribeFrom(id, data[1..])
  }

  // When a frame is read as a command.

  /** A send attempt of a connected socket; these make up its messages. */
  predicate Attempts(w: World, step: Step, id: nat) {
    step.Send? && step.id == id && id in w.sockets && w.sockets[id].attached
  }

  /** The message a socket is in the middle of, if any: was the first-part option off at its first part? */
  function OffAtFirstPart(steps: seq<Step>, id: nat): Option<bool> {
    if steps == [] then None
    else
      var before, step := steps[..|steps| - 1], steps[|steps| - 1];
      var w, open := Run(before), OffAtFirstPart(before, id);
      if !Attempts(w, step, id) then open
      else if !step.more then None
      else if open.Some? then open else Some(!w.sockets[id].onlyFirst)
  }

  /** The bookkeeping flags of a socket say what `open` says. */
  ghost predicate Remembers(w: World, id: nat, open: Option<bool>) {
    if id !in w.sockets then open.None?
    else
      var s := w.sockets[id];
      (s.sendMore <==> open.Some?) && (s.sendMore ==> s.processSubscribe == open.value)
  }

  lemma SubscribeKeepsFlags(w: World, id: nat, topic: Bytes, k: nat, open: Option<bool>)
    requires id in w.sockets
    ensures Remembers(DoSubscribe(w, id, topic), k, open) <==> Remembers(w, k, open)
    ensures Remembers(DoUnsubscribe(w, id, topic), k, open) <==> Remembers(w, k, open)
  {
    hide Subscribe, Unsubscribe, Subscriptions.Insert, Subscriptions.Remove;
  }

  lemma SendKeepsFlags(w: World, step: Step, id: nat, open: Option<bool>)
    requires Attempts(w, step, id) && Remembers(w, id, open)
    ensures Remembers(Apply(w, step), id,
                      if !step.more then None else if open.Some? then open else Some(!w.sockets[id].onlyFirst))
  {
    hide DoSubscribe, DoUnsubscribe;
    var s := w.sockets[id];
    var open' := if !step.more then None else if open.Some? then open else Some(!s.onlyFirst);
    if ReadAsCommand(s, step.data) {
      var w1 := w.(sockets := w.sockets[id := Noted(s, step.more).(processSubscribe := true)]);
      SubscribeKeepsFlags(w1, id, step.data[1..], id, open');
    }
  }

  lemma OtherSendKeepsFlags(w: World, step: Step, id: nat, open: Option<bool>)
    requires step.Send? && !Attempts(w, step, id) && Remembers(w, id, open)
    ensures Remembers(Apply(w, step), id, open)
  {
    hide Subscribe, Unsubscribe, Subscriptions.Insert, Subscriptions.Remove;
  }

  lemma OtherKeepsFlags(w: World, step: Step, id: nat, open: Option<bool>)
    requires !step.Send? && Remembers(w, id, open)
    ensures Remembers(Apply(w, step), id, open)
  {
    hide DoSubscribe, DoUnsubscribe, DoSend, Detach, ReplayAll;
    match step
    case SubscribeTo(k, topic) => if k in w.sockets { SubscribeKeepsFlags(w, k, topic, id, open); }
    case UnsubscribeFrom(k, topic) => if k in w.sockets { SubscribeKeepsFlags(w, k, topic, id, open); }
    case _ =>
  }

  lemma {:induction false} RunRemembers(steps: seq<Step>, id: nat)
    ensures Remembers(Run(steps), id, OffAtFirstPart(steps, id))
  {
    if steps != [] {
      var before, step := steps[..|steps| - 1], steps[|steps| - 1];
      RunRemembers(before, id);
      hide Remembers, Apply;
      var w, open := Run(before), OffAtFirstPart(before, id);
      if Attempts(w, step, id) {
        SendKeepsFlags(w, step, id, open);
      } else if step.Send? {
        OtherSendKeepsFlags(w, step, id, open);
      } else {
        OtherKeepsFlags(w, step, id, open);
      }
    }
  }

  /** The first-part option is off now, and was off when the message in progress began. */
  ghost predicate OffThroughout(steps: seq<Step>, id: nat)
    requires id in Run(steps).sockets
  {
    !Run(steps).sockets[id].onlyFirst && OffAtFirstPart(steps, id) != Some(false)
  }

  /** A call that would change nothing, on a frame that the full inbox refuses. */
  ghost predicate NothingEitherWay(w: World, id: nat, data: Bytes)
    requires id in w.sockets
  {
    var s := w.sockets[id];
    && data != [] && data[0] == 0 && data[1..] !in s.subs.refs && !s.verboseUnsubscribe
    && s.sndhwm > 0 && |w.hub.inbox| >= s.sndhwm
  }

  lemma CommandIsCall(w: World, id: nat, data: Bytes, more: bool)
    requires id in w.sockets && w.sockets[id].attached && ReadAsCommand(w.sockets[id], data)
    ensures Alike(DoSend(w, id, data, more), Apply(w, CallOf(id, data)))
  {
    hide DoSubscribe, DoUnsubscribe;
    var s := w.sockets[id];
    var w1 := w.(sockets := w.sockets[id := Noted(s, more).(processSubscribe := true)]);
    SubscribeAlike(w1, w, id, data[1..]);
  }

  lemma SubscribeAlike(w: World, w': World, id: nat, topic: Bytes)
    requires Alike(w, w') && id in w.sockets
    ensures Alike(DoSubscribe(w, id, topic), DoSubscribe(w', id, topic))
    ensures Alike(DoUnsubscribe(w, id, topic), DoUnsubscribe(w', id, topic))
  {
    hide Subscribe, Unsubscribe, Subscriptions.Insert, Subscriptions.Remove;
  }

  lemma DataIsNotCall(w: World, id: nat, data: Bytes, more: bool)
    requires id in w.sockets && w.sockets[id].attached && SpellsCall(data) && !ReadAsCommand(w.sockets[id], data)
    ensures Alike(DoSend(w, id, data, more), Apply(w, CallOf(id, data))) <==> NothingEitherWay(w, id, data)
  {
    var s, topic := w.sockets[id], data[1..];
    var sent, called := DoSend(w, id, data, more), Apply(w, CallOf(id, data));
    assert sent.sockets[id].subs == s.subs;
    if data[0] == 1 {
      assert called.sockets[id].subs.refs[topic] == if topic in s.subs.refs then s.subs.refs[topic] + 1 else 1;
      assert called.sockets[id].subs != s.subs;
    } else if topic in s.subs.refs {
      assert called.sockets[id].subs != s.subs;
    } else if s.verboseUnsubscribe {
      assert called.hub.inbox[|called.hub.inbox| - 1].Change?;
      assert called.hub.inbox != w.hub.inbox;
    }
  }

  /** In every run, a 0/1 frame of a connected socket acts as the call it spells if and only if the
      first-part option is off now and was off at the first part of its message (or if neither the call
      nor the refused frame does anything at all). */
  lemma FrameIsCallIff(steps: seq<Step>, id: nat, data: Bytes, more: bool)
    requires id in Run(steps).sockets && Run(steps).sockets[id].attached && SpellsCall(data)
    ensures var w := Run(steps);
            Alike(Apply(w, Send(id, data, more)), Apply(w, CallOf(id, data))) <==>
            OffThroughout(steps, id) || NothingEitherWay(w, id, data)
  {
    hide Run, Alike, DoSend;
    var w := Run(steps);
    RunRemembers(steps, id);
    if ReadAsCommand(w.sockets[id], data) {
      CommandIsCall(w, id, data, more);
    } else {
      DataIsNotCall(w, id, data, more);
    }
  }

  const LATE_START: seq<Step> := [Open(1, true, false, 0)] + [Connect(1)] + [Send(1, [5], true)]

  lemma AfterLateStart()
    ensures Run(LATE_START) == World(Enqueue(START.hub, Data([5], true)),
                                     map[1 := Xsub(Subscriptions.EMPTY, true, true, false, true, false, 0)])
  {
    assert Run([]) == START;
    hide Run, DoSend;
    var s0 := [Open(1, true, false, 0)];
    RunExtend([], s0[0]);
    ConcatEmpty(s0);
    RunExtend(s0, Connect(1));
    var s1 := s0 + [Connect(1)];
    assert Run(s1) == World(START.hub, map[1 := Xsub(Subscriptions.EMPTY, true, false, false, true, false, 0)]);
    RunExtend(s1, Send(1, [5], true));
    DataEffect(Run(s1), 1, [5], true);
  }

  /** The failing input: the option is turned off in the middle of a message that began with it on, and
      the subscription frame that follows is forwarded as data. */
  lemma OffTooLate()
    ensures var w := Run(LATE_START + [SetOptions(1, false, false, 0)] + [Send(1, [1, 65], false)]);
            && w.hub.inbox == [Data([5], true), Data([1, 65], false)]
            && 1 in w.sockets && w.sockets[1].subs == Subscriptions.EMPTY && !w.sockets[1].onlyFirst
  {
    hide Run, DoSend;
    AfterLateStart();
    RunExtend(LATE_START, SetOptions(1, false, false, 0));
    var s3 := LATE_START + [SetOptions(1, false, false, 0)];
    RunExtend(s3, Send(1, [1, 65], false));
    DataEffect(Run(s3), 1, [1, 65], false);
  }

  /** The frame did what the call it spells does, or it was passed on as data unless the inbox was full. */
  ghost predicate SentAs(w: World, id: nat, data: Bytes, more: bool, command: bool)
    requires id in w.sockets && (command ==> SpellsCall(data))
  {
    var w', full := DoSend(w, id, data, more), w.sockets[id].sndhwm > 0 && |w.hub.inbox| >= w.sockets[id].sndhwm;
    if command then
      Alike(w', Apply(w, CallOf(id, data))) && SendResult(w, id, data) == Ok(())
    else
      && SameHoldings(w, w') && w'.hub == (if full then w.hub else Enqueue(w.hub, Data(data, more)))
      && SendResult(w, id, data) == if full then Err(Again) else Ok(())
  }

  lemma SentAsRead(w: World, id: nat, data: Bytes, more: bool)
    requires id in w.sockets && w.sockets[id].attached
    ensures SentAs(w, id, data, more, ReadAsCommand(w.sockets[id], data))
  {
    hide Alike, DoSend;
    if ReadAsCommand(w.sockets[id], data) {
      CommandIsCall(w, id, data, more);
    } else {
      DataEffect(w, id, data, more);
    }
  }

  /** In every run, a frame of a connected socket is forwarded as data exactly when it does not spell a
      call or the option was on, now or at the first part; then all subscriptions stay as they are and the
      XPUB inbox gets the frame itself, unless it is full. Otherwise the send succeeds as a call. */
  lemma ForwardedIff(steps: seq<Step>, id: nat, data: Bytes, more: bool)
    requires id in Run(steps).sockets && Run(steps).sockets[id].attached
    ensures SentAs(Run(steps), id, data, more, SpellsCall(data) && OffThroughout(steps, id))
  {
    RunRemembers(steps, id);
    hide Run, SentAs;
    SentAsRead(Run(steps), id, data, more);
  }

  // Whole runs.

  /** The sockets `ids` never have the first-part option on. */
  predicate LeavesOff(step: Step, ids: set<nat>) {
    (step.Open? || step.SetOptions?) && step.id in ids ==> !step.onlyFirst
  }

  /** Those sockets read commands in every part of a message. */
  ghost predicate AllParts(w: World, ids: set<nat>) {
    forall id :: id in w.sockets && id in ids ==>
                   !w.sockets[id].onlyFirst && (w.sockets[id].sendMore ==> w.sockets[id].processSubscribe)
  }

  predicate IsCommand(w: World, step: Step, ids: set<nat>) {
    step.Send? && step.id in ids && step.id in w.sockets && w.sockets[step.id].attached && SpellsCall(step.data)
  }

  /** Every command frame of the sockets `ids` replaced by the call it spells. */
  function AsCalls(steps: seq<Step>, ids: set<nat>): seq<Step> {
    if steps == [] then []
    else
      var before, step := steps[..|steps| - 1], steps[|steps| - 1];
      AsCalls(before, ids) + [if IsCommand(Run(before), step, ids) then CallOf(step.id, step.data) else step]
  }

  /** Alike, and equal for the sockets outside `ids`. */
  ghost predicate AlikeFor(w: World, w': World, ids: set<nat>) {
    Alike(w, w') && forall id :: id in w.sockets && id !in ids ==> w'.sockets[id] == w.sockets[id]
  }

  lemma {:induction false} RunAllParts(steps: seq<Step>, ids: set<nat>)
    requires forall i :: 0 <= i < |steps| ==> LeavesOff(steps[i], ids)
    ensures AllParts(Run(steps), ids)
  {
    if steps != [] {
      var before, step := steps[..|steps| - 1], steps[|steps| - 1];
      RunAllParts(before, ids);
      forall id | id in Run(steps).sockets && id in ids
        ensures !Run(steps).sockets[id].onlyFirst
        ensures Run(steps).sockets[id].sendMore ==> Run(steps).sockets[id].processSubscribe
      {
        StepAllParts(Run(before), step, id, ids);
      }
    }
  }

  lemma StepAllParts(w: World, step: Step, id: nat, ids: set<nat>)
    requires AllParts(w, ids) && LeavesOff(step, ids) && id in Apply(w, step).sockets && id in ids
    ensures var s := Apply(w, step).sockets[id]; !s.onlyFirst && (s.sendMore ==> s.processSubscribe)
  {
    hide Subscribe, Unsubscribe, Subscriptions.Insert, Subscriptions.Remove, Detach, ReplayAll;
  }

  lemma SubscribeAlikeFor(w: World, w': World, id: nat, topic: Bytes, ids: set<nat>)
    requires AlikeFor(w, w', ids) && id in w.sockets
    ensures AlikeFor(DoSubscribe(w, id, topic), DoSubscribe(w', id, topic), ids)
    ensures AlikeFor(DoUnsubscribe(w, id, topic), DoUnsubscribe(w', id, topic), ids)
  {
    SubscribeAlike(w, w', id, topic);
    SubscribeKeepsRest(w, id, topic);
    SubscribeKeepsRest(w', id, topic);
    hide DoSubscribe, DoUnsubscribe;
  }

  /** Only the caller's own subscriptions change, and in a way that depends on its record alone. */
  lemma SubscribeKeepsRest(w: World, id: nat, topic: Bytes)
    requires id in w.sockets
    ensures var s := w.sockets[id];
            && DoSubscribe(w, id, topic).sockets == w.sockets[id := s.(subs := Subscriptions.Insert(s.subs, topic).0)]
            && DoUnsubscribe(w, id, topic).sockets == w.sockets[id := s.(subs := Subscriptions.Remove(s.subs, topic).0)]
  {
  }

  lemma CommandAlike(w: World, w': World, step: Step, ids: set<nat>)
    requires AlikeFor(w, w', ids) && AllParts(w, ids) && IsCommand(w, step, ids)
    ensures AlikeFor(Apply(w, step), Apply(w', CallOf(step.id, step.data)), ids)
  {
    hide DoSubscribe, DoUnsubscribe;
    var s := w.sockets[step.id];
    var w1 := w.(sockets := w.sockets[step.id := Noted(s, step.more).(processSubscribe := true)]);
    SubscribeAlikeFor(w1, w', step.id, step.data[1..], ids);
  }

  /** A frame that is left as it is: data, or a frame of a socket outside `ids`. */
  lemma SendAlike(w: World, w': World, step: Step, ids: set<nat>)
    requires AlikeFor(w, w', ids) && step.Send? && !IsCommand(w, step, ids)
    ensures AlikeFor(Apply(w, step), Apply(w', step), ids)
  {
    if step.id in w.sockets && w.sockets[step.id].attached && ReadAsCommand(w.sockets[step.id], step.data) {
      OutsideCommandAlike(w, w', step, ids);
    } else {
      DataAlike(w, w', step, ids);
    }
  }

  lemma OutsideCommandAlike(w: World, w': World, step: Step, ids: set<nat>)
    requires AlikeFor(w, w', ids) && step.Send? && step.id in w.sockets && step.id !in ids
    requires w.sockets[step.id].attached && ReadAsCommand(w.sockets[step.id], step.data)
    ensures AlikeFor(Apply(w, step), Apply(w', step), ids)
  {
    hide DoSubscribe, DoUnsubscribe;
    var s := Noted(w.sockets[step.id], step.more).(processSubscribe := true);
    var w1 := w.(sockets := w.sockets[step.id := s]);
    var w1' := w'.(sockets := w'.sockets[step.id := s]);
    SubscribeAlikeFor(w1, w1', step.id, step.data[1..], ids);
  }

  lemma DataAlike(w: World, w': World, step: Step, ids: set<nat>)
    requires AlikeFor(w, w', ids) && step.Send? && !IsCommand(w, step, ids)
    requires step.id in w.sockets && w.sockets[step.id].attached ==> !ReadAsCommand(w.sockets[step.id], step.data)
    ensures AlikeFor(Apply(w, step), Apply(w', step), ids)
  {
    if step.id in w.sockets && w.sockets[step.id].attached {
      DataEffect(w, step.id, step.data, step.more);
      DataEffect(w', step.id, step.data, step.more);
    }
    hide DoSend, ReadAsCommand;
  }

  lemma DataEffect(w: World, id: nat, data: Bytes, more: bool)
    requires id in w.sockets && w.sockets[id].attached && !ReadAsCommand(w.sockets[id], data)
    ensures var s := w.sockets[id];
            DoSend(w, id, data, more) ==
            World(if s.sndhwm > 0 && |w.hub.inbox| >= s.sndhwm then w.hub else Enqueue(w.hub, Data(data, more)),
                  w.sockets[id := Noted(s, more)])
  {
  }

  lemma OtherAlike(w: World, w': World, step: Step, ids: set<nat>)
    requires AlikeFor(w, w', ids) && !step.Send?
    ensures AlikeFor(Apply(w, step), Apply(w', step), ids)
  {
    match step
    case SubscribeTo(id, topic) =>
      hide DoSubscribe, DoUnsubscribe;
      if id in w.sockets { SubscribeAlikeFor(w, w', id, topic, ids); }
    case UnsubscribeFrom(id, topic) =>
      hide DoSubscribe, DoUnsubscribe;
      if id in w.sockets { SubscribeAlikeFor(w, w', id, topic, ids); }
    case _ =>
      if BySocket(step) || step.Open? || step.SetOptions? {
        RecordAlike(w, w', step, ids);
      } else {
        ApplicationAlike(w, w', step, ids);
      }
  }

  /** A step that looks only at the attachment and subscriptions of one socket. */
  lemma RecordAlike(w: World, w': World, step: Step, ids: set<nat>)
    requires AlikeFor(w, w', ids)
    requires step.Open? || step.SetOptions? || step.Connect? || step.Disconnect?
    ensures AlikeFor(Apply(w, step), Apply(w', step), ids)
  {
    hide DoSubscribe, DoUnsubscribe, DoSend, Detach, ReplayAll;
  }

  lemma ApplicationAlike(w: World, w': World, step: Step, ids: set<nat>)
    requires AlikeFor(w, w', ids) && !BySocket(step) && !step.Open? && !step.SetOptions?
    ensures AlikeFor(Apply(w, step), Apply(w', step), ids)
  {
    hide DoSubscribe, DoUnsubscribe, DoSend, Detach, ReplayAll, AlikeSockets;
  }

  /** For any set of sockets that never turn the first-part option on: replacing every command frame of
      theirs by its call leaves the endpoint, its notifications and every socket's subscriptions the same,
      whatever the other sockets do. */
  lemma {:induction false} FramesAreCalls(steps: seq<Step>, ids: set<nat>)
    requires forall i :: 0 <= i < |steps| ==> LeavesOff(steps[i], ids)
    ensures AlikeFor(Run(steps), Run(AsCalls(steps, ids)), ids)
  {
    if steps != [] {
      var before, step := steps[..|steps| - 1], steps[|steps| - 1];
      FramesAreCalls(before, ids);
      RunAllParts(before, ids);
      hide AlikeFor, AllParts, Apply;
      var w, calls := Run(before), AsCalls(before, ids);
      if IsCommand(w, step, ids) {
        CommandAlike(w, Run(calls), step, ids);
        RunExtend(calls, CallOf(step.id, step.data));
      } else if step.Send? {
        SendAlike(w, Run(calls), step, ids);
        RunExtend(calls, step);
      } else {
        OtherAlike(w, Run(calls), step, ids);
        RunExtend(calls, step);
      }
    }
  }
}
