/** The lockstep guards of REQ and REP sockets in socket.rs (ZeroMQ RFC 28/REQREP). */
module Pattern {
  import opened Common
  import opened SocketTypes

  datatype PatternState = ReadyToSend | ReadyToRecv

  predicate Lockstep(t: SocketType) {
    t == Req || t == Rep
  }

  function InitialState(t: SocketType): Option<PatternState> {
    if t == Req then Some(ReadyToSend) else if t == Rep then Some(ReadyToRecv) else None
  }

  /** `ensure_can_send_for_pattern`. */
  function CanSend(t: SocketType, s: Option<PatternState>, relaxed: bool): Result<()> {
    if Lockstep(t) && s == Some(ReadyToRecv) && !(t == Req && relaxed) then Err(InvalidState) else Ok(())
  }

  /** `after_pattern_send`. */
  function AfterSend(t: SocketType, s: Option<PatternState>, more: bool, relaxed: bool)
    : (Option<PatternState>, Result<()>) {
    if !Lockstep(t) then (s, Ok(()))
    else
      match s
      case None => (s, Ok(()))
      case Some(ReadyToSend) => (if more then s else Some(ReadyToRecv), Ok(()))
      case Some(ReadyToRecv) => (s, if t == Req && relaxed then Ok(()) else Err(InvalidState))
  }

  /** `ensure_can_recv_for_pattern`. */
  function CanRecv(t: SocketType, s: Option<PatternState>): Result<()> {
    if Lockstep(t) && s == Some(ReadyToSend) then Err(InvalidState) else Ok(())
  }

  /** `after_pattern_recv`. */
  function AfterRecv(t: SocketType, s: Option<PatternState>, more: bool): (Option<PatternState>, Result<()>) {
    if !Lockstep(t) then (s, Ok(()))
    else
      match s
      case None => (s, Ok(()))
      case Some(ReadyToRecv) => (if more then s else Some(ReadyToSend), Ok(()))
      case Some(ReadyToSend) => (s, Err(InvalidState))
  }

  /** A post-step update never fails once its guard has passed. */
  lemma GuardedUpdateSucceeds(t: SocketType, s: Option<PatternState>, more: bool, relaxed: bool)
    ensures CanSend(t, s, relaxed).Ok? <==> AfterSend(t, s, more, relaxed).1.Ok?
    ensures CanRecv(t, s).Ok? <==> AfterRecv(t, s, more).1.Ok?
  {
  }

  // The language of successful operations on a strict socket.

  /** One frame sent or received. */
  datatype Op = Op(send: bool, more: bool)

  /** One successful operation; a refused one has no successor. */
  function Advance(t: SocketType, s: Option<PatternState>, op: Op): Result<Option<PatternState>> {
    var guard := if op.send then CanSend(t, s, false) else CanRecv(t, s);
    if guard.Err? then Err(guard.error)
    else if op.send then Ok(AfterSend(t, s, op.more, false).0) else Ok(AfterRecv(t, s, op.more).0)
  }

  function After(t: SocketType, ops: seq<Op>): Result<Option<PatternState>> {
    if ops == [] then Ok(InitialState(t))
    else
      var s :- After(t, ops[..|ops| - 1]);
      Advance(t, s, ops[|ops| - 1])
  }

  /** A message of `mores` frames with the more flag and one without. */
  function Frames(send: bool, mores: nat): seq<Op> {
    seq(mores, _ => Op(send, true)) + [Op(send, false)]
  }

  /** REQ leads with a request and then receives, REP the other way round. */
  datatype Round = Round(leadMores: nat, answerMores: nat)

  function Rounds(lead: bool, rs: seq<Round>): seq<Op> {
    if rs == [] then []
    else Rounds(lead, rs[..|rs| - 1]) + Frames(lead, rs[|rs| - 1].leadMores) + Frames(!lead, rs[|rs| - 1].answerMores)
  }

  /** A round that has not finished. */
  datatype Partial = Leading(mores: nat) | Answering(leadMores: nat, mores: nat)

  function Unfinished(lead: bool, p: Partial): seq<Op> {
    match p
    case Leading(mores) => seq(mores, _ => Op(lead, true))
    case Answering(leadMores, mores) => Frames(lead, leadMores) + seq(mores, _ => Op(!lead, true))
  }

  function Leads(t: SocketType): bool
    requires Lockstep(t)
  {
    t == Req
  }

  function Phase(t: SocketType, leading: bool): Option<PatternState>
    requires Lockstep(t)
  {
    if leading == Leads(t) then Some(ReadyToSend) else Some(ReadyToRecv)
  }

  lemma AfterAppend(t: SocketType, ops: seq<Op>, op: Op)
    ensures After(t, ops).Ok? ==> After(t, ops + [op]) == Advance(t, After(t, ops).value, op)
    ensures After(t, ops).Err? ==> After(t, ops + [op]).Err?
  {
    ConcatSplit(ops, [op]);
  }

  lemma MoreOne(send: bool, n: nat)
    ensures seq(n + 1, _ => Op(send, true)) == seq(n, _ => Op(send, true)) + [Op(send, true)]
  {
  }

  ghost predicate Decomposes(lead: bool, ops: seq<Op>, rs: seq<Round>, p: Partial) {
    ops == Rounds(lead, rs) + Unfinished(lead, p)
  }

  /** One more frame while leading. */
  lemma ExtendLeading(lead: bool, ops: seq<Op>, rs: seq<Round>, n: nat, more: bool)
    requires Decomposes(lead, ops, rs, Leading(n))
    ensures Decomposes(lead, ops + [Op(lead, more)], rs, if more then Leading(n + 1) else Answering(n, 0))
  {
    hide Rounds, Frames;
    var mores := seq(n, _ => Op(lead, true));
    ConcatAssociative(Rounds(lead, rs), mores, [Op(lead, more)]);
    if more {
      MoreOne(lead, n);
    } else {
      FramesAre(lead, n);
      assert seq(0, _ => Op(!lead, true)) == [];
      ConcatEmpty(Frames(lead, n));
    }
  }

  /** One more frame while answering; the final one completes the round. */
  lemma ExtendAnswering(lead: bool, ops: seq<Op>, rs: seq<Round>, a: nat, n: nat, more: bool)
    requires Decomposes(lead, ops, rs, Answering(a, n))
    ensures if more then Decomposes(lead, ops + [Op(!lead, more)], rs, Answering(a, n + 1))
            else Decomposes(lead, ops + [Op(!lead, more)], rs + [Round(a, n)], Leading(0))
  {
    hide Rounds, Frames;
    var done, mores, op := Rounds(lead, rs), seq(n, _ => Op(!lead, true)), Op(!lead, more);
    ConcatAssociative(done, Frames(lead, a) + mores, [op]);
    ConcatAssociative(Frames(lead, a), mores, [op]);
    if more {
      MoreOne(!lead, n);
    } else {
      FramesAre(!lead, n);
      RoundsOneMore(lead, rs, Round(a, n));
      ConcatAssociative(done, Frames(lead, a), Frames(!lead, n));
      assert seq(0, _ => Op(lead, true)) == [];
      ConcatEmpty(Rounds(lead, rs + [Round(a, n)]));
    }
  }

  /** Every accepted run is a list of whole rounds followed by an unfinished one. */
  lemma {:induction false} AcceptedIsRounds(t: SocketType, ops: seq<Op>) returns (rs: seq<Round>, p: Partial)
    requires Lockstep(t) && After(t, ops).Ok?
    ensures Decomposes(Leads(t), ops, rs, p)
    ensures After(t, ops) == Ok(Phase(t, p.Leading?))
  {
    hide Decomposes, Advance;
    var lead := Leads(t);
    if ops == [] {
      EmptyDecomposes(lead);
      rs, p := [], Leading(0);
    } else {
      var front, op := ops[..|ops| - 1], ops[|ops| - 1];
      rs, p := AcceptedIsRounds(t, front);
      AdvanceFrom(t, p.Leading?, op);
      hide After;
      assert ops == front + [op];
      match p
      case Leading(n) =>
        ExtendLeading(lead, front, rs, n, op.more);
        p := if op.more then Leading(n + 1) else Answering(n, 0);
      case Answering(a, n) =>
        ExtendAnswering(lead, front, rs, a, n, op.more);
        if op.more {
          p := Answering(a, n + 1);
        } else {
          rs, p := rs + [Round(a, n)], Leading(0);
        }
    }
  }

  lemma EmptyDecomposes(lead: bool)
    ensures Decomposes(lead, [], [], Leading(0))
  {
  }

  /** In each phase only one direction is open, and its final frame ends the phase. */
  lemma AdvanceFrom(t: SocketType, leading: bool, op: Op)
    requires Lockstep(t)
    ensures Advance(t, Phase(t, leading), op).Ok? <==> op.send == (leading == Leads(t))
    ensures op.send == (leading == Leads(t)) ==>
              Advance(t, Phase(t, leading), op) == Ok(Phase(t, leading == op.more))
  {
  }

  lemma FramesAre(send: bool, n: nat)
    ensures Frames(send, n) == seq(n, _ => Op(send, true)) + [Op(send, false)]
  {
  }

  lemma RoundsOneMore(lead: bool, rs: seq<Round>, r: Round)
    ensures Rounds(lead, rs + [r]) == Rounds(lead, rs) + Frames(lead, r.leadMores) + Frames(!lead, r.answerMores)
  {
    ConcatSplit(rs, [r]);
  }

  lemma {:induction false} MoresAccepted(t: SocketType, ops: seq<Op>, leading: bool, n: nat)
    requires Lockstep(t) && After(t, ops) == Ok(Phase(t, leading))
    ensures After(t, ops + seq(n, _ => Op(if leading then Leads(t) else !Leads(t), true))) == Ok(Phase(t, leading))
  {
    hide After, Advance;
    var send := if leading then Leads(t) else !Leads(t);
    AdvanceFrom(t, leading, Op(send, true));
    if n == 0 {
      assert ops + seq(0, _ => Op(send, true)) == ops;
    } else {
      MoresAccepted(t, ops, leading, n - 1);
      MoreOne(send, n - 1);
      ConcatAssociative(ops, seq(n - 1, _ => Op(send, true)), [Op(send, true)]);
      AfterAppend(t, ops + seq(n - 1, _ => Op(send, true)), Op(send, true));
    }
  }

  lemma FramesAccepted(t: SocketType, ops: seq<Op>, leading: bool, n: nat)
    requires Lockstep(t) && After(t, ops) == Ok(Phase(t, leading))
    ensures After(t, ops + Frames(if leading then Leads(t) else !Leads(t), n)) == Ok(Phase(t, !leading))
  {
    hide After, Advance;
    var send := if leading then Leads(t) else !Leads(t);
    AdvanceFrom(t, leading, Op(send, false));
    MoresAccepted(t, ops, leading, n);
    var mores := seq(n, _ => Op(send, true));
    AfterAppend(t, ops + mores, Op(send, false));
    ConcatAssociative(ops, mores, [Op(send, false)]);
  }

  lemma {:induction false} RoundsAccepted(t: SocketType, rs: seq<Round>)
    requires Lockstep(t)
    ensures After(t, Rounds(Leads(t), rs)) == Ok(Phase(t, true))
  {
    hide Frames;
    if rs != [] {
      var front, r := rs[..|rs| - 1], rs[|rs| - 1];
      RoundsAccepted(t, front);
      FramesAccepted(t, Rounds(Leads(t), front), true, r.leadMores);
      FramesAccepted(t, Rounds(Leads(t), front) + Frames(Leads(t), r.leadMores), false, r.answerMores);
    }
  }

  lemma UnfinishedAccepted(t: SocketType, rs: seq<Round>, p: Partial)
    requires Lockstep(t)
    ensures After(t, Rounds(Leads(t), rs) + Unfinished(Leads(t), p)).Ok?
  {
    hide Frames, After;
    var done := Rounds(Leads(t), rs);
    RoundsAccepted(t, rs);
    match p
    case Leading(n) =>
      MoresAccepted(t, done, true, n);
    case Answering(a, n) =>
      FramesAccepted(t, done, true, a);
      MoresAccepted(t, done + Frames(Leads(t), a), false, n);
      ConcatAssociative(done, Frames(Leads(t), a), seq(n, _ => Op(!Leads(t), true)));
  }

  /** The successful runs of a strict REQ are exactly the beginnings of
      (send-more* send-final recv-more* recv-final)*, those of a REP its mirror image. */
  lemma LockstepLanguage(t: SocketType, ops: seq<Op>)
    requires Lockstep(t)
    ensures After(t, ops).Ok? <==> exists rs, p :: Decomposes(Leads(t), ops, rs, p)
  {
    if After(t, ops).Ok? {
      var rs, p := AcceptedIsRounds(t, ops);
    }
    if exists rs, p :: Decomposes(Leads(t), ops, rs, p) {
      var rs, p :| Decomposes(Leads(t), ops, rs, p);
      UnfinishedAccepted(t, rs, p);
    }
  }

  // Relaxed REQ sockets, and sockets without lockstep.

  /** Exactly these sends and receives are refused. */
  lemma RefusedIff(t: SocketType, s: Option<PatternState>, relaxed: bool)
    ensures CanSend(t, s, relaxed) == Err(InvalidState) <==>
            s == Some(ReadyToRecv) && (t == Rep || (t == Req && !relaxed))
    ensures CanRecv(t, s) == Err(InvalidState) <==> s == Some(ReadyToSend) && (t == Rep || t == Req)
    ensures CanSend(t, s, relaxed).Err? ==> CanSend(t, s, relaxed) == Err(InvalidState)
    ensures CanRecv(t, s).Err? ==> CanRecv(t, s) == Err(InvalidState)
  {
  }

  /** One successful operation of a relaxed REQ. */
  function RelaxedAfter(ops: seq<Op>): Result<Option<PatternState>> {
    if ops == [] then Ok(InitialState(Req))
    else
      var s :- RelaxedAfter(ops[..|ops| - 1]);
      var op := ops[|ops| - 1];
      if op.send then
        if CanSend(Req, s, true).Err? then Err(InvalidState) else Ok(AfterSend(Req, s, op.more, true).0)
      else
        if CanRecv(Req, s).Err? then Err(InvalidState) else Ok(AfterRecv(Req, s, op.more).0)
  }

  /** The direction of the last whole message. */
  function LastWhole(ops: seq<Op>): Option<bool> {
    if ops == [] then None
    else if ops[|ops| - 1].more then LastWhole(ops[..|ops| - 1]) else Some(ops[|ops| - 1].send)
  }

  /** A relaxed REQ accepts every send, and a receive exactly if the last whole message was a request. */
  lemma {:induction false} RelaxedLanguage(ops: seq<Op>)
    ensures RelaxedAfter(ops).Ok? <==>
            forall i :: 0 <= i < |ops| && !ops[i].send ==> LastWhole(ops[..i]) == Some(true)
    ensures RelaxedAfter(ops).Ok? ==>
              RelaxedAfter(ops).value == Some(if LastWhole(ops) == Some(true) then ReadyToRecv else ReadyToSend)
  {
    if ops != [] {
      var front := ops[..|ops| - 1];
      RelaxedLanguage(front);
      assert forall i :: 0 <= i < |front| ==> front[i] == ops[i] && front[..i] == ops[..i];
    }
  }

  /** Every other type may send and receive in any order, and its state stays as it is. */
  lemma {:induction false} UnlockedLanguage(t: SocketType, ops: seq<Op>)
    requires t != Req && t != Rep
    ensures After(t, ops) == Ok(None)
  {
    if ops != [] { UnlockedLanguage(t, ops[..|ops| - 1]); }
  }
}
