/** `YPipe` of pipe.rs: a bounded queue with conflation, a delimiter and termination. */
module Pipe {
  import opened Common

  datatype PipeFrame<T> = Item(item: T) | Delimiter

  datatype State<T> = State(queue: seq<PipeFrame<T>>, hwm: nat, conflate: bool, terminated: bool)

  /** The public calls; `write_item` is `write` of an item, and `write` also takes a bare delimiter. */
  datatype Op<T> = WriteFrame(frame: PipeFrame<T>) | WriteDelimiter | Read | Terminate | SetConflate(on: bool)

  /** `write`. */
  function Write<T>(s: State<T>, frame: PipeFrame<T>): (State<T>, Result<()>) {
    if s.terminated then (s, Err(InvalidSocket))
    else if s.conflate then (s.(queue := [frame]), Ok(()))
    else if s.hwm > 0 && |s.queue| >= s.hwm then (s, Err(Again))
    else (s.(queue := s.queue + [frame]), Ok(()))
  }

  /** `write_delimiter`: not subject to the high-water mark or to conflation. */
  function WriteEnd<T>(s: State<T>): (State<T>, Result<()>) {
    if s.terminated then (s, Err(InvalidSocket))
    else (s.(queue := s.queue + [Delimiter], terminated := true), Ok(()))
  }

  class YPipe<T> {
    var queue: seq<PipeFrame<T>>
    const hwm: nat
    var conflate: bool
    var terminated: bool

    ghost function View(): State<T>
      reads this
    {
      State(queue, hwm, conflate, terminated)
    }

    constructor (hwm: nat)
      ensures View() == State([], hwm, false, false)
    {
      this.queue, this.hwm, this.conflate, this.terminated := [], hwm, false, false;
    }

    method TurnConflate(on: bool)
      modifies this
      ensures View() == old(View()).(conflate := on)
    {
      conflate := on;
    }

    method Push(frame: PipeFrame<T>) returns (r: Result<()>)
      modifies this
      ensures (View(), r) == Write(old(View()), frame)
    {
      if terminated {
        return Err(InvalidSocket);
      }
      if conflate {
        queue := [];
      } else if hwm > 0 && |queue| >= hwm {
        return Err(Again);
      }
      assert [] + [frame] == [frame];
      queue := queue + [frame];
      r := Ok(());
    }

    method PushDelimiter() returns (r: Result<()>)
      modifies this
      ensures (View(), r) == WriteEnd(old(View()))
    {
      if terminated {
        return Err(InvalidSocket);
      }
      queue := queue + [Delimiter];
      terminated := true;
      r := Ok(());
    }

    method Pop() returns (r: Option<PipeFrame<T>>)
      modifies this
      ensures old(queue) == [] ==> r == None && View() == old(View())
      ensures old(queue) != [] ==> r == Some(old(queue)[0]) && View() == old(View()).(queue := old(queue)[1..])
    {
      if queue == [] {
        return None;
      }
      r := Some(queue[0]);
      queue := queue[1..];
    }

    method Stop()
      modifies this
      ensures View() == old(View()).(queue := [], terminated := true)
    {
      terminated := true;
      queue := [];
    }
  }

  /** A run: the pipe together with every frame it accepted and every frame that was read. */
  datatype Run<T> = Run(pipe: State<T>, accepted: seq<PipeFrame<T>>, read: seq<PipeFrame<T>>)

  function Start<T>(hwm: nat): Run<T> {
    Run(State([], hwm, false, false), [], [])
  }

  function Apply<T>(r: Run<T>, op: Op<T>): Run<T> {
    match op
    case WriteFrame(frame) =>
      var (pipe, result) := Write(r.pipe, frame);
      Run(pipe, if result.Ok? then r.accepted + [frame] else r.accepted, r.read)
    case WriteDelimiter =>
      var (pipe, result) := WriteEnd(r.pipe);
      Run(pipe, if result.Ok? then r.accepted + [Delimiter] else r.accepted, r.read)
    case Read =>
      if r.pipe.queue == [] then r
      else Run(r.pipe.(queue := r.pipe.queue[1..]), r.accepted, r.read + [r.pipe.queue[0]])
    case Terminate => r.(pipe := r.pipe.(queue := [], terminated := true))
    case SetConflate(on) => r.(pipe := r.pipe.(conflate := on))
  }

  function RunOps<T>(hwm: nat, ops: seq<Op<T>>): Run<T> {
    if ops == [] then Start(hwm) else Apply(RunOps(hwm, ops[..|ops| - 1]), ops[|ops| - 1])
  }

  /** `write_delimiter` or `terminate` was called. */
  ghost predicate Closes<T(!new)>(ops: seq<Op<T>>) {
    WriteDelimiter in ops || Terminate in ops
  }

  ghost predicate WritesRawDelimiter<T(!new)>(ops: seq<Op<T>>) {
    WriteFrame(Delimiter) in ops
  }

  ghost predicate EndsClosed<T(!new)>(s: State<T>) {
    s.terminated && s.queue != [] && s.queue[|s.queue| - 1] == Delimiter
  }

  /** Holds of every run, whatever the order of operations. */
  ghost predicate Sound<T(!new)>(r: Run<T>) {
    && (r.pipe.hwm > 0 ==> |r.pipe.queue| <= r.pipe.hwm + if EndsClosed(r.pipe) then 1 else 0)
    && |r.pipe.queue| <= |r.accepted|
    && r.pipe.queue == r.accepted[|r.accepted| - |r.pipe.queue|..]
  }

  lemma AcceptSound<T(!new)>(r: Run<T>, frame: PipeFrame<T>, pipe: State<T>)
    requires Sound(r) && !r.pipe.terminated
    requires pipe == Write(r.pipe, frame).0 || (frame == Delimiter && pipe == WriteEnd(r.pipe).0)
    requires pipe.queue != r.pipe.queue || r.pipe.conflate
    ensures Sound(Run(pipe, r.accepted + [frame], r.read))
  {
    var n := |r.accepted|;
    assert (r.accepted + [frame])[n..] == [frame];
    assert (r.accepted + [frame])[n - |r.pipe.queue|..] == r.accepted[n - |r.pipe.queue|..] + [frame];
  }

  lemma ApplySound<T(!new)>(r: Run<T>, op: Op<T>)
    requires Sound(r)
    ensures Sound(Apply(r, op)) && Apply(r, op).pipe.hwm == r.pipe.hwm
  {
    match op
    case WriteFrame(frame) =>
      hide Sound;
      if Write(r.pipe, frame).1.Ok? { AcceptSound(r, frame, Write(r.pipe, frame).0); }
    case WriteDelimiter =>
      hide Sound;
      if WriteEnd(r.pipe).1.Ok? { AcceptSound(r, Delimiter, WriteEnd(r.pipe).0); }
    case Read =>
      hide Sound;
      ReadSound(r);
    case Terminate =>
    case SetConflate(_) =>
  }

  lemma ReadSound<T(!new)>(r: Run<T>)
    requires Sound(r)
    ensures Sound(Apply(r, Read))
  {
    var n := |r.accepted|;
    if r.pipe.queue != [] {
      assert r.pipe.queue[1..] == r.accepted[n - |r.pipe.queue|..][1..] == r.accepted[n - |r.pipe.queue| + 1..];
    }
  }

  /** Occupancy stays within the high-water mark (one more only while the closing delimiter is at the
      end), and what is queued is always the most recent part of what was accepted. */
  lemma {:induction false} RunSound<T(!new)>(hwm: nat, ops: seq<Op<T>>)
    ensures Sound(RunOps(hwm, ops)) && RunOps(hwm, ops).pipe.hwm == hwm
  {
    if ops != [] {
      RunSound(hwm, ops[..|ops| - 1]);
      hide Sound, Apply;
      ApplySound(RunOps(hwm, ops[..|ops| - 1]), ops[|ops| - 1]);
    }
  }

  /** The pipe is closed exactly when `write_delimiter` or `terminate` was called. */
  lemma {:induction false} RunCloses<T(!new)>(hwm: nat, ops: seq<Op<T>>)
    ensures RunOps(hwm, ops).pipe.terminated <==> Closes(ops)
  {
    if ops != [] {
      var before, op := ops[..|ops| - 1], ops[|ops| - 1];
      RunCloses(hwm, before);
      assert ops == before + [op];
    }
  }

  // The delimiter.

  /** The frame accepted at position `i` is the last one, now and in every continuation. */
  ghost predicate LastEver<T(!new)>(hwm: nat, ops: seq<Op<T>>, i: nat) {
    forall more :: |RunOps(hwm, ops + more).accepted| == i + 1
  }

  lemma RunExtend<T>(hwm: nat, ops: seq<Op<T>>, op: Op<T>)
    ensures RunOps(hwm, ops + [op]) == Apply(RunOps(hwm, ops), op)
  {
    ConcatSplit(ops, [op]);
  }

  lemma {:induction false} ClosedStays<T>(hwm: nat, ops: seq<Op<T>>, more: seq<Op<T>>)
    requires RunOps(hwm, ops).pipe.terminated
    ensures RunOps(hwm, ops + more).accepted == RunOps(hwm, ops).accepted && RunOps(hwm, ops + more).pipe.terminated
    decreases |more|
  {
    hide RunOps;
    if more == [] {
      ConcatEmpty(ops);
    } else {
      var front, last := more[..|more| - 1], more[|more| - 1];
      ClosedStays(hwm, ops, front);
      RunExtend(hwm, ops + front, last);
      assert ops + more == ops + front + [last];
    }
  }

  /** An accepted delimiter is the last frame ever accepted if and only if nothing has been accepted after
      it so far and `write_delimiter` or `terminate` was called. */
  lemma DelimiterIsLastIff<T(!new)>(hwm: nat, ops: seq<Op<T>>, i: nat)
    requires i < |RunOps(hwm, ops).accepted| && RunOps(hwm, ops).accepted[i] == Delimiter
    ensures LastEver(hwm, ops, i) <==> Closes(ops) && i == |RunOps(hwm, ops).accepted| - 1
  {
    hide RunOps;
    RunCloses(hwm, ops);
    ConcatEmpty(ops);
    if Closes(ops) && i == |RunOps(hwm, ops).accepted| - 1 {
      forall more ensures |RunOps(hwm, ops + more).accepted| == i + 1 {
        ClosedStays(hwm, ops, more);
      }
    } else if i == |RunOps(hwm, ops).accepted| - 1 {
      RunExtend(hwm, ops, WriteDelimiter);
      assert |RunOps(hwm, ops + [WriteDelimiter]).accepted| != i + 1;
    } else {
      assert |RunOps(hwm, ops + []).accepted| != i + 1;
    }
  }

  /** Every accepted delimiter is at the end, and the pipe is closed. */
  ghost predicate EndsAtDelimiter<T(!new)>(r: Run<T>) {
    forall i :: 0 <= i < |r.accepted| && r.accepted[i] == Delimiter ==> i == |r.accepted| - 1 && r.pipe.terminated
  }

  lemma ApplyEndsAtDelimiter<T(!new)>(r: Run<T>, op: Op<T>)
    requires EndsAtDelimiter(r) && op != WriteFrame(Delimiter)
    ensures EndsAtDelimiter(Apply(r, op))
  {
    var r' := Apply(r, op);
    if |r'.accepted| > |r.accepted| {
      assert !r.pipe.terminated;
      assert forall i :: 0 <= i < |r.accepted| ==> r'.accepted[i] == r.accepted[i];
    }
  }

  /** As long as `write` is not given a bare delimiter, an accepted delimiter is the last frame accepted,
      and stays the last one in every continuation. */
  lemma {:induction false} DelimiterIsLast<T(!new)>(hwm: nat, ops: seq<Op<T>>)
    requires !WritesRawDelimiter(ops)
    ensures EndsAtDelimiter(RunOps(hwm, ops))
    ensures forall i :: 0 <= i < |RunOps(hwm, ops).accepted| && RunOps(hwm, ops).accepted[i] == Delimiter ==>
                          LastEver(hwm, ops, i)
  {
    if ops != [] {
      var before, op := ops[..|ops| - 1], ops[|ops| - 1];
      assert ops == before + [op];
      DelimiterIsLast(hwm, before);
      ApplyEndsAtDelimiter(RunOps(hwm, before), op);
    }
    hide RunOps;
    RunCloses(hwm, ops);
    forall i | 0 <= i < |RunOps(hwm, ops).accepted| && RunOps(hwm, ops).accepted[i] == Delimiter
      ensures LastEver(hwm, ops, i)
    {
      DelimiterIsLastIff(hwm, ops, i);
    }
  }

  /** The failing inputs: an item is accepted after a bare delimiter, and closing the pipe later does not
      make that delimiter the last frame. */
  lemma ItemAfterRawDelimiter<T(!new)>(x: T)
    ensures var ops: seq<Op<T>> := [WriteFrame(Delimiter)] + [WriteFrame(Item(x))];
            && RunOps(0, ops).accepted == [Delimiter, Item(x)] && !LastEver(0, ops, 0)
            && RunOps(0, ops + [Terminate]).accepted == [Delimiter, Item(x)]
            && Closes(ops + [Terminate]) && !LastEver(0, ops + [Terminate], 0)
  {
    var first: seq<Op<T>> := [WriteFrame(Delimiter)];
    var ops := first + [WriteFrame(Item(x))];
    RunExtend(0, [], first[0]);
    ConcatEmpty(first);
    RunExtend(0, first, WriteFrame(Item(x)));
    RunExtend(0, ops, Terminate);
    DelimiterIsLastIff(0, ops, 0);
    DelimiterIsLastIff(0, ops + [Terminate], 0);
    assert Terminate in ops + [Terminate];
  }

  /** Without conflation or termination nothing is lost or reordered: the accepted frames are the
      frames read followed by the frames queued. */
  lemma {:induction false} RunLossless<T>(hwm: nat, ops: seq<Op<T>>)
    requires forall i :: 0 <= i < |ops| ==> !ops[i].Terminate? && ops[i] != SetConflate(true)
    ensures var r := RunOps(hwm, ops); r.accepted == r.read + r.pipe.queue && !r.pipe.conflate
  {
    if ops != [] {
      var before, op := RunOps(hwm, ops[..|ops| - 1]), ops[|ops| - 1];
      RunLossless(hwm, ops[..|ops| - 1]);
      var r := RunOps(hwm, ops);
      if r.accepted != before.accepted {
        ConcatAssociative(before.read, before.pipe.queue, [r.accepted[|before.accepted|]]);
      } else if op.Read? && before.pipe.queue != [] {
        assert before.pipe.queue == [before.pipe.queue[0]] + before.pipe.queue[1..];
        ConcatAssociative(before.read, [before.pipe.queue[0]], before.pipe.queue[1..]);
      }
    }
  }

  // Which writes are accepted.

  /** What the last `SetConflate` said. */
  function Conflating<T>(ops: seq<Op<T>>): bool {
    if ops == [] then false
    else if ops[|ops| - 1].SetConflate? then ops[|ops| - 1].on else Conflating(ops[..|ops| - 1])
  }

  lemma {:induction false} RunConflates<T>(hwm: nat, ops: seq<Op<T>>)
    ensures RunOps(hwm, ops).pipe.conflate == Conflating(ops)
  {
    if ops != [] { RunConflates(hwm, ops[..|ops| - 1]); }
  }

  /** After any run a write is refused as invalid exactly if the pipe is closed, and to be tried again exactly
      if it is open, not conflating and at its high-water mark. An accepted frame is queued last, and while
      conflating it is all that is queued. */
  lemma WriteAcceptedIff<T(!new)>(hwm: nat, ops: seq<Op<T>>, frame: PipeFrame<T>)
    ensures var queue, (s, r) := RunOps(hwm, ops).pipe.queue, Write(RunOps(hwm, ops).pipe, frame);
            && (r == Err(InvalidSocket) <==> Closes(ops))
            && (r == Err(Again) <==> !Closes(ops) && !Conflating(ops) && 0 < hwm <= |queue|)
            && (r == Ok(()) <==> !Closes(ops) && (Conflating(ops) || hwm == 0 || |queue| < hwm))
            && s.queue == if r.Err? then queue else if Conflating(ops) then [frame] else queue + [frame]
  {
    hide RunOps, Closes, Conflating;
    RunCloses(hwm, ops);
    RunConflates(hwm, ops);
    RunSound(hwm, ops);
  }

  /** The closing delimiter is accepted exactly if the pipe is open, whatever is queued. */
  lemma CloseAcceptedIff<T(!new)>(hwm: nat, ops: seq<Op<T>>)
    ensures var queue, (s, r) := RunOps(hwm, ops).pipe.queue, WriteEnd(RunOps(hwm, ops).pipe);
            && r == (if Closes(ops) then Err(InvalidSocket) else Ok(()))
            && s.queue == if r.Err? then queue else queue + [Delimiter]
  {
    hide RunOps, Closes;
    RunCloses(hwm, ops);
  }
}
