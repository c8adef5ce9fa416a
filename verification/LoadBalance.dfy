/** Load balancing and conservation on the in-process send paths of socket.rs for PUSH and SCATTER
    (round robin) and for PAIR and CHANNEL (first peer). */
module LoadBalance {
  import opened Common

  // Fairness of `next_peer`.

  /** How many of the numbers `c`, ..., `c + k - 1` leave remainder `j` modulo `n`. */
  function Hits(c: nat, k: nat, n: nat, j: nat): nat
    requires n > 0
    decreases k
  {
    if k == 0 then 0 else Hits(c, k - 1, n, j) + if (c + k - 1) % n == j then 1 else 0
  }

  /** How many of the `k` calls from counter value `c` on pick peer `j` out of `n`; the counter wraps. */
  function Picks(c: nat, k: nat, n: nat, j: nat): nat
    requires n > 0
    decreases k
  {
    if k == 0 then 0 else Picks(c, k - 1, n, j) + if (c + k - 1) % U64_LIMIT % n == j then 1 else 0
  }

  lemma {:induction false} HitsSplit(c: nat, a: nat, b: nat, n: nat, j: nat)
    requires n > 0
    ensures Hits(c, a + b, n, j) == Hits(c, a, n, j) + Hits(c + a, b, n, j)
    decreases b
  {
    if b > 0 {
      HitsSplit(c, a, b - 1, n, j);
      assert a + b - 1 == a + (b - 1);
    }
  }

  lemma {:induction false} HitsFromZero(k: nat, n: nat, j: nat)
    requires k <= n && j < n && n > 0
    ensures Hits(0, k, n, j) == if j < k then 1 else 0
    decreases k
  {
    if k > 0 {
      HitsFromZero(k - 1, n, j);
      ModOf(k - 1, 0, k - 1, n);
    }
  }

  /** While the counter does not wrap, the picks are the hits. */
  lemma {:induction false} PicksNoWrap(c: nat, k: nat, n: nat, j: nat)
    requires n > 0 && c + k <= U64_LIMIT
    ensures Picks(c, k, n, j) == Hits(c, k, n, j)
    decreases k
  {
    if k > 0 {
      PicksNoWrap(c, k - 1, n, j);
      ModOf(c + k - 1, 0, c + k - 1, U64_LIMIT);
    }
  }

  /** A wrap splits the calls into those up to the last counter value and those from zero on. */
  lemma {:induction false} PicksWrap(c: nat, k: nat, n: nat, j: nat)
    requires n > 0 && c <= U64_LIMIT <= c + k <= 2 * U64_LIMIT
    ensures Picks(c, k, n, j) == Hits(c, U64_LIMIT - c, n, j) + Hits(0, c + k - U64_LIMIT, n, j)
    decreases k
  {
    if c + k == U64_LIMIT {
      PicksNoWrap(c, k, n, j);
    } else {
      PicksWrap(c, k - 1, n, j);
      ModOf(c + k - 1, 1, c + k - 1 - U64_LIMIT, U64_LIMIT);
    }
  }

  lemma AddModulus(x: nat, n: nat)
    requires n > 0
    ensures (x + n) % n == x % n
  {
    ModOf(x + n, x / n + 1, x % n, n);
  }

  lemma AddMultiple(x: nat, m: nat, n: nat)
    requires n > 0 && m % n == 0
    ensures (x + m) % n == x % n
  {
    var a, b := x / n, m / n;
    assert x == a * n + x % n && m == b * n;
    assert (a + b) * n == a * n + b * n;
    ModOf(x + m, a + b, x % n, n);
  }

  lemma QuotientOrder(q: nat, q': nat, r: nat, n: nat)
    requires q < q' && r < n
    ensures q * n + r < q' * n
  {
    assert q' * n == q * n + n + (q' - q - 1) * n;
  }

  lemma ModOf(x: nat, q: nat, r: nat, n: nat)
    requires n > 0 && r < n && x == q * n + r
    ensures x % n == r && x / n == q
  {
    var q', r' := x / n, x % n;
    assert x == q' * n + r';
    if q < q' {
      QuotientOrder(q, q', r, n);
    } else if q > q' {
      QuotientOrder(q', q, r', n);
    }
  }

  /** Among any `n` consecutive numbers each remainder occurs exactly once. */
  lemma {:induction false} RoundHitsOnce(c: nat, n: nat, j: nat)
    requires j < n
    ensures Hits(c, n, n, j) == 1
    decreases c
  {
    if c == 0 {
      HitsFromZero(n, n, j);
    } else {
      RoundHitsOnce(c - 1, n, j);
      HitsSplit(c - 1, 1, n - 1, n, j);
      HitsSplit(c, n - 1, 1, n, j);
      OneHit(c - 1, n, j);
      OneHit(c + n - 1, n, j);
      AddModulus(c - 1, n);
    }
  }

  lemma OneHit(c: nat, n: nat, j: nat)
    requires n > 0
    ensures Hits(c, 1, n, j) == if c % n == j then 1 else 0
  {
    assert Hits(c, 0, n, j) == 0;
  }

  lemma {:induction false} HitsShift(c: nat, m: nat, k: nat, n: nat, j: nat)
    requires n > 0 && m % n == 0
    ensures Hits(c + m, k, n, j) == Hits(c, k, n, j)
    decreases k
  {
    if k > 0 {
      HitsShift(c, m, k - 1, n, j);
      AddMultiple(c + k - 1, m, n);
    }
  }

  /** Over a wrap, with `2^64` not a multiple of `n`, a round misses one peer or picks one twice. */
  lemma WrapSpoilsRound(c: nat, n: nat) returns (j: nat)
    requires 0 < n <= U64_LIMIT && c < U64_LIMIT < c + n && U64_LIMIT % n != 0
    ensures j < n && Picks(c, n, n, j) != 1
  {
    hide Hits, Picks;
    var a, r := U64_LIMIT - c, U64_LIMIT % n;
    if r <= n - a {
      j := r - 1;
      HitsFromZero(n - a, n, j);
      HitsSplit(c, a - 1, 1, n, j);
      OneHit(U64_LIMIT - 1, n, j);
      ModOf(U64_LIMIT - 1, U64_LIMIT / n, r - 1, n);
    } else {
      j := r;
      HitsFromZero(n - a, n, j);
      RoundHitsOnce(c, n, j);
      HitsSplit(c, a, n - a, n, j);
      HitsSplit(U64_LIMIT, 1, n - a - 1, n, j);
      OneHit(U64_LIMIT, n, j);
    }
    PicksWrap(c, n, n, j);
  }

  /** Any `n` consecutive calls pick every one of the `n` peers exactly once if and only if the counter
      does not wrap among them or `2^64` is a multiple of `n`. */
  lemma RoundPicksOnceIff(c: nat, n: nat)
    requires 0 < n <= U64_LIMIT && c < U64_LIMIT
    ensures (forall j :: 0 <= j < n ==> Picks(c, n, n, j) == 1) <==> c + n <= U64_LIMIT || U64_LIMIT % n == 0
  {
    hide Hits, Picks;
    if c + n <= U64_LIMIT || U64_LIMIT % n == 0 {
      forall j | 0 <= j < n ensures Picks(c, n, n, j) == 1 {
        RoundHitsOnce(c, n, j);
        if c + n <= U64_LIMIT {
          PicksNoWrap(c, n, n, j);
        } else {
          PicksWrap(c, n, n, j);
          HitsShift(0, U64_LIMIT, c + n - U64_LIMIT, n, j);
          HitsSplit(c, U64_LIMIT - c, c + n - U64_LIMIT, n, j);
        }
      }
    } else {
      var j := WrapSpoilsRound(c, n);
    }
  }

  /** Over any `k` consecutive calls on `n` fixed peers, with the counter not wrapping, each peer is
      picked `k / n` times, rounded down or up. */
  lemma RoundRobinFair(c: nat, k: nat, n: nat, j: nat)
    requires j < n && c + k <= U64_LIMIT
    ensures k / n <= Picks(c, k, n, j) <= k / n + if k % n == 0 then 0 else 1
  {
    PicksNoWrap(c, k, n, j);
    HitsFair(c, k, n, j);
  }

  lemma {:induction false} HitsFair(c: nat, k: nat, n: nat, j: nat)
    requires j < n
    ensures k / n <= Hits(c, k, n, j) <= k / n + if k % n == 0 then 0 else 1
    decreases k
  {
    hide Hits;
    if k < n {
      HitsSplit(c, k, n - k, n, j);
      RoundHitsOnce(c, n, j);
      ModOf(k, 0, k, n);
    } else {
      HitsSplit(c, n, k - n, n, j);
      RoundHitsOnce(c, n, j);
      HitsFair(c + n, k - n, n, j);
      ModOf(k, (k - n) / n + 1, (k - n) % n, n);
    }
  }

  // Conservation.

  /** One sending endpoint: its attached peers in order, every peer's inbox, the counter, and the
      history of frames sent to and received by each peer. */
  datatype Fan<T> = Fan(
    roundRobin: bool,
    sndhwm: nat,
    peers: seq<nat>,
    counter: nat,
    inboxes: map<nat, seq<T>>,
    sent: seq<(nat, T)>,
    received: map<nat, seq<T>>)

  datatype Step<T> = Attach(id: nat) | Detach(id: nat) | Send(frame: T, fast: bool) | Receive(id: nat)

  function Init<T>(roundRobin: bool, sndhwm: nat): Fan<T> {
    Fan(roundRobin, sndhwm, [], 0, map[], [], map[])
  }

  /** The peer `next_peer` or `first_peer` picks. */
  function Target<T>(f: Fan<T>): Option<nat> {
    if f.peers == [] then None
    else Some(f.peers[if f.roundRobin then f.counter % |f.peers| else 0])
  }

  /** `send`: the fast path does not look at the high-water mark, the slow path does. A refused frame
      has still moved the counter. */
  function DoSend<T>(f: Fan<T>, frame: T, fast: bool): (Fan<T>, Result<()>) {
    match Target(f)
    case None => (f, Err(Again))
    case Some(id) =>
      var moved := f.(counter := if f.roundRobin then Advanced(f.counter) else f.counter);
      var queue := At(f.inboxes, id);
      if !fast && f.sndhwm > 0 && |queue| >= f.sndhwm then (moved, Err(Again))
      else (moved.(inboxes := f.inboxes[id := queue + [frame]], sent := f.sent + [(id, frame)]), Ok(()))
  }

  function Apply<T>(f: Fan<T>, step: Step<T>): Fan<T> {
    match step
    case Attach(id) => f.(peers := f.peers + [id])
    case Detach(id) => f.(peers := Without(f.peers, id))
    case Send(frame, fast) => DoSend(f, frame, fast).0
    case Receive(id) =>
      var queue := At(f.inboxes, id);
      if queue == [] then f
      else f.(inboxes := f.inboxes[id := queue[1..]], received := f.received[id := At(f.received, id) + [queue[0]]])
  }

  function At<T>(queues: map<nat, seq<T>>, id: nat): seq<T> {
    if id in queues then queues[id] else []
  }

  function Run<T>(roundRobin: bool, sndhwm: nat, steps: seq<Step<T>>): Fan<T> {
    if steps == [] then Init(roundRobin, sndhwm)
    else Apply(Run(roundRobin, sndhwm, steps[..|steps| - 1]), steps[|steps| - 1])
  }

  /** The frames sent to one peer, in order. */
  function SentTo<T>(sent: seq<(nat, T)>, id: nat): seq<T> {
    if sent == [] then []
    else SentTo(sent[..|sent| - 1], id) + if sent[|sent| - 1].0 == id then [sent[|sent| - 1].1] else []
  }

  /** Nothing is lost, duplicated or reordered on the way to any peer. */
  ghost predicate Conserved<T>(f: Fan<T>) {
    forall id :: SentTo(f.sent, id) == At(f.received, id) + At(f.inboxes, id)
  }

  lemma SentOneMore<T>(sent: seq<(nat, T)>, id: nat, frame: T, k: nat)
    ensures SentTo(sent + [(id, frame)], k) == SentTo(sent, k) + if k == id then [frame] else []
  {
    ConcatSplit(sent, [(id, frame)]);
  }

  /** A successful send queues exactly one frame on exactly one attached peer; a failed one none. */
  lemma SendQueuesOne<T>(f: Fan<T>, frame: T, fast: bool)
    ensures var (f', r) := DoSend(f, frame, fast);
            && (r.Err? ==> f'.inboxes == f.inboxes && f'.sent == f.sent)
            && (r.Ok? ==> exists id :: id in f.peers && f'.sent == f.sent + [(id, frame)] &&
                                       f'.inboxes == f.inboxes[id := At(f.inboxes, id) + [frame]])
  {
    if Target(f).Some? {
      assert Target(f).value in f.peers;
    }
  }

  lemma SendConserves<T>(f: Fan<T>, frame: T, fast: bool)
    requires Conserved(f)
    ensures Conserved(DoSend(f, frame, fast).0)
  {
    hide SentTo;
    var (f', r) := DoSend(f, frame, fast);
    if r.Ok? {
      var id := Target(f).value;
      forall k ensures SentTo(f'.sent, k) == At(f'.received, k) + At(f'.inboxes, k) {
        SentOneMore(f.sent, id, frame, k);
        assert SentTo(f.sent, k) == At(f.received, k) + At(f.inboxes, k);
        ConcatAssociative(At(f.received, k), At(f.inboxes, k), [frame]);
        ConcatEmpty(SentTo(f.sent, k));
      }
    }
  }

  lemma ReceiveConserves<T>(f: Fan<T>, id: nat)
    requires Conserved(f)
    ensures Conserved(Apply(f, Receive(id)))
  {
    hide SentTo;
    var queue := At(f.inboxes, id);
    if queue != [] {
      assert queue == [queue[0]] + queue[1..];
      ConcatAssociative(At(f.received, id), [queue[0]], queue[1..]);
    }
  }

  /** In every run, for every peer, the frames sent to it are the frames it received followed by the
      frames still queued for it, in order. */
  lemma {:induction false} RunConserves<T>(roundRobin: bool, sndhwm: nat, steps: seq<Step<T>>)
    ensures Conserved(Run(roundRobin, sndhwm, steps))
  {
    if steps != [] {
      var f, step := Run(roundRobin, sndhwm, steps[..|steps| - 1]), steps[|steps| - 1];
      RunConserves(roundRobin, sndhwm, steps[..|steps| - 1]);
      hide SentTo, DoSend;
      match step
      case Attach(id) =>
      case Detach(id) =>
      case Send(frame, fast) => SendConserves(f, frame, fast);
      case Receive(id) => ReceiveConserves(f, id);
    }
  }

  // Who gets the frames.

  /** A send fails exactly if there is no peer, or on the slow path if the peer whose turn it is has reached the
      high-water mark. */
  lemma SendFailsIff<T>(f: Fan<T>, frame: T, fast: bool)
    ensures DoSend(f, frame, fast).1 ==
            if |f.peers| == 0 then Err(Again)
            else
              var id := f.peers[if f.roundRobin then f.counter % |f.peers| else 0];
              if fast || f.sndhwm == 0 || |At(f.inboxes, id)| < f.sndhwm then Ok(()) else Err(Again)
  {
  }

  /** Frames sent one after the other on the fast path. */
  function SendAll<T>(f: Fan<T>, frames: seq<T>): Fan<T> {
    if frames == [] then f else DoSend(SendAll(f, frames[..|frames| - 1]), frames[|frames| - 1], true).0
  }

  lemma AdvancedBy(c: nat, k: nat)
    ensures Advanced((c + k) % U64_LIMIT) == (c + k + 1) % U64_LIMIT
  {
    var q, r := (c + k) / U64_LIMIT, (c + k) % U64_LIMIT;
    if r + 1 == U64_LIMIT {
      ModOf(c + k + 1, q + 1, 0, U64_LIMIT);
    } else {
      ModOf(c + k + 1, q, r + 1, U64_LIMIT);
    }
  }

  ghost predicate NoRepeats(s: seq<nat>) {
    forall i, j :: 0 <= i < j < |s| ==> s[i] != s[j]
  }

  lemma OneTurn<T>(f: Fan<T>, frame: T, j: nat)
    requires f.roundRobin && j < |f.peers| && NoRepeats(f.peers)
    ensures var f' := DoSend(f, frame, true).0;
            && f' == f.(counter := Advanced(f.counter), inboxes := f'.inboxes, sent := f'.sent)
            && |SentTo(f'.sent, f.peers[j])| ==
               |SentTo(f.sent, f.peers[j])| + if f.counter % |f.peers| == j then 1 else 0
  {
    hide SentTo, Advanced;
    var turn := f.counter % |f.peers|;
    SentOneMore(f.sent, f.peers[turn], frame, f.peers[j]);
    assert f.peers[turn] == f.peers[j] <==> turn == j;
  }

  /** Round robin: peer `j` gets as many of the frames as `Picks` counts. */
  lemma {:induction false} SendsArePicks<T>(f: Fan<T>, frames: seq<T>, j: nat)
    requires f.roundRobin && j < |f.peers| && NoRepeats(f.peers) && f.counter < U64_LIMIT
    ensures var f' := SendAll(f, frames);
            && f' == f.(counter := (f.counter + |frames|) % U64_LIMIT, inboxes := f'.inboxes, sent := f'.sent)
            && |SentTo(f'.sent, f.peers[j])| ==
               |SentTo(f.sent, f.peers[j])| + Picks(f.counter, |frames|, |f.peers|, j)
  {
    hide SentTo, DoSend, NoRepeats;
    if frames == [] {
      ModOf(f.counter, 0, f.counter, U64_LIMIT);
    } else {
      var k := |frames| - 1;
      SendsArePicks(f, frames[..k], j);
      AdvancedBy(f.counter, k);
      OneTurn(SendAll(f, frames[..k]), frames[k], j);
    }
  }

  /** A PUSH or SCATTER with `n` peers, each connected once, shares any `k` frames out evenly: each peer gets
      `k / n` of them, rounded down or up, unless the counter wraps. */
  lemma SendsShareEvenly<T>(f: Fan<T>, frames: seq<T>, j: nat)
    requires f.roundRobin && j < |f.peers| && NoRepeats(f.peers) && f.counter + |frames| <= U64_LIMIT
    requires f.counter < U64_LIMIT
    ensures var k, n := |frames|, |f.peers|;
            var got := |SentTo(SendAll(f, frames).sent, f.peers[j])| - |SentTo(f.sent, f.peers[j])|;
            k / n <= got <= k / n + if k % n == 0 then 0 else 1
  {
    hide SentTo, SendAll, Picks;
    SendsArePicks(f, frames, j);
    RoundRobinFair(f.counter, |frames|, |f.peers|, j);
  }

  /** A PAIR or CHANNEL sends everything to its first peer, in order. */
  lemma {:induction false} FirstPeerGetsAll<T>(f: Fan<T>, frames: seq<T>, id: nat)
    requires !f.roundRobin && f.peers != []
    ensures var f' := SendAll(f, frames);
            && f'.peers == f.peers && !f'.roundRobin
            && SentTo(f'.sent, id) == SentTo(f.sent, id) + if id == f.peers[0] then frames else []
  {
    hide SentTo;
    ConcatEmpty(SentTo(f.sent, id));
    if frames != [] {
      var k := |frames| - 1;
      FirstPeerGetsAll(f, frames[..k], id);
      SentOneMore(SendAll(f, frames[..k]).sent, f.peers[0], frames[k], id);
      ConcatAssociative(SentTo(f.sent, id), frames[..k], [frames[k]]);
      assert frames == frames[..k] + [frames[k]];
      ConcatEmpty(SentTo(SendAll(f, frames[..k]).sent, id));
    }
  }
}
