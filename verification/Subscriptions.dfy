/** `SubscriptionState` of context.rs: a reference-counted prefix set with three redundant
    accelerators. */
module Subscriptions {
  import opened Common

  /** The abstract value: live prefixes in insertion order, and their reference counts. */
  datatype Subs = Subs(order: seq<Bytes>, refs: map<Bytes, nat>)

  const EMPTY: Subs := Subs([], map[])

  ghost predicate NoDuplicates<T>(s: seq<T>) {
    forall i, j :: 0 <= i < j < |s| ==> s[i] != s[j]
  }

  ghost predicate WellFormed(s: Subs) {
    && NoDuplicates(s.order)
    && (forall p :: p in s.order <==> p in s.refs)
    && (forall p :: p in s.refs ==> s.refs[p] > 0)
  }

  /** `insert`: the new value and whether the prefix is new. */
  function Insert(s: Subs, p: Bytes): (Subs, bool) {
    if p in s.refs then (s.(refs := s.refs[p := s.refs[p] + 1]), false)
    else (Subs(s.order + [p], s.refs[p := 1]), true)
  }

  /** `remove`: the new value and whether the prefix is gone. */
  function Remove(s: Subs, p: Bytes): (Subs, bool) {
    if p !in s.refs then (s, false)
    else if s.refs[p] > 1 then (s.(refs := s.refs[p := s.refs[p] - 1]), false)
    else (Subs(Without(s.order, p), s.refs - {p}), true)
  }

  lemma {:induction false} WithoutKeepsDistinct(order: seq<Bytes>, p: Bytes)
    requires NoDuplicates(order)
    ensures NoDuplicates(Without(order, p))
  {
    if order != [] {
      WithoutKeepsDistinct(order[1..], p);
      assert order[0] !in order[1..];
    }
  }

  lemma InsertWellFormed(s: Subs, p: Bytes)
    requires WellFormed(s)
    ensures WellFormed(Insert(s, p).0)
  {
  }

  lemma RemoveWellFormed(s: Subs, p: Bytes)
    requires WellFormed(s)
    ensures WellFormed(Remove(s, p).0)
  {
    WithoutKeepsDistinct(s.order, p);
  }

  /** The naive meaning of a match: some live prefix starts the data. */
  ghost predicate Matches(refs: map<Bytes, nat>, data: Bytes) {
    exists p :: p in refs && p <= data
  }

  ghost predicate StartsSome(stored: seq<Bytes>, b: int) {
    exists p :: p in stored && p != [] && p[0] as int == b
  }

  ghost predicate SomeOfLength(stored: seq<Bytes>, n: nat) {
    exists p :: p in stored && |p| == n
  }

  /** `flags` marks exactly the first bytes of the stored prefixes. */
  ghost predicate FirstBytesOf(flags: seq<bool>, stored: seq<Bytes>) {
    |flags| == 256 && forall b :: 0 <= b < 256 ==> (flags[b] <==> StartsSome(stored, b))
  }

  /** `lengths` lists exactly the lengths of the stored prefixes. */
  ghost predicate LengthsOf(lengths: seq<nat>, stored: seq<Bytes>) {
    forall n :: n in lengths <==> SomeOfLength(stored, n)
  }

  lemma NoteFirstByte(flags: seq<bool>, stored: seq<Bytes>, p: Bytes)
    requires FirstBytesOf(flags, stored)
    ensures FirstBytesOf(if p == [] then flags else flags[p[0] as int := true], stored + [p])
  {
    forall b | 0 <= b < 256
      ensures StartsSome(stored + [p], b) <==> StartsSome(stored, b) || (p != [] && p[0] as int == b)
    {
      StartsSomeExtend(stored, p, b);
    }
  }

  lemma StartsSomeExtend(stored: seq<Bytes>, p: Bytes, b: int)
    ensures StartsSome(stored + [p], b) <==> StartsSome(stored, b) || (p != [] && p[0] as int == b)
  {
    assert p in stored + [p];
    assert forall q :: q in stored ==> q in stored + [p];
  }

  lemma NoteLength(lengths: seq<nat>, stored: seq<Bytes>, p: Bytes)
    requires LengthsOf(lengths, stored)
    ensures LengthsOf(if |p| in lengths then lengths else lengths + [|p|], stored + [p])
  {
    forall n: nat ensures SomeOfLength(stored + [p], n) <==> SomeOfLength(stored, n) || |p| == n {
      assert p in stored + [p];
      assert forall q :: q in stored ==> q in stored + [p];
    }
  }

  /** A match is found among the listed lengths. */
  lemma MatchHasLength(s: Subs, lengths: seq<nat>, data: Bytes) returns (n: nat)
    requires WellFormed(s) && LengthsOf(lengths, s.order) && Matches(s.refs, data)
    ensures n in lengths && n <= |data| && data[..n] in s.refs
  {
    var p :| p in s.refs && p <= data;
    assert p in s.order;
    assert SomeOfLength(s.order, |p|);
    n := |p|;
    assert data[..n] == p;
  }

  class SubscriptionState {
    var prefixes: seq<Bytes>
    var exact: map<Bytes, nat>
    var firstBytes: array<bool>
    var lengths: seq<nat>
    var hasEmpty: bool

    ghost function View(): Subs
      reads this
    {
      Subs(prefixes, exact)
    }

    /** Each accelerator says exactly what it summarises. */
    ghost predicate Valid()
      reads this, firstBytes
    {
      && WellFormed(View())
      && FirstBytesOf(firstBytes[..], prefixes)
      && LengthsOf(lengths, prefixes)
      && (hasEmpty <==> [] in exact)
    }

    constructor ()
      ensures Valid() && View() == EMPTY && fresh(firstBytes)
    {
      prefixes, exact, lengths, hasEmpty := [], map[], [], false;
      firstBytes := new bool[256](_ => false);
    }

    /** Records one more stored prefix in the accelerators. */
    method Note(ghost stored: seq<Bytes>, p: Bytes)
      requires FirstBytesOf(firstBytes[..], stored) && LengthsOf(lengths, stored)
      modifies this`lengths, firstBytes
      ensures FirstBytesOf(firstBytes[..], stored + [p]) && LengthsOf(lengths, stored + [p])
    {
      NoteFirstByte(firstBytes[..], stored, p);
      NoteLength(lengths, stored, p);
      assert firstBytes.Length == 256;
      hide FirstBytesOf, LengthsOf;
      if p != [] {
        ghost var flags := firstBytes[..];
        firstBytes[p[0] as int] := true;
        assert firstBytes[..] == flags[p[0] as int := true];
      }
      if |p| !in lengths {
        lengths := lengths + [|p|];
      }
    }

    method Add(p: Bytes) returns (added: bool)
      requires Valid()
      modifies this, firstBytes
      ensures Valid() && firstBytes == old(firstBytes)
      ensures (View(), added) == Insert(old(View()), p)
    {
      hide FirstBytesOf, LengthsOf, WellFormed;
      InsertWellFormed(View(), p);
      if p in exact {
        exact := exact[p := exact[p] + 1];
        return false;
      }
      exact := exact[p := 1];
      hasEmpty := hasEmpty || p == [];
      Note(prefixes, p);
      prefixes := prefixes + [p];
      added := true;
    }

    /** The rebuild loop of `remove`. */
    method Rebuild()
      modifies this`firstBytes, this`lengths
      ensures fresh(firstBytes)
      ensures FirstBytesOf(firstBytes[..], prefixes) && LengthsOf(lengths, prefixes)
    {
      firstBytes := new bool[256](_ => false);
      lengths := [];
      var at := 0;
      while at < |prefixes|
        invariant 0 <= at <= |prefixes| && fresh(firstBytes)
        invariant FirstBytesOf(firstBytes[..], prefixes[..at]) && LengthsOf(lengths, prefixes[..at])
      {
        Note(prefixes[..at], prefixes[at]);
        assert prefixes[..at] + [prefixes[at]] == prefixes[..at + 1];
        at := at + 1;
      }
      assert prefixes[..at] == prefixes;
    }

    method Drop(p: Bytes) returns (removed: bool)
      requires Valid()
      modifies this, firstBytes
      ensures Valid() && (firstBytes == old(firstBytes) || fresh(firstBytes))
      ensures (View(), removed) == Remove(old(View()), p)
    {
      hide FirstBytesOf, LengthsOf, WellFormed;
      RemoveWellFormed(View(), p);
      if p !in exact {
        return false;
      }
      if exact[p] > 1 {
        exact := exact[p := exact[p] - 1];
        assert [] in exact <==> [] in old(exact);
        return false;
      }
      exact := exact - {p};
      prefixes := Without(prefixes, p);
      hasEmpty := [] in exact;
      Rebuild();
      removed := true;
    }

    /** `matches_prefix_of`: the accelerated test is the naive one. */
    method MatchesPrefixOf(data: Bytes) returns (m: bool)
      requires Valid()
      ensures m <==> Matches(exact, data)
    {
      if hasEmpty {
        assert [] <= data;
        return true;
      }
      if data == [] || !firstBytes[data[0] as int] {
        return false;
      }
      var at := 0;
      while at < |lengths|
        invariant 0 <= at <= |lengths|
        invariant forall i :: 0 <= i < at ==> !(lengths[i] <= |data| && data[..lengths[i]] in exact)
      {
        if lengths[at] <= |data| && data[..lengths[at]] in exact {
          assert data[..lengths[at]] <= data;
          return true;
        }
        at := at + 1;
      }
      if Matches(exact, data) {
        var n := MatchHasLength(View(), lengths, data);
        assert false;
      }
      m := false;
    }

    /** `count`: the number of distinct stored prefixes. */
    method Count() returns (n: nat)
      requires Valid()
      ensures n == |prefixes| && NoDuplicates(prefixes)
      ensures forall ops :: View() == RunOps(ops) ==> n == |Live(ops)|
    {
      n := |exact|;
      DistinctCount(prefixes, exact.Keys);
      forall ops | View() == RunOps(ops) ensures n == |Live(ops)| {
        RunCounts(ops);
      }
    }
  }

  // Runs of inserts and removes.

  datatype Op = Ins(prefix: Bytes) | Rem(prefix: Bytes)

  function Apply(s: Subs, op: Op): (Subs, bool) {
    match op
    case Ins(p) => Insert(s, p)
    case Rem(p) => Remove(s, p)
  }

  function RunOps(ops: seq<Op>): Subs {
    if ops == [] then EMPTY else Apply(RunOps(ops[..|ops| - 1]), ops[|ops| - 1]).0
  }

  /** Reference count of one prefix, looking only at the operations on that prefix. */
  function RefCount(ops: seq<Op>, p: Bytes): nat {
    if ops == [] then 0
    else
      var n, op := RefCount(ops[..|ops| - 1], p), ops[|ops| - 1];
      if op.prefix != p then n else if op.Ins? then n + 1 else if n > 0 then n - 1 else 0
  }

  /** The prefixes an operation list speaks of. */
  function Mentioned(ops: seq<Op>): set<Bytes> {
    set i | 0 <= i < |ops| :: ops[i].prefix
  }

  /** The prefixes with a positive count. */
  function Live(ops: seq<Op>): set<Bytes> {
    set p | p in Mentioned(ops) && RefCount(ops, p) > 0
  }

  lemma {:induction false} CountedIsMentioned(ops: seq<Op>, p: Bytes)
    requires RefCount(ops, p) > 0
    ensures p in Mentioned(ops)
  {
    if ops[|ops| - 1].prefix != p {
      CountedIsMentioned(ops[..|ops| - 1], p);
      var i :| 0 <= i < |ops| - 1 && ops[..|ops| - 1][i].prefix == p;
      assert ops[i].prefix == p;
    }
  }

  /** A list without duplicates is as long as the set of its elements. */
  lemma {:induction false} DistinctCount(order: seq<Bytes>, members: set<Bytes>)
    requires NoDuplicates(order) && forall p :: p in order <==> p in members
    ensures |order| == |members|
  {
    if order != [] {
      var front, last := order[..|order| - 1], order[|order| - 1];
      assert last !in front;
      assert forall p :: p in order <==> p in front || p == last;
      DistinctCount(front, members - {last});
    }
  }

  /** After any run the stored counts are the per-prefix counts, and exactly the prefixes with a
      positive count are stored, once each; so as many are stored as have a positive count. */
  lemma RunCounts(ops: seq<Op>)
    ensures WellFormed(RunOps(ops))
    ensures forall p :: p in RunOps(ops).refs <==> RefCount(ops, p) > 0
    ensures forall p :: p in RunOps(ops).refs ==> RunOps(ops).refs[p] == RefCount(ops, p)
    ensures |RunOps(ops).order| == |RunOps(ops).refs| == |Live(ops)|
  {
    RunCountsEach(ops);
    hide RunOps;
    var s := RunOps(ops);
    forall p ensures p in s.order <==> p in Live(ops) {
      if RefCount(ops, p) > 0 { CountedIsMentioned(ops, p); }
    }
    DistinctCount(s.order, Live(ops));
    DistinctCount(s.order, s.refs.Keys);
    assert |s.refs| == |s.refs.Keys|;
  }

  lemma {:induction false} RunCountsEach(ops: seq<Op>)
    ensures WellFormed(RunOps(ops))
    ensures forall p :: p in RunOps(ops).refs <==> RefCount(ops, p) > 0
    ensures forall p :: p in RunOps(ops).refs ==> RunOps(ops).refs[p] == RefCount(ops, p)
  {
    if ops != [] {
      var before, op := ops[..|ops| - 1], ops[|ops| - 1];
      RunCountsEach(before);
      InsertWellFormed(RunOps(before), op.prefix);
      RemoveWellFormed(RunOps(before), op.prefix);
      forall p
        ensures p in RunOps(ops).refs <==> RefCount(ops, p) > 0
        ensures p in RunOps(ops).refs ==> RunOps(ops).refs[p] == RefCount(ops, p)
      {
      }
    }
  }

  /** After any run, a further insert reports "new" exactly on 0 to 1, and a further remove reports
      "gone" exactly on 1 to 0. */
  lemma RunAnswers(ops: seq<Op>, p: Bytes)
    ensures Insert(RunOps(ops), p).1 <==> RefCount(ops, p) == 0
    ensures Remove(RunOps(ops), p).1 <==> RefCount(ops, p) == 1
  {
    hide RunOps, RefCount;
    RunCounts(ops);
  }

  ghost predicate CountedPrefix(ops: seq<Op>, p: Bytes, data: Bytes) {
    p <= data && RefCount(ops, p) > 0
  }

  /** After any run, data matches exactly when some prefix of it has a positive count. */
  lemma RunMatches(ops: seq<Op>, data: Bytes)
    ensures Matches(RunOps(ops).refs, data) <==> exists p :: CountedPrefix(ops, p, data)
  {
    hide RunOps, RefCount;
    RunCounts(ops);
    var refs := RunOps(ops).refs;
    if Matches(refs, data) {
      var p :| p in refs && p <= data;
      assert CountedPrefix(ops, p, data);
    }
    if exists p :: CountedPrefix(ops, p, data) {
      var p :| CountedPrefix(ops, p, data);
      assert p in refs && p <= data;
    }
  }

  // The stored order.

  /** When the prefix last went from no reference to one. */
  function Since(ops: seq<Op>, p: Bytes): nat {
    if ops == [] then 0
    else
      var before, op := ops[..|ops| - 1], ops[|ops| - 1];
      if op == Ins(p) && RefCount(before, p) == 0 then |before| else Since(before, p)
  }

  ghost predicate ByAge(ops: seq<Op>, order: seq<Bytes>) {
    forall i, j :: 0 <= i < j < |order| ==> Since(ops, order[i]) < Since(ops, order[j])
  }

  lemma {:induction false} SinceWasEarlier(ops: seq<Op>, p: Bytes)
    requires RefCount(ops, p) > 0
    ensures Since(ops, p) < |ops|
  {
    if RefCount(ops[..|ops| - 1], p) > 0 { SinceWasEarlier(ops[..|ops| - 1], p); }
  }

  lemma {:induction false} ByAgeWithout(ops: seq<Op>, order: seq<Bytes>, p: Bytes)
    requires ByAge(ops, order)
    ensures ByAge(ops, Without(order, p))
  {
    hide Since;
    if order != [] {
      ByAgeWithout(ops, order[1..], p);
      var rest := Without(order[1..], p);
      forall i | 0 <= i < |rest| ensures Since(ops, order[0]) < Since(ops, rest[i]) {
        assert rest[i] in order[1..];
        var j :| 0 <= j < |order| - 1 && order[1..][j] == rest[i];
        assert order[j + 1] == rest[i];
      }
    }
  }

  lemma SameAge(before: seq<Op>, op: Op, order: seq<Bytes>)
    requires ByAge(before, order) && forall p :: p in order ==> RefCount(before, p) > 0
    ensures ByAge(before + [op], order)
  {
    ConcatSplit(before, [op]);
    forall i | 0 <= i < |order| ensures Since(before + [op], order[i]) == Since(before, order[i]) {
      assert order[i] in order;
    }
  }

  lemma NewestLast(before: seq<Op>, p: Bytes, order: seq<Bytes>)
    requires ByAge(before + [Ins(p)], order) && RefCount(before, p) == 0
    requires forall q :: q in order ==> RefCount(before, q) > 0
    ensures ByAge(before + [Ins(p)], order + [p])
  {
    ConcatSplit(before, [Ins(p)]);
    assert Since(before + [Ins(p)], p) == |before|;
    forall i | 0 <= i < |order| ensures Since(before + [Ins(p)], order[i]) < |before| {
      assert order[i] in order;
      SinceWasEarlier(before, order[i]);
    }
  }

  /** After any run the prefixes are stored in the order in which each last became live. */
  lemma {:induction false} RunOrder(ops: seq<Op>)
    ensures ByAge(ops, RunOps(ops).order)
  {
    if ops != [] {
      var before, op := ops[..|ops| - 1], ops[|ops| - 1];
      var s := RunOps(before);
      RunOrder(before);
      RunCountsEach(before);
      assert before + [op] == ops;
      hide ByAge, RefCount, RunOps;
      SameAge(before, op, s.order);
      if op.Ins? && op.prefix !in s.refs {
        NewestLast(before, op.prefix, s.order);
      }
      ByAgeWithout(ops, s.order, op.prefix);
      LastApplied(ops);
    }
  }

  lemma LastApplied(ops: seq<Op>)
    requires ops != []
    ensures RunOps(ops) == Apply(RunOps(ops[..|ops| - 1]), ops[|ops| - 1]).0
  {
  }
}
