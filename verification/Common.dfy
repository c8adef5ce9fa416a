/** Shared vocabulary: bytes, the library's error kinds, and big-endian integers. */
module Common {
  newtype byte = x: int | 0 <= x < 256

  type Bytes = seq<byte>

  datatype Option<+T> = None | Some(value: T)

  /** The error kinds of error.rs that the modelled operations can return. */
  datatype Error =
    | InvalidArgument
    | InvalidSocket
    | NotSupported
    | Again
    | InvalidState
    | HostUnreachable

  datatype Result<+T> = Ok(value: T) | Err(error: Error) {
    predicate IsFailure() {
      Err?
    }

    function PropagateFailure<U>(): Result<U>
      requires Err?
    {
      Err(error)
    }

    function Extract(): T
      requires Ok?
    {
      value
    }
  }

  const U32_LIMIT: nat := 0x1_0000_0000
  const U64_LIMIT: nat := 0x1_0000_0000_0000_0000
  const U64_MAX: nat := U64_LIMIT - 1

  function Min(a: nat, b: nat): nat {
    if a <= b then a else b
  }

  /** Number of values a big-endian field of `width` bytes can hold. */
  function FieldLimit(width: nat): (limit: nat)
    ensures limit > 0
  {
    if width == 0 then 1 else 256 * FieldLimit(width - 1)
  }

  /** `to_be_bytes` of the low `8 * width` bits of `n`. */
  function BigEndian(n: nat, width: nat): (b: Bytes)
    ensures |b| == width
    decreases width
  {
    if width == 0 then [] else BigEndian(n / 256, width - 1) + [(n % 256) as byte]
  }

  /** `from_be_bytes`. */
  function FromBigEndian(b: Bytes): (n: nat)
  {
    if b == [] then 0 else 256 * FromBigEndian(b[..|b| - 1]) + b[|b| - 1] as nat
  }

  lemma {:induction false} FromBigEndianBound(b: Bytes)
    ensures FromBigEndian(b) < FieldLimit(|b|)
  {
    if b != [] {
      FromBigEndianBound(b[..|b| - 1]);
    }
  }

  /** A field that can hold the number gives it back. */
  lemma {:induction false} BigEndianRead(n: nat, width: nat)
    requires n < FieldLimit(width)
    ensures FromBigEndian(BigEndian(n, width)) == n
    decreases width
  {
    if width > 0 {
      BigEndianRead(n / 256, width - 1);
      assert BigEndian(n, width)[..width - 1] == BigEndian(n / 256, width - 1);
    }
  }

  lemma {:induction false} BigEndianWrite(b: Bytes)
    ensures BigEndian(FromBigEndian(b), |b|) == b
  {
    if b != [] {
      BigEndianWrite(b[..|b| - 1]);
      assert b == b[..|b| - 1] + [b[|b| - 1]];
    }
  }

  /** The most significant byte comes first. */
  lemma {:induction false} BigEndianDigits(n: nat, width: nat, i: nat)
    requires i < width
    ensures BigEndian(n, width)[i] as nat == n / FieldLimit(width - 1 - i) % 256
    decreases width
  {
    if i < width - 1 {
      BigEndianDigits(n / 256, width - 1, i);
      var limit := FieldLimit(width - 2 - i);
      DivideTwice(n, limit);
      assert FieldLimit(width - 1 - i) == 256 * limit;
    }
  }

  lemma DivideTwice(n: nat, d: nat)
    requires d > 0
    ensures n / 256 / d == n / (256 * d)
  {
    var q, r, low := n / 256 / d, n / 256 % d, n % 256;
    assert n == 256 * (d * q + r) + low;
    assert n == (256 * d) * q + (256 * r + low) && 256 * r + low < 256 * d;
    QuotientOf(n, 256 * d, q, 256 * r + low);
  }

  lemma QuotientOf(n: nat, d: nat, q: nat, r: nat)
    requires r < d && n == d * q + r
    ensures n / d == q
  {
    var q', r' := n / d, n % d;
    assert n == d * q' + r' && r' < d;
    if q > q' { MultiplesApart(d, q, q'); }
    if q < q' { MultiplesApart(d, q', q); }
  }

  lemma MultiplesApart(d: nat, more: nat, less: nat)
    requires more > less
    ensures d * more >= d * less + d
  {
    var k := more - less - 1;
    assert d * more == d * less + d + d * k;
  }

  lemma FieldLimits()
    ensures FieldLimit(1) == 256 && FieldLimit(2) == 0x1_0000
    ensures FieldLimit(4) == U32_LIMIT && FieldLimit(8) == U64_LIMIT
  {
    assert FieldLimit(3) == 0x100_0000;
    assert FieldLimit(5) == 0x100_0000_0000;
    assert FieldLimit(6) == 0x1_0000_0000_0000;
    assert FieldLimit(7) == 0x100_0000_0000_0000;
  }

  /** The bytes of an ASCII string. */
  function Ascii(s: string): (b: Bytes)
    ensures |b| == |s|
  {
    seq(|s|, i requires 0 <= i < |s| => (s[i] as int % 256) as byte)
  }

  /** `fetch_add(1)` on a 64-bit counter. */
  function Advanced(counter: nat): nat {
    (counter + 1) % U64_LIMIT
  }

  /** `retain` with everything but `x`. */
  function Without<T(==, !new)>(s: seq<T>, x: T): (r: seq<T>)
    ensures forall y :: y in r <==> y in s && y != x
  {
    if s == [] then []
    else
      var rest := Without(s[1..], x);
      if s[0] == x then rest else [s[0]] + rest
  }

  /** Dropping keeps the order of the rest: it acts on each part of the list by itself. */
  lemma {:induction false} WithoutConcat<T(!new)>(a: seq<T>, b: seq<T>, x: T)
    ensures Without(a + b, x) == Without(a, x) + Without(b, x)
    ensures x !in a ==> Without(a, x) == a
  {
    if a == [] {
      ConcatEmpty(b);
    } else {
      WithoutConcat(a[1..], b, x);
      assert (a + b)[1..] == a[1..] + b;
      assert a == [a[0]] + a[1..];
    }
  }

  lemma {:induction false} WithoutLength<T(!new)>(s: seq<T>, x: T)
    ensures |Without(s, x)| <= |s|
    ensures |Without(s, x)| != |s| <==> x in s
  {
    if s != [] { WithoutLength(s[1..], x); }
  }

  // Sequence facts used by name, so that proofs about long byte strings stay cheap.

  lemma ConcatAssociative<T>(a: seq<T>, b: seq<T>, c: seq<T>)
    ensures a + (b + c) == (a + b) + c
  {
  }

  lemma ConcatEmpty<T>(a: seq<T>)
    ensures a + [] == a && [] + a == a
  {
  }

  lemma ConcatSplit<T>(a: seq<T>, b: seq<T>)
    ensures (a + b)[..|a|] == a && (a + b)[|a|..] == b
  {
  }

  lemma SplitConcat<T>(s: seq<T>, k: nat)
    requires k <= |s|
    ensures s[..k] + s[k..] == s
  {
  }
}
