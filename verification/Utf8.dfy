/** Well-formed UTF-8 (section 4 of RFC 3629), as `std::str::from_utf8` checks it. */
module Utf8 {
  import opened Common

  predicate In(b: byte, low: byte, high: byte) {
    low <= b <= high
  }

  /** Length of the well-formed character at the front, 0 if there is none. */
  function FirstChar(b: Bytes): (n: nat)
    ensures n <= |b|
  {
    if b == [] then 0
    else if b[0] < 0x80 then 1
    else if |b| >= 2 && In(b[0], 0xC2, 0xDF) && In(b[1], 0x80, 0xBF) then 2
    else if |b| >= 3 && In(b[0], 0xE0, 0xEF) && In(b[2], 0x80, 0xBF) &&
            In(b[1], if b[0] == 0xE0 then 0xA0 else 0x80, if b[0] == 0xED then 0x9F else 0xBF) then 3
    else if |b| >= 4 && In(b[0], 0xF0, 0xF4) && In(b[2], 0x80, 0xBF) && In(b[3], 0x80, 0xBF) &&
            In(b[1], if b[0] == 0xF0 then 0x90 else 0x80, if b[0] == 0xF4 then 0x8F else 0xBF) then 4
    else 0
  }

  predicate Valid(b: Bytes) {
    b == [] || (FirstChar(b) > 0 && Valid(b[FirstChar(b)..]))
  }

  lemma {:induction false} AsciiPrefix(a: Bytes, b: Bytes)
    requires forall i :: 0 <= i < |a| ==> a[i] < 0x80
    ensures Valid(a + b) == Valid(b)
  {
    if a == [] {
      ConcatEmpty(b);
    } else {
      AsciiPrefix(a[1..], b);
      assert (a + b)[1..] == a[1..] + b;
    }
  }

  // What well-formed text is.

  /** A Unicode scalar value: a code point that is not a surrogate. */
  predicate Scalar(c: nat) {
    c < 0xD800 || 0xE000 <= c < 0x11_0000
  }

  /** The encoding of one scalar value in section 3 of RFC 3629. */
  function EncodeScalar(c: nat): (b: Bytes)
    requires Scalar(c)
    ensures 1 <= |b| <= 4
  {
    if c < 0x80 then [c as byte]
    else if c < 0x800 then [(0xC0 + c / 64) as byte, (0x80 + c % 64) as byte]
    else if c < 0x1_0000 then
      [(0xE0 + c / 4096) as byte, (0x80 + c / 64 % 64) as byte, (0x80 + c % 64) as byte]
    else
      [(0xF0 + c / 262144) as byte, (0x80 + c / 4096 % 64) as byte, (0x80 + c / 64 % 64) as byte,
       (0x80 + c % 64) as byte]
  }

  function EncodeText(text: seq<nat>): Bytes
    requires forall i :: 0 <= i < |text| ==> Scalar(text[i])
  {
    if text == [] then [] else EncodeScalar(text[0]) + EncodeText(text[1..])
  }

  /** Two bytes: 110xxxxx 10xxxxxx. */
  predicate Two(x: nat, y: nat) {
    2 <= x < 32 && y < 64
  }

  /** Three bytes: 1110xxxx 10xxxxxx 10xxxxxx, neither overlong nor a surrogate. */
  predicate Three(x: nat, y: nat, z: nat) {
    x < 16 && y < 64 && z < 64 && (x == 0 ==> y >= 32) && (x == 13 ==> y < 32)
  }

  /** Four bytes: 11110xxx and three of 10xxxxxx, neither overlong nor above the last code point. */
  predicate Four(x: nat, y: nat, z: nat, u: nat) {
    x <= 4 && y < 64 && z < 64 && u < 64 && (x == 0 ==> y >= 16) && (x == 4 ==> y < 16)
  }

  lemma ScalarOfTwo(x: nat, y: nat)
    requires Two(x, y)
    ensures var c := 64 * x + y;
            0x80 <= c < 0x800 && EncodeScalar(c) == [(0xC0 + x) as byte, (0x80 + y) as byte]
  {
  }

  lemma ScalarOfThree(x: nat, y: nat, z: nat)
    requires Three(x, y, z)
    ensures var c := 4096 * x + 64 * y + z;
            && 0x800 <= c < 0x1_0000 && Scalar(c)
            && EncodeScalar(c) == [(0xE0 + x) as byte, (0x80 + y) as byte, (0x80 + z) as byte]
  {
    var c := 4096 * x + 64 * y + z;
    assert c / 64 == 64 * x + y;
  }

  lemma ScalarOfFour(x: nat, y: nat, z: nat, u: nat)
    requires Four(x, y, z, u)
    ensures var c := 262144 * x + 4096 * y + 64 * z + u;
            && 0x1_0000 <= c < 0x11_0000
            && EncodeScalar(c) ==
               [(0xF0 + x) as byte, (0x80 + y) as byte, (0x80 + z) as byte, (0x80 + u) as byte]
  {
    var c := 262144 * x + 4096 * y + 64 * z + u;
    assert c / 64 == 4096 * x + 64 * y + z;
    assert c / 4096 == 64 * x + y;
  }

  lemma TwoOfScalar(c: nat) returns (x: nat, y: nat)
    requires 0x80 <= c < 0x800
    ensures Two(x, y) && c == 64 * x + y
  {
    x, y := c / 64, c % 64;
  }

  lemma ThreeOfScalar(c: nat) returns (x: nat, y: nat, z: nat)
    requires 0x800 <= c < 0x1_0000 && Scalar(c)
    ensures Three(x, y, z) && c == 4096 * x + 64 * y + z
  {
    x, y, z := c / 4096, c % 4096 / 64, c % 64;
  }

  lemma FourOfScalar(c: nat) returns (x: nat, y: nat, z: nat, u: nat)
    requires 0x1_0000 <= c < 0x11_0000
    ensures Four(x, y, z, u) && c == 262144 * x + 4096 * y + 64 * z + u
  {
    x, y, z, u := c / 262144, c % 262144 / 4096, c % 4096 / 64, c % 64;
  }

  lemma FirstOfTwo(x: nat, y: nat, rest: Bytes)
    requires Two(x, y)
    ensures FirstChar([(0xC0 + x) as byte, (0x80 + y) as byte] + rest) == 2
  {
  }

  lemma FirstOfThree(x: nat, y: nat, z: nat, rest: Bytes)
    requires Three(x, y, z)
    ensures FirstChar([(0xE0 + x) as byte, (0x80 + y) as byte, (0x80 + z) as byte] + rest) == 3
  {
  }

  lemma FirstOfFour(x: nat, y: nat, z: nat, u: nat, rest: Bytes)
    requires Four(x, y, z, u)
    ensures FirstChar([(0xF0 + x) as byte, (0x80 + y) as byte, (0x80 + z) as byte, (0x80 + u) as byte] + rest) == 4
  {
  }

  lemma FirstCharOfScalar(c: nat, rest: Bytes)
    requires Scalar(c)
    ensures FirstChar(EncodeScalar(c) + rest) == |EncodeScalar(c)|
  {
    if c < 0x80 {
      assert (EncodeScalar(c) + rest)[0] == c as byte;
    } else if c < 0x800 {
      var x, y := TwoOfScalar(c);
      hide EncodeScalar, FirstChar;
      ScalarOfTwo(x, y);
      FirstOfTwo(x, y, rest);
    } else if c < 0x1_0000 {
      var x, y, z := ThreeOfScalar(c);
      hide EncodeScalar, FirstChar;
      ScalarOfThree(x, y, z);
      FirstOfThree(x, y, z, rest);
    } else {
      var x, y, z, u := FourOfScalar(c);
      hide EncodeScalar, FirstChar;
      ScalarOfFour(x, y, z, u);
      FirstOfFour(x, y, z, u, rest);
    }
  }

  lemma ScalarOfFirstChar(b: Bytes) returns (c: nat)
    requires FirstChar(b) > 0
    ensures Scalar(c) && EncodeScalar(c) == b[..FirstChar(b)]
  {
    var n := FirstChar(b);
    hide EncodeScalar;
    if n == 1 {
      c := b[0] as nat;
      ScalarOfOne(c);
      assert b[..1] == [b[0]];
    } else if n == 2 {
      var x, y := b[0] as nat - 0xC0, b[1] as nat - 0x80;
      ScalarOfTwo(x, y);
      c := 64 * x + y;
      assert b[..2] == [b[0], b[1]];
    } else if n == 3 {
      var x, y, z := b[0] as nat - 0xE0, b[1] as nat - 0x80, b[2] as nat - 0x80;
      ScalarOfThree(x, y, z);
      c := 4096 * x + 64 * y + z;
      assert b[..3] == [b[0], b[1], b[2]];
    } else {
      var x, y, z, u := b[0] as nat - 0xF0, b[1] as nat - 0x80, b[2] as nat - 0x80, b[3] as nat - 0x80;
      ScalarOfFour(x, y, z, u);
      c := 262144 * x + 4096 * y + 64 * z + u;
      assert b[..4] == [b[0], b[1], b[2], b[3]];
    }
  }

  lemma ScalarOfOne(c: nat)
    requires c < 0x80
    ensures EncodeScalar(c) == [c as byte]
  {
  }

  lemma {:induction false} EncodedIsValid(text: seq<nat>)
    requires forall i :: 0 <= i < |text| ==> Scalar(text[i])
    ensures Valid(EncodeText(text))
  {
    hide FirstChar, EncodeScalar;
    if text != [] {
      EncodedIsValid(text[1..]);
      FirstCharOfScalar(text[0], EncodeText(text[1..]));
      ConcatSplit(EncodeScalar(text[0]), EncodeText(text[1..]));
    }
  }

  lemma {:induction false} ValidIsEncoded(b: Bytes) returns (text: seq<nat>)
    requires Valid(b)
    ensures (forall i :: 0 <= i < |text| ==> Scalar(text[i])) && EncodeText(text) == b
  {
    hide FirstChar, EncodeScalar;
    text := [];
    if b != [] {
      var c := ScalarOfFirstChar(b);
      var rest := ValidIsEncoded(b[FirstChar(b)..]);
      text := [c] + rest;
      assert text[1..] == rest;
      SplitConcat(b, FirstChar(b));
    }
  }

  ghost predicate Encodes(text: seq<nat>, b: Bytes) {
    (forall i :: 0 <= i < |text| ==> Scalar(text[i])) && EncodeText(text) == b
  }

  /** Bytes are well-formed exactly if they are the encoding of some sequence of scalar values. */
  lemma ValidIff(b: Bytes)
    ensures Valid(b) <==> exists text :: Encodes(text, b)
  {
    if Valid(b) {
      var text := ValidIsEncoded(b);
      assert Encodes(text, b);
    }
    if text :| Encodes(text, b) {
      EncodedIsValid(text);
    }
  }
}
