/** The thread-name prefix option of context.rs: set as a number, stored as text, read back as a
    number. */
module OptionText {
  import opened Common

  const I32_MAX: int := 0x7FFF_FFFF
  const I32_MIN: int := -0x8000_0000

  type i32 = x: int | -0x8000_0000 <= x <= 0x7FFF_FFFF

  predicate IsSpace(b: byte) {
    b == 32 || b == 9 || b == 10 || b == 13 || b == 11 || b == 12
  }

  predicate IsDigit(b: byte) {
    48 <= b <= 57
  }

  function SaturatingAdd(a: i32, b: i32): i32 {
    if a + b > I32_MAX then I32_MAX else if a + b < I32_MIN then I32_MIN else a + b
  }

  function SaturatingMul(a: i32, b: i32): i32 {
    if a * b > I32_MAX then I32_MAX else if a * b < I32_MIN then I32_MIN else a * b
  }

  /** The text after its leading white space. */
  ghost function DropSpaces(text: Bytes): Bytes {
    if text != [] && IsSpace(text[0]) then DropSpaces(text[1..]) else text
  }

  /** The sign a numeral starts with, and the text after it. */
  ghost function Sign(text: Bytes): (int, Bytes) {
    if text != [] && text[0] == 45 then (-1, text[1..])
    else if text != [] && text[0] == 43 then (1, text[1..])
    else (1, text)
  }

  /** The longest digit prefix. */
  ghost function LeadingDigits(text: Bytes): (d: Bytes)
    ensures forall i :: 0 <= i < |d| ==> IsDigit(d[i])
  {
    if text != [] && IsDigit(text[0]) then [text[0]] + LeadingDigits(text[1..]) else []
  }

  /** Positional value of a decimal numeral, unbounded. */
  ghost function Numeral(digits: Bytes): nat
    requires forall i :: 0 <= i < |digits| ==> IsDigit(digits[i])
  {
    if digits == [] then 0 else
      assert IsDigit(digits[|digits| - 1]);
      10 * Numeral(digits[..|digits| - 1]) + (digits[|digits| - 1] as nat - 48)
  }

  /** Sign times the leading numeral, cut off at the largest i32. */
  ghost function Meaning(text: Bytes): i32 {
    var (sign, rest) := Sign(DropSpaces(text));
    sign * Min(Numeral(LeadingDigits(rest)), I32_MAX)
  }

  /** The digit loop of `atoi_i32`: saturating steps compute the cut-off numeral. */
  method ScanDigits(text: Bytes) returns (value: i32)
    ensures value == Min(Numeral(LeadingDigits(text)), I32_MAX)
  {
    hide Numeral;
    var index := 0;
    value := 0;
    ghost var done: Bytes := [];
    NumeralEmpty();
    assert text[0..] == text;
    ConcatEmpty(LeadingDigits(text));
    while index < |text| && IsDigit(text[index])
      invariant 0 <= index <= |text|
      invariant forall i :: 0 <= i < |done| ==> IsDigit(done[i])
      invariant LeadingDigits(text) == done + LeadingDigits(text[index..])
      invariant value == Min(Numeral(done), I32_MAX)
    {
      var digit := text[index] as int - 48;
      assert text[index..][1..] == text[index + 1..];
      ConcatAssociative(done, [text[index]], LeadingDigits(text[index + 1..]));
      NumeralExtend(done, text[index]);
      value := SaturatingAdd(SaturatingMul(value, 10), digit);
      done := done + [text[index]];
      index := index + 1;
    }
    ConcatEmpty(done);
  }

  /** `atoi_i32`. */
  method Atoi(bytes: Bytes) returns (v: i32)
    ensures v == Meaning(bytes)
  {
    hide Numeral, LeadingDigits;
    var index := 0;
    assert bytes[0..] == bytes;
    while index < |bytes| && IsSpace(bytes[index])
      invariant 0 <= index <= |bytes|
      invariant DropSpaces(bytes[index..]) == DropSpaces(bytes)
    {
      assert bytes[index..][1..] == bytes[index + 1..];
      index := index + 1;
    }
    ghost var text := bytes[index..];
    var sign: i32 := 1;
    if index < |bytes| && bytes[index] == 45 {
      index, sign := index + 1, -1;
      assert bytes[index..] == text[1..];
    } else if index < |bytes| && bytes[index] == 43 {
      index := index + 1;
      assert bytes[index..] == text[1..];
    }
    var value := ScanDigits(bytes[index..]);
    v := SaturatingMul(value, sign);
  }

  lemma NumeralEmpty()
    ensures Numeral([]) == 0
  {
  }

  lemma NumeralExtend(digits: Bytes, d: byte)
    requires IsDigit(d) && forall i :: 0 <= i < |digits| ==> IsDigit(digits[i])
    ensures Numeral(digits + [d]) == 10 * Numeral(digits) + (d as nat - 48)
  {
    ConcatSplit(digits, [d]);
  }

  /** Decimal digits of `n` without leading zeros. */
  function Decimal(n: nat): (d: Bytes)
    ensures d != [] && forall i :: 0 <= i < |d| ==> IsDigit(d[i])
  {
    if n < 10 then [(48 + n) as byte] else Decimal(n / 10) + [(48 + n % 10) as byte]
  }

  function Magnitude(v: int): nat {
    if v < 0 then -v else v
  }

  /** `to_string` of an i32, as stored by `set_option`. */
  function Print(v: i32): Bytes {
    if v < 0 then [45] + Decimal(Magnitude(v)) else Decimal(Magnitude(v))
  }

  lemma {:induction false} NumeralOfDecimal(n: nat)
    ensures Numeral(Decimal(n)) == n
  {
    if n < 10 {
      assert Numeral(Decimal(n)[..0]) == 0;
    } else {
      NumeralOfDecimal(n / 10);
      NumeralExtend(Decimal(n / 10), (48 + n % 10) as byte);
    }
  }

  lemma {:induction false} LeadingDigitsOfNumeral(digits: Bytes)
    requires forall i :: 0 <= i < |digits| ==> IsDigit(digits[i])
    ensures LeadingDigits(digits) == digits
  {
    if digits != [] { LeadingDigitsOfNumeral(digits[1..]); }
  }

  /** Reading a printed number gives it back, except that the least i32 comes back one too large. */
  lemma ReadAfterPrint(v: i32)
    ensures Meaning(Print(v)) == if v == I32_MIN then I32_MIN + 1 else v
  {
    var digits := Decimal(Magnitude(v));
    NumeralOfDecimal(Magnitude(v));
    LeadingDigitsOfNumeral(digits);
    assert DropSpaces(Print(v)) == Print(v);
    assert Sign(Print(v)).1 == digits;
  }

  /** The option round trip holds exactly for the numbers other than the least i32. */
  lemma RoundTripIff(v: i32)
    ensures Meaning(Print(v)) == v <==> v != I32_MIN
  {
    ReadAfterPrint(v);
  }

  /** The white space of `atoi_i32`: space and the control characters 9 to 13. */
  lemma SpacesAre(b: byte)
    ensures IsSpace(b) <==> b in Ascii(" \t\n\r") || b == 0x0B || b == 0x0C
  {
    assert Ascii(" \t\n\r") == [32, 9, 10, 13];
  }

  /** What can follow white space without belonging to the sign or the numeral. */
  predicate StartsElse(rest: Bytes) {
    rest == [] || (!IsDigit(rest[0]) && !IsSpace(rest[0]) && rest[0] != 43 && rest[0] != 45)
  }

  lemma {:induction false} DropThese(spaces: Bytes, text: Bytes)
    requires forall i :: 0 <= i < |spaces| ==> IsSpace(spaces[i])
    requires text == [] || !IsSpace(text[0])
    ensures DropSpaces(spaces + text) == text
  {
    if spaces == [] {
      ConcatEmpty(text);
    } else {
      DropThese(spaces[1..], text);
      assert (spaces + text)[1..] == spaces[1..] + text;
    }
  }

  lemma {:induction false} LeadingThese(digits: Bytes, rest: Bytes)
    requires forall i :: 0 <= i < |digits| ==> IsDigit(digits[i])
    requires rest == [] || !IsDigit(rest[0])
    ensures LeadingDigits(digits + rest) == digits
  {
    if digits == [] {
      ConcatEmpty(rest);
    } else {
      LeadingThese(digits[1..], rest);
      assert (digits + rest)[1..] == digits[1..] + rest;
    }
  }

  /** White space, an optional sign, decimal digits and anything else: the number the digits write, cut off at
      the largest i32, with the sign. */
  lemma MeaningOfText(spaces: Bytes, sign: Bytes, digits: Bytes, rest: Bytes)
    requires forall i :: 0 <= i < |spaces| ==> IsSpace(spaces[i])
    requires forall i :: 0 <= i < |digits| ==> IsDigit(digits[i])
    requires sign == [] || sign == Ascii("+") || sign == Ascii("-")
    requires if digits == [] then StartsElse(rest) else rest == [] || !IsDigit(rest[0])
    ensures Meaning(spaces + (sign + (digits + rest))) ==
            (if sign == Ascii("-") then -1 else 1) *
            if Numeral(digits) < I32_MAX then Numeral(digits) else I32_MAX
  {
    hide Numeral, LeadingDigits, DropSpaces, Ascii;
    assert Ascii("+") == [43] && Ascii("-") == [45] by { Signs(); }
    var number := digits + rest;
    DropThese(spaces, sign + number);
    LeadingThese(digits, rest);
    if sign == [] {
      ConcatEmpty(number);
    } else {
      assert (sign + number)[1..] == number;
    }
  }

  lemma Signs()
    ensures Ascii("+") == [43] && Ascii("-") == [45]
  {
  }

  lemma PrintExample()
    ensures Print(-120) == Ascii("-120") && Print(7) == Ascii("7")
  {
    assert Decimal(1) == [49];
    assert Decimal(12) == [49, 50];
    assert Decimal(120) == [49, 50, 48];
  }
}
