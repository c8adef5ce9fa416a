/** The Z85 text encoding of security.rs (ZeroMQ RFC 32/Z85). */
module Z85 {
  import opened Common

  /** The punctuation tail of the alphabet. */
  function Punctuation(k: nat): byte
    requires k < 23
  {
    if k == 0 then 46  // .
    else if k == 1 then 45  // -
    else if k == 2 then 58  // :
    else if k == 3 then 43  // +
    else if k == 4 then 61  // =
    else if k == 5 then 94  // ^
    else if k == 6 then 33  // !
    else if k == 7 then 47  // /
    else if k == 8 then 42  // *
    else if k == 9 then 63  // ?
    else if k == 10 then 38  // &
    else if k == 11 then 60  // <
    else if k == 12 then 62  // >
    else if k == 13 then 40  // (
    else if k == 14 then 41  // )
    else if k == 15 then 91  // [
    else if k == 16 then 93  // ]
    else if k == 17 then 123  // {
    else if k == 18 then 125  // }
    else if k == 19 then 64  // @
    else if k == 20 then 37  // %
    else if k == 21 then 36  // $
    else 35  // #
  }

  /** The alphabet: decimal digits, lower case, upper case, then punctuation. */
  function Glyph(digit: nat): byte
    requires digit < 85
  {
    if digit < 10 then (48 + digit) as byte
    else if digit < 36 then (97 + (digit - 10)) as byte
    else if digit < 62 then (65 + (digit - 36)) as byte
    else Punctuation(digit - 62)
  }

  /** `z85_value`: position of the byte in the alphabet, searched from `from`. */
  function Digit(glyph: byte, from: nat := 0): (d: Option<nat>)
    requires from <= 85
    ensures d.Some? ==> d.value < 85
    decreases 85 - from
  {
    if from == 85 then None
    else if Glyph(from) == glyph then Some(from)
    else Digit(glyph, from + 1)
  }

  /** The search finds the byte's position, and fails only on bytes outside the alphabet. */
  lemma {:induction false} DigitFinds(glyph: byte, from: nat)
    requires from <= 85
    ensures Digit(glyph, from).Some? ==> Glyph(Digit(glyph, from).value) == glyph
    ensures Digit(glyph, from).None? ==> forall i :: from <= i < 85 ==> Glyph(i) != glyph
    decreases 85 - from
  {
    if from < 85 { DigitFinds(glyph, from + 1); }
  }

  lemma DigitOfGlyph(digit: nat)
    requires digit < 85
    ensures Digit(Glyph(digit)) == Some(digit)
  {
    DigitFinds(Glyph(digit), 0);
    GlyphInjective(Digit(Glyph(digit)).value, digit);
  }

  lemma GlyphInjective(a: nat, b: nat)
    requires a < 85 && b < 85 && Glyph(a) == Glyph(b)
    ensures a == b
  {
  }

  const DIGITS: string := "0123456789"
  const LOWER: string := "abcdefghijklmnopqrstuvwxyz"
  const UPPER: string := "ABCDEFGHIJKLMNOPQRSTUVWXYZ"
  const REST: string := ".-:+=^!/*?&<>()[]{}@%$#"

  lemma DigitsSpelled(digit: nat)
    requires digit < 36
    ensures Glyph(digit) as int == if digit < 10 then DIGITS[digit] as int else LOWER[digit - 10] as int
  {
  }

  lemma UpperSpelled(digit: nat)
    requires 36 <= digit < 62
    ensures Glyph(digit) as int == UPPER[digit - 36] as int
  {
  }

  lemma RestSpelled(digit: nat)
    requires 62 <= digit < 85
    ensures Glyph(digit) as int == REST[digit - 62] as int
  {
  }

  /** The alphabet of ZeroMQ RFC 32/Z85. */
  lemma AlphabetSpelled(digit: nat)
    requires digit < 85
    ensures var alphabet := DIGITS + LOWER + UPPER + REST;
            |alphabet| == 85 && Glyph(digit) as int == alphabet[digit] as int
  {
    hide Glyph;
    if digit < 36 {
      DigitsSpelled(digit);
    } else if digit < 62 {
      UpperSpelled(digit);
    } else {
      RestSpelled(digit);
    }
  }

  /** The glyphs of the low `width` base-85 digits of `value`, most significant first. */
  function Base85(value: nat, width: nat): (text: Bytes)
    ensures |text| == width
    decreases width
  {
    if width == 0 then [] else Base85(value / 85, width - 1) + [Glyph(value % 85)]
  }

  /** Left-to-right evaluation of one group with the source's overflow checks. */
  function ScanGroup(text: Bytes): (v: Result<nat>)
    ensures v.Ok? ==> v.value < U32_LIMIT
    ensures v.Err? ==> v.error == InvalidArgument
  {
    if text == [] then Ok(0) else
      var high :- ScanGroup(text[..|text| - 1]);
      match Digit(text[|text| - 1])
      case None => Err(InvalidArgument)
      case Some(digit) =>
        if high * 85 >= U32_LIMIT then Err(InvalidArgument)
        else if high * 85 + digit >= U32_LIMIT then Err(InvalidArgument)
        else Ok(high * 85 + digit)
  }

  ghost predicate OverAlphabet(text: Bytes) {
    forall i :: 0 <= i < |text| ==> Digit(text[i]).Some?
  }

  /** Reference meaning of a group: its positional value, with no width limit. */
  ghost function GroupValue(text: Bytes): nat
    requires OverAlphabet(text)
  {
    if text == [] then 0 else 85 * GroupValue(text[..|text| - 1]) + Digit(text[|text| - 1]).value
  }

  /** Concatenated blocks of the successive four-byte chunks; a shorter rest is not encoded. */
  function EncodeText(data: Bytes): Bytes {
    if |data| < 4 then [] else Base85(FromBigEndian(data[..4]), 5) + EncodeText(data[4..])
  }

  /** Concatenated words of the successive five-byte groups. */
  function DecodeText(text: Bytes): (data: Result<Bytes>)
    ensures data.Err? ==> data.error == InvalidArgument
  {
    if |text| < 5 then Ok([]) else
      var value :- ScanGroup(text[..5]);
      var rest :- DecodeText(text[5..]);
      Ok(BigEndian(value, 4) + rest)
  }

  /** One block of `z85_encode`, filled from its last glyph backwards. */
  method EncodeBlock(chunk: Bytes) returns (text: Bytes)
    ensures text == Base85(FromBigEndian(chunk), 5)
  {
    var value := FromBigEndian(chunk);
    ghost var start := value;
    var block := new byte[5](_ => 0);
    var index := 5;
    while index > 0
      invariant 0 <= index <= 5
      invariant Base85(start, 5) == Base85(value, index) + block[index..]
    {
      index := index - 1;
      block[index] := Glyph(value % 85);
      value := value / 85;
    }
    text := block[..];
  }

  /** One group of `z85_decode`, accumulated with checked arithmetic. */
  method DecodeGroup(chunk: Bytes) returns (r: Result<nat>)
    ensures r == ScanGroup(chunk)
  {
    hide Digit;
    var value, index := 0, 0;
    while index < |chunk|
      invariant 0 <= index <= |chunk|
      invariant ScanGroup(chunk[..index]) == Ok(value)
    {
      assert chunk[..index + 1][..index] == chunk[..index];
      var digit := Digit(chunk[index]);
      if digit.None? || value * 85 >= U32_LIMIT || value * 85 + digit.value >= U32_LIMIT {
        ScanFails(chunk, index + 1);
        return Err(InvalidArgument);
      }
      value := value * 85 + digit.value;
      index := index + 1;
    }
    assert chunk[..index] == chunk;
    r := Ok(value);
  }

  /** `z85_encode`. */
  method Encode(data: Bytes) returns (r: Result<Bytes>)
    ensures r == if |data| % 4 != 0 then Err(InvalidArgument) else Ok(EncodeText(data))
  {
    if |data| % 4 != 0 {
      return Err(InvalidArgument);
    }
    var encoded: Bytes, rest := [], data;
    while |rest| >= 4
      invariant encoded + EncodeText(rest) == EncodeText(data)
    {
      var block := EncodeBlock(rest[..4]);
      ConcatAssociative(encoded, block, EncodeText(rest[4..]));
      encoded, rest := encoded + block, rest[4..];
    }
    ConcatEmpty(encoded);
    r := Ok(encoded);
  }

  /** `decoded` followed by the decoding of what is left. */
  ghost function Continue(decoded: Bytes, rest: Bytes): Result<Bytes> {
    var tail :- DecodeText(rest);
    Ok(decoded + tail)
  }

  /** `z85_decode`. */
  method Decode(text: Bytes) returns (r: Result<Bytes>)
    ensures r == if |text| % 5 != 0 then Err(InvalidArgument) else DecodeText(text)
  {
    if |text| % 5 != 0 {
      return Err(InvalidArgument);
    }
    hide ScanGroup, BigEndian;
    var decoded: Bytes, rest := [], text;
    if DecodeText(text).Ok? { ConcatEmpty(DecodeText(text).value); }
    while |rest| >= 5
      invariant Continue(decoded, rest) == DecodeText(text)
    {
      var value := DecodeGroup(rest[..5]);
      if value.Err? {
        return Err(InvalidArgument);
      }
      var word := BigEndian(value.value, 4);
      ghost var tail := DecodeText(rest[5..]);
      if tail.Ok? { ConcatAssociative(decoded, word, tail.value); }
      decoded, rest := decoded + word, rest[5..];
    }
    ConcatEmpty(decoded);
    r := Ok(decoded);
  }

  /** A failing prefix of a group makes the group fail. */
  lemma {:induction false} ScanFails(text: Bytes, upTo: nat)
    requires upTo <= |text| && ScanGroup(text[..upTo]).Err?
    ensures ScanGroup(text).Err?
    decreases |text|
  {
    if upTo == |text| {
      assert text[..upTo] == text;
    } else {
      assert text[..|text| - 1][..upTo] == text[..upTo];
      ScanFails(text[..|text| - 1], upTo);
    }
  }

  /** The step-by-step checks accept exactly the groups over the alphabet whose value fits 32 bits. */
  lemma {:induction false} ScanAccepts(text: Bytes)
    ensures ScanGroup(text).Ok? <==> OverAlphabet(text) && GroupValue(text) < U32_LIMIT
    ensures ScanGroup(text).Ok? ==> ScanGroup(text).value == GroupValue(text)
  {
    if text != [] {
      var front, last := text[..|text| - 1], text[|text| - 1];
      ScanAccepts(front);
      assert text == front + [last];
      if ScanGroup(text).Ok? {
        assert OverAlphabet(text);
      }
      if OverAlphabet(text) {
        assert OverAlphabet(front);
        assert GroupValue(text) == 85 * GroupValue(front) + Digit(last).value;
      }
    }
  }

  function Pow85(width: nat): nat {
    if width == 0 then 1 else 85 * Pow85(width - 1)
  }

  lemma {:induction false} ScanOfBase85(value: nat, width: nat)
    requires value < Pow85(width) && value < U32_LIMIT
    ensures ScanGroup(Base85(value, width)) == Ok(value)
    decreases width
  {
    if width > 0 {
      ScanOfBase85(value / 85, width - 1);
      var text := Base85(value, width);
      assert text[..width - 1] == Base85(value / 85, width - 1);
      DigitOfGlyph(value % 85);
    }
  }

  /** One more digit on the right. */
  lemma Base85Step(high: nat, digit: nat, width: nat)
    requires digit < 85
    ensures Base85(high * 85 + digit, width + 1) == Base85(high, width) + [Glyph(digit)]
  {
    hide Glyph;
    assert (high * 85 + digit) / 85 == high && (high * 85 + digit) % 85 == digit;
  }

  lemma {:induction false} Base85OfScan(text: Bytes)
    requires ScanGroup(text).Ok?
    ensures Base85(ScanGroup(text).value, |text|) == text
  {
    hide Digit, Glyph;
    if text != [] {
      var front, last := text[..|text| - 1], text[|text| - 1];
      Base85OfScan(front);
      DigitFinds(last, 0);
      hide Base85;
      Base85Step(ScanGroup(front).value, Digit(last).value, |front|);
      SplitConcat(text, |text| - 1);
    }
  }

  lemma ChunkRoundTrip(chunk: Bytes)
    requires |chunk| == 4
    ensures ScanGroup(Base85(FromBigEndian(chunk), 5)) == Ok(FromBigEndian(chunk))
    ensures BigEndian(FromBigEndian(chunk), 4) == chunk
  {
    FromBigEndianBound(chunk);
    FieldLimits();
    assert Pow85(2) == 7225 && Pow85(3) == 614125;
    assert Pow85(5) == 7225 * 614125;
    ScanOfBase85(FromBigEndian(chunk), 5);
    BigEndianWrite(chunk);
  }

  lemma {:induction false} EncodedLength(data: Bytes)
    requires |data| % 4 == 0
    ensures |EncodeText(data)| == |data| / 4 * 5
  {
    hide Base85, FromBigEndian;
    if data != [] { EncodedLength(data[4..]); }
  }

  lemma {:induction false} DecodedLength(text: Bytes)
    requires |text| % 5 == 0 && DecodeText(text).Ok?
    ensures |DecodeText(text).value| == |text| / 5 * 4
  {
    hide ScanGroup, BigEndian;
    if text != [] { DecodedLength(text[5..]); }
  }

  /** Decoding an encoding returns the data, for every length divisible by four. */
  lemma {:induction false} DecodeAfterEncode(data: Bytes)
    requires |data| % 4 == 0
    ensures DecodeText(EncodeText(data)) == Ok(data)
  {
    hide ScanGroup, Base85, BigEndian, FromBigEndian;
    if data != [] {
      var chunk, rest := data[..4], data[4..];
      DecodeAfterEncode(rest);
      ChunkRoundTrip(chunk);
      var block := Base85(FromBigEndian(chunk), 5);
      ConcatSplit(block, EncodeText(rest));
      SplitConcat(data, 4);
    }
  }

  lemma GroupRoundTrip(group: Bytes)
    requires |group| == 5 && ScanGroup(group).Ok?
    ensures FromBigEndian(BigEndian(ScanGroup(group).value, 4)) == ScanGroup(group).value
    ensures Base85(ScanGroup(group).value, 5) == group
  {
    FieldLimits();
    BigEndianRead(ScanGroup(group).value, 4);
    Base85OfScan(group);
  }

  /** Encoding a decoding returns the text, for every accepted text. */
  lemma {:induction false} EncodeAfterDecode(text: Bytes)
    requires |text| % 5 == 0 && DecodeText(text).Ok?
    ensures EncodeText(DecodeText(text).value) == text
  {
    hide ScanGroup, Base85, BigEndian, FromBigEndian;
    if text != [] {
      var group, rest := text[..5], text[5..];
      EncodeAfterDecode(rest);
      GroupRoundTrip(group);
      ConcatSplit(BigEndian(ScanGroup(group).value, 4), DecodeText(rest).value);
      SplitConcat(text, 5);
    }
  }

  ghost predicate GroupFits(group: Bytes) {
    OverAlphabet(group) && GroupValue(group) < U32_LIMIT
  }

  lemma GroupAccepts(group: Bytes)
    ensures ScanGroup(group).Ok? <==> GroupFits(group)
  {
    ScanAccepts(group);
  }

  ghost predicate EveryGroupFits(text: Bytes) {
    forall g :: 0 <= 5 * g && 5 * g + 5 <= |text| ==> GroupFits(text[5 * g..5 * g + 5])
  }

  /** A text is accepted exactly when every group is over the alphabet and below 2^32. */
  lemma {:induction false} DecodeAccepts(text: Bytes)
    ensures DecodeText(text).Ok? <==> EveryGroupFits(text)
  {
    hide ScanGroup, GroupFits;
    if |text| >= 5 {
      var rest := text[5..];
      DecodeAccepts(rest);
      GroupAccepts(text[..5]);
      if EveryGroupFits(text) {
        assert GroupFits(text[5 * 0..5 * 0 + 5]);
        forall g | 0 <= 5 * g && 5 * g + 5 <= |rest| ensures GroupFits(rest[5 * g..5 * g + 5]) {
          assert GroupFits(text[5 * (g + 1)..5 * (g + 1) + 5]);
          assert text[5 * (g + 1)..5 * (g + 1) + 5] == rest[5 * g..5 * g + 5];
        }
      }
      if GroupFits(text[..5]) && EveryGroupFits(rest) {
        forall g | 0 <= 5 * g && 5 * g + 5 <= |text| ensures GroupFits(text[5 * g..5 * g + 5]) {
          if g == 0 {
            assert text[5 * g..5 * g + 5] == text[..5];
          } else {
            assert text[5 * g..5 * g + 5] == rest[5 * (g - 1)..5 * (g - 1) + 5];
          }
        }
      }
    }
  }

  lemma HelloBlock()
    ensures Base85(0x864F_D26F, 5) == Ascii("Hello")
  {
    assert Base85(43, 1) == [72];
    assert Base85(3669, 2) == [72, 101];
    assert Base85(311886, 3) == [72, 101, 108];
    assert Base85(26510331, 4) == [72, 101, 108, 108];
  }

  lemma WorldBlock()
    ensures Base85(0xB559_F75B, 5) == Ascii("World")
  {
    assert Base85(58, 1) == [87];
  }

  lemma HelloWords()
    ensures FromBigEndian([0x86, 0x4F, 0xD2, 0x6F]) == 0x864F_D26F
    ensures FromBigEndian([0xB5, 0x59, 0xF7, 0x5B]) == 0xB559_F75B
  {
    var a: Bytes, b: Bytes := [0x86, 0x4F, 0xD2, 0x6F], [0xB5, 0x59, 0xF7, 0x5B];
    assert a[..3] == [0x86, 0x4F, 0xD2] && a[..3][..2] == [0x86, 0x4F] && a[..3][..2][..1] == [0x86];
    assert b[..3] == [0xB5, 0x59, 0xF7] && b[..3][..2] == [0xB5, 0x59] && b[..3][..2][..1] == [0xB5];
    assert FromBigEndian([0x86]) == 0x86 && FromBigEndian([0xB5]) == 0xB5;
  }

  /** The test case of ZeroMQ RFC 32/Z85. */
  lemma HelloWorld()
    ensures EncodeText([0x86, 0x4F, 0xD2, 0x6F, 0xB5, 0x59, 0xF7, 0x5B]) == Ascii("Hello") + Ascii("World")
    ensures DecodeText(Ascii("Hello") + Ascii("World")) == Ok([0x86, 0x4F, 0xD2, 0x6F, 0xB5, 0x59, 0xF7, 0x5B])
  {
    hide Base85, FromBigEndian, DecodeText, Ascii;
    HelloBlock();
    WorldBlock();
    HelloWords();
    var data: Bytes := [0x86, 0x4F, 0xD2, 0x6F, 0xB5, 0x59, 0xF7, 0x5B];
    assert data[..4] == [0x86, 0x4F, 0xD2, 0x6F] && data[4..] == [0xB5, 0x59, 0xF7, 0x5B];
    var rest := data[4..];
    assert rest[..4] == rest && rest[4..] == [];
    ConcatEmpty(Ascii("World"));
    DecodeAfterEncode(data);
  }
}
