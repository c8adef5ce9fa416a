/** The property list of `ZmtpMetadata` in transport.rs. */
module Metadata {
  import opened Common
  import Utf8

  datatype Property = Property(name: Bytes, value: Bytes)

  /** The name part that is written: at most 255 bytes. */
  function WrittenName(name: Bytes): Bytes {
    name[..Min(|name|, 255)]
  }

  function EncodeProperty(p: Property): Bytes {
    [|WrittenName(p.name)| as byte] + WrittenName(p.name) + BigEndian(|p.value|, 4) + p.value
  }

  function EncodeProperties(ps: seq<Property>): Bytes {
    if ps == [] then [] else EncodeProperty(ps[0]) + EncodeProperties(ps[1..])
  }

  /** One property off the front of `body`, and how many bytes it took. */
  function TakeProperty(body: Bytes): (r: Result<(Property, nat)>)
    requires body != []
    ensures r.Ok? ==> 5 <= r.value.1 <= |body|
    ensures r.Err? ==> r.error == InvalidArgument
  {
    var nameLen := body[0] as nat;
    if |body| < 1 + nameLen + 4 then Err(InvalidArgument) else
      var name := body[1..1 + nameLen];
      if !Utf8.Valid(name) then Err(InvalidArgument) else
        var valueAt := 1 + nameLen + 4;
        var valueLen := FromBigEndian(body[1 + nameLen..valueAt]);
        if |body| < valueAt + valueLen then Err(InvalidArgument)
        else Ok((Property(name, body[valueAt..valueAt + valueLen]), valueAt + valueLen))
  }

  function DecodeProperties(body: Bytes): (r: Result<seq<Property>>)
    ensures r.Err? ==> r.error == InvalidArgument
    decreases |body|
  {
    if body == [] then Ok([]) else
      var (p, taken) :- TakeProperty(body);
      var rest :- DecodeProperties(body[taken..]);
      Ok([p] + rest)
  }

  /** `encode_properties`. */
  method Encode(ps: seq<Property>) returns (body: Bytes)
    ensures body == EncodeProperties(ps)
  {
    body := [];
    var at := 0;
    assert ps[0..] == ps;
    ConcatEmpty(EncodeProperties(ps));
    while at < |ps|
      invariant 0 <= at <= |ps|
      invariant body + EncodeProperties(ps[at..]) == EncodeProperties(ps)
    {
      var name, value := WrittenName(ps[at].name), ps[at].value;
      var entry: Bytes := [|name| as byte];
      entry := entry + name;
      entry := entry + BigEndian(|value|, 4);
      entry := entry + value;
      assert entry == EncodeProperty(ps[at]);
      ConcatAssociative(body, entry, EncodeProperties(ps[at + 1..]));
      assert ps[at..][1..] == ps[at + 1..];
      body := body + entry;
      at := at + 1;
    }
    ConcatEmpty(body);
  }

  /** What decoding yields once `done` has been decoded and `rest` is still to come. */
  ghost function Continue(done: seq<Property>, rest: Bytes): Result<seq<Property>> {
    var tail :- DecodeProperties(rest);
    Ok(done + tail)
  }

  /** `TakeProperty` in terms of positions in the whole body. */
  lemma TakeAt(body: Bytes, at: nat)
    requires at < |body|
    ensures var nameAt, nameLen := at + 1, body[at] as nat;
            var lenAt := nameAt + nameLen;
            TakeProperty(body[at..]) ==
            if |body| < lenAt + 4 || !Utf8.Valid(body[nameAt..lenAt]) then Err(InvalidArgument)
            else
              var valueLen := FromBigEndian(body[lenAt..lenAt + 4]);
              if |body| < lenAt + 4 + valueLen then Err(InvalidArgument)
              else Ok((Property(body[nameAt..lenAt], body[lenAt + 4..lenAt + 4 + valueLen]), 5 + nameLen + valueLen))
  {
    hide FromBigEndian, Utf8.Valid;
    var rest, lenAt := body[at..], at + 1 + body[at] as nat;
    if lenAt + 4 <= |body| {
      assert rest[1..1 + body[at] as nat] == body[at + 1..lenAt];
      assert rest[1 + body[at] as nat..1 + body[at] as nat + 4] == body[lenAt..lenAt + 4];
      var valueAt, valueLen := lenAt + 4, FromBigEndian(body[lenAt..lenAt + 4]);
      if valueAt + valueLen <= |body| {
        assert rest[valueAt - at..valueAt - at + valueLen] == body[valueAt..valueAt + valueLen];
      }
    }
  }

  /** `decode_properties`: a moving offset that never passes the end of the body. */
  method Decode(body: Bytes) returns (r: Result<seq<Property>>)
    ensures r == DecodeProperties(body)
  {
    hide TakeProperty, FromBigEndian, Utf8.Valid;
    var offset, properties := 0, [];
    assert body[0..] == body;
    if DecodeProperties(body).Ok? { ConcatEmpty(DecodeProperties(body).value); }
    while offset < |body|
      invariant 0 <= offset <= |body|
      invariant Continue(properties, body[offset..]) == DecodeProperties(body)
    {
      ghost var start := offset;
      TakeAt(body, start);
      var nameLen := body[offset] as nat;
      offset := offset + 1;
      if |body| < offset + nameLen + 4 {
        return Err(InvalidArgument);
      }
      var name := body[offset..offset + nameLen];
      if !Utf8.Valid(name) {
        return Err(InvalidArgument);
      }
      offset := offset + nameLen;
      var valueLen := FromBigEndian(body[offset..offset + 4]);
      offset := offset + 4;
      if |body| < offset + valueLen {
        return Err(InvalidArgument);
      }
      var p := Property(name, body[offset..offset + valueLen]);
      offset := offset + valueLen;
      StepDecodes(properties, body[start..], p, offset - start);
      assert body[start..][offset - start..] == body[offset..];
      properties := properties + [p];
    }
    ConcatEmpty(properties);
    r := Ok(properties);
  }

  lemma StepDecodes(done: seq<Property>, rest: Bytes, p: Property, taken: nat)
    requires rest != [] && taken <= |rest| && TakeProperty(rest) == Ok((p, taken))
    ensures Continue(done, rest) == Continue(done + [p], rest[taken..])
  {
    var tail := DecodeProperties(rest[taken..]);
    if tail.Ok? { ConcatAssociative(done, [p], tail.value); }
  }

  /** The property can be written without losing bytes. */
  predicate Fits(p: Property) {
    |p.name| <= 255 && |p.value| < U32_LIMIT
  }

  /** One property: a length byte, the name, four bytes of value length in network order, the value. */
  lemma PropertyLayout(p: Property)
    requires Fits(p)
    ensures var b, n := EncodeProperty(p), |p.name|;
            && |b| == 5 + n + |p.value| && b[0] as nat == n && b[1..1 + n] == p.name
            && FromBigEndian(b[1 + n..5 + n]) == |p.value| && b[5 + n..] == p.value
  {
    hide BigEndian, FromBigEndian;
    var b, n := EncodeProperty(p), |p.name|;
    FieldLimits();
    BigEndianRead(|p.value|, 4);
    assert WrittenName(p.name) == p.name;
    assert b[1..1 + n] == p.name;
    assert b[1 + n..5 + n] == BigEndian(|p.value|, 4);
    assert b[5 + n..] == p.value;
  }

  /** What is read back from a written property with a value below 2^32 bytes: the name cut to 255
      bytes, if that is still valid UTF-8, and nothing of what follows. */
  lemma TakeAfterEncode(p: Property, rest: Bytes)
    requires |p.value| < U32_LIMIT
    ensures TakeProperty(EncodeProperty(p) + rest) ==
            if Utf8.Valid(WrittenName(p.name))
            then Ok((Property(WrittenName(p.name), p.value), |EncodeProperty(p)|))
            else Err(InvalidArgument)
  {
    hide BigEndian, FromBigEndian, Utf8.Valid;
    var name, field := WrittenName(p.name), BigEndian(|p.value|, 4);
    var body := EncodeProperty(p) + rest;
    assert body == [|name| as byte] + name + field + p.value + rest;
    assert body[1..1 + |name|] == name;
    assert body[1 + |name|..1 + |name| + 4] == field;
    FieldLimits();
    BigEndianRead(|p.value|, 4);
    var at := 1 + |name| + 4;
    assert body[at..at + |p.value|] == p.value;
  }

  /** Whatever is read off the front of a body is written back as the same bytes. */
  lemma EncodeAfterTake(body: Bytes)
    requires body != [] && TakeProperty(body).Ok?
    ensures var (p, taken) := TakeProperty(body).value;
            EncodeProperty(p) == body[..taken] && Fits(p) && Utf8.Valid(p.name)
  {
    hide BigEndian, FromBigEndian;
    var (p, taken) := TakeProperty(body).value;
    var n := |p.name|;
    var field := body[1 + n..5 + n];
    FromBigEndianBound(field);
    FieldLimits();
    BigEndianWrite(field);
    assert WrittenName(p.name) == p.name;
    assert body[..taken] == [body[0]] + p.name + field + p.value;
  }

  ghost predicate AllFit(ps: seq<Property>) {
    forall i :: 0 <= i < |ps| ==> Fits(ps[i])
  }

  ghost predicate NamesAreText(ps: seq<Property>) {
    forall i :: 0 <= i < |ps| ==> Utf8.Valid(ps[i].name)
  }

  lemma {:induction false} DecodeAfterEncode(ps: seq<Property>)
    requires NamesAreText(ps) && AllFit(ps)
    ensures DecodeProperties(EncodeProperties(ps)) == Ok(ps)
  {
    hide EncodeProperty, TakeProperty;
    if ps != [] {
      var p, rest := ps[0], EncodeProperties(ps[1..]);
      DecodeAfterEncode(ps[1..]);
      TakeAfterEncode(p, rest);
      assert WrittenName(p.name) == p.name;
      ConcatSplit(EncodeProperty(p), rest);
      assert ps == [p] + ps[1..];
    }
  }

  /** Re-encoding any accepted body returns the same bytes, and only writable lists are decoded. */
  lemma {:induction false} EncodeAfterDecode(body: Bytes)
    requires DecodeProperties(body).Ok?
    ensures EncodeProperties(DecodeProperties(body).value) == body
    ensures AllFit(DecodeProperties(body).value) && NamesAreText(DecodeProperties(body).value)
    decreases |body|
  {
    hide EncodeProperty, TakeProperty;
    if body != [] {
      var (p, taken) := TakeProperty(body).value;
      EncodeAfterTake(body);
      EncodeAfterDecode(body[taken..]);
      SplitConcat(body, taken);
      var rest := DecodeProperties(body[taken..]).value;
      assert ([p] + rest)[1..] == rest;
    }
  }

  /** The codec returns the list exactly when every name is at most 255 bytes and every value is
      below 2^32 bytes. */
  lemma RoundTripIff(ps: seq<Property>)
    requires NamesAreText(ps)
    ensures DecodeProperties(EncodeProperties(ps)) == Ok(ps) <==> AllFit(ps)
  {
    if AllFit(ps) {
      DecodeAfterEncode(ps);
    }
    if DecodeProperties(EncodeProperties(ps)) == Ok(ps) {
      EncodeAfterDecode(EncodeProperties(ps));
    }
  }

  /** A 256-byte name whose last character has two bytes: it is cut in the middle of that
      character, so the encoder writes a body that the decoder refuses. */
  lemma CutNameIsRefused(value: Bytes)
    requires |value| < U32_LIMIT
    ensures var p := Property(seq(254, _ => 0x61) + [0xC3, 0xA9], value);
            Utf8.Valid(p.name) && DecodeProperties(EncodeProperties([p])) == Err(InvalidArgument)
  {
    var ascii: Bytes := seq(254, _ => 0x61);
    var p := Property(ascii + [0xC3, 0xA9], value);
    Utf8.AsciiPrefix(ascii, [0xC3, 0xA9]);
    assert Utf8.Valid([0xC3, 0xA9]);
    assert WrittenName(p.name) == ascii + [0xC3];
    Utf8.AsciiPrefix(ascii, [0xC3]);
    assert !Utf8.Valid([0xC3]);
    TakeAfterEncode(p, []);
    assert EncodeProperties([p]) == EncodeProperty(p) + [];
  }
}
