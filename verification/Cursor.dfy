/** The opaque page cursor: unpadded base64url of a two-field JSON object
    (sdf_core/human_read.py). */
module Cursor {
  import opened Results
  import opened Unicode
  import Base64
  import IsoTime
  import JsonText

  datatype Error = NotValid

  datatype Place = Place(at: IsoTime.Stamp, id: Text)

  const OPEN: Text := Ascii("{\"t\":\"")
  const MIDDLE: Text := Ascii(",\"id\":\"")
  const CLOSE: Text := Ascii("}")

  // `"id":"…"}` after the timestamp's closing quote.
  function IdPart(id: Text): Text { MIDDLE + (JsonText.EscapeAll(id) + [JsonText.QUOTE] + CLOSE) }

  function Json(at: IsoTime.Stamp, id: Text): Text {
    OPEN + (JsonText.EscapeAll(IsoTime.Write(at)) + [JsonText.QUOTE] + IdPart(id))
  }

  predicate IsBytes(s: Text) { forall i :: 0 <= i < |s| ==> s[i] < 256 }

  // Written JSON is ASCII, so its UTF-8 bytes are its code points.
  function ToBytes(s: Text): (bytes: seq<Byte>)
    requires IsBytes(s)
    ensures |bytes| == |s| && forall i :: 0 <= i < |s| ==> bytes[i] == s[i]
  {
    if s == [] then [] else [s[0]] + ToBytes(s[1..])
  }

  function FromBytes(bytes: seq<Byte>): Text { seq(|bytes|, i requires 0 <= i < |bytes| => bytes[i] as CodePoint) }

  lemma JoinBytes(a: Text, b: Text)
    requires IsBytes(a) && IsBytes(b)
    ensures IsBytes(a + b)
  {
  }

  lemma FixedPartsAreBytes()
    ensures IsBytes(OPEN) && IsBytes(MIDDLE) && IsBytes(CLOSE) && IsBytes([JsonText.QUOTE])
  {
  }

  lemma EscapedIsBytes(s: Text)
    ensures IsBytes(JsonText.EscapeAll(s))
  {
    var e := JsonText.EscapeAll(s);
    JsonText.EscapedIsAscii(s);
    assert forall i :: 0 <= i < |e| ==> e[i] in e;
  }

  lemma IdPartIsBytes(id: Text)
    ensures IsBytes(IdPart(id))
  {
    hide IsBytes, JsonText.EscapeAll;
    FixedPartsAreBytes();
    EscapedIsBytes(id);
    JoinBytes(JsonText.EscapeAll(id), [JsonText.QUOTE]);
    JoinBytes(JsonText.EscapeAll(id) + [JsonText.QUOTE], CLOSE);
    JoinBytes(MIDDLE, JsonText.EscapeAll(id) + [JsonText.QUOTE] + CLOSE);
  }

  lemma JsonIsAscii(at: IsoTime.Stamp, id: Text)
    ensures IsBytes(Json(at, id))
  {
    hide IsBytes, IdPart, JsonText.EscapeAll, IsoTime.Write;
    FixedPartsAreBytes();
    EscapedIsBytes(IsoTime.Write(at));
    IdPartIsBytes(id);
    var stamp := JsonText.EscapeAll(IsoTime.Write(at)) + [JsonText.QUOTE];
    JoinBytes(JsonText.EscapeAll(IsoTime.Write(at)), [JsonText.QUOTE]);
    JoinBytes(stamp, IdPart(id));
    JoinBytes(OPEN, stamp + IdPart(id));
  }

  function Encode(at: IsoTime.Stamp, id: Text): Text {
    JsonIsAscii(at, id);
    Base64.Encode(ToBytes(Json(at, id)))
  }

  function After(prefix: Text, s: Text): Option<Text> {
    if prefix <= s then Some(s[|prefix|..]) else None
  }

  predicate Stripped(cursor: Text) { cursor != [] && !IsSpace(cursor[0]) && !IsSpace(cursor[|cursor| - 1]) }

  predicate IsSurrogate(c: CodePoint) { High(c) || Low(c) }

  function ReadIdPart(s: Text): Option<Text> {
    var middle := After(MIDDLE, s);
    if middle.None? then None
    else
      var id := JsonText.ReadString(middle.value);
      if id.None? || id.value.1 != CLOSE || id.value.0 == [] then None else Some(id.value.0)
  }

  function ReadJson(s: Text): Result<Place, Error> {
    var start := After(OPEN, s);
    if start.None? then Err(NotValid)
    else
      var t := JsonText.ReadString(start.value);
      if t.None? then Err(NotValid)
      else
        var id, at := ReadIdPart(t.value.1), IsoTime.Read(t.value.0);
        if id.None? || at.None? then Err(NotValid) else Ok(Place(at.value, id.value))
  }

  function Decode(cursor: Text): Result<Place, Error> {
    if !Stripped(cursor) then Err(NotValid)
    else if exists i :: 0 <= i < |cursor| && IsSurrogate(cursor[i]) then Err(NotValid)
    else
      var bytes := Base64.Decode(cursor);
      if bytes.None? then Err(NotValid) else ReadJson(FromBytes(bytes.value))
  }

  // ---- Round trip ----------------------------------------------------------

  // A timestamp is written in ASCII, so it holds no surrogate.
  lemma {:induction false} DigitsAreAscii(n: nat, width: nat)
    ensures forall c :: c in IsoTime.Digits(n, width) ==> c < 128
  {
    if width > 0 {
      DigitsAreAscii(n / 10, width - 1);
    }
  }

  lemma {:induction false} FieldsAreAscii(fields: seq<IsoTime.Field>, values: seq<nat>)
    requires |fields| == |values|
    requires forall f :: f in fields ==> forall c :: c in f.lead ==> c < 128
    ensures forall c :: c in IsoTime.WriteFields(fields, values) ==> c < 128
  {
    if fields != [] {
      DigitsAreAscii(values[0], fields[0].width);
      assert fields[0] in fields;
      FieldsAreAscii(fields[1..], values[1..]);
    }
  }

  lemma OffsetIsAscii(size: nat)
    ensures forall c :: c in IsoTime.WriteSize(size) ==> c < 128
  {
    hide IsoTime.WriteFields;
    var m := size / IsoTime.MICROS / 60;
    var below := size - m * 60 * IsoTime.MICROS;
    FieldsAreAscii(IsoTime.HOURS_MINUTES, [m / 60, m % 60]);
    FieldsAreAscii(IsoTime.SECONDS, [below / IsoTime.MICROS]);
    FieldsAreAscii(IsoTime.FRACTION, [below % IsoTime.MICROS]);
  }

  lemma StampIsAscii(at: IsoTime.Stamp)
    ensures forall c :: c in IsoTime.Write(at) ==> c < 128
  {
    hide IsoTime.WriteFields, IsoTime.WriteSize;
    FieldsAreAscii(IsoTime.DATE_TIME, [at.year, at.month, at.day, at.hour, at.minute, at.second]);
    FieldsAreAscii(IsoTime.FRACTION, [at.micro]);
    if at.offset.Some? {
      OffsetIsAscii(if at.offset.value < 0 then -at.offset.value else at.offset.value);
    }
  }

  lemma AfterPrefix(prefix: Text, s: Text)
    ensures After(prefix, prefix + s) == Some(s)
  {
    assert (prefix + s)[|prefix|..] == s;
  }

  lemma JoinedKeepsSome(s: Text)
    ensures Joined(s) == [] <==> s == []
  {
  }

  lemma ReadWrittenId(id: Text)
    ensures ReadIdPart(IdPart(id)) == if id == [] then None else Some(Joined(id))
  {
    AfterPrefix(MIDDLE, JsonText.EscapeAll(id) + [JsonText.QUOTE] + CLOSE);
    JsonText.ReadWritten(id, CLOSE);
    JoinedKeepsSome(id);
  }

  lemma AsciiHasNoPair(s: Text)
    requires forall c :: c in s ==> c < 128
    ensures Joined(s) == s
  {
    assert forall i :: 0 <= i < |s| ==> s[i] in s;
    JoinedSame(s);
  }

  lemma ReadWrittenJson(at: IsoTime.Stamp, id: Text)
    requires IsoTime.Valid(at)
    ensures ReadJson(Json(at, id)) == if id == [] then Err(NotValid) else Ok(Place(at, Joined(id)))
  {
    var stamp := IsoTime.Write(at);
    AfterPrefix(OPEN, JsonText.EscapeAll(stamp) + [JsonText.QUOTE] + IdPart(id));
    JsonText.ReadWritten(stamp, IdPart(id));
    StampIsAscii(at);
    AsciiHasNoPair(stamp);
    IsoTime.RoundTrip(at);
    ReadWrittenId(id);
  }

  lemma DecodePlain(bytes: seq<Byte>)
    requires bytes != []
    ensures Decode(Base64.Encode(bytes)) == ReadJson(FromBytes(bytes))
  {
    var text := Base64.Encode(bytes);
    Base64.EncodedIsPlain(bytes);
    Base64.RoundTrip(bytes);
    assert forall i :: 0 <= i < |text| ==> text[i] in text;
    assert Stripped(text);
  }

  // Decoding a written cursor gives the place back, with every surrogate pair
  // of the identifier joined into the character it stands for.
  lemma DecodeEncode(at: IsoTime.Stamp, id: Text)
    requires IsoTime.Valid(at)
    ensures Decode(Encode(at, id)) == if id == [] then Err(NotValid) else Ok(Place(at, Joined(id)))
  {
    JsonIsAscii(at, id);
    var bytes := ToBytes(Json(at, id));
    assert |OPEN| == 6;
    DecodePlain(bytes);
    assert FromBytes(bytes) == Json(at, id);
    ReadWrittenJson(at, id);
  }

  // The cursor is faithful exactly for the identifiers that are not empty and
  // do not spell one character as two surrogates.
  lemma RoundTripIff(at: IsoTime.Stamp, id: Text)
    requires IsoTime.Valid(at)
    ensures Decode(Encode(at, id)) == Ok(Place(at, id)) <==> id != [] && !HasPair(id)
  {
    DecodeEncode(at, id);
    JoinedSame(id);
  }

  // An identifier that a cursor does not bring back.
  lemma PairIsLost(at: IsoTime.Stamp)
    requires IsoTime.Valid(at)
    ensures Decode(Encode(at, [0xD83D, 0xDE00])) == Ok(Place(at, [0x1F600]))
  {
    hide Encode, Decode, IsoTime.Valid;
    DecodeEncode(at, [0xD83D, 0xDE00]);
    assert Joined([0xD83D, 0xDE00]) == [0x1F600] by { assert [0xD83D, 0xDE00][2..] == []; }
  }
}
