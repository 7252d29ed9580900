/** Timestamps as `datetime.isoformat` writes them, and their reader. */
module IsoTime {
  import opened Results
  import opened Unicode

  // `offset` is the UTC offset in microseconds; `None` for a naive timestamp.
  datatype Stamp = Stamp(
    year: nat, month: nat, day: nat, hour: nat, minute: nat, second: nat, micro: nat, offset: Option<int>)

  const MICROS := 1000000
  const DAY_MICROS := 86400 * MICROS

  predicate Leap(year: nat) { year % 4 == 0 && (year % 100 != 0 || year % 400 == 0) }

  function DaysIn(year: nat, month: nat): nat {
    if month == 2 then (if Leap(year) then 29 else 28) else if month in {4, 6, 9, 11} then 30 else 31
  }

  predicate ValidClock(hour: nat, minute: nat, second: nat, micro: nat) {
    hour < 24 && minute < 60 && second < 60 && micro < MICROS
  }

  predicate Valid(t: Stamp) {
    && 1 <= t.year <= 9999 && 1 <= t.month <= 12 && 1 <= t.day <= DaysIn(t.year, t.month)
    && ValidClock(t.hour, t.minute, t.second, t.micro)
    && (t.offset.Some? ==> -DAY_MICROS < t.offset.value < DAY_MICROS)
  }

  // ---- Fixed-width fields --------------------------------------------------

  // A separator, or none, and then a number of that many digits.
  datatype Field = Field(lead: Text, width: nat)

  function Power(width: nat): nat { if width == 0 then 1 else 10 * Power(width - 1) }

  function Digits(n: nat, width: nat): Text {
    if width == 0 then [] else Digits(n / 10, width - 1) + [48 + n % 10]
  }

  predicate AllDigits(s: Text) { forall i :: 0 <= i < |s| ==> 48 <= s[i] <= 57 }

  function Number(s: Text): nat
    requires AllDigits(s)
  {
    if s == [] then 0 else Number(s[..|s| - 1]) * 10 + (s[|s| - 1] - 48)
  }

  function ReadField(f: Field, s: Text): Option<(nat, Text)> {
    var n := |f.lead|;
    if |s| < n + f.width || s[..n] != f.lead || !AllDigits(s[n..n + f.width]) then None
    else Some((Number(s[n..n + f.width]), s[n + f.width..]))
  }

  function WriteFields(fields: seq<Field>, values: seq<nat>): Text
    requires |fields| == |values|
  {
    if fields == [] then []
    else fields[0].lead + Digits(values[0], fields[0].width) + WriteFields(fields[1..], values[1..])
  }

  function ReadFields(fields: seq<Field>, s: Text): Option<(seq<nat>, Text)>
    decreases |fields|
  {
    if fields == [] then Some(([], s))
    else
      var head := ReadField(fields[0], s);
      if head.None? then None
      else
        var rest := ReadFields(fields[1..], head.value.1);
        if rest.None? then None else Some(([head.value.0] + rest.value.0, rest.value.1))
  }

  lemma {:induction false} ReadDigits(n: nat, width: nat)
    requires n < Power(width)
    ensures |Digits(n, width)| == width && AllDigits(Digits(n, width)) && Number(Digits(n, width)) == n
  {
    if width > 0 {
      ReadDigits(n / 10, width - 1);
      var d := Digits(n, width);
      assert d[..|d| - 1] == Digits(n / 10, width - 1);
    }
  }

  lemma ReadWrittenField(f: Field, n: nat, tail: Text)
    requires n < Power(f.width)
    ensures ReadField(f, f.lead + Digits(n, f.width) + tail) == Some((n, tail))
  {
    ReadDigits(n, f.width);
    var s, k := f.lead + Digits(n, f.width) + tail, |f.lead|;
    assert s[..k] == f.lead;
    assert s[k..k + f.width] == Digits(n, f.width);
    assert s[k + f.width..] == tail;
  }

  ghost predicate Fit(fields: seq<Field>, values: seq<nat>) {
    |fields| == |values| && forall i :: 0 <= i < |fields| ==> values[i] < Power(fields[i].width)
  }

  lemma {:induction false} ReadWrittenFields(fields: seq<Field>, values: seq<nat>, tail: Text)
    requires Fit(fields, values)
    ensures ReadFields(fields, WriteFields(fields, values) + tail) == Some((values, tail))
    decreases |fields|
  {
    hide ReadField, Digits;
    if fields == [] {
      assert WriteFields(fields, values) + tail == tail;
    } else {
      var rest := WriteFields(fields[1..], values[1..]) + tail;
      assert WriteFields(fields, values) + tail == fields[0].lead + Digits(values[0], fields[0].width) + rest;
      ReadWrittenField(fields[0], values[0], rest);
      ReadWrittenFields(fields[1..], values[1..], tail);
      assert values == [values[0]] + values[1..];
    }
  }

  // ---- The format ----------------------------------------------------------

  const DASH: Text := ['-' as CodePoint]
  const COLON: Text := [':' as CodePoint]
  const POINT: Text := ['.' as CodePoint]
  const PLUS: Text := ['+' as CodePoint]

  const DATE_TIME :=
    [Field([], 4), Field(DASH, 2), Field(DASH, 2), Field(['T' as CodePoint], 2), Field(COLON, 2), Field(COLON, 2)]
  const FRACTION := [Field(POINT, 6)]
  const HOURS_MINUTES := [Field([], 2), Field(COLON, 2)]
  const SECONDS := [Field(COLON, 2)]

  // A part that is left out when its value is zero.
  function WriteOptional(fields: seq<Field>, value: nat): Text
    requires |fields| == 1
  {
    if value == 0 then [] else WriteFields(fields, [value])
  }

  function ReadOptional(fields: seq<Field>, s: Text): Option<(nat, Text)>
    requires |fields| == 1 && fields[0].lead != []
  {
    if s == [] || s[0] != fields[0].lead[0] then Some((0, s))
    else
      var r := ReadFields(fields, s);
      if r.None? || |r.value.0| != 1 then None else Some((r.value.0[0], r.value.1))
  }

  // `[:SS[.ffffff]]`: seconds are written for a fraction too.
  function WriteBelowMinute(micros: nat): Text {
    if micros == 0 then []
    else WriteFields(SECONDS, [micros / MICROS]) + WriteOptional(FRACTION, micros % MICROS)
  }

  function ReadBelowMinute(s: Text): Option<nat> {
    var sec := ReadOptional(SECONDS, s);
    if sec.None? then None
    else
      var frac := ReadOptional(FRACTION, sec.value.1);
      if frac.None? || frac.value.1 != [] || sec.value.0 >= 60 || frac.value.0 >= MICROS then None
      else Some(sec.value.0 * MICROS + frac.value.0)
  }

  // `HH:MM[:SS[.ffffff]]`.
  function WriteSize(size: nat): Text {
    var minutes := size / MICROS / 60;
    WriteFields(HOURS_MINUTES, [minutes / 60, minutes % 60]) + WriteBelowMinute(size - minutes * 60 * MICROS)
  }

  function ReadSize(s: Text): Option<nat> {
    var hm := ReadFields(HOURS_MINUTES, s);
    if hm.None? || |hm.value.0| != 2 || hm.value.0[0] >= 24 || hm.value.0[1] >= 60 then None
    else
      var below := ReadBelowMinute(hm.value.1);
      if below.None? then None
      else Some((hm.value.0[0] * 60 + hm.value.0[1]) * 60 * MICROS + below.value)
  }

  function WriteOffset(offset: int): Text {
    if offset < 0 then DASH + WriteSize(-offset) else PLUS + WriteSize(offset)
  }

  function ReadOffset(s: Text): Option<Option<int>> {
    if s == [] then Some(None)
    else if s[..1] != DASH && s[..1] != PLUS then None
    else
      var size := ReadSize(s[1..]);
      if size.None? then None
      else
        var micros: int := size.value;
        Some(Some(if s[..1] == DASH then -micros else micros))
  }

  function Write(t: Stamp): Text {
    WriteFields(DATE_TIME, [t.year, t.month, t.day, t.hour, t.minute, t.second])
    + (WriteOptional(FRACTION, t.micro) + (if t.offset.Some? then WriteOffset(t.offset.value) else []))
  }

  function Read(s: Text): Option<Stamp> {
    var dt := ReadFields(DATE_TIME, s);
    if dt.None? || |dt.value.0| != 6 then None
    else
      var frac := ReadOptional(FRACTION, dt.value.1);
      if frac.None? then None
      else
        var offset := ReadOffset(frac.value.1);
        if offset.None? then None
        else
          var v := dt.value.0;
          var t := Stamp(v[0], v[1], v[2], v[3], v[4], v[5], frac.value.0, offset.value);
          if Valid(t) then Some(t) else None
  }

  // ---- Round trip ----------------------------------------------------------

  lemma Powers()
    ensures Power(2) == 100 && Power(4) == 10000 && Power(6) == MICROS
  {
    assert Power(1) == 10;
    assert Power(3) == 1000;
    assert Power(5) == 100000;
  }

  lemma ReadWrittenOptional(fields: seq<Field>, value: nat, tail: Text)
    requires |fields| == 1 && fields[0].lead != [] && value < Power(fields[0].width)
    requires tail == [] || tail[0] != fields[0].lead[0]
    ensures ReadOptional(fields, WriteOptional(fields, value) + tail) == Some((value, tail))
  {
    if value == 0 {
      assert WriteOptional(fields, value) + tail == tail;
    } else {
      ReadWrittenFields(fields, [value], tail);
      assert WriteFields(fields, [value])[0] == fields[0].lead[0];
    }
  }

  lemma ReadWrittenBelowMinute(micros: nat)
    requires micros < 60 * MICROS
    ensures ReadBelowMinute(WriteBelowMinute(micros)) == Some(micros)
  {
    if micros != 0 {
      Powers();
      var tail := WriteOptional(FRACTION, micros % MICROS);
      ReadWrittenFields(SECONDS, [micros / MICROS], tail);
      assert WriteFields(SECONDS, [micros / MICROS])[0] == COLON[0];
      ReadWrittenOptional(FRACTION, micros % MICROS, []);
      assert tail + [] == tail;
    }
  }

  lemma SizeParts(size: nat)
    requires size < DAY_MICROS
    ensures var m := size / MICROS / 60;
            m / 60 < 24 && 0 <= size - m * 60 * MICROS < 60 * MICROS && (m / 60 * 60 + m % 60) == m
  {
  }

  lemma ReadWrittenMinutes(hours: nat, minutes: nat, tail: Text)
    requires hours < 24 && minutes < 60
    ensures ReadFields(HOURS_MINUTES, WriteFields(HOURS_MINUTES, [hours, minutes]) + tail)
         == Some(([hours, minutes], tail))
  {
    Powers();
    ReadWrittenFields(HOURS_MINUTES, [hours, minutes], tail);
  }

  lemma ReadWrittenSize(size: nat)
    requires size < DAY_MICROS
    ensures ReadSize(WriteSize(size)) == Some(size)
  {
    hide ReadFields, WriteFields, ReadBelowMinute, WriteBelowMinute;
    var m := size / MICROS / 60;
    var below := size - m * 60 * MICROS;
    SizeParts(size);
    ReadWrittenMinutes(m / 60, m % 60, WriteBelowMinute(below));
    ReadWrittenBelowMinute(below);
  }

  lemma ReadWrittenOffset(offset: int)
    requires -DAY_MICROS < offset < DAY_MICROS
    ensures ReadOffset(WriteOffset(offset)) == Some(Some(offset))
    ensures WriteOffset(offset) != [] && WriteOffset(offset)[0] != POINT[0]
  {
    var size := if offset < 0 then -offset else offset;
    var sign := if offset < 0 then DASH else PLUS;
    ReadWrittenSize(size);
    assert WriteOffset(offset) == sign + WriteSize(size);
    assert WriteOffset(offset)[..1] == sign && WriteOffset(offset)[1..] == WriteSize(size);
  }

  lemma RoundTrip(t: Stamp)
    requires Valid(t)
    ensures Read(Write(t)) == Some(t)
  {
    var zone := if t.offset.Some? then WriteOffset(t.offset.value) else [];
    var tail := WriteOptional(FRACTION, t.micro) + zone;
    Powers();
    ReadWrittenFields(DATE_TIME, [t.year, t.month, t.day, t.hour, t.minute, t.second], tail);
    if t.offset.Some? {
      ReadWrittenOffset(t.offset.value);
    }
    ReadWrittenOptional(FRACTION, t.micro, zone);
  }
}
