/** What a cursor's text looks like, told by the tables of the formats it is made
    of: base64url (section 5 of RFC 4648), JSON strings (section 7 of RFC 8259) and
    the ISO form of a timestamp. */
module CursorFormat {
  import opened Results
  import opened Unicode
  import Base64
  import Cursor
  import IsoTime
  import JsonText

  // ---- base64url -----------------------------------------------------------

  const CAPITALS := "ABCDEFGHIJKLMNOPQRSTUVWXYZ"
  const LETTERS := "abcdefghijklmnopqrstuvwxyz"
  const NUMERALS := "0123456789"
  const ALPHABET := CAPITALS + LETTERS + NUMERALS + "-_"

  lemma CapitalsAre(v: nat)
    ensures |CAPITALS| == 26 && (v < 26 ==> CAPITALS[v] as int == 65 + v)
  {
  }

  lemma LettersAre(v: nat)
    ensures |LETTERS| == 26 && (v < 26 ==> LETTERS[v] as int == 97 + v)
  {
  }

  lemma NumeralsAre(v: nat)
    ensures |NUMERALS| == 10 && (v < 10 ==> NUMERALS[v] as int == 48 + v)
  {
  }

  lemma LetterIs(v: Base64.Sextet)
    ensures |ALPHABET| == 64 && Base64.Letter(v) == ALPHABET[v] as CodePoint
  {
    hide CAPITALS, LETTERS, NUMERALS;
    CapitalsAre(v);
    LettersAre(if v < 26 then 0 else v - 26);
    NumeralsAre(if v < 52 then 0 else v - 52);
  }

  // The reader also takes the two letters of the older alphabet.
  lemma ValueIs(c: CodePoint, v: Base64.Sextet)
    ensures Base64.Value(c) == Some(v) <==>
              c == ALPHABET[v] as CodePoint || (v == 62 && c == '+' as CodePoint) || (v == 63 && c == '/' as CodePoint)
  {
    LetterIs(v);
    Base64.LetterValue(v);
  }

  function ByteAt(bytes: seq<Byte>, i: nat): nat { if i < |bytes| then bytes[i] else 0 }

  // Three bytes as one number of 24 bits, and its sextets, the first the highest.
  function Bits(bytes: seq<Byte>, group: nat): nat {
    ByteAt(bytes, 3 * group) * 65536 + ByteAt(bytes, 3 * group + 1) * 256 + ByteAt(bytes, 3 * group + 2)
  }

  function SextetOf(bits: nat, k: nat): Base64.Sextet {
    if k == 0 then bits / 262144 % 64 else if k == 1 then bits / 4096 % 64 else if k == 2 then bits / 64 % 64
    else bits % 64
  }

  lemma HighBits(b0: Byte, b1: Byte, b2: Byte)
    ensures var n := b0 * 65536 + b1 * 256 + b2;
            n / 262144 == b0 / 4 && n / 4096 == b0 * 16 + b1 / 16 && n / 64 == b0 * 1024 + b1 * 4 + b2 / 64
  {
    var n := b0 * 65536 + b1 * 256 + b2;
    assert n == b0 / 4 * 262144 + (b0 % 4 * 65536 + b1 * 256 + b2);
    assert n == (b0 * 16 + b1 / 16) * 4096 + (b1 % 16 * 256 + b2);
    assert n == (b0 * 1024 + b1 * 4 + b2 / 64) * 64 + b2 % 64;
  }

  lemma GroupIs(b0: Byte, b1: Byte, b2: Byte, k: nat)
    requires k < 4
    ensures |Base64.Group(b0, b1, b2)| == 4
    ensures Base64.Group(b0, b1, b2)[k] == SextetOf(b0 * 65536 + b1 * 256 + b2, k)
  {
    HighBits(b0, b1, b2);
    LowParts(b0, b1, b2);
  }

  lemma LowSix(high: nat, low: nat)
    requires low < 64
    ensures (high * 64 + low) % 64 == low
  {
  }

  lemma LowParts(b0: Byte, b1: Byte, b2: Byte)
    ensures (b0 * 16 + b1 / 16) % 64 == b0 % 4 * 16 + b1 / 16
    ensures (b0 * 1024 + b1 * 4 + b2 / 64) % 64 == b1 % 16 * 4 + b2 / 64
    ensures (b0 * 65536 + b1 * 256 + b2) % 64 == b2 % 64
  {
    LowSix(b0 / 4, b0 % 4 * 16 + b1 / 16);
    LowSix(b0 * 16 + b1 / 16, b1 % 16 * 4 + b2 / 64);
    LowSix(b0 * 1024 + b1 * 4 + b2 / 64, b2 % 64);
  }

  lemma {:induction false} SextetsAre(bytes: seq<Byte>, group: nat, k: nat)
    requires k < 4 && 4 * group + k < |Base64.Sextets(bytes)|
    ensures Base64.Sextets(bytes)[4 * group + k] == SextetOf(Bits(bytes, group), k)
    decreases group
  {
    hide Base64.Group, SextetOf;
    GroupIs(ByteAt(bytes, 0), ByteAt(bytes, 1), ByteAt(bytes, 2), k);
    if group > 0 {
      SextetsAre(bytes[3..], group - 1, k);
      assert Bits(bytes[3..], group - 1) == Bits(bytes, group);
    }
  }

  // The text of some bytes: as many letters as their bits need, and letter by
  // letter the bits of each group of three bytes.
  lemma EncodedIs(bytes: seq<Byte>)
    ensures |Base64.Encode(bytes)| == (8 * |bytes| + 5) / 6
    ensures forall group: nat, k: nat :: k < 4 && 4 * group + k < |Base64.Encode(bytes)| ==>
              Base64.Encode(bytes)[4 * group + k] == ALPHABET[SextetOf(Bits(bytes, group), k)] as CodePoint
  {
    hide SextetOf, Bits, Base64.Sextets;
    Base64.SextetCount(bytes);
    forall group: nat, k: nat | k < 4 && 4 * group + k < |Base64.Encode(bytes)|
      ensures Base64.Encode(bytes)[4 * group + k] == ALPHABET[SextetOf(Bits(bytes, group), k)] as CodePoint
    {
      SextetsAre(bytes, group, k);
      LetterIs(SextetOf(Bits(bytes, group), k));
    }
  }

  // Characters of neither alphabet are skipped wherever they stand.
  lemma {:induction false} ForeignIsSkipped(front: Text, c: CodePoint, tail: Text, q: Base64.Quad)
    requires Base64.Sound(q) && Base64.Value(c) == None && c != Base64.PAD
    ensures Base64.Scan(front + [c] + tail, q) == Base64.Scan(front + tail, q)
    decreases front
  {
    if front == [] {
      assert (front + [c] + tail)[1..] == tail && front + tail == tail;
    } else {
      assert (front + [c] + tail)[1..] == front[1..] + [c] + tail && (front + tail)[1..] == front[1..] + tail;
      if front[0] == Base64.PAD {
        if q.position < 2 {
          ForeignIsSkipped(front[1..], c, tail, q);
        } else if q.position + q.pads + 1 < 4 {
          ForeignIsSkipped(front[1..], c, tail, q.(pads := q.pads + 1));
        }
      } else if Base64.Value(front[0]) == None {
        ForeignIsSkipped(front[1..], c, tail, q);
      } else {
        ForeignIsSkipped(front[1..], c, tail, Base64.Take(q, Base64.Value(front[0]).value).0);
      }
    }
  }

  // Once a group is padded to four, nothing after it matters.
  lemma PaddingEnds(left: nat, tail: Text)
    ensures left < 4 ==> Base64.Scan([Base64.PAD] + tail, Base64.Quad(3, left, 0)) == Some([])
    ensures left < 16 ==> Base64.Scan([Base64.PAD, Base64.PAD] + tail, Base64.Quad(2, left, 0)) == Some([])
  {
    assert ([Base64.PAD, Base64.PAD] + tail)[1..] == [Base64.PAD] + tail;
  }

  // ---- JSON strings --------------------------------------------------------

  const HEX := "0123456789abcdef"
  const CAPITAL_HEX := "0123456789ABCDEF"

  // The character after the backslash, for those that have one.
  const SHORTS: map<CodePoint, char> :=
    map[8 := 'b', 9 := 't', 10 := 'n', 12 := 'f', 13 := 'r', 34 := '\"', 92 := '\\']

  ghost predicate IsHex(c: CodePoint, n: nat) {
    n < 16 && (c == HEX[n] as CodePoint || c == CAPITAL_HEX[n] as CodePoint)
  }

  lemma HexIs(n: JsonText.Hex, c: CodePoint)
    ensures JsonText.HexDigit(n) == HEX[n] as CodePoint
    ensures JsonText.HexValue(c) == Some(n) <==> IsHex(c, n)
  {
  }

  // `\u` and the four digits of the unit.
  lemma UnitEscapeIs(n: CodePoint) returns (h3: nat, h2: nat, h1: nat, h0: nat)
    requires n < 65536
    ensures h3 < 16 && h2 < 16 && h1 < 16 && h0 < 16 && n == h3 * 4096 + h2 * 256 + h1 * 16 + h0
    ensures JsonText.UnitEscape(n)
         == ['\\' as CodePoint, 'u' as CodePoint, HEX[h3] as CodePoint, HEX[h2] as CodePoint, HEX[h1] as CodePoint,
             HEX[h0] as CodePoint]
  {
    h3, h2, h1, h0 := n / 16 / 16 / 16, n / 16 / 16 % 16, n / 16 % 16, n % 16;
    hide HEX, JsonText.HexDigit;
    HexIs(h3, 0);
    HexIs(h2, 0);
    HexIs(h1, 0);
    HexIs(h0, 0);
  }

  // How one character is written: a short escape if it has one, itself if it is
  // printable ASCII, else its UTF-16 code units in hex.
  lemma EscapeIs(c: CodePoint)
    ensures JsonText.Escape(c) ==
              if c in SHORTS then ['\\' as CodePoint, SHORTS[c] as CodePoint]
              else if 32 <= c <= 126 then [c]
              else if c < 65536 then JsonText.UnitEscape(c)
              else JsonText.UnitEscape(55296 + (c - 65536) / 1024) + JsonText.UnitEscape(56320 + (c - 65536) % 1024)
  {
  }

  // One item of a JSON string, and the code unit it stands for.
  ghost predicate Spells(item: Text, unit: CodePoint) {
    || (item == [unit] && 32 <= unit < 128 && unit != 34 && unit != 92)
    || (|item| == 2 && item[0] == 92 && unit in SHORTS && item[1] == SHORTS[unit] as CodePoint)
    || (item == [92, 47] && unit == 47)
    || (&& |item| == 6 && item[0] == 92 && item[1] == 'u' as CodePoint
        && exists h3: nat, h2: nat, h1: nat, h0: nat :: Digits(item, h3, h2, h1, h0)
             && unit == h3 * 4096 + h2 * 256 + h1 * 16 + h0)
  }

  ghost predicate Digits(item: Text, h3: nat, h2: nat, h1: nat, h0: nat)
    requires |item| == 6
  {
    IsHex(item[2], h3) && IsHex(item[3], h2) && IsHex(item[4], h1) && IsHex(item[5], h0)
  }

  lemma UnshortIs(letter: CodePoint, c: CodePoint)
    ensures JsonText.Unshort(letter) == Some(c) <==>
              (c in SHORTS && letter == SHORTS[c] as CodePoint) || (letter == 47 && c == 47)
  {
  }

  lemma ReadUnitIs(item: Text, unit: CodePoint)
    requires |item| == 6
    ensures JsonText.ReadUnit(item[2], item[3], item[4], item[5]) == Some(unit) <==>
              exists h3: nat, h2: nat, h1: nat, h0: nat :: Digits(item, h3, h2, h1, h0)
                && unit == h3 * 4096 + h2 * 256 + h1 * 16 + h0
  {
    hide JsonText.HexValue, IsHex;
    forall c: CodePoint, n: JsonText.Hex ensures JsonText.HexValue(c) == Some(n) <==> IsHex(c, n) {
      HexIs(n, c);
    }
    HexBelow();
    if JsonText.ReadUnit(item[2], item[3], item[4], item[5]) == Some(unit) {
      assert Digits(item, JsonText.HexValue(item[2]).value, JsonText.HexValue(item[3]).value,
                    JsonText.HexValue(item[4]).value, JsonText.HexValue(item[5]).value);
    }
  }

  lemma HexBelow()
    ensures forall c: CodePoint, n: nat :: IsHex(c, n) ==> n < 16
  {
  }

  ghost predicate Spelt(s: Text, units: Text, rest: Text)
    decreases |units|
  {
    if units == [] then s == [34] + rest
    else exists item, tail :: s == item + tail && Spells(item, units[0]) && Spelt(tail, units[1..], rest)
  }

  lemma ItemIsRead(item: Text, unit: CodePoint, tail: Text)
    requires Spells(item, unit)
    ensures JsonText.ReadUnits(item + tail) == JsonText.Before([unit], JsonText.ReadUnits(tail))
  {
    hide JsonText.ReadUnit, JsonText.Unshort, IsHex;
    var s := item + tail;
    assert s[|item|..] == tail;
    assert forall i :: 0 <= i < |item| ==> s[i] == item[i];
    if |item| == 2 {
      UnshortIs(item[1], unit);
      ShortsAreNoUnits(item[1], unit);
    } else if |item| == 6 {
      ReadUnitIs(item, unit);
    }
  }

  lemma ShortsAreNoUnits(letter: CodePoint, c: CodePoint)
    ensures JsonText.Unshort(letter) == Some(c) ==> letter != 'u' as CodePoint
  {
  }

  lemma {:induction false} SpeltIsRead(s: Text, units: Text, rest: Text)
    requires Spelt(s, units, rest)
    ensures JsonText.ReadUnits(s) == Some((units, rest))
    decreases |units|
  {
    hide Spells, JsonText.ReadUnits;
    if units == [] {
      QuoteEnds(rest);
    } else {
      var item, tail :| s == item + tail && Spells(item, units[0]) && Spelt(tail, units[1..], rest);
      SpeltIsRead(tail, units[1..], rest);
      ItemIsRead(item, units[0], tail);
      assert [units[0]] + units[1..] == units;
    }
  }

  lemma QuoteEnds(rest: Text)
    ensures JsonText.ReadUnits([34] + rest) == Some(([], rest))
  {
    assert ([34] + rest)[1..] == rest;
  }

  // The first item of what is read.
  lemma FirstItem(s: Text, units: Text, rest: Text) returns (item: Text, tail: Text)
    requires JsonText.ReadUnits(s) == Some((units, rest)) && s[0] != 34
    ensures units != [] && s == item + tail && |tail| < |s| && Spells(item, units[0])
    ensures JsonText.ReadUnits(tail) == Some((units[1..], rest))
  {
    hide JsonText.ReadUnit, JsonText.Unshort, IsHex;
    var n := if s[0] != 92 then 1 else if s[1] == 'u' as CodePoint then 6 else 2;
    item, tail := s[..n], s[n..];
    if n == 2 {
      UnshortIs(s[1], units[0]);
    } else if n == 6 {
      ReadUnitIs(item, units[0]);
    }
  }

  lemma {:induction false} ReadIsSpelt(s: Text, units: Text, rest: Text)
    requires JsonText.ReadUnits(s) == Some((units, rest))
    ensures Spelt(s, units, rest)
    decreases |s|
  {
    hide Spells;
    assert s != [];
    if s[0] == 34 {
      assert s == [34] + s[1..];
    } else {
      var item, tail := FirstItem(s, units, rest);
      ReadIsSpelt(tail, units[1..], rest);
    }
  }

  // A string is read exactly if it is items up to a quote, and then as their units.
  lemma ReadIs(s: Text, units: Text, rest: Text)
    ensures JsonText.ReadUnits(s) == Some((units, rest)) <==> Spelt(s, units, rest)
  {
    hide Spelt, JsonText.ReadUnits;
    if JsonText.ReadUnits(s) == Some((units, rest)) { ReadIsSpelt(s, units, rest); }
    if Spelt(s, units, rest) { SpeltIsRead(s, units, rest); }
  }

  // ---- Timestamps ----------------------------------------------------------

  const MONTHS := [31, 28, 31, 30, 31, 30, 31, 31, 30, 31, 30, 31]

  // The Gregorian calendar; a year is a leap year if 16 divides it, or 4 but not 25.
  lemma CalendarIs(t: IsoTime.Stamp)
    ensures IsoTime.Valid(t) <==>
              && 1 <= t.year < 10000 && 1 <= t.month <= 12 && 1 <= t.day
              && (var leap := Divides(16, t.year) || (Divides(4, t.year) && !Divides(25, t.year));
                  t.day <= MONTHS[t.month - 1] + if t.month == 2 && leap then 1 else 0)
              && t.hour < 24 && t.minute < 60 && t.second < 60 && t.micro < 1000000
              && (t.offset.Some? ==> -86400000000 < t.offset.value < 86400000000)
  {
    LeapIs(t.year);
  }

  lemma Multiples(year: nat, k: int)
    ensures year == 4 * k ==> year % 4 == 0
    ensures year == 16 * k ==> year % 16 == 0
    ensures year == 25 * k ==> year % 25 == 0
    ensures year == 100 * k ==> year % 100 == 0
    ensures year == 400 * k ==> year % 400 == 0
  {
  }

  // 25 and 4, 25 and 16 have no divisor in common.
  lemma FourAndTwentyFive(year: nat, a: nat, b: nat)
    requires year == 4 * a && year == 25 * b
    ensures year == 100 * (a - 6 * b)
  {
  }

  lemma SixteenAndTwentyFive(year: nat, a: nat, b: nat)
    requires year == 16 * a && year == 25 * b
    ensures year == 400 * (9 * a - 14 * b)
  {
  }

  lemma Hundred(year: nat)
    ensures year % 100 == 0 <==> year % 4 == 0 && year % 25 == 0
  {
    if year % 100 == 0 {
      Multiples(year, 25 * (year / 100));
      Multiples(year, 4 * (year / 100));
    } else if year % 4 == 0 && year % 25 == 0 {
      FourAndTwentyFive(year, year / 4, year / 25);
      Multiples(year, year / 4 - 6 * (year / 25));
    }
  }

  lemma FourHundred(year: nat)
    ensures year % 400 == 0 <==> year % 16 == 0 && year % 25 == 0
  {
    if year % 400 == 0 {
      Multiples(year, 25 * (year / 400));
      Multiples(year, 16 * (year / 400));
    } else if year % 16 == 0 && year % 25 == 0 {
      SixteenAndTwentyFive(year, year / 16, year / 25);
      Multiples(year, 9 * (year / 16) - 14 * (year / 25));
    }
  }

  lemma Fours(year: nat)
    ensures year % 16 == 0 ==> year % 4 == 0
  {
    if year % 16 == 0 { assert year == 4 * (4 * (year / 16)); }
  }

  predicate Divides(n: nat, year: nat)
    requires n > 0
  {
    year % n == 0
  }

  lemma LeapIs(year: nat)
    ensures IsoTime.Leap(year) <==> Divides(16, year) || (Divides(4, year) && !Divides(25, year))
  {
    assert IsoTime.Leap(year) <==> Divides(4, year) && (!Divides(100, year) || Divides(400, year));
    assert Divides(100, year) <==> Divides(4, year) && Divides(25, year) by { Hundred(year); }
    assert Divides(400, year) <==> Divides(16, year) && Divides(25, year) by { FourHundred(year); }
    assert Divides(16, year) ==> Divides(4, year) by { Fours(year); }
    hide Divides, IsoTime.Leap;
  }

  function Decimal(s: Text): int {
    if s == [] then 0 else Decimal(s[..|s| - 1]) * 10 + (s[|s| - 1] as int - 48)
  }

  // A separator, or none, and a number of that many digits.
  ghost predicate Part(s: Text, lead: string, width: nat, n: nat) {
    && |s| == |lead| + width && (forall i :: 0 <= i < |lead| ==> s[i] == lead[i] as CodePoint)
    && (forall i :: |lead| <= i < |s| ==> '0' as int <= s[i] <= '9' as int) && Decimal(s[|lead|..]) == n
  }

  // Such parts one after another.
  ghost predicate Parts(s: Text, leads: seq<(string, nat)>, values: seq<nat>)
    requires |leads| == |values|
    decreases |leads|
  {
    if leads == [] then s == []
    else
      exists part, rest :: s == part + rest && Part(part, leads[0].0, leads[0].1, values[0])
                           && Parts(rest, leads[1..], values[1..])
  }

  // A part that may be missing, for zero.
  ghost predicate Optional(s: Text, lead: string, width: nat, n: nat) {
    (s == [] && n == 0) || Part(s, lead, width, n)
  }

  // `[:SS][.ffffff]`.
  ghost predicate Below(s: Text, micros: nat) {
    exists sec, frac, x: nat, f: nat :: s == sec + frac && Optional(sec, ":", 2, x) && Optional(frac, ".", 6, f)
      && x < 60 && micros == x * 1000000 + f
  }

  const SIZE_PARTS: seq<(string, nat)> := [("", 2), (":", 2)]
  const DATE_PARTS: seq<(string, nat)> := [("", 4), ("-", 2), ("-", 2), ("T", 2), (":", 2), (":", 2)]

  // `HH:MM[:SS][.ffffff]`.
  ghost predicate Size(s: Text, size: nat) {
    exists hm, below, h: nat, m: nat, micros: nat :: s == hm + below && Parts(hm, SIZE_PARTS, [h, m])
      && h < 24 && m < 60 && Below(below, micros) && size == (h * 60 + m) * 60000000 + micros
  }

  ghost predicate Zone(s: Text, offset: Option<int>) {
    match offset
    case None => s == []
    case Some(o) =>
      exists size: nat, t :: Size(t, size)
        && ((s == ['+' as CodePoint] + t && o == size) || (s == ['-' as CodePoint] + t && o == -(size as int)))
  }

  // What an ISO timestamp says.
  ghost predicate Says(s: Text, t: IsoTime.Stamp) {
    exists date, frac, zone :: s == date + (frac + zone)
      && Parts(date, DATE_PARTS, [t.year, t.month, t.day, t.hour, t.minute, t.second])
      && Optional(frac, ".", 6, t.micro) && Zone(zone, t.offset)
  }

  lemma {:induction false} NumberIs(s: Text)
    requires IsoTime.AllDigits(s)
    ensures IsoTime.Number(s) == Decimal(s)
  {
    if s != [] { NumberIs(s[..|s| - 1]); }
  }

  ghost predicate SameLead(f: IsoTime.Field, lead: (string, nat)) {
    f.width == lead.1 && |f.lead| == |lead.0| && forall i :: 0 <= i < |f.lead| ==> f.lead[i] == lead.0[i] as CodePoint
  }

  lemma FieldIs(f: IsoTime.Field, lead: (string, nat), s: Text, n: nat, rest: Text)
    requires SameLead(f, lead)
    ensures IsoTime.ReadField(f, s) == Some((n, rest)) <==>
              exists part :: s == part + rest && Part(part, lead.0, lead.1, n)
  {
    var k := |f.lead|;
    if IsoTime.ReadField(f, s) == Some((n, rest)) {
      var part := s[..k + f.width];
      assert part[k..] == s[k..k + f.width] && s[..k] == f.lead;
      NumberIs(part[k..]);
      assert s == part + rest && Part(part, lead.0, lead.1, n);
    }
    if part :| s == part + rest && Part(part, lead.0, lead.1, n) {
      assert part[k..] == s[k..k + f.width] && s[..k] == f.lead && s[k + f.width..] == rest;
      NumberIs(part[k..]);
    }
  }

  ghost predicate SameLeads(fields: seq<IsoTime.Field>, leads: seq<(string, nat)>) {
    |fields| == |leads| && forall i :: 0 <= i < |fields| ==> SameLead(fields[i], leads[i])
  }

  ghost predicate Begins(s: Text, leads: seq<(string, nat)>, values: seq<nat>, rest: Text) {
    |values| == |leads| && exists text :: s == text + rest && Parts(text, leads, values)
  }

  // One part in front of others.
  lemma BeginsWith(leads: seq<(string, nat)>, values: seq<nat>, part: Text, after: Text, rest: Text)
    requires leads != [] && values != [] && Part(part, leads[0].0, leads[0].1, values[0])
    requires Begins(after, leads[1..], values[1..], rest)
    ensures Begins(part + after, leads, values, rest)
  {
    hide Part;
    var text :| after == text + rest && Parts(text, leads[1..], values[1..]);
    assert Parts(part + text, leads, values);
    assert part + after == (part + text) + rest;
  }

  lemma BeginsFrom(s: Text, leads: seq<(string, nat)>, values: seq<nat>, rest: Text) returns (part: Text, after: Text)
    requires leads != [] && Begins(s, leads, values, rest)
    ensures s == part + after && Part(part, leads[0].0, leads[0].1, values[0])
    ensures Begins(after, leads[1..], values[1..], rest)
  {
    hide Part;
    var text :| s == text + rest && Parts(text, leads, values);
    var first, more :| text == first + more && Part(first, leads[0].0, leads[0].1, values[0])
                       && Parts(more, leads[1..], values[1..]);
    part, after := first, more + rest;
    assert s == part + after;
  }

  lemma BeginsSize(s: Text, leads: seq<(string, nat)>, values: seq<nat>, rest: Text)
    requires Begins(s, leads, values, rest)
    ensures |values| == |leads|
  {
  }

  lemma NoFields(s: Text, values: seq<nat>, rest: Text)
    ensures IsoTime.ReadFields([], s) == Some((values, rest)) <==> Begins(s, [], values, rest)
  {
    if Begins(s, [], values, rest) {
      var text :| s == text + rest && Parts(text, [], values);
      assert [] + rest == rest;
    }
    if s == rest { assert s == [] + rest && Parts([], [], []); }
  }

  lemma {:induction false} FieldsAreRead(fields: seq<IsoTime.Field>, leads: seq<(string, nat)>, s: Text,
                                         values: seq<nat>, rest: Text)
    requires SameLeads(fields, leads) && Begins(s, leads, values, rest)
    ensures IsoTime.ReadFields(fields, s) == Some((values, rest))
    decreases |fields|
  {
    hide IsoTime.ReadField, Part, Begins, SameLead;
    if fields == [] {
      NoFields(s, values, rest);
    } else {
      BeginsSize(s, leads, values, rest);
      var part, after := BeginsFrom(s, leads, values, rest);
      FieldIs(fields[0], leads[0], s, values[0], after);
      FieldsAreRead(fields[1..], leads[1..], after, values[1..], rest);
      assert [values[0]] + values[1..] == values;
    }
  }

  lemma {:induction false} FieldsRead(fields: seq<IsoTime.Field>, leads: seq<(string, nat)>, s: Text,
                                      values: seq<nat>, rest: Text)
    requires SameLeads(fields, leads) && IsoTime.ReadFields(fields, s) == Some((values, rest))
    ensures Begins(s, leads, values, rest)
    decreases |fields|
  {
    hide IsoTime.ReadField, Part, Begins, SameLead;
    if fields == [] {
      NoFields(s, values, rest);
    } else {
      var after := IsoTime.ReadField(fields[0], s).value.1;
      FieldIs(fields[0], leads[0], s, values[0], after);
      var part :| s == part + after && Part(part, leads[0].0, leads[0].1, values[0]);
      FieldsRead(fields[1..], leads[1..], after, values[1..], rest);
      BeginsWith(leads, values, part, after, rest);
    }
  }

  lemma FieldsAre(fields: seq<IsoTime.Field>, leads: seq<(string, nat)>, s: Text, values: seq<nat>, rest: Text)
    requires SameLeads(fields, leads)
    ensures IsoTime.ReadFields(fields, s) == Some((values, rest)) <==> Begins(s, leads, values, rest)
  {
    hide SameLeads, IsoTime.ReadFields, Begins;
    if IsoTime.ReadFields(fields, s) == Some((values, rest)) { FieldsRead(fields, leads, s, values, rest); }
    if Begins(s, leads, values, rest) { FieldsAreRead(fields, leads, s, values, rest); }
  }

  // An optional part is read if its separator is there, and only then.
  ghost predicate OptionalThen(s: Text, lead: string, width: nat, n: nat, rest: Text)
    requires |lead| == 1
  {
    exists text :: s == text + rest && Optional(text, lead, width, n)
                   && (text == [] && rest != [] ==> rest[0] != lead[0] as CodePoint)
  }

  lemma OneField(f: IsoTime.Field, lead: (string, nat), s: Text, n: nat, rest: Text)
    requires SameLead(f, lead)
    ensures IsoTime.ReadFields([f], s) == Some(([n], rest)) <==>
              exists part :: s == part + rest && Part(part, lead.0, lead.1, n)
  {
    hide IsoTime.ReadField, Part;
    FieldIs(f, lead, s, n, rest);
    assert [f][1..] == [] && [n] + [] == [n];
    if IsoTime.ReadFields([f], s) == Some(([n], rest)) {
      assert [IsoTime.ReadField(f, s).value.0] + [] == [n];
      assert IsoTime.ReadField(f, s).value.0 == [n][0];
    }
  }

  lemma OptionalIsRead(f: IsoTime.Field, lead: (string, nat), s: Text, n: nat, rest: Text)
    requires SameLead(f, lead) && |lead.0| == 1 && OptionalThen(s, lead.0, lead.1, n, rest)
    ensures IsoTime.ReadOptional([f], s) == Some((n, rest))
  {
    hide IsoTime.ReadFields;
    var text :| s == text + rest && Optional(text, lead.0, lead.1, n)
                && (text == [] && rest != [] ==> rest[0] != lead.0[0] as CodePoint);
    if text == [] {
      assert s == rest;
    } else {
      assert s[0] == text[0] == f.lead[0];
      OneField(f, lead, s, n, rest);
    }
  }

  lemma OptionalWasRead(f: IsoTime.Field, lead: (string, nat), s: Text, n: nat, rest: Text)
    requires SameLead(f, lead) && |lead.0| == 1 && IsoTime.ReadOptional([f], s) == Some((n, rest))
    ensures OptionalThen(s, lead.0, lead.1, n, rest)
  {
    if s == [] || s[0] != f.lead[0] {
      var none: Text := [];
      assert s == none + rest && Optional(none, lead.0, lead.1, n);
    } else {
      assert IsoTime.ReadFields([f], s).value.0 == [n];
      OneField(f, lead, s, n, rest);
      var part :| s == part + rest && Part(part, lead.0, lead.1, n);
      assert Optional(part, lead.0, lead.1, n);
    }
  }

  lemma OptionalIs(f: IsoTime.Field, lead: (string, nat), s: Text, n: nat, rest: Text)
    requires SameLead(f, lead) && |lead.0| == 1
    ensures IsoTime.ReadOptional([f], s) == Some((n, rest)) <==> OptionalThen(s, lead.0, lead.1, n, rest)
  {
    hide IsoTime.ReadOptional, OptionalThen;
    if IsoTime.ReadOptional([f], s) == Some((n, rest)) { OptionalWasRead(f, lead, s, n, rest); }
    if OptionalThen(s, lead.0, lead.1, n, rest) { OptionalIsRead(f, lead, s, n, rest); }
  }

  lemma FieldsAreTheirs()
    ensures SameLeads(IsoTime.HOURS_MINUTES, SIZE_PARTS) && SameLeads(IsoTime.DATE_TIME, DATE_PARTS)
    ensures IsoTime.SECONDS == [IsoTime.SECONDS[0]] && SameLead(IsoTime.SECONDS[0], (":", 2))
    ensures IsoTime.FRACTION == [IsoTime.FRACTION[0]] && SameLead(IsoTime.FRACTION[0], (".", 6))
  {
  }

  lemma SixDigits(s: Text)
    requires |s| == 6 && forall i :: 0 <= i < 6 ==> '0' as int <= s[i] <= '9' as int
    ensures 0 <= Decimal(s) < 1000000
  {
    DecimalBelow(s);
  }

  function Tens(n: nat): nat { if n == 0 then 1 else Tens(n - 1) * 10 }

  lemma {:induction false} DecimalBelow(s: Text)
    requires forall i :: 0 <= i < |s| ==> '0' as int <= s[i] <= '9' as int
    ensures 0 <= Decimal(s) < Tens(|s|)
  {
    if s != [] { DecimalBelow(s[..|s| - 1]); }
  }

  lemma BelowIs(s: Text, micros: nat)
    ensures IsoTime.ReadBelowMinute(s) == Some(micros) <==> Below(s, micros)
  {
    hide IsoTime.ReadOptional, Optional;
    FieldsAreTheirs();
    if IsoTime.ReadBelowMinute(s) == Some(micros) {
      var (x, rest) := IsoTime.ReadOptional(IsoTime.SECONDS, s).value;
      var f := IsoTime.ReadOptional(IsoTime.FRACTION, rest).value.0;
      OptionalIs(IsoTime.SECONDS[0], (":", 2), s, x, rest);
      OptionalIs(IsoTime.FRACTION[0], (".", 6), rest, f, []);
      var sec :| s == sec + rest && Optional(sec, ":", 2, x);
      var frac :| rest == frac + [] && Optional(frac, ".", 6, f);
      assert s == sec + frac;
    }
    if Below(s, micros) { BelowIsRead(s, micros); }
  }

  lemma BelowIsRead(s: Text, micros: nat)
    requires Below(s, micros)
    ensures IsoTime.ReadBelowMinute(s) == Some(micros)
  {
    hide IsoTime.ReadOptional;
    FieldsAreTheirs();
    var sec, frac, x: nat, f: nat :| s == sec + frac && Optional(sec, ":", 2, x) && Optional(frac, ".", 6, f)
      && x < 60 && micros == x * 1000000 + f;
    if frac != [] { SixDigits(frac[1..]); }
    assert frac == frac + [];
    OptionalIs(IsoTime.FRACTION[0], (".", 6), frac, f, []);
    OptionalIs(IsoTime.SECONDS[0], (":", 2), s, x, frac);
  }

  lemma SizeIs(s: Text, size: nat)
    ensures IsoTime.ReadSize(s) == Some(size) <==> Size(s, size)
  {
    hide IsoTime.ReadFields, IsoTime.ReadBelowMinute, Parts, Below;
    FieldsAreTheirs();
    if IsoTime.ReadSize(s) == Some(size) {
      var (hm, below) := IsoTime.ReadFields(IsoTime.HOURS_MINUTES, s).value;
      var micros := IsoTime.ReadBelowMinute(below).value;
      assert hm == [hm[0], hm[1]];
      FieldsAre(IsoTime.HOURS_MINUTES, SIZE_PARTS, s, hm, below);
      BelowIs(below, micros);
      var text :| s == text + below && Parts(text, SIZE_PARTS, hm);
      assert s == text + below && Parts(text, SIZE_PARTS, [hm[0], hm[1]]);
    }
    if Size(s, size) {
      var hm, below, h: nat, m: nat, micros: nat :| s == hm + below && Parts(hm, SIZE_PARTS, [h, m])
        && h < 24 && m < 60 && Below(below, micros) && size == (h * 60 + m) * 60000000 + micros;
      FieldsAre(IsoTime.HOURS_MINUTES, SIZE_PARTS, s, [h, m], below);
      BelowIs(below, micros);
    }
  }

  lemma ZoneIs(s: Text, offset: Option<int>)
    ensures IsoTime.ReadOffset(s) == Some(offset) <==> Zone(s, offset)
  {
    hide IsoTime.ReadSize, Size;
    if s != [] {
      assert s == s[..1] + s[1..];
      if IsoTime.ReadSize(s[1..]).Some? { SizeIs(s[1..], IsoTime.ReadSize(s[1..]).value); }
    }
    if offset.Some? && Zone(s, offset) {
      var size: nat, t :| Size(t, size)
        && ((s == ['+' as CodePoint] + t && offset.value == size)
            || (s == ['-' as CodePoint] + t && offset.value == -(size as int)));
      assert s[1..] == t;
      SizeIs(t, size);
    }
  }

  // A timestamp is read exactly if it is a valid one that the text says.
  lemma StampIs(s: Text, t: IsoTime.Stamp)
    ensures IsoTime.Read(s) == Some(t) <==> IsoTime.Valid(t) && Says(s, t)
  {
    hide IsoTime.Valid, Says, IsoTime.Read;
    if IsoTime.Read(s) == Some(t) { ReadSays(s, t); }
    if IsoTime.Valid(t) && Says(s, t) { SaidIsRead(s, t); }
  }

  lemma ReadSays(s: Text, t: IsoTime.Stamp)
    requires IsoTime.Read(s) == Some(t)
    ensures IsoTime.Valid(t) && Says(s, t)
  {
    hide IsoTime.ReadFields, IsoTime.ReadOptional, IsoTime.ReadOffset, IsoTime.Valid, Parts, Optional, Zone;
    FieldsAreTheirs();
    var (v, after) := IsoTime.ReadFields(IsoTime.DATE_TIME, s).value;
    var (micro, zone) := IsoTime.ReadOptional(IsoTime.FRACTION, after).value;
    assert v == [v[0], v[1], v[2], v[3], v[4], v[5]];
    FieldsAre(IsoTime.DATE_TIME, DATE_PARTS, s, v, after);
    OptionalIs(IsoTime.FRACTION[0], (".", 6), after, micro, zone);
    ZoneIs(zone, t.offset);
    var date :| s == date + after && Parts(date, DATE_PARTS, v);
    var frac :| after == frac + zone && Optional(frac, ".", 6, micro);
    assert s == date + (frac + zone);
  }

  lemma SaidIsRead(s: Text, t: IsoTime.Stamp)
    requires IsoTime.Valid(t) && Says(s, t)
    ensures IsoTime.Read(s) == Some(t)
  {
    hide IsoTime.ReadFields, IsoTime.ReadOptional, IsoTime.ReadOffset, IsoTime.Valid, Parts, Optional;
    FieldsAreTheirs();
    var values := [t.year, t.month, t.day, t.hour, t.minute, t.second];
    var date, frac, zone :| s == date + (frac + zone) && Parts(date, DATE_PARTS, values)
                            && Optional(frac, ".", 6, t.micro) && Zone(zone, t.offset);
    assert zone != [] ==> zone[0] != '.' as CodePoint;
    FieldsAre(IsoTime.DATE_TIME, DATE_PARTS, s, values, frac + zone);
    OptionalIs(IsoTime.FRACTION[0], (".", 6), frac + zone, t.micro, zone);
    ZoneIs(zone, t.offset);
  }

  // What is written says the timestamp.
  lemma WrittenSays(t: IsoTime.Stamp)
    requires IsoTime.Valid(t)
    ensures Says(IsoTime.Write(t), t)
  {
    hide IsoTime.Valid, Says;
    IsoTime.RoundTrip(t);
    StampIs(IsoTime.Write(t), t);
  }

  // The cursor's JSON object: two fields, in this order, without white space.
  lemma ObjectIs(at: IsoTime.Stamp, id: Text)
    ensures Cursor.Json(at, id)
         == Ascii("{\"t\":\"") + JsonText.EscapeAll(IsoTime.Write(at)) + Ascii("\",\"id\":\"") + JsonText.EscapeAll(id)
            + Ascii("\"}")
  {
    hide JsonText.EscapeAll, IsoTime.Write;
  }

  // The text of an object: its two strings, item by item, and what they stand for.
  ghost predicate Object(s: Text, at: Text, id: Text) {
    exists rest, tail, t, i :: s == Ascii("{\"t\":\"") + rest && Spelt(rest, t, Ascii(",\"id\":\"") + tail)
      && Spelt(tail, i, Ascii("}")) && at == Joined(t) && id == Joined(i)
  }

  lemma ObjectIsRead(s: Text, place: Cursor.Place)
    ensures Cursor.ReadJson(s) == Ok(place) <==>
              exists at :: Object(s, at, place.id) && IsoTime.Valid(place.at) && Says(at, place.at) && place.id != []
  {
    hide Says, IsoTime.Valid, IsoTime.Read, JsonText.ReadUnits, Spelt;
    if Cursor.ReadJson(s) == Ok(place) {
      var rest := s[6..];
      assert s == Cursor.OPEN + rest;
      var (t, after) := JsonText.ReadUnits(rest).value;
      ReadIs(rest, t, after);
      var tail := after[7..];
      assert after == Cursor.MIDDLE + tail;
      ReadIs(tail, JsonText.ReadUnits(tail).value.0, Cursor.CLOSE);
      StampIs(Joined(t), place.at);
      assert Object(s, Joined(t), place.id);
    }
    if at :| Object(s, at, place.id) && IsoTime.Valid(place.at) && Says(at, place.at) && place.id != [] {
      SpelledIsRead(s, at, place);
    }
  }

  lemma SpelledIsRead(s: Text, at: Text, place: Cursor.Place)
    requires Object(s, at, place.id) && IsoTime.Valid(place.at) && Says(at, place.at) && place.id != []
    ensures Cursor.ReadJson(s) == Ok(place)
  {
    hide Says, IsoTime.Valid, IsoTime.Read, JsonText.ReadUnits, Spelt;
    var rest, tail, t, i :| s == Ascii("{\"t\":\"") + rest && Spelt(rest, t, Ascii(",\"id\":\"") + tail)
      && Spelt(tail, i, Ascii("}")) && at == Joined(t) && place.id == Joined(i);
    ReadIs(rest, t, Cursor.MIDDLE + tail);
    ReadIs(tail, i, Cursor.CLOSE);
    Cursor.AfterPrefix(Cursor.OPEN, rest);
    Cursor.AfterPrefix(Cursor.MIDDLE, tail);
    StampIs(at, place.at);
  }

  // Exactly these cursors are read: not empty, without white space around them or
  // surrogates in them, and base64 of such an object.
  lemma CursorIs(cursor: Text, place: Cursor.Place)
    ensures Cursor.Decode(cursor) == Ok(place) <==>
              && cursor != [] && !IsSpace(cursor[0]) && !IsSpace(cursor[|cursor| - 1])
              && (forall i :: 0 <= i < |cursor| ==> !(0xD800 <= cursor[i] < 0xE000))
              && Base64.Decode(cursor).Some?
              && exists at :: Object(Cursor.FromBytes(Base64.Decode(cursor).value), at, place.id)
                              && IsoTime.Valid(place.at) && Says(at, place.at) && place.id != []
  {
    hide Says, IsoTime.Valid, Object, Base64.Decode, Cursor.ReadJson;
    if Base64.Decode(cursor).Some? { ObjectIsRead(Cursor.FromBytes(Base64.Decode(cursor).value), place); }
  }
}
