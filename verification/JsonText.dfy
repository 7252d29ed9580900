/** JSON strings (section 7 of RFC 8259) as Python's encoder writes them with
    every character outside printable ASCII escaped, and as its decoder reads
    them back. Surrogate escapes that meet are joined on the way in. */
module JsonText {
  import opened Results
  import opened Unicode

  type Hex = n: int | 0 <= n < 16

  const QUOTE: CodePoint := '\"' as CodePoint
  const SLASH: CodePoint := '\\' as CodePoint
  const LETTER_U: CodePoint := 'u' as CodePoint

  function HexDigit(n: Hex): CodePoint { if n < 10 then 48 + n else 87 + n }

  function HexValue(c: CodePoint): Option<Hex> {
    if 48 <= c <= 57 then Some(c - 48)
    else if 97 <= c <= 102 then Some(c - 87)
    else if 65 <= c <= 70 then Some(c - 55)
    else None
  }

  // `\uXXXX` for a code unit.
  function UnitEscape(n: CodePoint): Text
    requires n < 0x10000
  {
    [SLASH, LETTER_U, HexDigit(n / 16 / 16 / 16), HexDigit(n / 16 / 16 % 16), HexDigit(n / 16 % 16), HexDigit(n % 16)]
  }

  // The letter after a backslash for the characters that have one.
  function Short(c: CodePoint): Option<CodePoint> {
    if c == QUOTE || c == SLASH then Some(c)
    else if c == 10 then Some('n' as CodePoint)
    else if c == 13 then Some('r' as CodePoint)
    else if c == 9 then Some('t' as CodePoint)
    else if c == 12 then Some('f' as CodePoint)
    else if c == 8 then Some('b' as CodePoint)
    else None
  }

  function Unshort(letter: CodePoint): Option<CodePoint> {
    if letter == QUOTE || letter == SLASH || letter == '/' as CodePoint then Some(letter)
    else if letter == 'n' as CodePoint then Some(10)
    else if letter == 'r' as CodePoint then Some(13)
    else if letter == 't' as CodePoint then Some(9)
    else if letter == 'f' as CodePoint then Some(12)
    else if letter == 'b' as CodePoint then Some(8)
    else None
  }

  // The UTF-16 code units of one code point; a lone surrogate is its own unit.
  function UnitsOf(c: CodePoint): Text {
    if c < 0x10000 then [c] else [0xD800 + (c - 0x10000) / 0x400, 0xDC00 + (c - 0x10000) % 0x400]
  }

  function Units(s: Text): Text { if s == [] then [] else UnitsOf(s[0]) + Units(s[1..]) }

  function Escape(c: CodePoint): Text {
    if Short(c).Some? then [SLASH, Short(c).value]
    else if 0x20 <= c < 0x7F then [c]
    else if c < 0x10000 then UnitEscape(c)
    else UnitEscape(UnitsOf(c)[0]) + UnitEscape(UnitsOf(c)[1])
  }

  function EscapeAll(s: Text): Text { if s == [] then [] else Escape(s[0]) + EscapeAll(s[1..]) }

  function ReadUnit(h3: CodePoint, h2: CodePoint, h1: CodePoint, h0: CodePoint): Option<CodePoint> {
    if HexValue(h3).None? || HexValue(h2).None? || HexValue(h1).None? || HexValue(h0).None? then None
    else Some(HexValue(h3).value * 4096 + HexValue(h2).value * 256 + HexValue(h1).value * 16 + HexValue(h0).value)
  }

  function Before(units: Text, rest: Option<(Text, Text)>): Option<(Text, Text)> {
    if rest.None? then None else Some((units + rest.value.0, rest.value.1))
  }

  // The code units up to the closing quote, and what follows it.
  function ReadUnits(s: Text): Option<(Text, Text)> {
    if s == [] then None
    else if s[0] == QUOTE then Some(([], s[1..]))
    else if s[0] == SLASH then
      if |s| < 2 then None
      else if s[1] == LETTER_U then
        if |s| < 6 || ReadUnit(s[2], s[3], s[4], s[5]).None? then None
        else Before([ReadUnit(s[2], s[3], s[4], s[5]).value], ReadUnits(s[6..]))
      else if Unshort(s[1]).None? then None
      else Before([Unshort(s[1]).value], ReadUnits(s[2..]))
    else if s[0] < 0x20 || s[0] >= 0x80 then None
    else Before([s[0]], ReadUnits(s[1..]))
  }

  function ReadString(s: Text): Option<(Text, Text)> {
    var r := ReadUnits(s);
    if r.None? then None else Some((Joined(r.value.0), r.value.1))
  }

  lemma HexBack(h: Hex)
    ensures HexValue(HexDigit(h)) == Some(h)
  {
  }

  lemma HexRoundTrip(n: CodePoint)
    requires n < 0x10000
    ensures var e := UnitEscape(n); ReadUnit(e[2], e[3], e[4], e[5]) == Some(n)
  {
    HexBack(n / 16 / 16 / 16);
    HexBack(n / 16 / 16 % 16);
    HexBack(n / 16 % 16);
    HexBack(n % 16);
  }

  lemma ReadEscapedUnit(n: CodePoint, tail: Text)
    requires n < 0x10000
    ensures ReadUnits(UnitEscape(n) + tail) == Before([n], ReadUnits(tail))
  {
    HexRoundTrip(n);
    assert (UnitEscape(n) + tail)[6..] == tail;
  }

  lemma ShortRoundTrip(c: CodePoint)
    requires Short(c).Some?
    ensures Short(c).value != LETTER_U && Unshort(Short(c).value) == Some(c) && UnitsOf(c) == [c]
  {
  }

  lemma ReadEscape(c: CodePoint, tail: Text)
    ensures ReadUnits(Escape(c) + tail) == Before(UnitsOf(c), ReadUnits(tail))
  {
    if Short(c).Some? {
      ShortRoundTrip(c);
      assert (Escape(c) + tail)[2..] == tail;
    } else if 0x20 <= c < 0x7F {
      assert (Escape(c) + tail)[1..] == tail;
    } else if c < 0x10000 {
      ReadEscapedUnit(c, tail);
    } else {
      ReadEscapedPair(UnitsOf(c)[0], UnitsOf(c)[1], tail);
    }
  }

  lemma ReadEscapedPair(a: CodePoint, b: CodePoint, tail: Text)
    requires a < 0x10000 && b < 0x10000
    ensures ReadUnits(UnitEscape(a) + UnitEscape(b) + tail) == Before([a, b], ReadUnits(tail))
  {
    hide UnitEscape;
    assert UnitEscape(a) + UnitEscape(b) + tail == UnitEscape(a) + (UnitEscape(b) + tail);
    ReadEscapedUnit(a, UnitEscape(b) + tail);
    ReadEscapedUnit(b, tail);
    if ReadUnits(tail).Some? {
      assert [a] + ([b] + ReadUnits(tail).value.0) == [a, b] + ReadUnits(tail).value.0;
    }
  }

  lemma {:induction false} ReadEscaped(s: Text, tail: Text)
    ensures ReadUnits(EscapeAll(s) + [QUOTE] + tail) == Some((Units(s), tail))
  {
    if s == [] {
      assert EscapeAll(s) + [QUOTE] + tail == [QUOTE] + tail;
      assert ([QUOTE] + tail)[1..] == tail;
    } else {
      var rest := EscapeAll(s[1..]) + [QUOTE] + tail;
      assert EscapeAll(s) + [QUOTE] + tail == Escape(s[0]) + rest;
      ReadEscape(s[0], rest);
      ReadEscaped(s[1..], tail);
    }
  }

  lemma {:induction false} JoinedUnits(s: Text)
    ensures Joined(Units(s)) == Joined(s)
  {
    if s != [] {
      var u := Units(s);
      JoinedUnits(s[1..]);
      if s[0] >= 0x10000 {
        assert u[2..] == Units(s[1..]);
      } else {
        assert u[1..] == Units(s[1..]);
        if |s| > 1 && High(s[0]) && Low(s[1]) {
          assert u[2..] == Units(s[2..]) by { assert Units(s[1..]) == [s[1]] + Units(s[1..][1..]); }
          JoinedUnits(s[2..]);
        } else if |s| > 1 {
          assert u[1] == UnitsOf(s[1])[0];
        }
      }
    }
  }

  // A written string reads back as itself, except that a surrogate pair written
  // as two characters comes back as one.
  lemma ReadWritten(s: Text, tail: Text)
    ensures ReadString(EscapeAll(s) + [QUOTE] + tail) == Some((Joined(s), tail))
  {
    ReadEscaped(s, tail);
    JoinedUnits(s);
  }

  lemma UnitIsAscii(n: CodePoint)
    requires n < 0x10000
    ensures forall c :: c in UnitEscape(n) ==> 0x20 <= c < 0x7F
  {
    assert forall h: Hex :: 0x20 <= HexDigit(h) < 0x7F;
  }

  lemma EscapeIsAscii(c: CodePoint)
    ensures forall e :: e in Escape(c) ==> 0x20 <= e < 0x7F
  {
    hide UnitEscape;
    if c < 0x10000 {
      UnitIsAscii(c);
    } else {
      UnitIsAscii(UnitsOf(c)[0]);
      UnitIsAscii(UnitsOf(c)[1]);
    }
  }

  // What is written is ASCII.
  lemma {:induction false} EscapedIsAscii(s: Text)
    ensures forall c :: c in EscapeAll(s) ==> 0x20 <= c < 0x7F
  {
    hide Escape;
    if s != [] {
      EscapeIsAscii(s[0]);
      EscapedIsAscii(s[1..]);
    }
  }
}
