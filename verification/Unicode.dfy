/** Python strings as sequences of code points, surrogates included. */
module Unicode {
  type CodePoint = c: int | 0 <= c < 0x110000

  type Byte = b: int | 0 <= b < 256

  type Text = seq<CodePoint>

  predicate High(c: CodePoint) { 0xD800 <= c < 0xDC00 }

  predicate Low(c: CodePoint) { 0xDC00 <= c < 0xE000 }

  function Join(high: CodePoint, low: CodePoint): CodePoint
    requires High(high) && Low(low)
  {
    0x10000 + (high - 0xD800) * 0x400 + (low - 0xDC00)
  }

  // What `str.strip` removes.
  predicate IsSpace(c: CodePoint) {
    || 9 <= c <= 13 || 28 <= c <= 32 || c == 0x85 || c == 0xA0 || c == 0x1680 || 0x2000 <= c <= 0x200A
    || c == 0x2028 || c == 0x2029 || c == 0x202F || c == 0x205F || c == 0x3000
  }

  // The text holds a high surrogate right before a low one.
  ghost predicate HasPair(s: Text) { exists i :: 0 <= i < |s| - 1 && High(s[i]) && Low(s[i + 1]) }

  // Adjacent surrogates read as the character they encode.
  function Joined(s: Text): Text {
    if s == [] then []
    else if |s| > 1 && High(s[0]) && Low(s[1]) then [Join(s[0], s[1])] + Joined(s[2..])
    else [s[0]] + Joined(s[1..])
  }

  lemma {:induction false} JoinedShorter(s: Text)
    ensures |Joined(s)| <= |s|
    ensures HasPair(s) ==> |Joined(s)| < |s|
  {
    if s != [] {
      if |s| > 1 && High(s[0]) && Low(s[1]) {
        JoinedShorter(s[2..]);
      } else {
        JoinedShorter(s[1..]);
        if HasPair(s) {
          var i :| 0 <= i < |s| - 1 && High(s[i]) && Low(s[i + 1]);
          assert High(s[1..][i - 1]) && Low(s[1..][i]);
        }
      }
    }
  }

  lemma {:induction false} JoinedSame(s: Text)
    ensures Joined(s) == s <==> !HasPair(s)
  {
    JoinedShorter(s);
    if !HasPair(s) && s != [] {
      assert |s| > 1 ==> !(High(s[0]) && Low(s[1]));
      forall i | 0 <= i < |s[1..]| - 1 ensures !(High(s[1..][i]) && Low(s[1..][i + 1])) {
        assert s[1..][i] == s[i + 1] && s[1..][i + 1] == s[i + 2];
      }
      JoinedSame(s[1..]);
    }
  }

  function Ascii(s: string): Text { seq(|s|, i requires 0 <= i < |s| => s[i] as CodePoint) }
}
