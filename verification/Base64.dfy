/** Unpadded base64url (section 5 of RFC 4648) as Python writes it, and the
    lenient scanner it is read back with: foreign characters are skipped and
    input after the padding is ignored. */
module Base64 {
  import opened Results
  import opened Unicode

  type Sextet = v: int | 0 <= v < 64

  const PAD: CodePoint := '=' as CodePoint

  function Letter(v: Sextet): CodePoint {
    if v < 26 then 65 + v else if v < 52 then 97 + v - 26 else if v < 62 then 48 + v - 52
    else if v == 62 then '-' as CodePoint else '_' as CodePoint
  }

  function Value(c: CodePoint): Option<Sextet> {
    if 65 <= c <= 90 then Some(c - 65)
    else if 97 <= c <= 122 then Some(c - 97 + 26)
    else if 48 <= c <= 57 then Some(c - 48 + 52)
    else if c == '-' as CodePoint || c == '+' as CodePoint then Some(62)
    else if c == '_' as CodePoint || c == '/' as CodePoint then Some(63)
    else None
  }

  function Letters(sextets: seq<Sextet>): Text { seq(|sextets|, i requires 0 <= i < |sextets| => Letter(sextets[i])) }

  function Group(b0: Byte, b1: Byte, b2: Byte): seq<Sextet> {
    [b0 / 4, b0 % 4 * 16 + b1 / 16, b1 % 16 * 4 + b2 / 64, b2 % 64]
  }

  function Sextets(bytes: seq<Byte>): seq<Sextet> {
    if bytes == [] then []
    else if |bytes| == 1 then Group(bytes[0], 0, 0)[..2]
    else if |bytes| == 2 then Group(bytes[0], bytes[1], 0)[..3]
    else Group(bytes[0], bytes[1], bytes[2]) + Sextets(bytes[3..])
  }

  // `urlsafe_b64encode(bytes).rstrip("=")`.
  function Encode(bytes: seq<Byte>): Text { Letters(Sextets(bytes)) }

  // Within a group of four: how many letters were read, the bits left over
  // from the last one, and the pads seen since.
  datatype Quad = Quad(position: nat, left: nat, pads: nat)

  predicate Sound(q: Quad) {
    && q.position < 4
    && q.left < (if q.position == 1 then 64 else if q.position == 2 then 16 else if q.position == 3 then 4 else 1)
  }

  const START := Quad(0, 0, 0)

  function Take(q: Quad, v: Sextet): (r: (Quad, seq<Byte>))
    requires Sound(q)
    ensures Sound(r.0)
  {
    match q.position
    case 0 => (Quad(1, v, 0), [])
    case 1 => (Quad(2, v % 16, 0), [q.left * 4 + v / 16])
    case 2 => (Quad(3, v % 4, 0), [q.left * 16 + v / 4])
    case _ => (START, [q.left * 64 + v])
  }

  function Before(out: seq<Byte>, rest: Option<seq<Byte>>): Option<seq<Byte>> {
    if rest.None? then None else Some(out + rest.value)
  }

  lemma BeforeBefore(a: seq<Byte>, b: seq<Byte>, rest: Option<seq<Byte>>)
    ensures Before(a, Before(b, rest)) == Before(a + b, rest)
    ensures Before([], rest) == rest
  {
    if rest.Some? {
      assert a + (b + rest.value) == a + b + rest.value;
      assert [] + rest.value == rest.value;
    }
  }

  function Scan(text: Text, q: Quad): Option<seq<Byte>>
    requires Sound(q)
  {
    if text == [] then
      if q.position == 0 then Some([]) else None
    else if text[0] == PAD then
      if q.position < 2 then Scan(text[1..], q)
      else if q.position + q.pads + 1 >= 4 then Some([])
      else Scan(text[1..], q.(pads := q.pads + 1))
    else if Value(text[0]).None? then Scan(text[1..], q)
    else
      var (next, out) := Take(q, Value(text[0]).value);
      Before(out, Scan(text[1..], next))
  }

  // `-len(text) % 4` pads; Dafny's `%` on a negative operand is Python's.
  function Padding(n: nat): Text { seq(-(n as int) % 4, i => PAD) }

  function Decode(text: Text): Option<seq<Byte>> { Scan(text + Padding(|text|), START) }

  lemma LetterValue(v: Sextet)
    ensures Letter(v) != PAD && Value(Letter(v)) == Some(v)
  {
  }

  // The scanner without its alphabet.
  function Feed(sextets: seq<Sextet>, q: Quad): (r: (Quad, seq<Byte>))
    requires Sound(q)
    ensures Sound(r.0)
  {
    if sextets == [] then (q, [])
    else
      var (next, out) := Take(q, sextets[0]);
      var (last, rest) := Feed(sextets[1..], next);
      (last, out + rest)
  }

  lemma {:induction false} ScanLetters(sextets: seq<Sextet>, text: Text, q: Quad)
    requires Sound(q)
    ensures Scan(Letters(sextets) + text, q) == Before(Feed(sextets, q).1, Scan(text, Feed(sextets, q).0))
  {
    if sextets == [] {
      assert Letters(sextets) + text == text;
      BeforeBefore([], [], Scan(text, q));
    } else {
      var all := Letters(sextets) + text;
      var (next, out) := Take(q, sextets[0]);
      LetterValue(sextets[0]);
      assert all[0] == Letter(sextets[0]);
      assert all[1..] == Letters(sextets[1..]) + text;
      ScanLetters(sextets[1..], text, next);
      BeforeBefore(out, Feed(sextets[1..], next).1, Scan(text, Feed(sextets, q).0));
    }
  }

  lemma FeedOne(v: Sextet, more: seq<Sextet>, q: Quad)
    requires Sound(q)
    ensures Feed([v] + more, q).0 == Feed(more, Take(q, v).0).0
    ensures Feed([v] + more, q).1 == Take(q, v).1 + Feed(more, Take(q, v).0).1
  {
    assert ([v] + more)[1..] == more;
  }

  // The first and the second half of a group.
  lemma FeedTwo(v0: Sextet, v1: Sextet, more: seq<Sextet>)
    ensures Feed([v0, v1] + more, START).0 == Feed(more, Quad(2, v1 % 16, 0)).0
    ensures Feed([v0, v1] + more, START).1 == [v0 * 4 + v1 / 16] + Feed(more, Quad(2, v1 % 16, 0)).1
  {
    assert [v0, v1] + more == [v0] + ([v1] + more);
    FeedOne(v0, [v1] + more, START);
    FeedOne(v1, more, Quad(1, v0, 0));
    var rest := Feed([v1] + more, Quad(1, v0, 0)).1;
    assert [] + rest == rest;
  }

  lemma FeedLast(v2: Sextet, v3: Sextet, left: nat, more: seq<Sextet>)
    requires left < 16
    ensures Feed([v2, v3] + more, Quad(2, left, 0)).0 == Feed(more, START).0
    ensures Feed([v2, v3] + more, Quad(2, left, 0)).1
         == [left * 16 + v2 / 4, v2 % 4 * 64 + v3] + Feed(more, START).1
  {
    assert [v2, v3] + more == [v2] + ([v3] + more);
    FeedOne(v2, [v3] + more, Quad(2, left, 0));
    FeedOne(v3, more, Quad(3, v2 % 4, 0));
  }

  // A byte is split after its first six bits, its first four or its first two.
  lemma SplitSix(b: Byte, low: nat)
    requires low < 16
    ensures b / 4 * 4 + (b % 4 * 16 + low) / 16 == b && (b % 4 * 16 + low) % 16 == low
  {
    assert (b % 4 * 16 + low) / 16 == b % 4;
  }

  lemma SplitFour(b: Byte, low: nat)
    requires low < 4
    ensures b / 16 * 16 + (b % 16 * 4 + low) / 4 == b && (b % 16 * 4 + low) % 4 == low
  {
    assert (b % 16 * 4 + low) / 4 == b % 16;
  }

  lemma GroupBits(b0: Byte, b1: Byte, b2: Byte)
    ensures var g: seq<int> := Group(b0, b1, b2);
            && |g| == 4 && g[0] * 4 + g[1] / 16 == b0 && g[1] % 16 * 16 + g[2] / 4 == b1 && g[2] % 4 * 64 + g[3] == b2
            && g[1] % 16 == b1 / 16 && g[2] % 4 == b2 / 64
  {
    SplitSix(b0, b1 / 16);
    SplitFour(b1, b2 / 64);
  }

  lemma FeedGroup(b0: Byte, b1: Byte, b2: Byte, more: seq<Sextet>)
    ensures Feed(Group(b0, b1, b2) + more, START).0 == Feed(more, START).0
    ensures Feed(Group(b0, b1, b2) + more, START).1 == [b0, b1, b2] + Feed(more, START).1
  {
    GroupBits(b0, b1, b2);
    hide Feed, Group;
    FeedFour(Group(b0, b1, b2), b0, b1, b2, more);
  }

  lemma FeedFour(g: seq<Sextet>, b0: Byte, b1: Byte, b2: Byte, more: seq<Sextet>)
    requires var v: seq<int> := g;
             |v| == 4 && v[0] * 4 + v[1] / 16 == b0 && v[1] % 16 * 16 + v[2] / 4 == b1 && v[2] % 4 * 64 + v[3] == b2
    ensures Feed(g + more, START).0 == Feed(more, START).0
    ensures Feed(g + more, START).1 == [b0, b1, b2] + Feed(more, START).1
  {
    hide Feed;
    assert g + more == [g[0], g[1]] + ([g[2], g[3]] + more);
    FeedTwo(g[0], g[1], [g[2], g[3]] + more);
    FeedLast(g[2], g[3], g[1] % 16, more);
  }

  lemma FeedThree(v0: Sextet, v1: Sextet, v2: Sextet)
    ensures Feed([v0, v1, v2], START).0 == Quad(3, v2 % 4, 0)
    ensures Feed([v0, v1, v2], START).1 == [v0 * 4 + v1 / 16, v1 % 16 * 16 + v2 / 4]
  {
    assert [v0, v1, v2] == [v0, v1] + ([v2] + []);
    FeedTwo(v0, v1, [v2] + []);
    FeedOne(v2, [], Quad(2, v1 % 16, 0));
  }

  lemma FeedTailOne(b0: Byte)
    ensures Feed(Group(b0, 0, 0)[..2], START).0 == Quad(2, 0, 0)
    ensures Feed(Group(b0, 0, 0)[..2], START).1 == [b0]
  {
    var g := Group(b0, 0, 0);
    GroupBits(b0, 0, 0);
    assert g[..2] == [g[0], g[1]] + [];
    FeedTwo(g[0], g[1], []);
  }

  lemma FeedTailTwo(b0: Byte, b1: Byte)
    ensures Feed(Group(b0, b1, 0)[..3], START).0 == Quad(3, 0, 0)
    ensures Feed(Group(b0, b1, 0)[..3], START).1 == [b0, b1]
  {
    hide Feed;
    var g := Group(b0, b1, 0);
    GroupBits(b0, b1, 0);
    assert g[..3] == [g[0], g[1], g[2]];
    FeedThree(g[0], g[1], g[2]);
  }

  // How far into a group the letters of `n` bytes end.
  function Partial(n: nat): nat { if n % 3 == 0 then 0 else if n % 3 == 1 then 2 else 3 }

  lemma {:induction false} SextetCount(bytes: seq<Byte>)
    ensures |Sextets(bytes)| == |bytes| / 3 * 4 + Partial(|bytes|)
  {
    if |bytes| > 2 {
      SextetCount(bytes[3..]);
      assert |Sextets(bytes)| == 4 + |Sextets(bytes[3..])|;
      ThreeLess(|bytes|);
    }
  }

  lemma ThreeLess(n: nat)
    requires n >= 3
    ensures n / 3 == (n - 3) / 3 + 1 && n % 3 == (n - 3) % 3
  {
  }

  lemma {:induction false} FeedSextets(bytes: seq<Byte>)
    ensures Feed(Sextets(bytes), START).0 == Quad(Partial(|bytes|), 0, 0)
    ensures Feed(Sextets(bytes), START).1 == bytes
    decreases bytes, 1
  {
    if bytes == [] {
    } else if |bytes| == 1 {
      FeedTailOne(bytes[0]);
    } else if |bytes| == 2 {
      FeedTailTwo(bytes[0], bytes[1]);
    } else {
      FeedMore(bytes);
    }
  }

  lemma {:induction false} FeedMore(bytes: seq<Byte>)
    requires |bytes| > 2
    ensures Feed(Sextets(bytes), START).0 == Quad(Partial(|bytes|), 0, 0)
    ensures Feed(Sextets(bytes), START).1 == bytes
    decreases bytes, 0
  {
    FeedSextets(bytes[3..]);
    FeedGroup(bytes[0], bytes[1], bytes[2], Sextets(bytes[3..]));
    assert bytes == [bytes[0], bytes[1], bytes[2]] + bytes[3..];
    ThreeLess(|bytes|);
  }

  lemma ScanPads(n: nat)
    requires n % 4 != 1
    ensures Scan(Padding(n), Quad(n % 4, 0, 0)) == Some([])
  {
    if n % 4 == 2 {
      assert Padding(n)[1..] == [PAD];
      assert Scan([PAD], Quad(2, 0, 1)) == Some([]);
    }
  }

  // Four letters for every three bytes, and the letters of the last group.
  lemma LastGroup(groups: nat, n: nat)
    ensures (groups * 4 + Partial(n)) % 4 == Partial(n) != 1
  {
  }

  lemma RoundTrip(bytes: seq<Byte>)
    ensures Decode(Encode(bytes)) == Some(bytes)
  {
    hide Partial, Feed, Sextets, Scan, Letters;
    var sextets, n := Sextets(bytes), |Sextets(bytes)|;
    SextetCount(bytes);
    LastGroup(|bytes| / 3, |bytes|);
    FeedSextets(bytes);
    LettersCount(sextets);
    ScanLetters(sextets, Padding(n), START);
    ScanPads(n);
    assert bytes + [] == bytes;
  }

  lemma LettersCount(sextets: seq<Sextet>)
    ensures |Letters(sextets)| == |sextets|
  {
  }

  // Neither padding nor white space: the text survives `strip` unchanged.
  lemma EncodedIsPlain(bytes: seq<Byte>)
    ensures bytes != [] ==> Encode(bytes) != []
    ensures forall c :: c in Encode(bytes) ==> 33 <= c < 127 && c != PAD
  {
    forall c | c in Encode(bytes) ensures 33 <= c < 127 && c != PAD {
      var i :| 0 <= i < |Encode(bytes)| && Encode(bytes)[i] == c;
    }
  }

  // Two byte strings never share an encoding.
  lemma Injective(a: seq<Byte>, b: seq<Byte>)
    ensures Encode(a) == Encode(b) ==> a == b
  {
    RoundTrip(a);
    RoundTrip(b);
  }
}
