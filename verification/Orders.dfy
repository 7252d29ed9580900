/** Text order and stable sorting, shared by every module that sorts.

    `TextLe` is the code-point order Python and a binary collation give strings.
    `Sort` is stable, as `list.sort` and `sorted` are. */
module Orders {

  ghost predicate Preorder<T(!new)>(le: (T, T) -> bool) {
    && (forall a, b :: le(a, b) || le(b, a))
    && (forall a, b, c :: le(a, b) && le(b, c) ==> le(a, c))
  }

  ghost predicate TotalOrder<T(!new)>(le: (T, T) -> bool) {
    Preorder(le) && forall a, b :: le(a, b) && le(b, a) ==> a == b
  }

  predicate SortedBy<T>(s: seq<T>, le: (T, T) -> bool) {
    forall i, j :: 0 <= i < j < |s| ==> le(s[i], s[j])
  }

  // -- text ---------------------------------------------------------------

  // Sequences of numbers, by the first difference.
  predicate CodesLe(a: seq<int>, b: seq<int>) {
    a == [] || (b != [] && (a[0] < b[0] || (a[0] == b[0] && CodesLe(a[1..], b[1..]))))
  }

  ghost predicate DiffersUpAt(a: seq<int>, b: seq<int>, i: nat) {
    i < |a| && i < |b| && a[..i] == b[..i] && a[i] < b[i]
  }

  // One begins the other, or the first difference decides.
  lemma {:induction false} CodesLeIs(a: seq<int>, b: seq<int>)
    ensures CodesLe(a, b) <==> a <= b || exists i: nat :: DiffersUpAt(a, b, i)
  {
    if a != [] && b != [] {
      CodesLeIs(a[1..], b[1..]);
      if a[0] == b[0] {
        SameHead(a, b);
      } else if a[0] < b[0] {
        assert DiffersUpAt(a, b, 0);
      }
    }
  }

  lemma SameHead(a: seq<int>, b: seq<int>)
    requires a != [] && b != [] && a[0] == b[0]
    ensures a <= b <==> a[1..] <= b[1..]
    ensures (exists i: nat :: DiffersUpAt(a, b, i)) <==> exists i: nat :: DiffersUpAt(a[1..], b[1..], i)
  {
    assert a == [a[0]] + a[1..] && b == [b[0]] + b[1..];
    if i: nat :| DiffersUpAt(a, b, i) {
      assert a[1..][..i - 1] == a[..i][1..] && b[1..][..i - 1] == b[..i][1..];
      assert DiffersUpAt(a[1..], b[1..], i - 1);
    }
    if i: nat :| DiffersUpAt(a[1..], b[1..], i) {
      assert a[..i + 1] == [a[0]] + a[1..][..i] && b[..i + 1] == [b[0]] + b[1..][..i];
      assert DiffersUpAt(a, b, i + 1);
    }
  }

  lemma {:induction false} CodesTotal(a: seq<int>, b: seq<int>)
    ensures CodesLe(a, b) || CodesLe(b, a)
    ensures CodesLe(a, b) && CodesLe(b, a) ==> a == b
  {
    if a != [] && b != [] {
      CodesTotal(a[1..], b[1..]);
      if CodesLe(a, b) && CodesLe(b, a) {
        assert a == [a[0]] + a[1..] && b == [b[0]] + b[1..];
      }
    }
  }

  lemma {:induction false} CodesTransitive(a: seq<int>, b: seq<int>, c: seq<int>)
    requires CodesLe(a, b) && CodesLe(b, c)
    ensures CodesLe(a, c)
  {
    if a != [] && b != [] && c != [] && a[0] == b[0] == c[0] {
      CodesTransitive(a[1..], b[1..], c[1..]);
    }
  }

  function Codes(s: string): seq<int> { seq(|s|, i requires 0 <= i < |s| => s[i] as int) }

  predicate TextLe(a: string, b: string) { CodesLe(Codes(a), Codes(b)) }

  lemma CodesInjective(a: string, b: string)
    requires Codes(a) == Codes(b)
    ensures a == b
  {
    assert |a| == |Codes(a)| == |b|;
    forall i | 0 <= i < |a| ensures a[i] == b[i] {
      assert Codes(a)[i] == Codes(b)[i];
    }
  }

  lemma TextLeIsTotalOrder()
    ensures TotalOrder(TextLe)
  {
    forall a, b
      ensures TextLe(a, b) || TextLe(b, a)
      ensures TextLe(a, b) && TextLe(b, a) ==> a == b
    {
      CodesTotal(Codes(a), Codes(b));
      if Codes(a) == Codes(b) { CodesInjective(a, b); }
    }
    forall a, b, c | TextLe(a, b) && TextLe(b, c) ensures TextLe(a, c) {
      CodesTransitive(Codes(a), Codes(b), Codes(c));
    }
  }

  // -- stable sorting ------------------------------------------------------

  function Insert<T>(x: T, s: seq<T>, le: (T, T) -> bool): seq<T> {
    if s == [] then [x]
    else if le(x, s[0]) then [x] + s
    else [s[0]] + Insert(x, s[1..], le)
  }

  function Sort<T>(s: seq<T>, le: (T, T) -> bool): seq<T> {
    if s == [] then [] else Insert(s[0], Sort(s[1..], le), le)
  }

  lemma {:induction false} InsertPermutes<T>(x: T, s: seq<T>, le: (T, T) -> bool)
    ensures multiset(Insert(x, s, le)) == multiset{x} + multiset(s)
  {
    if s != [] {
      assert s == [s[0]] + s[1..];
      InsertPermutes(x, s[1..], le);
    }
  }

  lemma {:induction false} SortPermutes<T>(s: seq<T>, le: (T, T) -> bool)
    ensures multiset(Sort(s, le)) == multiset(s)
    ensures |Sort(s, le)| == |s|
    ensures forall x :: x in Sort(s, le) <==> x in s
  {
    if s != [] {
      assert s == [s[0]] + s[1..];
      SortPermutes(s[1..], le);
      InsertPermutes(s[0], Sort(s[1..], le), le);
    }
    assert |Sort(s, le)| == |multiset(Sort(s, le))| == |multiset(s)| == |s|;
    forall x ensures x in Sort(s, le) <==> x in s {
      assert x in Sort(s, le) <==> x in multiset(Sort(s, le));
    }
  }

  lemma {:induction false} InsertSorts<T(!new)>(x: T, s: seq<T>, le: (T, T) -> bool)
    requires Preorder(le) && SortedBy(s, le)
    ensures SortedBy(Insert(x, s, le), le)
  {
    if s != [] && !le(x, s[0]) {
      InsertSorts(x, s[1..], le);
      InsertPermutes(x, s[1..], le);
      var rest := Insert(x, s[1..], le);
      forall j | 0 <= j < |rest| ensures le(s[0], rest[j]) {
        assert rest[j] in multiset(rest);
        assert rest[j] == x || rest[j] in s[1..];
      }
    }
  }

  lemma {:induction false} SortSorts<T(!new)>(s: seq<T>, le: (T, T) -> bool)
    requires Preorder(le)
    ensures SortedBy(Sort(s, le), le)
  {
    if s != [] {
      SortSorts(s[1..], le);
      InsertSorts(s[0], Sort(s[1..], le), le);
    }
  }

  // Two sorted arrangements of the same elements agree when no two different
  // elements that occur in them are tied.
  ghost predicate Untied<T(!new)>(s: seq<T>, le: (T, T) -> bool) {
    forall a, b :: a in s && b in s && le(a, b) && le(b, a) ==> a == b
  }

  lemma SortedHeads<T(!new)>(a: seq<T>, b: seq<T>, le: (T, T) -> bool)
    requires Preorder(le) && Untied(a, le)
    requires SortedBy(a, le) && SortedBy(b, le)
    requires a != [] && b != [] && a[0] in b && b[0] in a
    ensures a[0] == b[0]
  {
    var i :| 0 <= i < |b| && b[i] == a[0];
    var j :| 0 <= j < |a| && a[j] == b[0];
    assert i == 0 || le(b[0], b[i]);
    assert j == 0 || le(a[0], a[j]);
  }

  lemma TailCounts<T>(s: seq<T>)
    requires s != []
    ensures multiset(s[1..]) == multiset(s) - multiset{s[0]}
  {
    assert s == [s[0]] + s[1..];
  }

  lemma TailSorted<T>(s: seq<T>, le: (T, T) -> bool)
    requires SortedBy(s, le) && s != []
    ensures SortedBy(s[1..], le)
  {
  }

  lemma TailUntied<T(!new)>(s: seq<T>, le: (T, T) -> bool)
    requires Untied(s, le) && s != []
    ensures Untied(s[1..], le)
  {
    assert forall x :: x in s[1..] ==> x in s;
  }

  lemma {:induction false} SortedUnique<T(!new)>(a: seq<T>, b: seq<T>, le: (T, T) -> bool)
    requires Preorder(le) && Untied(a, le)
    requires SortedBy(a, le) && SortedBy(b, le)
    requires multiset(a) == multiset(b)
    ensures a == b
  {
    hide Preorder, SortedBy, Untied;
    assert |multiset(a)| == |a| && |multiset(b)| == |b|;
    if a != [] {
      assert a[0] in multiset(b) && b[0] in multiset(a);
      SortedHeads(a, b, le);
      TailCounts(a);
      TailCounts(b);
      TailSorted(a, le);
      TailSorted(b, le);
      TailUntied(a, le);
      SortedUnique(a[1..], b[1..], le);
      assert a == [a[0]] + a[1..] && b == [b[0]] + b[1..];
    }
  }

  ghost predicate Least<K, V>(m: map<K, V>, le: (V, V) -> bool, k: K) {
    k in m && forall j :: j in m ==> le(m[k], m[j])
  }

  // A non-empty finite collection has a least element.
  lemma {:induction false} LeastExists<K(!new), V(!new)>(m: map<K, V>, le: (V, V) -> bool) returns (best: K)
    requires Preorder(le) && m != map[]
    ensures Least(m, le, best)
    decreases |m|
  {
    var k :| k in m;
    var rest := m - {k};
    if rest == map[] {
      best := k;
      assert forall j :: j in m ==> j == k || j in rest;
    } else {
      best := LeastExists(rest, le);
      best := if le(m[k], m[best]) then k else best;
      assert forall j :: j in m ==> j == k || j in rest;
    }
  }

  // -- filtering -----------------------------------------------------------

  function Filter<T>(s: seq<T>, p: T -> bool): seq<T> {
    if s == [] then [] else (if p(s[0]) then [s[0]] else []) + Filter(s[1..], p)
  }

  lemma {:induction false} FilterMembers<T>(s: seq<T>, p: T -> bool)
    ensures forall x :: x in Filter(s, p) <==> x in s && p(x)
  {
    if s != [] {
      FilterMembers(s[1..], p);
    }
  }

  lemma {:induction false} FilterConcat<T>(a: seq<T>, b: seq<T>, p: T -> bool)
    ensures Filter(a + b, p) == Filter(a, p) + Filter(b, p)
  {
    if a == [] {
      assert a + b == b;
    } else {
      var head := if p(a[0]) then [a[0]] else [];
      assert (a + b)[1..] == a[1..] + b;
      FilterConcat(a[1..], b, p);
      assert Filter(a, p) == head + Filter(a[1..], p);
      assert Filter(a + b, p) == head + Filter(a[1..] + b, p);
      assert head + (Filter(a[1..], p) + Filter(b, p)) == head + Filter(a[1..], p) + Filter(b, p);
    }
  }

  lemma {:induction false} FilterCount<T>(s: seq<T>, p: T -> bool, x: T)
    ensures multiset(Filter(s, p))[x] == if p(x) then multiset(s)[x] else 0
  {
    if s != [] {
      assert s == [s[0]] + s[1..];
      FilterCount(s[1..], p, x);
    }
  }

  lemma SameCounts<T(!new)>(a: multiset<T>, b: multiset<T>)
    requires forall x: T :: a[x] == b[x]
    ensures a == b
  {
    assert forall x :: x in a ==> b[x] == a[x];
  }

  lemma FilterPermutes<T(!new)>(a: seq<T>, b: seq<T>, p: T -> bool)
    requires multiset(a) == multiset(b)
    ensures multiset(Filter(a, p)) == multiset(Filter(b, p))
  {
    forall x: T ensures multiset(Filter(a, p))[x] == multiset(Filter(b, p))[x] {
      FilterCount(a, p, x);
      FilterCount(b, p, x);
    }
    SameCounts(multiset(Filter(a, p)), multiset(Filter(b, p)));
  }

  lemma {:induction false} FilterKeepsOrder<T(!new)>(s: seq<T>, p: T -> bool, le: (T, T) -> bool)
    requires SortedBy(s, le)
    ensures SortedBy(Filter(s, p), le)
  {
    if s != [] {
      FilterKeepsOrder(s[1..], p, le);
      FilterMembers(s[1..], p);
      forall j | 0 <= j < |Filter(s[1..], p)| ensures le(s[0], Filter(s[1..], p)[j]) {
        assert Filter(s[1..], p)[j] in s[1..];
      }
    }
  }

  function TiedWith<T>(x: T, le: (T, T) -> bool): T -> bool { z => le(x, z) && le(z, x) }

  lemma {:induction false} InsertStable<T(!new)>(y: T, s: seq<T>, le: (T, T) -> bool, x: T)
    requires Preorder(le) && SortedBy(s, le)
    ensures Filter(Insert(y, s, le), TiedWith(x, le)) == Filter([y], TiedWith(x, le)) + Filter(s, TiedWith(x, le))
  {
    var tied := TiedWith(x, le);
    if s == [] {
      assert [y] + s == [y];
    } else if le(y, s[0]) {
      FilterConcat([y], s, tied);
    } else {
      InsertStable(y, s[1..], le, x);
      FilterConcat([s[0]], Insert(y, s[1..], le), tied);
      FilterConcat([s[0]], s[1..], tied);
      assert s == [s[0]] + s[1..];
      assert !(tied(y) && tied(s[0]));
    }
  }

  // Among the elements tied with `x`, sorting keeps the input order.
  lemma {:induction false} SortStable<T(!new)>(s: seq<T>, le: (T, T) -> bool, x: T)
    requires Preorder(le)
    ensures Filter(Sort(s, le), TiedWith(x, le)) == Filter(s, TiedWith(x, le))
  {
    if s != [] {
      SortStable(s[1..], le, x);
      SortSorts(s[1..], le);
      InsertStable(s[0], Sort(s[1..], le), le, x);
      assert s == [s[0]] + s[1..];
      FilterConcat([s[0]], s[1..], TiedWith(x, le));
    }
  }
}
