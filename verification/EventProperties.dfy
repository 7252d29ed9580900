/** What the merge promises its readers: nothing lost, no stream reordered, and
    an order that depends on the rows and not on how they were fetched. */
module EventProperties {
  import opened Orders
  import opened Events

  lemma RowLeIsPreorder()
    ensures Preorder(RowLe)
  {
  }

  lemma MergePermutes(rows: seq<Row>, out: seq<Row>)
    requires IsMerge(StreamsOf(rows), out)
    ensures multiset(out) == multiset(rows)
  {
    forall x: Row ensures multiset(out)[x] == multiset(rows)[x] {
      EmittedCount(rows, out, x);
      if x.key !in StreamsOf(rows) {
        assert x !in rows && x !in out;
      }
    }
    SameCounts(multiset(out), multiset(rows));
  }

  lemma OfPrefix(out: seq<Row>, i: nat, j: nat, k: StreamKey)
    requires i <= j <= |out|
    ensures Of(out[..i], k) <= Of(out[..j], k)
  {
    assert out[..j] == out[..i] + out[i..j];
    FilterConcat(out[..i], out[i..j], InStream(k));
  }

  // Where the row at `i` stands among those of its stream.
  lemma PlaceInStream(out: seq<Row>, i: nat, j: nat)
    requires i < j <= |out|
    ensures |Of(out[..i], out[i].key)| < |Of(out[..j], out[i].key)|
    ensures Of(out[..j], out[i].key)[|Of(out[..i], out[i].key)|] == out[i]
  {
    var k := out[i].key;
    Append(out[..i], out[i]);
    assert out[..i + 1] == out[..i] + [out[i]];
    OfPrefix(out, i + 1, j, k);
    assert Of(out[..i + 1], k)[|Of(out[..i], k)|] == out[i];
  }

  // The row emitted at `i` is the next one of its own stream.
  lemma EmittedRow(streams: Streams, out: seq<Row>, i: nat)
    requires IsMerge(streams, out) && i < |out|
    ensures out[i].key in streams
    ensures |Of(out[..i], out[i].key)| < |streams[out[i].key]|
    ensures streams[out[i].key][|Of(out[..i], out[i].key)|] == out[i]
  {
    assert out[i] in out && out[..|out|] == out;
    PlaceInStream(out, i, |out|);
  }

  // The next row is forced, up to ties that the stream key breaks.
  lemma NextIsForced(streams: Streams, a: seq<Row>, b: seq<Row>, i: nat)
    requires IsMerge(streams, a) && IsMerge(streams, b)
    requires i < |a| && i < |b| && a[..i] == b[..i]
    ensures a[i] == b[i]
  {
    EmittedRow(streams, a, i);
    EmittedRow(streams, b, i);
    HeadLeIsPreorder();
    assert Earliest(streams, a[..i], a[i]) && Earliest(streams, b[..i], b[i]);
    assert HeadLe(a[i], b[i]) && HeadLe(b[i], a[i]);
  }

  // Sequences whose next elements agree after equal prefixes are equal.
  lemma {:induction false} SameStepByStep<T>(a: seq<T>, b: seq<T>, n: nat)
    requires n <= |a| && n <= |b|
    requires forall i :: 0 <= i < n && a[..i] == b[..i] ==> a[i] == b[i]
    ensures a[..n] == b[..n]
  {
    if n > 0 {
      SameStepByStep(a, b, n - 1);
      assert a[..n] == a[..n - 1] + [a[n - 1]] && b[..n] == b[..n - 1] + [b[n - 1]];
    }
  }

  lemma MergePrefixUnique(streams: Streams, a: seq<Row>, b: seq<Row>, n: nat)
    requires IsMerge(streams, a) && IsMerge(streams, b)
    requires n <= |a| && n <= |b|
    ensures a[..n] == b[..n]
  {
    forall i | 0 <= i < n && a[..i] == b[..i] ensures a[i] == b[i] {
      NextIsForced(streams, a, b, i);
    }
    SameStepByStep(a, b, n);
  }

  // The rows and their streams determine the merge.
  lemma MergeUnique(rows: seq<Row>, a: seq<Row>, b: seq<Row>)
    requires IsMerge(StreamsOf(rows), a) && IsMerge(StreamsOf(rows), b)
    ensures a == b
  {
    MergePermutes(rows, a);
    MergePermutes(rows, b);
    assert |a| == |multiset(a)| == |multiset(b)| == |b|;
    MergePrefixUnique(StreamsOf(rows), a, b, |a|);
    assert a[..|a|] == a && b[..|b|] == b;
  }

  lemma MergeKeepsStreamOrder(rows: seq<Row>, out: seq<Row>)
    requires IsMerge(StreamsOf(rows), out)
    ensures forall i, j :: 0 <= i < j < |out| && out[i].key == out[j].key ==> RowLe(out[i], out[j])
  {
    hide IsMerge, Sort, Of, RowLe;
    RowLeIsPreorder();
    forall i, j | 0 <= i < j < |out| && out[i].key == out[j].key ensures RowLe(out[i], out[j]) {
      StreamPosition(StreamsOf(rows), out, i, j);
      SortSorts(Of(rows, out[i].key), RowLe);
    }
  }

  lemma StreamPosition(streams: Streams, out: seq<Row>, i: nat, j: nat)
    requires IsMerge(streams, out) && i < j < |out| && out[i].key == out[j].key
    ensures var k := out[i].key;
            && k in streams && |Of(out[..i], k)| < |Of(out[..j], k)| < |streams[k]|
            && streams[k][|Of(out[..i], k)|] == out[i] && streams[k][|Of(out[..j], k)|] == out[j]
  {
    EmittedRow(streams, out, i);
    EmittedRow(streams, out, j);
    PlaceInStream(out, i, j);
  }

  // -- input order --------------------------------------------------------------

  lemma SameStreams(rows: seq<Row>, other: seq<Row>)
    requires TieFree(rows) && multiset(other) == multiset(rows)
    ensures StreamsOf(other) == StreamsOf(rows)
  {
    hide Sort, RowLe, Filter;
    assert forall r :: r in rows <==> r in multiset(rows);
    assert forall r :: r in other <==> r in multiset(other);
    forall k | k in Keys(rows) ensures Stream(other, k) == Stream(rows, k) {
      RowLeIsPreorder();
      FilterPermutes(rows, other, InStream(k));
      FilterMembers(rows, InStream(k));
      SortPermutes(Of(rows, k), RowLe);
      SortPermutes(Of(other, k), RowLe);
      SortSorts(Of(rows, k), RowLe);
      SortSorts(Of(other, k), RowLe);
      SortedUnique(Stream(rows, k), Stream(other, k), RowLe);
    }
  }

  lemma MergeIgnoresInputOrder(rows: seq<Row>, other: seq<Row>, a: seq<Row>, b: seq<Row>)
    requires TieFree(rows) && multiset(other) == multiset(rows)
    requires IsMerge(StreamsOf(rows), a) && IsMerge(StreamsOf(other), b)
    ensures a == b
  {
    SameStreams(rows, other);
    MergeUnique(rows, a, b);
  }

  function Tied(x: Row): Row -> bool { TiedWith(x, RowLe) }

  function TiedInStream(rows: seq<Row>, x: Row): seq<Row> { Filter(Of(rows, x.key), Tied(x)) }

  lemma StreamKeepsTies(rows: seq<Row>, x: Row)
    ensures Filter(Stream(rows, x.key), Tied(x)) == TiedInStream(rows, x)
  {
    RowLeIsPreorder();
    SortStable(Of(rows, x.key), RowLe, x);
  }

  lemma TiedConcat(a: seq<Row>, b: seq<Row>, x: Row)
    ensures TiedInStream(a + b, x) == TiedInStream(a, x) + TiedInStream(b, x)
  {
    FilterConcat(a, b, InStream(x.key));
    FilterConcat(Of(a, x.key), Of(b, x.key), Tied(x));
  }

  function Exchanged(rows: seq<Row>, i: nat, j: nat): seq<Row>
    requires i < j < |rows|
  {
    rows[..i] + ([rows[j]] + (rows[i + 1..j] + ([rows[i]] + rows[j + 1..])))
  }

  lemma ExchangePermutes(rows: seq<Row>, i: nat, j: nat)
    requires i < j < |rows|
    ensures multiset(Exchanged(rows, i, j)) == multiset(rows)
  {
    assert rows == rows[..i] + ([rows[i]] + (rows[i + 1..j] + ([rows[j]] + rows[j + 1..])));
  }

  lemma TiedAt(left: seq<Row>, x: Row, right: seq<Row>, y: Row)
    requires y.key == x.key && RowLe(x, y) && RowLe(y, x)
    ensures |TiedInStream(left, x)| < |TiedInStream(left + ([y] + right), x)|
    ensures TiedInStream(left + ([y] + right), x)[|TiedInStream(left, x)|] == y
  {
    OneTied(x, y);
    hide TiedInStream;
    TiedConcat(left, [y] + right, x);
    TiedConcat([y], right, x);
  }

  lemma OneTied(x: Row, y: Row)
    requires y.key == x.key && RowLe(x, y) && RowLe(y, x)
    ensures TiedInStream([y], x) == [y]
  {
    hide RowLe;
    FilterOne(y, InStream(x.key));
    FilterOne(y, Tied(x));
  }

  lemma FilterOne(y: Row, p: Row -> bool)
    requires p(y)
    ensures Filter([y], p) == [y]
  {
    assert [y][1..] == [];
  }

  lemma ExchangeReordersTies(rows: seq<Row>, i: nat, j: nat)
    requires i < j < |rows| && rows[i] != rows[j] && rows[i].key == rows[j].key
    requires RowLe(rows[i], rows[j]) && RowLe(rows[j], rows[i])
    ensures TiedInStream(rows, rows[i]) != TiedInStream(Exchanged(rows, i, j), rows[i])
  {
    var x, left := rows[i], rows[..i];
    assert rows == left + ([x] + rows[i + 1..]);
    TiedAt(left, x, rows[i + 1..], x);
    TiedAt(left, x, rows[i + 1..j] + ([rows[i]] + rows[j + 1..]), rows[j]);
  }

  // Two different rows of a stream with the same (sequence, id) are emitted in
  // the order they were fetched in: exchanging them changes the merge.
  lemma TieMakesOrderMatter(rows: seq<Row>, i: nat, j: nat, a: seq<Row>, b: seq<Row>)
    requires i < j < |rows| && rows[i] != rows[j] && rows[i].key == rows[j].key
    requires RowLe(rows[i], rows[j]) && RowLe(rows[j], rows[i])
    requires IsMerge(StreamsOf(rows), a) && IsMerge(StreamsOf(Exchanged(rows, i, j)), b)
    ensures a != b
  {
    var x, other := rows[i], Exchanged(rows, i, j);
    ExchangeReordersTies(rows, i, j);
    ExchangePermutes(rows, i, j);
    StreamKeepsTies(rows, x);
    StreamKeepsTies(other, x);
    assert x in multiset(other);
    MergedStream(rows, a, x);
    MergedStream(other, b, x);
  }

  lemma MergedStream(rows: seq<Row>, out: seq<Row>, x: Row)
    requires x in rows && IsMerge(StreamsOf(rows), out)
    ensures Of(out, x.key) == Stream(rows, x.key)
  {
    assert x.key in StreamsOf(rows);
  }

  ghost predicate Open(streams: Streams, out: seq<Row>, k: StreamKey) { k in streams && |Of(out, k)| < |streams[k]| }

  // Of the streams that still have a row, one whose next row is earliest.
  lemma NextHead(streams: Streams, out: seq<Row>, j: StreamKey) returns (k: StreamKey)
    requires Open(streams, out, j)
    ensures Open(streams, out, k) && Earliest(streams, out, streams[k][|Of(out, k)|])
  {
    hide HeadLe, Of;
    var open := map i | i in streams && |Of(out, i)| < |streams[i]| :: streams[i][|Of(out, i)|];
    assert j in open;
    HeadLeIsPreorder();
    k := LeastExists(open, HeadLe);
    forall i | i in streams && |Of(out, i)| < |streams[i]| ensures HeadLe(open[k], streams[i][|Of(out, i)|]) {
      assert i in open;
    }
  }

  lemma {:induction false} MergeExtends(rows: seq<Row>, out: seq<Row>) returns (full: seq<Row>)
    requires Emitted(StreamsOf(rows), out)
    ensures IsMerge(StreamsOf(rows), full)
    decreases |rows| - |out|
  {
    hide StreamsOf, Emitted, Earliest, Of;
    var streams := StreamsOf(rows);
    EmittedBound(rows, out);
    if j :| Open(streams, out, j) {
      var k := NextHead(streams, out, j);
      var more := out + [streams[k][|Of(out, k)|]];
      StreamsKeyed(rows);
      EmitNext(streams, out, k);
      EmittedBound(rows, more);
      full := MergeExtends(rows, more);
    } else {
      full := out;
      NothingOpen(streams, out);
    }
  }

  lemma NothingOpen(streams: Streams, out: seq<Row>)
    requires Emitted(streams, out) && forall k :: !Open(streams, out, k)
    ensures IsMerge(streams, out)
  {
    forall k | k in streams ensures Of(out, k) == streams[k] {
      assert !Open(streams, out, k) && Of(out, k) <= streams[k];
    }
  }

  lemma MergeExists(rows: seq<Row>) returns (out: seq<Row>)
    ensures IsMerge(StreamsOf(rows), out)
  {
    out := MergeExtends(rows, []);
  }

  // The docstring's promise, "the same rows always give the same order", holds
  // exactly for tables without ties.
  ghost predicate OrderIndependent(rows: seq<Row>) {
    forall other, a, b ::
      multiset(other) == multiset(rows) && IsMerge(StreamsOf(rows), a) && IsMerge(StreamsOf(other), b) ==> a == b
  }

  lemma OrderIndependentIffTieFree(rows: seq<Row>)
    ensures OrderIndependent(rows) <==> TieFree(rows)
  {
    if TieFree(rows) {
      forall other, a, b |
        multiset(other) == multiset(rows) && IsMerge(StreamsOf(rows), a) && IsMerge(StreamsOf(other), b)
        ensures a == b
      {
        MergeIgnoresInputOrder(rows, other, a, b);
      }
    } else {
      var i, j := FindTie(rows);
      var a := MergeExists(rows);
      var b := MergeExists(Exchanged(rows, i, j));
      ExchangePermutes(rows, i, j);
      TieMakesOrderMatter(rows, i, j, a, b);
    }
  }

  lemma FindTie(rows: seq<Row>) returns (i: nat, j: nat)
    requires !TieFree(rows)
    ensures i < j < |rows| && rows[i] != rows[j] && rows[i].key == rows[j].key
    ensures RowLe(rows[i], rows[j]) && RowLe(rows[j], rows[i])
  {
    var x, y :| x in rows && y in rows && x.key == y.key && RowLe(x, y) && RowLe(y, x) && x != y;
    var p :| 0 <= p < |rows| && rows[p] == x;
    var q :| 0 <= q < |rows| && rows[q] == y;
    i, j := if p < q then p else q, if p < q then q else p;
  }

  // -- global time order ----------------------------------------------------------

  ghost predicate StreamTimesMonotone(rows: seq<Row>) {
    forall k :: k in StreamsOf(rows) ==> SortedBy(StreamsOf(rows)[k], TimeLe)
  }

  lemma LaterInStream(rows: seq<Row>, k: StreamKey, m: nat, n: nat)
    requires k in StreamsOf(rows) && m <= n < |StreamsOf(rows)[k]|
    requires SortedBy(StreamsOf(rows)[k], TimeLe)
    ensures HeadLe(StreamsOf(rows)[k][m], StreamsOf(rows)[k][n])
  {
    RowLeIsPreorder();
    SortSorts(Of(rows, k), RowLe);
    StreamsKeyed(rows);
    var s := StreamsOf(rows)[k];
    if m < n {
      assert TimeLe(s[m], s[n]) && RowLe(s[m], s[n]);
    }
  }

  // The whole output is sorted by (time, stream, sequence) exactly when no
  // stream's clock steps back.
  lemma MergeSortedIffTimesMonotone(rows: seq<Row>, out: seq<Row>)
    requires IsMerge(StreamsOf(rows), out)
    ensures SortedBy(out, HeadLe) <==> StreamTimesMonotone(rows)
  {
    var streams := StreamsOf(rows);
    HeadLeIsPreorder();
    if StreamTimesMonotone(rows) {
      forall i, j | 0 <= i < j < |out| ensures HeadLe(out[i], out[j]) {
        var k := out[j].key;
        EmittedRow(streams, out, j);
        OfPrefix(out, i, j, k);
        assert Earliest(streams, out[..i], out[i]);
        LaterInStream(rows, k, |Of(out[..i], k)|, |Of(out[..j], k)|);
      }
    }
    if SortedBy(out, HeadLe) {
      forall k | k in streams ensures SortedBy(streams[k], TimeLe) {
        FilterKeepsOrder(out, InStream(k), HeadLe);
        StreamsKeyed(rows);
      }
    }
  }
}
