/** The normalized event stream: `order_events`, a k-way merge of per-stream
    sequences, and `summarize`, the per-stream gap report (sdf_core/events.py). */
module Events {
  import opened Orders
  import opened Results

  datatype StreamKey = StreamKey(source: string, attempt: string, session: string)

  // `at` is the persisted time in microseconds since the epoch; None is a row
  // the database has not stamped yet.
  datatype Row = Row(id: Option<int>, key: StreamKey, sequence: int, at: Option<int>, kind: string, status: string) {
    function At(): int { if at.Some? then at.value else 0 }
    function RowId(): int { if id.Some? then id.value else 0 }
  }

  // -- orders ---------------------------------------------------------------

  predicate KeyLe(a: StreamKey, b: StreamKey) {
    if a.source != b.source then TextLe(a.source, b.source)
    else if a.attempt != b.attempt then TextLe(a.attempt, b.attempt)
    else TextLe(a.session, b.session)
  }

  // Order inside a stream.
  predicate RowLe(a: Row, b: Row) {
    a.sequence < b.sequence || (a.sequence == b.sequence && a.RowId() <= b.RowId())
  }

  // Order of the heads of the streams.
  predicate HeadLe(a: Row, b: Row) {
    if a.At() != b.At() then a.At() < b.At()
    else if a.key != b.key then KeyLe(a.key, b.key)
    else a.sequence <= b.sequence
  }

  predicate SequenceLe(a: Row, b: Row) { a.sequence <= b.sequence }

  predicate TimeLe(a: Row, b: Row) { a.At() <= b.At() }

  // Rows of a stream go by sequence and row id, a missing id being 0; heads by
  // time, a missing one being the epoch, then stream, then sequence.
  lemma OrdersAre(a: Row, b: Row)
    ensures RowLe(a, b) <==>
              || a.sequence < b.sequence
              || (&& a.sequence == b.sequence
                  && (match (a.id, b.id)
                      case (Some(x), Some(y)) => x <= y
                      case (Some(x), None) => x <= 0
                      case (None, Some(y)) => 0 <= y
                      case (None, None) => true))
    ensures a.key == b.key ==>
              (HeadLe(a, b) <==>
                 match (a.at, b.at)
                 case (Some(x), Some(y)) => x < y || (x == y && a.sequence <= b.sequence)
                 case (Some(x), None) => x < 0 || (x == 0 && a.sequence <= b.sequence)
                 case (None, Some(y)) => 0 < y || (0 == y && a.sequence <= b.sequence)
                 case (None, None) => a.sequence <= b.sequence)
  {
  }

  lemma KeyLeIsTotalOrder()
    ensures TotalOrder(KeyLe)
  {
    TextLeIsTotalOrder();
  }

  lemma HeadLeIsPreorder()
    ensures Preorder(HeadLe)
    ensures forall a, b :: HeadLe(a, b) && HeadLe(b, a) ==> a.key == b.key
  {
    KeyLeIsTotalOrder();
  }

  // -- the merge, stated without heads or indices ---------------------------

  type Streams = map<StreamKey, seq<Row>>

  function InStream(k: StreamKey): Row -> bool { (r: Row) => r.key == k }

  // The rows of one stream, in the order they have among themselves in `rows`.
  function Of(rows: seq<Row>, k: StreamKey): seq<Row> { Filter(rows, InStream(k)) }

  // Every stream of the table, each in its authoritative order.
  function StreamsOf(rows: seq<Row>): Streams {
    map k | k in Keys(rows) :: Stream(rows, k)
  }

  function Keys(rows: seq<Row>): set<StreamKey> { set r | r in rows :: r.key }

  function Stream(rows: seq<Row>, k: StreamKey): seq<Row> { Sort(Of(rows, k), RowLe) }

  // `row` is no later than the next row of every stream that still has one
  // after `out` was emitted.
  ghost predicate Earliest(streams: Streams, out: seq<Row>, row: Row) {
    forall k :: k in streams && |Of(out, k)| < |streams[k]| ==> HeadLe(row, streams[k][|Of(out, k)|])
  }

  ghost predicate Emitted(streams: Streams, out: seq<Row>) {
    && (forall k :: k in streams ==> Of(out, k) <= streams[k])
    && (forall r :: r in out ==> r.key in streams)
    && (forall i :: 0 <= i < |out| ==> Earliest(streams, out[..i], out[i]))
  }

  // `out` restricted to each stream is that whole stream, and every emitted
  // row was the earliest of the streams' next rows.
  ghost predicate IsMerge(streams: Streams, out: seq<Row>) {
    Emitted(streams, out) && forall k :: k in streams ==> Of(out, k) == streams[k]
  }

  // No two different rows of a stream share (sequence, id). The database's
  // unique (source, attempt, session, sequence) key implies it.
  ghost predicate TieFree(rows: seq<Row>) {
    forall a, b :: a in rows && b in rows && a.key == b.key && RowLe(a, b) && RowLe(b, a) ==> a == b
  }

  ghost predicate Keyed(streams: Streams) {
    forall k, i :: k in streams && 0 <= i < |streams[k]| ==> streams[k][i].key == k
  }

  // -- one step of the merge --------------------------------------------------

  lemma Append(out: seq<Row>, row: Row)
    ensures forall k :: Of(out + [row], k) == Of(out, k) + (if row.key == k then [row] else [])
    ensures forall i :: 0 <= i <= |out| ==> (out + [row])[..i] == out[..i]
  {
    forall k ensures Of(out + [row], k) == Of(out, k) + (if row.key == k then [row] else []) {
      FilterConcat(out, [row], InStream(k));
    }
  }

  lemma EmitNext(streams: Streams, out: seq<Row>, k: StreamKey)
    requires Keyed(streams) && Emitted(streams, out)
    requires k in streams && |Of(out, k)| < |streams[k]|
    requires Earliest(streams, out, streams[k][|Of(out, k)|])
    ensures Emitted(streams, out + [streams[k][|Of(out, k)|]])
    ensures forall j :: |Of(out + [streams[k][|Of(out, k)|]], j)| == |Of(out, j)| + (if j == k then 1 else 0)
  {
    hide Of, HeadLe;
    var row := streams[k][|Of(out, k)|];
    var more := out + [row];
    assert row.key == k;
    Append(out, row);
    forall j | j in streams ensures Of(more, j) <= streams[j] {
      assert Of(out, j) <= streams[j];
    }
    forall i | 0 <= i < |more| ensures Earliest(streams, more[..i], more[i]) {
      assert more[..i] == out[..i];
      assert i == |out| ==> out[..i] == out;
    }
  }

  lemma StreamsKeyed(rows: seq<Row>)
    ensures Keyed(StreamsOf(rows))
    ensures forall k :: k in StreamsOf(rows) ==> StreamsOf(rows)[k] != []
  {
    forall k | k in StreamsOf(rows)
      ensures StreamsOf(rows)[k] != [] && forall i :: 0 <= i < |StreamsOf(rows)[k]| ==> StreamsOf(rows)[k][i].key == k
    {
      SortPermutes(Of(rows, k), RowLe);
      FilterMembers(rows, InStream(k));
      var r :| r in rows && r.key == k;
      assert r in Of(rows, k);
      forall i | 0 <= i < |StreamsOf(rows)[k]| ensures StreamsOf(rows)[k][i].key == k {
        assert StreamsOf(rows)[k][i] in Sort(Of(rows, k), RowLe);
      }
    }
  }

  lemma StreamCount(rows: seq<Row>, x: Row)
    ensures multiset(Of(rows, x.key))[x] == multiset(rows)[x]
    ensures x.key in StreamsOf(rows) ==> multiset(StreamsOf(rows)[x.key])[x] == multiset(rows)[x]
  {
    FilterCount(rows, InStream(x.key), x);
    SortPermutes(Of(rows, x.key), RowLe);
  }

  // Rows already emitted are rows of the table, each at most as often.
  lemma EmittedCount(rows: seq<Row>, out: seq<Row>, x: Row)
    requires Emitted(StreamsOf(rows), out)
    ensures multiset(out)[x] <= multiset(rows)[x]
    ensures x.key in StreamsOf(rows) && Of(out, x.key) == StreamsOf(rows)[x.key] ==>
              multiset(out)[x] == multiset(rows)[x]
  {
    StreamCount(rows, x);
    FilterCount(out, InStream(x.key), x);
    if x.key in StreamsOf(rows) {
      PrefixCount(Of(out, x.key), StreamsOf(rows)[x.key], x);
    }
  }

  lemma PrefixCount(a: seq<Row>, b: seq<Row>, x: Row)
    requires a <= b
    ensures multiset(a)[x] <= multiset(b)[x]
  {
    assert b == a + b[|a|..];
  }

  lemma EmittedBound(rows: seq<Row>, out: seq<Row>)
    requires Emitted(StreamsOf(rows), out)
    ensures |out| <= |rows|
  {
    forall x: Row ensures multiset(out)[x] <= multiset(rows)[x] {
      EmittedCount(rows, out, x);
    }
    var spare := multiset(rows) - multiset(out);
    assert forall x: Row :: (multiset(out) + spare)[x] == multiset(rows)[x];
    SameCounts(multiset(out) + spare, multiset(rows));
    assert |multiset(out)| == |out| && |multiset(rows)| == |rows|;
  }

  // -- the implementation -----------------------------------------------------

  // Every row so far in its own stream.
  ghost predicate Grouped(streams: Streams, rows: seq<Row>) {
    && streams.Keys == Keys(rows)
    && (forall k :: k in streams ==> streams[k] == Of(rows, k))
    && (forall k :: k !in streams ==> Of(rows, k) == [])
  }

  lemma GroupNext(streams: Streams, rows: seq<Row>, row: Row)
    requires Grouped(streams, rows)
    ensures Grouped(streams[row.key := (if row.key in streams then streams[row.key] else []) + [row]], rows + [row])
  {
    hide Of;
    Append(rows, row);
    assert Keys(rows + [row]) == Keys(rows) + {row.key};
  }

  method GroupByStream(rows: seq<Row>) returns (streams: Streams)
    ensures streams.Keys == Keys(rows)
    ensures forall k :: k in streams ==> streams[k] == Of(rows, k)
  {
    streams := map[];
    for i := 0 to |rows|
      invariant Grouped(streams, rows[..i])
    {
      var row := rows[i];
      GroupNext(streams, rows[..i], row);
      assert rows[..i + 1] == rows[..i] + [row];
      streams := streams[row.key := (if row.key in streams then streams[row.key] else []) + [row]];
    }
    assert rows[..|rows|] == rows;
  }

  method SortStreams(rows: seq<Row>, grouped: Streams) returns (streams: Streams)
    requires grouped.Keys == Keys(rows)
    requires forall k :: k in grouped ==> grouped[k] == Of(rows, k)
    ensures streams == StreamsOf(rows)
  {
    hide Sort, Of, Keys;
    streams := grouped;
    var unsorted := streams.Keys;
    while unsorted != {}
      invariant streams.Keys == Keys(rows)
      invariant unsorted <= streams.Keys
      invariant forall k :: k in unsorted ==> streams[k] == Of(rows, k)
      invariant forall k :: k in streams && k !in unsorted ==> streams[k] == Stream(rows, k)
      decreases unsorted
    {
      var k :| k in unsorted;
      var sorted := Sort(streams[k], RowLe);
      assert sorted == Stream(rows, k);
      streams := streams[k := sorted];
      unsorted := unsorted - {k};
    }
  }

  // `heads` holds the position of the next row of every unfinished stream.
  ghost predicate Tracks(streams: Streams, heads: map<StreamKey, nat>, out: seq<Row>) {
    && heads.Keys <= streams.Keys
    && (forall k :: k in heads ==> heads[k] == |Of(out, k)| < |streams[k]|)
    && (forall k :: k in streams && k !in heads ==> |Of(out, k)| == |streams[k]|)
  }

  function Advance(streams: Streams, heads: map<StreamKey, nat>, k: StreamKey): map<StreamKey, nat>
    requires k in heads && k in streams
  {
    if heads[k] + 1 == |streams[k]| then heads - {k} else heads[k := heads[k] + 1]
  }

  lemma AdvanceTracks(streams: Streams, heads: map<StreamKey, nat>, out: seq<Row>, k: StreamKey, next: seq<Row>)
    requires Tracks(streams, heads, out) && k in heads
    requires forall j :: |Of(next, j)| == |Of(out, j)| + (if j == k then 1 else 0)
    ensures Tracks(streams, Advance(streams, heads, k), next)
  {
    assert heads[k] == |Of(out, k)| < |streams[k]|;
  }

  method MinHead(streams: Streams, heads: map<StreamKey, nat>) returns (key: StreamKey)
    requires heads != map[]
    requires forall k :: k in heads ==> k in streams && heads[k] < |streams[k]|
    ensures key in heads
    ensures forall j :: j in heads ==> HeadLe(streams[key][heads[key]], streams[j][heads[j]])
  {
    HeadLeIsPreorder();
    ghost var current := map k | k in heads :: streams[k][heads[k]];
    assert current.Keys == heads.Keys;
    ghost var first := LeastExists(current, HeadLe);
    assert forall j :: j in heads ==> HeadLe(streams[first][heads[first]], current[j]);
    key :| key in heads && forall j :: j in heads ==> HeadLe(streams[key][heads[key]], streams[j][heads[j]]);
  }

  method MergeStreams(streams: Streams, ghost rows: seq<Row>) returns (ordered: seq<Row>)
    requires streams == StreamsOf(rows)
    requires Keyed(streams) && forall k :: k in streams ==> streams[k] != []
    ensures IsMerge(streams, ordered)
  {
    var heads: map<StreamKey, nat> := map k | k in streams :: 0;
    ordered := [];
    while heads != map[]
      invariant Tracks(streams, heads, ordered)
      invariant Emitted(streams, ordered)
      invariant |ordered| <= |rows|
      decreases |rows| - |ordered|
    {
      var key := MinHead(streams, heads);
      var next := ordered + [streams[key][heads[key]]];
      EmitNext(streams, ordered, key);
      EmittedBound(rows, next);
      AdvanceTracks(streams, heads, ordered, key, next);
      heads := Advance(streams, heads, key);
      ordered := next;
    }
  }

  method OrderEvents(rows: seq<Row>) returns (ordered: seq<Row>)
    ensures IsMerge(StreamsOf(rows), ordered)
  {
    var grouped := GroupByStream(rows);
    var streams := SortStreams(rows, grouped);
    StreamsKeyed(rows);
    ordered := MergeStreams(streams, rows);
  }
}
