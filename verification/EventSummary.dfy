/** `summarize`: one row per stream, with the sequence numbers that never
    arrived (sdf_core/events.py). */
module EventSummary {
  import opened Orders
  import opened Events

  datatype Summary = Summary(
    key: StreamKey, actionBoundary: bool, count: nat, firstSequence: int, lastSequence: int,
    gaps: seq<int>, lastKind: string, lastStatus: string)

  const ACTION_BOUNDARY_PREFIX := "tool_"

  predicate IsActionBoundary(kind: string) { ACTION_BOUNDARY_PREFIX <= kind }

  // Exactly the kinds that begin with `tool_` are action boundaries.
  lemma BoundaryIs(kind: string)
    ensures IsActionBoundary(kind) <==> exists rest :: kind == "tool_" + rest
  {
    if IsActionBoundary(kind) { assert kind == "tool_" + kind[5..]; }
  }

  function Sequences(rows: seq<Row>, k: StreamKey): set<int> { set r | r in Of(rows, k) :: r.sequence }

  function AtSequence(n: int): Row -> bool { (r: Row) => r.sequence == n }

  ghost predicate Increasing(s: seq<int>) { forall i, j :: 0 <= i < j < |s| ==> s[i] < s[j] }

  ghost predicate Bounds(s: set<int>, lo: int, hi: int) {
    lo in s && hi in s && forall n :: n in s ==> lo <= n <= hi
  }

  // The latest row of a stream: of those with the largest sequence, the last
  // one fetched.
  ghost predicate Latest(rows: seq<Row>, k: StreamKey, r: Row) {
    var top := Filter(Of(rows, k), AtSequence(r.sequence));
    top != [] && top[|top| - 1] == r
  }

  ghost predicate Describes(rows: seq<Row>, s: Summary) {
    && s.count == |Of(rows, s.key)|
    && Bounds(Sequences(rows, s.key), s.firstSequence, s.lastSequence)
    && Increasing(s.gaps)
    && (forall n :: n in s.gaps <==> 1 <= n < s.lastSequence && n !in Sequences(rows, s.key))
    && exists r :: Latest(rows, s.key, r) && r.sequence == s.lastSequence
                   && s.lastKind == r.kind && s.lastStatus == r.status && s.actionBoundary == IsActionBoundary(r.kind)
  }

  lemma SequenceLeIsPreorder()
    ensures Preorder(SequenceLe)
  {
  }

  lemma {:induction false} LastOfFilter(s: seq<Row>, p: Row -> bool)
    requires s != [] && p(s[|s| - 1])
    ensures Filter(s, p) != [] && Filter(s, p)[|Filter(s, p)| - 1] == s[|s| - 1]
  {
    assert s == s[..|s| - 1] + [s[|s| - 1]];
    FilterConcat(s[..|s| - 1], [s[|s| - 1]], p);
  }

  lemma {:induction false} FilterSame(s: seq<Row>, p: Row -> bool, q: Row -> bool)
    requires forall r :: p(r) == q(r)
    ensures Filter(s, p) == Filter(s, q)
  {
    if s != [] {
      FilterSame(s[1..], p, q);
    }
  }

  lemma SortedItems(rows: seq<Row>, k: StreamKey)
    requires k in Keys(rows)
    ensures |Sort(Of(rows, k), SequenceLe)| == |Of(rows, k)| > 0
    ensures forall r :: r in Sort(Of(rows, k), SequenceLe) <==> r in Of(rows, k)
  {
    FilterMembers(rows, InStream(k));
    SortPermutes(Of(rows, k), SequenceLe);
    var r :| r in rows && r.key == k;
    assert r in Of(rows, k);
  }

  lemma BoundsOfSorted(items: seq<Row>, s: set<int>)
    requires items != [] && SortedBy(items, SequenceLe)
    requires forall n :: n in s <==> exists r :: r in items && r.sequence == n
    ensures Bounds(s, items[0].sequence, items[|items| - 1].sequence)
  {
    assert items[0] in items && items[|items| - 1] in items;
    forall n | n in s ensures items[0].sequence <= n <= items[|items| - 1].sequence {
      var r :| r in items && r.sequence == n;
      var i :| 0 <= i < |items| && items[i] == r;
      assert i == 0 || SequenceLe(items[0], items[i]);
      assert i == |items| - 1 || SequenceLe(items[i], items[|items| - 1]);
    }
  }

  lemma SortedBounds(rows: seq<Row>, k: StreamKey)
    requires k in Keys(rows)
    ensures var items := Sort(Of(rows, k), SequenceLe);
            && |items| == |Of(rows, k)| > 0
            && (forall r :: r in items <==> r in Of(rows, k))
            && Bounds(Sequences(rows, k), items[0].sequence, items[|items| - 1].sequence)
  {
    SequenceLeIsPreorder();
    SortedItems(rows, k);
    SortSorts(Of(rows, k), SequenceLe);
    BoundsOfSorted(Sort(Of(rows, k), SequenceLe), Sequences(rows, k));
  }

  lemma SortedLatest(rows: seq<Row>, k: StreamKey)
    requires Sort(Of(rows, k), SequenceLe) != []
    ensures var items := Sort(Of(rows, k), SequenceLe); Latest(rows, k, items[|items| - 1])
  {
    var mine := Of(rows, k);
    var items := Sort(mine, SequenceLe);
    var last := items[|items| - 1];
    SequenceLeIsPreorder();
    SortStable(mine, SequenceLe, last);
    FilterSame(items, TiedWith(last, SequenceLe), AtSequence(last.sequence));
    FilterSame(mine, TiedWith(last, SequenceLe), AtSequence(last.sequence));
    LastOfFilter(items, AtSequence(last.sequence));
  }

  // The last item of the stably sorted stream is its latest row.
  lemma SortedStream(rows: seq<Row>, k: StreamKey)
    requires k in Keys(rows)
    ensures var items := Sort(Of(rows, k), SequenceLe);
            && |items| == |Of(rows, k)| > 0
            && (set r | r in items :: r.sequence) == Sequences(rows, k)
            && Bounds(Sequences(rows, k), items[0].sequence, items[|items| - 1].sequence)
            && Latest(rows, k, items[|items| - 1])
  {
    SortedBounds(rows, k);
    SortedLatest(rows, k);
  }

  method MissingBelow(present: set<int>, last: int) returns (gaps: seq<int>)
    ensures Increasing(gaps)
    ensures forall n :: n in gaps <==> 1 <= n < last && n !in present
  {
    gaps := [];
    var n := 1;
    while n < last
      invariant 1 <= n && (1 <= last ==> n <= last)
      invariant Increasing(gaps) && forall i :: 0 <= i < |gaps| ==> gaps[i] < n
      invariant forall m :: m in gaps <==> 1 <= m < n && m < last && m !in present
    {
      if n !in present {
        gaps := gaps + [n];
      }
      n := n + 1;
    }
  }

  lemma StreamDescribed(rows: seq<Row>, k: StreamKey, first: int, last: Row, gaps: seq<int>)
    requires Bounds(Sequences(rows, k), first, last.sequence) && Latest(rows, k, last) && Increasing(gaps)
    requires forall n :: n in gaps <==> 1 <= n < last.sequence && n !in Sequences(rows, k)
    ensures Describes(rows, SummaryOf(k, |Of(rows, k)|, first, last, gaps))
  {
    hide Bounds, Latest, Sequences, Of, Increasing, IsActionBoundary;
  }

  function SummaryOf(k: StreamKey, count: nat, first: int, last: Row, gaps: seq<int>): Summary {
    Summary(k, IsActionBoundary(last.kind), count, first, last.sequence, gaps, last.kind, last.status)
  }

  method SummarizeStream(ghost rows: seq<Row>, k: StreamKey, stream: seq<Row>) returns (s: Summary)
    requires k in Keys(rows) && stream == Of(rows, k)
    ensures s.key == k && Describes(rows, s)
  {
    hide Sort, Of, Keys, Sequences, Bounds, Latest, Increasing, Describes, IsActionBoundary;
    var items := Sort(stream, SequenceLe);
    SortedStream(rows, k);
    var present := set r | r in items :: r.sequence;
    var last := items[|items| - 1];
    var gaps := MissingBelow(present, last.sequence);
    s := SummaryOf(k, |items|, items[0].sequence, last, gaps);
    StreamDescribed(rows, k, items[0].sequence, last, gaps);
  }

  // The key that comes first, as `sorted` picks it.
  lemma FirstKeyExists(todo: set<StreamKey>) returns (first: StreamKey)
    requires todo != {} && TotalOrder(KeyLe)
    ensures first in todo && forall j :: j in todo ==> KeyLe(first, j)
  {
    hide KeyLe;
    var m := map k | k in todo :: k;
    assert m.Keys == todo;
    first := LeastExists(m, KeyLe);
    assert forall j :: j in todo ==> KeyLe(first, m[j]);
  }

  method SortedKeys(keys: set<StreamKey>) returns (listed: seq<StreamKey>)
    ensures forall k :: k in listed <==> k in keys
    ensures forall i, j :: 0 <= i < j < |listed| ==> KeyLe(listed[i], listed[j]) && listed[i] != listed[j]
  {
    KeyLeIsTotalOrder();
    hide KeyLe;
    var todo := keys;
    listed := [];
    while todo != {}
      invariant todo <= keys
      invariant forall k :: k in keys <==> k in todo || k in listed
      invariant forall i, k :: 0 <= i < |listed| && k in todo ==> KeyLe(listed[i], k) && listed[i] != k
      invariant forall i, j :: 0 <= i < j < |listed| ==> KeyLe(listed[i], listed[j]) && listed[i] != listed[j]
      decreases todo
    {
      ghost var first := FirstKeyExists(todo);
      var k :| k in todo && forall j :: j in todo ==> KeyLe(k, j);
      listed := listed + [k];
      todo := todo - {k};
    }
  }

  method Summarize(rows: seq<Row>) returns (out: seq<Summary>)
    ensures forall s :: s in out ==> Describes(rows, s)
    ensures forall k :: k in Keys(rows) <==> exists i :: 0 <= i < |out| && out[i].key == k
    ensures forall i, j :: 0 <= i < j < |out| ==> KeyLe(out[i].key, out[j].key) && out[i].key != out[j].key
  {
    hide Describes, KeyLe, Of, Keys;
    var streams := GroupByStream(rows);
    var keys := SortedKeys(streams.Keys);
    out := [];
    for i := 0 to |keys|
      invariant |out| == i
      invariant forall j :: 0 <= j < i ==> out[j].key == keys[j] && Describes(rows, out[j])
    {
      var s := SummarizeStream(rows, keys[i], streams[keys[i]]);
      out := out + [s];
    }
    forall k | k in Keys(rows) ensures exists i :: 0 <= i < |out| && out[i].key == k {
      var i :| 0 <= i < |keys| && keys[i] == k;
      assert out[i].key == k;
    }
  }

  // -- the counting argument -----------------------------------------------------

  function Numbers(s: seq<Row>): seq<int> { seq(|s|, i requires 0 <= i < |s| => s[i].sequence) }

  ghost predicate Distinct(s: seq<int>) { forall i, j :: 0 <= i < j < |s| ==> s[i] != s[j] }

  function Members(s: seq<int>): set<int> { set n | n in s }

  lemma {:induction false} MembersBound(s: seq<int>)
    ensures |Members(s)| <= |s|
    ensures Distinct(s) ==> |Members(s)| == |s|
  {
    if s != [] {
      var front, last := s[..|s| - 1], s[|s| - 1];
      MembersBound(front);
      assert s == front + [last];
      assert Members(s) == Members(front) + {last};
    }
  }

  lemma DuplicateShrinks(s: seq<int>, i: nat, j: nat)
    requires i < j < |s| && s[i] == s[j]
    ensures |Members(s)| < |s|
  {
    var without := s[..j] + s[j + 1..];
    assert s == s[..j] + [s[j]] + s[j + 1..];
    assert without[i] == s[i];
    assert Members(s) == Members(without);
    MembersBound(without);
  }

  lemma DistinctIffNoLoss(s: seq<int>)
    ensures |Members(s)| == |s| <==> Distinct(s)
  {
    MembersBound(s);
    if !Distinct(s) {
      var i, j :| 0 <= i < j < |s| && s[i] == s[j];
      DuplicateShrinks(s, i, j);
    }
  }

  function Range(n: nat): (r: set<int>)
    ensures forall m :: m in r <==> 1 <= m <= n
    ensures |r| == n
  {
    if n == 0 then {} else Range(n - 1) + {n}
  }

  // The numbers below `last` are the gaps and the sequences seen.
  lemma RangeSplits(seen: set<int>, gaps: seq<int>, first: int, last: nat)
    requires last >= 1 && Bounds(seen, first, last) && Increasing(gaps)
    requires forall n :: n in gaps <==> 1 <= n < last && n !in seen
    ensures |gaps| + |seen| == last <==> forall n :: n in seen ==> 1 <= n
    ensures |gaps| + |seen| >= last
  {
    var whole := Range(last);
    var inside, outside := seen * whole, seen - whole;
    MembersBound(gaps);
    assert whole == Members(gaps) + inside;
    assert Members(gaps) !! inside;
    assert |whole| == |Members(gaps)| + |inside|;
    assert seen == inside + outside;
    assert |seen| == |inside| + |outside|;
    if n :| n in seen && n < 1 {
      assert n in outside;
    } else {
      assert outside == {};
    }
  }

  // A stream is complete below its last sequence exactly when count and gaps
  // add up to it: no number twice, none below 1.
  lemma GapsComplete(rows: seq<Row>, s: Summary)
    requires Describes(rows, s)
    ensures s.count + |s.gaps| == s.lastSequence <==>
            Distinct(Numbers(Of(rows, s.key))) && forall n :: n in Sequences(rows, s.key) ==> 1 <= n
  {
    var stream := Of(rows, s.key);
    var seen := Sequences(rows, s.key);
    assert seen == Members(Numbers(stream)) by {
      forall r | r in stream ensures r.sequence in Numbers(stream) {
        var i :| 0 <= i < |stream| && stream[i] == r;
        assert Numbers(stream)[i] == r.sequence;
      }
    }
    MembersBound(Numbers(stream));
    DistinctIffNoLoss(Numbers(stream));
    if s.lastSequence >= 1 {
      RangeSplits(seen, s.gaps, s.firstSequence, s.lastSequence);
    } else {
      assert s.lastSequence in seen;
      assert s.count > 0;
    }
  }
}
