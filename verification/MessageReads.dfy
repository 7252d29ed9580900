/** Reading a run's messages page by page while it goes on
    (sdf_core/core_mcp.py). */
module MessageReads {
  import opened Results
  import opened Orders
  import opened MessageHub

  const MAX_LIST := 100

  function VisibleTo(viewer: Member): Message -> bool { (m: Message) => Visible(viewer, m) }

  function After(since: int): Message -> bool { (m: Message) => m.number > since }

  // A missing or zero limit means 50.
  function Limit(asked: Option<int>): nat {
    var n := if asked.None? || asked.value == 0 then 50 else asked.value;
    if n < 1 then 1 else if n > MAX_LIST then MAX_LIST else n
  }

  function Taken<T>(s: seq<T>, n: nat): seq<T> { if |s| <= n then s else s[..n] }

  // The log is stored in number order.
  function ListMessages(log: seq<Message>, viewer: Member, since: int, asked: Option<int>): seq<Message> {
    Taken(Filter(Filter(log, After(since)), VisibleTo(viewer)), Limit(asked))
  }

  // ---- One page of a numbered log ------------------------------------------

  lemma {:induction false} FilterAll<T>(s: seq<T>, p: T -> bool)
    requires forall x :: x in s ==> p(x)
    ensures Filter(s, p) == s
  {
    if s != [] {
      assert s[0] in s && s == [s[0]] + s[1..];
      FilterAll(s[1..], p);
    }
  }

  lemma {:induction false} FilterNone<T>(s: seq<T>, p: T -> bool)
    requires forall x :: x in s ==> !p(x)
    ensures Filter(s, p) == []
  {
    if s != [] {
      assert s[0] in s;
      FilterNone(s[1..], p);
    }
  }

  lemma AfterIsTail(log: seq<Message>, since: nat)
    requires InSequence(log) && since <= |log|
    ensures Filter(log, After(since)) == log[since..]
  {
    assert log == log[..since] + log[since..];
    FilterConcat(log[..since], log[since..], After(since));
    FilterNone(log[..since], After(since));
    FilterAll(log[since..], After(since));
  }

  // Where the n-th match ends.
  lemma {:induction false} CutAt<T(!new)>(s: seq<T>, p: T -> bool, n: nat) returns (cut: nat)
    requires 0 < n <= |Filter(s, p)|
    ensures 0 < cut <= |s| && Filter(s[..cut], p) == Filter(s, p)[..n] && s[cut - 1] == Filter(s, p)[n - 1]
  {
    var first := if p(s[0]) then 1 else 0;
    if n == first {
      cut := 1;
      assert s[..1][1..] == [];
    } else {
      var rest := CutAt(s[1..], p, n - first);
      cut := rest + 1;
      assert s[..cut][1..] == s[1..][..rest];
    }
  }

  lemma PageIsTaken(log: seq<Message>, viewer: Member, since: nat, asked: Option<int>)
    requires InSequence(log) && since <= |log|
    ensures ListMessages(log, viewer, since, asked)
         == Taken(Filter(log[since..], VisibleTo(viewer)), Limit(asked))
  {
    AfterIsTail(log, since);
  }

  // A page holds everything visible after `since`, up to the limit asked for:
  // 50 without one, and never more than 100.
  lemma PageSizeIs(log: seq<Message>, viewer: Member, since: nat, asked: Option<int>)
    requires InSequence(log) && since <= |log|
    ensures var seen, page := Filter(log[since..], VisibleTo(viewer)), ListMessages(log, viewer, since, asked);
            var limit := match asked case None => 50 case Some(n) => if n == 0 then 50 else if n < 0 then 1 else n;
            && page <= seen
            && |page| == if |seen| <= limit && |seen| <= 100 then |seen| else if limit <= 100 then limit else 100
  {
    PageIsTaken(log, viewer, since, asked);
  }

  // A page that is not empty advances to its last number, and has told
  // everything visible up to there.
  lemma PageAdvances(log: seq<Message>, viewer: Member, since: nat, asked: Option<int>)
    requires InSequence(log) && since <= |log|
    requires var page := ListMessages(log, viewer, since, asked); page != []
    ensures var page := ListMessages(log, viewer, since, asked);
            var next := page[|page| - 1].number;
            && since < next <= |log|
            && Filter(log[..next], VisibleTo(viewer)) == Filter(log[..since], VisibleTo(viewer)) + page
  {
    hide Visible, Limit, ListMessages, Filter;
    PageIsTaken(log, viewer, since, asked);
    var tail, p := log[since..], VisibleTo(viewer);
    var page := ListMessages(log, viewer, since, asked);
    var cut := CutAt(tail, p, |page|);
    assert page == Filter(tail, p)[..|page|];
    assert log[..since + cut] == log[..since] + tail[..cut];
    FilterConcat(log[..since], tail[..cut], p);
    assert tail[cut - 1] == log[since + cut - 1];
  }

  // ---- The walk ------------------------------------------------------------

  // `logs[k]` is the log when page `k` is read: append-only.
  ghost predicate Growing(logs: seq<seq<Message>>) {
    && (forall k :: 0 <= k < |logs| ==> InSequence(logs[k]))
    && forall k :: 0 <= k < |logs| - 1 ==> logs[k] <= logs[k + 1]
  }

  // Reading on from the last number of each page until one is empty.
  ghost predicate Reads(logs: seq<seq<Message>>, viewer: Member, since: int, asked: Option<int>,
                        pages: seq<seq<Message>>)
    decreases |pages|
  {
    && pages != [] && |logs| == |pages|
    && pages[0] == ListMessages(logs[0], viewer, since, asked)
    && if |pages| == 1 then pages[0] == []
       else pages[0] != [] && Reads(logs[1..], viewer, pages[0][|pages[0]| - 1].number, asked, pages[1..])
  }

  function Concat(pages: seq<seq<Message>>): seq<Message> { if pages == [] then [] else pages[0] + Concat(pages[1..]) }

  lemma GrowingOn(logs: seq<seq<Message>>, n: nat)
    requires Growing(logs) && |logs| > 1 && n <= |logs[0]|
    ensures Growing(logs[1..]) && logs[1..][0] == logs[1] && n <= |logs[1]| && logs[1][..n] == logs[0][..n]
    ensures logs[1..][|logs[1..]| - 1] == logs[|logs| - 1]
  {
    assert logs[0] <= logs[0 + 1];
    forall k | 0 <= k < |logs[1..]| - 1 ensures logs[1..][k] <= logs[1..][k + 1] {
      assert logs[k + 1] <= logs[k + 1 + 1];
    }
  }

  // Whatever arrives meanwhile, the pages read spell out exactly what the
  // viewer may see of the log as it is at the end: in order, each message once.
  lemma {:induction false} ReadsTellAll(logs: seq<seq<Message>>, viewer: Member, since: nat, asked: Option<int>,
                                        pages: seq<seq<Message>>)
    requires Growing(logs) && logs != [] && since <= |logs[0]|
    requires Reads(logs, viewer, since, asked, pages)
    ensures Filter(logs[|logs| - 1], VisibleTo(viewer)) == Filter(logs[0][..since], VisibleTo(viewer)) + Concat(pages)
    decreases |pages|
  {
    var p := VisibleTo(viewer);
    if |pages| == 1 {
      EmptyPageIsTheEnd(logs[0], viewer, since, asked);
      assert Concat(pages) == pages[0] + Concat(pages[1..]) == [];
    } else {
      PageAdvances(logs[0], viewer, since, asked);
      var next := pages[0][|pages[0]| - 1].number;
      GrowingOn(logs, next);
      ReadsTellAll(logs[1..], viewer, next, asked, pages[1..]);
      assert Filter(logs[0][..since], p) + pages[0] + Concat(pages[1..]) == Filter(logs[0][..since], p) + Concat(pages);
    }
  }

  lemma EmptyPageIsTheEnd(log: seq<Message>, viewer: Member, since: nat, asked: Option<int>)
    requires InSequence(log) && since <= |log| && ListMessages(log, viewer, since, asked) == []
    ensures Filter(log, VisibleTo(viewer)) == Filter(log[..since], VisibleTo(viewer))
  {
    AfterIsTail(log, since);
    NothingTaken(Filter(log[since..], VisibleTo(viewer)), Limit(asked));
    hide ListMessages, Filter;
    assert log == log[..since] + log[since..];
    FilterConcat(log[..since], log[since..], VisibleTo(viewer));
    assert Filter(log[..since], VisibleTo(viewer)) + [] == Filter(log[..since], VisibleTo(viewer));
  }

  lemma NothingTaken<T>(s: seq<T>, n: nat)
    requires n > 0
    ensures Taken(s, n) == [] ==> s == []
  {
  }

  lemma ReadFromTheStart(logs: seq<seq<Message>>, viewer: Member, asked: Option<int>, pages: seq<seq<Message>>)
    requires Growing(logs) && logs != [] && Reads(logs, viewer, 0, asked, pages)
    ensures Concat(pages) == Filter(logs[|logs| - 1], VisibleTo(viewer))
  {
    ReadsTellAll(logs, viewer, 0, asked, pages);
  }
}
