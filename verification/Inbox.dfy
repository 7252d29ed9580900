/** The approver inbox: which pending requests a caller is shown, page by page and
    over whole walks (sdf_core/human_read.py), and that it shows a plan exactly to
    those who may approve it (sdf_core/plans.py). */
module Inbox {
  import opened Results
  import opened Unicode
  import opened Listing
  import opened Paging
  import Cursor
  import Identities
  import Plans
  import Requests

  datatype Ask = Ask(pending: bool, aboutPlan: bool, subject: string)

  // The proposer of a plan and the stored fold of that name.
  datatype Proposal = Proposal(proposedBy: string, stored: Option<string>)

  type Proposals = map<string, Proposal>

  // What one page is read from.
  datatype View = View(requests: Table<Ask>, plans: Proposals)

  // A request with the plan it is about, as the outer join returns it.
  datatype Entry = Entry(ask: Ask, plan: Option<Proposal>)

  datatype Caller = Caller(name: string, canApprove: bool)

  // The pinned case fold, undefined for names it cannot fold, and single-user mode.
  datatype Setting = Setting(fold: string -> Option<string>, singleUser: bool)

  datatype Error = BadCursor | MissingFold | CallerNotFoldable | WrongFold

  function EntryOf(a: Ask, plans: Proposals): Entry {
    Entry(a, if a.aboutPlan && a.subject in plans then Some(plans[a.subject]) else None)
  }

  function JoinedRow(r: Row<Cursor.Place, Ask>, plans: Proposals): Row<Cursor.Place, Entry> {
    Row(r.key, EntryOf(r.data, plans))
  }

  function Joined(v: View): (t: Table<Entry>)
    ensures |t| == |v.requests|
  {
    seq(|v.requests|, i requires 0 <= i < |v.requests| => JoinedRow(v.requests[i], v.plans))
  }

  predicate Eligible(e: Entry, callerFold: string, singleUser: bool) {
    && e.ask.pending
    && (!e.ask.aboutPlan
        || (e.plan.Some? && (singleUser || (e.plan.value.stored.Some? && e.plan.value.stored.value != callerFold))))
  }

  // Every pending request of an agent is there for every approver; one about a
  // plan for those the plan's proposer is not, and in single-user mode for all.
  lemma EligibleIs(r: Ask, plans: Proposals, callerFold: string, singleUser: bool)
    ensures Eligible(EntryOf(r, plans), callerFold, singleUser) <==>
              && r.pending
              && (r.aboutPlan ==>
                    && r.subject in plans
                    && (!singleUser ==> plans[r.subject].stored.Some? && plans[r.subject].stored != Some(callerFold)))
  {
  }

  function Shown(callerFold: string, singleUser: bool): Entry -> bool {
    (e: Entry) => Eligible(e, callerFold, singleUser)
  }

  predicate RightFold(e: Entry, s: Setting) {
    e.plan.Some? ==> e.plan.value.stored.Some? && s.fold(e.plan.value.proposedBy) == e.plan.value.stored
  }

  function Start(cursor: Option<Text>): Option<Cursor.Place> {
    if cursor.None? || cursor.value == [] || Cursor.Decode(cursor.value).Err? then None
    else Some(Cursor.Decode(cursor.value).value)
  }

  // The rows the query hands to the application: one more than the page.
  function Fetched(table: Table<Entry>, p: Entry -> bool, limit: nat, cursor: Option<Text>): Table<Entry> {
    var listed := Listed(table, PlaceLe, p, Start(cursor));
    if |listed| <= limit then listed else listed[..limit + 1]
  }

  function InboxPage(v: View, caller: Caller, s: Setting, limit: nat, cursor: Option<Text>)
    : Result<Served<Entry>, Error>
    requires limit >= 1
  {
    if cursor.Some? && cursor.value != [] && Cursor.Decode(cursor.value).Err? then Err(BadCursor)
    else if exists id :: id in v.plans && v.plans[id].stored.None? then Err(MissingFold)
    else if !caller.canApprove then Ok(Served([], None))
    else if s.fold(caller.name).None? then Err(CallerNotFoldable)
    else
      var p := Shown(s.fold(caller.name).value, s.singleUser);
      var fetched := Fetched(Joined(v), p, limit, cursor);
      if exists i :: 0 <= i < |fetched| && !RightFold(fetched[i].data, s) then Err(WrongFold)
      else Ok(Cut(Listed(Joined(v), PlaceLe, p, Start(cursor)), limit))
  }

  // ---- One page ------------------------------------------------------------

  // Every plan carries the fold of its proposer.
  ghost predicate Backfilled(plans: Proposals, s: Setting) {
    forall id :: id in plans ==> plans[id].stored.Some? && plans[id].stored == s.fold(plans[id].proposedBy)
  }

  lemma FetchedAreListed(table: Table<Entry>, p: Entry -> bool, limit: nat, cursor: Option<Text>)
    ensures forall r :: r in Fetched(table, p, limit, cursor) ==> r in table && p(r.data)
    ensures |Fetched(table, p, limit, cursor)| == |Listed(table, PlaceLe, p, Start(cursor))| ||
            |Fetched(table, p, limit, cursor)| == limit + 1
    ensures Fetched(table, p, limit, cursor) <= Listed(table, PlaceLe, p, Start(cursor))
  {
    var listed := Listed(table, PlaceLe, p, Start(cursor));
    ListedMembers(table, PlaceLe, p, Start(cursor));
    forall r | r in Fetched(table, p, limit, cursor) ensures r in table && p(r.data) {
      assert r in listed;
      assert Past(PlaceLe, p, Start(cursor))(r);
    }
  }

  lemma JoinedFrom(v: View, r: Row<Cursor.Place, Entry>) returns (q: Row<Cursor.Place, Ask>)
    requires r in Joined(v)
    ensures q in v.requests && r == JoinedRow(q, v.plans)
  {
    var i :| 0 <= i < |Joined(v)| && Joined(v)[i] == r;
    q := v.requests[i];
  }

  lemma JoinedHolds(v: View, q: Row<Cursor.Place, Ask>)
    requires q in v.requests
    ensures JoinedRow(q, v.plans) in Joined(v)
  {
    var i :| 0 <= i < |v.requests| && v.requests[i] == q;
    assert Joined(v)[i] == JoinedRow(q, v.plans);
  }

  lemma JoinedWellFormed(v: View)
    requires WellFormed(v.requests)
    ensures WellFormed(Joined(v))
  {
    forall r | r in Joined(v) ensures Faithful(r.key) {
      var q := JoinedFrom(v, r);
    }
  }

  // A page a caller is served is a keyset page of the joined table.
  lemma ServedIsKeyset(v: View, caller: Caller, s: Setting, limit: nat, cursor: Option<Text>)
    requires limit >= 1 && caller.canApprove && InboxPage(v, caller, s, limit, cursor).Ok?
    ensures s.fold(caller.name).Some?
    ensures KeysetPage(Joined(v), Shown(s.fold(caller.name).value, s.singleUser), limit, cursor)
         == Ok(InboxPage(v, caller, s, limit, cursor).value)
  {
  }

  // With every fold in place, an approver's page is refused only over a cursor.
  lemma BackfilledServes(v: View, caller: Caller, s: Setting, limit: nat, cursor: Option<Text>)
    requires limit >= 1 && Backfilled(v.plans, s) && caller.canApprove && s.fold(caller.name).Some?
    ensures var page := KeysetPage(Joined(v), Shown(s.fold(caller.name).value, s.singleUser), limit, cursor);
            InboxPage(v, caller, s, limit, cursor) == if page.Err? then Err(BadCursor) else Ok(page.value)
  {
    var fetched := Fetched(Joined(v), Shown(s.fold(caller.name).value, s.singleUser), limit, cursor);
    FetchedAreListed(Joined(v), Shown(s.fold(caller.name).value, s.singleUser), limit, cursor);
    forall i | 0 <= i < |fetched| ensures RightFold(fetched[i].data, s) {
      assert fetched[i] in fetched;
      var q := JoinedFrom(v, fetched[i]);
    }
  }

  // No page is served over a fold that would misplace a plan: a page that comes
  // back has right folds, and a missing fold anywhere stops every listing.
  lemma WrongFoldsStopTheListing(v: View, caller: Caller, s: Setting, limit: nat, cursor: Option<Text>)
    requires limit >= 1 && InboxPage(v, caller, s, limit, cursor).Ok?
    ensures forall id :: id in v.plans ==> v.plans[id].stored.Some?
    ensures forall r :: r in InboxPage(v, caller, s, limit, cursor).value.rows ==>
              && caller.canApprove && r.data.ask.pending
              && (r.data.plan.Some? ==>
                    && r.data.plan.value.stored.Some?
                    && s.fold(r.data.plan.value.proposedBy) == r.data.plan.value.stored)
  {
    if caller.canApprove {
      var p := Shown(s.fold(caller.name).value, s.singleUser);
      var fetched, rows := Fetched(Joined(v), p, limit, cursor), InboxPage(v, caller, s, limit, cursor).value.rows;
      FetchedAreListed(Joined(v), p, limit, cursor);
      forall r | r in rows ensures RightFold(r.data, s) && r.data.ask.pending {
        var i :| 0 <= i < |rows| && rows[i] == r;
        assert fetched[i] == r;
      }
    }
  }

  // One of the first `limit + 1` rows belongs to a plan with another's fold.
  ghost predicate MisfoldedRow(listed: Table<Entry>, limit: nat, s: Setting, i: nat) {
    && i < |listed| && i <= limit && listed[i].data.plan.Some?
    && s.fold(listed[i].data.plan.value.proposedBy) != listed[i].data.plan.value.stored
  }

  // When a page is refused, and why, in the order of the checks.
  lemma RefusalsAre(v: View, caller: Caller, s: Setting, limit: nat, cursor: Option<Text>)
    requires limit >= 1
    ensures var page := InboxPage(v, caller, s, limit, cursor);
            var unreadable := cursor.Some? && cursor.value != [] && Cursor.Decode(cursor.value).Err?;
            var unfolded := exists id :: id in v.plans && v.plans[id].stored.None?;
            && (page == Err(BadCursor) <==> unreadable)
            && (page == Err(MissingFold) <==> !unreadable && unfolded)
            && (page == Err(CallerNotFoldable) <==>
                  !unreadable && !unfolded && caller.canApprove && s.fold(caller.name).None?)
            && (page == Err(WrongFold) <==>
                  && !unreadable && !unfolded && caller.canApprove && s.fold(caller.name).Some?
                  && var p := Shown(s.fold(caller.name).value, s.singleUser);
                     exists i: nat :: MisfoldedRow(Listed(Joined(v), PlaceLe, p, Start(cursor)), limit, s, i))
            && (page.Ok? && !caller.canApprove ==> page.value == Served([], None))
  {
    if caller.canApprove && s.fold(caller.name).Some? && forall id :: id in v.plans ==> v.plans[id].stored.Some? {
      FoldsAre(v, s, Shown(s.fold(caller.name).value, s.singleUser), limit, cursor);
    }
    hide Listed, Fetched, RightFold, MisfoldedRow;
  }

  lemma FoldsAre(v: View, s: Setting, p: Entry -> bool, limit: nat, cursor: Option<Text>)
    requires forall id :: id in v.plans ==> v.plans[id].stored.Some?
    ensures var fetched := Fetched(Joined(v), p, limit, cursor);
            (exists i :: 0 <= i < |fetched| && !RightFold(fetched[i].data, s)) <==>
              exists i: nat :: MisfoldedRow(Listed(Joined(v), PlaceLe, p, Start(cursor)), limit, s, i)
  {
    hide Listed;
    var listed, fetched := Listed(Joined(v), PlaceLe, p, Start(cursor)), Fetched(Joined(v), p, limit, cursor);
    FetchedAreListed(Joined(v), p, limit, cursor);
    forall i | 0 <= i < |fetched| ensures RightFold(fetched[i].data, s) <==> !MisfoldedRow(listed, limit, s, i) {
      assert fetched[i] == listed[i] && fetched[i] in fetched;
      var q := JoinedFrom(v, fetched[i]);
    }
  }

  // ---- Walks ---------------------------------------------------------------

  // Following `next_cursor` to null; page `i` is read from `views[i]`.
  ghost predicate InboxWalk(views: seq<View>, caller: Caller, s: Setting, limit: nat, cursor: Option<Text>,
                            walk: seq<Served<Entry>>)
    requires limit >= 1
    decreases |walk|
  {
    && walk != [] && |views| == |walk|
    && InboxPage(views[0], caller, s, limit, cursor) == Ok(walk[0])
    && if |walk| == 1 then walk[0].next.None?
       else walk[0].next.Some? && InboxWalk(views[1..], caller, s, limit, walk[0].next, walk[1..])
  }

  ghost predicate ViewsOk(views: seq<View>) { forall v :: v in views ==> WellFormed(v.requests) }

  function AllJoined(views: seq<View>): (ts: seq<Table<Entry>>)
    ensures |ts| == |views| && forall i :: 0 <= i < |views| ==> ts[i] == Joined(views[i])
  {
    seq(|views|, i requires 0 <= i < |views| => Joined(views[i]))
  }

  lemma AllJoinedOk(views: seq<View>)
    requires ViewsOk(views)
    ensures AllWellFormed(AllJoined(views))
  {
    forall t | t in AllJoined(views) ensures WellFormed(t) {
      var i :| 0 <= i < |AllJoined(views)| && AllJoined(views)[i] == t;
      assert views[i] in views;
      JoinedWellFormed(views[i]);
    }
  }

  // An approver's walk is a keyset walk of the joined tables.
  lemma {:induction false} InboxWalkIsWalk(views: seq<View>, caller: Caller, s: Setting, limit: nat,
                                           cursor: Option<Text>, walk: seq<Served<Entry>>)
    requires limit >= 1 && caller.canApprove && InboxWalk(views, caller, s, limit, cursor, walk)
    ensures s.fold(caller.name).Some?
    ensures Walk(AllJoined(views), Shown(s.fold(caller.name).value, s.singleUser), limit, cursor, walk)
    decreases |walk|
  {
    ServedIsKeyset(views[0], caller, s, limit, cursor);
    if |walk| > 1 {
      InboxWalkIsWalk(views[1..], caller, s, limit, walk[0].next, walk[1..]);
      assert AllJoined(views)[1..] == AllJoined(views[1..]);
    }
  }

  // Who cannot approve sees nothing.
  lemma OthersSeeNothing(views: seq<View>, caller: Caller, s: Setting, limit: nat, cursor: Option<Text>,
                         walk: seq<Served<Entry>>)
    requires limit >= 1 && !caller.canApprove && InboxWalk(views, caller, s, limit, cursor, walk)
    ensures RowsOf(walk) == []
  {
    assert walk[0] == Served([], None);
    assert RowsOf(walk[1..]) == [];
  }

  // No request twice, in order of creation, whatever happens between the pages.
  lemma InboxAscends(views: seq<View>, caller: Caller, s: Setting, limit: nat, walk: seq<Served<Entry>>)
    requires limit >= 1 && ViewsOk(views) && InboxWalk(views, caller, s, limit, None, walk)
    ensures Ascending(RowsOf(walk), PlaceLe)
  {
    if caller.canApprove {
      InboxWalkIsWalk(views, caller, s, limit, None, walk);
      AllJoinedOk(views);
      WalkAscends(AllJoined(views), Shown(s.fold(caller.name).value, s.singleUser), limit, None, walk);
    } else {
      OthersSeeNothing(views, caller, s, limit, None, walk);
    }
  }

  // Plan rows are added between pages, and none is changed or removed.
  ghost predicate PlansOnlyGrow(views: seq<View>) {
    forall i, j, id :: 0 <= i <= j < |views| && id in views[i].plans ==>
      id in views[j].plans && views[j].plans[id] == views[i].plans[id]
  }

  // The request is pending in every view a page is read from.
  ghost predicate StaysPending(views: seq<View>, k: Cursor.Place, a: Ask) {
    a.pending && forall v :: v in views ==> Row(k, a) in v.requests
  }

  lemma SameEntry(views: seq<View>, a: Ask, i: nat, callerFold: string, singleUser: bool)
    requires PlansOnlyGrow(views) && i < |views| && Eligible(EntryOf(a, views[0].plans), callerFold, singleUser)
    ensures EntryOf(a, views[i].plans) == EntryOf(a, views[0].plans)
  {
    if a.aboutPlan {
      assert a.subject in views[0].plans;
    }
  }

  // A request that is there, pending and the caller's to approve when the walk
  // begins, and that nobody resolves before it ends, is returned exactly once
  // and with its plan, whatever plans and requests are added meanwhile.
  lemma InboxExactlyOnce(views: seq<View>, caller: Caller, s: Setting, limit: nat, walk: seq<Served<Entry>>,
                         k: Cursor.Place, a: Ask)
    requires limit >= 1 && ViewsOk(views) && InboxWalk(views, caller, s, limit, None, walk)
    requires PlansOnlyGrow(views) && StaysPending(views, k, a)
    requires caller.canApprove && s.fold(caller.name).Some?
    requires Eligible(EntryOf(a, views[0].plans), s.fold(caller.name).value, s.singleUser)
    ensures exists i :: 0 <= i < |RowsOf(walk)| && RowsOf(walk)[i] == Row(k, EntryOf(a, views[0].plans))
                        && forall j :: 0 <= j < |RowsOf(walk)| && RowsOf(walk)[j].key == k ==> j == i
  {
    hide InboxWalk, Walk, PlaceLe, Eligible, RowsOf;
    var tables, p := AllJoined(views), Shown(s.fold(caller.name).value, s.singleUser);
    InboxWalkIsWalk(views, caller, s, limit, None, walk);
    AllJoinedOk(views);
    forall t | t in tables ensures Present(t, p, k) {
      PresentThroughout(views, k, a, s.fold(caller.name).value, s.singleUser, t);
    }
    ExactlyOnce(tables, p, limit, walk, k);
    var i :| 0 <= i < |RowsOf(walk)| && RowsOf(walk)[i].key == k
             && forall j :: 0 <= j < |RowsOf(walk)| && RowsOf(walk)[j].key == k ==> j == i;
    var r := RowsOf(walk)[i];
    WalkInventsNothing(tables, p, limit, None, walk, r);
    var t :| t in tables && r in t;
    RowThroughout(views, k, a, s.fold(caller.name).value, s.singleUser, t, r);
  }

  lemma PresentThroughout(views: seq<View>, k: Cursor.Place, a: Ask, callerFold: string, singleUser: bool,
                          t: Table<Entry>)
    requires PlansOnlyGrow(views) && StaysPending(views, k, a) && t in AllJoined(views)
    requires Eligible(EntryOf(a, views[0].plans), callerFold, singleUser)
    ensures Row(k, EntryOf(a, views[0].plans)) in t && Present(t, Shown(callerFold, singleUser), k)
  {
    var i :| 0 <= i < |views| && AllJoined(views)[i] == t;
    assert views[i] in views;
    JoinedHolds(views[i], Row(k, a));
    SameEntry(views, a, i, callerFold, singleUser);
    var r := Row(k, EntryOf(a, views[0].plans));
    assert r in t && r.key == k && Shown(callerFold, singleUser)(r.data);
  }

  lemma RowThroughout(views: seq<View>, k: Cursor.Place, a: Ask, callerFold: string, singleUser: bool, t: Table<Entry>,
                      r: Row<Cursor.Place, Entry>)
    requires ViewsOk(views) && PlansOnlyGrow(views) && StaysPending(views, k, a) && t in AllJoined(views)
    requires Eligible(EntryOf(a, views[0].plans), callerFold, singleUser)
    requires r in t && r.key == k
    ensures r == Row(k, EntryOf(a, views[0].plans))
  {
    PresentThroughout(views, k, a, callerFold, singleUser, t);
    AllJoinedOk(views);
    SameKeySameRow(t, r, Row(k, EntryOf(a, views[0].plans)));
  }

  // Nothing is shown that was not pending and the caller's to approve when its
  // page was read.
  lemma InboxShowsEligible(views: seq<View>, caller: Caller, s: Setting, limit: nat, walk: seq<Served<Entry>>,
                           r: Row<Cursor.Place, Entry>)
    requires limit >= 1 && ViewsOk(views) && InboxWalk(views, caller, s, limit, None, walk) && r in RowsOf(walk)
    ensures caller.canApprove && s.fold(caller.name).Some? && Eligible(r.data, s.fold(caller.name).value, s.singleUser)
    ensures exists v, q :: v in views && q in v.requests && r == JoinedRow(q, v.plans)
  {
    if caller.canApprove {
      var tables, p := AllJoined(views), Shown(s.fold(caller.name).value, s.singleUser);
      InboxWalkIsWalk(views, caller, s, limit, None, walk);
      AllJoinedOk(views);
      RowQualifies(tables, p, limit, walk, r);
      var t :| t in tables && r in t;
      RowOfView(views, t, r);
    } else {
      OthersSeeNothing(views, caller, s, limit, None, walk);
    }
  }

  lemma RowQualifies(tables: seq<Table<Entry>>, p: Entry -> bool, limit: nat, walk: seq<Served<Entry>>,
                     r: Row<Cursor.Place, Entry>)
    requires limit >= 1 && AllWellFormed(tables) && Walk(tables, p, limit, None, walk) && r in RowsOf(walk)
    ensures p(r.data) && exists t :: t in tables && r in t
  {
    hide Walk, AllWellFormed, RowsOf, PlaceLe;
    WalkAscends(tables, p, limit, None, walk);
    var n :| 0 <= n < |RowsOf(walk)| && RowsOf(walk)[n] == r;
    assert Past(PlaceLe, p, None)(RowsOf(walk)[n]);
    WalkInventsNothing(tables, p, limit, None, walk, r);
  }

  lemma RowOfView(views: seq<View>, t: Table<Entry>, r: Row<Cursor.Place, Entry>)
    requires t in AllJoined(views) && r in t
    ensures exists v, q :: v in views && q in v.requests && r == JoinedRow(q, v.plans)
  {
    var i :| 0 <= i < |views| && AllJoined(views)[i] == t;
    var q := JoinedFrom(views[i], r);
    assert views[i] in views;
  }

  // Over tables that do not change, the pages spell out the list of everything
  // the caller may approve.
  lemma InboxIsListing(views: seq<View>, v: View, caller: Caller, s: Setting, limit: nat, walk: seq<Served<Entry>>)
    requires limit >= 1 && WellFormed(v.requests) && caller.canApprove && Unchanging(views, v)
    requires InboxWalk(views, caller, s, limit, None, walk)
    ensures s.fold(caller.name).Some?
    ensures RowsOf(walk) == Listed(Joined(v), PlaceLe, Shown(s.fold(caller.name).value, s.singleUser), None)
  {
    hide InboxWalk, Walk, PlaceLe, RowsOf, Listed, WellFormed;
    InboxWalkIsWalk(views, caller, s, limit, None, walk);
    JoinedUnchanging(views, v);
    JoinedWellFormed(v);
    WalkIsListing(AllJoined(views), Joined(v), Shown(s.fold(caller.name).value, s.singleUser), limit, walk);
  }

  lemma JoinedUnchanging(views: seq<View>, v: View)
    requires Unchanging(views, v)
    ensures Unchanging(AllJoined(views), Joined(v))
  {
    forall t | t in AllJoined(views) ensures t == Joined(v) {
      var i :| 0 <= i < |AllJoined(views)| && AllJoined(views)[i] == t;
      assert views[i] in views;
    }
  }

  ghost predicate Returned(walk: seq<Served<Entry>>, k: Cursor.Place) { exists r :: r in RowsOf(walk) && r.key == k }

  lemma ShownIffEligible(views: seq<View>, v: View, caller: Caller, s: Setting, limit: nat, walk: seq<Served<Entry>>,
                         q: Row<Cursor.Place, Ask>)
    requires limit >= 1 && WellFormed(v.requests) && caller.canApprove && q in v.requests && Unchanging(views, v)
    requires InboxWalk(views, caller, s, limit, None, walk)
    ensures s.fold(caller.name).Some?
    ensures Returned(walk, q.key) <==> Eligible(EntryOf(q.data, v.plans), s.fold(caller.name).value, s.singleUser)
  {
    hide InboxWalk, PlaceLe, Eligible, RowsOf;
    InboxIsListing(views, v, caller, s, limit, walk);
    var p, row := Shown(s.fold(caller.name).value, s.singleUser), JoinedRow(q, v.plans);
    ListedMembers(Joined(v), PlaceLe, p, None);
    JoinedHolds(v, q);
    JoinedWellFormed(v);
    assert Past(PlaceLe, p, None)(row) <==> p(row.data);
    forall r | r in RowsOf(walk) && r.key == q.key ensures r == row {
      SameKeySameRow(Joined(v), r, row);
    }
    if r :| r in RowsOf(walk) && r.key == q.key {
      assert r == row;
    }
  }

  // With every fold in place there is such a walk, and it ends.
  lemma InboxWalkEnds(v: View, caller: Caller, s: Setting, limit: nat)
    returns (views: seq<View>, walk: seq<Served<Entry>>)
    requires limit >= 1 && WellFormed(v.requests) && Backfilled(v.plans, s)
    requires caller.canApprove && s.fold(caller.name).Some?
    ensures Unchanging(views, v) && InboxWalk(views, caller, s, limit, None, walk)
    ensures forall i :: 0 <= i < |walk| - 1 ==> |walk[i].rows| == limit
  {
    hide PlaceLe, Listed, Backfilled;
    var p := Shown(s.fold(caller.name).value, s.singleUser);
    JoinedWellFormed(v);
    var tables;
    tables, walk := WalkEnds(Joined(v), p, limit, None);
    views := WalkIsInboxWalk(tables, v, caller, s, limit, None, walk);
  }

  lemma {:induction false} WalkIsInboxWalk(tables: seq<Table<Entry>>, v: View, caller: Caller, s: Setting, limit: nat,
                                           cursor: Option<Text>, walk: seq<Served<Entry>>)
    returns (views: seq<View>)
    requires limit >= 1 && Backfilled(v.plans, s) && caller.canApprove && s.fold(caller.name).Some?
    requires Unchanging(tables, Joined(v))
    requires Walk(tables, Shown(s.fold(caller.name).value, s.singleUser), limit, cursor, walk)
    ensures Unchanging(views, v) && InboxWalk(views, caller, s, limit, cursor, walk)
    decreases |walk|
  {
    hide InboxPage, Backfilled, Shown, KeysetPage, Joined;
    BackfilledServes(v, caller, s, limit, cursor);
    assert tables[0] in tables;
    if |walk| > 1 {
      assert forall t :: t in tables[1..] ==> t in tables;
      var later := WalkIsInboxWalk(tables[1..], v, caller, s, limit, walk[0].next, walk[1..]);
      views := [v] + later;
      assert views[1..] == later;
    } else {
      views := [v];
    }
  }

  // ---- Agreement with the decision -----------------------------------------

  function ProposalsOf(db: Plans.Db): Proposals {
    map id | id in db.plans :: Proposal(db.plans[id].proposedBy, Some(Identities.Fold(db.plans[id].proposedBy)))
  }

  function AskOf(r: Plans.Request): Ask { Ask(r.status == Requests.Pending, r.aboutPlan, r.subject) }

  // The view of a database whose requests were created at these places.
  ghost predicate ViewOf(db: Plans.Db, places: map<string, Cursor.Place>, v: View) {
    && v.plans == ProposalsOf(db) && WellFormed(v.requests) && places.Keys == db.requests.Keys
    && (forall id :: id in db.requests ==> Row(places[id], AskOf(db.requests[id])) in v.requests)
    && (forall r :: r in v.requests ==> exists id :: id in places && places[id] == r.key)
  }

  // The request `r` about a plan is in the database, created at `k`.
  ghost predicate PlanRequest(db: Plans.Db, places: map<string, Cursor.Place>, id: string, r: Plans.Request,
                              k: Cursor.Place)
  {
    id in db.requests && db.requests[id] == r && r.aboutPlan && id in places && places[id] == k
  }

  lemma EligibleIffApprovable(db: Plans.Db, e: Plans.Env, request: string, name: string)
    requires Plans.Inv(db, e) && request in db.requests && db.requests[request].aboutPlan
    requires Identities.IsHuman(name)
    ensures Eligible(EntryOf(AskOf(db.requests[request]), ProposalsOf(db)), Identities.Fold(name), e.singleUser)
            <==> Plans.DecideRefusal(db, e, db.requests[request].subject, true, name, None).None?
  {
    var r := db.requests[request];
    assert Plans.RequestOk(db, request);
    assert Plans.PlanOk(db, e, r.subject);
    Identities.HumanIsStripped(name);
  }

  // Walking the inbox, an approver is shown a plan's request exactly when
  // approving that plan, right now, would not be refused.
  lemma ShownIffApprovable(db: Plans.Db, e: Plans.Env, places: map<string, Cursor.Place>, views: seq<View>, v: View,
                           caller: Caller, s: Setting, limit: nat, walk: seq<Served<Entry>>, id: string,
                           r: Plans.Request, k: Cursor.Place)
    requires Plans.Inv(db, e) && ViewOf(db, places, v) && PlanRequest(db, places, id, r, k)
    requires caller.canApprove && Identities.IsHuman(caller.name)
    requires s.fold(caller.name) == Some(Identities.Fold(caller.name)) && s.singleUser == e.singleUser
    requires limit >= 1 && Unchanging(views, v) && InboxWalk(views, caller, s, limit, None, walk)
    ensures Returned(walk, k) <==> Plans.DecideRefusal(db, e, r.subject, true, caller.name, None).None?
  {
    hide Plans.Inv, InboxWalk, Plans.DecideRefusal, Eligible, EntryOf, AskOf, ProposalsOf, ViewOf, Returned;
    RequestIsEligible(db, e, places, id, r, k, caller.name);
    RequestIsReturned(db, places, views, v, caller, s, limit, walk, id, r, k);
  }

  lemma RequestIsEligible(db: Plans.Db, e: Plans.Env, places: map<string, Cursor.Place>, id: string, r: Plans.Request,
                          k: Cursor.Place, name: string)
    requires Plans.Inv(db, e) && PlanRequest(db, places, id, r, k) && Identities.IsHuman(name)
    ensures Eligible(EntryOf(AskOf(r), ProposalsOf(db)), Identities.Fold(name), e.singleUser)
            <==> Plans.DecideRefusal(db, e, r.subject, true, name, None).None?
  {
    hide Plans.Inv, Plans.DecideRefusal, Eligible, EntryOf, AskOf, ProposalsOf, Identities.IsHuman, Identities.Fold;
    EligibleIffApprovable(db, e, id, name);
  }

  lemma RequestIsReturned(db: Plans.Db, places: map<string, Cursor.Place>, views: seq<View>, v: View, caller: Caller,
                          s: Setting, limit: nat, walk: seq<Served<Entry>>, id: string, r: Plans.Request,
                          k: Cursor.Place)
    requires ViewOf(db, places, v) && PlanRequest(db, places, id, r, k) && caller.canApprove
    requires limit >= 1 && Unchanging(views, v) && InboxWalk(views, caller, s, limit, None, walk)
    ensures s.fold(caller.name).Some?
    ensures Returned(walk, k) <==>
              Eligible(EntryOf(AskOf(r), ProposalsOf(db)), s.fold(caller.name).value, s.singleUser)
  {
    hide InboxWalk, Eligible, EntryOf, AskOf, ProposalsOf, Returned, WellFormed;
    ShownIffEligible(views, v, caller, s, limit, walk, Row(k, AskOf(r)));
  }
}
