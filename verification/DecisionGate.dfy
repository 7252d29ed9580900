/** The material decision gate: which pending requests block which Task
    (sdf_core/decision_gate.py), and its agreement with the poll loop. */
module DecisionGate {
  import opened Results
  import opened Orders
  import opened Requests
  import opened RunState

  // `aboutPlan` separates plan approvals from agent requests.
  datatype Request = Request(
    id: nat, aboutPlan: bool, message: Option<nat>, run: Option<nat>, requestedBy: nat,
    status: RequestStatus, createdAt: int)

  datatype Member = Member(worker: bool, subtask: Option<nat>)

  datatype Link = Link(plan: nat, subtask: nat)

  // `material[m]` is the append-only classification of message `m`.
  datatype Rows = Rows(
    requests: seq<Request>, material: map<nat, bool>, members: map<(nat, nat), Member>,
    planOfRun: map<nat, nat>, links: map<nat, Link>)

  predicate IsMaterial(db: Rows, r: Request) { Material(r.aboutPlan, r.message, db.material) }

  // A worker's request blocks its own subtask; anybody else's the whole run.
  function ScopeOf(db: Rows, r: Request): Scope {
    if r.run.Some? && (r.run.value, r.requestedBy) in db.members then
      var m := db.members[(r.run.value, r.requestedBy)];
      if m.worker && m.subtask.Some? then SubtaskScope(m.subtask.value) else RunScope
    else RunScope
  }

  predicate Blocking(db: Rows, r: Request, runs: set<nat>) {
    r.status == Pending && IsMaterial(db, r) && r.run.Some? && r.run.value in runs
  }

  function Entry(db: Rows, r: Request): MaterialRequest {
    MaterialRequest(r.id, r.requestedBy, ScopeOf(db, r))
  }

  predicate Older(a: Request, b: Request) { a.createdAt <= b.createdAt }

  function BlockingIn(db: Rows, runs: set<nat>): Request -> bool { (r: Request) => Blocking(db, r, runs) }

  // The blocking requests of these runs, oldest first.
  function Queue(db: Rows, runs: set<nat>): seq<Request> { Filter(Sort(db.requests, Older), BlockingIn(db, runs)) }

  function Entries(db: Rows, rows: seq<Request>): (r: seq<MaterialRequest>)
    ensures |r| == |rows| && forall i :: 0 <= i < |rows| ==> r[i] == Entry(db, rows[i])
  {
    seq(|rows|, i requires 0 <= i < |rows| => Entry(db, rows[i]))
  }

  lemma OlderIsPreorder()
    ensures Preorder(Older)
  {
  }

  lemma QueueIsOldestFirst(db: Rows, runs: set<nat>)
    ensures SortedBy(Queue(db, runs), Older)
    ensures multiset(Queue(db, runs)) == multiset(Filter(db.requests, BlockingIn(db, runs)))
    ensures forall r :: r in Queue(db, runs) <==> r in db.requests && Blocking(db, r, runs)
  {
    OlderIsPreorder();
    SortSorts(db.requests, Older);
    SortPermutes(db.requests, Older);
    FilterKeepsOrder(Sort(db.requests, Older), BlockingIn(db, runs), Older);
    FilterPermutes(Sort(db.requests, Older), db.requests, BlockingIn(db, runs));
    FilterMembers(Sort(db.requests, Older), BlockingIn(db, runs));
  }

  lemma EntriesMembers(db: Rows, runs: set<nat>)
    ensures forall g :: g in Entries(db, Queue(db, runs)) <==>
              exists r :: r in db.requests && Blocking(db, r, runs) && g == Entry(db, r)
  {
    var queue := Queue(db, runs);
    var entries := Entries(db, queue);
    QueueIsOldestFirst(db, runs);
    forall g | g in entries ensures exists r :: r in db.requests && Blocking(db, r, runs) && g == Entry(db, r) {
      var i :| 0 <= i < |entries| && entries[i] == g;
      assert queue[i] in queue;
    }
    forall r | r in db.requests && Blocking(db, r, runs) ensures Entry(db, r) in entries {
      var i :| 0 <= i < |queue| && queue[i] == r;
      assert entries[i] == Entry(db, r);
    }
  }

  lemma FilterNext(rows: seq<Request>, p: Request -> bool, i: nat)
    requires i < |rows|
    ensures Filter(rows[..i + 1], p) == Filter(rows[..i], p) + if p(rows[i]) then [rows[i]] else []
  {
    assert rows[..i + 1] == rows[..i] + [rows[i]];
    FilterConcat(rows[..i], [rows[i]], p);
  }

  // One entry for every blocking request, oldest first.
  method PendingMaterial(db: Rows, runs: set<nat>) returns (found: seq<MaterialRequest>)
    ensures found == Entries(db, Queue(db, runs))
    ensures forall g :: g in found <==> exists r :: r in db.requests && Blocking(db, r, runs) && g == Entry(db, r)
  {
    found := [];
    var rows := Sort(db.requests, Older);
    ghost var p := BlockingIn(db, runs);
    for i := 0 to |rows|
      invariant found == Entries(db, Filter(rows[..i], p))
    {
      FilterNext(rows, p, i);
      if rows[i].status == Pending && rows[i].run.Some? && rows[i].run.value in runs {
        if IsMaterial(db, rows[i]) {
          found := found + [Entry(db, rows[i])];
        }
      }
    }
    assert rows[..|rows|] == rows;
    EntriesMembers(db, runs);
  }

  function RunsOfPlan(db: Rows, plan: nat): set<nat> { set run | run in db.planOfRun && db.planOfRun[run] == plan }

  predicate Covers(db: Rows, r: Request, subtask: nat) {
    ScopeOf(db, r) == RunScope || ScopeOf(db, r) == SubtaskScope(subtask)
  }

  // Some pending material request of one of these runs covers the subtask.
  ghost predicate Blocked(db: Rows, runs: set<nat>, subtask: nat) {
    exists r :: r in db.requests && Blocking(db, r, runs) && Covers(db, r, subtask)
  }

  // The oldest request that covers the subtask has this id.
  ghost predicate OldestCovering(db: Rows, runs: set<nat>, subtask: nat, id: nat) {
    var queue := Queue(db, runs);
    exists i :: 0 <= i < |queue| && queue[i].id == id && Covers(db, queue[i], subtask)
                && forall j :: 0 <= j < i ==> !Covers(db, queue[j], subtask)
  }

  lemma UncoveredIsUnblocked(db: Rows, runs: set<nat>, subtask: nat)
    requires forall j :: 0 <= j < |Queue(db, runs)| ==> !Covers(db, Queue(db, runs)[j], subtask)
    ensures !Blocked(db, runs, subtask)
  {
    QueueIsOldestFirst(db, runs);
  }

  // A pending request of a run of the plan, material by the record of its
  // message, from the worker of the subtask or from nobody's worker.
  ghost predicate HoldsBack(db: Rows, r: Request, plan: nat, subtask: nat) {
    && r.status == Pending && !r.aboutPlan && r.run.Some?
    && r.message.Some? && r.message.value in db.material && db.material[r.message.value]
    && r.run.value in db.planOfRun && db.planOfRun[r.run.value] == plan
    && var sender := (r.run.value, r.requestedBy);
       if sender in db.members && db.members[sender].worker && db.members[sender].subtask.Some?
       then db.members[sender].subtask == Some(subtask) else true
  }

  lemma BlockedIs(db: Rows, plan: nat, subtask: nat)
    ensures Blocked(db, RunsOfPlan(db, plan), subtask) <==>
              exists r :: r in db.requests && HoldsBack(db, r, plan, subtask)
  {
    forall r | r in db.requests
      ensures HoldsBack(db, r, plan, subtask) <==> Blocking(db, r, RunsOfPlan(db, plan)) && Covers(db, r, subtask)
    {
    }
  }

  // `refused` names the oldest request that blocks the Task.
  method CheckDecisionGate(db: Rows, task: nat) returns (refused: Option<nat>)
    ensures refused.Some? <==>
              task in db.links && Blocked(db, RunsOfPlan(db, db.links[task].plan), db.links[task].subtask)
    ensures refused.Some? <==>
              && task in db.links
              && exists r :: r in db.requests && HoldsBack(db, r, db.links[task].plan, db.links[task].subtask)
    ensures refused.Some? ==>
              OldestCovering(db, RunsOfPlan(db, db.links[task].plan), db.links[task].subtask, refused.value)
  {
    if task !in db.links { return None; }
    var link := db.links[task];
    BlockedIs(db, link.plan, link.subtask);
    var runs := RunsOfPlan(db, link.plan);
    ghost var queue := Queue(db, runs);
    var pending := PendingMaterial(db, runs);
    QueueIsOldestFirst(db, runs);
    for i := 0 to |pending|
      invariant forall j :: 0 <= j < i ==> !Covers(db, queue[j], link.subtask)
    {
      assert pending[i] == Entry(db, queue[i]);
      if pending[i].scope == RunScope || pending[i].scope == SubtaskScope(link.subtask) {
        assert queue[i] in queue;
        return Some(pending[i].id);
      }
    }
    UncoveredIsUnblocked(db, runs, link.subtask);
    return None;
  }

  // The poll loop, which asks about its own run only, calls a subtask blocked
  // exactly when the service-wide gate would refuse it on that run's requests.
  lemma PollGateAgrees(db: Rows, run: nat, gate: seq<MaterialRequest>, subtask: nat)
    requires forall g :: g in gate <==> exists r :: r in db.requests && Blocking(db, r, {run}) && g == Entry(db, r)
    ensures SubtaskBlocked(gate, subtask) <==> Blocked(db, {run}, subtask)
  {
    if Blocked(db, {run}, subtask) {
      var r :| r in db.requests && Blocking(db, r, {run}) && Covers(db, r, subtask);
      assert Entry(db, r) in gate;
    }
  }

  // A Task of the plan is refused if any of the plan's runs waits on it, so the
  // loop never starts work that the service would refuse for its own run.
  lemma OwnRunBlocksTask(db: Rows, run: nat, task: nat)
    requires task in db.links && run in RunsOfPlan(db, db.links[task].plan)
    requires Blocked(db, {run}, db.links[task].subtask)
    ensures Blocked(db, RunsOfPlan(db, db.links[task].plan), db.links[task].subtask)
  {
    var runs, key := RunsOfPlan(db, db.links[task].plan), db.links[task].subtask;
    var r :| r in db.requests && Blocking(db, r, {run}) && Covers(db, r, key);
    assert Blocking(db, r, runs);
  }

  // A run waits on the lead, or on an unknown sender, with all its subtasks.
  lemma NonWorkerBlocksEverything(db: Rows, run: nat, r: Request, subtask: nat)
    requires r in db.requests && Blocking(db, r, {run})
    requires (run, r.requestedBy) in db.members ==> !db.members[(run, r.requestedBy)].worker
    ensures Blocked(db, {run}, subtask)
  {
    assert ScopeOf(db, r) == RunScope;
  }

  // Answering a request can only unblock, and unblocks what it alone blocked.
  lemma ResolutionLifts(db: Rows, i: nat, status: RequestStatus, run: nat, subtask: nat)
    requires i < |db.requests| && status != Pending
    requires forall j :: 0 <= j < |db.requests| && j != i && Blocking(db, db.requests[j], {run}) ==>
               !Covers(db, db.requests[j], subtask)
    ensures !Blocked(db.(requests := db.requests[i := db.requests[i].(status := status)]), {run}, subtask)
  {
    var after := db.(requests := db.requests[i := db.requests[i].(status := status)]);
    forall r | r in after.requests && Blocking(after, r, {run}) ensures !Covers(after, r, subtask) {
      var j :| 0 <= j < |after.requests| && after.requests[j] == r;
      assert j != i;
      assert Blocking(db, db.requests[j], {run}) && ScopeOf(db, db.requests[j]) == ScopeOf(after, r);
    }
  }
}
