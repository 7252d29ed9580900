/** From an evaluation to a Task's verdict: the drift check, the acceptance gate
    and the hidden-oracle rule (sdf_core/acceptance.py, sdf_core/execution.py).
    Every stage may withdraw a PASS; none may create one. */
module Acceptance {
  import opened Results
  import opened Evaluation
  import opened Verdicts

  datatype Refusal = NotVerification | NotIndependent | NotBound | NoOracle | EmptyOracle | NoExpiry | Expired

  function CheckVerification(e: Evidence, agent: string, digest: string, now: int): Option<Refusal> {
    if e.evidenceClass != Some(Verification) then Some(NotVerification)
    else if e.verifier == None || e.verifier == Some("") || e.agentRole || e.verifier == Some(agent) then
      Some(NotIndependent)
    else if e.subject != Some(digest) then Some(NotBound)
    else if e.oracle == Missing || e.oracle == Blank then Some(NoOracle)
    else if e.oracle == OfNothing then Some(EmptyOracle)
    else if e.expiresAt == None then Some(NoExpiry)
    else if e.expiresAt.value <= now then Some(Expired)
    else None
  }

  // What a row must show to accept the artifact with this digest.
  ghost predicate Independent(e: Evidence, agent: string, digest: string) {
    && e.evidenceClass == Some(Verification)
    && e.verifier.Some? && e.verifier.value != "" && e.verifier.value != agent && !e.agentRole
    && e.subject == Some(digest)
    && e.oracle.Sealed?
  }

  // A row is refused unless it is independent, bound to the digest and unexpired;
  // the reason is the first that applies.
  lemma RefusalIs(e: Evidence, agent: string, digest: string, now: int)
    ensures CheckVerification(e, agent, digest, now) == None <==>
              Independent(e, agent, digest) && e.expiresAt.Some? && now < e.expiresAt.value
    ensures match CheckVerification(e, agent, digest, now)
            case None => true
            case Some(NotVerification) => e.evidenceClass != Some(Verification)
            case Some(NotIndependent) => e.verifier in {None, Some(""), Some(agent)} || e.agentRole
            case Some(NotBound) => e.subject != Some(digest)
            case Some(NoOracle) => e.oracle in {Missing, Blank} && e.subject == Some(digest)
            case Some(EmptyOracle) => e.oracle == OfNothing && e.subject == Some(digest)
            case Some(NoExpiry) => e.expiresAt == None && Independent(e, agent, digest)
            case Some(Expired) => e.expiresAt.Some? && e.expiresAt.value <= now && Independent(e, agent, digest)
  {
  }

  predicate IsHiddenOracle(e: Evidence) { e.heldOut || e.seeded }

  // The clock each time the gate reads it: once for every row, then once more
  // for every hidden row it looks at.
  datatype GateClock = GateClock(first: nat -> int, second: nat -> int)

  // ---- The stages ----------------------------------------------------------

  function Overall(previous: Verdict, rows: seq<Evidence>): Verdict {
    if HasStatus(rows, Fail) then Fail else if HasStatus(rows, Inconclusive) then Inconclusive else previous
  }

  // A row nobody observed inherits the final tree.
  function Redrift(rows: seq<Evidence>, finalTree: string, resultTree: Option<string>): (r: seq<Evidence>)
    ensures |r| == |rows|
  {
    seq(|rows|, i requires 0 <= i < |rows| =>
      if rows[i].treeAfter.Some? then rows[i] else DriftChecked(rows[i], finalTree, resultTree))
  }

  function DriftStage(v: Evaluated, finalTree: string, resultTree: Option<string>): Evaluated {
    var checked := Redrift(v.evidence, finalTree, resultTree);
    if checked != v.evidence then Evaluated(Overall(v.status, checked), checked) else v
  }

  function Gate(e: Evidence, agent: string, digest: string, now: int): Evidence {
    if e.evidenceClass == Some(Verification) && e.status == Pass && CheckVerification(e, agent, digest, now).Some?
    then e.(status := Inconclusive) else e
  }

  function Gated(rows: seq<Evidence>, agent: string, digest: string, c: GateClock): (r: seq<Evidence>)
    ensures |r| == |rows|
  {
    seq(|rows|, i requires 0 <= i < |rows| => Gate(rows[i], agent, digest, c.first(i)))
  }

  predicate HiddenAccepts(rows: seq<Evidence>, agent: string, digest: string, c: GateClock) {
    exists i :: 0 <= i < |rows| && rows[i].status == Pass && IsHiddenOracle(rows[i])
                && CheckVerification(rows[i], agent, digest, c.second(i)).None?
  }

  function AcceptanceStage(v: Evaluated, agent: string, digest: string, hidden: bool, c: GateClock): Evaluated {
    var rows := Gated(v.evidence, agent, digest, c);
    var status := Overall(v.status, rows);
    if hidden && !HiddenAccepts(rows, agent, digest, c) then
      Evaluated(if status == Pass then Inconclusive else status, rows)
    else if rows == v.evidence then v
    else Evaluated(status, rows)
  }

  predicate RequiresHidden(policies: map<(string, nat), Policy>) {
    exists key :: key in policies && (policies[key].heldOut || policies[key].randomized)
  }

  // Who produced the artifact, the tree after all checks, and the gate's clock.
  datatype Context = Context(agent: string, finalTree: string, clock: GateClock)

  function Stages(v: Evaluated, s: Subject, x: Context): Evaluated {
    AcceptanceStage(DriftStage(v, x.finalTree, s.resultTree), x.agent, s.diff, RequiresHidden(s.policies), x.clock)
  }

  ghost function Judged(q: Request, w: World, s: Subject, x: Context): Evaluated { Stages(Judgement(q, w, s), s, x) }

  // ---- No stage upgrades ---------------------------------------------------

  ghost predicate Downgraded(before: seq<Evidence>, after: seq<Evidence>) {
    && |after| == |before|
    && forall i :: 0 <= i < |before| ==>
         after[i].status == before[i].status || (before[i].status == Pass && after[i].status == Inconclusive)
  }

  lemma OverallOnlyFalls(previous: Verdict, rows: seq<Evidence>)
    ensures Overall(previous, rows) == Pass ==> previous == Pass && AllPass(rows)
    ensures SomeFail(rows) ==> Overall(previous, rows) == Fail
    ensures Overall(previous, rows) == Fail ==> previous == Fail || SomeFail(rows)
  {
    StatusesAre(rows);
  }

  lemma DriftDowngrades(rows: seq<Evidence>, finalTree: string, resultTree: Option<string>)
    ensures Downgraded(rows, Redrift(rows, finalTree, resultTree))
  {
  }

  lemma GateDowngrades(rows: seq<Evidence>, agent: string, digest: string, c: GateClock)
    ensures Downgraded(rows, Gated(rows, agent, digest, c))
  {
    var after := Gated(rows, agent, digest, c);
    forall i | 0 <= i < |rows|
      ensures after[i].status == rows[i].status || (rows[i].status == Pass && after[i].status == Inconclusive)
    {
      assert after[i] == Gate(rows[i], agent, digest, c.first(i));
    }
  }

  lemma DowngradesCompose(a: seq<Evidence>, b: seq<Evidence>, c: seq<Evidence>)
    requires Downgraded(a, b) && Downgraded(b, c)
    ensures Downgraded(a, c)
  {
    forall i | 0 <= i < |a| ensures c[i].status == a[i].status || (a[i].status == Pass && c[i].status == Inconclusive) {
      assert b[i].status == a[i].status || b[i].status == Inconclusive;
    }
  }

  lemma DriftNeverUpgrades(v: Evaluated, finalTree: string, resultTree: Option<string>)
    ensures var d := DriftStage(v, finalTree, resultTree);
            && Downgraded(v.evidence, d.evidence)
            && (d.status == Pass ==> v.status == Pass)
            && (v.status == Fail && SomeFail(v.evidence) ==> d.status == Fail)
            && (d.status == Fail ==> v.status == Fail || SomeFail(v.evidence))
  {
    var rows := Redrift(v.evidence, finalTree, resultTree);
    DriftDowngrades(v.evidence, finalTree, resultTree);
    OverallOnlyFalls(v.status, rows);
    FailsSurvive(v.evidence, rows);
  }

  lemma GateNeverUpgrades(v: Evaluated, agent: string, digest: string, hidden: bool, c: GateClock)
    ensures var d := AcceptanceStage(v, agent, digest, hidden, c);
            && Downgraded(v.evidence, d.evidence)
            && (d.status == Pass ==> v.status == Pass)
            && (v.status == Fail && SomeFail(v.evidence) ==> d.status == Fail)
            && (d.status == Fail ==> v.status == Fail || SomeFail(v.evidence))
  {
    var rows := Gated(v.evidence, agent, digest, c);
    GateDowngrades(v.evidence, agent, digest, c);
    OverallOnlyFalls(v.status, rows);
    FailsSurvive(v.evidence, rows);
  }

  // For the rows of any evaluator, not only the deterministic one.
  lemma StagesNeverUpgrade(v: Evaluated, s: Subject, x: Context)
    ensures Downgraded(v.evidence, Stages(v, s, x).evidence)
    ensures Stages(v, s, x).status == Pass ==> v.status == Pass
    ensures v.status == Fail && SomeFail(v.evidence) ==> Stages(v, s, x).status == Fail
    ensures Stages(v, s, x).status == Fail ==> v.status == Fail || SomeFail(v.evidence)
  {
    var d := DriftStage(v, x.finalTree, s.resultTree);
    var a := AcceptanceStage(d, x.agent, s.diff, RequiresHidden(s.policies), x.clock);
    DriftNeverUpgrades(v, x.finalTree, s.resultTree);
    GateNeverUpgrades(d, x.agent, s.diff, RequiresHidden(s.policies), x.clock);
    DowngradesCompose(v.evidence, d.evidence, a.evidence);
    FailsSurvive(v.evidence, d.evidence);
  }

  lemma FailsSurvive(before: seq<Evidence>, after: seq<Evidence>)
    requires Downgraded(before, after)
    ensures SomeFail(before) <==> SomeFail(after)
  {
    if SomeFail(before) {
      var i :| 0 <= i < |before| && before[i].status == Fail;
      assert after[i] in after;
    }
    if SomeFail(after) {
      var i :| 0 <= i < |after| && after[i].status == Fail;
      assert before[i] in before;
    }
  }

  // ---- What acceptance means -----------------------------------------------

  // The check of this job ran to a PASS that describes the result and that its
  // producer did not write.
  ghost predicate Proves(job: Job, n: nat, w: World, s: Subject, x: Context)
    requires n > 0
  {
    job.Check? &&
    var r := w.run(n, job.command);
    && r.Ran? && r.verdict == Pass
    && s.resultTree == Some(r.tree)
    && r.oracle.Sealed?
    && x.agent != EVALUATOR_IDENTITY
    && x.clock.first(n - 1) < r.at + VERIFICATION_TTL
  }

  // The check of this job could not be seen by the agent.
  ghost predicate Hidden(job: Job, n: nat, w: World, s: Subject) {
    job.Check? &&
    var p, r := PolicyOf(s, job.criterion, job.position), w.run(n, job.command);
    p.heldOut || r.heldOutTarget || (p.randomized && (r.Ran? || r.seedDrawn))
  }

  ghost predicate HiddenInTime(jobs: seq<Job>, w: World, s: Subject, x: Context) {
    exists i :: 0 <= i < |jobs| && HiddenJobAt(jobs[i], w, s, x, i)
  }

  // When the Task of this request is accepted.
  ghost predicate Accepts(q: Request, w: World, s: Subject, x: Context) {
    && (q.Strict() ==> q.Covered())
    && (forall i :: 0 <= i < |q.Jobs()| ==> Proves(q.Jobs()[i], i + 1, w, s, x))
    && (RequiresHidden(s.policies) ==> HiddenInTime(q.Jobs(), w, s, x))
  }

  function Drifted(job: Job, n: nat, w: World, s: Subject, x: Context): Evidence {
    var e := Row(job, n, w, s);
    if e.treeAfter.Some? then e else DriftChecked(e, x.finalTree, s.resultTree)
  }

  lemma RowVerdict(job: Job, n: nat, w: World, s: Subject, x: Context)
    requires n > 0
    ensures var e := Gate(Drifted(job, n, w, s, x), x.agent, s.diff, x.clock.first(n - 1));
            && (e.status == Pass <==> Proves(job, n, w, s, x))
            && (e.status == Pass ==>
                  && Independent(e, x.agent, s.diff)
                  && e.treeAfter == s.resultTree && e.criterion == job.criterion
                  && e.expiresAt == Some(w.run(n, job.command).at + VERIFICATION_TTL)
                  && (IsHiddenOracle(e) <==> Hidden(job, n, w, s)))
  {
  }

  // The rows after both stages, job by job.
  lemma JudgedRows(q: Request, w: World, s: Subject, x: Context)
    ensures |Judged(q, w, s, x).evidence| == |q.Jobs()|
    ensures forall i :: 0 <= i < |q.Jobs()| ==>
              Judged(q, w, s, x).evidence[i]
              == Gate(Drifted(q.Jobs()[i], i + 1, w, s, x), x.agent, s.diff, x.clock.first(i))
  {
  }

  lemma PassMeansProved(q: Request, w: World, s: Subject, x: Context)
    ensures AllPass(Judged(q, w, s, x).evidence) <==>
              forall i :: 0 <= i < |q.Jobs()| ==> Proves(q.Jobs()[i], i + 1, w, s, x)
  {
    var rows, jobs := Judged(q, w, s, x).evidence, q.Jobs();
    JudgedRows(q, w, s, x);
    forall i | 0 <= i < |jobs| ensures rows[i].status == Pass <==> Proves(jobs[i], i + 1, w, s, x) {
      RowVerdict(jobs[i], i + 1, w, s, x);
    }
    forall i | 0 <= i < |jobs| && AllPass(rows) ensures Proves(jobs[i], i + 1, w, s, x) {
      assert rows[i] in rows;
    }
  }

  // The row accepts as a hidden oracle the second time the gate looks.
  ghost predicate HiddenRowAt(e: Evidence, x: Context, s: Subject, i: nat) {
    e.status == Pass && IsHiddenOracle(e) && CheckVerification(e, x.agent, s.diff, x.clock.second(i)).None?
  }

  ghost predicate HiddenJobAt(job: Job, w: World, s: Subject, x: Context, i: nat) {
    Hidden(job, i + 1, w, s) && x.clock.second(i) < w.run(i + 1, job.command).at + VERIFICATION_TTL
  }

  lemma HiddenRow(job: Job, i: nat, w: World, s: Subject, x: Context)
    ensures HiddenRowAt(Gate(Drifted(job, i + 1, w, s, x), x.agent, s.diff, x.clock.first(i)), x, s, i)
            <==> Proves(job, i + 1, w, s, x) && HiddenJobAt(job, w, s, x, i)
  {
    RowVerdict(job, i + 1, w, s, x);
  }

  // The hidden-oracle rule passes exactly when some hidden check proved its part
  // and is still unexpired when the rule looks at it.
  lemma HiddenMeansHidden(q: Request, w: World, s: Subject, x: Context)
    ensures HiddenAccepts(Judged(q, w, s, x).evidence, x.agent, s.diff, x.clock) <==>
              exists i :: 0 <= i < |q.Jobs()| && Proves(q.Jobs()[i], i + 1, w, s, x)
                          && HiddenJobAt(q.Jobs()[i], w, s, x, i)
  {
    JudgedRows(q, w, s, x);
    HiddenRows(Judged(q, w, s, x).evidence, q.Jobs(), w, s, x);
  }

  lemma HiddenRows(rows: seq<Evidence>, jobs: seq<Job>, w: World, s: Subject, x: Context)
    requires |rows| == |jobs|
    requires forall i :: 0 <= i < |jobs| ==>
               rows[i] == Gate(Drifted(jobs[i], i + 1, w, s, x), x.agent, s.diff, x.clock.first(i))
    ensures HiddenAccepts(rows, x.agent, s.diff, x.clock) <==>
              exists i :: 0 <= i < |jobs| && Proves(jobs[i], i + 1, w, s, x) && HiddenJobAt(jobs[i], w, s, x, i)
  {
    forall i | 0 <= i < |jobs|
      ensures HiddenRowAt(rows[i], x, s, i) <==> Proves(jobs[i], i + 1, w, s, x) && HiddenJobAt(jobs[i], w, s, x, i)
    {
      HiddenRow(jobs[i], i, w, s, x);
    }
    HiddenRowsAt(rows, s, x);
    if i: nat :| i < |rows| && HiddenRowAt(rows[i], x, s, i) {
      assert Proves(jobs[i], i + 1, w, s, x) && HiddenJobAt(jobs[i], w, s, x, i);
    }
  }

  lemma HiddenRowsAt(rows: seq<Evidence>, s: Subject, x: Context)
    ensures HiddenAccepts(rows, x.agent, s.diff, x.clock) <==>
              exists i: nat :: i < |rows| && HiddenRowAt(rows[i], x, s, i)
  {
    if HiddenAccepts(rows, x.agent, s.diff, x.clock) {
      var i :| 0 <= i < |rows| && rows[i].status == Pass && IsHiddenOracle(rows[i])
               && CheckVerification(rows[i], x.agent, s.diff, x.clock.second(i)).None?;
      assert HiddenRowAt(rows[i], x, s, i);
    }
  }

  // An overall status that its rows bear out.
  ghost predicate Consistent(v: Evaluated) {
    (v.status == Fail <==> SomeFail(v.evidence)) && (v.status == Pass ==> AllPass(v.evidence))
  }

  lemma DriftPass(v: Evaluated, finalTree: string, resultTree: Option<string>)
    requires Consistent(v)
    ensures var d := DriftStage(v, finalTree, resultTree);
            Consistent(d) && (d.status == Pass <==> v.status == Pass && AllPass(d.evidence))
  {
    var rows := Redrift(v.evidence, finalTree, resultTree);
    StatusesAre(rows);
    DriftDowngrades(v.evidence, finalTree, resultTree);
    FailsSurvive(v.evidence, rows);
  }

  lemma AcceptancePass(v: Evaluated, agent: string, digest: string, hidden: bool, c: GateClock)
    requires Consistent(v)
    ensures var a := AcceptanceStage(v, agent, digest, hidden, c);
            a.status == Pass <==> v.status == Pass && AllPass(a.evidence)
                                  && (hidden ==> HiddenAccepts(a.evidence, agent, digest, c))
  {
    StatusesAre(Gated(v.evidence, agent, digest, c));
  }

  lemma StagesPass(v: Evaluated, s: Subject, x: Context)
    requires Consistent(v)
    ensures var j := Stages(v, s, x);
            j.status == Pass <==>
              v.status == Pass && AllPass(j.evidence)
              && (RequiresHidden(s.policies) ==> HiddenAccepts(j.evidence, x.agent, s.diff, x.clock))
  {
    var d := DriftStage(v, x.finalTree, s.resultTree);
    DriftPass(v, x.finalTree, s.resultTree);
    AcceptancePass(d, x.agent, s.diff, RequiresHidden(s.policies), x.clock);
    GateDowngrades(d.evidence, x.agent, s.diff, x.clock);
    if AllPass(Gated(d.evidence, x.agent, s.diff, x.clock)) {
      PassesSurvive(d.evidence, Gated(d.evidence, x.agent, s.diff, x.clock));
    }
  }

  lemma PassesSurvive(before: seq<Evidence>, after: seq<Evidence>)
    requires Downgraded(before, after) && AllPass(after)
    ensures AllPass(before)
  {
    forall e | e in before ensures e.status == Pass {
      var i :| 0 <= i < |before| && before[i] == e;
      assert after[i] in after;
    }
  }

  // The verdict is PASS exactly when every criterion is covered, nothing
  // undeclared is certified, every check proved its part, and a declared hidden
  // oracle was among them.
  lemma PassIffAccepts(q: Request, w: World, s: Subject, x: Context)
    ensures Judged(q, w, s, x).status == Pass <==> Accepts(q, w, s, x)
  {
    var v := Judgement(q, w, s);
    StatusesAre(v.evidence);
    StagesPass(v, s, x);
    StagesNeverUpgrade(v, s, x);
    PassMeansProved(q, w, s, x);
    var j := Judged(q, w, s, x);
    if AllPass(j.evidence) {
      HiddenMeansHidden(q, w, s, x);
      PassesSurvive(v.evidence, j.evidence);
    }
  }

  ghost predicate FailedAt(job: Job, n: nat, w: World) {
    job.Check? && w.run(n, job.command).Ran? && w.run(n, job.command).verdict == Fail
  }

  lemma RowFails(job: Job, n: nat, w: World, s: Subject)
    ensures Row(job, n, w, s).status == Fail <==> FailedAt(job, n, w)
  {
  }

  lemma RowsFail(jobs: seq<Job>, w: World, s: Subject)
    ensures SomeFail(Rows(jobs, w, s)) <==> exists i :: 0 <= i < |jobs| && FailedAt(jobs[i], i + 1, w)
  {
    var rows := Rows(jobs, w, s);
    if SomeFail(rows) {
      var i :| 0 <= i < |rows| && rows[i].status == Fail;
      RowFails(jobs[i], i + 1, w, s);
    }
    if i :| 0 <= i < |jobs| && FailedAt(jobs[i], i + 1, w) {
      RowFails(jobs[i], i + 1, w, s);
      assert rows[i] in rows;
    }
  }

  // The verdict is FAIL exactly when some check ran and failed, whatever else
  // is missing, stale or drifted.
  lemma FailIffACheckFailed(q: Request, w: World, s: Subject, x: Context)
    ensures Judged(q, w, s, x).status == Fail <==>
              exists i :: 0 <= i < |q.Jobs()| && FailedAt(q.Jobs()[i], i + 1, w)
  {
    StagesNeverUpgrade(Judgement(q, w, s), s, x);
    RowsFail(q.Jobs(), w, s);
  }

  // The stored rows of an accepted Task, as an auditor reads them back: bound to
  // this diff, taken on this result tree, and with a hidden oracle if one was
  // declared.
  ghost predicate Accepting(rows: seq<Evidence>, criteria: seq<string>, agent: string, digest: string,
                            tree: Option<string>, hidden: bool)
  {
    && rows != [] && AllPass(rows) && tree.Some?
    && (forall e :: e in rows ==> AcceptingRow(e, criteria, agent, digest, tree))
    && (forall c :: c in criteria ==> exists e :: e in rows && e.criterion == Some(c))
    && (hidden ==> exists e :: e in rows && IsHiddenOracle(e))
  }

  ghost predicate AcceptingRow(e: Evidence, criteria: seq<string>, agent: string, digest: string,
                               tree: Option<string>)
  {
    Independent(e, agent, digest) && e.treeAfter == tree && e.criterion.Some? && e.criterion.value in criteria
  }

  lemma {:induction false} DeclaredJobs(criteria: seq<string>, checks: seq<Mapping>)
    ensures forall j :: j in Declared(criteria, checks) ==> j.criterion.Some? && j.criterion.value in criteria
    ensures forall c :: c in criteria ==> exists j :: j in Declared(criteria, checks) && j.criterion == Some(c)
  {
    if criteria != [] {
      var n := |criteria| - 1;
      var jobs := CriterionJobs(criteria[n], Mapped(checks, criteria[n]));
      var all := Declared(criteria, checks);
      DeclaredJobs(criteria[..n], checks);
      assert all == Declared(criteria[..n], checks) + jobs;
      forall j | j in all ensures j.criterion.Some? && j.criterion.value in criteria {
        assert j in jobs ==> j.criterion == Some(criteria[n]);
      }
      forall c | c in criteria ensures exists j :: j in all && j.criterion == Some(c) {
        if c == criteria[n] {
          assert jobs[0] in all;
        } else {
          assert c in criteria[..n];
          var j :| j in Declared(criteria[..n], checks) && j.criterion == Some(c);
          assert j in all;
        }
      }
    }
  }

  lemma {:induction false} UndeclaredEmpty(criteria: seq<string>, checks: seq<Mapping>)
    requires forall m :: m in checks ==> m.criterion in criteria
    ensures Undeclared(criteria, checks) == []
    decreases |checks|
  {
    if checks != [] {
      UndeclaredEmpty(criteria, checks[..|checks| - 1]);
    }
  }

  lemma AcceptedJobs(q: Request)
    requires q.criteria.Some? && q.Covered()
    ensures q.checks.Some? && q.Jobs() == Declared(q.criteria.value, q.Mappings()) && q.Jobs() != []
  {
    assert q.criteria.value[0] in q.criteria.value;
    UndeclaredEmpty(q.criteria.value, q.Mappings());
    assert Mapped(q.Mappings(), q.criteria.value[0]) != [];
    DeclaredJobs(q.criteria.value, q.Mappings());
  }

  // A Task with declared criteria can only be accepted by mapped checks, so
  // its rows are exactly those of its criteria.
  lemma AcceptedRows(q: Request, w: World, s: Subject, x: Context)
    requires q.criteria.Some? && Judged(q, w, s, x).status == Pass
    ensures Accepting(Judged(q, w, s, x).evidence, q.criteria.value, x.agent, s.diff, s.resultTree,
                      RequiresHidden(s.policies))
    ensures q.checks.Some?
  {
    var rows := Judged(q, w, s, x).evidence;
    PassIffAccepts(q, w, s, x);
    JudgedRows(q, w, s, x);
    AcceptedJobs(q);
    RowsProven(rows, q.Jobs(), w, s, x);
    DeclaredJobs(q.criteria.value, q.Mappings());
    CriteriaOfRows(rows, q.Jobs(), q.criteria.value, x.agent, s.diff, s.resultTree);
    HiddenRowKept(rows, q.Jobs(), w, s, x);
  }

  lemma HiddenRowKept(rows: seq<Evidence>, jobs: seq<Job>, w: World, s: Subject, x: Context)
    requires |rows| == |jobs|
    requires forall i :: 0 <= i < |jobs| ==> Proves(jobs[i], i + 1, w, s, x)
    requires forall i :: 0 <= i < |jobs| ==>
               rows[i] == Gate(Drifted(jobs[i], i + 1, w, s, x), x.agent, s.diff, x.clock.first(i))
    ensures HiddenInTime(jobs, w, s, x) ==> exists e :: e in rows && IsHiddenOracle(e)
  {
    if HiddenInTime(jobs, w, s, x) {
      var i :| 0 <= i < |jobs| && HiddenJobAt(jobs[i], w, s, x, i);
      RowVerdict(jobs[i], i + 1, w, s, x);
      assert rows[i] in rows;
    }
  }

  lemma RowsProven(rows: seq<Evidence>, jobs: seq<Job>, w: World, s: Subject, x: Context)
    requires |rows| == |jobs|
    requires forall i :: 0 <= i < |jobs| ==> Proves(jobs[i], i + 1, w, s, x)
    requires forall i :: 0 <= i < |jobs| ==>
               rows[i] == Gate(Drifted(jobs[i], i + 1, w, s, x), x.agent, s.diff, x.clock.first(i))
    ensures forall i :: 0 <= i < |rows| ==>
              rows[i].status == Pass && Independent(rows[i], x.agent, s.diff) && rows[i].criterion == jobs[i].criterion
    ensures forall i :: 0 <= i < |rows| ==> rows[i].treeAfter == s.resultTree && s.resultTree.Some?
  {
    forall i | 0 <= i < |rows|
      ensures rows[i].status == Pass && Independent(rows[i], x.agent, s.diff) && rows[i].criterion == jobs[i].criterion
      ensures rows[i].treeAfter == s.resultTree && s.resultTree.Some?
    {
      RowProven(rows[i], jobs[i], i, w, s, x);
    }
  }

  lemma RowProven(row: Evidence, job: Job, i: nat, w: World, s: Subject, x: Context)
    requires Proves(job, i + 1, w, s, x)
    requires row == Gate(Drifted(job, i + 1, w, s, x), x.agent, s.diff, x.clock.first(i))
    ensures row.status == Pass && Independent(row, x.agent, s.diff) && row.criterion == job.criterion
    ensures row.treeAfter == s.resultTree && s.resultTree.Some?
  {
    RowVerdict(job, i + 1, w, s, x);
  }

  lemma CriteriaOfRows(rows: seq<Evidence>, jobs: seq<Job>, criteria: seq<string>, agent: string, digest: string,
                       tree: Option<string>)
    requires |rows| == |jobs| && criteria != []
    requires forall i :: 0 <= i < |rows| ==>
               rows[i].status == Pass && Independent(rows[i], agent, digest) && rows[i].criterion == jobs[i].criterion
    requires forall i :: 0 <= i < |rows| ==> rows[i].treeAfter == tree && tree.Some?
    requires forall j :: j in jobs ==> j.criterion.Some? && j.criterion.value in criteria
    requires forall c :: c in criteria ==> exists j :: j in jobs && j.criterion == Some(c)
    ensures Accepting(rows, criteria, agent, digest, tree, false)
  {
    forall c | c in criteria ensures exists e :: e in rows && e.criterion == Some(c) {
      var j :| j in jobs && j.criterion == Some(c);
      var i :| 0 <= i < |jobs| && jobs[i] == j;
      assert rows[i] in rows;
    }
    assert criteria[0] in criteria;
    forall e | e in rows ensures e.status == Pass && AcceptingRow(e, criteria, agent, digest, tree) {
      var i :| 0 <= i < |rows| && rows[i] == e;
      assert jobs[i] in jobs;
    }
  }

  // A hidden policy that no planned check carries makes the Task unacceptable:
  // the requirement is read from the policies, the proof from the rows.
  lemma MisplacedPolicyNeverAccepts(q: Request, w: World, s: Subject, x: Context)
    requires RequiresHidden(s.policies)
    requires forall i :: 0 <= i < |q.Jobs()| && q.Jobs()[i].Check? ==>
               && PolicyOf(s, q.Jobs()[i].criterion, q.Jobs()[i].position) == Policy(false, false)
               && !w.run(i + 1, q.Jobs()[i].command).heldOutTarget
    ensures Judged(q, w, s, x).status != Pass
  {
    PassIffAccepts(q, w, s, x);
    assert forall i :: 0 <= i < |q.Jobs()| ==> !HiddenJobAt(q.Jobs()[i], w, s, x, i);
  }

  // No check names a file of the held-out tree, whatever it comes to.
  ghost predicate NamesNoHeldOut(q: Request, w: World) {
    forall i :: 0 <= i < |q.Jobs()| && q.Jobs()[i].Check? ==> !w.run(i + 1, q.Jobs()[i].command).heldOutTarget
  }

  // A planned check carries a hidden policy.
  predicate HiddenPlanned(jobs: seq<Job>, s: Subject) {
    exists i :: 0 <= i < |jobs| && jobs[i].Check?
                && PolicyOf(s, jobs[i].criterion, jobs[i].position) != Policy(false, false)
  }

  ghost predicate AcceptedBy(q: Request, s: Subject, agent: string, w: World, x: Context) {
    x.agent == agent && NamesNoHeldOut(q, w) && Judged(q, w, s, x).status == Pass
  }

  lemma {:induction false} DeclaredAreChecks(criteria: seq<string>, checks: seq<Mapping>)
    requires forall c :: c in criteria ==> Mapped(checks, c) != []
    ensures forall j :: j in Declared(criteria, checks) ==> j.Check?
  {
    if criteria != [] {
      var n := |criteria| - 1;
      DeclaredAreChecks(criteria[..n], checks);
      assert criteria[n] in criteria;
    }
  }

  // Every check passes at time 0 on the result tree.
  function Fortunate(tree: string): World {
    World((n: nat, c: Command) => Ran(Pass, Sealed("oracle"), false, 0, tree), (n: nat) => 0)
  }

  function AtZero(agent: string): Context { Context(agent, "", GateClock((i: nat) => 0, (i: nat) => 0)) }

  lemma FortunateAccepts(q: Request, s: Subject, agent: string)
    requires q.criteria.Some? && q.Covered() && s.resultTree.Some? && agent != EVALUATOR_IDENTITY
    requires RequiresHidden(s.policies) ==> HiddenPlanned(q.Jobs(), s)
    ensures AcceptedBy(q, s, agent, Fortunate(s.resultTree.value), AtZero(agent))
  {
    var w, x, jobs := Fortunate(s.resultTree.value), AtZero(agent), q.Jobs();
    AcceptedJobs(q);
    DeclaredAreChecks(q.criteria.value, q.Mappings());
    forall i | 0 <= i < |jobs| ensures Proves(jobs[i], i + 1, w, s, x) {
      assert jobs[i] in jobs;
    }
    if HiddenPlanned(jobs, s) {
      var i :| 0 <= i < |jobs| && jobs[i].Check?
               && PolicyOf(s, jobs[i].criterion, jobs[i].position) != Policy(false, false);
      assert HiddenJobAt(jobs[i], w, s, x, i);
    }
    PassIffAccepts(q, w, s, x);
  }

  // A Task whose checks name no held-out file can be accepted, in some course of
  // events, exactly when its criteria are covered, its result has a tree, its
  // agent is not the evaluator, and a hidden oracle, if any policy asks for one,
  // is asked for at the position of a planned check.
  lemma AcceptableIff(q: Request, s: Subject, agent: string)
    requires q.criteria.Some?
    ensures (exists w, x :: AcceptedBy(q, s, agent, w, x)) <==>
              && q.Covered() && s.resultTree.Some? && agent != EVALUATOR_IDENTITY
              && (RequiresHidden(s.policies) ==> HiddenPlanned(q.Jobs(), s))
  {
    forall w, x | AcceptedBy(q, s, agent, w, x)
      ensures && q.Covered() && s.resultTree.Some? && agent != EVALUATOR_IDENTITY
              && (RequiresHidden(s.policies) ==> HiddenPlanned(q.Jobs(), s))
    {
      PassIffAccepts(q, w, s, x);
      AcceptedJobs(q);
      assert Proves(q.Jobs()[0], 0 + 1, w, s, x);
      if RequiresHidden(s.policies) {
        var i :| 0 <= i < |q.Jobs()| && HiddenJobAt(q.Jobs()[i], w, s, x, i);
        assert Hidden(q.Jobs()[i], i + 1, w, s);
      }
    }
    if && q.Covered() && s.resultTree.Some? && agent != EVALUATOR_IDENTITY
       && (RequiresHidden(s.policies) ==> HiddenPlanned(q.Jobs(), s))
    {
      FortunateAccepts(q, s, agent);
    }
  }
}
