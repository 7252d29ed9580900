/** The deterministic evaluator: which checks run for a Task's criteria, in what
    order, and what their Evidence adds up to (sdf_core/evaluator.py). */
module Evaluation {
  import opened Results
  import opened Verdicts

  datatype EvidenceClass = Execution | Verification | Outcome

  // `Blank` is a digest of white space only, `OfNothing` the digest of no bytes.
  datatype OracleDigest = Missing | Blank | OfNothing | Sealed(digest: string)

  datatype Evidence = Evidence(
    number: nat, criterion: Option<string>, status: Verdict, evidenceClass: Option<EvidenceClass>,
    verifier: Option<string>, agentRole: bool, subject: Option<string>, oracle: OracleDigest,
    expiresAt: Option<int>, treeAfter: Option<string>, heldOut: bool, seeded: bool)

  datatype Evaluated = Evaluated(status: Verdict, evidence: seq<Evidence>)

  type Command = seq<string>

  datatype Mapping = Mapping(criterion: string, commands: seq<Command>)

  datatype Policy = Policy(heldOut: bool, randomized: bool)

  // One run of one check, as seen from outside: it was stopped before or while
  // running, or it ran to a verdict. `tree` is the workspace tree afterwards.
  datatype CheckRun =
    | Stopped(seedDrawn: bool, oracle: OracleDigest, heldOutTarget: bool, at: int, tree: string)
    | Ran(verdict: Verdict, oracle: OracleDigest, heldOutTarget: bool, at: int, tree: string)

  // What the evaluator cannot determine: the run of a command as row `n`, and
  // the clock when row `n` reports a coverage gap.
  datatype World = World(run: (nat, Command) -> CheckRun, clock: nat -> int)

  // The Attempt under evaluation: the digest of its diff, its result tree, and
  // the policies of the registered checks.
  datatype Subject = Subject(diff: string, resultTree: Option<string>, policies: map<(string, nat), Policy>)

  const EVALUATOR_IDENTITY := "sdf-evaluator"
  const VERIFICATION_TTL := 24 * 60 * 60

  // ---- One row -------------------------------------------------------------

  datatype Job = Gap(criterion: Option<string>) | Check(criterion: Option<string>, position: nat, command: Command)

  // A PASS on a workspace that is no longer the result tree is not kept.
  function DriftChecked(e: Evidence, after: string, resultTree: Option<string>): Evidence {
    var observed := e.(treeAfter := Some(after));
    if Some(after) == resultTree || e.status != Pass then observed else observed.(status := Inconclusive)
  }

  function GapRow(n: nat, criterion: Option<string>, at: int): Evidence {
    Evidence(n, criterion, Inconclusive, Some(Verification), Some(EVALUATOR_IDENTITY), false, None, Missing,
             Some(at + VERIFICATION_TTL), None, false, false)
  }

  function PolicyOf(s: Subject, criterion: Option<string>, position: nat): Policy {
    var key := (if criterion.Some? then criterion.value else "", position);
    if key in s.policies then s.policies[key] else Policy(false, false)
  }

  function RunOne(n: nat, criterion: Option<string>, position: nat, r: CheckRun, s: Subject): Evidence {
    var policy := PolicyOf(s, criterion, position);
    var status := if r.Ran? then r.verdict else Inconclusive;
    var seeded := policy.randomized && (r.Ran? || r.seedDrawn);
    Evidence(n, criterion, status, Some(Verification), Some(EVALUATOR_IDENTITY), false, Some(s.diff), r.oracle,
             Some(r.at + VERIFICATION_TTL), None, policy.heldOut || r.heldOutTarget, seeded)
  }

  function Row(job: Job, n: nat, w: World, s: Subject): Evidence {
    match job
    case Gap(c) => GapRow(n, c, w.clock(n))
    case Check(c, p, command) => var r := w.run(n, command); DriftChecked(RunOne(n, c, p, r, s), r.tree, s.resultTree)
  }

  // Rows are numbered from 1 in the order their jobs are planned.
  ghost predicate RowsOf(rows: seq<Evidence>, jobs: seq<Job>, w: World, s: Subject) {
    |rows| == |jobs| && forall i :: 0 <= i < |jobs| ==> rows[i] == Row(jobs[i], i + 1, w, s)
  }

  // ---- The plan of a whole evaluation --------------------------------------

  function Mapped(checks: seq<Mapping>, criterion: string): seq<Command> {
    if checks == [] then []
    else if checks[0].criterion == criterion then checks[0].commands
    else Mapped(checks[1..], criterion)
  }

  function Checks(criterion: Option<string>, commands: seq<Command>): seq<Job> {
    seq(|commands|, p requires 0 <= p < |commands| => Check(criterion, p, commands[p]))
  }

  function CriterionJobs(criterion: string, commands: seq<Command>): seq<Job> {
    if commands == [] then [Gap(Some(criterion))] else Checks(Some(criterion), commands)
  }

  function Declared(criteria: seq<string>, checks: seq<Mapping>): seq<Job> {
    if criteria == [] then []
    else Declared(criteria[..|criteria| - 1], checks)
         + CriterionJobs(criteria[|criteria| - 1], Mapped(checks, criteria[|criteria| - 1]))
  }

  function Undeclared(criteria: seq<string>, checks: seq<Mapping>): seq<Job> {
    if checks == [] then []
    else Undeclared(criteria, checks[..|checks| - 1])
         + (if checks[|checks| - 1].criterion in criteria then [] else [Gap(Some(checks[|checks| - 1].criterion))])
  }

  // A command outside any criterion always reads policy position 0.
  function Loose(commands: seq<Command>): seq<Job> {
    seq(|commands|, i requires 0 <= i < |commands| => Check(None, 0, commands[i]))
  }

  function Keys(checks: seq<Mapping>): seq<string> {
    seq(|checks|, i requires 0 <= i < |checks| => checks[i].criterion)
  }

  datatype Request = Request(criteria: Option<seq<string>>, checks: Option<seq<Mapping>>, commands: seq<Command>) {
    function Mappings(): seq<Mapping> { if checks.Some? then checks.value else [] }

    function Expected(): seq<string> { if criteria.Some? then criteria.value else Keys(Mappings()) }

    function Legacy(): seq<Command> { if checks.Some? then [] else commands }

    predicate Strict() { criteria.Some? || checks.Some? }

    function Jobs(): seq<Job> {
      var jobs := Declared(Expected(), Mappings()) + Undeclared(Expected(), Mappings()) + Loose(Legacy());
      if jobs == [] then [Gap(None)] else jobs
    }

    // Criteria are covered, and no check certifies anything else.
    ghost predicate Covered() {
      && Expected() != []
      && (forall c :: c in Expected() ==> Mapped(Mappings(), c) != [])
      && (forall m :: m in Mappings() ==> m.criterion in Expected())
    }
  }

  ghost predicate AllPass(rows: seq<Evidence>) { forall e :: e in rows ==> e.status == Pass }

  ghost predicate SomeFail(rows: seq<Evidence>) { exists e :: e in rows && e.status == Fail }

  predicate HasStatus(rows: seq<Evidence>, status: Verdict) {
    exists i :: 0 <= i < |rows| && rows[i].status == status
  }

  function Rows(jobs: seq<Job>, w: World, s: Subject): (rows: seq<Evidence>)
    ensures RowsOf(rows, jobs, w, s)
  {
    seq(|jobs|, i requires 0 <= i < |jobs| => Row(jobs[i], i + 1, w, s))
  }

  // FAIL beats INCONCLUSIVE, and PASS needs every criterion covered.
  ghost function Judgement(q: Request, w: World, s: Subject): Evaluated {
    var rows := Rows(q.Jobs(), w, s);
    Evaluated(if SomeFail(rows) then Fail else if AllPass(rows) && (q.Strict() ==> q.Covered()) then Pass
              else Inconclusive, rows)
  }

  // ---- The evaluator -------------------------------------------------------

  lemma OneMore(rows: seq<Evidence>, jobs: seq<Job>, job: Job, w: World, s: Subject)
    requires RowsOf(rows, jobs, w, s)
    ensures RowsOf(rows + [Row(job, |rows| + 1, w, s)], jobs + [job], w, s)
  {
  }

  // Runs the checks mapped to one criterion, or the loose commands.
  method RunChecks(criterion: Option<string>, commands: seq<Command>, loose: bool, w: World, s: Subject,
                   before: seq<Evidence>, ghost jobs: seq<Job>)
    returns (evidence: seq<Evidence>)
    requires RowsOf(before, jobs, w, s) && (loose ==> criterion == None)
    ensures RowsOf(evidence, jobs + (if loose then Loose(commands) else Checks(criterion, commands)), w, s)
  {
    hide RunOne, DriftChecked;
    evidence := before;
    ghost var planned := if loose then Loose(commands) else Checks(criterion, commands);
    assert jobs + planned[..0] == jobs;
    for i := 0 to |commands|
      invariant RowsOf(evidence, jobs + planned[..i], w, s)
    {
      var position := if loose then 0 else i;
      var index := |evidence| + 1;
      var run := w.run(index, commands[i]);
      OneMore(evidence, jobs + planned[..i], planned[i], w, s);
      assert jobs + planned[..i] + [planned[i]] == jobs + planned[..i + 1];
      evidence := evidence + [DriftChecked(RunOne(index, criterion, position, run, s), run.tree, s.resultTree)];
    }
    assert planned[..|commands|] == planned;
  }

  method RunDeclared(expected: seq<string>, checks: seq<Mapping>, w: World, s: Subject)
    returns (evidence: seq<Evidence>, covered: set<string>)
    ensures RowsOf(evidence, Declared(expected, checks), w, s)
    ensures forall c :: c in covered <==> c in expected && Mapped(checks, c) != []
  {
    evidence, covered := [], {};
    for i := 0 to |expected|
      invariant RowsOf(evidence, Declared(expected[..i], checks), w, s)
      invariant forall c :: c in covered <==> c in expected[..i] && Mapped(checks, c) != []
    {
      var criterion := expected[i];
      var mapped := Mapped(checks, criterion);
      ghost var planned := Declared(expected[..i], checks);
      assert expected[..i + 1][..i] == expected[..i];
      if mapped == [] {
        OneMore(evidence, planned, Gap(Some(criterion)), w, s);
        evidence := evidence + [GapRow(|evidence| + 1, Some(criterion), w.clock(|evidence| + 1))];
      } else {
        covered := covered + {criterion};
        evidence := RunChecks(Some(criterion), mapped, false, w, s, evidence, planned);
      }
    }
    assert expected[..|expected|] == expected;
  }

  method NoteUndeclared(expected: seq<string>, covered: set<string>, checks: seq<Mapping>, w: World, s: Subject,
                        before: seq<Evidence>, ghost jobs: seq<Job>)
    returns (evidence: seq<Evidence>)
    requires RowsOf(before, jobs, w, s)
    requires forall c :: c in covered ==> c in expected
    ensures RowsOf(evidence, jobs + Undeclared(expected, checks), w, s)
  {
    evidence := before;
    assert jobs + Undeclared(expected, checks[..0]) == jobs;
    for i := 0 to |checks|
      invariant RowsOf(evidence, jobs + Undeclared(expected, checks[..i]), w, s)
    {
      assert checks[..i + 1][..i] == checks[..i];
      ghost var planned := jobs + Undeclared(expected, checks[..i]);
      var criterion := checks[i].criterion;
      if criterion !in covered && criterion !in expected {
        OneMore(evidence, planned, Gap(Some(criterion)), w, s);
        evidence := evidence + [GapRow(|evidence| + 1, Some(criterion), w.clock(|evidence| + 1))];
        assert planned + [Gap(Some(criterion))] == jobs + Undeclared(expected, checks[..i + 1]);
      } else {
        assert Undeclared(expected, checks[..i + 1]) == Undeclared(expected, checks[..i]);
      }
    }
    assert checks[..|checks|] == checks;
  }

  method Evaluate(q: Request, w: World, s: Subject) returns (result: Evaluated)
    ensures result == Judgement(q, w, s)
  {
    var checks, expected := q.Mappings(), q.Expected();
    var evidence, covered := RunDeclared(expected, checks, w, s);
    evidence := NoteUndeclared(expected, covered, checks, w, s, evidence, Declared(expected, checks));
    evidence := RunChecks(None, q.Legacy(), true, w, s, evidence,
                          Declared(expected, checks) + Undeclared(expected, checks));
    if evidence == [] {
      evidence := [GapRow(1, None, w.clock(1))];
    }
    var overall := if HasStatus(evidence, Fail) then Fail
      else if HasStatus(evidence, Inconclusive) then Inconclusive
      else if q.Strict() && (expected == [] || covered != set c | c in expected) then Inconclusive
      else Pass;
    result := Evaluated(overall, evidence);
    assert evidence == Judgement(q, w, s).evidence;
    StatusesAre(evidence);
    if AllPass(evidence) {
      PassHasNoGap(evidence, q.Jobs(), w, s);
      GapsAre(q);
    }
  }

  lemma StatusesAre(rows: seq<Evidence>)
    ensures HasStatus(rows, Fail) <==> SomeFail(rows)
    ensures AllPass(rows) <==> !HasStatus(rows, Fail) && !HasStatus(rows, Inconclusive)
  {
    forall e | e in rows && !HasStatus(rows, Fail) && !HasStatus(rows, Inconclusive) ensures e.status == Pass {
      var i :| 0 <= i < |rows| && rows[i] == e;
    }
    if SomeFail(rows) {
      var e :| e in rows && e.status == Fail;
      var i :| 0 <= i < |rows| && rows[i] == e;
    }
  }

  // What is not covered is planned as a gap.
  lemma GapsAre(q: Request)
    requires forall j :: j in q.Jobs() ==> j.Check?
    ensures q.Expected() != [] ==> q.Covered()
  {
    if q.Expected() != [] {
      var declared, undeclared := Declared(q.Expected(), q.Mappings()), Undeclared(q.Expected(), q.Mappings());
      forall c | c in q.Expected() ensures Mapped(q.Mappings(), c) != [] {
        UnmappedIsGap(q.Expected(), q.Mappings(), c);
        assert Gap(Some(c)) in declared ==> Gap(Some(c)) in q.Jobs();
      }
      forall m | m in q.Mappings() ensures m.criterion in q.Expected() {
        UndeclaredIsGap(q.Expected(), q.Mappings(), m);
        assert Gap(Some(m.criterion)) in undeclared ==> Gap(Some(m.criterion)) in q.Jobs();
      }
    }
  }

  lemma {:induction false} UnmappedIsGap(criteria: seq<string>, checks: seq<Mapping>, c: string)
    requires c in criteria
    ensures Mapped(checks, c) == [] ==> Gap(Some(c)) in Declared(criteria, checks)
  {
    var n := |criteria| - 1;
    if c != criteria[n] {
      UnmappedIsGap(criteria[..n], checks, c);
    }
  }

  lemma {:induction false} UndeclaredIsGap(criteria: seq<string>, checks: seq<Mapping>, m: Mapping)
    requires m in checks
    ensures m.criterion !in criteria ==> Gap(Some(m.criterion)) in Undeclared(criteria, checks)
    decreases |checks|
  {
    var n := |checks| - 1;
    if m != checks[n] {
      UndeclaredIsGap(criteria, checks[..n], m);
    }
  }

  lemma PassHasNoGap(rows: seq<Evidence>, jobs: seq<Job>, w: World, s: Subject)
    requires RowsOf(rows, jobs, w, s) && AllPass(rows)
    ensures forall j :: j in jobs ==> j.Check?
  {
    forall j | j in jobs ensures j.Check? {
      var i :| 0 <= i < |jobs| && jobs[i] == j;
      assert rows[i] in rows;
    }
  }
}
