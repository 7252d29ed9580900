/** Which command every row of an evaluation comes from, told from the request
    alone, and what the verdict then says about the commands (sdf_core/evaluator.py,
    `evaluate`; sdf_core/execution.py, `finish`). */
module EvaluationPlan {
  import opened Results
  import opened Verdicts
  import opened Evaluation
  import opened Acceptance

  // ---- The request, read off its fields ------------------------------------

  function Mappings(q: Request): seq<Mapping> { if q.checks.Some? then q.checks.value else [] }

  // The declared criteria; without any, those the checks are mapped to.
  function Criteria(q: Request): seq<string> {
    if q.criteria.Some? then q.criteria.value
    else seq(|Mappings(q)|, m requires 0 <= m < |Mappings(q)| => Mappings(q)[m].criterion)
  }

  ghost predicate FirstFor(mappings: seq<Mapping>, criterion: string, m: nat) {
    && m < |mappings| && mappings[m].criterion == criterion
    && forall j :: 0 <= j < m ==> mappings[j].criterion != criterion
  }

  ghost function CommandsFor(mappings: seq<Mapping>, criterion: string): seq<Command> {
    if exists m: nat :: FirstFor(mappings, criterion, m) then
      var m: nat :| FirstFor(mappings, criterion, m); mappings[m].commands
    else []
  }

  // The rows before those of criterion `i`: one per command, or one that says
  // there is none.
  ghost function Start(criteria: seq<string>, mappings: seq<Mapping>, i: nat): nat
    requires i <= |criteria|
  {
    if i == 0 then 0
    else
      var commands := CommandsFor(mappings, criteria[i - 1]);
      Start(criteria, mappings, i - 1) + if commands == [] then 1 else |commands|
  }

  // Row `n`, counted from 1, runs command `position` of criterion `i`.
  ghost predicate RunsFor(criteria: seq<string>, mappings: seq<Mapping>, i: nat, n: nat, position: nat,
                          command: Command)
  {
    && i < |criteria| && n == Start(criteria, mappings, i) + position + 1
    && var commands := CommandsFor(mappings, criteria[i]);
       position < |commands| && command == commands[position]
  }

  // Row `n` runs this command for this criterion. Commands outside any criterion
  // run only if no checks are mapped at all; they read policy position 0.
  ghost predicate Runs(q: Request, n: nat, criterion: Option<string>, position: nat, command: Command) {
    var criteria, mappings := Criteria(q), Mappings(q);
    || (exists i: nat :: RunsFor(criteria, mappings, i, n, position, command) && criterion == Some(criteria[i]))
    || (&& q.checks.None? && criterion.None? && position == 0
        && var first := Start(criteria, mappings, |criteria|) + 1;
           first <= n < first + |q.commands| && command == q.commands[n - first])
  }

  ghost predicate RunsNothing(q: Request, n: nat) { forall c, p: nat, command :: !Runs(q, n, c, p, command) }

  // Mappings of criteria nobody asked for.
  ghost function Strays(criteria: seq<string>, mappings: seq<Mapping>): set<nat> {
    set m: nat | m < |mappings| && mappings[m].criterion !in criteria
  }

  ghost function Size(q: Request): nat {
    var rows := Start(Criteria(q), Mappings(q), |Criteria(q)|) + |Strays(Criteria(q), Mappings(q))|
                + if q.checks.None? then |q.commands| else 0;
    if rows == 0 then 1 else rows
  }

  // ---- The planned jobs are these ------------------------------------------

  lemma {:induction false} MappedIs(mappings: seq<Mapping>, criterion: string)
    ensures CommandsFor(mappings, criterion) == Mapped(mappings, criterion)
  {
    if mappings == [] {
    } else if mappings[0].criterion == criterion {
      assert FirstFor(mappings, criterion, 0);
    } else {
      MappedIs(mappings[1..], criterion);
      LaterFirst(mappings, criterion);
    }
  }

  lemma LaterFirst(mappings: seq<Mapping>, criterion: string)
    requires mappings != [] && mappings[0].criterion != criterion
    ensures CommandsFor(mappings, criterion) == CommandsFor(mappings[1..], criterion)
  {
    var later := mappings[1..];
    assert forall m: nat :: FirstFor(later, criterion, m) ==> FirstFor(mappings, criterion, m + 1);
    if m: nat :| FirstFor(mappings, criterion, m) {
      assert FirstFor(later, criterion, m - 1);
      OneFirst(mappings, criterion, m);
      OneFirst(later, criterion, m - 1);
    }
  }

  lemma OneFirst(mappings: seq<Mapping>, criterion: string, m: nat)
    requires FirstFor(mappings, criterion, m)
    ensures CommandsFor(mappings, criterion) == mappings[m].commands
  {
    assert forall other: nat :: FirstFor(mappings, criterion, other) ==> other == m;
  }

  lemma DeclaredNext(criteria: seq<string>, mappings: seq<Mapping>, i: nat)
    requires i < |criteria|
    ensures Declared(criteria[..i + 1], mappings)
         == Declared(criteria[..i], mappings) + CriterionJobs(criteria[i], CommandsFor(mappings, criteria[i]))
  {
    MappedIs(mappings, criteria[i]);
    assert criteria[..i + 1][..i] == criteria[..i];
  }

  lemma {:induction false} DeclaredSize(criteria: seq<string>, mappings: seq<Mapping>, i: nat)
    requires i <= |criteria|
    ensures |Declared(criteria[..i], mappings)| == Start(criteria, mappings, i)
  {
    if i > 0 {
      DeclaredSize(criteria, mappings, i - 1);
      DeclaredNext(criteria, mappings, i - 1);
    }
  }

  // The jobs of the first `j` criteria begin with those of fewer.
  lemma {:induction false} DeclaredBegins(criteria: seq<string>, mappings: seq<Mapping>, i: nat, j: nat)
    requires i <= j <= |criteria|
    ensures Declared(criteria[..i], mappings) <= Declared(criteria[..j], mappings)
    decreases j
  {
    if i < j {
      DeclaredBegins(criteria, mappings, i, j - 1);
      DeclaredNext(criteria, mappings, j - 1);
    }
  }

  lemma DeclaredAt(criteria: seq<string>, mappings: seq<Mapping>, i: nat, position: nat)
    requires i < |criteria| && position < |CommandsFor(mappings, criteria[i])|
    ensures var jobs, n := Declared(criteria, mappings), Start(criteria, mappings, i) + position;
            n < |jobs| && jobs[n] == Check(Some(criteria[i]), position, CommandsFor(mappings, criteria[i])[position])
  {
    hide Declared, CommandsFor, Start;
    DeclaredBegins(criteria, mappings, i + 1, |criteria|);
    DeclaredNext(criteria, mappings, i);
    DeclaredSize(criteria, mappings, i);
    assert criteria[..|criteria|] == criteria;
  }

  lemma ChecksAre(criterion: string, commands: seq<Command>, k: nat)
    requires k < |CriterionJobs(criterion, commands)| && CriterionJobs(criterion, commands)[k].Check?
    ensures k < |commands| && CriterionJobs(criterion, commands)[k] == Check(Some(criterion), k, commands[k])
  {
  }

  lemma {:induction false} DeclaredFrom(criteria: seq<string>, mappings: seq<Mapping>, j: nat, k: nat)
    returns (i: nat)
    requires 0 < j <= |criteria| && k < |Declared(criteria[..j], mappings)|
    requires Declared(criteria[..j], mappings)[k].Check?
    ensures var job := Declared(criteria[..j], mappings)[k];
            RunsFor(criteria, mappings, i, k + 1, job.position, job.command) && job.criterion == Some(criteria[i])
    decreases j
  {
    hide CommandsFor, CriterionJobs, Declared, Start;
    DeclaredNext(criteria, mappings, j - 1);
    DeclaredSize(criteria, mappings, j - 1);
    var before := |Declared(criteria[..j - 1], mappings)|;
    if k < before {
      NothingDeclared(mappings, criteria[..j - 1]);
      i := DeclaredFrom(criteria, mappings, j - 1, k);
    } else {
      ChecksAre(criteria[j - 1], CommandsFor(mappings, criteria[j - 1]), k - before);
      i := j - 1;
    }
  }

  lemma NothingDeclared(mappings: seq<Mapping>, criteria: seq<string>)
    ensures criteria == [] ==> Declared(criteria, mappings) == []
  {
  }

  lemma {:induction false} UndeclaredIs(criteria: seq<string>, mappings: seq<Mapping>)
    ensures forall k :: 0 <= k < |Undeclared(criteria, mappings)| ==> Undeclared(criteria, mappings)[k].Gap?
    ensures |Undeclared(criteria, mappings)| == |Strays(criteria, mappings)|
    decreases |mappings|
  {
    if mappings == [] {
      assert Strays(criteria, mappings) == {};
    } else {
      var n, front := |mappings| - 1, mappings[..|mappings| - 1];
      UndeclaredIs(criteria, front);
      var before := Strays(criteria, front);
      assert Strays(criteria, mappings) == if mappings[n].criterion in criteria then before else before + {n};
    }
  }

  lemma RequestIs(q: Request)
    ensures q.Mappings() == Mappings(q) && q.Expected() == Criteria(q)
    ensures q.Legacy() == if q.checks.None? then q.commands else []
  {
    assert q.Expected() == Criteria(q);
  }

  // The jobs are those of the criteria, a gap per stray mapping, and, without
  // any mapping, the loose commands.
  lemma JobsAre(q: Request)
    ensures var declared := Declared(Criteria(q), Mappings(q));
            && |declared| == Start(Criteria(q), Mappings(q), |Criteria(q)|)
            && var loose := Loose(if q.checks.None? then q.commands else []);
               var jobs := declared + Undeclared(Criteria(q), Mappings(q)) + loose;
               q.Jobs() == if jobs == [] then [Gap(None)] else jobs
  {
    RequestIs(q);
    assert Criteria(q)[..|Criteria(q)|] == Criteria(q);
    DeclaredSize(Criteria(q), Mappings(q), |Criteria(q)|);
  }

  lemma JobsSize(q: Request)
    ensures |q.Jobs()| == Size(q)
  {
    JobsAre(q);
    UndeclaredIs(Criteria(q), Mappings(q));
  }

  lemma RunsIsPlanned(q: Request, n: nat, criterion: Option<string>, position: nat, command: Command)
    requires Runs(q, n, criterion, position, command)
    ensures 1 <= n <= |q.Jobs()| && q.Jobs()[n - 1] == Check(criterion, position, command)
  {
    hide Declared, CommandsFor, Start;
    var criteria, mappings := Criteria(q), Mappings(q);
    JobsAre(q);
    if i: nat :| RunsFor(criteria, mappings, i, n, position, command) && criterion == Some(criteria[i]) {
      DeclaredAt(criteria, mappings, i, position);
    }
  }

  lemma PlannedRuns(q: Request, n: nat)
    requires 1 <= n <= |q.Jobs()| && q.Jobs()[n - 1].Check?
    ensures var job := q.Jobs()[n - 1]; Runs(q, n, job.criterion, job.position, job.command)
  {
    hide Declared, Undeclared, CommandsFor, Start;
    var criteria, mappings := Criteria(q), Mappings(q);
    JobsAre(q);
    UndeclaredIs(criteria, mappings);
    var declared := Declared(criteria, mappings);
    if n <= |declared| {
      assert criteria[..|criteria|] == criteria;
      NothingDeclared(mappings, criteria);
      var i := DeclaredFrom(criteria, mappings, |criteria|, n - 1);
    } else {
      NoStrays(q);
    }
  }

  // Loose commands come with no mappings, so no gap row is in front of them.
  lemma NoStrays(q: Request)
    ensures q.checks.None? ==> Undeclared(Criteria(q), Mappings(q)) == []
  {
  }

  // ---- Rows and commands ---------------------------------------------------

  // What the run of a command leaves as row `n`: its verdict, a PASS only on the
  // result tree, and what the policy at its position says about hidden oracles.
  ghost predicate LeftBy(e: Evidence, n: nat, criterion: Option<string>, position: nat, r: CheckRun, s: Subject) {
    var key := (if criterion.Some? then criterion.value else "", position);
    && e.number == n && e.criterion == criterion && e.subject == Some(s.diff) && e.oracle == r.oracle
    && (e.status == Fail <==> r.Ran? && r.verdict == Fail)
    && (e.status == Pass <==> r.Ran? && r.verdict == Pass && s.resultTree == Some(r.tree))
    && e.treeAfter == Some(r.tree) && e.expiresAt == Some(r.at + 24 * 60 * 60)
    && (e.heldOut <==> r.heldOutTarget || (key in s.policies && s.policies[key].heldOut))
    && (e.seeded <==> key in s.policies && s.policies[key].randomized && (r.Ran? || r.seedDrawn))
  }

  ghost predicate SaysNothingRan(e: Evidence, n: nat) {
    e.number == n && e.status == Inconclusive && e.oracle == Missing && e.treeAfter.None? && e.subject.None?
  }

  lemma RowIs(job: Job, n: nat, w: World, s: Subject)
    ensures match job
            case Check(c, p, command) => LeftBy(Row(job, n, w, s), n, c, p, w.run(n, command), s)
            case Gap(c) => SaysNothingRan(Row(job, n, w, s), n) && Row(job, n, w, s).criterion == c
  {
  }

  // Every command of every criterion leaves one row, in the order of the
  // criteria and of their commands; every other row says that nothing ran.
  lemma EveryCommandLeavesItsRow(q: Request, w: World, s: Subject)
    ensures |Judgement(q, w, s).evidence| == Size(q)
    ensures forall n: nat, c, p: nat, command :: Runs(q, n, c, p, command) ==>
              1 <= n <= Size(q) && LeftBy(Judgement(q, w, s).evidence[n - 1], n, c, p, w.run(n, command), s)
    ensures forall n: nat :: 1 <= n <= Size(q) && RunsNothing(q, n) ==>
              SaysNothingRan(Judgement(q, w, s).evidence[n - 1], n)
  {
    hide Runs, LeftBy, SaysNothingRan, Row, Size;
    var rows, jobs := Rows(q.Jobs(), w, s), q.Jobs();
    JobsSize(q);
    forall n: nat, c, p: nat, command | Runs(q, n, c, p, command)
      ensures 1 <= n <= Size(q) && LeftBy(rows[n - 1], n, c, p, w.run(n, command), s)
    {
      RunsIsPlanned(q, n, c, p, command);
      RowIs(jobs[n - 1], n, w, s);
    }
    forall n: nat | 1 <= n <= Size(q) && RunsNothing(q, n) ensures SaysNothingRan(rows[n - 1], n) {
      if jobs[n - 1].Check? { PlannedRuns(q, n); }
      RowIs(jobs[n - 1], n, w, s);
    }
  }

  // A row runs one command at most.
  lemma OneCommandPerRow(q: Request, n: nat, c: Option<string>, p: nat, command: Command,
                         c': Option<string>, p': nat, command': Command)
    requires Runs(q, n, c, p, command) && Runs(q, n, c', p', command')
    ensures c == c' && p == p' && command == command'
  {
    hide Runs;
    RunsIsPlanned(q, n, c, p, command);
    RunsIsPlanned(q, n, c', p', command');
  }

  // ---- The verdict ---------------------------------------------------------

  ghost predicate RanTo(w: World, n: nat, command: Command, v: Verdict) {
    w.run(n, command).Ran? && w.run(n, command).verdict == v
  }

  // The verdict is FAIL exactly when a command failed in its row.
  lemma FailIffACommandFailed(q: Request, w: World, s: Subject, x: Context)
    ensures Judged(q, w, s, x).status == Fail <==>
              exists n: nat, c, p: nat, command :: Runs(q, n, c, p, command) && RanTo(w, n, command, Fail)
  {
    hide Runs, Judged;
    FailIffACheckFailed(q, w, s, x);
    FailedCommands(q, q.Jobs(), w);
  }

  lemma FailedCommands(q: Request, jobs: seq<Job>, w: World)
    requires jobs == q.Jobs()
    ensures (exists i :: 0 <= i < |jobs| && FailedAt(jobs[i], i + 1, w)) <==>
            exists n: nat, c, p: nat, command :: Runs(q, n, c, p, command) && RanTo(w, n, command, Fail)
  {
    hide Runs;
    if i :| 0 <= i < |jobs| && FailedAt(jobs[i], i + 1, w) {
      PlannedRuns(q, i + 1);
      assert RanTo(w, i + 1, jobs[i].command, Fail);
    }
    if n: nat, c, p: nat, command :| Runs(q, n, c, p, command) && RanTo(w, n, command, Fail) {
      RunsIsPlanned(q, n, c, p, command);
      assert FailedAt(jobs[n - 1], n - 1 + 1, w);
    }
  }

  // Every criterion has a command and every mapping a criterion; a request
  // without either has a loose command.
  ghost predicate CoveredBy(q: Request) {
    if q.criteria.Some? || q.checks.Some? then
      && Criteria(q) != []
      && (forall c :: c in Criteria(q) ==> CommandsFor(Mappings(q), c) != [])
      && (forall m :: m in Mappings(q) ==> m.criterion in Criteria(q))
    else q.commands != []
  }

  // Row `n` of this command bears the acceptance out.
  ghost predicate Bears(w: World, s: Subject, x: Context, n: nat, command: Command)
    requires n > 0
  {
    var r := w.run(n, command);
    && RanTo(w, n, command, Pass) && s.resultTree == Some(r.tree) && r.oracle.Sealed?
    && x.agent != EVALUATOR_IDENTITY && x.clock.first(n - 1) < r.at + 24 * 60 * 60
  }

  // The agent could not see this command, and its row is not stale at the second look.
  ghost predicate Unseen(w: World, s: Subject, x: Context, n: nat, c: Option<string>, p: nat, command: Command)
    requires n > 0
  {
    var r, key := w.run(n, command), (if c.Some? then c.value else "", p);
    && (|| r.heldOutTarget
        || (key in s.policies && (s.policies[key].heldOut || (s.policies[key].randomized && (r.Ran? || r.seedDrawn)))))
    && x.clock.second(n - 1) < r.at + 24 * 60 * 60
  }

  ghost predicate UnseenRan(q: Request, w: World, s: Subject, x: Context) {
    exists n: nat, c, p: nat, command :: Runs(q, n, c, p, command) && n > 0 && Unseen(w, s, x, n, c, p, command)
  }

  ghost predicate AllBear(q: Request, w: World, s: Subject, x: Context) {
    forall n: nat, c, p: nat, command :: Runs(q, n, c, p, command) && n > 0 ==> Bears(w, s, x, n, command)
  }

  // The verdict is PASS exactly when the request is covered, every command ran
  // to a PASS that bears it out, and a hidden oracle that some policy asks for
  // was among them.
  lemma PassIffEveryCommandBears(q: Request, w: World, s: Subject, x: Context)
    ensures Judged(q, w, s, x).status == Pass <==>
              && CoveredBy(q) && AllBear(q, w, s, x)
              && ((exists key :: key in s.policies && (s.policies[key].heldOut || s.policies[key].randomized)) ==>
                    UnseenRan(q, w, s, x))
  {
    hide Judged, Runs, HiddenInTime, AllBear, UnseenRan;
    var jobs := q.Jobs();
    PassIffAccepts(q, w, s, x);
    CoverageIs(q);
    UnseenIsHidden(q, w, s, x, jobs);
    if CoveredBy(q) && AllBear(q, w, s, x) {
      CoveredHasNoGap(q);
      BearersProve(q, w, s, x, jobs);
    }
    if AllProve(jobs, w, s, x) { ProversBear(q, w, s, x, jobs); }
  }

  lemma UnseenJob(job: Job, i: nat, w: World, s: Subject, x: Context)
    requires job.Check?
    ensures HiddenJobAt(job, w, s, x, i) <==> Unseen(w, s, x, i + 1, job.criterion, job.position, job.command)
  {
  }

  lemma UnseenIsHidden(q: Request, w: World, s: Subject, x: Context, jobs: seq<Job>)
    requires jobs == q.Jobs()
    ensures HiddenInTime(jobs, w, s, x) <==> UnseenRan(q, w, s, x)
  {
    hide Runs, Unseen;
    if HiddenInTime(jobs, w, s, x) {
      var i :| 0 <= i < |jobs| && HiddenJobAt(jobs[i], w, s, x, i);
      assert jobs[i].Check?;
      hide HiddenJobAt;
      PlannedRuns(q, i + 1);
      UnseenJob(jobs[i], i, w, s, x);
    }
    if n: nat, c, p: nat, command :| Runs(q, n, c, p, command) && n > 0 && Unseen(w, s, x, n, c, p, command) {
      RunsIsPlanned(q, n, c, p, command);
      UnseenJob(jobs[n - 1], n - 1, w, s, x);
    }
  }

  ghost predicate AllProve(jobs: seq<Job>, w: World, s: Subject, x: Context) {
    forall i :: 0 <= i < |jobs| ==> Proves(jobs[i], i + 1, w, s, x)
  }

  lemma ProvingJob(job: Job, n: nat, w: World, s: Subject, x: Context)
    requires n > 0
    ensures Proves(job, n, w, s, x) <==> job.Check? && Bears(w, s, x, n, job.command)
  {
  }

  lemma ProversBear(q: Request, w: World, s: Subject, x: Context, jobs: seq<Job>)
    requires jobs == q.Jobs() && AllProve(jobs, w, s, x)
    ensures AllBear(q, w, s, x) && jobs[0].Check?
  {
    hide Runs, Bears, Proves;
    assert Proves(jobs[0], 0 + 1, w, s, x);
    ProvingJob(jobs[0], 1, w, s, x);
    forall n: nat, c, p: nat, command | Runs(q, n, c, p, command) && n > 0 ensures Bears(w, s, x, n, command) {
      RunsIsPlanned(q, n, c, p, command);
      assert Proves(jobs[n - 1], n - 1 + 1, w, s, x);
      ProvingJob(jobs[n - 1], n, w, s, x);
    }
  }

  lemma BearersProve(q: Request, w: World, s: Subject, x: Context, jobs: seq<Job>)
    requires jobs == q.Jobs() && AllBear(q, w, s, x) && forall i :: 0 <= i < |jobs| ==> jobs[i].Check?
    ensures AllProve(jobs, w, s, x)
  {
    hide Runs, Bears, Proves;
    forall i | 0 <= i < |jobs| ensures Proves(jobs[i], i + 1, w, s, x) {
      PlannedRuns(q, i + 1);
      ProvingJob(jobs[i], i + 1, w, s, x);
    }
  }

  lemma CoverageIs(q: Request)
    ensures q.Strict() ==> (q.Covered() <==> CoveredBy(q))
    ensures !q.Strict() && q.Jobs()[0].Check? ==> CoveredBy(q)
  {
    RequestIs(q);
    forall c ensures Mapped(q.Mappings(), c) == CommandsFor(Mappings(q), c) {
      MappedIs(Mappings(q), c);
    }
  }

  lemma CoveredHasNoGap(q: Request)
    requires CoveredBy(q)
    ensures forall i :: 0 <= i < |q.Jobs()| ==> q.Jobs()[i].Check?
  {
    RequestIs(q);
    var criteria, mappings := Criteria(q), Mappings(q);
    forall c | c in criteria ensures Mapped(mappings, c) == CommandsFor(mappings, c) {
      MappedIs(mappings, c);
    }
    if q.Strict() {
      UndeclaredEmpty(criteria, mappings);
      DeclaredAreChecks(criteria, mappings);
    }
  }
}
