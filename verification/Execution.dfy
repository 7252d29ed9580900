/** Tasks, Attempts and their stored Evidence: beginning, finishing, cancelling and
    recovering an Attempt (sdf_core/execution.py, sdf_core/recovery.py). A Task
    becomes `Succeeded` only by `finish`, and keeps its proof for ever. */
module Execution {
  import opened Results
  import opened States
  import opened Verdicts
  import Evaluation
  import Acceptance

  datatype Task = Task(status: TaskState, criteria: seq<string>)

  datatype Attempt = Attempt(task: string, status: AttemptState, executor: Option<string>, agent: string)

  // What `finish` stores for an Attempt: the digest of its diff, its result
  // tree, whether a hidden oracle was declared, and the verification rows.
  datatype Record = Record(diff: string, tree: Option<string>, hidden: bool, rows: seq<Evaluation.Evidence>)

  datatype Ledger = Ledger(tasks: map<string, Task>, attempts: map<string, Attempt>, records: map<string, Record>)

  const EMPTY := Ledger(map[], map[], map[])

  // What one call of `finish` is told and meets. `raced` says that recovery, on
  // another session, settled this Attempt after the ownership check; `swapLost`
  // that the Task was no longer evaluating at the end; `storedRows` is set when
  // storing the rows fails after that many.
  datatype Report = Report(
    blocked: bool, captured: bool, adapterSucceeded: bool, raced: bool, evaluatorRaises: bool, swapLost: bool,
    storedRows: Option<nat>, diff: string, resultTree: Option<string>, finalTree: string,
    checks: Option<seq<Evaluation.Mapping>>, commands: seq<Evaluation.Command>,
    policies: map<(string, nat), Evaluation.Policy>)

  datatype Refusal = NotFound | NotOwned | DecisionPending | CaptureFailed | LostRace | TaskNotRunning
    | EvaluatorFailed | StoreFailed | TaskNotEvaluating

  predicate OwnedRunning(a: Attempt, me: string) { a.status == AttemptState.Running && a.executor == Some(me) }

  // No other Attempt of the same Task is running.
  predicate Exclusive(attempts: map<string, Attempt>, id: string)
    requires id in attempts
  {
    forall other :: other in attempts && other != id && attempts[other].task == attempts[id].task ==>
                      attempts[other].status != AttemptState.Running
  }

  // `running` passes through `evaluating` on its way to `failed`.
  function FailedTask(t: Task): Task {
    if t.status == TaskState.Running || t.status == Evaluating then t.(status := TaskState.Failed) else t
  }

  // A compare-and-swap from `running` and on to a verdict nobody gave.
  function SwappedTask(t: Task, to: TaskState): Task {
    if t.status == TaskState.Running then t.(status := to) else t
  }

  function SettledAs(r: Report): AttemptState { if r.adapterSucceeded then Completed else AttemptState.Failed }

  function TaskStateOf(v: Verdict): TaskState {
    match v
    case Pass => Succeeded
    case Fail => TaskState.Failed
    case Inconclusive => TaskState.Inconclusive
  }

  function RequestOf(t: Task, r: Report): Evaluation.Request {
    Evaluation.Request(Some(t.criteria), r.checks, r.commands)
  }

  function SubjectOf(r: Report): Evaluation.Subject { Evaluation.Subject(r.diff, r.resultTree, r.policies) }

  function RecordOf(r: Report, rows: seq<Evaluation.Evidence>): Record {
    Record(r.diff, r.resultTree, Acceptance.RequiresHidden(r.policies), rows)
  }

  ghost function JudgedBy(t: Task, a: Attempt, r: Report, w: Evaluation.World, clock: Acceptance.GateClock)
    : Evaluation.Evaluated
  {
    Acceptance.Judged(RequestOf(t, r), w, SubjectOf(r), Acceptance.Context(a.agent, r.finalTree, clock))
  }

  // The evaluation of this report stops before all its rows are stored.
  predicate Interrupted(t: Task, r: Report) {
    r.evaluatorRaises || (r.storedRows.Some? && r.storedRows.value < |RequestOf(t, r).Jobs()|)
  }

  // Nothing goes wrong after the guards of `finish`.
  predicate Smooth(t: Task, r: Report) {
    && r.captured && !r.raced && t.status == TaskState.Running
    && (r.adapterSucceeded ==> !r.swapLost && !Interrupted(t, r))
  }

  // ---- The invariant -------------------------------------------------------

  // Every Attempt has a Task, and only completed Attempts have rows.
  ghost predicate Linked(l: Ledger) {
    && (forall a :: a in l.attempts ==> l.attempts[a].task in l.tasks)
    && (forall a :: a in l.records ==> a in l.attempts && l.attempts[a].status == Completed)
  }

  // Attempt `a` completed and its stored rows accept Task `t`.
  ghost predicate Accepted(t: string, l: Ledger, a: string) {
    && t in l.tasks && a in l.attempts && l.attempts[a].task == t && l.attempts[a].status == Completed && a in l.records
    && var r := l.records[a];
       Acceptance.Accepting(r.rows, l.tasks[t].criteria, l.attempts[a].agent, r.diff, r.tree, r.hidden)
  }

  ghost predicate Proven(l: Ledger) {
    forall t :: t in l.tasks && l.tasks[t].status == Succeeded ==> exists a :: Accepted(t, l, a)
  }

  ghost predicate Sound(l: Ledger) { Linked(l) && Proven(l) }

  // ---- Steps ---------------------------------------------------------------

  datatype Event =
    | Register(task: string, criteria: seq<string>)
    | Begin(task: string, id: string, agent: string, executor: string)
    | Conclude(id: string, report: Report, world: Evaluation.World, clock: Acceptance.GateClock)
    | Abandon(id: string)
    | Nothing

  ghost predicate Begun(l: Ledger, l': Ledger, t: string, id: string, agent: string, me: string) {
    && t in l.tasks && id !in l.attempts && TaskStep(l.tasks[t].status, TaskState.Ready)
    && l' == l.(tasks := l.tasks[t := l.tasks[t].(status := TaskState.Running)],
                attempts := l.attempts[id := Attempt(t, AttemptState.Running, Some(me), agent)])
  }

  // The Attempt settled as its adapter said and its Task as the evaluation did.
  ghost predicate Concluded(l: Ledger, l': Ledger, id: string, r: Report, w: Evaluation.World,
                            clock: Acceptance.GateClock)
  {
    id in l.attempts && l.attempts[id].status == AttemptState.Running &&
    var a, t := l.attempts[id], l.attempts[id].task;
    && t in l.tasks && l.tasks[t].status == TaskState.Running
    && if r.adapterSucceeded then
         var judged := JudgedBy(l.tasks[t], a, r, w, clock);
         l' == Ledger(l.tasks[t := l.tasks[t].(status := TaskStateOf(judged.status))],
                      l.attempts[id := a.(status := Completed)],
                      l.records[id := RecordOf(r, judged.evidence)])
       else
         l' == l.(tasks := l.tasks[t := l.tasks[t].(status := TaskState.Failed)],
                  attempts := l.attempts[id := a.(status := AttemptState.Failed)])
  }

  // A running Attempt settled without a verdict: failed, cancelled, or completed
  // by a call that went wrong later. Its Task, if it changes, is not accepted.
  ghost predicate Abandoned(l: Ledger, l': Ledger, id: string) {
    id in l.attempts && l.attempts[id].status == AttemptState.Running && id in l'.attempts &&
    var a, t, s := l.attempts[id], l.attempts[id].task, l'.attempts[id].status;
    && AttemptStep(AttemptState.Running, s) && l'.attempts == l.attempts[id := a.(status := s)]
    && t in l.tasks && t in l'.tasks
    && (|| l'.tasks == l.tasks
        || (&& l.tasks[t].status in {TaskState.Running, Evaluating}
            && l'.tasks[t].status in {Evaluating, TaskState.Failed, TaskState.Inconclusive}
            && l'.tasks == l.tasks[t := l.tasks[t].(status := l'.tasks[t].status)]))
    && (|| l'.records == l.records
        || (s == Completed && id in l'.records && l'.records == l.records[id := l'.records[id]]))
  }

  ghost predicate Moves(l: Ledger, e: Event, l': Ledger) {
    match e
    case Register(t, criteria) => t !in l.tasks && l' == l.(tasks := l.tasks[t := Task(TaskState.Created, criteria)])
    case Begin(t, id, agent, me) => Begun(l, l', t, id, agent, me)
    case Conclude(id, r, w, clock) => Concluded(l, l', id, r, w, clock)
    case Abandon(id) => Abandoned(l, l', id)
    case Nothing => l' == l
  }

  // An Attempt that was running proved nothing, so whatever becomes of it takes
  // no proof away; its Task may only become `Succeeded` with a proof.
  lemma KeepsProof(l: Ledger, l': Ledger, id: string, t: string)
    requires Proven(l)
    requires forall a :: a in l.records && a in l.attempts && a != id ==>
               && a in l'.records && l'.records[a] == l.records[a]
               && a in l'.attempts && l'.attempts[a] == l.attempts[a]
    requires id !in l.records
    requires forall u :: u in l'.tasks && u != t ==> u in l.tasks && l'.tasks[u] == l.tasks[u]
    requires t in l'.tasks && l'.tasks[t].status == Succeeded ==>
               (t in l.tasks && l'.tasks[t] == l.tasks[t]) || Accepted(t, l', id)
    ensures Proven(l')
  {
    forall u | u in l'.tasks && l'.tasks[u].status == Succeeded ensures exists a :: Accepted(u, l', a) {
      if u in l.tasks && l'.tasks[u] == l.tasks[u] {
        var a :| Accepted(u, l, a);
        assert Accepted(u, l', a);
      } else {
        assert Accepted(u, l', id);
      }
    }
  }

  lemma VerdictIsProof(l: Ledger, l': Ledger, id: string, r: Report, w: Evaluation.World, clock: Acceptance.GateClock)
    requires Concluded(l, l', id, r, w, clock)
    ensures var t := l.attempts[id].task; t in l'.tasks && (l'.tasks[t].status == Succeeded ==> Accepted(t, l', id))
  {
    var a, t := l.attempts[id], l.attempts[id].task;
    if r.adapterSucceeded && l'.tasks[t].status == Succeeded {
      var x := Acceptance.Context(a.agent, r.finalTree, clock);
      Acceptance.AcceptedRows(RequestOf(l.tasks[t], r), w, SubjectOf(r), x);
    }
  }

  lemma ConcludeKeepsSound(l: Ledger, l': Ledger, id: string, r: Report, w: Evaluation.World,
                           clock: Acceptance.GateClock)
    requires Sound(l) && Concluded(l, l', id, r, w, clock)
    ensures Sound(l')
  {
    VerdictIsProof(l, l', id, r, w, clock);
    ConcludeKeepsLinks(l, l', id, r, w, clock);
    KeepsProof(l, l', id, l.attempts[id].task);
  }

  lemma ConcludeKeepsLinks(l: Ledger, l': Ledger, id: string, r: Report, w: Evaluation.World,
                           clock: Acceptance.GateClock)
    requires Linked(l) && Concluded(l, l', id, r, w, clock)
    ensures Linked(l') && id !in l.records && l'.tasks.Keys == l.tasks.Keys
    ensures forall u :: u in l'.tasks && u != l.attempts[id].task ==> u in l.tasks && l'.tasks[u] == l.tasks[u]
    ensures forall a :: a in l.attempts && a != id ==> a in l'.attempts && l'.attempts[a] == l.attempts[a]
    ensures forall a :: a in l.records && a != id ==> a in l'.records && l'.records[a] == l.records[a]
  {
    hide JudgedBy, RecordOf, TaskStateOf;
  }

  lemma AbandonKeepsSound(l: Ledger, l': Ledger, id: string)
    requires Sound(l) && Abandoned(l, l', id)
    ensures Sound(l')
  {
    hide Accepted;
    KeepsProof(l, l', id, l.attempts[id].task);
  }

  // An Attempt settled without a verdict, and its Task or nothing else with it.
  lemma UnjudgedIsAbandoned(l: Ledger, l': Ledger, id: string, to: AttemptState, taskTo: TaskState, touches: bool)
    requires Sound(l) && id in l.attempts && l.attempts[id].status == AttemptState.Running
    requires to != Completed && AttemptStep(AttemptState.Running, to)
    requires taskTo == TaskState.Failed || taskTo == TaskState.Inconclusive
    requires l'.attempts == l.attempts[id := l.attempts[id].(status := to)] && l'.records == l.records
    requires var t := l.attempts[id].task;
             l'.tasks == if touches then l.tasks[t := SwappedTask(l.tasks[t], taskTo)] else l.tasks
    ensures Sound(l') && Moves(l, Abandon(id), l')
  {
    hide Accepted;
    assert Abandoned(l, l', id) by {
      if !touches || l.tasks[l.attempts[id].task].status != TaskState.Running { assert l'.tasks == l.tasks; }
    }
    AbandonKeepsSound(l, l', id);
  }

  lemma MovesKeepSound(l: Ledger, e: Event, l': Ledger)
    requires Sound(l) && Moves(l, e, l')
    ensures Sound(l')
  {
    match e {
      case Register(t, _) => KeepsProofElsewhere(l, l', t);
      case Begin(t, id, _, _) => KeepsProofElsewhere(l, l', t);
      case Conclude(id, r, w, clock) => ConcludeKeepsSound(l, l', id, r, w, clock);
      case Abandon(id) => AbandonKeepsSound(l, l', id);
      case Nothing =>
    }
  }

  // A step that changes one Task, not to `Succeeded`, and adds rows to nothing.
  lemma KeepsProofElsewhere(l: Ledger, l': Ledger, t: string)
    requires Proven(l) && l'.records == l.records
    requires forall a :: a in l.attempts ==> a in l'.attempts && l'.attempts[a] == l.attempts[a]
    requires forall u :: u in l'.tasks && u != t ==> u in l.tasks && l'.tasks[u] == l.tasks[u]
    requires t in l'.tasks && l'.tasks[t].status != Succeeded
    ensures Proven(l')
  {
    forall u | u in l'.tasks && l'.tasks[u].status == Succeeded ensures exists a :: Accepted(u, l', a) {
      var a :| Accepted(u, l, a);
      assert Accepted(u, l', a);
    }
  }

  // ---- Whole histories -----------------------------------------------------

  // `ledgers[i]` is what is stored before event `i`.
  ghost predicate History(ledgers: seq<Ledger>, events: seq<Event>) {
    && |ledgers| == |events| + 1 && ledgers[0] == EMPTY
    && forall i: nat :: i < |events| ==> Moves(ledgers[i], events[i], ledgers[i + 1])
  }

  // At every moment, a succeeded Task has an Attempt whose stored rows prove it.
  lemma {:induction false} SoundAlways(ledgers: seq<Ledger>, events: seq<Event>, n: nat)
    requires History(ledgers, events) && n < |ledgers|
    ensures Sound(ledgers[n])
  {
    if n > 0 {
      SoundAlways(ledgers, events, n - 1);
      MovesKeepSound(ledgers[n - 1], events[n - 1], ledgers[n - 1 + 1]);
    }
  }

  lemma SucceededStep(l: Ledger, e: Event, l': Ledger, t: string)
    requires Moves(l, e, l') && t in l.tasks && l.tasks[t].status == Succeeded
    ensures t in l'.tasks && l'.tasks[t] == l.tasks[t]
  {
  }

  // Acceptance is for ever.
  lemma {:induction false} SucceededForEver(ledgers: seq<Ledger>, events: seq<Event>, i: nat, j: nat, t: string)
    requires History(ledgers, events) && i <= j < |ledgers|
    requires t in ledgers[i].tasks && ledgers[i].tasks[t].status == Succeeded
    ensures t in ledgers[j].tasks && ledgers[j].tasks[t].status == Succeeded
    decreases j - i
  {
    if i < j {
      SucceededForEver(ledgers, events, i, j - 1, t);
      SucceededStep(ledgers[j - 1], events[j - 1], ledgers[j - 1 + 1], t);
    }
  }

  // A Task becomes `Succeeded` by the verdict on one of its Attempts and by
  // nothing else.
  lemma SucceededHasCause(l: Ledger, e: Event, l': Ledger, t: string)
    requires Moves(l, e, l') && t in l'.tasks && l'.tasks[t].status == Succeeded
    requires t !in l.tasks || l.tasks[t].status != Succeeded
    ensures e.Conclude? && e.id in l.attempts && l.attempts[e.id].task == t && e.report.adapterSucceeded
    ensures t in l.tasks && JudgedBy(l.tasks[t], l.attempts[e.id], e.report, e.world, e.clock).status == Pass
  {
  }

  // A concluded call moved both rows along their lifecycles, through
  // `evaluating`, and no lifecycle leads on from `succeeded`.
  lemma ConcludedFollowsLifecycle(l: Ledger, l': Ledger, id: string, r: Report, w: Evaluation.World,
                                  clock: Acceptance.GateClock)
    requires Concluded(l, l', id, r, w, clock)
    ensures id in l'.attempts && AttemptStep(l.attempts[id].status, l'.attempts[id].status)
    ensures var t := l.attempts[id].task;
            && t in l'.tasks && TaskStep(l.tasks[t].status, Evaluating) && TaskStep(Evaluating, l'.tasks[t].status)
            && forall s :: TaskStep(l'.tasks[t].status, s) ==> l'.tasks[t].status != Succeeded && s == TaskState.Ready
  {
    var t := l.attempts[id].task;
    if r.adapterSucceeded {
      VerdictIsLegal(JudgedBy(l.tasks[t], l.attempts[id], r, w, clock).status);
    }
  }

  // What a report is judged to be: the Task's criteria, the report's checks and
  // diff, and the agent that made it, all as they are stored.
  ghost function Outcome(t: Task, a: Attempt, r: Report, w: Evaluation.World, clock: Acceptance.GateClock)
    : Evaluation.Evaluated
  {
    Acceptance.Judged(Evaluation.Request(Some(t.criteria), r.checks, r.commands), w,
                      Evaluation.Subject(r.diff, r.resultTree, r.policies),
                      Acceptance.Context(a.agent, r.finalTree, clock))
  }

  // The Task a concluded call leaves, and what it stores: a PASS succeeds, a FAIL
  // fails, anything else is inconclusive, and without an adapter result it fails.
  ghost predicate FinishedAs(t: Task, a: Attempt, r: Report, w: Evaluation.World, clock: Acceptance.GateClock,
                             l: Ledger, id: string)
  {
    && id in l.attempts && a.task in l.tasks && l.tasks[a.task].criteria == t.criteria
    && var status, outcome := l.tasks[a.task].status, Outcome(t, a, r, w, clock);
    if r.adapterSucceeded then
      && (status == TaskState.Succeeded <==> outcome.status == Verdict.Pass)
      && (status == TaskState.Failed <==> outcome.status == Verdict.Fail)
      && (status == TaskState.Inconclusive <==> outcome.status == Verdict.Inconclusive)
      && l.attempts[id].status == AttemptState.Completed
      && id in l.records && l.records[id].rows == outcome.evidence
      && l.records[id].diff == r.diff && l.records[id].tree == r.resultTree
      && (l.records[id].hidden <==>
            exists key :: key in r.policies && (r.policies[key].heldOut || r.policies[key].randomized))
    else status == TaskState.Failed && l.attempts[id].status == AttemptState.Failed
  }

  // Nothing fails on the way: the capture, the swaps, the evaluator, the store.
  ghost predicate GoesWell(t: Task, a: Attempt, r: Report, w: Evaluation.World, clock: Acceptance.GateClock) {
    && r.captured && !r.raced && t.status == TaskState.Running
    && (r.adapterSucceeded ==>
          && !r.swapLost && !r.evaluatorRaises
          && (r.storedRows == None || r.storedRows.value >= |Outcome(t, a, r, w, clock).evidence|))
  }

  lemma SmoothIs(t: Task, a: Attempt, r: Report, w: Evaluation.World, clock: Acceptance.GateClock)
    ensures Smooth(t, r) <==> GoesWell(t, a, r, w, clock)
  {
    hide Acceptance.Judged;
    Acceptance.JudgedRows(RequestOf(t, r), w, SubjectOf(r), Acceptance.Context(a.agent, r.finalTree, clock));
  }

  lemma ConcludedIsFinished(l: Ledger, l': Ledger, id: string, r: Report, w: Evaluation.World,
                            clock: Acceptance.GateClock)
    requires Concluded(l, l', id, r, w, clock)
    ensures FinishedAs(l.tasks[l.attempts[id].task], l.attempts[id], r, w, clock, l', id)
  {
    hide Acceptance.Judged;
  }

  // Nobody else is running on the Task of this Attempt.
  ghost predicate Alone(l: Ledger, id: string)
    requires id in l.attempts
  {
    forall other | other in l.attempts && l.attempts[other].task == l.attempts[id].task ::
      l.attempts[other].status == AttemptState.Running ==> other == id
  }

  // What a call that goes wrong leaves. A failed capture and recovery by another
  // session fail the Attempt; a lost verdict leaves it completed, with the rows
  // stored so far. The Task then fails if nobody else is running on it.
  ghost predicate RefusedAs(l: Ledger, l': Ledger, id: string, r: Report, why: Refusal,
                            rows: seq<Evaluation.Evidence>)
  {
    match why
    case CaptureFailed => FailsBoth(l, l', id)
    case LostRace => FailsBoth(l, l', id)
    case EvaluatorFailed => LosesVerdict(l, l', id) && l'.records == l.records
    case StoreFailed =>
      && LosesVerdict(l, l', id) && r.storedRows.Some? && r.storedRows.value < |rows|
      && id in l'.records && l'.records == l.records[id := l'.records[id]]
      && l'.records[id].rows == rows[..r.storedRows.value]
      && l'.records[id].diff == r.diff && l'.records[id].tree == r.resultTree
    case _ => l' == l
  }

  ghost predicate FailsBoth(l: Ledger, l': Ledger, id: string) {
    && id in l.attempts && l.attempts[id].task in l.tasks && l'.records == l.records
    && var a, t := l.attempts[id], l.tasks[l.attempts[id].task];
    && l'.attempts == l.attempts[id := Attempt(a.task, AttemptState.Failed, a.executor, a.agent)]
    && (Alone(l, id) && t.status == TaskState.Running ==>
          l'.tasks == l.tasks[a.task := Task(TaskState.Failed, t.criteria)])
    && ((!Alone(l, id) || t.status !in {TaskState.Running, Evaluating}) ==> l'.tasks == l.tasks)
  }

  ghost predicate LosesVerdict(l: Ledger, l': Ledger, id: string) {
    && id in l.attempts && l.attempts[id].task in l.tasks
    && var a, t := l.attempts[id], l.tasks[l.attempts[id].task];
    && l'.attempts == l.attempts[id := Attempt(a.task, Completed, a.executor, a.agent)]
    && l'.tasks == l.tasks[a.task := Task(if Alone(l, id) then TaskState.Failed else Evaluating, t.criteria)]
  }

  lemma AloneIs(l: Ledger, id: string)
    requires id in l.attempts
    ensures Exclusive(l.attempts, id) <==> Alone(l, id)
  {
  }

  lemma VerdictIsLegal(v: Verdict)
    ensures TaskStep(Evaluating, TaskStateOf(v))
    ensures forall s :: TaskStep(TaskStateOf(v), s) ==> TaskStateOf(v) != Succeeded && s == TaskState.Ready
  {
  }

  // ---- The service ---------------------------------------------------------

  class Executions {
    var tasks: map<string, Task>
    var attempts: map<string, Attempt>
    var records: map<string, Record>

    ghost function State(): Ledger
      reads this
    {
      Ledger(tasks, attempts, records)
    }

    ghost predicate Valid()
      reads this
    {
      Sound(State())
    }

    constructor ()
      ensures Valid() && State() == EMPTY
    {
      tasks, attempts, records := map[], map[], map[];
    }

    method RegisterTask(task: string, criteria: seq<string>)
      requires Valid() && task !in tasks
      modifies this`tasks
      ensures Valid() && Moves(old(State()), Register(task, criteria), State())
    {
      tasks := tasks[task := Task(TaskState.Created, criteria)];
      MovesKeepSound(old(State()), Register(task, criteria), State());
    }

    // The row changes of `begin`: the gates before them and the dispatch key are
    // modelled on their own. `id` is a fresh uuid.
    method BeginAttempt(task: string, id: string, agent: string, me: string) returns (begun: bool)
      requires Valid() && id !in attempts
      modifies this`tasks, this`attempts
      ensures Valid()
      ensures begun <==> task in old(tasks) && TaskStep(old(tasks)[task].status, TaskState.Ready)
      ensures begun <==>
                && task in old(tasks)
                && old(tasks)[task].status in {TaskState.Created, TaskState.Failed, TaskState.Inconclusive}
      ensures Moves(old(State()), if begun then Begin(task, id, agent, me) else Nothing, State())
    {
      if task !in tasks || !TaskStep(tasks[task].status, TaskState.Ready) { return false; }
      tasks := tasks[task := tasks[task].(status := TaskState.Ready)];
      tasks := tasks[task := tasks[task].(status := TaskState.Running)];
      attempts := attempts[id := Attempt(task, AttemptState.Running, Some(me), agent)];
      MovesKeepSound(old(State()), Begin(task, id, agent, me), State());
      return true;
    }

    // The settling writes of another session or of the end of a run: the Attempt,
    // and then its Task if it is still running.
    method SettleUnjudged(id: string, to: AttemptState, taskTo: TaskState, alone: bool)
      requires Valid() && id in attempts && attempts[id].status == AttemptState.Running
      requires to != Completed && AttemptStep(AttemptState.Running, to)
      requires taskTo == TaskState.Failed || taskTo == TaskState.Inconclusive
      modifies this`tasks, this`attempts
      ensures Valid() && Moves(old(State()), Abandon(id), State())
      ensures attempts == old(attempts)[id := old(attempts)[id].(status := to)]
      ensures var t := old(attempts)[id].task;
              tasks == if alone && !Exclusive(old(attempts), id) then old(tasks)
                       else old(tasks)[t := SwappedTask(old(tasks)[t], taskTo)]
    {
      assert attempts[id].task in tasks;
      hide Sound, Exclusive, Moves;
      var task, touches := attempts[id].task, !alone || Exclusive(attempts, id);
      attempts := attempts[id := attempts[id].(status := to)];
      if touches && tasks[task].status == TaskState.Running {
        tasks := tasks[task := tasks[task].(status := Evaluating)];
        tasks := tasks[task := tasks[task].(status := taskTo)];
      }
      UnjudgedIsAbandoned(old(State()), State(), id, to, taskTo, touches);
    }

    // Orphan recovery of one Attempt whose executor is gone: its Task fails
    // unless another of its Attempts is still running.
    method Recover(id: string)
      requires Valid() && id in attempts && attempts[id].status == AttemptState.Running
      modifies this`tasks, this`attempts
      ensures Valid() && Moves(old(State()), Abandon(id), State())
      ensures attempts == old(attempts)[id := old(attempts)[id].(status := AttemptState.Failed)]
      ensures var t := old(attempts)[id].task;
              tasks == if Exclusive(old(attempts), id)
                       then old(tasks)[t := SwappedTask(old(tasks)[t], TaskState.Failed)] else old(tasks)
      ensures FailsBoth(old(State()), State(), id)
      ensures old(tasks)[old(attempts)[id].task].status == Evaluating ==> tasks == old(tasks)
    {
      AloneIs(State(), id);
      SettleUnjudged(id, AttemptState.Failed, TaskState.Failed, true);
    }

    // The end of a run: an Attempt that is still running is cancelled, unless
    // recovery or another executor has it, and its Task is left undecided.
    method Cancel(id: string, me: string)
      requires Valid()
      modifies this`tasks, this`attempts
      ensures Valid()
      ensures var mine := id in old(attempts) && OwnedRunning(old(attempts)[id], me);
              && Moves(old(State()), if mine then Abandon(id) else Nothing, State())
              && (mine ==>
                    && attempts == old(attempts)[id := old(attempts)[id].(status := Cancelled)]
                    && var t := old(attempts)[id].task;
                       && tasks == old(tasks)[t := SwappedTask(old(tasks)[t], TaskState.Inconclusive)]
                       && (old(tasks)[t].status == TaskState.Running ==>
                             tasks == old(tasks)[t := Task(TaskState.Inconclusive, old(tasks)[t].criteria)])
                       && (old(tasks)[t].status != TaskState.Running ==> tasks == old(tasks)))
      // Mine is what still runs and was begun by me.
      ensures var mine := id in old(attempts) && old(attempts)[id].status == AttemptState.Running
                          && old(attempts)[id].executor == Some(me);
              if mine then attempts[id].status == Cancelled else State() == old(State())
    {
      if id in attempts && OwnedRunning(attempts[id], me) {
        SettleUnjudged(id, Cancelled, TaskState.Inconclusive, false);
      }
    }

    // Fails the Task unless another of its Attempts is still running.
    method FailTaskIfExclusive(id: string)
      requires id in attempts && attempts[id].task in tasks
      modifies this`tasks
      ensures tasks == if Exclusive(attempts, id)
                       then old(tasks)[attempts[id].task := FailedTask(old(tasks)[attempts[id].task])] else old(tasks)
    {
      if !Exclusive(attempts, id) { return; }
      var task := attempts[id].task;
      var t := tasks[task];
      if t.status == TaskState.Running { t := t.(status := Evaluating); }
      if t.status == Evaluating { t := t.(status := TaskState.Failed); }
      tasks := tasks[task := t];
    }

    // Settles a running Attempt this executor owns; otherwise touches the Task
    // only if this very call had completed the Attempt.
    method FailAttempt(id: string, me: string)
      requires id in attempts && attempts[id].task in tasks
      modifies this`tasks, this`attempts
      ensures attempts == if OwnedRunning(old(attempts)[id], me)
                          then old(attempts)[id := old(attempts)[id].(status := AttemptState.Failed)] else old(attempts)
      ensures var a := old(attempts)[id];
              tasks == if (OwnedRunning(a, me) || (a.status == Completed && a.executor == Some(me)))
                          && Exclusive(old(attempts), id)
                       then old(tasks)[a.task := FailedTask(old(tasks)[a.task])] else old(tasks)
    {
      var a := attempts[id];
      if OwnedRunning(a, me) {
        attempts := attempts[id := a.(status := AttemptState.Failed)];
        SettlingKeepsOthers(old(attempts), attempts, id);
        FailTaskIfExclusive(id);
      } else if a.status == Completed && a.executor == Some(me) {
        FailTaskIfExclusive(id);
      }
    }

    // Everything up to the evaluation: the compare-and-swap steps, after which
    // the Attempt is settled and its Task has left `running`.
    method Settle(id: string, me: string, r: Report) returns (refused: Option<Refusal>)
      requires Valid() && id in attempts && OwnedRunning(attempts[id], me)
      modifies this`tasks, this`attempts
      ensures refused.Some? ==>
                && refused.value in {CaptureFailed, LostRace, TaskNotRunning}
                && Valid()
                && Moves(old(State()), if refused == Some(TaskNotRunning) then Nothing else Abandon(id), State())
      ensures refused.None? ==>
                var a, t := old(attempts)[id], old(attempts)[id].task;
                && r.captured && !r.raced && old(tasks)[t].status == TaskState.Running
                && attempts == old(attempts)[id := a.(status := SettledAs(r))]
                && tasks == old(tasks)[t := old(tasks)[t].(status := if r.adapterSucceeded then Evaluating
                                                                     else TaskState.Failed)]
      ensures refused.Some? ==> RefusedAs(old(State()), State(), id, r, refused.value, [])
      // The first of these that is so decides.
      ensures refused == if !r.captured then Some(CaptureFailed) else if r.raced then Some(LostRace)
                         else if old(tasks)[old(attempts)[id].task].status != TaskState.Running then
                           Some(TaskNotRunning)
                         else None
    {
      var task := attempts[id].task;
      AloneIs(State(), id);
      if !r.captured {
        FailAttempt(id, me);
        AbandonKeepsSound(old(State()), State(), id);
        return Some(CaptureFailed);
      }
      if r.raced {
        Recover(id);
        return Some(LostRace);
      }
      if tasks[task].status != TaskState.Running { return Some(TaskNotRunning); }
      attempts := attempts[id := attempts[id].(status := SettledAs(r))];
      tasks := tasks[task := tasks[task].(status := Evaluating)];
      if !r.adapterSucceeded {
        tasks := tasks[task := tasks[task].(status := TaskState.Failed)];
      }
      return None;
    }

    // What is stored between the two halves: the Attempt completed, its Task in
    // evaluation.
    ghost predicate Evaluates(before: Ledger, id: string, me: string)
      reads this
    {
      && Sound(before) && id in before.attempts && OwnedRunning(before.attempts[id], me)
      && var t := before.attempts[id].task;
         && before.tasks[t].status == TaskState.Running
         && State() == before.(tasks := before.tasks[t := before.tasks[t].(status := Evaluating)],
                               attempts := before.attempts[id := before.attempts[id].(status := Completed)])
    }

    // The verdict on an Attempt could not be reached: the rows stored so far stay
    // and the Task is not accepted.
    method GiveUp(id: string, me: string, stored: Option<Record>, ghost before: Ledger)
      requires Evaluates(before, id, me)
      modifies this
      ensures Abandoned(before, State(), id) && LosesVerdict(before, State(), id)
      ensures records == if stored.Some? then before.records[id := stored.value] else before.records
    {
      if stored.Some? { records := records[id := stored.value]; }
      AloneIs(before, id);
      SettlingKeepsOthers(before.attempts, attempts, id);
      FailAttempt(id, me);
    }

    // The evaluator decides. `before` is what was stored when the call began.
    method Judge(id: string, me: string, r: Report, w: Evaluation.World, clock: Acceptance.GateClock,
                 ghost before: Ledger)
      returns (refused: Option<Refusal>)
      requires Evaluates(before, id, me) && r.adapterSucceeded && !r.swapLost
      modifies this
      ensures refused in {None, Some(EvaluatorFailed), Some(StoreFailed)}
      ensures refused.None? <==> !Interrupted(before.tasks[before.attempts[id].task], r)
      ensures refused.None? ==> Concluded(before, State(), id, r, w, clock)
      ensures refused.Some? ==>
                && Abandoned(before, State(), id)
                && RefusedAs(before, State(), id, r, refused.value,
                             Outcome(before.tasks[before.attempts[id].task], before.attempts[id], r, w, clock).evidence)
    {
      if r.evaluatorRaises {
        GiveUp(id, me, None, before);
        return Some(EvaluatorFailed);
      }
      var task := attempts[id].task;
      var evaluation := Evaluation.Evaluate(RequestOf(tasks[task], r), w, SubjectOf(r));
      var context := Acceptance.Context(attempts[id].agent, r.finalTree, clock);
      var judged := Acceptance.Stages(evaluation, SubjectOf(r), context);
      assert |judged.evidence| == |RequestOf(tasks[task], r).Jobs()| by {
        Acceptance.JudgedRows(RequestOf(tasks[task], r), w, SubjectOf(r), context);
      }
      if r.storedRows.Some? && r.storedRows.value < |judged.evidence| {
        GiveUp(id, me, Some(RecordOf(r, judged.evidence[..r.storedRows.value])), before);
        return Some(StoreFailed);
      }
      Accept(id, me, r, judged, before);
      return None;
    }

    // The rows are stored and the Task leaves `evaluating` for its verdict.
    method Accept(id: string, me: string, r: Report, judged: Evaluation.Evaluated, ghost before: Ledger)
      requires Evaluates(before, id, me)
      modifies this
      ensures var a := before.attempts[id];
              State() == Ledger(before.tasks[a.task := before.tasks[a.task].(status := TaskStateOf(judged.status))],
                                before.attempts[id := a.(status := Completed)],
                                before.records[id := RecordOf(r, judged.evidence)])
    {
      var task := attempts[id].task;
      records := records[id := RecordOf(r, judged.evidence)];
      tasks := tasks[task := tasks[task].(status := TaskStateOf(judged.status))];
    }

    // Everything after the guards of `Finish`.
    method SettleAndJudge(id: string, me: string, r: Report, w: Evaluation.World, clock: Acceptance.GateClock)
      returns (refused: Option<Refusal>)
      requires Valid() && id in attempts && OwnedRunning(attempts[id], me)
      modifies this
      ensures Valid() && refused !in {Some(NotFound), Some(NotOwned), Some(DecisionPending)}
      ensures refused.None? <==> Smooth(old(tasks)[old(attempts)[id].task], r)
      ensures refused.Some? ==>
                var a := old(attempts)[id];
                RefusedAs(old(State()), State(), id, r, refused.value,
                          Outcome(old(tasks)[a.task], a, r, w, clock).evidence)
      ensures Moves(old(State()), EventOf(id, r, w, clock, refused), State())
    {
      var tasks0, attempts0 := tasks, attempts;
      refused := Settle(id, me, r);
      if refused.Some? { return; }
      if !r.adapterSucceeded {
        ConcludeKeepsSound(old(State()), State(), id, r, w, clock);
        return;
      }
      if r.swapLost {
        // The session is rolled back.
        tasks, attempts := tasks0, attempts0;
        return Some(TaskNotEvaluating);
      }
      refused := Judge(id, me, r, w, clock, old(State()));
      MovesKeepSound(old(State()), EventOf(id, r, w, clock, refused), State());
    }

    method Finish(id: string, me: string, r: Report, w: Evaluation.World, clock: Acceptance.GateClock)
      returns (refused: Option<Refusal>)
      requires Valid()
      modifies this
      ensures Valid()
      // Not this executor's running Attempt, or a decision is pending: nothing changes.
      ensures refused in {Some(NotFound), Some(NotOwned), Some(DecisionPending)} <==>
                id !in old(attempts) || !OwnedRunning(old(attempts)[id], me) || r.blocked
      ensures refused == Some(NotFound) <==> id !in old(attempts)
      ensures refused == Some(NotOwned) <==>
                && id in old(attempts)
                && (old(attempts)[id].status != AttemptState.Running || old(attempts)[id].executor != Some(me))
      ensures refused.None? <==>
                && id in old(attempts) && OwnedRunning(old(attempts)[id], me) && !r.blocked
                && Smooth(old(tasks)[old(attempts)[id].task], r)
      ensures refused.None? <==>
                && id in old(attempts) && old(attempts)[id].status == AttemptState.Running
                && old(attempts)[id].executor == Some(me) && !r.blocked
                && GoesWell(old(tasks)[old(attempts)[id].task], old(attempts)[id], r, w, clock)
      ensures refused.None? ==>
                FinishedAs(old(tasks)[old(attempts)[id].task], old(attempts)[id], r, w, clock, State(), id)
      ensures refused.Some? && refused.value !in {NotFound, NotOwned, DecisionPending} ==>
                var a := old(attempts)[id];
                RefusedAs(old(State()), State(), id, r, refused.value,
                          Outcome(old(tasks)[a.task], a, r, w, clock).evidence)
      // Otherwise the evaluator's word, and nothing else, settles the Task; a
      // call that goes wrong abandons the Attempt or changes nothing.
      ensures Moves(old(State()), EventOf(id, r, w, clock, refused), State())
    {
      if id !in attempts { return Some(NotFound); }
      if !OwnedRunning(attempts[id], me) { return Some(NotOwned); }
      if r.blocked { return Some(DecisionPending); }
      SmoothIs(tasks[attempts[id].task], attempts[id], r, w, clock);
      refused := SettleAndJudge(id, me, r, w, clock);
      if refused.None? { ConcludedIsFinished(old(State()), State(), id, r, w, clock); }
    }
  }

  // What a call of `finish` that came to this did to the ledger.
  function EventOf(id: string, r: Report, w: Evaluation.World, clock: Acceptance.GateClock, refused: Option<Refusal>)
    : Event
  {
    match refused
    case None => Conclude(id, r, w, clock)
    case Some(why) => if why in {CaptureFailed, LostRace, EvaluatorFailed, StoreFailed} then Abandon(id) else Nothing
  }

  lemma SettlingKeepsOthers(before: map<string, Attempt>, after: map<string, Attempt>, id: string)
    requires id in before && id in after && after == before[id := after[id]]
    requires after[id].task == before[id].task
    ensures Exclusive(after, id) <==> Exclusive(before, id)
  {
    assert after.Keys == before.Keys;
    forall other | other in after && other != id ensures after[other] == before[other] {}
  }
}
