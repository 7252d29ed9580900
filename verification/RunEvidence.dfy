/** Runs and stored Evidence together: what the verdicts a run sees say about its
    Tasks (sdf_core/coordinator.py, `_verify`; sdf_core/execution.py, `finish`). */
module RunEvidence {
  import opened Results
  import opened States
  import opened Verdicts
  import opened RunState
  import opened RunSafety
  import opened RunProperties
  import Acceptance
  import Evaluation
  import Execution

  // The verdict a run reads off a Task.
  function VerdictOf(s: TaskState): Verdict {
    match s
    case Succeeded => Pass
    case Failed => Fail
    case _ => Verdict.Inconclusive
  }

  // Host verification of one Attempt: `finish`, and then the Task as it stands.
  // Anything `finish` raises ends the run.
  method VerifyAttempt(service: Execution.Executions, id: string, me: string, r: Execution.Report, w: Evaluation.World,
                       clock: Acceptance.GateClock) returns (outcome: CheckOutcome)
    requires service.Valid()
    modifies service
    ensures service.Valid()
    ensures outcome.Judged? <==>
              && id in old(service.attempts) && Execution.OwnedRunning(old(service.attempts)[id], me) && !r.blocked
              && Execution.Smooth(old(service.tasks)[old(service.attempts)[id].task], r)
    ensures outcome.Judged? ==>
              && Execution.Moves(old(service.State()), Execution.Conclude(id, r, w, clock), service.State())
              && var task := old(service.attempts)[id].task;
                 task in service.tasks && service.tasks[task].status == Execution.TaskStateOf(outcome.verdict)
    // The verdict is the judgement itself, or FAIL if the adapter did not succeed.
    ensures outcome.Judged? ==>
              var a := old(service.attempts)[id];
              outcome.verdict == if r.adapterSucceeded then
                                   Execution.Outcome(old(service.tasks)[a.task], a, r, w, clock).status
                                 else Fail
    // Without a verdict no Task is accepted, and the run is told whether the
    // Attempt is still open.
    ensures outcome.Raises? ==>
              && (|| Execution.Moves(old(service.State()), Execution.Abandon(id), service.State())
                  || service.State() == old(service.State()))
              && (outcome.left == Untouched || outcome.left == SettledUnjudged)
              && (outcome.left == Untouched <==>
                    id in service.attempts && service.attempts[id].status == AttemptState.Running)
  {
    hide Execution.Sound, Execution.Smooth, Execution.JudgedBy, Execution.Outcome;
    var refused := service.Finish(id, me, r, w, clock);
    if refused.Some? {
      var open := id in service.attempts && service.attempts[id].status == AttemptState.Running;
      return Raises(if open then Untouched else SettledUnjudged);
    }
    var task := service.attempts[id].task;
    outcome := Judged(VerdictOf(service.tasks[task].status));
  }

  // ---- A run and the history of the ledger ---------------------------------

  // `ledgers[at[i]]` is stored when poll `i` begins; subtask `k` works on
  // `tasks[k]`.
  datatype Book = Book(ledgers: seq<Execution.Ledger>, events: seq<Execution.Event>, at: seq<nat>, tasks: seq<string>)

  ghost predicate BookOk(t: Trace, b: Book) {
    && Execution.History(b.ledgers, b.events)
    && |b.at| == |t.runs| > 0 && |b.tasks| == |t.runs[0].subtasks|
    && (forall i :: 0 <= i < |b.at| ==> b.at[i] < |b.ledgers|)
    && (forall i :: 0 <= i < |b.at| - 1 ==> b.at[i] <= b.at[i + 1])
  }

  // Event `e` settled the Task of subtask `k` by an evaluation that came to `v`.
  ghost predicate Concludes(b: Book, e: nat, k: nat, v: Verdict) {
    && k < |b.tasks| && e < |b.events| && e + 1 < |b.ledgers| && b.events[e].Conclude?
    && b.events[e].id in b.ledgers[e].attempts && b.ledgers[e].attempts[b.events[e].id].task == b.tasks[k]
    && b.tasks[k] in b.ledgers[e + 1].tasks && b.ledgers[e + 1].tasks[b.tasks[k]].status == Execution.TaskStateOf(v)
  }

  ghost predicate During(b: Book, i: nat, e: nat) { i + 1 < |b.at| && b.at[i] <= e < b.at[i + 1] }

  ghost predicate OnBook(b: Book, i: nat, k: nat, v: Verdict) {
    exists e: nat :: During(b, i, e) && Concludes(b, e, k, v)
  }

  // A verdict in poll `i` is what `VerifyAttempt` said, so it is in the history.
  ghost predicate Backed(cfg: Config, t: Trace, b: Book) {
    forall i: nat, k: nat, v: Verdict :: JudgedAt(cfg, t, i, k, v) && k < |b.tasks| ==> OnBook(b, i, k, v)
  }

  lemma {:induction false} AtGrows(t: Trace, b: Book, i: nat, j: nat)
    requires BookOk(t, b) && i <= j < |b.at|
    ensures b.at[i] <= b.at[j]
    decreases j - i
  {
    if i < j {
      AtGrows(t, b, i, j - 1);
      assert b.at[j - 1] <= b.at[j - 1 + 1];
    }
  }

  // The Task of subtask `k` is accepted in this ledger.
  ghost predicate TaskAccepted(b: Book, n: nat, k: nat)
    requires n < |b.ledgers| && k < |b.tasks|
  {
    && b.tasks[k] in b.ledgers[n].tasks && b.ledgers[n].tasks[b.tasks[k]].status == TaskState.Succeeded
    && exists a :: Execution.Accepted(b.tasks[k], b.ledgers[n], a)
  }

  lemma JudgedIsAccepted(cfg: Config, t: Trace, b: Book, i: nat, k: nat, n: nat)
    requires BookOk(t, b) && Backed(cfg, t, b) && k < |b.tasks|
    requires JudgedAt(cfg, t, i, k, Pass) && i + 1 < |b.at| && b.at[i + 1] <= n < |b.ledgers|
    ensures TaskAccepted(b, n, k)
  {
    assert OnBook(b, i, k, Pass);
    var e: nat :| During(b, i, e) && Concludes(b, e, k, Pass);
    ConcludedIsAccepted(b, e, k, n);
  }

  lemma ConcludedIsAccepted(b: Book, e: nat, k: nat, n: nat)
    requires Execution.History(b.ledgers, b.events) && Concludes(b, e, k, Pass) && e < n < |b.ledgers|
    ensures TaskAccepted(b, n, k)
  {
    Execution.SucceededForEver(b.ledgers, b.events, e + 1, n, b.tasks[k]);
    Execution.SoundAlways(b.ledgers, b.events, n);
  }

  // When a run has succeeded, and ever after, the Task of each of its subtasks
  // is `succeeded` with stored Evidence that accepts it.
  lemma SucceededRunIsAccepted(cfg: Config, t: Trace, b: Book, n: nat, k: nat)
    requires ConfigOk(cfg) && IsRun(cfg, t) && t.polls != [] && t.statuses[|t.polls| - 1] == Ended(Outcome.Succeeded)
    requires BookOk(t, b) && Backed(cfg, t, b) && k < |b.tasks|
    requires b.at[|b.at| - 1] <= n < |b.ledgers|
    ensures TaskAccepted(b, n, k)
  {
    hide IsRun, Backed, TaskAccepted, JudgedAt, Execution.History, Shaped;
    var i := JudgedInSuccess(cfg, t, k);
    AtGrows(t, b, i + 1, |b.at| - 1);
    JudgedIsAccepted(cfg, t, b, i, k, n);
  }

  lemma JudgedInSuccess(cfg: Config, t: Trace, k: nat) returns (i: nat)
    requires ConfigOk(cfg) && IsRun(cfg, t) && t.polls != [] && t.statuses[|t.polls| - 1] == Ended(Outcome.Succeeded)
    requires k < |t.runs[0].subtasks|
    ensures i + 1 < |t.runs| && JudgedAt(cfg, t, i, k, Pass)
  {
    hide Advance, Init, Verified;
    SuccessIsEvidence(cfg, t);
    assert PassedOnEvidence(cfg, t, k);
    i :| JudgedAt(cfg, t, i, k, Pass);
  }

  // ---- Exactly the passed subtasks are accepted ----------------------------

  // When poll `n` begins: the Tasks were open when the run began, and nobody
  // but the run has settled them since.
  ghost predicate OnlyTheRun(cfg: Config, t: Trace, b: Book, n: nat)
    requires BookOk(t, b) && n < |b.at|
  {
    && (forall k :: 0 <= k < |b.tasks| ==>
          b.tasks[k] in b.ledgers[b.at[0]].tasks && b.ledgers[b.at[0]].tasks[b.tasks[k]].status != TaskState.Succeeded)
    && (forall e: nat, k: nat :: b.at[0] <= e < b.at[n] && Concludes(b, e, k, Pass) ==>
          exists i: nat :: i < n && JudgedAt(cfg, t, i, k, Pass))
  }

  lemma {:induction false} SucceededSince(b: Book, i: nat, j: nat, k: nat) returns (e: nat)
    requires Execution.History(b.ledgers, b.events) && i <= j < |b.ledgers| && k < |b.tasks|
    requires b.tasks[k] in b.ledgers[i].tasks && b.ledgers[i].tasks[b.tasks[k]].status != TaskState.Succeeded
    requires b.tasks[k] in b.ledgers[j].tasks && b.ledgers[j].tasks[b.tasks[k]].status == TaskState.Succeeded
    ensures i <= e < j && Concludes(b, e, k, Pass)
    decreases j - i
  {
    hide Execution.JudgedBy, Execution.SubjectOf, Execution.RequestOf, Execution.RecordOf;
    var before := b.ledgers[j - 1];
    assert Execution.Moves(before, b.events[j - 1], b.ledgers[j - 1 + 1]);
    if b.tasks[k] in before.tasks && before.tasks[b.tasks[k]].status == TaskState.Succeeded {
      e := SucceededSince(b, i, j - 1, k);
    } else {
      Execution.SucceededHasCause(before, b.events[j - 1], b.ledgers[j], b.tasks[k]);
      e := j - 1;
    }
  }

  lemma {:induction false} PassStays(cfg: Config, t: Trace, i: nat, n: nat, k: nat)
    requires ConfigOk(cfg) && IsRun(cfg, t) && i <= n < |t.runs|
    requires k < |t.runs[i].subtasks| && t.runs[i].subtasks[k].verdict == Some(Pass)
    requires i < n
    ensures k < |t.runs[n].subtasks| && t.runs[n].subtasks[k].verdict == Some(Pass)
    decreases n - i
  {
    hide Advance, Init, Inv;
    if i + 1 < n { PassStays(cfg, t, i, n - 1, k); }
    assert StepOk(cfg, t, n - 1);
    InvAlways(cfg, t, n - 1);
    PassIsAbsorbing(cfg, t.runs[n - 1], t.polls[n - 1], k);
  }

  lemma JudgedStays(cfg: Config, t: Trace, i: nat, n: nat, k: nat)
    requires ConfigOk(cfg) && IsRun(cfg, t) && i < n < |t.runs| && JudgedAt(cfg, t, i, k, Pass)
    ensures k < |t.runs[n].subtasks| && t.runs[n].subtasks[k].verdict == Some(Pass)
  {
    hide Advance, Init, Shaped, Inv;
    assert t.runs[i + 1].subtasks[k].verdict == Some(Pass);
    if i + 1 < n { PassStays(cfg, t, i + 1, n, k); }
  }

  // As long as no exception has ended the run, the subtasks it holds to be
  // passed are exactly those whose Tasks are `succeeded`.
  lemma PassedIffAccepted(cfg: Config, t: Trace, b: Book, n: nat, k: nat)
    requires ConfigOk(cfg) && IsRun(cfg, t) && BookOk(t, b) && Backed(cfg, t, b)
    requires n < |t.runs| && k < |b.tasks| && (n > 0 ==> t.statuses[n - 1] != Ended(Outcome.Failed(Exception)))
    requires OnlyTheRun(cfg, t, b, n)
    ensures k < |t.runs[n].subtasks|
    ensures t.runs[n].subtasks[k].verdict == Some(Pass) <==>
              && b.tasks[k] in b.ledgers[b.at[n]].tasks
              && b.ledgers[b.at[n]].tasks[b.tasks[k]].status == TaskState.Succeeded
  {
    hide Advance, Init, Execution.History, Backed, JudgedAt, Concludes;
    InvAlways(cfg, t, n);
    if t.runs[n].subtasks[k].verdict == Some(Pass) {
      var i := VerdictHasCause(cfg, t, n, k);
      AtGrows(t, b, i + 1, n);
      JudgedIsAccepted(cfg, t, b, i, k, b.at[n]);
    } else if b.tasks[k] in b.ledgers[b.at[n]].tasks
              && b.ledgers[b.at[n]].tasks[b.tasks[k]].status == TaskState.Succeeded {
      AtGrows(t, b, 0, n);
      var e := SucceededSince(b, b.at[0], b.at[n], k);
      var i: nat :| i < n && JudgedAt(cfg, t, i, k, Pass);
      JudgedStays(cfg, t, i, n, k);
    }
  }
}
