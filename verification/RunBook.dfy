/** The book of a run: the history of the ledger it settles Attempts in, and where
    each poll ended. Every verdict of the run stays on it (sdf_core/execution.py,
    sdf_core/coordinator.py). */
module RunBook {
  import opened Results
  import opened States
  import opened Verdicts
  import opened RunState
  import opened RunSafety
  import opened RunProperties
  import opened RunClock
  import opened RunEvidence
  import Execution

  // ---- Keeping the book ----------------------------------------------------

  // The book is complete: it ends with what is stored now.
  ghost predicate UpToDate(b: Book, l: Execution.Ledger) {
    Execution.History(b.ledgers, b.events) && b.ledgers[|b.ledgers| - 1] == l
  }

  ghost predicate Extends(b: Book, longer: Book) {
    b.ledgers <= longer.ledgers && b.events <= longer.events && longer.at == b.at && longer.tasks == b.tasks
  }

  ghost function Noted(b: Book, e: Execution.Event, l: Execution.Ledger): Book {
    b.(ledgers := b.ledgers + [l], events := b.events + [e])
  }

  lemma NoteStep(b: Book, l: Execution.Ledger, e: Execution.Event, l': Execution.Ledger)
    requires UpToDate(b, l) && Execution.Moves(l, e, l')
    ensures UpToDate(Noted(b, e, l'), l') && Extends(b, Noted(b, e, l'))
  {
    hide Execution.Moves;
    var longer := Noted(b, e, l');
    forall i: nat | i < |longer.events|
      ensures Execution.Moves(longer.ledgers[i], longer.events[i], longer.ledgers[i + 1])
    {
      if i < |b.events| {
        assert Execution.Moves(b.ledgers[i], b.events[i], b.ledgers[i + 1]);
      }
    }
  }

  lemma ExtendsOn(a: Book, b: Book, c: Book)
    requires Extends(a, b) && Extends(b, c)
    ensures Extends(a, c)
  {
  }

  // What an entry of the book said stays said.
  lemma StillConcludes(b: Book, longer: Book, e: nat, k: nat, v: Verdict)
    requires Concludes(b, e, k, v)
    requires b.ledgers <= longer.ledgers && b.events <= longer.events && longer.tasks == b.tasks
    ensures Concludes(longer, e, k, v)
  {
    assert longer.ledgers[e] == b.ledgers[e] && longer.ledgers[e + 1] == b.ledgers[e + 1];
  }

  lemma NotedConcludes(b: Book, l: Execution.Ledger, e: Execution.Event, l': Execution.Ledger, k: nat, v: Verdict)
    requires UpToDate(b, l) && e.Conclude? && k < |b.tasks|
    requires e.id in l.attempts && l.attempts[e.id].task == b.tasks[k]
    requires b.tasks[k] in l'.tasks && l'.tasks[b.tasks[k]].status == Execution.TaskStateOf(v)
    ensures Concludes(Noted(b, e, l'), |b.events|, k, v)
  {
  }

  // Attempts never change their Task, never run again, and appear by `begin`.
  ghost predicate AttemptsGoOn(l: Execution.Ledger, l': Execution.Ledger, added: set<string>) {
    l'.attempts.Keys <= l.attempts.Keys + added && AttemptsKept(l, l')
  }

  ghost predicate AttemptsKept(l: Execution.Ledger, l': Execution.Ledger) {
    forall a :: a in l.attempts ==>
         && a in l'.attempts && l'.attempts[a].task == l.attempts[a].task
         && (l.attempts[a].status != AttemptState.Running ==> l'.attempts[a].status != AttemptState.Running)
  }

  lemma MovesGoOn(l: Execution.Ledger, e: Execution.Event, l': Execution.Ledger)
    requires Execution.Moves(l, e, l')
    ensures AttemptsGoOn(l, l', if e.Begin? then {e.id} else {})
    ensures e.Conclude? ==> e.id in l'.attempts && l'.attempts[e.id].status != AttemptState.Running
    ensures e.Begin? ==> e.id in l'.attempts && l'.attempts[e.id].task == e.task
  {
    hide Execution.JudgedBy, Execution.RecordOf, Execution.TaskStateOf;
  }

  lemma GoOnOn(a: Execution.Ledger, b: Execution.Ledger, c: Execution.Ledger, added: set<string>, more: set<string>)
    requires AttemptsGoOn(a, b, added) && AttemptsGoOn(b, c, more)
    ensures AttemptsGoOn(a, c, added + more)
  {
  }

  lemma GoOnWith(l: Execution.Ledger, l': Execution.Ledger, id: string)
    requires AttemptsGoOn(l, l', {})
    ensures AttemptsGoOn(l, l', {id})
  {
  }

  lemma SameBook(b: Book, l: Execution.Ledger, id: string)
    ensures Extends(b, b) && AttemptsGoOn(l, l, {id})
  {
  }

  // The book has the verdict on subtask `k`, entered from `from` on.
  ghost predicate Entered(b: Book, from: nat, k: nat, v: Verdict) {
    exists e: nat :: from <= e && Concludes(b, e, k, v)
  }

  ghost predicate Answers(b: Book, from: nat, checks: seq<CheckOutcome>) {
    forall k :: 0 <= k < |checks| && checks[k].Judged? ==> Entered(b, from, k, checks[k].verdict)
  }

  lemma StillEntered(b: Book, longer: Book, from: nat, k: nat, v: Verdict)
    requires Entered(b, from, k, v) && Extends(b, longer)
    ensures Entered(longer, from, k, v)
  {
    hide Concludes;
    var e: nat :| from <= e && Concludes(b, e, k, v);
    StillConcludes(b, longer, e, k, v);
  }

  lemma AnswersOn(b: Book, longer: Book, from: nat, checks: seq<CheckOutcome>, k: nat, outcome: CheckOutcome)
    requires Answers(b, from, checks) && Extends(b, longer) && k < |checks|
    requires outcome.Judged? ==> Entered(longer, from, k, outcome.verdict)
    ensures Answers(longer, from, checks[k := outcome])
  {
    hide Entered, Extends;
    var put := checks[k := outcome];
    forall j | 0 <= j < |put| && put[j].Judged? ensures Entered(longer, from, j, put[j].verdict) {
      if j != k { StillEntered(b, longer, from, j, checks[j].verdict); }
    }
  }

  lemma NothingChecked(b: Book, from: nat, checks: seq<CheckOutcome>)
    requires forall k :: 0 <= k < |checks| ==> checks[k] == Raises(Untouched)
    ensures Answers(b, from, checks) && Extends(b, b)
  {
  }

  lemma EnteredSince(start: Book, was: Book, b: Book, k: nat, v: Verdict)
    requires Extends(start, was) && Entered(b, |was.events|, k, v)
    ensures Entered(b, |start.events|, k, v)
  {
    hide Concludes;
  }

  // At the end of the book the Attempt is there, and does not run if settled.
  ghost predicate HoldsAttempt(b: Book, id: string, task: string, settled: bool) {
    b.ledgers != [] &&
    var last := b.ledgers[|b.ledgers| - 1];
    && id in last.attempts && last.attempts[id].task == task
    && (settled ==> last.attempts[id].status != AttemptState.Running)
  }

  // Before the first poll there is no verdict to back.
  lemma NothingJudged(cfg: Config, t: Trace, b: Book)
    requires t.polls == []
    ensures Backed(cfg, t, b)
  {
  }

  // ---- Other sessions ------------------------------------------------------

  lemma {:induction false} HistoryKeeps(ledgers: seq<Execution.Ledger>, events: seq<Execution.Event>, i: nat, j: nat)
    requires Execution.History(ledgers, events) && i <= j < |ledgers|
    ensures AttemptsKept(ledgers[i], ledgers[j])
    decreases j - i
  {
    hide Execution.Moves;
    if i < j {
      HistoryKeeps(ledgers, events, i, j - 1);
      assert Execution.Moves(ledgers[j - 1], events[j - 1], ledgers[j - 1 + 1]);
      MovesGoOn(ledgers[j - 1], events[j - 1], ledgers[j]);
    }
  }

  // The book with what others did to the ledger since the last poll.
  ghost function Continued(b: Book, ledgers: seq<Execution.Ledger>, events: seq<Execution.Event>): Book
    requires b.at != []
  {
    b.(ledgers := ledgers, events := events, at := b.at[|b.at| - 1 := |events|])
  }

  ghost predicate Continues(b: Book, ledgers: seq<Execution.Ledger>, events: seq<Execution.Event>) {
    b.ledgers <= ledgers && b.events <= events && Execution.History(ledgers, events)
  }

  lemma ContinuedIsBacked(cfg: Config, t: Trace, b: Book, ledgers: seq<Execution.Ledger>, events: seq<Execution.Event>)
    requires BookOk(t, b) && Backed(cfg, t, b) && b.at[|b.at| - 1] == |b.events| && Continues(b, ledgers, events)
    ensures BookOk(t, Continued(b, ledgers, events)) && Backed(cfg, t, Continued(b, ledgers, events))
  {
    hide JudgedAt, Concludes, Execution.Moves;
    var longer := Continued(b, ledgers, events);
    forall i: nat, k: nat, v: Verdict | JudgedAt(cfg, t, i, k, v) && k < |longer.tasks|
      ensures OnBook(longer, i, k, v)
    {
      assert OnBook(b, i, k, v);
      var e: nat :| During(b, i, e) && Concludes(b, e, k, v);
      StillConcludes(b, longer, e, k, v);
      assert During(longer, i, e);
    }
  }

  // ---- Putting a poll on record --------------------------------------------

  // The book with the poll it was kept through closed.
  ghost function Closed(b: Book): Book { b.(at := b.at + [|b.events|]) }

  lemma JudgedBefore(cfg: Config, t: Trace, longer: Trace, i: nat, k: nat, v: Verdict)
    requires t.runs <= longer.runs && t.polls <= longer.polls && t.statuses <= longer.statuses
    requires |t.runs| == |t.polls| + 1 == |t.statuses| + 1 && i < |t.polls| && JudgedAt(cfg, longer, i, k, v)
    ensures JudgedAt(cfg, t, i, k, v)
  {
    hide Advance, Shaped, Fits, Verified;
    assert longer.runs[i] == t.runs[i] && longer.runs[i + 1] == t.runs[i + 1];
  }

  // A verdict of an earlier poll stays on the book.
  lemma BackedBefore(cfg: Config, t: Trace, b: Book, longer: Trace, after: Book, i: nat, k: nat, v: Verdict)
    requires BookOk(t, b) && Backed(cfg, t, b) && Extends(b, after)
    requires t.runs <= longer.runs && t.polls <= longer.polls && t.statuses <= longer.statuses
    requires |t.runs| == |t.polls| + 1 == |t.statuses| + 1 && i < |t.polls| && k < |b.tasks|
    requires JudgedAt(cfg, longer, i, k, v)
    ensures OnBook(Closed(after), i, k, v)
  {
    hide JudgedAt, BookOk;
    JudgedBefore(cfg, t, longer, i, k, v);
    assert OnBook(b, i, k, v);
    StaysOnBook(b, after, i, k, v);
  }

  lemma StaysOnBook(b: Book, after: Book, i: nat, k: nat, v: Verdict)
    requires Extends(b, after) && OnBook(b, i, k, v)
    ensures OnBook(Closed(after), i, k, v)
  {
    hide Concludes;
    var e: nat :| During(b, i, e) && Concludes(b, e, k, v);
    StillConcludes(b, Closed(after), e, k, v);
    assert During(Closed(after), i, e);
  }

  // So does a verdict of the poll just made.
  lemma BackedNow(b: Book, after: Book, n: nat, k: nat, v: Verdict)
    requires Extends(b, after) && Entered(after, |b.events|, k, v)
    requires n + 1 == |b.at| && b.at[n] == |b.events|
    ensures OnBook(Closed(after), n, k, v)
  {
    var e: nat :| |b.events| <= e && Concludes(after, e, k, v);
    StillConcludes(after, Closed(after), e, k, v);
    assert During(Closed(after), n, e);
  }

  lemma PollIsBacked(cfg: Config, t: Trace, b: Book, longer: Trace, after: Book, now: Execution.Ledger)
    requires BookOk(t, b) && Backed(cfg, t, b) && b.at[|b.at| - 1] == |b.events|
    requires UpToDate(after, now) && Extends(b, after)
    requires t.runs <= longer.runs && t.polls <= longer.polls && t.statuses <= longer.statuses
    requires |t.runs| == |t.polls| + 1 == |t.statuses| + 1
    requires |longer.runs| == |t.runs| + 1 && |longer.polls| == |t.polls| + 1
    requires Answers(after, |b.events|, longer.polls[|t.polls|].checks)
    ensures BookOk(longer, Closed(after)) && Backed(cfg, longer, Closed(after))
  {
    hide JudgedAt, OnBook, Answers, Entered;
    var n, closed := |t.polls|, Closed(after);
    ClosedIsOk(t, b, longer, after, now);
    hide BookOk, UpToDate, Extends;
    TasksStay(b, after);
    SameLength(t, b);
    forall i: nat, k: nat, v: Verdict | JudgedAt(cfg, longer, i, k, v) && k < |closed.tasks|
      ensures OnBook(closed, i, k, v)
    {
      JudgedIsChecked(cfg, longer, i, k, v);
      if i < n {
        BackedBefore(cfg, t, b, longer, after, i, k, v);
      } else {
        AnswerEntered(after, |b.events|, longer.polls[n].checks, k, v);
        BackedNow(b, after, n, k, v);
      }
    }
  }

  lemma AnswerEntered(b: Book, from: nat, checks: seq<CheckOutcome>, k: nat, v: Verdict)
    requires Answers(b, from, checks) && k < |checks| && checks[k] == Judged(v)
    ensures Entered(b, from, k, v)
  {
    hide Entered;
  }

  lemma ClosedIsOk(t: Trace, b: Book, longer: Trace, after: Book, now: Execution.Ledger)
    requires BookOk(t, b) && b.at[|b.at| - 1] == |b.events| && UpToDate(after, now) && Extends(b, after)
    requires t.runs <= longer.runs && |longer.runs| == |t.runs| + 1
    ensures BookOk(longer, Closed(after))
  {
    hide Execution.Moves;
    assert longer.runs[0] == t.runs[0];
  }

  lemma PollIsRecorded(cfg: Config, t: Trace, b: Book, q: Poll, after: Book, now: Execution.Ledger)
    requires IsRun(cfg, t) && (t.polls != [] ==> t.statuses[|t.polls| - 1].Running?)
    requires Shaped(t.runs[|t.polls|]) && Fits(t.runs[|t.polls|], q)
    requires BookOk(t, b) && Backed(cfg, t, b) && b.at[|b.at| - 1] == |b.events|
    requires UpToDate(after, now) && Extends(b, after) && Answers(after, |b.events|, q.checks)
    ensures var longer := Extended(cfg, t, q);
            && IsRun(cfg, longer) && BookOk(longer, Closed(after)) && Backed(cfg, longer, Closed(after))
            && t.runs <= longer.runs && t.polls <= longer.polls && t.statuses <= longer.statuses
            && |longer.runs| == |longer.polls| + 1 == |t.polls| + 2
            && longer.polls[|t.polls|] == q && |longer.statuses| == |t.polls| + 1
            && Step(longer.runs[|longer.polls|], longer.statuses[|t.polls|]) == Advance(cfg, t.runs[|t.polls|], q)
  {
    hide Advance, Shaped, Fits, Init, BookOk, Backed, UpToDate, Extends, Answers;
    ExtendRun(cfg, t, q);
    PollIsBacked(cfg, t, b, Extended(cfg, t, q), after, now);
  }

  lemma RunSizes(cfg: Config, t: Trace)
    requires IsRun(cfg, t)
    ensures |t.runs| == |t.polls| + 1 == |t.statuses| + 1
  {
  }

  lemma TasksStay(b: Book, after: Book)
    requires Extends(b, after)
    ensures |Closed(after).tasks| == |b.tasks|
  {
  }

  lemma SameLength(t: Trace, b: Book)
    requires BookOk(t, b) && |t.runs| == |t.polls| + 1
    ensures |b.at| == |t.polls| + 1
  {
  }

  lemma JudgedIsChecked(cfg: Config, t: Trace, i: nat, k: nat, v: Verdict)
    requires JudgedAt(cfg, t, i, k, v)
    ensures i < |t.polls| && k < |t.polls[i].checks| && t.polls[i].checks[k] == Judged(v)
  {
    hide Advance, Verified;
  }

  lemma ClosedIsUpToDate(b: Book, l: Execution.Ledger)
    requires UpToDate(b, l)
    ensures UpToDate(Closed(b), l) && Closed(b).at[|b.at|] == |Closed(b).events|
  {
  }

  // The Task is `succeeded`, with stored Evidence that accepts it.
  ghost predicate Proved(l: Execution.Ledger, task: string) {
    && task in l.tasks && l.tasks[task].status == TaskState.Succeeded
    && exists a :: Execution.Accepted(task, l, a)
  }

  ghost predicate AllProved(l: Execution.Ledger, tasks: seq<string>) {
    forall k :: 0 <= k < |tasks| ==> Proved(l, tasks[k])
  }

  lemma SuccessIsProved(cfg: Config, t: Trace, b: Book, l: Execution.Ledger)
    requires ConfigOk(cfg) && IsRun(cfg, t) && t.polls != []
    requires |t.statuses| == |t.polls| && t.statuses[|t.polls| - 1] == Ended(Outcome.Succeeded)
    requires BookOk(t, b) && Backed(cfg, t, b) && UpToDate(b, l) && b.at[|b.at| - 1] == |b.events|
    ensures AllProved(l, b.tasks)
  {
    hide IsRun, Backed, Execution.Accepted, Execution.Moves;
    forall k | 0 <= k < |b.tasks| ensures Proved(l, b.tasks[k]) {
      SucceededRunIsAccepted(cfg, t, b, |b.ledgers| - 1, k);
    }
  }
}
