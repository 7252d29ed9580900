/** A run and the ledger it settles Attempts in, poll by poll: the loop's host
    verification finishes and retries real Attempts, so its verdicts are the
    ledger's (sdf_core/coordinator.py, `_verify` and `_execute`). */
module RunHosts {
  import opened Results
  import opened States
  import opened Verdicts
  import opened RunState
  import opened RunSafety
  import opened RunProperties
  import opened RunClock
  import opened Coordinators
  import opened RunEvidence
  import opened RunBook
  import opened RunPhases
  import Acceptance
  import Evaluation
  import Execution

  // Where a verification breaks off: before `finish`, after it, or at the end.
  datatype Break = Never | Early | AfterVerdict | Late

  // What the verification of one subtask meets; `retry` is a fresh uuid.
  datatype Visit = Visit(
    break_: Break, report: Execution.Report, world: Evaluation.World, clock: Acceptance.GateClock, retry: string)

  // The retries from subtask `k` on have names of their own.
  ghost predicate FreshFrom(visits: seq<Visit>, k: nat, taken: set<string>) {
    && (forall i :: k <= i < |visits| ==> visits[i].retry !in taken)
    && (forall i, j :: k <= i < j < |visits| ==> visits[i].retry != visits[j].retry)
  }

  class Host {
    const loop: Coordinator
    const service: Execution.Executions
    const me: string
    // What each subtask's worker is called in its Attempts.
    const names: seq<string>
    // The Task of each subtask.
    const tasks: seq<string>
    // The current Attempt of each subtask.
    var current: seq<string>
    ghost var trace: Trace
    ghost var book: Book

    // Every subtask has its Attempt in the ledger; a settled one does not run.
    ghost predicate OnRecord()
      reads this, loop, service
    {
      && service.Valid() && UpToDate(book, service.State())
      && tasks == book.tasks && |current| == |names| == |tasks| == |loop.subtasks|
      && forall k :: 0 <= k < |current| ==>
           && current[k] in service.attempts && service.attempts[current[k]].task == book.tasks[k]
           && (loop.subtasks[k].settled ==> service.attempts[current[k]].status != AttemptState.Running)
    }

    // A run so far, and the history of the ledger that backs its verdicts.
    ghost predicate Valid()
      reads this, loop, service
    {
      && OnRecord() && ConfigOk(loop.cfg)
      && IsRun(loop.cfg, trace) && trace.runs[|trace.polls|] == loop.State()
      && BookOk(trace, book) && book.at[|book.at| - 1] == |book.events| && Backed(loop.cfg, trace, book)
    }

    // A run that begins over a ledger with any history.
    constructor (loop: Coordinator, service: Execution.Executions, me: string, names: seq<string>, tasks: seq<string>,
                 current: seq<string>, ghost ledgers: seq<Execution.Ledger>, ghost events: seq<Execution.Event>)
      requires ConfigOk(loop.cfg) && Init(loop.State()) && service.Valid()
      requires Execution.History(ledgers, events) && ledgers[|ledgers| - 1] == service.State()
      requires |current| == |names| == |tasks| == |loop.subtasks|
      requires forall k :: 0 <= k < |current| ==>
                 current[k] in service.attempts && service.attempts[current[k]].task == tasks[k]
      ensures Valid() && Kept() && this.loop == loop && this.service == service && this.tasks == tasks
      ensures trace == Trace([loop.State()], [], [])
    {
      this.loop, this.service, this.me := loop, service, me;
      this.names, this.tasks, this.current := names, tasks, current;
      trace := Trace([loop.State()], [], []);
      book := Book(ledgers, events, [|events|], tasks);
      new;
      NothingJudged(loop.cfg, trace, book);
      ValidIsKept();
    }

    // All of `Valid` that other sessions cannot disturb.
    ghost predicate Kept()
      reads this, loop
    {
      && tasks == book.tasks && |current| == |names| == |tasks| == |loop.subtasks| && ConfigOk(loop.cfg)
      && (forall k :: 0 <= k < |current| ==> HoldsAttempt(book, current[k], tasks[k], loop.subtasks[k].settled))
      && IsRun(loop.cfg, trace) && trace.runs[|trace.polls|] == loop.State()
      && BookOk(trace, book) && book.at[|book.at| - 1] == |book.events| && Backed(loop.cfg, trace, book)
    }

    lemma ValidIsKept()
      requires Valid()
      ensures Kept()
    {
      hide Execution.Moves, IsRun, Backed;
    }

    // Between two polls other sessions may have moved the ledger on, by any steps
    // of their own; the book is brought up to date.
    ghost method CatchUp(ledgers: seq<Execution.Ledger>, events: seq<Execution.Event>)
      requires Kept() && service.Valid()
      requires Continues(book, ledgers, events) && ledgers[|ledgers| - 1] == service.State()
      modifies this`book
      ensures Valid() && trace == old(trace)
    {
      hide Execution.Moves, IsRun, Backed, Execution.Sound;
      ContinuedIsBacked(loop.cfg, trace, book, ledgers, events);
      HistoryKeeps(ledgers, events, |book.ledgers| - 1, |ledgers| - 1);
      assert ledgers[|book.ledgers| - 1] == book.ledgers[|book.ledgers| - 1];
      book := Continued(book, ledgers, events);
    }

    // Host verification of subtask `k`: `finish`, the Task's verdict, and a retry
    // while rounds are left.
    method CheckAttempt(k: nat, visit: Visit) returns (outcome: CheckOutcome)
      requires OnRecord() && k < |current| && visit.retry !in service.attempts
      modifies service, this`current, this`book
      ensures service.Valid() && UpToDate(book, service.State()) && Extends(old(book), book)
      ensures AttemptsGoOn(old(service.State()), service.State(), {visit.retry})
      ensures |current| == |old(current)| && forall j :: 0 <= j < |current| && j != k ==> current[j] == old(current)[j]
      ensures current[k] in service.attempts && service.attempts[current[k]].task == book.tasks[k]
      ensures VerifyOne(loop.cfg, loop.subtasks[k], outcome).sub.settled ==>
                service.attempts[current[k]].status != AttemptState.Running
      ensures outcome.Judged? ==> Entered(book, |old(book.events)|, k, outcome.verdict)
    {
      hide Execution.Sound, UpToDate, Extends, Entered;
      ghost var before, was := service.State(), book;
      if visit.break_ == Early {
        SameBook(book, before, visit.retry);
        return Raises(Untouched);
      }
      outcome := FinishAttempt(k, visit);
      GoOnWith(before, service.State(), visit.retry);
      if outcome.Raises? { return; }
      ghost var between, mid := service.State(), book;
      var v := outcome.verdict;
      outcome := AfterFinish(k, visit, v);
      ExtendsOn(was, mid, book);
      GoOnOn(before, between, service.State(), {}, {visit.retry});
      StillEntered(mid, book, |was.events|, k, v);
    }

    // What follows the verdict `v` on subtask `k`: a retry while rounds are left.
    method AfterFinish(k: nat, visit: Visit, v: Verdict) returns (outcome: CheckOutcome)
      requires service.Valid() && UpToDate(book, service.State()) && visit.retry !in service.attempts
      requires tasks == book.tasks && |current| == |names| == |tasks| == |loop.subtasks| && k < |current|
      requires current[k] in service.attempts && service.attempts[current[k]].task == tasks[k]
      requires !loop.subtasks[k].settled && service.attempts[current[k]].status != AttemptState.Running
      modifies service, this`current, this`book
      ensures service.Valid() && UpToDate(book, service.State()) && Extends(old(book), book)
      ensures AttemptsGoOn(old(service.State()), service.State(), {visit.retry})
      ensures |current| == |old(current)| && forall j :: 0 <= j < |current| && j != k ==> current[j] == old(current)[j]
      ensures current[k] in service.attempts && service.attempts[current[k]].task == tasks[k]
      ensures VerifyOne(loop.cfg, loop.subtasks[k], outcome).sub.settled ==>
                service.attempts[current[k]].status != AttemptState.Running
      ensures outcome.Judged? ==> outcome.verdict == v
    {
      hide Execution.Sound, UpToDate, Extends;
      SameBook(book, service.State(), visit.retry);
      if visit.break_ == AfterVerdict { return Raises(JudgedOnly(v)); }
      if Retries(loop.cfg, loop.subtasks[k], v) {
        var begun := BeginRetry(k, visit.retry);
        if !begun { return Raises(RetryRefused(v)); }
        if visit.break_ == Late { return Raises(RetryBegun(v)); }
      } else if visit.break_ == Late {
        return Raises(JudgedOnly(v));
      }
      return Judged(v);
    }

    // `finish` on the current Attempt of subtask `k`, on the book.
    method FinishAttempt(k: nat, visit: Visit) returns (outcome: CheckOutcome)
      requires OnRecord() && k < |current|
      modifies service, this`book
      ensures service.Valid() && UpToDate(book, service.State()) && Extends(old(book), book)
      ensures AttemptsGoOn(old(service.State()), service.State(), {})
      ensures outcome.Judged? ==>
                && !loop.subtasks[k].settled && service.attempts[current[k]].status != AttemptState.Running
                && Entered(book, |old(book.events)|, k, outcome.verdict)
      ensures outcome.Raises? ==>
                && (outcome.left == Untouched || outcome.left == SettledUnjudged)
                && (outcome.left == SettledUnjudged ==> service.attempts[current[k]].status != AttemptState.Running)
    {
      ghost var before, was := service.State(), book;
      var id, r := current[k], visit.report;
      outcome := VerifyAttempt(service, id, me, r, visit.world, visit.clock);
      ghost var done := Execution.Conclude(id, r, visit.world, visit.clock);
      ghost var e := if outcome.Judged? then done
                     else if service.State() == before then Execution.Nothing else Execution.Abandon(id);
      NoteStep(was, before, e, service.State());
      MovesGoOn(before, e, service.State());
      book := Noted(was, e, service.State());
      if outcome.Judged? {
        NotedConcludes(was, before, e, service.State(), k, outcome.verdict);
        assert Entered(book, |was.events|, k, outcome.verdict);
      }
    }

    method BeginRetry(k: nat, id: string) returns (begun: bool)
      requires service.Valid() && UpToDate(book, service.State()) && id !in service.attempts
      requires tasks == book.tasks && |current| == |names| == |tasks| && k < |current|
      modifies service, this`current, this`book
      ensures service.Valid() && UpToDate(book, service.State()) && Extends(old(book), book)
      ensures AttemptsGoOn(old(service.State()), service.State(), {id})
      ensures current == if begun then old(current)[k := id] else old(current)
      ensures begun ==> id in service.attempts && service.attempts[id].task == book.tasks[k]
    {
      ghost var before, was := service.State(), book;
      begun := service.BeginAttempt(tasks[k], id, names[k], me);
      ghost var e := if begun then Execution.Begin(book.tasks[k], id, names[k], me) else Execution.Nothing;
      NoteStep(was, before, e, service.State());
      MovesGoOn(before, e, service.State());
      book := Noted(was, e, service.State());
      if begun { current := current[k := id]; }
    }

    // The verification phase over the ledger. `checks` is what each check came
    // to; those never made are put down as raised.
    method VerifyAll(p: Poll, visits: seq<Visit>) returns (hostWorked: bool, raised: bool, checks: seq<CheckOutcome>)
      requires OnRecord() && WorkersExist(loop.agents, loop.subtasks) && |visits| == |loop.subtasks|
      requires FreshFrom(visits, 0, service.attempts.Keys)
      modifies loop`subtasks, loop`pending, service, this`current, this`book
      ensures OnRecord() && Extends(old(book), book)
      ensures |checks| == |loop.subtasks| == |old(loop.subtasks)| && Answers(book, |old(book.events)|, checks)
      ensures var v := HostVerification(loop.cfg, old(loop.State()), p.(checks := checks));
              loop.State() == WithVerification(old(loop.State()), v) && hostWorked == v.hostWorked && raised == v.raised
    {
      hide OnTrack, Answers, Extends, HostVerification, FreshFrom, UpToDate;
      hostWorked, raised := false, false;
      checks := seq(|loop.subtasks|, _ => Raises(Untouched));
      ghost var taken, start := loop.State(), book;
      NothingChecked(book, |book.events|, checks);
      OnTrackAtStart(loop.cfg, taken, p, checks);
      var k := 0;
      while k < |loop.subtasks|
        invariant 0 <= k <= |loop.subtasks| == |taken.subtasks| == |checks| == |visits| && !raised
        invariant OnRecord() && Extends(start, book) && Answers(book, |start.events|, checks)
        invariant loop.State() == taken.(subtasks := loop.subtasks, pending := loop.pending)
        invariant WorkersExist(loop.agents, loop.subtasks) && FreshFrom(visits, k, service.attempts.Keys)
        invariant OnTrack(loop.cfg, taken, p, checks, k, Verification(loop.subtasks, loop.pending, hostWorked, false))
      {
        hostWorked, raised, checks := VerifyNext(p, visits, k, hostWorked, checks, taken, start);
        if raised { return; }
        k := k + 1;
      }
      OnTrackAtEnd(loop.cfg, taken, p, checks, Verification(loop.subtasks, loop.pending, hostWorked, false));
    }

    // One turn of that loop: subtask `k` is checked if it is due.
    method VerifyNext(p: Poll, visits: seq<Visit>, k: nat, worked: bool, before: seq<CheckOutcome>, ghost taken: Run,
                      ghost start: Book)
      returns (hostWorked: bool, raised: bool, checks: seq<CheckOutcome>)
      requires OnRecord() && Extends(start, book) && Answers(book, |start.events|, before)
      requires k < |loop.subtasks| == |taken.subtasks| == |before| == |visits|
      requires loop.State() == taken.(subtasks := loop.subtasks, pending := loop.pending)
      requires WorkersExist(taken.agents, taken.subtasks) && WorkersExist(loop.agents, loop.subtasks)
      requires FreshFrom(visits, k, service.attempts.Keys)
      requires OnTrack(loop.cfg, taken, p, before, k, Verification(loop.subtasks, loop.pending, worked, false))
      modifies loop`subtasks, loop`pending, service, this`current, this`book
      ensures OnRecord() && Extends(start, book) && Answers(book, |start.events|, checks)
      ensures |checks| == |before| && |loop.subtasks| == |old(loop.subtasks)|
      ensures FreshFrom(visits, k + 1, service.attempts.Keys)
      ensures if raised then
                HostVerification(loop.cfg, taken, p.(checks := checks))
                == Verification(loop.subtasks, loop.pending, hostWorked, true)
              else
                && WorkersExist(loop.agents, loop.subtasks)
                && OnTrack(loop.cfg, taken, p, checks, k + 1,
                           Verification(loop.subtasks, loop.pending, hostWorked, false))
    {
      hide OnTrack, Answers, Extends, HostVerification, Entered, VerifyOne, Verifiable, SubtaskBlocked, UpToDate;
      ghost var v := Verification(loop.subtasks, loop.pending, worked, false);
      hostWorked, raised, checks := worked, false, before;
      if Verifiable(loop.agents, loop.subtasks[k], SubtaskBlocked(p.gate, k)) {
        hostWorked := true;
        var outcome: CheckOutcome;
        ghost var was := book;
        outcome, raised := CheckOne(k, visits[k]);
        OnTrackNext(loop.cfg, taken, p, before, k, v, outcome);
        ExtendsOn(start, was, book);
        if outcome.Judged? { EnteredSince(start, was, book, k, outcome.verdict); }
        AnswersOn(was, book, |start.events|, before, k, outcome);
        checks := before[k := outcome];
      } else {
        OnTrackPast(loop.cfg, taken, p, before, k, v);
      }
    }

    // One subtask: its Attempt on the ledger, and its row in the loop.
    method CheckOne(k: nat, visit: Visit) returns (outcome: CheckOutcome, raised: bool)
      requires OnRecord() && k < |current| && visit.retry !in service.attempts
      modifies loop`subtasks, loop`pending, service, this`current, this`book
      ensures OnRecord() && Extends(old(book), book)
      ensures service.attempts.Keys <= old(service.attempts).Keys + {visit.retry}
      ensures var before, checked := old(loop.subtasks)[k], VerifyOne(loop.cfg, old(loop.subtasks)[k], outcome);
              && loop.subtasks == old(loop.subtasks)[k := checked.sub] && raised == checked.raised
              && loop.pending == if raised then old(loop.pending) else old(loop.pending) + [before.worker, loop.lead]
      ensures outcome.Judged? ==> Entered(book, |old(book.events)|, k, outcome.verdict)
    {
      outcome := CheckAttempt(k, visit);
      raised := loop.CheckSubtask(outcome, k);
    }

    // The phases of one poll, in order.
    method PollPhases(p: Poll, visits: seq<Visit>) returns (status: Status, checks: seq<CheckOutcome>)
      requires OnRecord() && Shaped(loop.State()) && Fits(loop.State(), p)
      requires |visits| == |loop.subtasks| && FreshFrom(visits, 0, service.attempts.Keys)
      modifies loop, service, this`current, this`book
      ensures OnRecord() && Extends(old(book), book)
      ensures |checks| == |old(loop.subtasks)| && Answers(book, |old(book.events)|, checks)
      ensures Fits(old(loop.State()), p.(checks := checks))
      ensures Step(loop.State(), status) == Advance(loop.cfg, old(loop.State()), p.(checks := checks))
    {
      hide Shaped, Fits, Advance, Opening, Closing, HostVerification;
      hide UpToDate, Extends, Answers, WorkersExist, FreshFrom;
      ghost var before := loop.State();
      OpeningSettles(loop.cfg, before, p);
      FitsSizes(before, p);
      var stopped := loop.StartPoll(p);
      if stopped.Some? {
        checks := seq(|visits|, _ => Raises(Untouched));
        NothingChecked(book, |book.events|, checks);
        StopsShort(loop.cfg, before, p, checks, loop.State(), stopped.value);
        return Ended(stopped.value), checks;
      }
      ghost var taken := loop.State();
      var hostWorked, raised;
      hostWorked, raised, checks := VerifyAll(p, visits);
      ghost var verified := loop.State();
      ClosingSettles(loop.cfg, verified, p.(checks := checks), hostWorked, raised);
      status := loop.FinishPoll(p.(checks := checks), hostWorked, raised);
      AddsUp(loop.cfg, before, p, checks, taken, hostWorked, raised, verified, loop.State(), status);
    }

    // Between two polls: while no exception has ended the run, and if nobody else
    // settles its Tasks, the passed subtasks are those whose Tasks are accepted.
    lemma PassedAreAccepted(k: nat)
      requires Valid() && k < |loop.subtasks| && OnlyTheRun(loop.cfg, trace, book, |trace.polls|)
      requires trace.polls != [] ==>
                 |trace.statuses| == |trace.polls| &&
                 trace.statuses[|trace.polls| - 1] != Ended(Outcome.Failed(Exception))
      ensures loop.subtasks[k].verdict == Some(Pass) <==>
                tasks[k] in service.tasks && service.tasks[tasks[k]].status == TaskState.Succeeded
    {
      hide Backed, OnlyTheRun, IsRun, Execution.Moves, Execution.Sound;
      RunSizes(loop.cfg, trace);
      PassedIffAccepted(loop.cfg, trace, book, |trace.polls|, k);
    }

    // The poll `q` was made and led here: it goes on record.
    ghost method Record(q: Poll, status: Status, was: Book)
      requires OnRecord() && ConfigOk(loop.cfg) && Extends(was, book) && Answers(book, |was.events|, q.checks)
      requires IsRun(loop.cfg, trace) && (trace.polls != [] ==> trace.statuses[|trace.polls| - 1].Running?)
      requires BookOk(trace, was) && Backed(loop.cfg, trace, was) && was.at[|was.at| - 1] == |was.events|
      requires Shaped(trace.runs[|trace.polls|]) && Fits(trace.runs[|trace.polls|], q)
      requires Step(loop.State(), status) == Advance(loop.cfg, trace.runs[|trace.polls|], q)
      modifies this`book, this`trace
      ensures Valid() && OnePollOn(old(trace), trace, q, status)
      ensures status == Ended(Outcome.Succeeded) ==> AllProved(service.State(), tasks)
    {
      hide Shaped, Fits, Advance, UpToDate, Extends, Answers, Init, Backed, BookOk, IsRun, AllProved;
      RunSizes(loop.cfg, trace);
      PollIsRecorded(loop.cfg, trace, was, q, book, service.State());
      trace := Extended(loop.cfg, trace, q);
      ClosedIsUpToDate(book, service.State());
      book := Closed(book);
      if status == Ended(Outcome.Succeeded) { SuccessIsProved(loop.cfg, trace, book, service.State()); }
    }

    // One poll of the run, with its verifications made on the ledger. The checks
    // in `p` are not looked at: what they come to is decided here.
    method PollOnce(p: Poll, visits: seq<Visit>) returns (status: Status)
      requires Valid() && (trace.polls != [] ==> trace.statuses[|trace.polls| - 1].Running?)
      requires Fits(loop.State(), p) && |visits| == |loop.subtasks| && FreshFrom(visits, 0, service.attempts.Keys)
      modifies loop, service, this`current, this`book, this`trace
      ensures Valid() && Kept() && OnePollOn(old(trace), trace, p, status)
      // A run that succeeds leaves every subtask's Task accepted.
      ensures status == Ended(Outcome.Succeeded) ==> AllProved(service.State(), tasks)
    {
      hide Shaped, Fits, Advance, Extends, Answers, WorkersExist, Init, Backed, BookOk, IsRun, FreshFrom, AllProved;
      hide UpToDate;
      ghost var was := book;
      RunningIsShaped(loop.cfg, trace);
      var checks: seq<CheckOutcome>;
      status, checks := PollPhases(p, visits);
      Record(p.(checks := checks), status, was);
      ValidIsKept();
    }
  }
}
