/** Whole runs of the poll loop: what every poll keeps, and what `succeeded` means. */
module RunProperties {
  import opened Results
  import opened Verdicts
  import opened RunState
  import opened RunSafety

  // -- what every poll keeps ----------------------------------------------------

  ghost predicate Init(run: Run) {
    && Shaped(run)
    && (forall i :: 0 <= i < |run.agents| ==> run.agents[i] == Agent(run.agents[i].subtask, 0, false, false))
    && (forall k :: 0 <= k < |run.subtasks| ==>
          run.subtasks[k] == Subtask(run.subtasks[k].worker, 1, None, false, false))
    && run.held == 0.0 && !run.heldPrev && run.started <= run.lastTick
    && run.idleSince == None && run.stallVerified == {} && run.delivered == {}
    && !run.leadReported && !run.allPassNotified
  }

  lemma {:induction false} NoneBusy(agents: seq<Agent>)
    requires forall i :: 0 <= i < |agents| ==> !agents[i].inFlight
    ensures Busy(agents) == 0
  {
    if agents != [] {
      NoneBusy(agents[..|agents| - 1]);
    }
  }

  lemma InitInv(cfg: Config, run: Run)
    requires ConfigOk(cfg) && Init(run)
    ensures Inv(cfg, run)
  {
    NoneBusy(run.agents);
  }

  // Each fate of a subtask keeps it in order, unless its check raised.
  lemma FateKeeps(cfg: Config, run: Run, p: Poll, k: nat, after: Subtask)
    requires Inv(cfg, run) && Fits(run, p) && k < |run.subtasks|
    requires SameVerdict(run.subtasks[k], after) || Verified(cfg, run, p, k, after) || BrokenOff(cfg, run, p, k, after)
    ensures after.worker == run.subtasks[k].worker && 1 <= after.rounds <= cfg.maxRounds
    ensures SubtaskOk(cfg, after) || BrokenOff(cfg, run, p, k, after)
  {
    assert SubtaskOk(cfg, run.subtasks[k]);
    if Verified(cfg, run, p, k, after) {
      var v := p.checks[k].verdict;
      assert v == Pass || v == Fail || v == Inconclusive;
    }
  }

  lemma KeepsSubtask(cfg: Config, run: Run, p: Poll, k: nat)
    requires Inv(cfg, run) && Fits(run, p) && k < |run.subtasks|
    ensures |Advance(cfg, run, p).run.subtasks| == |run.subtasks|
    ensures var after := Advance(cfg, run, p).run.subtasks[k];
            KeptSubtask(cfg, p.checks[k], Advance(cfg, run, p).status, run.subtasks[k], after)
  {
    PollSubtask(cfg, run, p, k);
    FateKeeps(cfg, run, p, k, Advance(cfg, run, p).run.subtasks[k]);
  }

  lemma KeepsAgent(cfg: Config, run: Run, p: Poll, i: nat)
    requires Inv(cfg, run) && Fits(run, p) && i < |run.agents|
    ensures |Advance(cfg, run, p).run.agents| == |run.agents|
    ensures var after := Advance(cfg, run, p).run.agents[i];
            KeptAgent(cfg, run.agents[i], after)
  {
    PollAgent(cfg, run, p, i);
  }

  // One poll keeps the caps on concurrent turns, turns per agent and rounds per
  // subtask. Unless an exception ends the run there, it also keeps a verdict
  // exactly on settled Attempts, and failing verdicts for the last round.
  lemma PollKeepsInv(cfg: Config, run: Run, p: Poll)
    requires Inv(cfg, run) && Fits(run, p)
    ensures KeptInv(cfg, p, Advance(cfg, run, p))
  {
    PollSizes(cfg, run, p);
    KeepsAgents(cfg, run, p);
    KeepsSubtasks(cfg, run, p);
    AllKept(cfg, run, p, Advance(cfg, run, p));
  }

  ghost predicate KeptInv(cfg: Config, p: Poll, step: Step) {
    && WithinLimits(cfg, step.run) && |step.run.subtasks| == |p.checks|
    && (step.status != Ended(Failed(Exception)) ==> Inv(cfg, step.run))
    && forall k :: 0 <= k < |p.checks| ==> SubtaskOk(cfg, step.run.subtasks[k]) || p.checks[k].Raises?
  }

  lemma KeepsAgents(cfg: Config, run: Run, p: Poll)
    requires Inv(cfg, run) && Fits(run, p)
    ensures |Advance(cfg, run, p).run.agents| == |run.agents|
    ensures forall i :: 0 <= i < |run.agents| ==> KeptAgent(cfg, run.agents[i], Advance(cfg, run, p).run.agents[i])
  {
    PollSizes(cfg, run, p);
    forall i | 0 <= i < |run.agents| ensures KeptAgent(cfg, run.agents[i], Advance(cfg, run, p).run.agents[i]) {
      KeepsAgent(cfg, run, p, i);
    }
  }

  lemma KeepsSubtasks(cfg: Config, run: Run, p: Poll)
    requires Inv(cfg, run) && Fits(run, p)
    ensures |Advance(cfg, run, p).run.subtasks| == |run.subtasks|
    ensures var step := Advance(cfg, run, p);
            forall k :: 0 <= k < |run.subtasks| ==>
              KeptSubtask(cfg, p.checks[k], step.status, run.subtasks[k], step.run.subtasks[k])
  {
    PollSizes(cfg, run, p);
    var step := Advance(cfg, run, p);
    forall k | 0 <= k < |run.subtasks|
      ensures KeptSubtask(cfg, p.checks[k], step.status, run.subtasks[k], step.run.subtasks[k])
    {
      KeepsSubtask(cfg, run, p, k);
    }
  }

  ghost predicate KeptAgent(cfg: Config, before: Agent, after: Agent) {
    after.subtask == before.subtask && after.turns <= cfg.maxTurns
  }

  ghost predicate KeptSubtask(cfg: Config, check: CheckOutcome, status: Status, before: Subtask, after: Subtask) {
    && after.worker == before.worker && 1 <= after.rounds <= cfg.maxRounds
    && (SubtaskOk(cfg, after) || (status == Ended(Failed(Exception)) && check.Raises?))
  }

  lemma AllKept(cfg: Config, run: Run, p: Poll, step: Step)
    requires Inv(cfg, run) && Fits(run, p)
    requires |step.run.agents| == |run.agents| && |step.run.subtasks| == |run.subtasks| && step.run.lead == run.lead
    requires Busy(step.run.agents) <= cfg.maxConcurrent
    requires forall i :: 0 <= i < |run.agents| ==> KeptAgent(cfg, run.agents[i], step.run.agents[i])
    requires forall k :: 0 <= k < |run.subtasks| ==>
               KeptSubtask(cfg, p.checks[k], step.status, run.subtasks[k], step.run.subtasks[k])
    ensures KeptInv(cfg, p, step)
  {
    forall i | 0 <= i < |run.agents| ensures step.run.agents[i].subtask == run.agents[i].subtask {
      assert KeptAgent(cfg, run.agents[i], step.run.agents[i]);
    }
    forall k | 0 <= k < |run.subtasks| ensures step.run.subtasks[k].worker == run.subtasks[k].worker {
      assert KeptSubtask(cfg, p.checks[k], step.status, run.subtasks[k], step.run.subtasks[k]);
    }
  }

  // Once passed, a subtask is never verified again and keeps its Attempt.
  lemma PassIsAbsorbing(cfg: Config, run: Run, p: Poll, k: nat)
    requires Inv(cfg, run) && Fits(run, p) && k < |run.subtasks| && run.subtasks[k].verdict == Some(Pass)
    ensures |Advance(cfg, run, p).run.subtasks| == |run.subtasks|
    ensures SameVerdict(run.subtasks[k], Advance(cfg, run, p).run.subtasks[k])
  {
    PollSubtask(cfg, run, p, k);
  }

  // Subtask `k` is due for verification, but its check raises or its last
  // Attempt was judged already.
  ghost predicate CannotBeJudged(cfg: Config, taken: Run, p: Poll, k: nat)
    requires Shaped(taken) && Fits(taken, p) && k < |taken.subtasks|
  {
    && CanVerify(taken.agents, taken.subtasks, p.gate, k)
    && (p.checks[k].Raises? || (taken.subtasks[k].verdict.Some? && taken.subtasks[k].rounds == cfg.maxRounds))
  }

  // The verification phase fails exactly when it reaches such a subtask: a
  // report that comes after the last round ends the run.
  lemma LateReportFailsRun(cfg: Config, taken: Run, p: Poll)
    requires Inv(cfg, taken) && Fits(taken, p)
    ensures HostVerification(cfg, taken, p).raised <==>
            exists k: nat :: k < |taken.subtasks| && CannotBeJudged(cfg, taken, p, k)
  {
    hide Verify, Busy, SubtaskBlocked;
    var v := Verification(taken.subtasks, taken.pending, false, false);
    VerifyCause(cfg, taken.agents, taken.lead, p, 0, v);
    if HostVerification(cfg, taken, p).raised {
      var k: nat :| k < |v.subtasks| && CanVerify(taken.agents, v.subtasks, p.gate, k)
                    && VerifyOne(cfg, v.subtasks[k], p.checks[k]).raised;
      var sub := taken.subtasks[k];
      assert SubtaskOk(cfg, sub) && sub.verdict != Some(Pass);
      if sub.settled {
        var judged := sub.verdict.value;
        assert judged == Pass || judged == Fail || judged == Inconclusive;
      }
      assert CannotBeJudged(cfg, taken, p, k);
    }
    if k: nat :| k < |taken.subtasks| && CannotBeJudged(cfg, taken, p, k) {
      assert SubtaskOk(cfg, taken.subtasks[k]);
      VerifyAt(cfg, taken.agents, taken.lead, p, 0, v, k);
    }
  }

  // -- runs -----------------------------------------------------------------------

  // `runs[i]` is the state before poll `i` and `statuses[i]` what the poll came to.
  datatype Trace = Trace(runs: seq<Run>, polls: seq<Poll>, statuses: seq<Status>)

  ghost predicate StepOk(cfg: Config, t: Trace, i: nat) {
    && i < |t.polls| && i < |t.statuses| && i + 1 < |t.runs|
    && Shaped(t.runs[i]) && Fits(t.runs[i], t.polls[i])
    && Step(t.runs[i + 1], t.statuses[i]) == Advance(cfg, t.runs[i], t.polls[i])
  }

  // Only the last poll may end the run.
  ghost predicate IsRun(cfg: Config, t: Trace) {
    && |t.runs| == |t.polls| + 1 == |t.statuses| + 1
    && Init(t.runs[0])
    && (forall i: nat :: i < |t.polls| ==> StepOk(cfg, t, i))
    && (forall i: nat :: i + 1 < |t.polls| ==> t.statuses[i].Running?)
  }

  lemma {:induction false} InvAlways(cfg: Config, t: Trace, n: nat)
    requires ConfigOk(cfg) && IsRun(cfg, t) && n < |t.runs|
    ensures WithinLimits(cfg, t.runs[n])
    ensures n == 0 || t.statuses[n - 1] != Ended(Failed(Exception)) ==> Inv(cfg, t.runs[n])
    ensures |t.runs[n].agents| == |t.runs[0].agents| && |t.runs[n].subtasks| == |t.runs[0].subtasks|
  {
    hide Advance;
    if n == 0 {
      InitInv(cfg, t.runs[0]);
    } else {
      InvAlways(cfg, t, n - 1);
      assert StepOk(cfg, t, n - 1);
      PollKeepsInv(cfg, t.runs[n - 1], t.polls[n - 1]);
      PollSizes(cfg, t.runs[n - 1], t.polls[n - 1]);
    }
  }

  // Poll `i` verified the current Attempt of subtask `k` and the check came to `v`.
  ghost predicate JudgedAt(cfg: Config, t: Trace, i: nat, k: nat, v: Verdict) {
    && StepOk(cfg, t, i)
    && k < |t.runs[i].subtasks| && k < |t.runs[i + 1].subtasks|
    && t.polls[i].checks[k] == Judged(v)
    && Verified(cfg, t.runs[i], t.polls[i], k, t.runs[i + 1].subtasks[k])
  }

  // Every verdict on record is the outcome of a host verification of that very
  // Attempt, made while nothing blocked the subtask and its worker was idle.
  lemma {:induction false} VerdictHasCause(cfg: Config, t: Trace, n: nat, k: nat) returns (i: nat)
    requires ConfigOk(cfg) && IsRun(cfg, t) && n < |t.runs|
    requires k < |t.runs[n].subtasks| && t.runs[n].subtasks[k].verdict.Some?
    requires n > 0 ==> t.statuses[n - 1] != Ended(Failed(Exception))
    ensures i < n && JudgedAt(cfg, t, i, k, t.runs[n].subtasks[k].verdict.value)
    ensures t.runs[i].subtasks[k].rounds == t.runs[n].subtasks[k].rounds
  {
    hide Advance, Shaped, Inv;
    if n > 0 {
      InvAlways(cfg, t, n - 1);
      assert StepOk(cfg, t, n - 1);
      PollSizes(cfg, t.runs[n - 1], t.polls[n - 1]);
      PollSubtask(cfg, t.runs[n - 1], t.polls[n - 1], k);
      if SameVerdict(t.runs[n - 1].subtasks[k], t.runs[n].subtasks[k]) {
        i := VerdictHasCause(cfg, t, n - 1, k);
      } else {
        i := n - 1;
      }
    }
  }

  lemma WorkSucceeds(cfg: Config, taken: Run, p: Poll)
    requires WorkersExist(taken.agents, taken.subtasks) && |p.checks| == |taken.subtasks| && |p.mail| == |taken.agents|
    requires Work(cfg, taken, p).status == Ended(Succeeded)
    ensures AllPass(Work(cfg, taken, p).run.subtasks) && p.gate == []
  {
  }

  lemma SuccessNeeds(cfg: Config, run: Run, p: Poll)
    requires Shaped(run) && Fits(run, p) && Advance(cfg, run, p).status == Ended(Succeeded)
    ensures AllPass(Advance(cfg, run, p).run.subtasks) && p.gate == []
  {
    WorkSucceeds(cfg, Intake(Tick(run, p.now), p), p);
  }

  ghost predicate PassedOnEvidence(cfg: Config, t: Trace, k: nat) {
    exists i: nat :: JudgedAt(cfg, t, i, k, Pass)
  }

  // A run that ends `succeeded` had no pending material decision in its last
  // poll, and every subtask passed a host verification during the run.
  lemma SuccessIsEvidence(cfg: Config, t: Trace)
    requires ConfigOk(cfg) && IsRun(cfg, t) && t.polls != []
    requires t.statuses[|t.polls| - 1] == Ended(Succeeded)
    ensures t.polls[|t.polls| - 1].gate == []
    ensures forall k: nat :: k < |t.runs[0].subtasks| ==> PassedOnEvidence(cfg, t, k)
  {
    hide Advance, Init, JudgedAt, Inv;
    var n := |t.polls|;
    assert StepOk(cfg, t, n - 1);
    SuccessNeeds(cfg, t.runs[n - 1], t.polls[n - 1]);
    InvAlways(cfg, t, n);
    forall k: nat | k < |t.runs[0].subtasks| ensures PassedOnEvidence(cfg, t, k) {
      var i := VerdictHasCause(cfg, t, n, k);
    }
  }

  // -- the notice to the lead -----------------------------------------------------

  lemma OutflowNotice(cfg: Config, run: Run, p: Poll)
    requires |p.mail| == |run.agents|
    ensures Outflow(cfg, run, p).allPassNotified == (run.allPassNotified || AllPass(run.subtasks))
    ensures Outflow(cfg, run, p).subtasks == run.subtasks
  {
    var notified := NotifyAllPass(run);
    DeliverKeeps(notified, p.undeliverable, 0, []);
    var delivered := Deliver(notified, p.undeliverable, 0, []);
    WakeFrame(cfg, delivered, p, 0, Busy(delivered.agents));
  }

  lemma WorkNotice(cfg: Config, taken: Run, p: Poll)
    requires WorkersExist(taken.agents, taken.subtasks) && |p.checks| == |taken.subtasks| && |p.mail| == |taken.agents|
    ensures var after := Work(cfg, taken, p).run;
            && (taken.allPassNotified ==> after.allPassNotified)
            && (after.allPassNotified && !taken.allPassNotified ==> AllPass(after.subtasks))
  {
    var v := HostVerification(cfg, taken, p);
    if !v.raised {
      var verified := WithVerification(taken, v);
      OutflowNotice(cfg, verified, p);
      DecideFrame(cfg, Outflow(cfg, verified, p), p, v.hostWorked);
    }
  }

  lemma PollNotice(cfg: Config, run: Run, p: Poll)
    requires Shaped(run) && Fits(run, p)
    ensures var after := Advance(cfg, run, p).run;
            && (run.allPassNotified ==> after.allPassNotified)
            && (after.allPassNotified && !run.allPassNotified ==> AllPass(after.subtasks))
  {
    var ticked := Tick(run, p.now);
    IntakeFrame(ticked, p);
    if RunState.Capped(cfg, ticked, p).None? {
      WorkNotice(cfg, Intake(ticked, p), p);
    }
  }

  // Poll `i` told the lead that everything passed.
  ghost predicate Notifies(t: Trace, i: nat) {
    i + 1 < |t.runs| && !t.runs[i].allPassNotified && t.runs[i + 1].allPassNotified
  }

  lemma {:induction false} NoticeStays(cfg: Config, t: Trace, i: nat, j: nat)
    requires IsRun(cfg, t) && i <= j < |t.runs| && t.runs[i].allPassNotified
    ensures t.runs[j].allPassNotified
    decreases j - i
  {
    hide Advance, Init, Shaped, Fits;
    if i < j {
      NoticeStays(cfg, t, i, j - 1);
      assert StepOk(cfg, t, j - 1);
      PollNotice(cfg, t.runs[j - 1], t.polls[j - 1]);
    }
  }

  // The lead is told at most once in a run, and only when it is true.
  lemma NotifiedOnce(cfg: Config, t: Trace, i: nat, j: nat)
    requires IsRun(cfg, t) && i <= j && Notifies(t, i) && Notifies(t, j)
    ensures i == j
    ensures AllPass(t.runs[i + 1].subtasks)
  {
    hide Advance, Init, Shaped, Fits;
    if i < j { NoticeStays(cfg, t, i + 1, j); }
    assert StepOk(cfg, t, i);
    PollNotice(cfg, t.runs[i], t.polls[i]);
  }

  // -- the end of the run ------------------------------------------------------------

  datatype Final = Final(outcome: Outcome, cancelled: seq<bool>)

  // `_finalize`: success is refused without PASS everywhere, and an Attempt that
  // is still running is cancelled, its Task left without a verdict.
  function Finalize(run: Run, outcome: Outcome): Final {
    Final(
      if outcome == Succeeded && !AllPass(run.subtasks) then Failed(Exception) else outcome,
      seq(|run.subtasks|, k requires 0 <= k < |run.subtasks| => !run.subtasks[k].settled))
  }

  // The loop never asks `_finalize` for more than it grants, and `_finalize`
  // cancels exactly the Attempts that were never judged: none after a success.
  lemma FinalizeAgrees(cfg: Config, t: Trace)
    requires ConfigOk(cfg) && IsRun(cfg, t) && t.polls != [] && t.statuses[|t.polls| - 1].Ended?
    ensures var last, outcome := t.runs[|t.polls|], t.statuses[|t.polls| - 1].outcome;
            && Finalize(last, outcome).outcome == outcome
            && (outcome != Failed(Exception) ==>
                  forall k :: 0 <= k < |last.subtasks| ==>
                    (Finalize(last, outcome).cancelled[k] <==> last.subtasks[k].verdict == None))
            && (outcome == Succeeded ==> forall k :: 0 <= k < |last.subtasks| ==> !Finalize(last, outcome).cancelled[k])
  {
    hide Advance, Init, Shaped, Fits;
    var n := |t.polls|;
    InvAlways(cfg, t, n);
    assert StepOk(cfg, t, n - 1);
    if t.statuses[n - 1] == Ended(Succeeded) {
      SuccessNeeds(cfg, t.runs[n - 1], t.polls[n - 1]);
    }
  }
}
