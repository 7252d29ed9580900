/** The two clocks of a run, and why every run ends. */
module RunClock {
  import opened Results
  import opened Verdicts
  import opened RunState
  import opened RunSafety
  import opened RunProperties

  // -- held time -------------------------------------------------------------------

  lemma DecideHeld(cfg: Config, run: Run, p: Poll, worked: bool)
    ensures var step := Decide(cfg, run, p, worked);
            step.status.Running? ==> (step.run.heldPrev <==> p.gate != [] && !worked && !AnyInFlight(run.agents))
  {
  }

  lemma WorkClock(cfg: Config, taken: Run, p: Poll)
    requires WorkersExist(taken.agents, taken.subtasks) && |p.checks| == |taken.subtasks| && |p.mail| == |taken.agents|
    ensures var step := Work(cfg, taken, p);
            && step.run.started == taken.started && step.run.lastTick == taken.lastTick && step.run.held == taken.held
            && (step.status.Running? ==>
                  (step.run.heldPrev <==>
                     p.gate != [] && !HostVerification(cfg, taken, p).hostWorked && !AnyInFlight(step.run.agents)))
  {
    var v := HostVerification(cfg, taken, p);
    if !v.raised {
      OutflowFrame(cfg, WithVerification(taken, v), p);
      DecideFrame(cfg, Outflow(cfg, WithVerification(taken, v), p), p, v.hostWorked);
      DecideHeld(cfg, Outflow(cfg, WithVerification(taken, v), p), p, v.hostWorked);
    }
  }

  // A poll adds the time since the previous one to the held time exactly when
  // that interval was marked, and no poll changes the start.
  lemma PollClock(cfg: Config, run: Run, p: Poll)
    requires Shaped(run) && Fits(run, p)
    ensures var after := Advance(cfg, run, p).run;
            && after.started == run.started && after.lastTick == p.now
            && after.held == run.held + (if run.heldPrev then p.now - run.lastTick else 0.0)
  {
    var ticked := Tick(run, p.now);
    if Capped(cfg, ticked, p).None? {
      IntakeFrame(ticked, p);
      WorkClock(cfg, Intake(ticked, p), p);
    }
  }

  // The interval after a poll is marked only if a material decision was pending,
  // the host verified nothing, and no turn is in flight.
  lemma HeldOnlyWhileWaiting(cfg: Config, run: Run, p: Poll)
    requires Inv(cfg, run) && Fits(run, p)
    requires Advance(cfg, run, p).status.Running? && Advance(cfg, run, p).run.heldPrev
    ensures p.gate != []
    ensures !AnyInFlight(Advance(cfg, run, p).run.agents)
    ensures |Advance(cfg, run, p).run.subtasks| == |run.subtasks|
    ensures forall k :: 0 <= k < |run.subtasks| ==> SameVerdict(run.subtasks[k], Advance(cfg, run, p).run.subtasks[k])
  {
    var ticked := Tick(run, p.now);
    IntakeFrame(ticked, p);
    var taken := Intake(ticked, p);
    WorkClock(cfg, taken, p);
    PollSizes(cfg, run, p);
    forall k | 0 <= k < |run.subtasks| ensures SameVerdict(run.subtasks[k], Advance(cfg, run, p).run.subtasks[k]) {
      IntakeSubtask(run, p, k);
      WorkSubtask(cfg, taken, p, k);
      VerifyAt(cfg, taken.agents, taken.lead, p, 0, Verification(taken.subtasks, taken.pending, false, false), k);
    }
  }

  // A poll that the caps let through is at most both caps after the start.
  lemma WithinCaps(cfg: Config, run: Run, p: Poll)
    requires Shaped(run) && Fits(run, p) && Advance(cfg, run, p).status.Running?
    ensures Elapsed(Tick(run, p.now)) <= cfg.maxWall && Tick(run, p.now).held <= cfg.maxHold
    ensures p.now - run.started <= cfg.maxWall + cfg.maxHold
  {
  }

  // -- polls on a clock that never runs backwards -------------------------------------

  ghost predicate ClockOk(cfg: Config, t: Trace)
    requires IsRun(cfg, t)
  {
    && (t.polls != [] ==> t.runs[0].lastTick <= t.polls[0].now)
    && (forall i: nat :: i + 1 < |t.polls| ==>
          t.polls[i].now + (if t.statuses[i] == Running(true) then cfg.pollInterval else 0.0) <= t.polls[i + 1].now)
  }

  // Sum of the marked intervals before poll `n`.
  ghost function Marked(t: Trace, n: nat): real
    requires n <= |t.polls| && n <= |t.runs|
  {
    if n == 0 then 0.0
    else Marked(t, n - 1) + (if t.runs[n - 1].heldPrev then t.polls[n - 1].now - t.runs[n - 1].lastTick else 0.0)
  }

  // Held time is exactly the marked intervals, so it never exceeds the time
  // since the start: counted time, the rest, is never negative.
  lemma {:induction false} HeldIsMarked(cfg: Config, t: Trace, n: nat)
    requires IsRun(cfg, t) && ClockOk(cfg, t) && n <= |t.polls|
    ensures t.runs[n].held == Marked(t, n)
    ensures t.runs[n].started == t.runs[0].started
    ensures n > 0 ==> t.runs[n].lastTick == t.polls[n - 1].now
    ensures 0.0 <= t.runs[n].held && 0.0 <= Elapsed(t.runs[n])
  {
    if n > 0 {
      HeldIsMarked(cfg, t, n - 1);
      PollTicks(cfg, t, n - 1);
      SleepsForward(cfg, t, n - 1);
    }
  }

  // What poll `n` of a run does to the clock.
  lemma PollTicks(cfg: Config, t: Trace, n: nat)
    requires IsRun(cfg, t) && n < |t.polls|
    ensures t.runs[n + 1].held
         == t.runs[n].held + (if t.runs[n].heldPrev then t.polls[n].now - t.runs[n].lastTick else 0.0)
    ensures t.runs[n + 1].started == t.runs[n].started && t.runs[n + 1].lastTick == t.polls[n].now
  {
    assert StepOk(cfg, t, n);
    PollClock(cfg, t.runs[n], t.polls[n]);
  }

  lemma SleepsForward(cfg: Config, t: Trace, n: nat)
    requires IsRun(cfg, t) && ClockOk(cfg, t) && n < |t.polls|
    ensures t.runs[n].lastTick <= t.polls[n].now
  {
    if n > 0 {
      assert StepOk(cfg, t, n - 1);
      PollClock(cfg, t.runs[n - 1], t.polls[n - 1]);
      NeverSleepsNegative(cfg, t.runs[n - 1], t.polls[n - 1]);
    }
  }

  lemma NeverSleepsNegative(cfg: Config, run: Run, p: Poll)
    requires Shaped(run) && Fits(run, p)
    ensures Advance(cfg, run, p).status == Running(true) ==> cfg.pollInterval >= 0.0
  {
    var ticked := Tick(run, p.now);
    if Capped(cfg, ticked, p).None? {
      WorkSleeps(cfg, Intake(ticked, p), p);
    }
  }

  lemma WorkSleeps(cfg: Config, taken: Run, p: Poll)
    requires WorkersExist(taken.agents, taken.subtasks) && |p.checks| == |taken.subtasks| && |p.mail| == |taken.agents|
    ensures Work(cfg, taken, p).status == Running(true) ==> cfg.pollInterval >= 0.0
  {
  }

  // -- polls that do not sleep ------------------------------------------------------------

  function Count(statuses: seq<Status>, s: Status): nat {
    if statuses == [] then 0
    else Count(statuses[..|statuses| - 1], s) + (if statuses[|statuses| - 1] == s then 1 else 0)
  }

  // All Attempts a run of `m` subtasks can have.
  function Attempts(m: nat, rounds: nat): (s: set<(nat, nat)>)
    ensures forall k: nat, r: nat :: (k, r) in s <==> k < m && 1 <= r <= rounds
    ensures |s| == m * rounds
  {
    if m == 0 then {}
    else
      var row := AttemptsOf(m - 1, rounds);
      var rest := Attempts(m - 1, rounds);
      assert rest !! row by {
        forall x | x in rest ensures x !in row {
          assert x == (x.0, x.1);
        }
      }
      rest + row
  }

  function AttemptsOf(k: nat, rounds: nat): (s: set<(nat, nat)>)
    ensures forall j: nat, r: nat :: (j, r) in s <==> j == k && 1 <= r <= rounds
    ensures |s| == rounds
  {
    if rounds == 0 then {} else AttemptsOf(k, rounds - 1) + {(k, rounds)}
  }

  ghost predicate StallsRecorded(cfg: Config, run: Run) {
    run.stallVerified <= Attempts(|run.subtasks|, cfg.maxRounds)
  }

  lemma UnverifiedAreAttempts(cfg: Config, run: Run)
    requires forall k :: 0 <= k < |run.subtasks| ==> SubtaskOk(cfg, run.subtasks[k])
    requires StallsRecorded(cfg, run)
    ensures StallsRecorded(cfg, RequestVerification(run))
    ensures |RequestVerification(run).stallVerified|
         == |run.stallVerified| + |Unverified(run.subtasks, run.stallVerified)|
  {
    var added := Unverified(run.subtasks, run.stallVerified);
    forall x | x in added ensures x in Attempts(|run.subtasks|, cfg.maxRounds) && x !in run.stallVerified {
      var k: nat :| k < |run.subtasks| && x == (k, run.subtasks[k].rounds) && x !in run.stallVerified;
      assert SubtaskOk(cfg, run.subtasks[k]);
    }
    assert added !! run.stallVerified;
  }

  lemma DecideCases(cfg: Config, run: Run, p: Poll, worked: bool)
    ensures var step := Decide(cfg, run, p, worked);
            var marked := run.(heldPrev := p.gate != [] && !worked && !AnyInFlight(run.agents));
            if step.status == Running(false) then
              step.run == RequestVerification(marked) && Unverified(marked.subtasks, marked.stallVerified) != {}
            else step.run.stallVerified == run.stallVerified && |step.run.subtasks| == |run.subtasks|
  {
  }

  lemma DecideStalls(cfg: Config, run: Run, p: Poll, worked: bool)
    requires forall k :: 0 <= k < |run.subtasks| ==> SubtaskOk(cfg, run.subtasks[k])
    requires StallsRecorded(cfg, run)
    ensures var step := Decide(cfg, run, p, worked);
            && StallsRecorded(cfg, step.run)
            && |step.run.stallVerified| >= |run.stallVerified| + (if step.status == Running(false) then 1 else 0)
  {
    var marked := run.(heldPrev := p.gate != [] && !worked && !AnyInFlight(run.agents));
    DecideCases(cfg, run, p, worked);
    if Decide(cfg, run, p, worked).status == Running(false) {
      UnverifiedAreAttempts(cfg, marked);
      assert |Unverified(marked.subtasks, marked.stallVerified)| > 0;
    }
  }

  lemma WorkStalls(cfg: Config, taken: Run, p: Poll)
    requires Inv(cfg, taken) && Fits(taken, p) && StallsRecorded(cfg, taken)
    ensures var step := Work(cfg, taken, p);
            && StallsRecorded(cfg, step.run)
            && |step.run.stallVerified| >= |taken.stallVerified| + (if step.status == Running(false) then 1 else 0)
  {
    hide Outflow, Decide, Verify;
    var v := HostVerification(cfg, taken, p);
    if !v.raised {
      var verified := WithVerification(taken, v);
      OutflowFrame(cfg, verified, p);
      forall k | 0 <= k < |taken.subtasks| ensures SubtaskOk(cfg, v.subtasks[k]) {
        assert SubtaskOk(cfg, taken.subtasks[k]);
        VerifyAt(cfg, taken.agents, taken.lead, p, 0, Verification(taken.subtasks, taken.pending, false, false), k);
      }
      DecideStalls(cfg, Outflow(cfg, verified, p), p, v.hostWorked);
    }
  }

  lemma IntakeInv(cfg: Config, run: Run, p: Poll)
    requires Inv(cfg, run) && Fits(run, p)
    ensures Inv(cfg, Intake(run, p)) && Intake(run, p).stallVerified == run.stallVerified
  {
    IntakeFrame(run, p);
    var taken := Intake(run, p);
    BusyAtMost(run.agents, taken.agents);
    forall k | 0 <= k < |run.subtasks| ensures SubtaskOk(cfg, taken.subtasks[k]) {
      assert SubtaskOk(cfg, run.subtasks[k]);
    }
  }

  lemma PollStalls(cfg: Config, run: Run, p: Poll)
    requires Inv(cfg, run) && Fits(run, p) && StallsRecorded(cfg, run)
    ensures var step := Advance(cfg, run, p);
            && StallsRecorded(cfg, step.run)
            && |step.run.stallVerified| >= |run.stallVerified| + (if step.status == Running(false) then 1 else 0)
  {
    var ticked := Tick(run, p.now);
    if Capped(cfg, ticked, p).None? {
      IntakeInv(cfg, ticked, p);
      WorkStalls(cfg, Intake(ticked, p), p);
    }
  }

  lemma {:induction false} StallsCounted(cfg: Config, t: Trace, n: nat)
    requires ConfigOk(cfg) && IsRun(cfg, t) && n <= |t.polls|
    ensures StallsRecorded(cfg, t.runs[n]) && Count(t.statuses[..n], Running(false)) <= |t.runs[n].stallVerified|
  {
    hide Advance, Inv;
    if n > 0 {
      StallsCounted(cfg, t, n - 1);
      InvAlways(cfg, t, n - 1);
      assert StepOk(cfg, t, n - 1);
      PollStalls(cfg, t.runs[n - 1], t.polls[n - 1]);
      assert t.statuses[..n][..n - 1] == t.statuses[..n - 1];
    }
  }

  lemma SubsetSize(a: set<(nat, nat)>, b: set<(nat, nat)>)
    requires a <= b
    ensures |a| <= |b|
  {
    assert b == a + (b - a);
  }

  // The quiet-agents `continue` runs at most once per Attempt.
  lemma StallBound(cfg: Config, t: Trace, n: nat)
    requires ConfigOk(cfg) && IsRun(cfg, t) && n <= |t.polls|
    ensures Count(t.statuses[..n], Running(false)) <= |t.runs[0].subtasks| * cfg.maxRounds
  {
    StallsCounted(cfg, t, n);
    InvAlways(cfg, t, n);
    SubsetSize(t.runs[n].stallVerified, Attempts(|t.runs[n].subtasks|, cfg.maxRounds));
  }

  // -- every run ends -----------------------------------------------------------------------

  function Times(k: nat, x: real): real { if k == 0 then 0.0 else Times(k - 1, x) + x }

  // Sleeping polls push the clock forward.
  lemma {:induction false} SleepsAddUp(start: real, nows: seq<real>, statuses: seq<Status>, interval: real)
    requires |nows| == |statuses| + 1 && start <= nows[0]
    requires forall i: nat :: i < |statuses| ==>
                                nows[i] + (if statuses[i] == Running(true) then interval else 0.0) <= nows[i + 1]
    ensures start + Times(Count(statuses, Running(true)), interval) <= nows[|statuses|]
  {
    if statuses != [] {
      var n := |statuses| - 1;
      SleepsAddUp(start, nows[..n + 1], statuses[..n], interval);
    }
  }

  lemma {:induction false} TimesIsProduct(k: nat, x: real)
    ensures Times(k, x) == k as real * x
  {
    if k > 0 {
      TimesIsProduct(k - 1, x);
      Distribute((k - 1) as real, x);
      assert k as real == (k - 1) as real + 1.0;
    }
  }

  lemma Distribute(r: real, x: real)
    ensures (r + 1.0) * x == r * x + x
  {
  }

  // `limit + 1` sleeps outlast both caps.
  ghost predicate Outlasts(cfg: Config, limit: nat) {
    Times(limit + 1, cfg.pollInterval) > cfg.maxWall + cfg.maxHold
  }

  lemma LimitExists(cfg: Config) returns (limit: nat)
    requires cfg.pollInterval > 0.0 && cfg.maxWall + cfg.maxHold > 0.0
    ensures Outlasts(cfg, limit)
  {
    var quotient := (cfg.maxWall + cfg.maxHold) / cfg.pollInterval;
    assert quotient >= 0.0;
    limit := quotient.Floor;
    TimesIsProduct(limit + 1, cfg.pollInterval);
    ProductExceeds((limit + 1) as real, quotient, cfg.pollInterval);
    assert quotient * cfg.pollInterval == cfg.maxWall + cfg.maxHold;
  }

  lemma ProductExceeds(a: real, b: real, x: real)
    requires a > b && x > 0.0
    ensures a * x > b * x
  {
  }

  lemma {:induction false} TimesMonotone(a: nat, b: nat, x: real)
    requires a <= b && x > 0.0
    ensures Times(a, x) <= Times(b, x)
  {
    if a < b {
      TimesMonotone(a, b - 1, x);
    }
  }

  lemma ClockAdvances(cfg: Config, t: Trace, n: nat)
    requires IsRun(cfg, t) && ClockOk(cfg, t) && n < |t.polls|
    ensures t.runs[0].lastTick + Times(Count(t.statuses[..n], Running(true)), cfg.pollInterval) <= t.polls[n].now
  {
    var nows := seq(n + 1, i requires 0 <= i <= n => t.polls[i].now);
    SleepsAddUp(t.runs[0].lastTick, nows, t.statuses[..n], cfg.pollInterval);
  }

  lemma {:induction false} SleptOrStalled(statuses: seq<Status>)
    requires forall i :: 0 <= i < |statuses| ==> statuses[i].Running?
    ensures Count(statuses, Running(true)) + Count(statuses, Running(false)) == |statuses|
  {
    if statuses != [] {
      SleptOrStalled(statuses[..|statuses| - 1]);
    }
  }

  lemma SurvivorsWithinCaps(cfg: Config, t: Trace, n: nat)
    requires IsRun(cfg, t) && ClockOk(cfg, t) && n < |t.polls| && t.statuses[n].Running?
    ensures t.polls[n].now - t.runs[0].started <= cfg.maxWall + cfg.maxHold
  {
    HeldIsMarked(cfg, t, n);
    assert StepOk(cfg, t, n);
    WithinCaps(cfg, t.runs[n], t.polls[n]);
  }

  lemma SleepBound(cfg: Config, t: Trace, n: nat, limit: nat)
    requires cfg.pollInterval > 0.0 && Outlasts(cfg, limit) && IsRun(cfg, t) && ClockOk(cfg, t)
    requires n < |t.polls| && t.statuses[n].Running?
    ensures Count(t.statuses[..n], Running(true)) <= limit
  {
    ClockAdvances(cfg, t, n);
    SurvivorsWithinCaps(cfg, t, n);
    if Count(t.statuses[..n], Running(true)) > limit {
      TimesMonotone(limit + 1, Count(t.statuses[..n], Running(true)), cfg.pollInterval);
    }
  }

  lemma {:induction false} NoSleeps(cfg: Config, t: Trace, n: nat)
    requires cfg.pollInterval < 0.0 && IsRun(cfg, t) && n <= |t.polls|
    ensures Count(t.statuses[..n], Running(true)) == 0
  {
    if n > 0 {
      NoSleeps(cfg, t, n - 1);
      assert StepOk(cfg, t, n - 1);
      NeverSleepsNegative(cfg, t.runs[n - 1], t.polls[n - 1]);
      assert t.statuses[..n][..n - 1] == t.statuses[..n - 1];
    }
  }

  // Every run ends: its polls are at most the sleeps that fit in both caps, one
  // quiet-agents `continue` per Attempt, and two.
  lemma RunsEnd(cfg: Config, t: Trace, limit: nat)
    requires ConfigOk(cfg) && (cfg.pollInterval < 0.0 || (cfg.pollInterval > 0.0 && Outlasts(cfg, limit)))
    requires IsRun(cfg, t) && ClockOk(cfg, t)
    ensures |t.polls| <= |t.runs[0].subtasks| * cfg.maxRounds + limit + 2
  {
    if |t.polls| >= 2 {
      // The last but one poll did not end the run.
      var n := |t.polls| - 2;
      StallBound(cfg, t, n);
      SleptOrStalled(t.statuses[..n]);
      if cfg.pollInterval > 0.0 {
        SleepBound(cfg, t, n, limit);
      } else {
        NoSleeps(cfg, t, n);
      }
    }
  }

  // A poll, `d` after the last one, in which nothing happens but a pending
  // decision that blocks the run.
  function QuietPoll(run: Run, d: real): Poll {
    Poll(run.lastTick + d, false, false, {}, [], [], [MaterialRequest(0, 0, RunScope)], false,
         seq(|run.subtasks|, _ => Raises(Untouched)), {}, seq(|run.agents|, _ => NoMail),
         true, run.lastTick + d, run.lastTick + d)
  }

  // Nothing was judged or asked for yet; mail may be waiting and agents may be
  // due for a turn.
  ghost predicate Quiet(run: Run) {
    && Shaped(run) && |run.subtasks| > 0
    && (forall i :: 0 <= i < |run.agents| ==> !run.agents[i].inFlight)
    && (forall k :: 0 <= k < |run.subtasks| ==> run.subtasks[k].verdict == None && !run.subtasks[k].verifyRequested)
  }

  ghost predicate UnderCaps(cfg: Config, run: Run) { Elapsed(run) <= cfg.maxWall && run.held <= cfg.maxHold }

  lemma QuietIntake(run: Run, d: real)
    requires Quiet(run)
    ensures Fits(run, QuietPoll(run, d)) && Fits(Tick(run, run.lastTick + d), QuietPoll(run, d))
    ensures Quiet(Tick(run, run.lastTick + d))
    ensures Intake(Tick(run, run.lastTick + d), QuietPoll(run, d)) == Tick(run, run.lastTick + d)
  {
    assert FinishTurns(run.agents, {}) == run.agents;
  }

  lemma QuietVerify(cfg: Config, run: Run, p: Poll, k: nat)
    requires WorkersExist(run.agents, run.subtasks) && k <= |run.subtasks| == |p.checks|
    requires forall k :: 0 <= k < |run.subtasks| ==> !run.subtasks[k].verifyRequested
    ensures var v := Verification(run.subtasks, run.pending, false, false);
            Verify(cfg, run.agents, run.lead, p, k, v) == v
    decreases |run.subtasks| - k
  {
    if k < |run.subtasks| {
      QuietVerify(cfg, run, p, k + 1);
    }
  }

  // A run-scoped decision keeps every agent from its next turn, mail or not.
  lemma BlockedWake(cfg: Config, run: Run, p: Poll, i: nat, busy: nat)
    requires |p.mail| == |run.agents| && i <= |run.agents| && RunScope in BlockedScopes(p.gate)
    ensures Wake(cfg, run, p, i, busy) == run
    decreases |run.agents| - i
  {
    if i < |run.agents| {
      BlockedWake(cfg, run, p, i + 1, busy);
    }
  }

  lemma QuietOutflow(cfg: Config, run: Run, p: Poll)
    requires Quiet(run) && |p.mail| == |run.agents| && RunScope in BlockedScopes(p.gate)
    ensures var r := Outflow(cfg, run, p);
            && r == run.(agents := r.agents, pending := r.pending) && |r.agents| == |run.agents|
            && forall j :: 0 <= j < |run.agents| ==> r.agents[j] == run.agents[j].(wake := r.agents[j].wake)
  {
    assert run.subtasks[0].verdict == None;
    assert NotifyAllPass(run) == run;
    DeliverKeeps(run, p.undeliverable, 0, []);
    var delivered := Deliver(run, p.undeliverable, 0, []);
    BlockedWake(cfg, delivered, p, 0, Busy(delivered.agents));
  }

  lemma QuietDecide(cfg: Config, run: Run, p: Poll)
    requires cfg.pollInterval == 0.0 && Quiet(run) && p.gate != [] && p.waitingHuman
    ensures Decide(cfg, run, p, false)
         == Step(run.(heldPrev := true, idleSince := None), Running(true))
  {
    assert run.subtasks[0].verdict == None;
    assert !AllPass(run.subtasks) && !ExhaustedRun(cfg, run.subtasks);
  }

  // What a quiet poll leaves of a run.
  ghost predicate StillQuiet(before: Run, after: Run) {
    && Quiet(after) && after.heldPrev
    && after.lastTick == before.lastTick && after.started == before.started && after.held == before.held
  }

  lemma QuietWork(cfg: Config, run: Run, p: Poll)
    requires cfg.pollInterval == 0.0 && Quiet(run) && Fits(run, p)
    requires p.waitingHuman && RunScope in BlockedScopes(p.gate)
    ensures Work(cfg, run, p).status == Running(true) && StillQuiet(run, Work(cfg, run, p).run)
  {
    hide Verify, Outflow, Decide;
    QuietVerify(cfg, run, p, 0);
    assert WithVerification(run, HostVerification(cfg, run, p)) == run;
    QuietOutflow(cfg, run, p);
    QuietDecide(cfg, Outflow(cfg, run, p), p);
  }

  lemma QuietStep(cfg: Config, run: Run, d: real)
    requires cfg.pollInterval == 0.0 && Quiet(run) && UnderCaps(cfg, Tick(run, run.lastTick + d))
    ensures Fits(run, QuietPoll(run, d))
    ensures var step := Advance(cfg, run, QuietPoll(run, d));
            step.status == Running(true) && StillQuiet(Tick(run, run.lastTick + d), step.run)
  {
    hide Work, Intake;
    var p := QuietPoll(run, d);
    QuietIntake(run, d);
    assert MaterialRequest(0, 0, RunScope) in p.gate;
    QuietWork(cfg, Tick(run, p.now), p);
  }

  function Extended(cfg: Config, t: Trace, p: Poll): Trace
    requires t.runs != [] && Shaped(t.runs[|t.runs| - 1]) && Fits(t.runs[|t.runs| - 1], p)
  {
    var step := Advance(cfg, t.runs[|t.runs| - 1], p);
    Trace(t.runs + [step.run], t.polls + [p], t.statuses + [step.status])
  }

  lemma ExtendRun(cfg: Config, t: Trace, p: Poll)
    requires IsRun(cfg, t) && Shaped(t.runs[|t.polls|]) && Fits(t.runs[|t.polls|], p)
    requires t.polls != [] ==> t.statuses[|t.polls| - 1].Running?
    ensures IsRun(cfg, Extended(cfg, t, p))
  {
    var longer := Extended(cfg, t, p);
    forall i: nat | i < |longer.polls| ensures StepOk(cfg, longer, i) {
      if i < |t.polls| {
        assert StepOk(cfg, t, i);
      }
    }
  }

  // A run that has only waited so far, polled every `d`: the first interval
  // counts as work, all later ones are held.
  ghost predicate Waiting(cfg: Config, init: Run, d: real, t: Trace) {
    && IsRun(cfg, t) && t.runs[0] == init
    && (t.polls != [] ==> t.statuses[|t.polls| - 1].Running?)
    && (forall i: nat :: i < |t.polls| ==> t.polls[i].now == init.lastTick + Times(i + 1, d))
    && var n, last := |t.polls|, t.runs[|t.polls|];
       && Quiet(last) && (last.heldPrev <==> n > 0)
       && last.started == init.started && last.lastTick == init.lastTick + Times(n, d)
       && last.held == init.held + (if n > 0 then Times(n - 1, d) else 0.0)
  }

  lemma WaitLonger(cfg: Config, init: Run, d: real, t: Trace) returns (longer: Trace)
    requires cfg.pollInterval == 0.0 && 0.0 <= d && Waiting(cfg, init, d, t)
    requires Elapsed(init) + d <= cfg.maxWall && init.held + Times(|t.polls|, d) <= cfg.maxHold
    ensures Waiting(cfg, init, d, longer) && |longer.polls| == |t.polls| + 1
  {
    hide Advance, Quiet, Init;
    var last := t.runs[|t.polls|];
    assert UnderCaps(cfg, Tick(last, last.lastTick + d)) by {
      if |t.polls| > 0 { assert Times(|t.polls|, d) == Times(|t.polls| - 1, d) + d; }
    }
    QuietStep(cfg, last, d);
    QuietIsShaped(last);
    ExtendRun(cfg, t, QuietPoll(last, d));
    longer := Extended(cfg, t, QuietPoll(last, d));
  }

  lemma QuietIsShaped(run: Run)
    requires Quiet(run)
    ensures Shaped(run)
  {
  }

  lemma {:induction false} TimesGrows(k: nat, d: real)
    requires 0.0 <= d
    ensures 0.0 <= Times(k, d) <= Times(k + 1, d)
  {
    if k > 0 { TimesGrows(k - 1, d); }
  }

  // With a zero interval a run waits for its human through any number of polls.
  lemma {:induction false} ZeroIntervalRun(cfg: Config, init: Run, d: real, n: nat) returns (t: Trace)
    requires ConfigOk(cfg) && cfg.pollInterval == 0.0 && 0.0 <= d
    requires Init(init) && |init.subtasks| > 0 && Elapsed(init) + d <= cfg.maxWall && Times(n, d) <= cfg.maxHold
    ensures Waiting(cfg, init, d, t) && ClockOk(cfg, t) && |t.polls| == n
    ensures d > 0.0 ==> Ticks(t)
  {
    if n == 0 {
      t := Trace([init], [], []);
    } else {
      TimesGrows(n - 1, d);
      var shorter := ZeroIntervalRun(cfg, init, d, n - 1);
      t := WaitLonger(cfg, init, d, shorter);
      WaitingClock(cfg, init, d, t);
    }
  }

  // Every poll reads a later time than the one before it.
  ghost predicate Ticks(t: Trace) {
    && (t.runs != [] && t.polls != [] ==> t.runs[0].lastTick < t.polls[0].now)
    && forall i: nat :: i + 1 < |t.polls| ==> t.polls[i].now < t.polls[i + 1].now
  }

  lemma WaitingClock(cfg: Config, init: Run, d: real, t: Trace)
    requires cfg.pollInterval == 0.0 && 0.0 <= d && Waiting(cfg, init, d, t)
    ensures ClockOk(cfg, t) && (d > 0.0 ==> Ticks(t))
  {
    hide Advance, Quiet, Init;
    assert Times(1, d) == d;
    forall i: nat | i + 1 < |t.polls| ensures t.polls[i + 1].now == t.polls[i].now + d {
      assert Times(i + 2, d) == Times(i + 1, d) + d;
    }
  }

  // However little room there is, any number of steps fits into it.
  lemma {:induction false} SmallSteps(n: nat, room: real) returns (d: real)
    requires room > 0.0
    ensures 0.0 < d <= room && Times(n, d) <= room
  {
    if n == 0 {
      d := room;
    } else {
      d := SmallSteps(n - 1, room / 2.0);
    }
  }

  ghost predicate RunsBounded(cfg: Config, init: Run, bound: int) {
    forall t: Trace :: IsRun(cfg, t) && ClockOk(cfg, t) && t.runs[0] == init ==> |t.polls| <= bound
  }

  // A run that begins over its wall cap is stopped by its first poll.
  lemma OverdueStops(cfg: Config, t: Trace)
    requires IsRun(cfg, t) && ClockOk(cfg, t) && Elapsed(t.runs[0]) > cfg.maxWall
    ensures |t.polls| <= 1
  {
    if |t.polls| > 1 {
      assert StepOk(cfg, t, 0);
      WithinCaps(cfg, t.runs[0], t.polls[0]);
    }
  }

  // The number of polls of the runs from a state is bounded exactly when the
  // poll interval, which the configuration does not range-check, is not zero,
  // or the wall cap is over before the first poll.
  lemma BoundedIffIntervalNonZero(cfg: Config, init: Run)
    requires ConfigOk(cfg) && Init(init) && |init.subtasks| > 0
    ensures (exists bound: int :: RunsBounded(cfg, init, bound)) <==>
              cfg.pollInterval != 0.0 || Elapsed(init) > cfg.maxWall
  {
    if cfg.pollInterval != 0.0 {
      NonZeroIsBounded(cfg, init);
    } else if Elapsed(init) > cfg.maxWall {
      forall t: Trace | IsRun(cfg, t) && ClockOk(cfg, t) && t.runs[0] == init ensures |t.polls| <= 1 {
        OverdueStops(cfg, t);
      }
      assert RunsBounded(cfg, init, 1);
    } else {
      forall bound: int ensures !RunsBounded(cfg, init, bound) {
        var n := if bound < 0 then 0 else bound + 1;
        TimesZero(n);
        var t := ZeroIntervalRun(cfg, init, 0.0, n);
      }
    }
  }

  lemma {:induction false} TimesZero(n: nat)
    ensures Times(n, 0.0) == 0.0
  {
    if n > 0 { TimesZero(n - 1); }
  }

  ghost predicate TickingRunsBounded(cfg: Config, init: Run, bound: int) {
    forall t: Trace :: IsRun(cfg, t) && ClockOk(cfg, t) && Ticks(t) && t.runs[0] == init ==> |t.polls| <= bound
  }

  // The same on a clock that moves between any two polls, however little. The
  // first interval is never held, so a run that starts at its wall cap stops.
  lemma BoundedOnATickingClock(cfg: Config, init: Run)
    requires ConfigOk(cfg) && Init(init) && |init.subtasks| > 0
    ensures (exists bound: int :: TickingRunsBounded(cfg, init, bound)) <==>
              cfg.pollInterval != 0.0 || Elapsed(init) >= cfg.maxWall
  {
    if cfg.pollInterval != 0.0 {
      NonZeroIsBounded(cfg, init);
      var bound: int :| RunsBounded(cfg, init, bound);
      assert TickingRunsBounded(cfg, init, bound);
    } else if Elapsed(init) >= cfg.maxWall {
      forall t: Trace | IsRun(cfg, t) && ClockOk(cfg, t) && Ticks(t) && t.runs[0] == init ensures |t.polls| <= 1 {
        OverdueAtFirstTick(cfg, t);
      }
      assert TickingRunsBounded(cfg, init, 1);
    } else {
      forall bound: int ensures !TickingRunsBounded(cfg, init, bound) {
        var t := TickingRun(cfg, init, if bound < 0 then 0 else bound + 1);
      }
    }
  }

  lemma OverdueAtFirstTick(cfg: Config, t: Trace)
    requires IsRun(cfg, t) && ClockOk(cfg, t) && Ticks(t) && Elapsed(t.runs[0]) >= cfg.maxWall
    ensures |t.polls| <= 1
  {
    if |t.polls| > 1 {
      assert StepOk(cfg, t, 0);
      WithinCaps(cfg, t.runs[0], t.polls[0]);
    }
  }

  lemma TickingRun(cfg: Config, init: Run, n: nat) returns (t: Trace)
    requires ConfigOk(cfg) && cfg.pollInterval == 0.0
    requires Init(init) && |init.subtasks| > 0 && Elapsed(init) < cfg.maxWall
    ensures IsRun(cfg, t) && ClockOk(cfg, t) && Ticks(t) && t.runs[0] == init && |t.polls| == n
  {
    var wall := cfg.maxWall - Elapsed(init);
    var d := SmallSteps(n, if wall < cfg.maxHold then wall else cfg.maxHold);
    t := ZeroIntervalRun(cfg, init, d, n);
  }

  lemma NonZeroIsBounded(cfg: Config, init: Run)
    requires ConfigOk(cfg) && cfg.pollInterval != 0.0
    ensures exists bound: int :: RunsBounded(cfg, init, bound)
  {
    var limit := 0;
    if cfg.pollInterval > 0.0 {
      limit := LimitExists(cfg);
    }
    var bound := |init.subtasks| * cfg.maxRounds + limit + 2;
    forall t: Trace | IsRun(cfg, t) && ClockOk(cfg, t) && t.runs[0] == init ensures |t.polls| <= bound {
      RunsEnd(cfg, t, limit);
    }
    assert RunsBounded(cfg, init, bound);
  }
}
