/** The verification phase check by check, and the phases around it: what they do
    one after another is one poll (sdf_core/coordinator.py). */
module RunPhases {
  import opened Results
  import opened Verdicts
  import opened RunState
  import opened RunSafety
  import opened RunProperties
  import opened Coordinators

  // ---- The verification phase ----------------------------------------------

  // Whatever the later checks come to, going on from subtask `k` leads where the
  // whole phase leads.
  ghost predicate OnTrack(cfg: Config, taken: Run, p: Poll, checks: seq<CheckOutcome>, k: nat, v: Verification)
    requires WorkersExist(taken.agents, taken.subtasks) && WorkersExist(taken.agents, v.subtasks)
    requires |checks| == |taken.subtasks| == |v.subtasks| && k <= |checks|
  {
    forall later: seq<CheckOutcome> :: |later| == |checks| && later[..k] == checks[..k] ==>
      Verify(cfg, taken.agents, taken.lead, p.(checks := later), k, v)
      == HostVerification(cfg, taken, p.(checks := later))
  }

  lemma OnTrackAtStart(cfg: Config, taken: Run, p: Poll, checks: seq<CheckOutcome>)
    requires WorkersExist(taken.agents, taken.subtasks) && |checks| == |taken.subtasks|
    ensures OnTrack(cfg, taken, p, checks, 0, Verification(taken.subtasks, taken.pending, false, false))
  {
    hide Verify;
  }

  lemma VerifySkips(cfg: Config, agents: seq<Agent>, lead: nat, p: Poll, k: nat, v: Verification)
    requires WorkersExist(agents, v.subtasks) && k < |v.subtasks| == |p.checks|
    requires !Verifiable(agents, v.subtasks[k], SubtaskBlocked(p.gate, k))
    ensures Verify(cfg, agents, lead, p, k, v) == Verify(cfg, agents, lead, p, k + 1, v)
  {
  }

  lemma OnTrackPast(cfg: Config, taken: Run, p: Poll, checks: seq<CheckOutcome>, k: nat, v: Verification)
    requires WorkersExist(taken.agents, taken.subtasks) && WorkersExist(taken.agents, v.subtasks)
    requires |checks| == |taken.subtasks| == |v.subtasks| && k < |checks| && OnTrack(cfg, taken, p, checks, k, v)
    requires !Verifiable(taken.agents, v.subtasks[k], SubtaskBlocked(p.gate, k))
    ensures OnTrack(cfg, taken, p, checks, k + 1, v)
  {
    hide HostVerification, Verifiable, SubtaskBlocked, Verify;
    forall later: seq<CheckOutcome> | |later| == |checks| && later[..k + 1] == checks[..k + 1]
      ensures Verify(cfg, taken.agents, taken.lead, p.(checks := later), k + 1, v)
           == HostVerification(cfg, taken, p.(checks := later))
    {
      VerifySkips(cfg, taken.agents, taken.lead, p.(checks := later), k, v);
      assert later[..k] == later[..k + 1][..k] && checks[..k] == checks[..k + 1][..k];
    }
  }

  // One subtask is checked and the outcome put down.
  lemma OnTrackNext(cfg: Config, taken: Run, p: Poll, checks: seq<CheckOutcome>, k: nat, v: Verification,
                    outcome: CheckOutcome)
    requires WorkersExist(taken.agents, taken.subtasks) && WorkersExist(taken.agents, v.subtasks)
    requires |checks| == |taken.subtasks| == |v.subtasks| && k < |checks| && OnTrack(cfg, taken, p, checks, k, v)
    requires Verifiable(taken.agents, v.subtasks[k], SubtaskBlocked(p.gate, k))
    ensures var checked := VerifyOne(cfg, v.subtasks[k], outcome);
            var next := v.(subtasks := v.subtasks[k := checked.sub], hostWorked := true);
            if checked.raised then
              HostVerification(cfg, taken, p.(checks := checks[k := outcome])) == next.(raised := true)
            else
              && WorkersExist(taken.agents, next.subtasks)
              && OnTrack(cfg, taken, p, checks[k := outcome], k + 1,
                         next.(mail := v.mail + [v.subtasks[k].worker, taken.lead]))
  {
    hide HostVerification, Verifiable, SubtaskBlocked, LeftBehind;
    VerifyOneKeepsWorker(cfg, v.subtasks[k], outcome);
    var put := checks[k := outcome];
    assert put[..k] == checks[..k];
    var checked := VerifyOne(cfg, v.subtasks[k], outcome);
    if checked.raised {
      assert Verify(cfg, taken.agents, taken.lead, p.(checks := put), k, v)
          == HostVerification(cfg, taken, p.(checks := put));
    } else {
      var next := v.(subtasks := v.subtasks[k := checked.sub], hostWorked := true,
                     mail := v.mail + [v.subtasks[k].worker, taken.lead]);
      forall later: seq<CheckOutcome> | |later| == |put| && later[..k + 1] == put[..k + 1]
        ensures Verify(cfg, taken.agents, taken.lead, p.(checks := later), k + 1, next)
             == HostVerification(cfg, taken, p.(checks := later))
      {
        assert later[k] == later[..k + 1][k] == put[..k + 1][k] == outcome;
        assert later[..k] == later[..k + 1][..k] && put[..k] == put[..k + 1][..k];
      }
    }
  }

  lemma OnTrackAtEnd(cfg: Config, taken: Run, p: Poll, checks: seq<CheckOutcome>, v: Verification)
    requires WorkersExist(taken.agents, taken.subtasks) && WorkersExist(taken.agents, v.subtasks)
    requires |checks| == |taken.subtasks| == |v.subtasks| && OnTrack(cfg, taken, p, checks, |checks|, v)
    ensures HostVerification(cfg, taken, p.(checks := checks)) == v
  {
    hide HostVerification;
    assert Verify(cfg, taken.agents, taken.lead, p.(checks := checks), |checks|, v) == v;
  }

  // The phases before and after host verification neither settle nor reopen.
  ghost predicate SameSettled(a: Run, b: Run) {
    |a.subtasks| == |b.subtasks| && forall k :: 0 <= k < |a.subtasks| ==> a.subtasks[k].settled == b.subtasks[k].settled
  }

  lemma OpeningSettles(cfg: Config, before: Run, p: Poll)
    requires Shaped(before) && Fits(before, p)
    ensures SameSettled(before, Opening(cfg, before, p).0)
  {
    IntakeFrame(Tick(before, p.now), p);
  }

  lemma ClosingSettles(cfg: Config, run: Run, p: Poll, hostWorked: bool, raised: bool)
    requires |p.mail| == |run.agents|
    ensures SameSettled(run, Closing(cfg, run, p, hostWorked, raised).run)
  {
    hide Outflow, Decide;
    if !raised {
      OutflowFrame(cfg, run, p);
      DecideFrame(cfg, Outflow(cfg, run, p), p, hostWorked);
    }
  }

  lemma OpeningIgnoresChecks(cfg: Config, before: Run, p: Poll, checks: seq<CheckOutcome>)
    requires Shaped(before) && Fits(before, p) && |checks| == |before.subtasks|
    ensures Fits(before, p.(checks := checks))
    ensures Opening(cfg, before, p.(checks := checks)) == Opening(cfg, before, p)
  {
  }

  // What the host did adds up to one poll.
  lemma AddsUp(cfg: Config, before: Run, p: Poll, checks: seq<CheckOutcome>, taken: Run, hostWorked: bool, raised: bool,
               verified: Run, after: Run, status: Status)
    requires Shaped(before) && Fits(before, p) && |checks| == |before.subtasks| == |taken.subtasks|
    requires (taken, None) == Opening(cfg, before, p)
    requires WorkersExist(taken.agents, taken.subtasks) && |p.mail| == |taken.agents| == |verified.agents|
    requires var v := HostVerification(cfg, taken, p.(checks := checks));
             verified == WithVerification(taken, v) && hostWorked == v.hostWorked && raised == v.raised
    requires Step(after, status) == Closing(cfg, verified, p.(checks := checks), hostWorked, raised)
    ensures Fits(before, p.(checks := checks)) && Step(after, status) == Advance(cfg, before, p.(checks := checks))
  {
    hide Opening, Closing, Advance, Work, HostVerification, Shaped;
    OpeningIgnoresChecks(cfg, before, p, checks);
    AdvanceIs(cfg, before, p.(checks := checks));
    WorkIs(cfg, taken, p.(checks := checks));
  }

  lemma FitsSizes(run: Run, p: Poll)
    requires Fits(run, p)
    ensures |p.checks| == |run.subtasks| && |p.mail| == |run.agents|
  {
  }

  lemma StopsShort(cfg: Config, before: Run, p: Poll, checks: seq<CheckOutcome>, after: Run, stopped: Outcome)
    requires Shaped(before) && Fits(before, p) && |checks| == |before.subtasks|
    requires (after, Some(stopped)) == Opening(cfg, before, p)
    ensures Fits(before, p.(checks := checks))
    ensures Step(after, Ended(stopped)) == Advance(cfg, before, p.(checks := checks))
  {
    hide Opening, Advance, Work, Shaped;
    OpeningIgnoresChecks(cfg, before, p, checks);
    AdvanceIs(cfg, before, p.(checks := checks));
  }

  // The run went on by this poll, whatever its checks came to.
  ghost predicate OnePollOn(t: Trace, longer: Trace, p: Poll, status: Status) {
    && t.runs <= longer.runs && t.polls <= longer.polls && t.statuses <= longer.statuses
    && |longer.polls| == |longer.statuses| == |t.polls| + 1 && |t.statuses| == |t.polls|
    && longer.polls[|t.polls|].(checks := p.checks) == p && longer.statuses[|t.polls|] == status
  }

  lemma RunningIsShaped(cfg: Config, t: Trace)
    requires ConfigOk(cfg) && IsRun(cfg, t) && (t.polls != [] ==> t.statuses[|t.polls| - 1].Running?)
    ensures Shaped(t.runs[|t.polls|])
  {
    hide Advance, Init, Shaped;
    InvAlways(cfg, t, |t.polls|);
  }
}
