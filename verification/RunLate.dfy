/** A run that a late report ends: its worker passes no check in the last round,
    reports again, and the loop fails (sdf_core/coordinator.py). */
module RunLate {
  import opened Results
  import opened Verdicts
  import opened RunState
  import opened RunSafety
  import opened RunProperties

  // One round, two turns; the lead is agent 0 and the worker agent 1.
  const CFG := Config(2, 2, 1, 1500.0, 1500.0, 45.0, 0.5)

  const LEAD := Agent(None, 0, false, false)

  function Worker(turns: nat, wake: bool, inFlight: bool): Agent { Agent(Some(0), turns, wake, inFlight) }

  function OneWorker(worker: Agent, sub: Subtask, pending: seq<nat>, now: real): Run {
    Run([LEAD, worker], [sub], 0, pending, false, false, {}, 0.0, now, 0.0, false, None, {})
  }

  // A poll in which nothing but this happens; the worker always has mail.
  function LatePoll(now: real, finished: set<nat>, relayed: seq<Relayed>): Poll {
    Poll(now, false, false, finished, relayed, [], [], false, [Judged(Fail)], {}, [NoMail, HasMail], false, now, now)
  }

  const REPORT := Accepted(1, [], Some(Done), false)

  const FRESH := Subtask(1, 1, None, false, false)
  const FAILED := Subtask(1, 1, Some(Fail), false, true)

  // The briefs are queued; the worker works; it works on after its FAIL.
  const STARTED := OneWorker(Worker(0, false, false), FRESH, [0, 1], 0.0)
  const WORKING := OneWorker(Worker(1, false, true), FRESH, [], 0.0)
  const FAILING := OneWorker(Worker(2, false, true), FAILED, [], 0.5)
  const LATE := OneWorker(Worker(2, true, false), FAILED, [], 1.0)

  lemma TwoBusy(lead: Agent, worker: Agent)
    ensures Busy([lead, worker]) == (if lead.inFlight then 1 else 0) + (if worker.inFlight then 1 else 0)
  {
    assert [lead, worker][..1] == [lead];
    assert [lead][..0] == [];
    assert Busy([lead]) == Busy([]) + (if lead.inFlight then 1 else 0);
  }

  lemma BothTold(run: Run)
    requires |run.agents| == 2 && (run.pending == [0, 1] || run.pending == [1, 0])
    ensures var told := [run.agents[0].(wake := true), run.agents[1].(wake := true)];
            Deliver(run, {}, 0, []) == run.(agents := told, pending := [])
  {
    var first := run.(agents := Woken(run.agents, run.pending[0]));
    var second := first.(agents := Woken(first.agents, run.pending[1]));
    assert second.agents == [run.agents[0].(wake := true), run.agents[1].(wake := true)];
    assert Deliver(second, {}, 2, []) == second.(pending := []);
    assert Deliver(first, {}, 1, []) == second.(pending := []);
  }

  // The lead has no mail and the worker starts a turn.
  lemma WorkerStarts(told: Run, p: Poll, turns: nat)
    requires told.agents == [LEAD.(wake := true), Worker(turns, true, false)] && turns < 2
    requires p.gate == [] && p.mail == [NoMail, HasMail] && !AllPass(told.subtasks)
    ensures Wake(CFG, told, p, 0, Busy(told.agents)) == told.(agents := [LEAD, Worker(turns + 1, false, true)])
  {
    TwoBusy(LEAD.(wake := true), Worker(turns, true, false));
    var after0 := told.(agents := [LEAD, Worker(turns, true, false)]);
    var after1 := told.(agents := [LEAD, Worker(turns + 1, false, true)]);
    assert told.agents[0 := LEAD] == after0.agents;
    assert after0.agents[1 := Worker(turns + 1, false, true)] == after1.agents;
    assert Wake(CFG, after1, p, 2, 1) == after1;
    assert Wake(CFG, after0, p, 1, 0) == after1;
  }

  // Both are told something, and the worker starts a turn.
  lemma WorkerWakes(run: Run, p: Poll)
    requires |run.agents| == 2 && run.agents[0] == LEAD
    requires var w := run.agents[1]; w == Worker(w.turns, w.wake, false) && w.turns < 2
    requires (run.pending == [0, 1] || run.pending == [1, 0]) && !AllPass(run.subtasks)
    requires p.gate == [] && p.undeliverable == {} && p.mail == [NoMail, HasMail]
    ensures Outflow(CFG, run, p) == run.(agents := [LEAD, Worker(run.agents[1].turns + 1, false, true)], pending := [])
  {
    hide Deliver, Wake, Busy, AllPass;
    BothTold(run);
    WorkerStarts(Deliver(run, {}, 0, []), p, run.agents[1].turns);
  }

  lemma GoesOn(run: Run, p: Poll, hostWorked: bool)
    requires |run.agents| == 2 && run.agents[1].inFlight
    requires run.idleSince == None && !run.heldPrev && p.gate == [] && |run.subtasks| > 0 && !AllPass(run.subtasks)
    ensures Decide(CFG, run, p, hostWorked) == Step(run, Running(true))
  {
    assert AnyInFlight(run.agents);
    assert Active(run);
  }

  lemma FirstPoll()
    ensures Shaped(STARTED) && Fits(STARTED, LatePoll(0.0, {}, []))
    ensures Advance(CFG, STARTED, LatePoll(0.0, {}, [])) == Step(WORKING, Running(true))
  {
    var p := LatePoll(0.0, {}, []);
    assert Tick(STARTED, 0.0) == STARTED;
    assert FinishTurns(STARTED.agents, {}) == STARTED.agents;
    assert Intake(STARTED, p) == STARTED;
    var v := HostVerification(CFG, STARTED, p);
    assert v == Verification([FRESH], [0, 1], false, false);
    assert WithVerification(STARTED, v) == STARTED;
    assert STARTED.subtasks[0].verdict == None;
    WorkerWakes(STARTED, p);
    GoesOn(WORKING, p, false);
  }

  lemma Reported(run: Run, p: Poll)
    requires Shaped(run) && |run.agents| == 2 && |run.subtasks| == 1 && Fits(run, p)
    requires run.agents[0] == LEAD && run.agents[1] == Worker(run.agents[1].turns, false, true)
    requires p.finished == {1} && p.relayed == [REPORT] && p.resolved == []
    ensures Intake(run, p) == run.(agents := [LEAD, Worker(run.agents[1].turns, true, false)],
                                   subtasks := [run.subtasks[0].(verifyRequested := true)])
  {
    var agents := [LEAD, Worker(run.agents[1].turns, true, false)];
    assert FinishTurns(run.agents, {1}) == agents;
    var finished := run.(agents := agents);
    assert run.subtasks[0 := run.subtasks[0].(verifyRequested := true)] == [run.subtasks[0].(verifyRequested := true)];
    var relayed := finished.(subtasks := [run.subtasks[0].(verifyRequested := true)]);
    assert finished.pending + [] + [] == finished.pending;
    assert !agents[1].IsLead();
    assert RelayOne(finished, REPORT) == relayed;
    assert Shaped(finished) && Relay(relayed, []) == relayed;
    assert [REPORT][1..] == [];
    assert Relay(finished, [REPORT]) == relayed;
    assert Announce(relayed, []) == relayed;
  }

  // The only subtask is due and its check does not raise.
  lemma OneVerified(taken: Run, p: Poll, asked: Subtask, after: Subtask)
    requires WorkersExist(taken.agents, taken.subtasks) && taken.subtasks == [asked] && |p.checks| == 1 && p.gate == []
    requires asked.worker < |taken.agents| && !taken.agents[asked.worker].inFlight
    requires asked.verifyRequested && asked.verdict != Some(Pass)
    requires VerifyOne(CFG, asked, p.checks[0]) == Checked(after, false) && after.worker == asked.worker
    ensures HostVerification(CFG, taken, p)
         == Verification([after], taken.pending + [asked.worker, taken.lead], true, false)
  {
    var v0 := Verification([asked], taken.pending, false, false);
    var v1 := Verification([after], taken.pending + [asked.worker, taken.lead], true, false);
    assert [asked][0 := after] == [after];
    assert WorkersExist(taken.agents, [after]);
    assert !SubtaskBlocked(p.gate, 0);
    assert Verify(CFG, taken.agents, taken.lead, p, 1, v1) == v1;
    assert Verify(CFG, taken.agents, taken.lead, p, 0, v0) == v1;
  }

  lemma SecondPoll()
    ensures Shaped(WORKING) && Fits(WORKING, LatePoll(0.5, {1}, [REPORT]))
    ensures Advance(CFG, WORKING, LatePoll(0.5, {1}, [REPORT])) == Step(FAILING, Running(true))
  {
    var p := LatePoll(0.5, {1}, [REPORT]);
    var ticked := Tick(WORKING, 0.5);
    assert ticked == WORKING.(lastTick := 0.5);
    Reported(ticked, p);
    var taken := Intake(ticked, p);
    var asked := FRESH.(verifyRequested := true);
    assert taken.subtasks == [asked];
    assert VerifyOne(CFG, asked, Judged(Fail)) == Checked(FAILED, false);
    assert [asked][0 := FAILED] == [FAILED];
    var v := HostVerification(CFG, taken, p);
    OneVerified(taken, p, asked, FAILED);
    assert [] + [1, 0] == [1, 0];
    assert v == Verification([FAILED], [1, 0], true, false);
    var verified := WithVerification(taken, v);
    assert verified.subtasks[0].verdict == Some(Fail);
    WorkerWakes(verified, p);
    GoesOn(FAILING, p, true);
  }

  lemma ThirdPoll()
    ensures Shaped(FAILING) && Fits(FAILING, LatePoll(1.0, {1}, [REPORT]))
    ensures Advance(CFG, FAILING, LatePoll(1.0, {1}, [REPORT])) == Step(LATE, Ended(Failed(Exception)))
  {
    var p := LatePoll(1.0, {1}, [REPORT]);
    var ticked := Tick(FAILING, 1.0);
    assert ticked == FAILING.(lastTick := 1.0);
    Reported(ticked, p);
    var taken := Intake(ticked, p);
    var asked := FAILED.(verifyRequested := true);
    assert taken.subtasks == [asked];
    assert VerifyOne(CFG, asked, Judged(Fail)) == Checked(FAILED, true);
    assert [asked][0 := FAILED] == [FAILED];
    assert Verifiable(taken.agents, asked, false);
    assert HostVerification(CFG, taken, p) == Verification([FAILED], [], true, true);
  }

  lemma ThreePolls(cfg: Config, runs: seq<Run>, polls: seq<Poll>, end: Outcome) returns (t: Trace)
    requires |runs| == 4 && |polls| == 3 && Init(runs[0])
    requires forall i :: 0 <= i < 3 ==> Shaped(runs[i]) && Fits(runs[i], polls[i])
    requires forall i :: 0 <= i < 3 ==>
               Advance(cfg, runs[i], polls[i]) == Step(runs[i + 1], if i == 2 then Ended(end) else Running(true))
    ensures t.runs == runs && t.polls == polls && t.statuses == [Running(true), Running(true), Ended(end)]
    ensures IsRun(cfg, t)
  {
    t := Trace(runs, polls, [Running(true), Running(true), Ended(end)]);
    hide Advance, Fits;
    forall i: nat | i < 3 ensures StepOk(cfg, t, i) {
      assert Step(runs[i + 1], t.statuses[i]) == Advance(cfg, runs[i], polls[i]);
    }
  }

  lemma StartedIsInit()
    ensures Init(STARTED) && ConfigOk(CFG)
  {
  }

  function Polls(): seq<Poll> {
    [LatePoll(0.0, {}, []), LatePoll(0.5, {1}, [REPORT]), LatePoll(1.0, {1}, [REPORT])]
  }

  function Runs(): seq<Run> { [STARTED, WORKING, FAILING, LATE] }

  lemma EachPoll(i: nat)
    requires i < 3
    ensures Shaped(Runs()[i]) && Fits(Runs()[i], Polls()[i])
    ensures Advance(CFG, Runs()[i], Polls()[i])
         == Step(Runs()[i + 1], if i == 2 then Ended(Failed(Exception)) else Running(true))
  {
    hide Advance, Shaped, Fits;
    if i == 0 {
      FirstPoll();
    } else if i == 1 {
      SecondPoll();
    } else {
      ThirdPoll();
    }
  }

  lemma RunsAndPolls()
    ensures |Runs()| == 4 && |Polls()| == 3 && Runs()[0] == STARTED
    ensures forall i :: 0 <= i < 3 ==> Polls()[i].checks == [Judged(Fail)]
    ensures |Runs()[2].subtasks| == 1 && Runs()[2].subtasks[0].verdict == Some(Fail)
    ensures Runs()[2].subtasks[0].rounds == CFG.maxRounds && Polls()[2].relayed == [REPORT]
  {
  }

  // Every check of this run fails and none raises, no cap is met and nobody
  // cancels it: the report after the verdict on the last round is what ends it.
  lemma LateReportHappens() returns (t: Trace)
    ensures ConfigOk(CFG) && IsRun(CFG, t) && |t.polls| == 3
    ensures t.statuses == [Running(true), Running(true), Ended(Failed(Exception))]
    ensures forall i :: 0 <= i < 3 ==> t.polls[i].checks == [Judged(Fail)]
    ensures |t.runs| == 4 && |t.runs[2].subtasks| == 1 && t.runs[2].subtasks[0].verdict == Some(Fail)
    ensures t.runs[2].subtasks[0].rounds == CFG.maxRounds && t.polls[2].relayed == [REPORT]
  {
    hide Advance, Shaped, Fits, IsRun, Init, Runs, Polls;
    RunsAndPolls();
    StartedIsInit();
    forall i | 0 <= i < 3
      ensures Shaped(Runs()[i]) && Fits(Runs()[i], Polls()[i])
      ensures Advance(CFG, Runs()[i], Polls()[i])
           == Step(Runs()[i + 1], if i == 2 then Ended(Failed(Exception)) else Running(true))
    {
      EachPoll(i);
    }
    t := ThreePolls(CFG, Runs(), Polls(), Failed(Exception));
  }
}
