/** What one poll may change: caps, the material gate, and verdicts. */
module RunSafety {
  import opened Results
  import opened Verdicts
  import opened RunState

  ghost predicate ConfigOk(cfg: Config) {
    && 1 <= cfg.maxConcurrent <= 8 && 1 <= cfg.maxTurns <= 30 && 1 <= cfg.maxRounds <= 5
    && 0.0 < cfg.maxWall <= 7200.0 && 0.0 < cfg.maxHold <= 86400.0
  }

  ghost predicate SubtaskOk(cfg: Config, sub: Subtask) {
    && 1 <= sub.rounds <= cfg.maxRounds
    && (sub.settled <==> sub.verdict.Some?)
    && (sub.verdict == Some(Fail) || sub.verdict == Some(Inconclusive) ==> sub.rounds == cfg.maxRounds)
  }

  // The caps that hold at every moment.
  ghost predicate WithinLimits(cfg: Config, run: Run) {
    && Shaped(run)
    && Busy(run.agents) <= cfg.maxConcurrent
    && (forall i :: 0 <= i < |run.agents| ==> run.agents[i].turns <= cfg.maxTurns)
    && (forall k :: 0 <= k < |run.subtasks| ==> 1 <= run.subtasks[k].rounds <= cfg.maxRounds)
  }

  ghost predicate Inv(cfg: Config, run: Run) {
    WithinLimits(cfg, run) && forall k :: 0 <= k < |run.subtasks| ==> SubtaskOk(cfg, run.subtasks[k])
  }

  // -- counting turns in flight ------------------------------------------------

  function Weight(a: Agent): nat { if a.inFlight then 1 else 0 }

  lemma {:induction false} BusyUpdate(agents: seq<Agent>, i: nat, b: Agent)
    requires i < |agents|
    ensures Busy(agents[i := b]) == Busy(agents) - Weight(agents[i]) + Weight(b)
  {
    var n := |agents| - 1;
    if i < n {
      BusyUpdate(agents[..n], i, b);
      assert agents[i := b][..n] == agents[..n][i := b];
    } else {
      assert agents[i := b][..n] == agents[..n];
    }
  }

  lemma {:induction false} BusyAtMost(a: seq<Agent>, b: seq<Agent>)
    requires |a| == |b| && forall i :: 0 <= i < |a| ==> (b[i].inFlight ==> a[i].inFlight)
    ensures Busy(b) <= Busy(a)
  {
    if a != [] {
      BusyAtMost(a[..|a| - 1], b[..|b| - 1]);
    }
  }

  // -- phases --------------------------------------------------------------------

  // `next` differs from `run` in requests and mail only.
  ghost predicate OnlyAsks(run: Run, next: Run) {
    && next == run.(pending := next.pending, subtasks := next.subtasks, leadReported := next.leadReported)
    && |next.subtasks| == |run.subtasks|
    && forall k :: 0 <= k < |run.subtasks| ==>
         next.subtasks[k] == run.subtasks[k].(verifyRequested := next.subtasks[k].verifyRequested)
  }

  lemma OnlyAsksOne(run: Run, r: Relayed)
    requires Shaped(run) && r.agent < |run.agents|
    ensures OnlyAsks(run, RelayOne(run, r))
  {
  }

  lemma {:induction false} RelayFrame(run: Run, rs: seq<Relayed>)
    requires Shaped(run) && forall r :: r in rs ==> r.agent < |run.agents|
    ensures OnlyAsks(run, Relay(run, rs))
    decreases rs
  {
    if rs != [] {
      assert forall r :: r in rs[1..] ==> r in rs;
      OnlyAsksOne(run, rs[0]);
      RelayFrame(RelayOne(run, rs[0]), rs[1..]);
    }
  }

  // Intake ends turns, and asks for verifications; it starts nothing.
  lemma IntakeFrame(run: Run, p: Poll)
    requires Shaped(run) && Fits(run, p)
    ensures var r := Intake(run, p);
            && Shaped(r)
            && r == run.(agents := r.agents, pending := r.pending, subtasks := r.subtasks,
                         leadReported := r.leadReported, delivered := r.delivered)
            && r.agents == FinishTurns(run.agents, p.finished)
            && forall k :: 0 <= k < |run.subtasks| ==>
                 r.subtasks[k] == run.subtasks[k].(verifyRequested := r.subtasks[k].verifyRequested)
  {
    var finished := run.(agents := FinishTurns(run.agents, p.finished));
    IntakeShaped(run, p);
    RelayFrame(finished, p.relayed);
    AnnounceKeeps(Relay(finished, p.relayed), p.resolved);
  }

  ghost predicate CanVerify(agents: seq<Agent>, subtasks: seq<Subtask>, gate: seq<MaterialRequest>, j: nat)
    requires WorkersExist(agents, subtasks) && j < |subtasks|
  {
    Verifiable(agents, subtasks[j], SubtaskBlocked(gate, j))
  }

  // The fate of subtask `j` in the verification phase.
  lemma {:induction false} VerifyAt(cfg: Config, agents: seq<Agent>, lead: nat, p: Poll, k: nat, v: Verification,
                                    j: nat)
    requires WorkersExist(agents, v.subtasks) && k <= |v.subtasks| == |p.checks| && j < |v.subtasks| && !v.raised
    ensures var r := Verify(cfg, agents, lead, p, k, v);
            var next := VerifyOne(cfg, v.subtasks[j], p.checks[j]);
            if k <= j && CanVerify(agents, v.subtasks, p.gate, j)
            then && r.hostWorked && (next.raised ==> r.raised)
                 && ((r.raised && r.subtasks[j] == v.subtasks[j]) || r.subtasks[j] == next.sub)
            else r.subtasks[j] == v.subtasks[j]
    ensures v.hostWorked ==> Verify(cfg, agents, lead, p, k, v).hostWorked
    decreases |v.subtasks| - k
  {
    hide SubtaskBlocked;
    if k < |v.subtasks| {
      var sub := v.subtasks[k];
      if !CanVerify(agents, v.subtasks, p.gate, k) {
        VerifyAt(cfg, agents, lead, p, k + 1, v, j);
      } else if !VerifyOne(cfg, sub, p.checks[k]).raised {
        VerifyAt(cfg, agents, lead, p, k + 1,
                 v.(subtasks := v.subtasks[k := VerifyOne(cfg, sub, p.checks[k]).sub],
                    mail := v.mail + [sub.worker, lead], hostWorked := true), j);
      }
    }
  }

  // A failed verification phase, or one in which the host worked, has a cause.
  lemma {:induction false} VerifyCause(cfg: Config, agents: seq<Agent>, lead: nat, p: Poll, k: nat, v: Verification)
    requires WorkersExist(agents, v.subtasks) && k <= |v.subtasks| == |p.checks| && !v.raised
    ensures Verify(cfg, agents, lead, p, k, v).raised ==>
              exists j :: k <= j < |v.subtasks| && CanVerify(agents, v.subtasks, p.gate, j)
                          && VerifyOne(cfg, v.subtasks[j], p.checks[j]).raised
    ensures Verify(cfg, agents, lead, p, k, v).hostWorked && !v.hostWorked ==>
              exists j :: k <= j < |v.subtasks| && CanVerify(agents, v.subtasks, p.gate, j)
    decreases |v.subtasks| - k
  {
    if k < |v.subtasks| {
      var sub := v.subtasks[k];
      if !CanVerify(agents, v.subtasks, p.gate, k) {
        VerifyCause(cfg, agents, lead, p, k + 1, v);
      } else if !VerifyOne(cfg, sub, p.checks[k]).raised {
        VerifyCause(cfg, agents, lead, p, k + 1,
                    v.(subtasks := v.subtasks[k := VerifyOne(cfg, sub, p.checks[k]).sub],
                       mail := v.mail + [sub.worker, lead], hostWorked := true));
      }
    }
  }

  // The turn that the wake phase starts for agent `i`, if any.
  ghost predicate MayStart(cfg: Config, run: Run, p: Poll, i: nat)
    requires i < |run.agents| == |p.mail|
  {
    var a := run.agents[i];
    a.wake && !a.inFlight && !AgentBlocked(run, p.gate, i) && p.mail[i] == HasMail && a.turns < cfg.maxTurns
  }

  ghost predicate Wakened(cfg: Config, run: Run, p: Poll, i: nat, b: Agent)
    requires i < |run.agents| == |p.mail|
  {
    var a := run.agents[i];
    || b == a.(wake := b.wake)
    || (MayStart(cfg, run, p, i) && b == a.(wake := false, turns := a.turns + 1, inFlight := true))
  }

  // Another agent's wake-up is judged the same after this one's.
  lemma WakenedElsewhere(cfg: Config, run: Run, p: Poll, i: nat, a: Agent, j: nat, b: Agent)
    requires i < |run.agents| == |p.mail| && j < |run.agents| && i != j
    requires Wakened(cfg, run.(agents := run.agents[i := a]), p, j, b)
    ensures Wakened(cfg, run, p, j, b)
  {
    var next := run.(agents := run.agents[i := a]);
    assert next.agents[j] == run.agents[j];
    assert AgentBlocked(next, p.gate, j) == AgentBlocked(run, p.gate, j);
  }

  lemma WakeOneIsWakened(cfg: Config, run: Run, p: Poll, i: nat)
    requires i < |run.agents| == |p.mail|
    requires run.agents[i].wake && !run.agents[i].inFlight && !AgentBlocked(run, p.gate, i)
    ensures var b := WakeOne(cfg, run.agents[i], p.mail[i]);
            Wakened(cfg, run, p, i, b)
  {
  }

  // What waking the agents from `i` on, `busy` turns being in flight, leads to.
  ghost predicate WokenFrom(cfg: Config, run: Run, p: Poll, i: nat, busy: nat, r: Run)
    requires |p.mail| == |run.agents| && i <= |run.agents|
  {
    && |r.agents| == |run.agents| && r == run.(agents := r.agents)
    && (forall j :: 0 <= j < i ==> r.agents[j] == run.agents[j])
    && (forall j :: i <= j < |run.agents| ==> Wakened(cfg, run, p, j, r.agents[j]))
    && (busy <= cfg.maxConcurrent ==> Busy(r.agents) <= cfg.maxConcurrent)
  }

  lemma WokenOneMore(cfg: Config, run: Run, p: Poll, i: nat, busy: nat, b: Agent, busier: nat, r: Run)
    requires |p.mail| == |run.agents| && i < |run.agents| && Wakened(cfg, run, p, i, b)
    requires WokenFrom(cfg, run.(agents := run.agents[i := b]), p, i + 1, busier, r)
    requires busy <= cfg.maxConcurrent ==> busier <= cfg.maxConcurrent
    ensures WokenFrom(cfg, run, p, i, busy, r)
  {
    hide MayStart;
    var next := run.(agents := run.agents[i := b]);
    assert r.agents[i] == b;
    forall j | 0 <= j < i ensures r.agents[j] == run.agents[j] {
      assert r.agents[j] == next.agents[j];
    }
    forall j | i < j < |run.agents| ensures Wakened(cfg, run, p, j, r.agents[j]) {
      WakenedElsewhere(cfg, run, p, i, b, j, r.agents[j]);
    }
  }

  // Agent `i` is passed over, or nobody is looked at any more.
  lemma WokenSkips(cfg: Config, run: Run, p: Poll, i: nat, busy: nat, r: Run)
    requires |p.mail| == |run.agents| && i < |run.agents| && WokenFrom(cfg, run, p, i + 1, busy, r)
    ensures WokenFrom(cfg, run, p, i, busy, r)
  {
    hide MayStart;
    assert r.agents[i] == run.agents[i];
  }

  lemma WokenStops(cfg: Config, run: Run, p: Poll, i: nat, busy: nat)
    requires |p.mail| == |run.agents| && i <= |run.agents| && busy == Busy(run.agents)
    ensures WokenFrom(cfg, run, p, i, busy, run)
  {
  }

  lemma {:induction false} WakeFrame(cfg: Config, run: Run, p: Poll, i: nat, busy: nat)
    requires |p.mail| == |run.agents| && i <= |run.agents| && busy == Busy(run.agents)
    ensures WokenFrom(cfg, run, p, i, busy, Wake(cfg, run, p, i, busy))
    decreases |run.agents| - i
  {
    hide AgentBlocked, WakeOne, WokenFrom, Wakened;
    if i == |run.agents| || busy >= cfg.maxConcurrent {
      WokenStops(cfg, run, p, i, busy);
    } else {
      var a := run.agents[i];
      if !a.wake || a.inFlight || AgentBlocked(run, p.gate, i) {
        WakeFrame(cfg, run, p, i + 1, busy);
        WokenSkips(cfg, run, p, i, busy, Wake(cfg, run, p, i + 1, busy));
      } else {
        var b := WakeOne(cfg, a, p.mail[i]);
        var next, busier := run.(agents := run.agents[i := b]), if b.inFlight then busy + 1 else busy;
        BusyUpdate(run.agents, i, b);
        WakeFrame(cfg, next, p, i + 1, busier);
        WakeOneIsWakened(cfg, run, p, i);
        WokenOneMore(cfg, run, p, i, busy, b, busier, Wake(cfg, next, p, i + 1, busier));
      }
    }
  }

  lemma OutflowFrame(cfg: Config, run: Run, p: Poll)
    requires |p.mail| == |run.agents|
    ensures var r := Outflow(cfg, run, p);
            && |r.agents| == |run.agents|
            && r == run.(agents := r.agents, pending := r.pending, allPassNotified := r.allPassNotified)
            && (forall i :: 0 <= i < |run.agents| ==>
                  || r.agents[i] == run.agents[i].(wake := r.agents[i].wake)
                  || (&& !run.agents[i].inFlight && !AgentBlocked(run, p.gate, i) && p.mail[i] == HasMail
                      && run.agents[i].turns < cfg.maxTurns
                      && r.agents[i]
                         == run.agents[i].(wake := false, turns := run.agents[i].turns + 1, inFlight := true)))
            && (Busy(run.agents) <= cfg.maxConcurrent ==> Busy(r.agents) <= cfg.maxConcurrent)
  {
    hide AgentBlocked;
    var notified := NotifyAllPass(run);
    DeliverKeeps(notified, p.undeliverable, 0, []);
    var delivered := Deliver(notified, p.undeliverable, 0, []);
    BusyAtMost(run.agents, delivered.agents);
    WakeFrame(cfg, delivered, p, 0, Busy(delivered.agents));
    var r := Outflow(cfg, run, p);
    forall i | 0 <= i < |run.agents|
      ensures || r.agents[i] == run.agents[i].(wake := r.agents[i].wake)
              || (&& !run.agents[i].inFlight && !AgentBlocked(run, p.gate, i) && p.mail[i] == HasMail
                  && run.agents[i].turns < cfg.maxTurns
                  && r.agents[i] == run.agents[i].(wake := false, turns := run.agents[i].turns + 1, inFlight := true))
    {
      assert Wakened(cfg, delivered, p, i, r.agents[i]);
      SameBlocks(delivered, run, p.gate, i);
    }
  }

  lemma DecideFrame(cfg: Config, run: Run, p: Poll, worked: bool)
    ensures var r := Decide(cfg, run, p, worked).run;
            && r == run.(heldPrev := r.heldPrev, idleSince := r.idleSince, stallVerified := r.stallVerified,
                         subtasks := r.subtasks)
            && |r.subtasks| == |run.subtasks|
            && forall k :: 0 <= k < |run.subtasks| ==>
                 r.subtasks[k] == run.subtasks[k].(verifyRequested := r.subtasks[k].verifyRequested)
  {
    hide AllPass, Active, ExhaustedRun, Unverified, AnyInFlight;
  }

  // -- one poll, seen from one subtask and from one agent ---------------------------

  ghost predicate Idle(run: Run, p: Poll, a: nat)
    requires a < |run.agents|
  {
    !run.agents[a].inFlight || a in p.finished
  }

  // `after` is `before` but for its request flag.
  ghost predicate SameVerdict(before: Subtask, after: Subtask) {
    after == before.(verifyRequested := after.verifyRequested)
  }

  lemma WorkSubtask(cfg: Config, taken: Run, p: Poll, k: nat)
    requires WorkersExist(taken.agents, taken.subtasks) && |p.checks| == |taken.subtasks| && |p.mail| == |taken.agents|
    requires k < |taken.subtasks|
    ensures |Work(cfg, taken, p).run.subtasks| == |taken.subtasks|
    ensures var before, after := taken.subtasks[k], Work(cfg, taken, p).run.subtasks[k];
            || SameVerdict(before, after)
            || (&& CanVerify(taken.agents, taken.subtasks, p.gate, k)
                && SameVerdict(VerifyOne(cfg, before, p.checks[k]).sub, after)
                && (VerifyOne(cfg, before, p.checks[k]).raised ==>
                      Work(cfg, taken, p).status == Ended(Failed(Exception))))
  {
    VerifyAt(cfg, taken.agents, taken.lead, p, 0, Verification(taken.subtasks, taken.pending, false, false), k);
    var v := HostVerification(cfg, taken, p);
    if !v.raised {
      OutflowFrame(cfg, WithVerification(taken, v), p);
      DecideFrame(cfg, Outflow(cfg, WithVerification(taken, v), p), p, v.hostWorked);
    }
  }

  // The host verified the subtask in this poll, with the verdict it was given.
  ghost predicate Verified(cfg: Config, run: Run, p: Poll, k: nat, after: Subtask)
    requires Shaped(run) && Fits(run, p) && k < |run.subtasks|
  {
    var sub := run.subtasks[k];
    && !SubtaskBlocked(p.gate, k) && Idle(run, p, sub.worker)
    && !sub.settled && sub.verdict != Some(Pass) && p.checks[k].Judged?
    && after.worker == sub.worker
    && if p.checks[k].verdict != Pass && sub.rounds < cfg.maxRounds
       then after.rounds == sub.rounds + 1 && after.verdict == None && !after.settled
       else after.rounds == sub.rounds && after.verdict == Some(p.checks[k].verdict) && after.settled
  }

  // The verification of the subtask raised in this poll, and this is what is
  // left of it.
  ghost predicate BrokenOff(cfg: Config, run: Run, p: Poll, k: nat, after: Subtask)
    requires Shaped(run) && Fits(run, p) && k < |run.subtasks|
  {
    var sub := run.subtasks[k];
    && !SubtaskBlocked(p.gate, k) && Idle(run, p, sub.worker)
    && !sub.settled && sub.verdict != Some(Pass) && p.checks[k].Raises?
    && SameVerdict(LeftBehind(cfg, sub, p.checks[k].left), after)
  }

  lemma IntakeSubtask(run: Run, p: Poll, k: nat)
    requires Shaped(run) && Fits(run, p) && k < |run.subtasks|
    ensures var taken := Intake(Tick(run, p.now), p);
            && SameVerdict(run.subtasks[k], taken.subtasks[k])
            && (CanVerify(taken.agents, taken.subtasks, p.gate, k) ==>
                  && !SubtaskBlocked(p.gate, k) && Idle(run, p, run.subtasks[k].worker)
                  && run.subtasks[k].verdict != Some(Pass))
  {
    var ticked := Tick(run, p.now);
    IntakeFrame(ticked, p);
    var w := run.subtasks[k].worker;
    assert Intake(ticked, p).agents[w] == Finished(run.agents[w], w in p.finished);
  }

  // A poll leaves a subtask's rounds and verdict alone unless the host verified
  // it, or raised doing so and ended the run: not while a material decision blocks it, not during its worker's turn,
  // and never again once it has passed.
  lemma PollSubtask(cfg: Config, run: Run, p: Poll, k: nat)
    requires Inv(cfg, run) && Fits(run, p) && k < |run.subtasks|
    ensures |Advance(cfg, run, p).run.subtasks| == |run.subtasks|
    ensures var before, after := run.subtasks[k], Advance(cfg, run, p).run.subtasks[k];
            || SameVerdict(before, after)
            || Verified(cfg, run, p, k, after)
            || (Advance(cfg, run, p).status == Ended(Failed(Exception)) && BrokenOff(cfg, run, p, k, after))
  {
    if Capped(cfg, Tick(run, p.now), p).None? {
      var taken := Intake(Tick(run, p.now), p);
      IntakeSubtask(run, p, k);
      WorkSubtask(cfg, taken, p, k);
      var after := Advance(cfg, run, p).run.subtasks[k];
      if !SameVerdict(taken.subtasks[k], after) {
        CheckedSubtask(cfg, run, p, k, taken.subtasks[k], after);
      }
    }
  }

  // What the check did to a subtask that was due.
  lemma CheckedSubtask(cfg: Config, run: Run, p: Poll, k: nat, due: Subtask, after: Subtask)
    requires Shaped(run) && Fits(run, p) && k < |run.subtasks| && SubtaskOk(cfg, run.subtasks[k])
    requires !SubtaskBlocked(p.gate, k) && Idle(run, p, run.subtasks[k].worker) && run.subtasks[k].verdict != Some(Pass)
    requires SameVerdict(run.subtasks[k], due) && SameVerdict(VerifyOne(cfg, due, p.checks[k]).sub, after)
    ensures || SameVerdict(run.subtasks[k], after)
            || Verified(cfg, run, p, k, after)
            || (VerifyOne(cfg, due, p.checks[k]).raised && BrokenOff(cfg, run, p, k, after))
  {
  }

  lemma WorkAgent(cfg: Config, taken: Run, p: Poll, i: nat)
    requires WorkersExist(taken.agents, taken.subtasks) && |p.checks| == |taken.subtasks| && |p.mail| == |taken.agents|
    requires i < |taken.agents|
    ensures |Work(cfg, taken, p).run.agents| == |taken.agents|
    ensures var before, after := taken.agents[i], Work(cfg, taken, p).run.agents[i];
            after == before.(wake := after.wake) || Started(cfg, taken, p, i, after)
  {
    var v := HostVerification(cfg, taken, p);
    if !v.raised {
      var verified := WithVerification(taken, v);
      OutflowFrame(cfg, verified, p);
      DecideFrame(cfg, Outflow(cfg, verified, p), p, v.hostWorked);
      SameBlocks(taken, verified, p.gate, i);
    }
  }

  ghost predicate Started(cfg: Config, run: Run, p: Poll, i: nat, after: Agent)
    requires i < |run.agents| == |p.mail|
  {
    var a := run.agents[i];
    && Idle(run, p, i) && !AgentBlocked(run, p.gate, i) && p.mail[i] == HasMail && a.turns < cfg.maxTurns
    && after == a.(wake := false, turns := a.turns + 1, inFlight := true)
  }

  // A poll starts a turn only for an idle, unblocked agent with mail and turns
  // left; otherwise it can only end the agent's turn or set its wake flag.
  lemma PollAgent(cfg: Config, run: Run, p: Poll, i: nat)
    requires Shaped(run) && Fits(run, p) && i < |run.agents|
    ensures |Advance(cfg, run, p).run.agents| == |run.agents|
    ensures var before, after := run.agents[i], Advance(cfg, run, p).run.agents[i];
            || (&& after == before.(wake := after.wake, inFlight := after.inFlight)
                && (after.inFlight ==> before.inFlight))
            || Started(cfg, run, p, i, after)
  {
    hide AgentBlocked, Work, Intake;
    if Capped(cfg, Tick(run, p.now), p).None? {
      TakenAgent(run, p, i);
      WorkAgent(cfg, Intake(Tick(run, p.now), p), p, i);
    }
  }

  lemma TakenAgent(run: Run, p: Poll, i: nat)
    requires Shaped(run) && Fits(run, p) && i < |run.agents|
    ensures Shaped(Tick(run, p.now)) && Fits(Tick(run, p.now), p)
    ensures var taken := Intake(Tick(run, p.now), p);
            && WorkersExist(taken.agents, taken.subtasks)
            && |p.checks| == |taken.subtasks| && |p.mail| == |taken.agents| == |run.agents|
            && taken.agents[i] == Finished(run.agents[i], i in p.finished)
            && AgentBlocked(taken, p.gate, i) == AgentBlocked(run, p.gate, i)
  {
    hide AgentBlocked, Finished;
    var taken := Intake(Tick(run, p.now), p);
    IntakeFrame(Tick(run, p.now), p);
    SameBlocks(run, taken, p.gate, i);
  }

  lemma SameBlocks(a: Run, b: Run, gate: seq<MaterialRequest>, i: nat)
    requires |a.agents| == |b.agents| && i < |a.agents| && |a.subtasks| == |b.subtasks|
    requires forall k :: 0 <= k < |a.subtasks| ==> a.subtasks[k].worker == b.subtasks[k].worker
    ensures AgentBlocked(a, gate, i) == AgentBlocked(b, gate, i)
  {
  }

  lemma WorkSizes(cfg: Config, taken: Run, p: Poll)
    requires WorkersExist(taken.agents, taken.subtasks) && |p.checks| == |taken.subtasks| && |p.mail| == |taken.agents|
    ensures var r := Work(cfg, taken, p).run;
            && |r.agents| == |taken.agents| && |r.subtasks| == |taken.subtasks| && r.lead == taken.lead
            && (Busy(taken.agents) <= cfg.maxConcurrent ==> Busy(r.agents) <= cfg.maxConcurrent)
  {
    var v := HostVerification(cfg, taken, p);
    if !v.raised {
      OutflowFrame(cfg, WithVerification(taken, v), p);
      DecideFrame(cfg, Outflow(cfg, WithVerification(taken, v), p), p, v.hostWorked);
    }
  }

  lemma PollSizes(cfg: Config, run: Run, p: Poll)
    requires Shaped(run) && Fits(run, p)
    ensures var r := Advance(cfg, run, p).run;
            && |r.agents| == |run.agents| && |r.subtasks| == |run.subtasks| && r.lead == run.lead
            && (Busy(run.agents) <= cfg.maxConcurrent ==> Busy(r.agents) <= cfg.maxConcurrent)
  {
    var ticked := Tick(run, p.now);
    if Capped(cfg, ticked, p).None? {
      IntakeFrame(ticked, p);
      var taken := Intake(ticked, p);
      BusyAtMost(run.agents, taken.agents);
      WorkSizes(cfg, taken, p);
    }
  }
}
