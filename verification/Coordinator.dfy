/** The poll loop itself: a coordinator object whose fields the phases update in
    place, each phase proved to do what `RunState` says (sdf_core/coordinator.py). */
module Coordinators {
  import opened Results
  import opened Verdicts
  import opened RunState
  import opened RunSafety
  import opened RunProperties
  import opened RunClock

  class Coordinator {
    const cfg: Config
    const lead: nat
    const started: real
    var agents: seq<Agent>
    var subtasks: seq<Subtask>
    var pending: seq<nat>
    var leadReported: bool
    var allPassNotified: bool
    var delivered: set<nat>
    var lastTick: real
    var held: real
    var heldPrev: bool
    var idleSince: Option<real>
    var stallVerified: set<(nat, nat)>

    ghost function State(): Run
      reads this
    {
      Run(agents, subtasks, lead, pending, leadReported, allPassNotified, delivered,
          started, lastTick, held, heldPrev, idleSince, stallVerified)
    }

    // `bound[k]` is the worker the host bound to subtask `k`; its first Attempt
    // was begun before the loop. The lead's brief and a note to each worker wait
    // to be delivered.
    constructor (cfg: Config, team: seq<Option<nat>>, lead: nat, bound: seq<nat>, started: real, now: real)
      requires lead < |team| && team[lead] == None && started <= now
      requires forall i :: 0 <= i < |team| && team[i].Some? ==> team[i].value < |bound|
      requires forall k :: 0 <= k < |bound| ==> bound[k] < |team| && team[bound[k]] == Some(k)
      ensures Init(State()) && this.cfg == cfg
      ensures |agents| == |team| && |subtasks| == |bound| && pending == [lead] + bound
    {
      this.cfg, this.lead, this.started := cfg, lead, started;
      agents := seq(|team|, i requires 0 <= i < |team| => Agent(team[i], 0, false, false));
      subtasks := seq(|bound|, k requires 0 <= k < |bound| => Subtask(bound[k], 1, None, false, false));
      pending, leadReported, allPassNotified, delivered := [lead] + bound, false, false, {};
      lastTick, held, heldPrev, idleSince, stallVerified := now, 0.0, false, None, {};
    }

    method CollectFinished(finished: set<nat>)
      modifies this`agents
      ensures State() == old(State()).(agents := FinishTurns(old(agents), finished))
    {
      var i := 0;
      while i < |agents|
        invariant 0 <= i <= |agents| == |old(agents)|
        invariant forall j :: 0 <= j < i ==> agents[j] == Finished(old(agents)[j], j in finished)
        invariant forall j :: i <= j < |agents| ==> agents[j] == old(agents)[j]
      {
        if agents[i].inFlight && i in finished {
          agents := agents[i := agents[i].(inFlight := false, wake := true)];
        }
        i := i + 1;
      }
      assert agents == FinishTurns(old(agents), finished);
    }

    method RelayOutboxes(relayed: seq<Relayed>)
      requires Shaped(State()) && forall r :: r in relayed ==> r.agent < |agents|
      modifies this`pending, this`subtasks, this`leadReported
      ensures State() == Relay(old(State()), relayed)
    {
      var i := 0;
      while i < |relayed|
        invariant 0 <= i <= |relayed| && Shaped(State()) && |agents| == |old(agents)|
        invariant forall r :: r in relayed[i..] ==> r in relayed
        invariant Relay(State(), relayed[i..]) == Relay(old(State()), relayed)
      {
        assert relayed[i] in relayed && relayed[i..][0] == relayed[i] && relayed[i..][1..] == relayed[i + 1..];
        RelayEnvelope(relayed[i]);
        i := i + 1;
      }
      assert relayed[i..] == [];
    }

    method RelayEnvelope(r: Relayed)
      requires Shaped(State()) && r.agent < |agents|
      modifies this`pending, this`subtasks, this`leadReported
      ensures State() == RelayOne(old(State()), r)
    {
      match r {
        case Refused(a) =>
          pending := pending + [a];
        case Accepted(a, recipients, report, byRule) =>
          pending := pending + recipients;
          if agents[a].subtask.Some? && (report == Some(Done) || report == Some(GaveUp)) {
            var k := agents[a].subtask.value;
            subtasks := subtasks[k := subtasks[k].(verifyRequested := true)];
          }
          if agents[a].IsLead() && report == Some(Done) {
            leadReported := true;
          }
          if byRule {
            pending := pending + [a];
          }
      }
    }

    method AnnounceDecisions(resolved: seq<Resolution>)
      modifies this`pending, this`delivered
      ensures State() == Announce(old(State()), resolved)
    {
      var i := 0;
      while i < |resolved|
        invariant 0 <= i <= |resolved|
        invariant Announce(State(), resolved[i..]) == Announce(old(State()), resolved)
      {
        var d := resolved[i];
        assert resolved[i..][0] == d && resolved[i..][1..] == resolved[i + 1..];
        ghost var next := AnnounceOne(State(), d);
        if d.request !in delivered && d.requestedBy < |agents| {
          delivered := delivered + {d.request};
          pending := pending + [d.requestedBy];
        }
        assert State() == next;
        i := i + 1;
      }
      assert resolved[i..] == [];
    }

    // `raised` is the exception that leaves the loop.
    method VerifyReady(p: Poll) returns (hostWorked: bool, raised: bool)
      requires WorkersExist(agents, subtasks) && |p.checks| == |subtasks|
      modifies this`subtasks, this`pending
      ensures var v := HostVerification(cfg, old(State()), p);
              State() == WithVerification(old(State()), v) && hostWorked == v.hostWorked && raised == v.raised
    {
      hide SubtaskBlocked, Verifiable, VerifyOne;
      hostWorked, raised := false, false;
      var k := 0;
      while k < |subtasks|
        invariant 0 <= k <= |subtasks| == |p.checks| && !raised
        invariant WorkersExist(agents, subtasks)
        invariant Verify(cfg, agents, lead, p, k, Verification(subtasks, pending, hostWorked, false))
                  == HostVerification(cfg, old(State()), p)
      {
        if Verifiable(agents, subtasks[k], SubtaskBlocked(p.gate, k)) {
          VerifyOneKeepsWorker(cfg, subtasks[k], p.checks[k]);
          hostWorked := true;
          raised := CheckSubtask(p.checks[k], k);
          if raised { return; }
        }
        k := k + 1;
      }
    }

    // Host verification of one subtask and, while rounds are left, its retry.
    method CheckSubtask(check: CheckOutcome, k: nat) returns (raised: bool)
      requires k < |subtasks|
      modifies this`subtasks, this`pending
      ensures var before, checked := old(subtasks)[k], VerifyOne(cfg, old(subtasks)[k], check);
              && subtasks == old(subtasks)[k := checked.sub] && raised == checked.raised
              && pending == if raised then old(pending) else old(pending) + [before.worker, lead]
    {
      var sub := subtasks[k].(verifyRequested := false);
      if sub.settled {
        subtasks := subtasks[k := sub];
        return true;
      }
      if check.Raises? {
        subtasks := subtasks[k := LeftBehind(cfg, sub, check.left)];
        return true;
      }
      if check.verdict != Pass && sub.rounds < cfg.maxRounds {
        sub := sub.(rounds := sub.rounds + 1, verdict := None);
      } else {
        sub := sub.(verdict := Some(check.verdict), settled := true);
      }
      subtasks := subtasks[k := sub];
      pending := pending + [sub.worker, lead];
      return false;
    }

    method NotifyLead()
      modifies this`allPassNotified, this`pending
      ensures State() == NotifyAllPass(old(State()))
    {
      if AllPass(subtasks) && !allPassNotified {
        allPassNotified := true;
        pending := pending + [lead];
      }
    }

    method DeliverMail(undeliverable: set<nat>)
      modifies this`agents, this`pending
      ensures State() == Deliver(old(State()), undeliverable, 0, [])
      ensures |agents| == |old(agents)|
    {
      var still: seq<nat> := [];
      var i := 0;
      while i < |pending|
        invariant 0 <= i <= |pending| && pending == old(pending) && |agents| == |old(agents)|
        invariant Deliver(State(), undeliverable, i, still) == Deliver(old(State()), undeliverable, 0, [])
      {
        if i in undeliverable {
          still := still + [pending[i]];
        } else {
          agents := Woken(agents, pending[i]);
        }
        i := i + 1;
      }
      pending := still;
    }

    method CountBusy() returns (busy: nat)
      ensures busy == Busy(agents)
    {
      busy := 0;
      var i := 0;
      while i < |agents|
        invariant 0 <= i <= |agents| && busy == Busy(agents[..i])
      {
        assert agents[..i + 1][..i] == agents[..i];
        if agents[i].inFlight {
          busy := busy + 1;
        }
        i := i + 1;
      }
      assert agents[..|agents|] == agents;
    }

    method WakeIdle(p: Poll)
      requires |p.mail| == |agents|
      modifies this`agents
      ensures State() == Wake(cfg, old(State()), p, 0, Busy(old(agents)))
    {
      hide AgentBlocked, Busy;
      var busy: nat := CountBusy();
      var i := 0;
      while i < |agents| && busy < cfg.maxConcurrent
        invariant 0 <= i <= |agents| == |p.mail|
        invariant Wake(cfg, State(), p, i, busy) == Wake(cfg, old(State()), p, 0, Busy(old(agents)))
      {
        var a := agents[i];
        var blocked := IsBlocked(p.gate, i);
        if a.wake && !a.inFlight && !blocked {
          ghost var next := agents[i := WakeOne(cfg, a, p.mail[i])];
          agents := agents[i := a.(wake := false)];
          match p.mail[i] {
            case Unreadable =>
              agents := agents[i := agents[i].(wake := true)];
            case NoMail =>
            case HasMail =>
              if a.turns < cfg.maxTurns {
                agents := agents[i := agents[i].(turns := a.turns + 1, inFlight := true)];
                busy := busy + 1;
              }
          }
          assert agents == next;
        }
        i := i + 1;
      }
    }

    method IsBlocked(gate: seq<MaterialRequest>, a: nat) returns (blocked: bool)
      requires a < |agents|
      ensures blocked == AgentBlocked(State(), gate, a)
    {
      blocked := AgentBlocked(Run(agents, subtasks, lead, pending, leadReported, allPassNotified, delivered,
                                  started, lastTick, held, heldPrev, idleSince, stallVerified), gate, a);
    }

    method Conclude(p: Poll, hostWorked: bool) returns (status: Status)
      modifies this`heldPrev, this`idleSince, this`stallVerified, this`subtasks
      ensures Step(State(), status) == Decide(cfg, old(State()), p, hostWorked)
    {
      hide DecideOn, AnyInFlight;
      heldPrev := p.gate != [] && !hostWorked && !AnyInFlight(agents);
      status := Finish(p);
    }

    // The loop's last phase: done, exhausted, waiting, or idle.
    method Finish(p: Poll) returns (status: Status)
      modifies this`idleSince, this`stallVerified, this`subtasks
      ensures Step(State(), status) == DecideOn(cfg, old(State()), p)
    {
      hide AllPass, ExhaustedRun, Sleep, Active, IdleStep;
      var active := IsActive();
      if AllPass(subtasks) && (leadReported || !active) && p.gate == [] {
        status := Ended(Succeeded);
      } else if ExhaustedRun(cfg, subtasks) && !active {
        status := Ended(Failed(ChecksExhausted));
      } else if active || p.waitingHuman {
        idleSince := None;
        status := AfterSleep();
      } else {
        status := Idle(p);
      }
    }

    // Nobody has anything to do: sleep on, look at unverified Attempts once, or
    // give up.
    method Idle(p: Poll) returns (status: Status)
      modifies this`idleSince, this`stallVerified, this`subtasks
      ensures Step(State(), status) == IdleStep(cfg, old(State()), p)
    {
      var since := if idleSince.Some? && idleSince.value != 0.0 then idleSince.value else p.idleStart;
      if p.idleCheck - since <= cfg.stall {
        idleSince := Some(since);
        status := AfterSleep();
      } else {
        var unverified := MarkUnverified();
        status := if unverified then Running(false) else Ended(Failed(Stalled));
      }
    }

    method IsActive() returns (active: bool)
      ensures active == Active(State())
    {
      active := AnyInFlight(agents) || pending != [] || (exists i :: 0 <= i < |agents| && agents[i].wake)
                || (exists k :: 0 <= k < |subtasks| && subtasks[k].verifyRequested);
    }

    method AfterSleep() returns (status: Status)
      ensures Step(State(), status) == Sleep(cfg, State())
    {
      status := if cfg.pollInterval < 0.0 then Ended(Failed(Exception)) else Running(true);
    }

    // Requests verification of every Attempt the host has not looked at yet.
    method MarkUnverified() returns (any: bool)
      modifies this`idleSince, this`stallVerified, this`subtasks
      ensures any == (Unverified(old(subtasks), old(stallVerified)) != {})
      ensures State() == if any then RequestVerification(old(State())) else old(State())
    {
      var due := Unverified(subtasks, stallVerified);
      any := due != {};
      if any {
        stallVerified := stallVerified + due;
        idleSince := None;
        var k := 0;
        while k < |subtasks|
          invariant 0 <= k <= |subtasks| == |old(subtasks)|
          invariant stallVerified == old(stallVerified) + due && idleSince == None
          invariant forall j :: 0 <= j < k ==> subtasks[j] == Requested(old(subtasks), due)[j]
          invariant forall j :: k <= j < |subtasks| ==> subtasks[j] == old(subtasks)[j]
        {
          if (k, subtasks[k].rounds) in due {
            subtasks := subtasks[k := subtasks[k].(verifyRequested := true)];
          }
          k := k + 1;
        }
        assert subtasks == Requested(old(subtasks), due);
      }
    }

    // One turn of the loop.
    method PollOnce(p: Poll) returns (status: Status)
      requires Shaped(State()) && Fits(State(), p)
      modifies this
      ensures Step(State(), status) == Advance(cfg, old(State()), p)
    {
      hide Advance, Work, Opening, Closing, Shaped, Fits, WorkersExist;
      AdvanceIs(cfg, State(), p);
      var stopped := StartPoll(p);
      if stopped.Some? { return Ended(stopped.value); }
      WorkIs(cfg, State(), p);
      var hostWorked, raised := VerifyReady(p);
      status := FinishPoll(p, hostWorked, raised);
    }

    // The clock, the caps and what came in. `stopped` is the end of the run.
    method StartPoll(p: Poll) returns (stopped: Option<Outcome>)
      requires Shaped(State()) && Fits(State(), p)
      modifies this
      ensures (State(), stopped) == Opening(cfg, old(State()), p)
      ensures stopped.None? ==> WorkersExist(agents, subtasks) && |p.checks| == |subtasks| && |p.mail| == |agents|
    {
      hide Shaped, Fits, Intake, WorkersExist;
      TickShaped(State(), p);
      var dt := p.now - lastTick;
      lastTick := p.now;
      if heldPrev {
        held := held + dt;
      }
      assert State() == Tick(old(State()), p.now);
      var elapsed := p.now - started - held;
      if p.cancel { return Some(Cancelled); }
      if elapsed > cfg.maxWall { return Some(Failed(WallCap)); }
      if held > cfg.maxHold { return Some(Failed(HoldCap)); }
      if p.overCost { return Some(Failed(CostCap)); }
      IntakeFits(State(), p);
      TakeIn(p);
      if p.gate != [] && p.sandboxExpiring { return Some(Failed(SandboxExpiry)); }
      return None;
    }

    method TakeIn(p: Poll)
      requires Shaped(State()) && Fits(State(), p)
      modifies this
      ensures State() == Intake(old(State()), p)
    {
      CollectFinished(p.finished);
      RelayOutboxes(p.relayed);
      AnnounceDecisions(p.resolved);
    }

    // Everything after host verification.
    method FinishPoll(p: Poll, hostWorked: bool, raised: bool) returns (status: Status)
      requires |p.mail| == |agents|
      modifies this
      ensures Step(State(), status) == Closing(cfg, old(State()), p, hostWorked, raised)
    {
      hide Decide;
      if raised { return Ended(Failed(Exception)); }
      NotifyLead();
      DeliverMail(p.undeliverable);
      WakeIdle(p);
      status := Conclude(p, hostWorked);
    }

    // One turn of the loop, with the run so far on record.
    method RecordPoll(p: Poll, ghost t: Trace) returns (status: Status, ghost longer: Trace)
      requires ConfigOk(cfg) && IsRun(cfg, t) && ClockOk(cfg, t) && t.runs[|t.polls|] == State()
      requires t.polls != [] ==> t.statuses[|t.polls| - 1].Running?
      requires Shaped(State()) && Fits(State(), p) && NextTime(cfg, t) <= p.now
      modifies this
      ensures IsRun(cfg, longer) && ClockOk(cfg, longer) && longer.runs[0] == t.runs[0]
      ensures |longer.polls| == |t.polls| + 1 && longer.polls[|t.polls|] == p && longer.statuses[|t.polls|] == status
      ensures longer.runs[|longer.polls|] == State() && Shaped(State())
      ensures |agents| == |old(agents)| && |subtasks| == |old(subtasks)|
      ensures status == Ended(Succeeded) ==> AllPass(subtasks)
    {
      OnePollMore(cfg, t, p);
      longer := Extended(cfg, t, p);
      status := PollOnce(p);
    }

    // The `while True` loop. The world contributes `env(n)` to poll `n`, made
    // `delay(n)` after the previous poll (and its sleep) ended.
    method Execute(env: nat -> Poll, delay: nat -> real, ghost limit: nat) returns (outcome: Outcome, ghost t: Trace)
      requires ConfigOk(cfg) && (cfg.pollInterval < 0.0 || (cfg.pollInterval > 0.0 && Outlasts(cfg, limit)))
      requires Init(State())
      requires forall n :: 0.0 <= delay(n) && Fits(State(), env(n))
      modifies this
      ensures IsRun(cfg, t) && ClockOk(cfg, t) && t.polls != []
      ensures t.runs[0] == old(State()) && t.runs[|t.polls|] == State()
      ensures t.statuses[|t.polls| - 1] == Ended(outcome)
      ensures outcome == Succeeded ==> AllPass(subtasks)
    {
      t := Trace([State()], [], []);
      ghost var bound := |subtasks| * cfg.maxRounds + limit + 2;
      var clock := lastTick;
      var n := 0;
      while true
        invariant IsRun(cfg, t) && ClockOk(cfg, t) && |t.polls| == n
        invariant t.runs[0] == old(State()) && t.runs[n] == State()
        invariant Shaped(State()) && |agents| == |old(agents)| && |subtasks| == |old(subtasks)|
        invariant n > 0 ==> t.statuses[n - 1].Running?
        invariant clock == NextTime(cfg, t)
        invariant n <= bound == |t.runs[0].subtasks| * cfg.maxRounds + limit + 2
        decreases bound - n
      {
        var p := env(n).(now := clock + delay(n));
        assert Fits(old(State()), env(n)) && 0.0 <= delay(n);
        var status;
        status, t := RecordPoll(p, t);
        if status.Ended? {
          return status.outcome, t;
        }
        clock := p.now + (if status.slept then cfg.pollInterval else 0.0);
        RunsEnd(cfg, t, limit);
        n := n + 1;
      }
    }

    // The same loop under any configuration, watched for at most `most` polls.
    method ExecuteFor(env: nat -> Poll, delay: nat -> real, most: nat)
      returns (outcome: Option<Outcome>, ghost t: Trace)
      requires ConfigOk(cfg) && Init(State())
      requires forall n :: 0.0 <= delay(n) && Fits(State(), env(n))
      modifies this
      ensures IsRun(cfg, t) && ClockOk(cfg, t)
      ensures t.runs[0] == old(State()) && t.runs[|t.polls|] == State()
      ensures if outcome.Some? then t.polls != [] && t.statuses[|t.polls| - 1] == Ended(outcome.value)
              else |t.polls| == most
      ensures outcome == Some(Succeeded) ==> AllPass(subtasks)
    {
      t := Trace([State()], [], []);
      var clock := lastTick;
      for n := 0 to most
        invariant IsRun(cfg, t) && ClockOk(cfg, t) && |t.polls| == n
        invariant t.runs[0] == old(State()) && t.runs[n] == State()
        invariant Shaped(State()) && |agents| == |old(agents)| && |subtasks| == |old(subtasks)|
        invariant n > 0 ==> t.statuses[n - 1].Running?
        invariant clock == NextTime(cfg, t)
      {
        var p := env(n).(now := clock + delay(n));
        assert Fits(old(State()), env(n)) && 0.0 <= delay(n);
        var status;
        status, t := RecordPoll(p, t);
        if status.Ended? {
          return Some(status.outcome), t;
        }
        clock := p.now + (if status.slept then cfg.pollInterval else 0.0);
      }
      outcome := None;
    }
  }

  lemma VerifyOneKeepsWorker(cfg: Config, sub: Subtask, check: CheckOutcome)
    ensures VerifyOne(cfg, sub, check).sub.worker == sub.worker
  {
  }

  // A poll up to host verification, and the outcome if it ends there.
  function Opening(cfg: Config, before: Run, p: Poll): (Run, Option<Outcome>)
    requires Shaped(before) && Fits(before, p)
  {
    var run := Tick(before, p.now);
    var cap := Capped(cfg, run, p);
    if cap.Some? then (run, cap)
    else (Intake(run, p), if p.gate != [] && p.sandboxExpiring then Some(Failed(SandboxExpiry)) else None)
  }

  // A poll from the end of host verification on.
  function Closing(cfg: Config, run: Run, p: Poll, hostWorked: bool, raised: bool): Step
    requires |p.mail| == |run.agents|
  {
    if raised then Step(run, Ended(Failed(Exception))) else Decide(cfg, Outflow(cfg, run, p), p, hostWorked)
  }

  lemma AdvanceIs(cfg: Config, before: Run, p: Poll)
    requires Shaped(before) && Fits(before, p)
    ensures var (run, stopped) := Opening(cfg, before, p);
            if stopped.Some? then Advance(cfg, before, p) == Step(run, Ended(stopped.value))
            else && WorkersExist(run.agents, run.subtasks) && |p.checks| == |run.subtasks| && |p.mail| == |run.agents|
                 && Advance(cfg, before, p) == Work(cfg, run, p)
  {
  }

  lemma WorkIs(cfg: Config, taken: Run, p: Poll)
    requires WorkersExist(taken.agents, taken.subtasks) && |p.checks| == |taken.subtasks| && |p.mail| == |taken.agents|
    ensures var v := HostVerification(cfg, taken, p);
            Work(cfg, taken, p) == Closing(cfg, WithVerification(taken, v), p, v.hostWorked, v.raised)
  {
  }

  lemma TickShaped(run: Run, p: Poll)
    requires Shaped(run) && Fits(run, p)
    ensures Shaped(Tick(run, p.now)) && Fits(Tick(run, p.now), p)
  {
  }

  lemma IntakeFits(run: Run, p: Poll)
    requires Shaped(run) && Fits(run, p)
    ensures var r := Intake(run, p);
            WorkersExist(r.agents, r.subtasks) && |p.checks| == |r.subtasks| && |p.mail| == |r.agents|
  {
  }

  // When the previous poll, and its sleep, were over.
  ghost function NextTime(cfg: Config, t: Trace): real
    requires t.runs != [] && |t.statuses| == |t.polls|
  {
    var n := |t.polls|;
    if n == 0 then t.runs[0].lastTick
    else t.polls[n - 1].now + (if t.statuses[n - 1] == Running(true) then cfg.pollInterval else 0.0)
  }

  lemma OnePollMore(cfg: Config, t: Trace, p: Poll)
    requires ConfigOk(cfg) && IsRun(cfg, t) && ClockOk(cfg, t) && Fits(t.runs[|t.polls|], p)
    requires t.polls != [] ==> t.statuses[|t.polls| - 1].Running?
    requires NextTime(cfg, t) <= p.now
    ensures Shaped(t.runs[|t.polls|])
    ensures IsRun(cfg, Extended(cfg, t, p)) && ClockOk(cfg, Extended(cfg, t, p))
    ensures var step := Advance(cfg, t.runs[|t.polls|], p);
            && Shaped(step.run)
            && |step.run.agents| == |t.runs[|t.polls|].agents| && |step.run.subtasks| == |t.runs[|t.polls|].subtasks|
            && (step.status == Ended(Succeeded) ==> AllPass(step.run.subtasks))
  {
    var last := t.runs[|t.polls|];
    InvAlways(cfg, t, |t.polls|);
    ExtendRun(cfg, t, p);
    ExtendClock(cfg, t, p);
    PollSizes(cfg, last, p);
    PollKeepsInv(cfg, last, p);
    if Advance(cfg, last, p).status == Ended(Succeeded) {
      SuccessNeeds(cfg, last, p);
    }
  }

  lemma ExtendClock(cfg: Config, t: Trace, p: Poll)
    requires IsRun(cfg, t) && ClockOk(cfg, t) && NextTime(cfg, t) <= p.now
    requires Shaped(t.runs[|t.polls|]) && Fits(t.runs[|t.polls|], p)
    requires IsRun(cfg, Extended(cfg, t, p))
    ensures ClockOk(cfg, Extended(cfg, t, p))
  {
  }
}
