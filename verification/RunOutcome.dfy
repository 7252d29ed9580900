/** What one poll comes to, told from the run and the poll alone: exactly when it
    ends, and how (sdf_core/coordinator.py, the loop of `_execute`). */
module RunOutcome {
  import opened Results
  import opened Verdicts
  import opened RunState
  import opened RunSafety
  import opened RunMail

  // ---- What the poll finds -------------------------------------------------

  // Held time grows by the interval since the last poll if that was marked.
  function HeldNow(before: Run, p: Poll): real {
    if before.heldPrev then before.held + (p.now - before.lastTick) else before.held
  }

  predicate OverWall(cfg: Config, before: Run, p: Poll) {
    p.now - before.started - HeldNow(before, p) > cfg.maxWall
  }

  predicate OverHold(cfg: Config, before: Run, p: Poll) { HeldNow(before, p) > cfg.maxHold }

  // One of the caps ends the run before the poll does anything.
  predicate CapsOut(cfg: Config, before: Run, p: Poll) {
    p.cancel || OverWall(cfg, before, p) || OverHold(cfg, before, p) || p.overCost
  }

  predicate Stopped(cfg: Config, before: Run, p: Poll) {
    CapsOut(cfg, before, p) || (p.gate != [] && p.sandboxExpiring)
  }

  // Subtask `k` is verified in this poll: asked for, before it or by a report it
  // relays, not passed, not blocked, and its worker not in a turn any more.
  ghost predicate Due(before: Run, p: Poll, k: nat)
    requires Shaped(before) && Fits(before, p) && k < |before.subtasks|
  {
    var sub := before.subtasks[k];
    && (sub.verifyRequested || AsksIn(before.agents, p.relayed, k)) && sub.verdict != Some(Pass)
    && (before.agents[sub.worker].inFlight ==> sub.worker in p.finished)
    && forall g :: g in p.gate ==> g.scope != RunScope && g.scope != SubtaskScope(k)
  }

  ghost predicate HostWorks(before: Run, p: Poll)
    requires Shaped(before) && Fits(before, p)
  {
    exists k: nat :: k < |before.subtasks| && Due(before, p, k)
  }

  // A verification raises: its check does, or its Attempt is settled already.
  ghost predicate Breaks(before: Run, p: Poll)
    requires Shaped(before) && Fits(before, p)
  {
    exists k: nat :: k < |before.subtasks| && Due(before, p, k) && (before.subtasks[k].settled || p.checks[k].Raises?)
  }

  // The poll gets as far as looking whether the run is done.
  ghost predicate Concludes(cfg: Config, before: Run, p: Poll)
    requires Shaped(before) && Fits(before, p)
  {
    !Stopped(cfg, before, p) && !Breaks(before, p)
  }

  // ---- What it leaves ------------------------------------------------------

  predicate Quiet(run: Run) {
    && run.pending == []
    && (forall i :: 0 <= i < |run.agents| ==> !run.agents[i].inFlight && !run.agents[i].wake)
    && (forall k :: 0 <= k < |run.subtasks| ==> !run.subtasks[k].verifyRequested)
  }

  predicate Passed(run: Run) { forall k :: 0 <= k < |run.subtasks| ==> run.subtasks[k].verdict == Some(Pass) }

  // All is verified, and the lead said so or nobody has anything left to do.
  predicate Done(run: Run, p: Poll) { Passed(run) && p.gate == [] && (run.leadReported || Quiet(run)) }

  predicate Spent(cfg: Config, sub: Subtask) {
    (sub.verdict == Some(Fail) || sub.verdict == Some(Inconclusive)) && sub.rounds >= cfg.maxRounds
  }

  // Nobody has anything left to do and some subtasks have used up their rounds.
  predicate OutOfRounds(cfg: Config, run: Run) {
    && Quiet(run)
    && (exists k :: 0 <= k < |run.subtasks| && Spent(cfg, run.subtasks[k]))
    && (forall k :: 0 <= k < |run.subtasks| ==> run.subtasks[k].verdict == Some(Pass) || Spent(cfg, run.subtasks[k]))
  }

  // The quiet lasts since then; a recorded zero counts as none.
  function QuietSince(before: Run, p: Poll): real {
    match before.idleSince
    case Some(t) => if t == 0.0 then p.idleStart else t
    case None => p.idleStart
  }

  predicate TooLong(cfg: Config, before: Run, p: Poll) { p.idleCheck - QuietSince(before, p) > cfg.stall }

  // Attempts without a verdict that the quiet has not had verified yet.
  predicate Unseen(before: Run, k: nat, sub: Subtask) {
    sub.verdict == None && (k, sub.rounds) !in before.stallVerified
  }

  predicate AllSeen(before: Run, run: Run) {
    forall k :: 0 <= k < |run.subtasks| ==> !Unseen(before, k, run.subtasks[k])
  }

  predicate Stalls(cfg: Config, before: Run, p: Poll, run: Run) {
    && !Done(run, p) && !OutOfRounds(cfg, run)
    && Quiet(run) && !p.waitingHuman && TooLong(cfg, before, p) && AllSeen(before, run)
  }

  // Something is still to do, or to wait for.
  predicate Waits(cfg: Config, before: Run, p: Poll, run: Run) {
    !Done(run, p) && !OutOfRounds(cfg, run) && (!Quiet(run) || p.waitingHuman || !TooLong(cfg, before, p))
  }

  // The poll asked for the verification of exactly the Attempts not seen yet,
  // there being some, as nothing else was to do.
  ghost predicate AskedForUnseen(cfg: Config, before: Run, p: Poll, run: Run) {
    && run.pending == [] && !p.waitingHuman && TooLong(cfg, before, p) && run.idleSince == None
    && (forall i :: 0 <= i < |run.agents| ==> !run.agents[i].inFlight && !run.agents[i].wake)
    && (forall k :: 0 <= k < |run.subtasks| ==>
          (run.subtasks[k].verifyRequested <==> Unseen(before, k, run.subtasks[k])))
    && (exists k :: 0 <= k < |run.subtasks| && Unseen(before, k, run.subtasks[k]))
    && (forall k: nat, n: nat :: (k, n) in run.stallVerified <==>
          || (k, n) in before.stallVerified
          || (k < |run.subtasks| && n == run.subtasks[k].rounds && Unseen(before, k, run.subtasks[k])))
  }

  // ---- The decision --------------------------------------------------------

  lemma QuietIs(run: Run)
    ensures Active(run) <==> !Quiet(run)
  {
  }

  lemma DoneIs(cfg: Config, run: Run)
    ensures AllPass(run.subtasks) <==> Passed(run)
    ensures ExhaustedRun(cfg, run.subtasks) && !Active(run) <==> OutOfRounds(cfg, run)
  {
    QuietIs(run);
    assert forall k :: 0 <= k < |run.subtasks| ==> (Exhausted(cfg, run.subtasks[k]) <==> Spent(cfg, run.subtasks[k]));
  }

  lemma UnseenIs(run: Run)
    ensures Unverified(run.subtasks, run.stallVerified) == {} <==> AllSeen(run, run)
    ensures forall k: nat, n: nat :: (k, n) in Unverified(run.subtasks, run.stallVerified) <==>
              k < |run.subtasks| && n == run.subtasks[k].rounds && Unseen(run, k, run.subtasks[k])
  {
    var due := Unverified(run.subtasks, run.stallVerified);
    assert forall k: nat :: k < |run.subtasks| && Unseen(run, k, run.subtasks[k]) ==>
      (k, run.subtasks[k].rounds) in due;
    if due != {} {
      var attempt :| attempt in due;
      assert Unseen(run, attempt.0, run.subtasks[attempt.0]);
    }
  }

  // A step from `before` to `step`, read off `step.run`.
  ghost predicate Law(cfg: Config, before: Run, p: Poll, step: Step) {
    var after, status := step.run, step.status;
    && (status == Ended(Succeeded) <==> Done(after, p))
    && (status == Ended(Failed(ChecksExhausted)) <==> !Done(after, p) && OutOfRounds(cfg, after))
    && (status == Ended(Failed(Stalled)) <==> Stalls(cfg, before, p, after))
    && (status == Running(false) <==> after.stallVerified != before.stallVerified)
    && (status == Running(false) ==> AskedForUnseen(cfg, before, p, after))
    && (status == Running(true) <==> 0.0 <= cfg.pollInterval && Slept(cfg, before, p, after))
    && (status == Ended(Failed(Exception)) <==> cfg.pollInterval < 0.0 && Slept(cfg, before, p, after))
    && (status.Ended? ==> status.outcome in {Succeeded, Failed(ChecksExhausted), Failed(Stalled), Failed(Exception)})
  }

  ghost predicate Slept(cfg: Config, before: Run, p: Poll, after: Run) {
    && Waits(cfg, before, p, after) && after.stallVerified == before.stallVerified
    && after.idleSince == if Quiet(after) && !p.waitingHuman then Some(QuietSince(before, p)) else None
  }

  // When nobody has had anything to do for too long.
  lemma RequestLaw(cfg: Config, run: Run, p: Poll)
    requires Quiet(run) && !p.waitingHuman && TooLong(cfg, run, p) && !AllSeen(run, run)
    requires !Done(run, p) && !OutOfRounds(cfg, run)
    ensures Law(cfg, run, p, Step(RequestVerification(run), Running(false)))
  {
    hide Unverified, Passed, OutOfRounds;
    UnseenIs(run);
    var due, after := Unverified(run.subtasks, run.stallVerified), RequestVerification(run);
    assert forall k :: 0 <= k < |run.subtasks| ==>
      after.subtasks[k] == run.subtasks[k].(verifyRequested := Unseen(run, k, run.subtasks[k]));
    var k :| 0 <= k < |run.subtasks| && Unseen(run, k, run.subtasks[k]);
    assert (k, run.subtasks[k].rounds) in due;
    assert !Quiet(after) && run.subtasks[k].verdict == None;
    RequestIsNotDone(cfg, run, p, after, k);
  }

  lemma RequestIsNotDone(cfg: Config, run: Run, p: Poll, after: Run, k: nat)
    requires k < |after.subtasks| && after.subtasks[k].verdict == None
    ensures !Done(after, p) && !OutOfRounds(cfg, after)
  {
  }

  lemma DecideLaw(cfg: Config, run: Run, p: Poll)
    ensures Law(cfg, run, p, DecideOn(cfg, run, p))
  {
    hide Active, AllPass, ExhaustedRun, Unverified, Passed, OutOfRounds, Quiet, AskedForUnseen, RequestVerification;
    QuietIs(run);
    DoneIs(cfg, run);
    UnseenIs(run);
    var step := DecideOn(cfg, run, p);
    if step.status == Running(false) {
      RequestLaw(cfg, run, p);
    } else {
      StillSame(cfg, run, p, step.run);
    }
  }

  // The time the quiet began decides nothing else.
  lemma StillSame(cfg: Config, run: Run, p: Poll, after: Run)
    requires after == run.(idleSince := after.idleSince)
    ensures Quiet(after) == Quiet(run) && Passed(after) == Passed(run)
    ensures OutOfRounds(cfg, after) == OutOfRounds(cfg, run)
    ensures AllSeen(run, after) == AllSeen(run, run)
  {
  }

  // ---- The poll ------------------------------------------------------------

  lemma SameAsks(a: seq<Agent>, b: seq<Agent>, rs: seq<Relayed>, k: nat)
    requires |a| == |b| && forall i :: 0 <= i < |a| ==> a[i].subtask == b[i].subtask
    ensures AsksIn(a, rs, k) <==> AsksIn(b, rs, k)
  {
    assert forall r :: r in rs ==> (Asks(a, r, k) <==> Asks(b, r, k));
  }

  lemma BlockedIs(gate: seq<MaterialRequest>, k: nat)
    ensures SubtaskBlocked(gate, k) <==> exists g :: g in gate && (g.scope == RunScope || g.scope == SubtaskScope(k))
  {
  }

  // Subtask `k` as the poll takes it in.
  lemma TakenSubtask(before: Run, p: Poll, k: nat)
    requires Shaped(before) && Fits(before, p) && k < |before.subtasks|
    ensures var taken, sub := Intake(Tick(before, p.now), p), before.subtasks[k];
            && taken.subtasks[k]
               == sub.(verifyRequested := sub.verifyRequested || AsksIn(before.agents, p.relayed, k))
            && taken.agents[sub.worker].inFlight == (before.agents[sub.worker].inFlight && sub.worker !in p.finished)
  {
    hide Asks, AsksIn, Shaped, Fits;
    var ticked := Tick(before, p.now);
    var finished := ticked.(agents := FinishTurns(ticked.agents, p.finished));
    ShapedThroughout(before, p);
    WorkerThere(before, k);
    IntakeFrame(ticked, p);
    SameAsks(before.agents, finished.agents, p.relayed, k);
    RelayExact(finished, p.relayed);
    AnnounceKeeps(Relay(finished, p.relayed), p.resolved);
  }

  lemma ShapedThroughout(before: Run, p: Poll)
    requires Shaped(before) && Fits(before, p)
    ensures var ticked := Tick(before, p.now);
            && Shaped(ticked) && Fits(ticked, p)
            && Shaped(ticked.(agents := FinishTurns(ticked.agents, p.finished)))
            && forall r :: r in p.relayed ==> r.agent < |before.agents|
  {
  }

  lemma WorkerThere(run: Run, k: nat)
    requires Shaped(run) && k < |run.subtasks|
    ensures run.subtasks[k].worker < |run.agents|
  {
  }

  lemma DueIs(before: Run, p: Poll, k: nat)
    requires Shaped(before) && Fits(before, p) && k < |before.subtasks|
    ensures var taken := Intake(Tick(before, p.now), p);
            CanVerify(taken.agents, taken.subtasks, p.gate, k) <==> Due(before, p, k)
  {
    hide Intake, SubtaskBlocked, Asks, AsksIn, Shaped;
    WorkerThere(before, k);
    TakenSubtask(before, p, k);
    BlockedIs(p.gate, k);
  }

  lemma HostWorkIs(cfg: Config, before: Run, p: Poll)
    requires Shaped(before) && Fits(before, p)
    ensures var v := HostVerification(cfg, Intake(Tick(before, p.now), p), p);
            && (v.raised <==> Breaks(before, p)) && (v.hostWorked <==> HostWorks(before, p))
  {
    hide Due, Intake, CanVerify, Verify, Shaped;
    ShapedThroughout(before, p);
    var taken := Intake(Tick(before, p.now), p);
    var v := Verification(taken.subtasks, taken.pending, false, false);
    VerifyCause(cfg, taken.agents, taken.lead, p, 0, v);
    forall k: nat | k < |before.subtasks|
      ensures CanVerify(taken.agents, taken.subtasks, p.gate, k) <==> Due(before, p, k)
      ensures taken.subtasks[k].settled == before.subtasks[k].settled
    {
      WorkerThere(before, k);
      DueIs(before, p, k);
      TakenSubtask(before, p, k);
    }
    forall k: nat | k < |before.subtasks| && Due(before, p, k)
      ensures HostVerification(cfg, taken, p).hostWorked
      ensures before.subtasks[k].settled || p.checks[k].Raises? ==> HostVerification(cfg, taken, p).raised
    {
      VerifyAt(cfg, taken.agents, taken.lead, p, 0, v, k);
    }
  }

  predicate Clocked(before: Run, p: Poll, run: Run) { run.lastTick == p.now && run.held == HeldNow(before, p) }

  // The next interval is marked: it only waits for a decision.
  ghost predicate Marked(before: Run, p: Poll, run: Run)
    requires Shaped(before) && Fits(before, p)
  {
    p.gate != [] && !HostWorks(before, p) && forall i :: 0 <= i < |run.agents| ==> !run.agents[i].inFlight
  }

  // A poll that concludes decides on the run it leaves.
  lemma ConcludingPoll(cfg: Config, before: Run, p: Poll)
    requires Shaped(before) && Fits(before, p) && Concludes(cfg, before, p)
    ensures var step := Advance(cfg, before, p);
            && Law(cfg, before, p, step) && Clocked(before, p, step.run)
            && (step.run.heldPrev <==> Marked(before, p, step.run))
  {
    hide Intake, Outflow, DecideOn, HostVerification, Shaped, Law, HostWorks, Breaks;
    ShapedThroughout(before, p);
    HostWorkIs(cfg, before, p);
    var taken := Intake(Tick(before, p.now), p);
    IntakeFrame(Tick(before, p.now), p);
    var v := HostVerification(cfg, taken, p);
    var left := Outflow(cfg, WithVerification(taken, v), p);
    OutflowFrame(cfg, WithVerification(taken, v), p);
    DecideFrame(cfg, left, p, v.hostWorked);
    var marked := left.(heldPrev := p.gate != [] && !v.hostWorked && !AnyInFlight(left.agents));
    DecideLaw(cfg, marked, p);
    SameLaw(cfg, before, marked, p, DecideOn(cfg, marked, p));
    DecideMarks(cfg, marked, p);
  }

  lemma DecideMarks(cfg: Config, run: Run, p: Poll)
    ensures DecideOn(cfg, run, p).run.heldPrev == run.heldPrev
  {
    hide AllPass, Active, ExhaustedRun, Unverified;
  }

  lemma SameLaw(cfg: Config, a: Run, b: Run, p: Poll, step: Step)
    requires a.idleSince == b.idleSince && a.stallVerified == b.stallVerified && Law(cfg, b, p, step)
    ensures Law(cfg, a, p, step)
  {
  }

  // A poll that a cap stops, or that cannot wait for its human any longer.
  lemma StoppedPoll(cfg: Config, before: Run, p: Poll)
    requires Shaped(before) && Fits(before, p) && Stopped(cfg, before, p)
    ensures var step := Advance(cfg, before, p);
            && Clocked(before, p, step.run)
            && step.status == Ended(
                 if p.cancel then Cancelled else if OverWall(cfg, before, p) then Failed(WallCap)
                 else if OverHold(cfg, before, p) then Failed(HoldCap) else if p.overCost then Failed(CostCap)
                 else Failed(SandboxExpiry))
  {
    hide Intake, Shaped;
    ShapedThroughout(before, p);
    IntakeFrame(Tick(before, p.now), p);
  }

  lemma BrokenPoll(cfg: Config, before: Run, p: Poll)
    requires Shaped(before) && Fits(before, p) && !Stopped(cfg, before, p) && Breaks(before, p)
    ensures var step := Advance(cfg, before, p);
            step.status == Ended(Failed(Exception)) && Clocked(before, p, step.run)
  {
    hide Intake, Shaped, HostVerification, HostWorks, Breaks;
    ShapedThroughout(before, p);
    HostWorkIs(cfg, before, p);
    IntakeFrame(Tick(before, p.now), p);
  }

  // How a poll ends the run, exactly when it does, and what else it leaves.
  ghost predicate EndsAs(cfg: Config, before: Run, p: Poll, run: Run, status: Status)
    requires Shaped(before) && Fits(before, p)
  {
    && (status == Ended(Cancelled) <==> p.cancel)
    && (status == Ended(Failed(WallCap)) <==> !p.cancel && OverWall(cfg, before, p))
    && (status == Ended(Failed(HoldCap)) <==> !p.cancel && !OverWall(cfg, before, p) && OverHold(cfg, before, p))
    && (status == Ended(Failed(CostCap)) <==>
          !p.cancel && !OverWall(cfg, before, p) && !OverHold(cfg, before, p) && p.overCost)
    && (status == Ended(Failed(SandboxExpiry)) <==> !CapsOut(cfg, before, p) && p.gate != [] && p.sandboxExpiring)
    && (status == Ended(Succeeded) <==> Concludes(cfg, before, p) && Done(run, p))
    && (status == Ended(Failed(ChecksExhausted)) <==>
          Concludes(cfg, before, p) && !Done(run, p) && OutOfRounds(cfg, run))
    && (status == Ended(Failed(Stalled)) <==> Concludes(cfg, before, p) && Stalls(cfg, before, p, run))
    && (status == Ended(Failed(Exception)) <==>
          || (!Stopped(cfg, before, p) && Breaks(before, p))
          || (cfg.pollInterval < 0.0 && Concludes(cfg, before, p) && Slept(cfg, before, p, run)))
    && (status == Running(true) <==>
          0.0 <= cfg.pollInterval && Concludes(cfg, before, p) && Slept(cfg, before, p, run))
    && (status == Running(false) ==> Concludes(cfg, before, p) && AskedForUnseen(cfg, before, p, run))
  }

  lemma PollLaw(cfg: Config, before: Run, p: Poll)
    requires Shaped(before) && Fits(before, p)
    ensures EndsAs(cfg, before, p, Advance(cfg, before, p).run, Advance(cfg, before, p).status)
    ensures Clocked(before, p, Advance(cfg, before, p).run)
    ensures Concludes(cfg, before, p) ==>
              (Advance(cfg, before, p).run.heldPrev <==> Marked(before, p, Advance(cfg, before, p).run))
  {
    hide Advance, Shaped, Fits, Clocked, Marked, Done, OutOfRounds, Stalls, Slept, AskedForUnseen, HostWorks, Breaks;
    if Stopped(cfg, before, p) {
      StoppedPoll(cfg, before, p);
    } else if Breaks(before, p) {
      BrokenPoll(cfg, before, p);
    } else {
      ConcludingPoll(cfg, before, p);
    }
  }
}
