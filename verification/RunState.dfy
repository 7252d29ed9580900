/** The state of one coordinator run and what one poll does to it
    (sdf_core/coordinator.py, the loop of `_execute`).

    Agents and subtasks are numbered in the order of the coordinator's
    dictionaries. A run's current Attempt of subtask `k` is `(k, rounds)`. */
module RunState {
  import opened Results
  import opened Verdicts

  datatype Scope = RunScope | SubtaskScope(key: nat)

  // A pending material decision request, as the gate query returns it.
  datatype MaterialRequest = MaterialRequest(id: nat, requestedBy: nat, scope: Scope)

  datatype Agent = Agent(subtask: Option<nat>, turns: nat, wake: bool, inFlight: bool) {
    predicate IsLead() { subtask.None? }
  }

  // `settled` says that the current Attempt is no longer running.
  datatype Subtask = Subtask(worker: nat, rounds: nat, verdict: Option<Verdict>, verifyRequested: bool, settled: bool)

  datatype Config = Config(
    maxConcurrent: nat, maxTurns: nat, maxRounds: nat,
    maxWall: real, maxHold: real, stall: real, pollInterval: real)

  datatype Run = Run(
    agents: seq<Agent>, subtasks: seq<Subtask>, lead: nat,
    pending: seq<nat>,               // recipients of messages not yet delivered
    leadReported: bool, allPassNotified: bool,
    delivered: set<nat>,             // decision requests whose outcome was announced
    started: real, lastTick: real, held: real, heldPrev: bool,
    idleSince: Option<real>,
    stallVerified: set<(nat, nat)>)  // Attempts verified because the agents went quiet

  // -- what the outside world contributes to one poll --------------------------

  datatype Claim = Done | GaveUp | Progress

  datatype Relayed =
    | Refused(agent: nat)
    | Accepted(agent: nat, recipients: seq<nat>, report: Option<Claim>, materialByRule: bool)

  datatype Resolution = Resolution(request: nat, requestedBy: nat)

  // What `_verify` comes to: a settled Task, or an exception and what it leaves.
  datatype CheckOutcome = Judged(verdict: Verdict) | Raises(left: Leftover)

  // An exception before the Attempt settled; after `finish` settled it without
  // a verdict; after the verdict; from the refused retry; from the begun retry.
  datatype Leftover =
    | Untouched | SettledUnjudged | JudgedOnly(v: Verdict) | RetryRefused(v: Verdict) | RetryBegun(v: Verdict)

  datatype MailCheck = HasMail | NoMail | Unreadable

  datatype Poll = Poll(
    now: real, cancel: bool, overCost: bool,
    finished: set<nat>, relayed: seq<Relayed>, resolved: seq<Resolution>,
    gate: seq<MaterialRequest>, sandboxExpiring: bool,
    checks: seq<CheckOutcome>, undeliverable: set<nat>, mail: seq<MailCheck>,
    waitingHuman: bool, idleStart: real, idleCheck: real)

  datatype FailureReason = WallCap | HoldCap | CostCap | SandboxExpiry | Exception | ChecksExhausted | Stalled

  datatype Outcome = Succeeded | Cancelled | Failed(reason: FailureReason)

  datatype Status = Running(slept: bool) | Ended(outcome: Outcome)

  datatype Step = Step(run: Run, status: Status)

  // -- well-formedness ----------------------------------------------------------

  ghost predicate Shaped(run: Run) {
    && run.lead < |run.agents| && run.agents[run.lead].IsLead()
    && (forall i :: 0 <= i < |run.agents| && run.agents[i].subtask.Some? ==>
          run.agents[i].subtask.value < |run.subtasks|)
    && (forall k :: 0 <= k < |run.subtasks| ==>
          run.subtasks[k].worker < |run.agents| && run.agents[run.subtasks[k].worker].subtask == Some(k))
  }

  ghost predicate Fits(run: Run, p: Poll) {
    && |p.checks| == |run.subtasks| && |p.mail| == |run.agents|
    && (forall r :: r in p.relayed ==> r.agent < |run.agents|)
  }

  // -- 1. finished turns ---------------------------------------------------------

  function Finished(a: Agent, done: bool): Agent {
    if a.inFlight && done then a.(inFlight := false, wake := true) else a
  }

  function FinishTurns(agents: seq<Agent>, finished: set<nat>): (r: seq<Agent>)
    ensures |r| == |agents|
  {
    seq(|agents|, i requires 0 <= i < |agents| => Finished(agents[i], i in finished))
  }

  // -- 2. relay ------------------------------------------------------------------

  function RelayOne(run: Run, r: Relayed): (next: Run)
    requires Shaped(run) && r.agent < |run.agents|
    ensures Shaped(next) && next.agents == run.agents && |next.subtasks| == |run.subtasks|
  {
    match r
    case Refused(a) => run.(pending := run.pending + [a])
    case Accepted(a, recipients, report, byRule) =>
      var sender := run.agents[a];
      var asks := sender.subtask.Some? && (report == Some(Done) || report == Some(GaveUp));
      run.(
        pending := run.pending + recipients + (if byRule then [a] else []),
        subtasks := if asks
          then run.subtasks[sender.subtask.value := run.subtasks[sender.subtask.value].(verifyRequested := true)]
          else run.subtasks,
        leadReported := run.leadReported || (sender.IsLead() && report == Some(Done)))
  }

  function Relay(run: Run, rs: seq<Relayed>): (r: Run)
    requires Shaped(run) && forall r :: r in rs ==> r.agent < |run.agents|
    ensures Shaped(r) && r.agents == run.agents && |r.subtasks| == |run.subtasks|
    decreases rs
  {
    if rs == [] then run
    else
      assert forall r :: r in rs[1..] ==> r in rs;
      Relay(RelayOne(run, rs[0]), rs[1..])
  }

  // -- 3. resolved decision requests ----------------------------------------------

  function AnnounceOne(run: Run, d: Resolution): Run {
    if d.request in run.delivered || d.requestedBy >= |run.agents| then run
    else run.(delivered := run.delivered + {d.request}, pending := run.pending + [d.requestedBy])
  }

  function Announce(run: Run, ds: seq<Resolution>): Run
    decreases ds
  {
    if ds == [] then run else Announce(AnnounceOne(run, ds[0]), ds[1..])
  }

  // -- 3b. the material decision gate ------------------------------------------------

  function BlockedScopes(gate: seq<MaterialRequest>): set<Scope> { set g | g in gate :: g.scope }

  function Askers(gate: seq<MaterialRequest>): set<nat> { set g | g in gate :: g.requestedBy }

  predicate SubtaskBlocked(gate: seq<MaterialRequest>, k: nat) {
    RunScope in BlockedScopes(gate) || SubtaskScope(k) in BlockedScopes(gate)
  }

  predicate AgentBlocked(run: Run, gate: seq<MaterialRequest>, a: nat)
    requires a < |run.agents|
  {
    || RunScope in BlockedScopes(gate)
    || a in Askers(gate)
    || (exists k :: 0 <= k < |run.subtasks| && run.subtasks[k].worker == a && SubtaskBlocked(gate, k))
  }

  // -- 4. host verification -----------------------------------------------------------

  datatype Checked = Checked(sub: Subtask, raised: bool)

  predicate Retries(cfg: Config, sub: Subtask, v: Verdict) { v != Pass && sub.rounds < cfg.maxRounds }

  function LeftBehind(cfg: Config, sub: Subtask, left: Leftover): Subtask {
    match left
    case Untouched => sub
    case SettledUnjudged => sub.(settled := true)
    case JudgedOnly(v) => sub.(verdict := Some(v), settled := true)
    case RetryRefused(v) =>
      sub.(rounds := if Retries(cfg, sub, v) then sub.rounds + 1 else sub.rounds, verdict := Some(v), settled := true)
    case RetryBegun(v) =>
      if Retries(cfg, sub, v) then sub.(rounds := sub.rounds + 1, verdict := Some(v))
      else sub.(verdict := Some(v), settled := true)
  }

  // A settled Attempt is refused by `finish`; otherwise the Task's new state is
  // the verdict, and a retry Attempt is opened while rounds are left.
  function VerifyOne(cfg: Config, before: Subtask, check: CheckOutcome): Checked {
    var sub := before.(verifyRequested := false);
    if sub.settled then Checked(sub, true)
    else
      match check
      case Raises(left) => Checked(LeftBehind(cfg, sub, left), true)
      case Judged(v) =>
        if Retries(cfg, sub, v) then Checked(sub.(rounds := sub.rounds + 1, verdict := None), false)
        else Checked(sub.(verdict := Some(v), settled := true), false)
  }

  datatype Verification = Verification(subtasks: seq<Subtask>, mail: seq<nat>, hostWorked: bool, raised: bool)

  predicate WorkersExist(agents: seq<Agent>, subtasks: seq<Subtask>) {
    forall k :: 0 <= k < |subtasks| ==> subtasks[k].worker < |agents|
  }

  predicate Verifiable(agents: seq<Agent>, sub: Subtask, blocked: bool)
    requires sub.worker < |agents|
  {
    sub.verifyRequested && !blocked && !agents[sub.worker].inFlight && sub.verdict != Some(Pass)
  }

  function Verify(cfg: Config, agents: seq<Agent>, lead: nat, p: Poll, k: nat, v: Verification): (r: Verification)
    requires WorkersExist(agents, v.subtasks) && k <= |v.subtasks| == |p.checks|
    ensures |r.subtasks| == |v.subtasks|
    ensures forall j :: 0 <= j < |r.subtasks| ==> r.subtasks[j].worker == v.subtasks[j].worker
    decreases |v.subtasks| - k
  {
    if k == |v.subtasks| then v
    else
      var sub := v.subtasks[k];
      if !Verifiable(agents, sub, SubtaskBlocked(p.gate, k)) then Verify(cfg, agents, lead, p, k + 1, v)
      else
        var checked := VerifyOne(cfg, sub, p.checks[k]);
        if checked.raised then v.(subtasks := v.subtasks[k := checked.sub], hostWorked := true, raised := true)
        else
          Verify(cfg, agents, lead, p, k + 1,
                 v.(subtasks := v.subtasks[k := checked.sub], mail := v.mail + [sub.worker, lead], hostWorked := true))
  }

  predicate AllPass(subtasks: seq<Subtask>) {
    forall k :: 0 <= k < |subtasks| ==> subtasks[k].verdict == Some(Pass)
  }

  function NotifyAllPass(run: Run): Run {
    if AllPass(run.subtasks) && !run.allPassNotified
    then run.(allPassNotified := true, pending := run.pending + [run.lead])
    else run
  }

  // -- 5. deliveries --------------------------------------------------------------------

  function Woken(agents: seq<Agent>, a: nat): seq<Agent> {
    if a < |agents| then agents[a := agents[a].(wake := true)] else agents
  }

  // Deliveries `i` onwards of `run.pending`; `still` collects the undelivered.
  function Deliver(run: Run, undeliverable: set<nat>, i: nat, still: seq<nat>): Run
    requires i <= |run.pending|
    decreases |run.pending| - i
  {
    if i == |run.pending| then run.(pending := still)
    else if i in undeliverable then Deliver(run, undeliverable, i + 1, still + [run.pending[i]])
    else Deliver(run.(agents := Woken(run.agents, run.pending[i])), undeliverable, i + 1, still)
  }

  // -- 6. waking idle agents --------------------------------------------------------------

  function Busy(agents: seq<Agent>): nat {
    if agents == [] then 0 else Busy(agents[..|agents| - 1]) + (if agents[|agents| - 1].inFlight then 1 else 0)
  }

  function WakeOne(cfg: Config, a: Agent, mail: MailCheck): Agent {
    match mail
    case Unreadable => a.(wake := true)
    case NoMail => a.(wake := false)
    case HasMail =>
      if a.turns >= cfg.maxTurns then a.(wake := false)
      else a.(wake := false, turns := a.turns + 1, inFlight := true)
  }

  function Wake(cfg: Config, run: Run, p: Poll, i: nat, busy: nat): (r: Run)
    requires |p.mail| == |run.agents| && i <= |run.agents|
    decreases |run.agents| - i
  {
    if i == |run.agents| || busy >= cfg.maxConcurrent then run
    else
      var a := run.agents[i];
      if !a.wake || a.inFlight || AgentBlocked(run, p.gate, i) then Wake(cfg, run, p, i + 1, busy)
      else
        var b := WakeOne(cfg, a, p.mail[i]);
        Wake(cfg, run.(agents := run.agents[i := b]), p, i + 1, if b.inFlight then busy + 1 else busy)
  }

  // -- 7. completion and stall ---------------------------------------------------------------

  predicate AnyInFlight(agents: seq<Agent>) { exists i :: 0 <= i < |agents| && agents[i].inFlight }

  predicate Active(run: Run) {
    || AnyInFlight(run.agents)
    || run.pending != []
    || (exists i :: 0 <= i < |run.agents| && run.agents[i].wake)
    || (exists k :: 0 <= k < |run.subtasks| && run.subtasks[k].verifyRequested)
  }

  predicate Exhausted(cfg: Config, sub: Subtask) {
    (sub.verdict == Some(Fail) || sub.verdict == Some(Inconclusive)) && sub.rounds >= cfg.maxRounds
  }

  predicate ExhaustedRun(cfg: Config, subtasks: seq<Subtask>) {
    && (exists k :: 0 <= k < |subtasks| && Exhausted(cfg, subtasks[k]))
    && (forall k :: 0 <= k < |subtasks| ==> subtasks[k].verdict == Some(Pass) || Exhausted(cfg, subtasks[k]))
  }

  function Unverified(subtasks: seq<Subtask>, seen: set<(nat, nat)>): set<(nat, nat)> {
    set k: nat | k < |subtasks| && subtasks[k].verdict == None && (k, subtasks[k].rounds) !in seen
      :: (k, subtasks[k].rounds)
  }

  function Requested(subtasks: seq<Subtask>, due: set<(nat, nat)>): (r: seq<Subtask>)
    ensures |r| == |subtasks|
  {
    seq(|subtasks|, k requires 0 <= k < |subtasks| =>
      if (k, subtasks[k].rounds) in due then subtasks[k].(verifyRequested := true) else subtasks[k])
  }

  function RequestVerification(run: Run): Run {
    var due := Unverified(run.subtasks, run.stallVerified);
    run.(stallVerified := run.stallVerified + due, idleSince := None, subtasks := Requested(run.subtasks, due))
  }

  // `idle_since or monotonic()`: a recorded zero is taken as not recorded.
  function IdleSince(run: Run, p: Poll): real {
    if run.idleSince.Some? && run.idleSince.value != 0.0 then run.idleSince.value else p.idleStart
  }

  // `time.sleep` refuses a negative interval.
  function Sleep(cfg: Config, run: Run): Step {
    Step(run, if cfg.pollInterval < 0.0 then Ended(Failed(Exception)) else Running(true))
  }

  // Nobody has anything to do: sleep on, look at unverified Attempts once, or
  // give up.
  function IdleStep(cfg: Config, run: Run, p: Poll): Step {
    if p.idleCheck - IdleSince(run, p) <= cfg.stall then Sleep(cfg, run.(idleSince := Some(IdleSince(run, p))))
    else if Unverified(run.subtasks, run.stallVerified) != {} then Step(RequestVerification(run), Running(false))
    else Step(run, Ended(Failed(Stalled)))
  }

  function DecideOn(cfg: Config, run: Run, p: Poll): Step {
    if AllPass(run.subtasks) && (run.leadReported || !Active(run)) && p.gate == [] then Step(run, Ended(Succeeded))
    else if ExhaustedRun(cfg, run.subtasks) && !Active(run) then Step(run, Ended(Failed(ChecksExhausted)))
    else if Active(run) || p.waitingHuman then Sleep(cfg, run.(idleSince := None))
    else IdleStep(cfg, run, p)
  }

  // The coming interval is held if the run only waits for a material decision.
  function Decide(cfg: Config, run: Run, p: Poll, hostWorked: bool): Step {
    DecideOn(cfg, run.(heldPrev := p.gate != [] && !hostWorked && !AnyInFlight(run.agents)), p)
  }

  // -- one poll ---------------------------------------------------------------------------------

  function Tick(run: Run, now: real): Run {
    run.(held := run.held + (if run.heldPrev then now - run.lastTick else 0.0), lastTick := now)
  }

  function Elapsed(run: Run): real { run.lastTick - run.started - run.held }

  // The caps, in the order they are checked.
  function Capped(cfg: Config, run: Run, p: Poll): Option<Outcome> {
    if p.cancel then Some(Cancelled)
    else if Elapsed(run) > cfg.maxWall then Some(Failed(WallCap))
    else if run.held > cfg.maxHold then Some(Failed(HoldCap))
    else if p.overCost then Some(Failed(CostCap))
    else None
  }

  // Everything before host verification.
  function Intake(run: Run, p: Poll): (r: Run)
    requires Shaped(run) && Fits(run, p)
    ensures |r.agents| == |run.agents| && |r.subtasks| == |run.subtasks| && WorkersExist(r.agents, r.subtasks)
  {
    var finished := run.(agents := FinishTurns(run.agents, p.finished));
    var relayed := Relay(finished, p.relayed);
    AnnounceKeeps(relayed, p.resolved);
    Announce(relayed, p.resolved)
  }

  function HostVerification(cfg: Config, run: Run, p: Poll): Verification
    requires WorkersExist(run.agents, run.subtasks) && |p.checks| == |run.subtasks|
  {
    Verify(cfg, run.agents, run.lead, p, 0, Verification(run.subtasks, run.pending, false, false))
  }

  // Everything after host verification.
  function Outflow(cfg: Config, run: Run, p: Poll): Run
    requires |p.mail| == |run.agents|
  {
    var notified := NotifyAllPass(run);
    DeliverKeeps(notified, p.undeliverable, 0, []);
    var delivered := Deliver(notified, p.undeliverable, 0, []);
    Wake(cfg, delivered, p, 0, Busy(delivered.agents))
  }

  function WithVerification(run: Run, v: Verification): Run {
    run.(subtasks := v.subtasks, pending := v.mail)
  }

  // A poll that no cap stopped, from host verification on.
  function Work(cfg: Config, taken: Run, p: Poll): Step
    requires WorkersExist(taken.agents, taken.subtasks) && |p.checks| == |taken.subtasks| && |p.mail| == |taken.agents|
  {
    var v := HostVerification(cfg, taken, p);
    if v.raised then Step(WithVerification(taken, v), Ended(Failed(Exception)))
    else Decide(cfg, Outflow(cfg, WithVerification(taken, v), p), p, v.hostWorked)
  }

  function Advance(cfg: Config, before: Run, p: Poll): Step
    requires Shaped(before) && Fits(before, p)
  {
    var run := Tick(before, p.now);
    var cap := Capped(cfg, run, p);
    if cap.Some? then Step(run, Ended(cap.value))
    else
      var taken := Intake(run, p);
      if p.gate != [] && p.sandboxExpiring then Step(taken, Ended(Failed(SandboxExpiry)))
      else Work(cfg, taken, p)
  }

  // -- frames of the phases ------------------------------------------------------------------------

  lemma {:induction false} AnnounceKeeps(run: Run, ds: seq<Resolution>)
    ensures var r := Announce(run, ds);
            && r.agents == run.agents && r.subtasks == run.subtasks
            && r == run.(delivered := r.delivered, pending := r.pending)
            && (Shaped(run) ==> Shaped(r))
    decreases ds
  {
    if ds != [] {
      AnnounceKeeps(AnnounceOne(run, ds[0]), ds[1..]);
    }
  }

  lemma IntakeShaped(run: Run, p: Poll)
    requires Shaped(run) && Fits(run, p)
    ensures Shaped(Intake(run, p))
  {
    var finished := run.(agents := FinishTurns(run.agents, p.finished));
    assert Shaped(finished);
    AnnounceKeeps(Relay(finished, p.relayed), p.resolved);
  }

  lemma {:induction false} DeliverKeeps(run: Run, undeliverable: set<nat>, i: nat, still: seq<nat>)
    requires i <= |run.pending|
    ensures var r := Deliver(run, undeliverable, i, still);
            && |r.agents| == |run.agents| && r == run.(agents := r.agents, pending := r.pending)
            && forall j :: 0 <= j < |run.agents| ==> r.agents[j] == run.agents[j].(wake := r.agents[j].wake)
                                                     && (run.agents[j].wake ==> r.agents[j].wake)
    decreases |run.pending| - i
  {
    if i < |run.pending| {
      if i in undeliverable {
        DeliverKeeps(run, undeliverable, i + 1, still + [run.pending[i]]);
      } else {
        DeliverKeeps(run.(agents := Woken(run.agents, run.pending[i])), undeliverable, i + 1, still);
      }
    }
  }
}
