/** What one poll makes of every subtask, of the queue and of every agent, told
    from the run and the poll alone (sdf_core/coordinator.py, phases 1 to 6). */
module RunLaw {
  import opened Results
  import opened Verdicts
  import opened RunState
  import opened RunSafety
  import opened RunMail
  import opened RunOutcome

  // ---- Turns in flight -----------------------------------------------------

  ghost function InFlight(agents: seq<Agent>): set<nat> { set i: nat | i < |agents| && agents[i].inFlight }

  lemma {:induction false} BusyIs(agents: seq<Agent>)
    ensures Busy(agents) == |InFlight(agents)|
  {
    if agents == [] {
      assert InFlight(agents) == {};
    } else {
      var n, front := |agents| - 1, agents[..|agents| - 1];
      BusyIs(front);
      assert InFlight(agents) == if agents[n].inFlight then InFlight(front) + {n} else InFlight(front);
    }
  }

  // ---- Waking --------------------------------------------------------------

  // A decision holds the agent: one about everything, its own, or one about a
  // subtask it works on.
  ghost predicate Held(subtasks: seq<Subtask>, gate: seq<MaterialRequest>, i: nat) {
    exists g :: g in gate &&
      (|| g.scope == RunScope || g.requestedBy == i
       || (g.scope.SubtaskScope? && g.scope.key < |subtasks| && subtasks[g.scope.key].worker == i))
  }

  // What looking at an agent's inbox comes to.
  ghost predicate LookedAt(cfg: Config, a: Agent, mail: MailCheck, b: Agent) {
    && b.subtask == a.subtask
    && (b.wake <==> mail == Unreadable)
    && (b.inFlight <==> mail == HasMail && a.turns < cfg.maxTurns)
    && b.turns == a.turns + if b.inFlight then 1 else 0
  }

  // Agent `i` is looked at if it has a reason to, is in no turn, nothing holds it
  // and, after those before it, there is room for one more turn.
  ghost predicate Fate(cfg: Config, run: Run, p: Poll, after: seq<Agent>, i: nat)
    requires |after| == |run.agents| == |p.mail| && i < |after|
  {
    var a, room := run.agents[i], |InFlight(after[..i] + run.agents[i..])| < cfg.maxConcurrent;
    if a.wake && !a.inFlight && !Held(run.subtasks, p.gate, i) && room then LookedAt(cfg, a, p.mail[i], after[i])
    else after[i] == a
  }

  lemma HeldIs(run: Run, gate: seq<MaterialRequest>, i: nat)
    requires i < |run.agents|
    ensures AgentBlocked(run, gate, i) <==> Held(run.subtasks, gate, i)
  {
    if g :| g in gate && g.scope == RunScope { assert RunScope in BlockedScopes(gate); }
    if g :| g in gate && g.requestedBy == i { assert i in Askers(gate); }
    if g :| g in gate && g.scope.SubtaskScope? && g.scope.key < |run.subtasks|
            && run.subtasks[g.scope.key].worker == i
    {
      assert SubtaskBlocked(gate, g.scope.key);
    }
    if k :| 0 <= k < |run.subtasks| && run.subtasks[k].worker == i && SubtaskBlocked(gate, k) {
      var g :| g in gate && (g.scope == RunScope || g.scope == SubtaskScope(k));
      assert Held(run.subtasks, gate, i);
    }
  }

  lemma LookedAtIs(cfg: Config, a: Agent, mail: MailCheck)
    requires a.wake && !a.inFlight
    ensures LookedAt(cfg, a, mail, WakeOne(cfg, a, mail))
  {
    assert mail == HasMail || mail == NoMail || mail == Unreadable;
  }

  lemma SameFate(cfg: Config, run: Run, next: Run, p: Poll, after: seq<Agent>, i: nat, j: nat)
    requires |after| == |run.agents| == |p.mail| == |next.agents| && i < j < |after|
    requires next == run.(agents := run.agents[i := next.agents[i]])
    requires Fate(cfg, next, p, after, j)
    ensures Fate(cfg, run, p, after, j)
  {
    assert next.agents[j..] == run.agents[j..];
    assert next.agents[j] == run.agents[j];
  }

  lemma NoRoom(cfg: Config, run: Run, p: Poll, i: nat)
    requires |p.mail| == |run.agents| && i <= |run.agents| && Busy(run.agents) >= cfg.maxConcurrent
    ensures forall j :: i <= j < |run.agents| ==> Fate(cfg, run, p, run.agents, j)
  {
    hide Held, LookedAt;
    BusyIs(run.agents);
    forall j | i <= j < |run.agents| ensures Fate(cfg, run, p, run.agents, j) {
      assert run.agents[..j] + run.agents[j..] == run.agents;
    }
  }

  // Agent `i`, when its turn comes and there is room.
  lemma FateNow(cfg: Config, run: Run, p: Poll, after: seq<Agent>, i: nat)
    requires |after| == |run.agents| == |p.mail| && i < |after| && Busy(run.agents) < cfg.maxConcurrent
    requires after[..i] == run.agents[..i]
    requires after[i] == if !run.agents[i].wake || run.agents[i].inFlight || AgentBlocked(run, p.gate, i)
                         then run.agents[i] else WakeOne(cfg, run.agents[i], p.mail[i])
    ensures Fate(cfg, run, p, after, i)
  {
    hide AgentBlocked, WakeOne, LookedAt, Held, Busy;
    BusyIs(run.agents);
    assert after[..i] + run.agents[i..] == run.agents;
    HeldIs(run, p.gate, i);
    if run.agents[i].wake && !run.agents[i].inFlight { LookedAtIs(cfg, run.agents[i], p.mail[i]); }
  }

  ghost predicate FatesFrom(cfg: Config, run: Run, p: Poll, i: nat, after: seq<Agent>)
    requires |p.mail| == |run.agents| && i <= |run.agents|
  {
    && |after| == |run.agents| && after[..i] == run.agents[..i]
    && forall j :: i <= j < |run.agents| ==> Fate(cfg, run, p, after, j)
  }

  lemma FatesNext(cfg: Config, run: Run, p: Poll, i: nat, b: Agent, after: seq<Agent>)
    requires |p.mail| == |run.agents| && i < |run.agents| && Busy(run.agents) < cfg.maxConcurrent
    requires FatesFrom(cfg, run.(agents := run.agents[i := b]), p, i + 1, after)
    requires b == if !run.agents[i].wake || run.agents[i].inFlight || AgentBlocked(run, p.gate, i)
                  then run.agents[i] else WakeOne(cfg, run.agents[i], p.mail[i])
    ensures FatesFrom(cfg, run, p, i, after)
  {
    hide Fate, AgentBlocked, WakeOne, Busy;
    var next := run.(agents := run.agents[i := b]);
    assert after[i] == after[..i + 1][i] == next.agents[..i + 1][i] == b;
    assert after[..i] == after[..i + 1][..i] == next.agents[..i + 1][..i] == run.agents[..i];
    FateNow(cfg, run, p, after, i);
    forall j | i < j < |run.agents| ensures Fate(cfg, run, p, after, j) {
      SameFate(cfg, run, next, p, after, i, j);
    }
  }

  // Every agent from `i` on meets its fate.
  lemma {:induction false} WakeExact(cfg: Config, run: Run, p: Poll, i: nat, busy: nat)
    requires |p.mail| == |run.agents| && i <= |run.agents| && busy == Busy(run.agents)
    ensures FatesFrom(cfg, run, p, i, Wake(cfg, run, p, i, busy).agents)
    decreases |run.agents| - i
  {
    hide AgentBlocked, WakeOne, Fate, Busy;
    if i == |run.agents| {
    } else if busy >= cfg.maxConcurrent {
      NoRoom(cfg, run, p, i);
    } else {
      var a := run.agents[i];
      var b := if !a.wake || a.inFlight || AgentBlocked(run, p.gate, i) then a else WakeOne(cfg, a, p.mail[i]);
      var next := run.(agents := run.agents[i := b]);
      BusyUpdate(run.agents, i, b);
      assert b == a ==> next == run;
      WakeExact(cfg, next, p, i + 1, Busy(next.agents));
      Woke(cfg, a, p.mail[i]);
      FatesNext(cfg, run, p, i, b, Wake(cfg, next, p, i + 1, Busy(next.agents)).agents);
    }
  }

  lemma Woke(cfg: Config, a: Agent, mail: MailCheck)
    ensures !a.inFlight ==> Weight(WakeOne(cfg, a, mail)) == if WakeOne(cfg, a, mail).inFlight then 1 else 0
    ensures Weight(a) == if a.inFlight then 1 else 0
  {
  }

  // ---- Verifying -----------------------------------------------------------

  // A verdict is final, or opens another round while there are some left.
  ghost predicate JudgedAs(cfg: Config, sub: Subtask, v: Verdict, after: Subtask) {
    && after.worker == sub.worker && !after.verifyRequested
    && if v != Pass && sub.rounds < cfg.maxRounds
       then after.rounds == sub.rounds + 1 && after.verdict == None && !after.settled
       else after.rounds == sub.rounds && after.verdict == Some(v) && after.settled
  }

  // What an exception leaves: the verdict if there was one, the next round if it
  // was tried, and an open Attempt only if nothing settled it or it is the retry.
  ghost predicate LeftAs(cfg: Config, sub: Subtask, left: Leftover, after: Subtask) {
    && after.worker == sub.worker && !after.verifyRequested
    && var more := match left
                   case RetryRefused(v) => v != Pass && sub.rounds < cfg.maxRounds
                   case RetryBegun(v) => v != Pass && sub.rounds < cfg.maxRounds
                   case _ => false;
       && after.rounds == (if more then sub.rounds + 1 else sub.rounds)
       && after.verdict == (match left
                            case Untouched => sub.verdict
                            case SettledUnjudged => sub.verdict
                            case JudgedOnly(v) => Some(v)
                            case RetryRefused(v) => Some(v)
                            case RetryBegun(v) => Some(v))
       && (after.settled <==> sub.settled || !(left.Untouched? || (left.RetryBegun? && more)))
  }

  // One subtask that is due.
  ghost predicate CheckedAs(cfg: Config, sub: Subtask, check: CheckOutcome, after: Subtask) {
    if sub.settled then after == sub.(verifyRequested := false)
    else
      match check
      case Judged(v) => JudgedAs(cfg, sub, v, after)
      case Raises(left) => LeftAs(cfg, sub, left, after)
  }

  lemma VerifyOneIs(cfg: Config, sub: Subtask, check: CheckOutcome)
    ensures CheckedAs(cfg, sub, check, VerifyOne(cfg, sub, check).sub)
    ensures VerifyOne(cfg, sub, check).raised <==> sub.settled || check.Raises?
  {
  }

  // A check breaks off the phase: it raises, or the Attempt was settled before.
  ghost predicate Broken(subtasks: seq<Subtask>, p: Poll, i: nat)
    requires i < |subtasks| == |p.checks|
  {
    subtasks[i].settled || p.checks[i].Raises?
  }

  ghost predicate ReachedFrom(agents: seq<Agent>, subtasks: seq<Subtask>, p: Poll, k: nat, j: nat)
    requires WorkersExist(agents, subtasks) && j < |subtasks| == |p.checks|
  {
    && CanVerify(agents, subtasks, p.gate, j)
    && forall i :: k <= i < j && CanVerify(agents, subtasks, p.gate, i) ==> !Broken(subtasks, p, i)
  }

  // Worker and lead are told of every check that came to something.
  ghost function NewsFrom(agents: seq<Agent>, subtasks: seq<Subtask>, lead: nat, p: Poll, k: nat): seq<nat>
    requires WorkersExist(agents, subtasks) && k <= |subtasks| == |p.checks|
    decreases |subtasks| - k
  {
    if k == |subtasks| then []
    else if !CanVerify(agents, subtasks, p.gate, k) then NewsFrom(agents, subtasks, lead, p, k + 1)
    else if Broken(subtasks, p, k) then []
    else [subtasks[k].worker, lead] + NewsFrom(agents, subtasks, lead, p, k + 1)
  }

  lemma {:induction false} NewsElsewhere(agents: seq<Agent>, a: seq<Subtask>, b: seq<Subtask>, lead: nat, p: Poll,
                                         k: nat)
    requires WorkersExist(agents, a) && WorkersExist(agents, b) && k <= |a| == |b| == |p.checks| && a[k..] == b[k..]
    ensures NewsFrom(agents, a, lead, p, k) == NewsFrom(agents, b, lead, p, k)
    decreases |a| - k
  {
    if k < |a| {
      assert a[k] == a[k..][0] == b[k..][0] == b[k];
      assert a[k + 1..] == a[k..][1..] == b[k..][1..] == b[k + 1..];
      NewsElsewhere(agents, a, b, lead, p, k + 1);
    }
  }

  lemma {:induction false} VerifyMail(cfg: Config, agents: seq<Agent>, lead: nat, p: Poll, k: nat, v: Verification)
    requires WorkersExist(agents, v.subtasks) && k <= |v.subtasks| == |p.checks|
    ensures Verify(cfg, agents, lead, p, k, v).mail == v.mail + NewsFrom(agents, v.subtasks, lead, p, k)
    decreases |v.subtasks| - k
  {
    hide VerifyOne, SubtaskBlocked;
    if k < |v.subtasks| {
      VerifyOneIs(cfg, v.subtasks[k], p.checks[k]);
      if !CanVerify(agents, v.subtasks, p.gate, k) {
        VerifyMail(cfg, agents, lead, p, k + 1, v);
      } else if !Broken(v.subtasks, p, k) {
        var sub := v.subtasks[k];
        var next := v.(subtasks := v.subtasks[k := VerifyOne(cfg, sub, p.checks[k]).sub],
                       mail := v.mail + [sub.worker, lead], hostWorked := true);
        VerifyKeepsWorker(cfg, sub, p.checks[k]);
        VerifyMail(cfg, agents, lead, p, k + 1, next);
        NewsElsewhere(agents, v.subtasks, next.subtasks, lead, p, k + 1);
      }
    }
  }

  lemma VerifyKeepsWorker(cfg: Config, sub: Subtask, check: CheckOutcome)
    ensures VerifyOne(cfg, sub, check).sub.worker == sub.worker
  {
  }

  // Subtask `j`, when the phase has come to `k`.
  lemma {:induction false} VerifyExact(cfg: Config, agents: seq<Agent>, lead: nat, p: Poll, k: nat, v: Verification,
                                       j: nat)
    requires WorkersExist(agents, v.subtasks) && k <= j < |v.subtasks| == |p.checks|
    ensures var r := Verify(cfg, agents, lead, p, k, v);
            r.subtasks[j] == if ReachedFrom(agents, v.subtasks, p, k, j)
                             then VerifyOne(cfg, v.subtasks[j], p.checks[j]).sub else v.subtasks[j]
    decreases |v.subtasks| - k
  {
    hide VerifyOne, SubtaskBlocked;
    VerifyOneIs(cfg, v.subtasks[k], p.checks[k]);
    if !CanVerify(agents, v.subtasks, p.gate, k) {
      if k < j {
        VerifyExact(cfg, agents, lead, p, k + 1, v, j);
      } else {
        VerifyAtStart(cfg, agents, lead, p, k + 1, v, j);
      }
    } else if !Broken(v.subtasks, p, k) {
      var sub := v.subtasks[k];
      var next := v.(subtasks := v.subtasks[k := VerifyOne(cfg, sub, p.checks[k]).sub],
                     mail := v.mail + [sub.worker, lead], hostWorked := true);
      VerifyKeepsWorker(cfg, sub, p.checks[k]);
      if k < j {
        VerifyExact(cfg, agents, lead, p, k + 1, next, j);
        SameReach(agents, v.subtasks, next.subtasks, p, k, j);
      } else {
        VerifyAtStart(cfg, agents, lead, p, k + 1, next, j);
      }
    }
  }

  lemma SameReach(agents: seq<Agent>, a: seq<Subtask>, b: seq<Subtask>, p: Poll, k: nat, j: nat)
    requires WorkersExist(agents, a) && WorkersExist(agents, b) && k < j < |a| == |b| == |p.checks|
    requires forall i :: k < i < |a| ==> a[i] == b[i]
    requires CanVerify(agents, a, p.gate, k) && !Broken(a, p, k)
    ensures ReachedFrom(agents, a, p, k, j) <==> ReachedFrom(agents, b, p, k + 1, j)
  {
    assert forall i :: k < i < |a| ==> (CanVerify(agents, a, p.gate, i) <==> CanVerify(agents, b, p.gate, i));
    assert forall i :: k < i < |a| ==> (Broken(a, p, i) <==> Broken(b, p, i));
  }

  // A subtask the phase has passed stays as it is.
  lemma {:induction false} VerifyAtStart(cfg: Config, agents: seq<Agent>, lead: nat, p: Poll, k: nat, v: Verification,
                                         j: nat)
    requires WorkersExist(agents, v.subtasks) && j < k <= |v.subtasks| == |p.checks|
    ensures Verify(cfg, agents, lead, p, k, v).subtasks[j] == v.subtasks[j]
    decreases |v.subtasks| - k
  {
    hide VerifyOne, SubtaskBlocked;
    if k < |v.subtasks| {
      if !CanVerify(agents, v.subtasks, p.gate, k) {
        VerifyAtStart(cfg, agents, lead, p, k + 1, v, j);
      } else if !VerifyOne(cfg, v.subtasks[k], p.checks[k]).raised {
        VerifyKeepsWorker(cfg, v.subtasks[k], p.checks[k]);
        VerifyAtStart(cfg, agents, lead, p, k + 1,
                      v.(subtasks := v.subtasks[k := VerifyOne(cfg, v.subtasks[k], p.checks[k]).sub],
                         mail := v.mail + [v.subtasks[k].worker, lead], hostWorked := true), j);
      }
    }
  }

  // ---- The poll ------------------------------------------------------------

  // The verification phase comes to subtask `k`: it is due and no earlier one
  // that is due breaks the phase off.
  ghost predicate Reached(before: Run, p: Poll, k: nat)
    requires Shaped(before) && Fits(before, p) && k < |before.subtasks|
  {
    && Due(before, p, k)
    && forall i: nat :: i < k && Due(before, p, i) ==> !(before.subtasks[i].settled || p.checks[i].Raises?)
  }

  // What the poll makes of subtask `k`, but for a request the quiet may add.
  ghost predicate SubtaskLaw(cfg: Config, before: Run, p: Poll, k: nat, after: Subtask)
    requires Shaped(before) && Fits(before, p) && k < |before.subtasks|
  {
    var sub := before.subtasks[k];
    if Reached(before, p, k) then CheckedAs(cfg, sub, p.checks[k], after)
    else after == sub.(verifyRequested := sub.verifyRequested || AsksIn(before.agents, p.relayed, k))
  }

  ghost function NewsOf(before: Run, p: Poll, k: nat): seq<nat>
    requires Shaped(before) && Fits(before, p) && k <= |before.subtasks|
    decreases |before.subtasks| - k
  {
    if k == |before.subtasks| then []
    else if !Due(before, p, k) then NewsOf(before, p, k + 1)
    else if before.subtasks[k].settled || p.checks[k].Raises? then []
    else [before.subtasks[k].worker, before.lead] + NewsOf(before, p, k + 1)
  }

  // Everything to deliver: what was left, what agents sent, resolutions, verdicts
  // and, once, that all is verified.
  ghost function Queue(before: Run, p: Poll, passed: bool): seq<nat>
    requires Shaped(before) && Fits(before, p)
  {
    before.pending + AllMail(p.relayed) + AskersOf(Fresh(before.delivered, |before.agents|, p.resolved))
    + NewsOf(before, p, 0) + if passed && !before.allPassNotified then [before.lead] else []
  }

  // Agent `i` when the poll has ended its turn, if it is over, and delivered.
  ghost predicate Told(before: Run, p: Poll, queue: seq<nat>, i: nat, a: Agent)
    requires i < |before.agents|
  {
    var was := before.agents[i];
    && a.subtask == was.subtask && a.turns == was.turns
    && (a.inFlight <==> was.inFlight && i !in p.finished)
    && (a.wake <==> was.wake || (was.inFlight && i in p.finished) || GotMail(queue, p.undeliverable, 0, i))
  }

  ghost predicate Kept(queue: seq<nat>, undeliverable: set<nat>, pending: seq<nat>, kept: seq<nat>) {
    && Rising(kept) && (forall n :: n in kept <==> 0 <= n < |queue| && n in undeliverable)
    && pending == At(queue, kept)
  }

  // The run as host verification finds it.
  ghost predicate Taken(before: Run, p: Poll, taken: Run) {
    && |taken.agents| == |before.agents| && |taken.subtasks| == |before.subtasks|
    && taken.pending
       == before.pending + AllMail(p.relayed) + AskersOf(Fresh(before.delivered, |before.agents|, p.resolved))
    && (taken.leadReported <==> before.leadReported || LeadDoneIn(before.agents, p.relayed))
    && taken.lead == before.lead && taken.allPassNotified == before.allPassNotified
    && forall i :: 0 <= i < |before.agents| ==>
         && taken.agents[i].subtask == before.agents[i].subtask && taken.agents[i].turns == before.agents[i].turns
         && (taken.agents[i].inFlight <==> before.agents[i].inFlight && i !in p.finished)
         && (taken.agents[i].wake <==> before.agents[i].wake || (before.agents[i].inFlight && i in p.finished))
  }

  lemma TakenIs(before: Run, p: Poll)
    requires Shaped(before) && Fits(before, p)
    ensures Taken(before, p, Intake(Tick(before, p.now), p))
  {
    hide Shaped, Fits, Relay, Announce, AskersOf, Fresh, AllMail, AsksIn, LeadDone;
    var ticked := Tick(before, p.now);
    var finished := ticked.(agents := FinishTurns(ticked.agents, p.finished));
    ShapedThroughout(before, p);
    IntakeFrame(ticked, p);
    RelayExact(finished, p.relayed);
    RelayFrame(finished, p.relayed);
    AnnounceIs(Relay(finished, p.relayed), p.resolved);
    SameLeads(before.agents, finished.agents, p.relayed);
  }

  lemma SameLeads(a: seq<Agent>, b: seq<Agent>, rs: seq<Relayed>)
    requires |a| == |b| && forall i :: 0 <= i < |a| ==> a[i].subtask == b[i].subtask
    ensures LeadDoneIn(a, rs) <==> LeadDoneIn(b, rs)
  {
    assert forall r :: r in rs ==> (LeadDone(a, r) <==> LeadDone(b, r));
  }

  lemma {:induction false} NewsIs(before: Run, p: Poll, taken: Run, k: nat)
    requires Shaped(before) && Fits(before, p) && taken == Intake(Tick(before, p.now), p) && k <= |before.subtasks|
    ensures NewsFrom(taken.agents, taken.subtasks, taken.lead, p, k) == NewsOf(before, p, k)
    decreases |before.subtasks| - k
  {
    hide Due, CanVerify, Intake, Shaped;
    ShapedThroughout(before, p);
    TakenIs(before, p);
    if k < |before.subtasks| {
      WorkerThere(before, k);
      TakenSubtask(before, p, k);
      DueIs(before, p, k);
      NewsIs(before, p, taken, k + 1);
    }
  }

  lemma ReachedIs(before: Run, p: Poll, taken: Run, k: nat)
    requires Shaped(before) && Fits(before, p) && taken == Intake(Tick(before, p.now), p) && k < |before.subtasks|
    ensures ReachedFrom(taken.agents, taken.subtasks, p, 0, k) <==> Reached(before, p, k)
  {
    hide Due, CanVerify, Intake, Shaped;
    ShapedThroughout(before, p);
    forall i: nat | i < |before.subtasks|
      ensures CanVerify(taken.agents, taken.subtasks, p.gate, i) <==> Due(before, p, i)
      ensures Broken(taken.subtasks, p, i) <==> before.subtasks[i].settled || p.checks[i].Raises?
    {
      WorkerThere(before, i);
      TakenSubtask(before, p, i);
      DueIs(before, p, i);
    }
  }

  // The subtasks after host verification.
  lemma VerifiedIs(cfg: Config, before: Run, p: Poll, k: nat)
    requires Shaped(before) && Fits(before, p) && k < |before.subtasks|
    ensures var taken := Intake(Tick(before, p.now), p);
            SubtaskLaw(cfg, before, p, k, HostVerification(cfg, taken, p).subtasks[k])
  {
    hide Due, CanVerify, Intake, Shaped, Verify, VerifyOne, Reached, AsksIn, ReachedFrom;
    ShapedThroughout(before, p);
    WorkerThere(before, k);
    var taken := Intake(Tick(before, p.now), p);
    TakenSubtask(before, p, k);
    ReachedIs(before, p, taken, k);
    VerifyExact(cfg, taken.agents, taken.lead, p, 0, Verification(taken.subtasks, taken.pending, false, false), k);
    VerifyOneIs(cfg, taken.subtasks[k], p.checks[k]);
  }

  // What the poll leaves of subtask `k`; only a quiet run's own request may come
  // on top.
  ghost predicate SubtaskLeft(cfg: Config, before: Run, p: Poll, k: nat, status: Status, after: Subtask)
    requires Shaped(before) && Fits(before, p) && k < |before.subtasks|
  {
    exists m :: SubtaskLaw(cfg, before, p, k, m) && after == m.(verifyRequested := after.verifyRequested)
                && (status != Running(false) ==> after == m)
  }

  // The phases of a poll that nothing stops before host verification.
  lemma Phases(cfg: Config, before: Run, p: Poll, taken: Run, v: Verification)
    requires Shaped(before) && Fits(before, p) && !Stopped(cfg, before, p)
    requires taken == Intake(Tick(before, p.now), p) && WorkersExist(taken.agents, taken.subtasks)
    requires |taken.subtasks| == |p.checks| && v == HostVerification(cfg, taken, p)
    ensures |taken.agents| == |before.agents| == |p.mail| && |v.subtasks| == |before.subtasks|
    ensures forall k :: 0 <= k < |v.subtasks| ==> v.subtasks[k].worker == before.subtasks[k].worker
    ensures Advance(cfg, before, p)
         == if v.raised then Step(WithVerification(taken, v), Ended(Failed(Exception)))
            else Decide(cfg, Outflow(cfg, WithVerification(taken, v), p), p, v.hostWorked)
  {
    hide Intake, Outflow, Decide, Shaped;
    ShapedThroughout(before, p);
    IntakeFrame(Tick(before, p.now), p);
  }

  lemma TakenSizes(before: Run, p: Poll)
    requires Shaped(before) && Fits(before, p)
    ensures var taken := Intake(Tick(before, p.now), p);
            WorkersExist(taken.agents, taken.subtasks) && |taken.subtasks| == |p.checks| == |before.subtasks|
  {
    hide Intake;
  }

  lemma SubtaskMeetsLaw(cfg: Config, before: Run, p: Poll, k: nat)
    requires Shaped(before) && Fits(before, p) && k < |before.subtasks| && !Stopped(cfg, before, p)
    ensures var step := Advance(cfg, before, p);
            k < |step.run.subtasks| && SubtaskLeft(cfg, before, p, k, step.status, step.run.subtasks[k])
  {
    hide Intake, HostVerification, Outflow, Decide, Shaped, Fits, SubtaskLaw, Advance, Stopped;
    ShapedThroughout(before, p);
    TakenSizes(before, p);
    var taken := Intake(Tick(before, p.now), p);
    var v := HostVerification(cfg, taken, p);
    Phases(cfg, before, p, taken, v);
    VerifiedIs(cfg, before, p, k);
    if !v.raised {
      var left := Outflow(cfg, WithVerification(taken, v), p);
      OutflowFrame(cfg, WithVerification(taken, v), p);
      DecideFrame(cfg, left, p, v.hostWorked);
      OnlyTheQuietAsks(cfg, left, p, v.hostWorked, k);
    }
    assert SubtaskLaw(cfg, before, p, k, v.subtasks[k]);
  }

  lemma OnlyTheQuietAsks(cfg: Config, run: Run, p: Poll, worked: bool, k: nat)
    requires k < |run.subtasks|
    ensures var step := Decide(cfg, run, p, worked);
            |step.run.subtasks| == |run.subtasks|
            && (step.status != Running(false) ==> step.run.subtasks[k] == run.subtasks[k])
  {
    hide AllPass, Active, ExhaustedRun, Unverified, AnyInFlight;
  }

  // The agents and the queue of a poll that concludes: `mid` are the agents when
  // all is delivered, `kept` the places of the mail that is not.
  ghost predicate AgentsAndMail(cfg: Config, before: Run, p: Poll, after: Run, mid: seq<Agent>, kept: seq<nat>)
    requires Shaped(before) && Fits(before, p)
  {
    var queue := Queue(before, p, Passed(after));
    && |mid| == |after.agents| == |before.agents| == |p.mail|
    && (forall i :: 0 <= i < |mid| ==> Told(before, p, queue, i, mid[i]))
    && (forall i :: 0 <= i < |mid| ==> Fate(cfg, before.(agents := mid), p, after.agents, i))
    && Kept(queue, p.undeliverable, after.pending, kept)
  }

  lemma OutflowExact(cfg: Config, run: Run, p: Poll) returns (mid: seq<Agent>, kept: seq<nat>)
    requires |p.mail| == |run.agents|
    ensures var queue := run.pending + if Passed(run) && !run.allPassNotified then [run.lead] else [];
            var r := Outflow(cfg, run, p);
            && |mid| == |r.agents| == |run.agents| && Kept(queue, p.undeliverable, r.pending, kept)
            && (r.allPassNotified <==> run.allPassNotified || Passed(run))
            && (forall i :: 0 <= i < |mid| ==>
                  mid[i] == run.agents[i].(wake := run.agents[i].wake || GotMail(queue, p.undeliverable, 0, i)))
            && forall i :: 0 <= i < |mid| ==> Fate(cfg, run.(agents := mid), p, r.agents, i)
  {
    hide Fate, Wake, Deliver, Busy, GotMail;
    DoneIs(cfg, run);
    var notified := NotifyAllPass(run);
    DeliverKeeps(notified, p.undeliverable, 0, []);
    kept := DeliverExact(notified, p.undeliverable);
    var delivered := Deliver(notified, p.undeliverable, 0, []);
    mid := delivered.agents;
    WakeExact(cfg, delivered, p, 0, Busy(delivered.agents));
    WakeFrame(cfg, delivered, p, 0, Busy(delivered.agents));
    assert run.pending + [] == run.pending;
    var r := Outflow(cfg, run, p);
    forall i | 0 <= i < |mid| ensures Fate(cfg, run.(agents := mid), p, r.agents, i) {
      SameHolds(cfg, delivered, run.(agents := mid), p, r.agents, i);
    }
  }

  lemma SameHolds(cfg: Config, a: Run, b: Run, p: Poll, after: seq<Agent>, i: nat)
    requires a.agents == b.agents && |a.subtasks| == |b.subtasks| && |after| == |a.agents| == |p.mail| && i < |after|
    requires forall k :: 0 <= k < |a.subtasks| ==> a.subtasks[k].worker == b.subtasks[k].worker
    ensures Fate(cfg, a, p, after, i) <==> Fate(cfg, b, p, after, i)
  {
    hide LookedAt;
    assert Held(a.subtasks, p.gate, i) <==> Held(b.subtasks, p.gate, i);
  }

  // What a concluding poll leaves of the agents, the queue and the notices.
  lemma AgentsMeetLaw(cfg: Config, before: Run, p: Poll) returns (mid: seq<Agent>, kept: seq<nat>)
    requires Shaped(before) && Fits(before, p) && Concludes(cfg, before, p)
    ensures AgentsAndMail(cfg, before, p, Advance(cfg, before, p).run, mid, kept)
    ensures NoticesLeft(before, p, Advance(cfg, before, p).run)
  {
    hide Intake, HostVerification, Outflow, Decide, Shaped, Fits, Advance, Stopped, Breaks, AgentsAndMail, Told;
    ShapedThroughout(before, p);
    TakenSizes(before, p);
    var taken := Intake(Tick(before, p.now), p);
    var v := HostVerification(cfg, taken, p);
    HostWorkIs(cfg, before, p);
    Phases(cfg, before, p, taken, v);
    VerifyMailIs(cfg, before, p, taken);
    TakenIs(before, p);
    mid, kept := OutflowExact(cfg, WithVerification(taken, v), p);
    OutflowFrame(cfg, WithVerification(taken, v), p);
    DecideFrame(cfg, Outflow(cfg, WithVerification(taken, v), p), p, v.hostWorked);
    Assembled(cfg, before, p, taken, v, mid, kept, Advance(cfg, before, p).run);
  }

  ghost predicate NoticesLeft(before: Run, p: Poll, after: Run) {
    && (after.allPassNotified <==> before.allPassNotified || Passed(after))
    && (after.leadReported <==> before.leadReported || LeadDoneIn(before.agents, p.relayed))
  }

  lemma Assembled(cfg: Config, before: Run, p: Poll, taken: Run, v: Verification, mid: seq<Agent>, kept: seq<nat>,
                  after: Run)
    requires Shaped(before) && Fits(before, p) && Taken(before, p, taken)
    requires v.mail == taken.pending + NewsOf(before, p, 0)
    requires |v.subtasks| == |before.subtasks| == |after.subtasks|
    requires forall k :: 0 <= k < |v.subtasks| ==>
               v.subtasks[k].worker == before.subtasks[k].worker && after.subtasks[k].verdict == v.subtasks[k].verdict
    requires var run := WithVerification(taken, v);
             var queue := run.pending + if Passed(run) && !run.allPassNotified then [run.lead] else [];
             && |mid| == |after.agents| == |run.agents| == |p.mail| && Kept(queue, p.undeliverable, after.pending, kept)
             && (after.allPassNotified <==> run.allPassNotified || Passed(run))
             && after.leadReported == run.leadReported
             && (forall i :: 0 <= i < |mid| ==>
                   mid[i] == run.agents[i].(wake := run.agents[i].wake || GotMail(queue, p.undeliverable, 0, i)))
             && forall i :: 0 <= i < |mid| ==> Fate(cfg, run.(agents := mid), p, after.agents, i)
    ensures AgentsAndMail(cfg, before, p, after, mid, kept) && NoticesLeft(before, p, after)
  {
    hide Shaped, Fits, Fate, GotMail, AllMail, AskersOf, Fresh, LeadDoneIn, Kept, NewsOf;
    var run := WithVerification(taken, v);
    SamePassed(run, after);
    forall i | 0 <= i < |mid| ensures Fate(cfg, before.(agents := mid), p, after.agents, i) {
      SameHolds(cfg, run.(agents := mid), before.(agents := mid), p, after.agents, i);
    }
  }

  lemma SamePassed(a: Run, b: Run)
    requires |a.subtasks| == |b.subtasks|
    requires forall k :: 0 <= k < |a.subtasks| ==> a.subtasks[k].verdict == b.subtasks[k].verdict
    ensures Passed(a) <==> Passed(b)
  {
  }

  lemma VerifyMailIs(cfg: Config, before: Run, p: Poll, taken: Run)
    requires Shaped(before) && Fits(before, p) && taken == Intake(Tick(before, p.now), p)
    ensures HostVerification(cfg, taken, p).mail == taken.pending + NewsOf(before, p, 0)
  {
    hide Intake, Verify, NewsFrom, NewsOf, Shaped;
    ShapedThroughout(before, p);
    IntakeFrame(Tick(before, p.now), p);
    VerifyMail(cfg, taken.agents, taken.lead, p, 0, Verification(taken.subtasks, taken.pending, false, false));
    NewsIs(before, p, taken, 0);
  }
}
