/** What the loop relays, announces and delivers: nothing twice, nothing lost and
    nothing out of order (sdf_core/coordinator.py, phases 2, 3 and 5). */
module RunMail {
  import opened Results
  import opened Verdicts
  import opened RunState
  import opened RunSafety
  import opened RunProperties

  // ---- Relaying outboxes ---------------------------------------------------

  // The deliveries one relayed envelope leads to.
  function MailOf(r: Relayed): seq<nat> {
    match r
    case Refused(a) => [a]
    case Accepted(a, recipients, _, byRule) => recipients + (if byRule then [a] else [])
  }

  function AllMail(rs: seq<Relayed>): seq<nat> { if rs == [] then [] else MailOf(rs[0]) + AllMail(rs[1..]) }

  // Some worker's report asks for host verification of subtask `k`.
  predicate Asks(agents: seq<Agent>, r: Relayed, k: nat) {
    && r.Accepted? && r.agent < |agents| && agents[r.agent].subtask == Some(k)
    && (r.report == Some(Done) || r.report == Some(GaveUp))
  }

  predicate AsksIn(agents: seq<Agent>, rs: seq<Relayed>, k: nat) { exists r :: r in rs && Asks(agents, r, k) }

  predicate LeadDone(agents: seq<Agent>, r: Relayed) {
    r.Accepted? && r.agent < |agents| && agents[r.agent].IsLead() && r.report == Some(Done)
  }

  predicate LeadDoneIn(agents: seq<Agent>, rs: seq<Relayed>) { exists r :: r in rs && LeadDone(agents, r) }

  lemma HeadOrTail(agents: seq<Agent>, rs: seq<Relayed>)
    requires rs != []
    ensures forall k :: AsksIn(agents, rs, k) <==> Asks(agents, rs[0], k) || AsksIn(agents, rs[1..], k)
    ensures LeadDoneIn(agents, rs) <==> LeadDone(agents, rs[0]) || LeadDoneIn(agents, rs[1..])
  {
    assert forall r :: r in rs <==> r == rs[0] || r in rs[1..];
  }

  lemma RelayOneMail(run: Run, e: Relayed)
    requires Shaped(run) && e.agent < |run.agents|
    ensures RelayOne(run, e).pending == run.pending + MailOf(e)
  {
  }

  lemma MailJoins(pending: seq<nat>, rs: seq<Relayed>)
    requires rs != []
    ensures pending + MailOf(rs[0]) + AllMail(rs[1..]) == pending + AllMail(rs)
  {
  }

  lemma {:induction false} RelayMail(run: Run, rs: seq<Relayed>)
    requires Shaped(run) && forall r :: r in rs ==> r.agent < |run.agents|
    ensures Relay(run, rs).pending == run.pending + AllMail(rs)
    decreases rs
  {
    hide RelayOne, MailOf, Shaped;
    if rs == [] {
      assert run.pending + [] == run.pending;
    } else {
      hide AllMail;
      assert forall r :: r in rs[1..] ==> r in rs;
      RelayOneMail(run, rs[0]);
      RelayMail(RelayOne(run, rs[0]), rs[1..]);
      MailJoins(run.pending, rs);
    }
  }

  lemma RelayOneFlags(run: Run, e: Relayed, k: nat)
    requires Shaped(run) && e.agent < |run.agents| && k < |run.subtasks|
    ensures var sub := run.subtasks[k];
            RelayOne(run, e).subtasks[k] == sub.(verifyRequested := sub.verifyRequested || Asks(run.agents, e, k))
  {
  }

  lemma {:induction false} RelayFlags(run: Run, rs: seq<Relayed>, k: nat)
    requires Shaped(run) && (forall r :: r in rs ==> r.agent < |run.agents|) && k < |run.subtasks|
    ensures var sub := run.subtasks[k];
            Relay(run, rs).subtasks[k] == sub.(verifyRequested := sub.verifyRequested || AsksIn(run.agents, rs, k))
    decreases rs
  {
    hide RelayOne, Asks, Shaped;
    if rs != [] {
      hide AsksIn;
      assert forall r :: r in rs[1..] ==> r in rs;
      HeadOrTail(run.agents, rs);
      RelayOneFlags(run, rs[0], k);
      RelayFlags(RelayOne(run, rs[0]), rs[1..], k);
    }
  }

  lemma {:induction false} RelayLead(run: Run, rs: seq<Relayed>)
    requires Shaped(run) && forall r :: r in rs ==> r.agent < |run.agents|
    ensures Relay(run, rs).leadReported <==> run.leadReported || LeadDoneIn(run.agents, rs)
    decreases rs
  {
    if rs != [] {
      assert forall r :: r in rs[1..] ==> r in rs;
      HeadOrTail(run.agents, rs);
      RelayLead(RelayOne(run, rs[0]), rs[1..]);
    }
  }

  // Mail is queued envelope by envelope; verification is requested exactly for
  // the subtasks somebody reported on, and the lead's report is noted.
  lemma RelayExact(run: Run, rs: seq<Relayed>)
    requires Shaped(run) && forall r :: r in rs ==> r.agent < |run.agents|
    ensures var r := Relay(run, rs);
            && r.pending == run.pending + AllMail(rs)
            && |r.subtasks| == |run.subtasks|
            && forall k :: 0 <= k < |run.subtasks| ==>
                 && r.subtasks[k] == run.subtasks[k].(verifyRequested := r.subtasks[k].verifyRequested)
                 && (r.subtasks[k].verifyRequested <==> run.subtasks[k].verifyRequested || AsksIn(run.agents, rs, k))
    ensures Relay(run, rs).leadReported <==> run.leadReported || LeadDoneIn(run.agents, rs)
  {
    hide AsksIn, LeadDoneIn, Shaped;
    RelayMail(run, rs);
    RelayLead(run, rs);
    forall k | 0 <= k < |run.subtasks|
      ensures var sub := run.subtasks[k];
              Relay(run, rs).subtasks[k] == sub.(verifyRequested := sub.verifyRequested || AsksIn(run.agents, rs, k))
    {
      RelayFlags(run, rs, k);
    }
  }

  // ---- Announcing decisions ------------------------------------------------

  // The resolutions that are announced, in order: the first of each request
  // that was not announced before and whose asker is an agent of the run.
  function Fresh(delivered: set<nat>, agents: nat, ds: seq<Resolution>): seq<Resolution>
    decreases ds
  {
    if ds == [] then []
    else if ds[0].request in delivered || ds[0].requestedBy >= agents then Fresh(delivered, agents, ds[1..])
    else [ds[0]] + Fresh(delivered + {ds[0].request}, agents, ds[1..])
  }

  function Ids(ds: seq<Resolution>): set<nat> { set d | d in ds :: d.request }

  function AskersOf(ds: seq<Resolution>): seq<nat> {
    seq(|ds|, i requires 0 <= i < |ds| => ds[i].requestedBy)
  }

  ghost predicate OncePerRequest(ds: seq<Resolution>) {
    forall i, j :: 0 <= i < j < |ds| ==> ds[i].request != ds[j].request
  }

  lemma IdsOf(d: Resolution, rest: seq<Resolution>)
    ensures Ids([d] + rest) == {d.request} + Ids(rest)
  {
    assert d in [d] + rest;
  }

  lemma IdsMember(ds: seq<Resolution>, i: nat)
    requires i < |ds|
    ensures ds[i].request in Ids(ds)
  {
    assert ds[i] in ds;
  }

  lemma OneMore(d: Resolution, rest: seq<Resolution>)
    requires OncePerRequest(rest) && d.request !in Ids(rest)
    ensures OncePerRequest([d] + rest)
  {
    forall j | 0 <= j < |rest| ensures rest[j].request != d.request {
      IdsMember(rest, j);
    }
  }

  // What is announced is resolved, was asked by an agent and is news.
  lemma {:induction false} FreshIs(delivered: set<nat>, agents: nat, ds: seq<Resolution>)
    ensures var f := Fresh(delivered, agents, ds);
            && OncePerRequest(f) && Ids(f) !! delivered
            && forall d :: d in f ==> d in ds && d.requestedBy < agents
    decreases ds
  {
    hide Ids, OncePerRequest;
    if ds == [] {
      NoIds();
    } else {
      if ds[0].request in delivered || ds[0].requestedBy >= agents {
        FreshIs(delivered, agents, ds[1..]);
      } else {
        var rest := Fresh(delivered + {ds[0].request}, agents, ds[1..]);
        FreshIs(delivered + {ds[0].request}, agents, ds[1..]);
        IdsOf(ds[0], rest);
        OneMore(ds[0], rest);
      }
    }
  }

  lemma NoIds()
    ensures Ids([]) == {} && OncePerRequest([])
  {
  }

  // And all news is announced.
  lemma {:induction false} FreshIsAll(delivered: set<nat>, agents: nat, ds: seq<Resolution>, d: Resolution)
    requires d in ds && d.requestedBy < agents
    ensures d.request in delivered + Ids(Fresh(delivered, agents, ds))
    decreases ds
  {
    hide Ids;
    if ds[0].request in delivered || ds[0].requestedBy >= agents {
      if d != ds[0] { FreshIsAll(delivered, agents, ds[1..], d); }
    } else {
      IdsOf(ds[0], Fresh(delivered + {ds[0].request}, agents, ds[1..]));
      if d != ds[0] { FreshIsAll(delivered + {ds[0].request}, agents, ds[1..], d); }
    }
  }

  lemma FreshNext(run: Run, d: Resolution, rest: seq<Resolution>)
    requires d.request !in run.delivered && d.requestedBy < |run.agents|
    ensures var next := AnnounceOne(run, d);
            && next.delivered + Ids(rest) == run.delivered + Ids([d] + rest)
            && next.pending + AskersOf(rest) == run.pending + AskersOf([d] + rest)
  {
    assert Ids([d] + rest) == {d.request} + Ids(rest) by { assert d in [d] + rest; }
    assert AskersOf([d] + rest) == [d.requestedBy] + AskersOf(rest);
  }

  lemma {:induction false} AnnounceIs(run: Run, ds: seq<Resolution>)
    ensures var f := Fresh(run.delivered, |run.agents|, ds);
            Announce(run, ds) == run.(delivered := run.delivered + Ids(f), pending := run.pending + AskersOf(f))
    decreases ds
  {
    hide Ids, AskersOf;
    if ds == [] {
      NobodyToTell(run);
    } else {
      AnnounceIs(AnnounceOne(run, ds[0]), ds[1..]);
      if ds[0].request !in run.delivered && ds[0].requestedBy < |run.agents| {
        FreshNext(run, ds[0], Fresh(run.delivered + {ds[0].request}, |run.agents|, ds[1..]));
      }
    }
  }

  lemma NobodyToTell(run: Run)
    ensures run.delivered + Ids([]) == run.delivered && run.pending + AskersOf([]) == run.pending
  {
  }

  // What poll `p` announces; a poll that a cap stops takes nothing in.
  function AnnouncedIn(cfg: Config, run: Run, p: Poll): seq<Resolution> {
    if Capped(cfg, Tick(run, p.now), p).Some? then [] else Fresh(run.delivered, |run.agents|, p.resolved)
  }

  lemma WorkKeepsDelivered(cfg: Config, taken: Run, p: Poll)
    requires WorkersExist(taken.agents, taken.subtasks) && |p.checks| == |taken.subtasks| && |p.mail| == |taken.agents|
    ensures Work(cfg, taken, p).run.delivered == taken.delivered
  {
    hide Verify, Outflow, Decide;
    var v := HostVerification(cfg, taken, p);
    if !v.raised {
      OutflowFrame(cfg, WithVerification(taken, v), p);
      DecideFrame(cfg, Outflow(cfg, WithVerification(taken, v), p), p, v.hostWorked);
    }
  }

  lemma RelayKeepsDelivered(run: Run, rs: seq<Relayed>)
    requires Shaped(run) && forall r :: r in rs ==> r.agent < |run.agents|
    ensures Relay(run, rs).delivered == run.delivered && |Relay(run, rs).agents| == |run.agents|
  {
    RelayFrame(run, rs);
  }

  lemma PollAnnounces(cfg: Config, run: Run, p: Poll)
    requires Shaped(run) && Fits(run, p)
    ensures Advance(cfg, run, p).run.delivered == run.delivered + Ids(AnnouncedIn(cfg, run, p))
  {
    hide Work, Relay, Announce;
    var ticked := Tick(run, p.now);
    if Capped(cfg, ticked, p).None? {
      var finished := ticked.(agents := FinishTurns(ticked.agents, p.finished));
      RelayKeepsDelivered(finished, p.relayed);
      AnnounceIs(Relay(finished, p.relayed), p.resolved);
      WorkKeepsDelivered(cfg, Intake(ticked, p), p);
    } else {
      assert Ids([]) == {};
    }
  }

  // Everything the first `n` polls of a run announced.
  function AllAnnounced(cfg: Config, t: Trace, n: nat): seq<Resolution>
    requires n <= |t.polls| && n <= |t.runs|
  {
    if n == 0 then [] else AllAnnounced(cfg, t, n - 1) + AnnouncedIn(cfg, t.runs[n - 1], t.polls[n - 1])
  }

  lemma JoinOnce(a: seq<Resolution>, b: seq<Resolution>)
    requires OncePerRequest(a) && OncePerRequest(b) && Ids(a) !! Ids(b)
    ensures OncePerRequest(a + b) && Ids(a + b) == Ids(a) + Ids(b)
  {
    assert forall d :: d in a + b <==> d in a || d in b;
    forall i, j | 0 <= i < |a| && 0 <= j < |b| ensures a[i].request != b[j].request {
      IdsMember(a, i);
      IdsMember(b, j);
    }
  }

  // Over a whole run no request is announced twice, and `delivered` holds
  // exactly the requests that were.
  lemma {:induction false} AnnouncedOnce(cfg: Config, t: Trace, n: nat)
    requires IsRun(cfg, t) && n <= |t.polls|
    ensures OncePerRequest(AllAnnounced(cfg, t, n)) && Ids(AllAnnounced(cfg, t, n)) == t.runs[n].delivered
  {
    hide Advance, Shaped, Fits;
    if n == 0 {
      assert t.runs[0].delivered == {};
    } else {
      AnnouncedOnce(cfg, t, n - 1);
      assert StepOk(cfg, t, n - 1);
      PollAnnounces(cfg, t.runs[n - 1], t.polls[n - 1]);
      FreshIs(t.runs[n - 1].delivered, |t.runs[n - 1].agents|, t.polls[n - 1].resolved);
      JoinOnce(AllAnnounced(cfg, t, n - 1), AnnouncedIn(cfg, t.runs[n - 1], t.polls[n - 1]));
    }
  }

  // A resolution of an agent's request that a poll takes in is announced by
  // then, and its asker has the news in the queue.
  lemma AnnouncedWhenSeen(cfg: Config, run: Run, p: Poll, d: Resolution)
    requires Shaped(run) && Fits(run, p) && Capped(cfg, Tick(run, p.now), p).None?
    requires d in p.resolved && d.requestedBy < |run.agents|
    ensures d.request in Advance(cfg, run, p).run.delivered
    ensures d.request !in run.delivered ==> d.request in Ids(AnnouncedIn(cfg, run, p))
    ensures var news := AnnouncedIn(cfg, run, p);
            AskersOf(news) == Newest(Intake(Tick(run, p.now), p).pending, |news|)
  {
    hide Advance, Relay, Announce;
    PollAnnounces(cfg, run, p);
    FreshIsAll(run.delivered, |run.agents|, p.resolved, d);
    var ticked := Tick(run, p.now);
    var finished := ticked.(agents := FinishTurns(ticked.agents, p.finished));
    RelayKeepsDelivered(finished, p.relayed);
    AnnounceIs(Relay(finished, p.relayed), p.resolved);
  }

  // The last `n` deliveries queued.
  function Newest(pending: seq<nat>, n: nat): seq<nat> { if n <= |pending| then pending[|pending| - n..] else [] }

  // ---- Delivering ----------------------------------------------------------

  ghost predicate Rising(s: seq<nat>) { forall i, j :: 0 <= i < j < |s| ==> s[i] < s[j] }

  function At(pending: seq<nat>, places: seq<nat>): seq<nat>
    requires forall i :: i in places ==> i < |pending|
  {
    seq(|places|, j requires 0 <= j < |places| => assert places[j] in places; pending[places[j]])
  }

  lemma {:induction false} KeptFrom(run: Run, undeliverable: set<nat>, i: nat, still: seq<nat>) returns (kept: seq<nat>)
    requires i <= |run.pending|
    ensures Rising(kept) && forall n :: n in kept <==> i <= n < |run.pending| && n in undeliverable
    ensures Deliver(run, undeliverable, i, still).pending == still + At(run.pending, kept)
    decreases |run.pending| - i
  {
    if i == |run.pending| {
      kept := [];
      assert still + At(run.pending, kept) == still;
    } else if i in undeliverable {
      var rest := KeptFrom(run, undeliverable, i + 1, still + [run.pending[i]]);
      kept := [i] + rest;
      assert forall j :: 0 <= j < |rest| ==> rest[j] in rest;
      assert At(run.pending, kept) == [run.pending[i]] + At(run.pending, rest);
      assert still + [run.pending[i]] + At(run.pending, rest) == still + At(run.pending, kept);
    } else {
      kept := KeptFrom(run.(agents := Woken(run.agents, run.pending[i])), undeliverable, i + 1, still);
    }
  }

  // Some delivery to `a`, from place `i` on, gets through.
  predicate GotMail(pending: seq<nat>, undeliverable: set<nat>, i: nat, a: nat) {
    exists n :: i <= n < |pending| && n !in undeliverable && pending[n] == a
  }

  lemma {:induction false} WokenBy(run: Run, undeliverable: set<nat>, i: nat, still: seq<nat>, a: nat)
    requires i <= |run.pending| && a < |run.agents|
    ensures var r := Deliver(run, undeliverable, i, still);
            |r.agents| == |run.agents| &&
            (r.agents[a].wake <==> run.agents[a].wake || GotMail(run.pending, undeliverable, i, a))
    decreases |run.pending| - i
  {
    if i < |run.pending| {
      if i in undeliverable {
        WokenBy(run, undeliverable, i + 1, still + [run.pending[i]], a);
      } else {
        WokenBy(run.(agents := Woken(run.agents, run.pending[i])), undeliverable, i + 1, still, a);
      }
    }
  }

  // Mail that cannot be delivered stays queued, all of it and in order; what is
  // delivered wakes its recipients, and nobody else is woken.
  lemma DeliverExact(run: Run, undeliverable: set<nat>) returns (kept: seq<nat>)
    ensures Rising(kept) && forall n :: n in kept <==> 0 <= n < |run.pending| && n in undeliverable
    ensures var r := Deliver(run, undeliverable, 0, []);
            && r.pending == At(run.pending, kept) && |r.agents| == |run.agents|
            && forall a :: 0 <= a < |run.agents| ==>
                 (r.agents[a].wake <==> run.agents[a].wake || GotMail(run.pending, undeliverable, 0, a))
  {
    kept := KeptFrom(run, undeliverable, 0, []);
    assert [] + At(run.pending, kept) == At(run.pending, kept);
    DeliverKeeps(run, undeliverable, 0, []);
    forall a | 0 <= a < |run.agents|
      ensures Deliver(run, undeliverable, 0, []).agents[a].wake <==>
                run.agents[a].wake || GotMail(run.pending, undeliverable, 0, a)
    {
      WokenBy(run, undeliverable, 0, [], a);
    }
  }
}
