/** What the flush guards alone promise about plans and decision requests, over
    any sequence of flushes (sdf_core/db.py), and how the operations of
    sdf_core/plans.py get through them. */
module PlanGuards {
  import opened Results
  import opened Identities
  import opened Plans
  import opened Requests

  // Fields that say what a request asks and where it came from.
  predicate SameQuestion(a: Request, b: Request) {
    a.aboutPlan == b.aboutPlan && a.subject == b.subject && a.run == b.run && a.requestedBy == b.requestedBy
    && a.message == b.message
  }

  ghost predicate RequestGuard(db: Db, db': Db, id: string)
    requires id in db.requests && id in db'.requests
  {
    var before, after := db.requests[id], db'.requests[id];
    after != before ==>
      && before.status == Pending
      && SameQuestion(before, after)
      && !(after.status != Pending && after.resolver != Some(Human) && IsMaterial(db', after))
  }

  ghost predicate PlanGuard(db: Db, db': Db, id: string)
    requires id in db.plans && id in db'.plans
  {
    var before, after := db.plans[id], db'.plans[id];
    && after == before.(status := after.status)
    && (after.status != before.status ==>
          && before.status == Proposed
          && (after.status == Accepted ==>
                && after.request in db'.requests
                && db'.requests[after.request].subject == id && db'.requests[after.request].status == Approved
                && db'.requests[after.request].resolver == Some(Human)))
  }

  // A flush the guards let through. Messages are append-only; an Attempt and a
  // run keep the Task and the plan they were inserted with.
  ghost predicate Flush(db: Db, db': Db) {
    && db.plans.Keys <= db'.plans.Keys && db.requests.Keys <= db'.requests.Keys
    && (forall t :: t in db.links ==> t in db'.links && db'.links[t] == db.links[t])
    && (forall m :: m in db.material ==> m in db'.material && db'.material[m] == db.material[m])
    && (forall id :: id in db.requests ==> RequestGuard(db, db', id))
    && (forall id :: id in db.plans ==> PlanGuard(db, db', id))
    && (forall a :: a in db.attempts ==> a in db'.attempts && db'.attempts[a] == db.attempts[a])
    && (forall r :: r in db.runs ==> r in db'.runs && db'.runs[r] == db.runs[r])
    && (forall a :: a in db'.attempts && a !in db.attempts ==> !Gated(db', db'.attempts[a]))
    && (forall r :: r in db'.runs && r !in db.runs ==>
          db'.runs[r] in db'.plans && db'.plans[db'.runs[r]].status == Accepted)
  }

  ghost predicate Flushes(path: seq<Db>) {
    path != [] && forall i :: 0 <= i < |path| - 1 ==> Flush(path[i], path[i + 1])
  }

  // ---- What the guards promise ---------------------------------------------

  // A decided plan is the same row for ever, an undecided one the same proposal.
  lemma {:induction false} PlanMovesOnce(path: seq<Db>, i: nat, j: nat, id: string)
    requires Flushes(path) && i <= j < |path| && id in path[i].plans
    ensures id in path[j].plans
    ensures path[i].plans[id].status != Proposed ==> path[j].plans[id] == path[i].plans[id]
    ensures path[j].plans[id] == path[i].plans[id].(status := path[j].plans[id].status)
    decreases j - i
  {
    if i < j {
      assert Flush(path[i], path[i + 1]) && PlanGuard(path[i], path[i + 1], id);
      PlanMovesOnce(path, i + 1, j, id);
    }
  }

  // A resolved request is final, a pending one keeps asking the same question.
  lemma {:induction false} RequestMovesOnce(path: seq<Db>, i: nat, j: nat, id: string)
    requires Flushes(path) && i <= j < |path| && id in path[i].requests
    ensures id in path[j].requests
    ensures var was, now := path[i].requests[id], path[j].requests[id];
            && now.aboutPlan == was.aboutPlan && now.subject == was.subject && now.run == was.run
            && now.requestedBy == was.requestedBy && now.message == was.message
    ensures path[i].requests[id].status != Pending ==> path[j].requests[id] == path[i].requests[id]
    decreases j - i
  {
    if i < j {
      assert Flush(path[i], path[i + 1]) && RequestGuard(path[i], path[i + 1], id);
      RequestMovesOnce(path, i + 1, j, id);
    }
  }

  lemma {:induction false} MaterialStays(path: seq<Db>, i: nat, j: nat, m: string)
    requires Flushes(path) && i <= j < |path| && m in path[i].material
    ensures m in path[j].material && path[j].material[m] == path[i].material[m]
    decreases j - i
  {
    if i < j {
      assert Flush(path[i], path[i + 1]);
      MaterialStays(path, i + 1, j, m);
    }
  }

  lemma GuardedRequest(path: seq<Db>, i: nat, id: string)
    requires Flushes(path) && i + 1 < |path| && id in path[i].requests
    ensures id in path[i + 1].requests && RequestGuard(path[i], path[i + 1], id)
  {
    assert Flush(path[i], path[i + 1]);
  }

  // A material request leaves `pending` only by a human's hand.
  lemma {:induction false} MaterialNeedsAHuman(path: seq<Db>, i: nat, j: nat, id: string)
    requires Flushes(path) && i <= j < |path| && id in path[i].requests
    requires path[i].requests[id].status == Pending && IsMaterial(path[i], path[i].requests[id])
    ensures id in path[j].requests
    ensures path[j].requests[id].status != Pending ==> path[j].requests[id].resolver == Some(Human)
    decreases j - i
  {
    hide Flush, Fold;
    if i < j {
      GuardedRequest(path, i, id);
      var next := path[i + 1].requests[id];
      MaterialStays(path, i, i + 1, path[i].requests[id].message.value);
      if next.status == Pending {
        MaterialNeedsAHuman(path, i + 1, j, id);
      } else {
        RequestMovesOnce(path, i + 1, j, id);
      }
    }
  }

  lemma GuardedPlan(path: seq<Db>, i: nat, id: string)
    requires Flushes(path) && i + 1 < |path| && id in path[i].plans
    ensures id in path[i + 1].plans && PlanGuard(path[i], path[i + 1], id)
  {
    assert Flush(path[i], path[i + 1]);
  }

  // A plan that became accepted on the way was approved by a human, and the
  // approval still stands at the end.
  lemma {:induction false} AcceptedMeansApproved(path: seq<Db>, i: nat, j: nat, id: string)
    requires Flushes(path) && i <= j < |path| && id in path[i].plans
    requires path[i].plans[id].status == Proposed
    ensures id in path[j].plans
    ensures path[j].plans[id].status == Accepted ==>
              && path[j].plans[id].request in path[j].requests
              && var r := path[j].requests[path[j].plans[id].request];
                 r.subject == id && r.status == Approved && r.resolver == Some(Human)
    decreases j - i
  {
    hide Flush;
    if i < j {
      GuardedPlan(path, i, id);
      var next := path[i + 1].plans[id];
      PlanMovesOnce(path, i + 1, j, id);
      if next.status == Proposed {
        AcceptedMeansApproved(path, i + 1, j, id);
      } else if next.status == Accepted {
        RequestMovesOnce(path, i + 1, j, next.request);
      }
    }
  }

  // ---- The gate under the guards -------------------------------------------

  ghost predicate GateHolds(db: Db) { forall a :: a in db.attempts ==> !Gated(db, db.attempts[a]) }

  // A flush that gives a Task a plan after it was attempted.
  ghost predicate LinksLate(db: Db, db': Db, a: string) {
    a in db.attempts && db.attempts[a] !in db.links && Gated(db', db.attempts[a])
  }

  // The guards keep every Attempt behind an accepted plan exactly when no
  // already attempted Task is put under a plan that is not accepted.
  lemma GuardsKeepGate(db: Db, db': Db)
    requires Flush(db, db') && GateHolds(db)
    ensures GateHolds(db') <==> !exists a :: LinksLate(db, db', a)
  {
    forall a | a in db'.attempts && !LinksLate(db, db', a) ensures !Gated(db', db'.attempts[a]) {
      if a in db.attempts && db.attempts[a] in db.links {
        var id := db.links[db.attempts[a]];
        assert !Gated(db, db.attempts[a]);
        assert PlanGuard(db, db', id);
      }
    }
    forall a | LinksLate(db, db', a) ensures !GateHolds(db') {
      assert a in db'.attempts && Gated(db', db'.attempts[a]);
    }
  }

  // The guards do let such a flush through.
  lemma LateLinkPasses(p: Plan)
    requires p.status == Proposed
    ensures var db := EMPTY.(tasks := {"t"}, attempts := map["a" := "t"]);
            var db' := db.(plans := map["p" := p], links := map["t" := "p"]);
            Flush(db, db') && GateHolds(db) && !GateHolds(db')
  {
    var db := EMPTY.(tasks := {"t"}, attempts := map["a" := "t"]);
    var db' := db.(plans := map["p" := p], links := map["t" := "p"]);
    assert Gated(db', db'.attempts["a"]);
  }

  // ---- The operations pass the guards --------------------------------------

  // Proposing only links Tasks that did not exist, so it never links late.
  lemma ProposePasses(db: Db, db': Db, e: Env, id: string, content: string, proposer: string, keys: seq<string>,
                      requestId: string)
    requires Inv(db, e) && id !in db.plans && requestId !in db.requests
    requires forall k :: k in keys ==> TaskId(id, k) !in db.tasks
    requires ProposedIn(db, db', e, id, content, proposer, keys, requestId)
    ensures Flush(db, db') && !exists a :: LinksLate(db, db', a)
  {
    hide Endorsed, RequestOk, PlanOk, IsHuman, Fold;
    forall a | a in db.attempts ensures !LinksLate(db, db', a) {
      assert db.attempts[a] in db.tasks;
    }
  }

  // The decided request is flushed first, with its Decision node.
  function RequestDecided(db: Db, id: string, approve: bool, actor: string, node: string): Db
    requires id in db.plans && db.plans[id].request in db.requests
  {
    var p := db.plans[id];
    var outcome, own := if approve then Approved else Rejected, approve && Fold(actor) == Fold(p.proposedBy);
    db.(requests := db.requests[p.request := Resolved(db.requests[p.request], outcome, Human, actor, node)],
        decisions := db.decisions[node := Decision(p.request, p.hash, actor, own)])
  }

  lemma RequestFlushPasses(db: Db, e: Env, id: string, approve: bool, actor: string, node: string)
    requires Inv(db, e) && id in db.plans && db.plans[id].status == Proposed && db.plans[id].request in db.requests
    ensures Flush(db, RequestDecided(db, id, approve, actor, node))
  {
    var mid := RequestDecided(db, id, approve, actor, node);
    assert PlanOk(db, e, id);
    assert forall i :: i in db.requests ==> RequestGuard(db, mid, i);
    assert forall i :: i in db.plans ==> PlanGuard(db, mid, i);
  }

  function PlanDecided(db: Db, id: string, approve: bool): Db
    requires id in db.plans
  {
    db.(plans := db.plans[id := Decided(db.plans[id], approve)])
  }

  lemma PlanFlushPasses(db: Db, id: string, approve: bool)
    requires id in db.plans && db.plans[id].status == Proposed && db.plans[id].request in db.requests
    requires var r := db.requests[db.plans[id].request];
             r.subject == id && r.resolver == Some(Human) && r.status == if approve then Approved else Rejected
    ensures Flush(db, PlanDecided(db, id, approve))
    ensures !exists a :: LinksLate(db, PlanDecided(db, id, approve), a)
  {
    assert forall i :: i in db.plans ==> PlanGuard(db, PlanDecided(db, id, approve), i);
  }

  lemma DecidePasses(db: Db, e: Env, id: string, approve: bool, actor: string, node: string)
    requires Inv(db, e) && id in db.plans && db.plans[id].status == Proposed && db.plans[id].request in db.requests
    ensures var mid := RequestDecided(db, id, approve, actor, node);
            var request := db.requests[db.plans[id].request];
            var after := DecidePlanOutcome(db.plans[id], request, approve, actor, node, id, db);
            && Flush(db, mid) && Flush(mid, after) && !(exists a :: LinksLate(db, after, a))
            && mid == db.(requests := after.requests, decisions := after.decisions)
            && after == mid.(plans := after.plans) && after == PlanDecided(mid, id, approve)
  {
    var mid := RequestDecided(db, id, approve, actor, node);
    assert PlanOk(db, e, id);
    RequestFlushPasses(db, e, id, approve, actor, node);
    PlanFlushPasses(mid, id, approve);
    var after := PlanDecided(mid, id, approve);
    forall a ensures !LinksLate(db, after, a) {
      assert !LinksLate(mid, after, a);
    }
  }

  // Approving the plan before its request is refused.
  lemma PlanFirstIsRefused(db: Db, e: Env, id: string)
    requires Inv(db, e) && id in db.plans && db.plans[id].status == Proposed
    ensures !Flush(db, db.(plans := db.plans[id := Decided(db.plans[id], true)]))
  {
    var db' := db.(plans := db.plans[id := Decided(db.plans[id], true)]);
    assert PlanOk(db, e, id);
    assert !PlanGuard(db, db', id);
  }

  lemma ResolvePasses(db: Db, e: Env, requestId: string, outcome: RequestStatus, kind: ResolverKind, actor: string,
                      node: string)
    requires Inv(db, e) && requestId in db.requests && outcome != Pending
    requires !db.requests[requestId].aboutPlan && db.requests[requestId].status == Pending
    requires kind == Policy ==> outcome != Approved && !IsMaterial(db, db.requests[requestId])
    ensures var resolved := Resolved(db.requests[requestId], outcome, kind, actor, node);
            Flush(db, db.(requests := db.requests[requestId := resolved]))
  {
  }
}
