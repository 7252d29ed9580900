/** Plans, their approval and the other decision requests (sdf_core/plans.py),
    over rows that a flush may only change as the guards of sdf_core/db.py and
    the gate of sdf_core/execution.py allow. */
module Plans {
  import opened Results
  import opened Identities
  import opened Requests

  datatype PlanStatus = Proposed | Accepted | Refused

  datatype ResolverKind = Human | Policy

  datatype Plan = Plan(status: PlanStatus, content: string, hash: string, proposedBy: string, request: string)

  datatype Request = Request(
    aboutPlan: bool, subject: string, run: Option<string>, requestedBy: string, message: Option<string>,
    status: RequestStatus, resolver: Option<ResolverKind>, resolvedBy: Option<string>, decision: Option<string>)

  // The Decision node of a plan approval.
  datatype Decision = Decision(request: string, hash: string, decidedBy: string, selfApproval: bool)

  // `links` maps planned Tasks to their plan; `attempts` and `runs` map to the
  // Task and the plan they belong to; `material` is the classification of the
  // append-only messages.
  datatype Db = Db(
    plans: map<string, Plan>, requests: map<string, Request>, decisions: map<string, Decision>,
    tasks: set<string>, links: map<string, string>, material: map<string, bool>,
    attempts: map<string, string>, runs: map<string, string>)

  const EMPTY := Db(map[], map[], map[], {}, map[], map[], map[], map[])

  // The content digest, and whether single-user mode lets a proposer approve.
  datatype Env = Env(hash: string -> string, singleUser: bool)

  predicate IsMaterial(db: Db, r: Request) { Material(r.aboutPlan, r.message, db.material) }

  predicate Gated(db: Db, task: string) {
    task in db.links && (db.links[task] !in db.plans || db.plans[db.links[task]].status != Accepted)
  }

  // ---- The invariant -------------------------------------------------------

  predicate InLockstep(p: PlanStatus, r: RequestStatus) {
    match p
    case Proposed => r == Pending
    case Accepted => r == Approved
    case Refused => r == Rejected
  }

  // Approved by a named human who is not the proposer, on the proposed bytes.
  ghost predicate Endorsed(db: Db, e: Env, p: Plan) {
    p.request in db.requests &&
    var r := db.requests[p.request];
    && r.resolver == Some(Human) && r.resolvedBy.Some? && IsHuman(r.resolvedBy.value)
    && (e.singleUser || Fold(r.resolvedBy.value) != Fold(p.proposedBy))
    && r.decision.Some? && r.decision.value in db.decisions
    && db.decisions[r.decision.value]
       == Decision(p.request, p.hash, r.resolvedBy.value, Fold(r.resolvedBy.value) == Fold(p.proposedBy))
  }

  ghost predicate PlanOk(db: Db, e: Env, id: string)
    requires id in db.plans
  {
    var p := db.plans[id];
    && p.hash == e.hash(p.content)
    && p.request in db.requests && db.requests[p.request].aboutPlan && db.requests[p.request].subject == id
    && InLockstep(p.status, db.requests[p.request].status)
    && (p.status == Accepted ==> Endorsed(db, e, p))
  }

  ghost predicate RequestOk(db: Db, id: string)
    requires id in db.requests
  {
    var r := db.requests[id];
    && (r.aboutPlan ==> r.subject in db.plans && db.plans[r.subject].request == id)
    && (r.message.Some? ==> r.message.value in db.material)
    && (r.status == Pending <==> r.resolver.None?)
    && (r.resolver == Some(Human) ==> r.resolvedBy.Some? && IsHuman(r.resolvedBy.value))
    && (r.resolver == Some(Policy) ==> !r.aboutPlan && r.status != Approved && !IsMaterial(db, r))
  }

  ghost predicate Inv(db: Db, e: Env) {
    && (forall id :: id in db.plans ==> PlanOk(db, e, id))
    && (forall id :: id in db.requests ==> RequestOk(db, id))
    && (forall t :: t in db.links ==> t in db.tasks && db.links[t] in db.plans)
    && (forall a :: a in db.attempts ==> db.attempts[a] in db.tasks && !Gated(db, db.attempts[a]))
    && (forall r :: r in db.runs ==> db.runs[r] in db.plans && db.plans[db.runs[r]].status == Accepted)
  }

  // What the invariant gives for work in progress: the plan behind an Attempt
  // of a planned Task, or behind a run, is the proposed one and was approved by
  // a named human, not its proposer unless single-user mode is on.
  lemma WorkIsApproved(db: Db, e: Env, id: string)
    requires Inv(db, e)
    requires (exists a :: a in db.attempts && db.attempts[a] in db.links && db.links[db.attempts[a]] == id)
             || (exists r :: r in db.runs && db.runs[r] == id)
    ensures id in db.plans && db.plans[id].status == Accepted
    ensures db.plans[id].hash == e.hash(db.plans[id].content)
    ensures db.plans[id].request in db.requests
    ensures var r := db.requests[db.plans[id].request];
            && r.subject == id && r.status == Approved && r.resolver == Some(Human)
            && r.resolvedBy.Some? && IsHuman(r.resolvedBy.value)
            && (Fold(r.resolvedBy.value) == Fold(db.plans[id].proposedBy) ==> e.singleUser)
  {
    if a :| a in db.attempts && db.attempts[a] in db.links && db.links[db.attempts[a]] == id {
      assert !Gated(db, db.attempts[a]);
    }
    assert PlanOk(db, e, id);
  }

  // ---- Operations ----------------------------------------------------------

  datatype Refusal =
    | NoProposer | PlanExists | TaskExists | NotHuman | NotFound | AlreadyDecided | SelfApproval | ContentChanged
    | HashMismatch | NotPending | OnlyHuman | PolicyCannotApprove | MaterialNeedsHuman | AnswerNeedsText | NotApproved

  function TaskId(plan: string, key: string): string { plan + "--" + key }

  function TaskIds(plan: string, keys: seq<string>): set<string> { set k | k in keys :: TaskId(plan, k) }

  lemma TaskIdsStep(plan: string, keys: seq<string>, i: nat)
    requires i < |keys|
    ensures TaskIds(plan, keys[..i + 1]) == TaskIds(plan, keys[..i]) + {TaskId(plan, keys[i])}
  {
    assert keys[..i + 1] == keys[..i] + [keys[i]];
  }

  ghost predicate LinkedTo(before: map<string, string>, after: map<string, string>, added: set<string>, plan: string) {
    && after.Keys == before.Keys + added
    && forall t :: t in after ==> after[t] == if t in added then plan else before[t]
  }

  function AgentRequest(run: string, requestedBy: string, message: string): Request {
    Request(false, message, Some(run), requestedBy, Some(message), Pending, None, None, None)
  }

  // The plan row and the request row after a human decided.
  function Decided(p: Plan, approve: bool): Plan { p.(status := if approve then Accepted else Refused) }

  function Resolved(r: Request, outcome: RequestStatus, kind: ResolverKind, actor: string, node: string): Request {
    r.(status := outcome, resolver := Some(kind), resolvedBy := Some(actor), decision := Some(node))
  }

  function DecidePlanOutcome(p: Plan, r: Request, approve: bool, actor: string, node: string, id: string, db: Db): Db {
    db.(plans := db.plans[id := Decided(p, approve)],
        requests := db.requests[p.request := Resolved(r, if approve then Approved else Rejected, Human, actor, node)],
        decisions := db.decisions[node :=
          Decision(p.request, p.hash, actor, approve && Fold(actor) == Fold(p.proposedBy))])
  }

  // Why `decide_plan` refuses, in the order it looks.
  function DecideRefusal(db: Db, e: Env, id: string, approve: bool, decidedBy: string, expected: Option<string>)
    : Option<Refusal>
  {
    var actor := ValidateHuman(decidedBy);
    if actor.None? then Some(NotHuman)
    else if id !in db.plans then Some(NotFound)
    else if db.plans[id].status != Proposed then Some(AlreadyDecided)
    else if approve && Fold(actor.value) == Fold(db.plans[id].proposedBy) && !e.singleUser then Some(SelfApproval)
    else if expected.Some? && expected.value != db.plans[id].hash then Some(ContentChanged)
    else if e.hash(db.plans[id].content) != db.plans[id].hash then Some(HashMismatch)
    else if db.plans[id].request !in db.requests || db.requests[db.plans[id].request].status != Pending then
      Some(NotPending)
    else None
  }

  // Why `resolve_request` refuses, in the order it looks.
  function ResolveRefusal(db: Db, e: Env, id: string, outcome: RequestStatus, resolvedBy: string, kind: ResolverKind,
                          resolution: string): Option<Refusal>
  {
    if id !in db.requests then Some(NotFound)
    else if db.requests[id].aboutPlan then
      if kind != Human || outcome == Answered then Some(OnlyHuman)
      else DecideRefusal(db, e, db.requests[id].subject, outcome == Approved, resolvedBy, None)
    else if db.requests[id].status != Pending then Some(NotPending)
    else if kind == Human && ValidateHuman(resolvedBy).None? then Some(NotHuman)
    else if kind == Policy && outcome == Approved then Some(PolicyCannotApprove)
    else if kind == Policy && IsMaterial(db, db.requests[id]) then Some(MaterialNeedsHuman)
    else if outcome == Answered && StripLeft(resolution) == "" then Some(AnswerNeedsText)
    else None
  }

  // ---- What decides, on the rows -------------------------------------------

  // A named human decides a proposed plan, with its request pending and its
  // content as recorded and as he reviewed it; he may always reject, and approve
  // what another proposed, or anything in single-user mode.
  ghost predicate MayDecide(db: Db, e: Env, id: string, approve: bool, decidedBy: string, expected: Option<string>) {
    && ValidateHuman(decidedBy).Some? && id in db.plans
    && var p, actor := db.plans[id], ValidateHuman(decidedBy).value;
    && p.status == Proposed && e.hash(p.content) == p.hash
    && (expected == None || expected == Some(p.hash))
    && p.request in db.requests && db.requests[p.request].status == Pending
    && (!approve || Fold(actor) != Fold(p.proposedBy) || e.singleUser)
  }

  // The first obstacle, in the order of the checks, is the one reported.
  ghost predicate Hinders(db: Db, e: Env, id: string, approve: bool, decidedBy: string, expected: Option<string>,
                          why: Refusal)
  {
    if ValidateHuman(decidedBy) == None then why == NotHuman
    else if id !in db.plans then why == NotFound
    else
      var p, own := db.plans[id], Fold(ValidateHuman(decidedBy).value) == Fold(db.plans[id].proposedBy);
      match why
      case AlreadyDecided => p.status != Proposed
      case SelfApproval => p.status == Proposed && approve && own && !e.singleUser
      case ContentChanged =>
        p.status == Proposed && !(approve && own && !e.singleUser) && expected.Some? && expected != Some(p.hash)
      case HashMismatch =>
        && p.status == Proposed && !(approve && own && !e.singleUser) && expected in {None, Some(p.hash)}
        && e.hash(p.content) != p.hash
      case NotPending =>
        && p.status == Proposed && !(approve && own && !e.singleUser) && expected in {None, Some(p.hash)}
        && e.hash(p.content) == p.hash
        && (p.request in db.requests ==> db.requests[p.request].status != Pending)
      case _ => false
  }

  lemma DecideRefusalIs(db: Db, e: Env, id: string, approve: bool, decidedBy: string, expected: Option<string>)
    ensures DecideRefusal(db, e, id, approve, decidedBy, expected) == None <==>
              MayDecide(db, e, id, approve, decidedBy, expected)
    ensures var why := DecideRefusal(db, e, id, approve, decidedBy, expected);
            why.Some? ==> Hinders(db, e, id, approve, decidedBy, expected, why.value)
  {
    hide ValidateHuman, Fold;
  }

  // A request that is not about a plan is resolved once: by a named human in any
  // way, by a policy only if it is not material and never by approving it. An
  // answer needs a text.
  ghost predicate MayResolve(db: Db, id: string, outcome: RequestStatus, resolvedBy: string, kind: ResolverKind,
                             resolution: string)
  {
    && id in db.requests && !db.requests[id].aboutPlan && db.requests[id].status == Pending
    && (outcome == Answered ==> StripLeft(resolution) != "")
    && match kind
       case Human => ValidateHuman(resolvedBy).Some?
       case Policy =>
         var m := db.requests[id].message;
         outcome != Approved && !(m.Some? && m.value in db.material && db.material[m.value])
  }

  lemma ResolveRefusalIs(db: Db, e: Env, id: string, outcome: RequestStatus, resolvedBy: string, kind: ResolverKind,
                         resolution: string)
    ensures var why := ResolveRefusal(db, e, id, outcome, resolvedBy, kind, resolution);
            if id in db.requests && db.requests[id].aboutPlan then
              why == None <==> kind == Human && outcome != Answered
                               && MayDecide(db, e, db.requests[id].subject, outcome == Approved, resolvedBy, None)
            else why == None <==> MayResolve(db, id, outcome, resolvedBy, kind, resolution)
    ensures var why := ResolveRefusal(db, e, id, outcome, resolvedBy, kind, resolution);
            && (why == Some(OnlyHuman) <==>
                  id in db.requests && db.requests[id].aboutPlan && (kind == Policy || outcome == Answered))
            && (why == Some(PolicyCannotApprove) <==>
                  && id in db.requests && !db.requests[id].aboutPlan && db.requests[id].status == Pending
                  && kind == Policy && outcome == Approved)
            && (why == Some(AnswerNeedsText) ==> outcome == Answered && StripLeft(resolution) == "")
            && (why == Some(MaterialNeedsHuman) ==> kind == Policy && IsMaterial(db, db.requests[id]))
  {
    hide ValidateHuman, DecideRefusal, StripLeft;
    if id in db.requests {
      DecideRefusalIs(db, e, db.requests[id].subject, outcome == Approved, resolvedBy, None);
    }
  }

  // The rows after a resolution: status, who, how, and under which Decision.
  ghost predicate ResolvedTo(before: map<string, Request>, after: map<string, Request>, id: string,
                             outcome: RequestStatus, kind: ResolverKind, actor: string, node: string)
  {
    && id in before && after.Keys == before.Keys
    && (forall r :: r in before && r != id ==> after[r] == before[r])
    && after[id] == Request(before[id].aboutPlan, before[id].subject, before[id].run, before[id].requestedBy,
                            before[id].message, outcome, Some(kind), Some(actor), Some(node))
  }

  // The plan, its request and the new Decision, after a human decided.
  ghost predicate DecidedTo(db: Db, db': Db, id: string, approve: bool, actor: string, node: string) {
    && id in db.plans && db.plans[id].request in db.requests
    && var p := db.plans[id];
    && db'.plans == db.plans[id :=
         Plan(if approve then Accepted else Refused, p.content, p.hash, p.proposedBy, p.request)]
    && ResolvedTo(db.requests, db'.requests, p.request, if approve then Approved else Rejected, Human, actor, node)
    && db'.decisions == db.decisions[node :=
         Decision(p.request, p.hash, actor, approve && Fold(actor) == Fold(p.proposedBy))]
    && db' == db.(plans := db'.plans, requests := db'.requests, decisions := db'.decisions)
  }

  lemma OutcomeIsDecided(db: Db, id: string, approve: bool, actor: string, node: string)
    requires id in db.plans && db.plans[id].request in db.requests
    ensures var p := db.plans[id];
            var after := DecidePlanOutcome(p, db.requests[p.request], approve, actor, node, id, db);
            DecidedTo(db, after, id, approve, actor, node)
  {
  }

  class PlanStore {
    const env: Env
    var plans: map<string, Plan>
    var requests: map<string, Request>
    var decisions: map<string, Decision>
    var tasks: set<string>
    var links: map<string, string>
    var material: map<string, bool>
    var attempts: map<string, string>
    var runs: map<string, string>

    ghost function State(): Db
      reads this
    {
      Db(plans, requests, decisions, tasks, links, material, attempts, runs)
    }

    ghost predicate Valid()
      reads this
    {
      Inv(State(), env)
    }

    constructor (e: Env)
      ensures Valid() && env == e && State() == EMPTY
    {
      env := e;
      plans, requests, decisions, tasks, links := map[], map[], map[], {}, map[];
      material, attempts, runs := map[], map[], map[];
    }

    // One Task and its link per subtask.
    method AddTasks(id: string, keys: seq<string>)
      modifies this`tasks, this`links
      ensures tasks == old(tasks) + TaskIds(id, keys)
      ensures LinkedTo(old(links), links, TaskIds(id, keys), id)
    {
      for i := 0 to |keys|
        invariant tasks == old(tasks) + TaskIds(id, keys[..i])
        invariant LinkedTo(old(links), links, TaskIds(id, keys[..i]), id)
      {
        var task := TaskId(id, keys[i]);
        TaskIdsStep(id, keys, i);
        tasks := tasks + {task};
        links := links[task := id];
      }
      assert keys[..|keys|] == keys;
    }

    // `requestId` is a fresh uuid.
    method ProposePlan(id: string, content: string, proposer: string, keys: seq<string>, requestId: string)
      returns (refused: Option<Refusal>)
      requires Valid() && requestId !in requests
      modifies this
      ensures Valid()
      ensures refused.Some? <==>
                !IsActor(proposer) || id in old(plans) || exists k :: k in keys && TaskId(id, k) in old(tasks)
      ensures refused.None? ==>
                forall t :: t in tasks <==> t in old(tasks) || exists k :: k in keys && t == id + "--" + k
      ensures refused.Some? ==> State() == old(State())
      ensures refused.None? ==> ProposedIn(old(State()), State(), env, id, content, proposer, keys, requestId)
    {
      if !IsActor(proposer) { return Some(NoProposer); }
      if id in plans { return Some(PlanExists); }
      for i := 0 to |keys|
        invariant forall j :: 0 <= j < i ==> TaskId(id, keys[j]) !in tasks
      {
        if TaskId(id, keys[i]) in tasks { return Some(TaskExists); }
      }
      plans := plans[id := Plan(Proposed, content, env.hash(content), proposer, requestId)];
      requests := requests[requestId := Request(true, id, None, proposer, None, Pending, None, None, None)];
      AddTasks(id, keys);
      ProposeKeepsInv(old(State()), State(), env, id, content, proposer, keys, requestId);
      return None;
    }

    // `node` is a fresh uuid.
    method DecidePlan(id: string, approve: bool, decidedBy: string, expected: Option<string>, node: string)
      returns (refused: Option<Refusal>)
      requires Valid() && node !in decisions
      modifies this
      ensures Valid()
      ensures refused == DecideRefusal(old(State()), env, id, approve, decidedBy, expected)
      ensures refused.None? <==> MayDecide(old(State()), env, id, approve, decidedBy, expected)
      ensures refused.Some? ==> Hinders(old(State()), env, id, approve, decidedBy, expected, refused.value)
      ensures refused.Some? ==> State() == old(State())
      ensures refused.None? ==>
                DecidedTo(old(State()), State(), id, approve, ValidateHuman(decidedBy).value, node)
      ensures refused.None? ==>
                var p, actor := old(plans)[id], ValidateHuman(decidedBy).value;
                State() == DecidePlanOutcome(p, old(requests)[p.request], approve, actor, node, id, old(State()))
    {
      hide Inv, MayDecide, Hinders, DecidedTo, ValidateHuman;
      DecideRefusalIs(State(), env, id, approve, decidedBy, expected);
      var validated := ValidateHuman(decidedBy);
      if validated.None? { return Some(NotHuman); }
      var actor := validated.value;
      if id !in plans { return Some(NotFound); }
      var plan := plans[id];
      if plan.status != Proposed { return Some(AlreadyDecided); }
      var selfDecision := Fold(actor) == Fold(plan.proposedBy);
      if approve && selfDecision && !env.singleUser { return Some(SelfApproval); }
      if expected.Some? && expected.value != plan.hash { return Some(ContentChanged); }
      if env.hash(plan.content) != plan.hash { return Some(HashMismatch); }
      if plan.request !in requests || requests[plan.request].status != Pending { return Some(NotPending); }
      var outcome := if approve then Approved else Rejected;
      requests := requests[plan.request := Resolved(requests[plan.request], outcome, Human, actor, node)];
      decisions := decisions[node := Decision(plan.request, plan.hash, actor, approve && selfDecision)];
      plans := plans[id := plan.(status := if approve then Accepted else Refused)];
      DecideKeepsInv(old(State()), env, id, approve, actor, node);
      OutcomeIsDecided(old(State()), id, approve, actor, node);
      return None;
    }

    method OpenAgentRequest(requestId: string, run: string, requestedBy: string, message: string, isMaterial: bool)
      requires Valid() && requestId !in requests && message !in material
      modifies this`requests, this`material
      ensures Valid()
      ensures State() == old(State()).(
                requests := old(requests)[requestId :=
                  Request(false, message, Some(run), requestedBy, Some(message), Pending, None, None, None)],
                material := old(material)[message := isMaterial])
    {
      material := material[message := isMaterial];
      requests := requests[requestId := AgentRequest(run, requestedBy, message)];
      OpenKeepsInv(old(State()), State(), env, requestId, message);
    }

    // A request about a plan is handed to `DecidePlan`.
    method ResolveRequest(requestId: string, outcome: RequestStatus, resolvedBy: string, kind: ResolverKind,
                          resolution: string, node: string)
      returns (refused: Option<Refusal>)
      requires Valid() && node !in decisions && outcome != Pending
      modifies this
      ensures Valid()
      ensures refused == ResolveRefusal(old(State()), env, requestId, outcome, resolvedBy, kind, resolution)
      ensures refused.Some? ==> State() == old(State())
      ensures refused.None? ==>
                requestId in old(requests) &&
                if old(requests)[requestId].aboutPlan then
                  DecidedTo(old(State()), State(), old(requests)[requestId].subject, outcome == Approved,
                            ValidateHuman(resolvedBy).value, node)
                else
                  && ResolvedTo(old(requests), requests, requestId, outcome, kind,
                                if kind == Human then ValidateHuman(resolvedBy).value else "policy:" + resolvedBy, node)
                  && State() == old(State()).(requests := requests)
      ensures refused.None? ==>
                requestId in old(requests) &&
                var r := old(requests)[requestId];
                if r.aboutPlan then
                  && r.subject in old(plans) && ValidateHuman(resolvedBy).Some?
                  && State() == DecidePlanOutcome(old(plans)[r.subject], r, outcome == Approved,
                                                  ValidateHuman(resolvedBy).value, node, r.subject, old(State()))
                else
                  var actor := if kind == Human then ValidateHuman(resolvedBy) else Some("policy:" + resolvedBy);
                  && actor.Some?
                  && State() == old(State()).(requests := old(requests)[requestId :=
                       Resolved(r, outcome, kind, actor.value, node)])
    {
      if requestId !in requests { return Some(NotFound); }
      if requests[requestId].aboutPlan {
        if kind != Human || outcome == Answered { return Some(OnlyHuman); }
        var subject := requests[requestId].subject;
        RequestsOfPlans(State(), env, requestId);
        refused := DecidePlan(subject, outcome == Approved, resolvedBy, None, node);
      } else {
        refused := ResolveAgentRequest(requestId, outcome, resolvedBy, kind, resolution, node);
      }
    }

    method ResolveAgentRequest(requestId: string, outcome: RequestStatus, resolvedBy: string, kind: ResolverKind,
                               resolution: string, node: string)
      returns (refused: Option<Refusal>)
      requires Valid() && outcome != Pending && requestId in requests && !requests[requestId].aboutPlan
      modifies this`requests
      ensures Valid()
      ensures refused == ResolveRefusal(old(State()), env, requestId, outcome, resolvedBy, kind, resolution)
      ensures refused.Some? ==> requests == old(requests)
      ensures refused.None? ==>
                var actor := if kind == Human then ValidateHuman(resolvedBy) else Some("policy:" + resolvedBy);
                && actor.Some?
                && requests == old(requests)[requestId :=
                     Resolved(old(requests)[requestId], outcome, kind, actor.value, node)]
    {
      hide Inv;
      var request := requests[requestId];
      if request.status != Pending { return Some(NotPending); }
      var actor: string;
      if kind == Human {
        var validated := ValidateHuman(resolvedBy);
        if validated.None? { return Some(NotHuman); }
        actor := validated.value;
      } else {
        if outcome == Approved { return Some(PolicyCannotApprove); }
        if IsMaterial(Db(plans, requests, decisions, tasks, links, material, attempts, runs), request) {
          return Some(MaterialNeedsHuman);
        }
        actor := "policy:" + resolvedBy;
      }
      if outcome == Answered && StripLeft(resolution) == "" { return Some(AnswerNeedsText); }
      requests := requests[requestId := Resolved(request, outcome, kind, actor, node)];
      ResolveKeepsInv(old(State()), env, requestId, outcome, kind, actor, node);
      return None;
    }

    // The plan gate of `begin`, and of the flush that inserts the Attempt.
    method BeginAttempt(id: string, task: string, requirePlan: bool) returns (refused: Option<Refusal>)
      requires Valid() && id !in attempts
      modifies this`attempts
      ensures Valid()
      ensures refused.Some? <==>
                task !in tasks || Gated(old(State()), task) || (requirePlan && task !in links)
      ensures refused.None? <==>
                && task in tasks && (task in links ==> links[task] in plans && plans[links[task]].status == Accepted)
                && (requirePlan ==> task in links)
      ensures attempts == if refused.None? then old(attempts)[id := task] else old(attempts)
    {
      hide Inv;
      if task in links {
        if links[task] !in plans || plans[links[task]].status != Accepted { return Some(NotApproved); }
      } else if requirePlan {
        return Some(NotApproved);
      }
      if task !in tasks { return Some(NotFound); }
      attempts := attempts[id := task];
      WorkKeepsInv(old(State()), State(), env);
      return None;
    }

    method CreateRun(id: string, plan: string) returns (refused: Option<Refusal>)
      requires Valid() && id !in runs
      modifies this`runs
      ensures Valid()
      ensures refused.Some? <==> plan !in plans || plans[plan].status != Accepted
      ensures runs == if refused.None? then old(runs)[id := plan] else old(runs)
    {
      hide Inv;
      if plan !in plans || plans[plan].status != Accepted { return Some(NotApproved); }
      runs := runs[id := plan];
      WorkKeepsInv(old(State()), State(), env);
      return None;
    }
  }

  // ---- Preservation --------------------------------------------------------

  // An Attempt or a run is added, and its Task or plan is not held back.
  lemma WorkKeepsInv(db: Db, db': Db, e: Env)
    requires Inv(db, e) && db' == db.(attempts := db'.attempts, runs := db'.runs)
    requires forall a :: a in db'.attempts && !(a in db.attempts && db.attempts[a] == db'.attempts[a]) ==>
               db'.attempts[a] in db.tasks && !Gated(db, db'.attempts[a])
    requires forall r :: r in db'.runs && !(r in db.runs && db.runs[r] == db'.runs[r]) ==>
               db'.runs[r] in db.plans && db.plans[db'.runs[r]].status == Accepted
    ensures Inv(db', e)
  {
    forall i | i in db'.plans ensures PlanOk(db', e, i) {
      assert PlanOk(db, e, i);
    }
    forall i | i in db'.requests ensures RequestOk(db', i) {
      assert RequestOk(db, i);
    }
    forall a | a in db'.attempts ensures !Gated(db', db'.attempts[a]) {
      assert !Gated(db, db'.attempts[a]);
    }
  }

  lemma RequestsOfPlans(db: Db, e: Env, id: string)
    requires Inv(db, e) && id in db.requests && db.requests[id].aboutPlan
    ensures db.requests[id].subject in db.plans && db.plans[db.requests[id].subject].request == id
  {
    assert RequestOk(db, id);
  }

  ghost predicate ProposedIn(db: Db, db': Db, e: Env, id: string, content: string, proposer: string, keys: seq<string>,
                             requestId: string)
  {
    && db'.plans == db.plans[id := Plan(Proposed, content, e.hash(content), proposer, requestId)]
    && db'.requests == db.requests[requestId := Request(true, id, None, proposer, None, Pending, None, None, None)]
    && db'.tasks == db.tasks + TaskIds(id, keys)
    && LinkedTo(db.links, db'.links, TaskIds(id, keys), id)
    && db'.decisions == db.decisions && db'.material == db.material
    && db'.attempts == db.attempts && db'.runs == db.runs
  }

  lemma ProposeKeepsInv(db: Db, db': Db, e: Env, id: string, content: string, proposer: string, keys: seq<string>,
                        requestId: string)
    requires Inv(db, e) && id !in db.plans && requestId !in db.requests
    requires forall k :: k in keys ==> TaskId(id, k) !in db.tasks
    requires ProposedIn(db, db', e, id, content, proposer, keys, requestId)
    ensures Inv(db', e)
  {
    ProposedRowsOk(db, db', e, id, content, proposer, keys, requestId);
    ProposedHoldsNothingBack(db, db', e, id, content, proposer, keys, requestId);
    hide PlanOk, RequestOk, ProposedIn;
  }

  // The new Tasks have no Attempt yet.
  lemma ProposedHoldsNothingBack(db: Db, db': Db, e: Env, id: string, content: string, proposer: string,
                                 keys: seq<string>, requestId: string)
    requires Inv(db, e) && id !in db.plans
    requires forall k :: k in keys ==> TaskId(id, k) !in db.tasks
    requires ProposedIn(db, db', e, id, content, proposer, keys, requestId)
    ensures forall t :: t in db'.links ==> t in db'.tasks && db'.links[t] in db'.plans
    ensures forall a :: a in db'.attempts ==> db'.attempts[a] in db'.tasks && !Gated(db', db'.attempts[a])
    ensures forall r :: r in db'.runs ==> db'.runs[r] in db'.plans && db'.plans[db'.runs[r]].status == Accepted
  {
    hide PlanOk, RequestOk, TaskId;
    forall a | a in db'.attempts ensures !Gated(db', db'.attempts[a]) {
      assert !Gated(db, db.attempts[a]);
    }
  }

  lemma ProposedRowsOk(db: Db, db': Db, e: Env, id: string, content: string, proposer: string, keys: seq<string>,
                       requestId: string)
    requires Inv(db, e) && id !in db.plans && requestId !in db.requests
    requires ProposedIn(db, db', e, id, content, proposer, keys, requestId)
    ensures forall i :: i in db'.plans ==> PlanOk(db', e, i)
    ensures forall i :: i in db'.requests ==> RequestOk(db', i)
  {
    hide LinkedTo, IsHuman, Fold, Gated;
    forall i | i in db'.plans ensures PlanOk(db', e, i) {
      assert i != id ==> PlanOk(db, e, i);
    }
    forall i | i in db'.requests ensures RequestOk(db', i) {
      assert i != requestId ==> RequestOk(db, i);
    }
  }

  // A proposed plan and its request are decided, and the Decision node is new.
  ghost predicate DecidedIn(db: Db, db': Db, id: string, node: string) {
    && id in db.plans && id in db'.plans && db'.plans == db.plans[id := db'.plans[id]]
    && db.plans[id].status == Proposed
    && db'.plans[id].request == db.plans[id].request
    && node !in db.decisions && node in db'.decisions && db'.decisions == db.decisions[node := db'.decisions[node]]
    && db' == db.(plans := db'.plans, requests := db'.requests, decisions := db'.decisions)
    && var request := db.plans[id].request;
       && request in db.requests && request in db'.requests
       && db'.requests == db.requests[request := db'.requests[request]]
       && var r := db'.requests[request];
          && r == db.requests[request].(status := r.status, resolver := Some(Human), resolvedBy := r.resolvedBy,
                                        decision := r.decision)
          && r.status != Pending && r.resolvedBy.Some? && IsHuman(r.resolvedBy.value)
  }

  lemma OtherPlansKept(db: Db, e: Env, db': Db, id: string, node: string)
    requires Inv(db, e) && DecidedIn(db, db', id, node)
    ensures forall i :: i in db'.plans && i != id ==> PlanOk(db', e, i)
  {
    assert PlanOk(db, e, id);
    forall i | i in db'.plans && i != id ensures PlanOk(db', e, i) {
      assert PlanOk(db, e, i) && db.plans[i].request != db.plans[id].request;
      assert Endorsed(db, e, db.plans[i]) ==> Endorsed(db', e, db.plans[i]);
    }
  }

  // Plans that were accepted still are, so nothing new is held back.
  lemma NothingHeldBack(db: Db, e: Env, db': Db, id: string, node: string)
    requires Inv(db, e) && DecidedIn(db, db', id, node)
    ensures forall t :: t in db'.links ==> t in db'.tasks && db'.links[t] in db'.plans
    ensures forall a :: a in db'.attempts ==> db'.attempts[a] in db'.tasks && !Gated(db', db'.attempts[a])
    ensures forall r :: r in db'.runs ==> db'.runs[r] in db'.plans && db'.plans[db'.runs[r]].status == Accepted
  {
    forall a | a in db'.attempts ensures !Gated(db', db'.attempts[a]) {
      assert !Gated(db, db.attempts[a]);
    }
  }

  // The decided request is about a plan, so deciding it breaks no rule.
  lemma DecidedRequestsOk(db: Db, e: Env, db': Db, id: string, node: string)
    requires Inv(db, e) && DecidedIn(db, db', id, node)
    ensures forall i :: i in db'.requests ==> RequestOk(db', i)
  {
    hide IsHuman;
    assert PlanOk(db, e, id);
    forall i | i in db'.requests ensures RequestOk(db', i) {
      assert RequestOk(db, i);
    }
  }

  lemma DecideKeepsInv(db: Db, e: Env, id: string, approve: bool, actor: string, node: string)
    requires Inv(db, e) && id in db.plans && db.plans[id].status == Proposed && node !in db.decisions
    requires IsHuman(actor) && (approve ==> e.singleUser || Fold(actor) != Fold(db.plans[id].proposedBy))
    requires db.plans[id].request in db.requests
    ensures Inv(DecidePlanOutcome(db.plans[id], db.requests[db.plans[id].request], approve, actor, node, id, db), e)
  {
    hide DecidedIn, DecidePlanOutcome, PlanOk, RequestOk, IsHuman, Fold;
    var db' := DecidePlanOutcome(db.plans[id], db.requests[db.plans[id].request], approve, actor, node, id, db);
    DecisionIsMade(db, e, id, approve, actor, node);
    OtherPlansKept(db, e, db', id, node);
    DecidedRequestsOk(db, e, db', id, node);
    NothingHeldBack(db, e, db', id, node);
  }

  lemma DecisionIsMade(db: Db, e: Env, id: string, approve: bool, actor: string, node: string)
    requires Inv(db, e) && id in db.plans && db.plans[id].status == Proposed && node !in db.decisions
    requires IsHuman(actor) && (approve ==> e.singleUser || Fold(actor) != Fold(db.plans[id].proposedBy))
    requires db.plans[id].request in db.requests
    ensures var db' := DecidePlanOutcome(db.plans[id], db.requests[db.plans[id].request], approve, actor, node, id, db);
            DecidedIn(db, db', id, node) && id in db'.plans && PlanOk(db', e, id)
  {
    hide IsHuman, Fold, Gated, RequestOk;
    assert PlanOk(db, e, id);
    DecidedPlanOk(db, e, id, approve, actor, node);
  }

  lemma DecidedPlanOk(db: Db, e: Env, id: string, approve: bool, actor: string, node: string)
    requires id in db.plans && PlanOk(db, e, id) && db.plans[id].status == Proposed
    requires IsHuman(actor) && (approve ==> e.singleUser || Fold(actor) != Fold(db.plans[id].proposedBy))
    ensures var db' := DecidePlanOutcome(db.plans[id], db.requests[db.plans[id].request], approve, actor, node, id, db);
            id in db'.plans && PlanOk(db', e, id)
  {
  }

  // Requests of agents come and go without touching a plan.
  lemma PlansUntouched(db: Db, e: Env, db': Db)
    requires Inv(db, e) && db'.plans == db.plans && db'.decisions == db.decisions
    requires forall i :: i in db.requests && db.requests[i].aboutPlan ==>
               i in db'.requests && db'.requests[i] == db.requests[i]
    ensures forall i :: i in db'.plans ==> PlanOk(db', e, i)
  {
    forall i | i in db'.plans ensures PlanOk(db', e, i) {
      assert PlanOk(db, e, i);
      assert db'.requests[db.plans[i].request] == db.requests[db.plans[i].request];
      assert Endorsed(db, e, db.plans[i]) ==> Endorsed(db', e, db.plans[i]);
    }
  }

  lemma WorkUntouched(db: Db, e: Env, db': Db)
    requires Inv(db, e) && db'.plans == db.plans && db'.links == db.links && db'.tasks == db.tasks
    requires db'.attempts == db.attempts && db'.runs == db.runs
    ensures forall t :: t in db'.links ==> t in db'.tasks && db'.links[t] in db'.plans
    ensures forall a :: a in db'.attempts ==> db'.attempts[a] in db'.tasks && !Gated(db', db'.attempts[a])
    ensures forall r :: r in db'.runs ==> db'.runs[r] in db'.plans && db'.plans[db'.runs[r]].status == Accepted
  {
    hide PlanOk, RequestOk;
    forall a | a in db'.attempts ensures !Gated(db', db'.attempts[a]) {
      assert !Gated(db, db.attempts[a]);
    }
  }

  lemma OpenKeepsInv(db: Db, db': Db, e: Env, requestId: string, message: string)
    requires Inv(db, e) && requestId !in db.requests && message !in db.material && message in db'.material
    requires db'.requests.Keys == db.requests.Keys + {requestId}
    requires var r := db'.requests[requestId];
             !r.aboutPlan && r.message == Some(message) && r.status == Pending && r.resolver == None
    requires db' == db.(requests := db.requests[requestId := db'.requests[requestId]],
                        material := db.material[message := db'.material[message]])
    ensures Inv(db', e)
  {
    hide PlanOk, IsHuman;
    PlansUntouched(db, e, db');
    WorkUntouched(db, e, db');
    forall i | i in db'.requests ensures RequestOk(db', i) {
      assert i != requestId ==> RequestOk(db, i);
    }
  }

  lemma ResolveKeepsInv(db: Db, e: Env, requestId: string, outcome: RequestStatus, kind: ResolverKind, actor: string,
                        node: string)
    requires Inv(db, e) && requestId in db.requests && outcome != Pending
    requires !db.requests[requestId].aboutPlan && db.requests[requestId].status == Pending
    requires kind == Human ==> IsHuman(actor)
    requires kind == Policy ==> outcome != Approved && !IsMaterial(db, db.requests[requestId])
    ensures var resolved := Resolved(db.requests[requestId], outcome, kind, actor, node);
            Inv(db.(requests := db.requests[requestId := resolved]), e)
  {
    hide PlanOk, IsHuman;
    var db' := db.(requests := db.requests[requestId := Resolved(db.requests[requestId], outcome, kind, actor, node)]);
    PlansUntouched(db, e, db');
    WorkUntouched(db, e, db');
    forall i | i in db'.requests ensures RequestOk(db', i) {
      assert RequestOk(db, i);
    }
  }
}
