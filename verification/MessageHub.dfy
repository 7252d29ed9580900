/** The messages of one run: who may send what to whom, how they are numbered,
    and the claims and decision requests they open (sdf_core/agent_messaging.py). */
module MessageHub {
  import opened Results
  import opened Identities

  datatype Role = Lead | Worker

  datatype Member = Member(id: string, role: Role, subtask: Option<string>, sandbox: Option<string>)

  datatype ToRole = ToManager | ToLead | ToWorker

  // `to` is set when the message has one addressee.
  datatype Message = Message(
    number: nat, envelope: string, from: string, fromRole: Option<Role>, to: Option<string>, toRole: ToRole,
    kind: string, body: string, status: Option<string>, material: bool)

  datatype Claim = Claim(message: nat, agent: string, status: string)

  datatype Opened = Opened(message: nat, agent: string, material: bool)

  // A parsed envelope. `id` is `None` unless it is 32 hex digits, `body` unless
  // some text is left after sanitizing, `material` unless the declaration is
  // well formed; matched rules are part of it.
  datatype Envelope = Envelope(
    id: Option<string>, kind: string, to: Option<string>, body: Option<string>, status: Option<string>,
    material: Option<bool>)

  datatype Raw = Raw(size: nat, parsed: Option<Envelope>)

  datatype Refusal =
    | UnknownSender | WrongSandbox | TooLarge | CapReached | NotJson | BadId | BadKind | BadBody | NoRecipient
    | NoLead | NotLead | UnknownRecipient | SelfMessage | BadStatus | BadDecision

  datatype Routed = Routed(to: Option<string>, role: ToRole, recipients: seq<string>)

  datatype Accepted = Accepted(message: Message, recipients: seq<string>)

  const HOST := "sdf"
  const MANAGER := "manager"
  const MAX_ENVELOPE_BYTES := 32 * 1024
  const AGENT_KINDS := {"message", "question", "report", "decision_request"}
  const STATUSES := {"done", "failed", "progress"}

  // ---- Membership ----------------------------------------------------------

  predicate ValidId(id: string) {
    && 1 <= |id| <= 64 && 'a' <= id[0] <= 'z'
    && (forall i :: 0 <= i < |id| ==> 'a' <= id[i] <= 'z' || '0' <= id[i] <= '9' || id[i] == '-')
    && id !in {HOST, MANAGER, "lead", "worker"}
  }

  // A lower-case letter and then up to 63 letters, digits and dashes, and none of
  // the names that mean somebody else.
  lemma ValidIdIs(id: string)
    ensures ValidId(id) <==>
              && 1 <= |id| <= 64 && id[0] in LETTERS && Made(id, LETTERS + DIGITS + "-")
              && id !in {"sdf", "manager", "lead", "worker"}
  {
    hide LETTERS, DIGITS;
    forall i | 0 <= i < |id|
      ensures 'a' <= id[i] <= 'z' <==> id[i] in LETTERS
      ensures '0' <= id[i] <= '9' <==> id[i] in DIGITS
    {
      LetterIs(id[i]);
      DigitIs(id[i]);
    }
  }

  ghost predicate ValidMembers(members: seq<Member>) {
    && (forall m :: m in members ==> ValidId(m.id))
    && (forall i, j :: 0 <= i < j < |members| ==> members[i].id != members[j].id)
  }

  function Find(members: seq<Member>, id: string): Option<Member> {
    if members == [] then None else if members[0].id == id then Some(members[0]) else Find(members[1..], id)
  }

  lemma {:induction false} FindIsMember(members: seq<Member>, id: string)
    ensures Find(members, id).Some? ==> Find(members, id).value in members && Find(members, id).value.id == id
    ensures (exists m :: m in members && m.id == id) ==> Find(members, id).Some?
  {
    if members != [] && members[0].id != id {
      FindIsMember(members[1..], id);
    }
  }

  lemma OneMemberPerId(members: seq<Member>, a: Member)
    requires ValidMembers(members) && a in members
    ensures forall b :: b in members && b.id == a.id ==> b == a
  {
    forall b | b in members && b.id == a.id ensures b == a {
      var i :| 0 <= i < |members| && members[i] == a;
      var j :| 0 <= j < |members| && members[j] == b;
      assert i == j;
    }
  }

  // The ids of a role, leaving one member out.
  function OfRole(members: seq<Member>, role: Role, except: string): seq<string> {
    if members == [] then []
    else
      (if members[0].role == role && members[0].id != except then [members[0].id] else [])
      + OfRole(members[1..], role, except)
  }

  lemma {:induction false} OfRoleIs(members: seq<Member>, role: Role, except: string)
    ensures forall id :: id in OfRole(members, role, except) <==>
                           id != except && exists m :: m in members && m.role == role && m.id == id
  {
    if members != [] {
      OfRoleIs(members[1..], role, except);
      assert members == [members[0]] + members[1..];
    }
  }

  // ---- Routing -------------------------------------------------------------

  function Normalized(to: string): string { Fold(StripRight(StripLeft(to))) }

  function ToRoleOf(m: Member): ToRole { if m.role == Lead then ToLead else ToWorker }

  function Route(members: seq<Member>, sender: Member, kind: string, to: Option<string>): Result<Routed, Refusal> {
    if kind == "report" || kind == "decision_request" then Ok(Routed(None, ToManager, []))
    else if to.None? || StripLeft(to.value) == "" then Err(NoRecipient)
    else
      var name := Normalized(to.value);
      if name == MANAGER || name == HOST then Ok(Routed(None, ToManager, []))
      else if name == "lead" then
        var leads := OfRole(members, Lead, sender.id);
        if leads == [] then Err(NoLead)
        else Ok(Routed(if |leads| == 1 then Some(leads[0]) else None, ToLead, leads))
      else if name == "worker" || name == "workers" then
        if sender.role != Lead then Err(NotLead) else Ok(Routed(None, ToWorker, OfRole(members, Worker, "")))
      else
        var target := Find(members, name);
        if target.None? then Err(UnknownRecipient)
        else if target.value.id == sender.id then Err(SelfMessage)
        else Ok(Routed(Some(target.value.id), ToRoleOf(target.value), [target.value.id]))
  }

  // What an agent other than a lead may read of the run.
  predicate Visible(viewer: Member, m: Message) {
    || viewer.role == Lead
    || m.from == viewer.id || m.to == Some(viewer.id)
    || (m.to.None? && m.toRole == ToWorker)
  }

  // Nobody receives what he sent, and every recipient is a member.
  lemma NeverToSelf(members: seq<Member>, sender: Member, kind: string, to: Option<string>)
    requires ValidMembers(members) && sender in members
    requires Route(members, sender, kind, to).Ok?
    ensures sender.id !in Route(members, sender, kind, to).value.recipients
    ensures forall id :: id in Route(members, sender, kind, to).value.recipients ==>
                           exists m :: m in members && m.id == id
  {
    OfRoleIs(members, Lead, sender.id);
    OfRoleIs(members, Worker, "");
    if to.Some? { FindIsMember(members, Normalized(to.value)); }
    OneMemberPerId(members, sender);
  }

  // A worker reads exactly what it sent and what was routed to it.
  lemma WorkerSeesIff(members: seq<Member>, sender: Member, viewer: Member, kind: string, to: Option<string>,
                      m: Message)
    requires ValidMembers(members) && sender in members && viewer in members && viewer.role == Worker
    requires Route(members, sender, kind, to).Ok? && m.from == sender.id
    requires var r := Route(members, sender, kind, to).value; m.to == r.to && m.toRole == r.role
    ensures Visible(viewer, m) <==>
              viewer.id == sender.id || viewer.id in Route(members, sender, kind, to).value.recipients
  {
    OfRoleIs(members, Lead, sender.id);
    OfRoleIs(members, Worker, "");
    assert ValidId(viewer.id) && viewer.id != "";
    OneMemberPerId(members, viewer);
  }

  // Somebody can be told: the manager always, everybody with that role but the
  // sender, or the member of that name; only a lead addresses all workers.
  ghost predicate Addressable(members: seq<Member>, sender: Member, kind: string, to: Option<string>) {
    || kind in {"report", "decision_request"}
    || (&& to.Some? && StripLeft(to.value) != ""
        && var name := Normalized(to.value);
           || name in {"manager", "sdf"}
           || (name == "lead" && exists m :: m in members && m.role == Lead && m.id != sender.id)
           || (name in {"worker", "workers"} && sender.role == Lead)
           || (name !in {"lead", "worker", "workers"} && exists m :: m in members && m.id == name && m.id != sender.id))
  }

  ghost predicate GoesTo(members: seq<Member>, sender: Member, kind: string, to: Option<string>, r: Routed) {
    var name := if to.Some? then Normalized(to.value) else "";
    if kind in {"report", "decision_request"} || name in {"manager", "sdf"} then r == Routed(None, ToManager, [])
    else if name == "lead" then
      && r.role == ToLead && r.to == (if |r.recipients| == 1 then Some(r.recipients[0]) else None)
      && forall id :: id in r.recipients <==>
           id != sender.id && exists m :: m in members && m.role == Lead && m.id == id
    else if name in {"worker", "workers"} then
      && r.role == ToWorker && r.to.None?
      && forall id :: id in r.recipients <==> id != "" && exists m :: m in members && m.role == Worker && m.id == id
    else
      && r.to == Some(name) && r.recipients == [name]
      && exists m :: m in members && m.id == name && r.role == if m.role == Lead then ToLead else ToWorker
  }

  // Nobody is told twice.
  ghost predicate Distinct(ids: seq<string>) { forall i, j :: 0 <= i < j < |ids| ==> ids[i] != ids[j] }

  lemma {:induction false} OfRoleOnce(members: seq<Member>, role: Role, except: string)
    requires forall i, j :: 0 <= i < j < |members| ==> members[i].id != members[j].id
    ensures Distinct(OfRole(members, role, except))
  {
    if members != [] {
      var later := OfRole(members[1..], role, except);
      OfRoleOnce(members[1..], role, except);
      OfRoleIs(members[1..], role, except);
      forall m | m in members[1..] ensures m.id != members[0].id {
        var i :| 0 <= i < |members[1..]| && members[1..][i] == m;
      }
      assert members[0].id !in later;
    }
  }

  lemma LeadsAre(members: seq<Member>, sender: Member)
    requires ValidMembers(members)
    ensures var leads := OfRole(members, Lead, sender.id);
            && Distinct(leads)
            && (leads != [] <==> exists m :: m in members && m.role == Lead && m.id != sender.id)
            && forall id :: id in leads <==> id != sender.id && exists m :: m in members && m.role == Lead && m.id == id
  {
    var leads := OfRole(members, Lead, sender.id);
    OfRoleIs(members, Lead, sender.id);
    OfRoleOnce(members, Lead, sender.id);
    if leads != [] { assert leads[0] in leads; }
    if m :| m in members && m.role == Lead && m.id != sender.id { assert m.id in leads; }
  }

  // A message is routed exactly if it can be addressed, to whom it says.
  lemma RouteIs(members: seq<Member>, sender: Member, kind: string, to: Option<string>)
    requires ValidMembers(members) && sender in members
    ensures Route(members, sender, kind, to).Ok? <==> Addressable(members, sender, kind, to)
    ensures Route(members, sender, kind, to).Ok? ==>
              && GoesTo(members, sender, kind, to, Route(members, sender, kind, to).value)
              && Distinct(Route(members, sender, kind, to).value.recipients)
  {
    hide OfRole, Find, Normalized, StripLeft, ValidId;
    LeadsAre(members, sender);
    OfRoleIs(members, Worker, "");
    OfRoleOnce(members, Worker, "");
    if to.Some? { FindIsMember(members, Normalized(to.value)); }
  }

  // A lead reads everything.
  lemma LeadSeesAll(viewer: Member, m: Message)
    requires viewer.role == Lead
    ensures Visible(viewer, m)
  {
  }

  // ---- The log -------------------------------------------------------------

  function CountFrom(messages: seq<Message>, sender: string): nat {
    if messages == [] then 0
    else CountFrom(messages[..|messages| - 1], sender) + if messages[|messages| - 1].from == sender then 1 else 0
  }

  // `max(seq)`, 0 for an empty log.
  function MaxSeq(messages: seq<Message>): nat {
    if messages == [] then 0
    else
      var before := MaxSeq(messages[..|messages| - 1]);
      if messages[|messages| - 1].number > before then messages[|messages| - 1].number else before
  }

  function ClaimFor(m: Message): seq<Claim> {
    if m.kind == "report" && m.from != HOST && m.status.Some? then [Claim(m.number, m.from, m.status.value)] else []
  }

  function RequestFor(m: Message): seq<Opened> {
    if m.kind == "decision_request" && m.from != HOST then [Opened(m.number, m.from, m.material)] else []
  }

  // A claim for every report, a request for every decision request, in order.
  function ClaimsOf(messages: seq<Message>): seq<Claim> {
    if messages == [] then []
    else ClaimsOf(messages[..|messages| - 1]) + ClaimFor(messages[|messages| - 1])
  }

  function OpenedBy(messages: seq<Message>): seq<Opened> {
    if messages == [] then []
    else OpenedBy(messages[..|messages| - 1]) + RequestFor(messages[|messages| - 1])
  }

  ghost predicate InSequence(messages: seq<Message>) {
    forall i :: 0 <= i < |messages| ==> messages[i].number == i + 1
  }

  lemma {:induction false} MaxIsLast(messages: seq<Message>)
    requires InSequence(messages)
    ensures MaxSeq(messages) == |messages|
  {
    if messages != [] {
      MaxIsLast(messages[..|messages| - 1]);
    }
  }

  // The largest number, and 0 without any.
  lemma {:induction false} MaxSeqIs(messages: seq<Message>)
    ensures forall m :: m in messages ==> m.number <= MaxSeq(messages)
    ensures MaxSeq(messages) == 0 || exists m :: m in messages && m.number == MaxSeq(messages)
  {
    if messages != [] {
      var n := |messages| - 1;
      MaxSeqIs(messages[..n]);
      assert messages == messages[..n] + [messages[n]];
    }
  }

  lemma {:induction false} ClaimsAre(messages: seq<Message>, c: Claim)
    ensures c in ClaimsOf(messages) <==>
              exists m :: m in messages && m.kind == "report" && m.from != HOST && m.status.Some?
                          && c == Claim(m.number, m.from, m.status.value)
  {
    if messages != [] {
      var n := |messages| - 1;
      ClaimsAre(messages[..n], c);
      assert messages == messages[..n] + [messages[n]];
    }
  }

  // No report has two claims.
  lemma {:induction false} ClaimedOnce(messages: seq<Message>)
    requires InSequence(messages)
    ensures forall i, j :: 0 <= i < j < |ClaimsOf(messages)| ==>
                             ClaimsOf(messages)[i].message < ClaimsOf(messages)[j].message
    ensures forall i :: 0 <= i < |ClaimsOf(messages)| ==> ClaimsOf(messages)[i].message <= |messages|
  {
    if messages != [] {
      ClaimedOnce(messages[..|messages| - 1]);
    }
  }

  function Existing(messages: seq<Message>, sender: string, envelope: string): Option<Message> {
    if messages == [] then None
    else if messages[0].from == sender && messages[0].envelope == envelope then Some(messages[0])
    else Existing(messages[1..], sender, envelope)
  }

  lemma {:induction false} ExistingIs(messages: seq<Message>, sender: string, envelope: string)
    ensures match Existing(messages, sender, envelope)
            case None => forall m :: m in messages ==> !(m.from == sender && m.envelope == envelope)
            case Some(m) => m in messages && m.from == sender && m.envelope == envelope
  {
    if messages != [] {
      ExistingIs(messages[1..], sender, envelope);
    }
  }

  // A report without a status, or with an empty one, claims to be done.
  function ClaimedStatus(e: Envelope): string {
    if e.status.Some? && e.status.value != "" then e.status.value else "done"
  }

  // The row an accepted envelope becomes.
  function Written(number: nat, sender: Member, e: Envelope, r: Routed): Message
    requires e.id.Some? && e.body.Some?
  {
    var status := if e.kind == "report" then Some(ClaimedStatus(e)) else None;
    Message(number, e.id.value, sender.id, Some(sender.role), r.to, r.role, e.kind, e.body.value, status,
            e.kind == "decision_request" && e.material == Some(true))
  }

  function HostMessage(number: nat, envelope: string, to: Member, kind: string, body: string): Message {
    Message(number, envelope, HOST, None, Some(to.id), ToRoleOf(to), kind, body, None, false)
  }

  lemma HostMailIsSeen(members: seq<Member>, number: nat, envelope: string, to: Member, kind: string, body: string)
    requires ValidMembers(members)
    ensures forall viewer :: viewer in members && viewer.role == Worker ==>
              (Visible(viewer, HostMessage(number, envelope, to, kind, body)) <==> viewer.id == to.id)
  {
    forall viewer | viewer in members ensures viewer.id != HOST {
      assert ValidId(viewer.id);
    }
  }

  // Why an envelope is refused; redelivery is not.
  function IngestRefusal(members: seq<Member>, messages: seq<Message>, cap: nat, sender: string, raw: Raw,
                         sandbox: Option<string>): Option<Refusal>
  {
    var member := Find(members, sender);
    if member.None? then Some(UnknownSender)
    else if sandbox.Some? && member.value.sandbox.Some? && sandbox != member.value.sandbox then Some(WrongSandbox)
    else if raw.size > MAX_ENVELOPE_BYTES then Some(TooLarge)
    else if CountFrom(messages, sender) >= cap then Some(CapReached)
    else if raw.parsed.None? then Some(NotJson)
    else
      var e := raw.parsed.value;
      if e.id.None? then Some(BadId)
      else if Existing(messages, sender, e.id.value).Some? then None
      else if e.kind !in AGENT_KINDS then Some(BadKind)
      else if e.body.None? then Some(BadBody)
      else
        var route := Route(members, member.value, e.kind, e.to);
        if route.Err? then Some(route.error)
        else if e.kind == "report" && ClaimedStatus(e) !in STATUSES then Some(BadStatus)
        else if e.kind == "decision_request" && e.material.None? then Some(BadDecision)
        else None
  }

  // ---- What is accepted, and what it becomes -------------------------------

  ghost function OwnMessages(messages: seq<Message>, sender: string): set<nat> {
    set i: nat | i < |messages| && messages[i].from == sender
  }

  lemma {:induction false} CountIs(messages: seq<Message>, sender: string)
    ensures CountFrom(messages, sender) == |OwnMessages(messages, sender)|
  {
    if messages == [] {
      assert OwnMessages(messages, sender) == {};
    } else {
      var n, front := |messages| - 1, messages[..|messages| - 1];
      CountIs(front, sender);
      var before := OwnMessages(front, sender);
      assert OwnMessages(messages, sender) == if messages[n].from == sender then before + {n} else before;
    }
  }

  // The raw envelope comes from a member, out of its own sandbox, in 32 KiB at
  // most, within the member's quota, and has an identifier.
  ghost predicate Admitted(members: seq<Member>, messages: seq<Message>, cap: nat, sender: string, raw: Raw,
                           sandbox: Option<string>)
  {
    && raw.size <= 32768 && raw.parsed.Some? && raw.parsed.value.id.Some?
    && |OwnMessages(messages, sender)| < cap
    && exists m :: m in members && m.id == sender
                   && (sandbox.Some? && m.sandbox.Some? ==> sandbox.value == m.sandbox.value)
  }

  ghost predicate Redelivered(messages: seq<Message>, sender: string, e: Envelope) {
    exists m :: m in messages && m.from == sender && Some(m.envelope) == e.id
  }

  // A new envelope is of a kind agents may send, has a text, can be addressed, and
  // is a proper report or decision request if it is one.
  ghost predicate WellSaid(members: seq<Member>, sender: Member, e: Envelope) {
    && e.kind in {"message", "question", "report", "decision_request"} && e.body.Some?
    && Addressable(members, sender, e.kind, e.to)
    && (e.kind == "report" && e.status.Some? ==> e.status.value in {"", "done", "failed", "progress"})
    && (e.kind == "decision_request" ==> e.material.Some?)
  }

  lemma AdmittedIs(members: seq<Member>, messages: seq<Message>, cap: nat, member: Member, raw: Raw,
                   sandbox: Option<string>)
    requires ValidMembers(members) && member in members
    ensures Find(members, member.id) == Some(member)
    ensures Admitted(members, messages, cap, member.id, raw, sandbox) <==>
              && !(sandbox.Some? && member.sandbox.Some? && sandbox != member.sandbox)
              && raw.size <= MAX_ENVELOPE_BYTES && CountFrom(messages, member.id) < cap
              && raw.parsed.Some? && raw.parsed.value.id.Some?
  {
    hide CountFrom, OwnMessages, Find, ValidMembers;
    FindIsMember(members, member.id);
    OneMemberPerId(members, member);
    CountIs(messages, member.id);
  }

  lemma WellSaidIs(members: seq<Member>, member: Member, e: Envelope)
    requires ValidMembers(members) && member in members
    ensures WellSaid(members, member, e) <==>
              && e.kind in AGENT_KINDS && e.body.Some? && Route(members, member, e.kind, e.to).Ok?
              && !(e.kind == "report" && ClaimedStatus(e) !in STATUSES)
              && !(e.kind == "decision_request" && e.material.None?)
    ensures ClaimedStatus(e) !in STATUSES ==> e.status.Some? && e.status.value !in {"", "done", "failed", "progress"}
  {
    hide Route, Addressable, ValidMembers;
    RouteIs(members, member, e.kind, e.to);
  }

  lemma IngestRefusalIs(members: seq<Member>, messages: seq<Message>, cap: nat, member: Member, raw: Raw,
                        sandbox: Option<string>)
    requires ValidMembers(members) && member in members
    ensures IngestRefusal(members, messages, cap, member.id, raw, sandbox) == None <==>
              && Admitted(members, messages, cap, member.id, raw, sandbox)
              && (|| Redelivered(messages, member.id, raw.parsed.value)
                  || WellSaid(members, member, raw.parsed.value))
    ensures IngestRefusal(members, messages, cap, member.id, raw, sandbox) == Some(BadStatus) ==>
              && Admitted(members, messages, cap, member.id, raw, sandbox)
              && raw.parsed.value.kind == "report" && raw.parsed.value.status.Some?
              && raw.parsed.value.status.value !in {"", "done", "failed", "progress"}
  {
    hide CountFrom, Find, Route, ValidMembers, Existing, Admitted, WellSaid, ClaimedStatus;
    AdmittedIs(members, messages, cap, member, raw, sandbox);
    if raw.parsed.Some? && raw.parsed.value.id.Some? {
      ExistingIs(messages, member.id, raw.parsed.value.id.value);
      WellSaidIs(members, member, raw.parsed.value);
    }
    RoutingRefusals(members, member, raw);
  }

  lemma RoutingRefusals(members: seq<Member>, member: Member, raw: Raw)
    ensures raw.parsed.Some? ==>
              var route := Route(members, member, raw.parsed.value.kind, raw.parsed.value.to);
              route.Err? ==> route.error != BadStatus
  {
  }

  lemma StrangersAreRefused(members: seq<Member>, messages: seq<Message>, cap: nat, sender: string, raw: Raw,
                            sandbox: Option<string>)
    ensures IngestRefusal(members, messages, cap, sender, raw, sandbox) == Some(UnknownSender) <==>
              !exists m :: m in members && m.id == sender
  {
    FindIsMember(members, sender);
  }

  // The row of a new envelope is its sender's and says what the envelope says. A
  // report's status is its own, or "done" if it gives none.
  ghost predicate Says(m: Message, sender: Member, e: Envelope) {
    && m.from == sender.id && m.fromRole == Some(sender.role)
    && e.id == Some(m.envelope) && m.kind == e.kind && e.body == Some(m.body)
    && (m.material <==> e.kind == "decision_request" && e.material == Some(true))
    && (e.kind != "report" ==> m.status == None)
    && (e.kind == "report" && e.status in {None, Some("")} ==> m.status == Some("done"))
    && (e.kind == "report" && e.status !in {None, Some("")} ==> m.status == e.status)
  }

  // A report opens a claim with its status, a decision request a request.
  ghost predicate Opens(m: Message, claims: seq<Claim>, claims': seq<Claim>, requests: seq<Opened>,
                        requests': seq<Opened>)
  {
    && (if m.kind == "report" then m.status.Some? && claims' == claims + [Claim(m.number, m.from, m.status.value)]
        else claims' == claims)
    && requests' == if m.kind == "decision_request" then requests + [Opened(m.number, m.from, m.material)] else requests
  }

  ghost predicate TakenIn(members: seq<Member>, sender: Member, e: Envelope, number: nat, a: Accepted) {
    && Says(a.message, sender, e) && a.message.number == number
    && GoesTo(members, sender, e.kind, e.to, Routed(a.message.to, a.message.toRole, a.recipients))
    && Distinct(a.recipients)
  }

  lemma WrittenSays(number: nat, sender: Member, e: Envelope, r: Routed)
    requires e.id.Some? && e.body.Some?
    ensures var m := Written(number, sender, e, r);
            Says(m, sender, e) && m.number == number && m.to == r.to && m.toRole == r.role
  {
  }

  // Numbers run from 1 without a hole, an envelope is stored once, every report
  // has a status and its one claim and every decision request its one request,
  // senders are members, nobody is over the cap, and a cached count is the
  // stored one.
  ghost predicate LogOk(members: seq<Member>, cap: nat, messages: seq<Message>, claims: seq<Claim>,
                        requests: seq<Opened>, counts: map<string, nat>)
  {
    && ValidMembers(members) && InSequence(messages)
    && claims == ClaimsOf(messages) && requests == OpenedBy(messages)
    && StoredOnce(messages) && FromMembers(members, messages) && CountsOk(cap, messages, counts)
    && ReportsClaim(messages)
  }

  // What an agent reports, it reports with a status.
  ghost predicate ReportsClaim(messages: seq<Message>) {
    forall i :: 0 <= i < |messages| && messages[i].kind == "report" && messages[i].from != HOST ==>
                  messages[i].status.Some?
  }

  ghost predicate FromMembers(members: seq<Member>, messages: seq<Message>) {
    forall i :: 0 <= i < |messages| && messages[i].from != HOST ==> Find(members, messages[i].from).Some?
  }

  ghost predicate CountsOk(cap: nat, messages: seq<Message>, counts: map<string, nat>) {
    && (forall id :: id != HOST ==> CountFrom(messages, id) <= cap)
    && (forall id :: id in counts ==> id != HOST && counts[id] == CountFrom(messages, id))
  }

  ghost predicate StoredOnce(messages: seq<Message>) {
    forall i, j :: 0 <= i < j < |messages| && messages[i].from != HOST && messages[i].from == messages[j].from ==>
                     messages[i].envelope != messages[j].envelope
  }

  lemma AppendCounts(messages: seq<Message>, m: Message)
    ensures forall id :: CountFrom(messages + [m], id) == CountFrom(messages, id) + if id == m.from then 1 else 0
  {
    assert (messages + [m])[..|messages|] == messages;
  }

  lemma AppendOpens(messages: seq<Message>, m: Message)
    ensures ClaimsOf(messages + [m]) == ClaimsOf(messages) + ClaimFor(m)
    ensures OpenedBy(messages + [m]) == OpenedBy(messages) + RequestFor(m)
  {
    assert (messages + [m])[..|messages|] == messages;
  }

  lemma AppendOnce(messages: seq<Message>, m: Message)
    requires StoredOnce(messages)
    requires m.from != HOST ==> Existing(messages, m.from, m.envelope).None?
    ensures StoredOnce(messages + [m])
  {
    ExistingIs(messages, m.from, m.envelope);
    assert forall i :: 0 <= i < |messages| ==> messages[i] in messages;
  }

  lemma AppendKeepsCounts(cap: nat, messages: seq<Message>, counts: map<string, nat>, m: Message)
    requires CountsOk(cap, messages, counts)
    requires m.from != HOST ==> CountFrom(messages, m.from) < cap
    ensures CountsOk(cap, messages + [m],
                     if m.from == HOST then counts else counts[m.from := CountFrom(messages, m.from) + 1])
  {
    AppendCounts(messages, m);
  }

  lemma AppendKeepsNumbers(members: seq<Member>, messages: seq<Message>, m: Message)
    requires InSequence(messages) && FromMembers(members, messages)
    requires m.number == |messages| + 1 && (m.from != HOST ==> Find(members, m.from).Some?)
    ensures InSequence(messages + [m]) && FromMembers(members, messages + [m])
  {
  }

  lemma AppendKeepsLog(members: seq<Member>, cap: nat, messages: seq<Message>, claims: seq<Claim>,
                       requests: seq<Opened>, counts: map<string, nat>, m: Message)
    requires LogOk(members, cap, messages, claims, requests, counts)
    requires m.number == |messages| + 1
    requires m.from != HOST ==> Existing(messages, m.from, m.envelope).None? && Find(members, m.from).Some?
                                && CountFrom(messages, m.from) < cap && (m.kind == "report" ==> m.status.Some?)
    ensures LogOk(members, cap, messages + [m], claims + ClaimFor(m), requests + RequestFor(m),
                  if m.from == HOST then counts else counts[m.from := CountFrom(messages, m.from) + 1])
  {
    hide ValidMembers, InSequence, ClaimsOf, OpenedBy, StoredOnce, FromMembers, CountsOk, ReportsClaim, Existing, Find;
    AppendOpens(messages, m);
    AppendKeepsCounts(cap, messages, counts, m);
    AppendOnce(messages, m);
    AppendKeepsNumbers(members, messages, m);
    AppendKeepsStatuses(messages, m);
  }

  lemma AppendKeepsStatuses(messages: seq<Message>, m: Message)
    requires ReportsClaim(messages) && (m.kind == "report" && m.from != HOST ==> m.status.Some?)
    ensures ReportsClaim(messages + [m])
  {
  }

  class Hub {
    const members: seq<Member>
    const cap: nat
    var messages: seq<Message>
    var claims: seq<Claim>
    var requests: seq<Opened>
    var counts: map<string, nat>

    ghost predicate Valid()
      reads this
    {
      LogOk(members, cap, messages, claims, requests, counts)
    }

    constructor (members: seq<Member>, cap: nat)
      requires ValidMembers(members)
      ensures Valid() && this.members == members && this.cap == cap && messages == []
    {
      this.members, this.cap := members, cap;
      messages, claims, requests, counts := [], [], [], map[];
    }

    method NextSeq() returns (n: nat)
      requires InSequence(messages)
      ensures n == |messages| + 1
    {
      MaxIsLast(messages);
      n := MaxSeq(messages) + 1;
    }

    method Persist(m: Message)
      modifies this`messages
      ensures messages == old(messages) + [m]
    {
      messages := messages + [m];
    }

    // Stores an accepted envelope with its claim or request. `count` is what
    // the sender had stored before.
    method Store(member: Member, e: Envelope, route: Routed, count: nat) returns (message: Message)
      requires Valid() && Find(members, member.id) == Some(member) && member.id != HOST
      requires e.id.Some? && e.body.Some? && Existing(messages, member.id, e.id.value).None?
      requires count == CountFrom(messages, member.id) < cap
      modifies this
      ensures Valid()
      ensures message == Written(|old(messages)| + 1, member, e, route)
      ensures messages == old(messages) + [message]
      ensures Opens(message, old(claims), claims, old(requests), requests)
    {
      hide LogOk;
      LogIsNumbered(members, cap, messages, claims, requests, counts);
      var number := NextSeq();
      message := Written(number, member, e, route);
      AppendKeepsLog(members, cap, messages, claims, requests, counts, message);
      Persist(message);
      counts := counts[member.id := count + 1];
      OpenFor(message);
    }

    // The claim of a report, the request of a decision request.
    method OpenFor(m: Message)
      requires m.from != HOST && (m.kind == "report" ==> m.status.Some?)
      modifies this`claims, this`requests
      ensures claims == old(claims) + ClaimFor(m) && requests == old(requests) + RequestFor(m)
    {
      if m.kind == "report" {
        claims := claims + [Claim(m.number, m.from, m.status.value)];
      }
      if m.kind == "decision_request" {
        requests := requests + [Opened(m.number, m.from, m.material)];
      }
    }

    method Ingest(sender: string, raw: Raw, sandbox: Option<string>) returns (result: Result<Accepted, Refusal>)
      requires Valid()
      modifies this
      ensures Valid()
      ensures var refusal := IngestRefusal(members, old(messages), cap, sender, raw, sandbox);
              if refusal.Some? then result == Err(refusal.value) else result.Ok?
      // Refused or delivered again: nothing stored changes.
      ensures result.Err? || Existing(old(messages), sender, raw.parsed.value.id.value).Some? ==>
                messages == old(messages) && claims == old(claims) && requests == old(requests) && counts == old(counts)
      ensures result.Ok? ==>
                var existing := Existing(old(messages), sender, raw.parsed.value.id.value);
                if existing.Some? then result.value == Accepted(existing.value, [])
                else
                  // Otherwise one row is appended, addressed as routed.
                  var member := Find(members, sender).value;
                  var route := Route(members, member, raw.parsed.value.kind, raw.parsed.value.to).value;
                  && result.value
                     == Accepted(Written(|old(messages)| + 1, member, raw.parsed.value, route), route.recipients)
                  && messages == old(messages) + [result.value.message]
      // The row says what the envelope says, goes where it is addressed, and opens
      // its claim or request.
      ensures result.Ok? ==>
                var e := raw.parsed.value;
                && Admitted(members, old(messages), cap, sender, raw, sandbox)
                && (!Redelivered(old(messages), sender, e) ==>
                      exists member :: member in members && member.id == sender
                        && WellSaid(members, member, e)
                        && TakenIn(members, member, e, |old(messages)| + 1, result.value)
                        && Opens(result.value.message, old(claims), claims, old(requests), requests))
    {
      var found := Find(members, sender);
      FindIsMember(members, sender);
      if found.None? { return Err(UnknownSender); }
      var member := found.value;
      if sandbox.Some? && member.sandbox.Some? && sandbox != member.sandbox { return Err(WrongSandbox); }
      if raw.size > MAX_ENVELOPE_BYTES { return Err(TooLarge); }
      var count := if sender in counts then counts[sender] else CountFrom(messages, sender);
      if count >= cap { return Err(CapReached); }
      if raw.parsed.None? { return Err(NotJson); }
      var e := raw.parsed.value;
      if e.id.None? { return Err(BadId); }
      var existing := Existing(messages, sender, e.id.value);
      ExistingIs(messages, sender, e.id.value);
      if existing.Some? {
        IngestRefusalIs(members, messages, cap, member, raw, sandbox);
        return Ok(Accepted(existing.value, []));
      }
      if e.kind !in AGENT_KINDS { return Err(BadKind); }
      if e.body.None? { return Err(BadBody); }
      var route := Route(members, member, e.kind, e.to);
      if route.Err? { return Err(route.error); }
      if e.kind == "report" && ClaimedStatus(e) !in STATUSES { return Err(BadStatus); }
      if e.kind == "decision_request" && e.material.None? { return Err(BadDecision); }
      assert ValidId(sender);
      var message := Store(member, e, route.value, count);
      IngestRefusalIs(members, old(messages), cap, member, raw, sandbox);
      RouteIs(members, member, e.kind, e.to);
      WrittenSays(|old(messages)| + 1, member, e, route.value);
      result := Ok(Accepted(message, route.value.recipients));
    }

    // `envelope` is a fresh uuid; `body` is `None` when no text is left after
    // sanitizing.
    method PostFromHost(to: string, kind: string, body: Option<string>, envelope: string)
      returns (posted: Option<Message>)
      requires Valid()
      modifies this`messages
      ensures Valid()
      ensures posted.Some? <==> Find(members, to).Some? && kind in {"system", "decision"} && body.Some?
      ensures messages == old(messages) + if posted.Some? then [posted.value] else []
      ensures posted.Some? ==>
                posted.value == HostMessage(|old(messages)| + 1, envelope, Find(members, to).value, kind, body.value)
      // Only its addressee and the leads read it, and nobody answers for it.
      ensures posted.Some? ==>
                && posted.value.from == "sdf" && posted.value.to == Some(to)
                && posted.value.number == |old(messages)| + 1
                && posted.value.kind == kind && Some(posted.value.body) == body && posted.value.status == None
                && posted.value.envelope == envelope && !posted.value.material
                && forall viewer :: viewer in members && viewer.role == Worker ==>
                     (Visible(viewer, posted.value) <==> viewer.id == to)
    {
      hide LogOk;
      FindIsMember(members, to);
      var target := Find(members, to);
      if target.None? || kind !in {"system", "decision"} || body.None? { return None; }
      LogIsNumbered(members, cap, messages, claims, requests, counts);
      var number := NextSeq();
      var m := HostMessage(number, envelope, target.value, kind, body.value);
      HostKeepsLog(members, cap, messages, claims, requests, counts, m);
      Persist(m);
      HostMailIsSeen(members, |old(messages)| + 1, envelope, target.value, kind, body.value);
      return Some(m);
    }
  }

  lemma LogIsNumbered(members: seq<Member>, cap: nat, messages: seq<Message>, claims: seq<Claim>,
                      requests: seq<Opened>, counts: map<string, nat>)
    requires LogOk(members, cap, messages, claims, requests, counts)
    ensures InSequence(messages) && ValidMembers(members)
  {
  }

  // The host opens no claim and no request.
  lemma HostKeepsLog(members: seq<Member>, cap: nat, messages: seq<Message>, claims: seq<Claim>,
                     requests: seq<Opened>, counts: map<string, nat>, m: Message)
    requires LogOk(members, cap, messages, claims, requests, counts) && m.number == |messages| + 1 && m.from == HOST
    ensures LogOk(members, cap, messages + [m], claims, requests, counts)
  {
    hide LogOk;
    AppendKeepsLog(members, cap, messages, claims, requests, counts, m);
    assert claims + ClaimFor(m) == claims && requests + RequestFor(m) == requests;
  }

  // Every report of an agent has exactly one claim, with its status.
  lemma OneClaimPerReport(members: seq<Member>, cap: nat, messages: seq<Message>, claims: seq<Claim>,
                          requests: seq<Opened>, counts: map<string, nat>, m: Message)
    requires LogOk(members, cap, messages, claims, requests, counts)
    requires m in messages && m.kind == "report" && m.from != HOST
    ensures m.status.Some?
    ensures exists i :: 0 <= i < |claims| && claims[i] == Claim(m.number, m.from, m.status.value)
                        && forall j :: 0 <= j < |claims| && claims[j].message == m.number ==> j == i
  {
    assert m.status.Some?;
    var c := Claim(m.number, m.from, m.status.value);
    ClaimsAre(messages, c);
    ClaimedOnce(messages);
    var i :| 0 <= i < |claims| && claims[i] == c;
    assert forall j :: 0 <= j < |claims| && claims[j].message == m.number ==> j == i;
  }
}
