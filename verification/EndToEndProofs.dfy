/** While every active manifest only grants reads of the session's own customer, nothing else
    ever reaches the CRM. */
module EndToEndProofs {
  import opened Wrappers
  import opened Json
  import opened UtcTime
  import opened Redaction
  import opened AuditEvents
  import opened AuditLog
  import opened Domain
  import ManifestSchema
  import opened Policy
  import opened Crm
  import SessionTokens
  import opened ToolCalls
  import opened EndToEnd

  /** A call the policy can have allowed: it reads the session's customer. */
  predicate OwnRead(call: Call) {
    && call.operation == "read_customer"
    && Lookup(call.parameters, "customer_id") == Some(Str(call.claims.customerId))
  }

  /** The request reads the customer of a session row of the same agent, stored earlier. */
  predicate SentOk(w: World, x: Sent) {
    && x.sessionId in w.sessions && x.sessionId in w.since
    && w.sessions[x.sessionId].agentId == x.agentId
    && x.request == Get(w.sessions[x.sessionId].customerId)
    && w.since[x.sessionId] < x.at < |w.past|
  }

  /** The caller's claims come from a stored session of the same agent. */
  predicate AdmittedOk(w: World, call: Call) {
    && call.claims.sessionId in w.sessions
    && w.sessions[call.claims.sessionId].agentId == call.agentId
    && w.sessions[call.claims.sessionId].customerId == call.claims.customerId
  }

  /** The call is what was asked: the presented claims, key, tool, operation, parameters, trace. */
  predicate AskedFor(call: Call, http: HttpCall) {
    && call.idempotencyKey == http.idempotencyKey && call.tool == http.tool && call.operation == http.operation
    && call.parameters == http.parameters && call.traceId == http.traceId
    && http.token.Sealed?
    && call.claims.sessionId == http.token.claims.sub && call.claims.tokenJti == http.token.claims.jti
    && call.claims.agentId == http.token.claims.agentId && call.claims.userId == http.token.claims.userId
    && call.claims.customerId == http.token.claims.customerId && call.agentId == call.claims.agentId
  }

  /** The caller held the scope and an agent token of an active agent, the session token was
      current, and its session was that agent's, active and unexpired, in the tables the check
      was made against. */
  predicate CheckedAgainst(found: Snapshot, a: Admission) {
    && AskedFor(a.call, a.http)
    && "tool:invoke" in a.http.principal.scopes && a.http.principal.tokenUse == "agent"
    && a.call.agentId in found.agents && found.agents[a.call.agentId].oidcSubject == a.http.principal.subject
    && found.agents[a.call.agentId].status.AgentActive?
    && a.http.token.claims.iat * SECOND <= a.decodedAt < a.http.token.claims.exp * SECOND
    && a.call.claims.sessionId in found.sessions
    && var row := found.sessions[a.call.claims.sessionId];
       && row.tokenJti == a.call.claims.tokenJti && row.agentId == a.call.agentId
       && row.userId == a.call.claims.userId && row.customerId == a.call.claims.customerId
       && row.status.SessionActive? && a.checkedAt < row.expiresAt
  }

  predicate AdmissionOk(w: World, a: Admission) {
    AdmittedOk(w, a.call) && a.at < |w.past| && CheckedAgainst(w.past[a.at], a)
  }

  /** The request was sent for the call admitted under its id, after it was admitted. */
  predicate SentForAdmitted(w: World, id: string) {
    && id in w.sent && id in w.admitted
    && w.sent[id].agentId == w.admitted[id].call.agentId
    && w.sent[id].sessionId == w.admitted[id].call.claims.sessionId
    && w.admitted[id].at < w.sent[id].at
  }

  predicate AdmissionsOk(w: World) {
    forall id :: id in w.admitted ==> AdmissionOk(w, w.admitted[id])
  }

  predicate SendersOk(w: World) {
    forall id :: id in w.sent ==> SentForAdmitted(w, id)
  }

  predicate PendingOk(w: World, id: string) {
    id in w.proxy.pending &&
    var call := w.proxy.pending[id].call;
    && OwnRead(call)
    && (call.tool == "crm" ==> id in w.sent && w.sent[id].request == Get(call.claims.customerId))
  }

  predicate RepliedAt(check: EmailCheck, w: World, m: nat, id: string)
    requires m < |w.past| && id in w.sent && id in w.replies
  {
    w.replies[id] == Handle(w.past[m].customers, w.sent[id].request, check).0
  }

  /** The reply was computed from the table some step between sending and now left. */
  predicate ReplyOk(check: EmailCheck, w: World, id: string) {
    id in w.sent && id in w.replies &&
    exists m :: w.sent[id].at <= m < |w.past| && RepliedAt(check, w, m, id)
  }

  predicate RowAt(w: World, m: nat, customerId: string, result: Option<Json>) {
    && m < |w.past| && customerId in w.past[m].customers
    && result == Some(CustomerJson(customerId, w.past[m].customers[customerId]))
  }

  ghost predicate ReadBetween(w: World, x: Sent, end: nat, result: Option<Json>) {
    exists m: nat :: x.at <= m < end && RowAt(w, m, x.request.customerId, result)
  }

  /** A 200 answer is the row of the customer asked for, as the CRM held it at some step between
      sending and answering. */
  ghost predicate AnswerOk(w: World, id: string) {
    id in w.proxy.returned && HttpStatus(w.proxy.returned[id]) == 200 ==>
      id in w.sent && id in w.answered
      && ReadBetween(w, w.sent[id], w.answered[id], w.proxy.returned[id].result)
  }

  ghost predicate Invariant(h: Hash, check: EmailCheck, w: World) {
    && ReadOnlyManifests(h, w.manifests)
    && w.since.Keys == w.sessions.Keys
    && (forall sid :: sid in w.since ==> w.since[sid] < Now(w))
    && w.proxy.pending.Keys <= w.proxy.used && w.sent.Keys <= w.proxy.used && w.proxy.returned.Keys <= w.proxy.used
    && (forall id :: id in w.answered ==> w.answered[id] < Now(w))
    && AdmissionsOk(w) && SendersOk(w)
    && (forall id :: id in w.sent ==> SentOk(w, w.sent[id]))
    && (forall id :: id in w.proxy.pending ==> PendingOk(w, id))
    && (forall id :: id in w.replies ==> ReplyOk(check, w, id))
    && (forall id :: id in w.proxy.returned ==> AnswerOk(w, id))
  }

  // ---------------------------------------------------------------- what policy allows

  /** Under read-only manifests, an allowed call reads the session's own customer. */
  lemma AllowedIsOwnRead(h: Hash, manifests: Manifests, tools: Tools, call: Call, now: Instant)
    requires ReadOnlyManifests(h, manifests)
    requires Evaluate(h, manifests, tools,
                      Request(call.agentId, call.claims, call.tool, call.operation, call.parameters, now)).allowed
    ensures OwnRead(call)
  {
    hide Evaluate;
    hide Canonical;
    hide AsUtc;
    hide Lookup;
    hide ManifestSchema.Decode;
    hide ManifestSchema.Conforms;
    var q := Request(call.agentId, call.claims, call.tool, call.operation, call.parameters, now);
    EvaluateExact(h, manifests, tools, q);
    assert Requirement(2, h, manifests, tools, q);
    assert Requirement(7, h, manifests, tools, q);
    assert Requirement(9, h, manifests, tools, q);
    var id := GetActive(manifests, q.agentId).value;
    assert IsActive(manifests, q.agentId, id);
    var d := ManifestSchema.Decode(manifests[id].document).value;
    assert ReadOnlyDocument(d);
    assert DocumentRequirement(7, d, ToolByName(tools, q.tool), q);
    assert DocumentRequirement(9, d, ToolByName(tools, q.tool), q);
    var rule := d.tools[q.tool].rules[q.operation];
    assert Scoped(rule, q);
  }

  /** The decision handed to the protocol is one the protocol expects. */
  lemma EvaluateAnswers(h: Hash, manifests: Manifests, tools: Tools, q: Request)
    ensures PolicyAnswer(Evaluate(h, manifests, tools, q))
  {
    hide Evaluate;
    hide Requirement;
    EvaluateExact(h, manifests, tools, q);
    var p := Evaluate(h, manifests, tools, q);
    if !p.allowed {
      var k: nat :| k < REQUIREMENTS && FirstFailure(k, h, manifests, tools, q) && p.reason == Code(k);
      CodesAreNotDuplicate(k);
    }
  }

  lemma CodesAreNotDuplicate(k: nat)
    ensures Code(k) != "DUPLICATE_REQUEST"
  {
    assert Code(k)[1] != 'U' || Code(k)[0] != 'D';
  }

  lemma OwnReadDispatch(call: Call)
    requires OwnRead(call)
    ensures DispatchCall(call.tool, call.operation, call.parameters) ==
            if call.tool == "crm" then Send(Get(call.claims.customerId)) else Refuse(ToolNotRegistered)
  {
    assert "read_customer" != "write_customer";
  }

  lemma ClaimsHaveRow(w: World, http: HttpCall, decodedAt: Instant, checkedAt: Instant)
    requires ClaimsFor(w, http, decodedAt, checkedAt).Some?
    ensures var call := CallFor(http, ClaimsFor(w, http, decodedAt, checkedAt).value);
      && AdmittedOk(w, call)
      && CheckedAgainst(Snapshot(w.agents, w.sessions, w.customers),
                        Admission(call, http, decodedAt, checkedAt, Now(w)))
  {
    hide SessionTokens.NonEmpty;
    hide ResolveAgent;
  }

  /** What the policy was asked about: a call let through is one that an active manifest of its
      agent, in force at that moment, grants by tool, operation and parameters. */
  lemma AllowedIsGranted(h: Hash, w: World, call: Call, now: Instant)
    requires PolicyFor(h, w, call, now).allowed
    ensures var active := GetActive(w.manifests, call.agentId);
      && active.Some?
      && var row := w.manifests[active.value];
         && AsUtc(row.effectiveFrom) <= now && (row.expiresAt.Some? ==> now < AsUtc(row.expiresAt.value))
         && ManifestSchema.Decode(row.document).Some?
         && var d := ManifestSchema.Decode(row.document).value;
            && call.tool in d.tools && call.operation in d.tools[call.tool].allowed
            && call.operation in d.tools[call.tool].rules
            && ManifestSchema.Conforms(d.tools[call.tool].rules[call.operation].schema, call.parameters)
  {
    hide Evaluate;
    hide ManifestSchema.Decode;
    hide ManifestSchema.Conforms;
    hide Canonical;
    hide Scoped;
    var q := Request(call.agentId, call.claims, call.tool, call.operation, call.parameters, now);
    EvaluateExact(h, w.manifests, w.tools, q);
    assert Requirement(1, h, w.manifests, w.tools, q) && Requirement(3, h, w.manifests, w.tools, q);
    assert Requirement(7, h, w.manifests, w.tools, q) && Requirement(8, h, w.manifests, w.tools, q);
  }

  /** What a suspended call wakes up with, by how its request fared. */
  lemma ExecutionExact(w: World, id: string, delivery: Delivery)
    requires id in w.proxy.pending && (id in w.sent && delivery.Delivered? ==> id in w.replies)
    ensures var call, e := w.proxy.pending[id].call, ExecutionFor(w, id, delivery);
      match DispatchCall(call.tool, call.operation, call.parameters)
      case Refuse(error) => e == Failed(error)
      case Raise => e.Escaped?
      case Send(_) =>
        && (delivery.LostInTime? ==> e == Failed(UpstreamTimeout))
        && (delivery.Unreached? ==> e == Failed(UpstreamError(None)))
        && (delivery.Delivered? && id in w.sent ==> e == Receive(w.replies[id]))
  {
    hide DispatchCall;
  }

  // ---------------------------------------------------------------- one step

  /** The world with one more table snapshot, everything in flight as it was. */
  predicate Quiet(w: World, w': World) {
    && |w'.past| == |w.past| + 1 && w'.past[..|w.past|] == w.past
    && w'.since.Keys == w'.sessions.Keys && w.sessions.Keys <= w'.sessions.Keys
    && (forall sid :: sid in w.sessions ==>
          && w'.sessions[sid].agentId == w.sessions[sid].agentId
          && w'.sessions[sid].customerId == w.sessions[sid].customerId)
    && (forall sid :: sid in w.since ==> sid in w'.since && w'.since[sid] == w.since[sid])
    && (forall sid :: sid in w'.since && sid !in w.since ==> w'.since[sid] == Now(w))
  }

  lemma QuietSnapshots(w: World, w': World, m: nat)
    requires Quiet(w, w') && m < |w.past|
    ensures w'.past[m] == w.past[m]
  {
    assert w'.past[..|w.past|][m] == w.past[m];
  }

  lemma CarryAdmissions(w: World, w': World)
    requires Quiet(w, w') && AdmissionsOk(w)
    requires forall id :: id in w'.admitted && id in w.admitted ==> w'.admitted[id] == w.admitted[id]
    requires forall id :: id in w'.admitted && id !in w.admitted ==> AdmissionOk(w', w'.admitted[id])
    ensures AdmissionsOk(w')
  {
    hide AdmissionOk;
    hide Quiet;
    forall id | id in w'.admitted ensures AdmissionOk(w', w'.admitted[id]) {
      if id in w.admitted { CarryAdmission(w, w', w.admitted[id]); }
    }
  }

  lemma CarrySenders(w: World, w': World)
    requires SendersOk(w) && forall id :: id in w.admitted ==> id in w'.admitted && w'.admitted[id] == w.admitted[id]
    requires forall id :: id in w'.sent ==> (id in w.sent && w'.sent[id] == w.sent[id]) || SentForAdmitted(w', id)
    ensures SendersOk(w')
  {
    forall id | id in w'.sent ensures SentForAdmitted(w', id) {
      if id in w.sent { assert SentForAdmitted(w, id); }
    }
  }

  lemma CarryAdmission(w: World, w': World, a: Admission)
    requires Quiet(w, w') && AdmissionOk(w, a)
    ensures AdmissionOk(w', a)
  {
    hide CheckedAgainst;
    QuietSnapshots(w, w', a.at);
  }

  lemma CarrySent(h: Hash, check: EmailCheck, w: World, w': World)
    requires Invariant(h, check, w) && Quiet(w, w')
    ensures forall id :: id in w.sent ==> SentOk(w', w.sent[id])
    ensures forall sid :: sid in w'.since ==> w'.since[sid] < Now(w')
    ensures forall id :: id in w.answered ==> w.answered[id] < Now(w')
  {
    hide ReplyOk;
    hide AnswerOk;
    hide PendingOk;
    hide ReadOnlyManifests;
    forall id | id in w.sent ensures SentOk(w', w.sent[id]) {
      assert SentOk(w, w.sent[id]);
    }
  }

  lemma CarryReply(check: EmailCheck, w: World, w': World, id: string)
    requires Quiet(w, w') && ReplyOk(check, w, id)
    requires id in w'.sent && w'.sent[id] == w.sent[id] && id in w'.replies && w'.replies[id] == w.replies[id]
    ensures ReplyOk(check, w', id)
  {
    hide Handle;
    var m :| w.sent[id].at <= m < |w.past| && RepliedAt(check, w, m, id);
    QuietSnapshots(w, w', m);
    assert RepliedAt(check, w', m, id);
  }

  lemma CarryAnswer(w: World, w': World, id: string)
    requires Quiet(w, w') && AnswerOk(w, id) && id in w.proxy.returned
    requires id in w.sent ==> id in w'.sent && w'.sent[id] == w.sent[id]
    requires id in w.answered ==> id in w'.answered && w.answered[id] <= w'.answered[id]
    requires id in w'.proxy.returned && w'.proxy.returned[id] == w.proxy.returned[id]
    ensures AnswerOk(w', id)
  {
    hide HttpStatus;
    if HttpStatus(w.proxy.returned[id]) == 200 {
      var m: nat :| w.sent[id].at <= m < w.answered[id]
                    && RowAt(w, m, w.sent[id].request.customerId, w.proxy.returned[id].result);
      QuietSnapshots(w, w', m);
      assert RowAt(w', m, w'.sent[id].request.customerId, w'.proxy.returned[id].result);
    }
  }

  /** Steps that leave everything in flight alone. */
  lemma QuietKeeps(h: Hash, check: EmailCheck, w: World, w': World)
    requires Invariant(h, check, w) && Quiet(w, w') && ReadOnlyManifests(h, w'.manifests)
    requires w'.proxy == w.proxy && w'.sent == w.sent && w'.replies == w.replies && w'.answered == w.answered
    requires forall id :: id in w.admitted ==> id in w'.admitted && w'.admitted[id] == w.admitted[id]
    requires forall id :: id in w'.admitted && id !in w.admitted ==> AdmissionOk(w', w'.admitted[id])
    ensures Invariant(h, check, w')
  {
    hide ReplyOk;
    hide AnswerOk;
    hide SentOk;
    hide AdmissionOk;
    hide AdmissionsOk;
    hide SendersOk;
    hide ReadOnlyManifests;
    CarrySent(h, check, w, w');
    CarryAdmissions(w, w');
    CarrySenders(w, w');
    forall id | id in w'.replies ensures ReplyOk(check, w', id) {
      ReplyUsed(h, check, w, id);
      CarryReply(check, w, w', id);
    }
    forall id | id in w'.proxy.returned ensures AnswerOk(w', id) { CarryAnswer(w, w', id); }
    forall id | id in w'.proxy.pending ensures PendingOk(w', id) { assert PendingOk(w, id); }
  }

  lemma BreakKeeps(h: Hash, check: EmailCheck, w: World, id: string)
    requires Invariant(h, check, w) && id in w.proxy.pending
    ensures Invariant(h, check, AfterBreak(w, id))
  {
    hide ReplyOk;
    hide AnswerOk;
    hide SentOk;
    hide AdmissionsOk;
    hide SendersOk;
    hide AdmissionOk;
    hide PendingOk;
    hide ReadOnlyManifests;
    var w' := AfterBreak(w, id);
    CarrySent(h, check, w, w');
    CarryAdmissions(w, w');
    CarrySenders(w, w');
    forall x | x in w'.replies ensures ReplyOk(check, w', x) {
      ReplyUsed(h, check, w, x);
      CarryReply(check, w, w', x);
    }
    forall x | x in w'.proxy.returned ensures AnswerOk(w', x) { CarryAnswer(w, w', x); }
    forall x | x in w'.proxy.pending ensures PendingOk(w', x) { PendingCarries(w, w', x); }
  }

  /** Serving a request that only reads leaves the table as it is. */
  lemma ServeReads(h: Hash, check: EmailCheck, w: World, id: string)
    requires Invariant(h, check, w) && id in w.sent
    ensures w.sent[id].request.Get?
    ensures Handle(w.customers, w.sent[id].request, check).1 == w.customers
  {
    hide ReplyOk;
    hide AnswerOk;
    hide PendingOk;
    hide ReadOnlyManifests;
    assert SentOk(w, w.sent[id]);
    HandleIsLocal(w.customers, w.sent[id].request, check);
  }

  lemma ServeKeeps(h: Hash, check: EmailCheck, w: World, id: string)
    requires Invariant(h, check, w) && id in w.sent && id !in w.replies
    ensures Invariant(h, check, AfterServe(w, id, check))
  {
    hide ReplyOk;
    hide AnswerOk;
    hide SentOk;
    hide AdmissionsOk;
    hide SendersOk;
    hide AdmissionOk;
    hide PendingOk;
    hide ReadOnlyManifests;
    hide Handle;
    var w' := AfterServe(w, id, check);
    CarrySent(h, check, w, w');
    CarryAdmissions(w, w');
    CarrySenders(w, w');
    forall x | x in w'.replies ensures ReplyOk(check, w', x) {
      if x != id {
        ReplyUsed(h, check, w, x);
        CarryReply(check, w, w', x);
      } else {
        ServedReply(check, w, id);
      }
    }
    forall x | x in w'.proxy.returned ensures AnswerOk(w', x) { CarryAnswer(w, w', x); }
    forall x | x in w'.proxy.pending ensures PendingOk(w', x) { PendingCarries(w, w', x); }
  }

  lemma ServedReply(check: EmailCheck, w: World, id: string)
    requires id in w.sent && SentOk(w, w.sent[id])
    ensures ReplyOk(check, AfterServe(w, id, check), id)
  {
    hide Handle;
    var w' := AfterServe(w, id, check);
    var m := Now(w);
    assert w'.past[m].customers == w.customers;
    assert RepliedAt(check, w', m, id);
  }

  // ---------------------------------------------------------------- the two protocol steps

  lemma BeginFacts(h: Hash, s: State, id: string, call: Call, policy: PolicyDecision, t: Tick)
    requires id !in s.used && Representable(t.now) && s.pending.Keys <= s.used && s.returned.Keys <= s.used
    requires PolicyAnswer(policy)
    ensures var s' := ToolCalls.Begin(h, s, id, call, policy, t);
      && s'.used == s.used + {id}
      && s'.pending.Keys <= s'.used && s'.returned.Keys <= s'.used
      && (forall x :: x in s'.pending && x != id ==> x in s.pending && s'.pending[x] == s.pending[x])
      && (forall x :: x in s'.returned && x != id ==> x in s.returned && s'.returned[x] == s.returned[x])
      && (id in s'.pending ==> policy.allowed && s'.pending[id].call == call)
      && (id in s'.returned ==> HttpStatus(s'.returned[id]) != 200)
  {
    hide NewRow;
    hide Insertable;
    hide Representable;
    hide HasKey;
    hide FirstEvent;
  }

  /** What is known of a call that reaches the protocol under read-only manifests. */
  predicate Vetted(w: World, call: Call, policy: PolicyDecision) {
    && PolicyAnswer(policy)
    && (policy.allowed ==> OwnRead(call))
    && AdmittedOk(w, call)
  }

  lemma AdmittedIsVetted(h: Hash, w: World, call: Call, evaluatedAt: Instant)
    requires ReadOnlyManifests(h, w.manifests) && AdmittedOk(w, call)
    ensures Vetted(w, call, PolicyFor(h, w, call, evaluatedAt))
  {
    hide ReadOnlyManifests;
    hide AdmissionOk;
    hide Evaluate;
    hide OwnRead;
    EvaluateAnswers(h, w.manifests, w.tools,
                    Request(call.agentId, call.claims, call.tool, call.operation, call.parameters, evaluatedAt));
    if PolicyFor(h, w, call, evaluatedAt).allowed { AllowedIsOwnRead(h, w.manifests, w.tools, call, evaluatedAt); }
  }

  /** What beginning a call leaves as it was. */
  lemma BeginShape(h: Hash, w: World, id: string, call: Call, policy: PolicyDecision, tick: Tick)
    requires id !in w.proxy.used && Representable(tick.now) && w.since.Keys == w.sessions.Keys
    ensures var w' := AfterBegin(h, w, id, call, policy, tick);
      && Quiet(w, w') && w'.manifests == w.manifests && w'.since == w.since && w'.sessions == w.sessions
      && w'.replies == w.replies && w'.answered == w.answered && w'.admitted == w.admitted
      && w'.proxy == ToolCalls.Begin(h, w.proxy, id, call, policy, tick)
      && w'.sent.Keys <= w.sent.Keys + {id}
      && (id in w'.sent && id !in w.sent ==> id in w'.proxy.pending)
      && (forall x :: x in w.sent && x != id ==> x in w'.sent && w'.sent[x] == w.sent[x])
  {
    hide ToolCalls.Begin;
    hide DispatchCall;
    hide Representable;
  }

  lemma BeginKeeps(h: Hash, check: EmailCheck, w: World, id: string, call: Call, policy: PolicyDecision, tick: Tick)
    requires Invariant(h, check, w) && id !in w.proxy.used && Representable(tick.now) && Vetted(w, call, policy)
    requires id in w.admitted && w.admitted[id].call == call && w.admitted[id].at < Now(w)
    ensures Invariant(h, check, AfterBegin(h, w, id, call, policy, tick))
  {
    hide ReplyOk;
    hide AnswerOk;
    hide SentOk;
    hide AdmissionsOk;
    hide SendersOk;
    hide AdmissionOk;
    hide PendingOk;
    hide SentForAdmitted;
    hide ReadOnlyManifests;
    hide ToolCalls.Begin;
    hide AfterBegin;
    hide Quiet;
    hide Representable;
    hide OwnRead;
    hide HttpStatus;
    hide PolicyAnswer;
    var w' := AfterBegin(h, w, id, call, policy, tick);
    BeginFacts(h, w.proxy, id, call, policy, tick);
    BeginShape(h, w, id, call, policy, tick);
    CarrySent(h, check, w, w');
    CarryAdmissions(w, w');
    if id in w'.proxy.pending { BegunPending(h, w, id, call, policy, tick); }
    if id in w'.proxy.returned { NotOkIsFine(w', id); }
    CarrySenders(w, w');
    CarryOthers(h, check, w, w', id);
  }

  /** Replies, answers and pending calls other than `id` hold on. */
  lemma CarryOthers(h: Hash, check: EmailCheck, w: World, w': World, id: string)
    requires Invariant(h, check, w) && Quiet(w, w') && w'.replies == w.replies
    requires forall x :: x in w.answered ==> x in w'.answered && w.answered[x] <= w'.answered[x]
    requires forall x :: x in w.sent ==> x in w'.sent && w'.sent[x] == w.sent[x]
    requires forall x :: x in w'.proxy.pending && x != id ==>
      x in w.proxy.pending && w'.proxy.pending[x] == w.proxy.pending[x]
    requires forall x :: x in w'.proxy.returned && x != id ==>
      x in w.proxy.returned && w'.proxy.returned[x] == w.proxy.returned[x]
    requires id in w'.proxy.pending ==> PendingOk(w', id)
    requires id in w'.proxy.returned ==> AnswerOk(w', id)
    ensures forall x :: x in w'.replies ==> ReplyOk(check, w', x)
    ensures forall x :: x in w'.proxy.returned ==> AnswerOk(w', x)
    ensures forall x :: x in w'.proxy.pending ==> PendingOk(w', x)
  {
    hide ReplyOk;
    hide AnswerOk;
    hide SentOk;
    hide AdmissionsOk;
    hide SendersOk;
    hide AdmissionOk;
    hide PendingOk;
    hide ReadOnlyManifests;
    hide HttpStatus;
    hide Quiet;
    forall x | x in w'.replies ensures ReplyOk(check, w', x) {
      ReplyUsed(h, check, w, x);
      CarryReply(check, w, w', x);
    }
    forall x | x in w'.proxy.returned ensures AnswerOk(w', x) {
      if x != id { CarryAnswer(w, w', x); }
    }
    forall x | x in w'.proxy.pending ensures PendingOk(w', x) {
      if x != id { PendingCarries(w, w', x); }
    }
  }

  /** A call forwarded just now reads its session's customer, and so does its request. */
  lemma BegunPending(h: Hash, w: World, id: string, call: Call, policy: PolicyDecision, tick: Tick)
    requires id !in w.proxy.used && Representable(tick.now) && Vetted(w, call, policy)
    requires w.since.Keys == w.sessions.Keys && forall sid :: sid in w.since ==> w.since[sid] < Now(w)
    requires var proxy := ToolCalls.Begin(h, w.proxy, id, call, policy, tick);
      id in proxy.pending && policy.allowed && proxy.pending[id].call == call && id !in w.sent
    requires id in w.admitted && w.admitted[id].call == call && w.admitted[id].at < Now(w)
    ensures var w' := AfterBegin(h, w, id, call, policy, tick);
      PendingOk(w', id) && (id in w'.sent ==> SentOk(w', w'.sent[id]) && SentForAdmitted(w', id))
  {
    hide ToolCalls.Begin;
    hide DispatchCall;
    hide Representable;
    OwnReadDispatch(call);
  }

  lemma ReplyUsed(h: Hash, check: EmailCheck, w: World, id: string)
    requires Invariant(h, check, w) && ReplyOk(check, w, id)
    ensures id in w.proxy.used && id in w.sent
  {
  }

  lemma NotOkIsFine(w: World, id: string)
    requires id in w.proxy.returned && HttpStatus(w.proxy.returned[id]) != 200
    ensures AnswerOk(w, id)
  {
  }

  lemma PendingCarries(w: World, w': World, id: string)
    requires PendingOk(w, id) && id in w'.proxy.pending && w'.proxy.pending[id] == w.proxy.pending[id]
    requires id in w.sent ==> id in w'.sent && w'.sent[id] == w.sent[id]
    ensures PendingOk(w', id)
  {
  }

  lemma ResumeFacts(h: Hash, s: State, id: string, execution: Execution, t: Tick)
    requires id in s.pending && Representable(t.now)
    ensures var s' := ToolCalls.Resume(h, s, id, execution, t);
      && s'.used == s.used && s'.pending == s.pending - {id}
      && (forall x :: x in s'.returned && x != id ==> x in s.returned && s'.returned[x] == s.returned[x])
      && s'.returned.Keys <= s.returned.Keys + {id}
      && (id in s'.returned && id !in s.returned ==>
            !execution.Escaped? && s'.returned[id] == FinalOutcome(id, execution))
      && (id in s'.returned && id in s.returned ==>
            s'.returned[id] == s.returned[id]
            || (!execution.Escaped? && s'.returned[id] == FinalOutcome(id, execution)))
  {
    hide NewRow;
    hide Insertable;
    hide Representable;
    hide FinalEvent;
    hide FinalOutcome;
  }

  /** A finished read answers 200 only with the row it was sent for. */
  lemma FinishedRead(check: EmailCheck, w: World, id: string, delivery: Delivery)
    requires PendingOk(w, id) && (id in w.sent && delivery.Delivered? ==> id in w.replies)
    requires id in w.replies ==> ReplyOk(check, w, id)
    requires var e := ExecutionFor(w, id, delivery); !e.Escaped? && HttpStatus(FinalOutcome(id, e)) == 200
    ensures id in w.sent
    ensures ReadBetween(w, w.sent[id], Now(w), FinalOutcome(id, ExecutionFor(w, id, delivery)).result)
  {
    hide ReplyOk;
    hide DispatchCall;
    hide OwnRead;
    hide RowAt;
    var call := w.proxy.pending[id].call;
    OwnReadDispatch(call);
    assert id in w.sent && delivery.Delivered? && Receive(w.replies[id]).Done?;
    DeliveredRow(check, w, id);
  }

  lemma DeliveredRow(check: EmailCheck, w: World, id: string)
    requires ReplyOk(check, w, id) && Receive(w.replies[id]).Done? && w.sent[id].request.Get?
    ensures ReadBetween(w, w.sent[id], Now(w), Receive(w.replies[id]).result)
  {
    var m :| w.sent[id].at <= m < |w.past| && RepliedAt(check, w, m, id);
    assert RowAt(w, m, w.sent[id].request.customerId, Receive(w.replies[id]).result);
  }

  lemma AnswerShape(h: Hash, w: World, id: string, execution: Execution, tick: Tick)
    requires id in w.proxy.pending && Representable(tick.now) && w.since.Keys == w.sessions.Keys
    ensures var w' := AfterAnswer(h, w, id, execution, tick);
      && Quiet(w, w') && w'.manifests == w.manifests && w'.since == w.since && w'.sessions == w.sessions
      && w'.replies == w.replies && w'.sent == w.sent && w'.admitted == w.admitted
      && w'.answered == w.answered[id := Now(w)] && Now(w') == Now(w) + 1
      && w'.proxy == ToolCalls.Resume(h, w.proxy, id, execution, tick)
  {
    hide ToolCalls.Resume;
    hide Representable;
  }

  /** The answer a resumed call gives, if it gives one. */
  lemma AnswerGiven(h: Hash, check: EmailCheck, w: World, id: string, delivery: Delivery, tick: Tick)
    requires PendingOk(w, id) && Representable(tick.now) && w.since.Keys == w.sessions.Keys
    requires id in w.sent && delivery.Delivered? ==> id in w.replies
    requires id in w.replies ==> ReplyOk(check, w, id)
    requires id in w.proxy.returned ==> AnswerOk(w, id)
    requires id in w.answered ==> w.answered[id] < Now(w)
    ensures var w' := AfterAnswer(h, w, id, ExecutionFor(w, id, delivery), tick);
      id in w'.proxy.returned ==> AnswerOk(w', id)
  {
    hide ReplyOk;
    hide AnswerOk;
    hide ReadBetween;
    hide Quiet;
    hide AfterAnswer;
    hide ToolCalls.Resume;
    hide ExecutionFor;
    hide Representable;
    hide FinalOutcome;
    hide HttpStatus;
    hide OwnRead;
    var e := ExecutionFor(w, id, delivery);
    var w' := AfterAnswer(h, w, id, e, tick);
    ResumeFacts(h, w.proxy, id, e, tick);
    AnswerShape(h, w, id, e, tick);
    if id in w'.proxy.returned {
      if id in w.proxy.returned && w'.proxy.returned[id] == w.proxy.returned[id] {
        CarryAnswer(w, w', id);
      } else if HttpStatus(w'.proxy.returned[id]) == 200 {
        FinishedRead(check, w, id, delivery);
        AnsweredNow(w, w', id);
      } else {
        NotOkIsFine(w', id);
      }
    }
  }

  lemma AnswerKeeps(h: Hash, check: EmailCheck, w: World, id: string, delivery: Delivery, tick: Tick)
    requires Invariant(h, check, w) && id in w.proxy.pending && Representable(tick.now)
    requires id in w.sent && delivery.Delivered? ==> id in w.replies
    ensures Invariant(h, check, AfterAnswer(h, w, id, ExecutionFor(w, id, delivery), tick))
  {
    hide ReplyOk;
    hide SentOk;
    hide AdmissionsOk;
    hide SendersOk;
    hide AdmissionOk;
    hide PendingOk;
    hide AnswerOk;
    hide ReadOnlyManifests;
    hide Quiet;
    hide AfterAnswer;
    hide ToolCalls.Resume;
    hide ExecutionFor;
    hide Representable;
    hide FinalOutcome;
    var e := ExecutionFor(w, id, delivery);
    var w' := AfterAnswer(h, w, id, e, tick);
    ResumeFacts(h, w.proxy, id, e, tick);
    AnswerShape(h, w, id, e, tick);
    CarrySent(h, check, w, w');
    CarryAdmissions(w, w');
    CarrySenders(w, w');
    AnswerGiven(h, check, w, id, delivery, tick);
    CarryOthers(h, check, w, w', id);
  }

  lemma AnsweredNow(w: World, w': World, id: string)
    requires Quiet(w, w') && w'.sent == w.sent && id in w.sent && id in w'.proxy.returned
    requires id in w'.answered && w'.answered[id] == Now(w)
    requires ReadBetween(w, w.sent[id], Now(w), w'.proxy.returned[id].result)
    ensures AnswerOk(w', id)
  {
    hide HttpStatus;
    var m: nat :| w.sent[id].at <= m < Now(w)
                  && RowAt(w, m, w.sent[id].request.customerId, w'.proxy.returned[id].result);
    QuietSnapshots(w, w', m);
    assert RowAt(w', m, w'.sent[id].request.customerId, w'.proxy.returned[id].result);
  }

  /** The control plane's own steps. */
  predicate IsControl(step: WorldStep) {
    !step.Admit? && !step.Execute? && !step.Serve? && !step.Answer? && !step.Break?
  }

  lemma CreateIsQuiet(w: World, agentId: string, userId: string, customerId: string, creator: string,
                      ttl: Option<int>, now: Instant, id: string, jti: string)
    requires w.since.Keys == w.sessions.Keys && id !in w.sessions
    ensures var w' := AfterCreate(w, WithCreated(w, agentId, userId, customerId, creator, ttl, now, id, jti), id);
      Quiet(w, w') && InFlightKept(w, w') && w'.customers == w.customers
  {
    hide SessionTokens.CreateError;
    hide SessionTokens.RequestedTtl;
  }

  lemma RevokeIsQuiet(w: World, id: string, now: Instant)
    requires w.since.Keys == w.sessions.Keys
    ensures Quiet(w, AfterRevoke(w, id, now)) && InFlightKept(w, AfterRevoke(w, id, now))
    ensures AfterRevoke(w, id, now).customers == w.customers
  {
  }

  predicate InFlightKept(w: World, w': World) {
    && w'.admitted == w.admitted && w'.proxy == w.proxy && w'.sent == w.sent
    && w'.replies == w.replies && w'.answered == w.answered && w'.manifests == w.manifests
  }

  lemma ControlIsQuiet(h: Hash, check: EmailCheck, w: World, step: WorldStep)
    requires w.since.Keys == w.sessions.Keys && Possible(h, w, step) && IsControl(step)
    ensures var w' := NextWorld(h, check, w, step);
      && Quiet(w, w') && InFlightKept(w, w'.(manifests := w.manifests))
      && (step.EditManifests? || w'.manifests == w.manifests)
      && (!step.OutsideEdit? ==> w'.customers == w.customers)
  {
    hide ReadOnlyManifests;
    hide AfterAdmit;
    hide AfterBegin;
    hide PolicyFor;
    hide AfterServe;
    hide AfterAnswer;
    hide AfterBreak;
    hide AfterCreate;
    hide AfterRevoke;
    hide ExecutionFor;
    hide Representable;
    match step
    case CreateSession(agentId, userId, customerId, creator, ttl, now, id, jti) =>
      CreateIsQuiet(w, agentId, userId, customerId, creator, ttl, now, id, jti);
    case RevokeSession(id, now) => RevokeIsQuiet(w, id, now);
    case _ =>
  }

  lemma StepKeepsInvariant(h: Hash, check: EmailCheck, w: World, step: WorldStep)
    requires Invariant(h, check, w) && Possible(h, w, step)
    ensures Invariant(h, check, NextWorld(h, check, w, step))
  {
    hide Invariant;
    hide ReadOnlyManifests;
    hide AfterBegin;
    hide AfterServe;
    hide AfterAnswer;
    hide AfterBreak;
    hide AfterCreate;
    hide AfterRevoke;
    hide ExecutionFor;
    hide ClaimsFor;
    hide Vetted;
    hide Representable;
    match step
    case Admit(id, http, decodedAt, checkedAt) => AdmitKeeps(h, check, w, id, http, decodedAt, checkedAt);
    case Execute(id, evaluatedAt, tick) => ExecuteKeeps(h, check, w, id, evaluatedAt, tick);
    case Serve(id) => ServeKeeps(h, check, w, id);
    case Answer(id, delivery, tick) => AnswerKeeps(h, check, w, id, delivery, tick);
    case Break(id) => BreakKeeps(h, check, w, id);
    case _ =>
      KeysAgree(h, check, w);
      ControlIsQuiet(h, check, w, step);
      QuietKeeps(h, check, w, NextWorld(h, check, w, step));
  }

  lemma AdmitKeeps(h: Hash, check: EmailCheck, w: World, id: string, http: HttpCall, decodedAt: Instant,
                   checkedAt: Instant)
    requires Invariant(h, check, w) && id !in w.admitted
    ensures Invariant(h, check, AfterAdmit(w, WithAdmitted(w, id, http, decodedAt, checkedAt)))
  {
    hide ReplyOk;
    hide AnswerOk;
    hide SentOk;
    hide PendingOk;
    hide SendersOk;
    hide ReadOnlyManifests;
    hide ClaimsFor;
    hide Invariant;
    hide AdmissionOk;
    var w' := AfterAdmit(w, WithAdmitted(w, id, http, decodedAt, checkedAt));
    if ClaimsFor(w, http, decodedAt, checkedAt).Some? { AdmittedNow(w, id, http, decodedAt, checkedAt); }
    KeysAgree(h, check, w);
    QuietKeeps(h, check, w, w');
  }

  lemma AdmittedNow(w: World, id: string, http: HttpCall, decodedAt: Instant, checkedAt: Instant)
    requires ClaimsFor(w, http, decodedAt, checkedAt).Some?
    ensures var w' := AfterAdmit(w, WithAdmitted(w, id, http, decodedAt, checkedAt));
      id in w'.admitted && AdmissionOk(w', w'.admitted[id])
  {
    hide ClaimsFor;
    hide CheckedAgainst;
    ClaimsHaveRow(w, http, decodedAt, checkedAt);
  }

  lemma ExecuteKeeps(h: Hash, check: EmailCheck, w: World, id: string, evaluatedAt: Instant, tick: Tick)
    requires Invariant(h, check, w) && id in w.admitted && id !in w.proxy.used && Representable(tick.now)
    ensures var call := w.admitted[id].call;
      Invariant(h, check, AfterBegin(h, w, id, call, PolicyFor(h, w, call, evaluatedAt), tick))
  {
    hide ReplyOk;
    hide AnswerOk;
    hide SentOk;
    hide PendingOk;
    hide ReadOnlyManifests;
    hide AdmittedOk;
    hide CheckedAgainst;
    hide SentForAdmitted;
    hide AfterBegin;
    hide Vetted;
    hide Representable;
    hide PolicyFor;
    AdmittedIsVetted(h, w, w.admitted[id].call, evaluatedAt);
    BeginKeeps(h, check, w, id, w.admitted[id].call, PolicyFor(h, w, w.admitted[id].call, evaluatedAt), tick);
  }

  lemma KeysAgree(h: Hash, check: EmailCheck, w: World)
    requires Invariant(h, check, w)
    ensures w.since.Keys == w.sessions.Keys && ReadOnlyManifests(h, w.manifests)
  {
    hide ReadOnlyManifests;
  }

  lemma BeginLeavesCustomers(h: Hash, w: World, id: string, call: Call, policy: PolicyDecision, tick: Tick)
    requires id !in w.proxy.used && Representable(tick.now)
    ensures AfterBegin(h, w, id, call, policy, tick).customers == w.customers
  {
    hide ToolCalls.Begin;
    hide DispatchCall;
    hide Representable;
  }

  /** Nothing but an outside edit changes the customer table. */
  lemma StepLeavesCustomers(h: Hash, check: EmailCheck, w: World, step: WorldStep)
    requires Invariant(h, check, w) && Possible(h, w, step) && !step.OutsideEdit?
    ensures NextWorld(h, check, w, step).customers == w.customers
  {
    hide Invariant;
    hide ToolCalls.Resume;
    hide Handle;
    hide ExecutionFor;
    hide ReadOnlyManifests;
    hide AfterCreate;
    hide AfterRevoke;
    hide WithAdmitted;
    hide AfterBegin;
    hide PolicyFor;
    hide Representable;
    hide Quiet;
    hide InFlightKept;
    match step
    case Serve(id) => ServeReads(h, check, w, id);
    case Admit(_, _, _, _) =>
    case Execute(id, evaluatedAt, tick) =>
      BeginLeavesCustomers(h, w, id, w.admitted[id].call, PolicyFor(h, w, w.admitted[id].call, evaluatedAt), tick);
    case Answer(_, _, _) =>
    case Break(_) =>
    case _ =>
      KeysAgree(h, check, w);
      ControlIsQuiet(h, check, w, step);
  }

  // ---------------------------------------------------------------- every run

  lemma {:induction false} RunKeepsInvariant(h: Hash, check: EmailCheck, start: World, steps: seq<WorldStep>)
    requires Invariant(h, check, start) && RunWorld(h, check, start, steps).Some?
    ensures Invariant(h, check, RunWorld(h, check, start, steps).value)
  {
    hide Invariant;
    hide NextWorld;
    hide Possible;
    if steps != [] {
      var before := steps[..|steps| - 1];
      RunKeepsInvariant(h, check, start, before);
      StepKeepsInvariant(h, check, RunWorld(h, check, start, before).value, steps[|steps| - 1]);
    }
  }

  lemma StartInvariant(h: Hash, check: EmailCheck, settings: SessionTokens.Settings, agents: Agents, tools: Tools,
                       manifests: Manifests, customers: Customers)
    requires ReadOnlyManifests(h, manifests)
    ensures Invariant(h, check, Start(settings, agents, tools, manifests, customers))
  {
    hide ReadOnlyManifests;
  }

  /** In every run under read-only manifests: every request sent to the CRM reads the customer
      of a session stored earlier for the same agent; it was sent for a call admitted before,
      whose caller was that agent's active identity and whose session was active and unexpired
      when checked; and every 200 answer is that customer's row as the CRM held it at some
      moment between the sending and the answer. */
  lemma OnlyOwnReadsReachTheCrm(h: Hash, check: EmailCheck, settings: SessionTokens.Settings, agents: Agents,
                                tools: Tools, manifests: Manifests, customers: Customers, steps: seq<WorldStep>)
    requires ReadOnlyManifests(h, manifests)
    requires RunWorld(h, check, Start(settings, agents, tools, manifests, customers), steps).Some?
    ensures var w := RunWorld(h, check, Start(settings, agents, tools, manifests, customers), steps).value;
      && (forall id :: id in w.sent ==> SentOk(w, w.sent[id]))
      && SendersOk(w) && AdmissionsOk(w)
      && (forall id :: id in w.proxy.returned ==> AnswerOk(w, id))
  {
    hide ReadOnlyManifests;
    hide RunWorld;
    hide SendersOk;
    hide AdmissionsOk;
    hide Start;
    hide SentOk;
    hide AdmissionOk;
    hide AnswerOk;
    StartInvariant(h, check, settings, agents, tools, manifests, customers);
    RunKeepsInvariant(h, check, Start(settings, agents, tools, manifests, customers), steps);
  }

  predicate NoOutsideEdits(steps: seq<WorldStep>) {
    forall i :: 0 <= i < |steps| ==> !steps[i].OutsideEdit?
  }

  /** In every run in which only the proxy talks to it, the CRM's customer table never changes. */
  lemma {:induction false} ProxyNeverChangesCustomers(
      h: Hash, check: EmailCheck, settings: SessionTokens.Settings, agents: Agents, tools: Tools,
      manifests: Manifests, customers: Customers, steps: seq<WorldStep>)
    requires ReadOnlyManifests(h, manifests) && NoOutsideEdits(steps)
    requires RunWorld(h, check, Start(settings, agents, tools, manifests, customers), steps).Some?
    ensures RunWorld(h, check, Start(settings, agents, tools, manifests, customers), steps).value.customers == customers
  {
    hide ReadOnlyManifests;
    hide NextWorld;
    hide Possible;
    hide Invariant;
    var start := Start(settings, agents, tools, manifests, customers);
    if steps != [] {
      var before := steps[..|steps| - 1];
      ProxyNeverChangesCustomers(h, check, settings, agents, tools, manifests, customers, before);
      StartInvariant(h, check, settings, agents, tools, manifests, customers);
      RunKeepsInvariant(h, check, start, before);
      StepLeavesCustomers(h, check, RunWorld(h, check, start, before).value, steps[|steps| - 1]);
    }
  }

  // ---------------------------------------------------------------- the protocol inside

  /** The protocol steps one step of the world takes. */
  ghost function ProtocolSteps(h: Hash, w: World, step: WorldStep): seq<Step>
    requires Possible(h, w, step)
  {
    match step
    case Execute(id, evaluatedAt, tick) =>
      [BeginStep(id, w.admitted[id].call, PolicyFor(h, w, w.admitted[id].call, evaluatedAt), tick)]
    case Answer(id, delivery, tick) => [ResumeStep(id, ExecutionFor(w, id, delivery), tick)]
    case Break(id) => [EscapeStep(id)]
    case _ => []
  }

  /** Every run of the world is a run of the tool-call protocol, with the evaluator's own
      decisions: what is proved of the protocol holds end to end. */
  lemma {:induction false} WorldRunsProtocol(h: Hash, check: EmailCheck, start: World, steps: seq<WorldStep>)
    returns (inner: seq<Step>)
    requires start.proxy == ToolCalls.INITIAL && RunWorld(h, check, start, steps).Some?
    ensures ToolCalls.Run(h, inner) == Some(RunWorld(h, check, start, steps).value.proxy)
  {
    hide NextWorld;
    hide Possible;
    hide ToolCalls.Next;
    hide ToolCalls.Enabled;
    if steps == [] {
      inner := [];
    } else {
      var before, step := steps[..|steps| - 1], steps[|steps| - 1];
      inner := WorldRunsProtocol(h, check, start, before);
      var w := RunWorld(h, check, start, before).value;
      var more := ProtocolSteps(h, w, step);
      StepIsProtocol(h, check, w, step);
      if more != [] {
        assert (inner + more)[..|inner|] == inner;
        assert (inner + more)[|inner|] == more[0];
        inner := inner + more;
      }
    }
  }

  lemma StepIsProtocol(h: Hash, check: EmailCheck, w: World, step: WorldStep)
    requires Possible(h, w, step)
    ensures var more := ProtocolSteps(h, w, step);
      && |more| <= 1
      && (more == [] ==> NextWorld(h, check, w, step).proxy == w.proxy)
      && (more != [] ==> ToolCalls.Enabled(w.proxy, more[0])
                         && NextWorld(h, check, w, step).proxy == ToolCalls.Next(h, w.proxy, more[0]))
  {
    hide ToolCalls.Begin;
    hide ToolCalls.Resume;
    hide ExecutionFor;
    hide Evaluate;
    hide Handle;
    hide ClaimsFor;
    hide Representable;
    hide DispatchCall;
    hide ReadOnlyManifests;
    hide PolicyAnswer;
    hide WithCreated;
    hide WithRevoked;
    match step
    case Execute(id, evaluatedAt, _) =>
      var call := w.admitted[id].call;
      EvaluateAnswers(h, w.manifests, w.tools,
                      Request(call.agentId, call.claims, call.tool, call.operation, call.parameters, evaluatedAt));
    case _ =>
  }
}
