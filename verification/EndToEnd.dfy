/**
 * The whole path from a tool-call request to the CRM and back: identity, session, policy,
 * protocol, adapter, CRM. Control-plane tables change underneath, requests in flight are
 * served whenever the CRM gets to them, replies may be lost, and other clients may edit the
 * CRM directly.
 */
module EndToEnd {
  import opened Wrappers
  import opened Json
  import opened UtcTime
  import opened AuditEvents
  import opened Domain
  import ManifestSchema
  import opened Policy
  import opened Crm
  import SessionTokens
  import opened ToolCalls

  /** A decoded access token. */
  datatype Principal = Principal(subject: string, tokenUse: string, scopes: set<string>)

  predicate IsSubject(agents: Agents, subject: string, id: string) {
    id in agents && agents[id].oidcSubject == subject
  }

  predicate MayInvoke(p: Principal) {
    "tool:invoke" in p.scopes && p.tokenUse == "agent"
  }

  /** `require_scopes` and `resolve_active_agent`; the subject column is unique. */
  ghost function ResolveAgent(agents: Agents, p: Principal): (r: Option<string>)
    ensures r.Some? ==>
      && "tool:invoke" in p.scopes && p.tokenUse == "agent"
      && r.value in agents && agents[r.value].oidcSubject == p.subject && agents[r.value].status.AgentActive?
    ensures r.None? && "tool:invoke" in p.scopes && p.tokenUse == "agent" ==>
      (forall id :: !IsSubject(agents, p.subject, id))
      || exists id :: IsSubject(agents, p.subject, id) && !agents[id].status.AgentActive?
  {
    if !MayInvoke(p) then None
    else if id :| IsSubject(agents, p.subject, id) then (if agents[id].status.AgentActive? then Some(id) else None)
    else None
  }

  /** One HTTP call: who presents what, and what is asked. */
  datatype HttpCall = HttpCall(
    principal: Principal,
    token: SessionTokens.Token,
    idempotencyKey: string,
    tool: string,
    operation: string,
    parameters: seq<Field>,
    traceId: Option<string>)

  /** A request handed to the transport at step `at`, on behalf of a session. */
  datatype Sent = Sent(request: CrmRequest, agentId: string, sessionId: string, at: nat)

  /** A call whose caller and session were checked at step `at`. */
  datatype Admission = Admission(call: Call, http: HttpCall, decodedAt: Instant, checkedAt: Instant, at: nat)

  datatype Snapshot = Snapshot(agents: Agents, sessions: Sessions, customers: Customers)

  /** `past[i]` are the tables as step `i` found them; `since` is the step each session was
      created at, `admitted` every call let in so far, `answered` the step each adapter call
      ended at. */
  datatype World = World(
    settings: SessionTokens.Settings,
    agents: Agents,
    tools: Tools,
    manifests: Manifests,
    sessions: Sessions,
    since: map<string, nat>,
    admitted: map<string, Admission>,
    proxy: State,
    sent: map<string, Sent>,
    replies: map<string, Transport>,
    answered: map<string, nat>,
    customers: Customers,
    past: seq<Snapshot>)

  function Now(w: World): nat {
    |w.past|
  }

  function Advance(w: World, customers: Customers): World {
    w.(customers := customers, past := w.past + [Snapshot(w.agents, w.sessions, w.customers)])
  }

  datatype Delivery = Delivered | LostInTime | Unreached

  datatype WorldStep =
    | EditAgents(agents: Agents)
    | EditTools(tools: Tools)
    | EditManifests(manifests: Manifests)
    | CreateSession(agentId: string, userId: string, customerId: string, creator: string, ttl: Option<int>,
                    now: Instant, id: string, jti: string)
    | RevokeSession(id: string, now: Instant)
    | Admit(id: string, http: HttpCall, decodedAt: Instant, checkedAt: Instant)
    | Execute(id: string, evaluatedAt: Instant, tick: Tick)
    | Serve(id: string)
    | Answer(id: string, delivery: Delivery, tick: Tick)
    | Break(id: string)
    | OutsideEdit(customers: Customers)

  /** The document grants only reads of the session's own customer. */
  ghost predicate ReadOnlyDocument(d: ManifestSchema.ManifestDocument) {
    forall tool, op :: tool in d.tools && op in d.tools[tool].allowed ==>
      && op == "read_customer"
      && op in d.tools[tool].rules
      && d.tools[tool].rules[op].scope.Some?
      && ManifestSchema.ScopeRule(ManifestSchema.CustomerIdClaim, "customer_id") in d.tools[tool].rules[op].scope.value
  }

  /** Every active manifest that is intact and parses is read-only. */
  ghost predicate ReadOnlyManifests(h: Hash, manifests: Manifests) {
    forall id :: id in manifests && manifests[id].status.Active?
                 && Checksum(h, manifests[id].document) == manifests[id].checksum
                 && ManifestSchema.Decode(manifests[id].document).Some?
      ==> ReadOnlyDocument(ManifestSchema.Decode(manifests[id].document).value)
  }

  ghost predicate Possible(h: Hash, w: World, step: WorldStep) {
    match step
    case EditManifests(manifests) => ReadOnlyManifests(h, manifests)
    case CreateSession(_, _, _, _, _, _, id, _) => id !in w.sessions
    case Admit(id, _, _, _) => id !in w.admitted
    case Execute(id, _, tick) => id in w.admitted && id !in w.proxy.used && Representable(tick.now)
    case Serve(id) => id in w.sent && id !in w.replies
    case Answer(id, delivery, tick) =>
      && id in w.proxy.pending && Representable(tick.now)
      && (id in w.sent && delivery.Delivered? ==> id in w.replies)
    case Break(id) => id in w.proxy.pending
    case _ => true
  }

  ghost function ClaimsFor(w: World, http: HttpCall, decodedAt: Instant, checkedAt: Instant): Option<TrustedClaims> {
    match ResolveAgent(w.agents, http.principal)
    case None => None
    case Some(agentId) =>
      match SessionTokens.Validate(w.settings, w.agents, w.sessions, http.token, agentId, decodedAt, checkedAt)
      case Err(_) => None
      case Ok(claims) => Some(claims)
  }

  function CallFor(http: HttpCall, claims: TrustedClaims): Call {
    Call(claims.agentId, claims, http.idempotencyKey, http.tool, http.operation, http.parameters, http.traceId)
  }

  ghost function PolicyFor(h: Hash, w: World, call: Call, now: Instant): PolicyDecision {
    Evaluate(h, w.manifests, w.tools,
             Request(call.agentId, call.claims, call.tool, call.operation, call.parameters, now))
  }

  /** `execute_tool_call` up to `execute`: a refused caller changes nothing. */
  ghost function WithAdmitted(w: World, id: string, http: HttpCall, decodedAt: Instant, checkedAt: Instant)
    : map<string, Admission>
  {
    match ClaimsFor(w, http, decodedAt, checkedAt)
    case None => w.admitted
    case Some(claims) => w.admitted[id := Admission(CallFor(http, claims), http, decodedAt, checkedAt, Now(w))]
  }

  function AfterAdmit(w: World, admitted: map<string, Admission>): World {
    Advance(w, w.customers).(admitted := admitted)
  }

  /** An admitted call begins; if it is left in flight it has sent its request, unless the
      adapter refuses it first. */
  ghost function AfterBegin(h: Hash, w: World, id: string, call: Call, policy: PolicyDecision, tick: Tick): World
    requires id !in w.proxy.used && Representable(tick.now)
  {
    var proxy := ToolCalls.Begin(h, w.proxy, id, call, policy, tick);
    var dispatch := DispatchCall(call.tool, call.operation, call.parameters);
    var sent := if id in proxy.pending && dispatch.Send?
                then w.sent[id := Sent(dispatch.request, call.agentId, call.claims.sessionId, Now(w))] else w.sent;
    Advance(w, w.customers).(proxy := proxy, sent := sent)
  }

  /** What the suspended call wakes up with. */
  function ExecutionFor(w: World, id: string, delivery: Delivery): Execution
    requires id in w.proxy.pending && (id in w.sent && delivery.Delivered? ==> id in w.replies)
  {
    var call := w.proxy.pending[id].call;
    match DispatchCall(call.tool, call.operation, call.parameters)
    case Refuse(e) => Failed(e)
    case Raise => Escaped
    case Send(_) =>
      if delivery.LostInTime? then Receive(Transport.TimedOut)
      else if delivery.Unreached? || id !in w.sent then Receive(Unreachable)
      else Receive(w.replies[id])
  }

  /** `TrustedSessionService.create` on the table. */
  function WithCreated(w: World, agentId: string, userId: string, customerId: string, creator: string,
                       ttl: Option<int>, now: Instant, id: string, jti: string): Sessions
  {
    if SessionTokens.CreateError(w.settings, w.agents, agentId, ttl).Some? then w.sessions
    else
      w.sessions[id := SessionTokens.NewSession(agentId, userId, customerId, creator,
                                                SessionTokens.RequestedTtl(w.settings, ttl), now, jti)]
  }

  function AfterCreate(w: World, sessions: Sessions, id: string): World {
    Advance(w, w.customers).(
      sessions := sessions,
      since := if id in sessions && id !in w.sessions then w.since[id := Now(w)] else w.since)
  }

  function WithRevoked(sessions: Sessions, id: string, now: Instant): Sessions {
    if id in sessions then sessions[id := SessionTokens.RevokedRow(sessions[id], now)] else sessions
  }

  function AfterRevoke(w: World, id: string, now: Instant): World {
    Advance(w, w.customers).(sessions := WithRevoked(w.sessions, id, now))
  }

  function AfterServe(w: World, id: string, check: EmailCheck): World
    requires id in w.sent
  {
    var (reply, after) := Handle(w.customers, w.sent[id].request, check);
    Advance(w, after).(replies := w.replies[id := reply])
  }

  ghost function AfterAnswer(h: Hash, w: World, id: string, execution: Execution, tick: Tick): World
    requires id in w.proxy.pending && Representable(tick.now)
  {
    Advance(w, w.customers).(proxy := ToolCalls.Resume(h, w.proxy, id, execution, tick),
                             answered := w.answered[id := Now(w)])
  }

  ghost function AfterBreak(w: World, id: string): World
  {
    Advance(w, w.customers).(proxy := w.proxy.(pending := w.proxy.pending - {id}))
  }

  ghost function NextWorld(h: Hash, check: EmailCheck, w: World, step: WorldStep): World
    requires Possible(h, w, step)
  {
    match step
    case EditAgents(agents) => Advance(w, w.customers).(agents := agents)
    case EditTools(tools) => Advance(w, w.customers).(tools := tools)
    case EditManifests(manifests) => Advance(w, w.customers).(manifests := manifests)
    case CreateSession(agentId, userId, customerId, creator, ttl, now, id, jti) =>
      AfterCreate(w, WithCreated(w, agentId, userId, customerId, creator, ttl, now, id, jti), id)
    case RevokeSession(id, now) => AfterRevoke(w, id, now)
    case Admit(id, http, decodedAt, checkedAt) => AfterAdmit(w, WithAdmitted(w, id, http, decodedAt, checkedAt))
    case Execute(id, evaluatedAt, tick) =>
      AfterBegin(h, w, id, w.admitted[id].call, PolicyFor(h, w, w.admitted[id].call, evaluatedAt), tick)
    case Serve(id) => AfterServe(w, id, check)
    case Answer(id, delivery, tick) => AfterAnswer(h, w, id, ExecutionFor(w, id, delivery), tick)
    case Break(id) => AfterBreak(w, id)
    case OutsideEdit(edited) => Advance(w, edited)
  }

  ghost function Start(settings: SessionTokens.Settings, agents: Agents, tools: Tools, manifests: Manifests,
                       customers: Customers): World
  {
    World(settings, agents, tools, manifests, map[], map[], map[], ToolCalls.INITIAL,
          map[], map[], map[], customers, [])
  }

  ghost predicate CanStep(h: Hash, before: Option<World>, step: WorldStep) {
    before.Some? && Possible(h, before.value, step)
  }

  ghost function RunWorld(h: Hash, check: EmailCheck, start: World, steps: seq<WorldStep>): Option<World> {
    if steps == [] then Some(start)
    else
      var before := RunWorld(h, check, start, steps[..|steps| - 1]);
      if CanStep(h, before, steps[|steps| - 1]) then Some(NextWorld(h, check, before.value, steps[|steps| - 1]))
      else None
  }
}
