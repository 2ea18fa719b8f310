/**
 * The tool-call protocol. `execute` suspends only while the adapter runs, and one event loop
 * serves all calls, so concurrent calls interleave as two atomic steps: everything up to the
 * await, and everything after it. A call can also end in an exception at either step.
 */
module ToolCalls {
  import opened Wrappers
  import opened Json
  import opened UtcTime
  import opened AuditEvents
  import opened AuditLog
  import opened Domain
  import opened Policy
  import opened Crm

  /** The arguments of `execute`. */
  datatype Call = Call(
    agentId: string,
    claims: TrustedClaims,
    idempotencyKey: string,
    tool: string,
    operation: string,
    parameters: seq<Field>,
    traceId: Option<string>)

  /** `ToolCallOutcome` */
  datatype Outcome = Outcome(
    requestId: string,
    decision: Decision,
    reason: string,
    message: string,
    result: Option<Json>,
    upstreamStatus: Option<int>)

  /** The local variables a suspended call holds across the await. */
  datatype Pending = Pending(call: Call, policy: PolicyDecision, decisionMs: int)

  /** One call handed to the adapter; `row` is where its AUTHORIZED event stands in the log. */
  datatype Forward = Forward(requestId: string, call: Call, row: nat)

  /** What one step reads from the clock, the random source and the latency counters. */
  datatype Tick = Tick(now: Instant, eventId: string, decisionMs: int, totalMs: int)

  /** Everything the service has done. `used` are the request ids handed out. */
  datatype State = State(
    table: seq<Event>,
    used: set<string>,
    pending: map<string, Pending>,
    forwarded: seq<Forward>,
    returned: map<string, Outcome>)

  const INITIAL: State := State([], {}, map[], [], map[])

  predicate HasKey(table: seq<Event>, agentId: string, key: string) {
    exists e :: e in table && e.agentId == agentId && e.idempotencyKey == key
  }

  /** `_record`: the event one outcome becomes. */
  function EventFor(outcome: Outcome, call: Call, sequence: int, status: ExecutionStatus, manifestId: Option<string>,
                    checksum: Option<string>, decisionMs: Option<int>, totalMs: int): EventInput
  {
    EventInput(outcome.requestId, call.idempotencyKey, sequence, call.agentId, Some(call.claims.sessionId),
               Some(call.claims.userId), call.tool, call.operation, call.parameters, outcome.decision, outcome.reason,
               status, manifestId, checksum, outcome.upstreamStatus, decisionMs, Some(totalMs), call.traceId)
  }

  function DuplicateOutcome(id: string): Outcome {
    Outcome(id, Block, "DUPLICATE_REQUEST", "This idempotency key has already been used", None, None)
  }

  function BlockedOutcome(id: string, policy: PolicyDecision): Outcome {
    Outcome(id, Block, policy.reason, policy.message, None, None)
  }

  function AuthorizedOutcome(id: string): Outcome {
    Outcome(id, Allow, "ALLOWED", "Tool call is permitted", None, None)
  }

  function ErrorMessage(e: AdapterError): string {
    match e
    case ToolNotRegistered => "No adapter exists for the tool"
    case InvalidParameters => "write_customer requires a changes object"
    case OperationNotSupported => "The registered adapter does not support this operation"
    case UpstreamTimeout => "The protected tool timed out"
    case UpstreamError(None) => "The protected tool could not be reached"
    case UpstreamError(Some(_)) => "The protected tool rejected the request"
  }

  function FinalOutcome(id: string, execution: Execution): Outcome
    requires !execution.Escaped?
  {
    match execution
    case Done(result, status) => Outcome(id, Allow, "ALLOWED", "Tool call executed", result, Some(status))
    case Failed(e) =>
      Outcome(id, Error, ErrorCode(e), ErrorMessage(e), None, if e.UpstreamError? then e.upstreamStatus else None)
  }

  function FinalStatus(execution: Execution): ExecutionStatus
    requires !execution.Escaped?
  {
    match execution
    case Done(_, _) => Executed
    case Failed(e) => if ErrorCode(e) == "UPSTREAM_TOOL_TIMEOUT" then ExecutionStatus.TimedOut else ToolFailed
  }

  /** What the first step records: a duplicate, a denial, or an authorization. */
  function FirstEvent(table: seq<Event>, id: string, call: Call, policy: PolicyDecision, t: Tick): EventInput {
    if HasKey(table, call.agentId, call.idempotencyKey) then
      EventFor(DuplicateOutcome(id), call, 0, NotForwarded, None, None, None, t.totalMs)
    else if !policy.allowed then
      EventFor(BlockedOutcome(id, policy), call, 0, NotForwarded, policy.manifestId, policy.checksum,
               Some(t.decisionMs), t.totalMs)
    else
      EventFor(AuthorizedOutcome(id), call, 0, Authorized, policy.manifestId, policy.checksum,
               Some(t.decisionMs), t.totalMs)
  }

  function FinalEvent(id: string, p: Pending, execution: Execution, t: Tick): EventInput
    requires !execution.Escaped?
  {
    EventFor(FinalOutcome(id, execution), p.call, 1, FinalStatus(execution), p.policy.manifestId, p.policy.checksum,
             Some(p.decisionMs), t.totalMs)
  }

  /** From the call to the await (or to a return): look for the key, evaluate, record, forward.
      If the record cannot be written nothing is forwarded and nothing is returned. */
  function Begin(h: Hash, s: State, id: string, call: Call, policy: PolicyDecision, t: Tick): State
    requires Representable(t.now)
  {
    var row := NewRow(h, s.table, FirstEvent(s.table, id, call, policy, t), t.now, t.eventId);
    var s' := s.(used := s.used + {id});
    if !Insertable(s.table, row) then s'
    else if HasKey(s.table, call.agentId, call.idempotencyKey) then
      s'.(table := s.table + [row], returned := s.returned[id := DuplicateOutcome(id)])
    else if !policy.allowed then
      s'.(table := s.table + [row], returned := s.returned[id := BlockedOutcome(id, policy)])
    else
      s'.(table := s.table + [row],
          pending := s.pending[id := Pending(call, policy, t.decisionMs)],
          forwarded := s.forwarded + [Forward(id, call, |s.table|)])
  }

  /** From the adapter's answer to the return. An unexpected exception, or a record that cannot
      be written, ends the call without a final event. */
  function Resume(h: Hash, s: State, id: string, execution: Execution, t: Tick): State
    requires Representable(t.now) && id in s.pending
  {
    var s' := s.(pending := s.pending - {id});
    if execution.Escaped? then s'
    else
      var row := NewRow(h, s.table, FinalEvent(id, s.pending[id], execution, t), t.now, t.eventId);
      if !Insertable(s.table, row) then s'
      else s'.(table := s.table + [row], returned := s.returned[id := FinalOutcome(id, execution)])
  }

  // ---------------------------------------------------------------- runs

  datatype Step =
    | BeginStep(id: string, call: Call, policy: PolicyDecision, tick: Tick)
    | RaiseStep(id: string)     // the database fails before anything is recorded
    | ResumeStep(id: string, execution: Execution, tick: Tick)
    | EscapeStep(id: string)    // the database fails while the final event is written

  /** The evaluator's answers: it never says a request is a duplicate. */
  predicate PolicyAnswer(p: PolicyDecision) {
    if p.allowed then p.reason == "ALLOWED" else p.reason != "DUPLICATE_REQUEST"
  }

  /** Request ids are fresh; nothing else is assumed of a step. */
  predicate Enabled(s: State, step: Step) {
    match step
    case BeginStep(id, _, policy, tick) => id !in s.used && PolicyAnswer(policy) && Representable(tick.now)
    case RaiseStep(id) => id !in s.used
    case ResumeStep(id, _, tick) => id in s.pending && Representable(tick.now)
    case EscapeStep(id) => id in s.pending
  }

  function Next(h: Hash, s: State, step: Step): State
    requires Enabled(s, step)
  {
    match step
    case BeginStep(id, call, policy, tick) => Begin(h, s, id, call, policy, tick)
    case RaiseStep(id) => s.(used := s.used + {id})
    case ResumeStep(id, execution, tick) => Resume(h, s, id, execution, tick)
    case EscapeStep(id) => s.(pending := s.pending - {id})
  }

  /** The state after an interleaving, or nothing if some step was not possible. */
  function Run(h: Hash, steps: seq<Step>): Option<State> {
    if steps == [] then Some(INITIAL)
    else
      match Run(h, steps[..|steps| - 1])
      case None => None
      case Some(s) =>
        if Enabled(s, steps[|steps| - 1]) then Some(Next(h, s, steps[|steps| - 1])) else None
  }

  /** The status code `execute_tool_call` answers with. */
  function HttpStatus(o: Outcome): int {
    if o.reason == "DUPLICATE_REQUEST" then 409
    else if o.decision.Block? then 403
    else if o.reason == "UPSTREAM_TOOL_TIMEOUT" then 504
    else if o.decision.Error? then 502
    else 200
  }

  // ---------------------------------------------------------------- the service

  class ToolCallService {
    const audit: AuditService
    var used: set<string>
    var pending: map<string, Pending>
    ghost var forwarded: seq<Forward>
    ghost var returned: map<string, Outcome>

    ghost function View(): State
      reads this, audit
    {
      State(audit.table, used, pending, forwarded, returned)
    }

    constructor (audit: AuditService)
      requires audit.table == []
      ensures this.audit == audit && View() == INITIAL
    {
      this.audit := audit;
      used := {};
      pending := map[];
      forwarded := [];
      returned := map[];
    }

    /** The first half of `execute`. `policy` is what the evaluator answers for this call.
        Returns an outcome, or nothing when the call is now suspended or has raised. */
    method BeginCall(id: string, call: Call, policy: PolicyDecision, t: Tick) returns (outcome: Option<Outcome>)
      requires Representable(t.now) && id !in used && id !in returned
      modifies this, audit
      ensures View() == Begin(audit.h, old(View()), id, call, policy, t)
      ensures outcome == if id in returned then Some(returned[id]) else None
    {
      hide NewRow;
      hide Carries;
      hide Taken;
      hide LastHash;
      hide Insertable;
      hide Representable;
      hide EventFor;
      used := used + {id};
      var duplicate := audit.HasIdempotencyKey(call.agentId, call.idempotencyKey);
      var answer := if duplicate then DuplicateOutcome(id)
                    else if !policy.allowed then BlockedOutcome(id, policy)
                    else AuthorizedOutcome(id);
      var event := if duplicate then EventFor(answer, call, 0, NotForwarded, None, None, None, t.totalMs)
                   else EventFor(answer, call, 0, if policy.allowed then Authorized else NotForwarded,
                                 policy.manifestId, policy.checksum, Some(t.decisionMs), t.totalMs);
      assert event == FirstEvent(audit.table, id, call, policy, t);
      var recorded := audit.Record(event, t.now, t.eventId);
      outcome := None;
      if recorded.Some? {
        if duplicate || !policy.allowed {
          outcome := Some(answer);
          returned := returned[id := answer];
        } else {
          pending := pending[id := Pending(call, policy, t.decisionMs)];
          forwarded := forwarded + [Forward(id, call, |audit.table| - 1)];
        }
      }
    }

    /** The second half of `execute`, once the adapter has answered or raised. */
    method ResumeCall(id: string, execution: Execution, t: Tick) returns (outcome: Option<Outcome>)
      requires Representable(t.now) && id in pending
      modifies this, audit
      ensures View() == Resume(audit.h, old(View()), id, execution, t)
      ensures outcome == if !execution.Escaped? && |audit.table| > |old(audit.table)|
                         then Some(FinalOutcome(id, execution)) else None
    {
      hide NewRow;
      hide Carries;
      hide Taken;
      hide LastHash;
      hide Insertable;
      hide Representable;
      hide FinalEvent;
      hide FinalOutcome;
      var p := pending[id];
      pending := pending - {id};
      outcome := None;
      if !execution.Escaped? {
        var recorded := audit.Record(FinalEvent(id, p, execution, t), t.now, t.eventId);
        if recorded.Some? {
          outcome := Some(FinalOutcome(id, execution));
          returned := returned[id := FinalOutcome(id, execution)];
        }
      }
    }
  }
}
