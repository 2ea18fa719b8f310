/** The log against the calls that were made: every event, column by column, comes from the step
    that recorded it, over every interleaving. */
module ToolCallReports {
  import opened Wrappers
  import opened UtcTime
  import opened Redaction
  import opened AuditEvents
  import opened AuditLog
  import opened AuditProofs
  import opened Policy
  import opened Crm
  import opened ToolCalls
  import opened ToolCallProofs

  // ---------------------------------------------------------------- what a row says of its call

  /** The columns that identify a call; its parameters stand redacted. */
  predicate NamesCall(e: Event, call: Call) {
    && e.agentId == call.agentId && e.idempotencyKey == call.idempotencyKey
    && e.sessionId == Some(call.claims.sessionId) && e.userId == Some(call.claims.userId)
    && e.tool == call.tool && e.operation == call.operation && e.traceId == call.traceId
    && e.parameters == Sanitize(call.parameters)
  }

  /** The columns that identify the policy: a duplicate is recorded without one. */
  predicate NamesPolicy(e: Event, policy: PolicyDecision) {
    if e.reasonCode == "DUPLICATE_REQUEST" then e.manifestId == None && e.policyChecksum == None
    else e.manifestId == policy.manifestId && e.policyChecksum == policy.checksum
  }

  /** When, under which id, and after how long. */
  predicate StampedBy(e: Event, t: Tick, decisionMs: Option<int>) {
    && e.timestamp == Stamp(t.now, Some(0)) && e.eventId == t.eventId
    && e.totalMs == Some(t.totalMs) && e.decisionMs == decisionMs
  }

  /** What the first event decides: a duplicate, a denial with the policy's reason, or leave. */
  predicate Decides(e: Event, policy: PolicyDecision) {
    && e.upstreamStatus == None
    && (if e.reasonCode == "DUPLICATE_REQUEST" then e.decision.Block? && e.status.NotForwarded?
        else if policy.allowed then e.decision.Allow? && e.status.Authorized? && e.reasonCode == "ALLOWED"
        else e.decision.Block? && e.status.NotForwarded? && e.reasonCode == policy.reason)
  }

  /** The step at which the event's request began. */
  predicate BeganBy(step: Step, e: Event) {
    && step.BeginStep? && step.id == e.requestId
    && NamesCall(e, step.call) && NamesPolicy(e, step.policy)
    && (e.sequence == 0 ==>
          && Decides(e, step.policy)
          && StampedBy(e, step.tick, if e.reasonCode == "DUPLICATE_REQUEST" then None else Some(step.tick.decisionMs)))
    && (e.sequence != 0 ==> e.decisionMs == Some(step.tick.decisionMs))
  }

  /** The step at which it ended, for a final event. */
  predicate EndedBy(step: Step, e: Event) {
    && step.ResumeStep? && step.id == e.requestId
    && Reports(step.execution, e.status, e.decision, e.reasonCode, e.upstreamStatus)
    && StampedBy(e, step.tick, e.decisionMs)
  }

  predicate HasBegin(steps: seq<Step>, e: Event) {
    exists k :: 0 <= k < |steps| && BeganBy(steps[k], e)
  }

  predicate HasEnd(steps: seq<Step>, e: Event) {
    exists k :: 0 <= k < |steps| && EndedBy(steps[k], e)
  }

  predicate Sourced(steps: seq<Step>, e: Event) {
    HasBegin(steps, e) && (e.sequence == 0 || (e.sequence == 1 && HasEnd(steps, e)))
  }

  // ---------------------------------------------------------------- one step

  /** The row a beginning call leaves. */
  lemma FirstRow(h: Hash, s: State, id: string, call: Call, policy: PolicyDecision, t: Tick)
    requires PolicyAnswer(policy) && Representable(t.now) && id !in s.used
    ensures var row := NewRow(h, s.table, FirstEvent(s.table, id, call, policy, t), t.now, t.eventId);
      row.sequence == 0 && BeganBy(BeginStep(id, call, policy, t), row)
  {
    hide NewRow;
    hide Sanitize;
    hide HasKey;
    hide Representable;
    var data := FirstEvent(s.table, id, call, policy, t);
    assert "ALLOWED"[0] != "DUPLICATE_REQUEST"[0];
    NewRowCarries(h, s.table, data, t.now, t.eventId);
  }

  /** The row a resumed call leaves. */
  lemma FinalRow(h: Hash, s: State, id: string, execution: Execution, t: Tick, began: Step)
    requires id in s.pending && !execution.Escaped? && Representable(t.now)
    requires began.BeginStep? && began.id == id && began.call == s.pending[id].call
    requires began.policy == s.pending[id].policy && began.tick.decisionMs == s.pending[id].decisionMs
    ensures var row := NewRow(h, s.table, FinalEvent(id, s.pending[id], execution, t), t.now, t.eventId);
      row.sequence == 1 && BeganBy(began, row) && EndedBy(ResumeStep(id, execution, t), row)
  {
    hide NewRow;
    hide Sanitize;
    hide Representable;
    hide Reports;
    var data := FinalEvent(id, s.pending[id], execution, t);
    NewRowCarries(h, s.table, data, t.now, t.eventId);
    FinalEventShape(id, s.pending[id], execution, t);
    FinalInput(id, s.pending[id], execution, t);
    hide FinalEvent;
  }

  lemma FinalInput(id: string, p: Pending, execution: Execution, t: Tick)
    requires !execution.Escaped?
    ensures var e := FinalEvent(id, p, execution, t);
      && e.sessionId == Some(p.call.claims.sessionId) && e.userId == Some(p.call.claims.userId)
      && e.tool == p.call.tool && e.operation == p.call.operation && e.traceId == p.call.traceId
      && e.parameters == p.call.parameters && e.manifestId == p.policy.manifestId
      && e.policyChecksum == p.policy.checksum && e.decisionMs == Some(p.decisionMs) && e.totalMs == Some(t.totalMs)
  {
    hide FinalOutcome;
    hide FinalStatus;
  }

  // ---------------------------------------------------------------- every run

  predicate StartedAs(steps: seq<Step>, id: string, p: Pending) {
    exists k :: 0 <= k < |steps| && Started(steps[k], id, p)
  }

  predicate Started(step: Step, id: string, p: Pending) {
    && step.BeginStep? && step.id == id && step.call == p.call && step.policy == p.policy
    && step.tick.decisionMs == p.decisionMs
  }

  predicate AllSourced(steps: seq<Step>, s: State) {
    && (forall e :: e in s.table ==> Sourced(steps, e))
    && (forall id :: id in s.pending ==> StartedAs(steps, id, s.pending[id]))
  }

  lemma MoreSteps(steps: seq<Step>, step: Step, s: State)
    requires AllSourced(steps, s)
    ensures AllSourced(steps + [step], s)
  {
    hide BeganBy;
    hide EndedBy;
    hide Started;
    var more := steps + [step];
    forall e | e in s.table ensures Sourced(more, e) {
      assert Sourced(steps, e);
      var k :| 0 <= k < |steps| && BeganBy(steps[k], e);
      assert more[k] == steps[k];
      if e.sequence == 1 {
        var j :| 0 <= j < |steps| && EndedBy(steps[j], e);
        assert more[j] == steps[j];
      }
    }
    forall id | id in s.pending ensures StartedAs(more, id, s.pending[id]) {
      var k :| 0 <= k < |steps| && Started(steps[k], id, s.pending[id]);
      assert more[k] == steps[k];
    }
  }

  lemma BeginIsSourced(h: Hash, steps: seq<Step>, s: State, id: string, call: Call, policy: PolicyDecision, t: Tick)
    requires AllSourced(steps + [BeginStep(id, call, policy, t)], s)
    requires PolicyAnswer(policy) && Representable(t.now) && id !in s.used
    ensures AllSourced(steps + [BeginStep(id, call, policy, t)], Begin(h, s, id, call, policy, t))
  {
    hide NewRow;
    hide Insertable;
    hide Representable;
    hide HasKey;
    hide FirstEvent;
    hide BeganBy;
    hide Sourced;
    hide PolicyAnswer;
    var step := BeginStep(id, call, policy, t);
    var more := steps + [step];
    assert more[|steps|] == step;
    FirstRow(h, s, id, call, policy, t);
    var row := NewRow(h, s.table, FirstEvent(s.table, id, call, policy, t), t.now, t.eventId);
    SourcedFirst(more, |steps|, row);
    assert Started(more[|steps|], id, Pending(call, policy, t.decisionMs));
  }

  lemma SourcedFirst(steps: seq<Step>, k: nat, e: Event)
    requires k < |steps| && BeganBy(steps[k], e) && e.sequence == 0
    ensures Sourced(steps, e)
  {
    hide BeganBy;
  }

  lemma SourcedFinal(steps: seq<Step>, k: nat, j: nat, e: Event)
    requires k < |steps| && j < |steps| && BeganBy(steps[k], e) && EndedBy(steps[j], e) && e.sequence == 1
    ensures Sourced(steps, e)
  {
    hide BeganBy;
    hide EndedBy;
  }

  lemma ResumeIsSourced(h: Hash, steps: seq<Step>, s: State, id: string, execution: Execution, t: Tick)
    requires AllSourced(steps + [ResumeStep(id, execution, t)], s) && id in s.pending && Representable(t.now)
    ensures AllSourced(steps + [ResumeStep(id, execution, t)], Resume(h, s, id, execution, t))
  {
    hide NewRow;
    hide Insertable;
    hide Representable;
    hide FinalEvent;
    hide FinalOutcome;
    hide BeganBy;
    hide EndedBy;
    hide Sourced;
    var step := ResumeStep(id, execution, t);
    var more := steps + [step];
    assert more[|steps|] == step;
    if !execution.Escaped? {
      var k :| 0 <= k < |more| && Started(more[k], id, s.pending[id]);
      FinalRow(h, s, id, execution, t, more[k]);
      SourcedFinal(more, k, |steps|, NewRow(h, s.table, FinalEvent(id, s.pending[id], execution, t), t.now, t.eventId));
    }
  }

  lemma {:induction false} RunIsSourced(h: Hash, steps: seq<Step>)
    requires Run(h, steps).Some?
    ensures AllSourced(steps, Run(h, steps).value)
  {
    hide AllSourced;
    hide Begin;
    hide Resume;
    hide Representable;
    hide PolicyAnswer;
    if steps == [] {
      NothingSourced();
    } else {
      var before, step := steps[..|steps| - 1], steps[|steps| - 1];
      var s := Run(h, before).value;
      RunIsSourced(h, before);
      MoreSteps(before, step, s);
      assert before + [step] == steps;
      match step
      case BeginStep(id, call, policy, t) => BeginIsSourced(h, before, s, id, call, policy, t);
      case ResumeStep(id, execution, t) => ResumeIsSourced(h, before, s, id, execution, t);
      case RaiseStep(id) => DropIsSourced(steps, s, s.(used := s.used + {id}));
      case EscapeStep(id) => DropIsSourced(steps, s, s.(pending := s.pending - {id}));
    }
  }

  lemma NothingSourced()
    ensures AllSourced([], INITIAL)
  {
  }

  lemma DropIsSourced(steps: seq<Step>, s: State, s': State)
    requires AllSourced(steps, s) && s'.table == s.table
    requires forall id :: id in s'.pending ==> id in s.pending && s'.pending[id] == s.pending[id]
    ensures AllSourced(steps, s')
  {
  }

  // ---------------------------------------------------------------- main results

  /** Over every run, each event says what its call was: agent, key, session, user, tool,
      operation, trace id and redacted parameters are those of the step its request began with,
      manifest and checksum those of the decision taken then, decision and reason what was decided
      (first event) or what the execution it was resumed with comes to (final event), and time,
      id and latencies those of the recording step. */
  lemma EventsReportTheirCalls(h: Hash, steps: seq<Step>, e: Event)
    requires Run(h, steps).Some? && e in Run(h, steps).value.table
    ensures exists k :: 0 <= k < |steps| && BeganBy(steps[k], e)
    ensures e.sequence == 0 || (e.sequence == 1 && exists k :: 0 <= k < |steps| && EndedBy(steps[k], e))
  {
    hide Run;
    hide BeganBy;
    hide EndedBy;
    RunIsSourced(h, steps);
    assert Sourced(steps, e);
  }

  lemma {:induction false} BegunIdsUsed(h: Hash, steps: seq<Step>, k: nat)
    requires Run(h, steps).Some? && k < |steps| && steps[k].BeginStep?
    ensures steps[k].id in Run(h, steps).value.used
  {
    hide NewRow;
    hide Insertable;
    hide Representable;
    hide HasKey;
    hide FirstEvent;
    hide FinalEvent;
    hide FinalOutcome;
    hide PolicyAnswer;
    var before := steps[..|steps| - 1];
    if k < |steps| - 1 {
      BegunIdsUsed(h, before, k);
    }
  }

  /** A request id is begun at one step only, so all its events speak of one call. */
  lemma {:induction false} RequestBeginsOnce(h: Hash, steps: seq<Step>, j: nat, k: nat)
    requires Run(h, steps).Some? && j < k < |steps| && steps[j].BeginStep? && steps[k].BeginStep?
    ensures steps[j].id != steps[k].id
  {
    hide Next;
    hide PolicyAnswer;
    hide Representable;
    var before := steps[..|steps| - 1];
    if k < |steps| - 1 {
      RequestBeginsOnce(h, before, j, k);
    } else {
      BegunIdsUsed(h, before, j);
    }
  }

  /** The two events of a request agree in everything but the outcome. */
  lemma OneCallPerRequest(h: Hash, steps: seq<Step>, a: Event, b: Event)
    requires Run(h, steps).Some? && a in Run(h, steps).value.table && b in Run(h, steps).value.table
    requires a.requestId == b.requestId
    ensures exists k :: 0 <= k < |steps| && BeganBy(steps[k], a) && BeganBy(steps[k], b)
  {
    hide Run;
    hide NamesCall;
    hide NamesPolicy;
    hide Decides;
    hide StampedBy;
    EventsReportTheirCalls(h, steps, a);
    EventsReportTheirCalls(h, steps, b);
    var j :| 0 <= j < |steps| && BeganBy(steps[j], a);
    var k :| 0 <= k < |steps| && BeganBy(steps[k], b);
    if j < k { RequestBeginsOnce(h, steps, j, k); }
    if k < j { RequestBeginsOnce(h, steps, k, j); }
  }

  /** What a beginning call adds to the log, answers and forwards: a duplicate and a denial are
      answered at once, with the policy's own message, and never forwarded; anything else waits. */
  lemma BeginSays(h: Hash, s: State, id: string, call: Call, policy: PolicyDecision, t: Tick)
    requires PolicyAnswer(policy) && Representable(t.now) && id !in s.used
    requires id !in s.pending && id !in s.returned
    ensures var s' := Begin(h, s, id, call, policy, t);
      if |s'.table| == |s.table| then s' == s.(used := s.used + {id})
      else
        && |s'.table| == |s.table| + 1 && s'.table[..|s.table|] == s.table
        && BeganBy(BeginStep(id, call, policy, t), s'.table[|s.table|]) && s'.table[|s.table|].sequence == 0
        && var duplicate := HasKey(s.table, call.agentId, call.idempotencyKey);
           (duplicate <==> s'.table[|s.table|].reasonCode == "DUPLICATE_REQUEST")
           && (if duplicate || !policy.allowed then
                 && s'.forwarded == s.forwarded && s'.pending == s.pending && id in s'.returned
                 && var o := s'.returned[id];
                    o.requestId == id && o.decision.Block? && o.result == None && o.upstreamStatus == None
                    && o.reason == s'.table[|s.table|].reasonCode
                    && o.message == (if duplicate then "This idempotency key has already been used" else policy.message)
               else
                 && s'.forwarded == s.forwarded + [Forward(id, call, |s.table|)] && s'.returned == s.returned
                 && id in s'.pending && s'.pending[id].call == call && s'.pending[id].policy == policy)
  {
    hide NewRow;
    hide Insertable;
    hide Representable;
    hide BeganBy;
    hide FirstEvent;
    hide HasKey;
    FirstRow(h, s, id, call, policy, t);
    FirstEventShape(s.table, id, call, policy, t);
    RowKeeps(h, s.table, FirstEvent(s.table, id, call, policy, t), t.now, t.eventId);
  }

  /** The message that goes with each way an execution can end. */
  predicate Explains(execution: Execution, message: string) {
    match execution
    case Done(_, _) => message == "Tool call executed"
    case Failed(UpstreamTimeout) => message == "The protected tool timed out"
    case Failed(UpstreamError(None)) => message == "The protected tool could not be reached"
    case Failed(UpstreamError(Some(_))) => message == "The protected tool rejected the request"
    case Failed(ToolNotRegistered) => message == "No adapter exists for the tool"
    case Failed(InvalidParameters) => message == "write_customer requires a changes object"
    case Failed(OperationNotSupported) => message == "The registered adapter does not support this operation"
    case Escaped => false
  }

  /** What one resumed call adds to the log and answers, written out case by case. */
  lemma ResumeSays(h: Hash, s: State, id: string, execution: Execution, t: Tick)
    requires id in s.pending && !execution.Escaped? && Representable(t.now)
    requires |Resume(h, s, id, execution, t).table| > |s.table|
    ensures var s' := Resume(h, s, id, execution, t);
      && |s'.table| == |s.table| + 1 && s'.table[..|s.table|] == s.table && id in s'.returned && id !in s'.pending
      && var row, o := s'.table[|s.table|], s'.returned[id];
         Reports(execution, row.status, row.decision, row.reasonCode, row.upstreamStatus)
         && o.requestId == id && o.decision == row.decision && o.reason == row.reasonCode
         && o.upstreamStatus == row.upstreamStatus
         && o.result == (if execution.Done? then execution.result else None)
         && Explains(execution, o.message)
  {
    hide NewRow;
    hide Insertable;
    hide Representable;
    hide Reports;
    hide HttpStatus;
    var data := FinalEvent(id, s.pending[id], execution, t);
    NewRowCarries(h, s.table, data, t.now, t.eventId);
    FinalEventShape(id, s.pending[id], execution, t);
  }
}
