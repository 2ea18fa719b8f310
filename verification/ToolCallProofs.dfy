/** Safety of the tool-call protocol over every interleaving of any number of calls. */
module ToolCallProofs {
  import opened Wrappers
  import opened Order
  import opened UtcTime
  import opened AuditEvents
  import opened AuditLog
  import opened AuditProofs
  import opened Domain
  import opened Policy
  import opened Crm
  import opened ToolCalls

  // ---------------------------------------------------------------- the rows of one request

  /** The events of one request, in the order they were written. */
  function RowsOf(table: seq<Event>, id: string): seq<Event> {
    if table == [] then []
    else
      var n := |table| - 1;
      RowsOf(table[..n], id) + (if table[n].requestId == id then [table[n]] else [])
  }

  lemma RowsOfAppend(table: seq<Event>, row: Event, id: string)
    ensures RowsOf(table + [row], id) == RowsOf(table, id) + (if row.requestId == id then [row] else [])
  {
    assert (table + [row])[..|table|] == table;
  }

  lemma {:induction false} RowsOfMembers(table: seq<Event>, id: string, e: Event)
    ensures e in RowsOf(table, id) <==> e in table && e.requestId == id
  {
    if table != [] {
      var n := |table| - 1;
      RowsOfMembers(table[..n], id, e);
      assert table == table[..n] + [table[n]];
    }
  }

  predicate FirstIs(rows: seq<Event>, status: ExecutionStatus, decision: Decision) {
    |rows| >= 1 && rows[0].sequence == 0 && rows[0].status == status && rows[0].decision == decision
  }

  predicate NotForwardedTrace(rows: seq<Event>) {
    |rows| == 1 && FirstIs(rows, NotForwarded, Block)
  }

  predicate AuthorizedTrace(rows: seq<Event>) {
    |rows| == 1 && FirstIs(rows, Authorized, Allow)
  }

  predicate CompletedTrace(rows: seq<Event>) {
    && |rows| == 2 && FirstIs(rows, Authorized, Allow)
    && rows[1].sequence == 1
    && (rows[1].status.Executed? || rows[1].status.ToolFailed? || rows[1].status.TimedOut?)
    && (if rows[1].status.Executed? then rows[1].decision.Allow? else rows[1].decision.Error?)
    && (rows[1].status.TimedOut? <==> rows[1].reasonCode == "UPSTREAM_TOOL_TIMEOUT")
  }

  /** The status code each kind of last event is answered with. */
  function AnswerStatus(row: Event): int {
    match row.status
    case Executed => 200
    case TimedOut => 504
    case ToolFailed => 502
    case NotForwarded => if row.reasonCode == "DUPLICATE_REQUEST" then 409 else 403
    case Authorized => 500
  }

  /** What the caller was told is what the log says, with the status code it calls for. */
  predicate OutcomeMatches(o: Outcome, row: Event) {
    && o.requestId == row.requestId
    && o.decision == row.decision
    && o.reason == row.reasonCode
    && o.upstreamStatus == row.upstreamStatus
    && HttpStatus(o) == AnswerStatus(row)
  }

  predicate TraceOk(s: State, id: string) {
    var rows := RowsOf(s.table, id);
    if id in s.pending then
      && AuthorizedTrace(rows) && id !in s.returned && id in s.used
      && rows[0].agentId == s.pending[id].call.agentId
      && rows[0].idempotencyKey == s.pending[id].call.idempotencyKey
    else if id in s.returned then
      && (NotForwardedTrace(rows) || CompletedTrace(rows)) && id in s.used
      && OutcomeMatches(s.returned[id], rows[|rows| - 1])
    else rows == [] || (AuthorizedTrace(rows) && id in s.used)
  }

  predicate TracesOk(s: State) {
    && (forall e :: e in s.table ==> e.requestId in s.used)
    && s.pending.Keys + s.returned.Keys <= s.used
    && (forall id :: id in s.used ==> TraceOk(s, id))
  }

  /** The first event of a request, by how its call starts out. */
  lemma FirstEventShape(table: seq<Event>, id: string, call: Call, policy: PolicyDecision, t: Tick)
    requires PolicyAnswer(policy)
    ensures var e := FirstEvent(table, id, call, policy, t);
      && e.requestId == id && e.sequence == 0 && e.upstreamStatus == None
      && e.agentId == call.agentId && e.idempotencyKey == call.idempotencyKey
      && (if HasKey(table, call.agentId, call.idempotencyKey) then
            e.decision == Block && e.status == NotForwarded && e.reasonCode == "DUPLICATE_REQUEST"
          else if !policy.allowed then
            e.decision == Block && e.status == NotForwarded && e.reasonCode == policy.reason
          else
            e.decision == Allow && e.status == Authorized && e.reasonCode == "ALLOWED")
      && (e.reasonCode == "DUPLICATE_REQUEST" <==> HasKey(table, call.agentId, call.idempotencyKey))
  {
  }

  /** What is recorded of how an execution ended. */
  predicate Reports(execution: Execution, status: ExecutionStatus, decision: Decision, reason: string,
                    upstream: Option<int>)
  {
    match execution
    case Done(_, code) => status.Executed? && decision.Allow? && reason == "ALLOWED" && upstream == Some(code)
    case Failed(UpstreamTimeout) =>
      status.TimedOut? && decision.Error? && reason == "UPSTREAM_TOOL_TIMEOUT" && upstream == None
    case Failed(UpstreamError(code)) =>
      status.ToolFailed? && decision.Error? && reason == "UPSTREAM_TOOL_ERROR" && upstream == code
    case Failed(ToolNotRegistered) =>
      status.ToolFailed? && decision.Error? && reason == "TOOL_NOT_REGISTERED" && upstream == None
    case Failed(InvalidParameters) =>
      status.ToolFailed? && decision.Error? && reason == "INVALID_PARAMETERS" && upstream == None
    case Failed(OperationNotSupported) =>
      status.ToolFailed? && decision.Error? && reason == "OPERATION_NOT_SUPPORTED" && upstream == None
    case Escaped => false
  }

  /** The final event of a request. */
  lemma FinalEventShape(id: string, p: Pending, execution: Execution, t: Tick)
    requires !execution.Escaped?
    ensures var e, o := FinalEvent(id, p, execution, t), FinalOutcome(id, execution);
      && e.requestId == id && e.sequence == 1
      && e.agentId == p.call.agentId && e.idempotencyKey == p.call.idempotencyKey
      && o.requestId == id && e.decision == o.decision && e.reasonCode == o.reason
      && e.upstreamStatus == o.upstreamStatus
      && e.reasonCode != "DUPLICATE_REQUEST"
      && Reports(execution, e.status, e.decision, e.reasonCode, e.upstreamStatus)
      && HttpStatus(o) == (if e.status.Executed? then 200 else if e.status.TimedOut? then 504 else 502)
      && (e.status.Executed? || e.status.ToolFailed? || e.status.TimedOut?)
      && (if e.status.Executed? then e.decision.Allow? else e.decision.Error?)
      && (e.status.TimedOut? <==> e.reasonCode == "UPSTREAM_TOOL_TIMEOUT")
  {
    assert |"DUPLICATE_REQUEST"| == 17 && |"ALLOWED"| == 7 && |"UPSTREAM_TOOL_TIMEOUT"| == 21;
    assert |"UPSTREAM_TOOL_ERROR"| == |"TOOL_NOT_REGISTERED"| == 19 && |"INVALID_PARAMETERS"| == 18;
    assert |"OPERATION_NOT_SUPPORTED"| == 23;
  }

  lemma UnusedHasNoRows(s: State, id: string)
    requires TracesOk(s) && id !in s.used
    ensures RowsOf(s.table, id) == []
  {
    var rows := RowsOf(s.table, id);
    if rows != [] {
      RowsOfMembers(s.table, id, rows[0]);
    }
  }

  lemma OtherTracesKept(s: State, s': State, row: Event, id: string)
    requires TracesOk(s) && id in s.used && id != row.requestId
    requires s'.table == s.table + [row] && s'.used >= s.used
    requires id in s'.pending <==> id in s.pending
    requires id in s.pending ==> s'.pending[id] == s.pending[id]
    requires id in s'.returned <==> id in s.returned
    requires id in s.returned ==> s'.returned[id] == s.returned[id]
    ensures TraceOk(s', id)
  {
    assert TraceOk(s, id);
    RowsOfAppend(s.table, row, id);
  }

  /** The trace of the request that begins. */
  lemma BeginStartsTrace(h: Hash, s: State, id: string, call: Call, policy: PolicyDecision, t: Tick)
    requires TracesOk(s) && id !in s.used && PolicyAnswer(policy) && Representable(t.now)
    ensures TraceOk(Begin(h, s, id, call, policy, t), id)
  {
    hide NewRow;
    hide Insertable;
    hide RowsOf;
    hide Representable;
    hide FirstEvent;
    hide HasKey;
    FirstEventShape(s.table, id, call, policy, t);
    var data := FirstEvent(s.table, id, call, policy, t);
    RowKeeps(h, s.table, data, t.now, t.eventId);
    UnusedHasNoRows(s, id);
    RowsOfAppend(s.table, NewRow(h, s.table, data, t.now, t.eventId), id);
  }

  lemma BeginKeepsTraces(h: Hash, s: State, id: string, call: Call, policy: PolicyDecision, t: Tick)
    requires TracesOk(s) && id !in s.used && PolicyAnswer(policy) && Representable(t.now)
    ensures TracesOk(Begin(h, s, id, call, policy, t))
  {
    hide NewRow;
    hide Insertable;
    hide RowsOf;
    hide Representable;
    hide FirstEvent;
    hide HasKey;
    hide NotForwardedTrace;
    hide AuthorizedTrace;
    hide CompletedTrace;
    hide OutcomeMatches;
    FirstEventShape(s.table, id, call, policy, t);
    var data := FirstEvent(s.table, id, call, policy, t);
    var row := NewRow(h, s.table, data, t.now, t.eventId);
    var s' := Begin(h, s, id, call, policy, t);
    RowKeeps(h, s.table, data, t.now, t.eventId);
    BeginStartsTrace(h, s, id, call, policy, t);
    forall other | other in s'.used ensures TraceOk(s', other) {
      if other != id {
        assert TraceOk(s, other);
        if Insertable(s.table, row) {
          OtherTracesKept(s, s', row, other);
        }
      }
    }
  }

  /** A call that ends without a final event leaves its lone authorization. */
  lemma EscapeKeepsTraces(s: State, id: string)
    requires TracesOk(s) && id in s.pending
    ensures TracesOk(s.(pending := s.pending - {id}))
  {
    hide RowsOf;
    var s' := s.(pending := s.pending - {id});
    forall other | other in s'.used ensures TraceOk(s', other) {
      assert TraceOk(s, other);
    }
  }

  lemma ResumeKeepsTraces(h: Hash, s: State, id: string, execution: Execution, t: Tick)
    requires TracesOk(s) && id in s.pending && Representable(t.now)
    ensures TracesOk(Resume(h, s, id, execution, t))
  {
    hide FinalEvent;
    hide Reports;
    hide FinalOutcome;
    hide FinalStatus;
    hide HttpStatus;
    hide NewRow;
    hide Insertable;
    hide RowsOf;
    hide TraceOk;
    hide Representable;
    EscapeKeepsTraces(s, id);
    if !execution.Escaped? {
      var data := FinalEvent(id, s.pending[id], execution, t);
      var row := NewRow(h, s.table, data, t.now, t.eventId);
      var s' := Resume(h, s, id, execution, t);
      RowKeeps(h, s.table, data, t.now, t.eventId);
      FinalEventShape(id, s.pending[id], execution, t);
      if Insertable(s.table, row) {
        ResumeEndsTrace(s, s', id, row, FinalOutcome(id, execution));
        forall other | other in s'.used ensures TraceOk(s', other) {
          if other != id {
            OtherTracesKept(s, s', row, other);
          }
        }
      }
    }
  }

  /** The trace of the request that ends. */
  lemma ResumeEndsTrace(s: State, s': State, id: string, row: Event, o: Outcome)
    requires TracesOk(s) && id in s.pending && row.requestId == id && row.sequence == 1
    requires row.status.Executed? || row.status.ToolFailed? || row.status.TimedOut?
    requires if row.status.Executed? then row.decision.Allow? else row.decision.Error?
    requires row.status.TimedOut? <==> row.reasonCode == "UPSTREAM_TOOL_TIMEOUT"
    requires OutcomeMatches(o, row)
    requires s' == State(s.table + [row], s.used, s.pending - {id}, s.forwarded, s.returned[id := o])
    ensures TraceOk(s', id)
  {
    hide RowsOf;
    hide HttpStatus;
    assert TraceOk(s, id);
    RowsOfAppend(s.table, row, id);
  }

  // ---------------------------------------------------------------- one key, one owner

  /** The request that first recorded a key. */
  function Owner(table: seq<Event>, agentId: string, key: string): Option<string> {
    if table == [] then None
    else
      var n := |table| - 1;
      match Owner(table[..n], agentId, key)
      case Some(id) => Some(id)
      case None =>
        if table[n].agentId == agentId && table[n].idempotencyKey == key then Some(table[n].requestId) else None
  }

  lemma OwnerAppend(table: seq<Event>, row: Event, agentId: string, key: string)
    ensures Owner(table + [row], agentId, key) ==
            if Owner(table, agentId, key).Some? then Owner(table, agentId, key)
            else if row.agentId == agentId && row.idempotencyKey == key then Some(row.requestId)
            else None
  {
    assert (table + [row])[..|table|] == table;
  }

  lemma {:induction false} OwnerIffKey(table: seq<Event>, agentId: string, key: string)
    ensures Owner(table, agentId, key).Some? <==> HasKey(table, agentId, key)
  {
    if table != [] {
      var n := |table| - 1;
      OwnerIffKey(table[..n], agentId, key);
      assert table == table[..n] + [table[n]];
      if HasKey(table[..n], agentId, key) {
        var e :| e in table[..n] && e.agentId == agentId && e.idempotencyKey == key;
        assert e in table;
      }
      if table[n].agentId == agentId && table[n].idempotencyKey == key {
        assert table[n] in table;
      }
    }
  }

  predicate IsDuplicate(e: Event) {
    e.reasonCode == "DUPLICATE_REQUEST"
  }

  predicate OwnedOk(table: seq<Event>, e: Event) {
    IsDuplicate(e) <==> Owner(table, e.agentId, e.idempotencyKey) != Some(e.requestId)
  }

  predicate KeysOk(s: State) {
    forall e :: e in s.table ==> OwnedOk(s.table, e)
  }

  lemma KeysKeptByAppend(table: seq<Event>, row: Event)
    requires forall e :: e in table ==> OwnedOk(table, e)
    requires OwnedOk(table + [row], row)
    ensures forall e :: e in table + [row] ==> OwnedOk(table + [row], e)
  {
    forall e | e in table + [row] ensures OwnedOk(table + [row], e) {
      if e in table {
        OwnerAppend(table, row, e.agentId, e.idempotencyKey);
        OwnerIffKey(table, e.agentId, e.idempotencyKey);
        assert OwnedOk(table, e);
        assert HasKey(table, e.agentId, e.idempotencyKey);
      }
    }
  }

  lemma BeginKeepsKeys(h: Hash, s: State, id: string, call: Call, policy: PolicyDecision, t: Tick)
    requires TracesOk(s) && KeysOk(s) && id !in s.used && PolicyAnswer(policy) && Representable(t.now)
    ensures KeysOk(Begin(h, s, id, call, policy, t))
  {
    hide NewRow;
    hide Insertable;
    hide Owner;
    hide Representable;
    hide TraceOk;
    hide FirstEvent;
    FirstEventShape(s.table, id, call, policy, t);
    var data := FirstEvent(s.table, id, call, policy, t);
    var row := NewRow(h, s.table, data, t.now, t.eventId);
    RowKeeps(h, s.table, data, t.now, t.eventId);
    OwnerAppend(s.table, row, row.agentId, row.idempotencyKey);
    OwnerIffKey(s.table, row.agentId, row.idempotencyKey);
    OwnerUsed(s, call.agentId, call.idempotencyKey);
    KeysKeptByAppend(s.table, row);
  }

  lemma OwnerUsed(s: State, agentId: string, key: string)
    requires TracesOk(s)
    ensures Owner(s.table, agentId, key).Some? ==> Owner(s.table, agentId, key).value in s.used
  {
    if Owner(s.table, agentId, key).Some? {
      OwnerIsFirst(s.table, agentId, key);
    }
  }

  predicate HasRow(table: seq<Event>, p: nat, agentId: string, key: string) {
    p < |table| && table[p].agentId == agentId && table[p].idempotencyKey == key
  }

  predicate IsFirstRow(table: seq<Event>, p: nat, agentId: string, key: string) {
    HasRow(table, p, agentId, key) && forall q: nat :: q < p ==> !HasRow(table, q, agentId, key)
  }

  lemma {:induction false} OwnerIsFirst(table: seq<Event>, agentId: string, key: string)
    requires Owner(table, agentId, key).Some?
    ensures exists p: nat :: IsFirstRow(table, p, agentId, key)
                             && table[p].requestId == Owner(table, agentId, key).value
  {
    var n := |table| - 1;
    var before := table[..n];
    OwnerIffKey(before, agentId, key);
    if Owner(before, agentId, key).Some? {
      OwnerIsFirst(before, agentId, key);
      var p: nat :| IsFirstRow(before, p, agentId, key) && before[p].requestId == Owner(before, agentId, key).value;
      forall q: nat | q < p ensures !HasRow(table, q, agentId, key) {
        assert !HasRow(before, q, agentId, key);
      }
      assert IsFirstRow(table, p, agentId, key);
    } else {
      forall q: nat | q < n ensures !HasRow(table, q, agentId, key) {
        assert before[q] in before;
      }
      assert IsFirstRow(table, n, agentId, key);
    }
  }

  lemma ResumeKeepsKeys(h: Hash, s: State, id: string, execution: Execution, t: Tick)
    requires TracesOk(s) && KeysOk(s) && id in s.pending && Representable(t.now)
    requires forall e :: e in s.table && e.status.Authorized? ==> !IsDuplicate(e)
    ensures KeysOk(Resume(h, s, id, execution, t))
  {
    hide FinalEvent;
    hide Reports;
    hide FinalOutcome;
    hide FinalStatus;
    hide HttpStatus;
    hide NewRow;
    hide Insertable;
    hide Owner;
    hide Representable;
    hide RowsOf;
    if !execution.Escaped? {
      var call := s.pending[id].call;
      var data := FinalEvent(id, s.pending[id], execution, t);
      var row := NewRow(h, s.table, data, t.now, t.eventId);
      RowKeeps(h, s.table, data, t.now, t.eventId);
      FinalEventShape(id, s.pending[id], execution, t);
      assert TraceOk(s, id);
      var first := RowsOf(s.table, id)[0];
      RowsOfMembers(s.table, id, first);
      assert OwnedOk(s.table, first);
      OwnerAppend(s.table, row, row.agentId, row.idempotencyKey);
      KeysKeptByAppend(s.table, row);
    }
  }

  // ---------------------------------------------------------------- forwarding

  /** The forwarded call has its authorization committed, with its own agent and key. */
  predicate ForwardOk(s: State, f: Forward) {
    && f.row < |s.table|
    && s.table[f.row].requestId == f.requestId
    && s.table[f.row].status.Authorized? && s.table[f.row].sequence == 0
    && s.table[f.row].agentId == f.call.agentId
    && s.table[f.row].idempotencyKey == f.call.idempotencyKey
  }

  predicate HasForward(s: State, p: nat) {
    exists i :: 0 <= i < |s.forwarded| && s.forwarded[i].row == p
  }

  predicate ForwardsOk(s: State) {
    && (forall e :: e in s.table && e.status.Authorized? ==> !IsDuplicate(e))
    && (forall i :: 0 <= i < |s.forwarded| ==> ForwardOk(s, s.forwarded[i]) && s.forwarded[i].requestId in s.used)
    && (forall i, j :: 0 <= i < j < |s.forwarded| ==> s.forwarded[i].requestId != s.forwarded[j].requestId)
    && (forall p :: 0 <= p < |s.table| && s.table[p].status.Authorized? ==> HasForward(s, p))
  }

  lemma ForwardsKept(s: State, s': State, row: Event)
    requires ForwardsOk(s) && s'.table == s.table + [row] && s'.used >= s.used
    requires if row.status.Authorized?
      then |s'.forwarded| == |s.forwarded| + 1 && s'.forwarded[..|s.forwarded|] == s.forwarded
           && s'.forwarded[|s.forwarded|].row == |s.table| && ForwardOk(s', s'.forwarded[|s.forwarded|])
           && s'.forwarded[|s.forwarded|].requestId in s'.used && s'.forwarded[|s.forwarded|].requestId !in s.used
           && !IsDuplicate(row)
      else s'.forwarded == s.forwarded
    ensures ForwardsOk(s')
  {
    var n := |s.forwarded|;
    assert forall i :: 0 <= i < n ==> s'.forwarded[i] == s.forwarded[i] by {
      assert row.status.Authorized? ==> forall i :: 0 <= i < n ==> s'.forwarded[..n][i] == s'.forwarded[i];
    }
    forall i | 0 <= i < |s'.forwarded|
      ensures ForwardOk(s', s'.forwarded[i]) && s'.forwarded[i].requestId in s'.used
    {
      if i < n {
        assert s'.forwarded[i] == s.forwarded[i];
        assert ForwardOk(s, s.forwarded[i]);
      }
    }
    forall i, j | 0 <= i < j < |s'.forwarded|
      ensures s'.forwarded[i].requestId != s'.forwarded[j].requestId
    {
      assert s'.forwarded[i] == s.forwarded[i];
    }
    forall p | 0 <= p < |s'.table| && s'.table[p].status.Authorized? ensures HasForward(s', p) {
      if p < |s.table| {
        assert HasForward(s, p);
        var i :| 0 <= i < n && s.forwarded[i].row == p;
        assert s'.forwarded[i].row == p;
      } else {
        assert s'.forwarded[n].row == p;
      }
    }
  }

  lemma BeginKeepsForwards(h: Hash, s: State, id: string, call: Call, policy: PolicyDecision, t: Tick)
    requires ForwardsOk(s) && id !in s.used && PolicyAnswer(policy) && Representable(t.now)
    ensures ForwardsOk(Begin(h, s, id, call, policy, t))
  {
    hide NewRow;
    hide Insertable;
    hide HasKey;
    hide Representable;
    hide FirstEvent;
    FirstEventShape(s.table, id, call, policy, t);
    var data := FirstEvent(s.table, id, call, policy, t);
    var row := NewRow(h, s.table, data, t.now, t.eventId);
    var s' := Begin(h, s, id, call, policy, t);
    RowKeeps(h, s.table, data, t.now, t.eventId);
    if Insertable(s.table, row) {
      ForwardsKept(s, s', row);
    } else {
      assert forall f :: ForwardOk(s, f) ==> ForwardOk(s', f);
      assert forall p: nat :: HasForward(s, p) ==> HasForward(s', p);
    }
  }

  lemma ResumeKeepsForwards(h: Hash, s: State, id: string, execution: Execution, t: Tick)
    requires ForwardsOk(s) && id in s.pending && Representable(t.now)
    ensures ForwardsOk(Resume(h, s, id, execution, t))
  {
    hide FinalEvent;
    hide Reports;
    hide FinalOutcome;
    hide FinalStatus;
    hide HttpStatus;
    hide NewRow;
    hide Insertable;
    hide Representable;
    var s' := Resume(h, s, id, execution, t);
    if s'.table == s.table {
      assert forall f :: ForwardOk(s, f) ==> ForwardOk(s', f);
      assert forall p: nat :: HasForward(s, p) ==> HasForward(s', p);
    } else {
      var data := FinalEvent(id, s.pending[id], execution, t);
      var row := NewRow(h, s.table, data, t.now, t.eventId);
      RowKeeps(h, s.table, data, t.now, t.eventId);
      FinalEventShape(id, s.pending[id], execution, t);
      ForwardsKept(s, s', row);
    }
  }

  // ---------------------------------------------------------------- every run

  predicate Invariant(h: Hash, s: State) {
    TracesOk(s) && KeysOk(s) && ForwardsOk(s) && Recorded(h, s.table)
  }

  lemma StepRecords(h: Hash, s: State, step: Step)
    requires Recorded(h, s.table) && Enabled(s, step)
    ensures Recorded(h, Next(h, s, step).table)
  {
    hide NewRow;
    hide Recorded;
    hide Representable;
    match step
    case BeginStep(id, call, policy, t) =>
      var data := FirstEvent(s.table, id, call, policy, t);
      if Insertable(s.table, NewRow(h, s.table, data, t.now, t.eventId)) {
        RecordLinks(h, s.table, data, t.now, t.eventId);
      }
    case ResumeStep(id, execution, t) =>
      if !execution.Escaped? {
        var data := FinalEvent(id, s.pending[id], execution, t);
        if Insertable(s.table, NewRow(h, s.table, data, t.now, t.eventId)) {
          RecordLinks(h, s.table, data, t.now, t.eventId);
        }
      }
    case _ =>
  }

  lemma StepKeepsInvariant(h: Hash, s: State, step: Step)
    requires Invariant(h, s) && Enabled(s, step)
    ensures Invariant(h, Next(h, s, step))
  {
    hide Begin;
    hide Resume;
    hide Representable;
    hide Recorded;
    StepRecords(h, s, step);
    match step
    case BeginStep(id, call, policy, t) =>
      BeginKeepsTraces(h, s, id, call, policy, t);
      BeginKeepsKeys(h, s, id, call, policy, t);
      BeginKeepsForwards(h, s, id, call, policy, t);
    case ResumeStep(id, execution, t) =>
      ResumeKeepsTraces(h, s, id, execution, t);
      ResumeKeepsKeys(h, s, id, execution, t);
      ResumeKeepsForwards(h, s, id, execution, t);
    case RaiseStep(id) =>
      RaiseKeepsTraces(s, id);
      RaiseKeepsForwards(s, id);
    case EscapeStep(id) =>
      EscapeKeepsTraces(s, id);
      EscapeKeepsForwards(s, id);
  }

  lemma RaiseKeepsTraces(s: State, id: string)
    requires TracesOk(s) && id !in s.used
    ensures TracesOk(s.(used := s.used + {id}))
  {
    hide RowsOf;
    var s' := s.(used := s.used + {id});
    UnusedHasNoRows(s, id);
    forall other | other in s'.used ensures TraceOk(s', other) {
      if other != id {
        assert TraceOk(s, other);
      }
    }
  }

  lemma RaiseKeepsForwards(s: State, id: string)
    requires ForwardsOk(s)
    ensures ForwardsOk(s.(used := s.used + {id}))
  {
    var s' := s.(used := s.used + {id});
    assert forall f :: ForwardOk(s, f) ==> ForwardOk(s', f);
    assert forall p: nat :: HasForward(s, p) ==> HasForward(s', p);
  }

  lemma EscapeKeepsForwards(s: State, id: string)
    requires ForwardsOk(s)
    ensures ForwardsOk(s.(pending := s.pending - {id}))
  {
    var s' := s.(pending := s.pending - {id});
    assert forall f :: ForwardOk(s, f) ==> ForwardOk(s', f);
    assert forall p: nat :: HasForward(s, p) ==> HasForward(s', p);
  }

  lemma {:induction false} RunKeepsInvariant(h: Hash, steps: seq<Step>)
    requires Run(h, steps).Some?
    ensures Invariant(h, Run(h, steps).value)
  {
    if steps != [] {
      var before := steps[..|steps| - 1];
      RunKeepsInvariant(h, before);
      StepKeepsInvariant(h, Run(h, before).value, steps[|steps| - 1]);
    }
  }

  // ---------------------------------------------------------------- main results

  /** No (agent, idempotency key) is forwarded twice, and every forward has its own
      authorization row already in the log. */
  lemma ForwardedAtMostOnce(h: Hash, steps: seq<Step>)
    requires Run(h, steps).Some?
    ensures var s := Run(h, steps).value;
      && (forall i :: 0 <= i < |s.forwarded| ==> ForwardOk(s, s.forwarded[i]))
      && (forall p :: 0 <= p < |s.table| && s.table[p].status.Authorized? ==> HasForward(s, p))
      && (forall i, j :: 0 <= i < j < |s.forwarded| ==>
            !(s.forwarded[i].call.agentId == s.forwarded[j].call.agentId
              && s.forwarded[i].call.idempotencyKey == s.forwarded[j].call.idempotencyKey))
  {
    hide Run;
    hide TraceOk;
    hide Owner;
    hide Recorded;
    RunKeepsInvariant(h, steps);
    var s := Run(h, steps).value;
    forall i, j | 0 <= i < j < |s.forwarded|
      ensures !(s.forwarded[i].call.agentId == s.forwarded[j].call.agentId
                && s.forwarded[i].call.idempotencyKey == s.forwarded[j].call.idempotencyKey)
    {
      var a, b := s.table[s.forwarded[i].row], s.table[s.forwarded[j].row];
      assert ForwardOk(s, s.forwarded[i]) && ForwardOk(s, s.forwarded[j]);
      assert a in s.table && b in s.table;
      assert OwnedOk(s.table, a) && OwnedOk(s.table, b);
    }
  }

  /** Among all events carrying a key, those of the request that recorded it first, and only
      those, are not duplicates, wherever the duplicates fall. */
  lemma FirstRequestOwnsKey(h: Hash, steps: seq<Step>, p: nat, first: nat)
    requires Run(h, steps).Some?
    requires var table := Run(h, steps).value.table;
      p < |table| && IsFirstRow(table, first, table[p].agentId, table[p].idempotencyKey)
    ensures var table := Run(h, steps).value.table;
      IsDuplicate(table[p]) <==> table[p].requestId != table[first].requestId
  {
    hide Run;
    hide TraceOk;
    hide Recorded;
    hide ForwardsOk;
    RunKeepsInvariant(h, steps);
    var table := Run(h, steps).value.table;
    var agentId, key := table[p].agentId, table[p].idempotencyKey;
    assert table[p] in table;
    assert OwnedOk(table, table[p]);
    OwnerIffKey(table, agentId, key);
    OwnerIsFirst(table, agentId, key);
    var q: nat :| IsFirstRow(table, q, agentId, key) && table[q].requestId == Owner(table, agentId, key).value;
    assert q == first by {
      assert HasRow(table, q, agentId, key) && HasRow(table, first, agentId, key);
      assert !(q < first) && !(first < q);
    }
  }

  /** Every request leaves one of three traces, and what it was answered is its last event. */
  lemma EveryTraceIsWellFormed(h: Hash, steps: seq<Step>, id: string)
    requires Run(h, steps).Some?
    ensures var s := Run(h, steps).value;
      var rows := RowsOf(s.table, id);
      && (rows == [] || NotForwardedTrace(rows) || AuthorizedTrace(rows) || CompletedTrace(rows))
      && (id in s.pending ==> AuthorizedTrace(rows))
      && (id in s.returned ==> rows != [] && OutcomeMatches(s.returned[id], rows[|rows| - 1]) && !AuthorizedTrace(rows))
      && (rows != [] && !AuthorizedTrace(rows) ==> id in s.returned)
  {
    hide Run;
    hide RowsOf;
    hide Recorded;
    hide Owner;
    RunKeepsInvariant(h, steps);
    var s := Run(h, steps).value;
    if id in s.used {
      assert TraceOk(s, id);
    } else {
      UnusedHasNoRows(s, id);
    }
  }

  /** The log of any interleaving verifies exactly when its keys increase, and then reading it
      back sorted gives the order of writing. */
  lemma InterleavedLogVerifies(h: Hash, steps: seq<Step>)
    requires Run(h, steps).Some?
    ensures var table := Run(h, steps).value.table;
      && ValidTable(table)
      && (Ascending(table, EventKey) ==> Verifies(h, table) && ChainOrder(table) == table)
      && (CollisionFree(h, table) ==> (Verifies(h, table) <==> Ascending(table, EventKey)))
  {
    hide Run;
    hide TracesOk;
    hide KeysOk;
    hide ForwardsOk;
    hide Recorded;
    hide Storable;
    hide Ascending;
    hide ChainOrder;
    RunKeepsInvariant(h, steps);
    var table := Run(h, steps).value.table;
    RecordedValid(h, table);
    if Ascending(table, EventKey) {
      KeyOrderVerifies(h, table);
    }
    if CollisionFree(h, table) {
      RunVerifiesIffInKeyOrder(h, table);
    }
  }

  // ---------------------------------------------------------------- the clock steps back

  function PlainCall(key: string): Call {
    Call("agent", TrustedClaims("sess_1", "jti", "agent", "user", "customer", 0, 60), key, "crm", "read_customer", [],
         None)
  }

  const NO_MANIFEST: PolicyDecision :=
    PolicyDecision(false, "MANIFEST_NOT_FOUND", "No active permission manifest exists", None, None)

  lemma RunExtends(h: Hash, steps: seq<Step>, step: Step)
    requires Run(h, steps).Some? && Enabled(Run(h, steps).value, step)
    ensures Run(h, steps + [step]) == Some(Next(h, Run(h, steps).value, step))
  {
    assert (steps + [step])[..|steps|] == steps;
  }

  /** A denied call with ids and a key of its own adds one row and uses up its request id. */
  lemma DeniedAddsRow(h: Hash, s: State, id: string, call: Call, t: Tick)
    requires Representable(t.now) && !HasKey(s.table, call.agentId, call.idempotencyKey)
    requires forall e :: e in s.table ==> e.eventId != t.eventId && e.requestId != id
    ensures var s' := Begin(h, s, id, call, NO_MANIFEST, t);
      && s'.used == s.used + {id} && |s'.table| == |s.table| + 1 && s'.table[..|s.table|] == s.table
      && var row := s'.table[|s.table|];
         row.eventId == t.eventId && row.requestId == id && row.agentId == call.agentId
         && row.idempotencyKey == call.idempotencyKey && AsUtc(row.timestamp) == t.now
  {
    hide NewRow;
    hide Representable;
    hide HasKey;
    hide FirstEvent;
    assert PolicyAnswer(NO_MANIFEST) by { assert |NO_MANIFEST.reason| != |"DUPLICATE_REQUEST"|; }
    FirstEventShape(s.table, id, call, NO_MANIFEST, t);
    RowKeeps(h, s.table, FirstEvent(s.table, id, call, NO_MANIFEST, t), t.now, t.eventId);
  }

  /** Two calls run one after the other, the second while the clock reads a microsecond less:
      the log no longer verifies, with a hash that never collides. */
  lemma ClockStepBackBreaksLog() returns (h: Hash, steps: seq<Step>)
    ensures Representable(0) && Representable(1)
    ensures steps == [BeginStep("req_1", PlainCall("key-0001"), NO_MANIFEST, Tick(1, "evt_1", 1, 2)),
                      BeginStep("req_2", PlainCall("key-0002"), NO_MANIFEST, Tick(0, "evt_2", 1, 2))]
    ensures Run(h, steps).Some? && |Run(h, steps).value.table| == 2
    ensures ValidTable(Run(h, steps).value.table) && CollisionFree(h, Run(h, steps).value.table)
    ensures !Verifies(h, Run(h, steps).value.table)
  {
    hide Run;
    hide Begin;
    hide Verifies;
    hide Collide;
    hide Storable;
    hide Representable;
    EarlyInstants();
    h := text => text;
    var one, two := PlainCall("key-0001"), PlainCall("key-0002");
    var t1, t2 := Tick(1, "evt_1", 1, 2), Tick(0, "evt_2", 1, 2);
    var b1, b2 := BeginStep("req_1", one, NO_MANIFEST, t1), BeginStep("req_2", two, NO_MANIFEST, t2);
    steps := [b1, b2];
    assert |NO_MANIFEST.reason| != |"DUPLICATE_REQUEST"|;
    assert "evt_1"[4] != "evt_2"[4] && "req_1"[4] != "req_2"[4] && "key-0001"[7] != "key-0002"[7];
    RunFromNothing(h);
    DeniedAddsRow(h, INITIAL, "req_1", one, t1);
    RunExtends(h, [], b1);
    assert [] + [b1] == [b1] && [b1] + [b2] == steps;
    var s1 := Run(h, [b1]).value;
    DeniedAddsRow(h, s1, "req_2", two, t2);
    RunExtends(h, [b1], b2);
    var table := Run(h, steps).value.table;
    assert table[0] == table[..1][0] == s1.table[0];
    InterleavedLogVerifies(h, steps);
    IdentityNeverCollides(table);
    assert EventKey(table[0])[0] == 1 && EventKey(table[1])[0] == 0;
    assert !LexLess(EventKey(table[0]), EventKey(table[1]));
  }

  lemma RunFromNothing(h: Hash)
    ensures Run(h, []) == Some(INITIAL)
  {
  }
}
