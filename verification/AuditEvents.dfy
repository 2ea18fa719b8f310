/** Audit events: what a row stores and the hash that seals it. */
module AuditEvents {
  import opened Wrappers
  import opened Json
  import opened JsonParser
  import opened UtcTime
  import opened Redaction

  datatype Decision = Allow | Block | Error

  datatype ExecutionStatus = NotForwarded | Authorized | Executed | ToolFailed | TimedOut

  /** A row of the audit table. */
  datatype Event = Event(
    eventId: string,
    requestId: string,
    idempotencyKey: string,
    sequence: int,
    timestamp: Stamp,
    agentId: string,
    sessionId: Option<string>,
    userId: Option<string>,
    tool: string,
    operation: string,
    parameters: Json,
    decision: Decision,
    reasonCode: string,
    manifestId: Option<string>,
    policyChecksum: Option<string>,
    status: ExecutionStatus,
    upstreamStatus: Option<int>,
    decisionMs: Option<int>,
    totalMs: Option<int>,
    traceId: Option<string>,
    previousHash: Option<string>,
    recordHash: string)

  /** The digest function, SHA-256 in hexadecimal. Nothing is assumed of it; where a theorem
      rests on collision resistance it names the two texts that would have to collide. */
  type Hash = string -> string

  // ---------------------------------------------------------------- the sealed payload

  function DecisionValue(d: Decision): string {
    match d
    case Allow => "allow"
    case Block => "block"
    case Error => "error"
  }

  function StatusValue(s: ExecutionStatus): string {
    match s
    case NotForwarded => "not_forwarded"
    case Authorized => "authorized"
    case Executed => "executed"
    case ToolFailed => "tool_failed"
    case TimedOut => "timed_out"
  }

  function OptStr(o: Option<string>): Json {
    match o
    case None => Null
    case Some(s) => Str(s)
  }

  function OptNum(o: Option<int>): Json {
    match o
    case None => Null
    case Some(n) => Num(n)
  }

  /** Rows a database can return: the time is a `datetime`, the parameters any JSON value. */
  predicate Storable(e: Event) {
    && Representable(AsUtc(e.timestamp))
    && WellFormed(e.parameters)
  }

  function RequestFields(e: Event): seq<Field>
    requires Representable(AsUtc(e.timestamp))
  {
    [ Field("event_id", Str(e.eventId)),
      Field("request_id", Str(e.requestId)),
      Field("idempotency_key", Str(e.idempotencyKey)),
      Field("sequence", Num(e.sequence)),
      Field("timestamp", Str(IsoFormat(AsUtc(e.timestamp)))),
      Field("agent_id", Str(e.agentId)),
      Field("session_id", OptStr(e.sessionId)),
      Field("user_id", OptStr(e.userId)),
      Field("tool", Str(e.tool)),
      Field("operation", Str(e.operation)) ]
  }

  function VerdictFields(e: Event): seq<Field> {
    [ Field("decision", Str(DecisionValue(e.decision))),
      Field("reason_code", Str(e.reasonCode)),
      Field("matched_manifest_id", OptStr(e.manifestId)),
      Field("policy_checksum", OptStr(e.policyChecksum)),
      Field("execution_status", Str(StatusValue(e.status))),
      Field("upstream_status_code", OptNum(e.upstreamStatus)),
      Field("decision_latency_ms", OptNum(e.decisionMs)),
      Field("total_latency_ms", OptNum(e.totalMs)),
      Field("trace_id", OptStr(e.traceId)),
      Field("previous_record_hash", OptStr(e.previousHash)) ]
  }

  /** The dictionary `event_hash` seals: every column but the hash itself. */
  function Payload(e: Event): (v: Json)
    requires Representable(AsUtc(e.timestamp))
    ensures v.Obj? && |v.fields| == 21
    ensures v.fields[..10] == RequestFields(e) && v.fields[11..] == VerdictFields(e)
    ensures v.fields[10] == Field("sanitized_parameters", e.parameters)
  {
    Obj(RequestFields(e) + [Field("sanitized_parameters", e.parameters)] + VerdictFields(e))
  }

  function SealedText(e: Event): string
    requires Representable(AsUtc(e.timestamp))
  {
    Canonical(Payload(e))
  }

  /** `event_hash` */
  function EventHash(h: Hash, e: Event): string
    requires Representable(AsUtc(e.timestamp))
  {
    h(SealedText(e))
  }

  predicate DiffersFromLater(fields: seq<Field>, i: nat)
    requires i < |fields|
  {
    forall j :: i < j < |fields| ==> fields[i].name != fields[j].name
  }

  lemma PayloadNamesFirst(e: Event)
    requires Storable(e)
    ensures forall i :: 0 <= i < 5 ==> DiffersFromLater(Payload(e).fields, i)
  {
  }

  lemma PayloadNamesMiddle(e: Event)
    requires Storable(e)
    ensures forall i :: 5 <= i < 8 ==> DiffersFromLater(Payload(e).fields, i)
  {
    hide WellFormed;
  }

  lemma PayloadNamesNext(e: Event)
    requires Storable(e)
    ensures forall i :: 8 <= i < 11 ==> DiffersFromLater(Payload(e).fields, i)
  {
    hide WellFormed;
    var fields := Payload(e).fields;
    assert |fields[8].name| == 4 && |fields[9].name| == 9 && |fields[10].name| == 20 && fields[10].name[0] == 's';
    assert |fields[11].name| == 8 && |fields[12].name| == 11 && |fields[13].name| == 19 && |fields[14].name| == 15;
    assert |fields[15].name| == 16 && fields[16].name[0] == 'u' && |fields[17].name| == 19 && |fields[18].name| == 16;
    assert |fields[19].name| == 8 && fields[20].name[0] == 'p' && |fields[16].name| == |fields[20].name| == 20;
  }

  lemma PayloadNamesLast(e: Event)
    requires Storable(e)
    ensures forall i :: 11 <= i < 21 ==> DiffersFromLater(Payload(e).fields, i)
  {
  }

  lemma PayloadWellFormed(e: Event)
    requires Storable(e)
    ensures WellFormed(Payload(e))
  {
    PayloadNamesFirst(e);
    PayloadNamesMiddle(e);
    PayloadNamesNext(e);
    PayloadNamesLast(e);
    var fields := Payload(e).fields;
    assert |fields| == 21;
    forall i, j | 0 <= i < j < |fields| ensures fields[i].name != fields[j].name {
      assert DiffersFromLater(fields, i);
    }
    assert WellFormed(fields[10].value);
    forall i | 0 <= i < |fields| ensures WellFormed(fields[i].value) {
    }
  }

  // ---------------------------------------------------------------- column by column

  function StatusWord(s: ExecutionStatus): string {
    if s.NotForwarded? then "not_forwarded"
    else if s.Authorized? then "authorized"
    else if s.Executed? then "executed"
    else if s.ToolFailed? then "tool_failed"
    else "timed_out"
  }

  lemma PayloadUnique(e: Event)
    requires Storable(e)
    ensures UniqueNames(Payload(e).fields)
  {
    hide Payload;
    PayloadWellFormed(e);
  }

  /** The sealed dictionary holds each column of the row under that column's name. */
  lemma PayloadRequest(e: Event)
    requires Storable(e)
    ensures var fields := Payload(e).fields;
      && Lookup(fields, "event_id") == Some(Str(e.eventId))
      && Lookup(fields, "request_id") == Some(Str(e.requestId))
      && Lookup(fields, "idempotency_key") == Some(Str(e.idempotencyKey))
      && Lookup(fields, "sequence") == Some(Num(e.sequence))
      && Lookup(fields, "timestamp") == Some(Str(IsoFormat(AsUtc(e.timestamp))))
      && Lookup(fields, "agent_id") == Some(Str(e.agentId))
      && Lookup(fields, "session_id") == Some(OptStr(e.sessionId))
      && Lookup(fields, "user_id") == Some(OptStr(e.userId))
      && Lookup(fields, "tool") == Some(Str(e.tool))
      && Lookup(fields, "operation") == Some(Str(e.operation))
      && Lookup(fields, "sanitized_parameters") == Some(e.parameters)
  {
    hide Lookup;
    hide WellFormed;
    hide IsoFormat;
    hide Representable;
    PayloadWellFormed(e);
    PayloadUnique(e);
    var fields := Payload(e).fields;
    LookupAt(fields, 0);
    LookupAt(fields, 1);
    LookupAt(fields, 2);
    LookupAt(fields, 3);
    LookupAt(fields, 4);
    LookupAt(fields, 5);
    LookupAt(fields, 6);
    LookupAt(fields, 7);
    LookupAt(fields, 8);
    LookupAt(fields, 9);
    LookupAt(fields, 10);
  }

  lemma PayloadVerdict(e: Event)
    requires Storable(e)
    ensures var fields := Payload(e).fields;
      && Lookup(fields, "decision")
         == Some(Str(if e.decision.Allow? then "allow" else if e.decision.Block? then "block" else "error"))
      && Lookup(fields, "reason_code") == Some(Str(e.reasonCode))
      && Lookup(fields, "matched_manifest_id") == Some(OptStr(e.manifestId))
      && Lookup(fields, "policy_checksum") == Some(OptStr(e.policyChecksum))
      && Lookup(fields, "execution_status") == Some(Str(StatusWord(e.status)))
      && Lookup(fields, "upstream_status_code") == Some(OptNum(e.upstreamStatus))
      && Lookup(fields, "decision_latency_ms") == Some(OptNum(e.decisionMs))
      && Lookup(fields, "total_latency_ms") == Some(OptNum(e.totalMs))
      && Lookup(fields, "trace_id") == Some(OptStr(e.traceId))
      && Lookup(fields, "previous_record_hash") == Some(OptStr(e.previousHash))
  {
    hide Lookup;
    hide WellFormed;
    hide IsoFormat;
    hide Representable;
    PayloadWellFormed(e);
    PayloadUnique(e);
    var fields := Payload(e).fields;
    LookupAt(fields, 11);
    LookupAt(fields, 12);
    LookupAt(fields, 13);
    LookupAt(fields, 14);
    LookupAt(fields, 15);
    LookupAt(fields, 16);
    LookupAt(fields, 17);
    LookupAt(fields, 18);
    LookupAt(fields, 19);
    LookupAt(fields, 20);
  }

  predicate AlignedNames(fs: seq<Field>, gs: seq<Field>) {
    |fs| == |gs| && forall i :: 0 <= i < |fs| ==> fs[i].name == gs[i].name
  }

  predicate AlignedValues(fs: seq<Field>, gs: seq<Field>)
    requires |fs| == |gs|
  {
    forall i :: 0 <= i < |fs| ==> Same(fs[i].value, gs[i].value)
  }

  lemma AlignedSame(fs: seq<Field>, gs: seq<Field>)
    requires AlignedNames(fs, gs) && UniqueNames(gs)
    ensures Same(Obj(fs), Obj(gs)) <==> AlignedValues(fs, gs)
  {
    if Same(Obj(fs), Obj(gs)) {
      forall i | 0 <= i < |fs| ensures Same(fs[i].value, gs[i].value) {
        assert Matched(fs[i], gs);
        var j :| 0 <= j < |gs| && SameField(fs[i], gs[j]);
        assert gs[i].name == gs[j].name;
      }
    }
    if AlignedValues(fs, gs) {
      forall i | 0 <= i < |fs| ensures Matched(fs[i], gs) {
        assert SameField(fs[i], gs[i]);
      }
    }
  }

  /** Equal in everything the hash covers: times as instants, parameters as documents. */
  predicate SamePayload(a: Event, b: Event) {
    && AsUtc(a.timestamp) == AsUtc(b.timestamp)
    && Same(a.parameters, b.parameters)
    && a.(timestamp := b.timestamp, parameters := b.parameters, recordHash := b.recordHash) == b
  }

  lemma ScalarSame(v: Json, w: Json)
    requires !v.Arr? && !v.Obj?
    ensures Same(v, w) <==> v == w
  {
  }

  lemma OptInjective(a: Option<string>, b: Option<string>, m: Option<int>, n: Option<int>)
    ensures OptStr(a) == OptStr(b) <==> a == b
    ensures OptNum(m) == OptNum(n) <==> m == n
  {
  }

  lemma ValuesInjective(a: Event, b: Event)
    ensures DecisionValue(a.decision) == DecisionValue(b.decision) <==> a.decision == b.decision
    ensures StatusValue(a.status) == StatusValue(b.status) <==> a.status == b.status
  {
    assert DecisionValue(Allow)[0] == 'a' && DecisionValue(Block)[0] == 'b' && DecisionValue(Error)[0] == 'e';
    assert |StatusValue(NotForwarded)| == 13 && |StatusValue(Authorized)| == 10 && |StatusValue(Executed)| == 8;
    assert |StatusValue(ToolFailed)| == 11 && |StatusValue(TimedOut)| == 9;
  }

  lemma AlignedScalars(fs: seq<Field>, gs: seq<Field>)
    requires AlignedNames(fs, gs)
    requires forall i :: 0 <= i < |fs| ==> !fs[i].value.Arr? && !fs[i].value.Obj?
    ensures AlignedValues(fs, gs) <==> fs == gs
  {
    forall i | 0 <= i < |fs| ensures Same(fs[i].value, gs[i].value) <==> fs[i] == gs[i] {
      ScalarSame(fs[i].value, gs[i].value);
    }
    if AlignedValues(fs, gs) {
      assert forall i :: 0 <= i < |fs| ==> fs[i] == gs[i];
    }
  }

  lemma OptionsInjective(a: Event, b: Event)
    ensures OptStr(a.sessionId) == OptStr(b.sessionId) <==> a.sessionId == b.sessionId
    ensures OptStr(a.userId) == OptStr(b.userId) <==> a.userId == b.userId
    ensures OptStr(a.manifestId) == OptStr(b.manifestId) <==> a.manifestId == b.manifestId
    ensures OptStr(a.policyChecksum) == OptStr(b.policyChecksum) <==> a.policyChecksum == b.policyChecksum
    ensures OptStr(a.traceId) == OptStr(b.traceId) <==> a.traceId == b.traceId
    ensures OptStr(a.previousHash) == OptStr(b.previousHash) <==> a.previousHash == b.previousHash
    ensures OptNum(a.upstreamStatus) == OptNum(b.upstreamStatus) <==> a.upstreamStatus == b.upstreamStatus
    ensures OptNum(a.decisionMs) == OptNum(b.decisionMs) <==> a.decisionMs == b.decisionMs
    ensures OptNum(a.totalMs) == OptNum(b.totalMs) <==> a.totalMs == b.totalMs
  {
    OptInjective(a.sessionId, b.sessionId, a.upstreamStatus, b.upstreamStatus);
    OptInjective(a.userId, b.userId, a.decisionMs, b.decisionMs);
    OptInjective(a.manifestId, b.manifestId, a.totalMs, b.totalMs);
    OptInjective(a.policyChecksum, b.policyChecksum, None, None);
    OptInjective(a.traceId, b.traceId, None, None);
    OptInjective(a.previousHash, b.previousHash, None, None);
  }

  predicate SameRequest(a: Event, b: Event) {
    && a.eventId == b.eventId && a.requestId == b.requestId && a.idempotencyKey == b.idempotencyKey
    && a.sequence == b.sequence && AsUtc(a.timestamp) == AsUtc(b.timestamp) && a.agentId == b.agentId
    && a.sessionId == b.sessionId && a.userId == b.userId && a.tool == b.tool && a.operation == b.operation
  }

  predicate SameVerdict(a: Event, b: Event) {
    && a.decision == b.decision && a.reasonCode == b.reasonCode && a.manifestId == b.manifestId
    && a.policyChecksum == b.policyChecksum && a.status == b.status && a.upstreamStatus == b.upstreamStatus
    && a.decisionMs == b.decisionMs && a.totalMs == b.totalMs && a.traceId == b.traceId
    && a.previousHash == b.previousHash
  }

  lemma TimesInjective(a: Event, b: Event)
    requires Storable(a) && Storable(b)
    ensures IsoFormat(AsUtc(a.timestamp)) == IsoFormat(AsUtc(b.timestamp))
            <==> AsUtc(a.timestamp) == AsUtc(b.timestamp)
  {
    if IsoFormat(AsUtc(a.timestamp)) == IsoFormat(AsUtc(b.timestamp)) {
      IsoFormatInjective(AsUtc(a.timestamp), AsUtc(b.timestamp));
    }
  }

  lemma RequestFieldsInjective(a: Event, b: Event)
    requires Storable(a) && Storable(b)
    ensures RequestFields(a) == RequestFields(b) <==> SameRequest(a, b)
  {
    hide IsoFormat;
    hide Representable;
    hide WellFormed;
    hide OptStr;
    hide AsUtc;
    TimesInjective(a, b);
    OptionsInjective(a, b);
    var fs, gs := RequestFields(a), RequestFields(b);
    if fs == gs {
      assert fs[0] == gs[0] && fs[1] == gs[1] && fs[2] == gs[2] && fs[3] == gs[3] && fs[4] == gs[4];
      assert fs[5] == gs[5] && fs[6] == gs[6] && fs[7] == gs[7] && fs[8] == gs[8] && fs[9] == gs[9];
    }
  }

  lemma VerdictFieldsInjective(a: Event, b: Event)
    ensures VerdictFields(a) == VerdictFields(b) <==> SameVerdict(a, b)
  {
    hide OptStr;
    hide OptNum;
    hide StatusValue;
    hide DecisionValue;
    OptionsInjective(a, b);
    ValuesInjective(a, b);
    var fs, gs := VerdictFields(a), VerdictFields(b);
    if fs == gs {
      assert fs[0] == gs[0] && fs[1] == gs[1] && fs[2] == gs[2] && fs[3] == gs[3] && fs[4] == gs[4];
      assert fs[5] == gs[5] && fs[6] == gs[6] && fs[7] == gs[7] && fs[8] == gs[8] && fs[9] == gs[9];
    }
  }

  lemma PartsAligned(a: Event, b: Event)
    requires Storable(a) && Storable(b)
    ensures AlignedNames(RequestFields(a), RequestFields(b)) && AlignedNames(VerdictFields(a), VerdictFields(b))
    ensures AlignedNames(Payload(a).fields, Payload(b).fields)
  {
    hide IsoFormat;
    hide Representable;
    hide WellFormed;
    hide StatusValue;
    hide DecisionValue;
    hide OptStr;
    hide OptNum;
  }

  lemma PartsScalar(a: Event)
    requires Storable(a)
    ensures forall i :: 0 <= i < 10 ==> !RequestFields(a)[i].value.Arr? && !RequestFields(a)[i].value.Obj?
    ensures forall i :: 0 <= i < 10 ==> !VerdictFields(a)[i].value.Arr? && !VerdictFields(a)[i].value.Obj?
  {
    hide IsoFormat;
    hide Representable;
    hide WellFormed;
    hide StatusValue;
    hide DecisionValue;
  }

  lemma AlignedParts(fs: seq<Field>, gs: seq<Field>)
    requires |fs| == |gs| == 21
    ensures AlignedValues(fs, gs) <==>
      && AlignedValues(fs[..10], gs[..10]) && Same(fs[10].value, gs[10].value) && AlignedValues(fs[11..], gs[11..])
  {
    if AlignedValues(fs[..10], gs[..10]) && Same(fs[10].value, gs[10].value) && AlignedValues(fs[11..], gs[11..]) {
      forall i | 0 <= i < 21 ensures Same(fs[i].value, gs[i].value) {
        if i < 10 {
          assert Same(fs[..10][i].value, gs[..10][i].value);
        } else if i > 10 {
          assert Same(fs[11..][i - 11].value, gs[11..][i - 11].value);
        }
      }
    }
  }

  /** The sealed text determines the row up to the hash it carries, and nothing else does. */
  lemma SealedTextDeterminesRow(a: Event, b: Event)
    requires Storable(a) && Storable(b)
    ensures SealedText(a) == SealedText(b) <==> SamePayload(a, b)
  {
    hide Same;
    hide Canonical;
    hide RequestFields;
    hide VerdictFields;
    hide Payload;
    hide Representable;
    PayloadWellFormed(a);
    PayloadWellFormed(b);
    CanonicalSame(Payload(a), Payload(b));
    assert UniqueNames(Payload(b).fields);
    PartsAligned(a, b);
    PartsScalar(a);
    AlignedSame(Payload(a).fields, Payload(b).fields);
    AlignedParts(Payload(a).fields, Payload(b).fields);
    AlignedScalars(RequestFields(a), RequestFields(b));
    AlignedScalars(VerdictFields(a), VerdictFields(b));
    RequestFieldsInjective(a, b);
    VerdictFieldsInjective(a, b);
    assert SamePayload(a, b) <==> SameRequest(a, b) && Same(a.parameters, b.parameters) && SameVerdict(a, b);
  }
}
