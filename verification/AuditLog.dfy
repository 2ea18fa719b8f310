/**
 * The hash-linked audit log. Rows are stored in no particular order; writer and verifier both
 * read them back sorted by (timestamp, event_id).
 */
module AuditLog {
  import opened Wrappers
  import opened Order
  import opened Json
  import opened UtcTime
  import opened Redaction
  import opened AuditEvents

  /** What the service is asked to record. */
  datatype EventInput = EventInput(
    requestId: string,
    idempotencyKey: string,
    sequence: int,
    agentId: string,
    sessionId: Option<string>,
    userId: Option<string>,
    tool: string,
    operation: string,
    parameters: seq<Field>,
    decision: Decision,
    reasonCode: string,
    status: ExecutionStatus,
    manifestId: Option<string>,
    policyChecksum: Option<string>,
    upstreamStatus: Option<int>,
    decisionMs: Option<int>,
    totalMs: Option<int>,
    traceId: Option<string>)

  /** `ORDER BY timestamp, event_id` */
  function EventKey(e: Event): Key {
    [AsUtc(e.timestamp)] + CodePoints(e.eventId)
  }

  /** `all_chain_events` */
  function ChainOrder(table: seq<Event>): seq<Event> {
    SortBy(table, EventKey)
  }

  lemma LastIsGreatest(table: seq<Event>)
    ensures |ChainOrder(table)| == |table|
    ensures table != [] ==> forall e :: e in table ==> LexLe(EventKey(e), EventKey(ChainOrder(table)[|table| - 1]))
  {
    hide LexLe;
    SortMembers(table, EventKey);
    SortInOrder(table, EventKey);
    var rows := ChainOrder(table);
    forall e | e in table ensures LexLe(EventKey(e), EventKey(rows[|rows| - 1])) {
      assert e in rows;
      var i :| 0 <= i < |rows| && rows[i] == e;
      if i == |rows| - 1 { LexReflexive(EventKey(e)); }
    }
  }

  /** `last_chain_event`: the row that sorts last. */
  function LastChainEvent(table: seq<Event>): (r: Option<Event>)
    ensures r.None? <==> table == []
    ensures r.Some? ==> r.value in table && forall e :: e in table ==> LexLe(EventKey(e), EventKey(r.value))
  {
    SortMembers(table, EventKey);
    LastIsGreatest(table);
    if table == [] then None else Some(ChainOrder(table)[|table| - 1])
  }

  function LastHash(table: seq<Event>): Option<string> {
    match LastChainEvent(table)
    case None => None
    case Some(e) => Some(e.recordHash)
  }

  predicate UniqueIds(table: seq<Event>) {
    forall i, j :: 0 <= i < j < |table| ==> table[i].eventId != table[j].eventId
  }

  predicate AllStorable(rows: seq<Event>) {
    forall i :: 0 <= i < |rows| ==> Storable(rows[i])
  }

  /** What the schema guarantees of any table: a primary key and well-typed columns. */
  predicate ValidTable(table: seq<Event>) {
    UniqueIds(table) && AllStorable(table)
  }

  /** The primary key and the unique (request_id, sequence) constraint admit the row. */
  predicate Insertable(table: seq<Event>, row: Event) {
    forall e :: e in table ==>
      e.eventId != row.eventId && !(e.requestId == row.requestId && e.sequence == row.sequence)
  }

  /** Some row already has this event id, or this number within the request. */
  predicate Taken(table: seq<Event>, eventId: string, requestId: string, sequence: int) {
    exists e :: e in table && (e.eventId == eventId || (e.requestId == requestId && e.sequence == sequence))
  }

  /** The row `record` builds: redacted, stamped in UTC, linked to the row that sorts last. */
  function NewRow(h: Hash, table: seq<Event>, data: EventInput, now: Instant, eventId: string): (row: Event)
    requires Representable(now)
    ensures Storable(row) && AsUtc(row.timestamp) == now && row.eventId == eventId
  {
    SanitizedWellFormed(data.parameters);
    var unsealed := Event(
      eventId, data.requestId, data.idempotencyKey, data.sequence, Stamp(now, Some(0)), data.agentId,
      data.sessionId, data.userId, data.tool, data.operation, Sanitize(data.parameters), data.decision,
      data.reasonCode, data.manifestId, data.policyChecksum, data.status, data.upstreamStatus,
      data.decisionMs, data.totalMs, data.traceId, LastHash(table), "pending");
    unsealed.(recordHash := EventHash(h, unsealed))
  }

  /** Every column of the row, against what was to be recorded. */
  predicate Carries(row: Event, data: EventInput) {
    && row.requestId == data.requestId && row.idempotencyKey == data.idempotencyKey && row.sequence == data.sequence
    && row.agentId == data.agentId && row.sessionId == data.sessionId && row.userId == data.userId
    && row.tool == data.tool && row.operation == data.operation && row.parameters == Sanitize(data.parameters)
    && row.decision == data.decision && row.reasonCode == data.reasonCode && row.status == data.status
    && row.manifestId == data.manifestId && row.policyChecksum == data.policyChecksum
    && row.upstreamStatus == data.upstreamStatus && row.decisionMs == data.decisionMs && row.totalMs == data.totalMs
    && row.traceId == data.traceId
  }

  lemma NewRowCarries(h: Hash, table: seq<Event>, data: EventInput, now: Instant, eventId: string)
    requires Representable(now)
    ensures var row := NewRow(h, table, data, now, eventId);
      Carries(row, data) && row.timestamp == Stamp(now, Some(0)) && row.previousHash == LastHash(table)
  {
    hide EventHash;
    hide LastHash;
    hide Sanitize;
  }

  /** Two requests that differ in their parameters alone leave the same row, hash included,
      exactly when redaction cannot tell the parameters apart. */
  lemma RedactedRequestsRecordAlike(h: Hash, table: seq<Event>, a: EventInput, b: EventInput, now: Instant,
                                    eventId: string)
    requires Representable(now) && a.(parameters := b.parameters) == b
    requires WellFormed(Obj(a.parameters)) && WellFormed(Obj(b.parameters))
    ensures NewRow(h, table, a, now, eventId) == NewRow(h, table, b, now, eventId)
            <==> Indistinguishable(a.parameters, b.parameters)
  {
    hide Sanitize;
    hide EventHash;
    hide Indistinguishable;
    RedactionIsExact(a.parameters, b.parameters);
  }

  // ---------------------------------------------------------------- verification

  /** Row `i` links to the row before it and carries the hash of its own contents. */
  predicate LinkOk(h: Hash, rows: seq<Event>, i: nat)
    requires i < |rows| && AllStorable(rows)
  {
    && rows[i].previousHash == (if i == 0 then None else Some(rows[i - 1].recordHash))
    && rows[i].recordHash == EventHash(h, rows[i])
  }

  predicate ValidChain(h: Hash, rows: seq<Event>)
    requires AllStorable(rows)
  {
    forall i :: 0 <= i < |rows| ==> LinkOk(h, rows, i)
  }

  lemma ChainOrderStorable(table: seq<Event>)
    requires AllStorable(table)
    ensures AllStorable(ChainOrder(table)) && |ChainOrder(table)| == |table|
  {
    SortMembers(table, EventKey);
    var rows := ChainOrder(table);
    forall i | 0 <= i < |rows| ensures Storable(rows[i]) {
      assert rows[i] in table;
    }
  }

  /** The table passes `verify_integrity`. */
  predicate Verifies(h: Hash, table: seq<Event>)
    requires AllStorable(table)
  {
    ChainOrderStorable(table);
    ValidChain(h, ChainOrder(table))
  }

  datatype IntegrityResult = IntegrityResult(valid: bool, eventsChecked: nat, firstInvalid: Option<string>)

  // ---------------------------------------------------------------- queries

  datatype Filters = Filters(
    agentId: Option<string>, sessionId: Option<string>, tool: Option<string>,
    operation: Option<string>, decision: Option<Decision>, reasonCode: Option<string>)

  predicate Matches(f: Filters, e: Event) {
    && (f.agentId.Some? ==> e.agentId == f.agentId.value)
    && (f.sessionId.Some? ==> e.sessionId == f.sessionId)
    && (f.tool.Some? ==> e.tool == f.tool.value)
    && (f.operation.Some? ==> e.operation == f.operation.value)
    && (f.decision.Some? ==> e.decision == f.decision.value)
    && (f.reasonCode.Some? ==> e.reasonCode == f.reasonCode.value)
  }

  function Reverse(rows: seq<Event>): (r: seq<Event>)
    ensures |r| == |rows|
    ensures forall i :: 0 <= i < |rows| ==> r[i] == rows[|rows| - 1 - i]
  {
    seq(|rows|, i requires 0 <= i < |rows| => rows[|rows| - 1 - i])
  }

  function Select(f: Filters, rows: seq<Event>): seq<Event> {
    if rows == [] then []
    else if Matches(f, rows[0]) then [rows[0]] + Select(f, rows[1..])
    else Select(f, rows[1..])
  }

  /** Every row the filters admit, newest first. */
  function Matching(table: seq<Event>, f: Filters): seq<Event> {
    Select(f, Reverse(ChainOrder(table)))
  }

  function Window<T>(s: seq<T>, offset: nat, limit: nat): seq<T> {
    if offset >= |s| then []
    else if offset + limit >= |s| then s[offset..]
    else s[offset..offset + limit]
  }

  /** `list_events` */
  function ListEvents(table: seq<Event>, f: Filters, limit: nat, offset: nat): seq<Event> {
    Window(Matching(table, f), offset, limit)
  }

  // ---------------------------------------------------------------- the service

  class AuditService {
    const h: Hash
    var table: seq<Event>

    constructor (h: Hash)
      ensures this.h == h && table == []
    {
      this.h := h;
      table := [];
    }

    /** True exactly when some row already carries this agent's key. */
    method HasIdempotencyKey(agentId: string, key: string) returns (found: bool)
      ensures found <==> exists e :: e in table && e.agentId == agentId && e.idempotencyKey == key
    {
      found := false;
      var i := 0;
      while i < |table|
        invariant 0 <= i <= |table|
        invariant found <==> exists e :: e in table[..i] && e.agentId == agentId && e.idempotencyKey == key
      {
        assert table[..i + 1] == table[..i] + [table[i]];
        if table[i].agentId == agentId && table[i].idempotencyKey == key {
          assert table[i] in table[..i + 1];
          found := true;
        }
        i := i + 1;
      }
      assert table[..i] == table;
    }

    /** Appends the linked row in one transaction, or leaves the table as it was. */
    method Record(data: EventInput, now: Instant, eventId: string) returns (r: Option<Event>)
      requires Representable(now)
      modifies this`table
      ensures var row := NewRow(h, old(table), data, now, eventId);
        if Insertable(old(table), row)
        then r == Some(row) && table == old(table) + [row]
        else r == None && table == old(table)
      ensures r.None? <==> Taken(old(table), eventId, data.requestId, data.sequence)
      ensures r.Some? ==>
        && Carries(r.value, data) && r.value.eventId == eventId && r.value.timestamp == Stamp(now, Some(0))
        && r.value.previousHash == LastHash(old(table))
    {
      NewRowCarries(h, table, data, now, eventId);
      var row := NewRow(h, table, data, now, eventId);
      if Insertable(table, row) {
        table := table + [row];
        r := Some(row);
      } else {
        r := None;
      }
    }

    /** Names the least position, in chain order, whose link or own hash is wrong; everything
        before it is a valid chain. */
    method VerifyIntegrity() returns (result: IntegrityResult)
      requires ValidTable(table)
      ensures result.valid <==> Verifies(h, table)
      ensures result.eventsChecked == |table|
      ensures result.valid ==> result.firstInvalid == None
      ensures !result.valid ==>
        exists k: nat :: FirstBroken(h, table, k) && result.firstInvalid == Some(ChainOrder(table)[k].eventId)
    {
      hide ChainOrder;
      hide EventHash;
      hide WellFormed;
      hide Representable;
      ChainOrderStorable(table);
      var events := ChainOrder(table);
      var previousHash := None;
      var i := 0;
      while i < |events|
        invariant 0 <= i <= |events|
        invariant previousHash == if i == 0 then None else Some(events[i - 1].recordHash)
        invariant forall j :: 0 <= j < i ==> LinkOk(h, events, j)
      {
        if events[i].previousHash != previousHash || events[i].recordHash != EventHash(h, events[i]) {
          assert !LinkOk(h, events, i);
          assert FirstBroken(h, table, i);
          assert !Verifies(h, table);
          return IntegrityResult(false, |events|, Some(events[i].eventId));
        }
        previousHash := Some(events[i].recordHash);
        i := i + 1;
      }
      assert ValidChain(h, events);
      assert Verifies(h, table);
      result := IntegrityResult(true, |events|, None);
    }
  }

  /** Position `k` in chain order fails, and the rows before it form a valid chain. */
  ghost predicate FirstBroken(h: Hash, table: seq<Event>, k: nat)
    requires ValidTable(table)
  {
    ChainOrderStorable(table);
    var rows := ChainOrder(table);
    && k < |rows|
    && !LinkOk(h, rows, k)
    && forall j :: 0 <= j < k ==> LinkOk(h, rows, j)
  }
}
