/** What the hash links guarantee, over every table and every run of the writer. */
module AuditProofs {
  import opened Wrappers
  import opened Order
  import opened JsonParser
  import opened UtcTime
  import opened AuditEvents
  import opened AuditLog

  /** Two rows whose sealed texts differ and hash alike: what collision resistance rules out. */
  predicate Collide(h: Hash, a: Event, b: Event)
    requires Storable(a) && Storable(b)
  {
    SealedText(a) != SealedText(b) && h(SealedText(a)) == h(SealedText(b))
  }

  predicate NoCollisionWith(h: Hash, rows: seq<Event>, row: Event)
    requires AllStorable(rows) && Storable(row)
  {
    forall i :: 0 <= i < |rows| ==> !Collide(h, rows[i], row)
  }

  predicate CollisionFree(h: Hash, rows: seq<Event>)
    requires AllStorable(rows)
  {
    forall i, j :: 0 <= i < |rows| && 0 <= j < |rows| ==> !Collide(h, rows[i], rows[j])
  }

  lemma EventKeyInjective(a: Event, b: Event)
    requires EventKey(a) == EventKey(b)
    ensures a.eventId == b.eventId
  {
    assert EventKey(a)[1..] == CodePoints(a.eventId) && EventKey(b)[1..] == CodePoints(b.eventId);
    CodePointsInjective(a.eventId, b.eventId);
  }

  lemma ValidTableKeys(table: seq<Event>)
    requires ValidTable(table)
    ensures DistinctKeys(table, EventKey)
    ensures Ascending(ChainOrder(table), EventKey)
    ensures |ChainOrder(table)| == |table|
    ensures forall e :: e in ChainOrder(table) <==> e in table
    ensures AllStorable(ChainOrder(table))
  {
    forall i, j | 0 <= i < j < |table| ensures EventKey(table[i]) != EventKey(table[j]) {
      if EventKey(table[i]) == EventKey(table[j]) {
        EventKeyInjective(table[i], table[j]);
      }
    }
    SortAscending(table, EventKey);
    SortMembers(table, EventKey);
    ChainOrderStorable(table);
  }

  // ---------------------------------------------------------------- where a new row lands

  function Place(row: Event, rows: seq<Event>): (p: nat)
    ensures p <= |rows|
  {
    if rows == [] || LexLe(EventKey(row), EventKey(rows[0])) then 0 else 1 + Place(row, rows[1..])
  }

  lemma {:induction false} InsertAtPlace(row: Event, rows: seq<Event>)
    ensures Insert(row, rows, EventKey) == rows[..Place(row, rows)] + [row] + rows[Place(row, rows)..]
  {
    if rows != [] && !LexLe(EventKey(row), EventKey(rows[0])) {
      InsertAtPlace(row, rows[1..]);
      var p := Place(row, rows[1..]);
      assert rows[..p + 1] == [rows[0]] + rows[1..][..p];
      assert rows[p + 1..] == rows[1..][p..];
    }
  }

  /** The new row goes last exactly when its key exceeds every stored key. */
  lemma {:induction false} PlaceIsLast(row: Event, rows: seq<Event>)
    requires Ascending(rows, EventKey)
    requires forall e :: e in rows ==> EventKey(e) != EventKey(row)
    ensures Place(row, rows) == |rows| <==> forall e :: e in rows ==> LexLess(EventKey(e), EventKey(row))
  {
    if rows != [] {
      LexTotal(EventKey(row), EventKey(rows[0]));
      if LexLe(EventKey(row), EventKey(rows[0])) {
        if LexLess(EventKey(rows[0]), EventKey(row)) {
          LexAntisymmetric(EventKey(row), EventKey(rows[0]));
        }
        assert rows[0] in rows;
      } else {
        AscendingTail(rows, EventKey);
        PlaceIsLast(row, rows[1..]);
        assert rows == [rows[0]] + rows[1..];
      }
    }
  }

  predicate KeyExceedsAll(table: seq<Event>, row: Event) {
    forall e :: e in table ==> LexLess(EventKey(e), EventKey(row))
  }

  lemma ChainOrderWithRow(table: seq<Event>, row: Event)
    requires ValidTable(table) && Storable(row) && Insertable(table, row)
    ensures ValidTable(table + [row])
    ensures ChainOrder(table + [row]) == Insert(row, ChainOrder(table), EventKey)
    ensures Place(row, ChainOrder(table)) == |table| <==> KeyExceedsAll(table, row)
  {
    var rows, next := ChainOrder(table), table + [row];
    ValidTableKeys(table);
    ValidTableKeys(next);
    forall e | e in rows ensures EventKey(e) != EventKey(row) {
      assert e in table;
      if EventKey(e) == EventKey(row) {
        EventKeyInjective(e, row);
      }
    }
    InsertAscending(row, rows, EventKey);
    InsertMultiset(row, rows, EventKey);
    var inserted := Insert(row, rows, EventKey);
    forall e ensures e in inserted <==> e in ChainOrder(next) {
      assert e in inserted <==> e in multiset(inserted);
      assert e in multiset(inserted) <==> e == row || e in multiset(rows);
      assert e in ChainOrder(next) <==> e in next;
    }
    AscendingUnique(inserted, ChainOrder(next), EventKey);
    PlaceIsLast(row, rows);
  }

  // ---------------------------------------------------------------- chain soundness

  /** A row linked to the last stored row extends a valid chain when it sorts last. */
  lemma AppendKeepsChain(h: Hash, rows: seq<Event>, row: Event)
    requires AllStorable(rows) && Storable(row) && ValidChain(h, rows)
    requires row.previousHash == (if rows == [] then None else Some(rows[|rows| - 1].recordHash))
    requires row.recordHash == EventHash(h, row)
    ensures AllStorable(rows + [row]) && ValidChain(h, rows + [row])
  {
    hide EventHash;
    hide Storable;
    var next := rows + [row];
    forall i | 0 <= i < |next| ensures LinkOk(h, next, i) {
      if i < |rows| {
        assert LinkOk(h, rows, i);
      }
    }
  }

  /** Two different rows carrying the same, genuine hash are a collision. */
  lemma SharedHashCollides(h: Hash, a: Event, b: Event)
    requires Storable(a) && Storable(b) && a.eventId != b.eventId
    requires a.recordHash == EventHash(h, a) && b.recordHash == EventHash(h, b)
    requires a.recordHash == b.recordHash
    ensures Collide(h, a, b)
  {
    hide SealedText;
    SealedTextDeterminesRow(a, b);
  }

  /** In the middle it breaks the chain, unless two different rows share a hash. */
  lemma MiddleBreaksChain(h: Hash, rows: seq<Event>, row: Event, p: nat)
    requires AllStorable(rows) && Storable(row) && ValidChain(h, rows) && p < |rows|
    requires row.previousHash == Some(rows[|rows| - 1].recordHash) && row.recordHash == EventHash(h, row)
    requires forall e :: e in rows ==> e.eventId != row.eventId
    requires NoCollisionWith(h, rows, row)
    ensures AllStorable(rows[..p] + [row] + rows[p..])
    ensures !ValidChain(h, rows[..p] + [row] + rows[p..])
  {
    hide EventHash;
    hide Storable;
    hide Collide;
    var next := rows[..p] + [row] + rows[p..];
    assert next[p] == row && next[p + 1] == rows[p];
    forall i | 0 <= i < |next| ensures Storable(next[i]) {
      assert i < p ==> next[i] == rows[i];
      assert i > p ==> next[i] == rows[i - 1];
    }
    if ValidChain(h, next) {
      assert LinkOk(h, next, p) && LinkOk(h, next, p + 1) && LinkOk(h, rows, p);
      assert p > 0;
      assert rows[p - 1].recordHash == row.recordHash;
      assert LinkOk(h, rows, p - 1);
      assert rows[p - 1] in rows;
      SharedHashCollides(h, rows[p - 1], row);
    }
  }

  /** Recording onto a table that verifies gives a table that verifies exactly when the new
      row's key exceeds every stored key. */
  lemma RecordKeepsIntegrityIff(h: Hash, table: seq<Event>, data: EventInput, now: Instant, eventId: string)
    requires ValidTable(table) && Representable(now) && Verifies(h, table)
    requires Insertable(table, NewRow(h, table, data, now, eventId))
    requires NoCollisionWith(h, table, NewRow(h, table, data, now, eventId))
    ensures ValidTable(table + [NewRow(h, table, data, now, eventId)])
    ensures Verifies(h, table + [NewRow(h, table, data, now, eventId)])
            <==> KeyExceedsAll(table, NewRow(h, table, data, now, eventId))
  {
    hide NewRow;
    hide EventHash;
    hide Storable;
    hide Collide;
    hide ChainOrder;
    hide Insert;
    hide Place;
    var row, rows := NewRow(h, table, data, now, eventId), ChainOrder(table);
    NewRowLinked(h, table, data, now, eventId);
    ValidTableKeys(table);
    ChainOrderWithRow(table, row);
    InsertAtPlace(row, rows);
    var p := Place(row, rows);
    if p == |rows| {
      assert rows[..p] + [row] + rows[p..] == rows + [row];
      AppendKeepsChain(h, rows, row);
    } else {
      forall i | 0 <= i < |rows| ensures !Collide(h, rows[i], row) {
        assert rows[i] in table;
        var j :| 0 <= j < |table| && table[j] == rows[i];
      }
      MiddleBreaksChain(h, rows, row, p);
    }
  }

  /** The columns that identify a row and say what was decided. */
  lemma RowKeeps(h: Hash, table: seq<Event>, data: EventInput, now: Instant, eventId: string)
    requires Representable(now)
    ensures var row := NewRow(h, table, data, now, eventId);
      && row.requestId == data.requestId && row.sequence == data.sequence
      && row.agentId == data.agentId && row.idempotencyKey == data.idempotencyKey
      && row.decision == data.decision && row.reasonCode == data.reasonCode
      && row.status == data.status && row.upstreamStatus == data.upstreamStatus
  {
    hide NewRow;
    NewRowCarries(h, table, data, now, eventId);
  }

  lemma NewRowLinked(h: Hash, table: seq<Event>, data: EventInput, now: Instant, eventId: string)
    requires ValidTable(table) && Representable(now)
    ensures var row := NewRow(h, table, data, now, eventId);
      && row.previousHash == (if ChainOrder(table) == [] then None
                              else Some(ChainOrder(table)[|ChainOrder(table)| - 1].recordHash))
      && row.recordHash == EventHash(h, row)
  {
    ValidTableKeys(table);
    var row := NewRow(h, table, data, now, eventId);
    var unsealed := row.(recordHash := "pending");
    assert row.recordHash == EventHash(h, unsealed);
    SameReflexive(row.parameters);
    SealedTextDeterminesRow(row, unsealed);
  }

  // ---------------------------------------------------------------- whole runs

  /** `row` is sealed and linked to the row that sorted last when it was written. */
  predicate LinkedTo(h: Hash, table: seq<Event>, row: Event) {
    && Storable(row)
    && Insertable(table, row)
    && row.previousHash == LastHash(table)
    && row.recordHash == EventHash(h, row)
  }

  /** The table grew from empty by `record` alone, in the order its rows stand. */
  predicate Recorded(h: Hash, table: seq<Event>) {
    table == [] ||
    var n := |table| - 1;
    Recorded(h, table[..n]) && LinkedTo(h, table[..n], table[n])
  }

  lemma RecordLinks(h: Hash, table: seq<Event>, data: EventInput, now: Instant, eventId: string)
    requires Representable(now) && Recorded(h, table)
    requires Insertable(table, NewRow(h, table, data, now, eventId))
    ensures Recorded(h, table + [NewRow(h, table, data, now, eventId)])
  {
    RecordedValid(h, table);
    NewRowLinked(h, table, data, now, eventId);
    var row := NewRow(h, table, data, now, eventId);
    assert (table + [row])[..|table|] == table;
    assert row.previousHash == LastHash(table);
  }

  lemma {:induction false} RecordedValid(h: Hash, table: seq<Event>)
    requires Recorded(h, table)
    ensures ValidTable(table)
  {
    hide EventHash;
    hide Storable;
    hide LastHash;
    if table != [] {
      var n := |table| - 1;
      RecordedValid(h, table[..n]);
      forall i, j | 0 <= i < j < |table| ensures table[i].eventId != table[j].eventId {
        assert i < n ==> table[..n][i] == table[i];
        assert table[i] in table[..n];
        if j < n {
          assert table[..n][j] == table[j];
        }
      }
      forall i | 0 <= i < |table| ensures Storable(table[i]) {
        assert i < n ==> table[..n][i] == table[i];
      }
    }
  }

  /** No two rows of a recorded table are the same numbered event of one request. */
  lemma {:induction false} SequencesUnique(h: Hash, table: seq<Event>, i: nat, j: nat)
    requires Recorded(h, table) && i < j < |table|
    ensures !(table[i].requestId == table[j].requestId && table[i].sequence == table[j].sequence)
  {
    hide EventHash;
    hide Storable;
    hide LastHash;
    var n := |table| - 1;
    if j < n {
      SequencesUnique(h, table[..n], i, j);
    } else {
      assert table[..n][i] == table[i];
    }
  }

  /** The row whose hash row `i` names as its predecessor's was stored before it. */
  lemma {:induction false} PredecessorStored(h: Hash, table: seq<Event>, i: nat)
    requires Recorded(h, table) && i < |table| && table[i].previousHash.Some?
    ensures exists j :: 0 <= j < i && table[j].recordHash == table[i].previousHash.value
  {
    hide EventHash;
    hide Storable;
    hide LastChainEvent;
    hide LexLe;
    hide Insertable;
    var n := |table| - 1;
    var before := table[..n];
    if i < n {
      PredecessorStored(h, before, i);
      var j :| 0 <= j < i && before[j].recordHash == before[i].previousHash.value;
      assert table[j] == before[j];
    } else {
      var last := LastChainEvent(before).value;
      var j :| 0 <= j < n && before[j] == last;
      assert table[j] == last;
    }
  }

  lemma {:induction false} RecordedHashes(h: Hash, table: seq<Event>, row: Event)
    requires Recorded(h, table) && row in table
    ensures Storable(row) && row.recordHash == EventHash(h, row)
  {
    hide EventHash;
    hide Storable;
    hide LastHash;
    var n := |table| - 1;
    assert table == table[..n] + [table[n]];
    if row in table[..n] {
      RecordedHashes(h, table[..n], row);
    }
  }

  lemma AscendingPrefix(table: seq<Event>)
    requires table != [] && Ascending(table, EventKey)
    ensures Ascending(table[..|table| - 1], EventKey)
    ensures KeyExceedsAll(table[..|table| - 1], table[|table| - 1])
  {
  }

  lemma AscendingExtends(table: seq<Event>, row: Event)
    requires Ascending(table, EventKey) && KeyExceedsAll(table, row)
    ensures Ascending(table + [row], EventKey)
  {
  }

  lemma CollisionFreePair(h: Hash, rows: seq<Event>, a: Event, b: Event)
    requires AllStorable(rows) && CollisionFree(h, rows)
    requires a in rows && b in rows && Storable(a) && Storable(b)
    ensures !Collide(h, a, b)
  {
    hide Collide;
    hide Storable;
  }

  /** If a whole table verifies, the row written last sorts last: otherwise the row after it
      would link to a row that did not exist when it was written. */
  lemma LastWrittenSortsLast(h: Hash, before: seq<Event>, row: Event)
    requires Recorded(h, before) && LinkedTo(h, before, row)
    requires ValidTable(before + [row]) && CollisionFree(h, before + [row]) && Verifies(h, before + [row])
    ensures KeyExceedsAll(before, row)
  {
    hide EventHash;
    hide Storable;
    hide Collide;
    hide LastHash;
    hide Insert;
    hide Place;
    hide LexLe;
    hide ChainOrder;
    hide Recorded;
    hide CodePoints;
    RecordedValid(h, before);
    ValidTableKeys(before);
    var rows := ChainOrder(before);
    var p := Place(row, rows);
    ChainOrderWithRow(before, row);
    InsertAtPlace(row, rows);
    if p < |rows| {
      var next := rows[..p] + [row] + rows[p..];
      assert next == ChainOrder(before + [row]);
      assert next[p] == row && next[p + 1] == rows[p];
      assert LinkOk(h, next, p + 1);
      assert rows[p] in before;
      var i :| 0 <= i < |before| && before[i] == rows[p];
      PredecessorStored(h, before, i);
      var j :| 0 <= j < i && before[j].recordHash == row.recordHash;
      var e := before[j];
      RecordedHashes(h, before, e);
      assert e.eventId != row.eventId;
      assert row in [row];
      CollisionFreePair(h, before + [row], e, row);
      SharedHashCollides(h, e, row);
    }
  }

  lemma {:induction false} KeyOrderVerifies(h: Hash, table: seq<Event>)
    requires Recorded(h, table) && ValidTable(table) && Ascending(table, EventKey)
    ensures ChainOrder(table) == table && Verifies(h, table)
  {
    hide EventHash;
    hide Storable;
    hide LastHash;
    SortOfAscending(table, EventKey);
    if table != [] {
      var n := |table| - 1;
      var before, row := table[..n], table[n];
      assert table == before + [row];
      RecordedValid(h, before);
      AscendingPrefix(table);
      KeyOrderVerifies(h, before);
      LinkInKeyOrder(h, before, row);
      AppendKeepsChain(h, before, row);
    }
  }

  lemma LinkInKeyOrder(h: Hash, before: seq<Event>, row: Event)
    requires LinkedTo(h, before, row) && ChainOrder(before) == before
    ensures row.previousHash == if before == [] then None else Some(before[|before| - 1].recordHash)
  {
  }

  lemma {:induction false} VerifiesMeansKeyOrder(h: Hash, table: seq<Event>)
    requires Recorded(h, table) && ValidTable(table) && CollisionFree(h, table) && Verifies(h, table)
    ensures Ascending(table, EventKey)
  {
    hide EventHash;
    hide Storable;
    hide Collide;
    hide LinkedTo;
    hide ChainOrder;
    if table != [] {
      var n := |table| - 1;
      var before, row := table[..n], table[n];
      assert table == before + [row];
      RecordedValid(h, before);
      CollisionFreePrefix(h, table);
      LastWrittenSortsLast(h, before, row);
      ChainWithoutLast(h, before, row);
      VerifiesMeansKeyOrder(h, before);
      AscendingExtends(before, row);
    }
  }

  lemma ChainWithoutLast(h: Hash, before: seq<Event>, row: Event)
    requires ValidTable(before) && ValidTable(before + [row]) && Verifies(h, before + [row])
    requires LinkedTo(h, before, row) && KeyExceedsAll(before, row)
    ensures Verifies(h, before)
  {
    hide EventHash;
    hide Storable;
    hide LexLe;
    hide LastHash;
    hide Insert;
    var rows := ChainOrder(before);
    ValidTableKeys(before);
    ChainOrderWithRow(before, row);
    InsertAtPlace(row, rows);
    assert ChainOrder(before + [row]) == rows + [row];
    forall i | 0 <= i < |rows| ensures LinkOk(h, rows, i) {
      assert LinkOk(h, ChainOrder(before + [row]), i);
    }
  }

  /** Over every run of the writer: the table verifies exactly when its rows were written in
      key order, and then reading it back sorted gives the order of writing. */
  lemma RunVerifiesIffInKeyOrder(h: Hash, table: seq<Event>)
    requires Recorded(h, table) && ValidTable(table) && CollisionFree(h, table)
    ensures Verifies(h, table) <==> Ascending(table, EventKey)
    ensures Ascending(table, EventKey) ==> ChainOrder(table) == table
  {
    hide ChainOrder;
    hide Storable;
    hide Ascending;
    hide Verifies;
    if Ascending(table, EventKey) {
      KeyOrderVerifies(h, table);
    }
    if Verifies(h, table) {
      VerifiesMeansKeyOrder(h, table);
    }
  }

  lemma CollisionFreePrefix(h: Hash, table: seq<Event>)
    requires AllStorable(table) && CollisionFree(h, table) && table != []
    ensures AllStorable(table[..|table| - 1]) && CollisionFree(h, table[..|table| - 1])
  {
    hide Collide;
    hide Storable;
    var before := table[..|table| - 1];
    forall i | 0 <= i < |before| ensures Storable(before[i]) {
      assert before[i] == table[i];
    }
    forall i, j | 0 <= i < |before| && 0 <= j < |before| ensures !Collide(h, before[i], before[j]) {
      assert before[i] == table[i] && before[j] == table[j];
    }
  }

  // ---------------------------------------------------------------- the clock steps back

  /** What is recorded of a read that found no active manifest. */
  function PlainInput(requestId: string): EventInput {
    EventInput(requestId, "key-0001", 0, "agent", None, None, "crm", "read_customer", [], Block, "MANIFEST_NOT_FOUND",
               NotForwarded, None, None, None, Some(1), Some(2), None)
  }

  lemma EarlyInstants()
    ensures Representable(0) && Representable(1)
  {
    assert DateOf(0) == Date(1, 1, 1);
  }

  /** Two records of which the second is stamped a microsecond before the first: the first table
      verifies, the second does not, although nobody touched either and no two texts hash alike. */
  lemma ClockStepBackBreaksChain() returns (h: Hash, first: Event, second: Event)
    ensures Representable(0) && Representable(1)
    ensures first == NewRow(h, [], PlainInput("req_1"), 1, "evt_1")
    ensures second == NewRow(h, [first], PlainInput("req_2"), 0, "evt_2")
    ensures Recorded(h, [first]) && ValidTable([first]) && Verifies(h, [first])
    ensures Recorded(h, [first, second]) && ValidTable([first, second]) && CollisionFree(h, [first, second])
    ensures !Verifies(h, [first, second])
  {
    hide NewRow;
    hide Storable;
    hide EventHash;
    hide Collide;
    hide LastHash;
    EarlyInstants();
    h := text => text;
    first := NewRow(h, [], PlainInput("req_1"), 1, "evt_1");
    RecordLinks(h, [], PlainInput("req_1"), 1, "evt_1");
    assert [] + [first] == [first];
    second := NewRow(h, [first], PlainInput("req_2"), 0, "evt_2");
    assert "evt_1"[4] != "evt_2"[4] && "req_1"[4] != "req_2"[4];
    RowKeeps(h, [], PlainInput("req_1"), 1, "evt_1");
    RowKeeps(h, [first], PlainInput("req_2"), 0, "evt_2");
    RecordLinks(h, [first], PlainInput("req_2"), 0, "evt_2");
    assert [first] + [second] == [first, second];
    RecordedValid(h, [first]);
    RecordedValid(h, [first, second]);
    IdentityNeverCollides([first]);
    IdentityNeverCollides([first, second]);
    RunVerifiesIffInKeyOrder(h, [first]);
    RunVerifiesIffInKeyOrder(h, [first, second]);
    assert Ascending([first], EventKey);
    assert EventKey(first)[0] == 1 && EventKey(second)[0] == 0;
    assert !LexLess(EventKey([first, second][0]), EventKey([first, second][1]));
  }

  lemma IdentityNeverCollides(rows: seq<Event>)
    requires AllStorable(rows)
    ensures CollisionFree(text => text, rows)
  {
    hide SealedText;
  }
}
