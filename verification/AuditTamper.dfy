/** What an auditor can conclude from a table that verifies, however it was edited. */
module AuditTamper {
  import opened Wrappers
  import opened Order
  import opened JsonParser
  import opened UtcTime
  import opened AuditEvents
  import opened AuditLog
  import opened AuditProofs

  // ---------------------------------------------------------------- one tip, one history

  /** The same row: same contents, same hash. */
  predicate SameRow(a: Event, b: Event) {
    SamePayload(a, b) && a.recordHash == b.recordHash
  }

  predicate SameRows(a: seq<Event>, b: seq<Event>) {
    |a| == |b| && forall i :: 0 <= i < |a| ==> SameRow(a[i], b[i])
  }

  /** Rows equally far from the end of two chains whose hashes collide. */
  predicate CollisionFromEnd(h: Hash, a: seq<Event>, b: seq<Event>)
    requires AllStorable(a) && AllStorable(b)
  {
    exists k :: 0 <= k < |a| && k < |b| && CollideAt(h, a, b, k)
  }

  predicate CollideAt(h: Hash, a: seq<Event>, b: seq<Event>, k: nat)
    requires AllStorable(a) && AllStorable(b) && k < |a| && k < |b|
  {
    Collide(h, a[|a| - 1 - k], b[|b| - 1 - k])
  }

  lemma SameHashSameRow(h: Hash, a: Event, b: Event)
    requires Storable(a) && Storable(b)
    requires a.recordHash == EventHash(h, a) && b.recordHash == EventHash(h, b) && a.recordHash == b.recordHash
    ensures SameRow(a, b) || Collide(h, a, b)
  {
    hide SealedText;
    SealedTextDeterminesRow(a, b);
  }

  lemma DropLast(h: Hash, rows: seq<Event>)
    requires AllStorable(rows) && ValidChain(h, rows) && rows != []
    ensures AllStorable(rows[..|rows| - 1]) && ValidChain(h, rows[..|rows| - 1])
  {
    hide EventHash;
    hide Storable;
    var front := rows[..|rows| - 1];
    forall i | 0 <= i < |front| ensures LinkOk(h, front, i) {
      assert LinkOk(h, rows, i);
    }
  }

  /** Two chains that verify and end in the same hash are equal row for row, or the pair of
      rows where they part company is a hash collision. */
  lemma {:induction false} SameTipSameHistory(h: Hash, a: seq<Event>, b: seq<Event>)
    requires AllStorable(a) && AllStorable(b) && ValidChain(h, a) && ValidChain(h, b)
    requires a != [] && b != [] && a[|a| - 1].recordHash == b[|b| - 1].recordHash
    ensures SameRows(a, b) || CollisionFromEnd(h, a, b)
  {
    hide EventHash;
    hide Storable;
    hide Collide;
    hide SamePayload;
    var x, y := a[|a| - 1], b[|b| - 1];
    assert LinkOk(h, a, |a| - 1) && LinkOk(h, b, |b| - 1);
    SameHashSameRow(h, x, y);
    if Collide(h, x, y) {
      assert CollideAt(h, a, b, 0);
    } else {
      SamePayloadSameLink(x, y);
      var fa, fb := a[..|a| - 1], b[..|b| - 1];
      if fa != [] && fb != [] {
        DropLast(h, a);
        DropLast(h, b);
        SameTipSameHistory(h, fa, fb);
        if CollisionFromEnd(h, fa, fb) {
          var k :| 0 <= k < |fa| && k < |fb| && CollideAt(h, fa, fb, k);
          assert CollideAt(h, a, b, k + 1);
        } else {
          forall i | 0 <= i < |a| ensures SameRow(a[i], b[i]) {
            assert i < |fa| ==> SameRow(fa[i], fb[i]);
          }
        }
      }
    }
  }

  lemma SamePayloadSameLink(x: Event, y: Event)
    requires SameRow(x, y)
    ensures x.previousHash == y.previousHash
  {
  }

  /** The same for tables: equal tips mean equal read-backs. */
  lemma SameTipSameTable(h: Hash, s: seq<Event>, t: seq<Event>)
    requires ValidTable(s) && ValidTable(t) && Verifies(h, s) && Verifies(h, t)
    requires s != [] && t != [] && LastHash(s) == LastHash(t)
    ensures AllStorable(ChainOrder(s)) && AllStorable(ChainOrder(t))
    ensures SameRows(ChainOrder(s), ChainOrder(t)) || CollisionFromEnd(h, ChainOrder(s), ChainOrder(t))
  {
    hide ValidChain;
    hide Storable;
    ValidTableKeys(s);
    ValidTableKeys(t);
    SameTipSameHistory(h, ChainOrder(s), ChainOrder(t));
  }

  // ---------------------------------------------------------------- deletions

  lemma PrefixVerifies(h: Hash, rows: seq<Event>, kept: seq<Event>)
    requires AllStorable(rows) && ValidChain(h, rows) && kept <= rows
    ensures AllStorable(kept) && ValidChain(h, kept)
  {
    hide EventHash;
    hide Storable;
    forall i | 0 <= i < |kept| ensures Storable(kept[i]) {
      assert kept[i] == rows[i];
    }
    forall i | 0 <= i < |kept| ensures LinkOk(h, kept, i) {
      assert LinkOk(h, rows, i);
    }
  }

  /** In a valid chain, a kept row that still verifies stands where it always stood. */
  lemma {:induction false} KeptRowStays(h: Hash, rows: seq<Event>, kept: seq<Event>, k: nat)
    requires AllStorable(rows) && AllStorable(kept) && ValidChain(h, rows) && ValidChain(h, kept)
    requires UniqueIds(rows) && CollisionFree(h, rows)
    requires forall e :: e in kept ==> e in rows
    requires k < |kept|
    ensures k < |rows| && kept[k] == rows[k]
  {
    hide EventHash;
    hide Storable;
    hide Collide;
    assert kept[k] in rows;
    var j :| 0 <= j < |rows| && rows[j] == kept[k];
    assert LinkOk(h, kept, k) && LinkOk(h, rows, j);
    if k > 0 {
      KeptRowStays(h, rows, kept, k - 1);
      assert LinkOk(h, rows, j - 1) && LinkOk(h, rows, k - 1);
      assert rows[j - 1].recordHash == rows[k - 1].recordHash;
      if j != k {
        assert rows[j - 1].eventId != rows[k - 1].eventId;
        SharedHashCollides(h, rows[j - 1], rows[k - 1]);
      }
    }
  }

  /** Deleting rows from a table that verifies leaves one that verifies exactly when what is
      left is a prefix in chain order: nothing but the newest rows can go unnoticed. */
  lemma SubsetVerifiesIffPrefix(h: Hash, table: seq<Event>, kept: seq<Event>)
    requires ValidTable(table) && ValidTable(kept) && Verifies(h, table)
    requires CollisionFree(h, table)
    requires forall e :: e in kept ==> e in table
    ensures Verifies(h, kept) <==> ChainOrder(kept) <= ChainOrder(table)
  {
    hide Storable;
    hide Collide;
    hide LinkOk;
    hide ChainOrder;
    ValidTableKeys(table);
    ValidTableKeys(kept);
    var rows, left := ChainOrder(table), ChainOrder(kept);
    if left <= rows {
      PrefixVerifies(h, rows, left);
    }
    if Verifies(h, kept) {
      ChainIdsUnique(table);
      CollisionFreeSorted(h, table);
      forall k | 0 <= k < |left| ensures k < |rows| && left[k] == rows[k] {
        KeptRowStays(h, rows, left, k);
      }
      if |left| > 0 {
        KeptRowStays(h, rows, left, |left| - 1);
      }
    }
  }

  /** Whatever table verifies, the rows left after its newest are deleted verify too. */
  lemma NewestRowsCanVanish(h: Hash, table: seq<Event>, n: nat)
    requires ValidTable(table) && Verifies(h, table) && n <= |table|
    ensures |ChainOrder(table)| == |table|
    ensures var kept := ChainOrder(table)[..n]; ValidTable(kept) && Verifies(h, kept)
  {
    hide Storable;
    hide LinkOk;
    hide ChainOrder;
    ValidTableKeys(table);
    ChainIdsUnique(table);
    var kept := ChainOrder(table)[..n];
    PrefixVerifies(h, ChainOrder(table), kept);
    assert Ascending(kept, EventKey);
    SortOfAscending(kept, EventKey);
    ChainOrderIsSort(kept);
  }

  lemma ChainOrderIsSort(table: seq<Event>)
    ensures ChainOrder(table) == SortBy(table, EventKey)
  {
  }

  lemma ChainIdsUnique(table: seq<Event>)
    requires ValidTable(table)
    ensures UniqueIds(ChainOrder(table))
  {
    hide Storable;
    ValidTableKeys(table);
    var rows := ChainOrder(table);
    forall i, j | 0 <= i < j < |rows| ensures rows[i].eventId != rows[j].eventId {
      assert LexLess(EventKey(rows[i]), EventKey(rows[j]));
      assert rows[i] in table && rows[j] in table;
      var a :| 0 <= a < |table| && table[a] == rows[i];
      var b :| 0 <= b < |table| && table[b] == rows[j];
      assert a < b || b < a;
    }
  }

  lemma CollisionFreeSorted(h: Hash, table: seq<Event>)
    requires ValidTable(table) && CollisionFree(h, table)
    ensures AllStorable(ChainOrder(table)) && CollisionFree(h, ChainOrder(table))
  {
    hide Collide;
    hide Storable;
    ValidTableKeys(table);
    var rows := ChainOrder(table);
    forall i, j | 0 <= i < |rows| && 0 <= j < |rows| ensures !Collide(h, rows[i], rows[j]) {
      assert rows[i] in table && rows[j] in table;
      var a :| 0 <= a < |table| && table[a] == rows[i];
      var b :| 0 <= b < |table| && table[b] == rows[j];
    }
  }

  // ---------------------------------------------------------------- reading back

  /** The same row as another driver or session time zone returns it. */
  predicate Reread(a: Event, b: Event) {
    AsUtc(a.timestamp) == AsUtc(b.timestamp) && a.(timestamp := b.timestamp) == b
  }

  predicate RereadAll(s: seq<Event>, t: seq<Event>) {
    |s| == |t| && forall i :: 0 <= i < |s| ==> Reread(s[i], t[i])
  }

  lemma RereadKeepsHash(h: Hash, a: Event, b: Event)
    requires Storable(a) && Reread(a, b)
    ensures Storable(b) && EventHash(h, a) == EventHash(h, b) && EventKey(a) == EventKey(b)
  {
    hide SealedText;
    SameReflexive(a.parameters);
    SealedTextDeterminesRow(a, b);
  }

  lemma {:induction false} RereadInsert(x: Event, y: Event, s: seq<Event>, t: seq<Event>)
    requires Reread(x, y) && RereadAll(s, t)
    ensures RereadAll(Insert(x, s, EventKey), Insert(y, t, EventKey))
  {
    if s != [] {
      assert Reread(s[0], t[0]);
      if !LexLe(EventKey(x), EventKey(s[0])) {
        RereadInsert(x, y, s[1..], t[1..]);
      }
    }
  }

  lemma {:induction false} RereadSort(s: seq<Event>, t: seq<Event>)
    requires RereadAll(s, t)
    ensures RereadAll(ChainOrder(s), ChainOrder(t))
  {
    if s != [] {
      RereadSort(s[1..], t[1..]);
      RereadInsert(s[0], t[0], ChainOrder(s[1..]), ChainOrder(t[1..]));
    }
  }

  /** Whether a table verifies does not depend on the offsets its times are read back with. */
  lemma RereadKeepsVerdict(h: Hash, s: seq<Event>, t: seq<Event>)
    requires AllStorable(s) && RereadAll(s, t)
    ensures AllStorable(t) && (Verifies(h, s) <==> Verifies(h, t))
  {
    hide EventHash;
    hide Storable;
    hide ChainOrder;
    forall i | 0 <= i < |t| ensures Storable(t[i]) {
      RereadKeepsHash(h, s[i], t[i]);
    }
    RereadSort(s, t);
    ChainOrderStorable(s);
    ChainOrderStorable(t);
    var a, b := ChainOrder(s), ChainOrder(t);
    forall i | 0 <= i < |a| ensures LinkOk(h, a, i) <==> LinkOk(h, b, i) {
      RereadKeepsHash(h, a[i], b[i]);
      assert i > 0 ==> Reread(a[i - 1], b[i - 1]);
    }
  }

  // ---------------------------------------------------------------- pages

  function Pages(table: seq<Event>, f: Filters, limit: nat, offset: nat): seq<Event>
    requires limit > 0
    decreases if offset < |Matching(table, f)| then |Matching(table, f)| - offset else 0
  {
    var page := ListEvents(table, f, limit, offset);
    if page == [] then [] else page + Pages(table, f, limit, offset + limit)
  }

  lemma {:induction false} PagesFrom(table: seq<Event>, f: Filters, limit: nat, offset: nat)
    requires limit > 0
    ensures Pages(table, f, limit, offset) == Window(Matching(table, f), offset, |Matching(table, f)|)
    decreases if offset < |Matching(table, f)| then |Matching(table, f)| - offset else 0
  {
    hide Matching;
    var all := Matching(table, f);
    if offset < |all| {
      PagesFrom(table, f, limit, offset + limit);
      if offset + limit < |all| {
        assert all[offset..] == all[offset..offset + limit] + all[offset + limit..];
      }
    }
  }

  /** One page: the matching events from the offset on, as many as the limit allows. */
  lemma PageExact(table: seq<Event>, f: Filters, limit: nat, offset: nat)
    ensures var all, page := Matching(table, f), ListEvents(table, f, limit, offset);
      && |page| <= limit
      && (|page| < limit ==> offset + |page| >= |all|)
      && forall i :: 0 <= i < |page| ==> offset + i < |all| && page[i] == all[offset + i]
  {
    hide Matching;
  }

  predicate Descending(rows: seq<Event>) {
    forall i, j :: 0 <= i < j < |rows| ==> LexLess(EventKey(rows[j]), EventKey(rows[i]))
  }

  lemma {:induction false} SelectDescending(f: Filters, rows: seq<Event>)
    requires Descending(rows)
    ensures Descending(Select(f, rows))
    ensures forall e :: e in Select(f, rows) <==> e in rows && Matches(f, e)
  {
    if rows != [] {
      var rest := rows[1..];
      forall i, j | 0 <= i < j < |rest| ensures LexLess(EventKey(rest[j]), EventKey(rest[i])) {
        assert LexLess(EventKey(rows[j + 1]), EventKey(rows[i + 1]));
      }
      SelectDescending(f, rest);
      assert rows == [rows[0]] + rest;
      var kept := Select(f, rows);
      forall i, j | 0 <= i < j < |kept| ensures LexLess(EventKey(kept[j]), EventKey(kept[i])) {
        if Matches(f, rows[0]) {
          assert kept[j] == Select(f, rest)[j - 1];
          if i == 0 {
            assert Select(f, rest)[j - 1] in rest;
            var m :| 0 <= m < |rest| && rest[m] == kept[j];
            assert LexLess(EventKey(rows[m + 1]), EventKey(rows[0]));
          }
        }
      }
    }
  }

  lemma {:induction false} SelectAll(rows: seq<Event>, f: Filters)
    requires forall e :: Matches(f, e)
    ensures Select(f, rows) == rows
  {
    if rows != [] {
      SelectAll(rows[1..], f);
    }
  }

  /** Walking the pages of a fixed table, whatever the page size, gives every matching event
      exactly once, newest first; without filters it is the chain backwards. */
  lemma PagesCoverTable(table: seq<Event>, f: Filters, limit: nat)
    requires ValidTable(table) && limit > 0
    ensures var all := Pages(table, f, limit, 0);
      && Descending(all)
      && (forall e :: e in all <==>
            && e in table
            && (f.agentId == None || f.agentId == Some(e.agentId))
            && (f.sessionId == None || f.sessionId == e.sessionId)
            && (f.tool == None || f.tool == Some(e.tool))
            && (f.operation == None || f.operation == Some(e.operation))
            && (f.decision == None || f.decision == Some(e.decision))
            && (f.reasonCode == None || f.reasonCode == Some(e.reasonCode)))
      && (f == Filters(None, None, None, None, None, None) ==> all == Reverse(ChainOrder(table)))
  {
    hide Storable;
    hide LexLe;
    ValidTableKeys(table);
    var rows := Reverse(ChainOrder(table));
    forall i, j | 0 <= i < j < |rows| ensures LexLess(EventKey(rows[j]), EventKey(rows[i])) {
      assert LexLess(EventKey(ChainOrder(table)[|rows| - 1 - j]), EventKey(ChainOrder(table)[|rows| - 1 - i]));
    }
    SelectDescending(f, rows);
    PagesFrom(table, f, limit, 0);
    assert Pages(table, f, limit, 0) == Matching(table, f);
    forall e ensures e in rows <==> e in table {
      if e in ChainOrder(table) {
        var i :| 0 <= i < |rows| && ChainOrder(table)[i] == e;
        assert rows[|rows| - 1 - i] == e;
      }
    }
    if f == Filters(None, None, None, None, None, None) {
      SelectAll(rows, f);
    }
  }
}
