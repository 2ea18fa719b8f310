/**
 * Manifest activation: the repository method, and any number of activations running at once
 * as database transactions. `SELECT ... FOR UPDATE` waits for the row and then reads its last
 * committed version; other reads see committed rows; a transaction's updates lock the rows
 * they touch and become visible when it commits. A deadlock victim is an abort.
 */
module Activation {
  import opened Wrappers
  import opened Json
  import opened UtcTime
  import opened Domain

  datatype ActivationError = ManifestNotFound | AgentNotFound | InvalidState(status: ManifestStatus)

  function Superseding(row: Manifest): Manifest {
    row.(status := Superseded)
  }

  function Promoted(row: Manifest, approvedBy: string, now: Instant): Manifest {
    row.(status := Active, approvedBy := Some(approvedBy), activatedAt := Some(now))
  }

  /** The table after the agent's active manifest, if any, is superseded. */
  ghost function WithoutActive(manifests: Manifests, agentId: string): Manifests {
    match GetActive(manifests, agentId)
    case None => manifests
    case Some(c) => manifests[c := Superseding(manifests[c])]
  }

  /** `activate` on its own: the table it leaves, or the error it raises. */
  ghost function ActivateAlone(manifests: Manifests, agents: Agents, id: string, approvedBy: string, now: Instant)
    : Result<Manifests, ActivationError>
  {
    if id !in manifests then Err(ManifestNotFound)
    else if manifests[id].agentId !in agents then Err(AgentNotFound)
    else if manifests[id].status.Active? then Ok(manifests)
    else if !manifests[id].status.Draft? then Err(InvalidState(manifests[id].status))
    else Ok(WithoutActive(manifests, manifests[id].agentId)[id := Promoted(manifests[id], approvedBy, now)])
  }

  lemma WithoutActiveHasNone(manifests: Manifests, agentId: string)
    requires OneActive(manifests)
    ensures OneActive(WithoutActive(manifests, agentId))
    ensures forall id :: !IsActive(WithoutActive(manifests, agentId), agentId, id)
  {
    var after := WithoutActive(manifests, agentId);
    var current := GetActive(manifests, agentId);
    forall id ensures !IsActive(after, agentId, id) {
      assert IsActive(manifests, agentId, id) ==> current == Some(id);
    }
  }

  lemma PromotionKeepsIndex(manifests: Manifests, agentId: string, id: string, row: Manifest)
    requires OneActive(manifests) && row.agentId == agentId && id in manifests && manifests[id].agentId == agentId
    requires forall m :: m != id ==> !IsActive(manifests, agentId, m)
    ensures OneActive(manifests[id := row])
  {
    forall m | m in manifests && m != id && manifests[m].status.Active? ensures manifests[m].agentId != agentId {
      assert !IsActive(manifests, agentId, m);
    }
  }

  /** The row as it was, but for who activated it when. */
  predicate ActivatedFrom(before: Manifest, after: Manifest, approvedBy: string, now: Instant) {
    && after.status.Active? && after.approvedBy == Some(approvedBy) && after.activatedAt == Some(now)
    && after.agentId == before.agentId && after.version == before.version
    && after.document == before.document && after.checksum == before.checksum
    && after.effectiveFrom == before.effectiveFrom && after.expiresAt == before.expiresAt
  }

  /** The row as it was, but superseded. */
  predicate SupersededFrom(before: Manifest, after: Manifest) {
    && after.status.Superseded? && after.approvedBy == before.approvedBy && after.activatedAt == before.activatedAt
    && after.agentId == before.agentId && after.version == before.version
    && after.document == before.document && after.checksum == before.checksum
    && after.effectiveFrom == before.effectiveFrom && after.expiresAt == before.expiresAt
  }

  /** When an activation on its own succeeds, and what it fails with otherwise. */
  lemma ActivationOutcome(manifests: Manifests, agents: Agents, id: string, approvedBy: string, now: Instant)
    ensures var r := ActivateAlone(manifests, agents, id, approvedBy, now);
      && (r.Ok? <==> && id in manifests && manifests[id].agentId in agents
                     && (manifests[id].status.Active? || manifests[id].status.Draft?))
      && (id !in manifests ==> r == Err(ManifestNotFound))
      && (id in manifests && manifests[id].agentId !in agents ==> r == Err(AgentNotFound))
      && (id in manifests && manifests[id].agentId in agents && manifests[id].status.Superseded? ==>
            r == Err(InvalidState(Superseded)))
      && (id in manifests && manifests[id].agentId in agents && manifests[id].status.Revoked? ==>
            r == Err(InvalidState(Revoked)))
  {
  }

  /** A successful activation leaves its target the agent's only active manifest, supersedes
      exactly the manifest that was active before, and touches no other row. */
  lemma ActivationEffect(manifests: Manifests, agents: Agents, id: string, approvedBy: string, now: Instant)
    requires OneActive(manifests) && ActivateAlone(manifests, agents, id, approvedBy, now).Ok?
    ensures var after := ActivateAlone(manifests, agents, id, approvedBy, now).value;
      && OneActive(after) && after.Keys == manifests.Keys
      && GetActive(after, manifests[id].agentId) == Some(id)
      && (forall m :: m in manifests && m != id ==>
            if IsActive(manifests, manifests[id].agentId, m) && manifests[id].status.Draft?
            then SupersededFrom(manifests[m], after[m]) else after[m] == manifests[m])
      && (manifests[id].status.Active? ==> after == manifests)
      && (manifests[id].status.Draft? ==> ActivatedFrom(manifests[id], after[id], approvedBy, now))
  {
    var agentId := manifests[id].agentId;
    var after := ActivateAlone(manifests, agents, id, approvedBy, now).value;
    WithoutActiveHasNone(manifests, agentId);
    if manifests[id].status.Draft? {
      PromotionKeepsIndex(WithoutActive(manifests, agentId), agentId, id, after[id]);
    }
    assert IsActive(after, agentId, id);
    forall m | m in manifests && m != id
      ensures if IsActive(manifests, agentId, m) && manifests[id].status.Draft?
              then SupersededFrom(manifests[m], after[m]) else after[m] == manifests[m]
    {
      if IsActive(manifests, agentId, m) {
        assert GetActive(manifests, agentId) == Some(m);
      }
    }
  }

  // ---------------------------------------------------------------- a row loaded before

  /** `activate` in a session that has loaded the manifest before, as the seed's has: the locking
      read returns the loaded object unrefreshed, so the branch is taken on `loaded`, and the
      flush writes the three columns that change. */
  ghost function ActivateLoaded(manifests: Manifests, agents: Agents, id: string, loaded: Manifest, approvedBy: string,
                                now: Instant): Result<Manifests, ActivationError>
  {
    if id !in manifests then Err(ManifestNotFound)
    else if loaded.agentId !in agents then Err(AgentNotFound)
    else if loaded.status.Active? then Ok(manifests)
    else if !loaded.status.Draft? then Err(InvalidState(loaded.status))
    else
      var others := if GetActive(manifests, loaded.agentId) == Some(id) then manifests
                    else WithoutActive(manifests, loaded.agentId);
      Ok(others[id := Promoted(manifests[id], approvedBy, now)])
  }

  lemma LoadedKeepsIndex(manifests: Manifests, agents: Agents, id: string, loaded: Manifest, approvedBy: string,
                         now: Instant)
    requires OneActive(manifests) && (id in manifests ==> loaded.agentId == manifests[id].agentId)
    ensures var r := ActivateLoaded(manifests, agents, id, loaded, approvedBy, now);
      r.Ok? ==> OneActive(r.value)
  {
    if id in manifests && loaded.status.Draft? {
      if GetActive(manifests, loaded.agentId) == Some(id) {
        forall m | m != id ensures !IsActive(manifests, loaded.agentId, m) { }
        PromotionKeepsIndex(manifests, loaded.agentId, id, Promoted(manifests[id], approvedBy, now));
      } else {
        WithoutActiveHasNone(manifests, loaded.agentId);
        PromotionKeepsIndex(WithoutActive(manifests, loaded.agentId), loaded.agentId, id,
                            Promoted(manifests[id], approvedBy, now));
      }
    }
  }

  /** It does what an activation on its own does exactly when the row's status has not changed
      since it was loaded, or the row was activated meanwhile by the same user at the same time. */
  lemma LoadedActivationIff(manifests: Manifests, agents: Agents, id: string, loaded: Manifest, approvedBy: string,
                            now: Instant)
    requires OneActive(manifests) && id in manifests
    requires loaded.agentId == manifests[id].agentId && loaded.agentId in agents
    ensures ActivateLoaded(manifests, agents, id, loaded, approvedBy, now)
            == ActivateAlone(manifests, agents, id, approvedBy, now)
            <==> || loaded.status == manifests[id].status
                 || (loaded.status.Draft? && manifests[id] == Promoted(manifests[id], approvedBy, now))
  {
    var row := manifests[id];
    if row.status.Active? { assert IsActive(manifests, row.agentId, id); }
    if loaded.status.Draft? && row.status.Active? {
      assert GetActive(manifests, loaded.agentId) == Some(id);
      var after := manifests[id := Promoted(row, approvedBy, now)];
      assert after == manifests <==> after[id] == row;
    } else if loaded.status.Active? && row.status.Draft? {
      assert Promoted(row, approvedBy, now) != row;
      var after := WithoutActive(manifests, row.agentId)[id := Promoted(row, approvedBy, now)];
      assert after[id] != manifests[id];
    }
  }

  /** A manifest superseded after it was loaded as a draft comes back, and pushes out the one
      that superseded it. */
  lemma SupersededComesBack(document: Json, from: Stamp, now: Instant)
    returns (manifests: Manifests, agents: Agents, loaded: Manifest)
    ensures agents == map["a" := Agent("subject", AgentActive)]
    ensures loaded == Manifest("a", 1, Draft, document, "checksum", from, None, None, None)
    ensures manifests == map["m1" := Superseding(Promoted(loaded, "admin", now)),
                             "m2" := Promoted(loaded.(version := 2), "admin", now)]
    ensures OneActive(manifests) && ActivateAlone(manifests, agents, "m1", "seed", now) == Err(InvalidState(Superseded))
    ensures var r := ActivateLoaded(manifests, agents, "m1", loaded, "seed", now);
      r.Ok? && "m1" in r.value && r.value["m1"].status.Active? && "m2" in r.value && r.value["m2"].status.Superseded?
  {
    agents := map["a" := Agent("subject", AgentActive)];
    loaded := Manifest("a", 1, Draft, document, "checksum", from, None, None, None);
    assert "m1"[1] != "m2"[1];
    manifests := map["m1" := Superseding(Promoted(loaded, "admin", now)),
                     "m2" := Promoted(loaded.(version := 2), "admin", now)];
    assert IsActive(manifests, "a", "m2");
    assert GetActive(manifests, "a") == Some("m2");
  }

  // ---------------------------------------------------------------- the repository

  class ManifestRepository {
    var manifests: Manifests
    var agents: Agents

    constructor (manifests: Manifests, agents: Agents)
      ensures this.manifests == manifests && this.agents == agents
    {
      this.manifests, this.agents := manifests, agents;
    }

    method FindActive(agentId: string) returns (r: Option<string>)
      requires OneActive(manifests)
      ensures r == GetActive(manifests, agentId)
    {
      var ids := manifests.Keys;
      r := None;
      while ids != {}
        invariant ids <= manifests.Keys
        invariant r.None? ==> forall id :: IsActive(manifests, agentId, id) ==> id in ids
        invariant r.Some? ==> IsActive(manifests, agentId, r.value)
        decreases ids
      {
        var id :| id in ids;
        if manifests[id].agentId == agentId && manifests[id].status.Active? {
          r := Some(id);
        }
        ids := ids - {id};
      }
    }

    /** Both flushes respect the unique index, and an error changes nothing. */
    method Activate(id: string, approvedBy: string, now: Instant) returns (r: Result<Manifest, ActivationError>)
      requires OneActive(manifests)
      modifies this`manifests
      ensures OneActive(manifests)
      ensures match ActivateAlone(old(manifests), agents, id, approvedBy, now)
        case Ok(after) => id in after && r == Ok(after[id]) && manifests == after
        case Err(e) => r == Err(e) && manifests == old(manifests)
    {
      if id !in manifests {
        return Err(ManifestNotFound);
      }
      var target := manifests[id];
      if target.agentId !in agents {
        return Err(AgentNotFound);
      }
      if target.status.Active? {
        return Ok(target);
      }
      if !target.status.Draft? {
        return Err(InvalidState(target.status));
      }
      WithoutActiveHasNone(manifests, target.agentId);
      var current := FindActive(target.agentId);
      if current.Some? && current.value != id {
        manifests := manifests[current.value := Superseding(manifests[current.value])];
        assert OneActive(manifests);
      }
      assert manifests == WithoutActive(old(manifests), target.agentId);
      PromotionKeepsIndex(manifests, target.agentId, id, Promoted(target, approvedBy, now));
      manifests := manifests[id := Promoted(target, approvedBy, now)];
      assert OneActive(manifests);
      r := Ok(manifests[id]);
    }
  }

  // ---------------------------------------------------------------- transactions

  datatype Row = ManifestRow(id: string) | AgentRow(agentId: string)

  datatype Pc = LockingTarget | LockingAgent | ReadingActive | FlushingOld | FlushingNew | Committing

  /** One activation in progress: what it was asked, the rows it has locked, what it has read,
      and what it has flushed but not committed. */
  datatype Txn = Txn(
    target: string,
    approvedBy: string,
    now: Instant,
    pc: Pc,
    locks: set<Row>,
    row: Option<Manifest>,
    current: Option<string>,
    writes: Manifests)

  datatype Commit =
    | Activated(target: string, approvedBy: string, now: Instant)
    | DraftAdded(id: string, draft: Manifest)

  /** `violated` records whether a flush ever met the unique index. */
  datatype State = State(
    agents: Agents,
    committed: Manifests,
    txns: map<nat, Txn>,
    history: seq<Commit>,
    violated: bool)

  datatype Step =
    | Begin(tid: nat, target: string, approvedBy: string, now: Instant)
    | LockTarget(tid: nat)
    | LockAgent(tid: nat)
    | ReadActive(tid: nat)
    | FlushSuperseded(tid: nat)
    | FlushPromoted(tid: nat)
    | CommitTxn(tid: nat)
    | Abort(tid: nat)
    | AddDraft(id: string, draft: Manifest)

  /** No other transaction holds the row: the lock can be taken now. */
  predicate Free(s: State, tid: nat, row: Row) {
    forall u :: u in s.txns && u != tid ==> row !in s.txns[u].locks
  }

  predicate Enabled(s: State, step: Step) {
    match step
    case Begin(tid, _, _, _) => tid !in s.txns
    case AddDraft(id, draft) => id !in s.committed && draft.status.Draft? && draft.agentId in s.agents
    case LockTarget(tid) =>
      && tid in s.txns && s.txns[tid].pc.LockingTarget?
      && (s.txns[tid].target in s.committed ==> Free(s, tid, ManifestRow(s.txns[tid].target)))
    case LockAgent(tid) =>
      && tid in s.txns && s.txns[tid].pc.LockingAgent? && s.txns[tid].row.Some?
      && (s.txns[tid].row.value.agentId in s.agents ==> Free(s, tid, AgentRow(s.txns[tid].row.value.agentId)))
    case ReadActive(tid) => tid in s.txns && s.txns[tid].pc.ReadingActive? && s.txns[tid].row.Some?
    case FlushSuperseded(tid) =>
      && tid in s.txns && s.txns[tid].pc.FlushingOld?
      && s.txns[tid].current.Some? && s.txns[tid].current.value in s.committed
      && Free(s, tid, ManifestRow(s.txns[tid].current.value))
    case FlushPromoted(tid) => tid in s.txns && s.txns[tid].pc.FlushingNew? && s.txns[tid].target in s.committed
    case CommitTxn(tid) => tid in s.txns && s.txns[tid].pc.Committing?
    case Abort(tid) => tid in s.txns
  }

  function Put(s: State, tid: nat, t: Txn): State {
    s.(txns := s.txns[tid := t])
  }

  function Drop(s: State, tid: nat): State {
    s.(txns := s.txns - {tid})
  }

  /** Some active row of the agent, other than `id`, that a flush by `tid` would collide with:
      committed and not overwritten by it, written by it, or pending in another transaction. */
  ghost predicate Conflict(s: State, tid: nat, agentId: string, id: string)
    requires tid in s.txns
  {
    || (exists m :: m != id && IsActive(s.committed + s.txns[tid].writes, agentId, m))
    || (exists u, m :: u in s.txns && u != tid && IsActive(s.txns[u].writes, agentId, m))
  }

  ghost function Next(s: State, step: Step): State
    requires Enabled(s, step)
  {
    match step
    case Begin(tid, target, approvedBy, now) =>
      Put(s, tid, Txn(target, approvedBy, now, LockingTarget, {}, None, None, map[]))
    case LockTarget(tid) =>
      var t := s.txns[tid];
      if t.target !in s.committed then Drop(s, tid)
      else Put(s, tid, t.(pc := LockingAgent, locks := t.locks + {ManifestRow(t.target)},
                          row := Some(s.committed[t.target])))
    case LockAgent(tid) =>
      var t := s.txns[tid];
      var row := t.row.value;
      if row.agentId !in s.agents then Drop(s, tid)
      else if row.status.Active? then
        Put(s, tid, t.(pc := Committing, locks := t.locks + {AgentRow(row.agentId)}))
      else if !row.status.Draft? then Drop(s, tid)
      else Put(s, tid, t.(pc := ReadingActive, locks := t.locks + {AgentRow(row.agentId)}))
    case ReadActive(tid) =>
      var t := s.txns[tid];
      var current := GetActive(s.committed, t.row.value.agentId);
      Put(s, tid, t.(current := current,
                     pc := if current.Some? && current.value != t.target then FlushingOld else FlushingNew))
    case FlushSuperseded(tid) =>
      var t := s.txns[tid];
      var c := t.current.value;
      Put(s, tid, t.(pc := FlushingNew, locks := t.locks + {ManifestRow(c)},
                     writes := t.writes[c := Superseding(s.committed[c])]))
    case FlushPromoted(tid) =>
      var t := s.txns[tid];
      var row := s.committed[t.target];
      if Conflict(s, tid, row.agentId, t.target) then Drop(s, tid).(violated := true)
      else Put(s, tid, t.(pc := Committing,
                          writes := t.writes[t.target := Promoted(row, t.approvedBy, t.now)]))
    case CommitTxn(tid) =>
      var t := s.txns[tid];
      Drop(s, tid).(committed := s.committed + t.writes,
                    history := s.history + [Activated(t.target, t.approvedBy, t.now)])
    case Abort(tid) => Drop(s, tid)
    case AddDraft(id, draft) =>
      s.(committed := s.committed[id := draft], history := s.history + [DraftAdded(id, draft)])
  }

  /** The table after the commits of a history, one at a time and each on its own. */
  ghost function Replay(initial: Manifests, agents: Agents, history: seq<Commit>): Option<Manifests> {
    if history == [] then Some(initial)
    else
      var n := |history| - 1;
      match Replay(initial, agents, history[..n])
      case None => None
      case Some(m) =>
        match history[n]
        case DraftAdded(id, draft) => Some(m[id := draft])
        case Activated(target, approvedBy, now) =>
          match ActivateAlone(m, agents, target, approvedBy, now)
          case Ok(after) => Some(after)
          case Err(_) => None
  }

  /** The states an interleaving of transactions can reach from a table. */
  ghost function Run(initial: Manifests, agents: Agents, steps: seq<Step>): Option<State> {
    if steps == [] then Some(State(agents, initial, map[], [], false))
    else
      match Run(initial, agents, steps[..|steps| - 1])
      case None => None
      case Some(s) =>
        if Enabled(s, steps[|steps| - 1]) then Some(Next(s, steps[|steps| - 1])) else None
  }
}
