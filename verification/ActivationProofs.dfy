/** Concurrent activations behave like some serial order of those that commit. */
module ActivationProofs {
  import opened Wrappers
  import opened Domain
  import opened Activation

  // ---------------------------------------------------------------- invariant

  predicate LocksExclusive(s: State) {
    forall t, u, r :: t in s.txns && u in s.txns && t != u && r in s.txns[t].locks ==> r !in s.txns[u].locks
  }

  /** Past its first lock, a transaction holds its target, unchanged since it was read. */
  predicate HoldsTarget(s: State, t: Txn) {
    && t.row.Some?
    && ManifestRow(t.target) in t.locks
    && t.target in s.committed
    && s.committed[t.target] == t.row.value
  }

  predicate HoldsAgent(s: State, t: Txn) {
    && HoldsTarget(s, t)
    && t.row.value.agentId in s.agents
    && AgentRow(t.row.value.agentId) in t.locks
  }

  /** What the transaction read as active still is what the committed table says. */
  ghost predicate CurrentHolds(s: State, t: Txn) {
    && t.row.Some?
    && t.current == GetActive(s.committed, t.row.value.agentId)
  }

  /** The superseding update, exactly. */
  ghost predicate OldFlushed(s: State, t: Txn) {
    match t.current
    case None => t.writes == map[]
    case Some(c) =>
      && c in s.committed
      && ManifestRow(c) in t.locks
      && t.writes == map[c := Superseding(s.committed[c])]
  }

  ghost predicate BothFlushed(s: State, t: Txn) {
    && t.row.Some? && t.target in s.committed
    && s.committed + t.writes
       == WithoutActive(s.committed, t.row.value.agentId)[t.target := Promoted(t.row.value, t.approvedBy, t.now)]
    && (forall m :: m in t.writes ==> m in s.committed && ManifestRow(m) in t.locks
                                      && s.committed[m].agentId == t.row.value.agentId
                                      && t.writes[m].agentId == t.row.value.agentId)
  }

  ghost predicate TxnOk(s: State, t: Txn) {
    match t.pc
    case LockingTarget => t.locks == {} && t.writes == map[]
    case LockingAgent => HoldsTarget(s, t) && t.writes == map[]
    case ReadingActive => HoldsAgent(s, t) && t.row.value.status.Draft? && t.writes == map[]
    case FlushingOld =>
      && HoldsAgent(s, t) && t.row.value.status.Draft? && t.writes == map[]
      && CurrentHolds(s, t) && t.current.Some? && t.current.value != t.target
    case FlushingNew => HoldsAgent(s, t) && t.row.value.status.Draft? && CurrentHolds(s, t) && OldFlushed(s, t)
    case Committing =>
      && HoldsAgent(s, t)
      && (if t.row.value.status.Active? then t.writes == map[] else t.row.value.status.Draft? && BothFlushed(s, t))
  }

  ghost predicate Invariant(initial: Manifests, s: State) {
    && OneActive(s.committed)
    && !s.violated
    && LocksExclusive(s)
    && (forall tid :: tid in s.txns ==> TxnOk(s, s.txns[tid]))
    && Replay(initial, s.agents, s.history) == Some(s.committed)
  }

  // ---------------------------------------------------------------- steps that commit nothing

  lemma DropKeeps(s: State, tid: nat)
    requires LocksExclusive(s)
    requires forall u :: u in s.txns ==> TxnOk(s, s.txns[u])
    ensures LocksExclusive(Drop(s, tid))
    ensures forall u :: u in Drop(s, tid).txns ==> TxnOk(Drop(s, tid), Drop(s, tid).txns[u])
  {
    var s' := Drop(s, tid);
    forall u | u in s'.txns ensures TxnOk(s', s'.txns[u]) {
      SameTableSameTxn(s, s', s.txns[u]);
    }
  }

  lemma SameTableSameTxn(s: State, s': State, t: Txn)
    requires s.committed == s'.committed && s.agents == s'.agents && TxnOk(s, t)
    ensures TxnOk(s', t)
  {
  }

  /** Replacing one transaction by its next form keeps the rest. */
  lemma PutKeeps(s: State, tid: nat, t: Txn)
    requires LocksExclusive(s)
    requires forall u :: u in s.txns ==> TxnOk(s, s.txns[u])
    requires TxnOk(s, t)
    requires forall r :: r in t.locks ==> Free(s, tid, r)
    ensures LocksExclusive(Put(s, tid, t))
    ensures forall u :: u in Put(s, tid, t).txns ==> TxnOk(Put(s, tid, t), Put(s, tid, t).txns[u])
  {
    var s' := Put(s, tid, t);
    hide TxnOk;
    forall u | u in s'.txns ensures TxnOk(s', s'.txns[u]) {
      SameTableSameTxn(s, s', s'.txns[u]);
    }
  }

  lemma OwnLocksFree(s: State, tid: nat)
    requires LocksExclusive(s) && tid in s.txns
    ensures forall r :: r in s.txns[tid].locks ==> Free(s, tid, r)
  {
  }

  lemma LockAgentKeeps(initial: Manifests, s: State, tid: nat)
    requires Invariant(initial, s) && Enabled(s, LockAgent(tid))
    ensures Invariant(initial, Next(s, LockAgent(tid)))
  {
    hide Replay;
    hide OneActive;
    hide LocksExclusive;
    var t := s.txns[tid];
    assert TxnOk(s, t);
    DropKeeps(s, tid);
    OwnLocksFree(s, tid);
    var row := t.row.value;
    if row.agentId in s.agents && row.status.Active? {
      PutKeeps(s, tid, t.(pc := Committing, locks := t.locks + {AgentRow(row.agentId)}));
    } else if row.agentId in s.agents && row.status.Draft? {
      PutKeeps(s, tid, t.(pc := ReadingActive, locks := t.locks + {AgentRow(row.agentId)}));
    }
  }

  lemma ReadActiveKeeps(initial: Manifests, s: State, tid: nat)
    requires Invariant(initial, s) && Enabled(s, ReadActive(tid))
    ensures Invariant(initial, Next(s, ReadActive(tid)))
  {
    hide Replay;
    hide OneActive;
    hide LocksExclusive;
    var t := s.txns[tid];
    assert TxnOk(s, t);
    OwnLocksFree(s, tid);
    var current := GetActive(s.committed, t.row.value.agentId);
    assert current.Some? ==> current.value != t.target;
    PutKeeps(s, tid, Next(s, ReadActive(tid)).txns[tid]);
  }

  lemma FlushSupersededKeeps(initial: Manifests, s: State, tid: nat)
    requires Invariant(initial, s) && Enabled(s, FlushSuperseded(tid))
    ensures Invariant(initial, Next(s, FlushSuperseded(tid)))
  {
    hide Replay;
    hide OneActive;
    hide LocksExclusive;
    var t := s.txns[tid];
    assert TxnOk(s, t);
    OwnLocksFree(s, tid);
    PutKeeps(s, tid, Next(s, FlushSuperseded(tid)).txns[tid]);
  }

  /** No flush meets the unique index: the agent lock keeps every other activation of the agent
      away, and this transaction has superseded the row that was active. */
  lemma NoConflict(s: State, tid: nat)
    requires OneActive(s.committed) && LocksExclusive(s)
    requires forall u :: u in s.txns ==> TxnOk(s, s.txns[u])
    requires tid in s.txns && s.txns[tid].pc.FlushingNew?
    ensures s.txns[tid].target in s.committed
    ensures !Conflict(s, tid, s.committed[s.txns[tid].target].agentId, s.txns[tid].target)
  {
    var t := s.txns[tid];
    assert TxnOk(s, t);
    var agentId := t.row.value.agentId;
    forall m | m != t.target ensures !IsActive(s.committed + t.writes, agentId, m) {
      if IsActive(s.committed + t.writes, agentId, m) {
        assert m !in t.writes;
        assert IsActive(s.committed, agentId, m);
        ActiveIsUnique(s.committed, agentId, m);
      }
    }
    forall u, m | u in s.txns && u != tid ensures !IsActive(s.txns[u].writes, agentId, m) {
      assert TxnOk(s, s.txns[u]);
      if IsActive(s.txns[u].writes, agentId, m) {
        WritesActiveOwnAgent(s, s.txns[u], agentId, m);
      }
    }
  }

  lemma WritesActiveOwnAgent(s: State, t: Txn, agentId: string, m: string)
    requires TxnOk(s, t) && IsActive(t.writes, agentId, m)
    ensures AgentRow(agentId) in t.locks
  {
  }

  lemma FlushPromotedWrites(s: State, t: Txn)
    requires OneActive(s.committed) && TxnOk(s, t) && t.pc.FlushingNew?
    ensures t.target in s.committed
    ensures TxnOk(s, t.(pc := Committing,
                        writes := t.writes[t.target := Promoted(s.committed[t.target], t.approvedBy, t.now)]))
  {
    var writes := t.writes[t.target := Promoted(s.committed[t.target], t.approvedBy, t.now)];
    assert s.committed + writes
        == WithoutActive(s.committed, t.row.value.agentId)[t.target := Promoted(t.row.value, t.approvedBy, t.now)];
  }

  lemma FlushPromotedKeeps(initial: Manifests, s: State, tid: nat)
    requires Invariant(initial, s) && Enabled(s, FlushPromoted(tid))
    ensures Invariant(initial, Next(s, FlushPromoted(tid)))
  {
    hide Replay;
    hide OneActive;
    hide LocksExclusive;
    hide Conflict;
    hide TxnOk;
    var t := s.txns[tid];
    OwnLocksFree(s, tid);
    NoConflict(s, tid);
    FlushPromotedWrites(s, t);
    PutKeeps(s, tid, Next(s, FlushPromoted(tid)).txns[tid]);
  }

  // ---------------------------------------------------------------- commits

  /** A committed activation is the serial one, applied to the table it commits onto. */
  lemma CommitIsSerial(s: State, t: Txn)
    requires OneActive(s.committed) && TxnOk(s, t) && t.pc.Committing?
    ensures ActivateAlone(s.committed, s.agents, t.target, t.approvedBy, t.now) == Ok(s.committed + t.writes)
    ensures OneActive(s.committed + t.writes)
  {
    WithoutActiveHasNone(s.committed, t.row.value.agentId);
    if t.row.value.status.Active? {
      assert s.committed + t.writes == s.committed;
    } else {
      var old_ := WithoutActive(s.committed, t.row.value.agentId);
      var after := s.committed + t.writes;
      forall m, n | m in after && n in after && m != n && after[m].status.Active? && after[n].status.Active?
        ensures after[m].agentId != after[n].agentId
      {
        if m == t.target {
          assert !IsActive(old_, t.row.value.agentId, n);
        }
        if n == t.target {
          assert !IsActive(old_, t.row.value.agentId, m);
        }
      }
    }
  }

  /** Rows of other agents, and rows locked by others, are untouched by a commit. */
  lemma CommitTouchesOwnAgent(s: State, t: Txn, m: string)
    requires TxnOk(s, t) && t.pc.Committing? && m in t.writes
    ensures m in s.committed && ManifestRow(m) in t.locks && AgentRow(s.committed[m].agentId) in t.locks
    ensures t.writes[m].agentId == s.committed[m].agentId
  {
  }

  /** The agent's active row looks the same in two tables that agree on the agent's rows. */
  lemma SameRowsSameActive(a: Manifests, b: Manifests, agentId: string)
    requires OneActive(a) && OneActive(b)
    requires forall m :: IsActive(a, agentId, m) <==> IsActive(b, agentId, m)
    ensures GetActive(a, agentId) == GetActive(b, agentId)
  {
    var x, y := GetActive(a, agentId), GetActive(b, agentId);
    if x.Some? {
      assert IsActive(b, agentId, x.value);
      ActiveIsUnique(b, agentId, x.value);
    }
  }

  /** A transaction stays sound when the table changes only outside the rows it has locked and
      outside its agent. */
  lemma ChangeElsewhere(s: State, s': State, t: Txn)
    requires OneActive(s.committed) && OneActive(s'.committed) && s.agents == s'.agents
    requires TxnOk(s, t)
    requires forall m :: m in s.committed && ManifestRow(m) in t.locks ==>
      m in s'.committed && s'.committed[m] == s.committed[m]
    requires forall a, m :: AgentRow(a) in t.locks ==> (IsActive(s.committed, a, m) <==> IsActive(s'.committed, a, m))
    requires s.committed.Keys <= s'.committed.Keys
    requires forall m :: m in s.committed ==> s'.committed[m].agentId == s.committed[m].agentId
    ensures TxnOk(s', t)
  {
    if !t.pc.LockingTarget? && !t.pc.LockingAgent? {
      var agentId := t.row.value.agentId;
      assert AgentRow(agentId) in t.locks;
      SameRowsSameActive(s.committed, s'.committed, agentId);
      if t.pc.Committing? && t.row.value.status.Draft? {
        BothFlushedElsewhere(s, s', t);
      }
    }
  }

  lemma BothFlushedElsewhere(s: State, s': State, t: Txn)
    requires OneActive(s.committed) && OneActive(s'.committed)
    requires HoldsAgent(s, t) && BothFlushed(s, t) && t.row.value.status.Draft?
    requires GetActive(s.committed, t.row.value.agentId) == GetActive(s'.committed, t.row.value.agentId)
    requires forall m :: m in s.committed && ManifestRow(m) in t.locks ==>
      m in s'.committed && s'.committed[m] == s.committed[m]
    requires s.committed.Keys <= s'.committed.Keys
    requires forall m :: m in s.committed ==> s'.committed[m].agentId == s.committed[m].agentId
    ensures BothFlushed(s', t)
  {
    var agentId := t.row.value.agentId;
    var a := WithoutActive(s.committed, agentId)[t.target := Promoted(t.row.value, t.approvedBy, t.now)];
    var b := WithoutActive(s'.committed, agentId)[t.target := Promoted(t.row.value, t.approvedBy, t.now)];
    var current := GetActive(s.committed, agentId);
    if current.Some? {
      var c := current.value;
      assert c in t.writes by {
        assert (s.committed + t.writes)[c] == a[c];
        assert s.committed[c].status.Active?;
      }
      assert t.writes[c] == a[c];
    }
    assert t.target in t.writes by {
      assert (s.committed + t.writes)[t.target] == a[t.target];
      assert s.committed[t.target].status.Draft?;
    }
    forall m ensures m in s'.committed + t.writes <==> m in b {
    }
    forall m | m in b ensures (s'.committed + t.writes)[m] == b[m] {
      if m in t.writes {
        assert m in s.committed && t.writes[m] == (s.committed + t.writes)[m] == a[m];
      }
    }
    assert s'.committed + t.writes == b;
  }

  lemma CommitKeeps(initial: Manifests, s: State, tid: nat)
    requires Invariant(initial, s) && Enabled(s, CommitTxn(tid))
    ensures Invariant(initial, Next(s, CommitTxn(tid)))
  {
    var t := s.txns[tid];
    var s' := Next(s, CommitTxn(tid));
    assert TxnOk(s, t);
    CommitIsSerial(s, t);
    assert s'.history[..|s.history|] == s.history;
    forall u | u in s'.txns ensures TxnOk(s', s'.txns[u]) {
      CommitSparesOther(s, s', tid, u);
    }
  }

  lemma CommitSparesOther(s: State, s': State, tid: nat, u: nat)
    requires OneActive(s.committed) && OneActive(s'.committed) && LocksExclusive(s)
    requires tid in s.txns && u in s.txns && u != tid
    requires TxnOk(s, s.txns[tid]) && TxnOk(s, s.txns[u]) && s.txns[tid].pc.Committing?
    requires s'.committed == s.committed + s.txns[tid].writes && s'.agents == s.agents
    ensures TxnOk(s', s.txns[u])
  {
    hide TxnOk;
    hide OneActive;
    var t, other := s.txns[tid], s.txns[u];
    forall m | m in t.writes
      ensures m in s.committed && ManifestRow(m) !in other.locks && AgentRow(s.committed[m].agentId) !in other.locks
      ensures t.writes[m].agentId == s.committed[m].agentId
    {
      CommitTouchesOwnAgent(s, t, m);
    }
    ChangeElsewhere(s, s', other);
  }

  lemma AddDraftKeeps(initial: Manifests, s: State, id: string, draft: Manifest)
    requires Invariant(initial, s) && Enabled(s, AddDraft(id, draft))
    ensures Invariant(initial, Next(s, AddDraft(id, draft)))
  {
    var s' := Next(s, AddDraft(id, draft));
    assert s'.history[..|s.history|] == s.history;
    assert OneActive(s'.committed);
    forall u | u in s'.txns ensures TxnOk(s', s'.txns[u]) {
      ChangeElsewhere(s, s', s.txns[u]);
    }
  }

  // ---------------------------------------------------------------- every run

  lemma StepKeepsInvariant(initial: Manifests, s: State, step: Step)
    requires Invariant(initial, s) && Enabled(s, step)
    ensures Invariant(initial, Next(s, step))
  {
    hide Replay;
    hide OneActive;
    match step
    case Begin(tid, target, approvedBy, now) =>
      PutKeeps(s, tid, Next(s, step).txns[tid]);
    case LockTarget(tid) =>
      DropKeeps(s, tid);
      OwnLocksFree(s, tid);
      assert TxnOk(s, s.txns[tid]);
      if s.txns[tid].target in s.committed {
        PutKeeps(s, tid, Next(s, step).txns[tid]);
      }
    case LockAgent(tid) => LockAgentKeeps(initial, s, tid);
    case ReadActive(tid) => ReadActiveKeeps(initial, s, tid);
    case FlushSuperseded(tid) => FlushSupersededKeeps(initial, s, tid);
    case FlushPromoted(tid) => FlushPromotedKeeps(initial, s, tid);
    case CommitTxn(tid) => CommitKeeps(initial, s, tid);
    case Abort(tid) => DropKeeps(s, tid);
    case AddDraft(id, draft) => AddDraftKeeps(initial, s, id, draft);
  }

  lemma StepAgents(s: State, step: Step)
    requires Enabled(s, step)
    ensures Next(s, step).agents == s.agents
  {
    hide Conflict;
    hide Enabled;
  }

  lemma {:induction false} RunAgents(initial: Manifests, agents: Agents, steps: seq<Step>)
    requires Run(initial, agents, steps).Some?
    ensures Run(initial, agents, steps).value.agents == agents
  {
    hide Next;
    hide Enabled;
    if steps != [] {
      RunAgents(initial, agents, steps[..|steps| - 1]);
      StepAgents(Run(initial, agents, steps[..|steps| - 1]).value, steps[|steps| - 1]);
    }
  }

  lemma {:induction false} RunKeepsInvariant(initial: Manifests, agents: Agents, steps: seq<Step>)
    requires OneActive(initial) && Run(initial, agents, steps).Some?
    ensures Invariant(initial, Run(initial, agents, steps).value)
  {
    hide TxnOk;
    if steps != [] {
      hide Next;
      var before := steps[..|steps| - 1];
      RunKeepsInvariant(initial, agents, before);
      StepKeepsInvariant(initial, Run(initial, agents, before).value, steps[|steps| - 1]);
    }
  }

  /** Every interleaving of activations: each committed table has at most one active manifest
      per agent, no flush meets the unique index, and the committed table is what the
      committed activations leave when they run one after another, in commit order. */
  lemma ActivationsSerialize(initial: Manifests, agents: Agents, steps: seq<Step>)
    requires OneActive(initial) && Run(initial, agents, steps).Some?
    ensures var s := Run(initial, agents, steps).value;
      && OneActive(s.committed)
      && !s.violated
      && Replay(initial, agents, s.history) == Some(s.committed)
  {
    hide Run;
    hide TxnOk;
    RunKeepsInvariant(initial, agents, steps);
    RunAgents(initial, agents, steps);
  }
}
