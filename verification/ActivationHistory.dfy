/** Who activated what, when: the committed rows against the history of commits, over every
    interleaving. */
module ActivationHistory {
  import opened Wrappers
  import opened UtcTime
  import opened Domain
  import opened Activation
  import opened ActivationProofs

  /** Drafts are added under identifiers not yet taken. */
  ghost predicate DraftsFresh(initial: Manifests, agents: Agents, history: seq<Commit>) {
    history == [] ||
    var before := history[..|history| - 1];
    && DraftsFresh(initial, agents, before)
    && match history[|history| - 1]
       case Activated(_, _, _) => true
       case DraftAdded(id, draft) =>
         draft.status.Draft? && Replay(initial, agents, before).Some? && id !in Replay(initial, agents, before).value
  }

  /** Entry `k` activated a row that was a draft until then. */
  ghost predicate Promotes(initial: Manifests, agents: Agents, history: seq<Commit>, k: nat, id: string) {
    && k < |history| && history[k].Activated? && history[k].target == id
    && var before := Replay(initial, agents, history[..k]);
       before.Some? && id in before.value && before.value[id].status.Draft?
  }

  /** The row an identifier started with. */
  predicate IsFirstForm(initial: Manifests, history: seq<Commit>, id: string, row: Manifest) {
    (id in initial && row == initial[id]) || exists k :: 0 <= k < |history| && history[k] == DraftAdded(id, row)
  }

  /** The row carries the user and the time of entry `k`; the rest is as the draft had it, but
      that it may have been superseded since. */
  ghost predicate CarriesEntry(initial: Manifests, agents: Agents, history: seq<Commit>, k: nat, id: string,
                               row: Manifest)
    requires Promotes(initial, agents, history, k, id)
  {
    var draft := Replay(initial, agents, history[..k]).value[id];
    && row.approvedBy == Some(history[k].approvedBy) && row.activatedAt == Some(history[k].now)
    && (row.status.Active? || row.status.Superseded?)
    && row.agentId == draft.agentId && row.version == draft.version && row.document == draft.document
    && row.checksum == draft.checksum && row.effectiveFrom == draft.effectiveFrom && row.expiresAt == draft.expiresAt
  }

  lemma {:induction false} ReplayKeepsIndex(initial: Manifests, agents: Agents, history: seq<Commit>)
    requires OneActive(initial) && Replay(initial, agents, history).Some? && DraftsFresh(initial, agents, history)
    ensures OneActive(Replay(initial, agents, history).value)
  {
    hide ActivateAlone;
    hide OneActive;
    if history != [] {
      var before := history[..|history| - 1];
      ReplayKeepsIndex(initial, agents, before);
      var m := Replay(initial, agents, before).value;
      match history[|history| - 1]
      case Activated(target, approvedBy, now) => ActivationEffect(m, agents, target, approvedBy, now);
      case DraftAdded(id, draft) => DraftKeepsIndex(m, id, draft);
    }
  }

  lemma DraftKeepsIndex(m: Manifests, id: string, draft: Manifest)
    requires OneActive(m) && id !in m && draft.status.Draft?
    ensures OneActive(m[id := draft])
  {
  }

  /** A later commit leaves a promoted row as it is, or supersedes it. */
  lemma PromotedRowStays(m: Manifests, agents: Agents, entry: Commit, id: string)
    requires OneActive(m) && id in m && (m[id].status.Active? || m[id].status.Superseded?)
    requires entry.Activated? && ActivateAlone(m, agents, entry.target, entry.approvedBy, entry.now).Ok?
    ensures var after := ActivateAlone(m, agents, entry.target, entry.approvedBy, entry.now).value;
      id in after && (after[id] == m[id] || SupersededFrom(m[id], after[id]))
  {
    hide OneActive;
    ActivationEffect(m, agents, entry.target, entry.approvedBy, entry.now);
    ActivationOutcome(m, agents, entry.target, entry.approvedBy, entry.now);
    hide ActivateAlone;
  }

  /** Once an entry has promoted a row, every later table shows that entry's user and time. */
  lemma {:induction false} PromotionSticks(initial: Manifests, agents: Agents, history: seq<Commit>, k: nat, id: string)
    requires OneActive(initial) && Replay(initial, agents, history).Some? && DraftsFresh(initial, agents, history)
    requires Promotes(initial, agents, history, k, id)
    ensures id in Replay(initial, agents, history).value
    ensures CarriesEntry(initial, agents, history, k, id, Replay(initial, agents, history).value[id])
  {
    hide ActivateAlone;
    hide OneActive;
    var n := |history| - 1;
    var before := history[..n];
    var m := Replay(initial, agents, before).value;
    ReplayKeepsIndex(initial, agents, before);
    if k == n {
      ActivationEffect(m, agents, id, history[k].approvedBy, history[k].now);
    } else {
      assert before[..k] == history[..k] && before[k] == history[k];
      PromotionSticks(initial, agents, before, k, id);
      if history[n].Activated? { PromotedRowStays(m, agents, history[n], id); }
    }
  }

  /** A row is as it started, or superseded from there, or an entry promoted it. */
  ghost predicate AccountedFor(initial: Manifests, agents: Agents, history: seq<Commit>, id: string, row: Manifest) {
    || (exists k: nat :: Promotes(initial, agents, history, k, id))
    || (exists first :: IsFirstForm(initial, history, id, first) && (row == first || SupersededFrom(first, row)))
  }

  lemma AccountingGrows(initial: Manifests, agents: Agents, history: seq<Commit>, entry: Commit, id: string,
                        row: Manifest)
    requires AccountedFor(initial, agents, history, id, row)
    ensures AccountedFor(initial, agents, history + [entry], id, row)
  {
    hide Replay;
    var more := history + [entry];
    if k: nat :| Promotes(initial, agents, history, k, id) {
      assert more[..k] == history[..k] && more[k] == history[k];
      assert Promotes(initial, agents, more, k, id);
    } else {
      var first :| IsFirstForm(initial, history, id, first) && (row == first || SupersededFrom(first, row));
      FirstFormStays(initial, history, entry, id, first);
    }
  }

  lemma FirstFormStays(initial: Manifests, history: seq<Commit>, entry: Commit, id: string, first: Manifest)
    requires IsFirstForm(initial, history, id, first)
    ensures IsFirstForm(initial, history + [entry], id, first)
  {
    if k :| 0 <= k < |history| && history[k] == DraftAdded(id, first) { assert (history + [entry])[k] == history[k]; }
  }

  lemma {:induction false} EveryRowAccountedFor(initial: Manifests, agents: Agents, history: seq<Commit>, id: string)
    requires OneActive(initial) && Replay(initial, agents, history).Some? && DraftsFresh(initial, agents, history)
    requires id in Replay(initial, agents, history).value
    ensures AccountedFor(initial, agents, history, id, Replay(initial, agents, history).value[id])
  {
    hide ActivateAlone;
    hide OneActive;
    if history == [] {
      assert IsFirstForm(initial, history, id, initial[id]);
    } else {
      var n := |history| - 1;
      var before, entry := history[..n], history[n];
      assert before + [entry] == history;
      var m := Replay(initial, agents, before).value;
      ReplayKeepsIndex(initial, agents, before);
      match entry
      case DraftAdded(other, draft) =>
        if other == id {
          assert IsFirstForm(initial, history, id, draft);
        } else {
          EveryRowAccountedFor(initial, agents, before, id);
          AccountingGrows(initial, agents, before, entry, id, m[id]);
        }
      case Activated(target, approvedBy, now) =>
        ActivationEffect(m, agents, target, approvedBy, now);
        ActivationOutcome(m, agents, target, approvedBy, now);
        if target == id && m[id].status.Draft? {
          assert Promotes(initial, agents, history, n, id);
        } else {
          EveryRowAccountedFor(initial, agents, before, id);
          AccountingGrows(initial, agents, before, entry, id, m[id]);
          SupersededOnce(initial, agents, history, id, m[id], Replay(initial, agents, history).value[id]);
        }
    }
  }

  lemma SupersededOnce(initial: Manifests, agents: Agents, history: seq<Commit>, id: string, row: Manifest,
                       after: Manifest)
    requires AccountedFor(initial, agents, history, id, row)
    requires after == row || SupersededFrom(row, after)
    ensures AccountedFor(initial, agents, history, id, after)
  {
    hide Replay;
    hide IsFirstForm;
    if forall k: nat :: !Promotes(initial, agents, history, k, id) {
      var first :| IsFirstForm(initial, history, id, first) && (row == first || SupersededFrom(first, row));
      assert after == first || SupersededFrom(first, after);
    }
  }

  // ---------------------------------------------------------------- every interleaving

  lemma {:induction false} RunDraftsFresh(initial: Manifests, agents: Agents, steps: seq<Step>)
    requires OneActive(initial) && Run(initial, agents, steps).Some?
    ensures DraftsFresh(initial, agents, Run(initial, agents, steps).value.history)
  {
    hide OneActive;
    hide Conflict;
    hide Free;
    hide Replay;
    if steps != [] {
      var before := steps[..|steps| - 1];
      RunDraftsFresh(initial, agents, before);
      ActivationsSerialize(initial, agents, before);
      var s := Run(initial, agents, before).value;
      var s' := Next(s, steps[|steps| - 1]);
      if s'.history != s.history {
        assert s'.history[..|s'.history| - 1] == s.history;
      }
    }
  }

  /** Over every interleaving: a row promoted by a commit carries the user and the time of that
      commit's entry and keeps everything else, and a row no entry promoted is as it started, or
      superseded from there. */
  lemma CommittedRowsCarryTheirEntries(initial: Manifests, agents: Agents, steps: seq<Step>, id: string)
    requires OneActive(initial) && Run(initial, agents, steps).Some?
    requires id in Run(initial, agents, steps).value.committed
    ensures var s := Run(initial, agents, steps).value;
      && (forall k: nat :: Promotes(initial, agents, s.history, k, id) ==>
            CarriesEntry(initial, agents, s.history, k, id, s.committed[id]))
      && AccountedFor(initial, agents, s.history, id, s.committed[id])
  {
    hide OneActive;
    hide Run;
    hide CarriesEntry;
    var s := Run(initial, agents, steps).value;
    ActivationsSerialize(initial, agents, steps);
    RunDraftsFresh(initial, agents, steps);
    EveryRowAccountedFor(initial, agents, s.history, id);
    forall k: nat | Promotes(initial, agents, s.history, k, id)
      ensures CarriesEntry(initial, agents, s.history, k, id, s.committed[id])
    {
      PromotionSticks(initial, agents, s.history, k, id);
    }
  }
}
