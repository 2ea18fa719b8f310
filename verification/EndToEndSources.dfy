/** Where the sessions, the admitted calls and the requests of a run come from: the steps that
    asked for them. */
module EndToEndSources {
  import opened Wrappers
  import opened UtcTime
  import opened AuditEvents
  import opened Domain
  import opened Crm
  import SessionTokens
  import opened ToolCalls
  import opened EndToEnd
  import opened EndToEndProofs

  /** The row stands for the session that step asked for; only its revocation may have come since. */
  predicate CreatedBy(c: SessionTokens.Settings, step: WorldStep, sid: string, row: Session) {
    && step.CreateSession? && step.id == sid
    && row.tokenJti == step.jti && row.agentId == step.agentId && row.userId == step.userId
    && row.customerId == step.customerId && row.createdBySubject == step.creator && row.createdAt == step.now
    && var asked := if step.ttl.Some? then step.ttl.value else c.ttlSeconds;
       60 <= asked <= c.ttlSeconds && row.expiresAt == step.now + asked * SECOND
  }

  predicate SessionSourced(w: World, steps: seq<WorldStep>, sid: string) {
    && sid in w.sessions && sid in w.since && w.since[sid] < |steps|
    && CreatedBy(w.settings, steps[w.since[sid]], sid, w.sessions[sid])
  }

  /** The admission answers the request of the step it names. */
  predicate AdmissionSourced(w: World, steps: seq<WorldStep>, id: string) {
    id in w.admitted &&
    var a := w.admitted[id];
    a.at < |steps| && steps[a.at] == Admit(id, a.http, a.decodedAt, a.checkedAt)
  }

  /** A session found in the tables of step `i` was created before that step. */
  ghost predicate PastHolds(w: World) {
    forall i, sid :: 0 <= i < |w.past| && sid in w.past[i].sessions ==> sid in w.since && w.since[sid] < i
  }

  ghost predicate Sourced(w: World, steps: seq<WorldStep>) {
    && |w.past| == |steps| && w.since.Keys == w.sessions.Keys && PastHolds(w)
    && (forall sid :: sid in w.sessions ==> SessionSourced(w, steps, sid))
    && (forall id :: id in w.admitted ==> AdmissionSourced(w, steps, id))
  }

  predicate SameButRevocation(a: Session, b: Session) {
    && a.tokenJti == b.tokenJti && a.agentId == b.agentId && a.userId == b.userId && a.customerId == b.customerId
    && a.createdBySubject == b.createdBySubject && a.createdAt == b.createdAt && a.expiresAt == b.expiresAt
  }

  lemma SessionStays(w: World, w': World, steps: seq<WorldStep>, step: WorldStep, sid: string)
    requires SessionSourced(w, steps, sid) && w'.settings == w.settings
    requires sid in w'.sessions && SameButRevocation(w.sessions[sid], w'.sessions[sid])
    requires sid in w'.since && w'.since[sid] == w.since[sid]
    ensures SessionSourced(w', steps + [step], sid)
  {
    assert (steps + [step])[w.since[sid]] == steps[w.since[sid]];
  }

  lemma AdmissionStays(w: World, w': World, steps: seq<WorldStep>, step: WorldStep, id: string)
    requires AdmissionSourced(w, steps, id) && id in w'.admitted && w'.admitted[id] == w.admitted[id]
    ensures AdmissionSourced(w', steps + [step], id)
  {
    assert (steps + [step])[w.admitted[id].at] == steps[w.admitted[id].at];
  }

  /** Sessions and admissions of before are kept, and new ones come from this very step. */
  predicate Extends(w: World, w': World, steps: seq<WorldStep>, step: WorldStep) {
    && w'.settings == w.settings && w'.since.Keys == w'.sessions.Keys
    && w'.past == w.past + [Snapshot(w.agents, w.sessions, w.customers)]
    && (forall sid :: sid in w.since ==> sid in w'.since && w'.since[sid] == w.since[sid])
    && (forall sid :: sid in w'.sessions ==>
          || (sid in w.sessions && sid in w.since && w'.since[sid] == w.since[sid]
              && SameButRevocation(w.sessions[sid], w'.sessions[sid]))
          || SessionSourced(w', steps + [step], sid))
    && (forall id :: id in w'.admitted ==>
          (id in w.admitted && w'.admitted[id] == w.admitted[id]) || AdmissionSourced(w', steps + [step], id))
  }

  lemma ExtendsKeepsSources(w: World, w': World, steps: seq<WorldStep>, step: WorldStep)
    requires Sourced(w, steps) && Extends(w, w', steps, step)
    ensures Sourced(w', steps + [step])
  {
    hide AdmissionSourced;
    hide SameButRevocation;
    PastGrows(w, w', steps, step);
    hide PastHolds;
    forall sid | sid in w'.sessions ensures SessionSourced(w', steps + [step], sid) {
      if !SessionSourced(w', steps + [step], sid) { SessionStays(w, w', steps, step, sid); }
    }
    forall id | id in w'.admitted ensures AdmissionSourced(w', steps + [step], id) {
      if !AdmissionSourced(w', steps + [step], id) { AdmissionStays(w, w', steps, step, id); }
    }
  }

  lemma PastGrows(w: World, w': World, steps: seq<WorldStep>, step: WorldStep)
    requires Sourced(w, steps) && Extends(w, w', steps, step)
    ensures PastHolds(w')
  {
    hide AdmissionSourced;
    hide SameButRevocation;
    forall i, sid | 0 <= i < |w'.past| && sid in w'.past[i].sessions ensures sid in w'.since && w'.since[sid] < i {
      if i < |w.past| {
        assert w'.past[i] == w.past[i];
      } else {
        assert SessionSourced(w, steps, sid);
      }
    }
  }

  /** The row a creation adds, if it adds one. */
  lemma CreatedNow(w: World, steps: seq<WorldStep>, step: WorldStep)
    requires |w.past| == |steps| && step.CreateSession? && step.id !in w.sessions
    ensures var CreateSession(agentId, userId, customerId, creator, ttl, now, id, jti) := step;
      var rows := WithCreated(w, agentId, userId, customerId, creator, ttl, now, id, jti);
      || rows == w.sessions
      || (id in rows && rows == w.sessions[id := rows[id]] && CreatedBy(w.settings, step, id, rows[id]))
  {
    var CreateSession(agentId, userId, customerId, creator, ttl, now, id, jti) := step;
    SessionTokens.CreateErrorExact(w.settings, w.agents, agentId, ttl);
    hide SessionTokens.CreateError;
    hide SessionTokens.RequestedTtl;
  }

  lemma CreateExtends(w: World, steps: seq<WorldStep>, step: WorldStep)
    requires Sourced(w, steps) && step.CreateSession? && step.id !in w.sessions
    ensures var CreateSession(agentId, userId, customerId, creator, ttl, now, id, jti) := step;
      Extends(w, AfterCreate(w, WithCreated(w, agentId, userId, customerId, creator, ttl, now, id, jti), id), steps,
              step)
  {
    hide AdmissionSourced;
    hide PastHolds;
    hide WithCreated;
    hide CreatedBy;
    assert (steps + [step])[|steps|] == step;
    CreatedNow(w, steps, step);
    forall sid | sid in w.sessions ensures SameButRevocation(w.sessions[sid], w.sessions[sid]) { }
  }

  lemma RevokeExtends(w: World, steps: seq<WorldStep>, step: WorldStep)
    requires Sourced(w, steps) && step.RevokeSession?
    ensures Extends(w, AfterRevoke(w, step.id, step.now), steps, step)
  {
    hide AdmissionSourced;
    hide SessionSourced;
  }

  lemma AdmitExtends(w: World, steps: seq<WorldStep>, step: WorldStep)
    requires Sourced(w, steps) && step.Admit? && step.id !in w.admitted
    ensures Extends(w, AfterAdmit(w, WithAdmitted(w, step.id, step.http, step.decodedAt, step.checkedAt)), steps, step)
  {
    hide ClaimsFor;
    hide SessionSourced;
    assert (steps + [step])[|steps|] == step;
  }

  /** Steps that touch neither sessions nor admissions. */
  lemma OtherExtends(w: World, w': World, steps: seq<WorldStep>, step: WorldStep)
    requires Sourced(w, steps) && w'.settings == w.settings
    requires w'.past == w.past + [Snapshot(w.agents, w.sessions, w.customers)]
    requires w'.sessions == w.sessions && w'.since == w.since && w'.admitted == w.admitted
    ensures Extends(w, w', steps, step)
  {
    hide AdmissionSourced;
    hide SessionSourced;
  }

  lemma OtherTouchesNone(h: Hash, check: EmailCheck, w: World, step: WorldStep)
    requires Possible(h, w, step) && !step.CreateSession? && !step.RevokeSession? && !step.Admit?
    ensures var w' := NextWorld(h, check, w, step);
      && w'.settings == w.settings && w'.past == w.past + [Snapshot(w.agents, w.sessions, w.customers)]
      && w'.sessions == w.sessions && w'.since == w.since && w'.admitted == w.admitted
  {
    hide ReadOnlyManifests;
    hide ToolCalls.Begin;
    hide ToolCalls.Resume;
    hide Handle;
    hide ExecutionFor;
    hide PolicyFor;
    hide DispatchCall;
    hide Representable;
    hide AfterAdmit;
    hide AfterCreate;
    hide AfterRevoke;
    match step
    case Serve(_) =>
    case Execute(_, _, _) =>
    case Answer(_, _, _) =>
    case Break(_) =>
    case _ =>
  }

  lemma StepIsSourced(h: Hash, check: EmailCheck, w: World, steps: seq<WorldStep>, step: WorldStep)
    requires Sourced(w, steps) && Possible(h, w, step)
    ensures Sourced(NextWorld(h, check, w, step), steps + [step])
  {
    hide Sourced;
    hide Extends;
    hide ReadOnlyManifests;
    hide AfterBegin;
    hide AfterServe;
    hide AfterAnswer;
    hide AfterBreak;
    hide AfterCreate;
    hide AfterRevoke;
    hide AfterAdmit;
    hide WithAdmitted;
    hide WithCreated;
    hide ExecutionFor;
    hide PolicyFor;
    hide Representable;
    if step.CreateSession? {
      CreateExtends(w, steps, step);
    } else if step.RevokeSession? {
      RevokeExtends(w, steps, step);
    } else if step.Admit? {
      AdmitExtends(w, steps, step);
    } else {
      OtherTouchesNone(h, check, w, step);
      OtherExtends(w, NextWorld(h, check, w, step), steps, step);
    }
    ExtendsKeepsSources(w, NextWorld(h, check, w, step), steps, step);
  }

  lemma {:induction false} RunIsSourced(h: Hash, check: EmailCheck, start: World, steps: seq<WorldStep>)
    requires Sourced(start, []) && RunWorld(h, check, start, steps).Some?
    ensures Sourced(RunWorld(h, check, start, steps).value, steps)
  {
    hide Sourced;
    hide NextWorld;
    hide Possible;
    if steps != [] {
      var before, step := steps[..|steps| - 1], steps[|steps| - 1];
      RunIsSourced(h, check, start, before);
      StepIsSourced(h, check, RunWorld(h, check, start, before).value, before, step);
      assert before + [step] == steps;
    }
  }

  // ---------------------------------------------------------------- main result

  /** The request under `id` goes back to two steps of the run: the creation of a session, whose
      customer it reads, and the call that was let in on that session. */
  predicate Traced(w: World, steps: seq<WorldStep>, id: string, created: nat, asked: nat) {
    && id in w.sent && created < asked < w.sent[id].at && asked < |steps|
    && steps[created].CreateSession? && steps[created].id == w.sent[id].sessionId
    && steps[created].agentId == w.sent[id].agentId
    && w.sent[id].request == Get(steps[created].customerId)
    && steps[asked].Admit? && steps[asked].id == id
    && steps[asked].http.token.Sealed? && steps[asked].http.token.claims.sub == w.sent[id].sessionId
    && "tool:invoke" in steps[asked].http.principal.scopes && steps[asked].http.principal.tokenUse == "agent"
  }

  /** In every run under read-only manifests, each request sent to the CRM reads the customer that
      was named when its session was created for the same agent, and was asked for by a caller
      with the scope and an agent token who presented that session's own token. */
  lemma EveryRequestIsTraced(h: Hash, check: EmailCheck, settings: SessionTokens.Settings, agents: Agents, tools: Tools,
                             manifests: Manifests, customers: Customers, steps: seq<WorldStep>, id: string)
    requires ReadOnlyManifests(h, manifests)
    requires RunWorld(h, check, Start(settings, agents, tools, manifests, customers), steps).Some?
    requires id in RunWorld(h, check, Start(settings, agents, tools, manifests, customers), steps).value.sent
    ensures exists created, asked ::
      Traced(RunWorld(h, check, Start(settings, agents, tools, manifests, customers), steps).value, steps, id,
             created, asked)
  {
    hide RunWorld;
    hide ReadOnlyManifests;
    var start := Start(settings, agents, tools, manifests, customers);
    var w := RunWorld(h, check, start, steps).value;
    OnlyOwnReadsReachTheCrm(h, check, settings, agents, tools, manifests, customers, steps);
    assert Sourced(start, []);
    RunIsSourced(h, check, start, steps);
    SourcesMeet(w, steps, id);
  }

  lemma SourcesMeet(w: World, steps: seq<WorldStep>, id: string)
    requires Sourced(w, steps) && AdmissionsOk(w) && SendersOk(w) && id in w.sent && SentOk(w, w.sent[id])
    ensures exists created, asked :: Traced(w, steps, id, created, asked)
  {
    assert SentForAdmitted(w, id);
    var a := w.admitted[id];
    assert AdmissionOk(w, a);
    assert AdmissionSourced(w, steps, id) && SessionSourced(w, steps, w.sent[id].sessionId);
    assert Traced(w, steps, id, w.since[w.sent[id].sessionId], a.at);
  }
}
