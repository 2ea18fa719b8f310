/**
 * Session safety over every interleaving. Session routes run on a thread pool, so validations
 * and revocations overlap: a validation decodes, reads the session row and reads the agent row
 * at three different moments, a revocation reads the row at one moment and writes it at
 * another. Creation holds the agent's row lock and is one step.
 */
module SessionRuns {
  import opened Wrappers
  import opened UtcTime
  import opened Domain
  import opened SessionTokens

  datatype Activity =
    | Decoded(claims: TrustedClaims, expected: string, beganAt: nat)
    | RowRead(claims: TrustedClaims, expected: string, beganAt: nat, readAt: nat)
    | Revoking(id: string, sawRevoked: bool, readAt: nat)

  datatype Success = Success(claims: TrustedClaims, expected: string, beganAt: nat)

  /** `moment` counts steps. `created` keeps every row as it was first stored, `revokedAt` the
      moment each row was first revoked, `outcomes` what validations ended in. */
  datatype State = State(
    settings: Settings,
    agents: Agents,
    sessions: Sessions,
    issued: set<Token>,
    active: map<nat, Activity>,
    moment: nat,
    created: Sessions,
    firstRevoked: map<string, nat>,
    successes: seq<Success>,
    failures: seq<SessionError>)

  datatype Step =
    | SetAgent(agentId: string, agent: Agent)
    | CreateSession(agentId: string, userId: string, customerId: string, creator: string, ttl: Option<int>,
                    now: Instant, id: string, jti: string)
    | BeginValidate(tid: nat, token: Token, expected: string, now: Instant)
    | ReadRow(tid: nat, now: Instant)
    | ReadAgent(tid: nat)
    | BeginRevoke(tid: nat, id: string)
    | WriteRevoke(tid: nat, now: Instant)

  /** Row ids and token ids are fresh; a sealed token is one that was issued. */
  predicate Enabled(s: State, step: Step) {
    match step
    case SetAgent(_, _) => true
    case CreateSession(_, _, _, _, _, _, id, jti) => id !in s.sessions && id != [] && jti != []
    case BeginValidate(tid, token, _, _) => tid !in s.active && (token.Sealed? ==> token in s.issued)
    case ReadRow(tid, _) => tid in s.active && s.active[tid].Decoded?
    case ReadAgent(tid) => tid in s.active && s.active[tid].RowRead? && s.active[tid].claims.sessionId in s.sessions
    case BeginRevoke(tid, _) => tid !in s.active
    case WriteRevoke(tid, _) => tid in s.active && s.active[tid].Revoking? && s.active[tid].id in s.sessions
  }

  function Fail(s: State, e: SessionError): State {
    s.(failures := s.failures + [e])
  }

  /** The revocation's update: unconditional once the read saw a row that was not revoked. */
  function RevokeWritten(s: State, a: Activity, now: Instant): State
    requires a.Revoking? && a.id in s.sessions
  {
    if a.sawRevoked then s
    else
      s.(sessions := s.sessions[a.id := s.sessions[a.id].(status := SessionRevoked, revokedAt := Some(now))],
         firstRevoked := if a.id in s.firstRevoked then s.firstRevoked else s.firstRevoked[a.id := s.moment])
  }

  function Next(s: State, step: Step): State
    requires Enabled(s, step)
  {
    var after :=
      match step
      case SetAgent(agentId, agent) => s.(agents := s.agents[agentId := agent])
      case CreateSession(agentId, userId, customerId, creator, ttl, now, id, jti) =>
        (match CreateError(s.settings, s.agents, agentId, ttl)
         case Some(e) => s
         case None =>
           var row := NewSession(agentId, userId, customerId, creator, RequestedTtl(s.settings, ttl), now, jti);
           s.(sessions := s.sessions[id := row], created := s.created[id := row],
              issued := s.issued + {Issue(s.settings, id, row)}))
      case BeginValidate(tid, token, expected, now) =>
        (match Decode(s.settings, token, now)
         case Err(e) => Fail(s, e)
         case Ok(claims) =>
           if claims.agentId != expected then Fail(s, AgentMismatch)
           else s.(active := s.active[tid := Decoded(claims, expected, s.moment)]))
      case ReadRow(tid, now) =>
        var a := s.active[tid];
        (match CheckRow(s.sessions, a.claims, now)
         case Some(e) => Fail(s, e).(active := s.active - {tid})
         case None => s.(active := s.active[tid := RowRead(a.claims, a.expected, a.beganAt, s.moment)]))
      case ReadAgent(tid) =>
        var a := s.active[tid];
        (match CheckAgent(s.agents, s.sessions[a.claims.sessionId].agentId)
         case Some(e) => Fail(s, e).(active := s.active - {tid})
         case None =>
           s.(active := s.active - {tid},
              successes := s.successes + [Success(a.claims, a.expected, a.beganAt)]))
      case BeginRevoke(tid, id) =>
        if id !in s.sessions then s
        else s.(active := s.active[tid := Revoking(id, s.sessions[id].status.SessionRevoked?, s.moment)])
      case WriteRevoke(tid, now) =>
        RevokeWritten(s, s.active[tid], now).(active := s.active - {tid});
    after.(moment := s.moment + 1)
  }

  function Initial(settings: Settings, agents: Agents): State {
    State(settings, agents, map[], {}, map[], 0, map[], map[], [], [])
  }

  function Run(settings: Settings, agents: Agents, steps: seq<Step>): Option<State> {
    if steps == [] then Some(Initial(settings, agents))
    else
      match Run(settings, agents, steps[..|steps| - 1])
      case None => None
      case Some(s) =>
        if Enabled(s, steps[|steps| - 1]) then Some(Next(s, steps[|steps| - 1])) else None
  }

  // ---------------------------------------------------------------- invariant

  /** Everything but status and revocation time is as it was stored. */
  predicate SameIdentity(row: Session, first: Session) {
    row.(status := first.status, revokedAt := first.revokedAt) == first
  }

  predicate ClaimsOf(s: State, claims: TrustedClaims) {
    && claims.sessionId in s.created
    && claims.tokenJti == s.created[claims.sessionId].tokenJti
    && claims.agentId == s.created[claims.sessionId].agentId
    && claims.userId == s.created[claims.sessionId].userId
    && claims.customerId == s.created[claims.sessionId].customerId
  }

  /** A validation that has read its row read it before the row was revoked. */
  predicate ReadBeforeRevoked(s: State, id: string, beganAt: nat, readAt: nat) {
    beganAt <= readAt < s.moment && (id in s.firstRevoked ==> readAt < s.firstRevoked[id])
  }

  predicate ActivityOk(s: State, a: Activity) {
    match a
    case Decoded(claims, expected, beganAt) => ClaimsOf(s, claims) && expected == claims.agentId && beganAt < s.moment
    case RowRead(claims, expected, beganAt, readAt) =>
      ClaimsOf(s, claims) && expected == claims.agentId && ReadBeforeRevoked(s, claims.sessionId, beganAt, readAt)
    case Revoking(id, sawRevoked, readAt) =>
      && id in s.sessions && readAt < s.moment
      && (sawRevoked <==> id in s.firstRevoked && s.firstRevoked[id] < readAt)
  }

  predicate SuccessOk(s: State, x: Success) {
    && ClaimsOf(s, x.claims)
    && x.expected == x.claims.agentId
    && x.beganAt < s.moment
    && (x.claims.sessionId in s.firstRevoked ==> x.beganAt < s.firstRevoked[x.claims.sessionId])
  }

  predicate RowOk(s: State, id: string) {
    && id in s.created && id in s.sessions
    && SameIdentity(s.sessions[id], s.created[id])
    && (s.sessions[id].status.SessionRevoked? <==> id in s.firstRevoked)
    && (s.sessions[id].status.SessionRevoked? <==> s.sessions[id].revokedAt.Some?)
    && (id in s.firstRevoked ==> s.firstRevoked[id] < s.moment)
  }

  predicate TokenOk(s: State, token: Token) {
    && token.Sealed?
    && token.claims.sub in s.created
    && token == Issue(s.settings, token.claims.sub, s.created[token.claims.sub])
  }

  predicate Invariant(s: State) {
    && s.created.Keys == s.sessions.Keys && s.firstRevoked.Keys <= s.sessions.Keys
    && (forall id :: id in s.sessions ==> RowOk(s, id))
    && (forall token :: token in s.issued ==> TokenOk(s, token))
    && (forall tid :: tid in s.active ==> ActivityOk(s, s.active[tid]))
    && (forall x :: x in s.successes ==> SuccessOk(s, x))
    && (forall e :: e in s.failures ==> !e.JtiMismatch? && !e.ClaimsMismatch?)
  }

  lemma DecodedClaims(s: State, token: Token, now: Instant)
    requires Invariant(s) && (token.Sealed? ==> token in s.issued)
    ensures Decode(s.settings, token, now).Ok? ==> ClaimsOf(s, Decode(s.settings, token, now).value)
    ensures Decode(s.settings, token, now).Err? ==>
      !Decode(s.settings, token, now).error.JtiMismatch? && !Decode(s.settings, token, now).error.ClaimsMismatch?
  {
    hide ActivityOk;
    hide SuccessOk;
    hide RowOk;
    if token.Sealed? {
      assert TokenOk(s, token);
    }
  }

  lemma RowCheckNeverMismatches(s: State, claims: TrustedClaims, now: Instant)
    requires Invariant(s) && ClaimsOf(s, claims)
    ensures CheckRow(s.sessions, claims, now) != Some(JtiMismatch)
    ensures CheckRow(s.sessions, claims, now) != Some(ClaimsMismatch)
    ensures CheckRow(s.sessions, claims, now) == None ==> claims.sessionId !in s.firstRevoked
  {
    hide ActivityOk;
    hide SuccessOk;
    hide TokenOk;
    assert RowOk(s, claims.sessionId);
  }

  /** Rows and tokens as they were, time moved on: what held still holds. */
  predicate SameRows(s: State, s': State) {
    && s'.settings == s.settings && s'.created == s.created && s'.sessions == s.sessions
    && s'.issued == s.issued && s'.firstRevoked == s.firstRevoked && s.moment <= s'.moment
  }

  lemma Carry(s: State, s': State)
    requires Invariant(s) && SameRows(s, s')
    ensures forall id :: id in s'.sessions ==> RowOk(s', id)
    ensures forall token :: token in s'.issued ==> TokenOk(s', token)
    ensures forall a :: ActivityOk(s, a) ==> ActivityOk(s', a)
    ensures forall x :: SuccessOk(s, x) ==> SuccessOk(s', x)
  {
    forall id | id in s'.sessions ensures RowOk(s', id) { assert RowOk(s, id); }
    forall token | token in s'.issued ensures TokenOk(s', token) { assert TokenOk(s, token); }
  }

  lemma DecodedOk(s: State, s': State, claims: TrustedClaims)
    requires SameRows(s, s') && s.moment < s'.moment && ClaimsOf(s, claims)
    ensures ActivityOk(s', Decoded(claims, claims.agentId, s.moment))
  {
  }

  lemma BeginValidateKeeps(s: State, step: Step)
    requires Invariant(s) && step.BeginValidate? && Enabled(s, step)
    ensures Invariant(Next(s, step))
  {
    hide Decode;
    hide RowOk;
    hide TokenOk;
    hide SuccessOk;
    hide ActivityOk;
    hide ClaimsOf;
    var s' := Next(s, step);
    DecodedClaims(s, step.token, step.now);
    Carry(s, s');
    if s'.active != s.active {
      DecodedOk(s, s', Decode(s.settings, step.token, step.now).value);
    }
  }

  lemma ReadRowKeeps(s: State, step: Step)
    requires Invariant(s) && step.ReadRow? && Enabled(s, step)
    ensures Invariant(Next(s, step))
  {
    hide CheckRow;
    hide RowOk;
    hide TokenOk;
    hide SuccessOk;
    var a := s.active[step.tid];
    assert ActivityOk(s, a);
    RowCheckNeverMismatches(s, a.claims, step.now);
    Carry(s, Next(s, step));
  }

  lemma ReadAgentKeeps(s: State, step: Step)
    requires Invariant(s) && step.ReadAgent? && Enabled(s, step)
    ensures Invariant(Next(s, step))
  {
    hide RowOk;
    hide TokenOk;
    assert ActivityOk(s, s.active[step.tid]);
    Carry(s, Next(s, step));
  }

  lemma BeginRevokeKeeps(s: State, step: Step)
    requires Invariant(s) && step.BeginRevoke? && Enabled(s, step)
    ensures Invariant(Next(s, step))
  {
    hide TokenOk;
    hide SuccessOk;
    if step.id in s.sessions {
      assert RowOk(s, step.id);
    }
    Carry(s, Next(s, step));
  }

  /** `s'` is `s` after a write revokes row `id`. */
  predicate RevokedIn(s: State, s': State, id: string, now: Instant) {
    && id in s.sessions
    && s'.sessions == s.sessions[id := s.sessions[id].(status := SessionRevoked, revokedAt := Some(now))]
    && s'.firstRevoked == (if id in s.firstRevoked then s.firstRevoked else s.firstRevoked[id := s.moment])
    && s'.settings == s.settings && s'.created == s.created && s'.issued == s.issued && s'.moment == s.moment + 1
  }

  /** It commits after every read so far, so it disturbs none of them. */
  lemma RevocationCarries(s: State, s': State, id: string, now: Instant)
    requires Invariant(s) && RevokedIn(s, s', id, now)
    ensures forall other :: other in s'.sessions ==> RowOk(s', other)
    ensures forall token :: token in s'.issued ==> TokenOk(s', token)
    ensures forall a :: ActivityOk(s, a) ==> ActivityOk(s', a)
    ensures forall x :: SuccessOk(s, x) ==> SuccessOk(s', x)
  {
    forall other | other in s'.sessions ensures RowOk(s', other) { assert RowOk(s, other); }
    forall token | token in s'.issued ensures TokenOk(s', token) { assert TokenOk(s, token); }
    forall a | ActivityOk(s, a) ensures ActivityOk(s', a) { RevocationCarriesActivity(s, s', id, now, a); }
  }

  lemma RevocationCarriesActivity(s: State, s': State, id: string, now: Instant, a: Activity)
    requires ActivityOk(s, a) && RevokedIn(s, s', id, now)
    ensures ActivityOk(s', a)
  {
  }

  lemma WriteRevokeKeeps(s: State, step: Step)
    requires Invariant(s) && step.WriteRevoke? && Enabled(s, step)
    ensures Invariant(Next(s, step))
  {
    hide RowOk;
    hide TokenOk;
    hide SuccessOk;
    hide ActivityOk;
    var a := s.active[step.tid];
    if a.sawRevoked {
      Carry(s, Next(s, step));
    } else {
      RevocationCarries(s, Next(s, step), a.id, step.now);
    }
  }

  /** A fresh row touches no claim, token or activity that exists. */
  lemma FreshRow(s: State, s': State, id: string, row: Session)
    requires Invariant(s) && id !in s.sessions && id !in s.created
    requires row.status.SessionActive? && row.revokedAt == None
    requires s'.sessions == s.sessions[id := row] && s'.created == s.created[id := row]
    requires s'.issued == s.issued + {Issue(s.settings, id, row)}
    requires s'.settings == s.settings && s'.firstRevoked == s.firstRevoked && s.moment <= s'.moment
    ensures forall other :: other in s'.sessions ==> RowOk(s', other)
    ensures forall token :: token in s'.issued ==> TokenOk(s', token)
    ensures forall a :: ActivityOk(s, a) ==> ActivityOk(s', a)
    ensures forall x :: SuccessOk(s, x) ==> SuccessOk(s', x)
  {
    forall other | other in s'.sessions ensures RowOk(s', other) {
      if other in s.sessions { assert RowOk(s, other); }
    }
    forall token | token in s'.issued ensures TokenOk(s', token) {
      if token in s.issued { assert TokenOk(s, token); }
    }
    forall a | ActivityOk(s, a) ensures ActivityOk(s', a) { FreshRowActivity(s, s', id, row, a); }
    forall x | SuccessOk(s, x) ensures SuccessOk(s', x) { }
  }

  lemma FreshRowActivity(s: State, s': State, id: string, row: Session, a: Activity)
    requires ActivityOk(s, a) && id !in s.created && id !in s.sessions
    requires s'.sessions == s.sessions[id := row] && s'.created == s.created[id := row]
    requires s'.firstRevoked == s.firstRevoked && s.moment <= s'.moment
    ensures ActivityOk(s', a)
  {
  }

  lemma CreateKeeps(s: State, step: Step)
    requires Invariant(s) && step.CreateSession? && Enabled(s, step)
    ensures Invariant(Next(s, step))
  {
    hide RowOk;
    hide TokenOk;
    hide SuccessOk;
    hide ActivityOk;
    hide CreateError;
    var s' := Next(s, step);
    if s'.sessions == s.sessions {
      Carry(s, s');
    } else {
      FreshRow(s, s', step.id, s'.sessions[step.id]);
    }
  }

  lemma StepKeepsInvariant(s: State, step: Step)
    requires Invariant(s) && Enabled(s, step)
    ensures Invariant(Next(s, step))
  {
    hide RowOk;
    hide TokenOk;
    hide SuccessOk;
    hide ActivityOk;
    match step
    case SetAgent(agentId, agent) => Carry(s, Next(s, step));
    case CreateSession(_, _, _, _, _, _, _, _) => CreateKeeps(s, step);
    case BeginValidate(_, _, _, _) => BeginValidateKeeps(s, step);
    case ReadRow(_, _) => ReadRowKeeps(s, step);
    case ReadAgent(_) => ReadAgentKeeps(s, step);
    case BeginRevoke(_, _) => BeginRevokeKeeps(s, step);
    case WriteRevoke(_, _) => WriteRevokeKeeps(s, step);
  }

  lemma {:induction false} RunKeepsInvariant(settings: Settings, agents: Agents, steps: seq<Step>)
    requires Run(settings, agents, steps).Some?
    ensures Invariant(Run(settings, agents, steps).value)
  {
    hide Next;
    hide Enabled;
    if steps != [] {
      var before := steps[..|steps| - 1];
      RunKeepsInvariant(settings, agents, before);
      StepKeepsInvariant(Run(settings, agents, before).value, steps[|steps| - 1]);
    }
  }

  // ---------------------------------------------------------------- main results

  /** Every successful validation returns the identity stored at creation, to the agent it was
      stored for, and began before any revocation of the session committed; a token that was
      issued is never reported replaced or mismatched. */
  lemma SessionsAreSafe(settings: Settings, agents: Agents, steps: seq<Step>)
    requires Run(settings, agents, steps).Some?
    ensures var s := Run(settings, agents, steps).value;
      && (forall x :: x in s.successes ==> SuccessOk(s, x))
      && (forall e :: e in s.failures ==> e != JtiMismatch && e != ClaimsMismatch)
      && (forall id :: id in s.sessions ==> RowOk(s, id))
  {
    hide Run;
    RunKeepsInvariant(settings, agents, steps);
  }

  lemma RowsUntouched(s: State, step: Step)
    requires Enabled(s, step) && !step.CreateSession? && !step.WriteRevoke?
    ensures Next(s, step).sessions == s.sessions && Next(s, step).firstRevoked == s.firstRevoked
  {
    hide Decode;
    hide CheckRow;
    hide CheckAgent;
    match step
    case SetAgent(_, _) =>
    case BeginValidate(_, _, _, _) =>
    case ReadRow(_, _) =>
    case ReadAgent(_) =>
    case BeginRevoke(_, _) =>
  }

  lemma CreateAddsRow(s: State, step: Step, other: string)
    requires Enabled(s, step) && step.CreateSession? && other in s.sessions
    ensures var s' := Next(s, step);
      other in s'.sessions && s'.sessions[other] == s.sessions[other] && s'.firstRevoked == s.firstRevoked
  {
    hide CreateError;
    hide NewSession;
    hide Issue;
  }

  /** No step un-revokes a session, and only a revocation's write can move its time. */
  lemma RevokedStaysRevoked(s: State, step: Step, id: string)
    requires Invariant(s) && Enabled(s, step) && id in s.firstRevoked
    ensures var s' := Next(s, step);
      && id in s'.sessions && s'.sessions[id].status.SessionRevoked?
      && id in s'.firstRevoked && s'.firstRevoked[id] == s.firstRevoked[id]
      && (s'.sessions[id].revokedAt != s.sessions[id].revokedAt ==>
            step.WriteRevoke? && s.active[step.tid].id == id)
  {
    hide ActivityOk;
    hide SuccessOk;
    hide TokenOk;
    hide SameIdentity;
    assert RowOk(s, id);
    match step
    case WriteRevoke(_, _) =>
    case CreateSession(_, _, _, _, _, _, _, _) =>
      CreateAddsRow(s, step, id);
    case _ =>
      RowsUntouched(s, step);
  }

  /** A later revocation keeps the first `revoked_at` exactly when it read the row after the
      first revocation committed, or happens to write the same time. */
  lemma LaterRevokeKeepsTimeIff(s: State, tid: nat, now: Instant)
    requires Invariant(s) && Enabled(s, WriteRevoke(tid, now)) && s.active[tid].id in s.firstRevoked
    ensures var id := s.active[tid].id;
      Next(s, WriteRevoke(tid, now)).sessions[id].revokedAt == s.sessions[id].revokedAt
      <==> s.firstRevoked[id] < s.active[tid].readAt || s.sessions[id].revokedAt == Some(now)
  {
    assert ActivityOk(s, s.active[tid]);
  }

  // ---------------------------------------------------------------- without overlap

  /** A revocation that nothing comes in between leaves the table the service's own method does. */
  lemma RevokeAloneIsRevoke(s: State, tid: nat, id: string, now: Instant)
    requires Enabled(s, BeginRevoke(tid, id)) && id in s.sessions
    ensures var s1 := Next(s, BeginRevoke(tid, id));
      && Enabled(s1, WriteRevoke(tid, now))
      && Next(s1, WriteRevoke(tid, now)).sessions == s.sessions[id := RevokedRow(s.sessions[id], now)]
      && Next(s1, WriteRevoke(tid, now)).active == s.active
  {
    var row := s.sessions[id];
    assert s.sessions[id := row] == s.sessions;
  }

  lemma BeginValidateDoes(s: State, tid: nat, token: Token, expected: string, now: Instant)
    requires Enabled(s, BeginValidate(tid, token, expected, now))
    ensures var s1, d := Next(s, BeginValidate(tid, token, expected, now)), Decode(s.settings, token, now);
      && s1.sessions == s.sessions && s1.agents == s.agents && s1.successes == s.successes
      && (if d.Err? then s1.active == s.active && s1.failures == s.failures + [d.error]
          else if d.value.agentId != expected then s1.active == s.active && s1.failures == s.failures + [AgentMismatch]
          else s1.active == s.active[tid := Decoded(d.value, expected, s.moment)] && s1.failures == s.failures)
  {
    hide Decode;
    hide CheckRow;
    hide CheckAgent;
    hide CreateError;
    hide RevokeWritten;
    hide NewSession;
    hide Issue;
    var d := Decode(s.settings, token, now);
    if d.Err? {
    } else if d.value.agentId != expected {
    } else {
    }
  }

  lemma ReadRowDoes(s: State, tid: nat, now: Instant)
    requires Enabled(s, ReadRow(tid, now))
    ensures var s1, a := Next(s, ReadRow(tid, now)), s.active[tid];
      var refused := CheckRow(s.sessions, a.claims, now);
      && s1.sessions == s.sessions && s1.agents == s.agents && s1.successes == s.successes
      && (if refused.Some? then tid !in s1.active && s1.failures == s.failures + [refused.value]
          else s1.active == s.active[tid := RowRead(a.claims, a.expected, a.beganAt, s.moment)]
               && s1.failures == s.failures)
  {
    hide CheckRow;
  }

  lemma ReadAgentDoes(s: State, tid: nat)
    requires Enabled(s, ReadAgent(tid))
    ensures var s1, a := Next(s, ReadAgent(tid)), s.active[tid];
      var refused := CheckAgent(s.agents, s.sessions[a.claims.sessionId].agentId);
      if refused.Some? then s1.successes == s.successes && s1.failures == s.failures + [refused.value]
      else s1.failures == s.failures && s1.successes == s.successes + [Success(a.claims, a.expected, a.beganAt)]
  {
    hide CheckAgent;
  }

  /** A validation that nothing comes in between ends as the service's own method does: with the
      same claims, or the same refusal, at whichever of its three moments. */
  lemma ValidateAloneIsValidate(s: State, tid: nat, token: Token, expected: string, now: Instant, later: Instant)
    requires Enabled(s, BeginValidate(tid, token, expected, now))
    ensures var r := Validate(s.settings, s.agents, s.sessions, token, expected, now, later);
      var s1 := Next(s, BeginValidate(tid, token, expected, now));
      if tid !in s1.active then r.Err? && s1.failures == s.failures + [r.error]
      else
        && Enabled(s1, ReadRow(tid, later))
        && var s2 := Next(s1, ReadRow(tid, later));
           if tid !in s2.active then r.Err? && s2.failures == s.failures + [r.error]
           else
             && Enabled(s2, ReadAgent(tid))
             && var s3 := Next(s2, ReadAgent(tid));
                if r.Ok? then s3.successes == s.successes + [Success(r.value, expected, s.moment)]
                else s3.failures == s.failures + [r.error]
  {
    hide Decode;
    hide CheckAgent;
    hide Next;
    BeginValidateDoes(s, tid, token, expected, now);
    var s1 := Next(s, BeginValidate(tid, token, expected, now));
    if tid in s1.active {
      ReadRowDoes(s1, tid, later);
      var s2 := Next(s1, ReadRow(tid, later));
      if tid in s2.active { ReadAgentDoes(s2, tid); }
    }
  }

  // ---------------------------------------------------------------- the first revocation's time

  /** Every prefix of a possible run is possible, and each step leads to the next state. */
  lemma {:induction false} RunPrefix(settings: Settings, agents: Agents, steps: seq<Step>, k: nat)
    requires Run(settings, agents, steps).Some? && k <= |steps|
    ensures Run(settings, agents, steps[..k]).Some?
    ensures Run(settings, agents, steps[..k]).value.moment == k
    ensures k < |steps| ==>
      && Enabled(Run(settings, agents, steps[..k]).value, steps[k])
      && Run(settings, agents, steps[..k + 1]) == Some(Next(Run(settings, agents, steps[..k]).value, steps[k]))
    decreases |steps|, |steps| - k
  {
    hide Enabled;
    hide Next;
    if k == |steps| {
      assert steps[..k] == steps;
      RunMoment(settings, agents, steps);
    } else if k == |steps| - 1 {
      RunMoment(settings, agents, steps[..k]);
      assert steps[..k + 1] == steps;
    } else {
      var before := steps[..|steps| - 1];
      RunPrefix(settings, agents, before, k);
      assert before[..k] == steps[..k] && before[..k + 1] == steps[..k + 1];
    }
  }

  lemma {:induction false} RunMoment(settings: Settings, agents: Agents, steps: seq<Step>)
    requires Run(settings, agents, steps).Some?
    ensures Run(settings, agents, steps).value.moment == |steps|
  {
    hide Enabled;
    hide Next;
    if steps != [] {
      var before := steps[..|steps| - 1];
      RunMoment(settings, agents, before);
      NextMoment(Run(settings, agents, before).value, steps[|steps| - 1]);
    }
  }

  lemma NextMoment(s: State, step: Step)
    requires Enabled(s, step)
    ensures Next(s, step).moment == s.moment + 1
  {
    hide Decode;
    hide CheckRow;
    hide CheckAgent;
    hide CreateError;
  }

  /** The write of a revocation of `id` that read the row before the first one committed. */
  predicate OverlappingWrite(s: State, step: Step, id: string) {
    && step.WriteRevoke? && step.tid in s.active && s.active[step.tid].Revoking?
    && s.active[step.tid].id == id
    && id in s.firstRevoked && s.active[step.tid].readAt <= s.firstRevoked[id]
  }

  /** At any position of any run, a recorded revocation time survives the step exactly when
      that step is no overlapping write of another time. */
  lemma RevocationTimeKeptIff(settings: Settings, agents: Agents, steps: seq<Step>, k: nat, id: string)
    requires Run(settings, agents, steps).Some? && k < |steps|
    requires Run(settings, agents, steps[..k]).Some? && Run(settings, agents, steps[..k + 1]).Some?
    requires id in Run(settings, agents, steps[..k]).value.firstRevoked
    ensures var s, s' := Run(settings, agents, steps[..k]).value, Run(settings, agents, steps[..k + 1]).value;
      && id in s.sessions && id in s'.sessions
      && id in s'.firstRevoked && s'.firstRevoked[id] == s.firstRevoked[id]
      && (s'.sessions[id].revokedAt == s.sessions[id].revokedAt
          <==> !(OverlappingWrite(s, steps[k], id) && Some(steps[k].now) != s.sessions[id].revokedAt))
  {
    hide Run;
    hide Next;
    RunPrefix(settings, agents, steps, k);
    RunKeepsInvariant(settings, agents, steps[..k]);
    var s := Run(settings, agents, steps[..k]).value;
    RevokedStaysRevoked(s, steps[k], id);
    if steps[k].WriteRevoke? && s.active[steps[k].tid].id == id {
      LaterRevokeKeepsTimeIff(s, steps[k].tid, steps[k].now);
      RevokingRead(s, s.active[steps[k].tid]);
    }
  }

  lemma RevokingRead(s: State, a: Activity)
    requires Invariant(s) && a.Revoking? && exists tid :: tid in s.active && s.active[tid] == a
    ensures a.id in s.firstRevoked ==> (a.sawRevoked <==> s.firstRevoked[a.id] < a.readAt)
  {
    assert ActivityOk(s, a);
  }

  /** The step the log names as a session's first revocation is a write to it, and its time is
      what the row then holds. */
  lemma {:induction false} FirstRevocation(settings: Settings, agents: Agents, steps: seq<Step>, id: string)
    requires Run(settings, agents, steps).Some? && id in Run(settings, agents, steps).value.firstRevoked
    ensures var p := Run(settings, agents, steps).value.firstRevoked[id];
      && p < |steps| && steps[p].WriteRevoke?
      && Run(settings, agents, steps[..p]).Some? && Run(settings, agents, steps[..p + 1]).Some?
      && id !in Run(settings, agents, steps[..p]).value.firstRevoked
      && var s := Run(settings, agents, steps[..p + 1]).value;
         id in s.firstRevoked && s.firstRevoked[id] == p
         && id in s.sessions && s.sessions[id].revokedAt == Some(steps[p].now)
  {
    hide Next;
    hide Enabled;
    var n := |steps| - 1;
    if steps == [] {
      assert false;
    } else {
      var before := steps[..n];
      var s := Run(settings, agents, before).value;
      RunMoment(settings, agents, before);
      RunKeepsInvariant(settings, agents, before);
      assert steps[..n + 1] == steps;
      if id in s.firstRevoked {
        FirstRevocation(settings, agents, before, id);
        RevokedStaysRevoked(s, steps[n], id);
        var p := s.firstRevoked[id];
        assert before[..p] == steps[..p] && before[..p + 1] == steps[..p + 1];
      } else {
        FirstWrite(s, steps[n], id);
      }
    }
  }

  lemma FirstWrite(s: State, step: Step, id: string)
    requires Invariant(s) && Enabled(s, step) && id !in s.firstRevoked && id in Next(s, step).firstRevoked
    ensures step.WriteRevoke? && Next(s, step).firstRevoked[id] == s.moment
    ensures id in Next(s, step).sessions && Next(s, step).sessions[id].revokedAt == Some(step.now)
  {
    hide RowOk;
    hide SuccessOk;
    hide TokenOk;
    hide ActivityOk;
    if step.CreateSession? {
      CreateKeepsRevoked(s, step);
    } else if !step.WriteRevoke? {
      RowsUntouched(s, step);
    }
  }

  lemma CreateKeepsRevoked(s: State, step: Step)
    requires Enabled(s, step) && step.CreateSession?
    ensures Next(s, step).firstRevoked == s.firstRevoked
  {
    hide CreateError;
    hide NewSession;
    hide Issue;
  }

  /** The row of `id` after the first `k` steps still holds the time its first revocation wrote. */
  predicate HoldsFirstTime(settings: Settings, agents: Agents, steps: seq<Step>, k: nat, id: string, first: Instant)
    requires k <= |steps|
  {
    var r := Run(settings, agents, steps[..k]);
    r.Some? && id in r.value.sessions && r.value.sessions[id].revokedAt == Some(first)
  }

  /** Step `k` overlaps the first revocation of `id` and carries another time. */
  predicate Overwrites(settings: Settings, agents: Agents, steps: seq<Step>, k: nat, id: string, first: Instant)
    requires k < |steps|
  {
    var r := Run(settings, agents, steps[..k]);
    r.Some? && OverlappingWrite(r.value, steps[k], id) && steps[k].now != first
  }

  /** Over every run: from its first revocation on, a session's row holds the time that
      revocation wrote exactly as long as no overlapping revocation writes another. */
  lemma FirstTimeKeptIff(settings: Settings, agents: Agents, steps: seq<Step>, id: string)
    requires Run(settings, agents, steps).Some? && id in Run(settings, agents, steps).value.firstRevoked
    ensures var p := Run(settings, agents, steps).value.firstRevoked[id];
      && p < |steps| && steps[p].WriteRevoke?
      && ((forall k: nat :: p < k <= |steps| ==> HoldsFirstTime(settings, agents, steps, k, id, steps[p].now))
          <==> (forall k: nat :: p < k < |steps| ==> !Overwrites(settings, agents, steps, k, id, steps[p].now)))
  {
    hide Run;
    hide OverlappingWrite;
    FirstRevocation(settings, agents, steps, id);
    var p := Run(settings, agents, steps).value.firstRevoked[id];
    var first := steps[p].now;
    if forall k: nat :: p < k < |steps| ==> !Overwrites(settings, agents, steps, k, id, first) {
      forall k: nat | p < k <= |steps| ensures HoldsFirstTime(settings, agents, steps, k, id, first) {
        FirstTimeUpTo(settings, agents, steps, id, p, k);
      }
    }
    if k: nat :| p < k < |steps| && Overwrites(settings, agents, steps, k, id, first) {
      if HoldsFirstTime(settings, agents, steps, k, id, first) {
        RevokedFrom(settings, agents, steps, id, p, k);
        RunPrefix(settings, agents, steps, k + 1);
        RevocationTimeKeptIff(settings, agents, steps, k, id);
        assert !HoldsFirstTime(settings, agents, steps, k + 1, id, first);
      }
    }
  }

  /** Once revoked, revoked at every later prefix, with the same first moment. */
  lemma {:induction false} RevokedFrom(settings: Settings, agents: Agents, steps: seq<Step>, id: string, p: nat, k: nat)
    requires Run(settings, agents, steps).Some? && p < k <= |steps|
    requires Run(settings, agents, steps[..p + 1]).Some?
    requires id in Run(settings, agents, steps[..p + 1]).value.firstRevoked
    ensures Run(settings, agents, steps[..k]).Some? && id in Run(settings, agents, steps[..k]).value.firstRevoked
    decreases k
  {
    hide Run;
    RunPrefix(settings, agents, steps, k);
    if k > p + 1 {
      RevokedFrom(settings, agents, steps, id, p, k - 1);
      RevocationTimeKeptIff(settings, agents, steps, k - 1, id);
    }
  }

  lemma {:induction false} FirstTimeUpTo(settings: Settings, agents: Agents, steps: seq<Step>, id: string,
                                         p: nat, k: nat)
    requires Run(settings, agents, steps).Some? && p < k <= |steps| && steps[p].WriteRevoke?
    requires HoldsFirstTime(settings, agents, steps, p + 1, id, steps[p].now)
    requires id in Run(settings, agents, steps[..p + 1]).value.firstRevoked
    requires forall j: nat :: p < j < |steps| ==> !Overwrites(settings, agents, steps, j, id, steps[p].now)
    ensures HoldsFirstTime(settings, agents, steps, k, id, steps[p].now)
    decreases k
  {
    hide Run;
    hide OverlappingWrite;
    if k > p + 1 {
      FirstTimeUpTo(settings, agents, steps, id, p, k - 1);
      RevokedFrom(settings, agents, steps, id, p, k - 1);
      RunPrefix(settings, agents, steps, k);
      RevocationTimeKeptIff(settings, agents, steps, k - 1, id);
      assert !Overwrites(settings, agents, steps, k - 1, id, steps[p].now);
    }
  }

  lemma RunExtends(settings: Settings, agents: Agents, steps: seq<Step>, step: Step)
    requires Run(settings, agents, steps).Some? && Enabled(Run(settings, agents, steps).value, step)
    ensures Run(settings, agents, steps + [step]) == Some(Next(Run(settings, agents, steps).value, step))
  {
    assert (steps + [step])[..|steps|] == steps;
  }

  /** Two revocations that both read the row before either writes: the second overwrites the
      time the first recorded. */
  lemma OverlappingRevokesOverwrite(settings: Settings) returns (steps: seq<Step>)
    requires ValidSettings(settings)
    ensures var agents := map["a" := Agent("subject", AgentActive)];
      && |steps| == 5
      && Run(settings, agents, steps[..4]).Some? && Run(settings, agents, steps).Some?
      && "s" in Run(settings, agents, steps[..4]).value.sessions && "s" in Run(settings, agents, steps).value.sessions
      && Run(settings, agents, steps[..4]).value.sessions["s"].revokedAt == Some(5)
      && Run(settings, agents, steps).value.sessions["s"].revokedAt == Some(9)
  {
    hide Run;
    var agents := map["a" := Agent("subject", AgentActive)];
    var create := CreateSession("a", "u", "c", "host", None, 0, "s", "j");
    var s0 := Initial(settings, agents);
    assert Run(settings, agents, []) == Some(s0) by { RunFromNothing(settings, agents); }
    RunExtends(settings, agents, [], create);
    var s1 := Next(s0, create);
    RunExtends(settings, agents, [] + [create], BeginRevoke(1, "s"));
    var s2 := Next(s1, BeginRevoke(1, "s"));
    RunExtends(settings, agents, [] + [create] + [BeginRevoke(1, "s")], BeginRevoke(2, "s"));
    var s3 := Next(s2, BeginRevoke(2, "s"));
    var three := [] + [create] + [BeginRevoke(1, "s")] + [BeginRevoke(2, "s")];
    RunExtends(settings, agents, three, WriteRevoke(1, 5));
    var s4 := Next(s3, WriteRevoke(1, 5));
    RunExtends(settings, agents, three + [WriteRevoke(1, 5)], WriteRevoke(2, 9));
    steps := three + [WriteRevoke(1, 5)] + [WriteRevoke(2, 9)];
    assert steps[..4] == three + [WriteRevoke(1, 5)];
  }

  lemma RunFromNothing(settings: Settings, agents: Agents)
    ensures Run(settings, agents, []) == Some(Initial(settings, agents))
  {
  }
}
