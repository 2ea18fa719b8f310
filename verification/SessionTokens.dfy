/** Trusted sessions: tokens, rows, and the service over them. */
module SessionTokens {
  import opened Wrappers
  import opened UtcTime
  import opened Domain

  /** The settings the codec and the service read. */
  datatype Settings = Settings(issuer: string, audience: string, ttlSeconds: int)

  predicate ValidSettings(c: Settings) {
    60 <= c.ttlSeconds <= 3600
  }

  /** The claims of a session token; times are whole seconds. */
  datatype TokenClaims = TokenClaims(
    iss: string, aud: string, sub: string, jti: string, tokenUse: string,
    agentId: string, userId: string, customerId: string, iat: int, nbf: int, exp: int)

  /** A bearer string: sealed with the signing secret, or anything else. */
  datatype Token = Sealed(claims: TokenClaims) | Forged(text: string)

  datatype SessionError =
    | InvalidTtl | AgentNotFound | AgentNotActive
    | TokenExpired | InvalidToken | InvalidTokenUse
    | AgentMismatch | SessionNotFound | JtiMismatch | SessionNotActive | SessionRowExpired | ClaimsMismatch

  /** `SessionTokenCodec.issue` */
  function Issue(c: Settings, id: string, row: Session): Token {
    Sealed(TokenClaims(c.issuer, c.audience, id, row.tokenJti, "agent_session", row.agentId, row.userId, row.customerId,
                       FloorSeconds(row.createdAt), FloorSeconds(row.createdAt), FloorSeconds(row.expiresAt)))
  }

  predicate NonEmpty(values: seq<string>) {
    forall i :: 0 <= i < |values| ==> values[i] != []
  }

  /** `SessionTokenCodec.decode`: signature, then issue and expiry times without leeway, then
      issuer, audience, use, and five claims that must not be empty. */
  function Decode(c: Settings, token: Token, now: Instant): Result<TrustedClaims, SessionError> {
    if token.Forged? then Err(InvalidToken)
    else
      var k := token.claims;
      if k.iat * SECOND > now || k.nbf * SECOND > now then Err(InvalidToken)
      else if k.exp * SECOND <= now then Err(TokenExpired)
      else if k.iss != c.issuer || k.aud != c.audience then Err(InvalidToken)
      else if k.tokenUse != "agent_session" then Err(InvalidTokenUse)
      else if !NonEmpty([k.sub, k.jti, k.agentId, k.userId, k.customerId]) then Err(InvalidToken)
      else Ok(TrustedClaims(k.sub, k.jti, k.agentId, k.userId, k.customerId, k.iat, k.exp))
  }

  /** The checks on the session row, in order. */
  function CheckRow(sessions: Sessions, claims: TrustedClaims, now: Instant): Option<SessionError> {
    if claims.sessionId !in sessions then Some(SessionNotFound)
    else
      var row := sessions[claims.sessionId];
      if row.tokenJti != claims.tokenJti then Some(JtiMismatch)
      else if !row.status.SessionActive? then Some(SessionNotActive)
      else if row.expiresAt <= now then Some(SessionRowExpired)
      else if row.agentId != claims.agentId || row.userId != claims.userId || row.customerId != claims.customerId then
        Some(ClaimsMismatch)
      else None
  }

  function CheckAgent(agents: Agents, agentId: string): Option<SessionError> {
    if agentId !in agents || !agents[agentId].status.AgentActive? then Some(AgentNotActive) else None
  }

  /** `validate`: `now` is read while decoding, `later` while checking the row. */
  function Validate(c: Settings, agents: Agents, sessions: Sessions, token: Token, expected: string,
                    now: Instant, later: Instant): Result<TrustedClaims, SessionError>
  {
    match Decode(c, token, now)
    case Err(e) => Err(e)
    case Ok(claims) =>
      if claims.agentId != expected then Err(AgentMismatch)
      else
        match CheckRow(sessions, claims, later)
        case Some(e) => Err(e)
        case None =>
          match CheckAgent(agents, sessions[claims.sessionId].agentId)
          case Some(e) => Err(e)
          case None => Ok(claims)
  }

  function NewSession(agentId: string, userId: string, customerId: string, creator: string, ttl: int, now: Instant,
                      jti: string): Session
  {
    Session(jti, agentId, userId, customerId, creator, SessionActive, now, now + ttl * SECOND, None)
  }

  function RequestedTtl(c: Settings, ttl: Option<int>): int {
    match ttl
    case None => c.ttlSeconds
    case Some(t) => t
  }

  /** Why `create` refuses, if it does. */
  function CreateError(c: Settings, agents: Agents, agentId: string, ttl: Option<int>): Option<SessionError> {
    if RequestedTtl(c, ttl) < 60 || RequestedTtl(c, ttl) > c.ttlSeconds then Some(InvalidTtl)
    else if agentId !in agents then Some(AgentNotFound)
    else if !agents[agentId].status.AgentActive? then Some(AgentNotActive)
    else None
  }

  function RevokedRow(row: Session, now: Instant): Session {
    if row.status.SessionRevoked? then row else row.(status := SessionRevoked, revokedAt := Some(now))
  }

  /** The row `create` stores, column by column. */
  predicate StoredFor(row: Session, agentId: string, userId: string, customerId: string, creator: string, ttl: int,
                      now: Instant, jti: string)
  {
    && row.tokenJti == jti && row.agentId == agentId && row.userId == userId && row.customerId == customerId
    && row.createdBySubject == creator && row.status.SessionActive? && row.revokedAt == None
    && row.createdAt == now && row.expiresAt == now + ttl * SECOND
  }

  /** Its token, claim by claim. */
  predicate TokenFor(c: Settings, token: Token, id: string, row: Session) {
    && token.Sealed?
    && var k := token.claims;
       && k.iss == c.issuer && k.aud == c.audience && k.sub == id && k.jti == row.tokenJti
       && k.tokenUse == "agent_session" && k.agentId == row.agentId && k.userId == row.userId
       && k.customerId == row.customerId
       && k.iat * SECOND <= row.createdAt < (k.iat + 1) * SECOND && k.nbf == k.iat
       && k.exp * SECOND <= row.expiresAt < (k.exp + 1) * SECOND
  }

  /** When `create` refuses, and what with. */
  lemma CreateErrorExact(c: Settings, agents: Agents, agentId: string, ttl: Option<int>)
    ensures var asked := if ttl.Some? then ttl.value else c.ttlSeconds;
      && asked == RequestedTtl(c, ttl)
      && (CreateError(c, agents, agentId, ttl) == Some(InvalidTtl) <==> !(60 <= asked <= c.ttlSeconds))
      && (CreateError(c, agents, agentId, ttl) == Some(AgentNotFound)
          <==> 60 <= asked <= c.ttlSeconds && agentId !in agents)
      && (CreateError(c, agents, agentId, ttl) == Some(AgentNotActive)
          <==> 60 <= asked <= c.ttlSeconds && agentId in agents && !agents[agentId].status.AgentActive?)
      && (CreateError(c, agents, agentId, ttl) == None
          <==> 60 <= asked <= c.ttlSeconds && agentId in agents && agents[agentId].status.AgentActive?)
  {
  }

  /** The row after a revocation: revoked at `now`, unless it was revoked already. */
  predicate RevokedFrom(before: Session, after: Session, now: Instant) {
    && after.status.SessionRevoked?
    && after.revokedAt == (if before.status.SessionRevoked? then before.revokedAt else Some(now))
    && after.tokenJti == before.tokenJti && after.agentId == before.agentId && after.userId == before.userId
    && after.customerId == before.customerId && after.createdBySubject == before.createdBySubject
    && after.createdAt == before.createdAt && after.expiresAt == before.expiresAt
  }

  class TrustedSessionService {
    const settings: Settings
    var agents: Agents
    var sessions: Sessions

    constructor (settings: Settings, agents: Agents)
      ensures this.settings == settings && this.agents == agents && sessions == map[]
    {
      this.settings, this.agents, sessions := settings, agents, map[];
    }

    /** Stores the row and returns its token; a refusal stores nothing. */
    method Create(agentId: string, userId: string, customerId: string, creator: string, ttl: Option<int>, now: Instant,
                  id: string, jti: string) returns (r: Result<Token, SessionError>)
      requires id !in sessions
      modifies this`sessions
      ensures match CreateError(settings, agents, agentId, ttl)
        case Some(e) => r == Err(e) && sessions == old(sessions)
        case None =>
          var row := NewSession(agentId, userId, customerId, creator, RequestedTtl(settings, ttl), now, jti);
          sessions == old(sessions)[id := row] && r == Ok(Issue(settings, id, row))
      ensures r.Ok? ==>
        && id in sessions && sessions == old(sessions)[id := sessions[id]]
        && TokenFor(settings, r.value, id, sessions[id])
        && StoredFor(sessions[id], agentId, userId, customerId, creator, RequestedTtl(settings, ttl), now, jti)
    {
      var requested := RequestedTtl(settings, ttl);
      if requested < 60 || requested > settings.ttlSeconds {
        return Err(InvalidTtl);
      }
      if agentId !in agents {
        return Err(AgentNotFound);
      }
      if !agents[agentId].status.AgentActive? {
        return Err(AgentNotActive);
      }
      var row := NewSession(agentId, userId, customerId, creator, requested, now, jti);
      sessions := sessions[id := row];
      r := Ok(Issue(settings, id, row));
    }

    method ValidateToken(token: Token, expected: string, now: Instant, later: Instant)
      returns (r: Result<TrustedClaims, SessionError>)
      ensures r == Validate(settings, agents, sessions, token, expected, now, later)
    {
      var decoded := Decode(settings, token, now);
      if decoded.Err? {
        return Err(decoded.error);
      }
      var claims := decoded.value;
      if claims.agentId != expected {
        return Err(AgentMismatch);
      }
      var refused := CheckRow(sessions, claims, later);
      if refused.Some? {
        return Err(refused.value);
      }
      var inactive := CheckAgent(agents, sessions[claims.sessionId].agentId);
      if inactive.Some? {
        return Err(inactive.value);
      }
      r := decoded;
    }

    method Revoke(id: string, now: Instant) returns (r: Result<Session, SessionError>)
      modifies this`sessions
      ensures if id in old(sessions)
        then sessions == old(sessions)[id := RevokedRow(old(sessions)[id], now)] && r == Ok(sessions[id])
        else sessions == old(sessions) && r == Err(SessionNotFound)
      ensures r.Ok? ==>
        && id in old(sessions) && sessions.Keys == old(sessions).Keys && r.value == sessions[id]
        && RevokedFrom(old(sessions)[id], sessions[id], now)
        && forall other :: other in sessions && other != id ==> sessions[other] == old(sessions)[other]
    {
      if id !in sessions {
        return Err(SessionNotFound);
      }
      var row := sessions[id];
      if !row.status.SessionRevoked? {
        row := row.(status := SessionRevoked, revokedAt := Some(now));
        sessions := sessions[id := row];
      }
      assert sessions == old(sessions)[id := row];
      r := Ok(row);
    }
  }

  // ---------------------------------------------------------------- the time window

  predicate Named(agentId: string, userId: string, customerId: string) {
    agentId != [] && userId != [] && customerId != []
  }

  lemma NonEmptyFive(a: string, b: string, c: string, d: string, e: string)
    ensures NonEmpty([a, b, c, d, e]) <==> a != [] && b != [] && c != [] && d != [] && e != []
  {
    var values := [a, b, c, d, e];
    assert values[0] == a && values[1] == b && values[2] == c && values[3] == d && values[4] == e;
  }

  /** The token of an unedited row is accepted exactly when the decoding clock reads at or
      after the floor of the creation time and before the floor of the expiry, the later
      reading is before the row's own expiry, the caller is the session's agent, that agent is
      active, the row is active, and no identifier is empty. */
  lemma ValidateExact(c: Settings, agents: Agents, sessions: Sessions, id: string, expected: string,
                      now: Instant, later: Instant)
    requires id in sessions && id != [] && sessions[id].tokenJti != []
    ensures var row := sessions[id];
      var r := Validate(c, agents, sessions, Issue(c, id, row), expected, now, later);
      r.Ok? <==>
        && FloorSeconds(row.createdAt) * SECOND <= now < FloorSeconds(row.expiresAt) * SECOND
        && later < row.expiresAt
        && row.agentId == expected
        && row.status.SessionActive?
        && row.agentId in agents && agents[row.agentId].status.AgentActive?
        && Named(row.agentId, row.userId, row.customerId)
  {
    var row := sessions[id];
    hide NonEmpty;
    NonEmptyFive(id, row.tokenJti, row.agentId, row.userId, row.customerId);
  }

  // ---------------------------------------------------------------- any token at all

  const CHECKS: nat := 13

  /** Check `k` of a validation. */
  predicate Passes(k: nat, c: Settings, agents: Agents, sessions: Sessions, token: Token, expected: string,
                   now: Instant, later: Instant)
  {
    token.Sealed? &&
    var t := token.claims;
    if k == 0 then true
    else if k == 1 then t.iat * SECOND <= now && t.nbf * SECOND <= now
    else if k == 2 then now < t.exp * SECOND
    else if k == 3 then t.iss == c.issuer && t.aud == c.audience
    else if k == 4 then t.tokenUse == "agent_session"
    else if k == 5 then t.sub != [] && t.jti != [] && t.agentId != [] && t.userId != [] && t.customerId != []
    else if k == 6 then t.agentId == expected
    else if t.sub !in sessions then false
    else
      var row := sessions[t.sub];
      if k == 7 then true
      else if k == 8 then row.tokenJti == t.jti
      else if k == 9 then row.status.SessionActive?
      else if k == 10 then later < row.expiresAt
      else if k == 11 then row.agentId == t.agentId && row.userId == t.userId && row.customerId == t.customerId
      else row.agentId in agents && agents[row.agentId].status.AgentActive?
  }

  /** What each check is answered with when it fails first. */
  function Refusal(k: nat): SessionError {
    if k == 2 then TokenExpired
    else if k == 4 then InvalidTokenUse
    else if k < 6 then InvalidToken
    else if k == 6 then AgentMismatch
    else if k == 7 then SessionNotFound
    else if k == 8 then JtiMismatch
    else if k == 9 then SessionNotActive
    else if k == 10 then SessionRowExpired
    else if k == 11 then ClaimsMismatch
    else AgentNotActive
  }

  ghost predicate FailsFirst(k: nat, c: Settings, agents: Agents, sessions: Sessions, token: Token, expected: string,
                             now: Instant, later: Instant)
  {
    && k < CHECKS && !Passes(k, c, agents, sessions, token, expected, now, later)
    && forall j: nat :: j < k ==> Passes(j, c, agents, sessions, token, expected, now, later)
  }

  /** Any token whatever is accepted exactly when it passes all thirteen checks, and then the
      answer is its own claims; otherwise the answer names the first check it fails. */
  lemma ValidateReasons(c: Settings, agents: Agents, sessions: Sessions, token: Token, expected: string,
                        now: Instant, later: Instant)
    ensures var r := Validate(c, agents, sessions, token, expected, now, later);
      && (r.Ok? <==> forall k: nat :: k < CHECKS ==> Passes(k, c, agents, sessions, token, expected, now, later))
      && (r.Ok? ==>
            var t := token.claims;
            r.value == TrustedClaims(t.sub, t.jti, t.agentId, t.userId, t.customerId, t.iat, t.exp))
      && (r.Err? ==> exists k :: FailsFirst(k, c, agents, sessions, token, expected, now, later)
                                 && r.error == Refusal(k))
  {
    hide NonEmpty;
    if token.Forged? {
      assert FailsFirst(0, c, agents, sessions, token, expected, now, later);
    } else {
      var t := token.claims;
      NonEmptyFive(t.sub, t.jti, t.agentId, t.userId, t.customerId);
      var k :=
        if t.iat * SECOND > now || t.nbf * SECOND > now then 1
        else if t.exp * SECOND <= now then 2
        else if t.iss != c.issuer || t.aud != c.audience then 3
        else if t.tokenUse != "agent_session" then 4
        else if t.sub == [] || t.jti == [] || t.agentId == [] || t.userId == [] || t.customerId == [] then 5
        else if t.agentId != expected then 6
        else if t.sub !in sessions then 7
        else if sessions[t.sub].tokenJti != t.jti then 8
        else if !sessions[t.sub].status.SessionActive? then 9
        else if sessions[t.sub].expiresAt <= later then 10
        else if sessions[t.sub].agentId != t.agentId || sessions[t.sub].userId != t.userId
                || sessions[t.sub].customerId != t.customerId then 11
        else if t.agentId !in agents || !agents[t.agentId].status.AgentActive? then 12
        else CHECKS;
      if k < CHECKS { assert FailsFirst(k, c, agents, sessions, token, expected, now, later); }
    }
  }

  /** With one clock reading, from creation on: the window is [c, floor(c + t)), longer than
      t - 1 seconds and over before the row expires. */
  lemma SessionWindow(c: Settings, agents: Agents, sessions: Sessions, id: string, row: Session, ttl: int, now: Instant)
    requires id in sessions && id != [] && sessions[id] == row && row.tokenJti != []
    requires row == NewSession(row.agentId, row.userId, row.customerId, row.createdBySubject, ttl, row.createdAt,
                               row.tokenJti)
    requires Named(row.agentId, row.userId, row.customerId)
    requires row.agentId in agents && agents[row.agentId].status.AgentActive?
    requires row.createdAt <= now
    ensures var end := FloorSeconds(row.createdAt + ttl * SECOND) * SECOND;
      && (Validate(c, agents, sessions, Issue(c, id, row), row.agentId, now, now).Ok? <==> now < end)
      && row.createdAt + (ttl - 1) * SECOND < end <= row.expiresAt
  {
    ValidateExact(c, agents, sessions, id, row.agentId, now, now);
  }

  /** A second revocation changes nothing. */
  lemma RevokeTwice(row: Session, now: Instant, later: Instant)
    ensures RevokedRow(RevokedRow(row, now), later) == RevokedRow(row, now)
    ensures RevokedRow(row, now).status.SessionRevoked?
  {
  }
}
