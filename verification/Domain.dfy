/** Rows of the control-plane tables. Columns that no modelled code reads are left out. */
module Domain {
  import opened Wrappers
  import opened Json
  import opened UtcTime

  datatype AgentStatus = AgentActive | Suspended | Decommissioned

  datatype Agent = Agent(oidcSubject: string, status: AgentStatus)

  datatype ToolStatus = ToolActive | Disabled

  datatype Tool = Tool(name: string, status: ToolStatus, allowedOperations: seq<string>)

  datatype ManifestStatus = Draft | Active | Superseded | Revoked

  datatype Manifest = Manifest(
    agentId: string,
    version: int,
    status: ManifestStatus,
    document: Json,
    checksum: string,
    effectiveFrom: Stamp,
    expiresAt: Option<Stamp>,
    approvedBy: Option<string>,
    activatedAt: Option<Instant>)

  type Agents = map<string, Agent>
  type Tools = map<string, Tool>
  type Manifests = map<string, Manifest>

  datatype SessionStatus = SessionActive | SessionExpired | SessionRevoked

  datatype Session = Session(
    tokenJti: string,
    agentId: string,
    userId: string,
    customerId: string,
    createdBySubject: string,
    status: SessionStatus,
    createdAt: Instant,
    expiresAt: Instant,
    revokedAt: Option<Instant>)

  type Sessions = map<string, Session>

  /** The caller's context, as established by a session token and its row. Times are whole
      seconds. */
  datatype TrustedClaims = TrustedClaims(
    sessionId: string,
    tokenJti: string,
    agentId: string,
    userId: string,
    customerId: string,
    issuedAt: int,
    expiresAt: int)

  /** The partial unique index on permission_manifests. */
  predicate OneActive(manifests: Manifests) {
    forall m, n :: m in manifests && n in manifests && m != n
                   && manifests[m].status.Active? && manifests[n].status.Active?
                   ==> manifests[m].agentId != manifests[n].agentId
  }

  predicate IsActive(manifests: Manifests, agentId: string, id: string) {
    id in manifests && manifests[id].agentId == agentId && manifests[id].status.Active?
  }

  /** `ManifestRepository.get_active`: some active row of the agent; the index makes it the only one. */
  ghost function GetActive(manifests: Manifests, agentId: string): (r: Option<string>)
    ensures r.Some? ==> IsActive(manifests, agentId, r.value)
    ensures r.None? ==> forall id :: !IsActive(manifests, agentId, id)
  {
    if id :| IsActive(manifests, agentId, id) then Some(id) else None
  }

  lemma ActiveIsUnique(manifests: Manifests, agentId: string, id: string)
    requires OneActive(manifests) && IsActive(manifests, agentId, id)
    ensures GetActive(manifests, agentId) == Some(id)
  {
    assert !(GetActive(manifests, agentId).None?);
  }
}
