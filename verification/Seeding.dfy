/**
 * `seed_phase_1`: one transaction that inserts what is missing, refuses what differs, and
 * activates the seeded manifest if it is still a draft. Any error rolls everything back.
 */
module Seeding {
  import opened Wrappers
  import opened Json
  import opened UtcTime
  import opened AuditEvents
  import opened Domain
  import opened Policy
  import opened Crm
  import opened Activation

  const SEED_AGENT_ID := "agent_support_001"
  const SEED_SUBJECT := "dev:agent_support_001"
  const SEED_TOOL_ID := "tool_crm_001"
  const SEED_MANIFEST_ID := "support-agent-readonly-v1"
  const SEED_USER := "phase-1-seed"

  const CUSTOMER_SCOPE: Json :=
    Obj([Field("type", Str("session_value_equals_parameter")),
         Field("session_claim", Str("customer_id")),
         Field("parameter", Str("customer_id"))])

  const READ_RULE: Json :=
    Obj([Field("parameter_schema",
               Obj([Field("required", Arr([Str("customer_id")])),
                    Field("properties", Obj([Field("customer_id", Obj([Field("type", Str("string"))]))]))])),
         Field("data_scope", Obj([Field("all", Arr([CUSTOMER_SCOPE]))]))])

  const CRM_PERMISSION: Json :=
    Obj([Field("allowed_operations", Arr([Str("read_customer")])),
         Field("operation_rules", Obj([Field("read_customer", READ_RULE)]))])

  const READ_ONLY_MANIFEST: Json :=
    Obj([Field("schema_version", Str("1.0")),
         Field("manifest_id", Str(SEED_MANIFEST_ID)),
         Field("agent_id", Str(SEED_AGENT_ID)),
         Field("tools", Obj([Field("crm", CRM_PERMISSION)])),
         Field("deny_message", Str("This operation is not permitted for the current agent and session."))])

  /** 2026-01-01T00:00:00Z, which is 739616 days after 0001-01-01. */
  const SEED_EFFECTIVE: Instant := 739_616 * DAY

  datatype CustomerRow = CustomerRow(id: string, data: Customer)

  const SEED_CUSTOMERS: seq<CustomerRow> := [
    CustomerRow("customer_1001", Customer("Asha Rao", "asha.rao@example.invalid", "gold",
                                          "101 Synthetic Avenue, Bengaluru")),
    CustomerRow("customer_1002", Customer("Vikram Shah", "vikram.shah@example.invalid", "silver",
                                          "202 Demonstration Road, Pune")),
    CustomerRow("customer_1003", Customer("Meera Nair", "meera.nair@example.invalid", "standard",
                                          "303 Example Street, Kochi"))]

  datatype Tables = Tables(agents: Agents, tools: Tools, manifests: Manifests, customers: Customers)

  datatype Summary = Summary(agents: nat, tools: nat, manifests: nat, customers: nat, activeManifestId: string)

  /** A row that differs from the seed, a unique constraint, or a failed activation. */
  datatype SeedError = SeedConflict(what: string) | IntegrityError | NotActivated(error: ActivationError)

  // ---------------------------------------------------------------- the steps

  const SEED_AGENT := Agent(SEED_SUBJECT, AgentActive)

  const SEED_TOOL := Tool("crm", ToolActive, ["read_customer", "write_customer", "delete_customer"])

  function SeedManifest(h: Hash): Manifest {
    Manifest(SEED_AGENT_ID, 1, Draft, READ_ONLY_MANIFEST, Checksum(h, READ_ONLY_MANIFEST),
             Stamp(SEED_EFFECTIVE, Some(0)), None, None, None)
  }

  predicate SubjectTaken(agents: Agents) {
    exists id :: id in agents && agents[id].oidcSubject == SEED_SUBJECT
  }

  predicate ToolNameTaken(tools: Tools) {
    exists id :: id in tools && tools[id].name == "crm"
  }

  predicate VersionTaken(manifests: Manifests) {
    exists id :: id in manifests && manifests[id].agentId == SEED_AGENT_ID && manifests[id].version == 1
  }

  function WithAgent(agents: Agents): Result<Agents, SeedError> {
    if SEED_AGENT_ID in agents then
      if agents[SEED_AGENT_ID].oidcSubject == SEED_SUBJECT then Ok(agents) else Err(SeedConflict("OIDC subject"))
    else if SubjectTaken(agents) then Err(IntegrityError)
    else Ok(agents[SEED_AGENT_ID := SEED_AGENT])
  }

  function WithTool(tools: Tools): Result<Tools, SeedError> {
    if SEED_TOOL_ID in tools then
      if tools[SEED_TOOL_ID].name == "crm" then Ok(tools) else Err(SeedConflict("tool name"))
    else if ToolNameTaken(tools) then Err(IntegrityError)
    else Ok(tools[SEED_TOOL_ID := SEED_TOOL])
  }

  function WithManifest(h: Hash, manifests: Manifests): Result<Manifests, SeedError> {
    if SEED_MANIFEST_ID in manifests then
      if manifests[SEED_MANIFEST_ID].checksum == Checksum(h, READ_ONLY_MANIFEST) then Ok(manifests)
      else Err(SeedConflict("manifest checksum"))
    else if VersionTaken(manifests) then Err(IntegrityError)
    else Ok(manifests[SEED_MANIFEST_ID := SeedManifest(h)])
  }

  function WithCustomers(customers: Customers, rows: seq<CustomerRow>): Result<Customers, SeedError>
    decreases rows
  {
    if rows == [] then Ok(customers)
    else if rows[0].id !in customers then WithCustomers(customers[rows[0].id := rows[0].data], rows[1..])
    else if customers[rows[0].id].name == rows[0].data.name then WithCustomers(customers, rows[1..])
    else Err(SeedConflict("customer name"))
  }

  ghost function WithActivation(manifests: Manifests, agents: Agents, now: Instant): Result<Manifests, SeedError>
    requires SEED_MANIFEST_ID in manifests
  {
    if !manifests[SEED_MANIFEST_ID].status.Draft? then Ok(manifests)
    else
      match ActivateAlone(manifests, agents, SEED_MANIFEST_ID, SEED_USER, now)
      case Ok(after) => Ok(after)
      case Err(e) => Err(NotActivated(e))
  }

  /** What the whole transaction commits, or the error it ends with. */
  ghost function Seeded(h: Hash, t: Tables, now: Instant): Result<Tables, SeedError> {
    match WithAgent(t.agents)
    case Err(e) => Err(e)
    case Ok(agents) =>
      match WithTool(t.tools)
      case Err(e) => Err(e)
      case Ok(tools) =>
        match WithManifest(h, t.manifests)
        case Err(e) => Err(e)
        case Ok(manifests) =>
          match WithCustomers(t.customers, SEED_CUSTOMERS)
          case Err(e) => Err(e)
          case Ok(customers) =>
            match WithActivation(manifests, agents, now)
            case Err(e) => Err(e)
            case Ok(active) => Ok(Tables(agents, tools, active, customers))
  }

  function SummaryOf(t: Tables): Summary {
    Summary(|t.agents|, |t.tools|, |t.manifests|, |t.customers|, SEED_MANIFEST_ID)
  }

  // ---------------------------------------------------------------- the transaction

  class SeedDatabase {
    var agents: Agents
    var tools: Tools
    var manifests: Manifests
    var customers: Customers

    ghost function View(): Tables
      reads this
    {
      Tables(agents, tools, manifests, customers)
    }

    constructor (t: Tables)
      ensures View() == t
    {
      agents, tools, manifests, customers := t.agents, t.tools, t.manifests, t.customers;
    }

    method AddCustomers() returns (error: Option<SeedError>)
      modifies this`customers
      ensures match WithCustomers(old(customers), SEED_CUSTOMERS)
        case Ok(after) => error.None? && customers == after
        case Err(e) => error == Some(e)
    {
      var rows := SEED_CUSTOMERS;
      error := None;
      for i := 0 to |rows|
        invariant WithCustomers(customers, rows[i..]) == WithCustomers(old(customers), SEED_CUSTOMERS)
      {
        var row := rows[i];
        assert rows[i..][1..] == rows[i + 1..];
        if row.id !in customers {
          customers := customers[row.id := row.data];
        } else if customers[row.id].name != row.data.name {
          return Some(SeedConflict("customer name"));
        }
      }
    }

    /** Finds or inserts the agent and the tool. */
    method AddAgentAndTool() returns (error: Option<SeedError>)
      modifies this`agents, this`tools
      ensures match WithAgent(old(agents))
        case Err(e) => error == Some(e)
        case Ok(a) =>
          match WithTool(old(tools))
          case Err(e) => error == Some(e)
          case Ok(t) => error.None? && agents == a && tools == t
    {
      error := None;
      if SEED_AGENT_ID !in agents {
        if SubjectTaken(agents) { return Some(IntegrityError); }
        agents := agents[SEED_AGENT_ID := SEED_AGENT];
      } else if agents[SEED_AGENT_ID].oidcSubject != SEED_SUBJECT {
        return Some(SeedConflict("OIDC subject"));
      }
      if SEED_TOOL_ID !in tools {
        if ToolNameTaken(tools) { return Some(IntegrityError); }
        tools := tools[SEED_TOOL_ID := SEED_TOOL];
      } else if tools[SEED_TOOL_ID].name != "crm" {
        return Some(SeedConflict("tool name"));
      }
    }

    method AddManifest(h: Hash) returns (error: Option<SeedError>)
      modifies this`manifests
      ensures match WithManifest(h, old(manifests))
        case Err(e) => error == Some(e)
        case Ok(m) => error.None? && manifests == m
    {
      hide Checksum;
      error := None;
      if SEED_MANIFEST_ID !in manifests {
        if VersionTaken(manifests) { return Some(IntegrityError); }
        manifests := manifests[SEED_MANIFEST_ID := SeedManifest(h)];
      } else if manifests[SEED_MANIFEST_ID].checksum != Checksum(h, READ_ONLY_MANIFEST) {
        return Some(SeedConflict("manifest checksum"));
      }
    }

    method ActivateDraft(now: Instant) returns (error: Option<SeedError>)
      requires OneActive(manifests) && SEED_MANIFEST_ID in manifests
      modifies this`manifests
      ensures match WithActivation(old(manifests), agents, now)
        case Err(e) => error == Some(e)
        case Ok(m) => error.None? && manifests == m
    {
      hide ActivateAlone;
      error := None;
      if manifests[SEED_MANIFEST_ID].status.Draft? {
        var repository := new ManifestRepository(manifests, agents);
        var activated := repository.Activate(SEED_MANIFEST_ID, SEED_USER, now);
        if activated.Err? { return Some(NotActivated(activated.error)); }
        manifests := repository.manifests;
      }
    }

    /** The transaction's statements in order; on an error the tables are left half done. */
    method Statements(h: Hash, now: Instant) returns (r: Result<Summary, SeedError>)
      requires OneActive(manifests)
      modifies this
      ensures match Seeded(h, old(View()), now)
        case Ok(after) => View() == after && r == Ok(SummaryOf(after))
        case Err(e) => r == Err(e)
    {
      hide WithAgent;
      hide WithTool;
      hide WithManifest;
      hide WithCustomers;
      hide WithActivation;
      hide OneActive;
      var error := AddAgentAndTool();
      if error.Some? { return Err(error.value); }
      error := AddManifest(h);
      if error.Some? { return Err(error.value); }
      ManifestStep(h, old(manifests));
      error := AddCustomers();
      if error.Some? { return Err(error.value); }
      error := ActivateDraft(now);
      if error.Some? { return Err(error.value); }
      r := Ok(Summary(|agents|, |tools|, |manifests|, |customers|, SEED_MANIFEST_ID));
    }

    /** `with database.session()`: an error changes nothing. */
    method Seed(h: Hash, now: Instant) returns (r: Result<Summary, SeedError>)
      requires OneActive(manifests)
      modifies this
      ensures OneActive(manifests)
      ensures match Seeded(h, old(View()), now)
        case Ok(after) => View() == after && r == Ok(SummaryOf(after))
        case Err(e) => View() == old(View()) && r == Err(e)
    {
      var before := (agents, tools, manifests, customers);
      r := Statements(h, now);
      if r.Err? {
        agents, tools, manifests, customers := before.0, before.1, before.2, before.3;
      }
      SeedKeepsOneActive(h, old(View()), now);
    }
  }

  // ---------------------------------------------------------------- what seeding guarantees

  /** The rows of the seed stand: nothing is missing and nothing differs. */
  predicate InPlace(h: Hash, t: Tables) {
    && SEED_AGENT_ID in t.agents && t.agents[SEED_AGENT_ID].oidcSubject == SEED_SUBJECT
    && SEED_TOOL_ID in t.tools && t.tools[SEED_TOOL_ID].name == "crm"
    && SEED_MANIFEST_ID in t.manifests
    && t.manifests[SEED_MANIFEST_ID].checksum == Checksum(h, READ_ONLY_MANIFEST)
    && !t.manifests[SEED_MANIFEST_ID].status.Draft?
    && forall i :: 0 <= i < |SEED_CUSTOMERS| ==> NamedAs(t.customers, SEED_CUSTOMERS[i])
  }

  predicate NamedAs(customers: Customers, row: CustomerRow) {
    row.id in customers && customers[row.id].name == row.data.name
  }

  predicate DistinctIds(rows: seq<CustomerRow>) {
    forall i, j :: 0 <= i < j < |rows| ==> rows[i].id != rows[j].id
  }

  /** Inserting succeeds exactly when no row stands under another name, keeps every row that
      was there, and adds exactly the missing ones. */
  lemma {:induction false} CustomersExact(customers: Customers, rows: seq<CustomerRow>)
    requires DistinctIds(rows)
    ensures WithCustomers(customers, rows).Ok?
            <==> forall i :: 0 <= i < |rows| && rows[i].id in customers ==> NamedAs(customers, rows[i])
    ensures WithCustomers(customers, rows).Ok? ==>
      var after := WithCustomers(customers, rows).value;
      && (forall id :: id in customers ==> id in after && after[id] == customers[id])
      && (forall i :: 0 <= i < |rows| ==> NamedAs(after, rows[i]))
      && (forall i :: 0 <= i < |rows| && rows[i].id !in customers ==> after[rows[i].id] == rows[i].data)
      && (forall id :: id in after && id !in customers ==> exists i :: 0 <= i < |rows| && rows[i].id == id)
    decreases rows
  {
    if rows != [] {
      var next := if rows[0].id in customers then customers else customers[rows[0].id := rows[0].data];
      CustomersExact(next, rows[1..]);
      assert forall i :: 1 <= i < |rows| ==> rows[i] == rows[1..][i - 1];
      if rows[0].id !in customers || NamedAs(customers, rows[0]) {
        assert WithCustomers(customers, rows) == WithCustomers(next, rows[1..]);
        forall i | 1 <= i < |rows|
          ensures (rows[i].id in next ==> NamedAs(next, rows[i]))
                  <==> (rows[i].id in customers ==> NamedAs(customers, rows[i]))
        {
        }
      }
    }
  }

  lemma SeedIdsDistinct()
    ensures DistinctIds(SEED_CUSTOMERS)
  {
    var a, b, c := SEED_CUSTOMERS[0].id, SEED_CUSTOMERS[1].id, SEED_CUSTOMERS[2].id;
    assert a[12] == '1' && b[12] == '2' && c[12] == '3';
  }

  lemma {:induction false} NothingToInsert(customers: Customers, rows: seq<CustomerRow>)
    requires forall i :: 0 <= i < |rows| ==> NamedAs(customers, rows[i])
    ensures WithCustomers(customers, rows) == Ok(customers)
  {
    if rows != [] {
      assert NamedAs(customers, rows[0]);
      assert forall i :: 0 <= i < |rows| - 1 ==> rows[1..][i] == rows[i + 1];
      NothingToInsert(customers, rows[1..]);
    }
  }

  /** The manifest's row after its step. */
  lemma ManifestStep(h: Hash, manifests: Manifests)
    requires OneActive(manifests) && WithManifest(h, manifests).Ok?
    ensures var after := WithManifest(h, manifests).value;
      && OneActive(after) && SEED_MANIFEST_ID in after
      && after[SEED_MANIFEST_ID].checksum == Checksum(h, READ_ONLY_MANIFEST)
  {
    hide Checksum;
  }

  lemma ActivationStep(manifests: Manifests, agents: Agents, now: Instant)
    requires OneActive(manifests) && SEED_MANIFEST_ID in manifests && WithActivation(manifests, agents, now).Ok?
    ensures var before, after := manifests[SEED_MANIFEST_ID], WithActivation(manifests, agents, now).value;
      && OneActive(after) && SEED_MANIFEST_ID in after
      && after[SEED_MANIFEST_ID].checksum == before.checksum
      && !after[SEED_MANIFEST_ID].status.Draft?
      && (after[SEED_MANIFEST_ID].status.Active? <==> before.status.Draft? || before.status.Active?)
  {
    hide ActivateAlone;
    if manifests[SEED_MANIFEST_ID].status.Draft? {
      ActivationEffect(manifests, agents, SEED_MANIFEST_ID, SEED_USER, now);
    }
  }

  /** After a success nothing is missing, and every agent still has at most one active manifest. */
  lemma SeedLeavesInPlace(h: Hash, t: Tables, now: Instant)
    requires OneActive(t.manifests) && Seeded(h, t, now).Ok?
    ensures OneActive(Seeded(h, t, now).value.manifests) && InPlace(h, Seeded(h, t, now).value)
  {
    hide Checksum;
    hide OneActive;
    hide WithManifest;
    hide WithActivation;
    hide WithCustomers;
    ManifestStep(h, t.manifests);
    var agents := WithAgent(t.agents).value;
    ActivationStep(WithManifest(h, t.manifests).value, agents, now);
    SeedIdsDistinct();
    CustomersExact(t.customers, SEED_CUSTOMERS);
  }

  lemma InPlaceIsStable(h: Hash, t: Tables, now: Instant)
    requires InPlace(h, t)
    ensures Seeded(h, t, now) == Ok(t)
  {
    hide Checksum;
    hide WithCustomers;
    NothingToInsert(t.customers, SEED_CUSTOMERS);
  }

  lemma SeedKeepsOneActive(h: Hash, t: Tables, now: Instant)
    requires OneActive(t.manifests)
    ensures Seeded(h, t, now).Ok? ==> OneActive(Seeded(h, t, now).value.manifests)
  {
    hide Seeded;
    hide OneActive;
    if Seeded(h, t, now).Ok? { SeedLeavesInPlace(h, t, now); }
  }

  /** Seeding again, at any later time, succeeds, changes nothing, and reports the same summary. */
  lemma SeedingTwiceIsSeedingOnce(h: Hash, t: Tables, now: Instant, later: Instant)
    requires OneActive(t.manifests) && Seeded(h, t, now).Ok?
    ensures var once := Seeded(h, t, now).value;
      Seeded(h, once, later) == Ok(once)
  {
    hide Seeded;
    hide OneActive;
    hide InPlace;
    SeedLeavesInPlace(h, t, now);
    InPlaceIsStable(h, Seeded(h, t, now).value, later);
  }

  /** When seeding succeeds, read off the tables before it runs. */
  predicate Compatible(h: Hash, t: Tables) {
    && (if SEED_AGENT_ID in t.agents then t.agents[SEED_AGENT_ID].oidcSubject == SEED_SUBJECT
        else forall id :: id in t.agents ==> t.agents[id].oidcSubject != "dev:agent_support_001")
    && (if SEED_TOOL_ID in t.tools then t.tools[SEED_TOOL_ID].name == "crm"
        else forall id :: id in t.tools ==> t.tools[id].name != "crm")
    && (if SEED_MANIFEST_ID in t.manifests then
          && t.manifests[SEED_MANIFEST_ID].checksum == Checksum(h, READ_ONLY_MANIFEST)
          && (t.manifests[SEED_MANIFEST_ID].status.Draft? ==>
                t.manifests[SEED_MANIFEST_ID].agentId in t.agents.Keys + {SEED_AGENT_ID})
        else
          forall id :: id in t.manifests && t.manifests[id].version == 1 ==> t.manifests[id].agentId != SEED_AGENT_ID)
    && (forall i :: 0 <= i < |SEED_CUSTOMERS| && SEED_CUSTOMERS[i].id in t.customers ==>
          NamedAs(t.customers, SEED_CUSTOMERS[i]))
  }

  lemma SeedSucceedsIffCompatible(h: Hash, t: Tables, now: Instant)
    ensures Seeded(h, t, now).Ok? <==> Compatible(h, t)
  {
    hide Checksum;
    hide WithCustomers;
    SeedIdsDistinct();
    CustomersExact(t.customers, SEED_CUSTOMERS);
  }

  /** The summary calls the seeded manifest active; it is, unless it had been superseded or
      revoked before. */
  lemma ReportedManifestIsActiveIff(h: Hash, t: Tables, now: Instant)
    requires OneActive(t.manifests) && Seeded(h, t, now).Ok?
    ensures var after := Seeded(h, t, now).value;
      && SummaryOf(after).activeManifestId in after.manifests
      && (after.manifests[SummaryOf(after).activeManifestId].status.Active? <==>
            !(SEED_MANIFEST_ID in t.manifests
              && (t.manifests[SEED_MANIFEST_ID].status.Superseded? || t.manifests[SEED_MANIFEST_ID].status.Revoked?)))
  {
    hide Checksum;
    hide OneActive;
    hide WithActivation;
    hide WithCustomers;
    ManifestStep(h, t.manifests);
    ActivationStep(WithManifest(h, t.manifests).value, WithAgent(t.agents).value, now);
  }

  /** Such tables exist: seeding succeeds on a database where the seeded manifest was superseded,
      and reports it as the active one although no manifest is active. */
  lemma SupersededSeedIsReported(h: Hash, now: Instant) returns (t: Tables)
    ensures t.agents == map[SEED_AGENT_ID := SEED_AGENT] && t.tools == map[SEED_TOOL_ID := SEED_TOOL]
    ensures t.manifests == map[SEED_MANIFEST_ID := SeedManifest(h).(status := Superseded)] && t.customers == map[]
    ensures OneActive(t.manifests) && Seeded(h, t, now).Ok?
    ensures var after := Seeded(h, t, now).value;
      && SummaryOf(after).activeManifestId in after.manifests
      && after.manifests[SummaryOf(after).activeManifestId].status.Superseded?
      && forall agentId :: GetActive(after.manifests, agentId) == None
  {
    hide Checksum;
    hide WithCustomers;
    t := Tables(map[SEED_AGENT_ID := SEED_AGENT], map[SEED_TOOL_ID := SEED_TOOL],
                map[SEED_MANIFEST_ID := SeedManifest(h).(status := Superseded)], map[]);
    SeedSucceedsIffCompatible(h, t, now);
    var after := Seeded(h, t, now).value;
    assert after.manifests == t.manifests;
    forall agentId ensures GetActive(after.manifests, agentId) == None {
      assert forall id :: !IsActive(after.manifests, agentId, id);
    }
  }

  /** What a refused seeding reports: the first thing that does not agree. */
  lemma SeedFailsWith(h: Hash, t: Tables, now: Instant)
    requires Seeded(h, t, now).Err?
    ensures Seeded(h, t, now).error ==
      if SEED_AGENT_ID in t.agents && t.agents[SEED_AGENT_ID].oidcSubject != "dev:agent_support_001" then
        SeedConflict("OIDC subject")
      else if SEED_AGENT_ID !in t.agents && SubjectTaken(t.agents) then IntegrityError
      else if SEED_TOOL_ID in t.tools && t.tools[SEED_TOOL_ID].name != "crm" then SeedConflict("tool name")
      else if SEED_TOOL_ID !in t.tools && ToolNameTaken(t.tools) then IntegrityError
      else if SEED_MANIFEST_ID in t.manifests
              && t.manifests[SEED_MANIFEST_ID].checksum != h(Canonical(READ_ONLY_MANIFEST)) then
        SeedConflict("manifest checksum")
      else if SEED_MANIFEST_ID !in t.manifests && VersionTaken(t.manifests) then IntegrityError
      else if exists i :: 0 <= i < |SEED_CUSTOMERS| && SEED_CUSTOMERS[i].id in t.customers
                          && !NamedAs(t.customers, SEED_CUSTOMERS[i]) then
        SeedConflict("customer name")
      else NotActivated(AgentNotFound)
  {
    hide Canonical;
    hide WithCustomers;
    SeedIdsDistinct();
    CustomersExact(t.customers, SEED_CUSTOMERS);
    CustomersFailWith(t.customers, SEED_CUSTOMERS);
  }

  lemma {:induction false} CustomersFailWith(customers: Customers, rows: seq<CustomerRow>)
    ensures WithCustomers(customers, rows).Err? ==>
      WithCustomers(customers, rows) == Err(SeedConflict("customer name"))
    decreases rows
  {
    if rows != [] {
      CustomersFailWith(customers, rows[1..]);
      CustomersFailWith(customers[rows[0].id := rows[0].data], rows[1..]);
    }
  }

  /** The row seeding adds for a missing agent, tool or manifest, column by column. */
  predicate SeedsAgent(a: Agent) {
    a.oidcSubject == "dev:agent_support_001" && a.status.AgentActive?
  }

  predicate SeedsTool(t: Tool) {
    t.name == "crm" && t.status.ToolActive?
    && t.allowedOperations == ["read_customer", "write_customer", "delete_customer"]
  }

  predicate SeedsManifest(h: Hash, m: Manifest, now: Instant) {
    && m.agentId == "agent_support_001" && m.version == 1 && m.status.Active?
    && m.document == READ_ONLY_MANIFEST && m.checksum == h(Canonical(READ_ONLY_MANIFEST))
    && AsUtc(m.effectiveFrom) == SEED_EFFECTIVE && m.expiresAt == None
    && m.approvedBy == Some("phase-1-seed") && m.activatedAt == Some(now)
  }

  lemma SeededManifests(h: Hash, manifests: Manifests, agents: Agents, now: Instant)
    requires OneActive(manifests) && WithManifest(h, manifests).Ok?
    requires WithActivation(WithManifest(h, manifests).value, agents, now).Ok?
    ensures var after := WithActivation(WithManifest(h, manifests).value, agents, now).value;
      && after.Keys == manifests.Keys + {SEED_MANIFEST_ID}
      && (SEED_MANIFEST_ID !in manifests ==> SeedsManifest(h, after[SEED_MANIFEST_ID], now))
      && (SEED_MANIFEST_ID in manifests && manifests[SEED_MANIFEST_ID].status.Draft? ==>
            ActivatedFrom(manifests[SEED_MANIFEST_ID], after[SEED_MANIFEST_ID], "phase-1-seed", now))
      && (SEED_MANIFEST_ID in manifests && !manifests[SEED_MANIFEST_ID].status.Draft? ==> after == manifests)
      && (forall id :: id in manifests && id != SEED_MANIFEST_ID ==>
            after[id] == manifests[id] || SupersededFrom(manifests[id], after[id]))
  {
    hide Canonical;
    hide ActivateAlone;
    ManifestStep(h, manifests);
    var listed := WithManifest(h, manifests).value;
    if listed[SEED_MANIFEST_ID].status.Draft? {
      ActivationEffect(listed, agents, SEED_MANIFEST_ID, SEED_USER, now);
    }
  }

  /** What a successful seeding changes: it adds what was missing, as specified, activates the
      seeded manifest if it was missing or a draft (superseding the agent's active one), and
      leaves every other row of every table as it was. */
  lemma SeedEffect(h: Hash, t: Tables, now: Instant)
    requires OneActive(t.manifests) && Seeded(h, t, now).Ok?
    ensures var after := Seeded(h, t, now).value;
      && after.agents.Keys == t.agents.Keys + {SEED_AGENT_ID} && after.tools.Keys == t.tools.Keys + {SEED_TOOL_ID}
      && after.manifests.Keys == t.manifests.Keys + {SEED_MANIFEST_ID}
      && (forall id :: id in t.agents ==> after.agents[id] == t.agents[id])
      && (forall id :: id in t.tools ==> after.tools[id] == t.tools[id])
      && (SEED_AGENT_ID !in t.agents ==> SeedsAgent(after.agents[SEED_AGENT_ID]))
      && (SEED_TOOL_ID !in t.tools ==> SeedsTool(after.tools[SEED_TOOL_ID]))
      && (SEED_MANIFEST_ID !in t.manifests ==> SeedsManifest(h, after.manifests[SEED_MANIFEST_ID], now))
      && (SEED_MANIFEST_ID in t.manifests && t.manifests[SEED_MANIFEST_ID].status.Draft? ==>
            ActivatedFrom(t.manifests[SEED_MANIFEST_ID], after.manifests[SEED_MANIFEST_ID], "phase-1-seed", now))
      && (SEED_MANIFEST_ID in t.manifests && !t.manifests[SEED_MANIFEST_ID].status.Draft? ==>
            after.manifests == t.manifests)
      && (forall id :: id in t.manifests && id != SEED_MANIFEST_ID ==>
            after.manifests[id] == t.manifests[id] || SupersededFrom(t.manifests[id], after.manifests[id]))
  {
    hide Canonical;
    hide WithCustomers;
    hide WithManifest;
    hide WithActivation;
    hide OneActive;
    hide SeedsManifest;
    SeededManifests(h, t.manifests, WithAgent(t.agents).value, now);
  }

  /** The summary counts the rows of the four tables and names the seeded manifest. */
  lemma SummaryCounts(h: Hash, t: Tables, now: Instant)
    requires OneActive(t.manifests) && Seeded(h, t, now).Ok?
    ensures var before, after := SummaryOf(t), SummaryOf(Seeded(h, t, now).value);
      && after.activeManifestId == "support-agent-readonly-v1"
      && before.agents == |t.agents.Keys| && before.tools == |t.tools.Keys|
      && before.manifests == |t.manifests.Keys| && before.customers == |t.customers.Keys|
      && after.agents == before.agents + (if SEED_AGENT_ID in t.agents then 0 else 1)
      && after.tools == before.tools + (if SEED_TOOL_ID in t.tools then 0 else 1)
      && after.manifests == before.manifests + (if SEED_MANIFEST_ID in t.manifests then 0 else 1)
      && before.customers <= after.customers <= before.customers + 3
  {
    hide Seeded;
    hide SeedsManifest;
    hide OneActive;
    SeedEffect(h, t, now);
    SeededCustomers(h, t, now);
    var after := Seeded(h, t, now).value;
    Counted(t.agents, after.agents, {SEED_AGENT_ID});
    Counted(t.tools, after.tools, {SEED_TOOL_ID});
    Counted(t.manifests, after.manifests, {SEED_MANIFEST_ID});
    Counted(t.customers, after.customers, SeedCustomerIds());
    SeedIdCount();
  }

  function SeedCustomerIds(): set<string> {
    {"customer_1001", "customer_1002", "customer_1003"}
  }

  lemma SeedIdCount()
    ensures |SeedCustomerIds()| <= 3
  {
    assert SeedCustomerIds() == {"customer_1001"} + {"customer_1002"} + {"customer_1003"};
  }

  lemma Counted<T>(before: map<string, T>, after: map<string, T>, added: set<string>)
    requires after.Keys == before.Keys + added
    ensures |before| == |before.Keys| && |after| == |after.Keys|
    ensures |before| <= |after| <= |before| + |added|
    ensures |added| == 1 ==> |after| == |before| + (if added <= before.Keys then 0 else 1)
  {
    var new_ := added - before.Keys;
    assert after.Keys == before.Keys + new_ && before.Keys !! new_;
    SmallerSet(new_, added);
    if |added| == 1 && !(added <= before.Keys) {
      var x :| x in added && x !in before.Keys;
      assert {x} <= added;
      SmallerSet({x}, new_);
    }
  }

  lemma SmallerSet<T>(a: set<T>, b: set<T>)
    requires a <= b
    ensures |a| <= |b|
  {
    assert b == a + (b - a) && a !! (b - a);
  }

  /** The customer table gains exactly the missing seeded customers. */
  lemma SeededCustomers(h: Hash, t: Tables, now: Instant)
    requires Seeded(h, t, now).Ok?
    ensures var after := Seeded(h, t, now).value.customers;
      && after.Keys == t.customers.Keys + SeedCustomerIds()
      && forall id :: id in t.customers ==> after[id] == t.customers[id]
  {
    hide WithAgent;
    hide WithTool;
    hide WithManifest;
    hide WithActivation;
    SeedIdsDistinct();
    CustomersExact(t.customers, SEED_CUSTOMERS);
    var after := Seeded(h, t, now).value.customers;
    assert SEED_CUSTOMERS[0].id == "customer_1001" && SEED_CUSTOMERS[1].id == "customer_1002";
    assert SEED_CUSTOMERS[2].id == "customer_1003";
    assert NamedAs(after, SEED_CUSTOMERS[0]) && NamedAs(after, SEED_CUSTOMERS[1]) && NamedAs(after, SEED_CUSTOMERS[2]);
    forall id ensures id in after <==> id in t.customers || id in SeedCustomerIds() {
      if id in after && id !in t.customers {
        var i :| 0 <= i < |SEED_CUSTOMERS| && SEED_CUSTOMERS[i].id == id;
        assert i == 0 || i == 1 || i == 2;
      }
    }
  }
}
