/** What the seeded manifest permits, and that it meets the read-only condition the
    end-to-end guarantee rests on. */
module SeededPolicy {
  import opened Wrappers
  import opened Json
  import opened UtcTime
  import opened Calendar
  import opened Redaction
  import opened AuditEvents
  import opened Domain
  import opened ManifestSchema
  import opened Policy
  import opened Activation
  import opened PolicyPinning
  import opened ManifestEncoding
  import opened Seeding
  import opened EndToEnd

  const READ_SCHEMA: ParameterSchema :=
    ParameterSchema(["customer_id"], map["customer_id" := StringConstraint(None)], false)

  const READ_OPERATION: OperationRule := OperationRule(READ_SCHEMA, Some([ScopeRule(CustomerIdClaim, "customer_id")]))

  const READ_ONLY_DOCUMENT: ManifestDocument :=
    ManifestDocument(SEED_MANIFEST_ID, SEED_AGENT_ID,
                     map["crm" := ToolPermission(["read_customer"], map["read_customer" := READ_OPERATION])],
                     "This operation is not permitted for the current agent and session.")

  // ---------------------------------------------------------------- the document, part by part

  lemma OneString(x: string)
    ensures DecodeStringList(Some(Arr([Str(x)]))) == Some([x])
  {
    assert [Str(x)][1..] == [] && DecodeStrings([]) == Some([]) && [x] + [] == [x];
  }

  lemma OneProperty(f: Field, c: Constraint)
    requires DecodeConstraint(f.value) == Some(c)
    ensures DecodeProperties([f]) == Some(map[f.name := c])
  {
    hide DecodeConstraint;
    assert [f][1..] == [] && DecodeProperties([]) == Some(map[]);
  }

  lemma OneScopeRule(v: Json, r: ScopeRule)
    requires DecodeScopeRule(v) == Some(r)
    ensures DecodeScopeRules([v]) == Some([r])
  {
    hide DecodeScopeRule;
    assert [v][1..] == [] && DecodeScopeRules([]) == Some([]) && [r] + [] == [r];
  }

  lemma OneRule(f: Field, r: OperationRule)
    requires DecodeRule(f.value) == Some(r)
    ensures DecodeRules([f]) == Some(map[f.name := r])
  {
    hide DecodeRule;
    assert [f][1..] == [] && DecodeRules([]) == Some(map[]);
  }

  lemma OneTool(f: Field, t: ToolPermission)
    requires DecodeTool(f.value) == Some(t)
    ensures DecodeTools([f]) == Some(map[f.name := t])
  {
    hide DecodeTool;
    assert [f][1..] == [] && DecodeTools([]) == Some(map[]);
  }

  lemma ScopeDecodes(name: string)
    requires 1 <= |name| <= 100
    ensures DecodeScopeRule(Obj([Field("type", Str("session_value_equals_parameter")),
                                 Field("session_claim", Str("customer_id")), Field("parameter", Str(name))]))
            == Some(ScopeRule(CustomerIdClaim, name))
  {
    hide Lookup;
  }

  lemma ScopesDecode(v: Json, r: ScopeRule)
    requires DecodeScopeRule(v) == Some(r)
    ensures DecodeScope(Some(Obj([Field("all", Arr([v]))]))) == Some(Some([r]))
  {
    hide DecodeScopeRule;
    hide DecodeScopeRules;
    hide Lookup;
    OneScopeRule(v, r);
    var fields := [Field("all", Arr([v]))];
    assert Lookup(fields, "all") == Some(Arr([v]));
  }

  lemma PropertyDecodes()
    ensures DecodeConstraint(Obj([Field("type", Str("string"))])) == Some(StringConstraint(None))
  {
    hide Lookup;
  }

  lemma ParametersDecode(name: string)
    ensures DecodeSchema(Some(Obj([Field("required", Arr([Str(name)])),
                                   Field("properties", Obj([Field(name, Obj([Field("type", Str("string"))]))]))])))
            == Some(ParameterSchema([name], map[name := StringConstraint(None)], false))
  {
    hide Lookup;
    hide DecodeConstraint;
    hide DecodeProperties;
    hide DecodeStringList;
    PropertyDecodes();
    var property := Field(name, Obj([Field("type", Str("string"))]));
    OneProperty(property, StringConstraint(None));
    OneString(name);
    var fields := [Field("required", Arr([Str(name)])), Field("properties", Obj([property]))];
    assert Lookup(fields, "required") == Some(Arr([Str(name)]));
    assert Lookup(fields, "properties") == Some(Obj([property]));
  }

  lemma RuleDecodes(schema: Json, scope: Json, s: ParameterSchema, d: seq<ScopeRule>)
    requires DecodeSchema(Some(schema)) == Some(s) && DecodeScope(Some(scope)) == Some(Some(d))
    ensures DecodeRule(Obj([Field("parameter_schema", schema), Field("data_scope", scope)]))
            == Some(OperationRule(s, Some(d)))
  {
    hide Lookup;
    hide DecodeSchema;
    hide DecodeScope;
    var fields := [Field("parameter_schema", schema), Field("data_scope", scope)];
    assert Lookup(fields, "parameter_schema") == Some(schema);
    assert Lookup(fields, "data_scope") == Some(scope);
  }

  lemma PermissionDecodes(operation: string, rule: Json, r: OperationRule)
    requires DecodeRule(rule) == Some(r)
    ensures DecodeTool(Obj([Field("allowed_operations", Arr([Str(operation)])),
                            Field("operation_rules", Obj([Field(operation, rule)]))]))
            == Some(ToolPermission([operation], map[operation := r]))
  {
    hide Lookup;
    hide DecodeRule;
    hide DecodeRules;
    hide DecodeStringList;
    OneRule(Field(operation, rule), r);
    OneString(operation);
    var fields := [Field("allowed_operations", Arr([Str(operation)])),
                   Field("operation_rules", Obj([Field(operation, rule)]))];
    assert Lookup(fields, "allowed_operations") == Some(Arr([Str(operation)]));
    assert Lookup(fields, "operation_rules") == Some(Obj([Field(operation, rule)]));
  }

  lemma DocumentDecodes(id: string, agentId: string, deny: string, tool: string, permission: Json, t: ToolPermission)
    requires DecodeTool(permission) == Some(t)
    requires 1 <= |id| <= 100 && 1 <= |agentId| <= 64 && 1 <= |deny| <= 500
    ensures Decode(Obj(DocumentFields(id, agentId, deny, Obj([Field(tool, permission)]))))
            == Some(ManifestDocument(id, agentId, map[tool := t], deny))
  {
    hide Decode;
    hide DocumentFields;
    hide DecodeTool;
    hide DecodeTools;
    OneTool(Field(tool, permission), t);
    assert tool in map[tool := t];
    DocumentReads(id, agentId, deny, [Field(tool, permission)], map[tool := t]);
  }

  /** The seeded document passes every validator and says exactly this. */
  lemma ManifestDecodes()
    ensures Decode(READ_ONLY_MANIFEST) == Some(READ_ONLY_DOCUMENT)
  {
    hide Decode;
    hide DecodeTool;
    hide DecodeRule;
    hide DecodeSchema;
    hide DecodeScope;
    hide DecodeScopeRule;
    ScopeDecodes("customer_id");
    ScopesDecode(CUSTOMER_SCOPE, ScopeRule(CustomerIdClaim, "customer_id"));
    ParametersDecode("customer_id");
    RuleDecodes(READ_RULE.fields[0].value, READ_RULE.fields[1].value, READ_SCHEMA, READ_OPERATION.scope.value);
    PermissionDecodes("read_customer", READ_RULE, READ_OPERATION);
    DocumentDecodes(SEED_MANIFEST_ID, SEED_AGENT_ID, READ_ONLY_DOCUMENT.denyMessage, "crm", CRM_PERMISSION,
                    READ_ONLY_DOCUMENT.tools["crm"]);
  }

  /** The seeded manifest takes effect on 2026-01-01 at midnight, UTC. */
  lemma SeedEffectiveDate()
    ensures SEED_EFFECTIVE % DAY == 0 && DateOf(SEED_EFFECTIVE / DAY) == Date(2026, 1, 1)
  {
    hide DateOf;
    DateOfOrdinal(Date(2026, 1, 1));
    assert Ordinal(Date(2026, 1, 1)) == 739_616;
  }

  // ---------------------------------------------------------------- read-only systems

  lemma SeedDocumentIsReadOnly()
    ensures ReadOnlyDocument(READ_ONLY_DOCUMENT)
  {
  }

  lemma OneFieldWellFormed(f: Field)
    requires WellFormed(f.value)
    ensures WellFormed(Obj([f]))
  {
  }

  lemma TwoFieldsWellFormed(f: Field, g: Field)
    requires WellFormed(f.value) && WellFormed(g.value) && f.name != g.name
    ensures WellFormed(Obj([f, g]))
  {
    hide WellFormed;
    var fields := [f, g];
    assert UniqueNames(fields);
    ObjectWellFormed(fields);
  }

  lemma OneItemWellFormed(v: Json)
    requires WellFormed(v)
    ensures WellFormed(Arr([v]))
  {
  }

  lemma RuleWellFormed()
    ensures WellFormed(READ_RULE)
  {
    hide WellFormed;
    var kind, claim, parameter := CUSTOMER_SCOPE.fields[0], CUSTOMER_SCOPE.fields[1], CUSTOMER_SCOPE.fields[2];
    assert |kind.name| == 4 && |claim.name| == 13 && |parameter.name| == 9;
    ScalarWellFormed(Str("session_value_equals_parameter"));
    ScalarWellFormed(Str("customer_id"));
    ScalarWellFormed(Str("string"));
    ObjectWellFormed(CUSTOMER_SCOPE.fields);
    OneItemWellFormed(CUSTOMER_SCOPE);
    OneFieldWellFormed(Field("all", Arr([CUSTOMER_SCOPE])));
    OneFieldWellFormed(Field("type", Str("string")));
    OneFieldWellFormed(Field("customer_id", Obj([Field("type", Str("string"))])));
    OneItemWellFormed(Str("customer_id"));
    var schema := READ_RULE.fields[0].value;
    TwoFieldsWellFormed(schema.fields[0], schema.fields[1]);
    TwoFieldsWellFormed(READ_RULE.fields[0], READ_RULE.fields[1]);
  }

  lemma SeedDocumentIsWellFormed()
    ensures WellFormed(READ_ONLY_MANIFEST)
  {
    hide WellFormed;
    RuleWellFormed();
    OneItemWellFormed(Str("read_customer")) by { ScalarWellFormed(Str("read_customer")); }
    OneFieldWellFormed(Field("read_customer", READ_RULE));
    TwoFieldsWellFormed(CRM_PERMISSION.fields[0], CRM_PERMISSION.fields[1]);
    OneFieldWellFormed(Field("crm", CRM_PERMISSION));
    var fields := READ_ONLY_MANIFEST.fields;
    assert |fields[0].name| == 14 && |fields[1].name| == 11 && |fields[2].name| == 8 && |fields[3].name| == 5;
    assert |fields[4].name| == 12;
    ScalarWellFormed(Str("1.0"));
    ScalarWellFormed(Str(SEED_MANIFEST_ID));
    ScalarWellFormed(Str(SEED_AGENT_ID));
    ScalarWellFormed(Str(READ_ONLY_DOCUMENT.denyMessage));
    ObjectWellFormed(fields);
  }

  /** The hypothesis of the end-to-end guarantee survives seeding: if every active manifest was
      read-only before, so it is afterwards. A draft already stored under the seed's identifier
      and checksum is the seed's own policy, unless the two texts collide. */
  lemma SeedingKeepsReadOnly(h: Hash, t: Tables, now: Instant)
    requires OneActive(t.manifests) && ReadOnlyManifests(h, t.manifests) && Seeded(h, t, now).Ok?
    requires SEED_MANIFEST_ID in t.manifests ==>
      && WellFormed(t.manifests[SEED_MANIFEST_ID].document)
      && !DocumentsCollide(h, READ_ONLY_MANIFEST, t.manifests[SEED_MANIFEST_ID].document)
    ensures ReadOnlyManifests(h, Seeded(h, t, now).value.manifests)
  {
    hide Checksum;
    hide Decode;
    hide ReadOnlyDocument;
    hide WithAgent;
    hide WithTool;
    hide WithCustomers;
    hide ActivateAlone;
    var listed := WithManifest(h, t.manifests).value;
    var after := Seeded(h, t, now).value.manifests;
    ManifestStep(h, t.manifests);
    if listed[SEED_MANIFEST_ID].status.Draft? {
      ActivationEffect(listed, WithAgent(t.agents).value, SEED_MANIFEST_ID, SEED_USER, now);
    }
    forall id | id in after && after[id].status.Active? && Checksum(h, after[id].document) == after[id].checksum
                && Decode(after[id].document).Some?
      ensures ReadOnlyDocument(Decode(after[id].document).value)
    {
      if id == SEED_MANIFEST_ID {
        ManifestDecodes();
        SeedDocumentIsReadOnly();
        SeedDocumentIsWellFormed();
        if id in t.manifests { ChecksumPinsPolicy(h, READ_ONLY_MANIFEST, t.manifests[id].document); }
      } else {
        assert after[id] == t.manifests[id];
      }
    }
  }

  // ---------------------------------------------------------------- the seeded policy, exactly

  /** The call names the session's customer and nothing else. */
  predicate NamesOwnCustomer(q: Request) {
    && Lookup(q.parameters, "customer_id") == Some(Str(q.claims.customerId))
    && forall f :: f in q.parameters ==> f.name == "customer_id" && f.value.Str?
  }

  const EMPTY: Tables := Tables(map[], map[], map[], map[])

  lemma SeededFromNothing(h: Hash, now: Instant)
    ensures Seeded(h, EMPTY, now).Ok?
    ensures var after := Seeded(h, EMPTY, now).value;
      && after.tools == map[SEED_TOOL_ID := SEED_TOOL]
      && after.manifests == map[SEED_MANIFEST_ID := Promoted(SeedManifest(h), SEED_USER, now)]
  {
    hide Checksum;
    hide WithCustomers;
    SeedSucceedsIffCompatible(h, EMPTY, now);
    var listed: Manifests := map[SEED_MANIFEST_ID := SeedManifest(h)];
    assert WithManifest(h, map[]) == Ok(listed);
    assert forall id :: !IsActive(listed, SEED_AGENT_ID, id);
  }

  lemma ReadSchemaMeans(parameters: seq<Field>)
    ensures ValidateParameters(READ_SCHEMA, parameters)
            <==> Lookup(parameters, "customer_id").Some?
                 && forall f :: f in parameters ==> f.name == "customer_id" && f.value.Str?
  {
    hide Lookup;
    hide ValidateParameters;
    ValidateParametersExact(READ_SCHEMA, parameters);
    LookupPresent(parameters, "customer_id");
  }

  lemma ReadScopeMeans(q: Request)
    ensures InScope(READ_OPERATION.scope.value, q.claims, q.parameters)
            <==> Lookup(q.parameters, "customer_id") == Some(Str(q.claims.customerId))
  {
    hide Lookup;
    hide InScope;
    var rule := ScopeRule(CustomerIdClaim, "customer_id");
    InScopeMeans([rule], q.claims, q.parameters);
    assert ClaimValue(q.claims, rule.claim) == q.claims.customerId;
    assert forall r :: r in [rule] ==> r == rule;
    assert rule in [rule];
  }

  lemma DocumentAllowsOwnReads(q: Request, registered: Option<Tool>, checksum: string)
    requires registered == if q.tool == "crm" then Some(SEED_TOOL) else None
    ensures ValidDocument(READ_ONLY_DOCUMENT)
    ensures EvaluateDocument(READ_ONLY_DOCUMENT, registered, q, SEED_MANIFEST_ID, checksum).allowed
            <==> q.tool == "crm" && q.operation == "read_customer" && NamesOwnCustomer(q)
  {
    hide Decode;
    hide ValidDocument;
    hide ValidateParameters;
    hide InScope;
    hide Lookup;
    ManifestDecodes();
    ReadSchemaMeans(q.parameters);
    ReadScopeMeans(q);
  }

  /** In a freshly seeded system the support agent may read the customer its session names,
      from the seed's effective date on, and nothing else is allowed to anyone. */
  lemma SeededPolicyExact(h: Hash, seededAt: Instant, q: Request)
    ensures Seeded(h, EMPTY, seededAt).Ok?
    ensures var after := Seeded(h, EMPTY, seededAt).value;
      Evaluate(h, after.manifests, after.tools, q).allowed
      <==> q.agentId == SEED_AGENT_ID && SEED_EFFECTIVE <= q.now
           && q.tool == "crm" && q.operation == "read_customer" && NamesOwnCustomer(q)
  {
    hide Checksum;
    hide Decode;
    hide EvaluateDocument;
    hide NamesOwnCustomer;
    hide Seeded;
    SeededFromNothing(h, seededAt);
    var after := Seeded(h, EMPTY, seededAt).value;
    ManifestDecodes();
    assert IsActive(after.manifests, SEED_AGENT_ID, SEED_MANIFEST_ID);
    assert IsTool(after.tools, "crm", SEED_TOOL_ID);
    DocumentAllowsOwnReads(q, ToolByName(after.tools, q.tool), Checksum(h, READ_ONLY_MANIFEST));
  }
}
