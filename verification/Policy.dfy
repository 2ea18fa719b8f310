/** The policy evaluator: first failure, default deny. */
module Policy {
  import opened Wrappers
  import opened Json
  import opened UtcTime
  import opened Redaction
  import opened AuditEvents
  import opened Domain
  import opened ManifestSchema

  datatype PolicyDecision = PolicyDecision(
    allowed: bool, reason: string, message: string, manifestId: Option<string>, checksum: Option<string>)

  /** What one evaluation is asked about. */
  datatype Request = Request(
    agentId: string, claims: TrustedClaims, tool: string, operation: string, parameters: seq<Field>, now: Instant)

  /** `manifest_checksum` */
  function Checksum(h: Hash, document: Json): string {
    h(Canonical(document))
  }

  predicate InWindow(row: Manifest, now: Instant) {
    AsUtc(row.effectiveFrom) <= now && (row.expiresAt.Some? ==> now < AsUtc(row.expiresAt.value))
  }

  predicate IsTool(tools: Tools, name: string, id: string) {
    id in tools && tools[id].name == name
  }

  /** `ToolDefinitionRepository.get_by_name`; the name column is unique. */
  ghost function ToolByName(tools: Tools, name: string): (r: Option<Tool>)
    ensures r.None? ==> forall id :: !IsTool(tools, name, id)
    ensures r.Some? ==> exists id :: IsTool(tools, name, id) && tools[id] == r.value
  {
    if id :| IsTool(tools, name, id) then Some(tools[id]) else None
  }

  function ClaimValue(claims: TrustedClaims, claim: Claim): string {
    match claim
    case CustomerIdClaim => claims.customerId
    case UserIdClaim => claims.userId
  }

  predicate InScope(rules: seq<ScopeRule>, claims: TrustedClaims, parameters: seq<Field>) {
    rules == []
    || (Lookup(parameters, rules[0].parameter) == Some(Str(ClaimValue(claims, rules[0].claim)))
        && InScope(rules[1..], claims, parameters))
  }

  function Deny(code: string, message: string, id: string, checksum: string): PolicyDecision {
    PolicyDecision(false, code, message, Some(id), Some(checksum))
  }

  /** The part of `evaluate` that reads a parsed document. The rule lookup needs no guard: the
      document's validators give every allowed operation a rule. */
  function EvaluateDocument(d: ManifestDocument, registered: Option<Tool>, q: Request, id: string, checksum: string)
    : PolicyDecision
    requires ValidDocument(d)
  {
    if registered.None? || !registered.value.status.ToolActive? then
      Deny("TOOL_NOT_REGISTERED", "The requested tool is not registered", id, checksum)
    else if q.tool !in d.tools then
      Deny("TOOL_NOT_ALLOWED", d.denyMessage, id, checksum)
    else
      var permission := d.tools[q.tool];
      if q.operation !in registered.value.allowedOperations || q.operation !in permission.allowed then
        Deny("OPERATION_NOT_ALLOWED", d.denyMessage, id, checksum)
      else
        assert ValidTool(permission);
        var rule := permission.rules[q.operation];
        if !ValidateParameters(rule.schema, q.parameters) then
          Deny("INVALID_PARAMETERS", "Tool-call parameters do not match the registered policy schema", id, checksum)
        else if rule.scope.Some? && !InScope(rule.scope.value, q.claims, q.parameters) then
          Deny("DATA_SCOPE_VIOLATION", d.denyMessage, id, checksum)
        else
          PolicyDecision(true, "ALLOWED", "Tool call is permitted", Some(id), Some(checksum))
  }

  /** The part that reads the active manifest's row. */
  ghost function EvaluateRow(h: Hash, id: string, row: Manifest, tools: Tools, q: Request): PolicyDecision {
    if !InWindow(row, q.now) then
      Deny("MANIFEST_EXPIRED", "The active manifest is outside its effective window", id, row.checksum)
    else if Checksum(h, row.document) != row.checksum then
      Deny("POLICY_INTEGRITY_VIOLATION", "The active manifest failed its integrity check", id, row.checksum)
    else
      match Decode(row.document)
      case None =>
        Deny("POLICY_CONFIGURATION_INVALID", "The active manifest is invalid", id, row.checksum)
      case Some(d) =>
        if d.manifestId != id || d.agentId != row.agentId then
          Deny("POLICY_CONFIGURATION_INVALID", "The active manifest identity is invalid", id, row.checksum)
        else
          EvaluateDocument(d, ToolByName(tools, q.tool), q, id, row.checksum)
  }

  /** `PolicyEvaluator.evaluate` */
  ghost function Evaluate(h: Hash, manifests: Manifests, tools: Tools, q: Request): PolicyDecision {
    match GetActive(manifests, q.agentId)
    case None =>
      PolicyDecision(false, "MANIFEST_NOT_FOUND", "No active permission manifest exists", None, None)
    case Some(id) => EvaluateRow(h, id, manifests[id], tools, q)
  }

  // ---------------------------------------------------------------- the declarative reading

  const REQUIREMENTS: nat := 10

  function Code(k: nat): string {
    if k == 0 then "MANIFEST_NOT_FOUND"
    else if k == 1 then "MANIFEST_EXPIRED"
    else if k == 2 then "POLICY_INTEGRITY_VIOLATION"
    else if k == 3 then "POLICY_CONFIGURATION_INVALID"
    else if k == 4 then "POLICY_CONFIGURATION_INVALID"
    else if k == 5 then "TOOL_NOT_REGISTERED"
    else if k == 6 then "TOOL_NOT_ALLOWED"
    else if k == 7 then "OPERATION_NOT_ALLOWED"
    else if k == 8 then "INVALID_PARAMETERS"
    else "DATA_SCOPE_VIOLATION"
  }

  /** Every scope rule pins its parameter to the session's value. */
  ghost predicate Scoped(rule: OperationRule, q: Request) {
    rule.scope.Some? ==> forall r :: r in rule.scope.value ==>
      && (r.claim.CustomerIdClaim? ==> Lookup(q.parameters, r.parameter) == Some(Str(q.claims.customerId)))
      && (r.claim.UserIdClaim? ==> Lookup(q.parameters, r.parameter) == Some(Str(q.claims.userId)))
  }

  /** What a document grants, with no order among the conditions. */
  ghost predicate DocumentRequirement(k: nat, d: ManifestDocument, registered: Option<Tool>, q: Request) {
    if k == 5 then registered.Some? && registered.value.status.ToolActive?
    else if k == 6 then q.tool in d.tools
    else if k == 7 then
      && registered.Some? && q.operation in registered.value.allowedOperations
      && q.tool in d.tools && q.operation in d.tools[q.tool].allowed
    else
      && q.tool in d.tools
      && q.operation in d.tools[q.tool].rules
      && (if k == 8 then Conforms(d.tools[q.tool].rules[q.operation].schema, q.parameters)
          else Scoped(d.tools[q.tool].rules[q.operation], q))
  }

  /** Requirement `k` of a permitted call. */
  ghost predicate Requirement(k: nat, h: Hash, manifests: Manifests, tools: Tools, q: Request) {
    var active := GetActive(manifests, q.agentId);
    active.Some? && (
      var row := manifests[active.value];
      if k == 0 then true
      else if k == 1 then
        && AsUtc(row.effectiveFrom) <= q.now
        && (row.expiresAt.Some? ==> q.now < AsUtc(row.expiresAt.value))
      else if k == 2 then h(Canonical(row.document)) == row.checksum
      else
        var d := Decode(row.document);
        d.Some? && (
          if k == 3 then true
          else if k == 4 then d.value.manifestId == active.value && d.value.agentId == row.agentId
          else DocumentRequirement(k, d.value, ToolByName(tools, q.tool), q)))
  }

  lemma {:induction false} InScopeMeans(rules: seq<ScopeRule>, claims: TrustedClaims, parameters: seq<Field>)
    ensures InScope(rules, claims, parameters) <==>
      forall r :: r in rules ==> Lookup(parameters, r.parameter) == Some(Str(ClaimValue(claims, r.claim)))
  {
    if rules != [] {
      InScopeMeans(rules[1..], claims, parameters);
      assert rules == [rules[0]] + rules[1..];
    }
  }

  lemma EvaluateDocumentAllows(d: ManifestDocument, registered: Option<Tool>, q: Request, id: string, checksum: string)
    requires ValidDocument(d)
    ensures EvaluateDocument(d, registered, q, id, checksum).allowed
            <==> forall k: nat :: 5 <= k < REQUIREMENTS ==> DocumentRequirement(k, d, registered, q)
  {
    hide Conforms;
    hide ValidateParameters;
    hide InScope;
    hide Scoped;
    hide ValidDocument;
    hide Lookup;
    hide ClaimValue;
    if registered.None? || !registered.value.status.ToolActive? {
      assert !DocumentRequirement(5, d, registered, q);
    } else if q.tool !in d.tools {
      assert !DocumentRequirement(6, d, registered, q);
    } else if q.operation !in registered.value.allowedOperations || q.operation !in d.tools[q.tool].allowed {
      assert !DocumentRequirement(7, d, registered, q);
    } else {
      RuleExists(d, q.tool, q.operation);
      var rule := d.tools[q.tool].rules[q.operation];
      ValidateParametersExact(rule.schema, q.parameters);
      ScopedMeans(rule, q);
      assert DocumentRequirement(8, d, registered, q) <==> ValidateParameters(rule.schema, q.parameters);
      assert DocumentRequirement(9, d, registered, q) <==> Scoped(rule, q);
    }
  }

  /** The first requirement a denied call fails. */
  lemma EvaluateDocumentDenies(d: ManifestDocument, registered: Option<Tool>, q: Request, id: string, checksum: string)
    returns (k: nat)
    requires ValidDocument(d) && !EvaluateDocument(d, registered, q, id, checksum).allowed
    ensures 5 <= k < REQUIREMENTS && FirstUnmet(k, d, registered, q)
    ensures EvaluateDocument(d, registered, q, id, checksum).reason == Code(k)
  {
    hide Conforms;
    hide ValidateParameters;
    hide InScope;
    hide Scoped;
    hide ValidDocument;
    hide Lookup;
    hide ClaimValue;
    if registered.None? || !registered.value.status.ToolActive? {
      k := 5;
    } else if q.tool !in d.tools {
      k := 6;
    } else if q.operation !in registered.value.allowedOperations || q.operation !in d.tools[q.tool].allowed {
      k := 7;
    } else {
      RuleExists(d, q.tool, q.operation);
      var rule := d.tools[q.tool].rules[q.operation];
      ValidateParametersExact(rule.schema, q.parameters);
      ScopedMeans(rule, q);
      k := if !ValidateParameters(rule.schema, q.parameters) then 8 else 9;
    }
  }

  lemma ScopedMeans(rule: OperationRule, q: Request)
    ensures Scoped(rule, q) <==> (rule.scope.Some? ==> InScope(rule.scope.value, q.claims, q.parameters))
  {
    if rule.scope.Some? {
      InScopeMeans(rule.scope.value, q.claims, q.parameters);
    }
  }

  ghost predicate FirstUnmet(k: nat, d: ManifestDocument, registered: Option<Tool>, q: Request) {
    && !DocumentRequirement(k, d, registered, q)
    && forall j: nat :: 5 <= j < k ==> DocumentRequirement(j, d, registered, q)
  }

  lemma RuleExists(d: ManifestDocument, tool: string, operation: string)
    requires ValidDocument(d) && tool in d.tools && operation in d.tools[tool].allowed
    ensures operation in d.tools[tool].rules
  {
    assert ValidTool(d.tools[tool]);
  }

  ghost predicate FirstFailure(k: nat, h: Hash, manifests: Manifests, tools: Tools, q: Request) {
    && !Requirement(k, h, manifests, tools, q)
    && forall j: nat :: j < k ==> Requirement(j, h, manifests, tools, q)
  }

  /** A call is allowed exactly when all ten requirements hold; otherwise the reason is the
      code of the first that fails. */
  lemma EvaluateExact(h: Hash, manifests: Manifests, tools: Tools, q: Request)
    ensures var p := Evaluate(h, manifests, tools, q);
      && (p.allowed <==> forall k: nat :: k < REQUIREMENTS ==> Requirement(k, h, manifests, tools, q))
      && (p.allowed ==> p.reason == "ALLOWED")
      && (!p.allowed ==>
            exists k: nat :: k < REQUIREMENTS && FirstFailure(k, h, manifests, tools, q) && p.reason == Code(k))
  {
    hide EvaluateDocument;
    hide DocumentRequirement;
    hide Decode;
    hide Canonical;
    hide AsUtc;
    hide ValidDocument;
    EvaluateReasons(h, manifests, tools, q);
    var p := Evaluate(h, manifests, tools, q);
    var active := GetActive(manifests, q.agentId);
    if active.None? {
      assert FirstFailure(0, h, manifests, tools, q);
    } else {
      var row := manifests[active.value];
      var d := Decode(row.document);
      if !InWindow(row, q.now) {
        assert FirstFailure(1, h, manifests, tools, q);
      } else if Checksum(h, row.document) != row.checksum {
        assert FirstFailure(2, h, manifests, tools, q);
      } else if d.None? {
        assert FirstFailure(3, h, manifests, tools, q);
      } else if d.value.manifestId != active.value || d.value.agentId != row.agentId {
        assert FirstFailure(4, h, manifests, tools, q);
      } else {
        var registered := ToolByName(tools, q.tool);
        EvaluateDocumentAllows(d.value, registered, q, active.value, row.checksum);
        RequirementsOfDocument(h, manifests, tools, q);
        if !p.allowed {
          var k := EvaluateDocumentDenies(d.value, registered, q, active.value, row.checksum);
          assert FirstFailure(k, h, manifests, tools, q);
        }
      }
    }
  }

  lemma EvaluateReasons(h: Hash, manifests: Manifests, tools: Tools, q: Request)
    ensures Evaluate(h, manifests, tools, q).allowed ==> Evaluate(h, manifests, tools, q).reason == "ALLOWED"
  {
    hide Decode;
    hide InScope;
    hide ValidateParameters;
    hide ValidDocument;
  }

  lemma RequirementsOfDocument(h: Hash, manifests: Manifests, tools: Tools, q: Request)
    requires GetActive(manifests, q.agentId).Some?
    requires var row := manifests[GetActive(manifests, q.agentId).value];
      && InWindow(row, q.now) && Checksum(h, row.document) == row.checksum
      && Decode(row.document).Some?
      && Decode(row.document).value.manifestId == GetActive(manifests, q.agentId).value
      && Decode(row.document).value.agentId == row.agentId
    ensures var d := Decode(manifests[GetActive(manifests, q.agentId).value].document).value;
      forall k: nat :: Requirement(k, h, manifests, tools, q)
        <==> (k < 5 || DocumentRequirement(k, d, ToolByName(tools, q.tool), q))
  {
    hide DocumentRequirement;
    hide Decode;
    hide Canonical;
    hide AsUtc;
  }

  /** A call is refused as outside the window exactly when there is an active manifest and the
      clock reads before its start, or at or after its end. */
  lemma ExpiredExactly(h: Hash, manifests: Manifests, tools: Tools, q: Request)
    ensures var active := GetActive(manifests, q.agentId);
      Evaluate(h, manifests, tools, q).reason == "MANIFEST_EXPIRED" <==>
        active.Some? && var row := manifests[active.value];
          q.now < AsUtc(row.effectiveFrom) || (row.expiresAt.Some? && AsUtc(row.expiresAt.value) <= q.now)
  {
    hide AsUtc;
    hide Checksum;
    hide Decode;
    hide ValidDocument;
    hide EvaluateDocument;
    var active := GetActive(manifests, q.agentId);
    if active.Some? && InWindow(manifests[active.value], q.now) {
      var row := manifests[active.value];
      assert |"MANIFEST_EXPIRED"| == 16 && |"POLICY_INTEGRITY_VIOLATION"| == 26;
      assert |"POLICY_CONFIGURATION_INVALID"| == 28;
      if Decode(row.document).Some? {
        DocumentNeverExpires(Decode(row.document).value, ToolByName(tools, q.tool), q, active.value, row.checksum);
      }
    } else {
      assert |"MANIFEST_NOT_FOUND"| == 18;
    }
  }

  lemma DocumentNeverExpires(d: ManifestDocument, registered: Option<Tool>, q: Request, id: string, checksum: string)
    requires ValidDocument(d)
    ensures EvaluateDocument(d, registered, q, id, checksum).reason != "MANIFEST_EXPIRED"
  {
    hide EvaluateDocument;
    EvaluateDocumentReasons(d, registered, q, id, checksum);
    if !EvaluateDocument(d, registered, q, id, checksum).allowed {
      var k := EvaluateDocumentDenies(d, registered, q, id, checksum);
      assert Code(k)[0] != 'M';
    } else {
      assert "ALLOWED"[0] != 'M';
    }
  }

  /** The codes whose denials carry the document's own message. */
  predicate ByTheDocument(code: string) {
    code == "TOOL_NOT_ALLOWED" || code == "OPERATION_NOT_ALLOWED" || code == "DATA_SCOPE_VIOLATION"
  }

  lemma OtherCodes()
    ensures !ByTheDocument("MANIFEST_NOT_FOUND") && !ByTheDocument("MANIFEST_EXPIRED")
    ensures !ByTheDocument("POLICY_INTEGRITY_VIOLATION") && !ByTheDocument("POLICY_CONFIGURATION_INVALID")
    ensures !ByTheDocument("TOOL_NOT_REGISTERED") && !ByTheDocument("INVALID_PARAMETERS") && !ByTheDocument("ALLOWED")
  {
    assert |"TOOL_NOT_ALLOWED"| == 16 && |"OPERATION_NOT_ALLOWED"| == 21 && |"DATA_SCOPE_VIOLATION"| == 20;
    assert |"MANIFEST_NOT_FOUND"| == 18 && |"POLICY_INTEGRITY_VIOLATION"| == 26;
    assert |"POLICY_CONFIGURATION_INVALID"| == 28;
    assert "MANIFEST_EXPIRED"[0] != "TOOL_NOT_ALLOWED"[0] && |"MANIFEST_EXPIRED"| == 16;
    assert |"TOOL_NOT_REGISTERED"| == 19 && |"INVALID_PARAMETERS"| == 18 && |"ALLOWED"| == 7;
  }

  lemma EvaluateDocumentReasons(d: ManifestDocument, registered: Option<Tool>, q: Request, id: string, checksum: string)
    requires ValidDocument(d)
    ensures var p := EvaluateDocument(d, registered, q, id, checksum);
      && p.manifestId == Some(id) && p.checksum == Some(checksum)
      && (p.allowed ==> p.reason == "ALLOWED" && p.message == "Tool call is permitted")
      && (ByTheDocument(p.reason) ==> p.message == d.denyMessage)
  {
    hide ValidDocument;
    hide ValidateParameters;
    hide InScope;
    hide Lookup;
    hide ByTheDocument;
    OtherCodes();
    if registered.None? || !registered.value.status.ToolActive? {
    } else if q.tool !in d.tools {
    } else if q.operation !in registered.value.allowedOperations || q.operation !in d.tools[q.tool].allowed {
    } else {
      RuleExists(d, q.tool, q.operation);
    }
  }

  lemma RowNamesManifest(h: Hash, id: string, row: Manifest, tools: Tools, q: Request)
    ensures var p := EvaluateRow(h, id, row, tools, q);
      && p.manifestId == Some(id) && p.checksum == Some(row.checksum)
      && (ByTheDocument(p.reason) ==>
            Decode(row.document).Some? && p.message == Decode(row.document).value.denyMessage)
  {
    hide InWindow;
    hide Checksum;
    hide Decode;
    hide ValidDocument;
    hide EvaluateDocument;
    hide ByTheDocument;
    OtherCodes();
    if Decode(row.document).Some? {
      EvaluateDocumentReasons(Decode(row.document).value, ToolByName(tools, q.tool), q, id, row.checksum);
    }
  }

  /** Every decision names the active manifest and its stored checksum, if there is one, and a
      denial by the document's terms carries the document's own message. */
  lemma DecisionNamesManifest(h: Hash, manifests: Manifests, tools: Tools, q: Request)
    ensures var p, active := Evaluate(h, manifests, tools, q), GetActive(manifests, q.agentId);
      && p.manifestId == active
      && p.checksum == (if active.Some? then Some(manifests[active.value].checksum) else None)
      && (ByTheDocument(p.reason) ==>
            && active.Some? && Decode(manifests[active.value].document).Some?
            && p.message == Decode(manifests[active.value].document).value.denyMessage)
  {
    hide EvaluateRow;
    hide Decode;
    hide ByTheDocument;
    OtherCodes();
    var active := GetActive(manifests, q.agentId);
    if active.Some? { RowNamesManifest(h, active.value, manifests[active.value], tools, q); }
  }
}
