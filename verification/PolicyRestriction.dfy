/** Tightening a manifest never grants a call, and the order or repetition of list entries
    never matters. */
module PolicyRestriction {
  import opened Wrappers
  import opened Json
  import opened UtcTime
  import opened PolicyPinning
  import opened Redaction
  import opened AuditEvents
  import opened Domain
  import opened ManifestSchema
  import opened Policy

  /** `t` admits no value that `o` refuses. */
  predicate TighterConstraint(t: Constraint, o: Constraint) {
    match o
    case ObjectConstraint => t.ObjectConstraint?
    case StringConstraint(m) =>
      t.StringConstraint? && (m.Some? ==> t.maxLength.Some? && t.maxLength.value <= m.value)
  }

  /** More names required; no undeclared name let in anew; each declared constraint tightened,
      or its name shut out. */
  ghost predicate TighterSchema(t: ParameterSchema, o: ParameterSchema) {
    && (forall name :: name in o.required ==> name in t.required)
    && (t.additional ==> o.additional)
    && (forall name :: name in t.properties && name !in o.properties ==> o.additional)
    && (forall name :: name in o.properties ==>
          if name in t.properties then TighterConstraint(t.properties[name], o.properties[name]) else !t.additional)
  }

  /** Every scope rule of `o` is also a scope rule of `t`. */
  ghost predicate TighterScope(t: Option<seq<ScopeRule>>, o: Option<seq<ScopeRule>>) {
    o.Some? ==> t.Some? && forall r :: r in o.value ==> r in t.value
  }

  ghost predicate TighterRule(t: OperationRule, o: OperationRule) {
    TighterSchema(t.schema, o.schema) && TighterScope(t.scope, o.scope)
  }

  ghost predicate TighterTool(t: ToolPermission, o: ToolPermission) {
    forall op :: op in t.rules ==> op in o.rules && TighterRule(t.rules[op], o.rules[op])
  }

  ghost predicate TighterDocument(t: ManifestDocument, o: ManifestDocument) {
    forall tool :: tool in t.tools ==> tool in o.tools && TighterTool(t.tools[tool], o.tools[tool])
  }

  lemma TighterSchemaConforms(t: ParameterSchema, o: ParameterSchema, parameters: seq<Field>)
    requires TighterSchema(t, o) && Conforms(t, parameters)
    ensures Conforms(o, parameters)
  {
    hide Present;
    forall f | f in parameters && f.name in o.properties ensures Admits(o.properties[f.name], f.value) {
      if f.name in t.properties {
        assert Admits(t.properties[f.name], f.value);
      }
    }
  }

  lemma TighterDocumentGrantsLess(t: ManifestDocument, o: ManifestDocument, registered: Option<Tool>, q: Request,
                                  id: string, tChecksum: string, oChecksum: string)
    requires ValidDocument(t) && ValidDocument(o) && TighterDocument(t, o)
    requires EvaluateDocument(t, registered, q, id, tChecksum).allowed
    ensures EvaluateDocument(o, registered, q, id, oChecksum).allowed
  {
    hide EvaluateDocument;
    hide Conforms;
    hide TighterSchema;
    hide Lookup;
    EvaluateDocumentAllows(t, registered, q, id, tChecksum);
    EvaluateDocumentAllows(o, registered, q, id, oChecksum);
    assert forall k: nat :: 5 <= k < 10 ==> DocumentRequirement(k, t, registered, q);
    assert DocumentRequirement(5, t, registered, q) && DocumentRequirement(6, t, registered, q);
    assert DocumentRequirement(7, t, registered, q) && DocumentRequirement(8, t, registered, q);
    assert DocumentRequirement(9, t, registered, q);
    assert TighterTool(t.tools[q.tool], o.tools[q.tool]);
    assert ValidTool(o.tools[q.tool]);
    var tr, orr := t.tools[q.tool].rules[q.operation], o.tools[q.tool].rules[q.operation];
    TighterSchemaConforms(tr.schema, orr.schema, q.parameters);
    assert Scoped(orr, q);
    forall k: nat | 5 <= k < REQUIREMENTS ensures DocumentRequirement(k, o, registered, q) {
    }
  }

  /** The row with another document, sealed with that document's checksum. */
  function WithDocument(h: Hash, row: Manifest, document: Json): Manifest {
    row.(document := document, checksum := Checksum(h, document))
  }

  /** Replace the document of an agent's active manifest by a tighter one: every call then
      allowed was allowed before. */
  lemma RestrictionIsMonotone(h: Hash, manifests: Manifests, tools: Tools, id: string, document: Json, q: Request)
    requires OneActive(manifests) && IsActive(manifests, q.agentId, id)
    requires manifests[id].checksum == Checksum(h, manifests[id].document)
    requires Decode(manifests[id].document).Some? && Decode(document).Some?
    requires Decode(manifests[id].document).value.manifestId == id
    requires Decode(manifests[id].document).value.agentId == manifests[id].agentId
    requires TighterDocument(Decode(document).value, Decode(manifests[id].document).value)
    requires Evaluate(h, manifests[id := WithDocument(h, manifests[id], document)], tools, q).allowed
    ensures Evaluate(h, manifests, tools, q).allowed
  {
    hide EvaluateDocument;
    hide TighterDocument;
    hide Decode;
    hide Canonical;
    hide ValidDocument;
    var changed := manifests[id := WithDocument(h, manifests[id], document)];
    ActiveIsUnique(manifests, q.agentId, id);
    ActiveIsUnique(changed, q.agentId, id);
    TighterDocumentGrantsLess(Decode(document).value, Decode(manifests[id].document).value, ToolByName(tools, q.tool),
                              q, id, changed[id].checksum, manifests[id].checksum);
  }

  // ---------------------------------------------------------------- lists are sets

  ghost predicate SameEntries<T(!new)>(a: seq<T>, b: seq<T>) {
    forall x :: x in a <==> x in b
  }

  ghost predicate SameRuleLists(a: OperationRule, b: OperationRule) {
    && a.schema.properties == b.schema.properties
    && a.schema.additional == b.schema.additional
    && SameEntries(a.schema.required, b.schema.required)
    && (a.scope.Some? <==> b.scope.Some?)
    && (a.scope.Some? ==> SameEntries(a.scope.value, b.scope.value))
  }

  ghost predicate SameToolLists(a: ToolPermission, b: ToolPermission) {
    && SameEntries(a.allowed, b.allowed)
    && a.rules.Keys == b.rules.Keys
    && forall op :: op in a.rules ==> SameRuleLists(a.rules[op], b.rules[op])
  }

  /** The same document up to the order and repetition of list entries. */
  ghost predicate SameLists(a: ManifestDocument, b: ManifestDocument) {
    && a.manifestId == b.manifestId && a.agentId == b.agentId && a.denyMessage == b.denyMessage
    && a.tools.Keys == b.tools.Keys
    && forall tool :: tool in a.tools ==> SameToolLists(a.tools[tool], b.tools[tool])
  }

  ghost predicate SameRegistration(a: Option<Tool>, b: Option<Tool>) {
    match (a, b)
    case (None, None) => true
    case (Some(x), Some(y)) => x.status == y.status && SameEntries(x.allowedOperations, y.allowedOperations)
    case _ => false
  }

  lemma SameRuleSameAnswer(a: OperationRule, b: OperationRule, q: Request)
    requires SameRuleLists(a, b)
    ensures ValidateParameters(a.schema, q.parameters) <==> ValidateParameters(b.schema, q.parameters)
    ensures (a.scope.Some? ==> InScope(a.scope.value, q.claims, q.parameters))
            <==> (b.scope.Some? ==> InScope(b.scope.value, q.claims, q.parameters))
  {
    hide ValidateParameters;
    hide InScope;
    hide Present;
    ValidateParametersExact(a.schema, q.parameters);
    ValidateParametersExact(b.schema, q.parameters);
    ScopedMeans(a, q);
    ScopedMeans(b, q);
  }

  /** Reordering or repeating list entries changes neither the decision nor its reason. */
  lemma ListOrderIsIrrelevant(a: ManifestDocument, b: ManifestDocument, registered: Option<Tool>, other: Option<Tool>,
                              q: Request, id: string, checksum: string)
    requires ValidDocument(a) && ValidDocument(b) && SameLists(a, b)
    requires SameRegistration(registered, other)
    ensures EvaluateDocument(a, registered, q, id, checksum) == EvaluateDocument(b, other, q, id, checksum)
  {
    hide ValidateParameters;
    hide InScope;
    hide SameRuleLists;
    hide ValidTool;
    if q.tool in a.tools && q.operation in a.tools[q.tool].allowed {
      assert SameToolLists(a.tools[q.tool], b.tools[q.tool]);
      RuleExists(a, q.tool, q.operation);
      SameRuleSameAnswer(a.tools[q.tool].rules[q.operation], b.tools[q.tool].rules[q.operation], q);
    }
  }

  // ---------------------------------------------------------------- the same, for stored rows

  /** The unique constraint on tool names. */
  ghost predicate UniqueToolNames(tools: Tools) {
    forall m, n :: m in tools && n in tools && tools[m].name == tools[n].name ==> m == n
  }

  /** The same tools up to the order and repetition of their operations. */
  ghost predicate SameToolRows(a: Tools, b: Tools) {
    && a.Keys == b.Keys
    && forall id :: id in a ==>
         a[id].name == b[id].name && a[id].status == b[id].status
         && SameEntries(a[id].allowedOperations, b[id].allowedOperations)
  }

  lemma SameRegistered(a: Tools, b: Tools, name: string)
    requires UniqueToolNames(a) && SameToolRows(a, b)
    ensures SameRegistration(ToolByName(a, name), ToolByName(b, name))
  {
    hide SameEntries;
    assert forall id :: IsTool(a, name, id) <==> IsTool(b, name, id);
    if ToolByName(a, name).Some? {
      var m :| IsTool(a, name, m) && a[m] == ToolByName(a, name).value;
      assert IsTool(b, name, m);
      var n :| IsTool(b, name, n) && b[n] == ToolByName(b, name).value;
      assert m == n;
    }
  }

  lemma ChecksumIsOnlyReported(d: ManifestDocument, registered: Option<Tool>, q: Request, id: string,
                               a: string, b: string)
    requires ValidDocument(d)
    ensures EvaluateDocument(d, registered, q, id, a).(checksum := None)
            == EvaluateDocument(d, registered, q, id, b).(checksum := None)
  {
    hide ValidateParameters;
    hide InScope;
    hide ValidDocument;
    hide Lookup;
    if registered.None? || !registered.value.status.ToolActive? {
    } else if q.tool !in d.tools {
    } else if q.operation !in registered.value.allowedOperations || q.operation !in d.tools[q.tool].allowed {
    } else {
      RuleExists(d, q.tool, q.operation);
    }
  }

  lemma SameListsReflexive(d: ManifestDocument)
    ensures SameLists(d, d)
  {
  }

  /** The row of `id` as the two tables hold it: the same up to its document and checksum, and
      these agree up to list order. */
  ghost predicate RowReordered(h: Hash, a: Manifest, b: Manifest) {
    && Decode(a.document).Some? && Decode(b.document).Some?
    && SameLists(Decode(a.document).value, Decode(b.document).value)
    && a.checksum == Checksum(h, a.document) && b == WithDocument(h, a, b.document)
  }

  lemma ReorderedRow(h: Hash, id: string, a: Manifest, b: Manifest, tools: Tools, others: Tools, q: Request)
    requires UniqueToolNames(tools) && SameToolRows(tools, others) && RowReordered(h, a, b)
    ensures EvaluateRow(h, id, b, others, q).(checksum := None) == EvaluateRow(h, id, a, tools, q).(checksum := None)
  {
    hide EvaluateDocument;
    hide SameLists;
    hide SameToolRows;
    hide SameRegistration;
    hide UniqueToolNames;
    hide Canonical;
    hide Decode;
    hide ValidDocument;
    hide AsUtc;
    SameRegistered(tools, others, q.tool);
    var d, e := Decode(a.document).value, Decode(b.document).value;
    SameListsSameIdentity(d, e);
    ListOrderIsIrrelevant(d, e, ToolByName(tools, q.tool), ToolByName(others, q.tool), q, id, a.checksum);
    ChecksumIsOnlyReported(e, ToolByName(others, q.tool), q, id, a.checksum, b.checksum);
  }

  lemma SameRowReordersTools(h: Hash, id: string, row: Manifest, tools: Tools, others: Tools, q: Request)
    requires UniqueToolNames(tools) && SameToolRows(tools, others)
    ensures EvaluateRow(h, id, row, others, q) == EvaluateRow(h, id, row, tools, q)
  {
    hide EvaluateDocument;
    hide SameLists;
    hide SameToolRows;
    hide SameRegistration;
    hide UniqueToolNames;
    hide Canonical;
    hide Decode;
    hide ValidDocument;
    hide AsUtc;
    SameRegistered(tools, others, q.tool);
    if Decode(row.document).Some? {
      var d := Decode(row.document).value;
      SameListsReflexive(d);
      ListOrderIsIrrelevant(d, d, ToolByName(tools, q.tool), ToolByName(others, q.tool), q, id, row.checksum);
    }
  }

  /** Reorder or repeat list entries in a stored manifest, sealing it anew, and in the registered
      tools: no call is decided differently or for another reason. */
  lemma StoredOrderIsIrrelevant(h: Hash, manifests: Manifests, tools: Tools, others: Tools, id: string, document: Json,
                                q: Request)
    requires OneActive(manifests) && id in manifests && UniqueToolNames(tools) && SameToolRows(tools, others)
    requires RowReordered(h, manifests[id], WithDocument(h, manifests[id], document))
    ensures Evaluate(h, manifests[id := WithDocument(h, manifests[id], document)], others, q).(checksum := None)
            == Evaluate(h, manifests, tools, q).(checksum := None)
  {
    hide EvaluateRow;
    hide RowReordered;
    hide SameToolRows;
    hide UniqueToolNames;
    hide Checksum;
    var changed := manifests[id := WithDocument(h, manifests[id], document)];
    SameActive(manifests, changed, q.agentId);
    var active := GetActive(manifests, q.agentId);
    if active == Some(id) {
      ReorderedRow(h, id, manifests[id], changed[id], tools, others, q);
    } else if active.Some? {
      SameRowReordersTools(h, active.value, manifests[active.value], tools, others, q);
    }
  }

  lemma SameListsSameIdentity(a: ManifestDocument, b: ManifestDocument)
    requires SameLists(a, b)
    ensures a.manifestId == b.manifestId && a.agentId == b.agentId
  {
  }
}
