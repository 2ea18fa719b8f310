/** Every valid policy can be written down: model validation refuses no document it should
    accept, and what it accepts is exactly the valid policies. */
module ManifestEncoding {
  import opened Wrappers
  import opened Json
  import opened Redaction
  import opened ManifestSchema
  import opened PolicyPinning

  // ---------------------------------------------------------------- lists and dictionaries

  function EncodeStrings(xs: seq<string>): seq<Json> {
    if xs == [] then [] else [Str(xs[0])] + EncodeStrings(xs[1..])
  }

  lemma {:induction false} StringsRoundTrip(xs: seq<string>)
    ensures DecodeStrings(EncodeStrings(xs)) == Some(xs) && WellFormed(Arr(EncodeStrings(xs)))
  {
    if xs != [] {
      StringsRoundTrip(xs[1..]);
      assert EncodeStrings(xs)[1..] == EncodeStrings(xs[1..]) && [xs[0]] + xs[1..] == xs;
      var items := EncodeStrings(xs);
      forall i | 0 <= i < |items| ensures WellFormed(items[i]) {
        if i > 0 { assert items[i] == EncodeStrings(xs[1..])[i - 1]; }
      }
    }
  }

  /** The fields are the entries of the dictionary, each once. */
  ghost predicate Lists<T>(fields: seq<Field>, m: map<string, T>, encode: T -> Json) {
    && (forall f :: f in fields ==> f.name in m && f.value == encode(m[f.name]))
    && (forall name :: name in m ==> Field(name, encode(m[name])) in fields)
    && UniqueNames(fields)
  }

  lemma ListsCons<T>(tail: seq<Field>, m: map<string, T>, encode: T -> Json, name: string)
    requires name in m && Lists(tail, m - {name}, encode)
    ensures Lists([Field(name, encode(m[name]))] + tail, m, encode)
  {
    var fields := [Field(name, encode(m[name]))] + tail;
    forall n | n in m ensures Field(n, encode(m[n])) in fields {
      if n == name {
        assert fields[0] == Field(n, encode(m[n]));
      } else {
        assert n in m - {name};
        assert Field(n, encode((m - {name})[n])) in tail;
      }
    }
    forall i, j | 0 <= i < j < |fields| ensures fields[i].name != fields[j].name {
      assert fields[j] == tail[j - 1] && tail[j - 1] in tail;
    }
  }

  /** The entries of a dictionary, in some order. */
  ghost function FieldsOf<T>(m: map<string, T>, encode: T -> Json): (fields: seq<Field>)
    ensures Lists(fields, m, encode)
    decreases |m|
  {
    if m == map[] then []
    else
      var name :| name in m;
      assert (m - {name}).Keys == m.Keys - {name};
      var tail := FieldsOf(m - {name}, encode);
      ListsCons(tail, m, encode, name);
      [Field(name, encode(m[name]))] + tail
  }

  /** Encoding each value and decoding the entries gives the dictionary back. */
  lemma DictionaryRoundTrip<T(!new)>(m: map<string, T>, encode: T -> Json, decode: Json -> Option<T>,
                                     r: Option<map<string, T>>)
    requires DecodesTo(FieldsOf(m, encode), decode, r)
    requires forall name :: name in m ==> decode(encode(m[name])) == Some(m[name])
    ensures r == Some(m)
  {
    hide FieldsOf;
    hide Lookup;
    var fields := FieldsOf(m, encode);
    assert AllDecode(fields, decode);
    forall name | name in m ensures name in r.value && r.value[name] == m[name] {
      var f := Field(name, encode(m[name]));
      assert f in fields;
    }
    forall name | name in r.value ensures name in m {
      var f := Field(name, Lookup(fields, name).value);
      assert f in fields;
    }
    assert r.value == m;
  }

  lemma DictionaryWellFormed<T(!new)>(m: map<string, T>, encode: T -> Json)
    requires forall name :: name in m ==> WellFormed(encode(m[name]))
    ensures WellFormed(Obj(FieldsOf(m, encode)))
  {
    hide WellFormed;
    ObjectWellFormed(FieldsOf(m, encode));
  }

  lemma ObjectWellFormed(fields: seq<Field>)
    requires UniqueNames(fields) && forall f :: f in fields ==> WellFormed(f.value)
    ensures WellFormed(Obj(fields))
  {
    forall i | 0 <= i < |fields| ensures WellFormed(fields[i].value) { assert fields[i] in fields; }
  }

  lemma ListWellFormed(items: seq<Json>)
    requires forall v :: v in items ==> WellFormed(v)
    ensures WellFormed(Arr(items))
  {
    forall i | 0 <= i < |items| ensures WellFormed(items[i]) { assert items[i] in items; }
  }

  lemma ScalarWellFormed(v: Json)
    requires !v.Arr? && !v.Obj?
    ensures WellFormed(v)
  {
  }

  /** Two fields with names of different lengths. */
  lemma PairLookups(f: Field, g: Field)
    requires |f.name| != |g.name|
    ensures Lookup([f, g], f.name) == Some(f.value) && Lookup([f, g], g.name) == Some(g.value)
    ensures UniqueNames([f, g]) && OnlyKeys([f, g], {f.name, g.name})
    ensures WellFormed(f.value) && WellFormed(g.value) ==> WellFormed(Obj([f, g]))
  {
    LookupAt([f, g], 0);
    LookupAt([f, g], 1);
    if WellFormed(f.value) && WellFormed(g.value) { ObjectWellFormed([f, g]); }
  }

  // ---------------------------------------------------------------- schemas

  function OptionalNumber(n: Option<int>): Json {
    match n
    case None => Null
    case Some(k) => Num(k)
  }

  function EncodeConstraint(c: Constraint): Json {
    match c
    case ObjectConstraint => Obj([Field("type", Str("object"))])
    case StringConstraint(m) => Obj([Field("type", Str("string")), Field("maxLength", OptionalNumber(m))])
  }

  lemma ConstraintRoundTrip(c: Constraint)
    requires ValidConstraint(c)
    ensures DecodeConstraint(EncodeConstraint(c)) == Some(c) && WellFormed(EncodeConstraint(c))
  {
    hide Lookup;
    if c.StringConstraint? {
      PairLookups(Field("type", Str("string")), Field("maxLength", OptionalNumber(c.maxLength)));
    } else {
      LookupAt([Field("type", Str("object"))], 0);
      assert |"string"| == |"object"| && "string"[0] != "object"[0];
    }
  }

  ghost function SchemaFields(s: ParameterSchema): seq<Field> {
    [Field("required", Arr(EncodeStrings(s.required))),
     Field("properties", Obj(FieldsOf(s.properties, EncodeConstraint))),
     Field("additionalProperties", Bool(s.additional))]
  }

  lemma SchemaLookups(s: ParameterSchema)
    ensures var fields := SchemaFields(s);
      && Lookup(fields, "required") == Some(Arr(EncodeStrings(s.required)))
      && Lookup(fields, "properties") == Some(Obj(FieldsOf(s.properties, EncodeConstraint)))
      && Lookup(fields, "additionalProperties") == Some(Bool(s.additional))
      && Lookup(fields, "additional_properties") == None
      && OnlyKeys(fields, {"required", "properties", "additionalProperties", "additional_properties"})
      && UniqueNames(fields)
  {
    hide Lookup;
    hide FieldsOf;
    hide EncodeStrings;
    var fields := SchemaFields(s);
    assert |fields[0].name| == 8 && |fields[1].name| == 10 && |fields[2].name| == 20;
    LookupAt(fields, 0);
    LookupAt(fields, 1);
    LookupAt(fields, 2);
    assert forall f :: f in fields ==> |f.name| != |"additional_properties"|;
  }

  /** Every valid parameter schema is the reading of some document. */
  lemma SchemaRoundTrip(s: ParameterSchema)
    requires ValidSchema(s)
    ensures DecodeSchema(Some(Obj(SchemaFields(s)))) == Some(s) && WellFormed(Obj(SchemaFields(s)))
  {
    hide Lookup;
    hide OnlyKeys;
    hide WellFormed;
    hide SchemaFields;
    hide FieldsOf;
    hide EncodeStrings;
    hide DecodeStrings;
    SchemaLookups(s);
    StringsRoundTrip(s.required);
    PropertiesRoundTrip(s.properties);
    SchemaWellFormed(s);
  }

  lemma PropertiesRoundTrip(m: map<string, Constraint>)
    requires forall name :: name in m ==> ValidConstraint(m[name])
    ensures DecodeProperties(FieldsOf(m, EncodeConstraint)) == Some(m)
    ensures WellFormed(Obj(FieldsOf(m, EncodeConstraint)))
  {
    hide WellFormed;
    hide EncodeConstraint;
    hide DecodeConstraint;
    forall name | name in m ensures DecodeConstraint(EncodeConstraint(m[name])) == Some(m[name]) {
      ConstraintRoundTrip(m[name]);
    }
    forall name | name in m ensures WellFormed(EncodeConstraint(m[name])) { ConstraintRoundTrip(m[name]); }
    var fields := FieldsOf(m, EncodeConstraint);
    PropertiesDecode(fields);
    DictionaryRoundTrip(m, EncodeConstraint, DecodeConstraint, DecodeProperties(fields));
    DictionaryWellFormed(m, EncodeConstraint);
  }

  lemma SchemaWellFormed(s: ParameterSchema)
    requires UniqueNames(SchemaFields(s)) && WellFormed(Obj(FieldsOf(s.properties, EncodeConstraint)))
    ensures WellFormed(Obj(SchemaFields(s)))
  {
    hide WellFormed;
    hide FieldsOf;
    StringsRoundTrip(s.required);
    ScalarWellFormed(Bool(s.additional));
    ObjectWellFormed(SchemaFields(s));
  }

  // ---------------------------------------------------------------- scopes

  function ClaimName(c: Claim): string {
    match c
    case CustomerIdClaim => "customer_id"
    case UserIdClaim => "user_id"
  }

  function EncodeScopeRule(r: ScopeRule): Json {
    Obj([Field("type", Str("session_value_equals_parameter")), Field("session_claim", Str(ClaimName(r.claim))),
         Field("parameter", Str(r.parameter))])
  }

  lemma ScopeRuleRoundTrip(r: ScopeRule)
    requires 1 <= |r.parameter| <= 100
    ensures DecodeScopeRule(EncodeScopeRule(r)) == Some(r) && WellFormed(EncodeScopeRule(r))
  {
    hide Lookup;
    var fields := EncodeScopeRule(r).fields;
    assert |fields[0].name| == 4 && |fields[1].name| == 13 && |fields[2].name| == 9;
    LookupAt(fields, 0);
    LookupAt(fields, 1);
    LookupAt(fields, 2);
    assert |"customer_id"| != |"user_id"|;
    ObjectWellFormed(fields);
  }

  function EncodeScopeRules(rules: seq<ScopeRule>): seq<Json> {
    if rules == [] then [] else [EncodeScopeRule(rules[0])] + EncodeScopeRules(rules[1..])
  }

  lemma {:induction false} ScopeRulesRoundTrip(rules: seq<ScopeRule>)
    requires forall r :: r in rules ==> 1 <= |r.parameter| <= 100
    ensures DecodeScopeRules(EncodeScopeRules(rules)) == Some(rules)
    ensures forall v :: v in EncodeScopeRules(rules) ==> WellFormed(v)
  {
    hide EncodeScopeRule;
    hide DecodeScopeRule;
    hide WellFormed;
    if rules != [] {
      ScopeRuleRoundTrip(rules[0]);
      ScopeRulesRoundTrip(rules[1..]);
      assert EncodeScopeRules(rules)[1..] == EncodeScopeRules(rules[1..]);
      assert [rules[0]] + rules[1..] == rules;
    }
  }

  function EncodeScope(scope: Option<seq<ScopeRule>>): Json {
    match scope
    case None => Null
    case Some(rules) => Obj([Field("all", Arr(EncodeScopeRules(rules)))])
  }

  lemma ScopeRoundTrip(scope: Option<seq<ScopeRule>>)
    requires scope.Some? ==> ValidScope(scope.value)
    ensures DecodeScope(Some(EncodeScope(scope))) == Some(scope) && WellFormed(EncodeScope(scope))
  {
    hide Lookup;
    hide EncodeScopeRules;
    hide DecodeScopeRules;
    if scope.Some? {
      var fields := [Field("all", Arr(EncodeScopeRules(scope.value)))];
      ScopeRulesRoundTrip(scope.value);
      LookupAt(fields, 0);
      ListWellFormed(EncodeScopeRules(scope.value));
      ObjectWellFormed(fields);
    }
  }

  // ---------------------------------------------------------------- rules, tools, documents

  ghost function EncodeRule(r: OperationRule): Json {
    Obj([Field("parameter_schema", Obj(SchemaFields(r.schema))), Field("data_scope", EncodeScope(r.scope))])
  }

  lemma RuleRoundTrip(r: OperationRule)
    requires ValidRule(r)
    ensures DecodeRule(EncodeRule(r)) == Some(r) && WellFormed(EncodeRule(r))
  {
    hide Lookup;
    hide WellFormed;
    hide ValidSchema;
    hide SchemaFields;
    hide EncodeScope;
    hide DecodeSchema;
    hide DecodeScope;
    SchemaRoundTrip(r.schema);
    ScopeRoundTrip(r.scope);
    PairLookups(Field("parameter_schema", Obj(SchemaFields(r.schema))), Field("data_scope", EncodeScope(r.scope)));
  }

  lemma RulesRoundTrip(m: map<string, OperationRule>)
    requires forall name :: name in m ==> ValidRule(m[name])
    ensures DecodeRules(FieldsOf(m, EncodeRule)) == Some(m) && WellFormed(Obj(FieldsOf(m, EncodeRule)))
  {
    hide WellFormed;
    hide EncodeRule;
    hide DecodeRule;
    hide ValidRule;
    forall name | name in m ensures DecodeRule(EncodeRule(m[name])) == Some(m[name]) { RuleRoundTrip(m[name]); }
    forall name | name in m ensures WellFormed(EncodeRule(m[name])) { RuleRoundTrip(m[name]); }
    var fields := FieldsOf(m, EncodeRule);
    RulesDecode(fields);
    DictionaryRoundTrip(m, EncodeRule, DecodeRule, DecodeRules(fields));
    DictionaryWellFormed(m, EncodeRule);
  }

  ghost function EncodeTool(t: ToolPermission): Json {
    Obj([Field("allowed_operations", Arr(EncodeStrings(t.allowed))),
         Field("operation_rules", Obj(FieldsOf(t.rules, EncodeRule)))])
  }

  /** Every valid tool permission is the reading of some document. */
  lemma ToolRoundTrip(t: ToolPermission)
    requires ValidTool(t)
    ensures DecodeTool(EncodeTool(t)) == Some(t) && WellFormed(EncodeTool(t))
  {
    hide Lookup;
    hide WellFormed;
    hide ValidRule;
    hide FieldsOf;
    hide EncodeRule;
    hide EncodeStrings;
    hide DecodeStrings;
    hide DecodeRules;
    StringsRoundTrip(t.allowed);
    RulesRoundTrip(t.rules);
    PairLookups(Field("allowed_operations", Arr(EncodeStrings(t.allowed))),
                Field("operation_rules", Obj(FieldsOf(t.rules, EncodeRule))));
  }

  lemma ToolsRoundTrip(m: map<string, ToolPermission>)
    requires forall name :: name in m ==> ValidTool(m[name])
    ensures DecodeTools(FieldsOf(m, EncodeTool)) == Some(m) && WellFormed(Obj(FieldsOf(m, EncodeTool)))
  {
    hide WellFormed;
    hide EncodeTool;
    hide DecodeTool;
    hide ValidTool;
    forall name | name in m ensures DecodeTool(EncodeTool(m[name])) == Some(m[name]) { ToolRoundTrip(m[name]); }
    forall name | name in m ensures WellFormed(EncodeTool(m[name])) { ToolRoundTrip(m[name]); }
    var fields := FieldsOf(m, EncodeTool);
    ToolsDecode(fields);
    DictionaryRoundTrip(m, EncodeTool, DecodeTool, DecodeTools(fields));
    DictionaryWellFormed(m, EncodeTool);
  }

  function DocumentFields(id: string, agentId: string, deny: string, tools: Json): seq<Field> {
    [Field("schema_version", Str("1.0")), Field("manifest_id", Str(id)), Field("agent_id", Str(agentId)),
     Field("tools", tools), Field("deny_message", Str(deny))]
  }

  lemma DocumentLookups(id: string, agentId: string, deny: string, tools: Json)
    ensures var fields := DocumentFields(id, agentId, deny, tools);
      && OnlyKeys(fields, {"schema_version", "manifest_id", "agent_id", "tools", "deny_message"})
      && UniqueNames(fields)
      && Lookup(fields, "schema_version") == Some(Str("1.0"))
      && Lookup(fields, "manifest_id") == Some(Str(id))
      && Lookup(fields, "agent_id") == Some(Str(agentId))
      && Lookup(fields, "tools") == Some(tools)
      && Lookup(fields, "deny_message") == Some(Str(deny))
  {
    hide Lookup;
    var fields := DocumentFields(id, agentId, deny, tools);
    assert |fields[0].name| == 14 && |fields[1].name| == 11 && |fields[2].name| == 8 && |fields[3].name| == 5;
    assert |fields[4].name| == 12;
    LookupAt(fields, 0);
    LookupAt(fields, 1);
    LookupAt(fields, 2);
    LookupAt(fields, 3);
    LookupAt(fields, 4);
  }

  lemma DocumentWellFormed(id: string, agentId: string, deny: string, tools: Json)
    requires WellFormed(tools)
    ensures WellFormed(Obj(DocumentFields(id, agentId, deny, tools)))
  {
    hide WellFormed;
    hide Lookup;
    hide OnlyKeys;
    hide UniqueNames;
    DocumentLookups(id, agentId, deny, tools);
    forall s ensures WellFormed(Str(s)) { ScalarWellFormed(Str(s)); }
    ObjectWellFormed(DocumentFields(id, agentId, deny, tools));
  }

  lemma DocumentReads(id: string, agentId: string, deny: string, fields: seq<Field>, tools: map<string, ToolPermission>)
    requires DecodeTools(fields) == Some(tools) && tools != map[]
    requires 1 <= |id| <= 100 && 1 <= |agentId| <= 64 && 1 <= |deny| <= 500
    ensures Decode(Obj(DocumentFields(id, agentId, deny, Obj(fields))))
            == Some(ManifestDocument(id, agentId, tools, deny))
  {
    hide Lookup;
    hide OnlyKeys;
    hide DocumentFields;
    hide DecodeTools;
    DocumentLookups(id, agentId, deny, Obj(fields));
  }

  ghost function EncodeDocument(d: ManifestDocument): Json {
    Obj(DocumentFields(d.manifestId, d.agentId, d.denyMessage, Obj(FieldsOf(d.tools, EncodeTool))))
  }

  /** Every valid policy is the reading of some well-formed document. */
  lemma DocumentRoundTrip(d: ManifestDocument)
    requires ValidDocument(d)
    ensures WellFormed(EncodeDocument(d)) && Decode(EncodeDocument(d)) == Some(d)
  {
    hide Decode;
    hide WellFormed;
    hide DocumentFields;
    hide ValidTool;
    hide FieldsOf;
    hide EncodeTool;
    var tools := Obj(FieldsOf(d.tools, EncodeTool));
    ToolsRoundTrip(d.tools);
    DocumentReads(d.manifestId, d.agentId, d.denyMessage, tools.fields, d.tools);
    DocumentWellFormed(d.manifestId, d.agentId, d.denyMessage, tools);
  }

  // ---------------------------------------------------------------- exactly the valid ones

  ghost predicate SchemaReadingOf(v: Json, s: ParameterSchema) {
    WellFormed(v) && DecodeSchema(Some(v)) == Some(s)
  }

  /** The parameter schemas validation can produce are exactly those that declare every required
      name and bound every length within limits. */
  lemma AcceptedSchemasAreTheValidOnes(s: ParameterSchema)
    ensures (exists v :: SchemaReadingOf(v, s)) <==> ValidSchema(s)
  {
    hide DecodeSchema;
    hide WellFormed;
    hide ValidSchema;
    hide SchemaFields;
    if ValidSchema(s) {
      SchemaRoundTrip(s);
      assert SchemaReadingOf(Obj(SchemaFields(s)), s);
    }
  }

  ghost predicate ToolReadingOf(v: Json, t: ToolPermission) {
    WellFormed(v) && DecodeTool(v) == Some(t)
  }

  /** The tool permissions validation can produce are exactly those that allow something and
      have rules, all valid, for what they allow and nothing else. */
  lemma AcceptedToolsAreTheValidOnes(t: ToolPermission)
    ensures (exists v :: ToolReadingOf(v, t)) <==> ValidTool(t)
  {
    hide DecodeTool;
    hide WellFormed;
    hide ValidTool;
    hide EncodeTool;
    if ValidTool(t) {
      ToolRoundTrip(t);
      assert ToolReadingOf(EncodeTool(t), t);
    }
  }

  ghost predicate ReadingOf(v: Json, d: ManifestDocument) {
    WellFormed(v) && Decode(v) == Some(d)
  }

  /** The policies model validation can produce are exactly the valid ones. */
  lemma AcceptedPoliciesAreTheValidOnes(d: ManifestDocument)
    ensures (exists v :: ReadingOf(v, d)) <==> ValidDocument(d)
  {
    hide Decode;
    hide WellFormed;
    hide ValidDocument;
    hide EncodeDocument;
    if ValidDocument(d) {
      DocumentRoundTrip(d);
      assert ReadingOf(EncodeDocument(d), d);
    }
  }
}
