/** What a document says, part by part, and that model validation reads exactly that. */
module ManifestReading {
  import opened Wrappers
  import opened Json
  import opened Redaction
  import opened ManifestSchema
  import opened PolicyPinning
  import opened ManifestEncoding

  // ---------------------------------------------------------------- the meaning of a document

  /** An object with no key beyond these: unknown keys are forbidden everywhere. */
  predicate HasOnly(v: Json, names: set<string>) {
    v.Obj? && forall f :: f in v.fields ==> f.name in names
  }

  predicate At(v: Json, name: string, value: Json)
    requires v.Obj?
  {
    Lookup(v.fields, name) == Some(value)
  }

  predicate Absent(v: Json, name: string)
    requires v.Obj?
  {
    Lookup(v.fields, name) == None
  }

  predicate SaysStrings(v: Json, xs: seq<string>) {
    v.Arr? && |v.items| == |xs| && forall i :: 0 <= i < |xs| ==> v.items[i] == Str(xs[i])
  }

  ghost predicate SaysEntries<T>(fields: seq<Field>, m: map<string, T>, says: (Json, T) -> bool) {
    && (forall f :: f in fields ==> f.name in m && says(f.value, m[f.name]))
    && (forall name :: name in m ==> Lookup(fields, name).Some?)
  }

  ghost predicate SaysConstraint(v: Json, c: Constraint) {
    match c
    case ObjectConstraint => HasOnly(v, {"type"}) && At(v, "type", Str("object"))
    case StringConstraint(None) =>
      HasOnly(v, {"type", "maxLength"}) && At(v, "type", Str("string"))
      && (Absent(v, "maxLength") || At(v, "maxLength", Null))
    case StringConstraint(Some(n)) =>
      HasOnly(v, {"type", "maxLength"}) && At(v, "type", Str("string")) && At(v, "maxLength", Num(n))
  }

  /** The flag stands under its alias or its own name, not both; left out, it is off. */
  predicate SaysAdditional(v: Json, flag: bool)
    requires v.Obj?
  {
    || (Absent(v, "additionalProperties") && Absent(v, "additional_properties") && !flag)
    || (At(v, "additionalProperties", Bool(flag)) && Absent(v, "additional_properties"))
    || (Absent(v, "additionalProperties") && At(v, "additional_properties", Bool(flag)))
  }

  ghost predicate SaysSchema(v: Json, s: ParameterSchema) {
    && HasOnly(v, {"required", "properties", "additionalProperties", "additional_properties"})
    && (if Absent(v, "required") then s.required == []
        else SaysStrings(Lookup(v.fields, "required").value, s.required))
    && Lookup(v.fields, "properties").Some? && Lookup(v.fields, "properties").value.Obj?
    && SaysEntries(Lookup(v.fields, "properties").value.fields, s.properties, SaysConstraint)
    && SaysAdditional(v, s.additional)
  }

  ghost predicate SaysScopeRule(v: Json, r: ScopeRule) {
    && HasOnly(v, {"type", "session_claim", "parameter"})
    && At(v, "type", Str("session_value_equals_parameter"))
    && At(v, "session_claim", Str(if r.claim.CustomerIdClaim? then "customer_id" else "user_id"))
    && At(v, "parameter", Str(r.parameter))
  }

  ghost predicate SaysScopeRules(items: seq<Json>, rules: seq<ScopeRule>) {
    |items| == |rules| && forall i :: 0 <= i < |rules| ==> SaysScopeRule(items[i], rules[i])
  }

  ghost predicate SaysScope(v: Option<Json>, scope: Option<seq<ScopeRule>>) {
    if v.None? || v.value.Null? then scope == None
    else
      && scope.Some? && HasOnly(v.value, {"all"})
      && Lookup(v.value.fields, "all").Some? && Lookup(v.value.fields, "all").value.Arr?
      && SaysScopeRules(Lookup(v.value.fields, "all").value.items, scope.value)
  }

  ghost predicate SaysRule(v: Json, r: OperationRule) {
    && HasOnly(v, {"parameter_schema", "data_scope"})
    && Lookup(v.fields, "parameter_schema").Some? && SaysSchema(Lookup(v.fields, "parameter_schema").value, r.schema)
    && SaysScope(Lookup(v.fields, "data_scope"), r.scope)
  }

  ghost predicate SaysTool(v: Json, t: ToolPermission) {
    && HasOnly(v, {"allowed_operations", "operation_rules"})
    && Lookup(v.fields, "allowed_operations").Some?
    && SaysStrings(Lookup(v.fields, "allowed_operations").value, t.allowed)
    && Lookup(v.fields, "operation_rules").Some? && Lookup(v.fields, "operation_rules").value.Obj?
    && SaysEntries(Lookup(v.fields, "operation_rules").value.fields, t.rules, SaysRule)
  }

  ghost predicate SaysDocument(v: Json, d: ManifestDocument) {
    && HasOnly(v, {"schema_version", "manifest_id", "agent_id", "tools", "deny_message"})
    && At(v, "schema_version", Str("1.0")) && At(v, "manifest_id", Str(d.manifestId))
    && At(v, "agent_id", Str(d.agentId)) && At(v, "deny_message", Str(d.denyMessage))
    && Lookup(v.fields, "tools").Some? && Lookup(v.fields, "tools").value.Obj?
    && SaysEntries(Lookup(v.fields, "tools").value.fields, d.tools, SaysTool)
  }

  // ---------------------------------------------------------------- lists and dictionaries

  lemma {:induction false} StringsRead(items: seq<Json>, xs: seq<string>)
    ensures DecodeStrings(items) == Some(xs) <==> SaysStrings(Arr(items), xs)
  {
    if items != [] {
      var rest := if xs == [] then [] else xs[1..];
      StringsRead(items[1..], rest);
      if xs != [] {
        assert [xs[0]] + rest == xs;
        if DecodeStrings(items) == Some(xs) {
          assert items[0].Str? && DecodeStrings(items[1..]).Some?;
          var tail := DecodeStrings(items[1..]).value;
          assert [items[0].text] + tail == xs;
          assert tail == xs[1..];
          forall i | 0 <= i < |xs| ensures items[i] == Str(xs[i]) {
            if i > 0 { assert items[1..][i - 1] == Str(rest[i - 1]); }
          }
        }
        if SaysStrings(Arr(items), xs) {
          forall i | 0 <= i < |rest| ensures items[1..][i] == Str(rest[i]) { assert items[i + 1] == Str(xs[i + 1]); }
        }
      }
    }
  }

  ghost predicate Exact<T(!new)>(decode: Json -> Option<T>, says: (Json, T) -> bool, valid: T -> bool) {
    forall v, t :: WellFormed(v) ==> (decode(v) == Some(t) <==> says(v, t) && valid(t))
  }

  ghost predicate AllValid<T>(m: map<string, T>, valid: T -> bool) {
    forall name :: name in m ==> valid(m[name])
  }

  lemma EntriesRead<T(!new)>(fields: seq<Field>, decode: Json -> Option<T>, says: (Json, T) -> bool, valid: T -> bool,
                             r: Option<map<string, T>>, m: map<string, T>)
    requires WellFormed(Obj(fields)) && DecodesTo(fields, decode, r) && Exact(decode, says, valid)
    ensures r == Some(m) <==> SaysEntries(fields, m, says) && AllValid(m, valid)
  {
    hide WellFormed;
    forall f | f in fields ensures WellFormed(f.value) { FieldWellFormed(fields, f); }
    if r == Some(m) {
      forall name | name in m ensures valid(m[name]) {
        var f := Field(name, Lookup(fields, name).value);
        assert f in fields;
      }
    }
    if SaysEntries(fields, m, says) && AllValid(m, valid) {
      forall f | f in fields ensures decode(f.value) == Some(m[f.name]) { }
      assert AllDecode(fields, decode);
      forall name ensures name in m <==> name in r.value {
        if name in m {
          var f := Field(name, Lookup(fields, name).value);
          assert f in fields;
        }
        if name in r.value {
          var f := Field(name, Lookup(fields, name).value);
          assert f in fields;
        }
      }
      forall name | name in m ensures r.value[name] == m[name] {
        var f := Field(name, Lookup(fields, name).value);
        assert f in fields;
      }
      assert r.value == m;
    }
  }

  lemma FieldWellFormed(fields: seq<Field>, f: Field)
    requires WellFormed(Obj(fields)) && f in fields
    ensures WellFormed(f.value)
  {
    var i :| 0 <= i < |fields| && fields[i] == f;
  }

  lemma FoundWellFormed(v: Json, name: string)
    requires WellFormed(v) && v.Obj? && Lookup(v.fields, name).Some?
    ensures WellFormed(Lookup(v.fields, name).value)
  {
    hide WellFormed;
    FieldWellFormed(v.fields, Field(name, Lookup(v.fields, name).value));
  }

  lemma UniqueInObject(v: Json)
    requires WellFormed(v) && v.Obj?
    ensures UniqueNames(v.fields)
  {
  }

  // ---------------------------------------------------------------- part by part

  lemma ConstraintRead(v: Json, c: Constraint)
    ensures DecodeConstraint(v) == Some(c) <==> SaysConstraint(v, c) && ValidConstraint(c)
  {
    hide Lookup;
    assert |"string"| == |"object"| && "string"[0] != "object"[0];
  }

  lemma PropertiesRead(fields: seq<Field>, m: map<string, Constraint>)
    requires WellFormed(Obj(fields))
    ensures DecodeProperties(fields) == Some(m)
            <==> SaysEntries(fields, m, SaysConstraint) && AllValid(m, ValidConstraint)
  {
    hide DecodeConstraint;
    hide SaysConstraint;
    hide ValidConstraint;
    hide WellFormed;
    hide SaysEntries;
    forall v, c ensures DecodeConstraint(v) == Some(c) <==> SaysConstraint(v, c) && ValidConstraint(c) {
      ConstraintRead(v, c);
    }
    UniqueInObject(Obj(fields));
    PropertiesDecode(fields);
    EntriesRead(fields, DecodeConstraint, SaysConstraint, ValidConstraint, DecodeProperties(fields), m);
  }

  lemma AdditionalRead(v: Json, flag: bool)
    requires v.Obj?
    ensures DecodeAdditional(v.fields) == Some(flag) <==> SaysAdditional(v, flag)
  {
    hide Lookup;
  }

  lemma RequiredRead(v: Json, xs: seq<string>)
    requires v.Obj?
    ensures (if Absent(v, "required") then Some([]) else DecodeStringList(Lookup(v.fields, "required"))) == Some(xs)
            <==> (if Absent(v, "required") then xs == [] else SaysStrings(Lookup(v.fields, "required").value, xs))
  {
    hide Lookup;
    var found := Lookup(v.fields, "required");
    if found.Some? && found.value.Arr? { StringsRead(found.value.items, xs); }
  }

  lemma SchemaRead(v: Json, s: ParameterSchema)
    requires WellFormed(v)
    ensures DecodeSchema(Some(v)) == Some(s) <==> SaysSchema(v, s) && ValidSchema(s)
  {
    hide Lookup;
    hide WellFormed;
    hide DecodeProperties;
    hide DecodeStringList;
    hide DecodeAdditional;
    hide SaysEntries;
    hide SaysStrings;
    hide SaysAdditional;
    hide ValidConstraint;
    if v.Obj? {
      RequiredRead(v, s.required);
      AdditionalRead(v, s.additional);
      var found := Lookup(v.fields, "properties");
      if found.Some? && found.value.Obj? {
        FoundWellFormed(v, "properties");
        PropertiesRead(found.value.fields, s.properties);
      }
    }
  }

  lemma ScopeRuleRead(v: Json, r: ScopeRule)
    ensures DecodeScopeRule(v) == Some(r) <==> SaysScopeRule(v, r) && 1 <= |r.parameter| <= 100
  {
    hide Lookup;
    assert |"customer_id"| == 11 && |"user_id"| == 7;
  }

  lemma {:induction false} ScopeRulesRead(items: seq<Json>, rules: seq<ScopeRule>)
    ensures DecodeScopeRules(items) == Some(rules)
            <==> SaysScopeRules(items, rules) && forall r :: r in rules ==> 1 <= |r.parameter| <= 100
  {
    hide DecodeScopeRule;
    hide SaysScopeRule;
    if items != [] && rules != [] {
      ScopeRuleRead(items[0], rules[0]);
      ScopeRulesRead(items[1..], rules[1..]);
      assert [rules[0]] + rules[1..] == rules;
      if DecodeScopeRules(items) == Some(rules) {
        var head, tail := DecodeScopeRule(items[0]).value, DecodeScopeRules(items[1..]).value;
        assert [head] + tail == rules;
        assert rules[0] == head && rules[1..] == tail;
        forall i | 0 <= i < |rules| ensures SaysScopeRule(items[i], rules[i]) {
          if i > 0 { assert SaysScopeRule(items[1..][i - 1], rules[1..][i - 1]); }
        }
      }
      if SaysScopeRules(items, rules) && forall r :: r in rules ==> 1 <= |r.parameter| <= 100 {
        assert rules[0] in rules;
        forall i | 0 <= i < |rules| - 1 ensures SaysScopeRule(items[1..][i], rules[1..][i]) {
          assert SaysScopeRule(items[i + 1], rules[i + 1]);
        }
        forall r | r in rules[1..] ensures 1 <= |r.parameter| <= 100 { assert r in rules; }
      }
    }
  }

  lemma ScopeRead(v: Option<Json>, scope: Option<seq<ScopeRule>>)
    ensures DecodeScope(v) == Some(scope) <==> SaysScope(v, scope) && (scope.Some? ==> ValidScope(scope.value))
  {
    hide Lookup;
    hide DecodeScopeRules;
    hide SaysScopeRules;
    if v.Some? && v.value.Obj? && scope.Some? {
      var found := Lookup(v.value.fields, "all");
      if found.Some? && found.value.Arr? { ScopeRulesRead(found.value.items, scope.value); }
    }
  }

  lemma RuleRead(v: Json, r: OperationRule)
    requires WellFormed(v)
    ensures DecodeRule(v) == Some(r) <==> SaysRule(v, r) && ValidRule(r)
  {
    hide Lookup;
    hide WellFormed;
    hide DecodeSchema;
    hide DecodeScope;
    hide SaysSchema;
    hide SaysScope;
    hide ValidSchema;
    hide ValidScope;
    if v.Obj? {
      var schema := Lookup(v.fields, "parameter_schema");
      if schema.Some? {
        FoundWellFormed(v, "parameter_schema");
        SchemaRead(schema.value, r.schema);
      } else {
        NoSchema();
      }
      ScopeRead(Lookup(v.fields, "data_scope"), r.scope);
    }
  }

  lemma NoSchema()
    ensures DecodeSchema(None) == None
  {
  }

  lemma RulesRead(fields: seq<Field>, m: map<string, OperationRule>)
    requires WellFormed(Obj(fields))
    ensures DecodeRules(fields) == Some(m) <==> SaysEntries(fields, m, SaysRule) && AllValid(m, ValidRule)
  {
    hide DecodeRule;
    hide SaysRule;
    hide ValidRule;
    hide WellFormed;
    hide SaysEntries;
    forall v, r | WellFormed(v) ensures DecodeRule(v) == Some(r) <==> SaysRule(v, r) && ValidRule(r) { RuleRead(v, r); }
    UniqueInObject(Obj(fields));
    RulesDecode(fields);
    EntriesRead(fields, DecodeRule, SaysRule, ValidRule, DecodeRules(fields), m);
  }

  lemma AllowedRead(v: Json, xs: seq<string>)
    requires v.Obj?
    ensures DecodeStringList(Lookup(v.fields, "allowed_operations")) == Some(xs)
            <==> Lookup(v.fields, "allowed_operations").Some?
                 && SaysStrings(Lookup(v.fields, "allowed_operations").value, xs)
  {
    hide Lookup;
    var found := Lookup(v.fields, "allowed_operations");
    if found.Some? && found.value.Arr? { StringsRead(found.value.items, xs); }
  }

  lemma ToolRead(v: Json, t: ToolPermission)
    requires WellFormed(v)
    ensures DecodeTool(v) == Some(t) <==> SaysTool(v, t) && ValidTool(t)
  {
    hide Lookup;
    hide WellFormed;
    hide DecodeRules;
    hide DecodeStringList;
    hide SaysEntries;
    hide SaysStrings;
    hide ValidRule;
    if v.Obj? {
      AllowedRead(v, t.allowed);
      var found := Lookup(v.fields, "operation_rules");
      if found.Some? && found.value.Obj? {
        FoundWellFormed(v, "operation_rules");
        RulesRead(found.value.fields, t.rules);
      }
    }
  }

  lemma ToolsRead(fields: seq<Field>, m: map<string, ToolPermission>)
    requires WellFormed(Obj(fields))
    ensures DecodeTools(fields) == Some(m) <==> SaysEntries(fields, m, SaysTool) && AllValid(m, ValidTool)
  {
    hide DecodeTool;
    hide SaysTool;
    hide ValidTool;
    hide WellFormed;
    hide SaysEntries;
    forall v, t | WellFormed(v) ensures DecodeTool(v) == Some(t) <==> SaysTool(v, t) && ValidTool(t) { ToolRead(v, t); }
    UniqueInObject(Obj(fields));
    ToolsDecode(fields);
    EntriesRead(fields, DecodeTool, SaysTool, ValidTool, DecodeTools(fields), m);
  }

  /** Model validation reads a document exactly: it yields a policy if and only if the document
      says that policy, with no unknown key anywhere, and the policy is valid. */
  lemma DocumentReadExactly(v: Json, d: ManifestDocument)
    requires WellFormed(v)
    ensures Decode(v) == Some(d) <==> SaysDocument(v, d) && ValidDocument(d)
  {
    hide Lookup;
    hide WellFormed;
    hide DecodeTools;
    hide SaysEntries;
    hide ValidTool;
    if v.Obj? {
      var found := Lookup(v.fields, "tools");
      if found.Some? && found.value.Obj? {
        FoundWellFormed(v, "tools");
        ToolsRead(found.value.fields, d.tools);
      }
    }
  }
}
