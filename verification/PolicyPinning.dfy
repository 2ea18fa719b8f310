/** A manifest's checksum pins its policy: documents with one canonical text parse alike. */
module PolicyPinning {
  import opened Wrappers
  import opened Json
  import opened JsonParser
  import opened Redaction
  import opened AuditEvents
  import opened UtcTime
  import opened Domain
  import opened ManifestSchema
  import opened Policy

  /** Two well-formed values that are the same document. */
  predicate Twins(v: Json, w: Json) {
    WellFormed(v) && WellFormed(w) && Same(v, w)
  }

  predicate TwinOptions(a: Option<Json>, b: Option<Json>) {
    if a.Some? then b.Some? && Twins(a.value, b.value) else b.None?
  }

  predicate TwinItems(xs: seq<Json>, ys: seq<Json>) {
    |xs| == |ys| && forall i :: 0 <= i < |xs| ==> Twins(xs[i], ys[i])
  }

  /** The kind of a document decides how its twin looks. */
  lemma TwinShapes(v: Json, w: Json)
    requires Twins(v, w)
    ensures v.Arr? ==> w.Arr? && TwinItems(v.items, w.items)
    ensures v.Obj? ==> w.Obj?
    ensures !v.Arr? && !v.Obj? ==> v == w
  {
  }

  predicate TwinFields(fs: seq<Field>, gs: seq<Field>) {
    Twins(Obj(fs), Obj(gs))
  }

  lemma TwinField(fs: seq<Field>, gs: seq<Field>, f: Field) returns (g: Field)
    requires TwinFields(fs, gs) && f in fs
    ensures g in gs && g.name == f.name && Twins(f.value, g.value)
  {
    var i :| 0 <= i < |fs| && fs[i] == f;
    assert Matched(fs[i], gs);
    var j :| 0 <= j < |gs| && SameField(fs[i], gs[j]);
    g := gs[j];
  }

  lemma TwinFieldBack(fs: seq<Field>, gs: seq<Field>, g: Field) returns (f: Field)
    requires TwinFields(fs, gs) && g in gs
    ensures f in fs && f.name == g.name && Twins(f.value, g.value)
  {
    SameFieldsBothWays(fs, gs);
    var j :| 0 <= j < |gs| && gs[j] == g;
    assert MatchedBy(fs, gs[j]);
    var i :| 0 <= i < |fs| && SameField(fs[i], gs[j]);
    f := fs[i];
  }

  lemma LookupTwins(fs: seq<Field>, gs: seq<Field>, name: string)
    requires TwinFields(fs, gs)
    ensures TwinOptions(Lookup(fs, name), Lookup(gs, name))
  {
    hide Twins;
    if Lookup(fs, name).Some? {
      var g := TwinField(fs, gs, Field(name, Lookup(fs, name).value));
      UniqueLookup(fs, gs, g);
    } else if Lookup(gs, name).Some? {
      var f := TwinFieldBack(fs, gs, Field(name, Lookup(gs, name).value));
      assert false;
    }
  }

  lemma UniqueLookup(fs: seq<Field>, gs: seq<Field>, g: Field)
    requires TwinFields(fs, gs) && g in gs
    ensures Lookup(gs, g.name) == Some(g.value)
  {
    assert Field(g.name, Lookup(gs, g.name).value) in gs;
  }

  lemma OnlyKeysTwins(fs: seq<Field>, gs: seq<Field>, allowed: set<string>)
    requires TwinFields(fs, gs)
    ensures OnlyKeys(fs, allowed) <==> OnlyKeys(gs, allowed)
  {
    hide Twins;
    forall f | f in fs ensures exists g :: g in gs && g.name == f.name { var g := TwinField(fs, gs, f); }
    forall g | g in gs ensures exists f :: f in fs && f.name == g.name { var f := TwinFieldBack(fs, gs, g); }
  }

  // ---------------------------------------------------------------- dictionaries

  predicate AllDecode<T>(fields: seq<Field>, decode: Json -> Option<T>) {
    forall f :: f in fields ==> decode(f.value).Some?
  }

  /** What decoding every value of a dictionary with unique keys amounts to. */
  ghost predicate DecodesTo<T(!new)>(fields: seq<Field>, decode: Json -> Option<T>, r: Option<map<string, T>>) {
    && (r.Some? <==> AllDecode(fields, decode))
    && (r.Some? ==>
          && (forall name :: name in r.value ==> Lookup(fields, name).Some?)
          && (forall f :: f in fields ==> f.name in r.value && decode(f.value) == Some(r.value[f.name])))
  }

  ghost predicate RespectsTwins<T(!new)>(decode: Json -> Option<T>) {
    forall v, w :: Twins(v, w) ==> decode(v) == decode(w)
  }

  lemma DecodingAgrees<T(!new)>(fs: seq<Field>, gs: seq<Field>, decode: Json -> Option<T>)
    requires TwinFields(fs, gs) && RespectsTwins(decode)
    ensures AllDecode(fs, decode) <==> AllDecode(gs, decode)
  {
    hide Twins;
    hide TwinFields;
    forall f | f in fs && AllDecode(gs, decode) ensures decode(f.value).Some? {
      var g := TwinField(fs, gs, f);
      assert decode(g.value).Some?;
    }
    forall g | g in gs && AllDecode(fs, decode) ensures decode(g.value).Some? {
      var f := TwinFieldBack(fs, gs, g);
      assert decode(f.value).Some?;
    }
  }

  lemma EntryAgrees<T(!new)>(fs: seq<Field>, gs: seq<Field>, decode: Json -> Option<T>,
                             a: map<string, T>, b: map<string, T>, name: string)
    requires TwinFields(fs, gs) && RespectsTwins(decode)
    requires DecodesTo(fs, decode, Some(a)) && DecodesTo(gs, decode, Some(b)) && name in a
    ensures name in b && a[name] == b[name]
  {
    hide Twins;
    hide TwinFields;
    hide AllDecode;
    var f := Field(name, Lookup(fs, name).value);
    var g := TwinField(fs, gs, f);
    assert decode(f.value) == Some(a[name]);
    assert decode(g.value) == Some(b[name]);
  }

  lemma DictionariesAgree<T(!new)>(fs: seq<Field>, gs: seq<Field>, decode: Json -> Option<T>,
                                   a: Option<map<string, T>>, b: Option<map<string, T>>)
    requires TwinFields(fs, gs) && RespectsTwins(decode)
    requires DecodesTo(fs, decode, a) && DecodesTo(gs, decode, b)
    ensures a == b
  {
    hide TwinFields;
    hide DecodesTo;
    hide RespectsTwins;
    BothDecode(fs, gs, decode, a, b);
    if a.Some? {
      forall name | name in a.value ensures name in b.value && a.value[name] == b.value[name] {
        EntryAgrees(fs, gs, decode, a.value, b.value, name);
      }
      forall name | name in b.value ensures name in a.value { KeyAgrees(fs, gs, decode, a.value, b.value, name); }
      assert a.value == b.value;
    }
  }

  lemma BothDecode<T(!new)>(fs: seq<Field>, gs: seq<Field>, decode: Json -> Option<T>,
                            a: Option<map<string, T>>, b: Option<map<string, T>>)
    requires TwinFields(fs, gs) && RespectsTwins(decode)
    requires DecodesTo(fs, decode, a) && DecodesTo(gs, decode, b)
    ensures a.Some? <==> b.Some?
  {
    hide TwinFields;
    hide AllDecode;
    hide RespectsTwins;
    DecodingAgrees(fs, gs, decode);
  }

  lemma KeyAgrees<T(!new)>(fs: seq<Field>, gs: seq<Field>, decode: Json -> Option<T>,
                           a: map<string, T>, b: map<string, T>, name: string)
    requires TwinFields(fs, gs) && DecodesTo(fs, decode, Some(a)) && DecodesTo(gs, decode, Some(b)) && name in b
    ensures name in a
  {
    hide Twins;
    hide TwinFields;
    hide AllDecode;
    var f := TwinFieldBack(fs, gs, Field(name, Lookup(gs, name).value));
    assert f.name in a;
  }

  /** One more field in front. */
  lemma DecodesToCons<T(!new)>(fields: seq<Field>, decode: Json -> Option<T>, rest: Option<map<string, T>>)
    requires fields != [] && UniqueNames(fields) && DecodesTo(fields[1..], decode, rest)
    ensures DecodesTo(fields, decode,
                      if decode(fields[0].value).Some? && rest.Some?
                      then Some(rest.value[fields[0].name := decode(fields[0].value).value]) else None)
  {
    assert fields == [fields[0]] + fields[1..];
    forall f | f in fields[1..] ensures f.name != fields[0].name {
      var i :| 0 <= i < |fields| - 1 && fields[1..][i] == f;
      assert fields[i + 1] == f;
    }
  }

  lemma {:induction false} PropertiesDecode(fields: seq<Field>)
    requires UniqueNames(fields)
    ensures DecodesTo(fields, DecodeConstraint, DecodeProperties(fields))
  {
    hide DecodeConstraint;
    if fields != [] {
      PropertiesDecode(fields[1..]);
      DecodesToCons(fields, DecodeConstraint, DecodeProperties(fields[1..]));
    }
  }

  lemma {:induction false} RulesDecode(fields: seq<Field>)
    requires UniqueNames(fields)
    ensures DecodesTo(fields, DecodeRule, DecodeRules(fields))
  {
    hide DecodeRule;
    if fields != [] {
      RulesDecode(fields[1..]);
      DecodesToCons(fields, DecodeRule, DecodeRules(fields[1..]));
    }
  }

  lemma {:induction false} ToolsDecode(fields: seq<Field>)
    requires UniqueNames(fields)
    ensures DecodesTo(fields, DecodeTool, DecodeTools(fields))
  {
    hide DecodeTool;
    if fields != [] {
      ToolsDecode(fields[1..]);
      DecodesToCons(fields, DecodeTool, DecodeTools(fields[1..]));
    }
  }

  // ---------------------------------------------------------------- each part of a document

  lemma {:induction false} StringsTwins(xs: seq<Json>, ys: seq<Json>)
    requires TwinItems(xs, ys)
    ensures DecodeStrings(xs) == DecodeStrings(ys)
  {
    hide Twins;
    if xs != [] {
      TwinShapes(xs[0], ys[0]);
      StringsTwins(xs[1..], ys[1..]);
    }
  }

  lemma StringListTwins(a: Option<Json>, b: Option<Json>)
    requires TwinOptions(a, b)
    ensures DecodeStringList(a) == DecodeStringList(b)
  {
    hide Twins;
    if a.Some? {
      TwinShapes(a.value, b.value);
      if a.value.Arr? { StringsTwins(a.value.items, b.value.items); }
    }
  }

  /** Looking a scalar up in twins gives the same scalar, or something else in both. */
  lemma ScalarFieldTwins(fs: seq<Field>, gs: seq<Field>, name: string)
    requires TwinFields(fs, gs)
    ensures var a, b := Lookup(fs, name), Lookup(gs, name);
      if a.Some? && (a.value.Arr? || a.value.Obj?)
      then b.Some? && b.value.Arr? == a.value.Arr? && b.value.Obj? == a.value.Obj?
      else a == b
  {
    hide Twins;
    LookupTwins(fs, gs, name);
    if Lookup(fs, name).Some? { TwinShapes(Lookup(fs, name).value, Lookup(gs, name).value); }
  }

  lemma ConstraintTwins(v: Json, w: Json)
    requires Twins(v, w)
    ensures DecodeConstraint(v) == DecodeConstraint(w)
  {
    hide Twins;
    hide OnlyKeys;
    TwinShapes(v, w);
    if v.Obj? {
      ScalarFieldTwins(v.fields, w.fields, "type");
      ScalarFieldTwins(v.fields, w.fields, "maxLength");
      OnlyKeysTwins(v.fields, w.fields, {"type", "maxLength"});
      OnlyKeysTwins(v.fields, w.fields, {"type"});
    }
  }

  lemma PropertiesTwins(v: Json, w: Json)
    requires Twins(v, w) && v.Obj?
    ensures w.Obj? && DecodeProperties(v.fields) == DecodeProperties(w.fields)
  {
    forall a, b | Twins(a, b) ensures DecodeConstraint(a) == DecodeConstraint(b) { ConstraintTwins(a, b); }
    PropertiesDecode(v.fields);
    PropertiesDecode(w.fields);
    DictionariesAgree(v.fields, w.fields, DecodeConstraint, DecodeProperties(v.fields), DecodeProperties(w.fields));
  }

  lemma AdditionalTwins(fs: seq<Field>, gs: seq<Field>)
    requires TwinFields(fs, gs)
    ensures DecodeAdditional(fs) == DecodeAdditional(gs)
  {
    hide TwinFields;
    hide Lookup;
    ScalarFieldTwins(fs, gs, "additionalProperties");
    ScalarFieldTwins(fs, gs, "additional_properties");
  }

  lemma SchemaTwins(a: Option<Json>, b: Option<Json>)
    requires TwinOptions(a, b)
    ensures DecodeSchema(a) == DecodeSchema(b)
  {
    hide Twins;
    hide OnlyKeys;
    hide Lookup;
    hide DecodeAdditional;
    hide DecodeStringList;
    hide DecodeProperties;
    if a.Some? {
      TwinShapes(a.value, b.value);
      if a.value.Obj? {
        var fs, gs := a.value.fields, b.value.fields;
        OnlyKeysTwins(fs, gs, {"required", "properties", "additionalProperties", "additional_properties"});
        LookupTwins(fs, gs, "required");
        StringListTwins(Lookup(fs, "required"), Lookup(gs, "required"));
        AdditionalTwins(fs, gs);
        LookupTwins(fs, gs, "properties");
        if Lookup(fs, "properties").Some? {
          TwinShapes(Lookup(fs, "properties").value, Lookup(gs, "properties").value);
          if Lookup(fs, "properties").value.Obj? {
            PropertiesTwins(Lookup(fs, "properties").value, Lookup(gs, "properties").value);
          }
        }
      }
    }
  }

  lemma ScopeRuleTwins(v: Json, w: Json)
    requires Twins(v, w)
    ensures DecodeScopeRule(v) == DecodeScopeRule(w)
  {
    hide Twins;
    hide OnlyKeys;
    TwinShapes(v, w);
    if v.Obj? {
      OnlyKeysTwins(v.fields, w.fields, {"type", "session_claim", "parameter"});
      ScalarFieldTwins(v.fields, w.fields, "type");
      ScalarFieldTwins(v.fields, w.fields, "session_claim");
      ScalarFieldTwins(v.fields, w.fields, "parameter");
    }
  }

  lemma {:induction false} ScopeRulesTwins(xs: seq<Json>, ys: seq<Json>)
    requires TwinItems(xs, ys)
    ensures DecodeScopeRules(xs) == DecodeScopeRules(ys)
  {
    hide Twins;
    hide DecodeScopeRule;
    if xs != [] {
      ScopeRuleTwins(xs[0], ys[0]);
      ScopeRulesTwins(xs[1..], ys[1..]);
    }
  }

  lemma ScopeTwins(a: Option<Json>, b: Option<Json>)
    requires TwinOptions(a, b)
    ensures DecodeScope(a) == DecodeScope(b)
  {
    hide Twins;
    hide OnlyKeys;
    hide DecodeScopeRules;
    if a.Some? {
      TwinShapes(a.value, b.value);
      if a.value.Obj? {
        var fs, gs := a.value.fields, b.value.fields;
        OnlyKeysTwins(fs, gs, {"all"});
        LookupTwins(fs, gs, "all");
        ScalarFieldTwins(fs, gs, "all");
        if Lookup(fs, "all").Some? && Lookup(fs, "all").value.Arr? {
          TwinShapes(Lookup(fs, "all").value, Lookup(gs, "all").value);
          ScopeRulesTwins(Lookup(fs, "all").value.items, Lookup(gs, "all").value.items);
        }
      }
    }
  }

  lemma RuleTwins(v: Json, w: Json)
    requires Twins(v, w)
    ensures DecodeRule(v) == DecodeRule(w)
  {
    hide Twins;
    hide OnlyKeys;
    hide DecodeSchema;
    hide DecodeScope;
    TwinShapes(v, w);
    if v.Obj? {
      OnlyKeysTwins(v.fields, w.fields, {"parameter_schema", "data_scope"});
      LookupTwins(v.fields, w.fields, "parameter_schema");
      LookupTwins(v.fields, w.fields, "data_scope");
      SchemaTwins(Lookup(v.fields, "parameter_schema"), Lookup(w.fields, "parameter_schema"));
      ScopeTwins(Lookup(v.fields, "data_scope"), Lookup(w.fields, "data_scope"));
    }
  }

  lemma RulesTwins(v: Json, w: Json)
    requires Twins(v, w) && v.Obj?
    ensures w.Obj? && DecodeRules(v.fields) == DecodeRules(w.fields)
  {
    forall a, b | Twins(a, b) ensures DecodeRule(a) == DecodeRule(b) { RuleTwins(a, b); }
    RulesDecode(v.fields);
    RulesDecode(w.fields);
    DictionariesAgree(v.fields, w.fields, DecodeRule, DecodeRules(v.fields), DecodeRules(w.fields));
  }

  lemma ToolTwins(v: Json, w: Json)
    requires Twins(v, w)
    ensures DecodeTool(v) == DecodeTool(w)
  {
    hide Twins;
    hide OnlyKeys;
    hide DecodeRules;
    TwinShapes(v, w);
    if v.Obj? {
      OnlyKeysTwins(v.fields, w.fields, {"allowed_operations", "operation_rules"});
      LookupTwins(v.fields, w.fields, "allowed_operations");
      StringListTwins(Lookup(v.fields, "allowed_operations"), Lookup(w.fields, "allowed_operations"));
      LookupTwins(v.fields, w.fields, "operation_rules");
      ScalarFieldTwins(v.fields, w.fields, "operation_rules");
      if Lookup(v.fields, "operation_rules").Some? && Lookup(v.fields, "operation_rules").value.Obj? {
        RulesTwins(Lookup(v.fields, "operation_rules").value, Lookup(w.fields, "operation_rules").value);
      }
    }
  }

  lemma ToolsTwins(v: Json, w: Json)
    requires Twins(v, w) && v.Obj?
    ensures w.Obj? && DecodeTools(v.fields) == DecodeTools(w.fields)
  {
    forall a, b | Twins(a, b) ensures DecodeTool(a) == DecodeTool(b) { ToolTwins(a, b); }
    ToolsDecode(v.fields);
    ToolsDecode(w.fields);
    DictionariesAgree(v.fields, w.fields, DecodeTool, DecodeTools(v.fields), DecodeTools(w.fields));
  }

  // ---------------------------------------------------------------- documents

  lemma StringFieldTwins(fs: seq<Field>, gs: seq<Field>, name: string, least: nat, most: nat)
    requires TwinFields(fs, gs)
    ensures DecodeString(Lookup(fs, name), least, most) == DecodeString(Lookup(gs, name), least, most)
  {
    hide TwinFields;
    hide Lookup;
    ScalarFieldTwins(fs, gs, name);
  }

  /** Parsing a policy document looks at its value only, never at the order its keys stand in. */
  lemma EqualDocumentsParseAlike(v: Json, w: Json)
    requires WellFormed(v) && WellFormed(w) && Same(v, w)
    ensures Decode(v) == Decode(w)
  {
    hide OnlyKeys;
    hide Lookup;
    hide DecodeString;
    hide DecodeTools;
    hide WellFormed;
    hide Same;
    assert Twins(v, w);
    TwinShapes(v, w);
    if v.Obj? {
      assert TwinFields(v.fields, w.fields);
      OnlyKeysTwins(v.fields, w.fields, {"schema_version", "manifest_id", "agent_id", "tools", "deny_message"});
      ScalarFieldTwins(v.fields, w.fields, "schema_version");
      StringFieldTwins(v.fields, w.fields, "manifest_id", 1, 100);
      StringFieldTwins(v.fields, w.fields, "agent_id", 1, 64);
      StringFieldTwins(v.fields, w.fields, "deny_message", 1, 500);
      LookupTwins(v.fields, w.fields, "tools");
      if Lookup(v.fields, "tools").Some? {
        TwinShapes(Lookup(v.fields, "tools").value, Lookup(w.fields, "tools").value);
        if Lookup(v.fields, "tools").value.Obj? {
          ToolsTwins(Lookup(v.fields, "tools").value, Lookup(w.fields, "tools").value);
        }
      }
    }
  }

  /** Two different canonical texts with one hash. */
  predicate DocumentsCollide(h: Hash, v: Json, w: Json) {
    Canonical(v) != Canonical(w) && h(Canonical(v)) == h(Canonical(w))
  }

  /** Equal checksums mean the same policy, or a hash collision in hand. */
  lemma ChecksumPinsPolicy(h: Hash, v: Json, w: Json)
    requires WellFormed(v) && WellFormed(w) && Checksum(h, v) == Checksum(h, w)
    ensures Decode(v) == Decode(w) || DocumentsCollide(h, v, w)
  {
    hide Decode;
    hide Canonical;
    if Canonical(v) == Canonical(w) {
      CanonicalSame(v, w);
      EqualDocumentsParseAlike(v, w);
    }
  }

  /** Editing the stored document of a manifest never changes a decision except into a refusal
      for lost integrity, unless the edit collides with the original. */
  lemma EditedDocumentIsRefused(h: Hash, manifests: Manifests, tools: Tools, q: Request, id: string, edited: Json)
    requires OneActive(manifests) && id in manifests && WellFormed(manifests[id].document) && WellFormed(edited)
    requires Checksum(h, manifests[id].document) == manifests[id].checksum
    requires !DocumentsCollide(h, manifests[id].document, edited)
    ensures var after := Evaluate(h, manifests[id := manifests[id].(document := edited)], tools, q);
      after == Evaluate(h, manifests, tools, q) || (!after.allowed && after.reason == "POLICY_INTEGRITY_VIOLATION")
  {
    hide Decode;
    hide Checksum;
    hide EvaluateDocument;
    hide DocumentsCollide;
    hide AsUtc;
    hide OneActive;
    var before := manifests[id].document;
    var after := manifests[id := manifests[id].(document := edited)];
    SameActive(manifests, after, q.agentId);
    if GetActive(manifests, q.agentId) != Some(id) {
      assert Evaluate(h, after, tools, q) == Evaluate(h, manifests, tools, q);
    } else if Checksum(h, before) == Checksum(h, edited) {
      ChecksumPinsPolicy(h, before, edited);
    }
  }

  lemma SameActive(before: Manifests, after: Manifests, agentId: string)
    requires OneActive(before) && before.Keys == after.Keys
    requires forall id :: id in before ==> after[id].agentId == before[id].agentId
    requires forall id :: id in before ==> after[id].status == before[id].status
    ensures GetActive(after, agentId) == GetActive(before, agentId)
  {
    var a, b := GetActive(before, agentId), GetActive(after, agentId);
    if a.Some? { assert IsActive(after, agentId, a.value); }
    if b.Some? { assert IsActive(before, agentId, b.value); }
  }
}
