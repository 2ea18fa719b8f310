/** Permission manifests: the typed document, its validators, and parameter validation. */
module ManifestSchema {
  import opened Wrappers
  import opened Json
  import opened Redaction

  datatype Constraint = StringConstraint(maxLength: Option<int>) | ObjectConstraint

  datatype ParameterSchema = ParameterSchema(
    required: seq<string>, properties: map<string, Constraint>, additional: bool)

  datatype Claim = CustomerIdClaim | UserIdClaim

  datatype ScopeRule = ScopeRule(claim: Claim, parameter: string)

  datatype OperationRule = OperationRule(schema: ParameterSchema, scope: Option<seq<ScopeRule>>)

  datatype ToolPermission = ToolPermission(allowed: seq<string>, rules: map<string, OperationRule>)

  datatype ManifestDocument = ManifestDocument(
    manifestId: string, agentId: string, tools: map<string, ToolPermission>, denyMessage: string)

  // ---------------------------------------------------------------- validators

  predicate ValidConstraint(c: Constraint) {
    c.StringConstraint? && c.maxLength.Some? ==> 1 <= c.maxLength.value <= 4096
  }

  /** `required_fields_must_be_declared` */
  predicate ValidSchema(s: ParameterSchema) {
    && (forall name :: name in s.required ==> name in s.properties)
    && (forall name :: name in s.properties ==> ValidConstraint(s.properties[name]))
  }

  predicate ValidScope(rules: seq<ScopeRule>) {
    rules != [] && forall r :: r in rules ==> 1 <= |r.parameter| <= 100
  }

  predicate ValidRule(r: OperationRule) {
    ValidSchema(r.schema) && (r.scope.Some? ==> ValidScope(r.scope.value))
  }

  /** `allowed_operations_must_have_rules` */
  predicate ValidTool(t: ToolPermission) {
    && t.allowed != []
    && (forall op :: op in t.allowed ==> op in t.rules)
    && (forall op :: op in t.rules ==> op in t.allowed)
    && (forall op :: op in t.rules ==> ValidRule(t.rules[op]))
  }

  predicate ValidDocument(d: ManifestDocument) {
    && 1 <= |d.manifestId| <= 100
    && 1 <= |d.agentId| <= 64
    && d.tools != map[]
    && 1 <= |d.denyMessage| <= 500
    && (forall name :: name in d.tools ==> ValidTool(d.tools[name]))
  }

  // ---------------------------------------------------------------- model_validate

  predicate OnlyKeys(fields: seq<Field>, allowed: set<string>) {
    forall f :: f in fields ==> f.name in allowed
  }

  function DecodeString(v: Option<Json>, least: nat, most: nat): (r: Option<string>)
    ensures r.Some? ==> least <= |r.value| <= most
  {
    match v
    case Some(Str(s)) => if least <= |s| <= most then Some(s) else None
    case _ => None
  }

  function DecodeStrings(items: seq<Json>): Option<seq<string>> {
    if items == [] then Some([])
    else
      match (items[0], DecodeStrings(items[1..]))
      case (Str(s), Some(rest)) => Some([s] + rest)
      case _ => None
  }

  function DecodeStringList(v: Option<Json>): Option<seq<string>> {
    match v
    case Some(Arr(items)) => DecodeStrings(items)
    case _ => None
  }

  function DecodeMaxLength(v: Option<Json>): (r: Option<Option<int>>)
    ensures r.Some? && r.value.Some? ==> 1 <= r.value.value <= 4096
  {
    match v
    case None => Some(None)
    case Some(Null) => Some(None)
    case Some(Num(n)) => if 1 <= n <= 4096 then Some(Some(n)) else None
    case _ => None
  }

  function DecodeConstraint(v: Json): (r: Option<Constraint>)
    ensures r.Some? ==> ValidConstraint(r.value)
  {
    if !v.Obj? then None
    else if Lookup(v.fields, "type") == Some(Str("string")) && OnlyKeys(v.fields, {"type", "maxLength"}) then
      match DecodeMaxLength(Lookup(v.fields, "maxLength"))
      case Some(m) => Some(StringConstraint(m))
      case None => None
    else if Lookup(v.fields, "type") == Some(Str("object")) && OnlyKeys(v.fields, {"type"}) then
      Some(ObjectConstraint)
    else None
  }

  function DecodeProperties(fields: seq<Field>): (r: Option<map<string, Constraint>>)
    ensures r.Some? ==> forall name :: name in r.value ==> ValidConstraint(r.value[name])
  {
    if fields == [] then Some(map[])
    else
      match (DecodeConstraint(fields[0].value), DecodeProperties(fields[1..]))
      case (Some(c), Some(rest)) => Some(rest[fields[0].name := c])
      case _ => None
  }

  /** The alias `additionalProperties` or the field name, but not both. */
  function DecodeAdditional(fields: seq<Field>): Option<bool> {
    match (Lookup(fields, "additionalProperties"), Lookup(fields, "additional_properties"))
    case (None, None) => Some(false)
    case (Some(Bool(b)), None) => Some(b)
    case (None, Some(Bool(b))) => Some(b)
    case _ => None
  }

  function DecodeSchema(v: Option<Json>): (r: Option<ParameterSchema>)
    ensures r.Some? ==> ValidSchema(r.value)
  {
    match v
    case Some(Obj(fields)) =>
      if !OnlyKeys(fields, {"required", "properties", "additionalProperties", "additional_properties"}) then None
      else
        var required :=
          if Lookup(fields, "required") == None then Some([]) else DecodeStringList(Lookup(fields, "required"));
        var properties :=
          match Lookup(fields, "properties")
          case Some(Obj(ps)) => DecodeProperties(ps)
          case _ => None;
        (match (required, properties, DecodeAdditional(fields))
         case (Some(r), Some(p), Some(a)) =>
           if forall name :: name in r ==> name in p then Some(ParameterSchema(r, p, a)) else None
         case _ => None)
    case _ => None
  }

  function DecodeScopeRule(v: Json): (r: Option<ScopeRule>)
    ensures r.Some? ==> 1 <= |r.value.parameter| <= 100
  {
    if !v.Obj? || !OnlyKeys(v.fields, {"type", "session_claim", "parameter"})
       || Lookup(v.fields, "type") != Some(Str("session_value_equals_parameter"))
    then None
    else
      match (Lookup(v.fields, "session_claim"), DecodeString(Lookup(v.fields, "parameter"), 1, 100))
      case (Some(Str(claim)), Some(parameter)) =>
        if claim == "customer_id" then Some(ScopeRule(CustomerIdClaim, parameter))
        else if claim == "user_id" then Some(ScopeRule(UserIdClaim, parameter))
        else None
      case _ => None
  }

  function DecodeScopeRules(items: seq<Json>): (r: Option<seq<ScopeRule>>)
    ensures r.Some? ==> |r.value| == |items|
    ensures r.Some? ==> forall x :: x in r.value ==> 1 <= |x.parameter| <= 100
  {
    if items == [] then Some([])
    else
      match (DecodeScopeRule(items[0]), DecodeScopeRules(items[1..]))
      case (Some(rule), Some(rest)) => Some([rule] + rest)
      case _ => None
  }

  function DecodeScope(v: Option<Json>): (r: Option<Option<seq<ScopeRule>>>)
    ensures r.Some? && r.value.Some? ==> ValidScope(r.value.value)
  {
    match v
    case None => Some(None)
    case Some(Null) => Some(None)
    case Some(Obj(fields)) =>
      if !OnlyKeys(fields, {"all"}) then None
      else
        (match Lookup(fields, "all")
         case Some(Arr(items)) =>
           (match DecodeScopeRules(items)
            case Some(rules) => if rules == [] then None else Some(Some(rules))
            case None => None)
         case _ => None)
    case _ => None
  }

  function DecodeRule(v: Json): (r: Option<OperationRule>)
    ensures r.Some? ==> ValidRule(r.value)
  {
    if !v.Obj? || !OnlyKeys(v.fields, {"parameter_schema", "data_scope"}) then None
    else
      match (DecodeSchema(Lookup(v.fields, "parameter_schema")), DecodeScope(Lookup(v.fields, "data_scope")))
      case (Some(schema), Some(scope)) => Some(OperationRule(schema, scope))
      case _ => None
  }

  function DecodeRules(fields: seq<Field>): (r: Option<map<string, OperationRule>>)
    ensures r.Some? ==> forall op :: op in r.value ==> ValidRule(r.value[op])
  {
    if fields == [] then Some(map[])
    else
      match (DecodeRule(fields[0].value), DecodeRules(fields[1..]))
      case (Some(rule), Some(rest)) => Some(rest[fields[0].name := rule])
      case _ => None
  }

  function DecodeTool(v: Json): (r: Option<ToolPermission>)
    ensures r.Some? ==> ValidTool(r.value)
  {
    if !v.Obj? || !OnlyKeys(v.fields, {"allowed_operations", "operation_rules"}) then None
    else
      var rules :=
        match Lookup(v.fields, "operation_rules")
        case Some(Obj(fs)) => DecodeRules(fs)
        case _ => None;
      match (DecodeStringList(Lookup(v.fields, "allowed_operations")), rules)
      case (Some(allowed), Some(byName)) =>
        if allowed != [] && (forall op :: op in allowed ==> op in byName)
           && (forall op :: op in byName ==> op in allowed)
        then Some(ToolPermission(allowed, byName))
        else None
      case _ => None
  }

  function DecodeTools(fields: seq<Field>): (r: Option<map<string, ToolPermission>>)
    ensures r.Some? ==> forall name :: name in r.value ==> ValidTool(r.value[name])
  {
    if fields == [] then Some(map[])
    else
      match (DecodeTool(fields[0].value), DecodeTools(fields[1..]))
      case (Some(tool), Some(rest)) => Some(rest[fields[0].name := tool])
      case _ => None
  }

  /** `ManifestDocument.model_validate`: whatever it accepts satisfies every validator. */
  function Decode(v: Json): (r: Option<ManifestDocument>)
    ensures r.Some? ==> ValidDocument(r.value)
  {
    if !v.Obj? || !OnlyKeys(v.fields, {"schema_version", "manifest_id", "agent_id", "tools", "deny_message"})
       || Lookup(v.fields, "schema_version") != Some(Str("1.0"))
    then None
    else
      var tools :=
        match Lookup(v.fields, "tools")
        case Some(Obj(fs)) => DecodeTools(fs)
        case _ => None;
      match (DecodeString(Lookup(v.fields, "manifest_id"), 1, 100), DecodeString(Lookup(v.fields, "agent_id"), 1, 64),
             tools, DecodeString(Lookup(v.fields, "deny_message"), 1, 500))
      case (Some(id), Some(agent), Some(ts), Some(deny)) =>
        if ts == map[] then None else Some(ManifestDocument(id, agent, ts, deny))
      case _ => None
  }

  // ---------------------------------------------------------------- validate_parameters

  predicate AllPresent(required: seq<string>, parameters: seq<Field>) {
    required == [] || (Lookup(parameters, required[0]).Some? && AllPresent(required[1..], parameters))
  }

  predicate AllDeclared(parameters: seq<Field>, properties: map<string, Constraint>) {
    parameters == [] || (parameters[0].name in properties && AllDeclared(parameters[1..], properties))
  }

  predicate Admits(c: Constraint, v: Json) {
    match c
    case ObjectConstraint => v.Obj?
    case StringConstraint(m) => v.Str? && (m.Some? ==> |v.text| <= m.value)
  }

  predicate AllAdmitted(parameters: seq<Field>, properties: map<string, Constraint>) {
    parameters == []
    || ((parameters[0].name in properties ==> Admits(properties[parameters[0].name], parameters[0].value))
        && AllAdmitted(parameters[1..], properties))
  }

  predicate ValidateParameters(s: ParameterSchema, parameters: seq<Field>) {
    && AllPresent(s.required, parameters)
    && (s.additional || AllDeclared(parameters, s.properties))
    && AllAdmitted(parameters, s.properties)
  }

  predicate Present(parameters: seq<Field>, name: string) {
    exists f :: f in parameters && f.name == name
  }

  /** An object where an object is declared; a string, within its bound if it has one, where a
      string is. */
  ghost predicate Fits(c: Constraint, v: Json) {
    && (c.ObjectConstraint? <==> v.Obj?)
    && (c.StringConstraint? <==> v.Str?)
    && (c.StringConstraint? && c.maxLength.Some? ==> |v.text| <= c.maxLength.value)
  }

  /** What conforming means, without an order of checking. */
  ghost predicate Conforms(s: ParameterSchema, parameters: seq<Field>) {
    && (forall name :: name in s.required ==> Present(parameters, name))
    && (forall f :: f in parameters && f.name !in s.properties ==> s.additional)
    && (forall f :: f in parameters && f.name in s.properties ==> Fits(s.properties[f.name], f.value))
  }

  lemma LookupPresent(parameters: seq<Field>, name: string)
    ensures Lookup(parameters, name).Some? <==> Present(parameters, name)
  {
    if Lookup(parameters, name).Some? {
      assert Field(name, Lookup(parameters, name).value) in parameters;
    }
  }

  lemma {:induction false} AllPresentMeans(required: seq<string>, parameters: seq<Field>)
    ensures AllPresent(required, parameters)
            <==> forall name :: name in required ==> Present(parameters, name)
  {
    if required != [] {
      AllPresentMeans(required[1..], parameters);
      assert required == [required[0]] + required[1..];
      LookupPresent(parameters, required[0]);
    }
  }

  lemma {:induction false} AllDeclaredMeans(parameters: seq<Field>, properties: map<string, Constraint>)
    ensures AllDeclared(parameters, properties) <==> forall f :: f in parameters ==> f.name in properties
  {
    if parameters != [] {
      AllDeclaredMeans(parameters[1..], properties);
      assert parameters == [parameters[0]] + parameters[1..];
    }
  }

  lemma {:induction false} AllAdmittedMeans(parameters: seq<Field>, properties: map<string, Constraint>)
    ensures AllAdmitted(parameters, properties)
            <==> forall f :: f in parameters && f.name in properties ==> Admits(properties[f.name], f.value)
  {
    if parameters != [] {
      AllAdmittedMeans(parameters[1..], properties);
      assert parameters == [parameters[0]] + parameters[1..];
    }
  }

  lemma AdmitsFits()
    ensures forall c, v :: Admits(c, v) <==> Fits(c, v)
  {
  }

  /** The early-return checks accept exactly the conforming parameters. */
  lemma ValidateParametersExact(s: ParameterSchema, parameters: seq<Field>)
    ensures ValidateParameters(s, parameters) <==> Conforms(s, parameters)
  {
    AdmitsFits();
    AllPresentMeans(s.required, parameters);
    AllDeclaredMeans(parameters, s.properties);
    AllAdmittedMeans(parameters, s.properties);
  }
}
