/** The protected CRM and the adapter that reaches it. */
module Crm {
  import opened Wrappers
  import opened Json
  import opened Redaction

  datatype Customer = Customer(name: string, email: string, supportTier: string, address: string)

  type Customers = map<string, Customer>

  /** `CustomerResponse` */
  function CustomerJson(id: string, c: Customer): Json {
    Obj([Field("customer_id", Str(id)), Field("name", Str(c.name)), Field("email", Str(c.email)),
         Field("support_tier", Str(c.supportTier)), Field("address", Str(c.address))])
  }

  // ---------------------------------------------------------------- the adapter

  datatype CrmRequest =
    | Get(customerId: string)
    | Patch(customerId: string, changes: seq<Field>)
    | Delete(customerId: string)

  /** The codes `HTTPCRMAdapter` puts in a `ToolExecutionError`. */
  datatype AdapterError =
    | ToolNotRegistered
    | InvalidParameters
    | OperationNotSupported
    | UpstreamTimeout
    | UpstreamError(upstreamStatus: Option<int>)

  function ErrorCode(e: AdapterError): string {
    match e
    case ToolNotRegistered => "TOOL_NOT_REGISTERED"
    case InvalidParameters => "INVALID_PARAMETERS"
    case OperationNotSupported => "OPERATION_NOT_SUPPORTED"
    case UpstreamTimeout => "UPSTREAM_TOOL_TIMEOUT"
    case UpstreamError(_) => "UPSTREAM_TOOL_ERROR"
  }

  /** What the adapter does with a call before any request leaves: send one, raise a
      `ToolExecutionError`, or raise something else (a missing customer_id). */
  datatype Dispatch = Send(request: CrmRequest) | Refuse(error: AdapterError) | Raise

  /** An f-string hole: strings as they are, other values as text. */
  function PathSegment(v: Json): string {
    match v
    case Str(s) => s
    case Bool(b) => if b then "True" else "False"
    case Null => "None"
    case _ => Print(v)
  }

  function DispatchCall(tool: string, operation: string, parameters: seq<Field>): Dispatch {
    if tool != "crm" then Refuse(ToolNotRegistered)
    else
      match Lookup(parameters, "customer_id")
      case None => Raise
      case Some(v) =>
        if operation == "read_customer" then Send(Get(PathSegment(v)))
        else if operation == "write_customer" then
          match Lookup(parameters, "changes")
          case Some(Obj(changes)) => Send(Patch(PathSegment(v), changes))
          case _ => Refuse(InvalidParameters)
        else if operation == "delete_customer" then Send(Delete(PathSegment(v)))
        else Refuse(OperationNotSupported)
  }

  /** What comes back from the transport. A body that is not JSON is `None`. */
  datatype Transport = Response(status: int, body: Option<Json>) | TimedOut | Unreachable

  datatype Execution = Done(result: Option<Json>, status: int) | Failed(error: AdapterError) | Escaped

  function Receive(t: Transport): Execution {
    match t
    case TimedOut => Failed(UpstreamTimeout)
    case Unreachable => Failed(UpstreamError(None))
    case Response(status, body) =>
      if status >= 400 then Failed(UpstreamError(Some(status)))
      else if status == 204 then Done(None, status)
      else if body.Some? then Done(body, status)
      else Escaped
  }

  // ---------------------------------------------------------------- the service

  datatype Change = Unset | SetNull | SetTo(value: string)

  /** A validated `CustomerPatch`: every field unset, null or a string. */
  datatype CustomerPatch = CustomerPatch(name: Change, email: Change, supportTier: Change, address: Change)

  /** `EmailStr`: the normalised address, or a refusal. */
  type EmailCheck = string -> Option<string>

  function DecodeText(fields: seq<Field>, name: string, most: nat): Option<Change> {
    match Lookup(fields, name)
    case None => Some(Unset)
    case Some(Null) => Some(SetNull)
    case Some(Str(s)) => if 1 <= |s| <= most then Some(SetTo(s)) else None
    case Some(_) => None
  }

  function DecodeEmail(fields: seq<Field>, check: EmailCheck): Option<Change> {
    match Lookup(fields, "email")
    case None => Some(Unset)
    case Some(Null) => Some(SetNull)
    case Some(Str(s)) => (match check(s) case Some(e) => Some(SetTo(e)) case None => None)
    case Some(_) => None
  }

  /** `CustomerPatch` validation: known fields only, and at least one of them. */
  function DecodePatch(fields: seq<Field>, check: EmailCheck): Option<CustomerPatch> {
    if fields == [] || exists f :: f in fields && f.name !in {"name", "email", "support_tier", "address"} then None
    else
      match (DecodeText(fields, "name", 200), DecodeEmail(fields, check),
             DecodeText(fields, "support_tier", 50), DecodeText(fields, "address", 1000))
      case (Some(n), Some(e), Some(t), Some(a)) => Some(CustomerPatch(n, e, t, a))
      case _ => None
  }

  /** What the table then holds: the new text where one is given, the old where none is;
      nothing at all when a column would become null. */
  function Patched(c: Customer, p: CustomerPatch): Option<Customer> {
    if p.name.SetNull? || p.email.SetNull? || p.supportTier.SetNull? || p.address.SetNull? then None
    else Some(Customer(Text(p.name, c.name), Text(p.email, c.email),
                       Text(p.supportTier, c.supportTier), Text(p.address, c.address)))
  }

  function Text(change: Change, original: string): string {
    if change.SetTo? then change.value else original
  }

  /** One request against the customer table: the reply and the table after it. */
  function Handle(customers: Customers, request: CrmRequest, check: EmailCheck): (Transport, Customers) {
    match request
    case Get(id) =>
      if id in customers then (Response(200, Some(CustomerJson(id, customers[id]))), customers)
      else (Response(404, Some(NotFound())), customers)
    case Patch(id, changes) =>
      (match DecodePatch(changes, check)
       case None => (Response(422, Some(Null)), customers)
       case Some(p) =>
         if id !in customers then (Response(404, Some(NotFound())), customers)
         else
           match Patched(customers[id], p)
           case None => (Response(500, None), customers)
           case Some(c) => (Response(200, Some(CustomerJson(id, c))), customers[id := c]))
    case Delete(id) =>
      if id in customers then (Response(204, None), customers - {id})
      else (Response(404, Some(NotFound())), customers)
  }

  function NotFound(): Json {
    Obj([Field("detail", Obj([Field("code", Str("CUSTOMER_NOT_FOUND"))]))])
  }

  datatype Column = NameColumn | EmailColumn | TierColumn | AddressColumn

  /** A row under edit: a column may transiently hold null. */
  type Draft = map<Column, Option<string>>

  function Columns(c: Customer): (d: Draft)
    ensures d.Keys == {NameColumn, EmailColumn, TierColumn, AddressColumn}
  {
    map[NameColumn := Some(c.name), EmailColumn := Some(c.email),
        TierColumn := Some(c.supportTier), AddressColumn := Some(c.address)]
  }

  function Edited(change: Change, original: Option<string>): Option<string> {
    match change
    case Unset => original
    case SetNull => None
    case SetTo(text) => Some(text)
  }

  class CustomerService {
    const check: EmailCheck
    var customers: Customers

    constructor (check: EmailCheck, customers: Customers)
      ensures this.check == check && this.customers == customers
    {
      this.check := check;
      this.customers := customers;
    }

    method ReadCustomer(id: string) returns (reply: Transport)
      ensures (reply, customers) == Handle(customers, Get(id), check)
    {
      if id !in customers {
        return Response(404, Some(NotFound()));
      }
      reply := Response(200, Some(CustomerJson(id, customers[id])));
    }

    method UpdateCustomer(id: string, changes: seq<Field>) returns (reply: Transport)
      modifies this`customers
      ensures (reply, customers) == Handle(old(customers), Patch(id, changes), check)
    {
      hide DecodePatch;
      hide CustomerJson;
      hide NotFound;
      var decoded := DecodePatch(changes, check);
      if decoded.None? {
        return Response(422, Some(Null));
      }
      if id !in customers {
        return Response(404, Some(NotFound()));
      }
      var p := decoded.value;
      var updates := [(NameColumn, p.name), (EmailColumn, p.email),
                      (TierColumn, p.supportTier), (AddressColumn, p.address)];
      var row := Columns(customers[id]);
      var i := 0;
      while i < |updates|
        invariant 0 <= i <= |updates| == 4
        invariant row.Keys == {NameColumn, EmailColumn, TierColumn, AddressColumn}
        invariant forall j :: 0 <= j < i ==>
          row[updates[j].0] == Edited(updates[j].1, Columns(customers[id])[updates[j].0])
        invariant forall j :: i <= j < 4 ==> row[updates[j].0] == Columns(customers[id])[updates[j].0]
      {
        match updates[i].1 {
          case Unset =>
          case SetNull => row := row[updates[i].0 := None];
          case SetTo(text) => row := row[updates[i].0 := Some(text)];
        }
        i := i + 1;
      }
      assert row[updates[0].0] == row[NameColumn] && row[updates[1].0] == row[EmailColumn];
      assert row[updates[2].0] == row[TierColumn] && row[updates[3].0] == row[AddressColumn];
      if row[NameColumn].None? || row[EmailColumn].None? || row[TierColumn].None? || row[AddressColumn].None? {
        return Response(500, None);
      }
      var c := Customer(row[NameColumn].value, row[EmailColumn].value, row[TierColumn].value, row[AddressColumn].value);
      customers := customers[id := c];
      reply := Response(200, Some(CustomerJson(id, c)));
    }

    method DeleteCustomer(id: string) returns (reply: Transport)
      modifies this`customers
      ensures (reply, customers) == Handle(old(customers), Delete(id), check)
    {
      if id !in customers {
        return Response(404, Some(NotFound()));
      }
      customers := customers - {id};
      reply := Response(204, None);
    }
  }

  /** A request touches at most the customer it names; a read or a refusal touches nothing. */
  lemma HandleIsLocal(customers: Customers, request: CrmRequest, check: EmailCheck)
    ensures var (reply, after) := Handle(customers, request, check);
      && (forall id :: id != request.customerId ==> (id in after <==> id in customers))
      && (forall id :: id != request.customerId && id in customers ==> after[id] == customers[id])
      && (request.Get? || reply.status >= 400 ==> after == customers)
      && (reply.status == 204 <==> request.Delete? && request.customerId in customers)
      && (reply.status == 204 ==> request.customerId !in after)
  {
  }

  /** Writing and then reading gives back exactly what the write answered. */
  lemma ReadAfterWrite(customers: Customers, id: string, changes: seq<Field>, check: EmailCheck)
    ensures var (reply, after) := Handle(customers, Patch(id, changes), check);
      reply.status == 200 ==> Handle(after, Get(id), check) == (reply, after)
  {
  }

  // ---------------------------------------------------------------- what is sent and answered

  /** Which request a call becomes, and which it never becomes. */
  lemma DispatchExact(tool: string, operation: string, parameters: seq<Field>)
    ensures var d, id, changes :=
        DispatchCall(tool, operation, parameters), Lookup(parameters, "customer_id"), Lookup(parameters, "changes");
      && (tool != "crm" ==> d == Refuse(ToolNotRegistered))
      && (tool == "crm" && id.None? ==> d.Raise?)
      && (tool == "crm" && id.Some? && operation == "read_customer" ==> d.Send? && d.request.Get?)
      && (tool == "crm" && id.Some? && operation == "delete_customer" ==> d.Send? && d.request.Delete?)
      && (tool == "crm" && id.Some? && operation == "write_customer" ==>
            if changes.Some? && changes.value.Obj? then
              d.Send? && d.request.Patch? && d.request.changes == changes.value.fields
            else d == Refuse(InvalidParameters))
      && (tool == "crm" && id.Some? && operation !in {"read_customer", "write_customer", "delete_customer"} ==>
            d == Refuse(OperationNotSupported))
      && (d.Send? && id.value.Str? ==> d.request.customerId == id.value.text)
  {
    assert |"read_customer"| == 13 && |"write_customer"| == 14 && |"delete_customer"| == 15;
  }

  /** What the adapter makes of an answer. */
  lemma ReceiveExact(t: Transport)
    ensures var e := Receive(t);
      && (e == Failed(UpstreamTimeout) <==> t.TimedOut?)
      && (e == Failed(UpstreamError(None)) <==> t.Unreachable?)
      && (forall status ::
            e == Failed(UpstreamError(Some(status))) <==> t.Response? && t.status == status && status >= 400)
      && (e.Done? <==> t.Response? && t.status < 400 && (t.status == 204 || t.body.Some?))
      && (e.Done? ==> e.status == t.status && e.result == (if t.status == 204 then None else t.body))
  {
  }

  /** The five fields of a customer as the service shows them. */
  ghost predicate ShowsCustomer(v: Json, id: string, c: Customer) {
    && v.Obj? && |v.fields| == 5
    && Lookup(v.fields, "customer_id") == Some(Str(id))
    && Lookup(v.fields, "name") == Some(Str(c.name))
    && Lookup(v.fields, "email") == Some(Str(c.email))
    && Lookup(v.fields, "support_tier") == Some(Str(c.supportTier))
    && Lookup(v.fields, "address") == Some(Str(c.address))
  }

  lemma CustomerIsShown(id: string, c: Customer)
    ensures ShowsCustomer(CustomerJson(id, c), id, c)
  {
    hide Lookup;
    var fields := CustomerJson(id, c).fields;
    assert |fields[0].name| == 11 && |fields[1].name| == 4 && |fields[2].name| == 5 && |fields[3].name| == 12;
    assert |fields[4].name| == 7;
    LookupAt(fields, 0);
    LookupAt(fields, 1);
    LookupAt(fields, 2);
    LookupAt(fields, 3);
    LookupAt(fields, 4);
  }

  /** Reading shows the stored row, field by field, or answers 404. */
  lemma ReadExact(customers: Customers, id: string, check: EmailCheck)
    ensures var reply := Handle(customers, Get(id), check).0;
      && reply.Response?
      && (if id in customers then
            reply.status == 200 && reply.body.Some? && ShowsCustomer(reply.body.value, id, customers[id])
          else reply.status == 404)
  {
    hide ShowsCustomer;
    hide CustomerJson;
    if id in customers { CustomerIsShown(id, customers[id]); }
  }

  /** A supplied text: absent, null, or a string of admissible length. */
  predicate TextOk(v: Option<Json>, most: nat) {
    v.None? || v.value.Null? || (v.value.Str? && 1 <= |v.value.text| <= most)
  }

  predicate EmailOk(v: Option<Json>, check: EmailCheck) {
    v.None? || v.value.Null? || (v.value.Str? && check(v.value.text).Some?)
  }

  /** A patch the service accepts: something to change, known fields only, each admissible. */
  ghost predicate PatchOk(changes: seq<Field>, check: EmailCheck) {
    && changes != []
    && (forall f :: f in changes ==>
          f.name == "name" || f.name == "email" || f.name == "support_tier" || f.name == "address")
    && TextOk(Lookup(changes, "name"), 200) && EmailOk(Lookup(changes, "email"), check)
    && TextOk(Lookup(changes, "support_tier"), 50) && TextOk(Lookup(changes, "address"), 1000)
  }

  predicate ClearsColumn(changes: seq<Field>) {
    || Lookup(changes, "name") == Some(Null) || Lookup(changes, "email") == Some(Null)
    || Lookup(changes, "support_tier") == Some(Null) || Lookup(changes, "address") == Some(Null)
  }

  predicate Takes(v: Option<Json>, before: string, after: string) {
    after == if v.Some? && v.value.Str? then v.value.text else before
  }

  predicate TakesEmail(v: Option<Json>, check: EmailCheck, before: string, after: string) {
    if v.Some? && v.value.Str? then check(v.value.text) == Some(after) else after == before
  }

  /** A patch is answered 422 unless it is acceptable, then 404 for an unknown customer, 500 when
      it would clear a column, and otherwise changes exactly the supplied columns to exactly the
      supplied values (the e-mail as normalised) and shows the row. */
  lemma PatchExact(customers: Customers, id: string, changes: seq<Field>, check: EmailCheck)
    ensures var (reply, after) := Handle(customers, Patch(id, changes), check);
      && reply.Response?
      && (reply.status == 422 <==> !PatchOk(changes, check))
      && (reply.status == 404 <==> PatchOk(changes, check) && id !in customers)
      && (reply.status == 500 <==> PatchOk(changes, check) && id in customers && ClearsColumn(changes))
      && (reply.status == 200 <==> PatchOk(changes, check) && id in customers && !ClearsColumn(changes))
      && (reply.status == 200 ==>
            && id in after
            && Takes(Lookup(changes, "name"), customers[id].name, after[id].name)
            && TakesEmail(Lookup(changes, "email"), check, customers[id].email, after[id].email)
            && Takes(Lookup(changes, "support_tier"), customers[id].supportTier, after[id].supportTier)
            && Takes(Lookup(changes, "address"), customers[id].address, after[id].address)
            && reply.body.Some? && ShowsCustomer(reply.body.value, id, after[id]))
  {
    hide Lookup;
    hide ShowsCustomer;
    hide CustomerJson;
    DecodePatchExact(changes, check);
    var (reply, after) := Handle(customers, Patch(id, changes), check);
    if reply.status == 200 { CustomerIsShown(id, after[id]); }
  }

  lemma DecodePatchExact(changes: seq<Field>, check: EmailCheck)
    ensures DecodePatch(changes, check).Some? <==> PatchOk(changes, check)
    ensures DecodePatch(changes, check).Some? ==>
      var p := DecodePatch(changes, check).value;
      && p.name == Asked(Lookup(changes, "name")) && p.supportTier == Asked(Lookup(changes, "support_tier"))
      && p.address == Asked(Lookup(changes, "address")) && p.email == AskedEmail(Lookup(changes, "email"), check)
  {
    hide Lookup;
  }

  function Asked(v: Option<Json>): Change {
    match v
    case Some(Null) => SetNull
    case Some(Str(s)) => SetTo(s)
    case _ => Unset
  }

  function AskedEmail(v: Option<Json>, check: EmailCheck): Change {
    match v
    case Some(Null) => SetNull
    case Some(Str(s)) => (match check(s) case Some(e) => SetTo(e) case None => Unset)
    case _ => Unset
  }

  /** Deleting answers 204 and removes exactly that customer, or answers 404. */
  lemma DeleteExact(customers: Customers, id: string, check: EmailCheck)
    ensures var (reply, after) := Handle(customers, Delete(id), check);
      && reply.Response? && reply.status == (if id in customers then 204 else 404)
      && after.Keys == customers.Keys - {id}
      && forall other :: other in after ==> after[other] == customers[other]
  {
  }
}
