/**
 * JSON documents and the canonical text both checksums hash: ASCII escapes, sorted keys,
 * no white space. A `char` is a Unicode scalar value, so `string` is exactly the domain on
 * which the escaping is one-to-one. An object keeps the insertion order of a Python dict.
 */
module Json {
  import opened Order

  datatype Json =
    | Null
    | Bool(flag: bool)
    | Num(number: int)
    | Str(text: string)
    | Arr(items: seq<Json>)
    | Obj(fields: seq<Field>)

  datatype Field = Field(name: string, value: Json)

  // ---------------------------------------------------------------- numbers

  function Digit(n: nat): (c: char)
    requires n < 10
    ensures '0' <= c <= '9'
  {
    ('0' as int + n) as char
  }

  function Digits(n: nat): (d: string)
    ensures d != []
    ensures forall c :: c in d ==> '0' <= c <= '9'
  {
    if n < 10 then [Digit(n)] else Digits(n / 10) + [Digit(n % 10)]
  }

  function Decimal(n: int): string {
    if n < 0 then "-" + Digits(-n) else Digits(n)
  }

  // ---------------------------------------------------------------- strings

  function HexDigit(n: nat): (c: char)
    requires n < 16
    ensures '0' <= c <= '9' || 'a' <= c <= 'f'
  {
    if n < 10 then ('0' as int + n) as char else ('a' as int + n - 10) as char
  }

  function Hex4(n: nat): (s: string)
    requires n < 0x10000
    ensures |s| == 4
  {
    [HexDigit(n / 4096), HexDigit(n / 256 % 16), HexDigit(n / 16 % 16), HexDigit(n % 16)]
  }

  const BACKSPACE: char := 8 as char
  const FORM_FEED: char := 12 as char

  /** One character as `ensure_ascii` writes it; characters past the BMP become a surrogate pair. */
  function Escape(c: char): (s: string)
    ensures s != []
  {
    if c == '"' then "\\\""
    else if c == '\\' then "\\\\"
    else if c == '\n' then "\\n"
    else if c == '\r' then "\\r"
    else if c == '\t' then "\\t"
    else if c == BACKSPACE then "\\b"
    else if c == FORM_FEED then "\\f"
    else if ' ' <= c <= '~' then [c]
    else if c as int < 0x10000 then "\\u" + Hex4(c as int)
    else
      var n := c as int - 0x10000;
      "\\u" + Hex4(0xD800 + n / 1024) + "\\u" + Hex4(0xDC00 + n % 1024)
  }

  function EscapeAll(s: string): string {
    if s == [] then [] else Escape(s[0]) + EscapeAll(s[1..])
  }

  function Quote(s: string): string {
    "\"" + EscapeAll(s) + "\""
  }

  // ---------------------------------------------------------------- documents

  /** The compact text of a document, fields in the order they stand. */
  function Print(v: Json): string
    decreases v, 0
  {
    match v
    case Null => "null"
    case Bool(b) => if b then "true" else "false"
    case Num(n) => Decimal(n)
    case Str(s) => Quote(s)
    case Arr(items) =>
      if items == [] then "[]" else "[" + Print(items[0]) + PrintItems(items[1..])
    case Obj(fields) =>
      if fields == [] then "{}" else "{" + PrintField(fields[0]) + PrintFields(fields[1..])
  }

  function PrintItems(items: seq<Json>): string
    decreases items, 0
  {
    if items == [] then "]" else "," + Print(items[0]) + PrintItems(items[1..])
  }

  function PrintField(field: Field): string
    decreases field, 0
  {
    Quote(field.name) + ":" + Print(field.value)
  }

  function PrintFields(fields: seq<Field>): string
    decreases fields, 0
  {
    if fields == [] then "}" else "," + PrintField(fields[0]) + PrintFields(fields[1..])
  }

  function FieldKey(field: Field): Key {
    CodePoints(field.name)
  }

  /** The document with the fields of every object sorted by name. */
  function SortKeys(v: Json): Json
    decreases v, 0
  {
    match v
    case Arr(items) => Arr(SortKeysItems(items))
    case Obj(fields) => Obj(SortBy(SortKeysFields(fields), FieldKey))
    case _ => v
  }

  function SortKeysItems(items: seq<Json>): (r: seq<Json>)
    ensures |r| == |items|
    ensures forall i :: 0 <= i < |items| ==> r[i] == SortKeys(items[i])
    decreases items, 0
  {
    if items == [] then [] else [SortKeys(items[0])] + SortKeysItems(items[1..])
  }

  function SortKeysFields(fields: seq<Field>): (r: seq<Field>)
    ensures |r| == |fields|
    ensures forall i :: 0 <= i < |fields| ==> r[i] == Field(fields[i].name, SortKeys(fields[i].value))
    decreases fields, 0
  {
    if fields == [] then []
    else [Field(fields[0].name, SortKeys(fields[0].value))] + SortKeysFields(fields[1..])
  }

  /** `json.dumps(v, ensure_ascii=True, separators=(",", ":"), sort_keys=True)` */
  function Canonical(v: Json): string {
    Print(SortKeys(v))
  }

  // ---------------------------------------------------------------- equality

  predicate UniqueNames(fields: seq<Field>) {
    forall i, j :: 0 <= i < j < |fields| ==> fields[i].name != fields[j].name
  }

  /** A value Python can hold: no object repeats a key. */
  predicate WellFormed(v: Json)
    decreases v
  {
    match v
    case Arr(items) => forall i :: 0 <= i < |items| ==> WellFormed(items[i])
    case Obj(fields) =>
      && UniqueNames(fields)
      && forall i :: 0 <= i < |fields| ==> WellFormed(fields[i].value)
    case _ => true
  }

  /** Equal documents: lists in order, dicts as unordered collections of items. Unlike Python's
      `==`, a Boolean is never equal to a number. */
  predicate Same(v: Json, w: Json)
    decreases v, 0
  {
    match v
    case Arr(xs) =>
      && w.Arr?
      && |xs| == |w.items|
      && forall i :: 0 <= i < |xs| ==> Same(xs[i], w.items[i])
    case Obj(fs) =>
      && w.Obj?
      && |fs| == |w.fields|
      && forall i :: 0 <= i < |fs| ==> Matched(fs[i], w.fields)
    case _ => v == w
  }

  predicate Matched(f: Field, gs: seq<Field>)
    decreases f, 1
  {
    exists j :: 0 <= j < |gs| && SameField(f, gs[j])
  }

  predicate SameField(f: Field, g: Field)
    decreases f, 0
  {
    f.name == g.name && Same(f.value, g.value)
  }
}
