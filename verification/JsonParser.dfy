/**
 * A parser for compact JSON text (sections 4 to 7 of RFC 8259 without insignificant white
 * space) that undoes the printer, and what follows for the canonical text.
 */
module JsonParser {
  import opened Wrappers
  import opened Order
  import opened Json

  // ---------------------------------------------------------------- numbers

  predicate IsDigit(c: char) { '0' <= c <= '9' }

  function Value(d: string): (n: nat)
    requires forall c :: c in d ==> IsDigit(c)
  {
    if d == [] then 0
    else
      assert IsDigit(d[|d| - 1]);
      Value(d[..|d| - 1]) * 10 + (d[|d| - 1] as int - '0' as int)
  }

  function LeadingDigits(s: string): (n: nat)
    ensures n <= |s|
    ensures forall c :: c in s[..n] ==> IsDigit(c)
  {
    if s == [] || !IsDigit(s[0]) then 0
    else
      var n := LeadingDigits(s[1..]);
      assert s[..n + 1] == [s[0]] + s[1..][..n];
      n + 1
  }

  /** An unsigned integer: `0`, or digits without a leading zero. */
  function ParseDigits(s: string): (r: Option<(nat, string)>)
    ensures r.Some? ==> |r.value.1| < |s|
  {
    var n := LeadingDigits(s);
    if n == 0 || (n > 1 && s[0] == '0') then None else Some((Value(s[..n]), s[n..]))
  }

  function ParseNumber(s: string): (r: Option<(Json, string)>)
    ensures r.Some? ==> |r.value.1| < |s|
  {
    if s != [] && s[0] == '-' then
      match ParseDigits(s[1..])
      case None => None
      case Some((n, rest)) =>
        var magnitude: int := n;
        Some((Num(-magnitude), rest))
    else
      match ParseDigits(s)
      case None => None
      case Some((n, rest)) => Some((Num(n), rest))
  }

  // ---------------------------------------------------------------- strings

  function HexValue(c: char): (r: Option<nat>)
    ensures r.Some? ==> r.value < 16
  {
    if IsDigit(c) then Some(c as int - '0' as int)
    else if 'a' <= c <= 'f' then Some(c as int - 'a' as int + 10)
    else if 'A' <= c <= 'F' then Some(c as int - 'A' as int + 10)
    else None
  }

  function ParseHex4(s: string): (r: Option<nat>)
    ensures r.Some? ==> |s| >= 4 && r.value < 0x10000
  {
    if |s| < 4 then None
    else
      match (HexValue(s[0]), HexValue(s[1]), HexValue(s[2]), HexValue(s[3]))
      case (Some(a), Some(b), Some(c), Some(d)) => Some(((a * 16 + b) * 16 + c) * 16 + d)
      case _ => None
  }

  /** What follows `\u`: one scalar value, or a surrogate pair; a lone surrogate is refused. */
  function ParseUnicode(s: string): (r: Option<(char, string)>)
    ensures r.Some? ==> |r.value.1| < |s|
  {
    match ParseHex4(s)
    case None => None
    case Some(n) =>
      if n < 0xD800 || 0xE000 <= n then Some((n as char, s[4..]))
      else if n >= 0xDC00 || |s| < 6 || s[4] != '\\' || s[5] != 'u' then None
      else
        match ParseHex4(s[6..])
        case None => None
        case Some(m) =>
          if 0xDC00 <= m < 0xE000
          then Some(((0x10000 + (n - 0xD800) * 1024 + (m - 0xDC00)) as char, s[10..]))
          else None
  }

  function ParseChar(s: string): (r: Option<(char, string)>)
    requires s != [] && s[0] != '"'
    ensures r.Some? ==> |r.value.1| < |s|
  {
    if s[0] != '\\' then (if s[0] < ' ' then None else Some((s[0], s[1..])))
    else if |s| < 2 then None
    else
      match s[1]
      case '"' => Some(('"', s[2..]))
      case '\\' => Some(('\\', s[2..]))
      case '/' => Some(('/', s[2..]))
      case 'b' => Some((BACKSPACE, s[2..]))
      case 'f' => Some((FORM_FEED, s[2..]))
      case 'n' => Some(('\n', s[2..]))
      case 'r' => Some(('\r', s[2..]))
      case 't' => Some(('\t', s[2..]))
      case 'u' => ParseUnicode(s[2..])
      case _ => None
  }

  /** The rest of a string literal after its opening quote. */
  function ParseChars(s: string): (r: Option<(string, string)>)
    ensures r.Some? ==> |r.value.1| < |s|
    decreases |s|
  {
    if s == [] then None
    else if s[0] == '"' then Some(([], s[1..]))
    else
      match ParseChar(s)
      case None => None
      case Some((c, s1)) =>
        match ParseChars(s1)
        case None => None
        case Some((cs, s2)) => Some(([c] + cs, s2))
  }

  // ---------------------------------------------------------------- documents

  function ParseWord(s: string, word: string, v: Json): (r: Option<(Json, string)>)
    requires word != []
    ensures r.Some? ==> |r.value.1| < |s|
  {
    if |word| <= |s| && s[..|word|] == word then Some((v, s[|word|..])) else None
  }

  function ParseString(s: string): (r: Option<(Json, string)>)
    ensures r.Some? ==> |r.value.1| < |s|
  {
    match ParseChars(s)
    case None => None
    case Some((text, rest)) => Some((Str(text), rest))
  }

  function ParseValue(s: string): (r: Option<(Json, string)>)
    ensures r.Some? ==> |r.value.1| < |s|
    decreases |s|, 1
  {
    if s == [] then None
    else
      match s[0]
      case 'n' => ParseWord(s, "null", Null)
      case 't' => ParseWord(s, "true", Bool(true))
      case 'f' => ParseWord(s, "false", Bool(false))
      case '"' => ParseString(s[1..])
      case '[' => ParseArray(s[1..])
      case '{' => ParseObject(s[1..])
      case _ => ParseNumber(s)
  }

  /** The rest of an array after its opening bracket. */
  function ParseArray(s: string): (r: Option<(Json, string)>)
    ensures r.Some? ==> |r.value.1| < |s|
    decreases |s|, 3
  {
    if s != [] && s[0] == ']' then Some((Arr([]), s[1..]))
    else
      match ParseValue(s)
      case None => None
      case Some((item, s1)) =>
        match ParseItems(s1)
        case None => None
        case Some((items, rest)) => Some((Arr([item] + items), rest))
  }

  /** The rest of an object after its opening brace. */
  function ParseObject(s: string): (r: Option<(Json, string)>)
    ensures r.Some? ==> |r.value.1| < |s|
    decreases |s|, 3
  {
    if s != [] && s[0] == '}' then Some((Obj([]), s[1..]))
    else
      match ParseField(s)
      case None => None
      case Some((field, s1)) =>
        match ParseFields(s1)
        case None => None
        case Some((fields, rest)) => Some((Obj([field] + fields), rest))
  }

  function ParseItems(s: string): (r: Option<(seq<Json>, string)>)
    ensures r.Some? ==> |r.value.1| < |s|
    decreases |s|, 0
  {
    if s == [] then None
    else if s[0] == ']' then Some(([], s[1..]))
    else if s[0] == ',' then
      match ParseValue(s[1..])
      case None => None
      case Some((item, s1)) =>
        match ParseItems(s1)
        case None => None
        case Some((items, rest)) => Some(([item] + items, rest))
    else None
  }

  function ParseField(s: string): (r: Option<(Field, string)>)
    ensures r.Some? ==> |r.value.1| < |s|
    decreases |s|, 2
  {
    if s == [] || s[0] != '"' then None
    else
      match ParseChars(s[1..])
      case None => None
      case Some((name, s1)) =>
        if s1 == [] || s1[0] != ':' then None
        else
          match ParseValue(s1[1..])
          case None => None
          case Some((value, rest)) => Some((Field(name, value), rest))
  }

  function ParseFields(s: string): (r: Option<(seq<Field>, string)>)
    ensures r.Some? ==> |r.value.1| < |s|
    decreases |s|, 0
  {
    if s == [] then None
    else if s[0] == '}' then Some(([], s[1..]))
    else if s[0] == ',' then
      match ParseField(s[1..])
      case None => None
      case Some((field, s1)) =>
        match ParseFields(s1)
        case None => None
        case Some((fields, rest)) => Some(([field] + fields, rest))
    else None
  }

  /** A whole text. */
  function Parse(s: string): Option<Json> {
    match ParseValue(s)
    case Some((v, rest)) => if rest == [] then Some(v) else None
    case None => None
  }

  // ---------------------------------------------------------------- the round trip

  lemma {:induction false} ValueOfDigits(n: nat)
    ensures Value(Digits(n)) == n
    ensures n >= 10 ==> |Digits(n)| > 1
    ensures |Digits(n)| > 1 ==> Digits(n)[0] != '0'
  {
    var d := Digits(n);
    if n >= 10 {
      ValueOfDigits(n / 10);
      assert d[..|d| - 1] == Digits(n / 10);
      assert d[|d| - 1] == Digit(n % 10);
    } else {
      assert d[..0] == [];
    }
  }

  predicate Delimited(rest: string) {
    rest == [] || !IsDigit(rest[0])
  }

  lemma {:induction false} LeadingDigitsOf(d: string, rest: string)
    requires forall c :: c in d ==> IsDigit(c)
    requires Delimited(rest)
    ensures LeadingDigits(d + rest) == |d|
  {
    if d == [] {
      assert d + rest == rest;
    } else {
      assert d[0] in d;
      assert (d + rest)[1..] == d[1..] + rest;
      LeadingDigitsOf(d[1..], rest);
    }
  }

  lemma ParseOfDigits(n: nat, rest: string)
    requires Delimited(rest)
    ensures ParseDigits(Digits(n) + rest) == Some((n, rest))
  {
    var d := Digits(n);
    ValueOfDigits(n);
    LeadingDigitsOf(d, rest);
    assert (d + rest)[..|d|] == d;
    assert (d + rest)[|d|..] == rest;
  }

  lemma ParseOfDecimal(n: int, rest: string)
    requires Delimited(rest)
    ensures ParseNumber(Decimal(n) + rest) == Some((Num(n), rest))
  {
    hide ParseDigits;
    hide Digits;
    var s := Decimal(n) + rest;
    if n < 0 {
      assert s[0] == '-' && s[1..] == Digits(-n) + rest;
      ParseOfDigits(-n, rest);
    } else {
      assert Digits(n)[0] in Digits(n);
      assert s[0] == Digits(n)[0] && s[0] != '-';
      ParseOfDigits(n, rest);
    }
  }

  lemma HexValueOfDigit(n: nat)
    requires n < 16
    ensures HexValue(HexDigit(n)) == Some(n)
  {
  }

  lemma HexDigitsOf(n: nat)
    requires n < 0x10000
    ensures ((n / 4096 * 16 + n / 256 % 16) * 16 + n / 16 % 16) * 16 + n % 16 == n
  {
    assert n / 16 == n / 16 / 16 * 16 + n / 16 % 16;
    assert n / 16 / 16 == n / 256;
    assert n / 256 / 16 == n / 4096;
  }

  lemma ParseOfHex4(n: nat, rest: string)
    requires n < 0x10000
    ensures ParseHex4(Hex4(n) + rest) == Some(n)
  {
    var s := Hex4(n) + rest;
    var a, b, c, d := n / 4096, n / 256 % 16, n / 16 % 16, n % 16;
    assert s[..4] == [HexDigit(a), HexDigit(b), HexDigit(c), HexDigit(d)];
    HexValueOfDigit(a);
    HexValueOfDigit(b);
    HexValueOfDigit(c);
    HexValueOfDigit(d);
    assert ((a * 16 + b) * 16 + c) * 16 + d == n by { HexDigitsOf(n); }
  }

  lemma ParseOfUnicode(c: char, rest: string)
    requires c as int < 0x10000
    ensures ParseUnicode(Hex4(c as int) + rest) == Some((c, rest))
  {
    ParseOfHex4(c as int, rest);
    assert (Hex4(c as int) + rest)[4..] == rest;
  }

  lemma ParseOfPair(c: char, rest: string)
    requires c as int >= 0x10000
    ensures
      var n := c as int - 0x10000;
      ParseUnicode(Hex4(0xD800 + n / 1024) + ("\\u" + Hex4(0xDC00 + n % 1024) + rest)) == Some((c, rest))
  {
    hide ParseHex4;
    hide Hex4;
    var n := c as int - 0x10000;
    var low := Hex4(0xDC00 + n % 1024) + rest;
    var s := Hex4(0xD800 + n / 1024) + ("\\u" + Hex4(0xDC00 + n % 1024) + rest);
    ParseOfHex4(0xD800 + n / 1024, "\\u" + Hex4(0xDC00 + n % 1024) + rest);
    ParseOfHex4(0xDC00 + n % 1024, rest);
    assert s[6..] == low;
    assert s[10..] == rest;
  }

  lemma ParseOfEscape(c: char, rest: string)
    ensures Escape(c)[0] != '"'
    ensures ParseChar(Escape(c) + rest) == Some((c, rest))
  {
    hide ParseUnicode;
    hide Hex4;
    var s := Escape(c) + rest;
    if |Escape(c)| == 2 {
      assert s[2..] == rest;
    } else if ' ' <= c <= '~' {
      assert s[1..] == rest;
    } else if c as int < 0x10000 {
      assert s[2..] == Hex4(c as int) + rest;
      ParseOfUnicode(c, rest);
    } else {
      var n := c as int - 0x10000;
      assert s[2..] == Hex4(0xD800 + n / 1024) + ("\\u" + Hex4(0xDC00 + n % 1024) + rest);
      ParseOfPair(c, rest);
    }
  }

  lemma {:induction false} ParseOfChars(text: string, rest: string)
    ensures ParseChars(EscapeAll(text) + "\"" + rest) == Some((text, rest))
  {
    var s := EscapeAll(text) + "\"" + rest;
    if text == [] {
      assert s[1..] == rest;
    } else {
      var tail := EscapeAll(text[1..]) + "\"" + rest;
      assert s == Escape(text[0]) + tail;
      ParseOfEscape(text[0], tail);
      ParseOfChars(text[1..], rest);
      assert text == [text[0]] + text[1..];
    }
  }

  lemma ParseOfQuote(text: string, rest: string)
    ensures (Quote(text) + rest)[1..] == EscapeAll(text) + "\"" + rest
    ensures ParseChars((Quote(text) + rest)[1..]) == Some((text, rest))
  {
    assert (Quote(text) + rest)[1..] == EscapeAll(text) + "\"" + rest;
    ParseOfChars(text, rest);
  }

  /** No printed document starts like the close of an array. */
  lemma PrintHead(v: Json)
    ensures Print(v) != [] && Print(v)[0] != ']'
  {
    if v.Num? {
      assert v.number >= 0 ==> Digits(v.number)[0] in Digits(v.number);
    }
  }

  lemma ParseOfWord(word: string, v: Json, rest: string)
    requires word != []
    ensures ParseWord(word + rest, word, v) == Some((v, rest))
  {
    assert (word + rest)[..|word|] == word && (word + rest)[|word|..] == rest;
  }

  lemma ParsePrintScalar(v: Json, rest: string)
    requires !v.Arr? && !v.Obj? && Delimited(rest)
    ensures ParseValue(Print(v) + rest) == Some((v, rest))
  {
    hide ParseWord;
    hide ParseNumber;
    hide ParseChars;
    hide ParseArray;
    hide ParseObject;
    hide Digits;
    hide EscapeAll;
    var s := Print(v) + rest;
    match v
    case Null => ParseOfWord("null", v, rest);
    case Bool(b) => ParseOfWord(if b then "true" else "false", v, rest);
    case Num(n) =>
      assert n >= 0 ==> Digits(n)[0] in Digits(n);
      assert s[0] == '-' || IsDigit(s[0]);
      ParseOfDecimal(n, rest);
    case Str(text) => ParseOfQuote(text, rest);
  }

  lemma {:induction false} ParsePrintArr(items: seq<Json>, rest: string)
    requires Delimited(rest)
    ensures ParseValue(Print(Arr(items)) + rest) == Some((Arr(items), rest))
    decreases items, 3
  {
    var whole := Print(Arr(items)) + rest;
    if items == [] {
      assert whole[1..][1..] == rest;
    } else {
      hide ParseArray;
      var s := Print(items[0]) + (PrintItems(items[1..]) + rest);
      assert whole[1..] == s;
      assert whole[0] == '[';
      ParsePrintElements(items, rest);
    }
  }

  lemma {:induction false} ParsePrintElements(items: seq<Json>, rest: string)
    requires Delimited(rest) && items != []
    ensures ParseArray(Print(items[0]) + (PrintItems(items[1..]) + rest)) == Some((Arr(items), rest))
    decreases items, 2
  {
    hide ParseValue;
    hide ParseItems;
    hide Print;
    var tail := PrintItems(items[1..]) + rest;
    PrintHead(items[0]);
    ParsePrintItems(items[1..], rest);
    ParsePrint(items[0], tail);
    assert items == [items[0]] + items[1..];
  }

  lemma {:induction false} ParsePrintObj(fields: seq<Field>, rest: string)
    requires Delimited(rest)
    ensures ParseValue(Print(Obj(fields)) + rest) == Some((Obj(fields), rest))
    decreases fields, 3
  {
    var whole := Print(Obj(fields)) + rest;
    if fields == [] {
      assert whole[1..][1..] == rest;
    } else {
      hide ParseObject;
      var s := PrintField(fields[0]) + (PrintFields(fields[1..]) + rest);
      assert whole[1..] == s;
      assert whole[0] == '{';
      ParsePrintMembers(fields, rest);
    }
  }

  lemma {:induction false} ParsePrintMembers(fields: seq<Field>, rest: string)
    requires Delimited(rest) && fields != []
    ensures ParseObject(PrintField(fields[0]) + (PrintFields(fields[1..]) + rest)) == Some((Obj(fields), rest))
    decreases fields, 2
  {
    var tail := PrintFields(fields[1..]) + rest;
    assert PrintField(fields[0])[0] == '"';
    hide ParseField;
    hide ParseFields;
    hide Print;
    ParsePrintFields(fields[1..], rest);
    ParsePrintField(fields[0], tail);
    assert fields == [fields[0]] + fields[1..];
  }

  lemma {:induction false} ParsePrint(v: Json, rest: string)
    requires Delimited(rest)
    ensures ParseValue(Print(v) + rest) == Some((v, rest))
    decreases v, 0
  {
    match v
    case Arr(items) => ParsePrintArr(items, rest);
    case Obj(fields) => ParsePrintObj(fields, rest);
    case _ => ParsePrintScalar(v, rest);
  }

  lemma {:induction false} ParsePrintItems(items: seq<Json>, rest: string)
    requires Delimited(rest)
    ensures Delimited(PrintItems(items) + rest)
    ensures ParseItems(PrintItems(items) + rest) == Some((items, rest))
    decreases items, 0
  {
    var s := PrintItems(items) + rest;
    if items == [] {
      assert s[1..] == rest;
    } else {
      hide ParseValue;
      hide Print;
      var tail := PrintItems(items[1..]) + rest;
      assert s[1..] == Print(items[0]) + tail;
      ParsePrintItems(items[1..], rest);
      ParsePrint(items[0], tail);
      assert items == [items[0]] + items[1..];
    }
  }

  lemma {:induction false} ParsePrintField(field: Field, rest: string)
    requires Delimited(rest)
    ensures ParseField(PrintField(field) + rest) == Some((field, rest))
    decreases field, 1
  {
    var s := PrintField(field) + rest;
    var value := Print(field.value) + rest;
    var tail := ":" + value;
    assert s == Quote(field.name) + tail;
    assert s[0] == '"' && s[1..] == (Quote(field.name) + tail)[1..];
    ParseOfQuote(field.name, tail);
    assert tail[0] == ':' && tail[1..] == value;
    ParsePrint(field.value, rest);
  }

  lemma {:induction false} ParsePrintFields(fields: seq<Field>, rest: string)
    requires Delimited(rest)
    ensures Delimited(PrintFields(fields) + rest)
    ensures ParseFields(PrintFields(fields) + rest) == Some((fields, rest))
    decreases fields, 0
  {
    var s := PrintFields(fields) + rest;
    if fields == [] {
      assert s[1..] == rest;
    } else {
      hide ParseField;
      hide PrintField;
      var tail := PrintFields(fields[1..]) + rest;
      assert s[1..] == PrintField(fields[0]) + tail;
      ParsePrintFields(fields[1..], rest);
      ParsePrintField(fields[0], tail);
      assert fields == [fields[0]] + fields[1..];
    }
  }

  /** The parser undoes the printer on every document. */
  lemma RoundTrip(v: Json)
    ensures Parse(Print(v)) == Some(v)
  {
    assert Print(v) + [] == Print(v);
    ParsePrint(v, []);
  }

  // ---------------------------------------------------------------- canonical text

  lemma SortedFieldsDistinct(fields: seq<Field>)
    requires UniqueNames(fields)
    ensures DistinctKeys(SortKeysFields(fields), FieldKey)
  {
    var sorted := SortKeysFields(fields);
    forall i, j | 0 <= i < j < |sorted| ensures FieldKey(sorted[i]) != FieldKey(sorted[j]) {
      assert fields[i].name != fields[j].name;
      if FieldKey(sorted[i]) == FieldKey(sorted[j]) {
        CodePointsInjective(fields[i].name, fields[j].name);
      }
    }
  }

  predicate MatchedBy(fs: seq<Field>, g: Field) {
    exists i :: 0 <= i < |fs| && SameField(fs[i], g)
  }

  lemma SameFieldsBothWays(fs: seq<Field>, gs: seq<Field>)
    requires UniqueNames(fs) && UniqueNames(gs) && Same(Obj(fs), Obj(gs))
    ensures forall j :: 0 <= j < |gs| ==> MatchedBy(fs, gs[j])
  {
    var names := seq(|fs|, i requires 0 <= i < |fs| => fs[i].name);
    var others := seq(|gs|, j requires 0 <= j < |gs| => gs[j].name);
    forall n | n in names ensures n in others {
      var i :| 0 <= i < |names| && names[i] == n;
      assert Matched(fs[i], gs);
      var j :| 0 <= j < |gs| && SameField(fs[i], gs[j]);
      assert others[j] == n;
    }
    Pigeonhole(names, others);
    forall j | 0 <= j < |gs| ensures MatchedBy(fs, gs[j]) {
      assert others[j] in others;
      var i :| 0 <= i < |names| && names[i] == others[j];
      assert Matched(fs[i], gs);
      var k :| 0 <= k < |gs| && SameField(fs[i], gs[k]);
      assert gs[k].name == gs[j].name;
      assert k == j;
      assert SameField(fs[i], gs[j]);
    }
  }

  predicate Repeats<T(==)>(s: seq<T>) {
    exists i, j :: 0 <= i < j < |s| && s[i] == s[j]
  }

  /** A repetition-free sequence whose elements all occur in another of the same length covers it. */
  lemma {:induction false} Pigeonhole<T(!new)>(a: seq<T>, b: seq<T>)
    requires |a| == |b| && !Repeats(a) && !Repeats(b)
    requires forall x :: x in a ==> x in b
    ensures forall x :: x in b ==> x in a
  {
    var sa, sb := set x | x in a, set x | x in b;
    SetSize(a);
    SetSize(b);
    assert sa <= sb;
    if sa != sb {
      assert sa < sb;
      SubsetSize(sa, sb);
    }
    forall x | x in b ensures x in a {
      assert x in sb;
    }
  }

  lemma SubsetSize<T>(a: set<T>, b: set<T>)
    requires a < b
    ensures |a| < |b|
  {
    assert b == a + (b - a);
    assert |b| == |a| + |b - a|;
  }

  lemma {:induction false} SetSize<T>(a: seq<T>)
    requires !Repeats(a)
    ensures |set x | x in a| == |a|
  {
    if a == [] {
      assert (set x | x in a) == {};
    } else {
      var rest := a[1..];
      forall i, j | 0 <= i < j < |rest| ensures rest[i] != rest[j] {
        assert a[i + 1] != a[j + 1];
      }
      SetSize(rest);
      forall j | 0 <= j < |rest| ensures rest[j] != a[0] {
        assert a[j + 1] != a[0];
      }
      assert (set x | x in a) == {a[0]} + set x | x in rest;
    }
  }

  lemma {:induction false} SameSorts(v: Json, w: Json)
    requires WellFormed(v) && WellFormed(w) && Same(v, w)
    ensures SortKeys(v) == SortKeys(w)
    decreases v, 0
  {
    match v
    case Arr(xs) =>
      forall i | 0 <= i < |xs| ensures SortKeysItems(xs)[i] == SortKeysItems(w.items)[i] {
        SameSorts(xs[i], w.items[i]);
      }
      assert SortKeysItems(xs) == SortKeysItems(w.items);
    case Obj(fs) =>
      SameFieldsBothWays(fs, w.fields);
      forall f ensures f in SortKeysFields(fs) <==> f in SortKeysFields(w.fields) {
        if f in SortKeysFields(fs) { SameFieldSorts(fs, w.fields, f); }
        if f in SortKeysFields(w.fields) { SameFieldSortsBack(fs, w.fields, f); }
      }
      SortedFieldsDistinct(fs);
      SortedFieldsDistinct(w.fields);
      SortIgnoresStorageOrder(SortKeysFields(fs), SortKeysFields(w.fields), FieldKey);
    case _ =>
  }

  lemma {:induction false} SameFieldSorts(fs: seq<Field>, gs: seq<Field>, f: Field)
    requires WellFormed(Obj(fs)) && WellFormed(Obj(gs)) && Same(Obj(fs), Obj(gs))
    requires f in SortKeysFields(fs)
    ensures f in SortKeysFields(gs)
    decreases fs, 0
  {
    hide SortKeys;
    hide SortKeysFields;
    var i :| 0 <= i < |fs| && SortKeysFields(fs)[i] == f;
    assert Matched(fs[i], gs);
    var j :| 0 <= j < |gs| && SameField(fs[i], gs[j]);
    SameSorts(fs[i].value, gs[j].value);
    assert SortKeysFields(gs)[j] == f;
  }

  lemma {:induction false} SameFieldSortsBack(fs: seq<Field>, gs: seq<Field>, f: Field)
    requires WellFormed(Obj(fs)) && WellFormed(Obj(gs)) && Same(Obj(fs), Obj(gs))
    requires f in SortKeysFields(gs)
    ensures f in SortKeysFields(fs)
    decreases fs, 0
  {
    SameFieldsBothWays(fs, gs);
    hide Same;
    hide SortKeys;
    hide SortKeysFields;
    var j :| 0 <= j < |gs| && SortKeysFields(gs)[j] == f;
    assert MatchedBy(fs, gs[j]);
    var i :| 0 <= i < |fs| && SameField(fs[i], gs[j]);
    SameSorts(fs[i].value, gs[j].value);
    assert SortKeysFields(fs)[i] == f;
  }

  lemma {:induction false} SortsSame(v: Json, w: Json)
    requires SortKeys(v) == SortKeys(w)
    ensures Same(v, w)
    decreases v
  {
    match v
    case Arr(xs) =>
      forall i | 0 <= i < |xs| ensures Same(xs[i], w.items[i]) {
        assert SortKeysItems(xs)[i] == SortKeysItems(w.items)[i];
        SortsSame(xs[i], w.items[i]);
      }
    case Obj(fs) =>
      var gs := w.fields;
      var a, b := SortKeysFields(fs), SortKeysFields(gs);
      SortMembers(a, FieldKey);
      SortMembers(b, FieldKey);
      forall i | 0 <= i < |fs| ensures Matched(fs[i], gs) {
        assert a[i] in a;
        assert a[i] in SortBy(a, FieldKey);
        assert a[i] in b;
        var j :| 0 <= j < |b| && b[j] == a[i];
        SortsSame(fs[i].value, gs[j].value);
        assert SameField(fs[i], gs[j]);
      }
    case _ =>
  }

  /** Two documents have the same canonical text exactly when they are the same document. */
  lemma CanonicalSame(v: Json, w: Json)
    requires WellFormed(v) && WellFormed(w)
    ensures Canonical(v) == Canonical(w) <==> Same(v, w)
  {
    if Same(v, w) {
      SameSorts(v, w);
    }
    if Canonical(v) == Canonical(w) {
      RoundTrip(SortKeys(v));
      RoundTrip(SortKeys(w));
      SortsSame(v, w);
    }
  }

  /** The order in which keys were inserted never shows in the canonical text. */
  lemma CanonicalIgnoresInsertionOrder(fs: seq<Field>, gs: seq<Field>)
    requires UniqueNames(fs) && UniqueNames(gs)
    requires forall f :: f in fs <==> f in gs
    ensures Canonical(Obj(fs)) == Canonical(Obj(gs))
  {
    var a, b := SortKeysFields(fs), SortKeysFields(gs);
    forall f ensures f in a <==> f in b {
      if f in a {
        var i :| 0 <= i < |fs| && a[i] == f;
        assert fs[i] in gs;
        var j :| 0 <= j < |gs| && gs[j] == fs[i];
        assert b[j] == f;
      }
      if f in b {
        var j :| 0 <= j < |gs| && b[j] == f;
        assert gs[j] in fs;
        var i :| 0 <= i < |fs| && fs[i] == gs[j];
        assert a[i] == f;
      }
    }
    SortedFieldsDistinct(fs);
    SortedFieldsDistinct(gs);
    SortIgnoresStorageOrder(a, b, FieldKey);
  }

  lemma SameReflexive(v: Json)
    ensures Same(v, v)
  {
    SortsSame(v, v);
  }

  // ---------------------------------------------------------------- ASCII only

  /** Printable ASCII: one byte a character in UTF-8. */
  predicate Ascii(s: string) {
    forall c :: c in s ==> ' ' <= c <= '~'
  }

  lemma EscapeAscii(c: char)
    ensures Ascii(Escape(c))
  {
    hide HexDigit;
  }

  lemma {:induction false} EscapeAllAscii(s: string)
    ensures Ascii(EscapeAll(s))
  {
    hide Escape;
    if s != [] {
      EscapeAscii(s[0]);
      EscapeAllAscii(s[1..]);
    }
  }

  /** Whatever the document holds, its text is printable ASCII without a line break. */
  lemma {:induction false} PrintAscii(v: Json)
    ensures Ascii(Print(v))
    decreases v, 0
  {
    hide EscapeAll;
    hide Digits;
    match v
    case Str(s) => EscapeAllAscii(s);
    case Arr(items) => if items != [] { PrintAscii(items[0]); PrintItemsAscii(items[1..]); }
    case Obj(fields) => if fields != [] { PrintFieldAscii(fields[0]); PrintFieldsAscii(fields[1..]); }
    case _ =>
  }

  lemma {:induction false} PrintItemsAscii(items: seq<Json>)
    ensures Ascii(PrintItems(items))
    decreases items, 0
  {
    hide Print;
    if items != [] {
      PrintAscii(items[0]);
      PrintItemsAscii(items[1..]);
    }
  }

  lemma {:induction false} PrintFieldAscii(field: Field)
    ensures Ascii(PrintField(field))
    decreases field, 0
  {
    hide Print;
    hide EscapeAll;
    EscapeAllAscii(field.name);
    PrintAscii(field.value);
  }

  lemma {:induction false} PrintFieldsAscii(fields: seq<Field>)
    ensures Ascii(PrintFields(fields))
    decreases fields, 0
  {
    hide PrintField;
    if fields != [] {
      PrintFieldAscii(fields[0]);
      PrintFieldsAscii(fields[1..]);
    }
  }
}
