/** Request parameters as an audit row keeps them: identifiers and field names, never values. */
module Redaction {
  import opened Wrappers
  import opened Order
  import opened Json

  function Lookup(fields: seq<Field>, name: string): (r: Option<Json>)
    ensures r.None? <==> forall f :: f in fields ==> f.name != name
    ensures r.Some? ==> Field(name, r.value) in fields
  {
    if fields == [] then None
    else if fields[0].name == name then Some(fields[0].value)
    else
      assert fields == [fields[0]] + fields[1..];
      Lookup(fields[1..], name)
  }

  lemma {:induction false} LookupAt(fields: seq<Field>, i: nat)
    requires i < |fields| && forall j :: 0 <= j < i ==> fields[j].name != fields[i].name
    ensures Lookup(fields, fields[i].name) == Some(fields[i].value)
  {
    if i > 0 {
      LookupAt(fields[1..], i - 1);
    }
  }

  function Names(fields: seq<Field>): (names: seq<string>)
    ensures |names| == |fields|
    ensures forall i :: 0 <= i < |fields| ==> names[i] == fields[i].name
  {
    seq(|fields|, i requires 0 <= i < |fields| => fields[i].name)
  }

  function Strings(names: seq<string>): Json {
    Arr(seq(|names|, i requires 0 <= i < |names| => Str(names[i])))
  }

  function SortedNames(names: seq<string>): seq<string> {
    SortBy(names, CodePoints)
  }

  function UnknownNames(names: seq<string>): (r: seq<string>)
    ensures forall n :: n in r <==> n in names && n != "customer_id" && n != "changes"
  {
    if names == [] then []
    else
      var rest := UnknownNames(names[1..]);
      assert names == [names[0]] + names[1..];
      if names[0] == "customer_id" || names[0] == "changes" then rest else [names[0]] + rest
  }

  function SanitizedCustomer(parameters: seq<Field>): (r: seq<Field>)
    ensures r != [] ==> |r| == 1 && r[0].name == "customer_id" && r[0].value.Str?
  {
    match Lookup(parameters, "customer_id")
    case Some(Str(id)) => [Field("customer_id", Str(id))]
    case _ => []
  }

  function SanitizedChanges(parameters: seq<Field>): (r: seq<Field>)
    ensures r != [] ==> |r| == 2 && r[0].name == "change_fields" && r[1] == Field("changes", Str("[REDACTED]"))
    ensures r != [] ==> WellFormed(r[0].value)
  {
    match Lookup(parameters, "changes")
    case None => []
    case Some(changes) =>
      [ Field("change_fields",
              if changes.Obj? then Strings(SortedNames(Names(changes.fields))) else Str("[INVALID]")),
        Field("changes", Str("[REDACTED]")) ]
  }

  function SanitizedUnknown(parameters: seq<Field>): (r: seq<Field>)
    ensures r != [] ==> |r| == 1 && r[0].name == "ignored_parameter_names" && WellFormed(r[0].value)
  {
    var unknown := SortedNames(UnknownNames(Names(parameters)));
    if unknown == [] then [] else [Field("ignored_parameter_names", Strings(unknown))]
  }

  /** `sanitize_parameters` */
  function Sanitize(parameters: seq<Field>): Json {
    Obj(SanitizedCustomer(parameters) + SanitizedChanges(parameters) + SanitizedUnknown(parameters))
  }

  // ---------------------------------------------------------------- what a row reveals

  /** The customer a request names, if it names one by a string. */
  function VisibleCustomer(parameters: seq<Field>): Option<string> {
    match Lookup(parameters, "customer_id")
    case Some(Str(id)) => Some(id)
    case _ => None
  }

  datatype ChangesView = NoChanges | Malformed | Changed(names: set<string>)

  /** The shape of the requested changes: which fields, not what they become. */
  function VisibleChanges(parameters: seq<Field>): ChangesView {
    match Lookup(parameters, "changes")
    case None => NoChanges
    case Some(Obj(fields)) => Changed(set n | n in Names(fields))
    case Some(_) => Malformed
  }

  function VisibleUnknown(parameters: seq<Field>): set<string> {
    set n | n in Names(parameters) && n != "customer_id" && n != "changes"
  }

  predicate Indistinguishable(p: seq<Field>, q: seq<Field>) {
    && VisibleCustomer(p) == VisibleCustomer(q)
    && VisibleChanges(p) == VisibleChanges(q)
    && VisibleUnknown(p) == VisibleUnknown(q)
  }

  lemma NamesDistinct(fields: seq<Field>)
    requires UniqueNames(fields)
    ensures DistinctKeys(Names(fields), CodePoints)
  {
    forall i, j | 0 <= i < j < |fields| ensures CodePoints(fields[i].name) != CodePoints(fields[j].name) {
      assert fields[i].name != fields[j].name;
      if CodePoints(fields[i].name) == CodePoints(fields[j].name) {
        CodePointsInjective(fields[i].name, fields[j].name);
      }
    }
  }

  lemma {:induction false} UnknownDistinct(names: seq<string>)
    requires DistinctKeys(names, CodePoints)
    ensures DistinctKeys(UnknownNames(names), CodePoints)
  {
    if names != [] {
      var rest := names[1..];
      forall i, j | 0 <= i < j < |rest| ensures CodePoints(rest[i]) != CodePoints(rest[j]) {
        assert CodePoints(names[i + 1]) != CodePoints(names[j + 1]);
      }
      UnknownDistinct(rest);
      var r := UnknownNames(names);
      forall i, j | 0 <= i < j < |r| ensures CodePoints(r[i]) != CodePoints(r[j]) {
        if |r| > |UnknownNames(rest)| {
          assert r[j] == UnknownNames(rest)[j - 1];
          if i == 0 {
            assert r[j] in rest;
            var k :| 0 <= k < |rest| && rest[k] == r[j];
            assert CodePoints(names[0]) != CodePoints(names[k + 1]);
          } else {
            assert r[i] == UnknownNames(rest)[i - 1];
          }
        }
      }
    }
  }

  /** Sorted name lists are equal exactly when they list the same names. */
  lemma SortedNamesEqual(a: seq<string>, b: seq<string>)
    requires DistinctKeys(a, CodePoints) && DistinctKeys(b, CodePoints)
    ensures Strings(SortedNames(a)) == Strings(SortedNames(b)) <==> (set n | n in a) == (set n | n in b)
  {
    var sa, sb := SortedNames(a), SortedNames(b);
    SortMembers(a, CodePoints);
    SortMembers(b, CodePoints);
    if Strings(sa) == Strings(sb) {
      assert |Strings(sa).items| == |Strings(sb).items|;
      assert sa == sb by {
        forall i | 0 <= i < |sa| ensures sa[i] == sb[i] {
          assert Strings(sa).items[i] == Strings(sb).items[i];
        }
      }
      forall n ensures n in a <==> n in b {
        assert n in a <==> n in sa;
        assert n in b <==> n in sb;
      }
    }
    var namesA, namesB := set n | n in a, set n | n in b;
    if namesA == namesB {
      forall n ensures n in a <==> n in b {
        assert n in a <==> n in namesA;
        assert n in b <==> n in namesB;
      }
      SortIgnoresStorageOrder(a, b, CodePoints);
    }
  }

  lemma CustomerVisible(p: seq<Field>, q: seq<Field>)
    ensures SanitizedCustomer(p) == SanitizedCustomer(q) <==> VisibleCustomer(p) == VisibleCustomer(q)
  {
    if SanitizedCustomer(p) == SanitizedCustomer(q) && SanitizedCustomer(p) != [] {
      assert SanitizedCustomer(p)[0] == SanitizedCustomer(q)[0];
    }
  }

  lemma ChangesVisible(p: seq<Field>, q: seq<Field>)
    requires WellFormed(Obj(p)) && WellFormed(Obj(q))
    ensures SanitizedChanges(p) == SanitizedChanges(q) <==> VisibleChanges(p) == VisibleChanges(q)
  {
    var cp, cq := Lookup(p, "changes"), Lookup(q, "changes");
    if cp.Some? && cq.Some? {
      assert SanitizedChanges(p) == SanitizedChanges(q) <==>
             SanitizedChanges(p)[0].value == SanitizedChanges(q)[0].value;
      if cp.value.Obj? && cq.value.Obj? {
        ValueWellFormed(p, "changes");
        ValueWellFormed(q, "changes");
        NamesDistinct(cp.value.fields);
        NamesDistinct(cq.value.fields);
        SortedNamesEqual(Names(cp.value.fields), Names(cq.value.fields));
      }
    }
  }

  lemma ValueWellFormed(p: seq<Field>, name: string)
    requires WellFormed(Obj(p)) && Lookup(p, name).Some?
    ensures WellFormed(Lookup(p, name).value)
  {
    var i :| 0 <= i < |p| && p[i] == Field(name, Lookup(p, name).value);
    assert WellFormed(p[i].value);
  }

  lemma UnknownVisible(p: seq<Field>, q: seq<Field>)
    requires UniqueNames(p) && UniqueNames(q)
    ensures SanitizedUnknown(p) == SanitizedUnknown(q) <==> VisibleUnknown(p) == VisibleUnknown(q)
  {
    var up, uq := UnknownNames(Names(p)), UnknownNames(Names(q));
    NamesDistinct(p);
    NamesDistinct(q);
    UnknownDistinct(Names(p));
    UnknownDistinct(Names(q));
    SortedNamesEqual(up, uq);
    SortMembers(up, CodePoints);
    SortMembers(uq, CodePoints);
    assert VisibleUnknown(p) == set n | n in up;
    assert VisibleUnknown(q) == set n | n in uq;
    var sp, sq := SanitizedUnknown(p), SanitizedUnknown(q);
    if sp == sq && sp != [] {
      assert sp[0].value == sq[0].value;
    }
    if sp != [] && sq == [] {
      assert up[0] in VisibleUnknown(p) && VisibleUnknown(q) == {};
    }
    if sq != [] && sp == [] {
      assert uq[0] in VisibleUnknown(q) && VisibleUnknown(p) == {};
    }
  }

  /** The three parts cannot be mistaken for one another: their names differ. */
  lemma PartsSeparate(p: seq<Field>, q: seq<Field>)
    ensures Sanitize(p) == Sanitize(q) <==>
      && SanitizedCustomer(p) == SanitizedCustomer(q)
      && SanitizedChanges(p) == SanitizedChanges(q)
      && SanitizedUnknown(p) == SanitizedUnknown(q)
  {
    hide SanitizedCustomer;
    hide SanitizedChanges;
    hide SanitizedUnknown;
    var a, b, c := SanitizedCustomer(p), SanitizedChanges(p), SanitizedUnknown(p);
    var x, y, z := SanitizedCustomer(q), SanitizedChanges(q), SanitizedUnknown(q);
    assert "customer_id" != "change_fields" && "customer_id" != "ignored_parameter_names";
    assert "change_fields" != "ignored_parameter_names";
    if Sanitize(p) == Sanitize(q) {
      var s := a + b + c;
      assert s == x + y + z;
      assert |a| == |x| by {
        assert a != [] ==> s[0] == a[0];
        assert x != [] ==> s[0] == x[0];
        assert a == [] && b != [] ==> s[0] == b[0];
        assert x == [] && y != [] ==> s[0] == y[0];
        assert a == [] && b == [] && c != [] ==> s[0] == c[0];
        assert x == [] && y == [] && z != [] ==> s[0] == z[0];
      }
      assert a == s[..|a|] == x;
      var t := s[|a|..];
      assert t == b + c == y + z;
      assert |b| == |y| by {
        assert b != [] ==> t[0] == b[0];
        assert y != [] ==> t[0] == y[0];
        assert b == [] && c != [] ==> t[0] == c[0];
        assert y == [] && z != [] ==> t[0] == z[0];
      }
      assert b == t[..|b|] == y;
      assert c == t[|b|..] == z;
    }
  }

  /** Redaction keeps the customer named, the fields changed and the names ignored, and
      nothing more: two requests leave the same record exactly when they agree on those. */
  lemma RedactionIsExact(p: seq<Field>, q: seq<Field>)
    requires WellFormed(Obj(p)) && WellFormed(Obj(q))
    ensures Sanitize(p) == Sanitize(q) <==> Indistinguishable(p, q)
  {
    CustomerVisible(p, q);
    ChangesVisible(p, q);
    UnknownVisible(p, q);
    PartsSeparate(p, q);
  }

  /** What is stored is itself a document with unique names. */
  lemma SanitizedWellFormed(p: seq<Field>)
    ensures WellFormed(Sanitize(p))
  {
    hide SanitizedCustomer;
    hide SanitizedChanges;
    hide SanitizedUnknown;
    var fs := Sanitize(p).fields;
    assert "customer_id" != "change_fields" && "customer_id" != "ignored_parameter_names" && "customer_id" != "changes";
    assert "change_fields" != "ignored_parameter_names" && "changes" != "ignored_parameter_names";
    assert "change_fields" != "changes";
    var a, b, c := SanitizedCustomer(p), SanitizedChanges(p), SanitizedUnknown(p);
    assert fs == a + b + c;
    forall i | 0 <= i < |fs| ensures WellFormed(fs[i].value) {
      assert fs[i] in a || fs[i] in b || fs[i] in c;
    }
  }

  // ---------------------------------------------------------------- what is stored

  /** The strings of a list, in ascending order and without repetition, are exactly `names`. */
  ghost predicate ListsNames(v: Json, names: seq<string>) {
    && v.Arr?
    && (forall i :: 0 <= i < |v.items| ==> v.items[i].Str? && v.items[i].text in names)
    && (forall n :: n in names ==> Str(n) in v.items)
    && (forall i, j :: 0 <= i < j < |v.items| && v.items[i].Str? && v.items[j].Str? ==>
          LexLess(CodePoints(v.items[i].text), CodePoints(v.items[j].text)))
  }

  lemma SortedNamesList(names: seq<string>)
    requires DistinctKeys(names, CodePoints)
    ensures ListsNames(Strings(SortedNames(names)), names)
  {
    hide LexLe;
    SortMembers(names, CodePoints);
    SortAscending(names, CodePoints);
    var sorted := SortedNames(names);
    var v := Strings(sorted);
    forall i | 0 <= i < |v.items| ensures v.items[i].text in names { assert sorted[i] in sorted; }
    forall n | n in names ensures Str(n) in v.items {
      assert n in sorted;
      var i :| 0 <= i < |sorted| && sorted[i] == n;
      assert v.items[i] == Str(n);
    }
  }

  /** The stored object, key by key: the customer's id if it was a string, the sorted names of the
      fields to change in place of their values, and the sorted names of all other parameters. */
  lemma SanitizeShows(p: seq<Field>)
    requires WellFormed(Obj(p))
    ensures Sanitize(p).Obj?
    ensures var r, changes := Sanitize(p).fields, Lookup(p, "changes");
      && (forall f :: f in r ==> f.name == "customer_id" || f.name == "change_fields" || f.name == "changes"
                                 || f.name == "ignored_parameter_names")
      && Lookup(r, "customer_id")
         == (match Lookup(p, "customer_id") case Some(Str(id)) => Some(Str(id)) case _ => None)
      && Lookup(r, "changes") == (if changes.Some? then Some(Str("[REDACTED]")) else None)
      && (Lookup(r, "change_fields").Some? <==> changes.Some?)
      && (changes.Some? && changes.value.Obj? ==>
            ListsNames(Lookup(r, "change_fields").value, Names(changes.value.fields)))
      && (changes.Some? && !changes.value.Obj? ==> Lookup(r, "change_fields") == Some(Str("[INVALID]")))
      && (Lookup(r, "ignored_parameter_names").Some? <==> UnknownNames(Names(p)) != [])
      && (Lookup(r, "ignored_parameter_names").Some? ==>
            ListsNames(Lookup(r, "ignored_parameter_names").value, UnknownNames(Names(p))))
  {
    hide SanitizedCustomer;
    hide SanitizedChanges;
    hide SanitizedUnknown;
    hide ListsNames;
    hide WellFormed;
    CustomerPart(p);
    ChangesPart(p);
    UnknownPart(p);
    var a, b, c := SanitizedCustomer(p), SanitizedChanges(p), SanitizedUnknown(p);
    LookupConcat(a + b, c, "customer_id");
    LookupConcat(a, b, "customer_id");
    LookupConcat(a + b, c, "changes");
    LookupConcat(a, b, "changes");
    LookupConcat(a + b, c, "change_fields");
    LookupConcat(a, b, "change_fields");
    LookupConcat(a + b, c, "ignored_parameter_names");
    LookupConcat(a, b, "ignored_parameter_names");
  }

  lemma {:induction false} LookupConcat(a: seq<Field>, b: seq<Field>, name: string)
    ensures Lookup(a + b, name) == if Lookup(a, name).Some? then Lookup(a, name) else Lookup(b, name)
  {
    if a == [] {
      assert a + b == b;
    } else {
      assert (a + b)[1..] == a[1..] + b;
      LookupConcat(a[1..], b, name);
    }
  }

  predicate OnlyNamed(fields: seq<Field>, one: string, other: string) {
    forall f :: f in fields ==> f.name == one || f.name == other
  }

  lemma OnlyNamedMisses(fields: seq<Field>, one: string, other: string, name: string)
    requires OnlyNamed(fields, one, other) && name != one && name != other
    ensures Lookup(fields, name) == None
  {
  }

  lemma KeysDiffer()
    ensures "customer_id" != "changes" && "customer_id" != "change_fields" && "customer_id" != "ignored_parameter_names"
    ensures "changes" != "change_fields" && "changes" != "ignored_parameter_names"
    ensures "change_fields" != "ignored_parameter_names"
  {
    assert |"customer_id"| == 11 && |"changes"| == 7 && |"change_fields"| == 13 && |"ignored_parameter_names"| == 23;
  }

  lemma CustomerPart(p: seq<Field>)
    ensures var r := SanitizedCustomer(p);
      && OnlyNamed(r, "customer_id", "customer_id")
      && Lookup(r, "customer_id")
         == (match Lookup(p, "customer_id") case Some(Str(id)) => Some(Str(id)) case _ => None)
      && Lookup(r, "changes") == Lookup(r, "change_fields") == Lookup(r, "ignored_parameter_names") == None
  {
    KeysDiffer();
    var r := SanitizedCustomer(p);
    assert OnlyNamed(r, "customer_id", "customer_id");
    OnlyNamedMisses(r, "customer_id", "customer_id", "changes");
    OnlyNamedMisses(r, "customer_id", "customer_id", "change_fields");
    OnlyNamedMisses(r, "customer_id", "customer_id", "ignored_parameter_names");
  }

  lemma ChangesPart(p: seq<Field>)
    requires WellFormed(Obj(p))
    ensures var r, changes := SanitizedChanges(p), Lookup(p, "changes");
      && OnlyNamed(r, "change_fields", "changes")
      && Lookup(r, "changes") == (if changes.Some? then Some(Str("[REDACTED]")) else None)
      && (Lookup(r, "change_fields").Some? <==> changes.Some?)
      && (changes.Some? && changes.value.Obj? ==>
            ListsNames(Lookup(r, "change_fields").value, Names(changes.value.fields)))
      && (changes.Some? && !changes.value.Obj? ==> Lookup(r, "change_fields") == Some(Str("[INVALID]")))
      && Lookup(r, "customer_id") == Lookup(r, "ignored_parameter_names") == None
  {
    hide ListsNames;
    hide WellFormed;
    KeysDiffer();
    var r, changes := SanitizedChanges(p), Lookup(p, "changes");
    assert OnlyNamed(r, "change_fields", "changes");
    OnlyNamedMisses(r, "change_fields", "changes", "customer_id");
    OnlyNamedMisses(r, "change_fields", "changes", "ignored_parameter_names");
    if changes.Some? {
      LookupAt(r, 0);
      LookupAt(r, 1);
      if changes.value.Obj? {
        ValueWellFormed(p, "changes");
        ObjectNames(changes.value.fields);
        SortedNamesList(Names(changes.value.fields));
      }
    }
  }

  lemma ObjectNames(fields: seq<Field>)
    requires WellFormed(Obj(fields))
    ensures DistinctKeys(Names(fields), CodePoints)
  {
    NamesDistinct(fields);
  }

  lemma UnknownPart(p: seq<Field>)
    requires WellFormed(Obj(p))
    ensures var r := SanitizedUnknown(p);
      && OnlyNamed(r, "ignored_parameter_names", "ignored_parameter_names")
      && (Lookup(r, "ignored_parameter_names").Some? <==> UnknownNames(Names(p)) != [])
      && (Lookup(r, "ignored_parameter_names").Some? ==>
            ListsNames(Lookup(r, "ignored_parameter_names").value, UnknownNames(Names(p))))
      && Lookup(r, "customer_id") == Lookup(r, "changes") == Lookup(r, "change_fields") == None
  {
    hide ListsNames;
    KeysDiffer();
    var r := SanitizedUnknown(p);
    OnlyNamedMisses(r, "ignored_parameter_names", "ignored_parameter_names", "customer_id");
    OnlyNamedMisses(r, "ignored_parameter_names", "ignored_parameter_names", "changes");
    OnlyNamedMisses(r, "ignored_parameter_names", "ignored_parameter_names", "change_fields");
    ObjectNames(p);
    UnknownDistinct(Names(p));
    SortedNamesList(UnknownNames(Names(p)));
    SortMembers(UnknownNames(Names(p)), CodePoints);
  }
}
