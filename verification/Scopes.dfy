/** Scopes in access tokens: written as one space-separated string (section 3.3 of RFC 6749),
    read back from that string or from a list. */
module Scopes {
  import opened Wrappers
  import opened Order
  import opened Json
  import opened Redaction

  /** The characters `str.split()` separates at. */
  predicate IsSpace(c: char) {
    var n := c as int;
    9 <= n <= 13 || 28 <= n <= 32 || n == 0x85 || n == 0xA0 || n == 0x1680 || 0x2000 <= n <= 0x200A
    || n == 0x2028 || n == 0x2029 || n == 0x202F || n == 0x205F || n == 0x3000
  }

  predicate Clean(w: string) {
    w != [] && forall c :: c in w ==> !IsSpace(c)
  }

  function Emit(word: string): seq<string> {
    if word == [] then [] else [word]
  }

  /** `split()` with the word read so far. */
  function SplitFrom(word: string, s: string): seq<string>
    decreases s
  {
    if s == [] then Emit(word)
    else if IsSpace(s[0]) then Emit(word) + SplitFrom([], s[1..])
    else SplitFrom(word + [s[0]], s[1..])
  }

  function Split(s: string): seq<string> {
    SplitFrom([], s)
  }

  /** `" ".join(words)` */
  function Join(words: seq<string>): string {
    if words == [] then ""
    else if |words| == 1 then words[0]
    else words[0] + " " + Join(words[1..])
  }

  /** The scope claim for a set of scopes, given in whatever order the set yields them. */
  function ScopeClaim(scopes: seq<string>): string {
    Join(SortBy(scopes, CodePoints))
  }

  function Members(words: seq<string>): set<string> {
    set w | w in words
  }

  function ListedScopes(items: seq<Json>): set<string> {
    set v | v in items && v.Str? && v.text != [] :: v.text
  }

  /** What the claims of a token grant. */
  function GrantedScopes(claims: seq<Field>): set<string> {
    (match Lookup(claims, "scope")
     case Some(Str(s)) => Members(Split(s))
     case _ => {})
    + (match Lookup(claims, "scp")
       case Some(Arr(items)) => ListedScopes(items)
       case _ => {})
  }

  lemma MembersGrow(words: seq<string>, i: nat)
    requires i < |words|
    ensures Members(words[..i + 1]) == Members(words[..i]) + {words[i]}
  {
    assert words[..i + 1] == words[..i] + [words[i]];
  }

  lemma ListedGrow(items: seq<Json>, i: nat)
    requires i < |items|
    ensures ListedScopes(items[..i + 1])
            == ListedScopes(items[..i]) + (if items[i].Str? && items[i].text != [] then {items[i].text} else {})
  {
    assert items[..i + 1] == items[..i] + [items[i]];
  }

  method CollectWords(s: string) returns (scopes: set<string>)
    ensures scopes == Members(Split(s))
  {
    hide Members;
    scopes := {};
    assert Members([]) == {} by { MembersOfNone(); }
    var words := Split(s);
    for i := 0 to |words|
      invariant scopes == Members(words[..i])
    {
      MembersGrow(words, i);
      SplitGivesClean(s, words[i]);
      if words[i] != [] {
        scopes := scopes + {words[i]};
      }
    }
    assert words[..|words|] == words;
  }

  lemma MembersOfNone()
    ensures Members([]) == {}
  {
  }

  method CollectListed(items: seq<Json>) returns (scopes: set<string>)
    ensures scopes == ListedScopes(items)
  {
    scopes := {};
    for i := 0 to |items|
      invariant scopes == ListedScopes(items[..i])
    {
      ListedGrow(items, i);
      if items[i].Str? && items[i].text != [] {
        scopes := scopes + {items[i].text};
      }
    }
    assert items[..|items|] == items;
  }

  /** `parse_scopes` */
  method ParseScopes(claims: seq<Field>) returns (scopes: set<string>)
    ensures scopes == GrantedScopes(claims)
  {
    hide ListedScopes;
    hide Split;
    hide Members;
    scopes := {};
    match Lookup(claims, "scope") {
      case Some(Str(s)) => scopes := CollectWords(s);
      case _ =>
    }
    match Lookup(claims, "scp") {
      case Some(Arr(items)) =>
        var listed := CollectListed(items);
        scopes := scopes + listed;
      case _ =>
    }
  }

  /** `require_scopes`: what is missing, if anything. */
  function MissingScopes(granted: set<string>, required: set<string>): set<string> {
    required - granted
  }

  // ---------------------------------------------------------------- splitting

  lemma {:induction false} SplitWordsAreClean(word: string, s: string)
    requires forall c :: c in word ==> !IsSpace(c)
    ensures forall w :: w in SplitFrom(word, s) ==> Clean(w)
    decreases s
  {
    if s != [] {
      if IsSpace(s[0]) {
        SplitWordsAreClean([], s[1..]);
      } else {
        SplitWordsAreClean(word + [s[0]], s[1..]);
      }
    }
  }

  /** A separator splits a text in two. */
  lemma {:induction false} SplitAtSpace(word: string, a: string, c: char, b: string)
    requires IsSpace(c)
    ensures SplitFrom(word, a + [c] + b) == SplitFrom(word, a) + Split(b)
    decreases a
  {
    var s := a + [c] + b;
    if a == [] {
      assert s[1..] == b;
    } else {
      assert s[0] == a[0] && s[1..] == a[1..] + [c] + b;
      if IsSpace(a[0]) {
        SplitAtSpace([], a[1..], c, b);
      } else {
        SplitAtSpace(word + [a[0]], a[1..], c, b);
      }
    }
  }

  lemma {:induction false} SplitClean(word: string, s: string)
    requires forall c :: c in s ==> !IsSpace(c)
    ensures SplitFrom(word, s) == Emit(word + s)
    decreases s
  {
    if s == [] {
      assert word + s == word;
    } else {
      SplitClean(word + [s[0]], s[1..]);
      assert word + [s[0]] + s[1..] == word + s;
    }
  }

  /** A stretch of `s` with no separator in it and a separator or an end on both sides. */
  predicate WordAt(s: string, i: nat, j: nat) {
    && i < j <= |s| && Clean(s[i..j])
    && (i == 0 || IsSpace(s[i - 1]))
    && (j == |s| || IsSpace(s[j]))
  }

  ghost predicate IsWord(s: string, w: string) {
    exists i: nat, j: nat :: WordAt(s, i, j) && s[i..j] == w
  }

  lemma SpaceInside(s: string, i: nat, j: nat, k: nat)
    requires i <= k < j <= |s| && IsSpace(s[k])
    ensures !Clean(s[i..j])
  {
    assert s[i..j][k - i] == s[k];
  }

  lemma WordAtShifts(a: string, c: char, b: string, i: nat, j: nat)
    requires IsSpace(c) && WordAt(a + [c] + b, i, j)
    ensures if j <= |a| then WordAt(a, i, j) && a[i..j] == (a + [c] + b)[i..j]
            else i > |a| && WordAt(b, i - |a| - 1, j - |a| - 1) && b[i - |a| - 1..j - |a| - 1] == (a + [c] + b)[i..j]
  {
    var s := a + [c] + b;
    assert s[|a|] == c;
    if j <= |a| {
      assert a[i..j] == s[i..j];
    } else {
      assert i > |a| by {
        if i <= |a| { SpaceInside(s, i, j, |a|); }
      }
      assert b[i - |a| - 1..j - |a| - 1] == s[i..j];
    }
  }

  lemma WordAtExtends(a: string, c: char, b: string, i: nat, j: nat)
    requires IsSpace(c)
    ensures WordAt(a, i, j) ==> WordAt(a + [c] + b, i, j) && a[i..j] == (a + [c] + b)[i..j]
    ensures WordAt(b, i, j) ==>
      WordAt(a + [c] + b, i + |a| + 1, j + |a| + 1) && b[i..j] == (a + [c] + b)[i + |a| + 1..j + |a| + 1]
  {
    var s := a + [c] + b;
    if WordAt(a, i, j) { assert a[i..j] == s[i..j]; }
    if WordAt(b, i, j) { assert b[i..j] == s[i + |a| + 1..j + |a| + 1]; }
  }

  lemma WordsAcrossSpace(a: string, c: char, b: string, w: string)
    requires IsSpace(c)
    ensures IsWord(a + [c] + b, w) <==> IsWord(a, w) || IsWord(b, w)
  {
    var s := a + [c] + b;
    if IsWord(s, w) {
      var i: nat, j: nat :| WordAt(s, i, j) && s[i..j] == w;
      WordAtShifts(a, c, b, i, j);
    }
    if IsWord(a, w) {
      var i: nat, j: nat :| WordAt(a, i, j) && a[i..j] == w;
      WordAtExtends(a, c, b, i, j);
    }
    if IsWord(b, w) {
      var i: nat, j: nat :| WordAt(b, i, j) && b[i..j] == w;
      WordAtExtends(a, c, b, i, j);
    }
  }

  /** Splitting yields exactly the maximal separator-free stretches. */
  lemma {:induction false} SplitExact(s: string, w: string)
    ensures w in Split(s) <==> IsWord(s, w)
    decreases |s|
  {
    hide WordAt;
    if k :| 0 <= k < |s| && IsSpace(s[k]) {
      var a, b := s[..k], s[k + 1..];
      assert s == a + [s[k]] + b;
      SplitAtSpace([], a, s[k], b);
      WordsAcrossSpace(a, s[k], b, w);
      SplitExact(a, w);
      SplitExact(b, w);
    } else {
      SplitClean([], s);
      assert [] + s == s;
      OneWord(s, w);
    }
  }

  lemma OneWord(s: string, w: string)
    requires forall c :: c in s ==> !IsSpace(c)
    ensures IsWord(s, w) <==> w == s && s != []
  {
    if IsWord(s, w) {
      var i: nat, j: nat :| WordAt(s, i, j) && s[i..j] == w;
      assert i == 0 && j == |s|;
      assert s[0..|s|] == s;
    }
    if s != [] {
      assert s[0..|s|] == s;
      assert WordAt(s, 0, |s|);
    }
  }

  // ---------------------------------------------------------------- the round trip

  lemma {:induction false} SplitOfJoin(words: seq<string>, w: string)
    ensures w in Split(Join(words)) <==> exists k :: 0 <= k < |words| && w in Split(words[k])
  {
    if |words| > 1 {
      var rest := words[1..];
      assert " " == [' '];
      SplitAtSpace([], words[0], ' ', Join(rest));
      SplitOfJoin(rest, w);
      assert Split(Join(words)) == Split(words[0]) + Split(Join(rest));
      if k :| 0 <= k < |words| && w in Split(words[k]) {
        if k > 0 { assert rest[k - 1] == words[k]; }
      }
      if k :| 0 <= k < |rest| && w in Split(rest[k]) { assert words[k + 1] == rest[k]; }
    } else if |words| == 1 {
      assert Join(words) == words[0];
    }
  }

  /** What any token grants: the words of its scope claim, if that is a string, and the non-empty
      strings of its scp claim, if that is a list. */
  lemma GrantedExactly(claims: seq<Field>, w: string)
    ensures var scope, scp := Lookup(claims, "scope"), Lookup(claims, "scp");
      w in GrantedScopes(claims) <==>
        || (scope.Some? && scope.value.Str? && IsWord(scope.value.text, w))
        || (scp.Some? && scp.value.Arr? && w != [] && Str(w) in scp.value.items)
  {
    hide Lookup;
    hide Split;
    hide IsWord;
    var scope := Lookup(claims, "scope");
    if scope.Some? && scope.value.Str? { SplitExact(scope.value.text, w); }
  }

  /** A check for scopes passes exactly when the token grants each of them, and otherwise names
      exactly the ones it does not. */
  lemma MissingExactly(claims: seq<Field>, required: set<string>, w: string)
    ensures w in MissingScopes(GrantedScopes(claims), required) <==> w in required && w !in GrantedScopes(claims)
  {
    hide GrantedScopes;
  }

  /** The claims `issue_development_token` writes carry the scopes as text and no list. */
  predicate CarriesScopes(claims: seq<Field>, scopes: seq<string>) {
    Lookup(claims, "scope") == Some(Str(ScopeClaim(scopes))) && Lookup(claims, "scp") == None
  }

  /** Reading back what was written gives the same set of scopes exactly when every scope is
      non-empty and free of white space; the order the set yields its members in is irrelevant. */
  lemma ScopeRoundTrip(claims: seq<Field>, scopes: seq<string>)
    requires CarriesScopes(claims, scopes)
    ensures GrantedScopes(claims) == Members(scopes) <==> forall w :: w in scopes ==> Clean(w)
  {
    hide Split;
    hide Join;
    hide Clean;
    hide Lookup;
    var sorted := SortBy(scopes, CodePoints);
    SortMembers(scopes, CodePoints);
    assert GrantedScopes(claims) == Members(Split(Join(sorted)));
    if forall w :: w in scopes ==> Clean(w) {
      forall w ensures w in Split(Join(sorted)) <==> w in scopes {
        SplitOfJoin(sorted, w);
        forall k | 0 <= k < |sorted| ensures Split(sorted[k]) == [sorted[k]] { SplitOfClean(sorted[k]); }
      }
    }
    if GrantedScopes(claims) == Members(scopes) {
      forall w | w in scopes ensures Clean(w) {
        assert w in Members(scopes);
        SplitGivesClean(Join(sorted), w);
      }
    }
  }

  lemma SplitOfClean(w: string)
    requires Clean(w)
    ensures Split(w) == [w]
  {
    SplitClean([], w);
    assert [] + w == w;
  }

  lemma SplitGivesClean(s: string, w: string)
    requires w in Split(s)
    ensures Clean(w)
  {
    SplitWordsAreClean([], s);
  }

  /** A development token issued for clean scopes passes exactly the checks that ask for no other. */
  lemma IssuedTokenGrants(claims: seq<Field>, scopes: seq<string>, required: set<string>)
    requires CarriesScopes(claims, scopes) && forall w :: w in scopes ==> Clean(w)
    ensures MissingScopes(GrantedScopes(claims), required) == {} <==> forall r :: r in required ==> r in scopes
  {
    hide GrantedScopes;
    ScopeRoundTrip(claims, scopes);
    var granted := GrantedScopes(claims);
    assert forall r :: r in scopes <==> r in granted;
    assert forall r :: r in required && r !in granted ==> r in MissingScopes(granted, required);
  }
}
