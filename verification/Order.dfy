/**
 * The orders the database and Python sort by. Every sort in the system is by a key that is
 * a sequence of integers compared lexicographically: the code points of a string, or an
 * instant followed by the code points of an identifier.
 */
module Order {

  type Key = seq<int>

  predicate LexLe(a: Key, b: Key) {
    if a == [] then true
    else if b == [] then false
    else a[0] < b[0] || (a[0] == b[0] && LexLe(a[1..], b[1..]))
  }

  predicate LexLess(a: Key, b: Key) {
    LexLe(a, b) && a != b
  }

  lemma {:induction false} LexTotal(a: Key, b: Key)
    ensures LexLe(a, b) || LexLe(b, a)
  {
    if a != [] && b != [] && a[0] == b[0] {
      LexTotal(a[1..], b[1..]);
    }
  }

  lemma {:induction false} LexAntisymmetric(a: Key, b: Key)
    requires LexLe(a, b) && LexLe(b, a)
    ensures a == b
  {
    if a != [] {
      LexAntisymmetric(a[1..], b[1..]);
      assert a == [a[0]] + a[1..] && b == [b[0]] + b[1..];
    }
  }

  lemma {:induction false} LexTransitive(a: Key, b: Key, c: Key)
    requires LexLe(a, b) && LexLe(b, c)
    ensures LexLe(a, c)
  {
    if a != [] && a[0] == b[0] == c[0] {
      LexTransitive(a[1..], b[1..], c[1..]);
    }
  }

  lemma LexLessTransitive(a: Key, b: Key, c: Key)
    requires LexLess(a, b) && LexLess(b, c)
    ensures LexLess(a, c)
  {
    LexTransitive(a, b, c);
    if a == c {
      LexAntisymmetric(a, b);
    }
  }

  /** The key Python's string order and a binary database collation use. */
  function CodePoints(s: string): (k: Key)
    ensures |k| == |s|
    ensures forall i :: 0 <= i < |s| ==> k[i] == s[i] as int
  {
    seq(|s|, i requires 0 <= i < |s| => s[i] as int)
  }

  lemma CodePointsInjective(s: string, t: string)
    requires CodePoints(s) == CodePoints(t)
    ensures s == t
  {
    assert |s| == |t|;
    forall i | 0 <= i < |s| ensures s[i] == t[i] {
      assert CodePoints(s)[i] == CodePoints(t)[i];
    }
  }

  function Insert<T>(x: T, s: seq<T>, key: T -> Key): seq<T> {
    if s == [] then [x]
    else if LexLe(key(x), key(s[0])) then [x] + s
    else [s[0]] + Insert(x, s[1..], key)
  }

  /** `ORDER BY key`, `sorted(..., key=key)`. */
  function SortBy<T>(s: seq<T>, key: T -> Key): seq<T> {
    if s == [] then [] else Insert(s[0], SortBy(s[1..], key), key)
  }

  predicate DistinctKeys<T>(s: seq<T>, key: T -> Key) {
    forall i, j :: 0 <= i < j < |s| ==> key(s[i]) != key(s[j])
  }

  predicate Ascending<T>(s: seq<T>, key: T -> Key) {
    forall i, j :: 0 <= i < j < |s| ==> LexLess(key(s[i]), key(s[j]))
  }

  lemma {:induction false} InsertMultiset<T(!new)>(x: T, s: seq<T>, key: T -> Key)
    ensures multiset(Insert(x, s, key)) == multiset{x} + multiset(s)
  {
    if s != [] {
      InsertMultiset(x, s[1..], key);
      assert s == [s[0]] + s[1..];
    }
  }

  lemma {:induction false} SortMultiset<T(!new)>(s: seq<T>, key: T -> Key)
    ensures multiset(SortBy(s, key)) == multiset(s)
  {
    if s != [] {
      SortMultiset(s[1..], key);
      InsertMultiset(s[0], SortBy(s[1..], key), key);
      assert s == [s[0]] + s[1..];
    }
  }

  /** Sorting keeps exactly the elements, so membership and length survive. */
  lemma SortMembers<T(!new)>(s: seq<T>, key: T -> Key)
    ensures |SortBy(s, key)| == |s|
    ensures forall x :: x in SortBy(s, key) <==> x in s
  {
    SortMultiset(s, key);
    assert |multiset(SortBy(s, key))| == |multiset(s)|;
    forall x ensures x in SortBy(s, key) <==> x in s {
      assert x in SortBy(s, key) <==> x in multiset(SortBy(s, key));
      assert x in s <==> x in multiset(s);
    }
  }

  lemma {:induction false} InsertAscending<T(!new)>(x: T, s: seq<T>, key: T -> Key)
    requires Ascending(s, key)
    requires forall y :: y in s ==> key(y) != key(x)
    ensures Ascending(Insert(x, s, key), key)
  {
    var r := Insert(x, s, key);
    if s != [] {
      if LexLe(key(x), key(s[0])) {
        forall i, j | 0 <= i < j < |r| ensures LexLess(key(r[i]), key(r[j])) {
          if i == 0 {
            assert r[j] in s;
            if j > 1 {
              LexLessTransitive(key(x), key(s[0]), key(s[j - 1]));
            }
          } else {
            assert LexLess(key(s[i - 1]), key(s[j - 1]));
          }
        }
      } else {
        var rest := s[1..];
        LexTotal(key(x), key(s[0]));
        InsertAscending(x, rest, key);
        InsertMultiset(x, rest, key);
        forall i, j | 0 <= i < j < |r| ensures LexLess(key(r[i]), key(r[j])) {
          if i == 0 {
            var y := Insert(x, rest, key)[j - 1];
            assert y in multiset(Insert(x, rest, key));
            assert y == x || y in rest;
            if y != x {
              var m :| 0 <= m < |rest| && rest[m] == y;
              assert LexLess(key(s[0]), key(s[m + 1]));
            }
          } else {
            assert LexLess(key(Insert(x, rest, key)[i - 1]), key(Insert(x, rest, key)[j - 1]));
          }
        }
      }
    }
  }

  lemma {:induction false} SortAscending<T(!new)>(s: seq<T>, key: T -> Key)
    requires DistinctKeys(s, key)
    ensures Ascending(SortBy(s, key), key)
  {
    if s != [] {
      var rest := s[1..];
      forall i, j | 0 <= i < j < |rest| ensures key(rest[i]) != key(rest[j]) {
        assert rest[i] == s[i + 1] && rest[j] == s[j + 1];
      }
      SortAscending(rest, key);
      SortMembers(rest, key);
      var sorted := SortBy(rest, key);
      forall y | y in sorted ensures key(y) != key(s[0]) {
        var k :| 0 <= k < |sorted| && sorted[k] == y;
        assert sorted[k] in rest;
        var m :| 0 <= m < |rest| && rest[m] == y;
        assert y == s[m + 1];
      }
      InsertAscending(s[0], sorted, key);
    }
  }

  lemma HasMember<T(!new)>(s: seq<T>)
    requires s != []
    ensures exists x :: x in s
  {
    assert s[0] in s;
  }

  /** An ascending sequence is determined by its set of elements. */
  lemma {:induction false} AscendingUnique<T(!new)>(a: seq<T>, b: seq<T>, key: T -> Key)
    requires Ascending(a, key) && Ascending(b, key)
    requires forall x :: x in a <==> x in b
    ensures a == b
  {
    if a == [] || b == [] {
      if a != [] { HasMember(a); assert false; }
      if b != [] { HasMember(b); assert false; }
    } else {
      assert a[0] in b && b[0] in a;
      var i :| 0 <= i < |b| && b[i] == a[0];
      var j :| 0 <= j < |a| && a[j] == b[0];
      if i > 0 && j > 0 {
        LexLessTransitive(key(b[0]), key(a[0]), key(b[0]));
        assert false;
      }
      var ra, rb := a[1..], b[1..];
      AscendingTail(a, key);
      AscendingTail(b, key);
      forall x ensures x in ra <==> x in rb {
        TailMembers(a, key, x);
        TailMembers(b, key, x);
      }
      AscendingUnique(ra, rb, key);
      assert a == [a[0]] + ra && b == [b[0]] + rb;
    }
  }

  lemma AscendingTail<T(!new)>(a: seq<T>, key: T -> Key)
    requires Ascending(a, key) && a != []
    ensures Ascending(a[1..], key)
  {
    forall i, j | 0 <= i < j < |a| - 1 ensures LexLess(key(a[1..][i]), key(a[1..][j])) {
      assert LexLess(key(a[i + 1]), key(a[j + 1]));
    }
  }

  lemma TailMembers<T(!new)>(a: seq<T>, key: T -> Key, x: T)
    requires Ascending(a, key) && a != []
    ensures x in a[1..] <==> x in a && x != a[0]
  {
    if x in a[1..] {
      var m :| 0 <= m < |a| - 1 && a[1..][m] == x;
      assert LexLess(key(a[0]), key(a[m + 1]));
    }
    if x in a && x != a[0] {
      var m :| 0 <= m < |a| && a[m] == x;
      assert a[1..][m - 1] == x;
    }
  }

  /** Sorting does not depend on the order the elements were stored in. */
  lemma SortIgnoresStorageOrder<T(!new)>(s: seq<T>, t: seq<T>, key: T -> Key)
    requires DistinctKeys(s, key) && DistinctKeys(t, key)
    requires forall x :: x in s <==> x in t
    ensures SortBy(s, key) == SortBy(t, key)
  {
    SortAscending(s, key);
    SortAscending(t, key);
    SortMembers(s, key);
    SortMembers(t, key);
    AscendingUnique(SortBy(s, key), SortBy(t, key), key);
  }

  lemma SortOfAscending<T(!new)>(s: seq<T>, key: T -> Key)
    requires Ascending(s, key)
    ensures SortBy(s, key) == s
  {
    assert DistinctKeys(s, key);
    SortAscending(s, key);
    SortMembers(s, key);
    AscendingUnique(SortBy(s, key), s, key);
  }

  /** No member stands before one with a smaller key. */
  predicate InOrder<T>(s: seq<T>, key: T -> Key) {
    forall i, j :: 0 <= i < j < |s| ==> LexLe(key(s[i]), key(s[j]))
  }

  lemma {:induction false} InsertInOrder<T(!new)>(x: T, s: seq<T>, key: T -> Key)
    requires InOrder(s, key)
    ensures InOrder(Insert(x, s, key), key)
  {
    hide LexLe;
    var r := Insert(x, s, key);
    if s != [] {
      LexTotal(key(x), key(s[0]));
      if LexLe(key(x), key(s[0])) {
        forall j | 0 < j < |r| ensures LexLe(key(x), key(r[j])) {
          if j > 1 { LexTransitive(key(x), key(s[0]), key(s[j - 1])); }
        }
      } else {
        InsertInOrder(x, s[1..], key);
        InsertMultiset(x, s[1..], key);
        var rest := Insert(x, s[1..], key);
        forall y | y in rest ensures LexLe(key(s[0]), key(y)) {
          assert y in multiset(rest);
          assert y == x || y in multiset(s[1..]);
        }
      }
    }
  }

  /** Sorting puts the members in order, whether or not keys repeat. */
  lemma {:induction false} SortInOrder<T(!new)>(s: seq<T>, key: T -> Key)
    ensures InOrder(SortBy(s, key), key)
  {
    if s != [] {
      SortInOrder(s[1..], key);
      InsertInOrder(s[0], SortBy(s[1..], key), key);
    }
  }

  lemma LexReflexive(a: Key)
    ensures LexLe(a, a)
  {
    LexTotal(a, a);
  }
}
