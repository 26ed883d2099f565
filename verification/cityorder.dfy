/**
 * The order zipcode sorts its list by: the `alphabet` comparator, which
 * compares cities with std::string's `<`, and the stable sort
 * std::forward_list::sort performs with it.
 */
module CityOrder {

  import opened Zipfed

  /** std::string's `<`: lexicographic on character codes, a proper prefix first. */
  predicate LexLess(a: string, b: string): (r: bool)
    ensures r ==> a != b && b != []
    ensures a < b ==> r
  {
    if b == [] then false
    else if a == [] then true
    else if a[0] != b[0] then a[0] < b[0]
    else LexLess(a[1..], b[1..])
  }

  lemma {:induction false} LexLessIrreflexive(a: string)
    ensures !LexLess(a, a)
  {
    if a != [] {
      LexLessIrreflexive(a[1..]);
    }
  }

  lemma {:induction false} LexLessAsymmetric(a: string, b: string)
    ensures !(LexLess(a, b) && LexLess(b, a))
  {
    if a != [] && b != [] && a[0] == b[0] {
      LexLessAsymmetric(a[1..], b[1..]);
    }
  }

  lemma {:induction false} LexLessTransitive(a: string, b: string, c: string)
    requires LexLess(a, b) && LexLess(b, c)
    ensures LexLess(a, c)
  {
    if a != [] && a[0] == b[0] && b[0] == c[0] {
      LexLessTransitive(a[1..], b[1..], c[1..]);
    }
  }

  /** Two different strings are always ordered one way or the other. */
  lemma {:induction false} LexLessTotal(a: string, b: string)
    ensures a == b || LexLess(a, b) || LexLess(b, a)
  {
    if a != [] && b != [] && a[0] == b[0] {
      LexLessTotal(a[1..], b[1..]);
      if a[1..] == b[1..] {
        assert a == [a[0]] + a[1..] && b == [b[0]] + b[1..];
      }
    }
  }

  /** "Not after" is transitive as well. */
  lemma LexLeqTransitive(a: string, b: string, c: string)
    requires !LexLess(b, a) && !LexLess(c, b)
    ensures !LexLess(c, a)
  {
    LexLessTotal(a, b);
    LexLessTotal(b, c);
    if LexLess(c, a) {
      if a != b && b != c {
        LexLessTransitive(c, a, b);
      }
    }
  }

  /** The comparator handed to sort: the first record's city comes strictly before the second's. */
  predicate Alphabet(x: Record, y: Record): (before: bool)
    ensures before ==> x.city != y.city && !LexLess(y.city, x.city)
  {
    LexLessAsymmetric(x.city, y.city);
    LexLess(x.city, y.city)
  }

  /** No record's city comes strictly before the city of a record ahead of it. */
  predicate SortedByCity(s: seq<Record>)
  {
    forall i, j :: 0 <= i < j < |s| ==> !Alphabet(s[j], s[i])
  }

  /** Inserts `r` in front of the first record whose city does not come before its own. */
  function Insert(r: Record, s: seq<Record>): (t: seq<Record>)
    ensures multiset(t) == multiset(s) + multiset{r}
  {
    if s == [] then [r]
    else if Alphabet(s[0], r) then
      assert s == [s[0]] + s[1..];
      [s[0]] + Insert(r, s[1..])
    else [r] + s
  }

  /**
   * The list after sort(alphabet): sorted by city, a permutation of the
   * input, and stable (records of equal cities keep their order; see
   * the query lemmas in module Zipcode).
   */
  function SortByCity(s: seq<Record>): (t: seq<Record>)
    ensures multiset(t) == multiset(s)
    ensures SortedByCity(t)
  {
    if s == [] then []
    else
      var t := SortByCity(s[1..]);
      InsertSorted(s[0], t);
      assert s == [s[0]] + s[1..];
      Insert(s[0], t)
  }

  lemma {:induction false} InsertSorted(r: Record, s: seq<Record>)
    requires SortedByCity(s)
    ensures SortedByCity(Insert(r, s))
  {
    if s != [] {
      if Alphabet(s[0], r) {
        InsertSorted(r, s[1..]);
        InsertPast(r, s);
      } else {
        InsertInFront(r, s);
      }
    }
  }

  /** `r` stops in front of a sorted list whose first city does not come before its own. */
  lemma InsertInFront(r: Record, s: seq<Record>)
    requires SortedByCity(s) && s != [] && !Alphabet(s[0], r)
    ensures SortedByCity([r] + s)
  {
    forall j | 0 < j < |[r] + s|
      ensures !Alphabet(([r] + s)[j], r)
    {
      if j > 1 {
        LexLeqTransitive(r.city, s[0].city, s[j - 1].city);
      }
    }
  }

  /** `r` moves past `s[0]`, whose city comes before its own, into the sorted rest. */
  lemma InsertPast(r: Record, s: seq<Record>)
    requires SortedByCity(s) && s != [] && Alphabet(s[0], r)
    requires SortedByCity(Insert(r, s[1..]))
    ensures SortedByCity(Insert(r, s))
  {
    var t := Insert(r, s[1..]);
    assert Insert(r, s) == [s[0]] + t;
    forall j | 0 < j < |[s[0]] + t|
      ensures !Alphabet(([s[0]] + t)[j], s[0])
    {
      NotBeforeHead(r, s, t[j - 1]);
    }
  }

  /** Nothing `r` is inserted among after `s[0]` has a city before that of `s[0]`. */
  lemma NotBeforeHead(r: Record, s: seq<Record>, x: Record)
    requires SortedByCity(s) && s != [] && Alphabet(s[0], r)
    requires x in Insert(r, s[1..])
    ensures !Alphabet(x, s[0])
  {
    InsertMembers(r, s[1..], x);
    if x == r {
      LexLessAsymmetric(s[0].city, r.city);
    } else {
      var k :| 0 <= k < |s[1..]| && s[1..][k] == x;
      assert s[k + 1] == x;
    }
  }

  /** An inserted list holds the new record and the old ones, nothing else. */
  lemma {:induction false} InsertMembers(r: Record, s: seq<Record>, x: Record)
    requires x in Insert(r, s)
    ensures x == r || x in s
  {
    if s != [] && Alphabet(s[0], r) && x != s[0] {
      InsertMembers(r, s[1..], x);
    }
  }
}
