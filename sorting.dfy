/**
 * The ORDER BY of the repository queries: a listing sorted by a comparator.
 * A comparator `leq` says whether its first argument may come before its
 * second; the database may order rows that compare equal either way, and
 * the model keeps them in table order.
 */
module Sorting {

  /** Any two elements compare one way or the other. */
  ghost predicate Total<T(!new)>(leq: (T, T) -> bool)
  {
    forall a, b :: leq(a, b) || leq(b, a)
  }

  /** Every element may come before the one after it. */
  predicate Ordered<T>(s: seq<T>, leq: (T, T) -> bool)
  {
    forall i :: 0 <= i < |s| - 1 ==> leq(s[i], s[i + 1])
  }

  /** Puts x before the first element it may precede. */
  function InsertSorted<T>(x: T, s: seq<T>, leq: (T, T) -> bool): (r: seq<T>)
    ensures multiset(r) == multiset(s) + multiset{x}
    ensures r[0] == x || (s != [] && r[0] == s[0])
  {
    if s == [] then [x]
    else if leq(x, s[0]) then [x] + s
    else
      assert s == [s[0]] + s[1..];
      [s[0]] + InsertSorted(x, s[1..], leq)
  }

  /** Insertion into an ordered list keeps it ordered. */
  lemma {:induction false} InsertSortedOrdered<T(!new)>(x: T, s: seq<T>, leq: (T, T) -> bool)
    requires Total(leq) && Ordered(s, leq)
    ensures Ordered(InsertSorted(x, s, leq), leq)
  {
    if s != [] && !leq(x, s[0]) {
      assert leq(s[0], x);
      InsertSortedOrdered(x, s[1..], leq);
      var r := InsertSorted(x, s, leq);
      assert r[1..] == InsertSorted(x, s[1..], leq);
      forall i | 0 <= i < |r| - 1 ensures leq(r[i], r[i + 1]) {
        if i > 0 {
          assert r[i] == r[1..][i - 1] && r[i + 1] == r[1..][i];
        }
      }
    }
  }

  /** The listing sorted by `leq`, rows that compare equal kept in their original order. */
  function SortBy<T>(s: seq<T>, leq: (T, T) -> bool): (r: seq<T>)
    ensures multiset(r) == multiset(s) && |r| == |s|
  {
    if s == [] then []
    else
      assert s == [s[0]] + s[1..];
      InsertSorted(s[0], SortBy(s[1..], leq), leq)
  }

  /**
   * The sorted listing is ordered and holds exactly the rows it was given,
   * each as often as before.
   */
  lemma {:induction false} SortByOrdered<T(!new)>(s: seq<T>, leq: (T, T) -> bool)
    requires Total(leq)
    ensures Ordered(SortBy(s, leq), leq)
    ensures multiset(SortBy(s, leq)) == multiset(s)
    ensures forall x :: x in SortBy(s, leq) <==> x in s
  {
    if s != [] {
      SortByOrdered(s[1..], leq);
      InsertSortedOrdered(s[0], SortBy(s[1..], leq), leq);
    }
    var r := SortBy(s, leq);
    forall x ensures x in r <==> x in s {
      assert x in r <==> x in multiset(r);
    }
  }

  // ---------------------------------------------------------------------
  // String order
  // ---------------------------------------------------------------------

  /** Lexicographic order of code points: a prefix comes first. */
  predicate LexLeq(a: string, b: string)
  {
    if a == [] then true
    else if b == [] then false
    else if a[0] != b[0] then a[0] < b[0]
    else LexLeq(a[1..], b[1..])
  }

  /** Any two strings compare one way or the other. */
  lemma {:induction false} LexLeqTotal(a: string, b: string)
    ensures LexLeq(a, b) || LexLeq(b, a)
  {
    if a != [] && b != [] && a[0] == b[0] {
      LexLeqTotal(a[1..], b[1..]);
    }
  }

  /** Strings in order do not compare the other way unless they are equal. */
  lemma {:induction false} LexLeqAntisymmetric(a: string, b: string)
    requires LexLeq(a, b) && LexLeq(b, a)
    ensures a == b
  {
    if a != [] && b != [] {
      LexLeqAntisymmetric(a[1..], b[1..]);
      assert a == [a[0]] + a[1..] && b == [b[0]] + b[1..];
    }
  }
}
